/** Teardown of an SSH import: the accept worker, one forwarding thread per connection and
    Close, which joins the forwarders while holding the lock of their vector. No lock
    guards libssh2 here, so the model claims order and accounting, not exclusion. */
module ImportTeardown {

  datatype Call = OpenChannel | ChannelUse(chan: nat) | ChannelFree(chan: nat) | Disconnect | SessionFree

  datatype Event = Lib(call: Call) | Joined(w: nat) | AcceptorJoined

  datatype Holder = Nobody | Acceptor | Closer

  /** Program counter of WorkerFunction's accept loop. */
  datatype AcceptPc =
    | NotStarted | Top | Selecting | Accepted | Opening
    | LockThreads(chan: nat) | Emplace(chan: nat) | UnlockThreads
    | CloseListener | Gone

  /** Program counter of ForwardData. */
  datatype ForwardPc = LoopTop | Writing | WriteCall | Reading | Sending | Cleanup | Exited

  datatype ClosePc =
    | Idle | Stop | JoinAcceptor
    | LockAll | JoinAll(next: nat) | ClearAll | UnlockAll
    | TestSession | Goodbye | FreeSession | ClearSession | CloseSocket

  /** `forwards` are all forwarding threads ever started, thread k serving channel k;
      `registered` is forward_threads_. */
  datatype State = State(
    running: bool, lock: Holder, accept: AcceptPc, joinable: bool, closer: ClosePc,
    forwards: seq<ForwardPc>, registered: seq<nat>, channels: nat,
    session: bool, closes: nat, trace: seq<Event>)

  /** The connected state: the session is up, and the worker runs or was never started. */
  ghost predicate Init(s: State) {
    && s.lock == Nobody && s.closer == Idle && s.forwards == [] && s.registered == []
    && s.channels == 0 && s.session && s.closes == 0 && s.trace == []
    && s.joinable == s.running && s.accept == if s.running then Top else NotStarted
  }

  datatype Action = Tau | Emit(event: Event)

  ghost predicate AcceptStep(s: State, a: Action, pc: AcceptPc) {
    match s.accept
    case NotStarted => false
    case Top => a == Tau && pc == if s.running then Selecting else CloseListener
    case Selecting => a == Tau && (pc == Top || pc == Accepted || pc == CloseListener)
    case Accepted => a == Tau && pc == if s.running then Opening else CloseListener
    case Opening => a == Emit(Lib(OpenChannel)) && (pc == Top || pc == LockThreads(s.channels))
    case LockThreads(c) => a == Tau && s.lock == Nobody && pc == Emplace(c)
    case Emplace(_) => a == Tau && pc == UnlockThreads
    case UnlockThreads => a == Tau && pc == Top
    case CloseListener => a == Tau && pc == Gone
    case Gone => false
  }

  ghost predicate ForwardStep(running: bool, w: nat, f: ForwardPc, a: Action, pc: ForwardPc) {
    match f
    case LoopTop => a == Tau && if running then pc == Writing || pc == Cleanup else pc == Cleanup
    case Writing => a == Tau && (pc == Reading || (running && pc == WriteCall))
    case WriteCall => a == Emit(Lib(ChannelUse(w))) && (pc == Writing || pc == Reading || pc == Cleanup)
    case Reading => a == Emit(Lib(ChannelUse(w))) && (pc == Sending || pc == LoopTop || pc == Cleanup)
    case Sending => a == Tau && (pc == LoopTop || pc == Cleanup || (running && pc == Sending))
    case Cleanup => a == Emit(Lib(ChannelFree(w))) && pc == Exited
    case Exited => false
  }

  ghost predicate CloseStep(s: State, a: Action, pc: ClosePc) {
    match s.closer
    case Idle => a == Tau && pc == Stop
    case Stop => a == Tau && pc == JoinAcceptor
    case JoinAcceptor => pc == LockAll && if s.joinable then s.accept.Gone? && a == Emit(AcceptorJoined) else a == Tau
    case LockAll => a == Tau && s.lock == Nobody && pc == JoinAll(0)
    case JoinAll(k) =>
      if k < |s.registered| then
        && s.registered[k] < |s.forwards| && s.forwards[s.registered[k]].Exited?
        && a == Emit(Joined(s.registered[k])) && pc == JoinAll(k + 1)
      else a == Tau && pc == ClearAll
    case ClearAll => a == Tau && pc == UnlockAll
    case UnlockAll => a == Tau && pc == TestSession
    case TestSession => a == Tau && pc == if s.session then Goodbye else CloseSocket
    case Goodbye => a == Emit(Lib(Disconnect)) && pc == FreeSession
    case FreeSession => a == Emit(Lib(SessionFree)) && pc == ClearSession
    case ClearSession => a == Tau && pc == CloseSocket
    case CloseSocket => a == Tau && pc == Idle
  }

  datatype Step =
    | AcceptorMoves(a: Action, apc: AcceptPc)
    | ForwarderMoves(w: nat, a: Action, fpc: ForwardPc)
    | CloserMoves(a: Action, cpc: ClosePc)

  ghost predicate CanStep(s: State, step: Step) {
    match step
    case AcceptorMoves(a, pc) => AcceptStep(s, a, pc)
    case ForwarderMoves(w, a, pc) => w < |s.forwards| && ForwardStep(s.running, w, s.forwards[w], a, pc)
    case CloserMoves(a, pc) => CloseStep(s, a, pc)
  }

  function TraceAfter(trace: seq<Event>, a: Action): seq<Event> {
    if a.Emit? then trace + [a.event] else trace
  }

  function After(s: State, step: Step): State
    requires step.ForwarderMoves? ==> step.w < |s.forwards|
  {
    match step
    case AcceptorMoves(a, pc) =>
      State(s.running,
            if pc.Emplace? then Acceptor else if s.accept.UnlockThreads? then Nobody else s.lock,
            pc, s.joinable, s.closer,
            if s.accept.Emplace? then s.forwards + [LoopTop] else s.forwards,
            if s.accept.Emplace? then s.registered + [|s.forwards|] else s.registered,
            if s.accept.Opening? && pc.LockThreads? then s.channels + 1 else s.channels,
            s.session, s.closes, TraceAfter(s.trace, a))
    case ForwarderMoves(w, a, pc) =>
      State(s.running, s.lock, s.accept, s.joinable, s.closer, s.forwards[w := pc], s.registered, s.channels,
            s.session, s.closes, TraceAfter(s.trace, a))
    case CloserMoves(a, pc) =>
      State(s.running && !s.closer.Stop?,
            if s.closer.LockAll? then Closer else if s.closer.UnlockAll? then Nobody else s.lock,
            s.accept, s.joinable && !s.closer.JoinAcceptor?, pc, s.forwards,
            if s.closer.ClearAll? then [] else s.registered, s.channels,
            s.session && !s.closer.ClearSession?,
            if s.closer.CloseSocket? then s.closes + 1 else s.closes,
            TraceAfter(s.trace, a))
  }

  ghost predicate Next(s: State, step: Step, s': State) {
    CanStep(s, step) && s' == After(s, step)
  }

  ghost predicate IsRun(states: seq<State>, steps: seq<Step>) {
    && |states| == |steps| + 1
    && Init(states[0])
    && forall k :: 0 <= k < |steps| ==> Next(states[k], steps[k], states[k + 1])
  }

  // -------------------------------------------------------------- invariant

  ghost function Count(s: State, e: Event): nat {
    multiset(s.trace)[e]
  }

  function Emitted(step: Step): Action {
    step.a
  }

  lemma CountStep(s: State, step: Step, s': State, e: Event)
    requires Next(s, step, s')
    ensures Count(s', e) == Count(s, e) + if Emitted(step) == Emit(e) then 1 else 0
  {
  }

  ghost predicate AcceptorGone(s: State) {
    s.accept.NotStarted? || s.accept.Gone?
  }

  ghost predicate AllExited(s: State) {
    forall w :: 0 <= w < |s.forwards| ==> s.forwards[w].Exited?
  }

  function Stage(pc: ClosePc): nat {
    match pc
    case Idle => 0
    case Stop => 0
    case JoinAcceptor => 1
    case LockAll => 2
    case JoinAll(_) => 2
    case ClearAll => 3
    case UnlockAll => 4
    case TestSession => 4
    case Goodbye => 4
    case FreeSession => 4
    case ClearSession => 5
    case CloseSocket => 6
  }

  ghost predicate Reached(s: State, k: nat) {
    s.closes > 0 || Stage(s.closer) >= k
  }

  ghost predicate LockMatches(s: State) {
    && (s.lock == Acceptor <==> s.accept.Emplace? || s.accept.UnlockThreads?)
    && (s.lock == Closer <==> s.closer.JoinAll? || s.closer.ClearAll? || s.closer.UnlockAll?)
  }

  /** What the passed stages of Close guarantee about the threads. */
  ghost predicate ThreadStages(s: State) {
    && (Reached(s, 1) ==> !s.running)
    && (Reached(s, 2) ==> AcceptorGone(s) && !s.joinable)
    && (Reached(s, 3) ==> AllExited(s))
    && (Reached(s, 4) ==> s.registered == [])
  }

  /** What they guarantee about the session and the accept thread's join. */
  ghost predicate SessionStages(s: State) {
    && (s.session <==> !Reached(s, 6))
    && (s.closer.Goodbye? || s.closer.FreeSession? || s.closer.ClearSession? ==> s.session)
    && Count(s, Lib(SessionFree)) == (if Reached(s, 5) then 1 else 0)
    && Count(s, Lib(Disconnect)) == (if s.closer.FreeSession? || Reached(s, 5) then 1 else 0)
    && (!s.joinable ==> AcceptorGone(s)) && (s.accept.NotStarted? ==> !s.joinable)
    && Count(s, AcceptorJoined) == (if s.joinable || s.accept.NotStarted? then 0 else 1)
  }

  ghost predicate StagesMatch(s: State) {
    ThreadStages(s) && SessionStages(s)
  }

  /** How many of the registered threads the current Close has joined already. */
  function JoinedSoFar(s: State): nat {
    match s.closer
    case JoinAll(k) => k
    case ClearAll => |s.registered|
    case _ => 0
  }

  /** Registered threads are all threads, in order, until Close has joined and cleared them. */
  ghost predicate ThreadsMatch(s: State) {
    && (if Reached(s, 4) then s.registered == []
        else |s.registered| == |s.forwards| && forall k :: 0 <= k < |s.registered| ==> s.registered[k] == k)
    && JoinedSoFar(s) <= |s.registered|
    && (forall w :: 0 <= w < JoinedSoFar(s) && w < |s.forwards| ==> s.forwards[w].Exited?)
  }

  ghost predicate JoinsMatch(s: State) {
    forall w: nat :: Count(s, Joined(w)) == if WasJoined(s, w) then 1 else 0
  }

  ghost predicate ChannelsMatch(s: State) {
    && s.channels == |s.forwards| + (if s.accept.LockThreads? || s.accept.Emplace? then 1 else 0)
    && (forall w: nat :: Count(s, Lib(ChannelFree(w))) == if w < |s.forwards| && s.forwards[w].Exited? then 1 else 0)
  }

  ghost predicate Inv(s: State) {
    LockMatches(s) && StagesMatch(s) && ThreadsMatch(s) && JoinsMatch(s) && ChannelsMatch(s)
  }

  lemma InitHolds(s: State)
    requires Init(s)
    ensures Inv(s)
  {
  }

  lemma LockPreserved(s: State, step: Step, s': State)
    requires LockMatches(s) && Next(s, step, s')
    ensures LockMatches(s')
  {
  }

  lemma CloserThreadStages(s: State, a: Action, pc: ClosePc, s': State)
    requires StagesMatch(s) && ThreadsMatch(s) && Next(s, CloserMoves(a, pc), s')
    ensures ThreadStages(s')
  {
  }

  lemma CloserSessionStages(s: State, a: Action, pc: ClosePc, s': State)
    requires SessionStages(s) && (Reached(s, 2) ==> !s.joinable) && Next(s, CloserMoves(a, pc), s')
    ensures SessionStages(s')
  {
    CountStep(s, CloserMoves(a, pc), s', Lib(SessionFree));
    CountStep(s, CloserMoves(a, pc), s', Lib(Disconnect));
    CountStep(s, CloserMoves(a, pc), s', AcceptorJoined);
  }

  lemma StagesPreserved(s: State, step: Step, s': State)
    requires Inv(s) && Next(s, step, s')
    ensures StagesMatch(s')
  {
    if step.CloserMoves? {
      CloserThreadStages(s, step.a, step.cpc, s');
      CloserSessionStages(s, step.a, step.cpc, s');
    } else {
      CountStep(s, step, s', Lib(SessionFree));
      CountStep(s, step, s', Lib(Disconnect));
      CountStep(s, step, s', AcceptorJoined);
    }
  }

  lemma ThreadsPreserved(s: State, step: Step, s': State)
    requires LockMatches(s) && StagesMatch(s) && ThreadsMatch(s) && Next(s, step, s')
    ensures ThreadsMatch(s')
  {
  }

  lemma JoinCounts(s: State, step: Step, s': State, w: nat)
    requires StagesMatch(s) && ThreadsMatch(s) && JoinsMatch(s) && Next(s, step, s')
    ensures Count(s', Joined(w)) == if WasJoined(s', w) then 1 else 0
  {
    CountStep(s, step, s', Joined(w));
    assert Count(s, Joined(w)) == if WasJoined(s, w) then 1 else 0;
    match step
    case AcceptorMoves(a, pc) => assert !Reached(s, 2) && JoinedSoFar(s') == JoinedSoFar(s) == 0;
    case ForwarderMoves(_, a, _) => assert !(a.Emit? && a.event.Joined?);
    case CloserMoves(a, pc) => CloserJoinCounts(s, a, pc, s', w);
  }

  ghost predicate WasJoined(s: State, w: nat) {
    w < |s.forwards| && (Reached(s, 4) || w < JoinedSoFar(s))
  }

  /** A step of Close marks the thread it joins, and no other, as joined. */
  lemma CloserMarks(s: State, a: Action, pc: ClosePc, s': State, w: nat)
    requires StagesMatch(s) && ThreadsMatch(s) && Next(s, CloserMoves(a, pc), s')
    ensures if a == Emit(Joined(w)) then !WasJoined(s, w) && WasJoined(s', w) else WasJoined(s', w) == WasJoined(s, w)
  {
    CloserJoinsNext(s, a, pc);
    assert s'.forwards == s.forwards && s'.closer == pc;
  }

  lemma CloserJoinCounts(s: State, a: Action, pc: ClosePc, s': State, w: nat)
    requires StagesMatch(s) && ThreadsMatch(s) && JoinsMatch(s) && Next(s, CloserMoves(a, pc), s')
    ensures Count(s', Joined(w)) == if WasJoined(s', w) then 1 else 0
  {
    CountStep(s, CloserMoves(a, pc), s', Joined(w));
    CloserMarks(s, a, pc, s', w);
    assert Count(s, Joined(w)) == if WasJoined(s, w) then 1 else 0;
  }

  /** Close joins the registered threads one by one and nothing else. */
  lemma CloserJoinsNext(s: State, a: Action, pc: ClosePc)
    requires StagesMatch(s) && ThreadsMatch(s) && CloseStep(s, a, pc)
    ensures if s.closer.JoinAll? && s.closer.next < |s.registered|
            then s.closes == 0 && a == Emit(Joined(s.closer.next)) && pc == JoinAll(s.closer.next + 1)
            else !(a.Emit? && a.event.Joined?)
    ensures s.closer.JoinAll? && s.closer.next >= |s.registered| ==> s.closer.next == |s.registered| && pc == ClearAll
  {
  }

  lemma JoinsPreserved(s: State, step: Step, s': State)
    requires StagesMatch(s) && ThreadsMatch(s) && JoinsMatch(s) && Next(s, step, s')
    ensures JoinsMatch(s')
  {
    forall w: nat
      ensures Count(s', Joined(w)) == if WasJoined(s', w) then 1 else 0
    {
      JoinCounts(s, step, s', w);
    }
  }

  /** Only forwarder w, in its own last step, frees channel w. */
  lemma FreeEvent(s: State, step: Step, w: nat)
    requires CanStep(s, step)
    ensures Emitted(step) == Emit(Lib(ChannelFree(w))) <==>
            step.ForwarderMoves? && step.w == w && s.forwards[w].Cleanup?
    ensures step.ForwarderMoves? ==> !s.forwards[step.w].Exited? && (step.fpc.Exited? <==> s.forwards[step.w].Cleanup?)
  {
  }

  lemma FreeCount(s: State, step: Step, s': State, w: nat)
    requires ChannelsMatch(s) && Next(s, step, s')
    ensures Count(s', Lib(ChannelFree(w))) == if w < |s'.forwards| && s'.forwards[w].Exited? then 1 else 0
  {
    CountStep(s, step, s', Lib(ChannelFree(w)));
    FreeEvent(s, step, w);
    assert Count(s, Lib(ChannelFree(w))) == if w < |s.forwards| && s.forwards[w].Exited? then 1 else 0;
  }

  lemma ChannelsPreserved(s: State, step: Step, s': State)
    requires ChannelsMatch(s) && Next(s, step, s')
    ensures ChannelsMatch(s')
  {
    forall w: nat
      ensures Count(s', Lib(ChannelFree(w))) == if w < |s'.forwards| && s'.forwards[w].Exited? then 1 else 0
    {
      FreeCount(s, step, s', w);
    }
  }

  lemma InvPreserved(s: State, step: Step, s': State)
    requires Inv(s) && Next(s, step, s')
    ensures Inv(s')
  {
    LockPreserved(s, step, s');
    StagesPreserved(s, step, s');
    ThreadsPreserved(s, step, s');
    JoinsPreserved(s, step, s');
    ChannelsPreserved(s, step, s');
  }

  lemma {:induction false} RunsKeepInv(states: seq<State>, steps: seq<Step>, k: nat)
    requires IsRun(states, steps) && k < |states|
    ensures Inv(states[k])
  {
    if k == 0 {
      InitHolds(states[0]);
    } else {
      var i := k - 1;
      RunsKeepInv(states, steps, i);
      assert Next(states[i], steps[i], states[i + 1]);
      InvPreserved(states[i], steps[i], states[k]);
    }
  }

  // --------------------------------------------------------------- theorems

  datatype CallTarget = OnSession | OnChannel(chan: nat)

  /** What a call works on. */
  function Target(call: Call): CallTarget {
    match call
    case ChannelUse(c) => OnChannel(c)
    case ChannelFree(c) => OnChannel(c)
    case _ => OnSession
  }

  /** Whether `f` may come after `e`. */
  predicate MayFollow(e: Event, f: Event) {
    match e
    case Lib(SessionFree) => !f.Lib? && !f.Joined? && !f.AcceptorJoined?
    case Lib(ChannelFree(c)) => f.Lib? ==> Target(f.call) != OnChannel(c)
    case Joined(w) => f != Joined(w) && (f.Lib? ==> Target(f.call) != OnChannel(w))
    case AcceptorJoined => !f.AcceptorJoined? && f != Lib(OpenChannel)
    case _ => true
  }

  ghost predicate Ordered(trace: seq<Event>) {
    forall i, j :: 0 <= i < j < |trace| ==> MayFollow(trace[i], trace[j])
  }

  lemma EventInTime(s: State, step: Step, e: Event)
    requires Inv(s) && CanStep(s, step) && Emitted(step).Emit? && Count(s, e) > 0
    ensures MayFollow(e, Emitted(step).event)
  {
    match step
    case AcceptorMoves(_, _) => assert !Reached(s, 2);
    case ForwarderMoves(w, _, _) =>
      assert !Reached(s, 3);
      assert Count(s, Lib(ChannelFree(w))) == 0;
      assert Count(s, Joined(w)) == 0;
    case CloserMoves(_, _) =>
      if s.closer.JoinAll? {
        assert Count(s, Joined(s.closer.next)) == 0;
      }
  }

  lemma OrderPreserved(s: State, step: Step, s': State)
    requires Inv(s) && Ordered(s.trace) && Next(s, step, s')
    ensures Ordered(s'.trace)
  {
    if Emitted(step).Emit? {
      assert s'.trace == s.trace + [Emitted(step).event];
      forall i: nat | i < |s.trace| ensures MayFollow(s.trace[i], Emitted(step).event) {
        assert s.trace[i] in multiset(s.trace);
        EventInTime(s, step, s.trace[i]);
      }
    }
  }

  /** Join before free, over whole runs: no libssh2 call, and no join, comes after the
      session is freed; none on a channel after that channel is freed. */
  lemma {:induction false} RunsAreOrdered(states: seq<State>, steps: seq<Step>, k: nat)
    requires IsRun(states, steps) && k < |states|
    ensures Ordered(states[k].trace)
  {
    if k > 0 {
      var i := k - 1;
      RunsAreOrdered(states, steps, i);
      RunsKeepInv(states, steps, i);
      assert Next(states[i], steps[i], states[i + 1]);
      OrderPreserved(states[i], steps[i], states[k]);
    }
  }

  /** When Close has returned, no thread runs, every forwarding thread was joined once and
      every channel ever opened was freed once. */
  lemma CloseLeavesNothing(s: State)
    requires Inv(s) && s.closer == Idle && s.closes > 0
    ensures !s.running && AcceptorGone(s) && AllExited(s) && !s.session
    ensures Count(s, Lib(SessionFree)) == 1 && Count(s, Lib(Disconnect)) == 1
    ensures forall w: nat :: Count(s, Joined(w)) == Count(s, Lib(ChannelFree(w))) == if w < s.channels then 1 else 0
  {
    forall w: nat
      ensures Count(s, Joined(w)) == Count(s, Lib(ChannelFree(w))) == if w < s.channels then 1 else 0
    {
      assert Count(s, Joined(w)) == if WasJoined(s, w) then 1 else 0;
      assert Count(s, Lib(ChannelFree(w))) == if w < |s.forwards| && s.forwards[w].Exited? then 1 else 0;
    }
  }

  // ----------------------------------------------------------------- service

  ghost predicate Leaving(s: State, channels: nat) {
    !s.running && (s.accept.Accepted? || s.accept.CloseListener? || s.accept.Gone?) && s.channels == channels
  }

  lemma LeavingStep(s: State, step: Step, s': State)
    requires Next(s, step, s') && Leaving(s, s.channels)
    ensures Leaving(s', s.channels)
  {
  }

  /** A client accepted when the import has been stopped gets no channel, nor does any later
      one: the worker leaves. */
  lemma {:induction false} LateClientGetsNoChannel(states: seq<State>, steps: seq<Step>, i: nat, k: nat)
    requires IsRun(states, steps) && i <= k < |states| && states[i].accept.Accepted? && !states[i].running
    ensures Leaving(states[k], states[i].channels)
  {
    if i < k {
      var j := k - 1;
      LateClientGetsNoChannel(states, steps, i, j);
      assert Next(states[j], steps[j], states[j + 1]);
      LeavingStep(states[j], steps[j], states[k]);
    }
  }

  ghost predicate Comes(s: State) {
    exists states, steps :: IsRun(states, steps) && states[|steps|] == s
  }

  lemma Goes(s: State, step: Step) returns (s': State)
    requires Comes(s) && CanStep(s, step)
    ensures Comes(s') && s' == After(s, step)
  {
    s' := After(s, step);
    var states, steps :| IsRun(states, steps) && states[|steps|] == s;
    var states', steps' := states + [s'], steps + [step];
    forall k | 0 <= k < |steps'| ensures Next(states'[k], steps'[k], states'[k + 1]) {
      if k < |steps| {
        assert Next(states[k], steps[k], states[k + 1]);
      }
    }
    assert IsRun(states', steps');
  }

  /** n connections are being forwarded, and the worker waits for more. */
  ghost predicate Serving(s: State, n: nat) {
    && s.running && s.session && s.lock == Nobody && s.accept == Top && s.closer == Idle
    && s.channels == |s.forwards| == n && forall w :: 0 <= w < n ==> s.forwards[w] == LoopTop
  }

  lemma OpensChannel(s: State, n: nat) returns (s': State)
    requires Comes(s) && Serving(s, n)
    ensures Comes(s') && s' == s.(accept := LockThreads(n), channels := n + 1, trace := s.trace + [Lib(OpenChannel)])
  {
    s' := Goes(s, AcceptorMoves(Tau, Selecting));
    s' := Goes(s', AcceptorMoves(Tau, Accepted));
    s' := Goes(s', AcceptorMoves(Tau, Opening));
    s' := Goes(s', AcceptorMoves(Emit(Lib(OpenChannel)), LockThreads(n)));
  }

  lemma StartsThread(s: State, n: nat) returns (s': State)
    requires Comes(s) && s.lock == Nobody && s.accept == LockThreads(n) && |s.forwards| == n
    ensures Comes(s')
    ensures s' == s.(accept := Top, forwards := s.forwards + [LoopTop], registered := s.registered + [n])
  {
    s' := Goes(s, AcceptorMoves(Tau, Emplace(n)));
    s' := Goes(s', AcceptorMoves(Tau, UnlockThreads));
    s' := Goes(s', AcceptorMoves(Tau, Top));
  }

  lemma Starts() returns (s: State)
    ensures Comes(s) && Serving(s, 0)
  {
    s := State(true, Nobody, Top, true, Idle, [], [], 0, true, 0, []);
    assert IsRun([s], []) && [s][0] == s;
  }

  /** Any number of connections can be forwarded at once. */
  lemma {:induction false} ServesAnyNumber(n: nat) returns (s: State)
    ensures Comes(s) && Serving(s, n)
  {
    if n == 0 {
      s := Starts();
    } else {
      s := ServesAnyNumber(n - 1);
      s := OpensChannel(s, n - 1);
      s := StartsThread(s, n - 1);
    }
  }

  /** And each can relay: one write and one read on its channel, and back in its loop. */
  lemma RelaysBothWays(s: State, n: nat, w: nat) returns (s': State)
    requires Comes(s) && Serving(s, n) && w < n
    ensures Comes(s') && s' == s.(trace := s.trace + [Lib(ChannelUse(w)), Lib(ChannelUse(w))])
  {
    s' := Goes(s, ForwarderMoves(w, Tau, Writing));
    s' := Goes(s', ForwarderMoves(w, Tau, WriteCall));
    s' := Goes(s', ForwarderMoves(w, Emit(Lib(ChannelUse(w))), Reading));
    s' := Goes(s', ForwarderMoves(w, Emit(Lib(ChannelUse(w))), Sending));
    s' := Goes(s', ForwarderMoves(w, Tau, LoopTop));
    assert s'.forwards == s.forwards;
    assert s'.trace == s.trace + [Lib(ChannelUse(w)), Lib(ChannelUse(w))];
  }

  // --------------------------------------------------------------- progress

  lemma ForwarderCanStep(s: State, w: nat) returns (step: Step)
    requires w < |s.forwards| && !s.forwards[w].Exited?
    ensures CanStep(s, step)
  {
    match s.forwards[w]
    case LoopTop => step := ForwarderMoves(w, Tau, Cleanup);
    case Writing => step := ForwarderMoves(w, Tau, Reading);
    case WriteCall => step := ForwarderMoves(w, Emit(Lib(ChannelUse(w))), Cleanup);
    case Reading => step := ForwarderMoves(w, Emit(Lib(ChannelUse(w))), Cleanup);
    case Sending => step := ForwarderMoves(w, Tau, LoopTop);
    case Cleanup => step := ForwarderMoves(w, Emit(Lib(ChannelFree(w))), Exited);
  }

  lemma AcceptorCanStep(s: State) returns (step: Step)
    requires Inv(s) && !AcceptorGone(s)
    ensures CanStep(s, step)
  {
    match s.accept
    case Top => step := AcceptorMoves(Tau, if s.running then Selecting else CloseListener);
    case Selecting => step := AcceptorMoves(Tau, Top);
    case Accepted => step := AcceptorMoves(Tau, if s.running then Opening else CloseListener);
    case Opening => step := AcceptorMoves(Emit(Lib(OpenChannel)), Top);
    case LockThreads(c) => step := AcceptorMoves(Tau, Emplace(c));
    case Emplace(_) => step := AcceptorMoves(Tau, UnlockThreads);
    case UnlockThreads => step := AcceptorMoves(Tau, Top);
    case CloseListener => step := AcceptorMoves(Tau, Gone);
  }

  /** Joining with the vector's lock held cannot deadlock: while Close is pending, Close or
      the thread it waits for can step. */
  lemma NoDeadlock(s: State) returns (step: Step)
    requires Inv(s) && !s.closer.Idle?
    ensures CanStep(s, step)
  {
    match s.closer
    case Stop => step := CloserMoves(Tau, JoinAcceptor);
    case JoinAcceptor =>
      if s.joinable && !s.accept.Gone? {
        step := AcceptorCanStep(s);
      } else {
        step := CloserMoves(if s.joinable then Emit(AcceptorJoined) else Tau, LockAll);
      }
    case LockAll => step := CloserMoves(Tau, JoinAll(0));
    case JoinAll(k) =>
      if k == |s.registered| {
        step := CloserMoves(Tau, ClearAll);
      } else if !s.forwards[k].Exited? {
        step := ForwarderCanStep(s, k);
      } else {
        step := CloserMoves(Emit(Joined(k)), JoinAll(k + 1));
      }
    case ClearAll => step := CloserMoves(Tau, UnlockAll);
    case UnlockAll => step := CloserMoves(Tau, TestSession);
    case TestSession => step := CloserMoves(Tau, if s.session then Goodbye else CloseSocket);
    case Goodbye => step := CloserMoves(Emit(Lib(Disconnect)), FreeSession);
    case FreeSession => step := CloserMoves(Emit(Lib(SessionFree)), ClearSession);
    case ClearSession => step := CloserMoves(Tau, CloseSocket);
    case CloseSocket => step := CloserMoves(Tau, Idle);
  }

  // ----------------------------------------------------------------- bounds

  /** Every step but the start of a fresh Close. */
  ghost predicate Drains(s: State, step: Step) {
    !(step.CloserMoves? && s.closer.Idle?)
  }

  function ForwardRank(f: ForwardPc): nat {
    match f
    case WriteCall => 6
    case Writing => 5
    case Reading => 4
    case Sending => 3
    case LoopTop => 2
    case Cleanup => 1
    case Exited => 0
  }

  /** Counting also the steps of the thread that may still be started and of its join. */
  function AcceptRank(pc: AcceptPc): nat {
    match pc
    case NotStarted => 0
    case Gone => 0
    case CloseListener => 1
    case Top => 2
    case UnlockThreads => 3
    case Emplace(_) => 7
    case LockThreads(_) => 8
    case Opening => 9
    case Accepted => 10
    case Selecting => 11
  }

  function CloseRank(pc: ClosePc, registered: nat): int {
    match pc
    case Idle => 0
    case CloseSocket => 1
    case ClearSession => 2
    case FreeSession => 3
    case Goodbye => 4
    case TestSession => 5
    case UnlockAll => 6
    case ClearAll => 7
    case JoinAll(k) => 8 + registered - k
    case LockAll => 9 + registered
    case JoinAcceptor => 10 + registered
    case Stop => 11 + registered
  }

  ghost function ForwardsRank(fs: seq<ForwardPc>): nat {
    if fs == [] then 0 else ForwardsRank(fs[..|fs| - 1]) + ForwardRank(fs[|fs| - 1])
  }

  lemma {:induction false} ForwardsRankUpdate(fs: seq<ForwardPc>, w: nat, f: ForwardPc)
    requires w < |fs|
    ensures ForwardsRank(fs[w := f]) + ForwardRank(fs[w]) == ForwardsRank(fs) + ForwardRank(f)
  {
    var n := |fs| - 1;
    if w == n {
      assert fs[w := f][..n] == fs[..n];
    } else {
      assert fs[w := f][..n] == fs[..n][w := f];
      ForwardsRankUpdate(fs[..n], w, f);
    }
  }

  ghost function Rank(s: State): int {
    AcceptRank(s.accept) + CloseRank(s.closer, |s.registered|) + ForwardsRank(s.forwards)
  }

  lemma AcceptorDescends(s: State, a: Action, pc: AcceptPc, s': State)
    requires !s.running && Next(s, AcceptorMoves(a, pc), s')
    ensures Rank(s') < Rank(s)
  {
    if s.accept.Emplace? {
      assert s'.forwards[..|s.forwards|] == s.forwards;
    }
  }

  lemma StepsDescend(s: State, step: Step, s': State)
    requires ThreadsMatch(s) && !s.running && Next(s, step, s') && Drains(s, step)
    ensures Rank(s') < Rank(s) && !s'.running
  {
    match step
    case AcceptorMoves(a, pc) => AcceptorDescends(s, a, pc, s');
    case ForwarderMoves(w, _, pc) => ForwardsRankUpdate(s.forwards, w, pc);
    case CloserMoves(_, _) =>
  }

  lemma ClosesGrow(s: State, step: Step, s': State)
    requires Next(s, step, s')
    ensures s'.closes >= s.closes
    ensures s'.closer.Idle? ==> s.closer.Idle? || s'.closes > 0
  {
  }

  /** A stretch of steps without a fresh Close, starting anywhere. */
  ghost predicate Drain(states: seq<State>, steps: seq<Step>) {
    && |states| == |steps| + 1
    && forall k :: 0 <= k < |steps| ==> Next(states[k], steps[k], states[k + 1]) && Drains(states[k], steps[k])
  }

  lemma {:induction false} DrainDescends(states: seq<State>, steps: seq<Step>, k: nat)
    requires Drain(states, steps) && Inv(states[0]) && !states[0].running && k <= |steps|
    ensures Inv(states[k]) && !states[k].running && Rank(states[k]) + k <= Rank(states[0])
    ensures !states[0].closer.Idle? && states[k].closer.Idle? ==> states[k].closes > 0
  {
    if k > 0 {
      var i := k - 1;
      DrainDescends(states, steps, i);
      assert Next(states[i], steps[i], states[i + 1]);
      StepsDescend(states[i], steps[i], states[k]);
      InvPreserved(states[i], steps[i], states[k]);
      ClosesGrow(states[i], steps[i], states[k]);
    }
  }

  /** When Close has returned, in any run, nothing is left. */
  lemma ClosedRunsLeaveNothing(states: seq<State>, steps: seq<Step>, i: nat)
    requires IsRun(states, steps) && i < |states| && states[i].closer == Idle && states[i].closes > 0
    ensures !states[i].running && AcceptorGone(states[i]) && AllExited(states[i]) && !states[i].session
    ensures Count(states[i], Lib(SessionFree)) == 1 && Count(states[i], Lib(Disconnect)) == 1
    ensures forall w: nat :: Count(states[i], Joined(w)) == Count(states[i], Lib(ChannelFree(w)))
                             == if w < states[i].channels then 1 else 0
  {
    RunsKeepInv(states, steps, i);
    CloseLeavesNothing(states[i]);
  }

  /** Close returns: once stopped, no schedule takes more than Rank steps, and one that
      can take no further step has finished Close and freed the session. */
  lemma CloseReturns(states: seq<State>, steps: seq<Step>)
    requires Drain(states, steps) && Inv(states[0]) && !states[0].running && !states[0].closer.Idle?
    ensures |steps| <= Rank(states[0])
    ensures var last := states[|steps|];
            (forall step :: CanStep(last, step) ==> !Drains(last, step)) ==>
              last.closer.Idle? && !last.session && AllExited(last)
  {
    DrainDescends(states, steps, |steps|);
    var last := states[|steps|];
    assert Rank(last) >= 0;
    if !last.closer.Idle? {
      var step := NoDeadlock(last);
      assert CanStep(last, step) && Drains(last, step);
    } else {
      CloseLeavesNothing(last);
    }
  }
}
