/** A mesh import under every interleaving: the forwarder's accept thread, one pump thread
    per connection, Close, which joins the pumps while it holds mu_, readers of the
    attributes, and the bridges on the Go side, which nobody joins. */
module MeshForward {

  /** Everything the import opens. Client k is the k-th accepted connection; the other
      three belong to link i. */
  datatype Handle = Listener | Client(k: nat) | Stream(i: nat) | GoEnd(i: nat) | MeshEnd(i: nat)

  datatype Event = Closed(h: Handle) | Joined(w: nat) | AcceptorJoined

  datatype Action = Tau | Emit(event: Event)

  datatype Holder = Nobody | Acceptor | Closer | Reader

  /** Program counter of AcceptLoop. */
  datatype AcceptPc =
    | Top | Selecting | Accepted | DropLate | Dialing | DropFailed
    | LockWorkers | Emplace | UnlockWorkers | Gone

  /** Program counter of Pump; Unborn until its thread is started. */
  datatype PumpPc = Unborn | LoopTop | Moving | CloseClient | CloseStream | Exited

  /** Program counter of bridge: which of its two copies have ended, then its two closes. */
  datatype BridgePc = Copying(up: bool, down: bool) | CloseGo | CloseMesh | Done

  datatype ClosePc =
    | Idle | Stop | JoinAcceptor | LockAll | JoinAll(next: nat) | ClearAll | UnlockAll | CloseListener

  datatype Link = Link(client: nat, pump: PumpPc, bridge: BridgePc)

  /** What became of an accepted client; a history variable, read by no step. */
  datatype Fate = Carried | Dropped | Linked(i: nat)

  datatype State = State(
    running: bool, lock: Holder, accept: AcceptPc, joinable: bool, closer: ClosePc,
    links: seq<Link>, registered: seq<nat>, clients: seq<Fate>,
    listener: bool, closes: nat, trace: seq<Event>)

  /** After Start: the listener is open and the accept thread runs. */
  ghost predicate Init(s: State) {
    s == State(true, Nobody, Top, true, Idle, [], [], [], true, 0, [])
  }

  ghost predicate AcceptStep(s: State, a: Action, pc: AcceptPc) {
    match s.accept
    case Top => a == Tau && pc == if s.running then Selecting else Gone
    case Selecting => a == Tau && (pc == Top || pc == Accepted)
    case Accepted => a == Tau && pc == if s.running then Dialing else DropLate
    case DropLate => s.clients != [] && a == Emit(Closed(Client(|s.clients| - 1))) && pc == Gone
    case Dialing => a == Tau && (pc == DropFailed || pc == LockWorkers)
    case DropFailed => s.clients != [] && a == Emit(Closed(Client(|s.clients| - 1))) && pc == Top
    case LockWorkers => a == Tau && s.lock == Nobody && pc == Emplace
    case Emplace => a == Tau && pc == UnlockWorkers
    case UnlockWorkers => a == Tau && pc == Top
    case Gone => false
  }

  ghost predicate PumpStep(running: bool, i: nat, l: Link, a: Action, pc: PumpPc) {
    match l.pump
    case Unborn => false
    case LoopTop => a == Tau && pc == if running then Moving else CloseClient
    case Moving => a == Tau && (pc == LoopTop || pc == CloseClient)
    case CloseClient => a == Emit(Closed(Client(l.client))) && pc == CloseStream
    case CloseStream => a == Emit(Closed(Stream(i))) && pc == Exited
    case Exited => false
  }

  ghost predicate BridgeStep(i: nat, b: BridgePc, a: Action, pc: BridgePc) {
    match b
    case Copying(up, down) =>
      && a == Tau
      && if up && down then pc == CloseGo else (!up && pc == Copying(true, down)) || (!down && pc == Copying(up, true))
    case CloseGo => a == Emit(Closed(GoEnd(i))) && pc == CloseMesh
    case CloseMesh => a == Emit(Closed(MeshEnd(i))) && pc == Done
    case Done => false
  }

  ghost predicate CloseStep(s: State, a: Action, pc: ClosePc) {
    match s.closer
    case Idle => a == Tau && pc == Stop
    case Stop => a == Tau && pc == JoinAcceptor
    case JoinAcceptor => pc == LockAll && if s.joinable then s.accept.Gone? && a == Emit(AcceptorJoined) else a == Tau
    case LockAll => a == Tau && s.lock == Nobody && pc == JoinAll(0)
    case JoinAll(k) =>
      if k < |s.registered| then
        && s.registered[k] < |s.links| && s.links[s.registered[k]].pump.Exited?
        && a == Emit(Joined(s.registered[k])) && pc == JoinAll(k + 1)
      else a == Tau && pc == ClearAll
    case ClearAll => a == Tau && pc == UnlockAll
    case UnlockAll => a == Tau && pc == CloseListener
    case CloseListener => a == (if s.listener then Emit(Closed(Listener)) else Tau) && pc == Idle
  }

  datatype Step =
    | AcceptorMoves(a: Action, apc: AcceptPc)
    | PumpMoves(i: nat, a: Action, ppc: PumpPc)
    | BridgeMoves(i: nat, a: Action, bpc: BridgePc)
    | CloserMoves(a: Action, cpc: ClosePc)
    | ReaderLocks | ReaderUnlocks

  ghost predicate CanStep(s: State, step: Step) {
    match step
    case AcceptorMoves(a, pc) => AcceptStep(s, a, pc)
    case PumpMoves(i, a, pc) => i < |s.links| && PumpStep(s.running, i, s.links[i], a, pc)
    case BridgeMoves(i, a, pc) => i < |s.links| && BridgeStep(i, s.links[i].bridge, a, pc)
    case CloserMoves(a, pc) => CloseStep(s, a, pc)
    case ReaderLocks => s.lock == Nobody
    case ReaderUnlocks => s.lock == Reader
  }

  function Emitted(step: Step): Action {
    match step
    case AcceptorMoves(a, _) => a
    case PumpMoves(_, a, _) => a
    case BridgeMoves(_, a, _) => a
    case CloserMoves(a, _) => a
    case _ => Tau
  }

  function TraceAfter(trace: seq<Event>, a: Action): seq<Event> {
    if a.Emit? then trace + [a.event] else trace
  }

  function ClientsAfter(s: State, pc: AcceptPc): seq<Fate> {
    if s.accept.Selecting? && pc.Accepted? then s.clients + [Carried]
    else if s.clients == [] then []
    else if s.accept.DropLate? || s.accept.DropFailed? then s.clients[|s.clients| - 1 := Dropped]
    else if s.accept.Dialing? && pc.LockWorkers? then s.clients[|s.clients| - 1 := Linked(|s.links|)]
    else s.clients
  }

  /** mesh_dial starts the bridge; the pump's thread starts with its entry in workers_. */
  function LinksAfter(s: State, pc: AcceptPc): seq<Link> {
    if s.accept.Dialing? && pc.LockWorkers? && s.clients != [] then
      s.links + [Link(|s.clients| - 1, Unborn, Copying(false, false))]
    else if s.accept.Emplace? && s.links != [] then
      s.links[|s.links| - 1 := s.links[|s.links| - 1].(pump := LoopTop)]
    else s.links
  }

  function AfterAcceptor(s: State, a: Action, pc: AcceptPc): State {
    State(s.running,
          if pc.Emplace? then Acceptor else if s.accept.UnlockWorkers? then Nobody else s.lock,
          pc, s.joinable, s.closer, LinksAfter(s, pc),
          if s.accept.Emplace? && s.links != [] then s.registered + [|s.links| - 1] else s.registered,
          ClientsAfter(s, pc), s.listener, s.closes, TraceAfter(s.trace, a))
  }

  function AfterLink(s: State, i: nat, a: Action, l: Link): State
    requires i < |s.links|
  {
    State(s.running, s.lock, s.accept, s.joinable, s.closer, s.links[i := l], s.registered, s.clients,
          s.listener, s.closes, TraceAfter(s.trace, a))
  }

  function AfterCloser(s: State, a: Action, pc: ClosePc): State {
    State(s.running && !s.closer.Stop?,
          if s.closer.LockAll? then Closer else if s.closer.UnlockAll? then Nobody else s.lock,
          s.accept, s.joinable && !s.closer.JoinAcceptor?, pc, s.links,
          if s.closer.ClearAll? then [] else s.registered, s.clients,
          s.listener && !s.closer.CloseListener?,
          if s.closer.CloseListener? then s.closes + 1 else s.closes,
          TraceAfter(s.trace, a))
  }

  function After(s: State, step: Step): State
    requires (step.PumpMoves? ==> step.i < |s.links|) && (step.BridgeMoves? ==> step.i < |s.links|)
  {
    match step
    case AcceptorMoves(a, pc) => AfterAcceptor(s, a, pc)
    case PumpMoves(i, a, pc) => AfterLink(s, i, a, Link(s.links[i].client, pc, s.links[i].bridge))
    case BridgeMoves(i, a, pc) => AfterLink(s, i, a, Link(s.links[i].client, s.links[i].pump, pc))
    case CloserMoves(a, pc) => AfterCloser(s, a, pc)
    case ReaderLocks => s.(lock := Reader)
    case ReaderUnlocks => s.(lock := Nobody)
  }

  ghost predicate Next(s: State, step: Step, s': State) {
    CanStep(s, step) && s' == After(s, step)
  }

  ghost predicate IsRun(states: seq<State>, steps: seq<Step>) {
    && |states| == |steps| + 1
    && Init(states[0])
    && forall k :: 0 <= k < |steps| ==> Next(states[k], steps[k], states[k + 1])
  }

  // -------------------------------------------------------------- invariant

  ghost function Count(s: State, e: Event): nat {
    multiset(s.trace)[e]
  }

  ghost predicate AcceptorGone(s: State) {
    s.accept.Gone?
  }

  ghost predicate AllExited(s: State) {
    forall i :: 0 <= i < |s.links| ==> s.links[i].pump.Exited?
  }

  function Stage(pc: ClosePc): nat {
    match pc
    case Idle => 0
    case Stop => 0
    case JoinAcceptor => 1
    case LockAll => 2
    case JoinAll(_) => 2
    case ClearAll => 3
    case UnlockAll => 4
    case CloseListener => 4
  }

  ghost predicate Reached(s: State, k: nat) {
    s.closes > 0 || Stage(s.closer) >= k
  }

  ghost predicate LockMatches(s: State) {
    && (s.lock == Acceptor <==> s.accept.Emplace? || s.accept.UnlockWorkers?)
    && (s.lock == Closer <==> s.closer.JoinAll? || s.closer.ClearAll? || s.closer.UnlockAll?)
  }

  /** The last link's pump is not started yet. */
  predicate Pending(pc: AcceptPc) {
    pc.LockWorkers? || pc.Emplace?
  }

  ghost predicate StagesMatch(s: State) {
    && (Reached(s, 1) ==> !s.running)
    && (Reached(s, 2) ==> AcceptorGone(s) && !s.joinable)
    && (Reached(s, 3) ==> AllExited(s))
    && (s.listener <==> s.closes == 0)
    && (!s.joinable ==> AcceptorGone(s))
    && Count(s, AcceptorJoined) == (if s.joinable then 0 else 1)
  }

  function JoinedSoFar(s: State): nat {
    match s.closer
    case JoinAll(k) => k
    case ClearAll => |s.registered|
    case _ => 0
  }

  /** Registered threads are all started pumps, in order, until Close has joined them. */
  ghost predicate ThreadsMatch(s: State) {
    && (Pending(s.accept) ==> s.links != [])
    && (if Reached(s, 4) then s.registered == []
        else && |s.registered| == |s.links| - (if Pending(s.accept) then 1 else 0)
             && forall k :: 0 <= k < |s.registered| ==> s.registered[k] == k)
    && (forall i :: 0 <= i < |s.links| ==>
          (s.links[i].pump.Unborn? <==> Pending(s.accept) && i == |s.links| - 1))
    && JoinedSoFar(s) <= |s.registered|
    && (forall w :: 0 <= w < JoinedSoFar(s) && w < |s.links| ==> s.links[w].pump.Exited?)
  }

  ghost predicate WasJoined(s: State, w: nat) {
    w < |s.links| && (Reached(s, 4) || w < JoinedSoFar(s))
  }

  ghost predicate JoinsMatch(s: State) {
    forall w: nat :: Count(s, Joined(w)) == if WasJoined(s, w) then 1 else 0
  }

  predicate Carrying(pc: AcceptPc) {
    pc.Accepted? || pc.DropLate? || pc.Dialing? || pc.DropFailed?
  }

  /** Every accepted client is carried, dropped, or the client of exactly one link. */
  ghost predicate ClientsMatch(s: State) {
    && (Carrying(s.accept) ==> s.clients != [])
    && (forall k :: 0 <= k < |s.clients| ==>
          (s.clients[k].Carried? <==> Carrying(s.accept) && k == |s.clients| - 1))
    && (forall k :: 0 <= k < |s.clients| && s.clients[k].Linked? ==>
          s.clients[k].i < |s.links| && s.links[s.clients[k].i].client == k)
    && (forall i :: 0 <= i < |s.links| ==>
          s.links[i].client < |s.clients| && s.clients[s.links[i].client] == Linked(i))
  }

  /** Whether a handle has been closed, as the program counters say. */
  ghost predicate IsShut(s: State, h: Handle) {
    match h
    case Listener => !s.listener
    case Client(k) =>
      k < |s.clients| &&
      (match s.clients[k]
       case Carried => false
       case Dropped => true
       case Linked(i) => i < |s.links| && (s.links[i].pump.CloseStream? || s.links[i].pump.Exited?))
    case Stream(i) => i < |s.links| && s.links[i].pump.Exited?
    case GoEnd(i) => i < |s.links| && (s.links[i].bridge.CloseMesh? || s.links[i].bridge.Done?)
    case MeshEnd(i) => i < |s.links| && s.links[i].bridge.Done?
  }

  ghost predicate ClosesMatch(s: State) {
    forall h :: Count(s, Closed(h)) == if IsShut(s, h) then 1 else 0
  }

  ghost predicate Inv(s: State) {
    LockMatches(s) && StagesMatch(s) && ThreadsMatch(s) && JoinsMatch(s) && ClientsMatch(s) && ClosesMatch(s)
  }

  lemma InitHolds(s: State)
    requires Init(s)
    ensures Inv(s)
  {
  }

  lemma CountStep(s: State, step: Step, s': State, e: Event)
    requires Next(s, step, s')
    ensures Count(s', e) == Count(s, e) + if Emitted(step) == Emit(e) then 1 else 0
  {
  }

  lemma LockPreserved(s: State, step: Step, s': State)
    requires LockMatches(s) && Next(s, step, s')
    ensures LockMatches(s')
  {
  }

  lemma CloserStages(s: State, a: Action, pc: ClosePc, s': State)
    requires StagesMatch(s) && ThreadsMatch(s) && Next(s, CloserMoves(a, pc), s')
    ensures StagesMatch(s')
  {
    CountStep(s, CloserMoves(a, pc), s', AcceptorJoined);
    if s.closer.JoinAll? && pc.ClearAll? && !Reached(s, 4) {
      assert !Pending(s.accept) && JoinedSoFar(s) == |s.registered| == |s.links|;
    }
  }

  lemma AcceptorStages(s: State, a: Action, pc: AcceptPc, s': State)
    requires StagesMatch(s) && Next(s, AcceptorMoves(a, pc), s')
    ensures StagesMatch(s')
  {
    CountStep(s, AcceptorMoves(a, pc), s', AcceptorJoined);
    assert !AcceptorGone(s) && !Reached(s, 2) && s'.closer == s.closer && s'.closes == s.closes;
  }

  lemma StagesPreserved(s: State, step: Step, s': State)
    requires StagesMatch(s) && ThreadsMatch(s) && Next(s, step, s')
    ensures StagesMatch(s')
  {
    match step
    case CloserMoves(a, pc) => CloserStages(s, a, pc, s');
    case AcceptorMoves(a, pc) => AcceptorStages(s, a, pc, s');
    case _ => CountStep(s, step, s', AcceptorJoined);
  }

  lemma AcceptorThreads(s: State, a: Action, pc: AcceptPc, s': State)
    requires StagesMatch(s) && ThreadsMatch(s) && ClientsMatch(s) && Next(s, AcceptorMoves(a, pc), s')
    ensures ThreadsMatch(s')
  {
    assert !Reached(s, 2) && s'.closer == s.closer && s'.closes == s.closes && JoinedSoFar(s) == 0;
    if s.accept.Dialing? && pc.LockWorkers? {
      assert s'.links == s.links + [Link(|s.clients| - 1, Unborn, Copying(false, false))];
    } else if s.accept.Emplace? {
      assert s'.registered == s.registered + [|s.links| - 1];
    } else {
      assert s'.links == s.links && s'.registered == s.registered && Pending(pc) == Pending(s.accept);
    }
  }

  lemma CloserThreads(s: State, a: Action, pc: ClosePc, s': State)
    requires LockMatches(s) && StagesMatch(s) && ThreadsMatch(s) && Next(s, CloserMoves(a, pc), s')
    ensures ThreadsMatch(s')
  {
    assert s'.links == s.links && s'.accept == s.accept;
  }

  lemma LinkThreads(s: State, step: Step, s': State)
    requires ThreadsMatch(s) && Next(s, step, s') && (step.PumpMoves? || step.BridgeMoves?)
    ensures ThreadsMatch(s')
  {
    var i := step.i;
    assert s'.links == s.links[i := s'.links[i]] && s'.accept == s.accept && s'.closer == s.closer;
    assert s'.registered == s.registered && s'.closes == s.closes;
    assert !s'.links[i].pump.Unborn? || s'.links[i].pump == s.links[i].pump;
    assert s.links[i].pump.Exited? ==> s'.links[i].pump.Exited?;
  }

  lemma ThreadsPreserved(s: State, step: Step, s': State)
    requires LockMatches(s) && StagesMatch(s) && ThreadsMatch(s) && ClientsMatch(s) && Next(s, step, s')
    ensures ThreadsMatch(s')
  {
    match step
    case AcceptorMoves(a, pc) => AcceptorThreads(s, a, pc, s');
    case CloserMoves(a, pc) => CloserThreads(s, a, pc, s');
    case PumpMoves(_, _, _) => LinkThreads(s, step, s');
    case BridgeMoves(_, _, _) => LinkThreads(s, step, s');
    case _ =>
  }

  /** A step marks the thread it joins, and no other, as joined. */
  lemma JoinMarks(s: State, step: Step, s': State, w: nat)
    requires StagesMatch(s) && ThreadsMatch(s) && Next(s, step, s')
    ensures if Emitted(step) == Emit(Joined(w)) then !WasJoined(s, w) && WasJoined(s', w)
            else WasJoined(s', w) == WasJoined(s, w)
  {
    if step.AcceptorMoves? {
      assert !Reached(s, 2) && JoinedSoFar(s') == JoinedSoFar(s) == 0;
    }
  }

  lemma JoinsPreserved(s: State, step: Step, s': State)
    requires StagesMatch(s) && ThreadsMatch(s) && JoinsMatch(s) && Next(s, step, s')
    ensures JoinsMatch(s')
  {
    forall w: nat ensures Count(s', Joined(w)) == if WasJoined(s', w) then 1 else 0 {
      CountStep(s, step, s', Joined(w));
      JoinMarks(s, step, s', w);
      assert Count(s, Joined(w)) == if WasJoined(s, w) then 1 else 0;
    }
  }

  /** A dial that succeeds turns the carried client into the client of a new link. */
  lemma DialLinks(s: State, a: Action, pc: AcceptPc, s': State)
    requires ClientsMatch(s) && Next(s, AcceptorMoves(a, pc), s') && s.accept.Dialing? && pc.LockWorkers?
    ensures ClientsMatch(s')
  {
    var k := |s.clients| - 1;
    assert s'.clients == s.clients[k := Linked(|s.links|)];
    assert s'.links == s.links + [Link(k, Unborn, Copying(false, false))];
    forall i | 0 <= i < |s'.links|
      ensures s'.links[i].client < |s'.clients| && s'.clients[s'.links[i].client] == Linked(i)
    {
      assert i < |s.links| ==> s'.links[i] == s.links[i] && s.links[i].client != k;
    }
  }

  lemma DropForgets(s: State, a: Action, pc: AcceptPc, s': State)
    requires ClientsMatch(s) && Next(s, AcceptorMoves(a, pc), s') && (s.accept.DropLate? || s.accept.DropFailed?)
    ensures ClientsMatch(s')
  {
    assert s'.clients == s.clients[|s.clients| - 1 := Dropped] && s'.links == s.links;
  }

  lemma ArrivalCarried(s: State, a: Action, pc: AcceptPc, s': State)
    requires ClientsMatch(s) && Next(s, AcceptorMoves(a, pc), s') && s.accept.Selecting?
    ensures ClientsMatch(s')
  {
    assert s'.links == s.links;
    assert s'.clients == if pc.Accepted? then s.clients + [Carried] else s.clients;
  }

  lemma ClientsKept(s: State, s': State)
    requires ClientsMatch(s) && s'.clients == s.clients && Carrying(s'.accept) == Carrying(s.accept)
    requires |s'.links| == |s.links| && forall i :: 0 <= i < |s.links| ==> s'.links[i].client == s.links[i].client
    ensures ClientsMatch(s')
  {
  }

  lemma QuietAcceptor(s: State, a: Action, pc: AcceptPc, s': State)
    requires Next(s, AcceptorMoves(a, pc), s') && !s.accept.DropLate? && !s.accept.DropFailed? && !s.accept.Selecting?
    requires !(s.accept.Dialing? && pc.LockWorkers?)
    ensures s'.clients == s.clients && Carrying(s'.accept) == Carrying(s.accept)
    ensures |s'.links| == |s.links| && forall i :: 0 <= i < |s.links| ==> s'.links[i].client == s.links[i].client
  {
  }

  lemma AcceptorClients(s: State, a: Action, pc: AcceptPc, s': State)
    requires ClientsMatch(s) && Next(s, AcceptorMoves(a, pc), s')
    ensures ClientsMatch(s')
  {
    if s.accept.Dialing? && pc.LockWorkers? {
      DialLinks(s, a, pc, s');
    } else if s.accept.DropLate? || s.accept.DropFailed? {
      DropForgets(s, a, pc, s');
    } else if s.accept.Selecting? {
      ArrivalCarried(s, a, pc, s');
    } else {
      QuietAcceptor(s, a, pc, s');
      ClientsKept(s, s');
    }
  }

  lemma ClientsPreserved(s: State, step: Step, s': State)
    requires ClientsMatch(s) && Next(s, step, s')
    ensures ClientsMatch(s')
  {
    if step.AcceptorMoves? {
      AcceptorClients(s, step.a, step.apc, s');
    } else {
      assert s'.clients == s.clients && s'.accept == s.accept && |s'.links| == |s.links|;
      ClientsKept(s, s');
    }
  }

  lemma BridgeShuts(s: State, i: nat, a: Action, pc: BridgePc, s': State, h: Handle)
    requires Next(s, BridgeMoves(i, a, pc), s')
    ensures if a == Emit(Closed(h)) then !IsShut(s, h) && IsShut(s', h) else IsShut(s', h) == IsShut(s, h)
  {
  }

  lemma CloserShuts(s: State, a: Action, pc: ClosePc, s': State, h: Handle)
    requires Next(s, CloserMoves(a, pc), s')
    ensures if a == Emit(Closed(h)) then !IsShut(s, h) && IsShut(s', h) else IsShut(s', h) == IsShut(s, h)
  {
    assert s'.clients == s.clients && s'.links == s.links;
  }

  /** A step shuts the handle it closes, and no other. */
  lemma ShutMarks(s: State, step: Step, s': State, h: Handle)
    requires StagesMatch(s) && ThreadsMatch(s) && ClientsMatch(s) && Next(s, step, s')
    ensures if Emitted(step) == Emit(Closed(h)) then !IsShut(s, h) && IsShut(s', h)
            else IsShut(s', h) == IsShut(s, h)
  {
    match step
    case AcceptorMoves(a, pc) => AcceptorShuts(s, a, pc, s', h);
    case PumpMoves(i, a, pc) => PumpShuts(s, i, a, pc, s', h);
    case BridgeMoves(i, a, pc) => BridgeShuts(s, i, a, pc, s', h);
    case CloserMoves(a, pc) => CloserShuts(s, a, pc, s', h);
    case _ =>
  }

  lemma DropShuts(s: State, a: Action, pc: AcceptPc, s': State, h: Handle)
    requires ClientsMatch(s) && Next(s, AcceptorMoves(a, pc), s') && (s.accept.DropLate? || s.accept.DropFailed?)
    ensures if a == Emit(Closed(h)) then !IsShut(s, h) && IsShut(s', h) else IsShut(s', h) == IsShut(s, h)
  {
    assert s'.clients == s.clients[|s.clients| - 1 := Dropped] && s'.links == s.links && s'.listener == s.listener;
  }

  lemma AcceptorShuts(s: State, a: Action, pc: AcceptPc, s': State, h: Handle)
    requires StagesMatch(s) && ThreadsMatch(s) && ClientsMatch(s) && Next(s, AcceptorMoves(a, pc), s')
    ensures if a == Emit(Closed(h)) then !IsShut(s, h) && IsShut(s', h) else IsShut(s', h) == IsShut(s, h)
  {
    if s.accept.DropLate? || s.accept.DropFailed? {
      DropShuts(s, a, pc, s', h);
    }
  }

  lemma PumpShuts(s: State, i: nat, a: Action, pc: PumpPc, s': State, h: Handle)
    requires ClientsMatch(s) && Next(s, PumpMoves(i, a, pc), s')
    ensures if a == Emit(Closed(h)) then !IsShut(s, h) && IsShut(s', h) else IsShut(s', h) == IsShut(s, h)
  {
  }

  lemma ClosesPreserved(s: State, step: Step, s': State)
    requires StagesMatch(s) && ThreadsMatch(s) && ClientsMatch(s) && ClosesMatch(s) && Next(s, step, s')
    ensures ClosesMatch(s')
  {
    forall h ensures Count(s', Closed(h)) == if IsShut(s', h) then 1 else 0 {
      CountStep(s, step, s', Closed(h));
      ShutMarks(s, step, s', h);
      assert Count(s, Closed(h)) == if IsShut(s, h) then 1 else 0;
    }
  }

  lemma InvPreserved(s: State, step: Step, s': State)
    requires Inv(s) && Next(s, step, s')
    ensures Inv(s')
  {
    LockPreserved(s, step, s');
    StagesPreserved(s, step, s');
    ThreadsPreserved(s, step, s');
    JoinsPreserved(s, step, s');
    ClientsPreserved(s, step, s');
    ClosesPreserved(s, step, s');
  }

  lemma {:induction false} RunsKeepInv(states: seq<State>, steps: seq<Step>, k: nat)
    requires IsRun(states, steps) && k < |states|
    ensures Inv(states[k])
  {
    if k == 0 {
      InitHolds(states[0]);
    } else {
      var i := k - 1;
      RunsKeepInv(states, steps, i);
      assert Next(states[i], steps[i], states[i + 1]);
      InvPreserved(states[i], steps[i], states[k]);
    }
  }

  // --------------------------------------------------------------- theorems

  /** Whether `f` may come after `e`. Once the listener is closed only bridges still act. */
  predicate MayFollow(e: Event, f: Event) {
    match e
    case Closed(Listener) => f.Closed? && (f.h.GoEnd? || f.h.MeshEnd?)
    case Closed(h) => f != Closed(h)
    case Joined(w) => f != Joined(w) && f != Closed(Stream(w))
    case AcceptorJoined => !f.AcceptorJoined?
  }

  ghost predicate Ordered(trace: seq<Event>) {
    forall i, j :: 0 <= i < j < |trace| ==> MayFollow(trace[i], trace[j])
  }

  lemma AcceptorInTime(s: State, a: Action, pc: AcceptPc, s': State, e: Event)
    requires Inv(s) && Next(s, AcceptorMoves(a, pc), s') && a.Emit? && Count(s, e) > 0
    ensures MayFollow(e, a.event)
  {
    assert !AcceptorGone(s) && s.closes == 0 && s.listener;
    AcceptorShuts(s, a, pc, s', a.event.h);
  }

  lemma PumpInTime(s: State, i: nat, a: Action, pc: PumpPc, s': State, e: Event)
    requires Inv(s) && Next(s, PumpMoves(i, a, pc), s') && a.Emit? && Count(s, e) > 0
    ensures MayFollow(e, a.event)
  {
    assert !Reached(s, 3) && s.listener;
    PumpShuts(s, i, a, pc, s', a.event.h);
    assert Count(s, Joined(i)) == if WasJoined(s, i) then 1 else 0;
  }

  lemma BridgeInTime(s: State, i: nat, a: Action, pc: BridgePc, s': State, e: Event)
    requires Inv(s) && Next(s, BridgeMoves(i, a, pc), s') && a.Emit? && Count(s, e) > 0
    ensures MayFollow(e, a.event)
  {
    ShutMarks(s, BridgeMoves(i, a, pc), s', a.event.h);
  }

  lemma CloserInTime(s: State, a: Action, pc: ClosePc, s': State, e: Event)
    requires Inv(s) && Next(s, CloserMoves(a, pc), s') && a.Emit? && Count(s, e) > 0
    ensures MayFollow(e, a.event)
  {
    if a.event.Joined? {
      JoinMarks(s, CloserMoves(a, pc), s', a.event.w);
      assert Count(s, a.event) == if WasJoined(s, a.event.w) then 1 else 0;
      assert s.closes == 0 && s.listener;
    } else if a.event.Closed? {
      ShutMarks(s, CloserMoves(a, pc), s', a.event.h);
    } else {
      assert s.joinable && s.closes == 0 && s.listener;
    }
  }

  lemma OrderPreserved(s: State, step: Step, s': State)
    requires Inv(s) && Ordered(s.trace) && Next(s, step, s')
    ensures Ordered(s'.trace)
  {
    if Emitted(step).Emit? {
      assert s'.trace == s.trace + [Emitted(step).event];
      forall i: nat | i < |s.trace| ensures MayFollow(s.trace[i], Emitted(step).event) {
        assert s.trace[i] in multiset(s.trace);
        match step
        case AcceptorMoves(a, pc) => AcceptorInTime(s, a, pc, s', s.trace[i]);
        case PumpMoves(l, a, pc) => PumpInTime(s, l, a, pc, s', s.trace[i]);
        case BridgeMoves(l, a, pc) => BridgeInTime(s, l, a, pc, s', s.trace[i]);
        case CloserMoves(a, pc) => CloserInTime(s, a, pc, s', s.trace[i]);
      }
    }
  }

  /** Over whole runs: no handle is closed twice, no thread joined twice, no pump acts after
      it was joined, and the listener goes last, after every thread of the forwarder. */
  lemma {:induction false} RunsAreOrdered(states: seq<State>, steps: seq<Step>, k: nat)
    requires IsRun(states, steps) && k < |states|
    ensures Ordered(states[k].trace)
  {
    if k > 0 {
      var i := k - 1;
      RunsAreOrdered(states, steps, i);
      RunsKeepInv(states, steps, i);
      assert Next(states[i], steps[i], states[i + 1]);
      OrderPreserved(states[i], steps[i], states[k]);
    }
  }

  ghost predicate Exists(s: State, h: Handle) {
    match h
    case Listener => true
    case Client(k) => k < |s.clients|
    case Stream(i) => i < |s.links|
    case GoEnd(i) => i < |s.links|
    case MeshEnd(i) => i < |s.links|
  }

  ghost predicate IsOpen(s: State, h: Handle) {
    Exists(s, h) && Count(s, Closed(h)) == 0
  }

  /** What a bridge keeps open: both ends until it closes them, one after the other. */
  ghost predicate BridgeKeeps(s: State, h: Handle) {
    match h
    case GoEnd(i) => i < |s.links| && (s.links[i].bridge.Copying? || s.links[i].bridge.CloseGo?)
    case MeshEnd(i) => i < |s.links| && !s.links[i].bridge.Done?
    case _ => false
  }

  /** In every run, when Close has returned, no thread of the forwarder runs, each pump was
      joined once, every handle was closed at most once, and what is still open is exactly
      what the unfinished bridges keep. */
  lemma ClosedRunsKeepBridges(states: seq<State>, steps: seq<Step>, k: nat, h: Handle)
    requires IsRun(states, steps) && k < |states| && states[k].closer == Idle && states[k].closes > 0
    ensures AcceptorGone(states[k]) && AllExited(states[k])
    ensures forall w: nat :: Count(states[k], Joined(w)) == if w < |states[k].links| then 1 else 0
    ensures Count(states[k], Closed(h)) <= 1
    ensures IsOpen(states[k], h) <==> BridgeKeeps(states[k], h)
  {
    RunsKeepInv(states, steps, k);
    var s := states[k];
    assert Count(s, Closed(h)) == if IsShut(s, h) then 1 else 0;
    forall w: nat ensures Count(s, Joined(w)) == if w < |s.links| then 1 else 0 {
      assert Count(s, Joined(w)) == if WasJoined(s, w) then 1 else 0;
    }
  }

  /** So Close leaves nothing open if and only if every bridge has finished. */
  lemma NothingOpenIffBridgesDone(states: seq<State>, steps: seq<Step>, k: nat)
    requires IsRun(states, steps) && k < |states| && states[k].closer == Idle && states[k].closes > 0
    ensures (forall h :: !IsOpen(states[k], h)) <==>
            forall i :: 0 <= i < |states[k].links| ==> states[k].links[i].bridge.Done?
  {
    var s := states[k];
    forall h ensures IsOpen(s, h) <==> BridgeKeeps(s, h) {
      ClosedRunsKeepBridges(states, steps, k, h);
    }
    forall i: nat | i < |s.links| ensures !s.links[i].bridge.Done? ==> IsOpen(s, MeshEnd(i)) {
      assert IsOpen(s, MeshEnd(i)) <==> BridgeKeeps(s, MeshEnd(i));
    }
  }

  // ----------------------------------------------------------------- service

  /** The accept thread leaves only a stopped forwarder, and drops a client as late only
      then. */
  ghost predicate Staying(s: State) {
    s.accept.Gone? || s.accept.DropLate? ==> !s.running
  }

  lemma {:induction false} RunningMeansAccepting(states: seq<State>, steps: seq<Step>, k: nat)
    requires IsRun(states, steps) && k < |states|
    ensures Staying(states[k]) && (states[k].running ==> states[k].listener)
  {
    RunsKeepInv(states, steps, k);
    if k > 0 {
      var i := k - 1;
      RunningMeansAccepting(states, steps, i);
      assert Next(states[i], steps[i], states[i + 1]);
      StayingStep(states[i], steps[i], states[k]);
    }
  }

  lemma StayingStep(s: State, step: Step, s': State)
    requires Staying(s) && Next(s, step, s')
    ensures Staying(s')
  {
  }

  /** The bridge closes nothing before both its copies have ended. */
  lemma {:induction false} BridgeWaitsForBoth(states: seq<State>, steps: seq<Step>, k: nat, i: nat) returns (j: nat)
    requires IsRun(states, steps) && k < |states| && i < |states[k].links| && !states[k].links[i].bridge.Copying?
    ensures j < k && i < |states[j].links| && states[j].links[i].bridge == Copying(true, true)
  {
    var p := k - 1;
    assert Next(states[p], steps[p], states[p + 1]);
    BridgeStepBack(states[p], steps[p], states[k], i);
    if states[p].links[i].bridge.Copying? {
      j := p;
    } else {
      j := BridgeWaitsForBoth(states, steps, p, i);
    }
  }

  lemma BridgeStepBack(s: State, step: Step, s': State, i: nat)
    requires Next(s, step, s') && i < |s'.links| && !s'.links[i].bridge.Copying?
    ensures i < |s.links| && (s.links[i].bridge.Copying? ==> s.links[i].bridge == Copying(true, true))
  {
  }

  /** The accept thread has seen the stop with client `c` in its hands. */
  ghost predicate Refusing(s: State, c: nat) {
    && !s.running && (s.accept.Accepted? || s.accept.DropLate? || s.accept.Gone?)
    && c == |s.clients| - 1 && !s.clients[c].Linked? && (s.accept.Gone? ==> s.clients[c].Dropped?)
  }

  lemma RefusingStep(s: State, step: Step, s': State, c: nat)
    requires Next(s, step, s') && Refusing(s, c)
    ensures Refusing(s', c)
  {
  }

  /** A client accepted when the forwarder has been stopped is dropped and never linked, and
      it is the last one. */
  lemma {:induction false} LateClientIsDropped(states: seq<State>, steps: seq<Step>, i: nat, k: nat)
    requires IsRun(states, steps) && i <= k < |states| && states[i].accept.Accepted? && !states[i].running
    ensures |states[i].clients| > 0 && Refusing(states[k], |states[i].clients| - 1)
  {
    RunsKeepInv(states, steps, i);
    if i < k {
      var j := k - 1;
      LateClientIsDropped(states, steps, i, j);
      assert Next(states[j], steps[j], states[j + 1]);
      RefusingStep(states[j], steps[j], states[k], |states[i].clients| - 1);
    }
  }

  ghost predicate Comes(s: State) {
    exists states, steps :: IsRun(states, steps) && states[|steps|] == s
  }

  lemma Goes(s: State, step: Step) returns (s': State)
    requires Comes(s) && CanStep(s, step)
    ensures Comes(s') && s' == After(s, step)
  {
    s' := After(s, step);
    var states, steps :| IsRun(states, steps) && states[|steps|] == s;
    var states', steps' := states + [s'], steps + [step];
    forall k | 0 <= k < |steps'| ensures Next(states'[k], steps'[k], states'[k + 1]) {
      if k < |steps| {
        assert Next(states[k], steps[k], states[k + 1]);
      }
    }
    assert IsRun(states', steps');
  }

  /** n links are pumped and bridged, and the accept thread waits for more. */
  ghost predicate Serving(s: State, n: nat) {
    && s.running && s.listener && s.lock == Nobody && s.accept == Top && s.closer == Idle
    && |s.links| == |s.clients| == n
    && forall i :: 0 <= i < n ==> s.links[i] == Link(i, LoopTop, Copying(false, false))
  }

  lemma LinksClient(s: State, n: nat) returns (s': State)
    requires Comes(s) && Serving(s, n)
    ensures Comes(s')
    ensures s' == s.(accept := LockWorkers, links := s.links + [Link(n, Unborn, Copying(false, false))],
                     clients := s.clients + [Linked(n)])
  {
    s' := Goes(s, AcceptorMoves(Tau, Selecting));
    s' := Goes(s', AcceptorMoves(Tau, Accepted));
    s' := Goes(s', AcceptorMoves(Tau, Dialing));
    s' := Goes(s', AcceptorMoves(Tau, LockWorkers));
  }

  /** Any number of clients can be served at once. */
  lemma {:induction false} ServesAnyNumber(n: nat) returns (s: State)
    ensures Comes(s) && Serving(s, n)
  {
    if n == 0 {
      s := State(true, Nobody, Top, true, Idle, [], [], [], true, 0, []);
      assert IsRun([s], []) && [s][0] == s;
    } else {
      s := ServesAnyNumber(n - 1);
      s := LinksClient(s, n - 1);
      s := Goes(s, AcceptorMoves(Tau, Emplace));
      s := Goes(s, AcceptorMoves(Tau, UnlockWorkers));
      s := Goes(s, AcceptorMoves(Tau, Top));
    }
  }

  // --------------------------------------------------------------- progress

  /** Steps of the forwarder itself: no new Close or reader, and no bridge. */
  ghost predicate Drains(s: State, step: Step) {
    !step.ReaderLocks? && !step.BridgeMoves? && !(step.CloserMoves? && s.closer.Idle?)
  }

  lemma PumpCanStep(s: State, i: nat) returns (step: Step)
    requires i < |s.links| && !s.links[i].pump.Unborn? && !s.links[i].pump.Exited?
    ensures CanStep(s, step) && Drains(s, step)
  {
    match s.links[i].pump
    case LoopTop => step := PumpMoves(i, Tau, if s.running then Moving else CloseClient);
    case Moving => step := PumpMoves(i, Tau, CloseClient);
    case CloseClient => step := PumpMoves(i, Emit(Closed(Client(s.links[i].client))), CloseStream);
    case CloseStream => step := PumpMoves(i, Emit(Closed(Stream(i))), Exited);
  }

  /** The acceptor waits for nothing but the lock, and whoever holds it can move. */
  lemma AcceptorCanStep(s: State) returns (step: Step)
    requires Inv(s) && !AcceptorGone(s)
    ensures CanStep(s, step) && Drains(s, step)
  {
    match s.accept
    case Top => step := AcceptorMoves(Tau, if s.running then Selecting else Gone);
    case Selecting => step := AcceptorMoves(Tau, Top);
    case Accepted => step := AcceptorMoves(Tau, if s.running then Dialing else DropLate);
    case DropLate => step := AcceptorMoves(Emit(Closed(Client(|s.clients| - 1))), Gone);
    case Dialing => step := AcceptorMoves(Tau, DropFailed);
    case DropFailed => step := AcceptorMoves(Emit(Closed(Client(|s.clients| - 1))), Top);
    case LockWorkers =>
      assert !Reached(s, 2);
      step := if s.lock == Reader then ReaderUnlocks else AcceptorMoves(Tau, Emplace);
    case Emplace => step := AcceptorMoves(Tau, UnlockWorkers);
    case UnlockWorkers => step := AcceptorMoves(Tau, Top);
  }

  /** Joining with mu_ held cannot deadlock: while Close is pending, Close, the thread it
      waits for or a reader that has the lock can step, whatever the bridges do. */
  lemma NoDeadlock(s: State) returns (step: Step)
    requires Inv(s) && !s.closer.Idle?
    ensures CanStep(s, step) && Drains(s, step)
  {
    match s.closer
    case Stop => step := CloserMoves(Tau, JoinAcceptor);
    case JoinAcceptor =>
      if s.joinable && !s.accept.Gone? {
        step := AcceptorCanStep(s);
      } else {
        step := CloserMoves(if s.joinable then Emit(AcceptorJoined) else Tau, LockAll);
      }
    case LockAll => step := if s.lock == Reader then ReaderUnlocks else CloserMoves(Tau, JoinAll(0));
    case JoinAll(k) =>
      if k == |s.registered| {
        step := CloserMoves(Tau, ClearAll);
      } else if !s.links[k].pump.Exited? {
        step := PumpCanStep(s, k);
      } else {
        step := CloserMoves(Emit(Joined(k)), JoinAll(k + 1));
      }
    case ClearAll => step := CloserMoves(Tau, UnlockAll);
    case UnlockAll => step := CloserMoves(Tau, CloseListener);
    case CloseListener => step := CloserMoves(if s.listener then Emit(Closed(Listener)) else Tau, Idle);
  }

  function PumpRank(pc: PumpPc): nat {
    match pc
    case Unborn => 4
    case Moving => 4
    case LoopTop => 3
    case CloseClient => 2
    case CloseStream => 1
    case Exited => 0
  }

  /** Counting also the join of the pump that may still be started, and its own steps. */
  function AcceptRank(pc: AcceptPc): nat {
    match pc
    case Gone => 0
    case Top => 1
    case DropLate => 1
    case DropFailed => 2
    case UnlockWorkers => 2
    case Emplace => 4
    case LockWorkers => 5
    case Dialing => 10
    case Accepted => 11
    case Selecting => 12
  }

  function CloseRank(pc: ClosePc, registered: nat): int {
    match pc
    case Idle => 0
    case CloseListener => 1
    case UnlockAll => 2
    case ClearAll => 3
    case JoinAll(k) => 4 + registered - k
    case LockAll => 5 + registered
    case JoinAcceptor => 6 + registered
    case Stop => 7 + registered
  }

  ghost function PumpsRank(links: seq<Link>): nat {
    if links == [] then 0 else PumpsRank(links[..|links| - 1]) + PumpRank(links[|links| - 1].pump)
  }

  lemma {:induction false} PumpsRankUpdate(links: seq<Link>, i: nat, l: Link)
    requires i < |links|
    ensures PumpsRank(links[i := l]) + PumpRank(links[i].pump) == PumpsRank(links) + PumpRank(l.pump)
  {
    var n := |links| - 1;
    if i == n {
      assert links[i := l][..n] == links[..n];
    } else {
      assert links[i := l][..n] == links[..n][i := l];
      PumpsRankUpdate(links[..n], i, l);
    }
  }

  /** An upper bound on the forwarder's steps once it is stopped; bridges do not count. */
  ghost function Rank(s: State): int {
    AcceptRank(s.accept) + CloseRank(s.closer, |s.registered|) + PumpsRank(s.links) + if s.lock == Reader then 1 else 0
  }

  lemma LinkingDescends(s: State, a: Action, pc: AcceptPc, s': State)
    requires Inv(s) && Next(s, AcceptorMoves(a, pc), s') && s.accept.Dialing? && pc.LockWorkers?
    ensures Rank(s') < Rank(s)
  {
    var l := Link(|s.clients| - 1, Unborn, Copying(false, false));
    assert s'.links == s.links + [l] && s'.links[..|s.links|] == s.links;
    assert PumpsRank(s'.links) == PumpsRank(s.links) + 4;
  }

  lemma StartingDescends(s: State, a: Action, pc: AcceptPc, s': State)
    requires Inv(s) && Next(s, AcceptorMoves(a, pc), s') && s.accept.Emplace?
    ensures Rank(s') < Rank(s)
  {
    var i := |s.links| - 1;
    PumpsRankUpdate(s.links, i, s.links[i].(pump := LoopTop));
    assert PumpsRank(s'.links) + 1 == PumpsRank(s.links) && |s'.registered| == |s.registered| + 1;
  }

  lemma AcceptorDescends(s: State, a: Action, pc: AcceptPc, s': State)
    requires Inv(s) && !s.running && Next(s, AcceptorMoves(a, pc), s')
    ensures Rank(s') < Rank(s)
  {
    if s.accept.Dialing? && pc.LockWorkers? {
      LinkingDescends(s, a, pc, s');
    } else if s.accept.Emplace? {
      StartingDescends(s, a, pc, s');
    } else {
      assert s'.links == s.links && s'.registered == s.registered && s'.closer == s.closer;
    }
  }

  lemma CloserDescends(s: State, a: Action, pc: ClosePc, s': State)
    requires Inv(s) && Next(s, CloserMoves(a, pc), s') && !s.closer.Idle?
    ensures Rank(s') < Rank(s)
  {
    assert s'.links == s.links && s'.accept == s.accept;
  }

  lemma PumpDescends(s: State, i: nat, a: Action, pc: PumpPc, s': State)
    requires !s.running && Next(s, PumpMoves(i, a, pc), s')
    ensures Rank(s') < Rank(s) && !s'.running
  {
    assert PumpRank(pc) < PumpRank(s.links[i].pump);
    PumpsRankUpdate(s.links, i, s'.links[i]);
  }

  lemma BridgesDoNotCount(s: State, i: nat, a: Action, pc: BridgePc, s': State)
    requires Next(s, BridgeMoves(i, a, pc), s')
    ensures Rank(s') == Rank(s) && s'.running == s.running
  {
    PumpsRankUpdate(s.links, i, s'.links[i]);
  }

  lemma StepsDescend(s: State, step: Step, s': State)
    requires Inv(s) && !s.running && Next(s, step, s')
    ensures !s'.running
    ensures if Drains(s, step) then Rank(s') < Rank(s) else step.BridgeMoves? ==> Rank(s') == Rank(s)
  {
    match step
    case AcceptorMoves(a, pc) => AcceptorDescends(s, a, pc, s');
    case CloserMoves(a, pc) =>
      if !s.closer.Idle? {
        CloserDescends(s, a, pc, s');
      }
    case PumpMoves(i, a, pc) => PumpDescends(s, i, a, pc, s');
    case BridgeMoves(i, a, pc) => BridgesDoNotCount(s, i, a, pc, s');
    case _ =>
  }

  /** Steps with no fresh Close and no fresh reader; bridges may move in between. */
  ghost predicate Settles(s: State, step: Step) {
    Drains(s, step) || step.BridgeMoves?
  }

  ghost predicate SettlesFrom(states: seq<State>, steps: seq<Step>, from: nat) {
    |states| == |steps| + 1 && forall i {:trigger steps[i]} :: from <= i < |steps| ==> Settles(states[i], steps[i])
  }

  ghost function Own(steps: seq<Step>, from: nat, k: nat): nat
    requires from <= k <= |steps|
  {
    if k == from then 0 else Own(steps, from, k - 1) + if steps[k - 1].BridgeMoves? then 0 else 1
  }

  lemma ClosesGrow(s: State, step: Step, s': State)
    requires Next(s, step, s')
    ensures s'.closer.Idle? ==> s.closer.Idle? || s'.closes > 0
    ensures s'.closes >= s.closes
  {
  }

  lemma SettlingStep(s: State, step: Step, s': State)
    requires Inv(s) && !s.running && Next(s, step, s') && Settles(s, step)
    ensures !s'.running && Rank(s') + (if step.BridgeMoves? then 0 else 1) <= Rank(s)
    ensures s'.closer.Idle? ==> s.closer.Idle? || s'.closes > 0
    ensures s'.closes >= s.closes
  {
    StepsDescend(s, step, s');
    ClosesGrow(s, step, s');
  }

  /** What one settling step of a run may do, seen from outside. */
  ghost predicate Settled(s: State, step: Step, s': State) {
    && (!s.running ==> !s'.running && Rank(s') + (if step.BridgeMoves? then 0 else 1) <= Rank(s))
    && (s'.closer.Idle? ==> s.closer.Idle? || s'.closes > 0) && s'.closes >= s.closes
  }

  lemma RunSettles(states: seq<State>, steps: seq<Step>, from: nat, i: nat)
    requires IsRun(states, steps) && SettlesFrom(states, steps, from) && from <= i < |steps|
    ensures Settled(states[i], steps[i], states[i + 1])
  {
    RunsKeepInv(states, steps, i);
    assert Next(states[i], steps[i], states[i + 1]) && Settles(states[i], steps[i]);
    if !states[i].running {
      SettlingStep(states[i], steps[i], states[i + 1]);
    } else {
      ClosesGrow(states[i], steps[i], states[i + 1]);
    }
  }

  lemma {:induction false} Descends(states: seq<State>, steps: seq<Step>, from: nat, k: nat)
    requires |states| == |steps| + 1 && from <= k <= |steps| && !states[from].running
    requires forall i :: from <= i < k ==> Settled(states[i], steps[i], states[i + 1])
    ensures !states[k].running && Rank(states[k]) + Own(steps, from, k) <= Rank(states[from])
    ensures !states[from].closer.Idle? && states[k].closer.Idle? ==> states[k].closes > 0
  {
    if from < k {
      var i := k - 1;
      Descends(states, steps, from, i);
      assert Settled(states[i], steps[i], states[i + 1]);
    }
  }

  /** Close returns, in every run: after the stop the forwarder's own threads take a bounded
      number of steps, and when none of them can move any more a Close that was pending has
      returned; however many steps the bridges take in between, and though they may never
      finish. */
  lemma CloseReturns(states: seq<State>, steps: seq<Step>, from: nat)
    requires IsRun(states, steps) && from <= |steps| && !states[from].running
    requires SettlesFrom(states, steps, from)
    ensures Own(steps, from, |steps|) <= Rank(states[from])
    ensures var last := states[|steps|];
            !states[from].closer.Idle? && (forall step :: CanStep(last, step) ==> !Drains(last, step)) ==>
              last.closer.Idle? && last.closes > 0 && !last.listener
  {
    forall i | from <= i < |steps| ensures Settled(states[i], steps[i], states[i + 1]) {
      RunSettles(states, steps, from, i);
    }
    Descends(states, steps, from, |steps|);
    RunsKeepInv(states, steps, |steps|);
    var last := states[|steps|];
    assert Rank(last) >= 0;
    if !last.closer.Idle? {
      var step := NoDeadlock(last);
      assert CanStep(last, step) && Drains(last, step);
    }
  }
}
