/** The inductive invariant of the SSH export engine and its preservation by every step. */
module SshExportInvariant {
  import opened SshExportModel

  ghost predicate Live(s: State, t: Thread) {
    t.Worker? ==> t.id < |s.workers|
  }

  /** The lock a thread holds, as its program counter says. */
  ghost function HeldBy(s: State, t: Thread): Held
    requires Live(s, t)
  {
    match t
    case Acceptor => AcceptHolds(s.accept)
    case Closer => CloseHolds(s.closer)
    case Reader => if s.reader then Holding(Mu) else Nothing
    case Worker(w) => WorkerHolds(s.workers[w].pc)
  }

  ghost predicate Owns(s: State, t: Thread, l: Lock) {
    l in s.owner && s.owner[l] == t
  }

  /** Program counters and lock words agree. */
  ghost predicate LocksAgree(s: State) {
    && (forall l :: l in s.owner ==> Live(s, s.owner[l]))
    && (forall t, l :: Live(s, t) ==> (Owns(s, t, l) <==> HeldBy(s, t) == Holding(l)))
  }

  ghost function Count(s: State, e: Event): nat {
    multiset(s.trace)[e]
  }

  // ------------------------------------------------------ worker accounting

  function AcceptKeeps(pc: AcceptPc): seq<nat> {
    match pc
    case ReapScan(_, _, fin) => fin
    case ReapJoin(_, fin) => fin
    case PushLock(w) => [w]
    case Push(w) => [w]
    case _ => []
  }

  function CloseKeeps(pc: ClosePc): seq<nat> {
    match pc
    case SwapUnlock(p) => p
    case JoinWorkers(p) => p
    case _ => []
  }

  /** Everything that still owes a join: workers_, the acceptor's locals, Close's locals. */
  ghost function Keepers(s: State): multiset<nat> {
    multiset(s.registered) + multiset(AcceptKeeps(s.accept)) + multiset(CloseKeeps(s.closer))
  }

  ghost predicate Accounted(s: State) {
    forall w: nat ::
      Keepers(s)[w] + Count(s, Joined(w)) == if w < |s.workers| then 1 else 0
  }

  ghost predicate JoinedHaveExited(s: State) {
    forall w: nat :: Count(s, Joined(w)) > 0 ==> HasExited(s, w)
  }

  ghost predicate StartedOnce(s: State) {
    forall w: nat :: Count(s, Started(w)) == if w < |s.workers| then 1 else 0
  }

  /** The reaper only ever takes threads whose done flag is set. */
  ghost predicate ReapedAreDone(s: State) {
    (s.accept.ReapScan? || s.accept.ReapJoin?) ==>
      forall k :: 0 <= k < |s.accept.finished| ==>
        s.accept.finished[k] < |s.workers| && Done(s.workers[s.accept.finished[k]].pc)
  }

  // --------------------------------------------------------------- channels

  /** The accepted channel the acceptor still carries, if any. */
  function AcceptChannel(pc: AcceptPc): Accepted {
    match pc
    case Keepalive(out) => out
    case SessionUnlock(out) => out
    case Dispatch(out) => out
    case ReapLock(c) => Channel(c)
    case ReapScan(c, _, _) => Channel(c)
    case ReapJoin(c, _) => Channel(c)
    case Spawn(c) => Channel(c)
    case _ => QueueEmpty
  }

  /** Channel k is served by worker k: none is lost and none is handed out twice. */
  ghost predicate ChannelsServed(s: State) {
    && (forall w :: 0 <= w < |s.workers| ==> s.workers[w].chan == w)
    && (if AcceptChannel(s.accept).Channel?
        then AcceptChannel(s.accept).chan == |s.workers| && s.accepted == |s.workers| + 1
        else s.accepted == |s.workers|)
  }

  predicate Freed(pc: WorkerPc) {
    pc.FreeUnlock? || pc.StoreDone? || pc.Returning? || pc.Exited?
  }

  ghost predicate FreesMatch(s: State) {
    forall w: nat ::
      Count(s, Lib(ChannelFree(w))) == if w < |s.workers| && Freed(s.workers[w].pc) then 1 else 0
  }

  predicate SocketOpen(pc: WorkerPc) {
    match pc
    case DialLock | DialRead | Dialing | FailLock | FailRecord => false
    case FreeLock | FreeClose | FreeChannel | FreeUnlock | StoreDone | Returning | Exited => false
    case _ => true
  }

  predicate BeforeDial(pc: WorkerPc) {
    pc.DialLock? || pc.DialRead? || pc.Dialing?
  }

  /** A local socket is opened at most once and closed exactly as often. */
  ghost predicate SocketsMatch(s: State) {
    forall w: nat ::
      && Count(s, LocalOpened(w)) ==
         Count(s, LocalClosed(w)) + (if w < |s.workers| && SocketOpen(s.workers[w].pc) then 1 else 0)
      && Count(s, LocalOpened(w)) <= (if w < |s.workers| && !BeforeDial(s.workers[w].pc) then 1 else 0)
  }

  // ----------------------------------------------------------------- stages

  /** How far Close has come. A completed Close leaves the last stage behind for good. */
  function Stage(pc: ClosePc): nat {
    match pc
    case Idle => 0
    case StoreStop => 0
    case JoinAcceptor => 1
    case SwapLock => 2
    case Swap => 2
    case SwapUnlock(_) => 3
    case JoinWorkers(_) => 3
    case TeardownLock => 4
    case TestCancel => 4
    case Cancel(_) => 4
    case ClearListener => 4
    case TestSession => 5
    case MakeBlocking => 5
    case BoundTimeout => 5
    case SayGoodbye => 5
    case FreeSession => 5
    case ClearSession => 6
    case CloseSsh => 7
    case TeardownUnlock => 8
    case StatusLock => 8
    case StatusWrite => 8
  }

  ghost predicate Reached(s: State, k: nat) {
    s.closes > 0 || Stage(s.closer) >= k
  }

  ghost predicate AcceptorGone(s: State) {
    s.accept.NotStarted? || s.accept.AcceptExited?
  }

  ghost predicate AllExited(s: State) {
    forall w :: 0 <= w < |s.workers| ==> s.workers[w].pc.Exited?
  }

  /** What the passed stages of Close guarantee about the threads. */
  ghost predicate ThreadStages(s: State) {
    && (Reached(s, 1) ==> !s.running)
    && (Reached(s, 2) ==> AcceptorGone(s) && !s.acceptJoinable)
    && (Reached(s, 3) ==> s.registered == [])
    && (Reached(s, 4) ==> AllExited(s))
    && (s.closes > 0 ==> CloseKeeps(s.closer) == [])
  }

  /** What they guarantee about listener, session and socket. */
  ghost predicate ResourceStages(s: State) {
    && (Reached(s, 5) ==> !s.listener)
    && (Reached(s, 7) ==> !s.session)
    && (Reached(s, 8) ==> !s.sshSocket)
    && (s.closer.Cancel? || s.closer.ClearListener? ==> s.listener)
    && (s.closer.MakeBlocking? || s.closer.BoundTimeout? || s.closer.SayGoodbye? || s.closer.FreeSession? ==> s.session)
  }

  ghost predicate StageFacts(s: State) {
    ThreadStages(s) && ResourceStages(s)
  }

  /** The session is freed only in its stage, and once. */
  ghost predicate SessionMatches(s: State) {
    && (!Reached(s, 7) ==> s.session == s.hadSession)
    && (s.closer.ClearSession? ==> s.hadSession)
    && Count(s, Lib(SessionFree)) == (if s.hadSession && Reached(s, 6) then 1 else 0)
  }

  /** The listener is cancelled before the session goes, and only then forgotten. */
  ghost predicate ListenerMatches(s: State) {
    && (s.hadListener ==> s.hadSession)
    && (!Reached(s, 5) ==> s.listener == s.hadListener)
    && (Count(s, Lib(ForwardCancel)) > 0 ==> Reached(s, 5) || s.closer.Cancel? || s.closer.ClearListener?)
    && ((s.hadListener && Reached(s, 5)) || s.closer.ClearListener? ==> Count(s, Lib(ForwardCancel)) > 0)
  }

  ghost predicate SshSocketMatches(s: State) {
    && (s.hadSession && !Reached(s, 8) ==> s.sshSocket)
    && Count(s, SshSocketClosed) <= (if Reached(s, 8) then 1 else 0)
    && (s.hadSession && Reached(s, 8) ==> Count(s, SshSocketClosed) == 1)
  }

  ghost predicate AcceptorMatches(s: State) {
    && (s.accept.NotStarted? || (s.hadListener && s.hadSession))
    && Count(s, AcceptorJoined) == (if !s.accept.NotStarted? && !s.acceptJoinable then 1 else 0)
    && (s.accept.NotStarted? ==> !s.acceptJoinable)
    && (!s.acceptJoinable ==> AcceptorGone(s))
  }

  /** The acceptor's scan stays inside workers_. */
  ghost predicate ScanInRange(s: State) {
    && (s.accept.ReapScan? ==> s.accept.i <= |s.registered|)
    && (s.accept.PushLock? || s.accept.Push? ==> s.accept.w < |s.workers|)
  }

  ghost predicate Inv(s: State) {
    && LocksAgree(s)
    && Accounted(s) && JoinedHaveExited(s) && StartedOnce(s) && ReapedAreDone(s) && ScanInRange(s)
    && ChannelsServed(s) && FreesMatch(s) && SocketsMatch(s)
    && StageFacts(s)
    && SessionMatches(s) && ListenerMatches(s) && SshSocketMatches(s) && AcceptorMatches(s)
  }

  lemma InitHolds(s: State)
    requires Init(s)
    ensures Inv(s)
  {
  }

  // ------------------------------------------------------------------ locks

  /** A thread that follows the locking protocol keeps lock words and pcs in agreement. */
  lemma LockStep(s: State, t: Thread, a: Action, s': State)
    requires LocksAgree(s) && Live(s, t) && Live(s', t) && Enabled(s, a)
    requires s'.owner == OwnerAfter(s.owner, t, a)
    requires forall u :: u != t && Live(s', u) && !Live(s, u) ==> HeldBy(s', u) == Nothing
    requires forall u :: u != t && Live(s, u) ==> Live(s', u) && HeldBy(s', u) == HeldBy(s, u)
    requires match a
             case Acquire(l) => HeldBy(s, t) == Nothing && HeldBy(s', t) == Holding(l)
             case Release(l) => HeldBy(s, t) == Holding(l) && HeldBy(s', t) == Nothing
             case _ => HeldBy(s', t) == HeldBy(s, t)
    ensures LocksAgree(s')
  {
    forall u, l | Live(s', u)
      ensures Owns(s', u, l) <==> HeldBy(s', u) == Holding(l)
    {
      assert Live(s, u) ==> (Owns(s, u, l) <==> HeldBy(s, u) == Holding(l));
      assert Owns(s, t, l) <==> HeldBy(s, t) == Holding(l);
      if l in s.owner {
        assert Live(s, s.owner[l]);
        assert Owns(s, s.owner[l], l);
      }
    }
  }

  lemma WorkerAcquires(running: bool, w: nat, c: nat, pc: WorkerPc, a: Action, pc': WorkerPc)
    requires WorkerStep(running, w, c, pc, a, pc')
    ensures a.Acquire? ==> WorkerHolds(pc) == Nothing && WorkerHolds(pc') == Holding(a.lock)
  {
  }

  lemma WorkerReleases(running: bool, w: nat, c: nat, pc: WorkerPc, a: Action, pc': WorkerPc)
    requires WorkerStep(running, w, c, pc, a, pc')
    ensures a.Release? ==> WorkerHolds(pc) == Holding(a.lock) && WorkerHolds(pc') == Nothing
  {
  }

  /** The states around the pump loop, from the first look at `running` to the last. */
  predicate Pumping(pc: WorkerPc) {
    match pc
    case LoopTop | SelectRecv | Writing(_) | WriteLock(_) | WriteCall(_) | WriteUnlock(_, _) => true
    case ReadLock | ReadCall | ReadProbe(_) | ReadUnlock(_) | AfterRead(_) | Sending(_) => true
    case _ => false
  }

  lemma PumpRetains(running: bool, w: nat, c: nat, pc: WorkerPc, a: Action, pc': WorkerPc)
    requires WorkerStep(running, w, c, pc, a, pc') && Pumping(pc) && !a.Acquire? && !a.Release?
    ensures WorkerHolds(pc') == WorkerHolds(pc)
  {
  }

  lemma WorkerRetains(running: bool, w: nat, c: nat, pc: WorkerPc, a: Action, pc': WorkerPc)
    requires WorkerStep(running, w, c, pc, a, pc') && !a.Acquire? && !a.Release?
    ensures WorkerHolds(pc') == WorkerHolds(pc)
  {
    if Pumping(pc) {
      PumpRetains(running, w, c, pc, a, pc');
    }
  }

  lemma WorkerProtocol(running: bool, w: nat, c: nat, pc: WorkerPc, a: Action, pc': WorkerPc)
    requires WorkerStep(running, w, c, pc, a, pc')
    ensures match a
            case Acquire(l) => WorkerHolds(pc) == Nothing && WorkerHolds(pc') == Holding(l)
            case Release(l) => WorkerHolds(pc) == Holding(l) && WorkerHolds(pc') == Nothing
            case _ => WorkerHolds(pc') == WorkerHolds(pc)
  {
    WorkerAcquires(running, w, c, pc, a, pc');
    WorkerReleases(running, w, c, pc, a, pc');
    if !a.Acquire? && !a.Release? {
      WorkerRetains(running, w, c, pc, a, pc');
    }
  }

  lemma PumpEmits(running: bool, w: nat, c: nat, pc: WorkerPc, a: Action, pc': WorkerPc)
    requires WorkerStep(running, w, c, pc, a, pc') && Pumping(pc)
    ensures a.Emit? ==>
              && a.event.Lib? && WorkerHolds(pc) == Holding(SessionMu) && Target(a.event.call) == OnChannel(c)
              && !a.event.call.ChannelFree?
    ensures !Freed(pc) && !Freed(pc')
  {
  }

  lemma WorkerCalls(running: bool, w: nat, c: nat, pc: WorkerPc, a: Action, pc': WorkerPc)
    requires WorkerStep(running, w, c, pc, a, pc') && !Pumping(pc)
    ensures a.Emit? ==> a.event.Lib? || a.event == LocalOpened(w) || a.event == LocalClosed(w)
    ensures a.Emit? && a.event.Lib? ==> WorkerHolds(pc) == Holding(SessionMu) && Target(a.event.call) == OnChannel(c)
  {
  }

  lemma WorkerFrees(running: bool, w: nat, c: nat, pc: WorkerPc, a: Action, pc': WorkerPc)
    requires WorkerStep(running, w, c, pc, a, pc') && !Pumping(pc)
    ensures Freed(pc) ==> !a.Emit?
    ensures Freed(pc') <==> (Freed(pc) || a == Emit(Lib(ChannelFree(c))))
  {
  }

  lemma WorkerEmits(running: bool, w: nat, c: nat, pc: WorkerPc, a: Action, pc': WorkerPc)
    requires WorkerStep(running, w, c, pc, a, pc')
    ensures a.Emit? ==> a.event.Lib? || a.event == LocalOpened(w) || a.event == LocalClosed(w)
    ensures a.Emit? && a.event.Lib? ==> WorkerHolds(pc) == Holding(SessionMu) && Target(a.event.call) == OnChannel(c)
    ensures Freed(pc) ==> !a.Emit?
    ensures Freed(pc') <==> (Freed(pc) || a == Emit(Lib(ChannelFree(c))))
  {
    if Pumping(pc) {
      PumpEmits(running, w, c, pc, a, pc');
    } else {
      WorkerCalls(running, w, c, pc, a, pc');
      WorkerFrees(running, w, c, pc, a, pc');
    }
  }

  lemma WorkerSockets(running: bool, w: nat, c: nat, pc: WorkerPc, a: Action, pc': WorkerPc)
    requires WorkerStep(running, w, c, pc, a, pc')
    ensures !a.ClearRunning? && !pc.Exited?
    ensures a == Emit(LocalOpened(w)) ==> BeforeDial(pc) && !SocketOpen(pc) && SocketOpen(pc') && !BeforeDial(pc')
    ensures a == Emit(LocalClosed(w)) ==> SocketOpen(pc) && !SocketOpen(pc')
    ensures a != Emit(LocalOpened(w)) && a != Emit(LocalClosed(w)) ==> SocketOpen(pc') == SocketOpen(pc)
    ensures BeforeDial(pc') ==> BeforeDial(pc)
    ensures Done(pc) ==> Done(pc')
  {
  }

  datatype CallTarget = OnSession | OnChannel(chan: nat)

  /** What a call works on; the listener counts as part of the session. */
  function Target(call: Call): CallTarget {
    match call
    case ChannelWrite(c) => OnChannel(c)
    case ChannelRead(c) => OnChannel(c)
    case ChannelErrno(c) => OnChannel(c)
    case ChannelEof(c) => OnChannel(c)
    case ChannelSendEof(c) => OnChannel(c)
    case ChannelClose(c) => OnChannel(c)
    case ChannelFree(c) => OnChannel(c)
    case _ => OnSession
  }

  /** The part of the accept loop that runs under the session lock. */
  predicate InSession(pc: AcceptPc) {
    pc.SessionLock? || pc.TestListener? || pc.AcceptErrno? || pc.Keepalive? || pc.SessionUnlock? || pc.BreakUnlock?
  }

  lemma SessionProtocol(s: State, a: Action, pc': AcceptPc)
    requires AcceptStep(s, a, pc') && InSession(s.accept)
    ensures match a
            case Acquire(l) => AcceptHolds(s.accept) == Nothing && AcceptHolds(pc') == Holding(l)
            case Release(l) => AcceptHolds(s.accept) == Holding(l) && AcceptHolds(pc') == Nothing
            case _ => AcceptHolds(pc') == AcceptHolds(s.accept)
  {
  }

  lemma AcceptProtocol(s: State, a: Action, pc': AcceptPc)
    requires AcceptStep(s, a, pc')
    ensures match a
            case Acquire(l) => AcceptHolds(s.accept) == Nothing && AcceptHolds(pc') == Holding(l)
            case Release(l) => AcceptHolds(s.accept) == Holding(l) && AcceptHolds(pc') == Nothing
            case _ => AcceptHolds(pc') == AcceptHolds(s.accept)
  {
    if InSession(s.accept) {
      SessionProtocol(s, a, pc');
    }
  }

  lemma AcceptEmits(s: State, a: Action, pc': AcceptPc)
    requires AcceptStep(s, a, pc')
    ensures a.Emit? ==> a.event.Lib? || a.event.Started? || a.event.Joined?
    ensures a.Emit? && a.event.Lib? ==>
              && AcceptHolds(s.accept) == Holding(SessionMu) && Target(a.event.call) == OnSession
              && !a.event.call.SessionFree? && !a.event.call.ForwardCancel?
    ensures a == Emit(Lib(ForwardAccept)) ==> s.listener
    ensures !AcceptorGone(s) && pc' != NotStarted
  {
  }

  /** Close before it holds the session lock. */
  predicate Early(pc: ClosePc) {
    match pc
    case Idle | StoreStop | JoinAcceptor | SwapLock | Swap | SwapUnlock(_) | JoinWorkers(_) | TeardownLock => true
    case _ => false
  }

  lemma EarlyProtocol(s: State, a: Action, pc': ClosePc)
    requires CloseStep(s, a, pc') && Early(s.closer)
    ensures match a
            case Acquire(l) => CloseHolds(s.closer) == Nothing && CloseHolds(pc') == Holding(l)
            case Release(l) => CloseHolds(s.closer) == Holding(l) && CloseHolds(pc') == Nothing
            case _ => CloseHolds(pc') == CloseHolds(s.closer)
    ensures Stage(s.closer) <= Stage(pc') <= 4 && !pc'.Cancel? && !pc'.ClearListener?
    ensures a.Emit? ==> a.event.Joined? || a.event.AcceptorJoined?
  {
  }

  lemma CloseProtocol(s: State, a: Action, pc': ClosePc)
    requires CloseStep(s, a, pc')
    ensures match a
            case Acquire(l) => CloseHolds(s.closer) == Nothing && CloseHolds(pc') == Holding(l)
            case Release(l) => CloseHolds(s.closer) == Holding(l) && CloseHolds(pc') == Nothing
            case _ => CloseHolds(pc') == CloseHolds(s.closer)
  {
    if Early(s.closer) {
      EarlyProtocol(s, a, pc');
    }
  }

  lemma CloseEmits(s: State, a: Action, pc': ClosePc)
    requires CloseStep(s, a, pc')
    ensures a.Emit? ==> a.event.Lib? || a.event.Joined? || a.event.AcceptorJoined? || a.event.SshSocketClosed?
    ensures a.Emit? && a.event.Lib? ==>
              && CloseHolds(s.closer) == Holding(SessionMu) && Target(a.event.call) == OnSession
              && !a.event.call.ForwardAccept?
  {
  }

  lemma AcceptorLocks(s: State, a: Action, pc': AcceptPc, s': State)
    requires LocksAgree(s) && Next(s, AcceptorMoves(a, pc'), s')
    ensures LocksAgree(s')
  {
    AcceptProtocol(s, a, pc');
    LockStep(s, Acceptor, a, s');
  }

  lemma WorkerLocks(s: State, w: nat, a: Action, pc': WorkerPc, s': State)
    requires LocksAgree(s) && Next(s, WorkerMoves(w, a, pc'), s')
    ensures LocksAgree(s')
  {
    WorkerProtocol(s.running, w, s.workers[w].chan, s.workers[w].pc, a, pc');
    LockStep(s, Worker(w), a, s');
  }

  lemma CloserLocks(s: State, a: Action, pc': ClosePc, s': State)
    requires LocksAgree(s) && Next(s, CloserMoves(a, pc'), s')
    ensures LocksAgree(s')
  {
    CloseProtocol(s, a, pc');
    LockStep(s, Closer, a, s');
  }

  lemma ReaderKeepsLocks(s: State, step: Step, s': State)
    requires LocksAgree(s) && Next(s, step, s') && (step.ReaderLocks? || step.ReaderUnlocks?)
    ensures LocksAgree(s')
  {
    LockStep(s, Reader, if step.ReaderLocks? then Acquire(Mu) else Release(Mu), s');
  }

  lemma LocksPreserved(s: State, step: Step, s': State)
    requires LocksAgree(s) && Next(s, step, s')
    ensures LocksAgree(s')
  {
    match step
    case AcceptorMoves(a, pc') => AcceptorLocks(s, a, pc', s');
    case WorkerMoves(w, a, pc') => WorkerLocks(s, w, a, pc', s');
    case CloserMoves(a, pc') => CloserLocks(s, a, pc', s');
    case _ => ReaderKeepsLocks(s, step, s');
  }

  /** How one step changes the count of an event. */
  lemma CountStep(s: State, step: Step, s': State, e: Event)
    requires Next(s, step, s')
    ensures Count(s', e) == Count(s, e) + if Emitted(step) == Emit(e) then 1 else 0
  {
  }

  function Emitted(step: Step): Action {
    match step
    case AcceptorMoves(a, _) => a
    case WorkerMoves(_, a, _) => a
    case CloserMoves(a, _) => a
    case _ => Tau
  }

  // ------------------------------------------------- accounting, preserved

  lemma EraseOne(r: seq<nat>, i: nat)
    requires i < |r|
    ensures multiset(r[..i] + r[i + 1..]) + multiset{r[i]} == multiset(r)
  {
    assert r == r[..i] + [r[i]] + r[i + 1..];
  }

  lemma TakeHead(p: seq<nat>)
    requires p != []
    ensures multiset(p) == multiset{p[0]} + multiset(p[1..])
  {
    assert p == [p[0]] + p[1..];
  }

  /** What a step adds to the threads owing a join, and what it takes away. */
  ghost function Gained(s: State, step: Step): multiset<nat> {
    if step.AcceptorMoves? && s.accept.Spawn? then multiset{|s.workers|} else multiset{}
  }

  ghost function Settled(step: Step): multiset<nat> {
    if Emitted(step).Emit? && Emitted(step).event.Joined? then multiset{Emitted(step).event.w} else multiset{}
  }

  predicate MovesKeepers(pc: AcceptPc) {
    pc.ReapScan? || pc.ReapJoin? || pc.Spawn? || pc.Push?
  }

  lemma AcceptorQuiet(s: State, a: Action, pc': AcceptPc)
    requires AcceptStep(s, a, pc') && !MovesKeepers(s.accept)
    ensures AcceptKeeps(pc') == AcceptKeeps(s.accept)
    ensures !(a.Emit? && a.event.Joined?)
  {
  }

  lemma CloserQuiet(s: State, a: Action, pc': ClosePc)
    requires CloseStep(s, a, pc') && !s.closer.Swap? && !s.closer.JoinWorkers?
    ensures CloseKeeps(pc') == CloseKeeps(s.closer)
    ensures !(a.Emit? && a.event.Joined?)
  {
  }

  lemma EraseMoves(r: seq<nat>, i: nat, fin: seq<nat>)
    requires i < |r|
    ensures multiset(r[..i] + r[i + 1..]) + multiset(fin + [r[i]]) == multiset(r) + multiset(fin)
  {
    EraseOne(r, i);
  }

  lemma ReapTurn(s: State, a: Action, pc': AcceptPc)
    requires AcceptStep(s, a, pc') && s.accept.ReapScan?
    ensures !a.Emit?
    ensures var i, fin := s.accept.i, s.accept.finished;
            || (RegisteredAfter(s, pc') == s.registered && AcceptKeeps(pc') == fin)
            || (&& i < |s.registered| && AcceptKeeps(pc') == fin + [s.registered[i]]
                && RegisteredAfter(s, pc') == s.registered[..i] + s.registered[i + 1..])
  {
  }

  lemma ErasedKeepers(s: State, s': State, i: nat, fin: seq<nat>)
    requires i < |s.registered| && s'.registered == s.registered[..i] + s.registered[i + 1..]
    requires AcceptKeeps(s.accept) == fin && AcceptKeeps(s'.accept) == fin + [s.registered[i]]
    requires s'.closer == s.closer
    ensures Keepers(s') == Keepers(s)
  {
    EraseMoves(s.registered, i, fin);
    SameKeepers(s, s');
  }

  lemma ReapMovesKeepers(s: State, a: Action, pc': AcceptPc, s': State)
    requires Next(s, AcceptorMoves(a, pc'), s') && s.accept.ReapScan?
    ensures Keepers(s') == Keepers(s) && Settled(AcceptorMoves(a, pc')) == multiset{}
  {
    ReapTurn(s, a, pc');
    var fin := s.accept.finished;
    assert s'.registered == RegisteredAfter(s, pc') && s'.accept == pc' && s'.closer == s.closer;
    if AcceptKeeps(pc') == fin {
      assert s'.registered == s.registered;
      SameKeepers(s, s');
    } else {
      ErasedKeepers(s, s', s.accept.i, fin);
    }
  }

  lemma SameKeepers(s: State, s': State)
    requires multiset(s'.registered) + multiset(AcceptKeeps(s'.accept))
          == multiset(s.registered) + multiset(AcceptKeeps(s.accept))
    requires CloseKeeps(s'.closer) == CloseKeeps(s.closer)
    ensures Keepers(s') == Keepers(s)
  {
  }

  lemma WorkerKeepersStep(s: State, w: nat, a: Action, pc': WorkerPc, s': State)
    requires Next(s, WorkerMoves(w, a, pc'), s')
    ensures Keepers(s') == Keepers(s) && Settled(WorkerMoves(w, a, pc')) == multiset{}
  {
    WorkerEmits(s.running, w, s.workers[w].chan, s.workers[w].pc, a, pc');
    assert s'.registered == s.registered && s'.accept == s.accept && s'.closer == s.closer;
    SameKeepers(s, s');
  }

  lemma KeepersStep(s: State, step: Step, s': State)
    requires Next(s, step, s')
    ensures Keepers(s') + Settled(step) == Keepers(s) + Gained(s, step)
  {
    match step
    case AcceptorMoves(a, pc') => AcceptorKeepersStep(s, a, pc', s');
    case CloserMoves(a, pc') => CloserKeepersStep(s, a, pc', s');
    case WorkerMoves(w, a, pc') => WorkerKeepersStep(s, w, a, pc', s');
    case _ => SameKeepers(s, s');
  }

  lemma AcceptorKeepersStep(s: State, a: Action, pc': AcceptPc, s': State)
    requires Next(s, AcceptorMoves(a, pc'), s')
    ensures Keepers(s') + Settled(AcceptorMoves(a, pc')) == Keepers(s) + Gained(s, AcceptorMoves(a, pc'))
  {
    if !MovesKeepers(s.accept) {
      AcceptorQuiet(s, a, pc');
    } else if s.accept.ReapScan? {
      ReapMovesKeepers(s, a, pc', s');
    } else if s.accept.ReapJoin? {
      JoinMovesKeepers(s, a, pc', s');
    } else if s.accept.Spawn? {
      SpawnMovesKeepers(s, a, pc', s');
    } else {
      PushMovesKeepers(s, a, pc', s');
    }
  }

  lemma JoinMovesKeepers(s: State, a: Action, pc': AcceptPc, s': State)
    requires Next(s, AcceptorMoves(a, pc'), s') && s.accept.ReapJoin?
    ensures Keepers(s') + Settled(AcceptorMoves(a, pc')) == Keepers(s)
  {
    if s.accept.finished != [] { TakeHead(s.accept.finished); }
  }

  lemma SpawnMovesKeepers(s: State, a: Action, pc': AcceptPc, s': State)
    requires Next(s, AcceptorMoves(a, pc'), s') && s.accept.Spawn?
    ensures Keepers(s') == Keepers(s) + multiset{|s.workers|}
    ensures Settled(AcceptorMoves(a, pc')) == multiset{}
  {
  }

  lemma PushMovesKeepers(s: State, a: Action, pc': AcceptPc, s': State)
    requires Next(s, AcceptorMoves(a, pc'), s') && s.accept.Push?
    ensures Keepers(s') == Keepers(s)
    ensures Settled(AcceptorMoves(a, pc')) == multiset{}
  {
    assert s'.registered == s.registered + [s.accept.w] && s'.accept == PushUnlock && s'.closer == s.closer;
    assert AcceptKeeps(s.accept) == [s.accept.w] && AcceptKeeps(s'.accept) == [];
    SameKeepers(s, s');
  }

  lemma CloserKeepersStep(s: State, a: Action, pc': ClosePc, s': State)
    requires Next(s, CloserMoves(a, pc'), s')
    ensures Keepers(s') + Settled(CloserMoves(a, pc')) == Keepers(s)
  {
    if s.closer.Swap? {
      SwapMovesKeepers(s, a, pc', s');
    } else if s.closer.JoinWorkers? {
      CloseJoinMovesKeepers(s, a, pc', s');
    } else {
      CloserQuiet(s, a, pc');
    }
  }

  lemma SwapMovesKeepers(s: State, a: Action, pc': ClosePc, s': State)
    requires Next(s, CloserMoves(a, pc'), s') && s.closer.Swap?
    ensures Keepers(s') == Keepers(s) && Settled(CloserMoves(a, pc')) == multiset{}
  {
  }

  lemma CloseJoinMovesKeepers(s: State, a: Action, pc': ClosePc, s': State)
    requires Next(s, CloserMoves(a, pc'), s') && s.closer.JoinWorkers?
    ensures Keepers(s') + Settled(CloserMoves(a, pc')) == Keepers(s)
  {
    var p := s.closer.pending;
    assert s'.registered == s.registered && s'.accept == s.accept && s'.closer == pc';
    if p == [] {
      assert CloseKeeps(pc') == [] && a == Tau;
    } else {
      assert CloseKeeps(pc') == p[1..] && a == Emit(Joined(p[0]));
      TakeHead(p);
    }
  }

  /** One worker's account over one step. */
  lemma AccountStep(s: State, step: Step, s': State, w: nat)
    requires Accounted(s) && Next(s, step, s')
    requires Keepers(s') + Settled(step) == Keepers(s) + Gained(s, step)
    requires |s'.workers| == |s.workers| + |Gained(s, step)|
    ensures Keepers(s')[w] + Count(s', Joined(w)) == if w < |s'.workers| then 1 else 0
  {
    CountStep(s, step, s', Joined(w));
    assert Keepers(s)[w] + Count(s, Joined(w)) == if w < |s.workers| then 1 else 0;
    assert (Keepers(s') + Settled(step))[w] == (Keepers(s) + Gained(s, step))[w];
  }

  lemma AccountsPreserved(s: State, step: Step, s': State)
    requires Accounted(s) && Next(s, step, s')
    ensures Accounted(s')
  {
    KeepersStep(s, step, s');
    WorkersPersist(s, step, s');
    forall w: nat ensures Keepers(s')[w] + Count(s', Joined(w)) == if w < |s'.workers| then 1 else 0 {
      AccountStep(s, step, s', w);
    }
  }

  /** Worker program counters only move forward to Exited and never leave it. */
  lemma WorkersPersist(s: State, step: Step, s': State)
    requires Next(s, step, s')
    ensures |s.workers| <= |s'.workers|
    ensures forall w :: 0 <= w < |s.workers| ==>
              && s'.workers[w].chan == s.workers[w].chan
              && (Done(s.workers[w].pc) ==> Done(s'.workers[w].pc))
              && (s.workers[w].pc.Exited? ==> s'.workers[w].pc.Exited?)
    ensures forall w :: 0 <= w < |s.workers| && !(step.WorkerMoves? && step.w == w) ==> s'.workers[w] == s.workers[w]
    ensures if step.AcceptorMoves? && s.accept.Spawn?
            then s'.workers == s.workers + [WorkerThread(DialLock, s.accept.chan)]
            else |s'.workers| == |s.workers|
  {
    WorkersAfter(s, step, s');
    if step.WorkerMoves? {
      WorkerSockets(s.running, step.w, s.workers[step.w].chan, s.workers[step.w].pc, step.a, step.wpc);
    }
  }

  lemma WorkersAfter(s: State, step: Step, s': State)
    requires Next(s, step, s')
    ensures s'.workers == match step
                          case WorkerMoves(w, _, pc') => s.workers[w := WorkerThread(pc', s.workers[w].chan)]
                          case AcceptorMoves(_, _) =>
                            if s.accept.Spawn? then s.workers + [WorkerThread(DialLock, s.accept.chan)] else s.workers
                          case _ => s.workers
  {
  }

  /** Whoever joins a thread has seen it exit; a thread is started under a fresh number. */
  lemma JoinsAndStarts(s: State, step: Step)
    requires CanStep(s, step) && Emitted(step).Emit?
    ensures Emitted(step).event.Joined? ==> HasExited(s, Emitted(step).event.w)
    ensures Emitted(step).event.Started? ==>
              step.AcceptorMoves? && s.accept.Spawn? && Emitted(step).event.w == |s.workers|
    ensures step.AcceptorMoves? && s.accept.Spawn? ==> Emitted(step).event == Started(|s.workers|)
  {
    if step.WorkerMoves? {
      WorkerEmits(s.running, step.w, s.workers[step.w].chan, s.workers[step.w].pc, step.a, step.wpc);
    }
  }

  lemma SpawnEmits(s: State, step: Step)
    requires CanStep(s, step) && step.AcceptorMoves? && s.accept.Spawn?
    ensures Emitted(step) == Emit(Started(|s.workers|))
  {
  }

  lemma JoinStep(s: State, step: Step, s': State, w: nat)
    requires JoinedHaveExited(s) && StartedOnce(s) && Next(s, step, s')
    ensures Count(s', Joined(w)) > 0 ==> HasExited(s', w)
    ensures Count(s', Started(w)) == if w < |s'.workers| then 1 else 0
  {
    WorkersPersist(s, step, s');
    CountStep(s, step, s', Joined(w));
    CountStep(s, step, s', Started(w));
    if Emitted(step).Emit? {
      JoinsAndStarts(s, step);
    }
    if step.AcceptorMoves? && s.accept.Spawn? {
      SpawnEmits(s, step);
    }
    assert Count(s, Joined(w)) > 0 ==> HasExited(s, w);
    assert Count(s, Started(w)) == if w < |s.workers| then 1 else 0;
  }

  lemma JoinsPreserved(s: State, step: Step, s': State)
    requires JoinedHaveExited(s) && StartedOnce(s) && Next(s, step, s')
    ensures JoinedHaveExited(s') && StartedOnce(s')
  {
    forall w: nat
      ensures Count(s', Joined(w)) > 0 ==> HasExited(s', w)
      ensures Count(s', Started(w)) == if w < |s'.workers| then 1 else 0
    {
      JoinStep(s, step, s', w);
    }
  }

  lemma AcceptorReaps(s: State, a: Action, pc': AcceptPc, s': State)
    requires ReapedAreDone(s) && ScanInRange(s) && Next(s, AcceptorMoves(a, pc'), s')
    ensures ReapedAreDone(s') && ScanInRange(s')
  {
    WorkersPersist(s, AcceptorMoves(a, pc'), s');
  }

  lemma WorkerKeepsReaped(s: State, w: nat, a: Action, pc': WorkerPc, s': State)
    requires ReapedAreDone(s) && ScanInRange(s) && Next(s, WorkerMoves(w, a, pc'), s')
    ensures ReapedAreDone(s') && ScanInRange(s')
  {
    WorkersPersist(s, WorkerMoves(w, a, pc'), s');
    assert s'.accept == s.accept && s'.registered == s.registered;
  }

  lemma CloserKeepsReaped(s: State, a: Action, pc': ClosePc, s': State)
    requires ReapedAreDone(s) && ScanInRange(s) && Next(s, CloserMoves(a, pc'), s')
    requires Reached(s, 2) ==> AcceptorGone(s)
    ensures ReapedAreDone(s') && ScanInRange(s')
  {
    assert s'.accept == s.accept && s'.workers == s.workers;
    assert s'.registered == s.registered || s.closer.Swap?;
  }

  lemma ReapPreserved(s: State, step: Step, s': State)
    requires ReapedAreDone(s) && ScanInRange(s) && Next(s, step, s')
    requires Reached(s, 2) ==> AcceptorGone(s)
    ensures ReapedAreDone(s') && ScanInRange(s')
  {
    match step
    case AcceptorMoves(a, pc') => AcceptorReaps(s, a, pc', s');
    case WorkerMoves(w, a, pc') => WorkerKeepsReaped(s, w, a, pc', s');
    case CloserMoves(a, pc') => CloserKeepsReaped(s, a, pc', s');
    case _ =>
  }

  // --------------------------------------------------- channels, preserved

  lemma ChannelsPreserved(s: State, step: Step, s': State)
    requires ChannelsServed(s) && Next(s, step, s')
    ensures ChannelsServed(s')
  {
    WorkersPersist(s, step, s');
    if step.AcceptorMoves? {
      AcceptorChannel(s, step.a, step.apc);
    }
  }

  /** The acceptor picks a channel up in forward_accept and lets it go only by spawning. */
  lemma AcceptorChannel(s: State, a: Action, pc': AcceptPc)
    requires AcceptStep(s, a, pc')
    ensures if s.accept.TestListener? && pc'.Keepalive? then
              AcceptChannel(pc') == Channel(s.accepted) && AcceptChannel(s.accept) == QueueEmpty
            else if s.accept.Spawn? then AcceptChannel(pc') == QueueEmpty
            else if AcceptChannel(s.accept).Channel? then AcceptChannel(pc') == AcceptChannel(s.accept)
            else !AcceptChannel(pc').Channel?
  {
  }

  /** Only worker v, in its own step, frees channel v. */
  lemma FreeEvent(s: State, step: Step, v: nat)
    requires ChannelsServed(s) && CanStep(s, step)
    ensures Emitted(step) == Emit(Lib(ChannelFree(v))) ==> step.WorkerMoves? && step.w == v
    ensures step.WorkerMoves? ==>
              (Freed(step.wpc) <==> Freed(s.workers[step.w].pc) || step.a == Emit(Lib(ChannelFree(step.w))))
    ensures step.WorkerMoves? && Freed(s.workers[step.w].pc) ==> !step.a.Emit?
  {
    match step
    case AcceptorMoves(a, pc') => AcceptEmits(s, a, pc');
    case CloserMoves(a, pc') => CloseEmits(s, a, pc');
    case WorkerMoves(w, a, pc') => WorkerEmits(s.running, w, s.workers[w].chan, s.workers[w].pc, a, pc');
    case _ =>
  }

  lemma FreeStep(s: State, step: Step, s': State, v: nat)
    requires ChannelsServed(s) && FreesMatch(s) && Next(s, step, s')
    ensures Count(s', Lib(ChannelFree(v))) == if v < |s'.workers| && Freed(s'.workers[v].pc) then 1 else 0
  {
    WorkersPersist(s, step, s');
    WorkersAfter(s, step, s');
    CountStep(s, step, s', Lib(ChannelFree(v)));
    FreeEvent(s, step, v);
    assert Count(s, Lib(ChannelFree(v))) == if v < |s.workers| && Freed(s.workers[v].pc) then 1 else 0;
  }

  lemma FreesPreserved(s: State, step: Step, s': State)
    requires ChannelsServed(s) && FreesMatch(s) && Next(s, step, s')
    ensures FreesMatch(s')
  {
    forall v: nat
      ensures Count(s', Lib(ChannelFree(v))) == if v < |s'.workers| && Freed(s'.workers[v].pc) then 1 else 0
    {
      FreeStep(s, step, s', v);
    }
  }

  lemma SocketsPreserved(s: State, step: Step, s': State)
    requires SocketsMatch(s) && Next(s, step, s')
    ensures SocketsMatch(s')
  {
    WorkersPersist(s, step, s');
    forall v: nat
      ensures Count(s', LocalOpened(v)) ==
              Count(s', LocalClosed(v)) + (if v < |s'.workers| && SocketOpen(s'.workers[v].pc) then 1 else 0)
      ensures Count(s', LocalOpened(v)) <= (if v < |s'.workers| && !BeforeDial(s'.workers[v].pc) then 1 else 0)
    {
      SocketStep(s, step, s', v);
    }
  }

  /** Only worker v opens or closes local socket v. */
  lemma SocketEvent(s: State, step: Step, v: nat)
    requires CanStep(s, step)
    ensures Emitted(step) == Emit(LocalOpened(v)) || Emitted(step) == Emit(LocalClosed(v)) ==>
              step.WorkerMoves? && step.w == v
  {
    match step
    case AcceptorMoves(a, pc') => AcceptEmits(s, a, pc');
    case CloserMoves(a, pc') => CloseEmits(s, a, pc');
    case WorkerMoves(w, a, pc') => WorkerEmits(s.running, w, s.workers[w].chan, s.workers[w].pc, a, pc');
    case _ =>
  }

  lemma SocketStep(s: State, step: Step, s': State, v: nat)
    requires SocketsMatch(s) && Next(s, step, s')
    ensures Count(s', LocalOpened(v)) ==
            Count(s', LocalClosed(v)) + (if v < |s'.workers| && SocketOpen(s'.workers[v].pc) then 1 else 0)
    ensures Count(s', LocalOpened(v)) <= (if v < |s'.workers| && !BeforeDial(s'.workers[v].pc) then 1 else 0)
  {
    WorkersPersist(s, step, s');
    WorkersAfter(s, step, s');
    CountStep(s, step, s', LocalOpened(v));
    CountStep(s, step, s', LocalClosed(v));
    SocketEvent(s, step, v);
    if step.WorkerMoves? {
      WorkerSockets(s.running, step.w, s.workers[step.w].chan, s.workers[step.w].pc, step.a, step.wpc);
    }
  }

  // ----------------------------------------------------- stages, preserved

  /** With nothing left to join, the accounting says every worker has exited. */
  lemma NobodyOwed(s: State)
    requires Accounted(s) && JoinedHaveExited(s)
    requires s.registered == [] && AcceptKeeps(s.accept) == [] && CloseKeeps(s.closer) == []
    ensures AllExited(s)
  {
    forall w: nat | w < |s.workers| ensures s.workers[w].pc.Exited? {
      assert Keepers(s)[w] == 0;
      assert Keepers(s)[w] + Count(s, Joined(w)) == 1;
      assert HasExited(s, w);
    }
  }

  lemma CloserThreadStages(s: State, a: Action, pc': ClosePc, s': State)
    requires ThreadStages(s) && AcceptorMatches(s) && Next(s, CloserMoves(a, pc'), s')
    requires s.closer == JoinWorkers([]) ==> AllExited(s)
    ensures ThreadStages(s')
  {
  }

  lemma CloserResourceStages(s: State, a: Action, pc': ClosePc, s': State)
    requires ResourceStages(s) && Next(s, CloserMoves(a, pc'), s')
    ensures ResourceStages(s')
  {
  }

  lemma AllJoined(s: State)
    requires Inv(s) && s.closer == JoinWorkers([])
    ensures AllExited(s)
  {
    NobodyOwed(s);
  }

  lemma CloserStages(s: State, a: Action, pc': ClosePc, s': State)
    requires Inv(s) && Next(s, CloserMoves(a, pc'), s')
    ensures StageFacts(s')
  {
    if s.closer == JoinWorkers([]) {
      AllJoined(s);
    }
    CloserThreadStages(s, a, pc', s');
    CloserResourceStages(s, a, pc', s');
  }

  /** The stages of Close say nothing about a worker but that it has exited. */
  lemma OtherStages(s: State, step: Step, s': State)
    requires StageFacts(s) && Next(s, step, s') && !step.CloserMoves?
    requires step.AcceptorMoves? ==> !AcceptorGone(s)
    ensures StageFacts(s')
  {
    WorkersPersist(s, step, s');
    OthersKeepResources(s, step, s');
  }

  /** Only Close touches the resources and its own progress. */
  ghost predicate SameResources(s: State, s': State) {
    && s'.closer == s.closer && s'.closes == s.closes && s'.acceptJoinable == s.acceptJoinable
    && s'.listener == s.listener && s'.session == s.session && s'.sshSocket == s.sshSocket
    && s'.hadListener == s.hadListener && s'.hadSession == s.hadSession
    && (!s.running ==> !s'.running)
  }

  lemma AcceptorKeepsResources(s: State, a: Action, pc': AcceptPc)
    ensures SameResources(s, AfterAcceptor(s, a, pc'))
  {
  }

  lemma WorkerKeepsResources(s: State, w: nat, a: Action, pc': WorkerPc)
    requires w < |s.workers|
    ensures SameResources(s, AfterWorker(s, w, a, pc'))
    ensures AfterWorker(s, w, a, pc').accept == s.accept && AfterWorker(s, w, a, pc').registered == s.registered
  {
  }

  lemma ReaderKeepsResources(s: State, held: bool, a: Action)
    ensures SameResources(s, AfterReader(s, held, a))
    ensures AfterReader(s, held, a).accept == s.accept && AfterReader(s, held, a).registered == s.registered
  {
  }

  lemma OthersKeepResources(s: State, step: Step, s': State)
    requires Next(s, step, s') && !step.CloserMoves?
    ensures SameResources(s, s')
    ensures !step.AcceptorMoves? ==> s'.accept == s.accept && s'.registered == s.registered
  {
    match step
    case AcceptorMoves(a, pc') => AcceptorKeepsResources(s, a, pc');
    case WorkerMoves(w, a, pc') => WorkerKeepsResources(s, w, a, pc');
    case ReaderLocks => ReaderKeepsResources(s, true, Acquire(Mu));
    case ReaderUnlocks => ReaderKeepsResources(s, false, Release(Mu));
  }

  lemma StagesPreserved(s: State, step: Step, s': State)
    requires Inv(s) && Next(s, step, s')
    ensures StageFacts(s')
  {
    if step.CloserMoves? {
      CloserStages(s, step.a, step.cpc, s');
    } else {
      if step.AcceptorMoves? {
        AcceptEmits(s, step.a, step.apc);
      }
      OtherStages(s, step, s');
    }
  }

  /** Nobody but Close frees the session, cancels the listener or closes the socket. */
  lemma OnlyCloserReleases(s: State, step: Step)
    requires CanStep(s, step)
    ensures !step.CloserMoves? && Emitted(step).Emit? ==>
              && Emitted(step).event != Lib(SessionFree) && Emitted(step).event != Lib(ForwardCancel)
              && !Emitted(step).event.SshSocketClosed? && !Emitted(step).event.AcceptorJoined?
    ensures step.AcceptorMoves? ==> !AcceptorGone(s) && !step.apc.NotStarted?
  {
    match step
    case AcceptorMoves(a, pc') => AcceptEmits(s, a, pc');
    case WorkerMoves(w, a, pc') => WorkerEmits(s.running, w, s.workers[w].chan, s.workers[w].pc, a, pc');
    case _ =>
  }

  lemma SessionPreserved(s: State, step: Step, s': State)
    requires StageFacts(s) && SessionMatches(s) && Next(s, step, s')
    ensures SessionMatches(s')
  {
    if step.CloserMoves? {
      CloserSession(s, step.a, step.cpc, s');
    } else {
      OnlyCloserReleases(s, step);
      OthersKeepResources(s, step, s');
      CountStep(s, step, s', Lib(SessionFree));
    }
  }

  /** Before it holds the session lock, Close leaves the resources alone. */
  lemma EarlyCloser(s: State, a: Action, pc': ClosePc, s': State)
    requires Next(s, CloserMoves(a, pc'), s') && Early(s.closer)
    ensures s'.closer == pc' && s'.closes == s.closes && Stage(pc') <= 4 && !pc'.Cancel? && !pc'.ClearListener?
    ensures a != Emit(Lib(SessionFree)) && a != Emit(Lib(ForwardCancel)) && a != Emit(SshSocketClosed)
    ensures s'.listener == s.listener && s'.session == s.session && s'.sshSocket == s.sshSocket
    ensures s'.hadListener == s.hadListener && s'.hadSession == s.hadSession
  {
    EarlyProtocol(s, a, pc');
  }

  lemma LateSession(s: State, a: Action, pc': ClosePc, s': State)
    requires ResourceStages(s) && SessionMatches(s) && Next(s, CloserMoves(a, pc'), s') && !Early(s.closer)
    ensures SessionMatches(s')
  {
    CountStep(s, CloserMoves(a, pc'), s', Lib(SessionFree));
  }

  lemma CloserSession(s: State, a: Action, pc': ClosePc, s': State)
    requires ResourceStages(s) && SessionMatches(s) && Next(s, CloserMoves(a, pc'), s')
    ensures SessionMatches(s')
  {
    if Early(s.closer) {
      EarlyCloser(s, a, pc', s');
      CountStep(s, CloserMoves(a, pc'), s', Lib(SessionFree));
    } else {
      LateSession(s, a, pc', s');
    }
  }

  lemma ListenerPreserved(s: State, step: Step, s': State)
    requires StageFacts(s) && ListenerMatches(s) && Next(s, step, s')
    ensures ListenerMatches(s')
  {
    if step.CloserMoves? {
      CloserListener(s, step.a, step.cpc, s');
    } else {
      OnlyCloserReleases(s, step);
      OthersKeepResources(s, step, s');
      CountStep(s, step, s', Lib(ForwardCancel));
    }
  }

  lemma LateListener(s: State, a: Action, pc': ClosePc, s': State)
    requires ResourceStages(s) && ListenerMatches(s) && Next(s, CloserMoves(a, pc'), s') && !Early(s.closer)
    ensures ListenerMatches(s')
  {
    CountStep(s, CloserMoves(a, pc'), s', Lib(ForwardCancel));
  }

  lemma CloserListener(s: State, a: Action, pc': ClosePc, s': State)
    requires ResourceStages(s) && ListenerMatches(s) && Next(s, CloserMoves(a, pc'), s')
    ensures ListenerMatches(s')
  {
    if Early(s.closer) {
      EarlyCloser(s, a, pc', s');
      CountStep(s, CloserMoves(a, pc'), s', Lib(ForwardCancel));
    } else {
      LateListener(s, a, pc', s');
    }
  }

  lemma SshSocketPreserved(s: State, step: Step, s': State)
    requires StageFacts(s) && SshSocketMatches(s) && Next(s, step, s')
    ensures SshSocketMatches(s')
  {
    if step.CloserMoves? {
      CloserSshSocket(s, step.a, step.cpc, s');
    } else {
      OnlyCloserReleases(s, step);
      OthersKeepResources(s, step, s');
      CountStep(s, step, s', SshSocketClosed);
    }
  }

  lemma LateSshSocket(s: State, a: Action, pc': ClosePc, s': State)
    requires ResourceStages(s) && SshSocketMatches(s) && Next(s, CloserMoves(a, pc'), s') && !Early(s.closer)
    ensures SshSocketMatches(s')
  {
    CountStep(s, CloserMoves(a, pc'), s', SshSocketClosed);
  }

  lemma CloserSshSocket(s: State, a: Action, pc': ClosePc, s': State)
    requires ResourceStages(s) && SshSocketMatches(s) && Next(s, CloserMoves(a, pc'), s')
    ensures SshSocketMatches(s')
  {
    if Early(s.closer) {
      EarlyCloser(s, a, pc', s');
      CountStep(s, CloserMoves(a, pc'), s', SshSocketClosed);
    } else {
      LateSshSocket(s, a, pc', s');
    }
  }

  lemma AcceptorPreserved(s: State, step: Step, s': State)
    requires StageFacts(s) && AcceptorMatches(s) && Next(s, step, s')
    ensures AcceptorMatches(s')
  {
    OnlyCloserReleases(s, step);
    CountStep(s, step, s', AcceptorJoined);
  }

  /** Inv is inductive: every step of every thread keeps it. */
  lemma InvPreserved(s: State, step: Step, s': State)
    requires Inv(s) && Next(s, step, s')
    ensures Inv(s')
  {
    LocksPreserved(s, step, s');
    AccountsPreserved(s, step, s');
    JoinsPreserved(s, step, s');
    ReapPreserved(s, step, s');
    ChannelsPreserved(s, step, s');
    FreesPreserved(s, step, s');
    SocketsPreserved(s, step, s');
    StagesPreserved(s, step, s');
    SessionPreserved(s, step, s');
    ListenerPreserved(s, step, s');
    SshSocketPreserved(s, step, s');
    AcceptorPreserved(s, step, s');
  }

  /** Every state of every run satisfies the invariant. */
  lemma {:induction false} RunsKeepInv(states: seq<State>, steps: seq<Step>, k: nat)
    requires IsRun(states, steps) && k < |states|
    ensures Inv(states[k])
  {
    if k == 0 {
      InitHolds(states[0]);
    } else {
      var i := k - 1;
      RunsKeepInv(states, steps, i);
      assert Next(states[i], steps[i], states[i + 1]);
      InvPreserved(states[i], steps[i], states[k]);
    }
  }
}
