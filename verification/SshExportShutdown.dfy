/** Deadlock freedom and bounded shutdown of the SSH export engine. */
module SshExportShutdown {
  import opened SshExportModel
  import opened SshExportInvariant
  import opened SshExportSafety

  /** Steps that drain the system: everything except a fresh Close call and a fresh
      reader, which come from outside. */
  ghost predicate Drains(s: State, step: Step) {
    !step.ReaderLocks? && !(step.CloserMoves? && s.closer.Idle?)
  }

  // -------------------------------------------------------------- progress

  datatype Move<Pc> = Move(a: Action, pc: Pc)

  /** One step a worker can always take, up to the lock it may wait for. */
  function WorkerMove(running: bool, w: nat, c: nat, pc: WorkerPc): (m: Move<WorkerPc>)
    requires !pc.Exited?
    ensures WorkerStep(running, w, c, pc, m.a, m.pc)
  {
    match pc
    case DialLock => Move(Acquire(Mu), DialRead)
    case DialRead => Move(Release(Mu), Dialing)
    case Dialing => Move(Tau, FailLock)
    case FailLock => Move(Acquire(Mu), FailRecord)
    case FailRecord => Move(Release(Mu), FreeLock)
    case FdLock => Move(Acquire(Mu), FdRecord)
    case FdRecord => Move(Release(Mu), FdClose)
    case FdClose => Move(Emit(LocalClosed(w)), FreeLock)
    case LoopTop => Move(Tau, if running then SelectRecv else CloseLocal)
    case SelectRecv => Move(Tau, ReadLock)
    case EofLock => Move(Acquire(SessionMu), EofSend)
    case EofSend => Move(Emit(Lib(ChannelSendEof(c))), EofUnlock)
    case EofUnlock => Move(Release(SessionMu), CloseLocal)
    case Writing(rem) => Move(Tau, if rem > 0 && running then WriteLock(rem) else ReadLock)
    case WriteLock(rem) => Move(Acquire(SessionMu), WriteCall(rem))
    case WriteCall(rem) => Move(Emit(Lib(ChannelWrite(c))), WriteUnlock(rem, true))
    case WriteUnlock(rem, failed) => Move(Release(SessionMu), if failed then CloseLocal else Writing(rem))
    case ReadLock => Move(Acquire(SessionMu), ReadCall)
    case ReadCall => Move(Emit(Lib(ChannelRead(c))), ReadProbe(0))
    case ReadProbe(m) => Move(Emit(Lib(if m < 0 then ChannelErrno(c) else ChannelEof(c))), ReadUnlock(NoData))
    case ReadUnlock(res) => Move(Release(SessionMu), AfterRead(res))
    case AfterRead(res) =>
      Move(Tau, match res
                case Data(m) => Sending(m)
                case EndOfFile => CloseLocal
                case Broken => CloseLocal
                case NoData => LoopTop)
    case Sending(rem) => Move(Tau, if rem == 0 then LoopTop else CloseLocal)
    case CloseLocal => Move(Emit(LocalClosed(w)), FreeLock)
    case FreeLock => Move(Acquire(SessionMu), FreeClose)
    case FreeClose => Move(Emit(Lib(ChannelClose(c))), FreeChannel)
    case FreeChannel => Move(Emit(Lib(ChannelFree(c))), FreeUnlock)
    case FreeUnlock => Move(Release(SessionMu), StoreDone)
    case StoreDone => Move(Tau, Returning)
    case Returning => Move(Tau, Exited)
  }

  /** The acceptor waits for a lock or for a reaped thread, and for nothing else. */
  function AcceptMove(s: State): (m: Move<AcceptPc>)
    requires !s.accept.NotStarted? && !s.accept.AcceptExited?
    requires s.accept.ReapScan? && s.accept.i < |s.registered| ==> s.registered[s.accept.i] < |s.workers|
    ensures !(s.accept.ReapJoin? && s.accept.finished != [] && !HasExited(s, s.accept.finished[0])) ==>
              AcceptStep(s, m.a, m.pc)
    ensures m.a.Acquire? ==> AcceptHolds(s.accept) == Nothing
  {
    match s.accept
    case AcceptTop => Move(Tau, if s.running then AcceptSelect else AcceptExited)
    case AcceptSelect => Move(Tau, AcceptRecheck)
    case AcceptRecheck => Move(Tau, if s.running then SessionLock else AcceptExited)
    case SessionLock => Move(Acquire(SessionMu), TestListener)
    case TestListener => if s.listener then Move(Emit(Lib(ForwardAccept)), AcceptErrno) else Move(Tau, BreakUnlock)
    case AcceptErrno => Move(Emit(Lib(LastErrno)), Keepalive(QueueEmpty))
    case Keepalive(out) => Move(Emit(Lib(KeepaliveSend)), SessionUnlock(out))
    case SessionUnlock(out) => Move(Release(SessionMu), Dispatch(out))
    case BreakUnlock => Move(Release(SessionMu), AcceptExited)
    case Dispatch(out) =>
      Move(Tau, match out
                case Channel(c) => ReapLock(c)
                case DeadTransport => ErrorLock
                case QueueEmpty => AcceptTop)
    case ReapLock(c) => Move(Acquire(WorkersMu), ReapScan(c, 0, []))
    case ReapScan(c, i, fin) =>
      if i < |s.registered|
      then Move(Tau, if Done(s.workers[s.registered[i]].pc) then ReapScan(c, i, fin + [s.registered[i]])
                     else ReapScan(c, i + 1, fin))
      else Move(Release(WorkersMu), ReapJoin(c, fin))
    case ReapJoin(c, fin) =>
      if fin == [] then Move(Tau, Spawn(c)) else Move(Emit(Joined(fin[0])), ReapJoin(c, fin[1..]))
    case Spawn(_) => Move(Emit(Started(|s.workers|)), PushLock(|s.workers|))
    case PushLock(w) => Move(Acquire(WorkersMu), Push(w))
    case Push(w) => Move(Tau, PushUnlock)
    case PushUnlock => Move(Release(WorkersMu), AcceptTop)
    case ErrorLock => Move(Acquire(Mu), ErrorRecord)
    case ErrorRecord => Move(Release(Mu), StopRunning)
    case StopRunning => Move(ClearRunning, AcceptExited)
  }

  /** Close waits for a lock, for the acceptor or for one worker, and for nothing else. */
  function CloseMove(s: State): (m: Move<ClosePc>)
    requires !s.closer.Idle?
    ensures !(s.closer.JoinAcceptor? && s.acceptJoinable && !s.accept.AcceptExited?)
            && !(s.closer.JoinWorkers? && s.closer.pending != [] && !HasExited(s, s.closer.pending[0])) ==>
              CloseStep(s, m.a, m.pc)
    ensures m.a.Acquire? ==> CloseHolds(s.closer) == Nothing
  {
    match s.closer
    case StoreStop => Move(ClearRunning, JoinAcceptor)
    case JoinAcceptor => Move(if s.acceptJoinable then Emit(AcceptorJoined) else Tau, SwapLock)
    case SwapLock => Move(Acquire(WorkersMu), Swap)
    case Swap => Move(Tau, SwapUnlock(s.registered))
    case SwapUnlock(p) => Move(Release(WorkersMu), JoinWorkers(p))
    case JoinWorkers(p) =>
      if p == [] then Move(Tau, TeardownLock) else Move(Emit(Joined(p[0])), JoinWorkers(p[1..]))
    case TeardownLock => Move(Acquire(SessionMu), TestCancel)
    case TestCancel => Move(Tau, if s.listener then Cancel(CANCEL_RETRIES) else TestSession)
    case Cancel(r) => Move(Emit(Lib(ForwardCancel)), ClearListener)
    case ClearListener => Move(Tau, TestSession)
    case TestSession => Move(Tau, if s.session then MakeBlocking else CloseSsh)
    case MakeBlocking => Move(Emit(Lib(SetBlocking)), BoundTimeout)
    case BoundTimeout => Move(Emit(Lib(SetTimeout)), SayGoodbye)
    case SayGoodbye => Move(Emit(Lib(Disconnect)), FreeSession)
    case FreeSession => Move(Emit(Lib(SessionFree)), ClearSession)
    case ClearSession => Move(Tau, CloseSsh)
    case CloseSsh => Move(if s.sshSocket then Emit(SshSocketClosed) else Tau, TeardownUnlock)
    case TeardownUnlock => Move(Release(SessionMu), StatusLock)
    case StatusLock => Move(Acquire(Mu), StatusWrite)
    case StatusWrite => Move(Release(Mu), Idle)
  }

  lemma WorkerCanStep(s: State, w: nat) returns (step: Step)
    requires w < |s.workers| && !s.workers[w].pc.Exited?
    requires s.owner == map[] || WorkerHolds(s.workers[w].pc) != Nothing
    ensures CanStep(s, step) && Drains(s, step)
  {
    var m := WorkerMove(s.running, w, s.workers[w].chan, s.workers[w].pc);
    WorkerAcquires(s.running, w, s.workers[w].chan, s.workers[w].pc, m.a, m.pc);
    step := WorkerMoves(w, m.a, m.pc);
  }

  lemma RegisteredExist(s: State, i: nat)
    requires Inv(s) && i < |s.registered|
    ensures s.registered[i] < |s.workers|
  {
    var w := s.registered[i];
    assert w in multiset(s.registered);
    assert Keepers(s)[w] >= 1;
    assert Keepers(s)[w] + Count(s, Joined(w)) == if w < |s.workers| then 1 else 0;
  }

  /** The acceptor can move, or it waits for a worker that can. */
  lemma AcceptorCanStep(s: State) returns (step: Step)
    requires Inv(s) && !AcceptorGone(s)
    requires s.owner == map[] || AcceptHolds(s.accept) != Nothing
    ensures CanStep(s, step) && Drains(s, step)
  {
    if s.accept.ReapJoin? && s.accept.finished != [] && !HasExited(s, s.accept.finished[0]) {
      step := WorkerCanStep(s, s.accept.finished[0]);
    } else {
      if s.accept.ReapScan? && s.accept.i < |s.registered| {
        RegisteredExist(s, s.accept.i);
      }
      var m := AcceptMove(s);
      step := AcceptorMoves(m.a, m.pc);
    }
  }

  lemma PendingExist(s: State)
    requires Inv(s) && s.closer.JoinWorkers? && s.closer.pending != []
    ensures s.closer.pending[0] < |s.workers|
  {
    var w := s.closer.pending[0];
    assert w in multiset(CloseKeeps(s.closer));
    assert Keepers(s)[w] >= 1;
    assert Keepers(s)[w] + Count(s, Joined(w)) == if w < |s.workers| then 1 else 0;
  }

  lemma CloserCanStep(s: State) returns (step: Step)
    requires Inv(s) && !s.closer.Idle?
    requires s.owner == map[] || CloseHolds(s.closer) != Nothing
    ensures CanStep(s, step) && Drains(s, step)
  {
    if s.closer.JoinAcceptor? && s.acceptJoinable && !s.accept.AcceptExited? {
      step := AcceptorCanStep(s);
    } else if s.closer.JoinWorkers? && s.closer.pending != [] && !HasExited(s, s.closer.pending[0]) {
      PendingExist(s);
      step := WorkerCanStep(s, s.closer.pending[0]);
    } else {
      var m := CloseMove(s);
      step := CloserMoves(m.a, m.pc);
    }
  }

  /** Deadlock freedom: while a Close is pending, some thread can take a draining step.
      A lock in use has a holder that never waits; with all locks free, whoever Close
      waits for can move. */
  lemma NoDeadlock(s: State) returns (step: Step)
    requires Inv(s) && !s.closer.Idle?
    ensures CanStep(s, step) && Drains(s, step)
  {
    if l :| l in s.owner {
      var t := s.owner[l];
      assert Live(s, t) && Owns(s, t, l);
      assert HeldBy(s, t) == Holding(l);
      match t
      case Acceptor => step := AcceptorCanStep(s);
      case Closer => step := CloserCanStep(s);
      case Worker(w) => step := WorkerCanStep(s, w);
      case Reader => step := ReaderUnlocks;
    } else {
      assert s.owner == map[];
      step := CloserCanStep(s);
    }
  }

  // ---------------------------------------------------------------- bounds

  /** Steps a worker still takes once `running` is false. */
  function WorkerRank(pc: WorkerPc): nat {
    match pc
    case DialLock => 12
    case DialRead => 11
    case Dialing => 10
    case FailLock => 8
    case FailRecord => 7
    case FdLock => 9
    case FdRecord => 8
    case FdClose => 7
    case SelectRecv => 16
    case EofLock => 10
    case EofSend => 9
    case EofUnlock => 8
    case WriteLock(_) => 18
    case WriteCall(_) => 17
    case WriteUnlock(_, _) => 16
    case Writing(_) => 15
    case ReadLock => 14
    case ReadCall => 13
    case ReadProbe(_) => 12
    case ReadUnlock(_) => 11
    case AfterRead(_) => 10
    case Sending(_) => 9
    case LoopTop => 8
    case CloseLocal => 7
    case FreeLock => 6
    case FreeClose => 5
    case FreeChannel => 4
    case FreeUnlock => 3
    case StoreDone => 2
    case Returning => 1
    case Exited => 0
  }

  /** Steps the acceptor still takes, counting those of the worker it may yet start. */
  function AcceptRank(pc: AcceptPc, registered: nat): int {
    match pc
    case NotStarted => 0
    case AcceptExited => 0
    case AcceptTop => 1
    case AcceptRecheck => 27 + 2 * registered
    case AcceptSelect => 28 + 2 * registered
    case StopRunning => 1
    case BreakUnlock => 1
    case ErrorRecord => 2
    case ErrorLock => 3
    case PushUnlock => 2
    case Push(_) => 4
    case PushLock(_) => 5
    case Spawn(_) => 18
    case ReapJoin(_, fin) => 19 + |fin|
    case ReapScan(_, i, fin) => 20 + 2 * (registered - i) + |fin|
    case ReapLock(_) => 21 + 2 * registered
    case Dispatch(_) => 22 + 2 * registered
    case SessionUnlock(_) => 23 + 2 * registered
    case Keepalive(_) => 24 + 2 * registered
    case AcceptErrno => 25 + 2 * registered
    case TestListener => 26 + 2 * registered
    case SessionLock => 27 + 2 * registered
  }

  function CloseRank(pc: ClosePc, registered: nat): nat {
    match pc
    case Idle => 0
    case StatusWrite => 1
    case StatusLock => 2
    case TeardownUnlock => 3
    case CloseSsh => 4
    case ClearSession => 5
    case FreeSession => 6
    case SayGoodbye => 7
    case BoundTimeout => 8
    case MakeBlocking => 9
    case TestSession => 10
    case ClearListener => 11
    case Cancel(r) => 12 + r
    case TestCancel => 13 + CANCEL_RETRIES
    case TeardownLock => 14 + CANCEL_RETRIES
    case JoinWorkers(p) => 15 + CANCEL_RETRIES + |p|
    case SwapUnlock(p) => 16 + CANCEL_RETRIES + |p|
    case Swap => 17 + CANCEL_RETRIES + registered
    case SwapLock => 18 + CANCEL_RETRIES + registered
    case JoinAcceptor => 19 + CANCEL_RETRIES + registered
    case StoreStop => 20 + CANCEL_RETRIES + registered
  }

  ghost function WorkersRank(ws: seq<WorkerThread>): nat {
    if ws == [] then 0 else WorkersRank(ws[..|ws| - 1]) + WorkerRank(ws[|ws| - 1].pc)
  }

  lemma {:induction false} WorkersRankUpdate(ws: seq<WorkerThread>, w: nat, t: WorkerThread)
    requires w < |ws|
    ensures WorkersRank(ws[w := t]) + WorkerRank(ws[w].pc) == WorkersRank(ws) + WorkerRank(t.pc)
  {
    var n := |ws| - 1;
    if w == n {
      assert ws[w := t][..n] == ws[..n];
    } else {
      assert ws[w := t][..n] == ws[..n][w := t];
      WorkersRankUpdate(ws[..n], w, t);
    }
  }

  /** An upper bound on the draining steps left in a stopped system. */
  ghost function Rank(s: State): int {
    (if s.reader then 1 else 0) + AcceptRank(s.accept, |s.registered|)
    + CloseRank(s.closer, |s.registered|) + WorkersRank(s.workers)
  }

  lemma RankIsNat(s: State)
    requires Inv(s)
    ensures Rank(s) >= 0
  {
  }

  lemma PumpDescends(w: nat, c: nat, pc: WorkerPc, a: Action, pc': WorkerPc)
    requires WorkerStep(false, w, c, pc, a, pc') && Pumping(pc)
    ensures WorkerRank(pc') < WorkerRank(pc)
  {
  }

  lemma WorkerDescends(w: nat, c: nat, pc: WorkerPc, a: Action, pc': WorkerPc)
    requires WorkerStep(false, w, c, pc, a, pc')
    ensures WorkerRank(pc') < WorkerRank(pc)
  {
    if Pumping(pc) {
      PumpDescends(w, c, pc, a, pc');
    }
  }

  lemma ReaperDescends(s: State, a: Action, pc': AcceptPc, s': State)
    requires Inv(s) && Next(s, AcceptorMoves(a, pc'), s') && s.accept.ReapScan?
    ensures |s'.registered| <= |s.registered|
    ensures AcceptRank(pc', |s'.registered|) < AcceptRank(s.accept, |s.registered|)
  {
  }

  lemma NonReaperDescends(s: State, a: Action, pc': AcceptPc)
    requires !s.running && AcceptStep(s, a, pc') && !s.accept.ReapScan?
    ensures |RegisteredAfter(s, pc')| == |s.registered| + (if s.accept.Push? then 1 else 0)
    ensures AcceptRank(pc', |RegisteredAfter(s, pc')|)
            + (if s.accept.Push? then 1 else if s.accept.Spawn? then 12 else 0)
            < AcceptRank(s.accept, |s.registered|)
  {
  }

  lemma AcceptorDescends(s: State, a: Action, pc': AcceptPc, s': State)
    requires Inv(s) && !s.running && Next(s, AcceptorMoves(a, pc'), s')
    ensures |s'.registered| <= |s.registered| + (if s.accept.Push? then 1 else 0)
    ensures AcceptRank(pc', |s'.registered|)
            + (if s.accept.Push? then 1 else if s.accept.Spawn? then 12 else 0)
            < AcceptRank(s.accept, |s.registered|)
  {
    if s.accept.ReapScan? {
      ReaperDescends(s, a, pc', s');
    } else {
      NonReaperDescends(s, a, pc');
    }
  }

  lemma CloserDescends(s: State, a: Action, pc': ClosePc, s': State)
    requires Next(s, CloserMoves(a, pc'), s') && !s.closer.Idle?
    ensures CloseRank(pc', |s'.registered|) < CloseRank(s.closer, |s.registered|)
    ensures s'.registered == s.registered || s.closer.Swap?
  {
  }

  /** In a stopped system every draining step uses up rank, whichever thread takes it. */
  lemma StepsDescend(s: State, step: Step, s': State)
    requires Inv(s) && !s.running && Next(s, step, s') && Drains(s, step)
    ensures Rank(s') < Rank(s) && !s'.running
  {
    match step
    case AcceptorMoves(a, pc') =>
      AcceptorDescends(s, a, pc', s');
      WorkersPersist(s, step, s');
      if s.accept.Spawn? {
        assert s'.workers[..|s'.workers| - 1] == s.workers;
      } else {
        assert s'.workers == s.workers;
      }
    case WorkerMoves(w, a, pc') =>
      WorkerDescends(w, s.workers[w].chan, s.workers[w].pc, a, pc');
      WorkersRankUpdate(s.workers, w, s'.workers[w]);
    case CloserMoves(a, pc') => CloserDescends(s, a, pc', s');
    case _ =>
  }

  /** A stretch of draining steps, starting anywhere. */
  ghost predicate Drain(states: seq<State>, steps: seq<Step>) {
    && |states| == |steps| + 1
    && forall k :: 0 <= k < |steps| ==> Next(states[k], steps[k], states[k + 1]) && Drains(states[k], steps[k])
  }

  lemma DrainStep(s: State, step: Step, s': State)
    requires Inv(s) && !s.running && Next(s, step, s') && Drains(s, step)
    ensures Inv(s') && !s'.running && Rank(s') < Rank(s)
  {
    StepsDescend(s, step, s');
    InvPreserved(s, step, s');
  }

  lemma {:induction false} DrainDescends(states: seq<State>, steps: seq<Step>, k: nat)
    requires Drain(states, steps) && Inv(states[0]) && !states[0].running && k <= |steps|
    ensures Inv(states[k]) && !states[k].running && Rank(states[k]) + k <= Rank(states[0])
  {
    if k > 0 {
      var i := k - 1;
      DrainDescends(states, steps, i);
      assert Next(states[i], steps[i], states[i + 1]) && Drains(states[i], steps[i]);
      DrainStep(states[i], steps[i], states[k]);
    }
  }

  /** Bounded shutdown: from a stopped state no schedule drains for more than Rank steps. */
  lemma ShutdownIsBounded(states: seq<State>, steps: seq<Step>)
    requires Drain(states, steps) && Inv(states[0]) && !states[0].running
    ensures |steps| <= Rank(states[0])
  {
    DrainDescends(states, steps, |steps|);
    RankIsNat(states[|steps|]);
  }

  ghost predicate Stuck(s: State) {
    forall step :: CanStep(s, step) ==> !Drains(s, step)
  }

  /** Close returns: a schedule that drains a stopped system until nothing more can move
      ends with Close finished; if Close was pending, it leaves the closed state. */
  lemma CloseReturns(states: seq<State>, steps: seq<Step>)
    requires Drain(states, steps) && Inv(states[0]) && !states[0].running
    requires Stuck(states[|steps|])
    ensures |steps| <= Rank(states[0])
    ensures states[|steps|].closer.Idle?
    ensures !states[0].closer.Idle? ==> Closed(states[|steps|])
  {
    ShutdownIsBounded(states, steps);
    var last := states[|steps|];
    DrainDescends(states, steps, |steps|);
    if !last.closer.Idle? {
      var step := NoDeadlock(last);
      assert false;
    }
    if !states[0].closer.Idle? {
      CloseCounts(states, steps, |steps|);
      CloseLeavesNothing(last);
    }
  }

  ghost predicate DrainsFrom(states: seq<State>, steps: seq<Step>, from: nat) {
    |states| == |steps| + 1 && forall k {:trigger steps[k]} :: from <= k < |steps| ==> Drains(states[k], steps[k])
  }

  lemma DrainAt(states: seq<State>, steps: seq<Step>, from: nat, i: nat)
    requires IsRun(states, steps) && DrainsFrom(states, steps, from) && from <= i < |steps|
    ensures Next(states[i], steps[i], states[i + 1]) && Drains(states[i], steps[i])
  {
    assert Next(states[i], steps[i], states[i + 1]);
  }

  /** A step of a stretch that drains. */
  ghost predicate DrainsBy(s: State, step: Step, s': State) {
    Next(s, step, s') && Drains(s, step)
  }

  lemma SuffixDrains(states: seq<State>, steps: seq<Step>, from: nat)
    requires |states| == |steps| + 1 && from <= |steps|
    requires forall i {:trigger steps[i]} :: from <= i < |steps| ==> DrainsBy(states[i], steps[i], states[i + 1])
    ensures Drain(states[from..], steps[from..])
  {
    var rest, moves := states[from..], steps[from..];
    forall k | 0 <= k < |moves| ensures Next(rest[k], moves[k], rest[k + 1]) && Drains(rest[k], moves[k]) {
      var i := from + k;
      assert DrainsBy(states[i], steps[i], states[i + 1]);
      assert rest[k] == states[i] && moves[k] == steps[i] && rest[k + 1] == states[i + 1];
    }
  }

  lemma RestDrains(states: seq<State>, steps: seq<Step>, from: nat)
    requires IsRun(states, steps) && from <= |steps| && DrainsFrom(states, steps, from)
    ensures Drain(states[from..], steps[from..])
  {
    forall i {:trigger steps[i]} | from <= i < |steps| ensures DrainsBy(states[i], steps[i], states[i + 1]) {
      DrainAt(states, steps, from, i);
    }
    SuffixDrains(states, steps, from);
  }

  /** Shutdown over whole runs: from the moment `running` is false, a run that takes only
      draining steps has a bounded rest; and if a Close was pending then and nothing can
      move any more, Close has returned and left nothing behind. */
  lemma RunsShutDown(states: seq<State>, steps: seq<Step>, from: nat)
    requires IsRun(states, steps) && from <= |steps| && !states[from].running
    requires DrainsFrom(states, steps, from)
    ensures |steps| - from <= Rank(states[from])
    ensures !states[from].closer.Idle? && Stuck(states[|steps|]) ==> Closed(states[|steps|])
  {
    RunsKeepInv(states, steps, from);
    var rest, moves := states[from..], steps[from..];
    RestDrains(states, steps, from);
    ShutdownIsBounded(rest, moves);
    if !states[from].closer.Idle? && Stuck(states[|steps|]) {
      CloseReturns(rest, moves);
    }
  }

  lemma {:induction false} CloseCounts(states: seq<State>, steps: seq<Step>, k: nat)
    requires Drain(states, steps) && !states[0].closer.Idle? && k <= |steps|
    ensures states[k].closer.Idle? ==> states[k].closes > 0
    ensures states[k].closes >= states[0].closes
  {
    if k > 0 {
      var i := k - 1;
      CloseCounts(states, steps, i);
      assert Next(states[i], steps[i], states[i + 1]) && Drains(states[i], steps[i]);
      ClosesGrow(states[i], steps[i], states[k]);
    }
  }

  lemma ClosesGrow(s: State, step: Step, s': State)
    requires Next(s, step, s') && Drains(s, step)
    ensures s'.closes >= s.closes
    ensures s'.closer.Idle? ==> s.closer.Idle? || s'.closes > 0
  {
    if step.CloserMoves? {
      CloserIdleCounts(s, step.a, step.cpc);
    }
  }

  lemma CloserIdleCounts(s: State, a: Action, pc': ClosePc)
    requires CloseStep(s, a, pc')
    ensures pc'.Idle? ==> s.closer.StatusWrite?
  {
  }

  // ------------------------------------------------------- late workers

  /** 1 while the acceptor is past its last look at `running` and may still spawn. */
  function SpawnBudget(pc: AcceptPc): nat {
    match pc
    case SessionLock | TestListener | AcceptErrno | Keepalive(_) | SessionUnlock(_) | Dispatch(_) => 1
    case ReapLock(_) | ReapScan(_, _, _) | ReapJoin(_, _) | Spawn(_) => 1
    case _ => 0
  }

  lemma AcceptorBudget(s: State, a: Action, pc': AcceptPc)
    requires !s.running && AcceptStep(s, a, pc')
    ensures (if s.accept.Spawn? then 1 else 0) + SpawnBudget(pc') <= SpawnBudget(s.accept)
  {
  }

  lemma BudgetSpent(s: State, step: Step, s': State)
    requires !s.running && Next(s, step, s')
    ensures !s'.running
    ensures |s'.workers| + SpawnBudget(s'.accept) <= |s.workers| + SpawnBudget(s.accept)
  {
    WorkersAfter(s, step, s');
    match step
    case AcceptorMoves(a, pc') =>
      assert s'.accept == pc';
      AcceptorBudget(s, a, pc');
    case _ => assert s'.accept == s.accept;
  }

  /** After `running` turns false at most one more worker is started, in every run. */
  lemma {:induction false} AtMostOneLateWorker(states: seq<State>, steps: seq<Step>, from: nat, k: nat)
    requires IsRun(states, steps) && from <= k < |states| && !states[from].running
    ensures !states[k].running
    ensures |states[k].workers| + SpawnBudget(states[k].accept)
            <= |states[from].workers| + SpawnBudget(states[from].accept)
    ensures |states[k].workers| <= |states[from].workers| + 1
  {
    if from < k {
      var i := k - 1;
      AtMostOneLateWorker(states, steps, from, i);
      assert Next(states[i], steps[i], states[i + 1]);
      BudgetSpent(states[i], steps[i], states[k]);
    }
  }
}
