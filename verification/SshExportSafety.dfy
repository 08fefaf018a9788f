/** What the invariant means for an observer: exclusion, teardown order and the fate of
    every thread, channel and socket. */
module SshExportSafety {
  import opened SshExportModel
  import opened SshExportInvariant

  /** In no run does a thread ever own two of the three locks. */
  lemma NoNestedLocks(states: seq<State>, steps: seq<Step>, i: nat, t: Thread, k: Lock, l: Lock)
    requires IsRun(states, steps) && i < |states| && Owns(states[i], t, k) && Owns(states[i], t, l)
    ensures k == l
  {
    RunsKeepInv(states, steps, i);
    assert HeldBy(states[i], t) == Holding(k);
    assert HeldBy(states[i], t) == Holding(l);
  }

  predicate Joins(step: Step) {
    Emitted(step).Emit? && (Emitted(step).event.Joined? || Emitted(step).event.AcceptorJoined?)
  }

  /** In every run a thread about to join another owns no lock. */
  lemma JoinsHoldNoLock(states: seq<State>, steps: seq<Step>, i: nat, step: Step, l: Lock)
    requires IsRun(states, steps) && i < |states| && CanStep(states[i], step) && Joins(step)
    ensures !Owns(states[i], Mover(step), l)
  {
    RunsKeepInv(states, steps, i);
    var s := states[i];
    match step
    case AcceptorMoves(a, pc') => AcceptProtocol(s, a, pc'); assert HeldBy(s, Acceptor) == Nothing;
    case CloserMoves(a, pc') => CloseProtocol(s, a, pc'); assert HeldBy(s, Closer) == Nothing;
    case WorkerMoves(w, a, pc') => WorkerEmits(s.running, w, s.workers[w].chan, s.workers[w].pc, a, pc');
    case _ =>
  }

  function Mover(step: Step): Thread {
    match step
    case AcceptorMoves(_, _) => Acceptor
    case WorkerMoves(w, _, _) => Worker(w)
    case CloserMoves(_, _) => Closer
    case _ => Reader
  }

  ghost predicate Calls(step: Step) {
    Emitted(step).Emit? && Emitted(step).event.Lib?
  }

  lemma CallersOwnSession(s: State, step: Step)
    requires Inv(s) && CanStep(s, step) && Calls(step)
    ensures Owns(s, Mover(step), SessionMu)
  {
    match step
    case AcceptorMoves(a, pc') => AcceptEmits(s, a, pc'); assert HeldBy(s, Acceptor) == Holding(SessionMu);
    case CloserMoves(a, pc') => CloseEmits(s, a, pc'); assert HeldBy(s, Closer) == Holding(SessionMu);
    case WorkerMoves(w, a, pc') =>
      WorkerEmits(s.running, w, s.workers[w].chan, s.workers[w].pc, a, pc');
      assert HeldBy(s, Worker(w)) == Holding(SessionMu);
    case _ =>
  }

  /** In no run is libssh2 entered by two threads: if two steps are both ready to call it,
      they are steps of one thread. */
  lemma CallsExclude(states: seq<State>, steps: seq<Step>, i: nat, step: Step, other: Step)
    requires IsRun(states, steps) && i < |states| && Calls(step) && Calls(other)
    requires CanStep(states[i], step) && CanStep(states[i], other)
    ensures Mover(step) == Mover(other)
  {
    RunsKeepInv(states, steps, i);
    CallersOwnSession(states[i], step);
    CallersOwnSession(states[i], other);
  }

  // ----------------------------------------------------------- event order

  /** Whether `f` may come after `e`. */
  predicate MayFollow(e: Event, f: Event) {
    match e
    case Lib(SessionFree) => !f.Lib? && !f.Started? && !f.Joined? && !f.AcceptorJoined?
    case Lib(ChannelFree(c)) => f.Lib? ==> Target(f.call) != OnChannel(c)
    case Lib(ForwardCancel) => f != Lib(ForwardAccept) && !f.Started? && !f.Joined?
    case Joined(w) =>
      && f != Joined(w) && f != LocalOpened(w) && f != LocalClosed(w)
      && (f.Lib? ==> Target(f.call) != OnChannel(w))
    case AcceptorJoined => !f.AcceptorJoined? && !f.Started? && f != Lib(ForwardAccept)
    case SshSocketClosed => !f.Lib? && !f.SshSocketClosed?
    case LocalClosed(w) => f != LocalOpened(w) && f != LocalClosed(w)
    case Started(w) => f != Started(w)
    case _ => true
  }

  ghost predicate Ordered(trace: seq<Event>) {
    forall i, j :: 0 <= i < j < |trace| ==> MayFollow(trace[i], trace[j])
  }

  lemma PastCounts(s: State, i: nat)
    requires i < |s.trace|
    ensures Count(s, s.trace[i]) > 0
  {
    assert s.trace[i] in multiset(s.trace);
  }

  /** An acceptor's call or spawn comes before everything Close does. */
  lemma AcceptorInTime(s: State, a: Action, pc': AcceptPc, e: Event)
    requires Inv(s) && CanStep(s, AcceptorMoves(a, pc')) && a.Emit? && Count(s, e) > 0
    ensures MayFollow(e, a.event)
  {
    AcceptEmits(s, a, pc');
    assert !Reached(s, 2);
    if a.event.Started? {
      assert Count(s, Started(|s.workers|)) == 0;
    }
    if a.event.Joined? {
      AcceptorJoinsOnce(s, a, pc');
    }
  }

  lemma AcceptorJoinsOnce(s: State, a: Action, pc': AcceptPc)
    requires Inv(s) && AcceptStep(s, a, pc') && a.Emit? && a.event.Joined?
    ensures Count(s, a.event) == 0
  {
    AcceptorQuietUnlessReaping(s, a, pc');
    var fin := s.accept.finished;
    assert fin[0] in multiset(fin);
    assert Keepers(s)[fin[0]] >= 1;
    assert Keepers(s)[fin[0]] + Count(s, Joined(fin[0])) <= 1;
  }

  lemma AcceptorQuietUnlessReaping(s: State, a: Action, pc': AcceptPc)
    requires AcceptStep(s, a, pc') && a.Emit? && a.event.Joined?
    ensures s.accept.ReapJoin? && s.accept.finished != [] && a.event.w == s.accept.finished[0]
  {
  }

  /** While a worker has something to say, none of the events that end it has happened. */
  lemma WorkerStillOwns(s: State, w: nat, a: Action, pc': WorkerPc)
    requires Inv(s) && CanStep(s, WorkerMoves(w, a, pc')) && a.Emit?
    ensures s.workers[w].chan == w && !Reached(s, 4)
    ensures Count(s, Joined(w)) == 0 && Count(s, Lib(ChannelFree(w))) == 0
  {
    WorkerEmits(s.running, w, s.workers[w].chan, s.workers[w].pc, a, pc');
    WorkerSockets(s.running, w, s.workers[w].chan, s.workers[w].pc, a, pc');
    assert Count(s, Joined(w)) > 0 ==> HasExited(s, w);
    assert Count(s, Lib(ChannelFree(w))) == if Freed(s.workers[w].pc) then 1 else 0;
  }

  lemma SocketStillOpen(s: State, w: nat, a: Action, pc': WorkerPc)
    requires Inv(s) && CanStep(s, WorkerMoves(w, a, pc')) && (a == Emit(LocalOpened(w)) || a == Emit(LocalClosed(w)))
    ensures Count(s, LocalClosed(w)) == 0
  {
    WorkerSockets(s.running, w, s.workers[w].chan, s.workers[w].pc, a, pc');
    assert Count(s, LocalOpened(w)) ==
           Count(s, LocalClosed(w)) + (if SocketOpen(s.workers[w].pc) then 1 else 0);
    assert Count(s, LocalOpened(w)) <= (if !BeforeDial(s.workers[w].pc) then 1 else 0);
  }

  /** The session and the ssh socket outlive every worker. */
  lemma NothingReleasedYet(s: State)
    requires Inv(s) && !Reached(s, 4)
    ensures Count(s, Lib(SessionFree)) == 0 && Count(s, SshSocketClosed) == 0 && Count(s, Lib(ForwardCancel)) == 0
  {
  }

  /** A worker's call or socket operation comes before its own free, join and teardown. */
  lemma WorkerInTime(s: State, w: nat, a: Action, pc': WorkerPc, e: Event)
    requires Inv(s) && CanStep(s, WorkerMoves(w, a, pc')) && a.Emit? && Count(s, e) > 0
    ensures MayFollow(e, a.event)
  {
    WorkerEmits(s.running, w, s.workers[w].chan, s.workers[w].pc, a, pc');
    WorkerStillOwns(s, w, a, pc');
    NothingReleasedYet(s);
    if !a.event.Lib? {
      SocketStillOpen(s, w, a, pc');
    }
  }

  lemma CloserJoinsOnce(s: State, a: Action, pc': ClosePc)
    requires Inv(s) && CloseStep(s, a, pc') && a.Emit? && a.event.Joined?
    ensures Count(s, a.event) == 0 && s.closer.JoinWorkers?
    ensures s.closes == 0 && Count(s, Lib(SessionFree)) == 0 && Count(s, Lib(ForwardCancel)) == 0
  {
    assert s.closer.JoinWorkers?;
    var p := s.closer.pending;
    assert p[0] in multiset(p);
    assert Keepers(s)[p[0]] >= 1;
    assert Keepers(s)[p[0]] + Count(s, Joined(p[0])) <= 1;
  }

  /** Every call Close makes comes before the session is gone. */
  lemma CloserInTime(s: State, a: Action, pc': ClosePc, e: Event)
    requires Inv(s) && CanStep(s, CloserMoves(a, pc')) && a.Emit? && Count(s, e) > 0
    ensures MayFollow(e, a.event)
  {
    CloseEmits(s, a, pc');
    if a.event.Joined? {
      CloserJoinsOnce(s, a, pc');
    } else if a.event.Lib? {
      CloserCallsInTime(s, a, pc');
      if e.Lib? && e.call.ChannelFree? {
        assert Target(a.event.call) == OnSession;
      }
    }
  }

  lemma CloserCallsInTime(s: State, a: Action, pc': ClosePc)
    requires Inv(s) && CloseStep(s, a, pc') && a.Emit? && a.event.Lib?
    ensures Count(s, Lib(SessionFree)) == 0 && Count(s, SshSocketClosed) == 0
  {
    assert || s.closer.Cancel? || s.closer.MakeBlocking? || s.closer.BoundTimeout? || s.closer.SayGoodbye?
           || s.closer.FreeSession?;
    assert s.closer.Cancel? ==> !Reached(s, 5);
    assert !Reached(s, 6);
  }

  lemma EventInTime(s: State, step: Step, e: Event)
    requires Inv(s) && CanStep(s, step) && Emitted(step).Emit? && Count(s, e) > 0
    ensures MayFollow(e, Emitted(step).event)
  {
    match step
    case AcceptorMoves(a, pc') => AcceptorInTime(s, a, pc', e);
    case WorkerMoves(w, a, pc') => WorkerInTime(s, w, a, pc', e);
    case CloserMoves(a, pc') => CloserInTime(s, a, pc', e);
    case _ =>
  }

  lemma TraceStep(s: State, step: Step, s': State)
    requires Next(s, step, s')
    ensures s'.trace == TraceAfter(s.trace, Emitted(step))
  {
    match step
    case AcceptorMoves(a, pc') => assert s' == AfterAcceptor(s, a, pc');
    case WorkerMoves(w, a, pc') => assert s' == AfterWorker(s, w, a, pc');
    case CloserMoves(a, pc') => assert s' == AfterCloser(s, a, pc');
    case _ =>
  }

  lemma {:induction false} OrderExtends(trace: seq<Event>, f: Event)
    requires Ordered(trace) && forall i :: 0 <= i < |trace| ==> MayFollow(trace[i], f)
    ensures Ordered(trace + [f])
  {
    forall i, j | 0 <= i < j < |trace + [f]| ensures MayFollow((trace + [f])[i], (trace + [f])[j]) {
      assert (trace + [f])[i] == trace[i];
      if j < |trace| {
        assert (trace + [f])[j] == trace[j];
      }
    }
  }

  lemma OrderPreserved(s: State, step: Step, s': State)
    requires Inv(s) && Ordered(s.trace) && Next(s, step, s')
    ensures Ordered(s'.trace)
  {
    TraceStep(s, step, s');
    if Emitted(step).Emit? {
      forall i: nat | i < |s.trace| ensures MayFollow(s.trace[i], Emitted(step).event) {
        PastCounts(s, i);
        EventInTime(s, step, s.trace[i]);
      }
      OrderExtends(s.trace, Emitted(step).event);
    }
  }

  /** Teardown safety over whole runs: in the trace of every run, nothing follows an
      event that must not, so no libssh2 call comes after the session is freed, no call
      on a channel after that channel is freed, and no join, start or accept too late. */
  lemma {:induction false} RunsAreOrdered(states: seq<State>, steps: seq<Step>, k: nat)
    requires IsRun(states, steps) && k < |states|
    ensures Ordered(states[k].trace)
  {
    if k > 0 {
      RunsAreOrdered(states, steps, k - 1);
      RunsKeepInv(states, steps, k - 1);
      OrderPreserved(states[k - 1], steps[k - 1], states[k]);
    }
  }

  // -------------------------------------------------------- after Close

  /** What holds once a Close has returned. */
  ghost predicate Closed(s: State) {
    && !s.running && AcceptorGone(s) && AllExited(s)
    && s.registered == [] && !s.listener && !s.session && !s.sshSocket
    && (forall w: nat :: Count(s, Joined(w)) == Count(s, Started(w)) == if w < |s.workers| then 1 else 0)
    && (forall c: nat :: Count(s, Lib(ChannelFree(c))) == if c < s.accepted then 1 else 0)
    && (forall w: nat :: Count(s, LocalClosed(w)) == Count(s, LocalOpened(w)) <= 1)
    && Count(s, Lib(SessionFree)) == (if s.hadSession then 1 else 0)
    && (s.hadSession ==> Count(s, SshSocketClosed) == 1)
    && (s.hadListener ==> Count(s, Lib(ForwardCancel)) > 0)
    && Count(s, AcceptorJoined) == (if s.accept.NotStarted? then 0 else 1)
  }

  lemma CloseLeavesNothing(s: State)
    requires Inv(s) && s.closes > 0 && s.closer == Idle
    ensures Closed(s)
  {
    forall w: nat ensures Count(s, Joined(w)) == Count(s, Started(w)) == if w < |s.workers| then 1 else 0 {
      assert Keepers(s)[w] == 0;
      assert Keepers(s)[w] + Count(s, Joined(w)) == if w < |s.workers| then 1 else 0;
    }
    forall c: nat ensures Count(s, Lib(ChannelFree(c))) == if c < s.accepted then 1 else 0 {
      assert Count(s, Lib(ChannelFree(c))) == if c < |s.workers| && Freed(s.workers[c].pc) then 1 else 0;
    }
    forall w: nat ensures Count(s, LocalClosed(w)) == Count(s, LocalOpened(w)) <= 1 {
      assert Count(s, LocalOpened(w)) ==
             Count(s, LocalClosed(w)) + (if w < |s.workers| && SocketOpen(s.workers[w].pc) then 1 else 0);
    }
  }

  /** In every run, when Close returns, no thread runs; every worker ever started was
      joined exactly once, every accepted channel freed exactly once, every local socket
      closed as often as it was opened, and the session freed exactly once. */
  lemma ClosedRunsLeaveNothing(states: seq<State>, steps: seq<Step>, i: nat)
    requires IsRun(states, steps) && i < |states| && states[i].closes > 0 && states[i].closer == Idle
    ensures Closed(states[i])
  {
    RunsKeepInv(states, steps, i);
    CloseLeavesNothing(states[i]);
  }

  /** A second Close does nothing: none of its steps emits an event or changes anything
      but its own program counter, the lock it passes through and the count of closes. */
  lemma SecondCloseDoesNothing(states: seq<State>, steps: seq<Step>, i: nat)
    requires IsRun(states, steps) && i < |steps| && states[i].closes > 0 && steps[i].CloserMoves?
    ensures !steps[i].a.Emit?
    ensures states[i + 1] == states[i].(
              closer := steps[i].cpc, owner := states[i + 1].owner, closes := states[i + 1].closes)
  {
    RunsKeepInv(states, steps, i);
    assert Next(states[i], steps[i], states[i + 1]);
    assert states[i].closer.JoinWorkers? ==> states[i].closer.pending == [];
  }
}
