/** What the SSH export engine does for its users while it runs, and says before it goes:
    finished workers are reaped, the acceptor stays, channels are closed as well as freed,
    and any number of channels can be served at once. */
module SshExportService {
  import opened SshExportModel
  import opened SshExportInvariant

  // ---------------------------------------------------------------- reaping

  predicate Reaping(pc: AcceptPc) {
    pc.ReapLock? || pc.ReapScan? || pc.ReapJoin?
  }

  /** The workers this reaping pass has taken, or has still to look at. */
  function Ahead(s: State): seq<nat> {
    match s.accept
    case ReapLock(_) => s.registered
    case ReapScan(_, i, fin) => if i <= |s.registered| then fin + s.registered[i..] else fin
    case ReapJoin(_, fin) => fin
    case _ => []
  }

  ghost predicate WillBeJoined(s: State, w: nat) {
    Count(s, Joined(w)) > 0 || w in Ahead(s)
  }

  lemma ScanKeeps(s: State, a: Action, pc': AcceptPc, s': State, w: nat)
    requires Next(s, AcceptorMoves(a, pc'), s') && s.accept.ReapScan? && s.accept.i <= |s.registered|
    requires w < |s.workers| && Done(s.workers[w].pc) && w in Ahead(s)
    ensures w in Ahead(s')
  {
    var i, fin, r := s.accept.i, s.accept.finished, s.registered;
    if i == |r| {
      assert r[i..] == [];
    } else {
      assert r[i..] == [r[i]] + r[i + 1..];
      var r' := r[..i] + r[i + 1..];
      assert r'[i..] == r[i + 1..];
    }
  }

  lemma JoinKeeps(s: State, a: Action, pc': AcceptPc, s': State, w: nat)
    requires Next(s, AcceptorMoves(a, pc'), s') && s.accept.ReapJoin? && w in Ahead(s)
    ensures WillBeJoined(s', w)
  {
    CountStep(s, AcceptorMoves(a, pc'), s', Joined(w));
    var fin := s.accept.finished;
    assert fin == [fin[0]] + fin[1..];
  }

  lemma ReaperKeeps(s: State, a: Action, pc': AcceptPc, s': State, w: nat)
    requires ScanInRange(s) && Next(s, AcceptorMoves(a, pc'), s') && Reaping(s.accept)
    requires w < |s.workers| && Done(s.workers[w].pc) && w in Ahead(s)
    ensures WillBeJoined(s', w)
  {
    if s.accept.ReapScan? {
      ScanKeeps(s, a, pc', s', w);
    } else if s.accept.ReapJoin? {
      JoinKeeps(s, a, pc', s', w);
    } else {
      assert s.registered[0..] == s.registered;
    }
  }

  /** Nobody but the acceptor touches workers_ while it reaps. */
  lemma OthersLeaveAhead(s: State, step: Step, s': State)
    requires Inv(s) && Next(s, step, s') && Reaping(s.accept) && !step.AcceptorMoves?
    ensures Ahead(s') == Ahead(s)
  {
    assert !Reached(s, 2);
    assert s'.accept == s.accept && s'.registered == s.registered;
  }

  lemma ReapStep(s: State, step: Step, s': State, w: nat)
    requires Inv(s) && Next(s, step, s') && Reaping(s.accept)
    requires w < |s.workers| && Done(s.workers[w].pc) && WillBeJoined(s, w)
    ensures w < |s'.workers| && Done(s'.workers[w].pc) && WillBeJoined(s', w)
  {
    WorkersPersist(s, step, s');
    CountStep(s, step, s', Joined(w));
    if Count(s, Joined(w)) == 0 {
      if step.AcceptorMoves? {
        ReaperKeeps(s, step.a, step.apc, s', w);
      } else {
        OthersLeaveAhead(s, step, s');
      }
    }
  }

  /** When the acceptor begins to reap, whoever was started and not joined is in workers_. */
  lemma AllAreAhead(s: State, w: nat)
    requires Inv(s) && s.accept.ReapLock? && w < |s.workers|
    ensures WillBeJoined(s, w)
  {
    assert !Reached(s, 2) && CloseKeeps(s.closer) == [];
    assert Keepers(s)[w] + Count(s, Joined(w)) == 1;
  }

  lemma {:induction false} ReapsOn(states: seq<State>, steps: seq<Step>, i: nat, k: nat, w: nat)
    requires IsRun(states, steps) && i <= k < |states| && states[i].accept.ReapLock?
    requires forall j :: i <= j < k ==> Reaping(states[j].accept)
    requires w < |states[i].workers| && Done(states[i].workers[w].pc)
    ensures w < |states[k].workers| && Done(states[k].workers[w].pc) && WillBeJoined(states[k], w)
  {
    if i == k {
      RunsKeepInv(states, steps, i);
      AllAreAhead(states[i], w);
    } else {
      var j := k - 1;
      ReapsOn(states, steps, i, j, w);
      RunsKeepInv(states, steps, j);
      assert Next(states[j], steps[j], states[j + 1]);
      ReapStep(states[j], steps[j], states[k], w);
    }
  }

  /** Finished workers do not pile up: every worker whose done flag was set when the
      acceptor turned to reaping has been joined, exactly once, before the next worker is
      started. */
  lemma DoneAreJoinedBeforeSpawn(states: seq<State>, steps: seq<Step>, i: nat, k: nat, w: nat)
    requires IsRun(states, steps) && i <= k < |states| && states[i].accept.ReapLock? && states[k].accept.Spawn?
    requires forall j :: i <= j < k ==> Reaping(states[j].accept)
    requires w < |states[i].workers| && Done(states[i].workers[w].pc)
    ensures Count(states[k], Joined(w)) == 1
  {
    ReapsOn(states, steps, i, k, w);
    RunsKeepInv(states, steps, k);
    assert Keepers(states[k])[w] + Count(states[k], Joined(w)) == 1;
  }

  // --------------------------------------------------------------- acceptor

  /** The acceptor never finds the listener gone, and leaves only a stopped engine. */
  ghost predicate Staying(s: State) {
    !s.accept.BreakUnlock? && (AcceptorGone(s) ==> !s.running)
  }

  lemma AcceptorStays(s: State, a: Action, pc': AcceptPc, s': State)
    requires Inv(s) && Staying(s) && Next(s, AcceptorMoves(a, pc'), s')
    ensures Staying(s')
  {
    assert !Reached(s, 2) && s.listener;
  }

  lemma StayingStep(s: State, step: Step, s': State)
    requires Inv(s) && Staying(s) && Next(s, step, s')
    ensures Staying(s')
  {
    if step.AcceptorMoves? {
      AcceptorStays(s, step.a, step.apc, s');
    } else {
      assert s'.accept == s.accept && (s'.running ==> s.running);
    }
  }

  /** In every run, as long as the engine runs its acceptor is there to accept: it has
      started and has not returned, and its listener is up. */
  lemma {:induction false} RunningMeansAccepting(states: seq<State>, steps: seq<Step>, k: nat)
    requires IsRun(states, steps) && k < |states|
    ensures Staying(states[k])
    ensures states[k].running ==> !AcceptorGone(states[k]) && states[k].listener
  {
    RunsKeepInv(states, steps, k);
    if k > 0 {
      var i := k - 1;
      RunningMeansAccepting(states, steps, i);
      RunsKeepInv(states, steps, i);
      assert Next(states[i], steps[i], states[i + 1]);
      StayingStep(states[i], steps[i], states[k]);
    }
  }

  predicate GivingUp(pc: AcceptPc) {
    pc == Dispatch(DeadTransport) || pc.ErrorLock? || pc.ErrorRecord? || pc.StopRunning? || pc.AcceptExited?
  }

  lemma AcceptorGivesUp(s: State, a: Action, pc': AcceptPc)
    requires AcceptStep(s, a, pc') && GivingUp(s.accept)
    ensures GivingUp(pc')
  {
  }

  lemma OnlyAcceptorMovesItself(s: State, step: Step, s': State)
    requires Next(s, step, s')
    ensures s'.accept == if step.AcceptorMoves? then step.apc else s.accept
  {
  }

  lemma GivingUpStep(s: State, step: Step, s': State)
    requires Next(s, step, s') && GivingUp(s.accept)
    ensures GivingUp(s'.accept)
  {
    OnlyAcceptorMovesItself(s, step, s');
    if step.AcceptorMoves? {
      AcceptorGivesUp(s, step.a, step.apc);
    }
  }

  /** A dead transport ends the engine: an acceptor that was told of one accepts nothing more,
      and when it has returned the engine is stopped. */
  lemma {:induction false} DeadTransportStops(states: seq<State>, steps: seq<Step>, i: nat, k: nat)
    requires IsRun(states, steps) && i <= k < |states| && states[i].accept == Dispatch(DeadTransport)
    ensures GivingUp(states[k].accept) && (states[k].accept.AcceptExited? ==> !states[k].running)
  {
    RunningMeansAccepting(states, steps, k);
    if i < k {
      var j := k - 1;
      DeadTransportStops(states, steps, i, j);
      assert Next(states[j], steps[j], states[j + 1]);
      GivingUpStep(states[j], steps[j], states[k]);
    }
  }

  // ---------------------------------------------------- calls that must be made

  /** Channel w is closed at the peer, by its worker, in the step before it is freed. */
  predicate SaidClose(pc: WorkerPc) {
    pc.FreeChannel? || Freed(pc)
  }

  ghost predicate ClosesMatch(s: State) {
    forall w: nat ::
      Count(s, Lib(ChannelClose(w))) == if w < |s.workers| && SaidClose(s.workers[w].pc) then 1 else 0
  }

  predicate ClosesChannel(a: Action) {
    a.Emit? && a.event.Lib? && a.event.call.ChannelClose?
  }

  lemma PumpDoesNotClose(running: bool, w: nat, c: nat, pc: WorkerPc, a: Action, pc': WorkerPc)
    requires WorkerStep(running, w, c, pc, a, pc') && Pumping(pc)
    ensures !ClosesChannel(a) && !SaidClose(pc) && !SaidClose(pc')
  {
  }

  lemma WorkerCloses(running: bool, w: nat, c: nat, pc: WorkerPc, a: Action, pc': WorkerPc)
    requires WorkerStep(running, w, c, pc, a, pc')
    ensures SaidClose(pc') <==> SaidClose(pc) || a == Emit(Lib(ChannelClose(c)))
    ensures ClosesChannel(a) ==> a.event.call.chan == c && !SaidClose(pc)
  {
    if Pumping(pc) {
      PumpDoesNotClose(running, w, c, pc, a, pc');
    }
  }

  /** No other thread closes a channel. */
  lemma OnlyWorkersClose(s: State, step: Step, v: nat)
    requires ChannelsServed(s) && CanStep(s, step)
    ensures Emitted(step) == Emit(Lib(ChannelClose(v))) ==> step.WorkerMoves? && step.w == v
  {
    match step
    case AcceptorMoves(a, pc') => AcceptEmits(s, a, pc');
    case CloserMoves(a, pc') => CloseEmits(s, a, pc');
    case WorkerMoves(w, a, pc') => WorkerCloses(s.running, w, s.workers[w].chan, s.workers[w].pc, a, pc');
    case _ =>
  }

  lemma CloseCallStep(s: State, step: Step, s': State, v: nat)
    requires ChannelsServed(s) && ClosesMatch(s) && Next(s, step, s')
    ensures Count(s', Lib(ChannelClose(v))) == if v < |s'.workers| && SaidClose(s'.workers[v].pc) then 1 else 0
  {
    WorkersPersist(s, step, s');
    WorkersAfter(s, step, s');
    CountStep(s, step, s', Lib(ChannelClose(v)));
    OnlyWorkersClose(s, step, v);
    if step.WorkerMoves? {
      WorkerCloses(s.running, step.w, s.workers[step.w].chan, s.workers[step.w].pc, step.a, step.wpc);
    }
    assert Count(s, Lib(ChannelClose(v))) == if v < |s.workers| && SaidClose(s.workers[v].pc) then 1 else 0;
  }

  /** How many of its three farewell calls Close has passed. */
  function Farewells(pc: ClosePc): nat {
    match pc
    case BoundTimeout => 1
    case SayGoodbye => 2
    case FreeSession | ClearSession | CloseSsh | TeardownUnlock | StatusLock | StatusWrite => 3
    case _ => 0
  }

  ghost predicate Farewelled(s: State, n: nat) {
    s.hadSession && (s.closes > 0 || Farewells(s.closer) >= n)
  }

  /** The session is made blocking, then given a time limit, then told goodbye, once each. */
  ghost predicate FarewellsMatch(s: State) {
    && Count(s, Lib(SetBlocking)) == (if Farewelled(s, 1) then 1 else 0)
    && Count(s, Lib(SetTimeout)) == (if Farewelled(s, 2) then 1 else 0)
    && Count(s, Lib(Disconnect)) == (if Farewelled(s, 3) then 1 else 0)
  }

  predicate IsFarewell(call: Call) {
    call.SetBlocking? || call.SetTimeout? || call.Disconnect?
  }

  lemma OnlyCloserSaysFarewell(s: State, step: Step)
    requires CanStep(s, step) && !step.CloserMoves?
    ensures Emitted(step).Emit? && Emitted(step).event.Lib? ==> !IsFarewell(Emitted(step).event.call)
  {
    match step
    case AcceptorMoves(a, pc') => AcceptEmits(s, a, pc');
    case WorkerMoves(w, a, pc') => WorkerEmits(s.running, w, s.workers[w].chan, s.workers[w].pc, a, pc');
    case _ =>
  }

  lemma CloserFarewells(s: State, a: Action, pc': ClosePc, n: nat, call: Call)
    requires CloseStep(s, a, pc') && 1 <= n <= 3 && call == [SetBlocking, SetTimeout, Disconnect][n - 1]
    ensures a == Emit(Lib(call)) ==> Farewells(s.closer) == n - 1 && Farewells(pc') == n
    ensures a == Emit(Lib(call)) ==> s.closer.MakeBlocking? || s.closer.BoundTimeout? || s.closer.SayGoodbye?
    ensures s.session && Farewells(s.closer) < n <= Farewells(pc') ==> a == Emit(Lib(call))
    ensures Farewells(pc') < n <= Farewells(s.closer) ==> s.closer.StatusWrite?
  {
  }

  lemma SessionAtFarewell(s: State, a: Action, pc': ClosePc, n: nat)
    requires SessionMatches(s) && ResourceStages(s) && CloseStep(s, a, pc') && 1 <= n <= 3
    ensures s.closes == 0 && Farewells(s.closer) < n <= Farewells(pc') ==> s.session == s.hadSession
    ensures s.closer.MakeBlocking? || s.closer.BoundTimeout? || s.closer.SayGoodbye? ==> s.closes == 0 && s.hadSession
  {
  }

  lemma CloserFarewellStep(s: State, a: Action, pc': ClosePc, s': State, n: nat, call: Call)
    requires SessionMatches(s) && ResourceStages(s) && Next(s, CloserMoves(a, pc'), s')
    requires 1 <= n <= 3 && call == [SetBlocking, SetTimeout, Disconnect][n - 1]
    requires Count(s, Lib(call)) == if Farewelled(s, n) then 1 else 0
    ensures Count(s', Lib(call)) == if Farewelled(s', n) then 1 else 0
  {
    CountStep(s, CloserMoves(a, pc'), s', Lib(call));
    CloserFarewells(s, a, pc', n, call);
    SessionAtFarewell(s, a, pc', n);
    assert s'.hadSession == s.hadSession && s'.closer == pc';
    assert s'.closes == if s.closer.StatusWrite? then s.closes + 1 else s.closes;
  }

  lemma FarewellStep(s: State, step: Step, s': State, n: nat, call: Call)
    requires SessionMatches(s) && ResourceStages(s) && Next(s, step, s')
    requires 1 <= n <= 3 && call == [SetBlocking, SetTimeout, Disconnect][n - 1]
    requires Count(s, Lib(call)) == if Farewelled(s, n) then 1 else 0
    ensures Count(s', Lib(call)) == if Farewelled(s', n) then 1 else 0
  {
    if step.CloserMoves? {
      CloserFarewellStep(s, step.a, step.cpc, s', n, call);
    } else {
      CountStep(s, step, s', Lib(call));
      OnlyCloserSaysFarewell(s, step);
      OthersKeepResources(s, step, s');
    }
  }

  lemma FarewellsPreserved(s: State, step: Step, s': State)
    requires SessionMatches(s) && ResourceStages(s) && FarewellsMatch(s) && Next(s, step, s')
    ensures FarewellsMatch(s')
  {
    FarewellStep(s, step, s', 1, SetBlocking);
    FarewellStep(s, step, s', 2, SetTimeout);
    FarewellStep(s, step, s', 3, Disconnect);
  }

  /** Each look at the accept queue is followed by one keepalive, under the same lock. */
  ghost predicate KeepalivesMatch(s: State) {
    Count(s, Lib(ForwardAccept)) ==
    Count(s, Lib(KeepaliveSend)) + if s.accept.AcceptErrno? || s.accept.Keepalive? then 1 else 0
  }

  lemma OnlyAcceptorAccepts(s: State, step: Step)
    requires CanStep(s, step) && !step.AcceptorMoves?
    ensures Emitted(step) != Emit(Lib(ForwardAccept)) && Emitted(step) != Emit(Lib(KeepaliveSend))
  {
    match step
    case CloserMoves(a, pc') => CloseEmits(s, a, pc');
    case WorkerMoves(w, a, pc') => WorkerEmits(s.running, w, s.workers[w].chan, s.workers[w].pc, a, pc');
    case _ =>
  }

  lemma KeepaliveStep(s: State, step: Step, s': State)
    requires KeepalivesMatch(s) && Next(s, step, s')
    ensures KeepalivesMatch(s')
  {
    CountStep(s, step, s', Lib(ForwardAccept));
    CountStep(s, step, s', Lib(KeepaliveSend));
    if step.AcceptorMoves? {
      assert s'.accept == step.apc;
    } else {
      OnlyAcceptorAccepts(s, step);
      assert s'.accept == s.accept;
    }
  }

  /** The cancel of the listener is tried again a bounded number of times. */
  ghost predicate CancelsBounded(s: State) {
    && Count(s, Lib(ForwardCancel)) <= CANCEL_RETRIES + 1
    && (s.closer.Cancel? ==> Count(s, Lib(ForwardCancel)) + s.closer.retries <= CANCEL_RETRIES)
  }

  lemma CloserCancels(s: State, a: Action, pc': ClosePc, s': State)
    requires ListenerMatches(s) && ResourceStages(s) && CancelsBounded(s) && Next(s, CloserMoves(a, pc'), s')
    ensures CancelsBounded(s')
  {
    CountStep(s, CloserMoves(a, pc'), s', Lib(ForwardCancel));
    assert s'.closer == pc';
  }

  lemma CancelStep(s: State, step: Step, s': State)
    requires ListenerMatches(s) && ResourceStages(s) && CancelsBounded(s) && Next(s, step, s')
    ensures CancelsBounded(s')
  {
    if step.CloserMoves? {
      CloserCancels(s, step.a, step.cpc, s');
    } else {
      CountStep(s, step, s', Lib(ForwardCancel));
      OnlyCloserReleases(s, step);
      OthersKeepResources(s, step, s');
    }
  }

  ghost predicate CallsMatch(s: State) {
    ClosesMatch(s) && FarewellsMatch(s) && KeepalivesMatch(s) && CancelsBounded(s)
  }

  lemma CallsPreserved(s: State, step: Step, s': State)
    requires Inv(s) && CallsMatch(s) && Next(s, step, s')
    ensures CallsMatch(s')
  {
    forall v: nat
      ensures Count(s', Lib(ChannelClose(v))) == if v < |s'.workers| && SaidClose(s'.workers[v].pc) then 1 else 0
    {
      CloseCallStep(s, step, s', v);
    }
    FarewellsPreserved(s, step, s');
    KeepaliveStep(s, step, s');
    CancelStep(s, step, s');
  }

  /** In every run: each freed channel was closed at the peer before, the disconnect is made
      only on a blocking session with a time limit, no look at the accept queue goes without
      its keepalive, and the listener's cancel is tried no more than 201 times. */
  lemma {:induction false} RunsMakeTheirCalls(states: seq<State>, steps: seq<Step>, k: nat)
    requires IsRun(states, steps) && k < |states|
    ensures CallsMatch(states[k])
  {
    if k > 0 {
      var i := k - 1;
      RunsMakeTheirCalls(states, steps, i);
      RunsKeepInv(states, steps, i);
      assert Next(states[i], steps[i], states[i + 1]);
      CallsPreserved(states[i], steps[i], states[k]);
    }
  }

  /** So when Close has returned, every accepted channel was closed exactly once and the
      session taken leave of in full, exactly once. */
  lemma ClosedRunsSaidGoodbye(states: seq<State>, steps: seq<Step>, i: nat)
    requires IsRun(states, steps) && i < |states| && states[i].closes > 0 && states[i].closer == Idle
    ensures var s := states[i];
            && (forall c: nat :: Count(s, Lib(ChannelClose(c))) == if c < s.accepted then 1 else 0)
            && Count(s, Lib(SetBlocking)) == Count(s, Lib(SetTimeout)) == Count(s, Lib(Disconnect))
            && Count(s, Lib(Disconnect)) == (if s.hadSession then 1 else 0)
            && Count(s, Lib(ForwardAccept)) == Count(s, Lib(KeepaliveSend))
  {
    RunsKeepInv(states, steps, i);
    RunsMakeTheirCalls(states, steps, i);
    var s := states[i];
    assert AcceptorGone(s) && AllExited(s) && s.accepted == |s.workers|;
    forall c: nat ensures Count(s, Lib(ChannelClose(c))) == if c < s.accepted then 1 else 0 {
      assert Count(s, Lib(ChannelClose(c))) == if c < |s.workers| && SaidClose(s.workers[c].pc) then 1 else 0;
    }
  }

  // ----------------------------------------------------------------- service

  ghost predicate Reachable(s: State) {
    exists states, steps :: IsRun(states, steps) && states[|steps|] == s
  }

  lemma Reaches(s: State, step: Step)
    requires Reachable(s) && CanStep(s, step)
    ensures Reachable(After(s, step))
  {
    var states, steps :| IsRun(states, steps) && states[|steps|] == s;
    var states', steps' := states + [After(s, step)], steps + [step];
    forall k | 0 <= k < |steps'| ensures Next(states'[k], steps'[k], states'[k + 1]) {
      if k < |steps| {
        assert Next(states[k], steps[k], states[k + 1]);
      }
    }
    assert IsRun(states', steps');
  }

  lemma AcceptorGoes(s: State, a: Action, pc': AcceptPc) returns (s': State)
    requires Reachable(s) && Enabled(s, a) && AcceptStep(s, a, pc')
    ensures Reachable(s') && s' == AfterAcceptor(s, a, pc')
  {
    Reaches(s, AcceptorMoves(a, pc'));
    s' := AfterAcceptor(s, a, pc');
  }

  lemma WorkerGoes(s: State, w: nat, a: Action, pc': WorkerPc) returns (s': State)
    requires Reachable(s) && w < |s.workers| && s.workers[w].chan == w && Enabled(s, a)
    requires WorkerStep(s.running, w, w, s.workers[w].pc, a, pc')
    ensures Reachable(s')
    ensures s' == s.(workers := s.workers[w := WorkerThread(pc', w)],
                     owner := OwnerAfter(s.owner, Worker(w), a), trace := TraceAfter(s.trace, a))
  {
    Reaches(s, WorkerMoves(w, a, pc'));
    s' := AfterWorker(s, w, a, pc');
  }

  /** n workers are in their pump loops, the acceptor is at `pc`, and nobody has a lock. */
  ghost predicate Serving(s: State, n: nat, pc: AcceptPc) {
    && s.running && s.listener && s.owner == map[] && s.accept == pc
    && |s.workers| == |s.registered| == n
    && (forall w :: 0 <= w < n ==> s.workers[w] == WorkerThread(LoopTop, w) && s.registered[w] == w)
  }

  lemma Wakes(s: State) returns (s': State)
    requires Reachable(s) && s.running && s.accept == AcceptTop
    ensures Reachable(s') && s' == s.(accept := SessionLock)
  {
    s' := AcceptorGoes(s, Tau, AcceptSelect);
    s' := AcceptorGoes(s', Tau, AcceptRecheck);
    s' := AcceptorGoes(s', Tau, SessionLock);
  }

  lemma Accepts(s: State, n: nat) returns (s': State)
    requires Reachable(s) && s.listener && s.owner == map[] && s.accept == SessionLock && s.accepted == n
    ensures Reachable(s') && s' == s.(accept := Dispatch(Channel(n)), accepted := n + 1, trace := s'.trace)
  {
    s' := AcceptorGoes(s, Acquire(SessionMu), TestListener);
    s' := AcceptorGoes(s', Emit(Lib(ForwardAccept)), Keepalive(Channel(n)));
    s' := AcceptorGoes(s', Emit(Lib(KeepaliveSend)), SessionUnlock(Channel(n)));
    s' := AcceptorGoes(s', Release(SessionMu), Dispatch(Channel(n)));
    assert s'.owner == map[];
  }

  lemma TakesChannel(s: State, n: nat) returns (s': State)
    requires Reachable(s) && Serving(s, n, AcceptTop) && s.accepted == n
    ensures Reachable(s') && Serving(s', n, ReapLock(n)) && s'.accepted == n + 1
  {
    s' := Wakes(s);
    s' := Accepts(s', n);
    s' := AcceptorGoes(s', Tau, ReapLock(n));
  }

  /** The reaper passes over workers that are busy. */
  lemma {:induction false} ScansPast(s: State, n: nat, i: nat) returns (s': State)
    requires Reachable(s) && s.owner == map[WorkersMu := Acceptor]
    requires Serving(s.(owner := map[]), n, ReapScan(n, i, [])) && i <= n
    ensures Reachable(s') && s' == s.(accept := ReapScan(n, n, []))
    decreases n - i
  {
    s' := s;
    if i < n {
      s' := AcceptorGoes(s, Tau, ReapScan(n, i + 1, []));
      s' := ScansPast(s', n, i + 1);
    }
  }

  lemma Scans(s: State, n: nat) returns (s': State)
    requires Reachable(s) && Serving(s, n, ReapLock(n))
    ensures Reachable(s') && s' == s.(accept := ReapScan(n, n, []), owner := map[WorkersMu := Acceptor])
  {
    s' := AcceptorGoes(s, Acquire(WorkersMu), ReapScan(n, 0, []));
    s' := ScansPast(s', n, 0);
  }

  lemma Reaps(s: State, n: nat) returns (s': State)
    requires Reachable(s) && Serving(s, n, ReapLock(n))
    ensures Reachable(s') && s' == s.(accept := Spawn(n))
  {
    s' := Scans(s, n);
    s' := AcceptorGoes(s', Release(WorkersMu), ReapJoin(n, []));
    assert s'.owner == map[];
    s' := AcceptorGoes(s', Tau, Spawn(n));
  }

  lemma Spawns(s: State, n: nat) returns (s': State)
    requires Reachable(s) && Serving(s, n, Spawn(n))
    ensures Reachable(s') && s'.running && s'.listener && s'.owner == map[] && s'.accept == AcceptTop
    ensures s'.accepted == s.accepted
    ensures s'.workers == s.workers + [WorkerThread(DialLock, n)] && s'.registered == s.registered + [n]
  {
    s' := AcceptorGoes(s, Emit(Started(n)), PushLock(n));
    s' := AcceptorGoes(s', Acquire(WorkersMu), Push(n));
    s' := AcceptorGoes(s', Tau, PushUnlock);
    s' := AcceptorGoes(s', Release(WorkersMu), AcceptTop);
    assert s'.owner == map[];
  }

  lemma Dials(s: State, w: nat) returns (s': State)
    requires Reachable(s) && s.owner == map[] && w < |s.workers| && s.workers[w] == WorkerThread(DialLock, w)
    ensures Reachable(s') && s' == s.(workers := s.workers[w := WorkerThread(LoopTop, w)], trace := s'.trace)
  {
    s' := WorkerGoes(s, w, Acquire(Mu), DialRead);
    s' := WorkerGoes(s', w, Release(Mu), Dialing);
    assert s'.owner == map[];
    s' := WorkerGoes(s', w, Emit(LocalOpened(w)), LoopTop);
  }

  lemma Starts() returns (s: State)
    ensures Reachable(s) && Serving(s, 0, AcceptTop) && s.accepted == 0
  {
    s := State(true, map[], AcceptTop, true, Idle, false, [], [], 0, true, true, true, true, true, 0, []);
    assert IsRun([s], []) && [s][0] == s;
  }

  lemma ServesOneMore(s: State, n: nat) returns (s': State)
    requires Reachable(s) && Serving(s, n, AcceptTop) && s.accepted == n
    ensures Reachable(s') && Serving(s', n + 1, AcceptTop) && s'.accepted == n + 1
  {
    s' := TakesChannel(s, n);
    s' := Reaps(s', n);
    s' := Spawns(s', n);
    s' := Dials(s', n);
  }

  /** Any number of channels can be open at once: for every n some run of the engine comes
      to a state in which n workers are pumping and the acceptor waits for more. */
  lemma {:induction false} ServesAnyNumber(n: nat) returns (s: State)
    ensures Reachable(s) && Serving(s, n, AcceptTop) && s.accepted == n
  {
    if n == 0 {
      s := Starts();
    } else {
      s := ServesAnyNumber(n - 1);
      s := ServesOneMore(s, n - 1);
    }
  }

  ghost function At(s: State, w: nat, pc: WorkerPc): seq<WorkerThread>
    requires w < |s.workers|
  {
    s.workers[w := WorkerThread(pc, w)]
  }

  lemma WorkerGoesOn(s: State, w: nat, pc': WorkerPc) returns (s': State)
    requires Reachable(s) && w < |s.workers| && s.workers[w].chan == w
    requires WorkerStep(s.running, w, w, s.workers[w].pc, Tau, pc')
    ensures Reachable(s') && s' == s.(workers := At(s, w, pc'))
  {
    s' := WorkerGoes(s, w, Tau, pc');
  }

  lemma WorkerLocks(s: State, w: nat, pc': WorkerPc) returns (s': State)
    requires Reachable(s) && w < |s.workers| && s.workers[w].chan == w && s.owner == map[]
    requires WorkerStep(s.running, w, w, s.workers[w].pc, Acquire(SessionMu), pc')
    ensures Reachable(s') && s' == s.(workers := At(s, w, pc'), owner := map[SessionMu := Worker(w)])
  {
    s' := WorkerGoes(s, w, Acquire(SessionMu), pc');
  }

  lemma WorkerUnlocks(s: State, w: nat, pc': WorkerPc) returns (s': State)
    requires Reachable(s) && w < |s.workers| && s.workers[w].chan == w && s.owner == map[SessionMu := Worker(w)]
    requires WorkerStep(s.running, w, w, s.workers[w].pc, Release(SessionMu), pc')
    ensures Reachable(s') && s' == s.(workers := At(s, w, pc'), owner := map[])
  {
    s' := WorkerGoes(s, w, Release(SessionMu), pc');
    assert s'.owner == map[];
  }

  lemma Receives(s: State, w: nat, rem: nat) returns (s': State)
    requires Reachable(s) && s.running && w < |s.workers|
    requires s.workers[w] == WorkerThread(LoopTop, w) && 0 < rem <= 16384
    ensures Reachable(s') && s' == s.(workers := At(s, w, WriteLock(rem)))
  {
    s' := WorkerGoesOn(s, w, SelectRecv);
    s' := WorkerGoesOn(s', w, Writing(rem));
    s' := WorkerGoesOn(s', w, WriteLock(rem));
  }

  lemma Writes(s: State, w: nat, rem: nat) returns (s': State)
    requires Reachable(s) && s.owner == map[] && w < |s.workers|
    requires s.workers[w] == WorkerThread(WriteLock(rem), w)
    ensures Reachable(s')
    ensures s' == s.(workers := At(s, w, ReadLock), trace := s.trace + [Lib(ChannelWrite(w))])
  {
    s' := WorkerLocks(s, w, WriteCall(rem));
    s' := WorkerGoes(s', w, Emit(Lib(ChannelWrite(w))), WriteUnlock(0, false));
    s' := WorkerUnlocks(s', w, Writing(0));
    s' := WorkerGoesOn(s', w, ReadLock);
  }

  lemma Reads(s: State, w: nat, m: nat) returns (s': State)
    requires Reachable(s) && s.owner == map[] && w < |s.workers|
    requires s.workers[w] == WorkerThread(ReadLock, w) && 0 < m <= 16384
    ensures Reachable(s')
    ensures s' == s.(workers := At(s, w, AfterRead(Data(m))), trace := s.trace + [Lib(ChannelRead(w))])
  {
    s' := WorkerLocks(s, w, ReadCall);
    s' := WorkerGoes(s', w, Emit(Lib(ChannelRead(w))), ReadUnlock(Data(m)));
    s' := WorkerUnlocks(s', w, AfterRead(Data(m)));
  }

  lemma Sends(s: State, w: nat, m: nat) returns (s': State)
    requires Reachable(s) && s.running && w < |s.workers|
    requires s.workers[w] == WorkerThread(AfterRead(Data(m)), w) && m > 0
    ensures Reachable(s') && s' == s.(workers := At(s, w, LoopTop))
  {
    s' := WorkerGoesOn(s, w, Sending(m));
    s' := WorkerGoesOn(s', w, Sending(0));
    s' := WorkerGoesOn(s', w, LoopTop);
  }

  /** And each of them can relay: worker w writes a chunk of any size to its channel, reads
      one of any size from it, and is back in its loop, with nothing else changed. */
  lemma RelaysBothWays(s: State, n: nat, w: nat, out: nat, got: nat) returns (s': State)
    requires Reachable(s) && Serving(s, n, AcceptTop) && w < n && 0 < out <= 16384 && 0 < got <= 16384
    ensures Reachable(s') && s' == s.(trace := s.trace + [Lib(ChannelWrite(w)), Lib(ChannelRead(w))])
  {
    s' := Receives(s, w, out);
    s' := Writes(s', w, out);
    s' := Reads(s', w, got);
    s' := Sends(s', w, got);
    assert s'.workers == s.workers;
    assert s'.trace == s.trace + [Lib(ChannelWrite(w)), Lib(ChannelRead(w))];
  }

  lemma SeesEof(s: State, w: nat) returns (s': State)
    requires Reachable(s) && s.running && w < |s.workers| && s.workers[w] == WorkerThread(LoopTop, w)
    ensures Reachable(s') && s' == s.(workers := At(s, w, EofLock))
  {
    s' := WorkerGoesOn(s, w, SelectRecv);
    s' := WorkerGoesOn(s', w, EofLock);
  }

  lemma SendsEof(s: State, w: nat) returns (s': State)
    requires Reachable(s) && s.owner == map[] && w < |s.workers| && s.workers[w] == WorkerThread(EofLock, w)
    ensures Reachable(s')
    ensures s' == s.(workers := At(s, w, CloseLocal), trace := s.trace + [Lib(ChannelSendEof(w))])
  {
    s' := WorkerLocks(s, w, EofSend);
    s' := WorkerGoes(s', w, Emit(Lib(ChannelSendEof(w))), EofUnlock);
    s' := WorkerUnlocks(s', w, CloseLocal);
  }

  lemma Closes(s: State, w: nat) returns (s': State)
    requires Reachable(s) && s.owner == map[] && w < |s.workers| && s.workers[w] == WorkerThread(FreeLock, w)
    ensures Reachable(s')
    ensures s' == s.(workers := At(s, w, FreeChannel), owner := map[SessionMu := Worker(w)],
                     trace := s.trace + [Lib(ChannelClose(w))])
  {
    s' := WorkerLocks(s, w, FreeClose);
    s' := WorkerGoes(s', w, Emit(Lib(ChannelClose(w))), FreeChannel);
  }

  lemma Frees(s: State, w: nat) returns (s': State)
    requires Reachable(s) && s.owner == map[] && w < |s.workers| && s.workers[w] == WorkerThread(FreeLock, w)
    ensures Reachable(s')
    ensures s' == s.(workers := At(s, w, StoreDone), trace := s.trace + [Lib(ChannelClose(w)), Lib(ChannelFree(w))])
  {
    s' := Closes(s, w);
    s' := WorkerGoes(s', w, Emit(Lib(ChannelFree(w))), FreeUnlock);
    s' := WorkerUnlocks(s', w, StoreDone);
    assert s'.trace == s.trace + [Lib(ChannelClose(w)), Lib(ChannelFree(w))];
  }

  lemma Exits(s: State, w: nat) returns (s': State)
    requires Reachable(s) && w < |s.workers| && s.workers[w] == WorkerThread(StoreDone, w)
    ensures Reachable(s') && s' == s.(workers := At(s, w, Exited))
  {
    s' := WorkerGoesOn(s, w, Returning);
    s' := WorkerGoesOn(s', w, Exited);
  }

  /** And each can end by itself, with the engine running on: when the local service ends its
      stream, the worker passes the end on, closes the local socket, closes and frees the
      channel, in that order, and exits. */
  lemma EndsByItself(s: State, n: nat, w: nat) returns (s': State)
    requires Reachable(s) && Serving(s, n, AcceptTop) && w < n
    ensures Reachable(s') && s'.running && s'.accept == AcceptTop && HasExited(s', w)
    ensures s'.trace ==
            s.trace + [Lib(ChannelSendEof(w)), LocalClosed(w), Lib(ChannelClose(w)), Lib(ChannelFree(w))]
    ensures s'.workers == At(s, w, Exited)
  {
    s' := SeesEof(s, w);
    s' := SendsEof(s', w);
    s' := WorkerGoes(s', w, Emit(LocalClosed(w)), FreeLock);
    s' := Frees(s', w);
    s' := Exits(s', w);
    assert s'.trace == s.trace + [Lib(ChannelSendEof(w)), LocalClosed(w), Lib(ChannelClose(w)), Lib(ChannelFree(w))];
  }
}
