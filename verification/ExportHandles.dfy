/** Export handles across the layers: MeshExporter objects on the C++ side, the backend
    that serialises calls into the shim, and the shim node's table of live listeners. */
module ExportHandles {

  /** MeshExporter::Start: nothing yet, the shim answered but the handle is not stored,
      done, or failed. */
  datatype StartPc = Unstarted | Answered(h: int) | Started | StartFailed

  datatype Exporter = Exporter(start: StartPc, handle: int, listening: bool)

  /** One MeshExporter::Close call, on exporter `ex`; `took` is the handle it found there,
      or 0, a history variable. */
  datatype ClosePc = Enter | Unexport(h: int) | Left

  datatype Closing = Closing(ex: nat, took: int, pc: ClosePc)

  /** Who answers for a handle; a history variable, read by no step. */
  datatype Keeper = InStart(ex: nat) | InField(ex: nat) | InClose(call: nat) | Retired(call: nat)

  /** `live` is the domain of the node's export table, `draining` what closeAllExports has
      taken out of it and not yet closed. `keepers[h - 1]` is the keeper of handle h;
      `unexports` logs every call of Unexport, and `shut` every listener that was closed. */
  datatype State = State(
    up: bool, live: set<int>, nextExport: int, draining: seq<int>,
    exporters: seq<Exporter>, calls: seq<Closing>,
    keepers: seq<Keeper>, unexports: seq<int>, shut: seq<int>)

  ghost predicate Init(s: State) {
    s == State(true, {}, 0, [], [], [], [], [], [])
  }

  datatype Step =
    | NewExporter
    | ShimExport(ex: nat, ok: bool)
    | TakeOwnership(ex: nat)
    | CloseCall(ex: nat)
    | CloseMoves(call: nat)
    | NodeTakes(order: seq<int>)
    | NodeShuts

  ghost predicate CanStep(s: State, step: Step) {
    match step
    case NewExporter => true
    case ShimExport(ex, ok) => ex < |s.exporters| && s.exporters[ex].start.Unstarted? && (ok ==> s.up)
    case TakeOwnership(ex) => ex < |s.exporters| && s.exporters[ex].start.Answered?
    case CloseCall(ex) => ex < |s.exporters|
    case CloseMoves(c) => c < |s.calls| && !s.calls[c].pc.Left? && s.calls[c].ex < |s.exporters|
    case NodeTakes(order) => s.up && multiset(order) == multiset(s.live)
    case NodeShuts => s.draining != []
  }

  ghost function AfterStart(s: State, ex: nat, ok: bool): State
    requires ex < |s.exporters|
  {
    var e := s.exporters[ex];
    if ok then
      var h := s.nextExport + 1;
      s.(live := s.live + {h}, nextExport := h, exporters := s.exporters[ex := e.(start := Answered(h))],
         keepers := s.keepers + [InStart(ex)])
    else s.(exporters := s.exporters[ex := e.(start := StartFailed)])
  }

  /** The critical section of Close: whoever finds the exporter listening takes its handle. */
  ghost function AfterEnter(s: State, c: nat): State
    requires c < |s.calls| && s.calls[c].ex < |s.exporters|
  {
    var ex := s.calls[c].ex;
    var e := s.exporters[ex];
    if !e.listening then s.(calls := s.calls[c := Closing(ex, 0, Left)])
    else s.(exporters := s.exporters[ex := e.(handle := 0, listening := false)],
            calls := s.calls[c := Closing(ex, e.handle, if e.handle != 0 then Unexport(e.handle) else Left)],
            keepers := Keep(s.keepers, e.handle, InClose(c)))
  }

  /** mesh_unexport: logged whether or not the table still has the handle. */
  ghost function AfterUnexport(s: State, c: nat, h: int): State
    requires c < |s.calls|
  {
    s.(live := s.live - {h}, calls := s.calls[c := s.calls[c].(pc := Left)],
       keepers := Keep(s.keepers, h, Retired(c)), unexports := s.unexports + [h],
       shut := if h in s.live then s.shut + [h] else s.shut)
  }

  ghost function After(s: State, step: Step): State
    requires CanStep(s, step)
  {
    match step
    case NewExporter => s.(exporters := s.exporters + [Exporter(Unstarted, 0, false)])
    case ShimExport(ex, ok) => AfterStart(s, ex, ok)
    case TakeOwnership(ex) =>
      var h := s.exporters[ex].start.h;
      s.(exporters := s.exporters[ex := Exporter(Started, h, true)], keepers := Keep(s.keepers, h, InField(ex)))
    case CloseCall(ex) => s.(calls := s.calls + [Closing(ex, 0, Enter)])
    case CloseMoves(c) =>
      (match s.calls[c].pc
       case Enter => AfterEnter(s, c)
       case Unexport(h) => AfterUnexport(s, c, h)
       case Left => s)
    case NodeTakes(order) => s.(up := false, live := {}, draining := order)
    case NodeShuts => s.(draining := s.draining[1..], shut := s.shut + [s.draining[0]])
  }

  function Keep(keepers: seq<Keeper>, h: int, k: Keeper): seq<Keeper> {
    if 0 < h <= |keepers| then keepers[h - 1 := k] else keepers
  }

  ghost predicate Next(s: State, step: Step, s': State) {
    CanStep(s, step) && s' == After(s, step)
  }

  ghost predicate IsRun(states: seq<State>, steps: seq<Step>) {
    && |states| == |steps| + 1
    && Init(states[0])
    && forall k :: 0 <= k < |steps| ==> Next(states[k], steps[k], states[k + 1])
  }

  // -------------------------------------------------------------- invariant

  ghost predicate Issued(s: State, h: int) {
    0 < h <= |s.keepers|
  }

  ghost predicate KeptBy(keepers: seq<Keeper>, h: int, k: Keeper) {
    0 < h <= |keepers| && keepers[h - 1] == k
  }

  ghost predicate IsRetired(s: State, h: int) {
    Issued(s, h) && s.keepers[h - 1].Retired?
  }

  /** An exporter's copy of a handle is the one its keeper names. */
  ghost predicate ExporterAgrees(keepers: seq<Keeper>, i: nat, e: Exporter) {
    && (e.start.Answered? ==> KeptBy(keepers, e.start.h, InStart(i)))
    && (e.listening ==> e.start.Started? && KeptBy(keepers, e.handle, InField(i)))
  }

  ghost predicate CallAgrees(keepers: seq<Keeper>, c: nat, call: Closing) {
    match call.pc
    case Enter => call.took == 0
    case Unexport(h) => call.took == h && KeptBy(keepers, h, InClose(c))
    case Left => call.took == 0 || KeptBy(keepers, call.took, Retired(c))
  }

  ghost predicate ExportersAgree(s: State) {
    forall i :: 0 <= i < |s.exporters| ==> ExporterAgrees(s.keepers, i, s.exporters[i])
  }

  ghost predicate CallsAgree(s: State) {
    forall c :: 0 <= c < |s.calls| ==> s.calls[c].ex < |s.exporters| && CallAgrees(s.keepers, c, s.calls[c])
  }

  ghost predicate KeepersAgree(s: State) {
    forall h :: 0 <= h < |s.keepers| ==> KeeperHolds(s, h + 1, s.keepers[h])
  }

  ghost predicate KeeperHolds(s: State, h: int, k: Keeper) {
    match k
    case InStart(i) => i < |s.exporters| && s.exporters[i].start == Answered(h)
    case InField(i) => i < |s.exporters| && s.exporters[i].listening && s.exporters[i].handle == h
    case InClose(c) => c < |s.calls| && s.calls[c].pc == Unexport(h)
    case Retired(c) => c < |s.calls|
  }

  /** Unexport was called once for each retired handle, and for no other. */
  ghost predicate LogAgrees(s: State) {
    && s.nextExport == |s.keepers|
    && forall h :: multiset(s.unexports)[h] == if IsRetired(s, h) then 1 else 0
  }

  /** Every listener is in the table, in the hands of closeAllExports, or closed once. */
  ghost predicate ListenersAgree(s: State) {
    && (forall h :: Places(s, h) == if Issued(s, h) then 1 else 0)
    && (forall h :: h in s.live ==> !IsRetired(s, h))
    && (if s.up then s.draining == [] && forall h :: Issued(s, h) && !IsRetired(s, h) ==> h in s.live
        else s.live == {})
  }

  ghost predicate Inv(s: State) {
    ExportersAgree(s) && CallsAgree(s) && KeepersAgree(s) && LogAgrees(s) && ListenersAgree(s)
  }

  /** The handle whose keeper a step replaces, or 0. */
  ghost function Moved(s: State, step: Step): int
    requires CanStep(s, step)
  {
    match step
    case TakeOwnership(ex) => s.exporters[ex].start.h
    case CloseMoves(c) =>
      (match s.calls[c].pc
       case Enter => if s.exporters[s.calls[c].ex].listening then s.exporters[s.calls[c].ex].handle else 0
       case Unexport(h) => h
       case Left => 0)
    case _ => 0
  }

  lemma KeepersChange(s: State, step: Step, s': State)
    requires Next(s, step, s')
    ensures |s.keepers| <= |s'.keepers|
    ensures forall k :: 0 <= k < |s.keepers| && k + 1 != Moved(s, step) ==> s'.keepers[k] == s.keepers[k]
  {
  }

  lemma CloseAgrees(s: State, c: nat, s': State)
    requires Inv(s) && Next(s, CloseMoves(c), s')
    ensures s.calls[c].pc.Unexport? ==> KeptBy(s.keepers, s.calls[c].pc.h, InClose(c))
    ensures s.exporters[s.calls[c].ex].listening ==>
              KeptBy(s.keepers, s.exporters[s.calls[c].ex].handle, InField(s.calls[c].ex))
  {
    assert CallAgrees(s.keepers, c, s.calls[c]);
    assert ExporterAgrees(s.keepers, s.calls[c].ex, s.exporters[s.calls[c].ex]);
  }

  lemma ExporterStep(s: State, step: Step, s': State, i: nat)
    requires Inv(s) && Next(s, step, s') && i < |s'.exporters|
    ensures ExporterAgrees(s'.keepers, i, s'.exporters[i])
  {
    assert i < |s.exporters| ==> ExporterAgrees(s.keepers, i, s.exporters[i]);
    match step
    case TakeOwnership(ex) => assert ExporterAgrees(s.keepers, ex, s.exporters[ex]);
    case CloseMoves(c) => ExporterAtClose(s, c, s', i);
    case _ =>
  }

  lemma ExporterAtClose(s: State, c: nat, s': State, i: nat)
    requires Inv(s) && Next(s, CloseMoves(c), s') && i < |s'.exporters|
    ensures ExporterAgrees(s'.keepers, i, s'.exporters[i])
  {
    CloseAgrees(s, c, s');
    KeepersChange(s, CloseMoves(c), s');
    assert ExporterAgrees(s.keepers, i, s.exporters[i]);
  }

  lemma CallStep(s: State, step: Step, s': State, c: nat)
    requires Inv(s) && Next(s, step, s') && c < |s'.calls|
    ensures s'.calls[c].ex < |s'.exporters| && CallAgrees(s'.keepers, c, s'.calls[c])
  {
    assert c < |s.calls| ==> CallAgrees(s.keepers, c, s.calls[c]);
    match step
    case TakeOwnership(ex) => assert ExporterAgrees(s.keepers, ex, s.exporters[ex]);
    case CloseMoves(d) => CallAtClose(s, d, s', c);
    case _ =>
  }

  lemma CallAtClose(s: State, d: nat, s': State, c: nat)
    requires Inv(s) && Next(s, CloseMoves(d), s') && c < |s'.calls|
    ensures s'.calls[c].ex < |s'.exporters| && CallAgrees(s'.keepers, c, s'.calls[c])
  {
    CloseAgrees(s, d, s');
    KeepersChange(s, CloseMoves(d), s');
    assert CallAgrees(s.keepers, c, s.calls[c]);
  }

  lemma KeeperStep(s: State, step: Step, s': State, h: nat)
    requires Inv(s) && Next(s, step, s') && h < |s'.keepers|
    ensures KeeperHolds(s', h + 1, s'.keepers[h])
  {
    if step.CloseMoves? {
      KeeperAtClose(s, step.call, s', h);
    } else {
      assert h < |s.keepers| ==> KeeperHolds(s, h + 1, s.keepers[h]);
    }
  }

  lemma KeeperAtClose(s: State, c: nat, s': State, h: nat)
    requires Inv(s) && Next(s, CloseMoves(c), s') && h < |s'.keepers|
    ensures KeeperHolds(s', h + 1, s'.keepers[h])
  {
    CloseAgrees(s, c, s');
    assert KeeperHolds(s, h + 1, s.keepers[h]);
  }

  lemma RetiredAtClose(s: State, c: nat, s': State, h: int)
    requires Inv(s) && Next(s, CloseMoves(c), s')
    ensures IsRetired(s', h) <==> IsRetired(s, h) || s.calls[c].pc == Unexport(h)
    ensures s.calls[c].pc == Unexport(h) ==> Issued(s, h) && !IsRetired(s, h)
    ensures Issued(s', h) <==> Issued(s, h)
  {
    CloseAgrees(s, c, s');
  }

  /** What a step does to the keepers, seen from the two logs. */
  lemma RetiredStep(s: State, step: Step, s': State, h: int)
    requires Inv(s) && Next(s, step, s')
    ensures IsRetired(s', h) <==>
            IsRetired(s, h) || (step.CloseMoves? && s.calls[step.call].pc == Unexport(h))
    ensures step.CloseMoves? && s.calls[step.call].pc == Unexport(h) ==> Issued(s, h) && !IsRetired(s, h)
    ensures Issued(s', h) <==> Issued(s, h) || (step.ShimExport? && step.ok && h == s.nextExport + 1)
  {
    match step
    case TakeOwnership(ex) => assert ExporterAgrees(s.keepers, ex, s.exporters[ex]);
    case CloseMoves(c) => RetiredAtClose(s, c, s', h);
    case _ =>
  }

  lemma LogPreserved(s: State, step: Step, s': State)
    requires Inv(s) && Next(s, step, s')
    ensures LogAgrees(s')
  {
    forall h ensures multiset(s'.unexports)[h] == if IsRetired(s', h) then 1 else 0 {
      RetiredStep(s, step, s', h);
      assert multiset(s.unexports)[h] == if IsRetired(s, h) then 1 else 0;
    }
  }

  /** In how many places handle h's listener is: the table, the node's loop, the log. */
  ghost function Places(s: State, h: int): nat {
    (if h in s.live then 1 else 0) + multiset(s.draining)[h] + multiset(s.shut)[h]
  }

  lemma CloseKeepsPlaces(s: State, c: nat, s': State, h: int)
    requires Next(s, CloseMoves(c), s')
    ensures Places(s', h) == Places(s, h)
  {
  }

  lemma TakingKeepsPlaces(s: State, order: seq<int>, s': State, h: int)
    requires Next(s, NodeTakes(order), s') && s.draining == []
    ensures Places(s', h) == Places(s, h)
  {
    assert multiset(order)[h] == multiset(s.live)[h];
  }

  lemma ShuttingKeepsPlaces(s: State, s': State, h: int)
    requires Next(s, NodeShuts, s')
    ensures Places(s', h) == Places(s, h)
  {
    assert s.draining == [s.draining[0]] + s.draining[1..];
  }

  lemma PlacesStep(s: State, step: Step, s': State, h: int)
    requires Next(s, step, s') && s.nextExport == |s.keepers| && (h in s.live ==> h <= s.nextExport)
    requires step.NodeTakes? ==> s.draining == []
    ensures Places(s', h) == Places(s, h) + if step.ShimExport? && step.ok && h == s.nextExport + 1 then 1 else 0
  {
    match step
    case CloseMoves(c) => CloseKeepsPlaces(s, c, s', h);
    case NodeTakes(order) => TakingKeepsPlaces(s, order, s', h);
    case NodeShuts => ShuttingKeepsPlaces(s, s', h);
    case _ => assert s'.draining == s.draining && s'.shut == s.shut;
  }

  lemma ListenerStep(s: State, step: Step, s': State, h: int)
    requires Inv(s) && Next(s, step, s')
    ensures Places(s', h) == if Issued(s', h) then 1 else 0
    ensures h in s'.live ==> !IsRetired(s', h)
    ensures s'.up && Issued(s', h) && !IsRetired(s', h) ==> h in s'.live
  {
    RetiredStep(s, step, s', h);
    assert Places(s, h) == if Issued(s, h) then 1 else 0;
    PlacesStep(s, step, s', h);
    LiveStep(s, step, s', h);
  }

  lemma LiveStep(s: State, step: Step, s': State, h: int)
    requires Next(s, step, s')
    ensures s'.up ==> s.up
    ensures h in s'.live ==> h in s.live || (step.ShimExport? && step.ok && h == s.nextExport + 1)
    ensures h in s'.live && step.CloseMoves? ==> s.calls[step.call].pc != Unexport(h)
    ensures s'.up && h in s.live && h !in s'.live ==> step.CloseMoves? && s.calls[step.call].pc == Unexport(h)
    ensures step.ShimExport? && step.ok && h == s.nextExport + 1 ==> h in s'.live
  {
  }

  lemma ListenersPreserved(s: State, step: Step, s': State)
    requires Inv(s) && Next(s, step, s')
    ensures ListenersAgree(s')
  {
    forall h
      ensures Places(s', h) == if Issued(s', h) then 1 else 0
      ensures h in s'.live ==> !IsRetired(s', h)
      ensures s'.up && Issued(s', h) && !IsRetired(s', h) ==> h in s'.live
    {
      ListenerStep(s, step, s', h);
    }
    NodeStep(s, step, s');
  }

  lemma NodeStep(s: State, step: Step, s': State)
    requires ListenersAgree(s) && Next(s, step, s')
    ensures if s'.up then s'.draining == [] else s'.live == {}
  {
  }

  lemma InvPreserved(s: State, step: Step, s': State)
    requires Inv(s) && Next(s, step, s')
    ensures Inv(s')
  {
    forall i: nat | i < |s'.exporters| ensures ExporterAgrees(s'.keepers, i, s'.exporters[i]) {
      ExporterStep(s, step, s', i);
    }
    forall c: nat | c < |s'.calls|
      ensures s'.calls[c].ex < |s'.exporters| && CallAgrees(s'.keepers, c, s'.calls[c])
    {
      CallStep(s, step, s', c);
    }
    forall h: nat | h < |s'.keepers| ensures KeeperHolds(s', h + 1, s'.keepers[h]) {
      KeeperStep(s, step, s', h);
    }
    LogPreserved(s, step, s');
    ListenersPreserved(s, step, s');
  }

  lemma {:induction false} RunsKeepInv(states: seq<State>, steps: seq<Step>, k: nat)
    requires IsRun(states, steps) && k < |states|
    ensures Inv(states[k])
  {
    if k > 0 {
      var i := k - 1;
      RunsKeepInv(states, steps, i);
      assert Next(states[i], steps[i], states[i + 1]);
      InvPreserved(states[i], steps[i], states[k]);
    }
  }

  // --------------------------------------------------------------- theorems

  /** Under any number of concurrent Close calls Unexport is called at most once for a
      handle; and while the node is up a listener is live exactly until then. */
  lemma UnexportedAtMostOnce(states: seq<State>, steps: seq<Step>, k: nat, h: int)
    requires IsRun(states, steps) && k < |states|
    ensures multiset(states[k].unexports)[h] <= 1
    ensures states[k].up ==>
              (h in states[k].live <==> 0 < h <= states[k].nextExport && h !in states[k].unexports)
  {
    RunsKeepInv(states, steps, k);
    assert h in states[k].unexports <==> h in multiset(states[k].unexports);
  }

  /** The Close call that took a handle has, when it returns, called Unexport for it, and
      nobody else has or ever will. */
  lemma TakerUnexports(states: seq<State>, steps: seq<Step>, k: nat, c: nat)
    requires IsRun(states, steps) && k < |states| && c < |states[k].calls|
    requires states[k].calls[c].pc.Left? && states[k].calls[c].took != 0
    ensures multiset(states[k].unexports)[states[k].calls[c].took] == 1
    ensures forall d :: 0 <= d < |states[k].calls| && d != c ==> states[k].calls[d].took != states[k].calls[c].took
  {
    RunsKeepInv(states, steps, k);
    var s := states[k];
    assert CallAgrees(s.keepers, c, s.calls[c]);
    forall d | 0 <= d < |s.calls| && d != c ensures s.calls[d].took != s.calls[c].took {
      assert CallAgrees(s.keepers, d, s.calls[d]);
    }
  }

  lemma EnterStep(s: State, c: nat, s': State)
    requires Inv(s) && Next(s, CloseMoves(c), s') && s.calls[c].pc.Enter?
    ensures var e := s.exporters[s.calls[c].ex];
            && s'.calls[c].took == (if e.listening then e.handle else 0)
            && (e.listening ==> e.handle > 0)
            && !s'.exporters[s.calls[c].ex].listening && !s'.calls[c].pc.Enter?
            && s'.exporters[s.calls[c].ex].start == e.start
  {
    assert ExporterAgrees(s.keepers, s.calls[c].ex, s.exporters[s.calls[c].ex]);
  }

  /** What a Close call took it keeps. */
  lemma TookStep(s: State, step: Step, s': State, c: nat)
    requires Next(s, step, s') && c < |s.calls|
    ensures c < |s'.calls|
    ensures !s.calls[c].pc.Enter? ==> !s'.calls[c].pc.Enter? && s'.calls[c].took == s.calls[c].took
  {
  }

  /** An exporter that stopped listening stays so. */
  lemma SilentStep(s: State, step: Step, s': State, ex: nat)
    requires Next(s, step, s') && ex < |s.exporters|
    ensures ex < |s'.exporters|
    ensures s.exporters[ex].start.Started? ==> s'.exporters[ex].start.Started?
    ensures s.exporters[ex].start.Started? && !s.exporters[ex].listening ==> !s'.exporters[ex].listening
  {
  }

  lemma {:induction false} TookStays(states: seq<State>, steps: seq<Step>, i: nat, k: nat, c: nat, ex: nat)
    requires IsRun(states, steps) && i <= k < |states| && c < |states[i].calls| && ex < |states[i].exporters|
    requires !states[i].calls[c].pc.Enter?
    ensures c < |states[k].calls| && ex < |states[k].exporters|
    ensures !states[k].calls[c].pc.Enter? && states[k].calls[c].took == states[i].calls[c].took
    ensures states[i].exporters[ex].start.Started? && !states[i].exporters[ex].listening ==>
              states[k].exporters[ex].start.Started? && !states[k].exporters[ex].listening
  {
    if i < k {
      var j := k - 1;
      TookStays(states, steps, i, j, c, ex);
      assert Next(states[j], steps[j], states[j + 1]);
      TookStep(states[j], steps[j], states[k], c);
      SilentStep(states[j], steps[j], states[k], ex);
    }
  }

  /** Close does its work: a call that finds its exporter listening takes the handle it finds
      there, the exporter never listens again, and by the time the call returns that handle
      was unexported, exactly once. */
  lemma CloseTakesWhatItFinds(states: seq<State>, steps: seq<Step>, i: nat, k: nat, c: nat)
    requires IsRun(states, steps) && i < k < |states| && steps[i] == CloseMoves(c)
    requires c < |states[i].calls| && states[i].calls[c].pc.Enter?
    ensures c < |states[k].calls| && states[i].calls[c].ex < |states[i].exporters|
    ensures var e := states[i].exporters[states[i].calls[c].ex];
            && states[k].calls[c].took == (if e.listening then e.handle else 0)
            && (e.listening && states[k].calls[c].pc.Left? ==> multiset(states[k].unexports)[e.handle] == 1)
    ensures states[i].calls[c].ex < |states[k].exporters|
    ensures states[i].exporters[states[i].calls[c].ex].start.Started? ==>
              !states[k].exporters[states[i].calls[c].ex].listening
  {
    RunsKeepInv(states, steps, i);
    assert Next(states[i], steps[i], states[i + 1]);
    var ex := states[i].calls[c].ex;
    EnterStep(states[i], c, states[i + 1]);
    TookStays(states, steps, i + 1, k, c, ex);
    if states[i].exporters[ex].listening && states[k].calls[c].pc.Left? {
      TakerUnexports(states, steps, k, c);
    }
  }

  /** While the node is up a listening exporter is listened for: its handle is in the table,
      and it is no other exporter's. */
  lemma ListeningIsLive(states: seq<State>, steps: seq<Step>, k: nat, ex: nat)
    requires IsRun(states, steps) && k < |states| && ex < |states[k].exporters| && states[k].exporters[ex].listening
    ensures states[k].up ==> states[k].exporters[ex].handle in states[k].live
    ensures forall i :: 0 <= i < |states[k].exporters| && i != ex && states[k].exporters[i].listening ==>
              states[k].exporters[i].handle != states[k].exporters[ex].handle
  {
    RunsKeepInv(states, steps, k);
    var s := states[k];
    assert ExporterAgrees(s.keepers, ex, s.exporters[ex]);
    forall i | 0 <= i < |s.exporters| && i != ex && s.exporters[i].listening
      ensures s.exporters[i].handle != s.exporters[ex].handle
    {
      assert ExporterAgrees(s.keepers, i, s.exporters[i]);
    }
  }

  /** Closing one export leaves every other in place. */
  lemma OthersStay(states: seq<State>, steps: seq<Step>, k: nat, h: int)
    requires IsRun(states, steps) && k < |steps| && h in states[k].live
    ensures h !in states[k + 1].live ==>
              || steps[k].NodeTakes?
              || (&& steps[k].CloseMoves? && states[k].calls[steps[k].call].pc == Unexport(h)
                  && KeptBy(states[k].keepers, h, InClose(steps[k].call)))
  {
    RunsKeepInv(states, steps, k);
    var s, step := states[k], steps[k];
    assert Next(s, step, states[k + 1]);
    if step.CloseMoves? {
      assert CallAgrees(s.keepers, step.call, s.calls[step.call]);
    }
  }

  /** Some Start, some exporter or some Close call still has the handle. */
  ghost predicate StillHeld(s: State, h: int) {
    || (exists i :: 0 <= i < |s.exporters| &&
          (s.exporters[i].start == Answered(h) || (s.exporters[i].listening && s.exporters[i].handle == h)))
    || (exists c :: 0 <= c < |s.calls| && s.calls[c].pc == Unexport(h))
  }

  /** Exactly once: for a handle that the shim issued, and that no Start, no exporter and
      no Close call still has, Unexport was called once. */
  lemma ReleasedMeansUnexported(states: seq<State>, steps: seq<Step>, k: nat, h: int)
    requires IsRun(states, steps) && k < |states| && Issued(states[k], h) && !StillHeld(states[k], h)
    ensures h !in states[k].live && multiset(states[k].unexports)[h] == 1
  {
    RunsKeepInv(states, steps, k);
    var s := states[k];
    assert KeeperHolds(s, h, s.keepers[h - 1]);
  }

  /** Closing the node and closing exports may meet in any order: no listener is ever
      closed twice, one that is out of the table is closed or about to be, and once the
      node's own loop is done every listener ever opened was closed exactly once. */
  lemma ListenersClosedOnce(states: seq<State>, steps: seq<Step>, k: nat, h: int)
    requires IsRun(states, steps) && k < |states|
    ensures multiset(states[k].shut)[h] <= 1
    ensures Issued(states[k], h) && h !in states[k].live && h !in states[k].draining ==>
              multiset(states[k].shut)[h] == 1
    ensures !states[k].up && states[k].draining == [] && Issued(states[k], h) ==>
              h !in states[k].live && multiset(states[k].shut)[h] == 1
  {
    RunsKeepInv(states, steps, k);
    var s := states[k];
    assert Places(s, h) == if Issued(s, h) then 1 else 0;
  }

  /** The node is closed and has shut the first `i` of the listeners it took. */
  ghost function Draining(s: State, order: seq<int>, i: nat): State
    requires i <= |order|
  {
    s.(up := false, live := {}, draining := order[i..], shut := s.shut + order[..i])
  }

  lemma DrainingStarts(s: State, order: seq<int>)
    requires CanStep(s, NodeTakes(order)) && s.draining == []
    ensures Next(s, NodeTakes(order), Draining(s, order, 0))
  {
    assert s.shut + order[..0] == s.shut && order[0..] == order;
  }

  lemma DrainingMoves(s: State, order: seq<int>, i: nat)
    requires i < |order|
    ensures Next(Draining(s, order, i), NodeShuts, Draining(s, order, i + 1))
  {
    assert order[i..][1..] == order[i + 1..] && order[..i] + [order[i]] == order[..i + 1];
    assert s.shut + order[..i] + [order[i]] == s.shut + order[..i + 1];
  }

  lemma {:induction false} DrainsInOrder(s: State, order: seq<int>, i: nat)
    requires Inv(s) && CanStep(s, NodeTakes(order)) && i <= |order|
    ensures Inv(Draining(s, order, i))
    ensures i == 0 ==> Next(s, NodeTakes(order), Draining(s, order, 0))
    ensures i > 0 ==> Next(Draining(s, order, i - 1), NodeShuts, Draining(s, order, i))
  {
    if i == 0 {
      DrainingStarts(s, order);
      InvPreserved(s, NodeTakes(order), Draining(s, order, 0));
    } else {
      DrainsInOrder(s, order, i - 1);
      DrainingMoves(s, order, i - 1);
      InvPreserved(Draining(s, order, i - 1), NodeShuts, Draining(s, order, i));
    }
  }

  // -------------------------------------------------------------- the node

  /** A shim node's export table (the same code in both shims). Listeners are numbered.
      Every method is a step of the model above, taken on the node's own fields. */
  class Node {
    var exports: map<int, nat>
    var nextExport: int
    ghost var model: State

    constructor ()
      ensures Agrees() && Init(model)
    {
      exports, nextExport := map[], 0;
      model := State(true, {}, 0, [], [], [], [], [], []);
    }

    ghost predicate Agrees()
      reads this
    {
      exports.Keys == model.live && nextExport == model.nextExport && Inv(model)
    }

    /** A step on the C++ side, which leaves the node's table alone. */
    ghost method Elsewhere(step: Step)
      requires Agrees() && CanStep(model, step)
      requires After(model, step).live == exports.Keys && After(model, step).nextExport == nextExport
      modifies this`model
      ensures Agrees() && Next(old(model), step, model)
    {
      model := After(model, step);
      InvPreserved(old(model), step, model);
    }

    /** addExport, as mesh_export calls it for exporter `ex`: the handle is positive and
        was never issued before. */
    method AddExport(ghost ex: nat, e: nat) returns (h: int)
      requires Agrees() && ex < |model.exporters| && model.exporters[ex].start.Unstarted? && model.up
      modifies this
      ensures Agrees() && Next(old(model), ShimExport(ex, true), model)
      ensures h > 0 && !Issued(old(model), h) && model.exporters[ex].start == Answered(h)
      ensures exports == old(exports)[h := e]
    {
      nextExport := nextExport + 1;
      h := nextExport;
      exports := exports[h := e];
      model := AfterStart(model, ex, true);
      InvPreserved(old(model), ShimExport(ex, true), model);
    }

    /** takeExport: an unknown handle is found missing and changes nothing. */
    method TakeExport(h: int) returns (found: bool, e: nat)
      modifies this`exports
      ensures exports == old(exports) - {h}
      ensures found <==> h in old(exports)
      ensures found ==> e == old(exports)[h]
      ensures !found ==> exports == old(exports)
    {
      found := h in exports;
      e := if found then exports[h] else 0;
      exports := exports - {h};
    }

    /** mesh_unexport, as Close call `c` makes it; `shut` tells that a listener was closed.
        It is, unless the node has been closed in between. */
    method Unexport(ghost c: nat, h: int) returns (shut: bool)
      requires Agrees() && c < |model.calls| && model.calls[c].pc == ClosePc.Unexport(h)
      modifies this
      ensures Agrees() && Next(old(model), CloseMoves(c), model)
      ensures shut <==> model.shut == old(model.shut) + [h]
      ensures old(model.up) ==> shut
    {
      var found, e := TakeExport(h);
      shut := found;
      assert CallAgrees(model.keepers, c, model.calls[c]);
      model := AfterUnexport(model, c, h);
      InvPreserved(old(model), CloseMoves(c), model);
    }

    /** closeAllExports, when the node itself is closed: the table is emptied at once, and
        then its listeners are closed one by one, in the table's own `order`. */
    method CloseAllExports(order: seq<int>)
      requires Agrees() && model.up && multiset(order) == multiset(exports.Keys)
      modifies this
      ensures Agrees() && exports == map[]
      ensures model == Draining(old(model), order, |order|)
    {
      exports := map[];
      DrainsInOrder(model, order, 0);
      model := Draining(model, order, 0);
      for i := 0 to |order|
        invariant model == Draining(old(model), order, i) && nextExport == old(nextExport) && exports == map[]
      {
        DrainsInOrder(old(model), order, i + 1);
        model := After(model, NodeShuts);
      }
      DrainsInOrder(old(model), order, |order|);
    }
  }
}
