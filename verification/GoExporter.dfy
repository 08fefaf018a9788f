/** The Go side of a mesh export: one accept goroutine, one serve goroutine per inbound
    connection, and any number of Close calls. Critical sections of e.mu only touch
    memory, so each is one step; everything outside them interleaves freely. */
module GoExporter {

  datatype AcceptPc = Accepting | AcceptFailed(shutdown: bool) | AcceptDone

  /** Program counter of serve, with track and untrack split at their unlock. */
  datatype ServePc =
    | TrackMesh | ShutLateMesh                   // track(meshConn)
    | Dialing
    | RecordRefusal | ShutRefused                // the local service refused
    | TrackLocal | ShutLateLocal                 // track(local)
    | Copying
    | ShutLocal | ShutMesh
    | UntrackLocal | UntrackMesh                 // deferred, last in first out
    | Served

  datatype Serve = Serve(pc: ServePc, mesh: nat, local: nat, dialed: bool)

  /** Only the Close call that finds the exporter open goes past its critical section. */
  datatype ClosePc = Open | StopListening(conns: seq<nat>) | ShutConns(conns: seq<nat>) | Finished

  datatype LastErr = NoError | AcceptError(shutdown: bool) | Refusal

  /** `shut` is the set of connections some goroutine has closed. */
  datatype State = State(
    closed: bool, conns: set<nat>, lastErr: LastErr,
    listening: bool, accept: AcceptPc, serves: seq<Serve>, closer: ClosePc,
    next: nat, shut: set<nat>)

  ghost predicate Init(s: State) {
    && !s.closed && s.conns == {} && s.lastErr == NoError
    && s.listening && s.accept == Accepting && s.serves == [] && s.closer == Open && s.shut == {}
  }

  datatype Step =
    | AcceptConn | AcceptErr | AcceptRecord
    | ServeMoves(i: nat, pc: ServePc)
    | CloseCall(order: seq<nat>) | CloseMoves

  /** `pc` may follow serve's current program counter; `closed` is what the lock showed. */
  ghost predicate ServeStep(closed: bool, sv: Serve, pc: ServePc) {
    match sv.pc
    case TrackMesh => pc == if closed then ShutLateMesh else Dialing
    case ShutLateMesh => pc == Dialing
    case Dialing => pc == RecordRefusal || pc == TrackLocal
    case RecordRefusal => pc == ShutRefused
    case ShutRefused => pc == UntrackMesh
    case TrackLocal => pc == if closed then ShutLateLocal else Copying
    case ShutLateLocal => pc == Copying
    case Copying => pc == ShutLocal
    case ShutLocal => pc == ShutMesh
    case ShutMesh => pc == UntrackLocal
    case UntrackLocal => pc == UntrackMesh
    case UntrackMesh => pc == Served
    case Served => false
  }

  function ConnsAfter(s: State, sv: Serve): set<nat> {
    match sv.pc
    case TrackMesh => if s.closed then s.conns else s.conns + {sv.mesh}
    case TrackLocal => if s.closed then s.conns else s.conns + {sv.local}
    case UntrackLocal => s.conns - {sv.local}
    case UntrackMesh => s.conns - {sv.mesh}
    case _ => s.conns
  }

  function ShutAfter(s: State, sv: Serve): set<nat> {
    match sv.pc
    case ShutLateMesh | ShutRefused | ShutMesh => s.shut + {sv.mesh}
    case ShutLateLocal | ShutLocal => s.shut + {sv.local}
    case _ => s.shut
  }

  function ServeAfter(s: State, sv: Serve, pc: ServePc): Serve {
    if sv.pc == Dialing && pc == TrackLocal then Serve(pc, sv.mesh, s.next, true)
    else Serve(pc, sv.mesh, sv.local, sv.dialed)
  }

  ghost predicate CanStep(s: State, step: Step) {
    match step
    case AcceptConn => s.accept == Accepting && s.listening
    case AcceptErr => s.accept == Accepting
    case AcceptRecord => s.accept.AcceptFailed?
    case ServeMoves(i, pc) => i < |s.serves| && ServeStep(s.closed, s.serves[i], pc)
    case CloseCall(order) => s.closed || (|order| == |s.conns| && forall c :: c in order <==> c in s.conns)
    case CloseMoves => s.closer.StopListening? || s.closer.ShutConns?
  }

  function After(s: State, step: Step): State
    requires step.ServeMoves? ==> step.i < |s.serves|
  {
    match step
    case AcceptConn =>
      State(s.closed, s.conns, s.lastErr, s.listening, s.accept,
            s.serves + [Serve(TrackMesh, s.next, 0, false)], s.closer, s.next + 1, s.shut)
    case AcceptErr =>
      State(s.closed, s.conns, s.lastErr, s.listening, AcceptFailed(!s.listening),
            s.serves, s.closer, s.next, s.shut)
    case AcceptRecord =>
      State(s.closed, s.conns,
            if !s.closed && s.accept.AcceptFailed? then AcceptError(s.accept.shutdown) else s.lastErr,
            s.listening, AcceptDone, s.serves, s.closer, s.next, s.shut)
    case ServeMoves(i, pc) =>
      var sv := s.serves[i];
      State(s.closed, ConnsAfter(s, sv), if sv.pc == RecordRefusal then Refusal else s.lastErr,
            s.listening, s.accept, s.serves[i := ServeAfter(s, sv, pc)], s.closer,
            if sv.pc == Dialing && pc == TrackLocal then s.next + 1 else s.next,
            ShutAfter(s, sv))
    case CloseCall(order) =>
      if s.closed then s
      else State(true, {}, s.lastErr, s.listening, s.accept, s.serves, StopListening(order), s.next, s.shut)
    case CloseMoves =>
      match s.closer {
        case StopListening(cs) =>
          State(s.closed, s.conns, s.lastErr, false, s.accept, s.serves, ShutConns(cs), s.next, s.shut)
        case ShutConns(cs) =>
          State(s.closed, s.conns, s.lastErr, s.listening, s.accept, s.serves,
                if cs == [] then Finished else ShutConns(cs[1..]), s.next,
                if cs == [] then s.shut else s.shut + {cs[0]})
        case _ => s
      }
  }

  ghost predicate Next(s: State, step: Step, s': State) {
    CanStep(s, step) && s' == After(s, step)
  }

  ghost predicate IsRun(states: seq<State>, steps: seq<Step>) {
    && |states| == |steps| + 1
    && Init(states[0])
    && forall k :: 0 <= k < |steps| ==> Next(states[k], steps[k], states[k + 1])
  }

  // -------------------------------------------------------------- invariant

  function Ends(sv: Serve): set<nat> {
    if sv.dialed then {sv.mesh, sv.local} else {sv.mesh}
  }

  predicate Dialed(pc: ServePc) {
    match pc
    case TrackMesh | ShutLateMesh | Dialing | RecordRefusal | ShutRefused => false
    case _ => true
  }

  /** Between track and untrack: the connection must be reachable by Close. */
  predicate HoldsMesh(sv: Serve) {
    !sv.pc.TrackMesh? && !sv.pc.ShutLateMesh? && !sv.pc.Served?
  }

  predicate HoldsLocal(sv: Serve) {
    sv.pc.Copying? || sv.pc.ShutLocal? || sv.pc.ShutMesh? || sv.pc.UntrackLocal?
  }

  ghost predicate Holds(sv: Serve, c: nat) {
    (HoldsMesh(sv) && c == sv.mesh) || (HoldsLocal(sv) && c == sv.local)
  }

  /** The connections Close has taken over and not yet shut. */
  function Pending(pc: ClosePc): seq<nat> {
    match pc
    case StopListening(cs) => cs
    case ShutConns(cs) => cs
    case _ => []
  }

  ghost predicate Reachable(s: State, c: nat) {
    if s.closed then c in s.shut || c in Pending(s.closer) else c in s.conns
  }

  ghost predicate Distinct(s: State) {
    && (forall i, c :: 0 <= i < |s.serves| && c in Ends(s.serves[i]) ==> c < s.next)
    && (forall i, j, c :: 0 <= i < j < |s.serves| && c in Ends(s.serves[i]) ==> c !in Ends(s.serves[j]))
    && (forall i :: 0 <= i < |s.serves| ==> ServeShape(s.serves[i]))
  }

  ghost predicate ServeShape(sv: Serve) {
    && (sv.dialed ==> sv.mesh != sv.local)
    && (sv.dialed ==> Dialed(sv.pc))
    && (Dialed(sv.pc) && !sv.pc.UntrackMesh? && !sv.pc.Served? ==> sv.dialed)
  }

  /** Every held connection is where Close can reach it, and `conns` holds nothing else. */
  ghost predicate Tracked(s: State) {
    && (forall i, c :: 0 <= i < |s.serves| && Holds(s.serves[i], c) ==> Reachable(s, c))
    && (forall c :: c in s.conns ==> exists i :: 0 <= i < |s.serves| && Holds(s.serves[i], c))
  }

  /** A serve past its own closing calls has shut both ends. */
  ghost predicate ShutWhenDone(s: State) {
    forall i :: 0 <= i < |s.serves| ==> EndsShut(s.serves[i], s.shut)
  }

  ghost predicate EndsShut(sv: Serve, shut: set<nat>) {
    && (sv.pc.ShutMesh? || sv.pc.UntrackLocal? ==> sv.local in shut)
    && (sv.pc.UntrackLocal? ==> sv.mesh in shut)
    && (sv.pc.UntrackMesh? || sv.pc.Served? ==> Ends(sv) <= shut)
  }

  ghost predicate Phases(s: State) {
    && (s.closed <==> !s.closer.Open?)
    && (s.closed ==> s.conns == {})
    && (s.listening <==> s.closer.Open? || s.closer.StopListening?)
    && (forall i :: 0 <= i < |s.serves| && (s.serves[i].pc.ShutLateMesh? || s.serves[i].pc.ShutLateLocal?) ==> s.closed)
    && (s.accept.AcceptFailed? && s.accept.shutdown ==> !s.listening)
    && s.lastErr != AcceptError(true)
  }

  ghost predicate Inv(s: State) {
    Distinct(s) && Tracked(s) && ShutWhenDone(s) && Phases(s)
  }

  lemma InitHolds(s: State)
    requires Init(s)
    ensures Inv(s)
  {
  }

  /** A serve keeps its ends; a successful dial adds one never used before. */
  lemma EndsAfter(s: State, i: nat, pc: ServePc)
    requires Distinct(s) && CanStep(s, ServeMoves(i, pc))
    ensures var sv := ServeAfter(s, s.serves[i], pc);
            && ServeShape(sv)
            && forall c :: c in Ends(sv) ==>
                 c in Ends(s.serves[i]) || (c == s.next && s.serves[i].pc.Dialing? && pc.TrackLocal?)
  {
    assert s.serves[i].mesh in Ends(s.serves[i]);
    assert ServeShape(s.serves[i]);
  }

  lemma DistinctPreserved(s: State, step: Step, s': State)
    requires Distinct(s) && Next(s, step, s')
    ensures Distinct(s')
  {
    if step.ServeMoves? {
      EndsAfter(s, step.i, step.pc);
    }
    forall i, c | 0 <= i < |s'.serves| && c in Ends(s'.serves[i]) ensures c < s'.next {
      assert i < |s.serves| && c in Ends(s.serves[i]) ==> c < s.next;
    }
  }

  lemma PhasesPreserved(s: State, step: Step, s': State)
    requires Phases(s) && Next(s, step, s')
    ensures Phases(s')
  {
  }

  lemma ShutGrows(s: State, step: Step, s': State)
    requires Next(s, step, s')
    ensures s.shut <= s'.shut && s.next <= s'.next && (s.closed ==> s'.closed)
  {
  }

  lemma ShutPreserved(s: State, step: Step, s': State)
    requires Distinct(s) && ShutWhenDone(s) && Next(s, step, s')
    ensures ShutWhenDone(s')
  {
    ShutGrows(s, step, s');
  }

  /** Whatever serve holds after its step, Close can still reach. */
  lemma ServeReachable(s: State, i: nat, pc: ServePc, s': State, j: nat, c: nat)
    requires Inv(s) && Next(s, ServeMoves(i, pc), s') && j < |s'.serves| && Holds(s'.serves[j], c)
    ensures Reachable(s', c)
  {
    assert Holds(s.serves[j], c) ==> Reachable(s, c);
    assert ServeShape(s.serves[j]) && ServeShape(s.serves[i]);
    assert c in Ends(s'.serves[j]) || !s'.serves[j].dialed;
  }

  lemma ServeTracks(s: State, i: nat, pc: ServePc, s': State)
    requires Inv(s) && Next(s, ServeMoves(i, pc), s')
    ensures Tracked(s')
  {
    var sv' := s'.serves[i];
    forall j: nat, c: nat | j < |s'.serves| && Holds(s'.serves[j], c) ensures Reachable(s', c) {
      ServeReachable(s, i, pc, s', j, c);
    }
    forall c | c in s'.conns ensures exists j :: 0 <= j < |s'.serves| && Holds(s'.serves[j], c) {
      if !Holds(sv', c) {
        var j :| 0 <= j < |s.serves| && Holds(s.serves[j], c);
        assert j != i ==> s'.serves[j] == s.serves[j];
        assert Holds(s'.serves[j], c);
      }
    }
  }

  lemma OthersTrack(s: State, step: Step, s': State)
    requires Inv(s) && Next(s, step, s') && !step.ServeMoves?
    ensures Tracked(s')
  {
    forall j, c | 0 <= j < |s'.serves| && Holds(s'.serves[j], c) ensures Reachable(s', c) {
      assert j < |s.serves| && s'.serves[j] == s.serves[j];
      assert Reachable(s, c);
      if step.CloseMoves? && s.closer.ShutConns? && s.closer.conns != [] {
        var cs := s.closer.conns;
        assert cs == [cs[0]] + cs[1..];
      }
    }
    forall c | c in s'.conns ensures exists j :: 0 <= j < |s'.serves| && Holds(s'.serves[j], c) {
      var j :| 0 <= j < |s.serves| && Holds(s.serves[j], c);
      assert Holds(s'.serves[j], c);
    }
  }

  lemma InvPreserved(s: State, step: Step, s': State)
    requires Inv(s) && Next(s, step, s')
    ensures Inv(s')
  {
    DistinctPreserved(s, step, s');
    PhasesPreserved(s, step, s');
    ShutPreserved(s, step, s');
    if step.ServeMoves? {
      ServeTracks(s, step.i, step.pc, s');
    } else {
      OthersTrack(s, step, s');
    }
  }

  lemma {:induction false} RunsKeepInv(states: seq<State>, steps: seq<Step>, k: nat)
    requires IsRun(states, steps) && k < |states|
    ensures Inv(states[k])
  {
    if k == 0 {
      InitHolds(states[0]);
    } else {
      var i := k - 1;
      RunsKeepInv(states, steps, i);
      assert Next(states[i], steps[i], states[i + 1]);
      InvPreserved(states[i], steps[i], states[k]);
    }
  }

  // --------------------------------------------------------------- theorems

  /** Once closed is set, conns is empty for ever, whatever serves still come and go. */
  lemma {:induction false} ClosedStaysEmpty(states: seq<State>, steps: seq<Step>, from: nat, k: nat)
    requires IsRun(states, steps) && from <= k < |states| && states[from].closed
    ensures states[k].closed && states[k].conns == {}
  {
    RunsKeepInv(states, steps, k);
    if from < k {
      var i := k - 1;
      ClosedStaysEmpty(states, steps, from, i);
      assert Next(states[i], steps[i], states[i + 1]);
      ShutGrows(states[i], steps[i], states[k]);
    }
  }

  /** The close race: after Close has finished its loop, every connection a serve holds in
      its copy stage has been shut, so both copies return. */
  lemma CopiesAreReleased(s: State, i: nat)
    requires Inv(s) && s.closer.Finished? && i < |s.serves| && s.serves[i].pc.Copying?
    ensures s.serves[i].mesh in s.shut && s.serves[i].local in s.shut
  {
    assert Holds(s.serves[i], s.serves[i].mesh) && Reachable(s, s.serves[i].mesh);
    assert Holds(s.serves[i], s.serves[i].local) && Reachable(s, s.serves[i].local);
  }

  /** Before Close, conns is exactly the set of connections the serves hold. */
  lemma ConnsAreHeld(s: State, c: nat)
    requires Inv(s) && !s.closed
    ensures c in s.conns <==> exists i :: 0 <= i < |s.serves| && Holds(s.serves[i], c)
  {
    if i :| 0 <= i < |s.serves| && Holds(s.serves[i], c) {
      assert Reachable(s, c);
    }
  }

  /** A finished serve leaves nothing behind: its ends are shut and no longer tracked. */
  lemma ServedLeavesNothing(states: seq<State>, steps: seq<Step>, k: nat, i: nat)
    requires IsRun(states, steps) && k < |states| && i < |states[k].serves| && states[k].serves[i].pc.Served?
    ensures Ends(states[k].serves[i]) <= states[k].shut && states[k].conns !! Ends(states[k].serves[i])
  {
    RunsKeepInv(states, steps, k);
    var s := states[k];
    assert EndsShut(s.serves[i], s.shut);
    forall c | c in s.conns ensures c !in Ends(s.serves[i]) {
      var j :| 0 <= j < |s.serves| && Holds(s.serves[j], c);
      assert ServeShape(s.serves[j]);
      assert c in Ends(s.serves[j]);
    }
  }

  /** The listener's own shutdown is never reported as the export's last error. */
  lemma ShutdownIsNotAnError(states: seq<State>, steps: seq<Step>, k: nat)
    requires IsRun(states, steps) && k < |states|
    ensures states[k].lastErr != AcceptError(true)
  {
    RunsKeepInv(states, steps, k);
  }

  // ---------------------------------------------------------------- failures

  /** This step records failure `e`: a refused dial, or an accept error before Close. */
  ghost predicate Records(s: State, step: Step, e: LastErr) {
    match step
    case ServeMoves(i, _) => i < |s.serves| && s.serves[i].pc.RecordRefusal? && e == Refusal
    case AcceptRecord => !s.closed && e == AcceptError(false)
    case _ => false
  }

  lemma RecordStep(s: State, step: Step, s': State)
    requires Inv(s) && Next(s, step, s')
    ensures forall e :: Records(s, step, e) ==> s'.lastErr == e
    ensures (forall e :: !Records(s, step, e)) ==> s'.lastErr == s.lastErr
  {
    assert step.AcceptRecord? && !s.closed ==> Records(s, step, AcceptError(false));
    assert step.ServeMoves? && s.serves[step.i].pc.RecordRefusal? ==> Records(s, step, Refusal);
  }

  ghost predicate Quiet(states: seq<State>, steps: seq<Step>, i: nat, k: nat)
    requires k <= |steps| && k <= |states|
  {
    forall j, e :: i <= j < k ==> !Records(states[j], steps[j], e)
  }

  lemma {:induction false} QuietKeepsError(states: seq<State>, steps: seq<Step>, i: nat, k: nat)
    requires IsRun(states, steps) && i <= k < |states| && Quiet(states, steps, i, k)
    ensures states[k].lastErr == states[i].lastErr
  {
    if i < k {
      var j := k - 1;
      QuietKeepsError(states, steps, i, j);
      RunsKeepInv(states, steps, j);
      assert Next(states[j], steps[j], states[j + 1]);
      RecordStep(states[j], steps[j], states[k]);
    }
  }

  /** In every run the export's last error is the latest failure: what step `j` recorded
      stands until another failure is recorded, and without one there is no error. */
  lemma LastErrorIsLatest(states: seq<State>, steps: seq<Step>, j: nat, k: nat, e: LastErr)
    requires IsRun(states, steps) && j < k < |states| && Records(states[j], steps[j], e)
    requires Quiet(states, steps, j + 1, k)
    ensures states[k].lastErr == e
  {
    RunsKeepInv(states, steps, j);
    assert Next(states[j], steps[j], states[j + 1]);
    RecordStep(states[j], steps[j], states[j + 1]);
    QuietKeepsError(states, steps, j + 1, k);
  }

  lemma {:induction false} NoErrorIffQuiet(states: seq<State>, steps: seq<Step>, k: nat)
    requires IsRun(states, steps) && k < |states|
    ensures states[k].lastErr == NoError <==> Quiet(states, steps, 0, k)
  {
    if k > 0 {
      var j := k - 1;
      NoErrorIffQuiet(states, steps, j);
      RunsKeepInv(states, steps, j);
      assert Next(states[j], steps[j], states[j + 1]);
      RecordStep(states[j], steps[j], states[k]);
      assert Quiet(states, steps, 0, k) <==>
             Quiet(states, steps, 0, j) && forall e :: !Records(states[j], steps[j], e);
    }
  }

  // -------------------------------------------------------------- undisturbed

  predicate NeedsMesh(pc: ServePc) {
    !pc.ShutLateMesh? && !pc.ShutLateLocal? && !pc.UntrackLocal? && !pc.UntrackMesh? && !pc.Served?
  }

  predicate NeedsLocal(pc: ServePc) {
    pc.TrackLocal? || pc.Copying? || pc.ShutLocal?
  }

  ghost predicate EndsOpen(sv: Serve, shut: set<nat>) {
    && (NeedsMesh(sv.pc) ==> sv.mesh !in shut)
    && (NeedsLocal(sv.pc) ==> sv.local !in shut)
  }

  ghost predicate Undisturbed(s: State) {
    !s.closed ==>
      && (forall c :: c in s.shut ==> c < s.next)
      && (forall i :: 0 <= i < |s.serves| ==> EndsOpen(s.serves[i], s.shut))
  }

  lemma ServeUndisturbed(s: State, i: nat, pc: ServePc, s': State, j: nat)
    requires Inv(s) && Undisturbed(s) && Next(s, ServeMoves(i, pc), s') && !s.closed && j < |s.serves|
    ensures EndsOpen(s'.serves[j], s'.shut)
  {
    assert EndsOpen(s.serves[j], s.shut) && ServeShape(s.serves[i]) && ServeShape(s.serves[j]);
    assert s.serves[i].mesh in Ends(s.serves[i]) && s.serves[j].mesh in Ends(s.serves[j]);
    assert forall c :: c in s'.shut ==> c in s.shut || c in Ends(s.serves[i]);
  }

  lemma UndisturbedStep(s: State, step: Step, s': State)
    requires Inv(s) && Undisturbed(s) && Next(s, step, s')
    ensures Undisturbed(s')
  {
    ShutGrows(s, step, s');
    if !s'.closed {
      ShutBelow(s, step, s');
      forall j: nat | j < |s'.serves| ensures EndsOpen(s'.serves[j], s'.shut) {
        if step.ServeMoves? {
          ServeUndisturbed(s, step.i, step.pc, s', j);
        } else if j < |s.serves| {
          assert EndsOpen(s.serves[j], s.shut);
        }
      }
    }
  }

  lemma ShutBelow(s: State, step: Step, s': State)
    requires Inv(s) && Undisturbed(s) && Next(s, step, s') && !s'.closed
    ensures forall c :: c in s'.shut ==> c < s'.next
  {
    ShutGrows(s, step, s');
    if step.ServeMoves? {
      var sv := s.serves[step.i];
      assert ServeShape(sv) && sv.mesh in Ends(sv);
    }
  }

  /** In every run, until Close is called no connection is shut under the serve that uses
      it: a copy stage still has both its ends. */
  lemma {:induction false} CopiesAreUndisturbed(states: seq<State>, steps: seq<Step>, k: nat)
    requires IsRun(states, steps) && k < |states|
    ensures Undisturbed(states[k])
    ensures forall i :: 0 <= i < |states[k].serves| && states[k].serves[i].pc.Copying? && !states[k].closed ==>
              states[k].serves[i].mesh !in states[k].shut && states[k].serves[i].local !in states[k].shut
  {
    if k > 0 {
      var i := k - 1;
      CopiesAreUndisturbed(states, steps, i);
      RunsKeepInv(states, steps, i);
      assert Next(states[i], steps[i], states[i + 1]);
      UndisturbedStep(states[i], steps[i], states[k]);
    }
  }

  // ----------------------------------------------------------------- service

  ghost predicate Comes(s: State) {
    exists states, steps :: IsRun(states, steps) && states[|steps|] == s
  }

  lemma Goes(s: State, step: Step) returns (s': State)
    requires Comes(s) && CanStep(s, step)
    ensures Comes(s') && s' == After(s, step)
  {
    s' := After(s, step);
    var states, steps :| IsRun(states, steps) && states[|steps|] == s;
    var states', steps' := states + [s'], steps + [step];
    forall k | 0 <= k < |steps'| ensures Next(states'[k], steps'[k], states'[k + 1]) {
      if k < |steps| {
        assert Next(states[k], steps[k], states[k + 1]);
      }
    }
    assert IsRun(states', steps');
  }

  /** Any number of connections can be served at once: for every n some run comes to a state
      in which n serves are copying and the exporter is accepting more. */
  lemma {:induction false} ServesAnyNumber(n: nat) returns (s: State)
    ensures Comes(s) && !s.closed && s.listening && s.accept == Accepting && |s.serves| == n
    ensures forall i :: 0 <= i < n ==> s.serves[i].pc == Copying
  {
    if n == 0 {
      s := State(false, {}, NoError, true, Accepting, [], Open, 0, {});
      assert IsRun([s], []) && [s][0] == s;
    } else {
      s := ServesAnyNumber(n - 1);
      s := Goes(s, AcceptConn);
      s := Goes(s, ServeMoves(n - 1, Dialing));
      s := Goes(s, ServeMoves(n - 1, TrackLocal));
      s := Goes(s, ServeMoves(n - 1, Copying));
    }
  }

  // ------------------------------------------------------------------ drain

  /** A goroutine that is not parked in the runtime: the accept call returns once the
      listener is closed, and a copy stage returns once both its ends are shut. */
  ghost predicate Runnable(s: State, step: Step) {
    match step
    case AcceptErr => !s.listening
    case ServeMoves(i, pc) =>
      i < |s.serves| && (s.serves[i].pc.Copying? ==> s.serves[i].mesh in s.shut && s.serves[i].local in s.shut)
    case CloseCall(_) => false
    case _ => true
  }

  function ServeRank(pc: ServePc): nat {
    match pc
    case TrackMesh => 12
    case ShutLateMesh => 11
    case Dialing => 10
    case RecordRefusal => 3
    case ShutRefused => 2
    case TrackLocal => 7
    case ShutLateLocal => 6
    case Copying => 5
    case ShutLocal => 4
    case ShutMesh => 3
    case UntrackLocal => 2
    case UntrackMesh => 1
    case Served => 0
  }

  ghost function ServesRank(serves: seq<Serve>): nat {
    if serves == [] then 0 else ServesRank(serves[..|serves| - 1]) + ServeRank(serves[|serves| - 1].pc)
  }

  function AcceptRank(pc: AcceptPc): nat {
    match pc
    case Accepting => 2
    case AcceptFailed(_) => 1
    case AcceptDone => 0
  }

  lemma {:induction false} ServesRankUpdate(serves: seq<Serve>, i: nat, sv: Serve)
    requires i < |serves|
    ensures ServesRank(serves[i := sv]) + ServeRank(serves[i].pc) == ServesRank(serves) + ServeRank(sv.pc)
  {
    var n := |serves| - 1;
    if i == n {
      assert serves[i := sv][..n] == serves[..n];
    } else {
      assert serves[i := sv][..n] == serves[..n][i := sv];
      ServesRankUpdate(serves[..n], i, sv);
    }
  }

  ghost predicate Drained(s: State) {
    s.accept.AcceptDone? && forall i :: 0 <= i < |s.serves| ==> s.serves[i].pc.Served?
  }

  lemma ServeDescends(closed: bool, sv: Serve, pc: ServePc)
    requires ServeStep(closed, sv, pc)
    ensures ServeRank(pc) < ServeRank(sv.pc)
  {
  }

  /** After Close, every step of accept or serve brings the exporter closer to empty. */
  lemma DrainDescends(s: State, step: Step, s': State)
    requires Inv(s) && s.closer.Finished? && Next(s, step, s') && Runnable(s, step)
    ensures s'.closer.Finished?
    ensures AcceptRank(s'.accept) + ServesRank(s'.serves) < AcceptRank(s.accept) + ServesRank(s.serves)
  {
    if step.ServeMoves? {
      var sv' := ServeAfter(s, s.serves[step.i], step.pc);
      assert s'.serves == s.serves[step.i := sv'] && sv'.pc == step.pc && s'.accept == s.accept;
      ServeDescends(s.closed, s.serves[step.i], step.pc);
      ServesRankUpdate(s.serves, step.i, sv');
    }
  }

  /** After Close, whatever is left can run: no goroutine is stranded. */
  lemma NobodyStranded(s: State) returns (step: Step)
    requires Inv(s) && s.closer.Finished? && !Drained(s)
    ensures CanStep(s, step) && Runnable(s, step)
  {
    if s.accept.Accepting? {
      step := AcceptErr;
    } else if s.accept.AcceptFailed? {
      step := AcceptRecord;
    } else {
      var i: nat :| i < |s.serves| && !s.serves[i].pc.Served?;
      if s.serves[i].pc.Copying? {
        CopiesAreReleased(s, i);
      }
      step := ServeMoves(i, ServeNext(s.closed, s.serves[i]));
    }
  }

  ghost function Rank(s: State): nat {
    AcceptRank(s.accept) + ServesRank(s.serves)
  }

  ghost predicate RunnableFrom(states: seq<State>, steps: seq<Step>, from: nat) {
    |states| == |steps| + 1 && forall i {:trigger steps[i]} :: from <= i < |steps| ==> Runnable(states[i], steps[i])
  }

  lemma {:induction false} DrainBound(states: seq<State>, steps: seq<Step>, from: nat, k: nat)
    requires IsRun(states, steps) && from <= k < |states| && states[from].closer.Finished?
    requires RunnableFrom(states, steps, from)
    ensures states[k].closer.Finished? && Rank(states[k]) + k - from <= Rank(states[from])
  {
    if from < k {
      var i := k - 1;
      DrainBound(states, steps, from, i);
      RunsKeepInv(states, steps, i);
      assert Next(states[i], steps[i], states[i + 1]) && Runnable(states[i], steps[i]);
      DrainDescends(states[i], steps[i], states[k]);
    }
  }

  /** The drain over whole runs: once Close has finished its loop, a run whose goroutines
      move only as the runtime lets them is bounded, and when nothing can move any more no
      goroutine is left. */
  lemma RunsDrain(states: seq<State>, steps: seq<Step>, from: nat)
    requires IsRun(states, steps) && from <= |steps| && states[from].closer.Finished?
    requires RunnableFrom(states, steps, from)
    ensures |steps| - from <= Rank(states[from])
    ensures (forall step :: CanStep(states[|steps|], step) ==> !Runnable(states[|steps|], step)) ==>
              Drained(states[|steps|])
  {
    DrainBound(states, steps, from, |steps|);
    RunsKeepInv(states, steps, |steps|);
    if !Drained(states[|steps|]) {
      var step := NobodyStranded(states[|steps|]);
      assert CanStep(states[|steps|], step) && Runnable(states[|steps|], step);
    }
  }

  function ServeNext(closed: bool, sv: Serve): (pc: ServePc)
    requires !sv.pc.Served?
    ensures ServeStep(closed, sv, pc)
  {
    match sv.pc
    case TrackMesh => if closed then ShutLateMesh else Dialing
    case ShutLateMesh => Dialing
    case Dialing => RecordRefusal
    case RecordRefusal => ShutRefused
    case ShutRefused => UntrackMesh
    case TrackLocal => if closed then ShutLateLocal else Copying
    case ShutLateLocal => Copying
    case Copying => ShutLocal
    case ShutLocal => ShutMesh
    case ShutMesh => UntrackLocal
    case UntrackLocal => UntrackMesh
    case UntrackMesh => Served
  }
}
