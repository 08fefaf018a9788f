/** The Windows shim cache: any number of processes write the embedded library to a
    private temporary file and move it into a content-addressed place, and any of them
    may die at any step. `blob(k)` is the library whose hash and kind give key `k`; that
    it is a function of the key is the premise that hashes do not collide. */
module ShimCache {

  import opened Bytes

  type Blobs = nat -> seq<Byte>

  datatype Path = Final(key: nat) | Temp(key: nat, pid: nat)

  const CHUNK: nat := 0x10_0000

  /** Program counter of ExtractShim in one process. */
  datatype Pc =
    | Probe | Create | Write(written: nat) | Recheck | Discard(ok: bool) | CleanUp
    | Returned | Threw

  datatype Proc = Proc(key: nat, pc: Pc)

  datatype State = State(files: map<Path, seq<Byte>>, procs: map<nat, Proc>)

  datatype Step =
    | Start(pid: nat, key: nat)
    | Crash(pid: nat)
    | Look(pid: nat)
    | Make(pid: nat, made: bool)
    | Append(pid: nat, got: nat)      // got == 0: WriteFile failed
    | Publish(pid: nat, moved: bool)
    | LookAgain(pid: nat)
    | Remove(pid: nat)

  /** The test GetFileAttributesEx allows: right size, contents unseen. */
  predicate SizeFits(blob: Blobs, s: State, key: nat) {
    Final(key) in s.files && |s.files[Final(key)]| == |blob(key)|
  }

  predicate At(s: State, pid: nat, pc: Pc) {
    pid in s.procs && s.procs[pid].pc == pc
  }

  ghost predicate CanStep(blob: Blobs, s: State, step: Step) {
    match step
    case Start(pid, _) => pid in s.procs ==> s.procs[pid].pc.Returned? || s.procs[pid].pc.Threw?
    case Crash(pid) => pid in s.procs
    case Look(pid) => At(s, pid, Probe)
    case Make(pid, _) => At(s, pid, Create)
    case Append(pid, got) =>
      && pid in s.procs && s.procs[pid].pc.Write?
      && var left := |blob(s.procs[pid].key)| - s.procs[pid].pc.written;
         0 < left && got <= left && got <= CHUNK && Temp(s.procs[pid].key, pid) in s.files
    case Publish(pid, moved) =>
      && pid in s.procs && s.procs[pid].pc.Write?
      && s.procs[pid].pc.written >= |blob(s.procs[pid].key)|
      && (moved ==> Temp(s.procs[pid].key, pid) in s.files)
    case LookAgain(pid) => At(s, pid, Recheck)
    case Remove(pid) => pid in s.procs && (s.procs[pid].pc.Discard? || s.procs[pid].pc.CleanUp?)
  }

  function Goes(s: State, pid: nat, pc: Pc): map<nat, Proc>
    requires pid in s.procs
  {
    s.procs[pid := Proc(s.procs[pid].key, pc)]
  }

  ghost function After(blob: Blobs, s: State, step: Step): State
    requires CanStep(blob, s, step)
  {
    match step
    case Start(pid, key) => State(s.files, s.procs[pid := Proc(key, Probe)])
    case Crash(pid) => State(s.files, s.procs - {pid})
    case Look(pid) => State(s.files, Goes(s, pid, if SizeFits(blob, s, s.procs[pid].key) then Returned else Create))
    case Make(pid, made) =>
      if made then State(s.files[Temp(s.procs[pid].key, pid) := []], Goes(s, pid, Write(0)))
      else State(s.files, Goes(s, pid, Threw))
    case Append(pid, got) =>
      var k, w := s.procs[pid].key, s.procs[pid].pc.written;
      if got == 0 then State(s.files, Goes(s, pid, CleanUp))
      else State(s.files[Temp(k, pid) := s.files[Temp(k, pid)] + blob(k)[w..w + got]], Goes(s, pid, Write(w + got)))
    case Publish(pid, moved) =>
      var k := s.procs[pid].key;
      if moved
      then State((s.files - {Temp(k, pid)})[Final(k) := s.files[Temp(k, pid)]], Goes(s, pid, Returned))
      else State(s.files, Goes(s, pid, Recheck))
    case LookAgain(pid) => State(s.files, Goes(s, pid, Discard(SizeFits(blob, s, s.procs[pid].key))))
    case Remove(pid) =>
      State(s.files - {Temp(s.procs[pid].key, pid)},
            Goes(s, pid, if s.procs[pid].pc == Discard(true) then Returned else Threw))
  }

  ghost predicate Next(blob: Blobs, s: State, step: Step, s': State) {
    CanStep(blob, s, step) && s' == After(blob, s, step)
  }

  /** A run from `s`, with no process inside ExtractShim yet. */
  ghost predicate RunFrom(blob: Blobs, s: State, states: seq<State>, steps: seq<Step>) {
    && |states| == |steps| + 1 && states[0] == s && s.procs == map[]
    && forall k :: 0 <= k < |steps| ==> Next(blob, states[k], steps[k], states[k + 1])
  }

  // -------------------------------------------------------------- invariant

  ghost predicate Complete(blob: Blobs, s: State, key: nat) {
    Final(key) in s.files && s.files[Final(key)] == blob(key)
  }

  /** No published file has the right size and the wrong contents. */
  ghost predicate Sound(blob: Blobs, s: State) {
    forall k: nat :: SizeFits(blob, s, k) ==> Complete(blob, s, k)
  }

  ghost predicate AbsentOrComplete(blob: Blobs, s: State) {
    forall k: nat :: Final(k) in s.files ==> Complete(blob, s, k)
  }

  /** A process's temporary file holds exactly what the process has written. */
  ghost predicate TempsMatch(blob: Blobs, s: State) {
    forall p :: p in s.procs && s.procs[p].pc.Write? ==>
      && s.procs[p].pc.written <= |blob(s.procs[p].key)|
      && Temp(s.procs[p].key, p) in s.files
      && s.files[Temp(s.procs[p].key, p)] == blob(s.procs[p].key)[..s.procs[p].pc.written]
  }

  /** Whoever has a path, or is about to get one, has a complete file behind it. */
  ghost predicate PathsGood(blob: Blobs, s: State) {
    forall p :: p in s.procs && (s.procs[p].pc.Returned? || s.procs[p].pc == Discard(true)) ==>
      Complete(blob, s, s.procs[p].key)
  }

  ghost predicate Inv(blob: Blobs, s: State) {
    Sound(blob, s) && TempsMatch(blob, s) && PathsGood(blob, s)
  }

  lemma TempsPreserved(blob: Blobs, s: State, step: Step, s': State)
    requires TempsMatch(blob, s) && Next(blob, s, step, s')
    ensures TempsMatch(blob, s')
  {
    if step.Append? {
      var k, w := s.procs[step.pid].key, s.procs[step.pid].pc.written;
      assert blob(k)[..w] + blob(k)[w..w + step.got] == blob(k)[..w + step.got];
    }
  }

  /** A published file changes only by being replaced with a complete one. */
  lemma FinalsChange(blob: Blobs, s: State, step: Step, s': State, k: nat)
    requires TempsMatch(blob, s) && Next(blob, s, step, s')
    ensures !Complete(blob, s', k) ==>
              && (Final(k) in s'.files <==> Final(k) in s.files)
              && (Final(k) in s.files ==> s'.files[Final(k)] == s.files[Final(k)])
  {
    if step.Publish? && step.moved && s.procs[step.pid].key == k {
      assert blob(k)[..|blob(k)|] == blob(k);
    }
  }

  lemma InvPreserved(blob: Blobs, s: State, step: Step, s': State)
    requires Inv(blob, s) && Next(blob, s, step, s')
    ensures Inv(blob, s')
    ensures AbsentOrComplete(blob, s) ==> AbsentOrComplete(blob, s')
  {
    TempsPreserved(blob, s, step, s');
    forall k: nat
      ensures SizeFits(blob, s', k) ==> Complete(blob, s', k)
      ensures Complete(blob, s, k) ==> Complete(blob, s', k)
      ensures AbsentOrComplete(blob, s) && Final(k) in s'.files ==> Complete(blob, s', k)
    {
      FinalsChange(blob, s, step, s', k);
      assert SizeFits(blob, s, k) ==> Complete(blob, s, k);
    }
    forall p | p in s'.procs && (s'.procs[p].pc.Returned? || s'.procs[p].pc == Discard(true))
      ensures Complete(blob, s', s'.procs[p].key)
    {
      var k := s'.procs[p].key;
      assert SizeFits(blob, s, k) ==> Complete(blob, s, k);
      if step.Publish? && step.pid == p {
        assert blob(k)[..|blob(k)|] == blob(k);
      }
    }
  }

  lemma {:induction false} RunsKeepInv(blob: Blobs, s: State, states: seq<State>, steps: seq<Step>, k: nat)
    requires RunFrom(blob, s, states, steps) && Sound(blob, s) && k < |states|
    ensures Inv(blob, states[k])
    ensures AbsentOrComplete(blob, s) ==> AbsentOrComplete(blob, states[k])
  {
    if k > 0 {
      var i := k - 1;
      RunsKeepInv(blob, s, states, steps, i);
      assert Next(blob, states[i], steps[i], states[i + 1]);
      InvPreserved(blob, states[i], steps[i], states[k]);
    }
  }

  // --------------------------------------------------------------- theorems

  /** Started from absent-or-complete files, no process and no crash ever leaves a
      half-written library at a published path. */
  lemma NeverHalfWritten(blob: Blobs, s: State, states: seq<State>, steps: seq<Step>, k: nat, key: nat)
    requires RunFrom(blob, s, states, steps) && AbsentOrComplete(blob, s) && k < |states|
    ensures Final(key) in states[k].files ==> states[k].files[Final(key)] == blob(key)
  {
    RunsKeepInv(blob, s, states, steps, k);
  }

  /** Every process that has returned holds a path to the complete library. */
  ghost predicate ReturnsGood(blob: Blobs, states: seq<State>) {
    forall k, p :: 0 <= k < |states| && p in states[k].procs && states[k].procs[p].pc.Returned? ==>
      Complete(blob, states[k], states[k].procs[p].key)
  }

  lemma CorruptEntryIsReturned(blob: Blobs, s: State, key: nat) returns (states: seq<State>, steps: seq<Step>)
    requires s.procs == map[] && SizeFits(blob, s, key) && !Complete(blob, s, key)
    ensures RunFrom(blob, s, states, steps) && !ReturnsGood(blob, states)
  {
    var s1 := After(blob, s, Start(0, key));
    var s2 := After(blob, s1, Look(0));
    states, steps := [s, s1, s2], [Start(0, key), Look(0)];
    assert states[2].procs[0].pc.Returned?;
  }

  /** The protocol is exactly as good as the cache it starts from: every path ever
      returned, in every run and also to a process that lost the rename race, names a
      complete library if and only if no file already in the cache has the right size
      with the wrong contents. */
  lemma PathsAreCompleteIffSound(blob: Blobs, s: State)
    requires s.procs == map[]
    ensures Sound(blob, s) <==>
            forall states, steps :: RunFrom(blob, s, states, steps) ==> ReturnsGood(blob, states)
  {
    if Sound(blob, s) {
      forall states, steps | RunFrom(blob, s, states, steps) ensures ReturnsGood(blob, states) {
        forall k: nat | k < |states| ensures Inv(blob, states[k]) {
          RunsKeepInv(blob, s, states, steps, k);
        }
      }
    } else {
      var key: nat :| SizeFits(blob, s, key) && !Complete(blob, s, key);
      var states, steps := CorruptEntryIsReturned(blob, s, key);
    }
  }

  // ------------------------------------------------------------ what a call does

  /** Step `m` starts a call of process `pid`, and nothing before `k` restarts or kills it. */
  ghost predicate CalledUntil(
    blob: Blobs, s: State, states: seq<State>, steps: seq<Step>, m: nat, k: nat, pid: nat, key: nat)
  {
    && RunFrom(blob, s, states, steps) && m < k < |states| && steps[m] == Start(pid, key)
    && forall i :: m < i < k ==> !Resets(steps[i], pid)
  }

  predicate Resets(step: Step, pid: nat) {
    (step.Start? || step.Crash?) && step.pid == pid
  }

  /** What alone can make a call of `pid` fail: no temporary file, a failed write, or a lost
      rename with no file of the right size there instead. */
  ghost predicate Fails(blob: Blobs, s: State, step: Step, pid: nat, key: nat) {
    step == Make(pid, false) || step == Append(pid, 0) || (step == LookAgain(pid) && !SizeFits(blob, s, key))
  }

  predicate HasFailed(pc: Pc) {
    pc.Threw? || pc.CleanUp? || pc == Discard(false)
  }

  lemma CallStep(blob: Blobs, s: State, step: Step, s': State, pid: nat, key: nat)
    requires Next(blob, s, step, s') && !Resets(step, pid) && pid in s.procs && s.procs[pid].key == key
    ensures pid in s'.procs && s'.procs[pid].key == key
    ensures HasFailed(s'.procs[pid].pc) <==> HasFailed(s.procs[pid].pc) || Fails(blob, s, step, pid, key)
    ensures s.procs[pid].pc.Returned? ==> s'.procs[pid].pc.Returned?
  {
  }

  lemma {:induction false} FailsForCause(
    blob: Blobs, s: State, states: seq<State>, steps: seq<Step>, m: nat, k: nat, pid: nat, key: nat)
    requires CalledUntil(blob, s, states, steps, m, k, pid, key)
    ensures pid in states[k].procs && states[k].procs[pid].key == key
    ensures HasFailed(states[k].procs[pid].pc) <==>
            exists i :: m < i < k && Fails(blob, states[i], steps[i], pid, key)
  {
    var j := k - 1;
    assert Next(blob, states[j], steps[j], states[j + 1]);
    if m < j {
      FailsForCause(blob, s, states, steps, m, j, pid, key);
      CallStep(blob, states[j], steps[j], states[k], pid, key);
    }
  }

  /** Over every run, a finished call has thrown exactly when one of its own steps failed.
      So a process that lost the rename to a complete file returns that file's path. */
  lemma ThrowsIffStepFailed(
    blob: Blobs, s: State, states: seq<State>, steps: seq<Step>, m: nat, k: nat, pid: nat, key: nat)
    requires CalledUntil(blob, s, states, steps, m, k, pid, key)
    requires pid in states[k].procs && (states[k].procs[pid].pc.Returned? || states[k].procs[pid].pc.Threw?)
    ensures states[k].procs[pid].pc.Threw? <==>
            exists i :: m < i < k && Fails(blob, states[i], steps[i], pid, key)
  {
    FailsForCause(blob, s, states, steps, m, k, pid, key);
  }

  lemma {:induction false} ReturnedStays(
    blob: Blobs, s: State, states: seq<State>, steps: seq<Step>, i: nat, k: nat, pid: nat)
    requires RunFrom(blob, s, states, steps) && i <= k < |states| && At(states[i], pid, Returned)
    requires forall j :: i <= j < k ==> !Resets(steps[j], pid)
    ensures At(states[k], pid, Returned)
  {
    if i < k {
      var j := k - 1;
      ReturnedStays(blob, s, states, steps, i, j, pid);
      assert Next(blob, states[j], steps[j], states[j + 1]);
      CallStep(blob, states[j], steps[j], states[k], pid, states[j].procs[pid].key);
    }
  }

  /** A cached library is used as it is: a call whose probe finds the right size writes
      nothing and returns, whatever else happens; any other call goes on to write. */
  lemma HitReturnsAtOnce(
    blob: Blobs, s: State, states: seq<State>, steps: seq<Step>, m: nat, i: nat, k: nat, pid: nat, key: nat)
    requires CalledUntil(blob, s, states, steps, m, k, pid, key) && m < i < k && steps[i] == Look(pid)
    ensures states[i + 1].files == states[i].files
    ensures if SizeFits(blob, states[i], key) then At(states[k], pid, Returned) else At(states[i + 1], pid, Create)
  {
    FailsForCause(blob, s, states, steps, m, i, pid, key);
    assert Next(blob, states[i], steps[i], states[i + 1]);
    if SizeFits(blob, states[i], key) {
      ReturnedStays(blob, s, states, steps, i + 1, k, pid);
    }
  }

  predicate HasTemp(pc: Pc) {
    pc.Write? || pc.Recheck? || pc.Discard? || pc.CleanUp?
  }

  ghost predicate TempOrGone(s: State, pid: nat, key: nat) {
    && pid in s.procs && s.procs[pid].key == key && !s.procs[pid].pc.Probe? && !s.procs[pid].pc.Create?
    && (HasTemp(s.procs[pid].pc) || Temp(key, pid) !in s.files)
  }

  lemma TempStep(blob: Blobs, s: State, step: Step, s': State, pid: nat, key: nat)
    requires Next(blob, s, step, s') && !Resets(step, pid) && TempOrGone(s, pid, key)
    ensures TempOrGone(s', pid, key)
  {
  }

  /** A call that made a temporary file and has finished, either way, has left none. */
  lemma {:induction false} LeavesNoTemp(
    blob: Blobs, s: State, states: seq<State>, steps: seq<Step>, m: nat, i: nat, k: nat, pid: nat, key: nat)
    requires CalledUntil(blob, s, states, steps, m, k, pid, key) && m < i < k && steps[i] == Make(pid, true)
    ensures TempOrGone(states[k], pid, key)
    ensures states[k].procs[pid].pc.Returned? || states[k].procs[pid].pc.Threw? ==> Temp(key, pid) !in states[k].files
  {
    var j := k - 1;
    assert Next(blob, states[j], steps[j], states[j + 1]);
    FailsForCause(blob, s, states, steps, m, j, pid, key);
    if i < j {
      LeavesNoTemp(blob, s, states, steps, m, i, j, pid, key);
      TempStep(blob, states[j], steps[j], states[k], pid, key);
    }
  }

  ghost predicate Comes(blob: Blobs, s: State, t: State) {
    exists states, steps :: RunFrom(blob, s, states, steps) && states[|steps|] == t
  }

  lemma Moves(blob: Blobs, s: State, t: State, step: Step) returns (t': State)
    requires Comes(blob, s, t) && CanStep(blob, t, step)
    ensures Comes(blob, s, t') && t' == After(blob, t, step)
  {
    t' := After(blob, t, step);
    var states, steps :| RunFrom(blob, s, states, steps) && states[|steps|] == t;
    var states', steps' := states + [t'], steps + [step];
    forall k | 0 <= k < |steps'| ensures Next(blob, states'[k], steps'[k], states'[k + 1]) {
      if k < |steps| {
        assert Next(blob, states[k], steps[k], states[k + 1]);
      }
    }
    assert RunFrom(blob, s, states', steps');
  }

  lemma {:induction false} WritesAll(blob: Blobs, s: State, t: State, pid: nat, key: nat, w: nat) returns (t': State)
    requires Comes(blob, s, t) && w <= |blob(key)|
    requires pid in t.procs && t.procs[pid] == Proc(key, Write(w))
    requires Temp(key, pid) in t.files && t.files[Temp(key, pid)] == blob(key)[..w]
    ensures Comes(blob, s, t')
    ensures pid in t'.procs && t'.procs[pid] == Proc(key, Write(|blob(key)|))
    ensures Temp(key, pid) in t'.files && t'.files[Temp(key, pid)] == blob(key)
    decreases |blob(key)| - w
  {
    t' := t;
    if w < |blob(key)| {
      var left := |blob(key)| - w;
      var got := if left > CHUNK then CHUNK else left;
      t' := Moves(blob, s, t, Append(pid, got));
      assert blob(key)[..w] + blob(key)[w..w + got] == blob(key)[..w + got];
      t' := WritesAll(blob, s, t', pid, key, w + got);
    } else {
      assert blob(key)[..w] == blob(key);
    }
  }

  /** And it can be done: from every cache, whatever a crash left in it, some run of one
      process has it return with the complete library published, if its file is not taken
      for a cached one already. */
  lemma PublishesAlone(blob: Blobs, s: State, pid: nat, key: nat) returns (t: State)
    requires s.procs == map[] && !SizeFits(blob, s, key)
    ensures Comes(blob, s, t) && At(t, pid, Returned) && Complete(blob, t, key)
  {
    t := s;
    assert RunFrom(blob, s, [s], []) && [s][0] == s;
    t := Moves(blob, s, t, Start(pid, key));
    t := Moves(blob, s, t, Look(pid));
    t := Moves(blob, s, t, Make(pid, true));
    t := WritesAll(blob, s, t, pid, key, 0);
    t := Moves(blob, s, t, Publish(pid, true));
  }

  // ------------------------------------------------------- the write loop

  /** An open temporary file. `results` scripts what each WriteFile accepts; an entry of
      0, or the end of the script, is a failed write, which `failed` remembers. */
  class TempFile {
    var content: seq<Byte>
    var results: seq<nat>
    ghost var failed: bool

    constructor (results: seq<nat>)
      ensures content == [] && this.results == results && !failed
    {
      content, this.results, failed := [], results, false;
    }

    method WriteFile(blob: array<Byte>, from: nat, count: nat) returns (got: nat)
      requires from + count <= blob.Length
      modifies this
      ensures got <= count && content == old(content) + blob[from..from + got]
      ensures failed == (old(failed) || got == 0)
    {
      if results == [] {
        got := 0;
      } else {
        got := if results[0] <= count then results[0] else count;
        results := results[1..];
      }
      content := content + blob[from..from + got];
      failed := failed || got == 0;
    }
  }

  /** The chunked loop: true exactly when the whole blob is in the file, and exactly when no
      write failed; on failure what is there is a proper prefix. */
  method WriteBlob(fh: TempFile, blob: array<Byte>) returns (ok: bool)
    requires fh.content == [] && !fh.failed
    modifies fh
    ensures fh.content <= blob[..]
    ensures ok <==> fh.content == blob[..]
    ensures ok <==> !fh.failed
  {
    var written := 0;
    ok := true;
    while written < blob.Length
      invariant written <= blob.Length && fh.content == blob[..written] && !fh.failed
    {
      var chunk := if blob.Length - written > CHUNK then CHUNK else blob.Length - written;
      var got := fh.WriteFile(blob, written, chunk);
      if got == 0 {
        assert |fh.content| < blob.Length;
        return false;
      }
      written := written + got;
    }
  }
}
