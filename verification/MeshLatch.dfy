/** The single-mesh latch: the first mesh activated in a process is the only one. */
module MeshLatch {

  datatype Kind = NoMesh | Tailscale | NetBird

  /** How the steps of a first activation turn out, in the order they are taken. */
  datatype Outcome =
    | BlobMissing | ExtractFails | LoadFails
    | SymbolMissing | WrongKind        // the library is loaded by now, and stays
    | Works(api: nat)

  datatype Reply = Api(api: nat) | NotBundled | OtherMeshActive | ActivationFailed

  /** `loaded` lists the libraries mapped into the process, in order. */
  datatype Latch = Latch(active: Kind, api: nat, loaded: seq<Kind>)

  const FRESH: Latch := Latch(NoMesh, 0, [])

  datatype Call = Call(kind: Kind, outcome: Outcome)

  predicate Loads(o: Outcome) {
    o.SymbolMissing? || o.WrongKind? || o.Works?
  }

  /** MeshLoader::Activate under its mutex; `bundled` are the kinds compiled in. */
  function Activated(bundled: set<Kind>, l: Latch, c: Call): (Latch, Reply) {
    if c.kind !in bundled || c.kind == NoMesh then (l, NotBundled)
    else if l.active != NoMesh then (l, if l.active == c.kind then Api(l.api) else OtherMeshActive)
    else if !Loads(c.outcome) then (l, ActivationFailed)
    else if !c.outcome.Works? then (Latch(l.active, l.api, l.loaded + [c.kind]), ActivationFailed)
    else (Latch(c.kind, c.outcome.api, l.loaded + [c.kind]), Api(c.outcome.api))
  }

  /** The latch after the first `k` of a sequence of calls. */
  function LatchAfter(bundled: set<Kind>, calls: seq<Call>, k: nat): Latch
    requires k <= |calls|
  {
    if k == 0 then FRESH else Activated(bundled, LatchAfter(bundled, calls, k - 1), calls[k - 1]).0
  }

  function ReplyTo(bundled: set<Kind>, calls: seq<Call>, k: nat): Reply
    requires k < |calls|
  {
    Activated(bundled, LatchAfter(bundled, calls, k), calls[k]).1
  }

  /** The latch changes at most once: after it is set, its kind, its API and the list of
      loaded libraries never change again. */
  lemma {:induction false} LatchHolds(bundled: set<Kind>, calls: seq<Call>, i: nat, k: nat)
    requires i <= k <= |calls| && LatchAfter(bundled, calls, i).active != NoMesh
    ensures LatchAfter(bundled, calls, k) == LatchAfter(bundled, calls, i)
  {
    if i < k {
      LatchHolds(bundled, calls, i, k - 1);
    }
  }

  /** Every success returns one and the same API, for the latched kind. */
  lemma SuccessesAgree(bundled: set<Kind>, calls: seq<Call>, i: nat, j: nat)
    requires i <= j < |calls| && ReplyTo(bundled, calls, i).Api? && ReplyTo(bundled, calls, j).Api?
    ensures ReplyTo(bundled, calls, i) == ReplyTo(bundled, calls, j) && calls[i].kind == calls[j].kind
    ensures LatchAfter(bundled, calls, j + 1).active == calls[i].kind
  {
    LatchHolds(bundled, calls, i + 1, j + 1);
    if i < j {
      LatchHolds(bundled, calls, i + 1, j);
    }
  }

  /** A successful activation of one kind shuts out the others for good. */
  lemma OthersRefused(bundled: set<Kind>, calls: seq<Call>, i: nat, j: nat)
    requires i < j < |calls| && ReplyTo(bundled, calls, i).Api? && calls[j].kind != calls[i].kind
    ensures ReplyTo(bundled, calls, j) ==
            if calls[j].kind in bundled && calls[j].kind != NoMesh then OtherMeshActive else NotBundled
  {
    LatchHolds(bundled, calls, i + 1, j);
  }

  /** And it goes on working: every later activation of the same kind returns the same API,
      whatever a fresh attempt would have come to. */
  lemma SameKindSucceedsAgain(bundled: set<Kind>, calls: seq<Call>, i: nat, j: nat)
    requires i < j < |calls| && ReplyTo(bundled, calls, i).Api? && calls[j].kind == calls[i].kind
    ensures ReplyTo(bundled, calls, j) == ReplyTo(bundled, calls, i)
  {
    LatchHolds(bundled, calls, i + 1, j);
  }

  /** The latch is open exactly until the first success. */
  lemma {:induction false} OpenIffNoSuccess(bundled: set<Kind>, calls: seq<Call>, k: nat)
    requires k <= |calls|
    ensures LatchAfter(bundled, calls, k).active == NoMesh <==>
            forall i :: 0 <= i < k ==> !ReplyTo(bundled, calls, i).Api?
  {
    if k > 0 {
      OpenIffNoSuccess(bundled, calls, k - 1);
      assert LatchAfter(bundled, calls, k).active == NoMesh <==>
             LatchAfter(bundled, calls, k - 1).active == NoMesh && !ReplyTo(bundled, calls, k - 1).Api?;
    }
  }

  /** What a call comes to while none has succeeded: a kind that is not bundled is refused,
      and one that is succeeds exactly when its own attempt works, with the API it gave. */
  lemma FirstSuccess(bundled: set<Kind>, calls: seq<Call>, k: nat)
    requires k < |calls| && forall i :: 0 <= i < k ==> !ReplyTo(bundled, calls, i).Api?
    ensures var c := calls[k];
            ReplyTo(bundled, calls, k) ==
            if c.kind == NoMesh || c.kind !in bundled then NotBundled
            else match c.outcome { case Works(api) => Api(api) case _ => ActivationFailed }
  {
    OpenIffNoSuccess(bundled, calls, k);
  }

  /** Activation k loaded a library and failed before setting the latch. */
  ghost predicate FailedAfterLoad(bundled: set<Kind>, calls: seq<Call>, k: nat)
    requires k < |calls|
  {
    ReplyTo(bundled, calls, k).ActivationFailed? && Loads(calls[k].outcome)
  }

  /** Number of activations among the first k that failed with their library loaded. */
  ghost function Strays(bundled: set<Kind>, calls: seq<Call>, k: nat): nat
    requires k <= |calls|
  {
    if k == 0 then 0
    else Strays(bundled, calls, k - 1) + if FailedAfterLoad(bundled, calls, k - 1) then 1 else 0
  }

  /** Exactly the strays and the latched library are loaded. */
  lemma {:induction false} LoadedCounts(bundled: set<Kind>, calls: seq<Call>, k: nat)
    requires k <= |calls|
    ensures |LatchAfter(bundled, calls, k).loaded|
            == Strays(bundled, calls, k) + if LatchAfter(bundled, calls, k).active == NoMesh then 0 else 1
  {
    if k > 0 {
      LoadedCounts(bundled, calls, k - 1);
    }
  }

  lemma {:induction false} StrayExists(bundled: set<Kind>, calls: seq<Call>, k: nat) returns (i: nat)
    requires k <= |calls| && Strays(bundled, calls, k) > 0
    ensures i < k && FailedAfterLoad(bundled, calls, i)
  {
    if FailedAfterLoad(bundled, calls, k - 1) {
      i := k - 1;
    } else {
      i := StrayExists(bundled, calls, k - 1);
    }
  }

  /** Two libraries, and so two kinds, are loaded only if an activation failed after its
      load step and before the latch was set. */
  lemma TwoLoadedMeansStray(bundled: set<Kind>, calls: seq<Call>, k: nat) returns (i: nat)
    requires k <= |calls| && |LatchAfter(bundled, calls, k).loaded| >= 2
    ensures i < k && FailedAfterLoad(bundled, calls, i)
    ensures LatchAfter(bundled, calls, i).active == NoMesh
  {
    LoadedCounts(bundled, calls, k);
    i := StrayExists(bundled, calls, k);
  }

  /** And it can happen: a shim that lacks a symbol stays loaded beside its successor. */
  lemma TwoKindsCanBeLoaded()
    ensures var calls := [Call(Tailscale, SymbolMissing), Call(NetBird, Works(7))];
            LatchAfter({Tailscale, NetBird}, calls, 2) == Latch(NetBird, 7, [Tailscale, NetBird])
  {
    var bundled, calls := {Tailscale, NetBird}, [Call(Tailscale, SymbolMissing), Call(NetBird, Works(7))];
    assert LatchAfter(bundled, calls, 1) == Latch(NoMesh, 0, [Tailscale]);
  }

  /** The loader with its static fields. */
  class MeshLoader {
    var active: Kind
    var api: nat
    var loaded: seq<Kind>
    const bundled: set<Kind>

    constructor (bundled: set<Kind>)
      ensures State() == FRESH && this.bundled == bundled
    {
      active, api, loaded := NoMesh, 0, [];
      this.bundled := bundled;
    }

    ghost function State(): Latch
      reads this
    {
      Latch(active, api, loaded)
    }

    method Activate(kind: Kind, outcome: Outcome) returns (r: Reply)
      modifies this
      ensures (State(), r) == Activated(bundled, old(State()), Call(kind, outcome))
    {
      if kind !in bundled || kind == NoMesh {
        return NotBundled;
      }
      if active != NoMesh {
        if active == kind {
          return Api(api);
        }
        return OtherMeshActive;
      }
      if outcome.BlobMissing? || outcome.ExtractFails? || outcome.LoadFails? {
        return ActivationFailed;
      }
      loaded := loaded + [kind];
      if outcome.SymbolMissing? || outcome.WrongKind? {
        return ActivationFailed;
      }
      api := outcome.api;
      active := kind;
      r := Api(api);
    }
  }
}
