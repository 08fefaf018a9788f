/** The manager's map and id counter, changed in place. Every critical section is proved to
    be a step, or a stretch of steps, of the concurrent model of its callers. */
module TunnelManagement {
  import R = TunnelRegistry

  /** A stretch of steps that operation `op` takes alone, as it does under the lock. */
  ghost predicate Alone(op: nat, states: seq<R.State>, steps: seq<R.Step>) {
    && |states| == |steps| + 1
    && forall k :: 0 <= k < |steps| ==>
         steps[k].Moves? && steps[k].op == op && R.Next(states[k], steps[k], states[k + 1])
  }

  lemma AlonePrepends(op: nat, s: R.State, step: R.Step, states: seq<R.State>, steps: seq<R.Step>)
    requires Alone(op, states, steps) && step.Moves? && step.op == op && R.Next(s, step, states[0])
    ensures Alone(op, [s] + states, [step] + steps)
  {
    var states', steps' := [s] + states, [step] + steps;
    forall k | 0 <= k < |steps'|
      ensures steps'[k].Moves? && steps'[k].op == op && R.Next(states'[k], steps'[k], states'[k + 1])
    {
      assert k > 0 ==> steps'[k] == steps[k - 1] && states'[k] == states[k - 1] && states'[k + 1] == states[k];
    }
  }

  /** One turn of the erase loop as a step: the entry `id` is kept or taken. */
  function ScanTurn(op: nat, left: set<int>, hs: seq<nat>, id: int, h: nat, take: bool): R.Step {
    R.Moves(op, R.Scan(left - {id}, if take then hs + [h] else hs), id, [])
  }

  lemma ScanTurnIsStep(s: R.State, op: nat, left: set<int>, hs: seq<nat>, id: int, take: bool)
    requires op < |s.ops| && s.ops[op] == R.Scan(left, hs) && id in left && id in s.tunnels
    ensures var step := ScanTurn(op, left, hs, id, s.tunnels[id], take);
            && R.CanStep(s, step)
            && R.After(s, step).tunnels == (if take then s.tunnels - {id} else s.tunnels)
            && R.After(s, step).ops == s.ops[op := step.pc]
            && R.After(s, step).nextId == s.nextId
  {
    assert left != {};
    assert s.tunnels - {} == s.tunnels;
  }

  lemma ListsDomain(order: seq<int>, m: map<int, nat>)
    requires R.Listing(order, m)
    ensures forall k :: 0 <= k < |order| ==> order[k] in m
  {
    forall k | 0 <= k < |order| ensures order[k] in m {
      assert order[k] in order;
    }
  }

  /** `now` is `was` without the inactive entries among `gone`. */
  ghost predicate Cleaned(was: map<int, nat>, now: map<int, nat>, gone: seq<int>, active: set<nat>) {
    && (forall id :: id in now <==> id in was && (id in gone ==> was[id] in active))
    && (forall id :: id in now ==> now[id] == was[id])
  }

  lemma CleanedIsUnique(was: map<int, nat>, a: map<int, nat>, b: map<int, nat>, gone: seq<int>, active: set<nat>)
    requires Cleaned(was, a, gone, active) && Cleaned(was, b, gone, active)
    ensures a == b
  {
    assert forall id :: id in a <==> id in b;
    assert forall id :: id in a ==> a[id] == b[id];
  }

  /** `order` lists `left` and all of it is registered. */
  ghost predicate Lists(order: seq<int>, left: set<int>, tunnels: map<int, nat>) {
    && (forall k :: 0 <= k < |order| ==> order[k] in left && order[k] in tunnels)
    && (forall id :: id in left ==> id in order)
    && (forall j, k :: 0 <= j < k < |order| ==> order[j] != order[k])
  }

  lemma ListsTail(order: seq<int>, left: set<int>, tunnels: map<int, nat>, tunnels': map<int, nat>)
    requires Lists(order, left, tunnels) && order != []
    requires tunnels' == tunnels || tunnels' == tunnels - {order[0]}
    ensures Lists(order[1..], left - {order[0]}, tunnels')
  {
    forall id | id in left - {order[0]} ensures id in order[1..] {
      assert order == [order[0]] + order[1..];
      assert id in order;
    }
  }

  lemma {:induction false} SameInactive(m: map<int, nat>, m': map<int, nat>, order: seq<int>, active: set<nat>)
    requires forall k :: 0 <= k < |order| ==> order[k] in m && order[k] in m' && m[order[k]] == m'[order[k]]
    ensures Inactive(m, order, active) == Inactive(m', order, active)
  {
    if order != [] {
      SameInactive(m, m', order[1..], active);
    }
  }

  lemma CleanedPrepends(
    was: map<int, nat>, mid: map<int, nat>, now: map<int, nat>, order: seq<int>, active: set<nat>)
    requires order != [] && order[0] in was && Cleaned(mid, now, order[1..], active)
    requires mid == if was[order[0]] in active then was else was - {order[0]}
    ensures Cleaned(was, now, order, active)
  {
    assert order == [order[0]] + order[1..];
  }

  /** From a state that is scanning, a stretch of steps to the state where the inactive
      handles are in the hands of `op` and out of the map. */
  ghost predicate Scans(
    s: R.State, op: nat, hs: seq<nat>, order: seq<int>, active: set<nat>, states: seq<R.State>, steps: seq<R.Step>)
    requires forall k :: 0 <= k < |order| ==> order[k] in s.tunnels
  {
    && Alone(op, states, steps) && states[0] == s
    && var last := states[|steps|];
       && op < |last.ops| && last.ops[op] == R.Unlock(hs + Inactive(s.tunnels, order, active), R.Void)
       && last.nextId == s.nextId && Cleaned(s.tunnels, last.tunnels, order, active)
  }

  lemma ScanEnds(s: R.State, op: nat, left: set<int>, hs: seq<nat>, active: set<nat>)
    returns (states: seq<R.State>, steps: seq<R.Step>)
    requires op < |s.ops| && s.ops[op] == R.Scan(left, hs) && Lists([], left, s.tunnels)
    ensures Scans(s, op, hs, [], active, states, steps)
  {
    var none: seq<int> := [];
    assert forall id :: id in left ==> id in none;
    var step := FinishScan(s, op, left, hs);
    states, steps := [s, R.After(s, step)], [step];
    assert hs + Inactive(s.tunnels, [], active) == hs;
  }

  lemma ScanPrepends(
    s: R.State, step: R.Step, s': R.State, op: nat, hs: seq<nat>, order: seq<int>, active: set<nat>,
    rest: seq<R.State>, moves: seq<R.Step>)
    requires order != [] && forall k :: 0 <= k < |order| ==> order[k] in s.tunnels
    requires forall k :: 0 <= k < |order[1..]| ==> order[1..][k] in s'.tunnels && order[1..][k] != order[0]
    requires step.Moves? && step.op == op && R.Next(s, step, s') && s'.nextId == s.nextId
    requires s'.tunnels == if s.tunnels[order[0]] in active then s.tunnels else s.tunnels - {order[0]}
    requires Scans(s', op, if s.tunnels[order[0]] in active then hs else hs + [s.tunnels[order[0]]], order[1..], active,
                   rest, moves)
    ensures Scans(s, op, hs, order, active, [s] + rest, [step] + moves)
  {
    AlonePrepends(op, s, step, rest, moves);
    SameInactive(s.tunnels, s'.tunnels, order[1..], active);
    CleanedPrepends(s.tunnels, s'.tunnels, rest[|moves|].tunnels, order, active);
    assert ([s] + rest)[|moves| + 1] == rest[|moves|];
  }

  /** The whole scan, entry by entry in any order, is such a stretch. */
  lemma {:induction false} ScanRuns(
    s: R.State, op: nat, left: set<int>, hs: seq<nat>, order: seq<int>, active: set<nat>)
    returns (states: seq<R.State>, steps: seq<R.Step>)
    requires op < |s.ops| && s.ops[op] == R.Scan(left, hs) && Lists(order, left, s.tunnels)
    ensures Scans(s, op, hs, order, active, states, steps)
    decreases |order|
  {
    if order == [] {
      states, steps := ScanEnds(s, op, left, hs, active);
    } else {
      var id, h := order[0], s.tunnels[order[0]];
      ScanTurnIsStep(s, op, left, hs, id, h !in active);
      var step := ScanTurn(op, left, hs, id, h, h !in active);
      var s' := R.After(s, step);
      ListsTail(order, left, s.tunnels, s'.tunnels);
      var rest, moves := ScanRuns(s', op, left - {id}, if h in active then hs else hs + [h], order[1..], active);
      ScanPrepends(s, step, s', op, hs, order, active, rest, moves);
      states, steps := [s] + rest, [step] + moves;
    }
  }

  class TunnelManager {
    var tunnels: map<int, nat>
    var nextId: int
    ghost var model: R.State

    constructor ()
      ensures Agrees() && R.Init(model)
    {
      tunnels, nextId := map[], 1;
      model := R.State(1, map[], R.FREE, [], [], []);
    }

    ghost predicate Agrees()
      reads this
    {
      tunnels == model.tunnels && nextId == model.nextId
    }

    /** A step of some caller that leaves the manager's fields alone: a new call, a lock, a
        start, a close. Between the critical sections the model moves by such steps. */
    ghost method Elsewhere(step: R.Step)
      requires Agrees() && R.CanStep(model, step)
      requires R.After(model, step).tunnels == tunnels && R.After(model, step).nextId == nextId
      modifies this`model
      ensures Agrees() && R.Next(old(model), step, model)
    {
      model := R.After(model, step);
    }

    /** Draws the id of create `op`. */
    method GenerateTunnelId(ghost op: nat) returns (id: int)
      requires Agrees() && op < |model.ops| && model.ops[op] == R.Create
      modifies this
      ensures Agrees() && R.Next(old(model), R.Moves(op, R.Starting(id), 0, []), model)
    {
      id := nextId;
      nextId := nextId + 1;
      assert model.tunnels - {} == model.tunnels;
      model := R.After(model, R.Moves(op, R.Starting(id), 0, []));
    }

    /** The insert of create `op`. */
    method Register(ghost op: nat, id: int, h: nat)
      requires Agrees() && op < |model.ops| && model.ops[op] == R.Insert(id, h)
      modifies this
      ensures Agrees() && R.Next(old(model), R.Moves(op, R.Unlock([], R.Created(id)), 0, []), model)
    {
      tunnels := tunnels[id := h];
      model := R.After(model, R.Moves(op, R.Unlock([], R.Created(id)), 0, []));
    }

    /** The lookup of CloseTunnel: the handle leaves the map before anybody closes it. */
    method TakeOne(ghost op: nat, id: int) returns (found: bool, h: nat)
      requires Agrees() && op < |model.ops| && model.ops[op] == R.Find(id)
      modifies this
      ensures Agrees()
      ensures var pc := if found then R.Unlock([h], R.Found(id)) else R.Unlock([], R.Missing);
              R.Next(old(model), R.Moves(op, pc, 0, []), model)
    {
      found := id in tunnels;
      h := if found then tunnels[id] else 0;
      ghost var pc := if found then R.Unlock([h], R.Found(id)) else R.Unlock([], R.Missing);
      assert !found ==> tunnels - {id} == tunnels - {} == tunnels;
      tunnels := tunnels - {id};
      model := R.After(model, R.Moves(op, pc, 0, []));
    }

    /** The copy loop of CloseAllTunnels, walking the map in its own `order`. */
    method TakeAll(ghost op: nat, order: seq<int>) returns (toClose: seq<nat>)
      requires Agrees() && op < |model.ops| && model.ops[op] == R.Take && R.Listing(order, tunnels)
      modifies this
      ensures Agrees() && tunnels == map[]
      ensures R.Next(old(model), R.Moves(op, R.Unlock(toClose, R.Void), 0, order), model)
    {
      toClose := [];
      ListsDomain(order, tunnels);
      for i := 0 to |order|
        invariant R.Picks(tunnels, order[..i], toClose)
        invariant tunnels == old(tunnels) && model == old(model) && nextId == old(nextId)
      {
        toClose := toClose + [tunnels[order[i]]];
      }
      assert order[..|order|] == order;
      assert tunnels - tunnels.Keys == map[];
      tunnels := map[];
      model := R.After(model, R.Moves(op, R.Unlock(toClose, R.Void), 0, order));
    }

    /** The erase loop of CleanupInactiveTunnels, walking the map in its own `order`: what
        stays is exactly the active part, and to_close lists the handles of the erased
        entries, one per entry, in that order. The loop is a stretch of scan steps. */
    method TakeInactive(ghost op: nat, order: seq<int>, active: set<nat>)
      returns (toClose: seq<nat>, ghost states: seq<R.State>, ghost steps: seq<R.Step>)
      requires Agrees() && op < |model.ops| && model.ops[op] == R.Scan(tunnels.Keys, []) && R.Listing(order, tunnels)
      modifies this
      ensures Agrees() && op < |model.ops| && model.ops[op] == R.Unlock(toClose, R.Void)
      ensures Alone(op, states, steps) && states[0] == old(model) && states[|steps|] == model
      ensures forall id :: id in tunnels <==> id in old(tunnels) && old(tunnels)[id] in active
      ensures forall id :: id in tunnels ==> tunnels[id] == old(tunnels)[id]
      ensures Lists(order, old(tunnels.Keys), old(tunnels)) && toClose == Inactive(old(tunnels), order, active)
    {
      ListsDomain(order, tunnels);
      states, steps := ScanRuns(model, op, tunnels.Keys, [], order, active);
      toClose := EraseInactive(order, active);
      CleanedIsUnique(old(tunnels), tunnels, states[|steps|].tunnels, order, active);
      model := states[|steps|];
    }

    method EraseInactive(order: seq<int>, active: set<nat>) returns (toClose: seq<nat>)
      requires Lists(order, tunnels.Keys, tunnels)
      modifies this`tunnels
      ensures Cleaned(old(tunnels), tunnels, order, active)
      ensures toClose == Inactive(old(tunnels), order, active)
    {
      toClose := [];
      assert order[0..] == order;
      for i := 0 to |order|
        invariant Cleaned(old(tunnels), tunnels, order[..i], active)
        invariant toClose + Inactive(old(tunnels), order[i..], active) == Inactive(old(tunnels), order, active)
      {
        EraseTurn(old(tunnels), tunnels, order, i, active);
        if tunnels[order[i]] !in active {
          toClose := toClose + [tunnels[order[i]]];
          tunnels := tunnels - {order[i]};
        }
      }
      assert order[..|order|] == order;
    }
  }

  /** One turn of the erase loop. */
  lemma EraseTurn(was: map<int, nat>, now: map<int, nat>, order: seq<int>, i: nat, active: set<nat>)
    requires i < |order| && Lists(order, was.Keys, was) && Cleaned(was, now, order[..i], active)
    ensures order[i] in now && now[order[i]] == was[order[i]]
    ensures Cleaned(was, if was[order[i]] in active then now else now - {order[i]}, order[..i + 1], active)
    ensures Inactive(was, order[i..], active)
         == (if was[order[i]] in active then [] else [was[order[i]]]) + Inactive(was, order[i + 1..], active)
  {
    var id := order[i];
    assert id in was && id !in order[..i];
    assert order[..i + 1] == order[..i] + [id];
    assert order[i..][1..] == order[i + 1..];
  }

  lemma FinishScan(s: R.State, op: nat, left: set<int>, hs: seq<nat>) returns (step: R.Step)
    requires op < |s.ops| && s.ops[op] == R.Scan(left, hs) && forall id :: id !in left
    ensures step == R.Moves(op, R.Unlock(hs, R.Void), 0, []) && R.CanStep(s, step)
    ensures R.After(s, step).tunnels == s.tunnels
    ensures R.After(s, step).ops == s.ops[op := step.pc] && R.After(s, step).nextId == s.nextId
  {
    assert forall x :: x !in left;
    assert left == {};
    assert s.tunnels - {} == s.tunnels;
    step := R.Moves(op, R.Unlock(hs, R.Void), 0, []);
  }

  /** The handles of the entries of `order` that are not active, in order. */
  function Inactive(tunnels: map<int, nat>, order: seq<int>, active: set<nat>): (hs: seq<nat>)
    requires forall k :: 0 <= k < |order| ==> order[k] in tunnels
    ensures forall h :: h in hs ==> h !in active
  {
    if order == [] then []
    else
      var rest := Inactive(tunnels, order[1..], active);
      if tunnels[order[0]] in active then rest else [tunnels[order[0]]] + rest
  }
}
