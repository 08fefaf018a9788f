/** The tunnel manager under arbitrary concurrent callers: creates of every kind,
    CloseTunnel, CloseAllTunnels and CleanupInactiveTunnels, interleaved step by step. */
module TunnelRegistry {

  /** What an operation gives back to its caller. */
  datatype Reply = Created(id: int) | Failed | Found(id: int) | Missing | Void

  /** Program counter of one operation. `handles` is to_close, still to be closed. */
  datatype Pc =
    | Create | Starting(id: int) | InsertLock(id: int, h: nat) | Insert(id: int, h: nat)
    | FindLock(id: int) | Find(id: int)
    | TakeLock | Take
    | ScanLock | Scan(left: set<int>, handles: seq<nat>)
    | Unlock(handles: seq<nat>, reply: Reply)
    | Closing(handles: seq<nat>, reply: Reply)
    | Finished(reply: Reply)

  predicate InLock(pc: Pc) {
    pc.Insert? || pc.Find? || pc.Take? || pc.Scan? || pc.Unlock?
  }

  /** Where a started handle is; a history variable, read by no step. */
  datatype Place = Fresh(op: int) | Registered(id: int) | Taken(op: int) | Closed(op: int)

  datatype Event = Inserted(id: int, h: nat) | ClosedBy(op: nat, h: nat)

  datatype State = State(
    nextId: int, tunnels: map<int, nat>, owner: int, ops: seq<Pc>,
    place: seq<Place>, trace: seq<Event>)

  const FREE: int := -1

  ghost predicate Init(s: State) {
    s == State(1, map[], FREE, [], [], [])
  }

  datatype Step =
    | Call(pc: Pc)
    | Moves(op: nat, pc: Pc, id: int, keys: seq<int>)

  ghost predicate Listing(keys: seq<int>, m: map<int, nat>) {
    && (forall id :: id in keys <==> id in m)
    && (forall i, j :: 0 <= i < j < |keys| ==> keys[i] != keys[j])
  }

  ghost predicate Picks(m: map<int, nat>, keys: seq<int>, hs: seq<nat>) {
    |hs| == |keys| && forall i :: 0 <= i < |keys| ==> keys[i] in m && hs[i] == m[keys[i]]
  }

  /** Operation `op` may go to `pc`; `id` is the entry a scan looks at, `keys` the order
      in which CloseAllTunnels walks the map. */
  ghost predicate OpStep(s: State, op: nat, pc: Pc, id: int, keys: seq<int>)
    requires op < |s.ops|
  {
    match s.ops[op]
    case Create => pc == Starting(s.nextId) || pc == Finished(Failed)
    case Starting(i) => pc == InsertLock(i, |s.place|) || pc == Finished(Failed)
    case InsertLock(i, h) => s.owner == FREE && pc == Insert(i, h)
    case Insert(i, h) => pc == Unlock([], Created(i))
    case FindLock(i) => s.owner == FREE && pc == Find(i)
    case Find(i) => pc == if i in s.tunnels then Unlock([s.tunnels[i]], Found(i)) else Unlock([], Missing)
    case TakeLock => s.owner == FREE && pc == Take
    case Take => Listing(keys, s.tunnels) && pc.Unlock? && pc.reply == Void && Picks(s.tunnels, keys, pc.handles)
    case ScanLock => s.owner == FREE && pc == Scan(s.tunnels.Keys, [])
    case Scan(left, hs) =>
      if left == {} then pc == Unlock(hs, Void)
      else
        && id in left && id in s.tunnels
        && (pc == Scan(left - {id}, hs) || pc == Scan(left - {id}, hs + [s.tunnels[id]]))
    case Unlock(hs, r) => pc == Closing(hs, r)
    case Closing(hs, r) => pc == if hs == [] then Finished(r) else Closing(hs[1..], r)
    case Finished(_) => false
  }

  /** The entries an operation removes from the map in this step. */
  ghost function Removes(s: State, op: nat, pc: Pc, id: int): set<int>
    requires op < |s.ops|
  {
    match s.ops[op]
    case Find(i) => if i in s.tunnels then {i} else {}
    case Take => s.tunnels.Keys
    case Scan(left, hs) => if pc.Scan? && |pc.handles| > |hs| then {id} else {}
    case _ => {}
  }

  ghost function TunnelsAfter(s: State, op: nat, pc: Pc, id: int): map<int, nat>
    requires op < |s.ops|
  {
    match s.ops[op]
    case Insert(i, h) => s.tunnels[i := h]
    case _ => s.tunnels - Removes(s, op, pc, id)
  }

  function OwnerAfter(s: State, op: nat, pc: Pc): int
    requires op < |s.ops|
  {
    if !InLock(s.ops[op]) && InLock(pc) then op
    else if s.ops[op].Unlock? then FREE
    else s.owner
  }

  ghost function PlaceAfter(s: State, op: nat, pc: Pc, id: int): seq<Place>
    requires op < |s.ops|
  {
    match s.ops[op]
    case Starting(_) => if pc.InsertLock? then s.place + [Fresh(op)] else s.place
    case Insert(i, h) => if h < |s.place| then s.place[h := Registered(i)] else s.place
    case Closing(hs, _) => if hs != [] && hs[0] < |s.place| then s.place[hs[0] := Closed(op)] else s.place
    case _ =>
      HandOver(s.place, Removes(s, op, pc, id), op)
  }

  /** The handles registered under the ids in `gone` go to operation `op`. */
  ghost function HandOver(place: seq<Place>, gone: set<int>, op: int): (r: seq<Place>)
    ensures |r| == |place|
    ensures forall h :: 0 <= h < |place| ==>
              r[h] == if place[h].Registered? && place[h].id in gone then Taken(op) else place[h]
  {
    seq(|place|, h requires 0 <= h < |place| =>
      if place[h].Registered? && place[h].id in gone then Taken(op) else place[h])
  }

  ghost function TraceAfter(s: State, op: nat, pc: Pc, id: int): seq<Event>
    requires op < |s.ops|
  {
    match s.ops[op]
    case Insert(i, h) => s.trace + [Inserted(i, h)]
    case Closing(hs, _) => if hs == [] then s.trace else s.trace + [ClosedBy(op, hs[0])]
    case _ => s.trace
  }

  ghost predicate CanStep(s: State, step: Step) {
    match step
    case Call(pc) => pc.Create? || pc.FindLock? || pc.TakeLock? || pc.ScanLock?
    case Moves(op, pc, id, keys) => op < |s.ops| && OpStep(s, op, pc, id, keys)
  }

  ghost function After(s: State, step: Step): State
    requires step.Moves? ==> step.op < |s.ops|
  {
    match step
    case Call(pc) => State(s.nextId, s.tunnels, s.owner, s.ops + [pc], s.place, s.trace)
    case Moves(op, pc, id, _) =>
      State(if s.ops[op].Create? && pc.Starting? then s.nextId + 1 else s.nextId,
            TunnelsAfter(s, op, pc, id), OwnerAfter(s, op, pc), s.ops[op := pc],
            PlaceAfter(s, op, pc, id), TraceAfter(s, op, pc, id))
  }

  ghost predicate Next(s: State, step: Step, s': State) {
    CanStep(s, step) && s' == After(s, step)
  }

  ghost predicate IsRun(states: seq<State>, steps: seq<Step>) {
    && |states| == |steps| + 1
    && Init(states[0])
    && forall k :: 0 <= k < |steps| ==> Next(states[k], steps[k], states[k + 1])
  }

  // -------------------------------------------------------------- invariant

  ghost predicate LockMatches(s: State) {
    && (s.owner == FREE || (0 <= s.owner < |s.ops| && InLock(s.ops[s.owner])))
    && (forall i :: 0 <= i < |s.ops| && InLock(s.ops[i]) ==> s.owner == i)
  }

  const NONE: int := 0

  /** The id an operation has drawn, or NONE. */
  function DrawnId(pc: Pc): int {
    match pc
    case Starting(i) => i
    case InsertLock(i, _) => i
    case Insert(i, _) => i
    case Unlock(_, r) => if r.Created? then r.id else NONE
    case Closing(_, r) => if r.Created? then r.id else NONE
    case Finished(r) => if r.Created? then r.id else NONE
    case _ => NONE
  }

  /** The id for which an operation answers true, or NONE. */
  function FoundId(pc: Pc): int {
    match pc
    case Unlock(_, r) => if r.Found? then r.id else NONE
    case Closing(_, r) => if r.Found? then r.id else NONE
    case Finished(r) => if r.Found? then r.id else NONE
    case _ => NONE
  }

  predicate NotYetInserted(pc: Pc) {
    pc.Starting? || pc.InsertLock? || pc.Insert?
  }

  /** Ids are drawn once each, and an id drawn but not yet inserted is not in the map. */
  ghost predicate IdsUnique(s: State) {
    && NONE < s.nextId
    && (forall id :: id in s.tunnels ==> NONE < id < s.nextId)
    && (forall i :: 0 <= i < |s.ops| ==> NONE <= DrawnId(s.ops[i]) < s.nextId)
    && (forall i, j :: 0 <= i < j < |s.ops| && DrawnId(s.ops[i]) != NONE ==> DrawnId(s.ops[i]) != DrawnId(s.ops[j]))
    && (forall i :: 0 <= i < |s.ops| && NotYetInserted(s.ops[i]) ==>
          NONE < DrawnId(s.ops[i]) && DrawnId(s.ops[i]) !in s.tunnels)
    && (forall i :: 0 <= i < |s.ops| ==> IdsNamed(s.ops[i]))
  }

  predicate IdsNamed(pc: Pc) {
    (pc.Unlock? || pc.Closing? || pc.Finished?) && (pc.reply.Created? || pc.reply.Found?) ==> NONE < pc.reply.id
  }

  /** A true answer for an id: the id is out of the map for good, and nobody else has it. */
  ghost predicate FoundOnce(s: State) {
    && (forall i :: 0 <= i < |s.ops| ==> NONE <= FoundId(s.ops[i]) < s.nextId && FoundId(s.ops[i]) !in s.tunnels)
    && (forall i, j :: 0 <= i < j < |s.ops| && FoundId(s.ops[i]) != NONE ==> FoundId(s.ops[i]) != FoundId(s.ops[j]))
    && (forall i, j :: 0 <= i < |s.ops| && 0 <= j < |s.ops| && NotYetInserted(s.ops[j]) ==>
          FoundId(s.ops[i]) != DrawnId(s.ops[j]))
  }

  function Keeps(pc: Pc): seq<nat> {
    match pc
    case Scan(_, hs) => hs
    case Unlock(hs, _) => hs
    case Closing(hs, _) => hs
    case _ => []
  }

  ghost predicate NoDuplicates(hs: seq<nat>) {
    forall i, j :: 0 <= i < j < |hs| ==> hs[i] != hs[j]
  }

  /** The map and the places agree. */
  ghost predicate MapPlaces(s: State) {
    && (forall id :: id in s.tunnels ==> s.tunnels[id] < |s.place| && s.place[s.tunnels[id]] == Registered(id))
    && (forall h :: 0 <= h < |s.place| && s.place[h].Registered? ==>
          s.place[h].id in s.tunnels && s.tunnels[s.place[h].id] == h)
  }

  /** The handles an operation keeps are the ones it took. */
  ghost predicate KeepPlaces(s: State) {
    forall i :: 0 <= i < |s.ops| ==> KeepsTaken(s.place, i, Keeps(s.ops[i]))
  }

  ghost predicate KeepsTaken(place: seq<Place>, op: int, hs: seq<nat>) {
    && NoDuplicates(hs)
    && (forall k :: 0 <= k < |hs| ==> hs[k] < |place| && place[hs[k]] == Taken(op))
    && (forall h :: 0 <= h < |place| && place[h].Taken? && place[h].op == op ==> h in hs)
  }

  ghost predicate FreshPlaces(s: State) {
    && (forall i :: 0 <= i < |s.ops| && (s.ops[i].InsertLock? || s.ops[i].Insert?) ==>
          s.ops[i].h < |s.place| && s.place[s.ops[i].h] == Fresh(i))
    && (forall h :: 0 <= h < |s.place| && !s.place[h].Registered? ==> 0 <= s.place[h].op < |s.ops|)
    && (forall h :: 0 <= h < |s.place| && s.place[h].Fresh? ==> Carries(s.ops[s.place[h].op], h))
  }

  predicate Carries(pc: Pc, h: int) {
    (pc.InsertLock? || pc.Insert?) && pc.h == h
  }

  /** Each handle is in exactly one pair of hands. */
  ghost predicate PlacesMatch(s: State) {
    MapPlaces(s) && KeepPlaces(s) && FreshPlaces(s)
  }

  ghost function Count(s: State, e: Event): nat {
    multiset(s.trace)[e]
  }

  /** The trace shows a close of `h` by `op` exactly when that is where `h` ended. */
  ghost predicate ClosesMatch(s: State) {
    forall op: nat, h: nat ::
      Count(s, ClosedBy(op, h)) == if h < |s.place| && s.place[h] == Closed(op) then 1 else 0
  }

  ghost predicate ScanInside(s: State) {
    forall i :: 0 <= i < |s.ops| && s.ops[i].Scan? ==> s.ops[i].left <= s.tunnels.Keys
  }

  ghost predicate Inv(s: State) {
    LockMatches(s) && IdsUnique(s) && FoundOnce(s) && PlacesMatch(s) && ClosesMatch(s) && ScanInside(s)
  }

  lemma InitHolds(s: State)
    requires Init(s)
    ensures Inv(s)
  {
  }

  lemma LockPreserved(s: State, step: Step, s': State)
    requires LockMatches(s) && Next(s, step, s')
    ensures LockMatches(s')
  {
  }

  /** How one operation's ids change in its own step. */
  lemma IdsMove(s: State, op: nat, pc: Pc, id: int, keys: seq<int>)
    requires op < |s.ops| && OpStep(s, op, pc, id, keys)
    ensures DrawnId(pc) == DrawnId(s.ops[op]) || DrawnId(pc) == NONE || (s.ops[op].Create? && pc == Starting(s.nextId))
    ensures NotYetInserted(pc) ==>
              || (s.ops[op].Create? && pc == Starting(s.nextId))
              || (NotYetInserted(s.ops[op]) && DrawnId(pc) == DrawnId(s.ops[op]))
    ensures || FoundId(pc) == FoundId(s.ops[op])
            || (s.ops[op].Find? && FoundId(pc) in s.tunnels && Removes(s, op, pc, id) == {FoundId(pc)})
    ensures s.ops[op].Insert? ==> !NotYetInserted(pc) && FoundId(pc) == FoundId(s.ops[op])
  {
  }

  lemma NamesMove(s: State, op: nat, pc: Pc, id: int, keys: seq<int>)
    requires IdsUnique(s) && op < |s.ops| && OpStep(s, op, pc, id, keys)
    ensures IdsNamed(pc)
  {
    assert IdsNamed(s.ops[op]);
    assert s.ops[op].Insert? ==> NotYetInserted(s.ops[op]);
  }

  lemma IdsPreserved(s: State, step: Step, s': State)
    requires IdsUnique(s) && Next(s, step, s')
    ensures IdsUnique(s')
  {
    if step.Moves? {
      IdsAfterMove(s, step.op, step.pc, step.id, step.keys, s');
    }
  }

  lemma IdsAfterMove(s: State, op: nat, pc: Pc, id: int, keys: seq<int>, s': State)
    requires IdsUnique(s) && Next(s, Moves(op, pc, id, keys), s')
    ensures IdsUnique(s')
  {
    IdsMove(s, op, pc, id, keys);
    NamesMove(s, op, pc, id, keys);
    assert forall i :: 0 <= i < |s.ops| && i != op ==> s'.ops[i] == s.ops[i];
    assert DrawnId(s.ops[op]) < s.nextId;
    forall x | x in s'.tunnels ensures NONE < x < s'.nextId {
      assert x in s.tunnels || (s.ops[op].Insert? && x == DrawnId(s.ops[op]));
    }
  }

  lemma FoundPreserved(s: State, step: Step, s': State)
    requires IdsUnique(s) && FoundOnce(s) && Next(s, step, s')
    ensures FoundOnce(s')
  {
    match step
    case Call(pc) => FoundCalls(s, pc, s');
    case Moves(op, pc, id, keys) => FoundMoves(s, op, pc, id, keys, s');
  }

  lemma FoundCalls(s: State, pc: Pc, s': State)
    requires IdsUnique(s) && FoundOnce(s) && Next(s, Call(pc), s')
    ensures FoundOnce(s')
  {
    assert s'.ops == s.ops + [pc] && s'.tunnels == s.tunnels && s'.nextId == s.nextId;
    assert FoundId(pc) == NONE && !NotYetInserted(pc) && NONE !in s.tunnels;
    forall i | 0 <= i < |s'.ops| ensures NONE <= FoundId(s'.ops[i]) < s'.nextId && FoundId(s'.ops[i]) !in s'.tunnels {
      assert i < |s.ops| ==> s'.ops[i] == s.ops[i];
    }
    forall i, j | 0 <= i < j < |s'.ops| && FoundId(s'.ops[i]) != NONE ensures FoundId(s'.ops[i]) != FoundId(s'.ops[j]) {
      assert s'.ops[i] == s.ops[i];
    }
    forall i, j | 0 <= i < |s'.ops| && 0 <= j < |s'.ops| && NotYetInserted(s'.ops[j])
      ensures FoundId(s'.ops[i]) != DrawnId(s'.ops[j])
    {
      assert s'.ops[j] == s.ops[j];
    }
  }

  lemma FoundMoves(s: State, op: nat, pc: Pc, id: int, keys: seq<int>, s': State)
    requires IdsUnique(s) && FoundOnce(s) && Next(s, Moves(op, pc, id, keys), s')
    ensures FoundOnce(s')
  {
    IdsMove(s, op, pc, id, keys);
    var f := FoundId(pc);
    assert forall i :: 0 <= i < |s.ops| && i != op ==> s'.ops[i] == s.ops[i];
    if f != FoundId(s.ops[op]) {
      assert f in s.tunnels && f !in s'.tunnels;
      assert forall i :: 0 <= i < |s.ops| ==> FoundId(s.ops[i]) != f;
    }
  }

  lemma ScanPreserved(s: State, step: Step, s': State)
    requires LockMatches(s) && ScanInside(s) && Next(s, step, s')
    ensures ScanInside(s')
  {
  }

  /** The insert puts a fresh handle under an id that was not in use. */
  lemma InsertMaps(s: State, op: nat, pc: Pc, id: int, keys: seq<int>, s': State)
    requires IdsUnique(s) && MapPlaces(s) && FreshPlaces(s) && Next(s, Moves(op, pc, id, keys), s') && s.ops[op].Insert?
    ensures MapPlaces(s')
  {
    var i, h := s.ops[op].id, s.ops[op].h;
    assert h < |s.place| && s.place[h] == Fresh(op) && i !in s.tunnels;
    assert s'.tunnels == s.tunnels[i := h] && s'.place == s.place[h := Registered(i)];
  }

  /** Starting and closing move handles that are not in the map. */
  lemma OutsideMaps(s: State, op: nat, pc: Pc, id: int, keys: seq<int>, s': State)
    requires PlacesMatch(s) && Next(s, Moves(op, pc, id, keys), s') && (s.ops[op].Starting? || s.ops[op].Closing?)
    ensures MapPlaces(s')
  {
    assert KeepsTaken(s.place, op, Keeps(s.ops[op]));
    assert s'.tunnels == s.tunnels - {} == s.tunnels;
  }

  /** What leaves the map is no longer registered, and nothing else is touched. */
  lemma HandOverMaps(tunnels: map<int, nat>, place: seq<Place>, gone: set<int>, op: int)
    requires forall id :: id in tunnels ==> tunnels[id] < |place| && place[tunnels[id]] == Registered(id)
    requires forall h :: 0 <= h < |place| && place[h].Registered? ==>
               place[h].id in tunnels && tunnels[place[h].id] == h
    ensures forall id :: id in tunnels - gone ==>
              (tunnels - gone)[id] < |place| && HandOver(place, gone, op)[(tunnels - gone)[id]] == Registered(id)
    ensures forall h :: 0 <= h < |place| && HandOver(place, gone, op)[h].Registered? ==>
              && HandOver(place, gone, op)[h].id in tunnels - gone
              && (tunnels - gone)[HandOver(place, gone, op)[h].id] == h
  {
  }

  lemma MapMoves(s: State, op: nat, pc: Pc, id: int, keys: seq<int>, s': State)
    requires IdsUnique(s) && PlacesMatch(s) && Next(s, Moves(op, pc, id, keys), s')
    ensures MapPlaces(s')
  {
    if s.ops[op].Insert? {
      InsertMaps(s, op, pc, id, keys, s');
    } else if s.ops[op].Starting? || s.ops[op].Closing? {
      OutsideMaps(s, op, pc, id, keys, s');
    } else {
      HandOverMaps(s.tunnels, s.place, Removes(s, op, pc, id), op);
    }
  }

  lemma MapPreserved(s: State, step: Step, s': State)
    requires IdsUnique(s) && PlacesMatch(s) && Next(s, step, s')
    ensures MapPlaces(s')
  {
    if step.Moves? {
      MapMoves(s, step.op, step.pc, step.id, step.keys, s');
    }
  }

  lemma FreshPreserved(s: State, step: Step, s': State)
    requires PlacesMatch(s) && Next(s, step, s')
    ensures FreshPlaces(s')
  {
    if step.Moves? {
      forall i: nat | i < |s'.ops| && (s'.ops[i].InsertLock? || s'.ops[i].Insert?)
        ensures s'.ops[i].h < |s'.place| && s'.place[s'.ops[i].h] == Fresh(i)
      {
        FreshMoves(s, step.op, step.pc, step.id, step.keys, i);
      }
      forall h: nat | h < |s'.place| && !s'.place[h].Registered?
        ensures 0 <= s'.place[h].op < |s'.ops|
        ensures s'.place[h].Fresh? ==> Carries(s'.ops[s'.place[h].op], h)
      {
        CarriersMove(s, step.op, step.pc, step.id, step.keys, h);
      }
    }
  }

  lemma CarriersMove(s: State, op: nat, pc: Pc, id: int, keys: seq<int>, h: nat)
    requires PlacesMatch(s) && op < |s.ops| && OpStep(s, op, pc, id, keys) && h < |PlaceAfter(s, op, pc, id)|
    ensures var p := PlaceAfter(s, op, pc, id)[h];
            !p.Registered? ==> 0 <= p.op < |s.ops| && (p.Fresh? ==> Carries(s.ops[op := pc][p.op], h))
  {
    assert h < |s.place| && s.place[h].Fresh? ==> Carries(s.ops[s.place[h].op], h);
  }

  lemma FreshMoves(s: State, op: nat, pc: Pc, id: int, keys: seq<int>, i: nat)
    requires PlacesMatch(s) && op < |s.ops| && OpStep(s, op, pc, id, keys) && i < |s.ops|
    ensures var pc' := if i == op then pc else s.ops[i];
            pc'.InsertLock? || pc'.Insert? ==>
              pc'.h < |PlaceAfter(s, op, pc, id)| && PlaceAfter(s, op, pc, id)[pc'.h] == Fresh(i)
  {
    assert KeepsTaken(s.place, op, Keeps(s.ops[op]));
  }

  /** A step that takes entries out of the map hands their handles to the taker. */
  lemma FinderKeeps(s: State, op: nat, pc: Pc, id: int, keys: seq<int>)
    requires PlacesMatch(s) && op < |s.ops| && OpStep(s, op, pc, id, keys) && s.ops[op].Find?
    ensures KeepsTaken(PlaceAfter(s, op, pc, id), op, Keeps(pc))
  {
    assert KeepsTaken(s.place, op, []);
  }

  lemma TakeMore(place: seq<Place>, op: int, hs: seq<nat>, id: int, h: nat)
    requires KeepsTaken(place, op, hs) && h < |place| && place[h] == Registered(id)
    requires forall g :: 0 <= g < |place| && place[g] == Registered(id) ==> g == h
    ensures KeepsTaken(HandOver(place, {id}, op), op, hs + [h])
  {
    var place', more := HandOver(place, {id}, op), hs + [h];
    assert more[|hs|] == h;
    forall g | 0 <= g < |place'| && place'[g].Taken? && place'[g].op == op ensures g in more {
      assert g == h || g in hs;
    }
  }

  lemma TakeNone(place: seq<Place>, op: int)
    ensures HandOver(place, {}, op) == place
  {
  }

  lemma ScannerKeeps(s: State, op: nat, pc: Pc, id: int, keys: seq<int>)
    requires PlacesMatch(s) && op < |s.ops| && OpStep(s, op, pc, id, keys) && s.ops[op].Scan?
    ensures KeepsTaken(PlaceAfter(s, op, pc, id), op, Keeps(pc))
  {
    var hs := s.ops[op].handles;
    assert KeepsTaken(s.place, op, hs);
    if Removes(s, op, pc, id) == {} {
      TakeNone(s.place, op);
    } else {
      TakeMore(s.place, op, hs, id, s.tunnels[id]);
    }
  }

  lemma TakerKeeps(s: State, op: nat, pc: Pc, id: int, keys: seq<int>)
    requires PlacesMatch(s) && op < |s.ops| && OpStep(s, op, pc, id, keys) && s.ops[op].Take?
    ensures KeepsTaken(PlaceAfter(s, op, pc, id), op, Keeps(pc))
  {
    assert KeepsTaken(s.place, op, []);
    var place', hs := PlaceAfter(s, op, pc, id), pc.handles;
    assert place' == HandOver(s.place, s.tunnels.Keys, op);
    forall h | 0 <= h < |place'| && place'[h].Taken? && place'[h].op == op ensures h in hs {
      var k :| 0 <= k < |keys| && keys[k] == s.place[h].id;
      assert hs[k] == h;
    }
    forall k | 0 <= k < |hs|
      ensures hs[k] < |place'| && s.place[hs[k]] == Registered(keys[k]) && place'[hs[k]] == Taken(op)
    {
      var id := keys[k];
      assert id in s.tunnels && hs[k] == s.tunnels[id];
      assert s.tunnels[id] < |s.place| && s.place[s.tunnels[id]] == Registered(id);
    }
  }

  lemma CloserLetsGo(s: State, op: nat, pc: Pc, id: int, keys: seq<int>)
    requires PlacesMatch(s) && op < |s.ops| && OpStep(s, op, pc, id, keys) && s.ops[op].Closing?
    ensures KeepsTaken(PlaceAfter(s, op, pc, id), op, Keeps(pc))
  {
    var hs := s.ops[op].handles;
    assert KeepsTaken(s.place, op, hs);
    if hs != [] {
      LetGo(s.place, op, hs);
    }
  }

  lemma LetGo(place: seq<Place>, op: int, hs: seq<nat>)
    requires KeepsTaken(place, op, hs) && hs != []
    ensures KeepsTaken(place[hs[0] := Closed(op)], op, hs[1..])
  {
    var place', rest := place[hs[0] := Closed(op)], hs[1..];
    forall h | 0 <= h < |place'| && place'[h].Taken? && place'[h].op == op ensures h in rest {
      var k :| 0 <= k < |hs| && hs[k] == h;
      assert rest[k - 1] == h;
    }
  }

  /** Nobody else's handles move. */
  lemma OthersKeep(s: State, op: nat, pc: Pc, id: int, keys: seq<int>, i: nat)
    requires IdsUnique(s) && PlacesMatch(s) && op < |s.ops| && OpStep(s, op, pc, id, keys)
    requires i < |s.ops| && i != op
    ensures KeepsTaken(PlaceAfter(s, op, pc, id), i, Keeps(s.ops[i]))
  {
    assert KeepsTaken(s.place, i, Keeps(s.ops[i]));
    assert KeepsTaken(s.place, op, Keeps(s.ops[op]));
  }

  lemma QuietKeeps(s: State, op: nat, pc: Pc, id: int, keys: seq<int>)
    requires PlacesMatch(s) && op < |s.ops| && OpStep(s, op, pc, id, keys)
    requires !s.ops[op].Find? && !s.ops[op].Take? && !s.ops[op].Scan? && !s.ops[op].Closing?
    ensures KeepsTaken(PlaceAfter(s, op, pc, id), op, Keeps(pc))
  {
    assert KeepsTaken(s.place, op, Keeps(s.ops[op]));
  }

  lemma KeepsPreserved(s: State, step: Step, s': State)
    requires IdsUnique(s) && PlacesMatch(s) && ScanInside(s) && Next(s, step, s')
    ensures KeepPlaces(s')
  {
    forall i: nat | i < |s'.ops| ensures KeepsTaken(s'.place, i, Keeps(s'.ops[i])) {
      match step
      case Call(pc) => assert i < |s.ops| ==> KeepsTaken(s.place, i, Keeps(s.ops[i]));
      case Moves(op, pc, id, keys) =>
        if i != op {
          OthersKeep(s, op, pc, id, keys, i);
        } else if s.ops[op].Find? {
          FinderKeeps(s, op, pc, id, keys);
        } else if s.ops[op].Take? {
          TakerKeeps(s, op, pc, id, keys);
        } else if s.ops[op].Scan? {
          ScannerKeeps(s, op, pc, id, keys);
        } else if s.ops[op].Closing? {
          CloserLetsGo(s, op, pc, id, keys);
        } else {
          QuietKeeps(s, op, pc, id, keys);
        }
    }
  }

  lemma ClosingCounts(s: State, op: nat, pc: Pc, id: int, keys: seq<int>, o: nat, h: nat)
    requires PlacesMatch(s) && ClosesMatch(s) && op < |s.ops| && OpStep(s, op, pc, id, keys) && s.ops[op].Closing?
    ensures var place' := PlaceAfter(s, op, pc, id);
            multiset(TraceAfter(s, op, pc, id))[ClosedBy(o, h)]
            == if h < |place'| && place'[h] == Closed(o) then 1 else 0
  {
    assert Count(s, ClosedBy(o, h)) == if h < |s.place| && s.place[h] == Closed(o) then 1 else 0;
    assert KeepsTaken(s.place, op, s.ops[op].handles);
  }

  /** Nothing but the closing loop closes. */
  lemma OnlyClosingCloses(s: State, op: nat, pc: Pc, id: int, keys: seq<int>, o: nat, h: nat)
    requires PlacesMatch(s) && op < |s.ops| && OpStep(s, op, pc, id, keys) && !s.ops[op].Closing?
    ensures var place' := PlaceAfter(s, op, pc, id);
            (h < |place'| && place'[h] == Closed(o)) <==> (h < |s.place| && s.place[h] == Closed(o))
    ensures multiset(TraceAfter(s, op, pc, id))[ClosedBy(o, h)] == Count(s, ClosedBy(o, h))
  {
  }

  lemma CloseCounts(s: State, op: nat, pc: Pc, id: int, keys: seq<int>, o: nat, h: nat)
    requires PlacesMatch(s) && ClosesMatch(s) && op < |s.ops| && OpStep(s, op, pc, id, keys)
    ensures var place' := PlaceAfter(s, op, pc, id);
            multiset(TraceAfter(s, op, pc, id))[ClosedBy(o, h)]
            == if h < |place'| && place'[h] == Closed(o) then 1 else 0
  {
    if s.ops[op].Closing? {
      ClosingCounts(s, op, pc, id, keys, o, h);
    } else {
      assert Count(s, ClosedBy(o, h)) == if h < |s.place| && s.place[h] == Closed(o) then 1 else 0;
      OnlyClosingCloses(s, op, pc, id, keys, o, h);
    }
  }

  lemma ClosesPreserved(s: State, step: Step, s': State)
    requires PlacesMatch(s) && ClosesMatch(s) && Next(s, step, s')
    ensures ClosesMatch(s')
  {
    if step.Moves? {
      forall o: nat, h: nat
        ensures Count(s', ClosedBy(o, h)) == if h < |s'.place| && s'.place[h] == Closed(o) then 1 else 0
      {
        CloseCounts(s, step.op, step.pc, step.id, step.keys, o, h);
      }
    }
  }

  lemma InvPreserved(s: State, step: Step, s': State)
    requires Inv(s) && Next(s, step, s')
    ensures Inv(s')
  {
    LockPreserved(s, step, s');
    IdsPreserved(s, step, s');
    FoundPreserved(s, step, s');
    ScanPreserved(s, step, s');
    MapPreserved(s, step, s');
    FreshPreserved(s, step, s');
    KeepsPreserved(s, step, s');
    ClosesPreserved(s, step, s');
  }

  lemma {:induction false} RunsKeepInv(states: seq<State>, steps: seq<Step>, k: nat)
    requires IsRun(states, steps) && k < |states|
    ensures Inv(states[k])
  {
    if k == 0 {
      InitHolds(states[0]);
    } else {
      var i := k - 1;
      RunsKeepInv(states, steps, i);
      assert Next(states[i], steps[i], states[i + 1]);
      InvPreserved(states[i], steps[i], states[k]);
    }
  }

  // --------------------------------------------------------------- theorems

  /** Two operations never get the same id, however they interleave. */
  lemma IdsNeverReused(states: seq<State>, steps: seq<Step>, k: nat, i: nat, j: nat, id: int)
    requires IsRun(states, steps) && k < |states| && i < |states[k].ops| && j < |states[k].ops|
    requires states[k].ops[i] == Finished(Created(id)) && states[k].ops[j] == Finished(Created(id))
    ensures i == j
  {
    RunsKeepInv(states, steps, k);
  }

  /** An insert never replaces a live handle. */
  lemma InsertNeverOverwrites(states: seq<State>, steps: seq<Step>, k: nat, op: nat)
    requires IsRun(states, steps) && k < |states| && op < |states[k].ops| && states[k].ops[op].Insert?
    ensures states[k].ops[op].id !in states[k].tunnels
  {
    RunsKeepInv(states, steps, k);
    assert NotYetInserted(states[k].ops[op]);
  }

  /** CloseTunnel answers true at most once per id. */
  lemma TrueOncePerId(states: seq<State>, steps: seq<Step>, k: nat, i: nat, j: nat, id: int)
    requires IsRun(states, steps) && k < |states| && i < |states[k].ops| && j < |states[k].ops|
    requires states[k].ops[i] == Finished(Found(id)) && states[k].ops[j] == Finished(Found(id))
    ensures i == j
  {
    RunsKeepInv(states, steps, k);
  }

  /** A handle is closed by the operation that took it, after the lock was released. */
  lemma ClosedOutsideLock(states: seq<State>, steps: seq<Step>, k: nat, op: nat)
    requires IsRun(states, steps) && k < |states| && op < |states[k].ops|
    requires states[k].ops[op].Closing? && states[k].ops[op].handles != []
    ensures states[k].owner != op
    ensures var h := states[k].ops[op].handles[0]; h < |states[k].place| && states[k].place[h] == Taken(op)
  {
    RunsKeepInv(states, steps, k);
    assert KeepsTaken(states[k].place, op, states[k].ops[op].handles);
  }

  /** Across all operations of a run a handle is closed at most once. */
  lemma ClosedAtMostOnce(states: seq<State>, steps: seq<Step>, k: nat, i: nat, j: nat, h: nat)
    requires IsRun(states, steps) && k < |states|
    ensures Count(states[k], ClosedBy(i, h)) <= 1
    ensures i != j ==> Count(states[k], ClosedBy(i, h)) + Count(states[k], ClosedBy(j, h)) <= 1
  {
    RunsKeepInv(states, steps, k);
    var s := states[k];
    assert Count(s, ClosedBy(i, h)) == if h < |s.place| && s.place[h] == Closed(i) then 1 else 0;
    assert Count(s, ClosedBy(j, h)) == if h < |s.place| && s.place[h] == Closed(j) then 1 else 0;
  }

  /** How a handle's place may change over time: inserted under one id, removed by one
      operation, closed by that same operation, and never back. */
  predicate MayBecome(p: Place, q: Place) {
    match p
    case Fresh(_) => true
    case Registered(_) => q == p || q.Taken? || q.Closed?
    case Taken(op) => q == p || q == Closed(op)
    case Closed(_) => q == p
  }

  lemma ClosingAdvances(s: State, op: nat, pc: Pc, id: int, keys: seq<int>, h: nat)
    requires PlacesMatch(s) && op < |s.ops| && OpStep(s, op, pc, id, keys) && h < |s.place| && s.ops[op].Closing?
    ensures h < |PlaceAfter(s, op, pc, id)| && MayBecome(s.place[h], PlaceAfter(s, op, pc, id)[h])
  {
    assert KeepsTaken(s.place, op, s.ops[op].handles);
  }

  lemma OtherAdvances(s: State, op: nat, pc: Pc, id: int, keys: seq<int>, h: nat)
    requires FreshPlaces(s) && op < |s.ops| && OpStep(s, op, pc, id, keys) && h < |s.place| && !s.ops[op].Closing?
    ensures h < |PlaceAfter(s, op, pc, id)| && MayBecome(s.place[h], PlaceAfter(s, op, pc, id)[h])
  {
  }

  lemma PlaceAdvances(s: State, step: Step, s': State, h: nat)
    requires PlacesMatch(s) && Next(s, step, s') && h < |s.place|
    ensures h < |s'.place| && MayBecome(s.place[h], s'.place[h])
  {
    if step.Moves? {
      if s.ops[step.op].Closing? {
        ClosingAdvances(s, step.op, step.pc, step.id, step.keys, h);
      } else {
        OtherAdvances(s, step.op, step.pc, step.id, step.keys, h);
      }
    }
  }

  /** Over every run: the operation that removes a handle is the only one that ever has
      it, and the one that closes it. */
  lemma {:induction false} TakerCloses(states: seq<State>, steps: seq<Step>, from: nat, k: nat, h: nat)
    requires IsRun(states, steps) && from <= k < |states| && h < |states[from].place|
    ensures h < |states[k].place| && MayBecome(states[from].place[h], states[k].place[h])
  {
    if from < k {
      var i := k - 1;
      TakerCloses(states, steps, from, i, h);
      RunsKeepInv(states, steps, i);
      assert Next(states[i], steps[i], states[i + 1]);
      PlaceAdvances(states[i], steps[i], states[k], h);
    }
  }

  ghost predicate Quiet(s: State) {
    forall i :: 0 <= i < |s.ops| ==> s.ops[i].Finished?
  }

  lemma TakenIsKept(s: State, h: nat)
    requires Inv(s) && h < |s.place| && s.place[h].Taken?
    ensures 0 <= s.place[h].op < |s.ops| && h in Keeps(s.ops[s.place[h].op])
  {
    var op := s.place[h].op;
    assert KeepsTaken(s.place, op, Keeps(s.ops[op]));
  }

  /** Conservation: once every call has returned, each handle ever started is registered
      under one id, or was closed exactly once and by one operation. */
  lemma NothingLeaks(states: seq<State>, steps: seq<Step>, k: nat, h: nat)
    requires IsRun(states, steps) && k < |states| && Quiet(states[k]) && h < |states[k].place|
    ensures var s := states[k];
            match s.place[h]
            case Registered(id) => id in s.tunnels && s.tunnels[id] == h
            case Closed(op) => 0 <= op < |s.ops| && Count(s, ClosedBy(op, h)) == 1
            case _ => false
  {
    RunsKeepInv(states, steps, k);
    var s := states[k];
    var p := s.place[h];
    if p.Taken? {
      TakenIsKept(s, h);
    }
    if p.Closed? {
      var op: nat := p.op;
      assert Count(s, ClosedBy(op, h)) == 1;
    }
  }

  // ---------------------------------------------------- what each call does

  predicate Done(pc: Pc) {
    pc.Unlock? || pc.Closing? || pc.Finished?
  }

  function ReplyOf(pc: Pc): Reply
    requires Done(pc)
  {
    match pc
    case Unlock(_, r) => r
    case Closing(_, r) => r
    case Finished(r) => r
  }

  /** The program counters an operation called as `start` may come to. */
  predicate OnPath(start: Pc, pc: Pc) {
    match start
    case Create =>
      if Done(pc) then ReplyOf(pc).Created? || pc == Finished(Failed)
      else pc.Create? || pc.Starting? || pc.InsertLock? || pc.Insert?
    case FindLock(id) =>
      if Done(pc) then ReplyOf(pc) == Found(id) || ReplyOf(pc) == Missing
      else pc == FindLock(id) || pc == Find(id)
    case TakeLock => if Done(pc) then ReplyOf(pc) == Void else pc.TakeLock? || pc.Take?
    case ScanLock => if Done(pc) then ReplyOf(pc) == Void else pc.ScanLock? || pc.Scan?
    case _ => false
  }

  lemma PathStep(s: State, op: nat, pc: Pc, id: int, keys: seq<int>, start: Pc)
    requires op < |s.ops| && OpStep(s, op, pc, id, keys) && OnPath(start, s.ops[op])
    ensures OnPath(start, pc)
    ensures Done(s.ops[op]) ==> Done(pc) && ReplyOf(pc) == ReplyOf(s.ops[op])
  {
  }

  /** Operation `op` was called by step `m` of the run. */
  ghost predicate CalledBy(states: seq<State>, steps: seq<Step>, m: nat, op: nat, start: Pc) {
    IsRun(states, steps) && m < |steps| && steps[m] == Call(start) && op == |states[m].ops|
  }

  lemma OpsStep(s: State, step: Step, s': State, op: nat)
    requires Next(s, step, s') && op < |s.ops|
    ensures |s'.ops| >= |s.ops| && s'.ops[op] == if step.Moves? && step.op == op then step.pc else s.ops[op]
  {
  }

  /** An operation keeps to its own path, whatever the others do. */
  lemma {:induction false} StaysOnPath(states: seq<State>, steps: seq<Step>, m: nat, k: nat, op: nat, start: Pc)
    requires CalledBy(states, steps, m, op, start) && m < k < |states|
    ensures op < |states[k].ops| && OnPath(start, states[k].ops[op])
  {
    var i := k - 1;
    assert Next(states[i], steps[i], states[i + 1]);
    if m < i {
      StaysOnPath(states, steps, m, i, op, start);
      OpsStep(states[i], steps[i], states[k], op);
      if steps[i].Moves? && steps[i].op == op {
        PathStep(states[i], op, steps[i].pc, steps[i].id, steps[i].keys, start);
      }
    }
  }

  /** The handles an operation has removed from the map, closed or not. */
  ghost predicate IsMine(s: State, h: nat, op: int) {
    h < |s.place| && (s.place[h] == Taken(op) || s.place[h] == Closed(op))
  }

  lemma MineAtClosing(s: State, who: nat, pc: Pc, id: int, keys: seq<int>, h: nat, op: nat)
    requires PlacesMatch(s) && who < |s.ops| && OpStep(s, who, pc, id, keys) && s.ops[who].Closing?
    ensures var place' := PlaceAfter(s, who, pc, id);
            h < |place'| && (place'[h] == Taken(op) || place'[h] == Closed(op)) <==> IsMine(s, h, op)
  {
    assert KeepsTaken(s.place, who, s.ops[who].handles);
  }

  lemma MineAtHandOver(place: seq<Place>, gone: set<int>, who: nat, h: nat, op: nat)
    requires h < |place|
    ensures var p := HandOver(place, gone, who)[h];
            p == Taken(op) || p == Closed(op) <==>
            || place[h] == Taken(op) || place[h] == Closed(op)
            || (who == op && place[h].Registered? && place[h].id in gone)
  {
  }

  lemma MineMoves(s: State, who: nat, pc: Pc, id: int, keys: seq<int>, h: nat, op: nat)
    requires PlacesMatch(s) && who < |s.ops| && OpStep(s, who, pc, id, keys) && !s.ops[who].Closing?
    ensures var place' := PlaceAfter(s, who, pc, id);
            h < |place'| && (place'[h] == Taken(op) || place'[h] == Closed(op)) <==>
            || IsMine(s, h, op)
            || (who == op && h < |s.place| && s.place[h].Registered? && s.place[h].id in Removes(s, op, pc, id))
  {
    if s.ops[who].Insert? {
      assert s.place[s.ops[who].h] == Fresh(who);
    } else if !s.ops[who].Starting? && h < |s.place| {
      MineAtHandOver(s.place, Removes(s, who, pc, id), who, h, op);
    }
  }

  /** An operation gets a handle only by removing its entry from the map. */
  lemma MineStep(s: State, step: Step, s': State, h: nat, op: nat)
    requires Inv(s) && Next(s, step, s') && op < |s.ops|
    ensures IsMine(s', h, op) <==>
            || IsMine(s, h, op)
            || (&& step.Moves? && step.op == op && h < |s.place| && s.place[h].Registered?
                && s.place[h].id in Removes(s, op, step.pc, step.id))
  {
    if step.Moves? {
      if s.ops[step.op].Closing? {
        MineAtClosing(s, step.op, step.pc, step.id, step.keys, h, op);
      } else {
        MineMoves(s, step.op, step.pc, step.id, step.keys, h, op);
      }
    }
  }

  predicate NothingTaken(pc: Pc) {
    !Done(pc) && !pc.Scan?
  }

  lemma StillNothingTaken(s: State, op: nat, pc: Pc, id: int, keys: seq<int>)
    requires op < |s.ops| && OpStep(s, op, pc, id, keys) && NothingTaken(pc)
    ensures NothingTaken(s.ops[op]) && Removes(s, op, pc, id) == {}
  {
  }

  lemma NewcomerHasNothing(s: State, pc: Pc, s': State, h: nat)
    requires Inv(s) && Next(s, Call(pc), s')
    ensures |s'.ops| == |s.ops| + 1 && s'.ops[|s.ops|] == pc && !IsMine(s', h, |s.ops|)
  {
    assert FreshPlaces(s);
  }

  lemma NothingTakenStep(s: State, step: Step, s': State, h: nat, op: nat)
    requires Inv(s) && Next(s, step, s') && op < |s.ops| && NothingTaken(s'.ops[op])
    ensures NothingTaken(s.ops[op]) && (IsMine(s', h, op) ==> IsMine(s, h, op))
  {
    OpsStep(s, step, s', op);
    MineStep(s, step, s', h, op);
    if step.Moves? && step.op == op {
      StillNothingTaken(s, op, step.pc, step.id, step.keys);
    }
  }

  lemma {:induction false} NotMineYet(
    states: seq<State>, steps: seq<Step>, m: nat, k: nat, op: nat, start: Pc, h: nat)
    requires CalledBy(states, steps, m, op, start) && m < k < |states|
    requires op < |states[k].ops| && NothingTaken(states[k].ops[op])
    ensures !IsMine(states[k], h, op)
  {
    var i := k - 1;
    assert Next(states[i], steps[i], states[i + 1]);
    RunsKeepInv(states, steps, i);
    if m == i {
      NewcomerHasNothing(states[i], start, states[k], h);
    } else {
      StaysOnPath(states, steps, m, i, op, start);
      NothingTakenStep(states[i], steps[i], states[k], h, op);
      NotMineYet(states, steps, m, i, op, start, h);
    }
  }

  /** Once an operation has its handles, it gets no more, and its answer is fixed. */
  lemma {:induction false} MineStays(states: seq<State>, steps: seq<Step>, f: nat, k: nat, op: nat, h: nat)
    requires IsRun(states, steps) && f <= k < |states| && op < |states[f].ops| && Done(states[f].ops[op])
    ensures op < |states[k].ops| && Done(states[k].ops[op]) && ReplyOf(states[k].ops[op]) == ReplyOf(states[f].ops[op])
    ensures IsMine(states[k], h, op) <==> IsMine(states[f], h, op)
  {
    if f < k {
      var i := k - 1;
      MineStays(states, steps, f, i, op, h);
      RunsKeepInv(states, steps, i);
      assert Next(states[i], steps[i], states[i + 1]);
      OpsStep(states[i], steps[i], states[k], op);
      MineStep(states[i], steps[i], states[k], h, op);
    }
  }

  /** A finished operation has closed all its handles, once each, and no others. */
  lemma FinishedHasClosed(s: State, op: nat, h: nat)
    requires Inv(s) && op < |s.ops| && s.ops[op].Finished?
    ensures Count(s, ClosedBy(op, h)) == if IsMine(s, h, op) then 1 else 0
  {
    assert KeepsTaken(s.place, op, Keeps(s.ops[op]));
    assert Count(s, ClosedBy(op, h)) == if h < |s.place| && s.place[h] == Closed(op) then 1 else 0;
  }

  /** What an operation that takes its handles in one step, number `f`, has closed when it
      has finished: exactly the handles of the entries it removed in that step. */
  lemma ClosesWhatItRemoved(
    states: seq<State>, steps: seq<Step>, m: nat, f: nat, k: nat, op: nat, start: Pc, h: nat)
    requires CalledBy(states, steps, m, op, start) && m < f < k < |states|
    requires op < |states[f].ops| && op < |states[k].ops|
    requires steps[f].Moves? && steps[f].op == op && (states[f].ops[op].Find? || states[f].ops[op].Take?)
    requires states[k].ops[op].Finished?
    ensures op < |states[f + 1].ops| && Done(states[f + 1].ops[op])
    ensures ReplyOf(states[k].ops[op]) == ReplyOf(states[f + 1].ops[op])
    ensures Count(states[k], ClosedBy(op, h)) ==
            if h < |states[f].place| && states[f].place[h].Registered?
               && states[f].place[h].id in Removes(states[f], op, steps[f].pc, steps[f].id) then 1 else 0
  {
    assert Next(states[f], steps[f], states[f + 1]);
    RunsKeepInv(states, steps, f);
    RunsKeepInv(states, steps, k);
    OpsStep(states[f], steps[f], states[f + 1], op);
    NotMineYet(states, steps, m, f, op, start, h);
    MineStep(states[f], steps[f], states[f + 1], h, op);
    MineStays(states, steps, f + 1, k, op, h);
    FinishedHasClosed(states[k], op, h);
  }

  /** CloseTunnel(id), over every run: it answers true exactly when `id` was registered at
      its own lookup, it takes that entry alone out of the map, and what it has closed is
      then that tunnel's handle, and otherwise nothing. */
  lemma CloseTunnelCloses(
    states: seq<State>, steps: seq<Step>, m: nat, f: nat, k: nat, op: nat, id: int, h: nat)
    requires CalledBy(states, steps, m, op, FindLock(id)) && m < f < k < |states|
    requires op < |states[f].ops| && op < |states[k].ops|
    requires steps[f].Moves? && steps[f].op == op && states[f].ops[op].Find? && states[k].ops[op].Finished?
    ensures states[k].ops[op] == Finished(if id in states[f].tunnels then Found(id) else Missing)
    ensures states[f + 1].tunnels == states[f].tunnels - {id}
    ensures Count(states[k], ClosedBy(op, h)) ==
            if id in states[f].tunnels && h == states[f].tunnels[id] then 1 else 0
  {
    StaysOnPath(states, steps, m, f, op, FindLock(id));
    RunsKeepInv(states, steps, f);
    assert Next(states[f], steps[f], states[f + 1]);
    OpsStep(states[f], steps[f], states[f + 1], op);
    ClosesWhatItRemoved(states, steps, m, f, k, op, FindLock(id), h);
  }

  /** CloseAllTunnels, over every run: it closes every handle that was registered when it
      took the map, once each, and no other; and it leaves the map empty behind. */
  lemma CloseAllCloses(states: seq<State>, steps: seq<Step>, m: nat, f: nat, k: nat, op: nat, h: nat)
    requires CalledBy(states, steps, m, op, TakeLock) && m < f < k < |states|
    requires op < |states[f].ops| && op < |states[k].ops|
    requires steps[f].Moves? && steps[f].op == op && states[f].ops[op].Take? && states[k].ops[op].Finished?
    ensures states[f + 1].tunnels == map[]
    ensures Count(states[k], ClosedBy(op, h)) ==
            if exists id :: id in states[f].tunnels && states[f].tunnels[id] == h then 1 else 0
  {
    RunsKeepInv(states, steps, f);
    assert Next(states[f], steps[f], states[f + 1]);
    ClosesWhatItRemoved(states, steps, m, f, k, op, TakeLock, h);
    var s := states[f];
    if h < |s.place| && s.place[h].Registered? {
      assert s.place[h].id in s.tunnels && s.tunnels[s.place[h].id] == h;
    }
  }

  lemma NotAnsweredAtOnce(states: seq<State>, steps: seq<Step>, m: nat, k: nat, op: nat, start: Pc)
    requires CalledBy(states, steps, m, op, start) && m < k < |states|
    requires op < |states[k].ops| && Done(states[k].ops[op])
    ensures m < k - 1
  {
    assert Next(states[m], steps[m], states[m + 1]);
    assert states[m + 1].ops[op] == start;
  }

  /** A call that has answered has been through its lookup or its taking of the map. */
  lemma {:induction false} CameThrough(states: seq<State>, steps: seq<Step>, m: nat, k: nat, op: nat, start: Pc)
    returns (f: nat)
    requires CalledBy(states, steps, m, op, start) && (start.FindLock? || start.TakeLock?) && m < k < |states|
    requires op < |states[k].ops| && Done(states[k].ops[op])
    ensures m < f < k && op < |states[f].ops| && steps[f].Moves? && steps[f].op == op
    ensures states[f].ops[op].Find? || states[f].ops[op].Take?
  {
    var i := k - 1;
    assert Next(states[i], steps[i], states[i + 1]);
    NotAnsweredAtOnce(states, steps, m, k, op, start);
    StaysOnPath(states, steps, m, i, op, start);
    OpsStep(states[i], steps[i], states[k], op);
    if Done(states[i].ops[op]) {
      f := CameThrough(states, steps, m, i, op, start);
    } else {
      f := i;
    }
  }

  lemma InsertAnswers(s: State, op: nat, pc: Pc, id: int, keys: seq<int>)
    requires Inv(s) && op < |s.ops| && OpStep(s, op, pc, id, keys)
    requires !Done(s.ops[op]) && Done(pc) && ReplyOf(pc).Created?
    ensures s.ops[op].Insert? && s.ops[op].id == ReplyOf(pc).id
    ensures s.ops[op].h < |s.place| && s.place[s.ops[op].h] == Fresh(op)
    ensures TunnelsAfter(s, op, pc, id) == s.tunnels[s.ops[op].id := s.ops[op].h]
  {
  }

  /** In state `s` operation `op` is about to insert a handle of its own under `id`. */
  ghost predicate Inserts(s: State, op: nat, id: int, s': State) {
    && op < |s.ops| && s.ops[op].Insert? && s.ops[op].id == id
    && s.ops[op].h < |s.place| && s.place[s.ops[op].h] == Fresh(op)
    && s'.tunnels == s.tunnels[id := s.ops[op].h]
  }

  lemma CreateStep(s: State, step: Step, s': State, op: nat, id: int)
    requires Inv(s) && Next(s, step, s') && op < |s.ops| && OnPath(Create, s.ops[op])
    requires Done(s'.ops[op]) && ReplyOf(s'.ops[op]) == Created(id)
    ensures (Done(s.ops[op]) && ReplyOf(s.ops[op]) == Created(id)) || Inserts(s, op, id, s')
  {
    OpsStep(s, step, s', op);
    if step.Moves? && step.op == op {
      PathStep(s, op, step.pc, step.id, step.keys, Create);
      if !Done(s.ops[op]) {
        InsertAnswers(s, op, step.pc, step.id, step.keys);
      }
    }
  }

  ghost predicate Answered(s: State, op: nat, r: Reply) {
    op < |s.ops| && Done(s.ops[op]) && ReplyOf(s.ops[op]) == r
  }

  lemma CreateBack(states: seq<State>, steps: seq<Step>, m: nat, k: nat, op: nat, id: int)
    requires CalledBy(states, steps, m, op, Create) && m < k < |states| && Answered(states[k], op, Created(id))
    ensures m < k - 1
    ensures Answered(states[k - 1], op, Created(id)) || Inserts(states[k - 1], op, id, states[k])
  {
    var i := k - 1;
    assert Next(states[i], steps[i], states[i + 1]);
    RunsKeepInv(states, steps, i);
    NotAnsweredAtOnce(states, steps, m, k, op, Create);
    StaysOnPath(states, steps, m, i, op, Create);
    CreateStep(states[i], steps[i], states[k], op, id);
  }

  /** A create that returned an id has put a handle of its own under that id. */
  lemma {:induction false} CreateRegisters(states: seq<State>, steps: seq<Step>, m: nat, k: nat, op: nat, id: int)
    returns (f: nat)
    requires CalledBy(states, steps, m, op, Create) && m < k < |states| && Answered(states[k], op, Created(id))
    ensures m < f < k && Inserts(states[f], op, id, states[f + 1])
  {
    CreateBack(states, steps, m, k, op, id);
    if Answered(states[k - 1], op, Created(id)) {
      f := CreateRegisters(states, steps, m, k - 1, op, id);
    } else {
      f := k - 1;
    }
  }

  // --------------------------------------------------------------- progress

  lemma {:induction false} Enumerate(ids: set<int>) returns (keys: seq<int>)
    ensures forall id :: id in keys <==> id in ids
    ensures forall i, j :: 0 <= i < j < |keys| ==> keys[i] != keys[j]
    decreases |ids|
  {
    keys := [];
    if x :| x in ids {
      var rest := Enumerate(ids - {x});
      keys := [x] + rest;
      assert forall j :: 0 <= j < |rest| ==> rest[j] in rest;
    }
  }

  lemma Listed(m: map<int, nat>) returns (keys: seq<int>, hs: seq<nat>)
    ensures Listing(keys, m) && Picks(m, keys, hs)
  {
    keys := Enumerate(m.Keys);
    forall id ensures id in keys <==> id in m {
      assert id in m.Keys <==> id in m;
    }
    forall i | 0 <= i < |keys| ensures keys[i] in m {
      assert keys[i] in keys;
    }
    hs := seq(|keys|, i requires 0 <= i < |keys| => m[keys[i]]);
  }

  lemma TakeMoves(s: State, op: nat) returns (step: Step)
    requires op < |s.ops| && s.ops[op] == Take
    ensures CanStep(s, step) && step.Moves? && step.op == op
  {
    var keys, hs := Listed(s.tunnels);
    step := Moves(op, Unlock(hs, Void), 0, keys);
  }

  lemma OpMoves(s: State, op: nat) returns (step: Step)
    requires Inv(s) && op < |s.ops| && !s.ops[op].Finished?
    requires s.owner == FREE || InLock(s.ops[op])
    ensures CanStep(s, step) && step.Moves? && step.op == op
  {
    match s.ops[op]
    case Create => step := Moves(op, Finished(Failed), 0, []);
    case Starting(_) => step := Moves(op, Finished(Failed), 0, []);
    case InsertLock(i, h) => step := Moves(op, Insert(i, h), 0, []);
    case Insert(i, h) => step := Moves(op, Unlock([], Created(i)), 0, []);
    case FindLock(i) => step := Moves(op, Find(i), 0, []);
    case Find(i) =>
      step := Moves(op, if i in s.tunnels then Unlock([s.tunnels[i]], Found(i)) else Unlock([], Missing), 0, []);
    case TakeLock => step := Moves(op, Take, 0, []);
    case Take => step := TakeMoves(s, op);
    case ScanLock => step := Moves(op, Scan(s.tunnels.Keys, []), 0, []);
    case Scan(left, hs) =>
      if id :| id in left {
        step := Moves(op, Scan(left - {id}, hs), id, []);
      } else {
        assert forall x :: x !in left;
        assert left == {};
        step := Moves(op, Unlock(hs, Void), 0, []);
      }
    case Unlock(hs, r) => step := Moves(op, Closing(hs, r), 0, []);
    case Closing(hs, r) => step := Moves(op, if hs == [] then Finished(r) else Closing(hs[1..], r), 0, []);
  }

  /** The manager never deadlocks: while some call has not returned, one of them can step.
      Whoever has the lock waits for nothing, since handles are closed without it. */
  lemma NoDeadlock(s: State) returns (step: Step)
    requires Inv(s) && !Quiet(s)
    ensures CanStep(s, step) && step.Moves?
  {
    if s.owner != FREE {
      step := OpMoves(s, s.owner);
    } else {
      var i: nat :| i < |s.ops| && !s.ops[i].Finished?;
      step := OpMoves(s, i);
    }
  }
}
