/** How a two-way pump works through its scripts: each turn takes one entry of the local
    side and then one of the channel, until one of them ends it. */
module Turns {
  import opened Streams

  /** The export's local socket survives a read that would block, the import's does not. */
  datatype Side = ExportSide | ImportSide

  /** A local read result after which the pump takes no further turn. */
  predicate Stops(side: Side, i: Incoming) {
    Ends(false, i) || (side.ImportSide? && i.Again?)
  }

  ghost predicate NoStop(side: Side, script: seq<Incoming>, n: int)
    requires n <= |script|
  {
    forall i :: 0 <= i < n ==> !Stops(side, script[i])
  }

  ghost predicate NoEnd(script: seq<Incoming>, n: int)
    requires n <= |script|
  {
    forall i :: 0 <= i < n ==> !Ends(true, script[i])
  }

  /** `n` turns were complete, and none of them met an end. */
  ghost predicate WholeTurns(side: Side, local: seq<Incoming>, chan: seq<Incoming>, n: nat) {
    n <= |local| && n <= |chan| && NoStop(side, local, n) && NoEnd(chan, n)
  }

  /** `used` entries of the local script and `turns` of the channel's have been taken: one
      each per turn, the last turn perhaps without its second half, and no turn after one
      that met an end. */
  ghost predicate Took(side: Side, local: seq<Incoming>, chan: seq<Incoming>, used: nat, turns: nat) {
    && turns <= used <= turns + 1 && used <= |local| && turns <= |chan|
    && NoStop(side, local, used - 1) && NoEnd(chan, if used == turns then turns - 1 else turns)
  }

  /** A script has come to its end, or to a result that ends the pump. */
  ghost predicate ScriptsOver(side: Side, local: seq<Incoming>, chan: seq<Incoming>, used: nat, turns: nat) {
    || used == turns == |local|
    || (used == turns + 1 <= |local| && Stops(side, local[turns]))
    || (used == turns + 1 && turns == |chan|)
    || (0 < turns == used <= |chan| && Ends(true, chan[turns - 1]))
  }

  /** Nothing in the scripts ends the pump before one of them is used up. */
  ghost predicate Endless(side: Side, local: seq<Incoming>, chan: seq<Incoming>) {
    NoStop(side, local, |local|) && NoEnd(chan, |chan|)
  }

  /** With nothing to end the pump early, the shorter script is worked through. */
  lemma ShorterIsDone(side: Side, local: seq<Incoming>, chan: seq<Incoming>, used: nat, turns: nat)
    requires Took(side, local, chan, used, turns) && ScriptsOver(side, local, chan, used, turns)
    requires Endless(side, local, chan)
    ensures |local| > |chan| ==> turns == |chan|
    ensures |local| <= |chan| ==> used == |local|
  {
  }

  /** At least `n` writes, and every one of them, take whatever they are offered. */
  ghost predicate Willing(answers: seq<Outgoing>, n: nat) {
    n <= |answers| && forall i :: 0 <= i < |answers| ==> TakesAll(answers[i])
  }

  /** One answer of select() over both sockets of the mesh pump. */
  datatype Selected = SelectFailed | TimedOut | Readable(client: bool, mesh: bool)

  /** Whether select() reported the client's socket, or the mesh's, as readable. */
  predicate Reports(sel: Selected, client: bool) {
    sel.Readable? && if client then sel.client else sel.mesh
  }

  /** How often the first `k` answers reported that side. */
  ghost function Reported(selects: seq<Selected>, k: nat, client: bool): nat
    requires k <= |selects|
  {
    if k == 0 then 0 else Reported(selects, k - 1, client) + if Reports(selects[k - 1], client) then 1 else 0
  }

  /** Reading a side met its end: the script's, or a result without bytes. */
  ghost predicate SideOver(script: seq<Incoming>, times: nat, pos: nat) {
    pos == times == |script| || (pos == times + 1 <= |script| && Given(script[times]) == [])
  }

  /** A side was read once for each report in the `turns` that were complete, and perhaps once
      more in the last; and all times but the last gave bytes. */
  ghost predicate ReadAsReported(script: seq<Incoming>, selects: seq<Selected>, turns: nat, client: bool, pos: nat) {
    && turns <= |selects| && pos <= |script|
    && var times := Reported(selects, turns, client);
       && times <= pos <= times + 1
       && (pos > times ==> turns < |selects| && Reports(selects[turns], client))
       && forall i :: 0 <= i < times ==> Given(script[i]) != []
  }

  /** The same after complete turns alone. */
  ghost predicate InStepWith(script: seq<Incoming>, selects: seq<Selected>, turns: nat, client: bool, pos: nat) {
    && turns <= |selects| && pos <= |script| && pos == Reported(selects, turns, client)
    && forall i :: 0 <= i < pos ==> Given(script[i]) != []
  }

  /** A side is in step, and perhaps was read once more. */
  lemma {:induction false} StepIsReported(
    script: seq<Incoming>, selects: seq<Selected>, turns: nat, client: bool, pos: nat)
    requires InStepWith(script, selects, turns, client, pos)
    ensures ReadAsReported(script, selects, turns, client, pos)
    ensures turns < |selects| && Reports(selects[turns], client) && pos < |script| ==>
              && ReadAsReported(script, selects, turns, client, pos + 1)
              && (Given(script[pos]) != [] ==> InStepWith(script, selects, turns + 1, client, pos + 1))
    ensures turns < |selects| && !Reports(selects[turns], client) ==>
              InStepWith(script, selects, turns + 1, client, pos)
  {
  }

  /** What ended a mesh pump: select() itself, or a side that it reported. */
  ghost predicate SelectsOver(
    selects: seq<Selected>, turns: nat, client: seq<Incoming>, mesh: seq<Incoming>, cpos: nat, mpos: nat)
    requires turns <= |selects|
  {
    || turns == |selects|
    || selects[turns].SelectFailed?
    || (Reports(selects[turns], true) && SideOver(client, Reported(selects, turns, true), cpos))
    || (Reports(selects[turns], false) && SideOver(mesh, Reported(selects, turns, false), mpos))
  }
}
