/** The three byte pumps, each against the streams it reads and the streams it feeds. */
module Pumps {
  import opened Bytes
  import opened Streams
  import opened ChunkLog
  import opened ImportScript
  import opened Turns

  /** `out` carries the stream read from `from`, with at most one buffer still missing. */
  ghost predicate Follows(from: Endpoint, out: Endpoint)
    reads from, out
  {
    out.delivered <= from.received && |from.received| <= |out.delivered| + BUFFER
  }

  /** The whole of what was read has been delivered. */
  ghost predicate CaughtUp(from: Endpoint, out: Endpoint)
    reads from, out
  {
    out.delivered == from.received
  }

  /** Two fresh endpoints with two handles in one table: where a pump starts. */
  ghost predicate Paired(a: Endpoint, b: Endpoint)
    reads a, b, a.os, b.os
  {
    a != b && a.os == b.os && a.handle != b.handle && a.IsOpen() && b.IsOpen() && a.Untouched() && b.Untouched()
  }

  /** Two endpoints in use. */
  ghost predicate Joined(a: Endpoint, b: Endpoint)
    reads a, b, a.os, b.os
  {
    a != b && a.IsOpen() && b.IsOpen() && a.Valid() && b.Valid()
  }

  /** Delivering part of the last chunk leaves a prefix of what was read. */
  lemma PartDelivered(sent: seq<Byte>, chunk: seq<Byte>, k: nat)
    requires k <= |chunk|
    ensures sent + chunk[..k] <= sent + chunk
  {
    assert sent + chunk == sent + chunk[..k] + chunk[k..];
  }

  /** Every turn was begun after a look that still found the flag set. */
  ghost predicate Prompt(flag: StopFlag, looks: nat, turns: nat)
    reads flag
  {
    looks + turns <= flag.looks && (flag.clears ==> turns == 0 || looks + turns <= flag.clearedAt)
  }

  /** Ends that take whatever they are offered, and so have taken everything so far. */
  ghost predicate WillingEnds(a: Endpoint, b: Endpoint)
    reads a, b
  {
    && Willing(a.answers, |b.script|) && Willing(b.answers, |a.script|) && a.opos <= b.pos && b.opos <= a.pos
    && !a.refused && !b.refused && CaughtUp(a, b) && CaughtUp(b, a)
  }

  // ------------------------------------------------------------ SSH export

  /** The write loop of the SSH export pump: offer the chunk until it is taken, the
      channel fails, or the export stops. */
  method WriteChunk(chan: Endpoint, buf: array<Byte>, n: nat, flag: StopFlag) returns (failed: bool, ghost off: nat)
    requires chan.Valid() && chan.IsOpen() && chan.channel && n <= buf.Length
    modifies chan`opos, chan`delivered, chan`failed, chan`refused, chan`writeAgain, flag
    ensures chan.Valid() && off <= n && chan.delivered == old(chan.delivered) + buf[..off]
    ensures off == n || failed || flag.Stopped()
    ensures chan.failed == (old(chan.failed) || failed) && chan.refused == (old(chan.refused) || failed)
    ensures (old(flag.Stopped()) ==> flag.Stopped()) && flag.looks >= old(flag.looks)
    ensures old(chan.TakesNext()) && 0 < n <= BUFFER ==>
              !failed && chan.opos == if off == n then old(chan.opos) + 1 else old(chan.opos)
  {
    var done := 0;
    off, failed := 0, false;
    var running := flag.Load();
    while done < n && running
      invariant chan.Valid() && off == done <= n && chan.delivered == old(chan.delivered) + buf[..done]
      invariant chan.failed == old(chan.failed) && chan.refused == old(chan.refused)
      invariant !running ==> flag.Stopped()
      invariant (old(flag.Stopped()) ==> flag.Stopped()) && flag.looks >= old(flag.looks)
      invariant old(chan.TakesNext()) && 0 < n <= BUFFER ==>
                  (done == 0 || done == n) && chan.opos == if done == 0 then old(chan.opos) else old(chan.opos) + 1
      decreases |chan.answers| - chan.opos, n - done
    {
      var w, again := chan.Write(buf, done, n);
      if w < 0 && !again {
        failed := true;
        break;
      }
      if !again {
        assert buf[..done] + buf[done..done + w] == buf[..done + w];
        done := done + w;
        off := done;
      }
      running := flag.Load();
    }
  }

  /** One turn of local -> channel. It takes one entry of the local script; `stop` leaves
      the pump's loop, for an end of that script or a channel that failed. */
  method LocalToChannel(local: Endpoint, chan: Endpoint, buf: array<Byte>, flag: StopFlag) returns (stop: bool)
    requires Joined(local, chan) && !local.channel && chan.channel && buf.Length == BUFFER
    requires !chan.ended && !local.atEnd && CaughtUp(local, chan)
    modifies local`pos, local`received, local`atEnd, local`failed, local`readAgain
    modifies chan`opos, chan`delivered, chan`failed, chan`refused, chan`writeAgain, chan`ended, buf, flag
    ensures local.Valid() && chan.Valid() && Follows(local, chan)
    ensures chan.ended <==> local.atEnd
    ensures chan.ended ==> stop && CaughtUp(local, chan)
    ensures stop ==> local.atEnd || local.failed || chan.failed
    ensures stop || CaughtUp(local, chan) || flag.Stopped()
    ensures (old(chan.refused) ==> chan.refused) && (old(flag.Stopped()) ==> flag.Stopped())
    ensures flag.looks >= old(flag.looks)
    ensures old(local.pos) == |local.script| ==>
              && stop && local.pos == old(local.pos) && CaughtUp(local, chan)
              && chan.refused == old(chan.refused) && chan.opos == old(chan.opos)
    ensures old(local.pos) < |local.script| ==>
              && local.pos == old(local.pos) + 1
              && (Ends(false, local.script[old(local.pos)]) ==> stop)
              && (stop ==> Ends(false, local.script[old(local.pos)]) || chan.refused)
    ensures !flag.clears && old(WillingEnds(local, chan)) ==> WillingEnds(local, chan)
  {
    stop := false;
    var ready := local.Ready();
    if ready {
      var n, eof, again := local.Read(buf);
      if n == 0 {
        chan.EndStream();
        stop := true;
      } else if n < 0 {
        stop := !again;
      } else {
        ghost var before, chunk := chan.delivered, buf[..n];
        var failed, off := WriteChunk(chan, buf, n, flag);
        assert buf[..off] == chunk[..off];
        PartDelivered(before, chunk, off);
        stop := failed;
      }
    }
  }

  /** One turn of channel -> local. It takes one entry of the channel's script. */
  method ChannelToLocal(local: Endpoint, chan: Endpoint, buf: array<Byte>, flag: StopFlag) returns (stop: bool)
    requires Joined(local, chan) && !local.channel && chan.channel && buf.Length == BUFFER
    requires !local.ended && !chan.atEnd && CaughtUp(chan, local)
    modifies chan`pos, chan`received, chan`atEnd, chan`failed, chan`readAgain
    modifies local`opos, local`delivered, local`failed, local`refused, local`writeAgain, local`ended, buf, flag
    ensures local.Valid() && chan.Valid() && Follows(chan, local)
    ensures local.ended <==> chan.atEnd
    ensures local.ended ==> stop && CaughtUp(chan, local)
    ensures stop ==> chan.atEnd || chan.failed || local.failed || flag.Stopped()
    ensures stop || CaughtUp(chan, local)
    ensures (old(local.refused) ==> local.refused) && (old(flag.Stopped()) ==> flag.Stopped())
    ensures flag.looks >= old(flag.looks)
    ensures old(chan.pos) == |chan.script| ==>
              && stop && chan.pos == old(chan.pos) && CaughtUp(chan, local)
              && local.refused == old(local.refused) && local.opos == old(local.opos)
    ensures old(chan.pos) < |chan.script| ==>
              && chan.pos == old(chan.pos) + 1
              && (Ends(true, chan.script[old(chan.pos)]) ==> stop)
              && (stop ==> Ends(true, chan.script[old(chan.pos)]) || local.refused || flag.Stopped())
    ensures !flag.clears && old(WillingEnds(local, chan)) ==> WillingEnds(local, chan)
  {
    var m, eof, again := chan.Read(buf);
    stop := false;
    if m > 0 {
      ghost var before, chunk := local.delivered, buf[..m];
      var ok, sent := SendAll(local, buf, m, flag);
      assert buf[..sent] == chunk[..sent];
      PartDelivered(before, chunk, sent);
      stop := !ok;
    } else if eof {
      local.EndStream();
      stop := true;
    } else {
      stop := m < 0 && !again;
    }
  }

  /** One turn of the export pump's loop, after a number of whole ones. */
  method ExportTurn(local: Endpoint, chan: Endpoint, buf: array<Byte>, flag: StopFlag) returns (stop: bool)
    requires Joined(local, chan) && !local.channel && chan.channel && buf.Length == BUFFER
    requires !local.ended && !chan.ended && !local.atEnd && !chan.atEnd
    requires CaughtUp(local, chan) && CaughtUp(chan, local) && !flag.Stopped()
    requires local.pos == chan.pos && WholeTurns(ExportSide, local.script, chan.script, chan.pos)
    modifies local`pos, local`received, local`atEnd, local`failed, local`readAgain
    modifies local`opos, local`delivered, local`refused, local`writeAgain, local`ended
    modifies chan`pos, chan`received, chan`atEnd, chan`failed, chan`readAgain
    modifies chan`opos, chan`delivered, chan`refused, chan`writeAgain, chan`ended, buf, flag
    ensures local.Valid() && chan.Valid() && Follows(local, chan) && Follows(chan, local)
    ensures (chan.ended <==> local.atEnd) && (chan.ended ==> stop && CaughtUp(local, chan))
    ensures (local.ended <==> chan.atEnd) && (local.ended ==> stop && CaughtUp(chan, local))
    ensures stop ==> flag.Stopped() || local.atEnd || chan.atEnd || local.failed || chan.failed
    ensures !stop ==> CaughtUp(chan, local) && (CaughtUp(local, chan) || flag.Stopped())
    ensures flag.looks >= old(flag.looks)
    ensures local.pos <= old(local.pos) + 1 && Took(ExportSide, local.script, chan.script, local.pos, chan.pos)
    ensures stop ==> || flag.Stopped() || local.refused || chan.refused
                     || ScriptsOver(ExportSide, local.script, chan.script, local.pos, chan.pos)
    ensures !stop ==>
              && local.pos == chan.pos == old(local.pos) + 1
              && WholeTurns(ExportSide, local.script, chan.script, chan.pos)
    ensures !flag.clears && old(WillingEnds(local, chan)) ==> WillingEnds(local, chan)
  {
    stop := LocalToChannel(local, chan, buf, flag);
    if !stop {
      stop := ChannelToLocal(local, chan, buf, flag);
    }
  }

  /** The export pump's loop, up to the release of both ends. */
  method ExportLoop(local: Endpoint, chan: Endpoint, flag: StopFlag)
    requires Paired(local, chan) && !local.channel && chan.channel
    modifies local, chan, flag
    ensures local.Valid() && chan.Valid() && Follows(local, chan) && Follows(chan, local)
    ensures (chan.ended <==> local.atEnd) && (chan.ended ==> CaughtUp(local, chan))
    ensures (local.ended <==> chan.atEnd) && (local.ended ==> CaughtUp(chan, local))
    ensures flag.Stopped() || local.atEnd || chan.atEnd || local.failed || chan.failed
    ensures Took(ExportSide, local.script, chan.script, local.pos, chan.pos)
    ensures || flag.Stopped() || local.refused || chan.refused
            || ScriptsOver(ExportSide, local.script, chan.script, local.pos, chan.pos)
    ensures Prompt(flag, old(flag.looks), local.pos)
    ensures !flag.clears && old(WillingEnds(local, chan)) ==> WillingEnds(local, chan)
  {
    ghost var began := flag.looks;
    var buf := new Byte[BUFFER];
    var running := flag.Load();
    while running
      invariant Joined(local, chan) && !local.ended && !chan.ended && !local.atEnd && !chan.atEnd
      invariant running <==> !flag.Stopped()
      invariant Follows(local, chan) && CaughtUp(chan, local)
      invariant CaughtUp(local, chan) || flag.Stopped()
      invariant local.pos == chan.pos && WholeTurns(ExportSide, local.script, chan.script, chan.pos)
      invariant flag.looks > began + local.pos
      invariant flag.clears ==> local.pos == 0 || began + local.pos <= flag.clearedAt
      invariant !flag.clears && old(WillingEnds(local, chan)) ==> WillingEnds(local, chan)
      decreases |local.script| - local.pos
    {
      var stop := ExportTurn(local, chan, buf, flag);
      if stop {
        break;
      }
      running := flag.Load();
    }
  }

  /** A pump that was not stopped, on ends that take what they are offered, has delivered
      all it read, and where nothing in the scripts ends it, all of the shorter one. */
  ghost predicate AllDelivered(side: Side, local: Endpoint, chan: Endpoint)
    reads local, chan
  {
    && local.Valid() && chan.Valid()
    && chan.delivered == GivenBy(local.script, local.pos) && local.delivered == GivenBy(chan.script, chan.pos)
    && (Endless(side, local.script, chan.script) ==>
          if |local.script| > |chan.script| then chan.pos == |chan.script| else local.pos == |local.script|)
  }

  /** SshExporter::Pump from its first look at `running` to the release of both ends.
      Whatever the endpoints answer and whenever the export stops, each direction
      delivers a prefix of what was read in that direction, which is what the results of
      the reads gave; an end of stream is passed on exactly when one was seen, and only
      after everything read before it was delivered; and the pump gives up for no other
      reason than such an end, a failed call or the stop. Until then it takes one entry of
      each script per turn, and looks at the flag before every turn. */
  method SshExportPump(local: Endpoint, chan: Endpoint, flag: StopFlag)
    requires Paired(local, chan) && !local.channel && chan.channel
    modifies local, chan, flag, local.os`open
    ensures local.os.Valid() && local.os.open == old(local.os.open) - {local.handle, chan.handle}
    ensures local.Valid() && chan.Valid() && Follows(local, chan) && Follows(chan, local)
    ensures (chan.ended <==> local.atEnd) && (chan.ended ==> CaughtUp(local, chan))
    ensures (local.ended <==> chan.atEnd) && (local.ended ==> CaughtUp(chan, local))
    ensures flag.Stopped() || local.atEnd || chan.atEnd || local.failed || chan.failed
    ensures Took(ExportSide, local.script, chan.script, local.pos, chan.pos)
    ensures || flag.Stopped() || local.refused || chan.refused
            || ScriptsOver(ExportSide, local.script, chan.script, local.pos, chan.pos)
    ensures Prompt(flag, old(flag.looks), local.pos)
    ensures !flag.clears && old(WillingEnds(local, chan)) ==> AllDelivered(ExportSide, local, chan)
  {
    ExportLoop(local, chan, flag);
    if !flag.clears && old(WillingEnds(local, chan)) && Endless(ExportSide, local.script, chan.script) {
      ShorterIsDone(ExportSide, local.script, chan.script, local.pos, chan.pos);
    }
    local.Close();
    chan.Close();
  }

  // ---------------------------------------------------------------- mesh

  /** One read of the mesh pump in one direction: the buffer is shared, the streams not. */
  method Relay(from: Endpoint, out: Endpoint, buf: array<Byte>, flag: StopFlag) returns (stop: bool)
    requires Joined(from, out) && !from.channel && !out.channel && buf.Length == BUFFER
    requires !out.ended && !from.atEnd && CaughtUp(from, out)
    modifies from`pos, from`received, from`atEnd, from`failed, from`readAgain
    modifies out`opos, out`delivered, out`failed, out`refused, out`writeAgain, out`ended, buf, flag
    ensures from.Valid() && out.Valid() && Follows(from, out)
    ensures out.ended <==> from.atEnd
    ensures out.ended ==> stop && CaughtUp(from, out)
    ensures stop ==> from.atEnd || from.failed || from.readAgain || out.failed || flag.Stopped()
    ensures stop || CaughtUp(from, out)
    ensures (old(out.refused) ==> out.refused) && (old(flag.Stopped()) ==> flag.Stopped())
    ensures flag.looks >= old(flag.looks)
    ensures old(from.pos) == |from.script| ==>
              && stop && from.pos == old(from.pos) && CaughtUp(from, out)
              && out.refused == old(out.refused) && out.opos == old(out.opos)
    ensures old(from.pos) < |from.script| ==>
              && from.pos == old(from.pos) + 1
              && (Given(from.script[old(from.pos)]) == [] ==> stop)
              && (stop ==> Given(from.script[old(from.pos)]) == [] || out.refused || flag.Stopped())
    ensures !flag.clears && old(WillingEnds(from, out)) ==> WillingEnds(from, out)
  {
    var n, eof, again := from.Read(buf);
    stop := false;
    if n == 0 {
      out.EndStream();
      stop := true;
    } else if n < 0 {
      stop := true;
    } else {
      ghost var before, chunk := out.delivered, buf[..n];
      var ok, sent := SendAll(out, buf, n, flag);
      assert buf[..sent] == chunk[..sent];
      PartDelivered(before, chunk, sent);
      stop := !ok;
    }
  }

  /** One side's half of turn `turn`: it is read if select() reported it. */
  method RelayReported(
    from: Endpoint, out: Endpoint, selects: seq<Selected>, turn: nat, side: bool, buf: array<Byte>, flag: StopFlag)
    returns (stop: bool)
    requires Joined(from, out) && !from.channel && !out.channel && buf.Length == BUFFER
    requires !out.ended && !from.atEnd && CaughtUp(from, out) && turn < |selects|
    requires InStepWith(from.script, selects, turn, side, from.pos)
    modifies from`pos, from`received, from`atEnd, from`failed, from`readAgain
    modifies out`opos, out`delivered, out`failed, out`refused, out`writeAgain, out`ended, buf, flag
    ensures from.Valid() && out.Valid() && Follows(from, out)
    ensures (out.ended <==> from.atEnd) && (out.ended ==> stop && CaughtUp(from, out))
    ensures stop ==> from.atEnd || from.failed || from.readAgain || out.failed || flag.Stopped()
    ensures stop || CaughtUp(from, out)
    ensures (old(out.refused) ==> out.refused) && (old(flag.Stopped()) ==> flag.Stopped())
    ensures flag.looks >= old(flag.looks)
    ensures ReadAsReported(from.script, selects, turn, side, from.pos)
    ensures stop ==> || flag.Stopped() || out.refused
                     || (Reports(selects[turn], side) && SideOver(from.script, Reported(selects, turn, side), from.pos))
    ensures !stop ==> InStepWith(from.script, selects, turn + 1, side, from.pos)
    ensures !flag.clears && old(WillingEnds(from, out)) ==> WillingEnds(from, out)
  {
    stop := false;
    StepIsReported(from.script, selects, turn, side, from.pos);
    if Reports(selects[turn], side) {
      stop := Relay(from, out, buf, flag);
    }
  }

  lemma WillingBothWays(a: Endpoint, b: Endpoint)
    ensures WillingEnds(a, b) <==> WillingEnds(b, a)
  {
  }

  /** Why a mesh pump may give up, other than a failing select(). */
  ghost predicate Finished(client: Endpoint, mesh: Endpoint, flag: StopFlag)
    reads client, mesh, flag
  {
    || flag.Stopped() || client.atEnd || mesh.atEnd
    || client.failed || mesh.failed || client.readAgain || mesh.readAgain
  }

  /** Both sides of the mesh pump were read as often as select() reported them. */
  ghost predicate BothRead(client: Endpoint, mesh: Endpoint, selects: seq<Selected>, turns: nat)
    reads client, mesh
  {
    && ReadAsReported(client.script, selects, turns, true, client.pos)
    && ReadAsReported(mesh.script, selects, turns, false, mesh.pos)
  }

  /** After `turns` complete turns: nothing is pending. */
  ghost predicate InStep(client: Endpoint, mesh: Endpoint, selects: seq<Selected>, turns: nat)
    reads client, mesh
  {
    && InStepWith(client.script, selects, turns, true, client.pos)
    && InStepWith(mesh.script, selects, turns, false, mesh.pos)
    && !client.ended && !mesh.ended && !client.atEnd && !mesh.atEnd
    && CaughtUp(client, mesh) && CaughtUp(mesh, client)
  }

  /** One turn of the mesh pump, number `turn`, for an answer of select() that is no failure. */
  method MeshTurn(
    client: Endpoint, mesh: Endpoint, selects: seq<Selected>, turn: nat, buf: array<Byte>, flag: StopFlag)
    returns (stop: bool)
    requires Joined(client, mesh) && !client.channel && !mesh.channel && buf.Length == BUFFER
    requires turn < |selects| && !selects[turn].SelectFailed? && InStep(client, mesh, selects, turn) && !flag.Stopped()
    modifies client`pos, client`received, client`atEnd, client`failed, client`readAgain
    modifies client`opos, client`delivered, client`refused, client`writeAgain, client`ended
    modifies mesh`pos, mesh`received, mesh`atEnd, mesh`failed, mesh`readAgain
    modifies mesh`opos, mesh`delivered, mesh`refused, mesh`writeAgain, mesh`ended, buf, flag
    ensures client.Valid() && mesh.Valid() && Follows(client, mesh) && Follows(mesh, client)
    ensures (mesh.ended <==> client.atEnd) && (mesh.ended ==> stop && CaughtUp(client, mesh))
    ensures (client.ended <==> mesh.atEnd) && (client.ended ==> stop && CaughtUp(mesh, client))
    ensures !(mesh.ended && client.ended)
    ensures stop ==> Finished(client, mesh, flag) && BothRead(client, mesh, selects, turn)
    ensures stop ==> || flag.Stopped() || client.refused || mesh.refused
                     || SelectsOver(selects, turn, client.script, mesh.script, client.pos, mesh.pos)
    ensures !stop ==> InStep(client, mesh, selects, turn + 1)
    ensures flag.looks >= old(flag.looks)
    ensures !flag.clears && old(WillingEnds(client, mesh)) ==> WillingEnds(client, mesh)
  {
    StepIsReported(mesh.script, selects, turn, false, mesh.pos);
    stop := RelayReported(client, mesh, selects, turn, true, buf, flag);
    if !stop {
      WillingBothWays(client, mesh);
      stop := RelayReported(mesh, client, selects, turn, false, buf, flag);
      WillingBothWays(client, mesh);
    }
  }

  /** The mesh pump's loop, up to the release of both sockets. */
  method MeshLoop(client: Endpoint, mesh: Endpoint, selects: seq<Selected>, flag: StopFlag) returns (ghost turns: nat)
    requires Paired(client, mesh) && !client.channel && !mesh.channel
    modifies client, mesh, flag
    ensures client.Valid() && mesh.Valid() && Follows(client, mesh) && Follows(mesh, client)
    ensures (mesh.ended <==> client.atEnd) && (mesh.ended ==> CaughtUp(client, mesh))
    ensures (client.ended <==> mesh.atEnd) && (client.ended ==> CaughtUp(mesh, client))
    ensures !(mesh.ended && client.ended)
    ensures Finished(client, mesh, flag) ||
            (turns <= |selects| && (turns < |selects| ==> selects[turns].SelectFailed?))
    ensures BothRead(client, mesh, selects, turns)
    ensures || flag.Stopped() || client.refused || mesh.refused
            || SelectsOver(selects, turns, client.script, mesh.script, client.pos, mesh.pos)
    ensures Prompt(flag, old(flag.looks), turns)
    ensures !flag.clears && old(WillingEnds(client, mesh)) ==> WillingEnds(client, mesh)
  {
    ghost var began := flag.looks;
    var buf := new Byte[BUFFER];
    var turn := 0;
    turns := 0;
    var running := flag.Load();
    while running && turn < |selects| && !selects[turn].SelectFailed?
      invariant Joined(client, mesh) && turns == turn <= |selects| && (running <==> !flag.Stopped())
      invariant InStep(client, mesh, selects, turn)
      invariant flag.looks > began + turn
      invariant flag.clears ==> turn == 0 || began + turn <= flag.clearedAt
      invariant !flag.clears && old(WillingEnds(client, mesh)) ==> WillingEnds(client, mesh)
      decreases |selects| - turn
    {
      var stop := MeshTurn(client, mesh, selects, turn, buf, flag);
      if stop {
        break;
      }
      turn := turn + 1;
      turns := turn;
      running := flag.Load();
    }
    if InStep(client, mesh, selects, turn) {
      StepIsReported(client.script, selects, turn, true, client.pos);
      StepIsReported(mesh.script, selects, turn, false, mesh.pos);
    }
  }

  /** MeshForwarder::Pump. Both directions share one buffer and one loop; each delivers a
      prefix of its own source, an end of stream is passed on exactly when one was seen
      and leaves its direction complete, and both sockets are closed once. The other
      direction may be cut short by the break. In each of its `turns` complete turns the
      pump reads every side that select() reported, and it gives up only where select()
      fails, where a side it reported has nothing more, on a failed write or on the stop. */
  method MeshPump(client: Endpoint, mesh: Endpoint, selects: seq<Selected>, flag: StopFlag) returns (ghost turns: nat)
    requires Paired(client, mesh) && !client.channel && !mesh.channel
    modifies client, mesh, flag, client.os`open
    ensures client.os.Valid() && client.os.open == old(client.os.open) - {client.handle, mesh.handle}
    ensures client.Valid() && mesh.Valid() && Follows(client, mesh) && Follows(mesh, client)
    ensures (mesh.ended <==> client.atEnd) && (mesh.ended ==> CaughtUp(client, mesh))
    ensures (client.ended <==> mesh.atEnd) && (client.ended ==> CaughtUp(mesh, client))
    ensures !(mesh.ended && client.ended)
    ensures Finished(client, mesh, flag) ||
            (turns <= |selects| && (turns < |selects| ==> selects[turns].SelectFailed?))
    ensures BothRead(client, mesh, selects, turns)
    ensures || flag.Stopped() || client.refused || mesh.refused
            || SelectsOver(selects, turns, client.script, mesh.script, client.pos, mesh.pos)
    ensures Prompt(flag, old(flag.looks), turns)
    ensures !flag.clears && old(WillingEnds(client, mesh)) ==>
              && !client.refused && !mesh.refused
              && mesh.delivered == GivenBy(client.script, client.pos)
              && client.delivered == GivenBy(mesh.script, mesh.pos)
  {
    turns := MeshLoop(client, mesh, selects, flag);
    client.Close();
    mesh.Close();
  }

  // ---------------------------------------------------------- SSH import

  /** The write loop of the import pump: unlike the export, EAGAIN abandons the rest. The
      outcome is one that the channel's answers allow, and a loop that was not stopped has
      run to its end. */
  method ImportWrite(chan: Endpoint, buf: array<Byte>, n: nat, flag: StopFlag) returns (failed: bool, ghost w: Write)
    requires chan.Valid() && chan.IsOpen() && chan.channel && n <= buf.Length
    modifies chan`opos, chan`delivered, chan`failed, chan`refused, chan`writeAgain, flag
    ensures chan.Valid() && w.sent <= n && chan.delivered == old(chan.delivered) + buf[..w.sent]
    ensures RanAt(n, chan.answers, old(chan.opos), w) && w.to == chan.opos && w.failed == failed
    ensures w.sent == n || w.again || w.failed || flag.Stopped()
    ensures chan.failed == (old(chan.failed) || failed) && chan.refused == (old(chan.refused) || failed)
    ensures chan.writeAgain == (old(chan.writeAgain) || w.again)
    ensures (old(flag.Stopped()) ==> flag.Stopped()) && flag.looks >= old(flag.looks)
  {
    var done := 0;
    failed := false;
    ghost var again := false;
    var running := flag.Load();
    while done < n && running
      invariant chan.Valid() && done <= n && chan.delivered == old(chan.delivered) + buf[..done]
      invariant chan.failed == old(chan.failed) && chan.refused == old(chan.refused)
      invariant chan.writeAgain == old(chan.writeAgain)
      invariant !running ==> flag.Stopped()
      invariant (old(flag.Stopped()) ==> flag.Stopped()) && flag.looks >= old(flag.looks)
      invariant RanAt(n, chan.answers, old(chan.opos), Write(done, false, false, chan.opos))
      decreases |chan.answers| - chan.opos, n - done
    {
      RanAtExtends(n, chan.answers, old(chan.opos), done, chan.opos);
      var rc, eagain := chan.Write(buf, done, n);
      if rc < 0 {
        failed, again := !eagain, eagain;
        break;
      }
      assert buf[..done] + buf[done..done + rc] == buf[..done + rc];
      done := done + rc;
      running := flag.Load();
    }
    w := Write(done, again, failed, chan.opos);
  }

  /** The same for one chunk, with what it means on a channel that takes what it is offered. */
  method WriteImported(chan: Endpoint, buf: array<Byte>, n: nat, flag: StopFlag) returns (failed: bool, ghost w: Write)
    requires chan.Valid() && chan.IsOpen() && chan.channel && 0 < n <= buf.Length == BUFFER
    modifies chan`opos, chan`delivered, chan`failed, chan`refused, chan`writeAgain, flag
    ensures chan.Valid() && w.sent <= n && chan.delivered == old(chan.delivered) + buf[..w.sent]
    ensures RanAt(n, chan.answers, old(chan.opos), w) && w.to == chan.opos && w.failed == failed
    ensures w.sent == n || w.again || w.failed || flag.Stopped()
    ensures chan.failed == (old(chan.failed) || failed) && chan.refused == (old(chan.refused) || failed)
    ensures chan.writeAgain == (old(chan.writeAgain) || w.again)
    ensures (old(flag.Stopped()) ==> flag.Stopped()) && flag.looks >= old(flag.looks)
    ensures old(chan.TakesNext()) ==>
              !failed && (w.sent == n || flag.Stopped()) && old(chan.opos) <= chan.opos <= old(chan.opos) + 1
  {
    failed, w := ImportWrite(chan, buf, n, flag);
    if old(chan.TakesNext()) {
      WillingRanAt(n, chan.answers, old(chan.opos), w);
    }
  }

  /** The other write loop: send to the client until done, an error, or the stop. */
  method ImportSend(client: Endpoint, buf: array<Byte>, m: nat, flag: StopFlag)
    returns (failed: bool, ghost written: nat)
    requires client.Valid() && client.IsOpen() && m <= buf.Length
    modifies client`opos, client`delivered, client`failed, client`refused, client`writeAgain, flag
    ensures client.Valid() && written <= m && client.delivered == old(client.delivered) + buf[..written]
    ensures written == m || failed || flag.Stopped()
    ensures failed ==> (client.failed && client.refused) || client.writeAgain
    ensures (old(flag.Stopped()) ==> flag.Stopped()) && flag.looks >= old(flag.looks)
    ensures old(client.refused) ==> client.refused
    ensures old(client.TakesNext()) && 0 < m <= BUFFER ==>
              && !failed && client.refused == old(client.refused) && client.writeAgain == old(client.writeAgain)
              && client.opos == if written == m then old(client.opos) + 1 else old(client.opos)
  {
    var done := 0;
    failed, written := false, 0;
    var running := flag.Load();
    while done < m && running
      invariant client.Valid() && written == done <= m && client.delivered == old(client.delivered) + buf[..done]
      invariant !running ==> flag.Stopped()
      invariant (old(flag.Stopped()) ==> flag.Stopped()) && flag.looks >= old(flag.looks)
      invariant old(client.refused) ==> client.refused
      invariant old(client.TakesNext()) && 0 < m <= BUFFER ==>
                  && client.refused == old(client.refused) && client.writeAgain == old(client.writeAgain)
                  && (done == 0 || done == m)
                  && client.opos == if done == 0 then old(client.opos) else old(client.opos) + 1
      decreases |client.answers| - client.opos, m - done
    {
      var rc, again := client.Write(buf, done, m);
      if rc < 0 {
        failed := true;
        break;
      }
      assert buf[..done] + buf[done..done + rc] == buf[..done + rc];
      done := done + rc;
      written := done;
      running := flag.Load();
    }
  }

  /** The moment an import pump is at. */
  ghost function Now(client: Endpoint, chan: Endpoint): Moment
    reads client, chan
  {
    Moment(client.pos, chan.opos, client.received, chan.delivered, chan.writeAgain)
  }

  /** The next result of the client's socket. bytes > 0: that many; bytes == 0: select() had
      nothing; bytes < 0: the end, an error, or a read that would block. */
  method TakeClient(client: Endpoint, buf: array<Byte>) returns (bytes: int)
    requires client.Valid() && client.IsOpen() && !client.channel && buf.Length == BUFFER
    modifies client`pos, client`received, client`atEnd, client`failed, client`readAgain, buf
    ensures client.Valid() && bytes <= BUFFER
    ensures client.received == old(client.received) + buf[..if bytes > 0 then bytes else 0]
    ensures bytes < 0 ==> client.atEnd || client.failed || client.readAgain
    ensures old(client.pos) == |client.script| ==> bytes < 0 && client.pos == old(client.pos)
    ensures old(client.pos) < |client.script| ==>
              && client.pos == old(client.pos) + 1
              && buf[..if bytes > 0 then bytes else 0] == Given(client.script[old(client.pos)])
              && (bytes == 0 <==> client.script[old(client.pos)].Idle?)
              && (bytes < 0 <==> Stops(ImportSide, client.script[old(client.pos)]))
  {
    bytes := 0;
    var ready := client.Ready();
    if ready {
      var eof, again;
      bytes, eof, again := client.Read(buf);
      if bytes == 0 {
        bytes := -1;
      }
    }
  }

  /** One turn of client -> channel in the import. */
  method ClientToChannel(client: Endpoint, chan: Endpoint, buf: array<Byte>, flag: StopFlag)
    returns (stop: bool, ghost turn: Turn)
    requires Joined(client, chan) && !client.channel && chan.channel && buf.Length == BUFFER
    modifies client`pos, client`received, client`atEnd, client`failed, client`readAgain
    modifies chan`opos, chan`delivered, chan`failed, chan`refused, chan`writeAgain, buf, flag
    ensures client.Valid() && chan.Valid()
    ensures Wrote(client.script, chan.answers, turn, stop, old(Now(client, chan)), Now(client, chan))
    ensures RanOut(turn) || flag.Stopped()
    ensures stop ==> client.atEnd || client.failed || client.readAgain || chan.failed
    ensures (old(chan.refused) ==> chan.refused) && (old(flag.Stopped()) ==> flag.Stopped())
    ensures flag.looks >= old(flag.looks)
    ensures old(client.pos) == |client.script| ==>
              && stop && client.pos == old(client.pos)
              && chan.refused == old(chan.refused) && chan.opos == old(chan.opos)
    ensures old(client.pos) < |client.script| ==>
              && client.pos == old(client.pos) + 1
              && (Stops(ImportSide, client.script[old(client.pos)]) ==> stop)
              && (stop ==> Stops(ImportSide, client.script[old(client.pos)]) || chan.refused)
    ensures !flag.clears && old(WillingEnds(client, chan)) ==> WillingEnds(client, chan)
  {
    stop, turn := false, NoChunk;
    var bytes := TakeClient(client, buf);
    if bytes < 0 {
      stop := true;
    } else if bytes > 0 {
      ghost var data, w := buf[..bytes], Write(0, false, false, 0);
      stop, w := WriteImported(chan, buf, bytes, flag);
      assert buf[..w.sent] == data[..w.sent];
      turn := OneChunk(Chunk(data, w.sent, w.again), w);
    }
  }

  /** One turn of channel -> client in the import. */
  method ChannelToClient(client: Endpoint, chan: Endpoint, buf: array<Byte>, flag: StopFlag) returns (stop: bool)
    requires Joined(client, chan) && chan.channel && buf.Length == BUFFER && CaughtUp(chan, client)
    modifies chan`pos, chan`received, chan`atEnd, chan`failed, chan`readAgain
    modifies client`opos, client`delivered, client`failed, client`refused, client`writeAgain, buf, flag
    ensures client.Valid() && chan.Valid() && Follows(chan, client)
    ensures stop || flag.Stopped() || CaughtUp(chan, client)
    ensures stop ==> chan.atEnd || chan.failed || client.failed || client.writeAgain
    ensures (old(client.refused) ==> client.refused) && (old(flag.Stopped()) ==> flag.Stopped())
    ensures flag.looks >= old(flag.looks)
    ensures old(chan.pos) == |chan.script| ==>
              && stop && chan.pos == old(chan.pos) && CaughtUp(chan, client) && client.opos == old(client.opos)
              && client.refused == old(client.refused) && client.writeAgain == old(client.writeAgain)
    ensures old(chan.pos) < |chan.script| ==>
              && chan.pos == old(chan.pos) + 1
              && (Ends(true, chan.script[old(chan.pos)]) ==> stop)
              && (stop ==> Ends(true, chan.script[old(chan.pos)]) || client.refused || client.writeAgain)
              && (QuietAnswer(chan.script[old(chan.pos)]) ==> !stop)
    ensures !flag.clears && old(WillingEnds(client, chan)) ==>
              WillingEnds(client, chan) && client.writeAgain == old(client.writeAgain)
  {
    var m, eof, again := chan.Read(buf);
    stop := false;
    if m > 0 {
      ghost var before, chunk := client.delivered, buf[..m];
      var failed, written := ImportSend(client, buf, m, flag);
      assert buf[..written] == chunk[..written];
      PartDelivered(before, chunk, written);
      stop := failed;
    } else {
      stop := eof || (m < 0 && !again);
    }
  }

  /** One turn of the import pump's loop, after a number of whole ones; `half` tells that it
      ended before its second half. */
  method ImportTurn(client: Endpoint, chan: Endpoint, buf: array<Byte>, flag: StopFlag)
    returns (stop: bool, ghost half: bool, ghost turn: Turn)
    requires Joined(client, chan) && !client.channel && chan.channel && buf.Length == BUFFER
    requires !flag.Stopped() && CaughtUp(chan, client)
    requires client.pos == chan.pos && WholeTurns(ImportSide, client.script, chan.script, chan.pos)
    modifies client`pos, client`received, client`atEnd, client`failed, client`readAgain
    modifies client`opos, client`delivered, client`refused, client`writeAgain
    modifies chan`pos, chan`received, chan`atEnd, chan`failed, chan`readAgain
    modifies chan`opos, chan`delivered, chan`refused, chan`writeAgain, buf, flag
    ensures client.Valid() && chan.Valid()
    ensures Follows(chan, client) && (stop || flag.Stopped() || CaughtUp(chan, client))
    ensures stop ==> || client.atEnd || chan.atEnd || client.failed || chan.failed
                     || client.readAgain || client.writeAgain
    ensures flag.looks >= old(flag.looks)
    ensures Wrote(client.script, chan.answers, turn, half, old(Now(client, chan)), Now(client, chan))
    ensures RanOut(turn) || flag.Stopped()
    ensures half ==> stop
    ensures Quiet(chan.script, |client.script|) ==> stop == half
    ensures client.pos <= old(client.pos) + 1 && Took(ImportSide, client.script, chan.script, client.pos, chan.pos)
    ensures stop ==> || flag.Stopped() || client.refused || chan.refused || client.writeAgain
                     || ScriptsOver(ImportSide, client.script, chan.script, client.pos, chan.pos)
    ensures !stop ==>
              && client.pos == chan.pos == old(client.pos) + 1
              && WholeTurns(ImportSide, client.script, chan.script, chan.pos)
    ensures !flag.clears && old(WillingEnds(client, chan)) ==>
              WillingEnds(client, chan) && client.writeAgain == old(client.writeAgain)
  {
    stop, turn := ClientToChannel(client, chan, buf, flag);
    half := stop;
    if !stop {
      stop := ChannelToClient(client, chan, buf, flag);
    }
  }

  /** The same turn with its entry in the record of the pump. */
  method RecordedTurn(client: Endpoint, chan: Endpoint, buf: array<Byte>, flag: StopFlag, ghost recs: seq<Record>)
    returns (stop: bool, ghost recs': seq<Record>, ghost going: bool, ghost cut: bool)
    requires Joined(client, chan) && !client.channel && chan.channel && buf.Length == BUFFER
    requires !flag.Stopped() && CaughtUp(chan, client)
    requires client.pos == chan.pos && WholeTurns(ImportSide, client.script, chan.script, chan.pos)
    requires Recorded(recs, client.script, chan.answers, Now(client, chan), true, false)
    modifies client`pos, client`received, client`atEnd, client`failed, client`readAgain
    modifies client`opos, client`delivered, client`refused, client`writeAgain
    modifies chan`pos, chan`received, chan`atEnd, chan`failed, chan`readAgain
    modifies chan`opos, chan`delivered, chan`refused, chan`writeAgain, buf, flag
    ensures client.Valid() && chan.Valid()
    ensures Follows(chan, client) && (stop || flag.Stopped() || CaughtUp(chan, client))
    ensures stop ==> || client.atEnd || chan.atEnd || client.failed || chan.failed
                     || client.readAgain || client.writeAgain
    ensures flag.looks >= old(flag.looks)
    ensures Recorded(recs', client.script, chan.answers, Now(client, chan), going, cut)
    ensures !stop ==> !cut && (going || flag.Stopped())
    ensures stop && !flag.Stopped() && Quiet(chan.script, |client.script|) ==> cut
    ensures client.pos <= old(client.pos) + 1 && Took(ImportSide, client.script, chan.script, client.pos, chan.pos)
    ensures stop ==> || flag.Stopped() || client.refused || chan.refused || client.writeAgain
                     || ScriptsOver(ImportSide, client.script, chan.script, client.pos, chan.pos)
    ensures !stop ==>
              && client.pos == chan.pos == old(client.pos) + 1
              && WholeTurns(ImportSide, client.script, chan.script, chan.pos)
    ensures !flag.clears && old(WillingEnds(client, chan)) ==>
              WillingEnds(client, chan) && client.writeAgain == old(client.writeAgain)
  {
    ghost var m := Now(client, chan);
    ghost var half, turn;
    stop, half, turn := ImportTurn(client, chan, buf, flag);
    recs' := RecordGrows(recs, client.script, chan.answers, m, turn, half, Now(client, chan));
    going, cut := GoesOn(turn, half), half && RanOut(turn);
  }

  /** The import pump's loop, up to the cleanup, with the record of its turns. */
  method ForwardLoop(client: Endpoint, chan: Endpoint, flag: StopFlag)
    returns (ghost recs: seq<Record>, ghost going: bool, ghost cut: bool)
    requires Paired(client, chan) && !client.channel && chan.channel
    modifies client, chan, flag
    ensures client.Valid() && chan.Valid() && Follows(chan, client) && !client.ended && !chan.ended
    ensures Recorded(recs, client.script, chan.answers, Now(client, chan), going, cut)
    ensures !flag.clears && Quiet(chan.script, |client.script|) ==> cut
    ensures || flag.Stopped() || client.atEnd || chan.atEnd || client.failed || chan.failed
            || client.readAgain || client.writeAgain
    ensures Took(ImportSide, client.script, chan.script, client.pos, chan.pos)
    ensures || flag.Stopped() || client.refused || chan.refused || client.writeAgain
            || ScriptsOver(ImportSide, client.script, chan.script, client.pos, chan.pos)
    ensures Prompt(flag, old(flag.looks), client.pos)
    ensures !flag.clears && old(WillingEnds(client, chan)) ==> WillingEnds(client, chan) && !client.writeAgain
  {
    ghost var began := flag.looks;
    var buffer := new Byte[BUFFER];
    recs, going, cut := [], true, false;
    var running := flag.Load();
    while running
      invariant Joined(client, chan) && !client.ended && !chan.ended
      invariant running <==> !flag.Stopped()
      invariant Recorded(recs, client.script, chan.answers, Now(client, chan), going, cut)
      invariant flag.Stopped() || (going && !cut)
      invariant Follows(chan, client) && (CaughtUp(chan, client) || flag.Stopped())
      invariant client.pos == chan.pos && WholeTurns(ImportSide, client.script, chan.script, chan.pos)
      invariant flag.looks > began + client.pos
      invariant flag.clears ==> client.pos == 0 || began + client.pos <= flag.clearedAt
      invariant !flag.clears && old(WillingEnds(client, chan)) ==> WillingEnds(client, chan) && !client.writeAgain
      decreases |client.script| - client.pos
    {
      var stop;
      stop, recs, going, cut := RecordedTurn(client, chan, buffer, flag, recs);
      if stop {
        break;
      }
      running := flag.Load();
    }
  }

  /** TunnelConnection::ForwardData. The log of chunks says exactly what it does to the
      client's stream: every chunk is written up to some point, and a chunk is cut short
      only by EAGAIN or as the last one. On a channel that never resumes after EAGAIN,
      and so on one that never reports it, the channel gets a prefix of what was read. A
      pump that is not stopped, on a channel that sends nothing, produces the log of
      ImportLog. What the channel sends reaches the client as a prefix in any case. No
      end of stream is passed on, and a client socket that would block ends the pump. The
      turns are as in the export: one entry of each script, and none after an end. */
  method ForwardData(client: Endpoint, chan: Endpoint, flag: StopFlag) returns (ghost log: seq<Chunk<Byte>>)
    requires Paired(client, chan) && !client.channel && chan.channel
    modifies client, chan, flag, client.os`open
    ensures client.os.Valid() && client.os.open == old(client.os.open) - {client.handle, chan.handle}
    ensures client.Valid() && chan.Valid() && Follows(chan, client) && !client.ended && !chan.ended
    ensures WellSent(log) && client.received == ReadOf(log) && chan.delivered == SentOf(log)
    ensures DropsExplained(log)
    ensures !Resumes(chan.answers) || NeverBlocks(chan.answers) || !chan.writeAgain ==>
              chan.delivered <= client.received
    ensures !flag.clears && Quiet(chan.script, |client.script|) ==> log == ImportLog(client.script, chan.answers)
    ensures || flag.Stopped() || client.atEnd || chan.atEnd || client.failed || chan.failed
            || client.readAgain || client.writeAgain
    ensures Took(ImportSide, client.script, chan.script, client.pos, chan.pos)
    ensures || flag.Stopped() || client.refused || chan.refused || client.writeAgain
            || ScriptsOver(ImportSide, client.script, chan.script, client.pos, chan.pos)
    ensures Prompt(flag, old(flag.looks), client.pos)
    ensures !flag.clears && old(WillingEnds(client, chan)) ==> AllDelivered(ImportSide, client, chan)
  {
    ghost var recs, going, cut := ForwardLoop(client, chan, flag);
    log := RecordDelivers(recs, client.script, chan.answers, Now(client, chan), going, cut);
    if !flag.clears && old(WillingEnds(client, chan)) && Endless(ImportSide, client.script, chan.script) {
      ShorterIsDone(ImportSide, client.script, chan.script, client.pos, chan.pos);
    }
    client.Close();
    chan.Close();
  }
}
