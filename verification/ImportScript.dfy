/** What the import pump does to the client's stream, as a function of what the client
    sends and of how the channel answers its writes, and exactly which answers lose bytes. */
module ImportScript {
  import opened Bytes
  import opened Streams
  import opened ChunkLog

  /** The end of one chunk's write loop, and the answers still to come. */
  datatype Outcome = Outcome(sent: nat, again: bool, failed: bool, rest: seq<Outgoing>)

  /** Offer `n` bytes until they are taken, the write reports EAGAIN, or it fails. */
  function Written(n: nat, out: seq<Outgoing>): (w: Outcome)
    ensures w.sent <= n
    ensures w.sent == n || w.again || w.failed
    decreases |out|
  {
    if n == 0 then Outcome(0, false, false, out)
    else if out == [] then Outcome(0, false, true, [])
    else match out[0]
      case Refused => Outcome(0, false, true, out[1..])
      case Blocked => Outcome(0, true, false, out[1..])
      case Takes(_) =>
        var k: nat := Accepted(out[0], n);
        var w := Written(n - k, out[1..]);
        w.(sent := w.sent + k)
  }

  /** The log of a pump that is not stopped and whose channel sends nothing: one entry per
      chunk the client sends, until the client's stream ends or a write fails. */
  function ImportLog(client: seq<Incoming>, out: seq<Outgoing>): (log: seq<Chunk<Byte>>)
    ensures WellSent(log)
  {
    if client == [] then []
    else if client[0].Idle? then ImportLog(client[1..], out)
    else if Given(client[0]) == [] then []
    else
      var data := Given(client[0]);
      var w := Written(|data|, out);
      [Chunk(data, w.sent, w.again)] + if w.failed then [] else ImportLog(client[1..], w.rest)
  }

  /** The channel sends nothing in its first `n` answers. */
  ghost predicate Quiet(script: seq<Incoming>, n: nat) {
    n <= |script| && forall i :: 0 <= i < n ==> QuietAnswer(script[i])
  }

  // ------------------------------------------------------------- condition

  predicate TakesSome(o: Outgoing) {
    o.Takes? && o.n > 0
  }

  ghost predicate NoRefusal(out: seq<Outgoing>, j: int)
    requires j <= |out|
  {
    forall r :: 0 <= r < j ==> !out[r].Refused?
  }

  /** The channel still takes something before it refuses a write. */
  ghost predicate Delivers(out: seq<Outgoing>) {
    exists j :: 0 <= j < |out| && TakesSome(out[j]) && NoRefusal(out, j)
  }

  /** The channel takes something after it reported EAGAIN and before it refuses a write. */
  ghost predicate Resumes(out: seq<Outgoing>) {
    exists i, j :: 0 <= i < j < |out| && out[i].Blocked? && TakesSome(out[j]) && NoRefusal(out, j)
  }

  lemma DeliversTail(out: seq<Outgoing>)
    requires out != []
    ensures Delivers(out) <==> TakesSome(out[0]) || (!out[0].Refused? && Delivers(out[1..]))
  {
    if j :| 0 <= j < |out| && TakesSome(out[j]) && NoRefusal(out, j) {
      if j > 0 {
        assert TakesSome(out[1..][j - 1]) && NoRefusal(out[1..], j - 1);
      }
    }
    if TakesSome(out[0]) {
      assert NoRefusal(out, 0);
    }
    if !out[0].Refused? && Delivers(out[1..]) {
      var j :| 0 <= j < |out[1..]| && TakesSome(out[1..][j]) && NoRefusal(out[1..], j);
      assert TakesSome(out[j + 1]);
      forall r | 0 <= r < j + 1 ensures !out[r].Refused? {
        assert r > 0 ==> out[r] == out[1..][r - 1];
      }
      assert NoRefusal(out, j + 1);
    }
  }

  lemma ResumesTail(out: seq<Outgoing>)
    requires out != [] && !out[0].Refused?
    ensures Resumes(out) <==> (out[0].Blocked? && Delivers(out[1..])) || Resumes(out[1..])
  {
    var rest := out[1..];
    if i, j :| 0 <= i < j < |out| && out[i].Blocked? && TakesSome(out[j]) && NoRefusal(out, j) {
      assert TakesSome(rest[j - 1]) && NoRefusal(rest, j - 1);
      if i > 0 {
        assert rest[i - 1].Blocked?;
      }
    }
    if out[0].Blocked? && Delivers(rest) {
      var j :| 0 <= j < |rest| && TakesSome(rest[j]) && NoRefusal(rest, j);
      Shifted(out, j);
      assert out[0].Blocked? && TakesSome(out[j + 1]);
    }
    if Resumes(rest) {
      var i, j :| 0 <= i < j < |rest| && rest[i].Blocked? && TakesSome(rest[j]) && NoRefusal(rest, j);
      Shifted(out, j);
      assert out[i + 1].Blocked? && TakesSome(out[j + 1]);
    }
  }

  lemma Shifted(out: seq<Outgoing>, j: nat)
    requires out != [] && !out[0].Refused? && j < |out[1..]| && NoRefusal(out[1..], j)
    ensures NoRefusal(out, j + 1)
  {
    forall r | 0 <= r < j + 1 ensures !out[r].Refused? {
      assert r > 0 ==> out[r] == out[1..][r - 1];
    }
  }

  /** What one answer that is not a refusal leaves of the two conditions. */
  lemma NextAnswer(out: seq<Outgoing>)
    requires out != []
    ensures !Delivers(out) && !out[0].Refused? ==> !TakesSome(out[0]) && !Delivers(out[1..])
    ensures !Resumes(out) && !out[0].Refused? ==> !Resumes(out[1..]) && (out[0].Blocked? ==> !Delivers(out[1..]))
  {
    DeliversTail(out);
    if !out[0].Refused? {
      ResumesTail(out);
    }
  }

  ghost predicate NeverBlocks(out: seq<Outgoing>) {
    forall i :: 0 <= i < |out| ==> !out[i].Blocked?
  }

  lemma UnblockedNeverResumes(out: seq<Outgoing>)
    requires NeverBlocks(out)
    ensures !Resumes(out)
  {
  }

  // --------------------------------------------------------------- faithful

  /** `w` is how a write loop over `n` bytes may end, or stand when it is stopped. */
  ghost predicate Ran(n: nat, out: seq<Outgoing>, w: Outcome)
    decreases |out|
  {
    || w == Outcome(0, false, false, out)
    || (n > 0 && out == [] && w == Outcome(0, false, true, []))
    || (n > 0 && out != [] &&
        match out[0]
        case Refused => w == Outcome(0, false, true, out[1..])
        case Blocked => w == Outcome(0, true, false, out[1..])
        case Takes(_) =>
          var k := Accepted(out[0], n);
          k <= w.sent && Ran(n - k, out[1..], w.(sent := w.sent - k)))
  }

  /** A write loop that was not stopped. */
  predicate Complete(n: nat, w: Outcome) {
    w.sent == n || w.again || w.failed
  }

  lemma {:induction false} CompleteIsWritten(n: nat, out: seq<Outgoing>, w: Outcome)
    requires Ran(n, out, w) && Complete(n, w)
    ensures w == Written(n, out)
    decreases |out|
  {
    if n > 0 {
      assert w != Outcome(0, false, false, out);
      if out != [] && out[0].Takes? {
        var k := Accepted(out[0], n);
        var v := w.(sent := w.sent - k);
        CompleteIsWritten(n - k, out[1..], v);
        assert w == v.(sent := v.sent + k);
      }
    }
  }

  /** What a write loop leaves of the two conditions. */
  lemma {:induction false} RanFacts(n: nat, out: seq<Outgoing>, w: Outcome)
    requires Ran(n, out, w)
    ensures w.sent <= n
    ensures !Delivers(out) ==> w.sent == 0 && (w.failed || !Delivers(w.rest))
    ensures !Resumes(out) && !w.failed ==> !Resumes(w.rest) && (w.again ==> !Delivers(w.rest))
    decreases |out|
  {
    if n > 0 && out != [] {
      NextAnswer(out);
      if out[0].Takes? && w != Outcome(0, false, false, out) {
        var k := Accepted(out[0], n);
        RanFacts(n - k, out[1..], w.(sent := w.sent - k));
      }
    }
  }

  // --------------------------------------------------------------- the chain

  /** The log of write loops that ran to their end and did not fail, on a channel about to
      answer `out`; `left` is still to come. */
  ghost predicate Chain(out: seq<Outgoing>, log: seq<Chunk<Byte>>, left: seq<Outgoing>)
    decreases |log|
  {
    if log == [] then left == out
    else
      var w := Written(|log[0].data|, out);
      log[0] == Chunk(log[0].data, w.sent, w.again) && !w.failed && Chain(w.rest, log[1..], left)
  }

  /** At most one chunk more, whose write loop may have failed or been stopped. */
  ghost predicate LastChunk(out: seq<Outgoing>, last: seq<Chunk<Byte>>, w: Outcome) {
    last == [] || (|last| == 1 && Link(out, last[0], w))
  }

  /** Chunk `c` was written with outcome `w` on a channel about to answer `out`. */
  ghost predicate Link(out: seq<Outgoing>, c: Chunk<Byte>, w: Outcome) {
    Ran(|c.data|, out, w) && c == Chunk(c.data, w.sent, w.again)
  }

  lemma {:induction false} ChainExtends(
    out: seq<Outgoing>, log: seq<Chunk<Byte>>, left: seq<Outgoing>, c: Chunk<Byte>, w: Outcome)
    requires Chain(out, log, left) && Link(left, c, w) && Complete(|c.data|, w) && !w.failed
    ensures Chain(out, log + [c], w.rest)
    decreases |log|
  {
    CompleteIsWritten(|c.data|, left, w);
    if log == [] {
      assert (log + [c])[1..] == [];
    } else {
      assert (log + [c])[1..] == log[1..] + [c];
      ChainExtends(Written(|log[0].data|, out).rest, log[1..], left, c, w);
    }
  }

  /** One chunk more in the log of a pump that is not stopped. */
  lemma {:induction false} LogStep(client: seq<Incoming>, out: seq<Outgoing>, c: Chunk<Byte>, w: Outcome)
    requires client != [] && c.data == Given(client[0]) != [] && Link(out, c, w) && Complete(|c.data|, w)
    ensures ImportLog(client, out) == [c] + if w.failed then [] else ImportLog(client[1..], w.rest)
  {
    CompleteIsWritten(|c.data|, out, w);
    assert !client[0].Idle?;
  }

  ghost predicate NothingSent(log: seq<Chunk<Byte>>) {
    forall i :: 0 <= i < |log| ==> log[i].sent == 0
  }

  lemma NothingPrepends(c: Chunk<Byte>, log: seq<Chunk<Byte>>)
    requires c.sent == 0 && NothingSent(log)
    ensures NothingSent([c] + log)
  {
  }

  /** Once the channel takes nothing more before refusing, nothing more is sent. */
  lemma {:induction false} SpentChain(
    out: seq<Outgoing>, log: seq<Chunk<Byte>>, left: seq<Outgoing>, last: seq<Chunk<Byte>>, w: Outcome)
    requires !Delivers(out) && Chain(out, log, left) && LastChunk(left, last, w)
    ensures NothingSent(log + last)
    decreases |log|
  {
    if log == [] {
      assert log + last == last;
      if last != [] {
        RanFacts(|last[0].data|, out, w);
      }
    } else {
      var v := SpentWritten(|log[0].data|, out);
      SpentChain(v.rest, log[1..], left, last, w);
      NothingPrepends(log[0], log[1..] + last);
      assert log + last == [log[0]] + (log[1..] + last);
    }
  }

  lemma SpentWritten(n: nat, out: seq<Outgoing>) returns (v: Outcome)
    requires !Delivers(out)
    ensures v == Written(n, out) && v.sent == 0 && (v.failed || !Delivers(v.rest))
  {
    v := Written(n, out);
    WrittenRan(n, out);
    RanFacts(n, out, v);
  }

  lemma NoGapPrepends(c: Chunk<Byte>, log: seq<Chunk<Byte>>)
    requires NoGap(log) && (Whole(c) || NothingSent(log))
    ensures NoGap([c] + log)
  {
  }

  /** On a channel that never resumes after EAGAIN, no chain loses anything. */
  lemma {:induction false} ChainHasNoGap(
    out: seq<Outgoing>, log: seq<Chunk<Byte>>, left: seq<Outgoing>, last: seq<Chunk<Byte>>, w: Outcome)
    requires !Resumes(out) && Chain(out, log, left) && LastChunk(left, last, w)
    ensures NoGap(log + last)
    decreases |log|
  {
    if log != [] {
      var v := Written(|log[0].data|, out);
      WrittenRan(|log[0].data|, out);
      RanFacts(|log[0].data|, out, v);
      ChainHasNoGap(v.rest, log[1..], left, last, w);
      if v.again {
        SpentChain(v.rest, log[1..], left, last, w);
      }
      NoGapPrepends(log[0], log[1..] + last);
      assert log + last == [log[0]] + (log[1..] + last);
    }
  }

  /** In a chain a chunk is cut short only by EAGAIN or as the last one. */
  lemma {:induction false} ChainExplainsDrops(
    out: seq<Outgoing>, log: seq<Chunk<Byte>>, left: seq<Outgoing>, last: seq<Chunk<Byte>>, w: Outcome)
    requires Chain(out, log, left) && LastChunk(left, last, w)
    ensures DropsExplained(log + last)
    decreases |log|
  {
    if log != [] {
      var rest := log[1..] + last;
      ChainExplainsDrops(Written(|log[0].data|, out).rest, log[1..], left, last, w);
      assert log + last == [log[0]] + rest;
      forall i | 0 <= i < |log + last| && !Whole((log + last)[i])
        ensures (log + last)[i].again || i == |log + last| - 1
      {
        if i > 0 {
          assert (log + last)[i] == rest[i - 1];
        }
      }
    }
  }

  // --------------------------------------------------------------- the tally

  /** The log of a pump so far: the chain, and a last chunk that may have been cut off. */
  datatype Tally = Tally(full: seq<Chunk<Byte>>, left: seq<Outgoing>, last: seq<Chunk<Byte>>, w: Outcome)

  function LogOf(t: Tally): seq<Chunk<Byte>> {
    t.full + t.last
  }

  ghost predicate Tallied(t: Tally, out: seq<Outgoing>) {
    WellSent(LogOf(t)) && Chain(out, t.full, t.left) && LastChunk(t.left, t.last, t.w)
  }

  /** No chunk was cut off, and the channel is about to answer `out`. */
  predicate Current(t: Tally, out: seq<Outgoing>) {
    t.last == [] && t.left == out
  }

  /** The tally accounts for what was read and sent; `again`: some write reported EAGAIN. */
  ghost predicate Accounts(t: Tally, out: seq<Outgoing>, read: seq<Byte>, sent: seq<Byte>, again: bool) {
    Tallied(t, out) && read == ReadOf(LogOf(t)) && sent == SentOf(LogOf(t)) && (again || NeverAgain(LogOf(t)))
  }

  lemma TallyExtends(
    t: Tally, out: seq<Outgoing>, read: seq<Byte>, sent: seq<Byte>, again: bool, c: Chunk<Byte>, w: Outcome)
    returns (t': Tally)
    requires Accounts(t, out, read, sent, again) && t.last == [] && Link(t.left, c, w) && c.sent <= |c.data|
    ensures Accounts(t', out, read + c.data, sent + c.data[..c.sent], again || c.again)
    ensures LogOf(t') == LogOf(t) + [c]
    ensures Complete(|c.data|, w) && !w.failed ==> Current(t', w.rest)
  {
    LogExtends(LogOf(t), c);
    if Complete(|c.data|, w) && !w.failed {
      ChainExtends(out, t.full, t.left, c, w);
      t' := Tally(t.full + [c], w.rest, [], w);
    } else {
      t' := Tally(t.full, t.left, [c], w);
    }
    assert LogOf(t') == LogOf(t) + [c];
  }

  /** What every run of the pump does to the stream. */
  lemma TallyDelivers(t: Tally, out: seq<Outgoing>)
    requires Tallied(t, out)
    ensures DropsExplained(LogOf(t))
    ensures NeverAgain(LogOf(t)) || !Resumes(out) ==> SentOf(LogOf(t)) <= ReadOf(LogOf(t))
  {
    ChainExplainsDrops(out, t.full, t.left, t.last, t.w);
    if NeverAgain(LogOf(t)) {
      NoAgainMeansPrefix(LogOf(t));
    }
    if !Resumes(out) {
      ChainHasNoGap(out, t.full, t.left, t.last, t.w);
      NoGapMeansPrefix(LogOf(t));
    }
  }

  lemma {:induction false} WrittenRan(n: nat, out: seq<Outgoing>)
    ensures Ran(n, out, Written(n, out))
    decreases |out|
  {
    if n > 0 && out != [] && out[0].Takes? {
      WrittenRan(n - Accepted(out[0], n), out[1..]);
    }
  }

  /** The log of an undisturbed pump is a chain and at most one chunk that failed. */
  lemma {:induction false} ImportLogChains(client: seq<Incoming>, out: seq<Outgoing>) returns (t: Tally)
    ensures Tallied(t, out) && LogOf(t) == ImportLog(client, out)
  {
    if client == [] || (!client[0].Idle? && Given(client[0]) == []) {
      t := Tally([], out, [], Outcome(0, false, false, []));
    } else if client[0].Idle? {
      t := ImportLogChains(client[1..], out);
    } else {
      var data := Given(client[0]);
      var w := Written(|data|, out);
      if w.failed {
        WrittenRan(|data|, out);
        t := Tally([], out, [Chunk(data, w.sent, w.again)], w);
      } else {
        var rest := ImportLogChains(client[1..], w.rest);
        t := ChainPrepends(data, out, rest);
      }
    }
  }

  lemma {:induction false} ChainPrepends(data: seq<Byte>, out: seq<Outgoing>, rest: Tally) returns (t: Tally)
    requires !Written(|data|, out).failed && Tallied(rest, Written(|data|, out).rest)
    ensures var w := Written(|data|, out);
            Tallied(t, out) && LogOf(t) == [Chunk(data, w.sent, w.again)] + LogOf(rest)
  {
    var w := Written(|data|, out);
    var c := Chunk(data, w.sent, w.again);
    t := Tally([c] + rest.full, rest.left, rest.last, rest.w);
    assert t.full[0] == c && t.full[1..] == rest.full;
    assert LogOf(t) == [c] + LogOf(rest);
    WellSentBoth([c], LogOf(rest));
  }

  // ------------------------------------------------------------- the record

  /** How a write loop stands or ends, with `to` answers of the channel used up. */
  datatype Write = Write(sent: nat, again: bool, failed: bool, to: nat)

  /** `w` is how a write loop over `n` bytes may stand or end that began with answer `from`. */
  ghost predicate RanAt(n: nat, out: seq<Outgoing>, from: nat, w: Write)
    requires from <= |out|
    decreases |out| - from
  {
    || w == Write(0, false, false, from)
    || (n > 0 && from == |out| && w == Write(0, false, true, from))
    || (n > 0 && from < |out| &&
        match out[from]
        case Refused => w == Write(0, false, true, from + 1)
        case Blocked => w == Write(0, true, false, from + 1)
        case Takes(_) =>
          var k := Accepted(out[from], n);
          k <= w.sent && RanAt(n - k, out, from + 1, w.(sent := w.sent - k)))
  }

  /** One more write of a loop that has had `done` of `n` bytes taken. */
  lemma {:induction false} RanAtExtends(n: nat, out: seq<Outgoing>, from: nat, done: nat, at: nat)
    requires from <= |out| && at <= |out| && done < n && RanAt(n, out, from, Write(done, false, false, at))
    ensures at == |out| ==> RanAt(n, out, from, Write(done, false, true, at))
    ensures at < |out| ==>
              match out[at]
              case Refused => RanAt(n, out, from, Write(done, false, true, at + 1))
              case Blocked => RanAt(n, out, from, Write(done, true, false, at + 1))
              case Takes(_) => RanAt(n, out, from, Write(done + Accepted(out[at], n - done), false, false, at + 1))
    decreases |out| - from
  {
    if from < |out| && out[from].Takes? && !(done == 0 && at == from) {
      var k := Accepted(out[from], n);
      RanAtExtends(n - k, out, from + 1, done - k, at);
    }
  }

  /** On a channel that takes whatever it is offered, the chunk goes in one write, if any. */
  lemma {:induction false} WillingRanAt(n: nat, out: seq<Outgoing>, from: nat, w: Write)
    requires from < |out| && RanAt(n, out, from, w) && TakesAll(out[from]) && 0 < n <= BUFFER
    ensures w == Write(0, false, false, from) || w == Write(n, false, false, from + 1)
  {
    if w != Write(0, false, false, from) {
      assert Accepted(out[from], n) == n && RanAt(0, out, from + 1, w.(sent := w.sent - n));
    }
  }

  function OutcomeOf(out: seq<Outgoing>, w: Write): Outcome
    requires w.to <= |out|
  {
    Outcome(w.sent, w.again, w.failed, out[w.to..])
  }

  /** The same, seen from the answers that were still to come. */
  lemma {:induction false} RanAtIsRan(n: nat, out: seq<Outgoing>, from: nat, w: Write)
    requires from <= |out| && RanAt(n, out, from, w)
    ensures from <= w.to <= |out| && Ran(n, out[from..], OutcomeOf(out, w))
    decreases |out| - from
  {
    if from < |out| {
      assert out[from..][0] == out[from] && out[from..][1..] == out[from + 1..];
      if n > 0 && out[from].Takes? && w != Write(0, false, false, from) {
        RanAtIsRan(n - Accepted(out[from], n), out, from + 1, w.(sent := w.sent - Accepted(out[from], n)));
      }
    }
  }

  /** One chunk of the client, as a turn of the import pump wrote it, or none. */
  datatype Turn = NoChunk | OneChunk(c: Chunk<Byte>, w: Write)

  /** How many results and answers the pump has used up, and what it has seen. */
  datatype Moment = Moment(cpos: nat, opos: nat, read: seq<Byte>, sent: seq<Byte>, again: bool)

  /** The first half of a turn led from one moment to the next; `half` says that the pump
      ended there. */
  ghost predicate Wrote(
    client: seq<Incoming>, out: seq<Outgoing>, turn: Turn, half: bool, m: Moment, m': Moment)
  {
    && m.cpos <= |client| && m.opos <= |out| && m'.cpos <= |client| && m'.opos <= |out|
    && match turn
       case NoChunk =>
         && m'.opos == m.opos && m'.read == m.read && m'.sent == m.sent && m'.again == m.again
         && if half then m.cpos == |client| || (!client[m.cpos].Idle? && Given(client[m.cpos]) == [])
            else m.cpos < |client| && client[m.cpos].Idle? && m'.cpos == m.cpos + 1
       case OneChunk(c, w) =>
         && RanAt(|c.data|, out, m.opos, w) && c == Chunk(c.data, w.sent, w.again)
         && m'.opos == w.to && half == w.failed && c.sent <= |c.data|
         && m'.read == m.read + c.data && m'.sent == m.sent + c.data[..c.sent] && m'.again == (m.again || c.again)
         && m.cpos < |client| && c.data == Given(client[m.cpos]) != [] && m'.cpos == m.cpos + 1
  }

  /** The turn was not cut off by the stop. */
  predicate RanOut(turn: Turn) {
    turn.OneChunk? ==> turn.w.sent == |turn.c.data| || turn.w.again || turn.w.failed
  }

  /** The turn wrote its chunk to the end, and the pump goes on. */
  predicate GoesOn(turn: Turn, half: bool) {
    !half && RanOut(turn)
  }

  /** One turn, from the log's point of view. */
  lemma {:induction false} TurnLogs(
    client: seq<Incoming>, out: seq<Outgoing>, turn: Turn, half: bool, m: Moment, m': Moment)
    requires Wrote(client, out, turn, half, m, m') && RanOut(turn)
    ensures ImportLog(client[m.cpos..], out[m.opos..])
         == (if turn.OneChunk? then [turn.c] else [])
            + if half then [] else ImportLog(client[m'.cpos..], out[m'.opos..])
  {
    var cs := client[m.cpos..];
    if m.cpos < |client| {
      assert cs[0] == client[m.cpos] && cs[1..] == client[m.cpos + 1..];
    }
    if turn.OneChunk? {
      RanAtIsRan(|turn.c.data|, out, m.opos, turn.w);
      LogStep(cs, out[m.opos..], turn.c, OutcomeOf(out, turn.w));
    }
  }

  datatype Record = Record(turn: Turn, half: bool, before: Moment)

  /** The record of a pump that has come to moment `m`: each turn began where the one before
      it ended, and all but the last went on. `going` says that the last did too, `cut` that
      the pump ended in its first half. */
  ghost predicate Recorded(
    recs: seq<Record>, client: seq<Incoming>, out: seq<Outgoing>, m: Moment, going: bool, cut: bool)
    decreases |recs|
  {
    if recs == [] then m == Moment(0, 0, [], [], false) && !cut
    else
      var last := recs[|recs| - 1];
      && Wrote(client, out, last.turn, last.half, last.before, m)
      && (going ==> GoesOn(last.turn, last.half)) && (cut ==> last.half && RanOut(last.turn))
      && Recorded(recs[..|recs| - 1], client, out, last.before, true, false)
  }

  lemma {:induction false} RecordGrows(
    recs: seq<Record>, client: seq<Incoming>, out: seq<Outgoing>, m: Moment, turn: Turn, half: bool, m': Moment)
    returns (recs': seq<Record>)
    requires Recorded(recs, client, out, m, true, false) && Wrote(client, out, turn, half, m, m')
    ensures Recorded(recs', client, out, m', GoesOn(turn, half), half && RanOut(turn))
  {
    recs' := recs + [Record(turn, half, m)];
    assert recs'[..|recs|] == recs && recs'[|recs|] == Record(turn, half, m);
  }

  /** The tally of a pump at moment `m`; `going` and `cut` as in its record. */
  ghost predicate TalliedAt(
    t: Tally, client: seq<Incoming>, out: seq<Outgoing>, m: Moment, going: bool, cut: bool)
  {
    && m.cpos <= |client| && m.opos <= |out| && Accounts(t, out, m.read, m.sent, m.again)
    && (going ==>
          && Current(t, out[m.opos..])
          && LogOf(t) + ImportLog(client[m.cpos..], out[m.opos..]) == ImportLog(client, out))
    && (cut ==> LogOf(t) == ImportLog(client, out))
  }

  /** The tally after one more turn. */
  lemma {:induction false} TallyTurn(
    u: Tally, client: seq<Incoming>, out: seq<Outgoing>, turn: Turn, half: bool, m: Moment, m': Moment)
    returns (t: Tally)
    requires TalliedAt(u, client, out, m, true, false) && Wrote(client, out, turn, half, m, m')
    ensures TalliedAt(t, client, out, m', GoesOn(turn, half), half && RanOut(turn))
  {
    t := u;
    if RanOut(turn) {
      TurnLogs(client, out, turn, half, m, m');
    }
    if turn.OneChunk? {
      RanAtIsRan(|turn.c.data|, out, m.opos, turn.w);
      t := TallyExtends(u, out, m.read, m.sent, m.again, turn.c, OutcomeOf(out, turn.w));
      Regroup(LogOf(u), [turn.c], if half then [] else ImportLog(client[m'.cpos..], out[m'.opos..]));
    }
  }

  /** The tally of a record. */
  lemma {:induction false} RecordTallies(
    recs: seq<Record>, client: seq<Incoming>, out: seq<Outgoing>, m: Moment, going: bool, cut: bool)
    returns (t: Tally)
    requires Recorded(recs, client, out, m, going, cut)
    ensures TalliedAt(t, client, out, m, going, cut)
    decreases |recs|
  {
    if recs == [] {
      t := Tally([], out, [], Outcome(0, false, false, []));
      assert client[0..] == client && out[0..] == out;
    } else {
      var last := recs[|recs| - 1];
      var u := RecordTallies(recs[..|recs| - 1], client, out, last.before, true, false);
      t := TallyTurn(u, client, out, last.turn, last.half, last.before, m);
    }
  }

  /** What every run of the pump does to the stream, from its record. */
  lemma RecordDelivers(
    recs: seq<Record>, client: seq<Incoming>, out: seq<Outgoing>, m: Moment, going: bool, cut: bool)
    returns (log: seq<Chunk<Byte>>)
    requires Recorded(recs, client, out, m, going, cut)
    ensures WellSent(log) && m.read == ReadOf(log) && m.sent == SentOf(log) && DropsExplained(log)
    ensures !Resumes(out) || NeverBlocks(out) || !m.again ==> m.sent <= m.read
    ensures cut ==> log == ImportLog(client, out)
  {
    var t := RecordTallies(recs, client, out, m, going, cut);
    if NeverBlocks(out) {
      UnblockedNeverResumes(out);
    }
    TallyDelivers(t, out);
    log := LogOf(t);
  }

  // ------------------------------------------------------------ unfaithful

  /** A one-byte chunk that is taken at once. */
  lemma {:induction false} FirstTaken(x: Byte, rest: seq<Incoming>, out: seq<Outgoing>)
    requires out != [] && TakesSome(out[0])
    ensures ImportLog([Bytes([x])] + rest, out) == [Chunk([x], 1, false)] + ImportLog(rest, out[1..])
    ensures SentOf(ImportLog([Bytes([x])] + rest, out)) == [x] + SentOf(ImportLog(rest, out[1..]))
    ensures ReadOf(ImportLog([Bytes([x])] + rest, out)) == [x] + ReadOf(ImportLog(rest, out[1..]))
  {
    var client := [Bytes([x])] + rest;
    assert client[1..] == rest && Given(client[0]) == [x];
    assert Written(1, out) == Outcome(1, false, false, out[1..]);
    LogPrepends(Chunk([x], 1, false), ImportLog(rest, out[1..]));
  }

  /** A one-byte chunk that is lost to EAGAIN. */
  lemma {:induction false} FirstBlocked(x: Byte, rest: seq<Incoming>, out: seq<Outgoing>)
    requires out != [] && out[0].Blocked?
    ensures ImportLog([Bytes([x])] + rest, out) == [Chunk([x], 0, true)] + ImportLog(rest, out[1..])
    ensures SentOf(ImportLog([Bytes([x])] + rest, out)) == SentOf(ImportLog(rest, out[1..]))
    ensures ReadOf(ImportLog([Bytes([x])] + rest, out)) == [x] + ReadOf(ImportLog(rest, out[1..]))
  {
    var client := [Bytes([x])] + rest;
    assert client[1..] == rest && Given(client[0]) == [x];
    assert Written(1, out) == Outcome(0, true, false, out[1..]);
    LogPrepends(Chunk([x], 0, true), ImportLog(rest, out[1..]));
  }

  /** Where the channel takes something, one-byte chunks reach that place: the last of them
      is delivered and all before it are lost. */
  lemma {:induction false} Reach(out: seq<Outgoing>) returns (client: seq<Incoming>)
    requires Delivers(out)
    ensures client != [] && client[0].Bytes? && Given(client[0]) != []
    ensures SentOf(ImportLog(client, out)) == [2]
  {
    DeliversTail(out);
    if TakesSome(out[0]) {
      client := [Bytes([2])] + [];
      FirstTaken(2, [], out);
    } else {
      var rest := Reach(out[1..]);
      if out[0].Blocked? {
        client := [Bytes([1])] + rest;
        FirstBlocked(1, rest, out);
      } else {
        client := rest;
        SkipsEmptyTake(client, out);
      }
    }
  }

  /** A write that takes nothing and reports no error is simply repeated. */
  lemma {:induction false} SkipsEmptyTake(client: seq<Incoming>, out: seq<Outgoing>)
    requires client != [] && client[0].Bytes? && Given(client[0]) != []
    requires out != [] && out[0] == Takes(0)
    ensures ImportLog(client, out) == ImportLog(client, out[1..])
  {
    assert Written(|Given(client[0])|, out) == Written(|Given(client[0])|, out[1..]);
  }

  /** From any script that resumes after EAGAIN, a client that loses a byte in the middle. */
  lemma {:induction false} Loses(out: seq<Outgoing>) returns (client: seq<Incoming>)
    requires Resumes(out)
    ensures client != [] && client[0].Bytes? && Given(client[0]) != []
    ensures !(SentOf(ImportLog(client, out)) <= ReadOf(ImportLog(client, out)))
  {
    ResumesTail(out);
    if out[0].Blocked? {
      DeliversTail(out);
      var rest := Reach(out[1..]);
      client := [Bytes([1])] + rest;
      FirstBlocked(1, rest, out);
      assert SentOf(ImportLog(client, out))[0] == 2 && ReadOf(ImportLog(client, out))[0] == 1;
    } else {
      var rest := Loses(out[1..]);
      if TakesSome(out[0]) {
        client := [Bytes([0])] + rest;
        FirstTaken(0, rest, out);
        SamePrefix(SentOf(ImportLog(rest, out[1..])), ReadOf(ImportLog(rest, out[1..])), 0);
      } else {
        client := rest;
        SkipsEmptyTake(client, out);
      }
    }
  }

  lemma SamePrefix(a: seq<Byte>, b: seq<Byte>, x: Byte)
    ensures a <= b <==> [x] + a <= [x] + b
  {
    assert a == ([x] + a)[1..] && b == ([x] + b)[1..];
  }

  /** Exactly which channels the import is faithful on: what reaches the channel is a
      prefix of what was read, whatever the client sends, if and only if the channel takes
      nothing between an EAGAIN and the refusal that ends the pump. */
  lemma FaithfulIffNeverResumes(out: seq<Outgoing>)
    ensures (forall client :: SentOf(ImportLog(client, out)) <= ReadOf(ImportLog(client, out))) <==> !Resumes(out)
  {
    if Resumes(out) {
      var client := Loses(out);
      assert !(SentOf(ImportLog(client, out)) <= ReadOf(ImportLog(client, out)));
    } else {
      forall client ensures SentOf(ImportLog(client, out)) <= ReadOf(ImportLog(client, out)) {
        var t := ImportLogChains(client, out);
        TallyDelivers(t, out);
      }
    }
  }

  /** Two chunks, the first cut short: the pump reads 1, 2, 3 and delivers 1, 3. */
  lemma AgainCanDropBytes()
    ensures var log := ImportLog([Bytes([1, 2]), Bytes([3])], [Takes(1), Blocked, Takes(1)]);
            SentOf(log) == [1, 3] && ReadOf(log) == [1, 2, 3]
  {
    var client, out := [Bytes([1, 2]), Bytes([3])], [Takes(1), Blocked, Takes(1)];
    var c: Chunk<Byte>, d: Chunk<Byte> := Chunk([1, 2], 1, true), Chunk([3], 1, false);
    assert out[1..] == [Blocked, Takes(1)] && out[1..][1..] == [Takes(1)];
    assert Written(2, out) == Outcome(1, true, false, [Takes(1)]);
    assert client[1..] == [Bytes([3])];
    assert ImportLog([Bytes([3])], [Takes(1)]) == [d];
    LogPrepends(d, []);
    LogPrepends(c, [d]);
  }
}
