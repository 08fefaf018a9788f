/** Byte streams as the pumps see them: endpoints that answer each read and write from a
    script, and a stop flag that another thread may clear between any two looks. */
module Streams {
  import opened Bytes
  import opened Handles

  /** Size of every pump's buffer. */
  const BUFFER: nat := 16384

  /** One result of waiting for and reading an endpoint. Idle: select() timed out. Zero: a
      channel read that returned no bytes without end of file. */
  datatype Incoming = Idle | Bytes(data: seq<Byte>) | Zero | End | Again | Broken

  /** One result of a write: how many bytes were taken, at most as many as offered. */
  datatype Outgoing = Takes(n: nat) | Blocked | Refused

  /** The running flag. It is set before the threads start and only ever cleared, so once
      one look has found it false all later looks do. */
  class StopFlag {
    var looks: nat
    const clears: bool
    const clearedAt: nat

    constructor (clears: bool, clearedAt: nat)
      ensures looks == 0 && this.clears == clears && this.clearedAt == clearedAt
    {
      looks := 0;
      this.clears, this.clearedAt := clears, clearedAt;
    }

    /** Some look has already found the flag false. */
    ghost predicate Stopped()
      reads this
    {
      clears && clearedAt < looks
    }

    method Load() returns (running: bool)
      modifies this
      ensures looks == old(looks) + 1
      ensures running == !(clears && clearedAt <= old(looks))
      ensures !running <==> Stopped()
      ensures old(Stopped()) ==> !running
    {
      running := !(clears && clearedAt <= looks);
      looks := looks + 1;
    }
  }

  /** What one read can give: never more than the buffer holds. */
  function Clip(data: seq<Byte>): (r: seq<Byte>)
    ensures r <= data && |r| <= BUFFER
  {
    if |data| <= BUFFER then data else data[..BUFFER]
  }

  function Given(i: Incoming): (r: seq<Byte>)
    ensures |r| <= BUFFER
  {
    if i.Bytes? then Clip(i.data) else []
  }

  /** The bytes that the first `k` entries of a script of read results give, in order. */
  ghost function GivenBy(script: seq<Incoming>, k: nat): seq<Byte>
    requires k <= |script|
  {
    if k == 0 then [] else GivenBy(script, k - 1) + Given(script[k - 1])
  }

  /** A read result that gives nothing and ends nothing, on a channel. */
  predicate QuietAnswer(i: Incoming) {
    i.Idle? || i.Zero? || i.Again?
  }

  /** The stream has ended, or a read of it fails for good. */
  predicate Ends(channel: bool, i: Incoming) {
    i.End? || i.Broken? || (!channel && (i.Zero? || (i.Bytes? && Given(i) == [])))
  }

  /** A write that takes whatever it is offered. */
  predicate TakesAll(o: Outgoing) {
    o.Takes? && o.n >= BUFFER
  }

  /** What a write of `offered` bytes returns, given the next entry of the script. */
  function Accepted(o: Outgoing, offered: nat): (n: int)
    ensures n <= offered
  {
    match o
    case Takes(k) => if k <= offered then k else offered
    case _ => -1
  }

  /** A socket or an SSH channel, with its handle in the table of what must be released.
      It has given `pos` results of its script of reads and `opos` of its script of writes.
      `received` is everything read from it so far, `delivered` everything it has taken,
      `ended` that its peer was told no more comes. The other histories: its stream was
      seen to end, a call failed for good, a write did, a read or a write would have
      blocked. */
  class Endpoint {
    const os: HandleTable
    const handle: nat
    const channel: bool
    const script: seq<Incoming>
    const answers: seq<Outgoing>
    var pos: nat
    var opos: nat
    ghost var received: seq<Byte>
    ghost var delivered: seq<Byte>
    ghost var ended: bool
    ghost var atEnd: bool
    ghost var failed: bool
    ghost var refused: bool
    ghost var readAgain: bool
    ghost var writeAgain: bool

    constructor (os: HandleTable, handle: nat, channel: bool, script: seq<Incoming>, answers: seq<Outgoing>)
      ensures this.os == os && this.handle == handle && this.channel == channel
      ensures this.script == script && this.answers == answers
      ensures Untouched()
    {
      this.os, this.handle, this.channel := os, handle, channel;
      this.script, this.answers := script, answers;
      pos, opos, received, delivered, ended := 0, 0, [], [], false;
      atEnd, failed, refused, readAgain, writeAgain := false, false, false, false, false;
    }

    ghost predicate Untouched()
      reads this
    {
      && pos == opos == 0 && received == [] && delivered == [] && !ended
      && !atEnd && !failed && !refused && !readAgain && !writeAgain
    }

    /** What has been read is exactly what the results so far gave. */
    ghost predicate Valid()
      reads this
    {
      pos <= |script| && opos <= |answers| && received == GivenBy(script, pos)
    }

    ghost predicate IsOpen()
      reads os
    {
      os.Valid() && handle in os.open
    }

    /** select() on this endpoint alone; an exhausted script reads as ready, and then as
        broken, so that every run of the model ends. */
    method Ready() returns (ready: bool)
      requires Valid()
      modifies this`pos
      ensures Valid()
      ensures ready <==> old(pos) == |script| || !script[old(pos)].Idle?
      ensures pos == if ready then old(pos) else old(pos) + 1
    {
      ready := pos == |script| || !script[pos].Idle?;
      if !ready {
        pos := pos + 1;
      }
    }

    /** Read into the front of `buf`. n > 0: that many bytes; n == 0: nothing, with `eof`
        telling whether the stream has ended, which on a socket it then has; n < 0: an
        error, or "try again". */
    method Read(buf: array<Byte>) returns (n: int, eof: bool, again: bool)
      requires Valid() && IsOpen() && buf.Length == BUFFER
      modifies this`pos, this`received, this`atEnd, this`failed, this`readAgain, buf
      ensures Valid() && n <= BUFFER
      ensures received == old(received) + buf[..if n > 0 then n else 0]
      ensures eof ==> n == 0
      ensures n == 0 && !channel ==> eof
      ensures again ==> n < 0
      ensures atEnd == (old(atEnd) || eof)
      ensures failed == (old(failed) || (n < 0 && !again))
      ensures readAgain == (old(readAgain) || again)
      ensures old(pos) == |script| ==> pos == old(pos) && n < 0 && !again
      ensures old(pos) < |script| ==>
                && pos == old(pos) + 1
                && buf[..if n > 0 then n else 0] == Given(script[old(pos)])
                && (Ends(channel, script[old(pos)]) <==> eof || (n < 0 && !again))
                && (again <==> script[old(pos)].Again? || script[old(pos)].Idle?)
                && (channel && QuietAnswer(script[old(pos)]) ==> n <= 0)
    {
      if pos == |script| {
        failed := true;
        return -1, false, false;
      }
      var first := script[pos];
      var part := Given(first);
      again := first.Again? || first.Idle?;
      n := if again || first.Broken? then -1 else |part|;
      eof := n == 0 && (first.End? || !channel);
      forall i | 0 <= i < |part| { buf[i] := part[i]; }
      assert buf[..|part|] == part;
      pos := pos + 1;
      received := received + part;
      atEnd, failed, readAgain := atEnd || eof, failed || (n < 0 && !again), readAgain || again;
    }

    /** Offer buf[from..to]; n >= 0 bytes are taken, or n < 0 is an error. A socket that
        takes nothing without an error has failed too. */
    method Write(buf: array<Byte>, from: nat, to: nat) returns (n: int, again: bool)
      requires Valid() && IsOpen() && from < to <= buf.Length
      modifies this`opos, this`delivered, this`failed, this`refused, this`writeAgain
      ensures Valid() && n <= to - from
      ensures delivered == old(delivered) + buf[from..if n > 0 then from + n else from]
      ensures again ==> n < 0
      ensures failed == (old(failed) || (n < 0 && !again) || (n == 0 && !channel))
      ensures refused == (old(refused) || (n < 0 && !again) || (n == 0 && !channel))
      ensures writeAgain == (old(writeAgain) || again)
      ensures old(opos) == |answers| ==> opos == old(opos) && n < 0 && !again
      ensures old(opos) < |answers| ==>
                && opos == old(opos) + 1
                && n == Accepted(answers[old(opos)], to - from) && (again <==> answers[old(opos)].Blocked?)
    {
      n, again := -1, false;
      if opos < |answers| {
        n, again := Accepted(answers[opos], to - from), answers[opos].Blocked?;
        opos := opos + 1;
      }
      delivered := delivered + buf[from..if n > 0 then from + n else from];
      ghost var bad := (n < 0 && !again) || (n == 0 && !channel);
      failed, refused, writeAgain := failed || bad, refused || bad, writeAgain || again;
    }

    /** Tell the peer that no more bytes will come. */
    method EndStream()
      requires IsOpen()
      modifies this`ended
      ensures ended
    {
      ended := true;
    }

    /** Close the handle; closing twice is not possible. */
    method Close()
      requires IsOpen()
      modifies os`open
      ensures os.Valid() && os.open == old(os.open) - {handle}
    {
      os.Close(handle);
    }

    /** The next write takes whatever it is offered. */
    ghost predicate TakesNext()
      reads this
    {
      opos < |answers| && TakesAll(answers[opos])
    }
  }

  /** Write all of buf[..len], tolerating short writes and waiting out a full socket.
      True exactly when every byte was delivered, once and in order; on false a proper
      prefix was, and only because the flag was cleared or the socket failed. */
  method SendAll(s: Endpoint, buf: array<Byte>, len: nat, flag: StopFlag) returns (ok: bool, ghost sent: nat)
    requires s.Valid() && s.IsOpen() && !s.channel && len <= buf.Length
    modifies s`opos, s`delivered, s`failed, s`refused, s`writeAgain, flag
    ensures s.Valid()
    ensures sent <= len && s.delivered == old(s.delivered) + buf[..sent]
    ensures ok <==> sent == len
    ensures !ok ==> flag.Stopped() || (s.failed && s.refused)
    ensures (old(s.failed) ==> s.failed) && (old(s.refused) ==> s.refused)
    ensures old(flag.Stopped()) ==> flag.Stopped() && sent == 0
    ensures flag.looks >= old(flag.looks)
    ensures old(s.TakesNext()) && 0 < len <= BUFFER ==>
              && s.refused == old(s.refused) && (ok || flag.Stopped())
              && s.opos == if ok then old(s.opos) + 1 else old(s.opos)
  {
    var done := 0;
    sent := 0;
    while done < len
      invariant s.Valid() && sent == done <= len && s.delivered == old(s.delivered) + buf[..done]
      invariant (old(s.failed) ==> s.failed) && (old(s.refused) ==> s.refused)
      invariant old(flag.Stopped()) ==> flag.Stopped() && done == 0
      invariant flag.looks >= old(flag.looks)
      invariant old(s.TakesNext()) && 0 < len <= BUFFER ==>
                  && s.refused == old(s.refused) && (done == 0 || done == len)
                  && s.opos == if done == 0 then old(s.opos) else old(s.opos) + 1
      decreases |s.answers| - s.opos, len - done
    {
      var running := flag.Load();
      if !running {
        return false, sent;
      }
      var n, again := s.Write(buf, done, len);
      if n > 0 {
        assert buf[..done] + buf[done..done + n] == buf[..done + n];
        done := done + n;
        sent := done;
        continue;
      }
      if n < 0 && again {
        continue;
      }
      return false, sent;
    }
    return true, sent;
  }
}
