/** What a pump that may give up on a chunk does to a stream: the log of its chunks, and
    exactly when the stream that came out is a prefix of the one that went in. */
module ChunkLog {

  /** One chunk read, how much of it was written, and whether the write reported EAGAIN. */
  datatype Chunk<T> = Chunk(data: seq<T>, sent: nat, again: bool)

  ghost predicate WellSent<T>(log: seq<Chunk<T>>) {
    forall i :: 0 <= i < |log| ==> log[i].sent <= |log[i].data|
  }

  ghost function ReadOf<T>(log: seq<Chunk<T>>): seq<T> {
    if log == [] then [] else ReadOf(log[..|log| - 1]) + log[|log| - 1].data
  }

  ghost function SentOf<T>(log: seq<Chunk<T>>): seq<T>
    requires WellSent(log)
  {
    if log == [] then [] else SentOf(log[..|log| - 1]) + log[|log| - 1].data[..log[|log| - 1].sent]
  }

  ghost predicate Whole<T>(c: Chunk<T>) {
    c.sent == |c.data|
  }

  /** Bytes were dropped only from chunks whose write reported EAGAIN, or from the last. */
  ghost predicate DropsExplained<T>(log: seq<Chunk<T>>) {
    forall i :: 0 <= i < |log| && !Whole(log[i]) ==> log[i].again || i == |log| - 1
  }

  ghost predicate NeverAgain<T>(log: seq<Chunk<T>>) {
    forall i :: 0 <= i < |log| ==> !log[i].again
  }

  /** Nothing is written after a chunk that was cut short. */
  ghost predicate NoGap<T>(log: seq<Chunk<T>>) {
    forall i, j :: 0 <= i < j < |log| && log[j].sent > 0 ==> Whole(log[i])
  }

  ghost predicate AllWhole<T>(log: seq<Chunk<T>>) {
    forall i :: 0 <= i < |log| ==> Whole(log[i])
  }

  lemma LogExtends<T>(log: seq<Chunk<T>>, c: Chunk<T>)
    requires WellSent(log) && c.sent <= |c.data|
    ensures WellSent(log + [c])
    ensures ReadOf(log + [c]) == ReadOf(log) + c.data
    ensures SentOf(log + [c]) == SentOf(log) + c.data[..c.sent]
  {
    assert (log + [c])[..|log|] == log;
  }

  lemma {:induction false} WholeLogsMatch<T>(log: seq<Chunk<T>>)
    requires WellSent(log) && AllWhole(log)
    ensures SentOf(log) == ReadOf(log)
  {
    if log != [] {
      WholeLogsMatch(log[..|log| - 1]);
    }
  }

  lemma {:induction false} NoGapMeansPrefix<T>(log: seq<Chunk<T>>)
    requires WellSent(log) && NoGap(log)
    ensures SentOf(log) <= ReadOf(log)
  {
    if log != [] {
      var n := |log| - 1;
      if log[n].sent == 0 {
        NoGapMeansPrefix(log[..n]);
        assert SentOf(log) == SentOf(log[..n]);
      } else {
        WholeLogsMatch(log[..n]);
        var d := log[n].data;
        assert ReadOf(log) == ReadOf(log[..n]) + d[..log[n].sent] + d[log[n].sent..];
      }
    }
  }

  // -------------------------------------------------------------- any bytes

  /** The same chunks, cut off at the same places, with other bytes in them. */
  ghost predicate SameShape<T>(log: seq<Chunk<T>>, other: seq<Chunk<T>>) {
    |log| == |other| && forall i :: 0 <= i < |log| ==>
      |log[i].data| == |other[i].data| && log[i].sent == other[i].sent && log[i].again == other[i].again
  }

  /** The chunks up to number `k` filled with `x`, the ones after it with `y`. */
  ghost function Painted<T>(log: seq<Chunk<T>>, k: nat, x: T, y: T): (other: seq<Chunk<T>>)
    ensures SameShape(log, other)
    ensures forall i :: 0 <= i < |log| ==> AllAre(other[i].data, if i <= k then x else y)
  {
    seq(|log|, i requires 0 <= i < |log| =>
      Chunk(seq(|log[i].data|, _ => if i <= k then x else y), log[i].sent, log[i].again))
  }

  ghost predicate AllAre<T>(s: seq<T>, x: T) {
    forall i :: 0 <= i < |s| ==> s[i] == x
  }

  lemma Regroup<T>(p: seq<T>, q: seq<T>, r: seq<T>)
    ensures p + q + r == p + (q + r)
  {
  }

  lemma LastOfBoth<T>(a: seq<T>, b: seq<T>)
    requires b != []
    ensures (a + b)[..|a + b| - 1] == a + b[..|b| - 1] && (a + b)[|a + b| - 1] == b[|b| - 1]
  {
  }

  lemma {:induction false} ReadSplits<T>(a: seq<Chunk<T>>, b: seq<Chunk<T>>)
    ensures ReadOf(a + b) == ReadOf(a) + ReadOf(b)
    decreases |b|
  {
    if b == [] {
      assert a + b == a;
    } else {
      var n := |b| - 1;
      ReadSplits(a, b[..n]);
      LastOfBoth(a, b);
      Regroup(ReadOf(a), ReadOf(b[..n]), b[n].data);
    }
  }

  lemma WellSentBoth<T>(a: seq<Chunk<T>>, b: seq<Chunk<T>>)
    requires WellSent(a) && WellSent(b)
    ensures WellSent(a + b)
  {
  }

  lemma {:induction false} SentSplits<T>(a: seq<Chunk<T>>, b: seq<Chunk<T>>)
    requires WellSent(a) && WellSent(b)
    ensures WellSent(a + b) && SentOf(a + b) == SentOf(a) + SentOf(b)
    decreases |b|
  {
    WellSentBoth(a, b);
    if b == [] {
      assert a + b == a;
    } else {
      var n := |b| - 1;
      SentSplits(a, b[..n]);
      LastOfBoth(a, b);
      Regroup(SentOf(a), SentOf(b[..n]), b[n].data[..b[n].sent]);
    }
  }

  /** A chunk at the front of the log. */
  lemma {:induction false} LogPrepends<T>(c: Chunk<T>, log: seq<Chunk<T>>)
    requires WellSent(log) && c.sent <= |c.data|
    ensures WellSent([c] + log)
    ensures ReadOf([c] + log) == c.data + ReadOf(log)
    ensures SentOf([c] + log) == c.data[..c.sent] + SentOf(log)
  {
    LogExtends([], c);
    assert [] + [c] == [c];
    ReadSplits([c], log);
    SentSplits([c], log);
  }

  ghost predicate AllPainted<T>(log: seq<Chunk<T>>, y: T) {
    forall i :: 0 <= i < |log| ==> AllAre(log[i].data, y)
  }

  lemma {:induction false} PaintedSends<T>(log: seq<Chunk<T>>, y: T)
    requires WellSent(log) && AllPainted(log, y)
    ensures AllAre(SentOf(log), y)
  {
    if log != [] {
      PaintedSends(log[..|log| - 1], y);
    }
  }

  lemma {:induction false} SomethingSent<T>(log: seq<Chunk<T>>, i: nat)
    requires WellSent(log) && i < |log| && log[i].sent > 0
    ensures SentOf(log) != []
  {
    if i < |log| - 1 {
      SomethingSent(log[..|log| - 1], i);
    }
  }

  /** After whole chunks, a byte lost in the middle is seen in its place. */
  lemma LostByteShows<T>(a: seq<T>, d: seq<T>, n: nat, sent: seq<T>, read: seq<T>, x: T, y: T)
    requires n < |d| && AllAre(d, x) && sent != [] && AllAre(sent, y) && x != y
    ensures !(a + d[..n] + sent <= a + d + read)
  {
    var p := |a| + n;
    assert (a + d[..n] + sent)[p] == sent[0] == y;
    assert (a + d + read)[p] == d[n] == x;
  }

  lemma {:induction false} FirstCut<T>(log: seq<Chunk<T>>, i: nat) returns (k: nat)
    requires i < |log| && !Whole(log[i])
    ensures k <= i && !Whole(log[k]) && AllWhole(log[..k])
  {
    k := 0;
    while Whole(log[k])
      invariant k <= i && forall j :: 0 <= j < k ==> Whole(log[j])
      decreases i - k
    {
      k := k + 1;
    }
  }

  /** Whole chunks, then one that is cut short, then some that are written. */
  lemma {:induction false} CutLosesBytes<T>(
    a: seq<Chunk<T>>, c: Chunk<T>, b: seq<Chunk<T>>, i: nat, x: T, y: T)
    requires WellSent(a) && AllWhole(a) && c.sent < |c.data| && AllAre(c.data, x)
    requires WellSent(b) && AllPainted(b, y) && i < |b| && b[i].sent > 0 && x != y
    ensures WellSent(a + [c] + b) && !(SentOf(a + [c] + b) <= ReadOf(a + [c] + b))
  {
    LogExtends(a, c);
    ReadSplits(a + [c], b);
    SentSplits(a + [c], b);
    WholeLogsMatch(a);
    PaintedSends(b, y);
    SomethingSent(b, i);
    LostByteShows(ReadOf(a), c.data, c.sent, SentOf(b), ReadOf(b), x, y);
  }

  lemma {:induction false} PaintedPieces<T>(log: seq<Chunk<T>>, k: nat, x: T, y: T)
    requires WellSent(log) && k < |log| && AllWhole(log[..k]) && !Whole(log[k])
    ensures var other := Painted(log, k, x, y);
            && WellSent(other) && WellSent(other[..k]) && AllWhole(other[..k])
            && other[k].sent < |other[k].data| && AllAre(other[k].data, x)
            && WellSent(other[k + 1..]) && AllPainted(other[k + 1..], y)
  {
    var other := Painted(log, k, x, y);
    forall n | 0 <= n < k ensures Whole(other[..k][n]) {
      assert other[..k][n] == other[n] && log[..k][n] == log[n];
    }
    var b := other[k + 1..];
    forall n | 0 <= n < |b| ensures AllAre(b[n].data, y) {
      assert b[n] == other[k + 1 + n];
    }
  }

  lemma {:induction false} GapLosesBytes<T>(log: seq<Chunk<T>>, i: nat, j: nat, x: T, y: T)
    returns (other: seq<Chunk<T>>)
    requires WellSent(log) && i < j < |log| && log[j].sent > 0 && !Whole(log[i]) && x != y
    ensures SameShape(log, other) && WellSent(other) && !(SentOf(other) <= ReadOf(other))
  {
    var k := FirstCut(log, i);
    PaintedPieces(log, k, x, y);
    other := Painted(log, k, x, y);
    var a, c, b := other[..k], other[k], other[k + 1..];
    assert b[j - k - 1] == other[j];
    CutLosesBytes(a, c, b, j - k - 1, x, y);
    assert other == a + [c] + b;
  }

  /** The pump looks at no byte's value. For the chunks and cut-offs of any log, what comes
      out is a prefix of what went in, whatever the bytes are, if and only if nothing was
      written after a chunk that was cut short. */
  lemma PrefixIffNoGap<T(!new)>(log: seq<Chunk<T>>, x: T, y: T)
    requires WellSent(log) && x != y
    ensures NoGap(log) <==>
            forall other :: SameShape(log, other) && WellSent(other) ==> SentOf(other) <= ReadOf(other)
  {
    if NoGap(log) {
      forall other | SameShape(log, other) && WellSent(other) ensures SentOf(other) <= ReadOf(other) {
        NoGapMeansPrefix(other);
      }
    } else {
      var i, j :| 0 <= i < j < |log| && log[j].sent > 0 && !Whole(log[i]);
      var other := GapLosesBytes(log, i, j, x, y);
    }
  }

  /** On a session that never reports EAGAIN the import is faithful on every stream. */
  lemma NoAgainMeansPrefix<T>(log: seq<Chunk<T>>)
    requires WellSent(log) && DropsExplained(log) && NeverAgain(log)
    ensures SentOf(log) <= ReadOf(log)
  {
    assert NoGap(log);
    NoGapMeansPrefix(log);
  }
}
