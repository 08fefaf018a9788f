/** One mesh node per identity: the process-wide cache of backends, the key it is looked
    up by, and the life of a backend behind its mutex. */
module NodeCache {

  const SEPARATOR: char := '\U{001f}'

  datatype Kind = Tailscale | NetBird

  datatype Options = Options(
    kind: Kind, authKey: string, setupKey: string, hostname: string, tags: string,
    groups: string, controlUrl: string, mgmtUrl: string, stateDir: string, ephemeral: bool)

  // -------------------------------------------------------------------- key

  /** The eight free-form options, in key order. */
  function Texts(o: Options): (ts: seq<string>)
    ensures |ts| == 8
  {
    [o.authKey, o.setupKey, o.hostname, o.tags, o.groups, o.controlUrl, o.mgmtUrl, o.stateDir]
  }

  function WithTexts(o: Options, ts: seq<string>): Options
    requires |ts| == 8
  {
    Options(o.kind, ts[0], ts[1], ts[2], ts[3], ts[4], ts[5], ts[6], ts[7], o.ephemeral)
  }

  function Digit(k: Kind): string {
    if k.Tailscale? then "1" else "2"
  }

  function Flag(b: bool): string {
    if b then "1" else "0"
  }

  /** `name` followed by every part, each behind a separator. */
  function Joined(name: string, parts: seq<string>): string {
    if parts == [] then name
    else Joined(name, parts[..|parts| - 1]) + [SEPARATOR] + parts[|parts| - 1]
  }

  function Key(name: string, o: Options): string {
    Joined(name, [Digit(o.kind)] + Texts(o) + [Flag(o.ephemeral)])
  }

  /** The part of the key behind the name and its separator. */
  function Tail(o: Options): string {
    Joined(Digit(o.kind), Texts(o) + [Flag(o.ephemeral)])
  }

  ghost predicate Clean(s: string) {
    SEPARATOR !in s
  }

  ghost predicate CleanOptions(o: Options) {
    forall i :: 0 <= i < 8 ==> Clean(Texts(o)[i])
  }

  /** The last separator of a string fixes both sides of it. */
  lemma SplitLast(x: string, l: string, y: string, m: string)
    requires x + [SEPARATOR] + l == y + [SEPARATOR] + m && Clean(l) && Clean(m)
    ensures x == y && l == m
  {
    var s := x + [SEPARATOR] + l;
    LastSeparator(x, l);
    LastSeparator(y, m);
    assert x == s[..|x|] == y;
    assert l == s[|x| + 1..] == m;
  }

  lemma LastSeparator(x: string, l: string)
    requires Clean(l)
    ensures (x + [SEPARATOR] + l)[|x|] == SEPARATOR
    ensures forall i :: |x| < i < |x + [SEPARATOR] + l| ==> (x + [SEPARATOR] + l)[i] != SEPARATOR
  {
    forall i | |x| < i < |x + [SEPARATOR] + l| ensures (x + [SEPARATOR] + l)[i] != SEPARATOR {
      assert (x + [SEPARATOR] + l)[i] == l[i - |x| - 1];
    }
  }

  lemma {:induction false} JoinIsInjective(name: string, ps: seq<string>, name': string, ps': seq<string>)
    requires |ps| == |ps'| && Joined(name, ps) == Joined(name', ps')
    requires forall i :: 0 <= i < |ps| ==> Clean(ps[i]) && Clean(ps'[i])
    ensures name == name' && ps == ps'
  {
    if ps != [] {
      var n := |ps| - 1;
      SplitLast(Joined(name, ps[..n]), ps[n], Joined(name', ps'[..n]), ps'[n]);
      JoinIsInjective(name, ps[..n], name', ps'[..n]);
      assert ps == ps[..n] + [ps[n]] && ps' == ps'[..n] + [ps'[n]];
    }
  }

  /** Among option sets without the separator two keys agree exactly when secret name and
      all options agree; the name itself may be anything. */
  lemma KeyIdentifies(name: string, o: Options, name': string, o': Options)
    requires CleanOptions(o) && CleanOptions(o')
    ensures Key(name, o) == Key(name', o') <==> name == name' && o == o'
  {
    if Key(name, o) == Key(name', o') {
      var ps := [Digit(o.kind)] + Texts(o) + [Flag(o.ephemeral)];
      var ps' := [Digit(o'.kind)] + Texts(o') + [Flag(o'.ephemeral)];
      forall i | 0 <= i < 10 ensures Clean(ps[i]) && Clean(ps'[i]) {
        assert 1 <= i <= 8 ==> ps[i] == Texts(o)[i - 1] && ps'[i] == Texts(o')[i - 1];
      }
      JoinIsInjective(name, ps, name', ps');
      assert ps[0] == ps'[0] && ps[9] == ps'[9];
      forall i | 0 <= i < 8 ensures Texts(o)[i] == Texts(o')[i] {
        assert ps[i + 1] == ps'[i + 1];
      }
      SameTexts(o, o');
    }
  }

  lemma SameTexts(o: Options, o': Options)
    requires forall i :: 0 <= i < 8 ==> Texts(o)[i] == Texts(o')[i]
    requires o.kind == o'.kind && o.ephemeral == o'.ephemeral
    ensures o == o'
  {
    assert Texts(o)[0] == Texts(o')[0] && Texts(o)[1] == Texts(o')[1] && Texts(o)[2] == Texts(o')[2];
    assert Texts(o)[3] == Texts(o')[3] && Texts(o)[4] == Texts(o')[4] && Texts(o)[5] == Texts(o')[5];
    assert Texts(o)[6] == Texts(o')[6] && Texts(o)[7] == Texts(o')[7];
  }

  lemma {:induction false} JoinAppends(name: string, ps: seq<string>, qs: seq<string>)
    ensures Joined(name, ps + qs) == Joined(Joined(name, ps), qs)
  {
    if qs == [] {
      assert ps + qs == ps;
    } else {
      var n := |qs| - 1;
      assert (ps + qs)[..|ps| + n] == ps + qs[..n];
      JoinAppends(name, ps, qs[..n]);
    }
  }

  /** A separator inside one part can be read as the border to its neighbour. */
  lemma BorderMoves(name: string, before: seq<string>, x: string, y: string, z: string, after: seq<string>)
    ensures Joined(name, before + [x + [SEPARATOR] + y, z] + after)
         == Joined(name, before + [x, y + [SEPARATOR] + z] + after)
  {
    var p, q := [x + [SEPARATOR] + y, z], [x, y + [SEPARATOR] + z];
    var base := Joined(name, before);
    JoinAppends(name, before + p, after);
    JoinAppends(name, before + q, after);
    JoinAppends(name, before, p);
    JoinAppends(name, before, q);
    TwoParts(base, p[0], p[1]);
    TwoParts(base, q[0], q[1]);
    assert base + [SEPARATOR] + (x + [SEPARATOR] + y) + [SEPARATOR] + z
        == base + [SEPARATOR] + x + [SEPARATOR] + (y + [SEPARATOR] + z);
  }

  lemma TwoParts(base: string, p: string, q: string)
    ensures Joined(base, [p, q]) == base + [SEPARATOR] + p + [SEPARATOR] + q
  {
    assert [p, q][..1] == [p] && [p][..0] == [];
    assert Joined(base, [p]) == base + [SEPARATOR] + p;
  }

  lemma TextsRoundTrip(o: Options, ts: seq<string>)
    requires |ts| == 8
    ensures Texts(WithTexts(o, ts)) == ts
  {
  }

  lemma BorderMovesRight(
    name: string, head: seq<string>, ts: seq<string>, tail: seq<string>, i: nat, x: string, y: string)
    requires i + 1 < |ts| && ts[i] == x + [SEPARATOR] + y
    ensures Joined(name, head + ts + tail)
         == Joined(name, head + ts[i := x][i + 1 := y + [SEPARATOR] + ts[i + 1]] + tail)
  {
    var ts' := ts[i := x][i + 1 := y + [SEPARATOR] + ts[i + 1]];
    var before, after := head + ts[..i], ts[i + 2..] + tail;
    assert head + ts + tail == before + [ts[i], ts[i + 1]] + after;
    assert head + ts' + tail == before + [x, y + [SEPARATOR] + ts[i + 1]] + after;
    BorderMoves(name, before, x, y, ts[i + 1], after);
  }

  lemma BorderMovesLeft(
    name: string, head: seq<string>, ts: seq<string>, tail: seq<string>, i: nat, x: string, y: string)
    requires 0 < i < |ts| && ts[i] == x + [SEPARATOR] + y
    ensures Joined(name, head + ts + tail)
         == Joined(name, head + ts[i - 1 := ts[i - 1] + [SEPARATOR] + x][i := y] + tail)
  {
    var ts' := ts[i - 1 := ts[i - 1] + [SEPARATOR] + x][i := y];
    var before, after := head + ts[..i - 1], ts[i + 1..] + tail;
    assert head + ts + tail == before + [ts[i - 1], ts[i]] + after;
    assert head + ts' + tail == before + [ts[i - 1] + [SEPARATOR] + x, y] + after;
    BorderMoves(name, before, ts[i - 1], x, y, after);
  }

  lemma SplitAtSeparator(s: string) returns (x: string, y: string)
    requires !Clean(s)
    ensures s == x + [SEPARATOR] + y && |x| < |s| && |y| < |s|
  {
    var k :| 0 <= k < |s| && s[k] == SEPARATOR;
    x, y := s[..k], s[k + 1..];
  }

  /** Eight texts with a separator in one of them join to the same key as eight others. */
  lemma TextsCollide(name: string, head: seq<string>, ts: seq<string>, tail: seq<string>, i: nat)
    returns (ts': seq<string>)
    requires |ts| == 8 && i < 8 && !Clean(ts[i])
    ensures |ts'| == 8 && ts'[i] != ts[i]
    ensures Joined(name, head + ts' + tail) == Joined(name, head + ts + tail)
  {
    var x, y := SplitAtSeparator(ts[i]);
    if i < 7 {
      ts' := ts[i := x][i + 1 := y + [SEPARATOR] + ts[i + 1]];
      BorderMovesRight(name, head, ts, tail, i, x, y);
    } else {
      ts' := ts[i - 1 := ts[i - 1] + [SEPARATOR] + x][i := y];
      BorderMovesLeft(name, head, ts, tail, i, x, y);
    }
  }

  /** Without that premise the key is not an identity: every option set that has a
      separator in some field shares its key with a different option set. */
  lemma SeparatorCollides(name: string, o: Options) returns (o': Options)
    requires !CleanOptions(o)
    ensures o' != o && Key(name, o') == Key(name, o)
  {
    var i: nat :| i < 8 && !Clean(Texts(o)[i]);
    var ts' := TextsCollide(name, [Digit(o.kind)], Texts(o), [Flag(o.ephemeral)], i);
    o' := WithTexts(o, ts');
    TextsRoundTrip(o, ts');
  }

  // ------------------------------------------------------------- exactness

  ghost function Separators(s: string): nat {
    multiset(s)[SEPARATOR]
  }

  lemma CleanHasNone(s: string)
    ensures Clean(s) <==> Separators(s) == 0
  {
    assert SEPARATOR in multiset(s) <==> SEPARATOR in s;
  }

  ghost predicate AllClean(ps: seq<string>) {
    forall i :: 0 <= i < |ps| ==> Clean(ps[i])
  }

  lemma {:induction false} LastSeparators(name: string, ps: seq<string>)
    requires ps != []
    ensures Separators(Joined(name, ps))
         == Separators(Joined(name, ps[..|ps| - 1])) + 1 + Separators(ps[|ps| - 1])
  {
    SeparatorsAdd(Joined(name, ps[..|ps| - 1]), ps[|ps| - 1]);
  }

  lemma {:induction false} LastClean(ps: seq<string>)
    requires ps != []
    ensures AllClean(ps) <==> AllClean(ps[..|ps| - 1]) && Clean(ps[|ps| - 1])
  {
    assert forall i :: 0 <= i < |ps| - 1 ==> ps[..|ps| - 1][i] == ps[i];
  }

  /** A joined string has one separator per part, and those inside the parts. */
  lemma {:induction false} JoinedSeparators(name: string, ps: seq<string>)
    ensures Separators(Joined(name, ps)) >= Separators(name) + |ps|
    ensures Separators(Joined(name, ps)) == Separators(name) + |ps| <==> AllClean(ps)
  {
    if ps != [] {
      JoinedSeparators(name, ps[..|ps| - 1]);
      LastSeparators(name, ps);
      LastClean(ps);
      CleanHasNone(ps[|ps| - 1]);
    }
  }

  lemma TailSeparators(o: Options)
    ensures Separators(Tail(o)) >= 9
    ensures Separators(Tail(o)) == 9 <==> CleanOptions(o)
  {
    var ps := Texts(o) + [Flag(o.ephemeral)];
    JoinedSeparators(Digit(o.kind), ps);
    assert forall i :: 0 <= i < 8 ==> ps[i] == Texts(o)[i];
    assert Clean(ps[8]);
    CleanHasNone(Digit(o.kind));
  }

  lemma {:induction false} JoinedBehind(a: string, b: string, ps: seq<string>)
    ensures Joined(a + b, ps) == a + Joined(b, ps)
  {
    if ps != [] {
      JoinedBehind(a, b, ps[..|ps| - 1]);
    }
  }

  lemma JoinedFront(a: string, p: string, ps: seq<string>)
    ensures Joined(a, [p] + ps) == a + [SEPARATOR] + Joined(p, ps)
  {
    JoinAppends(a, [p], ps);
    assert [p][..0] == [] && Joined(a, [p]) == a + [SEPARATOR] + p;
    JoinedBehind(a + [SEPARATOR], p, ps);
  }

  lemma KeySplits(name: string, o: Options)
    ensures Key(name, o) == name + [SEPARATOR] + Tail(o)
  {
    var ps := Texts(o) + [Flag(o.ephemeral)];
    assert [Digit(o.kind)] + Texts(o) + [Flag(o.ephemeral)] == [Digit(o.kind)] + ps;
    JoinedFront(name, Digit(o.kind), ps);
  }

  /** A tail begins with the digit of its kind, as a part of its own. */
  lemma TailBegins(o: Options)
    ensures |Tail(o)| > 1 && Tail(o)[0] == Digit(o.kind)[0] && Tail(o)[1] == SEPARATOR
  {
    var ps := Texts(o) + [Flag(o.ephemeral)];
    assert ps == [ps[0]] + ps[1..];
    JoinedFront(Digit(o.kind), ps[0], ps[1..]);
  }

  lemma SeparatorsAdd(a: string, b: string)
    ensures Separators(a + [SEPARATOR] + b) == Separators(a) + 1 + Separators(b)
  {
  }

  predicate IsDigit(c: char) {
    c == '1' || c == '2'
  }

  /** Behind the separator at `k` the name has a part that could be a kind. */
  predicate KindAt(name: string, k: int)
    requires 0 <= k < |name|
  {
    && name[k] == SEPARATOR && k + 1 < |name| && IsDigit(name[k + 1])
    && (k + 2 == |name| || name[k + 2] == SEPARATOR)
  }

  /** No part of the name but its first could be a kind. */
  ghost predicate ClearName(name: string) {
    forall k :: 0 <= k < |name| ==> !KindAt(name, k)
  }

  /** A key read with a shorter name: the rest of the longer name begins with a kind. */
  lemma ShorterNameHasKind(name: string, o: Options, name': string, o': Options)
    requires Key(name, o) == Key(name', o') && |name'| < |name|
    ensures KindAt(name, |name'|)
  {
    KeySplits(name, o);
    KeySplits(name', o');
    TailBegins(o');
    var key, k := Key(name, o), |name'|;
    assert key[k] == SEPARATOR && key[k + 1] == Tail(o')[0] && key[k + 2] == Tail(o')[1];
    assert forall i :: 0 <= i < |name| ==> key[i] == name[i];
    assert key[|name|] == SEPARATOR;
  }

  /** Nor is there a longer name: its options would have too few separators left. */
  lemma CleanHasNoLongerName(name: string, o: Options, name': string, o': Options)
    requires Key(name, o) == Key(name', o') && CleanOptions(o)
    ensures |name'| <= |name|
  {
    if |name'| > |name| {
      KeySplits(name, o);
      KeySplits(name', o');
      var key := Key(name, o);
      var more := name'[|name| + 1..];
      assert key[..|name'|] == name' && key[|name|] == SEPARATOR;
      assert name' == name + [SEPARATOR] + more;
      assert Tail(o) == key[|name| + 1..] == more + [SEPARATOR] + Tail(o');
      SeparatorsAdd(more, Tail(o'));
      TailSeparators(o);
      TailSeparators(o');
    }
  }

  /** Under one name, exactly the option sets without the separator have a key of their own. */
  lemma OptionsIdentifiedIffClean(name: string, o: Options)
    ensures CleanOptions(o) <==> forall o' :: Key(name, o') == Key(name, o) ==> o' == o
  {
    if CleanOptions(o) {
      forall o' | Key(name, o') == Key(name, o) ensures o' == o {
        SameNameSameOptions(name, o, o');
      }
    } else {
      var o' := SeparatorCollides(name, o);
    }
  }

  lemma SameNameSameOptions(name: string, o: Options, o': Options)
    requires CleanOptions(o) && Key(name, o') == Key(name, o)
    ensures o' == o
  {
    KeySplits(name, o);
    KeySplits(name, o');
    assert Tail(o) == Key(name, o)[|name| + 1..] == Tail(o');
    TailSeparators(o);
    TailSeparators(o');
    KeyIdentifies(name, o, name, o');
  }

  /** The front of a key, read once with all of `pre`, `c` and `rest` in the name, and once
      with `c` as the kind and all behind it as the first text. */
  lemma FrontReread(pre: string, c: char, rest: string, d: string, t: string) returns (text: string)
    requires rest == [] || rest[0] == SEPARATOR
    ensures pre + [SEPARATOR] + [c] + [SEPARATOR] + text
         == pre + [SEPARATOR] + [c] + rest + [SEPARATOR] + d + [SEPARATOR] + t
  {
    var more := rest + [SEPARATOR] + d + [SEPARATOR] + t;
    text := more[1..];
    assert more == [SEPARATOR] + text;
    var front := pre + [SEPARATOR] + [c];
    assert front + [SEPARATOR] + text == front + more;
    assert front + more == front + rest + [SEPARATOR] + d + [SEPARATOR] + t;
  }

  /** A name that hides a kind lends its key to a shorter name: what follows the hidden kind
      is read as the first text. */
  lemma HiddenKindCollides(name: string, o: Options, k: nat) returns (name': string, o': Options)
    requires k < |name| && KindAt(name, k)
    ensures name' != name && Key(name', o') == Key(name, o)
  {
    var ts, last := Texts(o), [Flag(o.ephemeral)];
    var text := FrontReread(name[..k], name[k + 1], name[k + 2..], Digit(o.kind), ts[0]);
    assert name == name[..k] + [SEPARATOR] + [name[k + 1]] + name[k + 2..];
    name' := name[..k];
    o' := WithTexts(o, ts[0 := text]).(kind := if name[k + 1] == '1' then Tailscale else NetBird);
    assert Texts(o') == ts[0 := text] && Digit(o'.kind) == [name[k + 1]];
    FrontTwo(name, Digit(o.kind), ts, last);
    FrontTwo(name', Digit(o'.kind), Texts(o'), last);
  }

  lemma FrontTwo(name: string, d: string, ts: seq<string>, last: seq<string>)
    requires ts != []
    ensures Joined(name, [d] + ts + last)
         == Joined(name + [SEPARATOR] + d + [SEPARATOR] + ts[0], ts[1..] + last)
  {
    assert [d] + ts + last == [d, ts[0]] + (ts[1..] + last);
    JoinAppends(name, [d, ts[0]], ts[1..] + last);
    TwoParts(name, d, ts[0]);
  }

  /** What makes a lookup unmistakable. */
  ghost predicate Unmistakable(name: string, o: Options) {
    CleanOptions(o) && ClearName(name)
  }

  /** Exactly when a key stands for one lookup: no other name and options have it if and
      only if no option contains the separator and no separator in the name is followed by
      a part that could be a kind. */
  lemma KeyIsOwnIffUnmistakable(name: string, o: Options)
    ensures Unmistakable(name, o) <==>
            forall name', o' :: Key(name', o') == Key(name, o) ==> name' == name && o' == o
  {
    if !CleanOptions(o) {
      var o' := SeparatorCollides(name, o);
    } else if !ClearName(name) {
      var k: nat :| k < |name| && KindAt(name, k);
      var name', o' := HiddenKindCollides(name, o, k);
    } else {
      forall name', o' | Key(name', o') == Key(name, o) ensures name' == name && o' == o {
        UnmistakableIsOwn(name, o, name', o');
      }
    }
  }

  lemma UnmistakableIsOwn(name: string, o: Options, name': string, o': Options)
    requires Unmistakable(name, o) && Key(name', o') == Key(name, o)
    ensures name' == name && o' == o
  {
    CleanHasNoLongerName(name, o, name', o');
    if |name'| < |name| {
      ShorterNameHasKind(name, o, name', o');
    }
    KeySplits(name, o);
    KeySplits(name', o');
    assert name == Key(name, o)[..|name|] == name';
    SameNameSameOptions(name, o, o');
  }

  /** Clean options do not help a name that hides a kind: two lookups with one key. */
  lemma HiddenKindExample(x: string)
    ensures Key("a" + [SEPARATOR] + "1", Options(Tailscale, x, "", "", "", "", "", "", "", false))
         == Key("a", Options(Tailscale, "1", x, "", "", "", "", "", [SEPARATOR], false))
  {
    var o, o' := Options(Tailscale, x, "", "", "", "", "", "", "", false),
                 Options(Tailscale, "1", x, "", "", "", "", "", [SEPARATOR], false);
    var ts, ts', last := Texts(o), Texts(o'), ["0"];
    var base := "a" + [SEPARATOR] + "1" + [SEPARATOR] + "1" + [SEPARATOR];
    var five: seq<string> := ["", "", "", "", ""];
    FrontTwo("a" + [SEPARATOR] + "1", "1", ts, last);
    FrontTwo("a", "1", ts', last);
    assert ts[1..] + last == five + ["", "", "0"];
    assert ts'[1..] + last == [x] + five + [[SEPARATOR], "0"];
    JoinedFront("a" + [SEPARATOR] + "1" + [SEPARATOR] + "1", x, five + [[SEPARATOR], "0"]);
    assert [x] + five + [[SEPARATOR], "0"] == [x] + (five + [[SEPARATOR], "0"]);
    JoinAppends(x, five, ["", "", "0"]);
    JoinAppends(x, five, [[SEPARATOR], "0"]);
    EmptyPair(Joined(x, five), "0");
    JoinedBehind(base, x, five + ["", "", "0"]);
  }

  lemma EmptyPair(a: string, z: string)
    ensures Joined(a, ["", "", z]) == Joined(a, [[SEPARATOR], z])
  {
    assert ["", "", z] == [""] + ["", z];
    JoinedFront(a, "", ["", z]);
    TwoParts("", "", z);
    assert a + [SEPARATOR] + ("" + [SEPARATOR] + "" + [SEPARATOR] + z)
        == a + [SEPARATOR] + [SEPARATOR] + [SEPARATOR] + z;
    TwoParts(a, [SEPARATOR], z);
  }

  // ------------------------------------------------------------------ cache

  datatype Cache = Cache(entries: map<string, nat>, backends: nat)

  /** Find the backend under the key, or make a new one. */
  function Found(c: Cache, key: string): (Cache, nat) {
    if key in c.entries then (c, c.entries[key])
    else (Cache(c.entries[key := c.backends], c.backends + 1), c.backends)
  }

  /** The cache after the first k of a sequence of lookups. */
  function CacheAfter(keys: seq<string>, k: nat): Cache
    requires k <= |keys|
  {
    if k == 0 then Cache(map[], 0) else Found(CacheAfter(keys, k - 1), keys[k - 1]).0
  }

  function BackendOf(keys: seq<string>, k: nat): nat
    requires k < |keys|
  {
    Found(CacheAfter(keys, k), keys[k]).1
  }

  ghost predicate OneEach(c: Cache) {
    && (forall key :: key in c.entries ==> c.entries[key] < c.backends)
    && (forall key, key' :: key in c.entries && key' in c.entries && c.entries[key] == c.entries[key'] ==> key == key')
  }

  lemma {:induction false} CacheIsOneEach(keys: seq<string>, k: nat)
    requires k <= |keys|
    ensures OneEach(CacheAfter(keys, k))
  {
    if k > 0 {
      CacheIsOneEach(keys, k - 1);
    }
  }

  lemma {:induction false} CacheKeeps(keys: seq<string>, i: nat, k: nat)
    requires i < k <= |keys|
    ensures keys[i] in CacheAfter(keys, k).entries && CacheAfter(keys, k).entries[keys[i]] == BackendOf(keys, i)
  {
    if i + 1 < k {
      CacheKeeps(keys, i, k - 1);
    }
  }

  lemma SameBackendIffSameKey(keys: seq<string>, i: nat, j: nat)
    requires i < j < |keys|
    ensures BackendOf(keys, i) == BackendOf(keys, j) <==> keys[i] == keys[j]
  {
    CacheKeeps(keys, i, j + 1);
    CacheKeeps(keys, j, j + 1);
    CacheIsOneEach(keys, j + 1);
  }

  datatype Lookup = Lookup(name: string, options: Options)

  function KeysOf(ls: seq<Lookup>): seq<string> {
    seq(|ls|, i requires 0 <= i < |ls| => Key(ls[i].name, ls[i].options))
  }

  /** In every sequence of lookups an unmistakable one, or one among clean option sets, gets
      the backend of another exactly when both name the same secret with the same options. */
  lemma SameBackendIffSameIdentity(ls: seq<Lookup>, i: nat, j: nat)
    requires i < |ls| && j < |ls| && i != j
    requires || Unmistakable(ls[i].name, ls[i].options)
             || (CleanOptions(ls[i].options) && CleanOptions(ls[j].options))
    ensures BackendOf(KeysOf(ls), i) == BackendOf(KeysOf(ls), j) <==> ls[i] == ls[j]
  {
    if i < j {
      SameBackendIffSameKey(KeysOf(ls), i, j);
    } else {
      SameBackendIffSameKey(KeysOf(ls), j, i);
    }
    if Key(ls[i].name, ls[i].options) == Key(ls[j].name, ls[j].options) {
      if Unmistakable(ls[i].name, ls[i].options) {
        UnmistakableIsOwn(ls[i].name, ls[i].options, ls[j].name, ls[j].options);
      } else {
        KeyIdentifies(ls[i].name, ls[i].options, ls[j].name, ls[j].options);
      }
    }
  }

  /** And exactly the unmistakable lookups have a backend of their own: every other one is
      given the backend of some different lookup that came before it. */
  lemma OwnBackendIffUnmistakable(l: Lookup)
    ensures Unmistakable(l.name, l.options) <==>
            forall l' :: l' != l ==> BackendOf(KeysOf([l', l]), 1) != BackendOf(KeysOf([l', l]), 0)
  {
    forall l' ensures BackendOf(KeysOf([l', l]), 0) == BackendOf(KeysOf([l', l]), 1) <==>
                      Key(l'.name, l'.options) == Key(l.name, l.options)
    {
      SameBackendIffSameKey(KeysOf([l', l]), 0, 1);
    }
    KeyIsOwnIffUnmistakable(l.name, l.options);
    if !Unmistakable(l.name, l.options) {
      var name', o' :| Key(name', o') == Key(l.name, l.options) && !(name' == l.name && o' == l.options);
      var l' := Lookup(name', o');
      assert l' != l && BackendOf(KeysOf([l', l]), 1) == BackendOf(KeysOf([l', l]), 0);
    }
  }

  /** The cache as MeshBackendFromSecret changes it, under its mutex. */
  class BackendCache {
    var entries: map<string, nat>
    var backends: nat

    constructor ()
      ensures entries == map[] && backends == 0
    {
      entries, backends := map[], 0;
    }

    method FromSecret(name: string, options: Options) returns (b: nat)
      modifies this
      ensures (Cache(entries, backends), b) == Found(old(Cache(entries, backends)), Key(name, options))
    {
      var key := Key(name, options);
      if key in entries {
        return entries[key];
      }
      b := backends;
      backends := backends + 1;
      entries := entries[key := b];
    }
  }

  // ---------------------------------------------------------------- backend

  /** What the loader and the shim answer during one EnsureUp. */
  datatype UpScript = UpScript(activates: bool, api: nat, node: int, comesUp: bool)

  /** api 0 stands for the null pointer; `nodes` counts the nodes ever allocated. */
  datatype Backend = Backend(api: nat, node: int, up: bool, nodes: nat)

  const COLD: Backend := Backend(0, 0, false, 0)

  /** One call under the backend's mutex; every public call begins with EnsureUp, except
      Unexport, which leaves all of this alone. */
  function EnsuredUp(b: Backend, u: UpScript): Backend {
    if b.up || !u.activates then b
    else if b.node <= 0 && u.node <= 0 then Backend(u.api, u.node, false, b.nodes)
    else
      var node := if b.node <= 0 then u.node else b.node;
      Backend(u.api, node, u.comesUp, if b.node <= 0 then b.nodes + 1 else b.nodes)
  }

  function BackendAfter(us: seq<UpScript>, k: nat): Backend
    requires k <= |us|
  {
    if k == 0 then COLD else EnsuredUp(BackendAfter(us, k - 1), us[k - 1])
  }

  ghost predicate Settled(b: Backend) {
    && b.nodes == (if b.node > 0 then 1 else 0)
    && (b.up ==> b.api > 0 && b.node > 0)
  }

  /** Over all calls of all threads a backend allocates at most one node, and while it is
      up its API and node are set. */
  lemma {:induction false} OneNodePerBackend(us: seq<UpScript>, k: nat)
    requires k <= |us| && forall i :: 0 <= i < |us| && us[i].activates ==> us[i].api > 0
    ensures Settled(BackendAfter(us, k)) && BackendAfter(us, k).nodes <= 1
  {
    if k > 0 {
      OneNodePerBackend(us, k - 1);
    }
  }

  /** Once up, nothing changes again, so a caller may drop the mutex after EnsureUp and
      take it anew: it still finds the API and the node it brought up. */
  lemma {:induction false} UpIsStable(us: seq<UpScript>, i: nat, k: nat)
    requires i <= k <= |us| && BackendAfter(us, i).up
    ensures BackendAfter(us, k) == BackendAfter(us, i)
  {
    if i < k {
      UpIsStable(us, i, k - 1);
    }
  }

  /** Call `i` reached the shim and was given a node, had it asked for one. */
  ghost predicate GivesNode(us: seq<UpScript>, i: nat)
    requires i < |us|
  {
    us[i].activates && us[i].node > 0
  }

  /** Call `i` could bring the backend up: by then some call had a node to give. */
  ghost predicate BringsUp(us: seq<UpScript>, i: nat)
    requires i < |us|
  {
    us[i].activates && us[i].comesUp && exists j: nat :: j <= i && GivesNode(us, j)
  }

  /** A backend has a node exactly when some call was given one. */
  lemma {:induction false} NodeIffGiven(us: seq<UpScript>, k: nat)
    requires k <= |us|
    ensures BackendAfter(us, k).node > 0 <==> exists j: nat :: j < k && GivesNode(us, j)
    ensures BackendAfter(us, k).up ==> BackendAfter(us, k).node > 0
  {
    if k > 0 {
      NodeIffGiven(us, k - 1);
      assert GivesNode(us, k - 1) <==> us[k - 1].activates && us[k - 1].node > 0;
    }
  }

  /** And it is the first one given. */
  lemma {:induction false} NodeIsFirstGiven(us: seq<UpScript>, j: nat, k: nat)
    requires j < k <= |us| && GivesNode(us, j) && forall i: nat :: i < j ==> !GivesNode(us, i)
    ensures BackendAfter(us, k).node == us[j].node
  {
    NodeIffGiven(us, k - 1);
    if j < k - 1 {
      NodeIsFirstGiven(us, j, k - 1);
    }
  }

  /** A backend is up exactly when some call could bring it up: nothing else keeps it down,
      and no earlier failure spoils a later attempt. */
  lemma {:induction false} UpIffBroughtUp(us: seq<UpScript>, k: nat)
    requires k <= |us|
    ensures BackendAfter(us, k).up <==> exists i: nat :: i < k && BringsUp(us, i)
  {
    if k > 0 {
      UpIffBroughtUp(us, k - 1);
      NodeIffGiven(us, k - 1);
      NodeIffGiven(us, k);
      assert BringsUp(us, k - 1) <==> us[k - 1].activates && us[k - 1].comesUp && BackendAfter(us, k).node > 0;
    }
  }

  /** And its API is the one which the first such call got. */
  lemma ApiIsFirstUp(us: seq<UpScript>, i: nat, k: nat)
    requires i < k <= |us| && BringsUp(us, i) && forall n: nat :: n < i ==> !BringsUp(us, n)
    ensures BackendAfter(us, k).up && BackendAfter(us, k).api == us[i].api
  {
    UpIffBroughtUp(us, i);
    UpIffBroughtUp(us, i + 1);
    UpIsStable(us, i + 1, k);
  }

  class MeshBackend {
    var api: nat
    var node: int
    var up: bool
    var nodes: nat

    constructor ()
      ensures State() == COLD
    {
      api, node, up, nodes := 0, 0, false, 0;
    }

    ghost function State(): Backend
      reads this
    {
      Backend(api, node, up, nodes)
    }

    method EnsureUp(u: UpScript) returns (ok: bool)
      modifies this
      ensures State() == EnsuredUp(old(State()), u)
      ensures ok <==> up
      ensures ok <==> old(up) || (u.activates && (old(node) > 0 || u.node > 0) && u.comesUp)
      ensures ok && !old(up) ==> api == u.api && node == if old(node) > 0 then old(node) else u.node
    {
      if up {
        return true;
      }
      if !u.activates {
        return false;
      }
      api := u.api;
      if node <= 0 {
        node := u.node;
        if node <= 0 {
          return false;
        }
        nodes := nodes + 1;
      }
      if !u.comesUp {
        return false;
      }
      up := true;
      ok := true;
    }
  }
}
