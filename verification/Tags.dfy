/** The tag normaliser of the Tailscale shim. */
module Tags {

  const FIXED: string := "tag:erpl-tunnel"
  const PREFIX: string := "tag:"

  predicate IsSeparator(c: char) {
    c == ',' || c == ' ' || c == '\t' || c == ';'
  }

  /** Unicode white space, as strings.TrimSpace takes it. */
  predicate IsSpace(c: char) {
    var n := c as int;
    || 0x09 <= n <= 0x0d || n == 0x20 || n == 0x85 || n == 0xa0 || n == 0x1680
    || 0x2000 <= n <= 0x200a || n == 0x2028 || n == 0x2029 || n == 0x202f || n == 0x205f || n == 0x3000
  }

  // ---------------------------------------------------------------- fields

  ghost predicate SeparatorFree(s: string) {
    forall i :: 0 <= i < |s| ==> !IsSeparator(s[i])
  }

  /** Length of the longest prefix without a separator. */
  function WordLength(s: string): (n: nat)
    ensures n <= |s| && SeparatorFree(s[..n])
    ensures n < |s| ==> IsSeparator(s[n])
  {
    if s == [] || IsSeparator(s[0]) then 0
    else
      var n := 1 + WordLength(s[1..]);
      assert s[..n] == [s[0]] + s[1..][..n - 1];
      n
  }

  /** strings.FieldsFunc: the maximal runs of non-separators. */
  function Fields(s: string): (fs: seq<string>)
    ensures forall i :: 0 <= i < |fs| ==> fs[i] != [] && SeparatorFree(fs[i])
    decreases |s|
  {
    if s == [] then []
    else if IsSeparator(s[0]) then Fields(s[1..])
    else [s[..WordLength(s)]] + Fields(s[WordLength(s)..])
  }

  function Join(tags: seq<string>): string {
    if tags == [] then [] else if |tags| == 1 then tags[0] else tags[0] + "," + Join(tags[1..])
  }

  lemma {:induction false} WordEnds(w: string, rest: string)
    requires w != [] && SeparatorFree(w) && (rest == [] || IsSeparator(rest[0]))
    ensures WordLength(w + rest) == |w|
  {
    assert (w + rest)[0] == w[0];
    if |w| == 1 {
      assert (w + rest)[1..] == rest;
    } else {
      assert (w + rest)[1..] == w[1..] + rest;
      WordEnds(w[1..], rest);
    }
  }

  /** Splitting a comma-joined list of separator-free words gives the words back. */
  lemma {:induction false} FieldsOfJoin(tags: seq<string>)
    requires forall i :: 0 <= i < |tags| ==> tags[i] != [] && SeparatorFree(tags[i])
    ensures Fields(Join(tags)) == tags
  {
    if tags != [] {
      var w := tags[0];
      var rest := if |tags| == 1 then [] else "," + Join(tags[1..]);
      assert Join(tags) == w + rest;
      WordEnds(w, rest);
      assert (w + rest)[..|w|] == w && (w + rest)[|w|..] == rest;
      FieldsOfJoin(tags[1..]);
      if |tags| > 1 {
        assert rest[1..] == Join(tags[1..]);
      }
      assert Fields(rest) == tags[1..];
    }
  }

  // ------------------------------------------------------------------ trim

  function TrimLeft(s: string): string {
    if s != [] && IsSpace(s[0]) then TrimLeft(s[1..]) else s
  }

  function TrimRight(s: string): string {
    if s != [] && IsSpace(s[|s| - 1]) then TrimRight(s[..|s| - 1]) else s
  }

  function Trim(s: string): string {
    TrimRight(TrimLeft(s))
  }

  predicate Trimmed(s: string) {
    s == [] || (!IsSpace(s[0]) && !IsSpace(s[|s| - 1]))
  }

  lemma {:induction false} TrimLeftFacts(s: string)
    ensures TrimLeft(s) == [] || !IsSpace(TrimLeft(s)[0])
    ensures SeparatorFree(s) ==> SeparatorFree(TrimLeft(s))
  {
    if s != [] && IsSpace(s[0]) {
      TrimLeftFacts(s[1..]);
    }
  }

  lemma {:induction false} TrimRightFacts(s: string)
    ensures TrimRight(s) == [] || !IsSpace(TrimRight(s)[|TrimRight(s)| - 1])
    ensures SeparatorFree(s) ==> SeparatorFree(TrimRight(s))
    ensures TrimRight(s) <= s
  {
    if s != [] && IsSpace(s[|s| - 1]) {
      TrimRightFacts(s[..|s| - 1]);
    }
  }

  lemma TrimFacts(s: string)
    ensures Trimmed(Trim(s))
    ensures SeparatorFree(s) ==> SeparatorFree(Trim(s))
  {
    TrimLeftFacts(s);
    TrimRightFacts(TrimLeft(s));
  }

  // ------------------------------------------------------------- normalise

  /** A trimmed field with its prefix. */
  function Normal(t: string): string {
    if PREFIX <= t then t else PREFIX + t
  }

  /** The normalised tags of the fields that are not blank. */
  function Normals(fs: seq<string>): seq<string> {
    if fs == [] then []
    else if Trim(fs[0]) == [] then Normals(fs[1..])
    else [Normal(Trim(fs[0]))] + Normals(fs[1..])
  }

  /** What is left of `xs` when only first occurrences, also after `acc`, are kept. */
  function Unique(acc: seq<string>, xs: seq<string>): seq<string>
    decreases |xs|
  {
    if xs == [] then acc
    else Unique(if xs[0] in acc then acc else acc + [xs[0]], xs[1..])
  }

  function ParsedTags(raw: string): seq<string> {
    if Trim(raw) == [] then [FIXED] else Unique([FIXED], Normals(Fields(raw)))
  }

  /** A tag as Tailscale wants it, in a form that parsing leaves alone. */
  ghost predicate IsTag(t: string) {
    PREFIX <= t && SeparatorFree(t) && Trimmed(t)
  }

  lemma NormalIsTag(f: string)
    requires SeparatorFree(f) && Trim(f) != []
    ensures IsTag(Normal(Trim(f)))
  {
    TrimFacts(f);
    var t := Trim(f);
    if !(PREFIX <= t) {
      var u := PREFIX + t;
      assert u[0] == 't' && u[|u| - 1] == t[|t| - 1];
      forall i | 0 <= i < |u| ensures !IsSeparator(u[i]) {
        assert u[i] == if i < |PREFIX| then PREFIX[i] else t[i - |PREFIX|];
      }
    }
  }

  lemma TagIsNormal(t: string)
    requires IsTag(t)
    ensures Trim(t) == t && Normal(t) == t
  {
  }

  lemma {:induction false} NormalsAreTags(fs: seq<string>)
    requires forall i :: 0 <= i < |fs| ==> SeparatorFree(fs[i])
    ensures forall t :: t in Normals(fs) ==> IsTag(t)
    ensures forall t :: t in Normals(fs) <==> exists i :: 0 <= i < |fs| && Trim(fs[i]) != [] && t == Normal(Trim(fs[i]))
  {
    if fs != [] {
      NormalsAreTags(fs[1..]);
      if Trim(fs[0]) != [] {
        NormalIsTag(fs[0]);
      }
      forall t
        ensures t in Normals(fs) <==> exists i :: 0 <= i < |fs| && Trim(fs[i]) != [] && t == Normal(Trim(fs[i]))
      {
        if i :| 0 <= i < |fs| && Trim(fs[i]) != [] && t == Normal(Trim(fs[i])) {
          if i > 0 {
            assert fs[1..][i - 1] == fs[i];
          }
        }
        if t in Normals(fs[1..]) {
          var k :| 0 <= k < |fs[1..]| && Trim(fs[1..][k]) != [] && t == Normal(Trim(fs[1..][k]));
          assert fs[k + 1] == fs[1..][k];
        }
      }
    }
  }

  lemma {:induction false} NormalsOfTags(ts: seq<string>)
    requires forall i :: 0 <= i < |ts| ==> IsTag(ts[i])
    ensures Normals(ts) == ts
  {
    if ts != [] {
      TagIsNormal(ts[0]);
      NormalsOfTags(ts[1..]);
    }
  }

  // ---------------------------------------------------------------- unique

  ghost predicate NoDuplicates(xs: seq<string>) {
    forall i, j :: 0 <= i < j < |xs| ==> xs[i] != xs[j]
  }

  lemma {:induction false} UniqueFacts(acc: seq<string>, xs: seq<string>)
    requires NoDuplicates(acc)
    ensures NoDuplicates(Unique(acc, xs)) && acc <= Unique(acc, xs)
    ensures forall t :: t in Unique(acc, xs) <==> t in acc || t in xs
    decreases |xs|
  {
    if xs != [] {
      var acc' := if xs[0] in acc then acc else acc + [xs[0]];
      UniqueFacts(acc', xs[1..]);
      assert acc <= acc';
      assert xs == [xs[0]] + xs[1..];
    }
  }

  /** Position of the first occurrence. */
  function First(xs: seq<string>, t: string): (k: nat)
    requires t in xs
    ensures k < |xs| && xs[k] == t && t !in xs[..k]
  {
    if xs[0] == t then 0
    else
      var k := 1 + First(xs[1..], t);
      assert xs[..k] == [xs[0]] + xs[1..][..k - 1];
      k
  }

  lemma FirstIs(xs: seq<string>, t: string, k: nat)
    requires k < |xs| && xs[k] == t && t !in xs[..k]
    ensures First(xs, t) == k
  {
    forall i | 0 <= i < k ensures xs[i] != t {
      assert xs[..k][i] == xs[i];
    }
  }

  /** `acc` lists the elements of `done` in order of first occurrence. */
  ghost predicate InFirstOrder(acc: seq<string>, done: seq<string>) {
    && (forall t :: t in acc <==> t in done)
    && (forall i, j :: 0 <= i < j < |acc| ==> First(done, acc[i]) < First(done, acc[j]))
  }

  lemma FirstExtends(done: seq<string>, x: string, t: string)
    requires t in done
    ensures First(done + [x], t) == First(done, t)
  {
    var k := First(done, t);
    assert (done + [x])[..k] == done[..k];
    FirstIs(done + [x], t, k);
  }

  lemma OrderExtends(acc: seq<string>, done: seq<string>, x: string)
    requires InFirstOrder(acc, done)
    ensures InFirstOrder(if x in acc then acc else acc + [x], done + [x])
  {
    var acc', done' := if x in acc then acc else acc + [x], done + [x];
    forall t ensures t in acc' <==> t in done' {
      assert t in acc <==> t in done;
    }
    forall i, j | 0 <= i < j < |acc'| ensures First(done', acc'[i]) < First(done', acc'[j]) {
      assert acc'[i] == acc[i] && acc[i] in acc;
      FirstExtends(done, x, acc[i]);
      if j < |acc| {
        assert acc'[j] == acc[j] && acc[j] in acc;
        FirstExtends(done, x, acc[j]);
      } else {
        assert done'[..|done|] == done;
        FirstIs(done', x, |done|);
      }
    }
  }

  lemma {:induction false} UniqueKeepsOrder(acc: seq<string>, done: seq<string>, xs: seq<string>)
    requires InFirstOrder(acc, done)
    ensures InFirstOrder(Unique(acc, xs), done + xs)
    decreases |xs|
  {
    if xs == [] {
      assert done + xs == done;
    } else {
      var acc', done' := if xs[0] in acc then acc else acc + [xs[0]], done + [xs[0]];
      assert done' + xs[1..] == done + xs;
      assert InFirstOrder(acc', done') by {
        OrderExtends(acc, done, xs[0]);
      }
      UniqueKeepsOrder(acc', done', xs[1..]);
    }
  }

  lemma {:induction false} UniqueOfDistinct(acc: seq<string>, xs: seq<string>)
    requires NoDuplicates(acc + xs)
    ensures Unique(acc, xs) == acc + xs
    decreases |xs|
  {
    if xs != [] {
      assert acc + xs == acc + [xs[0]] + xs[1..];
      forall i | 0 <= i < |acc| ensures acc[i] != xs[0] {
        assert (acc + xs)[i] == acc[i] && (acc + xs)[|acc|] == xs[0];
      }
      UniqueOfDistinct(acc + [xs[0]], xs[1..]);
    }
  }

  // ----------------------------------------------------------------- blanks

  ghost predicate AllSpace(s: string) {
    forall i :: 0 <= i < |s| ==> IsSpace(s[i])
  }

  lemma {:induction false} TrimRightBlank(s: string)
    ensures AllSpace(s) <==> TrimRight(s) == []
  {
    if s != [] && IsSpace(s[|s| - 1]) {
      TrimRightBlank(s[..|s| - 1]);
      assert AllSpace(s) <==> AllSpace(s[..|s| - 1]);
    }
  }

  lemma {:induction false} TrimBlank(s: string)
    ensures AllSpace(s) <==> Trim(s) == []
  {
    if s != [] && IsSpace(s[0]) {
      TrimBlank(s[1..]);
      assert s == [s[0]] + s[1..];
      assert AllSpace(s) <==> AllSpace(s[1..]);
    } else {
      TrimRightBlank(s);
    }
  }

  lemma {:induction false} BlankHasNoNormals(s: string)
    requires AllSpace(s)
    ensures Normals(Fields(s)) == []
    decreases |s|
  {
    if s != [] && IsSeparator(s[0]) {
      BlankHasNoNormals(s[1..]);
    } else if s != [] {
      var n := WordLength(s);
      BlankHasNoNormals(s[n..]);
      TrimBlank(s[..n]);
      assert Fields(s)[1..] == Fields(s[n..]);
    }
  }

  /** The early return for blank input agrees with the general path. */
  lemma EarlyReturnIsHarmless(raw: string)
    ensures ParsedTags(raw) == Unique([FIXED], Normals(Fields(raw)))
  {
    if Trim(raw) == [] {
      TrimBlank(raw);
      BlankHasNoNormals(raw);
    }
  }

  // --------------------------------------------------------------- theorems

  /** For every input: the fixed tag comes first, there are no duplicates, every element
      has the prefix and no separator, and the elements are the fixed tag and the
      normalised non-blank fields. */
  lemma ParsedTagsAreTags(raw: string)
    ensures |ParsedTags(raw)| > 0 && ParsedTags(raw)[0] == FIXED
    ensures NoDuplicates(ParsedTags(raw))
    ensures forall t :: t in ParsedTags(raw) ==> IsTag(t)
    ensures forall t :: t in ParsedTags(raw) <==>
              || t == FIXED
              || exists i :: 0 <= i < |Fields(raw)| && Trim(Fields(raw)[i]) != [] && t == Normal(Trim(Fields(raw)[i]))
  {
    FixedIsTag();
    EarlyReturnIsHarmless(raw);
    NormalsAreTags(Fields(raw));
    UniqueFacts([FIXED], Normals(Fields(raw)));
  }

  lemma FixedIsTag()
    ensures IsTag(FIXED)
  {
    assert FIXED[..|PREFIX|] == PREFIX;
  }

  /** The result is in order of first occurrence. */
  lemma ParsedTagsKeepOrder(raw: string)
    ensures InFirstOrder(ParsedTags(raw), [FIXED] + Normals(Fields(raw)))
  {
    EarlyReturnIsHarmless(raw);
    UniqueKeepsOrder([FIXED], [FIXED], Normals(Fields(raw)));
  }

  /** Normalising is stable: parsing the comma-joined result gives the result again. */
  lemma ParseIsStable(raw: string)
    ensures ParsedTags(Join(ParsedTags(raw))) == ParsedTags(raw)
  {
    var ts := ParsedTags(raw);
    ParsedTagsAreTags(raw);
    forall i | 0 <= i < |ts| ensures IsTag(ts[i]) && ts[i] != [] {
      assert ts[i] in ts;
    }
    FieldsOfJoin(ts);
    NormalsOfTags(ts);
    JoinIsNotBlank(ts);
    assert ts == [FIXED] + ts[1..];
    assert Unique([FIXED], ts) == Unique([FIXED], ts[1..]);
    UniqueOfDistinct([FIXED], ts[1..]);
  }

  lemma JoinIsNotBlank(ts: seq<string>)
    requires |ts| > 0 && ts[0] == FIXED
    ensures Trim(Join(ts)) != []
  {
    var s := Join(ts);
    assert s[0] == 't' && TrimLeft(s) == s;
    KeepsHead(s);
  }

  lemma {:induction false} KeepsHead(s: string)
    requires s != [] && !IsSpace(s[0])
    ensures TrimRight(s) != []
  {
    if |s| > 1 && IsSpace(s[|s| - 1]) {
      KeepsHead(s[..|s| - 1]);
    }
  }

  // ------------------------------------------------------ in plain characters

  lemma SeparatorsAre(c: char)
    ensures IsSeparator(c) <==> c in ", \t;"
  {
    var four := ", \t;";
    assert four[0] == ',' && four[1] == ' ' && four[2] == '\t' && four[3] == ';';
  }

  lemma {:induction false} UniqueOfOne(acc: seq<string>, t: string)
    ensures Unique(acc, [t]) == if t in acc then acc else acc + [t]
  {
    assert [t][1..] == [];
  }

  lemma {:induction false} NormalsOfOne(w: string)
    requires w != [] && Trimmed(w)
    ensures Normals([w]) == [if PREFIX <= w then w else PREFIX + w]
  {
    assert TrimLeft(w) == w && TrimRight(w) == w;
    assert [w][1..] == [];
  }

  lemma {:induction false} OneNormal(w: string, t: string)
    requires w != [] && Trimmed(w) && SeparatorFree(w) && t == if PREFIX <= w then w else PREFIX + w
    ensures ParsedTags(w) == if t == FIXED then [FIXED] else [FIXED, t]
  {
    EarlyReturnIsHarmless(w);
    assert Join([w]) == w;
    FieldsOfJoin([w]);
    NormalsOfOne(w);
    UniqueOfOne([FIXED], t);
  }

  lemma PrefixedIs(w: string)
    ensures PREFIX + w == FIXED <==> w == "erpl-tunnel"
  {
    assert FIXED == PREFIX + "erpl-tunnel";
    if PREFIX + w == FIXED {
      assert w == (PREFIX + w)[4..] == "erpl-tunnel";
    }
  }

  /** One word, in plain characters: it comes back behind the fixed tag, with the prefix if
      it had none, and once only if it is the fixed tag itself. */
  lemma {:induction false} OneWord(w: string)
    requires w != [] && Trimmed(w) && forall c :: c in w ==> c !in ", \t;"
    ensures ParsedTags(w) ==
            if w == "erpl-tunnel" || w == "tag:erpl-tunnel" then ["tag:erpl-tunnel"]
            else if "tag:" <= w then ["tag:erpl-tunnel", w]
            else ["tag:erpl-tunnel", "tag:" + w]
  {
    forall i | 0 <= i < |w| ensures !IsSeparator(w[i]) {
      SeparatorsAre(w[i]);
      assert w[i] in w;
    }
    if PREFIX <= w {
      assert w[0] == 't';
      OneNormal(w, w);
    } else {
      PrefixedIs(w);
      FixedIsTag();
      OneNormal(w, PREFIX + w);
    }
  }

  /** The words with the gaps around them: gaps[0], words[0], gaps[1], ... */
  ghost function Woven(gaps: seq<string>, words: seq<string>): string
    requires |gaps| == |words| + 1
  {
    if words == [] then gaps[0] else gaps[0] + words[0] + Woven(gaps[1..], words[1..])
  }

  /** These gaps hold separators only, and each gap between two words at least one. */
  ghost predicate AreGaps(gaps: seq<string>) {
    && (forall i, c :: 0 <= i < |gaps| && c in gaps[i] ==> c in ", \t;")
    && (forall i :: 0 < i < |gaps| - 1 ==> gaps[i] != [])
  }

  lemma {:induction false} WovenAfterSeparator(gaps: seq<string>, words: seq<string>, c: char)
    requires |gaps| == |words| + 1
    ensures Woven([[c] + gaps[0]] + gaps[1..], words) == [c] + Woven(gaps, words)
  {
    var gaps' := [[c] + gaps[0]] + gaps[1..];
    assert gaps'[1..] == gaps[1..];
    if words != [] {
      assert [c] + gaps[0] + words[0] + Woven(gaps[1..], words[1..])
          == [c] + (gaps[0] + words[0] + Woven(gaps[1..], words[1..]));
    }
  }

  lemma {:induction false} WovenAfterWord(gaps: seq<string>, words: seq<string>, w: string)
    requires |gaps| == |words| + 1
    ensures Woven([[]] + gaps, [w] + words) == w + Woven(gaps, words)
  {
    var gaps', words' := [[]] + gaps, [w] + words;
    assert gaps'[1..] == gaps && words'[1..] == words;
    assert Woven(gaps', words') == [] + w + Woven(gaps, words);
  }

  /** Any input is its fields, in order and unchanged, with only the four separators between
      them and around them; no field holds a separator, and none is empty. */
  lemma {:induction false} FieldsWithGaps(raw: string) returns (gaps: seq<string>)
    ensures |gaps| == |Fields(raw)| + 1 && AreGaps(gaps) && raw == Woven(gaps, Fields(raw))
    ensures forall i, c :: 0 <= i < |Fields(raw)| && c in Fields(raw)[i] ==> c !in ", \t;"
    ensures forall i :: 0 <= i < |Fields(raw)| ==> Fields(raw)[i] != []
    ensures raw != [] && raw[0] in ", \t;" ==> gaps[0] != []
    decreases |raw|
  {
    if raw == [] {
      gaps := [[]];
    } else if IsSeparator(raw[0]) {
      var rest := FieldsWithGaps(raw[1..]);
      gaps := [[raw[0]] + rest[0]] + rest[1..];
      WovenAfterSeparator(rest, Fields(raw[1..]), raw[0]);
    } else {
      var n := WordLength(raw);
      var rest := FieldsWithGaps(raw[n..]);
      gaps := [[]] + rest;
      WovenAfterWord(rest, Fields(raw[n..]), raw[..n]);
      if |rest| > 1 {
        assert raw[n..] != [];
      }
    }
  }

  lemma {:induction false} TrimLeftTakes(s: string) returns (p: string)
    ensures s == p + TrimLeft(s) && AllSpace(p)
  {
    p := [];
    if s != [] && IsSpace(s[0]) {
      p := TrimLeftTakes(s[1..]);
      p := [s[0]] + p;
    }
  }

  lemma {:induction false} TrimRightTakes(s: string) returns (q: string)
    ensures s == TrimRight(s) + q && AllSpace(q)
  {
    q := [];
    if s != [] && IsSpace(s[|s| - 1]) {
      q := TrimRightTakes(s[..|s| - 1]);
      q := q + [s[|s| - 1]];
    }
  }

  /** Trimming takes a run of white space off each end, and leaves none there. */
  lemma TrimTakesEnds(s: string) returns (p: string, q: string)
    ensures s == p + Trim(s) + q && AllSpace(p) && AllSpace(q) && Trimmed(Trim(s))
  {
    p := TrimLeftTakes(s);
    q := TrimRightTakes(TrimLeft(s));
    TrimFacts(s);
  }

  // ------------------------------------------------------- one part at a time

  lemma {:induction false} WordStops(a: string, c: char, b: string)
    requires IsSeparator(c)
    ensures WordLength(a + [c] + b) == WordLength(a)
  {
    if a != [] && !IsSeparator(a[0]) {
      WordStops(a[1..], c, b);
      assert (a + [c] + b)[1..] == a[1..] + [c] + b;
    }
  }

  lemma {:induction false} FieldsSplit(a: string, c: char, b: string)
    requires IsSeparator(c)
    ensures Fields(a + [c] + b) == Fields(a) + Fields(b)
    decreases |a|
  {
    var s := a + [c] + b;
    if a == [] {
      assert s[1..] == b;
    } else if IsSeparator(a[0]) {
      FieldsSplit(a[1..], c, b);
      assert s[1..] == a[1..] + [c] + b;
    } else {
      var n := WordLength(a);
      WordStops(a, c, b);
      FieldsSplit(a[n..], c, b);
      assert s[..n] == a[..n] && s[n..] == a[n..] + [c] + b;
    }
  }

  lemma {:induction false} NormalsSplit(fs: seq<string>, gs: seq<string>)
    ensures Normals(fs + gs) == Normals(fs) + Normals(gs)
  {
    if fs == [] {
      assert fs + gs == gs;
    } else {
      assert (fs + gs)[1..] == fs[1..] + gs;
      NormalsSplit(fs[1..], gs);
    }
  }

  lemma {:induction false} UniqueSplit(acc: seq<string>, xs: seq<string>, ys: seq<string>)
    ensures Unique(acc, xs + ys) == Unique(Unique(acc, xs), ys)
    decreases |xs|
  {
    if xs == [] {
      assert xs + ys == ys;
    } else {
      assert (xs + ys)[1..] == xs[1..] + ys;
      UniqueSplit(if xs[0] in acc then acc else acc + [xs[0]], xs[1..], ys);
    }
  }

  lemma {:induction false} KnownAddNothing(acc: seq<string>, xs: seq<string>)
    requires forall t :: t in xs ==> t in acc
    ensures Unique(acc, xs) == acc
    decreases |xs|
  {
    if xs != [] {
      KnownAddNothing(acc, xs[1..]);
    }
  }

  lemma KnownPrefix(acc: seq<string>, known: seq<string>, xs: seq<string>)
    requires known <= xs && forall t :: t in known ==> t in acc
    ensures Unique(acc, xs) == Unique(acc, xs[|known|..])
  {
    assert xs == known + xs[|known|..];
    UniqueSplit(acc, known, xs[|known|..]);
    KnownAddNothing(acc, known);
  }

  /** Making the second list unique first changes nothing. */
  lemma {:induction false} UniqueTwice(acc: seq<string>, done: seq<string>, xs: seq<string>)
    requires NoDuplicates(done) && forall t :: t in done ==> t in acc
    ensures Unique(acc, Unique(done, xs)) == Unique(acc, xs)
    decreases |xs|
  {
    if xs == [] {
      KnownAddNothing(acc, done);
    } else if xs[0] in done {
      UniqueTwice(acc, done, xs[1..]);
    } else {
      var x, done' := xs[0], done + [xs[0]];
      var acc' := if x in acc then acc else acc + [x];
      var all := Unique(done', xs[1..]);
      UniqueTwice(acc', done', xs[1..]);
      UniqueFacts(done', xs[1..]);
      assert done <= all && all[|done|..][0] == x && all[|done|..][1..] == all[|done'|..];
      KnownPrefix(acc, done, all);
      KnownPrefix(acc', done', all);
    }
  }

  /** A separator makes two inputs of one: the tags of the first part come first, and then
      those of the second that are not among them. */
  lemma SeparatedParts(a: string, c: char, b: string)
    requires c in ", \t;"
    ensures ParsedTags(a + [c] + b) == Unique(ParsedTags(a), ParsedTags(b))
  {
    EarlyReturnIsHarmless(a + [c] + b);
    EarlyReturnIsHarmless(a);
    EarlyReturnIsHarmless(b);
    FieldsSplit(a, c, b);
    NormalsSplit(Fields(a), Fields(b));
    UniqueSplit([FIXED], Normals(Fields(a)), Normals(Fields(b)));
    ParsedTagsAreTags(a);
    UniqueTwice(ParsedTags(a), [FIXED], Normals(Fields(b)));
  }

  // ---------------------------------------------------------------- method

  /** parseTags as written: a loop over the fields with a set of tags already seen. */
  method ParseTags(raw: string) returns (out: seq<string>)
    ensures out == ParsedTags(raw)
  {
    out := [FIXED];
    var seen := {FIXED};
    if Trim(raw) == [] {
      return;
    }
    var fields := Fields(raw);
    var i := 0;
    while i < |fields|
      invariant i <= |fields|
      invariant forall t :: t in seen <==> t in out
      invariant Unique(out, Normals(fields[i..])) == ParsedTags(raw)
    {
      var t := Trim(fields[i]);
      assert fields[i..][1..] == fields[i + 1..];
      i := i + 1;
      if t == [] {
        continue;
      }
      if !(PREFIX <= t) {
        t := PREFIX + t;
      }
      if t !in seen {
        seen := seen + {t};
        out := out + [t];
      }
    }
  }
}
