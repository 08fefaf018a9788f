/** The two-shot buffer contract between MeshBackend and the shims: ask with a small
    buffer, and if the answer says how much is needed, ask once more. */
module JsonBuffer {

  import opened Bytes

  /** 64 MB: the most the caller will allocate on the shim's word. */
  const CAP: nat := 64 * 1024 * 1024

  /** What the shim has to say in one call: an error, or an encoded document. */
  datatype Answer = Error | Document(bytes: seq<Byte>)

  /** encoding/json escapes control characters, so a document has no NUL byte. */
  ghost predicate NulFree(s: seq<Byte>) {
    forall i :: 0 <= i < |s| ==> s[i] != 0
  }

  /** writeJSON. It writes inside the buffer only, and only when everything fits. */
  method WriteJson(a: Answer, buf: array<Byte>) returns (rc: int, need: nat)
    modifies buf
    ensures a.Error? ==> rc == 1 && need == 0 && buf[..] == old(buf[..])
    ensures a.Document? ==> need == |a.bytes| + 1 && (rc == 0 || rc == 2)
    ensures a.Document? ==> (rc == 2 <==> buf.Length < need)
    ensures rc == 0 ==> need <= buf.Length && buf[..] == a.bytes + [0] + old(buf[..])[need..]
    ensures rc == 2 ==> buf[..] == old(buf[..])
  {
    if a.Error? {
      return 1, 0;
    }
    need := |a.bytes| + 1;
    if buf.Length < need {
      return 2, need;
    }
    forall i | 0 <= i < |a.bytes| { buf[i] := a.bytes[i]; }
    buf[|a.bytes|] := 0;
    rc := 0;
    assert buf[..] == a.bytes + [0] + old(buf[..])[need..];
  }

  /** std::string(buf.data()): the bytes before the first NUL. */
  function CString(s: seq<Byte>): (r: seq<Byte>)
    requires 0 in s
  {
    if s[0] == 0 then [] else [s[0]] + CString(s[1..])
  }

  lemma {:induction false} CStringStops(p: seq<Byte>, rest: seq<Byte>)
    requires NulFree(p)
    ensures CString(p + [0] + rest) == p
  {
    var s := p + [0] + rest;
    assert s[|p|] == 0;
    if p != [] {
      assert s[1..] == p[1..] + [0] + rest;
      assert s[0] == p[0];
      CStringStops(p[1..], rest);
    }
  }

  datatype Fetched = Text(bytes: seq<Byte>) | ShimFailed | TooLarge

  /** PeersJson and SelfJson (8192 and 4096 bytes at first), given what the shim answers
      to the first and, if asked again, to the second call. The document of the
      successful call comes back unchanged, in at most two calls and never with a buffer
      past the cap; and it comes back exactly when the first answer fits, or needs no
      more than the cap and the second is no longer than the first. */
  method FetchJson(initial: nat, first: Answer, second: Answer) returns (r: Fetched, calls: nat, capacity: nat)
    requires first.Document? ==> NulFree(first.bytes)
    requires second.Document? ==> NulFree(second.bytes)
    ensures calls <= 2
    ensures capacity <= initial || capacity <= CAP
    ensures r.Text? ==> Document(r.bytes) == if calls == 1 then first else second
    ensures r.Text? <==>
              && first.Document?
              && (|first.bytes| < initial ||
                  (|first.bytes| < CAP && second.Document? && |second.bytes| <= |first.bytes|))
    ensures r.TooLarge? <==> first.Document? && |first.bytes| >= initial && |first.bytes| >= CAP
  {
    var buf := new Byte[initial](_ => 0);
    capacity, calls := initial, 1;
    var rc, need := WriteJson(first, buf);
    ghost var last := first;
    if rc == 2 && need > buf.Length {
      if need > CAP {
        return TooLarge, calls, capacity;
      }
      buf := new Byte[need](_ => 0);
      capacity, calls, last := need, 2, second;
      rc, need := WriteJson(second, buf);
    }
    if rc != 0 {
      return ShimFailed, calls, capacity;
    }
    ghost var rest :| buf[..] == last.bytes + [0] + rest;
    CStringStops(last.bytes, rest);
    assert buf[..][|last.bytes|] == 0;
    r := Text(CString(buf[..]));
  }
}
