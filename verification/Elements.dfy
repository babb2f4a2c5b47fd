/**
 Information elements (tag, length, body) and their byte encoding, with the
 in-buffer searches of core/rtw_ieee80211.c that every other part is built on.
 */
module Elements {
  import opened Seqs

  type u8 = x: int | 0 <= x < 256

  datatype Elem = Elem(id: u8, body: seq<u8>)

  /** No length octet wraps. */
  ghost predicate Fit(es: seq<Elem>) {
    forall i :: 0 <= i < |es| ==> |es[i].body| < 256
  }

  const EID_EXTENSION: u8 := 255

  function Bytes(e: Elem): seq<u8> {
    [e.id, |e.body| % 256] + e.body
  }

  function Encode(es: seq<Elem>): seq<u8> {
    if es == [] then [] else Bytes(es[0]) + Encode(es[1..])
  }

  /** A receiver's reading of the octets: identifier, length, body. */
  function Parse(b: seq<u8>): seq<Elem>
    decreases |b|
  {
    if |b| < 2 then []
    else
      var n: nat := b[1];
      if |b| < 2 + n then [] else [Elem(b[0], b[2..2 + n])] + Parse(b[2 + n..])
  }

  /** It gives back the elements that were encoded. */
  lemma {:induction false} ParseEncode(es: seq<Elem>)
    requires Fit(es)
    ensures Parse(Encode(es)) == es
  {
    if es != [] {
      var e, t := es[0], Encode(es[1..]);
      assert Fit(es[1..]);
      ParseEncode(es[1..]);
      ParseHead(e, t);
      HeadTail(es);
    }
  }

  lemma ParseHead(e: Elem, t: seq<u8>)
    requires |e.body| < 256
    ensures Parse(Bytes(e) + t) == [e] + Parse(t)
  {
    var b := Bytes(e) + t;
    Slices([e.id, |e.body|], e.body, t);
    assert b == [e.id, |e.body|] + e.body + t;
    assert b[0] == e.id && b[1] == |e.body|;
    assert b[2..2 + |e.body|] == e.body && b[2 + |e.body|..] == t;
  }

  /** Byte position of element `k`. */
  function Off(es: seq<Elem>, k: nat): nat
    requires k <= |es|
  {
    if k == 0 then 0 else Off(es, k - 1) + 2 + |es[k - 1].body|
  }

  lemma {:induction false} EncodeConcat(a: seq<Elem>, b: seq<Elem>)
    ensures Encode(a + b) == Encode(a) + Encode(b)
  {
    if a == [] {
      EmptyConcat(b);
    } else {
      TailOfConcat(a, b);
      EncodeConcat(a[1..], b);
      Assoc(Bytes(a[0]), Encode(a[1..]), Encode(b));
    }
  }

  lemma EncodeOne(e: Elem)
    ensures Encode([e]) == Bytes(e)
  {
    assert [e][1..] == [];
    EmptyConcat(Bytes(e));
  }

  lemma EncodeSnoc(a: seq<Elem>, e: Elem)
    ensures Encode(a + [e]) == Encode(a) + Bytes(e)
  {
    EncodeConcat(a, [e]);
    EncodeOne(e);
  }

  lemma EncodeParts(a: seq<Elem>, e: Elem, t: seq<Elem>)
    ensures Encode(a + [e] + t) == Encode(a) + Bytes(e) + Encode(t)
  {
    EncodeSnoc(a, e);
    EncodeConcat(a + [e], t);
  }

  /** The encoding splits around any element. */
  lemma EncodeSplit(es: seq<Elem>, k: nat)
    requires k < |es|
    ensures Encode(es) == Encode(es[..k]) + Bytes(es[k]) + Encode(es[k + 1..])
  {
    Whole(es, k);
    EncodeParts(es[..k], es[k], es[k + 1..]);
  }

  lemma {:induction false} OffIsLength(es: seq<Elem>, k: nat)
    requires k <= |es|
    ensures |Encode(es[..k])| == Off(es, k)
  {
    if k > 0 {
      OffIsLength(es, k - 1);
      EncodeSnoc(es[..k - 1], es[k - 1]);
      TakeSnoc(es, k - 1);
    }
  }

  lemma OffEnds(es: seq<Elem>)
    ensures Off(es, |es|) == |Encode(es)|
  {
    OffIsLength(es, |es|);
    assert es[..|es|] == es;
  }

  lemma {:induction false} OffGrows(es: seq<Elem>, i: nat, j: nat)
    requires i <= j <= |es|
    ensures Off(es, i) + 2 * (j - i) <= Off(es, j)
    decreases j - i
  {
    if i < j {
      OffGrows(es, i, j - 1);
    }
  }

  /** What a reader positioned at element `k` of a buffer sees. */
  lemma ReadAt(buf: seq<u8>, pre: seq<u8>, es: seq<Elem>, k: nat)
    requires buf == pre + Encode(es)
    requires k < |es| && |es[k].body| < 256
    ensures var at := |pre| + Off(es, k);
            && at + 2 + |es[k].body| == |pre| + Off(es, k + 1) <= |buf|
            && buf[at] == es[k].id && buf[at + 1] == |es[k].body|
            && buf[at + 2..at + 2 + |es[k].body|] == es[k].body
            && buf[..at] == pre + Encode(es[..k])
            && buf[at + 2 + |es[k].body|..] == Encode(es[k + 1..])
  {
    EncodeSplit(es, k);
    OffIsLength(es, k);
    var at := |pre| + Off(es, k);
    var h, e, t := pre + Encode(es[..k]), Bytes(es[k]), Encode(es[k + 1..]);
    Regroup(pre, Encode(es[..k]), e, t);
    Slices(h, e, t);
    Slices(h + [e[0], e[1]], es[k].body, t);
    Assoc(h, [e[0], e[1]], es[k].body);
  }

  /** The header of element `k`, and that the next one starts where it ends. */
  lemma HeaderAt(buf: seq<u8>, from: nat, es: seq<Elem>, k: nat)
    requires from <= |buf| && buf[from..] == Encode(es)
    requires k < |es| && |es[k].body| < 256
    ensures var at := from + Off(es, k);
            && at + 2 + |es[k].body| == from + Off(es, k + 1) <= |buf|
            && buf[at] == es[k].id && buf[at + 1] == |es[k].body|
  {
    Halves(buf, from);
    ReadAt(buf, buf[..from], es, k);
  }

  /** Decoding is unambiguous: equal bytes come from equal element lists. */
  lemma {:induction false} EncodeInjective(a: seq<Elem>, b: seq<Elem>)
    requires Encode(a) == Encode(b) && Fit(a) && Fit(b)
    ensures a == b
  {
    if a != [] && b != [] {
      assert Encode(a)[0] == a[0].id && Encode(b)[0] == b[0].id;
      assert Encode(a)[1] == |a[0].body| && Encode(b)[1] == |b[0].body|;
      var n := 2 + |a[0].body|;
      assert Bytes(a[0]) == Encode(a)[..n] && Bytes(b[0]) == Encode(b)[..n];
      assert a[0].body == Bytes(a[0])[2..] == Bytes(b[0])[2..] == b[0].body;
      assert Encode(a[1..]) == Encode(a)[n..] == Encode(b)[n..] == Encode(b[1..]);
      EncodeInjective(a[1..], b[1..]);
      HeadTail(a);
      HeadTail(b);
    }
  }

  /** Index of the first element with identifier `id`, or |es|. */
  function FirstWithId(es: seq<Elem>, id: u8): (k: nat)
    ensures k <= |es|
    ensures forall i :: 0 <= i < k ==> es[i].id != id
    ensures k < |es| ==> es[k].id == id
  {
    FirstFrom(es, id, 0)
  }

  function FirstFrom(es: seq<Elem>, id: u8, from: nat): (k: nat)
    requires from <= |es|
    ensures from <= k <= |es|
    ensures forall i :: from <= i < k ==> es[i].id != id
    ensures k < |es| ==> es[k].id == id
    decreases |es| - from
  {
    if from == |es| || es[from].id == id then from else FirstFrom(es, id, from + 1)
  }

  lemma FirstWithIdUnique(es: seq<Elem>, id: u8, k: nat)
    requires k <= |es|
    requires forall i :: 0 <= i < k ==> es[i].id != id
    requires k < |es| ==> es[k].id == id
    ensures FirstWithId(es, id) == k
  {
    var f := FirstWithId(es, id);
    assert f < |es| ==> es[f].id == id;
  }

  /**
   rtw_get_ie over IEs[from..from + limit]: absolute position of the first
   element with identifier `index` and the length of its body, or -1.
   */
  method GetIe(buf: array<u8>, from: nat, limit: nat, index: u8, ghost es: seq<Elem>) returns (p: int, len: nat)
    requires from + limit <= buf.Length
    requires buf[from..from + limit] == Encode(es) && Fit(es)
    ensures var k := FirstWithId(es, index);
            if k == |es| then p == -1 else p == from + Off(es, k) && len == |es[k].body|
  {
    len := 0;
    OffEnds(es);
    if limit < 1 {
      FirstWithIdUnique(es, index, |es|);
      return -1, 0;
    }
    ghost var b := buf[..from + limit];
    assert b[from..] == Encode(es);
    var i := 0;
    ghost var k := 0;
    while i < limit
      invariant k <= |es| && i == Off(es, k) <= limit
      invariant forall j :: 0 <= j < k ==> es[j].id != index
      decreases limit - i
    {
      HeaderAt(b, from, es, k);
      var id, n := buf[from + i], buf[from + i + 1];
      if id == index {
        FirstWithIdUnique(es, index, k);
        return from + i, n;
      }
      i := i + n + 2;
      k := k + 1;
    }
    OffGrows(es, k, |es|);
    FirstWithIdUnique(es, index, |es|);
    p := -1;
  }

  /** memcpy of `s` over the buffer at `at`. */
  method CopyIn(buf: array<u8>, at: nat, s: seq<u8>)
    requires at + |s| <= buf.Length
    modifies buf
    ensures buf[..] == old(buf[..at]) + s + old(buf[at + |s|..])
  {
    var i := 0;
    while i < |s|
      invariant 0 <= i <= |s|
      invariant buf[..at] == old(buf[..at])
      invariant buf[at..at + i] == s[..i]
      invariant buf[at + i..] == old(buf[at + i..])
    {
      ghost var b := buf[at + i + 1..];
      buf[at + i] := s[i];
      assert buf[at + i + 1..] == b;
      i := i + 1;
    }
    assert buf[..] == buf[..at] + buf[at..at + i] + buf[at + i..];
    assert s[..i] == s;
  }
}
