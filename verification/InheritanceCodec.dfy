/** The byte-buffer routines of core/rtw_eht.c, proved against the element-list functions of Inheritance. */
module InheritanceCodec {
  import opened Seqs
  import opened Elements
  import opened Inheritance

  /** Elements the buffers hold: no length wraps and extension elements carry their extension identifier. */
  ghost predicate Good(es: seq<Elem>) {
    Fit(es) && AllSound(es)
  }

  lemma HeaderAndFirst(buf: seq<u8>, from: nat, es: seq<Elem>, k: nat)
    requires from <= |buf| && buf[from..] == Encode(es)
    requires k < |es| && |es[k].body| < 256
    ensures var at := from + Off(es, k);
            && at + 2 + |es[k].body| == from + Off(es, k + 1) <= |buf|
            && buf[at] == es[k].id && buf[at + 1] == |es[k].body|
            && (es[k].body != [] ==> buf[at + 2] == es[k].body[0])
  {
    Halves(buf, from);
    ReadAt(buf, buf[..from], es, k);
    if es[k].body != [] {
      SliceHead(buf, from + Off(es, k) + 2, from + Off(es, k) + 2 + |es[k].body|);
    }
  }

  lemma FirstMatchUnique(es: seq<Elem>, key: Key, n: nat)
    requires n <= |es|
    requires forall i :: 0 <= i < n ==> !Matches(es[i], key)
    requires n < |es| ==> Matches(es[n], key)
    ensures FirstMatch(es, key, 0) == n
  {
    var f := FirstMatch(es, key, 0);
    assert f < |es| ==> Matches(es[f], key);
  }

  /** rtw_get_ie_ex: absolute position and total length of the first match, or -1. */
  method GetIeEx(buf: array<u8>, from: nat, limit: nat, key: Key, ghost es: seq<Elem>) returns (p: int, total: nat)
    requires from + limit <= buf.Length
    requires buf[from..from + limit] == Encode(es) && Good(es)
    ensures var n := FirstMatch(es, key, 0);
            if n == |es| then p == -1 else p == from + Off(es, n) && total == 2 + |es[n].body|
  {
    OffEnds(es);
    ghost var b := buf[..from + limit];
    assert b[from..] == Encode(es);
    var cnt := 0;
    ghost var k := 0;
    while cnt < limit
      invariant k <= |es| && cnt == Off(es, k) <= limit
      invariant forall j :: 0 <= j < k ==> !Matches(es[j], key)
      decreases limit - cnt
    {
      HeaderAndFirst(b, from, es, k);
      var id: int, n: nat := buf[from + cnt], buf[from + cnt + 1];
      assert es[k] in es;
      var hit := match key
        case Id(i) => id == i
        case Ext(x) => id == EID_EXTENSION && buf[from + cnt + 2] == x;
      if hit {
        FirstMatchUnique(es, key, k);
        return from + cnt, n + 2;
      }
      cnt := cnt + n + 2;
      k := k + 1;
    }
    OffGrows(es, k, |es|);
    FirstMatchUnique(es, key, |es|);
    return -1, 0;
  }

  lemma {:induction false} RemoveAllSplit(es: seq<Elem>, key: Key, n: nat)
    requires n < |es| && Matches(es[n], key) && forall i :: 0 <= i < n ==> !Matches(es[i], key)
    ensures RemoveAll(es, key) == es[..n] + RemoveAll(es[n + 1..], key)
  {
    if n == 0 {
      EmptyConcat(RemoveAll(es[1..], key));
    } else {
      RemoveAllSplit(es[1..], key, n - 1);
      assert es[1..][..n - 1] == es[1..n] && es[1..][n..] == es[n + 1..];
      HeadTail(es[..n]);
      Assoc([es[0]], es[1..n], RemoveAll(es[n + 1..], key));
    }
  }

  lemma {:induction false} RemoveAllNone(es: seq<Elem>, key: Key)
    requires forall i :: 0 <= i < |es| ==> !Matches(es[i], key)
    ensures RemoveAll(es, key) == es
  {
    if es != [] {
      RemoveAllNone(es[1..], key);
      HeadTail(es);
    }
  }

  /** The bytes around the first match at element `n` of `rest`, found at position |Encode(done)| + Off(rest, n). */
  lemma CutMatch(buf: seq<u8>, done: seq<Elem>, rest: seq<Elem>, n: nat)
    requires buf == Encode(done) + Encode(rest) && n < |rest|
    ensures var p := |Encode(done)| + Off(rest, n);
            var q := p + 2 + |rest[n].body|;
            && q <= |buf|
            && buf[..p] == Encode(done + rest[..n]) && buf[q..] == Encode(rest[n + 1..])
  {
    OffIsLength(rest, n);
    EncodeSplit(rest, n);
    EncodeConcat(done, rest[..n]);
    var a, b, c := Encode(rest[..n]), Bytes(rest[n]), Encode(rest[n + 1..]);
    Assoc(Encode(done), a + b, c);
    Assoc(Encode(done), a, b);
    Slices(Encode(done) + a, b, c);
  }

  /** One turn of rtw_ies_remove_ie: `done` is settled, the first match in `rest` goes. */
  method RemoveNext(buf: array<u8>, start: nat, len: nat, key: Key, ghost done: seq<Elem>, ghost rest: seq<Elem>)
    returns (p: int, n: nat)
    requires start == |Encode(done)| <= len <= buf.Length
    requires buf[..len] == Encode(done) + Encode(rest) && Good(rest)
    modifies buf
    ensures n <= len
    ensures var i := FirstMatch(rest, key, 0);
            if i == |rest| then p == -1 && n == len && buf[..n] == Encode(done) + Encode(rest)
            else p == |Encode(done + rest[..i])| <= n && buf[..n] == Encode(done + rest[..i]) + Encode(rest[i + 1..])
  {
    assert buf[start..len] == Encode(rest);
    var total;
    p, total := GetIeEx(buf, start, len - start, key, rest);
    if p < 0 {
      return -1, len;
    }
    ghost var i := FirstMatch(rest, key, 0);
    CutMatch(buf[..len], done, rest, i);
    CloseUp(buf, p, total, len, Encode(done + rest[..i]), Encode(rest[i + 1..]));
    n := len - total;
  }

  /** rtw_ies_remove_ie with offset 0: every match goes, the rest closes up in place. */
  method RemoveIe(buf: array<u8>, len: nat, key: Key, ghost es: seq<Elem>) returns (n: nat)
    requires len <= buf.Length && buf[..len] == Encode(es) && Good(es)
    modifies buf
    ensures n <= len && buf[..n] == Encode(RemoveAll(es, key))
  {
    n := len;
    var start := 0;
    ghost var done, rest := [], es;
    EmptyConcat(RemoveAll(es, key));
    EmptyConcat(Encode(es));
    while true
      invariant start == |Encode(done)| <= n <= len
      invariant buf[..n] == Encode(done) + Encode(rest) && Good(rest)
      invariant RemoveAll(es, key) == done + RemoveAll(rest, key)
      decreases |rest|
    {
      ghost var i := FirstMatch(rest, key, 0);
      var p;
      p, n := RemoveNext(buf, start, n, key, done, rest);
      if p < 0 {
        RemoveAllNone(rest, key);
        EncodeConcat(done, rest);
        return;
      }
      RemoveAllSplit(rest, key, i);
      Assoc(done, rest[..i], RemoveAll(rest[i + 1..], key));
      done, rest, start := done + rest[..i], rest[i + 1..], p;
    }
  }

  /** memmove of the octets after p + total down to p. */
  method CloseUp(buf: array<u8>, p: nat, total: nat, n: nat, ghost head: seq<u8>, ghost tail: seq<u8>)
    requires p + total <= n <= buf.Length
    requires buf[..n][..p] == head && buf[..n][p + total..] == tail
    modifies buf
    ensures buf[..n - total] == head + tail
  {
    var remain := buf[p + total..n];
    assert remain == tail && buf[..p] == head;
    CopyIn(buf, p, remain);
  }

  lemma ElemAt(b: seq<u8>, es: seq<Elem>, k: nat)
    requires b == Encode(es) && Good(es) && k < |es|
    ensures var i, n := Off(es, k), |es[k].body|;
            && n < 256 && i + 2 + n == Off(es, k + 1) <= |b|
            && b[i] == es[k].id && b[i + 1] == n && b[i + 2..i + 2 + n] == es[k].body
  {
    EmptyConcat(b);
    ReadAt(b, [], es, k);
  }

  /** Reads the element at octet `i`, as the loops of the source do through a struct pointer. */
  method ReadElem(buf: array<u8>, len: nat, i: nat, ghost es: seq<Elem>, ghost k: nat) returns (e: Elem)
    requires len <= buf.Length && buf[..len] == Encode(es) && Good(es)
    requires k < |es| && i == Off(es, k)
    ensures e == es[k] && Sound(e) && |e.body| < 256 && i + 2 + |e.body| == Off(es, k + 1) <= len
  {
    var b := buf[..len];
    ElemAt(b, es, k);
    assert es[k] in es;
    var n: nat := b[i + 1];
    e := Elem(b[i], b[i + 2..i + 2 + n]);
  }

  /** rtw_set_ie at the end of a buffer of `n` octets. */
  method SetIe(buf: array<u8>, n: nat, e: Elem, ghost es: seq<Elem>) returns (m: nat)
    requires n + 2 + |e.body| <= buf.Length && buf[..n] == Encode(es) && |e.body| < 256
    modifies buf
    ensures m == n + 2 + |e.body| && buf[..m] == Encode(es + [e])
  {
    EncodeSnoc(es, e);
    CopyIn(buf, n, [e.id, |e.body|] + e.body);
    m := n + 2 + |e.body|;
    assert buf[..m] == Encode(es) + Bytes(e);
  }

  /** The lookup and comparison of one element against the primary list. */
  method CompareWithPrimary(e: Elem, primary: array<u8>, plen: nat, ghost ps: seq<Elem>) returns (send: bool)
    requires plen <= primary.Length && primary[..plen] == Encode(ps) && Good(ps) && Sound(e) && |e.body| < 256
    ensures send == Differs(e, ps)
  {
    assert primary[0..0 + plen] == Encode(ps);
    var p, total := GetIeEx(primary, 0, plen, KeyOf(e), ps);
    if p < 0 {
      return true;
    }
    ghost var n := FirstMatch(ps, KeyOf(e), 0);
    var q := ReadElem(primary, plen, p, ps, n);
    send := q.body != e.body && e.id != EID_VENDOR;
  }

  /** The first loop of build_inherited_ies. */
  method BuildChanged(cur: array<u8>, clen: nat, primary: array<u8>, plen: nat, sta: array<u8>,
                      ghost cs: seq<Elem>, ghost ps: seq<Elem>) returns (n: nat)
    requires clen <= cur.Length && cur[..clen] == Encode(cs) && Good(cs)
    requires plen <= primary.Length && primary[..plen] == Encode(ps) && Good(ps)
    requires sta != cur && sta != primary && clen <= sta.Length
    modifies sta
    ensures n <= clen && sta[..n] == Encode(Changed(cs, ps, |cs|))
  {
    n := 0;
    var i := 0;
    ghost var k := 0;
    OffEnds(cs);
    while i < clen
      invariant k <= |cs| && i == Off(cs, k) <= clen && n <= i
      invariant sta[..n] == Encode(Changed(cs, ps, k))
      decreases clen - i
    {
      var e := ReadElem(cur, clen, i, cs, k);
      var send := CompareWithPrimary(e, primary, plen, ps);
      if send {
        n := SetIe(sta, n, e, Changed(cs, ps, k));
      } else {
        EmptyConcat(Changed(cs, ps, k));
      }
      i := i + 2 + |e.body|;
      k := k + 1;
    }
    OffGrows(cs, k, |cs|);
  }

  /** The second loop of build_inherited_ies. */
  method CollectLost(cur: array<u8>, clen: nat, primary: array<u8>, plen: nat, ghost cs: seq<Elem>, ghost ps: seq<Elem>)
    returns (ids: seq<u8>, exts: seq<u8>)
    requires clen <= cur.Length && cur[..clen] == Encode(cs) && Good(cs)
    requires plen <= primary.Length && primary[..plen] == Encode(ps) && Good(ps)
    ensures ids == Lost(cs, ps, |ps|, false) && exts == Lost(cs, ps, |ps|, true)
  {
    ids, exts := [], [];
    var i := 0;
    ghost var k := 0;
    OffEnds(ps);
    while i < plen
      invariant k <= |ps| && i == Off(ps, k) <= plen
      invariant ids == Lost(cs, ps, k, false) && exts == Lost(cs, ps, k, true)
      decreases plen - i
    {
      var e := ReadElem(primary, plen, i, ps, k);
      assert cur[0..0 + clen] == Encode(cs);
      var p, total := GetIeEx(cur, 0, clen, KeyOf(e), cs);
      if p < 0 {
        if e.id == EID_EXTENSION {
          exts := exts + [e.body[0]];
        } else {
          ids := ids + [e.id];
        }
      }
      i := i + 2 + |e.body|;
      k := k + 1;
    }
    OffGrows(ps, k, |ps|);
  }

  /** build_inherited_ies: the difference goes into `sta`, and its length is returned in one octet. */
  method BuildInheritedIes(cur: array<u8>, clen: nat, primary: array<u8>, plen: nat, sta: array<u8>,
                           ghost cs: seq<Elem>, ghost ps: seq<Elem>) returns (len: u8)
    requires clen <= cur.Length && cur[..clen] == Encode(cs) && Good(cs)
    requires plen <= primary.Length && primary[..plen] == Encode(ps) && Good(ps)
    requires Small(cs, ps) && sta != cur && sta != primary && clen + 257 <= sta.Length
    modifies sta
    ensures var n := |Encode(Difference(cs, ps))|;
            n <= sta.Length && sta[..n] == Encode(Difference(cs, ps)) && len == n % 256
  {
    var m := BuildChanged(cur, clen, primary, plen, sta, cs, ps);
    var ids, exts := CollectLost(cur, clen, primary, plen, cs, ps);
    m := AppendLost(sta, m, ids, exts, Changed(cs, ps, |cs|));
    len := m % 256;
  }

  /** Its last part: the Non-Inheritance element, if there is anything to list. */
  method AppendLost(sta: array<u8>, n: nat, ids: seq<u8>, exts: seq<u8>, ghost es: seq<Elem>) returns (m: nat)
    requires 3 + |ids| + |exts| < 256 && n + 257 <= sta.Length && sta[..n] == Encode(es)
    modifies sta
    ensures m <= sta.Length && sta[..m] == Encode(es + if ids == [] && exts == [] then [] else [NonInheritance(ids, exts)])
  {
    m := n;
    var nih := [EXT_NON_INHERITANCE, |ids|] + ids + [|exts|] + exts;
    if |nih| > 3 {
      m := SetIe(sta, m, Elem(EID_EXTENSION, nih), es);
    } else {
      EmptyConcat(es);
    }
  }

  lemma GoodSubset(a: seq<Elem>, b: seq<Elem>)
    requires Good(b) && forall e :: e in a ==> e in b
    ensures Good(a)
  {
    forall i | 0 <= i < |a| ensures |a[i].body| < 256 {
      assert a[i] in b;
    }
  }

  lemma GoodRemoveAll(es: seq<Elem>, key: Key)
    requires Good(es)
    ensures Good(RemoveAll(es, key))
  {
    forall e | e in RemoveAll(es, key) ensures e in es {
      RemoveAllCount(es, key, e);
      assert multiset(es)[e] > 0;
    }
    GoodSubset(RemoveAll(es, key), es);
  }

  lemma RemoveKeysSnoc(es: seq<Elem>, ks: seq<u8>, ext: bool, j: nat)
    requires j < |ks|
    ensures RemoveKeys(es, ks[..j + 1], ext) == RemoveAll(RemoveKeys(es, ks[..j], ext), Listed(ks[j], ext))
  {
    assert ks[..j + 1][..j] == ks[..j];
  }

  /** One of the two inner loops over the lists of a Non-Inheritance element. */
  method RemoveListed(buf: array<u8>, len: nat, ks: seq<u8>, ext: bool, ghost es: seq<Elem>) returns (n: nat)
    requires len <= buf.Length && buf[..len] == Encode(es) && Good(es)
    modifies buf
    ensures n <= len && buf[..n] == Encode(RemoveKeys(es, ks, ext)) && Good(RemoveKeys(es, ks, ext))
  {
    n := len;
    var j := 0;
    while j < |ks|
      invariant 0 <= j <= |ks| && n <= len
      invariant buf[..n] == Encode(RemoveKeys(es, ks[..j], ext)) && Good(RemoveKeys(es, ks[..j], ext))
    {
      ghost var r := RemoveKeys(es, ks[..j], ext);
      RemoveKeysSnoc(es, ks, ext, j);
      GoodRemoveAll(r, Listed(ks[j], ext));
      n := RemoveIe(buf, n, Listed(ks[j], ext), r);
      j := j + 1;
    }
    assert ks[..j] == ks;
  }

  /** One turn of rtw_update_ies_with_inheritance. */
  method ApplyOne(buf: array<u8>, len: nat, f: Elem, ghost es: seq<Elem>) returns (n: nat)
    requires len + 2 + |f.body| <= buf.Length && buf[..len] == Encode(es) && Good(es)
    requires Sound(f) && |f.body| < 256 && (IsNonInheritance(f) ==> Parses(f))
    modifies buf
    ensures n <= len + 2 + |f.body| && buf[..n] == Encode(Step(es, f)) && Good(Step(es, f))
  {
    if IsNonInheritance(f) {
      n := RemoveListed(buf, len, Ids(f), false, es);
      n := RemoveListed(buf, n, Exts(f), true, RemoveKeys(es, Ids(f), false));
    } else {
      GoodRemoveAll(es, KeyOf(f));
      n := RemoveIe(buf, len, KeyOf(f), es);
      n := SetIe(buf, n, f, RemoveAll(es, KeyOf(f)));
    }
  }

  lemma ApplySnoc(es: seq<Elem>, fs: seq<Elem>, k: nat)
    requires Appliable(fs) && k < |fs|
    ensures Apply(es, fs[..k + 1]) == Step(Apply(es, fs[..k]), fs[k])
  {
    assert fs[..k + 1][..k] == fs[..k];
  }

  /** rtw_update_ies_with_inheritance: the first `clen` octets of `cur` are updated in place. */
  method UpdateIesWithInheritance(cur: array<u8>, clen: nat, inh: array<u8>, ilen: u8, ghost es: seq<Elem>, ghost fs: seq<Elem>)
    returns (n: nat)
    requires clen + ilen <= cur.Length && cur[..clen] == Encode(es) && Good(es) && cur != inh
    requires ilen <= inh.Length && inh[..ilen] == Encode(fs) && Good(fs) && Appliable(fs)
    modifies cur
    ensures n <= cur.Length && cur[..n] == Encode(Apply(es, fs))
  {
    n := clen;
    var i: nat := 0;
    ghost var k := 0;
    OffEnds(fs);
    while i < ilen
      invariant k <= |fs| && i == Off(fs, k) <= ilen && n <= clen + i
      invariant cur[..n] == Encode(Apply(es, fs[..k])) && Good(Apply(es, fs[..k]))
      decreases ilen - i
    {
      var f := ReadElem(inh, ilen, i, fs, k);
      ApplySnoc(es, fs, k);
      assert f in fs;
      n := ApplyOne(cur, n, f, Apply(es, fs[..k]));
      i := i + 2 + |f.body|;
      k := k + 1;
    }
    OffGrows(fs, k, |fs|);
    assert fs[..k] == fs;
  }

  lemma {:induction false} FitConcat(a: seq<Elem>, b: seq<Elem>)
    requires Good(a) && Good(b)
    ensures Good(a + b)
  {
  }

  lemma GoodDifference(cur: seq<Elem>, primary: seq<Elem>)
    requires Good(cur) && Good(primary) && Small(cur, primary)
    ensures Good(Difference(cur, primary))
  {
    ChangedMembers(cur, primary, |cur|);
    assert cur[..|cur|] == cur;
    GoodSubset(Changed(cur, primary, |cur|), cur);
    var ids, exts := Lost(cur, primary, |primary|, false), Lost(cur, primary, |primary|, true);
    NonInheritanceParses(ids, exts);
    FitConcat(Changed(cur, primary, |cur|), [NonInheritance(ids, exts)]);
    EmptyConcat(Changed(cur, primary, |cur|));
  }

  /** For every pair of link lists the difference is something the receiver can apply, and applying it
      gives back the link if and only if no vendor-specific element differs. */
  lemma DifferenceReady(cs: seq<Elem>, ps: seq<Elem>)
    requires Good(cs) && Links(cs) && Good(ps) && Links(ps) && Small(cs, ps)
    ensures Good(Difference(cs, ps)) && Appliable(Difference(cs, ps))
    ensures multiset(Apply(ps, Difference(cs, ps))) == multiset(cs) <==> VendorAgrees(cs, ps)
  {
    RoundTripIff(cs, ps);
    GoodDifference(cs, ps);
  }

  /** The sender's encoding followed by the receiver's update of a copy of the primary list, on bytes. */
  method Exchange(cur: array<u8>, clen: nat, primary: array<u8>, plen: nat, sta: array<u8>, copy: array<u8>,
                  ghost cs: seq<Elem>, ghost ps: seq<Elem>) returns (n: nat)
    requires clen <= cur.Length && cur[..clen] == Encode(cs) && Good(cs)
    requires plen <= primary.Length && primary[..plen] == Encode(ps) && Good(ps)
    requires Small(cs, ps) && |Encode(Difference(cs, ps))| < 256
    requires Good(Difference(cs, ps)) && Appliable(Difference(cs, ps))
    requires sta != cur && sta != primary && sta != copy && clen + 257 <= sta.Length
    requires plen + 255 <= copy.Length && copy[..plen] == primary[..plen]
    modifies sta, copy
    ensures n <= copy.Length && copy[..n] == Encode(Apply(ps, Difference(cs, ps)))
  {
    ghost var d := Difference(cs, ps);
    assert copy[..plen] == Encode(ps);
    var len := BuildInheritedIes(cur, clen, primary, plen, sta, cs, ps);
    n := UpdateIesWithInheritance(copy, plen, sta, len, ps, d);
  }

  /** For two link lists the copy ends with an encoding of the link's elements if and only if no
      vendor-specific element differs. */
  method SendAndApply(cur: array<u8>, clen: nat, primary: array<u8>, plen: nat, sta: array<u8>, copy: array<u8>,
                      ghost cs: seq<Elem>, ghost ps: seq<Elem>) returns (n: nat, ghost rs: seq<Elem>)
    requires clen <= cur.Length && cur[..clen] == Encode(cs) && Good(cs) && Links(cs)
    requires plen <= primary.Length && primary[..plen] == Encode(ps) && Good(ps) && Links(ps)
    requires Small(cs, ps) && |Encode(Difference(cs, ps))| < 256
    requires sta != cur && sta != primary && sta != copy && clen + 257 <= sta.Length
    requires plen + 255 <= copy.Length && copy[..plen] == primary[..plen]
    modifies sta, copy
    ensures n <= copy.Length && copy[..n] == Encode(rs)
    ensures multiset(rs) == multiset(cs) <==> VendorAgrees(cs, ps)
  {
    DifferenceReady(cs, ps);
    rs := Apply(ps, Difference(cs, ps));
    n := Exchange(cur, clen, primary, plen, sta, copy, cs, ps);
  }
}
