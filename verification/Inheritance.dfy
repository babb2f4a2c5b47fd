/**
 Inheritance of elements between the links of a multi-link device
 (core/rtw_eht.c): a per-link element list is sent as its difference from the
 list of the primary link, and the receiver applies the difference to a copy
 of the primary list (clause 35.3 of IEEE 802.11be).
 */
module Inheritance {
  import opened Seqs
  import opened Elements

  const EXT_NON_INHERITANCE: u8 := 56
  const EID_VENDOR: u8 := 221

  /** What an element is found by: its identifier, or its extension identifier. */
  datatype Key = Id(id: u8) | Ext(x: u8)

  /** The test of rtw_get_ie_ex, without and with a one-octet prefix. */
  predicate Matches(e: Elem, k: Key) {
    match k
    case Id(i) => e.id == i
    case Ext(x) => e.id == EID_EXTENSION && e.body != [] && e.body[0] == x
  }

  /** An extension element carries its extension identifier. */
  predicate Sound(e: Elem) { e.id == EID_EXTENSION ==> e.body != [] }

  function KeyOf(e: Elem): Key
    requires Sound(e)
  {
    if e.id == EID_EXTENSION then Ext(e.body[0]) else Id(e.id)
  }

  ghost predicate AllSound(es: seq<Elem>) {
    forall e :: e in es ==> Sound(e)
  }

  ghost predicate UniqueKeys(es: seq<Elem>)
    requires AllSound(es)
  {
    forall i, j :: 0 <= i < j < |es| ==> KeyOf(es[i]) != KeyOf(es[j])
  }

  ghost predicate HasKey(es: seq<Elem>, k: Key)
    requires AllSound(es)
  {
    exists e :: e in es && KeyOf(e) == k
  }

  /** The inputs the encoder is given: one element per key, none of them a Non-Inheritance element. */
  ghost predicate Links(es: seq<Elem>) {
    AllSound(es) && UniqueKeys(es) && !HasKey(es, Ext(EXT_NON_INHERITANCE))
  }

  lemma MatchesKey(e: Elem, f: Elem)
    requires Sound(e) && Sound(f)
    ensures Matches(e, KeyOf(f)) <==> KeyOf(e) == KeyOf(f)
  {
  }

  /** Index of the first match, or |es|. */
  function FirstMatch(es: seq<Elem>, k: Key, from: nat): (n: nat)
    requires from <= |es|
    ensures from <= n <= |es|
    ensures forall i :: from <= i < n ==> !Matches(es[i], k)
    ensures n < |es| ==> Matches(es[n], k)
    decreases |es| - from
  {
    if from == |es| || Matches(es[from], k) then from else FirstMatch(es, k, from + 1)
  }

  /** rtw_ies_remove_ie on the element list. */
  function RemoveAll(es: seq<Elem>, k: Key): seq<Elem> {
    if es == [] then []
    else if Matches(es[0], k) then RemoveAll(es[1..], k)
    else [es[0]] + RemoveAll(es[1..], k)
  }

  // ---- the encoder

  /** Whether an element of the link must be sent: the primary list lacks its key, or has another body
      under it; a differing vendor-specific element is left out. */
  predicate Differs(e: Elem, primary: seq<Elem>)
    requires Sound(e)
  {
    var n := FirstMatch(primary, KeyOf(e), 0);
    n == |primary| || (primary[n].body != e.body && e.id != EID_VENDOR)
  }

  function Changed(cur: seq<Elem>, primary: seq<Elem>, n: nat): seq<Elem>
    requires n <= |cur| && AllSound(cur)
  {
    if n == 0 then []
    else Changed(cur, primary, n - 1) + (if Differs(cur[n - 1], primary) then [cur[n - 1]] else [])
  }

  /** Keys of the first `n` primary elements that the link lacks: identifiers, or extension identifiers. */
  function Lost(cur: seq<Elem>, primary: seq<Elem>, n: nat, ext: bool): seq<u8>
    requires n <= |primary| && AllSound(primary)
  {
    if n == 0 then []
    else
      var e := primary[n - 1];
      Lost(cur, primary, n - 1, ext) +
      (if (e.id == EID_EXTENSION) == ext && FirstMatch(cur, KeyOf(e), 0) == |cur|
       then [if ext then e.body[0] else e.id] else [])
  }

  /** The Non-Inheritance element: a list of identifiers and a list of extension identifiers. */
  function NonInheritance(ids: seq<u8>, exts: seq<u8>): Elem
    requires |ids| < 256 && |exts| < 256
  {
    Elem(EID_EXTENSION, [EXT_NON_INHERITANCE, |ids|] + ids + [|exts|] + exts)
  }

  /** build_inherited_ies on element lists. */
  function Difference(cur: seq<Elem>, primary: seq<Elem>): seq<Elem>
    requires AllSound(cur) && AllSound(primary)
    requires 3 + |Lost(cur, primary, |primary|, false)| + |Lost(cur, primary, |primary|, true)| < 256
  {
    var ids, exts := Lost(cur, primary, |primary|, false), Lost(cur, primary, |primary|, true);
    Changed(cur, primary, |cur|) + (if ids == [] && exts == [] then [] else [NonInheritance(ids, exts)])
  }

  // ---- the decoder

  /** The key a listed octet stands for. */
  function Listed(x: u8, ext: bool): Key {
    if ext then Ext(x) else Id(x)
  }

  function RemoveKeys(es: seq<Elem>, ks: seq<u8>, ext: bool): seq<Elem> {
    if ks == [] then es
    else
      var n := |ks| - 1;
      RemoveAll(RemoveKeys(es, ks[..n], ext), Listed(ks[n], ext))
  }

  predicate IsNonInheritance(e: Elem) {
    e.id == EID_EXTENSION && e.body != [] && e.body[0] == EXT_NON_INHERITANCE
  }

  /** The two lists a Non-Inheritance element announces lie within it. */
  predicate Parses(e: Elem) {
    var b := e.body;
    |b| >= 3 && var n: nat := b[1]; 2 + n < |b| && var m: nat := b[2 + n]; 3 + n + m <= |b|
  }

  function Ids(e: Elem): seq<u8> requires Parses(e) { var n: nat := e.body[1]; e.body[2..2 + n] }

  function Exts(e: Elem): seq<u8> requires Parses(e) { var n: nat := e.body[1]; var m: nat := e.body[2 + n]; e.body[3 + n..3 + n + m] }

  /** One element of the difference applied to a list. */
  function Step(es: seq<Elem>, f: Elem): seq<Elem>
    requires Sound(f) && (IsNonInheritance(f) ==> Parses(f))
  {
    if IsNonInheritance(f) then
      var a := RemoveKeys(es, Ids(f), false);
      RemoveKeys(a, Exts(f), true)
    else
      RemoveAll(es, KeyOf(f)) + [f]
  }

  ghost predicate Appliable(fs: seq<Elem>) {
    AllSound(fs) && forall f :: f in fs && IsNonInheritance(f) ==> Parses(f)
  }

  /** rtw_update_ies_with_inheritance on element lists. */
  function Apply(es: seq<Elem>, fs: seq<Elem>): seq<Elem>
    requires Appliable(fs)
  {
    if fs == [] then es else Step(Apply(es, fs[..|fs| - 1]), fs[|fs| - 1])
  }

  // ---- laws, element by element

  ghost predicate InKeys(e: Elem, ks: seq<u8>, ext: bool) {
    exists x :: x in ks && Matches(e, Listed(x, ext))
  }

  lemma {:induction false} RemoveAllCount(es: seq<Elem>, k: Key, e: Elem)
    ensures multiset(RemoveAll(es, k))[e] == if Matches(e, k) then 0 else multiset(es)[e]
  {
    if es != [] {
      RemoveAllCount(es[1..], k, e);
      HeadTail(es);
    }
  }

  lemma {:induction false} RemoveKeysCount(es: seq<Elem>, ks: seq<u8>, ext: bool, e: Elem)
    ensures multiset(RemoveKeys(es, ks, ext))[e] == if InKeys(e, ks, ext) then 0 else multiset(es)[e]
  {
    if ks != [] {
      var n := |ks| - 1;
      RemoveKeysCount(es, ks[..n], ext, e);
      RemoveAllCount(RemoveKeys(es, ks[..n], ext), Listed(ks[n], ext), e);
      SnocListed(e, ks[..n], ks[n], ext);
      LastSnoc(ks);
    }
  }

  lemma SnocListed(e: Elem, ks: seq<u8>, x: u8, ext: bool)
    ensures InKeys(e, ks + [x], ext) <==> InKeys(e, ks, ext) || Matches(e, Listed(x, ext))
  {
    var g := ks + [x];
    assert x in g;
    assert forall y :: y in ks ==> y in g;
  }

  /** Elements under distinct keys are distinct. */
  lemma {:induction false} UniqueCount(es: seq<Elem>, e: Elem)
    requires AllSound(es) && UniqueKeys(es)
    ensures multiset(es)[e] == if e in es then 1 else 0
  {
    if es != [] {
      UniqueCount(es[1..], e);
      HeadTail(es);
    }
  }

  /** Applying replacements only: the last word on a key is the replacement, if there is one. */
  lemma {:induction false} ApplyCount(es: seq<Elem>, fs: seq<Elem>, e: Elem)
    requires Appliable(fs) && UniqueKeys(fs) && Sound(e)
    requires forall f :: f in fs ==> !IsNonInheritance(f)
    ensures multiset(Apply(es, fs))[e] ==
            if HasKey(fs, KeyOf(e)) then (if e in fs then 1 else 0) else multiset(es)[e]
  {
    if fs != [] {
      var g, f := fs[..|fs| - 1], fs[|fs| - 1];
      ApplyCount(es, g, e);
      assert f in fs;
      StepCount(Apply(es, g), f, e);
      SnocKeys(g, f, e);
      LastSnoc(fs);
    }
  }

  lemma StepCount(es: seq<Elem>, f: Elem, e: Elem)
    requires Sound(f) && Sound(e) && !IsNonInheritance(f)
    ensures multiset(Step(es, f))[e] ==
            if KeyOf(e) == KeyOf(f) then (if e == f then 1 else 0) else multiset(es)[e]
  {
    RemoveAllCount(es, KeyOf(f), e);
    MatchesKey(e, f);
  }

  lemma SnocKeys(fs: seq<Elem>, f: Elem, e: Elem)
    requires AllSound(fs) && Sound(f) && Sound(e)
    requires forall i :: 0 <= i < |fs| ==> KeyOf(fs[i]) != KeyOf(f)
    ensures HasKey(fs + [f], KeyOf(e)) <==> HasKey(fs, KeyOf(e)) || KeyOf(f) == KeyOf(e)
    ensures e in fs + [f] <==> e in fs || e == f
    ensures KeyOf(f) == KeyOf(e) ==> e !in fs
  {
    var g := fs + [f];
    assert f in g;
    assert forall h :: h in fs ==> h in g;
  }

  /** Which elements are sent. */
  lemma {:induction false} ChangedMembers(cur: seq<Elem>, primary: seq<Elem>, n: nat)
    requires n <= |cur| && AllSound(cur)
    ensures forall e :: e in Changed(cur, primary, n) <==> e in cur[..n] && Differs(e, primary)
  {
    if n > 0 {
      ChangedMembers(cur, primary, n - 1);
      TakeSnoc(cur, n - 1);
    }
  }

  lemma {:induction false} ChangedUnique(cur: seq<Elem>, primary: seq<Elem>, n: nat)
    requires n <= |cur| && AllSound(cur) && UniqueKeys(cur)
    ensures var c := Changed(cur, primary, n); AllSound(c) && UniqueKeys(c)
  {
    if n > 0 {
      ChangedUnique(cur, primary, n - 1);
      ChangedMembers(cur, primary, n - 1);
      var c, e := Changed(cur, primary, n - 1), cur[n - 1];
      forall i | 0 <= i < |c| ensures KeyOf(c[i]) != KeyOf(e) {
        assert c[i] in cur[..n - 1];
      }
    }
  }

  /** Which keys are reported lost. */
  lemma {:induction false} LostMembers(cur: seq<Elem>, primary: seq<Elem>, n: nat, ext: bool, e: Elem)
    requires n <= |primary| && AllSound(primary) && Sound(e)
    ensures InKeys(e, Lost(cur, primary, n, ext), ext) <==>
            exists p :: p in primary[..n] && GoneAs(p, cur, ext, e)
  {
    if n > 0 {
      LostMembers(cur, primary, n - 1, ext, e);
      TakeSnoc(primary, n - 1);
      var p, ks := primary[n - 1], Lost(cur, primary, n - 1, ext);
      assert p in primary && Sound(p);
      SnocListed(e, ks, if p.id == EID_EXTENSION then p.body[0] else p.id, ext);
      assert p in primary[..n];
      assert forall q :: q in primary[..n] <==> q in primary[..n - 1] || q == p;
    }
  }

  /** Element `p`, of the given kind, has the key of `e`, and `cur` has no such key. */
  predicate GoneAs(p: Elem, cur: seq<Elem>, ext: bool, e: Elem)
    requires Sound(e)
  {
    Sound(p) && (p.id == EID_EXTENSION) == ext && KeyOf(p) == KeyOf(e) && FirstMatch(cur, KeyOf(p), 0) == |cur|
  }

  // ---- the round trip

  lemma KeyFound(es: seq<Elem>, e: Elem)
    requires AllSound(es) && Sound(e)
    ensures HasKey(es, KeyOf(e)) <==> FirstMatch(es, KeyOf(e), 0) < |es|
  {
    var n := FirstMatch(es, KeyOf(e), 0);
    if n < |es| {
      MatchesKey(es[n], e);
      assert es[n] in es;
    } else if HasKey(es, KeyOf(e)) {
      var f :| f in es && KeyOf(f) == KeyOf(e);
      var i :| 0 <= i < |es| && es[i] == f;
      MatchesKey(es[i], e);
    }
  }

  lemma NonInheritanceParses(ids: seq<u8>, exts: seq<u8>)
    requires 3 + |ids| + |exts| < 256
    ensures var e := NonInheritance(ids, exts);
            && Sound(e) && IsNonInheritance(e) && Parses(e) && Ids(e) == ids && Exts(e) == exts
            && e.id == 255 && e.body[0] == 56
  {
    var b := NonInheritance(ids, exts).body;
    Slices([EXT_NON_INHERITANCE, |ids|], ids, [|exts|] + exts);
    Assoc([EXT_NON_INHERITANCE, |ids|] + ids, [|exts|], exts);
    Slices([EXT_NON_INHERITANCE, |ids|] + ids, [|exts|], exts);
  }

  /** Both lists of lost keys are short enough for one Non-Inheritance element. */
  predicate Small(cur: seq<Elem>, primary: seq<Elem>)
    requires AllSound(primary)
  {
    3 + |Lost(cur, primary, |primary|, false)| + |Lost(cur, primary, |primary|, true)| < 256
  }

  /** Applying the tail of the difference takes out exactly the keys the link lacks. */
  lemma ApplyLost(es: seq<Elem>, ids: seq<u8>, exts: seq<u8>, e: Elem)
    requires 3 + |ids| + |exts| < 256
    ensures var n := NonInheritance(ids, exts);
            && Sound(n) && (IsNonInheritance(n) ==> Parses(n))
            && multiset(Step(es, n))[e] == if InKeys(e, ids, false) || InKeys(e, exts, true) then 0 else multiset(es)[e]
  {
    NonInheritanceParses(ids, exts);
    RemoveKeysCount(es, ids, false, e);
    RemoveKeysCount(RemoveKeys(es, ids, false), exts, true, e);
  }

  lemma DifferenceApplies(cur: seq<Elem>, primary: seq<Elem>)
    requires Links(cur) && AllSound(primary) && Small(cur, primary)
    ensures var c := Changed(cur, primary, |cur|);
            && Appliable(c) && UniqueKeys(c) && (forall f :: f in c ==> !IsNonInheritance(f))
            && Appliable(Difference(cur, primary))
  {
    ChangedMembers(cur, primary, |cur|);
    ChangedUnique(cur, primary, |cur|);
    assert cur[..|cur|] == cur;
    var ids, exts := Lost(cur, primary, |primary|, false), Lost(cur, primary, |primary|, true);
    NonInheritanceParses(ids, exts);
    forall f | f in Changed(cur, primary, |cur|) ensures !IsNonInheritance(f) {
      assert f in cur;
    }
  }

  /** How often an element occurs in the result. */
  lemma ResultCount(cur: seq<Elem>, primary: seq<Elem>, e: Elem)
    requires Links(cur) && Links(primary) && Small(cur, primary) && Sound(e)
    ensures Appliable(Difference(cur, primary)) && AllSound(Changed(cur, primary, |cur|))
    ensures var c := Changed(cur, primary, |cur|);
            multiset(Apply(primary, Difference(cur, primary)))[e] ==
            if !HasKey(cur, KeyOf(e)) then 0
            else if HasKey(c, KeyOf(e)) then (if e in c then 1 else 0)
            else if e in primary then 1 else 0
  {
    DifferenceApplies(cur, primary);
    var c := Changed(cur, primary, |cur|);
    var ids, exts := Lost(cur, primary, |primary|, false), Lost(cur, primary, |primary|, true);
    ApplyCount(primary, c, e);
    UniqueCount(primary, e);
    ApplyLost(Apply(primary, c), ids, exts, e);
    TailApplies(primary, c, NonInheritance(ids, exts));
    LostIff(cur, primary, e);
    ChangedMembers(cur, primary, |cur|);
    assert cur[..|cur|] == cur;
    EmptyConcat(c);
  }

  lemma TailApplies(es: seq<Elem>, c: seq<Elem>, n: Elem)
    requires Appliable(c) && Appliable(c + [n])
    ensures Apply(es, c + [n]) == Step(Apply(es, c), n)
  {
    assert (c + [n])[..|c|] == c;
  }

  lemma LostIff(cur: seq<Elem>, primary: seq<Elem>, e: Elem)
    requires AllSound(cur) && AllSound(primary) && Sound(e)
    ensures var n := |primary|;
            InKeys(e, Lost(cur, primary, n, false), false) || InKeys(e, Lost(cur, primary, n, true), true) <==>
            HasKey(primary, KeyOf(e)) && !HasKey(cur, KeyOf(e))
  {
    var n := |primary|;
    LostMembers(cur, primary, n, false, e);
    LostMembers(cur, primary, n, true, e);
    assert primary[..n] == primary;
    KeyFound(cur, e);
    if HasKey(primary, KeyOf(e)) && !HasKey(cur, KeyOf(e)) {
      var p :| p in primary && KeyOf(p) == KeyOf(e);
      assert GoneAs(p, cur, p.id == EID_EXTENSION, e);
    }
  }

  /** Where both lists have a vendor-specific element, it is the same one. */
  ghost predicate VendorAgrees(cur: seq<Elem>, primary: seq<Elem>) {
    forall c, p :: c in cur && p in primary && c.id == EID_VENDOR == p.id ==> c == p
  }

  /** An unchanged key holds the same element on both sides, vendor-specific ones aside. */
  lemma UnchangedSame(cur: seq<Elem>, primary: seq<Elem>, c: Elem)
    requires Links(cur) && Links(primary) && c in cur && !Differs(c, primary)
    requires VendorAgrees(cur, primary) || c.id != EID_VENDOR
    ensures c in primary
  {
    var n := FirstMatch(primary, KeyOf(c), 0);
    MatchesKey(primary[n], c);
    assert primary[n] in primary;
  }

  lemma {:induction false} UniqueElem(es: seq<Elem>, e: Elem, f: Elem)
    requires AllSound(es) && UniqueKeys(es) && e in es && f in es && KeyOf(e) == KeyOf(f)
    ensures e == f
  {
  }

  lemma ResultAgrees(cur: seq<Elem>, primary: seq<Elem>, e: Elem)
    requires Links(cur) && Links(primary) && Small(cur, primary) && VendorAgrees(cur, primary) && Sound(e)
    ensures Appliable(Difference(cur, primary))
    ensures multiset(Apply(primary, Difference(cur, primary)))[e] == multiset(cur)[e]
  {
    ResultCount(cur, primary, e);
    UniqueCount(cur, e);
    if HasKey(cur, KeyOf(e)) {
      var c :| c in cur && KeyOf(c) == KeyOf(e);
      if e in cur { UniqueElem(cur, e, c); }
      ChangedMembers(cur, primary, |cur|);
      assert cur[..|cur|] == cur;
      var ch := Changed(cur, primary, |cur|);
      if Differs(c, primary) {
        assert c in ch;
      } else {
        UnchangedSame(cur, primary, c);
        if e in primary { UniqueElem(primary, e, c); }
      }
    }
  }

  lemma {:induction false} ApplyFrom(es: seq<Elem>, fs: seq<Elem>, e: Elem)
    requires Appliable(fs) && e in Apply(es, fs)
    ensures e in es || e in fs
  {
    if fs != [] {
      var g, f := fs[..|fs| - 1], fs[|fs| - 1];
      var r := Apply(es, g);
      LastSnoc(fs);
      if IsNonInheritance(f) {
        RemoveKeysCount(r, Ids(f), false, e);
        RemoveKeysCount(RemoveKeys(r, Ids(f), false), Exts(f), true, e);
        assert multiset(r)[e] > 0;
        ApplyFrom(es, g, e);
      } else if e != f {
        RemoveAllCount(r, KeyOf(f), e);
        assert multiset(r)[e] > 0;
        ApplyFrom(es, g, e);
      }
    }
  }

  /** The receiver gets back exactly the elements of the link, except that a vendor-specific element
      that differs from the primary one is lost: the round trip holds if and only if there is none. */
  lemma RoundTripIff(cur: seq<Elem>, primary: seq<Elem>)
    requires Links(cur) && Links(primary) && Small(cur, primary)
    ensures Appliable(Difference(cur, primary))
    ensures multiset(Apply(primary, Difference(cur, primary))) == multiset(cur) <==> VendorAgrees(cur, primary)
  {
    DifferenceApplies(cur, primary);
    var d := Difference(cur, primary);
    var r := Apply(primary, d);
    if VendorAgrees(cur, primary) {
      forall e: Elem ensures multiset(r)[e] == multiset(cur)[e] {
        if Sound(e) {
          ResultAgrees(cur, primary, e);
        } else if e in r {
          ApplyFrom(primary, d, e);
        }
      }
    } else {
      var c, p :| c in cur && p in primary && c.id == EID_VENDOR == p.id && c != p;
      VendorLost(cur, primary, c, p);
    }
  }

  lemma VendorLost(cur: seq<Elem>, primary: seq<Elem>, c: Elem, p: Elem)
    requires Links(cur) && Links(primary) && Small(cur, primary)
    requires c in cur && p in primary && c.id == EID_VENDOR == p.id && c != p
    ensures Appliable(Difference(cur, primary))
    ensures multiset(Apply(primary, Difference(cur, primary)))[c] == 0 && multiset(cur)[c] == 1
  {
    ResultCount(cur, primary, c);
    UniqueCount(cur, c);
    ChangedMembers(cur, primary, |cur|);
    assert cur[..|cur|] == cur;
    KeyFound(primary, c);
    if c in primary { UniqueElem(primary, c, p); }
    var ch := Changed(cur, primary, |cur|);
    forall d | d in ch ensures KeyOf(d) != KeyOf(c) {
      if KeyOf(d) == KeyOf(c) { UniqueElem(cur, c, d); }
    }
  }

  /** Two links that differ in a vendor-specific element: nothing is sent, and the receiver keeps the
      primary link's element. */
  lemma VendorExample()
    ensures var cur, primary := [Elem(EID_VENDOR, [1])], [Elem(EID_VENDOR, [2])];
            && Links(cur) && Links(primary) && Small(cur, primary)
            && Difference(cur, primary) == [] && Apply(primary, []) == primary != cur
  {
    var cur, primary := [Elem(EID_VENDOR, [1])], [Elem(EID_VENDOR, [2])];
    assert cur[0] in cur && primary[0] in primary;
    assert FirstMatch(primary, Id(EID_VENDOR), 0) == 0 && FirstMatch(cur, Id(EID_VENDOR), 0) == 0;
    assert Lost(cur, primary, 0, false) == [] && Lost(cur, primary, 0, true) == [] && Changed(cur, primary, 0) == [];
    assert Lost(cur, primary, 1, false) == [] && Lost(cur, primary, 1, true) == [];
  }

  /** What is sent, key by key: an element of the link goes exactly when the primary link does not have it, a
      vendor-specific one where both have one aside; nothing that could be inherited is sent. */
  lemma SentMeans(cur: seq<Elem>, primary: seq<Elem>, e: Elem)
    requires Links(cur) && Links(primary)
    ensures e in Changed(cur, primary, |cur|) <==>
            e in cur && e !in primary && !(e.id == 221 && exists p :: p in primary && p.id == 221)
  {
    ChangedMembers(cur, primary, |cur|);
    assert cur[..|cur|] == cur;
    if e in cur {
      KeyFound(primary, e);
      var n := FirstMatch(primary, KeyOf(e), 0);
      if n < |primary| {
        assert primary[n] in primary;
        MatchesKey(primary[n], e);
        SameKeySame(primary, e, n);
      }
      forall p | p in primary && p.id == 221 && e.id == 221 ensures KeyOf(p) == KeyOf(e) { }
    }
  }

  lemma SameKeySame(primary: seq<Elem>, e: Elem, n: nat)
    requires Links(primary) && Sound(e) && n < |primary| && KeyOf(primary[n]) == KeyOf(e)
    ensures e in primary <==> primary[n].body == e.body
  {
    assert primary[n] in primary;
    if e in primary { UniqueElem(primary, e, primary[n]); }
    if primary[n].body == e.body { assert primary[n] == e; }
  }

  /** What is listed as not inherited: exactly the keys of the primary link that the link lacks. */
  lemma ListedMeans(cur: seq<Elem>, primary: seq<Elem>, e: Elem)
    requires Links(cur) && Links(primary) && Sound(e)
    ensures InKeys(e, Lost(cur, primary, |primary|, e.id == EID_EXTENSION), e.id == EID_EXTENSION) <==>
            HasKey(primary, KeyOf(e)) && !HasKey(cur, KeyOf(e))
  {
    var ext := e.id == EID_EXTENSION;
    LostMembers(cur, primary, |primary|, ext, e);
    assert primary[..|primary|] == primary;
    KeyFound(cur, e);
    if p :| p in primary && GoneAs(p, cur, ext, e) { }
    if p :| p in primary && KeyOf(p) == KeyOf(e) && !HasKey(cur, KeyOf(e)) { assert GoneAs(p, cur, ext, e); }
  }
}
