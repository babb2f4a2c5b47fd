/**
 Editing of a beacon template in place (core/rtw_ap.c): the byte-level
 routines refine list operations on the elements the template holds.
 */
module Beacon {
  import opened Seqs
  import opened Elements

  const MAX_IE_SZ: nat := 768
  const FIXED_IE_LENGTH: nat := 12

  ghost predicate Sorted(es: seq<Elem>) {
    forall i, j :: 0 <= i < j < |es| ==> es[i].id <= es[j].id
  }

  /** The elements that carry identifier `id` (or, with `own` false, the others), in order. */
  function Part(es: seq<Elem>, id: u8, own: bool): seq<Elem> {
    if es == [] then []
    else if (es[0].id == id) == own then [es[0]] + Part(es[1..], id, own)
    else Part(es[1..], id, own)
  }

  /** Where rtw_add_bcn_ie stops: the first element whose identifier is not below `id`. */
  function Slot(es: seq<Elem>, id: u8): (k: nat)
    ensures k <= |es|
    ensures forall i :: 0 <= i < k ==> es[i].id < id
    ensures k < |es| ==> es[k].id >= id
  {
    SlotFrom(es, id, 0)
  }

  function SlotFrom(es: seq<Elem>, id: u8, from: nat): (k: nat)
    requires from <= |es|
    ensures from <= k <= |es|
    ensures forall i :: from <= i < k ==> es[i].id < id
    ensures k < |es| ==> es[k].id >= id
    decreases |es| - from
  {
    if from == |es| || es[from].id >= id then from else SlotFrom(es, id, from + 1)
  }

  predicate Present(es: seq<Elem>, id: u8) {
    var k := Slot(es, id);
    k < |es| && es[k].id == id
  }

  /** The guard of rtw_add_bcn_ie; it does not count the two header octets. */
  predicate Admitted(es: seq<Elem>, data: seq<u8>) {
    FIXED_IE_LENGTH + |Encode(es)| + |data| <= MAX_IE_SZ
  }

  /** The element rtw_add_bcn_ie anchors on (the match, else the predecessor) exists and has a body. */
  predicate Anchored(es: seq<Elem>, id: u8) {
    var k := Slot(es, id);
    if Present(es, id) then es[k].body != [] else k > 0 && es[k - 1].body != []
  }

  predicate Body(data: seq<u8>) { |data| < 256 }

  /** rtw_add_bcn_ie on the element list. */
  function Add(es: seq<Elem>, id: u8, data: seq<u8>): seq<Elem>
    requires Body(data)
  {
    var k := Slot(es, id);
    if !Admitted(es, data) || !Anchored(es, id) then es
    else if Present(es, id) then es[k := Elem(id, data)]
    else es[..k] + [Elem(id, data)] + es[k..]
  }

  /** rtw_remove_bcn_ie on the element list: the first match, unless its body is empty. */
  function Remove(es: seq<Elem>, id: u8): seq<Elem> {
    var k := FirstWithId(es, id);
    if k < |es| && es[k].body != [] then es[..k] + es[k + 1..] else es
  }

  // ---- laws of the list operations

  /** The elements with a smaller identifier, in order. */
  function Below(es: seq<Elem>, id: u8): seq<Elem> {
    if es == [] then [] else (if es[0].id < id then [es[0]] else []) + Below(es[1..], id)
  }

  lemma {:induction false} BelowPrefix(es: seq<Elem>, id: u8, k: nat)
    requires k <= |es| && (forall i :: 0 <= i < k ==> es[i].id < id) && forall i :: k <= i < |es| ==> es[i].id >= id
    ensures Below(es, id) == es[..k]
  {
    if es != [] {
      BelowPrefix(es[1..], id, if k == 0 then 0 else k - 1);
      EmptyConcat(Below(es[1..], id));
      if k > 0 { assert es[..k] == [es[0]] + es[1..][..k - 1]; }
    }
  }

  /** When an addition to a sorted list takes place: the octets, header of the new element not counted, stay within 768,
      and the first element of the identifier, or without one the last with a smaller identifier, has a body. */
  lemma TakesPlace(es: seq<Elem>, id: u8, data: seq<u8>)
    requires Sorted(es)
    ensures Admitted(es, data) && Anchored(es, id) <==>
            && 12 + |Encode(es)| + |data| <= 768
            && (var own, below := Part(es, id, true), Below(es, id);
                if own != [] then own[0].body != [] else below != [] && below[|below| - 1].body != [])
  {
    var k := Slot(es, id);
    BelowPrefix(es, id, k);
    PartFromSlot(es, id, k);
  }

  lemma PartFromSlot(es: seq<Elem>, id: u8, k: nat)
    requires Sorted(es) && k == Slot(es, id)
    ensures Present(es, id) ==> Part(es, id, true) != [] && Part(es, id, true)[0] == es[k]
    ensures !Present(es, id) ==> Part(es, id, true) == []
  {
    if Present(es, id) {
      Whole(es, k);
      PartOfOthers(es[..k], id);
      PartConcat(es[..k] + [es[k]], es[k + 1..], id, true);
      PartConcat(es[..k], [es[k]], id, true);
      assert [es[k]][1..] == [];
    } else {
      PartOfOthers(es, id);
    }
  }

  lemma {:induction false} PartConcat(a: seq<Elem>, b: seq<Elem>, id: u8, own: bool)
    ensures Part(a + b, id, own) == Part(a, id, own) + Part(b, id, own)
  {
    if a == [] {
      EmptyConcat(b);
    } else {
      TailOfConcat(a, b);
      PartConcat(a[1..], b, id, own);
      Assoc([a[0]], Part(a[1..], id, own), Part(b, id, own));
    }
  }

  lemma {:induction false} PartOfOthers(es: seq<Elem>, id: u8)
    requires forall i :: 0 <= i < |es| ==> es[i].id != id
    ensures Part(es, id, false) == es && Part(es, id, true) == []
  {
    if es != [] { PartOfOthers(es[1..], id); }
  }

  lemma PartAround(a: seq<Elem>, m: seq<Elem>, b: seq<Elem>, id: u8, own: bool)
    requires forall i :: 0 <= i < |m| ==> m[i].id == id
    requires |m| <= 1
    ensures Part(a + m + b, id, own) == Part(a, id, own) + (if own then m else []) + Part(b, id, own)
  {
    PartConcat(a + m, b, id, own);
    PartConcat(a, m, id, own);
    assert m != [] ==> m[1..] == [];
  }

  /** The elements an addition overwrites: the match, or none. */
  function Hit(es: seq<Elem>, id: u8): (m: seq<Elem>)
    ensures |m| <= 1 && forall i :: 0 <= i < |m| ==> m[i].id == id
  {
    if Present(es, id) then [es[Slot(es, id)]] else []
  }

  /** Before and after differ only at the slot. */
  lemma AddShape(es: seq<Elem>, id: u8, data: seq<u8>) returns (a: seq<Elem>, b: seq<Elem>)
    requires Body(data)
    ensures a == es[..Slot(es, id)] && b == es[Slot(es, id) + |Hit(es, id)|..]
    ensures es == a + Hit(es, id) + b
    ensures Admitted(es, data) && Anchored(es, id) ==> Add(es, id, data) == a + [Elem(id, data)] + b
    ensures forall i :: 0 <= i < |a| ==> a[i].id != id
  {
    var k := Slot(es, id);
    a, b := es[..k], es[k + |Hit(es, id)|..];
    if Present(es, id) {
      Whole(es, k);
      UpdateParts(es, k, Elem(id, data));
    } else {
      Halves(es, k);
      EmptyConcat(a);
    }
  }

  /** An addition never touches the elements of other identifiers. */
  lemma AddKeepsOthers(es: seq<Elem>, id: u8, data: seq<u8>)
    requires Body(data)
    ensures Part(Add(es, id, data), id, false) == Part(es, id, false)
  {
    var a, b := AddShape(es, id, data);
    PartAround(a, Hit(es, id), b, id, false);
    PartAround(a, [Elem(id, data)], b, id, false);
  }

  /** On a sorted list an addition that is admitted and anchored replaces the first element of its
      identifier, or becomes the only one; any other addition changes nothing. */
  lemma AddSetsOwn(es: seq<Elem>, id: u8, data: seq<u8>)
    requires Body(data) && Sorted(es)
    ensures Part(Add(es, id, data), id, true) ==
            var own := Part(es, id, true);
            if !(Admitted(es, data) && Anchored(es, id)) then own
            else [Elem(id, data)] + (if own == [] then [] else own[1..])
  {
    var rest := OwnRest(es, id, data);
    if Hit(es, id) != [] { TailOfConcat(Hit(es, id), rest); }
    EmptyConcat(rest);
  }

  /** The elements of the identifier behind the slot. */
  lemma OwnRest(es: seq<Elem>, id: u8, data: seq<u8>) returns (rest: seq<Elem>)
    requires Body(data) && Sorted(es)
    ensures Part(es, id, true) == Hit(es, id) + rest && (Hit(es, id) == [] ==> rest == [])
    ensures Admitted(es, data) && Anchored(es, id) ==> Part(Add(es, id, data), id, true) == [Elem(id, data)] + rest
  {
    var a, b := AddShape(es, id, data);
    rest := Part(b, id, true);
    OwnAfter(a, Hit(es, id), b, id);
    OwnAfter(a, [Elem(id, data)], b, id);
    if Hit(es, id) == [] {
      assert forall i :: 0 <= i < |b| ==> b[i].id != id;
      PartOfOthers(b, id);
    }
  }

  lemma OwnAfter(a: seq<Elem>, m: seq<Elem>, b: seq<Elem>, id: u8)
    requires forall i :: 0 <= i < |a| ==> a[i].id != id
    requires forall i :: 0 <= i < |m| ==> m[i].id == id
    requires |m| <= 1
    ensures Part(a + m + b, id, true) == m + Part(b, id, true)
  {
    PartOfOthers(a, id);
    PartAround(a, m, b, id, true);
    EmptyConcat(m);
  }

  lemma AddKeepsSorted(es: seq<Elem>, id: u8, data: seq<u8>)
    requires Body(data) && Sorted(es)
    ensures Sorted(Add(es, id, data))
  {
    var k := Slot(es, id);
    var r := Add(es, id, data);
    if r != es && !Present(es, id) {
      assert forall i :: 0 <= i < |r| ==> r[i] == if i < k then es[i] else if i == k then Elem(id, data) else es[i - 1];
    }
  }

  /** Sortedness and the two parts pin a list down, so the lemmas above leave no freedom in Add. */
  lemma {:induction false} SortedByParts(a: seq<Elem>, b: seq<Elem>, id: u8)
    requires Sorted(a) && Sorted(b)
    requires Part(a, id, false) == Part(b, id, false) && Part(a, id, true) == Part(b, id, true)
    ensures a == b
    decreases |a| + |b|
  {
    if a == [] || b == [] {
      PartsEmpty(a, id);
      PartsEmpty(b, id);
    } else {
      HeadOfParts(a, id);
      HeadOfParts(b, id);
      var own := a[0].id == id;
      assert Part(a[1..], id, own) == Part(a, id, own)[1..] && Part(b[1..], id, own) == Part(b, id, own)[1..];
      SortedByParts(a[1..], b[1..], id);
      HeadTail(a);
      HeadTail(b);
    }
  }

  lemma PartsEmpty(a: seq<Elem>, id: u8)
    ensures a == [] <==> Part(a, id, false) == [] && Part(a, id, true) == []
  {
  }

  lemma {:induction false} PartMembers(a: seq<Elem>, id: u8, own: bool)
    ensures forall e :: e in Part(a, id, own) ==> e in a && (e.id == id) == own
  {
    if a != [] { PartMembers(a[1..], id, own); }
  }

  /** The head of a sorted list is the smaller of the heads of its parts. */
  lemma HeadOfParts(a: seq<Elem>, id: u8)
    requires Sorted(a) && a != []
    ensures var o, t := Part(a, id, false), Part(a, id, true);
            a[0] == if t == [] then o[0] else if o == [] then t[0] else if o[0].id < id then o[0] else t[0]
  {
    var own := a[0].id == id;
    var z := Part(a[1..], id, !own);
    PartMembers(a[1..], id, !own);
    if z != [] {
      assert z[0] in a[1..];
    }
  }

  /** "Replace or insert in order" has exactly one outcome, and it is what rtw_add_bcn_ie produces. */
  lemma AddIsOrderedPut(es: seq<Elem>, id: u8, data: seq<u8>, r: seq<Elem>)
    requires Body(data) && Sorted(es) && Admitted(es, data) && Anchored(es, id)
    ensures r == Add(es, id, data) <==>
            var own := Part(es, id, true);
            && Sorted(r)
            && Part(r, id, false) == Part(es, id, false)
            && Part(r, id, true) == [Elem(id, data)] + (if own == [] then [] else own[1..])
  {
    AddKeepsSorted(es, id, data);
    AddKeepsOthers(es, id, data);
    AddSetsOwn(es, id, data);
    if Sorted(r) && (forall own :: Part(r, id, own) == Part(Add(es, id, data), id, own)) {
      SortedByParts(r, Add(es, id, data), id);
    }
  }

  /** Taking back an insertion restores the list exactly when the insertion had an effect that
      rtw_remove_bcn_ie can see, that is, unless an element with an empty body went in. */
  lemma RemoveUndoesAdd(es: seq<Elem>, id: u8, data: seq<u8>)
    requires Body(data)
    requires forall i :: 0 <= i < |es| ==> es[i].id != id
    ensures Remove(Add(es, id, data), id) == es <==> data != [] || !Admitted(es, data) || !Anchored(es, id)
  {
    FirstWithIdUnique(es, id, |es|);
    if Admitted(es, data) && Anchored(es, id) {
      var a, b := AddShape(es, id, data);
      RemoveMiddle(a, Elem(id, data), b);
      assert |a + [Elem(id, data)] + b| == |es| + 1;
    }
  }

  /** An element with an empty body, put behind one that has a body, is not taken out again. */
  lemma EmptyBodyStays()
    ensures var es := [Elem(0, [1])];
            var r := Add(es, 5, []);
            r == [Elem(0, [1]), Elem(5, [])] && Remove(r, 5) == r
  {
    var es := [Elem(0, [1])];
    SlotUnique(es, 5, 1);
    assert Encode(es) == Bytes(es[0]) + Encode(es[1..]) && es[1..] == [];
    assert es[..1] + [Elem(5, [])] + es[1..] == [Elem(0, [1]), Elem(5, [])];
    FirstWithIdUnique([Elem(0, [1]), Elem(5, [])], 5, 1);
  }

  /** How long the octets become. */
  lemma AddLength(es: seq<Elem>, id: u8, data: seq<u8>)
    requires Body(data)
    ensures |Encode(Add(es, id, data))| ==
            if Admitted(es, data) && Anchored(es, id) then |Encode(es)| - |Encode(Hit(es, id))| + 2 + |data| else |Encode(es)|
  {
    if Admitted(es, data) && Anchored(es, id) {
      var a, b := AddShape(es, id, data);
      EncodeConcat(a + Hit(es, id), b);
      EncodeConcat(a, Hit(es, id));
      EncodeConcat(a + [Elem(id, data)], b);
      EncodeConcat(a, [Elem(id, data)]);
      EncodeOne(Elem(id, data));
    }
  }

  lemma HitLength(es: seq<Elem>, id: u8)
    ensures Present(es, id) ==> |Encode(Hit(es, id))| == 2 + |es[Slot(es, id)].body|
    ensures !Present(es, id) ==> |Encode(Hit(es, id))| == 0
  {
    if Present(es, id) { EncodeOne(es[Slot(es, id)]); }
  }

  lemma RemoveMiddle(a: seq<Elem>, e: Elem, b: seq<Elem>)
    requires forall i :: 0 <= i < |a| ==> a[i].id != e.id
    ensures Remove(a + [e] + b, e.id) == if e.body != [] then a + b else a + [e] + b
  {
    var r := a + [e] + b;
    Slices(a, [e], b);
    FirstWithIdUnique(r, e.id, |a|);
  }

  // ---- the bytes

  /** Cutting elements i..j out of an encoded buffer and putting `mid` there. */
  lemma SpliceEncoded(buf: seq<u8>, pre: seq<u8>, es: seq<Elem>, i: nat, j: nat, mid: seq<Elem>)
    requires buf == pre + Encode(es) && i <= j <= |es|
    ensures |pre| + Off(es, i) <= |pre| + Off(es, j) <= |buf|
    ensures buf[..|pre| + Off(es, i)] + Encode(mid) + buf[|pre| + Off(es, j)..] == pre + Encode(es[..i] + mid + es[j..])
  {
    CutEncoded(buf, pre, es, i);
    CutEncoded(buf, pre, es, j);
    OffGrows(es, i, j);
    EncodeConcat(es[..i] + mid, es[j..]);
    EncodeConcat(es[..i], mid);
    Regroup(pre, Encode(es[..i]), Encode(mid), Encode(es[j..]));
  }

  lemma CutEncoded(buf: seq<u8>, pre: seq<u8>, es: seq<Elem>, i: nat)
    requires buf == pre + Encode(es) && i <= |es|
    ensures |pre| + Off(es, i) <= |buf|
    ensures buf[..|pre| + Off(es, i)] == pre + Encode(es[..i])
    ensures buf[|pre| + Off(es, i)..] == Encode(es[i..])
  {
    OffIsLength(es, i);
    EncodeConcat(es[..i], es[i..]);
    Halves(es, i);
    Assoc(pre, Encode(es[..i]), Encode(es[i..]));
    Slices(pre + Encode(es[..i]), Encode(es[i..]), []);
    EmptyConcat(buf);
  }

  lemma PokeEncoded(buf: seq<u8>, pre: seq<u8>, es: seq<Elem>, k: nat, pos: nat, c: u8)
    requires buf == pre + Encode(es) && k < |es| && pos < |es[k].body|
    ensures |pre| + Off(es, k) + 2 + pos < |buf|
    ensures buf[|pre| + Off(es, k) + 2 + pos := c] == pre + Encode(es[k := Elem(es[k].id, es[k].body[pos := c])])
  {
    var e := Elem(es[k].id, es[k].body[pos := c]);
    var h, t := Encode(es[..k]), Encode(es[k + 1..]);
    OffIsLength(es, k);
    EncodeSplit(es, k);
    UpdateParts(es, k, e);
    EncodeParts(es[..k], e, es[k + 1..]);
    PokeBytes(es[k], pos, c);
    UpdateMiddle(pre, h, Bytes(es[k]), t, 2 + pos, c);
  }

  lemma PokeBytes(e: Elem, pos: nat, c: u8)
    requires pos < |e.body|
    ensures |Bytes(e)| == 2 + |e.body| && Bytes(e)[2 + pos := c] == Bytes(Elem(e.id, e.body[pos := c]))
  {
  }

  lemma FitSplice(es: seq<Elem>, i: nat, j: nat, mid: seq<Elem>)
    requires i <= j <= |es| && Fit(es) && Fit(mid)
    ensures Fit(es[..i] + mid + es[j..])
  {
  }

  /** The same for one element, phrased for a buffer that has been rewritten. */
  lemma SpliceOne(was: seq<u8>, pre: seq<u8>, es: seq<Elem>, i: nat, j: nat, e: Elem, buf: seq<u8>)
    requires was == pre + Encode(es) && i <= j <= |es| && Fit(es) && |e.body| < 256
    requires |pre| + Off(es, i) <= |pre| + Off(es, j) <= |was|
    requires buf == was[..|pre| + Off(es, i)] + Bytes(e) + was[|pre| + Off(es, j)..]
    ensures buf == pre + Encode(es[..i] + [e] + es[j..]) && Fit(es[..i] + [e] + es[j..])
  {
    EncodeOne(e);
    SpliceEncoded(was, pre, es, i, j, [e]);
    FitSplice(es, i, j, [e]);
  }

  /** The beacon template: fixed fields followed by elements, in a buffer of MAX_IE_SZ octets. */
  class Template {
    const IEs: array<u8>
    var IELength: nat
    ghost var fields: seq<u8>
    ghost var es: seq<Elem>

    ghost predicate Valid()
      reads this, IEs
    {
      && IEs.Length == MAX_IE_SZ && IELength <= MAX_IE_SZ
      && |fields| == FIXED_IE_LENGTH && Fit(es)
      && IEs[..IELength] == fields + Encode(es)
    }

    /** Replaces octets dst..rem by `s`, moving the remainder through a copy. */
    method Splice(dst: nat, rem: nat, s: seq<u8>)
      requires IEs.Length == MAX_IE_SZ && dst <= rem <= IELength <= MAX_IE_SZ
      requires IELength - (rem - dst) + |s| <= MAX_IE_SZ
      modifies this`IELength, IEs
      ensures IELength == old(IELength) - (rem - dst) + |s|
      ensures IEs[..IELength] == old(IEs[..IELength])[..dst] + s + old(IEs[..IELength])[rem..]
    {
      ghost var was := IEs[..IELength];
      var backup := IEs[rem..IELength];
      CopyIn(IEs, dst, s);
      ghost var mid := IEs[..];
      CopyIn(IEs, dst + |s|, backup);
      IELength := dst + |s| + |backup|;
      assert IEs[..IELength] == mid[..dst + |s|] + backup;
      assert mid[..dst + |s|] == was[..dst] + s;
    }

    /** Replaces elements i..j, found at octets dst..rem, by those encoded in `s`. */
    method Replace(dst: nat, rem: nat, s: seq<u8>, ghost mid: seq<Elem>, ghost i: nat, ghost j: nat)
      requires Valid() && i <= j <= |es| && Fit(mid) && s == Encode(mid)
      requires dst == FIXED_IE_LENGTH + Off(es, i) && rem == FIXED_IE_LENGTH + Off(es, j)
      requires dst <= rem <= IELength
      requires IELength - (rem - dst) + |s| <= MAX_IE_SZ
      modifies this, IEs
      ensures Valid() && fields == old(fields)
      ensures es == old(es[..i]) + mid + old(es[j..])
      ensures IELength == old(IELength) - (rem - dst) + |s|
    {
      ghost var was, now := IEs[..IELength], es[..i] + mid + es[j..];
      SpliceEncoded(was, fields, es, i, j, mid);
      FitSplice(es, i, j, mid);
      Splice(dst, rem, s);
      es := now;
    }

    /** Overwrites octet `pos` of the body of the element at octet `p`. */
    method Poke(p: nat, pos: nat, c: u8, ghost k: nat)
      requires Valid() && k < |es| && p == FIXED_IE_LENGTH + Off(es, k) && pos < |es[k].body|
      modifies this`es, IEs
      ensures Valid()
      ensures es == old(es)[k := Elem(old(es)[k].id, old(es)[k].body[pos := c])]
    {
      PokeEncoded(IEs[..IELength], fields, es, k, pos, c);
      IEs[p + 2 + pos] := c;
      es := es[k := Elem(es[k].id, es[k].body[pos := c])];
    }

    /** The header of the element at octet `i`. */
    method ReadHeader(i: nat, ghost k: nat) returns (id: u8, n: nat)
      requires Valid() && k <= |es| && i == FIXED_IE_LENGTH + Off(es, k) < IELength
      ensures k < |es| && id == es[k].id && n == |es[k].body| && i + n + 2 == FIXED_IE_LENGTH + Off(es, k + 1) <= IELength
    {
      ghost var b := IEs[..IELength];
      assert b[FIXED_IE_LENGTH..] == Encode(es);
      OffEnds(es);
      HeaderAt(b, FIXED_IE_LENGTH, es, k);
      id, n := IEs[i], IEs[i + 1];
    }

    /** The search loop of rtw_add_bcn_ie: the match, else the last element with a smaller identifier. */
    method FindAnchor(index: u8) returns (p: int, ielen: nat, bmatch: bool)
      requires Valid()
      ensures var k := Slot(es, index);
              && bmatch == Present(es, index)
              && if bmatch then p == FIXED_IE_LENGTH + Off(es, k) && ielen == |es[k].body|
                 else if k == 0 then p == -1
                 else p == FIXED_IE_LENGTH + Off(es, k - 1) && ielen == |es[k - 1].body|
    {
      p, ielen, bmatch := -1, 0, false;
      var i := FIXED_IE_LENGTH;
      ghost var k := 0;
      OffEnds(es);
      while i < IELength
        invariant 0 <= k <= |es| && i == FIXED_IE_LENGTH + Off(es, k)
        invariant forall j :: 0 <= j < k ==> es[j].id < index
        invariant if k == 0 then p == -1 else p == FIXED_IE_LENGTH + Off(es, k - 1) && ielen == |es[k - 1].body|
        decreases IELength - i
      {
        var id, n := ReadHeader(i, k);
        if id > index {
          SlotUnique(es, index, k);
          return;
        } else if id == index {
          SlotUnique(es, index, k);
          return i, n, true;
        }
        p, ielen := i, n;
        i := i + n + 2;
        k := k + 1;
      }
      OffGrows(es, k, |es|);
      SlotUnique(es, index, k);
    }

    /** rtw_add_bcn_ie, where what it writes fits in the buffer */
    method AddBcnIe(index: u8, data: seq<u8>)
      requires Valid() && Body(data)
      requires FIXED_IE_LENGTH + |Encode(Add(es, index, data))| <= MAX_IE_SZ
      modifies this, IEs
      ensures Valid() && fields == old(fields)
      ensures es == Add(old(es), index, data)
    {
      if IELength + |data| > MAX_IE_SZ {
        return;
      }
      var p, ielen, bmatch := FindAnchor(index);
      if p < 0 || ielen == 0 {
        return;
      }
      ghost var a, b := AddShape(es, index, data);
      AddLength(es, index, data);
      HitLength(es, index);
      PutAt(p, p + ielen + 2, bmatch, index, data);
    }

    /** The second half of rtw_add_bcn_ie: `p` is the match, or the predecessor, and ends at `rem`. */
    method PutAt(p: nat, rem: nat, bmatch: bool, index: u8, data: seq<u8>)
      requires Valid() && Body(data) && bmatch == Present(es, index) && p <= rem
      requires IELength - (if bmatch then rem - p else 0) + 2 + |data| <= MAX_IE_SZ
      requires var k := Slot(es, index);
               if bmatch then p == FIXED_IE_LENGTH + Off(es, k) && rem == FIXED_IE_LENGTH + Off(es, k + 1)
               else rem == FIXED_IE_LENGTH + Off(es, k)
      modifies this, IEs
      ensures Valid() && fields == old(fields)
      ensures var k := Slot(old(es), index);
              es == old(es[..k]) + [Elem(index, data)] + old(es[k + |Hit(es, index)|..])
    {
      ghost var k, e := Slot(es, index), Elem(index, data);
      ghost var j := k + |Hit(es, index)|;
      EncodeOne(e);
      OffEnds(es);
      OffGrows(es, j, |es|);
      Replace(if bmatch then p else rem, rem, [index, |data|] + data, [e], k, j);
    }

    /** rtw_remove_bcn_ie */
    method RemoveBcnIe(index: u8)
      requires Valid()
      modifies this, IEs
      ensures Valid() && fields == old(fields)
      ensures es == Remove(old(es), index)
    {
      assert IEs[FIXED_IE_LENGTH..IELength] == Encode(es);
      var p, ielen := GetIe(IEs, FIXED_IE_LENGTH, IELength - FIXED_IE_LENGTH, index, es);
      if p < 0 || ielen == 0 {
        return;
      }
      ghost var k := FirstWithId(es, index);
      OffEnds(es);
      OffGrows(es, k + 1, |es|);
      Replace(p, p + ielen + 2, [], [], k, k + 1);
    }
  }

  lemma SlotUnique(es: seq<Elem>, id: u8, k: nat)
    requires k <= |es|
    requires forall i :: 0 <= i < k ==> es[i].id < id
    requires k < |es| ==> es[k].id >= id
    ensures Slot(es, id) == k
  {
    var s := Slot(es, id);
    assert s < |es| ==> es[s].id >= id;
  }
}
