/**
 The traffic indication map (core/rtw_ap.c:48-168): encoding a bitmap of
 buffered-traffic bits into a TIM element, and refreshing it in the beacon.
 */
module Tim {
  import opened Seqs
  import opened Elements
  import opened Beacon

  const EID_SSID: u8 := 0
  const EID_RATES: u8 := 1
  const EID_DS: u8 := 3
  const EID_TIM: u8 := 5

  /** Index of the first non-zero octet from `i` on, or |bmp|. */
  function FirstSet(bmp: seq<u8>, i: nat): (k: nat)
    requires i <= |bmp|
    ensures i <= k <= |bmp|
    ensures forall j :: i <= j < k ==> bmp[j] == 0
    ensures k < |bmp| ==> bmp[k] != 0
    decreases |bmp| - i
  {
    if i == |bmp| || bmp[i] != 0 then i else FirstSet(bmp, i + 1)
  }

  /** Index of the last non-zero octet up to `i`, or 0. */
  function LastSet(bmp: seq<u8>, i: nat): (k: nat)
    requires i < |bmp|
    ensures k <= i
    ensures forall j :: k < j <= i ==> bmp[j] == 0
    ensures k > 0 ==> bmp[k] != 0
  {
    if i == 0 || bmp[i] != 0 then i else LastSet(bmp, i - 1)
  }

  /** The octets the partial virtual bitmap covers: start..stop, start even. */
  function Start(bmp: seq<u8>): nat
    requires bmp != []
  {
    var f := FirstSet(bmp, 0);
    if f == |bmp| then 0 else f - f % 2
  }

  function Stop(bmp: seq<u8>): nat
    requires bmp != []
  {
    LastSet(bmp, |bmp| - 1) + 1
  }

  lemma Window(bmp: seq<u8>)
    requires bmp != []
    ensures Start(bmp) < Stop(bmp) <= |bmp| && Start(bmp) % 2 == 0
    ensures forall j :: 0 <= j < |bmp| && bmp[j] != 0 ==> Start(bmp) <= j < Stop(bmp)
  {
    var f, l := FirstSet(bmp, 0), LastSet(bmp, |bmp| - 1);
    assert f < |bmp| ==> bmp[f] != 0;
  }

  /** The TIM element rtw_set_tim_ie writes. */
  function TimElem(cnt: u8, period: u8, bmp: seq<u8>): Elem
    requires 1 <= |bmp| <= 250
  {
    Window(bmp);
    Elem(EID_TIM, [cnt, period, bmp[0] % 2 + Start(bmp)] + bmp[Start(bmp)..Stop(bmp)])
  }

  /** Section 9.4.2.5 of IEEE 802.11-2020: the control octet gives the start and the bit of AID 0,
      octets outside the partial bitmap are zero. */
  function Decode(control: u8, partial: seq<u8>, n: nat): seq<u8> {
    seq(n, i => Octet(control, partial, i))
  }

  function Octet(control: u8, partial: seq<u8>, i: int): u8 {
    var s := control - control % 2;
    var o := if s <= i < s + |partial| then partial[i - s] else 0;
    if i == 0 then o - o % 2 + control % 2 else o
  }

  lemma RoundTrip(cnt: u8, period: u8, bmp: seq<u8>)
    requires 1 <= |bmp| <= 250
    ensures TimElem(cnt, period, bmp).id == 5
    ensures var b := TimElem(cnt, period, bmp).body;
            && 4 <= |b| <= 253 && b[0] == cnt && b[1] == period
            && Decode(b[2], b[3..], |bmp|) == bmp
  {
    Window(bmp);
    var b := TimElem(cnt, period, bmp).body;
    assert b[3..] == bmp[Start(bmp)..Stop(bmp)];
    assert b[2] - b[2] % 2 == Start(bmp) && b[2] % 2 == bmp[0] % 2;
    DecodeWindow(b[2], bmp);
  }

  lemma DecodeWindow(control: u8, bmp: seq<u8>)
    requires 1 <= |bmp| <= 250 && Start(bmp) < Stop(bmp) <= |bmp|
    requires control - control % 2 == Start(bmp) && control % 2 == bmp[0] % 2
    ensures Decode(control, bmp[Start(bmp)..Stop(bmp)], |bmp|) == bmp
  {
    Window(bmp);
    var p := bmp[Start(bmp)..Stop(bmp)];
    assert forall i :: 0 <= i < |bmp| ==> Octet(control, p, i) == bmp[i];
  }

  /** Any encoding of `bmp` must cover every octet that the control octet cannot restore. */
  lemma MustCover(control: u8, partial: seq<u8>, bmp: seq<u8>, k: nat)
    requires Decode(control, partial, |bmp|) == bmp
    requires k < |bmp| && (if k == 0 then bmp[0] > 1 else bmp[k] > 0)
    ensures var s := control - control % 2; s <= k < s + |partial|
  {
    assert bmp[k] == Decode(control, partial, |bmp|)[k] == Octet(control, partial, k);
  }

  /** Only the bit of AID 0 in the first two octets, and something later. */
  ghost predicate GroupBitApart(bmp: seq<u8>) {
    |bmp| > 2 && bmp[0] == 1 && bmp[1] == 0 && exists j :: 2 <= j < |bmp| && bmp[j] != 0
  }

  /** The standard's start octet ignores the bit of AID 0; rtw_set_tim_ie does not. So its element is
      the shortest encoding of the bitmap exactly when that bit does not stand apart. */
  lemma ShortestIff(bmp: seq<u8>)
    requires 1 <= |bmp| <= 250
    ensures GroupBitApart(bmp) <==>
            exists control: u8, partial: seq<u8> ::
              partial != [] && Decode(control, partial, |bmp|) == bmp && |partial| < Stop(bmp) - Start(bmp)
  {
    Window(bmp);
    if GroupBitApart(bmp) {
      var l := Stop(bmp);
      var c, p := 3, bmp[2..l];
      assert forall i :: 0 <= i < |bmp| ==> Octet(c, p, i) == bmp[i];
      assert Decode(c, p, |bmp|) == bmp;
    } else {
      forall c: u8, p: seq<u8> | p != [] && Decode(c, p, |bmp|) == bmp ensures |p| >= Stop(bmp) - Start(bmp) {
        NotShorter(c, p, bmp);
      }
    }
  }

  /** The bit of AID 0 and a bit in the third octet: the element carries three octets where one would do. */
  lemma LongerExample()
    ensures Start([1, 0, 4]) == 0 && Stop([1, 0, 4]) == 3 && Decode(3, [4], 3) == [1, 0, 4]
  {
    var bmp := [1, 0, 4];
    assert FirstSet(bmp, 0) == 0 && LastSet(bmp, 2) == 2;
    assert Octet(3, [4], 0) == 1 && Octet(3, [4], 1) == 0 && Octet(3, [4], 2) == 4;
  }

  lemma NotShorter(c: u8, p: seq<u8>, bmp: seq<u8>)
    requires 1 <= |bmp| <= 250 && !GroupBitApart(bmp)
    requires p != [] && Decode(c, p, |bmp|) == bmp
    ensures |p| >= Stop(bmp) - Start(bmp)
  {
    var f, l := FirstSet(bmp, 0), Stop(bmp) - 1;
    if l > 0 {
      MustCover(c, p, bmp, l);
      if f > 0 || bmp[0] > 1 {
        MustCover(c, p, bmp, f);
      } else {
        MustCover(c, p, bmp, 1);
      }
    }
  }

  /** The two scans of rtw_set_tim_ie. */
  method Scan(bmp: seq<u8>) returns (n1: nat, n2: nat)
    requires bmp != []
    ensures n1 == Start(bmp) && n2 + 1 == Stop(bmp)
  {
    n1, n2 := 0, 0;
    var i := 0;
    while i < |bmp| && bmp[i] == 0
      invariant 0 <= i <= |bmp| && FirstSet(bmp, 0) == FirstSet(bmp, i)
    {
      i := i + 1;
    }
    if i < |bmp| {
      n1 := i - i % 2;
      i := |bmp| - 1;
      while i > 0 && bmp[i] == 0
        invariant 0 <= i < |bmp| && LastSet(bmp, |bmp| - 1) == LastSet(bmp, i)
      {
        i := i - 1;
      }
      n2 := i;
    }
  }

  /** rtw_set_tim_ie, writing at octet `at` of the buffer; the returned length does not wrap. */
  method SetTimIe(cnt: u8, period: u8, bmp: seq<u8>, buf: array<u8>, at: nat) returns (n: u8)
    requires 1 <= |bmp| <= 250 && at + |Bytes(TimElem(cnt, period, bmp))| <= buf.Length
    modifies buf
    ensures n == |Bytes(TimElem(cnt, period, bmp))|
    ensures buf[..] == old(buf[..at]) + Bytes(TimElem(cnt, period, bmp)) + old(buf[at + n..])
  {
    Window(bmp);
    var n1, n2 := Scan(bmp);
    var len := n2 - n1 + 1;
    n := 2 + 2 + 1 + len;
    ghost var tim := TimElem(cnt, period, bmp);
    assert |tim.body| == 3 + len;
    var out := [EID_TIM, 2 + 1 + len] + ([cnt, period, bmp[0] % 2 + n1] + bmp[n1..n1 + len]);
    CopyIn(buf, at, out);
  }

  // ---- the beacon

  /** Octets taken by the first element of an identifier, header included. */
  function SizeOf(es: seq<Elem>, id: u8): nat {
    var k := FirstWithId(es, id);
    if k < |es| then 2 + |es[k].body| else 0
  }

  predicate HasTim(es: seq<Elem>) {
    var k := FirstWithId(es, EID_TIM);
    k < |es| && es[k].body != []
  }

  /** Where update_BCNTIM puts a first TIM: it takes the SSID, rates and DS elements to lead the beacon. */
  function LeadSize(es: seq<Elem>): nat {
    SizeOf(es, EID_SSID) + SizeOf(es, EID_RATES) + SizeOf(es, EID_DS)
  }

  /** update_BCNTIM on the element list, when the insertion point is the boundary before element `lead`. */
  function Refresh(es: seq<Elem>, tim: Elem, lead: nat): seq<Elem>
    requires lead <= |es|
  {
    var k := FirstWithId(es, EID_TIM);
    if HasTim(es) then es[..k] + [tim] + es[k + 1..] else es[..lead] + [tim] + es[lead..]
  }

  /** A refresh changes no element but the TIM, and keeps the order of the others. */
  lemma RefreshKeepsOthers(es: seq<Elem>, tim: Elem, lead: nat)
    requires lead <= |es| && tim.id == EID_TIM
    ensures Part(Refresh(es, tim, lead), EID_TIM, false) == Part(es, EID_TIM, false)
  {
    var k := FirstWithId(es, EID_TIM);
    if HasTim(es) {
      Whole(es, k);
      PartAround(es[..k], [es[k]], es[k + 1..], EID_TIM, false);
      PartAround(es[..k], [tim], es[k + 1..], EID_TIM, false);
    } else {
      Halves(es, lead);
      PartConcat(es[..lead], es[lead..], EID_TIM, false);
      PartAround(es[..lead], [tim], es[lead..], EID_TIM, false);
      EmptyConcat(Part(es[..lead], EID_TIM, false));
    }
  }

  method Size(bcn: Template, id: u8) returns (n: nat)
    requires bcn.Valid()
    ensures n == SizeOf(bcn.es, id)
  {
    assert bcn.IEs[FIXED_IE_LENGTH..bcn.IELength] == Encode(bcn.es);
    var p, len := GetIe(bcn.IEs, FIXED_IE_LENGTH, bcn.IELength - FIXED_IE_LENGTH, id, bcn.es);
    n := if p < 0 then 0 else len + 2;
  }

  /** The octets of the element list that the TIM replaces, none when it is inserted. */
  function TimSpan(es: seq<Elem>): (nat, nat) {
    var k := FirstWithId(es, EID_TIM);
    if HasTim(es) then (Off(es, k), Off(es, k + 1)) else (LeadSize(es), LeadSize(es))
  }

  /** The insertion point is the boundary before element `lead`; a beacon that has a TIM needs none. */
  predicate Aligned(es: seq<Elem>, lead: nat) {
    lead <= |es| && (HasTim(es) || LeadSize(es) == Off(es, lead))
  }

  function SumOf(es: seq<Elem>, id: u8): nat {
    if es == [] then 0 else (if es[0].id == id then 2 + |es[0].body| else 0) + SumOf(es[1..], id)
  }

  lemma {:induction false} SizeInSum(es: seq<Elem>, id: u8, k: nat)
    requires k < |es| && es[k].id == id
    ensures 2 + |es[k].body| <= SumOf(es, id)
  {
    if k > 0 { SizeInSum(es[1..], id, k - 1); }
  }

  lemma {:induction false} SumsInEncode(es: seq<Elem>)
    ensures SumOf(es, EID_SSID) + SumOf(es, EID_RATES) + SumOf(es, EID_DS) <= |Encode(es)|
  {
    if es != [] { SumsInEncode(es[1..]); }
  }

  lemma LeadInside(es: seq<Elem>)
    ensures LeadSize(es) <= |Encode(es)|
  {
    SumsInEncode(es);
    forall id: u8 ensures SizeOf(es, id) <= SumOf(es, id) {
      var k := FirstWithId(es, id);
      if k < |es| { SizeInSum(es, id, k); }
    }
  }

  /** update_BCNTIM on any beacon, where the result fits in the buffer: the element goes in place of the TIM, or behind as many octets as the SSID,
      rates and DS elements take. Where that is a boundary the element list is the refreshed one. */
  method UpdateBcnTim(bcn: Template, bmp: seq<u8>, ghost lead: nat)
    requires bcn.Valid() && 1 <= |bmp| <= 250
    requires var (dst, rem) := TimSpan(bcn.es); bcn.IELength - (rem - dst) + |Bytes(TimElem(0, 1, bmp))| <= MAX_IE_SZ
    modifies bcn, bcn.IEs
    ensures var was := old(bcn.IEs[..bcn.IELength]);
            var (dst, rem) := TimSpan(old(bcn.es));
            && FIXED_IE_LENGTH + dst <= FIXED_IE_LENGTH + rem <= |was| && bcn.IELength <= MAX_IE_SZ
            && bcn.IEs[..bcn.IELength] == was[..FIXED_IE_LENGTH + dst] + Bytes(TimElem(0, 1, bmp)) + was[FIXED_IE_LENGTH + rem..]
    ensures Aligned(old(bcn.es), lead) ==>
              bcn.Valid() && bcn.fields == old(bcn.fields) && bcn.es == Refresh(old(bcn.es), TimElem(0, 1, bmp), lead)
  {
    ghost var tim, was, es := TimElem(0, 1, bmp), bcn.IEs[..bcn.IELength], bcn.es;
    var dst, rem := FindSpan(bcn);
    SpliceTim(bcn, dst, rem, bmp);
    if Aligned(es, lead) {
      RefreshedBytes(was, bcn.fields, es, bmp, lead, bcn.IEs[..bcn.IELength]);
      bcn.es := Refresh(es, tim, lead);
    }
  }

  lemma RefreshedBytes(was: seq<u8>, fields: seq<u8>, es: seq<Elem>, bmp: seq<u8>, lead: nat, now: seq<u8>)
    requires 1 <= |bmp| <= 250 && was == fields + Encode(es) && Fit(es) && Aligned(es, lead)
    requires var (dst, rem) := TimSpan(es);
             && |fields| + dst <= |fields| + rem <= |was|
             && now == was[..|fields| + dst] + Bytes(TimElem(0, 1, bmp)) + was[|fields| + rem..]
    ensures var r := Refresh(es, TimElem(0, 1, bmp), lead); now == fields + Encode(r) && Fit(r)
  {
    TimFits(bmp);
    var i := if HasTim(es) then FirstWithId(es, EID_TIM) else lead;
    var j := if HasTim(es) then i + 1 else lead;
    SpliceOne(was, fields, es, i, j, TimElem(0, 1, bmp), now);
  }

  method FindSpan(bcn: Template) returns (dst: nat, rem: nat)
    requires bcn.Valid()
    ensures (dst, rem) == (FIXED_IE_LENGTH + TimSpan(bcn.es).0, FIXED_IE_LENGTH + TimSpan(bcn.es).1) && dst <= rem <= bcn.IELength
  {
    assert bcn.IEs[FIXED_IE_LENGTH..bcn.IELength] == Encode(bcn.es);
    OffEnds(bcn.es);
    LeadInside(bcn.es);
    var p, len := GetIe(bcn.IEs, FIXED_IE_LENGTH, bcn.IELength - FIXED_IE_LENGTH, EID_TIM, bcn.es);
    if p >= 0 && len > 0 {
      OffGrows(bcn.es, FirstWithId(bcn.es, EID_TIM) + 1, |bcn.es|);
      return p, p + len + 2;
    }
    var ssid := Size(bcn, EID_SSID);
    var rates := Size(bcn, EID_RATES);
    var ds := Size(bcn, EID_DS);
    dst := FIXED_IE_LENGTH + ssid + rates + ds;
    rem := dst;
  }

  /** The tail of update_BCNTIM: the remainder is saved, the element written, the remainder put back. */
  method SpliceTim(bcn: Template, dst: nat, rem: nat, bmp: seq<u8>)
    requires bcn.IEs.Length == MAX_IE_SZ && dst <= rem <= bcn.IELength <= MAX_IE_SZ
    requires 1 <= |bmp| <= 250 && bcn.IELength - (rem - dst) + |Bytes(TimElem(0, 1, bmp))| <= MAX_IE_SZ
    modifies bcn`IELength, bcn.IEs
    ensures bcn.IELength <= MAX_IE_SZ
    ensures var was := old(bcn.IEs[..bcn.IELength]);
            bcn.IEs[..bcn.IELength] == was[..dst] + Bytes(TimElem(0, 1, bmp)) + was[rem..]
  {
    ghost var tim, was := TimElem(0, 1, bmp), bcn.IEs[..bcn.IELength];
    Window(bmp);
    var backup := bcn.IEs[rem..bcn.IELength];
    var n := SetTimIe(0, 1, bmp, bcn.IEs, dst);
    ghost var mid := bcn.IEs[..];
    CopyIn(bcn.IEs, dst + n, backup);
    bcn.IELength := dst + n + |backup|;
    assert bcn.IEs[..bcn.IELength] == mid[..dst + n] + backup;
    assert mid[..dst + n] == was[..dst] + Bytes(tim);
  }

  lemma TimFits(bmp: seq<u8>)
    requires 1 <= |bmp| <= 250
    ensures |TimElem(0, 1, bmp).body| < 256
  {
    Window(bmp);
  }

  /** On a beacon that begins with its SSID, rates and DS elements and has no TIM, the TIM goes in behind the three. */
  lemma LeadMeans(es: seq<Elem>, tim: Elem)
    requires |es| >= 3 && es[0].id == 0 && es[1].id == 1 && es[2].id == 3 && forall i :: 0 <= i < |es| ==> es[i].id != 5
    ensures Aligned(es, 3) && Refresh(es, tim, 3) == [es[0], es[1], es[2], tim] + es[3..]
  {
    FirstWithIdUnique(es, 0, 0);
    FirstWithIdUnique(es, 1, 1);
    FirstWithIdUnique(es, 3, 2);
    FirstWithIdUnique(es, 5, |es|);
    assert Off(es, 3) == Off(es, 2) + 2 + |es[2].body|;
    assert Off(es, 2) == Off(es, 1) + 2 + |es[1].body| && Off(es, 1) == 2 + |es[0].body|;
    assert es[..3] == [es[0], es[1], es[2]];
  }
}
