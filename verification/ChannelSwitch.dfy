/**
 The channel-switch countdown (core/rtw_csa.c and the update_csa_ie family of
 core/rtw_ap.c): building the announcement into the beacon, and the updates
 that count it down and take it out again.
 */
module ChannelSwitch {
  import opened Options
  import opened Seqs
  import opened Elements
  import opened Beacon

  const EID_CSA: u8 := 37
  const EID_ECSA: u8 := 60
  const EID_SEC_OFFSET: u8 := 62
  const EID_WRAPPER: u8 := 196
  const EID_WIDE_BW: u8 := 194

  predicate IsSwitch(id: u8) {
    id == EID_CSA || id == EID_ECSA || id == EID_SEC_OFFSET || id == EID_WRAPPER
  }

  /** No element of the four channel-switch identifiers. */
  ghost predicate Plain(es: seq<Elem>) {
    forall i :: 0 <= i < |es| ==> !IsSwitch(es[i].id)
  }

  /** The parameters of one switch: `offset` 0 is "no extension", `bw` 0 is 20 MHz. */
  datatype Param = Param(mode: u8, opClass: u8, chan: u8, offset: u8, bw: u8, seg0: u8, ecsa: bool, vht: bool)

  datatype Phase = Start | Done

  datatype State = State(es: seq<Elem>, count: u8, phase: Phase)

  function CsaBody(p: Param, count: u8): seq<u8> { [p.mode, p.chan, count] }

  function EcsaBody(p: Param, count: u8): seq<u8> { [p.mode, p.opClass, p.chan, count] }

  function WrapperBody(p: Param): seq<u8> { [EID_WIDE_BW, 3, if p.bw == 1 then 0 else 1, p.seg0, 0] }

  predicate Has(es: seq<Elem>, id: u8) { FirstWithId(es, id) < |es| }

  /** rtw_core_build_ecsa_beacon on the element list. */
  function Build(es: seq<Elem>, p: Param, count: u8): seq<Elem> {
    var e1 := if Has(es, EID_CSA) then es else Add(es, EID_CSA, CsaBody(p, count));
    var e2 := if Has(es, EID_ECSA) || !p.ecsa then e1 else Add(e1, EID_ECSA, EcsaBody(p, count));
    var e3 := if Has(es, EID_SEC_OFFSET) || p.offset == 0 then e2 else Add(e2, EID_SEC_OFFSET, [p.offset]);
    if Has(es, EID_WRAPPER) || !p.vht || !(1 <= p.bw <= 4) then e3 else Add(e3, EID_WRAPPER, WrapperBody(p))
  }

  /** _update_csa_ie and _update_ecsa_ie: the announcement has `n` octets and its count is the last. */
  function Announce(s: State, id: u8, n: nat): State {
    var k := FirstWithId(s.es, id);
    if k == |s.es| || |s.es[k].body| != n || n == 0 then s
    else if s.count > 0 then s.(es := s.es[k := Elem(id, s.es[k].body[n - 1 := s.count])])
    else s.(es := Remove(s.es, id), phase := Done)
  }

  /** rtw_ecsa_update_beacon for a switch triggered by the core layer. */
  function Update(s: State, p: Param): State {
    var t :=
      if s.phase != Start then s
      else
        var a := Announce(s, EID_CSA, 3);
        var b := if p.ecsa then Announce(a, EID_ECSA, 4) else a;
        if b.count > 0 then b.(count := b.count - 1) else b;
    if t.count == 0 then t.(es := Remove(Remove(t.es, EID_SEC_OFFSET), EID_WRAPPER)) else t
  }

  function Run(s: State, p: Param, k: nat): State {
    if k == 0 then s else Update(Run(s, p, k - 1), p)
  }

  function Begin(es: seq<Elem>, p: Param, n: u8): State {
    State(Build(es, p, n), n, Start)
  }

  // ---- what a receiver reads

  datatype Csa = Csa(mode: u8, chan: u8, count: u8)
  datatype Ecsa = Ecsa(mode: u8, opClass: u8, chan: u8, count: u8)
  datatype Wide = Wide(width: u8, seg0: u8, seg1: u8)

  function BodyOf(es: seq<Elem>, id: u8): Option<seq<u8>> {
    var k := FirstWithId(es, id);
    if k < |es| then Some(es[k].body) else None
  }

  /** The Channel Switch Announcement element, section 9.4.2.18 of IEEE 802.11-2020: mode, new channel, count. */
  function ReadCsa(es: seq<Elem>): Option<Csa> {
    var b := BodyOf(es, 37);
    if b.Some? && |b.value| == 3 then Some(Csa(b.value[0], b.value[1], b.value[2])) else None
  }

  /** The Extended Channel Switch Announcement element, section 9.4.2.52: mode, operating class, channel, count. */
  function ReadEcsa(es: seq<Elem>): Option<Ecsa> {
    var b := BodyOf(es, 60);
    if b.Some? && |b.value| == 4 then Some(Ecsa(b.value[0], b.value[1], b.value[2], b.value[3])) else None
  }

  /** The Secondary Channel Offset element: one octet. */
  function ReadOffset(es: seq<Elem>): Option<u8> {
    var b := BodyOf(es, 62);
    if b.Some? && |b.value| == 1 then Some(b.value[0]) else None
  }

  /** The Channel Switch Wrapper element with one Wide Bandwidth Channel Switch subelement: width and segments. */
  function ReadWide(es: seq<Elem>): Option<Wide> {
    var b := BodyOf(es, 196);
    if b.Some? && |b.value| == 5 && b.value[0] == 194 && b.value[1] == 3 then Some(Wide(b.value[2], b.value[3], b.value[4])) else None
  }

  // ---- every step touches one identifier at a time

  function Own(es: seq<Elem>, id: u8): seq<Elem> { Part(es, id, true) }

  /** The beacon without its channel-switch elements. */
  function Strip(es: seq<Elem>): seq<Elem> {
    if es == [] then []
    else if IsSwitch(es[0].id) then Strip(es[1..])
    else [es[0]] + Strip(es[1..])
  }

  lemma {:induction false} StripOfOthers(es: seq<Elem>, id: u8)
    requires IsSwitch(id)
    ensures Strip(Part(es, id, false)) == Strip(es)
  {
    if es != [] {
      StripOfOthers(es[1..], id);
      if es[0].id != id { TailOfConcat([es[0]], Part(es[1..], id, false)); EmptyConcat(Part(es[1..], id, false)); }
    }
  }

  lemma {:induction false} OwnOfOthers(es: seq<Elem>, id: u8, j: u8)
    requires j != id
    ensures Own(Part(es, id, false), j) == Own(es, j)
  {
    if es != [] {
      OwnOfOthers(es[1..], id, j);
      if es[0].id != id { TailOfConcat([es[0]], Part(es[1..], id, false)); EmptyConcat(Part(es[1..], id, false)); }
    }
  }

  /** `b` differs from `a` only in elements of identifier `id`. */
  ghost predicate OnlyAt(a: seq<Elem>, b: seq<Elem>, id: u8) {
    Part(a, id, false) == Part(b, id, false)
  }

  lemma OnlyAtKeeps(a: seq<Elem>, b: seq<Elem>, id: u8)
    requires OnlyAt(a, b, id)
    ensures IsSwitch(id) ==> Strip(a) == Strip(b)
    ensures forall j: u8 :: j != id ==> Own(a, j) == Own(b, j)
  {
    if IsSwitch(id) {
      StripOfOthers(a, id);
      StripOfOthers(b, id);
    }
    forall j: u8 | j != id ensures Own(a, j) == Own(b, j) {
      OwnOfOthers(a, id, j);
      OwnOfOthers(b, id, j);
    }
  }

  lemma {:induction false} PlainStrip(es: seq<Elem>)
    requires forall id: u8 :: IsSwitch(id) ==> Own(es, id) == []
    ensures Strip(es) == es && Plain(es)
  {
    if es != [] {
      assert forall id: u8 :: IsSwitch(id) ==> Own(es, id) == [] && (es[0].id == id ==> Own(es, id) != []);
      PlainStrip(es[1..]);
      HeadTail(es);
    }
  }

  lemma {:induction false} PlainOwnsNone(es: seq<Elem>, id: u8)
    requires Plain(es) && IsSwitch(id)
    ensures Own(es, id) == []
  {
    PartOfOthers(es, id);
  }

  /** How the elements of one identifier look around the first of them. */
  lemma OwnAtFirst(es: seq<Elem>, id: u8, m: seq<Elem>)
    requires |m| <= 1 && forall i :: 0 <= i < |m| ==> m[i].id == id
    ensures var k := FirstWithId(es, id);
            if k == |es| then Own(es, id) == []
            else
              && Own(es, id) != [] && Own(es, id)[0] == es[k]
              && Own(es[..k] + m + es[k + 1..], id) == m + Own(es, id)[1..]
              && OnlyAt(es, es[..k] + m + es[k + 1..], id)
  {
    var k := FirstWithId(es, id);
    if k == |es| {
      PartOfOthers(es, id);
    } else {
      var a, e, b := es[..k], es[k], es[k + 1..];
      Whole(es, k);
      OwnAfter(a, [e], b, id);
      OwnAfter(a, m, b, id);
      TailOfConcat([e], Own(b, id));
      EmptyConcat(Own(b, id));
      PartAround(a, [e], b, id, false);
      PartAround(a, m, b, id, false);
    }
  }

  lemma RemoveOwn(es: seq<Elem>, id: u8)
    ensures OnlyAt(es, Remove(es, id), id)
    ensures Own(Remove(es, id), id) ==
            if Own(es, id) != [] && Own(es, id)[0].body != [] then Own(es, id)[1..] else Own(es, id)
  {
    OwnAtFirst(es, id, []);
    var k := FirstWithId(es, id);
    if k < |es| {
      EmptyConcat(es[..k]);
      EmptyConcat(Own(es, id)[1..]);
    }
  }

  lemma AnnounceOwn(s: State, id: u8, n: nat)
    requires |Own(s.es, id)| <= 1 && n > 0
    ensures var t, o := Announce(s, id, n), Own(s.es, id);
            && OnlyAt(s.es, t.es, id) && t.count == s.count
            && if o == [] || |o[0].body| != n then t == s
               else if s.count > 0 then t.phase == s.phase && Own(t.es, id) == [Elem(id, o[0].body[n - 1 := s.count])]
               else t.phase == Done && Own(t.es, id) == []
  {
    var k := FirstWithId(s.es, id);
    OwnAtFirst(s.es, id, []);
    if k < |s.es| && |s.es[k].body| == n {
      if s.count > 0 {
        var e := Elem(id, s.es[k].body[n - 1 := s.count]);
        OwnAtFirst(s.es, id, [e]);
        UpdateParts(s.es, k, e);
      } else {
        RemoveOwn(s.es, id);
      }
    }
  }

  lemma AddOwn(es: seq<Elem>, id: u8, data: seq<u8>)
    requires Body(data) && Own(es, id) == []
    ensures OnlyAt(es, Add(es, id, data), id)
    ensures Own(Add(es, id, data), id) == if Admitted(es, data) && Anchored(es, id) then [Elem(id, data)] else []
  {
    AddKeepsOthers(es, id, data);
    var a, b := AddShape(es, id, data);
    OwnAfter(a, Hit(es, id), b, id);
    OwnAfter(a, [Elem(id, data)], b, id);
    EmptyConcat([Elem(id, data)]);
  }

  // ---- the countdown

  /** The two announcements found an anchor when they were built. */
  predicate CsaBuilt(es: seq<Elem>, p: Param, n: u8) {
    Admitted(es, CsaBody(p, n)) && Anchored(es, EID_CSA)
  }

  predicate EcsaBuilt(es: seq<Elem>, p: Param, n: u8) {
    var e1 := Add(es, EID_CSA, CsaBody(p, n));
    p.ecsa && Admitted(e1, EcsaBody(p, n)) && Anchored(e1, EID_ECSA)
  }

  predicate OffsetBuilt(es: seq<Elem>, p: Param, n: u8) {
    var e1 := Add(es, EID_CSA, CsaBody(p, n));
    var e2 := if p.ecsa then Add(e1, EID_ECSA, EcsaBody(p, n)) else e1;
    p.offset != 0 && Admitted(e2, [p.offset]) && Anchored(e2, EID_SEC_OFFSET)
  }

  predicate WrapperBuilt(es: seq<Elem>, p: Param, n: u8) {
    var e1 := Add(es, EID_CSA, CsaBody(p, n));
    var e2 := if p.ecsa then Add(e1, EID_ECSA, EcsaBody(p, n)) else e1;
    var e3 := if p.offset != 0 then Add(e2, EID_SEC_OFFSET, [p.offset]) else e2;
    p.vht && 1 <= p.bw <= 4 && Admitted(e3, WrapperBody(p)) && Anchored(e3, EID_WRAPPER)
  }

  /** Which of the four elements went in. */
  datatype Built = Built(csa: bool, ecsa: bool, offset: bool, wrapper: bool)

  function BuiltOf(es: seq<Elem>, p: Param, n: u8): Built {
    Built(CsaBuilt(es, p, n), EcsaBuilt(es, p, n), OffsetBuilt(es, p, n), WrapperBuilt(es, p, n))
  }

  /** The count on the air after `k` updates of a switch started with `n`. */
  function OnAir(n: u8, k: nat): u8
    requires k <= n
  {
    if k == 0 then n else n - k + 1
  }

  /** The optional elements are still there after `k` updates. */
  predicate Early(n: u8, k: nat) { k == 0 || k < n }

  ghost predicate Removable(es: seq<Elem>, id: u8) {
    var o := Own(es, id);
    |o| <= 1 && (o != [] ==> o[0].body != [])
  }

  /** What holds after `k <= n` updates of a switch on beacon `es`, when the elements
      of `b` were built. */
  ghost predicate Counting(es: seq<Elem>, p: Param, n: u8, k: nat, b: Built, s: State) {
    && k <= n && s.count == n - k && s.phase == Start && (b.ecsa ==> p.ecsa)
    && Strip(s.es) == es
    && Own(s.es, EID_CSA) == (if b.csa then [Elem(EID_CSA, CsaBody(p, OnAir(n, k)))] else [])
    && Own(s.es, EID_ECSA) == (if b.ecsa then [Elem(EID_ECSA, EcsaBody(p, OnAir(n, k)))] else [])
    && Own(s.es, EID_SEC_OFFSET) == (if b.offset && Early(n, k) then [Elem(EID_SEC_OFFSET, [p.offset])] else [])
    && Own(s.es, EID_WRAPPER) == (if b.wrapper && Early(n, k) then [Elem(EID_WRAPPER, WrapperBody(p))] else [])
  }

  /** One element of the announcement going in, or not. */
  lemma PutSwitch(es: seq<Elem>, id: u8, data: seq<u8>, wanted: bool) returns (r: seq<Elem>, took: bool)
    requires IsSwitch(id) && Body(data) && Own(es, id) == []
    ensures r == (if wanted then Add(es, id, data) else es)
    ensures took == (wanted && Admitted(es, data) && Anchored(es, id))
    ensures Strip(r) == Strip(es)
    ensures Own(r, id) == if took then [Elem(id, data)] else []
    ensures forall j: u8 :: j != id ==> Own(r, j) == Own(es, j)
  {
    r := if wanted then Add(es, id, data) else es;
    took := wanted && Admitted(es, data) && Anchored(es, id);
    AddOwn(es, id, data);
    OnlyAtKeeps(es, r, id);
  }

  lemma PlainHasNone(es: seq<Elem>)
    requires Plain(es)
    ensures forall id: u8 :: IsSwitch(id) ==> Own(es, id) == [] && !Has(es, id) && FirstWithId(es, id) == |es|
    ensures Strip(es) == es
  {
    forall id: u8 | IsSwitch(id) ensures Own(es, id) == [] && FirstWithId(es, id) == |es| {
      PlainOwnsNone(es, id);
      FirstWithIdUnique(es, id, |es|);
    }
    PlainStrip(es);
  }

  lemma FourPuts(es: seq<Elem>, p: Param, n: u8) returns (e1: seq<Elem>, e2: seq<Elem>, e3: seq<Elem>, e4: seq<Elem>, b: Built)
    requires Plain(es)
    ensures e1 == Add(es, EID_CSA, CsaBody(p, n))
    ensures e2 == if p.ecsa then Add(e1, EID_ECSA, EcsaBody(p, n)) else e1
    ensures e3 == if p.offset != 0 then Add(e2, EID_SEC_OFFSET, [p.offset]) else e2
    ensures e4 == if p.vht && 1 <= p.bw <= 4 then Add(e3, EID_WRAPPER, WrapperBody(p)) else e3
    ensures b == Built(CsaBuilt(es, p, n), p.ecsa && Admitted(e1, EcsaBody(p, n)) && Anchored(e1, EID_ECSA),
                       p.offset != 0 && Admitted(e2, [p.offset]) && Anchored(e2, EID_SEC_OFFSET),
                       p.vht && 1 <= p.bw <= 4 && Admitted(e3, WrapperBody(p)) && Anchored(e3, EID_WRAPPER))
    ensures Counting(es, p, n, 0, b, State(e4, n, Start))
  {
    var csa, ecsa, offset, wrapper;
    e1, e2, csa, ecsa := FirstPuts(es, p, n);
    e3, e4, offset, wrapper := OptionalPuts(e2, p);
    b := Built(csa, ecsa, offset, wrapper);
  }

  /** The two announcements go in. */
  lemma FirstPuts(es: seq<Elem>, p: Param, n: u8) returns (e1: seq<Elem>, e2: seq<Elem>, csa: bool, ecsa: bool)
    requires Plain(es)
    ensures e1 == Add(es, EID_CSA, CsaBody(p, n))
    ensures e2 == if p.ecsa then Add(e1, EID_ECSA, EcsaBody(p, n)) else e1
    ensures csa == CsaBuilt(es, p, n) && ecsa == (p.ecsa && Admitted(e1, EcsaBody(p, n)) && Anchored(e1, EID_ECSA))
    ensures Strip(e2) == es && Own(e2, EID_SEC_OFFSET) == [] && Own(e2, EID_WRAPPER) == []
    ensures Own(e2, EID_CSA) == if csa then [Elem(EID_CSA, CsaBody(p, n))] else []
    ensures Own(e2, EID_ECSA) == if ecsa then [Elem(EID_ECSA, EcsaBody(p, n))] else []
  {
    PlainHasNone(es);
    e1, csa := PutSwitch(es, EID_CSA, CsaBody(p, n), true);
    e2, ecsa := PutSwitch(e1, EID_ECSA, EcsaBody(p, n), p.ecsa);
  }

  /** The secondary offset and the wrapper leave the announcements alone. */
  lemma OptionalPuts(e2: seq<Elem>, p: Param) returns (e3: seq<Elem>, e4: seq<Elem>, offset: bool, wrapper: bool)
    requires Own(e2, EID_SEC_OFFSET) == [] && Own(e2, EID_WRAPPER) == []
    ensures e3 == if p.offset != 0 then Add(e2, EID_SEC_OFFSET, [p.offset]) else e2
    ensures e4 == if p.vht && 1 <= p.bw <= 4 then Add(e3, EID_WRAPPER, WrapperBody(p)) else e3
    ensures offset == (p.offset != 0 && Admitted(e2, [p.offset]) && Anchored(e2, EID_SEC_OFFSET))
    ensures wrapper == (p.vht && 1 <= p.bw <= 4 && Admitted(e3, WrapperBody(p)) && Anchored(e3, EID_WRAPPER))
    ensures Strip(e4) == Strip(e2) && Own(e4, EID_CSA) == Own(e2, EID_CSA) && Own(e4, EID_ECSA) == Own(e2, EID_ECSA)
    ensures Own(e4, EID_SEC_OFFSET) == if offset then [Elem(EID_SEC_OFFSET, [p.offset])] else []
    ensures Own(e4, EID_WRAPPER) == if wrapper then [Elem(EID_WRAPPER, WrapperBody(p))] else []
  {
    e3, offset := PutSwitch(e2, EID_SEC_OFFSET, [p.offset], p.offset != 0);
    e4, wrapper := PutSwitch(e3, EID_WRAPPER, WrapperBody(p), p.vht && 1 <= p.bw <= 4);
  }

  lemma BuildCounts(es: seq<Elem>, p: Param, n: u8)
    requires Plain(es)
    ensures Counting(es, p, n, 0, BuiltOf(es, p, n), Begin(es, p, n))
  {
    PlainHasNone(es);
    var e1, e2, e3, e4, b := FourPuts(es, p, n);
    BuildSteps(es, p, n, e1, e2, e3);
  }

  lemma BuildSteps(es: seq<Elem>, p: Param, n: u8, e1: seq<Elem>, e2: seq<Elem>, e3: seq<Elem>)
    requires forall id: u8 :: IsSwitch(id) ==> !Has(es, id)
    requires e1 == Add(es, EID_CSA, CsaBody(p, n))
    requires e2 == if p.ecsa then Add(e1, EID_ECSA, EcsaBody(p, n)) else e1
    requires e3 == if p.offset != 0 then Add(e2, EID_SEC_OFFSET, [p.offset]) else e2
    ensures Build(es, p, n) == if p.vht && 1 <= p.bw <= 4 then Add(e3, EID_WRAPPER, WrapperBody(p)) else e3
    ensures EcsaBuilt(es, p, n) == (p.ecsa && Admitted(e1, EcsaBody(p, n)) && Anchored(e1, EID_ECSA))
    ensures OffsetBuilt(es, p, n) == (p.offset != 0 && Admitted(e2, [p.offset]) && Anchored(e2, EID_SEC_OFFSET))
    ensures WrapperBuilt(es, p, n) == (p.vht && 1 <= p.bw <= 4 && Admitted(e3, WrapperBody(p)) && Anchored(e3, EID_WRAPPER))
  {
  }

  /** The end of an update that reached zero: both optional elements go, nothing else changes. */
  lemma ClearOptional(es: seq<Elem>)
    requires Removable(es, EID_SEC_OFFSET) && Removable(es, EID_WRAPPER)
    ensures var r := Remove(Remove(es, EID_SEC_OFFSET), EID_WRAPPER);
            && Strip(r) == Strip(es)
            && Own(r, EID_SEC_OFFSET) == [] && Own(r, EID_WRAPPER) == []
            && Own(r, EID_CSA) == Own(es, EID_CSA) && Own(r, EID_ECSA) == Own(es, EID_ECSA)
  {
    var m := Remove(es, EID_SEC_OFFSET);
    RemoveOwn(es, EID_SEC_OFFSET);
    OnlyAtKeeps(es, m, EID_SEC_OFFSET);
    RemoveOwn(m, EID_WRAPPER);
    OnlyAtKeeps(m, Remove(m, EID_WRAPPER), EID_WRAPPER);
  }

  /** Both announcements in one update. */
  lemma AnnounceBoth(es: seq<Elem>, p: Param, n: u8, k: nat, b: Built, s: State) returns (t: State)
    requires Counting(es, p, n, k, b, s)
    ensures t == var a := Announce(s, EID_CSA, 3); if p.ecsa then Announce(a, EID_ECSA, 4) else a
    ensures t.count == s.count && Strip(t.es) == es
    ensures Own(t.es, EID_SEC_OFFSET) == Own(s.es, EID_SEC_OFFSET) && Own(t.es, EID_WRAPPER) == Own(s.es, EID_WRAPPER)
    ensures k < n ==>
              && t.phase == Start
              && Own(t.es, EID_CSA) == (if b.csa then [Elem(EID_CSA, CsaBody(p, n - k))] else [])
              && Own(t.es, EID_ECSA) == (if b.ecsa then [Elem(EID_ECSA, EcsaBody(p, n - k))] else [])
    ensures k == n ==>
              && Own(t.es, EID_CSA) == [] && Own(t.es, EID_ECSA) == []
              && t.phase == if b.csa || b.ecsa then Done else Start
  {
    var c := OnAir(n, k);
    assert CsaBody(p, c)[2 := s.count] == CsaBody(p, s.count);
    assert EcsaBody(p, c)[3 := s.count] == EcsaBody(p, s.count);
    var a := Announce(s, EID_CSA, 3);
    AnnounceOwn(s, EID_CSA, 3);
    OnlyAtKeeps(s.es, a.es, EID_CSA);
    t := if p.ecsa then Announce(a, EID_ECSA, 4) else a;
    AnnounceOwn(a, EID_ECSA, 4);
    OnlyAtKeeps(a.es, t.es, EID_ECSA);
  }

  function Final(es: seq<Elem>, b: Built): State {
    State(es, 0, if b.csa || b.ecsa then Done else Start)
  }

  /** Where the switch stands after any number of updates. */
  ghost predicate At(es: seq<Elem>, p: Param, n: u8, k: nat, b: Built, s: State) {
    if k <= n then Counting(es, p, n, k, b, s) else s == Final(es, b)
  }

  lemma CountOn(es: seq<Elem>, p: Param, n: u8, k: nat, b: Built, s: State)
    requires Counting(es, p, n, k, b, s) && k < n
    ensures Counting(es, p, n, k + 1, b, Update(s, p))
  {
    var t := AnnounceBoth(es, p, n, k, b, s);
    if k + 1 == n {
      ToZero(es, p, n, b, s, t);
    } else {
      assert Update(s, p) == t.(count := s.count - 1);
    }
  }

  lemma ToZero(es: seq<Elem>, p: Param, n: u8, b: Built, s: State, t: State)
    requires n > 0 && Counting(es, p, n, n - 1, b, s)
    requires t == (var a := Announce(s, EID_CSA, 3); if p.ecsa then Announce(a, EID_ECSA, 4) else a)
    requires t.count == 1 && t.phase == Start && Strip(t.es) == es
    requires Own(t.es, EID_SEC_OFFSET) == Own(s.es, EID_SEC_OFFSET) && Own(t.es, EID_WRAPPER) == Own(s.es, EID_WRAPPER)
    requires Own(t.es, EID_CSA) == if b.csa then [Elem(EID_CSA, CsaBody(p, 1))] else []
    requires Own(t.es, EID_ECSA) == if b.ecsa then [Elem(EID_ECSA, EcsaBody(p, 1))] else []
    ensures Counting(es, p, n, n, b, Update(s, p))
  {
    assert Removable(t.es, EID_SEC_OFFSET) && Removable(t.es, EID_WRAPPER);
    ClearOptional(t.es);
    assert Update(s, p) == t.(count := 0, es := Remove(Remove(t.es, EID_SEC_OFFSET), EID_WRAPPER));
  }

  lemma CountLast(es: seq<Elem>, p: Param, n: u8, b: Built, s: State)
    requires Plain(es) && Counting(es, p, n, n, b, s)
    ensures Update(s, p) == Final(es, b)
  {
    var t := AnnounceBoth(es, p, n, n, b, s);
    ClearOptional(t.es);
    PlainStrip(Update(s, p).es);
  }

  lemma CountStep(es: seq<Elem>, p: Param, n: u8, k: nat, b: Built, s: State)
    requires Plain(es) && At(es, p, n, k, b, s)
    ensures At(es, p, n, k + 1, b, Update(s, p))
  {
    if k < n {
      CountOn(es, p, n, k, b, s);
    } else if k == n {
      CountLast(es, p, n, b, s);
    } else {
      PlainHasNone(es);
    }
  }

  /** Any property of the number of updates that each update carries on holds along the run. */
  lemma {:induction false} Along(holds: (nat, State) -> bool, s: State, p: Param, k: nat)
    requires holds(0, s) && forall j: nat, t :: holds(j, t) ==> holds(j + 1, Update(t, p))
    ensures holds(k, Run(s, p, k))
  {
    if k > 0 { Along(holds, s, p, k - 1); }
  }

  /** A switch goes through every point of the countdown, and from update n+1 on the beacon is the original one. */
  lemma Stages(es: seq<Elem>, p: Param, n: u8, b: Built, s: State, k: nat)
    requires Plain(es) && Counting(es, p, n, 0, b, s)
    ensures At(es, p, n, k, b, Run(s, p, k))
  {
    var holds := (j: nat, t: State) => At(es, p, n, j, b, t);
    forall j: nat, t | holds(j, t) ensures holds(j + 1, Update(t, p)) { CountStep(es, p, n, j, b, t); }
    Along(holds, s, p, k);
  }

  lemma BodyOfOwn(es: seq<Elem>, id: u8)
    ensures BodyOf(es, id) == if Own(es, id) == [] then None else Some(Own(es, id)[0].body)
  {
    OwnAtFirst(es, id, []);
  }

  /** What a receiver reads while the switch counts: mode and channel as asked for and the count n - k + 1 with the
      k-th update, on both announcements alike; the offset and the width of the new channel until the last. */
  ghost predicate Reads(es: seq<Elem>, p: Param, n: u8, k: nat, b: Built) {
    && k <= n
    && (var c := if k == 0 then n else n - k + 1;
        && ReadCsa(es) == (if b.csa then Some(Csa(p.mode, p.chan, c)) else None)
        && ReadEcsa(es) == (if b.ecsa then Some(Ecsa(p.mode, p.opClass, p.chan, c)) else None))
    && ReadOffset(es) == (if b.offset && (k == 0 || k < n) then Some(p.offset) else None)
    && ReadWide(es) == (if b.wrapper && (k == 0 || k < n) then Some(Wide(if p.bw == 1 then 0 else 1, p.seg0, 0)) else None)
  }

  lemma CountingReads(es: seq<Elem>, p: Param, n: u8, k: nat, b: Built, s: State)
    requires Counting(es, p, n, k, b, s)
    ensures Reads(s.es, p, n, k, b)
  {
    ReadsOne(s.es, 37, b.csa, CsaBody(p, OnAir(n, k)));
    ReadsOne(s.es, 60, b.ecsa, EcsaBody(p, OnAir(n, k)));
    ReadsOne(s.es, 62, b.offset && Early(n, k), [p.offset]);
    ReadsOne(s.es, 196, b.wrapper && Early(n, k), WrapperBody(p));
  }

  lemma ReadsOne(es: seq<Elem>, id: u8, on: bool, body: seq<u8>)
    requires Own(es, id) == if on then [Elem(id, body)] else []
    ensures BodyOf(es, id) == if on then Some(body) else None
  {
    BodyOfOwn(es, id);
  }

  lemma StagesRead(es: seq<Elem>, p: Param, n: u8, b: Built, s: State, k: nat)
    requires Plain(es) && Counting(es, p, n, 0, b, s)
    ensures var t := Run(s, p, k); if k <= n then Reads(t.es, p, n, k, b) && Strip(t.es) == es else t.es == es
  {
    Stages(es, p, n, b, s, k);
    if k <= n { CountingReads(es, p, n, k, b, Run(s, p, k)); }
  }

  /** A switch started with count n announces n, then n, n-1, ..., 1 with the updates, and then takes itself out: from
      update n+1 on the beacon is the original one. */
  lemma Countdown(es: seq<Elem>, p: Param, n: u8, k: nat)
    requires Plain(es)
    ensures var t := Run(Begin(es, p, n), p, k);
            if k <= n then Reads(t.es, p, n, k, BuiltOf(es, p, n)) && Strip(t.es) == es else t.es == es
  {
    BuildCounts(es, p, n);
    StagesRead(es, p, n, BuiltOf(es, p, n), Begin(es, p, n), k);
  }

  // ---- a beacon that already has some of the elements

  lemma AddAround(es: seq<Elem>, id: u8, data: seq<u8>, on: bool)
    requires IsSwitch(id) && Body(data)
    ensures var r := if on then Add(es, id, data) else es;
            Strip(r) == Strip(es) && forall j: u8 :: j != id ==> Own(r, j) == Own(es, j)
  {
    AddKeepsOthers(es, id, data);
    OnlyAtKeeps(es, Add(es, id, data), id);
  }

  /** Building leaves a switch element that is already there as it is, and every other element too. */
  lemma BuildKeepsPresent(es: seq<Elem>, p: Param, n: u8, id: u8)
    requires IsSwitch(id)
    ensures Strip(Build(es, p, n)) == Strip(es) && (Has(es, id) ==> Own(Build(es, p, n), id) == Own(es, id))
  {
    var e1 := if Has(es, EID_CSA) then es else Add(es, EID_CSA, CsaBody(p, n));
    var e2 := if Has(es, EID_ECSA) || !p.ecsa then e1 else Add(e1, EID_ECSA, EcsaBody(p, n));
    var e3 := if Has(es, EID_SEC_OFFSET) || p.offset == 0 then e2 else Add(e2, EID_SEC_OFFSET, [p.offset]);
    AddAround(es, EID_CSA, CsaBody(p, n), !Has(es, EID_CSA));
    AddAround(e1, EID_ECSA, EcsaBody(p, n), !(Has(es, EID_ECSA) || !p.ecsa));
    AddAround(e2, EID_SEC_OFFSET, [p.offset], !(Has(es, EID_SEC_OFFSET) || p.offset == 0));
    AddAround(e3, EID_WRAPPER, WrapperBody(p), !(Has(es, EID_WRAPPER) || !p.vht || !(1 <= p.bw <= 4)));
  }

  // ---- the bytes

  /** A beacon with these elements fits in the template's buffer. */
  predicate Fits(es: seq<Elem>) { FIXED_IE_LENGTH + |Encode(es)| <= MAX_IE_SZ }

  lemma AddMembers(es: seq<Elem>, id: u8, data: seq<u8>)
    requires Body(data)
    ensures forall e :: e in Add(es, id, data) ==> e in es || e.id == id
  {
    var a, b := AddShape(es, id, data);
  }

  lemma NotThere(es: seq<Elem>, id: u8)
    ensures Has(es, id) <==> exists e :: e in es && e.id == id
    ensures Present(es, id) ==> Has(es, id)
  {
    var k := FirstWithId(es, id);
    if k < |es| { assert es[k] in es; }
    if e :| e in es && e.id == id { var i :| 0 <= i < |es| && es[i] == e; }
    if Present(es, id) { assert es[Slot(es, id)] in es; }
  }

  /** Adding an identifier that is not there makes the beacon no shorter, and brings in no other. */
  lemma AddGrows(es: seq<Elem>, id: u8, data: seq<u8>)
    requires Body(data) && !Has(es, id)
    ensures |Encode(es)| <= |Encode(Add(es, id, data))|
    ensures forall j: u8 :: j != id && !Has(es, j) ==> !Has(Add(es, id, data), j)
  {
    NotThere(es, id);
    AddLength(es, id, data);
    HitLength(es, id);
    AddMembers(es, id, data);
    forall j: u8 | j != id && !Has(es, j) ensures !Has(Add(es, id, data), j) {
      NotThere(es, j);
      NotThere(Add(es, id, data), j);
    }
  }

  /** If the finished announcement fits, so does every beacon on the way to it. */
  lemma BuildFits(es: seq<Elem>, p: Param, n: u8)
    requires Fits(Build(es, p, n))
    ensures var e1 := if Has(es, EID_CSA) then es else Add(es, EID_CSA, CsaBody(p, n));
            var e2 := if Has(es, EID_ECSA) || !p.ecsa then e1 else Add(e1, EID_ECSA, EcsaBody(p, n));
            var e3 := if Has(es, EID_SEC_OFFSET) || p.offset == 0 then e2 else Add(e2, EID_SEC_OFFSET, [p.offset]);
            Fits(e1) && Fits(e2) && Fits(e3)
  {
    var e1 := if Has(es, EID_CSA) then es else Add(es, EID_CSA, CsaBody(p, n));
    var e2 := if Has(es, EID_ECSA) || !p.ecsa then e1 else Add(e1, EID_ECSA, EcsaBody(p, n));
    var e3 := if Has(es, EID_SEC_OFFSET) || p.offset == 0 then e2 else Add(e2, EID_SEC_OFFSET, [p.offset]);
    if !Has(es, EID_CSA) { AddGrows(es, EID_CSA, CsaBody(p, n)); }
    if !Has(es, EID_ECSA) { AddGrows(e1, EID_ECSA, EcsaBody(p, n)); }
    if !Has(es, EID_SEC_OFFSET) { AddGrows(e2, EID_SEC_OFFSET, [p.offset]); }
    if !Has(es, EID_WRAPPER) { AddGrows(e3, EID_WRAPPER, WrapperBody(p)); }
  }

  /** The interface's switch state and the beacon template it edits. */
  class Switch {
    const bcn: Template
    const param: Param
    var count: u8
    var phase: Phase

    ghost predicate Valid()
      reads this, bcn, bcn.IEs
    {
      bcn.Valid()
    }

    constructor (b: Template, p: Param)
      requires b.Valid()
      ensures Valid() && bcn == b && param == p
    {
      bcn, param, count, phase := b, p, 0, Done;
    }

    ghost function View(): State
      reads this, bcn
    {
      State(bcn.es, count, phase)
    }

    method HasIe(id: u8) returns (b: bool)
      requires Valid()
      ensures b == Has(bcn.es, id)
    {
      assert bcn.IEs[FIXED_IE_LENGTH..bcn.IELength] == Encode(bcn.es);
      var p, len := GetIe(bcn.IEs, FIXED_IE_LENGTH, bcn.IELength - FIXED_IE_LENGTH, id, bcn.es);
      b := p >= 0;
    }

    /** rtw_hal_trigger_csa_start followed by rtw_core_build_ecsa_beacon, where the result fits in the buffer. */
    method Trigger(n: u8)
      requires Valid() && Fits(Build(bcn.es, param, n))
      modifies this, bcn, bcn.IEs
      ensures Valid() && bcn.fields == old(bcn.fields)
      ensures View() == Begin(old(bcn.es), param, n)
    {
      BuildFits(bcn.es, param, n);
      phase, count := Start, n;
      var cs := HasIe(EID_CSA);
      var ecs := HasIe(EID_ECSA);
      var sco := HasIe(EID_SEC_OFFSET);
      var csw := HasIe(EID_WRAPPER);
      if !cs {
        bcn.AddBcnIe(EID_CSA, CsaBody(param, n));
      }
      if !ecs && param.ecsa {
        bcn.AddBcnIe(EID_ECSA, EcsaBody(param, n));
      }
      if !sco && param.offset != 0 {
        bcn.AddBcnIe(EID_SEC_OFFSET, [param.offset]);
      }
      if !csw && param.vht && 1 <= param.bw <= 4 {
        bcn.AddBcnIe(EID_WRAPPER, WrapperBody(param));
      }
    }

    /** _update_csa_ie (id 37, 3 octets) and _update_ecsa_ie (id 60, 4 octets). */
    method UpdateAnnouncement(id: u8, n: nat)
      requires Valid() && n > 0
      modifies this`phase, bcn, bcn.IEs
      ensures Valid() && bcn.fields == old(bcn.fields)
      ensures View() == Announce(old(View()), id, n)
    {
      assert bcn.IEs[FIXED_IE_LENGTH..bcn.IELength] == Encode(bcn.es);
      var p, len := GetIe(bcn.IEs, FIXED_IE_LENGTH, bcn.IELength - FIXED_IE_LENGTH, id, bcn.es);
      if p < 0 || len != n {
        return;
      }
      if count > 0 {
        bcn.Poke(p, n - 1, count, FirstWithId(bcn.es, id));
      } else {
        bcn.RemoveBcnIe(id);
        phase := Done;
      }
    }

    /** rtw_ecsa_update_beacon */
    method UpdateBeacon()
      requires Valid()
      modifies this, bcn, bcn.IEs
      ensures Valid() && bcn.fields == old(bcn.fields)
      ensures View() == Update(old(View()), param)
    {
      if phase == Start {
        UpdateAnnouncement(EID_CSA, 3);
        if param.ecsa {
          UpdateAnnouncement(EID_ECSA, 4);
        }
        if count > 0 {
          count := count - 1;
        }
      }
      if count == 0 {
        bcn.RemoveBcnIe(EID_SEC_OFFSET);
        bcn.RemoveBcnIe(EID_WRAPPER);
      }
    }

    /** The whole switch: n + 1 updates; `air` are the octets on the air before each, and a receiver reads from them
        what the switch announces. Then the octets of the beacon are the original ones. */
    method WholeSwitch(n: u8) returns (ghost air: seq<seq<u8>>)
      requires Valid() && Fits(Build(bcn.es, param, n)) && Plain(bcn.es)
      modifies this, bcn, bcn.IEs
      ensures Valid() && bcn.IEs[..bcn.IELength] == old(bcn.IEs[..bcn.IELength])
      ensures |air| == n + 1 && forall k :: 0 <= k <= n ==> Reads(Parse(air[k]), param, n, k, BuiltOf(old(bcn.es), param, n))
      ensures CsaBuilt(old(bcn.es), param, n) ==> phase == Done
    {
      ghost var es := bcn.es;
      Trigger(n);
      ghost var s0 := View();
      air := Updates(n + 1);
      AllRead(es, param, n, s0, air);
    }

    /** One update, and the octets it finds. */
    method Tick() returns (ghost octets: seq<u8>)
      requires Valid()
      modifies this, bcn, bcn.IEs
      ensures Valid() && bcn.fields == old(bcn.fields) && View() == Update(old(View()), param)
      ensures octets == old(bcn.IEs[FIXED_IE_LENGTH..bcn.IELength]) && Parse(octets) == old(bcn.es)
    {
      octets := bcn.IEs[FIXED_IE_LENGTH..bcn.IELength];
      assert octets == Encode(bcn.es);
      ParseEncode(bcn.es);
      UpdateBeacon();
    }

    method Updates(m: nat) returns (ghost air: seq<seq<u8>>)
      requires Valid()
      modifies this, bcn, bcn.IEs
      ensures Valid() && bcn.fields == old(bcn.fields) && View() == Run(old(View()), param, m)
      ensures |air| == m && Recorded(air, old(View()), param)
    {
      ghost var s0 := View();
      air := [];
      for k := 0 to m
        invariant Valid() && bcn.fields == old(bcn.fields) && View() == Run(s0, param, k)
        invariant |air| == k && Recorded(air, s0, param)
      {
        ghost var octets := Tick();
        RecordedSnoc(air, octets, s0, param);
        air := air + [octets];
      }
    }
  }

  /** The k-th octets carry the beacon after k updates. */
  ghost predicate Recorded(air: seq<seq<u8>>, s: State, p: Param) {
    air == [] || (Recorded(air[..|air| - 1], s, p) && Parse(air[|air| - 1]) == Run(s, p, |air| - 1).es)
  }

  lemma RecordedSnoc(air: seq<seq<u8>>, octets: seq<u8>, s: State, p: Param)
    requires Recorded(air, s, p) && Parse(octets) == Run(s, p, |air|).es
    ensures Recorded(air + [octets], s, p)
  {
    assert (air + [octets])[..|air|] == air;
  }

  lemma {:induction false} RecordedAt(air: seq<seq<u8>>, s: State, p: Param, k: nat)
    requires Recorded(air, s, p) && k < |air|
    ensures Parse(air[k]) == Run(s, p, k).es
  {
    if k < |air| - 1 { RecordedAt(air[..|air| - 1], s, p, k); }
  }

  lemma AllRead(es: seq<Elem>, p: Param, n: u8, s: State, air: seq<seq<u8>>)
    requires Plain(es) && s == Begin(es, p, n)
    requires |air| == n + 1 && Recorded(air, s, p)
    ensures forall k :: 0 <= k <= n ==> Reads(Parse(air[k]), p, n, k, BuiltOf(es, p, n))
    ensures Run(s, p, n + 1).es == es && (CsaBuilt(es, p, n) ==> Run(s, p, n + 1).phase == Done)
  {
    forall k | 0 <= k <= n ensures Reads(Parse(air[k]), p, n, k, BuiltOf(es, p, n)) {
      RecordedAt(air, s, p, k);
      Countdown(es, p, n, k);
    }
    BuildCounts(es, p, n);
    Stages(es, p, n, BuiltOf(es, p, n), s, n + 1);
  }
}
