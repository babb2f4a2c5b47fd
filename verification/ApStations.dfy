/**
 Capability bookkeeping of an access point's stations (core/rtw_ap.c): seven
 counters kept by hand as stations join, rejoin, leave and report, and the
 beacon fields derived from them.
 */
module ApStations {

  /** What a station may be marked with; each mark has its counter. */
  datatype Mark = NoShortPreamble | NonErp | NoShortSlot | NoHtGf | NoHt | Ht20 | Intolerant40

  /** What a station announces when it joins. */
  datatype Caps = Caps(shortPreamble: bool, nonErp: bool, shortSlot: bool, ht: bool, gf: bool, width40: bool, intolerant: bool)

  type Stas = map<nat, set<Mark>>

  function Holders(stas: Stas, w: Mark): set<nat> { set id | id in stas && w in stas[id] }

  /** Every counter is the number of stations that carry its mark. */
  ghost predicate Counted(stas: Stas, num: map<Mark, int>) {
    forall w :: w in num && num[w] == |Holders(stas, w)|
  }

  lemma HoldersUpdate(stas: Stas, id: nat, f: set<Mark>, w: Mark)
    requires id in stas
    ensures |Holders(stas[id := f], w)|
            == |Holders(stas, w)| + (if w in f then 1 else 0) - (if w in stas[id] then 1 else 0)
  {
    var a, b := Holders(stas, w), Holders(stas[id := f], w);
    assert b - {id} == a - {id};
    assert w in f ==> b == (b - {id}) + {id};
    assert w !in f ==> b == b - {id};
    assert w in stas[id] ==> a == (a - {id}) + {id};
    assert w !in stas[id] ==> a == a - {id};
  }

  lemma OnlyHt(f: set<Mark>)
    requires NoShortPreamble !in f && NonErp !in f && NoShortSlot !in f
    ensures f <= {NoHtGf, NoHt, Ht20, Intolerant40}
  {
    forall w | w in f ensures w in {NoHtGf, NoHt, Ht20, Intolerant40} {
      assert w.NoHtGf? || w.NoHt? || w.Ht20? || w.Intolerant40?;
    }
  }

  lemma Twice(m: Stas, id: nat, f: set<Mark>, g: set<Mark>)
    ensures m[id := f][id := g] == m[id := g]
  {
  }

  lemma NoneOrSome(stas: Stas, w: Mark)
    ensures |Holders(stas, w)| > 0 <==> exists id :: id in stas && w in stas[id]
  {
    if |Holders(stas, w)| > 0 {
      var id :| id in Holders(stas, w);
    }
    if id :| id in stas && w in stas[id] {
      assert id in Holders(stas, w);
    }
  }

  // ---- the marks of one station

  function With(f: set<Mark>, w: Mark, on: bool): set<Mark> { if on then f + {w} else f - {w} }

  /** Marks that a join only ever sets. */
  function Sticky(f: set<Mark>, w: Mark, on: bool): set<Mark> { if on then f + {w} else f }

  function JoinLegacy(f: set<Mark>, c: Caps): set<Mark> {
    With(With(With(f, NoShortPreamble, !c.shortPreamble), NonErp, c.nonErp), NoShortSlot, !c.shortSlot)
  }

  function JoinHtMarks(f: set<Mark>, c: Caps): set<Mark> {
    if !c.ht then f + {NoHt}
    else Sticky(Sticky(Sticky(f - {NoHt}, NoHtGf, !c.gf), Ht20, !c.width40), Intolerant40, c.intolerant)
  }

  function JoinMarks(f: set<Mark>, c: Caps, ht: bool): set<Mark> {
    if ht then JoinHtMarks(JoinLegacy(f, c), c) else JoinLegacy(f, c)
  }

  /** After a join: the legacy marks follow what the station announces now; without HT support in the access
      point the HT marks stay; with it, only the no-HT mark is ever taken back. */
  lemma JoinMeans(f: set<Mark>, c: Caps, ht: bool)
    ensures var g := JoinMarks(f, c, ht);
            && (NoShortPreamble in g <==> !c.shortPreamble) && (NonErp in g <==> c.nonErp)
            && (NoShortSlot in g <==> !c.shortSlot)
            && (NoHt in g <==> if ht then !c.ht else NoHt in f)
            && (NoHtGf in g <==> NoHtGf in f || (ht && c.ht && !c.gf))
            && (Ht20 in g <==> Ht20 in f || (ht && c.ht && !c.width40))
            && (Intolerant40 in g <==> Intolerant40 in f || (ht && c.ht && c.intolerant))
  {
  }

  datatype Event = Join(id: nat, caps: Caps) | Leave(id: nat) | Coex(id: nat, intolerant: bool) | Overlap(legacy: bool)

  function After(stas: Stas, e: Event, ht: bool): Stas {
    match e
    case Join(id, c) => stas[id := JoinMarks(if id in stas then stas[id] else {}, c, ht)]
    case Leave(id) => if id in stas then stas[id := {}] else stas
    case Coex(id, intolerant) => if id in stas && intolerant then stas[id := stas[id] + {Intolerant40}] else stas
    case Overlap(_) => stas
  }

  function AfterAll(stas: Stas, es: seq<Event>, ht: bool): Stas {
    if es == [] then stas else After(AfterAll(stas, es[..|es| - 1], ht), es[|es| - 1], ht)
  }

  /** What a station's marks are after a run depends on nothing the other stations did. */
  function Own(es: seq<Event>, id: nat): seq<Event> {
    if es == [] then []
    else
      var e := es[|es| - 1];
      if (e.Join? && e.id == id) || (e.Leave? && e.id == id) || (e.Coex? && e.id == id)
      then Own(es[..|es| - 1], id) + [e] else Own(es[..|es| - 1], id)
  }

  lemma {:induction false} Independent(stas: Stas, es: seq<Event>, ht: bool, id: nat)
    ensures var a, b := AfterAll(stas, es, ht), AfterAll(stas, Own(es, id), ht);
            (id in a <==> id in b) && (id in a ==> a[id] == b[id])
  {
    if es != [] {
      Independent(stas, es[..|es| - 1], ht, id);
      var e, o := es[|es| - 1], Own(es[..|es| - 1], id);
      assert (o + [e])[..|o|] == o;
    }
  }

  // ---- the HT operation mode

  /** The bits of the 16-bit HT operation mode and of the ERP octet, by number. */
  type Bits = set<nat>

  const NON_GF_DEVS: nat := 2
  const NON_HT_STA: nat := 4
  const OP_MODE_MASK: Bits := {0, 1}
  const OWN_BITS: Bits := {0, 1, NON_GF_DEVS, NON_HT_STA}

  /** OP_MODE_MIXED, _20MHZ_HT_STA_ASSOCED, _MAY_BE_LEGACY_STAS and _PURE */
  function Protection(noHt: bool, ht20: bool, olbc: bool, width40: bool): Bits {
    if noHt then {0, 1} else if width40 && ht20 then {1} else if olbc then {0} else {}
  }

  function Mode(m: Bits, noGf: bool, noHt: bool, ht20: bool, olbc: bool, width40: bool): Bits {
    (m - OWN_BITS) + (if noGf then {NON_GF_DEVS} else {}) + (if noHt || olbc then {NON_HT_STA} else {})
    + Protection(noHt, ht20, olbc, width40)
  }

  /** The mode as section 9.4.2.56 of IEEE 802.11-2020 reads it off the stations. */
  ghost function ModeOf(m: Bits, stas: Stas, olbc: bool, width40: bool): Bits {
    Mode(m, exists i :: i in stas && NoHtGf in stas[i], exists i :: i in stas && NoHt in stas[i],
         exists i :: i in stas && Ht20 in stas[i], olbc, width40)
  }

  /** The other bits stay, and no trace of the old mode is left in its own: updating twice is updating once. */
  lemma ModeLaws(m: Bits, n: Bits, noGf: bool, noHt: bool, ht20: bool, olbc: bool, width40: bool)
    ensures var r := Mode(m, noGf, noHt, ht20, olbc, width40);
            && r - OWN_BITS == m - OWN_BITS
            && Mode(r, noGf, noHt, ht20, olbc, width40) == r
            && (m - OWN_BITS == n - OWN_BITS ==> Mode(n, noGf, noHt, ht20, olbc, width40) == r)
            && r * OP_MODE_MASK == Protection(noHt, ht20, olbc, width40)
            && (NON_GF_DEVS in r <==> noGf) && (NON_HT_STA in r <==> noHt || olbc)
  {
    var r := Mode(m, noGf, noHt, ht20, olbc, width40);
    assert r - OWN_BITS == m - OWN_BITS;
    assert r * OP_MODE_MASK == Protection(noHt, ht20, olbc, width40);
  }

  // ---- the ERP octet

  const ERP_PROTECT: Bits := {0, 1}
  const ERP_BARKER: nat := 2

  function ErpOctet(b: Bits, protect: bool, barker: bool): Bits {
    var c := if protect then b + ERP_PROTECT else b - ERP_PROTECT;
    if barker then c + {ERP_BARKER} else c - {ERP_BARKER}
  }

  lemma ErpLaws(b: Bits, protect: bool, barker: bool)
    ensures ErpOctet(b, protect, barker) * ERP_PROTECT == if protect then ERP_PROTECT else {}
    ensures ErpOctet(b, protect, barker) - {0, 1, 2} == b - {0, 1, 2}
    ensures (0 in ErpOctet(b, protect, barker) <==> protect) && (1 in ErpOctet(b, protect, barker) <==> protect)
    ensures 2 in ErpOctet(b, protect, barker) <==> barker
  {
    var r := ErpOctet(b, protect, barker);
    assert r * ERP_PROTECT == if protect then ERP_PROTECT else {};
    assert r - {0, 1, 2} == b - {0, 1, 2};
  }

  ghost predicate HasMark(stas: Stas, w: Mark) { exists i :: i in stas && w in stas[i] }

  /** What a join or leave does to the octet: it is rewritten when the first non-ERP station comes or the last
      one goes, and left alone otherwise. */
  ghost function ErpStep(b: Bits, before: Stas, after: Stas): Bits {
    if HasMark(before, NonErp) == HasMark(after, NonErp) then b
    else ErpOctet(b, HasMark(after, NonErp), HasMark(after, NoShortPreamble))
  }

  ghost function ErpAfter(b: Bits, stas: Stas, es: seq<Event>, ht: bool): Bits {
    if es == [] then b
    else ErpStep(ErpAfter(b, stas, es[..|es| - 1], ht), AfterAll(stas, es[..|es| - 1], ht), AfterAll(stas, es, ht))
  }

  /** The protection bits say whether a non-ERP station is present. */
  ghost predicate Agrees(b: Bits, stas: Stas) {
    b * ERP_PROTECT == if HasMark(stas, NonErp) then ERP_PROTECT else {}
  }

  /** At some point of the run the first non-ERP station came or the last one left. */
  ghost predicate Crossed(stas: Stas, es: seq<Event>, ht: bool) {
    es != [] && (Crossed(stas, es[..|es| - 1], ht)
                 || HasMark(AfterAll(stas, es[..|es| - 1], ht), NonErp) != HasMark(AfterAll(stas, es, ht), NonErp))
  }

  /** The octet comes with the beacon of the upper layer and is rewritten at crossings only. So over every run
      its protection bits are right if and only if they were at the start or a crossing has happened since. */
  lemma {:induction false} ErpIff(b: Bits, stas: Stas, es: seq<Event>, ht: bool)
    ensures Agrees(ErpAfter(b, stas, es, ht), AfterAll(stas, es, ht)) <==> Agrees(b, stas) || Crossed(stas, es, ht)
  {
    if es != [] {
      var h := es[..|es| - 1];
      ErpIff(b, stas, h, ht);
      var after := AfterAll(stas, es, ht);
      ErpLaws(ErpAfter(b, stas, h, ht), HasMark(after, NonErp), HasMark(after, NoShortPreamble));
    }
  }

  /** A beacon that starts with both protection bits set, and an ERP station that joins: the bits stay set with
      no non-ERP station about. */
  lemma StaleErp(ht: bool)
    ensures var es := [Join(7, Caps(true, false, true, true, true, true, false))];
            var stas := AfterAll(map[], es, ht);
            !HasMark(stas, NonErp) && ErpAfter({0, 1}, map[], es, ht) == {0, 1} && !Agrees({0, 1}, stas)
  {
    var c := Caps(true, false, true, true, true, true, false);
    var es := [Join(7, c)];
    assert es[..0] == [];
    assert AfterAll(map[], es[..0], ht) == map[];
    JoinMeans({}, c, ht);
    assert {0, 1} * ERP_PROTECT == {0, 1} && 0 in ERP_PROTECT;
  }

  /** ht_option and the width capability of the access point, whether joins take the HT branch, and whether
      ERP updates reach a beacon: BSS started, ERP enabled, a non-empty ERP element. */
  datatype Conf = Conf(htOption: bool, width40: bool, htBranch: bool, erp: bool)

  /** The octet after a change of the counters. */
  function ErpNext(b: Bits, erp: bool, before: map<Mark, int>, after: map<Mark, int>): Bits
    requires NonErp in before && NonErp in after && NoShortPreamble in after
  {
    if !erp || (before[NonErp] > 0) == (after[NonErp] > 0) then b
    else ErpOctet(b, after[NonErp] > 0, after[NoShortPreamble] > 0)
  }

  lemma ErpNextStep(b: Bits, erp: bool, stas: Stas, num: map<Mark, int>, stas': Stas, num': map<Mark, int>)
    requires Counted(stas, num) && Counted(stas', num')
    ensures ErpNext(b, erp, num, num') == if erp then ErpStep(b, stas, stas') else b
  {
    NoneOrSome(stas, NonErp);
    NoneOrSome(stas', NonErp);
    NoneOrSome(stas', NoShortPreamble);
  }

  class Link {
    const conf: Conf
    var stas: Stas
    var num: map<Mark, int>
    var htOpMode: Bits
    var olbcHt: bool
    var erpOctet: Bits

    ghost predicate Valid()
      reads this
    {
      Counted(stas, num)
    }

    constructor (c: Conf, mode: Bits, erp: Bits)
      ensures Valid() && conf == c && stas == map[] && htOpMode == mode && !olbcHt && erpOctet == erp
    {
      conf, stas, htOpMode, olbcHt := c, map[], mode, false;
      num := map[NoShortPreamble := 0, NonErp := 0, NoShortSlot := 0, NoHtGf := 0, NoHt := 0, Ht20 := 0, Intolerant40 := 0];
      erpOctet := erp;
      new;
      forall w: Mark ensures w in num && num[w] == 0 && Holders(stas, w) == {} {
        match w { case NoShortPreamble => case NonErp => case NoShortSlot => case NoHtGf => case NoHt => case Ht20 => case Intolerant40 => }
      }
    }

    /** "if the mark is not set, set it and count" and its opposite; a counter is never taken below zero. */
    method Put(id: nat, w: Mark, on: bool) returns (changed: bool)
      requires Counted(stas, num) && id in stas
      modifies this`stas, this`num
      ensures Counted(stas, num) && changed == (on != (w in old(stas)[id]))
      ensures stas == old(stas)[id := With(old(stas)[id], w, on)]
      ensures num == if !changed then old(num) else old(num)[w := old(num)[w] + (if on then 1 else -1)]
    {
      var f := With(stas[id], w, on);
      changed := on != (w in stas[id]);
      forall x: Mark ensures |Holders(stas[id := f], x)| == num[x] + (if changed && x == w then if on then 1 else -1 else 0) {
        HoldersUpdate(stas, id, f, x);
      }
      if changed {
        num := num[w := num[w] + if on then 1 else -1];
        stas := stas[id := f];
      } else {
        assert f == stas[id] && stas[id := f] == stas;
      }
    }

    /** update_bcn_erpinfo_ie, which tests for a count of exactly one */
    method UpdateErp()
      requires NonErp in num && NoShortPreamble in num
      modifies this`erpOctet
      ensures erpOctet == if conf.erp then ErpOctet(old(erpOctet), num[NonErp] == 1, num[NoShortPreamble] > 0) else old(erpOctet)
    {
      if !conf.erp { return; }
      if num[NonErp] == 1 {
        erpOctet := erpOctet + ERP_PROTECT;
      } else {
        erpOctet := erpOctet - ERP_PROTECT;
      }
      if num[NoShortPreamble] > 0 {
        erpOctet := erpOctet + {ERP_BARKER};
      } else {
        erpOctet := erpOctet - {ERP_BARKER};
      }
    }

    /** The non-ERP part of a join or leave: the octet is rewritten on the way from none to one and back, where
        testing for exactly one is testing for any. */
    method PutNonErp(id: nat, on: bool)
      requires Valid() && id in stas
      modifies this`stas, this`num, this`erpOctet
      ensures Valid()
      ensures stas == old(stas)[id := With(old(stas)[id], NonErp, on)]
      ensures num == old(num)[NonErp := num[NonErp]]
      ensures erpOctet == ErpNext(old(erpOctet), conf.erp, old(num), num)
    {
      var changed := Put(id, NonErp, on);
      if changed && num[NonErp] == (if on then 1 else 0) { UpdateErp(); }
    }

    /** rtw_ht_operation_update */
    method HtOperationUpdate() returns (changes: nat)
      requires Counted(stas, num)
      modifies this`htOpMode
      ensures htOpMode == if conf.htOption then ModeOf(old(htOpMode), stas, olbcHt, conf.width40) else old(htOpMode)
      ensures changes == 0 <==> htOpMode == old(htOpMode)
    {
      if !conf.htOption { return 0; }
      var noGf, noHt, ht20 := num[NoHtGf] != 0, num[NoHt] != 0, num[Ht20] != 0;
      NoneOrSome(stas, NoHtGf);
      NoneOrSome(stas, NoHt);
      NoneOrSome(stas, Ht20);
      htOpMode, changes := NewMode(htOpMode, noGf, noHt, ht20, olbcHt, conf.width40);
    }

    /** bss_cap_update_on_sta_join */
    method StaJoin(id: nat, c: Caps)
      requires Valid() && id in stas
      modifies this`stas, this`num, this`erpOctet, this`htOpMode
      ensures Valid() && stas == old(stas)[id := JoinMarks(old(stas)[id], c, conf.htBranch)]
      ensures erpOctet == ErpNext(old(erpOctet), conf.erp, old(num), num)
      ensures htOpMode == if conf.htBranch && conf.htOption then ModeOf(old(htOpMode), stas, olbcHt, conf.width40) else old(htOpMode)
    {
      ghost var f := stas[id];
      Legacy(id, !c.shortPreamble, c.nonErp, !c.shortSlot);
      if conf.htBranch {
        JoinHt(id, c);
        Twice(old(stas), id, JoinLegacy(f, c), JoinMarks(f, c, true));
        var changes := HtOperationUpdate();
      }
    }

    /** The legacy marks, of a join and of a leave. */
    method Legacy(id: nat, noShortPreamble: bool, nonErp: bool, noShortSlot: bool)
      requires Valid() && id in stas
      modifies this`stas, this`num, this`erpOctet
      ensures Valid()
      ensures stas == old(stas)[id := With(With(With(old(stas)[id], NoShortPreamble, noShortPreamble), NonErp, nonErp), NoShortSlot, noShortSlot)]
      ensures erpOctet == ErpNext(old(erpOctet), conf.erp, old(num), num)
    {
      ghost var m := stas;
      ghost var f := With(m[id], NoShortPreamble, noShortPreamble);
      var changed := Put(id, NoShortPreamble, noShortPreamble);
      PutNonErp(id, nonErp);
      Twice(m, id, f, With(f, NonErp, nonErp));
      changed := Put(id, NoShortSlot, noShortSlot);
      Twice(m, id, With(f, NonErp, nonErp), With(With(f, NonErp, nonErp), NoShortSlot, noShortSlot));
    }

    method JoinHt(id: nat, c: Caps)
      requires Valid() && id in stas
      modifies this`stas, this`num
      ensures Valid() && stas == old(stas)[id := JoinHtMarks(old(stas)[id], c)]
      ensures num[NonErp] == old(num[NonErp]) && num[NoShortPreamble] == old(num[NoShortPreamble])
    {
      ghost var m := stas;
      var changed := Put(id, NoHt, !c.ht);
      if c.ht {
        ghost var f := m[id] - {NoHt};
        if !c.gf { changed := Put(id, NoHtGf, true); }
        Twice(m, id, f, Sticky(f, NoHtGf, !c.gf));
        f := Sticky(f, NoHtGf, !c.gf);
        assert stas == m[id := f];
        Width(id, c, m, f);
      }
    }

    method Width(id: nat, c: Caps, ghost m: Stas, ghost f: set<Mark>)
      requires Valid() && id in m && stas == m[id := f]
      modifies this`stas, this`num
      ensures Valid() && stas == m[id := Sticky(Sticky(f, Ht20, !c.width40), Intolerant40, c.intolerant)]
      ensures num[NonErp] == old(num[NonErp]) && num[NoShortPreamble] == old(num[NoShortPreamble])
    {
      var changed;
      if !c.width40 { changed := Put(id, Ht20, true); }
      ghost var g := Sticky(f, Ht20, !c.width40);
      Twice(m, id, f, g);
      assert stas == m[id := g];
      if c.intolerant { changed := Put(id, Intolerant40, true); }
      Twice(m, id, g, Sticky(g, Intolerant40, c.intolerant));
    }

    /** bss_cap_update_on_sta_leave */
    method StaLeave(id: nat)
      requires Valid() && id in stas
      modifies this`stas, this`num, this`erpOctet, this`htOpMode
      ensures Valid() && stas == old(stas)[id := {}]
      ensures erpOctet == ErpNext(old(erpOctet), conf.erp, old(num), num)
      ensures htOpMode == if conf.htOption then ModeOf(old(htOpMode), stas, olbcHt, conf.width40) else old(htOpMode)
    {
      Legacy(id, false, false, false);
      ghost var f := stas[id];
      OnlyHt(f);
      LeaveHt(id);
      Twice(old(stas), id, f, {});
      var changes := HtOperationUpdate();
    }

    /** The HT marks of a leave. The warning for a 40 MHz intolerant station with a zero counter is the branch
        the assertion rules out. */
    method LeaveHt(id: nat)
      requires Valid() && id in stas && stas[id] <= {NoHtGf, NoHt, Ht20, Intolerant40}
      modifies this`stas, this`num
      ensures Valid() && stas == old(stas)[id := {}]
      ensures num[NonErp] == old(num[NonErp]) && num[NoShortPreamble] == old(num[NoShortPreamble])
    {
      ghost var m := stas;
      var changed := Put(id, NoHtGf, false);
      changed := Put(id, NoHt, false);
      Twice(m, id, m[id] - {NoHtGf}, m[id] - {NoHtGf} - {NoHt});
      LeaveWidth(id);
      Twice(m, id, m[id] - {NoHtGf} - {NoHt}, {});
    }

    method LeaveWidth(id: nat)
      requires Valid() && id in stas && stas[id] <= {Ht20, Intolerant40}
      modifies this`stas, this`num
      ensures Valid() && stas == old(stas)[id := {}]
      ensures num[NonErp] == old(num[NonErp]) && num[NoShortPreamble] == old(num[NoShortPreamble])
    {
      ghost var m := stas;
      var changed := Put(id, Ht20, false);
      NoneOrSome(stas, Intolerant40);
      assert Intolerant40 in stas[id] ==> num[Intolerant40] > 0;
      changed := Put(id, Intolerant40, false);
      assert m[id] - {Ht20} - {Intolerant40} == {};
      Twice(m, id, m[id] - {Ht20}, {});
    }

    /** rtw_process_public_act_bsscoex */
    method CoexReport(id: nat, intolerant: bool)
      requires Valid()
      modifies this`stas, this`num
      ensures Valid() && stas == After(old(stas), Coex(id, intolerant), conf.htBranch)
      ensures num[NonErp] == old(num[NonErp]) && num[NoShortPreamble] == old(num[NoShortPreamble])
    {
      if id !in stas || !intolerant { return; }
      var changed := Put(id, Intolerant40, true);
    }

    method Handle(e: Event)
      requires Valid()
      modifies this`stas, this`num, this`erpOctet, this`htOpMode, this`olbcHt
      ensures Valid() && stas == After(old(stas), e, conf.htBranch)
      ensures erpOctet == if conf.erp then ErpStep(old(erpOctet), old(stas), stas) else old(erpOctet)
      ensures htOpMode - OWN_BITS == old(htOpMode) - OWN_BITS
      ensures conf.htOption && ((e.Join? && conf.htBranch) || (e.Leave? && e.id in old(stas))) ==>
                htOpMode == ModeOf(old(htOpMode), stas, olbcHt, conf.width40)
    {
      ghost var m := htOpMode;
      match e {
        case Join(id, c) => HandleJoin(id, c);
        case Leave(id) =>
          if id in stas { StaLeave(id); }
        case Coex(id, intolerant) => CoexReport(id, intolerant);
        case Overlap(legacy) => olbcHt := legacy;
      }
      KeepsOthers(m, stas, olbcHt, conf.width40);
      ErpNextStep(old(erpOctet), conf.erp, old(stas), old(num), stas, num);
    }

    method HandleJoin(id: nat, c: Caps)
      requires Valid()
      modifies this`stas, this`num, this`erpOctet, this`htOpMode
      ensures Valid() && stas == After(old(stas), Join(id, c), conf.htBranch)
      ensures erpOctet == ErpNext(old(erpOctet), conf.erp, old(num), num)
      ensures htOpMode == if conf.htBranch && conf.htOption then ModeOf(old(htOpMode), stas, olbcHt, conf.width40) else old(htOpMode)
    {
      if id !in stas {
        NewStation(id);
        Twice(old(stas), id, {}, JoinMarks({}, c, conf.htBranch));
      }
      StaJoin(id, c);
    }

    method NewStation(id: nat)
      requires Valid() && id !in stas
      modifies this`stas
      ensures Valid() && stas == old(stas)[id := {}]
    {
      forall w: Mark ensures Holders(stas[id := {}], w) == Holders(stas, w) { }
      stas := stas[id := {}];
    }

    /** Every run: the marks are those of the run, every counter is the number of stations marked, and the ERP
        protection bits tell whether a non-ERP station is present, if they did at the start or a crossing has
        happened since, and not otherwise. */
    method HandleAll(es: seq<Event>)
      requires Valid()
      modifies this`stas, this`num, this`erpOctet, this`htOpMode, this`olbcHt
      ensures Valid() && stas == AfterAll(old(stas), es, conf.htBranch)
      ensures conf.erp ==> erpOctet == ErpAfter(old(erpOctet), old(stas), es, conf.htBranch)
      ensures conf.erp ==> (Agrees(erpOctet, stas) <==> Agrees(old(erpOctet), old(stas)) || Crossed(old(stas), es, conf.htBranch))
      ensures htOpMode - OWN_BITS == old(htOpMode) - OWN_BITS
    {
      for n := 0 to |es|
        invariant Valid() && stas == AfterAll(old(stas), es[..n], conf.htBranch)
        invariant conf.erp ==> erpOctet == ErpAfter(old(erpOctet), old(stas), es[..n], conf.htBranch)
        invariant htOpMode - OWN_BITS == old(htOpMode) - OWN_BITS
      {
        assert es[..n + 1][..n] == es[..n];
        Handle(es[n]);
      }
      assert es[..|es|] == es;
      ErpIff(old(erpOctet), old(stas), es, conf.htBranch);
    }
  }

  lemma KeepsOthers(m: Bits, stas: Stas, olbc: bool, width40: bool)
    ensures ModeOf(m, stas, olbc, width40) - OWN_BITS == m - OWN_BITS
  {
    ModeLaws(m, m, exists i :: i in stas && NoHtGf in stas[i], exists i :: i in stas && NoHt in stas[i],
             exists i :: i in stas && Ht20 in stas[i], olbc, width40);
  }

  /** The body of rtw_ht_operation_update: three guarded changes, counted. */
  method NewMode(m: Bits, noGf: bool, noHt: bool, ht20: bool, olbc: bool, width40: bool) returns (r: Bits, changes: nat)
    ensures r == Mode(m, noGf, noHt, ht20, olbc, width40)
    ensures changes == 0 <==> r == m
  {
    r, changes := m, 0;
    if NON_GF_DEVS !in r && noGf {
      r, changes := r + {NON_GF_DEVS}, changes + 1;
    } else if NON_GF_DEVS in r && !noGf {
      r, changes := r - {NON_GF_DEVS}, changes + 1;
    }
    assert r - {NON_GF_DEVS} == m - {NON_GF_DEVS};
    if NON_HT_STA !in r && (noHt || olbc) {
      r, changes := r + {NON_HT_STA}, changes + 1;
    } else if NON_HT_STA in r && !(noHt || olbc) {
      r, changes := r - {NON_HT_STA}, changes + 1;
    }
    assert r - {NON_GF_DEVS, NON_HT_STA} == m - {NON_GF_DEVS, NON_HT_STA};
    var p := Protection(noHt, ht20, olbc, width40);
    if r * OP_MODE_MASK != p {
      r, changes := (r - OP_MODE_MASK) + p, changes + 1;
    }
  }

  // ---- the mode and the events, spelt out

  /** The protection field as a number, and bits 2 and 4, as section 9.4.2.56 of IEEE 802.11-2020 defines them: 3 with a
      non-HT station, else 2 with a 20 MHz one on a 40 MHz access point, else 1 with an overlapping legacy BSS, else 0. */
  lemma ModeReads(m: Bits, stas: Stas, olbc: bool, width40: bool)
    ensures var r := ModeOf(m, stas, olbc, width40);
            var field := (if 0 in r then 1 else 0) + (if 1 in r then 2 else 0);
            && (field == 3 <==> exists i :: i in stas && NoHt in stas[i])
            && (field == 2 <==> !(exists i :: i in stas && NoHt in stas[i]) && width40 && exists i :: i in stas && Ht20 in stas[i])
            && (field == 1 <==> !(exists i :: i in stas && NoHt in stas[i]) && olbc
                                && !(width40 && exists i :: i in stas && Ht20 in stas[i]))
            && (2 in r <==> exists i :: i in stas && NoHtGf in stas[i])
            && (4 in r <==> olbc || exists i :: i in stas && NoHt in stas[i])
            && r - {0, 1, 2, 4} == m - {0, 1, 2, 4}
  {
    var g, h, t := (exists i :: i in stas && NoHtGf in stas[i]), (exists i :: i in stas && NoHt in stas[i]),
                   (exists i :: i in stas && Ht20 in stas[i]);
    ModeLaws(m, m, g, h, t, olbc, width40);
    var r := Mode(m, g, h, t, olbc, width40);
    assert forall b :: b in r * OP_MODE_MASK <==> b in r && (b == 0 || b == 1);
    assert OWN_BITS == {0, 1, 2, 4};
  }

  /** What an event does to the marks: a leave takes all of a station's, a report of intolerance adds that one, and no
      event touches another station. */
  lemma EventMeans(stas: Stas, e: Event, ht: bool, i: nat)
    ensures var t := After(stas, e, ht);
            && (i in t <==> i in stas || (e.Join? && e.id == i))
            && (i in t ==>
                  if e.Leave? && e.id == i then t[i] == {}
                  else if e.Coex? && e.id == i && e.intolerant then t[i] == stas[i] + {Intolerant40}
                  else if e.Join? && e.id == i then t[i] == JoinMarks(if i in stas then stas[i] else {}, e.caps, ht)
                  else t[i] == stas[i])
  {
  }
}
