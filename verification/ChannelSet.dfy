/**
 The channel set (core/rtw_chplan.c, core/rtw_chset.c): the channel plans of the
 applied requests folded into one flag set per channel, and the two checks of a
 whole channel width, against the set and against a single plan.
 */
module ChannelSet {
  import opened Options
  import opened Requests
  import opened Regulatory

  /** enum rtw_ch_type */
  const DIS: nat := 0
  const NO_IR: nat := 1
  const DFS: nat := 2
  const NO_HT40U: nat := 3
  const NO_HT40L: nat := 4
  const NO_80MHZ: nat := 5
  const NO_160MHZ: nat := 6

  const PROTO_A: nat := 0

  datatype Band = G24 | G5 | G6

  /** One channel; `hintEnd` is when its beacon hint ends, 0 when there is none. */
  datatype ChInfo = ChInfo(band: Band, ch: nat, flags: set<nat>, regNoIr: bool, hintEnd: nat)

  /** The regulatory database: which plans exist, and the flags a plan gives a 2.4 or 5 GHz channel. */
  datatype Db = Db(valid: nat -> bool, get: (nat, nat) -> Option<set<nat>>)

  ghost predicate NoDis(db: Db) { forall d, c :: db.get(d, c).Some? ==> DIS !in db.get(d, c).value }

  /** The excluded channels, up to the first 0. */
  predicate Excluded(excl: seq<nat>, ch: nat) {
    excl != [] && excl[0] != 0 && (excl[0] == ch || Excluded(excl[1..], ch))
  }

  predicate Off(c: ChInfo, s: State) { c.band == G5 && PROTO_A !in s.sum.proto }

  predicate Usable(u: Option<set<nat>>, dis: set<nat>) { u.Some? && u.value !! dis }

  // ---- the loops, seen by one channel

  /** The reset at the start of rtw_rfctl_chset_apply_regulatory. */
  function Reset(c: ChInfo, s: State): ChInfo {
    c.(flags := if Off(c, s) || (c.band != G6 && Excluded(s.exclChs, c.ch)) then {DIS} else {})
  }

  /** rtw_chset_apply_from_rtk_priv; the 6 GHz band is not built in. */
  function ApplyPlan(c: ChInfo, domain: nat, dis: set<nat>, db: Db): ChInfo {
    if DIS in c.flags then c
    else if c.band == G6 then c.(flags := {DIS})
    else if !db.valid(domain) then c
    else
      var u := db.get(domain, c.ch);
      c.(flags := if Usable(u, dis) then c.flags + u.value else {DIS})
  }

  /** rtw_rfctl_chset_apply_regd_reqs over the first `n` requests. */
  function ApplyReqs(c: ChInfo, rs: seq<Req>, n: nat, dis: set<nat>, db: Db): ChInfo
    requires n <= |rs|
  {
    if n == 0 then c
    else
      var d := ApplyReqs(c, rs, n - 1, dis, db);
      if rs[n - 1].applied then ApplyPlan(d, rs[n - 1].plan.domain, dis, db) else d
  }

  /** A channel's flags before beacon hints. */
  function Meet(c: ChInfo, s: State, db: Db): ChInfo {
    ApplyReqs(Reset(c, s), Reqs(s), |Reqs(s)|, s.disFlags, db)
  }

  // ---- what they compute

  /** A request whose plan counts: applied, with a plan the database has. */
  predicate Counts(r: Req, db: Db) { r.applied && db.valid(r.plan.domain) }

  predicate Denies(r: Req, ch: nat, dis: set<nat>, db: Db) {
    Counts(r, db) && !Usable(db.get(r.plan.domain, ch), dis)
  }

  predicate Grants(r: Req, ch: nat, b: nat, db: Db) {
    Counts(r, db) && db.get(r.plan.domain, ch).Some? && b in db.get(r.plan.domain, ch).value
  }

  lemma {:induction false} ApplyLaw(c: ChInfo, rs: seq<Req>, n: nat, dis: set<nat>, db: Db)
    requires n <= |rs| && NoDis(db) && c.band != G6 && (DIS in c.flags ==> c.flags == {DIS})
    ensures var d := ApplyReqs(c, rs, n, dis, db);
            && d == c.(flags := d.flags)
            && (DIS in d.flags <==> DIS in c.flags || exists i :: 0 <= i < n && Denies(rs[i], c.ch, dis, db))
            && (DIS in d.flags ==> d.flags == {DIS})
            && (DIS !in d.flags ==>
                  forall b :: b in d.flags <==> b in c.flags || exists i :: 0 <= i < n && Grants(rs[i], c.ch, b, db))
  {
    if n > 0 { ApplyLaw(c, rs, n - 1, dis, db); }
  }

  ghost predicate Disabled(c: ChInfo, s: State, db: Db) {
    Off(c, s) || Excluded(s.exclChs, c.ch) || exists r :: r in Reqs(s) && Denies(r, c.ch, s.disFlags, db)
  }

  /** The flags are the meet of the applied plans: a 2.4 or 5 GHz channel is disabled exactly when its band
      is off, it is excluded, or some plan lacks it or gives it a forbidden flag; otherwise its flags are the
      union over the plans. */
  lemma MeetLaw(c: ChInfo, s: State, db: Db)
    requires NoDis(db) && c.band != G6
    ensures var d := Meet(c, s, db);
            && d == c.(flags := d.flags)
            && (Disabled(c, s, db) ==> d.flags == {DIS})
            && (!Disabled(c, s, db) ==>
                  DIS !in d.flags && forall b :: b in d.flags <==> exists r :: r in Reqs(s) && Grants(r, c.ch, b, db))
  {
    var rs, d := Reqs(s), Meet(c, s, db);
    ApplyLaw(Reset(c, s), rs, |rs|, s.disFlags, db);
    if r :| r in rs && Denies(r, c.ch, s.disFlags, db) {
      var i :| 0 <= i < |rs| && rs[i] == r;
    }
    forall b, r | r in rs && Grants(r, c.ch, b, db) ensures exists i :: 0 <= i < |rs| && Grants(rs[i], c.ch, b, db) {
      var i :| 0 <= i < |rs| && rs[i] == r;
    }
  }

  lemma {:induction false} Apply6(c: ChInfo, rs: seq<Req>, n: nat, dis: set<nat>, db: Db)
    requires n <= |rs| && c.band == G6 && c.flags == {}
    ensures var d := ApplyReqs(c, rs, n, dis, db);
            d == c.(flags := if exists i :: 0 <= i < n && rs[i].applied then {DIS} else {})
  {
    if n > 0 { Apply6(c, rs, n - 1, dis, db); }
  }

  /** The order of the requests does not matter. */
  lemma MeetOrder(c: ChInfo, s: State, t: State, db: Db)
    requires NoDis(db) && multiset(Reqs(s)) == multiset(Reqs(t))
    requires t.disFlags == s.disFlags && t.exclChs == s.exclChs && t.sum.proto == s.sum.proto
    ensures Meet(c, t, db) == Meet(c, s, db)
  {
    assert forall r :: r in Reqs(s) <==> r in multiset(Reqs(s)) <==> r in multiset(Reqs(t)) <==> r in Reqs(t);
    if c.band == G6 {
      Apply6(Reset(c, s), Reqs(s), |Reqs(s)|, s.disFlags, db);
      Apply6(Reset(c, t), Reqs(t), |Reqs(t)|, t.disFlags, db);
      SomeApplies(Reqs(s), Reqs(t));
      SomeApplies(Reqs(t), Reqs(s));
    } else {
      MeetLaw(c, s, db);
      MeetLaw(c, t, db);
      assert Disabled(c, s, db) == Disabled(c, t, db);
      if !Disabled(c, s, db) { assert Meet(c, s, db).flags == Meet(c, t, db).flags; }
    }
  }

  lemma SomeApplies(a: seq<Req>, b: seq<Req>)
    requires forall r :: r in a ==> r in b
    ensures (exists i :: 0 <= i < |a| && a[i].applied) ==> exists i :: 0 <= i < |b| && b[i].applied
  {
    if i :| 0 <= i < |a| && a[i].applied {
      assert a[i] in b;
      var j :| 0 <= j < |b| && b[j] == a[i];
    }
  }

  /** The exclusion list: a channel that stands in it before the first 0. */
  lemma {:induction false} ExcludedMeans(excl: seq<nat>, ch: nat)
    ensures Excluded(excl, ch) <==> exists i :: 0 <= i < |excl| && excl[i] == ch && forall j :: 0 <= j <= i ==> excl[j] != 0
  {
    if excl != [] {
      var t := excl[1..];
      ExcludedMeans(t, ch);
      if excl[0] != 0 {
        if i :| 0 <= i < |t| && t[i] == ch && forall j :: 0 <= j <= i ==> t[j] != 0 {
          assert excl[i + 1] == ch && forall j :: 0 <= j <= i + 1 ==> excl[j] == if j == 0 then excl[0] else t[j - 1];
        }
        if i :| 0 < i < |excl| && excl[i] == ch && forall j :: 0 <= j <= i ==> excl[j] != 0 {
          assert t[i - 1] == ch && forall j :: 0 <= j <= i - 1 ==> t[j] == excl[j + 1];
        }
      }
    }
  }

  /** The same law of the flags with every condition spelt out. */
  lemma FlagsLaw(c: ChInfo, s: State, db: Db)
    requires NoDis(db) && c.band != G6
    ensures var f := Meet(c, s, db).flags;
            && (0 in f <==>
                || (c.band == G5 && 0 !in s.sum.proto)
                || (exists i :: 0 <= i < |s.exclChs| && s.exclChs[i] == c.ch && forall j :: 0 <= j <= i ==> s.exclChs[j] != 0)
                || (exists r :: r in Reqs(s) && r.applied && db.valid(r.plan.domain)
                                && (db.get(r.plan.domain, c.ch).None? || !(db.get(r.plan.domain, c.ch).value !! s.disFlags))))
            && (0 in f ==> f == {0})
            && (0 !in f ==> forall b :: b in f <==>
                  exists r :: r in Reqs(s) && r.applied && db.valid(r.plan.domain)
                              && db.get(r.plan.domain, c.ch).Some? && b in db.get(r.plan.domain, c.ch).value)
  {
    MeetLaw(c, s, db);
    ExcludedMeans(s.exclChs, c.ch);
    var f := Meet(c, s, db).flags;
    assert 0 in f <==> Disabled(c, s, db);
    assert forall r :: (Denies(r, c.ch, s.disFlags, db) <==>
      (r.applied && db.valid(r.plan.domain)
       && (db.get(r.plan.domain, c.ch).None? || !(db.get(r.plan.domain, c.ch).value !! s.disFlags))));
    if 0 !in f {
      forall b
        ensures b in f <==> exists r :: r in Reqs(s) && r.applied && db.valid(r.plan.domain)
                              && db.get(r.plan.domain, c.ch).Some? && b in db.get(r.plan.domain, c.ch).value
      {
        if r :| r in Reqs(s) && Grants(r, c.ch, b, db) { }
        if r :| r in Reqs(s) && r.applied && db.valid(r.plan.domain)
                && db.get(r.plan.domain, c.ch).Some? && b in db.get(r.plan.domain, c.ch).value {
          assert Grants(r, c.ch, b, db);
        }
      }
    }
  }

  // ---- a whole channel width against the set

  /** _rtw_chset_search_bch for enabled channels; the length when there is none. */
  function Search(cs: seq<ChInfo>, band: Band, ch: nat, from: nat): (i: nat)
    requires from <= |cs|
    ensures from <= i <= |cs|
    ensures i < |cs| ==> cs[i].band == band && cs[i].ch == ch && DIS !in cs[i].flags
    ensures forall k :: from <= k < i && cs[k].band == band && cs[k].ch == ch ==> DIS in cs[k].flags
    decreases |cs| - from
  {
    if from == |cs| then from
    else if cs[from].band == band && cs[from].ch == ch && DIS !in cs[from].flags then from
    else Search(cs, band, ch, from + 1)
  }

  /** The request for a width; `bw` counts doublings from 20 MHz, `subs` are its 20 MHz channels as the
      centre-channel tables give them. */
  datatype Width = Width(band: Band, ch: nat, bw: nat, subs: Option<seq<nat>>)

  /** The checks on the k-th 20 MHz channel of the width. */
  predicate SubAllowed(c: ChInfo, w: Width, k: nat, primaryPassive: bool, passive: bool) {
    && (!passive && NO_IR in c.flags ==> primaryPassive && c.ch == w.ch)
    && (w.bw >= 1 ==> !(NO_HT40U in c.flags && k % 2 == 0) && !(NO_HT40L in c.flags && k % 2 == 1))
    && (w.bw >= 2 ==> NO_80MHZ !in c.flags)
    && (w.bw >= 3 ==> NO_160MHZ !in c.flags)
  }

  predicate SubValid(cs: seq<ChInfo>, w: Width, k: nat, primaryPassive: bool, passive: bool)
    requires w.subs.Some? && k < |w.subs.value|
  {
    var op := w.subs.value[k];
    var i := Search(cs, w.band, op, 0);
    op != 0 && i < |cs| && SubAllowed(cs[i], w, k, primaryPassive, passive)
  }

  /** _rtw_chset_is_bchbw_valid */
  predicate SetValid(cs: seq<ChInfo>, w: Width, primaryPassive: bool, passive: bool) {
    w.subs.Some? && w.subs.value != []
    && forall k :: 0 <= k < |w.subs.value| ==> SubValid(cs, w, k, primaryPassive, passive)
  }

  // ---- and against one plan

  predicate PlanAllows(domain: nat, w: Width, op: nat, primaryPassive: bool, passive: bool, s: State, db: Db) {
    var u := db.get(domain, op);
    && Usable(u, s.disFlags) && !Excluded(s.exclChs, op)
    && (NO_IR in u.value ==> passive && (primaryPassive || op != w.ch))
  }

  /** rtw_chplan_is_bchbw_valid, with the exclusions of the radio control block. */
  predicate PlanValid(domain: nat, w: Width, primaryPassive: bool, passive: bool, s: State, db: Db) {
    w.subs.Some? && w.subs.value != []
    && forall k :: 0 <= k < |w.subs.value| ==> PlanAllows(domain, w, w.subs.value[k], primaryPassive, passive, s, db)
  }

  /** A set whose flags are the meet of the plans of `s`, apart from a NO_IR that a hint may have lifted. */
  ghost predicate Merged(cs: seq<ChInfo>, s: State, db: Db) {
    forall i :: 0 <= i < |cs| ==> MergedAt(cs[i], s, db)
  }

  ghost predicate MergedAt(c: ChInfo, s: State, db: Db) {
    var m := Meet(c, s, db).flags;
    c.flags - {NO_IR} == m - {NO_IR} && c.regNoIr == (NO_IR in m) && (NO_IR in c.flags ==> c.regNoIr)
  }

  lemma EnabledChannel(c: ChInfo, s: State, db: Db, r: Req)
    requires NoDis(db) && MergedAt(c, s, db) && DIS !in c.flags && r in Reqs(s) && Counts(r, db)
    ensures c.band != G6 && Usable(db.get(r.plan.domain, c.ch), s.disFlags) && !Excluded(s.exclChs, c.ch)
    ensures NO_IR in db.get(r.plan.domain, c.ch).value ==> c.regNoIr
  {
    var m := Meet(c, s, db).flags;
    assert DIS !in m by { assert DIS in m ==> DIS in m - {NO_IR}; }
    var i :| 0 <= i < |Reqs(s)| && Reqs(s)[i] == r;
    if c.band == G6 {
      Apply6(Reset(c, s), Reqs(s), |Reqs(s)|, s.disFlags, db);
    } else {
      MeetLaw(c, s, db);
      assert !Denies(r, c.ch, s.disFlags, db);
      assert NO_IR in db.get(r.plan.domain, c.ch).value ==> Grants(r, c.ch, NO_IR, db);
    }
  }

  /** Which flags, NO_IR aside, an enabled channel of a merged set carries: those some applied plan gives it. */
  lemma EnabledFlags(c: ChInfo, s: State, db: Db, b: nat)
    requires NoDis(db) && MergedAt(c, s, db) && DIS !in c.flags && b != NO_IR
    ensures b in c.flags <==> exists r :: r in Reqs(s) && Grants(r, c.ch, b, db)
  {
    var m := Meet(c, s, db).flags;
    assert DIS !in m by { assert DIS in m ==> DIS in m - {NO_IR}; }
    assert b in c.flags <==> b in m by { assert b in c.flags - {NO_IR} <==> b in m - {NO_IR}; }
    if c.band == G6 {
      Apply6(Reset(c, s), Reqs(s), |Reqs(s)|, s.disFlags, db);
      forall r | r in Reqs(s) ensures !r.applied {
        var i :| 0 <= i < |Reqs(s)| && Reqs(s)[i] == r;
      }
    } else {
      MeetLaw(c, s, db);
    }
  }

  ghost predicate InSet(cs: seq<ChInfo>, band: Band, ch: nat) {
    ch != 0 && exists i :: 0 <= i < |cs| && cs[i].band == band && cs[i].ch == ch && 0 !in cs[i].flags
  }

  /** What a plan's flags for the k-th 20 MHz channel allow of a width: `bw` is 1 at 40 MHz, 2 at 80, 3 at 160; flags
      3 and 4 forbid the upper and the lower 40 MHz neighbour, 5 and 6 forbid 80 and 160 MHz. */
  predicate FlagsAllow(g: set<nat>, bw: nat, k: nat) {
    && (bw >= 1 && k % 2 == 0 ==> 3 !in g) && (bw >= 1 && k % 2 == 1 ==> 4 !in g)
    && (bw >= 2 ==> 5 !in g) && (bw >= 3 ==> 6 !in g)
  }

  /** The k-th channel of a width, judged by the set's enabled channels and the applied plans. */
  ghost predicate SubLawful(cs: seq<ChInfo>, w: Width, k: nat, primaryPassive: bool, passive: bool, s: State, db: Db)
    requires w.subs.Some? && k < |w.subs.value|
  {
    var op := w.subs.value[k];
    && InSet(cs, w.band, op)
    && (forall r :: r in Reqs(s) && Counts(r, db) && db.get(r.plan.domain, op).Some? ==> FlagsAllow(db.get(r.plan.domain, op).value, w.bw, k))
    && (!passive ==> var i := Search(cs, w.band, op, 0); i < |cs| && 1 in cs[i].flags ==> primaryPassive && op == w.ch)
  }

  /** On a merged set a width of any size is accepted exactly when each of its 20 MHz channels is enabled, no applied
      plan gives it a flag that forbids the width at its place, and where passive channels are not allowed it is not
      passive, the primary channel aside if that is allowed. */
  lemma WidthLaw(cs: seq<ChInfo>, w: Width, primaryPassive: bool, passive: bool, s: State, db: Db)
    requires NoDis(db) && Merged(cs, s, db)
    ensures SetValid(cs, w, primaryPassive, passive) <==>
            w.subs.Some? && w.subs.value != []
            && forall k :: 0 <= k < |w.subs.value| ==> SubLawful(cs, w, k, primaryPassive, passive, s, db)
  {
    if w.subs.Some? {
      forall k | 0 <= k < |w.subs.value|
        ensures SubValid(cs, w, k, primaryPassive, passive) <==> SubLawful(cs, w, k, primaryPassive, passive, s, db)
      {
        SubLaw(cs, w, k, primaryPassive, passive, s, db);
      }
    }
  }

  lemma SubLaw(cs: seq<ChInfo>, w: Width, k: nat, primaryPassive: bool, passive: bool, s: State, db: Db)
    requires NoDis(db) && Merged(cs, s, db) && w.subs.Some? && k < |w.subs.value|
    ensures SubValid(cs, w, k, primaryPassive, passive) <==> SubLawful(cs, w, k, primaryPassive, passive, s, db)
  {
    var op := w.subs.value[k];
    var i := Search(cs, w.band, op, 0);
    if i < |cs| {
      EnabledFlags(cs[i], s, db, NO_HT40U);
      EnabledFlags(cs[i], s, db, NO_HT40L);
      EnabledFlags(cs[i], s, db, NO_80MHZ);
      EnabledFlags(cs[i], s, db, NO_160MHZ);
      PlansAllow(op, w.bw, k, cs[i].flags, s, db);
    }
  }

  predicate Forbids(b: nat, bw: nat, k: nat) {
    (b == 3 && bw >= 1 && k % 2 == 0) || (b == 4 && bw >= 1 && k % 2 == 1) || (b == 5 && bw >= 2) || (b == 6 && bw >= 3)
  }

  lemma Forbidden(g: set<nat>, b: nat, bw: nat, k: nat)
    requires b in g && Forbids(b, bw, k)
    ensures !FlagsAllow(g, bw, k)
  {
    if b == 3 { assert 3 in g; } else if b == 4 { assert 4 in g; } else if b == 5 { assert 5 in g; } else { assert 6 in g; }
  }

  lemma PlansAllow(op: nat, bw: nat, k: nat, g: set<nat>, s: State, db: Db)
    requires forall b :: 3 <= b <= 6 ==> (b in g <==> exists r :: r in Reqs(s) && Grants(r, op, b, db))
    ensures FlagsAllow(g, bw, k) <==>
            forall r :: r in Reqs(s) && Counts(r, db) && db.get(r.plan.domain, op).Some? ==> FlagsAllow(db.get(r.plan.domain, op).value, bw, k)
  {
    if !FlagsAllow(g, bw, k) {
      var b: nat :| 3 <= b <= 6 && b in g && Forbids(b, bw, k);
      var r :| r in Reqs(s) && Grants(r, op, b, db);
      Forbidden(db.get(r.plan.domain, op).value, b, bw, k);
    } else {
      forall r | r in Reqs(s) && Counts(r, db) && db.get(r.plan.domain, op).Some?
        ensures FlagsAllow(db.get(r.plan.domain, op).value, bw, k)
      {
        assert forall b :: 3 <= b <= 6 && b in db.get(r.plan.domain, op).value ==> Grants(r, op, b, db);
      }
    }
  }

  /** The plan gives the primary channel of the width NO_IR. */
  predicate PassivePrimary(domain: nat, w: Width, db: Db)
    requires w.subs.Some?
  {
    w.ch in w.subs.value && db.get(domain, w.ch).Some? && NO_IR in db.get(domain, w.ch).value
  }

  /** Some 20 MHz channel of the width is active in the set, as a hint can make it, and passive by the plan. */
  predicate LiftedSub(cs: seq<ChInfo>, domain: nat, w: Width, db: Db)
    requires w.subs.Some?
  {
    exists k :: 0 <= k < |w.subs.value| && LiftedAt(cs, domain, w, db, w.subs.value[k])
  }

  predicate LiftedAt(cs: seq<ChInfo>, domain: nat, w: Width, db: Db, op: nat) {
    var i := Search(cs, w.band, op, 0);
    i < |cs| && NO_IR !in cs[i].flags && db.get(domain, op).Some? && NO_IR in db.get(domain, op).value
  }

  /** Soundness of the merged set: what it accepts, every applied plan accepts under the same exclusions,
      if and only if the two passive switches are equal or the plan's primary channel is not passive, and
      passive channels are allowed or no channel of the width is lifted. */
  lemma SetIsSound(cs: seq<ChInfo>, w: Width, primaryPassive: bool, passive: bool, s: State, db: Db, r: Req)
    requires NoDis(db) && Merged(cs, s, db) && r in Reqs(s) && Counts(r, db)
    requires SetValid(cs, w, primaryPassive, passive)
    ensures PlanValid(r.plan.domain, w, primaryPassive, passive, s, db) <==>
            && (primaryPassive == passive || !PassivePrimary(r.plan.domain, w, db))
            && (passive || !LiftedSub(cs, r.plan.domain, w, db))
  {
    var dom := r.plan.domain;
    forall k | 0 <= k < |w.subs.value|
      ensures var op := w.subs.value[k];
              && Usable(db.get(dom, op), s.disFlags) && !Excluded(s.exclChs, op)
              && (!passive && NO_IR in db.get(dom, op).value ==>
                    LiftedAt(cs, dom, w, db, op) || (primaryPassive && op == w.ch))
    {
      assert SubValid(cs, w, k, primaryPassive, passive);
      var i := Search(cs, w.band, w.subs.value[k], 0);
      EnabledChannel(cs[i], s, db, r);
    }
    if w.ch in w.subs.value {
      var k :| 0 <= k < |w.subs.value| && w.subs.value[k] == w.ch;
    }
  }

  /** Completeness at 20 MHz: a channel of the set whose band is on, accepted by every applied plan, is
      accepted by the set. */
  lemma SetIsComplete(cs: seq<ChInfo>, w: Width, primaryPassive: bool, passive: bool, s: State, db: Db, j: nat)
    requires NoDis(db) && Merged(cs, s, db) && w.band != G6 && w.bw == 0
    requires j < |cs| && cs[j].band == w.band && cs[j].ch == w.ch && w.ch != 0 && w.subs == Some([w.ch]) && !Off(cs[j], s)
    requires exists r :: r in Reqs(s) && Counts(r, db)
    requires forall r :: r in Reqs(s) && Counts(r, db) ==> PlanValid(r.plan.domain, w, primaryPassive, passive, s, db)
    ensures SetValid(cs, w, primaryPassive, passive)
  {
    forall r | r in Reqs(s) && Counts(r, db) ensures PlanAllows(r.plan.domain, w, w.ch, primaryPassive, passive, s, db) {
      assert PlanAllows(r.plan.domain, w, w.subs.value[0], primaryPassive, passive, s, db);
    }
    AllowedEnabled(cs[j], w, primaryPassive, passive, s, db);
    var i := Search(cs, w.band, w.ch, 0);
    AllowedEnabled(cs[i], w, primaryPassive, passive, s, db);
    assert SubValid(cs, w, 0, primaryPassive, passive);
  }

  lemma AllowedEnabled(c: ChInfo, w: Width, primaryPassive: bool, passive: bool, s: State, db: Db)
    requires NoDis(db) && MergedAt(c, s, db) && c.band != G6 && c.ch == w.ch && !Off(c, s)
    requires exists r :: r in Reqs(s) && Counts(r, db)
    requires forall r :: r in Reqs(s) && Counts(r, db) ==> PlanAllows(r.plan.domain, w, w.ch, primaryPassive, passive, s, db)
    ensures DIS !in c.flags && (!passive ==> NO_IR !in c.flags)
  {
    MeetLaw(c, s, db);
    var m := Meet(c, s, db).flags;
    assert !Disabled(c, s, db);
    assert DIS in c.flags ==> DIS in c.flags - {NO_IR};
    assert DIS !in m - {NO_IR};
  }

  /** Channel 13 lifted by a hint: with passive channels not allowed the set accepts it and the plan does not. */
  lemma LiftedDiffers(s: State, db: Db, domain: nat, end: nat)
    requires db.get(domain, 13) == Some({NO_IR})
    ensures var w := Width(G24, 13, 0, Some([13]));
            SetValid([ChInfo(G24, 13, {}, true, end)], w, false, false) && !PlanValid(domain, w, false, false, s, db)
  {
    var w := Width(G24, 13, 0, Some([13]));
    var cs := [ChInfo(G24, 13, {}, true, end)];
    assert SubValid(cs, w, 0, false, false);
    assert w.subs.value[0] == 13;
  }

  /** Both settings in which the switches differ, at a lone passive channel: the set accepts it and the plan
      does not. */
  lemma SwitchesDiffer(s: State, db: Db, domain: nat, primaryPassive: bool)
    requires db.get(domain, 13) == Some({NO_IR}) && !Excluded(s.exclChs, 13) && NO_IR !in s.disFlags
    ensures var w := Width(G24, 13, 0, Some([13]));
            && SetValid([ChInfo(G24, 13, {NO_IR}, true, 0)], w, primaryPassive, !primaryPassive)
            && !PlanValid(domain, w, primaryPassive, !primaryPassive, s, db)
  {
    var w := Width(G24, 13, 0, Some([13]));
    var cs := [ChInfo(G24, 13, {NO_IR}, true, 0)];
    assert SubValid(cs, w, 0, primaryPassive, !primaryPassive);
    assert w.subs.value[0] == 13;
  }

  // ---- the loops themselves

  /** rtw_rfctl_is_excl_chs */
  method IsExcluded(excl: seq<nat>, ch: nat) returns (found: bool)
    ensures found == Excluded(excl, ch)
  {
    var i := 0;
    while i < |excl|
      invariant i <= |excl| && Excluded(excl[i..], ch) == Excluded(excl, ch)
    {
      assert excl[i..][1..] == excl[i + 1..];
      if excl[i] == 0 { return false; }
      if excl[i] == ch { return true; }
      i := i + 1;
    }
    found := false;
  }

  method IsSetValid(cs: seq<ChInfo>, w: Width, primaryPassive: bool, passive: bool) returns (valid: bool)
    ensures valid == SetValid(cs, w, primaryPassive, passive)
  {
    if w.subs.None? { return false; }
    var i := 0;
    while i < |w.subs.value| && SubValid(cs, w, i, primaryPassive, passive)
      invariant i <= |w.subs.value| && forall k :: 0 <= k < i ==> SubValid(cs, w, k, primaryPassive, passive)
    {
      i := i + 1;
    }
    valid := |w.subs.value| != 0 && i == |w.subs.value|;
  }

  method IsPlanValid(domain: nat, w: Width, primaryPassive: bool, passive: bool, s: State, db: Db) returns (valid: bool)
    ensures valid == PlanValid(domain, w, primaryPassive, passive, s, db)
  {
    if w.subs.None? { return false; }
    var i := 0;
    while i < |w.subs.value|
      invariant i <= |w.subs.value|
      invariant forall k :: 0 <= k < i ==> PlanAllows(domain, w, w.subs.value[k], primaryPassive, passive, s, db)
    {
      var op := w.subs.value[i];
      var u := db.get(domain, op);
      var excluded := IsExcluded(s.exclChs, op);
      if u.None? || !(u.value !! s.disFlags) || excluded { break; }
      if NO_IR in u.value && (!passive || (!primaryPassive && op == w.ch)) { break; }
      i := i + 1;
    }
    valid := |w.subs.value| != 0 && i == |w.subs.value|;
  }
}
