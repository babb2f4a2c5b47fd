/**
 When the selection is brought up to date (core/rtw_chplan.c:2555-2648). Every
 command handler may report "no effect", which skips the reselection; the
 results here say when that leaves the marks and the summary behind the list.
 */
module Resync {
  import opened Options
  import opened Seqs
  import opened Requests
  import opened CountryIe
  import opened Selection
  import opened Regulatory

  /** Marks and summary are what a selection over the present list would produce. */
  ghost predicate InSync(s: State) {
    var rs := Reqs(s);
    Selected(rs).Some? &&
    var (src, inr) := Selected(rs).value;
    && (forall i :: 0 <= i < |rs| ==> rs[i].applied == Applies(rs[i], src, inr, s.always))
    && Summed(rs, src, inr, s.always, |rs|) == Some(s.sum)
  }

  /** Equal up to reference counts and addresses. */
  ghost predicate Alike(a: seq<Req>, b: seq<Req>) {
    |a| == |b| && forall i :: 0 <= i < |a| ==>
      a[i].src == b[i].src && a[i].inr == b[i].inr && a[i].plan == b[i].plan && a[i].applied == b[i].applied
  }

  /** The same up to marks too. */
  ghost predicate Unmarked(a: seq<Req>, b: seq<Req>) {
    |a| == |b| && forall i :: 0 <= i < |a| ==> a[i].src == b[i].src && a[i].inr == b[i].inr && a[i].plan == b[i].plan
  }

  lemma {:induction false} SelectsSame(a: seq<Req>, b: seq<Req>, n: nat, src: Src, inr: Inr, x: Always, y: Always)
    requires Unmarked(a, b) && n <= |a|
    requires forall i :: 0 <= i < |a| ==> Applies(a[i], src, inr, x) == Applies(a[i], src, inr, y)
    ensures TopSrc(a, n) == TopSrc(b, n) && TopInr(a, src, n) == TopInr(b, src, n)
    ensures Summed(a, src, inr, x, n) == Summed(b, src, inr, y, n)
  {
    if n > 0 { SelectsSame(a, b, n - 1, src, inr, x, y); }
  }

  lemma SelectedSame(a: seq<Req>, b: seq<Req>)
    requires Unmarked(a, b)
    ensures Selected(a) == Selected(b)
  {
    var x := Always(false, false);
    SelectsSame(a, b, |a|, RtkPriv, ByInit, x, x);
    SelectsSame(a, b, |a|, Os, ByInit, x, x);
  }

  /** Being in sync depends on the list only up to reference counts, and on the always-apply switches only
      where they decide something. */
  lemma SyncSame(s: State, t: State)
    requires Selected(Reqs(s)).Some? && Alike(Reqs(s), Reqs(t)) && t.sum == s.sum
    requires var (src, inr) := Selected(Reqs(s)).value;
             forall i :: 0 <= i < |Reqs(s)| ==> Applies(Reqs(s)[i], src, inr, s.always) == Applies(Reqs(s)[i], src, inr, t.always)
    ensures InSync(s) <==> InSync(t)
  {
    var a, b := Reqs(s), Reqs(t);
    SelectedSame(a, b);
    var (src, inr) := Selected(a).value;
    SelectsSame(a, b, |a|, src, inr, s.always, t.always);
    forall i | 0 <= i < |b|
      ensures Applies(b[i], src, inr, t.always) == Applies(a[i], src, inr, s.always) && a[i].applied == b[i].applied
    {
      assert Applies(a[i], src, inr, t.always) == Applies(b[i], src, inr, t.always);
    }
  }

  /** A reselection brings any non-empty list into sync. */
  lemma ReselectSyncs(s: State, env: Env)
    requires Reqs(s) != []
    ensures InSync(Reselect(s, env))
  {
    var rs := Reqs(s);
    SelectionLaw(rs, rs, s.always);
    var (src, inr) := Selected(rs).value;
    var ms := Marked(rs, src, inr, s.always, |rs|);
    SelectedSame(rs, ms);
    SelectsSame(rs, ms, |rs|, src, inr, s.always, s.always);
  }

  // ---- a country handling that reports no effect changes only counts

  lemma {:induction false} ClearAlike(rs: seq<Req>)
    ensures Alike(ClearRefs(rs), rs)
  {
    ClearLaws(rs, NO_PLAN);
  }

  lemma {:induction false} AddAlike(rs: seq<Req>, p: Plan, id: nat)
    requires HasPlan(rs, p)
    ensures Alike(AddCie(rs, p, id), rs)
  {
    if !Same(rs[0], p) {
      assert HasPlan(rs[1..], p) by {
        var r :| r in rs && Same(r, p);
        assert r in rs[1..];
      }
      AddAlike(rs[1..], p, id);
      HeadTail(rs);
    }
  }

  lemma AlikePlans(a: seq<Req>, b: seq<Req>, p: Plan)
    requires Alike(a, b)
    ensures HasPlan(a, p) <==> HasPlan(b, p)
  {
    if HasPlan(a, p) {
      var r :| r in a && Same(r, p);
      var i :| 0 <= i < |a| && a[i] == r;
      assert b[i] in b && Same(b[i], p);
    }
    if HasPlan(b, p) {
      var r :| r in b && Same(r, p);
      var i :| 0 <= i < |b| && b[i] == r;
      assert a[i] in a && Same(a[i], p);
    }
  }

  lemma {:induction false} AddAllAlike(rs: seq<Req>, ps: seq<Plan>, id: nat)
    requires forall p :: p in ps ==> HasPlan(rs, p)
    ensures Alike(AddAll(rs, ps, id), rs)
    decreases |ps|
  {
    if ps != [] {
      assert ps[0] in ps;
      var a := AddCie(rs, ps[0], id);
      AddAlike(rs, ps[0], id);
      forall p | p in ps[1..] ensures HasPlan(a, p) { AlikePlans(a, rs, p); }
      AddAllAlike(a, ps[1..], id + 1);
    }
  }

  lemma {:induction false} DropNone(rs: seq<Req>)
    requires Referenced(rs)
    ensures DropZero(rs) == rs
  {
    if rs != [] {
      assert rs[0] in rs;
      DropNone(rs[1..]);
      HeadTail(rs);
    }
  }

  lemma ClearDistinct(rs: seq<Req>)
    requires Distinct(rs)
    ensures Distinct(ClearRefs(rs))
  {
    ClearLaws(rs, NO_PLAN);
  }

  /** A rebuild that neither adds nor removes a request. */
  lemma RebuildAlike(rs: seq<Req>, ps: seq<Plan>, id: nat)
    requires Distinct(rs) && !Alters(rs, ps)
    ensures Alike(Rebuild(rs, ps, id), rs)
  {
    var c := ClearRefs(rs);
    ClearAlike(rs);
    forall p | p in ps ensures HasPlan(c, p) { AlikePlans(c, rs, p); }
    AddAllAlike(c, ps, id);
    var a := AddAll(c, ps, id);
    ClearDistinct(rs);
    forall r | r in a && IsCie(r) ensures r.refCnt > 0 {
      var i :| 0 <= i < |a| && a[i] == r;
      assert rs[i] in rs && IsCie(rs[i]) && rs[i].plan in ps;
      RefsAfterAdd(rs, ps, id, i);
    }
    DropNone(a);
  }

  lemma RefsAfterAdd(rs: seq<Req>, ps: seq<Plan>, id: nat, i: nat)
    requires Distinct(ClearRefs(rs)) && i < |AddAll(ClearRefs(rs), ps, id)| && IsCie(AddAll(ClearRefs(rs), ps, id)[i])
    ensures var r := AddAll(ClearRefs(rs), ps, id)[i]; r.refCnt == multiset(ps)[r.plan]
  {
    var a := AddAll(ClearRefs(rs), ps, id);
    ClearLaws(rs, a[i].plan);
    AddAllLaws(ClearRefs(rs), ps, id, a[i].plan);
    RefsAt(a, a[i].plan, i);
  }

  lemma QuietHandle(c: Cis, u: Option<Update>, scanned: seq<Record>, force: bool)
    requires Fits(c, u) && Distinct(c.reqs) && !Effected(c, u, scanned, force)
    ensures Alike(Handle(c, u, scanned, force).reqs, c.reqs)
  {
    var d := Recorded(c, u);
    var e := d.(effective := NewEffective(d, scanned));
    if Reaches(c, u, scanned, force) {
      RebuildAlike(c.reqs, Wanted(e, scanned), c.next);
    }
  }

  // ---- when a change of the USER request is missed

  predicate Changes(s: State, c: Command, env: Env)
    requires c.ByUserCmd?
  {
    Ask(s, c, env).Wants? && UserChanges(s, Ask(s, c, env).plan)
  }

  /** The USER request was set, and the command still reports no effect. */
  predicate Missed(s: State, c: Command, scanned: seq<Record>, env: Env) {
    c.ByUserCmd? && Changes(s, c, env) && !PrehdlUser(s, c, scanned, env).effected
  }

  /** The plans that country IEs call for under the settings of `t`. */
  function NowWanted(t: State, scanned: seq<Record>, env: Env): seq<Plan> {
    var c := t.cis.(enabled := ShouldEnable(t, env));
    Wanted(c.(effective := NewEffective(c, scanned)), scanned)
  }

  lemma HoldsNone(rs: seq<Req>)
    requires Holds(rs, multiset{})
    ensures forall r :: r in rs ==> !IsCie(r)
  {
    forall r | r in rs ensures !IsCie(r) {
      HoldsMeans(rs, multiset{}, r.plan);
      assert IsCie(r) ==> Same(r, r.plan);
    }
  }

  /** A handling that is forced, or that switches the feature on or off, has an effect exactly when the list
      is not the wanted one: its exits skip no rebuild that would alter the list. */
  lemma EffectIff(c: Cis, scanned: seq<Record>, force: bool, was: bool)
    requires force || (was != c.enabled && Right(c, was))
    ensures Effected(c, None, scanned, force) <==> Alters(c.reqs, Wanted(c.(effective := NewEffective(c, scanned)), scanned))
  {
    if !Reaches(c, None, scanned, force) {
      HoldsNone(c.reqs);
      assert Wanted(c.(effective := NewEffective(c, scanned)), scanned) == [];
    }
  }

  /** A new USER request goes unapplied exactly when no other setting is waiting to take effect, the command
      changes the country flags or switches the following of country IEs on or off, and the requests then
      called for are those already in the list. */
  lemma MissedIff(s: State, c: Command, scanned: seq<Record>, env: Env)
    requires Inv(s, env) && c.ByUserCmd?
    ensures Missed(s, c, scanned, env) <==>
            && Changes(s, c, env)
            && var (t, left, _) := UserFirst(s, c, env);
            && !Pending(left.(mode := None, flags := None))
            && (left.flags.Some? || ShouldEnable(t, env) != s.cis.enabled)
            && !Alters(Reqs(t), NowWanted(t, scanned, env))
  {
    if Changes(s, c, env) {
      FirstKeeps(s, c, env);
      var (t, left, _) := UserFirst(s, c, env);
      var u := t.(cis := t.cis.(enabled := ShouldEnable(t, env)));
      if left.flags.Some? || u.cis.enabled != s.cis.enabled {
        EffectIff(u.cis, scanned, left.mode.Some? || left.flags.Some?, s.cis.enabled);
      }
    }
  }

  // ---- what a missed request leaves behind

  /** The selection would leave the list as it is with the new USER plan in it: a new request that would not
      apply, or an old one whose new plan gives the present summary. */
  predicate FollowsAnyway(s: State, p: Plan) {
    var rs := Reqs(SetUser(s, p));
    rs != [] && Selected(rs).Some? &&
    var (src, inr) := Selected(rs).value;
    if s.user.None? then !Applies(rs[|rs| - 1], src, inr, s.always) else Summed(rs, src, inr, s.always, |rs|) == Some(s.sum)
  }

  lemma {:induction false} PrefixSame(a: seq<Req>, r: Req, n: nat, src: Src, inr: Inr, x: Always)
    requires n <= |a|
    ensures TopSrc(a + [r], n) == TopSrc(a, n) && TopInr(a + [r], src, n) == TopInr(a, src, n)
    ensures Summed(a + [r], src, inr, x, n) == Summed(a, src, inr, x, n)
  {
    if n > 0 { PrefixSame(a, r, n - 1, src, inr, x); }
  }

  /** Appending a request of the driver's own source that does not come out on top. */
  lemma SnocSelected(rs: seq<Req>, r: Req)
    requires rs != [] && r.src == RtkPriv && Selected(rs + [r]).Some? && Selected(rs + [r]).value.1 != r.inr
    ensures Selected(rs).Some? && Selected(rs + [r]) == Selected(rs)
  {
    var q := rs + [r];
    SelectedTop(q);
    SelectedTop(rs);
    PrefixSame(rs, r, |rs|, RtkPriv, ByInit, Always(false, false));
    PrefixSame(rs, r, |rs|, Os, ByInit, Always(false, false));
  }

  lemma NewUserSync(s: State, p: Plan)
    requires InSync(s) && s.user.None?
    ensures InSync(SetUser(s, p)) <==> FollowsAnyway(s, p)
  {
    var rs := Reqs(s);
    var r := Req(s.cis.next, RtkPriv, ByUser, p, 0, false);
    var q := rs + [r];
    assert Reqs(SetUser(s, p)) == q && q[|rs|] == r;
    SelectedTop(q);
    var (src, inr) := Selected(q).value;
    if !Applies(r, src, inr, s.always) {
      if inr != ByUser { SnocSelected(rs, r); }
      PrefixSame(rs, r, |rs|, src, inr, s.always);
      assert forall i :: 0 <= i < |rs| ==> q[i] == rs[i];
    }
  }

  /** Only the plans differ. */
  ghost predicate Replanned(a: seq<Req>, b: seq<Req>) {
    |a| == |b| && forall i :: 0 <= i < |a| ==> a[i].src == b[i].src && a[i].inr == b[i].inr && a[i].applied == b[i].applied
  }

  lemma {:induction false} TopReplanned(a: seq<Req>, b: seq<Req>, n: nat, src: Src)
    requires Replanned(a, b) && n <= |a|
    ensures TopSrc(a, n) == TopSrc(b, n) && TopInr(a, src, n) == TopInr(b, src, n)
  {
    if n > 0 { TopReplanned(a, b, n - 1, src); }
  }

  lemma OldUserSync(s: State, p: Plan)
    requires InSync(s) && s.user.Some?
    ensures InSync(SetUser(s, p)) <==> FollowsAnyway(s, p)
  {
    var rs, q := Reqs(s), Reqs(SetUser(s, p));
    ReplanAt(rs, s.user.value, p);
    TopReplanned(rs, q, |rs|, RtkPriv);
    TopReplanned(rs, q, |rs|, Os);
    var (src, inr) := Selected(rs).value;
    assert forall i :: 0 <= i < |rs| ==> Applies(q[i], src, inr, s.always) == Applies(rs[i], src, inr, s.always);
  }

  /** With no COUNTRY_IE request the missed request would apply. */
  lemma NewUserIsTop(rs: seq<Req>, n: nat)
    requires n < |rs| && rs[n].inr == ByUser && AllRtk(rs) && forall i :: 0 <= i < |rs| ==> !IsCie(rs[i])
    ensures Selected(rs) == Some((RtkPriv, ByUser))
  {
    SelectedTop(rs);
    var (src, inr) := Selected(rs).value;
    assert rs[n] in rs;
    var r :| r in rs && r.src == src && r.inr == inr;
    var i :| 0 <= i < |rs| && rs[i] == r;
  }

  // ---- the same with no COUNTRY_IE request about

  /** The summary of a USER plan, alone or with the INIT plan. */
  function PlainSummary(init: Plan, user: Plan, always: Always): Summary {
    if !always.init then Summary(RtkPriv, {ByUser}, user.alpha2, user.domain, user.proto)
    else
      Summary(RtkPriv, {ByInit, ByUser},
              if init.alpha2 == user.alpha2 && init.domain == user.domain then user.alpha2 else INTERSECTED_ALPHA2,
              if init.domain == user.domain then user.domain else UNSPECIFIED,
              init.proto * user.proto)
  }

  /** Then the list is INIT and USER: a first USER request is always left behind, and overwriting one leaves
      the summary right exactly when the new plan, with INIT's where that always applies, amounts to it. */
  lemma PlainFollows(s: State, p: Plan, init: Req)
    requires Shape(s) && AllRtk(Reqs(s)) && (forall r :: r in Reqs(s) ==> !IsCie(r))
    requires init in Reqs(s) && init.inr == ByInit
    ensures FollowsAnyway(s, p) <==> s.user.Some? && s.sum == PlainSummary(init.plan, p, s.always)
  {
    if s.user.None? {
      PlainFirst(s, p);
    } else {
      PlainOverwrite(s, p, init);
    }
  }

  lemma PlainFirst(s: State, p: Plan)
    requires Shape(s) && AllRtk(Reqs(s)) && (forall r :: r in Reqs(s) ==> !IsCie(r)) && s.user.None?
    ensures !FollowsAnyway(s, p)
  {
    var rs := Reqs(s);
    var q := Reqs(SetUser(s, p));
    SetUserShape(s, p);
    assert forall i :: 0 <= i < |rs| ==> q[i] == rs[i] && rs[i] in rs;
    NewUserIsTop(q, |rs|);
  }

  lemma PlainOverwrite(s: State, p: Plan, init: Req)
    requires Shape(s) && AllRtk(Reqs(s)) && (forall r :: r in Reqs(s) ==> !IsCie(r)) && s.user.Some?
    requires init in Reqs(s) && init.inr == ByInit
    ensures FollowsAnyway(s, p) <==> s.sum == PlainSummary(init.plan, p, s.always)
  {
    var rs := Reqs(s);
    var q := Reqs(SetUser(s, p));
    SetUserShape(s, p);
    OnlyTwo(rs);
    InitAndUser(rs);
    ReplanTwo(rs, s.user.value, p);
    assert forall i :: 0 <= i < |q| ==> q[i] in q;
    NewUserIsTop(q, if q[0].inr == ByUser then 0 else 1);
    TwoSummed(q, s.always);
  }

  lemma InitAndUser(rs: seq<Req>)
    requires |rs| == 2 && Count(rs, ByInit) == 1 && Count(rs, ByUser) == 1
    ensures (rs[0].inr == ByInit && rs[1].inr == ByUser) || (rs[0].inr == ByUser && rs[1].inr == ByInit)
  {
    assert rs[1..] == [rs[1]] && rs[1..][1..] == [];
    assert Count(rs, ByUser) == Count([rs[0]], ByUser) + Count([rs[1]], ByUser);
    assert Count(rs, ByInit) == Count([rs[0]], ByInit) + Count([rs[1]], ByInit);
  }

  lemma {:induction false} OnlyTwo(rs: seq<Req>)
    requires AllRtk(rs) && forall r :: r in rs ==> !IsCie(r)
    ensures Count(rs, ByInit) + Count(rs, ByUser) == |rs|
  {
    if rs != [] {
      assert rs[0] in rs && Rtk(rs[0]);
      OnlyTwo(rs[1..]);
    }
  }

  lemma ReplanTwo(rs: seq<Req>, id: nat, p: Plan)
    requires |rs| == 2 && (rs[0].inr == ByInit || rs[0].inr == ByUser) && (rs[0].inr == ByUser <==> rs[1].inr == ByInit)
    requires rs[1].inr == ByInit || rs[1].inr == ByUser
    requires forall r :: r in rs ==> (r.id == id <==> r.inr == ByUser)
    ensures var q := Replan(rs, id, p);
            if rs[0].inr == ByUser then q == [rs[0].(plan := p), rs[1]] else q == [rs[0], rs[1].(plan := p)]
  {
    assert rs[0] in rs && rs[1] in rs && rs[1..] == [rs[1]] && rs[1..][1..] == [];
  }

  lemma TwoSummed(q: seq<Req>, always: Always)
    requires |q| == 2 && q[0].src == RtkPriv && q[1].src == RtkPriv
    requires (q[0].inr == ByInit && q[1].inr == ByUser) || (q[0].inr == ByUser && q[1].inr == ByInit)
    ensures var (i, u) := if q[0].inr == ByInit then (q[0], q[1]) else (q[1], q[0]);
            Summed(q, RtkPriv, ByUser, always, 2) == Some(PlainSummary(i.plan, u.plan, always))
  {
    assert Summed(q, RtkPriv, ByUser, always, 0) == None;
    var s1 := Summed(q, RtkPriv, ByUser, always, 1);
    var r := Summed(q, RtkPriv, ByUser, always, 2);
    assert {q[0].inr} + {q[1].inr} == {ByInit, ByUser};
    assert q[0].plan.proto * q[1].plan.proto == q[1].plan.proto * q[0].plan.proto;
  }

  // ---- nothing else is missed

  /** A switch whose bit was dropped decides nothing on this list. */
  lemma SwitchesDecideNothing(s: State, f: Confs, i: nat)
    requires Shape(s) && AllRtk(Reqs(s)) && s.sum.src == RtkPriv && i < |Reqs(s)|
    requires Remaining(s, f).initAlways.None? && Remaining(s, f).userAlways.None?
    ensures Selected(Reqs(s)).Some?
    ensures var (src, inr) := Selected(Reqs(s)).value;
            Applies(Reqs(s)[i], src, inr, Configure(s, f).always) == Applies(Reqs(s)[i], src, inr, s.always)
  {
    var rs := Reqs(s);
    SelectedTop(rs);
    var (src, inr) := Selected(rs).value;
    assert rs[i] in rs;
    if Configure(s, f).always.init != s.always.init {
      assert rs == [rs[0]] && rs[0] in rs;
    }
    if Configure(s, f).always.user != s.always.user {
      if s.user.None? {
        CountZero(rs, ByUser);
      } else {
        TwoRequests(rs);
      }
    }
  }

  lemma TwoRequests(rs: seq<Req>)
    requires |rs| == 2 && Count(rs, ByInit) == 1 && Count(rs, ByUser) == 1 && AllRtk(rs)
    ensures Selected(rs) == Some((RtkPriv, ByUser))
  {
    assert rs[1..] == [rs[1]] && rs[1..][1..] == [];
    assert Count(rs, ByUser) == Count([rs[0]], ByUser) + Count([rs[1]], ByUser);
    assert Count(rs, ByInit) == Count([rs[0]], ByInit) + Count([rs[1]], ByInit);
    NewUserIsTop(rs, if rs[0].inr == ByUser then 0 else 1);
  }

  lemma SettingsSync(s: State, f: Confs)
    requires Shape(s) && AllRtk(Reqs(s)) && s.sum.src == RtkPriv
    requires Remaining(s, f).initAlways.None? && Remaining(s, f).userAlways.None?
    ensures InSync(s) <==> InSync(Configure(s, f))
  {
    CountZero(Reqs(s), ByInit);
    SelectedTop(Reqs(s));
    forall i | 0 <= i < |Reqs(s)|
      ensures var (src, inr) := Selected(Reqs(s)).value;
              Applies(Reqs(s)[i], src, inr, Configure(s, f).always) == Applies(Reqs(s)[i], src, inr, s.always)
    {
      SwitchesDecideNothing(s, f, i);
    }
    SyncSame(s, Configure(s, f));
  }

  lemma HandleSync(s: State, u: Option<Update>, scanned: seq<Record>, force: bool)
    requires Reqs(s) != [] && Fits(s.cis, u) && Distinct(Reqs(s)) && !Effected(s.cis, u, scanned, force)
    ensures InSync(s) <==> InSync(WithCis(s, Handle(s.cis, u, scanned, force)))
  {
    QuietHandle(s.cis, u, scanned, force);
    SelectedTop(Reqs(s));
    SyncSame(s, WithCis(s, Handle(s.cis, u, scanned, force)));
  }

  /** The USER request after a command: set anew, overwritten or as it was. */
  function AfterUser(s: State, c: Command, env: Env): State
    requires c.ByUserCmd?
  {
    if Changes(s, c, env) then SetUser(s, Ask(s, c, env).plan) else s
  }

  /** A USER command that reports no effect keeps the state as far in sync as its request leaves it. */
  lemma UserSync(s: State, c: Command, scanned: seq<Record>, env: Env)
    requires Inv(s, env) && c.ByUserCmd? && !PrehdlUser(s, c, scanned, env).effected
    ensures InSync(PrehdlUser(s, c, scanned, env).state) <==> InSync(AfterUser(s, c, env))
  {
    var ask, s1 := Ask(s, c, env), AfterUser(s, c, env);
    FirstKeeps(s, c, env);
    var (t, left, changes) := UserFirst(s, c, env);
    if ask.Wants? {
      SetUserShape(s, ask.plan);
    }
    assert left.initAlways.None? && left.userAlways.None?;
    if !ask.Rejected? {
      SettingsSync(s1, c.confs);
    }
    if changes || Pending(left) {
      SecondSync(t, s.cis.enabled, left, scanned, env);
    }
  }

  lemma SecondSync(t: State, was: bool, left: Confs, scanned: seq<Record>, env: Env)
    requires Ready(t, was, left) && !UserSecond(t, was, left, scanned, env).effected
    ensures InSync(UserSecond(t, was, left, scanned, env).state) <==> InSync(t)
  {
    var u := t.(cis := t.cis.(enabled := ShouldEnable(t, env)));
    CountZero(Reqs(t), ByInit);
    HandleSync(u, None, scanned, left.mode.Some? || left.flags.Some?);
  }

  /** After a Realtek-source command the marks and the summary are those of the list if and only if the
      command was not missed, or the selection would have left the list as it is. */
  lemma SyncIff(s: State, c: Command, scanned: seq<Record>, env: Env)
    requires Inv(s, env) && InSync(s) && Realtek(s, c)
    ensures InSync(Step(s, c, scanned, env)) <==>
            !Missed(s, c, scanned, env) || FollowsAnyway(s, Ask(s, c, env).plan)
  {
    var o := Prehdl(s, c, scanned, env);
    if o.effected {
      if c.ByUserCmd? { UserKeeps(s, c, scanned, env); } else { CountryIeKeeps(s, c, scanned, env); }
      CountZero(Reqs(o.state), ByInit);
      ReselectSyncs(o.state, env);
    } else if c.ByUserCmd? {
      UserSync(s, c, scanned, env);
      if Changes(s, c, env) {
        var p := Ask(s, c, env).plan;
        if s.user.None? { NewUserSync(s, p); } else { OldUserSync(s, p); }
      }
    } else {
      HandleSync(s, c.update, scanned, false);
    }
  }
}
