/**
 The request list and the per-link records as the driver keeps them: fields of
 `struct rf_ctl_t` updated in place by loops (core/rtw_chplan.c). Every method
 is tied to the functions of Requests, CountryIe, Selection and Regulatory.
 */
module RfControl {
  import opened Options
  import opened Seqs
  import opened Requests
  import opened CountryIe
  import opened Selection
  import opened Regulatory
  import opened ListShape

  // ---- the list loops, one step at a time

  lemma {:induction false} AddCieAt(rs: seq<Req>, p: Plan, id: nat, i: nat)
    requires i <= |rs| && (forall k :: 0 <= k < i ==> !Same(rs[k], p)) && (i < |rs| ==> Same(rs[i], p))
    ensures AddCie(rs, p, id) == if i == |rs| then rs + [Req(id, RtkPriv, ByCountryIe, p, 1, false)]
                                 else rs[i := rs[i].(refCnt := rs[i].refCnt + 1)]
    ensures HasPlan(rs, p) <==> i < |rs|
  {
    if rs != [] {
      HeadTail(rs);
      if i > 0 {
        AddCieAt(rs[1..], p, id, i - 1);
        assert forall r :: r in rs <==> r == rs[0] || r in rs[1..];
      } else {
        assert rs[0] in rs;
      }
    }
  }

  lemma AddAllSnoc(rs: seq<Req>, ps: seq<Plan>, p: Plan, id: nat)
    ensures AddAll(rs, ps + [p], id) == AddCie(AddAll(rs, ps, id), p, id + |ps|)
    decreases |ps|
  {
    if ps == [] {
      EmptyConcat([p]);
      assert [p][1..] == [];
    } else {
      TailOfConcat(ps, [p]);
      AddAllSnoc(AddCie(rs, ps[0], id), ps[1..], p, id + 1);
    }
  }

  lemma {:induction false} AddCiePlans(rs: seq<Req>, p: Plan, id: nat, q: Plan)
    ensures HasPlan(AddCie(rs, p, id), q) <==> HasPlan(rs, q) || q == p
  {
    if rs == [] {
      assert AddCie(rs, p, id)[0] in AddCie(rs, p, id);
    } else {
      var a := AddCie(rs, p, id);
      assert forall r :: r in rs <==> r == rs[0] || r in rs[1..];
      if Same(rs[0], p) {
        assert a == [a[0]] + rs[1..] && a[0] in a;
        assert rs[0] in rs && forall r :: r in a <==> r == a[0] || r in rs[1..];
      } else {
        AddCiePlans(rs[1..], p, id, q);
        assert forall r :: r in a <==> r == rs[0] || r in AddCie(rs[1..], p, id);
      }
    }
  }

  lemma {:induction false} AddAllPlans(rs: seq<Req>, ps: seq<Plan>, id: nat, q: Plan)
    ensures HasPlan(AddAll(rs, ps, id), q) <==> HasPlan(rs, q) || q in ps
    decreases |ps|
  {
    if ps != [] {
      AddCiePlans(rs, ps[0], id, q);
      AddAllPlans(AddCie(rs, ps[0], id), ps[1..], id + 1, q);
    }
  }

  lemma ClearPlans(rs: seq<Req>, q: Plan)
    ensures HasPlan(ClearRefs(rs), q) <==> HasPlan(rs, q)
  {
    ClearLaws(rs, q);
    var c := ClearRefs(rs);
    if HasPlan(rs, q) {
      var i :| 0 <= i < |rs| && Same(rs[i], q);
      assert c[i] in c;
    }
    if HasPlan(c, q) {
      var i :| 0 <= i < |c| && Same(c[i], q);
      assert rs[i] in rs;
    }
  }

  lemma {:induction false} DropLength(rs: seq<Req>)
    ensures |DropZero(rs)| <= |rs|
    ensures |DropZero(rs)| < |rs| <==> exists r :: r in rs && IsCie(r) && r.refCnt == 0
  {
    if rs != [] {
      DropLength(rs[1..]);
      assert rs[0] in rs && forall r :: r in rs <==> r == rs[0] || r in rs[1..];
    }
  }

  /** The two results the code collects, a request added or one deleted, say together that the rebuild
      altered the list. */
  lemma AltersLaw(rs: seq<Req>, ps: seq<Plan>, id: nat)
    requires Distinct(rs)
    ensures var a := AddAll(ClearRefs(rs), ps, id);
            Alters(rs, ps) <==> (exists p :: p in ps && !HasPlan(ClearRefs(rs), p)) || |DropZero(a)| < |a|
  {
    var c := ClearRefs(rs);
    var a := AddAll(c, ps, id);
    DropLength(a);
    forall q ensures HasPlan(c, q) <==> HasPlan(rs, q) { ClearPlans(rs, q); }
    if r :| r in rs && IsCie(r) && r.plan !in ps {
      Unreferenced(rs, ps, id, r);
    }
    if r :| r in a && IsCie(r) && r.refCnt == 0 {
      Dropped(rs, ps, id, r);
    }
  }

  lemma Unreferenced(rs: seq<Req>, ps: seq<Plan>, id: nat, r: Req)
    requires Distinct(rs) && r in rs && IsCie(r) && r.plan !in ps
    ensures exists o :: o in AddAll(ClearRefs(rs), ps, id) && IsCie(o) && o.refCnt == 0
  {
    var c := ClearRefs(rs);
    ClearLaws(rs, r.plan);
    ClearPlans(rs, r.plan);
    AddAllLaws(c, ps, id, r.plan);
    AddAllPlans(c, ps, id, r.plan);
    var a := AddAll(c, ps, id);
    var o :| o in a && Same(o, r.plan);
    var i :| 0 <= i < |a| && a[i] == o;
    RefsAt(a, r.plan, i);
  }

  lemma Dropped(rs: seq<Req>, ps: seq<Plan>, id: nat, r: Req)
    requires Distinct(rs) && r in AddAll(ClearRefs(rs), ps, id) && IsCie(r) && r.refCnt == 0
    ensures exists o :: o in rs && IsCie(o) && o.plan !in ps
  {
    var c := ClearRefs(rs);
    ClearLaws(rs, r.plan);
    ClearPlans(rs, r.plan);
    AddAllLaws(c, ps, id, r.plan);
    AddAllPlans(c, ps, id, r.plan);
    var a := AddAll(c, ps, id);
    var i :| 0 <= i < |a| && a[i] == r;
    RefsAt(a, r.plan, i);
    assert HasPlan(a, r.plan);
    var o :| o in rs && Same(o, r.plan);
  }

  lemma PlansSnoc(rs: seq<Record>, i: nat)
    requires i < |rs|
    ensures Plans(rs[..i + 1]) == if rs[i].status == NoCountry then Plans(rs[..i]) else Plans(rs[..i]) + [rs[i].plan]
  {
    TakeSnoc(rs, i);
    PlansConcat(rs[..i], [rs[i]]);
    assert [rs[i]][1..] == [];
    EmptyConcat(Plans(rs[..i]));
    EmptyConcat([rs[i].plan]);
  }

  // ---- search loops that change nothing

  method FindPlan(rs: seq<Req>, p: Plan) returns (i: nat)
    ensures i <= |rs| && (forall k :: 0 <= k < i ==> !Same(rs[k], p)) && (i < |rs| ==> Same(rs[i], p))
  {
    i := 0;
    while i < |rs| && !Same(rs[i], p)
      invariant i <= |rs| && forall k :: 0 <= k < i ==> !Same(rs[k], p)
    {
      i := i + 1;
    }
  }

  /** The loop of the selection: the record it ends with. */
  method Choose(rs: seq<Record>, was: Option<Record>) returns (e: Option<Record>)
    ensures e == Select(rs, was, |rs|)
  {
    e := None;
    for i := 0 to |rs|
      invariant e == Select(rs, was, i)
    {
      if rs[i].status != NoCountry && (e.None? || Prefer(rs[i], e.value, was)) { e := Some(rs[i]); }
    }
  }

  /** The first two loops of rtw_rfctl_regd_req_sel_and_status_update. */
  method Decide(rs: seq<Req>) returns (top: Option<(Src, Inr)>)
    ensures top == Selected(rs)
  {
    var src: Option<Src>, inr: Option<Inr> := None, None;
    for i := 0 to |rs|
      invariant src == TopSrc(rs, i)
    {
      if src.None? || SrcRank(rs[i].src) > SrcRank(src.value) { src := Some(rs[i].src); }
    }
    if src.None? { return None; }
    for i := 0 to |rs|
      invariant inr == TopInr(rs, src.value, i)
    {
      if rs[i].src == src.value && (inr.None? || InrRank(rs[i].inr) > InrRank(inr.value)) { inr := Some(rs[i].inr); }
    }
    if inr.None? { return None; }
    top := Some((src.value, inr.value));
  }

  class RfCtl {
    var reqs: seq<Req>
    var num: nat
    var userReq: Option<nat>
    var next: nat
    const cisr: array<Record>
    var effective: Option<Record>
    var cisEnabled: bool
    var cisFlags: Flags
    var cisMode: nat
    var always: Always
    var sum: Summary
    var disFlags: set<nat>
    var exclChs: seq<nat>
    const initPlan: Plan

    function CisView(): Cis
      reads this, cisr
    {
      Cis(cisEnabled, cisFlags, cisr[..], effective, reqs, next)
    }

    function View(): State
      reads this, cisr
    {
      State(CisView(), num, initPlan, userReq, cisMode, always, sum, disFlags, exclChs)
    }

    /** rtw_rfctl_decide_init_chplan: the INIT request, alone and applied. */
    constructor (p: Plan, mode: nat, flags: Flags, al: Always, n: nat, dis: set<nat>, excl: seq<nat>, env: Env)
      ensures View() == Initial(p, mode, flags, al, n, dis, excl, env) && fresh(cisr)
    {
      var r := Req(0, RtkPriv, ByInit, p, 0, true);
      reqs, num, userReq, next := [r], 1, None, 1;
      cisr := new Record[n](_ => BLANK);
      effective, cisFlags, cisMode, always := None, flags, if mode < 3 then mode else 0, al;
      sum := Join(None, r);
      disFlags, exclChs, initPlan := dis, excl, p;
      cisEnabled := false;
      new;
      assert cisr[..] == seq(n, i => BLANK);
      UpdateEnabled(env);
    }

    /** rtw_rfctl_update_cis_enabled */
    method UpdateEnabled(env: Env)
      modifies this`cisEnabled
      ensures cisEnabled == ShouldEnable(old(View()), env)
    {
      var world := initPlan;
      if userReq.Some? { world := PlanOf(reqs, userReq.value); }
      cisEnabled := sum.src == RtkPriv && !env.disableSw
        && (cisMode == MODE_ENABLE || (cisMode == MODE_ENABLE_WW && world.alpha2 == WORLDWIDE_ALPHA2));
    }

    /** rtw_regd_req_list_clear_ref_cnt_by_inr */
    method ClearRefCnt()
      modifies this`reqs
      ensures reqs == ClearRefs(old(reqs)) && |reqs| == |old(reqs)|
    {
      var i := 0;
      while i < |reqs|
        invariant i <= |reqs| == |old(reqs)|
        invariant forall k :: 0 <= k < i ==> reqs[k] == if IsCie(old(reqs)[k]) then old(reqs)[k].(refCnt := 0) else old(reqs)[k]
        invariant forall k :: i <= k < |reqs| ==> reqs[k] == old(reqs)[k]
      {
        if IsCie(reqs[i]) { reqs := reqs[i := reqs[i].(refCnt := 0)]; }
        i := i + 1;
      }
      ClearLaws(old(reqs), NO_PLAN);
    }

    /** rtw_regd_req_list_clear_zero_ref_req_by_inr: nodes are unlinked as the walk meets them. */
    method ClearZeroRef() returns (del: bool)
      requires num == |reqs|
      modifies this`reqs, this`num
      ensures reqs == DropZero(old(reqs)) && num == |reqs|
      ensures del <==> |reqs| < |old(reqs)|
    {
      del := false;
      var i := 0;
      while i < |reqs|
        invariant i <= |reqs| == num && |reqs| <= |old(reqs)|
        invariant reqs[..i] + DropZero(reqs[i..]) == DropZero(old(reqs))
        invariant del <==> |reqs| < |old(reqs)|
        decreases |reqs| - i
      {
        if IsCie(reqs[i]) && reqs[i].refCnt == 0 {
          Unlink(reqs, i);
          reqs, num, del := reqs[..i] + reqs[i + 1..], num - 1, true;
        } else {
          KeepNode(reqs, i);
          i := i + 1;
        }
      }
      assert reqs[..i] == reqs && reqs[i..] == [];
    }

    /** rtw_regd_req_list_add_country_ie_req */
    method AddCountryIeReq(p: Plan) returns (insert: bool)
      requires num == |reqs|
      modifies this`reqs, this`num, this`next
      ensures reqs == AddCie(old(reqs), p, old(next)) && num == |reqs| && next == old(next) + 1
      ensures insert <==> !HasPlan(old(reqs), p)
    {
      var i := FindPlan(reqs, p);
      AddCieAt(reqs, p, next, i);
      insert := i == |reqs|;
      if insert {
        reqs, num := reqs + [Req(next, RtkPriv, ByCountryIe, p, 1, false)], num + 1;
      } else {
        reqs := reqs[i := reqs[i].(refCnt := reqs[i].refCnt + 1)];
      }
      next := next + 1;
    }

    /** rtw_regd_req_list_add_country_ie_req_from_per_link_cisr and its scanned-network twin. */
    method AddFromRecords(rs: seq<Record>) returns (effected: bool)
      requires num == |reqs|
      modifies this`reqs, this`num, this`next
      ensures reqs == AddAll(old(reqs), Plans(rs), old(next)) && num == |reqs| && next == old(next) + |Plans(rs)|
      ensures effected <==> exists p :: p in Plans(rs) && !HasPlan(old(reqs), p)
    {
      effected := false;
      for i := 0 to |rs|
        invariant reqs == AddAll(old(reqs), Plans(rs[..i]), old(next)) && num == |reqs| && next == old(next) + |Plans(rs[..i])|
        invariant effected <==> exists p :: p in Plans(rs[..i]) && !HasPlan(old(reqs), p)
      {
        PlansSnoc(rs, i);
        if rs[i].status != NoCountry {
          AddAllSnoc(old(reqs), Plans(rs[..i]), rs[i].plan, old(next));
          AddAllPlans(old(reqs), Plans(rs[..i]), old(next), rs[i].plan);
          var inserted := AddCountryIeReq(rs[i].plan);
          effected := effected || inserted;
        }
      }
      assert rs[..|rs|] == rs;
    }

    /** rtw_chplan_update_per_link_cisr over the slots lo..hi */
    method UpdatePerLink(lo: nat, hi: nat, r: Record) returns (effected: bool)
      requires lo <= hi <= cisr.Length
      modifies cisr
      ensures cisr[..] == Store(old(cisr[..]), lo, hi, r)
      ensures effected == Matters(old(CisView()), lo, hi, r)
    {
      var same := MatchAll(lo, hi, r);
      if same {
        StoreAt(cisr[..], lo, hi, r);
        return false;
      }
      var differ := PlanDiffers(lo, hi, r);
      for i := lo to hi
        invariant forall k :: 0 <= k < cisr.Length ==> cisr[k] == if lo <= k < i then r else old(cisr[..])[k]
      {
        cisr[i] := r;
      }
      StoreAt(old(cisr[..]), lo, hi, r);
      effected := !cisFlags.intersect || differ;
    }

    /** Its first loop. */
    method MatchAll(lo: nat, hi: nat, r: Record) returns (same: bool)
      requires lo <= hi <= cisr.Length
      ensures same <==> forall k :: lo <= k < hi ==> cisr[k] == r
    {
      var i := lo;
      while i < hi && cisr[i] == r
        invariant lo <= i <= hi && forall k :: lo <= k < i ==> cisr[k] == r
      {
        i := i + 1;
      }
      same := i >= hi;
    }

    /** The comparison with the saved records. */
    method PlanDiffers(lo: nat, hi: nat, r: Record) returns (differ: bool)
      requires lo <= hi <= cisr.Length
      ensures differ <==> exists k :: lo <= k < hi && cisr[k].plan != r.plan
    {
      var i := lo;
      while i < hi && cisr[i].plan == r.plan
        invariant lo <= i <= hi && forall k :: lo <= k < i ==> cisr[k].plan == r.plan
      {
        i := i + 1;
      }
      differ := i < hi;
    }

    /** rtw_chplan_update_effected_cisr */
    method UpdateEffected(scanned: seq<Record>) returns (changed: bool)
      modifies this`effective
      ensures effective == NewEffective(old(CisView()), scanned)
      ensures changed == !SamePlan(old(effective), effective)
    {
      var e: Option<Record> := None;
      if cisEnabled && !cisFlags.intersect {
        if cisFlags.envBss {
          e := Choose(scanned, effective);
        } else {
          e := Choose(cisr[..], effective);
        }
      }
      changed := effective.Some? != e.Some?;
      if effective.Some? && e.Some? { changed := effective.value.plan != e.value.plan; }
      effective := e;
    }

    /** The rebuild at the end of rtw_chplan_rtk_priv_req_prehdl_country_ie. */
    method RebuildReqs(scanned: seq<Record>) returns (effected: bool)
      requires num == |reqs| && Distinct(reqs)
      modifies this`reqs, this`num, this`next
      ensures CisView() == Rebuilt(old(CisView()), scanned) && num == |reqs|
      ensures effected == Alters(old(reqs), Wanted(old(CisView()), scanned))
    {
      ghost var ps, was, id := Wanted(CisView(), scanned), reqs, next;
      ClearRefCnt();
      var added := AddWanted(scanned, ps);
      var del := ClearZeroRef();
      effected := added || del;
      AltersLaw(was, ps, id);
    }

    method AddWanted(scanned: seq<Record>, ghost ps: seq<Plan>) returns (effected: bool)
      requires num == |reqs| && ps == Wanted(CisView(), scanned)
      modifies this`reqs, this`num, this`next
      ensures reqs == AddAll(old(reqs), ps, old(next)) && num == |reqs| && next == old(next) + |ps|
      ensures effected <==> exists p :: p in ps && !HasPlan(old(reqs), p)
    {
      effected := false;
      if cisEnabled {
        if cisFlags.intersect {
          if cisFlags.envBss {
            effected := AddFromRecords(scanned);
          } else {
            effected := AddFromRecords(cisr[..]);
          }
        } else if effective.Some? {
          assert ps == [effective.value.plan] && ps[1..] == [];
          effected := AddCountryIeReq(effective.value.plan);
          assert ps[0] in ps;
        }
      }
    }

    /** rtw_chplan_rtk_priv_req_prehdl_country_ie; `force` is a change of mode or flags still to take effect,
        and `done` whether it has taken effect now. */
    method CountryIe(u: Option<Update>, scanned: seq<Record>, force: bool) returns (effected: bool, done: bool)
      requires num == |reqs| && Distinct(reqs) && Fits(CisView(), u)
      modifies this`reqs, this`num, this`next, this`effective, cisr
      ensures CisView() == Handle(old(CisView()), u, scanned, force) && num == |reqs|
      ensures effected == Effected(old(CisView()), u, scanned, force)
      ensures done == Reaches(old(CisView()), u, scanned, force)
    {
      effected, done := false, false;
      if u.Some? {
        var matters := UpdatePerLink(u.value.lo, u.value.hi, u.value.rec);
        if !matters && !force { return; }
      }
      var changed := UpdateEffected(scanned);
      if !changed && !cisFlags.intersect && !force { return; }
      effected := RebuildReqs(scanned);
      done := true;
    }

    /** The USER request of rtw_chplan_rtk_priv_req_prehdl_user: allocated once, then overwritten. */
    method UserReq(p: Plan) returns (effected: bool)
      modifies this`reqs, this`num, this`next, this`userReq
      ensures effected == UserChanges(old(View()), p)
      ensures View() == if effected then SetUser(old(View()), p) else old(View())
    {
      effected := false;
      if userReq.None? {
        reqs, num, userReq, next := reqs + [Req(next, RtkPriv, ByUser, p, 0, false)], num + 1, Some(next), next + 1;
        effected := true;
      } else if PlanOf(reqs, userReq.value) != p {
        reqs := Replan(reqs, userReq.value, p);
        effected := true;
      }
    }

    /** rtw_chplan_rtk_priv_req_prehdl_confs, setting by setting */
    method SetConfs(f: Confs) returns (left: Confs)
      modifies this`disFlags, this`exclChs, this`always, this`cisMode, this`cisFlags
      ensures View() == Configure(old(View()), f) && left == Remaining(old(View()), f)
    {
      var dis, excl := SetLists(f);
      var init, user := SetAlways(f);
      var mode, flags := SetCis(f);
      left := Confs(dis, excl, f.excl6g, init, user, mode, flags, false);
    }

    method SetLists(f: Confs) returns (dis: Option<set<nat>>, excl: Option<seq<nat>>)
      modifies this`disFlags, this`exclChs
      ensures disFlags == Configure(old(View()), f).disFlags && exclChs == Configure(old(View()), f).exclChs
      ensures dis == Remaining(old(View()), f).disFlags && excl == Remaining(old(View()), f).exclChs
    {
      dis, excl := f.disFlags, f.exclChs;
      if dis.Some? {
        if disFlags != dis.value { disFlags := dis.value; } else { dis := None; }
      }
      if excl.Some? {
        if exclChs != excl.value { exclChs := excl.value; } else { excl := None; }
      }
    }

    method SetAlways(f: Confs) returns (init: Option<bool>, user: Option<bool>)
      modifies this`always
      ensures always == Configure(old(View()), f).always
      ensures init == Remaining(old(View()), f).initAlways && user == Remaining(old(View()), f).userAlways
    {
      init, user := f.initAlways, f.userAlways;
      if init.Some? {
        var changed := always.init != init.value;
        always := always.(init := init.value);
        if !changed || sum.src != RtkPriv || num == 1 { init := None; }
      }
      if user.Some? {
        var changed := always.user != user.value;
        always := always.(user := user.value);
        if !changed || sum.src != RtkPriv || userReq.None? || num == 2 { user := None; }
      }
    }

    method SetCis(f: Confs) returns (mode: Option<nat>, flags: Option<Flags>)
      modifies this`cisMode, this`cisFlags
      ensures cisMode == Configure(old(View()), f).mode && cisFlags == Configure(old(View()), f).cis.flags
      ensures mode == Remaining(old(View()), f).mode && flags == Remaining(old(View()), f).flags
    {
      mode, flags := f.mode, f.flags;
      if mode.Some? {
        if mode.value < 3 && cisMode != mode.value { cisMode := mode.value; } else { mode := None; }
      }
      if flags.Some? {
        if cisFlags != flags.value { cisFlags := flags.value; } else { flags := None; }
      }
    }

    /** rtw_chplan_rtk_priv_req_prehdl_user: whether anything has changed, and the settings not yet in effect */
    method UserPart(c: Command, env: Env) returns (effected: bool, left: Confs)
      requires c.ByUserCmd?
      modifies this`reqs, this`num, this`next, this`userReq, this`disFlags, this`exclChs, this`always, this`cisMode, this`cisFlags
      ensures var (t, k, changes) := UserFirst(old(View()), c, env);
              View() == t && left == k && effected == (changes || Pending(left))
    {
      var ask := Ask(View(), c, env);
      if ask.Rejected? { return Pending(c.confs), c.confs; }
      effected := false;
      if ask.Wants? { effected := UserReq(ask.plan); }
      left := SetConfs(c.confs);
      effected := effected || Pending(left);
    }

    /** The Realtek USER branch of rtw_chplan_req_prehdl */
    method User(c: Command, scanned: seq<Record>, env: Env) returns (effected: bool)
      requires c.ByUserCmd? && Shape(View()) && SomeApplied(View())
      modifies this, cisr
      ensures var o := PrehdlUser(old(View()), c, scanned, env); View() == o.state && effected == o.effected
    {
      FirstShape(View(), c, env);
      var was := cisEnabled;
      var left;
      effected, left := UserPart(c, env);
      if effected { effected := Toggle(was, left, scanned, env); }
    }

    /** Its second half: the enable status, and the country handling it may call for. */
    method Toggle(was: bool, confs: Confs, scanned: seq<Record>, env: Env) returns (effected: bool)
      requires num == |reqs| && Distinct(reqs)
      modifies this`cisEnabled, this`reqs, this`num, this`next, this`effective, cisr
      ensures var o := UserSecond(old(View()), was, confs, scanned, env); View() == o.state && effected == o.effected
    {
      ghost var t := View();
      UpdateEnabled(env);
      assert View() == t.(cis := t.cis.(enabled := ShouldEnable(t, env)));
      effected := true;
      if confs.flags.Some? || was != cisEnabled {
        var done;
        effected, done := CountryIe(None, scanned, confs.mode.Some? || confs.flags.Some?);
        effected := effected || Pending(if done then confs.(mode := None, flags := None) else confs);
      }
    }

    /** The OS branch of rtw_chplan_req_prehdl: all requests but INIT are unlinked, the new one goes in. */
    method FromOs(c: Command) returns (effected: bool)
      requires c.ByOsCmd? && num == |reqs|
      modifies this`reqs, this`num, this`next, this`userReq
      ensures var o := PrehdlOs(old(View()), c); View() == o.state && effected == o.effected
    {
      if c.inr == ByInit { return false; }
      KeepInit();
      reqs, num, next := reqs + [Req(next, Os, c.inr, c.plan, 0, false)], num + 1, next + 1;
      if c.inr == ByUser { userReq := Some(next - 1); }
      effected := true;
    }

    method KeepInit()
      requires num == |reqs|
      modifies this`reqs, this`num, this`userReq
      ensures reqs == OnlyInit(old(reqs)) && num == |reqs|
      ensures userReq == if HasUser(old(reqs)) then None else old(userReq)
    {
      ghost var was, met := reqs, false;
      var i := 0;
      while i < |reqs|
        invariant i <= |reqs| == num
        invariant reqs[..i] + OnlyInit(reqs[i..]) == OnlyInit(was)
        invariant (met || HasUser(reqs[i..])) == HasUser(was)
        invariant userReq == if met then None else old(userReq)
        decreases |reqs| - i
      {
        WalkInit(reqs, i);
        if reqs[i].inr == ByInit {
          i := i + 1;
        } else {
          if reqs[i].inr == ByUser { userReq, met := None, true; }
          reqs, num := reqs[..i] + reqs[i + 1..], num - 1;
        }
      }
      assert reqs[..i] == reqs && reqs[i..] == [];
      EmptyConcat(reqs);
    }

    /** rtw_rfctl_regd_req_sel_and_status_update */
    method Reselection(env: Env)
      requires reqs != []
      modifies this`reqs, this`sum, this`cisEnabled
      ensures View() == Reselect(old(View()), env)
    {
      ghost var s0 := View();
      var top := Decide(reqs);
      SelectedTop(reqs);
      assert s0.cis.reqs == reqs;
      var s := Mark(top.value.0, top.value.1);
      if s.Some? { sum := s.value; }
      ghost var t := View();
      assert t == s0.(cis := s0.cis.(reqs := reqs), sum := sum);
      UpdateEnabled(env);
      assert View() == t.(cis := t.cis.(enabled := ShouldEnable(t, env)));
    }

    /** Its third loop: marks, and the summary of the marked requests. */
    method Mark(src: Src, inr: Inr) returns (s: Option<Summary>)
      modifies this`reqs
      ensures reqs == Marked(old(reqs), src, inr, always, |old(reqs)|)
      ensures s == Summed(old(reqs), src, inr, always, |old(reqs)|)
    {
      var was := reqs;
      s := None;
      for i := 0 to |was|
        invariant |reqs| == |was| && s == Summed(was, src, inr, always, i)
        invariant forall k :: 0 <= k < i ==> reqs[k] == was[k].(applied := Applies(was[k], src, inr, always))
        invariant forall k :: i <= k < |was| ==> reqs[k] == was[k]
      {
        var applies := Applies(reqs[i], src, inr, always);
        if applies { s := Some(Join(s, reqs[i])); }
        reqs := reqs[i := reqs[i].(applied := applies)];
      }
    }

    /** rtw_chplan_req_prehdl */
    method Prepare(c: Command, scanned: seq<Record>, env: Env) returns (effected: bool)
      requires Shape(View()) && SomeApplied(View()) && FitsCmd(View(), c)
      modifies this, cisr
      ensures var o := Prehdl(old(View()), c, scanned, env); View() == o.state && effected == o.effected
    {
      match c {
        case ByUserCmd(_, _, _) => effected := User(c, scanned, env);
        case ByCountryIeCmd(u) =>
          var done;
          effected, done := CountryIe(u, scanned, false);
        case ByOsCmd(_, _) => effected := FromOs(c);
      }
    }

    /** rtw_set_chplan_hdl, up to the channel set: the whole command is one step of the abstract engine, so
        it keeps what every step keeps. */
    method SetChplan(c: Command, scanned: seq<Record>, env: Env) returns (effected: bool)
      requires Shape(View()) && SomeApplied(View()) && FitsCmd(View(), c)
      modifies this, cisr
      ensures View() == Step(old(View()), c, scanned, env) && effected == Prehdl(old(View()), c, scanned, env).effected
      ensures Shape(View()) && SomeApplied(View())
      ensures old(Inv(View(), env)) && old(Realtek(View(), c)) ==> Inv(View(), env)
    {
      ghost var s := View();
      PrehdlShape(s, c, scanned, env);
      StepShape(s, c, scanned, env);
      if Inv(s, env) && Realtek(s, c) { StepKeeps(s, c, scanned, env); }
      effected := Prepare(c, scanned, env);
      if effected { Reselection(env); }
    }
  }

  ghost predicate HasUser(rs: seq<Req>) { exists r :: r in rs && r.inr == ByUser }

  lemma WalkInit(rs: seq<Req>, i: nat)
    requires i < |rs|
    ensures var q := rs[..i] + rs[i + 1..]; q[..i] == rs[..i] && q[i..] == rs[i + 1..]
    ensures OnlyInit(rs[i..]) == (if rs[i].inr == ByInit then [rs[i]] else []) + OnlyInit(rs[i + 1..])
    ensures HasUser(rs[i..]) == (rs[i].inr == ByUser || HasUser(rs[i + 1..]))
    ensures rs[..i + 1] + OnlyInit(rs[i + 1..]) == rs[..i] + ([rs[i]] + OnlyInit(rs[i + 1..]))
  {
    var t := rs[i..];
    assert t[0] == rs[i] && t[1..] == rs[i + 1..];
    assert t[0] in t && forall r :: r in t <==> r == t[0] || r in t[1..];
    EmptyConcat(OnlyInit(rs[i + 1..]));
  }

  lemma Unlink(rs: seq<Req>, i: nat)
    requires i < |rs| && IsCie(rs[i]) && rs[i].refCnt == 0
    ensures var q := rs[..i] + rs[i + 1..]; q[..i] == rs[..i] && DropZero(q[i..]) == DropZero(rs[i..])
  {
    var q := rs[..i] + rs[i + 1..];
    assert q[..i] == rs[..i] && q[i..] == rs[i + 1..] && rs[i..][1..] == rs[i + 1..];
  }

  lemma KeepNode(rs: seq<Req>, i: nat)
    requires i < |rs| && !(IsCie(rs[i]) && rs[i].refCnt == 0)
    ensures rs[..i + 1] + DropZero(rs[i + 1..]) == rs[..i] + DropZero(rs[i..])
  {
    TakeSnoc(rs, i);
    assert rs[i..][1..] == rs[i + 1..];
    Assoc(rs[..i], [rs[i]], DropZero(rs[i + 1..]));
  }
}
