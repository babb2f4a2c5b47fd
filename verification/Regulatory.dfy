/**
 The regulatory request engine (core/rtw_chplan.c): what each channel-plan
 command does to the request list, the selection and the country-IE state.
 */
module Regulatory {
  import opened Options
  import opened Seqs
  import opened Requests
  import opened CountryIe
  import opened Selection

  const WORLDWIDE_ALPHA2: string := "00"
  const UNSPEC_ALPHA2: string := "99"
  const EDCCA_DEF: nat := 4
  const TXPWR_LMT_DEF: nat := 15
  const CHPLAN_WORLDWIDE: nat := 0x7F
  const PROTO_ALL: set<nat> := {0, 1, 2, 3, 4, 5, 6, 7}

  /** CISEM_DISABLE, CISEM_ENABLE, CISEM_ENABLE_WW. */
  const MODE_ENABLE: nat := 1
  const MODE_ENABLE_WW: nat := 2

  /** The regulatory database and the hardware's fixed setting. */
  datatype Env = Env(valid: nat -> bool, worldwide: Plan, disableSw: bool)

  /** The settings a command may carry; `excl6g` is kept only where the 6 GHz band is built in, and the
      last group is stored and never leads to a rebuild. */
  datatype Confs = Confs(
    disFlags: Option<set<nat>>, exclChs: Option<seq<nat>>, excl6g: bool,
    initAlways: Option<bool>, userAlways: Option<bool>,
    mode: Option<nat>, flags: Option<Flags>, quiet: bool)

  predicate Pending(f: Confs) {
    f.disFlags.Some? || f.exclChs.Some? || f.excl6g || f.initAlways.Some? || f.userAlways.Some?
    || f.mode.Some? || f.flags.Some? || f.quiet
  }

  datatype State = State(
    cis: Cis, num: nat, init: Plan, user: Option<nat>,
    mode: nat, always: Always, sum: Summary,
    disFlags: set<nat>, exclChs: seq<nat>)

  datatype Command =
    | ByUserCmd(country: Option<Plan>, channelPlan: nat, confs: Confs)
    | ByCountryIeCmd(update: Option<Update>)
    | ByOsCmd(inr: Inr, plan: Plan)

  function Reqs(s: State): seq<Req> { s.cis.reqs }

  // ---- the USER request

  /** The plan of the node the user_req pointer refers to. */
  function PlanOf(rs: seq<Req>, id: nat): Plan {
    if rs == [] then NO_PLAN else if rs[0].id == id then rs[0].plan else PlanOf(rs[1..], id)
  }

  function Replan(rs: seq<Req>, id: nat, p: Plan): seq<Req> {
    if rs == [] then []
    else if rs[0].id == id then [rs[0].(plan := p)] + rs[1..]
    else [rs[0]] + Replan(rs[1..], id, p)
  }

  /** rtw_chplan_rtk_priv_domain_code_get_country_chplan */
  function PlanOfDomain(domain: nat, env: Env): Plan {
    if domain == CHPLAN_WORLDWIDE then env.worldwide.(domain := domain)
    else Plan(UNSPEC_ALPHA2, domain, EDCCA_DEF, EDCCA_DEF, TXPWR_LMT_DEF, PROTO_ALL)
  }

  datatype Asked = Rejected | ConfsOnly | Wants(plan: Plan)

  /** rtw_chplan_rtk_priv_req_prehdl_domain_code and _country_ent. */
  function Ask(s: State, c: Command, env: Env): Asked
    requires c.ByUserCmd?
  {
    if c.channelPlan != UNSPECIFIED && !env.valid(c.channelPlan) then Rejected
    else if c.channelPlan == UNSPECIFIED && c.country.None? then (if Pending(c.confs) then ConfsOnly else Rejected)
    else
      var cp := if c.channelPlan == UNSPECIFIED then s.sum.domain else c.channelPlan;
      if cp == UNSPECIFIED then ConfsOnly
      else Wants(if c.country.Some? then c.country.value else PlanOfDomain(cp, env))
  }

  /** "allows only one user request" */
  function SetUser(s: State, p: Plan): State {
    if s.user.None? then
      s.(cis := s.cis.(reqs := Reqs(s) + [Req(s.cis.next, RtkPriv, ByUser, p, 0, false)], next := s.cis.next + 1),
         num := s.num + 1, user := Some(s.cis.next))
    else s.(cis := s.cis.(reqs := Replan(Reqs(s), s.user.value, p)))
  }

  predicate UserChanges(s: State, p: Plan) {
    s.user.None? || PlanOf(Reqs(s), s.user.value) != p
  }

  /** rtw_chplan_rtk_priv_req_prehdl_confs: the new settings. */
  function Configure(s: State, f: Confs): State {
    s.(disFlags := if f.disFlags.Some? then f.disFlags.value else s.disFlags,
       exclChs := if f.exclChs.Some? then f.exclChs.value else s.exclChs,
       always := Always(if f.initAlways.Some? then f.initAlways.value else s.always.init,
                        if f.userAlways.Some? then f.userAlways.value else s.always.user),
       mode := if f.mode.Some? && f.mode.value < 3 then f.mode.value else s.mode,
       cis := s.cis.(flags := if f.flags.Some? then f.flags.value else s.cis.flags))
  }

  /** Its remaining set_types: the settings that still have to take effect. */
  function Remaining(s: State, f: Confs): Confs {
    Confs(
      if f.disFlags.Some? && f.disFlags.value != s.disFlags then f.disFlags else None,
      if f.exclChs.Some? && f.exclChs.value != s.exclChs then f.exclChs else None,
      f.excl6g,
      if f.initAlways.Some? && f.initAlways.value != s.always.init && s.sum.src == RtkPriv && s.num != 1
      then f.initAlways else None,
      if f.userAlways.Some? && f.userAlways.value != s.always.user && s.sum.src == RtkPriv && s.user.Some? && s.num != 2
      then f.userAlways else None,
      if f.mode.Some? && f.mode.value < 3 && f.mode.value != s.mode then f.mode else None,
      if f.flags.Some? && f.flags.value != s.cis.flags then f.flags else None,
      false)
  }

  /** rtw_rfctl_should_cis_enable */
  predicate ShouldEnable(s: State, env: Env) {
    && s.sum.src == RtkPriv && !env.disableSw
    && (s.mode == MODE_ENABLE
        || (s.mode == MODE_ENABLE_WW
            && (if s.user.None? then s.init else PlanOf(Reqs(s), s.user.value)).alpha2 == WORLDWIDE_ALPHA2))
  }

  // ---- the COUNTRY_IE requests

  /** rtw_chplan_rtk_priv_req_prehdl_country_ie reaches its rebuild. */
  predicate Reaches(c: Cis, u: Option<Update>, scanned: seq<Record>, force: bool)
    requires Fits(c, u)
  {
    var d := Recorded(c, u);
    && (u.None? || Matters(c, u.value.lo, u.value.hi, u.value.rec) || force)
    && (!SamePlan(d.effective, NewEffective(d, scanned)) || d.flags.intersect || force)
  }

  /** Rebuilding a list for `ps` adds or removes a request. */
  predicate Alters(rs: seq<Req>, ps: seq<Plan>) {
    (exists p :: p in ps && !HasPlan(rs, p)) || (exists r :: r in rs && IsCie(r) && r.plan !in ps)
  }

  /** Its result. */
  predicate Effected(c: Cis, u: Option<Update>, scanned: seq<Record>, force: bool)
    requires Fits(c, u)
  {
    var d := Recorded(c, u);
    var e := d.(effective := NewEffective(d, scanned));
    Reaches(c, u, scanned, force) && Alters(c.reqs, Wanted(e, scanned))
  }

  function WithCis(s: State, c: Cis): State {
    s.(cis := c, num := if s.num + |c.reqs| >= |s.cis.reqs| then s.num + |c.reqs| - |s.cis.reqs| else 0)
  }

  // ---- the commands

  /** rtw_chplan_req_prehdl: the new state and whether the change is to be applied. */
  datatype Outcome = Outcome(state: State, effected: bool)

  predicate FitsCmd(s: State, c: Command) { c.ByCountryIeCmd? ==> Fits(s.cis, c.update) }

  /** A USER command up to the country handling: state, settings left, whether the USER request changed. */
  function UserFirst(s: State, c: Command, env: Env): (State, Confs, bool)
    requires c.ByUserCmd?
  {
    var ask := Ask(s, c, env);
    var changes := ask.Wants? && UserChanges(s, ask.plan);
    var s1 := if changes then SetUser(s, ask.plan) else s;
    if ask.Rejected? then (s, c.confs, false) else (Configure(s1, c.confs), Remaining(s1, c.confs), changes)
  }

  function UserSecond(t: State, was: bool, left: Confs, scanned: seq<Record>, env: Env): Outcome {
    var u := t.(cis := t.cis.(enabled := ShouldEnable(t, env)));
    if left.flags.Some? || u.cis.enabled != was then
      var force := left.mode.Some? || left.flags.Some?;
      var left' := if Reaches(u.cis, None, scanned, force) then left.(mode := None, flags := None) else left;
      Outcome(WithCis(u, Handle(u.cis, None, scanned, force)), Effected(u.cis, None, scanned, force) || Pending(left'))
    else Outcome(u, true)
  }

  function PrehdlUser(s: State, c: Command, scanned: seq<Record>, env: Env): Outcome
    requires c.ByUserCmd?
  {
    var (t, left, changes) := UserFirst(s, c, env);
    if changes || Pending(left) then UserSecond(t, s.cis.enabled, left, scanned, env) else Outcome(t, false)
  }

  function PrehdlCountryIe(s: State, c: Command, scanned: seq<Record>): Outcome
    requires c.ByCountryIeCmd? && FitsCmd(s, c)
  {
    Outcome(WithCis(s, Handle(s.cis, c.update, scanned, false)), Effected(s.cis, c.update, scanned, false))
  }

  /** The OS source keeps the INIT request and one other. */
  function OnlyInit(rs: seq<Req>): seq<Req> {
    if rs == [] then [] else if rs[0].inr == ByInit then [rs[0]] + OnlyInit(rs[1..]) else OnlyInit(rs[1..])
  }

  function PrehdlOs(s: State, c: Command): Outcome
    requires c.ByOsCmd?
  {
    if c.inr == ByInit then Outcome(s, false)
    else
      var id := s.cis.next;
      var rs := OnlyInit(Reqs(s)) + [Req(id, Os, c.inr, c.plan, 0, false)];
      var t := WithCis(s, s.cis.(reqs := rs, next := id + 1));
      Outcome(t.(user := if c.inr == ByUser then Some(id)
                         else if exists r :: r in Reqs(s) && r.inr == ByUser then None else s.user), true)
  }

  function Prehdl(s: State, c: Command, scanned: seq<Record>, env: Env): Outcome
    requires FitsCmd(s, c)
  {
    match c
    case ByUserCmd(_, _, _) => PrehdlUser(s, c, scanned, env)
    case ByCountryIeCmd(_) => PrehdlCountryIe(s, c, scanned)
    case ByOsCmd(_, _) => PrehdlOs(s, c)
  }

  /** rtw_rfctl_regd_req_sel_and_status_update */
  function Reselect(s: State, env: Env): State {
    var rs := Reqs(s);
    var top := Selected(rs);
    if top.None? then s
    else
      var (src, inr) := top.value;
      var sum := Summed(rs, src, inr, s.always, |rs|);
      var t := s.(cis := s.cis.(reqs := Marked(rs, src, inr, s.always, |rs|)), sum := if sum.Some? then sum.value else s.sum);
      t.(cis := t.cis.(enabled := ShouldEnable(t, env)))
  }

  /** rtw_set_chplan_hdl, up to the channel set. */
  function Step(s: State, c: Command, scanned: seq<Record>, env: Env): State
    requires FitsCmd(s, c)
  {
    var o := Prehdl(s, c, scanned, env);
    if o.effected then Reselect(o.state, env) else o.state
  }

  // ---- changes that leave the COUNTRY_IE requests alone

  /** The two lists have the same COUNTRY_IE requests at the same places, marks aside. */
  ghost predicate SameCie(a: seq<Req>, b: seq<Req>) {
    |a| == |b| && forall i :: 0 <= i < |a| ==>
      IsCie(a[i]) == IsCie(b[i]) && (IsCie(a[i]) ==> a[i].plan == b[i].plan && a[i].refCnt == b[i].refCnt)
  }

  lemma {:induction false} SameCieRefs(a: seq<Req>, b: seq<Req>, p: Plan)
    requires SameCie(a, b)
    ensures Refs(a, p) == Refs(b, p)
  {
    if a != [] {
      assert IsCie(a[0]) == IsCie(b[0]);
      SameCieRefs(a[1..], b[1..], p);
    }
  }

  lemma SameCieHolds(a: seq<Req>, b: seq<Req>)
    requires SameCie(a, b)
    ensures Distinct(a) ==> Distinct(b)
    ensures forall w :: Holds(a, w) ==> Holds(b, w)
  {
    forall p ensures Refs(a, p) == Refs(b, p) { SameCieRefs(a, b, p); }
    if Referenced(a) {
      forall r | r in b && IsCie(r) ensures r.refCnt > 0 {
        var i :| 0 <= i < |b| && b[i] == r;
        assert a[i] in a;
      }
    }
  }

  lemma {:induction false} RefsSnoc(rs: seq<Req>, r: Req, p: Plan)
    requires !IsCie(r)
    ensures Refs(rs + [r], p) == Refs(rs, p)
  {
    if rs != [] {
      TailOfConcat(rs, [r]);
      RefsSnoc(rs[1..], r, p);
    }
  }

  lemma SnocHolds(rs: seq<Req>, r: Req)
    requires !IsCie(r)
    ensures Distinct(rs) ==> Distinct(rs + [r])
    ensures forall w :: Holds(rs, w) ==> Holds(rs + [r], w)
  {
    forall p ensures Refs(rs + [r], p) == Refs(rs, p) { RefsSnoc(rs, r, p); }
  }

  lemma {:induction false} ReplanAt(rs: seq<Req>, id: nat, p: Plan)
    ensures |Replan(rs, id, p)| == |rs|
    ensures forall i :: 0 <= i < |rs| ==>
              (Replan(rs, id, p)[i] == rs[i] || (rs[i].id == id && Replan(rs, id, p)[i] == rs[i].(plan := p)))
  {
    if rs != [] && rs[0].id != id { ReplanAt(rs[1..], id, p); }
  }

  // ---- the shape of the list

  function Count(rs: seq<Req>, inr: Inr): nat {
    if rs == [] then 0 else (if rs[0].inr == inr then 1 else 0) + Count(rs[1..], inr)
  }

  /** INIT occurs once, USER at most once and user_req is its address, and the length is kept. */
  ghost predicate Shape(s: State) {
    var rs := Reqs(s);
    && s.num == |rs| && Distinct(rs) && Count(rs, ByInit) == 1
    && Count(rs, ByUser) == (if s.user.Some? then 1 else 0)
    && (forall r :: r in rs ==> r.id < s.cis.next)
    && (s.user.Some? ==> forall r :: r in rs ==> (r.id == s.user.value <==> r.inr == ByUser))
  }

  /** The driver's own source has INIT, USER and COUNTRY_IE requests only. */
  predicate Rtk(r: Req) { r.src == RtkPriv && InrRank(r.inr) <= 2 }

  ghost predicate AllRtk(rs: seq<Req>) { forall r :: r in rs ==> Rtk(r) }

  lemma {:induction false} CountConcat(a: seq<Req>, b: seq<Req>, inr: Inr)
    ensures Count(a + b, inr) == Count(a, inr) + Count(b, inr)
  {
    if a == [] {
      EmptyConcat(b);
    } else {
      TailOfConcat(a, b);
      CountConcat(a[1..], b, inr);
    }
  }

  lemma {:induction false} CountZero(rs: seq<Req>, inr: Inr)
    ensures Count(rs, inr) == 0 <==> forall r :: r in rs ==> r.inr != inr
  {
    if rs != [] {
      CountZero(rs[1..], inr);
      HeadTail(rs);
      assert rs[0] in rs;
      assert forall r :: r in rs <==> r == rs[0] || r in rs[1..];
    }
  }

  lemma {:induction false} CountSame(a: seq<Req>, b: seq<Req>, inr: Inr)
    requires |a| == |b| && forall i :: 0 <= i < |a| ==> a[i].inr == b[i].inr
    ensures Count(a, inr) == Count(b, inr)
  {
    if a != [] { CountSame(a[1..], b[1..], inr); }
  }

  lemma {:induction false} CountFixed(rs: seq<Req>, inr: Inr)
    requires inr != ByCountryIe
    ensures Count(rs, inr) == Count(Fixed(rs), inr)
  {
    if rs != [] {
      CountFixed(rs[1..], inr);
      if !IsCie(rs[0]) { TailOfConcat([rs[0]], Fixed(rs[1..])); EmptyConcat(Fixed(rs[1..])); }
    }
  }

  lemma {:induction false} FixedMembers(rs: seq<Req>)
    ensures forall r :: r in Fixed(rs) <==> r in rs && !IsCie(r)
  {
    if rs != [] {
      FixedMembers(rs[1..]);
      HeadTail(rs);
      assert forall r :: r in rs <==> r == rs[0] || r in rs[1..];
    }
  }

  /** A COUNTRY_IE request is one of `rs`, or was allocated with an address in lo..hi. */
  ghost predicate FromCie(rs: seq<Req>, lo: nat, hi: nat, r: Req) {
    (r.src == RtkPriv && lo <= r.id < hi) || exists o :: o in rs && IsCie(o) && o.id == r.id && o.src == r.src
  }

  ghost predicate AllFrom(rs: seq<Req>, lo: nat, hi: nat, qs: seq<Req>) {
    forall r :: r in qs && IsCie(r) ==> FromCie(rs, lo, hi, r)
  }

  lemma {:induction false} AddFrom(rs: seq<Req>, p: Plan, id: nat)
    ensures AllFrom(rs, id, id + 1, AddCie(rs, p, id))
  {
    if rs != [] {
      assert rs[0] in rs;
      if !Same(rs[0], p) { AddFrom(rs[1..], p, id); }
      assert forall o :: o in rs[1..] ==> o in rs;
    }
  }

  lemma {:induction false} AddAllFrom(rs: seq<Req>, ps: seq<Plan>, id: nat)
    ensures AllFrom(rs, id, id + |ps|, AddAll(rs, ps, id))
    decreases |ps|
  {
    if ps != [] {
      var a := AddCie(rs, ps[0], id);
      AddFrom(rs, ps[0], id);
      AddAllFrom(a, ps[1..], id + 1);
      forall r | r in AddAll(rs, ps, id) && IsCie(r) ensures FromCie(rs, id, id + |ps|, r) {
        if !(r.src == RtkPriv && id + 1 <= r.id < id + |ps|) {
          var o :| o in a && IsCie(o) && o.id == r.id && o.src == r.src;
          assert FromCie(rs, id, id + 1, o);
        }
      }
    }
  }

  lemma RebuildFrom(rs: seq<Req>, ps: seq<Plan>, id: nat)
    ensures AllFrom(rs, id, id + |ps|, Rebuild(rs, ps, id))
  {
    var c := ClearRefs(rs);
    ClearLaws(rs, NO_PLAN);
    AddAllFrom(c, ps, id);
    DropMembers(AddAll(c, ps, id));
    forall r | r in Rebuild(rs, ps, id) && IsCie(r) ensures FromCie(rs, id, id + |ps|, r) {
      assert FromCie(c, id, id + |ps|, r);
      if !(r.src == RtkPriv && id <= r.id < id + |ps|) {
        var o :| o in c && IsCie(o) && o.id == r.id && o.src == r.src;
        var i :| 0 <= i < |c| && c[i] == o;
        assert rs[i] in rs;
      }
    }
  }

  /** A rebuild keeps the shape: it only adds and removes COUNTRY_IE requests. */
  lemma RebuildShape(s: State, ps: seq<Plan>)
    requires Shape(s)
    ensures Shape(WithCis(s, s.cis.(reqs := Rebuild(Reqs(s), ps, s.cis.next), next := s.cis.next + |ps|)))
    ensures AllRtk(Reqs(s)) ==> AllRtk(Rebuild(Reqs(s), ps, s.cis.next))
  {
    var rs, id := Reqs(s), s.cis.next;
    var q := Rebuild(rs, ps, id);
    RebuildHolds(rs, ps, id);
    RebuildFrom(rs, ps, id);
    FixedMembers(rs);
    FixedMembers(q);
    CountFixed(rs, ByInit);
    CountFixed(q, ByInit);
    CountFixed(rs, ByUser);
    CountFixed(q, ByUser);
    forall r | r in q
      ensures r.id < id + |ps| && (AllRtk(rs) ==> Rtk(r))
      ensures s.user.Some? ==> (r.id == s.user.value <==> r.inr == ByUser)
    {
      RebuiltMember(s, ps, r);
    }
  }

  lemma RebuiltMember(s: State, ps: seq<Plan>, r: Req)
    requires Shape(s) && r in Rebuild(Reqs(s), ps, s.cis.next)
    requires IsCie(r) ==> FromCie(Reqs(s), s.cis.next, s.cis.next + |ps|, r)
    requires !IsCie(r) ==> r in Reqs(s)
    ensures r.id < s.cis.next + |ps| && (AllRtk(Reqs(s)) ==> Rtk(r))
    ensures s.user.Some? ==> (r.id == s.user.value <==> r.inr == ByUser)
  {
    if s.user.Some? {
      UserNode(s);
    }
    if IsCie(r) && !(r.src == RtkPriv && s.cis.next <= r.id < s.cis.next + |ps|) {
      var o :| o in Reqs(s) && IsCie(o) && o.id == r.id && o.src == r.src;
    }
  }

  lemma UserNode(s: State)
    requires Shape(s) && s.user.Some?
    ensures s.user.value < s.cis.next
  {
    CountZero(Reqs(s), ByUser);
  }

  lemma HandleShape(s: State, u: Option<Update>, scanned: seq<Record>, force: bool)
    requires Shape(s) && Fits(s.cis, u)
    ensures Shape(WithCis(s, Handle(s.cis, u, scanned, force)))
    ensures AllRtk(Reqs(s)) ==> AllRtk(Handle(s.cis, u, scanned, force).reqs)
  {
    var d := Recorded(s.cis, u);
    var e := d.(effective := NewEffective(d, scanned));
    RebuildShape(s, Wanted(e, scanned));
  }

  lemma SetUserShape(s: State, p: Plan)
    requires Shape(s)
    ensures Shape(SetUser(s, p)) && (AllRtk(Reqs(s)) ==> AllRtk(Reqs(SetUser(s, p))))
    ensures forall w :: Holds(Reqs(s), w) ==> Holds(Reqs(SetUser(s, p)), w)
  {
    var rs, q := Reqs(s), Reqs(SetUser(s, p));
    if s.user.None? {
      var r := Req(s.cis.next, RtkPriv, ByUser, p, 0, false);
      SnocHolds(rs, r);
      CountConcat(rs, [r], ByInit);
      CountConcat(rs, [r], ByUser);
      CountZero(rs, ByUser);
    } else {
      ReplanShape(rs, s.user.value, p);
    }
  }

  lemma ReplanShape(rs: seq<Req>, id: nat, p: Plan)
    requires forall r :: r in rs ==> (r.id == id <==> r.inr == ByUser)
    ensures var q := Replan(rs, id, p);
            && |q| == |rs| && SameCie(rs, q) && (AllRtk(rs) ==> AllRtk(q))
            && (Distinct(rs) ==> Distinct(q)) && (forall w :: Holds(rs, w) ==> Holds(q, w))
            && (forall inr :: Count(q, inr) == Count(rs, inr))
            && (forall r :: r in q ==> exists o :: o in rs && o.id == r.id && o.inr == r.inr && o.src == r.src)
  {
    var q := Replan(rs, id, p);
    ReplanAt(rs, id, p);
    forall i | 0 <= i < |rs|
      ensures q[i].inr == rs[i].inr && q[i].id == rs[i].id && q[i].src == rs[i].src && (IsCie(rs[i]) ==> q[i] == rs[i])
    {
      assert rs[i] in rs;
    }
    SameCieHolds(rs, q);
    forall inr ensures Count(q, inr) == Count(rs, inr) { CountSame(q, rs, inr); }
    forall r | r in q ensures exists o :: o in rs && o.id == r.id && o.inr == r.inr && o.src == r.src {
      var i :| 0 <= i < |q| && q[i] == r;
      assert rs[i] in rs;
    }
  }

  /** Marking changes nothing else. */
  lemma MarkShape(rs: seq<Req>, ms: seq<Req>)
    requires |ms| == |rs| && forall i :: 0 <= i < |rs| ==> ms[i] == rs[i].(applied := ms[i].applied)
    ensures SameCie(rs, ms) && (Distinct(rs) ==> Distinct(ms)) && (forall w :: Holds(rs, w) ==> Holds(ms, w))
    ensures forall inr :: Count(ms, inr) == Count(rs, inr)
    ensures forall r :: r in ms ==> exists o :: o in rs && o.id == r.id && o.inr == r.inr && o.src == r.src
    ensures forall id :: PlanOf(ms, id) == PlanOf(rs, id)
  {
    SameCieHolds(rs, ms);
    forall inr ensures Count(ms, inr) == Count(rs, inr) { CountSame(ms, rs, inr); }
    forall r | r in ms ensures exists o :: o in rs && o.id == r.id && o.inr == r.inr && o.src == r.src {
      var i :| 0 <= i < |ms| && ms[i] == r;
      assert rs[i] in rs;
    }
    forall id ensures PlanOf(ms, id) == PlanOf(rs, id) { PlanOfSame(rs, ms, id); }
  }

  lemma {:induction false} PlanOfSame(a: seq<Req>, b: seq<Req>, id: nat)
    requires |a| == |b| && forall i :: 0 <= i < |a| ==> a[i].id == b[i].id && a[i].plan == b[i].plan
    ensures PlanOf(a, id) == PlanOf(b, id)
  {
    if a != [] { PlanOfSame(a[1..], b[1..], id); }
  }

  /** What a reselection writes. */
  lemma ReselectWrites(s: State, env: Env) returns (ms: seq<Req>, sum: Summary)
    requires Reqs(s) != []
    ensures var rs := Reqs(s); |ms| == |rs| && forall i :: 0 <= i < |rs| ==> ms[i] == rs[i].(applied := ms[i].applied)
    ensures exists r :: r in ms && r.applied
    ensures AllRtk(Reqs(s)) ==> sum.src == RtkPriv
    ensures var t := s.(cis := s.cis.(reqs := ms), sum := sum);
            Reselect(s, env) == t.(cis := t.cis.(enabled := ShouldEnable(t, env)))
  {
    var rs := Reqs(s);
    SelectionLaw(rs, rs, s.always);
    var (src, inr) := Selected(rs).value;
    ms := Marked(rs, src, inr, s.always, |rs|);
    sum := Summed(rs, src, inr, s.always, |rs|).value;
    var r :| r in rs && Applies(r, src, inr, s.always);
    var i :| 0 <= i < |rs| && rs[i] == r;
    assert ms[i] in ms && ms[i].applied;
    assert rs[..|rs|] == rs;
    assert r in Chosen(rs, src, inr, s.always, |rs|);
  }

  lemma ReselectShape(s: State, env: Env)
    requires Shape(s)
    ensures var t := Reselect(s, env);
            && Shape(t) && (exists r :: r in Reqs(t) && r.applied)
            && (forall w :: Holds(Reqs(s), w) ==> Holds(Reqs(t), w))
            && (AllRtk(Reqs(s)) ==> AllRtk(Reqs(t)) && t.sum.src == RtkPriv)
            && (forall id :: PlanOf(Reqs(t), id) == PlanOf(Reqs(s), id))
            && t == s.(cis := s.cis.(reqs := Reqs(t), enabled := t.cis.enabled), sum := t.sum)
            && t.cis.enabled == ShouldEnable(t, env)
  {
    var ms, sum := ReselectWrites(s, env);
    MarkShape(Reqs(s), ms);
  }

  // ---- every Realtek-source run

  /** What holds after every command: the list has its shape, and the COUNTRY_IE requests are right. */
  ghost predicate Inv(s: State, env: Env) {
    && Shape(s) && AllRtk(Reqs(s)) && s.sum.src == RtkPriv
    && s.cis.enabled == ShouldEnable(s, env)
    && Right(s.cis, s.cis.enabled)
  }

  const BLANK: Record := Record("\0\0", 0, 0, NoCountry, NO_PLAN)

  /** rtw_rfctl_decide_init_chplan and rtw_rfctl_cis_init, for `n` link slots. */
  function Initial(p: Plan, mode: nat, flags: Flags, always: Always, n: nat, dis: set<nat>, excl: seq<nat>, env: Env): State {
    var r := Req(0, RtkPriv, ByInit, p, 0, true);
    var c := Cis(false, flags, seq(n, i => BLANK), None, [r], 1);
    var s := State(c, 1, p, None, if mode < 3 then mode else 0, always, Join(None, r), dis, excl);
    s.(cis := c.(enabled := ShouldEnable(s, env)))
  }

  lemma InitialInv(p: Plan, mode: nat, flags: Flags, always: Always, n: nat, dis: set<nat>, excl: seq<nat>, env: Env)
    ensures Inv(Initial(p, mode, flags, always, n, dis, excl, env), env)
  {
    var s := Initial(p, mode, flags, always, n, dis, excl, env);
    var r := Req(0, RtkPriv, ByInit, p, 0, true);
    assert Reqs(s) == [r] && [r][1..] == [];
    assert Count([r], ByInit) == 1 && Count([r], ByUser) == 0;
    PlansEmpty(s.cis.records);
    forall q ensures Refs([r], q) == 0 { }
  }

  ghost predicate Realtek(s: State, c: Command) {
    FitsCmd(s, c) && !c.ByOsCmd? && (c.ByCountryIeCmd? && c.update.Some? ==> Honest(c.update.value.rec))
  }

  lemma ReselectKeeps(s: State, env: Env)
    requires Inv(s, env)
    ensures Inv(Reselect(s, env), env)
  {
    ReselectShape(s, env);
  }

  lemma CountryIeKeeps(s: State, c: Command, scanned: seq<Record>, env: Env)
    requires Inv(s, env) && c.ByCountryIeCmd? && Realtek(s, c)
    ensures Inv(PrehdlCountryIe(s, c, scanned).state, env)
  {
    HandleShape(s, c.update, scanned, false);
    HandleRight(s.cis, c.update, scanned, false, s.cis.enabled);
    HandlePlans(s, c.update, scanned, false);
  }

  /** Country handling never touches the nodes the enable rule looks at. */
  lemma HandlePlans(s: State, u: Option<Update>, scanned: seq<Record>, force: bool)
    requires Shape(s) && Fits(s.cis, u)
    ensures var d := Handle(s.cis, u, scanned, force);
            && d.enabled == s.cis.enabled && d.flags == s.cis.flags
            && (s.user.Some? ==> PlanOf(d.reqs, s.user.value) == PlanOf(Reqs(s), s.user.value))
  {
    var d := Handle(s.cis, u, scanned, force);
    HandleShape(s, u, scanned, force);
    if s.user.Some? && d.reqs != Reqs(s) {
      var c := Recorded(s.cis, u);
      var ps := Wanted(c.(effective := NewEffective(c, scanned)), scanned);
      RebuildHolds(Reqs(s), ps, s.cis.next);
      UserPlanFixed(Reqs(s), s.user.value);
      UserPlanFixed(d.reqs, s.user.value);
    }
  }

  lemma {:induction false} UserPlanFixed(rs: seq<Req>, id: nat)
    requires forall r :: r in rs ==> (r.id == id <==> r.inr == ByUser)
    ensures PlanOf(rs, id) == PlanOf(Fixed(rs), id)
  {
    if rs != [] {
      assert rs[0] in rs;
      UserPlanFixed(rs[1..], id);
      if !IsCie(rs[0]) { TailOfConcat([rs[0]], Fixed(rs[1..])); EmptyConcat(Fixed(rs[1..])); }
    }
  }

  /** What a USER command's first half hands to the second: `was` is whether country IEs were followed. */
  ghost predicate Ready(t: State, was: bool, left: Confs) {
    && Shape(t) && AllRtk(Reqs(t)) && t.sum.src == RtkPriv && t.cis.enabled == was
    && AllHonest(t.cis.records) && (left.flags.None? ==> Right(t.cis, was))
  }

  lemma FirstKeeps(s: State, c: Command, env: Env)
    requires Inv(s, env) && c.ByUserCmd?
    ensures var (t, left, changes) := UserFirst(s, c, env);
            Ready(t, s.cis.enabled, left) && (!changes && !Pending(left) ==> Inv(t, env))
  {
    var ask := Ask(s, c, env);
    if !ask.Rejected? {
      var s1 := if ask.Wants? && UserChanges(s, ask.plan) then SetUser(s, ask.plan) else s;
      if ask.Wants? {
        SetUserShape(s, ask.plan);
      }
      ConfigureKeeps(s1, c.confs);
    }
  }

  lemma SecondKeeps(t: State, was: bool, left: Confs, scanned: seq<Record>, env: Env)
    requires Ready(t, was, left)
    ensures Inv(UserSecond(t, was, left, scanned, env).state, env)
  {
    var u := t.(cis := t.cis.(enabled := ShouldEnable(t, env)));
    if left.flags.Some? || u.cis.enabled != was {
      CountryStep(u, left.mode.Some? || left.flags.Some?, scanned, env, was);
    }
  }

  lemma ConfigureKeeps(s: State, f: Confs)
    ensures var t := Configure(s, f);
            && t.cis == s.cis.(flags := t.cis.flags) && t.num == s.num && t.user == s.user && t.init == s.init && t.sum == s.sum
            && (Remaining(s, f).flags.None? ==> t.cis == s.cis)
            && (Remaining(s, f).mode.None? ==> t.mode == s.mode)
            && (Shape(s) ==> Shape(t))
  {
  }

  lemma UserKeeps(s: State, c: Command, scanned: seq<Record>, env: Env)
    requires Inv(s, env) && c.ByUserCmd?
    ensures Inv(PrehdlUser(s, c, scanned, env).state, env)
  {
    FirstKeeps(s, c, env);
    var (t, left, changes) := UserFirst(s, c, env);
    if changes || Pending(left) {
      SecondKeeps(t, s.cis.enabled, left, scanned, env);
    }
  }

  /** The country handling inside a USER command. */
  lemma CountryStep(t: State, force: bool, scanned: seq<Record>, env: Env, e0: bool)
    requires Shape(t) && AllRtk(Reqs(t)) && t.sum.src == RtkPriv && t.cis.enabled == ShouldEnable(t, env)
    requires AllHonest(t.cis.records) && (!force ==> Right(t.cis, e0))
    ensures Inv(WithCis(t, Handle(t.cis, None, scanned, force)), env)
  {
    HandleShape(t, None, scanned, force);
    HandleRight(t.cis, None, scanned, force, e0);
    HandlePlans(t, None, scanned, force);
  }

  /** Every Realtek-source command, whichever exits it takes, leaves the list in shape and the COUNTRY_IE
      requests exactly as the records call for. */
  lemma StepKeeps(s: State, c: Command, scanned: seq<Record>, env: Env)
    requires Inv(s, env) && Realtek(s, c)
    ensures Inv(Step(s, c, scanned, env), env)
  {
    var o := Prehdl(s, c, scanned, env);
    if c.ByUserCmd? {
      UserKeeps(s, c, scanned, env);
    } else {
      CountryIeKeeps(s, c, scanned, env);
    }
    if o.effected {
      ReselectKeeps(o.state, env);
    }
  }

  /** A run: commands, each with the records of the networks scanned at the time. */
  ghost predicate IsRun(s: State, run: seq<(Command, seq<Record>)>, env: Env)
    decreases |run|
  {
    run == [] || (Realtek(s, run[0].0) && IsRun(Step(s, run[0].0, run[0].1, env), run[1..], env))
  }

  ghost function After(s: State, run: seq<(Command, seq<Record>)>, env: Env): State
    requires IsRun(s, run, env)
    decreases |run|
  {
    if run == [] then s else After(Step(s, run[0].0, run[0].1, env), run[1..], env)
  }

  lemma {:induction false} RunKeeps(s: State, run: seq<(Command, seq<Record>)>, env: Env)
    requires Inv(s, env) && IsRun(s, run, env)
    ensures Inv(After(s, run, env), env)
    decreases |run|
  {
    if run != [] {
      StepKeeps(s, run[0].0, run[0].1, env);
      RunKeeps(Step(s, run[0].0, run[0].1, env), run[1..], env);
    }
  }

  /** What Holds means for a single plan: a plan in use has one request, which counts its uses; a plan not
      in use has none. */
  lemma HoldsMeans(rs: seq<Req>, w: multiset<Plan>, p: Plan)
    requires Holds(rs, w)
    ensures w[p] == 0 <==> !HasPlan(rs, p)
    ensures forall i :: 0 <= i < |rs| && Same(rs[i], p) ==> rs[i].refCnt == w[p]
  {
    forall i | 0 <= i < |rs| && Same(rs[i], p) ensures rs[i].refCnt == Refs(rs, p) { RefsAt(rs, p, i); }
    RefsNone(rs, p);
  }

  lemma {:induction false} RefsAt(rs: seq<Req>, p: Plan, i: nat)
    requires i < |rs| && Same(rs[i], p) && Distinct(rs)
    ensures Refs(rs, p) == rs[i].refCnt
  {
    if i == 0 {
      RefsNone(rs[1..], p);
    } else {
      RefsAt(rs[1..], p, i - 1);
    }
  }

  lemma {:induction false} RefsNone(rs: seq<Req>, p: Plan)
    ensures !HasPlan(rs, p) ==> Refs(rs, p) == 0
    ensures Referenced(rs) && HasPlan(rs, p) ==> Refs(rs, p) > 0
  {
    if rs != [] {
      RefsNone(rs[1..], p);
      assert rs[0] in rs;
      assert forall r :: r in rs <==> r == rs[0] || r in rs[1..];
    }
  }

  /** The whole statement, from power-on: after every run of Realtek-source commands, in intersect mode
      each plan has one request per set of links using it, counting those links; in select mode there is
      one request, for the best record, exactly when some link has a country; none when disabled. */
  lemma EveryRun(p: Plan, mode: nat, flags: Flags, always: Always, n: nat, dis: set<nat>, excl: seq<nat>, env: Env,
                 run: seq<(Command, seq<Record>)>, q: Plan)
    requires IsRun(Initial(p, mode, flags, always, n, dis, excl, env), run, env)
    ensures var s := After(Initial(p, mode, flags, always, n, dis, excl, env), run, env);
            var rs := Reqs(s);
            && Shape(s)
            && (!s.cis.enabled ==> !HasPlan(rs, q))
            && (s.cis.enabled && s.cis.flags.intersect && !s.cis.flags.envBss ==>
                  && (HasPlan(rs, q) <==> q in Plans(s.cis.records))
                  && forall i :: 0 <= i < |rs| && Same(rs[i], q) ==> rs[i].refCnt == multiset(Plans(s.cis.records))[q])
            && (s.cis.enabled && !s.cis.flags.intersect && !s.cis.flags.envBss ==>
                  && (s.cis.effective.Some? <==> Plans(s.cis.records) != [])
                  && (s.cis.effective.Some? ==> Best(s.cis.records, s.cis.effective.value))
                  && (HasPlan(rs, q) <==> s.cis.effective.Some? && q == s.cis.effective.value.plan))
  {
    var s0 := Initial(p, mode, flags, always, n, dis, excl, env);
    InitialInv(p, mode, flags, always, n, dis, excl, env);
    RunKeeps(s0, run, env);
    var s := After(s0, run, env);
    if Tracked(s.cis, s.cis.enabled) {
      HoldsMeans(Reqs(s), Due(s.cis, s.cis.enabled), q);
    }
  }
}
