/**
 What a command means to the one who gives it (core/rtw_chplan.c): the USER
 request and the settings it leaves, the requests then applied, when it reports
 an effect, and when country elements are followed.
 */
module Commands {
  import opened Options
  import opened Seqs
  import opened Requests
  import opened CountryIe
  import opened Selection
  import opened Regulatory
  import opened Resync
  import opened ListShape

  // ---- the USER request

  lemma {:induction false} OneUser(rs: seq<Req>, i: nat, j: nat)
    requires i < j < |rs| && rs[i].inr == ByUser && rs[j].inr == ByUser
    ensures Count(rs, ByUser) >= 2
  {
    if i > 0 {
      OneUser(rs[1..], i - 1, j - 1);
    } else {
      CountZero(rs[1..], ByUser);
      assert rs[j] == rs[1..][j - 1] && rs[j] in rs[1..];
    }
  }

  lemma {:induction false} FirstWithAddress(rs: seq<Req>, id: nat, p: Plan, u: nat)
    requires u < |rs| && rs[u].id == id && forall i :: 0 <= i < u ==> rs[i].id != id
    ensures PlanOf(rs, id) == rs[u].plan && |Replan(rs, id, p)| == |rs| && Replan(rs, id, p)[u] == rs[u].(plan := p)
  {
    if u > 0 { FirstWithAddress(rs[1..], id, p, u - 1); }
  }

  /** The USER request is the one at user_req, and no other. */
  lemma UserAt(s: State, p: Plan, u: nat)
    requires Shape(s) && u < |Reqs(s)| && Reqs(s)[u].inr == ByUser
    ensures s.user.Some? && PlanOf(Reqs(s), s.user.value) == Reqs(s)[u].plan
    ensures u < |Reqs(SetUser(s, p))| && Reqs(SetUser(s, p))[u] == Reqs(s)[u].(plan := p)
  {
    var rs := Reqs(s);
    assert rs[u] in rs;
    CountZero(rs, ByUser);
    forall i | 0 <= i < u ensures rs[i].id != s.user.value {
      assert rs[i] in rs;
      if rs[i].inr == ByUser { OneUser(rs, i, u); }
    }
    FirstWithAddress(rs, s.user.value, p, u);
  }

  /** The request at user_req, and its plan. */
  ghost predicate IsUserReq(s: State, r: Req) { s.user == Some(r.id) && r in Reqs(s) && r.inr == ByUser }

  lemma UserReqPlan(s: State) returns (r: Req)
    requires Shape(s) && s.user.Some?
    ensures IsUserReq(s, r) && r.plan == PlanOf(Reqs(s), s.user.value)
  {
    CountZero(Reqs(s), ByUser);
    r :| r in Reqs(s) && r.inr == ByUser;
    var u :| 0 <= u < |Reqs(s)| && Reqs(s)[u] == r;
    UserAt(s, r.plan, u);
  }

  lemma SetUserPlan(s: State, p: Plan)
    requires Shape(s)
    ensures var t := SetUser(s, p); t.user.Some? && PlanOf(Reqs(t), t.user.value) == p
  {
    var t, rs := SetUser(s, p), Reqs(s);
    SetUserShape(s, p);
    if s.user.Some? {
      var r := UserReqPlan(s);
      var u :| 0 <= u < |rs| && rs[u] == r;
      UserAt(s, p, u);
      UserAt(t, p, u);
    } else {
      UserAt(t, p, |rs|);
    }
  }

  /** A USER command's settings and user_req are final after its first half. */
  ghost predicate SameSettings(s: State, t: State) {
    && t.user == s.user && t.disFlags == s.disFlags && t.exclChs == s.exclChs && t.always == s.always && t.mode == s.mode
    && t.cis.flags == s.cis.flags && t.init == s.init
    && (s.user.Some? ==> PlanOf(Reqs(t), s.user.value) == PlanOf(Reqs(s), s.user.value))
  }

  lemma SecondSettings(t: State, was: bool, left: Confs, scanned: seq<Record>, env: Env)
    requires Shape(t)
    ensures SameSettings(t, UserSecond(t, was, left, scanned, env).state) && Shape(UserSecond(t, was, left, scanned, env).state)
  {
    var u := t.(cis := t.cis.(enabled := ShouldEnable(t, env)));
    if left.flags.Some? || u.cis.enabled != was {
      HandlePlans(u, None, scanned, left.mode.Some? || left.flags.Some?);
      HandleShape(u, None, scanned, left.mode.Some? || left.flags.Some?);
    }
  }

  lemma StepSettings(s: State, c: Command, scanned: seq<Record>, env: Env)
    requires Shape(s) && SomeApplied(s) && c.ByUserCmd?
    ensures SameSettings(UserFirst(s, c, env).0, Step(s, c, scanned, env)) && Shape(Step(s, c, scanned, env))
  {
    FirstShape(s, c, env);
    var (t, left, changes) := UserFirst(s, c, env);
    if changes || Pending(left) { SecondSettings(t, s.cis.enabled, left, scanned, env); }
    var o := PrehdlUser(s, c, scanned, env);
    if o.effected { ReselectShape(o.state, env); }
  }

  /** The code 0xFF is "unspecified"; a code must be in the database, and a command must carry something. */
  predicate WellFormed(c: Command, env: Env)
    requires c.ByUserCmd?
  {
    (c.channelPlan != 0xFF ==> env.valid(c.channelPlan)) && (c.channelPlan == 0xFF && c.country.None? ==> Pending(c.confs))
  }

  /** It asks for a plan: by a code, or by a country while a domain is in effect. */
  predicate NamesPlan(s: State, c: Command)
    requires c.ByUserCmd?
  {
    c.channelPlan != 0xFF || (c.country.Some? && s.sum.domain != 0xFF)
  }

  /** The plan that answers a USER command. */
  ghost predicate Answers(c: Command, p: Plan)
    requires c.ByUserCmd?
  {
    if c.country.Some? then p == c.country.value
    else
      && p.domain == c.channelPlan && p.alpha2 == (if c.channelPlan == 0x7F then "00" else "99")
      && (c.channelPlan != 0x7F ==> p.edcca2g == 4 && p.edcca5g == 4 && p.txpwr == 15 && p.proto == {0, 1, 2, 3, 4, 5, 6, 7})
  }

  /** After a well-formed command that names a plan, user_req points to a request with that plan; after any other
      the USER request is as it was. */
  lemma UserPlanLaw(s: State, c: Command, scanned: seq<Record>, env: Env)
    requires Shape(s) && SomeApplied(s) && c.ByUserCmd? && env.worldwide.alpha2 == "00"
    ensures var t := Step(s, c, scanned, env);
            && (WellFormed(c, env) && NamesPlan(s, c) ==> exists r :: IsUserReq(t, r) && Answers(c, r.plan))
            && (!(WellFormed(c, env) && NamesPlan(s, c)) ==>
                  t.user == s.user && (s.user.Some? ==> exists q, r :: IsUserReq(s, q) && IsUserReq(t, r) && r.plan == q.plan))
  {
    StepSettings(s, c, scanned, env);
    FirstPlan(s, c, env);
    var t := Step(s, c, scanned, env);
    if t.user.Some? { var r := UserReqPlan(t); }
    if s.user.Some? { var q := UserReqPlan(s); }
  }

  lemma FirstPlan(s: State, c: Command, env: Env)
    requires Shape(s) && c.ByUserCmd? && env.worldwide.alpha2 == "00"
    ensures var f := UserFirst(s, c, env).0;
            if WellFormed(c, env) && NamesPlan(s, c) then f.user.Some? && Answers(c, PlanOf(Reqs(f), f.user.value))
            else f.user == s.user && Reqs(f) == Reqs(s)
  {
    if WellFormed(c, env) && NamesPlan(s, c) {
      AskAnswers(s, c, env);
      SetUserPlan(s, Ask(s, c, env).plan);
    }
  }

  lemma AskAnswers(s: State, c: Command, env: Env)
    requires c.ByUserCmd? && env.worldwide.alpha2 == "00" && WellFormed(c, env) && NamesPlan(s, c)
    ensures Ask(s, c, env).Wants? && Answers(c, Ask(s, c, env).plan)
  {
  }

  /** After a well-formed USER command every setting it carries is in force and every other as it was; a mode out
      of range is ignored. After an ill-formed one all are as they were. */
  lemma SettingsLaw(s: State, c: Command, scanned: seq<Record>, env: Env)
    requires Shape(s) && SomeApplied(s) && c.ByUserCmd?
    ensures var t, f, ok := Step(s, c, scanned, env), c.confs, WellFormed(c, env);
            && (if ok && f.disFlags.Some? then t.disFlags == f.disFlags.value else t.disFlags == s.disFlags)
            && (if ok && f.exclChs.Some? then t.exclChs == f.exclChs.value else t.exclChs == s.exclChs)
            && (if ok && f.initAlways.Some? then t.always.init == f.initAlways.value else t.always.init == s.always.init)
            && (if ok && f.userAlways.Some? then t.always.user == f.userAlways.value else t.always.user == s.always.user)
            && (if ok && f.mode.Some? && f.mode.value < 3 then t.mode == f.mode.value else t.mode == s.mode)
            && (if ok && f.flags.Some? then t.cis.flags == f.flags.value else t.cis.flags == s.cis.flags)
            && t.init == s.init
  {
    StepSettings(s, c, scanned, env);
  }

  // ---- when a command reports an effect

  /** A USER command for settings alone has an effect exactly when an exclusion changes; or a switch changes that
      can decide something, with the driver's own source in force; or the country flags change, or the mode so
      that the feature goes on or off, and the requests then called for differ from the list; or the mode
      changes and the feature stays as it is. */
  lemma SettingsEffect(s: State, c: Command, scanned: seq<Record>, env: Env)
    requires Inv(s, env) && c.ByUserCmd? && c.country.None? && c.channelPlan == 0xFF && Pending(c.confs)
    ensures var f, t := c.confs, UserFirst(s, c, env).0;
            var modes, flags := f.mode.Some? && f.mode.value < 3 && f.mode.value != s.mode, f.flags.Some? && f.flags.value != s.cis.flags;
            Prehdl(s, c, scanned, env).effected <==>
            || (f.disFlags.Some? && f.disFlags.value != s.disFlags) || (f.exclChs.Some? && f.exclChs.value != s.exclChs) || f.excl6g
            || (f.initAlways.Some? && f.initAlways.value != s.always.init && |Reqs(s)| != 1)
            || (f.userAlways.Some? && f.userAlways.value != s.always.user && s.user.Some? && |Reqs(s)| != 2)
            || (if flags || (modes && ShouldEnable(t, env) != s.cis.enabled) then Alters(Reqs(s), NowWanted(t, scanned, env)) else modes)
  {
    FirstKeeps(s, c, env);
    var (t, left, _) := UserFirst(s, c, env);
    ConfigureKeeps(s, c.confs);
    var u := t.(cis := t.cis.(enabled := ShouldEnable(t, env)));
    if left.flags.Some? || u.cis.enabled != s.cis.enabled {
      EffectIff(u.cis, scanned, left.mode.Some? || left.flags.Some?, s.cis.enabled);
    }
  }

  /** A command for a plan alone that the USER request already has does nothing at all. */
  lemma SamePlanQuiet(s: State, p: Plan, r: Req, scanned: seq<Record>, env: Env)
    requires Inv(s, env) && env.valid(p.domain) && p.domain != 0xFF && IsUserReq(s, r) && r.plan == p
    ensures var c := ByUserCmd(Some(p), p.domain, NO_CONFS);
            !Prehdl(s, c, scanned, env).effected && Step(s, c, scanned, env) == s
  {
    var u :| 0 <= u < |Reqs(s)| && Reqs(s)[u] == r;
    UserAt(s, p, u);
    NothingToConfigure(s);
  }

  // ---- which requests a command with an effect applies

  ghost predicate HasInr(rs: seq<Req>, inr: Inr) { exists r :: r in rs && r.inr == inr }

  /** In an own-source list: COUNTRY_IE requests if there are any, else the USER request if there is one, else INIT;
      beside them INIT and USER under their switches. */
  ghost predicate MarkedPlainly(s: State) {
    forall r :: r in Reqs(s) ==>
      (r.applied <==>
        || (r.inr == ByCountryIe)
        || (r.inr == ByUser && (!HasInr(Reqs(s), ByCountryIe) || s.always.user))
        || (r.inr == ByInit && ((!HasInr(Reqs(s), ByCountryIe) && !HasInr(Reqs(s), ByUser)) || s.always.init)))
  }

  lemma ReselectMarks(s: State, env: Env)
    requires Reqs(s) != [] && AllRtk(Reqs(s))
    ensures MarkedPlainly(Reselect(s, env))
  {
    var rs, t := Reqs(s), Reselect(s, env);
    SelectedMeans(rs);
    var (src, inr) := Selected(rs).value;
    var ms := Reqs(t);
    assert rs[0] in rs && Rtk(rs[0]);
    assert src == RtkPriv;
    forall i | 0 <= i < |rs| ensures ms[i] == rs[i].(applied := Applies(rs[i], src, inr, s.always)) && Rtk(rs[i]) {
      assert rs[i] in rs;
    }
    forall x: Inr ensures HasInr(ms, x) <==> Occurs(rs, RtkPriv, x) {
      if r :| r in ms && r.inr == x { var i :| 0 <= i < |ms| && ms[i] == r; assert rs[i] in rs; }
      if r :| r in rs && r.src == RtkPriv && r.inr == x { var i :| 0 <= i < |rs| && rs[i] == r; assert ms[i] in ms; }
    }
    assert !Occurs(rs, RtkPriv, ByDriver) && !Occurs(rs, RtkPriv, ByCore);
  }

  /** From power-on, after every run and one more command that has an effect: the marks, and the summary of the
      requests marked. */
  lemma EveryEffect(p: Plan, mode: nat, flags: Flags, always: Always, n: nat, dis: set<nat>, excl: seq<nat>, env: Env,
                    run: seq<(Command, seq<Record>)>, c: Command, scanned: seq<Record>)
    requires IsRun(Initial(p, mode, flags, always, n, dis, excl, env), run, env)
    requires Realtek(After(Initial(p, mode, flags, always, n, dis, excl, env), run, env), c)
    requires Prehdl(After(Initial(p, mode, flags, always, n, dis, excl, env), run, env), c, scanned, env).effected
    ensures var t := Step(After(Initial(p, mode, flags, always, n, dis, excl, env), run, env), c, scanned, env);
            MarkedPlainly(t) && exists cs :: Summarises(t.sum, cs) && forall r :: r in cs <==> r in Reqs(t) && r.applied
  {
    var s0 := Initial(p, mode, flags, always, n, dis, excl, env);
    InitialInv(p, mode, flags, always, n, dis, excl, env);
    RunKeeps(s0, run, env);
    var s := After(s0, run, env);
    var o := Prehdl(s, c, scanned, env);
    if c.ByUserCmd? { UserKeeps(s, c, scanned, env); } else { CountryIeKeeps(s, c, scanned, env); }
    CountZero(Reqs(o.state), ByInit);
    ReselectMarks(o.state, env);
    ReselectSummary(o.state, env);
  }

  lemma ReselectSummary(s: State, env: Env)
    requires Reqs(s) != []
    ensures var t := Reselect(s, env); exists cs :: Summarises(t.sum, cs) && forall r :: r in cs <==> r in Reqs(t) && r.applied
  {
    var t := Reselect(s, env);
    ReselectSyncs(s, env);
    var ms := Reqs(t);
    var (src, inr) := Selected(ms).value;
    SelectionLaw(ms, ms, t.always);
    var cs := Chosen(ms, src, inr, t.always, |ms|);
    assert ms[..|ms|] == ms;
    forall r ensures r in cs <==> r in ms && r.applied {
      if r in ms { var i :| 0 <= i < |ms| && ms[i] == r; }
    }
  }

  // ---- when country elements are followed

  /** After every run from power-on: exactly when the hardware does not fix the plan and the mode is 1, or is 2 and
      the USER plan, or without one the INIT plan, is the world-wide one. */
  lemma EnabledMeans(p: Plan, mode: nat, flags: Flags, always: Always, n: nat, dis: set<nat>, excl: seq<nat>, env: Env,
                     run: seq<(Command, seq<Record>)>)
    requires IsRun(Initial(p, mode, flags, always, n, dis, excl, env), run, env)
    ensures var s := After(Initial(p, mode, flags, always, n, dis, excl, env), run, env);
            s.cis.enabled <==>
            !env.disableSw && (s.mode == 1 || (s.mode == 2 &&
              (if s.user.None? then p.alpha2 == "00" else exists r :: IsUserReq(s, r) && r.plan.alpha2 == "00")))
  {
    var s0 := Initial(p, mode, flags, always, n, dis, excl, env);
    InitialInv(p, mode, flags, always, n, dis, excl, env);
    RunKeeps(s0, run, env);
    RunInit(s0, run, env);
    var s := After(s0, run, env);
    if s.user.Some? {
      var r := UserReqPlan(s);
      forall q | IsUserReq(s, q) ensures q.plan == r.plan {
        var u :| 0 <= u < |Reqs(s)| && Reqs(s)[u] == q;
        UserAt(s, q.plan, u);
      }
    }
  }

  lemma {:induction false} RunInit(s: State, run: seq<(Command, seq<Record>)>, env: Env)
    requires Inv(s, env) && IsRun(s, run, env)
    ensures After(s, run, env).init == s.init
    decreases |run|
  {
    if run != [] {
      StepInit(s, run[0].0, run[0].1, env);
      StepKeeps(s, run[0].0, run[0].1, env);
      RunInit(Step(s, run[0].0, run[0].1, env), run[1..], env);
    }
  }

  lemma StepInit(s: State, c: Command, scanned: seq<Record>, env: Env)
    requires Inv(s, env) && Realtek(s, c)
    ensures Step(s, c, scanned, env).init == s.init
  {
    var o := Prehdl(s, c, scanned, env);
    assert o.state.init == s.init;
    if o.effected {
      if c.ByUserCmd? { UserKeeps(s, c, scanned, env); } else { CountryIeKeeps(s, c, scanned, env); }
      ReselectShape(o.state, env);
    }
  }

  // ---- the OS source

  /** After an OS command the list is what INIT requests it had and one request from the OS, which alone is applied
      and summarised; the command that names INIT does nothing. */
  lemma OsLaw(s: State, c: Command, scanned: seq<Record>, env: Env)
    requires Shape(s) && SomeApplied(s) && c.ByOsCmd? && forall r :: r in Reqs(s) && r.inr == ByInit ==> r.src == RtkPriv
    ensures var t := Step(s, c, scanned, env);
            if c.inr == ByInit then t == s
            else
              && |Reqs(t)| == 2
              && Reqs(t)[1].src == Os && Reqs(t)[1].inr == c.inr && Reqs(t)[1].plan == c.plan && Reqs(t)[1].applied
              && Reqs(t)[0].inr == ByInit && !Reqs(t)[0].applied
              && t.sum == Summary(Os, {c.inr}, c.plan.alpha2, c.plan.domain, c.plan.proto)
              && !t.cis.enabled
  {
    if c.inr != ByInit {
      var rs, o := Reqs(s), OnlyInit(Reqs(s));
      OnlyInitLaws(rs);
      InitLength(o);
      var q := Reqs(PrehdlOs(s, c).state);
      assert o[0] in o;
      assert |q| == 2 && q[0] == o[0] && q[1].src == Os;
      OsSelected(q, s.always);
    }
  }

  lemma OsSelected(q: seq<Req>, always: Always)
    requires |q| == 2 && q[0].src == RtkPriv && q[1].src == Os
    ensures Selected(q) == Some((Os, q[1].inr))
    ensures Summed(q, Os, q[1].inr, always, 2)
            == Some(Summary(Os, {q[1].inr}, q[1].plan.alpha2, q[1].plan.domain, q[1].plan.proto))
  {
    SelectedTop(q);
    assert q[1] in q;
    var (src, inr) := Selected(q).value;
    var r :| r in q && r.src == src && r.inr == inr;
    assert r == q[0] || r == q[1];
    assert Summed(q, Os, inr, always, 0) == None && Summed(q, Os, inr, always, 1) == None;
  }

  lemma {:induction false} InitLength(o: seq<Req>)
    requires forall r :: r in o ==> r.inr == ByInit
    ensures |o| == Count(o, ByInit)
  {
    if o != [] {
      assert o[0] in o;
      InitLength(o[1..]);
    }
  }

  // ---- power-on

  /** The state at power-on: one applied INIT request of the driver's own source, its plan summarised, no USER request,
      no country on any link, the settings as configured, a mode out of range being read as "disable". */
  lemma PowerOn(p: Plan, mode: nat, flags: Flags, always: Always, n: nat, dis: set<nat>, excl: seq<nat>, env: Env)
    ensures var s := Initial(p, mode, flags, always, n, dis, excl, env);
            && |Reqs(s)| == 1 && s.num == 1 && Reqs(s)[0].inr == ByInit && Reqs(s)[0].src == RtkPriv
            && Reqs(s)[0].plan == p && Reqs(s)[0].applied
            && s.sum == Summary(RtkPriv, {ByInit}, p.alpha2, p.domain, p.proto)
            && s.user == None && s.init == p && s.mode == (if mode < 3 then mode else 0) && s.cis.flags == flags
            && s.always == always && s.disFlags == dis && s.exclChs == excl
            && |s.cis.records| == n && (forall i :: 0 <= i < n ==> s.cis.records[i].status == NoCountry) && s.cis.effective == None
            && InSync(s)
  {
    InitialSync(p, mode, flags, always, n, dis, excl, env);
  }
}
