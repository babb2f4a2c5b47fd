/**
 The request list over every run, the operating system's commands included:
 its shape, and that some request is always applied.
 */
module ListShape {
  import opened Options
  import opened Requests
  import opened CountryIe
  import opened Selection
  import opened Regulatory
  import opened Resync

  ghost predicate SomeApplied(s: State) { exists i :: 0 <= i < |Reqs(s)| && Reqs(s)[i].applied }

  lemma {:induction false} OnlyInitLaws(rs: seq<Req>)
    ensures Count(OnlyInit(rs), ByInit) == Count(rs, ByInit) && Count(OnlyInit(rs), ByUser) == 0
    ensures forall r :: r in OnlyInit(rs) <==> r in rs && r.inr == ByInit
  {
    if rs != [] {
      OnlyInitLaws(rs[1..]);
      assert forall r :: r in rs <==> r == rs[0] || r in rs[1..];
      if rs[0].inr == ByInit {
        CountConcat([rs[0]], OnlyInit(rs[1..]), ByInit);
        CountConcat([rs[0]], OnlyInit(rs[1..]), ByUser);
        assert [rs[0]][1..] == [];
      }
    }
  }

  lemma OsShape(s: State, c: Command)
    requires Shape(s) && c.ByOsCmd?
    ensures Shape(PrehdlOs(s, c).state)
  {
    if c.inr != ByInit {
      var rs, o := Reqs(s), OnlyInit(Reqs(s));
      var r := Req(s.cis.next, Os, c.inr, c.plan, 0, false);
      OnlyInitLaws(rs);
      CountConcat(o, [r], ByInit);
      CountConcat(o, [r], ByUser);
      assert [r][1..] == [];
      CountZero(rs, ByUser);
      var q := o + [r];
      forall i | 0 <= i < |o| ensures !IsCie(q[i]) { assert q[i] in o; }
      OsState(s, c, q);
    }
  }

  lemma OsState(s: State, c: Command, q: seq<Req>)
    requires Shape(s) && c.ByOsCmd? && c.inr != ByInit
    requires q == OnlyInit(Reqs(s)) + [Req(s.cis.next, Os, c.inr, c.plan, 0, false)]
    requires Distinct(q) && Count(q, ByInit) == 1 && Count(q, ByUser) == (if c.inr == ByUser then 1 else 0)
    requires s.user.Some? <==> exists r :: r in Reqs(s) && r.inr == ByUser
    ensures Shape(PrehdlOs(s, c).state)
  {
    var t := PrehdlOs(s, c).state;
    OnlyInitLaws(Reqs(s));
    assert Reqs(t) == q && t.num == |q|;
    forall r | r in q
      ensures r.id < t.cis.next && (t.user.Some? ==> (r.id == t.user.value <==> r.inr == ByUser))
    {
      if r != q[|q| - 1] {
        assert r in OnlyInit(Reqs(s)) && r in Reqs(s);
      }
    }
  }

  lemma AlikeApplied(s: State, t: State)
    requires SomeApplied(s) && Alike(Reqs(t), Reqs(s))
    ensures SomeApplied(t)
  {
    var i :| 0 <= i < |Reqs(s)| && Reqs(s)[i].applied;
    assert Reqs(t)[i].applied;
  }

  lemma SetUserApplied(s: State, p: Plan)
    requires SomeApplied(s) && Shape(s)
    ensures SomeApplied(SetUser(s, p))
  {
    var i :| 0 <= i < |Reqs(s)| && Reqs(s)[i].applied;
    if s.user.Some? {
      ReplanAt(Reqs(s), s.user.value, p);
    }
    assert Reqs(SetUser(s, p))[i].applied;
  }

  lemma FirstShape(s: State, c: Command, env: Env)
    requires Shape(s) && SomeApplied(s) && c.ByUserCmd?
    ensures var t := UserFirst(s, c, env).0; Shape(t) && SomeApplied(t)
  {
    var ask := Ask(s, c, env);
    var s1 := if Changes(s, c, env) then SetUser(s, ask.plan) else s;
    if Changes(s, c, env) {
      SetUserShape(s, ask.plan);
      SetUserApplied(s, ask.plan);
    }
    ConfigureKeeps(s1, c.confs);
  }

  lemma UserShape(s: State, c: Command, scanned: seq<Record>, env: Env)
    requires Shape(s) && SomeApplied(s) && c.ByUserCmd?
    ensures var o := PrehdlUser(s, c, scanned, env); Shape(o.state) && (!o.effected ==> SomeApplied(o.state))
  {
    FirstShape(s, c, env);
    var (t, left, changes) := UserFirst(s, c, env);
    var u := t.(cis := t.cis.(enabled := ShouldEnable(t, env)));
    CountryShape(u, None, left.mode.Some? || left.flags.Some?, scanned);
  }

  lemma CountryShape(t: State, u: Option<Update>, force: bool, scanned: seq<Record>)
    requires Shape(t) && SomeApplied(t) && Fits(t.cis, u)
    ensures var r := WithCis(t, Handle(t.cis, u, scanned, force));
            Shape(r) && (!Effected(t.cis, u, scanned, force) ==> SomeApplied(r))
  {
    HandleShape(t, u, scanned, force);
    if !Effected(t.cis, u, scanned, force) {
      QuietHandle(t.cis, u, scanned, force);
      AlikeApplied(t, WithCis(t, Handle(t.cis, u, scanned, force)));
    }
  }

  lemma PrehdlShape(s: State, c: Command, scanned: seq<Record>, env: Env)
    requires Shape(s) && SomeApplied(s) && FitsCmd(s, c)
    ensures var o := Prehdl(s, c, scanned, env); Shape(o.state) && (!o.effected ==> SomeApplied(o.state))
  {
    if c.ByUserCmd? {
      UserShape(s, c, scanned, env);
    } else if c.ByCountryIeCmd? {
      CountryShape(s, c.update, false, scanned);
    } else {
      OsShape(s, c);
    }
  }

  /** Whatever the source: INIT stays in the list once, USER at most once with user_req pointing at it, the
      length is kept, and at least one request is applied. */
  lemma StepShape(s: State, c: Command, scanned: seq<Record>, env: Env)
    requires Shape(s) && SomeApplied(s) && FitsCmd(s, c)
    ensures Shape(Step(s, c, scanned, env)) && SomeApplied(Step(s, c, scanned, env))
  {
    PrehdlShape(s, c, scanned, env);
    var o := Prehdl(s, c, scanned, env);
    if o.effected {
      ReselectApplied(o.state, env);
    }
  }

  lemma ReselectApplied(s: State, env: Env)
    requires Shape(s)
    ensures Shape(Reselect(s, env)) && SomeApplied(Reselect(s, env))
  {
    ReselectShape(s, env);
    var t := Reselect(s, env);
    var r :| r in Reqs(t) && r.applied;
    var i :| 0 <= i < |Reqs(t)| && Reqs(t)[i] == r;
  }

  ghost predicate IsAnyRun(s: State, run: seq<(Command, seq<Record>)>, env: Env)
    decreases |run|
  {
    run == [] || (FitsCmd(s, run[0].0) && IsAnyRun(Step(s, run[0].0, run[0].1, env), run[1..], env))
  }

  ghost function Reached(s: State, run: seq<(Command, seq<Record>)>, env: Env): State
    requires IsAnyRun(s, run, env)
    decreases |run|
  {
    if run == [] then s else Reached(Step(s, run[0].0, run[0].1, env), run[1..], env)
  }

  lemma {:induction false} ReachedShape(s: State, run: seq<(Command, seq<Record>)>, env: Env)
    requires Shape(s) && SomeApplied(s) && IsAnyRun(s, run, env)
    ensures Shape(Reached(s, run, env)) && SomeApplied(Reached(s, run, env))
    decreases |run|
  {
    if run != [] {
      StepShape(s, run[0].0, run[0].1, env);
      ReachedShape(Step(s, run[0].0, run[0].1, env), run[1..], env);
    }
  }

  /** The shape of every list that can be reached from power-on, by commands of either source: INIT once, USER
      at most once and where user_req points, the length kept, and a request applied. */
  lemma EveryReachableList(p: Plan, mode: nat, flags: Flags, always: Always, n: nat, dis: set<nat>, excl: seq<nat>, env: Env,
                           run: seq<(Command, seq<Record>)>)
    requires IsAnyRun(Initial(p, mode, flags, always, n, dis, excl, env), run, env)
    ensures var s := Reached(Initial(p, mode, flags, always, n, dis, excl, env), run, env); Shape(s) && SomeApplied(s)
  {
    var s := Initial(p, mode, flags, always, n, dis, excl, env);
    InitialInv(p, mode, flags, always, n, dis, excl, env);
    assert Reqs(s)[0].applied;
    ReachedShape(s, run, env);
  }

  // ---- one concrete miss

  const US: Plan := Plan("US", 0x1B, EDCCA_DEF, EDCCA_DEF, TXPWR_LMT_DEF, {0, 1, 2})
  const WORLD: Plan := Plan(WORLDWIDE_ALPHA2, CHPLAN_WORLDWIDE, EDCCA_DEF, EDCCA_DEF, TXPWR_LMT_DEF, PROTO_ALL)
  const NO_CONFS: Confs := Confs(None, None, false, None, None, None, None, false)

  lemma InitialSync(p: Plan, mode: nat, flags: Flags, always: Always, n: nat, dis: set<nat>, excl: seq<nat>, env: Env)
    ensures InSync(Initial(p, mode, flags, always, n, dis, excl, env))
  {
    var r := Req(0, RtkPriv, ByInit, p, 0, true);
    var rs := [r];
    assert TopSrc(rs, 0) == None && TopInr(rs, RtkPriv, 0) == None && Summed(rs, RtkPriv, ByInit, always, 0) == None;
    assert TopSrc(rs, 1) == Some(RtkPriv) && TopInr(rs, RtkPriv, 1) == Some(ByInit);
  }

  lemma NothingToConfigure(s: State)
    ensures Configure(s, NO_CONFS) == s && Remaining(s, NO_CONFS) == NO_CONFS && !Pending(NO_CONFS)
  {
  }

  /** Selecting a plan alone, where no link has a country and no COUNTRY_IE request exists: it is missed exactly
      when it switches the following of country IEs on or off. */
  lemma PlainMissed(s: State, p: Plan, scanned: seq<Record>, env: Env)
    requires Inv(s, env) && Plans(s.cis.records) == [] && !s.cis.flags.envBss && env.valid(p.domain) && p.domain != UNSPECIFIED
    requires forall r :: r in Reqs(s) ==> !IsCie(r)
    requires UserChanges(s, p)
    ensures var c := ByUserCmd(Some(p), p.domain, NO_CONFS);
            && Ask(s, c, env) == Wants(p)
            && (Missed(s, c, scanned, env) <==> ShouldEnable(SetUser(s, p), env) != s.cis.enabled)
  {
    var c, t := ByUserCmd(Some(p), p.domain, NO_CONFS), SetUser(s, p);
    NothingToConfigure(t);
    MissedIff(s, c, scanned, env);
    NoneWanted(t, scanned, env);
    SetUserCie(s, p);
  }

  lemma NoneWanted(t: State, scanned: seq<Record>, env: Env)
    requires Plans(t.cis.records) == [] && !t.cis.flags.envBss
    ensures NowWanted(t, scanned, env) == []
  {
    PlansEmpty(t.cis.records);
  }

  lemma SetUserCie(s: State, p: Plan)
    requires forall r :: r in Reqs(s) ==> !IsCie(r)
    ensures forall r :: r in Reqs(SetUser(s, p)) ==> !IsCie(r)
  {
    var q := Reqs(SetUser(s, p));
    if s.user.Some? {
      ReplanAt(Reqs(s), s.user.value, p);
    }
    forall r | r in q ensures !IsCie(r) {
      var i :| 0 <= i < |q| && q[i] == r;
      assert i < |Reqs(s)| ==> Reqs(s)[i] in Reqs(s);
    }
  }

  /** A driver set to follow country IEs in world-wide mode starts with "US"; the user selects world-wide
      before any link has a country. The request is in the list and is not applied. */
  lemma MissedExample(env: Env)
    requires env.valid(CHPLAN_WORLDWIDE) && !env.disableSw
    ensures var s := Initial(US, MODE_ENABLE_WW, Flags(false, false), Always(false, false), 1, {}, [], env);
            var t := Step(s, ByUserCmd(Some(WORLD), CHPLAN_WORLDWIDE, NO_CONFS), [], env);
            && !InSync(t) && t.sum.alpha2 == "US" && t.user.Some? && PlanOf(Reqs(t), t.user.value) == WORLD
  {
    var s := Initial(US, MODE_ENABLE_WW, Flags(false, false), Always(false, false), 1, {}, [], env);
    var c := ByUserCmd(Some(WORLD), CHPLAN_WORLDWIDE, NO_CONFS);
    InitialInv(US, MODE_ENABLE_WW, Flags(false, false), Always(false, false), 1, {}, [], env);
    InitialSync(US, MODE_ENABLE_WW, Flags(false, false), Always(false, false), 1, {}, [], env);
    var t := SetUser(s, WORLD);
    var r0, r1 := Reqs(s)[0], Req(1, RtkPriv, ByUser, WORLD, 0, false);
    assert Reqs(t) == [r0, r1] && [r0, r1][1..] == [r1];
    assert PlanOf([r0, r1], 1) == WORLD;
    PlansEmpty(s.cis.records);
    PlainMissed(s, WORLD, [], env);
    SyncIff(s, c, [], env);
    PlainFollows(s, WORLD, r0);
    NothingToConfigure(t);
    SetUserShape(s, WORLD);
    var u := t.(cis := t.cis.(enabled := ShouldEnable(t, env)));
    HandlePlans(u, None, [], false);
  }
}
