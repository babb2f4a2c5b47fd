/**
 The request engine and the channel set together (rtw_set_chplan_hdl in
 core/rtw_chplan.c): the set is regulated again only by a command that reports
 an effect. The results say when it is nevertheless the meet of the plans now
 applied.
 */
module Device {
  import opened Options
  import opened Requests
  import opened CountryIe
  import opened Selection
  import opened Regulatory
  import opened Resync
  import opened ListShape
  import opened Commands
  import opened ChannelSet
  import opened BeaconHints
  import RfControl

  /** The engine's state, the channel set, and the state the set was last regulated with. */
  datatype Dev = Dev(s: State, cs: seq<ChInfo>, reg: State)

  datatype Act = Cmd(c: Command, scanned: seq<Record>) | Air(e: Event)

  function Power(s: State, cs: seq<ChInfo>, now: nat, db: Db): Dev {
    Dev(s, StepSet(World(cs, s), Regulate(s), now, db).cs, s)
  }

  ghost predicate Possible(d: Dev, a: Act) {
    match a
    case Cmd(c, _) => Realtek(d.s, c)
    case Air(e) => !e.Regulate?
  }

  /** rtw_set_chplan_hdl, a beacon heard, or an expiry pass. */
  function DevStep(d: Dev, a: Act, now: nat, env: Env, db: Db): Dev
    requires a.Cmd? ==> FitsCmd(d.s, a.c)
  {
    match a
    case Cmd(c, scanned) =>
      var o := Prehdl(d.s, c, scanned, env);
      if o.effected then Power(Reselect(o.state, env), d.cs, now, db) else d.(s := o.state)
    case Air(e) => d.(cs := StepSet(World(d.cs, d.s), e, now, db).cs)
  }

  // ---- how far the list may drift between regulations

  /** Nothing but a USER plan has changed, and requests that are not applied have been added. */
  ghost predicate CloseReqs(a: seq<Req>, b: seq<Req>) {
    && |a| <= |b|
    && (forall i :: 0 <= i < |a| ==>
          b[i].inr == a[i].inr && b[i].src == a[i].src && b[i].applied == a[i].applied && (a[i].inr != ByUser ==> b[i].plan == a[i].plan))
    && forall i :: |a| <= i < |b| ==> !b[i].applied
  }

  ghost predicate Close(s: State, t: State) {
    t.sum == s.sum && t.disFlags == s.disFlags && t.exclChs == s.exclChs && CloseReqs(Reqs(s), Reqs(t))
  }

  /** The plan of the applied request at `u` is no longer the one it had. */
  predicate OverwrittenAt(s: State, t: State, u: nat) {
    u < |Reqs(s)| && u < |Reqs(t)| && Reqs(s)[u].applied && Reqs(t)[u].plan != Reqs(s)[u].plan
  }

  lemma CloseTrans(s: State, t: State, v: State)
    requires Close(s, t) && Close(t, v)
    ensures Close(s, v)
  {
    var a, b, c := Reqs(s), Reqs(t), Reqs(v);
    forall i | |a| <= i < |c| ensures !c[i].applied {
      assert i < |b| ==> c[i].applied == b[i].applied;
    }
  }

  lemma SetUserClose(s: State, p: Plan)
    requires Shape(s)
    ensures Close(s, SetUser(s, p))
  {
    var rs, q := Reqs(s), Reqs(SetUser(s, p));
    if s.user.Some? {
      ReplanAt(rs, s.user.value, p);
      forall i | 0 <= i < |rs| ensures q[i] == rs[i] || (rs[i].inr == ByUser && q[i] == rs[i].(plan := p)) {
        assert rs[i] in rs;
      }
    } else {
      assert forall i :: 0 <= i < |rs| ==> q[i] == rs[i];
    }
  }

  lemma ConfigureClose(s: State, f: Confs)
    requires !Pending(Remaining(s, f).(mode := None, flags := None))
    ensures Close(s, Configure(s, f)) && Reqs(Configure(s, f)) == Reqs(s)
  {
  }

  lemma QuietCountry(s: State, u: Option<Update>, scanned: seq<Record>, force: bool)
    requires Shape(s) && Fits(s.cis, u) && !Effected(s.cis, u, scanned, force)
    ensures var t := WithCis(s, Handle(s.cis, u, scanned, force)); Close(s, t) && Alike(Reqs(t), Reqs(s))
  {
    QuietHandle(s.cis, u, scanned, force);
  }

  /** What a command without effect does to the list: at most the USER request changes. */
  lemma QuietUser(s: State, c: Command, scanned: seq<Record>, env: Env)
    requires Inv(s, env) && c.ByUserCmd? && !PrehdlUser(s, c, scanned, env).effected
    ensures var t := PrehdlUser(s, c, scanned, env).state;
            && Close(s, t) && Close(AfterUser(s, c, env), t) && Alike(Reqs(t), Reqs(AfterUser(s, c, env)))
  {
    var s1 := AfterUser(s, c, env);
    FirstKeeps(s, c, env);
    var (t, left, changes) := UserFirst(s, c, env);
    if Changes(s, c, env) {
      SetUserClose(s, Ask(s, c, env).plan);
    }
    assert !Pending(left.(mode := None, flags := None));
    if !Ask(s, c, env).Rejected? {
      ConfigureClose(s1, c.confs);
    }
    assert Close(s1, t) && Reqs(t) == Reqs(s1);
    if changes || Pending(left) {
      var u := t.(cis := t.cis.(enabled := ShouldEnable(t, env)));
      QuietCountry(u, None, scanned, left.mode.Some? || left.flags.Some?);
    }
    CloseTrans(s, s1, PrehdlUser(s, c, scanned, env).state);
  }

  lemma QuietStep(s: State, c: Command, scanned: seq<Record>, env: Env)
    requires Inv(s, env) && Realtek(s, c) && !Prehdl(s, c, scanned, env).effected
    ensures Close(s, Prehdl(s, c, scanned, env).state)
  {
    if c.ByUserCmd? {
      QuietUser(s, c, scanned, env);
    } else {
      QuietCountry(s, c.update, scanned, false);
    }
  }

  // ---- what every step keeps

  ghost predicate DevInv(d: Dev, env: Env, db: Db) {
    Inv(d.s, env) && SetInv(World(d.cs, d.reg), db) && Close(d.reg, d.s)
  }

  lemma EngineOwns(s: State, env: Env)
    requires Inv(s, env)
    ensures Own(s)
  {
    forall r | r in Reqs(s) ensures r.src == RtkPriv { assert Rtk(r); }
  }

  lemma PowerInv(s: State, cs: seq<ChInfo>, now: nat, env: Env, db: Db)
    requires Inv(s, env)
    ensures DevInv(Power(s, cs, now, db), env, db)
  {
    EngineOwns(s, env);
    StepSetInv(World(cs, s), Regulate(s), now, db);
  }

  lemma DevStepInv(d: Dev, a: Act, now: nat, env: Env, db: Db)
    requires DevInv(d, env, db) && Possible(d, a)
    ensures DevInv(DevStep(d, a, now, env, db), env, db)
    ensures a.Air? ==> World(DevStep(d, a, now, env, db).cs, d.reg) == StepSet(World(d.cs, d.reg), a.e, now, db)
    ensures a.Cmd? ==> DevStep(d, a, now, env, db).s == Step(d.s, a.c, a.scanned, env)
  {
    match a
    case Cmd(c, scanned) =>
      var o := Prehdl(d.s, c, scanned, env);
      StepKeeps(d.s, c, scanned, env);
      if o.effected {
        PowerInv(Reselect(o.state, env), d.cs, now, env, db);
      } else {
        QuietStep(d.s, c, scanned, env);
        CloseTrans(d.reg, d.s, o.state);
      }
    case Air(e) =>
      StepSetInv(World(d.cs, d.reg), e, now, db);
      assert StepSet(World(d.cs, d.s), e, now, db).cs == StepSet(World(d.cs, d.reg), e, now, db).cs;
  }

  // ---- when the set is the meet of the present plans

  ghost predicate OtherDenies(s: State, u: nat, ch: nat, db: Db) {
    exists i :: 0 <= i < |Reqs(s)| && i != u && Denies(Reqs(s)[i], ch, s.disFlags, db)
  }

  ghost predicate OtherGrants(s: State, u: nat, ch: nat, b: nat, db: Db) {
    exists i :: 0 <= i < |Reqs(s)| && i != u && Grants(Reqs(s)[i], ch, b, db)
  }

  /** Putting plan `q` in place of the one at `u` makes no difference to a channel: its band is off, it is
      excluded, another plan denies it, or both plans deny it, or neither does and with the others they give
      it the same flags. */
  ghost predicate Agree(c: ChInfo, s: State, u: nat, q: Plan, db: Db)
    requires u < |Reqs(s)|
  {
    var a := Reqs(s)[u];
    var b := a.(plan := q);
    || c.band == G6 || Off(c, s) || Excluded(s.exclChs, c.ch) || OtherDenies(s, u, c.ch, db)
    || ((Denies(a, c.ch, s.disFlags, db) <==> Denies(b, c.ch, s.disFlags, db))
        && (!Denies(a, c.ch, s.disFlags, db) ==>
              forall f :: Grants(a, c.ch, f, db) || OtherGrants(s, u, c.ch, f, db) <==>
                          Grants(b, c.ch, f, db) || OtherGrants(s, u, c.ch, f, db)))
  }

  /** `t` has the requests of `s`, applied ones first and foremost, but for the plan at `u`. */
  ghost predicate ButFor(s: State, t: State, u: nat) {
    Close(s, t) && u < |Reqs(s)| && forall i :: 0 <= i < |Reqs(s)| && i != u && Reqs(s)[i].applied ==> Reqs(t)[i].plan == Reqs(s)[i].plan
  }

  lemma DisabledBy(c: ChInfo, s: State, t: State, u: nat, db: Db)
    requires ButFor(s, t, u)
    ensures Disabled(c, t, db) <==>
            Off(c, s) || Excluded(s.exclChs, c.ch) || OtherDenies(s, u, c.ch, db)
            || Denies(Reqs(s)[u].(plan := Reqs(t)[u].plan), c.ch, s.disFlags, db)
  {
    var a, b := Reqs(s), Reqs(t);
    if r :| r in b && Denies(r, c.ch, t.disFlags, db) {
      var i :| 0 <= i < |b| && b[i] == r;
      assert i < |a| && i != u ==> Denies(a[i], c.ch, s.disFlags, db);
    }
    if i :| 0 <= i < |a| && i != u && Denies(a[i], c.ch, s.disFlags, db) {
      assert b[i] in b && Denies(b[i], c.ch, t.disFlags, db);
    }
    assert b[u] in b && Denies(b[u], c.ch, t.disFlags, db) == Denies(a[u].(plan := b[u].plan), c.ch, s.disFlags, db);
  }

  lemma GrantedBy(s: State, t: State, u: nat, ch: nat, f: nat, db: Db)
    requires ButFor(s, t, u)
    ensures (exists r :: r in Reqs(t) && Grants(r, ch, f, db)) <==>
            OtherGrants(s, u, ch, f, db) || Grants(Reqs(s)[u].(plan := Reqs(t)[u].plan), ch, f, db)
  {
    var a, b := Reqs(s), Reqs(t);
    if r :| r in b && Grants(r, ch, f, db) {
      var i :| 0 <= i < |b| && b[i] == r;
      assert i < |a| && i != u ==> Grants(a[i], ch, f, db);
    }
    if i :| 0 <= i < |a| && i != u && Grants(a[i], ch, f, db) {
      assert b[i] in b && Grants(b[i], ch, f, db);
    }
    assert b[u] in b && Grants(b[u], ch, f, db) == Grants(a[u].(plan := b[u].plan), ch, f, db);
  }

  lemma AgreeIff(c: ChInfo, s: State, t: State, u: nat, db: Db)
    requires NoDis(db) && ButFor(s, t, u) && Reqs(s)[u].applied
    ensures Meet(c, t, db).flags == Meet(c, s, db).flags <==> Agree(c, s, u, Reqs(t)[u].plan, db)
  {
    if c.band == G6 {
      Apply6(Reset(c, s), Reqs(s), |Reqs(s)|, s.disFlags, db);
      Apply6(Reset(c, t), Reqs(t), |Reqs(t)|, t.disFlags, db);
      assert Reqs(t)[u].applied;
    } else {
      MeetLaw(c, s, db);
      MeetLaw(c, t, db);
      DisabledBy(c, s, s, u, db);
      DisabledBy(c, s, t, u, db);
      var a := Reqs(s)[u];
      assert a.(plan := a.plan) == a;
      if !Disabled(c, s, db) && !Disabled(c, t, db) {
        FlagsAgree(c, s, t, u, db);
      }
    }
  }

  lemma FlagsAgree(c: ChInfo, s: State, t: State, u: nat, db: Db)
    requires ButFor(s, t, u)
    requires forall f :: f in Meet(c, s, db).flags <==> exists r :: r in Reqs(s) && Grants(r, c.ch, f, db)
    requires forall f :: f in Meet(c, t, db).flags <==> exists r :: r in Reqs(t) && Grants(r, c.ch, f, db)
    ensures var a := Reqs(s)[u];
            var b := a.(plan := Reqs(t)[u].plan);
            Meet(c, t, db).flags == Meet(c, s, db).flags <==>
            forall f :: Grants(a, c.ch, f, db) || OtherGrants(s, u, c.ch, f, db) <==>
                        Grants(b, c.ch, f, db) || OtherGrants(s, u, c.ch, f, db)
  {
    var a := Reqs(s)[u];
    var b := a.(plan := Reqs(t)[u].plan);
    assert a.(plan := a.plan) == a;
    var m, n := Meet(c, s, db).flags, Meet(c, t, db).flags;
    forall f
      ensures f in m <==> Grants(a, c.ch, f, db) || OtherGrants(s, u, c.ch, f, db)
      ensures f in n <==> Grants(b, c.ch, f, db) || OtherGrants(s, u, c.ch, f, db)
    {
      GrantedBy(s, s, u, c.ch, f, db);
      GrantedBy(s, t, u, c.ch, f, db);
    }
    if m != n {
      assert exists f :: !(f in m <==> f in n);
    }
  }

  /** A set merged from `s` is merged from `t` exactly when the two give every channel the same flags. */
  lemma MergedMoves(cs: seq<ChInfo>, s: State, t: State, db: Db)
    requires Merged(cs, s, db)
    ensures Merged(cs, t, db) <==> forall i :: 0 <= i < |cs| ==> Meet(cs[i], t, db).flags == Meet(cs[i], s, db).flags
  {
    forall i | 0 <= i < |cs| ensures MergedAt(cs[i], t, db) <==> Meet(cs[i], t, db).flags == Meet(cs[i], s, db).flags {
      var m, n := Meet(cs[i], s, db).flags, Meet(cs[i], t, db).flags;
      assert MergedAt(cs[i], s, db);
      if MergedAt(cs[i], t, db) {
        assert m - {NO_IR} == n - {NO_IR};
        assert forall f :: f in m <==> f in n by {
          forall f ensures f in m <==> f in n { assert f != NO_IR ==> (f in m <==> f in m - {NO_IR}) && (f in n <==> f in n - {NO_IR}); }
        }
      }
    }
  }

  lemma {:induction false} MeetKept(c: ChInfo, a: seq<Req>, b: seq<Req>, n: nat, dis: set<nat>, db: Db)
    requires CloseReqs(a, b) && n <= |b|
    requires forall i :: 0 <= i < |a| && a[i].applied ==> b[i].plan == a[i].plan
    ensures ApplyReqs(c, b, n, dis, db) == ApplyReqs(c, a, if n < |a| then n else |a|, dis, db)
  {
    if n > 0 { MeetKept(c, a, b, n - 1, dis, db); }
  }

  /** Unless an applied plan was overwritten since, the set last regulated is merged from the present list. */
  lemma CurrentUnlessOverwritten(d: Dev, env: Env, db: Db)
    requires DevInv(d, env, db) && forall u: nat :: !OverwrittenAt(d.reg, d.s, u)
    ensures Merged(d.cs, d.s, db)
  {
    var a, b := Reqs(d.reg), Reqs(d.s);
    assert forall i :: 0 <= i < |a| && a[i].applied && !OverwrittenAt(d.reg, d.s, i) ==> b[i].plan == a[i].plan;
    forall i | 0 <= i < |d.cs| ensures Meet(d.cs[i], d.s, db).flags == Meet(d.cs[i], d.reg, db).flags {
      MeetKept(Reset(d.cs[i], d.reg), a, b, |b|, d.reg.disFlags, db);
    }
    MergedMoves(d.cs, d.reg, d.s, db);
  }

  lemma OnlyThere(d: Dev, env: Env, db: Db, u: nat)
    requires DevInv(d, env, db) && OverwrittenAt(d.reg, d.s, u)
    ensures ButFor(d.reg, d.s, u)
  {
    var a, b := Reqs(d.reg), Reqs(d.s);
    assert b[u].inr == ByUser;
    forall i | 0 <= i < |a| && i != u && a[i].applied ensures b[i].plan == a[i].plan {
      if a[i].inr == ByUser {
        if i < u { OneUser(b, i, u); } else { OneUser(b, u, i); }
      }
    }
  }

  /** Exactly when the set is merged from the present list, and so sound for every applied plan: if no applied
      plan was overwritten since the last regulation, or the new plan agrees with the old on every channel. */
  lemma CurrentIff(d: Dev, env: Env, db: Db)
    requires DevInv(d, env, db) && NoDis(db)
    ensures Merged(d.cs, d.s, db) <==>
            forall u: nat, i :: OverwrittenAt(d.reg, d.s, u) && 0 <= i < |d.cs| ==> Agree(d.cs[i], d.reg, u, Reqs(d.s)[u].plan, db)
  {
    if u: nat :| OverwrittenAt(d.reg, d.s, u) {
      OnlyThere(d, env, db, u);
      MergedMoves(d.cs, d.reg, d.s, db);
      forall i | 0 <= i < |d.cs|
        ensures Meet(d.cs[i], d.s, db).flags == Meet(d.cs[i], d.reg, db).flags <==> Agree(d.cs[i], d.reg, u, Reqs(d.s)[u].plan, db)
      {
        AgreeIff(d.cs[i], d.reg, d.s, u, db);
      }
      forall v: nat | OverwrittenAt(d.reg, d.s, v) ensures v == u {
        OnlyThere(d, env, db, v);
      }
    } else {
      CurrentUnlessOverwritten(d, env, db);
    }
  }

  // ---- when the set is sound for the present list

  /** What the set accepts, passive channels included, every applied plan of the present list accepts. */
  ghost predicate SoundNow(d: Dev, db: Db) {
    forall x, r :: SetValid(d.cs, x, true, true) && r in Reqs(d.s) && Counts(r, db) ==>
      PlanValid(r.plan.domain, x, true, true, d.s, db)
  }

  /** A channel that the set has enabled, and that can be asked for. */
  predicate Open(c: ChInfo) { DIS !in c.flags && c.ch != 0 }

  /** An applied plan was overwritten by one that denies an enabled channel of the set. */
  ghost predicate NowDenied(d: Dev, db: Db, u: nat, i: nat) {
    && OverwrittenAt(d.reg, d.s, u) && i < |d.cs| && Open(d.cs[i])
    && Denies(Reqs(d.s)[u], d.cs[i].ch, d.s.disFlags, db)
  }

  /** Exactly when the set is sound for the present list. */
  lemma SoundIff(d: Dev, env: Env, db: Db)
    requires DevInv(d, env, db) && NoDis(db)
    ensures SoundNow(d, db) <==> !exists u: nat, i: nat :: NowDenied(d, db, u, i)
  {
    if u: nat, i: nat :| NowDenied(d, db, u, i) {
      StillAccepted(d, db, u, i);
    } else {
      forall x, r | SetValid(d.cs, x, true, true) && r in Reqs(d.s) && Counts(r, db)
        ensures PlanValid(r.plan.domain, x, true, true, d.s, db)
      {
        var v :| 0 <= v < |Reqs(d.s)| && Reqs(d.s)[v] == r;
        forall k | 0 <= k < |x.subs.value| ensures PlanAllows(r.plan.domain, x, x.subs.value[k], true, true, d.s, db) {
          assert SubValid(d.cs, x, k, true, true);
          var i := Search(d.cs, x.band, x.subs.value[k], 0);
          assert !NowDenied(d, db, v, i);
          OpenChannel(d, env, db, v, i);
        }
      }
    }
  }

  /** The lone channel is a width that the set accepts and the new plan refuses. */
  lemma StillAccepted(d: Dev, db: Db, u: nat, i: nat)
    requires NowDenied(d, db, u, i)
    ensures !SoundNow(d, db)
  {
    var c, r := d.cs[i], Reqs(d.s)[u];
    var x := Width(c.band, c.ch, 0, Some([c.ch]));
    assert SubValid(d.cs, x, 0, true, true);
    assert SetValid(d.cs, x, true, true) && r in Reqs(d.s) && Counts(r, db);
    assert x.subs.value[0] == c.ch && !PlanAllows(r.plan.domain, x, x.subs.value[0], true, true, d.s, db);
  }

  /** An enabled channel and an applied request: its plan allows the channel, unless it was overwritten. */
  lemma OpenChannel(d: Dev, env: Env, db: Db, v: nat, i: nat)
    requires DevInv(d, env, db) && NoDis(db) && v < |Reqs(d.s)| && Counts(Reqs(d.s)[v], db)
    requires i < |d.cs| && Open(d.cs[i]) && !NowDenied(d, db, v, i)
    ensures Usable(db.get(Reqs(d.s)[v].plan.domain, d.cs[i].ch), d.s.disFlags) && !Excluded(d.s.exclChs, d.cs[i].ch)
  {
    var a, c := Reqs(d.reg), d.cs[i];
    assert v < |a| && a[v].applied && a[v] in a;
    assert MergedAt(c, d.reg, db);
    if OverwrittenAt(d.reg, d.s, v) {
      NotExcluded(c, d.reg, db, v);
    } else {
      EnabledChannel(c, d.reg, db, a[v]);
    }
  }

  lemma NotExcluded(c: ChInfo, s: State, db: Db, v: nat)
    requires NoDis(db) && MergedAt(c, s, db) && DIS !in c.flags && v < |Reqs(s)| && Reqs(s)[v].applied
    ensures !Excluded(s.exclChs, c.ch)
  {
    var m := Meet(c, s, db).flags;
    assert DIS in m ==> DIS in m - {NO_IR};
    if c.band == G6 {
      Apply6(Reset(c, s), Reqs(s), |Reqs(s)|, s.disFlags, db);
    } else {
      MeetLaw(c, s, db);
    }
  }

  // ---- the same, asked before a command

  predicate AppliedUser(s: State, u: nat) { u < |Reqs(s)| && Reqs(s)[u].inr == ByUser && Reqs(s)[u].applied }

  lemma OverwritesIff(s: State, c: Command, scanned: seq<Record>, env: Env, u: nat)
    requires Inv(s, env) && Realtek(s, c) && !Prehdl(s, c, scanned, env).effected
    ensures var t := Prehdl(s, c, scanned, env).state;
            && (OverwrittenAt(s, t, u) <==> Missed(s, c, scanned, env) && AppliedUser(s, u))
            && (OverwrittenAt(s, t, u) ==> Reqs(t)[u].plan == Ask(s, c, env).plan)
  {
    var t := Prehdl(s, c, scanned, env).state;
    QuietStep(s, c, scanned, env);
    if c.ByUserCmd? {
      QuietUser(s, c, scanned, env);
      if AppliedUser(s, u) && Changes(s, c, env) {
        UserAt(s, Ask(s, c, env).plan, u);
      }
    } else {
      QuietCountry(s, c.update, scanned, false);
    }
  }

  /** A set merged from the present list may be taken as regulated with it. */
  lemma Rebased(d: Dev, c: Command, scanned: seq<Record>, env: Env, db: Db) returns (f: Dev)
    requires DevInv(d, env, db) && Realtek(d.s, c) && Merged(d.cs, d.s, db) && !Prehdl(d.s, c, scanned, env).effected
    ensures f == Dev(Prehdl(d.s, c, scanned, env).state, d.cs, d.s) && DevInv(f, env, db)
  {
    f := Dev(Prehdl(d.s, c, scanned, env).state, d.cs, d.s);
    QuietStep(d.s, c, scanned, env);
    StepKeeps(d.s, c, scanned, env);
    EngineOwns(d.s, env);
    assert forall i :: 0 <= i < |d.cs| ==> Lawful(d.cs[i], d.reg) && Lawful(d.cs[i], d.s);
  }

  /** From a device whose set is merged from its list, a command leaves it so if and only if it is not a missed
      one that overwrites an applied USER plan by one that differs from it on some channel of the set. */
  lemma StepCurrentIff(d: Dev, c: Command, scanned: seq<Record>, now: nat, env: Env, db: Db)
    requires DevInv(d, env, db) && NoDis(db) && Realtek(d.s, c) && Merged(d.cs, d.s, db)
    ensures var e := DevStep(d, Cmd(c, scanned), now, env, db);
            Merged(e.cs, e.s, db) <==>
            !(Missed(d.s, c, scanned, env) &&
              exists u: nat, i :: AppliedUser(d.s, u) && 0 <= i < |d.cs| && !Agree(d.cs[i], d.s, u, Ask(d.s, c, env).plan, db))
  {
    DevStepInv(d, Cmd(c, scanned), now, env, db);
    var o := Prehdl(d.s, c, scanned, env);
    if !o.effected {
      var f := Rebased(d, c, scanned, env, db);
      CurrentIff(f, env, db);
      forall u: nat
        ensures OverwrittenAt(d.s, o.state, u) <==> Missed(d.s, c, scanned, env) && AppliedUser(d.s, u)
        ensures OverwrittenAt(d.s, o.state, u) ==> Reqs(o.state)[u].plan == Ask(d.s, c, env).plan
      {
        OverwritesIff(d.s, c, scanned, env, u);
      }
    }
  }

  /** Plan `p` in place of the applied USER plan at `u` denies the enabled channel `i`. */
  ghost predicate WouldDeny(d: Dev, p: Plan, db: Db, u: nat, i: nat) {
    && AppliedUser(d.s, u) && i < |d.cs| && Open(d.cs[i])
    && Denies(Reqs(d.s)[u].(plan := p), d.cs[i].ch, d.s.disFlags, db)
  }

  lemma DeniedIff(d: Dev, c: Command, scanned: seq<Record>, env: Env, db: Db, u: nat, i: nat)
    requires Inv(d.s, env) && Realtek(d.s, c) && !Prehdl(d.s, c, scanned, env).effected
    ensures NowDenied(Dev(Prehdl(d.s, c, scanned, env).state, d.cs, d.s), db, u, i) <==>
            Missed(d.s, c, scanned, env) && WouldDeny(d, Ask(d.s, c, env).plan, db, u, i)
  {
    OverwritesIff(d.s, c, scanned, env, u);
    QuietStep(d.s, c, scanned, env);
  }

  /** And it stays sound if and only if the command is not a missed one that overwrites an applied USER plan by
      one that denies a channel the set has enabled. */
  lemma StepSoundIff(d: Dev, c: Command, scanned: seq<Record>, now: nat, env: Env, db: Db)
    requires DevInv(d, env, db) && NoDis(db) && Realtek(d.s, c) && Merged(d.cs, d.s, db)
    ensures SoundNow(DevStep(d, Cmd(c, scanned), now, env, db), db) <==>
            !(Missed(d.s, c, scanned, env) && exists u: nat, i: nat :: WouldDeny(d, Ask(d.s, c, env).plan, db, u, i))
  {
    var e := DevStep(d, Cmd(c, scanned), now, env, db);
    if Prehdl(d.s, c, scanned, env).effected {
      DevStepInv(d, Cmd(c, scanned), now, env, db);
      SoundIff(e, env, db);
    } else {
      var f := Rebased(d, c, scanned, env, db);
      SoundIff(f, env, db);
      assert SoundNow(e, db) == SoundNow(f, db);
      forall u: nat, i: nat
        ensures NowDenied(f, db, u, i) <==> Missed(d.s, c, scanned, env) && WouldDeny(d, Ask(d.s, c, env).plan, db, u, i)
      {
        DeniedIff(d, c, scanned, env, db, u, i);
      }
    }
  }

  // ---- the handler on the driver's own fields

  /** rtw_set_chplan_hdl: the control block takes one step, and the set is regulated if that had an effect. */
  method SetChplanHdl(rf: RfControl.RfCtl, chset: ChSet, c: Command, scanned: seq<Record>, now: nat, env: Env, db: Db, ghost reg: State)
    requires Inv(rf.View(), env) && SomeApplied(rf.View()) && Realtek(rf.View(), c)
    modifies rf, rf.cisr, chset`enableNum, chset.chs
    ensures var d := DevStep(Dev(old(rf.View()), old(chset.chs[..]), reg), Cmd(c, scanned), now, env, db);
            rf.View() == d.s && chset.chs[..] == d.cs
    ensures Inv(rf.View(), env) && SomeApplied(rf.View())
  {
    var effected := rf.SetChplan(c, scanned, env);
    if effected {
      EngineOwns(rf.View(), env);
      chset.ApplyRegulatory(rf.View(), db, now);
    }
  }

  // ---- every run

  ghost predicate IsDevRun(d: Dev, run: seq<(Act, nat)>, env: Env, db: Db)
    decreases |run|
  {
    run == [] || (Possible(d, run[0].0) && IsDevRun(DevStep(d, run[0].0, run[0].1, env, db), run[1..], env, db))
  }

  ghost function DevAfter(d: Dev, run: seq<(Act, nat)>, env: Env, db: Db): Dev
    requires IsDevRun(d, run, env, db)
    decreases |run|
  {
    if run == [] then d else DevAfter(DevStep(d, run[0].0, run[0].1, env, db), run[1..], env, db)
  }

  lemma {:induction false} DevRunInv(d: Dev, run: seq<(Act, nat)>, env: Env, db: Db)
    requires DevInv(d, env, db) && IsDevRun(d, run, env, db)
    ensures DevInv(DevAfter(d, run, env, db), env, db)
    decreases |run|
  {
    if run != [] {
      DevStepInv(d, run[0].0, run[0].1, env, db);
      DevRunInv(DevStep(d, run[0].0, run[0].1, env, db), run[1..], env, db);
    }
  }

  /** From power-on, over every run of commands, beacons heard and expiry passes: the set is merged from the
      present list if and only if no applied plan was overwritten since the set was last regulated by one that
      differs from it on a channel of the set, and sound for the list if and only if none was by one that denies
      an enabled channel. */
  lemma EveryDevRun(p: Plan, mode: nat, flags: Flags, always: Always, n: nat, dis: set<nat>, excl: seq<nat>,
                    cs: seq<ChInfo>, now: nat, run: seq<(Act, nat)>, env: Env, db: Db)
    requires NoDis(db) && IsDevRun(Power(Initial(p, mode, flags, always, n, dis, excl, env), cs, now, db), run, env, db)
    ensures var d := DevAfter(Power(Initial(p, mode, flags, always, n, dis, excl, env), cs, now, db), run, env, db);
            && (Merged(d.cs, d.s, db) <==>
                forall u: nat, i :: OverwrittenAt(d.reg, d.s, u) && 0 <= i < |d.cs| ==>
                  Agree(d.cs[i], d.reg, u, Reqs(d.s)[u].plan, db))
            && (SoundNow(d, db) <==> !exists u: nat, i: nat :: NowDenied(d, db, u, i))
  {
    var s := Initial(p, mode, flags, always, n, dis, excl, env);
    InitialInv(p, mode, flags, always, n, dis, excl, env);
    PowerInv(s, cs, now, env, db);
    DevRunInv(Power(s, cs, now, db), run, env, db);
    var d := DevAfter(Power(s, cs, now, db), run, env, db);
    CurrentIff(d, env, db);
    SoundIff(d, env, db);
  }

  // ---- one concrete stale set

  const JP: Plan := Plan("JP", 0x7D, EDCCA_DEF, EDCCA_DEF, TXPWR_LMT_DEF, {0, 1, 2})

  function UserSelects(p: Plan): Command { ByUserCmd(Some(p), p.domain, NO_CONFS) }

  function Start(env: Env): State {
    Initial(US, MODE_ENABLE_WW, Flags(false, false), Always(false, false), 1, {}, [], env)
  }

  const INIT_REQ: Req := Req(0, RtkPriv, ByInit, US, 0, false)
  const JP_REQ: Req := Req(1, RtkPriv, ByUser, JP, 0, true)

  /** What the first of the two commands leaves. */
  ghost predicate HasJp(s: State) {
    && Reqs(s) == [INIT_REQ, JP_REQ] && s.user == Some(1) && s.sum == PlainSummary(US, JP, Always(false, false))
    && s.disFlags == {} && s.exclChs == [] && s.always == Always(false, false) && s.mode == MODE_ENABLE_WW
    && !s.cis.enabled && s.cis.flags == Flags(false, false) && Plans(s.cis.records) == []
  }

  lemma SelectJp(env: Env)
    requires env.valid(JP.domain) && !env.disableSw
    ensures Realtek(Start(env), UserSelects(JP)) && Inv(Start(env), env)
    ensures Prehdl(Start(env), UserSelects(JP), [], env).effected && HasJp(Step(Start(env), UserSelects(JP), [], env))
  {
    var s := Start(env);
    InitialInv(US, MODE_ENABLE_WW, Flags(false, false), Always(false, false), 1, {}, [], env);
    PlansEmpty(s.cis.records);
    PlainMissed(s, JP, [], env);
    var t := SetUser(s, JP);
    NothingToConfigure(t);
    var q := [INIT_REQ.(applied := true), JP_REQ.(applied := false)];
    assert Reqs(t) == q && q[1..] == [q[1]];
    assert PlanOf(q, 1) == JP;
    assert Prehdl(s, UserSelects(JP), [], env) == Outcome(t, true);
    NewUserIsTop(q, 1);
    TwoSummed(q, s.always);
    var m := Marked(q, RtkPriv, ByUser, s.always, 2);
    assert m == [INIT_REQ, JP_REQ];
    assert PlanOf(m, 1) == JP by { assert m[1..] == [JP_REQ]; }
  }

  lemma SelectWorld(s: State, env: Env)
    requires Inv(s, env) && HasJp(s) && env.valid(CHPLAN_WORLDWIDE) && !env.disableSw
    ensures Realtek(s, UserSelects(WORLD))
    ensures var o := Prehdl(s, UserSelects(WORLD), [], env);
            !o.effected && |Reqs(o.state)| == 2 && Reqs(o.state)[1].applied && Reqs(o.state)[1].plan == WORLD
  {
    assert [INIT_REQ, JP_REQ][1..] == [JP_REQ];
    assert PlanOf([INIT_REQ, JP_REQ], 1) == JP;
    UserAt(s, WORLD, 1);
    var t := SetUser(s, WORLD);
    ReplanTwo(Reqs(s), 1, WORLD);
    assert Reqs(t) == [INIT_REQ, JP_REQ.(plan := WORLD)] && Reqs(t)[1..] == [JP_REQ.(plan := WORLD)];
    assert PlanOf(Reqs(t), 1) == WORLD;
    PlainMissed(s, WORLD, [], env);
    QuietUser(s, UserSelects(WORLD), [], env);
  }

  /** Started with "US" and following country IEs in world-wide mode, the user selects "JP" and then
      world-wide: the second command is missed. The list then holds the world-wide plan as applied, which has
      no channel 14, and the set still accepts it (plans 0x7D and 0x7F of core/regdb/rtw_regdb_rtk_64-42.c:144-147, 345-347). */
  lemma StaleSet(env: Env, db: Db)
    requires env.valid(JP.domain) && env.valid(CHPLAN_WORLDWIDE) && !env.disableSw && NoDis(db)
    requires db.valid(JP.domain) && db.get(JP.domain, 14) == Some({}) && db.valid(CHPLAN_WORLDWIDE) && db.get(CHPLAN_WORLDWIDE, 14) == None
    ensures var d := Power(Start(env), [ChInfo(G24, 14, {}, false, 0)], 0, db);
            var run: seq<(Act, nat)> := [(Cmd(UserSelects(JP), []), 1), (Cmd(UserSelects(WORLD), []), 2)];
            && IsDevRun(d, run, env, db)
            && var e, w := DevAfter(d, run, env, db), Width(G24, 14, 0, Some([14]));
            && SetValid(e.cs, w, true, true)
            && exists r :: r in Reqs(e.s) && Counts(r, db) && !PlanValid(r.plan.domain, w, true, true, e.s, db)
  {
    var d := Power(Start(env), [ChInfo(G24, 14, {}, false, 0)], 0, db);
    var run: seq<(Act, nat)> := [(Cmd(UserSelects(JP), []), 1), (Cmd(UserSelects(WORLD), []), 2)];
    SelectJp(env);
    StepKeeps(Start(env), UserSelects(JP), [], env);
    RegulatedLawful(ChInfo(G24, 14, {}, false, 0), Start(env), db, 0);
    var d1 := DevStep(d, run[0].0, 1, env, db);
    SelectWorld(d1.s, env);
    TwoSteps(d, run[0].0, run[1].0, env, db);
    var e := DevStep(d1, run[1].0, 2, env, db);
    assert e.cs == d1.cs;
    StillOpen(d, d1, db);
    Refused(e.s, db);
  }

  lemma TwoSteps(d: Dev, a: Act, b: Act, env: Env, db: Db)
    requires Possible(d, a) && Possible(DevStep(d, a, 1, env, db), b)
    ensures var run: seq<(Act, nat)> := [(a, 1), (b, 2)];
            IsDevRun(d, run, env, db) && DevAfter(d, run, env, db) == DevStep(DevStep(d, a, 1, env, db), b, 2, env, db)
  {
    var run: seq<(Act, nat)> := [(a, 1), (b, 2)];
    var d1 := DevStep(d, a, 1, env, db);
    var d2 := DevStep(d1, b, 2, env, db);
    assert run[1..] == [(b, 2)] && |run[1..][1..]| == 0;
    assert IsDevRun(d2, run[1..][1..], env, db) && DevAfter(d2, run[1..][1..], env, db) == d2;
    assert IsDevRun(d1, run[1..], env, db) && DevAfter(d1, run[1..], env, db) == d2;
  }

  lemma Refused(s: State, db: Db)
    requires |Reqs(s)| == 2 && Reqs(s)[1].applied && Reqs(s)[1].plan == WORLD
    requires db.valid(CHPLAN_WORLDWIDE) && db.get(CHPLAN_WORLDWIDE, 14) == None
    ensures exists r :: r in Reqs(s) && Counts(r, db) && !PlanValid(r.plan.domain, Width(G24, 14, 0, Some([14])), true, true, s, db)
  {
    var r, w := Reqs(s)[1], Width(G24, 14, 0, Some([14]));
    assert r in Reqs(s) && Counts(r, db) && w.subs.value[0] == 14;
  }

  lemma StillOpen(d: Dev, d1: Dev, db: Db)
    requires |d.cs| == 1 && d.cs[0].band == G24 && d.cs[0].ch == 14 && HasJp(d1.s) && NoDis(db)
    requires d1 == Power(d1.s, d.cs, 1, db) && db.valid(JP.domain) && db.get(JP.domain, 14) == Some({})
    ensures SetValid(d1.cs, Width(G24, 14, 0, Some([14])), true, true)
  {
    var c, s := d.cs[0], d1.s;
    MeetLaw(c, s, db);
    forall r | r in Reqs(s) ensures !Denies(r, 14, s.disFlags, db) && forall b :: !Grants(r, 14, b, db) {
      assert r == INIT_REQ || r == JP_REQ;
    }
    assert !Disabled(c, s, db);
    RegulatedLawful(c, s, db, 1);
    var x := d1.cs[0];
    assert x == Regulated(c, s, db, 1) && DIS !in x.flags && x.flags == {};
    var w := Width(G24, 14, 0, Some([14]));
    assert SubValid(d1.cs, w, 0, true, true);
  }
}
