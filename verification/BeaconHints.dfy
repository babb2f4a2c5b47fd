/**
 Applying the regulatory rules to the channel set and the beacon hints that
 lift NO_IR for a while (core/rtw_chplan.c), over every run.
 */
module BeaconHints {
  import opened Options
  import opened Requests
  import opened Selection
  import opened Regulatory
  import opened ChannelSet

  /** The system clock wraps; this is the width of `unsigned long` on a 64-bit host. */
  const CLOCK: nat := 0x1_0000_0000_0000_0000

  /** rtw_time_after */
  predicate TimeAfter(a: nat, b: nat) { (b - a) % CLOCK >= CLOCK / 2 }

  /** CH_IS_BCN_HINT */
  predicate IsHint(c: ChInfo, now: nat) { c.hintEnd != 0 && TimeAfter(c.hintEnd, now) }

  /** rtw_rfctl_reg_allow_beacon_hint: world-wide, unspecified or intersected rules. */
  predicate RulesAllow(alpha2: string) {
    alpha2 == WORLDWIDE_ALPHA2 || alpha2 == UNSPEC_ALPHA2 || alpha2 == INTERSECTED_ALPHA2
  }

  /** rtw_chinfo_allow_beacon_hint */
  predicate ChannelAllows(c: ChInfo) { !(c.band == G24 && c.ch <= 11) && DFS !in c.flags }

  // ---- one channel

  /** The last loop of rtw_rfctl_chset_apply_regulatory. */
  function Finish(c: ChInfo, alpha2: string, now: nat): ChInfo {
    var d := c.(regNoIr := NO_IR in c.flags);
    if DIS !in d.flags && NO_IR in d.flags && IsHint(d, now) && RulesAllow(alpha2) && ChannelAllows(d)
    then d.(flags := d.flags - {NO_IR}) else d
  }

  function Regulated(c: ChInfo, s: State, db: Db, now: nat): ChInfo {
    Finish(Meet(c, s, db), s.sum.alpha2, now)
  }

  function HintEnd(now: nat, valid: nat): (e: nat)
    ensures e != 0
  {
    var t := (now + valid) % CLOCK;
    if t == 0 then 1 else t
  }

  /** rtw_process_beacon_hint on the channel it found. */
  function Heard(c: ChInfo, s: State, now: nat, valid: nat): ChInfo {
    var d := if s.sum.src == RtkPriv then c.(hintEnd := HintEnd(now, valid)) else c;
    if NO_IR in d.flags && RulesAllow(s.sum.alpha2) && ChannelAllows(d) then d.(flags := d.flags - {NO_IR}) else d
  }

  /** The loop of rtw_beacon_hint_expire. */
  function Expired(c: ChInfo, now: nat): ChInfo {
    if !IsHint(c, now) && c.hintEnd != 0 then
      c.(hintEnd := 0, flags := if c.regNoIr then c.flags + {NO_IR} else c.flags)
    else c
  }

  // ---- the whole set

  datatype Event =
    | Regulate(s: State)
    | Hear(band: Band, ch: nat, valid: nat)
    | Expire(busy: bool)

  /** The set, and the rules it was last regulated with. */
  datatype World = World(cs: seq<ChInfo>, s: State)

  function StepSet(w: World, e: Event, now: nat, db: Db): (v: World)
    ensures |v.cs| == |w.cs|
  {
    match e
    case Regulate(s) => World(seq(|w.cs|, i requires 0 <= i < |w.cs| => Regulated(w.cs[i], s, db, now)), s)
    case Hear(band, ch, valid) =>
      var k := Search(w.cs, band, ch, 0);
      if ch == 0 || k == |w.cs| then w else w.(cs := w.cs[k := Heard(w.cs[k], w.s, now, valid)])
    case Expire(busy) =>
      if w.s.sum.src != RtkPriv || busy then w
      else w.(cs := seq(|w.cs|, i requires 0 <= i < |w.cs| => Expired(w.cs[i], now)))
  }

  /** The driver's own source is in force. */
  ghost predicate Own(s: State) { s.sum.src == RtkPriv && forall r :: r in Reqs(s) && r.applied ==> r.src == RtkPriv }

  /** A passive channel is active only through a hint that is not stopped, under rules and on a channel that
      allow it. */
  ghost predicate Lawful(c: ChInfo, s: State) {
    && (NO_IR in c.flags ==> c.regNoIr)
    && (c.regNoIr && NO_IR !in c.flags ==> c.hintEnd != 0 && ChannelAllows(c) && RulesAllow(s.sum.alpha2))
  }

  ghost predicate SetInv(w: World, db: Db) {
    Own(w.s) && Merged(w.cs, w.s, db) && forall i :: 0 <= i < |w.cs| ==> Lawful(w.cs[i], w.s)
  }

  /** Only the band and the number of a channel matter to its flags. */
  lemma {:induction false} ApplySame(c: ChInfo, d: ChInfo, rs: seq<Req>, n: nat, dis: set<nat>, db: Db)
    requires n <= |rs| && c.band == d.band && c.ch == d.ch && c.flags == d.flags
    ensures ApplyReqs(c, rs, n, dis, db).flags == ApplyReqs(d, rs, n, dis, db).flags
    ensures ApplyReqs(c, rs, n, dis, db) == c.(flags := ApplyReqs(c, rs, n, dis, db).flags)
    ensures ApplyReqs(d, rs, n, dis, db) == d.(flags := ApplyReqs(d, rs, n, dis, db).flags)
  {
    if n > 0 { ApplySame(c, d, rs, n - 1, dis, db); }
  }

  lemma MeetSame(c: ChInfo, d: ChInfo, s: State, db: Db)
    requires c.band == d.band && c.ch == d.ch
    ensures Meet(c, s, db).flags == Meet(d, s, db).flags && Meet(c, s, db) == c.(flags := Meet(c, s, db).flags)
  {
    ApplySame(Reset(c, s), Reset(d, s), Reqs(s), |Reqs(s)|, s.disFlags, db);
  }

  lemma RegulatedLawful(c: ChInfo, s: State, db: Db, now: nat)
    ensures var d := Regulated(c, s, db, now); MergedAt(d, s, db) && Lawful(d, s) && d.band == c.band && d.ch == c.ch
  {
    var m, d := Meet(c, s, db), Regulated(c, s, db, now);
    MeetSame(c, c, s, db);
    MeetSame(c, d, s, db);
    assert d.flags - {NO_IR} == m.flags - {NO_IR};
  }

  lemma HeardLawful(c: ChInfo, s: State, db: Db, now: nat, valid: nat)
    requires MergedAt(c, s, db) && Lawful(c, s) && s.sum.src == RtkPriv
    ensures var d := Heard(c, s, now, valid); MergedAt(d, s, db) && Lawful(d, s) && d.band == c.band && d.ch == c.ch
  {
    var d := Heard(c, s, now, valid);
    MeetSame(c, d, s, db);
    assert d.flags - {NO_IR} == c.flags - {NO_IR};
  }

  lemma ExpiredLawful(c: ChInfo, s: State, db: Db, now: nat)
    requires MergedAt(c, s, db) && Lawful(c, s)
    ensures var d := Expired(c, now); MergedAt(d, s, db) && Lawful(d, s) && d.band == c.band && d.ch == c.ch
    ensures var d := Expired(c, now); d.regNoIr && NO_IR !in d.flags ==> IsHint(d, now)
  {
    var d := Expired(c, now);
    MeetSame(c, d, s, db);
    assert d.flags - {NO_IR} == c.flags - {NO_IR};
  }

  /** Regulation establishes the invariant whatever the set was, and every event keeps it. */
  lemma StepSetInv(w: World, e: Event, now: nat, db: Db)
    requires e.Regulate? || SetInv(w, db)
    requires e.Regulate? ==> Own(e.s)
    ensures SetInv(StepSet(w, e, now, db), db)
  {
    var v := StepSet(w, e, now, db);
    forall i | 0 <= i < |v.cs| ensures MergedAt(v.cs[i], v.s, db) && Lawful(v.cs[i], v.s) {
      match e
      case Regulate(s) => RegulatedLawful(w.cs[i], s, db, now);
      case Hear(_, _, valid) => HeardLawful(w.cs[i], w.s, db, now, valid);
      case Expire(_) => ExpiredLawful(w.cs[i], w.s, db, now);
    }
  }

  /** Events with the times at which they happen. */
  ghost predicate OwnRun(run: seq<(Event, nat)>) {
    forall i :: 0 <= i < |run| ==> (run[i].0.Regulate? ==> Own(run[i].0.s))
  }

  ghost function AfterSet(w: World, run: seq<(Event, nat)>, db: Db): (v: World)
    ensures |v.cs| == |w.cs|
    decreases |run|
  {
    if run == [] then w else AfterSet(StepSet(w, run[0].0, run[0].1, db), run[1..], db)
  }

  lemma {:induction false} RunSetInv(w: World, run: seq<(Event, nat)>, db: Db)
    requires SetInv(w, db) && OwnRun(run)
    ensures SetInv(AfterSet(w, run, db), db)
    decreases |run|
  {
    if run != [] {
      assert run[0].0.Regulate? ==> Own(run[0].0.s);
      StepSetInv(w, run[0].0, run[0].1, db);
      assert OwnRun(run[1..]) by {
        forall i | 0 <= i < |run| - 1 ensures run[1..][i].0.Regulate? ==> Own(run[1..][i].0.s) {
          assert run[1..][i] == run[i + 1];
        }
      }
      RunSetInv(StepSet(w, run[0].0, run[0].1, db), run[1..], db);
    }
  }

  /** From the first regulation on, over every run: NO_IR only where the rules say so; a channel passive by
      the rules is active only on a running hint, never on a DFS channel or a 2.4 GHz channel up to 11; and
      what the set accepts, passive channels included, every applied plan accepts. */
  lemma EveryHintRun(w: World, s: State, now: nat, run: seq<(Event, nat)>, db: Db, i: nat)
    requires Own(s) && OwnRun(run) && i < |w.cs|
    ensures var v := AfterSet(StepSet(w, Regulate(s), now, db), run, db);
            var c := v.cs[i];
            && SetInv(v, db)
            && (NO_IR in c.flags ==> c.regNoIr)
            && (c.regNoIr && NO_IR !in c.flags ==>
                  c.hintEnd != 0 && DFS !in c.flags && !(c.band == G24 && c.ch <= 11))
            && (NoDis(db) ==> forall x, r :: SetValid(v.cs, x, true, true) && r in Reqs(v.s) && Counts(r, db) ==>
                  PlanValid(r.plan.domain, x, true, true, v.s, db))
  {
    var u := StepSet(w, Regulate(s), now, db);
    StepSetInv(w, Regulate(s), now, db);
    RunSetInv(u, run, db);
    var v := AfterSet(u, run, db);
    assert Lawful(v.cs[i], v.s);
    if NoDis(db) {
      forall x, r | SetValid(v.cs, x, true, true) && r in Reqs(v.s) && Counts(r, db)
        ensures PlanValid(r.plan.domain, x, true, true, v.s, db)
      {
        SetIsSound(v.cs, x, true, true, v.s, db, r);
      }
    }
  }

  /** After an expiry pass with no interface active, every active passive channel has an unexpired hint; with one
      active the pass does nothing. */
  lemma ExpiryLaw(w: World, now: nat, db: Db, i: nat)
    requires SetInv(w, db) && i < |w.cs|
    ensures var c := StepSet(w, Expire(false), now, db).cs[i];
            c.regNoIr && NO_IR !in c.flags ==> IsHint(c, now)
    ensures StepSet(w, Expire(true), now, db) == w
  {
    ExpiredLawful(w.cs[i], w.s, db, now);
  }

  /** Regulating again with the same rules at the same moment changes nothing, so the reset in it does not
      lose a hint that still holds. */
  lemma RegulateTwice(c: ChInfo, s: State, db: Db, now: nat)
    ensures Regulated(Regulated(c, s, db, now), s, db, now) == Regulated(c, s, db, now)
  {
    MeetSame(c, c, s, db);
    MeetSame(c, Regulated(c, s, db, now), s, db);
    MeetSame(Regulated(c, s, db, now), c, s, db);
  }

  // ---- what a hint does

  /** A hint may help: the rules are world-wide, unspecified or intersected, and the channel is neither DFS nor a
      2.4 GHz channel up to 11. */
  ghost predicate MayHelp(band: Band, ch: nat, flags: set<nat>, alpha2: string) {
    alpha2 in {"00", "99", "98"} && !(band == G24 && ch <= 11) && 2 !in flags
  }

  /** A beacon heard makes its channel active exactly where a hint may help, and changes no other flag. */
  lemma HeardLaw(c: ChInfo, s: State, now: nat, valid: nat)
    ensures var d := Heard(c, s, now, valid);
            && (1 in d.flags <==> 1 in c.flags && !MayHelp(c.band, c.ch, c.flags, s.sum.alpha2))
            && d.flags - {1} == c.flags - {1} && d.band == c.band && d.ch == c.ch && d.regNoIr == c.regNoIr
            && d.hintEnd == (if s.sum.src == RtkPriv then HintEnd(now, valid) else c.hintEnd)
  {
    assert (c.flags - {NO_IR}) - {1} == c.flags - {1};
  }

  /** So does regulation while a hint is running: NO_IR of the plans stays exactly where none is, or it may not help. */
  lemma RegulatedLaw(c: ChInfo, s: State, db: Db, now: nat)
    requires NoDis(db)
    ensures var d, m := Regulated(c, s, db, now), Meet(c, s, db).flags;
            && (1 in d.flags <==> 1 in m && !(IsHint(c, now) && MayHelp(c.band, c.ch, m, s.sum.alpha2)))
            && d.flags - {1} == m - {1} && d.band == c.band && d.ch == c.ch && d.hintEnd == c.hintEnd && d.regNoIr == (1 in m)
  {
    var m := Meet(c, s, db);
    MeetSame(c, c, s, db);
    MeetDisabled(c, s, db);
    assert (m.flags - {NO_IR}) - {1} == m.flags - {1};
  }

  lemma MeetDisabled(c: ChInfo, s: State, db: Db)
    requires NoDis(db)
    ensures DIS in Meet(c, s, db).flags ==> Meet(c, s, db).flags == {DIS}
  {
    if c.band == G6 {
      Apply6(Reset(c, s), Reqs(s), |Reqs(s)|, s.disFlags, db);
    } else {
      MeetLaw(c, s, db);
    }
  }

  /** A hint heard at `now` with validity `valid` runs for that long and no longer; where the end would be the
      value for "stopped" it runs one tick more. */
  lemma HintRuns(c: ChInfo, now: nat, valid: nat, d: nat)
    requires c.hintEnd == HintEnd(now, valid) && 0 < valid < CLOCK / 2
    ensures var end := if (now + valid) % CLOCK == 0 then valid + 1 else valid;
            d < end + CLOCK / 2 ==> (IsHint(c, now + d) <==> d < end)
  {
    var end := if (now + valid) % CLOCK == 0 then valid + 1 else valid;
    var e := c.hintEnd;
    var q := (now + end) / CLOCK;
    assert now + end == q * CLOCK + e by {
      if (now + valid) % CLOCK == 0 {
        var h := (now + valid) / CLOCK;
        assert now + valid == h * CLOCK;
        Quotient(h, 1);
      }
    }
    if d < end + CLOCK / 2 {
      assert (now + d) - e == (d - end) + q * CLOCK;
      Wraps(d - end, q);
    }
  }

  lemma Quotient(h: nat, r: nat)
    requires r < CLOCK
    ensures (h * CLOCK + r) / CLOCK == h && (h * CLOCK + r) % CLOCK == r
  {
  }

  /** Where a difference of less than half the clock lies. */
  lemma Wraps(x: int, q: nat)
    requires -(CLOCK / 2) <= x < CLOCK / 2
    ensures (x + q * CLOCK) % CLOCK >= CLOCK / 2 <==> x < 0
  {
    if x < 0 {
      if q > 0 { Quotient(q - 1, x + CLOCK); }
    } else {
      Quotient(q, x);
    }
  }

  /** An expiry pass leaves a running hint and a stopped one as they are; an expired one is stopped, and its channel
      is passive again if the rules say so. */
  lemma ExpiredLaw(c: ChInfo, now: nat)
    ensures IsHint(c, now) || c.hintEnd == 0 ==> Expired(c, now) == c
    ensures !IsHint(c, now) && c.hintEnd != 0 ==>
              var d := Expired(c, now);
              && d.hintEnd == 0 && d.regNoIr == c.regNoIr && d.band == c.band && d.ch == c.ch
              && (1 in d.flags <==> 1 in c.flags || c.regNoIr) && d.flags - {1} == c.flags - {1}
  {
    assert (c.flags + {NO_IR}) - {1} == c.flags - {1};
  }

  /** The events between a hint and its end: no beacon of the channel, and rules under which a hint may help it. */
  ghost predicate Within(c: ChInfo, run: seq<(Event, nat)>, from: nat, till: nat, db: Db) {
    forall i :: 0 <= i < |run| ==>
      && from <= run[i].1 < till
      && (run[i].0.Hear? ==> !(run[i].0.band == c.band && run[i].0.ch == c.ch))
      && (run[i].0.Regulate? ==> MayHelp(c.band, c.ch, Meet(c, run[i].0.s, db).flags, run[i].0.s.sum.alpha2))
  }

  /** One event before the end leaves an active channel active. */
  lemma StepActive(w: World, e: Event, now: nat, db: Db, i: nat, at: nat, valid: nat)
    requires NoDis(db) && i < |w.cs| && NO_IR !in w.cs[i].flags && w.cs[i].hintEnd == HintEnd(at, valid)
    requires 0 < valid < CLOCK / 2 && at <= now < at + valid
    requires e.Hear? ==> !(e.band == w.cs[i].band && e.ch == w.cs[i].ch)
    requires e.Regulate? ==> MayHelp(w.cs[i].band, w.cs[i].ch, Meet(w.cs[i], e.s, db).flags, e.s.sum.alpha2)
    ensures var d := StepSet(w, e, now, db).cs[i];
            NO_IR !in d.flags && d.hintEnd == w.cs[i].hintEnd && d.band == w.cs[i].band && d.ch == w.cs[i].ch
  {
    HintRuns(w.cs[i], at, valid, now - at);
    match e
    case Regulate(s) => RegulatedLaw(w.cs[i], s, db, now);
    case Hear(_, _, _) =>
    case Expire(_) => ExpiredLaw(w.cs[i], now);
  }

  /** A channel that a hint has made active stays active until the hint ends. */
  lemma {:induction false} ActiveUntilEnd(w: World, run: seq<(Event, nat)>, db: Db, i: nat, at: nat, valid: nat)
    requires NoDis(db) && i < |w.cs| && NO_IR !in w.cs[i].flags && w.cs[i].hintEnd == HintEnd(at, valid)
    requires 0 < valid < CLOCK / 2 && Within(w.cs[i], run, at, at + valid, db)
    ensures NO_IR !in AfterSet(w, run, db).cs[i].flags
    decreases |run|
  {
    if run != [] {
      var v := StepSet(w, run[0].0, run[0].1, db);
      StepActive(w, run[0].0, run[0].1, db, i, at, valid);
      forall j | 0 <= j < |run| - 1
        ensures run[1..][j].0.Regulate? ==>
                  MayHelp(v.cs[i].band, v.cs[i].ch, Meet(v.cs[i], run[1..][j].0.s, db).flags, run[1..][j].0.s.sum.alpha2)
      {
        assert run[1..][j] == run[j + 1];
        if run[j + 1].0.Regulate? { MeetSame(v.cs[i], w.cs[i], run[j + 1].0.s, db); }
      }
      assert Within(v.cs[i], run[1..], at, at + valid, db);
      ActiveUntilEnd(v, run[1..], db, i, at, valid);
    }
  }

  /** From the beacon on: heard at `at` on a channel that a hint may help, the channel is active until the end. */
  lemma HintLasts(w: World, at: nat, valid: nat, run: seq<(Event, nat)>, db: Db, i: nat)
    requires NoDis(db) && w.s.sum.src == RtkPriv && 0 < valid < CLOCK / 2
    requires i < |w.cs| && w.cs[i].ch != 0 && i == Search(w.cs, w.cs[i].band, w.cs[i].ch, 0)
    requires MayHelp(w.cs[i].band, w.cs[i].ch, w.cs[i].flags, w.s.sum.alpha2)
    requires Within(w.cs[i], run, at, at + valid, db)
    ensures NO_IR !in AfterSet(StepSet(w, Hear(w.cs[i].band, w.cs[i].ch, valid), at, db), run, db).cs[i].flags
  {
    var v := StepSet(w, Hear(w.cs[i].band, w.cs[i].ch, valid), at, db);
    HeardLaw(w.cs[i], w.s, at, valid);
    forall j | 0 <= j < |run| && run[j].0.Regulate?
      ensures Meet(v.cs[i], run[j].0.s, db).flags == Meet(w.cs[i], run[j].0.s, db).flags
    {
      MeetSame(v.cs[i], w.cs[i], run[j].0.s, db);
    }
    ActiveUntilEnd(v, run, db, i, at, valid);
  }

  /** The enabled channels among the first `n`. */
  function EnabledNum(cs: seq<ChInfo>, n: nat): nat
    requires n <= |cs|
  {
    if n == 0 then 0 else EnabledNum(cs, n - 1) + (if DIS in cs[n - 1].flags then 0 else 1)
  }

  lemma {:induction false} EnabledSize(cs: seq<ChInfo>, n: nat)
    requires n <= |cs|
    ensures EnabledNum(cs, n) == |set i | 0 <= i < n && DIS !in cs[i].flags|
  {
    var a := set i | 0 <= i < n && DIS !in cs[i].flags;
    if n == 0 {
      assert a == {};
    } else {
      EnabledSize(cs, n - 1);
      var b := set i | 0 <= i < n - 1 && DIS !in cs[i].flags;
      assert a == if DIS in cs[n - 1].flags then b else b + {n - 1};
    }
  }

  /** A channel that no hint can help. */
  lemma NeverLifted(c: ChInfo, s: State, db: Db, now: nat, valid: nat)
    requires !RulesAllow(s.sum.alpha2) || (c.band == G24 && c.ch <= 11)
    ensures Regulated(c, s, db, now).flags == Meet(c, s, db).flags
    ensures Heard(c, s, now, valid).flags == c.flags
  {
    MeetSame(c, c, s, db);
  }

  // ---- the set as the driver keeps it

  class ChSet {
    const chs: array<ChInfo>
    var enableNum: nat

    constructor (cs: seq<ChInfo>)
      ensures chs[..] == cs && fresh(chs)
    {
      chs := new ChInfo[|cs|](i requires 0 <= i < |cs| => cs[i]);
      enableNum := 0;
    }

    method ResetFlags(s: State)
      modifies chs
      ensures forall i :: 0 <= i < chs.Length ==> chs[i] == Reset(old(chs[i]), s)
    {
      for i := 0 to chs.Length
        invariant forall k :: 0 <= k < i ==> chs[k] == Reset(old(chs[k]), s)
        invariant forall k :: i <= k < chs.Length ==> chs[k] == old(chs[k])
      {
        var excluded := IsExcluded(s.exclChs, chs[i].ch);
        if Off(chs[i], s) || (chs[i].band != G6 && excluded) {
          chs[i] := chs[i].(flags := {DIS});
        } else {
          chs[i] := chs[i].(flags := {});
        }
      }
    }

    method ApplyFrom(domain: nat, dis: set<nat>, db: Db)
      modifies chs
      ensures forall i :: 0 <= i < chs.Length ==> chs[i] == ApplyPlan(old(chs[i]), domain, dis, db)
    {
      for i := 0 to chs.Length
        invariant forall k :: 0 <= k < i ==> chs[k] == ApplyPlan(old(chs[k]), domain, dis, db)
        invariant forall k :: i <= k < chs.Length ==> chs[k] == old(chs[k])
      {
        var c := chs[i];
        if DIS in c.flags { continue; }
        var usable := false;
        var u := None;
        if c.band != G6 {
          if !db.valid(domain) { continue; }
          u := db.get(domain, c.ch);
          usable := u.Some? && u.value !! dis;
        }
        chs[i] := c.(flags := if usable then c.flags + u.value else {DIS});
      }
    }

    method ApplyRequests(rs: seq<Req>, dis: set<nat>, db: Db)
      requires forall r :: r in rs && r.applied ==> r.src == RtkPriv
      modifies chs
      ensures forall i :: 0 <= i < chs.Length ==> chs[i] == ApplyReqs(old(chs[i]), rs, |rs|, dis, db)
    {
      for n := 0 to |rs|
        invariant forall i :: 0 <= i < chs.Length ==> chs[i] == ApplyReqs(old(chs[i]), rs, n, dis, db)
      {
        if rs[n].applied { ApplyFrom(rs[n].plan.domain, dis, db); }
      }
    }

    method FinishFlags(alpha2: string, now: nat)
      modifies this`enableNum, chs
      ensures forall i :: 0 <= i < chs.Length ==> chs[i] == Finish(old(chs[i]), alpha2, now)
      ensures enableNum == EnabledNum(chs[..], chs.Length)
    {
      enableNum := 0;
      ghost var was := chs[..];
      for i := 0 to chs.Length
        invariant forall k :: 0 <= k < i ==> chs[k] == Finish(was[k], alpha2, now)
        invariant forall k :: i <= k < chs.Length ==> chs[k] == was[k]
        invariant enableNum == EnabledNum(was, i)
      {
        chs[i] := chs[i].(regNoIr := NO_IR in chs[i].flags);
        if DIS in chs[i].flags { continue; }
        enableNum := enableNum + 1;
        var c := chs[i];
        if NO_IR in c.flags && IsHint(c, now) && RulesAllow(alpha2) && ChannelAllows(c) {
          chs[i] := c.(flags := c.flags - {NO_IR});
        }
      }
      EnabledSame(was, chs[..], chs.Length);
    }

    /** rtw_rfctl_chset_apply_regulatory */
    method ApplyRegulatory(s: State, db: Db, now: nat)
      requires Own(s)
      modifies this`enableNum, chs
      ensures chs[..] == StepSet(World(old(chs[..]), s), Regulate(s), now, db).cs
      ensures SetInv(World(chs[..], s), db) && enableNum == |set i | 0 <= i < chs.Length && DIS !in chs[..][i].flags|
    {
      ghost var w := World(chs[..], s);
      StepSetInv(w, Regulate(s), now, db);
      ResetFlags(s);
      ApplyRequests(Reqs(s), s.disFlags, db);
      FinishFlags(s.sum.alpha2, now);
      EnabledSize(chs[..], chs.Length);
      assert chs[..] == StepSet(w, Regulate(s), now, db).cs;
    }

    /** rtw_process_beacon_hint: how many channels became active. */
    method ProcessHint(s: State, band: Band, ch: nat, valid: nat, now: nat, ghost db: Db) returns (activated: nat)
      modifies chs
      ensures chs[..] == StepSet(World(old(chs[..]), s), Hear(band, ch, valid), now, db).cs
      ensures activated == |set i | 0 <= i < chs.Length && NO_IR in old(chs[i].flags) && NO_IR !in chs[i].flags|
    {
      activated := 0;
      var k := FindBch(band, ch);
      if k == chs.Length {
        assert forall i :: 0 <= i < chs.Length ==> chs[i] == old(chs[i]);
        return;
      }
      var c := chs[k];
      if s.sum.src == RtkPriv { c := c.(hintEnd := HintEnd(now, valid)); }
      if NO_IR in c.flags && RulesAllow(s.sum.alpha2) && ChannelAllows(c) {
        c := c.(flags := c.flags - {NO_IR});
        activated := 1;
      }
      chs[k] := c;
      assert (set i | 0 <= i < chs.Length && NO_IR in old(chs[i].flags) && NO_IR !in chs[i].flags)
             == if activated == 1 then {k} else {};
    }

    /** rtw_chset_get_chinfo_by_bch for enabled channels */
    method FindBch(band: Band, ch: nat) returns (k: nat)
      ensures k == if ch == 0 then chs.Length else Search(chs[..], band, ch, 0)
    {
      if ch == 0 { return chs.Length; }
      k := 0;
      while k < chs.Length && !(chs[k].band == band && chs[k].ch == ch && DIS !in chs[k].flags)
        invariant k <= chs.Length && Search(chs[..], band, ch, 0) == Search(chs[..], band, ch, k)
      {
        k := k + 1;
      }
    }

    /** rtw_beacon_hint_expire: whether a channel went back to passive. */
    method ExpireHints(s: State, busy: bool, now: nat, ghost db: Db) returns (deactivated: bool)
      modifies chs
      ensures chs[..] == StepSet(World(old(chs[..]), s), Expire(busy), now, db).cs
      ensures deactivated <==> exists i :: 0 <= i < chs.Length && NO_IR !in old(chs[i].flags) && NO_IR in chs[i].flags
    {
      deactivated := false;
      if s.sum.src != RtkPriv || busy {
        assert forall i :: 0 <= i < chs.Length ==> chs[i] == old(chs[i]);
        return;
      }
      for i := 0 to chs.Length
        invariant forall k :: 0 <= k < i ==> chs[k] == Expired(old(chs[k]), now)
        invariant forall k :: i <= k < chs.Length ==> chs[k] == old(chs[k])
        invariant deactivated <==> exists k :: 0 <= k < i && NO_IR !in old(chs[k].flags) && NO_IR in chs[k].flags
      {
        var c := chs[i];
        if !IsHint(c, now) && c.hintEnd != 0 {
          var back := c.regNoIr && NO_IR !in c.flags;
          if back { deactivated := true; }
          chs[i] := c.(hintEnd := 0, flags := if back then c.flags + {NO_IR} else c.flags);
          assert c.regNoIr && !back ==> c.flags + {NO_IR} == c.flags;
        }
      }
    }
  }

  lemma {:induction false} EnabledSame(a: seq<ChInfo>, b: seq<ChInfo>, n: nat)
    requires n <= |a| == |b| && forall k :: 0 <= k < n ==> (DIS in a[k].flags <==> DIS in b[k].flags)
    ensures EnabledNum(a, n) == EnabledNum(b, n)
  {
    if n > 0 { EnabledSame(a, b, n - 1); }
  }
}
