/**
 Country information received from access points (core/rtw_chplan.c): the
 per-link records, the choice of the effective one, and the COUNTRY_IE requests
 that follow from them. Several early exits skip the rebuild of the request
 list; the results below say that the list is right after every command all
 the same.
 */
module CountryIe {
  import opened Options
  import opened Seqs
  import opened Requests

  datatype CisStatus = NoCountry | Unknown | OpchNoExist | Applicable

  /** What one link last received; without a country the plan is zeroed. */
  datatype Record = Record(alpha2: string, band: nat, opch: nat, status: CisStatus, plan: Plan)

  ghost predicate Honest(r: Record) { r.status == NoCountry <==> r.plan == NO_PLAN }

  ghost predicate AllHonest(rs: seq<Record>) { forall i :: 0 <= i < |rs| ==> Honest(rs[i]) }

  /** cisr_status_score; NOCOUNTRY records are never scored. */
  function Score(st: CisStatus): nat {
    match st case NoCountry => 0 case Unknown => 3 case OpchNoExist => 2 case Applicable => 1
  }

  /** The plans of the links that have a country, in the order the list loops visit them. */
  function Plans(rs: seq<Record>): seq<Plan> {
    if rs == [] then []
    else (if rs[0].status == NoCountry then [] else [rs[0].plan]) + Plans(rs[1..])
  }

  /** CISF_INTERSECT and CISF_ENV_BSS. */
  datatype Flags = Flags(intersect: bool, envBss: bool)

  /** The country-related state: per-link records, the effective record if any, the request list. */
  datatype Cis = Cis(enabled: bool, flags: Flags, records: seq<Record>, effective: Option<Record>, reqs: seq<Req>, next: nat)

  // ---- choosing the effective record

  /** The preference of the selection loop: a higher score, or among equals the country in effect so far. */
  predicate Prefer(r: Record, best: Record, was: Option<Record>) {
    || Score(r.status) > Score(best.status)
    || (Score(r.status) == Score(best.status) && was.Some? && was.value.status == best.status
        && was.value.alpha2 != best.alpha2 && was.value.alpha2 == r.alpha2)
  }

  /** rtw_chplan_select_effected_per_link_cisr over the first `n` records. */
  function Select(rs: seq<Record>, was: Option<Record>, n: nat): (e: Option<Record>)
    requires n <= |rs|
    ensures e.Some? <==> exists i :: 0 <= i < n && rs[i].status != NoCountry
    ensures e.Some? ==> e.value.status != NoCountry && exists i :: 0 <= i < n && rs[i] == e.value
    ensures e.Some? ==> forall i :: 0 <= i < n && rs[i].status != NoCountry ==> Score(rs[i].status) <= Score(e.value.status)
  {
    if n == 0 then None
    else
      var e := Select(rs, was, n - 1);
      var r := rs[n - 1];
      if r.status == NoCountry then e
      else if e.None? || Prefer(r, e.value, was) then Some(r) else e
  }

  /** Among the first `n` records, this one has a country and none with a country scores higher. */
  ghost predicate TopAt(rs: seq<Record>, n: nat, i: nat) {
    && i < n <= |rs| && rs[i].status != NoCountry
    && forall j :: 0 <= j < n && rs[j].status != NoCountry ==> Score(rs[j].status) <= Score(rs[i].status)
  }

  /** It has the status and the country that were in effect. */
  ghost predicate Kept(r: Record, was: Option<Record>) {
    was.Some? && r.status == was.value.status && r.alpha2 == was.value.alpha2
  }

  /** The first top record that keeps the country in effect, or if there is none the first top record. */
  ghost predicate Choice(rs: seq<Record>, was: Option<Record>, n: nat, i: nat) {
    && TopAt(rs, n, i)
    && forall j :: 0 <= j < n && j != i && TopAt(rs, n, j) ==>
         if Kept(rs[i], was) then j < i ==> !Kept(rs[j], was) else i < j && !Kept(rs[j], was)
  }

  /** The selection loop ends with exactly that record. */
  lemma SelectIsChoice(rs: seq<Record>, was: Option<Record>, n: nat, i: nat)
    requires i < n <= |rs| && Choice(rs, was, n, i)
    ensures Select(rs, was, n) == Some(rs[i])
  {
    var j := SelectAt(rs, was, n);
  }

  lemma TopStep(rs: seq<Record>, n: nat, j: nat)
    requires j + 1 < n <= |rs|
    ensures var r := rs[n - 1];
            TopAt(rs, n, j) <==> TopAt(rs, n - 1, j) && (r.status == NoCountry || Score(r.status) <= Score(rs[j].status))
  {
  }

  lemma ChoiceStays(rs: seq<Record>, was: Option<Record>, n: nat, i: nat)
    requires 0 < n <= |rs| && Choice(rs, was, n - 1, i)
    requires rs[n - 1].status == NoCountry || !Prefer(rs[n - 1], rs[i], was)
    ensures Choice(rs, was, n, i)
  {
    TopStep(rs, n, i);
    forall j | 0 <= j < n - 1 && TopAt(rs, n, j) ensures TopAt(rs, n - 1, j) { TopStep(rs, n, j); }
  }

  lemma ChoiceMoves(rs: seq<Record>, was: Option<Record>, n: nat, i: nat)
    requires 0 < n <= |rs| && Choice(rs, was, n - 1, i)
    requires rs[n - 1].status != NoCountry && Prefer(rs[n - 1], rs[i], was)
    ensures Choice(rs, was, n, n - 1)
  {
    forall j | 0 <= j < n - 1 && TopAt(rs, n, j) ensures !Kept(rs[j], was) && Kept(rs[n - 1], was) {
      TopStep(rs, n, j);
      assert Score(rs[j].status) == Score(rs[i].status) == Score(rs[n - 1].status);
    }
  }

  lemma {:induction false} SelectAt(rs: seq<Record>, was: Option<Record>, n: nat) returns (i: nat)
    requires n <= |rs| && Select(rs, was, n).Some?
    ensures Choice(rs, was, n, i) && Select(rs, was, n) == Some(rs[i])
  {
    var e, r := Select(rs, was, n - 1), rs[n - 1];
    if e.None? {
      return n - 1;
    }
    i := SelectAt(rs, was, n - 1);
    if r.status != NoCountry && Prefer(r, e.value, was) {
      ChoiceMoves(rs, was, n, i);
      i := n - 1;
    } else {
      ChoiceStays(rs, was, n, i);
    }
  }

  function SamePlan(a: Option<Record>, b: Option<Record>): bool {
    a.Some? == b.Some? && (a.Some? ==> a.value.plan == b.value.plan)
  }

  /** rtw_chplan_update_effected_cisr; `scanned` are the records of the scanned networks. */
  function NewEffective(c: Cis, scanned: seq<Record>): Option<Record> {
    if c.enabled && !c.flags.intersect then
      var rs := if c.flags.envBss then scanned else c.records;
      Select(rs, c.effective, |rs|)
    else None
  }

  // ---- recording what a link received

  /** rtw_chplan_update_per_link_cisr: the records lo..hi become `r`. */
  function Store(rs: seq<Record>, lo: nat, hi: nat, r: Record): seq<Record>
    requires lo <= hi <= |rs|
  {
    rs[..lo] + seq(hi - lo, i => r) + rs[hi..]
  }

  /** Its result: whether anything the requests depend on may have changed. */
  predicate Matters(c: Cis, lo: nat, hi: nat, r: Record)
    requires lo <= hi <= |c.records|
  {
    exists i :: lo <= i < hi && (if c.flags.intersect then c.records[i].plan != r.plan else c.records[i] != r)
  }

  // ---- the requests

  /** What the requests should be built from. */
  function Wanted(c: Cis, scanned: seq<Record>): seq<Plan> {
    if !c.enabled then []
    else if c.flags.intersect then Plans(if c.flags.envBss then scanned else c.records)
    else if c.effective.Some? then [c.effective.value.plan] else []
  }

  /** A link update: the record and the slots of the links it is for. */
  datatype Update = Update(lo: nat, hi: nat, rec: Record)

  predicate Fits(c: Cis, u: Option<Update>) {
    u.Some? ==> u.value.lo <= u.value.hi <= |c.records|
  }

  /** The records after a link update, if there is one. */
  function Recorded(c: Cis, u: Option<Update>): Cis
    requires Fits(c, u)
  {
    if u.Some? then c.(records := Store(c.records, u.value.lo, u.value.hi, u.value.rec)) else c
  }

  /** rtw_chplan_rtk_priv_req_prehdl_country_ie; `force` is a pending change of mode or flags. */
  function Handle(c: Cis, u: Option<Update>, scanned: seq<Record>, force: bool): Cis
    requires Fits(c, u)
  {
    var d := Recorded(c, u);
    if u.Some? && !Matters(c, u.value.lo, u.value.hi, u.value.rec) && !force then d
    else
      var e := d.(effective := NewEffective(d, scanned));
      if SamePlan(d.effective, e.effective) && !d.flags.intersect && !force then e
      else Rebuilt(e, scanned)
  }

  function Rebuilt(c: Cis, scanned: seq<Record>): Cis {
    var ps := Wanted(c, scanned);
    c.(reqs := Rebuild(c.reqs, ps, c.next), next := c.next + |ps|)
  }

  // ---- what must hold

  /** The best record of some link is in effect. */
  ghost predicate Best(rs: seq<Record>, e: Record) {
    && e.status != NoCountry && (exists i :: 0 <= i < |rs| && rs[i] == e)
    && forall i :: 0 <= i < |rs| && rs[i].status != NoCountry ==> Score(rs[i].status) <= Score(e.status)
  }

  /** The effective record is what the mode calls for. */
  ghost predicate EffectiveRight(c: Cis, enabled: bool) {
    if enabled && !c.flags.intersect
    then !c.flags.envBss ==>
           (if Plans(c.records) == [] then c.effective == None
            else c.effective.Some? && Best(c.records, c.effective.value))
    else c.effective == None
  }

  /** The requests the records call for: every distinct plan of a link with a country, counted once per
      such link, in intersect mode; the plan of the effective record in select mode; none when disabled. */
  ghost function Due(c: Cis, enabled: bool): multiset<Plan> {
    if !enabled then multiset{}
    else if c.flags.intersect then multiset(Plans(c.records))
    else if c.effective.Some? then multiset{c.effective.value.plan} else multiset{}
  }

  /** With scanned networks and intersection the list follows the scan results, which this does not track. */
  predicate Tracked(c: Cis, enabled: bool) { !(enabled && c.flags.intersect && c.flags.envBss) }

  ghost predicate Right(c: Cis, enabled: bool) {
    && AllHonest(c.records) && Distinct(c.reqs)
    && EffectiveRight(c, enabled)
    && (Tracked(c, enabled) ==> Holds(c.reqs, Due(c, enabled)))
  }

  lemma {:induction false} PlansConcat(a: seq<Record>, b: seq<Record>)
    ensures Plans(a + b) == Plans(a) + Plans(b)
  {
    if a == [] {
      EmptyConcat(b);
    } else {
      TailOfConcat(a, b);
      PlansConcat(a[1..], b);
      Assoc(if a[0].status == NoCountry then [] else [a[0].plan], Plans(a[1..]), Plans(b));
    }
  }

  /** Records with the same plans, honestly kept, call for the same requests. */
  lemma {:induction false} PlansSame(a: seq<Record>, b: seq<Record>)
    requires |a| == |b| && AllHonest(a) && AllHonest(b)
    requires forall i :: 0 <= i < |a| ==> a[i].plan == b[i].plan
    ensures Plans(a) == Plans(b)
  {
    if a != [] {
      PlansSame(a[1..], b[1..]);
      assert Honest(a[0]) && Honest(b[0]);
    }
  }

  lemma {:induction false} PlansEmpty(rs: seq<Record>)
    ensures Plans(rs) == [] <==> forall i :: 0 <= i < |rs| ==> rs[i].status == NoCountry
  {
    if rs != [] { PlansEmpty(rs[1..]); }
  }

  lemma StoreAt(rs: seq<Record>, lo: nat, hi: nat, r: Record)
    requires lo <= hi <= |rs|
    ensures |Store(rs, lo, hi, r)| == |rs|
    ensures forall i :: 0 <= i < |rs| ==> Store(rs, lo, hi, r)[i] == if lo <= i < hi then r else rs[i]
  {
  }

  lemma StoreHonest(rs: seq<Record>, lo: nat, hi: nat, r: Record)
    requires lo <= hi <= |rs| && AllHonest(rs) && Honest(r)
    ensures AllHonest(Store(rs, lo, hi, r))
  {
    StoreAt(rs, lo, hi, r);
  }

  // ---- the early exits are harmless

  lemma StoreSame(c: Cis, u: Update)
    requires u.lo <= u.hi <= |c.records| && AllHonest(c.records) && Honest(u.rec)
    requires !Matters(c, u.lo, u.hi, u.rec)
    ensures var rs := Store(c.records, u.lo, u.hi, u.rec);
            if c.flags.intersect then Plans(rs) == Plans(c.records) else rs == c.records
  {
    var rs := Store(c.records, u.lo, u.hi, u.rec);
    StoreAt(c.records, u.lo, u.hi, u.rec);
    StoreHonest(c.records, u.lo, u.hi, u.rec);
    if c.flags.intersect {
      PlansSame(rs, c.records);
    }
  }

  /** The first exit: nothing the requests depend on has changed. */
  lemma FirstExit(c: Cis, u: Update)
    requires u.lo <= u.hi <= |c.records| && Honest(u.rec) && Right(c, c.enabled)
    requires !Matters(c, u.lo, u.hi, u.rec)
    ensures Right(c.(records := Store(c.records, u.lo, u.hi, u.rec)), c.enabled)
  {
    StoreSame(c, u);
    StoreHonest(c.records, u.lo, u.hi, u.rec);
  }

  lemma SelectRight(c: Cis, scanned: seq<Record>)
    ensures EffectiveRight(c.(effective := NewEffective(c, scanned)), c.enabled)
  {
    PlansEmpty(c.records);
  }

  /** The second exit: in select mode the effective plan is the one already requested. */
  lemma SecondExit(c: Cis, d: Cis, scanned: seq<Record>, e0: bool)
    requires Right(c, e0) && AllHonest(d.records)
    requires d.flags == c.flags && d.effective == c.effective && d.reqs == c.reqs && !c.flags.intersect
    requires SamePlan(d.effective, NewEffective(d, scanned))
    ensures Right(d.(effective := NewEffective(d, scanned)), d.enabled)
  {
    SelectRight(d, scanned);
    var e := d.(effective := NewEffective(d, scanned));
    assert Due(e, d.enabled) == Due(c, e0);
  }

  lemma RebuildRight(c: Cis, scanned: seq<Record>)
    requires AllHonest(c.records) && Distinct(c.reqs) && EffectiveRight(c, c.enabled)
    ensures Right(Rebuilt(c, scanned), c.enabled)
  {
    RebuildHolds(c.reqs, Wanted(c, scanned), c.next);
  }

  /** After a handled command the requests are exactly what the records call for. `e0` is whether the
      feature was enabled when the requests were last right; without a forced rebuild it may differ from
      the present setting only when no link update is being handled. */
  lemma HandleRight(c: Cis, u: Option<Update>, scanned: seq<Record>, force: bool, e0: bool)
    requires Fits(c, u) && (u.Some? ==> Honest(u.value.rec))
    requires AllHonest(c.records) && Distinct(c.reqs)
    requires !force ==> Right(c, e0) && (u.Some? ==> e0 == c.enabled)
    ensures Right(Handle(c, u, scanned, force), c.enabled)
  {
    var d := Recorded(c, u);
    if u.Some? {
      StoreHonest(c.records, u.value.lo, u.value.hi, u.value.rec);
    }
    if u.Some? && !Matters(c, u.value.lo, u.value.hi, u.value.rec) && !force {
      FirstExit(c, u.value);
    } else {
      var e := d.(effective := NewEffective(d, scanned));
      if SamePlan(d.effective, e.effective) && !d.flags.intersect && !force {
        SecondExit(c, d, scanned, e0);
      } else {
        SelectRight(d, scanned);
        RebuildRight(e, scanned);
      }
    }
  }

  /** What the policy prefers, said without scores: an unknown country before one that lacks the operating channel,
      and that before one that applies. */
  lemma SelectStatus(rs: seq<Record>, was: Option<Record>)
    ensures var e := Select(rs, was, |rs|);
            && (e.None? <==> forall i :: 0 <= i < |rs| ==> rs[i].status == NoCountry)
            && (e.Some? ==>
                  && (e.value.status == Unknown <==> exists i :: 0 <= i < |rs| && rs[i].status == Unknown)
                  && (e.value.status == Applicable <==> forall i :: 0 <= i < |rs| ==> rs[i].status == NoCountry || rs[i].status == Applicable))
  {
  }

  /** With scanned networks as the source, a handling that rebuilds follows the scan results it was given. */
  lemma ScannedRight(c: Cis, scanned: seq<Record>)
    requires c.enabled && c.flags.envBss && Distinct(c.reqs)
    ensures var d := Handle(c, None, scanned, true);
            if c.flags.intersect then Holds(d.reqs, multiset(Plans(scanned))) && d.effective == None
            else
              && (d.effective.Some? <==> Plans(scanned) != [])
              && (d.effective.Some? ==> Best(scanned, d.effective.value))
              && Holds(d.reqs, if d.effective.Some? then multiset{d.effective.value.plan} else multiset{})
  {
    var e := c.(effective := NewEffective(c, scanned));
    RebuildHolds(e.reqs, Wanted(e, scanned), e.next);
    PlansEmpty(scanned);
  }
}
