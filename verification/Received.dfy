/**
 The record made from a received Country element
 (rtw_get_cisr_from_recv_country_ie in core/rtw_chplan.c).
 */
module Received {
  import opened Options
  import opened Requests
  import opened CountryIe
  import opened Regulatory
  import opened ChannelSet

  /** The country tables: the plan of a country code if it is known, the world-wide plan, and the EDCCA
      modes a plan amounts to on 2.4 and 5 GHz. */
  datatype Tables = Tables(country: string -> Option<Plan>, worldwide: Plan, edcca: Plan -> (nat, nat))

  /** Entries carry a country code; a zeroed plan is not one of them. */
  ghost predicate Coded(t: Tables) {
    t.worldwide.alpha2 == WORLDWIDE_ALPHA2 && forall c :: t.country(c).Some? ==> t.country(c).value.alpha2 != NO_PLAN.alpha2
  }

  /** `code` is the country code of the element, if there is one; `w` the operating channel at 20 MHz. */
  function RecordOf(code: Option<string>, band: nat, w: Width, t: Tables, s: State, db: Db): Record {
    if code.None? || code.value == "XX" then
      Record(if code.Some? then code.value else "\0\0", band, w.ch, NoCountry, NO_PLAN)
    else
      var ent := t.country(code.value);
      if ent.None? then Record(code.value, band, w.ch, Unknown, t.worldwide)
      else if !PlanValid(ent.value.domain, w, true, true, s, db) then
        var (e2, e5) := t.edcca(ent.value);
        Record(code.value, band, w.ch, OpchNoExist, t.worldwide.(edcca2g := e2, edcca5g := e5))
      else Record(code.value, band, w.ch, Applicable, ent.value)
  }

  /** Every record made this way has a zeroed plan exactly when it has no country, which is what the
      comparison of plans in the early exits relies on; and a country's own plan is taken over only if it
      allows the channel the access point is on. */
  lemma RecordHonest(code: Option<string>, band: nat, w: Width, t: Tables, s: State, db: Db)
    requires Coded(t)
    ensures var r := RecordOf(code, band, w, t, s, db);
            && Honest(r)
            && (r.status == Applicable ==> PlanValid(r.plan.domain, w, true, true, s, db))
            && (r.status != Applicable && r.status != NoCountry ==> r.plan.alpha2 == WORLDWIDE_ALPHA2)
  {
    assert NO_PLAN.alpha2[0] != WORLDWIDE_ALPHA2[0];
  }

  /** Which element gives which record: no country without an element or for "XX"; unknown for a code the tables lack;
      then by whether the country's plan allows the channel. The code, band and channel are kept as received. */
  lemma RecordMeans(code: Option<string>, band: nat, w: Width, t: Tables, s: State, db: Db)
    ensures var r := RecordOf(code, band, w, t, s, db);
            && (r.status == NoCountry <==> code.None? || code.value == "XX")
            && (r.status == Unknown <==> code.Some? && code.value != "XX" && t.country(code.value).None?)
            && (r.status == Applicable <==> code.Some? && code.value != "XX" && t.country(code.value).Some?
                                            && PlanValid(t.country(code.value).value.domain, w, true, true, s, db))
            && (r.status == NoCountry ==> r.plan == Plan("\0\0", 0, 0, 0, 0, {}))
            && (r.status == Unknown ==> r.plan == t.worldwide)
            && (r.status == Applicable ==> r.plan == t.country(code.value).value)
            && (r.status == OpchNoExist ==>
                  && t.country(code.value).Some?
                  && var (e2, e5) := t.edcca(t.country(code.value).value);
                  r.plan == Plan(t.worldwide.alpha2, t.worldwide.domain, e2, e5, t.worldwide.txpwr, t.worldwide.proto))
            && r.alpha2 == (if code.Some? then code.value else "\0\0") && r.band == band && r.opch == w.ch
  {
  }
}
