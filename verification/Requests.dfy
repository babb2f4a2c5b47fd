/**
 The list of regulatory requests (core/rtw_chplan.c): reference-counted
 COUNTRY_IE requests beside one INIT and at most one USER request.
 */
module Requests {
  import opened Seqs

  /** Who a request comes from; OS outranks the driver's own source. */
  datatype Src = RtkPriv | Os

  datatype Inr = ByInit | ByUser | ByCountryIe | ByDriver | ByCore

  function SrcRank(s: Src): nat { match s case RtkPriv => 0 case Os => 1 }

  function InrRank(i: Inr): nat {
    match i case ByInit => 0 case ByUser => 1 case ByCountryIe => 2 case ByDriver => 3 case ByCore => 4
  }

  /** A country's channel plan; `proto` is the bitmap of allowed protocols. */
  datatype Plan = Plan(alpha2: string, domain: nat, edcca2g: nat, edcca5g: nat, txpwr: nat, proto: set<nat>)

  /** A zeroed plan, as a record without a country carries. */
  const NO_PLAN: Plan := Plan("\0\0", 0, 0, 0, 0, {})

  /** `id` is the address of the list node. */
  datatype Req = Req(id: nat, src: Src, inr: Inr, plan: Plan, refCnt: nat, applied: bool)

  predicate IsCie(r: Req) { r.inr == ByCountryIe }

  // ---- the four list operations

  /** rtw_regd_req_list_clear_ref_cnt_by_inr(COUNTRY_IE) */
  function ClearRefs(rs: seq<Req>): seq<Req> {
    if rs == [] then [] else [if IsCie(rs[0]) then rs[0].(refCnt := 0) else rs[0]] + ClearRefs(rs[1..])
  }

  /** rtw_regd_req_list_clear_zero_ref_req_by_inr(COUNTRY_IE) */
  function DropZero(rs: seq<Req>): seq<Req> {
    if rs == [] then []
    else if IsCie(rs[0]) && rs[0].refCnt == 0 then DropZero(rs[1..])
    else [rs[0]] + DropZero(rs[1..])
  }

  predicate Same(r: Req, p: Plan) { IsCie(r) && r.plan == p }

  predicate HasPlan(rs: seq<Req>, p: Plan) { exists r :: r in rs && Same(r, p) }

  /** rtw_regd_req_list_add_country_ie_req, allocating a node `id` if no request has the plan. */
  function AddCie(rs: seq<Req>, p: Plan, id: nat): seq<Req> {
    if rs == [] then [Req(id, RtkPriv, ByCountryIe, p, 1, false)]
    else if Same(rs[0], p) then [rs[0].(refCnt := rs[0].refCnt + 1)] + rs[1..]
    else [rs[0]] + AddCie(rs[1..], p, id)
  }

  function AddAll(rs: seq<Req>, ps: seq<Plan>, id: nat): seq<Req>
    decreases |ps|
  {
    if ps == [] then rs else AddAll(AddCie(rs, ps[0], id), ps[1..], id + 1)
  }

  /** The rebuild of the COUNTRY_IE requests: counts to zero, one reference per plan, unreferenced ones out. */
  function Rebuild(rs: seq<Req>, ps: seq<Plan>, id: nat): seq<Req> {
    DropZero(AddAll(ClearRefs(rs), ps, id))
  }

  // ---- what a list stands for

  /** References to a plan. */
  function Refs(rs: seq<Req>, p: Plan): nat {
    if rs == [] then 0 else (if Same(rs[0], p) then rs[0].refCnt else 0) + Refs(rs[1..], p)
  }

  /** No plan has two COUNTRY_IE requests. */
  ghost predicate Distinct(rs: seq<Req>) {
    forall i, j :: 0 <= i < j < |rs| && IsCie(rs[i]) && IsCie(rs[j]) ==> rs[i].plan != rs[j].plan
  }

  ghost predicate Referenced(rs: seq<Req>) {
    forall r :: r in rs && IsCie(r) ==> r.refCnt > 0
  }

  /** The list holds exactly the references in `want`: one request per plan, counting its references. */
  ghost predicate Holds(rs: seq<Req>, want: multiset<Plan>) {
    Distinct(rs) && Referenced(rs) && forall p :: Refs(rs, p) == want[p]
  }

  /** The requests that are not COUNTRY_IE ones, in order. */
  function Fixed(rs: seq<Req>): seq<Req> {
    if rs == [] then [] else if IsCie(rs[0]) then Fixed(rs[1..]) else [rs[0]] + Fixed(rs[1..])
  }

  lemma {:induction false} ClearLaws(rs: seq<Req>, p: Plan)
    ensures Refs(ClearRefs(rs), p) == 0 && Fixed(ClearRefs(rs)) == Fixed(rs) && |ClearRefs(rs)| == |rs|
    ensures forall i :: 0 <= i < |rs| ==> ClearRefs(rs)[i] == if IsCie(rs[i]) then rs[i].(refCnt := 0) else rs[i]
  {
    if rs != [] { ClearLaws(rs[1..], p); }
  }

  lemma {:induction false} DropMembers(rs: seq<Req>)
    ensures forall r :: r in DropZero(rs) <==> r in rs && !(IsCie(r) && r.refCnt == 0)
    ensures Fixed(DropZero(rs)) == Fixed(rs)
  {
    if rs != [] { DropMembers(rs[1..]); }
  }

  /** Of several requests for a plan only the first carries references. */
  ghost predicate FirstCounts(rs: seq<Req>) {
    forall i, j :: 0 <= i < j < |rs| && IsCie(rs[i]) && IsCie(rs[j]) && rs[i].plan == rs[j].plan ==> rs[j].refCnt == 0
  }

  lemma {:induction false} DropLaws(rs: seq<Req>, p: Plan)
    requires FirstCounts(rs)
    ensures Refs(DropZero(rs), p) == Refs(rs, p) && Distinct(DropZero(rs)) && Referenced(DropZero(rs))
  {
    DropMembers(rs);
    if rs != [] {
      DropLaws(rs[1..], p);
      DropMembers(rs[1..]);
      var d := DropZero(rs[1..]);
      forall i | 0 <= i < |d| && IsCie(rs[0]) && IsCie(d[i]) ensures d[i].plan != rs[0].plan {
        assert d[i] in rs[1..];
        var j :| 0 < j < |rs| && rs[j] == d[i];
      }
    }
  }

  lemma {:induction false} AddRefs(rs: seq<Req>, p: Plan, id: nat, q: Plan)
    ensures Refs(AddCie(rs, p, id), q) == Refs(rs, q) + if q == p then 1 else 0
    ensures Fixed(AddCie(rs, p, id)) == Fixed(rs)
  {
    if rs != [] && !Same(rs[0], p) { AddRefs(rs[1..], p, id, q); }
  }

  lemma {:induction false} AddPlans(rs: seq<Req>, p: Plan, id: nat)
    ensures forall r :: r in AddCie(rs, p, id) && IsCie(r) ==> r.plan == p || exists o :: o in rs && IsCie(o) && o.plan == r.plan
  {
    if rs != [] && !Same(rs[0], p) { AddPlans(rs[1..], p, id); }
  }

  lemma {:induction false} AddDistinct(rs: seq<Req>, p: Plan, id: nat)
    requires Distinct(rs)
    ensures Distinct(AddCie(rs, p, id))
  {
    if rs != [] && !Same(rs[0], p) {
      AddDistinct(rs[1..], p, id);
      AddPlans(rs[1..], p, id);
      var a := AddCie(rs[1..], p, id);
      forall i | 0 <= i < |a| && IsCie(rs[0]) && IsCie(a[i]) ensures a[i].plan != rs[0].plan {
        assert a[i] in a;
      }
    }
  }

  lemma {:induction false} AddFirstCounts(rs: seq<Req>, p: Plan, id: nat)
    requires FirstCounts(rs)
    ensures FirstCounts(AddCie(rs, p, id))
  {
    if rs != [] && !Same(rs[0], p) {
      AddFirstCounts(rs[1..], p, id);
      if IsCie(rs[0]) {
        AddUnreferenced(rs[1..], p, id, rs[0].plan);
        var a := AddCie(rs[1..], p, id);
        forall i | 0 <= i < |a| && Same(a[i], rs[0].plan) ensures a[i].refCnt == 0 { assert a[i] in a; }
      }
    }
  }

  /** Adding a reference to one plan leaves another's requests as they are. */
  lemma {:induction false} AddUnreferenced(rs: seq<Req>, p: Plan, id: nat, q: Plan)
    requires p != q && forall r :: r in rs && Same(r, q) ==> r.refCnt == 0
    ensures forall r :: r in AddCie(rs, p, id) && Same(r, q) ==> r.refCnt == 0
  {
    if rs != [] && !Same(rs[0], p) { AddUnreferenced(rs[1..], p, id, q); }
  }

  lemma {:induction false} AddAllLaws(rs: seq<Req>, ps: seq<Plan>, id: nat, q: Plan)
    ensures Distinct(rs) ==> Distinct(AddAll(rs, ps, id))
    ensures FirstCounts(rs) ==> FirstCounts(AddAll(rs, ps, id))
    ensures Fixed(AddAll(rs, ps, id)) == Fixed(rs)
    ensures Refs(AddAll(rs, ps, id), q) == Refs(rs, q) + multiset(ps)[q]
    decreases |ps|
  {
    if ps != [] {
      if Distinct(rs) { AddDistinct(rs, ps[0], id); }
      if FirstCounts(rs) { AddFirstCounts(rs, ps[0], id); }
      AddRefs(rs, ps[0], id, q);
      AddAllLaws(AddCie(rs, ps[0], id), ps[1..], id + 1, q);
      HeadTail(ps);
    }
  }

  /** Whatever the list was, a rebuild leaves one request per plan with one reference per use of it, and
      touches no other request. */
  lemma RebuildHolds(rs: seq<Req>, ps: seq<Plan>, id: nat)
    ensures Holds(Rebuild(rs, ps, id), multiset(ps)) && Fixed(Rebuild(rs, ps, id)) == Fixed(rs)
  {
    var c := ClearRefs(rs);
    ClearLaws(rs, NO_PLAN);
    forall q ensures Refs(Rebuild(rs, ps, id), q) == multiset(ps)[q] {
      ClearLaws(rs, q);
      AddAllLaws(c, ps, id, q);
      DropLaws(AddAll(c, ps, id), q);
    }
    AddAllLaws(c, ps, id, NO_PLAN);
    DropLaws(AddAll(c, ps, id), NO_PLAN);
    DropMembers(AddAll(c, ps, id));
  }
}
