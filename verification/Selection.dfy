/**
 Choosing the requests that apply and summarising them
 (rtw_rfctl_regd_req_sel_and_status_update in core/rtw_chplan.c).
 */
module Selection {
  import opened Options
  import opened Seqs
  import opened Requests

  const UNSPECIFIED: nat := 0xFF
  const INTERSECTED_ALPHA2: string := "98"

  datatype Always = Always(init: bool, user: bool)

  datatype Summary = Summary(src: Src, inrs: set<Inr>, alpha2: string, domain: nat, proto: set<nat>)

  // ---- the three loops

  /** First loop: the highest source of the first `n` requests. */
  function TopSrc(rs: seq<Req>, n: nat): Option<Src>
    requires n <= |rs|
  {
    if n == 0 then None
    else
      var t := TopSrc(rs, n - 1);
      if t.None? || SrcRank(rs[n - 1].src) > SrcRank(t.value) then Some(rs[n - 1].src) else t
  }

  /** Second loop: the highest initiator of that source. */
  function TopInr(rs: seq<Req>, src: Src, n: nat): Option<Inr>
    requires n <= |rs|
  {
    if n == 0 then None
    else
      var t := TopInr(rs, src, n - 1);
      if rs[n - 1].src == src && (t.None? || InrRank(rs[n - 1].inr) > InrRank(t.value)) then Some(rs[n - 1].inr) else t
  }

  /** Whether the third loop marks a request as applied. */
  predicate Applies(r: Req, src: Src, inr: Inr, always: Always) {
    r.src == src && (r.inr == inr || (r.inr == ByInit && always.init) || (r.inr == ByUser && always.user))
  }

  function Join(s: Option<Summary>, r: Req): Summary {
    if s.None? then Summary(r.src, {r.inr}, r.plan.alpha2, r.plan.domain, r.plan.proto)
    else
      var t := s.value;
      Summary(t.src, t.inrs + {r.inr},
              if t.alpha2 != r.plan.alpha2 || t.domain != r.plan.domain then INTERSECTED_ALPHA2 else t.alpha2,
              if t.domain != r.plan.domain then UNSPECIFIED else t.domain,
              t.proto * r.plan.proto)
  }

  /** Third loop: marks and summary of the first `n` requests. */
  function Marked(rs: seq<Req>, src: Src, inr: Inr, always: Always, n: nat): (ms: seq<Req>)
    requires n <= |rs|
    ensures |ms| == n && forall i :: 0 <= i < n ==> ms[i] == rs[i].(applied := Applies(rs[i], src, inr, always))
  {
    if n == 0 then []
    else Marked(rs, src, inr, always, n - 1) + [rs[n - 1].(applied := Applies(rs[n - 1], src, inr, always))]
  }

  function Summed(rs: seq<Req>, src: Src, inr: Inr, always: Always, n: nat): Option<Summary>
    requires n <= |rs|
  {
    if n == 0 then None
    else
      var s := Summed(rs, src, inr, always, n - 1);
      if Applies(rs[n - 1], src, inr, always) then Some(Join(s, rs[n - 1])) else s
  }

  // ---- what they compute, independently of the order

  ghost predicate IsTopSrc(rs: seq<Req>, src: Src) {
    (exists r :: r in rs && r.src == src) && forall r :: r in rs ==> SrcRank(r.src) <= SrcRank(src)
  }

  ghost predicate IsTopInr(rs: seq<Req>, src: Src, inr: Inr) {
    && (exists r :: r in rs && r.src == src && r.inr == inr)
    && forall r :: r in rs && r.src == src ==> InrRank(r.inr) <= InrRank(inr)
  }

  lemma {:induction false} TopSrcLaw(rs: seq<Req>, n: nat)
    requires n <= |rs|
    ensures n == 0 <==> TopSrc(rs, n).None?
    ensures n > 0 ==> IsTopSrc(rs[..n], TopSrc(rs, n).value)
  {
    if n > 0 {
      TopSrcLaw(rs, n - 1);
      TakeSnoc(rs, n - 1);
      assert rs[n - 1] in rs[..n];
      assert forall r :: r in rs[..n - 1] ==> r in rs[..n];
    }
  }

  lemma {:induction false} TopInrLaw(rs: seq<Req>, src: Src, n: nat)
    requires n <= |rs|
    ensures TopInr(rs, src, n).None? <==> forall r :: r in rs[..n] ==> r.src != src
    ensures TopInr(rs, src, n).Some? ==> IsTopInr(rs[..n], src, TopInr(rs, src, n).value)
  {
    if n > 0 {
      TopInrLaw(rs, src, n - 1);
      TakeSnoc(rs, n - 1);
      assert rs[n - 1] in rs[..n];
      assert forall r :: r in rs[..n - 1] ==> r in rs[..n];
    }
  }

  /** The applied requests, in list order. */
  function Chosen(rs: seq<Req>, src: Src, inr: Inr, always: Always, n: nat): (cs: seq<Req>)
    requires n <= |rs|
    ensures forall r :: r in cs <==> r in rs[..n] && Applies(r, src, inr, always)
  {
    if n == 0 then []
    else
      assert rs[..n] == rs[..n - 1] + [rs[n - 1]];
      Chosen(rs, src, inr, always, n - 1) + (if Applies(rs[n - 1], src, inr, always) then [rs[n - 1]] else [])
  }

  function Fold(cs: seq<Req>): Option<Summary> {
    if cs == [] then None else Some(Join(Fold(cs[..|cs| - 1]), cs[|cs| - 1]))
  }

  lemma {:induction false} SummedIsFold(rs: seq<Req>, src: Src, inr: Inr, always: Always, n: nat)
    requires n <= |rs|
    ensures Summed(rs, src, inr, always, n) == Fold(Chosen(rs, src, inr, always, n))
  {
    if n > 0 {
      SummedIsFold(rs, src, inr, always, n - 1);
      var c, d := Chosen(rs, src, inr, always, n - 1), Chosen(rs, src, inr, always, n);
      if Applies(rs[n - 1], src, inr, always) {
        assert d[..|d| - 1] == c;
      } else {
        EmptyConcat(c);
      }
    }
  }

  ghost predicate OneCountry(cs: seq<Req>) {
    forall q, r :: q in cs && r in cs ==> q.plan.alpha2 == r.plan.alpha2 && q.plan.domain == r.plan.domain
  }

  ghost predicate OneDomain(cs: seq<Req>) {
    forall q, r :: q in cs && r in cs ==> q.plan.domain == r.plan.domain
  }

  /** The summary of some applied requests, with no reference to their order: the country they share, or
      the code for an intersection; the domain they share, or none; the protocols all of them allow. */
  ghost predicate Summarises(s: Summary, cs: seq<Req>) {
    && (forall r :: r in cs ==> r.src == s.src)
    && (forall i :: i in s.inrs <==> exists r :: r in cs && r.inr == i)
    && (forall b :: b in s.proto <==> forall r :: r in cs ==> b in r.plan.proto)
    && (if OneCountry(cs) then forall r :: r in cs ==> r.plan.alpha2 == s.alpha2 else s.alpha2 == INTERSECTED_ALPHA2)
    && (if OneDomain(cs) then forall r :: r in cs ==> r.plan.domain == s.domain else s.domain == UNSPECIFIED)
  }

  lemma {:induction false} FoldSummarises(cs: seq<Req>, src: Src)
    requires cs != [] && forall r :: r in cs ==> r.src == src
    ensures Fold(cs).Some? && Summarises(Fold(cs).value, cs)
  {
    var n := |cs| - 1;
    var c, r := cs[..n], cs[n];
    LastSnoc(cs);
    assert r in cs;
    if n > 0 {
      FoldSummarises(c, src);
      SnocSummary(Fold(c).value, c, r);
    } else {
      assert cs == [r];
    }
  }

  lemma SnocSummary(t: Summary, c: seq<Req>, r: Req)
    requires c != [] && Summarises(t, c) && r.src == t.src
    ensures Summarises(Join(Some(t), r), c + [r])
  {
    var d, s := c + [r], Join(Some(t), r);
    assert c[0] in c && r in d && forall q :: q in c ==> q in d;
    assert OneCountry(d) <==> OneCountry(c) && r.plan.alpha2 == c[0].plan.alpha2 && r.plan.domain == c[0].plan.domain;
    assert OneDomain(d) <==> OneDomain(c) && r.plan.domain == c[0].plan.domain;
  }

  /** The summary depends only on which requests apply: any two orders give the same one. */
  lemma OrderDoesNotMatter(a: seq<Req>, b: seq<Req>, s: Summary, t: Summary)
    requires a != [] && (forall r :: r in a <==> r in b)
    requires Summarises(s, a) && Summarises(t, b)
    ensures s == t
  {
    assert a[0] in a && a[0] in b;
    assert s.inrs == t.inrs && s.proto == t.proto;
  }

  /** One selection over a whole list: the marks and the summary. */
  function Selected(rs: seq<Req>): (Option<(Src, Inr)>) {
    var src := TopSrc(rs, |rs|);
    if src.None? then None
    else
      var inr := TopInr(rs, src.value, |rs|);
      if inr.None? then None else Some((src.value, inr.value))
  }

  lemma SelectedTop(rs: seq<Req>)
    requires rs != []
    ensures Selected(rs).Some?
    ensures var (src, inr) := Selected(rs).value; IsTopSrc(rs, src) && IsTopInr(rs, src, inr)
  {
    assert rs[..|rs|] == rs;
    TopSrcLaw(rs, |rs|);
    TopInrLaw(rs, TopSrc(rs, |rs|).value, |rs|);
  }

  /** A non-empty list always has an applied request, and its summary is order independent: permuting the
      list permutes the marks and leaves the summary as it is. */
  lemma SelectionLaw(rs: seq<Req>, qs: seq<Req>, always: Always)
    requires rs != [] && multiset(rs) == multiset(qs)
    ensures Selected(rs).Some? && Selected(qs) == Selected(rs)
    ensures var (src, inr) := Selected(rs).value;
            && (exists r :: r in rs && Applies(r, src, inr, always))
            && Summed(qs, src, inr, always, |qs|) == Summed(rs, src, inr, always, |rs|)
            && Summed(rs, src, inr, always, |rs|).Some?
            && Summarises(Summed(rs, src, inr, always, |rs|).value, Chosen(rs, src, inr, always, |rs|))
  {
    assert forall r :: r in rs <==> r in multiset(rs) <==> r in multiset(qs) <==> r in qs;
    assert rs[0] in qs;
    SelectedTop(rs);
    SelectedTop(qs);
    SameTop(rs, qs);
    var (src, inr) := Selected(rs).value;
    var c, d := Chosen(rs, src, inr, always, |rs|), Chosen(qs, src, inr, always, |qs|);
    assert rs[..|rs|] == rs && qs[..|qs|] == qs;
    SummedIsFold(rs, src, inr, always, |rs|);
    SummedIsFold(qs, src, inr, always, |qs|);
    var r :| r in rs && r.src == src && r.inr == inr;
    assert r in c && r in d;
    FoldSummarises(c, src);
    FoldSummarises(d, src);
    OrderDoesNotMatter(c, d, Fold(c).value, Fold(d).value);
  }

  /** What the two loops choose, said without ranks: the OS source if any request has it; of the chosen
      source the initiator CORE, DRIVER, COUNTRY_IE, USER or INIT, the first of these that occurs. */
  lemma SelectedMeans(rs: seq<Req>)
    requires rs != []
    ensures Selected(rs).Some?
    ensures var (src, inr) := Selected(rs).value;
            && (src == Os <==> exists r :: r in rs && r.src == Os)
            && (inr == ByCore <==> Occurs(rs, src, ByCore))
            && (inr == ByDriver <==> Occurs(rs, src, ByDriver) && !Occurs(rs, src, ByCore))
            && (inr == ByCountryIe <==> Occurs(rs, src, ByCountryIe) && !Occurs(rs, src, ByDriver) && !Occurs(rs, src, ByCore))
            && (inr == ByUser <==> Occurs(rs, src, ByUser) && !Occurs(rs, src, ByCountryIe) && !Occurs(rs, src, ByDriver)
                                   && !Occurs(rs, src, ByCore))
  {
    SelectedTop(rs);
    var (src, inr) := Selected(rs).value;
    assert Occurs(rs, src, inr);
  }

  ghost predicate Occurs(rs: seq<Req>, src: Src, inr: Inr) { exists r :: r in rs && r.src == src && r.inr == inr }

  lemma SameTop(rs: seq<Req>, qs: seq<Req>)
    requires rs != [] && qs != [] && forall r :: r in rs <==> r in qs
    ensures Selected(qs) == Selected(rs)
  {
    SelectedTop(rs);
    SelectedTop(qs);
  }
}
