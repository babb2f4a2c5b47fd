/**
 The Supported Channels element (section 9.4.2.17 of IEEE 802.11-2020) as
 rtw_chset_set_spt_chs_ie in core/rtw_chset.c encodes it: one (first channel,
 number of channels) pair for each run of consecutive enabled channels.
 */
module SupportedChannels {
  import opened Seqs
  import opened Elements
  import opened ChannelSet

  const EID_SUPPORTED_CHANNELS: u8 := 36

  datatype Run = Run(first: nat, count: nat)

  predicate Lists(c: ChInfo) { DIS !in c.flags && c.band != G6 }

  /** The channels to announce, among the first `n` of the set. */
  function Listed(cs: seq<ChInfo>, n: nat): seq<nat>
    requires n <= |cs|
  {
    if n == 0 then [] else Listed(cs, n - 1) + (if Lists(cs[n - 1]) then [cs[n - 1].ch] else [])
  }

  /** What a receiver reads from the pairs. */
  function Expand(rs: seq<Run>): seq<nat> {
    if rs == [] then [] else Expand(rs[..|rs| - 1]) + Span(rs[|rs| - 1])
  }

  function Span(r: Run): seq<nat> { seq(r.count, i requires 0 <= i => r.first + i) }

  /** One more channel: it extends the last run or starts another. */
  function Extend(rs: seq<Run>, c: nat): seq<Run> {
    if rs != [] && rs[|rs| - 1].first + rs[|rs| - 1].count == c
    then rs[..|rs| - 1] + [Run(rs[|rs| - 1].first, rs[|rs| - 1].count + 1)]
    else rs + [Run(c, 1)]
  }

  function Runs(chs: seq<nat>): seq<Run> {
    if chs == [] then [] else Extend(Runs(chs[..|chs| - 1]), chs[|chs| - 1])
  }

  /** No run could be joined to the next. */
  ghost predicate Apart(rs: seq<Run>) {
    && (forall i :: 0 <= i < |rs| ==> rs[i].count > 0)
    && forall i :: 0 < i < |rs| ==> rs[i - 1].first + rs[i - 1].count != rs[i].first
  }

  lemma ExpandSnoc(rs: seq<Run>, r: Run)
    ensures Expand(rs + [r]) == Expand(rs) + Span(r)
  {
    assert (rs + [r])[..|rs|] == rs;
  }

  lemma ExtendExpands(rs: seq<Run>, c: nat)
    ensures Expand(Extend(rs, c)) == Expand(rs) + [c]
    ensures Apart(rs) ==> Apart(Extend(rs, c))
  {
    if rs != [] && rs[|rs| - 1].first + rs[|rs| - 1].count == c {
      var h, r := rs[..|rs| - 1], rs[|rs| - 1];
      ExpandSnoc(h, Run(r.first, r.count + 1));
      assert Span(Run(r.first, r.count + 1)) == Span(r) + [c];
      Assoc(Expand(h), Span(r), [c]);
    } else {
      ExpandSnoc(rs, Run(c, 1));
      assert Span(Run(c, 1)) == [c];
    }
  }

  /** The pairs give back the channels in order, and no two neighbours could be merged. */
  lemma {:induction false} RunsRoundTrip(chs: seq<nat>)
    ensures Expand(Runs(chs)) == chs && Apart(Runs(chs))
  {
    if chs != [] {
      RunsRoundTrip(chs[..|chs| - 1]);
      ExtendExpands(Runs(chs[..|chs| - 1]), chs[|chs| - 1]);
      LastSnoc(chs);
    }
  }

  /** Where a list of channels jumps, plus one if it is not empty: the fewest pairs that can hold it. */
  function Pieces(chs: seq<nat>): nat {
    if chs == [] then 0
    else if |chs| == 1 then 1
    else Pieces(chs[..|chs| - 1]) + (if chs[|chs| - 2] + 1 == chs[|chs| - 1] then 0 else 1)
  }

  lemma PiecesSnoc(chs: seq<nat>, c: nat)
    ensures Pieces(chs + [c]) == if chs != [] && chs[|chs| - 1] + 1 == c then Pieces(chs) else Pieces(chs) + 1
  {
    assert (chs + [c])[..|chs|] == chs;
  }

  /** Appending a run of consecutive channels adds at most one piece. */
  lemma {:induction false} PiecesSpan(chs: seq<nat>, first: nat, count: nat)
    ensures Pieces(chs + Span(Run(first, count))) <= Pieces(chs) + 1
  {
    var s := Span(Run(first, count));
    if count == 0 {
      EmptyConcat(chs);
    } else {
      var t := Span(Run(first, count - 1));
      PiecesSpan(chs, first, count - 1);
      assert s == t + [first + count - 1];
      Assoc(chs, t, [first + count - 1]);
      PiecesSnoc(chs + t, first + count - 1);
      if count == 1 { EmptyConcat(chs); }
    }
  }

  lemma {:induction false} PiecesExpand(rs: seq<Run>)
    ensures Pieces(Expand(rs)) <= |rs|
  {
    if rs != [] {
      var h, r := rs[..|rs| - 1], rs[|rs| - 1];
      PiecesExpand(h);
      PiecesSpan(Expand(h), r.first, r.count);
    }
  }

  lemma {:induction false} RunsPieces(chs: seq<nat>)
    ensures |Runs(chs)| == Pieces(chs)
    ensures chs != [] ==> Runs(chs) != [] && var r := Runs(chs)[|Runs(chs)| - 1]; r.count > 0 && r.first + r.count == chs[|chs| - 1] + 1
  {
    if chs != [] { RunsPieces(chs[..|chs| - 1]); }
  }

  /** No list of pairs that stands for the same channels is shorter. */
  lemma Shortest(chs: seq<nat>, rs: seq<Run>)
    requires Expand(rs) == chs
    ensures |Runs(chs)| <= |rs|
  {
    RunsPieces(chs);
    PiecesExpand(rs);
  }

  // ---- the encoder

  /** The body of the element. */
  function Raw(rs: seq<Run>): seq<int> {
    if rs == [] then [] else Raw(rs[..|rs| - 1]) + [rs[|rs| - 1].first, rs[|rs| - 1].count]
  }

  /** A receiver's view of a body. */
  function Pairs(b: seq<int>): seq<Run> {
    if |b| < 2 then []
    else Pairs(b[..|b| - 2]) + (if b[|b| - 2] >= 0 && b[|b| - 1] >= 0 then [Run(b[|b| - 2], b[|b| - 1])] else [])
  }

  lemma {:induction false} PairsOfRaw(rs: seq<Run>)
    ensures Pairs(Raw(rs)) == rs && |Raw(rs)| == 2 * |rs|
  {
    if rs != [] {
      PairsOfRaw(rs[..|rs| - 1]);
      var b := Raw(rs);
      assert b[..|b| - 2] == Raw(rs[..|rs| - 1]);
      LastSnoc(rs);
    }
  }

  lemma RawSnoc(rs: seq<Run>, r: Run)
    ensures Raw(rs + [r]) == Raw(rs) + [r.first, r.count]
  {
    assert (rs + [r])[..|rs|] == rs;
  }

  lemma RunsSnoc(chs: seq<nat>, c: nat)
    ensures Runs(chs + [c]) == Extend(Runs(chs), c)
  {
    assert (chs + [c])[..|chs|] == chs;
  }

  lemma {:induction false} RunsGrow(cs: seq<ChInfo>, i: nat, n: nat)
    requires i <= n <= |cs|
    ensures |Runs(Listed(cs, i))| <= |Runs(Listed(cs, n))|
  {
    if i < n {
      RunsGrow(cs, i, n - 1);
      if Lists(cs[n - 1]) {
        RunsSnoc(Listed(cs, n - 1), cs[n - 1].ch);
      } else {
        EmptyConcat(Listed(cs, n - 1));
      }
    }
  }

  ghost predicate Numbered(cs: seq<ChInfo>) { forall i :: 0 <= i < |cs| ==> 0 < cs[i].ch < 256 }

  /** rtw_chset_set_spt_chs_ie: one element appended, or nothing at all. */
  method SetSptChs(cs: seq<ChInfo>, buf: array<u8>, pos: nat) returns (end: nat)
    requires Numbered(cs)
    requires var n := 2 * |Runs(Listed(cs, |cs|))|; n <= 255 && pos + 2 + n <= buf.Length
    modifies buf
    ensures var chs := Listed(cs, |cs|);
            if chs == [] then end == pos && buf[..] == old(buf[..])
            else
              && end == pos + 2 + 2 * |Runs(chs)| <= buf.Length
              && buf[..end] == old(buf[..pos]) + [36, 2 * |Runs(chs)|] + Raw(Runs(chs))
              && buf[end..] == old(buf[end..])
  {
    ghost var chs, was := Listed(cs, |cs|), buf[..];
    NoRuns(chs);
    PairsOfRaw(Runs(chs));
    var cont := WriteBody(cs, buf, pos + 2);
    end := PutHeader(buf, pos, cont, was, Raw(Runs(chs)));
  }

  lemma NoRuns(chs: seq<nat>)
    ensures chs == [] <==> Runs(chs) == []
  {
  }

  method PutHeader(buf: array<u8>, pos: nat, cont: nat, ghost was: seq<u8>, ghost body: seq<int>) returns (end: nat)
    requires pos + 2 + |body| == cont <= buf.Length == |was| && cont - pos - 2 < 256
    requires buf[..cont] == was[..pos + 2] + body && buf[cont..] == was[cont..]
    modifies buf
    ensures if |body| == 0 then end == pos && buf[..] == was
            else end == cont && buf[cont..] == was[cont..]
                 && buf[..cont] == was[..pos] + [EID_SUPPORTED_CHANNELS, cont - pos - 2] + body
  {
    ghost var mid := buf[..];
    if cont > pos + 2 {
      buf[pos], buf[pos + 1] := EID_SUPPORTED_CHANNELS, cont - pos - 2;
      Header(was, mid, buf[..], pos, cont, body);
      end := cont;
    } else {
      EmptyConcat(was[..cont]);
      Halves(was, cont);
      Halves(mid, cont);
      end := pos;
    }
  }

  lemma Header(was: seq<u8>, mid: seq<u8>, now: seq<u8>, pos: nat, cont: nat, body: seq<int>)
    requires pos + 2 <= cont <= |mid| == |was| && mid[..cont] == was[..pos + 2] + body && mid[cont..] == was[cont..]
    requires cont - pos - 2 < 256 && now == mid[pos := EID_SUPPORTED_CHANNELS][pos + 1 := cont - pos - 2]
    ensures now[..cont] == was[..pos] + [EID_SUPPORTED_CHANNELS, cont - pos - 2] + body && now[cont..] == was[cont..]
  {
    assert forall i :: pos + 2 <= i < cont ==> now[i] == mid[..cont][i] == body[i - pos - 2];
    assert forall i :: 0 <= i < pos ==> now[i] == mid[..cont][i] == was[i];
  }

  /** The loop, and the last pair after it. */
  method WriteBody(cs: seq<ChInfo>, buf: array<u8>, at: nat) returns (cont: nat)
    requires Numbered(cs) && at + 2 * |Runs(Listed(cs, |cs|))| <= buf.Length
    modifies buf
    ensures cont == at + 2 * |Runs(Listed(cs, |cs|))|
    ensures buf[..cont] == old(buf[..at]) + Raw(Runs(Listed(cs, |cs|))) && buf[cont..] == old(buf[cont..])
  {
    cont := at;
    var fch: nat, lch: nat := 0, 0;
    ghost var rs: seq<Run> := [];
    ghost var was := buf[..];
    EmptyConcat(was[..at]);
    for i := 0 to |cs|
      invariant cont == at + 2 * |rs| <= buf.Length == |was| && Current(Listed(cs, i), fch, lch, rs)
      invariant buf[..cont] == was[..at] + Raw(rs) && buf[cont..] == was[cont..]
    {
      RunsGrow(cs, i + 1, |cs|);
      if Lists(cs[i]) {
        var ch := cs[i].ch;
        Advance(Listed(cs, i), fch, lch, rs, ch);
        if fch == 0 {
          fch := ch;
        } else if lch + 1 != ch {
          rs, cont := PutPair(buf, cont, fch, lch, at, rs, was);
          fch := ch;
        }
        lch := ch;
      } else {
        EmptyConcat(Listed(cs, i));
      }
    }
    if fch != 0 { rs, cont := PutPair(buf, cont, fch, lch, at, rs, was); }
  }

  /** `rs` are the runs already written, fch..lch the one being collected, if any. */
  ghost predicate Current(chs: seq<nat>, fch: nat, lch: nat, rs: seq<Run>) {
    if chs == [] then fch == 0 && rs == []
    else 0 < fch <= lch < 256 && Runs(chs) == rs + [Run(fch, lch - fch + 1)]
  }

  lemma Advance(chs: seq<nat>, fch: nat, lch: nat, rs: seq<Run>, ch: nat)
    requires Current(chs, fch, lch, rs) && 0 < ch < 256
    ensures if fch == 0 then Current(chs + [ch], ch, ch, rs)
            else if lch + 1 != ch then Current(chs + [ch], ch, ch, rs + [Run(fch, lch - fch + 1)])
            else Current(chs + [ch], fch, ch, rs)
    ensures fch != 0 && lch + 1 != ch ==> |Runs(chs + [ch])| == |rs| + 2
  {
    RunsSnoc(chs, ch);
  }

  method PutPair(buf: array<u8>, at: nat, fch: nat, lch: nat, start: nat, ghost rs: seq<Run>, ghost was: seq<u8>)
    returns (ghost rs': seq<Run>, cont: nat)
    requires 0 < fch <= lch < 256 && start <= at && at + 2 <= buf.Length == |was|
    requires buf[..at] == was[..start] + Raw(rs) && buf[at..] == was[at..]
    modifies buf
    ensures rs' == rs + [Run(fch, lch - fch + 1)] && cont == at + 2
    ensures buf[..cont] == was[..start] + Raw(rs') && buf[cont..] == was[cont..]
  {
    rs', cont := rs + [Run(fch, lch - fch + 1)], at + 2;
    RawSnoc(rs, Run(fch, lch - fch + 1));
    Assoc(was[..start], Raw(rs), [fch, lch - fch + 1]);
    assert buf[at..][2..] == was[at..][2..];
    buf[at], buf[at + 1] := fch, lch - fch + 1;
    assert buf[..cont] == old(buf[..at]) + [fch, lch - fch + 1];
    assert buf[cont..] == old(buf[at..])[2..];
  }

  /** The round trip, on the bytes: a receiver reads the enabled channels back, in order. */
  lemma ElementRoundTrip(cs: seq<ChInfo>)
    ensures Expand(Pairs(Raw(Runs(Listed(cs, |cs|))))) == Listed(cs, |cs|)
  {
    PairsOfRaw(Runs(Listed(cs, |cs|)));
    RunsRoundTrip(Listed(cs, |cs|));
  }

  // ---- which channels are announced

  function Ranked(cs: seq<ChInfo>, n: nat): set<nat>
    requires n <= |cs|
  {
    set j: nat | j < n && 0 !in cs[j].flags && cs[j].band != G6
  }

  /** Every enabled 2.4 or 5 GHz channel is announced at its place, after as many as stand before it in the set, and
      nothing else is. */
  lemma {:induction false} ListedAt(cs: seq<ChInfo>, n: nat, i: nat)
    requires i < n <= |cs|
    ensures |Listed(cs, n)| == |Ranked(cs, n)|
    ensures 0 !in cs[i].flags && cs[i].band != G6 ==>
              |Ranked(cs, i)| < |Listed(cs, n)| && Listed(cs, n)[|Ranked(cs, i)|] == cs[i].ch
  {
    ListedSize(cs, n);
    ListedSize(cs, n - 1);
    RankStep(cs, n - 1);
    if i < n - 1 { ListedAt(cs, n - 1, i); }
  }

  lemma {:induction false} ListedSize(cs: seq<ChInfo>, n: nat)
    requires n <= |cs|
    ensures |Listed(cs, n)| == |Ranked(cs, n)|
  {
    if n == 0 {
      assert Ranked(cs, 0) == {};
    } else {
      ListedSize(cs, n - 1);
      RankStep(cs, n - 1);
    }
  }

  lemma RankStep(cs: seq<ChInfo>, n: nat)
    requires n < |cs|
    ensures |Ranked(cs, n + 1)| == |Ranked(cs, n)| + if 0 !in cs[n].flags && cs[n].band != G6 then 1 else 0
  {
    assert Ranked(cs, n + 1) == if 0 !in cs[n].flags && cs[n].band != G6 then Ranked(cs, n) + {n} else Ranked(cs, n);
  }
}
