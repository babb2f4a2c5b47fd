/**
 The MAC address access list (core/rtw_ap.c): a list threaded through a pool of
 sixteen slots.
 */
module Acl {
  import opened Seqs

  const NUM_ACL: nat := 16
  const BROADCAST: nat := 0xFFFF_FFFF_FFFF
  const MODE_DISABLED: nat := 0

  type Addr = nat

  datatype Node = Node(addr: Addr, valid: bool)

  // ---- the list a pool stands for

  datatype Op = Add(addr: Addr) | Remove(addr: Addr) | Clear

  function Without(c: seq<Addr>, a: Addr): seq<Addr> {
    if c == [] then []
    else Without(c[..|c| - 1], a) + (if a == BROADCAST || c[|c| - 1] == a then [] else [c[|c| - 1]])
  }

  function Do(c: seq<Addr>, op: Op): seq<Addr> {
    match op
    case Add(a) => if a in c || |c| >= NUM_ACL then c else c + [a]
    case Remove(a) => Without(c, a)
    case Clear => []
  }

  ghost predicate Sound(c: seq<Addr>) {
    |c| <= NUM_ACL && forall i, j :: 0 <= i < j < |c| ==> c[i] != c[j]
  }

  lemma {:induction false} WithoutLaw(c: seq<Addr>, a: Addr)
    ensures forall x :: x in Without(c, a) <==> x in c && a != BROADCAST && x != a
    ensures Sound(c) ==> Sound(Without(c, a)) && |Without(c, a)| <= |c|
  {
    if c != [] {
      var h := c[..|c| - 1];
      WithoutLaw(h, a);
      LastSnoc(c);
      assert forall x :: x in c <==> x in h || x == c[|c| - 1];
      var w := Without(h, a);
      if Sound(c) {
        forall i | 0 <= i < |w| ensures w[i] != c[|c| - 1] {
          assert w[i] in w;
          var j :| 0 <= j < |h| && h[j] == w[i];
        }
      }
    }
  }

  /** What the last word on an address was: whether the run leaves it listed, given that it was before. */
  function LastWord(run: seq<Op>, a: Addr, before: bool): bool {
    if run == [] then before
    else
      match run[|run| - 1]
      case Add(b) => b == a || LastWord(run[..|run| - 1], a, before)
      case Remove(b) => b != a && b != BROADCAST && LastWord(run[..|run| - 1], a, before)
      case Clear => false
  }

  function Run(c: seq<Addr>, run: seq<Op>): seq<Addr> {
    if run == [] then c else Do(Run(c, run[..|run| - 1]), run[|run| - 1])
  }

  /** No addition of the run met a full list. */
  ghost predicate Roomy(c: seq<Addr>, run: seq<Op>) {
    run == [] || (Roomy(c, run[..|run| - 1]) &&
                  var d := Run(c, run[..|run| - 1]);
                  run[|run| - 1].Add? && run[|run| - 1].addr !in d ==> |d| < NUM_ACL)
  }

  lemma StepSound(c: seq<Addr>, op: Op)
    requires Sound(c)
    ensures Sound(Do(c, op))
    ensures op.Add? ==> (op.addr in Do(c, op) <==> op.addr in c || |c| < NUM_ACL)
  {
    if op.Remove? { WithoutLaw(c, op.addr); }
  }

  /** Over every run the addresses stay distinct and within the pool, and unless an addition met a full list
      exactly those are listed on which the last word was an addition. */
  lemma {:induction false} EveryRun(c: seq<Addr>, run: seq<Op>, a: Addr)
    requires Sound(c)
    ensures Sound(Run(c, run))
    ensures Roomy(c, run) ==> (a in Run(c, run) <==> LastWord(run, a, a in c))
  {
    if run != [] {
      var h, op := run[..|run| - 1], run[|run| - 1];
      EveryRun(c, h, a);
      StepSound(Run(c, h), op);
      if op.Remove? { WithoutLaw(Run(c, h), op.addr); }
    }
  }

  /** Removing what an addition added restores the list, unless it is the broadcast address, which removes
      everything. */
  lemma RemoveUndoesAdd(c: seq<Addr>, a: Addr)
    requires Sound(c) && a !in c && |c| < NUM_ACL
    ensures Do(Do(c, Add(a)), Remove(a)) == c <==> a != BROADCAST || c == []
  {
    var d := c + [a];
    assert d[..|d| - 1] == c;
    WithoutLaw(d, a);
    if a != BROADCAST {
      WithoutOther(c, a);
    } else {
      AllGone(d);
    }
  }

  lemma {:induction false} AllGone(c: seq<Addr>)
    ensures Without(c, BROADCAST) == []
  {
    if c != [] { AllGone(c[..|c| - 1]); }
  }

  lemma {:induction false} WithoutOther(c: seq<Addr>, a: Addr)
    requires a !in c && a != BROADCAST
    ensures Without(c, a) == c
  {
    if c != [] {
      WithoutOther(c[..|c| - 1], a);
      LastSnoc(c);
    }
  }

  // ---- the slots

  /** The addresses of a list of slots. */
  function Addrs(list: seq<nat>, nodes: seq<Node>): seq<Addr>
    requires forall i :: 0 <= i < |list| ==> list[i] < |nodes|
  {
    seq(|list|, i requires 0 <= i < |list| => nodes[list[i]].addr)
  }

  /** The list goes through exactly the valid slots, once each, with distinct addresses. */
  ghost predicate Threaded(list: seq<nat>, nodes: seq<Node>) {
    && |nodes| == NUM_ACL
    && (forall i :: 0 <= i < |list| ==> list[i] < NUM_ACL && nodes[list[i]].valid)
    && (forall i, j :: 0 <= i < j < |list| ==> list[i] != list[j] && nodes[list[i]].addr != nodes[list[j]].addr)
    && (forall k :: 0 <= k < NUM_ACL && nodes[k].valid ==> k in list)
  }

  function Slots(nodes: seq<Node>, n: nat): set<nat> { set k: nat | k < n && k < |nodes| && nodes[k].valid }

  lemma {:induction false} SlotBound(nodes: seq<Node>, n: nat)
    requires n <= |nodes|
    ensures |Slots(nodes, n)| <= n
    ensures |Slots(nodes, n)| < n ==> exists k :: 0 <= k < n && !nodes[k].valid
  {
    if n > 0 {
      SlotBound(nodes, n - 1);
      if nodes[n - 1].valid {
        assert Slots(nodes, n) == Slots(nodes, n - 1) + {n - 1};
      } else {
        assert Slots(nodes, n) == Slots(nodes, n - 1);
      }
    } else {
      assert Slots(nodes, n) == {};
    }
  }

  function Members(list: seq<nat>): set<nat> { set k | k in list }

  lemma {:induction false} DistinctSize(list: seq<nat>)
    requires forall i, j :: 0 <= i < j < |list| ==> list[i] != list[j]
    ensures |Members(list)| == |list|
  {
    if list != [] {
      var h, x := list[..|list| - 1], list[|list| - 1];
      DistinctSize(h);
      LastSnoc(list);
      assert Members(list) == Members(h) + {x};
      assert forall i :: 0 <= i < |h| ==> h[i] == list[i] != x;
    }
  }

  /** As many nodes as valid slots: never more than sixteen, and with fewer there is a free slot. */
  lemma SlotsAreNodes(list: seq<nat>, nodes: seq<Node>)
    requires Threaded(list, nodes)
    ensures |list| == |Slots(nodes, NUM_ACL)| <= NUM_ACL
    ensures |list| < NUM_ACL ==> exists k :: 0 <= k < NUM_ACL && !nodes[k].valid
  {
    assert Members(list) == Slots(nodes, NUM_ACL) by {
      forall k: nat | k in list ensures k in Slots(nodes, NUM_ACL) {
        var i :| 0 <= i < |list| && list[i] == k;
      }
    }
    DistinctSize(list);
    SlotBound(nodes, NUM_ACL);
  }

  lemma AppendThreaded(list: seq<nat>, nodes: seq<Node>, k: nat, a: Addr)
    requires Threaded(list, nodes) && k < NUM_ACL && !nodes[k].valid && a !in Addrs(list, nodes)
    ensures var m := nodes[k := Node(a, true)];
            Threaded(list + [k], m) && Addrs(list + [k], m) == Addrs(list, nodes) + [a]
  {
    var m := nodes[k := Node(a, true)];
    forall i | 0 <= i < |list| ensures m[list[i]] == nodes[list[i]] && nodes[list[i]].addr != a {
      assert Addrs(list, nodes)[i] == nodes[list[i]].addr;
    }
    assert forall j :: 0 <= j < NUM_ACL && m[j].valid ==> j in list + [k];
  }

  function Cut<T>(s: seq<T>, i: nat): (r: seq<T>)
    requires i < |s|
    ensures |r| == |s| - 1 && forall j :: 0 <= j < |r| ==> r[j] == s[if j < i then j else j + 1]
  {
    s[..i] + s[i + 1..]
  }

  lemma CutHas(list: seq<nat>, i: nat, k: nat)
    requires i < |list| && k in list && k != list[i]
    ensures k in Cut(list, i)
  {
    var j :| 0 <= j < |list| && list[j] == k;
    var l := Cut(list, i);
    assert if j < i then l[j] == k else l[j - 1] == k;
  }

  lemma UnlinkThreaded(list: seq<nat>, nodes: seq<Node>, i: nat)
    requires Threaded(list, nodes) && i < |list|
    ensures var m := nodes[list[i] := nodes[list[i]].(valid := false)];
            Threaded(Cut(list, i), m) && Addrs(Cut(list, i), m) == Cut(Addrs(list, nodes), i)
  {
    var m := nodes[list[i] := nodes[list[i]].(valid := false)];
    var l := Cut(list, i);
    forall j | 0 <= j < |l| ensures l[j] < NUM_ACL && m[l[j]] == nodes[l[j]] && m[l[j]].valid { }
    forall k | 0 <= k < NUM_ACL && m[k].valid ensures k in l { CutHas(list, i, k); }
    CutAddrs(list, nodes, m, i);
    assert forall x, y :: 0 <= x < y < |l| ==> l[x] != l[y] && nodes[l[x]].addr != nodes[l[y]].addr;
  }

  lemma CutAddrs(list: seq<nat>, nodes: seq<Node>, m: seq<Node>, i: nat)
    requires i < |list| && |m| == |nodes| && forall k :: 0 <= k < |nodes| ==> m[k].addr == nodes[k].addr
    requires forall j :: 0 <= j < |list| ==> list[j] < |nodes|
    ensures Addrs(Cut(list, i), m) == Cut(Addrs(list, nodes), i)
  {
  }

  /** One step of the removal: `cur` is what is left after looking at `n` of the addresses `c`. */
  lemma WalkStep(c: seq<Addr>, n: nat, cur: seq<Addr>, i: nat, a: Addr)
    requires n < |c| && i < |cur| && cur[..i] == Without(c[..n], a) && cur[i..] == c[n..]
    ensures cur[i] == c[n] && cur[i + 1..] == c[n + 1..]
    ensures if a == BROADCAST || c[n] == a then Without(c[..n + 1], a) == cur[..i] else Without(c[..n + 1], a) == cur[..i + 1]
  {
    assert cur[i] == cur[i..][0];
    assert cur[i + 1..] == cur[i..][1..] && c[n + 1..] == c[n..][1..];
    assert c[..n + 1][..n] == c[..n];
    EmptyConcat(Without(c[..n], a));
    TakeSnoc(cur, i);
  }

  class Pool {
    const nodes: array<Node>
    var list: seq<nat>
    var num: nat
    var mode: nat

    ghost predicate Valid()
      reads this, nodes
    {
      nodes.Length == NUM_ACL && Threaded(list, nodes[..]) && num == |list|
    }

    ghost function Contents(): seq<Addr>
      requires Valid()
      reads this, nodes
    {
      Addrs(list, nodes[..])
    }

    /** rtw_macaddr_acl_init */
    constructor ()
      ensures Valid() && fresh(nodes) && Contents() == [] && mode == MODE_DISABLED
    {
      list, num, mode := [], 0, MODE_DISABLED;
      nodes := new Node[NUM_ACL](_ => Node(0, false));
    }

    method Find(a: Addr) returns (existed: bool)
      requires Valid()
      ensures existed <==> a in Contents()
    {
      existed := false;
      var i := 0;
      while i < |list|
        invariant i <= |list| && forall k :: 0 <= k < i ==> Contents()[k] != a
      {
        assert Contents()[i] == nodes[list[i]].addr && nodes[..][list[i]].valid;
        if nodes[list[i]].addr == a && nodes[list[i]].valid { return true; }
        i := i + 1;
      }
    }

    /** rtw_acl_add_sta: 0 when the address is listed afterwards, -1 when all slots are taken. */
    method AddSta(a: Addr) returns (ret: int)
      requires Valid()
      modifies this`list, this`num, nodes
      ensures Valid() && Contents() == Do(old(Contents()), Add(a))
      ensures ret == 0 || ret == -1
      ensures ret == 0 <==> a in Contents()
      ensures ret == -1 <==> a !in old(Contents()) && old(num) == 16
    {
      SlotsAreNodes(list, nodes[..]);
      var existed := Find(a);
      if existed { return 0; }
      if num >= NUM_ACL { return -1; }
      var k := 0;
      while k < NUM_ACL && nodes[k].valid
        invariant k <= NUM_ACL && forall j :: 0 <= j < k ==> nodes[..][j].valid
      {
        k := k + 1;
      }
      AppendThreaded(list, nodes[..], k, a);
      nodes[k] := Node(a, true);
      assert nodes[..] == old(nodes[..])[k := Node(a, true)];
      list, num := list + [k], num + 1;
      ret := 0;
    }

    /** rtw_acl_remove_sta; the broadcast address removes every entry. */
    method RemoveSta(a: Addr)
      requires Valid()
      modifies this`list, this`num, nodes
      ensures Valid() && Contents() == Do(old(Contents()), Remove(a))
    {
      ghost var c := Contents();
      var i := 0;
      ghost var n := 0;
      while i < |list|
        invariant i <= |list| && n <= |c| && Valid() && |list| - i == |c| - n
        invariant Contents()[..i] == Without(c[..n], a) && Contents()[i..] == c[n..]
        decreases |list| - i
      {
        WalkStep(c, n, Contents(), i, a);
        if a == BROADCAST || nodes[list[i]].addr == a {
          Drop(i);
        } else {
          i := i + 1;
        }
        n := n + 1;
      }
      assert c[..n] == c && Contents()[..i] == Contents();
    }

    method Drop(i: nat)
      requires Valid() && i < |list|
      modifies this`list, this`num, nodes
      ensures Valid() && |list| == |old(list)| - 1
      ensures Contents()[..i] == old(Contents())[..i] && Contents()[i..] == old(Contents())[i + 1..]
    {
      UnlinkThreaded(list, nodes[..], i);
      ghost var c, m := Contents(), nodes[..][list[i] := nodes[list[i]].(valid := false)];
      nodes[list[i]] := nodes[list[i]].(valid := false);
      assert nodes[..] == m;
      list, num := Cut(list, i), num - 1;
      Slices(c[..i], [], c[i + 1..]);
      EmptyConcat(c[..i]);
    }

    /** rtw_macaddr_acl_clear: the count is back at zero, so its warning is never raised. */
    method ClearAll()
      requires Valid()
      modifies this`list, this`num, this`mode, nodes
      ensures Valid() && Contents() == Do(old(Contents()), Clear) && num == 0 && mode == MODE_DISABLED
    {
      while |list| > 0
        invariant Valid()
        decreases |list|
      {
        Drop(0);
      }
      mode := MODE_DISABLED;
    }
  }

  lemma {:induction false} WithoutConcat(x: seq<Addr>, y: seq<Addr>, a: Addr)
    ensures Without(x + y, a) == Without(x, a) + Without(y, a)
  {
    if y == [] {
      EmptyConcat(x);
      EmptyConcat(Without(x, a));
    } else {
      var h, e := y[..|y| - 1], y[|y| - 1];
      WithoutConcat(x, h, a);
      assert (x + y)[..|x + y| - 1] == x + h;
      Assoc(Without(x, a), Without(h, a), if a == BROADCAST || e == a then [] else [e]);
    }
  }

  /** Taking an address out of the middle leaves the others in their order. */
  lemma RemoveFromMiddle(x: seq<Addr>, a: Addr, y: seq<Addr>)
    requires a !in x && a !in y && a != BROADCAST
    ensures Do(x + [a] + y, Remove(a)) == x + y
  {
    WithoutConcat(x + [a], y, a);
    WithoutConcat(x, [a], a);
    WithoutOther(x, a);
    WithoutOther(y, a);
    assert [a][..0] == [];
    EmptyConcat(x);
  }
}
