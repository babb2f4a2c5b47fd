/** Identities between slices and concatenations, stated once for every element type. */
module Seqs {

  lemma Whole<T>(s: seq<T>, k: nat)
    requires k < |s|
    ensures s == s[..k] + [s[k]] + s[k + 1..]
  {
  }

  lemma Halves<T>(s: seq<T>, k: nat)
    requires k <= |s|
    ensures s == s[..k] + s[k..]
  {
  }

  lemma HeadTail<T>(s: seq<T>)
    requires s != []
    ensures s == [s[0]] + s[1..]
  {
  }

  lemma TakeSnoc<T>(s: seq<T>, k: nat)
    requires k < |s|
    ensures s[..k + 1] == s[..k] + [s[k]]
  {
  }

  lemma LastSnoc<T>(s: seq<T>)
    requires s != []
    ensures s == s[..|s| - 1] + [s[|s| - 1]]
  {
  }

  lemma UpdateParts<T>(s: seq<T>, k: nat, x: T)
    requires k < |s|
    ensures s[k := x] == s[..k] + [x] + s[k + 1..]
  {
  }

  lemma TailOfConcat<T>(a: seq<T>, b: seq<T>)
    requires a != []
    ensures (a + b)[0] == a[0] && (a + b)[1..] == a[1..] + b
  {
  }

  lemma EmptyConcat<T>(a: seq<T>)
    ensures [] + a == a && a + [] == a
  {
  }

  lemma Assoc<T>(a: seq<T>, b: seq<T>, c: seq<T>)
    ensures (a + b) + c == a + (b + c)
  {
  }

  lemma Regroup<T>(p: seq<T>, a: seq<T>, m: seq<T>, b: seq<T>)
    ensures (p + a) + m + b == p + ((a + m) + b)
  {
  }

  lemma Slices<T>(h: seq<T>, e: seq<T>, t: seq<T>)
    ensures (h + e + t)[..|h|] == h && (h + e + t)[|h| + |e|..] == t
    ensures (h + e + t)[|h|..|h| + |e|] == e
    ensures forall i :: 0 <= i < |e| ==> (h + e + t)[|h| + i] == e[i]
  {
  }

  lemma SliceHead<T>(s: seq<T>, i: nat, j: nat)
    requires i < j <= |s|
    ensures s[i..j][0] == s[i]
  {
  }

  lemma UpdateMiddle<T>(p: seq<T>, h: seq<T>, e: seq<T>, t: seq<T>, i: nat, x: T)
    requires i < |e|
    ensures (p + (h + e + t))[|p| + |h| + i := x] == p + (h + e[i := x] + t)
  {
  }
}
