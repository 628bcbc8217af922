/** Small facts about sequences shared by the builder and the assembler. */
module Seqs {

  /** The sum of the elements, added from the front. */
  function Sum(s: seq<int>): int
    decreases |s|
  {
    if s == [] then 0 else Sum(s[..|s| - 1]) + s[|s| - 1]
  }

  lemma SumSnoc(s: seq<int>, x: int)
    ensures Sum(s + [x]) == Sum(s) + x
  {
    assert (s + [x])[..|s|] == s;
  }

  lemma TakeSnoc<T>(s: seq<T>, i: nat)
    requires i < |s|
    ensures s[..i + 1] == s[..i] + [s[i]]
  {
  }

  lemma AppendSnoc<T>(a: seq<T>, b: seq<T>, x: T)
    ensures a + (b + [x]) == (a + b) + [x]
  {
  }

  /** No element occurs twice. */
  predicate Distinct<T(==)>(s: seq<T>)
  {
    forall i, j :: 0 <= i < j < |s| ==> s[i] != s[j]
  }

  /** The concatenation of the blocks, in order
      (`[x for xs in xss for x in xs]`). */
  function Flatten<T>(xss: seq<seq<T>>): seq<T>
    decreases |xss|
  {
    if xss == [] then [] else Flatten(xss[..|xss| - 1]) + xss[|xss| - 1]
  }

  /** The total length of the blocks. */
  function LengthSum<T>(xss: seq<seq<T>>): nat
    decreases |xss|
  {
    if xss == [] then 0 else LengthSum(xss[..|xss| - 1]) + |xss[|xss| - 1]|
  }

  /** Concatenation keeps every element of every block. */
  lemma {:induction false} FlattenLength<T>(xss: seq<seq<T>>)
    ensures |Flatten(xss)| == LengthSum(xss)
    decreases |xss|
  {
    if xss != [] {
      FlattenLength(xss[..|xss| - 1]);
    }
  }

  lemma LengthSumSnoc<T>(xss: seq<seq<T>>, xs: seq<T>)
    ensures LengthSum(xss + [xs]) == LengthSum(xss) + |xs|
  {
    assert (xss + [xs])[..|xss|] == xss;
  }

  lemma {:induction false} FlattenHas<T>(xss: seq<seq<T>>, n: nat, x: T)
    requires n < |xss| && x in xss[n]
    ensures x in Flatten(xss)
    decreases |xss|
  {
    if n < |xss| - 1 {
      var front := xss[..|xss| - 1];
      assert front[n] == xss[n];
      FlattenHas(front, n, x);
    }
  }
}
