/** Facts about sequences that the proofs call with their exact terms, so
    that the solver never searches for a regrouping of a long
    concatenation itself. */
module Seqs {
  lemma AppendAssoc<T>(a: seq<T>, b: seq<T>, c: seq<T>)
    ensures (a + b) + c == a + (b + c)
  {
  }

  lemma SplitAt<T>(s: seq<T>, i: nat)
    requires i < |s|
    ensures s == s[..i] + [s[i]] + s[i + 1..]
  {
  }

  /** Two concatenations, each half of the second longer than the first's
      by a count and equal to it when the count is 0. */
  lemma ConcatLonger<T>(a: seq<T>, b: seq<T>, c: seq<T>, d: seq<T>, m: nat, n: nat)
    requires |c| == |a| + m && (m == 0 ==> a == c)
    requires |d| == |b| + n && (n == 0 ==> b == d)
    ensures |c + d| == |a + b| + (m + n) && (m + n == 0 ==> a + b == c + d)
  {
  }

  lemma LongerBySame<T>(a: seq<T>, a': seq<T>, c: seq<T>, c': seq<T>, n: nat)
    requires a == a' && c == c'
    requires |c'| == |a'| + n && (n == 0 ==> a' == c')
    ensures |c| == |a| + n && (n == 0 ==> a == c)
  {
  }

  /** Some element satisfies `p`. */
  ghost predicate Any<T>(xs: seq<T>, p: T -> bool)
  {
    exists i :: 0 <= i < |xs| && p(xs[i])
  }

  lemma AnySnoc<T>(xs: seq<T>, p: T -> bool)
    requires xs != []
    ensures Any(xs, p) <==> Any(xs[..|xs| - 1], p) || p(xs[|xs| - 1])
  {
    var init := xs[..|xs| - 1];
    if Any(xs, p) {
      var i :| 0 <= i < |xs| && p(xs[i]);
      if i < |init| {
        assert init[i] == xs[i];
      }
    }
    if Any(init, p) {
      var i :| 0 <= i < |init| && p(init[i]);
      assert xs[i] == init[i];
    }
  }
}
