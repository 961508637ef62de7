/** Generic facts about selecting elements of a sequence, used to state what
    the list-building loops of the services compute. */
module Seqs {

  /** The elements of `s` that satisfy `p`, in their original order
      (a filter that skips the elements it does not keep). */
  function Where<T(==,!new)>(s: seq<T>, p: T -> bool): (r: seq<T>)
    ensures |r| <= |s|
    ensures forall x :: x in r <==> x in s && p(x)
  {
    if s == [] then []
    else (if p(s[0]) then [s[0]] else []) + Where(s[1..], p)
  }

  /** Selecting from a concatenation selects from each part, in order. */
  lemma {:induction false} WhereAppend<T(!new)>(a: seq<T>, b: seq<T>, p: T -> bool)
    ensures Where(a + b, p) == Where(a, p) + Where(b, p)
  {
    if a == [] {
      assert a + b == b;
    } else {
      assert (a + b)[1..] == a[1..] + b;
      WhereAppend(a[1..], b, p);
    }
  }

  /** Selecting with two predicates that agree everywhere gives the same list. */
  lemma {:induction false} WhereCongruent<T(!new)>(s: seq<T>, p: T -> bool, q: T -> bool)
    requires forall x :: p(x) == q(x)
    ensures Where(s, p) == Where(s, q)
  {
    if s != [] {
      WhereCongruent(s[1..], p, q);
    }
  }

  /** `r` is the longest prefix of `s` all of whose elements satisfy `p`. */
  ghost predicate IsLongestPrefixWhere<T>(r: seq<T>, s: seq<T>, p: T -> bool)
  {
    && |r| <= |s|
    && r == s[..|r|]
    && (forall k :: 0 <= k < |r| ==> p(s[k]))
    && (|r| < |s| ==> !p(s[|r|]))
  }

  /** The longest prefix of `s` whose elements satisfy `p` (a filter that
      stops at the first element it does not keep). */
  function TakeWhile<T>(s: seq<T>, p: T -> bool): (r: seq<T>)
    ensures IsLongestPrefixWhere(r, s, p)
  {
    if s == [] || !p(s[0]) then [] else [s[0]] + TakeWhile(s[1..], p)
  }

  /** There is only one longest prefix. */
  lemma LongestPrefixWhereUnique<T>(r1: seq<T>, r2: seq<T>, s: seq<T>, p: T -> bool)
    requires IsLongestPrefixWhere(r1, s, p) && IsLongestPrefixWhere(r2, s, p)
    ensures r1 == r2
  {
  }
}
