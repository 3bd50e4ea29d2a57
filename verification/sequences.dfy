/** Sequence helpers: LINQ's `Where` and the order-preservation relation it keeps. */
module Sequences {

  /** `a` can be obtained from `b` by deleting elements, without reordering. */
  predicate SubsequenceOf<T(==)>(a: seq<T>, b: seq<T>)
    decreases |b|
  {
    if a == [] then true
    else if b == [] then false
    else if a[0] == b[0] then SubsequenceOf(a[1..], b[1..])
    else SubsequenceOf(a, b[1..])
  }

  /** LINQ `Enumerable.Where`: the elements of `s` satisfying `keep`, in enumeration order. */
  function Where<T(!new)>(s: seq<T>, keep: T -> bool): (r: seq<T>)
    ensures |r| <= |s|
    ensures forall x :: x in r <==> x in s && keep(x)
    ensures forall x :: multiset(r)[x] == if keep(x) then multiset(s)[x] else 0
  {
    if s == [] then []
    else
      assert s == [s[0]] + s[1..];
      if keep(s[0]) then [s[0]] + Where(s[1..], keep)
      else Where(s[1..], keep)
  }

  lemma {:induction false} WhereKeepsOrder<T(!new)>(s: seq<T>, keep: T -> bool)
    ensures SubsequenceOf(Where(s, keep), s)
    decreases |s|
  {
    if s != [] {
      WhereKeepsOrder(s[1..], keep);
      if keep(s[0]) {
        assert Where(s, keep)[1..] == Where(s[1..], keep);
      } else {
        SkipHeadKeepsSubsequence(Where(s, keep), s);
      }
    }
  }

  /** Dropping the head of the longer sequence keeps a subsequence a subsequence
      of the whole. */
  lemma {:induction false} SkipHeadKeepsSubsequence<T>(a: seq<T>, b: seq<T>)
    requires b != []
    requires SubsequenceOf(a, b[1..])
    ensures SubsequenceOf(a, b)
    decreases |b|, 1
  {
    if a != [] && a[0] == b[0] {
      // b[1..] is non-empty because a is a non-empty subsequence of it
      SubsequenceTail(a, b[1..]);
    }
  }

  /** The tail of a non-empty subsequence is still a subsequence. */
  lemma {:induction false} SubsequenceTail<T>(a: seq<T>, b: seq<T>)
    requires a != []
    requires SubsequenceOf(a, b)
    ensures SubsequenceOf(a[1..], b)
    decreases |b|, 2
  {
    assert b != [];
    if a[0] == b[0] {
      SkipHeadKeepsSubsequence(a[1..], b);
    } else {
      SubsequenceTail(a, b[1..]);
      SkipHeadKeepsSubsequence(a[1..], b);
    }
  }

  /** Being a subsequence is transitive. */
  lemma {:induction false} SubsequenceTransitive<T>(a: seq<T>, b: seq<T>, c: seq<T>)
    requires SubsequenceOf(a, b) && SubsequenceOf(b, c)
    ensures SubsequenceOf(a, c)
    decreases |c|
  {
    if a != [] {
      assert b != [] && c != [];
      if b[0] == c[0] {
        if a[0] == b[0] {
          SubsequenceTransitive(a[1..], b[1..], c[1..]);
        } else {
          SubsequenceTransitive(a, b[1..], c[1..]);
          SkipHeadKeepsSubsequence(a, c);
        }
      } else {
        SubsequenceTransitive(a, b, c[1..]);
        SkipHeadKeepsSubsequence(a, c);
      }
    }
  }

  /** Two successive `Where`s are one `Where` by the conjunction of their conditions. */
  lemma {:induction false} WhereWhere<T(!new)>(s: seq<T>, first: T -> bool, second: T -> bool, both: T -> bool)
    requires forall x :: both(x) == (first(x) && second(x))
    ensures Where(Where(s, first), second) == Where(s, both)
    decreases |s|
  {
    if s != [] {
      WhereWhere(s[1..], first, second, both);
      if first(s[0]) {
        assert Where(s, first)[1..] == Where(s[1..], first);
      }
    }
  }

  /** `Where` depends only on which elements its condition accepts. */
  lemma {:induction false} WhereCongruent<T(!new)>(s: seq<T>, keep: T -> bool, same: T -> bool)
    requires forall x :: keep(x) == same(x)
    ensures Where(s, keep) == Where(s, same)
    decreases |s|
  {
    if s != [] {
      WhereCongruent(s[1..], keep, same);
    }
  }
}
