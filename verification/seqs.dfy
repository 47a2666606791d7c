/** Sequence operations the incident log is built from: keeping the elements
    that satisfy a predicate (a boolean mask over a DataFrame), removing one
    position (dropping a row), and the subsequence relation that says both
    preserve the relative order of what remains. */
module Seqs {

  /** `a` can be obtained from `b` by deleting elements, keeping the order of
      the rest. */
  predicate IsSubsequence<T(==)>(a: seq<T>, b: seq<T>)
    decreases |b|
  {
    || |a| == 0
    || (&& |b| > 0
        && ((a[0] == b[0] && IsSubsequence(a[1..], b[1..])) || IsSubsequence(a, b[1..])))
  }

  /** The elements of `s` that satisfy `p`, in their original order. */
  function Keep<T(==,!new)>(s: seq<T>, p: T -> bool): (r: seq<T>)
    ensures |r| <= |s|
    ensures IsSubsequence(r, s)
    ensures forall x :: multiset(r)[x] == if p(x) then multiset(s)[x] else 0
    ensures forall x :: x in r <==> x in s && p(x)
    decreases |s|
  {
    if |s| == 0 then []
    else
      assert s == [s[0]] + s[1..];
      if p(s[0]) then [s[0]] + Keep(s[1..], p) else Keep(s[1..], p)
  }

  /** `s` without the element at position `i`. */
  function RemoveAt<T>(s: seq<T>, i: nat): (r: seq<T>)
    requires i < |s|
    ensures |r| == |s| - 1
    ensures forall k :: 0 <= k < i ==> r[k] == s[k]
    ensures forall k :: i <= k < |r| ==> r[k] == s[k + 1]
  {
    s[..i] + s[i + 1..]
  }

  /** Removing one position loses exactly one copy of the removed element. */
  lemma RemoveAtLosesOne<T>(s: seq<T>, i: nat)
    requires i < |s|
    ensures multiset(RemoveAt(s, i)) + multiset{s[i]} == multiset(s)
  {
    assert s == s[..i] + [s[i]] + s[i + 1..];
  }

  /** Removing one position keeps the order of the others and loses exactly
      one copy of the removed element. */
  lemma {:induction false} RemoveAtIsSubsequence<T>(s: seq<T>, i: nat)
    requires i < |s|
    ensures IsSubsequence(RemoveAt(s, i), s)
    ensures multiset(RemoveAt(s, i)) + multiset{s[i]} == multiset(s)
    decreases i
  {
    RemoveAtLosesOne(s, i);
    var r := RemoveAt(s, i);
    if i == 0 {
      assert r == s[1..];
      SubsequenceOfSelf(r);
    } else {
      RemoveAtIsSubsequence(s[1..], i - 1);
      assert r[0] == s[0];
      assert r[1..] == RemoveAt(s[1..], i - 1);
    }
  }

  lemma {:induction false} SubsequenceOfSelf<T>(s: seq<T>)
    ensures IsSubsequence(s, s)
    decreases |s|
  {
    if |s| > 0 {
      SubsequenceOfSelf(s[1..]);
    }
  }

  /** Keeping with a predicate every element satisfies keeps everything. */
  lemma {:induction false} KeepEverything<T(!new)>(s: seq<T>, p: T -> bool)
    requires forall k :: 0 <= k < |s| ==> p(s[k])
    ensures Keep(s, p) == s
    decreases |s|
  {
    if |s| > 0 {
      KeepEverything(s[1..], p);
    }
  }

  /** Two predicates that agree on every element keep the same elements. */
  lemma {:induction false} KeepAgrees<T(!new)>(s: seq<T>, p: T -> bool, q: T -> bool)
    requires forall k :: 0 <= k < |s| ==> p(s[k]) == q(s[k])
    ensures Keep(s, p) == Keep(s, q)
    decreases |s|
  {
    if |s| > 0 {
      KeepAgrees(s[1..], p, q);
    }
  }

  /** The conjunction of two predicates. */
  function Both<T>(p: T -> bool, q: T -> bool): T -> bool
  {
    x => p(x) && q(x)
  }

  /** Two masks applied one after the other equal one mask with both
      conditions. */
  lemma {:induction false} KeepTwice<T(!new)>(s: seq<T>, p: T -> bool, q: T -> bool)
    ensures Keep(Keep(s, p), q) == Keep(s, Both(p, q))
    decreases |s|
  {
    if |s| > 0 {
      KeepTwice(s[1..], p, q);
      if p(s[0]) {
        assert Keep(s, p) == [s[0]] + Keep(s[1..], p);
        assert Keep(s, p)[1..] == Keep(s[1..], p);
      }
    }
  }
}
