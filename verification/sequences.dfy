/** Order-preserving filtering and the subsequence relation. */
module Sequences {

  /** The elements of `s` that satisfy `p`, in their original order. */
  function Filter<T>(s: seq<T>, p: T -> bool): (r: seq<T>)
    ensures |r| <= |s|
    ensures forall i :: 0 <= i < |r| ==> p(r[i])
    ensures forall i :: 0 <= i < |r| ==> r[i] in s
    ensures forall i :: 0 <= i < |s| && p(s[i]) ==> s[i] in r
    ensures r == [] <==> forall i :: 0 <= i < |s| ==> !p(s[i])
  {
    if |s| == 0 then []
    else if p(s[0]) then [s[0]] + Filter(s[1..], p)
    else Filter(s[1..], p)
  }

  /** The elements of `s` whose flag in `keep` is set, in order. */
  function Select<T>(s: seq<T>, keep: seq<bool>): seq<T>
    requires |keep| == |s|
  {
    if |s| == 0 then []
    else (if keep[0] then [s[0]] else []) + Select(s[1..], keep[1..])
  }

  /** `a` is obtained from `b` by deleting elements: nothing added, nothing reordered. */
  ghost predicate IsSubsequence<T>(a: seq<T>, b: seq<T>) {
    exists keep: seq<bool> :: |keep| == |b| && Select(b, keep) == a
  }

  lemma {:induction false} SelectByPredicate<T>(s: seq<T>, p: T -> bool)
    ensures Select(s, seq(|s|, i requires 0 <= i < |s| => p(s[i]))) == Filter(s, p)
    decreases |s|
  {
    if |s| > 0 {
      var keep := seq(|s|, i requires 0 <= i < |s| => p(s[i]));
      var keep' := seq(|s[1..]|, i requires 0 <= i < |s[1..]| => p(s[1..][i]));
      assert keep[1..] == keep';
      SelectByPredicate(s[1..], p);
    }
  }

  /** Filtering never adds or reorders elements. */
  lemma FilterIsSubsequence<T>(s: seq<T>, p: T -> bool)
    ensures IsSubsequence(Filter(s, p), s)
  {
    var keep := seq(|s|, i requires 0 <= i < |s| => p(s[i]));
    SelectByPredicate(s, p);
    assert |keep| == |s| && Select(s, keep) == Filter(s, p);
  }

  /** Filtering keeps every copy of an element that passes and no copy of one that fails. */
  lemma {:induction false} FilterCount<T>(s: seq<T>, p: T -> bool, x: T)
    ensures multiset(Filter(s, p))[x] == if p(x) then multiset(s)[x] else 0
    decreases |s|
  {
    if |s| > 0 {
      FilterCount(s[1..], p, x);
      assert s == [s[0]] + s[1..];
    }
  }
}
