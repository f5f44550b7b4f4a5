/**
 * Python's `sorted(xs, key=..., reverse=True)` on string keys: the result is
 * ordered from the greatest key to the least, and elements with equal keys
 * keep their input order, because the sort is stable even when reversed.
 */
module StableSort {
  import opened Sequences
  import Lex

  /** Keys never increase along `s`. */
  predicate NonIncreasing<T>(s: seq<T>, key: T -> string) {
    forall i, j :: 0 <= i < j < |s| ==> Lex.LessEq(key(s[j]), key(s[i]))
  }

  /** The elements of `s` whose key is `k`, in order. */
  function WithKey<T>(s: seq<T>, key: T -> string, k: string): seq<T> {
    Filter(s, HasKey(key, k))
  }

  function HasKey<T>(key: T -> string, k: string): T -> bool {
    x => key(x) == k
  }

  /** Places `x` after every element with a greater key and before the rest. */
  function Insert<T>(x: T, s: seq<T>, key: T -> string): (r: seq<T>)
    ensures |r| == |s| + 1
    ensures multiset(r) == multiset(s) + multiset{x}
    ensures NonIncreasing(s, key) ==> NonIncreasing(r, key)
    decreases |s|
  {
    if |s| == 0 || Lex.LessEq(key(s[0]), key(x)) then
      InsertFrontSorted(x, s, key);
      [x] + s
    else
      assert s == [s[0]] + s[1..];
      Lex.LessTotal(key(s[0]), key(x));
      var rest := Insert(x, s[1..], key);
      InsertConsSorted(s[0], rest, key, x, s[1..]);
      [s[0]] + rest
  }

  lemma InsertFrontSorted<T>(x: T, s: seq<T>, key: T -> string)
    requires |s| == 0 || Lex.LessEq(key(s[0]), key(x))
    ensures NonIncreasing(s, key) ==> NonIncreasing([x] + s, key)
  {
    if NonIncreasing(s, key) {
      var r := [x] + s;
      forall i, j | 0 <= i < j < |r|
        ensures Lex.LessEq(key(r[j]), key(r[i]))
      {
        if i == 0 && j > 1 {
          Lex.LessEqTransitive(key(s[j - 1]), key(s[0]), key(x));
        }
      }
    }
  }

  lemma InsertConsSorted<T>(y: T, rest: seq<T>, key: T -> string, x: T, tail: seq<T>)
    requires Lex.Less(key(x), key(y))
    requires multiset(rest) == multiset(tail) + multiset{x}
    ensures NonIncreasing([y] + tail, key) && NonIncreasing(rest, key) ==> NonIncreasing([y] + rest, key)
  {
    if NonIncreasing([y] + tail, key) && NonIncreasing(rest, key) {
      var r := [y] + rest;
      forall i, j | 0 <= i < j < |r|
        ensures Lex.LessEq(key(r[j]), key(r[i]))
      {
        assert r[j] == rest[j - 1];
        if i == 0 {
          var z := rest[j - 1];
          assert z in multiset(rest);
          if z != x {
            assert z in multiset(tail);
            var m :| 0 <= m < |tail| && tail[m] == z;
            assert ([y] + tail)[m + 1] == z && ([y] + tail)[0] == y;
          }
        } else {
          assert r[i] == rest[i - 1];
        }
      }
    }
  }

  /** Inserting `x` adds it in front of the equal-key elements and changes no other key group. */
  lemma {:induction false} InsertWithKey<T>(x: T, s: seq<T>, key: T -> string, k: string)
    ensures WithKey(Insert(x, s, key), key, k) == if key(x) == k then [x] + WithKey(s, key, k) else WithKey(s, key, k)
    decreases |s|
  {
    InsertUnfold(x, s, key);
    if |s| == 0 || Lex.LessEq(key(s[0]), key(x)) {
      WithKeyCons(x, s, key, k);
    } else {
      InsertWithKey(x, s[1..], key, k);
      BehindWithKey(s[0], s[1..], Insert(x, s[1..], key), x, key, k);
    }
  }

  /** One step of `Insert`, with the input split at its head. */
  lemma InsertUnfold<T>(x: T, s: seq<T>, key: T -> string)
    ensures |s| == 0 || Lex.LessEq(key(s[0]), key(x)) ==> Insert(x, s, key) == [x] + s
    ensures |s| > 0 && !Lex.LessEq(key(s[0]), key(x)) ==>
              s == [s[0]] + s[1..] && Insert(x, s, key) == [s[0]] + Insert(x, s[1..], key)
  {
  }

  /**
   * The step of `InsertWithKey` where `x` goes behind `y`, whose key differs:
   * putting `y` in front of both sides keeps the key groups in step.
   */
  lemma BehindWithKey<T>(y: T, tail: seq<T>, rest: seq<T>, x: T, key: T -> string, k: string)
    requires key(y) != key(x)
    requires WithKey(rest, key, k) == if key(x) == k then [x] + WithKey(tail, key, k) else WithKey(tail, key, k)
    ensures WithKey([y] + rest, key, k) ==
            if key(x) == k then [x] + WithKey([y] + tail, key, k) else WithKey([y] + tail, key, k)
  {
    WithKeyCons(y, rest, key, k);
    WithKeyCons(y, tail, key, k);
  }

  lemma WithKeyCons<T>(x: T, s: seq<T>, key: T -> string, k: string)
    ensures WithKey([x] + s, key, k) == if key(x) == k then [x] + WithKey(s, key, k) else WithKey(s, key, k)
  {
    assert ([x] + s)[0] == x && ([x] + s)[1..] == s;
  }

  /** Insertion sort, newest key first; it computes what `sorted(..., reverse=True)` returns. */
  function SortDescending<T>(s: seq<T>, key: T -> string): (r: seq<T>)
    ensures |r| == |s|
    ensures multiset(r) == multiset(s)
    ensures NonIncreasing(r, key)
    decreases |s|
  {
    if |s| == 0 then []
    else
      assert s == [s[0]] + s[1..];
      Insert(s[0], SortDescending(s[1..], key), key)
  }

  /** Sorting keeps the input order among elements with equal keys. */
  lemma {:induction false} SortIsStable<T>(s: seq<T>, key: T -> string, k: string)
    ensures WithKey(SortDescending(s, key), key, k) == WithKey(s, key, k)
    decreases |s|
  {
    if |s| > 0 {
      SortIsStable(s[1..], key, k);
      InsertWithKey(s[0], SortDescending(s[1..], key), key, k);
      assert s == [s[0]] + s[1..];
      WithKeyCons(s[0], s[1..], key, k);
    }
  }
}
