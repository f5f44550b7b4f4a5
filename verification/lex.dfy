/**
 * Python's ordering of `str` values: lexicographic on code points, a proper
 * prefix ordering before its extensions. Both timestamp comparisons in the
 * source (the pre-filter's `>` and the sort key) use it.
 */
module Lex {

  /** `a < b` on Python strings. */
  predicate Less(a: string, b: string)
    decreases |a|
  {
    |b| > 0 && (|a| == 0 || a[0] < b[0] || (a[0] == b[0] && Less(a[1..], b[1..])))
  }

  /** `a <= b` on Python strings. */
  predicate LessEq(a: string, b: string) {
    a == b || Less(a, b)
  }

  lemma {:induction false} LessIrreflexive(a: string)
    ensures !Less(a, a)
    decreases |a|
  {
    if |a| > 0 {
      LessIrreflexive(a[1..]);
    }
  }

  lemma {:induction false} LessAsymmetric(a: string, b: string)
    requires Less(a, b)
    ensures !Less(b, a)
    decreases |a|
  {
    if |a| > 0 && a[0] == b[0] {
      LessAsymmetric(a[1..], b[1..]);
    }
  }

  lemma {:induction false} LessTransitive(a: string, b: string, c: string)
    requires Less(a, b) && Less(b, c)
    ensures Less(a, c)
    decreases |a|
  {
    if |a| > 0 && a[0] == b[0] && b[0] == c[0] {
      LessTransitive(a[1..], b[1..], c[1..]);
    }
  }

  /** Any two distinct strings are ordered one way or the other. */
  lemma {:induction false} LessTotal(a: string, b: string)
    ensures a == b || Less(a, b) || Less(b, a)
    decreases |a|
  {
    if |a| > 0 && |b| > 0 && a[0] == b[0] {
      LessTotal(a[1..], b[1..]);
      if a[1..] == b[1..] {
        assert a == [a[0]] + a[1..] && b == [b[0]] + b[1..];
      }
    }
  }

  lemma LessEqTransitive(a: string, b: string, c: string)
    requires LessEq(a, b) && LessEq(b, c)
    ensures LessEq(a, c)
  {
    if a != b && b != c {
      LessTransitive(a, b, c);
    }
  }

  /** `LessEq` is antisymmetric. */
  lemma LessEqAntisymmetric(a: string, b: string)
    requires LessEq(a, b) && LessEq(b, a)
    ensures a == b
  {
    if a != b {
      LessAsymmetric(a, b);
    }
  }

  /**
   * Comparing two strings whose first parts have the same length compares
   * the first parts, and only on a tie the remainders.
   */
  lemma {:induction false} LessConcat(p1: string, q1: string, p2: string, q2: string)
    requires |p1| == |p2|
    ensures Less(p1 + q1, p2 + q2) <==> Less(p1, p2) || (p1 == p2 && Less(q1, q2))
    decreases |p1|
  {
    if |p1| == 0 {
      assert p1 + q1 == q1 && p2 + q2 == q2;
    } else {
      assert (p1 + q1)[0] == p1[0] && (p2 + q2)[0] == p2[0];
      assert (p1 + q1)[1..] == p1[1..] + q1 && (p2 + q2)[1..] == p2[1..] + q2;
      LessConcat(p1[1..], q1, p2[1..], q2);
      if p1[0] == p2[0] {
        assert p1 == p2 <==> p1[1..] == p2[1..] by {
          assert p1 == [p1[0]] + p1[1..] && p2 == [p2[0]] + p2[1..];
        }
      }
    }
  }

  /** Strings that agree up to position `n` and differ there are ordered by that character. */
  lemma {:induction false} LessAtFirstDifference(a: string, b: string, n: nat)
    requires n < |a| && n < |b| && a[n] < b[n]
    requires forall k :: 0 <= k < n ==> a[k] == b[k]
    ensures Less(a, b)
    decreases n
  {
    if n > 0 {
      LessAtFirstDifference(a[1..], b[1..], n - 1);
    }
  }
}
