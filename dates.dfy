/**
 * Date bounds in the filter are compared as strings: `transaction.date >= filter.startDate`
 * and `transaction.date <= filter.endDate`. JavaScript compares two strings
 * lexicographically by character, a proper prefix sorting first. For dates in the
 * `YYYY-MM-DD` form that order is the chronological one.
 */
module Dates {

  /** `a <= b` on two strings. */
  predicate AtMost(a: string, b: string)
    decreases |a|
  {
    |a| == 0 || (|b| > 0 && (a[0] < b[0] || (a[0] == b[0] && AtMost(a[1..], b[1..]))))
  }

  /** `a` and `b` agree on their first `k` characters, and there `a` either ends or
      holds a smaller character than `b`. */
  ghost predicate DivergesAt(a: string, b: string, k: int)
  {
    0 <= k <= |a| && k <= |b| && a[..k] == b[..k] && (k == |a| || (k < |b| && a[k] < b[k]))
  }

  /** Reference definition of the lexicographic order: some common prefix of `a` and `b`
      is followed by the end of `a` or by a smaller character of `a`. */
  ghost predicate Lexicographic(a: string, b: string)
  {
    exists k :: DivergesAt(a, b, k)
  }

  /** Moving one shared leading character onto both strings moves the divergence point by one. */
  lemma DivergesAtShift(a: string, b: string, k: nat)
    requires |a| > 0 && |b| > 0 && a[0] == b[0]
    ensures DivergesAt(a[1..], b[1..], k) <==> DivergesAt(a, b, k + 1)
  {
  }

  /** A divergence point of two strings whose first characters differ can only be 0. */
  lemma DivergesAtZero(a: string, b: string, k: int)
    requires |a| > 0 && |b| > 0 && a[0] != b[0]
    ensures DivergesAt(a, b, k) ==> k == 0
  {
  }

  /** The recursive comparison is exactly the lexicographic order. */
  lemma {:induction false} AtMostIsLexicographic(a: string, b: string)
    ensures AtMost(a, b) <==> Lexicographic(a, b)
    decreases |a|
  {
    if |a| == 0 {
      assert DivergesAt(a, b, 0);
    } else if |b| == 0 {
      assert forall k :: DivergesAt(a, b, k) ==> k == 0;
    } else if a[0] != b[0] {
      forall k ensures DivergesAt(a, b, k) ==> k == 0 {
        DivergesAtZero(a, b, k);
      }
      if a[0] < b[0] {
        assert DivergesAt(a, b, 0);
      }
    } else {
      AtMostIsLexicographic(a[1..], b[1..]);
      if Lexicographic(a[1..], b[1..]) {
        var k: nat :| DivergesAt(a[1..], b[1..], k);
        DivergesAtShift(a, b, k);
      }
      if Lexicographic(a, b) {
        var k :| DivergesAt(a, b, k);
        assert k != 0;
        DivergesAtShift(a, b, k - 1);
      }
    }
  }

  lemma {:induction false} AtMostReflexive(a: string)
    ensures AtMost(a, a)
    decreases |a|
  {
    if |a| > 0 {
      AtMostReflexive(a[1..]);
    }
  }

  lemma {:induction false} AtMostAntisymmetric(a: string, b: string)
    ensures AtMost(a, b) && AtMost(b, a) ==> a == b
    decreases |a|
  {
    if |a| > 0 && |b| > 0 && a[0] == b[0] {
      AtMostAntisymmetric(a[1..], b[1..]);
      assert a == [a[0]] + a[1..] && b == [b[0]] + b[1..];
    }
  }

  lemma {:induction false} AtMostTransitive(a: string, b: string, c: string)
    ensures AtMost(a, b) && AtMost(b, c) ==> AtMost(a, c)
    decreases |a|
  {
    if |a| > 0 && |b| > 0 && |c| > 0 && a[0] == b[0] == c[0] {
      AtMostTransitive(a[1..], b[1..], c[1..]);
    }
  }

  lemma {:induction false} AtMostTotal(a: string, b: string)
    ensures AtMost(a, b) || AtMost(b, a)
    decreases |a|
  {
    if |a| > 0 && |b| > 0 && a[0] == b[0] {
      AtMostTotal(a[1..], b[1..]);
    }
  }
}
