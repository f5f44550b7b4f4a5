/**
 * Timestamps in the `YYYY-MM-DD HH:MM:SS` layout that the account and event
 * records use. The source compares them as strings; on this fixed-width layout
 * string order is the chronological order of the calendar readings.
 */
module Timestamps {
  import Lex

  predicate IsDigit(c: char) {
    '0' <= c <= '9'
  }

  predicate AllDigits(s: string) {
    forall i :: 0 <= i < |s| ==> IsDigit(s[i])
  }

  function DigitValue(c: char): nat
    requires IsDigit(c)
  {
    (c as int) - ('0' as int)
  }

  function Pow10(n: nat): (r: nat)
    ensures r >= 1
  {
    if n == 0 then 1 else 10 * Pow10(n - 1)
  }

  /** The decimal number written by a digit string. */
  function Number(s: string): (n: nat)
    requires AllDigits(s)
    ensures n < Pow10(|s|)
  {
    if |s| == 0 then 0
    else
      var d := DigitValue(s[0]);
      var p := Pow10(|s| - 1);
      assert d * p <= 9 * p;
      d * p + Number(s[1..])
  }

  /** `YYYY-MM-DD HH:MM:SS`: nineteen characters, digits except at the five separators. */
  predicate WellFormed(s: string) {
    && |s| == 19
    && s[4] == '-' && s[7] == '-' && s[10] == ' ' && s[13] == ':' && s[16] == ':'
    && forall i :: 0 <= i < 19 && !IsSeparatorPosition(i) ==> IsDigit(s[i])
  }

  predicate IsSeparatorPosition(i: int) {
    i == 4 || i == 7 || i == 10 || i == 13 || i == 16
  }

  /** The calendar reading a timestamp denotes. */
  datatype Reading = Reading(year: nat, month: nat, day: nat, hour: nat, minute: nat, second: nat)

  function Parse(s: string): Reading
    requires WellFormed(s)
  {
    FieldDigits(s, 0, 4);
    FieldDigits(s, 5, 7);
    FieldDigits(s, 8, 10);
    FieldDigits(s, 11, 13);
    FieldDigits(s, 14, 16);
    FieldDigits(s, 17, 19);
    Reading(Number(s[0..4]), Number(s[5..7]), Number(s[8..10]),
            Number(s[11..13]), Number(s[14..16]), Number(s[17..19]))
  }

  /** `x` is an earlier reading than `y`: the fields compared from the year down to the second. */
  predicate Before(x: Reading, y: Reading) {
    || x.year < y.year
    || (x.year == y.year && x.month < y.month)
    || (x.year == y.year && x.month == y.month && x.day < y.day)
    || (x.year == y.year && x.month == y.month && x.day == y.day && x.hour < y.hour)
    || (x.year == y.year && x.month == y.month && x.day == y.day && x.hour == y.hour && x.minute < y.minute)
    || (x.year == y.year && x.month == y.month && x.day == y.day && x.hour == y.hour && x.minute == y.minute
        && x.second < y.second)
  }

  /** A larger leading digit outweighs any remainder. */
  lemma LeadingDigitDominates(dx: nat, dy: nat, rx: nat, ry: nat, p: nat)
    requires dx < dy && rx < p
    ensures dx * p + rx < dy * p + ry
  {
    var k := dy - dx;
    Distribute(dx, k, p);
    AtLeastOnce(k, p);
  }

  lemma Distribute(a: nat, b: nat, p: nat)
    ensures (a + b) * p == a * p + b * p
  {
  }

  lemma AtLeastOnce(k: nat, p: nat)
    requires k >= 1
    ensures k * p >= p
  {
    Distribute(k - 1, 1, p);
  }

  /** A number splits into its leading digit's weight and the rest. */
  lemma NumberSplit(x: string)
    requires |x| > 0 && AllDigits(x)
    ensures AllDigits(x[1..])
    ensures Number(x) == DigitValue(x[0]) * Pow10(|x| - 1) + Number(x[1..])
    ensures Number(x[1..]) < Pow10(|x| - 1)
  {
    assert forall i :: 0 <= i < |x| - 1 ==> x[1..][i] == x[i + 1];
  }

  /** A smaller leading digit makes a smaller number, whatever follows. */
  lemma SmallerLeadingDigit(x: string, y: string)
    requires |x| == |y| > 0 && AllDigits(x) && AllDigits(y) && x[0] < y[0]
    ensures Number(x) < Number(y)
  {
    NumberSplit(x);
    NumberSplit(y);
    LeadingDigitDominates(DigitValue(x[0]), DigitValue(y[0]), Number(x[1..]), Number(y[1..]), Pow10(|x| - 1));
  }

  /** With equal leading digits the rests decide. */
  lemma SameLeadingDigit(x: string, y: string)
    requires |x| == |y| > 0 && AllDigits(x) && AllDigits(y) && x[0] == y[0]
    ensures AllDigits(x[1..]) && AllDigits(y[1..])
    ensures Number(x) < Number(y) <==> Number(x[1..]) < Number(y[1..])
  {
    NumberSplit(x);
    NumberSplit(y);
  }

  /** On digit strings of equal length, string order is numeric order. */
  lemma {:induction false} DigitStringOrder(x: string, y: string)
    requires |x| == |y| && AllDigits(x) && AllDigits(y)
    ensures Lex.Less(x, y) <==> Number(x) < Number(y)
    decreases |x|
  {
    if |x| > 0 {
      if x[0] < y[0] {
        SmallerLeadingDigit(x, y);
      } else if y[0] < x[0] {
        SmallerLeadingDigit(y, x);
      } else {
        SameLeadingDigit(x, y);
        DigitStringOrder(x[1..], y[1..]);
      }
    }
  }

  /** Digit strings of equal length are equal exactly when their numbers are. */
  lemma DigitStringEquality(x: string, y: string)
    requires |x| == |y| && AllDigits(x) && AllDigits(y)
    ensures x == y <==> Number(x) == Number(y)
  {
    Lex.LessTotal(x, y);
    DigitStringOrder(x, y);
    DigitStringOrder(y, x);
  }

  /** A digit field of a well-formed timestamp. */
  lemma FieldDigits(s: string, i: nat, j: nat)
    requires WellFormed(s) && i <= j <= 19
    requires forall k :: i <= k < j ==> !IsSeparatorPosition(k)
    ensures AllDigits(s[i..j])
  {
    forall k | 0 <= k < j - i
      ensures IsDigit(s[i..j][k])
    {
      assert !IsSeparatorPosition(i + k);
      assert s[i..j][k] == s[i + k];
    }
  }

  /** The six digit fields of a well-formed timestamp. */
  lemma AllFieldDigits(s: string)
    requires WellFormed(s)
    ensures AllDigits(s[0..4]) && AllDigits(s[5..7]) && AllDigits(s[8..10])
    ensures AllDigits(s[11..13]) && AllDigits(s[14..16]) && AllDigits(s[17..19])
  {
    FieldDigits(s, 0, 4);
    FieldDigits(s, 5, 7);
    FieldDigits(s, 8, 10);
    FieldDigits(s, 11, 13);
    FieldDigits(s, 14, 16);
    FieldDigits(s, 17, 19);
  }

  /** One digit field followed by one separator, compared at the same position of two strings. */
  lemma FieldStep(a: string, b: string, i: nat, j: nat)
    requires i < j < |a| == |b| && a[j] == b[j]
    requires AllDigits(a[i..j]) && AllDigits(b[i..j])
    ensures Lex.Less(a[i..], b[i..]) <==>
      || Number(a[i..j]) < Number(b[i..j])
      || (Number(a[i..j]) == Number(b[i..j]) && Lex.Less(a[j + 1..], b[j + 1..]))
  {
    assert a[i..] == a[i..j] + a[j..] && b[i..] == b[i..j] + b[j..];
    Lex.LessConcat(a[i..j], a[j..], b[i..j], b[j..]);
    DigitStringOrder(a[i..j], b[i..j]);
    DigitStringEquality(a[i..j], b[i..j]);
    assert a[j..][1..] == a[j + 1..] && b[j..][1..] == b[j + 1..];
  }

  /** The final digit field. */
  lemma LastFieldStep(a: string, b: string, i: nat)
    requires i < |a| == |b|
    requires AllDigits(a[i..]) && AllDigits(b[i..])
    ensures Lex.Less(a[i..], b[i..]) <==> Number(a[i..]) < Number(b[i..])
  {
    DigitStringOrder(a[i..], b[i..]);
  }

  /**
   * The source's string comparison of two well-formed timestamps is the
   * chronological order of the readings they denote.
   */
  lemma StringOrderIsChronological(a: string, b: string)
    requires WellFormed(a) && WellFormed(b)
    ensures Lex.Less(a, b) <==> Before(Parse(a), Parse(b))
  {
    var x, y := Parse(a), Parse(b);
    AllFieldDigits(a);
    AllFieldDigits(b);
    TimeOfDayOrder(a, b);
    var h := Lex.Less(a[11..], b[11..]);
    FieldStep(a, b, 8, 10);
    var d := Lex.Less(a[8..], b[8..]);
    assert d <==> x.day < y.day || (x.day == y.day && h);
    FieldStep(a, b, 5, 7);
    var mo := Lex.Less(a[5..], b[5..]);
    assert mo <==> x.month < y.month || (x.month == y.month && d);
    FieldStep(a, b, 0, 4);
    assert a[0..] == a && b[0..] == b;
  }

  /** From the hour on, string order is the order of hour, minute and second. */
  lemma TimeOfDayOrder(a: string, b: string)
    requires WellFormed(a) && WellFormed(b)
    ensures Lex.Less(a[11..], b[11..]) <==>
      var x, y := Parse(a), Parse(b);
      || x.hour < y.hour
      || (x.hour == y.hour && x.minute < y.minute)
      || (x.hour == y.hour && x.minute == y.minute && x.second < y.second)
  {
    var x, y := Parse(a), Parse(b);
    AllFieldDigits(a);
    AllFieldDigits(b);
    assert a[17..] == a[17..19] && b[17..] == b[17..19];
    LastFieldStep(a, b, 17);
    var s := Lex.Less(a[17..], b[17..]);
    FieldStep(a, b, 14, 16);
    var mi := Lex.Less(a[14..], b[14..]);
    assert mi <==> x.minute < y.minute || (x.minute == y.minute && s);
    FieldStep(a, b, 11, 13);
  }

  /** Two well-formed timestamps are the same string exactly when they denote the same reading. */
  lemma SameStringSameReading(a: string, b: string)
    requires WellFormed(a) && WellFormed(b)
    ensures a == b <==> Parse(a) == Parse(b)
  {
    if Parse(a) == Parse(b) {
      StringOrderIsChronological(a, b);
      StringOrderIsChronological(b, a);
      Lex.LessTotal(a, b);
    }
  }
}
