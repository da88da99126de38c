/** The text of the `Month` column: `to_period("M").astype(str)` writes a month
    as "YYYY-MM", and `sort_values("Month")` orders those strings character by
    character. This module shows that, for four-digit years, that string order
    is the chronological order the trend is built in. */
module MonthLabels {
  import opened ExpenseRecords
  import opened Trends

  /** Years and months that "YYYY-MM" can write. */
  predicate Labelable(k: MonthKey) {
    0 <= k.year <= 9999 && 1 <= k.month <= 12
  }

  function DigitChar(d: int): (c: char)
    requires 0 <= d < 10
    ensures IsDigit(c) && DigitValue(c) == d
  {
    ('0' as int + d) as char
  }

  predicate IsDigit(c: char) {
    '0' <= c <= '9'
  }

  /** The value of a decimal digit character. */
  function DigitValue(c: char): int
    requires IsDigit(c)
  {
    c as int - '0' as int
  }

  predicate AllDigits(s: string) {
    forall i :: 0 <= i < |s| ==> IsDigit(s[i])
  }

  /** The number a string of decimal digits writes, most significant first. */
  function Numeral(s: string): nat
    requires AllDigits(s)
  {
    if s == [] then 0 else 10 * Numeral(s[..|s| - 1]) + DigitValue(s[|s| - 1])
  }

  function Pow10(w: nat): nat {
    if w == 0 then 1 else 10 * Pow10(w - 1)
  }

  /** `n` in decimal with exactly `w` digits, padded with leading zeros. */
  function Padded(n: nat, w: nat): (s: string)
    ensures |s| == w && AllDigits(s)
    ensures n < Pow10(w) ==> Numeral(s) == n
  {
    if w == 0 then []
    else
      var s := Padded(n / 10, w - 1) + [DigitChar(n % 10)];
      assert s[..w - 1] == Padded(n / 10, w - 1);
      s
  }

  /** The label of a month, "YYYY-MM". */
  function MonthLabel(k: MonthKey): (s: string)
    requires Labelable(k)
    ensures |s| == 7 && s[4] == '-'
    ensures AllDigits(s[..4]) && Numeral(s[..4]) == k.year
    ensures AllDigits(s[5..]) && Numeral(s[5..]) == k.month
  {
    assert Pow10(2) == 100 && Pow10(4) == 10000;
    var s := Padded(k.year, 4) + "-" + Padded(k.month, 2);
    assert s[..4] == Padded(k.year, 4) && s[5..] == Padded(k.month, 2);
    s
  }

  /** A label is the padded year, a dash and the padded month. */
  lemma LabelParts(k: MonthKey)
    requires Labelable(k)
    ensures MonthLabel(k) == Padded(k.year, 4) + ("-" + Padded(k.month, 2))
  {
  }

  /** Reads a "YYYY-MM" label back: four digits, a dash, two digits. */
  function LabelMonth(s: string): Option<MonthKey> {
    if |s| == 7 && s[4] == '-' && AllDigits(s[..4]) && AllDigits(s[5..])
    then Some(MonthKey(Numeral(s[..4]), Numeral(s[5..])))
    else None
  }

  /** Reading a month's label gives the month back. */
  lemma LabelRoundTrip(k: MonthKey)
    requires Labelable(k)
    ensures LabelMonth(MonthLabel(k)) == Some(k)
  {
  }

  /** Lexicographic order on strings, the order pandas sorts a text column in. */
  predicate LexLess(a: string, b: string) {
    if a == [] then b != []
    else if b == [] then false
    else a[0] < b[0] || (a[0] == b[0] && LexLess(a[1..], b[1..]))
  }

  /** Comparing two strings whose first parts have equal lengths compares the
      first parts, and the second parts when the first parts are equal. */
  lemma {:induction false} LexLessConcat(a1: string, a2: string, b1: string, b2: string)
    requires |a1| == |b1|
    ensures LexLess(a1 + a2, b1 + b2) <==> LexLess(a1, b1) || (a1 == b1 && LexLess(a2, b2))
  {
    if a1 != [] {
      assert (a1 + a2)[1..] == a1[1..] + a2;
      assert (b1 + b2)[1..] == b1[1..] + b2;
      LexLessConcat(a1[1..], a2, b1[1..], b2);
      if a1[0] == b1[0] && a1[1..] == b1[1..] {
        assert a1 == [a1[0]] + a1[1..];
        assert b1 == [b1[0]] + b1[1..];
      }
    } else {
      assert a1 + a2 == a2 && b1 + b2 == b2;
    }
  }

  /** Two strings of equal length with a final character appended are equal
      exactly when the strings and the final characters are. */
  lemma SnocEqual(a: string, c: char, b: string, d: char)
    requires |a| == |b|
    ensures a + [c] == b + [d] <==> a == b && c == d
  {
    if a + [c] == b + [d] {
      assert a == (a + [c])[..|a|] && b == (b + [d])[..|b|];
      assert c == (a + [c])[|a|] && d == (b + [d])[|b|];
    }
  }

  /** Zero-padded numerals of the same width compare as the numbers do. */
  lemma {:induction false} PaddedOrder(n1: nat, n2: nat, w: nat)
    requires n1 < Pow10(w) && n2 < Pow10(w)
    ensures LexLess(Padded(n1, w), Padded(n2, w)) <==> n1 < n2
    ensures Padded(n1, w) == Padded(n2, w) <==> n1 == n2
  {
    if w == 0 {
      assert n1 == 0 && n2 == 0;
    } else {
      var q1, r1, q2, r2 := n1 / 10, n1 % 10, n2 / 10, n2 % 10;
      assert q1 < Pow10(w - 1) && q2 < Pow10(w - 1);
      PaddedOrder(q1, q2, w - 1);
      LexLessConcat(Padded(q1, w - 1), [DigitChar(r1)], Padded(q2, w - 1), [DigitChar(r2)]);
      SnocEqual(Padded(q1, w - 1), DigitChar(r1), Padded(q2, w - 1), DigitChar(r2));
      assert LexLess([DigitChar(r1)], [DigitChar(r2)]) <==> r1 < r2;
      assert n1 == 10 * q1 + r1 && n2 == 10 * q2 + r2;
    }
  }

  /** The label order is the chronological order, and distinct months have
      distinct labels. */
  lemma MonthLabelOrder(a: MonthKey, b: MonthKey)
    requires Labelable(a) && Labelable(b)
    ensures LexLess(MonthLabel(a), MonthLabel(b)) <==> MonthBefore(a, b)
    ensures MonthLabel(a) == MonthLabel(b) <==> a == b
  {
    assert Pow10(2) == 100 && Pow10(4) == 10000;
    PaddedOrder(a.year, b.year, 4);
    PaddedOrder(a.month, b.month, 2);
    var ya, yb := Padded(a.year, 4), Padded(b.year, 4);
    var ma, mb := Padded(a.month, 2), Padded(b.month, 2);
    LabelParts(a);
    LabelParts(b);
    LexLessConcat(ya, "-" + ma, yb, "-" + mb);
    LexLessConcat("-", ma, "-", mb);
    if MonthLabel(a) == MonthLabel(b) {
      // the digits before and after the dash read as the year and the month
      assert a.year == Numeral(MonthLabel(b)[..4]) == b.year;
      assert a.month == Numeral(MonthLabel(b)[5..]) == b.month;
    }
  }

  /** Every record of the table is dated in a four-digit year. */
  ghost predicate LabelableDates(t: seq<Record>) {
    forall i :: 0 <= i < |t| ==> Labelable(MonthOf(t[i].date))
  }

  /** For four-digit years, the trend's rows are in strictly ascending order of
      their "YYYY-MM" labels, the order `sort_values("Month")` produces. */
  lemma TrendSortedByLabel(t: seq<Record>)
    requires LabelableDates(t)
    ensures forall i :: 0 <= i < |MonthlyTrend(t)| ==> Labelable(MonthlyTrend(t)[i].0)
    ensures forall i, j :: 0 <= i < j < |MonthlyTrend(t)| ==>
              LexLess(MonthLabel(MonthlyTrend(t)[i].0), MonthLabel(MonthlyTrend(t)[j].0))
  {
    var r := MonthlyTrend(t);
    forall i | 0 <= i < |r| ensures Labelable(r[i].0) {
      TrendMonthsMembers(r, r[i].0);
      MonthsMembers(t, r[i].0);
      var n :| 0 <= n < |t| && MonthOf(t[n].date) == r[i].0;
    }
    forall i, j | 0 <= i < j < |r|
      ensures LexLess(MonthLabel(r[i].0), MonthLabel(r[j].0))
    {
      MonthLabelOrder(r[i].0, r[j].0);
    }
  }

  /** The padded numerals in the labels of January and February 2024. */
  lemma SamplePadded()
    ensures Padded(2024, 4) == "2024"
    ensures Padded(1, 2) == "01" && Padded(2, 2) == "02"
  {
    assert Padded(2, 1) == "2";
    assert Padded(20, 2) == "20";
    assert Padded(202, 3) == "202";
    assert Padded(0, 1) == "0";
  }

  /** The labels of January and February 2024, and the label read back. */
  lemma SampleLabels()
    ensures MonthLabel(MonthKey(2024, 1)) == "2024-01"
    ensures MonthLabel(MonthKey(2024, 2)) == "2024-02"
    ensures LabelMonth("2024-02") == Some(MonthKey(2024, 2))
  {
    SamplePadded();
    LabelParts(MonthKey(2024, 1));
    LabelParts(MonthKey(2024, 2));
  }
}
