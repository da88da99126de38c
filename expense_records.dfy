/** Expense records and the reference sums every aggregation is measured against.
    An amount is an integer number of minor currency units (paise); the
    source's floating-point amounts are not modelled. */
module ExpenseRecords {

  datatype Option<T> = None | Some(value: T)

  /** A calendar date, already parsed (the `Date` column after `pd.to_datetime`). */
  datatype Date = Date(year: int, month: int, day: int)

  /** One row of the expense table: the `Category`, `Amount` and `Date` columns. */
  datatype Record = Record(category: string, amount: int, date: Date)

  /** A calendar month, the value of the `Month` column (`to_period("M")`). */
  datatype MonthKey = MonthKey(year: int, month: int)

  /** The month a date falls in: the day of the month is dropped. */
  function MonthOf(d: Date): (k: MonthKey)
    ensures k.year == d.year && k.month == d.month
  {
    MonthKey(d.year, d.month)
  }

  /** Chronological order of months: by year, then by month. */
  predicate MonthBefore(a: MonthKey, b: MonthKey) {
    a.year < b.year || (a.year == b.year && a.month < b.month)
  }

  /** Sum of every amount in the table (`Amount.sum()`, 0 when empty). */
  function Total(t: seq<Record>): (r: int)
    ensures t == [] ==> r == 0
    ensures NonNegativeAmounts(t) ==> r >= 0
  {
    if t == [] then 0
    else
      assert NonNegativeAmounts(t) ==> NonNegativeAmounts(t[1..]) && t[0].amount >= 0;
      t[0].amount + Total(t[1..])
  }

  /** Appending a record adds its amount to the total. */
  lemma {:induction false} TotalAppend(t: seq<Record>, x: Record)
    ensures Total(t + [x]) == Total(t) + x.amount
  {
    if t != [] {
      assert (t + [x])[1..] == t[1..] + [x];
      TotalAppend(t[1..], x);
    }
  }

  /** Sum of the amounts of the records whose category is exactly `c`. */
  function CategorySum(t: seq<Record>, c: string): int {
    if t == [] then 0
    else (if t[0].category == c then t[0].amount else 0) + CategorySum(t[1..], c)
  }

  /** Sum of the amounts of the records dated in month `k`. */
  function MonthSum(t: seq<Record>, k: MonthKey): int {
    if t == [] then 0
    else (if MonthOf(t[0].date) == k then t[0].amount else 0) + MonthSum(t[1..], k)
  }

  /** The distinct categories that occur in the table (`Category.unique()`). */
  function Categories(t: seq<Record>): set<string> {
    if t == [] then {} else {t[0].category} + Categories(t[1..])
  }

  /** The distinct months in which some record of the table is dated. */
  function Months(t: seq<Record>): set<MonthKey> {
    if t == [] then {} else {MonthOf(t[0].date)} + Months(t[1..])
  }

  /** Every amount of the table is non-negative. */
  ghost predicate NonNegativeAmounts(t: seq<Record>) {
    forall i :: 0 <= i < |t| ==> t[i].amount >= 0
  }

  /** A category occurs in the table exactly when some record carries it. */
  lemma {:induction false} CategoriesMembers(t: seq<Record>, c: string)
    ensures c in Categories(t) <==> exists i :: 0 <= i < |t| && t[i].category == c
  {
    if t != [] {
      CategoriesMembers(t[1..], c);
      if c in Categories(t[1..]) {
        var i :| 0 <= i < |t[1..]| && t[1..][i].category == c;
        assert t[i + 1].category == c;
      }
      if exists i :: 0 <= i < |t| && t[i].category == c {
        var i :| 0 <= i < |t| && t[i].category == c;
        if i > 0 {
          assert t[1..][i - 1].category == c;
        }
      }
    }
  }

  /** A month occurs in the table exactly when some record is dated in it. */
  lemma {:induction false} MonthsMembers(t: seq<Record>, k: MonthKey)
    ensures k in Months(t) <==> exists i :: 0 <= i < |t| && MonthOf(t[i].date) == k
  {
    if t != [] {
      MonthsMembers(t[1..], k);
      if k in Months(t[1..]) {
        var i :| 0 <= i < |t[1..]| && MonthOf(t[1..][i].date) == k;
        assert MonthOf(t[i + 1].date) == k;
      }
      if exists i :: 0 <= i < |t| && MonthOf(t[i].date) == k {
        var i :| 0 <= i < |t| && MonthOf(t[i].date) == k;
        if i > 0 {
          assert MonthOf(t[1..][i - 1].date) == k;
        }
      }
    }
  }

  /** A category that does not occur contributes nothing. */
  lemma {:induction false} CategorySumAbsent(t: seq<Record>, c: string)
    requires c !in Categories(t)
    ensures CategorySum(t, c) == 0
  {
    if t != [] {
      CategorySumAbsent(t[1..], c);
    }
  }

  /** A month in which no record is dated contributes nothing. */
  lemma {:induction false} MonthSumAbsent(t: seq<Record>, k: MonthKey)
    requires k !in Months(t)
    ensures MonthSum(t, k) == 0
  {
    if t != [] {
      MonthSumAbsent(t[1..], k);
    }
  }

  /** With no negative amount, every sum is non-negative. */
  lemma {:induction false} NonNegativeSums(t: seq<Record>)
    requires NonNegativeAmounts(t)
    ensures Total(t) >= 0
    ensures forall c :: CategorySum(t, c) >= 0
    ensures forall k :: MonthSum(t, k) >= 0
  {
    if t != [] {
      assert t[0].amount >= 0;
      NonNegativeSums(t[1..]);
    }
  }
}
