/** The monthly trend: amounts grouped by the `Month` column and sorted by
    month (`groupby("Month")["Amount"].sum().reset_index().sort_values("Month")`). */
module Trends {
  import opened ExpenseRecords

  /** Rows of the monthly summary: a month and the amount spent in it. */
  type Trend = seq<(MonthKey, int)>

  /** Months strictly increase along the trend, so none appears twice. */
  ghost predicate StrictlyAscending(tr: Trend) {
    forall i, j :: 0 <= i < j < |tr| ==> MonthBefore(tr[i].0, tr[j].0)
  }

  /** The months the trend has a row for. */
  function TrendMonths(tr: Trend): set<MonthKey> {
    if tr == [] then {} else {tr[0].0} + TrendMonths(tr[1..])
  }

  /** The amount in the first row for month `k`, 0 when there is none. */
  function Lookup(tr: Trend, k: MonthKey): int {
    if tr == [] then 0 else if tr[0].0 == k then tr[0].1 else Lookup(tr[1..], k)
  }

  /** The sum of the amounts of all rows. */
  function TrendSum(tr: Trend): int {
    if tr == [] then 0 else tr[0].1 + TrendSum(tr[1..])
  }

  lemma {:induction false} TrendMonthsMembers(tr: Trend, k: MonthKey)
    ensures k in TrendMonths(tr) <==> exists i :: 0 <= i < |tr| && tr[i].0 == k
  {
    if tr != [] {
      TrendMonthsMembers(tr[1..], k);
      if k in TrendMonths(tr[1..]) {
        var i :| 0 <= i < |tr[1..]| && tr[1..][i].0 == k;
        assert tr[i + 1].0 == k;
      }
      if exists i :: 0 <= i < |tr| && tr[i].0 == k {
        var i :| 0 <= i < |tr| && tr[i].0 == k;
        if i > 0 {
          assert tr[1..][i - 1].0 == k;
        }
      }
    }
  }

  /** In an ascending trend, every later row is for a month after the first row's. */
  lemma AscendingTail(tr: Trend)
    requires StrictlyAscending(tr) && tr != []
    ensures forall m :: m in TrendMonths(tr[1..]) ==> MonthBefore(tr[0].0, m)
  {
    forall m | m in TrendMonths(tr[1..]) ensures MonthBefore(tr[0].0, m) {
      TrendMonthsMembers(tr[1..], m);
      var i :| 0 <= i < |tr[1..]| && tr[1..][i].0 == m;
      assert tr[1..][i] == tr[i + 1];
    }
  }

  /** A month without a row looks up as 0. */
  lemma {:induction false} LookupAbsent(tr: Trend, k: MonthKey)
    requires k !in TrendMonths(tr)
    ensures Lookup(tr, k) == 0
  {
    if tr != [] {
      LookupAbsent(tr[1..], k);
    }
  }

  /** In an ascending trend, looking up a row's month gives that row's amount. */
  lemma {:induction false} LookupAt(tr: Trend, i: int)
    requires StrictlyAscending(tr) && 0 <= i < |tr|
    ensures Lookup(tr, tr[i].0) == tr[i].1
  {
    if i > 0 {
      assert MonthBefore(tr[0].0, tr[i].0);
      assert tr[1..][i - 1] == tr[i];
      LookupAt(tr[1..], i - 1);
    }
  }

  /** A row for a month before every month of an ascending trend can go in front. */
  lemma AscendingCons(x: (MonthKey, int), tr: Trend)
    requires StrictlyAscending(tr)
    requires forall k :: k in TrendMonths(tr) ==> MonthBefore(x.0, k)
    ensures StrictlyAscending([x] + tr)
  {
    var r := [x] + tr;
    forall i, j | 0 <= i < j < |r| ensures MonthBefore(r[i].0, r[j].0) {
      assert r[j] == tr[j - 1];
      if i == 0 {
        TrendMonthsMembers(tr, tr[j - 1].0);
      } else {
        assert r[i] == tr[i - 1];
      }
    }
  }

  /** Adds amount `a` to month `k` in an ascending trend: the row for `k`
      grows by `a`, or a new row is inserted where the order puts it. */
  function AddToMonth(tr: Trend, k: MonthKey, a: int): (r: Trend)
    requires StrictlyAscending(tr)
    ensures StrictlyAscending(r)
    ensures TrendMonths(r) == TrendMonths(tr) + {k}
    ensures forall j :: Lookup(r, j) == Lookup(tr, j) + (if j == k then a else 0)
    ensures TrendSum(r) == TrendSum(tr) + a
  {
    if tr == [] then [(k, a)]
    else if tr[0].0 == k then
      AscendingTail(tr);
      LookupAbsent(tr[1..], k);
      AscendingCons((k, tr[0].1 + a), tr[1..]);
      [(k, tr[0].1 + a)] + tr[1..]
    else if MonthBefore(k, tr[0].0) then
      AscendingTail(tr);
      LookupAbsent(tr[1..], k);
      AscendingCons((k, a), tr);
      assert ([(k, a)] + tr)[1..] == tr;
      [(k, a)] + tr
    else
      var rest := AddToMonth(tr[1..], k, a);
      AscendingTail(tr);
      AscendingCons(tr[0], rest);
      assert ([tr[0]] + rest)[1..] == rest;
      [tr[0]] + rest
  }

  /** The monthly summary of a table. */
  function MonthlyTrend(t: seq<Record>): (r: Trend)
    ensures StrictlyAscending(r)
    ensures TrendMonths(r) == Months(t)
    ensures forall k :: Lookup(r, k) == MonthSum(t, k)
    ensures TrendSum(r) == Total(t)
  {
    if t == [] then []
    else AddToMonth(MonthlyTrend(t[1..]), MonthOf(t[0].date), t[0].amount)
  }

  /** Some record of the table is dated in month `k`. */
  ghost predicate DatedIn(t: seq<Record>, k: MonthKey) {
    exists n :: 0 <= n < |t| && MonthOf(t[n].date) == k
  }

  /** The trend has a row for month `k`. */
  ghost predicate HasRow(tr: Trend, k: MonthKey) {
    exists i :: 0 <= i < |tr| && tr[i].0 == k
  }

  /** Row `i` of the trend is for the month of some record, and holds that month's sum. */
  lemma TrendRow(t: seq<Record>, i: int)
    requires 0 <= i < |MonthlyTrend(t)|
    ensures DatedIn(t, MonthlyTrend(t)[i].0)
    ensures MonthlyTrend(t)[i].1 == MonthSum(t, MonthlyTrend(t)[i].0)
  {
    var r := MonthlyTrend(t);
    TrendMonthsMembers(r, r[i].0);
    MonthsMembers(t, r[i].0);
    LookupAt(r, i);
  }

  /** The month of record `n` has a row in the trend. */
  lemma RecordRow(t: seq<Record>, n: int)
    requires 0 <= n < |t|
    ensures HasRow(MonthlyTrend(t), MonthOf(t[n].date))
  {
    MonthsMembers(t, MonthOf(t[n].date));
    TrendMonthsMembers(MonthlyTrend(t), MonthOf(t[n].date));
  }

  /** Each row of the trend is the month (year and month, day dropped) of some
      record of the table, each such month has exactly one row, the rows are in
      strictly ascending month order, each row holds the sum of the amounts of
      its month, and the rows add up to the total. */
  lemma MonthlyTrendCorrect(t: seq<Record>)
    ensures forall i, j :: 0 <= i < j < |MonthlyTrend(t)| ==>
              MonthBefore(MonthlyTrend(t)[i].0, MonthlyTrend(t)[j].0)
    ensures forall i :: 0 <= i < |MonthlyTrend(t)| ==> DatedIn(t, MonthlyTrend(t)[i].0)
    ensures forall n :: 0 <= n < |t| ==> HasRow(MonthlyTrend(t), MonthOf(t[n].date))
    ensures forall i :: 0 <= i < |MonthlyTrend(t)| ==>
              MonthlyTrend(t)[i].1 == MonthSum(t, MonthlyTrend(t)[i].0)
    ensures TrendSum(MonthlyTrend(t)) == Total(t)
  {
    forall i | 0 <= i < |MonthlyTrend(t)|
      ensures DatedIn(t, MonthlyTrend(t)[i].0)
      ensures MonthlyTrend(t)[i].1 == MonthSum(t, MonthlyTrend(t)[i].0)
    {
      TrendRow(t, i);
    }
    forall n | 0 <= n < |t|
      ensures HasRow(MonthlyTrend(t), MonthOf(t[n].date))
    {
      RecordRow(t, n);
    }
  }

  /** With no negative amount (the manual store), every month's sum is non-negative. */
  lemma TrendNonNegative(t: seq<Record>)
    requires NonNegativeAmounts(t)
    ensures forall i :: 0 <= i < |MonthlyTrend(t)| ==> MonthlyTrend(t)[i].1 >= 0
  {
    MonthlyTrendCorrect(t);
    NonNegativeSums(t);
  }
}
