/** One run of the dashboard over the active table: the filtered frame, its
    category summary and total, the CSV export, and the monthly trend. */
module ExpenseDashboard {
  import opened ExpenseRecords
  import opened Filtering
  import opened CategorySummary
  import opened Trends
  import opened ManualEntry

  /** One line of the downloaded CSV: every column the frame has when
      `to_csv` runs; `month` is present only once the `Month` column exists. */
  datatype CsvRow = CsvRow(category: string, amount: int, date: Date, month: Option<MonthKey>)

  /** The record a CSV line carries, without any `Month` column. */
  function RowRecord(row: CsvRow): Record {
    Record(row.category, row.amount, row.date)
  }

  /** `to_csv(index=False)` of a frame with rows `t` and, perhaps, a `Month` column. */
  function ExportRows(t: seq<Record>, months: Option<seq<MonthKey>>): (rows: seq<CsvRow>)
    requires months.Some? ==> |months.value| == |t|
    ensures |rows| == |t|
    ensures forall i :: 0 <= i < |t| ==> RowRecord(rows[i]) == t[i]
    ensures forall i :: 0 <= i < |t| ==>
              rows[i].month == if months.Some? then Some(months.value[i]) else None
  {
    seq(|t|, i requires 0 <= i < |t| =>
      CsvRow(t[i].category, t[i].amount, t[i].date, if months.Some? then Some(months.value[i]) else None))
  }

  /** What the page shows under "All Expenses" once there is data. */
  datatype Panel = Panel(summary: map<string, int>, total: int, csv: seq<CsvRow>)

  /** A whole page: the panel (absent when there is no data) and the trend. */
  datatype View = View(panel: Option<Panel>, trend: Trend)

  /** The panel for the filtered frame: its summary, its total and its export,
      taken before the `Month` column is added. */
  function DataPanel(data: seq<Record>): Panel {
    Panel(SummarizeByCategory(data), Total(data), ExportRows(data, None))
  }

  /** The page for table `t` and category selection `selected`. With no data
      there is no panel and the trend is empty. With data, the numbers are
      those of the filtered table: the summary has a key per category left,
      holding its sum, the total is the sum of every kept amount, and the
      trend has one row per month, in ascending order, holding its sum. */
  function Dashboard(t: seq<Record>, selected: set<string>): (r: View)
    ensures r.panel.None? <==> t == []
    ensures t == [] ==> r.trend == []
    ensures t != [] ==> r.panel.value.summary.Keys == Categories(FilterByCategories(t, selected))
    ensures t != [] ==> TrendMonths(r.trend) == Months(FilterByCategories(t, selected))
    ensures t != [] ==> r.panel.value.total == Total(FilterByCategories(t, selected))
    ensures t != [] ==> forall c :: c in r.panel.value.summary ==>
              r.panel.value.summary[c] == CategorySum(FilterByCategories(t, selected), c)
    ensures t != [] ==> StrictlyAscending(r.trend)
    ensures t != [] ==> forall k :: Lookup(r.trend, k) == MonthSum(FilterByCategories(t, selected), k)
  {
    if t == [] then View(None, [])
    else
      var data := FilterByCategories(t, selected);
      View(Some(DataPanel(data)), MonthlyTrend(data))
  }

  /** The page as the script is written: `data_to_use` is bound only in the
      branch taken when the table is not empty, and the trend block, which runs
      after that branch whatever the table, fails when it is unbound. */
  datatype Outcome = Rendered(view: View) | DataUndefined

  function DashboardAsWritten(t: seq<Record>, selected: set<string>): (r: Outcome)
    ensures r.DataUndefined? <==> t == []
  {
    var dataToUse: Option<seq<Record>> :=
      if t != [] then Some(FilterByCategories(t, selected)) else None;
    var panel := if dataToUse.Some? then Some(DataPanel(dataToUse.value)) else None;
    match dataToUse
    case None => DataUndefined
    case Some(data) => Rendered(View(panel, MonthlyTrend(data)))
  }

  /** The script as written fails on the empty table (the first page load, or
      an uploaded file with no rows), where the intended page has an empty trend. */
  lemma AsWrittenFailsWithoutData(selected: set<string>)
    ensures DashboardAsWritten([], selected) == DataUndefined
    ensures Dashboard([], selected) == View(None, [])
  {
  }

  /** On any non-empty table the script as written and the intended page agree. */
  lemma AsWrittenAgreesWithData(t: seq<Record>, selected: set<string>)
    requires t != []
    ensures DashboardAsWritten(t, selected) == Rendered(Dashboard(t, selected))
  {
  }

  /** The numbers on one page agree: the category summary and the monthly
      trend both add up to the total, and the export is the filtered table in
      order, with no `Month` column: only the record's fields. */
  lemma DashboardConsistent(t: seq<Record>, selected: set<string>)
    requires t != []
    ensures Dashboard(t, selected).panel.Some?
    ensures MapSum(Dashboard(t, selected).panel.value.summary) == Dashboard(t, selected).panel.value.total
    ensures TrendSum(Dashboard(t, selected).trend) == Dashboard(t, selected).panel.value.total
    ensures |Dashboard(t, selected).panel.value.csv| == |FilterByCategories(t, selected)|
    ensures forall i :: 0 <= i < |FilterByCategories(t, selected)| ==>
              Dashboard(t, selected).panel.value.csv[i].month == None &&
              RowRecord(Dashboard(t, selected).panel.value.csv[i]) == FilterByCategories(t, selected)[i]
  {
    SummaryAddsUpToTotal(FilterByCategories(t, selected));
  }

  /** `data_to_use`: the filtered frame, which the script edits in place by
      adding a `Month` column after the export has been built. */
  class Frame {
    var rows: seq<Record>
    var monthColumn: Option<seq<MonthKey>>

    ghost predicate Valid()
      reads this
    {
      monthColumn.Some? ==> |monthColumn.value| == |rows|
    }

    /** `df[df["Category"].isin(selected)]` or `df.copy()`: a new frame with
        no `Month` column. */
    constructor (rows: seq<Record>)
      ensures Valid() && this.rows == rows && monthColumn == None
    {
      this.rows := rows;
      monthColumn := None;
    }

    /** `data_to_use["Month"] = ...dt.to_period("M")`: every row gets the month
        of its date; the rows themselves are unchanged. */
    method AddMonthColumn()
      requires Valid()
      modifies this
      ensures Valid() && rows == old(rows)
      ensures monthColumn.Some?
      ensures forall i :: 0 <= i < |rows| ==> monthColumn.value[i] == MonthOf(rows[i].date)
    {
      var t := rows;
      monthColumn := Some(seq(|t|, i requires 0 <= i < |t| => MonthOf(t[i].date)));
    }
  }

  /** One run of the script, step by step as the source takes them: filter,
      summarize, total, export, then add the `Month` column and build the trend. */
  method Render(t: seq<Record>, selected: set<string>) returns (v: View)
    ensures v == Dashboard(t, selected)
  {
    if t == [] {
      return View(None, []);
    }
    var frame := new Frame(FilterByCategories(t, selected));
    var summary := SummarizeByCategory(frame.rows);
    var total := Total(frame.rows);
    var csv := ExportRows(frame.rows, frame.monthColumn);
    frame.AddMonthColumn();
    var trend := MonthlyTrend(frame.rows);
    v := View(Some(Panel(summary, total, csv)), trend);
  }

  /** The sample table of three expenses over two months and two categories. */
  function SampleTable(): seq<Record> {
    [ Record("Food", 100, Date(2024, 1, 5)),
      Record("Food", 50, Date(2024, 1, 20)),
      Record("Travel", 200, Date(2024, 2, 1)) ]
  }

  /** On the sample table: the summary, the total, the trend and a one-category filter. */
  lemma SampleDashboard()
    ensures SummarizeByCategory(SampleTable()) == map["Food" := 150, "Travel" := 200]
    ensures Total(SampleTable()) == 350
    ensures MonthlyTrend(SampleTable()) == [(MonthKey(2024, 1), 150), (MonthKey(2024, 2), 200)]
    ensures FilterByCategories(SampleTable(), {"Travel"}) == [Record("Travel", 200, Date(2024, 2, 1))]
    ensures Total(FilterByCategories(SampleTable(), {"Travel"})) == 200
  {
  }

  /** A page built from the manual store shows no negative number: the store
      only holds non-negative amounts, filtering keeps that, and so the total,
      every category sum and every month of the trend are non-negative. */
  lemma ManualDashboardNonNegative(store: ManualStore, selected: set<string>)
    requires store.Valid()
    ensures Dashboard(store.Table(), selected).panel.Some? ==>
              Dashboard(store.Table(), selected).panel.value.total >= 0
    ensures Dashboard(store.Table(), selected).panel.Some? ==>
              forall c :: c in Dashboard(store.Table(), selected).panel.value.summary ==>
                Dashboard(store.Table(), selected).panel.value.summary[c] >= 0
    ensures forall i :: 0 <= i < |Dashboard(store.Table(), selected).trend| ==>
              Dashboard(store.Table(), selected).trend[i].1 >= 0
  {
    var t := store.Table();
    if t != [] {
      var data := FilterByCategories(t, selected);
      FilterKeepsNonNegative(t, selected);
      SummaryNonNegative(data);
      TrendNonNegative(data);
    }
  }
}
