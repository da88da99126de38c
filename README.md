# Personal Expense Tracker — the aggregation core in Dafny

The expense tracker is a single Streamlit page. Expenses come from an uploaded
CSV file or from a form whose entries are kept in the session. The page filters
the expense table by category. It then shows the per-category sums and the
total, offers the filtered rows as a CSV download, and draws the monthly trend.
This project models that core without the web page, pandas or Plotly:

- `ExpenseRecords` (`expense_records.dfy`): the record (`Category`, `Amount`,
  `Date`), the month key, and reference definitions: the total, the sum of one
  category, the sum of one month, and the sets of categories and months that
  occur.
- `Filtering` (`filtering.dfy`): the category filter. An empty selection means
  "no filter". Otherwise the filter keeps exactly the records whose category is
  selected, in table order.
- `CategorySummary` (`category_summary.dfy`): the `groupby("Category")` sums as a
  `map<string, int>`, and the proof that its values add up to the total.
- `Trends` (`monthly_trend.dfy`): the monthly trend as a sequence of
  (month, amount) rows. It is built by inserting each record into an ascending
  list of months. It is proved strictly ascending, with one row per month that
  occurs. Each row holds its month's sum, and the rows add up to the total.
- `MonthLabels` (`month_labels.dfy`): the `"YYYY-MM"` text of the `Month` column.
  For four-digit years, the character order of those labels is proved to be the
  chronological order of the months. So sorting by the label, as the source
  does, yields the same order as the trend.
- `ManualEntry` (`manual_entry.dfy`): the session's manual-entry list as a class
  with a `seq<Record>` field. `Submit` appends one accepted record, and `Clear`
  empties the list. Its invariant is that every stored record has a non-empty
  category and a non-negative amount.
- `ExpenseDashboard` (`dashboard.dfy`): one run of the page. The `Frame` class is
  `data_to_use`, which receives its `Month` column in place. The `Render` method
  performs the source's steps in the source's order. It is proved equal to the
  pure `Dashboard` function. In particular, the CSV export is built before the
  `Month` column exists, so it has only the columns the frame had before the
  `Month` column is added. In the model these are the record's three fields.

Amounts are integers in minor currency units (paise). Every table is a
`seq<Record>` value, so no aggregation can change the table it reads, and the
same input always gives the same output.

## Model

| member | source | states |
|---|---|---|
| `ExpenseRecords.MonthOf` | Miniapp.py:107 | the month of a date has the date's year and month; the day is dropped |
| `ExpenseRecords.Total` | Miniapp.py:70 | the total of the empty table is 0, and a table with no negative amount has a non-negative total (its agreement with the summary and the trend is `CategorySummary.SummaryAddsUpToTotal` and `Trends.MonthlyTrend`) |
| `ExpenseRecords.TotalAppend` | Miniapp.py:35-70 | appending a record to a table adds exactly its amount to the total |
| `ExpenseRecords.CategoriesMembers` | Miniapp.py:58 | a category is among the table's distinct categories exactly when some record carries it |
| `ExpenseRecords.MonthsMembers` | Miniapp.py:106-107 | a month is among the table's months exactly when some record's date falls in it |
| `ExpenseRecords.NonNegativeSums` | Miniapp.py:67-70 | with no negative amount, the total, every category sum and every month sum are non-negative |
| `Filtering.Keep` | Miniapp.py:62 | the kept records are exactly the table's records whose category is selected, and there are no more of them than records in the table |
| `Filtering.FilterByCategories` | Miniapp.py:61-64 | an empty selection gives the whole table unchanged; a non-empty one gives exactly the records of selected categories |
| `Filtering.SelectedPositions` | Miniapp.py:62 | the positions listed strictly increase, and a position is listed exactly when its record's category is selected |
| `Filtering.KeepPicksOut` | Miniapp.py:62 | the kept records are the records at the selected positions, in table order |
| `Filtering.FilterIsOrderedSubsequence` | Miniapp.py:61-64 | the filtered table is the order-preserving subsequence of the table at exactly the selected positions (all positions when nothing is selected) |
| `Filtering.KeepCategorySum` | Miniapp.py:62-67 | filtering keeps a selected category's sum and makes an unselected category's sum 0 |
| `Filtering.KeepCategories` | Miniapp.py:58-62 | the categories left after filtering are the selected categories that occur in the table |
| `Filtering.FilterKeepsNonNegative` | Miniapp.py:61-64 | filtering a table with no negative amount leaves a table with no negative amount |
| `CategorySummary.SummarizeByCategory` | Miniapp.py:67 | the summary has exactly one key per category of the table, holding the sum of that category's amounts; categories absent from the table have no key |
| `CategorySummary.MapSumRemove` | Miniapp.py:67-70 | the sum of a summary's values does not depend on the order its keys are added in |
| `CategorySummary.SummaryAddsUpToTotal` | Miniapp.py:67-70 | the values of the category summary add up to the total (0 for the empty table) |
| `CategorySummary.SummaryOfFilter` | Miniapp.py:61-67 | after a non-empty selection, the summary's keys are the selected categories that occur, each with its sum over the whole table |
| `CategorySummary.SummaryNonNegative` | Miniapp.py:67-70 | with no negative amount, every summary value and the total are non-negative |
| `Trends.AddToMonth` | Miniapp.py:108-109 | adding an amount to a month keeps the trend strictly ascending, adds the month if new, adds the amount to that month only, and adds it to the trend's sum |
| `Trends.LookupAt` | Miniapp.py:108 | in an ascending trend, looking up a row's month gives that row's amount |
| `Trends.MonthlyTrend` | Miniapp.py:106-109 | the trend is strictly ascending, has a row exactly for the months that occur, each month's amount is that month's sum, and the rows add up to the total |
| `Trends.TrendRow` | Miniapp.py:106-108 | a row of the trend is for a month in which some record is dated, and holds the sum of that month's amounts |
| `Trends.RecordRow` | Miniapp.py:106-108 | the month of every record's date has a row in the trend |
| `Trends.MonthlyTrendCorrect` | Miniapp.py:106-109 | each row's month is the year and month of some record's date (day dropped), every record's month has a row, months strictly ascend, each row holds its month's sum, and the rows add up to the total |
| `Trends.TrendNonNegative` | Miniapp.py:108 | with no negative amount, every month's sum is non-negative |
| `MonthLabels.Padded` | Miniapp.py:107 | a zero-padded numeral has exactly the given width, consists of digits only, and reads back as the number whenever the number fits in that width |
| `MonthLabels.MonthLabel` | Miniapp.py:107 | a month's label has seven characters with the dash in the middle ("YYYY-MM"); the four digits before the dash read as the year and the two after it as the month |
| `MonthLabels.LabelParts` | Miniapp.py:107 | a label is the year padded to four digits, a dash, and the month padded to two digits |
| `MonthLabels.LabelRoundTrip` | Miniapp.py:107 | reading a label back (four digits, a dash, two digits) gives the month it was written from |
| `MonthLabels.SampleLabels` | Miniapp.py:107 | January 2024 is written "2024-01" and February 2024 "2024-02", and "2024-02" reads back as February 2024 |
| `MonthLabels.LexLessConcat` | Miniapp.py:109 | comparing two strings character by character compares their first parts first, then the rest |
| `MonthLabels.PaddedOrder` | Miniapp.py:107-109 | zero-padded numerals of one width compare, and are equal, exactly as the numbers do |
| `MonthLabels.MonthLabelOrder` | Miniapp.py:107-109 | one label sorts before another exactly when its month is earlier, and labels are equal exactly when the months are |
| `MonthLabels.TrendSortedByLabel` | Miniapp.py:107-109 | for four-digit years, the trend's rows are in strictly ascending order of their "YYYY-MM" labels, the order the sort by `Month` gives |
| `ManualEntry.ManualStore.constructor` | Miniapp.py:13-14 | a session's store starts as the empty list |
| `ManualEntry.ManualStore.Submit` | Miniapp.py:30-40 | exactly when the form is submitted with a non-empty category, one record with those fields is appended at the end; otherwise the store is unchanged; every stored amount stays non-negative; the table's total grows by exactly the amount added |
| `ManualEntry.ManualStore.Clear` | Miniapp.py:47-49 | from any state, the store becomes empty and valid |
| `ManualEntry.ManualStore.Table` | Miniapp.py:44 | the table built from the store is exactly the stored entries, in order, each with a non-empty category and a non-negative amount |
| `ExpenseDashboard.ExportRows` | Miniapp.py:96 | the CSV has one data line per row of the frame, in order (the header line belongs to serialisation, which is not modelled), each carrying that row's record and a month only when the frame has a `Month` column |
| `ExpenseDashboard.Dashboard` | Miniapp.py:53-109 | there is a panel exactly when the table is not empty; with no data the trend is empty; with data, the summary has a key for exactly the categories left after filtering, each holding that category's sum over the filtered table, the total is the sum of every filtered amount, and the trend has a row for exactly the filtered months, strictly ascending, each holding that month's sum |
| `ExpenseDashboard.DashboardAsWritten` | Miniapp.py:53-108 | the script as written, with `data_to_use` bound only in the non-empty branch, fails exactly when the table is empty |
| `ExpenseDashboard.DashboardConsistent` | Miniapp.py:61-109 | on a non-empty table, the summary and the trend both add up to the total, and the export is the filtered table in order with no `Month` column, since the month is added only after the export |
| `ExpenseDashboard.AsWrittenFailsWithoutData` | Miniapp.py:53-108 | on the empty table, the script as written reaches the trend with `data_to_use` unbound, while the intended page has no panel and an empty trend |
| `ExpenseDashboard.AsWrittenAgreesWithData` | Miniapp.py:53-108 | on every non-empty table, the script as written renders the intended page |
| `ExpenseDashboard.Frame.constructor` | Miniapp.py:61-64 | the filtered frame starts with the given rows and no `Month` column |
| `ExpenseDashboard.Frame.AddMonthColumn` | Miniapp.py:106-107 | every row gets the month of its date in the new `Month` column, and the rows are unchanged |
| `ExpenseDashboard.Render` | Miniapp.py:53-109 | running the steps in source order (filter, summary, total, export, then add `Month`, then trend) gives exactly the intended page, so the export is taken before the `Month` column exists |
| `ExpenseDashboard.ManualDashboardNonNegative` | Miniapp.py:30-109 | a page built from the manual store shows a non-negative total, non-negative category sums and a non-negative amount in every month of the trend |
| `ExpenseDashboard.SampleDashboard` | Miniapp.py:58-109 | on Food 100 (2024-01-05), Food 50 (2024-01-20) and Travel 200 (2024-02-01): the summary is Food 150 and Travel 200, the total 350, the trend 2024-01 150 then 2024-02 200, and selecting Travel keeps only its record, with total 200 |

## Findings

| source | as written | input that shows it | evidently intended | confidence | as-written member | corrected member |
|---|---|---|---|---|---|---|
| Miniapp.py:53-108 | `data_to_use` is assigned only inside `if not df.empty`, but the trend block at line 106 runs after that branch unconditionally, so an empty table leaves the name unbound | the empty table: the first page load with no file uploaded, a CSV with a header but no rows, or the run after "Clear All Entries" | with no data, show no panel and an empty trend | high, not executed | `ExpenseDashboard.AsWrittenFailsWithoutData` (about `ExpenseDashboard.DashboardAsWritten`) | `ExpenseDashboard.Render` (equal to `ExpenseDashboard.Dashboard`, whose properties `ExpenseDashboard.DashboardConsistent` proves) |

## Left out

- Streamlit page setup, the input-mode radio, the file uploader, the form
  widgets, the multiselect, the metric, the chart-type radio, the download
  button and `st.experimental_rerun` are all user interface. The active table is
  a parameter of `Render`. Which source supplies it (the uploaded file in upload
  mode, the manual store otherwise) is not modelled.
- The "Clear All Entries" button is only offered when the store is not empty.
  `ManualStore.Clear` may be called in any state, and on an empty store it
  changes nothing.
- `ManualStore.Submit` requires `amount >= 0`. This is the guarantee of the
  amount widget's `min_value=0.0`, which is not modelled as a widget. The
  category is accepted when it is not the empty string, as Python's truth test
  does. A category of spaces is therefore accepted, as in the source.
- Uploaded tables are not validated by the source. Their amounts may be
  negative, and the non-negativity results apply only to tables that satisfy
  `NonNegativeAmounts`, such as the manual store's.
- Missing values are not modelled: every record has a category, an amount and
  a date. In an uploaded file, `pd.read_csv` reads an empty cell (and "NA",
  "null", "nan" and the like) as a missing value. `groupby` then drops rows
  with a missing category from the summary, while `Amount.sum()` still counts
  their amounts, and both sums skip missing amounts. So the summary adds up to
  the total in the source only for tables with no missing category, which is
  the case `CategorySummary.SummaryAddsUpToTotal` covers.
- Columns of an uploaded file other than `Category`, `Amount` and `Date` are
  not modelled. The source keeps them through the filter and writes them into
  the export. An uploaded `Month` column is exported, then overwritten at
  Miniapp.py:107.
- Parsing the CSV file with `pd.read_csv` is not modelled. Serialising the
  export with `to_csv(...).encode('utf-8')` is not modelled either: the export
  is the sequence of rows with the frame's columns.
- Date parsing with `pd.to_datetime` is not modelled. Records carry an
  already-parsed date, so overwriting the `Date` column with its parsed value
  changes nothing, and unparseable dates cannot occur.
- Floating-point amounts and the `₹{total:,.2f}` formatting are not modelled.
  Amounts are exact integers in minor units, so sums are associative and do
  not round.
- The Plotly pie, bar and line charts are presentation only and are not
  modelled.
- The category summary is a map, so the sorted index that pandas gives the
  `groupby` result is not modelled. Only the monthly trend has an order.
- `MonthLabels` covers years 0 to 9999, written with four zero-padded digits.
  How pandas writes years outside four digits is not modelled.
- `Render` builds the trend from the rows' dates. `Frame.AddMonthColumn` proves
  that the `Month` column holds exactly those months, but the trend is not
  computed by reading the column's text.
- The filter compares categories exactly, with no trimming or case folding, as
  `isin` does. A selection can only name categories of the table, because the
  widget offers only those. The model accepts any set, and names that do not
  occur match nothing.
