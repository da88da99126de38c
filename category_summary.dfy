/** The per-category summary (`groupby("Category")["Amount"].sum()`) and the
    total it must add up to. */
module CategorySummary {
  import opened ExpenseRecords
  import opened Filtering

  /** One key per category of the table, holding that category's summed amount. */
  function SummarizeByCategory(t: seq<Record>): (m: map<string, int>)
    ensures m.Keys == Categories(t)
    ensures forall c :: c in m ==> m[c] == CategorySum(t, c)
  {
    if t == [] then map[]
    else
      var rest := SummarizeByCategory(t[1..]);
      var c := t[0].category;
      if c in rest then rest[c := t[0].amount + rest[c]]
      else
        CategorySumAbsent(t[1..], c);
        rest[c := t[0].amount]
  }

  /** The sum of the values of a map, in no particular order. */
  ghost function MapSum(m: map<string, int>): int
    decreases |m|
  {
    if m == map[] then 0
    else
      var k :| k in m;
      m[k] + MapSum(m - {k})
  }

  /** Any key can be taken out first: the sum does not depend on the order. */
  lemma {:induction false} MapSumRemove(m: map<string, int>, k: string)
    requires k in m
    ensures MapSum(m) == m[k] + MapSum(m - {k})
    decreases |m|
  {
    var k' :| k' in m && MapSum(m) == m[k'] + MapSum(m - {k'});
    if k' != k {
      MapSumRemove(m - {k'}, k);
      MapSumRemove(m - {k}, k');
      assert m - {k'} - {k} == m - {k} - {k'};
    }
  }

  /** Adding `a` to the value at `k` (or inserting `k` with `a`) adds `a` to the sum. */
  lemma MapSumAdd(m: map<string, int>, k: string, a: int)
    ensures MapSum(m[k := a + (if k in m then m[k] else 0)]) == MapSum(m) + a
  {
    var m' := m[k := a + (if k in m then m[k] else 0)];
    MapSumRemove(m', k);
    assert m' - {k} == m - {k};
    if k in m {
      MapSumRemove(m, k);
    } else {
      assert m - {k} == m;
    }
  }

  /** The values of the category summary add up to the total. */
  lemma {:induction false} SummaryAddsUpToTotal(t: seq<Record>)
    ensures MapSum(SummarizeByCategory(t)) == Total(t)
  {
    if t != [] {
      SummaryAddsUpToTotal(t[1..]);
      var rest := SummarizeByCategory(t[1..]);
      var c := t[0].category;
      MapSumAdd(rest, c, t[0].amount);
      assert SummarizeByCategory(t) == rest[c := t[0].amount + (if c in rest then rest[c] else 0)];
    }
  }

  /** The summary of a filtered table has one key per selected category that
      occurs in the table, with that category's sum over the whole table: a
      filter never splits or merges a category's amounts. */
  lemma SummaryOfFilter(t: seq<Record>, selected: set<string>)
    requires selected != {}
    ensures SummarizeByCategory(FilterByCategories(t, selected)).Keys == Categories(t) * selected
    ensures forall c :: c in SummarizeByCategory(FilterByCategories(t, selected)) ==>
              SummarizeByCategory(FilterByCategories(t, selected))[c] == CategorySum(t, c)
  {
    KeepCategories(t, selected);
    forall c | c in Categories(t) * selected
      ensures CategorySum(Keep(t, selected), c) == CategorySum(t, c)
    {
      KeepCategorySum(t, selected, c);
    }
  }

  /** With no negative amount (the manual store), every summary value is non-negative. */
  lemma SummaryNonNegative(t: seq<Record>)
    requires NonNegativeAmounts(t)
    ensures forall c :: c in SummarizeByCategory(t) ==> SummarizeByCategory(t)[c] >= 0
    ensures Total(t) >= 0
  {
    NonNegativeSums(t);
  }
}
