/** The category filter of the dashboard: `df[df["Category"].isin(selected)]`
    when something is selected, a copy of the whole table otherwise. */
module Filtering {
  import opened ExpenseRecords

  /** `idx` lists positions of a table of length `n`, strictly increasing. */
  ghost predicate IncreasingPositions(idx: seq<int>, n: int) {
    && (forall i :: 0 <= i < |idx| ==> 0 <= idx[i] < n)
    && (forall i, j :: 0 <= i < j < |idx| ==> idx[i] < idx[j])
  }

  /** `r` is the subsequence of `t` made of the records at positions `idx`, in order. */
  ghost predicate PicksOut(r: seq<Record>, t: seq<Record>, idx: seq<int>) {
    && |idx| == |r|
    && IncreasingPositions(idx, |t|)
    && (forall i :: 0 <= i < |r| ==> r[i] == t[idx[i]])
  }

  /** The records whose category is in `selected`, in table order (`isin`). */
  function Keep(t: seq<Record>, selected: set<string>): (r: seq<Record>)
    ensures |r| <= |t|
    ensures forall x :: x in r <==> x in t && x.category in selected
  {
    if t == [] then []
    else if t[0].category in selected then [t[0]] + Keep(t[1..], selected)
    else Keep(t[1..], selected)
  }

  /** The table the dashboard aggregates (`data_to_use`): an empty selection
      means "no filter", not "nothing". */
  function FilterByCategories(t: seq<Record>, selected: set<string>): (r: seq<Record>)
    ensures selected == {} ==> r == t
    ensures selected != {} ==> forall x :: x in r <==> x in t && x.category in selected
  {
    if selected == {} then t else Keep(t, selected)
  }

  /** The positions `lo..|t|-1` of `t` whose record has a selected category. */
  ghost function SelectedPositions(t: seq<Record>, selected: set<string>, lo: nat): (idx: seq<int>)
    requires lo <= |t|
    ensures IncreasingPositions(idx, |t|)
    ensures forall i :: 0 <= i < |idx| ==> lo <= idx[i]
    ensures forall j :: lo <= j < |t| ==> (j in idx <==> t[j].category in selected)
    decreases |t| - lo
  {
    if lo == |t| then []
    else if t[lo].category in selected then [lo] + SelectedPositions(t, selected, lo + 1)
    else SelectedPositions(t, selected, lo + 1)
  }

  /** The positions of `t` that the filter keeps. */
  ghost function FilterPositions(t: seq<Record>, selected: set<string>): seq<int> {
    if selected == {} then seq(|t|, i => i) else SelectedPositions(t, selected, 0)
  }

  /** Putting the record at position `lo` in front of a subsequence drawn from
      later positions gives a subsequence again. */
  lemma PicksOutCons(t: seq<Record>, lo: int, rest: seq<Record>, restIdx: seq<int>)
    requires 0 <= lo < |t|
    requires PicksOut(rest, t, restIdx)
    requires forall i :: 0 <= i < |restIdx| ==> lo < restIdx[i]
    ensures PicksOut([t[lo]] + rest, t, [lo] + restIdx)
  {
    var r, idx := [t[lo]] + rest, [lo] + restIdx;
    forall i | 1 <= i < |r| ensures r[i] == rest[i - 1] && idx[i] == restIdx[i - 1] { }
  }

  lemma {:induction false} KeepPicksOut(t: seq<Record>, selected: set<string>, lo: nat)
    requires lo <= |t|
    ensures PicksOut(Keep(t[lo..], selected), t, SelectedPositions(t, selected, lo))
    decreases |t| - lo
  {
    if lo < |t| {
      KeepPicksOut(t, selected, lo + 1);
      assert t[lo..][1..] == t[lo + 1..];
      if t[lo].category in selected {
        PicksOutCons(t, lo, Keep(t[lo + 1..], selected), SelectedPositions(t, selected, lo + 1));
      }
    } else {
      assert t[lo..] == [];
    }
  }

  /** The filtered table is the order-preserving subsequence of the table made of
      exactly the records at the selected positions (every position when the
      selection is empty). */
  lemma FilterIsOrderedSubsequence(t: seq<Record>, selected: set<string>)
    ensures PicksOut(FilterByCategories(t, selected), t, FilterPositions(t, selected))
    ensures forall j :: 0 <= j < |t| ==>
              (j in FilterPositions(t, selected) <==> selected == {} || t[j].category in selected)
  {
    if selected != {} {
      KeepPicksOut(t, selected, 0);
      assert t[0..] == t;
    } else {
      var idx := FilterPositions(t, selected);
      forall j | 0 <= j < |t| ensures j in idx {
        assert idx[j] == j;
      }
    }
  }

  /** Filtering keeps each selected category's sum and zeroes the others. */
  lemma {:induction false} KeepCategorySum(t: seq<Record>, selected: set<string>, c: string)
    ensures CategorySum(Keep(t, selected), c) == if c in selected then CategorySum(t, c) else 0
  {
    if t != [] {
      KeepCategorySum(t[1..], selected, c);
    }
  }

  /** The categories left after filtering are the selected ones that occur. */
  lemma {:induction false} KeepCategories(t: seq<Record>, selected: set<string>)
    ensures Categories(Keep(t, selected)) == Categories(t) * selected
  {
    if t != [] {
      KeepCategories(t[1..], selected);
    }
  }

  /** Filtering with a non-negative table leaves a non-negative table. */
  lemma FilterKeepsNonNegative(t: seq<Record>, selected: set<string>)
    requires NonNegativeAmounts(t)
    ensures NonNegativeAmounts(FilterByCategories(t, selected))
  {
    var r := FilterByCategories(t, selected);
    forall i | 0 <= i < |r| ensures r[i].amount >= 0 {
      assert r[i] in r;
    }
  }
}
