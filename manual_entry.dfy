/** The manual-entry store: the session's list of expenses typed into the form. */
module ManualEntry {
  import opened ExpenseRecords

  /** What the form lets into the store: a non-empty category and an amount
      the widget has kept at or above zero. */
  predicate AcceptedEntry(r: Record) {
    r.category != "" && r.amount >= 0
  }

  /** `st.session_state.manual_data`: it lives across reruns, grows by one
      record per accepted submission and is emptied by "Clear All Entries". */
  class ManualStore {
    var entries: seq<Record>

    ghost predicate Valid()
      reads this
    {
      forall i :: 0 <= i < |entries| ==> AcceptedEntry(entries[i])
    }

    /** The first run of a session starts the list empty. */
    constructor ()
      ensures Valid() && entries == []
    {
      entries := [];
    }

    /** A run of the form: the record is appended exactly when the form was
        submitted with a non-empty category; otherwise nothing changes. The
        amount widget's lower bound of zero is the caller's guarantee. */
    method Submit(submitted: bool, category: string, amount: int, date: Date) returns (added: bool)
      requires Valid()
      requires amount >= 0
      modifies this
      ensures Valid()
      ensures added <==> submitted && category != ""
      ensures added ==> entries == old(entries) + [Record(category, amount, date)]
      ensures !added ==> entries == old(entries)
      ensures Total(entries) == Total(old(entries)) + (if added then amount else 0)
    {
      added := submitted && category != "";
      if added {
        TotalAppend(entries, Record(category, amount, date));
        entries := entries + [Record(category, amount, date)];
      }
    }

    /** "Clear All Entries": the list becomes empty. */
    method Clear()
      modifies this
      ensures Valid() && entries == []
    {
      entries := [];
    }

    /** `pd.DataFrame(st.session_state.manual_data)`: the table the store
        feeds to the dashboard; every row has a category and no negative amount. */
    function Table(): (t: seq<Record>)
      reads this
      requires Valid()
      ensures t == entries
      ensures NonNegativeAmounts(t)
      ensures forall i :: 0 <= i < |t| ==> t[i].category != ""
    {
      entries
    }
  }
}
