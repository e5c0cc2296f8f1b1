/** The employee's own page: which fetched income entries it lists, the net of a row, and
    the day that the edit form is filled with. */
module EmployeeDashboard {
  import opened Common
  import opened Calendar
  import opened Text
  import opened DayStrings

  /** An entry's `user` as the listing returns it: absent, a bare id, or the populated
      author document. */
  datatype UserRef = NoUser | IdRef(id: string) | Populated(id: string, name: Option<string>, username: string)

  /** The fields of a fetched entry that the page reads. */
  datatype ListedEntry = ListedEntry(
    id: string, date: string, cashIncome: int, posIncome: int, expenses: int, user: UserRef)

  /** Whether the entry's author is the signed-in user (`user?.id`, absent when nobody is
      signed in): a bare id and a populated author compare their id; an entry without an
      author is never kept. */
  predicate Owned(e: ListedEntry, current: Option<string>) {
    match e.user
    case NoUser => false
    case IdRef(id) => current == Some(id)
    case Populated(id, _, _) => current == Some(id)
  }

  /** `fetchEntries`: the fetched entries narrowed to the signed-in user's own. */
  function OwnEntries(entries: seq<ListedEntry>, current: Option<string>): (r: seq<ListedEntry>)
    ensures forall e :: e in r <==> e in entries && !e.user.NoUser? && current == Some(e.user.id)
    ensures IsSubsequence(r, entries)
  {
    Filter(entries, (e: ListedEntry) => Owned(e, current))
  }

  /** Nobody signed in: nothing is listed. */
  lemma {:induction false} SignedOutSeesNothing(entries: seq<ListedEntry>)
    ensures OwnEntries(entries, None) == []
    decreases |entries|
  {
    if entries != [] {
      SignedOutSeesNothing(entries[1..]);
    }
  }

  /** When every fetched entry is the user's own (as the listing route returns them to an
      employee), the page keeps all of them, in order. */
  lemma {:induction false} AllOwnKept(entries: seq<ListedEntry>, id: string)
    requires forall i :: 0 <= i < |entries| ==> !entries[i].user.NoUser? && entries[i].user.id == id
    ensures OwnEntries(entries, Some(id)) == entries
    decreases |entries|
  {
    if entries != [] {
      AllOwnKept(entries[1..], id);
      assert OwnEntries(entries, Some(id)) == [entries[0]] + OwnEntries(entries[1..], Some(id));
      assert [entries[0]] + entries[1..] == entries;
    }
  }

  /** Keeping the own entries twice is keeping them once. */
  lemma {:induction false} OwnEntriesIdempotent(entries: seq<ListedEntry>, current: Option<string>)
    ensures OwnEntries(OwnEntries(entries, current), current) == OwnEntries(entries, current)
    decreases |entries|
  {
    if entries != [] {
      OwnEntriesIdempotent(entries[1..], current);
      var rest := OwnEntries(entries[1..], current);
      if Owned(entries[0], current) {
        var kept := [entries[0]] + rest;
        assert OwnEntries(entries, current) == kept;
        assert kept[0] == entries[0] && kept[1..] == rest;
        assert OwnEntries(kept, current) == [entries[0]] + OwnEntries(rest, current);
      } else {
        assert OwnEntries(entries, current) == rest;
      }
    }
  }

  /** The net column of a row. */
  function RowNet(e: ListedEntry): (net: int)
    ensures net >= 0 <==> e.expenses <= e.cashIncome + e.posIncome
    ensures net + e.expenses == e.cashIncome + e.posIncome
  {
    e.cashIncome + e.posIncome - e.expenses
  }

  /** The listed rows' nets, added up. */
  function SumNets(rows: seq<ListedEntry>): int
    decreases |rows|
  {
    if rows == [] then 0 else RowNet(rows[0]) + SumNets(rows[1..])
  }

  /** The listed rows' cash and POS takings, added up. */
  function SumTakings(rows: seq<ListedEntry>): int
    decreases |rows|
  {
    if rows == [] then 0 else rows[0].cashIncome + rows[0].posIncome + SumTakings(rows[1..])
  }

  /** The listed rows' expenses, added up. */
  function SumSpent(rows: seq<ListedEntry>): int
    decreases |rows|
  {
    if rows == [] then 0 else rows[0].expenses + SumSpent(rows[1..])
  }

  /** The net column of the table adds up to the listed takings minus the listed
      expenses; when every row is shown green, the expenses do not exceed the takings. */
  lemma {:induction false} NetsAddUp(rows: seq<ListedEntry>)
    ensures SumNets(rows) == SumTakings(rows) - SumSpent(rows)
    ensures (forall i :: 0 <= i < |rows| ==> RowNet(rows[i]) >= 0) ==> SumSpent(rows) <= SumTakings(rows)
    decreases |rows|
  {
    if rows != [] {
      NetsAddUp(rows[1..]);
      var _ := RowNet(rows[0]);
    }
  }

  /** The edit form's day: the stored date up to its first 'T'. */
  function EditDate(stored: string): (day: string)
    ensures 'T' !in day
    ensures day <= stored
    ensures |day| == |stored| || stored[|day|] == 'T'
  {
    BeforeFirst(stored, 'T')
  }

  /** Taking the day of a day changes nothing. */
  lemma EditDateIdempotent(stored: string)
    ensures EditDate(EditDate(stored)) == EditDate(stored)
  {
    var day := EditDate(stored);
    SplitWithout(day, 'T');
  }

  /** An ISO timestamp `YYYY-MM-DDT…` gives back its day, which the income route reads as
      that very day (for years from 100 on). */
  lemma EditDateOfTimestamp(d: CalendarDay, time: string)
    requires d.year >= 100
    ensures EditDate(FormatDate(d) + "T" + time) == FormatDate(d)
    ensures LocalDayOf(EditDate(FormatDate(d) + "T" + time)) == Some(DaysFromCivil(d))
  {
    assert 'T' !in FormatDate(d) by {
      FormatDatePieces(d);
      var parts := Split(FormatDate(d), '-');
      assert FormatDate(d) == IntToString(d.year) + "-" + Pad2(d.month) + "-" + Pad2(d.day);
      assert AllDigits(IntToString(d.year)) && AllDigits(Pad2(d.month)) && AllDigits(Pad2(d.day));
    }
    SplitAtFirst(FormatDate(d), 'T', time);
    FormatDateRoundTrip(d);
  }
}
