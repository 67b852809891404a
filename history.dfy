/** The history page of app/history/page.tsx: the records of the day picked
    in the calendar, and the per-person totals over them. */
module History {
  import opened Seqs
  import opened Calendar
  import opened Records

  /** Lines 13-22: nothing until a day is picked; then the records whose
      year, month and day all equal the picked day's. */
  function HistoryExpenses(es: seq<Expense>, selected: Option<Date>): (r: seq<Expense>)
    ensures selected.None? ==> r == []
    ensures selected.Some? ==> forall e :: e in r <==> e in es && OnDay(e, selected.value)
    ensures selected.Some? ==> forall e ::
      multiset(r)[e] == if OnDay(e, selected.value) then multiset(es)[e] else 0
    ensures IsSubsequence(r, es)
  {
    match selected
    case None => []
    case Some(day) =>
      FilterExact(es, (e: Expense) => OnDay(e, day));
      Filter(es, (e: Expense) => OnDay(e, day))
  }

  /** Lines 24-30: `totalExpenseNiloy` and `totalExpenseSejuti`. Without a
      picked day both are 0; with one, each is the sum over the whole list of
      that person's records dated on the picked day. */
  function HistoryTotals(es: seq<Expense>, selected: Option<Date>): (r: PersonTotals)
    ensures selected.None? ==> r == PersonTotals(0, 0)
    ensures selected.Some? ==>
      r.niloy == Total(Filter(es, (e: Expense) => OnDay(e, selected.value) && e.name == "niloy"))
    ensures selected.Some? ==>
      r.sejuti == Total(Filter(es, (e: Expense) => OnDay(e, selected.value) && e.name == "sejuti"))
  {
    match selected
    case None =>
      assert HistoryExpenses(es, None) == [];
      TotalsByPerson(HistoryExpenses(es, None))
    case Some(day) =>
      var onDay := (e: Expense) => OnDay(e, day);
      FilterCompose(es, onDay, (e: Expense) => e.name == "niloy",
                    (e: Expense) => OnDay(e, day) && e.name == "niloy");
      FilterCompose(es, onDay, (e: Expense) => e.name == "sejuti",
                    (e: Expense) => OnDay(e, day) && e.name == "sejuti");
      TotalsByPerson(HistoryExpenses(es, selected))
  }

  /** Every listed record is dated on the picked day: same year, month and day. */
  lemma HistorySameDay(es: seq<Expense>, day: Date)
    ensures forall i :: 0 <= i < |HistoryExpenses(es, Some(day))| ==>
      var c := CalendarOf(HistoryExpenses(es, Some(day))[i].date);
      c.Some? && c.value.year == day.year && c.value.month == day.month && c.value.day == day.day
  {
    var r := HistoryExpenses(es, Some(day));
    forall i | 0 <= i < |r| ensures CalendarOf(r[i].date) == Some(day) {
      assert r[i] in r;
    }
  }
}
