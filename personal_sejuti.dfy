/** Sejuti's personal page, app/personal/sejuti/page.tsx: her personal
    records of this month, their total, and the record the add form submits.
    "Today" is a parameter. */
module PersonalSejuti {
  import opened Seqs
  import opened Calendar
  import opened Records

  /** Lines 39-44. */
  predicate IsSejutiPersonalThisMonth(e: Expense, today: Date)
  {
    e.name == "sejuti" && e.scope == Some(Personal) && InMonthOf(e, today)
  }

  function PersonalExpenses(es: seq<Expense>, today: Date): (r: seq<Expense>)
    ensures forall e :: e in r <==>
      e in es && e.name == "sejuti" && e.scope == Some(Personal) && InMonthOf(e, today)
    ensures forall e :: multiset(r)[e] == if IsSejutiPersonalThisMonth(e, today) then multiset(es)[e] else 0
    ensures IsSubsequence(r, es)
  {
    FilterExact(es, (e: Expense) => IsSejutiPersonalThisMonth(e, today));
    Filter(es, (e: Expense) => IsSejutiPersonalThisMonth(e, today))
  }

  /** Lines 46-47: `totalPersonalExpense`. It is 0 when the month has no
      personal records of sejuti, and with non-negative amounts it lies
      between 0 and the total of all records. */
  function TotalPersonalExpense(es: seq<Expense>, today: Date): (r: int)
    ensures (forall i :: 0 <= i < |es| ==> !IsSejutiPersonalThisMonth(es[i], today)) ==> r == 0
    ensures NonNegative(es) ==> 0 <= r <= Total(es)
  {
    var p := (e: Expense) => IsSejutiPersonalThisMonth(e, today);
    assert (forall i :: 0 <= i < |es| ==> !IsSejutiPersonalThisMonth(es[i], today)) ==> Total(Filter(es, p)) == 0 by {
      if forall i :: 0 <= i < |es| ==> !IsSejutiPersonalThisMonth(es[i], today) {
        TotalOfNone(es, p);
      }
    }
    assert NonNegative(es) ==> 0 <= Total(Filter(es, p)) <= Total(es) by {
      if NonNegative(es) {
        TotalFilterBound(es, p);
      }
    }
    Total(PersonalExpenses(es, today))
  }

  /** `handleSubmit`, lines 23-34: always a personal record of sejuti dated
      today, and the cleared form. */
  function Submit(form: EntryForm, today: Date): (r: (Draft, EntryForm))
    requires form.amount.Some?
    requires IsoDay(today)
    ensures r.0.name == "sejuti" && r.0.scope == Some(Personal)
    ensures r.0.category == form.category && r.0.amount == form.amount.value
    ensures CalendarOf(r.0.date) == Some(today)
    ensures r.1 == ClearedForm
  {
    ParseIsoDate(today);
    (Draft("sejuti", form.category, IsoDate(today), form.amount.value, Some(Personal)), ClearedForm)
  }

  /** Once the store has saved a submitted record, it is the newest of the
      listed records and the total grows by its amount. */
  lemma SubmittedShowsOnPage(es: seq<Expense>, form: EntryForm, today: Date, id: string)
    requires form.amount.Some? && IsoDay(today)
    ensures var row := Stored(Submit(form, today).0, id);
      && PersonalExpenses(es + [row], today) == PersonalExpenses(es, today) + [row]
      && TotalPersonalExpense(es + [row], today) == TotalPersonalExpense(es, today) + row.amount
  {
    var row := Stored(Submit(form, today).0, id);
    var p := (e: Expense) => IsSejutiPersonalThisMonth(e, today);
    assert p(row);
    FilterAppend(es, [row], p);
    assert Filter([row], p) == [row];
    TotalAppend(PersonalExpenses(es, today), [row]);
  }
}
