/** The joint dashboard of app/dashboard/page.tsx: this month's expenses,
    the per-person totals over them, and the record the add form submits.
    "Today" is a parameter. */
module Dashboard {
  import opened Seqs
  import opened Calendar
  import opened Records
  import AppContext

  /** Lines 52-55: records dated in today's month of today's year. */
  function CurrentMonthExpenses(es: seq<Expense>, today: Date): (r: seq<Expense>)
    ensures forall e :: e in r <==> e in es && InMonthOf(e, today)
    ensures forall e :: multiset(r)[e] == if InMonthOf(e, today) then multiset(es)[e] else 0
    ensures IsSubsequence(r, es)
  {
    FilterExact(es, (e: Expense) => InMonthOf(e, today));
    Filter(es, (e: Expense) => InMonthOf(e, today))
  }

  /** Lines 57-63: `totalExpenseNiloy` and `totalExpenseSejuti`. Each is
      the sum over the whole list of that person's records dated this month. */
  function DashboardTotals(es: seq<Expense>, today: Date): (r: PersonTotals)
    ensures r.niloy == Total(Filter(es, (e: Expense) => InMonthOf(e, today) && e.name == "niloy"))
    ensures r.sejuti == Total(Filter(es, (e: Expense) => InMonthOf(e, today) && e.name == "sejuti"))
  {
    var inMonth := (e: Expense) => InMonthOf(e, today);
    FilterCompose(es, inMonth, (e: Expense) => e.name == "niloy",
                  (e: Expense) => InMonthOf(e, today) && e.name == "niloy");
    FilterCompose(es, inMonth, (e: Expense) => e.name == "sejuti",
                  (e: Expense) => InMonthOf(e, today) && e.name == "sejuti");
    TotalsByPerson(CurrentMonthExpenses(es, today))
  }

  /** With non-negative amounts each total is at most this month's total, and
      when every record of the month is niloy's or sejuti's the two add up to it. */
  lemma DashboardTotalsBound(es: seq<Expense>, today: Date)
    requires NonNegative(es)
    ensures var month := CurrentMonthExpenses(es, today);
      && 0 <= DashboardTotals(es, today).niloy <= Total(month)
      && 0 <= DashboardTotals(es, today).sejuti <= Total(month)
      && ((forall i :: 0 <= i < |month| ==> month[i].name == "niloy" || month[i].name == "sejuti")
          ==> DashboardTotals(es, today).niloy + DashboardTotals(es, today).sejuti == Total(month))
  {
    var month := CurrentMonthExpenses(es, today);
    FilterSubsetNonNegative(es, (e: Expense) => InMonthOf(e, today));
    if forall i :: 0 <= i < |month| ==> month[i].name == "niloy" || month[i].name == "sejuti" {
      NameTotalsPartition(month, "niloy", "sejuti");
    }
  }

  /** `handleSubmit`, lines 31-41: the record handed to `addExpense` (without a
      `type`) and the cleared form. `user!` holds because the page renders
      nothing without a user (line 65). */
  function Submit(user: AppContext.User, form: EntryForm, today: Date): (r: (Draft, EntryForm))
    requires form.amount.Some?
    requires IsoDay(today)
    ensures r.0.name == user.username && r.0.category == form.category
    ensures r.0.amount == form.amount.value && r.0.scope == None
    ensures CalendarOf(r.0.date) == Some(today)
    ensures r.1 == ClearedForm
  {
    ParseIsoDate(today);
    (Draft(user.username, form.category, IsoDate(today), form.amount.value, None), ClearedForm)
  }

  /** Once the store has saved a submitted record, it is the last of this
      month's records and adds its amount to the submitter's total only. */
  lemma SubmittedShowsThisMonth(es: seq<Expense>, user: AppContext.User, form: EntryForm, today: Date, id: string)
    requires form.amount.Some? && IsoDay(today)
    requires user.username == "niloy" || user.username == "sejuti"
    ensures var row := Stored(Submit(user, form, today).0, id);
      && CurrentMonthExpenses(es + [row], today) == CurrentMonthExpenses(es, today) + [row]
      && DashboardTotals(es + [row], today).niloy
         == DashboardTotals(es, today).niloy + (if user.username == "niloy" then row.amount else 0)
      && DashboardTotals(es + [row], today).sejuti
         == DashboardTotals(es, today).sejuti + (if user.username == "sejuti" then row.amount else 0)
  {
    var row := Stored(Submit(user, form, today).0, id);
    var inMonth := (e: Expense) => InMonthOf(e, today);
    assert InMonthOf(row, today);
    FilterAppend(es, [row], inMonth);
    assert Filter([row], inMonth) == [row];
    var month := CurrentMonthExpenses(es, today);
    TotalFilterAppend(month, row, (e: Expense) => e.name == "niloy");
    TotalFilterAppend(month, row, (e: Expense) => e.name == "sejuti");
  }
}
