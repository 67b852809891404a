/** How the views agree with one another: the personal page and the
    statistics card it embeds (`<ExpenseStats type="personal" username="sejuti" />`),
    and the statistics card's daily buckets and the history page's days. */
module Consistency {
  import opened Seqs
  import opened Calendar
  import opened Records
  import opened ExpenseStats
  import opened PersonalSejuti
  import opened History

  /** Every record the personal page lists is also kept by the statistics
      card's personal-mode filter for sejuti. */
  lemma PersonalListInStatsScope(es: seq<Expense>, today: Date)
    ensures forall e :: e in PersonalExpenses(es, today) ==> e in ScopeFilter(es, PersonalMode, Some("sejuti"))
  {
  }

  /** The corrected monthly total of the card equals the page's own total. */
  lemma PersonalTotalMatchesStats(es: seq<Expense>, today: Date)
    ensures MonthlyTotal(ScopeFilter(es, PersonalMode, Some("sejuti")), today) == TotalPersonalExpense(es, today)
  {
    var inScope := (e: Expense) => InScope(e, PersonalMode, Some("sejuti"));
    var inMonth := (e: Expense) => InMonthOf(e, today);
    FilterCompose(es, inScope, inMonth, (e: Expense) => IsSejutiPersonalThisMonth(e, today));
  }

  /** With the month-only comparison of line 57 the same page shows two
      different totals for "this month": a record of May 2023 counts on the
      card in May 2024 but not in the page's total. */
  lemma PersonalTotalsDisagreeAsWritten()
    ensures var es := [Expense("1", "sejuti", "books", IsoDate(Date(2023, 5, 10)), 500, Some(Personal))];
      var today := Date(2024, 5, 14);
      MonthlyTotalAsWritten(ScopeFilter(es, PersonalMode, Some("sejuti")), today) == 500
      && TotalPersonalExpense(es, today) == 0
  {
    var day, today := Date(2023, 5, 10), Date(2024, 5, 14);
    var e := Expense("1", "sejuti", "books", IsoDate(day), 500, Some(Personal));
    ParseIsoDate(day);
    assert InScope(e, PersonalMode, Some("sejuti"));
    assert ScopeFilter([e], PersonalMode, Some("sejuti")) == [e];
    assert SameMonthAnyYear(e, today) && !IsSejutiPersonalThisMonth(e, today);
    assert Filter([e], (x: Expense) => SameMonthAnyYear(x, today)) == [e];
    assert Filter([e], (x: Expense) => IsSejutiPersonalThisMonth(x, today)) == [];
  }

  /** A bucket of the seven-day series holds exactly what the history page
      shows for that day: comparing date strings and comparing calendar days
      select the same records. */
  lemma DailyBucketIsHistoryDay(fs: seq<Expense>, today: Date, i: nat)
    requires ValidDate(today) && 1 <= today.year <= 9999 && i < 7
    ensures DailySpending(fs, Last7Days(today))[i].amount
      == Total(HistoryExpenses(fs, Some(Last7Dates(today)[i])))
  {
    WeekIsoDays(today);
    var day := Last7Dates(today)[i];
    var s := Last7Days(today)[i];
    assert s == IsoDate(day);
    forall k | 0 <= k < |fs| ensures (fs[k].date == s) == OnDay(fs[k], day) {
      CalendarOfIff(fs[k].date, day);
    }
    FilterCongruent(fs, (e: Expense) => e.date == s, (e: Expense) => OnDay(e, day));
  }
}
