/** The expense record shared by every page, the record a form submits before
    the store has given it an id, and the filter-then-sum totals the pages
    display. Amounts are whole cents. */
module Records {
  import opened Seqs
  import opened Calendar

  /** The optional `type` column of a record. */
  datatype Scope = Personal | Joint

  datatype Expense = Expense(
    id: string,
    name: string,
    category: string,
    date: string,
    amount: int,
    scope: Option<Scope>)

  /** `Omit<Expense, "id">`: what a form hands to `addExpense`. */
  datatype Draft = Draft(
    name: string,
    category: string,
    date: string,
    amount: int,
    scope: Option<Scope>)

  /** The row the store would write for `draft` under the id it assigns. */
  function Stored(draft: Draft, id: string): (e: Expense)
    ensures e.id == id && e.name == draft.name && e.category == draft.category
    ensures e.date == draft.date && e.amount == draft.amount && e.scope == draft.scope
  {
    Expense(id, draft.name, draft.category, draft.date, draft.amount, draft.scope)
  }

  predicate NonNegative(es: seq<Expense>)
  {
    forall i :: 0 <= i < |es| ==> es[i].amount >= 0
  }

  /** `es.reduce((sum, e) => sum + e.amount, 0)`; non-negative amounts
      give a non-negative total. */
  function Total(es: seq<Expense>): (r: int)
    ensures NonNegative(es) ==> r >= 0
  {
    if es == [] then 0 else es[0].amount + Total(es[1..])
  }

  /** The record's date falls in the calendar month and year of `day`. */
  predicate InMonthOf(e: Expense, day: Date)
  {
    var c := CalendarOf(e.date);
    c.Some? && c.value.year == day.year && c.value.month == day.month
  }

  /** The record's date is the calendar day `day`. */
  predicate OnDay(e: Expense, day: Date)
  {
    CalendarOf(e.date) == Some(day)
  }

  /** Filter by `name`, then sum: the per-person totals of the pages. Given
      non-negative amounts, each lies between 0 and the total of the list. */
  function NameTotal(es: seq<Expense>, name: string): (r: int)
    ensures NonNegative(es) ==> 0 <= r <= Total(es)
  {
    var byName := (e: Expense) => e.name == name;
    assert NonNegative(es) ==> 0 <= Total(Filter(es, byName)) <= Total(es) by {
      if NonNegative(es) {
        TotalFilterBound(es, byName);
      }
    }
    Total(Filter(es, byName))
  }

  /** The two per-person totals the dashboard and history pages display. */
  datatype PersonTotals = PersonTotals(niloy: int, sejuti: int)

  function TotalsByPerson(es: seq<Expense>): PersonTotals
  {
    PersonTotals(NameTotal(es, "niloy"), NameTotal(es, "sejuti"))
  }

  /** The category and amount inputs of an add-expense form. An empty amount
      input is None; the input is `required`, so the browser submits the form
      only with an amount. */
  datatype EntryForm = EntryForm(category: string, amount: Option<int>)

  /** `setCategory('')` and `setAmount('')` after a submit. */
  const ClearedForm: EntryForm := EntryForm("", None)

  lemma {:induction false} TotalAppend(a: seq<Expense>, b: seq<Expense>)
    ensures Total(a + b) == Total(a) + Total(b)
  {
    if a == [] {
      assert a + b == b;
    } else {
      assert (a + b)[1..] == a[1..] + b;
      TotalAppend(a[1..], b);
    }
  }

  /** Splitting by a predicate and its negation conserves the total. */
  lemma {:induction false} TotalSplit(es: seq<Expense>, p: Expense -> bool)
    ensures Total(Filter(es, p)) + Total(Filter(es, (e: Expense) => !p(e))) == Total(es)
  {
    if es != [] {
      var notP := (e: Expense) => !p(e);
      TotalSplit(es[1..], p);
      var h := if p(es[0]) then [es[0]] else [];
      var g := if notP(es[0]) then [es[0]] else [];
      TotalAppend(h, Filter(es[1..], p));
      TotalAppend(g, Filter(es[1..], notP));
    }
  }

  /** With non-negative amounts a filtered total is at most the whole total. */
  lemma TotalFilterBound(es: seq<Expense>, p: Expense -> bool)
    requires NonNegative(es)
    ensures 0 <= Total(Filter(es, p)) <= Total(es)
  {
    var notP := (e: Expense) => !p(e);
    TotalSplit(es, p);
    FilterSubsetNonNegative(es, p);
    FilterSubsetNonNegative(es, notP);
  }

  lemma FilterSubsetNonNegative(es: seq<Expense>, p: Expense -> bool)
    requires NonNegative(es)
    ensures NonNegative(Filter(es, p))
  {
    var r := Filter(es, p);
    forall i | 0 <= i < |r| ensures r[i].amount >= 0 {
      FilterMembership(es, p, r[i]);
    }
  }

  /** A filter nothing passes sums to 0. */
  lemma TotalOfNone(es: seq<Expense>, p: Expense -> bool)
    requires forall i :: 0 <= i < |es| ==> !p(es[i])
    ensures Total(Filter(es, p)) == 0
  {
    FilterNone(es, p);
  }

  /** When everybody in the list is one of the two users, their totals add up
      to the total of the list. */
  lemma NameTotalsPartition(es: seq<Expense>, a: string, b: string)
    requires a != b
    requires forall i :: 0 <= i < |es| ==> es[i].name == a || es[i].name == b
    ensures NameTotal(es, a) + NameTotal(es, b) == Total(es)
  {
    var isA := (e: Expense) => e.name == a;
    var isB := (e: Expense) => e.name == b;
    var notA := (e: Expense) => !isA(e);
    TotalSplit(es, isA);
    FilterCongruent(es, notA, isB);
  }

  /** Appending a row adds its amount to every filtered total it passes. */
  lemma TotalFilterAppend(es: seq<Expense>, row: Expense, p: Expense -> bool)
    ensures Total(Filter(es + [row], p)) == Total(Filter(es, p)) + (if p(row) then row.amount else 0)
  {
    FilterAppend(es, [row], p);
    TotalAppend(Filter(es, p), Filter([row], p));
    assert Filter([row], p) == if p(row) then [row] else [];
  }
}
