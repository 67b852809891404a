/** The statistics card of app/components/ExpenseStats.tsx: the scope filter,
    the per-category totals and the top three of them, the seven-day spending
    series ending today, the monthly total, and the bar heights of the trend
    chart. "Today" is a parameter. */
module ExpenseStats {
  import opened Seqs
  import opened Calendar
  import opened Records

  /** The component's `type` prop. */
  datatype Mode = PersonalMode | JointMode

  /** One `[category, amount]` entry of `Object.entries(categoryTotals)`. */
  datatype CategoryTotal = CategoryTotal(category: string, total: int)

  /** One `{ date, amount }` entry of `dailySpending`. */
  datatype DayTotal = DayTotal(date: string, amount: int)

  datatype Stats = Stats(
    topCategories: seq<CategoryTotal>,
    dailySpending: seq<DayTotal>,
    monthlyTotal: int)

  // ---- scope filter ----

  /** Personal mode keeps the user's own personal records; joint mode keeps
      joint records of anybody. A record without `type` is in neither, and
      in personal mode without a username nothing matches. */
  predicate InScope(e: Expense, mode: Mode, username: Option<string>)
  {
    match mode
    case PersonalMode => e.scope == Some(Personal) && username == Some(e.name)
    case JointMode => e.scope == Some(Joint)
  }

  function ScopeFilter(es: seq<Expense>, mode: Mode, username: Option<string>): (r: seq<Expense>)
    ensures forall e :: e in r <==> e in es && InScope(e, mode, username)
    ensures forall e :: multiset(r)[e] == if InScope(e, mode, username) then multiset(es)[e] else 0
    ensures IsSubsequence(r, es)
  {
    FilterExact(es, (e: Expense) => InScope(e, mode, username));
    Filter(es, (e: Expense) => InScope(e, mode, username))
  }

  // ---- category totals ----

  /** The sum of the amounts of the records in `category`. */
  function CategorySum(fs: seq<Expense>, category: string): int
  {
    Total(Filter(fs, (e: Expense) => e.category == category))
  }

  function SumOfTotals(entries: seq<CategoryTotal>): int
  {
    if entries == [] then 0 else entries[0].total + SumOfTotals(entries[1..])
  }

  predicate DistinctCategories(entries: seq<CategoryTotal>)
  {
    forall i, j :: 0 <= i < j < |entries| ==> entries[i].category != entries[j].category
  }

  /** The position of `category` among the entries, if it has one. */
  function Find(entries: seq<CategoryTotal>, category: string): (r: Option<nat>)
    ensures r.Some? ==> r.value < |entries| && entries[r.value].category == category
    ensures r.None? ==> forall i :: 0 <= i < |entries| ==> entries[i].category != category
  {
    if entries == [] then None
    else if entries[0].category == category then Some(0)
    else match Find(entries[1..], category)
      case Some(i) => Some(i + 1)
      case None => None
  }

  /** One step of the reduce: `acc[e.category] = (acc[e.category] || 0) + e.amount`.
      A known category keeps its place; a new one is added at the end, as a
      JavaScript object orders its string keys by first insertion. */
  function Tally(acc: seq<CategoryTotal>, e: Expense): (r: seq<CategoryTotal>)
    ensures |acc| <= |r| <= |acc| + 1
    ensures forall i :: 0 <= i < |acc| ==> r[i].category == acc[i].category
    ensures |r| == |acc| + 1 <==> Find(acc, e.category).None?
    ensures |r| == |acc| + 1 ==> r[|acc|].category == e.category
  {
    match Find(acc, e.category)
    case Some(i) => acc[i := CategoryTotal(e.category, acc[i].total + e.amount)]
    case None => acc + [CategoryTotal(e.category, e.amount)]
  }

  /** The accumulator after reducing over all of `fs`. */
  function CategoryTotals(fs: seq<Expense>): (r: seq<CategoryTotal>)
    ensures |r| <= |fs|
  {
    if fs == [] then [] else Tally(CategoryTotals(fs[..|fs| - 1]), fs[|fs| - 1])
  }

  /** The reduce of lines 30-33: a loop that updates the accumulator once per record. */
  method BuildCategoryTotals(fs: seq<Expense>) returns (acc: seq<CategoryTotal>)
    ensures acc == CategoryTotals(fs)
    ensures DistinctCategories(acc)
    ensures forall i :: 0 <= i < |acc| ==> acc[i].total == CategorySum(fs, acc[i].category)
    ensures SumOfTotals(acc) == Total(fs)
  {
    acc := [];
    var i := 0;
    while i < |fs|
      invariant 0 <= i <= |fs|
      invariant acc == CategoryTotals(fs[..i])
    {
      assert fs[..i + 1][..i] == fs[..i];
      acc := Tally(acc, fs[i]);
      i := i + 1;
    }
    assert fs[..|fs|] == fs;
    CategoryTotalsDistinct(fs);
    CategoryTotalsSums(fs);
    CategoryTotalsConserve(fs);
  }

  /** Each category appears once in the totals. */
  lemma {:induction false} CategoryTotalsDistinct(fs: seq<Expense>)
    ensures DistinctCategories(CategoryTotals(fs))
  {
    if fs != [] {
      CategoryTotalsDistinct(fs[..|fs| - 1]);
    }
  }

  /** One reduce step adds exactly the record's category to the keys. */
  lemma TallyKeys(acc: seq<CategoryTotal>, e: Expense, c: string)
    ensures (exists i :: 0 <= i < |Tally(acc, e)| && Tally(acc, e)[i].category == c)
        <==> (exists i :: 0 <= i < |acc| && acc[i].category == c) || e.category == c
  {
    var r := Tally(acc, e);
    match Find(acc, e.category)
    case Some(j) =>
      assert forall i :: 0 <= i < |r| ==> r[i].category == acc[i].category;
      if e.category == c {
        assert r[j].category == c;
      }
    case None =>
      assert r == acc + [CategoryTotal(e.category, e.amount)];
      if e.category == c {
        assert r[|acc|].category == c;
      }
      if exists i :: 0 <= i < |r| && r[i].category == c {
        var i :| 0 <= i < |r| && r[i].category == c;
        if i < |acc| {
          assert acc[i].category == c;
        }
      }
  }

  /** A category has an entry exactly when some record is in it. */
  lemma {:induction false} CategoryTotalsKeys(fs: seq<Expense>, c: string)
    ensures (exists i :: 0 <= i < |CategoryTotals(fs)| && CategoryTotals(fs)[i].category == c)
        <==> (exists k :: 0 <= k < |fs| && fs[k].category == c)
  {
    if fs != [] {
      var init, last := fs[..|fs| - 1], fs[|fs| - 1];
      CategoryTotalsKeys(init, c);
      TallyKeys(CategoryTotals(init), last, c);
      assert CategoryTotals(fs) == Tally(CategoryTotals(init), last);
      if last.category == c {
        assert fs[|fs| - 1].category == c;
      }
      if exists k :: 0 <= k < |fs| && fs[k].category == c {
        var k :| 0 <= k < |fs| && fs[k].category == c;
        if k < |init| {
          assert init[k] == fs[k];
        }
      }
      if exists k :: 0 <= k < |init| && init[k].category == c {
        var k :| 0 <= k < |init| && init[k].category == c;
        assert fs[k] == init[k];
      }
    }
  }

  /** Each entry holds the sum of the amounts of the records in its category. */
  lemma {:induction false} CategoryTotalsSums(fs: seq<Expense>)
    ensures forall i :: 0 <= i < |CategoryTotals(fs)| ==>
      CategoryTotals(fs)[i].total == CategorySum(fs, CategoryTotals(fs)[i].category)
  {
    if fs != [] {
      var init, last := fs[..|fs| - 1], fs[|fs| - 1];
      assert fs == init + [last];
      CategoryTotalsSums(init);
      CategoryTotalsDistinct(init);
      var acc := CategoryTotals(init);
      var r := CategoryTotals(fs);
      forall i | 0 <= i < |r| ensures r[i].total == CategorySum(fs, r[i].category) {
        var c := r[i].category;
        TotalFilterAppend(init, last, (e: Expense) => e.category == c);
        if i < |acc| {
          assert acc[i].category == c;
        }
        if c != last.category || i >= |acc| {
        } else {
          assert Find(acc, last.category) == Some(i);
        }
        match Find(acc, last.category)
        case Some(j) =>
        case None =>
          if i == |acc| {
            CategoryTotalsKeys(init, c);
            forall k | 0 <= k < |init| ensures init[k].category != c { }
            TotalOfNone(init, (e: Expense) => e.category == c);
          }
      }
    }
  }

  lemma {:induction false} SumOfTotalsAppend(s: seq<CategoryTotal>, x: CategoryTotal)
    ensures SumOfTotals(s + [x]) == SumOfTotals(s) + x.total
  {
    if s != [] {
      assert (s + [x])[1..] == s[1..] + [x];
      SumOfTotalsAppend(s[1..], x);
    }
  }

  lemma {:induction false} SumOfTotalsUpdate(s: seq<CategoryTotal>, i: nat, x: CategoryTotal)
    requires i < |s|
    ensures SumOfTotals(s[i := x]) == SumOfTotals(s) - s[i].total + x.total
  {
    if i > 0 {
      assert s[i := x][1..] == s[1..][i - 1 := x];
      SumOfTotalsUpdate(s[1..], i - 1, x);
    }
  }

  /** The category totals together add up to the total of all records. */
  lemma {:induction false} CategoryTotalsConserve(fs: seq<Expense>)
    ensures SumOfTotals(CategoryTotals(fs)) == Total(fs)
  {
    if fs != [] {
      var init, last := fs[..|fs| - 1], fs[|fs| - 1];
      assert fs == init + [last];
      CategoryTotalsConserve(init);
      TotalAppend(init, [last]);
      var acc := CategoryTotals(init);
      match Find(acc, last.category)
      case Some(i) =>
        SumOfTotalsUpdate(acc, i, CategoryTotal(last.category, acc[i].total + last.amount));
      case None =>
        SumOfTotalsAppend(acc, CategoryTotal(last.category, last.amount));
    }
  }

  // ---- top three ----

  predicate Descending(s: seq<CategoryTotal>)
  {
    forall i, j :: 0 <= i < j < |s| ==> s[i].total >= s[j].total
  }

  /** Places `x` before the first entry whose total is not larger, so that
      among equal totals the earlier entry stays first (a stable sort). */
  function InsertByTotal(x: CategoryTotal, s: seq<CategoryTotal>): (r: seq<CategoryTotal>)
    ensures multiset(r) == multiset(s) + multiset{x}
  {
    if s == [] then [x]
    else if x.total >= s[0].total then [x] + s
    else
      assert s == [s[0]] + s[1..];
      [s[0]] + InsertByTotal(x, s[1..])
  }

  lemma {:induction false} InsertByTotalDescending(x: CategoryTotal, s: seq<CategoryTotal>)
    requires Descending(s)
    ensures Descending(InsertByTotal(x, s))
  {
    if s != [] && x.total < s[0].total {
      var rest := InsertByTotal(x, s[1..]);
      InsertByTotalDescending(x, s[1..]);
      forall k | 0 <= k < |rest| ensures rest[k].total <= s[0].total {
        assert rest[k] in multiset(rest);
        if rest[k] != x {
          assert rest[k] in multiset(s[1..]);
          var j :| 0 <= j < |s[1..]| && s[1..][j] == rest[k];
          assert s[j + 1] == rest[k];
        }
      }
      assert InsertByTotal(x, s) == [s[0]] + rest;
    }
  }

  /** `.sort(([, a], [, b]) => b - a)`: stable, by total, largest first. */
  function SortByTotal(s: seq<CategoryTotal>): (r: seq<CategoryTotal>)
    ensures Descending(r)
    ensures multiset(r) == multiset(s)
  {
    if s == [] then []
    else
      assert s == [s[0]] + s[1..];
      InsertByTotalDescending(s[0], SortByTotal(s[1..]));
      InsertByTotal(s[0], SortByTotal(s[1..]))
  }

  /** `.slice(0, 3)` of the sorted entries: at most three entries (fewer
      only when there are fewer categories), each taken from the totals no
      more often than it occurs there. */
  function TopCategories(entries: seq<CategoryTotal>): (r: seq<CategoryTotal>)
    ensures |r| == (if |entries| < 3 then |entries| else 3)
    ensures multiset(r) <= multiset(entries)
  {
    var sorted := SortByTotal(entries);
    assert |sorted| == |multiset(sorted)| == |multiset(entries)| == |entries|;
    var n := if |sorted| < 3 then |sorted| else 3;
    assert sorted == sorted[..n] + sorted[n..];
    assert multiset(sorted) == multiset(sorted[..n]) + multiset(sorted[n..]);
    sorted[..n]
  }

  /** The top list is sorted by total, largest first; it names different
      categories when the totals do; and every total left out is no larger
      than any kept. */
  lemma TopCategoriesSpec(entries: seq<CategoryTotal>)
    ensures var r := TopCategories(entries);
      && Descending(r)
      && (DistinctCategories(entries) ==> DistinctCategories(r))
      && (forall x :: x in entries && x !in r ==> forall i :: 0 <= i < |r| ==> x.total <= r[i].total)
  {
    var sorted := SortByTotal(entries);
    var r := TopCategories(entries);
    assert |sorted| == |multiset(sorted)| == |multiset(entries)| == |entries|;
    if DistinctCategories(entries) {
      forall i, j | 0 <= i < j < |r| ensures r[i].category != r[j].category {
        TopDistinctPair(entries, r, i, j);
      }
    }
    forall x | x in entries && x !in r ensures forall i :: 0 <= i < |r| ==> x.total <= r[i].total {
      assert x in multiset(sorted);
      var j :| 0 <= j < |sorted| && sorted[j] == x;
      assert j >= |r|;
    }
  }

  /** Two places of a list drawn from category-distinct totals, no entry
      more often than it occurs there, name different categories. */
  lemma TopDistinctPair(entries: seq<CategoryTotal>, r: seq<CategoryTotal>, i: nat, j: nat)
    requires DistinctCategories(entries) && multiset(r) <= multiset(entries)
    requires i < j < |r|
    ensures r[i].category != r[j].category
  {
    if r[i].category == r[j].category {
      assert r[i] in multiset(r) && r[j] in multiset(r);
      var a :| 0 <= a < |entries| && entries[a] == r[i];
      var b :| 0 <= b < |entries| && entries[b] == r[j];
      assert a == b;
      TwiceInMultiset(r, i, j);
      assert Distinct(entries);
      DistinctMultiset(entries, r[i]);
    }
  }

  // ---- daily spending ----

  /** Lines 41-45: today minus i days for i = 0..6, then reversed. */
  function Last7Dates(today: Date): (r: seq<Date>)
    requires ValidDate(today)
    ensures |r| == 7 && r[6] == today
    ensures forall i :: 0 <= i < 7 ==> ValidDate(r[i]) && r[i] == DaysBefore(today, 6 - i)
  {
    Reverse(seq(7, i requires 0 <= i < 7 => DaysBefore(today, i)))
  }

  /** Exactly seven consecutive days, oldest first, ending today. */
  lemma Last7DatesContiguous(today: Date)
    requires ValidDate(today)
    ensures var r := Last7Dates(today);
      && (forall i :: 0 <= i < 6 ==> ValidDate(r[i]) && NextDay(r[i]) == r[i + 1])
      && (forall i, j :: 0 <= i < j < 7 ==> Before(r[i], r[j]))
  {
    var r := Last7Dates(today);
    forall i | 0 <= i < 6 ensures ValidDate(r[i]) && NextDay(r[i]) == r[i + 1] {
      Last7Step(today, i);
    }
    forall i, j | 0 <= i < j < 7 ensures Before(r[i], r[j]) {
      DaysBeforeOrder(today, 6 - j, 6 - i);
    }
  }

  lemma Last7Step(today: Date, i: nat)
    requires ValidDate(today) && i < 6
    ensures NextDay(Last7Dates(today)[i]) == Last7Dates(today)[i + 1]
  {
    var next := DaysBefore(today, 5 - i);
    assert Last7Dates(today)[i] == PrevDay(next);
    NextPrevInverse(next);
  }

  /** Every day of the window of a date in years 1-9999 has an ISO form. */
  lemma WeekIsoDays(today: Date)
    requires ValidDate(today) && 1 <= today.year <= 9999
    ensures forall i :: 0 <= i < |Last7Dates(today)| ==> IsoDay(Last7Dates(today)[i])
  {
    forall i | 0 <= i < 7 ensures IsoDay(Last7Dates(today)[i]) {
      DaysBeforeIsoDay(today, 6 - i);
    }
  }

  /** `last7Days`: the ISO strings of the window. */
  function Last7Days(today: Date): (r: seq<string>)
    requires ValidDate(today) && 1 <= today.year <= 9999
    ensures |r| == 7
    ensures forall i :: 0 <= i < 7 ==> CalendarOf(r[i]) == Some(Last7Dates(today)[i])
  {
    WeekIsoDays(today);
    var dates := Last7Dates(today);
    assert forall i :: 0 <= i < 7 ==> CalendarOf(IsoDate(dates[i])) == Some(dates[i]) by {
      forall i | 0 <= i < 7 ensures CalendarOf(IsoDate(dates[i])) == Some(dates[i]) {
        ParseIsoDate(dates[i]);
      }
    }
    seq(7, i requires 0 <= i < 7 => IsoDate(dates[i]))
  }

  /** The window's strings are seven different days, the last one today's. */
  lemma Last7DaysSpec(today: Date)
    requires ValidDate(today) && 1 <= today.year <= 9999
    ensures Last7Days(today)[6] == IsoDate(today)
    ensures Distinct(Last7Days(today))
  {
    var dates := Last7Dates(today);
    Last7DatesContiguous(today);
    WeekIsoDays(today);
    forall i, j | 0 <= i < j < 7 ensures Last7Days(today)[i] != Last7Days(today)[j] {
      IsoDateInjective(dates[i], dates[j]);
    }
  }

  /** The records whose date string is exactly `day`. */
  function OnDateString(fs: seq<Expense>, day: string): seq<Expense>
  {
    Filter(fs, (e: Expense) => e.date == day)
  }

  /** Lines 47-52: for each day, the sum of the records dated that day. */
  function DailySpending(fs: seq<Expense>, days: seq<string>): (r: seq<DayTotal>)
    ensures |r| == |days|
    ensures forall i :: 0 <= i < |r| ==> r[i].date == days[i]
  {
    seq(|days|, i requires 0 <= i < |days| => DayTotal(days[i], Total(OnDateString(fs, days[i]))))
  }

  /** A day nobody spent on shows 0; one bucket is exactly that day's records. */
  lemma DailySpendingSpec(fs: seq<Expense>, days: seq<string>, i: nat)
    requires i < |days|
    ensures DailySpending(fs, days)[i].amount == Total(OnDateString(fs, days[i]))
    ensures (forall k :: 0 <= k < |fs| ==> fs[k].date != days[i]) ==> DailySpending(fs, days)[i].amount == 0
  {
    if forall k :: 0 <= k < |fs| ==> fs[k].date != days[i] {
      TotalOfNone(fs, (e: Expense) => e.date == days[i]);
    }
  }

  function SumOfDays(ds: seq<DayTotal>): int
  {
    if ds == [] then 0 else SumOfDays(ds[..|ds| - 1]) + ds[|ds| - 1].amount
  }

  /** Over distinct days, the buckets together hold exactly the records dated
      on one of those days. */
  lemma {:induction false} DailySpendingPartition(fs: seq<Expense>, days: seq<string>)
    requires Distinct(days)
    ensures SumOfDays(DailySpending(fs, days)) == Total(Filter(fs, (e: Expense) => e.date in days))
  {
    if days == [] {
      TotalOfNone(fs, (e: Expense) => e.date in days);
    } else {
      var init, last := days[..|days| - 1], days[|days| - 1];
      var inDays := (e: Expense) => e.date in days;
      var inInit := (e: Expense) => e.date in init;
      var isLast := (e: Expense) => e.date == last;
      var notLast := (e: Expense) => !isLast(e);
      assert Distinct(init);
      DailySpendingPartition(fs, init);
      assert DailySpending(fs, days)[..|days| - 1] == DailySpending(fs, init);
      TotalSplit(Filter(fs, inDays), isLast);
      assert days == init + [last];
      FilterCompose(fs, inDays, isLast, isLast);
      assert last !in init;
      FilterCompose(fs, inDays, notLast, inInit);
    }
  }

  /** With non-negative amounts, the seven bars never show more than the total. */
  lemma DailySpendingBound(fs: seq<Expense>, today: Date)
    requires ValidDate(today) && 1 <= today.year <= 9999
    requires NonNegative(fs)
    ensures 0 <= SumOfDays(DailySpending(fs, Last7Days(today))) <= Total(fs)
  {
    Last7DaysSpec(today);
    var days := Last7Days(today);
    DailySpendingPartition(fs, days);
    TotalFilterBound(fs, (e: Expense) => e.date in days);
  }

  // ---- monthly total ----

  /** Line 57 as written: the record's month equals today's, in any year. */
  predicate SameMonthAnyYear(e: Expense, today: Date)
  {
    var c := CalendarOf(e.date);
    c.Some? && c.value.month == today.month
  }

  /** `monthlyTotal` as written in lines 55-58: with non-negative amounts
      it lies between 0 and the total of the filtered records, and it is 0
      when no record is dated in today's month of any year. */
  function MonthlyTotalAsWritten(fs: seq<Expense>, today: Date): (r: int)
    ensures NonNegative(fs) ==> 0 <= r <= Total(fs)
    ensures (forall i :: 0 <= i < |fs| ==> !SameMonthAnyYear(fs[i], today)) ==> r == 0
  {
    var anyYear := (e: Expense) => SameMonthAnyYear(e, today);
    assert NonNegative(fs) ==> 0 <= Total(Filter(fs, anyYear)) <= Total(fs) by {
      if NonNegative(fs) {
        TotalFilterBound(fs, anyYear);
      }
    }
    assert (forall i :: 0 <= i < |fs| ==> !SameMonthAnyYear(fs[i], today)) ==> Total(Filter(fs, anyYear)) == 0 by {
      if forall i :: 0 <= i < |fs| ==> !SameMonthAnyYear(fs[i], today) {
        TotalOfNone(fs, anyYear);
      }
    }
    Total(Filter(fs, anyYear))
  }

  /** The monthly total the card labels with the current month: records
      dated in today's month of today's year. */
  function MonthlyTotal(fs: seq<Expense>, today: Date): (r: int)
    ensures NonNegative(fs) ==> 0 <= r <= MonthlyTotalAsWritten(fs, today)
    ensures (forall i :: 0 <= i < |fs| ==> !SameMonthAnyYear(fs[i], today) || InMonthOf(fs[i], today))
      ==> r == MonthlyTotalAsWritten(fs, today)
  {
    MonthlyTotalDifference(fs, today);
    OtherYearsBound(fs, today);
    Total(Filter(fs, (e: Expense) => InMonthOf(e, today)))
  }

  /** The records of today's month in other years have a non-negative
      total when amounts are non-negative, and a zero total when every
      record of today's month is of today's year. */
  lemma OtherYearsBound(fs: seq<Expense>, today: Date)
    ensures var other := Filter(fs, (e: Expense) => SameMonthAnyYear(e, today) && !InMonthOf(e, today));
      && (NonNegative(fs) ==> Total(other) >= 0 && Total(Filter(fs, (e: Expense) => InMonthOf(e, today))) >= 0)
      && ((forall i :: 0 <= i < |fs| ==> !SameMonthAnyYear(fs[i], today) || InMonthOf(fs[i], today))
          ==> Total(other) == 0)
  {
    var p := (e: Expense) => SameMonthAnyYear(e, today) && !InMonthOf(e, today);
    if NonNegative(fs) {
      TotalFilterBound(fs, p);
      TotalFilterBound(fs, (e: Expense) => InMonthOf(e, today));
    }
    if forall i :: 0 <= i < |fs| ==> !SameMonthAnyYear(fs[i], today) || InMonthOf(fs[i], today) {
      TotalOfNone(fs, p);
    }
  }

  /** An input on which the two disagree: a joint expense from May 2023 is
      counted in the May 2024 overview by the code as written. */
  lemma MonthOnlyCountsLastYear()
    ensures var fs := [Expense("1", "niloy", "food", IsoDate(Date(2023, 5, 10)), 500, Some(Joint))];
      MonthlyTotalAsWritten(fs, Date(2024, 5, 14)) == 500 && MonthlyTotal(fs, Date(2024, 5, 14)) == 0
  {
    var day, today := Date(2023, 5, 10), Date(2024, 5, 14);
    var e := Expense("1", "niloy", "food", IsoDate(day), 500, Some(Joint));
    ParseIsoDate(day);
    assert CalendarOf(e.date) == Some(day);
    assert SameMonthAnyYear(e, today) && !InMonthOf(e, today);
    var anyYear := (x: Expense) => SameMonthAnyYear(x, today);
    var thisYear := (x: Expense) => InMonthOf(x, today);
    assert Filter([e], anyYear) == [e];
    assert Filter([e], thisYear) == [];
  }

  /** The two agree exactly when no record from another year's same month is
      present; in general the corrected total is the as-written one minus
      those records. */
  lemma MonthlyTotalDifference(fs: seq<Expense>, today: Date)
    ensures MonthlyTotalAsWritten(fs, today) == Total(Filter(fs, (e: Expense) => InMonthOf(e, today)))
      + Total(Filter(fs, (e: Expense) => SameMonthAnyYear(e, today) && !InMonthOf(e, today)))
  {
    var anyYear := (e: Expense) => SameMonthAnyYear(e, today);
    var thisYear := (e: Expense) => InMonthOf(e, today);
    var other := (e: Expense) => SameMonthAnyYear(e, today) && !InMonthOf(e, today);
    var notThisYear := (e: Expense) => !thisYear(e);
    TotalSplit(Filter(fs, anyYear), thisYear);
    FilterCompose(fs, anyYear, thisYear, thisYear);
    FilterCompose(fs, anyYear, notThisYear, other);
  }

  // ---- bar heights ----

  /** `Math.max(...dailySpending.map(d => d.amount))`. */
  function MaxAmount(ds: seq<DayTotal>): (m: int)
    requires |ds| > 0
    ensures forall i :: 0 <= i < |ds| ==> ds[i].amount <= m
    ensures exists i :: 0 <= i < |ds| && ds[i].amount == m
  {
    if |ds| == 1 then ds[0].amount
    else
      var rest := MaxAmount(ds[1..]);
      assert forall i :: 1 <= i < |ds| ==> ds[i] == ds[1..][i - 1];
      if ds[0].amount >= rest then ds[0].amount else rest
  }

  /** Line 101: `maxAmount ? (day.amount / maxAmount) * 100 : 0`. */
  function BarHeight(amount: int, maxAmount: int): (h: real)
    ensures maxAmount == 0 ==> h == 0.0
    ensures 0 <= amount <= maxAmount && maxAmount > 0 ==>
      0.0 <= h <= 100.0 && (h == 100.0 <==> amount == maxAmount)
  {
    if maxAmount == 0 then 0.0
    else
      var h := (amount as real / maxAmount as real) * 100.0;
      assert 0 <= amount <= maxAmount ==> (0.0 <= h <= 100.0 && (h == 100.0 <==> amount == maxAmount)) by {
        if 0 <= amount <= maxAmount {
          RatioBounds(amount, maxAmount);
        }
      }
      h
  }

  function BarHeights(ds: seq<DayTotal>): (h: seq<real>)
    ensures |h| == |ds|
  {
    if ds == [] then []
    else seq(|ds|, i requires 0 <= i < |ds| => BarHeight(ds[i].amount, MaxAmount(ds)))
  }

  /** A week without spending draws flat bars instead of dividing by zero. */
  lemma BarHeightsZeroMax(ds: seq<DayTotal>)
    requires |ds| > 0 && MaxAmount(ds) == 0
    ensures forall i :: 0 <= i < |ds| ==> BarHeights(ds)[i] == 0.0
  {
  }

  /** With non-negative amounts every bar is between 0% and 100% and, when
      there was spending, a bar is full exactly on the busiest days. */
  lemma BarHeightsBounded(ds: seq<DayTotal>)
    requires |ds| > 0
    requires forall i :: 0 <= i < |ds| ==> ds[i].amount >= 0
    ensures forall i :: 0 <= i < |ds| ==> 0.0 <= BarHeights(ds)[i] <= 100.0
    ensures MaxAmount(ds) > 0 ==>
      forall i :: 0 <= i < |ds| ==> (BarHeights(ds)[i] == 100.0 <==> ds[i].amount == MaxAmount(ds))
  {
    var m := MaxAmount(ds);
    forall i | 0 <= i < |ds|
      ensures 0.0 <= BarHeights(ds)[i] <= 100.0
      ensures m > 0 ==> (BarHeights(ds)[i] == 100.0 <==> ds[i].amount == m)
    {
      if m > 0 {
        RatioBounds(ds[i].amount, m);
      }
    }
  }

  lemma RatioBounds(a: int, m: int)
    requires 0 <= a <= m && m > 0
    ensures 0.0 <= (a as real / m as real) * 100.0 <= 100.0
    ensures (a as real / m as real) * 100.0 == 100.0 <==> a == m
  {
    var q := a as real / m as real;
    assert q * (m as real) == a as real;
    if q * 100.0 == 100.0 {
      assert q == 1.0;
    }
  }

  // ---- the memoised computation ----

  /** The `useMemo` body of lines 21-65, with line 57's month-only total as
      the card computes it. */
  method ComputeStats(expenses: seq<Expense>, mode: Mode, username: Option<string>, today: Date)
    returns (stats: Stats)
    requires ValidDate(today) && 1 <= today.year <= 9999
    ensures var fs := ScopeFilter(expenses, mode, username);
      && stats.topCategories == TopCategories(CategoryTotals(fs))
      && stats.dailySpending == DailySpending(fs, Last7Days(today))
      && stats.monthlyTotal == MonthlyTotalAsWritten(fs, today)
  {
    var filtered := ScopeFilter(expenses, mode, username);
    var totals := BuildCategoryTotals(filtered);
    var top := TopCategories(totals);
    var daily := DailySpending(filtered, Last7Days(today));
    stats := Stats(top, daily, MonthlyTotalAsWritten(filtered, today));
  }

  /** The same computation with the monthly total restricted to today's year,
      as the dashboard and the personal page compute theirs. */
  method ComputeStatsCorrected(expenses: seq<Expense>, mode: Mode, username: Option<string>, today: Date)
    returns (stats: Stats)
    requires ValidDate(today) && 1 <= today.year <= 9999
    ensures var fs := ScopeFilter(expenses, mode, username);
      && stats.topCategories == TopCategories(CategoryTotals(fs))
      && stats.dailySpending == DailySpending(fs, Last7Days(today))
      && stats.monthlyTotal == MonthlyTotal(fs, today)
  {
    stats := ComputeStats(expenses, mode, username, today);
    stats := stats.(monthlyTotal := MonthlyTotal(ScopeFilter(expenses, mode, username), today));
  }
}
