# Expense tracker: aggregation views and session state

A Dafny model of the client-side logic of a two-user expense tracker (a
Next.js app over a hosted table store). The model covers:

- the statistics card: a scope filter (personal for one user, or joint), the
  per-category totals and the top three of them, the seven-day spending
  series ending today, the monthly total, and the bar heights of the trend
  chart;
- the filters and per-person totals of the dashboard, history and personal
  pages;
- the records the add forms hand to the store;
- the session state (logged-in user and cached expense list) and how each
  store call changes it;
- the edit form.

Amounts are whole cents (`int`). "Today" is a parameter. Each stored date
string is read as a calendar day by `Calendar.CalendarOf`, which is proved to
be the exact inverse of the ISO `YYYY-MM-DD` formatting of a day.

Modules, one per source file plus three shared ones:

| module | models |
|---|---|
| `Seqs` | `Option`, the order-preserving `filter`, the subsequence relation |
| `Calendar` | days, previous/next day, ISO formatting and parsing |
| `Records` | the expense record, the id-less draft, filter-then-sum totals |
| `ExpenseStats` | app/components/ExpenseStats.tsx |
| `AppContext` | app/context/AppContext.tsx (class `Session`) |
| `Dashboard` | app/dashboard/page.tsx |
| `History` | app/history/page.tsx |
| `PersonalSejuti` | app/personal/sejuti/page.tsx |
| `EditExpenseForm` | app/components/EditExpenseForm.tsx (class `EditForm`) |
| `Consistency` | lemmas relating the personal page to its statistics card, and the daily series to the history page |

The session is a class with `user` and `expenses` fields. Its methods take
the store's reply as a parameter: `Failed` covers both an error response and
a caught exception. Whether the store client was created at start-up is the
`clientReady` constant. The reduce that builds the category totals is a
method with a loop, proved against the function `CategoryTotals`.

What the views compute, in brief:

- The history page lists the records of one picked calendar day.
- The statistics card ranks the categories and keeps the three largest.
- The category totals take every record in scope, whatever its date. The
  date-based views drop records whose date does not parse.
- The card's `monthlyTotal` compares the month only, in any year. See
  Findings.

## Model

| member | source | states |
|---|---|---|
| `ExpenseStats.ScopeFilter` | app/components/ExpenseStats.tsx:22-27 | keeps exactly the personal records of the given user (personal mode) or the joint records (joint mode), each as often as in the input; records without a type are in neither; the result is a subsequence of the input |
| `ExpenseStats.Tally` | app/components/ExpenseStats.tsx:30-33 | one reduce step keeps every category in its place and adds the record's category at the end exactly when it was not there yet |
| `ExpenseStats.CategoryTotals` | app/components/ExpenseStats.tsx:30-33 | the reduce of all records has at most one entry per record |
| `ExpenseStats.BuildCategoryTotals` | app/components/ExpenseStats.tsx:30-33 | the reduce loop yields the category totals: one entry per category, each the sum of its records, all entries together summing to the total of the filtered records |
| `ExpenseStats.CategoryTotalsDistinct` | app/components/ExpenseStats.tsx:30-33 | no category appears twice among the totals |
| `ExpenseStats.CategoryTotalsKeys` | app/components/ExpenseStats.tsx:30-33 | a category has an entry iff some filtered record is in it |
| `ExpenseStats.CategoryTotalsSums` | app/components/ExpenseStats.tsx:30-33 | each entry's total is the sum of the amounts of the records in that category |
| `ExpenseStats.CategoryTotalsConserve` | app/components/ExpenseStats.tsx:30-33 | the category totals add up to the total of all filtered amounts |
| `ExpenseStats.InsertByTotal` | app/components/ExpenseStats.tsx:37 | inserting one entry adds exactly that entry to the multiset |
| `ExpenseStats.InsertByTotalDescending` | app/components/ExpenseStats.tsx:37 | inserting into a list sorted largest-first keeps it sorted |
| `ExpenseStats.SortByTotal` | app/components/ExpenseStats.tsx:36-37 | the sort is a permutation of the entries, sorted non-increasing by total |
| `ExpenseStats.TopCategories` | app/components/ExpenseStats.tsx:36-38 | the top list has min(3, number of categories) entries, each taken from the totals no more often than it occurs there |
| `ExpenseStats.TopCategoriesSpec` | app/components/ExpenseStats.tsx:36-38 | the top list is sorted largest first, names different categories when the totals do, and no entry left out has a larger total than an entry kept |
| `ExpenseStats.Last7Dates` | app/components/ExpenseStats.tsx:41-45 | seven real days, oldest first: place i holds the day 6 - i days before today, so the last one is today |
| `ExpenseStats.Last7DatesContiguous` | app/components/ExpenseStats.tsx:41-45 | each window day is followed by its next day, so the days are strictly increasing with no day left out |
| `ExpenseStats.WeekIsoDays` | app/components/ExpenseStats.tsx:41-44 | for a today in years 1-9999 every day of the window has a four-digit-year ISO form |
| `ExpenseStats.Last7Days` | app/components/ExpenseStats.tsx:41-45 | seven strings, each of which parses back to its window day |
| `ExpenseStats.Last7DaysSpec` | app/components/ExpenseStats.tsx:41-45 | the seven date strings are pairwise different and the last is today's ISO date |
| `ExpenseStats.DailySpending` | app/components/ExpenseStats.tsx:47-52 | one entry per window day, carrying that day's string |
| `ExpenseStats.DailySpendingSpec` | app/components/ExpenseStats.tsx:47-52 | a bucket's amount is the total of the records whose date string equals the day, and 0 when none does |
| `ExpenseStats.DailySpendingPartition` | app/components/ExpenseStats.tsx:47-52 | over distinct days the buckets together hold exactly the records dated on one of those days |
| `ExpenseStats.DailySpendingBound` | app/components/ExpenseStats.tsx:41-52 | with non-negative amounts, the seven buckets sum to between 0 and the total of the filtered records |
| `ExpenseStats.MonthOnlyCountsLastYear` | app/components/ExpenseStats.tsx:55-58 | a record from May 2023 is counted in the May 2024 total as written, and not in the corrected total |
| `ExpenseStats.MonthlyTotalDifference` | app/components/ExpenseStats.tsx:55-58 | the total as written is the corrected total plus the records of the same month in other years |
| `ExpenseStats.OtherYearsBound` | app/components/ExpenseStats.tsx:55-58 | those other-year records have a non-negative total, and a zero total when all of the month's records are of today's year |
| `ExpenseStats.MonthlyTotalAsWritten` | app/components/ExpenseStats.tsx:55-58 | the total as written lies between 0 and the total of the filtered records given non-negative amounts, and is 0 when no record is of today's month in any year |
| `ExpenseStats.MonthlyTotal` | app/components/ExpenseStats.tsx:55-58 | the corrected total (month and year) never exceeds the total as written, given non-negative amounts, and equals it when the month has records of today's year only |
| `ExpenseStats.MaxAmount` | app/components/ExpenseStats.tsx:100 | the maximum is an upper bound of every day's amount and is attained by some day |
| `ExpenseStats.BarHeight` | app/components/ExpenseStats.tsx:101 | a zero maximum gives height 0; an amount between 0 and a positive maximum gives a height in [0, 100] that is 100 iff the amount is the maximum |
| `ExpenseStats.BarHeights` | app/components/ExpenseStats.tsx:100-101 | one height per day |
| `ExpenseStats.BarHeightsZeroMax` | app/components/ExpenseStats.tsx:100-101 | a zero maximum gives every bar height 0 instead of a division by zero |
| `ExpenseStats.BarHeightsBounded` | app/components/ExpenseStats.tsx:100-101 | with non-negative amounts every height lies in [0, 100] and, when the maximum is positive, a height is 100 exactly on the days holding the maximum |
| `ExpenseStats.RatioBounds` | app/components/ExpenseStats.tsx:101 | amount/max*100 lies in [0, 100] and equals 100 iff amount equals max |
| `ExpenseStats.ComputeStats` | app/components/ExpenseStats.tsx:21-65 | the memoised result: top categories, daily series and the month-only monthly total of line 57, all of the scope-filtered records |
| `ExpenseStats.ComputeStatsCorrected` | app/components/ExpenseStats.tsx:21-65 | the same result with the monthly total restricted to today's year |
| `Calendar.NextDay` | app/components/ExpenseStats.tsx:43 | the next day of a real day is a real day, later, and no real day lies between the two |
| `Calendar.PrevDay` | app/components/ExpenseStats.tsx:43 | the previous day of a real day is a real day, earlier, and no real day lies between the two |
| `Calendar.NextPrevInverse` | app/components/ExpenseStats.tsx:43 | previous and next day undo each other |
| `Calendar.DaysBefore` | app/components/ExpenseStats.tsx:42-43 | k days back from a real day is a real day |
| `Calendar.DaysBeforeOrder` | app/components/ExpenseStats.tsx:43 | going more days back gives a strictly earlier day |
| `Calendar.DaysBeforeNearYear` | app/components/ExpenseStats.tsx:43 | up to 30 days back stays in the same year or late December of the previous one |
| `Calendar.DaysBeforeIsoDay` | app/components/ExpenseStats.tsx:43-44 | up to 30 days back from a date in years 1-9999 still has a four-digit year |
| `Calendar.PaddedValue` | app/components/ExpenseStats.tsx:44 | reading back a zero-padded number gives the number |
| `Calendar.IsoDate` | app/components/ExpenseStats.tsx:44 | the ISO form of a day with a four-digit year has ten characters |
| `Calendar.DigitsPadded` | app/components/ExpenseStats.tsx:57 | a digit string is the zero-padded form of its value |
| `Calendar.CalendarOf` | app/components/ExpenseStats.tsx:57 | a date string that parses yields a real day with a four-digit year |
| `Calendar.ParseIsoDate` | app/components/ExpenseStats.tsx:44 | parsing the ISO form of a day gives the day back |
| `Calendar.FormatParsed` | app/history/page.tsx:15 | a string that parses is the ISO form of the day it denotes |
| `Calendar.CalendarOfIff` | app/history/page.tsx:15-20 | a date string denotes day d iff it is the ISO form of d |
| `Calendar.IsoDateInjective` | app/components/ExpenseStats.tsx:44 | different days have different ISO strings |
| `Records.Stored` | app/context/AppContext.tsx:116 | the stored row carries the draft's fields under the store's id |
| `Records.Total` | app/dashboard/page.tsx:57-59 | non-negative amounts sum to a non-negative total |
| `Records.TotalSplit` | app/dashboard/page.tsx:57-63 | a total splits into the totals of a filter and of its negation |
| `Records.TotalFilterBound` | app/dashboard/page.tsx:57-63 | with non-negative amounts a filtered total lies between 0 and the whole total |
| `Records.NameTotal` | app/dashboard/page.tsx:57-63 | each per-name total lies between 0 and the total of the list, given non-negative amounts |
| `Records.NameTotalsPartition` | app/dashboard/page.tsx:57-63 | when every name is one of the two users, their totals add up to the total of the list |
| `Records.TotalFilterAppend` | app/context/AppContext.tsx:124 | appending a row adds its amount to each filtered total it passes |
| `AppContext.FindUser` | app/context/AppContext.tsx:93 | the lookup returns a listed credential matching both fields, or none when no listed credential matches |
| `AppContext.LoginAcceptsExactly` | app/context/AppContext.tsx:88-93 | login accepts exactly ("niloy", "seju") and ("sejuti", "nilui") |
| `AppContext.Replaced` | app/context/AppContext.tsx:145 | an update keeps length and ids; records with the id become the new record, all others stay in place; with no match nothing changes |
| `AppContext.ReplacedIdempotent` | app/context/AppContext.tsx:145 | applying the same update twice equals applying it once |
| `AppContext.Removed` | app/context/AppContext.tsx:165 | a delete keeps exactly the records with another id, each as often as before and in order; none with the id remains; with no match nothing changes |
| `AppContext.FilterAllKept` | app/context/AppContext.tsx:165 | a filter that every record passes keeps the list as it is |
| `AppContext.RemoveUndoesAdd` | app/context/AppContext.tsx:124-165 | deleting a row just appended under a fresh id gives back the previous list |
| `AppContext.ReplaceAfterAdd` | app/context/AppContext.tsx:124-145 | updating a row just appended under a fresh id changes only the last place |
| `AppContext.Session.constructor` | app/context/AppContext.tsx:57-58 | no user and an empty list at start |
| `AppContext.Session.FetchExpenses` | app/context/AppContext.tsx:67-85 | a successful fetch replaces the list with the data or [] for null; a missing client or a failure changes nothing; the user is untouched |
| `AppContext.Session.Login` | app/context/AppContext.tsx:87-101 | succeeds iff the pair is listed; then the user is set and the list fetched; otherwise false and nothing changes |
| `AppContext.Session.Logout` | app/context/AppContext.tsx:103-107 | no user and an empty list |
| `AppContext.Session.AddExpense` | app/context/AppContext.tsx:109-129 | on success the returned row is appended at the end; on a null result, a failure or a missing client nothing changes |
| `AppContext.Session.UpdateExpense` | app/context/AppContext.tsx:131-149 | on success every record with the id is replaced by the new record; otherwise nothing changes |
| `AppContext.Session.DeleteExpense` | app/context/AppContext.tsx:151-169 | on success the records with the id are removed; otherwise nothing changes |
| `Dashboard.CurrentMonthExpenses` | app/dashboard/page.tsx:52-55 | keeps exactly the records dated in today's month and year, each as often as in the input, as a subsequence of the input |
| `Dashboard.DashboardTotals` | app/dashboard/page.tsx:57-63 | each per-person total is the sum over the whole list of that person's records of this month |
| `Dashboard.DashboardTotalsBound` | app/dashboard/page.tsx:57-63 | with non-negative amounts each total is at most the month's total, and the two add up to it when all names are niloy or sejuti |
| `Dashboard.Submit` | app/dashboard/page.tsx:31-41 | the draft carries the user's name, the form's category and amount, no type and today's date; the form is cleared |
| `Dashboard.SubmittedShowsThisMonth` | app/dashboard/page.tsx:31-63 | once stored, the submitted record is the last of this month's records and adds its amount to the submitter's total only |
| `History.HistoryExpenses` | app/history/page.tsx:13-22 | empty without a picked day; otherwise exactly the records dated on the picked day, each as often as in the input, as a subsequence |
| `History.HistoryTotals` | app/history/page.tsx:13-30 | both totals are 0 without a picked day; with one, each is the sum over the whole list of that person's records of the picked day |
| `History.HistorySameDay` | app/history/page.tsx:14-21 | every listed record's year, month and day are the picked day's |
| `PersonalSejuti.PersonalExpenses` | app/personal/sejuti/page.tsx:39-44 | keeps exactly sejuti's personal records of today's month and year, each as often as in the input, as a subsequence |
| `PersonalSejuti.TotalPersonalExpense` | app/personal/sejuti/page.tsx:46-47 | the total is 0 when no record qualifies, and between 0 and the total of all records given non-negative amounts |
| `PersonalSejuti.Submit` | app/personal/sejuti/page.tsx:23-34 | the draft is always sejuti's, personal and dated today, with the form's category and amount; the form is cleared |
| `PersonalSejuti.SubmittedShowsOnPage` | app/personal/sejuti/page.tsx:23-47 | once stored, the submitted record is the newest listed and the total grows by its amount |
| `EditExpenseForm.Edited` | app/components/EditExpenseForm.tsx:27-32 | the saved record keeps id, name and type and takes category, amount and date from the form |
| `EditExpenseForm.EditedUntouched` | app/components/EditExpenseForm.tsx:21-32 | saving without edits writes back the record unchanged |
| `EditExpenseForm.EditedTwice` | app/components/EditExpenseForm.tsx:27-32 | a second edit overrides the first and keeps the identity |
| `EditExpenseForm.EditForm.constructor` | app/components/EditExpenseForm.tsx:21-23 | the inputs start out as the record's category, amount and date |
| `EditExpenseForm.EditForm.SetCategory` | app/components/EditExpenseForm.tsx:46 | changes the category input only |
| `EditExpenseForm.EditForm.SetAmount` | app/components/EditExpenseForm.tsx:59 | changes the amount input only |
| `EditExpenseForm.EditForm.SetDate` | app/components/EditExpenseForm.tsx:72 | changes the date input only |
| `EditExpenseForm.EditForm.Submit` | app/components/EditExpenseForm.tsx:25-34 | `onSave` gets the record with its id, name and type and the current inputs, and `onCancel` follows it |
| `Consistency.PersonalListInStatsScope` | app/personal/sejuti/page.tsx:39-60 | every record the personal page lists is kept by the card's personal filter for sejuti |
| `Consistency.PersonalTotalMatchesStats` | app/personal/sejuti/page.tsx:39-60 | the card's corrected monthly total equals the page's personal total |
| `Consistency.PersonalTotalsDisagreeAsWritten` | app/components/ExpenseStats.tsx:55-58 | as written, the card and the page show different totals for this month on a record from the same month of last year |
| `Consistency.DailyBucketIsHistoryDay` | app/components/ExpenseStats.tsx:47-52 | each daily bucket equals the history page's total for that calendar day |

## Left out

- The hosted store client (creation, queries, network): each store call is a parameter giving its reply. The `date` descending order of the fetched rows is the store's, and the model keeps whatever order it delivers.
- `localStorage` persistence of the user and its restore on load: browser I/O.
- Clock reading and time zones: "today" is one parameter, read once. The source reads the clock once per day of the window and again for the month, and that can straddle midnight. Local time and UTC coincide in the model; off UTC, `new Date("YYYY-MM-DD")` is UTC midnight and `getMonth()` can name the previous day's month.
- Date strings outside canonical `YYYY-MM-DD` (with a real day and a four-digit year) are treated as invalid dates. JavaScript engines differ on overflowing days such as `2024-02-30` and accept further formats.
- Floating point, `parseFloat`, `toString`, `toFixed(2)` and NaN amounts: amounts are exact integers and the amount inputs hold the number they parse to.
- Empty amount inputs: the browser's `required` check keeps an empty amount from being submitted, so `Dashboard.Submit` and `PersonalSejuti.Submit` require an amount.
- JavaScript object key quirks in the category totals: index-like category names ("42") are listed before the others in ascending numeric order, and names of `Object.prototype` members ("constructor", "__proto__") misbehave. The model treats every category as an ordinary key listed in first-insertion order.
- `ExpenseStats.SortByTotal`: stable by construction, since an entry is placed before the equal-total entries that come after it in the input. The model does not state stability as a lemma.
- `AppContext.Session.AddExpense`: an insert that succeeds with an empty returned array would append `undefined`. The reply carries either the row or null.
- Stale closures. The source computes the new list from the `expenses` value captured at render time, so concurrent store calls can overwrite each other's updates. The model computes each new list from the current field.
- The personal page opens the edit form without an `onSave` (app/personal/sejuti/page.tsx:140-143); the model of the form assumes the caller passes one, as the dashboard does with `updateExpense`.
- Routing, `window.confirm`, the login page, the navigation bar, the layout, and all rendering and styling.

## Findings

| source | as written | input that shows it | evidently intended | confidence | as-written member | corrected member |
|---|---|---|---|---|---|---|
| app/components/ExpenseStats.tsx:57 | the "Monthly Overview" total keeps records whose month equals the current month in any year | a joint record dated 2023-05-10 viewed on 2024-05-14 is counted by the joint card (500 instead of 0); likewise a personal record of sejuti with that date makes the card on her personal page show 500 while the page's own monthly total shows 0 | compare month and year, as app/dashboard/page.tsx:54 and app/personal/sejuti/page.tsx:42-43 do | medium, not executed | `ExpenseStats.MonthOnlyCountsLastYear` | `ExpenseStats.MonthlyTotal` |
