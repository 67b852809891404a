/** Calendar dates as the app uses them: a day is a (year, month, day) triple
    in the proleptic Gregorian calendar, and the string form stored with each
    expense is the ISO `YYYY-MM-DD` that `toISOString().split('T')[0]`
    produces. Months are numbered 1..12 here; JavaScript's `getMonth()` is
    zero-based, which does not matter because the app only compares months
    for equality. */
module Calendar {
  import opened Seqs

  datatype Date = Date(year: int, month: int, day: int)

  predicate IsLeapYear(y: int)
  {
    (y % 4 == 0 && y % 100 != 0) || y % 400 == 0
  }

  function DaysInMonth(y: int, m: int): (n: int)
    requires 1 <= m <= 12
    ensures 28 <= n <= 31
    ensures m == 12 ==> n == 31
    ensures m == 1 ==> n == 31
  {
    if m == 2 then (if IsLeapYear(y) then 29 else 28)
    else if m == 4 || m == 6 || m == 9 || m == 11 then 30
    else 31
  }

  /** A real calendar day. */
  predicate ValidDate(d: Date)
  {
    1 <= d.month <= 12 && 1 <= d.day <= DaysInMonth(d.year, d.month)
  }

  /** A real day whose ISO form has a four-digit year. */
  predicate IsoDay(d: Date)
  {
    ValidDate(d) && 0 <= d.year <= 9999
  }

  /** Strict chronological order. */
  predicate Before(a: Date, b: Date)
  {
    a.year < b.year
    || (a.year == b.year && a.month < b.month)
    || (a.year == b.year && a.month == b.month && a.day < b.day)
  }

  /** The following day: what `setDate(getDate() + 1)` yields. */
  function NextDay(d: Date): (r: Date)
    requires ValidDate(d)
    ensures ValidDate(r) && Before(d, r)
    ensures forall x :: ValidDate(x) ==> !(Before(d, x) && Before(x, r))
  {
    if d.day < DaysInMonth(d.year, d.month) then Date(d.year, d.month, d.day + 1)
    else if d.month < 12 then Date(d.year, d.month + 1, 1)
    else Date(d.year + 1, 1, 1)
  }

  /** The preceding day: what `setDate(getDate() - 1)` yields. */
  function PrevDay(d: Date): (r: Date)
    requires ValidDate(d)
    ensures ValidDate(r) && Before(r, d)
    ensures forall x :: ValidDate(x) ==> !(Before(r, x) && Before(x, d))
  {
    if d.day > 1 then Date(d.year, d.month, d.day - 1)
    else if d.month > 1 then Date(d.year, d.month - 1, DaysInMonth(d.year, d.month - 1))
    else Date(d.year - 1, 12, 31)
  }

  /** NextDay and PrevDay undo each other on real days. */
  lemma NextPrevInverse(d: Date)
    requires ValidDate(d)
    ensures NextDay(PrevDay(d)) == d
    ensures PrevDay(NextDay(d)) == d
  {
  }

  /** `date.setDate(date.getDate() - k)`: the day `k` days before `d`. */
  function DaysBefore(d: Date, k: nat): (r: Date)
    requires ValidDate(d)
    ensures ValidDate(r)
  {
    if k == 0 then d else PrevDay(DaysBefore(d, k - 1))
  }

  /** Going further back gives a strictly earlier day. */
  lemma {:induction false} DaysBeforeOrder(d: Date, j: nat, k: nat)
    requires ValidDate(d) && j < k
    ensures Before(DaysBefore(d, k), DaysBefore(d, j))
  {
    if k == j + 1 {
    } else {
      DaysBeforeOrder(d, j, k - 1);
    }
  }

  /** Within a month of `d`, the day `k` days back is in the same year or in
      the last days of December of the year before. */
  lemma {:induction false} DaysBeforeNearYear(d: Date, k: nat)
    requires ValidDate(d) && k <= 30
    ensures var r := DaysBefore(d, k);
      r.year == d.year || (r.year == d.year - 1 && r.month == 12 && r.day >= 32 - k)
  {
    if k > 0 {
      DaysBeforeNearYear(d, k - 1);
    }
  }

  /** A week back from a day of year 1..9999 still has a four-digit year. */
  lemma DaysBeforeIsoDay(d: Date, k: nat)
    requires ValidDate(d) && 1 <= d.year <= 9999 && k <= 30
    ensures IsoDay(DaysBefore(d, k))
  {
    DaysBeforeNearYear(d, k);
  }

  // ---- ISO text form ----

  predicate IsDigit(c: char)
  {
    '0' <= c <= '9'
  }

  predicate AllDigits(s: seq<char>)
  {
    forall i :: 0 <= i < |s| ==> IsDigit(s[i])
  }

  function DigitChar(n: int): (c: char)
    requires 0 <= n <= 9
    ensures IsDigit(c)
  {
    (('0' as int) + n) as char
  }

  function DigitValue(c: char): int
  {
    (c as int) - ('0' as int)
  }

  function Pow10(w: nat): (p: nat)
    ensures p >= 1
  {
    if w == 0 then 1 else 10 * Pow10(w - 1)
  }

  /** The decimal value of a string of digits, most significant first. */
  function DigitsValue(s: seq<char>): int
  {
    if s == [] then 0 else DigitsValue(s[..|s| - 1]) * 10 + DigitValue(s[|s| - 1])
  }

  /** `n` written with exactly `w` digits, padded with leading zeros. */
  function Padded(n: int, w: nat): (s: seq<char>)
    requires 0 <= n < Pow10(w)
    ensures |s| == w && AllDigits(s)
  {
    if w == 0 then [] else Padded(n / 10, w - 1) + [DigitChar(n % 10)]
  }

  /** Reading back a padded number gives the number. */
  lemma {:induction false} PaddedValue(n: int, w: nat)
    requires 0 <= n < Pow10(w)
    ensures DigitsValue(Padded(n, w)) == n
  {
    if w > 0 {
      PaddedValue(n / 10, w - 1);
      var s := Padded(n, w);
      assert s[..|s| - 1] == Padded(n / 10, w - 1);
    }
  }

  /** A digit string is the padded form of its own value. */
  lemma {:induction false} DigitsPadded(s: seq<char>)
    requires AllDigits(s)
    ensures 0 <= DigitsValue(s) < Pow10(|s|)
    ensures Padded(DigitsValue(s), |s|) == s
  {
    if s != [] {
      var init := s[..|s| - 1];
      DigitsPadded(init);
      var v := DigitsValue(init);
      var c := DigitValue(s[|s| - 1]);
      assert 0 <= c <= 9;
      assert (v * 10 + c) / 10 == v;
      assert (v * 10 + c) % 10 == c;
      assert DigitChar(c) == s[|s| - 1];
      assert s == init + [s[|s| - 1]];
    }
  }

  /** `toISOString().split('T')[0]` of a day: `YYYY-MM-DD`. */
  function IsoDate(d: Date): (s: string)
    requires IsoDay(d)
    ensures |s| == 10
  {
    Padded(d.year, 4) + "-" + Padded(d.month, 2) + "-" + Padded(d.day, 2)
  }

  /** What `new Date(s)` makes of a stored date string: the calendar day when
      `s` is a canonical `YYYY-MM-DD` of a real day, and None (an Invalid
      Date, whose getters are NaN and equal to nothing) otherwise. */
  function CalendarOf(s: string): (r: Option<Date>)
    ensures r.Some? ==> IsoDay(r.value)
  {
    if |s| == 10 && s[4] == '-' && s[7] == '-'
       && AllDigits(s[0..4]) && AllDigits(s[5..7]) && AllDigits(s[8..10])
    then
      var d := Date(DigitsValue(s[0..4]), DigitsValue(s[5..7]), DigitsValue(s[8..10]));
      DigitsPadded(s[0..4]);
      if ValidDate(d) then Some(d) else None
    else None
  }

  /** Parsing the ISO form of a day gives the day back. */
  lemma ParseIsoDate(d: Date)
    requires IsoDay(d)
    ensures CalendarOf(IsoDate(d)) == Some(d)
  {
    var s := IsoDate(d);
    assert s[0..4] == Padded(d.year, 4);
    assert s[5..7] == Padded(d.month, 2);
    assert s[8..10] == Padded(d.day, 2);
    PaddedValue(d.year, 4);
    PaddedValue(d.month, 2);
    PaddedValue(d.day, 2);
  }

  /** A string that parses is the ISO form of the day it parses to. */
  lemma FormatParsed(s: string)
    requires CalendarOf(s).Some?
    ensures IsoDate(CalendarOf(s).value) == s
  {
    var y, m, dd := s[0..4], s[5..7], s[8..10];
    var d := Date(DigitsValue(y), DigitsValue(m), DigitsValue(dd));
    assert CalendarOf(s).value == d;
    DigitsPadded(y);
    DigitsPadded(m);
    DigitsPadded(dd);
    assert Padded(d.year, 4) == y;
    assert Padded(d.month, 2) == m;
    assert Padded(d.day, 2) == dd;
    assert s == y + "-" + m + "-" + dd;
  }

  /** So a date string denotes day `d` exactly when it is the ISO form of `d`. */
  lemma CalendarOfIff(s: string, d: Date)
    requires IsoDay(d)
    ensures CalendarOf(s) == Some(d) <==> s == IsoDate(d)
  {
    ParseIsoDate(d);
    if CalendarOf(s) == Some(d) {
      FormatParsed(s);
    }
  }

  /** Distinct days have distinct ISO strings. */
  lemma IsoDateInjective(a: Date, b: Date)
    requires IsoDay(a) && IsoDay(b) && a != b
    ensures IsoDate(a) != IsoDate(b)
  {
    ParseIsoDate(a);
    ParseIsoDate(b);
  }
}
