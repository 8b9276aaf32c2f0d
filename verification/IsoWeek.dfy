/**
  The calendar keys of the weekly boards.

  A date is the number of its day since 1970-01-01, a Thursday, in the Gregorian calendar.  The week
  number is proved to be the one of section 2.2.10 of ISO 8601:2004; the key pairs it with the calendar
  year of the date itself, and what that costs is proved too.
*/
module IsoWeek {
  // ── the calendar ─────────────────────────────────────────────────

  predicate IsLeap(y: int) {
    y % 4 == 0 && (y % 100 != 0 || y % 400 == 0)
  }

  function DaysIn(y: int): int {
    if IsLeap(y) then 366 else 365
  }

  // Leap years before year y, counted from year 1.
  function LeapsBefore(y: int): int {
    (y - 1) / 4 - (y - 1) / 100 + (y - 1) / 400
  }

  function Jan1(y: int): int {
    365 * (y - 1970) + LeapsBefore(y) - LeapsBefore(1970)
  }

  lemma MultipleStep(x: int, k: int)
    requires k in {4, 100, 400}
    ensures x / k - (x - 1) / k == if x % k == 0 then 1 else 0
  {
  }

  lemma YearStep(y: int)
    ensures Jan1(y + 1) == Jan1(y) + DaysIn(y)
  {
    MultipleStep(y, 4);
    MultipleStep(y, 100);
    MultipleStep(y, 400);
    MultiplesNest(y);
  }

  lemma MultiplesNest(y: int)
    ensures y % 400 == 0 ==> y % 100 == 0
    ensures y % 100 == 0 ==> y % 4 == 0
  {
    if y % 400 == 0 { Hundreds(y, y / 400); }
    if y % 100 == 0 { Fours(y, y / 100); }
  }

  lemma Hundreds(y: int, q: int)
    requires y == 400 * q
    ensures y % 100 == 0
  {
  }

  lemma Fours(y: int, q: int)
    requires y == 100 * q
    ensures y % 4 == 0
  {
  }

  function Search(y: int, day: int): (r: int)
    ensures Jan1(r) <= day < Jan1(r + 1)
    decreases if day < Jan1(y) then Jan1(y) - day else day - Jan1(y)
  {
    YearStep(y);
    YearStep(y - 1);
    if day < Jan1(y) then
      (if Jan1(y - 1) <= day then y - 1 else Search(y - 1, day))
    else if day >= Jan1(y + 1) then Search(y + 1, day)
    else y
  }

  // getUTCFullYear
  function YearOf(day: int): (y: int)
    ensures Jan1(y) <= day < Jan1(y + 1)
  {
    Search(1970, day)
  }

  lemma {:induction false} YearsGrow(y: int, z: int)
    requires y <= z
    ensures Jan1(y) + 365 * (z - y) <= Jan1(z)
    decreases z - y
  {
    if y < z {
      YearsGrow(y, z - 1);
      YearStep(z - 1);
    }
  }

  /** A day lies in exactly one year. */
  lemma YearIs(day: int, y: int)
    ensures YearOf(day) == y <==> Jan1(y) <= day < Jan1(y + 1)
  {
    var r := YearOf(day);
    if r < y { YearsGrow(r + 1, y); }
    if y < r { YearsGrow(y + 1, r); }
  }

  // getUTCDay: 0 for a Sunday.
  function UtcDay(day: int): int {
    (day + 4) % 7
  }

  predicate IsThursday(day: int) {
    UtcDay(day) == 4
  }

  // Weeks start on a Monday.
  function Monday(day: int): int {
    day - (day + 3) % 7
  }

  function Thursday(day: int): int {
    Monday(day) + 3
  }

  predicate SameWeek(d: int, e: int) {
    Monday(d) == Monday(e)
  }

  lemma WeekIs(day: int)
    ensures IsThursday(Thursday(day)) && UtcDay(Monday(day)) == 1
    ensures Monday(day) <= day < Monday(day) + 7 && day - 3 <= Thursday(day) <= day + 3
    ensures Thursday(day + 7) == Thursday(day) + 7
    ensures Monday(Monday(day)) == Monday(day) == Monday(Monday(day) + 6)
  {
  }

  // ── the standard's week ──────────────────────────────────────────

  function ThursdaysUntil(first: int, last: int): nat
    decreases last - first
  {
    if last < first then 0 else ThursdaysUntil(first, last - 1) + if IsThursday(last) then 1 else 0
  }

  // The year a week belongs to is that of its Thursday.
  function WeekYear(day: int): int {
    YearOf(Thursday(day))
  }

  // The place of the week's Thursday among the Thursdays of that year.
  function Week(day: int): nat {
    ThursdaysUntil(Jan1(WeekYear(day)), Thursday(day))
  }

  lemma {:induction false} ThursdaysAre(first: int, last: int)
    requires IsThursday(last) && first <= last
    ensures ThursdaysUntil(first, last) == (last - first) / 7 + 1
    decreases last - first
  {
    if first <= last - 7 {
      ThursdaysAre(first, last - 7);
      NoThursday(first, last - 1, 6);
      assert (last - first) / 7 == (last - 7 - first) / 7 + 1;
    } else {
      NoThursday(first, last - 1, last - first);
    }
  }

  // n days without a Thursday add nothing.
  lemma {:induction false} NoThursday(first: int, last: int, n: nat)
    requires n <= 6 && first <= last - n + 1 && IsThursday(last + 1)
    ensures ThursdaysUntil(first, last) == ThursdaysUntil(first, last - n)
  {
    if n > 0 {
      NoThursday(first, last, n - 1);
      assert !IsThursday(last - n + 1);
    }
  }

  lemma WeekFormula(day: int)
    ensures Week(day) == (Thursday(day) - Jan1(WeekYear(day))) / 7 + 1
    ensures Jan1(WeekYear(day)) <= Thursday(day) < Jan1(WeekYear(day)) + DaysIn(WeekYear(day))
  {
    hide YearOf, Jan1, DaysIn;
    WeekIs(day);
    YearStep(WeekYear(day));
    ThursdaysAre(Jan1(WeekYear(day)), Thursday(day));
  }

  // ── the code's week ──────────────────────────────────────────────

  function Ceil(x: real): int {
    -(-x).Floor
  }

  lemma CeilSeventh(n: nat)
    ensures Ceil((n as real + 1.0) / 7.0) == n / 7 + 1
  {
    var q, r := n / 7, n % 7;
    var x := (n as real + 1.0) / 7.0;
    assert x * 7.0 == n as real + 1.0;
    assert n == 7 * q + r;
    assert q as real < x <= (q + 1) as real;
  }

  method WeekNumber(date: int) returns (week: int)
    ensures week == Week(date)
  {
    hide YearOf, Jan1, ThursdaysUntil;
    var d := date;
    var dayNum := if UtcDay(d) == 0 then 7 else UtcDay(d);
    d := d + 4 - dayNum;
    assert d == Thursday(date);
    WeekFormula(date);
    var yearStart := Jan1(YearOf(d));
    CeilSeventh(d - yearStart);
    week := Ceil(((d - yearStart) as real + 1.0) / 7.0);
  }

  // A year that begins on a Thursday, or on a Wednesday if it is a leap year.
  predicate LongYear(y: int) {
    UtcDay(Jan1(y)) == 4 || (IsLeap(y) && UtcDay(Jan1(y)) == 3)
  }

  /** Week numbers lie in 1..53, and reach 53 only in long years. */
  lemma WeekRange(day: int)
    ensures 1 <= Week(day) <= 53
    ensures Week(day) == 53 ==> LongYear(WeekYear(day))
  {
    hide YearOf, Jan1, ThursdaysUntil, IsLeap;
    WeekFormula(day);
    WeekIs(day);
    DaysInIs(WeekYear(day));
  }

  lemma DaysInIs(y: int)
    ensures DaysIn(y) == if IsLeap(y) then 366 else 365
  {
  }

  /** Every long year has its week 53. */
  lemma LongYearsHave53(y: int)
    requires LongYear(y)
    ensures exists day :: WeekYear(day) == y && Week(day) == 53
  {
    hide YearOf, Jan1, ThursdaysUntil, IsLeap;
    var day := Jan1(y) + if UtcDay(Jan1(y)) == 4 then 364 else 365;
    YearStep(y);
    DaysInIs(y);
    YearIs(day, y);
    assert Thursday(day) == day;
    WeekFormula(day);
    assert WeekYear(day) == y && Week(day) == 53;
  }

  /** The number is the same from Monday to Sunday. */
  lemma WeekIsConstant(d: int, e: int)
    requires SameWeek(d, e)
    ensures Week(d) == Week(e) && WeekYear(d) == WeekYear(e)
  {
  }

  /** A week later the number is one higher, or the week's year has changed and the number is 1 again. */
  lemma NextWeek(day: int)
    ensures WeekYear(day + 7) == WeekYear(day) ==> Week(day + 7) == Week(day) + 1
    ensures WeekYear(day + 7) != WeekYear(day)
            ==> WeekYear(day + 7) == WeekYear(day) + 1 && Week(day + 7) == 1 && Week(day) >= 52
  {
    hide YearOf, Jan1, ThursdaysUntil, DaysIn;
    WeekIs(day);
    WeekFormula(day);
    WeekFormula(day + 7);
    var y, t := WeekYear(day), Thursday(day);
    YearStep(y);
    YearStep(y + 1);
    YearIs(t + 7, y);
    YearIs(t + 7, y + 1);
    YearLength(y);
    YearLength(y + 1);
  }

  lemma YearLength(y: int)
    ensures 365 <= DaysIn(y) <= 366
  {
  }

  /** Week year and number together name a week: different weeks never share both. */
  lemma WeekIsIdentified(d: int, e: int)
    ensures SameWeek(d, e) <==> WeekYear(d) == WeekYear(e) && Week(d) == Week(e)
  {
    hide YearOf, Jan1, ThursdaysUntil, DaysIn;
    WeekFormula(d);
    WeekFormula(e);
    WeekIs(d);
    WeekIs(e);
    if WeekYear(d) == WeekYear(e) && Week(d) == Week(e) {
      SameThursday(Jan1(WeekYear(d)), Thursday(d), Thursday(e));
    }
  }

  lemma SameThursday(from: int, s: int, t: int)
    requires from <= s && from <= t && IsThursday(s) && IsThursday(t) && (s - from) / 7 == (t - from) / 7
    ensures s == t
  {
  }

  // ── the key ──────────────────────────────────────────────────────

  datatype Key = Key(year: int, week: int)

  // As in `2024-W01`: the year is the date's own.
  function WeeklyKey(day: int): Key {
    Key(YearOf(day), Week(day))
  }

  // The date's own year is the year of its week.
  predicate Regular(day: int) {
    YearOf(day) == WeekYear(day)
  }

  lemma IrregularDays(day: int)
    ensures WeekYear(day) in {YearOf(day) - 1, YearOf(day), YearOf(day) + 1}
    ensures WeekYear(day) == YearOf(day) + 1 ==> Week(day) == 1
    ensures WeekYear(day) == YearOf(day) - 1 ==> Week(day) >= 52
  {
    hide YearOf, Jan1, ThursdaysUntil, DaysIn;
    var y, t := YearOf(day), Thursday(day);
    WeekIs(day);
    WeekFormula(day);
    YearStep(y - 1);
    YearStep(y);
    YearStep(y + 1);
    YearLength(y - 1);
    YearLength(y + 1);
    YearBounds(day);
    YearIs(t, y - 1);
    YearIs(t, y);
    YearIs(t, y + 1);
  }

  lemma YearBounds(day: int)
    ensures Jan1(YearOf(day)) <= day < Jan1(YearOf(day) + 1)
  {
  }

  // Dates of one key lie in different weeks exactly when only one of them is regular.
  lemma SharedKeysDiffer(d: int, e: int)
    requires WeeklyKey(d) == WeeklyKey(e)
    ensures SameWeek(d, e) <==> (Regular(d) <==> Regular(e))
  {
    hide YearOf, Week, SameWeek, Thursday;
    WeekIsIdentified(d, e);
    IrregularDays(d);
    IrregularDays(e);
  }

  // The Thursday of week w, which every year has up to 52.
  lemma WeekExists(y: int, w: int) returns (day: int)
    requires 1 <= w <= 52
    ensures YearOf(day) == y && WeekYear(day) == y && Week(day) == w
  {
    hide YearOf, Jan1, ThursdaysUntil, DaysIn;
    var first := Thursday(Jan1(y) + 3);
    WeekIs(Jan1(y) + 3);
    day := first + 7 * (w - 1);
    assert Thursday(day) == day;
    YearStep(y);
    YearLength(y);
    YearIs(day, y);
    WeekFormula(day);
  }

  lemma YearAfterLong(y: int)
    requires LongYear(y)
    ensures !LongYear(y + 1)
  {
    hide Jan1;
    YearStep(y);
  }

  lemma YearsOfDaysGrow(a: int, b: int)
    requires a <= b
    ensures YearOf(a) <= YearOf(b) && Thursday(a) <= Thursday(b)
  {
    hide Jan1, YearOf;
    YearBounds(a);
    YearBounds(b);
    if YearOf(b) < YearOf(a) { YearsGrow(YearOf(b) + 1, YearOf(a)); }
  }

  // A week that begins in the year before contains the first of January.
  lemma FirstDaysShareAWeek(day: int)
    requires WeekYear(day) == YearOf(day) - 1
    ensures SameWeek(day, Jan1(YearOf(day)))
  {
    hide Jan1, YearOf;
    var first := Jan1(YearOf(day));
    WeekIs(day);
    WeekIs(first);
    YearBounds(day);
    YearBounds(Thursday(day));
    assert Thursday(day) < first <= day;
  }

  lemma EndsOfYear(y: int)
    ensures YearOf(Jan1(y)) == y == YearOf(Jan1(y + 1) - 1)
  {
    hide Jan1, YearOf;
    YearStep(y);
    YearLength(y);
    YearIs(Jan1(y), y);
    YearIs(Jan1(y + 1) - 1, y);
  }

  ghost predicate SharesKey(d: int) {
    exists e :: WeeklyKey(e) == WeeklyKey(d) && !SameWeek(d, e)
  }

  lemma Shares(d: int, e: int)
    requires WeeklyKey(e) == WeeklyKey(d) && WeekYear(e) != WeekYear(d)
    ensures SharesKey(d)
  {
    hide YearOf, Week, SameWeek, Thursday;
    WeekIsIdentified(d, e);
  }

  // Not in the year of its week: the namesake is the week of that number in its own year.
  lemma IrregularShares(d: int)
    requires !Regular(d)
    ensures SharesKey(d) <==> Week(d) != 53
  {
    hide Jan1, YearOf, ThursdaysUntil, DaysIn, SameWeek, SharesKey;
    var y := YearOf(d);
    IrregularDays(d);
    WeekRange(d);
    if Week(d) != 53 {
      var e := WeekExists(y, Week(d));
      Shares(d, e);
    } else {
      Week53Alone(d);
    }
  }

  lemma Week53Alone(d: int)
    requires !Regular(d) && Week(d) == 53
    ensures !SharesKey(d)
  {
    hide Jan1, YearOf, ThursdaysUntil, DaysIn, SameWeek, Thursday, Week, LongYear;
    IrregularDays(d);
    WeekRange(d);
    YearAfterLong(YearOf(d) - 1);
    forall e | WeeklyKey(e) == WeeklyKey(d) ensures SameWeek(d, e) {
      IrregularDays(e);
      WeekRange(e);
      WeekIsIdentified(d, e);
    }
  }

  // A regular date whose number another week of its calendar year has too.
  predicate HasNamesake(d: int) {
    var y := YearOf(d);
    || (Week(d) == 1 && WeekYear(Jan1(y + 1) - 1) == y + 1)
    || (WeekYear(Jan1(y)) == y - 1 && Week(d) == Week(Jan1(y)))
  }

  lemma RegularSharesIf(d: int)
    requires Regular(d) && HasNamesake(d)
    ensures SharesKey(d)
  {
    hide Jan1, YearOf, Week, Thursday, SharesKey;
    var y := YearOf(d);
    EndsOfYear(y);
    if WeekYear(Jan1(y)) == y - 1 && Week(d) == Week(Jan1(y)) {
      Shares(d, Jan1(y));
    } else {
      IrregularDays(Jan1(y + 1) - 1);
      Shares(d, Jan1(y + 1) - 1);
    }
  }

  lemma RegularSharesOnlyIf(d: int, e: int)
    requires Regular(d) && WeeklyKey(e) == WeeklyKey(d) && !SameWeek(d, e)
    ensures HasNamesake(d)
  {
    hide Jan1, YearOf, Week, Thursday, SameWeek;
    var y := YearOf(d);
    SharedKeysDiffer(d, e);
    IrregularDays(e);
    if WeekYear(e) == y + 1 {
      YearBounds(e);
      EndsOfYear(y);
      YearsOfDaysGrow(e, Jan1(y + 1) - 1);
      YearsOfDaysGrow(Thursday(e), Thursday(Jan1(y + 1) - 1));
      IrregularDays(Jan1(y + 1) - 1);
    } else {
      FirstDaysShareAWeek(e);
      WeekIsConstant(e, Jan1(y));
    }
  }

  /**
    Which dates share their key with another week: those outside the year of their week, unless it is
    week 53; those in week 1 of a year whose 31 December belongs to the next week year; and, in a year
    whose 1 January belongs to the week year before, those in the week with that day's number.
  */
  lemma KeyIsSharedExactly(d: int)
    ensures SharesKey(d) <==> if Regular(d) then HasNamesake(d) else Week(d) != 53
  {
    hide Jan1, YearOf, Week, Thursday, SameWeek, Regular, WeekYear, HasNamesake;
    if !Regular(d) {
      IrregularShares(d);
    } else {
      if HasNamesake(d) { RegularSharesIf(d); }
      if SharesKey(d) {
        var e :| WeeklyKey(e) == WeeklyKey(d) && !SameWeek(d, e);
        RegularSharesOnlyIf(d, e);
      }
    }
  }

  /** A week is split over two keys exactly when a new year begins inside it. */
  lemma WeekIsSplitExactly(day: int)
    ensures (exists d, e :: Monday(d) == Monday(e) == Monday(day) && WeeklyKey(d) != WeeklyKey(e))
            <==> YearOf(Monday(day)) != YearOf(Monday(day) + 6)
  {
    hide YearOf, Jan1, Week;
    var first, last := Monday(day), Monday(day) + 6;
    WeekIs(day);
    if YearOf(first) != YearOf(last) {
      assert WeeklyKey(first) != WeeklyKey(last);
    }
    forall d, e | Monday(d) == Monday(e) == first && WeeklyKey(d) != WeeklyKey(e)
      ensures YearOf(first) != YearOf(last)
    {
      WeekIs(d);
      WeekIs(e);
      WeekIsConstant(d, e);
      YearBetween(first, d, last);
      YearBetween(first, e, last);
    }
  }

  lemma YearBetween(a: int, b: int, c: int)
    requires a <= b <= c
    ensures YearOf(a) == YearOf(c) ==> YearOf(b) == YearOf(a)
  {
    YearBounds(a);
    YearBounds(c);
    YearIs(b, YearOf(a));
  }

  lemma Around2024()
    ensures Jan1(2024) == 19723 && Jan1(2025) == 20089 && Jan1(2026) == 20454
  {
  }

  /** 2024 is such a year: its first and its last Monday, days 19723 and 20087, share the key 2024-W01. */
  lemma FirstAndLastMondayOf2024()
    ensures UtcDay(19723) == 1 == UtcDay(20087) && !SameWeek(19723, 20087)
    ensures WeeklyKey(19723) == WeeklyKey(20087) == Key(2024, 1)
  {
    hide Jan1, YearOf, Week;
    Around2024();
    YearIs(19723, 2024);
    YearIs(19726, 2024);
    YearIs(20087, 2024);
    YearIs(20090, 2025);
    WeekFormula(19723);
    WeekFormula(20087);
  }
}
