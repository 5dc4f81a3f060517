/**
 * The shared data model of the dashboard: transaction records, the calendar
 * instants their dates denote, and the small value types the components share.
 */
module Ledger {

  datatype Option<T> = None | Some(value: T)

  /** Milliseconds in one day. */
  const DayMs: int := 86_400_000

  /**
   * A local calendar instant, as a JavaScript `Date` exposes it: the full year,
   * the month index (0 is January, as `getMonth()` numbers it), the day of the
   * month and the millisecond within that day.
   */
  datatype Instant = Instant(year: int, month: int, day: int, ms: int)

  /** The instants a `Date` can hold: month index, day and time of day in range. */
  predicate ValidInstant(i: Instant) {
    0 <= i.month < 12 && 1 <= i.day <= 31 && 0 <= i.ms < DayMs
  }

  /** Months since year 0, January. */
  function MonthNumber(i: Instant): int {
    i.year * 12 + i.month
  }

  /** Day slots since year 0 (every month is given 31 slots). */
  function DayNumber(i: Instant): int {
    MonthNumber(i) * 31 + i.day - 1
  }

  /**
   * The time value of an instant: an integer that orders instants as
   * `getTime()` does (it is not the number of milliseconds since 1970).
   */
  function Stamp(i: Instant): int {
    DayNumber(i) * DayMs + i.ms
  }

  /** Calendar order on instants, field by field. */
  predicate Before(a: Instant, b: Instant) {
    || a.year < b.year
    || (a.year == b.year && a.month < b.month)
    || (a.year == b.year && a.month == b.month && a.day < b.day)
    || (a.year == b.year && a.month == b.month && a.day == b.day && a.ms < b.ms)
  }

  /** `d.setHours(0, 0, 0, 0)`: the first millisecond of the instant's day. */
  function StartOfDay(i: Instant): (r: Instant)
    ensures ValidInstant(i) ==> ValidInstant(r) && DayNumber(r) == DayNumber(i)
    ensures Stamp(r) <= Stamp(i) <==> i.ms >= 0
  {
    Instant(i.year, i.month, i.day, 0)
  }

  /** `d.setHours(23, 59, 59, 999)`: the last millisecond of the instant's day. */
  function EndOfDay(i: Instant): (r: Instant)
    ensures ValidInstant(i) ==> ValidInstant(r) && DayNumber(r) == DayNumber(i)
    ensures Stamp(i) <= Stamp(r) <==> i.ms < DayMs
  {
    Instant(i.year, i.month, i.day, DayMs - 1)
  }

  /**
   * `new Date(year, monthIndex, 1)`: midnight on the first day of a month. A
   * month index outside 0..11 rolls over into neighbouring years, as the
   * `Date` constructor does (Dafny's `/` and `%` by 12 round toward minus
   * infinity, as the constructor's arithmetic does).
   */
  function MonthStart(year: int, monthIndex: int): (r: Instant)
    ensures ValidInstant(r) && r.day == 1 && r.ms == 0
    ensures MonthNumber(r) == year * 12 + monthIndex
  {
    Instant(year + monthIndex / 12, monthIndex % 12, 1, 0)
  }

  /**
   * A ledger record. `date` is the ISO text the backend sends; `time` is the
   * instant `new Date(date)` denotes. `amount` is a magnitude: `increment`
   * says whether it is a credit (income) or a debit (expense).
   */
  datatype Txn = Txn(
    amount: real,
    increment: bool,
    currentBalance: real,
    description: string,
    mode: string,
    date: string,
    time: Instant,
    id: int,
    userId: int)

  /** The time windows the charts offer. */
  datatype View = AllTime | Monthly | Yearly | Custom(start: Option<Instant>, end: Option<Instant>)

  /** The last instant of a day slot, and the first, bracket every instant on that day. */
  lemma {:induction false} StampInDay(i: Instant)
    requires ValidInstant(i)
    ensures DayNumber(i) * DayMs <= Stamp(i) < DayNumber(i) * DayMs + DayMs
  {
  }

  /** Every instant of a month lies between that month's first and the next month's first. */
  lemma {:induction false} StampInMonth(i: Instant)
    requires ValidInstant(i)
    ensures MonthNumber(i) * (31 * DayMs) <= Stamp(i) < MonthNumber(i) * (31 * DayMs) + 31 * DayMs
  {
    StampInDay(i);
    assert MonthNumber(i) * 31 <= DayNumber(i) < MonthNumber(i) * 31 + 31;
  }

  /** The calendar day of a valid instant fixes its time value up to the time of day. */
  lemma {:induction false} StampOrdersDays(a: Instant, b: Instant)
    requires ValidInstant(a) && ValidInstant(b)
    ensures DayNumber(a) < DayNumber(b) ==> Stamp(a) < Stamp(b)
  {
    StampInDay(a);
    StampInDay(b);
  }

  /**
   * The integer time value orders valid instants exactly as the calendar does,
   * and tells distinct instants apart: comparing `Stamp`s is comparing dates.
   */
  lemma {:induction false} StampIsCalendarOrder(a: Instant, b: Instant)
    requires ValidInstant(a) && ValidInstant(b)
    ensures Stamp(a) < Stamp(b) <==> Before(a, b)
    ensures Stamp(a) == Stamp(b) <==> a == b
  {
    StampOrdersDays(a, b);
    StampOrdersDays(b, a);
    if a.year != b.year || a.month != b.month {
      assert MonthNumber(a) != MonthNumber(b);
    }
  }

  /** Valid instants in the same day slot are on the same calendar day. */
  lemma {:induction false} SameDaySlot(a: Instant, b: Instant)
    requires ValidInstant(a) && ValidInstant(b) && DayNumber(a) == DayNumber(b)
    ensures a.year == b.year && a.month == b.month && a.day == b.day
  {
    StampIsCalendarOrder(StartOfDay(a), StartOfDay(b));
  }
}
