/**
 * The series behind the income/expense line chart
 * (src/components/IncomeExpenseGraph.jsx): the records of the chosen time
 * range, one chart point each.
 */
module IncomeExpenseGraph {
  import opened Ledger
  import opened Seqs

  /**
   * One chart point. `date` is the record's instant (the chart shows it
   * formatted as a day); `income` and `expense` split the amount by
   * credit/debit.
   */
  datatype Point = Point(date: Instant, income: real, expense: real)

  /** The first instant the monthly view keeps: `new Date(year, month - 1, 1)`. */
  function MonthlyCutoff(now: Instant): Instant {
    MonthStart(now.year, now.month - 1)
  }

  /** The first instant the yearly view keeps: `new Date(year - 1, 0, 1)`. */
  function YearlyCutoff(now: Instant): Instant {
    MonthStart(now.year - 1, 0)
  }

  /**
   * The test each view applies to a record's date. The custom view compares
   * with the picked dates as they are, without moving them to the start or
   * end of their day; with a date missing it keeps everything, as all-time does.
   */
  function GraphWindow(view: View, now: Instant): (keep: Txn -> bool)
    ensures view.AllTime? || (view.Custom? && (view.start.None? || view.end.None?)) ==> forall t :: keep(t)
  {
    match view
    case Monthly => (t: Txn) => Stamp(t.time) >= Stamp(MonthlyCutoff(now))
    case Yearly => (t: Txn) => Stamp(t.time) >= Stamp(YearlyCutoff(now))
    case Custom(Some(start), Some(end)) => (t: Txn) => Stamp(start) <= Stamp(t.time) <= Stamp(end)
    case _ => (t: Txn) => true
  }

  function ToPoint(t: Txn): (p: Point)
    ensures p.date == t.time
    ensures p.income + p.expense == t.amount && (p.income == 0.0 || p.expense == 0.0)
    ensures t.increment ==> p.income == t.amount
    ensures !t.increment ==> p.expense == t.amount
  {
    Point(t.time, if t.increment then t.amount else 0.0, if !t.increment then t.amount else 0.0)
  }

  /** `filterData`; `None` stands for a `data` that is not an array. */
  function FilterData(data: Option<seq<Txn>>, view: View, now: Instant): (points: seq<Point>)
    ensures data.None? || data.value == [] ==> points == []
    ensures data.Some? ==> |points| <= |data.value|
  {
    match data
    case None => []
    case Some(ts) =>
      if |ts| == 0 then []
      else
        var kept := Filter(ts, GraphWindow(view, now));
        seq(|kept|, k requires 0 <= k < |kept| => ToPoint(kept[k]))
  }

  /** The calendar meaning of each view, stated on the fields of a date. */
  predicate InView(view: View, now: Instant, i: Instant) {
    match view
    case Monthly => MonthNumber(i) >= MonthNumber(now) - 1
    case Yearly => i.year >= now.year - 1
    case Custom(Some(start), Some(end)) => !Before(i, start) && !Before(end, i)
    case _ => true
  }

  /** In January the monthly view reaches back to December of the year before. */
  lemma JanuaryReachesBackToDecember(now: Instant)
    requires now.month == 0
    ensures MonthlyCutoff(now) == Instant(now.year - 1, 11, 1, 0)
  {
  }

  /** Every view keeps exactly the records whose date it means. */
  lemma {:induction false} WindowIsView(view: View, now: Instant, t: Txn)
    requires ValidInstant(now) && ValidInstant(t.time)
    requires view.Custom? && view.start.Some? && view.end.Some? ==>
      ValidInstant(view.start.value) && ValidInstant(view.end.value)
    ensures GraphWindow(view, now)(t) <==> InView(view, now, t.time)
  {
    match view {
      case Monthly =>
        var c := MonthlyCutoff(now);
        StampInMonth(t.time);
        StampInMonth(c);
        assert MonthNumber(c) == MonthNumber(now) - 1;
        assert Stamp(c) == MonthNumber(c) * (31 * DayMs);
      case Yearly =>
        var c := YearlyCutoff(now);
        StampInMonth(t.time);
        assert Stamp(c) == MonthNumber(c) * (31 * DayMs);
        assert MonthNumber(c) == (now.year - 1) * 12;
      case Custom(s, e) =>
        if s.Some? && e.Some? {
          StampIsCalendarOrder(t.time, s.value);
          StampIsCalendarOrder(e.value, t.time);
        }
      case AllTime =>
    }
  }

  /**
   * The series: one point per record the view keeps, in ledger order, none
   * merged; Income is the amount of a credit and Expense the amount of a
   * debit, so one of them is 0 and together they are the amount.
   */
  lemma GraphSeries(ts: seq<Txn>, view: View, now: Instant)
    requires |ts| > 0
    requires ValidInstant(now) && forall k :: 0 <= k < |ts| ==> ValidInstant(ts[k].time)
    requires view.Custom? && view.start.Some? && view.end.Some? ==>
      ValidInstant(view.start.value) && ValidInstant(view.end.value)
    ensures var kept := Filter(ts, GraphWindow(view, now));
      var points := FilterData(Some(ts), view, now);
      && IsSubsequence(kept, ts)
      && (forall t :: t in kept <==> t in ts && InView(view, now, t.time))
      && |points| == |kept|
      && forall k :: 0 <= k < |points| ==>
           && points[k].date == kept[k].time
           && points[k].income + points[k].expense == kept[k].amount
           && (points[k].income == 0.0 || points[k].expense == 0.0)
           && (kept[k].increment ==> points[k].income == kept[k].amount)
           && (!kept[k].increment ==> points[k].expense == kept[k].amount)
  {
    var p := GraphWindow(view, now);
    FilterIsSubsequence(ts, p);
    forall t ensures t in Filter(ts, p) <==> t in ts && InView(view, now, t.time) {
      FilterMembership(ts, p, t);
      if t in ts {
        WindowIsView(view, now, t);
      }
    }
  }

  /** All-time, and a custom range missing a date, keep every record. */
  lemma UnboundedViewsKeepAll(ts: seq<Txn>, view: View, now: Instant)
    requires view.AllTime? || (view.Custom? && (view.start.None? || view.end.None?))
    ensures Filter(ts, GraphWindow(view, now)) == ts
  {
    FilterAllPass(ts, GraphWindow(view, now));
  }
}
