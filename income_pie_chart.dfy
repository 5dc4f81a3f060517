/**
 * The income breakdown of the pie chart (src/components/IncomePieChart.jsx):
 * the credits of the chosen period, grouped by description, each group with
 * its sum, its share of the total and a colour from the palette.
 */
module IncomePieChart {
  import opened Ledger
  import opened Seqs
  import opened Grouping

  /** The palette the slices cycle through. */
  const Colors: seq<string> := ["#0088FE", "#00C49F", "#FFBB28", "#FF8042", "#AF19FF", "#FF4560", "#008000", "#FF00FF"]

  /** One slice: the description, the sum of its credits, its share in percent and its colour. */
  datatype Slice = Slice(name: string, value: real, percentage: Option<real>, color: string)

  function IsCredit(): Txn -> bool {
    (t: Txn) => t.increment
  }

  /**
   * The period test. Monthly and yearly compare the calendar month and year
   * with now's; the custom range is strict at both ends, after the first and
   * before the last millisecond of the picked days.
   */
  function PieWindow(view: View, now: Instant): (keep: Txn -> bool)
    ensures view.AllTime? || (view.Custom? && (view.start.None? || view.end.None?)) ==> forall t :: keep(t)
  {
    match view
    case Monthly => (t: Txn) => t.time.year == now.year && t.time.month == now.month
    case Yearly => (t: Txn) => t.time.year == now.year
    case Custom(Some(start), Some(end)) =>
      (t: Txn) => Stamp(StartOfDay(start)) < Stamp(t.time) && Stamp(t.time) < Stamp(EndOfDay(end))
    case _ => (t: Txn) => true
  }

  /** `filterTransactions`: the credits, then those of the chosen period. */
  function FilterTransactions(data: seq<Txn>, view: View, now: Instant): (r: seq<Txn>)
    ensures |r| <= |data|
  {
    Filter(Filter(data, IsCredit()), PieWindow(view, now))
  }

  /**
   * The calendar meaning of the custom range: a day of the range, except the
   * very first instant of the first day and the very last of the last day.
   */
  predicate InPieView(view: View, now: Instant, i: Instant) {
    match view
    case Monthly => i.year == now.year && i.month == now.month
    case Yearly => i.year == now.year
    case Custom(Some(start), Some(end)) =>
      DayNumber(start) <= DayNumber(i) <= DayNumber(end) && i != StartOfDay(start) && i != EndOfDay(end)
    case _ => true
  }

  lemma {:induction false} AfterStartOfDay(s: Instant, i: Instant)
    requires ValidInstant(s) && ValidInstant(i)
    ensures Stamp(StartOfDay(s)) < Stamp(i) <==> DayNumber(s) <= DayNumber(i) && i != StartOfDay(s)
  {
    StampInDay(i);
    if DayNumber(i) == DayNumber(s) {
      SameDaySlot(i, s);
    }
  }

  lemma {:induction false} BeforeEndOfDay(e: Instant, i: Instant)
    requires ValidInstant(e) && ValidInstant(i)
    ensures Stamp(i) < Stamp(EndOfDay(e)) <==> DayNumber(i) <= DayNumber(e) && i != EndOfDay(e)
  {
    StampInDay(i);
    if DayNumber(i) == DayNumber(e) {
      SameDaySlot(i, e);
    }
  }

  /** The period test keeps a credit exactly when its date lies in the period. */
  lemma WindowIsView(view: View, now: Instant, t: Txn)
    requires ValidInstant(t.time)
    requires view.Custom? && view.start.Some? && view.end.Some? ==>
      ValidInstant(view.start.value) && ValidInstant(view.end.value)
    ensures PieWindow(view, now)(t) <==> InPieView(view, now, t.time)
  {
    if view.Custom? && view.start.Some? && view.end.Some? {
      AfterStartOfDay(view.start.value, t.time);
      BeforeEndOfDay(view.end.value, t.time);
    }
  }

  /** Both tests together keep a dated record exactly when it is a credit of the period. */
  lemma CreditInPeriod(view: View, now: Instant, t: Txn)
    requires ValidInstant(t.time)
    requires view.Custom? && view.start.Some? && view.end.Some? ==>
      ValidInstant(view.start.value) && ValidInstant(view.end.value)
    ensures Both(IsCredit(), PieWindow(view, now))(t) <==> t.increment && InPieView(view, now, t.time)
  {
    WindowIsView(view, now, t);
  }

  /**
   * The filter keeps, in order and as often as they occur, exactly the
   * credits dated in the period; an incomplete custom range, like all-time,
   * keeps every credit.
   */
  lemma FilterKeepsCreditsInPeriod(data: seq<Txn>, view: View, now: Instant)
    requires forall k :: 0 <= k < |data| ==> ValidInstant(data[k].time)
    requires view.Custom? && view.start.Some? && view.end.Some? ==>
      ValidInstant(view.start.value) && ValidInstant(view.end.value)
    ensures var r := FilterTransactions(data, view, now);
      && IsSubsequence(r, data)
      && (forall t :: t in r <==> t in data && t.increment && InPieView(view, now, t.time))
      && (forall t: Txn :: t.increment && InPieView(view, now, t.time) ==> multiset(r)[t] == multiset(data)[t])
  {
    var both := Both(IsCredit(), PieWindow(view, now));
    FilterFilter(data, IsCredit(), PieWindow(view, now));
    var r := Filter(data, both);
    FilterIsSubsequence(data, both);
    FilterKeepsExactly(data, both);
    forall t ensures t in r <==> t in data && t.increment && InPieView(view, now, t.time) {
      FilterMembership(data, both, t);
      if t in data {
        CreditInPeriod(view, now, t);
      }
    }
    forall t: Txn | t.increment && InPieView(view, now, t.time) && t in data
      ensures multiset(r)[t] == multiset(data)[t]
    {
      CreditInPeriod(view, now, t);
    }
  }

  // ---------------------------------------------------------------------
  // The chart data, specified

  /** The filtered credits as (description, amount) entries. */
  function IncomeEntries(filtered: seq<Txn>): (es: seq<Entry>)
    ensures |es| == |filtered|
  {
    seq(|filtered|, k requires 0 <= k < |filtered| => Entry(filtered[k].description, filtered[k].amount))
  }

  /** The sum of the amounts. */
  function AmountTotal(filtered: seq<Txn>): real
    decreases |filtered|
  {
    if filtered == [] then 0.0 else AmountTotal(filtered[..|filtered| - 1]) + filtered[|filtered| - 1].amount
  }

  /** The sum of the amounts of the records with description `d`. */
  function DescriptionTotal(filtered: seq<Txn>, d: string): real
    decreases |filtered|
  {
    if filtered == [] then 0.0
    else
      var t := filtered[|filtered| - 1];
      DescriptionTotal(filtered[..|filtered| - 1], d) + (if t.description == d then t.amount else 0.0)
  }

  /** A group's share of the total in percent; `None` where the source divides by a zero total. */
  function Percentage(value: real, total: real): (share: Option<real>)
    ensures share.None? <==> total == 0.0
    ensures share.Some? ==> share.value * total == value * 100.0
  {
    if total == 0.0 then None else Some(value / total * 100.0)
  }

  /** The slices for a dictionary, its keys in order and the total. */
  function SlicesOf(m: map<string, real>, keys: seq<string>, total: real): (r: seq<Slice>)
    requires forall k :: 0 <= k < |keys| ==> keys[k] in m
    ensures |r| == |keys|
  {
    seq(|keys|, i requires 0 <= i < |keys| =>
      Slice(keys[i], m[keys[i]], Percentage(m[keys[i]], total), Colors[i % |Colors|]))
  }

  /** The chart data `getChartData` returns for a list of filtered credits. */
  function ChartSlices(filtered: seq<Txn>): seq<Slice> {
    var es := IncomeEntries(filtered);
    OrderIsKeys(es);
    SlicesOf(Totals(es), Order(es), Sum(es))
  }

  // ---------------------------------------------------------------------
  // The chart data, as `getChartData` computes it

  lemma EntriesPrefix(filtered: seq<Txn>, i: nat)
    requires i < |filtered|
    ensures IncomeEntries(filtered[..i + 1]) == IncomeEntries(filtered[..i]) + [Entry(filtered[i].description, filtered[i].amount)]
  {
  }

  /**
   * The pass of `getChartData` over the credits: each is filed under its
   * description (a new description starting at 0) and added to the total.
   */
  method FileIncome(filtered: seq<Txn>) returns (categoryMap: map<string, real>, keys: seq<string>, totalIncome: real)
    ensures categoryMap == Totals(IncomeEntries(filtered))
    ensures keys == Order(IncomeEntries(filtered))
    ensures totalIncome == Sum(IncomeEntries(filtered))
  {
    categoryMap, keys, totalIncome := map[], [], 0.0;
    ghost var es: seq<Entry> := [];
    var i := 0;
    while i < |filtered|
      invariant 0 <= i <= |filtered|
      invariant es == IncomeEntries(filtered[..i])
      invariant categoryMap == Totals(es) && keys == Order(es) && totalIncome == Sum(es)
    {
      var t := filtered[i];
      EntriesPrefix(filtered, i);
      FileStep(es, categoryMap, keys, t.description, t.amount);
      SumOneMore(es, Entry(t.description, t.amount));
      ghost var before := categoryMap;
      if t.description !in categoryMap {
        categoryMap := categoryMap[t.description := 0.0];
        keys := keys + [t.description];
      }
      categoryMap := categoryMap[t.description := categoryMap[t.description] + t.amount];
      assert categoryMap == before[t.description := (if t.description in before then before[t.description] else 0.0) + t.amount];
      totalIncome := totalIncome + t.amount;
      es := es + [Entry(t.description, t.amount)];
      i := i + 1;
    }
    assert filtered[..|filtered|] == filtered;
  }

  /**
   * `getChartData`: the grouped credits and their total, then one slice per
   * description, in the order the descriptions were first met.
   */
  method GetChartData(filtered: seq<Txn>) returns (slices: seq<Slice>, totalIncome: real)
    ensures totalIncome == AmountTotal(filtered)
    ensures slices == ChartSlices(filtered)
  {
    var categoryMap, keys;
    categoryMap, keys, totalIncome := FileIncome(filtered);
    IncomeTotal(filtered);
    OrderIsKeys(IncomeEntries(filtered));
    slices := seq(|keys|, j requires 0 <= j < |keys| =>
      Slice(keys[j], categoryMap[keys[j]], Percentage(categoryMap[keys[j]], totalIncome), Colors[j % |Colors|]));
    assert slices == SlicesOf(categoryMap, keys, totalIncome);
  }

  // ---------------------------------------------------------------------
  // What the chart data says

  lemma {:induction false} IncomeTotal(filtered: seq<Txn>)
    ensures Sum(IncomeEntries(filtered)) == AmountTotal(filtered)
    decreases |filtered|
  {
    if filtered != [] {
      var init := filtered[..|filtered| - 1];
      IncomeTotal(init);
      assert IncomeEntries(filtered)[..|filtered| - 1] == IncomeEntries(init);
    }
  }

  lemma {:induction false} IncomeKeySum(filtered: seq<Txn>, d: string)
    ensures KeySum(IncomeEntries(filtered), d) == DescriptionTotal(filtered, d)
    decreases |filtered|
  {
    if filtered != [] {
      var init := filtered[..|filtered| - 1];
      IncomeKeySum(init, d);
      assert IncomeEntries(filtered)[..|filtered| - 1] == IncomeEntries(init);
    }
  }

  /** The slices, position by position: the i-th first-met description, its total and its share. */
  lemma ChartSlicesAt(filtered: seq<Txn>)
    ensures var es := IncomeEntries(filtered);
      var s := ChartSlices(filtered);
      && |s| == |Order(es)|
      && forall i :: 0 <= i < |s| ==>
           && s[i].name == Order(es)[i]
           && Order(es)[i] in Totals(es)
           && s[i].value == Totals(es)[Order(es)[i]]
           && s[i].percentage == Percentage(s[i].value, Sum(es))
  {
    OrderIsKeys(IncomeEntries(filtered));
  }

  /**
   * One slice per distinct description of the filtered credits, none twice
   * and no more slices than credits.
   */
  lemma SlicesAreGroups(filtered: seq<Txn>)
    ensures var s := ChartSlices(filtered);
      && |s| <= |filtered|
      && (forall i, j :: 0 <= i < j < |s| ==> s[i].name != s[j].name)
      && (forall i :: 0 <= i < |s| ==> exists p :: 0 <= p < |filtered| && filtered[p].description == s[i].name)
      && (forall p :: 0 <= p < |filtered| ==> exists i :: 0 <= i < |s| && s[i].name == filtered[p].description)
  {
    var es := IncomeEntries(filtered);
    var s := ChartSlices(filtered);
    var o := Order(es);
    ChartSlicesAt(filtered);
    OrderIsKeys(es);
    TotalsAreKeySums(es);
    forall i | 0 <= i < |s| ensures exists p :: 0 <= p < |filtered| && filtered[p].description == s[i].name {
      assert o[i] in Totals(es);
      var p :| 0 <= p < |es| && es[p].key == o[i];
      assert filtered[p].description == s[i].name;
    }
    forall p | 0 <= p < |filtered| ensures exists i :: 0 <= i < |s| && s[i].name == filtered[p].description {
      assert es[p].key == filtered[p].description;
      assert filtered[p].description in o;
      var i :| 0 <= i < |o| && o[i] == filtered[p].description;
      assert s[i].name == filtered[p].description;
    }
  }

  /** Each slice holds the sum of the amounts of its description's credits. */
  lemma SliceValues(filtered: seq<Txn>)
    ensures var s := ChartSlices(filtered);
      forall i :: 0 <= i < |s| ==> s[i].value == DescriptionTotal(filtered, s[i].name)
  {
    var es := IncomeEntries(filtered);
    var s := ChartSlices(filtered);
    ChartSlicesAt(filtered);
    TotalsAreKeySums(es);
    forall i | 0 <= i < |s| ensures s[i].value == DescriptionTotal(filtered, s[i].name) {
      IncomeKeySum(filtered, s[i].name);
    }
  }

  /** The slices come in the order their descriptions first occur among the credits. */
  lemma SlicesInFirstOccurrenceOrder(filtered: seq<Txn>)
    ensures var s := ChartSlices(filtered);
      forall i, j :: 0 <= i < j < |s| ==>
        FirstIndex(IncomeEntries(filtered), s[i].name) < FirstIndex(IncomeEntries(filtered), s[j].name)
  {
    ChartSlicesAt(filtered);
    OrderIsFirstOccurrence(IncomeEntries(filtered));
  }

  function SumValues(s: seq<Slice>): real
    decreases |s|
  {
    if s == [] then 0.0 else SumValues(s[..|s| - 1]) + s[|s| - 1].value
  }

  function SumPercentages(s: seq<Slice>): real
    decreases |s|
  {
    if s == [] then 0.0
    else SumPercentages(s[..|s| - 1]) + (match s[|s| - 1].percentage case None => 0.0 case Some(p) => p)
  }

  /** Shares of one total add up as the values do. */
  lemma ShareAdds(a: real, v: real, total: real)
    requires total != 0.0
    ensures a / total * 100.0 + v / total * 100.0 == (a + v) / total * 100.0
  {
  }

  lemma WholeShare(total: real)
    requires total != 0.0
    ensures total / total * 100.0 == 100.0
  {
  }

  lemma {:induction false} SharesSum(m: map<string, real>, keys: seq<string>, total: real)
    requires forall k :: 0 <= k < |keys| ==> keys[k] in m
    requires total != 0.0
    ensures SumPercentages(SlicesOf(m, keys, total)) == SumOver(m, keys) / total * 100.0
    decreases |keys|
  {
    if keys != [] {
      var init := keys[..|keys| - 1];
      SharesSum(m, init, total);
      var s := SlicesOf(m, keys, total);
      assert s[..|s| - 1] == SlicesOf(m, init, total);
      ShareAdds(SumOver(m, init), m[keys[|keys| - 1]], total);
    }
  }

  lemma {:induction false} SlicesValueSum(m: map<string, real>, keys: seq<string>, total: real)
    requires forall k :: 0 <= k < |keys| ==> keys[k] in m
    ensures SumValues(SlicesOf(m, keys, total)) == SumOver(m, keys)
    decreases |keys|
  {
    if keys != [] {
      var init := keys[..|keys| - 1];
      SlicesValueSum(m, init, total);
      var s := SlicesOf(m, keys, total);
      assert s[..|s| - 1] == SlicesOf(m, init, total);
    }
  }

  /** The slices' values add up to the total income, the sum of the filtered amounts. */
  lemma SlicesAddUpToTotal(filtered: seq<Txn>)
    ensures SumValues(ChartSlices(filtered)) == AmountTotal(filtered)
  {
    var es := IncomeEntries(filtered);
    OrderIsKeys(es);
    SumOverOrder(es);
    IncomeTotal(filtered);
    SlicesValueSum(Totals(es), Order(es), Sum(es));
  }

  /** With a non-zero total income the percentages add up to 100. */
  lemma SharesAddUpToHundred(filtered: seq<Txn>)
    ensures AmountTotal(filtered) != 0.0 ==> SumPercentages(ChartSlices(filtered)) == 100.0
  {
    var es := IncomeEntries(filtered);
    var total := Sum(es);
    OrderIsKeys(es);
    SumOverOrder(es);
    IncomeTotal(filtered);
    if total != 0.0 {
      SharesSum(Totals(es), Order(es), total);
      WholeShare(total);
    }
  }

  /**
   * With a non-zero total income each slice's percentage is value / total *
   * 100; with a zero total no slice has one.
   */
  lemma SharesAreProportional(filtered: seq<Txn>)
    ensures var s := ChartSlices(filtered);
      forall i :: 0 <= i < |s| ==>
        s[i].percentage == if AmountTotal(filtered) == 0.0 then None else Some(s[i].value / AmountTotal(filtered) * 100.0)
  {
    IncomeTotal(filtered);
    ChartSlicesAt(filtered);
  }

  lemma ColorsDistinct()
    ensures Distinct(Colors)
  {
  }

  /**
   * Slice i is coloured `COLORS[i % 8]`: two slices share a colour exactly
   * when their positions differ by a multiple of 8.
   */
  lemma SliceColors(filtered: seq<Txn>)
    ensures forall i :: 0 <= i < |ChartSlices(filtered)| ==> ChartSlices(filtered)[i].color == Colors[i % 8]
    ensures forall i, j :: 0 <= i < |ChartSlices(filtered)| && 0 <= j < |ChartSlices(filtered)| ==>
      (ChartSlices(filtered)[i].color == ChartSlices(filtered)[j].color <==> i % 8 == j % 8)
  {
    ColorsDistinct();
  }
}
