/**
 * The two computations of the dashboard screen
 * (src/components/DashboardScreen.jsx): converting the ledger into the
 * chosen currency, and the spending limit, the average monthly expense.
 */
module Dashboard {
  import opened Ledger
  import opened Seqs
  import opened Grouping
  import opened Strings

  /** Exchange rates by pair name: `rates["INR" + code]` is the value of one rupee in `code`. */
  type RateTable = map<string, real>

  /** The currency amounts are stored in. */
  const BaseCurrency: string := "INR"

  /** `transactions ? [...transactions] : []`. */
  function Original(transactions: Option<seq<Txn>>): seq<Txn> {
    match transactions
    case None => []
    case Some(ts) => ts
  }

  /** One record in another currency: amount and balance multiplied by the rate. */
  function ScaleTxn(t: Txn, rate: real): Txn {
    t.(amount := t.amount * rate, currentBalance := t.currentBalance * rate)
  }

  function ScaleAll(ts: seq<Txn>, rate: real): (r: seq<Txn>)
    ensures |r| == |ts|
  {
    seq(|ts|, k requires 0 <= k < |ts| => ScaleTxn(ts[k], rate))
  }

  /**
   * The conversion effect. Without rates, or in rupees, the ledger is shown
   * as stored. Otherwise every amount and balance is multiplied by the rate
   * of the chosen currency; when the table has no such rate the source
   * multiplies by `undefined` and every amount becomes NaN, which is `None`
   * here.
   */
  function ConvertCurrency(transactions: Option<seq<Txn>>, rates: Option<RateTable>, currency: string): (r: Option<seq<Txn>>)
    ensures (rates.None? || currency == BaseCurrency) ==> r == Some(Original(transactions))
    ensures r.None? <==> rates.Some? && currency != BaseCurrency && BaseCurrency + currency !in rates.value
    ensures r.Some? ==> |r.value| == |Original(transactions)|
    ensures r.Some? && rates.Some? && currency != BaseCurrency ==>
      var rate := rates.value[BaseCurrency + currency];
      forall k :: 0 <= k < |r.value| ==>
        var t, u := Original(transactions)[k], r.value[k];
        && u.amount == t.amount * rate && u.currentBalance == t.currentBalance * rate
        && u.increment == t.increment && u.description == t.description && u.mode == t.mode
        && u.date == t.date && u.time == t.time && u.id == t.id && u.userId == t.userId
  {
    var ts := Original(transactions);
    if rates.None? || currency == BaseCurrency then Some(ts)
    else if BaseCurrency + currency in rates.value then Some(ScaleAll(ts, rates.value[BaseCurrency + currency]))
    else None
  }

  /** Converting at rate 1 changes nothing. */
  lemma ScaleByOne(ts: seq<Txn>)
    ensures ScaleAll(ts, 1.0) == ts
  {
    assert forall k :: 0 <= k < |ts| ==> ScaleAll(ts, 1.0)[k] == ts[k];
  }

  /** Converting at a rate and back at its inverse gives the ledger back. */
  lemma ScaleRoundTrip(ts: seq<Txn>, rate: real)
    requires rate != 0.0
    ensures ScaleAll(ScaleAll(ts, rate), 1.0 / rate) == ts
  {
    forall k | 0 <= k < |ts| ensures ScaleAll(ScaleAll(ts, rate), 1.0 / rate)[k] == ts[k] {
      var t := ts[k];
      assert t.amount * rate * (1.0 / rate) == t.amount;
      assert t.currentBalance * rate * (1.0 / rate) == t.currentBalance;
    }
  }

  // ---------------------------------------------------------------------
  // The spending limit, specified

  /** The month a record is filed under: `date.slice(0, 7)`. */
  function MonthOf(t: Txn): string {
    Take(t.date, 7)
  }

  /** The sum of the debit amounts. */
  function DebitTotal(ts: seq<Txn>): real
    decreases |ts|
  {
    if ts == [] then 0.0
    else DebitTotal(ts[..|ts| - 1]) + (if ts[|ts| - 1].increment then 0.0 else ts[|ts| - 1].amount)
  }

  /** The sum of the debit amounts filed under `month`. */
  function MonthDebits(ts: seq<Txn>, month: string): real
    decreases |ts|
  {
    if ts == [] then 0.0
    else
      var t := ts[|ts| - 1];
      MonthDebits(ts[..|ts| - 1], month) + (if !t.increment && MonthOf(t) == month then t.amount else 0.0)
  }

  /** The months holding at least one debit. */
  function DebitMonths(ts: seq<Txn>): set<string> {
    set k | 0 <= k < |ts| && !ts[k].increment :: MonthOf(ts[k])
  }

  /**
   * The spending limit before rounding and conversion: total debits divided
   * by the number of months with debits, or 0 when there are none.
   */
  function AverageMonthlyExpense(ts: seq<Txn>): real {
    if |DebitMonths(ts)| == 0 then 0.0 else DebitTotal(ts) / |DebitMonths(ts)| as real
  }

  /** The limit in the chosen currency (`None` where the source computes NaN). */
  function InCurrency(average: real, rates: Option<RateTable>, currency: string): Option<real> {
    if rates.None? || currency == BaseCurrency then Some(average)
    else if BaseCurrency + currency in rates.value then Some(average * rates.value[BaseCurrency + currency])
    else None
  }

  // ---------------------------------------------------------------------
  // The spending limit, as the effect computes it

  /** The entry a record files: one for a debit, none for a credit. */
  function Expense(t: Txn): seq<Entry> {
    if t.increment then [] else [Entry(MonthOf(t), t.amount)]
  }

  /** The debits as (month, amount) entries, in ledger order: what the first loop files. */
  function ExpenseEntries(ts: seq<Txn>): seq<Entry>
    decreases |ts|
  {
    if ts == [] then [] else ExpenseEntries(ts[..|ts| - 1]) + Expense(ts[|ts| - 1])
  }

  lemma ExpenseStep(ts: seq<Txn>, i: nat)
    requires i < |ts|
    ensures ExpenseEntries(ts[..i + 1]) == ExpenseEntries(ts[..i]) + Expense(ts[i])
  {
    assert ts[..i + 1][..i] == ts[..i];
  }

  /** The buckets the first loop builds. */
  function Buckets(ts: seq<Txn>): map<string, real> {
    Totals(ExpenseEntries(ts))
  }

  /** The bucket keys in the order the second loop visits them. */
  function SortedMonths(ts: seq<Txn>): seq<string> {
    SortStrings(Order(ExpenseEntries(ts)))
  }

  /**
   * One turn of the first loop: a debit does `expensesByMonth[month] =
   * (expensesByMonth[month] || 0) + amount`, where `months` lists the
   * dictionary's keys in insertion order; a credit changes nothing. Given
   * the dictionary of the entries filed so far, it returns the dictionary of
   * those and the record's entry.
   */
  method AddExpense(buckets: map<string, real>, months: seq<string>, t: Txn, ghost es: seq<Entry>)
    returns (buckets': map<string, real>, months': seq<string>)
    requires buckets == Totals(es) && months == Order(es)
    ensures var month := MonthOf(t);
      && buckets' == (if t.increment then buckets else buckets[month := (if month in buckets then buckets[month] else 0.0) + t.amount])
      && months' == (if t.increment || month in buckets then months else months + [month])
    ensures buckets' == Totals(es + Expense(t)) && months' == Order(es + Expense(t))
  {
    buckets', months' := buckets, months;
    if !t.increment {
      var month := MonthOf(t);
      assert es + Expense(t) == es + [Entry(month, t.amount)];
      FileStep(es, buckets, months, month, t.amount);
      if month !in buckets {
        months' := months + [month];
      }
      buckets' := buckets[month := (if month in buckets then buckets[month] else 0.0) + t.amount];
    } else {
      assert es + Expense(t) == es;
    }
  }

  /**
   * The first loop: each debit adds its amount to its month's bucket, a
   * month met for the first time starting from 0. `months` lists the
   * buckets in the order they were created, as `Object.keys` returns them.
   */
  method BucketExpenses(ts: seq<Txn>) returns (buckets: map<string, real>, months: seq<string>)
    ensures buckets == Totals(ExpenseEntries(ts))
    ensures months == Order(ExpenseEntries(ts))
  {
    buckets := map[];
    months := [];
    ghost var es: seq<Entry> := [];
    var i := 0;
    while i < |ts|
      invariant 0 <= i <= |ts|
      invariant es == ExpenseEntries(ts[..i])
      invariant buckets == Totals(es) && months == Order(es)
    {
      ExpenseStep(ts, i);
      buckets, months := AddExpense(buckets, months, ts[i], es);
      es := es + Expense(ts[i]);
      i := i + 1;
    }
    assert ts[..|ts|] == ts;
  }

  /**
   * The second loop: after the k-th month `sum` holds the first k buckets,
   * `count` is k and `average` their mean; at the end, the mean of all.
   */
  method MovingAverage(buckets: map<string, real>, sortedMonths: seq<string>) returns (average: real)
    requires forall k :: 0 <= k < |sortedMonths| ==> sortedMonths[k] in buckets
    ensures average == if |sortedMonths| == 0 then 0.0 else SumOver(buckets, sortedMonths) / |sortedMonths| as real
  {
    var sum := 0.0;
    var count := 0;
    average := 0.0;
    var k := 0;
    while k < |sortedMonths|
      invariant 0 <= k <= |sortedMonths|
      invariant count == k
      invariant sum == SumOver(buckets, sortedMonths[..k])
      invariant average == if k == 0 then 0.0 else sum / k as real
    {
      assert sortedMonths[..k + 1][..k] == sortedMonths[..k];
      sum := sum + buckets[sortedMonths[k]];
      count := count + 1;
      average := sum / count as real;
      k := k + 1;
    }
    assert sortedMonths[..|sortedMonths|] == sortedMonths;
  }

  /** Both loops, with the keys sorted in between: the average monthly expense. */
  method MonthlyAverage(ts: seq<Txn>) returns (average: real)
    ensures average == AverageMonthlyExpense(ts)
  {
    var buckets, months := BucketExpenses(ts);
    var sortedMonths := SortStrings(months);
    SortedBucketsAverage(ts);
    assert buckets == Buckets(ts) && sortedMonths == SortedMonths(ts);
    average := MovingAverage(buckets, sortedMonths);
  }

  /**
   * The spending-limit effect: 0 for a missing or empty ledger; otherwise
   * the buckets' keys are sorted, their mean taken, and the mean converted
   * into the chosen currency at the rate the ledger is converted at.
   */
  method SpendingLimit(transactions: Option<seq<Txn>>, rates: Option<RateTable>, currency: string) returns (limit: Option<real>)
    ensures transactions.None? || transactions.value == [] ==> limit == Some(0.0)
    ensures transactions.Some? && transactions.value != [] ==>
      limit == InCurrency(AverageMonthlyExpense(transactions.value), rates, currency)
  {
    if transactions.None? || |transactions.value| == 0 {
      return Some(0.0);
    }
    var average := MonthlyAverage(transactions.value);
    if rates.Some? && currency != BaseCurrency {
      var key := BaseCurrency + currency;
      if key in rates.value {
        limit := Some(average * rates.value[key]);
        assert InCurrency(average, rates, currency).value == limit.value;
      } else {
        limit := None;
      }
    } else {
      limit := Some(average);
    }
  }

  // ---------------------------------------------------------------------
  // What the buckets hold

  lemma {:induction false} ExpenseSum(ts: seq<Txn>)
    ensures Sum(ExpenseEntries(ts)) == DebitTotal(ts)
    decreases |ts|
  {
    if ts != [] {
      var t := ts[|ts| - 1];
      var init := ExpenseEntries(ts[..|ts| - 1]);
      ExpenseSum(ts[..|ts| - 1]);
      if !t.increment {
        FileOneMore(init, Entry(MonthOf(t), t.amount));
      } else {
        assert ExpenseEntries(ts) == init;
      }
    }
  }

  lemma {:induction false} ExpenseKeySum(ts: seq<Txn>, month: string)
    ensures KeySum(ExpenseEntries(ts), month) == MonthDebits(ts, month)
    decreases |ts|
  {
    if ts != [] {
      var t := ts[|ts| - 1];
      var init := ExpenseEntries(ts[..|ts| - 1]);
      ExpenseKeySum(ts[..|ts| - 1], month);
      if !t.increment {
        KeySumOneMore(init, Entry(MonthOf(t), t.amount), month);
      } else {
        assert ExpenseEntries(ts) == init;
      }
    }
  }

  lemma {:induction false} ExpenseMonths(ts: seq<Txn>)
    ensures forall m :: m in Totals(ExpenseEntries(ts)) <==> m in DebitMonths(ts)
    decreases |ts|
  {
    if ts != [] {
      var init := ts[..|ts| - 1];
      var t := ts[|ts| - 1];
      ExpenseMonths(init);
      assert forall k :: 0 <= k < |init| ==> init[k] == ts[k];
      assert DebitMonths(ts) == DebitMonths(init) + (if t.increment then {} else {MonthOf(t)});
      if !t.increment {
        FileOneMore(ExpenseEntries(init), Entry(MonthOf(t), t.amount));
      } else {
        assert ExpenseEntries(ts) == ExpenseEntries(init);
      }
    }
  }

  /**
   * There is one bucket per month with debits, holding the sum of that
   * month's debits; the months are listed once each, and the buckets add
   * up to all debits.
   */
  lemma BucketsAreDebitMonths(ts: seq<Txn>)
    ensures forall m :: m in Totals(ExpenseEntries(ts)) <==> m in DebitMonths(ts)
    ensures forall m :: m in Totals(ExpenseEntries(ts)) ==> Totals(ExpenseEntries(ts))[m] == MonthDebits(ts, m)
    ensures forall m :: m in Order(ExpenseEntries(ts)) <==> m in DebitMonths(ts)
    ensures Distinct(Order(ExpenseEntries(ts)))
    ensures SumOver(Totals(ExpenseEntries(ts)), Order(ExpenseEntries(ts))) == DebitTotal(ts)
  {
    var es := ExpenseEntries(ts);
    ExpenseMonths(ts);
    TotalsAreKeySums(es);
    forall m | m in Totals(es) ensures Totals(es)[m] == MonthDebits(ts, m) {
      ExpenseKeySum(ts, m);
    }
    OrderIsKeys(es);
    SumOverOrder(es);
    ExpenseSum(ts);
  }

  /** The mean the second loop reaches over the sorted months is the average monthly expense. */
  lemma SortedBucketsAverage(ts: seq<Txn>)
    ensures forall k :: 0 <= k < |SortedMonths(ts)| ==> SortedMonths(ts)[k] in Buckets(ts)
    ensures AverageMonthlyExpense(ts) ==
      if |SortedMonths(ts)| == 0 then 0.0 else SumOver(Buckets(ts), SortedMonths(ts)) / |SortedMonths(ts)| as real
  {
    var es := ExpenseEntries(ts);
    var o := Order(es);
    var sorted := SortStrings(o);
    BucketsAreDebitMonths(ts);
    SortStringsIsSorted(o);
    forall k | 0 <= k < |sorted| ensures sorted[k] in Buckets(ts) {
      assert sorted[k] in multiset(o);
    }
    SumOverPermutation(Totals(es), sorted, o);
    DistinctCard(o);
    assert (set m | m in o) == DebitMonths(ts);
    assert |sorted| == |multiset(sorted)| == |multiset(o)| == |o|;
  }

  /** The sorted month keys are in calendar order, when every debit's date starts "YYYY-MM". */
  lemma SortedMonthsAreChronological(ts: seq<Txn>)
    requires forall k :: 0 <= k < |ts| && !ts[k].increment ==> IsMonthKey(MonthOf(ts[k]))
    ensures forall i :: 0 <= i < |SortedMonths(ts)| ==> IsMonthKey(SortedMonths(ts)[i])
    ensures forall i, j :: 0 <= i < j < |SortedMonths(ts)| ==>
      var a, b := SortedMonths(ts)[i], SortedMonths(ts)[j];
      KeyYear(a) < KeyYear(b) || (KeyYear(a) == KeyYear(b) && KeyMonth(a) < KeyMonth(b))
  {
    var o := Order(ExpenseEntries(ts));
    var sorted := SortStrings(o);
    BucketsAreDebitMonths(ts);
    SortDistinctStrings(o);
    SortStringsIsSorted(o);
    forall i | 0 <= i < |sorted| ensures IsMonthKey(sorted[i]) {
      assert sorted[i] in multiset(o);
      assert sorted[i] in DebitMonths(ts);
    }
    forall i, j | 0 <= i < j < |sorted|
      ensures KeyYear(sorted[i]) < KeyYear(sorted[j]) ||
        (KeyYear(sorted[i]) == KeyYear(sorted[j]) && KeyMonth(sorted[i]) < KeyMonth(sorted[j]))
    {
      MonthKeyOrder(sorted[i], sorted[j]);
    }
  }

  /** A ledger of credits only has no debit months, so its limit is 0. */
  lemma CreditsOnlyGiveZero(ts: seq<Txn>)
    requires forall k :: 0 <= k < |ts| ==> ts[k].increment
    ensures DebitMonths(ts) == {} && AverageMonthlyExpense(ts) == 0.0
  {
  }

  // ---------------------------------------------------------------------
  // The limit and the converted ledger

  lemma {:induction false} ScaledDebitTotal(ts: seq<Txn>, rate: real)
    ensures DebitTotal(ScaleAll(ts, rate)) == DebitTotal(ts) * rate
    decreases |ts|
  {
    if ts != [] {
      var init := ts[..|ts| - 1];
      ScaledDebitTotal(init, rate);
      assert ScaleAll(ts, rate)[..|ts| - 1] == ScaleAll(init, rate);
    }
  }

  /**
   * Converting the limit is the same as computing the limit of the converted
   * ledger: the average commutes with the rate, since conversion changes no
   * date and no credit/debit flag.
   */
  lemma LimitFollowsConversion(ts: seq<Txn>, rate: real)
    ensures AverageMonthlyExpense(ScaleAll(ts, rate)) == AverageMonthlyExpense(ts) * rate
  {
    var us := ScaleAll(ts, rate);
    assert DebitMonths(us) == DebitMonths(ts) by {
      assert forall k :: 0 <= k < |ts| ==> us[k].increment == ts[k].increment && MonthOf(us[k]) == MonthOf(ts[k]);
    }
    ScaledDebitTotal(ts, rate);
  }

  /**
   * The limit shown in a converted currency is the limit of the ledger shown
   * beside it.
   */
  lemma LimitMatchesConvertedLedger(ts: seq<Txn>, rates: Option<RateTable>, currency: string)
    requires ConvertCurrency(Some(ts), rates, currency).Some?
    ensures InCurrency(AverageMonthlyExpense(ts), rates, currency) ==
      Some(AverageMonthlyExpense(ConvertCurrency(Some(ts), rates, currency).value))
  {
    if rates.Some? && currency != BaseCurrency {
      var rate := rates.value[BaseCurrency + currency];
      assert ConvertCurrency(Some(ts), rates, currency) == Some(ScaleAll(ts, rate));
      LimitFollowsConversion(ts, rate);
      assert InCurrency(AverageMonthlyExpense(ts), rates, currency).value == AverageMonthlyExpense(ts) * rate;
    }
  }
}
