/**
 * The ledger table (src/components/Transactions.jsx): the date-window filter
 * behind the Filter button and the three sort orders of the table.
 */
module Transactions {
  import opened Ledger
  import opened Seqs

  /** How many records the table shows when no complete date range is chosen. */
  const RecentCount: nat := 10

  /** Inside the day-normalised window: from the start day's first millisecond to the end day's last. */
  predicate InDayWindow(start: Instant, end: Instant, t: Txn) {
    Stamp(StartOfDay(start)) <= Stamp(t.time) <= Stamp(EndOfDay(end))
  }

  function DayWindow(start: Instant, end: Instant): Txn -> bool {
    t => InDayWindow(start, end, t)
  }

  /**
   * `filterTransactions`: with a bound missing, the first ten records; with
   * both bounds, every record inside the day-normalised inclusive window.
   */
  function FilterTransactions(transactions: seq<Txn>, start: Option<Instant>, end: Option<Instant>): (r: seq<Txn>)
    ensures |r| <= |transactions|
    ensures IsSubsequence(r, transactions)
  {
    if start.None? || end.None? then
      TakeIsSubsequence(transactions, RecentCount);
      Take(transactions, RecentCount)
    else
      FilterIsSubsequence(transactions, DayWindow(start.value, end.value));
      Filter(transactions, DayWindow(start.value, end.value))
  }

  lemma {:induction false} TakeIsSubsequence<T>(s: seq<T>, n: nat)
    ensures IsSubsequence(Take(s, n), s)
  {
    if |s| > n {
      PrefixIsSubsequence(s, n);
    } else {
      SubsequenceReflexive(s);
    }
  }

  lemma {:induction false} SubsequenceReflexive<T>(s: seq<T>)
    ensures IsSubsequence(s, s)
  {
    if s != [] {
      SubsequenceReflexive(s[1..]);
    }
  }

  lemma {:induction false} PrefixIsSubsequence<T>(s: seq<T>, n: nat)
    requires n <= |s|
    ensures IsSubsequence(s[..n], s)
  {
    if n > 0 {
      PrefixIsSubsequence(s[1..], n - 1);
      assert s[..n][1..] == s[1..][..n - 1];
    }
  }

  /** Without both bounds the table shows the first min(10, n) records, in their order. */
  lemma RecentWhenUnbounded(transactions: seq<Txn>, start: Option<Instant>, end: Option<Instant>)
    requires start.None? || end.None?
    ensures var r := FilterTransactions(transactions, start, end);
      && |r| == (if |transactions| < 10 then |transactions| else 10)
      && forall k :: 0 <= k < |r| ==> r[k] == transactions[k]
  {
  }

  /**
   * With both bounds, a record is kept exactly when its calendar day lies
   * between the start day and the end day, whatever the times of day of the
   * bounds; the kept records are an order-preserving subsequence holding each
   * of them as often as the input does.
   */
  lemma WindowKeepsCalendarDays(transactions: seq<Txn>, start: Instant, end: Instant)
    requires ValidInstant(start) && ValidInstant(end)
    requires forall k :: 0 <= k < |transactions| ==> ValidInstant(transactions[k].time)
    ensures var r := FilterTransactions(transactions, Some(start), Some(end));
      && IsSubsequence(r, transactions)
      && (forall t :: t in r <==> t in transactions && DayNumber(start) <= DayNumber(t.time) <= DayNumber(end))
      && (forall t :: InDayWindow(start, end, t) ==> multiset(r)[t] == multiset(transactions)[t])
  {
    var p := DayWindow(start, end);
    var r := Filter(transactions, p);
    FilterKeepsExactly(transactions, p);
    forall t ensures t in r <==> t in transactions && DayNumber(start) <= DayNumber(t.time) <= DayNumber(end) {
      FilterMembership(transactions, p, t);
      if t in transactions {
        DayWindowIsDays(start, end, t);
      }
    }
  }

  /** The day-normalised window holds a valid date exactly when its day lies between the bound days. */
  lemma DayWindowIsDays(start: Instant, end: Instant, t: Txn)
    requires ValidInstant(t.time)
    ensures InDayWindow(start, end, t) <==> DayNumber(start) <= DayNumber(t.time) <= DayNumber(end)
  {
    StampInDay(t.time);
  }

  /** A window whose start day is after its end day keeps nothing. */
  lemma InvertedWindowIsEmpty(transactions: seq<Txn>, start: Instant, end: Instant)
    requires ValidInstant(start) && ValidInstant(end)
    requires forall k :: 0 <= k < |transactions| ==> ValidInstant(transactions[k].time)
    requires DayNumber(start) > DayNumber(end)
    ensures FilterTransactions(transactions, Some(start), Some(end)) == []
  {
    forall k | 0 <= k < |transactions| ensures !InDayWindow(start, end, transactions[k]) {
      StampInDay(transactions[k].time);
    }
    FilterNonePass(transactions, DayWindow(start, end));
  }

  /** Filtering the filtered table again with the same bounds returns it unchanged. */
  lemma FilterTransactionsIdempotent(transactions: seq<Txn>, start: Option<Instant>, end: Option<Instant>)
    ensures var r := FilterTransactions(transactions, start, end);
      FilterTransactions(r, start, end) == r
  {
    if start.Some? && end.Some? {
      FilterIdempotent(transactions, DayWindow(start.value, end.value));
    }
  }

  // ---------------------------------------------------------------------
  // Sorting the table (`sortedTransactions`)

  /** The table's sort options; any other option value sorts as `ByDate` does. */
  datatype SortOption = ByDate | ByAmount | ByDescription

  /** How many records of `s` carry description `d`. */
  function Count(s: seq<Txn>, d: string): nat
    decreases |s|
  {
    if s == [] then 0
    else Count(s[..|s| - 1], d) + (if s[|s| - 1].description == d then 1 else 0)
  }

  /** The frequency table: for every description that occurs, how often it occurs. */
  function FrequencyTable(all: seq<Txn>): (freq: map<string, nat>)
    ensures forall d :: d in freq <==> exists k :: 0 <= k < |all| && all[k].description == d
  {
    map d | d in (set t | t in all :: t.description) :: Count(all, d)
  }

  /** Descriptions that occur nowhere are counted zero times. */
  lemma {:induction false} CountAbsent(s: seq<Txn>, d: string)
    requires forall k :: 0 <= k < |s| ==> s[k].description != d
    ensures Count(s, d) == 0
  {
    if s != [] {
      CountAbsent(s[..|s| - 1], d);
    }
  }

  /**
   * The `forEach` that fills `frequencyMap` over all transactions (not just
   * the filtered ones): the table of every description's count.
   */
  method BuildFrequencyMap(all: seq<Txn>) returns (freq: map<string, nat>)
    ensures freq == FrequencyTable(all)
  {
    freq := map[];
    var i := 0;
    while i < |all|
      invariant 0 <= i <= |all|
      invariant forall d :: d in freq <==> exists k :: 0 <= k < i && all[k].description == d
      invariant forall d :: d in freq ==> freq[d] == Count(all[..i], d)
    {
      var d := all[i].description;
      assert all[..i + 1][..i] == all[..i];
      if d !in freq {
        CountAbsent(all[..i], d);
      }
      freq := freq[d := (if d in freq then freq[d] else 0) + 1];
      i := i + 1;
    }
    assert all[..i] == all;
  }

  /**
   * The value each option's comparator orders by: the amount, the
   * description's frequency (a description missing from the table counts
   * zero), or the time value of the date.
   */
  function SortKey(option: SortOption, freq: map<string, nat>, t: Txn): (key: real)
    ensures option.ByAmount? ==> key == t.amount
    ensures option.ByDescription? ==> key >= 0.0 && (key == 0.0 <==> t.description !in freq || freq[t.description] == 0)
  {
    match option
    case ByAmount => t.amount
    case ByDescription => if t.description in freq then freq[t.description] as real else 0.0
    case ByDate => Stamp(t.time) as real
  }

  /** A description's key under the full frequency table is its count over all transactions. */
  lemma DescriptionKeyIsFrequency(all: seq<Txn>, t: Txn)
    ensures SortKey(ByDescription, FrequencyTable(all), t) == Count(all, t.description) as real
  {
    if t.description !in FrequencyTable(all) {
      CountAbsent(all, t.description);
    }
  }

  /**
   * Stable insertion of `x` behind `r`: `x` moves left past the elements
   * with a strictly smaller key and stops behind the first one whose key is
   * at least its own.
   */
  function Insert(r: seq<Txn>, x: Txn, option: SortOption, freq: map<string, nat>): (q: seq<Txn>)
    ensures |q| == |r| + 1
    decreases |r|
  {
    if r == [] then [x]
    else if SortKey(option, freq, r[|r| - 1]) >= SortKey(option, freq, x) then r + [x]
    else Insert(r[..|r| - 1], x, option, freq) + [r[|r| - 1]]
  }

  /** The stable descending sort that `sorted.sort(comparator)` performs. */
  function StableSort(s: seq<Txn>, option: SortOption, freq: map<string, nat>): (r: seq<Txn>)
    ensures |r| == |s|
    decreases |s|
  {
    if s == [] then [] else Insert(StableSort(s[..|s| - 1], option, freq), s[|s| - 1], option, freq)
  }

  /** Keys never increase along `r`. */
  predicate NonIncreasing(r: seq<Txn>, option: SortOption, freq: map<string, nat>) {
    forall i, j :: 0 <= i < j < |r| ==> SortKey(option, freq, r[i]) >= SortKey(option, freq, r[j])
  }

  function HasKey(option: SortOption, freq: map<string, nat>, v: real): Txn -> bool {
    t => SortKey(option, freq, t) == v
  }

  /** The records of `s` whose key is `v`, in their order in `s`. */
  function WithKey(s: seq<Txn>, option: SortOption, freq: map<string, nat>, v: real): seq<Txn> {
    Filter(s, HasKey(option, freq, v))
  }

  lemma {:induction false} InsertPermutes(r: seq<Txn>, x: Txn, option: SortOption, freq: map<string, nat>)
    ensures multiset(Insert(r, x, option, freq)) == multiset(r) + multiset{x}
    decreases |r|
  {
    if r != [] && SortKey(option, freq, r[|r| - 1]) < SortKey(option, freq, x) {
      var init := r[..|r| - 1];
      InsertPermutes(init, x, option, freq);
      assert r == init + [r[|r| - 1]];
    }
  }

  /** Inserting keeps every key at least `bound` when `x` and all of `r` are. */
  lemma {:induction false} InsertLowerBound(r: seq<Txn>, x: Txn, option: SortOption, freq: map<string, nat>, bound: real)
    requires forall k :: 0 <= k < |r| ==> SortKey(option, freq, r[k]) >= bound
    requires SortKey(option, freq, x) >= bound
    ensures forall k :: 0 <= k < |r| + 1 ==> SortKey(option, freq, Insert(r, x, option, freq)[k]) >= bound
    decreases |r|
  {
    if r != [] && SortKey(option, freq, r[|r| - 1]) < SortKey(option, freq, x) {
      InsertLowerBound(r[..|r| - 1], x, option, freq, bound);
    }
  }

  lemma {:induction false} InsertKeepsOrder(r: seq<Txn>, x: Txn, option: SortOption, freq: map<string, nat>)
    requires NonIncreasing(r, option, freq)
    ensures NonIncreasing(Insert(r, x, option, freq), option, freq)
    decreases |r|
  {
    if r != [] && SortKey(option, freq, r[|r| - 1]) < SortKey(option, freq, x) {
      var init := r[..|r| - 1];
      var last := r[|r| - 1];
      InsertKeepsOrder(init, x, option, freq);
      InsertLowerBound(init, x, option, freq, SortKey(option, freq, last));
    }
  }

  lemma MultisetOfSnoc(s: seq<Txn>)
    requires s != []
    ensures multiset(s) == multiset(s[..|s| - 1]) + multiset{s[|s| - 1]}
  {
    assert s == s[..|s| - 1] + [s[|s| - 1]];
  }

  /** The sorted table is a permutation of the filtered one. */
  lemma {:induction false} StableSortPermutes(s: seq<Txn>, option: SortOption, freq: map<string, nat>)
    ensures multiset(StableSort(s, option, freq)) == multiset(s)
    decreases |s|
  {
    if s != [] {
      var init, x := s[..|s| - 1], s[|s| - 1];
      StableSortPermutes(init, option, freq);
      InsertPermutes(StableSort(init, option, freq), x, option, freq);
      MultisetOfSnoc(s);
    }
  }

  /** The sorted table's keys never increase. */
  lemma {:induction false} StableSortOrders(s: seq<Txn>, option: SortOption, freq: map<string, nat>)
    ensures NonIncreasing(StableSort(s, option, freq), option, freq)
    decreases |s|
  {
    if s != [] {
      StableSortOrders(s[..|s| - 1], option, freq);
      InsertKeepsOrder(StableSort(s[..|s| - 1], option, freq), s[|s| - 1], option, freq);
    }
  }

  lemma {:induction false} InsertKeepsTies(r: seq<Txn>, x: Txn, option: SortOption, freq: map<string, nat>, v: real)
    ensures WithKey(Insert(r, x, option, freq), option, freq, v) == WithKey(r, option, freq, v) + WithKey([x], option, freq, v)
    decreases |r|
  {
    var p := HasKey(option, freq, v);
    if r == [] {
      assert Insert(r, x, option, freq) == [x];
    } else if SortKey(option, freq, r[|r| - 1]) >= SortKey(option, freq, x) {
      FilterAppend(r, [x], p);
    } else {
      var init := r[..|r| - 1];
      var last := r[|r| - 1];
      var q := Insert(init, x, option, freq);
      InsertKeepsTies(init, x, option, freq, v);
      assert Insert(r, x, option, freq) == q + [last];
      assert r == init + [last];
      assert !(p(x) && p(last));
      FilterSwapLast(q, init, x, last, p);
    }
  }

  /** The filtered form of the step where `x` moves in front of `last`. */
  lemma FilterSwapLast<T>(q: seq<T>, init: seq<T>, x: T, last: T, p: T -> bool)
    requires Filter(q, p) == Filter(init, p) + Filter([x], p)
    requires !(p(x) && p(last))
    ensures Filter(q + [last], p) == Filter(init + [last], p) + Filter([x], p)
  {
    FilterAppend(q, [last], p);
    FilterAppend(init, [last], p);
    FilterSingleton(x, p);
    FilterSingleton(last, p);
  }

  /**
   * Stability: for every key value, the records with that key appear in the
   * sorted table in the same order as in the filtered one.
   */
  lemma {:induction false} StableSortKeepsTies(s: seq<Txn>, option: SortOption, freq: map<string, nat>, v: real)
    ensures WithKey(StableSort(s, option, freq), option, freq, v) == WithKey(s, option, freq, v)
    decreases |s|
  {
    if s != [] {
      var init := s[..|s| - 1];
      StableSortKeepsTies(init, option, freq, v);
      InsertKeepsTies(StableSort(init, option, freq), s[|s| - 1], option, freq, v);
      FilterAppend(init, [s[|s| - 1]], HasKey(option, freq, v));
      assert s == init + [s[|s| - 1]];
    }
  }

  /**
   * Sorting by description orders by how often each description occurs in
   * the whole ledger, most frequent first.
   */
  lemma DescriptionSortOrdersByFrequency(filtered: seq<Txn>, all: seq<Txn>)
    ensures var r := StableSort(filtered, ByDescription, FrequencyTable(all));
      forall i, j :: 0 <= i < j < |r| ==> Count(all, r[i].description) >= Count(all, r[j].description)
  {
    var r := StableSort(filtered, ByDescription, FrequencyTable(all));
    StableSortOrders(filtered, ByDescription, FrequencyTable(all));
    forall i, j | 0 <= i < j < |r| ensures Count(all, r[i].description) >= Count(all, r[j].description) {
      DescriptionKeyIsFrequency(all, r[i]);
      DescriptionKeyIsFrequency(all, r[j]);
    }
  }

  /** Where the insertion loop stops, `Insert` places `x`. */
  lemma {:induction false} InsertAt(r: seq<Txn>, x: Txn, option: SortOption, freq: map<string, nat>, j: nat)
    requires j <= |r|
    requires j == 0 || SortKey(option, freq, r[j - 1]) >= SortKey(option, freq, x)
    requires forall k :: j <= k < |r| ==> SortKey(option, freq, r[k]) < SortKey(option, freq, x)
    ensures Insert(r, x, option, freq) == r[..j] + [x] + r[j..]
    decreases |r|
  {
    if j == |r| {
      assert r[..j] == r && r[j..] == [];
      if r != [] {
        assert SortKey(option, freq, r[|r| - 1]) >= SortKey(option, freq, x);
      }
    } else {
      var init := r[..|r| - 1];
      InsertAt(init, x, option, freq, j);
      assert init[..j] == r[..j];
      assert init[j..] + [r[|r| - 1]] == r[j..];
    }
  }

  /** The records shifted right behind `j`, with `x` at `j`, are the stable insertion. */
  lemma PlacedIsInsert(r: seq<Txn>, x: Txn, option: SortOption, freq: map<string, nat>, j: nat, b: seq<Txn>)
    requires j <= |r| && |b| == |r| + 1
    requires j == 0 || SortKey(option, freq, r[j - 1]) >= SortKey(option, freq, x)
    requires forall k :: j <= k < |r| ==> SortKey(option, freq, r[k]) < SortKey(option, freq, x)
    requires forall k :: 0 <= k < j ==> b[k] == r[k]
    requires b[j] == x
    requires forall k :: j < k < |b| ==> b[k] == r[k - 1]
    ensures b == Insert(r, x, option, freq)
  {
    InsertAt(r, x, option, freq, j);
    var res := r[..j] + [x] + r[j..];
    forall k | 0 <= k < |b| ensures b[k] == res[k] {
      if k < j {
        assert res[k] == r[k];
      } else if k > j {
        assert res[k] == r[k - 1];
      }
    }
  }

  /**
   * One step of the in-place sort: `a[i]` moves left past the larger-keyed
   * records before it, which shift one place right.
   */
  method InsertInPlace(a: array<Txn>, i: nat, option: SortOption, freq: map<string, nat>)
    requires i < a.Length
    modifies a
    ensures a[..i + 1] == Insert(old(a[..i]), old(a[i]), option, freq)
    ensures forall k :: i < k < a.Length ==> a[k] == old(a[k])
  {
    var x := a[i];
    ghost var r := a[..i];
    var j := i;
    while j > 0 && SortKey(option, freq, a[j - 1]) < SortKey(option, freq, x)
      invariant 0 <= j <= i
      invariant forall k :: 0 <= k < j ==> a[k] == r[k]
      invariant forall k :: j < k <= i ==> a[k] == r[k - 1]
      invariant forall k :: i < k < a.Length ==> a[k] == old(a[k])
      invariant forall k :: j <= k < i ==> SortKey(option, freq, r[k]) < SortKey(option, freq, x)
    {
      a[j] := a[j - 1];
      j := j - 1;
    }
    a[j] := x;
    PlacedIsInsert(r, x, option, freq, j, a[..i + 1]);
  }

  /** The in-place sort of `sorted`: insertion sort, left to right. */
  method SortInPlace(a: array<Txn>, option: SortOption, freq: map<string, nat>)
    modifies a
    ensures a[..] == StableSort(old(a[..]), option, freq)
  {
    ghost var orig := a[..];
    var i := 0;
    while i < a.Length
      invariant 0 <= i <= a.Length
      invariant a[..i] == StableSort(orig[..i], option, freq)
      invariant forall k :: i <= k < a.Length ==> a[k] == orig[k]
    {
      SortStep(orig, i, option, freq);
      InsertInPlace(a, i, option, freq);
      i := i + 1;
    }
    assert orig[..a.Length] == orig;
    assert a[..a.Length] == a[..];
  }

  /** Sorting one more element of the input is inserting it into the sorted prefix. */
  lemma SortStep(s: seq<Txn>, i: nat, option: SortOption, freq: map<string, nat>)
    requires i < |s|
    ensures StableSort(s[..i + 1], option, freq) == Insert(StableSort(s[..i], option, freq), s[i], option, freq)
  {
    assert s[..i + 1][..i] == s[..i];
  }

  /**
   * `sortedTransactions`: copy the filtered records, build the frequency
   * table over all transactions when sorting by description, and sort the
   * copy. The filtered list itself is a value and is left as it was.
   */
  method SortTransactions(filtered: seq<Txn>, all: seq<Txn>, option: SortOption) returns (sorted: array<Txn>)
    ensures fresh(sorted)
    ensures sorted[..] == StableSort(filtered, option, FrequencyTable(all))
  {
    sorted := new Txn[|filtered|](k requires 0 <= k < |filtered| => filtered[k]);
    assert sorted[..] == filtered;
    var freq: map<string, nat> := map[];
    if option == ByDescription {
      freq := BuildFrequencyMap(all);
    }
    SortInPlace(sorted, option, freq);
    if option != ByDescription {
      KeyIgnoresTable(filtered, option, freq, FrequencyTable(all));
    }
  }

  /** Only the description order consults the frequency table. */
  lemma {:induction false} KeyIgnoresTable(s: seq<Txn>, option: SortOption, f: map<string, nat>, g: map<string, nat>)
    requires option != ByDescription
    ensures StableSort(s, option, f) == StableSort(s, option, g)
    decreases |s|
  {
    if s != [] {
      KeyIgnoresTable(s[..|s| - 1], option, f, g);
      InsertIgnoresTable(StableSort(s[..|s| - 1], option, f), s[|s| - 1], option, f, g);
    }
  }

  lemma {:induction false} InsertIgnoresTable(r: seq<Txn>, x: Txn, option: SortOption, f: map<string, nat>, g: map<string, nat>)
    requires option != ByDescription
    ensures Insert(r, x, option, f) == Insert(r, x, option, g)
    decreases |r|
  {
    if r != [] {
      InsertIgnoresTable(r[..|r| - 1], x, option, f, g);
    }
  }
}
