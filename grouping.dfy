/**
 * Grouping amounts by a text key, as both the dashboard's month buckets and
 * the pie chart's income categories do with a plain object used as a
 * dictionary: the running total per key, the keys in the order they were
 * first met (the order `Object.keys` lists them in), and the sums that
 * grouping leaves unchanged.
 */
module Grouping {
  import opened Seqs

  /** One amount and the key it is filed under. */
  datatype Entry = Entry(key: string, value: real)

  /** The sum of all values. */
  function Sum(es: seq<Entry>): real
    decreases |es|
  {
    if es == [] then 0.0 else Sum(es[..|es| - 1]) + es[|es| - 1].value
  }

  /** The sum of the values filed under `k`. */
  function KeySum(es: seq<Entry>, k: string): real
    decreases |es|
  {
    if es == [] then 0.0
    else KeySum(es[..|es| - 1], k) + (if es[|es| - 1].key == k then es[|es| - 1].value else 0.0)
  }

  /**
   * The dictionary after filing every entry in turn: a key met for the first
   * time starts at 0, and each entry adds its value to its key.
   */
  function Totals(es: seq<Entry>): map<string, real>
    decreases |es|
  {
    if es == [] then map[]
    else
      var m := Totals(es[..|es| - 1]);
      var e := es[|es| - 1];
      m[e.key := (if e.key in m then m[e.key] else 0.0) + e.value]
  }

  /** The dictionary's keys in insertion order: each key where it was first met. */
  function Order(es: seq<Entry>): seq<string>
    decreases |es|
  {
    if es == [] then []
    else
      var o := Order(es[..|es| - 1]);
      if es[|es| - 1].key in o then o else o + [es[|es| - 1].key]
  }

  /** The position of the first entry filed under `k`, or `|es|` when there is none. */
  function FirstIndex(es: seq<Entry>, k: string): (i: nat)
    ensures i <= |es|
    ensures i < |es| ==> es[i].key == k
    ensures forall p :: 0 <= p < i ==> es[p].key != k
    decreases |es|
  {
    if es == [] then 0 else if es[0].key == k then 0 else 1 + FirstIndex(es[1..], k)
  }

  /** The sum of the dictionary's values at the listed keys (an absent key adds 0). */
  function SumOver(m: map<string, real>, ks: seq<string>): real
    decreases |ks|
  {
    if ks == [] then 0.0
    else SumOver(m, ks[..|ks| - 1]) + (if ks[|ks| - 1] in m then m[ks[|ks| - 1]] else 0.0)
  }

  // ---------------------------------------------------------------------
  // The dictionary

  /** Filing one more entry: what a loop over the entries does at each step. */
  lemma FileOneMore(es: seq<Entry>, e: Entry)
    ensures Totals(es + [e]) == Totals(es)[e.key := (if e.key in Totals(es) then Totals(es)[e.key] else 0.0) + e.value]
    ensures Order(es + [e]) == if e.key in Totals(es) then Order(es) else Order(es) + [e.key]
    ensures Sum(es + [e]) == Sum(es) + e.value
  {
    assert (es + [e])[..|es|] == es;
    OrderIsKeys(es);
  }

  /** One step of a loop that keeps the dictionary `m` and its key list `o`. */
  lemma FileStep(es: seq<Entry>, m: map<string, real>, o: seq<string>, k: string, v: real)
    requires m == Totals(es) && o == Order(es)
    ensures Totals(es + [Entry(k, v)]) == m[k := (if k in m then m[k] else 0.0) + v]
    ensures Order(es + [Entry(k, v)]) == if k in m then o else o + [k]
  {
    FileOneMore(es, Entry(k, v));
  }

  lemma SumOneMore(es: seq<Entry>, e: Entry)
    ensures Sum(es + [e]) == Sum(es) + e.value
  {
    assert (es + [e])[..|es|] == es;
  }

  lemma KeySumOneMore(es: seq<Entry>, e: Entry, k: string)
    ensures KeySum(es + [e], k) == KeySum(es, k) + (if e.key == k then e.value else 0.0)
  {
    assert (es + [e])[..|es|] == es;
  }

  /** Filing keeps exactly the keys met, each holding the sum of its values. */
  lemma {:induction false} TotalsAreKeySums(es: seq<Entry>)
    ensures forall k :: k in Totals(es) <==> (exists p :: 0 <= p < |es| && es[p].key == k)
    ensures forall k :: k in Totals(es) ==> Totals(es)[k] == KeySum(es, k)
    ensures forall k :: k !in Totals(es) ==> KeySum(es, k) == 0.0
    decreases |es|
  {
    if es != [] {
      var init := es[..|es| - 1];
      TotalsAreKeySums(init);
      assert forall p :: 0 <= p < |init| ==> init[p] == es[p];
    }
  }

  /**
   * The insertion-ordered keys are distinct, are exactly the dictionary's
   * keys, and are no more than the entries.
   */
  lemma {:induction false} OrderIsKeys(es: seq<Entry>)
    ensures Distinct(Order(es))
    ensures forall k :: k in Order(es) <==> k in Totals(es)
    ensures |Order(es)| <= |es|
    decreases |es|
  {
    if es != [] {
      OrderIsKeys(es[..|es| - 1]);
    }
  }

  lemma {:induction false} FirstIndexOfPrefix(es: seq<Entry>, e: Entry, k: string)
    ensures FirstIndex(es, k) < |es| ==> FirstIndex(es + [e], k) == FirstIndex(es, k)
    ensures FirstIndex(es, k) == |es| ==> FirstIndex(es + [e], k) == (if e.key == k then |es| else |es| + 1)
    decreases |es|
  {
    if es != [] {
      FirstIndexOfPrefix(es[1..], e, k);
      assert (es + [e])[1..] == es[1..] + [e];
    } else {
      assert ([e])[1..] == [];
    }
  }

  /** Keys are listed in the order of their first entries. */
  lemma {:induction false} OrderIsFirstOccurrence(es: seq<Entry>)
    ensures forall i :: 0 <= i < |Order(es)| ==> FirstIndex(es, Order(es)[i]) < |es|
    ensures forall i, j :: 0 <= i < j < |Order(es)| ==>
      FirstIndex(es, Order(es)[i]) < FirstIndex(es, Order(es)[j])
    decreases |es|
  {
    if es != [] {
      var init := es[..|es| - 1];
      var e := es[|es| - 1];
      assert init + [e] == es;
      OrderIsFirstOccurrence(init);
      OrderIsKeys(init);
      TotalsAreKeySums(init);
      var o := Order(init);
      forall i | 0 <= i < |o| ensures FirstIndex(es, o[i]) == FirstIndex(init, o[i]) {
        FirstIndexOfPrefix(init, e, o[i]);
      }
      if e.key !in o {
        FirstIndexOfPrefix(init, e, e.key);
        assert e.key !in Totals(init);
        assert forall p :: 0 <= p < |init| ==> init[p].key != e.key;
        assert Order(es) == o + [e.key];
      }
    }
  }

  // ---------------------------------------------------------------------
  // Sums

  /** Summing over keys whose values agree gives the same. */
  lemma {:induction false} SumOverAgree(m1: map<string, real>, m2: map<string, real>, ks: seq<string>)
    requires forall k :: k in ks ==> (k in m1 <==> k in m2)
    requires forall k :: k in ks && k in m1 ==> m1[k] == m2[k]
    ensures SumOver(m1, ks) == SumOver(m2, ks)
    decreases |ks|
  {
    if ks != [] {
      SumOverAgree(m1, m2, ks[..|ks| - 1]);
    }
  }

  /** Adding `v` at a key listed once adds `v` to the sum. */
  lemma {:induction false} SumOverBump(m: map<string, real>, ks: seq<string>, k: string, v: real)
    requires Distinct(ks) && k in ks && k in m
    ensures SumOver(m[k := m[k] + v], ks) == SumOver(m, ks) + v
    decreases |ks|
  {
    var init := ks[..|ks| - 1];
    if ks[|ks| - 1] == k {
      assert k !in init;
      SumOverAgree(m[k := m[k] + v], m, init);
    } else {
      assert k in init;
      SumOverBump(m, init, k, v);
    }
  }

  lemma SumOverSnoc(m: map<string, real>, ks: seq<string>, k: string)
    ensures SumOver(m, ks + [k]) == SumOver(m, ks) + (if k in m then m[k] else 0.0)
  {
    assert (ks + [k])[..|ks|] == ks;
  }

  /** Listing a new key with value `v` adds `v` to the sum. */
  lemma SumOverNewKey(m: map<string, real>, ks: seq<string>, k: string, v: real)
    requires k !in ks
    ensures SumOver(m[k := v], ks + [k]) == SumOver(m, ks) + v
  {
    SumOverAgree(m[k := v], m, ks);
    SumOverSnoc(m[k := v], ks, k);
  }

  /** The dictionary's values, summed in insertion order, add up to all the values. */
  lemma {:induction false} SumOverOrder(es: seq<Entry>)
    ensures SumOver(Totals(es), Order(es)) == Sum(es)
    decreases |es|
  {
    if es != [] {
      var init := es[..|es| - 1];
      var e := es[|es| - 1];
      var m := Totals(init);
      var o := Order(init);
      SumOverOrder(init);
      OrderIsKeys(init);
      assert Sum(es) == Sum(init) + e.value;
      if e.key in o {
        assert Totals(es) == m[e.key := m[e.key] + e.value];
        assert Order(es) == o;
        SumOverBump(m, o, e.key, e.value);
      } else {
        assert Totals(es) == m[e.key := e.value];
        assert Order(es) == o + [e.key];
        SumOverNewKey(m, o, e.key, e.value);
      }
    }
  }

  /** Removing one listed key removes its value from the sum. */
  lemma {:induction false} SumOverRemove(m: map<string, real>, ks: seq<string>, i: nat)
    requires i < |ks|
    ensures SumOver(m, ks) == SumOver(m, ks[..i] + ks[i + 1..]) + (if ks[i] in m then m[ks[i]] else 0.0)
    decreases |ks|
  {
    var init := ks[..|ks| - 1];
    if i == |ks| - 1 {
      assert ks[..i] + ks[i + 1..] == init;
    } else {
      SumOverRemove(m, init, i);
      var rest := ks[..i] + ks[i + 1..];
      assert rest[..|rest| - 1] == init[..i] + init[i + 1..];
      assert rest[|rest| - 1] == ks[|ks| - 1];
    }
  }

  lemma RemoveFromMultiset(b: seq<string>, i: nat)
    requires i < |b|
    ensures multiset(b) == multiset(b[..i] + b[i + 1..]) + multiset{b[i]}
  {
    assert b == b[..i] + [b[i]] + b[i + 1..];
  }

  /** The sum over keys does not depend on the order they are listed in. */
  lemma {:induction false} SumOverPermutation(m: map<string, real>, a: seq<string>, b: seq<string>)
    requires multiset(a) == multiset(b)
    ensures SumOver(m, a) == SumOver(m, b)
    decreases |a|
  {
    if a != [] {
      var x := a[|a| - 1];
      var init := a[..|a| - 1];
      RemoveFromMultiset(a, |a| - 1);
      assert a[..|a| - 1] + a[|a|..] == init;
      assert x in multiset(b);
      var i :| 0 <= i < |b| && b[i] == x;
      var rest := b[..i] + b[i + 1..];
      RemoveFromMultiset(b, i);
      assert multiset(init) == multiset(a) - multiset{x} == multiset(rest);
      SumOverRemove(m, b, i);
      SumOverPermutation(m, init, rest);
    } else {
      assert |b| == |multiset(b)| == 0;
    }
  }
}
