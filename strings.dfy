/**
 * Comparing and sorting text as JavaScript does: `a < b` on strings and the
 * default `Array.prototype.sort()`, which compares elements as strings. Also
 * the "YYYY-MM" month keys the dashboard files expenses under, whose text
 * order is their calendar order.
 */
module Strings {
  import opened Seqs

  /** `a < b` on strings: the first differing character decides, and a proper prefix comes first. */
  predicate StrLess(a: string, b: string)
    decreases |a|
  {
    if b == [] then false
    else if a == [] then true
    else if a[0] != b[0] then a[0] < b[0]
    else StrLess(a[1..], b[1..])
  }

  predicate StrLe(a: string, b: string) {
    a == b || StrLess(a, b)
  }

  lemma {:induction false} StrLessIrreflexive(a: string)
    ensures !StrLess(a, a)
    decreases |a|
  {
    if a != [] {
      StrLessIrreflexive(a[1..]);
    }
  }

  lemma {:induction false} StrLessTransitive(a: string, b: string, c: string)
    requires StrLess(a, b) && StrLess(b, c)
    ensures StrLess(a, c)
    decreases |a|
  {
    if a != [] && a[0] == b[0] && b[0] == c[0] {
      StrLessTransitive(a[1..], b[1..], c[1..]);
    }
  }

  /** Any two different strings are ordered one way or the other. */
  lemma {:induction false} StrLessTotal(a: string, b: string)
    ensures a == b || StrLess(a, b) || StrLess(b, a)
    decreases |a|
  {
    if a != [] && b != [] && a[0] == b[0] {
      StrLessTotal(a[1..], b[1..]);
      if a[1..] == b[1..] {
        assert a == [a[0]] + a[1..] && b == [b[0]] + b[1..];
      }
    }
  }

  lemma StrLeTransitive(a: string, b: string, c: string)
    requires StrLe(a, b) && StrLe(b, c)
    ensures StrLe(a, c)
  {
    if a != b && b != c {
      StrLessTransitive(a, b, c);
    }
  }

  // ---------------------------------------------------------------------
  // The default sort

  /** Places `x` before the first element it does not follow. */
  function InsertString(x: string, s: seq<string>): (r: seq<string>)
    ensures |r| == |s| + 1
    decreases |s|
  {
    if s == [] then [x]
    else if StrLe(x, s[0]) then [x] + s
    else [s[0]] + InsertString(x, s[1..])
  }

  /** `Array.prototype.sort()` with no comparator: ascending text order. */
  function SortStrings(s: seq<string>): (r: seq<string>)
    ensures |r| == |s|
    decreases |s|
  {
    if s == [] then [] else InsertString(s[0], SortStrings(s[1..]))
  }

  predicate Ascending(s: seq<string>) {
    forall i, j :: 0 <= i < j < |s| ==> StrLe(s[i], s[j])
  }

  lemma {:induction false} InsertStringPermutes(x: string, s: seq<string>)
    ensures multiset(InsertString(x, s)) == multiset(s) + multiset{x}
    decreases |s|
  {
    if s != [] && !StrLe(x, s[0]) {
      InsertStringPermutes(x, s[1..]);
      assert s == [s[0]] + s[1..];
    }
  }

  lemma {:induction false} InsertStringAscending(x: string, s: seq<string>)
    requires Ascending(s)
    ensures Ascending(InsertString(x, s))
    decreases |s|
  {
    if s != [] {
      if StrLe(x, s[0]) {
        forall j | 1 <= j < |s| + 1 ensures StrLe(x, ([x] + s)[j]) {
          StrLeTransitive(x, s[0], s[j - 1]);
        }
      } else {
        StrLessTotal(x, s[0]);
        InsertStringAscending(x, s[1..]);
        InsertStringPermutes(x, s[1..]);
        var t := InsertString(x, s[1..]);
        forall j | 0 <= j < |t| ensures StrLe(s[0], t[j]) {
          assert t[j] in multiset(t);
          if t[j] != x {
            assert t[j] in multiset(s[1..]);
            var p :| 0 <= p < |s[1..]| && s[1..][p] == t[j];
            assert s[p + 1] == t[j];
          }
        }
      }
    }
  }

  /** The default sort returns its input rearranged into ascending order. */
  lemma {:induction false} SortStringsIsSorted(s: seq<string>)
    ensures Ascending(SortStrings(s))
    ensures multiset(SortStrings(s)) == multiset(s)
    decreases |s|
  {
    if s != [] {
      SortStringsIsSorted(s[1..]);
      InsertStringAscending(s[0], SortStrings(s[1..]));
      InsertStringPermutes(s[0], SortStrings(s[1..]));
      assert s == [s[0]] + s[1..];
    }
  }

  /** Sorting strings that are all different gives a strictly ascending list. */
  lemma SortDistinctStrings(s: seq<string>)
    requires Distinct(s)
    ensures Distinct(SortStrings(s))
    ensures forall i, j :: 0 <= i < j < |SortStrings(s)| ==> StrLess(SortStrings(s)[i], SortStrings(s)[j])
  {
    SortStringsIsSorted(s);
    DistinctPermutation(s, SortStrings(s));
  }

  // ---------------------------------------------------------------------
  // Month keys

  predicate IsDigit(c: char) {
    '0' <= c <= '9'
  }

  function DigitValue(c: char): int {
    c as int - '0' as int
  }

  function Pow10(n: nat): (p: int)
    ensures p >= 1
  {
    if n == 0 then 1 else 10 * Pow10(n - 1)
  }

  predicate AllDigits(s: string) {
    forall k :: 0 <= k < |s| ==> IsDigit(s[k])
  }

  /** The number a string of decimal digits spells. */
  function DigitsValue(s: string): int
    decreases |s|
  {
    if s == [] then 0 else DigitValue(s[0]) * Pow10(|s| - 1) + DigitsValue(s[1..])
  }

  lemma {:induction false} DigitsValueBounds(s: string)
    requires AllDigits(s)
    ensures 0 <= DigitsValue(s) < Pow10(|s|)
    decreases |s|
  {
    if s != [] {
      DigitsValueBounds(s[1..]);
      DigitBound(DigitValue(s[0]), Pow10(|s| - 1), DigitsValue(s[1..]));
    }
  }

  /** A digit times a power of ten, plus less than that power, stays below the next power. */
  lemma DigitBound(d: int, p: int, r: int)
    requires 0 <= d <= 9 && 0 <= r < p
    ensures 0 <= d * p + r < 10 * p
  {
    assert d * p <= 9 * p;
  }

  /** A larger leading digit outweighs anything the lower digits hold. */
  lemma LeadingDigitDecides(da: int, db: int, ra: int, rb: int, p: int)
    requires da < db && 0 <= ra < p && 0 <= rb < p
    ensures da * p + ra < db * p + rb
  {
    assert (db - da - 1) * p >= 0;
    assert db * p - da * p == (db - da) * p;
  }

  /** Digit strings of one width compare as text exactly as the numbers they spell. */
  lemma {:induction false} DigitsOrder(a: string, b: string)
    requires |a| == |b| && AllDigits(a) && AllDigits(b)
    ensures StrLess(a, b) <==> DigitsValue(a) < DigitsValue(b)
    ensures a == b <==> DigitsValue(a) == DigitsValue(b)
    decreases |a|
  {
    if a != [] {
      var ra, rb := a[1..], b[1..];
      assert AllDigits(ra) && AllDigits(rb);
      DigitsOrder(ra, rb);
      DigitsValueBounds(ra);
      DigitsValueBounds(rb);
      var p := Pow10(|a| - 1);
      assert |ra| == |a| - 1;
      var da, db := DigitValue(a[0]), DigitValue(b[0]);
      assert DigitsValue(a) == da * p + DigitsValue(ra);
      assert DigitsValue(b) == db * p + DigitsValue(rb);
      if da < db {
        LeadingDigitDecides(da, db, DigitsValue(ra), DigitsValue(rb), p);
      } else if db < da {
        LeadingDigitDecides(db, da, DigitsValue(rb), DigitsValue(ra), p);
      } else {
        assert a[0] == b[0];
        assert a == [a[0]] + ra && b == [b[0]] + rb;
      }
    }
  }

  /** With first parts of one width, strings compare by the first parts, then the rest. */
  lemma {:induction false} StrLessConcat(a1: string, a2: string, b1: string, b2: string)
    requires |a1| == |b1|
    ensures StrLess(a1 + a2, b1 + b2) <==> StrLess(a1, b1) || (a1 == b1 && StrLess(a2, b2))
    decreases |a1|
  {
    if a1 == [] {
      assert a1 + a2 == a2 && b1 + b2 == b2;
    } else {
      StrLessConcat(a1[1..], a2, b1[1..], b2);
      assert (a1 + a2)[1..] == a1[1..] + a2 && (b1 + b2)[1..] == b1[1..] + b2;
      if a1[0] == b1[0] && a1[1..] == b1[1..] {
        assert a1 == [a1[0]] + a1[1..] && b1 == [b1[0]] + b1[1..];
      }
    }
  }

  /** "YYYY-MM": four digits of year, a dash, two digits of month. */
  predicate IsMonthKey(s: string) {
    |s| == 7 && AllDigits(s[..4]) && s[4] == '-' && AllDigits(s[5..])
  }

  function KeyYear(s: string): int
    requires IsMonthKey(s)
  {
    DigitsValue(s[..4])
  }

  function KeyMonth(s: string): int
    requires IsMonthKey(s)
  {
    DigitsValue(s[5..])
  }

  /** Month keys sort as text in calendar order: by year, then by month. */
  lemma MonthKeyOrder(a: string, b: string)
    requires IsMonthKey(a) && IsMonthKey(b)
    ensures StrLess(a, b) <==> KeyYear(a) < KeyYear(b) || (KeyYear(a) == KeyYear(b) && KeyMonth(a) < KeyMonth(b))
  {
    assert a == a[..4] + a[4..] && b == b[..4] + b[4..];
    StrLessConcat(a[..4], a[4..], b[..4], b[4..]);
    assert a[4..] == [a[4]] + a[5..] && b[4..] == [b[4]] + b[5..];
    StrLessConcat([a[4]], a[5..], [b[4]], b[5..]);
    StrLessIrreflexive([a[4]]);
    DigitsOrder(a[..4], b[..4]);
    DigitsOrder(a[5..], b[5..]);
  }
}
