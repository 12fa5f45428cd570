/** Comparing cells and rows: NULL first, numbers by value, text byte by byte. */
module Comparison {
  import opened Wrappers
  import opened Database

  type Cell = Option<string>

  /** How the text of a number is read; every statement holds for every reading. */
  type Reading = string -> Option<real>

  predicate Prefixed(s: string, prefix: string) { |prefix| <= |s| && s[..|prefix|] == prefix }

  predicate Numeric(c: Column) { Prefixed(c.kind, "bigint") || c.kind == "int" || Prefixed(c.kind, "decimal") }

  function Amount(text: string, num: Reading): real {
    if num(text).Some? then num(text).value else 0.0
  }

  function Lexicographic(a: string, b: string): (c: int)
    ensures -1 <= c <= 1
  {
    if a == "" then (if b == "" then 0 else -1)
    else if b == "" then 1
    else if a[0] != b[0] then (if a[0] < b[0] then -1 else 1)
    else Lexicographic(a[1..], b[1..])
  }

  function Compare(a: Cell, b: Cell, number: bool, num: Reading): (c: int)
    ensures -1 <= c <= 1
  {
    if a.None? && b.None? then 0
    else if a.None? then -1
    else if b.None? then 1
    else if number then
      var x, y := Amount(a.value, num), Amount(b.value, num);
      if x < y then -1 else if x > y then 1 else 0
    else Lexicographic(a.value, b.value)
  }

  lemma {:induction false} LexicographicFlips(a: string, b: string)
    ensures Lexicographic(a, b) == -Lexicographic(b, a)
    ensures Lexicographic(a, b) == 0 <==> a == b
  {
    if a != "" && b != "" && a[0] == b[0] {
      LexicographicFlips(a[1..], b[1..]);
      assert a == [a[0]] + a[1..] && b == [b[0]] + b[1..];
    }
  }

  lemma {:induction false} LexicographicChains(a: string, b: string, c: string)
    requires Lexicographic(a, b) <= 0 && Lexicographic(b, c) <= 0
    ensures Lexicographic(a, c) <= 0
    ensures Lexicographic(a, c) == 0 ==> Lexicographic(a, b) == 0 && Lexicographic(b, c) == 0
  {
    if a != "" && b != "" && c != "" && a[0] == b[0] && b[0] == c[0] {
      LexicographicChains(a[1..], b[1..], c[1..]);
    }
  }

  lemma CompareFlips(a: Cell, b: Cell, number: bool, num: Reading)
    ensures Compare(a, b, number, num) == -Compare(b, a, number, num)
  {
    if a.Some? && b.Some? {
      LexicographicFlips(a.value, b.value);
    }
  }

  lemma CompareChains(a: Cell, b: Cell, c: Cell, number: bool, num: Reading)
    requires Compare(a, b, number, num) <= 0 && Compare(b, c, number, num) <= 0
    ensures Compare(a, c, number, num) <= 0
    ensures Compare(a, c, number, num) == 0 ==> Compare(a, b, number, num) == 0 && Compare(b, c, number, num) == 0
  {
    if a.Some? && b.Some? && c.Some? && !number {
      LexicographicChains(a.value, b.value, c.value);
    }
  }

  // ---------------------------------------------------------------- what comparing means

  /** In order of bytes: at the first difference a has the smaller byte, or a ends there. */
  ghost predicate TextBefore(a: string, b: string) {
    exists k: nat :: DiffersAt(a, b, k)
  }

  predicate DiffersAt(a: string, b: string, k: nat) {
    k <= |a| && k < |b| && a[..k] == b[..k] && (k == |a| || a[k] < b[k])
  }

  lemma {:induction false} LexicographicMeans(a: string, b: string)
    ensures Lexicographic(a, b) < 0 <==> TextBefore(a, b)
    ensures Lexicographic(a, b) > 0 <==> TextBefore(b, a)
    ensures Lexicographic(a, b) == 0 <==> a == b
  {
    LexicographicFlips(a, b);
    BeforeMeans(a, b);
    BeforeMeans(b, a);
  }

  lemma SameStart(a: string, b: string, k: nat)
    requires DiffersAt(a, b, k)
    ensures k > 0 ==> a != "" && b != "" && a[0] == b[0]
  {
    if k > 0 {
      assert a[..k][0] == b[..k][0];
    }
  }

  lemma {:induction false} BeforeMeans(a: string, b: string)
    ensures Lexicographic(a, b) < 0 <==> TextBefore(a, b)
  {
    if a == "" || b == "" || a[0] != b[0] {
      if b != "" && (a == "" || a[0] < b[0]) {
        assert DiffersAt(a, b, 0);
      }
      if k: nat :| DiffersAt(a, b, k) {
        SameStart(a, b, k);
      }
    } else {
      BeforeMeans(a[1..], b[1..]);
      if k: nat :| DiffersAt(a[1..], b[1..], k) {
        assert a[..k + 1] == [a[0]] + a[1..][..k] && b[..k + 1] == [b[0]] + b[1..][..k];
        assert DiffersAt(a, b, k + 1);
      }
      if k: nat :| DiffersAt(a, b, k) {
        assert k > 0;
        assert a[1..][..k - 1] == a[..k][1..] && b[1..][..k - 1] == b[..k][1..];
        assert DiffersAt(a[1..], b[1..], k - 1);
      }
    }
  }

  /** NULL is before every value, numbers are compared by value and other text by its bytes. */
  lemma CompareMeans(a: Cell, b: Cell, number: bool, num: Reading)
    ensures a.None? && b.None? ==> Compare(a, b, number, num) == 0
    ensures a.None? && b.Some? ==> Compare(a, b, number, num) < 0
    ensures a.Some? && b.None? ==> Compare(a, b, number, num) > 0
    ensures number && a.Some? && b.Some? && num(a.value).Some? && num(b.value).Some? ==>
              && (Compare(a, b, number, num) < 0 <==> num(a.value).value < num(b.value).value)
              && (Compare(a, b, number, num) > 0 <==> num(a.value).value > num(b.value).value)
    ensures !number && a.Some? && b.Some? ==>
              && (Compare(a, b, number, num) < 0 <==> TextBefore(a.value, b.value))
              && (Compare(a, b, number, num) > 0 <==> TextBefore(b.value, a.value))
              && (Compare(a, b, number, num) == 0 <==> a.value == b.value)
  {
    if !number && a.Some? && b.Some? {
      LexicographicMeans(a.value, b.value);
    }
  }

  /** The types whose values are numbers. */
  lemma NumericKinds(c: Column)
    ensures Numeric(c) <==>
            || (|c.kind| >= 6 && c.kind[..6] == "bigint") || c.kind == "int"
            || (|c.kind| >= 7 && c.kind[..7] == "decimal")
  {
  }
}
