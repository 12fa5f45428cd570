/** Stable sorting of positions by a comparison of what stands there. */
module Sorting {

  /** Puts x behind every element that is not greater. */
  function Insert(less: (nat, nat) -> bool, p: seq<nat>, x: nat): seq<nat> {
    if p == [] || !less(x, p[|p| - 1]) then p + [x]
    else Insert(less, p[..|p| - 1], x) + [p[|p| - 1]]
  }

  function StableSort(less: (nat, nat) -> bool, p: seq<nat>): seq<nat> {
    if p == [] then [] else Insert(less, StableSort(less, p[..|p| - 1]), p[|p| - 1])
  }

  ghost predicate Sorted(less: (nat, nat) -> bool, p: seq<nat>) {
    forall i, j :: 0 <= i < j < |p| ==> !less(p[j], p[i])
  }

  ghost predicate Distinct(p: seq<nat>) {
    forall i, j :: 0 <= i < j < |p| ==> p[i] != p[j]
  }

  /** On the first n positions, "not greater than" is transitive and total, as a comparison sort needs. */
  ghost predicate Ordering(less: (nat, nat) -> bool, n: nat) {
    && (forall x: nat, y: nat, z: nat :: x < n && y < n && z < n && !less(y, x) && !less(z, y) ==> !less(z, x))
    && (forall x: nat, y: nat :: x < n && y < n && less(x, y) ==> !less(y, x))
  }

  ghost predicate Below(p: seq<nat>, n: nat) {
    forall k: nat :: k in p ==> k < n
  }

  lemma {:induction false} InsertKeeps(less: (nat, nat) -> bool, p: seq<nat>, x: nat)
    ensures forall k: nat :: k in Insert(less, p, x) <==> k in p || k == x
    ensures Distinct(p) && x !in p ==> Distinct(Insert(less, p, x))
  {
    if p != [] && less(x, p[|p| - 1]) {
      var last, before := p[|p| - 1], p[..|p| - 1];
      InsertKeeps(less, before, x);
      assert p == before + [last];
      if Distinct(p) && x !in p {
        assert last !in before && last !in Insert(less, before, x);
      }
    }
  }

  lemma {:induction false} InsertSorts(less: (nat, nat) -> bool, p: seq<nat>, x: nat, n: nat)
    requires Ordering(less, n) && Sorted(less, p) && Below(p, n) && x < n
    ensures Sorted(less, Insert(less, p, x))
  {
    var r := Insert(less, p, x);
    if p == [] {
    } else if !less(x, p[|p| - 1]) {
      var last := p[|p| - 1];
      forall i, j | 0 <= i < j < |r| ensures !less(r[j], r[i]) {
        if j == |p| {
          assert last in p && p[i] in p;
          assert i < |p| - 1 ==> !less(last, p[i]);
        }
      }
    } else {
      var last, before := p[|p| - 1], p[..|p| - 1];
      assert forall k: nat :: k in before ==> k in p;
      InsertSorts(less, before, x, n);
      InsertKeeps(less, before, x);
      assert last in p;
      forall i | 0 <= i < |r| - 1 ensures !less(last, r[i]) {
        assert r[i] in Insert(less, before, x);
        if r[i] != x {
          var k :| 0 <= k < |before| && before[k] == r[i];
          assert !less(p[|p| - 1], p[k]);
        }
      }
    }
  }

  lemma {:induction false} StableSortSorts(less: (nat, nat) -> bool, p: seq<nat>, n: nat)
    requires Ordering(less, n) && Below(p, n)
    ensures Sorted(less, StableSort(less, p))
    ensures forall k: nat :: k in StableSort(less, p) <==> k in p
    ensures Distinct(p) ==> Distinct(StableSort(less, p))
  {
    if p != [] {
      var before, x := p[..|p| - 1], p[|p| - 1];
      assert p == before + [x];
      assert forall k: nat :: k in before ==> k in p;
      StableSortSorts(less, before, n);
      assert x in p;
      InsertSorts(less, StableSort(less, before), x, n);
      InsertKeeps(less, StableSort(less, before), x);
      if Distinct(p) {
        assert x !in before;
      }
    }
  }

  lemma {:induction false} StableSortKeeps(less: (nat, nat) -> bool, p: seq<nat>)
    ensures forall k: nat :: k in StableSort(less, p) <==> k in p
  {
    if p != [] {
      var before, x := p[..|p| - 1], p[|p| - 1];
      assert p == before + [x];
      StableSortKeeps(less, before);
      InsertKeeps(less, StableSort(less, before), x);
    }
  }

  lemma {:induction false} InsertLength(less: (nat, nat) -> bool, p: seq<nat>, x: nat)
    ensures |Insert(less, p, x)| == |p| + 1
  {
    if p != [] && less(x, p[|p| - 1]) {
      InsertLength(less, p[..|p| - 1], x);
    }
  }

  lemma {:induction false} StableSortLength(less: (nat, nat) -> bool, p: seq<nat>)
    ensures |StableSort(less, p)| == |p|
  {
    if p != [] {
      StableSortLength(less, p[..|p| - 1]);
      InsertLength(less, StableSort(less, p[..|p| - 1]), p[|p| - 1]);
    }
  }

  /** Elements that tie stay in ascending order. */
  ghost predicate Stable(less: (nat, nat) -> bool, p: seq<nat>) {
    forall i, j :: 0 <= i < j < |p| && !less(p[i], p[j]) ==> p[i] < p[j]
  }

  ghost predicate Ascending(p: seq<nat>) { forall i, j :: 0 <= i < j < |p| ==> p[i] < p[j] }

  lemma {:induction false} InsertIsStable(less: (nat, nat) -> bool, p: seq<nat>, x: nat)
    requires Stable(less, p) && Below(p, x)
    ensures Stable(less, Insert(less, p, x))
  {
    if p != [] && less(x, p[|p| - 1]) {
      var last, before := p[|p| - 1], p[..|p| - 1];
      assert p == before + [last];
      assert forall k: nat :: k in before ==> k in p;
      InsertIsStable(less, before, x);
      InsertKeeps(less, before, x);
      var q := Insert(less, before, x);
      forall i | 0 <= i < |q| && !less(q[i], last) ensures q[i] < last {
        assert q[i] in q;
        if q[i] != x {
          var k :| 0 <= k < |before| && before[k] == q[i];
          assert p[k] == q[i];
        }
      }
    } else {
      assert forall i :: 0 <= i < |p| ==> p[i] in p;
    }
  }

  lemma {:induction false} StableSortIsStable(less: (nat, nat) -> bool, p: seq<nat>)
    requires Ascending(p)
    ensures Stable(less, StableSort(less, p))
  {
    if p != [] {
      var before, x := p[..|p| - 1], p[|p| - 1];
      StableSortIsStable(less, before);
      StableSortKeeps(less, before);
      forall k: nat | k in before ensures k < x {
        var i :| 0 <= i < |before| && before[i] == k;
        assert p[i] == k;
      }
      InsertIsStable(less, StableSort(less, before), x);
    }
  }

  lemma InsertBefore(less: (nat, nat) -> bool, r: seq<nat>, k: nat, x: nat)
    requires 0 < k <= |r| && less(x, r[k - 1])
    ensures Insert(less, r[..k], x) + r[k..] == Insert(less, r[..k - 1], x) + r[k - 1..]
  {
    assert r[..k][..k - 1] == r[..k - 1];
    assert [r[k - 1]] + r[k..] == r[k - 1..];
  }

  lemma InsertHere(less: (nat, nat) -> bool, r: seq<nat>, x: nat)
    requires r == [] || !less(x, r[|r| - 1])
    ensures Insert(less, r, x) == r + [x]
  {
  }

  /** A stable sort by comparison: each position moves back past the greater ones before it. */
  method SortStable(less: (nat, nat) -> bool, p: seq<nat>) returns (r: seq<nat>)
    ensures r == StableSort(less, p)
  {
    hide Insert;
    r := [];
    for n := 0 to |p|
      invariant r == StableSort(less, p[..n])
    {
      assert p[..n + 1][..n] == p[..n];
      ghost var before := r;
      var k := |r|;
      assert r[..k] == r && r + r[k..] == r && Insert(less, r, p[n]) + [] == Insert(less, r, p[n]);
      while k > 0 && less(p[n], r[k - 1])
        invariant 0 <= k <= |r| && r == before
        invariant Insert(less, r, p[n]) == Insert(less, r[..k], p[n]) + r[k..]
      {
        InsertBefore(less, r, k, p[n]);
        k := k - 1;
      }
      InsertHere(less, r[..k], p[n]);
      r := r[..k] + [p[n]] + r[k..];
    }
    assert p[..|p|] == p;
  }
}
