/** Counting and wrapping, as several of the models need them. */
module Basics {
  /** How many elements of s are v. */
  function Count(s: seq<bool>, v: bool): nat {
    if s == [] then 0 else Count(s[..|s| - 1], v) + (if s[|s| - 1] == v then 1 else 0)
  }

  lemma {:induction false} CountUpdate(s: seq<bool>, i: nat, x: bool, v: bool)
    requires i < |s|
    ensures Count(s[i := x], v) == Count(s, v) - (if s[i] == v then 1 else 0) + (if x == v then 1 else 0)
  {
    var n := |s| - 1;
    if i < n {
      CountUpdate(s[..n], i, x, v);
      assert s[i := x][..n] == s[..n][i := x];
    } else {
      assert s[i := x][..n] == s[..n];
    }
  }

  lemma {:induction false} CountUniform(s: seq<bool>, v: bool)
    ensures Count(s, v) == 0 <==> forall i :: 0 <= i < |s| ==> s[i] != v
    ensures Count(s, v) == |s| <==> forall i :: 0 <= i < |s| ==> s[i] == v
    ensures Count(s, v) <= |s|
  {
    if s != [] {
      var n := |s| - 1;
      CountUniform(s[..n], v);
      assert forall i :: 0 <= i < n ==> s[..n][i] == s[i];
    }
  }

  lemma SubsetCard<T>(a: set<T>, b: set<T>)
    requires a <= b
    ensures |a| <= |b|
  {
    assert b == a + (b - a);
  }

  /** n mod m, by repeated subtraction, so that a proof need not reason about division. */
  function Residue(n: nat, m: nat): (r: nat)
    requires m > 0
    ensures r < m
    decreases n
  {
    if n < m then n else Residue(n - m, m)
  }

  lemma ModShift(n: nat, m: nat)
    requires 0 < m <= n
    ensures (n - m) % m == n % m
  {
    var q, r := (n - m) / m, (n - m) % m;
    assert n == m * (q + 1) + r;
    var p := n / m - (q + 1);
    assert m * p == r - n % m;
  }

  lemma {:induction false} ResidueIsMod(n: nat, m: nat)
    requires m > 0
    ensures Residue(n, m) == n % m
    decreases n
  {
    if n >= m {
      ResidueIsMod(n - m, m);
      ModShift(n, m);
    }
  }

  lemma {:induction false} ResiduePlus(n: nat, k: nat, m: nat)
    requires m > 0
    ensures (Residue(n, m) + k) % m == Residue(n + k, m)
    decreases n
  {
    if n < m {
      ResidueIsMod(n + k, m);
    } else {
      ResiduePlus(n - m, k, m);
    }
  }

  /** Two numbers less than m apart have the same residue only if they are equal. */
  lemma {:induction false} ResidueApart(a: nat, b: nat, m: nat)
    requires 0 < m && a <= b < a + m
    ensures Residue(a, m) == Residue(b, m) <==> a == b
    decreases a
  {
    if a >= m { ResidueApart(a - m, b - m, m); }
  }

  /** The residue for a multiple determines the residue for its divisor. */
  lemma {:induction false} ResidueResidue(n: nat, big: nat, m: nat)
    requires m > 0 && big > 0 && big % m == 0
    ensures Residue(n, big) % m == Residue(n, m)
    decreases n
  {
    if n < big {
      ResidueIsMod(n, m);
    } else {
      ResidueResidue(n - big, big, m);
      ResidueMinus(n, big, m);
    }
  }

  lemma {:induction false} ResidueMinus(n: nat, k: nat, m: nat)
    requires m > 0 && k <= n && k % m == 0
    ensures Residue(n - k, m) == Residue(n, m)
    decreases k
  {
    if k > 0 {
      assert k >= m;
      ModShift(k, m);
      ResidueMinus(n - m, k - m, m);
    }
  }

  /** A ring of m entries holds those of the list from from on, entry j in slot j mod m. */
  predicate RingHolds<T(==)>(ring: seq<T>, list: seq<T>, from: nat, m: nat)
    requires |ring| == m > 0
  {
    forall j: nat :: from <= j < |list| ==> ring[Residue(j, m)] == list[j]
  }

  lemma RingPush<T>(ring: seq<T>, list: seq<T>, from: nat, x: T, m: nat)
    requires |ring| == m > 0 && from <= |list| < from + m && RingHolds(ring, list, from, m)
    ensures RingHolds(ring[Residue(|list|, m) := x], list + [x], from, m)
  {
    forall j: nat | from <= j < |list| ensures Residue(j, m) != Residue(|list|, m) {
      ResidueApart(j, |list|, m);
    }
  }
}
