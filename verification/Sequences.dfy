/** Facts about duplicate-free sequences of natural numbers, shared by the other modules. */
module Sequences {

  ghost predicate NoDuplicates<T>(s: seq<T>) {
    forall i, j :: 0 <= i < j < |s| ==> s[i] != s[j]
  }

  ghost predicate AllBelow(s: seq<nat>, n: nat) {
    forall i :: 0 <= i < |s| ==> s[i] < n
  }

  ghost function Elements<T>(s: seq<T>): set<T> {
    set x | x in s
  }

  ghost function UpTo(n: nat): (s: set<nat>)
    ensures forall i: nat :: i in s <==> i < n
  {
    if n == 0 then {} else UpTo(n - 1) + {n - 1}
  }

  lemma {:induction false} UpToSize(n: nat)
    ensures |UpTo(n)| == n
  {
    if n == 0 {
      assert UpTo(0) == {};
    } else {
      UpToSize(n - 1);
      assert UpTo(n) == UpTo(n - 1) + {n - 1};
    }
  }

  lemma {:induction false} ElementsSize<T>(s: seq<T>)
    requires NoDuplicates(s)
    ensures |Elements(s)| == |s|
  {
    if s == [] {
      assert Elements(s) == {};
    } else {
      var rest := s[..|s| - 1];
      ElementsSize(rest);
      assert s == rest + [s[|s| - 1]];
      assert Elements(s) == Elements(rest) + {s[|s| - 1]};
    }
  }

  lemma SubsetSize<T>(a: set<T>, b: set<T>)
    requires a <= b
    ensures |a| <= |b|
    ensures |a| == |b| ==> a == b
  {
    assert |b| == |a| + |b - a| by {
      assert b == a + (b - a);
    }
    if |a| == |b| {
      assert b - a == {};
    }
  }

  /** A duplicate-free sequence below n has at most n entries, and n entries exactly when it is a permutation of
      0..n-1. */
  lemma Pigeonhole(s: seq<nat>, n: nat)
    requires NoDuplicates(s) && AllBelow(s, n)
    ensures |s| <= n
    ensures |s| == n <==> forall i: nat :: i < n ==> i in s
  {
    ElementsSize(s);
    UpToSize(n);
    SubsetSize(Elements(s), UpTo(n));
    if forall i: nat :: i < n ==> i in s {
      assert Elements(s) == UpTo(n);
    }
    if |s| == n {
      assert Elements(s) == UpTo(n);
      forall i: nat | i < n ensures i in s {
        assert i in UpTo(n);
      }
    }
  }

  /** A sequence longer than n whose entries are below n repeats one of them. */
  lemma Repetition(s: seq<nat>, n: nat) returns (i: nat, j: nat)
    requires AllBelow(s, n) && |s| > n
    ensures i < j < |s| && s[i] == s[j]
  {
    if NoDuplicates(s) {
      Pigeonhole(s, n);
      assert false;
    }
    i, j :| 0 <= i < j < |s| && s[i] == s[j];
  }

  lemma Associative<T>(a: seq<T>, b: seq<T>, c: seq<T>)
    ensures (a + b) + c == a + (b + c)
  {
  }

  lemma WholeSlices<T>(s: seq<T>)
    ensures s[..|s|] == s && s[0..] == s && s[|s|..] == []
  {
  }

  lemma BelowNext(s: seq<nat>, x: nat, n: nat)
    requires AllBelow(s, n) && x < n
    ensures AllBelow(s + [x], n)
  {
  }

  lemma NextSlice<T>(s: seq<T>, k: nat)
    requires k < |s|
    ensures s[..k + 1] == s[..k] + [s[k]] && s[..k + 1][..k] == s[..k]
  {
  }

  lemma CutPair<T>(s: seq<T>, k: nat)
    requires k + 1 < |s|
    ensures s == s[..k] + [s[k], s[k + 1]] + s[k + 2..]
  {
  }

  lemma CutRange<T>(s: seq<T>, k: nat, n: nat)
    requires k <= n <= |s|
    ensures s[..n] == s[..k] + s[k..n]
  {
  }

  lemma AppendNothing<T>(s: seq<T>)
    ensures s + [] == s && [] + s == s
  {
  }

  lemma SliceOfRest<T>(s: seq<T>, a: nat, k: nat)
    requires a <= k <= |s|
    ensures s[a..][..k - a] == s[a..k] && s[a..][k - a..] == s[k..]
  {
  }
}
