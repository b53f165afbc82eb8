/**
  std::multiset<std::pair<size_t, size_t>> as the planner uses it: a sequence of pairs in increasing
  lexicographic order. The planner never inserts a pair twice, which its invariant records as strict order.
*/
module OrderedPairs {

  type Pair = (nat, nat)

  predicate Less(x: Pair, y: Pair) {
    x.0 < y.0 || (x.0 == y.0 && x.1 < y.1)
  }

  ghost predicate Increasing(s: seq<Pair>) {
    forall i, j :: 0 <= i < j < |s| ==> Less(s[i], s[j])
  }

  /** emplace: in front of the first larger pair. */
  function Insert(s: seq<Pair>, x: Pair): (r: seq<Pair>)
    ensures |r| == |s| + 1
    ensures forall y :: y in r <==> y == x || y in s
    ensures Increasing(s) && x !in s ==> Increasing(r)
  {
    if s == [] then [x]
    else if Less(x, s[0]) then [x] + s
    else
      var rest := Insert(s[1..], x);
      assert forall y :: y in s <==> y == s[0] || y in s[1..];
      InFront(s, x, rest);
      [s[0]] + rest
  }

  /** The first pair stays in front of the others and of what is inserted behind it. */
  lemma InFront(s: seq<Pair>, x: Pair, rest: seq<Pair>)
    requires s != [] && !Less(x, s[0]) && forall y :: y in rest <==> y == x || y in s[1..]
    ensures Increasing(s) && x !in s && Increasing(rest) ==> Increasing([s[0]] + rest)
    ensures Increasing(s) ==> Increasing(s[1..])
  {
    if Increasing(s) && x !in s && Increasing(rest) {
      forall k | 0 <= k < |rest| ensures Less(s[0], rest[k]) {
        assert rest[k] in rest;
        if rest[k] != x {
          var j :| 0 <= j < |s[1..]| && s[1..][j] == rest[k];
          assert Less(s[0], s[j + 1]);
        }
      }
    }
  }

  /** lower_bound: the first position whose pair is not less than the key. */
  function LowerBound(s: seq<Pair>, key: Pair): (i: nat)
    ensures i <= |s|
    ensures forall k :: 0 <= k < i ==> Less(s[k], key)
    ensures i < |s| ==> !Less(s[i], key)
  {
    if s == [] || !Less(s[0], key) then 0 else 1 + LowerBound(s[1..], key)
  }

  /** Whatever is not less than the key, is not less than the pair at the bound. */
  lemma BoundIsLeast(s: seq<Pair>, key: Pair, x: Pair)
    requires Increasing(s) && x in s && !Less(x, key)
    ensures LowerBound(s, key) < |s| && !Less(x, s[LowerBound(s, key)])
  {
    var k :| 0 <= k < |s| && s[k] == x;
    var at := LowerBound(s, key);
    assert at <= k;
    assert at < k ==> Less(s[at], s[k]);
  }

  /** erase at a position. */
  function Erase(s: seq<Pair>, i: nat): (r: seq<Pair>)
    requires i < |s|
    ensures |r| == |s| - 1
    ensures Increasing(s) ==> Increasing(r) && forall y :: y in r <==> y in s && y != s[i]
  {
    var r := s[..i] + s[i + 1..];
    assert forall y :: y in r ==> y in s;
    assert forall k :: 0 <= k < |s| && k != i ==> s[k] in r by {
      forall k | 0 <= k < |s| && k != i ensures s[k] in r {
        if k < i { assert r[k] == s[k]; } else { assert r[k - 1] == s[k]; }
      }
    }
    r
  }
}
