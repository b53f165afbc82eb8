/**
  Canonical byte-pair encoding: repeatedly merge the lowest-ranked, leftmost adjacent pair of a list of
  symbols until no pair has a rank.
*/
module BpeSpec {
  import opened Bytes

  type Ranks = map<(Text, Text), int>

  const INT32_MAX := 0x7FFF_FFFF

  /** The rank of a pair; a pair without one is as good as one at the largest 32-bit rank, which never merges. */
  function RankOf(ranks: Ranks, a: Text, b: Text): int {
    if (a, b) in ranks && ranks[(a, b)] < INT32_MAX then ranks[(a, b)] else INT32_MAX
  }

  /** The pair starting at k has the lowest rank of all, and every pair before it has a higher one. */
  ghost predicate IsBest(ranks: Ranks, list: seq<Text>, k: nat) {
    && k + 1 < |list| && RankOf(ranks, list[k], list[k + 1]) < INT32_MAX
    && (forall m :: 0 <= m < k ==> RankOf(ranks, list[m], list[m + 1]) > RankOf(ranks, list[k], list[k + 1]))
    && (forall m :: k < m < |list| - 1 ==> RankOf(ranks, list[m], list[m + 1]) >= RankOf(ranks, list[k], list[k + 1]))
  }

  ghost predicate NoPair(ranks: Ranks, list: seq<Text>) {
    forall m :: 0 <= m < |list| - 1 ==> RankOf(ranks, list[m], list[m + 1]) == INT32_MAX
  }

  function MergeAt(list: seq<Text>, k: nat): (r: seq<Text>)
    requires k + 1 < |list|
    ensures |r| == |list| - 1
  {
    list[..k] + [list[k] + list[k + 1]] + list[k + 2..]
  }

  ghost function Canonical(ranks: Ranks, list: seq<Text>): seq<Text>
    decreases |list|
  {
    if k: nat :| IsBest(ranks, list, k) then Canonical(ranks, MergeAt(list, k)) else list
  }

  // ---------------------------------------------------------------- words

  /** utf8_char_len: how many bytes the leading byte announces. */
  function CharLen(c: Byte): nat {
    if c < 0x80 then 1
    else if 0xC0 <= c < 0xE0 then 2
    else if 0xE0 <= c < 0xF0 then 3
    else if 0xF0 <= c < 0xF8 then 4
    else 1
  }

  /** No character runs past the end of the word. */
  predicate WellSplit(word: Text) {
    word == [] || (CharLen(word[0]) <= |word| && WellSplit(word[CharLen(word[0])..]))
  }

  function SplitChars(word: Text): seq<Text>
    requires WellSplit(word)
  {
    if word == [] then [] else [word[..CharLen(word[0])]] + SplitChars(word[CharLen(word[0])..])
  }

  type VocabMap = map<Text, int>

  /** The ids of the symbols; a symbol outside the vocabulary yields nothing. */
  function Lookup(vocab: VocabMap, list: seq<Text>): seq<int> {
    if list == [] then []
    else Lookup(vocab, list[..|list| - 1]) + if list[|list| - 1] in vocab then [vocab[list[|list| - 1]]] else []
  }
}

/** The linked list that the merge loop works on. */
module SymbolLists {
  import opened Bytes
  import opened BpeSpec

  datatype Symbol = Symbol(text: Text, prev: int, next: int)

  /** Links point forwards; node 0 stays the only node known to have no predecessor. */
  ghost predicate Linked(symbols: seq<Symbol>) {
    && symbols != [] && symbols[0].prev == -1
    && forall i :: 0 <= i < |symbols| ==> symbols[i].next == -1 || i < symbols[i].next < |symbols|
  }

  /** The nodes reached from node i. Absorbed nodes are not reached from node 0, but keep their links. */
  ghost function Chain(symbols: seq<Symbol>, i: int): (c: seq<nat>)
    requires Linked(symbols) && -1 <= i < |symbols|
    ensures i >= 0 ==> c != [] && c[0] == i
    ensures forall k :: 0 <= k < |c| ==> i <= c[k] < |symbols|
    decreases |symbols| - i
  {
    if i < 0 then [] else if symbols[i].next < 0 then [i] else [i] + Chain(symbols, symbols[i].next)
  }

  ghost function Texts(symbols: seq<Symbol>, c: seq<nat>): (t: seq<Text>)
    requires forall k :: 0 <= k < |c| ==> c[k] < |symbols|
    ensures |t| == |c| && forall k :: 0 <= k < |c| ==> t[k] == symbols[c[k]].text
  {
    seq(|c|, k requires 0 <= k < |c| => symbols[c[k]].text)
  }

  /** The symbol list that the linked list stands for. */
  ghost function Live(symbols: seq<Symbol>): seq<Text>
    requires Linked(symbols)
  {
    Texts(symbols, Chain(symbols, 0))
  }

  /** Absorbing the successor of node i: i takes its text and its link, and the successor is marked with -2. */
  function Absorb(symbols: seq<Symbol>, i: nat): (r: seq<Symbol>)
    requires i < |symbols| && i < symbols[i].next < |symbols|
    requires symbols[symbols[i].next].next == -1 || symbols[i].next < symbols[symbols[i].next].next < |symbols|
    ensures |r| == |symbols|
  {
    var j := symbols[i].next;
    var k := symbols[j].next;
    var s := symbols[i := symbols[i].(text := symbols[i].text + symbols[j].text, next := k)];
    var t := if k >= 0 then s[k := s[k].(prev := i)] else s;
    t[j := t[j].(prev := -2)]
  }

  /** The rank of the pair that node i starts, whether or not i has been absorbed. */
  function NodeRank(ranks: Ranks, symbols: seq<Symbol>, i: nat): int
    requires i < |symbols| && symbols[i].next < |symbols|
  {
    if symbols[i].next < 0 then INT32_MAX else RankOf(ranks, symbols[i].text, symbols[symbols[i].next].text)
  }

  /** The distance all links can still move: it falls with every merge, live or not. */
  ghost function Slack(symbols: seq<Symbol>, n: nat): nat
    requires forall i :: 0 <= i < |symbols| ==> symbols[i].next < n
  {
    if symbols == [] then 0
    else
      var last := symbols[|symbols| - 1];
      Slack(symbols[..|symbols| - 1], n) + if last.next >= 0 then n - last.next else 0
  }
}

/** BPETokenizer::bpe (src/io/bpe_tokenizer.cpp). */
module Bpe {
  import opened Bytes
  import opened Sequences
  import opened BpeSpec
  import opened SymbolLists

  // ---------------------------------------------------------------- canonical merging

  lemma BestIsUnique(ranks: Ranks, list: seq<Text>, k: nat, m: nat)
    requires IsBest(ranks, list, k) && IsBest(ranks, list, m)
    ensures k == m
  {
  }

  lemma CanonicalStep(ranks: Ranks, list: seq<Text>, k: nat)
    requires IsBest(ranks, list, k)
    ensures Canonical(ranks, list) == Canonical(ranks, MergeAt(list, k))
  {
    var m: nat :| IsBest(ranks, list, m) && Canonical(ranks, list) == Canonical(ranks, MergeAt(list, m));
    BestIsUnique(ranks, list, k, m);
  }

  lemma CanonicalStops(ranks: Ranks, list: seq<Text>)
    requires NoPair(ranks, list)
    ensures Canonical(ranks, list) == list
  {
  }

  // ---------------------------------------------------------------- chains

  /** Neighbours on the chain are linked, and the chain climbs. */
  lemma {:induction false} ChainLinks(symbols: seq<Symbol>, i: int, k: nat)
    requires Linked(symbols) && -1 <= i < |symbols| && k < |Chain(symbols, i)|
    ensures var c := Chain(symbols, i);
            if k + 1 < |c| then symbols[c[k]].next == c[k + 1] && c[k] < c[k + 1] else symbols[c[k]].next == -1
    decreases |symbols| - i
  {
    if k > 0 {
      ChainLinks(symbols, symbols[i].next, k - 1);
    } else if symbols[i].next >= 0 {
      assert Chain(symbols, i)[1] == Chain(symbols, symbols[i].next)[0];
    }
  }

  lemma {:induction false} ChainClimbs(symbols: seq<Symbol>, i: int, k: nat, m: nat)
    requires Linked(symbols) && -1 <= i < |symbols| && k < m < |Chain(symbols, i)|
    ensures Chain(symbols, i)[k] < Chain(symbols, i)[m]
    decreases m
  {
    ChainLinks(symbols, i, m - 1);
    if k < m - 1 {
      ChainClimbs(symbols, i, k, m - 1);
    }
  }

  /** The chain depends only on the links of the nodes it visits. */
  lemma {:induction false} ChainUnchanged(a: seq<Symbol>, b: seq<Symbol>, i: int)
    requires Linked(a) && Linked(b) && |a| == |b| && -1 <= i < |a|
    requires forall k :: 0 <= k < |Chain(a, i)| ==> b[Chain(a, i)[k]].next == a[Chain(a, i)[k]].next
    ensures Chain(b, i) == Chain(a, i)
    decreases |a| - i
  {
    if i >= 0 {
      assert b[Chain(a, i)[0]].next == a[Chain(a, i)[0]].next;
      if a[i].next >= 0 {
        forall k | 0 <= k < |Chain(a, a[i].next)|
          ensures b[Chain(a, a[i].next)[k]].next == a[Chain(a, a[i].next)[k]].next
        {
          assert Chain(a, i)[k + 1] == Chain(a, a[i].next)[k];
        }
        ChainUnchanged(a, b, a[i].next);
      }
    }
  }

  lemma ChainSkipsFirst(a: seq<Symbol>, b: seq<Symbol>, i: nat)
    requires Linked(a) && Linked(b) && |a| == |b| && i < |a| && a[i].next >= 0
    requires b[i].next == a[a[i].next].next
    requires forall m :: i < m < |a| ==> b[m].next == a[m].next
    ensures Chain(b, i) == [i] + Chain(a, a[i].next)[1..]
  {
    var j := a[i].next;
    if a[j].next >= 0 {
      forall m | 0 <= m < |Chain(a, a[j].next)|
        ensures b[Chain(a, a[j].next)[m]].next == a[Chain(a, a[j].next)[m]].next
      {
        assert Chain(a, a[j].next)[m] >= a[j].next > i;
      }
      ChainUnchanged(a, b, a[j].next);
      assert Chain(a, j)[1..] == Chain(a, a[j].next);
    }
  }

  /** Skipping the successor of chain node c[k] removes c[k + 1] from the chain. */
  lemma {:induction false} ChainSkips(a: seq<Symbol>, b: seq<Symbol>, i: int, k: nat)
    requires Linked(a) && Linked(b) && |a| == |b| && -1 <= i < |a| && k + 1 < |Chain(a, i)|
    requires b[Chain(a, i)[k]].next == a[Chain(a, i)[k + 1]].next
    requires forall m :: 0 <= m < |a| && m != Chain(a, i)[k] ==> b[m].next == a[m].next
    ensures Chain(b, i) == Chain(a, i)[..k + 1] + Chain(a, i)[k + 2..]
    decreases |a| - i
  {
    var c := Chain(a, i);
    ChainLinks(a, i, k);
    if k == 0 {
      ChainSkipsFirst(a, b, i);
      assert c == [i] + Chain(a, a[i].next);
    } else {
      var rest := Chain(a, a[i].next);
      assert c == [i] + rest;
      ChainClimbs(a, i, 0, k);
      ChainSkips(a, b, a[i].next, k - 1);
      assert b[i].next == a[i].next;
      ShiftedSlices(i, rest, k);
    }
  }

  lemma ShiftedSlices(i: nat, rest: seq<nat>, k: nat)
    requires 0 < k && k < |rest|
    ensures var c := [i] + rest; c[..k + 1] + c[k + 2..] == [i] + (rest[..k] + rest[k + 1..])
  {
  }

  // ---------------------------------------------------------------- one merge

  lemma AbsorbKeepsLinked(symbols: seq<Symbol>, i: nat)
    requires Linked(symbols) && i < |symbols| && symbols[i].next >= 0
    ensures Linked(Absorb(symbols, i))
    ensures forall m :: 0 <= m < |symbols| && m != i ==>
              Absorb(symbols, i)[m].text == symbols[m].text && Absorb(symbols, i)[m].next == symbols[m].next
    ensures Absorb(symbols, i)[i].text == symbols[i].text + symbols[symbols[i].next].text
    ensures Absorb(symbols, i)[i].next == symbols[symbols[i].next].next
  {
  }

  lemma {:induction false} SlackSame(a: seq<Symbol>, b: seq<Symbol>, n: nat)
    requires |a| == |b| && forall m :: 0 <= m < |a| ==> a[m].next < n && b[m].next == a[m].next
    ensures Slack(b, n) == Slack(a, n)
  {
    if a != [] {
      SlackSame(a[..|a| - 1], b[..|b| - 1], n);
    }
  }

  lemma {:induction false} SlackFalls(a: seq<Symbol>, b: seq<Symbol>, i: nat, n: nat)
    requires |a| == |b| && i < |a| && forall m :: 0 <= m < |a| ==> a[m].next < n && b[m].next < n
    requires forall m :: 0 <= m < |a| && m != i ==> b[m].next == a[m].next
    requires 0 <= a[i].next && (b[i].next < 0 || b[i].next > a[i].next)
    ensures Slack(b, n) < Slack(a, n)
  {
    var last := |a| - 1;
    if i == last {
      SlackSame(a[..last], b[..last], n);
    } else {
      SlackFalls(a[..last], b[..last], i, n);
    }
  }

  lemma TextsOfSkip(a: seq<Symbol>, b: seq<Symbol>, c: seq<nat>, k: nat, d: seq<nat>)
    requires |a| == |b| && k + 1 < |c| && forall m :: 0 <= m < |c| ==> c[m] < |a|
    requires forall m :: 0 <= m < |c| && m != k ==> b[c[m]].text == a[c[m]].text
    requires b[c[k]].text == a[c[k]].text + a[c[k + 1]].text
    requires d == c[..k + 1] + c[k + 2..]
    ensures forall m :: 0 <= m < |d| ==> d[m] < |b|
    ensures Texts(b, d) == MergeAt(Texts(a, c), k)
  {
    forall m | 0 <= m < |d| ensures d[m] == if m <= k then c[m] else c[m + 1] {
    }
  }

  /** A merge on the chain merges the corresponding pair of the list. */
  lemma LiveMerge(symbols: seq<Symbol>, k: nat)
    requires Linked(symbols) && k + 1 < |Chain(symbols, 0)|
    ensures symbols[Chain(symbols, 0)[k]].next >= 0 && Linked(Absorb(symbols, Chain(symbols, 0)[k]))
    ensures Live(Absorb(symbols, Chain(symbols, 0)[k])) == MergeAt(Live(symbols), k)
  {
    var c := Chain(symbols, 0);
    ChainLinks(symbols, 0, k);
    AbsorbKeepsLinked(symbols, c[k]);
    var b := Absorb(symbols, c[k]);
    ChainSkips(symbols, b, 0, k);
    forall m | 0 <= m < |c| && m != k ensures b[c[m]].text == symbols[c[m]].text {
      ChainClimbs(symbols, 0, if m < k then m else k, if m < k then k else m);
    }
    TextsOfSkip(symbols, b, c, k, Chain(b, 0));
  }

  /** A merge on an absorbed node is a stutter: the list it stands for stays the same. */
  lemma DeadMerge(symbols: seq<Symbol>, i: nat)
    requires Linked(symbols) && i < |symbols| && symbols[i].next >= 0 && i !in Chain(symbols, 0)
    ensures Linked(Absorb(symbols, i)) && Live(Absorb(symbols, i)) == Live(symbols)
  {
    AbsorbKeepsLinked(symbols, i);
    var b, c := Absorb(symbols, i), Chain(symbols, 0);
    forall k | 0 <= k < |c| ensures b[c[k]].next == symbols[c[k]].next && b[c[k]].text == symbols[c[k]].text {
      assert c[k] in c;
    }
    ChainUnchanged(symbols, b, 0);
  }

  /** Node i starts the best pair among all nodes, the first of equals. */
  ghost predicate BestNode(ranks: Ranks, symbols: seq<Symbol>, i: nat)
    requires Linked(symbols)
  {
    && i < |symbols| && NodeRank(ranks, symbols, i) < INT32_MAX
    && (forall m :: 0 <= m < i ==> NodeRank(ranks, symbols, m) > NodeRank(ranks, symbols, i))
    && (forall m :: i < m < |symbols| ==> NodeRank(ranks, symbols, m) >= NodeRank(ranks, symbols, i))
  }

  lemma PairRank(ranks: Ranks, symbols: seq<Symbol>, m: nat)
    requires Linked(symbols) && m + 1 < |Chain(symbols, 0)|
    ensures NodeRank(ranks, symbols, Chain(symbols, 0)[m]) == RankOf(ranks, Live(symbols)[m], Live(symbols)[m + 1])
  {
    ChainLinks(symbols, 0, m);
  }

  /** When the best node lies on the chain, its pair is the best of the list. */
  lemma BestNodeIsBestPair(ranks: Ranks, symbols: seq<Symbol>, i: nat) returns (k: nat)
    requires Linked(symbols) && BestNode(ranks, symbols, i) && i in Chain(symbols, 0)
    ensures k + 1 < |Chain(symbols, 0)| && Chain(symbols, 0)[k] == i && IsBest(ranks, Live(symbols), k)
  {
    var c := Chain(symbols, 0);
    k :| 0 <= k < |c| && c[k] == i;
    ChainLinks(symbols, 0, k);
    PairRank(ranks, symbols, k);
    forall m | 0 <= m < |c| - 1 && m != k
      ensures NodeRank(ranks, symbols, c[m]) == RankOf(ranks, Live(symbols)[m], Live(symbols)[m + 1])
      ensures if m < k then c[m] < i else c[m] > i
    {
      PairRank(ranks, symbols, m);
      ChainClimbs(symbols, 0, if m < k then m else k, if m < k then k else m);
    }
  }

  /** One iteration of the merge loop leaves the canonical result and the spelled text unchanged and uses up slack. */
  lemma MergeStep(ranks: Ranks, symbols: seq<Symbol>, i: nat)
    requires Linked(symbols) && BestNode(ranks, symbols, i)
    ensures symbols[i].next >= 0 && Linked(Absorb(symbols, i))
    ensures Canonical(ranks, Live(Absorb(symbols, i))) == Canonical(ranks, Live(symbols))
    ensures Concat(Live(Absorb(symbols, i))) == Concat(Live(symbols))
    ensures Slack(Absorb(symbols, i), |symbols|) < Slack(symbols, |symbols|)
  {
    AbsorbKeepsLinked(symbols, i);
    SlackFalls(symbols, Absorb(symbols, i), i, |symbols|);
    if i in Chain(symbols, 0) {
      var k := BestNodeIsBestPair(ranks, symbols, i);
      LiveMerge(symbols, k);
      CanonicalStep(ranks, Live(symbols), k);
      MergeAtText(Live(symbols), k);
    } else {
      DeadMerge(symbols, i);
    }
  }

  lemma NoNodeMeansNoPair(ranks: Ranks, symbols: seq<Symbol>)
    requires Linked(symbols) && forall m :: 0 <= m < |symbols| ==> NodeRank(ranks, symbols, m) == INT32_MAX
    ensures Canonical(ranks, Live(symbols)) == Live(symbols)
  {
    forall m | 0 <= m < |Live(symbols)| - 1
      ensures RankOf(ranks, Live(symbols)[m], Live(symbols)[m + 1]) == INT32_MAX
    {
      PairRank(ranks, symbols, m);
    }
    CanonicalStops(ranks, Live(symbols));
  }

  // ---------------------------------------------------------------- the merge loop

  /** The scan over all nodes, absorbed ones included, for the first pair of the lowest rank. */
  method FindBest(ranks: Ranks, symbols: seq<Symbol>) returns (best: int)
    requires Linked(symbols)
    ensures -1 <= best < |symbols|
    ensures best >= 0 ==> BestNode(ranks, symbols, best)
    ensures best < 0 ==> forall m :: 0 <= m < |symbols| ==> NodeRank(ranks, symbols, m) == INT32_MAX
  {
    var bestRank := INT32_MAX;
    best := -1;
    for i := 0 to |symbols|
      invariant -1 <= best < i
      invariant best < 0 ==> bestRank == INT32_MAX
      invariant best >= 0 ==> bestRank == NodeRank(ranks, symbols, best) < INT32_MAX
      invariant forall m :: 0 <= m < best ==> NodeRank(ranks, symbols, m) > bestRank
      invariant forall m :: 0 <= m < i ==> NodeRank(ranks, symbols, m) >= bestRank
    {
      if symbols[i].next >= 0 {
        var pair := (symbols[i].text, symbols[symbols[i].next].text);
        if pair in ranks && ranks[pair] < bestRank {
          bestRank, best := ranks[pair], i;
        }
      }
    }
  }

  /** The merge loop; in every round the chain from node 0 spells the same text. */
  method MergeAll(ranks: Ranks, symbols: seq<Symbol>) returns (result: seq<Symbol>)
    requires Linked(symbols)
    ensures Linked(result) && |result| == |symbols|
    ensures Live(result) == Canonical(ranks, Live(symbols)) && Concat(Live(result)) == Concat(Live(symbols))
  {
    result := symbols;
    while true
      invariant Linked(result) && |result| == |symbols|
      invariant Canonical(ranks, Live(result)) == Canonical(ranks, Live(symbols))
      invariant Concat(Live(result)) == Concat(Live(symbols))
      decreases Slack(result, |result|)
    {
      var best := FindBest(ranks, result);
      if best < 0 {
        NoNodeMeansNoPair(ranks, result);
        return;
      }
      MergeStep(ranks, result, best);
      var j := result[best].next;
      ghost var before := result;
      result := result[best := result[best].(text := result[best].text + result[j].text, next := result[j].next)];
      if result[j].next >= 0 {
        result := result[result[j].next := result[result[j].next].(prev := best)];
      }
      result := result[j := result[j].(prev := -2)];
      assert result == Absorb(before, best);
    }
  }

  // ---------------------------------------------------------------- a whole word

  method Split(word: Text) returns (list: seq<Text>)
    requires WellSplit(word)
    ensures list == SplitChars(word)
  {
    list := [];
    var p := 0;
    while p < |word|
      invariant p <= |word| && WellSplit(word[p..])
      invariant list + SplitChars(word[p..]) == SplitChars(word)
    {
      var len := CharLen(word[p]);
      SplitNext(word, p);
      Associative(list, [word[p..p + len]], SplitChars(word[p + len..]));
      list := list + [word[p..p + len]];
      p := p + len;
    }
  }

  lemma SplitNext(word: Text, p: nat)
    requires p < |word| && WellSplit(word[p..])
    ensures p + CharLen(word[p]) <= |word| && WellSplit(word[p + CharLen(word[p])..])
    ensures var q := p + CharLen(word[p]); SplitChars(word[p..]) == [word[p..q]] + SplitChars(word[q..])
  {
    var len := CharLen(word[p]);
    assert word[p..][len..] == word[p + len..] && word[p..][..len] == word[p..p + len];
  }

  /** The freshly linked list: its chain from any node is the rest of the nodes. */
  lemma {:induction false} FreshChain(symbols: seq<Symbol>, i: nat)
    requires Linked(symbols) && i < |symbols|
    requires forall m :: 0 <= m < |symbols| ==> symbols[m].next == if m + 1 < |symbols| then m + 1 else -1
    ensures |Chain(symbols, i)| == |symbols| - i
    ensures forall k :: 0 <= k < |Chain(symbols, i)| ==> Chain(symbols, i)[k] == i + k
    decreases |symbols| - i
  {
    if i + 1 < |symbols| {
      FreshChain(symbols, i + 1);
    }
  }

  method Link(list: seq<Text>) returns (symbols: seq<Symbol>)
    requires list != []
    ensures Linked(symbols) && Live(symbols) == list
  {
    symbols := [];
    for i := 0 to |list|
      invariant |symbols| == i
      invariant forall m :: 0 <= m < i ==> symbols[m] == Symbol(list[m], m - 1, if m + 1 < |list| then m + 1 else -1)
    {
      symbols := symbols + [Symbol(list[i], i - 1, if i + 1 < |list| then i + 1 else -1)];
    }
    FreshChain(symbols, 0);
    assert Live(symbols) == list;
  }

  /** Walking the chain from the first node without a predecessor, which is node 0. */
  method Collect(vocab: VocabMap, symbols: seq<Symbol>) returns (ids: seq<int>)
    requires Linked(symbols)
    ensures ids == Lookup(vocab, Live(symbols))
  {
    ids := [];
    for i := 0 to |symbols|
      invariant i == 0
    {
      if symbols[i].prev != -1 {
        continue;
      }
      ids := CollectFrom(vocab, symbols, i);
      return;
    }
  }

  /** The walk along the chain. */
  method CollectFrom(vocab: VocabMap, symbols: seq<Symbol>, i: nat) returns (ids: seq<int>)
    requires Linked(symbols) && i == 0 < |symbols|
    ensures ids == Lookup(vocab, Live(symbols))
  {
    ghost var list := Live(symbols);
    ids := [];
    var cur := i;
    ghost var k := 0;
    while cur >= 0
      invariant 0 <= k <= |list| && -1 <= cur < |symbols|
      invariant cur >= 0 ==> k < |list| && Chain(symbols, 0)[k] == cur
      invariant cur < 0 ==> k == |list|
      invariant ids == Lookup(vocab, list[..k])
      decreases |list| - k
    {
      CollectNext(vocab, symbols, k);
      if symbols[cur].text in vocab {
        ids := ids + [vocab[symbols[cur].text]];
      }
      cur := symbols[cur].next;
      k := k + 1;
    }
    assert list[..k] == list;
  }

  /** The next symbol of the chain adds its id, if it has one. */
  lemma CollectNext(vocab: VocabMap, symbols: seq<Symbol>, k: nat)
    requires Linked(symbols) && 0 < |symbols| && k < |Live(symbols)| == |Chain(symbols, 0)|
    ensures var cur := Chain(symbols, 0)[k];
            && 0 <= cur < |symbols|
            && Lookup(vocab, Live(symbols)[..k + 1]) ==
               Lookup(vocab, Live(symbols)[..k]) + (if symbols[cur].text in vocab then [vocab[symbols[cur].text]]
                                                    else [])
            && (if k + 1 < |Live(symbols)| then symbols[cur].next == Chain(symbols, 0)[k + 1]
                else symbols[cur].next == -1)
  {
    ChainLinks(symbols, 0, k);
    NextSlice(Live(symbols), k);
  }

  /** Main result on merging: the linked-list loop computes the ids of the canonical merge of the word's characters. */
  method BytePairEncode(ranks: Ranks, vocab: VocabMap, word: Text) returns (ids: seq<int>)
    requires WellSplit(word)
    ensures ids == Lookup(vocab, Canonical(ranks, SplitChars(word)))
    ensures Concat(Canonical(ranks, SplitChars(word))) == word
  {
    CanonicalSpells(ranks, word);
    if word == [] {
      CanonicalStops(ranks, []);
      return [];
    }
    var list := Split(word);
    if |list| == 1 {
      CanonicalStops(ranks, list);
      assert list[..0] == [];
      return if list[0] in vocab then [vocab[list[0]]] else [];
    }
    var symbols := Link(list);
    symbols := MergeAll(ranks, symbols);
    ids := Collect(vocab, symbols);
  }

  // ---------------------------------------------------------------- merging keeps the text

  function Concat(list: seq<Text>): Text {
    if list == [] then [] else Concat(list[..|list| - 1]) + list[|list| - 1]
  }

  lemma {:induction false} ConcatAppend(a: seq<Text>, b: seq<Text>)
    ensures Concat(a + b) == Concat(a) + Concat(b)
  {
    if b == [] {
      assert a + b == a;
    } else {
      var last := |b| - 1;
      assert (a + b)[..|a + b| - 1] == a + b[..last];
      ConcatAppend(a, b[..last]);
    }
  }

  lemma ConcatOne(t: Text)
    ensures Concat([t]) == t
  {
    assert [t][..0] == [];
  }

  lemma ConcatTwo(s: Text, t: Text)
    ensures Concat([s, t]) == s + t
  {
    assert [s, t][..1] == [s];
    ConcatOne(s);
  }

  lemma ReplaceMiddle(head: seq<Text>, a: seq<Text>, b: seq<Text>, tail: seq<Text>)
    requires Concat(a) == Concat(b)
    ensures Concat(head + a + tail) == Concat(head + b + tail)
  {
    ConcatAppend(head + a, tail);
    ConcatAppend(head, a);
    ConcatAppend(head + b, tail);
    ConcatAppend(head, b);
  }

  lemma PairText(list: seq<Text>, head: seq<Text>, s: Text, t: Text, tail: seq<Text>)
    requires list == head + [s, t] + tail
    ensures Concat(head + [s + t] + tail) == Concat(list)
  {
    ConcatOne(s + t);
    ConcatTwo(s, t);
    ReplaceMiddle(head, [s + t], [s, t], tail);
  }

  lemma MergeAtText(list: seq<Text>, k: nat)
    requires k + 1 < |list|
    ensures Concat(MergeAt(list, k)) == Concat(list)
  {
    var head, tail := list[..k], list[k + 2..];
    CutPair(list, k);
    PairText(list, head, list[k], list[k + 1], tail);
  }

  /** Canonical merging never changes the text the list spells. */
  lemma {:induction false} CanonicalText(ranks: Ranks, list: seq<Text>)
    ensures Concat(Canonical(ranks, list)) == Concat(list)
    decreases |list|
  {
    if k: nat :| IsBest(ranks, list, k) {
      CanonicalStep(ranks, list, k);
      MergeAtText(list, k);
      CanonicalText(ranks, MergeAt(list, k));
    }
  }

  lemma {:induction false} SplitText(word: Text)
    requires WellSplit(word)
    ensures Concat(SplitChars(word)) == word
  {
    if word != [] {
      var len := CharLen(word[0]);
      SplitText(word[len..]);
      ConcatAppend([word[..len]], SplitChars(word[len..]));
      assert Concat([word[..len]]) == word[..len];
      assert word == word[..len] + word[len..];
    }
  }

  /** The canonical list of a word spells the word. */
  lemma CanonicalSpells(ranks: Ranks, word: Text)
    requires WellSplit(word)
    ensures Concat(Canonical(ranks, SplitChars(word))) == word
  {
    CanonicalText(ranks, SplitChars(word));
    SplitText(word);
  }

  /** Lowest rank, leftmost: as long as some pair has a rank, exactly one pair is the best. */
  lemma {:induction false} SomePairIsBest(ranks: Ranks, list: seq<Text>)
    requires !NoPair(ranks, list)
    ensures exists k: nat :: IsBest(ranks, list, k) && forall j: nat :: IsBest(ranks, list, j) ==> j == k
  {
    var best, k := INT32_MAX, 0;
    for m := 0 to |list| - 1
      invariant best < INT32_MAX ==> k < m && best == RankOf(ranks, list[k], list[k + 1])
      invariant forall j :: 0 <= j < m && j < k ==> RankOf(ranks, list[j], list[j + 1]) > best
      invariant forall j :: 0 <= j < m ==> RankOf(ranks, list[j], list[j + 1]) >= best
      invariant best <= INT32_MAX && 0 <= k && (k == 0 || k < m)
    {
      if RankOf(ranks, list[m], list[m + 1]) < best {
        best, k := RankOf(ranks, list[m], list[m + 1]), m;
      }
    }
    assert IsBest(ranks, list, k);
    forall j: nat | IsBest(ranks, list, j) ensures j == k {
      BestIsUnique(ranks, list, j, k);
    }
  }

  /** The canonical list is final: no adjacent pair has a rank. */
  lemma {:induction false} CanonicalIsFinal(ranks: Ranks, list: seq<Text>)
    ensures NoPair(ranks, Canonical(ranks, list))
    decreases |list|
  {
    if k: nat :| IsBest(ranks, list, k) {
      CanonicalStep(ranks, list, k);
      CanonicalIsFinal(ranks, MergeAt(list, k));
    } else {
      if !NoPair(ranks, list) {
        SomePairIsBest(ranks, list);
        assert false;
      }
    }
  }
}
