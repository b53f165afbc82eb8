/** Any number of passes over any sequences, one after the other. */
module PassRunSpec {
  import opened ForwardPassSpec
  import opened PagedCacheSpec
  import opened TokenAttentionSpec

  /** One forward pass over len tokens of a sequence. */
  datatype Pass = Pass(sequence: nat, len: nat, nodes: seq<PassNode>)

  /** The first attention node of a layer, or the number of nodes if there is none. */
  function LayerNode(nodes: seq<PassNode>, l: nat): (i: nat)
    ensures i <= |nodes| && (i < |nodes| ==> nodes[i].Attention? && nodes[i].layer == l)
  {
    if nodes == [] then 0
    else
      var n := |nodes| - 1;
      var i := LayerNode(nodes[..n], l);
      if i < n || (nodes[n].Attention? && nodes[n].layer == l) then i else n + 1
  }

  predicate Covers(pass: Pass, l: nat) {
    LayerNode(pass.nodes, l) < |pass.nodes|
  }

  function PassTokens(pass: Pass, l: nat): Tokens {
    if Covers(pass, l) then
      var node := pass.nodes[LayerNode(pass.nodes, l)];
      Tokens(node.q, node.k, node.v)
    else Tokens([], [], [])
  }

  function Joined(a: Tokens, b: Tokens): Tokens {
    Tokens(a.q + b.q, a.k + b.k, a.v + b.v)
  }

  /** The tokens of one sequence in one layer, over all its passes. */
  function History(passes: seq<Pass>, s: nat, l: nat): Tokens {
    if passes == [] then Tokens([], [], [])
    else
      var n := |passes| - 1;
      if passes[n].sequence == s then Joined(History(passes[..n], s, l), PassTokens(passes[n], l))
      else History(passes[..n], s, l)
  }

  /** Every pass over the sequence has an attention node for the layer. */
  ghost predicate AllCover(passes: seq<Pass>, s: nat, l: nat) {
    forall i :: 0 <= i < |passes| && passes[i].sequence == s ==> Covers(passes[i], l)
  }

  /** The shapes fit and no two attention nodes of the pass share a layer. */
  ghost predicate PassGood(pass: Pass, p: Shape) {
    pass.len > 0 && LayersDiffer(pass.nodes) && forall i :: 0 <= i < |pass.nodes| ==>
                                                  NodeFits(pass.nodes[i], pass.len, p)
  }

  ghost predicate AllGood(passes: seq<Pass>, p: Shape) {
    forall i :: 0 <= i < |passes| ==> PassGood(passes[i], p)
  }

  /** Token t of pass i attends to exactly the tokens of its own sequence up to itself, from all passes so far. */
  ghost predicate OutputRight(passes: seq<Pass>, reports: seq<seq<Report>>, i: nat, t: nat, l: nat, e: real -> real,
                              p: Shape)
    requires i < |passes| == |reports|
  {
    var s, node := passes[i].sequence, LayerNode(passes[i].nodes, l);
    var h, at := History(passes, s, l), |History(passes[..i], s, l).q| + t;
    && node < |reports[i]| && t < |reports[i][node].output| && at < |h.q| == |h.k| == |h.v|
    && TokenAttends(reports[i][node].output[t], e, h.q[at], h.k[..at + 1], h.v[..at + 1], p)
  }

  /** One layer of one sequence holds the tokens of all its passes, and every output was right. */
  ghost predicate HistoryHeld(passes: seq<Pass>, reports: seq<seq<Report>>, c: Cache, rows: Rows, s: nat, l: nat,
                              e: real -> real, p: Shape)
  {
    var h := History(passes, s, l);
    && |reports| == |passes|
    && |h.q| == |h.k| == |h.v| == Entry(c, s).length && HoldsTokens(rows, s, l, 0, h.k, h.v)
    && forall i: nat, t: nat :: i < |passes| && passes[i].sequence == s && t < passes[i].len ==>
         OutputRight(passes, reports, i, t, l, e, p)
  }

  ghost predicate HistoriesHeld(passes: seq<Pass>, reports: seq<seq<Report>>, c: Cache, rows: Rows, e: real -> real,
                                p: Shape) {
    && |reports| == |passes|
    && forall s: nat, l: nat :: AllCover(passes, s, l) ==> HistoryHeld(passes, reports, c, rows, s, l, e, p)
  }

  /** After a pass has failed: the tokens of the passes before it are still there and their outputs were right; the
      length may already cover some of the failed chunk, but only in its own sequence. */
  ghost predicate HistoryKept(passes: seq<Pass>, reports: seq<seq<Report>>, failed: Pass, c: Cache, rows: Rows, s: nat,
                              l: nat, e: real -> real, p: Shape)
  {
    var h := History(passes, s, l);
    && |reports| == |passes|
    && |h.q| == |h.k| == |h.v| <= Entry(c, s).length <= |h.q| + (if s == failed.sequence then failed.len else 0)
    && HoldsTokens(rows, s, l, 0, h.k, h.v)
    && forall i: nat, t: nat :: i < |passes| && passes[i].sequence == s && t < passes[i].len ==>
         OutputRight(passes, reports, i, t, l, e, p)
  }

  ghost predicate HistoriesKept(passes: seq<Pass>, reports: seq<seq<Report>>, failed: Pass, c: Cache, rows: Rows,
                                e: real -> real, p: Shape)
  {
    && |reports| == |passes|
    && forall s: nat, l: nat :: AllCover(passes, s, l) ==> HistoryKept(passes, reports, failed, c, rows, s, l, e, p)
  }

  // ---------------------------------------------------------------- when all passes succeed

  predicate CanWork(node: PassNode, layers: nat) {
    match node
    case Rope => true
    case Other(ok) => ok
    case Attention(l, _, _, _) => 0 <= l < layers
  }

  ghost predicate PassWorks(pass: Pass, layers: nat) {
    forall j :: 0 <= j < |pass.nodes| ==> CanWork(pass.nodes[j], layers)
  }

  ghost predicate AllWork(passes: seq<Pass>, layers: nat) {
    forall i :: 0 <= i < |passes| ==> PassWorks(passes[i], layers)
  }

  /** The tokens that a pass adds to a sequence. */
  ghost function Added(pass: Pass, s: nat): nat {
    if pass.sequence == s && HasAttention(pass.nodes) then pass.len else 0
  }

  ghost function TotalTokens(passes: seq<Pass>, s: nat): nat {
    if passes == [] then 0 else TotalTokens(passes[..|passes| - 1], s) + Added(passes[|passes| - 1], s)
  }

  /** The free blocks that a pass takes when its sequence holds some tokens already. */
  ghost function Taken(pass: Pass, c: Cache, before: nat): nat {
    var have, want := BlocksFor(c, pass.sequence, before), BlocksFor(c, pass.sequence, before + pass.len);
    if HasAttention(pass.nodes) && have <= want then want - have else 0
  }

  /** The free blocks that all passes take together, from empty sequences on. */
  ghost function Demand(passes: seq<Pass>, c: Cache): nat {
    if passes == [] then 0
    else
      var n := |passes| - 1;
      Demand(passes[..n], c) + Taken(passes[n], c, TotalTokens(passes[..n], passes[n].sequence))
  }

  /** What the books say after some passes from empty sequences on. */
  ghost predicate Books(passes: seq<Pass>, c0: Cache, c: Cache) {
    && SameShape(c0, c) && |c.layers| == |c0.layers| && |c.free| + Demand(passes, c0) == |c0.free|
    && forall s: nat :: BookOf(passes, c0, c, s)
  }

  ghost predicate BookOf(passes: seq<Pass>, c0: Cache, c: Cache, s: nat) {
    Entry(c, s).length == TotalTokens(passes, s) && |Entry(c, s).blocks| == BlocksFor(c0, s, TotalTokens(passes, s))
  }

  /** The contiguous cache of a context: whether it is there, its length and capacity, and the tokens that each pass
      adds. */
  datatype Contiguous = Contiguous(present: bool, len: nat, max: nat, tokens: int)

  /** It can take the tokens of n passes; without any to take it is not asked. */
  ghost predicate CanAdvanceBy(x: Contiguous, n: nat) {
    n == 0 || x.tokens <= 0 || (x.present && x.max > 0 && x.len + n * x.tokens <= x.max)
  }

  /** It has moved on n times. */
  ghost predicate AdvancedBy(x: Contiguous, x': Contiguous, n: nat) {
    && x' == (if x.present && x.tokens > 0 then x.(len := x'.len) else x)
    && (x.present && x.tokens > 0 ==> x'.len == x.len + n * x.tokens)
  }

  /** All passes succeed exactly when their nodes can work, the free blocks cover what they take together, and the
      contiguous cache can take their tokens. */
  ghost predicate AllFit(passes: seq<Pass>, c: Cache, x: Contiguous) {
    AllWork(passes, |c.layers|) && Demand(passes, c) <= |c.free| && CanAdvanceBy(x, |passes|)
  }

  /** The state of a run after as many passes as there are reports. */
  ghost predicate SoFar(passes: seq<Pass>, reports: seq<seq<Report>>, c0: Cache, c: Cache, rows: Rows, x0: Contiguous,
                        x: Contiguous, e: real -> real, p: Shape)
  {
    var n := |reports|;
    && n <= |passes| && Books(passes[..n], c0, c) && AdvancedBy(x0, x, n) && AllFit(passes[..n], c0, x0)
    && HistoriesHeld(passes[..n], reports, c, rows, e, p)
  }

  /** Every sequence owns the blocks for all tokens that it will get. */
  ghost predicate Reserved(passes: seq<Pass>, c: Cache) {
    forall s: nat :: TotalTokens(passes, s) <= |Entry(c, s).blocks| * c.blockSize
  }
}

module PassRuns {
  import opened Arithmetic
  import opened AttentionSpec
  import opened BatchSpec
  import opened ForwardPassSpec
  import opened ForwardPasses
  import opened PagedCacheProofs
  import opened PagedCacheSpec
  import opened PassRunSpec
  import opened PassTheorems
  import opened RealVectorSpec
  import opened TokenAttentionSpec
  import opened Wrappers

  lemma HistoryNext(passes: seq<Pass>, pass: Pass, s: nat, l: nat)
    ensures History(passes + [pass], s, l) ==
            if pass.sequence == s then Joined(History(passes, s, l), PassTokens(pass, l)) else History(passes, s, l)
  {
    assert (passes + [pass])[..|passes|] == passes;
  }

  lemma AllCoverNext(passes: seq<Pass>, pass: Pass, s: nat, l: nat)
    requires AllCover(passes + [pass], s, l)
    ensures AllCover(passes, s, l) && (pass.sequence == s ==> Covers(pass, l))
  {
    var more := passes + [pass];
    assert more[|passes|] == pass && forall i :: 0 <= i < |passes| ==> more[i] == passes[i];
  }

  /** An output that was right stays right when later passes add tokens behind it. */
  lemma OutputStaysRight(passes: seq<Pass>, reports: seq<seq<Report>>, pass: Pass, rs: seq<Report>, i: nat, t: nat,
                         l: nat, e: real -> real, p: Shape)
    requires i < |passes| == |reports| && OutputRight(passes, reports, i, t, l, e, p)
    requires var x := PassTokens(pass, l); |x.q| == |x.k| == |x.v|
    ensures OutputRight(passes + [pass], reports + [rs], i, t, l, e, p)
  {
    var s := passes[i].sequence;
    var h, at := History(passes, s, l), |History(passes[..i], s, l).q| + t;
    HistoryNext(passes, pass, s, l);
    var h' := History(passes + [pass], s, l);
    assert (passes + [pass])[..i] == passes[..i];
    assert h'.k[..at + 1] == h.k[..at + 1] && h'.v[..at + 1] == h.v[..at + 1];
  }

  lemma TokensSized(pass: Pass, l: nat, p: Shape)
    requires PassGood(pass, p)
    ensures var x := PassTokens(pass, l); |x.q| == |x.k| == |x.v| == if Covers(pass, l) then pass.len else 0
  {
    if Covers(pass, l) {
      assert NodeFits(pass.nodes[LayerNode(pass.nodes, l)], pass.len, p);
    }
  }

  /** The outputs of the newest pass are right. */
  lemma OutputIsRight(passes: seq<Pass>, reports: seq<seq<Report>>, pass: Pass, rs: seq<Report>, t: nat, l: nat,
                      e: real -> real, p: Shape)
    requires |passes| == |reports| && PassGood(pass, p) && Covers(pass, l) && |rs| == |pass.nodes| && t < pass.len
    requires var h, x, o := History(passes, pass.sequence, l), PassTokens(pass, l), rs[LayerNode(pass.nodes, l)].output;
             && |h.q| == |h.k| == |h.v| && |o| == |x.q| == |x.k| == |x.v| == pass.len
             && TokenAttends(o[t], e, x.q[t], (h.k + x.k)[..|h.k| + t + 1], (h.v + x.v)[..|h.v| + t + 1], p)
    ensures OutputRight(passes + [pass], reports + [rs], |passes|, t, l, e, p)
  {
    HistoryNext(passes, pass, pass.sequence, l);
    assert (passes + [pass])[..|passes|] == passes;
  }

  /** A pass over another sequence leaves a history as it is. */
  lemma OtherHistory(passes: seq<Pass>, reports: seq<seq<Report>>, pass: Pass, rs: seq<Report>, c0: Cache, c: Cache,
                     rows0: Rows, rows: Rows, base: nat, s: nat, l: nat, e: real -> real, p: Shape)
    requires HistoryHeld(passes, reports, c0, rows0, s, l, e, p) && PassGood(pass, p) && pass.sequence != s
    requires Confined(c0, c, rows0, rows, pass.sequence, base, pass.len)
    ensures HistoryHeld(passes + [pass], reports + [rs], c, rows, s, l, e, p)
  {
    HistoryNext(passes, pass, s, l);
    TokensSized(pass, l, p);
    var h := History(passes, s, l);
    forall t: nat | t < |h.k| ensures HoldsAt(rows, s, l, 0, t, h.k[t], h.v[t]) {
      assert HoldsAt(rows0, s, l, 0, t, h.k[t], h.v[t]);
      var key := (s, l, t);
      assert key in rows0 && key in rows;
    }
    forall i: nat, t: nat | i < |passes| + 1 && (passes + [pass])[i].sequence == s && t < (passes + [pass])[i].len
      ensures OutputRight(passes + [pass], reports + [rs], i, t, l, e, p)
    {
      OutputStaysRight(passes, reports, pass, rs, i, t, l, e, p);
    }
  }

  /** A pass over the sequence itself extends its history by the pass's tokens. */
  lemma OwnHistory(passes: seq<Pass>, reports: seq<seq<Report>>, pass: Pass, rs: seq<Report>, c0: Cache, c: Cache,
                   rows0: Rows, rows: Rows, l: nat, e: real -> real, p: Shape)
    requires HistoryHeld(passes, reports, c0, rows0, pass.sequence, l, e, p) && PassGood(pass, p) && Covers(pass, l)
    requires PassDone(pass.nodes, rs, -1, c0, c, rows0, rows, pass.sequence, pass.len, e, p)
    ensures HistoryHeld(passes + [pass], reports + [rs], c, rows, pass.sequence, l, e, p)
  {
    var s, i := pass.sequence, LayerNode(pass.nodes, l);
    var h, x := History(passes, s, l), PassTokens(pass, l);
    HistoryNext(passes, pass, s, l);
    TokensSized(pass, l, p);
    assert NodeFits(pass.nodes[i], pass.len, p);
    PassExtendsHistory(pass.nodes, rs, -1, c0, c, rows0, rows, s, pass.len, e, p, i, l, h.k, h.v);
    forall j: nat, t: nat | j < |passes| + 1 && (passes + [pass])[j].sequence == s && t < (passes + [pass])[j].len
      ensures OutputRight(passes + [pass], reports + [rs], j, t, l, e, p)
    {
      if j < |passes| {
        OutputStaysRight(passes, reports, pass, rs, j, t, l, e, p);
      } else {
        OutputIsRight(passes, reports, pass, rs, t, l, e, p);
      }
    }
  }

  lemma HistoriesNext(passes: seq<Pass>, reports: seq<seq<Report>>, pass: Pass, rs: seq<Report>, c0: Cache, c: Cache,
                      rows0: Rows, rows: Rows, e: real -> real, p: Shape)
    requires HistoriesHeld(passes, reports, c0, rows0, e, p) && PassGood(pass, p)
    requires PassDone(pass.nodes, rs, -1, c0, c, rows0, rows, pass.sequence, pass.len, e, p)
    requires Confined(c0, c, rows0, rows, pass.sequence, Entry(c0, pass.sequence).length, pass.len)
    ensures HistoriesHeld(passes + [pass], reports + [rs], c, rows, e, p)
  {
    forall s: nat, l: nat | AllCover(passes + [pass], s, l)
      ensures HistoryHeld(passes + [pass], reports + [rs], c, rows, s, l, e, p)
    {
      AllCoverNext(passes, pass, s, l);
      if pass.sequence == s {
        OwnHistory(passes, reports, pass, rs, c0, c, rows0, rows, l, e, p);
      } else {
        OtherHistory(passes, reports, pass, rs, c0, c, rows0, rows, Entry(c0, pass.sequence).length, s, l, e, p);
      }
    }
  }

  lemma HistoriesStart(c: Cache, rows: Rows, e: real -> real, p: Shape)
    requires forall s: nat :: Entry(c, s).length == 0
    ensures HistoriesHeld([], [], c, rows, e, p)
  {
  }

  /** What a failed pass leaves of the histories. */
  lemma HistoriesAfterFailure(passes: seq<Pass>, reports: seq<seq<Report>>, failed: Pass, c0: Cache, c: Cache,
                              rows0: Rows, rows: Rows, e: real -> real, p: Shape)
    requires HistoriesHeld(passes, reports, c0, rows0, e, p)
    requires Confined(c0, c, rows0, rows, failed.sequence, Entry(c0, failed.sequence).length, failed.len)
    ensures HistoriesKept(passes, reports, failed, c, rows, e, p)
  {
    forall s: nat, l: nat | AllCover(passes, s, l) ensures HistoryKept(passes, reports, failed, c, rows, s, l, e, p) {
      var h := History(passes, s, l);
      assert HistoryHeld(passes, reports, c0, rows0, s, l, e, p);
      TokensKept(failed, c0, c, rows0, rows, s, l, h.k, h.v);
    }
  }

  lemma TokensKept(pass: Pass, c0: Cache, c: Cache, rows0: Rows, rows: Rows, s: nat, l: nat, k: seq<Row>, v: seq<Row>)
    requires Confined(c0, c, rows0, rows, pass.sequence, Entry(c0, pass.sequence).length, pass.len)
    requires |k| == |v| == Entry(c0, s).length && HoldsTokens(rows0, s, l, 0, k, v)
    ensures HoldsTokens(rows, s, l, 0, k, v)
    ensures |k| <= Entry(c, s).length <= |k| + (if s == pass.sequence then pass.len else 0)
  {
    forall t: nat | t < |k| ensures HoldsAt(rows, s, l, 0, t, k[t], v[t]) {
      assert HoldsAt(rows0, s, l, 0, t, k[t], v[t]);
      var key := (s, l, t);
      assert key in rows0 && key in rows;
    }
  }

  // ---------------------------------------------------------------- room

  lemma BooksStart(c: Cache)
    requires forall s: nat :: Entry(c, s).length == 0
    ensures Books([], c, c)
  {
    forall s: nat ensures BookOf([], c, c, s) {
    }
  }

  lemma TotalNext(passes: seq<Pass>, s: nat, n: nat)
    requires n < |passes|
    ensures TotalTokens(passes[..n + 1], s) == TotalTokens(passes[..n], s) + Added(passes[n], s)
  {
    assert passes[..n + 1][..n] == passes[..n];
  }

  lemma DemandNext(passes: seq<Pass>, c: Cache, n: nat)
    requires n < |passes|
    ensures Demand(passes[..n + 1], c) ==
            Demand(passes[..n], c) + Taken(passes[n], c, TotalTokens(passes[..n], passes[n].sequence))
  {
    assert passes[..n + 1][..n] == passes[..n];
  }

  lemma {:induction false} DemandGrows(passes: seq<Pass>, c: Cache, n: nat)
    requires n <= |passes|
    ensures Demand(passes[..n], c) <= Demand(passes, c)
    decreases |passes|
  {
    if n < |passes| {
      assert passes[..|passes| - 1][..n] == passes[..n];
      DemandGrows(passes[..|passes| - 1], c, n);
    } else {
      assert passes[..n] == passes;
    }
  }

  lemma {:induction false} TotalGrows(passes: seq<Pass>, s: nat, n: nat)
    requires n <= |passes|
    ensures TotalTokens(passes[..n], s) <= TotalTokens(passes, s)
    decreases |passes|
  {
    if n < |passes| {
      assert passes[..|passes| - 1][..n] == passes[..n];
      TotalGrows(passes[..|passes| - 1], s, n);
    } else {
      assert passes[..n] == passes;
    }
  }

  lemma BlocksForGrows(c: Cache, s: nat, a: nat, b: nat)
    requires a <= b
    ensures BlocksFor(c, s, a) <= BlocksFor(c, s, b)
  {
    if c.blockSize > 0 {
      NeededMonotone(a, b, c.blockSize);
    }
  }

  /** The next pass finds room exactly when the blocks that it takes are free. */
  lemma TakenDecides(passes: seq<Pass>, pass: Pass, c0: Cache, c: Cache)
    requires Books(passes, c0, c) && Initialized(c) && HasAttention(pass.nodes)
    ensures ReserveStatus(c, pass.sequence, Entry(c, pass.sequence).length + pass.len).Success? <==>
            Taken(pass, c0, TotalTokens(passes, pass.sequence)) <= |c.free|
  {
    var s, n := pass.sequence, TotalTokens(passes, pass.sequence);
    assert BookOf(passes, c0, c, s);
    NeededMonotone(n, n + pass.len, c.blockSize);
  }

  /** The next pass succeeds exactly when its nodes can work and the demand up to it does not exceed the free blocks. */
  lemma NextFits(passes: seq<Pass>, n: nat, c0: Cache, c: Cache)
    requires n < |passes| && Books(passes[..n], c0, c) && Initialized(c) && passes[n].len > 0
    ensures PassFits(passes[n].nodes, c, passes[n].sequence, Entry(c, passes[n].sequence).length, passes[n].len) <==>
            PassWorks(passes[n], |c0.layers|) && Demand(passes[..n + 1], c0) <= |c0.free|
  {
    var pass := passes[n];
    var base := Entry(c, pass.sequence).length;
    DemandNext(passes, c0, n);
    if HasAttention(pass.nodes) {
      TakenDecides(passes[..n], pass, c0, c);
      WorkAndRoom(pass, c, base);
    } else {
      OnlyWork(pass, c, base);
    }
  }

  lemma WorkAndRoom(pass: Pass, c: Cache, base: nat)
    requires HasAttention(pass.nodes) && pass.len > 0
    ensures PassFits(pass.nodes, c, pass.sequence, base, pass.len) <==>
            PassWorks(pass, |c.layers|) && ReserveStatus(c, pass.sequence, base + pass.len).Success?
  {
    var i :| 0 <= i < |pass.nodes| && pass.nodes[i].Attention?;
    if PassFits(pass.nodes, c, pass.sequence, base, pass.len) {
      assert NodeFine(pass.nodes[i], c, pass.sequence, base, pass.len);
      forall j | 0 <= j < |pass.nodes| ensures CanWork(pass.nodes[j], |c.layers|) {
        assert NodeFine(pass.nodes[j], c, pass.sequence, base, pass.len);
      }
    }
    if PassWorks(pass, |c.layers|) && ReserveStatus(c, pass.sequence, base + pass.len).Success? {
      forall j | 0 <= j < |pass.nodes| ensures NodeFine(pass.nodes[j], c, pass.sequence, base, pass.len) {
        assert CanWork(pass.nodes[j], |c.layers|);
      }
    }
  }

  lemma OnlyWork(pass: Pass, c: Cache, base: nat)
    requires !HasAttention(pass.nodes)
    ensures PassFits(pass.nodes, c, pass.sequence, base, pass.len) <==> PassWorks(pass, |c.layers|)
  {
    forall j | 0 <= j < |pass.nodes|
      ensures NodeFine(pass.nodes[j], c, pass.sequence, base, pass.len) <==> CanWork(pass.nodes[j], |c.layers|)
    {
      assert !pass.nodes[j].Attention?;
    }
  }

  /** A successful pass is booked: the length and blocks of its sequence, and the blocks it took from the free ones. */
  lemma BooksNext(passes: seq<Pass>, n: nat, rs: seq<Report>, c0: Cache, c: Cache, c': Cache, rows: Rows, rows': Rows,
                  e: real -> real, p: Shape)
    requires n < |passes| && Books(passes[..n], c0, c)
    requires PassDone(passes[n].nodes, rs, -1, c, c', rows, rows', passes[n].sequence, passes[n].len, e, p)
    requires OthersSame(c, c', passes[n].sequence)
    ensures Books(passes[..n + 1], c0, c')
  {
    var s, more := passes[n].sequence, passes[..n + 1];
    DemandNext(passes, c0, n);
    OwnBook(passes, n, rs, c0, c, c', rows, rows', e, p);
    forall t: nat ensures BookOf(more, c0, c', t) {
      TotalNext(passes, t, n);
      assert BookOf(passes[..n], c0, c, t);
      if t != s {
        assert Entry(c', t) == Entry(c, t);
      }
    }
    assert BookOf(passes[..n], c0, c, s);
    BlocksForGrows(c0, s, TotalTokens(passes[..n], s), TotalTokens(passes[..n], s) + passes[n].len);
  }

  lemma OwnBook(passes: seq<Pass>, n: nat, rs: seq<Report>, c0: Cache, c: Cache, c': Cache, rows: Rows, rows': Rows,
                e: real -> real, p: Shape)
    requires n < |passes| && Books(passes[..n], c0, c) && OthersSame(c, c', passes[n].sequence)
    requires PassDone(passes[n].nodes, rs, -1, c, c', rows, rows', passes[n].sequence, passes[n].len, e, p)
    ensures BookOf(passes[..n + 1], c0, c', passes[n].sequence)
  {
    var s := passes[n].sequence;
    var before := TotalTokens(passes[..n], s);
    assert BookOf(passes[..n], c0, c, s);
    TotalNext(passes, s, n);
    if HasAttention(passes[n].nodes) {
      BlocksForTwice(c0, c, s, before, before + passes[n].len);
    }
  }

  /** With the blocks of every sequence reserved nothing more is demanded. */
  lemma {:induction false} ReservedNeedsNothing(passes: seq<Pass>, c: Cache, n: nat)
    requires n <= |passes| && Reserved(passes, c) && c.blockSize > 0
    ensures Demand(passes[..n], c) == 0
    decreases n
  {
    if n > 0 {
      var pass := passes[n - 1];
      var s := pass.sequence;
      ReservedNeedsNothing(passes, c, n - 1);
      DemandNext(passes, c, n - 1);
      TotalNext(passes, s, n - 1);
      TotalGrows(passes, s, n);
      CeilCovers(TotalTokens(passes, s), c.blockSize, |Entry(c, s).blocks|);
      NeededMonotone(TotalTokens(passes[..n], s), TotalTokens(passes, s), c.blockSize);
    }
  }

  /** Room reserved for everything is enough room. */
  lemma ReservedIsEnough(passes: seq<Pass>, c: Cache)
    requires Reserved(passes, c) && c.blockSize > 0
    ensures Demand(passes, c) <= |c.free|
  {
    ReservedNeedsNothing(passes, c, |passes|);
    assert passes[..|passes|] == passes;
  }

  /** The admission guarantee for passes: an active sequence of a guaranteed scheduler has the room for every pass that
      stays within its prompt and token limit. */
  lemma AdmittedPassFits(w: World, maxBatch: int, k: nat, nodes: seq<PassNode>, len: nat)
    requires Guaranteed(w, maxBatch) && Initialized(w.c) && k < |w.d.active|
    requires w.d.active[k] < |w.d.states| ==> Entry(w.c, w.d.active[k]).length + len <= Wanted(w.d, w.d.active[k])
    requires forall j :: 0 <= j < |nodes| ==> CanWork(nodes[j], |w.c.layers|)
    ensures PassFits(nodes, w.c, w.d.active[k], Entry(w.c, w.d.active[k]).length, len)
  {
    var s := w.d.active[k];
    assert RoomFor(w.c, s, Wanted(w.d, s));
    OwnedRoom(w.c, s, Entry(w.c, s).length + len);
    forall j | 0 <= j < |nodes| ensures NodeFine(nodes[j], w.c, s, Entry(w.c, s).length, len) {
      assert CanWork(nodes[j], |w.c.layers|);
    }
  }

  // ---------------------------------------------------------------- the run

  /** What every pass demands of the context. */
  ghost predicate Ready(ctx: PassContext, p: Shape)
    reads ctx, ctx.cache, ctx.contiguous
  {
    && ctx.Valid() && Initialized(ctx.cache.State()) && ctx.writePos == -1
    && GoodShape(p) && p.heads > 0 && p.kvHeads == ctx.cache.heads && p.n == ctx.cache.headDim
  }

  /** The contiguous cache of the context as a value. */
  function ContiguousOf(ctx: PassContext): Contiguous
    reads ctx, ctx.contiguous
  {
    if ctx.contiguous == null then Contiguous(false, 0, 0, ctx.advanceTokens)
    else Contiguous(true, ctx.contiguous.cachedLen, ctx.contiguous.maxLen, ctx.advanceTokens)
  }

  /** One pass over one sequence, from wherever that sequence ends. */
  method RunOne(ctx: PassContext, pass: Pass, e: real -> real, p: Shape, lowest: real)
    returns (st: Status, rs: seq<Report>)
    requires Ready(ctx, p) && IsExp(e) && PassGood(pass, p)
    modifies ctx`writePos, ctx`sequenceId, ctx.cache, ctx.contiguous
    ensures ctx.Valid() && (st.Success? ==> Ready(ctx, p))
    ensures var c, n := old(ctx.cache.State()), Entry(old(ctx.cache.State()), pass.sequence).length;
            && (st.Success? <==>
                  PassFits(pass.nodes, c, pass.sequence, n, pass.len) && CanAdvanceBy(old(ContiguousOf(ctx)), 1))
            && Confined(c, ctx.cache.State(), old(ctx.cache.rows), ctx.cache.rows, pass.sequence, n, pass.len)
            && (st.Success? ==> PassDone(pass.nodes, rs, -1, c, ctx.cache.State(), old(ctx.cache.rows), ctx.cache.rows,
                                         pass.sequence, pass.len, e, p))
    ensures st.Success? ==> AdvancedBy(old(ContiguousOf(ctx)), ContiguousOf(ctx), 1)
  {
    ctx.sequenceId := pass.sequence;
    st, rs := ctx.RunPass(pass.nodes, pass.len, e, p, lowest);
  }

  lemma AdvanceNext(x0: Contiguous, x: Contiguous, n: nat)
    requires AdvancedBy(x0, x, n)
    ensures CanAdvanceBy(x0, n) && CanAdvanceBy(x, 1) <==> CanAdvanceBy(x0, n + 1)
  {
    if x0.tokens > 0 {
      assert (n + 1) * x0.tokens == n * x0.tokens + x0.tokens;
      if n > 0 {
        Monotone(1, n, x0.tokens);
      }
    }
  }

  lemma AdvancedTwice(x0: Contiguous, x: Contiguous, x': Contiguous, n: nat)
    requires AdvancedBy(x0, x, n) && AdvancedBy(x, x', 1)
    ensures AdvancedBy(x0, x', n + 1)
  {
    assert (n + 1) * x0.tokens == n * x0.tokens + x0.tokens;
  }

  lemma AdvanceLess(x: Contiguous, n: nat, m: nat)
    requires n <= m && CanAdvanceBy(x, m)
    ensures CanAdvanceBy(x, n)
  {
    if x.tokens > 0 && n > 0 {
      Monotone(n, m, x.tokens);
    }
  }

  lemma FitsPrefix(passes: seq<Pass>, n: nat, c: Cache, x: Contiguous)
    requires n < |passes| && !AllFit(passes[..n + 1], c, x)
    ensures !AllFit(passes, c, x)
  {
    if AllFit(passes, c, x) {
      DemandGrows(passes, c, n + 1);
      AdvanceLess(x, n + 1, |passes|);
      var some := passes[..n + 1];
      forall i | 0 <= i < n + 1 ensures PassWorks(some[i], |c.layers|) {
        assert PassWorks(passes[i], |c.layers|);
      }
    }
  }

  /** Whether the next pass succeeds decides whether all passes up to it fit. */
  lemma FitsStep(passes: seq<Pass>, n: nat, c0: Cache, c: Cache, x0: Contiguous, x: Contiguous)
    requires n < |passes| && Books(passes[..n], c0, c) && Initialized(c) && passes[n].len > 0
    requires AdvancedBy(x0, x, n) && AllFit(passes[..n], c0, x0)
    ensures (PassFits(passes[n].nodes, c, passes[n].sequence, Entry(c, passes[n].sequence).length, passes[n].len)
             && CanAdvanceBy(x, 1)) <==>
            AllFit(passes[..n + 1], c0, x0)
  {
    NextFits(passes, n, c0, c);
    AdvanceNext(x0, x, n);
    WorkNext(passes, n, |c0.layers|);
  }

  lemma WorkNext(passes: seq<Pass>, n: nat, layers: nat)
    requires n < |passes|
    ensures AllWork(passes[..n + 1], layers) <==> AllWork(passes[..n], layers) && PassWorks(passes[n], layers)
  {
    assert passes[..n + 1] == passes[..n] + [passes[n]];
    if AllWork(passes[..n + 1], layers) {
      forall i | 0 <= i < n ensures PassWorks(passes[..n][i], layers) {
        assert PassWorks(passes[..n + 1][i], layers);
      }
      assert PassWorks(passes[..n + 1][n], layers);
    }
  }

  /** After the next pass its tokens have joined the history and the books. */
  lemma RunGoesOn(passes: seq<Pass>, reports: seq<seq<Report>>, rs: seq<Report>, c0: Cache, c: Cache, c': Cache,
                  rows: Rows, rows': Rows, x0: Contiguous, x: Contiguous, x': Contiguous, e: real -> real, p: Shape)
    requires SoFar(passes, reports, c0, c, rows, x0, x, e, p) && |reports| < |passes| && PassGood(passes[|reports|], p)
    requires var pass := passes[|reports|];
             && PassDone(pass.nodes, rs, -1, c, c', rows, rows', pass.sequence, pass.len, e, p)
             && Confined(c, c', rows, rows', pass.sequence, Entry(c, pass.sequence).length, pass.len)
    requires AdvancedBy(x, x', 1) && AllFit(passes[..|reports| + 1], c0, x0)
    ensures SoFar(passes, reports + [rs], c0, c', rows', x0, x', e, p)
  {
    var n := |reports|;
    BooksNext(passes, n, rs, c0, c, c', rows, rows', e, p);
    AdvancedTwice(x0, x, x', n);
    HistoriesNext(passes[..n], reports, passes[n], rs, c, c', rows, rows', e, p);
    assert passes[..n + 1] == passes[..n] + [passes[n]];
  }

  /** When the next pass fails, the run does not fit and the histories are kept. */
  lemma RunStops(passes: seq<Pass>, reports: seq<seq<Report>>, c0: Cache, c: Cache, c': Cache, rows: Rows, rows': Rows,
                 x0: Contiguous, x: Contiguous, e: real -> real, p: Shape)
    requires SoFar(passes, reports, c0, c, rows, x0, x, e, p) && |reports| < |passes|
    requires var pass := passes[|reports|];
             Confined(c, c', rows, rows', pass.sequence, Entry(c, pass.sequence).length, pass.len)
    requires !AllFit(passes[..|reports| + 1], c0, x0)
    ensures !AllFit(passes, c0, x0)
    ensures HistoriesKept(passes[..|reports|], reports, passes[|reports|], c', rows', e, p)
  {
    var n := |reports|;
    FitsPrefix(passes, n, c0, x0);
    HistoriesAfterFailure(passes[..n], reports, passes[n], c, c', rows, rows', e, p);
  }

  /** The next pass of a run. */
  method RunNext(ctx: PassContext, passes: seq<Pass>, reports: seq<seq<Report>>, ghost c0: Cache, ghost x0: Contiguous,
                 e: real -> real, p: Shape, lowest: real)
    returns (st: Status, reports': seq<seq<Report>>)
    requires Ready(ctx, p) && IsExp(e) && |reports| < |passes| && PassGood(passes[|reports|], p)
    requires SoFar(passes, reports, c0, ctx.cache.State(), ctx.cache.rows, x0, ContiguousOf(ctx), e, p)
    modifies ctx`writePos, ctx`sequenceId, ctx.cache, ctx.contiguous
    ensures ctx.Valid()
    ensures st.Success? ==>
              && Ready(ctx, p) && |reports'| == |reports| + 1
              && SoFar(passes, reports', c0, ctx.cache.State(), ctx.cache.rows, x0, ContiguousOf(ctx), e, p)
    ensures st.Failure? ==>
              && reports' == reports && !AllFit(passes, c0, x0)
              && HistoriesKept(passes[..|reports|], reports, passes[|reports|], ctx.cache.State(), ctx.cache.rows, e, p)
  {
    ghost var c, rows, x := ctx.cache.State(), ctx.cache.rows, ContiguousOf(ctx);
    FitsStep(passes, |reports|, c0, c, x0, x);
    var rs;
    st, rs := RunOne(ctx, passes[|reports|], e, p, lowest);
    if st.Failure? {
      RunStops(passes, reports, c0, c, ctx.cache.State(), rows, ctx.cache.rows, x0, x, e, p);
      return st, reports;
    }
    RunGoesOn(passes, reports, rs, c0, c, ctx.cache.State(), rows, ctx.cache.rows, x0, x, ContiguousOf(ctx), e, p);
    reports' := reports + [rs];
  }

  /** Main result on the paged cache: any number of passes over any sequences, from empty sequences on. Exactly when
      their nodes can work, the free blocks cover what they take, and the contiguous cache has room, all succeed; then
      every layer of every sequence holds the tokens of that sequence's passes, one after the other, and every output is
      attention over exactly the tokens of its own sequence up to itself. Otherwise the run stops at the first pass that
      fails, and the histories of the passes before it are kept. */
  method RunPasses(ctx: PassContext, passes: seq<Pass>, e: real -> real, p: Shape, lowest: real)
    returns (st: Status, reports: seq<seq<Report>>)
    requires Ready(ctx, p) && IsExp(e) && AllGood(passes, p)
    requires forall s: nat :: Entry(ctx.cache.State(), s).length == 0
    modifies ctx`writePos, ctx`sequenceId, ctx.cache, ctx.contiguous
    ensures ctx.Valid()
    ensures st.Success? <==> AllFit(passes, old(ctx.cache.State()), old(ContiguousOf(ctx)))
    ensures st.Success? ==> HistoriesHeld(passes, reports, ctx.cache.State(), ctx.cache.rows, e, p)
    ensures st.Failure? ==>
              && |reports| < |passes|
              && HistoriesKept(passes[..|reports|], reports, passes[|reports|], ctx.cache.State(), ctx.cache.rows, e, p)
  {
    reports := [];
    ghost var c0, x0 := ctx.cache.State(), ContiguousOf(ctx);
    HistoriesStart(c0, ctx.cache.rows, e, p);
    BooksStart(c0);
    for i := 0 to |passes|
      invariant Ready(ctx, p) && |reports| == i
      invariant SoFar(passes, reports, c0, ctx.cache.State(), ctx.cache.rows, x0, ContiguousOf(ctx), e, p)
    {
      st, reports := RunNext(ctx, passes, reports, c0, x0, e, p, lowest);
      if st.Failure? {
        return;
      }
    }
    assert passes[..|passes|] == passes;
    st := Success;
  }

  /** With the room reserved and nothing to advance, passes whose nodes can work all fit. */
  lemma ReservedFits(passes: seq<Pass>, c: Cache, x: Contiguous)
    requires Reserved(passes, c) && c.blockSize > 0 && AllWork(passes, |c.layers|) && x.tokens <= 0
    ensures AllFit(passes, c, x)
  {
    ReservedIsEnough(passes, c);
  }

  /** Paged decoding over any number of alternating passes equals recomputation: each output is the row that one causal
      pass over its sequence's whole history computes. */
  lemma PassesEqualRecomputed(passes: seq<Pass>, reports: seq<seq<Report>>, c: Cache, rows: Rows, e: real -> real,
                              p: Shape, i: nat, t: nat, l: nat, full: seq<Row>)
    requires HistoriesHeld(passes, reports, c, rows, e, p) && p.n > 0
    requires i < |passes| && t < passes[i].len && AllCover(passes, passes[i].sequence, l)
    requires var h := History(passes, passes[i].sequence, l); ChunkAttends(full, e, h.q, h.k, h.v, true, p)
    ensures LayerNode(passes[i].nodes, l) < |reports[i]| && t < |reports[i][LayerNode(passes[i].nodes, l)].output|
    ensures var at := |History(passes[..i], passes[i].sequence, l).q| + t;
            at < |full| && reports[i][LayerNode(passes[i].nodes, l)].output[t] == full[at]
  {
    var s := passes[i].sequence;
    var h := History(passes, s, l);
    assert HistoryHeld(passes, reports, c, rows, s, l, e, p);
    assert OutputRight(passes, reports, i, t, l, e, p);
    PagedEqualsRecomputed(reports[i][LayerNode(passes[i].nodes, l)].output[t], e, full, h.q, h.k, h.v,
                          |History(passes[..i], s, l).q| + t, p);
  }
}
