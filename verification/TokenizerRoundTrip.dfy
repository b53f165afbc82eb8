/** Decoding undoes encoding. */
module TokenizerRoundTrip {
  import opened Bytes
  import opened Sequences
  import opened Wrappers
  import opened BpeSpec
  import opened Bpe
  import opened ByteTables
  import opened Utf8
  import opened TokenizerSpec
  import opened Tokenizers

  lemma {:induction false} TextOfAppend(v: Vocabulary, toByte: seq<Byte>, a: seq<int>, b: seq<int>)
    requires |toByte| == 0x1_0000 && Decodable(v) && AllValid(v, a) && AllValid(v, b)
    ensures AllValid(v, a + b) && TextOf(v, toByte, a + b) == TextOf(v, toByte, a) + TextOf(v, toByte, b)
  {
    if b == [] {
      assert a + b == a;
    } else {
      var n := |b| - 1;
      assert (a + b)[..|a + b| - 1] == a + b[..n];
      TextOfAppend(v, toByte, a, b[..n]);
      Associative(TextOf(v, toByte, a), TextOf(v, toByte, b[..n]), TokenText(toByte, v.tokens[b[n]]));
    }
  }

  lemma TextOfOne(v: Vocabulary, toByte: seq<Byte>, id: int)
    requires |toByte| == 0x1_0000 && Decodable(v) && ValidId(v, id)
    ensures TextOf(v, toByte, [id]) == TokenText(toByte, v.tokens[id])
  {
    assert [id][..0] == [];
  }

  /** Decoding plain ids yields their texts, followed by what the other ids decode to. */
  lemma {:induction false} DecodedPlain(v: Vocabulary, toByte: seq<Byte>, ids: seq<int>, rest: seq<int>)
    requires |toByte| == 0x1_0000 && Decodable(v) && Plain(v, ids)
    ensures Decoded(v, toByte, ids + rest) == Prepend(TextOf(v, toByte, ids), Decoded(v, toByte, rest))
  {
    if ids == [] {
      assert ids + rest == rest;
      assert forall t: Text :: [] + t == t;
    } else {
      var n := |ids| - 1;
      assert ids + rest == ids[..n] + ([ids[n]] + rest);
      DecodedPlain(v, toByte, ids[..n], [ids[n]] + rest);
      assert ([ids[n]] + rest)[1..] == rest;
      if Decoded(v, toByte, rest).Ok? {
        Associative(TextOf(v, toByte, ids[..n]), TokenText(toByte, v.tokens[ids[n]]), Decoded(v, toByte, rest).value);
      }
    }
  }

  // ---------------------------------------------------------------- symbols as mapped byte strings

  /** Merging mapped symbols merges the byte strings behind them, and the result is in the vocabulary again. */
  lemma MergeMapped(v: Vocabulary, list: seq<Text>, raws: seq<Text>, k: nat)
    requires Complete(v) && Maps(list, raws) && Known(v, list) && IsBest(v.ranks, list, k)
    ensures k + 1 < |raws| && Maps(MergeAt(list, k), MergeAt(raws, k)) && Known(v, MergeAt(list, k))
  {
    MapTextAppend(raws[k], raws[k + 1]);
    assert (list[k], list[k + 1]) in v.ranks;
    var merged := list[k] + list[k + 1];
    assert (list[k], list[k + 1]).0 + (list[k], list[k + 1]).1 in v.ids;
    forall m | 0 <= m < |MergeAt(list, k)|
      ensures MergeAt(list, k)[m] == MapText(MergeAt(raws, k)[m]) && MergeAt(list, k)[m] in v.ids
    {
    }
  }

  ghost predicate NoneEmpty(list: seq<Text>) {
    forall k :: 0 <= k < |list| ==> list[k] != []
  }

  lemma MergeNoneEmpty(list: seq<Text>, k: nat)
    requires NoneEmpty(list) && k + 1 < |list|
    ensures NoneEmpty(MergeAt(list, k))
  {
    var merged := MergeAt(list, k);
    forall m | 0 <= m < |merged| ensures merged[m] != [] {
      if m > k {
        assert merged[m] == list[m + 1];
      }
    }
  }

  lemma {:induction false} CanonicalMapped(v: Vocabulary, list: seq<Text>, raws: seq<Text>) returns (raws': seq<Text>)
    requires Complete(v) && Maps(list, raws) && Known(v, list) && NoneEmpty(raws)
    ensures Maps(Canonical(v.ranks, list), raws') && Known(v, Canonical(v.ranks, list))
    ensures Concat(raws') == Concat(raws) && NoneEmpty(raws')
    decreases |list|
  {
    if k: nat :| IsBest(v.ranks, list, k) {
      MergeMapped(v, list, raws, k);
      CanonicalStep(v.ranks, list, k);
      MergeAtText(raws, k);
      MergeNoneEmpty(raws, k);
      raws' := CanonicalMapped(v, MergeAt(list, k), MergeAt(raws, k));
    } else {
      raws' := raws;
    }
  }

  function Singles(raw: Text): (r: seq<Text>)
    ensures |r| == |raw| && forall k :: 0 <= k < |raw| ==> r[k] == [raw[k]]
  {
    seq(|raw|, k requires 0 <= k < |raw| => [raw[k]])
  }

  lemma {:induction false} SinglesText(raw: Text)
    ensures Concat(Singles(raw)) == raw
  {
    if raw != [] {
      var n := |raw| - 1;
      assert Singles(raw)[..n] == Singles(raw[..n]);
      SinglesText(raw[..n]);
      assert raw == raw[..n] + [raw[n]];
    }
  }

  lemma BytesMapSingles(v: Vocabulary, raw: Text)
    requires Complete(v)
    ensures Maps(MapBytes(raw), Singles(raw)) && Known(v, MapBytes(raw))
  {
    MapBytesLength(raw);
    forall k: nat | k < |raw| ensures MapBytes(raw)[k] == MapText(Singles(raw)[k]) && MapBytes(raw)[k] in v.ids {
      MapBytesAt(raw, k);
      MapTextOfOne(raw[k]);
    }
  }

  lemma MapTextOfOne(b: Byte)
    ensures MapText([b]) == MapByte(b)
  {
    assert [b][..0] == [];
  }

  lemma {:induction false} MapBytesLength(raw: Text)
    ensures |MapBytes(raw)| == |raw|
  {
    if raw != [] {
      MapBytesLength(raw[1..]);
    }
  }

  lemma {:induction false} MapBytesAt(raw: Text, k: nat)
    requires k < |raw|
    ensures |MapBytes(raw)| == |raw| && MapBytes(raw)[k] == MapByte(raw[k])
  {
    MapBytesLength(raw);
    if k > 0 {
      MapBytesAt(raw[1..], k - 1);
    }
  }

  // ---------------------------------------------------------------- ids and their texts

  /** A token that is a mapped byte string decodes to that string. */
  lemma TokenOfMapped(v: Vocabulary, toByte: seq<Byte>, raw: Text)
    requires RoundTripVocabulary(v) && InverseTable(toByte) && MapText(raw) in v.ids && 0xFF !in raw
    ensures ValidId(v, v.ids[MapText(raw)]) && TokenText(toByte, v.tokens[v.ids[MapText(raw)]]) == raw
  {
    MapRoundTrip(toByte, raw);
    assert v.tokens[v.ids[MapText(raw)]] == MapText(raw);
  }

  lemma ValidParts(v: Vocabulary, a: seq<int>, b: seq<int>)
    requires AllValid(v, a + b)
    ensures AllValid(v, a) && AllValid(v, b)
  {
    forall k | 0 <= k < |a| ensures ValidId(v, a[k]) {
      assert (a + b)[k] == a[k];
    }
    forall k | 0 <= k < |b| ensures ValidId(v, b[k]) {
      assert (a + b)[|a| + k] == b[k];
    }
  }

  lemma {:induction false} LookupText(v: Vocabulary, toByte: seq<Byte>, list: seq<Text>, raws: seq<Text>)
    requires RoundTripVocabulary(v) && InverseTable(toByte)
    requires Maps(list, raws) && Known(v, list) && 0xFF !in Concat(raws) && AllValid(v, Lookup(v.ids, list))
    ensures TextOf(v, toByte, Lookup(v.ids, list)) == Concat(raws)
  {
    if list != [] {
      var n := |list| - 1;
      var id := v.ids[list[n]];
      ValidParts(v, Lookup(v.ids, list[..n]), [id]);
      LookupText(v, toByte, list[..n], raws[..n]);
      TokenOfMapped(v, toByte, raws[n]);
      TextOfOne(v, toByte, id);
      TextOfAppend(v, toByte, Lookup(v.ids, list[..n]), [id]);
    }
  }

  /** The canonical symbols of a piece are mapped parts of it. */
  lemma PieceSymbols(v: Vocabulary, piece: Text) returns (raws: seq<Text>)
    requires Complete(v)
    ensures WellSplit(MapText(piece))
    ensures var list := Canonical(v.ranks, SplitChars(MapText(piece)));
            && PieceIds(v, piece) == Lookup(v.ids, list) && Maps(list, raws) && Known(v, list)
            && NoneEmpty(raws) && Concat(raws) == piece
  {
    SplitMapped(piece);
    BytesMapSingles(v, piece);
    raws := CanonicalMapped(v, MapBytes(piece), Singles(piece));
    SinglesText(piece);
  }

  lemma PieceText(v: Vocabulary, toByte: seq<Byte>, piece: Text)
    requires RoundTripVocabulary(v) && InverseTable(toByte) && 0xFF !in piece && AllValid(v, PieceIds(v, piece))
    ensures TextOf(v, toByte, PieceIds(v, piece)) == piece
  {
    var raws := PieceSymbols(v, piece);
    LookupText(v, toByte, Canonical(v.ranks, SplitChars(MapText(piece))), raws);
  }

  lemma {:induction false} RunText(v: Vocabulary, toByte: seq<Byte>, pieces: seq<Text>)
    requires RoundTripVocabulary(v) && InverseTable(toByte) && 0xFF !in Concat(pieces) && AllValid(v, RunIds(v, pieces))
    ensures TextOf(v, toByte, RunIds(v, pieces)) == Concat(pieces)
  {
    if pieces != [] {
      var n := |pieces| - 1;
      ValidParts(v, RunIds(v, pieces[..n]), PieceIds(v, pieces[n]));
      RunText(v, toByte, pieces[..n]);
      PieceText(v, toByte, pieces[n]);
      TextOfAppend(v, toByte, RunIds(v, pieces[..n]), PieceIds(v, pieces[n]));
    }
  }

  // ---------------------------------------------------------------- added tokens

  lemma {:induction false} AsciiMapsToItself(t: Text)
    requires PrintableAscii(t)
    ensures MapText(t) == t && 0xFF !in t
  {
    if t != [] {
      AsciiMapsToItself(t[..|t| - 1]);
      assert t == t[..|t| - 1] + [t[|t| - 1]];
    }
  }

  lemma AddedText(v: Vocabulary, toByte: seq<Byte>, index: nat)
    requires RoundTripVocabulary(v) && InverseTable(toByte) && index < |v.added| && AllValid(v, [v.added[index].1])
    ensures TextOf(v, toByte, [v.added[index].1]) == v.added[index].0
  {
    var t := v.added[index].0;
    AsciiMapsToItself(t);
    MapRoundTrip(toByte, t);
    TextOfOne(v, toByte, v.added[index].1);
  }

  lemma AddedAreScannable(v: Vocabulary)
    requires AddedGood(v)
    ensures AddedScannable(v)
  {
    forall i | 0 <= i < |v.added| ensures v.added[i].0 != [] && Scannable(v.added[i].0) {
      AsciiScans(v.added[i].0);
    }
  }

  // ---------------------------------------------------------------- the whole text

  lemma RestText(v: Vocabulary, toByte: seq<Byte>, text: Text, r: Round)
    requires RoundTripVocabulary(v) && InverseTable(toByte) && 0xFF !in text
    requires RoundGood(v, text, r) && r.token == None && AllValid(v, RoundIds(v, r))
    ensures TextOf(v, toByte, RoundIds(v, r)) == text[r.pos..]
  {
    assert RoundIds(v, r) == RunIds(v, r.run);
    RunText(v, toByte, r.run);
  }

  lemma JoinText(text: Text, a: nat, b: nat, c: nat)
    requires a <= b <= c <= |text|
    ensures text[a..b] + text[b..c] == text[a..c]
  {
  }

  lemma RunAddedText(v: Vocabulary, toByte: seq<Byte>, run: seq<Text>, index: nat)
    requires RoundTripVocabulary(v) && InverseTable(toByte) && 0xFF !in Concat(run) && index < |v.added|
    requires AllValid(v, RunIds(v, run) + [v.added[index].1])
    ensures TextOf(v, toByte, RunIds(v, run) + [v.added[index].1]) == Concat(run) + v.added[index].0
  {
    var id := v.added[index].1;
    ValidParts(v, RunIds(v, run), [id]);
    RunText(v, toByte, run);
    AddedText(v, toByte, index);
    TextOfAppend(v, toByte, RunIds(v, run), [id]);
  }

  lemma TokenRoundText(v: Vocabulary, toByte: seq<Byte>, text: Text, r: Round)
    requires RoundTripVocabulary(v) && InverseTable(toByte) && 0xFF !in text
    requires RoundGood(v, text, r) && r.token.Some? && AllValid(v, RoundIds(v, r))
    ensures r.pos <= r.next <= |text| && TextOf(v, toByte, RoundIds(v, r)) == text[r.pos..r.next]
  {
    var at := RoundParts(v, text, r);
    RunAddedText(v, toByte, r.run, r.token.value);
    JoinText(text, r.pos, at, r.next);
  }

  lemma RoundParts(v: Vocabulary, text: Text, r: Round) returns (at: nat)
    requires RoundGood(v, text, r) && r.token.Some? && 0xFF !in text
    ensures r.pos <= at <= r.next <= |text| && r.token.value < |v.added|
    ensures Concat(r.run) == text[r.pos..at] && v.added[r.token.value].0 == text[at..r.next] && 0xFF !in Concat(r.run)
    ensures RoundIds(v, r) == RunIds(v, r.run) + [v.added[r.token.value].1]
  {
    at := r.pos + |Concat(r.run)|;
    assert 0xFF !in text[r.pos..at];
  }

  lemma RoundText(v: Vocabulary, toByte: seq<Byte>, text: Text, r: Round)
    requires RoundTripVocabulary(v) && InverseTable(toByte) && 0xFF !in text
    requires RoundGood(v, text, r) && AllValid(v, RoundIds(v, r))
    ensures r.pos <= r.next <= |text| && TextOf(v, toByte, RoundIds(v, r)) == text[r.pos..r.next]
  {
    if r.token == None {
      RestRoundText(v, toByte, text, r);
    } else {
      TokenRoundText(v, toByte, text, r);
    }
  }

  lemma RestRoundText(v: Vocabulary, toByte: seq<Byte>, text: Text, r: Round)
    requires RoundTripVocabulary(v) && InverseTable(toByte) && 0xFF !in text
    requires RoundGood(v, text, r) && r.token == None && AllValid(v, RoundIds(v, r))
    ensures r.pos <= r.next <= |text| && TextOf(v, toByte, RoundIds(v, r)) == text[r.pos..r.next]
  {
    RestText(v, toByte, text, r);
    assert text[r.pos..] == text[r.pos..r.next];
  }

  lemma RoundsPrefix(v: Vocabulary, text: Text, rounds: seq<Round>, end: nat)
    requires Rounds(v, text, rounds, end) && rounds != []
    ensures Rounds(v, text, rounds[..|rounds| - 1], rounds[|rounds| - 1].pos)
    ensures RoundGood(v, text, rounds[|rounds| - 1]) && rounds[|rounds| - 1].next == end
  {
    ContiguousPrefix(rounds, end);
  }

  lemma ContiguousPrefix(rounds: seq<Round>, end: nat)
    requires Contiguous(rounds, end) && rounds != []
    ensures Contiguous(rounds[..|rounds| - 1], rounds[|rounds| - 1].pos) && rounds[|rounds| - 1].next == end
  {
    var n := |rounds| - 1;
    forall k: nat | k <= n ensures EndBefore(rounds[..n], k) == EndBefore(rounds, k) {
    }
  }

  lemma {:induction false} RoundsText(v: Vocabulary, toByte: seq<Byte>, text: Text, rounds: seq<Round>, end: nat)
    requires RoundTripVocabulary(v) && InverseTable(toByte) && 0xFF !in text
    requires Rounds(v, text, rounds, end) && AllValid(v, AllIds(v, rounds))
    ensures end <= |text| && TextOf(v, toByte, AllIds(v, rounds)) == text[..end]
  {
    if rounds != [] {
      var n := |rounds| - 1;
      var r := rounds[n];
      RoundsPrefix(v, text, rounds, end);
      ValidParts(v, AllIds(v, rounds[..n]), RoundIds(v, r));
      RoundsText(v, toByte, text, rounds[..n], r.pos);
      RoundText(v, toByte, text, r);
      TextOfAppend(v, toByte, AllIds(v, rounds[..n]), RoundIds(v, r));
      JoinText(text, 0, r.pos, r.next);
    }
  }

  // ---------------------------------------------------------------- which ids are produced

  /** A part of a part is a part of the whole. */
  lemma SliceOfParts(v: Vocabulary, id: int, a: Text, b: Text)
    ensures FromSlice(v, id, a) ==> FromSlice(v, id, a + b)
    ensures FromSlice(v, id, b) ==> FromSlice(v, id, a + b)
  {
    if FromSlice(v, id, a) {
      var i: nat, j: nat :| IsSlice(v.tokens[id], a, i, j);
      assert (a + b)[i..j] == a[i..j];
      assert IsSlice(v.tokens[id], a + b, i, j);
    }
    if FromSlice(v, id, b) {
      var i: nat, j: nat :| IsSlice(v.tokens[id], b, i, j);
      assert (a + b)[|a| + i..|a| + j] == b[i..j];
      assert IsSlice(v.tokens[id], a + b, |a| + i, |a| + j);
    }
  }

  lemma SlicesJoin(v: Vocabulary, xs: seq<int>, ys: seq<int>, a: Text, b: Text)
    requires AllFromSlices(v, xs, a) && AllFromSlices(v, ys, b)
    ensures AllFromSlices(v, xs + ys, a + b)
  {
    forall k | 0 <= k < |xs + ys| ensures FromSlice(v, (xs + ys)[k], a + b) {
      SliceOfParts(v, (xs + ys)[k], a, b);
    }
  }

  lemma {:induction false} LookupSlices(v: Vocabulary, list: seq<Text>, raws: seq<Text>)
    requires Complete(v) && Maps(list, raws) && Known(v, list) && NoneEmpty(raws)
    ensures AllFromSlices(v, Lookup(v.ids, list), Concat(raws))
  {
    if list != [] {
      var n := |list| - 1;
      LookupSlices(v, list[..n], raws[..n]);
      assert raws[n][0..|raws[n]|] == raws[n];
      assert IsSlice(v.tokens[v.ids[list[n]]], raws[n], 0, |raws[n]|);
      SlicesJoin(v, Lookup(v.ids, list[..n]), [v.ids[list[n]]], Concat(raws[..n]), raws[n]);
    }
  }

  lemma {:induction false} RunSlices(v: Vocabulary, pieces: seq<Text>)
    requires Complete(v)
    ensures AllFromSlices(v, RunIds(v, pieces), Concat(pieces))
  {
    if pieces != [] {
      var n := |pieces| - 1;
      RunSlices(v, pieces[..n]);
      var raws := PieceSymbols(v, pieces[n]);
      LookupSlices(v, Canonical(v.ranks, SplitChars(MapText(pieces[n]))), raws);
      SlicesJoin(v, RunIds(v, pieces[..n]), PieceIds(v, pieces[n]), Concat(pieces[..n]), pieces[n]);
    }
  }

  lemma AddedSlice(v: Vocabulary, index: nat)
    requires AddedGood(v) && index < |v.added|
    ensures AllFromSlices(v, [v.added[index].1], v.added[index].0)
  {
    var t := v.added[index].0;
    AsciiMapsToItself(t);
    assert t[0..|t|] == t;
    assert IsSlice(v.tokens[v.added[index].1], t, 0, |t|);
  }

  lemma RoundSlices(v: Vocabulary, text: Text, r: Round)
    requires Complete(v) && AddedGood(v) && RoundGood(v, text, r) && 0xFF !in text
    ensures r.pos <= r.next <= |text| && AllFromSlices(v, RoundIds(v, r), text[r.pos..r.next])
  {
    RunSlices(v, r.run);
    if r.token == None {
      assert text[r.pos..] == text[r.pos..r.next];
    } else {
      var at := RoundParts(v, text, r);
      AddedSlice(v, r.token.value);
      SlicesJoin(v, RunIds(v, r.run), [v.added[r.token.value].1], Concat(r.run), v.added[r.token.value].0);
      JoinText(text, r.pos, at, r.next);
    }
  }

  /** Every id that encoding produces names a token that is the mapped form of a non-empty part of the text. */
  lemma {:induction false} AllSlices(v: Vocabulary, text: Text, rounds: seq<Round>, end: nat)
    requires Complete(v) && AddedGood(v) && Rounds(v, text, rounds, end) && 0xFF !in text
    ensures end <= |text| && AllFromSlices(v, AllIds(v, rounds), text[..end])
  {
    if rounds != [] {
      var n := |rounds| - 1;
      RoundsPrefix(v, text, rounds, end);
      AllSlices(v, text, rounds[..n], rounds[n].pos);
      RoundSlices(v, text, rounds[n]);
      SlicesJoin(v, AllIds(v, rounds[..n]), RoundIds(v, rounds[n]), text[..rounds[n].pos], text[rounds[n].pos..end]);
      JoinText(text, 0, rounds[n].pos, end);
    }
  }

  /** A token that is the mapped form of a part of the text stands for that part. */
  lemma SliceHasText(v: Vocabulary, toByte: seq<Byte>, id: int, text: Text)
    requires NoByteTokens(v) && Decodable(v) && InverseTable(toByte) && FromSlice(v, id, text) && 0xFF !in text
    ensures TokenText(toByte, v.tokens[id]) != []
  {
    var i: nat, j: nat :| IsSlice(v.tokens[id], text, i, j);
    MapRoundTrip(toByte, text[i..j]);
  }

  // ---------------------------------------------------------------- the round trip

  /** Plain ids decode to their texts, whatever end id stands behind them. */
  lemma EndsThere(v: Vocabulary, toByte: seq<Byte>, ids: seq<int>, tail: seq<int>)
    requires |toByte| == 0x1_0000 && Decodable(v) && Plain(v, ids) && (tail == [] || tail[0] == v.eos)
    ensures Decoded(v, toByte, ids + tail) ==
            if tail != [] && !ValidId(v, v.eos) then Err(NotFound) else Ok(TextOf(v, toByte, ids))
  {
    DecodedPlain(v, toByte, ids, tail);
    assert TextOf(v, toByte, ids) + [] == TextOf(v, toByte, ids);
  }

  /** The tail that is asked for. */
  function Tail(v: Vocabulary, addEos: bool): seq<int> {
    if addEos && v.eos >= 0 then [v.eos] else []
  }

  /** Decoding stops at an end id among the ids and so loses at least the text of that id. */
  lemma EndCutsOff(v: Vocabulary, toByte: seq<Byte>, ids: seq<int>, tail: seq<int>)
    requires |toByte| == 0x1_0000 && Decodable(v) && AllValid(v, ids) && v.eos in ids
    requires TokenText(toByte, v.tokens[v.eos]) != []
    ensures Decoded(v, toByte, ids + tail) != Ok(TextOf(v, toByte, ids))
  {
    var k := FirstEnd(v, ids);
    var front, rest := ids[..k], ids[k + 1..];
    SplitAt(ids, tail, k);
    EndsThere(v, toByte, front, [v.eos] + rest + tail);
    EndTextShows(v, toByte, front, rest);
  }

  lemma SplitAt(ids: seq<int>, tail: seq<int>, k: nat)
    requires k < |ids|
    ensures ids == ids[..k] + ([ids[k]] + ids[k + 1..])
    ensures ids + tail == ids[..k] + ([ids[k]] + ids[k + 1..] + tail)
  {
  }

  /** The end id's own text makes the whole text longer than what stands before it. */
  lemma EndTextShows(v: Vocabulary, toByte: seq<Byte>, front: seq<int>, rest: seq<int>)
    requires |toByte| == 0x1_0000 && Decodable(v) && ValidId(v, v.eos) && AllValid(v, front) && AllValid(v, rest)
    requires TokenText(toByte, v.tokens[v.eos]) != []
    ensures AllValid(v, front + ([v.eos] + rest))
    ensures |TextOf(v, toByte, front + ([v.eos] + rest))| > |TextOf(v, toByte, front)|
  {
    TextOfAppend(v, toByte, [v.eos], rest);
    TextOfOne(v, toByte, v.eos);
    TextOfAppend(v, toByte, front, [v.eos] + rest);
  }

  lemma FirstEnd(v: Vocabulary, ids: seq<int>) returns (k: nat)
    requires AllValid(v, ids) && v.eos in ids
    ensures k < |ids| && ids[k] == v.eos && Plain(v, ids[..k])
  {
    k := 0;
    while ids[k] != v.eos
      invariant k < |ids| && v.eos !in ids[..k]
      decreases |ids| - k
    {
      k := k + 1;
    }
  }

  /** The texts of all produced ids make up the text. */
  lemma ProducedText(v: Vocabulary, toByte: seq<Byte>, text: Text, rounds: seq<Round>)
    requires RoundTripVocabulary(v) && InverseTable(toByte) && Scannable(text) && Rounds(v, text, rounds, |text|)
    ensures AllFromSlices(v, AllIds(v, rounds), text) && AllValid(v, AllIds(v, rounds)) && 0xFF !in text
    ensures TextOf(v, toByte, AllIds(v, rounds)) == text
  {
    ScannableHasNoFF(text);
    assert text[..|text|] == text;
    AllSlices(v, text, rounds, |text|);
    RoundsText(v, toByte, text, rounds, |text|);
  }

  /** Main result on the tokenizer: the ids of a scannable text, with or without an end id behind them, decode to that
      text if and only if encoding produced no end id and an end id behind them is known. */
  lemma RoundTrip(v: Vocabulary, toByte: seq<Byte>, text: Text, rounds: seq<Round>, addEos: bool)
    requires RoundTripVocabulary(v) && InverseTable(toByte) && Scannable(text) && Rounds(v, text, rounds, |text|)
    ensures Decoded(v, toByte, AllIds(v, rounds) + Tail(v, addEos)) == Ok(text) <==>
            v.eos !in AllIds(v, rounds) && (addEos ==> v.eos < |v.tokens|)
  {
    ProducedText(v, toByte, text, rounds);
    if v.eos in AllIds(v, rounds) {
      SliceHasText(v, toByte, v.eos, text);
      EndCutsOff(v, toByte, AllIds(v, rounds), Tail(v, addEos));
    } else {
      EndsThere(v, toByte, AllIds(v, rounds), Tail(v, addEos));
    }
  }

  /** A condition on text and vocabulary alone: no part of the text is what the end token stands for. */
  lemma NoEndProduced(v: Vocabulary, text: Text, rounds: seq<Round>)
    requires Complete(v) && AddedGood(v) && Scannable(text) && Rounds(v, text, rounds, |text|) && EndAbsent(v, text)
    ensures v.eos !in AllIds(v, rounds)
  {
    ScannableHasNoFF(text);
    AllSlices(v, text, rounds, |text|);
    assert text[..|text|] == text;
  }

  lemma EncodedIds(v: Vocabulary, text: Text, ids: seq<int>, rounds: seq<Round>, addEos: bool)
    requires EncodedBy(v, text, false, addEos, ids, rounds)
    ensures Rounds(v, text, rounds, |text|) && ids == AllIds(v, rounds) + Tail(v, addEos)
  {
    assert [] + AllIds(v, rounds) == AllIds(v, rounds);
  }

  /** The end id occurs in the ids at most where it was asked for. */
  predicate EndsOnlyThere(v: Vocabulary, ids: seq<int>, addEos: bool) {
    v.eos !in if addEos && v.eos >= 0 && ids != [] then ids[..|ids| - 1] else ids
  }

  /** Encoding a text and decoding the ids returns the text exactly when encoding produced no end id by itself, for
      which it is enough that no part of the text is what the end token stands for. */
  method EncodeThenDecode(v: Vocabulary, text: Text, addEos: bool)
    returns (ids: seq<int>, back: Result<Text, ErrorCode>)
    requires RoundTripVocabulary(v) && Scannable(text)
    ensures back == Ok(text) <==> EndsOnlyThere(v, ids, addEos) && (addEos ==> v.eos < |v.tokens|)
    ensures EndAbsent(v, text) ==> EndsOnlyThere(v, ids, addEos)
  {
    var toUnicode, toByte := InitTable();
    AddedAreScannable(v);
    ids := Encode(v, toUnicode, text, false, addEos);
    back := Decode(v, toByte, ids);
    ghost var rounds :| EncodedBy(v, text, false, addEos, ids, rounds);
    EncodedIds(v, text, ids, rounds, addEos);
    RoundTrip(v, toByte, text, rounds, addEos);
    FrontOf(v, ids, AllIds(v, rounds), addEos);
    if EndAbsent(v, text) {
      NoEndProduced(v, text, rounds);
    }
  }

  lemma FrontOf(v: Vocabulary, ids: seq<int>, front: seq<int>, addEos: bool)
    requires ids == front + Tail(v, addEos)
    ensures EndsOnlyThere(v, ids, addEos) <==> v.eos !in front
  {
    if addEos && v.eos >= 0 {
      assert ids[..|ids| - 1] == front;
    }
  }
}
