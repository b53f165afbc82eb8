/** What encoding and decoding mean. */
module TokenizerSpec {
  import opened Bytes
  import opened Wrappers
  import opened BpeSpec
  import opened Bpe
  import opened ByteTables
  import opened Utf8
  import opened PreTokenizerSpec

  datatype Vocabulary = Vocabulary(
    tokens: seq<Text>, ids: VocabMap, ranks: Ranks, added: seq<(Text, int)>,
    bos: int, eos: int, classes: CharClasses)

  // ---------------------------------------------------------------- decoding

  function HexDigit(c: Byte): nat {
    if 0x30 <= c <= 0x39 then (c - 0x30) as nat
    else if 0x61 <= c <= 0x66 then (c - 0x61) as nat + 10
    else if 0x41 <= c <= 0x46 then (c - 0x41) as nat + 10
    else 0
  }

  /** A token written <0xHH> stands for one byte. */
  predicate IsByteToken(tok: Text) {
    |tok| == 6 && tok[0] == CharCode('<') && tok[1] == CharCode('0') && tok[2] == CharCode('x') &&
    tok[5] == CharCode('>')
  }

  function TokenText(toByte: seq<Byte>, tok: Text): Text
    requires |toByte| == 0x1_0000 && Steps(tok)
  {
    if IsByteToken(tok) then [(HexDigit(tok[3]) * 16 + HexDigit(tok[4])) as Byte] else Unmap(toByte, tok)
  }

  ghost predicate Decodable(v: Vocabulary) {
    forall i :: 0 <= i < |v.tokens| ==> Steps(v.tokens[i])
  }

  predicate ValidId(v: Vocabulary, id: int) {
    0 <= id < |v.tokens|
  }

  /** decode: the texts of the ids up to the first end-of-sequence id; an id outside the vocabulary is an error. */
  function Decoded(v: Vocabulary, toByte: seq<Byte>, ids: seq<int>): Result<Text, ErrorCode>
    requires |toByte| == 0x1_0000 && Decodable(v)
  {
    if ids == [] then Ok([])
    else if !ValidId(v, ids[0]) then Err(NotFound)
    else if ids[0] == v.eos then Ok([])
    else
      match Decoded(v, toByte, ids[1..])
      case Err(e) => Err(e)
      case Ok(rest) => Ok(TokenText(toByte, v.tokens[ids[0]]) + rest)
  }

  // ---------------------------------------------------------------- encoding

  /** text.find(token, pos). */
  function Find(text: Text, token: Text, pos: nat): (r: Option<nat>)
    requires pos <= |text|
    ensures r.Some? ==> pos <= r.value && Occurs(text, token, r.value) &&
                        forall k :: pos <= k < r.value ==> !Occurs(text, token, k)
    ensures r.None? ==> forall k :: pos <= k <= |text| ==> !Occurs(text, token, k)
    decreases |text| - pos
  {
    if Occurs(text, token, pos) then Some(pos)
    else if pos == |text| then None
    else Find(text, token, pos + 1)
  }

  predicate Occurs(text: Text, token: Text, k: nat) {
    k + |token| <= |text| && text[k..k + |token|] == token
  }

  /** One round of encoding, from pos to next: a run of ordinary text, cut into pieces, and the added token behind
      it. */
  datatype Round = Round(pos: nat, run: seq<Text>, token: Option<nat>, next: nat)

  /** The earliest added token at or after pos; of those found at one place, the first in the list. */
  ghost predicate Earliest(v: Vocabulary, text: Text, pos: nat, at: nat, index: nat) {
    && index < |v.added| && pos <= at && Occurs(text, v.added[index].0, at)
    && (forall j, k :: 0 <= j < |v.added| && pos <= k < at ==> !Occurs(text, v.added[j].0, k))
    && (forall j :: 0 <= j < index ==> !Occurs(text, v.added[j].0, at))
  }

  ghost predicate NoAdded(v: Vocabulary, text: Text, pos: nat) {
    forall j, k :: 0 <= j < |v.added| && pos <= k <= |text| ==> !Occurs(text, v.added[j].0, k)
  }

  /** A round ends behind the earliest added token, or at the end of the text when there is none. */
  ghost predicate RoundGood(v: Vocabulary, text: Text, r: Round) {
    && r.pos < |text|
    && match r.token
       case None => NoAdded(v, text, r.pos) && Partition(r.run, text[r.pos..]) && r.next == |text|
       case Some(index) =>
         var at := r.pos + |Concat(r.run)|;
         && Earliest(v, text, r.pos, at, index) && at <= |text| && Partition(r.run, text[r.pos..at])
         && r.next == at + |v.added[index].0|
  }

  /** The text of a round's run. */
  ghost function RunText(text: Text, r: Round): Text {
    if r.pos + |Concat(r.run)| <= |text| then text[r.pos..r.pos + |Concat(r.run)|] else []
  }

  /** The pieces of a round are those that its run is cut into. */
  ghost predicate RoundCut(v: Vocabulary, text: Text, r: Round) {
    Cut(r.run, RunText(text, r), v.classes)
  }

  ghost predicate AllCut(v: Vocabulary, text: Text, rounds: seq<Round>) {
    forall k :: 0 <= k < |rounds| ==> RoundCut(v, text, rounds[k])
  }

  /** Rounds that follow one another from the start of the text up to end. */
  ghost predicate Rounds(v: Vocabulary, text: Text, rounds: seq<Round>, end: nat) {
    (forall k :: 0 <= k < |rounds| ==> RoundGood(v, text, rounds[k])) && Contiguous(rounds, end)
  }

  ghost predicate Contiguous(rounds: seq<Round>, end: nat) {
    && (forall k :: 0 <= k < |rounds| ==> rounds[k].pos == EndBefore(rounds, k))
    && end == EndBefore(rounds, |rounds|)
  }

  /** The ids of rounds that cover the text, framed by the begin and end ids when these exist and are asked for. */
  ghost predicate EncodedBy(v: Vocabulary, text: Text, addBos: bool, addEos: bool, ids: seq<int>, rounds: seq<Round>) {
    && Rounds(v, text, rounds, |text|) && AllCut(v, text, rounds)
    && ids == (if addBos && v.bos >= 0 then [v.bos] else []) + AllIds(v, rounds) +
              (if addEos && v.eos >= 0 then [v.eos] else [])
  }

  function EndBefore(rounds: seq<Round>, k: nat): nat
    requires k <= |rounds|
  {
    if k == 0 then 0 else rounds[k - 1].next
  }

  /** The ids of one piece: its canonical byte-pair encoding. */
  ghost function PieceIds(v: Vocabulary, piece: Text): seq<int> {
    SplitMapped(piece);
    Lookup(v.ids, Canonical(v.ranks, SplitChars(MapText(piece))))
  }

  ghost function RunIds(v: Vocabulary, pieces: seq<Text>): seq<int> {
    if pieces == [] then [] else RunIds(v, pieces[..|pieces| - 1]) + PieceIds(v, pieces[|pieces| - 1])
  }

  ghost function RoundIds(v: Vocabulary, r: Round): seq<int> {
    RunIds(v, r.run) + if r.token.Some? && r.token.value < |v.added| then [v.added[r.token.value].1] else []
  }

  ghost function AllIds(v: Vocabulary, rounds: seq<Round>): seq<int> {
    if rounds == [] then [] else AllIds(v, rounds[..|rounds| - 1]) + RoundIds(v, rounds[|rounds| - 1])
  }

  /** Added tokens are non-empty and scannable, so that cutting them out leaves scannable runs. */
  ghost predicate AddedScannable(v: Vocabulary) {
    forall i :: 0 <= i < |v.added| ==> v.added[i].0 != [] && Scannable(v.added[i].0)
  }

  ghost predicate TableFor(toUnicode: seq<nat>) {
    |toUnicode| == 256 && forall b: Byte :: toUnicode[b as nat] == CodePoint(b)
  }

  ghost predicate AllValid(v: Vocabulary, ids: seq<int>) {
    forall k :: 0 <= k < |ids| ==> ValidId(v, ids[k])
  }

  /** Ids that decode to text: inside the vocabulary and not the end id. */
  ghost predicate Plain(v: Vocabulary, ids: seq<int>) {
    AllValid(v, ids) && v.eos !in ids
  }

  /** The texts of the ids, the end id included. */
  ghost function TextOf(v: Vocabulary, toByte: seq<Byte>, ids: seq<int>): Text
    requires |toByte| == 0x1_0000 && Decodable(v) && AllValid(v, ids)
  {
    if ids == [] then []
    else TextOf(v, toByte, ids[..|ids| - 1]) + TokenText(toByte, v.tokens[ids[|ids| - 1]])
  }

  /** Symbols that are mapped byte strings. */
  ghost predicate Maps(list: seq<Text>, raws: seq<Text>) {
    |list| == |raws| && forall k :: 0 <= k < |list| ==> list[k] == MapText(raws[k])
  }

  ghost predicate Known(v: Vocabulary, list: seq<Text>) {
    forall k :: 0 <= k < |list| ==> list[k] in v.ids
  }

  // ---------------------------------------------------------------- what the round trip needs

  /** Every byte and every merge result is a token, and ids name tokens. */
  ghost predicate Complete(v: Vocabulary) {
    && (forall b: Byte :: MapByte(b) in v.ids)
    && (forall p :: p in v.ranks ==> p.0 + p.1 in v.ids)
    && (forall s :: s in v.ids ==> ValidId(v, v.ids[s]) && v.tokens[v.ids[s]] == s)
  }

  ghost predicate PrintableAscii(t: Text) {
    forall k :: 0 <= k < |t| ==> 33 <= t[k] <= 126
  }

  ghost predicate AddedGood(v: Vocabulary) {
    forall i :: 0 <= i < |v.added| ==>
      v.added[i].0 != [] && PrintableAscii(v.added[i].0) && ValidId(v, v.added[i].1) &&
      v.tokens[v.added[i].1] == v.added[i].0
  }

  ghost predicate NoByteTokens(v: Vocabulary) {
    forall i :: 0 <= i < |v.tokens| ==> !IsByteToken(v.tokens[i])
  }

  /** The token of an id is the mapped form of a non-empty part of the text. */
  ghost predicate FromSlice(v: Vocabulary, id: int, text: Text) {
    ValidId(v, id) && exists i, j :: IsSlice(v.tokens[id], text, i, j)
  }

  ghost predicate IsSlice(token: Text, text: Text, i: nat, j: nat) {
    i < j <= |text| && token == MapText(text[i..j])
  }

  ghost predicate AllFromSlices(v: Vocabulary, ids: seq<int>, text: Text) {
    forall k :: 0 <= k < |ids| ==> FromSlice(v, ids[k], text)
  }

  /** No part of the text is what the end token stands for. */
  ghost predicate EndAbsent(v: Vocabulary, text: Text) {
    ValidId(v, v.eos) ==> !FromSlice(v, v.eos, text)
  }

  ghost predicate RoundTripVocabulary(v: Vocabulary) {
    Complete(v) && AddedGood(v) && NoByteTokens(v) && Decodable(v)
  }
}

/** BPETokenizer::encode and decode (src/io/bpe_tokenizer.cpp). */
module Tokenizers {
  import opened Bytes
  import opened Sequences
  import opened Wrappers
  import opened Bpe
  import opened ByteTables
  import opened Utf8
  import opened PreTokenizerSpec
  import opened PreTokenizers
  import opened TokenizerSpec

  // ---------------------------------------------------------------- encode

  method FindEarliest(v: Vocabulary, text: Text, pos: nat) returns (found: Option<(nat, nat)>)
    requires pos <= |text|
    ensures found.Some? ==> Earliest(v, text, pos, found.value.0, found.value.1)
    ensures found.None? ==> NoAdded(v, text, pos)
  {
    found := None;
    for i := 0 to |v.added|
      invariant found.None? ==> forall j, k :: 0 <= j < i && pos <= k <= |text| ==> !Occurs(text, v.added[j].0, k)
      invariant found.Some? ==>
                  && found.value.1 < i && pos <= found.value.0 && Occurs(text, v.added[found.value.1].0, found.value.0)
                  && (forall j, k :: 0 <= j < i && pos <= k < found.value.0 ==> !Occurs(text, v.added[j].0, k))
                  && (forall j :: 0 <= j < found.value.1 ==> !Occurs(text, v.added[j].0, found.value.0))
    {
      var at := Find(text, v.added[i].0, pos);
      if at.Some? && (found.None? || at.value < found.value.0) {
        found := Some((at.value, i));
      }
    }
  }

  lemma RunIdsStep(v: Vocabulary, pieces: seq<Text>, k: nat)
    requires k < |pieces|
    ensures RunIds(v, pieces[..k + 1]) == RunIds(v, pieces[..k]) + PieceIds(v, pieces[k])
  {
    assert pieces[..k + 1][..k] == pieces[..k];
  }

  /** A run of ordinary text: cut it into pieces and encode each. */
  method EncodeRun(v: Vocabulary, toUnicode: seq<nat>, run: Text) returns (ids: seq<int>)
    requires Scannable(run)
    requires TableFor(toUnicode)
    ensures exists pieces :: Partition(pieces, run) && Cut(pieces, run, v.classes) && ids == RunIds(v, pieces)
  {
    var cut := PreTokenize(run, v.classes);
    ids := [];
    for k := 0 to |cut|
      invariant ids == RunIds(v, cut[..k])
    {
      var mapped := BytesToUnicode(toUnicode, cut[k]);
      SplitMapped(cut[k]);
      var pieceIds := BytePairEncode(v.ranks, v.ids, mapped);
      RunIdsStep(v, cut, k);
      ids := ids + pieceIds;
    }
    assert cut[..|cut|] == cut;
  }

  /** Where an added token occurs the text can be cut in front of it and behind it. */
  lemma CutBeforeToken(text: Text, pos: nat, token: Text, at: nat)
    requires pos <= at && pos <= |text| && Boundary(text, pos) && Occurs(text, token, at)
    requires token != [] && Scannable(token)
    ensures Scannable(text[pos..at]) && Boundary(text, at)
  {
    var rest := text[pos..];
    assert token[0] == text[at] == rest[at - pos];
    CutAtLead(rest, at - pos);
    SliceOfRest(text, pos, at);
  }

  lemma CutAfterToken(text: Text, token: Text, at: nat)
    requires Occurs(text, token, at) && Boundary(text, at) && Scannable(token)
    ensures Boundary(text, at + |token|)
  {
    TokenIsPrefix(text, token, at);
    DropPrefix(text[at..], |token|);
  }

  lemma TokenIsPrefix(text: Text, token: Text, at: nat)
    requires Occurs(text, token, at)
    ensures text[at..][..|token|] == token && text[at..][|token|..] == text[at + |token|..]
  {
    SliceOfRest(text, at, at + |token|);
  }

  lemma CutAroundToken(text: Text, pos: nat, token: Text, at: nat)
    requires pos <= at && pos <= |text| && Boundary(text, pos) && Occurs(text, token, at)
    requires token != [] && Scannable(token)
    ensures Scannable(text[pos..at]) && Boundary(text, at) && Boundary(text, at + |token|)
  {
    CutBeforeToken(text, pos, token, at);
    CutAfterToken(text, token, at);
  }

  /** No added token is left: the rest of the text is one run. */
  method EncodeRest(v: Vocabulary, toUnicode: seq<nat>, text: Text, pos: nat) returns (ids: seq<int>, ghost r: Round)
    requires pos < |text| && Boundary(text, pos) && NoAdded(v, text, pos) && TableFor(toUnicode)
    ensures ids == RoundIds(v, r) && RoundGood(v, text, r) && r.pos == pos && r.next == |text|
    ensures RoundCut(v, text, r)
  {
    WholeRest(text, pos);
    ids := EncodeRun(v, toUnicode, text[pos..]);
    ghost var pieces :| Partition(pieces, text[pos..]) && Cut(pieces, text[pos..], v.classes) &&
                        ids == RunIds(v, pieces);
    r := Round(pos, pieces, None, |text|);
    RestRound(v, text, r);
    RunTextIs(text, r, |text|);
    CutSame(pieces, text[pos..], RunText(text, r), v.classes);
  }

  lemma WholeRest(text: Text, pos: nat)
    requires pos <= |text|
    ensures text[pos..|text|] == text[pos..]
  {
  }

  lemma RestRound(v: Vocabulary, text: Text, r: Round)
    requires r.pos < |text| && r.token == None && r.next == |text|
    requires NoAdded(v, text, r.pos) && Partition(r.run, text[r.pos..])
    ensures RoundGood(v, text, r) && RoundIds(v, r) == RunIds(v, r.run)
  {
  }

  lemma RunTextIs(text: Text, r: Round, at: nat)
    requires r.pos <= at <= |text| && Partition(r.run, text[r.pos..at])
    ensures RunText(text, r) == text[r.pos..at]
  {
  }

  lemma CutSame(pieces: seq<Text>, text: Text, text': Text, classes: CharClasses)
    requires text == text' && Cut(pieces, text, classes)
    ensures Cut(pieces, text', classes)
  {
  }

  /** The run before the earliest added token, and the token. */
  method EncodeToToken(v: Vocabulary, toUnicode: seq<nat>, text: Text, pos: nat, at: nat, index: nat)
    returns (ids: seq<int>, ghost r: Round)
    requires pos < |text| && at <= |text| && Earliest(v, text, pos, at, index) && TableFor(toUnicode)
    requires Scannable(text[pos..at])
    ensures ids == RoundIds(v, r) && RoundGood(v, text, r) && r.pos == pos && r.next == at + |v.added[index].0|
    ensures RoundCut(v, text, r)
  {
    ghost var pieces: seq<Text> := [];
    ids := [];
    if at > pos {
      ids := EncodeRun(v, toUnicode, text[pos..at]);
      pieces :| Partition(pieces, text[pos..at]) && Cut(pieces, text[pos..at], v.classes) && ids == RunIds(v, pieces);
    }
    ids := ids + [v.added[index].1];
    r := Round(pos, pieces, Some(index), at + |v.added[index].0|);
    TokenRound(v, text, pos, pieces, at, index);
    if at == pos {
      assert text[pos..at] == [] && pieces == [];
    }
    RunTextIs(text, r, at);
    CutSame(pieces, text[pos..at], RunText(text, r), v.classes);
  }

  /** One round of encode's main loop: the rest of the text is one run, or the earliest added token ends the run. */
  method EncodeRound(v: Vocabulary, toUnicode: seq<nat>, text: Text, pos: nat)
    returns (ids: seq<int>, next: nat, ghost r: Round)
    requires AddedScannable(v) && pos < |text| && Boundary(text, pos)
    requires TableFor(toUnicode)
    ensures pos < next <= |text| && Boundary(text, next)
    ensures ids == RoundIds(v, r) && RoundGood(v, text, r) && r.pos == pos && r.next == next
    ensures RoundCut(v, text, r)
  {
    var found := FindEarliest(v, text, pos);
    if found == None {
      ids, r := EncodeRest(v, toUnicode, text, pos);
      next := |text|;
      assert text[next..] == [];
    } else {
      var (at, index) := found.value;
      ids, next, r := EncodeThroughToken(v, toUnicode, text, pos, at, index);
    }
  }

  /** The run before an added token, and the token. */
  method EncodeThroughToken(v: Vocabulary, toUnicode: seq<nat>, text: Text, pos: nat, at: nat, index: nat)
    returns (ids: seq<int>, next: nat, ghost r: Round)
    requires AddedScannable(v) && pos < |text| && Boundary(text, pos) && TableFor(toUnicode)
    requires at <= |text| && Earliest(v, text, pos, at, index)
    ensures pos < next <= |text| && Boundary(text, next)
    ensures ids == RoundIds(v, r) && RoundGood(v, text, r) && r.pos == pos && r.next == next
    ensures RoundCut(v, text, r)
  {
    next := at + |v.added[index].0|;
    PlaceAfterToken(v, text, pos, at, index, next);
    ids, r := EncodeToToken(v, toUnicode, text, pos, at, index);
  }

  lemma PlaceAfterToken(v: Vocabulary, text: Text, pos: nat, at: nat, index: nat, next: nat)
    requires AddedScannable(v) && pos < |text| && Boundary(text, pos)
    requires at <= |text| && Earliest(v, text, pos, at, index) && next == at + |v.added[index].0|
    ensures pos < next <= |text| && Scannable(text[pos..at]) && Boundary(text, next)
  {
    var token := v.added[index].0;
    TokenFacts(v, text, pos, at, index);
    CutAroundToken(text, pos, token, at);
    assert next == at + |token|;
  }

  lemma TokenFacts(v: Vocabulary, text: Text, pos: nat, at: nat, index: nat)
    requires AddedScannable(v) && pos < |text| && at <= |text| && Earliest(v, text, pos, at, index)
    ensures index < |v.added| && pos <= at && v.added[index].0 != [] && Scannable(v.added[index].0)
    ensures Occurs(text, v.added[index].0, at) && at + |v.added[index].0| <= |text|
  {
  }

  lemma TokenRound(v: Vocabulary, text: Text, pos: nat, run: seq<Text>, at: nat, index: nat)
    requires pos < |text| && Earliest(v, text, pos, at, index) && at <= |text|
    requires if at > pos then Partition(run, text[pos..at]) else run == []
    ensures RoundGood(v, text, Round(pos, run, Some(index), at + |v.added[index].0|))
  {
    assert text[pos..pos] == [];
    assert |Concat(run)| == at - pos;
  }

  lemma RoundsStep(v: Vocabulary, text: Text, rounds: seq<Round>, r: Round)
    requires Rounds(v, text, rounds, r.pos) && RoundGood(v, text, r)
    ensures Rounds(v, text, rounds + [r], r.next)
  {
    ContiguousStep(rounds, r);
  }

  lemma ContiguousStep(rounds: seq<Round>, r: Round)
    requires Contiguous(rounds, r.pos)
    ensures Contiguous(rounds + [r], r.next)
  {
    var rounds' := rounds + [r];
    forall k | 0 <= k < |rounds'| ensures rounds'[k].pos == EndBefore(rounds', k) {
      assert EndBefore(rounds', k) == EndBefore(rounds, k);
    }
  }

  lemma AllIdsStep(v: Vocabulary, rounds: seq<Round>, r: Round)
    ensures AllIds(v, rounds + [r]) == AllIds(v, rounds) + RoundIds(v, r)
  {
    assert (rounds + [r])[..|rounds|] == rounds;
  }

  method EncodeRounds(v: Vocabulary, toUnicode: seq<nat>, text: Text, front: seq<int>)
    returns (ids: seq<int>, ghost rounds: seq<Round>)
    requires Scannable(text) && AddedScannable(v) && TableFor(toUnicode)
    ensures Rounds(v, text, rounds, |text|) && AllCut(v, text, rounds)
    ensures ids == front + AllIds(v, rounds)
  {
    ids, rounds := front, [];
    var pos := 0;
    assert text[0..] == text;
    while pos < |text|
      invariant pos <= |text| && Boundary(text, pos)
      invariant Rounds(v, text, rounds, pos) && AllCut(v, text, rounds)
      invariant ids == front + AllIds(v, rounds)
      decreases |text| - pos
    {
      var roundIds, next;
      ghost var r;
      roundIds, next, r := EncodeRound(v, toUnicode, text, pos);
      RoundsStep(v, text, rounds, r);
      AllIdsStep(v, rounds, r);
      Associative(front, AllIds(v, rounds), roundIds);
      ids, pos, rounds := ids + roundIds, next, rounds + [r];
    }
  }

  /** encode: the ids of the rounds, framed by the begin and end ids when these exist and are asked for. */
  method Encode(v: Vocabulary, toUnicode: seq<nat>, text: Text, addBos: bool, addEos: bool)
    returns (ids: seq<int>)
    requires Scannable(text) && AddedScannable(v) && TableFor(toUnicode)
    ensures exists rounds :: EncodedBy(v, text, addBos, addEos, ids, rounds)
  {
    ids := [];
    if addBos && v.bos >= 0 {
      ids := ids + [v.bos];
      AppendNothing([v.bos]);
    }
    ghost var rounds;
    ids, rounds := EncodeRounds(v, toUnicode, text, ids);
    AppendNothing(ids);
    if addEos && v.eos >= 0 {
      ids := ids + [v.eos];
    }
    assert EncodedBy(v, text, addBos, addEos, ids, rounds);
  }

  // ---------------------------------------------------------------- encoding has one result

  lemma EarliestIsUnique(v: Vocabulary, text: Text, pos: nat, at: nat, index: nat, at': nat, index': nat)
    requires Earliest(v, text, pos, at, index) && Earliest(v, text, pos, at', index')
    ensures at == at' && index == index'
  {
  }

  lemma EarliestExcludesNone(v: Vocabulary, text: Text, pos: nat, at: nat, index: nat)
    requires Earliest(v, text, pos, at, index)
    ensures !NoAdded(v, text, pos)
  {
  }

  lemma TokenWhereFound(v: Vocabulary, text: Text, r: Round)
    requires RoundGood(v, text, r)
    ensures r.token == None <==> NoAdded(v, text, r.pos)
  {
    if r.token.Some? {
      EarliestExcludesNone(v, text, r.pos, r.pos + |Concat(r.run)|, r.token.value);
    }
  }

  lemma SameRun(v: Vocabulary, text: Text, r: Round, r': Round)
    requires RoundCut(v, text, r) && RoundCut(v, text, r') && r.pos == r'.pos
    requires |Concat(r.run)| == |Concat(r'.run)|
    ensures r.run == r'.run
  {
    CutIsUnique(RunText(text, r), RunText(text, r'), r.run, r'.run, v.classes);
  }

  lemma SameRunLength(v: Vocabulary, text: Text, r: Round, r': Round)
    requires RoundGood(v, text, r) && RoundGood(v, text, r') && r.pos == r'.pos
    ensures r.token == r'.token && r.next == r'.next && |Concat(r.run)| == |Concat(r'.run)|
  {
    TokenWhereFound(v, text, r);
    TokenWhereFound(v, text, r');
    if r.token.Some? {
      var at, at' := r.pos + |Concat(r.run)|, r'.pos + |Concat(r'.run)|;
      EarliestIsUnique(v, text, r.pos, at, r.token.value, at', r'.token.value);
    }
  }

  lemma RoundIsUnique(v: Vocabulary, text: Text, r: Round, r': Round)
    requires RoundGood(v, text, r) && RoundGood(v, text, r') && r.pos == r'.pos
    requires RoundCut(v, text, r) && RoundCut(v, text, r')
    ensures r == r'
  {
    SameRunLength(v, text, r, r');
    SameRun(v, text, r, r');
  }

  lemma RoundAt(v: Vocabulary, text: Text, rounds: seq<Round>, k: nat)
    requires Rounds(v, text, rounds, |text|) && k < |rounds|
    ensures RoundGood(v, text, rounds[k]) && rounds[k].pos == EndBefore(rounds, k) < |text|
    ensures EndBefore(rounds, k + 1) == rounds[k].next
  {
  }

  lemma {:induction false} SameByStep(a: seq<Round>, b: seq<Round>, k: nat)
    requires k <= |a| && k <= |b|
    requires forall j: nat :: j < k && EndBefore(a, j) == EndBefore(b, j) ==> a[j] == b[j]
    ensures EndBefore(a, k) == EndBefore(b, k) && a[..k] == b[..k]
  {
    if k > 0 {
      SameByStep(a, b, k - 1);
      NextSlice(a, k - 1);
      NextSlice(b, k - 1);
    }
  }

  lemma RoundsAgree(v: Vocabulary, text: Text, a: seq<Round>, b: seq<Round>, k: nat)
    requires Rounds(v, text, a, |text|) && Rounds(v, text, b, |text|) && k <= |a| && k <= |b|
    requires AllCut(v, text, a) && AllCut(v, text, b)
    ensures EndBefore(a, k) == EndBefore(b, k) && a[..k] == b[..k]
  {
    forall j: nat | j < k && EndBefore(a, j) == EndBefore(b, j) ensures a[j] == b[j] {
      RoundAt(v, text, a, j);
      RoundAt(v, text, b, j);
      RoundIsUnique(v, text, a[j], b[j]);
    }
    SameByStep(a, b, k);
  }

  lemma RoundsInside(v: Vocabulary, text: Text, rounds: seq<Round>)
    requires Rounds(v, text, rounds, |text|)
    ensures forall k: nat :: k < |rounds| ==> EndBefore(rounds, k) < |text|
    ensures EndBefore(rounds, |rounds|) == |text|
  {
    forall k: nat | k < |rounds| ensures EndBefore(rounds, k) < |text| {
      RoundAt(v, text, rounds, k);
    }
  }

  lemma NoMoreRounds(v: Vocabulary, text: Text, a: seq<Round>, b: seq<Round>)
    requires Rounds(v, text, a, |text|) && Rounds(v, text, b, |text|) && |a| <= |b|
    requires AllCut(v, text, a) && AllCut(v, text, b)
    ensures a == b
  {
    RoundsAgree(v, text, a, b, |a|);
    RoundsInside(v, text, a);
    RoundsInside(v, text, b);
    assert a[..|a|] == a && b[..|b|] == b;
  }

  /** The rounds are determined by text and vocabulary: what encode promises leaves exactly one result. */
  lemma EncodingIsUnique(v: Vocabulary, text: Text, addBos: bool, addEos: bool, ids: seq<int>, rounds: seq<Round>,
                         ids': seq<int>, rounds': seq<Round>)
    requires EncodedBy(v, text, addBos, addEos, ids, rounds) && EncodedBy(v, text, addBos, addEos, ids', rounds')
    ensures ids == ids' && rounds == rounds'
  {
    if |rounds| <= |rounds'| {
      NoMoreRounds(v, text, rounds, rounds');
    } else {
      NoMoreRounds(v, text, rounds', rounds);
    }
  }

  // ---------------------------------------------------------------- byte escapes

  /** The digits of a byte in base sixteen, in lower or upper case. */
  function Digit(n: nat, upper: bool): Byte
    requires n < 16
  {
    Ascii(if upper then "0123456789ABCDEF" else "0123456789abcdef")[n]
  }

  lemma DigitValue(n: nat, upper: bool)
    requires n < 16
    ensures HexDigit(Digit(n, upper)) == n && Digit(n, upper) < 0x80
  {
  }

  /** A token that writes a byte as "<0x", two digits and ">" stands for that byte, for all 256 bytes and both cases of
      each digit. */
  lemma ByteEscape(toByte: seq<Byte>, b: Byte, upper: bool, upper': bool)
    requires |toByte| == 0x1_0000
    ensures var tok := Ascii("<0x") + [Digit(b as nat / 16, upper), Digit(b as nat % 16, upper')] + Ascii(">");
            Steps(tok) && TokenText(toByte, tok) == [b]
  {
    var hi, lo := b as nat / 16, b as nat % 16;
    DigitValue(hi, upper);
    DigitValue(lo, upper');
    EscapeText(toByte, Digit(hi, upper), Digit(lo, upper'));
  }

  lemma EscapeText(toByte: seq<Byte>, hi: Byte, lo: Byte)
    requires |toByte| == 0x1_0000 && hi < 0x80 && lo < 0x80
    ensures var tok := Ascii("<0x") + [hi, lo] + Ascii(">");
            Steps(tok) && TokenText(toByte, tok) == [(HexDigit(hi) * 16 + HexDigit(lo)) as Byte]
  {
    var tok := Ascii("<0x") + [hi, lo] + Ascii(">");
    assert Ascii("<0x") == [0x3C, 0x30, 0x78] && Ascii(">") == [0x3E];
    AsciiSteps(tok);
    assert tok[3] == hi && tok[4] == lo;
  }

  /** "<0x0A>" is a line feed. */
  lemma LineFeedToken(toByte: seq<Byte>)
    requires |toByte| == 0x1_0000
    ensures Steps(Ascii("<0x0A>")) && TokenText(toByte, Ascii("<0x0A>")) == [10]
  {
    EscapeText(toByte, 0x30, 0x41);
    assert Ascii("<0x0A>") == Ascii("<0x") + [0x30, 0x41] + Ascii(">");
  }

  lemma {:induction false} AsciiSteps(t: Text)
    requires forall i :: 0 <= i < |t| ==> t[i] < 0x80
    ensures Steps(t)
  {
    if t != [] {
      AsciiSteps(t[1..]);
    }
  }

  // ---------------------------------------------------------------- decode

  lemma {:induction false} DecodeStep(v: Vocabulary, toByte: seq<Byte>, ids: seq<int>, text: Text, k: nat)
    requires |toByte| == 0x1_0000 && Decodable(v) && k < |ids| && ValidId(v, ids[k]) && ids[k] != v.eos
    ensures Decoded(v, toByte, ids[k..]) ==
            match Decoded(v, toByte, ids[k + 1..])
            case Err(e) => Err(e)
            case Ok(rest) => Ok(TokenText(toByte, v.tokens[ids[k]]) + rest)
  {
    assert ids[k..][1..] == ids[k + 1..];
  }

  function Prepend(text: Text, r: Result<Text, ErrorCode>): Result<Text, ErrorCode> {
    match r
    case Err(e) => Err(e)
    case Ok(rest) => Ok(text + rest)
  }

  /** decode, except that an uninitialized tokenizer reports the same error through an id out of range. */
  method Decode(v: Vocabulary, toByte: seq<Byte>, ids: seq<int>) returns (r: Result<Text, ErrorCode>)
    requires |toByte| == 0x1_0000 && Decodable(v)
    ensures r == Decoded(v, toByte, ids)
  {
    var text: Text := [];
    assert ids[0..] == ids;
    assert forall t: Text :: [] + t == t;
    assert forall t: Text :: t + [] == t;
    for k := 0 to |ids|
      invariant Decoded(v, toByte, ids) == Prepend(text, Decoded(v, toByte, ids[k..]))
    {
      if !ValidId(v, ids[k]) {
        return Err(NotFound);
      }
      if ids[k] == v.eos {
        return Ok(text);
      }
      DecodeStep(v, toByte, ids, text, k);
      var tokenText := TokenToText(v, toByte, ids[k]);
      ghost var rest := Decoded(v, toByte, ids[k + 1..]);
      assert rest.Ok? ==> text + (tokenText + rest.value) == (text + tokenText) + rest.value;
      text := text + tokenText;
    }
    return Ok(text);
  }

  /** token_to_text: a byte token, or the bytes its code points stand for. */
  method TokenToText(v: Vocabulary, toByte: seq<Byte>, id: int) returns (text: Text)
    requires |toByte| == 0x1_0000 && Decodable(v)
    ensures text == if ValidId(v, id) then TokenText(toByte, v.tokens[id]) else []
  {
    if !ValidId(v, id) {
      return [];
    }
    var tok := v.tokens[id];
    if IsByteToken(tok) {
      return [(HexDigit(tok[3]) * 16 + HexDigit(tok[4])) as Byte];
    }
    text := UnicodeToBytes(toByte, tok);
  }
}
