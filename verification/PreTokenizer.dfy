/** Well-formed UTF-8 byte sequences (section 4 of RFC 3629). */
module Utf8 {
  import opened Bytes
  import opened ByteTables

  predicate Tail(b: Byte) {
    0x80 <= b <= 0xBF
  }

  /** The text starts with one well-formed character. */
  predicate StartsWellFormed(t: Text) {
    t != [] &&
    var c := t[0];
    || c < 0x80
    || (0xC2 <= c <= 0xDF && |t| >= 2 && Tail(t[1]))
    || (0xE0 <= c <= 0xEF && |t| >= 3 && Tail(t[1]) && Tail(t[2]) &&
        (c == 0xE0 ==> t[1] >= 0xA0) && (c == 0xED ==> t[1] <= 0x9F))
    || (0xF0 <= c <= 0xF4 && |t| >= 4 && Tail(t[1]) && Tail(t[2]) && Tail(t[3]) &&
        (c == 0xF0 ==> t[1] >= 0x90) && (c == 0xF4 ==> t[1] <= 0x8F))
  }

  predicate WellFormed(t: Text) {
    t == [] || (StartsWellFormed(t) && StepLen(t[0]) <= |t| && WellFormed(t[StepLen(t[0])..]))
  }

  /** The text starts with a leading byte and as many continuation bytes as it announces, and only a single byte decodes
      to an ASCII code. Unlike well-formed text this admits surrogates and codes beyond the last. */
  predicate StartsWithChar(t: Text) {
    t != [] &&
    var c := t[0];
    || c < 0x80
    || (0xC0 <= c < 0xF8 && |t| >= StepLen(c) && (forall k :: 1 <= k < StepLen(c) ==> Tail(t[k])) &&
        DecodeAt(t) >= 0x80)
  }

  /** What the source can scan without reading past the end of a character. */
  predicate Scannable(t: Text) {
    t == [] || (StartsWithChar(t) && StepLen(t[0]) <= |t| && Scannable(t[StepLen(t[0])..]))
  }

  /** Well-formed text is scannable. */
  lemma {:induction false} WellFormedScans(t: Text)
    requires WellFormed(t)
    ensures Scannable(t)
  {
    if t != [] {
      WellFormedScans(t[StepLen(t[0])..]);
    }
  }

  lemma {:induction false} ScannableHasNoFF(t: Text)
    requires Scannable(t)
    ensures 0xFF !in t
  {
    if t != [] {
      var len := StepLen(t[0]);
      ScannableHasNoFF(t[len..]);
      assert t == t[..len] + t[len..];
    }
  }

  /** A scannable text can be cut in front of any byte that is not a continuation byte. */
  lemma {:induction false} CutAtLead(t: Text, k: nat)
    requires Scannable(t) && k < |t| && !Tail(t[k])
    ensures Scannable(t[..k]) && Scannable(t[k..])
  {
    if k > 0 {
      var len := StepLen(t[0]);
      CutAtLead(t[len..], k - len);
      assert t[len..][k - len..] == t[k..];
      PrependChar(t, k);
    }
  }

  /** A scannable cut of the rest is one of the whole. */
  lemma PrependChar(t: Text, k: nat)
    requires StartsWithChar(t) && StepLen(t[0]) <= k <= |t| && Scannable(t[StepLen(t[0])..][..k - StepLen(t[0])])
    ensures Scannable(t[..k])
  {
    var len := StepLen(t[0]);
    assert t[len..][..k - len] == t[..k][len..];
    assert StartsWithChar(t[..k]);
  }

  /** A scannable prefix can be cut off. */
  lemma {:induction false} DropPrefix(t: Text, n: nat)
    requires Scannable(t) && n <= |t| && Scannable(t[..n])
    ensures Scannable(t[n..])
  {
    if n > 0 {
      var len := StepLen(t[0]);
      assert t[..n][len..] == t[len..][..n - len];
      DropPrefix(t[len..], n - len);
      assert t[len..][n - len..] == t[n..];
    }
  }

  lemma {:induction false} AsciiScans(t: Text)
    requires forall k :: 0 <= k < |t| ==> t[k] < 0x80
    ensures Scannable(t)
  {
    if t != [] {
      AsciiScans(t[1..]);
    }
  }

  /** An ASCII prefix can be cut off. */
  lemma DropAscii(t: Text, n: nat)
    requires Scannable(t) && n <= |t| && forall k :: 0 <= k < n ==> t[k] < 0x80
    ensures Scannable(t[n..])
  {
    AsciiScans(t[..n]);
    DropPrefix(t, n);
  }
}

/** What cutting a text into pieces means. */
module PreTokenizerSpec {
  import opened Bytes
  import opened Bpe
  import opened ByteTables
  import opened Utf8

  function CharCode(c: char): Byte
    requires c as int < 256
  {
    c as int as Byte
  }

  predicate IsSpace(cp: nat) {
    cp == 0x20 || cp == 0x09 || cp == 0x0A || cp == 0x0D || cp == 0x0C || cp == 0x0B
  }

  predicate IsNewline(cp: nat) {
    cp == 0x0A || cp == 0x0D
  }

  /** match_contraction: the length of 's, 't, 'd, 'm, 'll, 've or 're after an apostrophe, in either case. */
  function MatchContraction(text: Text, p: nat): nat
    requires p < |text|
  {
    if p + 1 >= |text| then 0
    else
      var next := text[p + 1];
      if next == CharCode('s') || next == CharCode('t') || next == CharCode('d') || next == CharCode('m') ||
         next == CharCode('S') || next == CharCode('T') || next == CharCode('D') || next == CharCode('M') then 2
      else if p + 2 >= |text| then 0
      else
        var third := text[p + 2];
        if (next == CharCode('l') || next == CharCode('L')) && (third == CharCode('l') || third == CharCode('L')) then 3
        else if (next == CharCode('v') || next == CharCode('V') || next == CharCode('r') || next == CharCode('R')) &&
                (third == CharCode('e') || third == CharCode('E')) then 3
        else 0
  }

  /** A position between two characters of the text. */
  predicate Boundary(text: Text, p: nat) {
    p <= |text| && Scannable(text[p..])
  }

  function At(text: Text, p: nat): nat
    requires Boundary(text, p) && p < |text|
  {
    DecodeAt(text[p..])
  }

  // ---------------------------------------------------------------- what a piece is

  /** From p up to q there are n characters, and keep holds for each. */
  ghost predicate Run(text: Text, p: nat, q: nat, keep: nat -> bool, n: nat)
    decreases n
  {
    if n == 0 then p == q
    else CharAt(text, p, keep) && Run(text, Next(text, p), q, keep, n - 1)
  }

  ghost predicate CharAt(text: Text, p: nat, keep: nat -> bool) {
    p < |text| && Boundary(text, p) && keep(At(text, p))
  }

  function Next(text: Text, p: nat): nat
    requires p < |text|
  {
    p + StepLen(text[p])
  }

  /** No further character can be added to a run that ends at q. */
  ghost predicate EndsAt(text: Text, q: nat, keep: nat -> bool) {
    Boundary(text, q) && (q == |text| || !keep(At(text, q)))
  }

  ghost predicate LongestRun(text: Text, p: nat, q: nat, keep: nat -> bool) {
    EndsAt(text, q, keep) && exists n :: Run(text, p, q, keep, n)
  }

  predicate Starts(text: Text, p: nat, s: string)
    requires forall i :: 0 <= i < |s| ==> s[i] < 128 as char
  {
    p + |s| <= |text| && text[p..p + |s|] == Ascii(s)
  }

  predicate ShortContraction(text: Text, p: nat) {
    || Starts(text, p, "'s") || Starts(text, p, "'t") || Starts(text, p, "'d") || Starts(text, p, "'m")
    || Starts(text, p, "'S") || Starts(text, p, "'T") || Starts(text, p, "'D") || Starts(text, p, "'M")
  }

  predicate LongContraction(text: Text, p: nat) {
    || Starts(text, p, "'ll") || Starts(text, p, "'lL") || Starts(text, p, "'Ll") || Starts(text, p, "'LL")
    || Starts(text, p, "'ve") || Starts(text, p, "'vE") || Starts(text, p, "'Ve") || Starts(text, p, "'VE")
    || Starts(text, p, "'re") || Starts(text, p, "'rE") || Starts(text, p, "'Re") || Starts(text, p, "'RE")
  }

  function Blank(): nat -> bool { (cp: nat) => IsSpace(cp) && !IsNewline(cp) }

  /** Other characters, and the newlines behind them. */
  ghost predicate OthersThenNewlines(text: Text, p: nat, q: nat, classes: CharClasses) {
    exists m: nat :: LongestRun(text, p, m, Other(classes)) && LongestRun(text, m, q, IsNewline)
  }

  /** White space: up to the end of the newlines behind it or, if there are none, the whole rest of the text. */
  ghost predicate SpacePiece(text: Text, p: nat, q: nat) {
    exists m: nat :: LongestRun(text, p, m, Blank()) && SpaceTail(text, m, q)
  }

  ghost predicate SpaceTail(text: Text, m: nat, q: nat) {
    if m < |text| && Boundary(text, m) && IsNewline(At(text, m)) then LongestRun(text, m, q, IsNewline) else q == |text|
  }

  /** A piece from p ends at q: a contraction; letters, with at most one other character that is no digit in front; up
      to three digits; other characters, with at most one space in front and newlines behind; or white space. */
  ghost predicate Piece(text: Text, p: nat, q: nat, classes: CharClasses)
    requires Boundary(text, p) && p < |text|
  {
    if ShortContraction(text, p) then q == p + 2
    else if LongContraction(text, p) then q == p + 3
    else PlainPiece(text, p, q, classes)
  }

  ghost predicate PlainPiece(text: Text, p: nat, q: nat, classes: CharClasses)
    requires Boundary(text, p) && p < |text|
  {
    var cp, next := At(text, p), Next(text, p);
    if classes.isLetter(cp) || (!IsSpace(cp) && !classes.isDigit(cp) && LetterAt(text, next, classes)) then
      LongestRun(text, next, q, classes.isLetter)
    else if classes.isDigit(cp) then DigitsPiece(text, p, q, classes.isDigit)
    else if !IsSpace(cp) then OthersThenNewlines(text, p, q, classes)
    else if cp == 0x20 && OtherAt(text, next, classes) then OthersThenNewlines(text, next, q, classes)
    else SpacePiece(text, p, q)
  }

  /** Up to three digits. */
  ghost predicate DigitsPiece(text: Text, p: nat, q: nat, isDigit: nat -> bool) {
    exists n: nat :: 1 <= n <= 3 && Run(text, p, q, isDigit, n) && (n == 3 || EndsAt(text, q, isDigit))
  }

  predicate LetterAt(text: Text, p: nat, classes: CharClasses) {
    p < |text| && Boundary(text, p) && classes.isLetter(At(text, p))
  }

  predicate OtherAt(text: Text, p: nat, classes: CharClasses) {
    p < |text| && Boundary(text, p) && Other(classes)(At(text, p))
  }

  /** The text from p to q consists of the pieces, one after the other, each from a start to an end that fits. */
  ghost predicate InPieces(fits: (nat, nat) -> bool, text: Text, p: nat, q: nat, pieces: seq<Text>)
    decreases |pieces|
  {
    if pieces == [] then p == q
    else
      var end := p + |pieces[0]|;
      && p < end <= |text| && pieces[0] == text[p..end] && fits(p, end)
      && InPieces(fits, text, end, q, pieces[1..])
  }

  /** The starts and ends of pieces of the kinds above. */
  ghost function PieceEnds(text: Text, classes: CharClasses): (nat, nat) -> bool {
    (p: nat, q: nat) => p < |text| && Boundary(text, p) && Piece(text, p, q, classes)
  }

  datatype CharClasses = CharClasses(isLetter: nat -> bool, isDigit: nat -> bool)

  function Other(classes: CharClasses): nat -> bool {
    (cp: nat) => !IsSpace(cp) && !classes.isLetter(cp) && !classes.isDigit(cp)
  }

  ghost predicate Partition(pieces: seq<Text>, text: Text) {
    Concat(pieces) == text && forall k :: 0 <= k < |pieces| ==> pieces[k] != []
  }

  /** The pieces are those that the text is cut into. */
  ghost predicate Cut(pieces: seq<Text>, text: Text, classes: CharClasses) {
    InPieces(PieceEnds(text, classes), text, 0, |text|, pieces)
  }
}

/** BPETokenizer::pre_tokenize (src/io/bpe_tokenizer.cpp): cutting a text into pieces. */
module PreTokenizers {
  import opened Bytes
  import opened ByteTables
  import opened Utf8
  import opened PreTokenizerSpec

  lemma {:induction false} RunAppend(text: Text, p: nat, q: nat, keep: nat -> bool, n: nat)
    requires Run(text, p, q, keep, n) && CharAt(text, q, keep)
    ensures Run(text, p, Next(text, q), keep, n + 1)
    decreases n
  {
    if n > 0 {
      RunAppend(text, Next(text, p), q, keep, n - 1);
    }
  }

  lemma {:induction false} RunLength(text: Text, p: nat, q: nat, keep: nat -> bool, n: nat)
    requires Run(text, p, q, keep, n)
    ensures q >= p + n
    decreases n
  {
    if n > 0 {
      RunLength(text, Next(text, p), q, keep, n - 1);
    }
  }

  // ---------------------------------------------------------------- a piece has one end

  lemma {:induction false} RunsAgree(text: Text, p: nat, q: nat, q': nat, keep: nat -> bool, n: nat, n': nat)
    requires Run(text, p, q, keep, n) && Run(text, p, q', keep, n') && n <= n'
    ensures Run(text, q, q', keep, n' - n)
    decreases n
  {
    if n > 0 {
      RunsAgree(text, Next(text, p), q, q', keep, n - 1, n' - 1);
    }
  }

  lemma LongestIsUnique(text: Text, p: nat, q: nat, q': nat, keep: nat -> bool)
    requires LongestRun(text, p, q, keep) && LongestRun(text, p, q', keep)
    ensures q == q'
  {
    var n :| Run(text, p, q, keep, n);
    var n' :| Run(text, p, q', keep, n');
    if n <= n' {
      RunsAgree(text, p, q, q', keep, n, n');
    } else {
      RunsAgree(text, p, q', q, keep, n', n);
    }
  }

  lemma DigitsAreUnique(text: Text, p: nat, q: nat, q': nat, keep: nat -> bool)
    requires DigitsPiece(text, p, q, keep) && DigitsPiece(text, p, q', keep)
    ensures q == q'
  {
    var n: nat :| 1 <= n <= 3 && Run(text, p, q, keep, n) && (n == 3 || EndsAt(text, q, keep));
    var n': nat :| 1 <= n' <= 3 && Run(text, p, q', keep, n') && (n' == 3 || EndsAt(text, q', keep));
    if n <= n' {
      RunsAgree(text, p, q, q', keep, n, n');
    } else {
      RunsAgree(text, p, q', q, keep, n', n);
    }
  }

  lemma OthersAreUnique(text: Text, p: nat, q: nat, q': nat, classes: CharClasses)
    requires OthersThenNewlines(text, p, q, classes) && OthersThenNewlines(text, p, q', classes)
    ensures q == q'
  {
    var m: nat :| LongestRun(text, p, m, Other(classes)) && LongestRun(text, m, q, IsNewline);
    var m': nat :| LongestRun(text, p, m', Other(classes)) && LongestRun(text, m', q', IsNewline);
    LongestIsUnique(text, p, m, m', Other(classes));
    LongestIsUnique(text, m, q, q', IsNewline);
  }

  lemma SpaceIsUnique(text: Text, p: nat, q: nat, q': nat)
    requires SpacePiece(text, p, q) && SpacePiece(text, p, q')
    ensures q == q'
  {
    var m: nat :| LongestRun(text, p, m, Blank()) && SpaceTail(text, m, q);
    var m': nat :| LongestRun(text, p, m', Blank()) && SpaceTail(text, m', q');
    LongestIsUnique(text, p, m, m', Blank());
    if m < |text| && IsNewline(At(text, m)) {
      LongestIsUnique(text, m, q, q', IsNewline);
    }
  }

  /** What a piece is determines where it ends. */
  lemma PieceIsUnique(text: Text, p: nat, q: nat, q': nat, classes: CharClasses)
    requires Boundary(text, p) && p < |text| && Piece(text, p, q, classes) && Piece(text, p, q', classes)
    ensures q == q'
  {
    if !ShortContraction(text, p) && !LongContraction(text, p) {
      PlainIsUnique(text, p, q, q', classes);
    }
  }

  lemma PlainIsUnique(text: Text, p: nat, q: nat, q': nat, classes: CharClasses)
    requires Boundary(text, p) && p < |text| && PlainPiece(text, p, q, classes) && PlainPiece(text, p, q', classes)
    ensures q == q'
  {
    var cp, next := At(text, p), Next(text, p);
    if classes.isLetter(cp) || (!IsSpace(cp) && !classes.isDigit(cp) && LetterAt(text, next, classes)) {
      LongestIsUnique(text, next, q, q', classes.isLetter);
    } else if classes.isDigit(cp) {
      DigitsAreUnique(text, p, q, q', classes.isDigit);
    } else if !IsSpace(cp) {
      OthersAreUnique(text, p, q, q', classes);
    } else if cp == 0x20 && OtherAt(text, next, classes) {
      OthersAreUnique(text, next, q, q', classes);
    } else {
      SpaceIsUnique(text, p, q, q');
    }
  }

  lemma NextBoundary(text: Text, p: nat)
    requires Boundary(text, p) && p < |text|
    ensures p + StepLen(text[p]) <= |text| && Boundary(text, p + StepLen(text[p]))
  {
    assert text[p..][StepLen(text[p])..] == text[p + StepLen(text[p])..];
  }

  lemma ContractionBoundary(text: Text, p: nat)
    requires Boundary(text, p) && p < |text| && text[p] < 0x80
    ensures p + MatchContraction(text, p) <= |text| && Boundary(text, p + MatchContraction(text, p))
  {
    var n := MatchContraction(text, p);
    if n > 0 {
      DropAscii(text[p..], n);
      assert text[p..][n..] == text[p + n..];
    }
  }

  /** In scannable text only a one-byte character decodes to an ASCII code. */
  lemma AsciiCode(t: Text)
    requires StartsWithChar(t) && StepLen(t[0]) <= |t|
    ensures DecodeAt(t) < 0x80 ==> t[0] < 0x80 && StepLen(t[0]) == 1
  {
  }

  /** One character more in a run. */
  method StepOver(text: Text, ghost start: nat, p: nat, keep: nat -> bool, ghost n: nat) returns (q: nat)
    requires Run(text, start, p, keep, n) && p < |text| && Boundary(text, p) && keep(At(text, p))
    ensures p < q <= |text| && Boundary(text, q) && Run(text, start, q, keep, n + 1)
  {
    NextBoundary(text, p);
    RunAppend(text, start, p, keep, n);
    q := p + StepLen(text[p]);
  }

  /** The inner loops: advance over characters that satisfy the predicate. Only the loop over digits stops at
      three; the others pass a limit they cannot reach. */
  method SkipWhile(text: Text, start: nat, keep: nat -> bool, limit: nat) returns (p: nat, ghost count: nat)
    requires Boundary(text, start)
    ensures start <= p && Boundary(text, p)
    ensures start < |text| && keep(At(text, start)) && limit > 0 ==> p > start && count > 0
    ensures Run(text, start, p, keep, count) && count <= limit && (count == limit || EndsAt(text, p, keep))
  {
    p := start;
    var n := 0;
    while p < |text| && n < limit
      invariant start <= p && Boundary(text, p) && n <= limit && Run(text, start, p, keep, n)
      invariant n > 0 ==> p > start
      decreases |text| - p
    {
      if !keep(At(text, p)) {
        break;
      }
      p := StepOver(text, start, p, keep, n);
      n := n + 1;
    }
    count := n;
  }

  /** A loop without a limit takes the longest run. */
  method SkipAll(text: Text, start: nat, keep: nat -> bool) returns (p: nat)
    requires Boundary(text, start)
    ensures start <= p && LongestRun(text, start, p, keep)
    ensures start < |text| && keep(At(text, start)) ==> p > start
  {
    ghost var count;
    p, count := SkipWhile(text, start, keep, |text|);
    RunLength(text, start, p, keep, count);
  }

  lemma StartsTwo(text: Text, p: nat, s: string)
    requires |s| == 2 && s[0] < 128 as char && s[1] < 128 as char
    ensures Starts(text, p, s) <==>
              p + 2 <= |text| && text[p] as int == s[0] as int && text[p + 1] as int == s[1] as int
  {
    if p + 2 <= |text| {
      assert text[p..p + 2] == [text[p], text[p + 1]];
    }
  }

  lemma StartsThree(text: Text, p: nat, s: string)
    requires |s| == 3 && s[0] < 128 as char && s[1] < 128 as char && s[2] < 128 as char
    ensures Starts(text, p, s) <==>
              p + 3 <= |text| && text[p] as int == s[0] as int && text[p + 1] as int == s[1] as int &&
              text[p + 2] as int == s[2] as int
  {
    if p + 3 <= |text| {
      assert text[p..p + 3] == [text[p], text[p + 1], text[p + 2]];
    }
  }

  lemma ShortFound(text: Text, p: nat)
    ensures ShortContraction(text, p) <==>
              p + 2 <= |text| && text[p] == 0x27 && text[p + 1] in {115, 116, 100, 109, 83, 84, 68, 77}
  {
    StartsTwo(text, p, "'s");
    StartsTwo(text, p, "'t");
    StartsTwo(text, p, "'d");
    StartsTwo(text, p, "'m");
    StartsTwo(text, p, "'S");
    StartsTwo(text, p, "'T");
    StartsTwo(text, p, "'D");
    StartsTwo(text, p, "'M");
  }

  lemma LongFound(text: Text, p: nat)
    ensures LongContraction(text, p) <==>
              p + 3 <= |text| && text[p] == 0x27 && (|| (text[p + 1] in {108, 76} && text[p + 2] in {108, 76})
                                                     || (text[p + 1] in {118, 86, 114, 82} && text[p + 2] in {101, 69}))
  {
    StartsThree(text, p, "'ll");
    StartsThree(text, p, "'lL");
    StartsThree(text, p, "'Ll");
    StartsThree(text, p, "'LL");
    StartsThree(text, p, "'ve");
    StartsThree(text, p, "'vE");
    StartsThree(text, p, "'Ve");
    StartsThree(text, p, "'VE");
    StartsThree(text, p, "'re");
    StartsThree(text, p, "'rE");
    StartsThree(text, p, "'Re");
    StartsThree(text, p, "'RE");
  }

  /** match_contraction finds exactly the contractions. */
  lemma ContractionFound(text: Text, p: nat)
    requires p < |text|
    ensures ShortContraction(text, p) <==> text[p] == 0x27 && MatchContraction(text, p) == 2
    ensures LongContraction(text, p) <==> text[p] == 0x27 && MatchContraction(text, p) == 3
    ensures MatchContraction(text, p) in {0, 2, 3}
  {
    ShortFound(text, p);
    LongFound(text, p);
  }

  /** One iteration of the main loop: the end of the piece that starts at p. */
  method PieceEnd(text: Text, p: nat, classes: CharClasses) returns (q: nat)
    requires Boundary(text, p) && p < |text|
    ensures p < q && Boundary(text, q) && Piece(text, p, q, classes)
  {
    AsciiCode(text[p..]);
    ContractionFound(text, p);
    if At(text, p) == 0x27 && MatchContraction(text, p) > 0 {
      ContractionBoundary(text, p);
      return p + MatchContraction(text, p);
    }
    q := PlainEnd(text, p, classes);
  }

  /** The branches for what is no contraction. */
  method PlainEnd(text: Text, p: nat, classes: CharClasses) returns (q: nat)
    requires Boundary(text, p) && p < |text|
    ensures p < q && Boundary(text, q) && PlainPiece(text, p, q, classes)
  {
    var cp := At(text, p);
    var clen := StepLen(text[p]);
    NextBoundary(text, p);
    if classes.isLetter(cp) {
      q := SkipAll(text, p + clen, classes.isLetter);
      return;
    }
    if !IsSpace(cp) && !classes.isDigit(cp) && p + clen < |text| && classes.isLetter(At(text, p + clen)) {
      q := SkipAll(text, p + clen, classes.isLetter);
      return;
    }
    if classes.isDigit(cp) {
      ghost var count;
      q, count := SkipWhile(text, p, classes.isDigit, 3);
      return;
    }
    q := SpaceOrOtherEnd(text, p, classes);
  }

  /** The branches for a character that is neither a letter nor a digit, in front of no letter, and no contraction. */
  method SpaceOrOtherEnd(text: Text, p: nat, classes: CharClasses) returns (q: nat)
    requires Boundary(text, p) && p < |text|
    requires !classes.isLetter(At(text, p)) && !classes.isDigit(At(text, p))
    ensures p < q && Boundary(text, q)
    ensures var cp, next := At(text, p), Next(text, p);
            if !IsSpace(cp) then OthersThenNewlines(text, p, q, classes)
            else if cp == 0x20 && OtherAt(text, next, classes) then OthersThenNewlines(text, next, q, classes)
            else SpacePiece(text, p, q)
  {
    var cp := At(text, p);
    NextBoundary(text, p);
    AsciiCode(text[p..]);
    if !IsSpace(cp) {
      q := OthersEnd(text, p, classes);
      return;
    }
    if cp == 0x20 && p + 1 < |text| && Other(classes)(At(text, p + 1)) {
      q := OthersEnd(text, p + 1, classes);
      return;
    }
    q := SpaceEnd(text, p);
  }

  /** A run of other characters, with the newlines behind it. */
  method OthersEnd(text: Text, p: nat, classes: CharClasses) returns (q: nat)
    requires Boundary(text, p) && p < |text| && Other(classes)(At(text, p))
    ensures p < q && Boundary(text, q) && OthersThenNewlines(text, p, q, classes)
  {
    var m := SkipAll(text, p, Other(classes));
    q := SkipAll(text, m, IsNewline);
  }

  /** White space up to and including newlines; without a newline behind it the source takes the whole rest of the
      text. */
  method SpaceEnd(text: Text, p: nat) returns (q: nat)
    requires Boundary(text, p) && p < |text|
    ensures p < q && Boundary(text, q) && SpacePiece(text, p, q)
  {
    var m := SkipAll(text, p, Blank());
    if m < |text| && IsNewline(At(text, m)) {
      q := SkipAll(text, m, IsNewline);
      return;
    }
    assert text[|text|..] == [];
    q := |text|;
  }

  /** A space in front of a letter or a digit, anywhere in a text, makes all of the rest one piece. */
  lemma SpaceTakesRest(text: Text, p: nat, q: nat, classes: CharClasses)
    requires Boundary(text, p) && p < |text| && At(text, p) == 0x20
    requires !classes.isLetter(0x20) && !classes.isDigit(0x20)
    requires p + 1 < |text| && Boundary(text, p + 1) && !IsSpace(At(text, p + 1)) && !Other(classes)(At(text, p + 1))
    requires Piece(text, p, q, classes)
    ensures q == |text|
  {
    AsciiCode(text[p..]);
    ContractionFound(text, p);
    var m: nat :| LongestRun(text, p, m, Blank()) && SpaceTail(text, m, q);
    var n :| Run(text, p, m, Blank(), n);
    OneBlank(text, p, m, n);
  }

  lemma OneBlank(text: Text, p: nat, m: nat, n: nat)
    requires Boundary(text, p) && p + 1 < |text| && text[p] == 0x20 && At(text, p) == 0x20
    requires Boundary(text, p + 1) && !IsSpace(At(text, p + 1))
    requires EndsAt(text, m, Blank()) && Run(text, p, m, Blank(), n)
    ensures m == p + 1
  {
    if n > 1 {
      assert false;
    }
  }

  lemma {:induction false} OnePieceMore(fits: (nat, nat) -> bool, text: Text, p: nat, q: nat, pieces: seq<Text>,
                                        end: nat)
    requires InPieces(fits, text, p, q, pieces) && q < end <= |text| && fits(q, end)
    ensures InPieces(fits, text, p, end, pieces + [text[q..end]])
    decreases |pieces|
  {
    var longer := pieces + [text[q..end]];
    if pieces == [] {
      assert longer[1..] == [];
    } else {
      assert longer[1..] == pieces[1..] + [text[q..end]];
      OnePieceMore(fits, text, p + |pieces[0]|, q, pieces[1..], end);
    }
  }

  lemma {:induction false} SamePieces(fits: (nat, nat) -> bool, text: Text, p: nat, a: seq<Text>, b: seq<Text>)
    requires InPieces(fits, text, p, |text|, a) && InPieces(fits, text, p, |text|, b)
    requires forall s, q, q' :: fits(s, q) && fits(s, q') ==> q == q'
    ensures a == b
    decreases |a|
  {
    if a != [] && b != [] {
      SamePieces(fits, text, p + |a[0]|, a[1..], b[1..]);
      assert a == [a[0]] + a[1..] && b == [b[0]] + b[1..];
    }
  }

  /** There is only one way to cut a text. */
  lemma CutIsUnique(text: Text, text': Text, a: seq<Text>, b: seq<Text>, classes: CharClasses)
    requires text == text' && Cut(a, text, classes) && Cut(b, text', classes)
    ensures a == b
  {
    var fits := PieceEnds(text, classes);
    forall s, q, q' | fits(s, q) && fits(s, q') ensures q == q' {
      PieceIsUnique(text, s, q, q', classes);
    }
    SamePieces(fits, text, 0, a, b);
  }

  /** Between two boundaries the text is scannable. */
  lemma BetweenBoundaries(text: Text, p: nat, q: nat)
    requires p <= q && Boundary(text, p) && Boundary(text, q)
    ensures Scannable(text[p..q])
  {
    var rest := text[p..];
    if q < |text| {
      assert rest[q - p] == text[q..][0];
      CutAtLead(rest, q - p);
      assert rest[..q - p] == text[p..q];
    } else {
      assert text[p..q] == rest;
    }
  }

  lemma PartitionMore(text: Text, pieces: seq<Text>, p: nat, q: nat)
    requires p < q <= |text| && Partition(pieces, text[..p]) && Boundary(text, p) && Boundary(text, q)
    requires forall k :: 0 <= k < |pieces| ==> Scannable(pieces[k])
    ensures Partition(pieces + [text[p..q]], text[..q]) && Scannable(text[p..q])
    ensures forall k :: 0 <= k < |pieces + [text[p..q]]| ==> Scannable((pieces + [text[p..q]])[k])
  {
    BetweenBoundaries(text, p, q);
    assert (pieces + [text[p..q]])[..|pieces|] == pieces;
    assert text[..q] == text[..p] + text[p..q];
  }

  /** The text is cut into pieces of the kinds that Piece lists. They concatenate back to the text, none is empty and
      each is scannable; every iteration advances. */
  method PreTokenize(text: Text, classes: CharClasses) returns (pieces: seq<Text>)
    requires Scannable(text)
    ensures Cut(pieces, text, classes) && Partition(pieces, text)
    ensures forall k :: 0 <= k < |pieces| ==> Scannable(pieces[k])
  {
    pieces := [];
    var p := 0;
    while p < |text|
      invariant Boundary(text, p) && InPieces(PieceEnds(text, classes), text, 0, p, pieces)
      invariant Partition(pieces, text[..p]) && forall k :: 0 <= k < |pieces| ==> Scannable(pieces[k])
      decreases |text| - p
    {
      var q := PieceEnd(text, p, classes);
      OnePieceMore(PieceEnds(text, classes), text, 0, p, pieces, q);
      PartitionMore(text, pieces, p, q);
      pieces := pieces + [text[p..q]];
      p := q;
    }
    assert text[..p] == text;
  }
}
