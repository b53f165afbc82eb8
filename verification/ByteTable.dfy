/**
  The GPT-2 byte/code-point table (src/io/bpe_tokenizer.cpp): every byte gets a printable code point, and
  token text is the UTF-8 encoding of those code points.
*/
module ByteTables {
  import opened Sequences
  import opened Bytes
  import opened BpeSpec

  predicate IsDirect(b: nat) {
    33 <= b <= 126 || 161 <= b <= 172 || 174 <= b <= 255
  }

  /** How many bytes below b have no code point of their own. */
  function IndirectBelow(b: nat): nat {
    if b == 0 then 0 else IndirectBelow(b - 1) + if IsDirect(b - 1) then 0 else 1
  }

  /** g_byte_to_unicode: printable bytes stand for themselves, the others for 256, 257, ... */
  function CodePoint(b: Byte): nat {
    if IsDirect(b as nat) then b as nat else 256 + IndirectBelow(b as nat)
  }

  lemma {:induction false} IndirectBounds(b: nat, c: nat)
    requires b <= c <= 256
    ensures IndirectBelow(b) <= IndirectBelow(c) <= IndirectBelow(b) + (c - b)
    ensures b < c && !IsDirect(b) ==> IndirectBelow(b) < IndirectBelow(c)
    decreases c
  {
    if b < c {
      IndirectBounds(b, c - 1);
    }
  }

  lemma CodePointBounds(b: Byte)
    ensures CodePoint(b) < 512
    ensures CodePoint(b) < 0x80 ==> CodePoint(b) == b as nat
  {
    IndirectBounds(0, b as nat);
  }

  /** Different bytes have different code points. */
  lemma CodePointInjective(a: Byte, b: Byte)
    requires CodePoint(a) == CodePoint(b)
    ensures a == b
  {
    if a < b {
      IndirectBounds(a as nat, b as nat);
    } else if b < a {
      IndirectBounds(b as nat, a as nat);
    }
  }

  /** g_unicode_to_byte: the inverse table, with 0xFF for code points that stand for no byte. */
  ghost predicate InverseTable(toByte: seq<Byte>) {
    && |toByte| == 0x1_0000
    && (forall b: Byte :: toByte[CodePointIndex(b)] == b)
    && (forall cp: nat :: cp < 0x1_0000 && (forall b: Byte :: CodePoint(b) != cp) ==> toByte[cp] == 0xFF)
  }

  function CodePointIndex(b: Byte): (cp: nat)
    ensures cp == CodePoint(b) && cp < 512
  {
    CodePointBounds(b);
    CodePoint(b)
  }

  /** No smaller byte has the same code point. */
  lemma NewCodePoint(b: Byte, cp: nat)
    requires cp == CodePoint(b)
    ensures forall c: Byte :: c < b ==> CodePointIndex(c) != cp
  {
    forall c: Byte | c < b ensures CodePointIndex(c) != cp {
      if CodePoint(c) == cp {
        CodePointInjective(c, b);
      }
    }
  }

  /** The tables after the first b bytes. */
  ghost predicate TablesUpTo(toUnicode: seq<nat>, toByte: seq<Byte>, b: nat) {
    && |toUnicode| == b <= 256 && |toByte| == 0x1_0000
    && (forall c: Byte :: c as nat < b ==> toUnicode[c as nat] == CodePoint(c))
    && (forall c: Byte :: c as nat < b ==> toByte[CodePointIndex(c)] == c)
    && (forall cp: nat :: cp < 0x1_0000 && (forall c: Byte :: CodePoint(c) != cp) ==> toByte[cp] == 0xFF)
  }

  lemma TablesNext(toUnicode: seq<nat>, toByte: seq<Byte>, b: Byte, cp: nat)
    requires TablesUpTo(toUnicode, toByte, b as nat) && cp == CodePoint(b) < 512
    ensures TablesUpTo(toUnicode + [cp], toByte[cp := b], b as nat + 1)
  {
    NewCodePoint(b, cp);
  }

  // ---------------------------------------------------------------- the tables in numbers

  lemma {:induction false} IndirectCount(b: nat)
    requires b <= 256
    ensures IndirectBelow(b) == if b <= 33 then b else if b <= 127 then 33 else if b <= 161 then b - 94
                                else if b <= 173 then 67 else 68
  {
    if b > 0 {
      IndirectCount(b - 1);
    }
  }

  /** The code point of every byte: 33..126, 161..172 and 174..255 stand for themselves, the other 68 bytes for
      256..323. */
  lemma CodePointOf(b: Byte)
    ensures 33 <= b <= 126 || 161 <= b <= 172 || 174 <= b <= 255 ==> CodePoint(b) == b as nat
    ensures b <= 32 ==> CodePoint(b) == 256 + b as nat
    ensures 127 <= b <= 160 ==> CodePoint(b) == 289 + (b as nat - 127)
    ensures b == 173 ==> CodePoint(b) == 323
  {
    IndirectCount(b as nat);
  }

  /** The 68 bytes without a code point of their own take 256..323 in increasing order, and all of these. */
  lemma IndirectInOrder(a: Byte, b: Byte, cp: nat)
    requires 256 <= cp <= 323
    ensures a < b && (a <= 32 || 127 <= a <= 160 || a == 173) && (b <= 32 || 127 <= b <= 160 || b == 173) ==>
              256 <= CodePoint(a) < CodePoint(b) <= 323
    ensures exists c: Byte :: (c <= 32 || 127 <= c <= 160 || c == 173) && CodePoint(c) == cp
  {
    CodePointOf(a);
    CodePointOf(b);
    var c: Byte := if cp <= 288 then (cp - 256) as Byte else if cp <= 322 then (cp - 162) as Byte else 173;
    CodePointOf(c);
  }

  /** Both tables, entry by entry. */
  ghost predicate TablesInNumbers(toUnicode: seq<nat>, toByte: seq<Byte>) {
    && |toUnicode| == 256 && |toByte| == 65536
    && (forall b :: 0 <= b < 256 ==>
          toUnicode[b] == if b <= 32 then b + 256 else if b <= 126 then b else if b <= 160 then b + 162
                          else if b == 173 then 323 else b)
    && (forall cp :: 0 <= cp < 65536 ==>
          toByte[cp] as int == if 33 <= cp <= 126 || 161 <= cp <= 172 || 174 <= cp <= 255 then cp
                               else if 256 <= cp <= 288 then cp - 256
                               else if 289 <= cp <= 322 then cp - 162
                               else if cp == 323 then 173
                               else 0xFF)
  }

  lemma TablesAreThese(toUnicode: seq<nat>, toByte: seq<Byte>)
    requires |toUnicode| == 256 && (forall b: Byte :: toUnicode[b as nat] == CodePoint(b)) && InverseTable(toByte)
    ensures TablesInNumbers(toUnicode, toByte)
  {
    forall b | 0 <= b < 256
      ensures toUnicode[b] == if b <= 32 then b + 256 else if b <= 126 then b else if b <= 160 then b + 162
                              else if b == 173 then 323 else b
    {
      CodePointOf(b as Byte);
      assert toUnicode[(b as Byte) as nat] == CodePoint(b as Byte);
    }
    forall cp | 0 <= cp < 65536
      ensures toByte[cp] as int == if 33 <= cp <= 126 || 161 <= cp <= 172 || 174 <= cp <= 255 then cp
                                   else if 256 <= cp <= 288 then cp - 256
                                   else if 289 <= cp <= 322 then cp - 162
                                   else if cp == 323 then 173
                                   else 0xFF
    {
      InverseEntry(toByte, cp);
    }
  }

  lemma InverseEntry(toByte: seq<Byte>, cp: nat)
    requires InverseTable(toByte) && cp < 65536
    ensures toByte[cp] as int == if 33 <= cp <= 126 || 161 <= cp <= 172 || 174 <= cp <= 255 then cp
                                 else if 256 <= cp <= 288 then cp - 256
                                 else if 289 <= cp <= 322 then cp - 162
                                 else if cp == 323 then 173
                                 else 0xFF
  {
    if 33 <= cp <= 126 || 161 <= cp <= 172 || 174 <= cp <= 255 || 256 <= cp <= 323 {
      var b: Byte := if cp <= 255 then cp as Byte else if cp <= 288 then (cp - 256) as Byte
                     else if cp <= 322 then (cp - 162) as Byte else 173;
      CodePointOf(b);
      assert toByte[CodePointIndex(b)] == b;
    } else {
      forall b: Byte ensures CodePoint(b) != cp {
        CodePointOf(b);
      }
    }
  }

  /** init_byte_unicode_table. */
  method InitTable() returns (toUnicode: seq<nat>, toByte: seq<Byte>)
    ensures |toUnicode| == 256 && forall b: Byte :: toUnicode[b as nat] == CodePoint(b)
    ensures InverseTable(toByte) && TablesInNumbers(toUnicode, toByte)
  {
    toUnicode := [];
    toByte := seq(0x1_0000, i => 0xFF);
    var n := 0;
    for b := 0 to 256
      invariant TablesUpTo(toUnicode, toByte, b) && n == IndirectBelow(b)
    {
      var byte := b as Byte;
      var cp := if IsDirect(b) then b else 256 + n;
      CodePointBounds(byte);
      TablesNext(toUnicode, toByte, byte, cp);
      toUnicode := toUnicode + [cp];
      toByte := toByte[cp := byte];
      if !IsDirect(b) {
        n := n + 1;
      }
    }
    TablesAreThese(toUnicode, toByte);
  }

  /** The UTF-8 encoding that bytes_to_unicode writes for one code point. */
  function EncodeCodePoint(cp: nat): Text
    requires cp < 0x20_0000
  {
    if cp < 0x80 then [cp as Byte]
    else if cp < 0x800 then [(0xC0 + cp / 64) as Byte, (0x80 + cp % 64) as Byte]
    else if cp < 0x1_0000 then
      [(0xE0 + cp / 4096) as Byte, (0x80 + cp / 64 % 64) as Byte, (0x80 + cp % 64) as Byte]
    else
      [(0xF0 + cp / 262144) as Byte, (0x80 + cp / 4096 % 64) as Byte, (0x80 + cp / 64 % 64) as Byte,
       (0x80 + cp % 64) as Byte]
  }

  function MapByte(b: Byte): (r: Text)
    ensures r != [] && |r| <= 2
  {
    CodePointBounds(b);
    EncodeCodePoint(CodePoint(b))
  }

  /** The bytes that a byte is mapped to. */
  lemma MappedByte(b: Byte)
    ensures MapByte(b) == if b <= 32 then [0xC4, 0x80 + b]
                          else if b <= 126 then [b]
                          else if b <= 157 then [0xC4, b + 34]
                          else if b <= 160 then [0xC5, b - 30]
                          else if b == 173 then [0xC5, 0x83]
                          else if b <= 191 then [0xC2, b]
                          else [0xC3, b - 64]
  {
    CodePointOf(b);
  }

  /** The token text of a byte string. */
  function MapText(raw: Text): Text {
    if raw == [] then [] else MapText(raw[..|raw| - 1]) + MapByte(raw[|raw| - 1])
  }

  /** bytes_to_unicode. */
  method BytesToUnicode(toUnicode: seq<nat>, raw: Text) returns (out: Text)
    requires |toUnicode| == 256 && forall b: Byte :: toUnicode[b as nat] == CodePoint(b)
    ensures out == MapText(raw)
  {
    out := [];
    for i := 0 to |raw|
      invariant out == MapText(raw[..i])
    {
      CodePointBounds(raw[i]);
      assert raw[..i + 1][..i] == raw[..i];
      out := out + EncodeCodePoint(toUnicode[raw[i] as nat]);
    }
    assert raw[..|raw|] == raw;
  }

  /** How far unicode_to_bytes advances at a leading byte. */
  function StepLen(c: Byte): nat {
    if c < 0x80 then 1 else if 0xC0 <= c < 0xE0 then 2 else if 0xE0 <= c < 0xF0 then 3 else 4
  }

  /** No step of unicode_to_bytes leaves the token. */
  predicate Steps(mapped: Text) {
    mapped == [] || (StepLen(mapped[0]) <= |mapped| && Steps(mapped[StepLen(mapped[0])..]))
  }

  function Low6(c: Byte): nat { c as nat % 64 }

  function DecodeAt(mapped: Text): nat
    requires mapped != [] && StepLen(mapped[0]) <= |mapped|
  {
    var c := mapped[0] as nat;
    if c < 0x80 then c
    else if 0xC0 <= c < 0xE0 then (c % 32) * 64 + Low6(mapped[1])
    else if 0xE0 <= c < 0xF0 then (c % 16) * 4096 + Low6(mapped[1]) * 64 + Low6(mapped[2])
    else (c % 8) * 262144 + Low6(mapped[1]) * 4096 + Low6(mapped[2]) * 64 + Low6(mapped[3])
  }

  function Emit(toByte: seq<Byte>, cp: nat): Text
    requires |toByte| == 0x1_0000
  {
    if cp < 0x1_0000 && toByte[cp] != 0xFF then [toByte[cp]] else []
  }

  function Unmap(toByte: seq<Byte>, mapped: Text): Text
    requires |toByte| == 0x1_0000 && Steps(mapped)
  {
    if mapped == [] then []
    else Emit(toByte, DecodeAt(mapped)) + Unmap(toByte, mapped[StepLen(mapped[0])..])
  }

  lemma UnmapStep(toByte: seq<Byte>, mapped: Text, p: nat)
    requires |toByte| == 0x1_0000 && p < |mapped| && Steps(mapped[p..])
    ensures p + StepLen(mapped[p]) <= |mapped| && Steps(mapped[p + StepLen(mapped[p])..])
    ensures Unmap(toByte, mapped[p..]) ==
            Emit(toByte, DecodeAt(mapped[p..])) + Unmap(toByte, mapped[p + StepLen(mapped[p])..])
  {
    assert mapped[p..][StepLen(mapped[p])..] == mapped[p + StepLen(mapped[p])..];
  }

  lemma UnmapTurn(toByte: seq<Byte>, mapped: Text, p: nat, out: Text)
    requires |toByte| == 0x1_0000 && p < |mapped| && Steps(mapped[p..])
    ensures var q := p + StepLen(mapped[p]);
            && q <= |mapped| && Steps(mapped[q..])
            && (out + Emit(toByte, DecodeAt(mapped[p..]))) + Unmap(toByte, mapped[q..]) ==
                 out + Unmap(toByte, mapped[p..])
  {
    UnmapStep(toByte, mapped, p);
    Associative(out, Emit(toByte, DecodeAt(mapped[p..])), Unmap(toByte, mapped[p + StepLen(mapped[p])..]));
  }

  /** unicode_to_bytes. */
  method UnicodeToBytes(toByte: seq<Byte>, mapped: Text) returns (out: Text)
    requires |toByte| == 0x1_0000 && Steps(mapped)
    ensures out == Unmap(toByte, mapped)
  {
    out := [];
    var p := 0;
    while p < |mapped|
      invariant p <= |mapped| && Steps(mapped[p..])
      invariant out + Unmap(toByte, mapped[p..]) == Unmap(toByte, mapped)
    {
      p, out := UnmapNext(toByte, mapped, p, out);
    }
  }

  /** One turn of the loop. */
  method UnmapNext(toByte: seq<Byte>, mapped: Text, p: nat, out: Text) returns (q: nat, out': Text)
    requires |toByte| == 0x1_0000 && p < |mapped| && Steps(mapped[p..])
    ensures p < q <= |mapped| && Steps(mapped[q..])
    ensures out' + Unmap(toByte, mapped[q..]) == out + Unmap(toByte, mapped[p..])
  {
    UnmapTurn(toByte, mapped, p, out);
    q, out' := p + StepLen(mapped[p]), out + Emit(toByte, DecodeAt(mapped[p..]));
  }

  // ---------------------------------------------------------------- the two directions

  /** Reading one mapped byte in front of other text. */
  lemma MappedByteFirst(b: Byte, rest: Text)
    ensures var t := MapByte(b) + rest;
            && StepLen(t[0]) == CharLen(t[0]) == |MapByte(b)|
            && DecodeAt(t) == CodePoint(b) && t[|MapByte(b)|..] == rest
  {
    CodePointBounds(b);
    EncodeThenDecodeAt(CodePoint(b), rest);
  }

  /** The other recursion on mapped text, from the front. */
  lemma {:induction false} MapTextFront(b: Byte, raw: Text)
    ensures MapText([b] + raw) == MapByte(b) + MapText(raw)
  {
    var all := [b] + raw;
    if raw == [] {
      assert all[..0] == [];
    } else {
      assert all[..|all| - 1] == [b] + raw[..|raw| - 1];
      MapTextFront(b, raw[..|raw| - 1]);
    }
  }

  lemma {:induction false} MapTextAppend(a: Text, b: Text)
    ensures MapText(a + b) == MapText(a) + MapText(b)
  {
    if b == [] {
      assert a + b == a;
    } else {
      assert (a + b)[..|a + b| - 1] == a + b[..|b| - 1];
      MapTextAppend(a, b[..|b| - 1]);
    }
  }

  function KeepBytes(raw: Text): Text {
    if raw == [] then [] else (if raw[0] == 0xFF then [] else [raw[0]]) + KeepBytes(raw[1..])
  }

  /** Mapping and unmapping returns the bytes, except that 0xFF is dropped: it equals the table's marker. */
  lemma {:induction false} UnmapMap(toByte: seq<Byte>, raw: Text)
    requires InverseTable(toByte)
    ensures Steps(MapText(raw)) && Unmap(toByte, MapText(raw)) == KeepBytes(raw)
  {
    if raw != [] {
      var b, rest := raw[0], raw[1..];
      assert raw == [b] + rest;
      MapTextFront(b, rest);
      UnmapMap(toByte, rest);
      MappedByteFirst(b, MapText(rest));
      assert toByte[CodePointIndex(b)] == b;
    }
  }

  lemma {:induction false} KeepLength(raw: Text)
    ensures |KeepBytes(raw)| <= |raw| && (|KeepBytes(raw)| == |raw| <==> 0xFF !in raw)
    ensures 0xFF !in raw ==> KeepBytes(raw) == raw
  {
    if raw != [] {
      assert raw == [raw[0]] + raw[1..];
      KeepLength(raw[1..]);
    }
  }

  /** A byte string survives the mapping exactly when it does not contain 0xFF. */
  lemma MapRoundTrip(toByte: seq<Byte>, raw: Text)
    requires InverseTable(toByte)
    ensures Steps(MapText(raw))
    ensures Unmap(toByte, MapText(raw)) == raw <==> 0xFF !in raw
  {
    UnmapMap(toByte, raw);
    KeepLength(raw);
  }

  function MapBytes(raw: Text): seq<Text> {
    if raw == [] then [] else [MapByte(raw[0])] + MapBytes(raw[1..])
  }

  /** The characters of mapped text are the mapped bytes. */
  lemma {:induction false} SplitMapped(raw: Text)
    ensures WellSplit(MapText(raw)) && SplitChars(MapText(raw)) == MapBytes(raw)
  {
    if raw != [] {
      var b, rest := raw[0], raw[1..];
      assert raw == [b] + rest;
      MapTextFront(b, rest);
      SplitMapped(rest);
      MappedByteFirst(b, MapText(rest));
      var t := MapByte(b) + MapText(rest);
      assert t[..|MapByte(b)|] == MapByte(b);
    }
  }

  /** A space in front of a letter: the two bytes of U+0120 and the letter. */
  lemma MappedSpace()
    ensures MapText([0x20]) == [0xC4, 0xA0] && MapText([0x20, 0x61]) == [0xC4, 0xA0, 0x61]
  {
    MappedByte(0x20);
    MappedByte(0x61);
    assert [0x20 as Byte][..0] == [] && [0x20 as Byte, 0x61][..1] == [0x20];
  }

  // ---------------------------------------------------------------- UTF-8

  ghost predicate ReadsBack(cp: nat, rest: Text)
    requires cp < 0x20_0000
  {
    var t := EncodeCodePoint(cp) + rest;
    StepLen(t[0]) == |EncodeCodePoint(cp)| && DecodeAt(t) == cp && t[|EncodeCodePoint(cp)|..] == rest
  }

  lemma ShortReadsBack(cp: nat, rest: Text)
    requires cp < 0x800
    ensures ReadsBack(cp, rest)
  {
    var t := EncodeCodePoint(cp) + rest;
    if 0x80 <= cp {
      assert t[0] as nat == 0xC0 + cp / 64 && t[1] as nat == 0x80 + cp % 64;
    }
  }

  lemma ThreeReadBack(cp: nat, rest: Text)
    requires 0x800 <= cp < 0x1_0000
    ensures ReadsBack(cp, rest)
  {
    var t := EncodeCodePoint(cp) + rest;
    ThreeByteDigits(cp);
    assert t[0] as nat == 0xE0 + cp / 4096 && t[1] as nat == 0x80 + cp / 64 % 64 && t[2] as nat == 0x80 + cp % 64;
  }

  lemma FourReadBack(cp: nat, rest: Text)
    requires 0x1_0000 <= cp < 0x20_0000
    ensures ReadsBack(cp, rest)
  {
    var t := EncodeCodePoint(cp) + rest;
    FourByteDigits(cp);
    assert t[0] as nat == 0xF0 + cp / 262144 && t[1] as nat == 0x80 + cp / 4096 % 64;
    assert t[2] as nat == 0x80 + cp / 64 % 64 && t[3] as nat == 0x80 + cp % 64;
  }

  /** Reading what was written: every code point up to 21 bits, with any text behind it. */
  lemma EncodeThenDecodeAt(cp: nat, rest: Text)
    requires cp < 0x20_0000
    ensures var t := EncodeCodePoint(cp) + rest;
            StepLen(t[0]) == |EncodeCodePoint(cp)| && DecodeAt(t) == cp && t[|EncodeCodePoint(cp)|..] == rest
  {
    if cp < 0x800 {
      ShortReadsBack(cp, rest);
    } else if cp < 0x1_0000 {
      ThreeReadBack(cp, rest);
    } else {
      FourReadBack(cp, rest);
    }
  }

  lemma ThreeByteDigits(cp: nat)
    requires 0x800 <= cp < 0x1_0000
    ensures (0xE0 + cp / 4096) % 16 * 4096 + (0x80 + cp / 64 % 64) % 64 * 64 + (0x80 + cp % 64) % 64 == cp
    ensures 0xE0 <= 0xE0 + cp / 4096 < 0xF0
  {
    DivideAgain(cp);
    SixBits(cp / 64 % 64);
    SixBits(cp % 64);
    assert (0xE0 + cp / 4096) % 16 == cp / 4096;
  }

  lemma FourByteDigits(cp: nat)
    requires 0x1_0000 <= cp < 0x20_0000
    ensures (0xF0 + cp / 262144) % 8 * 262144 + (0x80 + cp / 4096 % 64) % 64 * 4096 +
            (0x80 + cp / 64 % 64) % 64 * 64 + (0x80 + cp % 64) % 64 == cp
    ensures 0xF0 <= 0xF0 + cp / 262144 < 0xF8
  {
    DivideAgain(cp);
    DivideAgain(cp / 64);
    assert cp / 262144 == cp / 4096 / 64;
    SixBits(cp / 4096 % 64);
    SixBits(cp / 64 % 64);
    SixBits(cp % 64);
    assert (0xF0 + cp / 262144) % 8 == cp / 262144;
  }

  lemma DivideAgain(x: nat)
    ensures x / 4096 == x / 64 / 64
  {
  }

  lemma SixBits(d: nat)
    requires d < 64
    ensures (0x80 + d) % 64 == d
  {
  }

  /** One character of each length: e with acute accent, the euro sign and a smiling face. */
  lemma EncodedCharacters()
    ensures EncodeCodePoint(0x65) == [0x65] && EncodeCodePoint(0xE9) == [0xC3, 0xA9]
    ensures EncodeCodePoint(0x20AC) == [0xE2, 0x82, 0xAC]
    ensures EncodeCodePoint(0x1F600) == [0xF0, 0x9F, 0x98, 0x80]
  {
  }
}
