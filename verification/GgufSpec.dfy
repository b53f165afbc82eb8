/** The GGUF version 3 header: what is read from a byte sequence, and a writer (GGUF specification, section "File
    Structure"). */
module GgufSpec {
  import opened Bytes
  import opened Wrappers

  /** A value and the position after it. */
  datatype Parsed<+T> = Parsed(value: T, next: nat)

  /** Metadata values; floating-point numbers are kept as their bits. */
  datatype MetaValue =
    | U8(n: nat) | I8(i: int) | U16(n: nat) | I16(i: int) | U32(n: nat) | I32(i: int)
    | F32(n: nat) | Bool(b: bool) | Str(text: Text) | Array(elements: seq<MetaValue>)
    | U64(n: nat) | I64(i: int) | F64(n: nat)

  /** Dimensions are row-major, the reverse of their order in the file. */
  datatype TensorInfo = TensorInfo(name: Text, dims: seq<nat>, dtype: nat, offset: nat)

  datatype Pair = Pair(key: Text, value: MetaValue)

  datatype Header = Header(pairs: seq<Pair>, infos: seq<TensorInfo>)

  const MAX_STRING: nat := 64 * 1024 * 1024
  const MAX_ARRAY: nat := 16 * 1024 * 1024
  const MAX_TENSORS: nat := 1024 * 1024
  const MAX_DIMS: nat := 8
  const MAX_DIM: nat := 0x7FFF_FFFF_FFFF_FFFF
  const VERSION: nat := 3
  const DEFAULT_ALIGNMENT: nat := 32

  function Magic(): Text { [71, 71, 85, 70] }

  /** "general.alignment" */
  function AlignmentKey(): Text { [103, 101, 110, 101, 114, 97, 108, 46, 97, 108, 105, 103, 110, 109, 101, 110, 116] }

  // ---------------------------------------------------------------- numbers

  function Power256(width: nat): (p: nat)
    ensures p > 0
  {
    if width == 0 then 1 else 256 * Power256(width - 1)
  }

  function LittleEndian(b: Text): nat {
    if b == [] then 0 else b[0] as nat + 256 * LittleEndian(b[1..])
  }

  function Encoded(n: nat, width: nat): (r: Text)
    ensures |r| == width
  {
    if width == 0 then [] else [(n % 256) as Byte] + Encoded(n / 256, width - 1)
  }

  /** A two's complement reading of an unsigned number of the given width. */
  function Signed(n: nat, width: nat): int {
    if 2 * n < Power256(width) then n else n - Power256(width)
  }

  function Unsigned(i: int, width: nat): (n: nat)
    requires -(Power256(width) as int) <= 2 * i < Power256(width)
  {
    if i >= 0 then i else i + Power256(width)
  }

  // ---------------------------------------------------------------- reading

  function ReadNumber(data: Text, pos: nat, width: nat): (r: Result<Parsed<nat>, ErrorCode>)
    ensures r.Ok? ==> r.value.next == pos + width <= |data|
  {
    if pos + width > |data| then Err(IOError)
    else Ok(Parsed(LittleEndian(data[pos..pos + width]), pos + width))
  }

  function ReadString(data: Text, pos: nat): (r: Result<Parsed<Text>, ErrorCode>)
    ensures r.Ok? ==> pos < r.value.next <= |data|
  {
    match ReadNumber(data, pos, 8)
    case Err(e) => Err(e)
    case Ok(len) =>
      if len.value > MAX_STRING then Err(InvalidArgument)
      else if len.next + len.value > |data| then Err(IOError)
      else Ok(Parsed(data[len.next..len.next + len.value], len.next + len.value))
  }

  /** The wire code of a value's type. */
  function Code(v: MetaValue): nat {
    match v
    case U8(_) => 0 case I8(_) => 1 case U16(_) => 2 case I16(_) => 3 case U32(_) => 4 case I32(_) => 5
    case F32(_) => 6 case Bool(_) => 7 case Str(_) => 8 case Array(_) => 9
    case U64(_) => 10 case I64(_) => 11 case F64(_) => 12
  }

  /** The width of the fixed-size types. */
  function Width(code: nat): nat {
    if code == 0 || code == 1 || code == 7 then 1
    else if code == 2 || code == 3 then 2
    else if code == 4 || code == 5 || code == 6 then 4
    else if code == 10 || code == 11 || code == 12 then 8
    else 0
  }

  function Fixed(code: nat, n: nat): MetaValue
    requires Width(code) > 0
  {
    if code == 0 then U8(n) else if code == 1 then I8(Signed(n, 1)) else if code == 2 then U16(n)
    else if code == 3 then I16(Signed(n, 2)) else if code == 4 then U32(n) else if code == 5 then I32(Signed(n, 4))
    else if code == 6 then F32(n) else if code == 7 then Bool(n != 0) else if code == 10 then U64(n)
    else if code == 11 then I64(Signed(n, 8)) else F64(n)
  }

  /** Nested arrays recurse; every level consumes bytes, so the recursion ends. */
  function ReadValue(data: Text, pos: nat, code: nat): (r: Result<Parsed<MetaValue>, ErrorCode>)
    requires pos <= |data|
    ensures r.Ok? ==> pos < r.value.next <= |data|
    decreases |data| - pos, 0
  {
    if Width(code) > 0 then
      match ReadNumber(data, pos, Width(code))
      case Err(e) => Err(e)
      case Ok(n) => Ok(Parsed(Fixed(code, n.value), n.next))
    else if code == 8 then
      match ReadString(data, pos)
      case Err(e) => Err(e)
      case Ok(s) => Ok(Parsed(Str(s.value), s.next))
    else if code == 9 then
      match ReadNumber(data, pos, 4)
      case Err(e) => Err(e)
      case Ok(elementCode) =>
        match ReadNumber(data, elementCode.next, 8)
        case Err(e) => Err(e)
        case Ok(len) =>
          if len.value > MAX_ARRAY then Err(InvalidArgument)
          else
            match ReadElements(data, len.next, elementCode.value, len.value)
            case Err(e) => Err(e)
            case Ok(elements) => Ok(Parsed(Array(elements.value), elements.next))
    else Err(Unsupported)
  }

  function ReadElements(data: Text, pos: nat, code: nat, count: nat): (r: Result<Parsed<seq<MetaValue>>, ErrorCode>)
    requires pos <= |data|
    ensures r.Ok? ==> pos <= r.value.next <= |data|
    decreases |data| - pos, count + 1
  {
    if count == 0 then Ok(Parsed([], pos))
    else
      match ReadValue(data, pos, code)
      case Err(e) => Err(e)
      case Ok(first) =>
        match ReadElements(data, first.next, code, count - 1)
        case Err(e) => Err(e)
        case Ok(rest) => Ok(Parsed([first.value] + rest.value, rest.next))
  }

  function ReadPair(data: Text, pos: nat): (r: Result<Parsed<Pair>, ErrorCode>)
    ensures r.Ok? ==> pos < r.value.next <= |data|
  {
    match ReadString(data, pos)
    case Err(e) => Err(e)
    case Ok(key) =>
      match ReadNumber(data, key.next, 4)
      case Err(e) => Err(e)
      case Ok(code) =>
        match ReadValue(data, code.next, code.value)
        case Err(e) => Err(e)
        case Ok(v) => Ok(Parsed(Pair(key.value, v.value), v.next))
  }

  function ReadPairs(data: Text, pos: nat, count: nat): (r: Result<Parsed<seq<Pair>>, ErrorCode>)
    requires pos <= |data|
    ensures r.Ok? ==> pos <= r.value.next <= |data|
    decreases count
  {
    if count == 0 then Ok(Parsed([], pos))
    else
      match ReadPair(data, pos)
      case Err(e) => Err(e)
      case Ok(first) =>
        match ReadPairs(data, first.next, count - 1)
        case Err(e) => Err(e)
        case Ok(rest) => Ok(Parsed([first.value] + rest.value, rest.next))
  }

  /** The dims in file order. */
  function ReadDims(data: Text, pos: nat, count: nat): (r: Result<Parsed<seq<nat>>, ErrorCode>)
    requires pos <= |data|
    ensures r.Ok? ==> pos <= r.value.next <= |data| && |r.value.value| == count
    decreases count
  {
    if count == 0 then Ok(Parsed([], pos))
    else
      match ReadNumber(data, pos, 8)
      case Err(e) => Err(e)
      case Ok(first) =>
        if first.value == 0 || first.value > MAX_DIM then Err(InvalidArgument)
        else
          match ReadDims(data, first.next, count - 1)
          case Err(e) => Err(e)
          case Ok(rest) => Ok(Parsed([first.value] + rest.value, rest.next))
  }

  function Reversed(s: seq<nat>): (r: seq<nat>)
    ensures |r| == |s|
  {
    seq(|s|, i requires 0 <= i < |s| => s[|s| - 1 - i])
  }

  function ReadInfo(data: Text, pos: nat): (r: Result<Parsed<TensorInfo>, ErrorCode>)
    ensures r.Ok? ==> pos < r.value.next <= |data|
  {
    match ReadString(data, pos)
    case Err(e) => Err(e)
    case Ok(name) =>
      match ReadNumber(data, name.next, 4)
      case Err(e) => Err(e)
      case Ok(count) =>
        if count.value == 0 || count.value > MAX_DIMS then Err(InvalidArgument)
        else
          match ReadDims(data, count.next, count.value)
          case Err(e) => Err(e)
          case Ok(dims) =>
            match ReadNumber(data, dims.next, 4)
            case Err(e) => Err(e)
            case Ok(dtype) =>
              match ReadNumber(data, dtype.next, 8)
              case Err(e) => Err(e)
              case Ok(offset) => Ok(Parsed(TensorInfo(name.value, Reversed(dims.value), dtype.value, offset.value),
                                           offset.next))
  }

  function ReadInfos(data: Text, pos: nat, count: nat): (r: Result<Parsed<seq<TensorInfo>>, ErrorCode>)
    requires pos <= |data|
    ensures r.Ok? ==> pos <= r.value.next <= |data|
    decreases count
  {
    if count == 0 then Ok(Parsed([], pos))
    else
      match ReadInfo(data, pos)
      case Err(e) => Err(e)
      case Ok(first) =>
        match ReadInfos(data, first.next, count - 1)
        case Err(e) => Err(e)
        case Ok(rest) => Ok(Parsed([first.value] + rest.value, rest.next))
  }

  /** The whole header: magic, version, counts, metadata, tensor table. */
  function ReadHeader(data: Text): (r: Result<Parsed<Header>, ErrorCode>)
    ensures r.Ok? ==> r.value.next <= |data|
  {
    if |data| < 4 || data[..4] != Magic() then Err(InvalidArgument)
    else
      match ReadNumber(data, 4, 4)
      case Err(e) => Err(e)
      case Ok(version) =>
        if version.value != VERSION then Err(Unsupported)
        else
          match ReadNumber(data, 8, 8)
          case Err(e) => Err(e)
          case Ok(tensors) =>
            match ReadNumber(data, 16, 8)
            case Err(e) => Err(e)
            case Ok(kvs) =>
              match ReadPairs(data, 24, kvs.value)
              case Err(e) => Err(e)
              case Ok(pairs) =>
                if tensors.value > MAX_TENSORS then Err(InvalidArgument)
                else
                  match ReadInfos(data, pairs.next, tensors.value)
                  case Err(e) => Err(e)
                  case Ok(infos) => Ok(Parsed(Header(pairs.value, infos.value), infos.next))
  }

  /** A map built by inserting pairs that are not there yet: the first pair of a key wins. */
  function FirstWins(pairs: seq<Pair>): map<Text, MetaValue> {
    if pairs == [] then map[]
    else
      var before, last := FirstWins(pairs[..|pairs| - 1]), pairs[|pairs| - 1];
      if last.key in before then before else before[last.key := last.value]
  }

  /** The alignment of the data region: a 32-bit unsigned metadata entry, or the default. */
  function AlignmentOf(metadata: map<Text, MetaValue>): nat {
    if AlignmentKey() in metadata && metadata[AlignmentKey()].U32? then metadata[AlignmentKey()].n
    else DEFAULT_ALIGNMENT
  }

  function DataOffset(raw: nat, alignment: nat): nat
    requires alignment > 0
  {
    raw + (alignment - raw % alignment) % alignment
  }

  // ---------------------------------------------------------------- writing

  ghost predicate Fits(n: nat, width: nat) { n < Power256(width) }

  ghost predicate SignedFits(i: int, width: nat) { -(Power256(width) as int) <= 2 * i < Power256(width) }

  /** Values that can be written within the reader's limits; the elements of an array share one type. */
  ghost predicate WellFormed(v: MetaValue)
    decreases v
  {
    match v
    case U8(n) => Fits(n, 1)
    case I8(i) => SignedFits(i, 1)
    case U16(n) => Fits(n, 2)
    case I16(i) => SignedFits(i, 2)
    case U32(n) => Fits(n, 4)
    case I32(i) => SignedFits(i, 4)
    case F32(n) => Fits(n, 4)
    case Bool(_) => true
    case Str(text) => |text| <= MAX_STRING
    case Array(elements) =>
      && |elements| <= MAX_ARRAY
      && forall i :: 0 <= i < |elements| ==> WellFormed(elements[i]) && Code(elements[i]) == Code(elements[0])
    case U64(n) => Fits(n, 8)
    case I64(i) => SignedFits(i, 8)
    case F64(n) => Fits(n, 8)
  }

  function EncodeString(text: Text): Text { Encoded(|text|, 8) + text }

  /** The unsigned number that a fixed-size value is written as. */
  ghost function Number(v: MetaValue): nat
    requires WellFormed(v) && Width(Code(v)) > 0
  {
    match v
    case U8(n) => n
    case I8(i) => Unsigned(i, 1)
    case U16(n) => n
    case I16(i) => Unsigned(i, 2)
    case U32(n) => n
    case I32(i) => Unsigned(i, 4)
    case F32(n) => n
    case Bool(b) => if b then 1 else 0
    case U64(n) => n
    case I64(i) => Unsigned(i, 8)
    case F64(n) => n
  }

  /** Values as bytes; an empty array may name any element type. */
  ghost function EncodeValue(v: MetaValue, emptyCode: nat): Text
    requires WellFormed(v)
    decreases v, 0
  {
    if Width(Code(v)) > 0 then Encoded(Number(v), Width(Code(v)))
    else
      match v
      case Str(text) => EncodeString(text)
      case Array(elements) =>
        Encoded(if elements == [] then emptyCode else Code(elements[0]), 4) + Encoded(|elements|, 8)
        + EncodeElements(elements, emptyCode)
  }

  ghost function EncodeElements(elements: seq<MetaValue>, emptyCode: nat): Text
    requires forall i :: 0 <= i < |elements| ==> WellFormed(elements[i])
    decreases elements, 1
  {
    if elements == [] then []
    else EncodeValue(elements[0], emptyCode) + EncodeElements(elements[1..], emptyCode)
  }

  ghost predicate PairFits(p: Pair) { |p.key| <= MAX_STRING && WellFormed(p.value) }

  ghost predicate AllPairsFit(pairs: seq<Pair>) { forall i :: 0 <= i < |pairs| ==> PairFits(pairs[i]) }

  ghost function EncodePair(p: Pair, emptyCode: nat): Text
    requires PairFits(p)
  {
    EncodeString(p.key) + Encoded(Code(p.value), 4) + EncodeValue(p.value, emptyCode)
  }

  ghost function EncodePairs(pairs: seq<Pair>, emptyCode: nat): Text
    requires AllPairsFit(pairs)
  {
    if pairs == [] then [] else EncodePair(pairs[0], emptyCode) + EncodePairs(pairs[1..], emptyCode)
  }

  function EncodeDims(dims: seq<nat>): Text {
    if dims == [] then [] else Encoded(dims[0], 8) + EncodeDims(dims[1..])
  }

  ghost predicate InfoFits(t: TensorInfo) {
    && |t.name| <= MAX_STRING && 1 <= |t.dims| <= MAX_DIMS
    && (forall i :: 0 <= i < |t.dims| ==> 1 <= t.dims[i] <= MAX_DIM)
    && Fits(t.dtype, 4) && Fits(t.offset, 8)
  }

  ghost predicate AllInfosFit(infos: seq<TensorInfo>) { forall i :: 0 <= i < |infos| ==> InfoFits(infos[i]) }

  function EncodeInfo(t: TensorInfo): Text {
    EncodeString(t.name) + Encoded(|t.dims|, 4) + EncodeDims(Reversed(t.dims)) + Encoded(t.dtype, 4) +
    Encoded(t.offset, 8)
  }

  function EncodeInfos(infos: seq<TensorInfo>): Text {
    if infos == [] then [] else EncodeInfo(infos[0]) + EncodeInfos(infos[1..])
  }

  /** A header within the reader's limits. */
  ghost predicate HeaderFits(h: Header) {
    && |h.infos| <= MAX_TENSORS && Fits(|h.pairs|, 8)
    && AllPairsFit(h.pairs) && AllInfosFit(h.infos)
  }

  ghost function EncodeHeader(h: Header, emptyCode: nat): Text
    requires HeaderFits(h)
  {
    Magic() + Encoded(VERSION, 4) + Encoded(|h.infos|, 8) + Encoded(|h.pairs|, 8)
    + EncodePairs(h.pairs, emptyCode) + EncodeInfos(h.infos)
  }

  /** The bytes at a position start with the given chunk. */
  ghost predicate At(data: Text, pos: nat, chunk: Text) {
    pos + |chunk| <= |data| && data[pos..pos + |chunk|] == chunk
  }

  /** A reading that succeeds with the given value and stops at the given position. */
  ghost predicate Gives<T>(r: Result<Parsed<T>, ErrorCode>, value: T, next: nat) {
    r.Ok? && r.value.value == value && r.value.next == next
  }
}

/** The reader inverts the writer. */
module GgufProofs {
  import opened Arithmetic
  import opened Bytes
  import opened GgufSpec
  import opened Wrappers

  lemma AtSplit(data: Text, pos: nat, a: Text, b: Text)
    requires At(data, pos, a + b)
    ensures At(data, pos, a) && At(data, pos + |a|, b)
  {
    var whole := data[pos..pos + |a + b|];
    assert whole[..|a|] == a && whole[|a|..] == b;
    assert data[pos..pos + |a|] == whole[..|a|];
    assert data[pos + |a|..pos + |a| + |b|] == whole[|a|..];
  }

  lemma AtSplit3(data: Text, pos: nat, a: Text, b: Text, c: Text)
    requires At(data, pos, a + b + c)
    ensures At(data, pos, a) && At(data, pos + |a|, b) && At(data, pos + |a| + |b|, c)
  {
    AtSplit(data, pos, a + b, c);
    AtSplit(data, pos, a, b);
  }

  // ---------------------------------------------------------------- numbers

  lemma {:induction false} EncodedBack(n: nat, width: nat)
    requires Fits(n, width)
    ensures LittleEndian(Encoded(n, width)) == n
  {
    if width > 0 {
      EncodedBack(n / 256, width - 1);
      var r := Encoded(n, width);
      assert r[1..] == Encoded(n / 256, width - 1);
    }
  }

  lemma NumberBack(data: Text, pos: nat, n: nat, width: nat)
    requires Fits(n, width) && At(data, pos, Encoded(n, width))
    ensures Gives(ReadNumber(data, pos, width), n, pos + width)
  {
    EncodedBack(n, width);
  }

  lemma {:induction false} PowerValues()
    ensures Power256(1) == 0x100 && Power256(2) == 0x1_0000 && Power256(4) == 0x1_0000_0000
    ensures Power256(8) == 0x1_0000_0000_0000_0000
  {
    assert Power256(3) == 0x100_0000;
    assert Power256(5) == 0x100_0000_0000 && Power256(6) == 0x1_0000_0000_0000 && Power256(7) == 0x100_0000_0000_0000;
  }

  lemma SignedBack(i: int, width: nat)
    requires SignedFits(i, width)
    ensures Fits(Unsigned(i, width), width) && Signed(Unsigned(i, width), width) == i
  {
  }

  lemma StringBack(data: Text, pos: nat, text: Text)
    requires |text| <= MAX_STRING && At(data, pos, EncodeString(text))
    ensures Gives(ReadString(data, pos), text, pos + |EncodeString(text)|)
  {
    PowerValues();
    AtSplit(data, pos, Encoded(|text|, 8), text);
    NumberBack(data, pos, |text|, 8);
  }

  // ---------------------------------------------------------------- values

  lemma FixedBack(v: MetaValue)
    requires WellFormed(v) && Width(Code(v)) > 0
    ensures Fits(Number(v), Width(Code(v))) && Fixed(Code(v), Number(v)) == v
  {
    PowerValues();
    match v
    case I8(i) => SignedBack(i, 1);
    case I16(i) => SignedBack(i, 2);
    case I32(i) => SignedBack(i, 4);
    case I64(i) => SignedBack(i, 8);
    case _ =>
  }

  lemma ArrayRead(data: Text, pos: nat, code: nat, elements: seq<MetaValue>, next: nat)
    requires pos + 12 <= |data| && |elements| <= MAX_ARRAY
    requires Gives(ReadNumber(data, pos, 4), code, pos + 4)
    requires Gives(ReadNumber(data, pos + 4, 8), |elements|, pos + 12)
    requires Gives(ReadElements(data, pos + 12, code, |elements|), elements, next)
    ensures Gives(ReadValue(data, pos, 9), Array(elements), next)
  {
  }

  lemma ArrayHead(data: Text, pos: nat, elements: seq<MetaValue>, emptyCode: nat)
    requires WellFormed(Array(elements)) && Fits(emptyCode, 4) && At(data, pos, EncodeValue(Array(elements), emptyCode))
    ensures var code := if elements == [] then emptyCode else Code(elements[0]);
            && Gives(ReadNumber(data, pos, 4), code, pos + 4)
            && Gives(ReadNumber(data, pos + 4, 8), |elements|, pos + 12)
            && pos + 12 <= |data| && At(data, pos + 12, EncodeElements(elements, emptyCode))
            && |EncodeValue(Array(elements), emptyCode)| == 12 + |EncodeElements(elements, emptyCode)|
  {
    PowerValues();
    var code := if elements == [] then emptyCode else Code(elements[0]);
    AtSplit3(data, pos, Encoded(code, 4), Encoded(|elements|, 8), EncodeElements(elements, emptyCode));
    NumberBack(data, pos, code, 4);
    NumberBack(data, pos + 4, |elements|, 8);
  }

  /** Every value, arrays nested to any depth included, is read back from its bytes and nothing more is consumed. */
  lemma {:induction false} ValueBack(data: Text, pos: nat, v: MetaValue, emptyCode: nat)
    requires WellFormed(v) && Fits(emptyCode, 4) && pos <= |data| && At(data, pos, EncodeValue(v, emptyCode))
    ensures Gives(ReadValue(data, pos, Code(v)), v, pos + |EncodeValue(v, emptyCode)|)
    decreases v, 0
  {
    if Width(Code(v)) > 0 {
      FixedBack(v);
      NumberBack(data, pos, Number(v), Width(Code(v)));
    } else {
      match v
      case Str(text) =>
        StringBack(data, pos, text);
      case Array(elements) =>
        var code := if elements == [] then emptyCode else Code(elements[0]);
        ArrayHead(data, pos, elements, emptyCode);
        ElementsBack(data, pos + 12, elements, code, emptyCode);
        ArrayRead(data, pos, code, elements, pos + 12 + |EncodeElements(elements, emptyCode)|);
    }
  }

  lemma {:induction false} ElementsBack(data: Text, pos: nat, elements: seq<MetaValue>, code: nat, emptyCode: nat)
    requires forall i :: 0 <= i < |elements| ==> WellFormed(elements[i]) && Code(elements[i]) == code
    requires Fits(emptyCode, 4) && pos <= |data| && At(data, pos, EncodeElements(elements, emptyCode))
    ensures Gives(ReadElements(data, pos, code, |elements|), elements, pos + |EncodeElements(elements, emptyCode)|)
    decreases elements, 1
  {
    if elements != [] {
      var head, tail := elements[0], elements[1..];
      AtSplit(data, pos, EncodeValue(head, emptyCode), EncodeElements(tail, emptyCode));
      ValueBack(data, pos, head, emptyCode);
      var mid := pos + |EncodeValue(head, emptyCode)|;
      ElementsBack(data, mid, tail, code, emptyCode);
      ElementsRead(data, pos, elements, code, mid, mid + |EncodeElements(tail, emptyCode)|);
    }
  }

  lemma ElementsRead(data: Text, pos: nat, elements: seq<MetaValue>, code: nat, mid: nat, next: nat)
    requires pos <= |data| && mid <= |data| && elements != [] && Gives(ReadValue(data, pos, code), elements[0], mid)
    requires Gives(ReadElements(data, mid, code, |elements[1..]|), elements[1..], next)
    ensures Gives(ReadElements(data, pos, code, |elements|), elements, next)
  {
    assert elements == [elements[0]] + elements[1..];
  }

  // ---------------------------------------------------------------- metadata and tensor table

  lemma PairRead(data: Text, pos: nat, key: Parsed<Text>, code: Parsed<nat>, v: Parsed<MetaValue>)
    requires ReadString(data, pos) == Ok(key) && ReadNumber(data, key.next, 4) == Ok(code) && code.next <= |data|
    requires ReadValue(data, code.next, code.value) == Ok(v)
    ensures Gives(ReadPair(data, pos), Pair(key.value, v.value), v.next)
  {
  }

  lemma PairFields(data: Text, pos: nat, p: Pair, emptyCode: nat) returns (a: nat, next: nat)
    requires PairFits(p) && Fits(emptyCode, 4) && At(data, pos, EncodePair(p, emptyCode))
    ensures a + 4 <= |data| && next == pos + |EncodePair(p, emptyCode)|
    ensures Gives(ReadString(data, pos), p.key, a) && Gives(ReadNumber(data, a, 4), Code(p.value), a + 4)
    ensures Gives(ReadValue(data, a + 4, Code(p.value)), p.value, next)
  {
    a, next := PairParts(data, pos, p, emptyCode);
    StringBack(data, pos, p.key);
    CodeBack(data, a, p.value);
    ValueBack(data, a + 4, p.value, emptyCode);
  }

  lemma PairParts(data: Text, pos: nat, p: Pair, emptyCode: nat) returns (a: nat, next: nat)
    requires PairFits(p) && At(data, pos, EncodePair(p, emptyCode))
    ensures a == pos + |EncodeString(p.key)| && next == pos + |EncodePair(p, emptyCode)|
    ensures next == a + 4 + |EncodeValue(p.value, emptyCode)|
    ensures At(data, pos, EncodeString(p.key)) && At(data, a, Encoded(Code(p.value), 4))
    ensures At(data, a + 4, EncodeValue(p.value, emptyCode))
  {
    var key, value := EncodeString(p.key), EncodeValue(p.value, emptyCode);
    a := pos + |key|;
    next := a + 4 + |value|;
    AtSplit3(data, pos, key, Encoded(Code(p.value), 4), value);
  }

  lemma CodeBack(data: Text, pos: nat, v: MetaValue)
    requires At(data, pos, Encoded(Code(v), 4))
    ensures pos + 4 <= |data| && Gives(ReadNumber(data, pos, 4), Code(v), pos + 4)
  {
    FitsSmall(Code(v));
    NumberBack(data, pos, Code(v), 4);
  }

  lemma PairBack(data: Text, pos: nat, p: Pair, emptyCode: nat)
    requires PairFits(p) && Fits(emptyCode, 4) && At(data, pos, EncodePair(p, emptyCode))
    ensures Gives(ReadPair(data, pos), p, pos + |EncodePair(p, emptyCode)|)
  {
    var a, next := PairFields(data, pos, p, emptyCode);
    PairRead(data, pos, Parsed(p.key, a), Parsed(Code(p.value), a + 4), Parsed(p.value, next));
  }

  lemma PairsRead(data: Text, pos: nat, pairs: seq<Pair>, mid: nat, next: nat)
    requires pos <= |data| && mid <= |data| && pairs != [] && Gives(ReadPair(data, pos), pairs[0], mid)
    requires Gives(ReadPairs(data, mid, |pairs[1..]|), pairs[1..], next)
    ensures Gives(ReadPairs(data, pos, |pairs|), pairs, next)
  {
    assert pairs == [pairs[0]] + pairs[1..];
  }

  lemma {:induction false} PairsBack(data: Text, pos: nat, pairs: seq<Pair>, emptyCode: nat)
    requires AllPairsFit(pairs)
    requires Fits(emptyCode, 4) && pos <= |data| && At(data, pos, EncodePairs(pairs, emptyCode))
    ensures Gives(ReadPairs(data, pos, |pairs|), pairs, pos + |EncodePairs(pairs, emptyCode)|)
    decreases |pairs|
  {
    if pairs != [] {
      var head, tail := pairs[0], pairs[1..];
      PairsTail(pairs);
      AtSplit(data, pos, EncodePair(head, emptyCode), EncodePairs(tail, emptyCode));
      var mid := FirstPair(data, pos, head, emptyCode);
      PairsBack(data, mid, tail, emptyCode);
      PairsRead(data, pos, pairs, mid, mid + |EncodePairs(tail, emptyCode)|);
    }
  }

  lemma FirstPair(data: Text, pos: nat, p: Pair, emptyCode: nat) returns (mid: nat)
    requires PairFits(p) && Fits(emptyCode, 4) && At(data, pos, EncodePair(p, emptyCode))
    ensures mid == pos + |EncodePair(p, emptyCode)| <= |data| && Gives(ReadPair(data, pos), p, mid)
  {
    PairBack(data, pos, p, emptyCode);
    mid := pos + |EncodePair(p, emptyCode)|;
  }

  lemma PairsTail(pairs: seq<Pair>)
    requires AllPairsFit(pairs) && pairs != []
    ensures PairFits(pairs[0]) && AllPairsFit(pairs[1..])
  {
  }

  lemma {:induction false} DimsBack(data: Text, pos: nat, dims: seq<nat>)
    requires forall i :: 0 <= i < |dims| ==> 1 <= dims[i] <= MAX_DIM
    requires pos <= |data| && At(data, pos, EncodeDims(dims))
    ensures Gives(ReadDims(data, pos, |dims|), dims, pos + |EncodeDims(dims)|)
    decreases |dims|
  {
    if dims != [] {
      PowerValues();
      AtSplit(data, pos, Encoded(dims[0], 8), EncodeDims(dims[1..]));
      NumberBack(data, pos, dims[0], 8);
      DimsBack(data, pos + 8, dims[1..]);
      assert dims == [dims[0]] + dims[1..];
    }
  }

  lemma ReversedTwice(s: seq<nat>)
    ensures Reversed(Reversed(s)) == s
  {
  }

  lemma InfoParts(data: Text, pos: nat, t: TensorInfo) returns (a: nat, b: nat)
    requires InfoFits(t) && At(data, pos, EncodeInfo(t))
    ensures a == pos + |EncodeString(t.name)| && b == a + 4 + |EncodeDims(Reversed(t.dims))|
    ensures b + 12 == pos + |EncodeInfo(t)|
    ensures At(data, pos, EncodeString(t.name)) && At(data, a, Encoded(|t.dims|, 4))
    ensures At(data, a + 4, EncodeDims(Reversed(t.dims)))
    ensures At(data, b, Encoded(t.dtype, 4)) && At(data, b + 4, Encoded(t.offset, 8))
  {
    var name, count, dims := EncodeString(t.name), Encoded(|t.dims|, 4), EncodeDims(Reversed(t.dims));
    a := pos + |name|;
    b := a + 4 + |dims|;
    AtSplit3(data, pos, name + count + dims, Encoded(t.dtype, 4), Encoded(t.offset, 8));
    AtSplit3(data, pos, name, count, dims);
  }

  lemma FitsSmall(n: nat)
    requires n <= MAX_STRING
    ensures Fits(n, 4) && Fits(n, 8)
  {
    PowerValues();
  }

  lemma InfoDims(data: Text, t: TensorInfo, a: nat)
    requires InfoFits(t) && At(data, a, Encoded(|t.dims|, 4)) && At(data, a + 4, EncodeDims(Reversed(t.dims)))
    ensures Gives(ReadNumber(data, a, 4), |t.dims|, a + 4)
    ensures Gives(ReadDims(data, a + 4, |t.dims|), Reversed(t.dims), a + 4 + |EncodeDims(Reversed(t.dims))|)
  {
    FitsSmall(|t.dims|);
    NumberBack(data, a, |t.dims|, 4);
    DimsBack(data, a + 4, Reversed(t.dims));
  }

  lemma InfoNumbers(data: Text, t: TensorInfo, a: nat, b: nat)
    requires InfoFits(t) && At(data, a, Encoded(|t.dims|, 4)) && At(data, a + 4, EncodeDims(Reversed(t.dims)))
    requires b == a + 4 + |EncodeDims(Reversed(t.dims))|
    requires At(data, b, Encoded(t.dtype, 4)) && At(data, b + 4, Encoded(t.offset, 8))
    ensures Gives(ReadNumber(data, a, 4), |t.dims|, a + 4)
    ensures Gives(ReadDims(data, a + 4, |t.dims|), Reversed(t.dims), b)
    ensures Gives(ReadNumber(data, b, 4), t.dtype, b + 4) && Gives(ReadNumber(data, b + 4, 8), t.offset, b + 12)
  {
    InfoDims(data, t, a);
    InfoTail(data, t, b);
  }

  lemma InfoTail(data: Text, t: TensorInfo, b: nat)
    requires InfoFits(t) && At(data, b, Encoded(t.dtype, 4)) && At(data, b + 4, Encoded(t.offset, 8))
    ensures Gives(ReadNumber(data, b, 4), t.dtype, b + 4) && Gives(ReadNumber(data, b + 4, 8), t.offset, b + 12)
  {
    NumberBack(data, b, t.dtype, 4);
    NumberBack(data, b + 4, t.offset, 8);
  }

  /** A tensor's entry, with its row-major dims written in reverse, is read back as it was. */
  lemma InfoBack(data: Text, pos: nat, t: TensorInfo)
    requires InfoFits(t) && At(data, pos, EncodeInfo(t))
    ensures Gives(ReadInfo(data, pos), t, pos + |EncodeInfo(t)|)
  {
    var a, b := InfoFields(data, pos, t);
    InfoRead(data, pos, t, Reversed(t.dims), a, b);
  }

  lemma InfoFields(data: Text, pos: nat, t: TensorInfo) returns (a: nat, b: nat)
    requires InfoFits(t) && At(data, pos, EncodeInfo(t))
    ensures a + 4 <= |data| && b + 12 == pos + |EncodeInfo(t)| && t.dims == Reversed(Reversed(t.dims))
    ensures Gives(ReadString(data, pos), t.name, a)
    ensures Gives(ReadNumber(data, a, 4), |t.dims|, a + 4)
    ensures Gives(ReadDims(data, a + 4, |t.dims|), Reversed(t.dims), b)
    ensures Gives(ReadNumber(data, b, 4), t.dtype, b + 4) && Gives(ReadNumber(data, b + 4, 8), t.offset, b + 12)
  {
    a, b := InfoParts(data, pos, t);
    StringBack(data, pos, t.name);
    InfoNumbers(data, t, a, b);
    ReversedTwice(t.dims);
  }

  lemma InfoRead(data: Text, pos: nat, t: TensorInfo, dims: seq<nat>, a: nat, b: nat)
    requires 1 <= |dims| <= MAX_DIMS && a + 4 <= |data| && t.dims == Reversed(dims)
    requires Gives(ReadString(data, pos), t.name, a) && Gives(ReadNumber(data, a, 4), |dims|, a + 4)
    requires Gives(ReadDims(data, a + 4, |dims|), dims, b)
    requires Gives(ReadNumber(data, b, 4), t.dtype, b + 4) && Gives(ReadNumber(data, b + 4, 8), t.offset, b + 12)
    ensures Gives(ReadInfo(data, pos), t, b + 12)
  {
  }

  lemma InfosRead(data: Text, pos: nat, infos: seq<TensorInfo>, mid: nat, next: nat)
    requires pos <= |data| && mid <= |data| && infos != [] && Gives(ReadInfo(data, pos), infos[0], mid)
    requires Gives(ReadInfos(data, mid, |infos[1..]|), infos[1..], next)
    ensures Gives(ReadInfos(data, pos, |infos|), infos, next)
  {
    assert infos == [infos[0]] + infos[1..];
  }

  lemma {:induction false} InfosBack(data: Text, pos: nat, infos: seq<TensorInfo>)
    requires AllInfosFit(infos) && pos <= |data| && At(data, pos, EncodeInfos(infos))
    ensures Gives(ReadInfos(data, pos, |infos|), infos, pos + |EncodeInfos(infos)|)
    decreases |infos|
  {
    if infos != [] {
      var mid := InfosSplit(data, pos, infos);
      InfosBack(data, mid, infos[1..]);
      InfosRead(data, pos, infos, mid, mid + |EncodeInfos(infos[1..])|);
    }
  }

  lemma InfosSplit(data: Text, pos: nat, infos: seq<TensorInfo>) returns (mid: nat)
    requires AllInfosFit(infos) && infos != [] && At(data, pos, EncodeInfos(infos))
    ensures mid <= |data| && Gives(ReadInfo(data, pos), infos[0], mid)
    ensures AllInfosFit(infos[1..]) && At(data, mid, EncodeInfos(infos[1..]))
    ensures pos + |EncodeInfos(infos)| == mid + |EncodeInfos(infos[1..])|
  {
    InfosTail(infos);
    AtSplit(data, pos, EncodeInfo(infos[0]), EncodeInfos(infos[1..]));
    mid := FirstInfo(data, pos, infos[0]);
  }

  lemma FirstInfo(data: Text, pos: nat, t: TensorInfo) returns (mid: nat)
    requires InfoFits(t) && At(data, pos, EncodeInfo(t))
    ensures mid == pos + |EncodeInfo(t)| <= |data| && Gives(ReadInfo(data, pos), t, mid)
  {
    InfoBack(data, pos, t);
    mid := pos + |EncodeInfo(t)|;
  }

  lemma InfosTail(infos: seq<TensorInfo>)
    requires AllInfosFit(infos) && infos != []
    ensures InfoFits(infos[0]) && AllInfosFit(infos[1..])
  {
  }

  lemma HeaderParts(data: Text, h: Header, emptyCode: nat)
    requires HeaderFits(h) && At(data, 0, EncodeHeader(h, emptyCode))
    ensures At(data, 0, Magic()) && At(data, 4, Encoded(VERSION, 4)) && At(data, 8, Encoded(|h.infos|, 8))
    ensures At(data, 16, Encoded(|h.pairs|, 8)) && At(data, 24, EncodePairs(h.pairs, emptyCode))
    ensures At(data, 24 + |EncodePairs(h.pairs, emptyCode)|, EncodeInfos(h.infos))
    ensures |EncodeHeader(h, emptyCode)| == 24 + |EncodePairs(h.pairs, emptyCode)| + |EncodeInfos(h.infos)|
  {
    AtSplit6(data, Magic(), Encoded(VERSION, 4), Encoded(|h.infos|, 8), Encoded(|h.pairs|, 8),
             EncodePairs(h.pairs, emptyCode), EncodeInfos(h.infos));
  }

  lemma AtSplit6(data: Text, a: Text, b: Text, c: Text, d: Text, p: Text, q: Text)
    requires |a| == |b| == 4 && |c| == |d| == 8 && At(data, 0, a + b + c + d + p + q)
    ensures At(data, 0, a) && At(data, 4, b) && At(data, 8, c) && At(data, 16, d)
    ensures At(data, 24, p) && At(data, 24 + |p|, q) && |a + b + c + d + p + q| == 24 + |p| + |q|
  {
    AtSplit3(data, 0, a + b + c + d, p, q);
    AtSplit4(data, 0, a, b, c, d);
  }

  lemma AtSplit4(data: Text, pos: nat, a: Text, b: Text, c: Text, d: Text)
    requires At(data, pos, a + b + c + d)
    ensures At(data, pos, a) && At(data, pos + |a|, b) && At(data, pos + |a| + |b|, c)
    ensures At(data, pos + |a| + |b| + |c|, d)
  {
    AtSplit3(data, pos, a + b, c, d);
    AtSplit(data, pos, a, b);
  }

  lemma HeaderRead(data: Text, h: Header, next: nat, end: nat)
    requires |data| >= 24 && data[..4] == Magic() && |h.infos| <= MAX_TENSORS && next <= |data|
    requires Gives(ReadNumber(data, 4, 4), VERSION, 8) && Gives(ReadNumber(data, 8, 8), |h.infos|, 16)
    requires Gives(ReadNumber(data, 16, 8), |h.pairs|, 24) && Gives(ReadPairs(data, 24, |h.pairs|), h.pairs, next)
    requires Gives(ReadInfos(data, next, |h.infos|), h.infos, end)
    ensures Gives(ReadHeader(data), h, end)
  {
  }

  lemma HeaderAt(data: Text, h: Header, emptyCode: nat)
    requires HeaderFits(h) && Fits(emptyCode, 4) && At(data, 0, EncodeHeader(h, emptyCode))
    ensures Gives(ReadHeader(data), h, |EncodeHeader(h, emptyCode)|)
  {
    HeaderParts(data, h, emptyCode);
    PowerValues();
    NumberBack(data, 4, VERSION, 4);
    NumberBack(data, 8, |h.infos|, 8);
    NumberBack(data, 16, |h.pairs|, 8);
    var next, end := TablesBack(data, h, emptyCode);
    HeaderRead(data, h, next, end);
  }

  lemma TablesBack(data: Text, h: Header, emptyCode: nat) returns (next: nat, end: nat)
    requires HeaderFits(h) && Fits(emptyCode, 4) && At(data, 24, EncodePairs(h.pairs, emptyCode))
    requires At(data, 24 + |EncodePairs(h.pairs, emptyCode)|, EncodeInfos(h.infos))
    ensures next == 24 + |EncodePairs(h.pairs, emptyCode)| <= |data| && end == next + |EncodeInfos(h.infos)|
    ensures Gives(ReadPairs(data, 24, |h.pairs|), h.pairs, next)
    ensures Gives(ReadInfos(data, next, |h.infos|), h.infos, end)
  {
    next := PairTableBack(data, 24, h.pairs, emptyCode);
    end := next + |EncodeInfos(h.infos)|;
    InfosBack(data, next, h.infos);
  }

  lemma PairTableBack(data: Text, pos: nat, pairs: seq<Pair>, emptyCode: nat) returns (next: nat)
    requires AllPairsFit(pairs) && Fits(emptyCode, 4) && At(data, pos, EncodePairs(pairs, emptyCode))
    ensures next == pos + |EncodePairs(pairs, emptyCode)| <= |data| && Gives(ReadPairs(data, pos, |pairs|), pairs, next)
  {
    next := pos + |EncodePairs(pairs, emptyCode)|;
    PairsBack(data, pos, pairs, emptyCode);
  }

  /** The reader inverts the writer: whatever follows a written header, parsing returns the header and stops exactly at
      its end. */
  lemma HeaderBack(h: Header, emptyCode: nat, rest: Text)
    requires HeaderFits(h) && Fits(emptyCode, 4)
    ensures Gives(ReadHeader(EncodeHeader(h, emptyCode) + rest), h, |EncodeHeader(h, emptyCode)|)
  {
    var written := EncodeHeader(h, emptyCode);
    assert (written + rest)[0..|written|] == written;
    HeaderAt(written + rest, h, emptyCode);
  }

  ghost predicate DistinctKeys(pairs: seq<Pair>) {
    forall i, j :: 0 <= i < j < |pairs| ==> pairs[i].key != pairs[j].key
  }

  /** With distinct keys every written pair is in the metadata, and nothing else is. */
  lemma AllPairsKept(pairs: seq<Pair>)
    requires DistinctKeys(pairs)
    ensures forall i :: 0 <= i < |pairs| ==> pairs[i].key in FirstWins(pairs) &&
                                             FirstWins(pairs)[pairs[i].key] == pairs[i].value
    ensures forall key :: key in FirstWins(pairs) ==> exists i :: 0 <= i < |pairs| && pairs[i].key == key
  {
    if pairs != [] {
      FromPairs(pairs);
      forall i: nat | i < |pairs|
        ensures pairs[i].key in FirstWins(pairs) && FirstWins(pairs)[pairs[i].key] == pairs[i].value {
        FirstPairWins(pairs, i);
      }
    }
  }

  /** A repeated key keeps its first value. */
  lemma {:induction false} FirstPairWins(pairs: seq<Pair>, i: nat)
    requires i < |pairs| && forall j :: 0 <= j < i ==> pairs[j].key != pairs[i].key
    ensures pairs[i].key in FirstWins(pairs) && FirstWins(pairs)[pairs[i].key] == pairs[i].value
    ensures forall key :: key in FirstWins(pairs) ==> exists j :: 0 <= j < |pairs| && pairs[j].key == key
  {
    var n := |pairs| - 1;
    FromPairs(pairs);
    FromPairs(pairs[..n]);
    if i < n {
      FirstPairWins(pairs[..n], i);
    } else {
      assert forall j :: 0 <= j < n ==> pairs[..n][j].key == pairs[j].key;
      assert pairs[i].key !in FirstWins(pairs[..n]);
    }
  }

  lemma {:induction false} FromPairs(pairs: seq<Pair>)
    ensures forall key :: key in FirstWins(pairs) ==> exists j :: 0 <= j < |pairs| && pairs[j].key == key
  {
    if pairs != [] {
      var n := |pairs| - 1;
      FromPairs(pairs[..n]);
      forall key | key in FirstWins(pairs) ensures exists j :: 0 <= j < |pairs| && pairs[j].key == key {
        if key in FirstWins(pairs[..n]) {
          var j :| 0 <= j < n && pairs[..n][j].key == key;
          assert pairs[j].key == key;
        } else {
          assert pairs[n].key == key;
        }
      }
    }
  }

  lemma OffsetIsMultiple(raw: nat, alignment: nat)
    requires alignment > 0
    ensures var q := raw / alignment;
            DataOffset(raw, alignment) == alignment * (if raw % alignment == 0 then q else q + 1)
  {
    var r, q := raw % alignment, raw / alignment;
    assert raw == alignment * q + r;
    if r > 0 {
      SmallMod(alignment - r, alignment);
      assert alignment * (q + 1) == alignment * q + alignment;
    } else {
      MultipleMod(1, alignment);
    }
  }

  lemma SmallMod(x: nat, a: nat)
    requires x < a
    ensures x % a == x
  {
  }

  /** A multiple that is at least raw is at least the multiple that rounds raw up. */
  lemma RoundedUpLeast(raw: nat, alignment: nat, k: nat)
    requires alignment > 0 && alignment * k >= raw
    ensures k >= (if raw % alignment == 0 then raw / alignment else raw / alignment + 1)
  {
    var r, q := raw % alignment, raw / alignment;
    assert raw == alignment * q + r;
    assert alignment * (k - q) >= r;
    ScaledBounds(alignment, k - q);
    if k == q {
      assert alignment * (k - q) == 0;
    }
  }

  /** The data offset is the least aligned offset at or after the header's end. */
  lemma DataOffsetLeast(raw: nat, alignment: nat)
    requires alignment > 0
    ensures DataOffset(raw, alignment) >= raw && DataOffset(raw, alignment) % alignment == 0
    ensures forall x: nat :: x >= raw && x % alignment == 0 ==> DataOffset(raw, alignment) <= x
  {
    OffsetIsMultiple(raw, alignment);
    var up := if raw % alignment == 0 then raw / alignment else raw / alignment + 1;
    MultipleMod(up, alignment);
    forall x: nat | x >= raw && x % alignment == 0 ensures DataOffset(raw, alignment) <= x {
      assert x == alignment * (x / alignment);
      RoundedUpLeast(raw, alignment, x / alignment);
      Monotone(up, x / alignment, alignment);
    }
  }
}
