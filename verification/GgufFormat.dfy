/** The GGUF version 3 format in literal bytes: what the reader makes of them, without the writer (GGUF specification,
    section "File Structure"; the type tags are those of include/minillm/io/gguf_format.h). */
module GgufFormatSpec {
  import opened Bytes
  import opened GgufSpec

  function N2(b: Text): nat
    requires |b| == 2
  {
    b[0] as nat + 256 * b[1] as nat
  }

  function N4(b: Text): nat
    requires |b| == 4
  {
    b[0] as nat + 256 * b[1] as nat + 65536 * b[2] as nat + 16777216 * b[3] as nat
  }

  function N8(b: Text): nat
    requires |b| == 8
  {
    N4(b[..4]) + 4294967296 * N4(b[4..])
  }

  /** What the bytes b behind the tag of a fixed-size type stand for. */
  ghost predicate Stands(tag: Byte, b: Text, v: MetaValue) {
    || (tag == 0 && |b| == 1 && v == U8(b[0] as nat))
    || (tag == 1 && |b| == 1 && v == I8(if b[0] < 128 then b[0] as int else b[0] as int - 256))
    || (tag == 2 && |b| == 2 && v == U16(N2(b)))
    || (tag == 3 && |b| == 2 && v == I16(if N2(b) < 32768 then N2(b) else N2(b) - 65536))
    || (tag == 4 && |b| == 4 && v == U32(N4(b)))
    || (tag == 5 && |b| == 4 && v == I32(if N4(b) < 2147483648 then N4(b) else N4(b) - 4294967296))
    || (tag == 6 && |b| == 4 && v == F32(N4(b)))
    || (tag == 7 && |b| == 1 && v == Bool(b[0] != 0))
    || (tag == 10 && |b| == 8 && v == U64(N8(b)))
    || (tag == 11 && |b| == 8 && v == I64(if N8(b) < 0x8000_0000_0000_0000 then N8(b)
                                          else N8(b) - 0x1_0000_0000_0000_0000))
    || (tag == 12 && |b| == 8 && v == F64(N8(b)))
  }

  /** A string: eight bytes for its length, then its bytes. */
  ghost predicate StringBytes(b: Text, text: Text) {
    |b| == 8 + |text| && b[8..] == text && N8(b[..8]) == |text| <= 67108864
  }

  /** What the bytes behind a type tag stand for: a fixed-size value, a string, or an array, whose bytes are the tag of
      its elements, their number, and the elements. */
  ghost predicate ValueBytes(tag: Byte, b: Text, v: MetaValue)
    decreases v, 0
  {
    || Stands(tag, b, v)
    || (tag == 8 && v.Str? && StringBytes(b, v.text))
    || (tag == 9 && v.Array? && |b| >= 12 && b[1] == b[2] == b[3] == 0
        && N8(b[4..12]) == |v.elements| <= 16777216 && ElementBytes(b[0], b[12..], v.elements))
  }

  /** Elements one after the other. */
  ghost predicate ElementBytes(tag: Byte, b: Text, elements: seq<MetaValue>)
    decreases elements, 1
  {
    if elements == [] then b == []
    else exists w: nat :: w <= |b| && ValueBytes(tag, b[..w], elements[0]) && ElementBytes(tag, b[w..], elements[1..])
  }

  /** A value with the four bytes of its tag in front. */
  ghost predicate TaggedBytes(b: Text, v: MetaValue) {
    |b| >= 4 && b[1] == b[2] == b[3] == 0 && ValueBytes(b[0], b[4..], v)
  }
}

module GgufFormat {
  import opened Bytes
  import opened GgufProofs
  import opened GgufSpec
  import opened GgufFormatSpec
  import opened Wrappers

  // ---------------------------------------------------------------- numbers

  lemma TwoBytes(b: Text)
    requires |b| == 2
    ensures LittleEndian(b) == N2(b)
  {
    assert b[1..][1..] == [] && b[1..][0] == b[1];
    assert LittleEndian(b[1..]) == b[1] as nat;
  }

  lemma FourBytes(b: Text)
    requires |b| == 4
    ensures LittleEndian(b) == N4(b)
  {
    assert b[1..][1..] == b[2..] && b[2..][0] == b[2] && b[2..][1] == b[3];
    TwoBytes(b[2..]);
  }

  lemma {:induction false} LittleEndianJoin(a: Text, b: Text)
    ensures LittleEndian(a + b) == LittleEndian(a) + Power256(|a|) * LittleEndian(b)
  {
    if a == [] {
      assert a + b == b;
    } else {
      assert (a + b)[1..] == a[1..] + b;
      LittleEndianJoin(a[1..], b);
    }
  }

  lemma EightBytes(b: Text)
    requires |b| == 8
    ensures LittleEndian(b) == N8(b)
  {
    PowerValues();
    assert b == b[..4] + b[4..];
    LittleEndianJoin(b[..4], b[4..]);
    FourBytes(b[..4]);
    FourBytes(b[4..]);
  }

  lemma TagNumber(data: Text, pos: nat, tag: Byte)
    requires At(data, pos, [tag, 0, 0, 0])
    ensures Gives(ReadNumber(data, pos, 4), tag as nat, pos + 4)
  {
    FourBytes(data[pos..pos + 4]);
  }

  lemma LengthNumber(data: Text, pos: nat, b: Text)
    requires At(data, pos, b) && |b| == 8
    ensures Gives(ReadNumber(data, pos, 8), N8(b), pos + 8)
  {
    EightBytes(data[pos..pos + 8]);
  }

  // ---------------------------------------------------------------- values

  lemma StandsIsFixed(tag: Byte, b: Text, v: MetaValue)
    requires Stands(tag, b, v)
    ensures Width(tag as nat) == |b| > 0 && Fixed(tag as nat, LittleEndian(b)) == v
  {
    PowerValues();
    if |b| == 1 {
      assert b[1..] == [];
    } else if |b| == 2 {
      TwoBytes(b);
    } else if |b| == 4 {
      FourBytes(b);
    } else {
      EightBytes(b);
    }
  }

  lemma FixedRead(data: Text, pos: nat, tag: Byte, b: Text, v: MetaValue)
    requires Stands(tag, b, v) && At(data, pos, b) && pos <= |data|
    ensures Gives(ReadValue(data, pos, tag as nat), v, pos + |b|)
  {
    StandsIsFixed(tag, b, v);
  }

  lemma StringRead(data: Text, pos: nat, b: Text, text: Text)
    requires StringBytes(b, text) && At(data, pos, b) && pos <= |data|
    ensures Gives(ReadString(data, pos), text, pos + |b|)
  {
    assert b == b[..8] + text;
    AtSplit(data, pos, b[..8], text);
    LengthNumber(data, pos, b[..8]);
  }

  /** The reader takes exactly the bytes of a value, for every type and any depth of arrays. */
  lemma {:induction false} ValueFromBytes(data: Text, pos: nat, tag: Byte, b: Text, v: MetaValue)
    requires ValueBytes(tag, b, v) && At(data, pos, b) && pos <= |data|
    ensures Gives(ReadValue(data, pos, tag as nat), v, pos + |b|)
    decreases v, 0
  {
    if Stands(tag, b, v) {
      FixedRead(data, pos, tag, b, v);
    } else if tag == 8 {
      StringRead(data, pos, b, v.text);
    } else {
      ArrayParts(data, pos, b);
      ElementsFromBytes(data, pos + 12, b[0], b[12..], v.elements);
      ArrayRead(data, pos, b[0] as nat, v.elements, pos + |b|);
    }
  }

  lemma ArrayParts(data: Text, pos: nat, b: Text)
    requires |b| >= 12 && b[1] == b[2] == b[3] == 0 && At(data, pos, b)
    ensures Gives(ReadNumber(data, pos, 4), b[0] as nat, pos + 4)
    ensures Gives(ReadNumber(data, pos + 4, 8), N8(b[4..12]), pos + 12) && At(data, pos + 12, b[12..])
  {
    assert b == [b[0], 0, 0, 0] + b[4..12] + b[12..];
    AtSplit3(data, pos, [b[0], 0, 0, 0], b[4..12], b[12..]);
    TagNumber(data, pos, b[0]);
    LengthNumber(data, pos + 4, b[4..12]);
  }

  lemma {:induction false} ElementsFromBytes(data: Text, pos: nat, tag: Byte, b: Text, elements: seq<MetaValue>)
    requires ElementBytes(tag, b, elements) && At(data, pos, b) && pos <= |data|
    ensures Gives(ReadElements(data, pos, tag as nat, |elements|), elements, pos + |b|)
    decreases elements, 1
  {
    if elements != [] {
      var w := FirstElement(tag, b, elements);
      var mid := CutAt(data, pos, b, w);
      FirstFromBytes(data, pos, tag, b[..w], elements[0], mid);
      ElementsFromBytes(data, mid, tag, b[w..], elements[1..]);
      ElementsRead(data, pos, elements, tag as nat, mid, mid + |b[w..]|);
    }
  }

  lemma {:induction false} FirstFromBytes(data: Text, pos: nat, tag: Byte, b: Text, v: MetaValue, next: nat)
    requires ValueBytes(tag, b, v) && At(data, pos, b) && pos <= |data| && next == pos + |b|
    ensures Gives(ReadValue(data, pos, tag as nat), v, next)
    decreases v, 1
  {
    ValueFromBytes(data, pos, tag, b, v);
  }

  lemma FirstElement(tag: Byte, b: Text, elements: seq<MetaValue>) returns (w: nat)
    requires ElementBytes(tag, b, elements) && elements != []
    ensures w <= |b| && ValueBytes(tag, b[..w], elements[0]) && ElementBytes(tag, b[w..], elements[1..])
  {
    w :| w <= |b| && ValueBytes(tag, b[..w], elements[0]) && ElementBytes(tag, b[w..], elements[1..]);
  }

  lemma CutAt(data: Text, pos: nat, b: Text, w: nat) returns (mid: nat)
    requires At(data, pos, b) && w <= |b|
    ensures At(data, pos, b[..w]) && At(data, mid, b[w..]) && mid <= |data|
    ensures mid == pos + |b[..w]| && mid + |b[w..]| == pos + |b|
  {
    assert b == b[..w] + b[w..];
    mid := pos + w;
    AtSplit(data, pos, b[..w], b[w..]);
  }

  lemma TaggedRead(data: Text, pos: nat, b: Text, v: MetaValue)
    requires TaggedBytes(b, v) && At(data, pos, b) && pos <= |data|
    ensures Gives(ReadNumber(data, pos, 4), b[0] as nat, pos + 4)
    ensures pos + 4 <= |data| && Gives(ReadValue(data, pos + 4, b[0] as nat), v, pos + |b|)
  {
    assert b == [b[0], 0, 0, 0] + b[4..];
    AtSplit(data, pos, [b[0], 0, 0, 0], b[4..]);
    TagNumber(data, pos, b[0]);
    ValueFromBytes(data, pos + 4, b[0], b[4..], v);
  }

  /** A metadata pair, for every type: the length of the key, the key, the tag of the type, and the value. */
  lemma PairFromBytes(data: Text, pos: nat, key: Text, k: Text, b: Text, v: MetaValue)
    requires StringBytes(k, key) && TaggedBytes(b, v) && At(data, pos, k + b) && pos <= |data|
    ensures Gives(ReadPair(data, pos), Pair(key, v), pos + |k| + |b|)
  {
    var mid := pos + |k|;
    AtSplit(data, pos, k, b);
    StringRead(data, pos, k, key);
    TaggedRead(data, mid, b, v);
    PairRead(data, pos, Parsed(key, mid), Parsed(b[0] as nat, mid + 4), Parsed(v, mid + |b|));
  }

  /** No other tag is known, and no string or array may be longer than these. */
  lemma RefusedBytes(data: Text, pos: nat, b: Text)
    requires At(data, pos, b) && |b| == 8 && pos <= |data|
    ensures forall tag: nat :: tag > 12 ==> ReadValue(data, pos, tag) == Err(Unsupported)
    ensures N8(b) > 67108864 ==> ReadString(data, pos) == Err(InvalidArgument)
    ensures pos >= 4 && N8(b) > 16777216 ==> ReadValue(data, pos - 4, 9) == Err(InvalidArgument)
  {
    LengthNumber(data, pos, b);
  }

  /** One entry of a table that says how many blocks a model has: the value 32 is read as an unsigned number under tag 4
      and as the bits of a float under tag 6. */
  lemma BlockCount(key: Text, rest: Text)
    requires |key| < 256
    ensures var k := [|key| as Byte, 0, 0, 0, 0, 0, 0, 0] + key;
            && Gives(ReadPair(k + [4, 0, 0, 0, 0x20, 0, 0, 0] + rest, 0), Pair(key, U32(32)), |key| + 16)
            && Gives(ReadPair(k + [6, 0, 0, 0, 0x20, 0, 0, 0] + rest, 0), Pair(key, F32(32)), |key| + 16)
  {
    var k := [|key| as Byte, 0, 0, 0, 0, 0, 0, 0] + key;
    assert k[..8] == [|key| as Byte, 0, 0, 0, 0, 0, 0, 0];
    var u, f := [4, 0, 0, 0, 0x20, 0, 0, 0], [6, 0, 0, 0, 0x20, 0, 0, 0];
    assert u[4..] == f[4..] == [0x20, 0, 0, 0];
    AtStart(k + u, rest);
    AtStart(k + f, rest);
    PairFromBytes(k + u + rest, 0, key, k, u, U32(32));
    PairFromBytes(k + f + rest, 0, key, k, f, F32(32));
  }

  lemma AtStart(a: Text, rest: Text)
    ensures At(a + rest, 0, a)
  {
  }

  // ---------------------------------------------------------------- the header

  /** The tensor table entry of a matrix: name, number of dims, the dims with the last one first, type and offset. */
  lemma MatrixFromBytes(data: Text, pos: nat, n: Text, name: Text, cols: Text, rows: Text, dtype: Text, offset: Text)
    requires |cols| == |rows| == |offset| == 8 && |dtype| == 4 && StringBytes(n, name) && pos <= |data|
    requires 1 <= N8(cols) <= 0x7FFF_FFFF_FFFF_FFFF && 1 <= N8(rows) <= 0x7FFF_FFFF_FFFF_FFFF
    requires At(data, pos, n + [2, 0, 0, 0] + cols + rows + dtype + offset)
    ensures Gives(ReadInfo(data, pos), TensorInfo(name, [N8(rows), N8(cols)], N4(dtype), N8(offset)), pos + |n| + 32)
  {
    var a, b := n + [2, 0, 0, 0], cols + rows;
    assert n + [2, 0, 0, 0] + cols + rows + dtype + offset == a + b + (dtype + offset);
    AtSplit3(data, pos, a, b, dtype + offset);
    AtSplit(data, pos, n, [2, 0, 0, 0]);
    AtSplit(data, pos + |a|, cols, rows);
    AtSplit(data, pos + |a| + 16, dtype, offset);
    StringRead(data, pos, n, name);
    TagNumber(data, pos + |n|, 2);
    TwoDims(data, pos + |a|, cols, rows);
    FourBytes(dtype);
    LengthNumber(data, pos + |a| + 20, offset);
  }

  lemma TwoDims(data: Text, pos: nat, cols: Text, rows: Text)
    requires |cols| == |rows| == 8 && pos <= |data| && At(data, pos, cols) && At(data, pos + 8, rows)
    requires 1 <= N8(cols) <= 0x7FFF_FFFF_FFFF_FFFF && 1 <= N8(rows) <= 0x7FFF_FFFF_FFFF_FFFF
    ensures Gives(ReadDims(data, pos, 2), [N8(cols), N8(rows)], pos + 16)
    ensures Reversed([N8(cols), N8(rows)]) == [N8(rows), N8(cols)]
  {
    LengthNumber(data, pos, cols);
    LengthNumber(data, pos + 8, rows);
    assert ReadDims(data, pos + 16, 0) == Ok(Parsed([], pos + 16));
    assert [N8(rows)] + [] == [N8(rows)];
    assert Gives(ReadDims(data, pos + 8, 1), [N8(rows)], pos + 16);
    assert [N8(cols)] + [N8(rows)] == [N8(cols), N8(rows)];
  }

  /** The file begins with "GGUF", version 3, the number of tensors and the number of pairs; then come the pairs and
      then the tensor table. */
  lemma HeaderFromBytes(data: Text, tensors: Text, pairs: Text, entries: seq<Pair>,
                        infos: seq<TensorInfo>, mid: nat, end: nat)
    requires |tensors| == |pairs| == 8
    requires At(data, 0, [0x47, 0x47, 0x55, 0x46] + [3, 0, 0, 0] + tensors + pairs)
    requires Gives(ReadPairs(data, 24, N8(pairs)), entries, mid) && mid <= |data|
    requires N8(tensors) <= 1048576 && Gives(ReadInfos(data, mid, N8(tensors)), infos, end)
    ensures Gives(ReadHeader(data), Header(entries, infos), end)
  {
    HeaderStart(data, tensors, pairs);
  }

  lemma HeaderStart(data: Text, tensors: Text, pairs: Text)
    requires |tensors| == |pairs| == 8
    requires At(data, 0, [0x47, 0x47, 0x55, 0x46] + [3, 0, 0, 0] + tensors + pairs)
    ensures |data| >= 24 && data[..4] == Magic() && Gives(ReadNumber(data, 4, 4), VERSION, 8)
    ensures Gives(ReadNumber(data, 8, 8), N8(tensors), 16) && Gives(ReadNumber(data, 16, 8), N8(pairs), 24)
  {
    var a, b: Text := [0x47, 0x47, 0x55, 0x46], [3, 0, 0, 0];
    assert a + b + tensors + pairs == (a + b) + tensors + pairs;
    AtSplit3(data, 0, a + b, tensors, pairs);
    AtSplit(data, 0, a, b);
    TagNumber(data, 4, 3);
    LengthNumber(data, 8, tensors);
    LengthNumber(data, 16, pairs);
  }

  /** What the tensor table may not hold: no dims or more than 8, a dim of 0 or beyond a signed 64-bit number, or more
      than 1048576 tensors. */
  lemma RefusedTensors(data: Text, pos: nat, n: Text, name: Text, count: Text, dim: Text)
    requires StringBytes(n, name) && |count| == 4 && |dim| == 8 && pos <= |data| && At(data, pos, n + count + dim)
    ensures N4(count) == 0 || N4(count) > 8 || N8(dim) == 0 || N8(dim) > 0x7FFF_FFFF_FFFF_FFFF ==>
              ReadInfo(data, pos) == Err(InvalidArgument)
  {
    AtSplit3(data, pos, n, count, dim);
    StringRead(data, pos, n, name);
    FourBytes(count);
    LengthNumber(data, pos + |n| + 4, dim);
  }

  lemma RefusedCount(data: Text, tensors: Text, pairs: Text)
    requires |tensors| == |pairs| == 8 && N8(tensors) > 1048576
    requires At(data, 0, [0x47, 0x47, 0x55, 0x46] + [3, 0, 0, 0] + tensors + pairs)
    requires ReadPairs(data, 24, N8(pairs)).Ok?
    ensures ReadHeader(data) == Err(InvalidArgument)
  {
    HeaderStart(data, tensors, pairs);
  }

  /** Any other beginning is refused, and so is any other version. */
  lemma OtherStarts(data: Text)
    ensures |data| < 4 || data[..4] != [0x47, 0x47, 0x55, 0x46] ==> ReadHeader(data) == Err(InvalidArgument)
    ensures |data| >= 8 && data[..4] == [0x47, 0x47, 0x55, 0x46] && N4(data[4..8]) != 3 ==>
              ReadHeader(data) == Err(Unsupported)
  {
    if |data| >= 8 {
      FourBytes(data[4..8]);
    }
  }
}
