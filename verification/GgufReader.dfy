/** src/io/gguf_parser.cpp over a byte sequence with a cursor. */
module GgufReaders {
  import opened Bytes
  import opened GgufProofs
  import opened GgufSpec
  import opened Sequences
  import opened Wrappers

  /** What a cursor method returned is what the specification reads at the old position. */
  ghost predicate Agrees<T>(r: Result<T, ErrorCode>, pos: nat, spec: Result<Parsed<T>, ErrorCode>) {
    match spec
    case Ok(p) => r == Ok(p.value) && pos == p.next
    case Err(e) => r == Err(e)
  }

  // ---------------------------------------------------------------- loop bookkeeping

  lemma {:induction false} LittleEndianNext(b: Text, x: Byte)
    ensures LittleEndian(b + [x]) == LittleEndian(b) + x as nat * Power256(|b|)
  {
    if b == [] {
      assert LittleEndian([x]) == x as nat + 256 * LittleEndian([x][1..]);
    } else {
      assert (b + [x])[1..] == b[1..] + [x];
      LittleEndianNext(b[1..], x);
      Shift(x as nat, Power256(|b| - 1));
    }
  }

  lemma Shift(x: nat, p: nat)
    ensures 256 * (x * p) == x * (256 * p)
  {
  }

  /** The elements still to be read complete those read so far. */
  ghost predicate PendingElements(data: Text, start: nat, code: nat, len: nat, read: seq<MetaValue>, pos: nat, i: nat)
    requires start <= |data| && pos <= |data| && i <= len
  {
    match ReadElements(data, pos, code, len - i)
    case Err(e) => ReadElements(data, start, code, len) == Err(e)
    case Ok(p) => ReadElements(data, start, code, len) == Ok(Parsed(read + p.value, p.next))
  }

  lemma StartElements(data: Text, start: nat, code: nat, len: nat)
    requires start <= |data|
    ensures PendingElements(data, start, code, len, [], start, 0)
  {
    if ReadElements(data, start, code, len).Ok? {
      var all := ReadElements(data, start, code, len).value.value;
      assert [] + all == all;
    }
  }

  lemma NextElement(data: Text, start: nat, code: nat, len: nat, read: seq<MetaValue>, pos: nat, i: nat)
    requires start <= |data| && pos <= |data| && i < len && PendingElements(data, start, code, len, read, pos, i)
    ensures match ReadValue(data, pos, code)
            case Err(e) => ReadElements(data, start, code, len) == Err(e)
            case Ok(v) => PendingElements(data, start, code, len, read + [v.value], v.next, i + 1)
  {
    if ReadValue(data, pos, code).Ok? {
      var v := ReadValue(data, pos, code).value;
      if ReadElements(data, v.next, code, len - i - 1).Ok? {
        var rest := ReadElements(data, v.next, code, len - i - 1).value;
        Associative(read, [v.value], rest.value);
      }
    }
  }

  ghost predicate PendingPairs(data: Text, start: nat, count: nat, read: seq<Pair>, pos: nat, i: nat)
    requires start <= |data| && pos <= |data| && i <= count
  {
    match ReadPairs(data, pos, count - i)
    case Err(e) => ReadPairs(data, start, count) == Err(e)
    case Ok(p) => ReadPairs(data, start, count) == Ok(Parsed(read + p.value, p.next))
  }

  lemma StartPairs(data: Text, start: nat, len: nat)
    requires start <= |data|
    ensures PendingPairs(data, start, len, [], start, 0)
  {
    if ReadPairs(data, start, len).Ok? {
      var all := ReadPairs(data, start, len).value.value;
      assert [] + all == all;
    }
  }

  lemma NextPair(data: Text, start: nat, count: nat, read: seq<Pair>, pos: nat, i: nat)
    requires start <= |data| && pos <= |data| && i < count && PendingPairs(data, start, count, read, pos, i)
    ensures match ReadPair(data, pos)
            case Err(e) => ReadPairs(data, start, count) == Err(e)
            case Ok(p) => PendingPairs(data, start, count, read + [p.value], p.next, i + 1)
  {
    if ReadPair(data, pos).Ok? {
      var p := ReadPair(data, pos).value;
      if ReadPairs(data, p.next, count - i - 1).Ok? {
        var rest := ReadPairs(data, p.next, count - i - 1).value;
        Associative(read, [p.value], rest.value);
      }
    }
  }

  ghost predicate PendingDims(data: Text, start: nat, count: nat, read: seq<nat>, pos: nat, i: nat)
    requires start <= |data| && pos <= |data| && i <= count
  {
    match ReadDims(data, pos, count - i)
    case Err(e) => ReadDims(data, start, count) == Err(e)
    case Ok(p) => ReadDims(data, start, count) == Ok(Parsed(read + p.value, p.next))
  }

  lemma StartDims(data: Text, start: nat, len: nat)
    requires start <= |data|
    ensures PendingDims(data, start, len, [], start, 0)
  {
    if ReadDims(data, start, len).Ok? {
      var all := ReadDims(data, start, len).value.value;
      assert [] + all == all;
    }
  }

  lemma NextDim(data: Text, start: nat, count: nat, read: seq<nat>, pos: nat, i: nat)
    requires start <= |data| && pos <= |data| && i < count && PendingDims(data, start, count, read, pos, i)
    ensures match ReadNumber(data, pos, 8)
            case Err(e) => ReadDims(data, start, count) == Err(e)
            case Ok(d) =>
              if d.value == 0 || d.value > MAX_DIM then ReadDims(data, start, count) == Err(InvalidArgument)
              else PendingDims(data, start, count, read + [d.value], d.next, i + 1)
  {
    if ReadNumber(data, pos, 8).Ok? {
      var d := ReadNumber(data, pos, 8).value;
      if d.value != 0 && d.value <= MAX_DIM && ReadDims(data, d.next, count - i - 1).Ok? {
        var rest := ReadDims(data, d.next, count - i - 1).value;
        Associative(read, [d.value], rest.value);
      }
    }
  }

  ghost predicate PendingInfos(data: Text, start: nat, count: nat, read: seq<TensorInfo>, pos: nat, i: nat)
    requires start <= |data| && pos <= |data| && i <= count
  {
    match ReadInfos(data, pos, count - i)
    case Err(e) => ReadInfos(data, start, count) == Err(e)
    case Ok(p) => ReadInfos(data, start, count) == Ok(Parsed(read + p.value, p.next))
  }

  lemma StartInfos(data: Text, start: nat, len: nat)
    requires start <= |data|
    ensures PendingInfos(data, start, len, [], start, 0)
  {
    if ReadInfos(data, start, len).Ok? {
      var all := ReadInfos(data, start, len).value.value;
      assert [] + all == all;
    }
  }

  lemma NextInfo(data: Text, start: nat, count: nat, read: seq<TensorInfo>, pos: nat, i: nat)
    requires start <= |data| && pos <= |data| && i < count && PendingInfos(data, start, count, read, pos, i)
    ensures match ReadInfo(data, pos)
            case Err(e) => ReadInfos(data, start, count) == Err(e)
            case Ok(t) => PendingInfos(data, start, count, read + [t.value], t.next, i + 1)
  {
    if ReadInfo(data, pos).Ok? {
      var t := ReadInfo(data, pos).value;
      if ReadInfos(data, t.next, count - i - 1).Ok? {
        var rest := ReadInfos(data, t.next, count - i - 1).value;
        Associative(read, [t.value], rest.value);
      }
    }
  }

  // ---------------------------------------------------------------- the reader

  datatype GgufFile = GgufFile(tensorCount: nat, pairCount: nat, dataOffset: nat, metadata: map<Text, MetaValue>,
                               infos: seq<TensorInfo>)

  class GgufStream {
    const data: Text
    var pos: nat

    ghost predicate Valid()
      reads this
    {
      pos <= |data|
    }

    constructor (data: Text)
      ensures this.data == data && pos == 0 && Valid()
    {
      this.data, pos := data, 0;
    }

    /** The little-endian readers, byte by byte. */
    method Number(width: nat) returns (r: Result<nat, ErrorCode>)
      requires Valid()
      modifies this
      ensures Valid() && pos >= old(pos) && Agrees(r, pos, ReadNumber(data, old(pos), width))
    {
      if pos + width > |data| {
        pos := |data|;
        return Err(IOError);
      }
      var v, scale := 0, 1;
      ghost var bytes := data[pos..pos + width];
      for i := 0 to width
        invariant pos == old(pos) && v == LittleEndian(bytes[..i]) && scale == Power256(i)
      {
        LittleEndianNext(bytes[..i], bytes[i]);
        assert bytes[..i + 1] == bytes[..i] + [bytes[i]];
        v := v + data[pos + i] as nat * scale;
        scale := 256 * scale;
      }
      assert bytes[..width] == bytes;
      pos := pos + width;
      return Ok(v);
    }

    method String() returns (r: Result<Text, ErrorCode>)
      requires Valid()
      modifies this
      ensures Valid() && pos >= old(pos) && Agrees(r, pos, ReadString(data, old(pos)))
    {
      var len := Number(8);
      if len.Err? {
        return Err(len.error);
      }
      if len.value > MAX_STRING {
        return Err(InvalidArgument);
      }
      if pos + len.value > |data| {
        pos := |data|;
        return Err(IOError);
      }
      var text := data[pos..pos + len.value];
      pos := pos + len.value;
      return Ok(text);
    }

    /** A metadata value of the given type; arrays call this again for each element. */
    method Value(code: nat) returns (r: Result<MetaValue, ErrorCode>)
      requires Valid()
      modifies this
      ensures Valid() && pos >= old(pos) && Agrees(r, pos, ReadValue(data, old(pos), code))
      decreases |data| - pos
    {
      ghost var start := pos;
      if Width(code) > 0 {
        var n := Number(Width(code));
        if n.Err? {
          return Err(n.error);
        }
        return Ok(Fixed(code, n.value));
      }
      if code == 8 {
        var s := String();
        if s.Err? {
          return Err(s.error);
        }
        return Ok(Str(s.value));
      }
      if code == 9 {
        var elementCode := Number(4);
        if elementCode.Err? {
          return Err(elementCode.error);
        }
        var len := Number(8);
        if len.Err? {
          return Err(len.error);
        }
        if len.value > MAX_ARRAY {
          return Err(InvalidArgument);
        }
        ghost var first := pos;
        var elements: seq<MetaValue> := [];
        StartElements(data, first, elementCode.value, len.value);
        for i := 0 to len.value
          invariant Valid() && first <= pos
          invariant PendingElements(data, first, elementCode.value, len.value, elements, pos, i)
        {
          NextElement(data, first, elementCode.value, len.value, elements, pos, i);
          var v := Value(elementCode.value);
          if v.Err? {
            return Err(v.error);
          }
          elements := elements + [v.value];
        }
        assert elements + [] == elements;
        return Ok(Array(elements));
      }
      return Err(Unsupported);
    }

    /** Key and value pairs; a key that is already there keeps its first value. */
    method Metadata(count: nat) returns (r: Result<map<Text, MetaValue>, ErrorCode>)
      requires Valid()
      modifies this
      ensures Valid()
      ensures match ReadPairs(data, old(pos), count)
              case Ok(p) => r == Ok(FirstWins(p.value)) && pos == p.next
              case Err(e) => r == Err(e)
    {
      var metadata: map<Text, MetaValue> := map[];
      ghost var pairs: seq<Pair> := [];
      StartPairs(data, pos, count);
      for i := 0 to count
        invariant Valid() && metadata == FirstWins(pairs)
        invariant PendingPairs(data, old(pos), count, pairs, pos, i)
      {
        NextPair(data, old(pos), count, pairs, pos, i);
        var key := String();
        if key.Err? {
          return Err(key.error);
        }
        var code := Number(4);
        if code.Err? {
          return Err(code.error);
        }
        var v := Value(code.value);
        if v.Err? {
          return Err(v.error);
        }
        ghost var longer := pairs + [Pair(key.value, v.value)];
        assert longer[..|pairs|] == pairs;
        if key.value !in metadata {
          metadata := metadata[key.value := v.value];
        }
        pairs := longer;
      }
      assert pairs + [] == pairs;
      return Ok(metadata);
    }

    /** The dims of one tensor, stored from the back. */
    method Dims(count: nat) returns (r: Result<seq<nat>, ErrorCode>)
      requires Valid()
      modifies this
      ensures Valid()
      ensures match ReadDims(data, old(pos), count)
              case Ok(p) => r == Ok(Reversed(p.value)) && pos == p.next
              case Err(e) => r == Err(e)
    {
      var dims: seq<nat> := seq(count, _ => 0);
      ghost var read: seq<nat> := [];
      StartDims(data, pos, count);
      for d := 0 to count
        invariant Valid() && |dims| == count && |read| == d
        invariant forall j :: 0 <= j < d ==> dims[count - 1 - j] == read[j]
        invariant PendingDims(data, old(pos), count, read, pos, d)
      {
        NextDim(data, old(pos), count, read, pos, d);
        var dim := Number(8);
        if dim.Err? {
          return Err(dim.error);
        }
        if dim.value == 0 || dim.value > MAX_DIM {
          return Err(InvalidArgument);
        }
        dims := dims[count - d - 1 := dim.value];
        read := read + [dim.value];
      }
      assert read + [] == read;
      assert dims == Reversed(read);
      return Ok(dims);
    }

    method Info() returns (r: Result<TensorInfo, ErrorCode>)
      requires Valid()
      modifies this
      ensures Valid() && Agrees(r, pos, ReadInfo(data, old(pos)))
    {
      var name := String();
      if name.Err? {
        return Err(name.error);
      }
      var count := Number(4);
      if count.Err? {
        return Err(count.error);
      }
      if count.value == 0 || count.value > MAX_DIMS {
        return Err(InvalidArgument);
      }
      var dims := Dims(count.value);
      if dims.Err? {
        return Err(dims.error);
      }
      var dtype := Number(4);
      if dtype.Err? {
        return Err(dtype.error);
      }
      var offset := Number(8);
      if offset.Err? {
        return Err(offset.error);
      }
      return Ok(TensorInfo(name.value, dims.value, dtype.value, offset.value));
    }

    method Infos(count: nat) returns (r: Result<seq<TensorInfo>, ErrorCode>)
      requires Valid()
      modifies this
      ensures Valid()
      ensures if count > MAX_TENSORS then r == Err(InvalidArgument)
              else Agrees(r, pos, ReadInfos(data, old(pos), count))
    {
      if count > MAX_TENSORS {
        return Err(InvalidArgument);
      }
      var infos: seq<TensorInfo> := [];
      StartInfos(data, pos, count);
      for i := 0 to count
        invariant Valid() && PendingInfos(data, old(pos), count, infos, pos, i)
      {
        NextInfo(data, old(pos), count, infos, pos, i);
        var info := Info();
        if info.Err? {
          return Err(info.error);
        }
        infos := infos + [info.value];
      }
      assert infos + [] == infos;
      return Ok(infos);
    }

    /** The whole header, read from the start of the file. An alignment of zero, where the source divides by it, is an
        error here. */
    method Parse() returns (r: Result<GgufFile, ErrorCode>)
      requires Valid() && pos == 0
      modifies this
      ensures Valid()
      ensures match ReadHeader(data)
              case Err(e) => r == Err(e)
              case Ok(h) =>
                var metadata := FirstWins(h.value.pairs);
                if AlignmentOf(metadata) == 0 then r.Err?
                else r == Ok(GgufFile(|h.value.infos|, |h.value.pairs|, DataOffset(h.next, AlignmentOf(metadata)),
                                      metadata, h.value.infos))
    {
      if |data| < 4 || data[..4] != Magic() {
        return Err(InvalidArgument);
      }
      pos := 4;
      var version := Number(4);
      if version.Err? {
        return Err(version.error);
      }
      if version.value != VERSION {
        return Err(Unsupported);
      }
      var tensors := Number(8);
      if tensors.Err? {
        return Err(tensors.error);
      }
      var pairs := Number(8);
      if pairs.Err? {
        return Err(pairs.error);
      }
      var metadata := Metadata(pairs.value);
      if metadata.Err? {
        return Err(metadata.error);
      }
      var infos := Infos(tensors.value);
      if infos.Err? {
        return Err(infos.error);
      }
      PairCount(data, 24, pairs.value);
      InfoCount(data, ReadPairs(data, 24, pairs.value).value.next, tensors.value);
      var alignment := AlignmentOf(metadata.value);
      if alignment == 0 {
        return Err(InternalError);
      }
      return Ok(GgufFile(tensors.value, pairs.value, DataOffset(pos, alignment), metadata.value, infos.value));
    }
  }

  lemma {:induction false} PairCount(data: Text, pos: nat, count: nat)
    requires pos <= |data|
    ensures ReadPairs(data, pos, count).Ok? ==> |ReadPairs(data, pos, count).value.value| == count
    decreases count
  {
    if count > 0 {
      var first := ReadPair(data, pos);
      if first.Ok? {
        PairCount(data, first.value.next, count - 1);
      }
    }
  }

  lemma {:induction false} InfoCount(data: Text, pos: nat, count: nat)
    requires pos <= |data|
    ensures ReadInfos(data, pos, count).Ok? ==> |ReadInfos(data, pos, count).value.value| == count
    decreases count
  {
    if count > 0 && ReadInfo(data, pos).Ok? {
      InfoCount(data, ReadInfo(data, pos).value.next, count - 1);
    }
  }

  /** The least multiple of a at or after n. */
  ghost predicate LeastMultiple(x: nat, a: nat, n: nat) {
    a > 0 && x >= n && x % a == 0 && forall y: nat :: y >= n && y % a == 0 ==> x <= y
  }

  /** The metadata hold exactly the pairs. */
  ghost predicate HoldsPairs(metadata: map<Text, MetaValue>, pairs: seq<Pair>) {
    && (forall i :: 0 <= i < |pairs| ==> pairs[i].key in metadata && metadata[pairs[i].key] == pairs[i].value)
    && (forall key :: key in metadata ==> exists i :: 0 <= i < |pairs| && pairs[i].key == key)
  }

  lemma PairHeld(metadata: map<Text, MetaValue>, pairs: seq<Pair>, key: Text, value: MetaValue)
    requires HoldsPairs(metadata, pairs)
    ensures key in metadata && metadata[key] == value <==> Pair(key, value) in pairs
  {
    if key in metadata && metadata[key] == value {
      var i :| 0 <= i < |pairs| && pairs[i].key == key;
      assert pairs[i] == Pair(key, value);
    }
    if Pair(key, value) in pairs {
      var i :| 0 <= i < |pairs| && pairs[i] == Pair(key, value);
    }
  }

  lemma AlignmentKeyText()
    ensures AlignmentKey() == Ascii("general.alignment")
  {
  }

  lemma AlignmentEntry(pairs: seq<Pair>, metadata: map<Text, MetaValue>)
    requires HoldsPairs(metadata, pairs)
    ensures forall a: nat :: Pair(Ascii("general.alignment"), U32(a)) in pairs ==> AlignmentOf(metadata) == a
    ensures (forall a: nat :: Pair(Ascii("general.alignment"), U32(a)) !in pairs) ==> AlignmentOf(metadata) == 32
  {
    var key := Ascii("general.alignment");
    AlignmentKeyText();
    forall a: nat | Pair(key, U32(a)) in pairs ensures AlignmentOf(metadata) == a {
      PairHeld(metadata, pairs, key, U32(a));
    }
    if key in metadata && metadata[key].U32? {
      PairHeld(metadata, pairs, key, U32(metadata[key].n));
    }
  }

  /** Parsing what the writer wrote: every written pair is in the metadata, the tensor table is as written, and the data
      region starts at the least multiple of the alignment at or after the header's end: that of the pair
      "general.alignment" if there is one with an unsigned 32-bit number, and 32 otherwise. */
  method WriteThenParse(h: Header, emptyCode: nat, written: Text, rest: Text) returns (file: GgufFile)
    requires HeaderFits(h) && Fits(emptyCode, 4) && DistinctKeys(h.pairs) && written == EncodeHeader(h, emptyCode)
    requires Pair(Ascii("general.alignment"), U32(0)) !in h.pairs
    ensures file.infos == h.infos && file.tensorCount == |h.infos| && file.pairCount == |h.pairs|
    ensures forall i :: 0 <= i < |h.pairs| ==>
              h.pairs[i].key in file.metadata && file.metadata[h.pairs[i].key] == h.pairs[i].value
    ensures forall key :: key in file.metadata ==> exists i :: 0 <= i < |h.pairs| && h.pairs[i].key == key
    ensures forall a: nat :: Pair(Ascii("general.alignment"), U32(a)) in h.pairs ==>
              LeastMultiple(file.dataOffset, a, |written|)
    ensures (forall a: nat :: Pair(Ascii("general.alignment"), U32(a)) !in h.pairs) ==>
              LeastMultiple(file.dataOffset, 32, |written|)
  {
    var stream := new GgufStream(written + rest);
    HeaderBack(h, emptyCode, rest);
    AllPairsKept(h.pairs);
    AlignmentEntry(h.pairs, FirstWins(h.pairs));
    var parsed := stream.Parse();
    file := parsed.value;
    DataOffsetLeast(|written|, AlignmentOf(file.metadata));
  }
}
