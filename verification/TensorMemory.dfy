/**
  Byte-addressed tensor storage (include/minillm/core/tensor.h): storage blocks, tensors as byte intervals
  of a block, and what a write leaves alone.
*/
module TensorMemory {
  import opened Bytes
  import opened Wrappers
  import opened Graphs
  import opened LiveRanges

  /** One allocation: the address the allocator chose and the bytes stored there. */
  datatype Block = Block(address: nat, data: seq<Byte>)

  /** A tensor's data pointer as block and offset, and the bytes the tensor occupies. */
  datatype Tensor = Tensor(block: nat, offset: nat, size: nat)

  predicate Inside(blocks: seq<Block>, t: Tensor) {
    t.block < |blocks| && t.offset + t.size <= |blocks[t.block].data|
  }

  function Contents(blocks: seq<Block>, t: Tensor): (c: seq<Byte>)
    requires Inside(blocks, t)
    ensures |c| == t.size
  {
    blocks[t.block].data[t.offset..t.offset + t.size]
  }

  predicate Overlap(t: Tensor, u: Tensor) {
    t.block == u.block && t.offset < u.offset + u.size && u.offset < t.offset + t.size
  }

  function Write(blocks: seq<Block>, t: Tensor, bytes: seq<Byte>): (r: seq<Block>)
    requires Inside(blocks, t) && |bytes| == t.size
    ensures |r| == |blocks|
    ensures forall b :: 0 <= b < |blocks| ==> |r[b].data| == |blocks[b].data| && r[b].address == blocks[b].address
  {
    var d := blocks[t.block].data;
    blocks[t.block := blocks[t.block].(data := d[..t.offset] + bytes + d[t.offset + t.size..])]
  }

  lemma WriteReadsBack(blocks: seq<Block>, t: Tensor, bytes: seq<Byte>)
    requires Inside(blocks, t) && |bytes| == t.size
    ensures Inside(Write(blocks, t, bytes), t) && Contents(Write(blocks, t, bytes), t) == bytes
  {
  }

  lemma WriteLeavesAlone(blocks: seq<Block>, t: Tensor, bytes: seq<Byte>, u: Tensor)
    requires Inside(blocks, t) && |bytes| == t.size && Inside(blocks, u) && !Overlap(t, u)
    ensures Inside(Write(blocks, t, bytes), u) && Contents(Write(blocks, t, bytes), u) == Contents(blocks, u)
  {
    if t.block == u.block && u.size > 0 && t.size > 0 {
      var d, d' := blocks[t.block].data, Write(blocks, t, bytes)[t.block].data;
      forall k | u.offset <= k < u.offset + u.size ensures d'[k] == d[k] {
      }
    }
  }

  /** Tensor::nbytes on a value: its size, or an error for dynamic shapes, block-quantized types and overflow. */
  function NBytes(v: Value): Result<nat, ErrorCode> {
    if HasDynamicDim(v.shape) then Err(InvalidArgument)
    else
      match (NumElements(v.shape), DTypeSize(v.dtype))
      case (Err(e), _) => Err(e)
      case (Ok(n), Err(e)) => Err(e)
      case (Ok(n), Ok(size)) => Ok(n * size)
  }

  /** The first address at or after a raw pointer that is a multiple of the alignment, as a distance. */
  function AlignPointer(address: nat, alignment: nat): (skip: nat)
    ensures alignment > 0 ==> (address + skip) % alignment == 0 && skip < alignment
  {
    AlignUp(address, alignment) - address
  }
}
