/** The device under the block cache: an array of the cache's blocks is what the cache reads
    and writes through bio_read and bio_write. */
module CacheDevice {
  import opened BigEndian
  import opened BlockIo
  import opened BlockCache

  /** A device as the array of blocks of `size` bytes that fit on it. */
  function AsBlocks(store: seq<byte>, size: nat): (bs: seq<Block>)
    requires size > 0
    ensures |bs| == |store| / size
    ensures forall i | 0 <= i < |bs| ::
              Start(i, size) + size <= |store| && bs[i] == store[Start(i, size)..Start(i, size) + size]
  {
    BlocksFit(store, size);
    seq(|store| / size, i requires 0 <= i && Start(i, size) + size <= |store| =>
      store[Start(i, size)..Start(i, size) + size])
  }

  lemma BlocksFit(store: seq<byte>, size: nat)
    requires size > 0
    ensures forall i | 0 <= i < |store| / size :: Start(i, size) + size <= |store|
  {
    forall i | 0 <= i < |store| / size
      ensures Start(i, size) + size <= |store|
    {
      BlockFits(|store|, size, i);
    }
  }

  lemma BlockFits(len: nat, size: nat, i: nat)
    requires size > 0 && i < len / size
    ensures Start(i, size) + size <= len
  {
    BlockParts(len, size);
    StartMonotone(i + 1, len / size, size);
    StartSum(i, 1, size);
    StartOne(size);
  }

  lemma BlocksApart(size: nat, i: nat, j: nat)
    requires i < j
    ensures Start(i, size) + size <= Start(j, size)
  {
    StartMonotone(i + 1, j, size);
    StartSum(i, 1, size);
    StartOne(size);
  }

  /** Overwriting one block's bytes is replacing that block. */
  lemma PatchBlock(store: seq<byte>, size: nat, b: nat, data: Block)
    requires size > 0 && b < |AsBlocks(store, size)| && |data| == size
    ensures Start(b, size) + size <= |store|
    ensures AsBlocks(Patch(store, Start(b, size), data), size) == AsBlocks(store, size)[b := data]
  {
    hide Start, Patch;
    var x, y := AsBlocks(Patch(store, Start(b, size), data), size), AsBlocks(store, size)[b := data];
    forall i | 0 <= i < |x|
      ensures x[i] == y[i]
    {
      var at := Start(i, size);
      if i == b {
        PatchData(store, Start(b, size), data);
      } else {
        if i < b {
          BlocksApart(size, i, b);
        } else {
          BlocksApart(size, b, i);
        }
        PatchSlices(store, Start(b, size), data, at, at + size);
      }
    }
  }

  /** The bio_read of find_or_fill_block: that block of the array. */
  method ReadDevice(dev: Device, size: nat, b: nat) returns (data: Block)
    requires dev.Valid() && 0 < size && b < |AsBlocks(dev.store[..], size)|
    ensures data == AsBlocks(dev.store[..], size)[b]
  {
    hide Start, Patch;
    BlockFits(dev.store.Length, size, b);
    var buf := new byte[size];
    ghost var was := buf[..];
    var n := dev.BioRead(buf, Start(b, size), size);
    PatchData(was, 0, dev.store[..][Start(b, size)..Start(b, size) + n]);
    data := buf[..];
    assert data == data[0..0 + n];
  }

  /** The bio_write of flush_block: that block of the array replaced, and no other. */
  method WriteDevice(dev: Device, size: nat, b: nat, data: Block)
    requires dev.Valid() && 0 < size == |data| && b < |AsBlocks(dev.store[..], size)|
    modifies dev.store
    ensures b < old(|AsBlocks(dev.store[..], size)|)
    ensures AsBlocks(dev.store[..], size) == old(AsBlocks(dev.store[..], size))[b := data]
  {
    hide Start, Patch;
    BlockFits(dev.store.Length, size, b);
    PatchBlock(dev.store[..], size, b, data);
    var buf := new byte[size](i requires 0 <= i < |data| => data[i]);
    assert buf[..] == data && buf[..][..size] == data;
    var n := dev.BioWrite(buf, Start(b, size), size);
  }
}
