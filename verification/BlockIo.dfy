/** Block devices read and written by bytes: the deblocking layer, the direct memory device,
    and subdevices as windows onto their parents. */
module BlockIo {
  import opened Options
  import opened Word32
  import opened BigEndian

  const ERASE_BUF_SIZE := 4096

  // ---- blocks and bytes ----

  /** Where block number `n` starts, and how many bytes `n` blocks are. */
  function Start(n: nat, size: nat): nat { n * size }

  lemma StartMonotone(a: nat, b: nat, size: nat)
    requires a <= b
    ensures Start(a, size) <= Start(b, size)
  {
  }

  lemma StartSum(a: nat, b: nat, size: nat)
    ensures Start(a + b, size) == Start(a, size) + Start(b, size)
  {
  }

  lemma StartOne(size: nat)
    ensures Start(1, size) == size && Start(0, size) == 0
  {
  }

  /** An offset is so many whole blocks and a rest. */
  lemma BlockParts(offset: nat, size: nat)
    requires size > 0
    ensures offset == Start(offset / size, size) + offset % size && offset % size < size
  {
  }

  lemma NextBlock(block: nat, size: nat)
    ensures Start(block + 1, size) == Start(block, size) + size
  {
    StartSum(block, 1, size);
    StartOne(size);
  }

  /** A block that starts inside the device lies inside it. */
  lemma BlockInside(block: nat, size: nat, count: nat)
    requires Start(block, size) < Start(count, size)
    ensures block < count && Start(block, size) + size <= Start(count, size)
  {
    hide Start;
    if block >= count {
      StartMonotone(count, block, size);
    }
    StartMonotone(block + 1, count, size);
    NextBlock(block, size);
  }

  lemma BlocksInside(block: nat, blocks: nat, size: nat, count: nat)
    requires size > 0 && Start(block, size) + Start(blocks, size) <= Start(count, size)
    ensures block + blocks <= count && Start(block + blocks, size) == Start(block, size) + Start(blocks, size)
  {
    hide Start;
    StartSum(block, blocks, size);
    if block + blocks > count {
      StartMonotone(count + 1, block + blocks, size);
      NextBlock(count, size);
    }
  }

  /** What the range checks leave of a transfer. */
  function Clamp(size: nat, offset: int, len: nat): nat {
    if offset < 0 || offset >= size then 0 else if offset + len > size then size - offset else len
  }

  /** As much as was asked for, or all there is from the offset on; nothing outside the device. */
  lemma ClampIs(size: nat, offset: int, len: nat)
    ensures var n := Clamp(size, offset, len);
            if 0 <= offset < size then n <= len && n <= size - offset && (n == len || n == size - offset) else n == 0
  {
  }

  /** The value bio_read, bio_write and bio_erase return when transfers succeed. */
  function Transferred(size: nat, offset: int, len: nat): int {
    if offset < 0 then -1 else Clamp(size, offset, len)
  }

  function Zeros(n: nat): (s: seq<byte>)
    ensures |s| == n && forall i | 0 <= i < n :: s[i] == 0
  {
    seq(n, _ => 0)
  }

  /** Writing back a patched slice patches the whole. */
  lemma PatchSlice(s: seq<byte>, a: nat, n: nat, o: nat, d: seq<byte>)
    requires a + n <= |s| && o + |d| <= n
    ensures Patch(s, a, Patch(s[a..a + n], o, d)) == Patch(s, a + o, d)
  {
    var x := s[a..a + n];
    assert s[..a] + x[..o] == s[..a + o];
    assert x[o + |d|..] + s[a + n..] == s[a + o + |d|..];
    assert Patch(s, a, Patch(x, o, d)) == s[..a] + (x[..o] + d + x[o + |d|..]) + s[a + n..];
  }

  lemma TakeMore(s: seq<byte>, p: nat, n: nat)
    requires p + n <= |s|
    ensures s[..p] + s[p..p + n] == s[..p + n]
  {
  }

  lemma SliceMore(s: seq<byte>, o: nat, p: nat, n: nat)
    requires o + p + n <= |s|
    ensures s[o..o + p] + s[o + p..o + p + n] == s[o..o + p + n]
  {
  }

  // ---- a device ----

  /** A device of whole blocks. `direct` says that its read and write hooks are those of the
      memory device rather than the deblocking defaults. */
  class Device {
    const blockSize: nat
    const blockCount: nat
    const store: array<byte>
    const direct: bool

    predicate Valid()
      reads this
    {
      blockSize > 0 && store.Length == Start(blockCount, blockSize)
    }

    constructor (blockSize: nat, store: array<byte>, direct: bool)
      requires blockSize > 0 && store.Length % blockSize == 0
      ensures Valid() && this.store == store && this.direct == direct && this.blockSize == blockSize
    {
      BlockParts(store.Length, blockSize);
      this.blockSize, this.blockCount, this.store, this.direct := blockSize, store.Length / blockSize, store, direct;
    }

    /** bio_read_block and the read_block hook, in range. */
    method ReadBlock(buf: array<byte>, at: nat, block: nat, count: nat)
      requires Valid() && buf != store && block + count <= blockCount && at + Start(count, blockSize) <= buf.Length
      modifies buf
      ensures Start(block, blockSize) + Start(count, blockSize) <= store.Length
      ensures buf[..] == Patch(old(buf[..]), at,
                store[Start(block, blockSize)..Start(block, blockSize) + Start(count, blockSize)])
    {
      hide Start, Patch;
      StartSum(block, count, blockSize);
      StartMonotone(block + count, blockCount, blockSize);
      MemCpy(buf, at, store[Start(block, blockSize)..Start(block, blockSize) + Start(count, blockSize)]);
    }

    /** bio_write_block and the write_block hook, in range. */
    method WriteBlock(buf: array<byte>, at: nat, block: nat, count: nat)
      requires Valid() && buf != store && block + count <= blockCount && at + Start(count, blockSize) <= buf.Length
      modifies store
      ensures Start(block, blockSize) + Start(count, blockSize) <= store.Length
      ensures store[..] == Patch(old(store[..]), Start(block, blockSize), buf[at..at + Start(count, blockSize)])
    {
      hide Start, Patch;
      StartSum(block, count, blockSize);
      StartMonotone(block + count, blockCount, blockSize);
      MemCpy(store, Start(block, blockSize), buf[at..at + Start(count, blockSize)]);
    }

    /** A temporary buffer holding one block. */
    method FetchBlock(block: nat) returns (temp: array<byte>)
      requires Valid() && block < blockCount
      ensures fresh(temp) && temp.Length == blockSize && Start(block, blockSize) + blockSize <= store.Length
      ensures temp[..] == store[..][Start(block, blockSize)..Start(block, blockSize) + blockSize]
    {
      hide Start, Patch;
      StartOne(blockSize);
      temp := new byte[blockSize];
      ghost var blank := temp[..];
      ReadBlock(temp, 0, block, 1);
      WholePatch(blank, store[Start(block, blockSize)..Start(block, blockSize) + blockSize]);
      assert store[Start(block, blockSize)..Start(block, blockSize) + blockSize]
          == store[..][Start(block, blockSize)..Start(block, blockSize) + blockSize];
    }

    lemma WholePatch(a: seq<byte>, d: seq<byte>)
      requires |a| == |d|
      ensures Patch(a, 0, d) == d
    {
    }

    /** A partial block: read into a temporary buffer, part of it copied out. */
    method ReadPart(buf: array<byte>, at: nat, block: nat, skip: nat, n: nat)
      requires Valid() && buf != store && block < blockCount && skip + n <= blockSize && at + n <= buf.Length
      modifies buf
      ensures Start(block, blockSize) + skip + n <= store.Length
      ensures buf[..] == Patch(old(buf[..]), at,
                store[..][Start(block, blockSize) + skip..Start(block, blockSize) + skip + n])
    {
      hide Start, Patch;
      var temp := FetchBlock(block);
      var base := Start(block, blockSize);
      SliceSlice(store[..], base, base + blockSize, skip, skip + n);
      assert temp[skip..skip + n] == temp[..][skip..skip + n];
      MemCpy(buf, at, temp[skip..skip + n]);
    }

    /** The first `p` bytes have been read. */
    ghost predicate ReadSoFar(was: seq<byte>, buf: seq<byte>, s: seq<byte>, offset: nat, p: nat) {
      offset + p <= |s| && p <= |was| && buf == Patch(was, 0, s[offset..offset + p])
    }

    lemma ReadMore(was: seq<byte>, mid: seq<byte>, buf: seq<byte>, s: seq<byte>, offset: nat, p: nat, n: nat)
      requires ReadSoFar(was, mid, s, offset, p) && offset + p + n <= |s| && p + n <= |was| == |mid|
      requires buf == Patch(mid, p, s[offset + p..offset + p + n])
      ensures ReadSoFar(was, buf, s, offset, p + n)
    {
      hide Patch;
      PatchMore(was, 0, s[offset..offset + p], s[offset + p..offset + p + n]);
      SliceMore(s, offset, p, n);
    }

    /** The partial first block of bio_default_read. */
    method ReadHead(buf: array<byte>, offset: nat, len: nat) returns (p: nat, block: nat)
      requires Valid() && buf != store && offset + len <= store.Length && offset < store.Length && len <= buf.Length
      modifies buf
      ensures p <= len && ReadSoFar(old(buf[..]), buf[..], store[..], offset, p)
      ensures p < len ==> Start(block, blockSize) == offset + p
    {
      hide Start, Patch;
      block, p := offset / blockSize, 0;
      BlockParts(offset, blockSize);
      BlockInside(block, blockSize, blockCount);
      PatchNothing(buf[..], 0);
      assert store[..][offset..offset + 0] == [];
      if offset % blockSize != 0 {
        var skip := offset % blockSize;
        p := if blockSize - skip <= len then blockSize - skip else len;
        ReadPart(buf, 0, block, skip, p);
        NextBlock(block, blockSize);
        block := block + 1;
      }
    }

    /** bio_default_read: partial first block, whole blocks, partial last block. */
    method DefaultRead(buf: array<byte>, offset: nat, len: nat) returns (n: int)
      requires Valid() && buf != store && offset + len <= store.Length && offset < store.Length && len <= buf.Length
      modifies buf
      ensures n == len && buf[..] == Patch(old(buf[..]), 0, store[..][offset..offset + len])
    {
      hide Start, Patch;
      ghost var was, s := buf[..], store[..];
      var p, block := ReadHead(buf, offset, len);
      var left := len - p;
      if left >= blockSize {
        var blocks := left / blockSize;
        BlockParts(left, blockSize);
        var bytes := Start(blocks, blockSize);
        BlocksInside(block, blocks, blockSize, blockCount);
        ghost var mid := buf[..];
        ReadBlock(buf, p, block, blocks);
        assert store[offset + p..offset + p + bytes] == s[offset + p..offset + p + bytes];
        ReadMore(was, mid, buf[..], s, offset, p, bytes);
        p, left, block := p + bytes, left - bytes, block + blocks;
      }
      if left > 0 {
        BlockInside(block, blockSize, blockCount);
        ghost var mid := buf[..];
        ReadPart(buf, p, block, 0, left);
        ReadMore(was, mid, buf[..], s, offset, p, left);
      }
      n := len;
    }

    /** mem_bdev_read */
    method MemRead(buf: array<byte>, offset: nat, len: nat) returns (n: int)
      requires Valid() && buf != store && offset + len <= store.Length && len <= buf.Length
      modifies buf
      ensures n == len && buf[..] == Patch(old(buf[..]), 0, store[..][offset..offset + len])
    {
      assert store[offset..offset + len] == store[..][offset..offset + len];
      MemCpy(buf, 0, store[offset..offset + len]);
      n := len;
    }

    /** A partial block: read, changed in part, written back. */
    method WritePart(buf: array<byte>, at: nat, block: nat, skip: nat, n: nat)
      requires Valid() && buf != store && block < blockCount && skip + n <= blockSize && at + n <= buf.Length
      modifies store
      ensures Start(block, blockSize) + skip + n <= store.Length
      ensures store[..] == Patch(old(store[..]), Start(block, blockSize) + skip, buf[..][at..at + n])
    {
      hide Start, Patch;
      ghost var s := store[..];
      var temp := FetchBlock(block);
      ghost var x := temp[..];
      MemCpy(temp, skip, buf[at..at + n]);
      StartOne(blockSize);
      WriteBlock(temp, 0, block, 1);
      assert temp[0..0 + blockSize] == temp[..] == Patch(x, skip, buf[at..at + n]);
      assert buf[at..at + n] == buf[..][at..at + n];
      PatchSlice(s, Start(block, blockSize), blockSize, skip, buf[at..at + n]);
    }

    /** The first `p` bytes have been written. */
    ghost predicate WrittenSoFar(was: seq<byte>, now: seq<byte>, data: seq<byte>, offset: nat, p: nat) {
      offset + p <= |was| && p <= |data| && now == Patch(was, offset, data[..p])
    }

    lemma WriteMore(was: seq<byte>, mid: seq<byte>, now: seq<byte>, data: seq<byte>, offset: nat, p: nat, n: nat)
      requires WrittenSoFar(was, mid, data, offset, p) && offset + p + n <= |was| == |mid| && p + n <= |data|
      requires now == Patch(mid, offset + p, data[p..p + n])
      ensures WrittenSoFar(was, now, data, offset, p + n)
    {
      hide Patch;
      PatchMore(was, offset, data[..p], data[p..p + n]);
      TakeMore(data, p, n);
    }

    /** The partial first block of bio_default_write. */
    method WriteHead(buf: array<byte>, offset: nat, len: nat) returns (p: nat, block: nat)
      requires Valid() && buf != store && offset + len <= store.Length && offset < store.Length && len <= buf.Length
      modifies store
      ensures p <= len && WrittenSoFar(old(store[..]), store[..], buf[..], offset, p)
      ensures p < len ==> Start(block, blockSize) == offset + p
    {
      hide Start, Patch;
      block, p := offset / blockSize, 0;
      BlockParts(offset, blockSize);
      BlockInside(block, blockSize, blockCount);
      PatchNothing(store[..], offset);
      assert buf[..][..0] == [];
      if offset % blockSize != 0 {
        var skip := offset % blockSize;
        p := if blockSize - skip <= len then blockSize - skip else len;
        WritePart(buf, 0, block, skip, p);
        assert buf[..][0..0 + p] == buf[..][..p];
        NextBlock(block, blockSize);
        block := block + 1;
      }
    }

    /** bio_default_write */
    method DefaultWrite(buf: array<byte>, offset: nat, len: nat) returns (n: int)
      requires Valid() && buf != store && offset + len <= store.Length && offset < store.Length && len <= buf.Length
      modifies store
      ensures n == len && store[..] == Patch(old(store[..]), offset, buf[..][..len])
    {
      hide Start, Patch;
      ghost var was, data := store[..], buf[..];
      var p, block := WriteHead(buf, offset, len);
      var left := len - p;
      if left >= blockSize {
        var blocks := left / blockSize;
        BlockParts(left, blockSize);
        var bytes := Start(blocks, blockSize);
        BlocksInside(block, blocks, blockSize, blockCount);
        ghost var mid := store[..];
        WriteBlock(buf, p, block, blocks);
        assert buf[p..p + bytes] == data[p..p + bytes];
        WriteMore(was, mid, store[..], data, offset, p, bytes);
        p, left, block := p + bytes, left - bytes, block + blocks;
      }
      if left > 0 {
        BlockInside(block, blockSize, blockCount);
        ghost var mid := store[..];
        WritePart(buf, p, block, 0, left);
        WriteMore(was, mid, store[..], data, offset, p, left);
      }
      n := len;
    }

    /** mem_bdev_write */
    method MemWrite(buf: array<byte>, offset: nat, len: nat) returns (n: int)
      requires Valid() && buf != store && offset + len <= store.Length && len <= buf.Length
      modifies store
      ensures n == len && store[..] == Patch(old(store[..]), offset, buf[..][..len])
    {
      assert buf[..len] == buf[..][..len];
      MemCpy(store, offset, buf[..len]);
      n := len;
    }

    /** bio_read: through either hook the bytes of the clamped range. */
    method BioRead(buf: array<byte>, offset: int, len: nat) returns (n: int)
      requires Valid() && buf != store && len <= buf.Length
      modifies buf
      ensures n == Transferred(store.Length, offset, len)
      ensures n > 0 ==> buf[..] == Patch(old(buf[..]), 0, store[..][offset..offset + n])
      ensures n <= 0 ==> buf[..] == old(buf[..])
    {
      hide Patch, Start;
      if offset < 0 {
        return -1;
      }
      if offset >= store.Length || len == 0 {
        return 0;
      }
      var l := if offset + len > store.Length then store.Length - offset else len;
      if direct {
        n := MemRead(buf, offset, l);
      } else {
        n := DefaultRead(buf, offset, l);
      }
    }

    /** bio_write: through either hook the bytes of the clamped range are replaced, and no others. */
    method BioWrite(buf: array<byte>, offset: int, len: nat) returns (n: int)
      requires Valid() && buf != store && len <= buf.Length
      modifies store
      ensures n == Transferred(store.Length, offset, len)
      ensures n > 0 ==> store[..] == Patch(old(store[..]), offset, buf[..][..n])
      ensures n <= 0 ==> store[..] == old(store[..])
    {
      hide Patch, Start;
      if offset < 0 {
        return -1;
      }
      if offset >= store.Length || len == 0 {
        return 0;
      }
      var l := if offset + len > store.Length then store.Length - offset else len;
      if direct {
        n := MemWrite(buf, offset, l);
      } else {
        n := DefaultWrite(buf, offset, l);
      }
    }

    /** bio_erase with bio_default_erase: zeros over the clamped range. */
    method BioErase(offset: int, len: nat) returns (n: int)
      requires Valid()
      modifies store
      ensures n == Transferred(store.Length, offset, len)
      ensures n > 0 ==> store[..] == Patch(old(store[..]), offset, Zeros(n))
      ensures n <= 0 ==> store[..] == old(store[..])
    {
      hide Patch, Start;
      if offset < 0 {
        return -1;
      }
      if offset >= store.Length || len == 0 {
        return 0;
      }
      var l := if offset + len > store.Length then store.Length - offset else len;
      EraseRange(offset, l);
      n := l;
    }

    /** bio_default_erase */
    method EraseRange(offset: nat, len: nat)
      requires Valid() && offset + len <= store.Length
      modifies store
      ensures store[..] == Patch(old(store[..]), offset, Zeros(len))
    {
      hide Patch, Start, Zeros;
      var zeros := new byte[ERASE_BUF_SIZE](_ => 0);
      ghost var s := store[..];
      var left: nat, pos: nat := len, offset;
      PatchNothing(s, offset);
      NoZeros();
      while left > 0
        invariant offset <= pos && pos + left == offset + len
        invariant forall i | 0 <= i < zeros.Length :: zeros[i] == 0
        invariant store[..] == Patch(s, offset, Zeros(pos - offset))
      {
        var chunk := if left <= ERASE_BUF_SIZE then left else ERASE_BUF_SIZE;
        var written := BioWrite(zeros, pos, chunk);
        ZerosAre(zeros[..][..chunk]);
        PatchMore(s, offset, Zeros(pos - offset), Zeros(chunk));
        MoreZeros(pos - offset, chunk);
        pos := pos + written;
        left := left - written;
      }
    }

    lemma NoZeros()
      ensures Zeros(0) == []
    {
    }

    lemma ZerosAre(s: seq<byte>)
      requires forall i | 0 <= i < |s| :: s[i] == 0
      ensures s == Zeros(|s|)
    {
    }

    lemma MoreZeros(a: nat, b: nat)
      ensures Zeros(a) + Zeros(b) == Zeros(a + b)
    {
    }
  }

  // ---- subdevices ----

  /** A stack of subdevices on a root device: each is so many blocks into its parent. */
  datatype Stack = Root | Sub(parent: Stack, offset: nat, blocks: nat)

  function Blocks(d: Stack, root: nat): nat {
    match d
    case Root => root
    case Sub(_, _, blocks) => blocks
  }

  /** As bio_publish_subdevice checks: each window fits into its parent. */
  predicate Nested(d: Stack, root: nat) {
    match d
    case Root => true
    case Sub(parent, offset, blocks) => Nested(parent, root) && offset + blocks <= Blocks(parent, root)
  }

  /** bio_publish_subdevice, by a parent that is there: the window, unless the check refuses it. */
  method Publish(parent: Stack, root: nat, start: u32, blocks: u32) returns (d: Option<Stack>)
    requires Nested(parent, root) && root < W
    ensures d == if U32(start + blocks) > Blocks(parent, root) then None else Some(Sub(parent, start, blocks))
    ensures start + blocks < W ==>
              (d.Some? <==> start + blocks <= Blocks(parent, root)) && (d.Some? ==> Nested(d.value, root))
  {
    WindowInside(parent, root);
    if U32(start + blocks) > Blocks(parent, root) {
      return None;
    }
    d := Some(Sub(parent, start, blocks));
  }

  /** The check adds in 32 bits: of the windows it lets through exactly those that end within
      the first 2^32 blocks fit into the parent. */
  lemma PublishNested(parent: Stack, root: nat, start: u32, blocks: u32)
    requires Nested(parent, root) && root < W && U32(start + blocks) <= Blocks(parent, root)
    ensures Nested(Sub(parent, start, blocks), root) <==> start + blocks < W
  {
    WindowInside(parent, root);
  }

  /** First block of the window on the root device. */
  function Window(d: Stack): nat {
    match d
    case Root => 0
    case Sub(parent, offset, _) => Window(parent) + offset
  }

  /** A byte offset into a subdevice as it reaches the parent: block number times block size
      is a 32-bit product. */
  function ToParent(offset: int, start: nat, size: nat): int { offset + U32(start * size) }

  /** The product is the window's start exactly when that lies within the first 4 GB. */
  lemma ToParentRight(offset: int, start: nat, size: nat)
    ensures ToParent(offset, start, size) == offset + Start(start, size) <==> Start(start, size) < W
  {
  }

  /** No product along the stack wraps. */
  predicate NoWrap(d: Stack, size: nat) {
    match d
    case Root => true
    case Sub(parent, offset, _) => NoWrap(parent, size) && Start(offset, size) < W
  }

  /** Every window lies inside the root device. */
  lemma {:induction false} WindowInside(d: Stack, root: nat)
    requires Nested(d, root)
    ensures Window(d) + Blocks(d, root) <= root
    decreases d
  {
    if d.Sub? {
      WindowInside(d.parent, root);
    }
  }

  /** One level of the translation: the clamped range, seen from the parent. */
  lemma OneLevel(d: Stack, root: nat, size: nat, offset: int, len: nat)
    requires d.Sub? && Nested(d, root) && NoWrap(d, size) && offset >= 0
    ensures var n := Clamp(Start(d.blocks, size), offset, len);
            && Start(Window(d), size) == Start(Window(d.parent), size) + Start(d.offset, size)
            && ToParent(offset, d.offset, size) == offset + Start(d.offset, size)
            && (n > 0 ==> Clamp(Start(Blocks(d.parent, root), size), ToParent(offset, d.offset, size), n) == n)
  {
    ToParentRight(offset, d.offset, size);
    StartSum(Window(d.parent), d.offset, size);
    StartSum(d.offset, d.blocks, size);
    StartMonotone(d.offset + d.blocks, Blocks(d.parent, root), size);
    hide Start, ToParent, Nested, NoWrap;
  }

  /** The bytes of the window lie on the root device. */
  lemma WindowBytes(d: Stack, dev: Device)
    requires dev.Valid() && Nested(d, dev.blockCount)
    ensures Start(Window(d), dev.blockSize) + Start(Blocks(d, dev.blockCount), dev.blockSize) <= dev.store.Length
  {
    hide Start;
    WindowInside(d, dev.blockCount);
    StartSum(Window(d), Blocks(d, dev.blockCount), dev.blockSize);
    StartMonotone(Window(d) + Blocks(d, dev.blockCount), dev.blockCount, dev.blockSize);
  }

  /** bio_read on a stack of subdevices: the bytes at that place in the window. */
  method StackRead(d: Stack, dev: Device, buf: array<byte>, offset: int, len: nat) returns (n: int)
    requires dev.Valid() && buf != dev.store && len <= buf.Length && Nested(d, dev.blockCount)
    requires NoWrap(d, dev.blockSize)
    modifies buf
    ensures n == Transferred(Start(Blocks(d, dev.blockCount), dev.blockSize), offset, len)
    ensures n > 0 ==>
              0 <= Start(Window(d), dev.blockSize) + offset
                <= Start(Window(d), dev.blockSize) + offset + n <= dev.store.Length
                      && buf[..] == Patch(old(buf[..]), 0,
                           dev.store[..][Start(Window(d), dev.blockSize) + offset
                                         ..Start(Window(d), dev.blockSize) + offset + n])
    ensures n <= 0 ==> buf[..] == old(buf[..])
    decreases d
  {
    hide Start, Patch, ToParent;
    WindowBytes(d, dev);
    match d
    case Root =>
      StartOne(dev.blockSize);
      n := dev.BioRead(buf, offset, len);
    case Sub(parent, start, blocks) =>
      if offset < 0 {
        return -1;
      }
      var size := Start(blocks, dev.blockSize);
      if offset >= size || len == 0 {
        return 0;
      }
      OneLevel(d, dev.blockCount, dev.blockSize, offset, len);
      var l := if offset + len > size then size - offset else len;
      n := StackRead(parent, dev, buf, ToParent(offset, start, dev.blockSize), l);
  }

  /** bio_write on a stack of subdevices: only bytes of the window change. */
  method StackWrite(d: Stack, dev: Device, buf: array<byte>, offset: int, len: nat) returns (n: int)
    requires dev.Valid() && buf != dev.store && len <= buf.Length && Nested(d, dev.blockCount)
    requires NoWrap(d, dev.blockSize)
    modifies dev.store
    ensures n == Transferred(Start(Blocks(d, dev.blockCount), dev.blockSize), offset, len)
    ensures n > 0 ==>
              0 <= Start(Window(d), dev.blockSize) + offset
                <= Start(Window(d), dev.blockSize) + offset + n <= dev.store.Length
                      && dev.store[..] ==
                           Patch(old(dev.store[..]), Start(Window(d), dev.blockSize) + offset, buf[..][..n])
    ensures n <= 0 ==> dev.store[..] == old(dev.store[..])
    decreases d
  {
    hide Start, Patch, ToParent;
    WindowBytes(d, dev);
    match d
    case Root =>
      StartOne(dev.blockSize);
      n := dev.BioWrite(buf, offset, len);
    case Sub(parent, start, blocks) =>
      if offset < 0 {
        return -1;
      }
      var size := Start(blocks, dev.blockSize);
      if offset >= size || len == 0 {
        return 0;
      }
      OneLevel(d, dev.blockCount, dev.blockSize, offset, len);
      var l := if offset + len > size then size - offset else len;
      n := StackWrite(parent, dev, buf, ToParent(offset, start, dev.blockSize), l);
  }

  /** bio_erase on a stack of subdevices. */
  method StackErase(d: Stack, dev: Device, offset: int, len: nat) returns (n: int)
    requires dev.Valid() && Nested(d, dev.blockCount) && NoWrap(d, dev.blockSize)
    modifies dev.store
    ensures n == Transferred(Start(Blocks(d, dev.blockCount), dev.blockSize), offset, len)
    ensures n > 0 ==>
              0 <= Start(Window(d), dev.blockSize) + offset
                <= Start(Window(d), dev.blockSize) + offset + n <= dev.store.Length
                      && dev.store[..] == Patch(old(dev.store[..]), Start(Window(d), dev.blockSize) + offset, Zeros(n))
    ensures n <= 0 ==> dev.store[..] == old(dev.store[..])
    decreases d
  {
    hide Start, Patch, ToParent, Zeros;
    WindowBytes(d, dev);
    match d
    case Root =>
      StartOne(dev.blockSize);
      n := dev.BioErase(offset, len);
    case Sub(parent, start, blocks) =>
      if offset < 0 {
        return -1;
      }
      var size := Start(blocks, dev.blockSize);
      if offset >= size || len == 0 {
        return 0;
      }
      OneLevel(d, dev.blockCount, dev.blockSize, offset, len);
      var l := if offset + len > size then size - offset else len;
      n := StackErase(parent, dev, ToParent(offset, start, dev.blockSize), l);
  }

  /** A transfer through a stack stays inside the window, whatever offset and length are asked for. */
  lemma InsideWindow(d: Stack, dev: Device, offset: int, len: nat)
    requires dev.Valid() && Nested(d, dev.blockCount)
    ensures var n := Transferred(Start(Blocks(d, dev.blockCount), dev.blockSize), offset, len);
            n > 0 ==> offset >= 0 && offset + n <= Start(Blocks(d, dev.blockCount), dev.blockSize)
                      && Start(Window(d), dev.blockSize) + offset + n
                           <= Start(Window(d) + Blocks(d, dev.blockCount), dev.blockSize) <= dev.store.Length
  {
    WindowBytes(d, dev);
    StartSum(Window(d), Blocks(d, dev.blockCount), dev.blockSize);
    hide Start;
  }

  // ---- whole blocks through a stack ----

  /** What the range check leaves of a transfer of whole blocks. */
  function ClampBlocks(total: nat, block: nat, count: nat): nat {
    if block > total then 0 else if block + count > total then total - block else count
  }

  /** The check of bio_read_block and bio_write_block: the sum is a 32-bit sum. */
  function CheckBlocks(total: nat, block: nat, count: nat): nat {
    if block > total then 0 else if U32(block + count) > total then total - block else count
  }

  /** It clamps as it should exactly when the sum does not wrap. */
  lemma CheckBlocksRight(total: u32, block: u32, count: u32)
    requires block <= total
    ensures CheckBlocks(total, block, count) == ClampBlocks(total, block, count) <==> block + count < W
  {
  }

  /** The blocks of the window, on the root device. */
  lemma WindowBlocks(d: Stack, dev: Device, block: nat, n: nat)
    requires dev.Valid() && Nested(d, dev.blockCount) && block + n <= Blocks(d, dev.blockCount)
    ensures Window(d) + block + n <= dev.blockCount
    ensures Start(Window(d) + block, dev.blockSize) + Start(n, dev.blockSize) <= dev.store.Length
  {
    hide Start;
    WindowInside(d, dev.blockCount);
    StartSum(Window(d) + block, n, dev.blockSize);
    StartMonotone(Window(d) + block + n, dev.blockCount, dev.blockSize);
  }

  /** bio_read_block on a stack of subdevices: those blocks of the window. */
  method StackReadBlock(d: Stack, dev: Device, buf: array<byte>, block: u32, count: u32) returns (n: int)
    requires dev.Valid() && dev.blockCount < W && buf != dev.store && Nested(d, dev.blockCount)
    requires block + count < W && Start(count, dev.blockSize) <= buf.Length
    modifies buf
    ensures var c := ClampBlocks(Blocks(d, dev.blockCount), block, count);
            && n == Start(c, dev.blockSize) <= buf.Length
            && (c > 0 ==> Start(Window(d) + block, dev.blockSize) + n <= dev.store.Length
                          && buf[..] == Patch(old(buf[..]), 0,
                               dev.store[..][Start(Window(d) + block, dev.blockSize)
                                             ..Start(Window(d) + block, dev.blockSize) + n]))
            && (c == 0 ==> buf[..] == old(buf[..]))
    decreases d
  {
    hide Start, Patch;
    WindowInside(d, dev.blockCount);
    StartOne(dev.blockSize);
    StartMonotone(ClampBlocks(Blocks(d, dev.blockCount), block, count), count, dev.blockSize);
    var total := Blocks(d, dev.blockCount);
    if block > total || count == 0 {
      return 0;
    }
    var c := if U32(block + count) > total then total - block else count;
    WindowBlocks(d, dev, block, c);
    match d
    case Root =>
      if c > 0 {
        dev.ReadBlock(buf, 0, block, c);
      }
      n := Start(c, dev.blockSize);
    case Sub(parent, start, _) =>
      n := StackReadBlock(parent, dev, buf, U32(block + start), c);
  }

  /** bio_write_block on a stack of subdevices: only those blocks of the window change. */
  method StackWriteBlock(d: Stack, dev: Device, buf: array<byte>, block: u32, count: u32) returns (n: int)
    requires dev.Valid() && dev.blockCount < W && buf != dev.store && Nested(d, dev.blockCount)
    requires block + count < W && Start(count, dev.blockSize) <= buf.Length
    modifies dev.store
    ensures var c := ClampBlocks(Blocks(d, dev.blockCount), block, count);
            && n == Start(c, dev.blockSize) <= buf.Length
            && (c > 0 ==> Start(Window(d) + block, dev.blockSize) + n <= dev.store.Length
                          && dev.store[..] ==
                               Patch(old(dev.store[..]), Start(Window(d) + block, dev.blockSize), buf[..][..n]))
            && (c == 0 ==> dev.store[..] == old(dev.store[..]))
    decreases d
  {
    hide Start, Patch;
    WindowInside(d, dev.blockCount);
    StartOne(dev.blockSize);
    StartMonotone(ClampBlocks(Blocks(d, dev.blockCount), block, count), count, dev.blockSize);
    var total := Blocks(d, dev.blockCount);
    if block > total || count == 0 {
      return 0;
    }
    var c := if U32(block + count) > total then total - block else count;
    WindowBlocks(d, dev, block, c);
    match d
    case Root =>
      if c > 0 {
        assert buf[..][..Start(c, dev.blockSize)] == buf[0..0 + Start(c, dev.blockSize)];
        dev.WriteBlock(buf, 0, block, c);
      }
      n := Start(c, dev.blockSize);
    case Sub(parent, start, _) =>
      n := StackWriteBlock(parent, dev, buf, U32(block + start), c);
  }
}
