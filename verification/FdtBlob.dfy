/** A device tree blob: the header fields, the three blocks, and what it means
    for a buffer to hold a given device tree (sections 5.2 to 5.5 of the
    Devicetree Specification v0.3, version 17 layout). */
module FdtBlob {
  import opened BigEndian
  import opened Word32
  import opened FdtTokens
  import opened FdtTree

  const FDT_MAGIC: u32 := 0xd00d_feed
  const FDT_SW_MAGIC: u32 := 0x2ff2_0112  // the complement of FDT_MAGIC
  const FIRST_VERSION := 16
  const LAST_VERSION := 17

  const HEADER_SIZE := 40

  const MAGIC := 0
  const TOTALSIZE := 4
  const OFF_STRUCT := 8
  const OFF_STRINGS := 12
  const OFF_RSVMAP := 16
  const VERSION := 20
  const LAST_COMP := 24
  const BOOT_CPUID := 28
  const SIZE_STRINGS := 32
  const SIZE_STRUCT := 36

  /** One memory reservation: address and (nonzero) size. */
  datatype Reserve = Reserve(address: u64, size: u64)

  /** A device tree as the blob stores it. `term` is the address field of the
      terminating reservation entry, `nops` counts the NOPs after the root. */
  datatype DT = DT(rsv: seq<Reserve>, term: u64, root: Item, nops: nat, strings: seq<byte>)

  function EncReserve(r: Reserve): (s: seq<byte>)
    ensures |s| == 16
  {
    Enc64(r.address) + Enc64(r.size)
  }

  /** The reservation block: the entries, then the terminator of size zero. */
  function ReserveBytes(rs: seq<Reserve>, term: u64): (s: seq<byte>)
    ensures |s| == 16 * (|rs| + 1)
  {
    if rs == [] then EncReserve(Reserve(term, 0)) else EncReserve(rs[0]) + ReserveBytes(rs[1..], term)
  }

  function Nops(n: nat): (ts: seq<Token>)
    ensures |ts| == n
  {
    if n == 0 then [] else [Nop] + Nops(n - 1)
  }

  /** What follows the root node in the structure block. */
  function Tail(nops: nat): seq<Token> { Nops(nops) + [End] }

  function StructTokens(d: DT): seq<Token> { Flat(d.root) + Tail(d.nops) }

  /** The NUL-terminated string at `off` lies inside the strings block. */
  predicate HasString(strings: seq<byte>, off: nat) {
    off < |strings| && NulFrom(strings, off) < |strings|
  }

  function StringAt(strings: seq<byte>, off: nat): seq<byte>
    requires HasString(strings, off)
  {
    strings[off..NulFrom(strings, off)]
  }

  predicate NameOk(it: Item, strings: seq<byte>)
    decreases it
  {
    match it
    case INop => true
    case IProp(nameoff, _, _) => HasString(strings, nameoff)
    case INode(_, _, items) => NamesOk(items, strings)
  }

  predicate NamesOk(items: seq<Item>, strings: seq<byte>)
    decreases items
  {
    items == [] || (NameOk(items[0], strings) && NamesOk(items[1..], strings))
  }

  predicate WellFormed(d: DT) {
    && d.root.INode?
    && ValidTokens(StructTokens(d))
    && NameOk(d.root, d.strings)
    && (forall i | 0 <= i < |d.rsv| :: d.rsv[i].size != 0)
  }

  /** Header fields of a buffer, and where its blocks end. */
  function Field(b: seq<byte>, f: nat): u32
    requires HEADER_SIZE <= |b| && f <= HEADER_SIZE - 4
  {
    Get32(b, f)
  }

  function DataEnd(b: seq<byte>): nat
    requires HEADER_SIZE <= |b|
  {
    Field(b, OFF_STRINGS) + Field(b, SIZE_STRINGS)
  }

  /** The structure block lies inside the buffer and the reader may use it. */
  predicate Readable(b: seq<byte>) {
    && HEADER_SIZE <= |b| <= MAX_INT
    && Field(b, VERSION) >= 17
    && Field(b, OFF_STRUCT) + Field(b, SIZE_STRUCT) <= |b|
  }

  function StructBlock(b: seq<byte>): (s: seq<byte>)
    requires Readable(b)
    ensures |s| == Field(b, SIZE_STRUCT) <= MAX_INT
  {
    b[Field(b, OFF_STRUCT)..Field(b, OFF_STRUCT) + Field(b, SIZE_STRUCT)]
  }

  /** The three blocks are in order and do not overlap. */
  predicate Ordered(b: seq<byte>, rsvSize: nat) {
    && HEADER_SIZE <= |b|
    && HEADER_SIZE <= Field(b, OFF_RSVMAP)
    && Field(b, OFF_RSVMAP) + rsvSize <= Field(b, OFF_STRUCT)
    && Field(b, OFF_STRUCT) + Field(b, SIZE_STRUCT) <= Field(b, OFF_STRINGS)
    && DataEnd(b) <= Field(b, TOTALSIZE)
  }

  predicate GoodHeader(b: seq<byte>) {
    && HEADER_SIZE <= |b| <= MAX_INT
    && Field(b, MAGIC) == FDT_MAGIC
    && Field(b, VERSION) == 17
    && Field(b, LAST_COMP) <= LAST_VERSION
    && Field(b, TOTALSIZE) <= |b|
  }

  /** The blocks lie inside the buffer and hold the parts of `d`, in whatever order
      the blocks come. */
  predicate Contents(b: seq<byte>, d: DT) {
    && WellFormed(d)
    && Readable(b)
    && Field(b, OFF_RSVMAP) + |ReserveBytes(d.rsv, d.term)| <= |b|
    && DataEnd(b) <= |b|
    && b[Field(b, OFF_RSVMAP)..Field(b, OFF_RSVMAP) + |ReserveBytes(d.rsv, d.term)|] == ReserveBytes(d.rsv, d.term)
    && StructBlock(b) == Encode(StructTokens(d))
    && b[Field(b, OFF_STRINGS)..DataEnd(b)] == d.strings
  }

  /** The buffer is a version 17 blob, laid out as the read-write functions want it,
      that holds exactly the device tree `d`. */
  predicate Holds(b: seq<byte>, d: DT) {
    && GoodHeader(b)
    && Ordered(b, |ReserveBytes(d.rsv, d.term)|)
    && Contents(b, d)
  }

  // ---- the bytes determine the device tree ----

  lemma {:induction false} TailUnique(m: nat, n: nat)
    requires Nops(m) + [End] == Nops(n) + [End]
    ensures m == n
  {
    assert |Nops(m) + [End]| == m + 1 && |Nops(n) + [End]| == n + 1;
  }

  lemma ReserveUnique(x: Reserve, u: seq<byte>, y: Reserve, v: seq<byte>)
    requires EncReserve(x) + u == EncReserve(y) + v
    ensures x == y && u == v
  {
    hide Enc64;
    Cancel(EncReserve(x), u, EncReserve(y), v);
    Cancel(Enc64(x.address), Enc64(x.size), Enc64(y.address), Enc64(y.size));
  }

  lemma {:induction false} ReservesUnique(a: seq<Reserve>, s: u64, r: seq<byte>, b: seq<Reserve>, t: u64, q: seq<byte>)
    requires forall i | 0 <= i < |a| :: a[i].size != 0
    requires forall i | 0 <= i < |b| :: b[i].size != 0
    requires ReserveBytes(a, s) + r == ReserveBytes(b, t) + q
    ensures a == b && s == t
  {
    hide EncReserve;
    var x := if a == [] then Reserve(s, 0) else a[0];
    var y := if b == [] then Reserve(t, 0) else b[0];
    var u := if a == [] then r else ReserveBytes(a[1..], s) + r;
    var v := if b == [] then q else ReserveBytes(b[1..], t) + q;
    assert ReserveBytes(a, s) + r == EncReserve(x) + u;
    assert ReserveBytes(b, t) + q == EncReserve(y) + v;
    ReserveUnique(x, u, y, v);
    if a != [] {
      ReservesUnique(a[1..], s, r, b[1..], t, q);
      assert a == [a[0]] + a[1..] && b == [b[0]] + b[1..];
    }
  }

  lemma StructUnique(a: DT, b: DT)
    requires WellFormed(a) && WellFormed(b)
    requires Encode(StructTokens(a)) == Encode(StructTokens(b))
    ensures a.root == b.root && a.nops == b.nops
  {
    EncodeInjective(StructTokens(a), StructTokens(b));
    ItemUnique(a.root, Tail(a.nops), b.root, Tail(b.nops));
    TailUnique(a.nops, b.nops);
  }

  lemma SlicesAgree(b: seq<byte>, off: nat, m: nat, n: nat, k: nat)
    requires off + m <= |b| && off + n <= |b| && k == |b|
    ensures b[off..off + m] + b[off + m..] == b[off..off + n] + b[off + n..]
  {
  }

  /** A buffer holds at most one device tree: `Holds` is a decoding. */
  lemma HoldsUnique(b: seq<byte>, d: DT, e: DT)
    requires Contents(b, d) && Contents(b, e)
    ensures d == e
  {
    StructUnique(d, e);
    var off, m, n := Field(b, OFF_RSVMAP), |ReserveBytes(d.rsv, d.term)|, |ReserveBytes(e.rsv, e.term)|;
    SlicesAgree(b, off, m, n, |b|);
    ReservesUnique(d.rsv, d.term, b[off + m..], e.rsv, e.term, b[off + n..]);
  }

  // ---- fdt_check_header ----

  function CheckHeader(b: seq<byte>): int
    requires HEADER_SIZE <= |b|
  {
    if Field(b, MAGIC) == FDT_MAGIC then
      if Field(b, VERSION) < FIRST_VERSION || Field(b, LAST_COMP) > LAST_VERSION then ERR_BADVERSION else 0
    else if Field(b, MAGIC) == FDT_SW_MAGIC then
      if Field(b, SIZE_STRUCT) == 0 then ERR_BADSTATE else 0
    else ERR_BADMAGIC
  }
}
