/** The memory reservation block and the whole-blob functions: packing a blob in
    place and opening it into another buffer. */
module FdtPack {
  import opened BigEndian
  import opened FdtTokens
  import opened FdtBlob
  import opened FdtRead
  import opened FdtNodes
  import opened FdtSplice
  import opened FdtEdit

  // ---- reading the reservation block ----

  lemma ReserveWords(r: Reserve, post: seq<byte>)
    ensures Get64(EncReserve(r) + post, 0) == r.address && Get64(EncReserve(r) + post, 8) == r.size
  {
    hide Enc64;
    var x := EncReserve(r) + post;
    assert x[0..8] == Enc64(r.address);
    assert x[8..16] == Enc64(r.size);
  }

  lemma Get64Drop(s: seq<byte>, k: nat, o: nat)
    requires k + o + 8 <= |s|
    ensures Get64(s[k..], o) == Get64(s, k + o)
  {
    SliceSlice(s, k, |s|, o, o + 8);
    assert s[k..] == s[k..|s|];
  }

  /** Entry `i` of the block, the terminator included. */
  function Entry(rs: seq<Reserve>, term: u64, i: nat): Reserve
    requires i <= |rs|
  {
    if i < |rs| then rs[i] else Reserve(term, 0)
  }

  lemma {:induction false} EntryAt(rs: seq<Reserve>, term: u64, i: nat)
    requires i <= |rs|
    ensures Get64(ReserveBytes(rs, term), 16 * i) == Entry(rs, term, i).address
    ensures Get64(ReserveBytes(rs, term), 16 * i + 8) == Entry(rs, term, i).size
    decreases i
  {
    hide EncReserve, Get64;
    var s := ReserveBytes(rs, term);
    if rs == [] {
      ReserveWords(Reserve(term, 0), []);
      assert EncReserve(Reserve(term, 0)) + [] == s;
    } else if i == 0 {
      ReserveWords(rs[0], ReserveBytes(rs[1..], term));
    } else {
      EntryAt(rs[1..], term, i - 1);
      assert s[16..] == ReserveBytes(rs[1..], term);
      Get64Drop(s, 16, 16 * (i - 1));
      Get64Drop(s, 16, 16 * (i - 1) + 8);
    }
  }

  /** An entry as it stands in the buffer. */
  lemma EntryInBuffer(b: seq<byte>, d: DT, i: nat)
    requires Contents(b, d) && i <= |d.rsv|
    ensures Field(b, OFF_RSVMAP) + 16 * i + 16 <= |b|
    ensures Get64(b, Field(b, OFF_RSVMAP) + 16 * i) == Entry(d.rsv, d.term, i).address
    ensures Get64(b, Field(b, OFF_RSVMAP) + 16 * i + 8) == Entry(d.rsv, d.term, i).size
  {
    hide Get32, Field, Entry, StructTokens, WellFormed;
    var off, s := Field(b, OFF_RSVMAP), ReserveBytes(d.rsv, d.term);
    EntryAt(d.rsv, d.term, i);
    SliceSlice(b, off, off + |s|, 16 * i, 16 * i + 8);
    SliceSlice(b, off, off + |s|, 16 * i + 8, 16 * i + 16);
  }

  /** fdt_num_mem_rsv */
  method NumMemRsv(buf: array<byte>, ghost d: DT) returns (i: nat)
    requires Contents(buf[..], d)
    ensures i == |d.rsv|
  {
    hide Get32, Get64, StructTokens, ReserveBytes, NameOk, ValidTokens;
    i := 0;
    while true
      invariant i <= |d.rsv|
      decreases |d.rsv| - i
    {
      EntryInBuffer(buf[..], d, i);
      var off: int := Read32(buf, OFF_RSVMAP);
      var size := Read64(buf, off + 16 * i + 8);
      if size == 0 {
        return;
      }
      i := i + 1;
    }
  }

  /** fdt_get_mem_rsv, for an entry or the terminator. */
  method GetMemRsv(buf: array<byte>, n: nat, ghost d: DT) returns (err: int, address: u64, size: u64)
    requires Contents(buf[..], d) && n <= |d.rsv|
    ensures err == CheckHeader(buf[..])
    ensures err == 0 ==> Reserve(address, size) == Entry(d.rsv, d.term, n)
  {
    hide Get32, Get64, StructTokens, ReserveBytes, Contents, CheckHeader, Entry;
    address, size := 0, 0;
    ContentsReads(buf[..], d);
    EntryInBuffer(buf[..], d, n);
    err := CheckHdr(buf);
    if err != 0 {
      return;
    }
    var off: int := Read32(buf, OFF_RSVMAP);
    address := Read64(buf, off + 16 * n);
    size := Read64(buf, off + 16 * n + 8);
  }

  // ---- changing the reservation block ----

  /** A splice inside the reservation block: the two later blocks follow. */
  ghost predicate RsvSpliced(a: seq<byte>, b: seq<byte>, at: nat, oldlen: nat, newlen: nat) {
    && HEADER_SIZE <= |a|
    && Moved(a, b, at, oldlen, newlen, DataEnd(a))
    && HeaderKept(a, b, {OFF_STRUCT, OFF_STRINGS})
    && Field(b, OFF_STRUCT) == Field(a, OFF_STRUCT) + newlen - oldlen
    && Field(b, OFF_STRINGS) == Field(a, OFF_STRINGS) + newlen - oldlen
  }

  /** The later blocks have moved by `delta` bytes; beside that and the reservations nothing has
      changed. */
  ghost predicate Shifted(a: seq<byte>, b: seq<byte>, delta: int) {
    && Confined(a, b, {OFF_STRUCT, OFF_STRINGS}) && DataEnd(b) == DataEnd(a) + delta
    && Field(b, OFF_STRUCT) == Field(a, OFF_STRUCT) + delta
  }

  lemma RsvShifted(a: seq<byte>, b: seq<byte>, at: nat, oldlen: nat, newlen: nat)
    requires RsvSpliced(a, b, at, oldlen, newlen)
    ensures Shifted(a, b, newlen - oldlen)
  {
    hide Field;
    Kept(a, b, {OFF_STRUCT, OFF_STRINGS}, SIZE_STRINGS);
  }

  /** _fdt_splice_mem_rsv, in bytes. */
  method SpliceMemRsv(buf: array<byte>, at: nat, oldlen: nat, newlen: nat) returns (err: int)
    requires HEADER_SIZE <= at && HEADER_SIZE <= buf.Length <= MAX_INT
    requires DataEnd(buf[..]) <= Field(buf[..], TOTALSIZE) <= buf.Length
    requires at + oldlen <= Field(buf[..], OFF_STRUCT) <= Field(buf[..], OFF_STRINGS)
    modifies buf
    ensures err == if DataEnd(old(buf[..])) - oldlen + newlen > Field(old(buf[..]), TOTALSIZE) then ERR_NOSPACE else 0
    ensures err != 0 ==> buf[..] == old(buf[..])
    ensures err == 0 ==> RsvSpliced(old(buf[..]), buf[..], at, oldlen, newlen)
  {
    hide Get32, Moved, HeaderKept;
    ghost var a := buf[..];
    var delta := newlen - oldlen;
    err := Splice(buf, at, oldlen, newlen);
    if err != 0 {
      return;
    }
    ghost var b := buf[..];
    Kept(a, b, {}, OFF_STRUCT);
    Kept(a, b, {}, OFF_STRINGS);
    var struct: int := Read32(buf, OFF_STRUCT);
    SetField(buf, OFF_STRUCT, struct + delta);
    ghost var c := buf[..];
    Kept(b, c, {OFF_STRUCT}, OFF_STRINGS);
    var strings: int := Read32(buf, OFF_STRINGS);
    SetField(buf, OFF_STRINGS, strings + delta);
    Kept(c, buf[..], {OFF_STRINGS}, OFF_STRUCT);
    KeptTrans(a, b, {}, c, {OFF_STRUCT});
    KeptTrans(a, c, {OFF_STRUCT}, buf[..], {OFF_STRINGS});
    assert {} + {OFF_STRUCT} == {OFF_STRUCT} && {OFF_STRUCT} + {OFF_STRINGS} == {OFF_STRUCT, OFF_STRINGS};
    MovedKeepsHeaderPatch(a, b, c, at, oldlen, newlen, DataEnd(a));
    MovedKeepsHeaderPatch(a, c, buf[..], at, oldlen, newlen, DataEnd(a));
  }

  /** The later blocks after a splice of the reservation block. */
  lemma LaterMoved(a: seq<byte>, b: seq<byte>, d: DT, at: nat, oldlen: nat, newlen: nat)
    requires Holds(a, d) && RsvSpliced(a, b, at, oldlen, newlen) && at + oldlen <= Field(a, OFF_STRUCT)
    requires Field(b, SIZE_STRUCT) == Field(a, SIZE_STRUCT) && Field(b, SIZE_STRINGS) == Field(a, SIZE_STRINGS)
    ensures DataEnd(b) <= |b| && Field(b, OFF_STRUCT) + Field(b, SIZE_STRUCT) <= |b|
    ensures b[Field(b, OFF_STRUCT)..Field(b, OFF_STRUCT) + Field(b, SIZE_STRUCT)] == StructBlock(a)
    ensures b[Field(b, OFF_STRINGS)..DataEnd(b)] == d.strings
  {
    hide Get32, ReserveBytes, StructTokens, Field, HeaderKept, Encode, WellFormed;
    var end, struct, size, strings := DataEnd(a), Field(a, OFF_STRUCT), Field(a, SIZE_STRUCT), Field(a, OFF_STRINGS);
    var k := at + oldlen;
    PartsEqual(a, k, end, b, at + newlen, end - oldlen + newlen, struct - k, struct + size - k);
    PartsEqual(a, k, end, b, at + newlen, end - oldlen + newlen, strings - k, end - k);
  }

  /** After such a splice the buffer holds the tree with the new reservations. */
  lemma HoldsRsv(a: seq<byte>, b: seq<byte>, d: DT, rsv: seq<Reserve>, term: u64, at: nat, oldlen: nat, newlen: nat)
    requires Holds(a, d) && RsvSpliced(a, b, at, oldlen, newlen)
    requires Field(a, OFF_RSVMAP) <= at && at + oldlen <= Field(a, OFF_STRUCT)
    requires DataEnd(a) - oldlen + newlen <= Field(a, TOTALSIZE)
    requires forall i | 0 <= i < |rsv| :: rsv[i].size != 0
    requires var off, n := Field(a, OFF_RSVMAP), |ReserveBytes(rsv, term)|;
             off + n <= Field(b, OFF_STRUCT) && off + n <= |b| && b[off..off + n] == ReserveBytes(rsv, term)
    ensures Holds(b, d.(rsv := rsv, term := term))
  {
    hide Get32, ReserveBytes, StructTokens, Field, HeaderKept, Encode, NameOk, ValidTokens, Moved;
    MovedSize(a, b, at, oldlen, newlen, DataEnd(a));
    var except := {OFF_STRUCT, OFF_STRINGS};
    Kept(a, b, except, MAGIC);
    Kept(a, b, except, VERSION);
    Kept(a, b, except, LAST_COMP);
    Kept(a, b, except, TOTALSIZE);
    Kept(a, b, except, OFF_RSVMAP);
    Kept(a, b, except, SIZE_STRINGS);
    Kept(a, b, except, SIZE_STRUCT);
    LaterMoved(a, b, d, at, oldlen, newlen);
    TokensOf(d, d.(rsv := rsv, term := term));
  }

  lemma MovedSize(a: seq<byte>, b: seq<byte>, at: nat, oldlen: nat, newlen: nat, end: nat)
    requires Moved(a, b, at, oldlen, newlen, end)
    ensures |a| == |b|
  {
  }

  lemma TokensOf(d: DT, e: DT)
    requires d.root == e.root && d.nops == e.nops
    ensures StructTokens(d) == StructTokens(e)
  {
  }

  lemma {:induction false} ReserveEnd(rs: seq<Reserve>, term: u64, t: u64)
    ensures ReserveBytes(rs, t) == ReserveBytes(rs, term)[..16 * |rs|] + EncReserve(Reserve(t, 0))
  {
    hide EncReserve;
    if rs != [] {
      ReserveEnd(rs[1..], term, t);
      var s := ReserveBytes(rs, term);
      assert s[..16 * |rs|] == EncReserve(rs[0]) + ReserveBytes(rs[1..], term)[..16 * |rs[1..]|];
    }
  }

  lemma {:induction false} ReserveSnoc(rs: seq<Reserve>, x: Reserve, term: u64)
    ensures ReserveBytes(rs + [x], term) ==
            ReserveBytes(rs, term)[..16 * |rs|] + EncReserve(x) + EncReserve(Reserve(term, 0))
  {
    hide EncReserve;
    if rs == [] {
      assert ([] + [x])[1..] == [];
      assert ReserveBytes([x], term) == EncReserve(x) + ReserveBytes([x][1..], term);
    } else {
      assert (rs + [x])[1..] == rs[1..] + [x] && (rs + [x])[0] == rs[0];
      ReserveSnoc(rs[1..], x, term);
      var s := ReserveBytes(rs, term);
      assert s[..16 * |rs|] == EncReserve(rs[0]) + ReserveBytes(rs[1..], term)[..16 * |rs[1..]|];
    }
  }

  lemma {:induction false} ReserveCut(rs: seq<Reserve>, i: nat, term: u64)
    requires i < |rs|
    ensures ReserveBytes(rs[..i] + rs[i + 1..], term) ==
            ReserveBytes(rs, term)[..16 * i] + ReserveBytes(rs, term)[16 * (i + 1)..]
    decreases i
  {
    hide EncReserve;
    var s, qs := ReserveBytes(rs, term), rs[..i] + rs[i + 1..];
    if i == 0 {
      assert qs == rs[1..] && s[16..] == ReserveBytes(rs[1..], term);
    } else {
      assert qs[0] == rs[0] && qs[1..] == rs[1..][..i - 1] + rs[1..][i..];
      ReserveCut(rs[1..], i - 1, term);
      var t := ReserveBytes(rs[1..], term);
      assert s[..16 * i] == EncReserve(rs[0]) + t[..16 * (i - 1)];
      assert s[16 * (i + 1)..] == t[16 * i..];
    }
  }

  /** The reservation block around a splice of it. */
  lemma RsvBlock(a: seq<byte>, b: seq<byte>, d: DT, at: nat, oldlen: nat, newlen: nat)
    requires Holds(a, d) && RsvSpliced(a, b, at, oldlen, newlen)
    requires Field(a, OFF_RSVMAP) <= at && at + oldlen <= Field(a, OFF_RSVMAP) + |ReserveBytes(d.rsv, d.term)|
    ensures var off, s, n := Field(a, OFF_RSVMAP), ReserveBytes(d.rsv, d.term),
              |ReserveBytes(d.rsv, d.term)| - oldlen + newlen;
            && off + n <= |b| && Field(b, OFF_RSVMAP) == off
            && b[off..off + n] == s[..at - off] + b[at..at + newlen] + s[at - off + oldlen..]
  {
    hide Get32, Field, WellFormed, StructTokens, HeaderKept, Moved;
    var off, s, end := Field(a, OFF_RSVMAP), ReserveBytes(d.rsv, d.term), DataEnd(a);
    Kept(a, b, {OFF_STRUCT, OFF_STRINGS}, OFF_RSVMAP);
    BlockMoved(a, b, off, |s|, at, oldlen, newlen, end);
  }

  lemma EntryAdded(a: seq<byte>, b: seq<byte>, d: DT, address: u64, size: u64)
    requires Holds(a, d) && size != 0 && DataEnd(a) + 16 <= Field(a, TOTALSIZE)
    requires var at := Field(a, OFF_RSVMAP) + 16 * |d.rsv|;
             RsvSpliced(a, b, at, 0, 16) && at + 16 <= |b| && b[at..at + 16] == EncReserve(Reserve(address, size))
    ensures Holds(b, d.(rsv := d.rsv + [Reserve(address, size)]))
  {
    hide Get32, Contents, EncReserve, HeaderKept, Moved;
    var off, at, x := Field(a, OFF_RSVMAP), Field(a, OFF_RSVMAP) + 16 * |d.rsv|, Reserve(address, size);
    RsvBlock(a, b, d, at, 0, 16);
    ReserveSnoc(d.rsv, x, d.term);
    ReserveEnd(d.rsv, d.term, d.term);
    var s := ReserveBytes(d.rsv, d.term);
    hide ReserveBytes;
    assert s[16 * |d.rsv|..] == EncReserve(Reserve(d.term, 0));
    SizesNonzero(a, d);
    HoldsRsv(a, b, d, d.rsv + [x], d.term, at, 0, 16);
  }

  lemma EntryEnded(a: seq<byte>, b: seq<byte>, d: DT, address: u64)
    requires Holds(a, d) && DataEnd(a) + 16 <= Field(a, TOTALSIZE)
    requires var at := Field(a, OFF_RSVMAP) + 16 * |d.rsv|;
             RsvSpliced(a, b, at, 0, 16) && at + 16 <= |b| && b[at..at + 16] == EncReserve(Reserve(address, 0))
    ensures Holds(b, d.(term := address))
  {
    hide Get32, Contents, EncReserve, HeaderKept, Moved;
    var off, at := Field(a, OFF_RSVMAP), Field(a, OFF_RSVMAP) + 16 * |d.rsv|;
    RsvBlock(a, b, d, at, 0, 16);
    ReserveEnd(d.rsv, d.term, address);
    var s := ReserveBytes(d.rsv, d.term);
    hide ReserveBytes;
    PartsEqual(b, off, off + |s| + 16, s[..16 * |d.rsv|] + b[at..at + 16] + s[16 * |d.rsv|..], 0, |s| + 16, 0, |s|);
    assert (s[..16 * |d.rsv|] + b[at..at + 16] + s[16 * |d.rsv|..])[0..|s|] == s[..16 * |d.rsv|] + b[at..at + 16];
    SizesNonzero(a, d);
    HoldsRsv(a, b, d, d.rsv, address, at, 0, 16);
  }

  lemma SizesNonzero(a: seq<byte>, d: DT)
    requires Holds(a, d)
    ensures forall i | 0 <= i < |d.rsv| :: d.rsv[i].size != 0
  {
  }

  /** fdt_add_mem_rsv. An entry of size zero becomes the terminator and adds nothing. */
  method AddMemRsv(buf: array<byte>, address: u64, size: u64, ghost d: DT) returns (err: int)
    requires Holds(buf[..], d)
    modifies buf
    ensures err == if DataEnd(old(buf[..])) + 16 > Field(old(buf[..]), TOTALSIZE) then ERR_NOSPACE else 0
    ensures err != 0 ==> buf[..] == old(buf[..])
    ensures err == 0 && size != 0 ==> Holds(buf[..], d.(rsv := d.rsv + [Reserve(address, size)]))
    ensures err == 0 && size == 0 ==> Holds(buf[..], d.(term := address))
    ensures err == 0 ==> Shifted(old(buf[..]), buf[..], 16)
  {
    hide Get32, Contents, ReserveBytes, Moved, HeaderKept, Patch, RsvSpliced, Shifted;
    ghost var a := buf[..];
    HoldsPasses(a, d);
    err := RwCheckHeader(buf);
    if err != 0 {
      return;
    }
    var n := NumMemRsv(buf, d);
    var off: int := Read32(buf, OFF_RSVMAP);
    var at: nat := off + 16 * n;
    err := SpliceMemRsv(buf, at, 0, 16);
    if err != 0 {
      return;
    }
    ghost var b := buf[..];
    RsvGapWrite(a, b, at, 0, 16, at, EncReserve(Reserve(address, size)));
    MemCpy(buf, at, EncReserve(Reserve(address, size)));
    RsvShifted(a, buf[..], at, 0, 16);
    if size != 0 {
      EntryAdded(a, buf[..], d, address, size);
    } else {
      EntryEnded(a, buf[..], d, address);
    }
  }

  lemma RsvGapWrite(a: seq<byte>, b: seq<byte>, at: nat, oldlen: nat, newlen: nat, off: nat, data: seq<byte>)
    requires RsvSpliced(a, b, at, oldlen, newlen) && at <= off && off + |data| <= at + newlen
    ensures |data| + off <= |b| && RsvSpliced(a, Patch(b, off, data), at, oldlen, newlen)
    ensures Patch(b, off, data)[off..off + |data|] == data
  {
    hide Get32, HeaderKept, Patch;
    MovedKeepsGapPatch(a, b, at, oldlen, newlen, DataEnd(a), off, data);
    KeptTrans(a, b, {OFF_STRUCT, OFF_STRINGS}, Patch(b, off, data), {});
    assert {OFF_STRUCT, OFF_STRINGS} + {} == {OFF_STRUCT, OFF_STRINGS};
    Kept(b, Patch(b, off, data), {}, OFF_STRUCT);
    Kept(b, Patch(b, off, data), {}, OFF_STRINGS);
    PatchData(b, off, data);
  }

  /** fdt_del_mem_rsv */
  method DelMemRsv(buf: array<byte>, n: nat, ghost d: DT) returns (err: int)
    requires Holds(buf[..], d)
    modifies buf
    ensures err == if n >= |d.rsv| then ERR_NOTFOUND else 0
    ensures err != 0 ==> buf[..] == old(buf[..])
    ensures err == 0 ==> Holds(buf[..], d.(rsv := d.rsv[..n] + d.rsv[n + 1..]))
    ensures err == 0 ==> Shifted(old(buf[..]), buf[..], -16)
  {
    hide Get32, Contents, ReserveBytes, Moved, HeaderKept, RsvSpliced, Shifted;
    ghost var a := buf[..];
    HoldsPasses(a, d);
    err := RwCheckHeader(buf);
    if err != 0 {
      return;
    }
    var num := NumMemRsv(buf, d);
    if n >= num {
      return ERR_NOTFOUND;
    }
    var off: int := Read32(buf, OFF_RSVMAP);
    err := SpliceMemRsv(buf, off + 16 * n, 16, 0);
    EntryCut(a, buf[..], d, n);
    RsvShifted(a, buf[..], off + 16 * n, 16, 0);
  }

  lemma EntryCut(a: seq<byte>, b: seq<byte>, d: DT, i: nat)
    requires Holds(a, d) && i < |d.rsv|
    requires RsvSpliced(a, b, Field(a, OFF_RSVMAP) + 16 * i, 16, 0)
    ensures Holds(b, d.(rsv := d.rsv[..i] + d.rsv[i + 1..]))
  {
    hide Get32, Contents, EncReserve, HeaderKept, Moved;
    var off, at := Field(a, OFF_RSVMAP), Field(a, OFF_RSVMAP) + 16 * i;
    RsvBlock(a, b, d, at, 16, 0);
    ReserveCut(d.rsv, i, d.term);
    hide ReserveBytes;
    SizesNonzero(a, d);
    var s := ReserveBytes(d.rsv, d.term);
    assert at + 0 <= |b|;
    assert s[..16 * i] + b[at..at + 0] + s[16 * (i + 1)..] == s[..16 * i] + s[16 * (i + 1)..];
    HoldsRsv(a, b, d, d.rsv[..i] + d.rsv[i + 1..], d.term, at, 16, 0);
  }

  // ---- packing ----

  function PackedSize(d: DT): nat
    requires ValidTokens(StructTokens(d))
  {
    HEADER_SIZE + |ReserveBytes(d.rsv, d.term)| + |Encode(StructTokens(d))| + |d.strings|
  }

  /** memmove between two buffers that may be the same one. */
  method Copy(dst: array<byte>, doff: nat, src: array<byte>, soff: nat, n: nat)
    requires doff + n <= dst.Length && soff + n <= src.Length
    modifies dst
    ensures dst[..] == Patch(old(dst[..]), doff, old(src[soff..soff + n]))
  {
    forall i | 0 <= i < n {
      dst[doff + i] := src[soff + i];
    }
  }

  /** A block copied to its packed place. */
  method CopyBlock(dst: array<byte>, doff: nat, src: array<byte>, soff: nat, n: nat, ghost block: seq<byte>)
    requires HEADER_SIZE <= doff && doff + n <= dst.Length && soff + n <= src.Length
    requires |block| == n && src[..][soff..soff + n] == block
    modifies dst
    ensures dst[..] == Patch(old(dst[..]), doff, block)
    ensures HeaderKept(old(dst[..]), dst[..], {})
  {
    hide Patch, HeaderKept;
    assert src[soff..soff + n] == src[..][soff..soff + n];
    PatchKeepsHeader(dst[..], doff, block);
    Copy(dst, doff, src, soff, n);
  }

  /** memmove of one block and the store of its new offset in the header. */
  method PlaceBlock(dst: array<byte>, doff: nat, src: array<byte>, soff: nat, n: nat, f: nat, ghost block: seq<byte>)
    requires HEADER_SIZE <= doff && doff + n <= dst.Length <= MAX_INT && soff + n <= src.Length && f in FIELDS
    requires |block| == n && src[..][soff..soff + n] == block
    modifies dst
    ensures Placed(old(dst[..]), dst[..], doff, block)
    ensures HeaderKept(old(dst[..]), dst[..], {f}) && Field(dst[..], f) == doff
  {
    hide Patch, HeaderKept;
    ghost var b := dst[..];
    CopyBlock(dst, doff, src, soff, n, block);
    ghost var c := dst[..];
    SetField(dst, f, doff);
    KeptTrans(b, c, {}, dst[..], {f});
    assert {} + {f} == {f};
  }

  /** `c` has `block` at `off` and is otherwise `b`, the header aside. */
  ghost predicate Placed(b: seq<byte>, c: seq<byte>, off: nat, block: seq<byte>) {
    HEADER_SIZE <= off && off + |block| <= |b| == |c| && c[HEADER_SIZE..] == Patch(b, off, block)[HEADER_SIZE..]
  }

  lemma PlacedSlices(b: seq<byte>, c: seq<byte>, off: nat, block: seq<byte>, i: nat, j: nat)
    requires Placed(b, c, off, block) && HEADER_SIZE <= i <= j <= |b| && (j <= off || off + |block| <= i)
    ensures c[i..j] == b[i..j]
  {
    hide Patch;
    PastHeader(c, Patch(b, off, block), i, j);
    PatchSlices(b, off, block, i, j);
  }

  lemma PlacedData(b: seq<byte>, c: seq<byte>, off: nat, block: seq<byte>)
    requires Placed(b, c, off, block)
    ensures c[off..off + |block|] == block
  {
    hide Patch;
    PastHeader(c, Patch(b, off, block), off, off + |block|);
    PatchData(b, off, block);
  }

  /** A header store is a placement of nothing. */
  lemma PlacedHeader(b: seq<byte>, c: seq<byte>, d: seq<byte>, off: nat, block: seq<byte>)
    requires Placed(b, c, off, block) && |c| == |d| && c[HEADER_SIZE..] == d[HEADER_SIZE..]
    ensures Placed(b, d, off, block)
  {
  }

  const BLOCK_FIELDS: set<nat> := {OFF_RSVMAP, OFF_STRUCT, OFF_STRINGS, SIZE_STRUCT, SIZE_STRINGS}

  /** The blocks of `d` stand packed behind the header, which says so. */
  ghost predicate PackedBlocks(b: seq<byte>, d: DT) {
    && HEADER_SIZE <= |b| && ValidTokens(StructTokens(d)) && PackedSize(d) <= |b|
    && var rsv, st := ReserveBytes(d.rsv, d.term), Encode(StructTokens(d));
       var so := HEADER_SIZE + |rsv|;
       var no := so + |st|;
       && Field(b, OFF_RSVMAP) == HEADER_SIZE && b[HEADER_SIZE..so] == rsv
       && Field(b, OFF_STRUCT) == so && Field(b, SIZE_STRUCT) == |st| && b[so..no] == st
       && Field(b, OFF_STRINGS) == no && Field(b, SIZE_STRINGS) == |d.strings| && b[no..no + |d.strings|] == d.strings
  }

  /** The structure block has not been moved yet. */
  ghost predicate StructThere(x: seq<byte>, d: DT) {
    && HEADER_SIZE <= |x| && ValidTokens(StructTokens(d))
    && var off, st := Field(x, OFF_STRUCT), Encode(StructTokens(d));
       off + |st| <= |x| && x[off..off + |st|] == st
  }

  /** The strings block has not been moved yet. */
  ghost predicate StringsThere(x: seq<byte>, d: DT) {
    HEADER_SIZE <= |x| && DataEnd(x) <= |x| && x[Field(x, OFF_STRINGS)..DataEnd(x)] == d.strings
  }

  lemma AllThere(a: seq<byte>, d: DT)
    requires Contents(a, d)
    ensures StructThere(a, d) && StringsThere(a, d)
  {
    hide Get32, Encode, StructTokens, ReserveBytes, Field, NameOk, ValidTokens;
  }

  /** Within one buffer, moving the reservations left clobbers neither later block. */
  lemma AfterRsv(a: seq<byte>, x: seq<byte>, d: DT)
    requires Contents(a, d) && Ordered(a, |ReserveBytes(d.rsv, d.term)|)
    requires Placed(a, x, HEADER_SIZE, ReserveBytes(d.rsv, d.term)) && HeaderKept(a, x, {OFF_RSVMAP})
    ensures StructThere(x, d) && StringsThere(x, d) && Field(x, SIZE_STRUCT) == Field(a, SIZE_STRUCT)
    ensures Field(x, OFF_STRUCT) == Field(a, OFF_STRUCT) && Field(x, OFF_STRINGS) == Field(a, OFF_STRINGS)
  {
    hide Get32, Encode, StructTokens, ReserveBytes, Field, HeaderKept, Placed, NameOk, ValidTokens;
    var except, r := {OFF_RSVMAP}, ReserveBytes(d.rsv, d.term);
    Kept(a, x, except, OFF_STRUCT);
    Kept(a, x, except, SIZE_STRUCT);
    Kept(a, x, except, OFF_STRINGS);
    Kept(a, x, except, SIZE_STRINGS);
    PlacedSize(a, x, HEADER_SIZE, r);
    PlacedSlices(a, x, HEADER_SIZE, r, Field(a, OFF_STRUCT), Field(a, OFF_STRUCT) + Field(a, SIZE_STRUCT));
    PlacedSlices(a, x, HEADER_SIZE, r, Field(a, OFF_STRINGS), DataEnd(a));
  }

  lemma PlacedSize(b: seq<byte>, c: seq<byte>, off: nat, block: seq<byte>)
    requires Placed(b, c, off, block)
    ensures |b| == |c|
  {
  }

  /** Nor does moving the structure block left clobber the strings. */
  lemma AfterStruct(x: seq<byte>, y: seq<byte>, d: DT, off: nat, st: seq<byte>)
    requires StringsThere(x, d) && HEADER_SIZE <= off + |st| <= Field(x, OFF_STRINGS)
    requires Placed(x, y, off, st) && HeaderKept(x, y, {OFF_STRUCT, SIZE_STRUCT})
    ensures StringsThere(y, d)
  {
    hide Get32, Field, HeaderKept, Placed;
    var except := {OFF_STRUCT, SIZE_STRUCT};
    Kept(x, y, except, OFF_STRINGS);
    Kept(x, y, except, SIZE_STRINGS);
    PlacedSize(x, y, off, st);
    PlacedSlices(x, y, off, st, Field(x, OFF_STRINGS), DataEnd(x));
  }

  /** A block placed earlier stays through the later placements. */
  lemma StillPlaced(b: seq<byte>, c: seq<byte>, off: nat, block: seq<byte>, i: nat, first: seq<byte>)
    requires Placed(b, c, off, block) && HEADER_SIZE <= i && i + |first| <= off && b[i..i + |first|] == first
    ensures i + |first| <= |c| && c[i..i + |first|] == first
  {
    hide Patch;
    PlacedSlices(b, c, off, block, i, i + |first|);
  }

  /** A block placed, with its offset and its size stored in the header. */
  method PlaceSized(dst: array<byte>, doff: nat, src: array<byte>, soff: nat, n: nat, f: nat, g: nat,
                    ghost block: seq<byte>)
    requires HEADER_SIZE <= doff && doff + n <= dst.Length <= MAX_INT && soff + n <= src.Length
    requires f in FIELDS && g in FIELDS && f != g
    requires |block| == n && src[..][soff..soff + n] == block
    modifies dst
    ensures Placed(old(dst[..]), dst[..], doff, block)
    ensures HeaderKept(old(dst[..]), dst[..], {f, g}) && Field(dst[..], f) == doff && Field(dst[..], g) == n
  {
    hide Patch, HeaderKept, Placed, Get32;
    ghost var b := dst[..];
    PlaceBlock(dst, doff, src, soff, n, f, block);
    ghost var c := dst[..];
    SetField(dst, g, n);
    PlacedHeader(b, c, dst[..], doff, block);
    KeptTrans(b, c, {f}, dst[..], {g});
    assert {f} + {g} == {f, g};
    Kept(c, dst[..], {g}, f);
  }

  /** The structure and strings blocks of _fdt_packblocks. */
  method PackRest(src: array<byte>, dst: array<byte>, structOff: nat, structSize: nat, ghost d: DT)
    requires ValidTokens(StructTokens(d)) && structSize == |Encode(StructTokens(d))|
    requires StructThere(src[..], d) && StringsThere(src[..], d)
    requires HEADER_SIZE <= structOff && structOff + structSize + |d.strings| <= dst.Length <= MAX_INT
    requires src == dst ==> structOff + structSize <= Field(src[..], OFF_STRINGS)
    modifies dst
    ensures dst[..][HEADER_SIZE..structOff] == old(dst[..])[HEADER_SIZE..structOff]
    ensures dst[..][structOff..structOff + structSize] == Encode(StructTokens(d))
    ensures dst[..][structOff + structSize..structOff + structSize + |d.strings|] == d.strings
    ensures Field(dst[..], OFF_STRUCT) == structOff && Field(dst[..], SIZE_STRUCT) == structSize
    ensures Field(dst[..], OFF_STRINGS) == structOff + structSize && Field(dst[..], SIZE_STRINGS) == |d.strings|
    ensures HeaderKept(old(dst[..]), dst[..], {OFF_STRUCT, SIZE_STRUCT, OFF_STRINGS, SIZE_STRINGS})
    ensures RestKept(old(dst[..]), dst[..], structOff + structSize + |d.strings|)
  {
    hide Get32, HeaderKept, Placed, Encode, StructTokens, Field, ValidTokens;
    ghost var t1, st := dst[..], Encode(StructTokens(d));
    var stringsOff := structOff + structSize;
    var from: int := ReadField(src, OFF_STRUCT);
    PlaceSized(dst, structOff, src, from, structSize, OFF_STRUCT, SIZE_STRUCT, st);
    ghost var t2 := dst[..];
    PlacedData(t1, t2, structOff, st);
    PlacedSlices(t1, t2, structOff, st, HEADER_SIZE, structOff);
    PlacedSlices(t1, t2, structOff, st, stringsOff + |d.strings|, |t1|);
    if src == dst {
      AfterStruct(t1, t2, d, structOff, st);
    }
    from := ReadField(src, OFF_STRINGS);
    var size: int := ReadField(src, SIZE_STRINGS);
    PlaceSized(dst, stringsOff, src, from, size, OFF_STRINGS, SIZE_STRINGS, d.strings);
    PlacedData(t2, dst[..], stringsOff, d.strings);
    PlacedSlices(t2, dst[..], stringsOff, d.strings, HEADER_SIZE, structOff);
    PlacedSlices(t2, dst[..], stringsOff, d.strings, stringsOff + |d.strings|, |t2|);
    StillPlaced(t2, dst[..], stringsOff, d.strings, structOff, st);
    FieldsUnion(t1, t2, dst[..]);
  }

  lemma FieldsUnion(t1: seq<byte>, t2: seq<byte>, t3: seq<byte>)
    requires HeaderKept(t1, t2, {OFF_STRUCT, SIZE_STRUCT}) && HeaderKept(t2, t3, {OFF_STRINGS, SIZE_STRINGS})
    ensures HeaderKept(t1, t3, {OFF_STRUCT, SIZE_STRUCT, OFF_STRINGS, SIZE_STRINGS})
    ensures Field(t3, OFF_STRUCT) == Field(t2, OFF_STRUCT) && Field(t3, SIZE_STRUCT) == Field(t2, SIZE_STRUCT)
  {
    hide Field;
  }

  /** _fdt_packblocks, into another buffer or within one. */
  method PackBlocks(src: array<byte>, dst: array<byte>, rsvSize: nat, structSize: nat, ghost d: DT)
    requires Contents(src[..], d) && rsvSize == |ReserveBytes(d.rsv, d.term)|
    requires structSize == Field(src[..], SIZE_STRUCT)
    requires ValidTokens(StructTokens(d)) && PackedSize(d) <= dst.Length <= MAX_INT
    requires src == dst ==> Ordered(src[..], rsvSize)
    modifies dst
    ensures PackedBlocks(dst[..], d)
    ensures HeaderKept(old(dst[..]), dst[..], BLOCK_FIELDS) && RestKept(old(dst[..]), dst[..], PackedSize(d))
  {
    hide Get32, HeaderKept, Placed, Encode, StructTokens, ReserveBytes, Field, StructBlock, WellFormed,
      PackedBlocks, ValidTokens, StructThere, StringsThere;
    ghost var a, t0 := src[..], dst[..];
    ghost var r := ReserveBytes(d.rsv, d.term);
    var structOff := HEADER_SIZE + rsvSize;
    AllThere(a, d);
    var from: int := ReadField(src, OFF_RSVMAP);
    PlaceBlock(dst, HEADER_SIZE, src, from, rsvSize, OFF_RSVMAP, r);
    ghost var t1 := dst[..];
    PlacedData(t0, t1, HEADER_SIZE, r);
    if src == dst {
      assert a == t0;
      AfterRsv(a, t1, d);
    }
    PlacedSlices(t0, t1, HEADER_SIZE, r, PackedSize(d), |t0|);
    PackRest(src, dst, structOff, structSize, d);
    Kept(t1, dst[..], {OFF_STRUCT, SIZE_STRUCT, OFF_STRINGS, SIZE_STRINGS}, OFF_RSVMAP);
    KeptTrans(t0, t1, {OFF_RSVMAP}, dst[..], {OFF_STRUCT, SIZE_STRUCT, OFF_STRINGS, SIZE_STRINGS});
    assert {OFF_RSVMAP} + {OFF_STRUCT, SIZE_STRUCT, OFF_STRINGS, SIZE_STRINGS} == BLOCK_FIELDS;
    Assemble(dst[..], d, structOff, structOff + structSize);
  }

  lemma Assemble(b: seq<byte>, d: DT, structOff: nat, stringsOff: nat)
    requires HEADER_SIZE <= |b| <= MAX_INT && ValidTokens(StructTokens(d))
    requires structOff == HEADER_SIZE + |ReserveBytes(d.rsv, d.term)|
    requires stringsOff == structOff + |Encode(StructTokens(d))| && stringsOff + |d.strings| <= |b|
    requires Field(b, OFF_RSVMAP) == HEADER_SIZE && b[HEADER_SIZE..structOff] == ReserveBytes(d.rsv, d.term)
    requires Field(b, OFF_STRUCT) == structOff && Field(b, SIZE_STRUCT) == stringsOff - structOff
    requires b[structOff..stringsOff] == Encode(StructTokens(d))
    requires Field(b, OFF_STRINGS) == stringsOff && Field(b, SIZE_STRINGS) == |d.strings|
    requires b[stringsOff..stringsOff + |d.strings|] == d.strings
    ensures PackedBlocks(b, d)
  {
  }

  /** Packed blocks behind a good header hold the tree. */
  lemma PackedHolds(b: seq<byte>, d: DT)
    requires WellFormed(d) && PackedBlocks(b, d) && GoodHeader(b) && PackedSize(d) <= Field(b, TOTALSIZE)
    ensures Holds(b, d) && DataEnd(b) == PackedSize(d)
  {
    hide Get32, Encode, StructTokens, ReserveBytes, Field, NameOk, ValidTokens;
  }

  lemma PackedFits(b: seq<byte>, d: DT)
    requires Holds(b, d)
    ensures ValidTokens(StructTokens(d)) && PackedSize(d) <= DataEnd(b) <= |b|
    ensures Field(b, SIZE_STRUCT) == |Encode(StructTokens(d))|
  {
    hide Get32, Encode, StructTokens, ReserveBytes, Field, NameOk, ValidTokens;
  }

  /** fdt_pack: the same tree, its blocks tight behind the header, and nothing after them. */
  method Pack(buf: array<byte>, ghost d: DT) returns (err: int)
    requires Holds(buf[..], d)
    modifies buf
    ensures err == 0 && Holds(buf[..], d) && PackedBlocks(buf[..], d)
    ensures Field(buf[..], TOTALSIZE) == PackedSize(d)
    ensures HeaderKept(old(buf[..]), buf[..], BLOCK_FIELDS + {TOTALSIZE})
    ensures RestKept(old(buf[..]), buf[..], PackedSize(d))
  {
    hide Get32, HeaderKept, Encode, StructTokens, ReserveBytes, PackedBlocks, Contents, Field, PackedSize;
    ghost var a := buf[..];
    HoldsPasses(a, d);
    PackedFits(a, d);
    err := RwCheckHeader(buf);
    if err != 0 {
      return;
    }
    var n := NumMemRsv(buf, d);
    var size: int := ReadField(buf, SIZE_STRUCT);
    PackBlocks(buf, buf, (n + 1) * 16, size, d);
    ghost var b := buf[..];
    var off: int := ReadField(buf, OFF_STRINGS);
    var stringsSize: int := ReadField(buf, SIZE_STRINGS);
    DataEndPacked(b, d);
    SetField(buf, TOTALSIZE, off + stringsSize);
    PastHeader(b, buf[..], PackedSize(d), |b|);
    StillPacked(b, buf[..], d, {TOTALSIZE});
    KeptTrans(a, b, BLOCK_FIELDS, buf[..], {TOTALSIZE});
    Kept(a, buf[..], BLOCK_FIELDS + {TOTALSIZE}, MAGIC);
    Kept(a, buf[..], BLOCK_FIELDS + {TOTALSIZE}, VERSION);
    Kept(a, buf[..], BLOCK_FIELDS + {TOTALSIZE}, LAST_COMP);
    HoldsWell(a, d);
    PackedHolds(buf[..], d);
  }

  lemma HoldsWell(a: seq<byte>, d: DT)
    requires Contents(a, d)
    ensures WellFormed(d)
  {
  }

  lemma DataEndPacked(b: seq<byte>, d: DT)
    requires PackedBlocks(b, d)
    ensures HEADER_SIZE <= DataEnd(b) == PackedSize(d) <= |b|
  {
    hide Get32, Encode, StructTokens, ReserveBytes, Field, ValidTokens;
  }

  /** Header stores outside the block fields keep the blocks packed. */
  lemma StillPacked(b: seq<byte>, c: seq<byte>, d: DT, except: set<nat>)
    requires PackedBlocks(b, d) && HeaderKept(b, c, except) && except !! BLOCK_FIELDS
    requires |b| == |c| && c[HEADER_SIZE..] == b[HEADER_SIZE..]
    ensures PackedBlocks(c, d)
  {
    hide Get32, Encode, StructTokens, ReserveBytes, Field, HeaderKept, ValidTokens;
    Kept(b, c, except, OFF_RSVMAP);
    Kept(b, c, except, OFF_STRUCT);
    Kept(b, c, except, SIZE_STRUCT);
    Kept(b, c, except, OFF_STRINGS);
    Kept(b, c, except, SIZE_STRINGS);
    var so := HEADER_SIZE + |ReserveBytes(d.rsv, d.term)|;
    var no := so + |Encode(StructTokens(d))|;
    PastHeader(b, c, HEADER_SIZE, so);
    PastHeader(b, c, so, no);
    PastHeader(b, c, no, no + |d.strings|);
  }

  lemma HeaderBytes(a: seq<byte>, b: seq<byte>)
    requires HeaderKept(a, b, {})
    ensures a[..HEADER_SIZE] == b[..HEADER_SIZE]
  {
    hide Get32;
    forall f | f in FIELDS
      ensures a[f..f + 4] == b[f..f + 4]
    {
      Kept(a, b, {}, f);
      SameBytes(a, b, f);
    }
    assert a[..40] == a[0..4] + a[4..8] + a[8..12] + a[12..16] + a[16..20] + a[20..24] + a[24..28] + a[28..32]
      + a[32..36] + a[36..40];
    assert b[..40] == b[0..4] + b[4..8] + b[8..12] + b[12..16] + b[16..20] + b[20..24] + b[24..28] + b[28..32]
      + b[32..36] + b[36..40];
  }

  lemma SameBytes(a: seq<byte>, b: seq<byte>, f: nat)
    requires f + 4 <= |a| && f + 4 <= |b| && Get32(a, f) == Get32(b, f)
    ensures a[f..f + 4] == b[f..f + 4]
  {
    EncBe(a[f..f + 4]);
    EncBe(b[f..f + 4]);
  }

  /** fdt_pack is idempotent: what it makes of a packed blob is that blob, byte for byte. */
  lemma PackIdempotent(a: seq<byte>, b: seq<byte>, d: DT)
    requires PackedBlocks(a, d) && Field(a, TOTALSIZE) == PackedSize(d)
    requires PackedBlocks(b, d) && Field(b, TOTALSIZE) == PackedSize(d)
    requires HeaderKept(a, b, BLOCK_FIELDS + {TOTALSIZE})
    ensures PackedSize(d) <= |a| && PackedSize(d) <= |b| && a[..PackedSize(d)] == b[..PackedSize(d)]
  {
    hide Get32, Encode, StructTokens, ReserveBytes, Field, ValidTokens;
    var so := HEADER_SIZE + |ReserveBytes(d.rsv, d.term)|;
    var no := so + |Encode(StructTokens(d))|;
    HeaderBytes(a, b);
    assert a[..no + |d.strings|] == a[..HEADER_SIZE] + a[HEADER_SIZE..so] + a[so..no] + a[no..no + |d.strings|];
    assert b[..no + |d.strings|] == b[..HEADER_SIZE] + b[HEADER_SIZE..so] + b[so..no] + b[no..no + |d.strings|];
  }

  // ---- fdt_open_into ----

  /** A blob copied to the front of a buffer of its own holds the same tree. */
  lemma CopiedHolds(a: seq<byte>, b: seq<byte>, d: DT)
    requires Contents(a, d) && Ordered(a, |ReserveBytes(d.rsv, d.term)|) && |b| <= MAX_INT
    requires Field(a, TOTALSIZE) <= |a| && Field(a, TOTALSIZE) <= |b|
    requires b[HEADER_SIZE..Field(a, TOTALSIZE)] == a[HEADER_SIZE..Field(a, TOTALSIZE)]
    requires HeaderKept(a, b, {VERSION, SIZE_STRUCT, TOTALSIZE})
    requires Field(b, VERSION) == 17 && Field(b, SIZE_STRUCT) == Field(a, SIZE_STRUCT)
    requires Field(a, TOTALSIZE) <= Field(b, TOTALSIZE) <= |b|
    requires Field(a, MAGIC) == FDT_MAGIC && Field(a, LAST_COMP) <= LAST_VERSION
    ensures Holds(b, d)
  {
    hide Get32, Encode, StructTokens, ReserveBytes, Field, HeaderKept, WellFormed;
    var except, h, t := {VERSION, SIZE_STRUCT, TOTALSIZE}, HEADER_SIZE, Field(a, TOTALSIZE);
    Kept(a, b, except, MAGIC);
    Kept(a, b, except, LAST_COMP);
    Kept(a, b, except, OFF_RSVMAP);
    Kept(a, b, except, OFF_STRUCT);
    Kept(a, b, except, OFF_STRINGS);
    Kept(a, b, except, SIZE_STRINGS);
    var off, n := Field(a, OFF_RSVMAP), |ReserveBytes(d.rsv, d.term)|;
    PartsEqual(a, h, t, b, h, t, off - h, off + n - h);
    PartsEqual(a, h, t, b, h, t, Field(a, OFF_STRUCT) - h, Field(a, OFF_STRUCT) + Field(a, SIZE_STRUCT) - h);
    PartsEqual(a, h, t, b, h, t, Field(a, OFF_STRINGS) - h, DataEnd(a) - h);
  }

  /** `b` is the blob `a` copied over `t`, with room up to `total`. */
  ghost predicate CopiedWhole(a: seq<byte>, t: seq<byte>, b: seq<byte>, d: DT, total: nat) {
    && HeaderKept(a, b, {VERSION, SIZE_STRUCT, TOTALSIZE}) && Field(b, TOTALSIZE) == total
    && Holds(b, d) && RestKept(t, b, Field(a, TOTALSIZE))
  }

  /** fdt_move, the version and size stores after it. */
  method OpenOrdered(fdt: array<byte>, buf: array<byte>, bufsize: nat, structSize: nat, ghost d: DT) returns (err: int)
    requires fdt != buf && bufsize <= buf.Length <= MAX_INT
    requires Contents(fdt[..], d) && Field(fdt[..], MAGIC) == FDT_MAGIC && Field(fdt[..], TOTALSIZE) <= fdt.Length
    requires CheckHeader(fdt[..]) == 0 && structSize == Field(fdt[..], SIZE_STRUCT)
    requires Ordered(fdt[..], |ReserveBytes(d.rsv, d.term)|)
    modifies buf
    ensures err == if Field(fdt[..], TOTALSIZE) > bufsize then ERR_NOSPACE else 0
    ensures err != 0 ==> buf[..] == old(buf[..])
    ensures err == 0 ==> CopiedWhole(fdt[..], old(buf[..]), buf[..], d, bufsize)
  {
    hide Get32, Field, HeaderKept, Contents, Patch, ReserveBytes, WellFormed, Readable;
    ghost var a, t := fdt[..], buf[..];
    err := CheckHdr(fdt);
    if err != 0 {
      return;
    }
    var total: int := ReadField(fdt, TOTALSIZE);
    if total > bufsize {
      return ERR_NOSPACE;
    }
    Copy(buf, 0, fdt, 0, total);
    ghost var b := buf[..];
    assert fdt[0..total] == a[0..total];
    PatchData(t, 0, a[0..total]);
    CopiedHeader(a, b, total);
    SetField(buf, VERSION, 17);
    ghost var c := buf[..];
    SetField(buf, SIZE_STRUCT, structSize);
    ghost var e := buf[..];
    SetField(buf, TOTALSIZE, bufsize);
    ThreeSet(a, b, c, e, buf[..]);
    PartsEqual(a, 0, total, b, 0, total, HEADER_SIZE, total);
    PastHeader(b, buf[..], HEADER_SIZE, total);
    PatchSlices(t, 0, a[0..total], total, |t|);
    PastHeader(b, buf[..], total, |t|);
    CopiedHolds(a, buf[..], d);
  }

  /** The header after the three stores. */
  lemma ThreeSet(a: seq<byte>, b: seq<byte>, c: seq<byte>, e: seq<byte>, g: seq<byte>)
    requires HeaderKept(a, b, {}) && HeaderKept(b, c, {VERSION}) && HeaderKept(c, e, {SIZE_STRUCT})
    requires HeaderKept(e, g, {TOTALSIZE})
    ensures HeaderKept(a, g, {VERSION, SIZE_STRUCT, TOTALSIZE})
    ensures Field(g, VERSION) == Field(c, VERSION) && Field(g, SIZE_STRUCT) == Field(e, SIZE_STRUCT)
  {
    hide Field;
  }

  lemma CopiedHeader(a: seq<byte>, b: seq<byte>, n: nat)
    requires HEADER_SIZE <= n <= |a| && n <= |b| && b[0..n] == a[0..n]
    ensures HeaderKept(a, b, {})
  {
    hide Get32;
    forall f | f in FIELDS
      ensures Field(a, f) == Field(b, f)
    {
      PartsEqual(a, 0, n, b, 0, n, f, f + 4);
      assert a[0 + f..0 + (f + 4)] == b[0 + f..0 + (f + 4)];
      SameWordAt(a, b, f);
    }
  }

  lemma SameWordAt(a: seq<byte>, b: seq<byte>, o: nat)
    requires o + 4 <= |a| && o + 4 <= |b| && a[o..o + 4] == b[o..o + 4]
    ensures Get32(a, o) == Get32(b, o)
  {
  }

  /** The reordering branch of fdt_open_into, for a destination apart from the blob. */
  method OpenReordered(fdt: array<byte>, buf: array<byte>, bufsize: nat, rsvSize: nat, structSize: nat, ghost d: DT)
    returns (err: int)
    requires fdt != buf && bufsize <= buf.Length <= MAX_INT
    requires Contents(fdt[..], d) && structSize == Field(fdt[..], SIZE_STRUCT)
    requires rsvSize == |ReserveBytes(d.rsv, d.term)|
    modifies buf
    ensures ValidTokens(StructTokens(d)) && err == if PackedSize(d) > bufsize then ERR_NOSPACE else 0
    ensures err != 0 ==> buf[..] == old(buf[..])
    ensures err == 0 ==> Holds(buf[..], d) && PackedBlocks(buf[..], d) && Field(buf[..], TOTALSIZE) == bufsize
    ensures err == 0 ==> Field(buf[..], BOOT_CPUID) == Field(fdt[..], BOOT_CPUID)
    ensures err == 0 ==> RestKept(old(buf[..]), buf[..], PackedSize(d))
  {
    hide Get32, HeaderKept, Encode, StructTokens, ReserveBytes, PackedBlocks, Field, PackedSize;
    ContentsSizes(fdt[..], d);
    var stringsSize: int := ReadField(fdt, SIZE_STRINGS);
    var newsize := HEADER_SIZE + rsvSize + structSize + stringsSize;
    if bufsize < newsize {
      return ERR_NOSPACE;
    }
    PackBlocks(fdt, buf, rsvSize, structSize, d);
    ghost var b0 := buf[..];
    SetField(buf, MAGIC, FDT_MAGIC);
    ghost var b1 := buf[..];
    SetField(buf, TOTALSIZE, bufsize);
    ghost var b2 := buf[..];
    SetField(buf, VERSION, 17);
    ghost var b3 := buf[..];
    SetField(buf, LAST_COMP, 16);
    ghost var b4 := buf[..];
    var cpu := ReadField(fdt, BOOT_CPUID);
    SetField(buf, BOOT_CPUID, cpu);
    StillPacked(b0, b1, d, {MAGIC});
    StillPacked(b1, b2, d, {TOTALSIZE});
    StillPacked(b2, b3, d, {VERSION});
    StillPacked(b3, b4, d, {LAST_COMP});
    StillPacked(b4, buf[..], d, {BOOT_CPUID});
    HeaderFilled(b1, b2, b3, b4, buf[..]);
    FiveSet(b0, b1, b2, b3, b4, buf[..], PackedSize(d));
    HoldsWell(fdt[..], d);
    PackedHolds(buf[..], d);
    err := 0;
  }

  lemma FiveSet(b0: seq<byte>, b1: seq<byte>, b2: seq<byte>, b3: seq<byte>, b4: seq<byte>, b5: seq<byte>, end: nat)
    requires HEADER_SIZE <= end <= |b0| == |b1| == |b2| == |b3| == |b4| == |b5|
    requires b1[HEADER_SIZE..] == b0[HEADER_SIZE..] && b2[HEADER_SIZE..] == b1[HEADER_SIZE..]
    requires b3[HEADER_SIZE..] == b2[HEADER_SIZE..] && b4[HEADER_SIZE..] == b3[HEADER_SIZE..]
    requires b5[HEADER_SIZE..] == b4[HEADER_SIZE..]
    ensures b5[end..|b5|] == b0[end..|b0|]
  {
    PastHeader(b0, b5, end, |b0|);
  }

  lemma ContentsSizes(a: seq<byte>, d: DT)
    requires Contents(a, d)
    ensures HEADER_SIZE <= |a| && ValidTokens(StructTokens(d)) && |Encode(StructTokens(d))| == Field(a, SIZE_STRUCT)
    ensures |d.strings| == Field(a, SIZE_STRINGS)
    ensures PackedSize(d) == HEADER_SIZE + |ReserveBytes(d.rsv, d.term)| + Field(a, SIZE_STRUCT)
              + Field(a, SIZE_STRINGS)
  {
    hide Get32, Encode, StructTokens, ReserveBytes, Field, NameOk, ValidTokens;
  }

  lemma HeaderFilled(b1: seq<byte>, b2: seq<byte>, b3: seq<byte>, b4: seq<byte>, b5: seq<byte>)
    requires HeaderKept(b1, b2, {TOTALSIZE}) && HeaderKept(b2, b3, {VERSION}) && HeaderKept(b3, b4, {LAST_COMP})
    requires HeaderKept(b4, b5, {BOOT_CPUID})
    ensures Field(b5, MAGIC) == Field(b1, MAGIC) && Field(b5, TOTALSIZE) == Field(b2, TOTALSIZE)
    ensures Field(b5, VERSION) == Field(b3, VERSION) && Field(b5, LAST_COMP) == Field(b4, LAST_COMP)
  {
    hide Field;
  }

  lemma ContentsNoWrap(a: seq<byte>, d: DT)
    requires Contents(a, d)
    ensures NoBlockWraps(a, |ReserveBytes(d.rsv, d.term)|)
  {
    hide Get32, ReserveBytes, Field, NameOk, ValidTokens, StructTokens, Encode;
  }

  /** fdt_open_into, into a buffer apart from the blob: the tree comes over whole whichever
      order the blocks were in. */
  method OpenInto(fdt: array<byte>, buf: array<byte>, bufsize: nat, ghost d: DT) returns (err: int)
    requires fdt != buf && bufsize <= buf.Length <= MAX_INT
    requires Contents(fdt[..], d) && Field(fdt[..], MAGIC) == FDT_MAGIC && Field(fdt[..], TOTALSIZE) <= fdt.Length
    modifies buf
    ensures ValidTokens(StructTokens(d))
    ensures CheckHeader(fdt[..]) != 0 ==> err == CheckHeader(fdt[..])
    ensures CheckHeader(fdt[..]) == 0 ==>
              var need := if Ordered(fdt[..], |ReserveBytes(d.rsv, d.term)|) then Field(fdt[..], TOTALSIZE)
                else PackedSize(d);
              && err == (if need > bufsize then ERR_NOSPACE else 0)
              && (err == 0 ==> RestKept(old(buf[..]), buf[..], need))
    ensures err != 0 ==> buf[..] == old(buf[..])
    ensures err == 0 ==> Holds(buf[..], d) && Field(buf[..], TOTALSIZE) == bufsize
    ensures err == 0 ==> Field(buf[..], BOOT_CPUID) == Field(fdt[..], BOOT_CPUID)
  {
    hide Get32, Contents, CheckHeader, PackedBlocks, HeaderKept, PackedSize, RestKept;
    ContentsSizes(fdt[..], d);
    err := CheckHdr(fdt);
    if err != 0 {
      return;
    }
    var n := NumMemRsv(fdt, d);
    var rsvSize := (n + 1) * 16;
    var structSize: int := ReadField(fdt, SIZE_STRUCT);
    var ordered := BlocksOrdered(fdt, rsvSize);
    ContentsNoWrap(fdt[..], d);
    OrderedIff(fdt[..], rsvSize);
    if ordered {
      err := OpenOrdered(fdt, buf, bufsize, structSize, d);
      if err == 0 {
        Kept(fdt[..], buf[..], {VERSION, SIZE_STRUCT, TOTALSIZE}, BOOT_CPUID);
      }
    } else {
      err := OpenReordered(fdt, buf, bufsize, rsvSize, structSize, d);
    }
  }
}
