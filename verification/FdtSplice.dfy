/** Splicing: header fields and blocks under the byte moves of the read-write functions. */
module FdtSplice {
  import opened BigEndian
  import opened Word32
  import opened FdtTokens
  import opened FdtBlob
  import opened FdtRead

  const FIELDS: set<nat> := {0, 4, 8, 12, 16, 20, 24, 28, 32, 36}

  /** Header fields other than those in `except` are the same in both buffers. */
  ghost predicate HeaderKept(a: seq<byte>, b: seq<byte>, except: set<nat>) {
    HEADER_SIZE <= |a| && HEADER_SIZE <= |b| && forall f | f in FIELDS && f !in except :: Field(a, f) == Field(b, f)
  }

  /** The bytes from `at + oldlen` up to `end` have moved to `at + newlen`; the bytes between the
      header and `at`, and those behind where `end` has come to, are as they were. */
  ghost predicate Moved(a: seq<byte>, b: seq<byte>, at: nat, oldlen: nat, newlen: nat, end: nat) {
    && |a| == |b|
    && HEADER_SIZE <= at <= at + oldlen <= end <= |a| && end - oldlen + newlen <= |a|
    && a[HEADER_SIZE..at] == b[HEADER_SIZE..at]
    && a[at + oldlen..end] == b[at + newlen..end - oldlen + newlen]
    && a[end - oldlen + newlen..|a|] == b[end - oldlen + newlen..|b|]
  }

  /** Equal slices have equal parts. */
  lemma PartsEqual(a: seq<byte>, i: nat, j: nat, b: seq<byte>, k: nat, l: nat, p: nat, q: nat)
    requires i <= j <= |a| && k <= l <= |b| && a[i..j] == b[k..l]
    requires p <= q <= j - i
    ensures a[i + p..i + q] == b[k + p..k + q]
  {
    SliceSlice(a, i, j, p, q);
    SliceSlice(b, k, l, p, q);
  }

  /** Three adjacent slices make up one. */
  lemma Adjacent(b: seq<byte>, i: nat, j: nat, k: nat, l: nat)
    requires i <= j <= k <= l <= |b|
    ensures b[i..l] == b[i..j] + b[j..k] + b[k..l]
  {
  }

  lemma PatchField(b: seq<byte>, f: nat, v: u32)
    requires HEADER_SIZE <= |b| && f in FIELDS
    ensures HeaderKept(b, Patch(b, f, Enc32(v)), {f})
    ensures Field(Patch(b, f, Enc32(v)), f) == v
    ensures Patch(b, f, Enc32(v))[HEADER_SIZE..] == b[HEADER_SIZE..]
  {
    hide Enc32, Patch;
    var p := Patch(b, f, Enc32(v));
    PatchSlices(b, f, Enc32(v), HEADER_SIZE, |b|);
    assert p[HEADER_SIZE..] == p[HEADER_SIZE..|p|] && b[HEADER_SIZE..] == b[HEADER_SIZE..|b|];
    PatchData(b, f, Enc32(v));
    forall g | g in FIELDS && g != f
      ensures Field(b, g) == Field(p, g)
    {
      PatchSlices(b, f, Enc32(v), g, g + 4);
    }
  }

  /** One of the fdt_set_... header setters. */
  method SetField(buf: array<byte>, f: nat, v: u32)
    requires HEADER_SIZE <= buf.Length && f in FIELDS
    modifies buf
    ensures HeaderKept(old(buf[..]), buf[..], {f}) && Field(buf[..], f) == v
    ensures buf[..][HEADER_SIZE..] == old(buf[..])[HEADER_SIZE..]
  {
    hide HeaderKept, Patch, Enc32;
    ghost var b := buf[..];
    Write32(buf, f, v);
    PatchField(b, f, v);
  }

  lemma MovedKeepsHeaderPatch(a: seq<byte>, b: seq<byte>, c: seq<byte>, at: nat, oldlen: nat, newlen: nat, end: nat)
    requires Moved(a, b, at, oldlen, newlen, end) && |b| == |c| && b[HEADER_SIZE..] == c[HEADER_SIZE..]
    ensures Moved(a, c, at, oldlen, newlen, end)
  {
    var n := |b|;
    assert b[HEADER_SIZE..n] == c[HEADER_SIZE..n];
    PartsEqual(b, HEADER_SIZE, n, c, HEADER_SIZE, n, 0, at - HEADER_SIZE);
    PartsEqual(b, HEADER_SIZE, n, c, HEADER_SIZE, n, at + newlen - HEADER_SIZE, end - oldlen + newlen - HEADER_SIZE);
    PartsEqual(b, HEADER_SIZE, n, c, HEADER_SIZE, n, end - oldlen + newlen - HEADER_SIZE, n - HEADER_SIZE);
  }

  /** Writing inside the gap a splice opened disturbs nothing else. */
  lemma MovedKeepsGapPatch(a: seq<byte>, b: seq<byte>, at: nat, oldlen: nat, newlen: nat, end: nat, off: nat,
                           data: seq<byte>)
    requires Moved(a, b, at, oldlen, newlen, end) && at <= off && off + |data| <= at + newlen
    ensures Moved(a, Patch(b, off, data), at, oldlen, newlen, end)
    ensures HeaderKept(b, Patch(b, off, data), {})
  {
    hide Patch;
    PatchSlices(b, off, data, HEADER_SIZE, at);
    PatchSlices(b, off, data, at + newlen, end - oldlen + newlen);
    PatchSlices(b, off, data, end - oldlen + newlen, |b|);
    PatchKeepsHeader(b, off, data);
  }

  lemma PatchKeepsHeader(b: seq<byte>, off: nat, data: seq<byte>)
    requires HEADER_SIZE <= off && off + |data| <= |b|
    ensures HeaderKept(b, Patch(b, off, data), {})
  {
    hide Patch;
    forall f | f in FIELDS
      ensures Field(b, f) == Field(Patch(b, off, data), f)
    {
      PatchSlices(b, off, data, f, f + 4);
    }
  }

  /** Nothing but the header fields in `except` and the bytes up to the end of the data has changed. */
  ghost predicate Confined(a: seq<byte>, b: seq<byte>, except: set<nat>) {
    HeaderKept(a, b, except) && |a| == |b| && DataEnd(b) <= |b| && b[DataEnd(b)..|b|] == a[DataEnd(b)..|a|]
  }

  /** The data has grown by `delta` bytes, and nothing but the data and its extents has changed. */
  ghost predicate Grown(a: seq<byte>, b: seq<byte>, delta: int) {
    Confined(a, b, {SIZE_STRUCT, OFF_STRINGS, SIZE_STRINGS}) && DataEnd(b) == DataEnd(a) + delta
  }

  /** From `end` on nothing has changed. */
  ghost predicate RestKept(a: seq<byte>, b: seq<byte>, end: nat) {
    end <= |a| == |b| && a[end..|a|] == b[end..|b|]
  }

  lemma RestTrans(a: seq<byte>, b: seq<byte>, i: nat, c: seq<byte>, j: nat, end: nat)
    requires RestKept(a, b, i) && RestKept(b, c, j) && i <= end && j <= end <= |a|
    ensures RestKept(a, c, end)
  {
    PartsEqual(a, i, |a|, b, i, |b|, end - i, |a| - i);
    PartsEqual(b, j, |b|, c, j, |c|, end - j, |a| - j);
  }

  /** What _fdt_splice returns. */
  function SpliceResult(b: seq<byte>, at: nat, oldlen: nat, newlen: nat): int
    requires HEADER_SIZE <= |b|
  {
    if at + oldlen > DataEnd(b) then ERR_BADOFFSET
    else if DataEnd(b) - oldlen + newlen > Field(b, TOTALSIZE) then ERR_NOSPACE
    else 0
  }

  /** _fdt_splice */
  method Splice(buf: array<byte>, at: nat, oldlen: nat, newlen: nat) returns (err: int)
    requires HEADER_SIZE <= at && HEADER_SIZE <= buf.Length
    requires DataEnd(buf[..]) <= Field(buf[..], TOTALSIZE) <= buf.Length
    modifies buf
    ensures err == SpliceResult(old(buf[..]), at, oldlen, newlen)
    ensures err != 0 ==> buf[..] == old(buf[..])
    ensures err == 0 ==> Moved(old(buf[..]), buf[..], at, oldlen, newlen, DataEnd(old(buf[..])))
    ensures err == 0 ==> HeaderKept(old(buf[..]), buf[..], {})
    ensures err == 0 ==> at + newlen <= buf.Length && buf[..][at..at + newlen] == old(buf[..])[at..at + newlen]
  {
    hide Get32, Patch, HeaderKept, Moved;
    ghost var a := buf[..];
    var strings: int := Read32(buf, OFF_STRINGS);
    var size: int := Read32(buf, SIZE_STRINGS);
    var end: int := strings + size;
    var total := Read32(buf, TOTALSIZE);
    if at + oldlen > end {
      return ERR_BADOFFSET;
    }
    if end - oldlen + newlen > total {
      return ERR_NOSPACE;
    }
    MemMove(buf, at + newlen, at + oldlen, end - at - oldlen);
    PatchSlices(a, at + newlen, a[at + oldlen..end], at, at + newlen);
    SpliceMoves(a, at, oldlen, newlen, end);
    assert a[at + oldlen..end] == old(buf[at + oldlen..end]);
    assert at + oldlen + (end - at - oldlen) == end;
    err := 0;
  }

  lemma SpliceMoves(a: seq<byte>, at: nat, oldlen: nat, newlen: nat, end: nat)
    requires HEADER_SIZE <= at && at + oldlen <= end <= |a| && end - oldlen + newlen <= |a|
    ensures Moved(a, Patch(a, at + newlen, a[at + oldlen..end]), at, oldlen, newlen, end)
    ensures HeaderKept(a, Patch(a, at + newlen, a[at + oldlen..end]), {})
  {
    hide Patch, HeaderKept;
    PatchSlices(a, at + newlen, a[at + oldlen..end], HEADER_SIZE, at);
    PatchSlices(a, at + newlen, a[at + oldlen..end], end - oldlen + newlen, |a|);
    PatchData(a, at + newlen, a[at + oldlen..end]);
    PatchKeepsHeader(a, at + newlen, a[at + oldlen..end]);
  }

  /** The two header fields that follow the structure block's size have been adjusted. */
  ghost predicate StructResized(a: seq<byte>, b: seq<byte>, delta: int) {
    && HeaderKept(a, b, {SIZE_STRUCT, OFF_STRINGS})
    && Field(b, SIZE_STRUCT) == Field(a, SIZE_STRUCT) + delta
    && Field(b, OFF_STRINGS) == Field(a, OFF_STRINGS) + delta
  }

  /** A splice inside the structure block at absolute position `at`. */
  ghost predicate StructSpliced(a: seq<byte>, b: seq<byte>, at: nat, oldlen: nat, newlen: nat) {
    && HEADER_SIZE <= |a|
    && Moved(a, b, at, oldlen, newlen, DataEnd(a))
    && StructResized(a, b, newlen - oldlen)
  }

  lemma SplicedEnd(a: seq<byte>, b: seq<byte>, at: nat, oldlen: nat, newlen: nat)
    requires StructSpliced(a, b, at, oldlen, newlen)
    ensures DataEnd(b) == DataEnd(a) + newlen - oldlen
  {
    hide Field;
    Kept(a, b, {SIZE_STRUCT, OFF_STRINGS}, SIZE_STRINGS);
  }

  /** A splice of the structure block stays within the data. */
  lemma SplicedGrown(a: seq<byte>, b: seq<byte>, at: nat, oldlen: nat, newlen: nat)
    requires StructSpliced(a, b, at, oldlen, newlen)
    ensures Grown(a, b, newlen - oldlen)
  {
    SplicedEnd(a, b, at, oldlen, newlen);
    hide Field;
  }

  lemma GrownTrans(a: seq<byte>, b: seq<byte>, m: int, c: seq<byte>, n: nat)
    requires Grown(a, b, m) && Grown(b, c, n)
    ensures Grown(a, c, m + n)
  {
    hide Field, HeaderKept;
    var except := {SIZE_STRUCT, OFF_STRINGS, SIZE_STRINGS};
    KeptTrans(a, b, except, c, except);
    assert except + except == except;
    var i, j := DataEnd(b), DataEnd(c);
    PartsEqual(a, i, |a|, b, i, |b|, j - i, |a| - i);
  }

  /** _fdt_splice_struct */
  method SpliceStruct(buf: array<byte>, at: nat, oldlen: nat, newlen: nat) returns (err: int)
    requires HEADER_SIZE <= at && HEADER_SIZE <= buf.Length <= MAX_INT
    requires DataEnd(buf[..]) <= Field(buf[..], TOTALSIZE) <= buf.Length
    requires at + oldlen <= Field(buf[..], OFF_STRUCT) + Field(buf[..], SIZE_STRUCT) <= Field(buf[..], OFF_STRINGS)
    requires oldlen <= Field(buf[..], SIZE_STRUCT)
    modifies buf
    ensures err == if DataEnd(old(buf[..])) - oldlen + newlen > Field(old(buf[..]), TOTALSIZE) then ERR_NOSPACE else 0
    ensures err != 0 ==> buf[..] == old(buf[..])
    ensures err == 0 ==> StructSpliced(old(buf[..]), buf[..], at, oldlen, newlen)
    ensures err == 0 ==> at + newlen <= buf.Length && buf[..][at..at + newlen] == old(buf[..])[at..at + newlen]
  {
    hide Get32, Moved, HeaderKept;
    ghost var a := buf[..];
    var delta := newlen - oldlen;
    err := Splice(buf, at, oldlen, newlen);
    if err != 0 {
      return;
    }
    ghost var b := buf[..];
    Kept(a, b, {}, SIZE_STRUCT);
    Kept(a, b, {}, OFF_STRINGS);
    var size := Read32(buf, SIZE_STRUCT);
    SetField(buf, SIZE_STRUCT, size + delta);
    ghost var c := buf[..];
    Kept(b, c, {SIZE_STRUCT}, OFF_STRINGS);
    var strings := Read32(buf, OFF_STRINGS);
    SetField(buf, OFF_STRINGS, strings + delta);
    Kept(c, buf[..], {OFF_STRINGS}, SIZE_STRUCT);
    KeptTrans(a, b, {}, c, {SIZE_STRUCT});
    KeptTrans(a, c, {SIZE_STRUCT}, buf[..], {OFF_STRINGS});
    assert {} + {SIZE_STRUCT} == {SIZE_STRUCT} && {SIZE_STRUCT} + {OFF_STRINGS} == {SIZE_STRUCT, OFF_STRINGS};
    MovedKeepsHeaderPatch(a, b, c, at, oldlen, newlen, DataEnd(a));
    MovedKeepsHeaderPatch(a, c, buf[..], at, oldlen, newlen, DataEnd(a));
    PastHeader(b, c, at, at + newlen);
    PastHeader(c, buf[..], at, at + newlen);
  }

  lemma PastHeader(b: seq<byte>, c: seq<byte>, i: nat, j: nat)
    requires HEADER_SIZE <= i <= j <= |b| == |c| && b[HEADER_SIZE..] == c[HEADER_SIZE..]
    ensures b[i..j] == c[i..j]
  {
    var n := |b|;
    assert b[HEADER_SIZE..n] == c[HEADER_SIZE..n];
    PartsEqual(b, HEADER_SIZE, n, c, HEADER_SIZE, n, i - HEADER_SIZE, j - HEADER_SIZE);
  }

  lemma Kept(a: seq<byte>, b: seq<byte>, except: set<nat>, f: nat)
    requires HeaderKept(a, b, except) && f in FIELDS && f !in except
    ensures Field(a, f) == Field(b, f)
  {
  }

  lemma KeptTrans(a: seq<byte>, b: seq<byte>, ab: set<nat>, c: seq<byte>, bc: set<nat>)
    requires HeaderKept(a, b, ab) && HeaderKept(b, c, bc)
    ensures HeaderKept(a, c, ab + bc)
  {
  }

  lemma KeptSelf(a: seq<byte>, except: set<nat>)
    requires HEADER_SIZE <= |a|
    ensures HeaderKept(a, a, except)
  {
  }

  /** _fdt_blocks_misordered, negated: the sums are 32-bit sums. */
  predicate WordOrdered(b: seq<byte>, rsvSize: nat)
    requires HEADER_SIZE <= |b|
  {
    && Field(b, OFF_RSVMAP) >= HEADER_SIZE
    && Field(b, OFF_STRUCT) >= U32(Field(b, OFF_RSVMAP) + rsvSize)
    && Field(b, OFF_STRINGS) >= U32(Field(b, OFF_STRUCT) + Field(b, SIZE_STRUCT))
    && Field(b, TOTALSIZE) >= U32(Field(b, OFF_STRINGS) + Field(b, SIZE_STRINGS))
  }

  /** None of the three blocks reaches past the last 32-bit offset. */
  predicate NoBlockWraps(b: seq<byte>, rsvSize: nat)
    requires HEADER_SIZE <= |b|
  {
    && Field(b, OFF_RSVMAP) + rsvSize < W && Field(b, OFF_STRUCT) + Field(b, SIZE_STRUCT) < W
    && Field(b, OFF_STRINGS) + Field(b, SIZE_STRINGS) < W
  }

  /** For any header: the blocks are in order exactly when the check says so and no sum wraps. */
  lemma OrderedIff(b: seq<byte>, rsvSize: nat)
    requires HEADER_SIZE <= |b|
    ensures Ordered(b, rsvSize) <==> WordOrdered(b, rsvSize) && NoBlockWraps(b, rsvSize)
  {
    hide Field;
  }

  /** _fdt_rw_check_header, without the rewriting of newer version numbers to 17. */
  function RwHeader(b: seq<byte>): int
    requires HEADER_SIZE <= |b|
  {
    if CheckHeader(b) != 0 then CheckHeader(b)
    else if Field(b, VERSION) < 17 then ERR_BADVERSION
    else if !WordOrdered(b, 16) then ERR_BADLAYOUT
    else 0
  }

  method ReadField(buf: array<byte>, f: nat) returns (v: u32)
    requires HEADER_SIZE <= buf.Length && f <= HEADER_SIZE - 4
    ensures v == Field(buf[..], f)
  {
    v := Read32(buf, f);
  }

  method BlocksOrdered(buf: array<byte>, rsvSize: nat) returns (r: bool)
    requires HEADER_SIZE <= buf.Length
    ensures r == WordOrdered(buf[..], rsvSize)
  {
    hide Get32;
    var rsv: int := ReadField(buf, OFF_RSVMAP);
    var struct: int := ReadField(buf, OFF_STRUCT);
    var size: int := ReadField(buf, SIZE_STRUCT);
    var strings: int := ReadField(buf, OFF_STRINGS);
    var stringsSize: int := ReadField(buf, SIZE_STRINGS);
    var total: int := ReadField(buf, TOTALSIZE);
    r := !(rsv < HEADER_SIZE || struct < U32(rsv + rsvSize) || strings < U32(struct + size)
      || total < U32(strings + stringsSize));
  }

  method RwCheckHeader(buf: array<byte>) returns (err: int)
    requires HEADER_SIZE <= buf.Length
    modifies buf
    ensures err == RwHeader(old(buf[..]))
    ensures err != 0 || Field(old(buf[..]), VERSION) <= 17 ==> buf[..] == old(buf[..])
    ensures err == 0 ==> HeaderKept(old(buf[..]), buf[..], {VERSION}) && Field(buf[..], VERSION) == 17
                         && buf[..][HEADER_SIZE..] == old(buf[..])[HEADER_SIZE..]
  {
    hide Get32, HeaderKept, CheckHeader;
    KeptSelf(buf[..], {VERSION});
    err := CheckHdr(buf);
    if err != 0 {
      return;
    }
    var version := Read32(buf, VERSION);
    if version < 17 {
      return ERR_BADVERSION;
    }
    var ordered := BlocksOrdered(buf, 16);
    if !ordered {
      return ERR_BADLAYOUT;
    }
    if version > 17 {
      SetField(buf, VERSION, 17);
    }
  }

  /** The header check lets every blob the model speaks of pass, untouched. */
  lemma HoldsPasses(b: seq<byte>, d: DT)
    requires Holds(b, d)
    ensures RwHeader(b) == 0 && Field(b, VERSION) == 17
  {
    hide Get32, Contents;
    OrderedIff(b, 16);
  }

  // ---- a header that is let through although its blocks are not in order ----

  /** A reservation block 16 bytes before the end of the 32-bit range. */
  function WrappedHeader(): seq<byte> {
    Enc32(FDT_MAGIC) + Enc32(HEADER_SIZE) + Enc32(HEADER_SIZE) + Enc32(HEADER_SIZE) + Enc32(0xffff_fff0)
    + Enc32(17) + Enc32(16) + Enc32(0) + Enc32(0) + Enc32(0)
  }

  lemma WordRead(b: seq<byte>, o: nat, v: u32)
    requires o + 4 <= |b| && b[o..o + 4] == Enc32(v)
    ensures Get32(b, o) == v
  {
  }

  lemma WrappedAccepted()
    ensures |WrappedHeader()| == HEADER_SIZE && RwHeader(WrappedHeader()) == 0 && !Ordered(WrappedHeader(), 16)
  {
    hide Enc32, Get32;
    var b := WrappedHeader();
    WrappedField(b, MAGIC, FDT_MAGIC);
    WrappedField(b, TOTALSIZE, HEADER_SIZE);
    WrappedField(b, OFF_STRUCT, HEADER_SIZE);
    WrappedField(b, OFF_STRINGS, HEADER_SIZE);
    WrappedField(b, OFF_RSVMAP, 0xffff_fff0);
    WrappedField(b, VERSION, 17);
    WrappedField(b, LAST_COMP, 16);
    WrappedField(b, SIZE_STRINGS, 0);
    WrappedField(b, SIZE_STRUCT, 0);
  }

  lemma WrappedField(b: seq<byte>, f: nat, v: u32)
    requires b == WrappedHeader() && f <= HEADER_SIZE - 4 && f % 4 == 0
    requires v == [FDT_MAGIC, HEADER_SIZE, HEADER_SIZE, HEADER_SIZE, 0xffff_fff0, 17, 16, 0, 0, 0][f / 4]
    ensures |b| == HEADER_SIZE && Field(b, f) == v
  {
    hide Enc32, Get32;
    assert b[f..f + 4] == Enc32(v);
    WordRead(b, f, v);
  }

  /** What the check promises of a blob it accepts, for any bytes. */
  lemma AcceptedOrdered(b: seq<byte>)
    requires HEADER_SIZE <= |b| && RwHeader(b) == 0
    ensures Ordered(b, 16) <==> NoBlockWraps(b, 16)
  {
    hide Field;
    OrderedIff(b, 16);
  }
}
