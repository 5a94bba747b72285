/** The sequential writer: tokens grow upwards, strings grow downwards from the end of
    the buffer, and fdt_finish brings the two together. */
module FdtSw {
  import opened BigEndian
  import opened Word32
  import opened Options
  import opened FdtTokens
  import opened FdtBlob
  import FdtProps
  import opened FdtSplice
  import opened FdtStrings
  import opened FdtRw
  import opened FdtNodeRw
  import opened FdtLaws
  import opened FdtWork

  const RSV_OFF := 48

  function EncEntries(rs: seq<Reserve>): (s: seq<byte>)
    ensures |s| == 16 * |rs|
  {
    if rs == [] then [] else EncReserve(rs[0]) + EncEntries(rs[1..])
  }

  /** End of the tokens written so far. */
  function TokensEnd(b: seq<byte>): nat
    requires HEADER_SIZE <= |b|
  {
    Field(b, OFF_STRUCT) + Field(b, SIZE_STRUCT)
  }

  /** Header of a blob being written with work `w`. */
  ghost predicate WritingHeader(b: seq<byte>, w: Work, total: nat) {
    && RSV_OFF <= total <= |b| <= MAX_INT
    && Field(b, MAGIC) == FDT_SW_MAGIC && Field(b, VERSION) == 17 && Field(b, LAST_COMP) == 16
    && Field(b, TOTALSIZE) == total && Field(b, OFF_RSVMAP) == RSV_OFF && Field(b, BOOT_CPUID) == 0
    && Field(b, OFF_STRUCT) == RSV_OFF + 16 * |w.rsv|
    && Field(b, SIZE_STRINGS) == |w.strings|
    && TokensEnd(b) + |w.strings| <= total
  }

  /** The buffer of `total` bytes holds the tokens `ts` between the reservations and the
      strings of `w`; tokens and strings do not overlap. */
  ghost predicate Wrote(b: seq<byte>, w: Work, ts: seq<Token>, total: nat) {
    && WritingHeader(b, w, total)
    && ValidTokens(ts) && Field(b, SIZE_STRUCT) == |Encode(ts)|
    && b[RSV_OFF..Field(b, OFF_STRUCT)] == EncEntries(w.rsv)
    && b[Field(b, OFF_STRUCT)..TokensEnd(b)] == Encode(ts)
    && b[total - |w.strings|..total] == w.strings
  }

  /** The buffer of `total` bytes holds the work `w`, every name in it resolved. */
  ghost predicate Writing(b: seq<byte>, w: Work, total: nat) {
    Wrote(b, w, WorkTokens(w), total) && NamesFine(w)
  }

  lemma HeaderFacts(b: seq<byte>, w: Work, total: nat)
    requires Writing(b, w, total)
    ensures WritingHeader(b, w, total) && NamesFine(w) && RSV_OFF <= total <= |b| <= MAX_INT
    ensures Field(b, MAGIC) == FDT_SW_MAGIC && TokensEnd(b) + |w.strings| <= total
  {
  }

  // ---- grabbing space for a token and filling it ----

  /** `c` is `b` with `len` bytes taken above its tokens, filled in some way. */
  ghost predicate Grabbed(b: seq<byte>, c: seq<byte>, len: nat) {
    && HEADER_SIZE <= |b| && TokensEnd(b) + len <= |b|
    && Moved(b, c, TokensEnd(b), len, len, |b|) && HeaderKept(b, c, {SIZE_STRUCT})
    && Field(c, SIZE_STRUCT) == Field(b, SIZE_STRUCT) + len
  }

  /** The header fields that no writer call after fdt_create changes. */
  predicate SetupKept(b: seq<byte>, c: seq<byte>) {
    && HEADER_SIZE <= |b| == |c|
    && Field(b, MAGIC) == Field(c, MAGIC) && Field(b, VERSION) == Field(c, VERSION)
    && Field(b, LAST_COMP) == Field(c, LAST_COMP) && Field(b, TOTALSIZE) == Field(c, TOTALSIZE)
    && Field(b, OFF_RSVMAP) == Field(c, OFF_RSVMAP) && Field(b, BOOT_CPUID) == Field(c, BOOT_CPUID)
  }

  /** Space grabbed below `total` leaves what is behind it alone. */
  lemma GrabbedRest(b: seq<byte>, c: seq<byte>, len: nat, total: nat)
    requires Grabbed(b, c, len) && TokensEnd(b) + len <= total <= |b|
    ensures RestKept(b, c, total)
  {
    hide Field, HeaderKept;
    var top := TokensEnd(b) + len;
    PartsEqual(b, top, |b|, c, top, |c|, total - top, |b| - top);
  }

  lemma HeaderGrabbed(b: seq<byte>, c: seq<byte>, len: nat)
    requires Grabbed(b, c, len)
    ensures SetupKept(b, c) && Field(c, OFF_STRUCT) == Field(b, OFF_STRUCT)
    ensures Field(c, SIZE_STRINGS) == Field(b, SIZE_STRINGS)
    ensures TokensEnd(c) == TokensEnd(b) + len
  {
    hide Field;
  }

  /** Writing one more token at the top. */
  lemma TokenAppended(b: seq<byte>, c: seq<byte>, w: Work, ts: seq<Token>, total: nat, t: Token)
    requires Wrote(b, w, ts, total) && ValidToken(t) && Grabbed(b, c, |Bytes(t)|)
    requires TokensEnd(b) + |Bytes(t)| + |w.strings| <= total
    requires c[TokensEnd(b)..TokensEnd(b) + |Bytes(t)|] == Bytes(t)
    ensures Wrote(c, w, ts + [t], total)
  {
    hide Field, Encode, EncEntries, Bytes, ValidToken, Grabbed;
    var top, len, off := TokensEnd(b), |Bytes(t)|, Field(b, OFF_STRUCT);
    HeaderGrabbed(b, c, len);
    EncodeOneMore(ts, t);
    GapAround(b, c, top, len, off, total - |w.strings|, total);
    assert c[off..top + len] == c[off..top] + c[top..top + len];
  }

  lemma TokenWritten(b: seq<byte>, c: seq<byte>, w: Work, v: Work, total: nat, t: Token)
    requires Writing(b, w, total) && ValidToken(t) && Grabbed(b, c, |Bytes(t)|)
    requires TokensEnd(b) + |Bytes(t)| + |w.strings| <= total
    requires c[TokensEnd(b)..TokensEnd(b) + |Bytes(t)|] == Bytes(t)
    requires WorkTokens(v) == WorkTokens(w) + [t] && v.rsv == w.rsv && v.strings == w.strings && NamesFine(v)
    ensures Writing(c, v, total)
  {
    hide Field, Encode, WorkTokens, NamesFine, EncEntries, Bytes, ValidToken, Grabbed;
    TokenAppended(b, c, w, WorkTokens(w), total, t);
  }

  lemma EncodeOneMore(ts: seq<Token>, t: Token)
    requires ValidTokens(ts) && ValidToken(t)
    ensures ValidTokens(ts + [t]) && Encode(ts + [t]) == Encode(ts) + Bytes(t)
  {
    hide Bytes, ValidToken;
    OneTokenBytes(t);
    EncodeAppend(ts, [t]);
  }

  /** The blocks around the gap are where they were. */
  lemma GapAround(b: seq<byte>, c: seq<byte>, top: nat, len: nat, off: nat, lo: nat, hi: nat)
    requires Grabbed(b, c, len) && top == TokensEnd(b) && RSV_OFF <= off <= top && top + len <= lo <= hi <= |b|
    ensures |c| == |b| && c[RSV_OFF..off] == b[RSV_OFF..off] && c[off..top] == b[off..top] && c[lo..hi] == b[lo..hi]
  {
    hide Get32, HeaderKept;
    var h := HEADER_SIZE;
    PartsEqual(b, h, top, c, h, top, RSV_OFF - h, off - h);
    PartsEqual(b, h, top, c, h, top, off - h, top - h);
    PartsEqual(b, top + len, |b|, c, top + len, |b|, lo - top - len, hi - top - len);
  }

  /** _fdt_grab_space: where the new token goes, or nothing when it does not fit. */
  method GrabSpace(buf: array<byte>, len: nat, ghost w: Work, ghost total: nat) returns (p: Option<nat>)
    requires WritingHeader(buf[..], w, total) && len <= MAX_INT
    modifies buf
    ensures p == if TokensEnd(old(buf[..])) + len + |w.strings| <= total then Some(TokensEnd(old(buf[..]))) else None
    ensures p.None? ==> buf[..] == old(buf[..])
    ensures p.Some? ==> Grabbed(old(buf[..]), buf[..], len)
  {
    hide Get32, HeaderKept, Moved;
    ghost var b := buf[..];
    var offset: int := Read32(buf, SIZE_STRUCT);
    var size: int := Read32(buf, TOTALSIZE);
    var off: int := Read32(buf, OFF_STRUCT);
    var strings: int := Read32(buf, SIZE_STRINGS);
    var spaceleft := size - off - strings;
    if offset + len > spaceleft {
      return None;
    }
    SetField(buf, SIZE_STRUCT, offset + len);
    GapMade(b, buf[..], TokensEnd(b), len);
    p := Some(off + offset);
  }

  lemma GapMade(b: seq<byte>, c: seq<byte>, at: nat, len: nat)
    requires |b| == |c| && HEADER_SIZE <= at && at + len <= |b| && b[HEADER_SIZE..] == c[HEADER_SIZE..]
    ensures Moved(b, c, at, len, len, |b|)
  {
    PastHeader(b, c, HEADER_SIZE, at);
    PastHeader(b, c, at + len, |b|);
  }

  /** A store inside the space grabbed. */
  method Store(buf: array<byte>, off: nat, data: seq<byte>, ghost b: seq<byte>, ghost len: nat)
    requires Grabbed(b, buf[..], len) && TokensEnd(b) <= off && off + |data| <= TokensEnd(b) + len
    modifies buf
    ensures Grabbed(b, buf[..], len)
    ensures off + |data| <= buf.Length && buf[..] == Patch(old(buf[..]), off, data)
    ensures buf[..][off..off + |data|] == data
  {
    hide Patch, Field;
    ghost var c := buf[..];
    MovedKeepsGapPatch(b, c, TokensEnd(b), len, len, |b|, off, data);
    KeptTrans(b, c, {SIZE_STRUCT}, Patch(c, off, data), {});
    assert {SIZE_STRUCT} + {} == {SIZE_STRUCT};
    Kept(c, Patch(c, off, data), {}, SIZE_STRUCT);
    PatchData(c, off, data);
    MemCpy(buf, off, data);
  }

  // ---- fdt_create and the reservation map ----

  /** _fdt_sw_check_header */
  method SwCheckHeader(buf: array<byte>) returns (err: int)
    requires HEADER_SIZE <= buf.Length
    ensures err == if Field(buf[..], MAGIC) == FDT_SW_MAGIC then 0 else ERR_BADMAGIC
  {
    var magic := ReadField(buf, MAGIC);
    err := if magic != FDT_SW_MAGIC then ERR_BADMAGIC else 0;
  }

  /** fdt_create: a buffer too small for the header is refused, one with room for the
      header but not up to the reservation block is accepted and yet not a writable blob. */
  method Create(buf: array<byte>, bufsize: nat) returns (err: int)
    requires bufsize <= buf.Length <= MAX_INT
    modifies buf
    ensures err == if bufsize < HEADER_SIZE then ERR_NOSPACE else 0
    ensures err != 0 ==> buf[..] == old(buf[..])
    ensures err == 0 ==> (Writing(buf[..], EMPTY_WORK, bufsize) <==> bufsize >= RSV_OFF)
    ensures buf[bufsize..] == old(buf[bufsize..])
  {
    hide Get32, HeaderKept;
    if bufsize < HEADER_SIZE {
      return ERR_NOSPACE;
    }
    forall i | 0 <= i < bufsize {
      buf[i] := 0;
    }
    ghost var b := buf[..];
    ZeroField(b, SIZE_STRUCT);
    ZeroField(b, SIZE_STRINGS);
    ZeroField(b, BOOT_CPUID);
    SetField(buf, MAGIC, FDT_SW_MAGIC);
    ghost var b1 := buf[..];
    SetField(buf, VERSION, LAST_VERSION);
    ghost var b2 := buf[..];
    KeptTrans(b, b1, {MAGIC}, b2, {VERSION});
    SetField(buf, LAST_COMP, FIRST_VERSION);
    ghost var b3 := buf[..];
    KeptTrans(b, b2, {MAGIC, VERSION}, b3, {LAST_COMP});
    SetField(buf, TOTALSIZE, bufsize);
    ghost var b4 := buf[..];
    SetField(buf, OFF_RSVMAP, RSV_OFF);
    ghost var b5 := buf[..];
    var rsv := ReadField(buf, OFF_RSVMAP);
    SetField(buf, OFF_STRUCT, rsv);
    ghost var b6 := buf[..];
    SetField(buf, OFF_STRINGS, bufsize);
    CreatedFields(b, b1, b2, b3, b4, b5, b6, buf[..], bufsize);
    CreatedWriting(buf[..], bufsize);
    SevenSet(b, b1, b2, b3, b4, b5, b6, buf[..], bufsize);
    assert buf[..][bufsize..buf.Length] == buf[bufsize..] && b[bufsize..|b|] == old(buf[bufsize..]);
    err := 0;
  }

  lemma SevenSet(b: seq<byte>, b1: seq<byte>, b2: seq<byte>, b3: seq<byte>, b4: seq<byte>, b5: seq<byte>,
                 b6: seq<byte>, b7: seq<byte>, end: nat)
    requires HEADER_SIZE <= end <= |b| == |b1| == |b2| == |b3| == |b4| == |b5| == |b6| == |b7|
    requires b1[HEADER_SIZE..] == b[HEADER_SIZE..] && b2[HEADER_SIZE..] == b1[HEADER_SIZE..]
    requires b3[HEADER_SIZE..] == b2[HEADER_SIZE..] && b4[HEADER_SIZE..] == b3[HEADER_SIZE..]
    requires b5[HEADER_SIZE..] == b4[HEADER_SIZE..] && b6[HEADER_SIZE..] == b5[HEADER_SIZE..]
    requires b7[HEADER_SIZE..] == b6[HEADER_SIZE..]
    ensures b7[end..|b7|] == b[end..|b|]
  {
    PastHeader(b, b7, end, |b|);
  }

  lemma ZeroField(b: seq<byte>, f: nat)
    requires HEADER_SIZE <= |b| && f <= HEADER_SIZE - 4 && forall i | f <= i < f + 4 :: b[i] == 0
    ensures Field(b, f) == 0
  {
    assert b[f..f + 4] == [0, 0, 0, 0];
    BeFour(0, 0, 0, 0);
  }

  lemma CreatedFields(b: seq<byte>, b1: seq<byte>, b2: seq<byte>, b3: seq<byte>, b4: seq<byte>, b5: seq<byte>,
                      b6: seq<byte>, b7: seq<byte>, total: u32)
    requires HEADER_SIZE <= |b| && Field(b, SIZE_STRUCT) == Field(b, SIZE_STRINGS) == Field(b, BOOT_CPUID) == 0
    requires HeaderKept(b, b1, {MAGIC}) && Field(b1, MAGIC) == FDT_SW_MAGIC
    requires HeaderKept(b1, b2, {VERSION}) && Field(b2, VERSION) == 17
    requires HeaderKept(b2, b3, {LAST_COMP}) && Field(b3, LAST_COMP) == 16
    requires HeaderKept(b3, b4, {TOTALSIZE}) && Field(b4, TOTALSIZE) == total
    requires HeaderKept(b4, b5, {OFF_RSVMAP}) && Field(b5, OFF_RSVMAP) == RSV_OFF
    requires HeaderKept(b5, b6, {OFF_STRUCT}) && Field(b6, OFF_STRUCT) == RSV_OFF
    requires HeaderKept(b6, b7, {OFF_STRINGS}) && Field(b7, OFF_STRINGS) == total
    ensures Field(b7, MAGIC) == FDT_SW_MAGIC && Field(b7, VERSION) == 17 && Field(b7, LAST_COMP) == 16
    ensures Field(b7, TOTALSIZE) == total && Field(b7, OFF_RSVMAP) == Field(b7, OFF_STRUCT) == RSV_OFF
    ensures Field(b7, SIZE_STRUCT) == Field(b7, SIZE_STRINGS) == Field(b7, BOOT_CPUID) == 0
  {
    hide Field;
  }

  lemma CreatedWriting(b: seq<byte>, total: u32)
    requires HEADER_SIZE <= total <= |b| <= MAX_INT
    requires Field(b, MAGIC) == FDT_SW_MAGIC && Field(b, VERSION) == 17 && Field(b, LAST_COMP) == 16
    requires Field(b, TOTALSIZE) == total && Field(b, OFF_RSVMAP) == Field(b, OFF_STRUCT) == RSV_OFF
    requires Field(b, SIZE_STRUCT) == Field(b, SIZE_STRINGS) == Field(b, BOOT_CPUID) == 0
    ensures Writing(b, EMPTY_WORK, total) <==> total >= RSV_OFF
  {
    hide Field;
    EmptyBytes();
    NoFrames();
    if total >= RSV_OFF {
      assert b[RSV_OFF..RSV_OFF] == [] && b[total..total] == [];
      assert EncEntries([]) == [] && WorkTokens(EMPTY_WORK) == [];
    }
  }

  lemma {:induction false} EntriesSnoc(rs: seq<Reserve>, r: Reserve)
    ensures EncEntries(rs + [r]) == EncEntries(rs) + EncReserve(r)
    decreases |rs|
  {
    hide EncReserve;
    if rs == [] {
      assert rs + [r] == [r] && [r][1..] == [];
    } else {
      assert (rs + [r])[1..] == rs[1..] + [r];
      EntriesSnoc(rs[1..], r);
    }
  }

  /** fdt_add_reservemap_entry: only before the first token; the room check does not look
      at the strings, so the blob stays one exactly when there is room beside them. */
  method AddReserveEntry(buf: array<byte>, r: Reserve, ghost w: Work, ghost total: nat) returns (err: int)
    requires Writing(buf[..], w, total)
    modifies buf
    ensures err == if WorkTokens(w) != [] then ERR_BADSTATE
                   else if RSV_OFF + 16 * (|w.rsv| + 1) > total then ERR_NOSPACE
                   else 0
    ensures err != 0 ==> buf[..] == old(buf[..])
    ensures err == 0 ==>
              && Field(buf[..], OFF_STRUCT) == RSV_OFF + 16 * (|w.rsv| + 1)
                 && Field(buf[..], SIZE_STRINGS) == |w.strings|
              && (Writing(buf[..], w.(rsv := w.rsv + [r]), total) <==>
                   RSV_OFF + 16 * (|w.rsv| + 1) + |w.strings| <= total)
    ensures RestKept(old(buf[..]), buf[..], total)
  {
    hide Get32, HeaderKept, Encode, WorkTokens, NamesFine, EncEntries, Patch, Enc64;
    ghost var b := buf[..];
    err := SwCheckHeader(buf);
    SizeZero(WorkTokens(w));
    var size: int := ReadField(buf, SIZE_STRUCT);
    if size != 0 {
      return ERR_BADSTATE;
    }
    var offset: int := ReadField(buf, OFF_STRUCT);
    var all: int := ReadField(buf, TOTALSIZE);
    if offset + 16 > all {
      return ERR_NOSPACE;
    }
    MemCpy(buf, offset, Enc64(r.address));
    MemCpy(buf, offset + 8, Enc64(r.size));
    PatchMore(b, offset, Enc64(r.address), Enc64(r.size));
    ghost var c := buf[..];
    SetField(buf, OFF_STRUCT, offset + 16);
    PatchKeepsHeader(b, offset, EncReserve(r));
    EntryFields(b, c, buf[..]);
    PatchSlices(b, offset, EncReserve(r), total, |b|);
    PastHeader(c, buf[..], total, |b|);
    if offset + 16 + |w.strings| <= total {
      EntryWritten(b, c, buf[..], w, total, r);
    } else {
      NoRoomBeside(buf[..], w.(rsv := w.rsv + [r]), total);
    }
    err := 0;
  }

  lemma NoRoomBeside(b: seq<byte>, w: Work, total: nat)
    requires RSV_OFF + 16 * |w.rsv| + |w.strings| > total
    ensures !Writing(b, w, total)
  {
    hide Field, Encode, WorkTokens, NamesFine, EncEntries;
  }

  lemma SizeZero(ts: seq<Token>)
    requires ValidTokens(ts)
    ensures |Encode(ts)| == 0 <==> ts == []
  {
    hide Bytes;
  }

  lemma EntryWritten(b: seq<byte>, c: seq<byte>, e: seq<byte>, w: Work, total: nat, r: Reserve)
    requires Writing(b, w, total) && WorkTokens(w) == []
    requires Field(b, OFF_STRUCT) + 16 + |w.strings| <= total
    requires c == Patch(b, Field(b, OFF_STRUCT), EncReserve(r))
    requires |e| == |c| && HeaderKept(c, e, {OFF_STRUCT}) && Field(e, OFF_STRUCT) == Field(b, OFF_STRUCT) + 16
    requires e[HEADER_SIZE..] == c[HEADER_SIZE..]
    ensures Writing(e, w.(rsv := w.rsv + [r]), total)
  {
    hide Field, Encode, NamesFine, EncEntries, EncReserve, Patch, HeaderKept;
    var off, v := Field(b, OFF_STRUCT), w.(rsv := w.rsv + [r]);
    PatchKeepsHeader(b, off, EncReserve(r));
    EntryFields(b, c, e);
    EmptyBytes();
    assert WorkTokens(v) == [] && e[off + 16..off + 16] == [];
    PatchSlices(b, off, EncReserve(r), RSV_OFF, off);
    PatchData(b, off, EncReserve(r));
    PatchSlices(b, off, EncReserve(r), total - |w.strings|, total);
    PastHeader(c, e, RSV_OFF, off);
    PastHeader(c, e, off, off + 16);
    PastHeader(c, e, total - |w.strings|, total);
    assert e[RSV_OFF..off + 16] == e[RSV_OFF..off] + e[off..off + 16];
    EntriesSnoc(w.rsv, r);
    NamesFineRsv(w, v);
  }

  lemma NamesFineRsv(w: Work, v: Work)
    requires NamesFine(w) && v.frames == w.frames && v.root == w.root && v.strings == w.strings
    ensures NamesFine(v)
  {
    hide EndNameOk, EndNamesOk;
  }

  lemma EntryFields(b: seq<byte>, c: seq<byte>, e: seq<byte>)
    requires HeaderKept(b, c, {}) && HeaderKept(c, e, {OFF_STRUCT}) && |b| == |c| == |e|
    ensures SetupKept(b, e) && Field(e, SIZE_STRUCT) == Field(b, SIZE_STRUCT)
    ensures Field(e, SIZE_STRINGS) == Field(b, SIZE_STRINGS)
  {
    hide Field;
    KeptTrans(b, c, {}, e, {OFF_STRUCT});
  }

  // ---- fdt_begin_node, fdt_end_node ----

  lemma BeginWritten(c: seq<byte>, p: nat, name: seq<byte>) returns (t: Token)
    requires NUL !in name && p + 4 + Align4(|name| + 1) <= |c|
    requires c[p..p + 4] == Enc32(FDT_BEGIN_NODE) && c[p + 4..p + 5 + |name|] == name + [NUL]
    ensures t.Begin? && t.name == name && ValidToken(t)
    ensures Bytes(t) == c[p..p + 4 + Align4(|name| + 1)]
  {
    hide Get32, Enc32, ValidToken, Bytes;
    var end := p + 4 + Align4(|name| + 1);
    var x := c[p..end];
    SliceSlice(c, p, end, 0, 4);
    SliceSlice(c, p, end, 4, 5 + |name|);
    WordOf(x, FDT_BEGIN_NODE);
    BeginMade(x, name);
    t := Begin(name, x[5 + |name|..]);
  }

  lemma WordOf(x: seq<byte>, v: u32)
    requires 4 <= |x| && x[0..4] == Enc32(v)
    ensures Get32(x, 0) == v
  {
  }

  /** The stores of fdt_begin_node into the space it grabbed. */
  method FillBegin(buf: array<byte>, p: nat, name: seq<byte>, ghost b: seq<byte>) returns (ghost t: Token)
    requires NUL !in name && Grabbed(b, buf[..], 4 + Align4(|name| + 1)) && p == TokensEnd(b)
    modifies buf
    ensures Grabbed(b, buf[..], 4 + Align4(|name| + 1))
    ensures t.Begin? && t.name == name && ValidToken(t)
    ensures p + 4 + Align4(|name| + 1) <= buf.Length && Bytes(t) == buf[..][p..p + 4 + Align4(|name| + 1)]
  {
    hide Get32, Patch, Grabbed, Field, ValidToken, Bytes, Enc32, Align4;
    PadOf(|name|);
    var len := 4 + Align4(|name| + 1);
    GrabbedRoom(b, buf[..], len);
    Store(buf, p, Enc32(FDT_BEGIN_NODE), b, len);
    ghost var c := buf[..];
    Store(buf, p + 4, name + [NUL], b, len);
    PatchSlices(c, p + 4, name + [NUL], p, p + 4);
    t := BeginWritten(buf[..], p, name);
  }

  /** fdt_begin_node */
  method BeginNode(buf: array<byte>, name: seq<byte>, ghost w: Work, ghost total: nat)
    returns (err: int, ghost pad: seq<byte>)
    requires Writing(buf[..], w, total) && w.root.None? && NUL !in name && |name| <= MAX_LEN
    modifies buf
    ensures err == if TokensEnd(old(buf[..])) + 4 + Align4(|name| + 1) + |w.strings| <= total then 0 else ERR_NOSPACE
    ensures err != 0 ==> buf[..] == old(buf[..])
    ensures err == 0 ==> Writing(buf[..], Opened(w, name, pad), total)
    ensures err == 0 ==> TokensEnd(buf[..]) == TokensEnd(old(buf[..])) + 4 + Align4(|name| + 1)
    ensures RestKept(old(buf[..]), buf[..], total)
  {
    hide Get32, Encode, WorkTokens, NamesFine, EncEntries, ValidTokens, Patch, Enc32, Align4, Field, Grabbed, Bytes,
      ValidToken, Writing, WritingHeader, Opened;
    ghost var b := buf[..];
    HeaderFacts(b, w, total);
    pad := [];
    err := SwCheckHeader(buf);
    PadOf(|name|);
    var p := GrabSpace(buf, 4 + Align4(|name| + 1), w, total);
    if p.None? {
      return ERR_NOSPACE, pad;
    }
    ghost var t := FillBegin(buf, p.value, name, b);
    pad := t.pad;
    OpenedTokens(w, name, pad);
    TokenWritten(b, buf[..], w, Opened(w, name, pad), total, t);
    HeaderGrabbed(b, buf[..], 4 + Align4(|name| + 1));
    GrabbedRest(b, buf[..], 4 + Align4(|name| + 1), total);
    err := 0;
  }

  lemma GrabbedRoom(b: seq<byte>, c: seq<byte>, len: nat)
    requires Grabbed(b, c, len)
    ensures |c| == |b| && TokensEnd(b) + len <= |c|
  {
  }

  /** fdt_end_node */
  method EndOfNode(buf: array<byte>, ghost w: Work, ghost total: nat) returns (err: int)
    requires Writing(buf[..], w, total) && w.root.None? && w.frames != []
    modifies buf
    ensures err == if TokensEnd(old(buf[..])) + 4 + |w.strings| <= total then 0 else ERR_NOSPACE
    ensures err != 0 ==> buf[..] == old(buf[..])
    ensures err == 0 ==> Writing(buf[..], Closed(w), total)
    ensures err == 0 ==> TokensEnd(buf[..]) == TokensEnd(old(buf[..])) + 4
    ensures RestKept(old(buf[..]), buf[..], total)
  {
    hide Get32, Encode, WorkTokens, NamesFine, EncEntries, ValidTokens, Patch, Enc32, Field, Grabbed;
    ghost var b := buf[..];
    err := SwCheckHeader(buf);
    var p := GrabSpace(buf, 4, w, total);
    if p.None? {
      return ERR_NOSPACE;
    }
    Store(buf, p.value, Enc32(FDT_END_NODE), b, 4);
    EndBytes();
    ClosedTokens(w);
    ClosedMeans(w);
    TokenWritten(b, buf[..], w, Closed(w), total, EndNode);
    HeaderGrabbed(b, buf[..], 4);
    GrabbedRest(b, buf[..], 4, total);
    err := 0;
  }

  lemma EndBytes()
    ensures ValidToken(EndNode) && Bytes(EndNode) == Enc32(FDT_END_NODE)
    ensures ValidToken(End) && Bytes(End) == Enc32(FDT_END)
  {
    hide Enc32;
  }

  // ---- fdt_property ----

  /** The string table once `s` is in it. */
  function WithFront(strings: seq<byte>, s: seq<byte>): seq<byte> {
    if FindString(strings, s, 0).Some? then strings else s + [NUL] + strings
  }

  /** Where `s` then stands, counted from the end of the table. */
  function FrontOff(strings: seq<byte>, s: seq<byte>): int {
    if FindString(strings, s, 0).Some? then FindString(strings, s, 0).value - |strings| else -|strings| - (|s| + 1)
  }

  /** A string is put in front just when it stands nowhere in the table. */
  lemma FrontReused(strings: seq<byte>, s: seq<byte>)
    ensures WithFront(strings, s) == strings <==> exists p: nat :: StandsAt(strings, p, s)
    ensures WithFront(strings, s) != strings ==> WithFront(strings, s) == s + [NUL] + strings
  {
    var r := FindString(strings, s, 0);
    hide FindString;
    if r.None? {
      assert |s + [NUL] + strings| > |strings|;
      assert forall p: nat | p >= |strings| :: !StandsAt(strings, p, s);
    }
  }

  /** A negative offset stored in 32 bits names the string it should. */
  lemma FrontNamed(strings: seq<byte>, s: seq<byte>)
    requires NUL !in s && |strings| + |s| + 1 <= MAX_INT
    ensures EndNamed(WithFront(strings, s), U32(FrontOff(strings, s)), s)
    ensures -|WithFront(strings, s)| <= FrontOff(strings, s) < 0
  {
    hide FindString, FdtProps.Named;
    if FindString(strings, s, 0).Some? {
      StandsNamed(strings, FindString(strings, s, 0).value, s);
      EndPlace(|strings|, FindString(strings, s, 0).value);
    } else {
      var t := s + [NUL] + strings;
      assert t[0..|s| + 1] == s + [NUL];
      StandsNamed(t, 0, s);
      EndPlace(|t|, 0);
    }
  }

  lemma EndPlace(n: nat, p: nat)
    requires p < n <= MAX_INT
    ensures n + U32(p - n) - W == p
  {
  }

  /** The room check compares unsigned 32-bit numbers: it says whether the string fits
      just when the string is no longer than what the strings leave of the whole buffer. */
  lemma RoomCheck(total: nat, n: nat, len: nat, top: nat)
    requires top + n <= total <= MAX_INT && 0 < len <= MAX_INT
    ensures (U32(total - n - len) >= top <==> top + n + len <= total) <==> n + len <= total
  {
  }

  lemma StringsPlace(b: seq<byte>, w: Work, total: nat)
    requires Writing(b, w, total)
    ensures RSV_OFF <= total <= |b| <= MAX_INT && b[total - |w.strings|..total] == w.strings
    ensures Field(b, TOTALSIZE) == total && Field(b, SIZE_STRINGS) == |w.strings|
    ensures RSV_OFF <= Field(b, OFF_STRUCT) && TokensEnd(b) + |w.strings| <= total
  {
    hide Field, NamesFine, Encode, WorkTokens, EncEntries;
  }

  /** _fdt_find_add_string of fdt_sw.c: minus the distance from the end of the table, or 0. */
  method FindAddFront(buf: array<byte>, s: seq<byte>, ghost w: Work, ghost total: nat) returns (r: int)
    requires Writing(buf[..], w, total) && NUL !in s && |w.strings| + |s| + 1 <= total
    modifies buf
    ensures r == if TokensEnd(old(buf[..])) + |WithFront(w.strings, s)| <= total then FrontOff(w.strings, s) else 0
    ensures r == 0 ==> buf[..] == old(buf[..])
    ensures r != 0 ==> Writing(buf[..], w.(strings := WithFront(w.strings, s)), total)
    ensures TokensEnd(buf[..]) == TokensEnd(old(buf[..]))
    ensures RestKept(old(buf[..]), buf[..], total)
  {
    hide Get32, Encode, NamesFine, EncEntries, ValidTokens, Patch, FindString, Writing, WritingHeader, WorkTokens,
      HeaderKept;
    ghost var b := buf[..];
    StringsPlace(b, w, total);
    var all: int := Read32(buf, TOTALSIZE);
    var size: int := Read32(buf, SIZE_STRINGS);
    var len := |s| + 1;
    var p := FindStringAt(buf, all - size, size, s);
    assert buf[all - size..all - size + size] == buf[..][total - |w.strings|..total] == w.strings;
    if p.Some? {
      assert FrontOff(w.strings, s) < 0;
      return p.value - size;
    }
    var off: int := Read32(buf, OFF_STRUCT);
    var structSize: int := Read32(buf, SIZE_STRUCT);
    RoomCheck(all, size, len, off + structSize);
    if U32(all - size - len) < off + structSize {
      return 0;
    }
    MemCpy(buf, all - size - len, s + [NUL]);
    ghost var c := buf[..];
    SetField(buf, SIZE_STRINGS, size + len);
    FrontWritten(b, c, buf[..], w, total, s);
    PatchSlices(b, all - size - len, s + [NUL], total, |b|);
    PastHeader(c, buf[..], total, |b|);
    r := -size - len;
  }

  lemma FrontWritten(b: seq<byte>, c: seq<byte>, e: seq<byte>, w: Work, total: nat, s: seq<byte>)
    requires Writing(b, w, total) && TokensEnd(b) + |w.strings| + |s| + 1 <= total
    requires c == Patch(b, total - |w.strings| - |s| - 1, s + [NUL])
    requires |e| == |c| && HeaderKept(c, e, {SIZE_STRINGS}) && Field(e, SIZE_STRINGS) == |w.strings| + |s| + 1
    requires e[HEADER_SIZE..] == c[HEADER_SIZE..]
    ensures Writing(e, w.(strings := s + [NUL] + w.strings), total) && TokensEnd(e) == TokensEnd(b)
  {
    hide Field, Encode, NamesFine, EncEntries, Patch, HeaderKept, WorkTokens;
    var n, at, off := |w.strings|, total - |w.strings| - |s| - 1, Field(b, OFF_STRUCT);
    PatchKeepsHeader(b, at, s + [NUL]);
    FrontFields(b, c, e);
    PatchSlices(b, at, s + [NUL], RSV_OFF, off);
    PatchSlices(b, at, s + [NUL], off, TokensEnd(b));
    PatchSlices(b, at, s + [NUL], total - n, total);
    PatchData(b, at, s + [NUL]);
    PastHeader(c, e, RSV_OFF, off);
    PastHeader(c, e, off, TokensEnd(b));
    PastHeader(c, e, at, total - n);
    PastHeader(c, e, total - n, total);
    assert e[at..total] == e[at..total - n] + e[total - n..total];
    WorkGrow(w, s + [NUL]);
  }

  lemma FrontFields(b: seq<byte>, c: seq<byte>, e: seq<byte>)
    requires HeaderKept(b, c, {}) && HeaderKept(c, e, {SIZE_STRINGS}) && |b| == |c| == |e|
    ensures SetupKept(b, e) && Field(e, OFF_STRUCT) == Field(b, OFF_STRUCT)
    ensures Field(e, SIZE_STRUCT) == Field(b, SIZE_STRUCT)
  {
    hide Field;
    KeptTrans(b, c, {}, e, {SIZE_STRINGS});
  }

  /** The stores of fdt_property into the space it grabbed. */
  method FillProperty(buf: array<byte>, p: nat, nameoff: u32, val: seq<byte>, ghost b: seq<byte>)
    returns (ghost t: Token)
    requires |val| <= MAX_LEN && Grabbed(b, buf[..], PropSize(|val|)) && p == TokensEnd(b)
    modifies buf
    ensures Grabbed(b, buf[..], PropSize(|val|))
    ensures t.Prop? && t.nameoff == nameoff && t.val == val && ValidToken(t)
    ensures p + PropSize(|val|) <= buf.Length && Bytes(t) == buf[..][p..p + PropSize(|val|)]
  {
    hide Get32, Patch, Grabbed, PropSize, Field, ValidToken, Bytes;
    GrabbedRoom(b, buf[..], PropSize(|val|));
    Store(buf, p, Enc32(FDT_PROP), b, PropSize(|val|));
    ghost var c1 := buf[..];
    Store(buf, p + 8, Enc32(nameoff), b, PropSize(|val|));
    ghost var c2 := buf[..];
    Store(buf, p + 4, Enc32(|val|), b, PropSize(|val|));
    ghost var c3 := buf[..];
    HeadStored(c1, c2, c3, p, nameoff, |val|);
    Store(buf, p + 12, val, b, PropSize(|val|));
    HeadKept(c3, p, nameoff, |val|, p + 12, val);
    PropMadeAt(buf[..], p, nameoff, val);
    t := Prop(nameoff, val, buf[..][p + 12 + |val|..p + PropSize(|val|)]);
  }

  lemma HeadStored(c1: seq<byte>, c2: seq<byte>, c3: seq<byte>, p: nat, nameoff: u32, len: u32)
    requires p + PropSize(len) <= |c1| && c1[p..p + 4] == Enc32(FDT_PROP)
    requires c2 == Patch(c1, p + 8, Enc32(nameoff)) && c3 == Patch(c2, p + 4, Enc32(len))
    ensures HasHead(c3, p, nameoff, len)
  {
    hide Patch, Enc32, PropSize;
    assert Get32(c1, p) == FDT_PROP;
    hide Get32;
    PatchWord(c1, p + 8, nameoff);
    PatchWords(c1, p + 8, Enc32(nameoff), p);
    PatchWord(c2, p + 4, len);
    PatchWords(c2, p + 4, Enc32(len), p);
    PatchWords(c2, p + 4, Enc32(len), p + 8);
  }

  /** fdt_property: when it fails for want of space, the name has been added if it alone fits. */
  method Property(buf: array<byte>, name: seq<byte>, val: seq<byte>, ghost w: Work, ghost total: nat)
    returns (err: int, ghost pad: seq<byte>)
    requires Writing(buf[..], w, total) && w.root.None?
    requires w.frames != [] || TokensEnd(buf[..]) + PropSize(|val|) + |WithFront(w.strings, name)| > total
    requires NUL !in name && |val| <= MAX_LEN && |w.strings| + |name| + 1 <= total
    modifies buf
    ensures err == if TokensEnd(old(buf[..])) + PropSize(|val|) + |WithFront(w.strings, name)| <= total then 0
              else ERR_NOSPACE
    ensures err == 0 ==>
              Writing(buf[..], PropPut(w.(strings := WithFront(w.strings, name)), U32(FrontOff(w.strings, name)), val,
                pad), total)
    ensures err != 0 ==>
              if TokensEnd(old(buf[..])) + |WithFront(w.strings, name)| <= total
              then Writing(buf[..], w.(strings := WithFront(w.strings, name)), total) else buf[..] == old(buf[..])
    ensures err == 0 ==> TokensEnd(buf[..]) == TokensEnd(old(buf[..])) + PropSize(|val|)
    ensures RestKept(old(buf[..]), buf[..], total)
  {
    hide Get32, Encode, NamesFine, EncEntries, ValidTokens, Patch, FindString, Grabbed, PropSize, Field, FrontOff,
      WithFront, Bytes, ValidToken, Writing, WritingHeader, PropPut, HasEndName;
    ghost var a := buf[..];
    HeaderFacts(a, w, total);
    PropSizeIs(|val|);
    pad := [];
    err := SwCheckHeader(buf);
    var nameoff := FindAddFront(buf, name, w, total);
    FrontNamed(w.strings, name);
    if nameoff == 0 {
      return ERR_NOSPACE, pad;
    }
    ghost var v := w.(strings := WithFront(w.strings, name));
    ghost var b := buf[..];
    HeaderFacts(b, v, total);
    var p := GrabSpace(buf, 12 + Align4(|val|), v, total);
    if p.None? {
      return ERR_NOSPACE, pad;
    }
    ghost var t := FillProperty(buf, p.value, U32(nameoff), val, b);
    pad := t.pad;
    PropTokens(v, U32(nameoff), val, pad);
    PropMeans(v, U32(nameoff), name, val, pad);
    TokenWritten(b, buf[..], v, PropPut(v, U32(nameoff), val, pad), total, t);
    HeaderGrabbed(b, buf[..], PropSize(|val|));
    GrabbedRest(b, buf[..], PropSize(|val|), total);
    RestTrans(a, b, total, buf[..], total, total);
    err := 0;
  }

  /** A property before the first node whose value does not fit leaves its name behind, and the
      reservation entry that follows is let through although it runs into it. */
  method StringsOverrun(buf: array<byte>, bufsize: nat, name: seq<byte>, val: seq<byte>, r: Reserve) returns (err: int)
    requires RSV_OFF + 16 <= bufsize <= buf.Length <= MAX_INT && NUL !in name && |val| <= MAX_LEN
    requires RSV_OFF + |name| + 1 <= bufsize < RSV_OFF + 16 + |name| + 1
    requires bufsize < RSV_OFF + PropSize(|val|) + |name| + 1
    modifies buf
    ensures err == 0 && Field(buf[..], OFF_STRUCT) + Field(buf[..], SIZE_STRINGS) > bufsize
    ensures forall strings | |strings| == |name| + 1 ::
              !Writing(buf[..], EMPTY_WORK.(rsv := [r], strings := strings), bufsize)
  {
    hide Get32, Writing, Field, PropSize, FindString;
    err := Create(buf, bufsize);
    EmptyStart(buf[..], bufsize, EMPTY_WORK.strings);
    EmptyStart(buf[..], bufsize, name + [NUL]);
    NothingFound(name);
    ghost var pad;
    err, pad := Property(buf, name, val, EMPTY_WORK, bufsize);
    ghost var w := EMPTY_WORK.(strings := name + [NUL]);
    err := AddReserveEntry(buf, r, w, bufsize);
    forall strings: seq<byte> | |strings| == |name| + 1
      ensures !Writing(buf[..], EMPTY_WORK.(rsv := [r], strings := strings), bufsize)
    {
      NoRoomBeside(buf[..], EMPTY_WORK.(rsv := [r], strings := strings), bufsize);
    }
  }

  lemma EmptyStart(b: seq<byte>, total: nat, strings: seq<byte>)
    requires Writing(b, EMPTY_WORK, total)
    ensures TokensEnd(b) == RSV_OFF && WorkTokens(EMPTY_WORK.(strings := strings)) == []
  {
    hide Field, EncEntries;
    EmptyBytes();
  }

  lemma NothingFound(s: seq<byte>)
    ensures WithFront([], s) == s + [NUL]
  {
    assert s + [NUL] + [] == s + [NUL];
  }

  lemma PropSizeIs(len: nat)
    ensures PropSize(len) == 12 + Align4(len) <= len + 15
  {
  }
}
