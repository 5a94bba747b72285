/** fdt_finish, and whole runs of the sequential writer. */
module FdtFinish {
  import opened BigEndian
  import opened Word32
  import opened Options
  import opened FdtTokens
  import opened FdtTree
  import opened FdtBlob
  import opened FdtRead
  import opened FdtProps
  import opened FdtSplice
  import opened FdtStrings
  import opened FdtRw
  import opened FdtWip
  import opened FdtWork
  import opened FdtSw

  // ---- the tokens while their name offsets are being corrected ----

  function FixToken(t: Token, n: nat): Token {
    match t
    case Prop(off, val, pad) => Prop(U32(off + n), val, pad)
    case _ => t
  }

  /** The first `i` tokens corrected. */
  function Fixed(ts: seq<Token>, i: nat, n: nat): seq<Token> {
    seq(|ts|, k requires 0 <= k < |ts| => if k < i then FixToken(ts[k], n) else ts[k])
  }

  function FixAll(ts: seq<Token>, n: nat): seq<Token> { Fixed(ts, |ts|, n) }

  lemma FixAppend(a: seq<Token>, b: seq<Token>, n: nat)
    ensures FixAll(a + b, n) == FixAll(a, n) + FixAll(b, n)
  {
  }

  /** Correcting the tokens is relocating the tree. */
  lemma {:induction false} FixFlat(it: Item, n: nat)
    ensures FixAll(Flat(it), n) == Flat(Relocate(it, n))
    decreases it, 1
  {
    match it
    case INop =>
    case IProp(off, val, pad) =>
    case INode(name, pad, items) =>
      FixFlatAll(items, n);
      FixAppend([Begin(name, pad)], FlatAll(items), n);
      FixAppend([Begin(name, pad)] + FlatAll(items), [EndNode], n);
  }

  lemma {:induction false} FixFlatAll(items: seq<Item>, n: nat)
    ensures FixAll(FlatAll(items), n) == FlatAll(RelocateAll(items, n))
    decreases items, 0
  {
    if items != [] {
      FixFlat(items[0], n);
      FixFlatAll(items[1..], n);
      FixAppend(Flat(items[0]), FlatAll(items[1..]), n);
      hide Flat, FixAll;
      assert RelocateAll(items, n)[1..] == RelocateAll(items[1..], n);
    }
  }

  // ---- patching one name offset ----

  lemma PatchMiddle(a: seq<byte>, x: seq<byte>, c: seq<byte>, o: nat, data: seq<byte>)
    requires o + |data| <= |x|
    ensures Patch(a + x + c, |a| + o, data) == a + Patch(x, o, data) + c
  {
    var s := a + x + c;
    assert s[..|a| + o] == a + x[..o];
    assert s[|a| + o + |data|..] == x[o + |data|..] + c;
  }

  lemma PatchInside(b: seq<byte>, i: nat, j: nat, o: nat, data: seq<byte>)
    requires i <= j <= |b| && o + |data| <= j - i
    ensures Patch(b, i + o, data)[i..j] == Patch(b[i..j], o, data)
  {
    PatchMiddle(b[..i], b[i..j], b[j..], o, data);
    assert b == b[..i] + b[i..j] + b[j..];
  }

  lemma PropPatched(t: Token, v: u32)
    requires ValidToken(t) && t.Prop?
    ensures |Bytes(t)| >= 12 && ValidToken(t.(nameoff := v)) && |Bytes(t.(nameoff := v))| == |Bytes(t)|
    ensures Patch(Bytes(t), 8, Enc32(v)) == Bytes(t.(nameoff := v))
    ensures Get32(Bytes(t), 8) == t.nameoff
  {
    hide Enc32, Patch;
    var a, x, c := Enc32(FDT_PROP) + Enc32(|t.val|), Enc32(t.nameoff), t.val + t.pad;
    PropBytes(t);
    PropBytes(t.(nameoff := v));
    hide Bytes;
    PatchMiddle(a, x, c, 0, Enc32(v));
    PatchAll(x, Enc32(v));
    assert (a + x + c)[8..12] == x;
  }

  lemma PropBytes(t: Token)
    requires ValidToken(t) && t.Prop?
    ensures Bytes(t) == Enc32(FDT_PROP) + Enc32(|t.val|) + Enc32(t.nameoff) + (t.val + t.pad)
  {
    hide Enc32;
  }

  lemma PatchAll(x: seq<byte>, data: seq<byte>)
    requires |x| == |data|
    ensures Patch(x, 0, data) == data
  {
  }

  /** Storing a new name offset into property token `i` changes that token alone. */
  lemma TokenPatched(ts: seq<Token>, i: nat, v: u32)
    requires ValidTokens(ts) && i < |ts| && ts[i].Prop?
    ensures var us := ts[i := ts[i].(nameoff := v)];
            && Off(ts, i) + 12 <= |Encode(ts)| && Get32(Encode(ts), Off(ts, i) + 8) == ts[i].nameoff
            && ValidTokens(us) && Encode(us) == Patch(Encode(ts), Off(ts, i) + 8, Enc32(v))
            && Off(us, i + 1) == Off(ts, i + 1)
  {
    hide Enc32, Patch, Bytes, Encode, Get32;
    var us := ts[i := ts[i].(nameoff := v)];
    PropPatched(ts[i], v);
    SplitToken(ts, i);
    SplitToken(us, i);
    assert us[..i] == ts[..i] && us[i + 1..] == ts[i + 1..];
    var a, x, c := Encode(ts[..i]), Bytes(ts[i]), Encode(ts[i + 1..]);
    PatchMiddle(a, x, c, 8, Enc32(v));
    MiddleWord(a, x, c, 8);
  }

  lemma MiddleWord(a: seq<byte>, x: seq<byte>, c: seq<byte>, o: nat)
    requires o + 4 <= |x|
    ensures Get32(a + x + c, |a| + o) == Get32(x, o)
  {
    assert (a + x + c)[|a| + o..|a| + o + 4] == x[o..o + 4];
  }

  // ---- the blob once its strings are moved down ----

  predicate LaidHeader(b: seq<byte>, w: Work) {
    && HEADER_SIZE <= |b| <= MAX_INT
    && Field(b, VERSION) == 17 && Field(b, LAST_COMP) == 16
    && Field(b, OFF_RSVMAP) == RSV_OFF && Field(b, OFF_STRUCT) == RSV_OFF + 16 * |w.rsv|
    && Field(b, OFF_STRINGS) == TokensEnd(b) && Field(b, SIZE_STRINGS) == |w.strings|
    && DataEnd(b) <= |b| && Field(b, BOOT_CPUID) == 0
  }

  ghost predicate Laid(b: seq<byte>, w: Work, ts: seq<Token>) {
    && LaidHeader(b, w)
    && ValidTokens(ts) && Field(b, SIZE_STRUCT) == |Encode(ts)|
    && b[RSV_OFF..Field(b, OFF_STRUCT)] == EncEntries(w.rsv)
    && b[Field(b, OFF_STRUCT)..TokensEnd(b)] == Encode(ts)
    && b[TokensEnd(b)..DataEnd(b)] == w.strings
  }

  lemma LaidReads(b: seq<byte>, w: Work, ts: seq<Token>)
    requires Laid(b, w, ts) && ts != [] && ts[|ts| - 1] == End
    ensures Reads(b, ts)
  {
    hide Field, EncEntries, Encode;
  }

  lemma StringsMovedDown(b: seq<byte>, c: seq<byte>, e: seq<byte>, w: Work, ts: seq<Token>, total: nat)
    requires Wrote(b, w, ts, total)
    requires c == Patch(b, TokensEnd(b), w.strings)
    requires |e| == |c| && HeaderKept(c, e, {OFF_STRINGS}) && Field(e, OFF_STRINGS) == TokensEnd(b)
    requires e[HEADER_SIZE..] == c[HEADER_SIZE..]
    ensures Laid(e, w, ts)
  {
    hide Field, Encode, EncEntries, Patch, HeaderKept;
    var off, top, n := Field(b, OFF_STRUCT), TokensEnd(b), |w.strings|;
    PatchKeepsHeader(b, top, w.strings);
    MovedFields(b, c, e);
    PatchSlices(b, top, w.strings, RSV_OFF, off);
    PatchSlices(b, top, w.strings, off, top);
    PatchData(b, top, w.strings);
    PastHeader(c, e, RSV_OFF, off);
    PastHeader(c, e, off, top);
    PastHeader(c, e, top, top + n);
  }

  lemma MovedFields(b: seq<byte>, c: seq<byte>, e: seq<byte>)
    requires HeaderKept(b, c, {}) && HeaderKept(c, e, {OFF_STRINGS}) && |b| == |c| == |e|
    ensures SetupKept(b, e) && Field(e, SIZE_STRUCT) == Field(b, SIZE_STRUCT)
    ensures Field(e, OFF_STRUCT) == Field(b, OFF_STRUCT) && Field(e, SIZE_STRINGS) == Field(b, SIZE_STRINGS)
  {
    hide Field;
    KeptTrans(b, c, {}, e, {OFF_STRINGS});
  }

  lemma LaidPatched(b: seq<byte>, w: Work, ts: seq<Token>, i: nat, v: u32)
    requires Laid(b, w, ts) && i < |ts| && ts[i].Prop?
    ensures ValidToken(ts[i]) && Off(ts, i) + 12 <= Field(b, SIZE_STRUCT)
    ensures var us, o := ts[i := ts[i].(nameoff := v)], Field(b, OFF_STRUCT) + Off(ts, i) + 8;
            && o + 4 <= |b| && Get32(b, o) == ts[i].nameoff
            && Laid(Patch(b, o, Enc32(v)), w, us) && Off(us, i + 1) == Off(ts, i + 1)
  {
    hide Field, Encode, EncEntries, Patch, HeaderKept, Enc32, Off, Get32, ValidToken;
    var us, off, top, x := ts[i := ts[i].(nameoff := v)], Field(b, OFF_STRUCT), TokensEnd(b), Off(ts, i) + 8;
    TokenPatched(ts, i, v);
    var c := Patch(b, off + x, Enc32(v));
    PatchKeepsHeader(b, off + x, Enc32(v));
    PatchedFields(b, c);
    PatchSlices(b, off + x, Enc32(v), RSV_OFF, off);
    PatchSlices(b, off + x, Enc32(v), top, DataEnd(b));
    PatchInside(b, off, top, x, Enc32(v));
    SubWord(b, off, top, x);
  }

  lemma PatchedFields(b: seq<byte>, c: seq<byte>)
    requires HeaderKept(b, c, {}) && |b| == |c|
    ensures SetupKept(b, c) && Field(c, SIZE_STRUCT) == Field(b, SIZE_STRUCT)
    ensures Field(c, OFF_STRINGS) == Field(b, OFF_STRINGS)
    ensures Field(c, OFF_STRUCT) == Field(b, OFF_STRUCT) && Field(c, SIZE_STRINGS) == Field(b, SIZE_STRINGS)
  {
    hide Field;
  }

  lemma FixedStep(ts: seq<Token>, i: nat, n: nat)
    requires i < |ts|
    ensures Fixed(ts, 0, n) == ts && Fixed(ts, i, n)[i] == ts[i]
    ensures Fixed(ts, i + 1, n) == Fixed(ts, i, n)[i := FixToken(ts[i], n)]
  {
  }

  /** The loop of fdt_finish: every name offset is corrected by the size of the string table. */
  method FixNames(buf: array<byte>, ghost w: Work, ghost ts: seq<Token>) returns (next: int)
    requires Laid(buf[..], w, ts) && ts != [] && forall k | 0 <= k < |ts| :: ts[k] == End <==> k == |ts| - 1
    modifies buf
    ensures Laid(buf[..], w, FixAll(ts, |w.strings|)) && next >= 0
    ensures Field(buf[..], OFF_STRINGS) == Field(old(buf[..]), OFF_STRINGS)
    ensures RestKept(old(buf[..]), buf[..], DataEnd(old(buf[..])))
  {
    hide Field, Laid, Encode, Off, Patch, Enc32, Fixed, Reads, Get32, HeaderKept, ValidTokens, RestKept;
    ghost var a := buf[..];
    RestSelf(a, w, ts);
    ghost var n := |w.strings|;
    var offset := 0;
    ghost var i, us := 0, ts;
    FixedStep(ts, 0, n);
    LaidFacts(buf[..], w, us);
    NoOffset(us);
    FixedEnds(ts, 0, n);
    LaidReads(buf[..], w, us);
    var tag: u32;
    tag, next := TokenTag(buf, offset, us, i);
    while tag != FDT_END
      invariant i < |ts| == |us| && us == Fixed(ts, i, n) && Laid(buf[..], w, us) && ValidTokens(us)
      invariant offset == Off(us, i)
      invariant tag == Tag(us[i]) && next == Off(us, i + 1)
      invariant LaidHeader(buf[..], w) && Field(buf[..], OFF_STRINGS) == Field(old(buf[..]), OFF_STRINGS)
      invariant RestKept(a, buf[..], DataEnd(a)) && DataEnd(buf[..]) == DataEnd(a)
      decreases |ts| - i
    {
      FixedStep(ts, i, n);
      if tag == FDT_PROP {
        var base: int := ReadField(buf, OFF_STRUCT);
        var size: int := ReadField(buf, SIZE_STRINGS);
        LaidPatched(buf[..], w, us, i, U32(us[i].nameoff + n));
        var nameoff: int := Read32(buf, base + offset + 8);
        PatchKeepsHeader(buf[..], base + offset + 8, Enc32(U32(us[i].nameoff + n)));
        PatchedFields(buf[..], Patch(buf[..], base + offset + 8, Enc32(U32(us[i].nameoff + n))));
        RestPatched(a, buf[..], base + offset + 8, Enc32(U32(us[i].nameoff + n)), DataEnd(a));
        Write32(buf, base + offset + 8, U32(nameoff + size));
        us := us[i := us[i].(nameoff := U32(us[i].nameoff + n))];
      }
      offset := next;
      i := i + 1;
      FixedEnds(ts, i, n);
      LaidFacts(buf[..], w, us);
      LaidReads(buf[..], w, us);
      tag, next := TokenTag(buf, offset, us, i);
    }
    FixedEnds(ts, i, n);
    FixedLast(ts, n);
  }

  lemma RestSelf(a: seq<byte>, w: Work, ts: seq<Token>)
    requires Laid(a, w, ts)
    ensures RestKept(a, a, DataEnd(a)) && HEADER_SIZE <= |a|
  {
    hide Field;
  }

  lemma RestPatched(a: seq<byte>, b: seq<byte>, off: nat, data: seq<byte>, end: nat)
    requires RestKept(a, b, end) && off + |data| <= end
    ensures RestKept(a, Patch(b, off, data), end)
  {
    hide Patch;
    PatchSlices(b, off, data, end, |b|);
  }

  lemma NoOffset(ts: seq<Token>)
    requires ValidTokens(ts)
    ensures Off(ts, 0) == 0
  {
    assert ts[..0] == [];
  }

  lemma LaidFacts(b: seq<byte>, w: Work, ts: seq<Token>)
    requires Laid(b, w, ts)
    ensures LaidHeader(b, w) && ValidTokens(ts)
  {
  }

  lemma FixedEnds(ts: seq<Token>, i: nat, n: nat)
    requires ts != [] && forall k | 0 <= k < |ts| :: ts[k] == End <==> k == |ts| - 1
    ensures var us := Fixed(ts, i, n); |us| == |ts| && us[|us| - 1] == End
    ensures forall k | 0 <= k < |ts| :: Tag(Fixed(ts, i, n)[k]) == FDT_END <==> k == |ts| - 1
  {
  }

  lemma FixedLast(ts: seq<Token>, n: nat)
    requires ts != [] && ts[|ts| - 1] == End
    ensures Fixed(ts, |ts| - 1, n) == FixAll(ts, n)
  {
  }

  // ---- the finished blob ----

  lemma {:induction false} EntriesTerminated(rs: seq<Reserve>)
    ensures ReserveBytes(rs, 0) == EncEntries(rs + [Reserve(0, 0)])
    decreases |rs|
  {
    hide EncReserve;
    var z := Reserve(0, 0);
    if rs == [] {
      assert rs + [z] == [z] && [z][1..] == [];
    } else {
      assert (rs + [z])[1..] == rs[1..] + [z];
      EntriesTerminated(rs[1..]);
    }
  }

  /** The device tree in the finished blob. */
  function Finished(w: Work, rs: seq<Reserve>): DT
    requires w.root.Some?
  {
    DT(rs, 0, Relocate(w.root.value, |w.strings|), 0, w.strings)
  }

  lemma FinishedTokens(w: Work, rs: seq<Reserve>)
    requires w.root.Some?
    ensures StructTokens(Finished(w, rs)) == FixAll(WorkTokens(w) + [End], |w.strings|)
  {
    FixFlat(w.root.value, |w.strings|);
    FixAppend(WorkTokens(w), [End], |w.strings|);
    assert FixAll([End], |w.strings|) == [End] == Tail(0);
  }

  /** The finished blob means what was written, names included. */
  lemma FinishedMeans(w: Work, rs: seq<Reserve>)
    requires NamesFine(w) && w.root.Some? && |w.strings| <= MAX_INT
    ensures Meaning(w).root == Some(Decode(Finished(w, rs).root, w.strings))
    ensures NameOk(Finished(w, rs).root, w.strings) && Finished(w, rs).root.INode?
  {
    RelocateMeans(w.root.value, w.strings);
  }

  lemma FinishedHolds(b: seq<byte>, w: Work, rs: seq<Reserve>, us: seq<Token>)
    requires Laid(b, w, us) && NamesFine(w) && w.root.Some? && us == StructTokens(Finished(w, rs))
    requires w.rsv == rs + [Reserve(0, 0)] && forall i | 0 <= i < |rs| :: rs[i].size != 0
    requires Field(b, MAGIC) == FDT_MAGIC && Field(b, TOTALSIZE) == DataEnd(b)
    ensures Holds(b, Finished(w, rs))
  {
    hide Field, EncEntries, Encode, StructTokens, NamesFine, Meaning, NameOk, EncReserve, ReserveBytes;
    FinishedMeans(w, rs);
    EntriesTerminated(rs);
  }

  /** fdt_finish: the blob then holds the tree that was written. */
  method Finish(buf: array<byte>, ghost w: Work, ghost total: nat, ghost rs: seq<Reserve>) returns (err: int)
    requires Writing(buf[..], w, total) && w.root.Some?
    requires w.rsv == rs + [Reserve(0, 0)] && forall i | 0 <= i < |rs| :: rs[i].size != 0
    modifies buf
    ensures err == if TokensEnd(old(buf[..])) + 4 + |w.strings| <= total then 0 else ERR_NOSPACE
    ensures err != 0 ==> buf[..] == old(buf[..])
    ensures err == 0 ==> Holds(buf[..], Finished(w, rs))
    ensures err == 0 ==> Meaning(w).root == Some(Decode(Finished(w, rs).root, w.strings))
    ensures err == 0 ==> Field(buf[..], TOTALSIZE) == TokensEnd(old(buf[..])) + 4 + |w.strings|
    ensures err == 0 ==> Field(buf[..], BOOT_CPUID) == 0 && Field(buf[..], LAST_COMP) == 16
    ensures RestKept(old(buf[..]), buf[..], total)
  {
    hide Get32, Encode, WorkTokens, NamesFine, EncEntries, Patch, Enc32, Field, Grabbed, Writing, WritingHeader,
      Wrote, Laid, HeaderKept, Finished, Meaning, FixAll;
    ghost var b := buf[..];
    StringsPlace(b, w, total);
    HeaderFacts(b, w, total);
    err := SwCheckHeader(buf);
    var p := GrabSpace(buf, 4, w, total);
    if p.None? {
      return ERR_NOSPACE;
    }
    Store(buf, p.value, Enc32(FDT_END), b, 4);
    EndWritten(b, buf[..], w, total);
    ghost var ts := WorkTokens(w) + [End];
    ghost var c := buf[..];
    var top := MoveStrings(buf, w, ts, total);
    ghost var d := buf[..];
    LaidFacts(d, w, ts);
    OnlyEnd(w);
    var next := FixNames(buf, w, ts);
    ghost var e := buf[..];
    LaidFacts(e, w, FixAll(ts, |w.strings|));
    var n := ReadField(buf, SIZE_STRINGS);
    SetField(buf, TOTALSIZE, top + n);
    ghost var f := buf[..];
    SetField(buf, MAGIC, FDT_MAGIC);
    LaidKept(e, f, buf[..], w, FixAll(ts, |w.strings|));
    GrabbedRest(b, c, 4, total);
    PastHeader(e, buf[..], total, |e|);
    FinishRest(b, c, d, e, buf[..], DataEnd(d), total);
    FinishedTokens(w, rs);
    FinishedMeans(w, rs);
    FinishedHolds(buf[..], w, rs, FixAll(ts, |w.strings|));
    err := 0;
  }

  lemma FinishRest(b: seq<byte>, c: seq<byte>, d: seq<byte>, e: seq<byte>, f: seq<byte>, end: nat, total: nat)
    requires RestKept(b, c, total) && RestKept(c, d, total) && RestKept(d, e, end) && end <= total
    requires |f| == |e| && f[total..|e|] == e[total..|e|]
    ensures RestKept(b, f, total)
  {
    hide RestKept;
    RestSize(b, c, total);
    RestTrans(b, c, total, d, total, total);
    RestTrans(b, d, total, e, end, total);
    RestSize(b, e, total);
  }

  lemma RestSize(a: seq<byte>, b: seq<byte>, end: nat)
    requires RestKept(a, b, end)
    ensures end <= |a| == |b| && a[end..|a|] == b[end..|b|]
    ensures forall f | |f| == |b| && f[end..|f|] == b[end..|b|] :: RestKept(a, f, end)
  {
  }

  lemma EndWritten(b: seq<byte>, c: seq<byte>, w: Work, total: nat)
    requires Writing(b, w, total) && Grabbed(b, c, 4) && TokensEnd(b) + 4 + |w.strings| <= total
    requires TokensEnd(b) + 4 <= |c| && c[TokensEnd(b)..TokensEnd(b) + 4] == Enc32(FDT_END)
    ensures Wrote(c, w, WorkTokens(w) + [End], total) && TokensEnd(c) == TokensEnd(b) + 4
  {
    hide Wrote, Grabbed, Field, WorkTokens, NamesFine, Enc32;
    EndBytes();
    TokenAppended(b, c, w, WorkTokens(w), total, End);
    HeaderGrabbed(b, c, 4);
  }

  lemma OnlyEnd(w: Work)
    requires w.root.Some?
    ensures var ts := WorkTokens(w) + [End]; forall k | 0 <= k < |ts| :: ts[k] == End <==> k == |ts| - 1
  {
    NoEnd(w.root.value);
  }

  lemma {:induction false} NoEnd(it: Item)
    ensures End !in Flat(it)
    decreases it, 1
  {
    if it.INode? {
      NoEndAll(it.items);
    }
  }

  lemma {:induction false} NoEndAll(items: seq<Item>)
    ensures End !in FlatAll(items)
    decreases items, 0
  {
    if items != [] {
      NoEnd(items[0]);
      NoEndAll(items[1..]);
    }
  }

  /** fdt_finish moves the strings down to the end of the tokens. */
  method MoveStrings(buf: array<byte>, ghost w: Work, ghost ts: seq<Token>, ghost total: nat) returns (top: nat)
    requires Wrote(buf[..], w, ts, total)
    modifies buf
    ensures Laid(buf[..], w, ts) && top == TokensEnd(old(buf[..])) == Field(buf[..], OFF_STRINGS)
    ensures RestKept(old(buf[..]), buf[..], total)
  {
    hide Get32, Encode, EncEntries, Patch, HeaderKept;
    ghost var b := buf[..];
    var total: int := ReadField(buf, TOTALSIZE);
    var n: int := ReadField(buf, SIZE_STRINGS);
    var off: int := ReadField(buf, OFF_STRUCT);
    var size: int := ReadField(buf, SIZE_STRUCT);
    top := off + size;
    assert buf[total - n..total - n + n] == buf[..][total - n..total] == w.strings;
    MemMove(buf, top, total - n, n);
    ghost var c := buf[..];
    SetField(buf, OFF_STRINGS, top);
    StringsMovedDown(b, c, buf[..], w, ts, total);
    PatchSlices(b, top, w.strings, total, |b|);
    PastHeader(c, buf[..], total, |b|);
  }

  lemma LaidKept(b: seq<byte>, c: seq<byte>, e: seq<byte>, w: Work, ts: seq<Token>)
    requires Laid(b, w, ts) && |b| == |c| == |e|
    requires HeaderKept(b, c, {TOTALSIZE}) && HeaderKept(c, e, {MAGIC})
    requires Field(c, TOTALSIZE) == Field(b, OFF_STRINGS) + Field(b, SIZE_STRINGS) && Field(e, MAGIC) == FDT_MAGIC
    requires b[HEADER_SIZE..] == c[HEADER_SIZE..] && c[HEADER_SIZE..] == e[HEADER_SIZE..]
    ensures Laid(e, w, ts) && Field(e, TOTALSIZE) == DataEnd(e) == DataEnd(b) && Field(e, MAGIC) == FDT_MAGIC
    ensures Field(e, BOOT_CPUID) == 0 && Field(e, LAST_COMP) == 16
  {
    hide Field, Encode, EncEntries;
    FinalFields(b, c, e);
    PastHeader(b, e, RSV_OFF, Field(b, OFF_STRUCT));
    PastHeader(b, e, Field(b, OFF_STRUCT), TokensEnd(b));
    PastHeader(b, e, TokensEnd(b), DataEnd(b));
  }

  lemma FinalFields(b: seq<byte>, c: seq<byte>, e: seq<byte>)
    requires HeaderKept(b, c, {TOTALSIZE}) && HeaderKept(c, e, {MAGIC})
    ensures Field(e, VERSION) == Field(b, VERSION) && Field(e, LAST_COMP) == Field(b, LAST_COMP)
    ensures Field(e, OFF_RSVMAP) == Field(b, OFF_RSVMAP) && Field(e, OFF_STRUCT) == Field(b, OFF_STRUCT)
    ensures Field(e, SIZE_STRUCT) == Field(b, SIZE_STRUCT) && Field(e, SIZE_STRINGS) == Field(b, SIZE_STRINGS)
    ensures Field(e, OFF_STRINGS) == Field(b, OFF_STRINGS) && Field(e, TOTALSIZE) == Field(c, TOTALSIZE)
    ensures Field(e, BOOT_CPUID) == Field(b, BOOT_CPUID)
  {
    hide Field;
  }

  // ---- whole runs ----

  /** Calls a client may make: names without NUL. */
  predicate Proper(calls: seq<Call>) {
    forall i | 0 <= i < |calls| ::
      match calls[i]
      case OpenNode(name) => NUL !in name && |name| <= MAX_LEN
      case PutProp(name, val) => NUL !in name && |val| <= MAX_LEN
      case CloseNode => true
  }

  /** The string table after a call, and the bytes of the token it writes. */
  function StringsAfter(strings: seq<byte>, c: Call): seq<byte> {
    if c.PutProp? then WithFront(strings, c.name) else strings
  }

  function CallSize(c: Call): nat {
    match c
    case OpenNode(name) => 4 + Align4(|name| + 1)
    case PutProp(_, val) => PropSize(|val|)
    case CloseNode => 4
  }

  /** Bytes a blob takes: tokens that end at `top` so far, the calls to come, END and the strings. */
  function Needed(strings: seq<byte>, calls: seq<Call>, top: nat): nat
    decreases |calls|
  {
    if calls == [] then top + 4 + |strings|
    else Needed(StringsAfter(strings, calls[0]), calls[1..], top + CallSize(calls[0]))
  }

  lemma {:induction false} NeededGrows(strings: seq<byte>, calls: seq<Call>, top: nat)
    ensures Needed(strings, calls, top) >= top + 4 + |strings|
    decreases |calls|
  {
    if calls != [] {
      hide FindString;
      NeededGrows(StringsAfter(strings, calls[0]), calls[1..], top + CallSize(calls[0]));
    }
  }

  /** Whether a property name is short enough for the room check to tell whether it fits: no
      longer than what the strings leave of the whole buffer, as any name below 48 bytes is. */
  predicate NameFits(c: Call, strings: seq<byte>, total: nat) {
    c.PutProp? ==> |c.name| < RSV_OFF || |strings| + |c.name| + 1 <= total
  }

  predicate NamesFit(calls: seq<Call>, strings: seq<byte>, total: nat)
    decreases |calls|
  {
    calls == [] || (NameFits(calls[0], strings, total) && NamesFit(calls[1..], StringsAfter(strings, calls[0]), total))
  }

  /** The frames open in the work are the nodes open in the document. */
  lemma SameShape(w: Work)
    ensures Meaning(w).root.None? <==> w.root.None?
    ensures Meaning(w).open == [] <==> w.frames == []
  {
    hide EndDecode, DraftOf;
    assert |Meaning(w).open| == |w.frames|;
  }

  /** One call on the writer, as a client makes it. */
  method Perform(buf: array<byte>, c: Call, ghost w: Work, ghost total: nat) returns (err: int, ghost v: Work)
    requires Writing(buf[..], w, total) && Proper([c]) && NameFits(c, w.strings, total) && Apply(Meaning(w), c).Some?
    modifies buf
    ensures err == if TokensEnd(old(buf[..])) + CallSize(c) + |StringsAfter(w.strings, c)| <= total then 0
              else ERR_NOSPACE
    ensures err == 0 ==> Writing(buf[..], v, total) && Apply(Meaning(w), c) == Some(Meaning(v)) && v.rsv == w.rsv
    ensures err == 0 ==>
              v.strings == StringsAfter(w.strings, c) && TokensEnd(buf[..]) == TokensEnd(old(buf[..])) + CallSize(c)
    ensures RestKept(old(buf[..]), buf[..], total)
  {
    hide Get32, Writing, Meaning, EndNamed, HasEndName, PropPut, Opened, Closed, FrontOff, Align4, PropSize;
    assert [c][0] == c;
    SameShape(w);
    HeaderFacts(buf[..], w, total);
    v := w;
    match c
    case OpenNode(name) =>
      ghost var pad;
      err, pad := BeginNode(buf, name, w, total);
      v := Opened(w, name, pad);
      OpenedMeans(w, name, pad);
      SidesKept(w, name, pad);
    case PutProp(name, val) =>
      ghost var pad;
      NameRoom(buf[..], w, total, name);
      err, pad := Property(buf, name, val, w, total);
      ghost var u := w.(strings := WithFront(w.strings, name));
      v := PropPut(u, U32(FrontOff(w.strings, name)), val, pad);
      FrontMeans(w, name);
      PropMeans(u, U32(FrontOff(w.strings, name)), name, val, pad);
      PropTokens(u, U32(FrontOff(w.strings, name)), val, pad);
    case CloseNode =>
      err := EndOfNode(buf, w, total);
      v := Closed(w);
      ClosedMeans(w);
      ClosedSides(w);
  }

  lemma SidesKept(w: Work, name: seq<byte>, pad: seq<byte>)
    ensures Opened(w, name, pad).rsv == w.rsv && Opened(w, name, pad).strings == w.strings
  {
  }

  lemma ClosedSides(w: Work)
    requires w.frames != []
    ensures Closed(w).rsv == w.rsv && Closed(w).strings == w.strings
  {
  }

  lemma NameRoom(b: seq<byte>, w: Work, total: nat, name: seq<byte>)
    requires Writing(b, w, total) && (|name| < RSV_OFF || |w.strings| + |name| + 1 <= total)
    ensures |w.strings| + |name| + 1 <= total <= MAX_INT
  {
    hide Field, NamesFine, Encode, WorkTokens, EncEntries;
  }

  lemma FrontMeans(w: Work, name: seq<byte>)
    requires NamesFine(w) && NUL !in name && |w.strings| + |name| + 1 <= MAX_INT
    ensures var u := w.(strings := WithFront(w.strings, name));
            NamesFine(u) && Meaning(u) == Meaning(w) && EndNamed(u.strings, U32(FrontOff(w.strings, name)), name)
  {
    hide NamesFine, Meaning, EndNamed, FrontOff, FindString;
    FrontNamed(w.strings, name);
    if FindString(w.strings, name, 0).None? {
      WorkGrow(w, name + [NUL]);
    } else {
      assert w.(strings := w.strings) == w;
    }
  }

  /** Any well-nested sequence of calls: what is written is what the calls describe. */
  method PerformAll(buf: array<byte>, calls: seq<Call>, ghost w: Work, ghost total: nat)
    returns (err: int, ghost v: Work)
    requires Writing(buf[..], w, total) && Proper(calls) && NamesFit(calls, w.strings, total)
    requires Run(Meaning(w), calls).Some?
    modifies buf
    ensures err == 0 || err == ERR_NOSPACE
    ensures err != 0 ==> Needed(w.strings, calls, TokensEnd(old(buf[..]))) > total
    ensures err == 0 ==> TokensEnd(buf[..]) + 4 + |v.strings| == Needed(w.strings, calls, TokensEnd(old(buf[..])))
    ensures err == 0 ==> Writing(buf[..], v, total) && Run(Meaning(w), calls) == Some(Meaning(v)) && v.rsv == w.rsv
    ensures RestKept(old(buf[..]), buf[..], total)
  {
    hide Get32, Writing, Meaning, Apply, NameFits, StringsAfter, CallSize;
    HeaderFacts(buf[..], w, total);
    v := w;
    err := 0;
    var i := 0;
    while i < |calls|
      invariant i <= |calls| && Writing(buf[..], v, total) && v.rsv == w.rsv
      invariant Run(Meaning(v), calls[i..]) == Run(Meaning(w), calls)
      invariant NamesFit(calls[i..], v.strings, total) && RestKept(old(buf[..]), buf[..], total)
      invariant Needed(v.strings, calls[i..], TokensEnd(buf[..])) == Needed(w.strings, calls, TokensEnd(old(buf[..])))
    {
      assert calls[i..][1..] == calls[i + 1..] && calls[i..][0] == calls[i];
      NeededGrows(StringsAfter(v.strings, calls[i]), calls[i + 1..], TokensEnd(buf[..]) + CallSize(calls[i]));
      err, v := Perform(buf, calls[i], v, total);
      if err != 0 {
        return;
      }
      i := i + 1;
    }
  }

  /** The reservation entries, then their terminator. */
  method ReserveAll(buf: array<byte>, rs: seq<Reserve>, ghost total: nat) returns (err: int, ghost v: Work)
    requires Writing(buf[..], EMPTY_WORK, total)
    modifies buf
    ensures err == if RSV_OFF + 16 * (|rs| + 1) <= total then 0 else ERR_NOSPACE
    ensures err == 0 ==> v == EMPTY_WORK.(rsv := rs + [Reserve(0, 0)]) && Writing(buf[..], v, total)
    ensures err == 0 ==> TokensEnd(buf[..]) == RSV_OFF + 16 * (|rs| + 1)
    ensures RestKept(old(buf[..]), buf[..], total)
  {
    hide Get32, Writing;
    HeaderFacts(buf[..], EMPTY_WORK, total);
    v := EMPTY_WORK;
    err := 0;
    var i := 0;
    while i < |rs|
      invariant i <= |rs| && v == EMPTY_WORK.(rsv := rs[..i]) && Writing(buf[..], v, total)
      invariant RestKept(old(buf[..]), buf[..], total)
    {
      err := AddReserveEntry(buf, rs[i], v, total);
      if err != 0 {
        return;
      }
      assert rs[..i + 1] == rs[..i] + [rs[i]];
      v := v.(rsv := v.rsv + [rs[i]]);
      i := i + 1;
    }
    assert rs[..i] == rs;
    err := AddReserveEntry(buf, Reserve(0, 0), v, total);
    v := v.(rsv := v.rsv + [Reserve(0, 0)]);
    if err == 0 {
      NoTokensYet(buf[..], v, total);
    }
  }

  lemma NoTokensYet(b: seq<byte>, w: Work, total: nat)
    requires Writing(b, w, total) && w.frames == [] && w.root.None?
    ensures TokensEnd(b) == RSV_OFF + 16 * |w.rsv|
  {
    hide Field, NamesFine, EncEntries;
  }

  /** A whole run: create, reserve, any well-nested calls that finish one root, finish.
      It succeeds exactly when all of it fits, and the blob then holds exactly the tree the
      calls describe. */
  method WriteBlob(buf: array<byte>, bufsize: nat, rs: seq<Reserve>, calls: seq<Call>, ghost t: Tree)
    returns (err: int, ghost d: DT)
    requires RSV_OFF <= bufsize <= buf.Length <= MAX_INT && Proper(calls) && NamesFit(calls, [], bufsize)
    requires forall i | 0 <= i < |rs| :: rs[i].size != 0
    requires Run(Doc([], [], None), calls) == Some(Doc([], [], Some(t)))
    modifies buf
    ensures err == if Needed([], calls, RSV_OFF + 16 * (|rs| + 1)) <= bufsize then 0 else ERR_NOSPACE
    ensures err == 0 ==> Holds(buf[..], d) && d.rsv == rs && Decode(d.root, d.strings) == t
    ensures err == 0 ==> Field(buf[..], TOTALSIZE) == Needed([], calls, RSV_OFF + 16 * (|rs| + 1))
    ensures err == 0 ==> Field(buf[..], BOOT_CPUID) == 0 && Field(buf[..], LAST_COMP) == 16
    ensures RestKept(old(buf[..]), buf[..], bufsize)
  {
    hide Get32, Writing, Meaning, Holds, NamesFine;
    d := DT([], 0, INop, 0, []);
    NeededGrows([], calls, RSV_OFF + 16 * (|rs| + 1));
    err := Create(buf, bufsize);
    ghost var w;
    err, w := ReserveAll(buf, rs, bufsize);
    if err != 0 {
      return;
    }
    RunReserved(w.rsv, calls, t);
    err, w := PerformAll(buf, calls, w, bufsize);
    if err != 0 {
      return;
    }
    SameShape(w);
    err := Finish(buf, w, bufsize, rs);
    d := Finished(w, rs);
  }

  /** The reservations play no part in the calls. */
  lemma {:induction false} RunFrame(d: Doc, rsv: seq<Reserve>, calls: seq<Call>)
    ensures Run(d.(rsv := rsv), calls) == (if Run(d, calls).Some? then Some(Run(d, calls).value.(rsv := rsv)) else None)
    decreases |calls|
  {
    if calls != [] {
      ApplyFrame(d, rsv, calls[0]);
      hide Apply;
      if Apply(d, calls[0]).Some? {
        RunFrame(Apply(d, calls[0]).value, rsv, calls[1..]);
      }
    }
  }

  lemma ApplyFrame(d: Doc, rsv: seq<Reserve>, c: Call)
    ensures Apply(d.(rsv := rsv), c) == (if Apply(d, c).Some? then Some(Apply(d, c).value.(rsv := rsv)) else None)
  {
  }

  lemma RunReserved(rsv: seq<Reserve>, calls: seq<Call>, t: Tree)
    requires Run(Doc([], [], None), calls) == Some(Doc([], [], Some(t)))
    ensures Run(Meaning(EMPTY_WORK.(rsv := rsv)), calls) == Some(Doc(rsv, [], Some(t)))
  {
    hide Run;
    RunFrame(Doc([], [], None), rsv, calls);
    assert Meaning(EMPTY_WORK.(rsv := rsv)) == Doc(rsv, [], None);
  }
}
