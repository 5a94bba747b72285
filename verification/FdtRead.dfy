/** The read-only functions: tags, nodes, properties and names, each walking the
    bytes of the structure block. */
module FdtRead {
  import opened BigEndian
  import opened Word32
  import opened Options
  import opened FdtTokens
  import opened FdtTree
  import opened FdtBlob

  const AT: byte := 64     // '@'
  const SLASH: byte := 47  // '/'

  /** The structure block of the buffer is the token sequence `ts`, ended by END. */
  predicate Reads(b: seq<byte>, ts: seq<Token>) {
    && Readable(b) && ValidTokens(ts) && StructBlock(b) == Encode(ts)
    && |ts| > 0 && ts[|ts| - 1] == End
  }

  lemma WordInBlock(b: seq<byte>, o: nat)
    requires Readable(b) && o + 4 <= |StructBlock(b)|
    ensures Get32(b, Field(b, OFF_STRUCT) + o) == Get32(StructBlock(b), o)
  {
    var base := Field(b, OFF_STRUCT);
    SliceSlice(b, base, base + Field(b, SIZE_STRUCT), o, o + 4);
  }

  /** fdt_next_tag, for any bytes and any offset. */
  method NextTag(buf: array<byte>, start: int) returns (tag: u32, next: int)
    requires Readable(buf[..]) && -0x8000_0000 <= start <= MAX_INT
    ensures TagResult(tag, next) == TagAt(StructBlock(buf[..]), start)
  {
    var base := Read32(buf, OFF_STRUCT);
    var size := Read32(buf, SIZE_STRUCT);
    assert StructBlock(buf[..]) == buf[base..base + size] && size <= MAX_INT && base + size <= buf.Length;
    PtrOkWord(size, start);
    hide PtrOk, FinishTag, StructBlock, Readable, BodyEnd;
    if !PtrOk(size, start, 4) {
      return FDT_END, ERR_TRUNCATED;
    }
    tag := Read32(buf, base + start);
    WordInBlock(buf[..], start);
    var end := SkipBody(buf, base, size, start, tag);
    if end.None? {
      return FDT_END, ERR_BADSTRUCTURE;
    }
    tag, next := CheckEnd(size, tag, start, end.value);
  }

  /** The switch of fdt_next_tag. */
  method SkipBody(buf: array<byte>, base: nat, size: nat, start: nat, tag: u32) returns (end: Option<int>)
    requires start + 4 <= size <= MAX_INT && base + size <= buf.Length
    ensures end == BodyEnd(buf[base..base + size], start, tag)
  {
    if tag == FDT_BEGIN_NODE {
      var z := SkipName(buf, base, size, start + 4);
      end := if z == size then None else Some(z + 1);
    } else if tag == FDT_PROP {
      PtrOkWord(size, start + 4);
      if !PtrOk(size, start + 4, 4) {
        return None;
      }
      var len := Read32(buf, base + start + 4);
      SliceSlice(buf[..], base, base + size, start + 4, start + 8);
      assert buf[..][base..base + size] == buf[base..base + size];
      end := Some(S32(start + 4 + 8 + len));
    } else {
      end := if tag == FDT_END || tag == FDT_END_NODE || tag == FDT_NOP then Some(start + 4) else None;
    }
  }

  /** The last range check of fdt_next_tag and its rounding up. */
  method CheckEnd(size: nat, tag: u32, start: int, offset: int) returns (t: u32, next: int)
    ensures TagResult(t, next) == FinishTag(size, tag, start, offset)
  {
    if !PtrOk(size, start, offset - start) {
      return FDT_END, ERR_BADSTRUCTURE;
    }
    t, next := tag, Align4(offset);
  }

  /** The name-skipping loop of fdt_next_tag: where the name's NUL is, or `size`. */
  method SkipName(buf: array<byte>, base: nat, size: nat, start: nat) returns (z: nat)
    requires start <= size <= MAX_INT && base + size <= buf.Length
    ensures z == NulFrom(buf[base..base + size], start)
  {
    z := start;
    PtrInRange(size, z, 1);
    while PtrOk(size, z, 1) && buf[base + z] != NUL
      invariant start <= z <= size
      invariant PtrOk(size, z, 1) <==> z < size
      invariant NulFrom(buf[base..base + size], start) == NulFrom(buf[base..base + size], z)
      decreases size - z
    {
      z := z + 1;
      PtrInRange(size, z, 1);
    }
  }

  /** fdt_next_tag on a token boundary. */
  method TokenTag(buf: array<byte>, offset: int, ghost ts: seq<Token>, ghost i: nat) returns (tag: u32, next: int)
    requires Reads(buf[..], ts) && i < |ts| && offset == Off(ts, i)
    ensures tag == Tag(ts[i]) && next == Off(ts, i + 1)
  {
    TagAtToken(ts, i);
    tag, next := NextTag(buf, offset);
  }

  /** Token boundaries are ordered and distinct. */
  lemma OffInjective(ts: seq<Token>, i: nat, j: nat)
    requires ValidTokens(ts) && i <= |ts| && j <= |ts|
    ensures Off(ts, i) < Off(ts, j) <==> i < j
    ensures Off(ts, i) == Off(ts, j) <==> i == j
  {
    if i < j {
      OffMonotone(ts, i, j);
    } else if j < i {
      OffMonotone(ts, j, i);
    }
  }

  /** _fdt_check_node_offset */
  method CheckNodeOffset(buf: array<byte>, offset: int) returns (r: int)
    requires Readable(buf[..]) && -0x8000_0000 <= offset <= MAX_INT
    ensures r == if offset >= 0 && offset % 4 == 0 && TagAt(StructBlock(buf[..]), offset).tag == FDT_BEGIN_NODE
                 then TagAt(StructBlock(buf[..]), offset).next else ERR_BADOFFSET
  {
    if offset < 0 || offset % 4 != 0 {
      return ERR_BADOFFSET;
    }
    var tag, next := NextTag(buf, offset);
    r := if tag != FDT_BEGIN_NODE then ERR_BADOFFSET else next;
  }

  /** _fdt_check_prop_offset */
  method CheckPropOffset(buf: array<byte>, offset: int) returns (r: int)
    requires Readable(buf[..]) && -0x8000_0000 <= offset <= MAX_INT
    ensures r == if offset >= 0 && offset % 4 == 0 && TagAt(StructBlock(buf[..]), offset).tag == FDT_PROP
                 then TagAt(StructBlock(buf[..]), offset).next else ERR_BADOFFSET
  {
    if offset < 0 || offset % 4 != 0 {
      return ERR_BADOFFSET;
    }
    var tag, next := NextTag(buf, offset);
    r := if tag != FDT_PROP then ERR_BADOFFSET else next;
  }

  /** On a token boundary the two checks look at the token. */
  lemma CheckToken(b: seq<byte>, ts: seq<Token>, i: nat)
    requires Reads(b, ts) && i < |ts|
    ensures 0 <= Off(ts, i) <= MAX_INT && Off(ts, i) % 4 == 0
    ensures TagAt(StructBlock(b), Off(ts, i)) == TagResult(Tag(ts[i]), Off(ts, i + 1))
  {
    TagAtToken(ts, i);
    SplitToken(ts, i);
  }

  /** What fdt_next_node reports for a step of the walk. */
  function NodeOffset(ts: seq<Token>, r: StepResult): int
    requires ValidTokens(ts)
  {
    match r
    case Found(j, _) => if j <= |ts| then Off(ts, j) else 0
    case Left(j) => if j <= |ts| then Off(ts, j) else 0
    case Ended(_) => ERR_NOTFOUND
  }

  function NodeDepth(r: StepResult): int {
    match r
    case Found(_, d) => d
    case Left(_) => -1
    case Ended(d) => d
  }

  /** The check that every function taking a node offset makes first fails. */
  predicate BadNode(b: seq<byte>, offset: int)
    requires Readable(b) && offset <= MAX_INT
  {
    offset < 0 || offset % 4 != 0 || TagAt(StructBlock(b), offset).tag != FDT_BEGIN_NODE
  }

  /** fdt_next_node: from the node at token `i`, or from the start for a negative offset. */
  method NextNode(buf: array<byte>, offset: int, depth: int, ghost ts: seq<Token>, ghost i: nat)
    returns (r: int, d: int)
    requires Reads(buf[..], ts) && offset <= MAX_INT && (depth >= 0 || (offset >= 0 && BadNode(buf[..], offset)))
    requires offset >= 0 && !BadNode(buf[..], offset) ==> i < |ts| && offset == Off(ts, i)
    ensures offset >= 0 && BadNode(buf[..], offset) ==> r == ERR_BADOFFSET && d == depth
    ensures offset < 0 || !BadNode(buf[..], offset) ==>
              var s := Step(ts, if offset >= 0 then i + 1 else 0, depth);
              r == NodeOffset(ts, s) && d == NodeDepth(s)
  {
    d := depth;
    var off := 0;
    ghost var j := 0;
    if offset >= 0 {
      off := CheckNodeOffset(buf, offset);
      if off < 0 {
        return off, d;
      }
      CheckToken(buf[..], ts, i);
      j := i + 1;
    }
    r, d := Scan(buf, off, depth, ts, j);
  }

  /** The loop of fdt_next_node. */
  method Scan(buf: array<byte>, offset: int, depth: int, ghost ts: seq<Token>, ghost start: nat)
    returns (r: int, d: int)
    requires Reads(buf[..], ts) && depth >= 0 && start < |ts| && offset == Off(ts, start)
    ensures r == NodeOffset(ts, Step(ts, start, depth)) && d == NodeDepth(Step(ts, start, depth))
  {
    d := depth;
    var off := offset;
    ghost var j := start;
    while true
      invariant j < |ts| && off == Off(ts, j) && d >= 0
      invariant Step(ts, j, d) == Step(ts, start, depth)
      decreases |ts| - j
    {
      var tag, next := TokenTag(buf, off, ts, j);
      if tag == FDT_BEGIN_NODE {
        return off, d + 1;
      } else if tag == FDT_END_NODE {
        d := d - 1;
        if d < 0 {
          return next, d;
        }
      } else if tag == FDT_END {
        return ERR_NOTFOUND, d;
      }
      off := next;
      j := j + 1;
    }
  }

  /** fdt_check_header */
  method CheckHdr(buf: array<byte>) returns (err: int)
    requires HEADER_SIZE <= buf.Length
    ensures err == CheckHeader(buf[..])
  {
    hide Get32;
    var magic := Read32(buf, MAGIC);
    if magic == FDT_MAGIC {
      var version := Read32(buf, VERSION);
      if version < FIRST_VERSION {
        return ERR_BADVERSION;
      }
      var last := Read32(buf, LAST_COMP);
      if last > LAST_VERSION {
        return ERR_BADVERSION;
      }
    } else if magic == FDT_SW_MAGIC {
      var size := Read32(buf, SIZE_STRUCT);
      if size == 0 {
        return ERR_BADSTATE;
      }
    } else {
      return ERR_BADMAGIC;
    }
    err := 0;
  }
}
