/** The structure block as a sequence of tokens (section 5.4 of the Devicetree
    Specification v0.3), the bytes of each token, and `fdt_next_tag` as a
    function of the raw bytes. */
module FdtTokens {
  import opened BigEndian
  import opened Word32
  import opened Options

  const FDT_BEGIN_NODE: u32 := 1
  const FDT_END_NODE: u32 := 2
  const FDT_PROP: u32 := 3
  const FDT_NOP: u32 := 4
  const FDT_END: u32 := 9

  const ERR_NOTFOUND := -1
  const ERR_EXISTS := -2
  const ERR_NOSPACE := -3
  const ERR_BADOFFSET := -4
  const ERR_BADSTATE := -7
  const ERR_TRUNCATED := -8
  const ERR_BADMAGIC := -9
  const ERR_BADVERSION := -10
  const ERR_BADSTRUCTURE := -11
  const ERR_BADLAYOUT := -12

  const MAX_INT := 0x7fff_ffff

  /** `pad` holds the filler up to the next four-byte boundary: libfdt does not
      always clear it, so it is part of the token but not of its meaning. */
  datatype Token =
    | Begin(name: seq<byte>, pad: seq<byte>)
    | EndNode
    | Prop(nameoff: u32, val: seq<byte>, pad: seq<byte>)
    | Nop
    | End

  predicate ValidPad(len: nat, pad: seq<byte>) {
    |pad| < 4 && (len + |pad|) % 4 == 0
  }

  predicate ValidToken(t: Token) {
    match t
    case Begin(name, pad) => NUL !in name && ValidPad(|name| + 1, pad)
    case Prop(_, val, pad) => |val| <= MAX_INT && ValidPad(|val|, pad)
    case _ => true
  }

  predicate ValidTokens(ts: seq<Token>) {
    forall i | 0 <= i < |ts| :: ValidToken(ts[i])
  }

  function Tag(t: Token): u32 {
    match t
    case Begin(_, _) => FDT_BEGIN_NODE
    case EndNode => FDT_END_NODE
    case Prop(_, _, _) => FDT_PROP
    case Nop => FDT_NOP
    case End => FDT_END
  }

  function Body(t: Token): seq<byte>
    requires ValidToken(t)
  {
    match t
    case Begin(name, pad) => name + [NUL] + pad
    case Prop(nameoff, val, pad) => Enc32(|val|) + Enc32(nameoff) + val + pad
    case _ => []
  }

  function Bytes(t: Token): (s: seq<byte>)
    requires ValidToken(t)
    ensures |s| >= 4
  {
    Enc32(Tag(t)) + Body(t)
  }

  /** Tokens fill whole words. */
  lemma BytesAligned(t: Token)
    requires ValidToken(t)
    ensures |Bytes(t)| % 4 == 0
  {
    hide Enc32;
    match t
    case Begin(name, pad) =>
      assert |Bytes(t)| == 4 + (|name| + 1 + |pad|);
      MultiplesAdd(4, |name| + 1 + |pad|);
    case Prop(_, val, pad) =>
      assert |Bytes(t)| == 12 + (|val| + |pad|);
      MultiplesAdd(12, |val| + |pad|);
    case _ =>
  }

  lemma MultiplesAdd(a: nat, b: nat)
    requires a % 4 == 0 && b % 4 == 0
    ensures (a + b) % 4 == 0
  {
  }

  function Encode(ts: seq<Token>): (s: seq<byte>)
    requires ValidTokens(ts)
    ensures |s| % 4 == 0
  {
    if ts == [] then []
    else
      var head, tail := Bytes(ts[0]), Encode(ts[1..]);
      BytesAligned(ts[0]);
      MultiplesAdd(|head|, |tail|);
      head + tail
  }

  lemma {:induction false} EncodeAppend(a: seq<Token>, b: seq<Token>)
    requires ValidTokens(a) && ValidTokens(b)
    ensures Encode(a + b) == Encode(a) + Encode(b)
  {
    if a == [] {
      assert a + b == b;
    } else {
      assert (a + b)[1..] == a[1..] + b;
      EncodeAppend(a[1..], b);
    }
  }

  /** Byte offset of token `i`. */
  function Off(ts: seq<Token>, i: nat): nat
    requires ValidTokens(ts) && i <= |ts|
  {
    |Encode(ts[..i])|
  }

  /** The block splits at every token boundary. */
  lemma SplitAt(ts: seq<Token>, i: nat)
    requires ValidTokens(ts) && i <= |ts|
    ensures Encode(ts) == Encode(ts[..i]) + Encode(ts[i..])
    ensures Off(ts, i) <= |Encode(ts)| && Off(ts, i) % 4 == 0
    ensures Encode(ts)[Off(ts, i)..] == Encode(ts[i..])
    ensures Encode(ts)[..Off(ts, i)] == Encode(ts[..i])
  {
    assert ts == ts[..i] + ts[i..];
    EncodeAppend(ts[..i], ts[i..]);
  }

  lemma EncodeSnoc(ts: seq<Token>, i: nat)
    requires ValidTokens(ts) && i < |ts|
    ensures Encode(ts[..i + 1]) == Encode(ts[..i]) + Bytes(ts[i])
  {
    assert ts[..i + 1] == ts[..i] + [ts[i]];
    EncodeAppend(ts[..i], [ts[i]]);
    assert Encode([ts[i]]) == Bytes(ts[i]) + Encode([]);
  }

  lemma SplitToken(ts: seq<Token>, i: nat)
    requires ValidTokens(ts) && i < |ts|
    ensures Encode(ts) == Encode(ts[..i]) + Bytes(ts[i]) + Encode(ts[i + 1..])
    ensures Off(ts, i + 1) == Off(ts, i) + |Bytes(ts[i])| <= |Encode(ts)|
    ensures Off(ts, i) % 4 == 0
  {
    SplitAt(ts, i + 1);
    EncodeSnoc(ts, i);
  }

  /** The block from token `i` on starts with the bytes of that token. */
  lemma TokenFrom(ts: seq<Token>, i: nat) returns (tail: seq<byte>)
    requires ValidTokens(ts) && i < |ts|
    ensures ValidToken(ts[i]) && Off(ts, i) + |Bytes(ts[i])| <= |Encode(ts)|
    ensures Encode(ts)[Off(ts, i)..] == Bytes(ts[i]) + tail
  {
    hide Off, Bytes;
    SplitAt(ts, i);
    assert ts[i..][0] == ts[i];
    tail := Encode(ts[i..][1..]);
  }

  lemma {:induction false} OffMonotone(ts: seq<Token>, i: nat, j: nat)
    requires ValidTokens(ts) && i < j <= |ts|
    ensures Off(ts, i) < Off(ts, j)
    decreases j
  {
    SplitToken(ts, j - 1);
    if i < j - 1 {
      OffMonotone(ts, i, j - 1);
    }
  }

  // ---- the bytes determine the tokens ----

  /** Index of the first NUL at or after `off`, or the length if there is none. */
  function NulFrom(s: seq<byte>, off: nat): (z: nat)
    requires off <= |s|
    ensures off <= z <= |s|
    ensures NUL !in s[off..z]
    ensures z < |s| ==> s[z] == NUL
    decreases |s| - off
  {
    if off == |s| || s[off] == NUL then off else NulFrom(s, off + 1)
  }

  lemma NulFromUnique(s: seq<byte>, off: nat, z: nat)
    requires off <= z < |s| && s[z] == NUL && NUL !in s[off..z]
    ensures NulFrom(s, off) == z
  {
  }

  lemma PadUnique(len: nat, p: seq<byte>, q: seq<byte>)
    requires ValidPad(len, p) && ValidPad(len, q)
    ensures |p| == |q|
  {
  }

  lemma BeginUnique(t: Token, u: Token, r: seq<byte>, q: seq<byte>)
    requires ValidToken(t) && ValidToken(u) && t.Begin? && u.Begin?
    requires Body(t) + r == Body(u) + q
    ensures t == u && r == q
  {
    var b, n, m := Body(t) + r, |t.name|, |u.name|;
    assert b[..n] == t.name && b[n] == NUL;
    assert b[..m] == u.name && b[m] == NUL;
    NulFromUnique(b, 0, n);
    NulFromUnique(b, 0, m);
    PadUnique(n + 1, t.pad, u.pad);
    Cancel(Body(t), r, Body(u), q);
    Cancel(t.name + [NUL], t.pad, u.name + [NUL], u.pad);
  }

  lemma PropUnique(t: Token, u: Token, r: seq<byte>, q: seq<byte>)
    requires ValidToken(t) && ValidToken(u) && t.Prop? && u.Prop?
    requires Body(t) + r == Body(u) + q
    ensures t == u && r == q
  {
    hide Enc32, ValidPad;
    var a, b := Enc32(|t.val|), Enc32(|u.val|);
    var c, d := Enc32(t.nameoff), Enc32(u.nameoff);
    assert (Body(t) + r)[..4] == a && (Body(u) + q)[..4] == b;
    PadUnique(|t.val|, t.pad, u.pad);
    Cancel(Body(t), r, Body(u), q);
    Cancel(a + c + t.val, t.pad, b + d + u.val, u.pad);
    Cancel(a + c, t.val, b + d, u.val);
    Cancel(a, c, b, d);
  }

  lemma TokenUnique(t: Token, u: Token, r: seq<byte>, q: seq<byte>)
    requires ValidToken(t) && ValidToken(u)
    requires Bytes(t) + r == Bytes(u) + q
    ensures t == u && r == q
  {
    hide Enc32, ValidToken, ValidPad, Bytes, Body;
    BytesSplit(t, r);
    BytesSplit(u, q);
    Cancel(Enc32(Tag(t)), Body(t) + r, Enc32(Tag(u)), Body(u) + q);
    SameTagUnique(t, u, r, q);
  }

  lemma BytesSplit(t: Token, r: seq<byte>)
    requires ValidToken(t)
    ensures Bytes(t) + r == Enc32(Tag(t)) + (Body(t) + r)
  {
    hide Enc32, Body;
  }

  lemma SameTagUnique(t: Token, u: Token, r: seq<byte>, q: seq<byte>)
    requires ValidToken(t) && ValidToken(u)
    requires Tag(t) == Tag(u) && Body(t) + r == Body(u) + q
    ensures t == u && r == q
  {
    hide Enc32;
    if t.Begin? {
      BeginUnique(t, u, r, q);
    } else if t.Prop? {
      PropUnique(t, u, r, q);
    } else {
      assert Body(t) + r == r && Body(u) + q == q;
    }
  }

  /** A structure block decodes to at most one token sequence. */
  lemma {:induction false} EncodeInjective(a: seq<Token>, b: seq<Token>)
    requires ValidTokens(a) && ValidTokens(b)
    requires Encode(a) == Encode(b)
    ensures a == b
  {
    if a != [] && b != [] {
      TokenUnique(a[0], b[0], Encode(a[1..]), Encode(b[1..]));
      EncodeInjective(a[1..], b[1..]);
      assert a == [a[0]] + a[1..] && b == [b[0]] + b[1..];
    }
  }

  // ---- fdt_next_tag on raw bytes, with the 32-bit wrap-around of its `int` ----

  function Align4(x: int): int { (x + 3) / 4 * 4 }

  /** fdt_offset_ptr returns a pointer (version 17 blob of `size` structure bytes). */
  predicate PtrOk(size: nat, offset: int, len: int) {
    U32(offset) <= U32(offset + len) <= size
  }

  datatype TagResult = TagResult(tag: u32, next: int)

  function FinishTag(size: nat, tag: u32, start: int, offset: int): TagResult {
    if PtrOk(size, start, offset - start) then TagResult(tag, Align4(offset))
    else TagResult(FDT_END, ERR_BADSTRUCTURE)
  }

  /** Where the body of the token at `start` ends, when it can be told. */
  function BodyEnd(s: seq<byte>, start: nat, tag: u32): Option<int>
    requires start + 4 <= |s| <= MAX_INT
  {
    if tag == FDT_BEGIN_NODE then
      var z := NulFrom(s, start + 4);
      if z == |s| then None else Some(z + 1)
    else if tag == FDT_PROP then
      if start + 8 <= |s| then Some(S32(start + 12 + Get32(s, start + 4))) else None
    else if tag in {FDT_END, FDT_END_NODE, FDT_NOP} then Some(start + 4)
    else None
  }

  /** What fdt_next_tag returns for any bytes and any offset. */
  function TagAt(s: seq<byte>, start: int): TagResult
    requires |s| <= MAX_INT && -0x8000_0000 <= start <= MAX_INT
  {
    if !PtrOk(|s|, start, 4) then TagResult(FDT_END, ERR_TRUNCATED)
    else match BodyEnd(s, start, Get32(s, start))
      case None => TagResult(FDT_END, ERR_BADSTRUCTURE)
      case Some(offset) => FinishTag(|s|, Get32(s, start), start, offset)
  }

  /** With no wrap-around in sight the range check is the expected one. */
  lemma PtrInRange(size: nat, offset: nat, len: nat)
    requires size <= MAX_INT && offset <= size && len <= MAX_INT
    ensures PtrOk(size, offset, len) <==> offset + len <= size
  {
  }

  /** A word the range check lets through does lie in the block. */
  lemma PtrOkWord(size: nat, offset: int)
    requires size <= MAX_INT && -0x8000_0000 <= offset <= MAX_INT
    ensures PtrOk(size, offset, 4) <==> 0 <= offset && offset + 4 <= size
  {
  }

  lemma S32InRange(x: int)
    requires 0 <= x <= MAX_INT
    ensures S32(x) == x
  {
  }

  lemma FinishInRange(size: nat, tag: u32, start: nat, len: nat, pad: seq<byte>)
    requires start % 4 == 0 && ValidPad(len, pad) && start + len + |pad| <= size <= MAX_INT
    ensures FinishTag(size, tag, start, start + len) == TagResult(tag, start + len + |pad|)
  {
    PtrInRange(size, start, len);
  }

  lemma TagAtBegin(s: seq<byte>, o: nat, name: seq<byte>, pad: seq<byte>)
    requires o % 4 == 0 && ValidToken(Begin(name, pad)) && o + 5 + |name| + |pad| <= |s| <= MAX_INT
    requires Get32(s, o) == FDT_BEGIN_NODE
    requires s[o + 4..o + 4 + |name|] == name && s[o + 4 + |name|] == NUL
    ensures TagAt(s, o) == TagResult(FDT_BEGIN_NODE, o + 5 + |name| + |pad|)
  {
    NulFromUnique(s, o + 4, o + 4 + |name|);
    PtrInRange(|s|, o, 4);
    FinishInRange(|s|, FDT_BEGIN_NODE, o, |name| + 5, pad);
  }

  lemma TagAtProp(s: seq<byte>, o: nat, len: nat, pad: seq<byte>)
    requires o % 4 == 0 && ValidPad(len, pad) && o + 12 + len + |pad| <= |s| <= MAX_INT
    requires Get32(s, o) == FDT_PROP && Get32(s, o + 4) == len
    ensures TagAt(s, o) == TagResult(FDT_PROP, o + 12 + len + |pad|)
  {
    PtrInRange(|s|, o, 4);
    S32InRange(o + 12 + len);
    FinishInRange(|s|, FDT_PROP, o, 12 + len, pad);
    hide PtrOk, S32, FinishTag, Get32, ValidPad;
  }

  lemma TagAtOther(s: seq<byte>, o: nat)
    requires o % 4 == 0 && o + 4 <= |s| <= MAX_INT
    requires Get32(s, o) in {FDT_END, FDT_END_NODE, FDT_NOP}
    ensures TagAt(s, o) == TagResult(Get32(s, o), o + 4)
  {
    PtrInRange(|s|, o, 4);
    FinishInRange(|s|, Get32(s, o), o, 4, []);
  }

  lemma TagAtBytes(t: Token, pre: seq<byte>, post: seq<byte>)
    requires ValidToken(t) && |pre + Bytes(t) + post| <= MAX_INT && |pre| % 4 == 0
    ensures TagAt(pre + Bytes(t) + post, |pre|) == TagResult(Tag(t), |pre| + |Bytes(t)|)
  {
    hide TagAt, Enc32;
    var s, o := pre + Bytes(t) + post, |pre|;
    assert s[o..] == Enc32(Tag(t)) + (Body(t) + post);
    assert s[o..o + 4] == s[o..][..4] == Enc32(Tag(t));
    assert s[o + 4..] == s[o..][4..] == Body(t) + post;
    match t
    case Begin(name, pad) =>
      assert s[o + 4..o + 4 + |name|] == s[o + 4..][..|name|] == name;
      assert s[o + 4 + |name|] == s[o + 4..][|name|] == NUL;
      TagAtBegin(s, o, name, pad);
    case Prop(_, val, pad) =>
      assert s[o + 4..o + 8] == s[o + 4..][..4] == Enc32(|val|);
      TagAtProp(s, o, |val|, pad);
    case _ =>
      TagAtOther(s, o);
  }

  /** On a token boundary fdt_next_tag reads that token and stops at the next boundary. */
  lemma TagAtToken(ts: seq<Token>, i: nat)
    requires ValidTokens(ts) && i < |ts| && |Encode(ts)| <= MAX_INT
    ensures Off(ts, i) <= MAX_INT
    ensures TagAt(Encode(ts), Off(ts, i)) == TagResult(Tag(ts[i]), Off(ts, i + 1))
  {
    SplitToken(ts, i);
    TagAtBytes(ts[i], Encode(ts[..i]), Encode(ts[i + 1..]));
  }

  /** Before the block there is nothing to read. */
  lemma TagAtNegative(s: seq<byte>, start: int)
    requires |s| <= MAX_INT && -0x8000_0000 <= start < 0
    ensures TagAt(s, start) == TagResult(FDT_END, ERR_TRUNCATED)
  {
    PtrOkWord(|s|, start);
  }

  /** Past the last token the block is reported truncated. */
  lemma TagAtEnd(ts: seq<Token>)
    requires ValidTokens(ts) && |Encode(ts)| <= MAX_INT
    ensures TagAt(Encode(ts), |Encode(ts)|) == TagResult(FDT_END, ERR_TRUNCATED)
  {
    PtrInRange(|Encode(ts)|, |Encode(ts)|, 4);
  }

  /** Exactly one malformed length keeps fdt_next_tag from advancing: the walkers
      that loop on it stop making progress at such a property and at no other token. */
  lemma NextTagAdvances(s: seq<byte>, start: int)
    requires |s| <= MAX_INT && -0x8000_0000 <= start <= MAX_INT && start % 4 == 0
    requires TagAt(s, start).next >= 0
    ensures start >= 0 && start + 4 <= |s|
    ensures TagAt(s, start).next <= start
            <==> Get32(s, start) == FDT_PROP && start + 8 <= |s| && Get32(s, start + 4) == 0xffff_fff4
  {
    hide Get32, PtrOk, FinishTag, S32, NulFrom;
    PtrOkWord(|s|, start);
    var tag := Get32(s, start);
    if tag == FDT_PROP {
      PropAdvances(|s|, start, Get32(s, start + 4));
    } else if tag == FDT_BEGIN_NODE {
      FinishAdvances(|s|, tag, start, NulFrom(s, start + 4) + 1);
    } else {
      FinishAdvances(|s|, tag, start, start + 4);
    }
  }

  lemma FinishAdvances(size: nat, tag: u32, start: nat, offset: nat)
    requires start % 4 == 0 && start < offset <= size + 4 && size <= MAX_INT && start <= size
    ensures FinishTag(size, tag, start, offset).next >= 0 ==> FinishTag(size, tag, start, offset).next > start
  {
    AlignAdvances(start, offset);
  }

  lemma AlignAdvances(start: nat, offset: nat)
    requires start % 4 == 0
    ensures Align4(offset) > start <==> offset > start
  {
  }

  lemma PropAdvances(size: nat, start: nat, len: u32)
    requires start % 4 == 0 && start + 8 <= size <= MAX_INT
    requires FinishTag(size, FDT_PROP, start, S32(start + 12 + len)).next >= 0
    ensures FinishTag(size, FDT_PROP, start, S32(start + 12 + len)).next <= start <==> len == 0xffff_fff4
  {
    var o := S32(start + 12 + len);
    assert U32(o) == U32(start + 12 + len);
    assert start <= U32(o) <= size && o == U32(o);
    AlignAdvances(start, o);
  }

  /** A block on which it does not advance. */
  lemma NextTagStuck()
    ensures TagAt(Enc32(FDT_PROP) + Enc32(0xffff_fff4) + Enc32(0), 0) == TagResult(FDT_PROP, 0)
  {
    var s := Enc32(FDT_PROP) + Enc32(0xffff_fff4) + Enc32(0);
    hide Enc32;
    assert s[0..4] == Enc32(FDT_PROP);
    assert s[4..8] == Enc32(0xffff_fff4);
  }
}
