/** Properties by name. */
module FdtProps {
  import opened BigEndian
  import opened Options
  import opened FdtTokens
  import opened FdtTree
  import opened FdtBlob
  import opened FdtRead
  import opened FdtNodes

  predicate Named(strings: seq<byte>, nameoff: nat, s: seq<byte>) {
    HasString(strings, nameoff) && StringAt(strings, nameoff) == s
  }

  function Shift(o: Option<nat>, n: nat): Option<nat> {
    if o.Some? then Some(o.value + n) else None
  }

  /** Index of the property named `s` that the readers find: the first one of that name
      before any child node. */
  function FindProp(items: seq<Item>, strings: seq<byte>, s: seq<byte>): (r: Option<nat>)
    ensures r.Some? ==> r.value < |items| && items[r.value].IProp? && Named(strings, items[r.value].nameoff, s)
    ensures r.Some? ==> forall j | 0 <= j < r.value ::
              !items[j].INode? && (items[j].IProp? ==> !Named(strings, items[j].nameoff, s))
    ensures r.None? ==> forall j | 0 <= j < |items| && items[j].IProp? && Named(strings, items[j].nameoff, s) ::
                          exists m :: 0 <= m < j && items[m].INode?
  {
    if items == [] || items[0].INode? then None
    else if items[0].IProp? && Named(strings, items[0].nameoff, s) then Some(0)
    else Shift(FindProp(items[1..], strings, s), 1)
  }

  /** The loop of _nextprop on tokens: the next property, or why there is none. */
  function PropScan(ts: seq<Token>, j: nat): int
    requires ValidTokens(ts) && j <= |ts|
    decreases |ts| - j
  {
    if j == |ts| then ERR_TRUNCATED
    else match ts[j]
      case Nop => PropScan(ts, j + 1)
      case Prop(_, _, _) => Off(ts, j)
      case End => ERR_BADSTRUCTURE
      case _ => ERR_NOTFOUND
  }

  /** The first `m` items are NOPs, and a property follows or no property can be found. */
  predicate Scanned(items: seq<Item>, strings: seq<byte>, s: seq<byte>, m: nat) {
    && m <= |items|
    && (m < |items| ==> items[m].IProp? && FindProp(items, strings, s) == Shift(FindProp(items[m..], strings, s), m))
    && (m == |items| ==> FindProp(items, strings, s) == None)
  }

  /** The items that start at token `j` of `ts`, up to the END_NODE of their node. */
  predicate ItemsAt(ts: seq<Token>, j: nat, items: seq<Item>) {
    At(ts, j, FlatAll(items) + [EndNode])
  }

  lemma {:induction false} ScanItems(ts: seq<Token>, j: nat, items: seq<Item>, strings: seq<byte>, s: seq<byte>)
    returns (m: nat)
    requires ValidTokens(ts) && ItemsAt(ts, j, items)
    ensures Scanned(items, strings, s, m) && ScanEnds(ts, j, items, m)
    decreases |items|
  {
    FirstToken(ts, j, items);
    if items == [] || !items[0].INop? {
      m := if items != [] && items[0].IProp? then 0 else |items|;
      ScannedNow(items, strings, s);
      assert items[0..] == items;
    } else {
      hide ItemsAt, ValidTokens, FindProp, Scanned, ScanEnds;
      m := ScanItems(ts, j + 1, items[1..], strings, s);
      ScannedNop(items, strings, s, m);
      NopPassed(ts, j, items, m);
      m := m + 1;
    }
  }

  /** The scan from token `j` stops at item `m`, or behind the items without a property. */
  predicate ScanEnds(ts: seq<Token>, j: nat, items: seq<Item>, m: nat)
    requires ValidTokens(ts)
  {
    && j < |ts| && m <= |items|
    && (m < |items| ==> ItemsAt(ts, j + m, items[m..]) && j + m <= |ts| && PropScan(ts, j) == Off(ts, j + m))
    && (m == |items| ==> PropScan(ts, j) == ERR_NOTFOUND)
  }

  lemma NopPassed(ts: seq<Token>, j: nat, items: seq<Item>, m: nat)
    requires ValidTokens(ts) && j < |ts| && ts[j] == Nop && items != [] && ScanEnds(ts, j + 1, items[1..], m)
    ensures ScanEnds(ts, j, items, m + 1)
  {
    hide ItemsAt, Off, ValidTokens;
    assert m < |items| - 1 ==> items[1..][m..] == items[m + 1..];
  }

  lemma ScannedNow(items: seq<Item>, strings: seq<byte>, s: seq<byte>)
    requires items == [] || !items[0].INop?
    ensures Scanned(items, strings, s, if items != [] && items[0].IProp? then 0 else |items|)
  {
    hide Named;
    assert items[0..] == items;
  }

  lemma ScannedNop(items: seq<Item>, strings: seq<byte>, s: seq<byte>, m: nat)
    requires items != [] && items[0].INop? && Scanned(items[1..], strings, s, m)
    ensures Scanned(items, strings, s, m + 1)
  {
    hide Named;
    assert items[1..][m..] == items[m + 1..];
  }

  lemma FirstToken(ts: seq<Token>, j: nat, items: seq<Item>)
    requires ItemsAt(ts, j, items)
    ensures j < |ts|
    ensures items == [] ==> ts[j] == EndNode
    ensures items != [] ==> ts[j] == Flat(items[0])[0] && ItemsAt(ts, j + |Flat(items[0])|, items[1..])
  {
    var x := FlatAll(items) + [EndNode];
    assert ts[j] == ts[j..j + |x|][0] == x[0];
    if items != [] {
      assert x == Flat(items[0]) + (FlatAll(items[1..]) + [EndNode]);
      AtParts(ts, j, Flat(items[0]), FlatAll(items[1..]) + [EndNode]);
    }
  }

  /** _nextprop */
  method NextProp(buf: array<byte>, offset: int, ghost ts: seq<Token>, ghost i: nat) returns (r: int)
    requires Reads(buf[..], ts) && i < |ts| && offset == Off(ts, i)
    ensures r == PropScan(ts, i)
  {
    hide Off, Readable, StructBlock, ValidTokens;
    var off := offset;
    ghost var j := i;
    while true
      invariant j < |ts| && off == Off(ts, j)
      invariant PropScan(ts, j) == PropScan(ts, i)
      decreases |ts| - j
    {
      var tag, next := TokenTag(buf, off, ts, j);
      if tag == FDT_END {
        return ERR_BADSTRUCTURE;
      } else if tag == FDT_PROP {
        return off;
      } else if tag != FDT_NOP {
        return ERR_NOTFOUND;
      }
      off := next;
      j := j + 1;
    }
  }

  /** fdt_first_property_offset */
  method FirstPropertyOffset(buf: array<byte>, offset: int, ghost ts: seq<Token>, ghost i: nat) returns (r: int)
    requires Reads(buf[..], ts) && -0x8000_0000 <= offset <= MAX_INT
    requires !BadNode(buf[..], offset) ==> i + 1 < |ts| && offset == Off(ts, i)
    ensures BadNode(buf[..], offset) ==> r == ERR_BADOFFSET
    ensures !BadNode(buf[..], offset) ==> r == PropScan(ts, i + 1)
  {
    hide Off, StructBlock, ValidTokens, PropScan, TagAt;
    if !BadNode(buf[..], offset) {
      CheckToken(buf[..], ts, i);
    }
    r := CheckNodeOffset(buf, offset);
    if r < 0 {
      return;
    }
    r := NextProp(buf, r, ts, i + 1);
  }

  /** The check that fdt_next_property_offset makes first fails. */
  predicate BadProp(b: seq<byte>, offset: int)
    requires Readable(b) && offset <= MAX_INT
  {
    offset < 0 || offset % 4 != 0 || TagAt(StructBlock(b), offset).tag != FDT_PROP
  }

  /** On a token boundary it passes exactly at properties. */
  lemma BadPropToken(b: seq<byte>, ts: seq<Token>, i: nat)
    requires Reads(b, ts) && i < |ts|
    ensures Off(ts, i) <= MAX_INT && (BadProp(b, Off(ts, i)) <==> !ts[i].Prop?)
  {
    hide TagAt, Off, Readable, StructBlock;
    CheckToken(b, ts, i);
  }

  /** fdt_next_property_offset */
  method NextPropertyOffset(buf: array<byte>, offset: int, ghost ts: seq<Token>, ghost i: nat) returns (r: int)
    requires Reads(buf[..], ts) && -0x8000_0000 <= offset <= MAX_INT
    requires !BadProp(buf[..], offset) ==> i + 1 < |ts| && offset == Off(ts, i)
    ensures BadProp(buf[..], offset) ==> r == ERR_BADOFFSET
    ensures !BadProp(buf[..], offset) ==> r == PropScan(ts, i + 1)
  {
    hide Off, StructBlock, ValidTokens, PropScan, TagAt;
    if !BadProp(buf[..], offset) {
      CheckToken(buf[..], ts, i);
    }
    r := CheckPropOffset(buf, offset);
    if r < 0 {
      return;
    }
    r := NextProp(buf, r, ts, i + 1);
  }

  // ---- the fields of a property ----

  lemma PropToken(t: Token, tail: seq<byte>)
    requires t.Prop? && ValidToken(t)
    ensures var x := Bytes(t) + tail;
            Get32(x, 0) == FDT_PROP && Get32(x, 4) == |t.val| && Get32(x, 8) == t.nameoff
              && x[12..12 + |t.val|] == t.val
            && |Bytes(t)| == 12 + |t.val| + |t.pad|
  {
    hide Enc32, ValidPad;
    var x := Bytes(t) + tail;
    assert x[0..4] == Enc32(FDT_PROP);
    assert x[4..8] == Enc32(|t.val|);
    assert x[8..12] == Enc32(t.nameoff);
    assert x[12..12 + |t.val|] == t.val;
  }

  /** What a property token holds, at its place in the buffer. */
  lemma PropFields(b: seq<byte>, ts: seq<Token>, i: nat)
    requires Reads(b, ts) && i < |ts| && ts[i].Prop?
    ensures var p := Field(b, OFF_STRUCT) + Off(ts, i);
            && p + 12 + |ts[i].val| + |ts[i].pad| <= Field(b, OFF_STRUCT) + Field(b, SIZE_STRUCT) <= |b|
            && Get32(b, p) == FDT_PROP && Get32(b, p + 4) == |ts[i].val| && Get32(b, p + 8) == ts[i].nameoff
            && b[p + 12..p + 12 + |ts[i].val|] == ts[i].val
  {
    hide Off, Bytes, Get32, Encode, ValidTokens, ValidToken, Field;
    var base, o := Field(b, OFF_STRUCT), Off(ts, i);
    var tail := TokenFrom(ts, i);
    var st := StructBlock(b);
    PropToken(ts[i], tail);
    SliceSlice(b, base, base + |st|, o, |st|);
    SubWord(b, base + o, base + |st|, 0);
    SubWord(b, base + o, base + |st|, 4);
    SubWord(b, base + o, base + |st|, 8);
    SliceSlice(b, base + o, base + |st|, 12, 12 + |ts[i].val|);
  }

  lemma SubWord(b: seq<byte>, i: nat, j: nat, o: nat)
    requires i <= j <= |b| && i + o + 4 <= j
    ensures Get32(b[i..j], o) == Get32(b, i + o)
  {
    SliceSlice(b, i, j, o, o + 4);
  }

  /** A string of the strings block, seen from the whole buffer. */
  lemma StringInBuffer(b: seq<byte>, lo: nat, hi: nat, off: nat)
    requires lo <= hi <= |b| && HasString(b[lo..hi], off)
    ensures NulFrom(b, lo + off) == lo + NulFrom(b[lo..hi], off)
    ensures b[lo + off..NulFrom(b, lo + off)] == StringAt(b[lo..hi], off)
  {
    var z := NulFrom(b[lo..hi], off);
    SliceSlice(b, lo, hi, off, z);
    assert b[lo + z] == b[lo..hi][z] == NUL;
    NulFromUnique(b, lo + off, lo + z);
  }

  /** _fdt_string_eq */
  method StringEq(buf: array<byte>, nameoff: nat, s: seq<byte>, ghost d: DT) returns (eq: bool)
    requires Contents(buf[..], d) && HasString(d.strings, nameoff)
    ensures eq == Named(d.strings, nameoff, s)
  {
    hide WellFormed, ReserveBytes, StructTokens, HasString, StringAt;
    var base := Read32(buf, OFF_STRINGS);
    StringInBuffer(buf[..], base, DataEnd(buf[..]), nameoff);
    hide Get32, Field, Contents;
    var z := NulFrom(buf[..], base + nameoff);
    eq := z - (base + nameoff) == |s| && buf[base + nameoff..z] == s;
    assert buf[..][base + nameoff..z] == buf[base + nameoff..z];
  }

  // ---- fdt_get_property ----

  lemma {:induction false} NamesOkAt(items: seq<Item>, strings: seq<byte>, k: nat)
    requires NamesOk(items, strings) && k < |items|
    ensures NameOk(items[k], strings)
  {
    if k > 0 {
      NamesOkAt(items[1..], strings, k - 1);
    }
  }

  lemma {:induction false} NamesOkAppend(a: seq<Item>, b: seq<Item>, strings: seq<byte>)
    ensures NamesOk(a + b, strings) <==> NamesOk(a, strings) && NamesOk(b, strings)
  {
    if a == [] {
      assert a + b == b;
    } else {
      assert (a + b)[1..] == a[1..] + b;
      NamesOkAppend(a[1..], b, strings);
    }
  }

  /** Names resolve in a tree when they do in one node and in all that surrounds it. */
  predicate AroundOk(c: Context, strings: seq<byte>) {
    match c
    case Top => true
    case Inside(up, _, _, left, right) => AroundOk(up, strings) && NamesOk(left, strings) && NamesOk(right, strings)
  }

  lemma {:induction false} PlugNameOk(c: Context, n: Item, strings: seq<byte>)
    ensures NameOk(Plug(c, n), strings) <==> AroundOk(c, strings) && NameOk(n, strings)
  {
    match c
    case Top =>
    case Inside(up, name, pad, left, right) =>
      PlugNameOk(up, INode(name, pad, left + [n] + right), strings);
      NamesOkAppend(left + [n], right, strings);
      NamesOkAppend(left, [n], strings);
      assert NamesOk([n], strings) <==> NameOk(n, strings) && NamesOk([n][1..], strings);
  }

  /** The result of fdt_get_property for node `n` at `c`: the offset of the property found. */
  function PropResult(d: DT, c: Context, n: Item, s: seq<byte>): int
    requires ValidTokens(StructTokens(d)) && n.INode?
  {
    match FindProp(n.items, d.strings, s)
    case None => ERR_NOTFOUND
    case Some(k) =>
      if Index(c) + 1 + k <= |StructTokens(d)| then Off(StructTokens(d), Index(c) + 1 + k) else ERR_NOTFOUND
  }

  lemma NodeItemsAt(d: DT, c: Context, n: Item)
    requires IsNode(d, c, n)
    ensures ItemsAt(StructTokens(d), Index(c) + 1, n.items)
    ensures Index(c) + 1 < |StructTokens(d)|
  {
    hide Plug, Before, After, StructTokens;
    NodeSplit(d, c, n);
    var ts, x := StructTokens(d), [Begin(n.name, n.pad)];
    assert Flat(n) == x + (FlatAll(n.items) + [EndNode]);
    AtParts(ts, Index(c), x, FlatAll(n.items) + [EndNode]);
  }

  /** The scan stands at item `k` of the node, with the right property not passed yet. */
  ghost predicate AtProp(d: DT, c: Context, n: Item, s: seq<byte>, k: nat, off: int) {
    && n.INode? && ValidTokens(StructTokens(d))
    && k <= |n.items|
    && if k == |n.items| then off == ERR_NOTFOUND && FindProp(n.items, d.strings, s) == None
       else
         && n.items[k].IProp?
         && FindProp(n.items, d.strings, s) == Shift(FindProp(n.items[k..], d.strings, s), k)
         && ItemsAt(StructTokens(d), Index(c) + 1 + k, n.items[k..])
         && off == Off(StructTokens(d), Index(c) + 1 + k)
  }

  /** Scanning on from item `j`, when the property is not among the items before it. */
  lemma ScanFrom(d: DT, c: Context, n: Item, s: seq<byte>, j: nat) returns (k: nat)
    requires n.INode? && ValidTokens(StructTokens(d)) && j <= |n.items|
    requires ItemsAt(StructTokens(d), Index(c) + 1 + j, n.items[j..])
    requires FindProp(n.items, d.strings, s) == Shift(FindProp(n.items[j..], d.strings, s), j)
    ensures Index(c) + 1 + j < |StructTokens(d)| && j <= k
    ensures AtProp(d, c, n, s, k, PropScan(StructTokens(d), Index(c) + 1 + j))
  {
    hide ItemsAt, Off, FindProp, ValidTokens, StructTokens, PropScan;
    var m := ScanItems(StructTokens(d), Index(c) + 1 + j, n.items[j..], d.strings, s);
    k := j + m;
    assert n.items[j..][m..] == n.items[k..];
  }

  /** A property of another name is passed by. */
  lemma PassProp(d: DT, c: Context, n: Item, s: seq<byte>, k: nat, off: int)
    requires AtProp(d, c, n, s, k, off) && k < |n.items|
    requires !Named(d.strings, n.items[k].nameoff, s)
    ensures Index(c) + 2 + k < |StructTokens(d)| && off == Off(StructTokens(d), Index(c) + 1 + k)
    ensures StructTokens(d)[Index(c) + 1 + k].Prop? && ValidTokens(StructTokens(d))
    ensures ItemsAt(StructTokens(d), Index(c) + 2 + k, n.items[k + 1..])
    ensures FindProp(n.items, d.strings, s) == Shift(FindProp(n.items[k + 1..], d.strings, s), k + 1)
  {
    hide ItemsAt, Off, ValidTokens, StructTokens, Named, FindProp;
    FirstToken(StructTokens(d), Index(c) + 1 + k, n.items[k..]);
    assert n.items[k..][1..] == n.items[k + 1..];
    FirstToken(StructTokens(d), Index(c) + 2 + k, n.items[k + 1..]);
    FindPasses(n.items[k..], d.strings, s);
  }

  lemma FindPasses(items: seq<Item>, strings: seq<byte>, s: seq<byte>)
    requires items != [] && items[0].IProp? && !Named(strings, items[0].nameoff, s)
    ensures FindProp(items, strings, s) == Shift(FindProp(items[1..], strings, s), 1)
  {
    hide Named;
  }

  /** The property the scan stands at, in the buffer. */
  lemma PropHere(b: seq<byte>, d: DT, c: Context, n: Item, s: seq<byte>, k: nat, off: int)
    requires Contents(b, d) && IsNode(d, c, n) && AtProp(d, c, n, s, k, off) && k < |n.items|
    ensures off >= 0 && Index(c) + 1 + k < |StructTokens(d)|
    ensures var p := Field(b, OFF_STRUCT) + off; var it := n.items[k];
            && p + 12 + |it.val| + |it.pad| <= Field(b, OFF_STRUCT) + Field(b, SIZE_STRUCT) <= |b|
            && Get32(b, p + 4) == |it.val| && Get32(b, p + 8) == it.nameoff
            && b[p + 12..p + 12 + |it.val|] == it.val
    ensures HasString(d.strings, n.items[k].nameoff)
  {
    hide Contents, ItemsAt, Off, ValidTokens, StructTokens, Field, Get32, FindProp, HasString, Plug, Reads;
    ContentsReads(b, d);
    FirstToken(StructTokens(d), Index(c) + 1 + k, n.items[k..]);
    PropFields(b, StructTokens(d), Index(c) + 1 + k);
    ContentsNames(b, d);
    PlugNameOk(c, n, d.strings);
    NamesOkAt(n.items, d.strings, k);
  }

  lemma ContentsNames(b: seq<byte>, d: DT)
    requires Contents(b, d)
    ensures NameOk(d.root, d.strings)
  {
  }

  lemma PropAhead(d: DT, c: Context, n: Item, s: seq<byte>, k: nat, off: int)
    requires AtProp(d, c, n, s, k, off)
    ensures n.INode? && k <= |n.items| && (k == |n.items| <==> off < 0)
  {
    hide ItemsAt, ValidTokens, StructTokens, FindProp;
  }

  /** Where the scan stops is the result. */
  lemma PropStop(d: DT, c: Context, n: Item, s: seq<byte>, k: nat, off: int)
    requires AtProp(d, c, n, s, k, off)
    requires k < |n.items| ==> Named(d.strings, n.items[k].nameoff, s)
    ensures n.INode? && ValidTokens(StructTokens(d)) && off == PropResult(d, c, n, s)
  {
    hide ItemsAt, ValidTokens, StructTokens, Off, Named;
    if k < |n.items| {
      FirstToken(StructTokens(d), Index(c) + 1 + k, n.items[k..]);
      assert n.items[k..][0] == n.items[k];
    }
  }

  /** The loop of fdt_get_property, from the property at item `k` on. */
  method FindFrom(buf: array<byte>, offset: int, s: seq<byte>, ghost d: DT, ghost c: Context, ghost n: Item,
                  ghost start: nat)
    returns (r: int)
    requires Contents(buf[..], d) && IsNode(d, c, n)
    requires AtProp(d, c, n, s, start, offset)
    ensures r == PropResult(d, c, n, s)
  {
    hide BadProp, TagAt, Contents, IsNode, AtProp, Off, ItemsAt, StructTokens, FindProp, PropScan, Named, Reads,
      ValidTokens, HasString;
    r := offset;
    ghost var k, ts := start, StructTokens(d);
    ContentsReads(buf[..], d);
    PropAhead(d, c, n, s, k, r);
    while r >= 0
      invariant AtProp(d, c, n, s, k, r)
      invariant n.INode? && k <= |n.items| && (k == |n.items| <==> r < 0)
      decreases |n.items| - k
    {
      PropHere(buf[..], d, c, n, s, k, r);
      var base := Read32(buf, OFF_STRUCT);
      var nameoff := Read32(buf, base + r + 8);
      var eq := StringEq(buf, nameoff, s, d);
      if eq {
        PropStop(d, c, n, s, k, r);
        return;
      }
      PassProp(d, c, n, s, k, r);
      BadPropToken(buf[..], ts, Index(c) + 1 + k);
      r := NextPropertyOffset(buf, r, ts, Index(c) + 1 + k);
      k := ScanFrom(d, c, n, s, k + 1);
      PropAhead(d, c, n, s, k, r);
    }
    PropStop(d, c, n, s, k, r);
  }

  /** fdt_get_property: the offset of the property, or an error. */
  method GetProperty(buf: array<byte>, offset: int, s: seq<byte>, ghost d: DT, ghost c: Context, ghost n: Item)
    returns (r: int)
    requires Contents(buf[..], d) && Refers(buf[..], d, offset, c, n)
    ensures BadNode(buf[..], offset) ==> r == ERR_BADOFFSET
    ensures !BadNode(buf[..], offset) ==> r == PropResult(d, c, n, s)
  {
    hide Contents, IsNode, AtProp, Off, ItemsAt, StructTokens, PropScan, Reads, Readable, ValidTokens, TagAt;
    ContentsReads(buf[..], d);
    ghost var k := 0;
    if !BadNode(buf[..], offset) {
      k := FirstScan(d, c, n, s);
    }
    r := FirstPropertyOffset(buf, offset, StructTokens(d), Index(c));
    if r >= 0 {
      r := FindFrom(buf, r, s, d, c, n, k);
    } else if !BadNode(buf[..], offset) {
      PropStop(d, c, n, s, k, r);
    }
  }

  lemma FirstScan(d: DT, c: Context, n: Item, s: seq<byte>) returns (k: nat)
    requires IsNode(d, c, n) && ValidTokens(StructTokens(d))
    ensures Index(c) + 1 < |StructTokens(d)|
    ensures n.INode? && k <= |n.items| && (k == |n.items| <==> PropScan(StructTokens(d), Index(c) + 1) < 0)
    ensures AtProp(d, c, n, s, k, PropScan(StructTokens(d), Index(c) + 1))
  {
    hide StructTokens, ItemsAt, ValidTokens, PropScan, Off, AtProp;
    NodeItemsAt(d, c, n);
    assert n.items[0..] == n.items;
    k := ScanFrom(d, c, n, s, 0);
    PropAhead(d, c, n, s, k, PropScan(StructTokens(d), Index(c) + 1));
  }
}
