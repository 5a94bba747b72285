/** More read-write functions: appending to and deleting properties, adding, deleting
    and renaming nodes. */
module FdtNodeRw {
  import opened BigEndian
  import opened FdtTokens
  import opened FdtTree
  import opened FdtBlob
  import opened FdtRead
  import opened FdtNodes
  import opened FdtProps
  import opened FdtSplice
  import opened FdtEdit
  import opened FdtStrings
  import opened FdtRw

  // ---- fdt_appendprop ----

  /** `d` with `val` appended to the property `s` of node `n`, which is created if missing. */
  function PropAppended(d: DT, c: Context, n: Item, s: seq<byte>, val: seq<byte>, pad: seq<byte>): DT
    requires n.INode?
  {
    match FindProp(n.items, d.strings, s)
    case Some(k) => PropReplaced(d, c, n, k, n.items[k].val + val, pad)
    case None => PropAdded(d, c, n, s, val, pad)
  }

  function AppendGrowth(d: DT, n: Item, s: seq<byte>, len: nat): int
    requires n.INode?
  {
    match FindProp(n.items, d.strings, s)
    case Some(k) => Align4(|n.items[k].val| + len) - Align4(|n.items[k].val|)
    case None => NameGrowth(d.strings, s) + PropSize(len)
  }

  /** The case of fdt_appendprop in which the property exists. */
  method AppendFound(buf: array<byte>, r: nat, val: seq<byte>, ghost d: DT, ghost c: Context, ghost n: Item,
                     ghost k: nat)
    returns (err: int, ghost pad: seq<byte>)
    requires Holds(buf[..], d) && IsNode(d, c, n) && k < |n.items| && n.items[k].IProp?
    requires forall j | 0 <= j < k :: !n.items[j].INode?
    requires HasString(d.strings, n.items[k].nameoff)
    requires Index(c) + 1 + k < |StructTokens(d)| && r == Off(StructTokens(d), Index(c) + 1 + k)
    requires |val| + buf.Length <= MAX_LEN
    modifies buf
    ensures err == if DataEnd(old(buf[..])) + Align4(|n.items[k].val| + |val|) - Align4(|n.items[k].val|)
                      > Field(old(buf[..]), TOTALSIZE)
                   then ERR_NOSPACE else 0
    ensures err != 0 ==> buf[..] == old(buf[..])
    ensures err == 0 ==> Holds(buf[..], PropReplaced(d, c, n, k, n.items[k].val + val, pad))
    ensures err == 0 ==> Grown(old(buf[..]), buf[..], Align4(|n.items[k].val| + |val|) - Align4(|n.items[k].val|))
  {
    hide Get32, Contents, StructTokens, Off, ReserveBytes, StructSpliced, Patch, Enc32, Align4, Plug, PropReplaced,
      HasString, PropSize, Grown;
    ghost var a, it := buf[..], n.items[k];
    pad := [];
    FoundAt(a, d, c, n, k);
    var base: int := Read32(buf, OFF_STRUCT);
    var prop: nat := base + r;
    var oldlen: int := Read32(buf, prop + 4);
    var newlen := |val| + oldlen;
    err := ResizeData(buf, prop, oldlen, newlen, it.nameoff);
    if err != 0 {
      return;
    }
    ghost var b := buf[..];
    CopyValue(buf, prop, oldlen, val, it.nameoff, newlen, a, PropSize(oldlen));
    PatchSlices(b, prop + 12 + oldlen, val, prop + 12, prop + 12 + oldlen);
    assert buf[..][prop + 12..prop + 12 + newlen] ==
      buf[..][prop + 12..prop + 12 + oldlen] + buf[..][prop + 12 + oldlen..prop + 12 + newlen];
    pad := ReplacedHolds(a, buf[..], d, c, n, k, prop, it.val + val);
    SplicedGrown(a, buf[..], prop, PropSize(oldlen), PropSize(newlen));
    SizesDiffer(oldlen, newlen);
  }

  /** fdt_appendprop */
  method AppendProp(buf: array<byte>, offset: int, s: seq<byte>, val: seq<byte>, ghost d: DT, ghost c: Context,
                    ghost n: Item)
    returns (err: int, ghost pad: seq<byte>)
    requires Holds(buf[..], d) && Refers(buf[..], d, offset, c, n) && |val| + buf.Length <= MAX_LEN && NUL !in s
    modifies buf
    ensures BadNode(old(buf[..]), offset) ==> err == ERR_BADOFFSET && buf[..] == old(buf[..])
    ensures !BadNode(old(buf[..]), offset) ==>
              && n.INode?
              && err == (if DataEnd(old(buf[..])) + AppendGrowth(d, n, s, |val|) > Field(old(buf[..]), TOTALSIZE)
                         then ERR_NOSPACE else 0)
              && (err == 0 ==> Holds(buf[..], PropAppended(d, c, n, s, val, pad)))
              && (err == 0 ==> Grown(old(buf[..]), buf[..], AppendGrowth(d, n, s, |val|)))
              && (err != 0 ==> HoldsBut(buf[..], d, s) && NameOnly(old(buf[..]), buf[..], d, s))
  {
    hide Get32, Contents, StructTokens, Off, ReserveBytes, StructSpliced, Patch, HasHead, BadNode, Align4, PropSize,
      IsNode, WithString, StringOff, PropReplaced, PropAdded, NameGrowth, FindProp, Appended, HasString, TagAt, Grown;
    ghost var a := buf[..];
    pad := [];
    HoldsPasses(a, d);
    if !BadNode(a, offset) {
      GoodNode(a, d, offset, c, n);
      FoundFacts(a, d, offset, c, n, s);
      PropResultCases(a, d, c, n, s);
    }
    hide PropResult;
    err := RwCheckHeader(buf);
    if err != 0 {
      return;
    }
    var r := GetProperty(buf, offset, s, d, c, n);
    if r >= 0 {
      err, pad := AppendFound(buf, r, val, d, c, n, FindProp(n.items, d.strings, s).value);
    } else {
      var prop;
      ghost var mid;
      err, prop, mid := AddProperty(buf, offset, s, |val|, d, c, n);
      if err != 0 {
        return;
      }
      AppendedPlace(a, mid, NameGrowth(d.strings, s));
      CopyValue(buf, prop, 0, val, StringOff(d.strings, s), |val|, mid, 0);
      pad := AddedHolds(mid, buf[..], d, c, n, s, prop, val);
      AddedGrown(a, mid, buf[..], d, s, prop, |val|);
    }
  }

  // ---- fdt_delprop ----

  /** `d` without item `k` of node `n`. */
  function ItemDropped(d: DT, c: Context, n: Item, k: nat): DT
    requires n.INode? && k < |n.items|
  {
    d.(root := Plug(c, n.(items := n.items[..k] + [] + n.items[k + 1..])))
  }

  lemma DroppedHolds(a: seq<byte>, b: seq<byte>, d: DT, c: Context, n: Item, k: nat, prop: nat)
    requires Holds(a, d) && IsNode(d, c, n) && k < |n.items| && n.items[k].IProp?
    requires forall j | 0 <= j < k :: !n.items[j].INode?
    requires Index(c) + 1 + k < |StructTokens(d)|
    requires prop == Field(a, OFF_STRUCT) + Off(StructTokens(d), Index(c) + 1 + k)
    requires StructSpliced(a, b, prop, PropSize(|n.items[k].val|), 0) && prop <= |b|
    ensures Holds(b, ItemDropped(d, c, n, k))
  {
    hide Get32, Field, ReserveBytes, StructTokens, ValidTokens, FlatAll, Plug, ItemsBefore, Encode, ValidToken,
      StructSpliced, Readable, GoodHeader, Off, Align4, PropSize;
    WellFormedParts(a, d);
    var it := n.items[k];
    ItemPlace(d, c, n, k);
    ItemToken(d, c, n, k);
    TokenValid(StructTokens(d), Index(c) + 1 + k);
    PropItemSize(it);
    EmptyFlat();
    EmptyBytes();
    assert n.items == n.items[..k] + [it] + n.items[k + 1..];
    HoldsEdited(a, b, d, c, n.name, n.pad, n.items[..k], [it], [], n.items[k + 1..], prop, PropSize(|it.val|), 0);
  }

  /** fdt_delprop */
  method DelProp(buf: array<byte>, offset: int, s: seq<byte>, ghost d: DT, ghost c: Context, ghost n: Item)
    returns (err: int)
    requires Holds(buf[..], d) && Refers(buf[..], d, offset, c, n)
    modifies buf
    ensures BadNode(old(buf[..]), offset) ==> err == ERR_BADOFFSET
    ensures !BadNode(old(buf[..]), offset) ==>
              && n.INode?
              && err == (if FindProp(n.items, d.strings, s).Some? then 0 else ERR_NOTFOUND)
              && (err == 0 ==>
                    var k := FindProp(n.items, d.strings, s).value;
                    && Holds(buf[..], ItemDropped(d, c, n, k))
                    && Grown(old(buf[..]), buf[..], 0 - PropSize(|n.items[k].val|)))
    ensures err != 0 ==> buf[..] == old(buf[..])
  {
    hide Get32, Contents, StructTokens, Off, ReserveBytes, StructSpliced, BadNode, Align4, PropSize, IsNode,
      ItemDropped, FindProp, HasString, TagAt, Grown;
    ghost var a := buf[..];
    HoldsPasses(a, d);
    if !BadNode(a, offset) {
      GoodNode(a, d, offset, c, n);
      FoundFacts(a, d, offset, c, n, s);
      PropResultCases(a, d, c, n, s);
    }
    hide PropResult;
    err := RwCheckHeader(buf);
    if err != 0 {
      return;
    }
    var r := GetProperty(buf, offset, s, d, c, n);
    if r < 0 {
      return r;
    }
    ghost var k := FindProp(n.items, d.strings, s).value;
    FoundAt(a, d, c, n, k);
    var base: int := Read32(buf, OFF_STRUCT);
    var len: int := Read32(buf, base + r + 4);
    err := SpliceStruct(buf, base + r, PropSize(len), 0);
    if err == 0 {
      DroppedHolds(a, buf[..], d, c, n, k, base + r);
      SplicedGrown(a, buf[..], base + r, PropSize(len), 0);
    }
  }

  // ---- fdt_del_node ----

  /** `d` without the node at `c`, which is not the root. */
  function NodeDropped(d: DT, c: Context): DT
    requires c.Inside?
  {
    d.(root := Plug(c.up, INode(c.name, c.pad, c.left + [] + c.right)))
  }

  lemma NodeTokens(d: DT, c: Context, n: Item)
    requires d.root == Plug(c, n) && ValidTokens(StructTokens(d))
    ensures ValidTokens(Before(c)) && ValidTokens(Flat(n)) && ValidTokens(Behind(d, c))
    ensures Index(c) + |Flat(n)| <= |StructTokens(d)|
    ensures Off(StructTokens(d), Index(c)) == |Encode(Before(c))|
    ensures Off(StructTokens(d), Index(c) + |Flat(n)|) == |Encode(Before(c))| + |Encode(Flat(n))|
    ensures |Encode(StructTokens(d))| >= |Encode(Before(c))| + |Encode(Flat(n))|
  {
    hide Flat, Plug, Before, Behind, Encode, ValidTokens, StructTokens, Off;
    NodeSplit(d, c, n);
    var p, x, q := Before(c), Flat(n), Behind(d, c);
    ValidParts(p, x, q);
    assert p + x + q == p + (x + q);
    OffPrefix(p, x + q);
    OffPrefix(p + x, q);
    EncodeAppend(p, x);
    SplitAt(StructTokens(d), |p| + |x|);
  }

  lemma NodeDroppedHolds(a: seq<byte>, b: seq<byte>, d: DT, c: Context, n: Item, at: nat, len: nat)
    requires Holds(a, d) && IsNode(d, c, n) && c.Inside? && Index(c) + |Flat(n)| <= |StructTokens(d)|
    requires at == Field(a, OFF_STRUCT) + Off(StructTokens(d), Index(c))
    requires at + len == Field(a, OFF_STRUCT) + Off(StructTokens(d), Index(c) + |Flat(n)|)
    requires StructSpliced(a, b, at, len, 0) && at <= |b|
    ensures Holds(b, NodeDropped(d, c))
  {
    hide Get32, Field, ReserveBytes, StructTokens, ValidTokens, FlatAll, Flat, Plug, Encode, StructSpliced,
      Readable, GoodHeader, Off, Behind;
    WellFormedParts(a, d);
    NodeTokens(d, c, n);
    FlatAllOne(n);
    EmptyFlat();
    EmptyBytes();
    InsideStep(c, n);
    assert Before(c) == ItemsBefore(c.up, c.name, c.pad, c.left);
    HoldsEdited(a, b, d, c.up, c.name, c.pad, c.left, [n], [], c.right, at, len, 0);
  }

  lemma InsideStep(c: Context, n: Item)
    requires c.Inside?
    ensures Plug(c, n) == Plug(c.up, INode(c.name, c.pad, c.left + [n] + c.right))
    ensures Before(c) == ItemsBefore(c.up, c.name, c.pad, c.left)
  {
  }

  /** fdt_del_node. Deleting the root leaves a structure block with no node in it. */
  method DelNode(buf: array<byte>, offset: int, ghost d: DT, ghost c: Context, ghost n: Item) returns (err: int)
    requires Holds(buf[..], d) && Refers(buf[..], d, offset, c, n)
    modifies buf
    ensures BadNode(old(buf[..]), offset) ==>
              err == (if offset < 0 then offset else ERR_BADOFFSET) && buf[..] == old(buf[..])
    ensures !BadNode(old(buf[..]), offset) ==>
              && err == 0 && ValidTokens(Flat(n))
              && StructSpliced(old(buf[..]), buf[..], Field(old(buf[..]), OFF_STRUCT) + offset, |Encode(Flat(n))|, 0)
              && (c.Inside? ==> Holds(buf[..], NodeDropped(d, c)))
  {
    hide Get32, Contents, StructTokens, Off, ReserveBytes, StructSpliced, TagAt, Flat, Plug, Before, Behind, Encode,
      ValidTokens;
    ghost var a := buf[..];
    HoldsPasses(a, d);
    if !BadNode(a, offset) {
      GoodNode(a, d, offset, c, n);
      NodeTokens(d, c, n);
      WellFormedParts(a, d);
    }
    hide BadNode;
    err := RwCheckHeader(buf);
    if err != 0 {
      return;
    }
    var end := NodeEndOffset(buf, offset, d, c, n);
    if end < 0 {
      return end;
    }
    var base: int := Read32(buf, OFF_STRUCT);
    err := SpliceStruct(buf, base + offset, end - offset, 0);
    if err == 0 && c.Inside? {
      NodeDroppedHolds(a, buf[..], d, c, n, base + offset, end - offset);
    }
  }

  // ---- fdt_add_subnode ----

  /** The counting loop of fdt_add_subnode_namelen on tokens: with `count` nodes open
      before token `j`, where the innermost of them that is open now ends. */
  function ScanToEnd(ts: seq<Token>, j: nat, count: nat): nat
    requires j <= |ts|
    decreases |ts| - j
  {
    if j == |ts| then j
    else match ts[j]
      case Begin(_, _) => ScanToEnd(ts, j + 1, count + 1)
      case EndNode => if count <= 1 then j else ScanToEnd(ts, j + 1, count - 1)
      case End => j
      case _ => ScanToEnd(ts, j + 1, count)
  }

  lemma {:induction false} ScanNode(ts: seq<Token>, j: nat, n: Item, count: nat)
    requires n.INode? && At(ts, j, Flat(n)) && count > 0
    ensures ScanToEnd(ts, j, count) == ScanToEnd(ts, j + |Flat(n)|, count)
    decreases n, 1
  {
    AtNode(ts, j, n);
    hide At;
    ScanList(ts, j + 1, n.items, count + 1);
  }

  lemma {:induction false} ScanList(ts: seq<Token>, j: nat, items: seq<Item>, count: nat)
    requires At(ts, j, FlatAll(items)) && count > 0
    ensures ScanToEnd(ts, j, count) == ScanToEnd(ts, j + |FlatAll(items)|, count)
    decreases items, 0
  {
    if items != [] {
      AtParts(ts, j, Flat(items[0]), FlatAll(items[1..]));
      if items[0].INode? {
        ScanNode(ts, j, items[0], count);
      } else {
        assert ts[j] == ts[j..j + 1][0] == Flat(items[0])[0];
      }
      ScanList(ts, j + |Flat(items[0])|, items[1..], count);
    }
  }

  /** The scan ends at the END_NODE of the node it starts in. */
  lemma ScanFindsEnd(d: DT, c: Context, n: Item)
    requires IsNode(d, c, n)
    ensures var ts, j := StructTokens(d), Index(c) + 1 + |FlatAll(n.items)|;
            Index(c) + 1 < |ts| && j < |ts| && ScanToEnd(ts, Index(c) + 1, 1) == j
  {
    hide Plug, Before, StructTokens, FlatAll;
    NodeSplit(d, c, n);
    AtNode(StructTokens(d), Index(c), n);
    hide Flat;
    ScanList(StructTokens(d), Index(c) + 1, n.items, 1);
  }

  /** The do-while loop of fdt_add_subnode_namelen, from the parent's first item on. */
  method FindEnd(buf: array<byte>, offset: int, ghost ts: seq<Token>, ghost i: nat) returns (r: int)
    requires Reads(buf[..], ts) && i < |ts| && offset == Off(ts, i)
    ensures ScanToEnd(ts, i, 1) < |ts| && r == Off(ts, ScanToEnd(ts, i, 1))
  {
    hide Off, Readable, StructBlock, ValidTokens;
    var off := offset;
    var count := 1;
    ghost var j := i;
    while true
      invariant j < |ts| && off == Off(ts, j) && count >= 1
      invariant ScanToEnd(ts, j, count) == ScanToEnd(ts, i, 1)
      decreases |ts| - j
    {
      var tag, next := TokenTag(buf, off, ts, j);
      if tag == FDT_END {
        return off;
      }
      if tag == FDT_BEGIN_NODE {
        count := count + 1;
      }
      if tag == FDT_END_NODE {
        count := count - 1;
      }
      if count == 0 {
        return off;
      }
      off := next;
      j := j + 1;
    }
  }

  function Zeros(n: nat): (s: seq<byte>)
    ensures |s| == n
  {
    seq(n, _ => NUL)
  }

  /** The empty node fdt_add_subnode makes. */
  function NewNode(name: seq<byte>): Item {
    INode(name, Zeros(Align4(|name| + 1) - |name| - 1), [])
  }

  function NodeSize(namelen: nat): nat { 4 + Align4(namelen + 1) + 4 }

  /** `d` with an empty node of that name as the last child of the node `n` at `c`. */
  function SubnodeAdded(d: DT, c: Context, n: Item, name: seq<byte>): DT
    requires n.INode?
  {
    d.(root := Plug(c, n.(items := n.items + [NewNode(name)] + [])))
  }

  lemma PadOf(namelen: nat)
    ensures 0 <= Align4(namelen + 1) - namelen - 1 < 4 && Align4(namelen + 1) % 4 == 0
  {
  }

  lemma TwoTokenBytes(t: Token, u: Token)
    requires ValidToken(t) && ValidToken(u)
    ensures ValidTokens([t, u]) && Encode([t, u]) == Bytes(t) + Bytes(u)
  {
    hide Bytes;
    OneTokenBytes(u);
    assert [t, u][1..] == [u];
    assert Encode([t, u]) == Bytes(t) + Encode([t, u][1..]);
  }

  lemma NewNodeBytes(name: seq<byte>)
    requires NUL !in name
    ensures ValidTokens(FlatAll([NewNode(name)]))
    ensures Encode(FlatAll([NewNode(name)])) ==
            Enc32(FDT_BEGIN_NODE) + (name + Zeros(Align4(|name| + 1) - |name|)) + Enc32(FDT_END_NODE)
  {
    hide Enc32, Align4;
    PadOf(|name|);
    var pad := Zeros(Align4(|name| + 1) - |name| - 1);
    var t := Begin(name, pad);
    FlatAllOne(NewNode(name));
    assert Flat(NewNode(name)) == [t, EndNode];
    TwoTokenBytes(t, EndNode);
    assert [NUL] + pad == Zeros(Align4(|name| + 1) - |name|);
    assert name + [NUL] + pad == name + ([NUL] + pad);
    assert Bytes(EndNode) == Enc32(FDT_END_NODE);
  }

  lemma NewNodeNames(name: seq<byte>, strings: seq<byte>)
    ensures NamesOk([NewNode(name)], strings)
  {
    var x := [NewNode(name)];
    assert NamesOk(x[1..], strings) && NamesOk(x[0].items, strings);
  }

  /** The stores that fill the new node's bytes. */
  method WriteNode(buf: array<byte>, at: nat, name: seq<byte>, ghost a: seq<byte>)
    requires at + NodeSize(|name|) <= buf.Length && StructSpliced(a, buf[..], at, 0, NodeSize(|name|))
    modifies buf
    ensures StructSpliced(a, buf[..], at, 0, NodeSize(|name|))
    ensures buf[..][at..at + NodeSize(|name|)] ==
            Enc32(FDT_BEGIN_NODE) + (name + Zeros(Align4(|name| + 1) - |name|)) + Enc32(FDT_END_NODE)
  {
    hide Patch, Enc32, StructSpliced, Align4;
    PadOf(|name|);
    var room, size := Align4(|name| + 1), NodeSize(|name|);
    GapWrite(a, buf[..], at, 0, size, at, Enc32(FDT_BEGIN_NODE));
    Write32(buf, at, FDT_BEGIN_NODE);
    GapWrite(a, buf[..], at, 0, size, at + 4, Zeros(room));
    MemCpy(buf, at + 4, Zeros(room));
    GapWrite(a, buf[..], at, 0, size, at + 4, name);
    MemCpy(buf, at + 4, name);
    GapWrite(a, buf[..], at, 0, size, at + size - 4, Enc32(FDT_END_NODE));
    Write32(buf, at + size - 4, FDT_END_NODE);
    NodeWritten(old(buf[..]), at, name, room, size);
  }

  lemma NodeWritten(b: seq<byte>, at: nat, name: seq<byte>, room: nat, size: nat)
    requires |name| < room && size == 4 + room + 4 && at + size <= |b|
    ensures var b4 := Patch(Patch(Patch(Patch(b, at, Enc32(FDT_BEGIN_NODE)), at + 4, Zeros(room)), at + 4, name),
              at + size - 4, Enc32(FDT_END_NODE));
            b4[at..at + size] == Enc32(FDT_BEGIN_NODE) + (name + Zeros(room - |name|)) + Enc32(FDT_END_NODE)
  {
    hide Enc32, Patch;
    var x, z, y := Enc32(FDT_BEGIN_NODE), Zeros(room), Enc32(FDT_END_NODE);
    var b1 := Patch(b, at, x);
    var b2 := Patch(b1, at + 4, z);
    var b3 := Patch(b2, at + 4, name);
    var b4 := Patch(b3, at + size - 4, y);
    PatchData(b, at, x);
    PatchSlices(b1, at + 4, z, at, at + 4);
    PatchSlices(b2, at + 4, name, at, at + 4);
    PatchSlices(b3, at + size - 4, y, at, at + 4);
    PatchData(b1, at + 4, z);
    PatchSlices(b2, at + 4, name, at + 4 + |name|, at + 4 + room);
    PartsEqual(b2, at + 4, at + 4 + room, z, 0, room, |name|, room);
    PatchData(b2, at + 4, name);
    PatchSlices(b3, at + size - 4, y, at + 4, at + 4 + |name|);
    PatchSlices(b3, at + size - 4, y, at + 4 + |name|, at + 4 + room);
    PatchData(b3, at + size - 4, y);
    assert z[|name|..room] == Zeros(room - |name|);
    FourParts(b4, at, at + 4, at + 4 + |name|, at + 4 + room, at + size);
  }

  lemma FourParts(b: seq<byte>, h: nat, i: nat, j: nat, k: nat, l: nat)
    requires h <= i <= j <= k <= l <= |b|
    ensures b[h..l] == b[h..i] + (b[i..j] + b[j..k]) + b[k..l]
  {
    assert b[i..j] + b[j..k] == b[i..k];
    Adjacent(b, h, i, k, l);
  }

  lemma SubnodeAddedHolds(a: seq<byte>, b: seq<byte>, d: DT, c: Context, n: Item, name: seq<byte>, at: nat)
    requires Holds(a, d) && IsNode(d, c, n) && NUL !in name
    requires Index(c) + 1 + |FlatAll(n.items)| < |StructTokens(d)|
    requires at == Field(a, OFF_STRUCT) + Off(StructTokens(d), Index(c) + 1 + |FlatAll(n.items)|)
    requires DataEnd(a) + NodeSize(|name|) <= Field(a, TOTALSIZE)
    requires StructSpliced(a, b, at, 0, NodeSize(|name|)) && at + NodeSize(|name|) <= |b|
    requires b[at..at + NodeSize(|name|)] ==
             Enc32(FDT_BEGIN_NODE) + (name + Zeros(Align4(|name| + 1) - |name|)) + Enc32(FDT_END_NODE)
    ensures Holds(b, SubnodeAdded(d, c, n, name))
  {
    hide Get32, Field, ReserveBytes, StructTokens, ValidTokens, FlatAll, Plug, Encode, StructSpliced, Readable,
      GoodHeader, Off, Enc32, Align4, NewNode;
    WellFormedParts(a, d);
    NewNodeBytes(name);
    NewNodeNames(name, d.strings);
    EmptyFlat();
    EmptyBytes();
    assert n.items == n.items + [] + [];
    EndPlace(d, c, n);
    HoldsEdited(a, b, d, c, n.name, n.pad, n.items, [], [NewNode(name)], [], at, 0, NodeSize(|name|));
  }

  /** Where a node's items end. */
  lemma EndPlace(d: DT, c: Context, n: Item)
    requires IsNode(d, c, n) && ValidTokens(StructTokens(d)) && Index(c) + 1 + |FlatAll(n.items)| < |StructTokens(d)|
    ensures ValidTokens(ItemsBefore(c, n.name, n.pad, n.items))
    ensures |Encode(ItemsBefore(c, n.name, n.pad, n.items))| == Off(StructTokens(d), Index(c) + 1 + |FlatAll(n.items)|)
  {
    hide FlatAll, Plug, Before, After, Tail, Encode, ValidTokens, Off;
    var p := ItemsBefore(c, n.name, n.pad, n.items);
    assert n.items + [] + [] == n.items;
    ItemsSplit(d, c, n.name, n.pad, n.items, [], []);
    var q := ItemsAfter(d.nops, c, []);
    assert FlatAll([]) == [] by { EmptyFlat(); }
    assert p + [] + q == p + q;
    OffPrefix(p, q);
  }

  /** A node written one byte before the structure block leaves no readable root. */
  lemma RootLost(b: seq<byte>, name: seq<byte>, at: nat)
    requires Readable(b) && Field(b, OFF_STRUCT) == at + 1 && at + NodeSize(|name|) <= |b|
    requires Field(b, SIZE_STRUCT) >= NodeSize(|name|)
    requires b[at..at + NodeSize(|name|)] ==
             Enc32(FDT_BEGIN_NODE) + (name + Zeros(Align4(|name| + 1) - |name|)) + Enc32(FDT_END_NODE)
    ensures BadNode(b, 0)
  {
    hide Align4, Get32;
    PadOf(|name|);
    assert b[at..at + 4] == b[at..at + NodeSize(|name|)][..4] == Enc32(FDT_BEGIN_NODE);
    OneInBytes();
    assert b[at + 1] == b[at..at + 4][1] && b[at + 2] == b[at..at + 4][2] && b[at + 3] == b[at..at + 4][3];
    ShiftedWord(b, at + 1);
    WordInBlock(b, 0);
  }

  lemma OneInBytes()
    ensures Enc32(1) == [0, 0, 0, 1]
  {
    assert Enc(0, 1) == [0] && Enc(0, 2) == [0, 0] && Enc(0, 3) == [0, 0, 0];
  }

  lemma ShiftedWord(b: seq<byte>, o: nat)
    requires o + 4 <= |b| && b[o] == 0 && b[o + 1] == 0 && b[o + 2] == 1
    ensures Get32(b, o) == 0x100 + b[o + 3] as int
  {
    BeFour(0, 0, 1, b[o + 3]);
    assert b[o..o + 4] == [0, 0, 1, b[o + 3]];
  }

  /** fdt_add_subnode_namelen. The one bad parent offset it does not reject is the error
      code of a failed lookup: it then writes the node over the start of the structure
      block and the root can no longer be read. */
  method AddSubnode(buf: array<byte>, parent: int, name: seq<byte>, ghost d: DT, ghost c: Context, ghost n: Item)
    returns (r: int)
    requires Holds(buf[..], d) && Refers(buf[..], d, parent, c, n) && NUL !in name && |name| <= MAX_LEN
    modifies buf
    ensures BadNode(old(buf[..]), parent) && parent != ERR_NOTFOUND ==>
              r == if parent < 0 then parent else ERR_BADOFFSET
    ensures parent == ERR_NOTFOUND ==>
              if DataEnd(old(buf[..])) + NodeSize(|name|) > Field(old(buf[..]), TOTALSIZE) then r == ERR_NOSPACE
              else r == ERR_NOTFOUND && Readable(buf[..]) && BadNode(buf[..], 0)
    ensures !BadNode(old(buf[..]), parent) ==>
              && n.INode? && Index(c) + 1 + |FlatAll(n.items)| < |StructTokens(d)|
              && var end := Off(StructTokens(d), Index(c) + 1 + |FlatAll(n.items)|);
                 && r == (if FindChild(n.items, name) < |n.items| then ERR_EXISTS
                          else if DataEnd(old(buf[..])) + NodeSize(|name|) > Field(old(buf[..]), TOTALSIZE)
                            then ERR_NOSPACE
                          else end)
                 && (r >= 0 ==>
                       && Holds(buf[..], SubnodeAdded(d, c, n, name))
                       && StructSpliced(old(buf[..]), buf[..], Field(old(buf[..]), OFF_STRUCT) + end, 0,
                            NodeSize(|name|)))
    ensures r < 0 && !(parent == ERR_NOTFOUND && r == ERR_NOTFOUND) ==> buf[..] == old(buf[..])
  {
    hide Get32, Contents, StructTokens, Off, ReserveBytes, StructSpliced, TagAt, Flat, Plug, Before, Encode,
      ValidTokens, FlatAll, FindChild, Align4, NodeSize, SubnodeAdded, Reads;
    ghost var a := buf[..];
    HoldsPasses(a, d);
    ContentsReads(a, d);
    if !BadNode(a, parent) {
      GoodNode(a, d, parent, c, n);
      ScanFindsEnd(d, c, n);
      SubnodeCases(d, c, n, name);
      EndInBlock(a, d, c, n);
    } else if parent < 0 {
      TagAtNegative(StructBlock(a), parent);
    }
    var err := RwCheckHeader(buf);
    if err != 0 {
      return err;
    }
    var offset := SubnodeOffset(buf, parent, name, d, c, n);
    if offset >= 0 {
      return ERR_EXISTS;
    } else if offset != ERR_NOTFOUND {
      return offset;
    }
    var tag, next := NextTag(buf, parent);
    if tag == FDT_BEGIN_NODE {
      offset := FindEnd(buf, next, StructTokens(d), Index(c) + 1);
    }
    var base: int := Read32(buf, OFF_STRUCT);
    var at: nat := base + offset;
    err := SpliceStruct(buf, at, 0, NodeSize(|name|));
    if err != 0 {
      return err;
    }
    WriteNode(buf, at, name, a);
    if offset >= 0 {
      SubnodeAddedHolds(a, buf[..], d, c, n, name, at);
    } else {
      Misplaced(a, buf[..], d, name, at);
    }
    return offset;
  }

  /** The search for the name, as the first test of fdt_add_subnode_namelen sees it. */
  lemma SubnodeCases(d: DT, c: Context, n: Item, name: seq<byte>)
    requires IsNode(d, c, n) && ValidTokens(StructTokens(d))
    ensures FindChild(n.items, name) == |n.items| ==> SubnodeResult(d, c, n, name) == ERR_NOTFOUND
    ensures FindChild(n.items, name) < |n.items| ==> SubnodeResult(d, c, n, name) >= 0
  {
    hide Plug, Before, StructTokens, Off;
    var k := FindChild(n.items, name);
    if k < |n.items| {
      NodeSplit(d, c, n);
      FlatAllSplit(n.items, k);
    }
  }

  lemma EndInBlock(a: seq<byte>, d: DT, c: Context, n: Item)
    requires Holds(a, d) && IsNode(d, c, n) && Index(c) + 1 + |FlatAll(n.items)| < |StructTokens(d)|
    ensures ValidTokens(StructTokens(d))
    ensures Off(StructTokens(d), Index(c) + 1 + |FlatAll(n.items)|) <= Field(a, SIZE_STRUCT)
  {
    hide Get32, FlatAll, StructTokens, Encode, ReserveBytes, Off;
    SplitAt(StructTokens(d), Index(c) + 1 + |FlatAll(n.items)|);
  }

  lemma Misplaced(a: seq<byte>, b: seq<byte>, d: DT, name: seq<byte>, at: nat)
    requires Holds(a, d) && at + 1 == Field(a, OFF_STRUCT)
    requires StructSpliced(a, b, at, 0, NodeSize(|name|)) && at + NodeSize(|name|) <= |b|
    requires DataEnd(a) + NodeSize(|name|) <= Field(a, TOTALSIZE)
    requires b[at..at + NodeSize(|name|)] ==
             Enc32(FDT_BEGIN_NODE) + (name + Zeros(Align4(|name| + 1) - |name|)) + Enc32(FDT_END_NODE)
    ensures Readable(b) && BadNode(b, 0)
  {
    hide Get32, Contents, ReserveBytes, Enc32, HeaderKept, BadNode, Align4, Field;
    Kept(a, b, {SIZE_STRUCT, OFF_STRINGS}, OFF_STRUCT);
    Kept(a, b, {SIZE_STRUCT, OFF_STRINGS}, VERSION);
    RootLost(b, name, at);
  }
}
