/** The in-place functions: overwriting a property value, a property or a node with NOPs. */
module FdtWip {
  import opened BigEndian
  import opened FdtTokens
  import opened FdtTree
  import opened FdtBlob
  import opened FdtRead
  import opened FdtNodes
  import opened FdtProps
  import opened FdtSplice
  import opened FdtEdit
  import opened FdtRw
  import opened FdtNodeRw
  import opened FdtPlaces

  // ---- the decoded tree, free of NOPs and filler ----

  datatype Tree = Tree(name: seq<byte>, props: seq<(seq<byte>, seq<byte>)>, kids: seq<Tree>)

  function NameOr(strings: seq<byte>, off: nat): seq<byte> {
    if HasString(strings, off) then StringAt(strings, off) else []
  }

  /** Names and values of the properties, in order. */
  function Props(items: seq<Item>, strings: seq<byte>): seq<(seq<byte>, seq<byte>)> {
    if items == [] then []
    else
      (if items[0].IProp? then [(NameOr(strings, items[0].nameoff), items[0].val)] else [])
      + Props(items[1..], strings)
  }

  function Kids(items: seq<Item>, strings: seq<byte>): seq<Tree>
    decreases items
  {
    if items == [] then []
    else (if items[0].INode? then [Decode(items[0], strings)] else []) + Kids(items[1..], strings)
  }

  /** What a node means: its name, its properties and its children. */
  function Decode(n: Item, strings: seq<byte>): Tree
    decreases n
  {
    match n
    case INode(name, _, items) => Tree(name, Props(items, strings), Kids(items, strings))
    case _ => Tree([], [], [])
  }

  lemma PropsStep(x: Item, items: seq<Item>, strings: seq<byte>)
    ensures Props([x] + items, strings) ==
            (if x.IProp? then [(NameOr(strings, x.nameoff), x.val)] else []) + Props(items, strings)
  {
    hide NameOr;
    assert ([x] + items)[1..] == items;
  }

  lemma KidsStep(x: Item, items: seq<Item>, strings: seq<byte>)
    ensures Kids([x] + items, strings) == (if x.INode? then [Decode(x, strings)] else []) + Kids(items, strings)
  {
    hide Decode;
    assert ([x] + items)[1..] == items;
  }

  lemma {:induction false} PropsAppend(a: seq<Item>, b: seq<Item>, strings: seq<byte>)
    ensures Props(a + b, strings) == Props(a, strings) + Props(b, strings)
    decreases |a|
  {
    if a == [] {
      assert a + b == b;
    } else {
      hide Props, NameOr;
      var x, tail := a[0], a[1..];
      PropsAppend(tail, b, strings);
      assert a + b == [x] + (tail + b) && a == [x] + tail;
      PropsStep(x, tail + b, strings);
      PropsStep(x, tail, strings);
    }
  }

  lemma {:induction false} KidsAppend(a: seq<Item>, b: seq<Item>, strings: seq<byte>)
    ensures Kids(a + b, strings) == Kids(a, strings) + Kids(b, strings)
    decreases |a|
  {
    if a == [] {
      assert a + b == b;
    } else {
      KidsAppend(a[1..], b, strings);
      assert a + b == [a[0]] + (a[1..] + b);
      KidsStep(a[0], a[1..] + b, strings);
      KidsStep(a[0], a[1..], strings);
      assert a == [a[0]] + a[1..];
    }
  }

  function NopItems(k: nat): (items: seq<Item>)
    ensures |items| == k
  {
    if k == 0 then [] else [INop] + NopItems(k - 1)
  }

  lemma {:induction false} NopsMeanNothing(k: nat, strings: seq<byte>)
    ensures Props(NopItems(k), strings) == [] && Kids(NopItems(k), strings) == []
  {
    if k > 0 {
      NopsMeanNothing(k - 1, strings);
      assert NopItems(k)[1..] == NopItems(k - 1);
    }
  }

  /** A node that means the same makes every tree around it mean the same. */
  lemma {:induction false} DecodePlug(c: Context, m: Item, n: Item, strings: seq<byte>)
    requires m.INode? && n.INode? && Decode(m, strings) == Decode(n, strings)
    ensures Decode(Plug(c, m), strings) == Decode(Plug(c, n), strings)
  {
    match c
    case Top =>
    case Inside(up, name, pad, left, right) =>
      var x, y := left + [m] + right, left + [n] + right;
      PropsAppend(left + [m], right, strings);
      PropsAppend(left, [m], strings);
      PropsAppend(left + [n], right, strings);
      PropsAppend(left, [n], strings);
      KidsAppend(left + [m], right, strings);
      KidsAppend(left, [m], strings);
      KidsAppend(left + [n], right, strings);
      KidsAppend(left, [n], strings);
      assert Props([m], strings) == Props([n], strings) by { assert [m][1..] == [n][1..] == []; }
      assert Kids([m], strings) == Kids([n], strings) by { assert [m][1..] == [n][1..] == []; }
      DecodePlug(up, INode(name, pad, x), INode(name, pad, y), strings);
  }

  /** NOPs in place of items mean the same as the items gone. */
  lemma NopsMeanGone(c: Context, name: seq<byte>, pad: seq<byte>, left: seq<Item>, k: nat, right: seq<Item>,
                     strings: seq<byte>)
    ensures Decode(Plug(c, INode(name, pad, left + NopItems(k) + right)), strings)
         == Decode(Plug(c, INode(name, pad, left + [] + right)), strings)
  {
    hide Props, Kids;
    var x, y := left + NopItems(k) + right, left + [] + right;
    NopsMeanNothing(k, strings);
    assert y == left + right;
    PropsAppend(left + NopItems(k), right, strings);
    PropsAppend(left, NopItems(k), strings);
    PropsAppend(left, right, strings);
    KidsAppend(left + NopItems(k), right, strings);
    KidsAppend(left, NopItems(k), strings);
    KidsAppend(left, right, strings);
    DecodePlug(c, INode(name, pad, x), INode(name, pad, y), strings);
  }

  // ---- _fdt_nop_region ----

  function NopBytes(k: nat): (s: seq<byte>)
    ensures |s| == 4 * k
  {
    if k == 0 then [] else Enc32(FDT_NOP) + NopBytes(k - 1)
  }

  lemma {:induction false} NopBytesSnoc(k: nat)
    ensures NopBytes(k + 1) == NopBytes(k) + Enc32(FDT_NOP)
  {
    hide Enc32;
    if k > 0 {
      NopBytesSnoc(k - 1);
    }
  }

  lemma {:induction false} NopItemsBytes(k: nat)
    ensures ValidTokens(FlatAll(NopItems(k))) && Encode(FlatAll(NopItems(k))) == NopBytes(k)
  {
    hide Enc32;
    if k > 0 {
      NopItemsBytes(k - 1);
      assert NopItems(k)[1..] == NopItems(k - 1);
      assert FlatAll(NopItems(k)) == [Nop] + FlatAll(NopItems(k - 1));
      assert FlatAll(NopItems(k))[1..] == FlatAll(NopItems(k - 1));
      assert Bytes(Nop) == Enc32(FDT_NOP) + [];
    }
  }

  lemma {:induction false} NopItemsNames(k: nat, strings: seq<byte>)
    ensures NamesOk(NopItems(k), strings)
  {
    if k > 0 {
      NopItemsNames(k - 1, strings);
      assert NopItems(k)[1..] == NopItems(k - 1);
    }
  }

  /** Number of words _fdt_nop_region writes for a region of `len` bytes. */
  function Words(len: nat): nat { (len + 3) / 4 }

  /** _fdt_nop_region: whole words, so up to three bytes past `len`. */
  method NopRegion(buf: array<byte>, start: nat, len: nat)
    requires start + 4 * Words(len) <= buf.Length
    modifies buf
    ensures buf[..] == Patch(old(buf[..]), start, NopBytes(Words(len)))
  {
    hide Enc32, Patch;
    ghost var a := buf[..];
    ghost var k := 0;
    var p := start;
    PatchNothing(a, start);
    while p < start + len
      invariant p == start + 4 * k && k <= Words(len)
      invariant buf[..] == Patch(a, start, NopBytes(k))
    {
      PatchMore(a, start, NopBytes(k), Enc32(FDT_NOP));
      NopBytesSnoc(k);
      Write32(buf, p, FDT_NOP);
      p := p + 4;
      k := k + 1;
    }
  }

  /** Overwriting a stretch in place is a splice that moves nothing. */
  lemma PatchedInPlace(a: seq<byte>, at: nat, data: seq<byte>)
    requires HEADER_SIZE <= |a| && HEADER_SIZE <= at && at + |data| <= DataEnd(a) <= |a|
    ensures StructSpliced(a, Patch(a, at, data), at, |data|, |data|)
    ensures Patch(a, at, data)[at..at + |data|] == data
  {
    hide Patch, Field;
    PatchSlices(a, at, data, HEADER_SIZE, at);
    PatchSlices(a, at, data, at + |data|, DataEnd(a));
    PatchSlices(a, at, data, DataEnd(a), |a|);
    PatchKeepsHeader(a, at, data);
    PatchData(a, at, data);
    Kept(a, Patch(a, at, data), {}, SIZE_STRUCT);
    Kept(a, Patch(a, at, data), {}, OFF_STRINGS);
  }

  lemma SelfSpliced(a: seq<byte>, at: nat, len: nat)
    requires HEADER_SIZE <= |a| && HEADER_SIZE <= at && at + len <= DataEnd(a) <= |a|
    ensures StructSpliced(a, a, at, len, len)
  {
  }

  // ---- NOPs move nothing else ----

  lemma {:induction false} NopItemsFlat(k: nat)
    ensures FlatAll(NopItems(k)) == Nops(k)
  {
    if k > 0 {
      NopItemsFlat(k - 1);
      assert NopItems(k)[1..] == NopItems(k - 1);
    }
  }

  /** An item replaced by NOPs of its size: every offset outside it stays valid. */
  lemma NoppedStays(b: seq<byte>, d: DT, c: Context, name: seq<byte>, pad: seq<byte>, left: seq<Item>, it: Item,
                    w: nat, right: seq<Item>)
    requires d.root == Plug(c, INode(name, pad, left + [it] + right)) && ValidTokens(StructTokens(d))
    requires Contents(b, d.(root := Plug(c, INode(name, pad, left + NopItems(w) + right))))
    requires ValidTokens(Flat(it)) && |Encode(Flat(it))| == 4 * w
    ensures OffsetsStay(b, d, d.(root := Plug(c, INode(name, pad, left + NopItems(w) + right))),
                        |ItemsBefore(c, name, pad, left)|, |Flat(it)|, w)
  {
    hide Contents, StructTokens, Flat, FlatAll, Plug, ItemsBefore, ItemsAfter, Encode, NopItems, NopBytes, OffsetsStay;
    var e := d.(root := Plug(c, INode(name, pad, left + NopItems(w) + right)));
    NopItemsFlat(w);
    NopItemsBytes(w);
    FlatAllOne(it);
    ItemsSwapped(d, c, name, pad, left, [it], NopItems(w), right);
    SwappedBytes(d, e, ItemsBefore(c, name, pad, left), FlatAll([it]), FlatAll(NopItems(w)),
      ItemsAfter(d.nops, c, right));
    AllStay(b, d, e, ItemsBefore(c, name, pad, left), it, ItemsAfter(d.nops, c, right), w);
  }

  // ---- fdt_nop_property ----

  /** `d` with property `k` of node `n` replaced by as many NOPs as it has words. */
  function PropNopped(d: DT, c: Context, n: Item, k: nat): DT
    requires n.INode? && k < |n.items| && n.items[k].IProp?
  {
    d.(root := Plug(c, n.(items := n.items[..k] + NopItems(Words(PropSize(|n.items[k].val|))) + n.items[k + 1..])))
  }

  lemma NoppedHolds(a: seq<byte>, b: seq<byte>, d: DT, c: Context, n: Item, k: nat, prop: nat)
    requires Holds(a, d) && IsNode(d, c, n) && k < |n.items| && n.items[k].IProp?
    requires forall j | 0 <= j < k :: !n.items[j].INode?
    requires Index(c) + 1 + k < |StructTokens(d)|
    requires prop == Field(a, OFF_STRUCT) + Off(StructTokens(d), Index(c) + 1 + k)
    requires var size := PropSize(|n.items[k].val|);
             && StructSpliced(a, b, prop, size, size) && prop + size <= |b|
             && size == 4 * Words(size) && b[prop..prop + size] == NopBytes(Words(size))
    ensures Holds(b, PropNopped(d, c, n, k))
  {
    hide Get32, Field, ReserveBytes, StructTokens, ValidTokens, FlatAll, Plug, ItemsBefore, Encode, ValidToken,
      StructSpliced, Readable, GoodHeader, Off, Align4, PropSize, Words, NopBytes, NopItems;
    WellFormedParts(a, d);
    var it := n.items[k];
    var w := Words(PropSize(|it.val|));
    ItemPlace(d, c, n, k);
    ItemToken(d, c, n, k);
    TokenValid(StructTokens(d), Index(c) + 1 + k);
    PropItemSize(it);
    NopItemsBytes(w);
    NopItemsNames(w, d.strings);
    assert n.items == n.items[..k] + [it] + n.items[k + 1..];
    HoldsEdited(a, b, d, c, n.name, n.pad, n.items[..k], [it], NopItems(w), n.items[k + 1..],
                prop, PropSize(|it.val|), PropSize(|it.val|));
  }

  lemma PropWords(len: nat)
    ensures Words(len + 12) == Words(PropSize(len)) && 4 * Words(PropSize(len)) == PropSize(len)
  {
  }

  /** Only the `len` bytes from token `i` of the structure block on may have changed. */
  ghost predicate ChangedAt(a: seq<byte>, b: seq<byte>, d: DT, i: nat, len: nat) {
    && HEADER_SIZE <= |a| == |b| && ValidTokens(StructTokens(d)) && i <= |StructTokens(d)|
    && var at := Field(a, OFF_STRUCT) + Off(StructTokens(d), i);
       at + len <= |a| && a[..at] == b[..at] && a[at + len..] == b[at + len..]
  }

  /** `b` is `a` with property `k` of `n` turned into NOPs: only its own bytes changed, and
      the tree means the same as with the property dropped. */
  ghost predicate PropertyGone(a: seq<byte>, b: seq<byte>, d: DT, c: Context, n: Item, k: nat)
    requires n.INode? && k < |n.items| && n.items[k].IProp?
  {
    && Holds(b, PropNopped(d, c, n, k))
    && Decode(PropNopped(d, c, n, k).root, d.strings) == Decode(ItemDropped(d, c, n, k).root, d.strings)
    && ChangedAt(a, b, d, Index(c) + 1 + k, PropSize(|n.items[k].val|))
    && OffsetsStay(b, d, PropNopped(d, c, n, k), Index(c) + 1 + k, 1, Words(PropSize(|n.items[k].val|)))
  }

  lemma NoppedPropStays(b: seq<byte>, d: DT, c: Context, n: Item, k: nat)
    requires IsNode(d, c, n) && k < |n.items| && n.items[k].IProp? && ValidTokens(StructTokens(d))
    requires 4 * Words(PropSize(|n.items[k].val|)) == PropSize(|n.items[k].val|)
    requires forall j | 0 <= j < k :: !n.items[j].INode?
    requires Contents(b, PropNopped(d, c, n, k))
    ensures OffsetsStay(b, d, PropNopped(d, c, n, k), Index(c) + 1 + k, 1, Words(PropSize(|n.items[k].val|)))
  {
    hide Contents, StructTokens, ValidTokens, FlatAll, Plug, Encode, Off, PropSize, Words, NopItems, OffsetsStay,
      ValidToken;
    var it, left, right := n.items[k], n.items[..k], n.items[k + 1..];
    ItemToken(d, c, n, k);
    TokenValid(StructTokens(d), Index(c) + 1 + k);
    PropItemSize(it);
    FlatAllOne(it);
    SingleTokens(left);
    assert n.items == left + [it] + right;
    NoppedStays(b, d, c, n.name, n.pad, left, it, Words(PropSize(|it.val|)), right);
  }

  lemma PropertyNopped(a: seq<byte>, b: seq<byte>, d: DT, c: Context, n: Item, k: nat, at: nat)
    requires HEADER_SIZE <= |a| && ValidTokens(StructTokens(d))
    requires n.INode? && k < |n.items| && n.items[k].IProp? && Index(c) + 1 + k < |StructTokens(d)|
    requires at == Field(a, OFF_STRUCT) + Off(StructTokens(d), Index(c) + 1 + k)
    requires HEADER_SIZE <= at && at + PropSize(|n.items[k].val|) <= DataEnd(a) <= |a|
    requires 4 * Words(PropSize(|n.items[k].val|)) == PropSize(|n.items[k].val|)
    requires b == Patch(a, at, NopBytes(Words(PropSize(|n.items[k].val|))))
    requires forall j | 0 <= j < k :: !n.items[j].INode?
    requires Holds(a, d) && IsNode(d, c, n)
    ensures PropertyGone(a, b, d, c, n, k)
  {
    hide Get32, Field, Holds, StructTokens, Off, StructSpliced, PropSize, IsNode, Patch, Words, NopBytes, Decode, Plug,
      OffsetsStay;
    var len := |n.items[k].val|;
    var size, w := PropSize(len), Words(PropSize(len));
    PatchedInPlace(a, at, NopBytes(w));
    NoppedHolds(a, b, d, c, n, k, at);
    NopsMeanGone(c, n.name, n.pad, n.items[..k], w, n.items[k + 1..], d.strings);
    PatchSlices(a, at, NopBytes(w), 0, at);
    PatchSlices(a, at, NopBytes(w), at + size, |a|);
    OutsideKept(a, b, at, at + size);
    HoldsContents(b, PropNopped(d, c, n, k));
    NoppedPropStays(b, d, c, n, k);
  }

  lemma HoldsContents(b: seq<byte>, d: DT)
    requires Holds(b, d)
    ensures Contents(b, d)
  {
    hide Contents, GoodHeader, Ordered, ReserveBytes;
  }

  /** fdt_nop_property: only the property's own bytes change, the tree then means the same as
      after fdt_delprop, and every offset outside the property stays valid. */
  method NopProperty(buf: array<byte>, offset: int, s: seq<byte>, ghost d: DT, ghost c: Context, ghost n: Item)
    returns (err: int)
    requires Holds(buf[..], d) && Refers(buf[..], d, offset, c, n)
    modifies buf
    ensures BadNode(old(buf[..]), offset) ==> err == ERR_BADOFFSET
    ensures !BadNode(old(buf[..]), offset) ==>
              && n.INode?
              && err == (if FindProp(n.items, d.strings, s).Some? then 0 else ERR_NOTFOUND)
              && (err == 0 ==> PropertyGone(old(buf[..]), buf[..], d, c, n, FindProp(n.items, d.strings, s).value))
    ensures err != 0 ==> buf[..] == old(buf[..])
  {
    hide Get32, Contents, StructTokens, Off, ReserveBytes, StructSpliced, Align4, PropSize, IsNode, Patch,
      FindProp, HasString, TagAt, Words, NopBytes, PropertyGone, Plug;
    ghost var a := buf[..];
    ContentsReads(a, d);
    if !BadNode(a, offset) {
      GoodNode(a, d, offset, c, n);
      FoundFacts(a, d, offset, c, n, s);
      PropResultCases(a, d, c, n, s);
    }
    hide PropResult;
    var r := GetProperty(buf, offset, s, d, c, n);
    if r < 0 {
      return r;
    }
    ghost var k := FindProp(n.items, d.strings, s).value;
    FoundAt(a, d, c, n, k);
    var base: int := Read32(buf, OFF_STRUCT);
    var at: nat := base + r;
    var len: int := Read32(buf, at + 4);
    PropWords(len);
    NopRegion(buf, at, len + 12);
    PropertyNopped(a, buf[..], d, c, n, k, at);
    err := 0;
  }

  lemma OutsideKept(a: seq<byte>, b: seq<byte>, i: nat, j: nat)
    requires i <= j <= |a| == |b| && a[0..i] == b[0..i] && a[j..|a|] == b[j..|b|]
    ensures a[..i] == b[..i] && a[j..] == b[j..]
  {
  }

  // ---- fdt_nop_node ----

  /** `d` with the node at `c` replaced by NOPs. */
  function NodeNopped(d: DT, c: Context, words: nat): DT
    requires c.Inside?
  {
    d.(root := Plug(c.up, INode(c.name, c.pad, c.left + NopItems(words) + c.right)))
  }

  lemma NodeNoppedHolds(a: seq<byte>, b: seq<byte>, d: DT, c: Context, n: Item, at: nat, len: nat)
    requires Holds(a, d) && IsNode(d, c, n) && c.Inside? && Index(c) + |Flat(n)| <= |StructTokens(d)|
    requires at == Field(a, OFF_STRUCT) + Off(StructTokens(d), Index(c))
    requires at + len == Field(a, OFF_STRUCT) + Off(StructTokens(d), Index(c) + |Flat(n)|)
    requires StructSpliced(a, b, at, len, len) && at + len <= |b| && len == 4 * Words(len)
    requires b[at..at + len] == NopBytes(Words(len))
    ensures Holds(b, NodeNopped(d, c, Words(len)))
  {
    hide Get32, Field, ReserveBytes, StructTokens, ValidTokens, FlatAll, Flat, Plug, Encode, StructSpliced, Readable,
      GoodHeader, Off, Behind, Words, NopBytes, NopItems;
    WellFormedParts(a, d);
    NodeTokens(d, c, n);
    FlatAllOne(n);
    NopItemsBytes(Words(len));
    NopItemsNames(Words(len), d.strings);
    InsideStep(c, n);
    assert Before(c) == ItemsBefore(c.up, c.name, c.pad, c.left);
    HoldsEdited(a, b, d, c.up, c.name, c.pad, c.left, [n], NopItems(Words(len)), c.right, at, len, len);
  }

  /** `b` is `a` with the node at `c` turned into NOPs: the tree means the same as without the
      node, and every offset outside it stays valid. */
  ghost predicate NodeGone(b: seq<byte>, d: DT, c: Context, n: Item, words: nat)
    requires c.Inside?
  {
    && Holds(b, NodeNopped(d, c, words))
    && Decode(NodeNopped(d, c, words).root, d.strings) == Decode(NodeDropped(d, c).root, d.strings)
    && OffsetsStay(b, d, NodeNopped(d, c, words), Index(c), |Flat(n)|, words)
  }

  lemma NodeIsGone(a: seq<byte>, b: seq<byte>, d: DT, c: Context, n: Item, at: nat, len: nat)
    requires Holds(a, d) && IsNode(d, c, n) && c.Inside? && Index(c) + |Flat(n)| <= |StructTokens(d)|
    requires at == Field(a, OFF_STRUCT) + Off(StructTokens(d), Index(c))
    requires at + len == Field(a, OFF_STRUCT) + Off(StructTokens(d), Index(c) + |Flat(n)|)
    requires StructSpliced(a, b, at, len, len) && at + len <= |b|
    requires len == 4 * Words(len) && b[at..at + len] == NopBytes(Words(len))
    ensures NodeGone(b, d, c, n, Words(len))
  {
    NodeNoppedHolds(a, b, d, c, n, at, len);
    WellFormedParts(a, d);
    NodeTokens(d, c, n);
    hide Get32, Field, Holds, StructTokens, ValidTokens, Flat, Plug, Before, Encode, StructSpliced, Off, Words,
      NopBytes, Decode, OffsetsStay, NopItems;
    NopsMeanGone(c.up, c.name, c.pad, c.left, Words(len), c.right, d.strings);
    InsideStep(c, n);
    HoldsContents(b, NodeNopped(d, c, Words(len)));
    NoppedStays(b, d, c.up, c.name, c.pad, c.left, n, Words(len), c.right);
  }

  lemma NodeWords(d: DT, c: Context, n: Item)
    requires d.root == Plug(c, n) && ValidTokens(StructTokens(d)) && Index(c) + |Flat(n)| <= |StructTokens(d)|
    ensures var len := Off(StructTokens(d), Index(c) + |Flat(n)|) - Off(StructTokens(d), Index(c));
            len >= 0 && len == 4 * Words(len)
  {
    hide Plug, Before, Flat, StructTokens, Encode, Off, ValidTokens, Behind, Words;
    NodeTokens(d, c, n);
    FourWords(|Encode(Flat(n))|);
  }

  lemma FourWords(len: nat)
    requires len % 4 == 0
    ensures len == 4 * Words(len)
  {
  }

  /** fdt_nop_node: only the node's own bytes change, the tree then means the same as after
      fdt_del_node, and every offset outside the node stays valid. */
  method NopNode(buf: array<byte>, offset: int, ghost d: DT, ghost c: Context, ghost n: Item) returns (err: int)
    requires Holds(buf[..], d) && Refers(buf[..], d, offset, c, n)
    modifies buf
    ensures BadNode(old(buf[..]), offset) ==>
              err == (if offset < 0 then offset else ERR_BADOFFSET) && buf[..] == old(buf[..])
    ensures !BadNode(old(buf[..]), offset) ==>
              && err == 0 && ValidTokens(Flat(n))
              && var at, len := Field(old(buf[..]), OFF_STRUCT) + offset, |Encode(Flat(n))|;
                 && at + len <= buf.Length && buf[..at] == old(buf[..at]) && buf[at + len..] == old(buf[at + len..])
                 && (c.Inside? ==> NodeGone(buf[..], d, c, n, Words(len)))
  {
    hide Get32, Contents, StructTokens, Off, ReserveBytes, StructSpliced, TagAt, Flat, Plug, Before, Behind, Encode,
      ValidTokens, Patch, Words, NopBytes, Decode, NodeGone;
    ghost var a := buf[..];
    ContentsReads(a, d);
    if !BadNode(a, offset) {
      GoodNode(a, d, offset, c, n);
      NodeTokens(d, c, n);
      NodeWords(d, c, n);
      WellFormedParts(a, d);
    }
    hide BadNode;
    var end := NodeEndOffset(buf, offset, d, c, n);
    if end < 0 {
      return end;
    }
    var base: int := Read32(buf, OFF_STRUCT);
    var at: nat, len: nat := base + offset, end - offset;
    PatchedInPlace(a, at, NopBytes(Words(len)));
    NopRegion(buf, at, len);
    PatchSlices(a, at, NopBytes(Words(len)), 0, at);
    PatchSlices(a, at, NopBytes(Words(len)), at + len, |a|);
    OutsideKept(a, buf[..], at, at + len);
    if c.Inside? {
      NodeIsGone(a, buf[..], d, c, n, at, len);
    }
    err := 0;
  }

  // ---- fdt_setprop_inplace ----

  /** Only the value of the property at token `i` has been written. */
  ghost predicate ValueWritten(a: seq<byte>, b: seq<byte>, d: DT, i: nat, val: seq<byte>) {
    && HEADER_SIZE <= |a| && ValidTokens(StructTokens(d)) && i <= |StructTokens(d)|
    && var at := Field(a, OFF_STRUCT) + Off(StructTokens(d), i) + 12;
       at + |val| <= |a| && b == Patch(a, at, val)
  }

  /** fdt_setprop_inplace: a value of the same length only, and no byte but its own changes. */
  method SetPropInplace(buf: array<byte>, offset: int, s: seq<byte>, val: seq<byte>, ghost d: DT, ghost c: Context,
                        ghost n: Item)
    returns (err: int, ghost pad: seq<byte>)
    requires Holds(buf[..], d) && Refers(buf[..], d, offset, c, n) && |val| <= MAX_LEN
    modifies buf
    ensures BadNode(old(buf[..]), offset) ==> err == ERR_BADOFFSET
    ensures !BadNode(old(buf[..]), offset) ==>
              && n.INode?
              && match FindProp(n.items, d.strings, s)
                 case None => err == ERR_NOTFOUND
                 case Some(k) =>
                   if |val| != |n.items[k].val| then err == ERR_NOSPACE
                   else
                     && err == 0 && Holds(buf[..], PropReplaced(d, c, n, k, val, pad))
                     && ValueWritten(old(buf[..]), buf[..], d, Index(c) + 1 + k, val)
    ensures err != 0 ==> buf[..] == old(buf[..])
  {
    hide Get32, Contents, StructTokens, Off, ReserveBytes, StructSpliced, Align4, PropSize, IsNode, Patch,
      FindProp, HasString, TagAt, PropReplaced;
    ghost var a := buf[..];
    pad := [];
    ContentsReads(a, d);
    if !BadNode(a, offset) {
      GoodNode(a, d, offset, c, n);
      FoundFacts(a, d, offset, c, n, s);
      PropResultCases(a, d, c, n, s);
    }
    hide PropResult;
    var r := GetProperty(buf, offset, s, d, c, n);
    if r < 0 {
      return r, pad;
    }
    ghost var k := FindProp(n.items, d.strings, s).value;
    FoundAt(a, d, c, n, k);
    var base: int := Read32(buf, OFF_STRUCT);
    var at: nat := base + r;
    var len: int := Read32(buf, at + 4);
    if len != |val| {
      return ERR_NOSPACE, pad;
    }
    SelfSpliced(a, at, PropSize(len));
    CopyValue(buf, at, 0, val, n.items[k].nameoff, len, a, PropSize(len));
    pad := ReplacedHolds(a, buf[..], d, c, n, k, at, val);
    err := 0;
  }
}

