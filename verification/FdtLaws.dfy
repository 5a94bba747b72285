/** What the edits mean for a later reader: a property set is the property read, a node
    added is the node found, deleting it again restores the bytes. */
module FdtLaws {
  import opened BigEndian
  import opened Word32
  import opened Options
  import opened FdtTokens
  import opened FdtTree
  import opened FdtBlob
  import opened FdtRead
  import opened FdtNodes
  import opened FdtProps
  import opened FdtSplice
  import opened FdtEdit
  import opened FdtStrings
  import opened FdtRw
  import opened FdtNodeRw

  /** The value a reader gets for property `s`. */
  function Lookup(items: seq<Item>, strings: seq<byte>, s: seq<byte>): Option<seq<byte>> {
    match FindProp(items, strings, s)
    case None => None
    case Some(k) => Some(items[k].val)
  }

  /** fdt_getprop: the bytes at the returned pointer, of the returned length. */
  method GetProp(buf: array<byte>, offset: int, s: seq<byte>, ghost d: DT, ghost c: Context, ghost n: Item)
    returns (r: Option<seq<byte>>)
    requires Contents(buf[..], d) && Refers(buf[..], d, offset, c, n)
    ensures BadNode(buf[..], offset) ==> r == None
    ensures !BadNode(buf[..], offset) ==> n.INode? && r == Lookup(n.items, d.strings, s)
  {
    hide Get32, Contents, StructTokens, Off, Align4, PropSize, IsNode, FindProp, HasString, TagAt;
    ContentsReads(buf[..], d);
    if !BadNode(buf[..], offset) {
      GoodNode(buf[..], d, offset, c, n);
      FoundFacts(buf[..], d, offset, c, n, s);
      PropResultCases(buf[..], d, c, n, s);
    }
    hide PropResult;
    var p := GetProperty(buf, offset, s, d, c, n);
    if p < 0 {
      return None;
    }
    ghost var k := FindProp(n.items, d.strings, s).value;
    FoundAt(buf[..], d, c, n, k);
    var base: int := Read32(buf, OFF_STRUCT);
    var len: int := Read32(buf, base + p + 4);
    assert buf[..][base + p + 12..base + p + 12 + len] == buf[base + p + 12..base + p + 12 + len];
    r := Some(buf[base + p + 12..base + p + 12 + len]);
  }

  // ---- set, then get ----

  /** Growing the strings block changes no lookup, when all names resolved before. */
  lemma {:induction false} LookupGrow(items: seq<Item>, strings: seq<byte>, more: seq<byte>, s: seq<byte>)
    requires NamesOk(items, strings)
    ensures FindProp(items, strings + more, s) == FindProp(items, strings, s)
  {
    if items != [] {
      if items[0].IProp? {
        NamedGrow(strings, more, items[0].nameoff);
      }
      LookupGrow(items[1..], strings, more, s);
    }
  }

  /** A first property of name `s` shadows nothing but earlier values of `s`. */
  lemma LookupFirst(items: seq<Item>, p: Item, strings: seq<byte>, s: seq<byte>, t: seq<byte>)
    requires p.IProp? && Named(strings, p.nameoff, s)
    ensures Lookup([] + [p] + items, strings, t) == if t == s then Some(p.val) else Lookup(items, strings, t)
  {
    hide HasString;
    assert ([] + [p] + items)[1..] == items;
  }

  /** Replacing the value of the property found for `s` changes the lookup of `s` alone. */
  lemma {:induction false} LookupReplaced(items: seq<Item>, k: nat, p: Item, strings: seq<byte>, s: seq<byte>,
                                          t: seq<byte>)
    requires FindProp(items, strings, s) == Some(k) && p.IProp? && p.nameoff == items[k].nameoff
    ensures Lookup(items[..k] + [p] + items[k + 1..], strings, t) ==
            if t == s then Some(p.val) else Lookup(items, strings, t)
    decreases |items|
  {
    hide HasString, StringAt;
    var items' := items[..k] + [p] + items[k + 1..];
    if k == 0 {
      assert items'[1..] == items[1..];
    } else {
      assert items'[0] == items[0];
      assert items'[1..] == items[1..][..k - 1] + [p] + items[1..][k..];
      LookupReplaced(items[1..], k - 1, p, strings, s, t);
    }
  }

  /** The node at `c` after fdt_setprop. */
  function NodeSet(d: DT, n: Item, s: seq<byte>, val: seq<byte>, pad: seq<byte>): Item
    requires n.INode?
  {
    match FindProp(n.items, d.strings, s)
    case Some(k) => n.(items := n.items[..k] + [IProp(n.items[k].nameoff, val, pad)] + n.items[k + 1..])
    case None =>
      var off: u32 := if StringOff(d.strings, s) <= MAX_INT then StringOff(d.strings, s) else 0;
      n.(items := [] + [IProp(off, val, pad)] + n.items)
  }

  /** After fdt_setprop the reader finds the new value under that name and the old value
      under every other; the node keeps its surroundings, its offset and its children. */
  lemma SetThenGet(d: DT, c: Context, n: Item, s: seq<byte>, val: seq<byte>, pad: seq<byte>, t: seq<byte>)
    requires IsNode(d, c, n) && NameOk(n, d.strings) && NUL !in s && StringOff(d.strings, s) <= MAX_INT
    ensures var e, m := PropSet(d, c, n, s, val, pad), NodeSet(d, n, s, val, pad);
            && IsNode(e, c, m) && m.name == n.name
            && Lookup(m.items, e.strings, t) == (if t == s then Some(val) else Lookup(n.items, d.strings, t))
  {
    hide Plug, HasString, StringAt, NamesOk, WithString, StringOff;
    match FindProp(n.items, d.strings, s)
    case Some(k) =>
      LookupReplaced(n.items, k, IProp(n.items[k].nameoff, val, pad), d.strings, s, t);
    case None =>
      WithStringNames(d.strings, s);
      var off: u32 := StringOff(d.strings, s);
      LookupFirst(n.items, IProp(off, val, pad), WithString(d.strings, s), s, t);
      LookupWith(n.items, d.strings, s, t);
  }

  lemma LookupWith(items: seq<Item>, strings: seq<byte>, s: seq<byte>, t: seq<byte>)
    requires NamesOk(items, strings)
    ensures FindProp(items, WithString(strings, s), t) == FindProp(items, strings, t)
  {
    hide FindString, HasString;
    LookupGrow(items, strings, s + [NUL], t);
  }

  /** The offset of a node depends only on what comes before it. */
  lemma PlaceKept(d: DT, c: Context, n: Item, e: DT, m: Item)
    requires d.root == Plug(c, n) && e.root == Plug(c, m)
    requires ValidTokens(StructTokens(d)) && ValidTokens(StructTokens(e))
    ensures Index(c) <= |StructTokens(d)| && Index(c) <= |StructTokens(e)| && NodeOff(d, c) == NodeOff(e, c)
  {
    hide Plug, StructTokens, Off, ValidTokens, Encode, Before, Flat;
    NodeTokens(d, c, n);
    NodeTokens(e, c, m);
  }

  // ---- add, then find; add, then delete ----

  lemma {:induction false} FindChildAppend(items: seq<Item>, m: Item, s: seq<byte>)
    requires FindChild(items, s) == |items| && m.INode? && m.name == s
    ensures FindChild(items + [m], s) == |items|
  {
    if items != [] {
      assert (items + [m])[1..] == items[1..] + [m];
      FindChildAppend(items[1..], m, s);
    }
  }

  /** fdt_subnode_offset finds the node fdt_add_subnode made, at the offset it returned. */
  lemma AddThenFind(d: DT, c: Context, n: Item, name: seq<byte>)
    requires IsNode(d, c, n) && FindChild(n.items, name) == |n.items|
    requires ValidTokens(StructTokens(d)) && ValidTokens(StructTokens(SubnodeAdded(d, c, n, name)))
    ensures var e, m := SubnodeAdded(d, c, n, name), n.(items := n.items + [NewNode(name)] + []);
            && Index(c) + 1 + |FlatAll(n.items)| <= |StructTokens(d)|
            && IsNode(e, c, m)
            && SubnodeResult(e, c, m, name) == Off(StructTokens(d), Index(c) + 1 + |FlatAll(n.items)|)
  {
    hide Plug, StructTokens, ValidTokens, FlatAll, NewNode, Off, ItemsBefore, Encode, Before, FindChild;
    var e, m := SubnodeAdded(d, c, n, name), n.(items := n.items + [NewNode(name)] + []);
    NewNodeName(name);
    FindChildAppend(n.items, NewNode(name), name);
    assert m.items == n.items + [NewNode(name)] && m.items[..|n.items|] == n.items;
    EndInNode(d, c, n);
    EndPlace(d, c, n);
    EndPlaceIn(e, c, m, |n.items|);
  }

  lemma NewNodeName(name: seq<byte>)
    ensures NewNode(name).INode? && NewNode(name).name == name
  {
  }

  lemma EndInNode(d: DT, c: Context, n: Item)
    requires IsNode(d, c, n)
    ensures Index(c) + 1 + |FlatAll(n.items)| < |StructTokens(d)|
  {
    hide Plug, Before;
    NodeSplit(d, c, n);
  }

  /** Where item `k` of a node starts. */
  lemma EndPlaceIn(d: DT, c: Context, n: Item, k: nat)
    requires IsNode(d, c, n) && ValidTokens(StructTokens(d)) && k <= |n.items|
    ensures ValidTokens(ItemsBefore(c, n.name, n.pad, n.items[..k]))
    ensures Index(c) + 1 + |FlatAll(n.items[..k])| <= |StructTokens(d)|
    ensures |Encode(ItemsBefore(c, n.name, n.pad, n.items[..k]))| ==
              Off(StructTokens(d), Index(c) + 1 + |FlatAll(n.items[..k])|)
  {
    hide FlatAll, Plug, Before, After, Tail, Encode, ValidTokens, Off;
    var p := ItemsBefore(c, n.name, n.pad, n.items[..k]);
    assert n.items[..k] + [] + n.items[k..] == n.items;
    ItemsSplit(d, c, n.name, n.pad, n.items[..k], [], n.items[k..]);
    var q := ItemsAfter(d.nops, c, n.items[k..]);
    assert FlatAll([]) == [] by { EmptyFlat(); }
    assert p + [] + q == p + q;
    OffPrefix(p, q);
  }

  /** Cutting out exactly what was spliced in restores the used part of the blob, byte for byte:
      fdt_del_node undoes fdt_add_subnode. */
  lemma SpliceUndone(a: seq<byte>, b: seq<byte>, z: seq<byte>, at: nat, len: nat)
    requires StructSpliced(a, b, at, 0, len) && StructSpliced(b, z, at, len, 0)
    ensures |a| == |z| && z[HEADER_SIZE..DataEnd(a)] == a[HEADER_SIZE..DataEnd(a)]
    ensures HeaderKept(a, z, {})
  {
    hide Get32, Field, HeaderKept;
    var h, end := HEADER_SIZE, DataEnd(a);
    SplicedEnd(a, b, at, 0, len);
    SplicedEnd(b, z, at, len, 0);
    assert z[h..end] == z[h..at] + z[at..end];
    assert a[h..end] == a[h..at] + a[at..end];
    HeaderRestored(a, b, z, len);
  }

  lemma HeaderRestored(a: seq<byte>, b: seq<byte>, z: seq<byte>, len: nat)
    requires StructResized(a, b, len) && StructResized(b, z, 0 - len as int)
    ensures HeaderKept(a, z, {})
  {
    hide Field;
    var except := {SIZE_STRUCT, OFF_STRINGS};
    KeptTrans(a, b, except, z, except);
    forall f | f in FIELDS
      ensures Field(a, f) == Field(z, f)
    {
      if f !in except {
        Kept(a, z, except + except, f);
      }
    }
  }

  // ---- fdt_set_name ----

  /** `d` with the node at `c` renamed. */
  function Renamed(d: DT, c: Context, n: Item, name: seq<byte>, pad: seq<byte>): DT
    requires n.INode?
  {
    d.(root := Plug(c, n.(name := name, pad := pad)))
  }

  lemma BeginSize(t: Token)
    requires t.Begin? && ValidToken(t)
    ensures |Bytes(t)| == 4 + Align4(|t.name| + 1)
  {
    hide Enc32;
    PadFills(|t.name| + 1, t.pad);
  }

  /** Tag, name, NUL and filler make up a BEGIN_NODE token. */
  lemma BeginMade(x: seq<byte>, name: seq<byte>)
    requires NUL !in name && |x| == 4 + Align4(|name| + 1)
    requires Get32(x, 0) == FDT_BEGIN_NODE && x[4..5 + |name|] == name + [NUL]
    ensures var t := Begin(name, x[5 + |name|..]); ValidToken(t) && Bytes(t) == x
  {
    hide Get32, Enc32;
    WordIs(x, 0);
    PadOf(|name|);
    assert x == x[0..4] + (x[4..5 + |name|] + x[5 + |name|..]);
  }

  lemma RenamedSplit(d: DT, c: Context, n: Item)
    requires IsNode(d, c, n)
    ensures StructTokens(d) == Before(c) + [Begin(n.name, n.pad)] + (FlatAll(n.items) + [EndNode] + Behind(d, c))
  {
    hide Plug, Before, FlatAll, Behind, StructTokens;
    NodeSplit(d, c, n);
    assert Flat(n) == [Begin(n.name, n.pad)] + (FlatAll(n.items) + [EndNode]);
  }

  lemma RenamedHolds(a: seq<byte>, b: seq<byte>, d: DT, c: Context, n: Item, at: nat, name: seq<byte>)
    returns (pad: seq<byte>)
    requires Holds(a, d) && IsNode(d, c, n) && Index(c) <= |StructTokens(d)| && NUL !in name
    requires at == Field(a, OFF_STRUCT) + Off(StructTokens(d), Index(c))
    requires var old', new' := 4 + Align4(|n.name| + 1), 4 + Align4(|name| + 1);
             && DataEnd(a) - old' + new' <= Field(a, TOTALSIZE)
             && StructSpliced(a, b, at, old', new') && at + new' <= |b|
             && Get32(b, at) == FDT_BEGIN_NODE && b[at + 4..at + 5 + |name|] == name + [NUL]
    ensures Holds(b, Renamed(d, c, n, name, pad))
  {
    hide Field, ReserveBytes, StructTokens, ValidTokens, FlatAll, Flat, Plug, Encode, StructSpliced, Readable,
      GoodHeader, Off, Before, Behind, Align4, Bytes, ValidToken, NameOk;
    WellFormedParts(a, d);
    RenamedSplit(d, c, n);
    PadOf(|n.name|);
    PadOf(|name|);
    var x := b[at..at + 4 + Align4(|name| + 1)];
    SubWord(b, at, at + |x|, 0);
    SliceSlice(b, at, at + |x|, 4, 5 + |name|);
    BeginMade(x, name);
    pad := x[5 + |name|..];
    var e, old', new' := Renamed(d, c, n, name, pad), Begin(n.name, n.pad), Begin(name, pad);
    RenamedSplit(e, c, n.(name := name, pad := pad));
    var q := FlatAll(n.items) + [EndNode] + Behind(d, c);
    assert Behind(d, c) == Behind(e, c) by { SameBehind(d, e, c); }
    ValidParts(Before(c), [old'], q);
    OneTokenBytes(new');
    TokenValid([old'], 0);
    OneTokenBytes(old');
    BeginSize(old');
    SwappedBytes(d, e, Before(c), [old'], [new'], q);
    NodeTokens(d, c, n);
    RenamedNames(d, c, n, name, pad);
    HoldsAfter(a, b, d, e, at, |Bytes(old')|, |x|);
  }

  lemma SameBehind(d: DT, e: DT, c: Context)
    requires d.nops == e.nops
    ensures Behind(d, c) == Behind(e, c)
  {
  }

  lemma RenamedNames(d: DT, c: Context, n: Item, name: seq<byte>, pad: seq<byte>)
    requires IsNode(d, c, n) && NameOk(d.root, d.strings)
    ensures NameOk(Renamed(d, c, n, name, pad).root, d.strings) && Renamed(d, c, n, name, pad).root.INode?
  {
    hide NamesOk, HasString;
    PlugNameOk(c, n, d.strings);
    PlugNameOk(c, n.(name := name, pad := pad), d.strings);
    PlugIsNode(c, n.(name := name, pad := pad));
  }

  lemma NulInSlice(b: seq<byte>, lo: nat, hi: nat, name: seq<byte>, rest: seq<byte>)
    requires lo <= hi <= |b| && b[lo..hi] == name + [NUL] + rest && NUL !in name
    ensures NulFrom(b, lo) == lo + |name|
  {
    var x := b[lo..hi];
    assert x[..|name|] == name && x[|name|] == NUL;
    NulFromUnique(x, 0, |name|);
    StringInBuffer(b, lo, hi, 0);
  }

  /** The name of the node at token `i`, and what follows it, in the buffer. */
  lemma NameStretch(b: seq<byte>, ts: seq<Token>, i: nat) returns (hi: nat, rest: seq<byte>)
    requires Reads(b, ts) && i < |ts| && ts[i].Begin?
    ensures var p := Field(b, OFF_STRUCT) + Off(ts, i) + 4;
            p <= hi <= |b| && b[p..hi] == ts[i].name + [NUL] + rest && NUL !in ts[i].name
  {
    hide Field, Encode, Off, NulFrom, StructBlock, ValidTokens;
    rest := NameBytes(ts, i);
    BlockTail(b, Off(ts, i) + 4);
    hi := Field(b, OFF_STRUCT) + Field(b, SIZE_STRUCT);
  }

  /** The NUL that ends a node's name, in the buffer. */
  lemma NameEnd(b: seq<byte>, ts: seq<Token>, i: nat)
    requires Reads(b, ts) && i < |ts| && ts[i].Begin?
    ensures var p := Field(b, OFF_STRUCT) + Off(ts, i) + 4;
            p <= |b| && NulFrom(b, p) == p + |ts[i].name|
  {
    hide Field, Encode, Off, NulFrom, StructBlock, ValidTokens;
    var hi, rest := NameStretch(b, ts, i);
    NulInSlice(b, Field(b, OFF_STRUCT) + Off(ts, i) + 4, hi, ts[i].name, rest);
  }

  lemma BlockTail(b: seq<byte>, o: nat)
    requires Readable(b) && o <= |StructBlock(b)|
    ensures var base, size := Field(b, OFF_STRUCT), Field(b, SIZE_STRUCT);
            o <= size && base + size <= |b| && StructBlock(b)[o..] == b[base + o..base + size]
  {
    hide Field;
    var base, size := Field(b, OFF_STRUCT), Field(b, SIZE_STRUCT);
    SliceSlice(b, base, base + size, o, size);
    assert StructBlock(b)[o..] == StructBlock(b)[o..size];
  }

  /** strlen of the name of the node at struct offset `offset`. */
  method NameLen(buf: array<byte>, offset: nat, ghost ts: seq<Token>, ghost i: nat) returns (len: nat)
    requires Reads(buf[..], ts) && i < |ts| && ts[i].Begin? && offset == Off(ts, i)
    ensures len == |ts[i].name|
  {
    hide Get32, Encode, ValidTokens, Off, StructBlock;
    NameEnd(buf[..], ts, i);
    var base: int := Read32(buf, OFF_STRUCT);
    var z := NulFrom(buf[..], base + offset + 4);
    len := z - (base + offset + 4);
  }

  /** The new name stored into the gap behind the node's tag word. */
  lemma NameWritten(a: seq<byte>, b: seq<byte>, at: nat, oldlen: nat, newlen: nat, data: seq<byte>)
    requires StructSpliced(a, b, at + 4, oldlen, newlen) && HEADER_SIZE <= at && |data| <= newlen
    ensures at + 4 + newlen <= |b| == |a|
    ensures var e := Patch(b, at + 4, data);
            && StructSpliced(a, e, at, 4 + oldlen, 4 + newlen)
            && Get32(e, at) == Get32(a, at) && e[at + 4..at + 4 + |data|] == data
  {
    hide Get32, Field, HeaderKept, StructResized, Patch;
    Widen(a, b, at + 4, oldlen, newlen, 4);
    GapWrite(a, b, at, 4 + oldlen, 4 + newlen, at + 4, data);
    PatchData(b, at + 4, data);
    PatchWords(b, at + 4, data, at);
    SameWord(a, b, at);
  }

  /** fdt_set_name */
  method SetName(buf: array<byte>, offset: int, name: seq<byte>, ghost d: DT, ghost c: Context, ghost n: Item)
    returns (err: int, ghost pad: seq<byte>)
    requires Holds(buf[..], d) && Refers(buf[..], d, offset, c, n) && NUL !in name && |name| <= MAX_LEN
    modifies buf
    ensures BadNode(old(buf[..]), offset) ==> err == ERR_BADOFFSET
    ensures !BadNode(old(buf[..]), offset) ==>
              && n.INode?
              && err == (if DataEnd(old(buf[..])) - Align4(|n.name| + 1) + Align4(|name| + 1)
                            > Field(old(buf[..]), TOTALSIZE)
                         then ERR_NOSPACE else 0)
              && (err == 0 ==> Holds(buf[..], Renamed(d, c, n, name, pad)))
              && (err == 0 ==> Grown(old(buf[..]), buf[..], Align4(|name| + 1) - Align4(|n.name| + 1)))
    ensures err != 0 ==> buf[..] == old(buf[..])
  {
    hide Get32, Contents, StructTokens, Off, ReserveBytes, StructSpliced, TagAt, Flat, Plug, Before, Encode,
      ValidTokens, FlatAll, Align4, Reads, Patch, Renamed, Bytes, Grown;
    ghost var a := buf[..];
    pad := [];
    HoldsPasses(a, d);
    ContentsReads(a, d);
    err := RwCheckHeader(buf);
    if err != 0 {
      return;
    }
    if !BadNode(a, offset) {
      GoodNode(a, d, offset, c, n);
      NodeWord(a, d, offset, c, n);
    }
    err := CheckHdr(buf);
    if err != 0 {
      return;
    }
    err := CheckNodeOffset(buf, offset);
    if err < 0 {
      return;
    }
    var oldlen := NameLen(buf, offset, StructTokens(d), Index(c));
    var base: int := Read32(buf, OFF_STRUCT);
    err, pad := StoreName(buf, base + offset, oldlen, name, d, c, n);
  }

  /** The splice of fdt_set_name and the copy after it. */
  method StoreName(buf: array<byte>, at: nat, oldlen: nat, name: seq<byte>, ghost d: DT, ghost c: Context,
                   ghost n: Item)
    returns (err: int, ghost pad: seq<byte>)
    requires Holds(buf[..], d) && IsNode(d, c, n) && NUL !in name && |name| <= MAX_LEN && oldlen == |n.name|
    requires Index(c) < |StructTokens(d)| && at == Field(buf[..], OFF_STRUCT) + Off(StructTokens(d), Index(c))
    requires StructTokens(d)[Index(c)] == Begin(n.name, n.pad)
    requires at + 4 + Align4(|n.name| + 1) <= Field(buf[..], OFF_STRUCT) + Field(buf[..], SIZE_STRUCT)
    requires Get32(buf[..], at) == FDT_BEGIN_NODE
    modifies buf
    ensures err == if DataEnd(old(buf[..])) - Align4(|n.name| + 1) + Align4(|name| + 1)
                      > Field(old(buf[..]), TOTALSIZE)
                   then ERR_NOSPACE else 0
    ensures err == 0 ==> Holds(buf[..], Renamed(d, c, n, name, pad))
    ensures err == 0 ==> Grown(old(buf[..]), buf[..], Align4(|name| + 1) - Align4(|n.name| + 1))
    ensures err != 0 ==> buf[..] == old(buf[..])
  {
    hide Get32, Contents, StructTokens, Off, ReserveBytes, StructSpliced, Flat, Plug, Before, Encode,
      ValidTokens, FlatAll, Align4, Patch, Renamed, Bytes, Grown;
    ghost var a := buf[..];
    pad := [];
    PadOf(oldlen);
    PadOf(|name|);
    err := SpliceStruct(buf, at + 4, Align4(oldlen + 1), Align4(|name| + 1));
    if err != 0 {
      return;
    }
    NameWritten(a, buf[..], at, Align4(oldlen + 1), Align4(|name| + 1), name + [NUL]);
    MemCpy(buf, at + 4, name + [NUL]);
    pad := RenamedHolds(a, buf[..], d, c, n, at, name);
    SplicedGrown(a, buf[..], at, 4 + Align4(oldlen + 1), 4 + Align4(|name| + 1));
  }

  /** A node's own token in the buffer. */
  lemma NodeWord(a: seq<byte>, d: DT, offset: int, c: Context, n: Item)
    requires Holds(a, d) && Refers(a, d, offset, c, n) && !BadNode(a, offset)
    ensures n.INode? && Index(c) < |StructTokens(d)| && StructTokens(d)[Index(c)] == Begin(n.name, n.pad)
    ensures CheckHeader(a) == 0 && offset == Off(StructTokens(d), Index(c))
    ensures var at := Field(a, OFF_STRUCT) + offset;
            && at + 4 + Align4(|n.name| + 1) <= Field(a, OFF_STRUCT) + Field(a, SIZE_STRUCT)
            && Get32(a, at) == FDT_BEGIN_NODE
  {
    hide Get32, ReserveBytes, Flat, Plug, Before, Behind, Encode, FlatAll, Align4, Off, TagAt;
    NodeSplit(d, c, n);
    AtNode(StructTokens(d), Index(c), n);
    var tail := TokenFrom(StructTokens(d), Index(c));
    var st, t := StructBlock(a), Begin(n.name, n.pad);
    BeginSize(t);
    hide StructTokens, Contents, ValidTokens, BadNode;
    WordInBlock(a, offset);
    BeginTag(t, tail);
    SubWord(st, offset, |st|, 0);
    assert st[offset..|st|] == st[offset..] == Bytes(t) + tail;
  }

  lemma BeginTag(t: Token, tail: seq<byte>)
    requires t.Begin? && ValidToken(t)
    ensures Get32(Bytes(t) + tail, 0) == FDT_BEGIN_NODE
  {
    hide Enc32;
    assert (Bytes(t) + tail)[0..4] == Enc32(FDT_BEGIN_NODE);
  }
}
