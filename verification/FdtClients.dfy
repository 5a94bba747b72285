/** Two calls on one buffer: fdt_del_node undoes fdt_add_subnode byte for byte, fdt_getprop reads
    what fdt_setprop wrote, and fdt_path_offset looks up what fdt_get_path wrote. */
module FdtClients {
  import opened Options
  import opened BigEndian
  import opened FdtTokens
  import opened FdtTree
  import opened FdtBlob
  import opened FdtRead
  import opened FdtNodes
  import opened FdtSplice
  import opened FdtProps
  import opened FdtStrings
  import opened FdtRw
  import opened FdtNodeRw
  import opened FdtLaws
  import opened FdtPath

  /** The new node in its surroundings, and the bytes it takes. */
  lemma NewNodePlace(b: seq<byte>, d: DT, c: Context, n: Item, name: seq<byte>, r: int) returns (c': Context)
    requires IsNode(d, c, n) && FindChild(n.items, name) == |n.items| && NUL !in name && ValidTokens(StructTokens(d))
    requires Index(c) + 1 + |FlatAll(n.items)| < |StructTokens(d)|
    requires r == Off(StructTokens(d), Index(c) + 1 + |FlatAll(n.items)|)
    requires Holds(b, SubnodeAdded(d, c, n, name))
    ensures Refers(b, SubnodeAdded(d, c, n, name), r, c', NewNode(name)) && !BadNode(b, r)
    ensures ValidTokens(Flat(NewNode(name))) && |Encode(Flat(NewNode(name)))| == NodeSize(|name|)
  {
    hide StructTokens, Flat, FlatAll, NewNode, Off, Plug, Before, Encode, FindChild, BadNode, ReserveBytes, Field,
      ValidTokens, SubnodeAdded, NodeSize;
    var e, m, k := SubnodeAdded(d, c, n, name), n.(items := n.items + [NewNode(name)] + []), |n.items|;
    ContentsReads(b, e);
    AddedIs(d, c, n, name);
    AddThenFind(d, c, n, name);
    assert m.items == n.items + [NewNode(name)] && m.items[..k] == n.items && m.items[k] == NewNode(name);
    NewNodeName(name);
    c' := ChildContext(c, m, k);
    ChildIsNode(e, c, m, k);
    EndPlace(d, c, n);
    EndPlaceIn(e, c, m, k);
    NodeIsGood(b, e, c', NewNode(name));
    NewNodeSize(name);
  }

  lemma AddedIs(d: DT, c: Context, n: Item, name: seq<byte>)
    requires n.INode?
    ensures SubnodeAdded(d, c, n, name).root == Plug(c, n.(items := n.items + [NewNode(name)] + []))
  {
  }

  lemma NewNodeSize(name: seq<byte>)
    requires NUL !in name
    ensures ValidTokens(Flat(NewNode(name))) && |Encode(Flat(NewNode(name)))| == NodeSize(|name|)
  {
    hide Encode, Enc32, Align4;
    PadOf(|name|);
    NewNodeBytes(name);
    FlatAllOne(NewNode(name));
  }

  lemma StructStays(a: seq<byte>, b: seq<byte>, at: nat, oldlen: nat, newlen: nat)
    requires StructSpliced(a, b, at, oldlen, newlen)
    ensures Field(a, OFF_STRUCT) == Field(b, OFF_STRUCT)
  {
    hide Field;
    Kept(a, b, {SIZE_STRUCT, OFF_STRINGS}, OFF_STRUCT);
  }

  /** A client that adds a subnode and at once deletes it again: header fields, reservations,
      structure and strings are afterwards the bytes they were. */
  method AddThenDelete(buf: array<byte>, parent: int, name: seq<byte>, ghost d: DT, ghost c: Context, ghost n: Item)
    returns (r: int)
    requires Holds(buf[..], d) && Refers(buf[..], d, parent, c, n) && !BadNode(buf[..], parent)
    requires NUL !in name && |name| <= MAX_LEN
    modifies buf
    ensures HeaderKept(old(buf[..]), buf[..], {})
    ensures var end := DataEnd(old(buf[..]));
            HEADER_SIZE <= end <= buf.Length && buf[HEADER_SIZE..end] == old(buf[HEADER_SIZE..end])
  {
    hide Get32, Field, Contents, StructTokens, Off, ReserveBytes, StructSpliced, HeaderKept, Flat, FlatAll, Plug,
      Before, Encode, ValidTokens, FindChild, NodeSize, SubnodeAdded, NewNode, BadNode, Refers;
    ghost var a := buf[..];
    ContentsReads(a, d);
    GoodNode(a, d, parent, c, n);
    r := AddSubnode(buf, parent, name, d, c, n);
    if r >= 0 {
      ghost var b := buf[..];
      ghost var c' := NewNodePlace(b, d, c, n, name, r);
      var err := DelNode(buf, r, SubnodeAdded(d, c, n, name), c', NewNode(name));
      StructStays(a, b, Field(a, OFF_STRUCT) + r, 0, NodeSize(|name|));
      SpliceUndone(a, b, buf[..], Field(a, OFF_STRUCT) + r, NodeSize(|name|));
    } else {
      KeptSelf(a, {});
    }
  }

  // ---- set, then read ----

  /** The node whose property was set, in the blob that fdt_setprop left. */
  lemma SetPlace(a: seq<byte>, b: seq<byte>, d: DT, c: Context, n: Item, offset: int, s: seq<byte>, val: seq<byte>,
                 pad: seq<byte>,
                 t: seq<byte>)
    requires Holds(a, d) && Refers(a, d, offset, c, n) && !BadNode(a, offset) && NUL !in s && n.INode?
    requires Holds(b, PropSet(d, c, n, s, val, pad))
    ensures var e, m := PropSet(d, c, n, s, val, pad), NodeSet(d, n, s, val, pad);
            && m.INode? && Refers(b, e, offset, c, m) && !BadNode(b, offset)
            && Lookup(m.items, e.strings, t) == (if t == s then Some(val) else Lookup(n.items, d.strings, t))
  {
    hide Get32, Field, Contents, StructTokens, Off, ReserveBytes, Flat, FlatAll, Plug, Before, Encode, ValidTokens,
      BadNode, PropSet, NodeSet, Lookup, StringOff, GoodHeader, Ordered;
    var e, m := PropSet(d, c, n, s, val, pad), NodeSet(d, n, s, val, pad);
    GoodNode(a, d, offset, c, n);
    ContentsReads(a, d);
    ContentsReads(b, e);
    ContentsNames(a, d);
    PlugNameOk(c, n, d.strings);
    StringOffBound(a, d, s);
    SetThenGet(d, c, n, s, val, pad, t);
    PlaceKept(d, c, n, e, m);
    NodeIsGood(b, e, c, m);
  }

  lemma StringOffBound(a: seq<byte>, d: DT, s: seq<byte>)
    requires Contents(a, d)
    ensures StringOff(d.strings, s) <= MAX_INT
  {
    hide Get32, ReserveBytes, WellFormed, StructTokens;
  }

  /** A client that sets a property and reads one back: the bytes just set under that name,
      what was there before under every other. */
  method SetThenRead(buf: array<byte>, offset: int, s: seq<byte>, val: seq<byte>, t: seq<byte>, ghost d: DT,
                     ghost c: Context, ghost n: Item)
    returns (err: int, r: Option<seq<byte>>)
    requires Holds(buf[..], d) && Refers(buf[..], d, offset, c, n) && !BadNode(buf[..], offset)
    requires |val| <= MAX_LEN && NUL !in s
    modifies buf
    ensures n.INode? && err == if DataEnd(old(buf[..])) + SetGrowth(d, n, s, |val|) > Field(old(buf[..]), TOTALSIZE)
              then ERR_NOSPACE else 0
    ensures err == 0 ==> r == if t == s then Some(val) else Lookup(n.items, d.strings, t)
  {
    hide Get32, Field, Contents, StructTokens, Off, ReserveBytes, StructSpliced, Flat, FlatAll, Plug, Before, Encode,
      ValidTokens, BadNode, Refers, PropSet, NodeSet, Lookup, HoldsBut, SetGrowth;
    ghost var a := buf[..];
    GoodNode(a, d, offset, c, n);
    r := None;
    ghost var pad;
    err, pad := SetProp(buf, offset, s, val, d, c, n);
    if err == 0 {
      SetPlace(a, buf[..], d, c, n, offset, s, val, pad, t);
      r := GetProp(buf, offset, t, PropSet(d, c, n, s, val, pad), c, NodeSet(d, n, s, val, pad));
    }
  }

  // ---- set twice ----

  /** However a property is set, the data grows by no more than a name, a head and the value. */
  lemma GrowthBound(d: DT, n: Item, s: seq<byte>, len: nat)
    requires n.INode?
    ensures SetGrowth(d, n, s, len) <= |s| + 1 + PropSize(len)
  {
    hide FindString;
  }

  /** A client that sets two properties of a node: the second call finds the room that the first
      has left, so that both succeed exactly when their growths together fit. */
  method SetTwice(buf: array<byte>, offset: int, s: seq<byte>, v: seq<byte>, t: seq<byte>, w: seq<byte>,
                  ghost d: DT, ghost c: Context, ghost n: Item)
    returns (err: int, ghost pad: seq<byte>, ghost pad': seq<byte>)
    requires Holds(buf[..], d) && Refers(buf[..], d, offset, c, n) && !BadNode(buf[..], offset)
    requires |v| <= MAX_LEN && |w| <= MAX_LEN && NUL !in s && NUL !in t
    modifies buf
    ensures n.INode? && NodeSet(d, n, s, v, pad).INode?
    ensures var e, m, total := PropSet(d, c, n, s, v, pad), NodeSet(d, n, s, v, pad), Field(old(buf[..]), TOTALSIZE);
            var first := DataEnd(old(buf[..])) + SetGrowth(d, n, s, |v|);
            && err == (if first > total || first + SetGrowth(e, m, t, |w|) > total then ERR_NOSPACE else 0)
            && (err == 0 ==> Holds(buf[..], PropSet(e, c, m, t, w, pad')) && Field(buf[..], TOTALSIZE) == total)
    ensures var room := Field(old(buf[..]), TOTALSIZE) - DataEnd(old(buf[..]));
            (|s| + 1 + PropSize(|v|)) + (|t| + 1 + PropSize(|w|)) <= room ==> err == 0
  {
    hide Get32, Field, Contents, StructTokens, Off, ReserveBytes, StructSpliced, Flat, FlatAll, Plug, Before, Encode,
      ValidTokens, BadNode, Refers, PropSet, NodeSet, Lookup, HoldsBut, NameOnly, SetGrowth, PropSize, HeaderKept;
    ghost var a := buf[..];
    GoodNode(a, d, offset, c, n);
    pad' := [];
    err, pad := SetProp(buf, offset, s, v, d, c, n);
    NodeSetIsNode(d, n, s, v, pad);
    GrowthBound(d, n, s, |v|);
    GrowthBound(PropSet(d, c, n, s, v, pad), NodeSet(d, n, s, v, pad), t, |w|);
    if err == 0 {
      ghost var b := buf[..];
      SetPlace(a, b, d, c, n, offset, s, v, pad, t);
      Kept(a, b, {SIZE_STRUCT, OFF_STRINGS, SIZE_STRINGS}, TOTALSIZE);
      err, pad' := SetProp(buf, offset, t, w, PropSet(d, c, n, s, v, pad), c, NodeSet(d, n, s, v, pad));
      if err == 0 {
        Kept(b, buf[..], {SIZE_STRUCT, OFF_STRINGS, SIZE_STRINGS}, TOTALSIZE);
      }
    }
  }

  lemma NodeSetIsNode(d: DT, n: Item, s: seq<byte>, val: seq<byte>, pad: seq<byte>)
    requires n.INode?
    ensures NodeSet(d, n, s, val, pad).INode?
  {
  }

  // ---- path, then offset ----

  lemma {:induction false} JoinedTerminates(names: seq<seq<byte>>)
    requires forall i | 0 <= i < |names| :: NUL !in names[i]
    ensures NUL !in Joined(names)
    decreases |names|
  {
    if names != [] {
      JoinedTerminates(names[..|names| - 1]);
    }
  }

  lemma {:induction false} NamesTerminate(d: DT, c: Context, n: Item)
    requires IsNode(d, c, n) && ValidTokens(StructTokens(d))
    ensures forall i | 0 <= i < |Names(c, n)| :: NUL !in Names(c, n)[i]
    decreases c
  {
    hide StructTokens, Before, Flat, Behind;
    NodeSplit(d, c, n);
    AtNode(StructTokens(d), Index(c), n);
    assert ValidToken(StructTokens(d)[Index(c)]);
    if c.Inside? {
      NamesTerminate(d, c.up, INode(c.name, c.pad, c.left + [n] + c.right));
    }
  }

  lemma PathTerminates(d: DT, c: Context, n: Item)
    requires IsNode(d, c, n) && ValidTokens(StructTokens(d))
    ensures NUL !in PathOf(Names(c, n))
  {
    hide StructTokens, Joined, Names, Plug, ValidTokens;
    NamesTerminate(d, c, n);
    JoinedTerminates(Names(c, n));
  }

  /** strlen */
  method Terminator(out: array<byte>, ghost path: seq<byte>) returns (z: nat)
    requires |path| < out.Length && out[..|path| + 1] == path + [NUL] && NUL !in path
    ensures z == |path| && out[..z] == path
  {
    assert forall k | 0 <= k < |path| :: out[k] == out[..|path| + 1][k] == path[k];
    assert out[|path|] == out[..|path| + 1][|path|] == NUL;
    z := 0;
    while out[z] != NUL
      invariant z <= |path|
      decreases |path| - z
    {
      z := z + 1;
    }
    assert out[..z] == out[..|path| + 1][..z] == path;
  }

  /** A client that asks for the path of a node and looks that path up: it is back at the node
      exactly when nothing shadows it. */
  method PathAndBack(buf: array<byte>, out: array<byte>, offset: int, buflen: nat, ghost d: DT, ghost c: Context,
                     ghost n: Item)
    returns (err: int, r: int)
    requires buf != out && buflen <= out.Length && buflen <= MAX_INT && Contents(buf[..], d) && IsNode(d, c, n)
    requires d.root.INode? && SlashFree(d) && ValidTokens(StructTokens(d)) && Index(c) < |StructTokens(d)|
    requires offset == NodeOff(d, c) && |Names(c, n)| > 0 && Names(c, n)[0] == [] && Plain(Names(c, n)[1..])
    modifies out
    ensures CheckHeader(buf[..]) != 0 ==> err == CheckHeader(buf[..])
    ensures CheckHeader(buf[..]) == 0 ==>
              err == if buflen < 2 || |Joined(Names(c, n))| > buflen then ERR_NOSPACE else 0
    ensures CheckHeader(buf[..]) == 0 && err == 0 ==> (r == offset <==> Unshadowed(c, n))
  {
    hide Contents, StructTokens, Off, Plug, Before, CheckHeader, Names, Unshadowed, PathOf, Joined, Rest,
      Components, NodeOff, ValidTokens, SlashFree, Plain;
    ghost var b := buf[..];
    r := 0;
    var before;
    err, before := GetPath(buf, out, offset, buflen, d, c, n);
    if err == 0 {
      PathRoundTrip(b, d, c, n);
      PathTerminates(d, c, n);
      assert buf[..] == b;
      var z := Terminator(out, PathOf(Names(c, n)));
      r := PathOffset(buf, out[..z], d);
    }
  }
}
