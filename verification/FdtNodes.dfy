/** Nodes by offset: where a node starts and ends, its children by name, its
    properties by name. */
module FdtNodes {
  import opened BigEndian
  import opened Options
  import opened FdtTokens
  import opened FdtTree
  import opened FdtBlob
  import opened FdtRead

  /** `n` is a node of `d`, and `c` is everything around it. */
  predicate IsNode(d: DT, c: Context, n: Item) {
    n.INode? && d.root == Plug(c, n)
  }

  /** Token index and structure block offset of the node at `c`. */
  function Index(c: Context): nat { |Before(c)| }

  function NodeOff(d: DT, c: Context): nat
    requires ValidTokens(StructTokens(d)) && Index(c) <= |StructTokens(d)|
  {
    Off(StructTokens(d), Index(c))
  }

  /** Rest of the structure block after the node at `c`. */
  function Behind(d: DT, c: Context): seq<Token> { After(c) + Tail(d.nops) }

  lemma NodeSplit(d: DT, c: Context, n: Item)
    requires d.root == Plug(c, n)
    ensures StructTokens(d) == Before(c) + Flat(n) + Behind(d, c)
    ensures At(StructTokens(d), Index(c), Flat(n))
    ensures Index(c) + |Flat(n)| < |StructTokens(d)|
    ensures StructTokens(d)[|StructTokens(d)| - 1] == End
  {
    hide Flat, Plug, Before, After, Nops;
    FlatPlug(c, n);
    assert StructTokens(d) == Before(c) + Flat(n) + Behind(d, c);
  }

  /** `offset` either fails the node check or is where the node `n` at `c` starts. */
  predicate Refers(b: seq<byte>, d: DT, offset: int, c: Context, n: Item)
    requires Contents(b, d)
  {
    -0x8000_0000 <= offset <= MAX_INT &&
    (!BadNode(b, offset) ==> IsNode(d, c, n) && Index(c) <= |StructTokens(d)| && offset == NodeOff(d, c))
  }

  lemma ContentsReads(b: seq<byte>, d: DT)
    requires Contents(b, d)
    ensures Readable(b) && ValidTokens(StructTokens(d)) && Reads(b, StructTokens(d))
  {
    hide Flat, Nops, NameOk, ReserveBytes, ValidTokens, Encode, StructBlock, Readable;
  }

  /** The node check passes exactly at BEGIN_NODE tokens. */
  lemma BadNodeToken(b: seq<byte>, ts: seq<Token>, i: nat)
    requires Reads(b, ts) && i < |ts|
    ensures Off(ts, i) <= MAX_INT && (BadNode(b, Off(ts, i)) <==> !ts[i].Begin?)
  {
    hide TagAt, Off, Readable, StructBlock;
    CheckToken(b, ts, i);
  }

  /** Every offset on a token boundary refers to a node or fails the check. */
  lemma BoundaryRefers(b: seq<byte>, d: DT, i: nat) returns (c: Context, n: Item)
    requires Contents(b, d) && i < |StructTokens(d)|
    ensures Refers(b, d, Off(StructTokens(d), i), c, n)
  {
    hide TagAt, Off, Flat, Tail, Nops, Plug, Readable, StructBlock, BadNode, NameOk, ReserveBytes, ValidTokens, Before;
    var ts := StructTokens(d);
    c, n := Top, d.root;
    ContentsReads(b, d);
    hide Contents, Reads;
    BadNodeToken(b, ts, i);
    if i >= |Flat(d.root)| {
      TailHasNoNodes(d.nops);
      assert ts[i] == Tail(d.nops)[i - |Flat(d.root)|];
    } else if ts[i].Begin? {
      c, n := LocateRoot(d.root, i);
    }
  }

  lemma LocateRoot(root: Item, i: nat) returns (c: Context, n: Item)
    requires root.INode? && i < |Flat(root)| && Flat(root)[i].Begin?
    ensures n.INode? && Plug(c, n) == root && Index(c) == i
  {
    c, n := Locate(Top, root, i);
  }

  lemma {:induction false} TailHasNoNodes(nops: nat)
    ensures forall i | 0 <= i < |Tail(nops)| :: !Tail(nops)[i].Begin?
  {
    if nops > 0 {
      TailHasNoNodes(nops - 1);
      assert Tail(nops) == [Nop] + Tail(nops - 1);
    }
  }

  /** What the node check of a good offset yields: the offset of the node's first item. */
  lemma GoodNode(b: seq<byte>, d: DT, offset: int, c: Context, n: Item)
    requires Contents(b, d) && Refers(b, d, offset, c, n) && !BadNode(b, offset)
    ensures n.INode? && d.root == Plug(c, n) && offset >= 0 && offset % 4 == 0
    ensures Index(c) + 1 < |StructTokens(d)| && ValidTokens(StructTokens(d))
    ensures TagAt(StructBlock(b), offset) == TagResult(FDT_BEGIN_NODE, Off(StructTokens(d), Index(c) + 1))
    ensures 0 <= Off(StructTokens(d), Index(c) + 1) <= Field(b, SIZE_STRUCT)
  {
    hide Contents, Plug, TagAt, Off, Before, After, Flat;
    ContentsReads(b, d);
    NodeSplit(d, c, n);
    AtNode(StructTokens(d), Index(c), n);
    CheckToken(b, StructTokens(d), Index(c));
    SplitAt(StructTokens(d), Index(c) + 1);
  }

  // ---- end of a node ----

  lemma {:induction false} VisitsBegin(ts: seq<Token>, n: Item, j: nat, d: int, k: nat)
    requires n.INode? && At(ts, j, Flat(n)) && k < |Nodes(n, j, d)|
    ensures Nodes(n, j, d)[k].at < |ts| && ts[Nodes(n, j, d)[k].at].Begin?
    ensures Nodes(n, j, d)[k].depth >= d
    decreases n, 1
  {
    AtNode(ts, j, n);
    if k > 0 {
      VisitsBeginIn(ts, n.items, j + 1, d + 1, k - 1);
    }
  }

  lemma {:induction false} VisitsBeginIn(ts: seq<Token>, items: seq<Item>, j: nat, d: int, k: nat)
    requires At(ts, j, FlatAll(items)) && k < |NodesIn(items, j, d)|
    ensures NodesIn(items, j, d)[k].at < |ts| && ts[NodesIn(items, j, d)[k].at].Begin?
    ensures NodesIn(items, j, d)[k].depth >= d
    decreases items, 0
  {
    var it, next := items[0], j + |Flat(items[0])|;
    AtParts(ts, j, Flat(it), FlatAll(items[1..]));
    var first := if it.INode? then Nodes(it, j, d) else [];
    if k < |first| {
      VisitsBegin(ts, it, j, d, k);
    } else {
      VisitsBeginIn(ts, items[1..], next, d, k - |first|);
    }
  }

  /** The walk inside one node stands at visit `k`, or has left the node. */
  predicate Walking(ts: seq<Token>, n: Item, i: nat, k: nat, off: int, depth: int)
    requires n.INode? && ValidTokens(ts)
  {
    && At(ts, i, Flat(n))
    && k <= |Nodes(n, i, 0)|
    && if k < |Nodes(n, i, 0)| then
         Nodes(n, i, 0)[k].at < |ts| && off == Off(ts, Nodes(n, i, 0)[k].at) && depth == Nodes(n, i, 0)[k].depth >= 0
       else off == Off(ts, i + |Flat(n)|) && depth == -1
  }

  /** One step of fdt_next_node moves such a walk from visit `k` to visit `k + 1`. */
  lemma WalkStep(ts: seq<Token>, n: Item, i: nat, k: nat, off: int, depth: int)
    requires n.INode? && ValidTokens(ts) && Walking(ts, n, i, k, off, depth) && k < |Nodes(n, i, 0)|
    ensures var v := Nodes(n, i, 0)[k];
            v.at < |ts| && ts[v.at].Begin? && off == Off(ts, v.at) && depth == v.depth >= 0
            && Walking(ts, n, i, k + 1, NodeOffset(ts, Step(ts, v.at + 1, depth)), NodeDepth(Step(ts, v.at + 1, depth)))
  {
    hide Nodes, Step, Flat, Off;
    var vs := Nodes(n, i, 0);
    VisitsBegin(ts, n, i, 0, k);
    WalkNode(ts, n, i, 0, k);
    var s := Step(ts, vs[k].at + 1, depth);
    assert s == First(vs[k + 1..], Left(i + |Flat(n)|));
    if k + 1 < |vs| {
      VisitsBegin(ts, n, i, 0, k + 1);
      assert vs[k + 1..][0] == vs[k + 1];
    }
  }

  /** How many calls of fdt_next_node a walk from `start` makes. */
  ghost function Calls(b: seq<byte>, start: int, n: Item, i: nat): nat
    requires Readable(b) && start <= MAX_INT
  {
    if BadNode(b, start) then (if start < 0 then 0 else 1) else if n.INode? then |Nodes(n, i, 0)| else 0
  }

  /** A walk begun at offset `start` after `k` calls; on a bad offset it makes at most one. */
  ghost predicate Walks(b: seq<byte>, ts: seq<Token>, start: int, n: Item, i: nat, k: nat, off: int, depth: int)
  {
    && Readable(b) && Reads(b, ts) && start <= MAX_INT
    && k <= Calls(b, start, n, i)
    && (if BadNode(b, start) then depth == 0 && off == (if k == 0 || start < 0 then start else ERR_BADOFFSET)
        else n.INode? && Walking(ts, n, i, k, off, depth))
  }

  /** One call of fdt_next_node on such a walk. */
  method WalkOn(buf: array<byte>, offset: int, depth: int,
                ghost ts: seq<Token>, ghost start: int, ghost n: Item, ghost i: nat, ghost k: nat)
    returns (r: int, d: int)
    requires Walks(buf[..], ts, start, n, i, k, offset, depth) && offset >= 0 && depth >= 0
    ensures Walks(buf[..], ts, start, n, i, k + 1, r, d)
  {
    ghost var at := 0;
    if !BadNode(buf[..], start) {
      WalkStep(ts, n, i, k, offset, depth);
      at := Nodes(n, i, 0)[k].at;
      CheckToken(buf[..], ts, at);
    }
    hide Nodes, Step, Flat, Off, Walking, TagAt, ValidTokens;
    r, d := NextNode(buf, offset, depth, ts, at);
  }

  /** Every walk through the node at an offset begins so. */
  lemma WalkStart(b: seq<byte>, d: DT, start: int, c: Context, n: Item)
    requires Contents(b, d) && Refers(b, d, start, c, n)
    ensures Walks(b, StructTokens(d), start, n, Index(c), 0, start, 0)
  {
    hide Contents, Flat, Plug, Before, Behind, StructTokens, Off, TagAt, Readable, StructBlock;
    ContentsReads(b, d);
    if !BadNode(b, start) {
      NodeSplit(d, c, n);
      assert Walking(StructTokens(d), n, Index(c), 0, start, 0);
    }
  }

  /** _fdt_node_end_offset: just past the node's END_NODE. */
  method NodeEndOffset(buf: array<byte>, offset: int, ghost d: DT, ghost c: Context, ghost n: Item) returns (r: int)
    requires Contents(buf[..], d) && Refers(buf[..], d, offset, c, n)
    ensures BadNode(buf[..], offset) ==> r == if offset < 0 then offset else ERR_BADOFFSET
    ensures !BadNode(buf[..], offset) ==>
              At(StructTokens(d), Index(c), Flat(n)) && r == Off(StructTokens(d), Index(c) + |Flat(n)|)
  {
    hide Contents, Refers, Flat, Off, StructTokens, Reads, Readable, IsNode, TagAt;
    ghost var ts, i, k := StructTokens(d), Index(c), 0;
    var depth := 0;
    r := offset;
    WalkStart(buf[..], d, offset, c, n);
    while r >= 0 && depth >= 0
      invariant Walks(buf[..], ts, offset, n, i, k, r, depth)
      decreases Calls(buf[..], offset, n, i) - k
    {
      r, depth := WalkOn(buf, r, depth, ts, offset, n, i, k);
      k := k + 1;
    }
  }

  // ---- children by name ----

  /** A node named `nodename` answers to `s`: the same name, or the same name without
      its unit address when `s` has none. */
  predicate Matches(nodename: seq<byte>, s: seq<byte>) {
    nodename == s || (AT !in s && |s| < |nodename| && nodename[..|s|] == s && nodename[|s|] == AT)
  }

  /** Index of the first child that answers to `s`, or the number of items. */
  function FindChild(items: seq<Item>, s: seq<byte>): (k: nat)
    ensures k <= |items|
    ensures k < |items| ==> items[k].INode? && Matches(items[k].name, s)
    ensures forall j | 0 <= j < k :: items[j].INode? ==> !Matches(items[j].name, s)
  {
    if items == [] || (items[0].INode? && Matches(items[0].name, s)) then 0
    else 1 + FindChild(items[1..], s)
  }

  /** Position among the tokens of the child FindChild finds, with the items standing at `at`. */
  function ChildAt(items: seq<Item>, at: nat, s: seq<byte>): Option<nat> {
    var k := FindChild(items, s);
    if k == |items| then None else Some(at + |FlatAll(items[..k])|)
  }

  /** First visit at depth `d` whose node answers to `s`. */
  function FirstMatch(ts: seq<Token>, vs: seq<Visit>, d: int, s: seq<byte>): Option<nat>
  {
    if vs == [] then None
    else if vs[0].depth == d && vs[0].at < |ts| && ts[vs[0].at].Begin? && Matches(ts[vs[0].at].name, s)
    then Some(vs[0].at)
    else FirstMatch(ts, vs[1..], d, s)
  }

  lemma {:induction false} FirstMatchAppend(ts: seq<Token>, a: seq<Visit>, b: seq<Visit>, d: int, s: seq<byte>)
    ensures FirstMatch(ts, a + b, d, s) == if FirstMatch(ts, a, d, s).Some? then FirstMatch(ts, a, d, s)
              else FirstMatch(ts, b, d, s)
  {
    if a == [] {
      assert a + b == b;
    } else {
      assert (a + b)[1..] == a[1..] + b;
      FirstMatchAppend(ts, a[1..], b, d, s);
    }
  }

  lemma {:induction false} DeeperNoMatch(ts: seq<Token>, vs: seq<Visit>, d: int, s: seq<byte>)
    requires forall k | 0 <= k < |vs| :: vs[k].depth > d
    ensures FirstMatch(ts, vs, d, s) == None
  {
    if vs != [] {
      DeeperNoMatch(ts, vs[1..], d, s);
    }
  }

  /** The nodes below a child are no candidates. */
  lemma NodeMatch(ts: seq<Token>, n: Item, j: nat, d: int, s: seq<byte>)
    requires n.INode? && At(ts, j, Flat(n))
    ensures FirstMatch(ts, Nodes(n, j, d), d, s) == if Matches(n.name, s) then Some(j) else None
  {
    AtNode(ts, j, n);
    var deeper := NodesIn(n.items, j + 1, d + 1);
    hide NodesIn, At, Flat, Matches;
    assert Nodes(n, j, d)[1..] == deeper;
    forall k | 0 <= k < |deeper|
      ensures deeper[k].depth > d
    {
      VisitsBeginIn(ts, n.items, j + 1, d + 1, k);
    }
    DeeperNoMatch(ts, deeper, d, s);
  }

  /** So the first match of the walk is the first child that answers to the name. */
  lemma {:induction false} ItemsMatch(ts: seq<Token>, items: seq<Item>, j: nat, d: int, s: seq<byte>)
    requires At(ts, j, FlatAll(items))
    ensures FirstMatch(ts, NodesIn(items, j, d), d, s) == ChildAt(items, j, s)
    decreases |items|
  {
    if items != [] {
      var it, next, tail := items[0], j + |Flat(items[0])|, items[1..];
      AtParts(ts, j, Flat(it), FlatAll(tail));
      ItemsMatch(ts, tail, next, d, s);
      if it.INode? {
        NodeMatch(ts, it, j, d, s);
        FirstMatchAppend(ts, Nodes(it, j, d), NodesIn(tail, next, d), d, s);
      } else {
        assert [] + NodesIn(tail, next, d) == NodesIn(tail, next, d);
      }
      hide At, Flat, FirstMatch, Nodes, Matches;
      ChildAtStep(items, j, s);
    }
  }

  lemma ChildAtStep(items: seq<Item>, j: nat, s: seq<byte>)
    requires items != []
    ensures ChildAt(items, j, s) ==
            if items[0].INode? && Matches(items[0].name, s) then Some(j)
            else ChildAt(items[1..], j + |Flat(items[0])|, s)
  {
    hide Matches, Flat;
    var k := FindChild(items, s);
    if k > 0 {
      assert items[..k][0] == items[0] && items[..k][1..] == items[1..][..k - 1];
    }
  }

  lemma BeginBytes(t: Token, tail: seq<byte>)
    requires t.Begin? && ValidToken(t)
    ensures |Bytes(t)| > 4 && (Bytes(t) + tail)[4..] == t.name + [NUL] + (t.pad + tail)
  {
    hide Enc32, ValidPad;
    assert Bytes(t) + tail == Enc32(Tag(t)) + (t.name + [NUL] + (t.pad + tail));
  }

  /** Where a node's name stands in the structure block. */
  lemma NameBytes(ts: seq<Token>, i: nat) returns (rest: seq<byte>)
    requires ValidTokens(ts) && i < |ts| && ts[i].Begin?
    ensures Off(ts, i) + 4 <= |Encode(ts)|
    ensures Encode(ts)[Off(ts, i) + 4..] == ts[i].name + [NUL] + rest
    ensures NUL !in ts[i].name
  {
    hide Off, Bytes, Encode, ValidTokens;
    var tail := TokenFrom(ts, i);
    BeginBytes(ts[i], tail);
    rest := ts[i].pad + tail;
    assert Encode(ts)[Off(ts, i)..][4..] == Encode(ts)[Off(ts, i) + 4..];
  }

  /** The raw comparison of _fdt_nodename_eq decides whether the name answers. */
  lemma RawMatch(x: seq<byte>, name: seq<byte>, rest: seq<byte>, s: seq<byte>)
    requires x == name + [NUL] + rest && NUL !in name && NUL !in s
    ensures Matches(name, s) <==>
            |s| < |x| && x[..|s|] == s && (x[|s|] == NUL || (AT !in s && x[|s|] == AT))
  {
    assert x[..|name|] == name && x[|name|] == NUL;
    if |s| > |name| {
      assert |s| <= |x| ==> x[..|s|][|name|] == NUL;
    } else {
      assert x[..|s|] == name[..|s|];
      if |s| < |name| {
        assert x[|s|] == name[|s|];
      } else {
        assert name[..|s|] == name;
      }
    }
  }

  lemma NameInBuffer(b: seq<byte>, ts: seq<Token>, i: nat, s: seq<byte>)
    requires Reads(b, ts) && i < |ts| && ts[i].Begin? && NUL !in s && |s| < MAX_INT
    ensures var base, size, o := Field(b, OFF_STRUCT), Field(b, SIZE_STRUCT), Off(ts, i);
            && o + 4 <= size && base + size <= |b|
            && var x := b[base + o + 4..base + size];
               && (PtrOk(size, o + 4, |s| + 1) <==> |s| < |x|)
               && (Matches(ts[i].name, s) <==>
                   |s| < |x| && x[..|s|] == s && (x[|s|] == NUL || (AT !in s && x[|s|] == AT)))
  {
    hide Field, Encode, ValidTokens, Matches, Off, PtrOk;
    var base, size, o := Field(b, OFF_STRUCT), Field(b, SIZE_STRUCT), Off(ts, i);
    var rest := NameBytes(ts, i);
    var x := StructBlock(b)[o + 4..];
    SliceSlice(b, base, base + size, o + 4, size);
    RawMatch(x, ts[i].name, rest, s);
    PtrInRange(size, o + 4, |s| + 1);
  }

  /** _fdt_nodename_eq */
  method NodenameEq(buf: array<byte>, offset: nat, s: seq<byte>, ghost ts: seq<Token>, ghost i: nat) returns (eq: bool)
    requires Reads(buf[..], ts) && i < |ts| && ts[i].Begin? && offset == Off(ts, i)
    requires NUL !in s && |s| < MAX_INT
    ensures eq == Matches(ts[i].name, s)
  {
    hide Get32, Encode, ValidTokens, Matches, Off, NulFrom, PtrOk, StructBlock;
    NameInBuffer(buf[..], ts, i, s);
    var base := Read32(buf, OFF_STRUCT);
    var size := Read32(buf, SIZE_STRUCT);
    if !PtrOk(size, offset + 4, |s| + 1) {
      return false;
    }
    eq := CompareName(buf, base + offset + 4, base + size, s);
    assert buf[base + offset + 4..base + size] == buf[..][base + offset + 4..base + size];
  }

  /** The comparisons of _fdt_nodename_eq on the bytes from `p` on. */
  method CompareName(buf: array<byte>, p: nat, end: nat, s: seq<byte>) returns (eq: bool)
    requires p + |s| < end <= buf.Length
    ensures var x := buf[p..end];
            eq <==> x[..|s|] == s && (x[|s|] == NUL || (AT !in s && x[|s|] == AT))
  {
    assert buf[p..end][..|s|] == buf[p..p + |s|];
    if buf[p..p + |s|] != s {
      return false;
    }
    eq := buf[p + |s|] == NUL || (AT !in s && buf[p + |s|] == AT);
  }

  /** What fdt_subnode_offset_namelen returns for the node `n` at `c`. */
  function SubnodeResult(d: DT, c: Context, n: Item, s: seq<byte>): int
    requires ValidTokens(StructTokens(d)) && IsNode(d, c, n)
  {
    match ChildAt(n.items, Index(c) + 1, s)
    case None => ERR_NOTFOUND
    case Some(t) => if t <= |StructTokens(d)| then Off(StructTokens(d), t) else ERR_NOTFOUND
  }

  lemma MatchInNode(ts: seq<Token>, n: Item, i: nat, s: seq<byte>)
    requires n.INode? && At(ts, i, Flat(n))
    ensures FirstMatch(ts, Nodes(n, i, 0), 1, s) == ChildAt(n.items, i + 1, s)
  {
    AtNode(ts, i, n);
    ItemsMatch(ts, n.items, i + 1, 1, s);
    hide At, Flat, ChildAt, Matches;
    assert Nodes(n, i, 0)[1..] == NodesIn(n.items, i + 1, 1);
  }

  /** The part of the walk still to come holds the first match. */
  ghost predicate Seeking(b: seq<byte>, ts: seq<Token>, start: int, n: Item, i: nat, k: nat, s: seq<byte>)
  {
    && Readable(b) && start <= MAX_INT
    && (!BadNode(b, start) ==>
          && n.INode? && k <= |Nodes(n, i, 0)|
          && FirstMatch(ts, Nodes(n, i, 0), 1, s) == FirstMatch(ts, Nodes(n, i, 0)[k..], 1, s))
  }

  /** One look at a node on the way: the first match, or the search goes on. */
  method Look(buf: array<byte>, offset: int, depth: int, s: seq<byte>,
              ghost ts: seq<Token>, ghost start: int, ghost n: Item, ghost i: nat, ghost k: nat)
    returns (found: bool)
    requires NUL !in s && |s| < MAX_INT
    requires Walks(buf[..], ts, start, n, i, k, offset, depth) && offset >= 0 && depth >= 0
    requires Seeking(buf[..], ts, start, n, i, k, s)
    ensures found ==> !BadNode(buf[..], start) && n.INode?
                      && var m := FirstMatch(ts, Nodes(n, i, 0), 1, s);
                         m.Some? && m.value <= |ts| && offset == Off(ts, m.value)
    ensures !found ==> Seeking(buf[..], ts, start, n, i, k + 1, s)
  {
    ghost var at := 0;
    if !BadNode(buf[..], start) {
      WalkStep(ts, n, i, k, offset, depth);
      at := Nodes(n, i, 0)[k].at;
      assert Nodes(n, i, 0)[k..][1..] == Nodes(n, i, 0)[k + 1..];
    }
    hide Nodes, Step, Flat, Off, Walking, TagAt, ValidTokens, Matches, Reads, Readable;
    found := false;
    if depth == 1 {
      found := NodenameEq(buf, offset, s, ts, at);
    }
  }

  /** When the walk is over nothing is left to match. */
  lemma Exhausted(b: seq<byte>, ts: seq<Token>, start: int, n: Item, i: nat, k: nat, off: int, depth: int, s: seq<byte>)
    requires Walks(b, ts, start, n, i, k, off, depth) && Seeking(b, ts, start, n, i, k, s)
    ensures off < 0 || depth < 0 ==>
              BadNode(b, start) || (depth < 0 && n.INode? && FirstMatch(ts, Nodes(n, i, 0), 1, s) == None)
  {
    hide Nodes, Flat, Off, TagAt, ValidTokens, Matches;
  }

  lemma SubnodeFound(b: seq<byte>, d: DT, start: int, c: Context, n: Item, s: seq<byte>)
    requires Contents(b, d) && Refers(b, d, start, c, n) && !BadNode(b, start)
    ensures var m := FirstMatch(StructTokens(d), Nodes(n, Index(c), 0), 1, s);
            SubnodeResult(d, c, n, s) ==
            if m.Some? && m.value <= |StructTokens(d)| then Off(StructTokens(d), m.value) else ERR_NOTFOUND
  {
    hide Contents, Flat, Off, Nodes, FirstMatch, ChildAt, TagAt, Before;
    NodeSplit(d, c, n);
    MatchInNode(StructTokens(d), n, Index(c), s);
  }

  /** fdt_subnode_offset_namelen */
  method SubnodeOffset(buf: array<byte>, offset: int, s: seq<byte>, ghost d: DT, ghost c: Context, ghost n: Item)
    returns (r: int)
    requires Contents(buf[..], d) && Refers(buf[..], d, offset, c, n)
    requires NUL !in s && |s| < MAX_INT
    ensures CheckHeader(buf[..]) != 0 ==> r == CheckHeader(buf[..])
    ensures CheckHeader(buf[..]) == 0 && BadNode(buf[..], offset) ==> r == if offset < 0 then offset else ERR_BADOFFSET
    ensures CheckHeader(buf[..]) == 0 && !BadNode(buf[..], offset) ==> r == SubnodeResult(d, c, n, s)
  {
    hide Contents, Refers, Flat, Off, TagAt, CheckHeader, Plug, Before, Nodes, FirstMatch, ChildAt, Walking,
      ValidTokens, Field, StructTokens, SubnodeResult, IsNode, Reads;
    WalkStart(buf[..], d, offset, c, n);
    if !BadNode(buf[..], offset) {
      SubnodeFound(buf[..], d, offset, c, n, s);
    }
    ghost var ts, i, k := StructTokens(d), Index(c), 0;
    var err := CheckHdr(buf);
    if err != 0 {
      return err;
    }
    var depth := 0;
    r := offset;
    while r >= 0 && depth >= 0
      invariant Walks(buf[..], ts, offset, n, i, k, r, depth)
      invariant Seeking(buf[..], ts, offset, n, i, k, s)
      decreases Calls(buf[..], offset, n, i) - k
    {
      var found := Look(buf, r, depth, s, ts, offset, n, i, k);
      if found {
        return r;
      }
      r, depth := WalkOn(buf, r, depth, ts, offset, n, i, k);
      k := k + 1;
    }
    Exhausted(buf[..], ts, offset, n, i, k, r, depth, s);
    if depth < 0 {
      r := ERR_NOTFOUND;
    }
  }
}
