/** Depth, ancestors and parents by offset: the functions that walk the whole tree in
    preorder up to the node asked about. */
module FdtParents {
  import opened BigEndian
  import opened Options
  import opened FdtTokens
  import opened FdtTree
  import opened FdtBlob
  import opened FdtRead
  import opened FdtNodes

  const ERR_INTERNAL := -13

  function Depth(c: Context): nat {
    match c
    case Top => 0
    case Inside(up, _, _, _, _) => 1 + Depth(up)
  }

  /** The surroundings of the enclosing node at depth `k`. */
  function Ancestor(c: Context, k: nat): (a: Context)
    requires k <= Depth(c)
    ensures Depth(a) == k
  {
    if k == Depth(c) then c else Ancestor(c.up, k)
  }

  // ---- a node's place in the preorder walk ----

  /** The visits before the node at `c`. */
  function Prefix(c: Context): seq<Visit> {
    match c
    case Top => []
    case Inside(up, _, _, left, _) =>
      Prefix(up) + [Visit(Index(up), Depth(up))] + NodesIn(left, Index(up) + 1, Depth(up) + 1)
  }

  lemma {:induction false} NodesInAppend(a: seq<Item>, b: seq<Item>, at: nat, d: int)
    ensures NodesIn(a + b, at, d) == NodesIn(a, at, d) + NodesIn(b, at + |FlatAll(a)|, d)
    decreases |a|
  {
    hide Flat, Nodes;
    if a == [] {
      assert a + b == b;
    } else {
      assert (a + b)[1..] == a[1..] + b;
      NodesInAppend(a[1..], b, at + |Flat(a[0])|, d);
    }
  }

  lemma NodesInOne(n: Item, b: seq<Item>, at: nat, d: int)
    requires n.INode?
    ensures NodesIn([n] + b, at, d) == Nodes(n, at, d) + NodesIn(b, at + |Flat(n)|, d)
  {
    hide Flat, Nodes;
    assert ([n] + b)[1..] == b;
  }

  lemma NodesInSplit(left: seq<Item>, n: Item, right: seq<Item>, at: nat, d: int)
    requires n.INode?
    ensures NodesIn(left + [n] + right, at, d) ==
            NodesIn(left, at, d) + Nodes(n, at + |FlatAll(left)|, d) + NodesIn(right, at + |FlatAll(left + [n])|, d)
  {
    hide Flat, FlatAll, Nodes;
    NodesInAppend(left + [n], right, at, d);
    NodesInAppend(left, [n], at, d);
    assert [n] + [] == [n];
    NodesInOne(n, [], at + |FlatAll(left)|, d);
    assert NodesIn([], at + |FlatAll(left)| + |Flat(n)|, d) == [];
  }

  lemma RegroupVisits(a: seq<Visit>, v: seq<Visit>, x: seq<Visit>, y: seq<Visit>, z: seq<Visit>, w: seq<Visit>)
    ensures a + (v + (x + y + z)) + w == (a + v + x) + y + (z + w)
  {
  }

  /** The preorder walk of the whole tree passes the node after its prefix, at its depth. */
  lemma {:induction false} NodesPlug(c: Context, n: Item) returns (rest: seq<Visit>)
    requires n.INode?
    ensures Plug(c, n).INode? && Nodes(Plug(c, n), 0, 0) == Prefix(c) + Nodes(n, Index(c), Depth(c)) + rest
    decreases c
  {
    hide Flat, FlatAll, Nodes, NodesIn;
    match c
    case Top =>
      rest := [];
      assert [] + Nodes(n, 0, 0) + [] == Nodes(n, 0, 0);
    case Inside(up, name, pad, left, right) =>
      var m := INode(name, pad, left + [n] + right);
      var outer := NodesPlug(up, m);
      var at, d := Index(up) + 1, Depth(up) + 1;
      NodesInSplit(left, n, right, at, d);
      VisitsOf(m, Index(up), Depth(up));
      var y := NodesIn(right, at + |FlatAll(left + [n])|, d);
      rest := y + outer;
      RegroupVisits(Prefix(up), [Visit(Index(up), Depth(up))], NodesIn(left, at, d), Nodes(n, Index(c), Depth(c)), y,
        outer);
  }

  lemma VisitsOf(n: Item, at: nat, d: int)
    requires n.INode?
    ensures Nodes(n, at, d) == [Visit(at, d)] + NodesIn(n.items, at + 1, d + 1)
  {
  }

  /** The node at `c` is visit number |Prefix(c)|. */
  lemma VisitOfNode(c: Context, n: Item)
    requires n.INode?
    ensures Plug(c, n).INode?
    ensures var vs := Nodes(Plug(c, n), 0, 0);
            && |Prefix(c)| < |vs| && vs[|Prefix(c)|] == Visit(Index(c), Depth(c)) && vs[..|Prefix(c)|] == Prefix(c)
  {
    hide Nodes, Prefix;
    var rest := NodesPlug(c, n);
  }

  // ---- the walk visits the nodes in the order of their offsets ----

  lemma {:induction false} StepForward(ts: seq<Token>, j: nat, d: int)
    requires j <= |ts|
    ensures Step(ts, j, d).Found? ==> j <= Step(ts, j, d).at < |ts|
    decreases |ts| - j
  {
    if j < |ts| && !ts[j].Begin? && !ts[j].End? {
      StepForward(ts, j + 1, if ts[j].EndNode? then d - 1 else d);
    }
  }

  lemma {:induction false} VisitsOrdered(ts: seq<Token>, n: Item, j: nat, k: nat)
    requires n.INode? && At(ts, 0, Flat(n)) && j < k < |Nodes(n, 0, 0)|
    ensures Nodes(n, 0, 0)[j].at < Nodes(n, 0, 0)[k].at < |ts|
    decreases k
  {
    hide Nodes, At, Flat;
    var vs := Nodes(n, 0, 0);
    WalkNode(ts, n, 0, 0, k - 1);
    StepForward(ts, vs[k - 1].at + 1, vs[k - 1].depth);
    assert vs[k..][0] == vs[k];
    if j < k - 1 {
      VisitsOrdered(ts, n, j, k - 1);
    }
  }

  // ---- the last node seen at a depth ----

  /** Where the walk last stood at depth `k`, over the visits `vs`. */
  function LastAt(vs: seq<Visit>, k: int): Option<nat> {
    if vs == [] then None
    else if vs[|vs| - 1].depth == k then Some(vs[|vs| - 1].at)
    else LastAt(vs[..|vs| - 1], k)
  }

  lemma {:induction false} LastAtDeeper(a: seq<Visit>, b: seq<Visit>, k: int)
    requires forall i | 0 <= i < |b| :: b[i].depth > k
    ensures LastAt(a + b, k) == LastAt(a, k)
    decreases |b|
  {
    if b == [] {
      assert a + b == a;
    } else {
      var m := |b| - 1;
      assert (a + b)[..|a + b| - 1] == a + b[..m] && (a + b)[|a + b| - 1] == b[m];
      LastAtDeeper(a, b[..m], k);
    }
  }

  lemma {:induction false} DeepVisits(n: Item, j: nat, d: int, i: nat)
    requires n.INode? && i < |Nodes(n, j, d)|
    ensures Nodes(n, j, d)[i].depth >= d
    decreases n, 1
  {
    if i > 0 {
      DeepVisitsIn(n.items, j + 1, d + 1, i - 1);
    }
  }

  lemma {:induction false} DeepVisitsIn(items: seq<Item>, j: nat, d: int, i: nat)
    requires i < |NodesIn(items, j, d)|
    ensures NodesIn(items, j, d)[i].depth >= d
    decreases items, 0
  {
    hide Flat;
    var first := if items[0].INode? then Nodes(items[0], j, d) else [];
    if i < |first| {
      DeepVisits(items[0], j, d, i);
    } else {
      DeepVisitsIn(items[1..], j + |Flat(items[0])|, d, i - |first|);
    }
  }

  /** On reaching a node the walk last stood at depth `k` on its ancestor of that depth. */
  lemma {:induction false} LastAtAncestor(c: Context, k: nat)
    requires k <= Depth(c)
    ensures LastAt(Prefix(c) + [Visit(Index(c), Depth(c))], k) == Some(Index(Ancestor(c, k)))
  {
    var vs, v := Prefix(c), Visit(Index(c), Depth(c));
    assert (vs + [v])[..|vs|] == vs;
    if k < Depth(c) {
      var up, inner := c.up, NodesIn(c.left, Index(c.up) + 1, Depth(c.up) + 1);
      LastAtAncestor(up, k);
      forall i | 0 <= i < |inner|
        ensures inner[i].depth > k
      {
        DeepVisitsIn(c.left, Index(up) + 1, Depth(up) + 1, i);
      }
      hide NodesIn;
      LastAtDeeper(Prefix(up) + [Visit(Index(up), Depth(up))], inner, k);
    }
  }

  // ---- fdt_supernode_atdepth_offset ----

  /** Offset of visit `k` of the whole tree. */
  function VisitOff(d: DT, k: nat): nat
    requires d.root.INode? && ValidTokens(StructTokens(d)) && k < |Nodes(d.root, 0, 0)|
  {
    var v := Nodes(d.root, 0, 0)[k];
    if v.at <= |StructTokens(d)| then Off(StructTokens(d), v.at) else 0
  }

  /** Offset just past the root node. */
  function RootEnd(d: DT): nat
    requires ValidTokens(StructTokens(d))
  {
    Off(StructTokens(d), |Flat(d.root)|)
  }

  /** No node starts at `offset`. */
  ghost predicate NoNodeAt(d: DT, offset: int)
    requires d.root.INode? && ValidTokens(StructTokens(d))
  {
    forall k | 0 <= k < |Nodes(d.root, 0, 0)| :: VisitOff(d, k) != offset
  }

  /** What is reported for an offset at which no node starts. */
  function NoNodeResult(d: DT, offset: int): int
    requires ValidTokens(StructTokens(d))
  {
    if offset < RootEnd(d) then ERR_BADOFFSET else if offset == RootEnd(d) then ERR_NOTFOUND else ERR_BADSTRUCTURE
  }

  /** Where the whole walk stands after `k` steps. */
  ghost predicate Standing(d: DT, k: nat, off: int, depth: int) {
    && d.root.INode? && ValidTokens(StructTokens(d)) && k <= |Nodes(d.root, 0, 0)|
    && if k < |Nodes(d.root, 0, 0)| then off == VisitOff(d, k) && depth == Nodes(d.root, 0, 0)[k].depth >= 0
       else off == RootEnd(d) && depth == -1
  }

  /** The facts about a whole walk that every blob gives. */
  lemma WholeWalk(b: seq<byte>, d: DT)
    requires Contents(b, d)
    ensures d.root.INode? && ValidTokens(StructTokens(d)) && Reads(b, StructTokens(d))
    ensures At(StructTokens(d), 0, Flat(d.root)) && |Flat(d.root)| < |StructTokens(d)| && HEADER_SIZE <= |b|
  {
    hide Flat, Nops, Off, NameOk, ReserveBytes, ValidTokens, Encode, StructBlock;
    ContentsReads(b, d);
    NodeSplit(d, Top, d.root);
  }

  lemma Started(b: seq<byte>, d: DT)
    requires Contents(b, d)
    ensures Standing(d, 0, 0, 0)
  {
    hide Contents, Flat, Encode;
    WholeWalk(b, d);
    assert StructTokens(d)[..0] == [];
    EmptyOff();
  }

  lemma EmptyOff()
    ensures Encode([]) == []
  {
  }

  /** Every visit is a node's, before the end of the root. */
  lemma VisitInRoot(d: DT, k: nat)
    requires d.root.INode? && ValidTokens(StructTokens(d)) && At(StructTokens(d), 0, Flat(d.root))
    requires k < |Nodes(d.root, 0, 0)|
    ensures Nodes(d.root, 0, 0)[k].at < |Flat(d.root)| < |StructTokens(d)|
    ensures VisitOff(d, k) == Off(StructTokens(d), Nodes(d.root, 0, 0)[k].at) < RootEnd(d)
    ensures StructTokens(d)[Nodes(d.root, 0, 0)[k].at].Begin?
  {
    hide Off, Nodes, At, Tail;
    var root := d.root;
    RootTokens(root);
    VisitsBegin(Flat(root), root, 0, 0, k);
    var at := Nodes(root, 0, 0)[k].at;
    hide Flat;
    assert Flat(root)[at] == StructTokens(d)[at];
    OffInjective(StructTokens(d), at, |Flat(root)|);
    TailLong(d.nops);
  }

  lemma TailLong(nops: nat)
    ensures |Tail(nops)| > 0
  {
  }

  lemma RootTokens(n: Item)
    ensures At(Flat(n), 0, Flat(n))
  {
    hide Flat;
    assert Flat(n)[0..|Flat(n)|] == Flat(n);
  }

  /** Offsets grow along the walk. */
  lemma OffsetsGrow(d: DT, j: nat, k: nat)
    requires d.root.INode? && ValidTokens(StructTokens(d)) && At(StructTokens(d), 0, Flat(d.root))
    requires j < k < |Nodes(d.root, 0, 0)|
    ensures VisitOff(d, j) < VisitOff(d, k)
  {
    hide Off, Nodes, At, StructTokens, Flat, ValidTokens;
    VisitsOrdered(StructTokens(d), d.root, j, k);
    OffInjective(StructTokens(d), Nodes(d.root, 0, 0)[j].at, Nodes(d.root, 0, 0)[k].at);
  }

  /** Where the walk goes from visit `k`. */
  lemma WholeStep(d: DT, k: nat, off: int, depth: int)
    requires d.root.INode? && ValidTokens(StructTokens(d)) && At(StructTokens(d), 0, Flat(d.root))
    requires Standing(d, k, off, depth) && k < |Nodes(d.root, 0, 0)|
    ensures var ts, at := StructTokens(d), Nodes(d.root, 0, 0)[k].at;
            && at < |ts| && ts[at].Begin? && off == Off(ts, at) && depth >= 0
            && Standing(d, k + 1, NodeOffset(ts, Step(ts, at + 1, depth)), NodeDepth(Step(ts, at + 1, depth)))
  {
    hide Nodes, Step, Flat, Off, StructTokens, ValidTokens, At;
    var ts, vs := StructTokens(d), Nodes(d.root, 0, 0);
    VisitInRoot(d, k);
    WalkNode(ts, d.root, 0, 0, k);
    assert Step(ts, vs[k].at + 1, depth) == First(vs[k + 1..], Left(0 + |Flat(d.root)|));
    if k + 1 < |vs| {
      VisitInRoot(d, k + 1);
      VisitDepth(d.root, k + 1);
      assert vs[k + 1..][0] == vs[k + 1];
    }
  }

  lemma VisitDepth(n: Item, k: nat)
    requires n.INode? && k < |Nodes(n, 0, 0)|
    ensures Nodes(n, 0, 0)[k].depth >= 0
  {
    DeepVisits(n, 0, 0, k);
  }

  /** fdt_next_node on the whole walk. */
  method NextVisit(buf: array<byte>, offset: int, depth: int, ghost d: DT, ghost k: nat) returns (r: int, e: int)
    requires Contents(buf[..], d) && Standing(d, k, offset, depth)
    ensures k < |Nodes(d.root, 0, 0)| ==> Standing(d, k + 1, r, e)
    ensures k == |Nodes(d.root, 0, 0)| ==> r == ERR_BADOFFSET && e == depth
  {
    hide Contents, Nodes, Step, Flat, Off, StructTokens, ValidTokens, At, BadNode, Readable;
    WholeWalk(buf[..], d);
    ghost var at := 0;
    if k < |Nodes(d.root, 0, 0)| {
      WholeStep(d, k, offset, depth);
      at := Nodes(d.root, 0, 0)[k].at;
      BadNodeToken(buf[..], StructTokens(d), at);
    } else {
      PastRoot(d);
      BadNodeToken(buf[..], StructTokens(d), |Flat(d.root)|);
    }
    r, e := NextNode(buf, offset, depth, StructTokens(d), at);
  }

  lemma PastRoot(d: DT)
    ensures |Flat(d.root)| < |StructTokens(d)| && !StructTokens(d)[|Flat(d.root)|].Begin?
  {
    hide Flat, Tail;
    TailHasNoNodes(d.nops);
    TailLong(d.nops);
    assert StructTokens(d)[|Flat(d.root)|] == Tail(d.nops)[0];
  }

  /** What fdt_supernode_atdepth_offset returns for the node at `c`. */
  function SuperResult(d: DT, c: Context, k: int): int
    requires ValidTokens(StructTokens(d)) && Index(c) < |StructTokens(d)|
  {
    if k < 0 || k > Depth(c) then ERR_NOTFOUND
    else if Index(Ancestor(c, k)) <= |StructTokens(d)| then NodeOff(d, Ancestor(c, k)) else 0
  }

  /** The node's own place on the walk, and its ancestor's. */
  lemma PlaceOf(d: DT, c: Context, n: Item, sd: nat)
    requires IsNode(d, c, n) && ValidTokens(StructTokens(d)) && At(StructTokens(d), 0, Flat(d.root))
    ensures d.root.INode? && |Prefix(c)| < |Nodes(d.root, 0, 0)| && Index(c) < |StructTokens(d)|
    ensures VisitOff(d, |Prefix(c)|) == NodeOff(d, c) && Nodes(d.root, 0, 0)[|Prefix(c)|].depth == Depth(c)
    ensures sd <= Depth(c) ==>
              LastAt(Nodes(d.root, 0, 0)[..|Prefix(c)| + 1], sd) == Some(Index(Ancestor(c, sd)))
  {
    hide Off, Nodes, StructTokens, Flat, ValidTokens, At, Plug, Prefix, Before, LastAt;
    VisitOfNode(c, n);
    VisitInRoot(d, |Prefix(c)|);
    if sd <= Depth(c) {
      LastAtAncestor(c, sd);
      assert Nodes(d.root, 0, 0)[..|Prefix(c)| + 1] == Prefix(c) + [Visit(Index(c), Depth(c))];
    }
  }

  /** The supernode recorded so far. */
  ghost predicate Recorded(d: DT, k: nat, sd: int, super: int)
    requires d.root.INode? && ValidTokens(StructTokens(d)) && k <= |Nodes(d.root, 0, 0)|
  {
    match LastAt(Nodes(d.root, 0, 0)[..k], sd)
    case None => true
    case Some(at) => at <= |StructTokens(d)| && super == Off(StructTokens(d), at)
  }

  lemma RecordedStep(d: DT, k: nat, sd: int, super: int)
    requires d.root.INode? && ValidTokens(StructTokens(d)) && At(StructTokens(d), 0, Flat(d.root))
    requires k < |Nodes(d.root, 0, 0)| && Recorded(d, k, sd, super)
    ensures Recorded(d, k + 1, sd, if Nodes(d.root, 0, 0)[k].depth == sd then VisitOff(d, k) else super)
  {
    hide Off, Nodes, StructTokens, Flat, ValidTokens, At;
    VisitInRoot(d, k);
    var vs := Nodes(d.root, 0, 0);
    assert vs[..k + 1][..k] == vs[..k];
  }

  /** fdt_supernode_atdepth_offset: the ancestor at the depth asked for. `c` may be any node:
      the result is stated for the offset of that node, and for offsets of no node. */
  method SupernodeAtDepth(buf: array<byte>, nodeoffset: int, sd: int, ghost d: DT, ghost c: Context, ghost n: Item)
    returns (r: int, nodedepth: int)
    requires Contents(buf[..], d) && IsNode(d, c, n) && ValidTokens(StructTokens(d)) && Index(c) < |StructTokens(d)|
    requires nodeoffset <= MAX_INT
    ensures CheckHeader(buf[..]) != 0 ==> r == CheckHeader(buf[..])
    ensures CheckHeader(buf[..]) == 0 && nodeoffset == NodeOff(d, c) ==>
              r == SuperResult(d, c, sd) && (sd >= 0 ==> nodedepth == Depth(c))
    ensures CheckHeader(buf[..]) == 0 && d.root.INode? && NoNodeAt(d, nodeoffset) ==>
              r == if sd < 0 then ERR_NOTFOUND else NoNodeResult(d, nodeoffset)
  {
    hide Contents, IsNode, Nodes, Flat, Off, StructTokens, ValidTokens, At, CheckHeader, Recorded, LastAt, VisitOff,
      RootEnd, Prefix, Before, NodeOff, Standing, Ancestor, NoNodeAt, Reads;
    WholeWalk(buf[..], d);
    nodedepth := 0;
    var err := CheckHdr(buf);
    if err != 0 {
      return err, nodedepth;
    }
    if sd < 0 {
      return ERR_NOTFOUND, nodedepth;
    }
    PlaceOf(d, c, n, sd);
    Started(buf[..], d);
    NothingRecorded(d, sd);
    ghost var k, last := 0, |Nodes(d.root, 0, 0)|;
    var offset, depth, super := 0, 0, ERR_INTERNAL;
    while offset >= 0 && offset <= nodeoffset
      invariant k <= last + 1
      invariant k <= last ==> Standing(d, k, offset, depth) && Recorded(d, k, sd, super)
      invariant k == last + 1 ==> offset == ERR_BADOFFSET && RootEnd(d) < nodeoffset
      invariant forall j | 0 <= j < k && j < last :: VisitOff(d, j) < nodeoffset
      decreases last + 1 - k
    {
      if k < last {
        RecordedStep(d, k, sd, super);
      }
      StandingIs(d, k, offset, depth);
      if depth == sd {
        super := offset;
      }
      if offset == nodeoffset {
        nodedepth := depth;
        Arrived(d, c, n, k, nodeoffset, sd, super);
        return if sd > depth then ERR_NOTFOUND else super, nodedepth;
      }
      offset, depth := NextVisit(buf, offset, depth, d, k);
      k := k + 1;
    }
    if k <= last {
      StandingIs(d, k, offset, depth);
    }
    Missed(d, c, n, k, nodeoffset, offset, depth);
    if offset == ERR_NOTFOUND || offset >= 0 {
      return ERR_BADOFFSET, nodedepth;
    } else if offset == ERR_BADOFFSET {
      return ERR_BADSTRUCTURE, nodedepth;
    }
    r := offset;
  }

  lemma NothingRecorded(d: DT, sd: int)
    requires d.root.INode? && ValidTokens(StructTokens(d))
    ensures Recorded(d, 0, sd, ERR_INTERNAL)
  {
    hide Nodes, Off, StructTokens;
  }

  lemma StandingIs(d: DT, k: nat, off: int, depth: int)
    requires Standing(d, k, off, depth)
    ensures k < |Nodes(d.root, 0, 0)| ==> off == VisitOff(d, k) && depth == Nodes(d.root, 0, 0)[k].depth >= 0
    ensures k == |Nodes(d.root, 0, 0)| ==> off == RootEnd(d) && depth == -1
  {
  }

  /** The walk has come to the offset asked about. */
  lemma Arrived(d: DT, c: Context, n: Item, k: nat, offset: int, sd: nat, super: int)
    requires IsNode(d, c, n) && ValidTokens(StructTokens(d)) && At(StructTokens(d), 0, Flat(d.root))
    requires d.root.INode? && k <= |Nodes(d.root, 0, 0)| && Index(c) < |StructTokens(d)|
    requires offset == if k < |Nodes(d.root, 0, 0)| then VisitOff(d, k) else RootEnd(d)
    requires k < |Nodes(d.root, 0, 0)| ==> Recorded(d, k + 1, sd, super)
    ensures offset == NodeOff(d, c) ==>
              k < |Nodes(d.root, 0, 0)| && Nodes(d.root, 0, 0)[k].depth == Depth(c)
              && (sd <= Depth(c) ==> super == SuperResult(d, c, sd))
    ensures NoNodeAt(d, offset) ==> k == |Nodes(d.root, 0, 0)|
  {
    hide Nodes, Off, StructTokens, Flat, ValidTokens, At, Prefix, Before, LastAt, IsNode, VisitOff, NodeOff,
      RootEnd, Ancestor;
    PlaceOf(d, c, n, sd);
    var m := |Prefix(c)|;
    VisitBelow(d, m);
    if offset == NodeOff(d, c) && k < |Nodes(d.root, 0, 0)| {
      if k < m {
        OffsetsGrow(d, k, m);
      } else if m < k {
        OffsetsGrow(d, m, k);
      }
      SuperOff(d, c, sd);
    }
  }

  lemma SuperOff(d: DT, c: Context, sd: nat)
    requires ValidTokens(StructTokens(d)) && Index(c) < |StructTokens(d)|
    ensures sd <= Depth(c) && Index(Ancestor(c, sd)) <= |StructTokens(d)| ==>
              SuperResult(d, c, sd) == Off(StructTokens(d), Index(Ancestor(c, sd)))
  {
    hide Off, StructTokens, ValidTokens, Ancestor;
  }

  lemma VisitBelow(d: DT, k: nat)
    requires d.root.INode? && ValidTokens(StructTokens(d)) && At(StructTokens(d), 0, Flat(d.root))
    requires k < |Nodes(d.root, 0, 0)|
    ensures VisitOff(d, k) < RootEnd(d)
  {
    hide Nodes, Off, StructTokens, Flat, ValidTokens, At;
    VisitInRoot(d, k);
  }

  /** The walk went past the offset asked about without standing on it. */
  lemma Missed(d: DT, c: Context, n: Item, k: nat, offset: int, off: int, depth: int)
    requires IsNode(d, c, n) && ValidTokens(StructTokens(d)) && At(StructTokens(d), 0, Flat(d.root))
    requires d.root.INode? && k <= |Nodes(d.root, 0, 0)| + 1
    requires k <= |Nodes(d.root, 0, 0)| ==> Standing(d, k, off, depth) && off > offset
    requires k == |Nodes(d.root, 0, 0)| + 1 ==> off == ERR_BADOFFSET && RootEnd(d) < offset
    requires forall j | 0 <= j < k && j < |Nodes(d.root, 0, 0)| :: VisitOff(d, j) < offset
    ensures Index(c) < |StructTokens(d)| && offset != NodeOff(d, c)
    ensures k <= |Nodes(d.root, 0, 0)| ==> off >= 0 && offset < RootEnd(d)
  {
    hide Nodes, Off, StructTokens, Flat, ValidTokens, At, Prefix, Before, LastAt, IsNode, VisitOff, NodeOff,
      RootEnd, Ancestor;
    PlaceOf(d, c, n, 0);
    var m := |Prefix(c)|;
    VisitBelow(d, m);
    if k < |Nodes(d.root, 0, 0)| {
      VisitBelow(d, k);
      if k < m {
        OffsetsGrow(d, k, m);
      }
    }
  }

  /** fdt_node_depth */
  method DepthOf(buf: array<byte>, nodeoffset: int, ghost d: DT, ghost c: Context, ghost n: Item) returns (r: int)
    requires Contents(buf[..], d) && IsNode(d, c, n) && ValidTokens(StructTokens(d)) && Index(c) < |StructTokens(d)|
    requires nodeoffset <= MAX_INT
    ensures CheckHeader(buf[..]) != 0 ==> r == CheckHeader(buf[..])
    ensures CheckHeader(buf[..]) == 0 && nodeoffset == NodeOff(d, c) ==> r == Depth(c)
    ensures CheckHeader(buf[..]) == 0 && d.root.INode? && NoNodeAt(d, nodeoffset) ==> r == NoNodeResult(d, nodeoffset)
  {
    hide Contents, IsNode, Nodes, Off, StructTokens, ValidTokens, Get32, NodeOff;
    RootAncestor(d, c);
    var err, depth := SupernodeAtDepth(buf, nodeoffset, 0, d, c, n);
    if err != 0 {
      return if err < 0 then err else ERR_INTERNAL;
    }
    r := depth;
  }

  /** The ancestor at depth 0 is the root, at offset 0. */
  lemma {:induction false} RootAncestor(d: DT, c: Context)
    requires ValidTokens(StructTokens(d)) && Index(c) < |StructTokens(d)|
    ensures SuperResult(d, c, 0) == 0
  {
    hide StructTokens, ValidTokens, Before, Encode;
    TopAncestor(c);
    assert Before(Top) == [] by { NothingBefore(); }
    assert StructTokens(d)[..0] == [];
    EmptyOff();
  }

  lemma NothingBefore()
    ensures Before(Top) == []
  {
  }

  lemma {:induction false} TopAncestor(c: Context)
    ensures Ancestor(c, 0) == Top
  {
    if Depth(c) > 0 {
      TopAncestor(c.up);
    }
  }

  /** fdt_parent_offset: the offset of the node around the one at `c`; the root has none. */
  method ParentOffset(buf: array<byte>, nodeoffset: int, ghost d: DT, ghost c: Context, ghost n: Item) returns (r: int)
    requires Contents(buf[..], d) && IsNode(d, c, n) && ValidTokens(StructTokens(d)) && Index(c) < |StructTokens(d)|
    requires nodeoffset <= MAX_INT
    ensures CheckHeader(buf[..]) != 0 ==> r == CheckHeader(buf[..])
    ensures CheckHeader(buf[..]) == 0 && nodeoffset == NodeOff(d, c) ==>
              r == if c.Top? then ERR_NOTFOUND
                   else if Index(c.up) <= |StructTokens(d)| then NodeOff(d, c.up) else 0
    ensures CheckHeader(buf[..]) == 0 && d.root.INode? && NoNodeAt(d, nodeoffset) ==> r == NoNodeResult(d, nodeoffset)
  {
    hide Contents, IsNode, Nodes, Off, StructTokens, ValidTokens, Get32, NodeOff, CheckHeader, RootEnd;
    WholeWalk(buf[..], d);
    CheckHeaderSign(buf[..]);
    var depth := DepthOf(buf, nodeoffset, d, c, n);
    if depth < 0 {
      return depth;
    }
    ParentIs(d, c);
    var nodedepth;
    r, nodedepth := SupernodeAtDepth(buf, nodeoffset, depth - 1, d, c, n);
  }

  lemma ParentIs(d: DT, c: Context)
    requires ValidTokens(StructTokens(d)) && Index(c) < |StructTokens(d)|
    ensures SuperResult(d, c, Depth(c) - 1) ==
            if c.Top? then ERR_NOTFOUND else if Index(c.up) <= |StructTokens(d)| then NodeOff(d, c.up) else 0
  {
    hide StructTokens, ValidTokens, NodeOff, Before;
    if c.Inside? {
      assert Ancestor(c, Depth(c) - 1) == c.up;
    }
  }

  lemma CheckHeaderSign(b: seq<byte>)
    requires HEADER_SIZE <= |b|
    ensures CheckHeader(b) <= 0
  {
  }
}
