/** Paths: fdt_path_offset, fdt_get_path, and when one undoes the other. */
module FdtPath {
  import opened BigEndian
  import opened Options
  import opened FdtTokens
  import opened FdtTree
  import opened FdtBlob
  import opened FdtRead
  import opened FdtNodes
  import opened FdtParents

  // ---- fdt_path_offset ----

  /** End of the first component of a path that does not start with a slash. */
  function WordEnd(path: seq<byte>): (q: nat)
    ensures q <= |path| && SLASH !in path[..q] && (q < |path| ==> path[q] == SLASH)
  {
    if path == [] || path[0] == SLASH then 0 else 1 + WordEnd(path[1..])
  }

  /** The names in a path, between runs of slashes. */
  function Components(path: seq<byte>): seq<seq<byte>>
    decreases |path|
  {
    if path == [] then []
    else if path[0] == SLASH then Components(path[1..])
    else [path[..WordEnd(path)]] + Components(path[WordEnd(path)..])
  }

  /** Positions among the items, from `n` downwards, of the nodes the names lead to. */
  function Resolve(n: Item, names: seq<seq<byte>>): (r: Option<seq<nat>>)
    requires n.INode?
    decreases |names|
  {
    if names == [] then Some([])
    else
      var k := FindChild(n.items, names[0]);
      if k == |n.items| then None
      else match Resolve(n.items[k], names[1..])
        case None => None
        case Some(r) => Some([k] + r)
  }

  /** Token index of the node reached by positions `idx` from `n`, which starts at `at`. */
  function Start(n: Item, at: nat, idx: seq<nat>): nat
    decreases |idx|
  {
    if idx == [] || !n.INode? || idx[0] >= |n.items| then at
    else Start(n.items[idx[0]], at + 1 + |FlatAll(n.items[..idx[0]])|, idx[1..])
  }

  function OffAt(d: DT, i: nat): nat
    requires ValidTokens(StructTokens(d))
  {
    if i <= |StructTokens(d)| then Off(StructTokens(d), i) else 0
  }

  /** Where the names lead from the node `n` that starts at token `at`. */
  function Rest(d: DT, n: Item, at: nat, names: seq<seq<byte>>): int
    requires n.INode? && ValidTokens(StructTokens(d))
  {
    match Resolve(n, names)
    case None => ERR_NOTFOUND
    case Some(idx) => OffAt(d, Start(n, at, idx))
  }

  lemma RestStep(d: DT, n: Item, at: nat, names: seq<seq<byte>>)
    requires n.INode? && ValidTokens(StructTokens(d)) && names != []
    ensures var k := FindChild(n.items, names[0]);
            Rest(d, n, at, names) ==
            if k == |n.items| then ERR_NOTFOUND
            else Rest(d, n.items[k], at + 1 + |FlatAll(n.items[..k])|, names[1..])
  {
    hide StructTokens, ValidTokens, FindChild, FlatAll, OffAt;
  }

  lemma RestDone(d: DT, n: Item, at: nat)
    requires n.INode? && ValidTokens(StructTokens(d))
    ensures Rest(d, n, at, []) == OffAt(d, at)
  {
    hide StructTokens, ValidTokens, OffAt;
  }

  /** A node's offset passes the node check. */
  lemma NodeIsGood(b: seq<byte>, d: DT, c: Context, n: Item)
    requires Contents(b, d) && IsNode(d, c, n)
    ensures ValidTokens(StructTokens(d)) && Index(c) < |StructTokens(d)|
    ensures NodeOff(d, c) <= MAX_INT && !BadNode(b, NodeOff(d, c)) && Refers(b, d, NodeOff(d, c), c, n)
    ensures OffAt(d, Index(c)) == NodeOff(d, c)
  {
    hide Contents, StructTokens, ValidTokens, Flat, Plug, Before, Off, TagAt, BadNode;
    ContentsReads(b, d);
    NodeSplit(d, c, n);
    AtNode(StructTokens(d), Index(c), n);
    BadNodeToken(b, StructTokens(d), Index(c));
  }

  /** The child found, in its surroundings. */
  function ChildContext(c: Context, n: Item, k: nat): Context
    requires n.INode? && k < |n.items|
  {
    Inside(c, n.name, n.pad, n.items[..k], n.items[k + 1..])
  }

  lemma ChildIsNode(d: DT, c: Context, n: Item, k: nat)
    requires IsNode(d, c, n) && k < |n.items| && n.items[k].INode?
    ensures IsNode(d, ChildContext(c, n, k), n.items[k])
    ensures Index(ChildContext(c, n, k)) == Index(c) + 1 + |FlatAll(n.items[..k])|
  {
    hide FlatAll;
    assert n.items == n.items[..k] + [n.items[k]] + n.items[k + 1..];
  }

  /** One component of the path: fdt_subnode_offset_namelen, then the rest. */
  method StepDown(buf: array<byte>, offset: int, s: seq<byte>, ghost names: seq<seq<byte>>,
                  ghost d: DT, ghost c: Context, ghost n: Item)
    returns (r: int, ghost e: Context, ghost m: Item)
    requires Contents(buf[..], d) && IsNode(d, c, n) && CheckHeader(buf[..]) == 0 && ValidTokens(StructTokens(d))
    requires Index(c) <= |StructTokens(d)| && offset == NodeOff(d, c) && NUL !in s && |s| < MAX_INT
    ensures r < 0 ==> r == Rest(d, n, Index(c), [s] + names)
    ensures r >= 0 ==> IsNode(d, e, m) && m.INode? && Index(e) <= |StructTokens(d)| && r == NodeOff(d, e)
    ensures r >= 0 ==> Rest(d, m, Index(e), names) == Rest(d, n, Index(c), [s] + names)
  {
    hide Contents, StructTokens, ValidTokens, Off, Plug, Before, Rest, BadNode, FindChild, CheckHeader, FlatAll;
    NodeIsGood(buf[..], d, c, n);
    r := SubnodeOffset(buf, offset, s, d, c, n);
    e, m := c, n;
    RestStep(d, n, Index(c), [s] + names);
    assert ([s] + names)[1..] == names;
    ghost var k := FindChild(n.items, s);
    if k < |n.items| {
      ChildIsNode(d, c, n, k);
      e, m := ChildContext(c, n, k), n.items[k];
      NodeIsGood(buf[..], d, e, m);
    }
  }

  lemma ComponentsStep(path: seq<byte>)
    ensures path == [] ==> Components(path) == []
    ensures path != [] && path[0] == SLASH ==> Components(path) == Components(path[1..])
    ensures path != [] && path[0] != SLASH ==>
              Components(path) == [path[..WordEnd(path)]] + Components(path[WordEnd(path)..])
  {
    hide WordEnd;
  }

  /** fdt_path_offset, for a path from the root. */
  method PathOffset(buf: array<byte>, path: seq<byte>, ghost d: DT) returns (r: int)
    requires Contents(buf[..], d) && d.root.INode? && ValidTokens(StructTokens(d))
    requires path != [] && path[0] == SLASH && NUL !in path && |path| < MAX_INT
    ensures CheckHeader(buf[..]) != 0 ==> r == CheckHeader(buf[..])
    ensures CheckHeader(buf[..]) == 0 ==> r == Rest(d, d.root, 0, Components(path))
  {
    hide Contents, StructTokens, ValidTokens, Off, Plug, Before, Rest, BadNode, CheckHeader, Components, WordEnd,
      Reads, IsNode, NodeOff;
    WholeWalk(buf[..], d);
    var err := CheckHdr(buf);
    if err != 0 {
      return err;
    }
    r := 0;
    ghost var c, n := Top, d.root;
    RootPlace(buf[..], d);
    var p := 0;
    while p < |path|
      invariant p <= |path| && IsNode(d, c, n) && n.INode? && Index(c) <= |StructTokens(d)| && r == NodeOff(d, c)
      invariant Rest(d, n, Index(c), Components(path[p..])) == Rest(d, d.root, 0, Components(path))
    {
      ghost var was := p;
      while p < |path| && path[p] == SLASH
        invariant was <= p <= |path| && Components(path[p..]) == Components(path[was..])
      {
        ComponentsStep(path[p..]);
        assert path[p..][1..] == path[p + 1..];
        p := p + 1;
      }
      ComponentsStep(path[p..]);
      if p == |path| {
        break;
      }
      var q := NextSlash(path, p);
      assert path[p..][..q - p] == path[p..q] && path[p..][q - p..] == path[q..];
      r, c, n := StepDown(buf, r, path[p..q], Components(path[q..]), d, c, n);
      if r < 0 {
        return;
      }
      p := q;
    }
    RestDone(d, n, Index(c));
    NodeIsGood(buf[..], d, c, n);
    assert path[p..] == [];
    ComponentsStep([]);
  }

  /** strchr(p, '/'), or the end of the string. */
  method NextSlash(path: seq<byte>, p: nat) returns (q: nat)
    requires p < |path|
    ensures p <= q <= |path| && q == p + WordEnd(path[p..])
    ensures path[p] != SLASH ==> p < q
  {
    q := p;
    while q < |path| && path[q] != SLASH
      invariant p <= q <= |path| && p + WordEnd(path[p..]) == q + WordEnd(path[q..])
    {
      assert path[q..][1..] == path[q + 1..];
      q := q + 1;
    }
  }

  lemma RootPlace(b: seq<byte>, d: DT)
    requires Contents(b, d) && d.root.INode? && ValidTokens(StructTokens(d))
    ensures IsNode(d, Top, d.root) && Index(Top) == 0 && NodeOff(d, Top) == 0
  {
    hide Contents, StructTokens, ValidTokens, Encode;
    assert StructTokens(d)[..0] == [];
    EmptyOff();
  }

  // ---- fdt_get_path ----

  /** Names from the root down to the node. */
  function Names(c: Context, n: Item): seq<seq<byte>>
    requires n.INode?
    decreases c
  {
    match c
    case Top => [n.name]
    case Inside(up, name, pad, left, right) => Names(up, INode(name, pad, left + [n] + right)) + [n.name]
  }

  /** Every name followed by a slash. */
  function Joined(names: seq<seq<byte>>): seq<byte> {
    if names == [] then [] else Joined(names[..|names| - 1]) + (names[|names| - 1] + [SLASH])
  }

  /** The path of a node: no trailing slash, but for the root itself. */
  function PathOf(names: seq<seq<byte>>): seq<byte> {
    var s := Joined(names);
    if |s| > 1 then s[..|s| - 1] else s
  }

  lemma JoinedSnoc(names: seq<seq<byte>>, x: seq<byte>)
    ensures Joined(names + [x]) == Joined(names) + (x + [SLASH])
  {
    assert (names + [x])[..|names|] == names;
  }

  /** How many of the names, with their slashes, fit into `len` bytes. */
  function Fitting(names: seq<seq<byte>>, len: nat): (m: nat)
    ensures m <= |names|
  {
    if names == [] then 0
    else
      var most := |names| - 1;
      if Fitting(names[..most], len) == most && |Joined(names)| <= len then |names|
      else Fitting(names[..most], len)
  }

  lemma FittingSnoc(names: seq<seq<byte>>, x: seq<byte>, len: nat)
    ensures Fitting(names + [x], len) ==
            if Fitting(names, len) == |names| && |Joined(names)| + |x| + 1 <= len then |names| + 1
              else Fitting(names, len)
  {
    JoinedSnoc(names, x);
    assert (names + [x])[..|names|] == names;
  }

  lemma {:induction false} FittingTake(names: seq<seq<byte>>, k: nat, len: nat)
    requires k <= |names|
    ensures Fitting(names[..k], len) == if Fitting(names, len) <= k then Fitting(names, len) else k
    decreases |names|
  {
    hide Joined;
    var most := |names| - 1;
    if k == |names| {
      assert names[..k] == names;
    } else {
      assert names[..most][..k] == names[..k];
      FittingTake(names[..most], k, len);
    }
  }

  /** Names all fit just when the whole does. */
  lemma {:induction false} FittingAll(names: seq<seq<byte>>, len: nat)
    ensures Fitting(names, len) == |names| <==> |Joined(names)| <= len
    decreases |names|
  {
    if names != [] {
      FittingAll(names[..|names| - 1], len);
    }
  }

  /** Name and depth of visit `k`. */
  function NameAt(d: DT, k: nat): seq<byte>
    requires d.root.INode? && k < |Nodes(d.root, 0, 0)|
  {
    var at := Nodes(d.root, 0, 0)[k].at;
    if at < |StructTokens(d)| && StructTokens(d)[at].Begin? then StructTokens(d)[at].name else []
  }

  /** The names on the way to visit `k`, as the walk finds them. */
  function Chain(d: DT, k: nat): (r: seq<seq<byte>>)
    requires d.root.INode? && k < |Nodes(d.root, 0, 0)|
    ensures |r| > 0
  {
    if k == 0 then [NameAt(d, 0)]
    else
      var prev, dep := Chain(d, k - 1), Nodes(d.root, 0, 0)[k].depth;
      (if 0 <= dep <= |prev| then prev[..dep] else prev) + [NameAt(d, k)]
  }

  lemma {:induction false} StepDepth(ts: seq<Token>, j: nat, dep: int)
    requires j <= |ts| && dep >= 0
    ensures Step(ts, j, dep).Found? ==> Step(ts, j, dep).depth <= dep + 1
    decreases |ts| - j
  {
    if j < |ts| && !ts[j].Begin? && !ts[j].End? && (ts[j].EndNode? ==> dep > 0) {
      StepDepth(ts, j + 1, if ts[j].EndNode? then dep - 1 else dep);
    }
  }

  /** The walk goes down one level at a time, and never back to the root's level. */
  lemma VisitLevels(d: DT, k: nat)
    requires d.root.INode? && At(StructTokens(d), 0, Flat(d.root)) && 0 < k < |Nodes(d.root, 0, 0)|
    ensures 1 <= Nodes(d.root, 0, 0)[k].depth <= Nodes(d.root, 0, 0)[k - 1].depth + 1
  {
    hide StructTokens, At, Flat, Step;
    var vs, ts := Nodes(d.root, 0, 0), StructTokens(d);
    WalkNode(ts, d.root, 0, 0, k - 1);
    assert vs[k..][0] == vs[k];
    VisitDepth(d.root, k - 1);
    StepDepth(ts, vs[k - 1].at + 1, vs[k - 1].depth);
    VisitsOf(d.root, 0, 0);
    DeepVisitsIn(d.root.items, 1, 1, k - 1);
  }

  lemma {:induction false} ChainLength(d: DT, k: nat)
    requires d.root.INode? && At(StructTokens(d), 0, Flat(d.root)) && k < |Nodes(d.root, 0, 0)|
    ensures |Chain(d, k)| == Nodes(d.root, 0, 0)[k].depth + 1
    decreases k
  {
    hide StructTokens, At, Flat, Nodes, NameAt;
    if k > 0 {
      VisitLevels(d, k);
      ChainLength(d, k - 1);
    } else {
      FirstVisit(d.root);
    }
  }

  lemma FirstVisit(n: Item)
    requires n.INode?
    ensures Nodes(n, 0, 0)[0] == Visit(0, 0)
  {
  }

  /** Below a node the names down to it stay. */
  lemma {:induction false} ChainKept(d: DT, j: nat, k: nat)
    requires d.root.INode? && At(StructTokens(d), 0, Flat(d.root)) && j <= k < |Nodes(d.root, 0, 0)|
    requires forall i | j < i <= k :: Nodes(d.root, 0, 0)[i].depth >= |Chain(d, j)|
    ensures |Chain(d, j)| <= |Chain(d, k)| && Chain(d, k)[..|Chain(d, j)|] == Chain(d, j)
    decreases k
  {
    hide StructTokens, At, Flat, Nodes, NameAt;
    if j < k {
      ChainKept(d, j, k - 1);
      VisitLevels(d, k);
      ChainLength(d, k - 1);
    }
  }

  lemma NodeName(d: DT, c: Context, n: Item)
    requires IsNode(d, c, n) && d.root.INode? && At(StructTokens(d), 0, Flat(d.root))
    ensures |Prefix(c)| < |Nodes(d.root, 0, 0)| && NameAt(d, |Prefix(c)|) == n.name
    ensures Nodes(d.root, 0, 0)[|Prefix(c)|].depth == Depth(c)
  {
    hide StructTokens, At, Flat, Nodes, Plug, Prefix, Before, Tail;
    NodeSplit(d, c, n);
    AtNode(StructTokens(d), Index(c), n);
    VisitOfNode(c, n);
  }

  /** The names the walk collects are the names of the node and those around it. */
  lemma {:induction false} ChainIsNames(d: DT, c: Context, n: Item)
    requires IsNode(d, c, n) && d.root.INode? && At(StructTokens(d), 0, Flat(d.root))
    ensures |Prefix(c)| < |Nodes(d.root, 0, 0)| && Chain(d, |Prefix(c)|) == Names(c, n) && |Names(c, n)| == Depth(c) + 1
    decreases c
  {
    hide StructTokens, At, Flat, Nodes, NameAt, Plug, NodesIn;
    NodeName(d, c, n);
    match c
    case Top =>
    case Inside(up, name, pad, left, right) =>
      var m := INode(name, pad, left + [n] + right);
      UpIsNode(d, c, n);
      ChainIsNames(d, up, m);
      var j, k := |Prefix(up)|, |Prefix(c)|;
      LeftVisits(d, c, n);
      ChainKept(d, j, k - 1);
      assert Chain(d, k) == Chain(d, k - 1)[..Depth(c)] + [n.name];
  }

  lemma UpIsNode(d: DT, c: Context, n: Item)
    requires c.Inside? && IsNode(d, c, n)
    ensures IsNode(d, c.up, INode(c.name, c.pad, c.left + [n] + c.right))
  {
  }

  /** The visits between a node and a child of it are all below the node. */
  lemma LeftVisits(d: DT, c: Context, n: Item)
    requires c.Inside? && IsNode(d, c, n) && d.root.INode?
    ensures |Prefix(c.up)| < |Prefix(c)| < |Nodes(d.root, 0, 0)|
    ensures forall i | |Prefix(c.up)| < i < |Prefix(c)| :: Nodes(d.root, 0, 0)[i].depth >= Depth(c)
  {
    hide Nodes, Plug, NodesIn, Before, Prefix, Depth;
    VisitOfNode(c, n);
    var vs, up := Nodes(d.root, 0, 0), c.up;
    var a, v := Prefix(up), Visit(Index(up), Depth(up));
    var inner := NodesIn(c.left, Index(up) + 1, Depth(up) + 1);
    PrefixStep(c);
    forall i | |a| < i < |Prefix(c)|
      ensures vs[i].depth >= Depth(c)
    {
      TailIndex(vs, a, v, inner, i);
      DeepVisitsIn(c.left, Index(up) + 1, Depth(up) + 1, i - |a| - 1);
    }
  }

  lemma PrefixStep(c: Context)
    requires c.Inside?
    ensures Prefix(c) == Prefix(c.up) + [Visit(Index(c.up), Depth(c.up))]
              + NodesIn(c.left, Index(c.up) + 1, Depth(c.up) + 1)
    ensures Depth(c) == Depth(c.up) + 1
  {
    hide NodesIn, Before;
  }

  lemma TailIndex(vs: seq<Visit>, a: seq<Visit>, v: Visit, inner: seq<Visit>, i: nat)
    requires |a + [v] + inner| <= |vs| && vs[..|a + [v] + inner|] == a + [v] + inner
    requires |a| < i < |a| + 1 + |inner|
    ensures vs[i] == inner[i - |a| - 1]
  {
    assert vs[i] == (a + [v] + inner)[i];
  }

  /** No name on the way contains a slash. */
  ghost predicate SlashFree(d: DT)
    requires d.root.INode?
  {
    forall k | 0 <= k < |Nodes(d.root, 0, 0)| :: SLASH !in NameAt(d, k)
  }

  lemma {:induction false} ChainSlashFree(d: DT, k: nat)
    requires d.root.INode? && SlashFree(d) && k < |Nodes(d.root, 0, 0)|
    ensures forall i | 0 <= i < |Chain(d, k)| :: SLASH !in Chain(d, k)[i]
    decreases k
  {
    hide Nodes, NameAt;
    if k > 0 {
      ChainSlashFree(d, k - 1);
    }
  }

  lemma NameInBlock(b: seq<byte>, ts: seq<Token>, i: nat)
    requires Reads(b, ts) && i < |ts| && ts[i].Begin?
    ensures var base, size, o := Field(b, OFF_STRUCT), Field(b, SIZE_STRUCT), Off(ts, i);
            && base + size <= |b| && size <= MAX_INT && o + 4 <= size
            && var z := NulFrom(b[base..base + size], o + 4); z < size && b[base..base + size][o + 4..z] == ts[i].name
  {
    hide Field, Encode, ValidTokens, Off;
    var o := Off(ts, i);
    var rest := NameBytes(ts, i);
    var s, name := StructBlock(b), ts[i].name;
    assert s[o + 4..][..|name|] == name && s[o + 4..][|name|] == NUL;
    assert s[o + 4..o + 4 + |name|] == name;
    NulFromUnique(s, o + 4, o + 4 + |name|);
  }

  /** fdt_get_name of a node: the bytes up to the NUL. */
  method GetName(buf: array<byte>, offset: nat, ghost ts: seq<Token>, ghost i: nat) returns (name: seq<byte>)
    requires Reads(buf[..], ts) && i < |ts| && ts[i].Begin? && offset == Off(ts, i)
    ensures name == ts[i].name
  {
    hide Get32, Encode, ValidTokens, Off, NulFrom, StructBlock;
    NameInBlock(buf[..], ts, i);
    var base: int := Read32(buf, OFF_STRUCT);
    var size: int := Read32(buf, SIZE_STRUCT);
    assert buf[..][base..base + size] == buf[base..base + size];
    var z := SkipName(buf, base, size, offset + 4);
    SliceSlice(buf[..], base, base + size, offset + 4, z);
    assert buf[..][base + offset + 4..base + z] == buf[base + offset + 4..base + z];
    name := buf[base + offset + 4..base + z];
  }

  lemma JoinedEnds(names: seq<seq<byte>>)
    requires names != []
    ensures |Joined(names)| > 0 && Joined(names)[|Joined(names)| - 1] == SLASH
  {
  }

  /** The inner loop of fdt_get_path: back over the last name to the slash before it. */
  method DropName(out: array<byte>, p: nat, ghost names: seq<seq<byte>>, ghost x: seq<byte>) returns (q: nat)
    requires names != [] && SLASH !in x && p <= out.Length && out[..p] == Joined(names + [x])
    ensures q == |Joined(names)| < p && out[..q] == Joined(names)
  {
    hide Joined;
    JoinedSnoc(names, x);
    JoinedEnds(names);
    ghost var n, was := |Joined(names)|, out[..p];
    assert was[..n] == Joined(names) && was[n..] == x + [SLASH];
    assert forall k | n <= k < p - 1 :: was[k] == x[k - n];
    assert was[n - 1] == Joined(names)[n - 1];
    q := p - 1;
    while out[q - 1] != SLASH
      invariant n <= q < p
      decreases q
    {
      assert out[q - 1] == was[q - 1];
      q := q - 1;
    }
    assert out[..q] == was[..n];
  }

  /** What is in the output buffer after a visit: the names that fit. */
  ghost predicate Wrote(out: seq<byte>, p: nat, pdepth: nat, names: seq<seq<byte>>, len: nat) {
    && pdepth == Fitting(names, len) <= |names|
    && p == |Joined(names[..pdepth])| <= len <= |out|
    && out[..p] == Joined(names[..pdepth])
  }

  lemma {:induction false} FittingFits(names: seq<seq<byte>>, len: nat)
    ensures |Joined(names[..Fitting(names, len)])| <= len
    decreases |names|
  {
    if names != [] {
      var most := names[..|names| - 1];
      FittingFits(most, len);
      if Fitting(names, len) < |names| {
        assert names[..Fitting(names, len)] == most[..Fitting(names, len)];
      } else {
        assert names[..|names|] == names;
      }
    }
  }

  /** Back up to the names shared with the next visit. */
  method DropNames(out: array<byte>, p: nat, pdepth: nat, depth: nat, ghost names: seq<seq<byte>>, ghost len: nat)
    returns (q: nat, qdepth: nat)
    requires Wrote(out[..], p, pdepth, names, len) && depth <= |names| && (depth == 0 ==> names == [])
    requires forall i | 0 <= i < |names| :: SLASH !in names[i]
    ensures Wrote(out[..], q, qdepth, names[..depth], len)
  {
    hide Joined, Fitting;
    q, qdepth := p, pdepth;
    while qdepth > depth
      invariant qdepth <= pdepth && (qdepth >= depth || qdepth == pdepth) && q == |Joined(names[..qdepth])| <= len
      invariant q <= out.Length && out[..q] == Joined(names[..qdepth])
    {
      assert names[..qdepth] == names[..qdepth - 1] + [names[qdepth - 1]];
      q := DropName(out, q, names[..qdepth - 1], names[qdepth - 1]);
      qdepth := qdepth - 1;
    }
    FittingTake(names, depth, len);
    assert names[..depth][..qdepth] == names[..qdepth];
    assert out[..][..q] == out[..q];
  }

  /** Add the name of the node now visited, if it fits. */
  method AddName(out: array<byte>, p: nat, pdepth: nat, depth: nat, x: seq<byte>, ghost names: seq<seq<byte>>, len: nat)
    returns (q: nat, qdepth: nat)
    requires Wrote(out[..], p, pdepth, names, len) && depth == |names|
    modifies out
    ensures Wrote(out[..], q, qdepth, names + [x], len)
    ensures out[len..] == old(out[len..])
  {
    hide Joined, Fitting, Patch;
    FittingSnoc(names, x, len);
    FittingFits(names, len);
    JoinedSnoc(names, x);
    q, qdepth := p, pdepth;
    ghost var was := out[..];
    assert names[..|names|] == names && (names + [x])[..|names| + 1] == names + [x];
    assert (names + [x])[..pdepth] == names[..pdepth];
    if pdepth >= depth {
      if p + |x| + 1 <= len {
        MemCpy(out, p, x + [SLASH]);
        CopiedAfter(was, p, x + [SLASH], len);
        assert out[..][len..] == out[len..] && was[len..] == old(out[len..]);
        q := p + |x| + 1;
        qdepth := pdepth + 1;
      }
    }
  }

  lemma CopiedAfter(b: seq<byte>, p: nat, data: seq<byte>, len: nat)
    requires p + |data| <= len <= |b|
    ensures Patch(b, p, data)[..p + |data|] == b[..p] + data && Patch(b, p, data)[len..] == b[len..]
  {
  }

  /** What the walk has written when it stands on visit `k`, before looking at it. */
  ghost predicate PathSoFar(d: DT, k: nat, out: seq<byte>, p: nat, pdepth: nat, len: nat)
    requires d.root.INode? && k <= |Nodes(d.root, 0, 0)|
  {
    Wrote(out, p, pdepth, if k == 0 then [] else Chain(d, k - 1), len)
  }

  /** One visit of the loop of fdt_get_path. */
  method VisitName(buf: array<byte>, out: array<byte>, offset: nat, depth: nat, p: nat, pdepth: nat, len: nat,
                   ghost d: DT, ghost k: nat)
    returns (q: nat, qdepth: nat)
    requires buf != out && Contents(buf[..], d) && d.root.INode? && SlashFree(d)
    requires k < |Nodes(d.root, 0, 0)| && Standing(d, k, offset, depth) && PathSoFar(d, k, out[..], p, pdepth, len)
    modifies out
    ensures Wrote(out[..], q, qdepth, Chain(d, k), len)
    ensures out[len..] == old(out[len..])
  {
    hide Contents, Nodes, Flat, Off, StructTokens, ValidTokens, At, Readable, Reads, Joined, Fitting, VisitOff,
      NameAt, SlashFree, Step, Chain, Wrote;
    WholeWalk(buf[..], d);
    VisitInRoot(d, k);
    ghost var at := Nodes(d.root, 0, 0)[k].at;
    ghost var names := if k == 0 then [] else Chain(d, k - 1);
    if k > 0 {
      VisitLevels(d, k);
      ChainLength(d, k - 1);
      ChainSlashFree(d, k - 1);
    } else {
      FirstVisit(d.root);
    }
    q, qdepth := DropNames(out, p, pdepth, depth, names, len);
    NameAtIs(d, k);
    ChainStep(d, k, names, depth);
    var x := GetName(buf, offset, StructTokens(d), at);
    q, qdepth := AddName(out, q, qdepth, depth, x, names[..depth], len);
  }

  lemma ChainStep(d: DT, k: nat, names: seq<seq<byte>>, depth: nat)
    requires d.root.INode? && k < |Nodes(d.root, 0, 0)| && Nodes(d.root, 0, 0)[k].depth == depth <= |names|
    requires names == if k == 0 then [] else Chain(d, k - 1)
    ensures Chain(d, k) == names[..depth] + [NameAt(d, k)]
  {
    hide Nodes, NameAt;
    assert names[..depth] + [NameAt(d, k)] == if k == 0 then [NameAt(d, k)]
      else Chain(d, k - 1)[..depth] + [NameAt(d, k)];
  }

  lemma NameAtIs(d: DT, k: nat)
    requires d.root.INode? && k < |Nodes(d.root, 0, 0)| && Nodes(d.root, 0, 0)[k].at < |StructTokens(d)|
    requires StructTokens(d)[Nodes(d.root, 0, 0)[k].at].Begin?
    ensures NameAt(d, k) == StructTokens(d)[Nodes(d.root, 0, 0)[k].at].name
  {
  }

  /** The step back at depth -1, behind the root: over all names, the root's included. `before`
      is the index, ahead of the buffer, of the next byte the code reads. */
  method StepBehind(out: array<byte>, p: nat, pdepth: nat, ghost names: seq<seq<byte>>, ghost len: nat)
    returns (before: int)
    requires Wrote(out[..], p, pdepth, names, len) && names != []
    requires forall i | 0 <= i < |names| :: SLASH !in names[i]
    ensures before == if |names[0]| + 1 <= len then -1 else -2
  {
    var q, qdepth := DropNames(out, p, pdepth, 1, names, len);
    FirstFits(names, len);
    ghost var was := out[..q];
    assert qdepth == 1 ==> forall k | 0 <= k < q - 1 :: was[k] == names[0][k];
    before := q;
    before := before - 1;
    while before >= 1 && out[before - 1] != SLASH
      invariant qdepth == 0 ==> before == -1
      invariant qdepth == 1 ==> 0 <= before < q
    {
      before := before - 1;
    }
    before := before - 1;
  }

  lemma FirstFits(names: seq<seq<byte>>, len: nat)
    requires names != []
    ensures Fitting(names[..1], len) == if |names[0]| + 1 <= len then 1 else 0
    ensures Joined(names[..1]) == names[0] + [SLASH] && Joined(names[..1][..0]) == [] && names[..1][..1] == names[..1]
  {
    var one := names[..1];
    assert one == [] + [names[0]] && one[..0] == [];
    JoinedSnoc([], names[0]);
  }

  lemma {:induction false} ChainFirst(d: DT, k: nat)
    requires d.root.INode? && At(StructTokens(d), 0, Flat(d.root)) && k < |Nodes(d.root, 0, 0)|
    ensures Chain(d, k)[0] == d.root.name
    decreases k
  {
    if k > 0 {
      hide StructTokens, At, Flat, Nodes, NameAt;
      VisitLevels(d, k);
      ChainLength(d, k - 1);
      ChainFirst(d, k - 1);
    }
  }

  /** fdt_get_path: the path of the node, if it fits with its terminator. `c` may be any node:
      the result is stated for the offset of that node, and for offsets of no node. From the end
      of the root on the code steps back over the root's own name, to bytes ahead of its output
      buffer: the model then ends, with the index of the first such byte in `before`. */
  method GetPath(buf: array<byte>, out: array<byte>, nodeoffset: int, buflen: nat,
                 ghost d: DT, ghost c: Context, ghost n: Item)
    returns (r: int, before: int)
    requires buf != out && buflen <= out.Length && Contents(buf[..], d) && IsNode(d, c, n)
    requires d.root.INode? && SlashFree(d) && ValidTokens(StructTokens(d)) && Index(c) < |StructTokens(d)|
    modifies out
    ensures CheckHeader(buf[..]) != 0 ==> r == CheckHeader(buf[..])
    ensures CheckHeader(buf[..]) == 0 && nodeoffset == NodeOff(d, c) ==>
              r == if buflen < 2 || |Joined(Names(c, n))| > buflen then ERR_NOSPACE else 0
    ensures CheckHeader(buf[..]) == 0 && NoNodeAt(d, nodeoffset) && before == 0 ==>
              r == if buflen < 2 then ERR_NOSPACE else ERR_BADOFFSET
    ensures CheckHeader(buf[..]) == 0 && nodeoffset == NodeOff(d, c) && r == 0 ==>
              |PathOf(Names(c, n))| < buflen && out[..|PathOf(Names(c, n))| + 1] == PathOf(Names(c, n)) + [NUL]
    ensures before != 0 <==> CheckHeader(buf[..]) == 0 && buflen >= 2 && RootEnd(d) <= nodeoffset
    ensures before != 0 ==> before == if |d.root.name| + 1 <= buflen then -1 else -2
    ensures out[buflen..] == old(out[buflen..])
  {
    hide Contents, Nodes, Flat, Off, StructTokens, ValidTokens, At, CheckHeader, VisitOff, Reads, NodeOff, RootEnd,
      Prefix, Before, Standing, SlashFree, Chain, Names, Joined, Wrote, Plug, PathOf, IsNode;
    WholeWalk(buf[..], d);
    before := 0;
    r := CheckHdr(buf);
    if r != 0 {
      return;
    }
    if buflen < 2 {
      return ERR_NOSPACE, before;
    }
    PlaceOf(d, c, n, 0);
    ChainIsNames(d, c, n);
    Started(buf[..], d);
    NothingWritten(out[..], buflen);
    ghost var k, target, last := 0, |Prefix(c)|, |Nodes(d.root, 0, 0)|;
    var offset, depth, p, pdepth := 0, 0, 0, 0;
    while offset >= 0 && offset <= nodeoffset
      invariant k <= last && Standing(d, k, offset, depth)
      invariant PathSoFar(d, k, out[..], p, pdepth, buflen)
      invariant forall j | 0 <= j < k :: VisitOff(d, j) < nodeoffset
      invariant out[buflen..] == old(out[buflen..])
      decreases last - k
    {
      StandingIs(d, k, offset, depth);
      if depth < 0 {
        ChainFirst(d, k - 1);
        ChainSlashFree(d, k - 1);
        VisitBelow(d, target);
        before := StepBehind(out, p, pdepth, Chain(d, k - 1), buflen);
        return;
      }
      VisitBelow(d, k);
      p, pdepth := VisitName(buf, out, offset, depth, p, pdepth, buflen, d, k);
      if offset == nodeoffset {
        AtTarget(d, c, n, k);
        ChainLength(d, k);
        r := EndPath(out, p, pdepth, depth, buflen, Chain(d, k));
        return;
      }
      offset, depth := NextVisit(buf, offset, depth, d, k);
      k := k + 1;
    }
    StandingIs(d, k, offset, depth);
    Missed(d, c, n, k, nodeoffset, offset, depth);
    if offset == ERR_NOTFOUND || offset >= 0 {
      return ERR_BADOFFSET, before;
    } else if offset == ERR_BADOFFSET {
      return ERR_BADSTRUCTURE, before;
    }
    r := offset;
  }

  /** The visit at a node's offset is that node's. */
  lemma AtTarget(d: DT, c: Context, n: Item, k: nat)
    requires IsNode(d, c, n) && d.root.INode? && ValidTokens(StructTokens(d)) && At(StructTokens(d), 0, Flat(d.root))
    requires k < |Nodes(d.root, 0, 0)| && Index(c) < |StructTokens(d)|
    ensures VisitOff(d, k) == NodeOff(d, c) ==> Chain(d, k) == Names(c, n) && Nodes(d.root, 0, 0)[k].depth == Depth(c)
  {
    hide Nodes, Flat, Off, StructTokens, ValidTokens, At, VisitOff, Prefix, Before, NodeOff, Chain, Names, IsNode;
    PlaceOf(d, c, n, 0);
    ChainIsNames(d, c, n);
    var target := |Prefix(c)|;
    if k < target {
      OffsetsGrow(d, k, target);
    } else if target < k {
      OffsetsGrow(d, target, k);
    }
  }

  lemma NothingWritten(out: seq<byte>, len: nat)
    requires len <= |out|
    ensures Wrote(out, 0, 0, [], len)
  {
  }

  /** The end of fdt_get_path: did all names fit, and the terminator. */
  method EndPath(out: array<byte>, p: nat, pdepth: nat, depth: nat, len: nat, ghost names: seq<seq<byte>>)
    returns (r: int)
    requires Wrote(out[..], p, pdepth, names, len) && |names| == depth + 1 && len >= 2
    modifies out
    ensures r == if |Joined(names)| > len then ERR_NOSPACE else 0
    ensures r == 0 ==> |PathOf(names)| < len && out[..|PathOf(names)| + 1] == PathOf(names) + [NUL]
    ensures out[len..] == old(out[len..])
  {
    hide Joined, Fitting;
    FittingAll(names, len);
    if pdepth < depth + 1 {
      return ERR_NOSPACE;
    }
    assert names[..pdepth] == names;
    JoinedEnds(names);
    var q := if p > 1 then p - 1 else p;
    assert out[..q] == PathOf(names) by {
      assert out[..][..p] == Joined(names);
      assert out[..q] == Joined(names)[..q];
    }
    out[q] := NUL;
    assert out[..q + 1] == out[..q] + [NUL];
    r := 0;
  }

  // ---- path of a node, node of a path ----

  /** No earlier sibling answers to the name of the node, nor to that of any node around it. */
  predicate Unshadowed(c: Context, n: Item)
    requires n.INode?
    decreases c
  {
    match c
    case Top => true
    case Inside(up, name, pad, left, right) =>
      && Unshadowed(up, INode(name, pad, left + [n] + right))
      && forall j | 0 <= j < |left| :: left[j].INode? ==> !Matches(left[j].name, n.name)
  }

  /** Positions of the node and those around it among their siblings. */
  function Positions(c: Context): seq<nat> {
    match c
    case Top => []
    case Inside(up, _, _, left, _) => Positions(up) + [|left|]
  }

  /** The node that positions lead to. */
  predicate LeadsTo(n: Item, idx: seq<nat>, m: Item)
    decreases |idx|
  {
    if idx == [] then n == m
    else n.INode? && idx[0] < |n.items| && LeadsTo(n.items[idx[0]], idx[1..], m)
  }

  lemma {:induction false} LeadsSnoc(n: Item, idx: seq<nat>, m: Item, k: nat)
    requires LeadsTo(n, idx, m) && m.INode? && k < |m.items|
    ensures LeadsTo(n, idx + [k], m.items[k])
    decreases |idx|
  {
    if idx == [] {
      assert idx + [k] == [k] && [k][1..] == [];
    } else {
      assert (idx + [k])[1..] == idx[1..] + [k];
      LeadsSnoc(n.items[idx[0]], idx[1..], m, k);
    }
  }

  lemma {:induction false} StartSnoc(n: Item, at: nat, idx: seq<nat>, m: Item, k: nat)
    requires LeadsTo(n, idx, m) && m.INode? && k < |m.items|
    ensures Start(n, at, idx + [k]) == Start(n, at, idx) + 1 + |FlatAll(m.items[..k])|
    decreases |idx|
  {
    hide FlatAll;
    if idx == [] {
      assert idx + [k] == [k] && [k][1..] == [];
    } else {
      assert (idx + [k])[1..] == idx[1..] + [k];
      StartSnoc(n.items[idx[0]], at + 1 + |FlatAll(n.items[..idx[0]])|, idx[1..], m, k);
    }
  }

  /** A node's positions lead to it and to its place. */
  lemma {:induction false} PositionsLead(c: Context, n: Item)
    requires n.INode?
    ensures LeadsTo(Plug(c, n), Positions(c), n) && Start(Plug(c, n), 0, Positions(c)) == Index(c)
    decreases c
  {
    match c
    case Top =>
    case Inside(up, name, pad, left, right) =>
      var m := INode(name, pad, left + [n] + right);
      PositionsLead(up, m);
      assert m.items[..|left|] == left;
      LeadsSnoc(Plug(up, m), Positions(up), m, |left|);
      StartSnoc(Plug(up, m), 0, Positions(up), m, |left|);
  }

  lemma {:induction false} StartInside(n: Item, at: nat, idx: seq<nat>, m: Item)
    requires LeadsTo(n, idx, m) && m.INode?
    ensures n.INode? && at <= Start(n, at, idx) < at + |Flat(n)| && (idx != [] ==> at < Start(n, at, idx))
    decreases |idx|
  {
    if idx != [] {
      FlatAllSplit(n.items, idx[0]);
      hide FlatAll;
      StartInside(n.items[idx[0]], at + 1 + |FlatAll(n.items[..idx[0]])|, idx[1..], m);
    }
  }

  lemma {:induction false} EarlierItem(items: seq<Item>, j: nat, k: nat)
    requires j < k <= |items|
    ensures |FlatAll(items[..j])| + |Flat(items[j])| <= |FlatAll(items[..k])|
    decreases k
  {
    FlatAllSplit(items, k - 1);
    if j < k - 1 {
      EarlierItem(items, j, k - 1);
    }
  }

  /** Different positions, different places. */
  lemma {:induction false} StartInjective(n: Item, at: nat, x: seq<nat>, p: Item, y: seq<nat>, q: Item)
    requires LeadsTo(n, x, p) && LeadsTo(n, y, q) && p.INode? && q.INode?
    requires Start(n, at, x) == Start(n, at, y)
    ensures x == y
    decreases |x|
  {
    StartInside(n, at, x, p);
    StartInside(n, at, y, q);
    if x != [] && y != [] {
      var j, k := x[0], y[0];
      var a, b := at + 1 + |FlatAll(n.items[..j])|, at + 1 + |FlatAll(n.items[..k])|;
      StartInside(n.items[j], a, x[1..], p);
      StartInside(n.items[k], b, y[1..], q);
      if j < k {
        EarlierItem(n.items, j, k);
        assert false;
      } else if k < j {
        EarlierItem(n.items, k, j);
        assert false;
      }
      hide FlatAll, Flat;
      StartInjective(n.items[j], a, x[1..], p, y[1..], q);
      assert x == [x[0]] + x[1..] && y == [y[0]] + y[1..];
    }
  }

  /** Names resolve to a node. */
  lemma {:induction false} ResolveLeads(n: Item, names: seq<seq<byte>>) returns (m: Item)
    requires n.INode? && Resolve(n, names).Some?
    ensures m.INode? && LeadsTo(n, Resolve(n, names).value, m)
    decreases |names|
  {
    m := n;
    if names != [] {
      var k := FindChild(n.items, names[0]);
      m := ResolveLeads(n.items[k], names[1..]);
      var r := Resolve(n.items[k], names[1..]).value;
      assert ([k] + r)[1..] == r;
    }
  }

  /** One more name: one more child. */
  lemma {:induction false} ResolveSnoc(n: Item, names: seq<seq<byte>>, idx: seq<nat>, m: Item, s: seq<byte>)
    requires n.INode? && m.INode? && Resolve(n, names) == Some(idx) && LeadsTo(n, idx, m)
    ensures Resolve(n, names + [s]) ==
            if FindChild(m.items, s) == |m.items| then None else Some(idx + [FindChild(m.items, s)])
    decreases |names|
  {
    hide FindChild;
    if names == [] {
      assert names + [s] == [s] && [s][1..] == [];
      assert idx + [FindChild(m.items, s)] == [FindChild(m.items, s)] + [];
    } else {
      assert (names + [s])[1..] == names[1..] + [s];
      var k := FindChild(n.items, names[0]);
      var r := Resolve(n.items[k], names[1..]).value;
      assert idx == [k] + r && idx[1..] == r;
      ResolveSnoc(n.items[k], names[1..], r, m, s);
      assert [k] + (r + [FindChild(m.items, s)]) == idx + [FindChild(m.items, s)];
    }
  }

  /** A prefix of names that resolves elsewhere never comes back. */
  lemma {:induction false} ResolvePrefix(n: Item, names: seq<seq<byte>>, s: seq<byte>)
    requires n.INode? && Resolve(n, names + [s]).Some?
    ensures Resolve(n, names).Some?
            && var r := Resolve(n, names + [s]).value; |r| > 0 && r[..|r| - 1] == Resolve(n, names).value
    decreases |names|
  {
    hide FindChild;
    if names == [] {
      assert names + [s] == [s] && [s][1..] == [];
    } else {
      assert (names + [s])[1..] == names[1..] + [s];
      var k := FindChild(n.items, names[0]);
      ResolvePrefix(n.items[k], names[1..], s);
      var r, q := Resolve(n.items[k], names[1..] + [s]).value, Resolve(n.items[k], names[1..]).value;
      assert ([k] + r)[..|r|] == [k] + r[..|r| - 1];
    }
  }

  lemma FindChildIs(left: seq<Item>, n: Item, right: seq<Item>, s: seq<byte>)
    requires n.INode? && Matches(n.name, s)
    ensures FindChild(left + [n] + right, s) == |left| <==>
            forall j | 0 <= j < |left| :: left[j].INode? ==> !Matches(left[j].name, s)
  {
    hide Matches;
    var items, k := left + [n] + right, FindChild(left + [n] + right, s);
    assert items[|left|] == n;
    assert forall j | 0 <= j < |left| :: items[j] == left[j];
    if k < |left| {
      assert items[k] == left[k];
    }
  }

  /** The names of a node resolve to its positions just when nothing shadows it. */
  lemma {:induction false} ResolveNames(c: Context, n: Item)
    requires n.INode?
    ensures Plug(c, n).INode? && |Names(c, n)| > 0
    ensures Resolve(Plug(c, n), Names(c, n)[1..]) == Some(Positions(c)) <==> Unshadowed(c, n)
    decreases c
  {
    hide FindChild, Matches;
    match c
    case Top =>
    case Inside(up, name, pad, left, right) =>
      var m := INode(name, pad, left + [n] + right);
      ResolveNames(up, m);
      var root, names := Plug(up, m), Names(up, m)[1..];
      assert Names(c, n)[1..] == names + [n.name];
      SelfMatch(n);
      FindChildIs(left, n, right, n.name);
      if Resolve(root, names) == Some(Positions(up)) {
        PositionsLead(up, m);
        ResolveSnoc(root, names, Positions(up), m, n.name);
        assert (Positions(up) + [FindChild(m.items, n.name)])[|Positions(up)|] == FindChild(m.items, n.name);
      } else if Resolve(root, names + [n.name]).Some? {
        ResolvePrefix(root, names, n.name);
        assert Positions(c)[..|Positions(c)| - 1] == Positions(up);
      }
  }

  lemma SelfMatch(n: Item)
    requires n.INode?
    ensures Matches(n.name, n.name)
  {
  }

  // ---- splitting the path gives the names back ----

  predicate Plain(names: seq<seq<byte>>) {
    forall i | 0 <= i < |names| :: names[i] != [] && SLASH !in names[i]
  }

  /** The names with a slash before each. */
  function Slashed(names: seq<seq<byte>>): seq<byte> {
    if names == [] then [] else [SLASH] + names[0] + Slashed(names[1..])
  }

  lemma {:induction false} WordEndIs(x: seq<byte>, rest: seq<byte>)
    requires SLASH !in x && (rest == [] || rest[0] == SLASH)
    ensures WordEnd(x + rest) == |x|
    decreases |x|
  {
    if x == [] {
      assert x + rest == rest;
    } else {
      assert (x + rest)[1..] == x[1..] + rest;
      WordEndIs(x[1..], rest);
    }
  }

  lemma {:induction false} ComponentsOf(names: seq<seq<byte>>)
    requires Plain(names)
    ensures Components(Slashed(names)) == names
    decreases |names|
  {
    if names != [] {
      var x, rest := names[0], Slashed(names[1..]);
      ComponentsOf(names[1..]);
      var path := [SLASH] + x + rest;
      assert path[1..] == x + rest;
      WordEndIs(x, rest);
      assert (x + rest)[..|x|] == x && (x + rest)[|x|..] == rest;
      assert names == [x] + names[1..];
    }
  }

  lemma {:induction false} SlashedSnoc(names: seq<seq<byte>>, x: seq<byte>)
    ensures Slashed(names + [x]) == Slashed(names) + [SLASH] + x
    decreases |names|
  {
    if names == [] {
      assert names + [x] == [x] && [x][1..] == [];
      assert Slashed([x]) == [SLASH] + x + [];
    } else {
      assert (names + [x])[1..] == names[1..] + [x];
      SlashedSnoc(names[1..], x);
    }
  }

  /** With a nameless root, joining puts a slash before each name and one at the end. */
  lemma {:induction false} JoinedIsSlashed(names: seq<seq<byte>>)
    ensures Joined([[]] + names) == Slashed(names) + [SLASH]
    decreases |names|
  {
    if names == [] {
      assert [[]] + names == [] + [[]];
      JoinedSnoc([], []);
      assert Joined([]) == [] && [] + ([] + [SLASH]) == [SLASH];
    } else {
      var most, x := names[..|names| - 1], names[|names| - 1];
      assert names == most + [x] && [[]] + names == ([[]] + most) + [x];
      JoinedIsSlashed(most);
      JoinedSnoc([[]] + most, x);
      SlashedSnoc(most, x);
    }
  }

  lemma SplitPath(names: seq<seq<byte>>)
    requires Plain(names)
    ensures Components(PathOf([[]] + names)) == names && PathOf([[]] + names) != [] && PathOf([[]] + names)[0] == SLASH
  {
    JoinedIsSlashed(names);
    var s := Slashed(names) + [SLASH];
    if names == [] {
      assert s == [SLASH] && s[1..] == [];
    } else {
      assert s[..|s| - 1] == Slashed(names) && |Slashed(names)| >= 1;
      hide Components;
      ComponentsOf(names);
    }
  }

  /** fdt_path_offset of a node's path is the node's offset just when no earlier sibling
      shadows the node or one around it. The root must be nameless, other names plain. */
  lemma PathRoundTrip(b: seq<byte>, d: DT, c: Context, n: Item)
    requires Contents(b, d) && IsNode(d, c, n)
    requires |Names(c, n)| > 0 && Names(c, n)[0] == [] && Plain(Names(c, n)[1..])
    ensures d.root.INode? && ValidTokens(StructTokens(d)) && Index(c) < |StructTokens(d)|
    ensures PathOf(Names(c, n)) != [] && PathOf(Names(c, n))[0] == SLASH
    ensures Rest(d, d.root, 0, Components(PathOf(Names(c, n)))) == NodeOff(d, c) <==> Unshadowed(c, n)
  {
    hide Contents, StructTokens, ValidTokens, Plug, Before, Names, Unshadowed, PathOf, Off, BadNode, Flat;
    WholeWalk(b, d);
    NodeIsGood(b, d, c, n);
    var names := Names(c, n)[1..];
    assert Names(c, n) == [[]] + names;
    SplitPath(names);
    ResolveNames(c, n);
    PositionsLead(c, n);
    StartInside(d.root, 0, Positions(c), n);
    if Resolve(d.root, names).Some? {
      var m := ResolveLeads(d.root, names);
      var idx := Resolve(d.root, names).value;
      StartInside(d.root, 0, idx, m);
      SameOff(d, Start(d.root, 0, idx), Index(c));
      if Start(d.root, 0, idx) == Index(c) {
        StartInjective(d.root, 0, idx, m, Positions(c), n);
      }
    }
  }

  /** Token boundaries tell tokens apart. */
  lemma SameOff(d: DT, i: nat, j: nat)
    requires ValidTokens(StructTokens(d)) && i <= |Flat(d.root)| && j < |StructTokens(d)|
    ensures OffAt(d, i) >= 0 && (OffAt(d, i) == Off(StructTokens(d), j) <==> i == j)
  {
    hide Off, ValidTokens, Flat;
    OffInjective(StructTokens(d), i, j);
  }
}
