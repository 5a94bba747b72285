/** The nesting of a structure block: nodes, properties and NOPs as a tree, its
    flattening into tokens, one node seen in its surroundings, and the preorder
    walk that `fdt_next_node` makes. */
module FdtTree {
  import opened BigEndian
  import opened Word32
  import opened FdtTokens

  datatype Item =
    | INop
    | IProp(nameoff: u32, val: seq<byte>, pad: seq<byte>)
    | INode(name: seq<byte>, pad: seq<byte>, items: seq<Item>)

  function Flat(it: Item): (ts: seq<Token>)
    ensures |ts| > 0
    decreases it
  {
    match it
    case INop => [Nop]
    case IProp(nameoff, val, pad) => [Prop(nameoff, val, pad)]
    case INode(name, pad, items) => [Begin(name, pad)] + FlatAll(items) + [EndNode]
  }

  function FlatAll(items: seq<Item>): (ts: seq<Token>)
    decreases items
  {
    if items == [] then [] else Flat(items[0]) + FlatAll(items[1..])
  }

  lemma {:induction false} FlatAllAppend(a: seq<Item>, b: seq<Item>)
    ensures FlatAll(a + b) == FlatAll(a) + FlatAll(b)
  {
    if a == [] {
      assert a + b == b;
    } else {
      assert (a + b)[1..] == a[1..] + b;
      FlatAllAppend(a[1..], b);
    }
  }

  lemma FlatAllOne(it: Item)
    ensures FlatAll([it]) == Flat(it)
  {
    assert FlatAll([it]) == Flat(it) + FlatAll([]);
  }

  /** The items of a list split at any position. */
  lemma FlatAllSplit(items: seq<Item>, k: nat)
    requires k < |items|
    ensures FlatAll(items) == FlatAll(items[..k]) + Flat(items[k]) + FlatAll(items[k + 1..])
    ensures FlatAll(items[..k + 1]) == FlatAll(items[..k]) + Flat(items[k])
  {
    hide Flat, FlatAll;
    assert items == items[..k + 1] + items[k + 1..];
    assert items[..k + 1] == items[..k] + [items[k]];
    FlatAllAppend(items[..k + 1], items[k + 1..]);
    FlatAllAppend(items[..k], [items[k]]);
    FlatAllOne(items[k]);
  }

  // ---- the tokens determine the tree ----

  lemma CancelTokens(a: seq<Token>, r: seq<Token>, b: seq<Token>, q: seq<Token>)
    requires |a| == |b| && a + r == b + q
    ensures a == b && r == q
  {
    assert (a + r)[..|a|] == a && (a + r)[|a|..] == r;
    assert (b + q)[..|b|] == b && (b + q)[|b|..] == q;
  }

  lemma {:induction false} ItemUnique(a: Item, r: seq<Token>, b: Item, q: seq<Token>)
    requires Flat(a) + r == Flat(b) + q
    ensures a == b && r == q
    decreases a, 1
  {
    assert (Flat(a) + r)[0] == Flat(a)[0] && (Flat(b) + q)[0] == Flat(b)[0];
    if a.INode? {
      var x, y := FlatAll(a.items) + ([EndNode] + r), FlatAll(b.items) + ([EndNode] + q);
      assert Flat(a) + r == [Flat(a)[0]] + x && Flat(b) + q == [Flat(b)[0]] + y;
      CancelTokens([Flat(a)[0]], x, [Flat(b)[0]], y);
      ItemsUnique(a.items, r, b.items, q);
    } else {
      CancelTokens(Flat(a), r, Flat(b), q);
    }
  }

  lemma {:induction false} ItemsUnique(a: seq<Item>, r: seq<Token>, b: seq<Item>, q: seq<Token>)
    requires FlatAll(a) + ([EndNode] + r) == FlatAll(b) + ([EndNode] + q)
    ensures a == b && r == q
    decreases a, 0
  {
    var x, y := FlatAll(a) + ([EndNode] + r), FlatAll(b) + ([EndNode] + q);
    assert a != [] ==> x[0] == Flat(a[0])[0];
    assert b != [] ==> y[0] == Flat(b[0])[0];
    if a == [] && b == [] {
      assert x == [EndNode] + r && y == [EndNode] + q;
      CancelTokens([EndNode], r, [EndNode], q);
    } else {
      assert a != [] && b != [];
      assert x == Flat(a[0]) + (FlatAll(a[1..]) + ([EndNode] + r));
      assert y == Flat(b[0]) + (FlatAll(b[1..]) + ([EndNode] + q));
      ItemUnique(a[0], FlatAll(a[1..]) + ([EndNode] + r), b[0], FlatAll(b[1..]) + ([EndNode] + q));
      ItemsUnique(a[1..], r, b[1..], q);
      assert a == [a[0]] + a[1..] && b == [b[0]] + b[1..];
    }
  }

  // ---- one node in its surroundings ----

  /** Everything around one node of a tree, innermost enclosing node first. */
  datatype Context =
    | Top
    | Inside(up: Context, name: seq<byte>, pad: seq<byte>, left: seq<Item>, right: seq<Item>)

  function Plug(c: Context, n: Item): Item {
    match c
    case Top => n
    case Inside(up, name, pad, left, right) => Plug(up, INode(name, pad, left + [n] + right))
  }

  function Before(c: Context): seq<Token> {
    match c
    case Top => []
    case Inside(up, name, pad, left, _) => Before(up) + [Begin(name, pad)] + FlatAll(left)
  }

  function After(c: Context): seq<Token> {
    match c
    case Top => []
    case Inside(up, _, _, _, right) => FlatAll(right) + [EndNode] + After(up)
  }

  lemma Regroup(a: seq<Token>, b: seq<Token>, c: seq<Token>, d: seq<Token>, e: seq<Token>, f: seq<Token>, g: seq<Token>)
    ensures a + (b + (c + d + e) + f) + g == (a + b + c) + d + (e + f + g)
  {
  }

  /** Replacing a node replaces exactly its own stretch of tokens. */
  lemma {:induction false} FlatPlug(c: Context, n: Item)
    ensures Flat(Plug(c, n)) == Before(c) + Flat(n) + After(c)
  {
    match c
    case Top =>
    case Inside(up, name, pad, left, right) =>
      var items := left + [n] + right;
      FlatPlug(up, INode(name, pad, items));
      assert items[..|left|] == left && items[|left| + 1..] == right;
      FlatAllSplit(items, |left|);
      Regroup(Before(up), [Begin(name, pad)], FlatAll(left), Flat(n), FlatAll(right), [EndNode], After(up));
  }

  /** Every BEGIN_NODE token belongs to a node in its surroundings. */
  lemma {:induction false} Locate(c: Context, n: Item, i: nat) returns (c': Context, n': Item)
    requires n.INode? && i < |Flat(n)| && Flat(n)[i].Begin?
    ensures n'.INode? && Plug(c', n') == Plug(c, n) && |Before(c')| == |Before(c)| + i
    decreases n, 1
  {
    if i == 0 {
      return c, n;
    }
    assert Flat(n)[i] == FlatAll(n.items)[i - 1];
    c', n' := LocateIn(c, n, 0, i - 1);
  }

  lemma {:induction false} LocateIn(c: Context, n: Item, k: nat, i: nat) returns (c': Context, n': Item)
    requires n.INode? && k <= |n.items|
    requires i < |FlatAll(n.items[k..])| && FlatAll(n.items[k..])[i].Begin?
    ensures n'.INode? && Plug(c', n') == Plug(c, n)
    ensures |Before(c')| == |Before(c)| + 1 + |FlatAll(n.items[..k])| + i
    decreases n, 0, |n.items| - k
  {
    var it := n.items[k];
    assert n.items[k..][1..] == n.items[k + 1..];
    if i < |Flat(it)| {
      var inner := Inside(c, n.name, n.pad, n.items[..k], n.items[k + 1..]);
      assert n.items == n.items[..k] + [it] + n.items[k + 1..];
      c', n' := Locate(inner, it, i);
    } else {
      FlatAllSplit(n.items, k);
      c', n' := LocateIn(c, n, k + 1, i - |Flat(it)|);
    }
  }

  // ---- the preorder walk ----

  /** Token index and depth of one node. */
  datatype Visit = Visit(at: nat, depth: int)

  /** All nodes of `n` in preorder, for `n` starting at token `at`, at depth `d`. */
  function Nodes(n: Item, at: nat, d: int): (vs: seq<Visit>)
    requires n.INode?
    ensures |vs| > 0 && vs[0] == Visit(at, d)
    decreases n, 1
  {
    [Visit(at, d)] + NodesIn(n.items, at + 1, d + 1)
  }

  function NodesIn(items: seq<Item>, at: nat, d: int): seq<Visit>
    decreases items, 0
  {
    if items == [] then []
    else
      (if items[0].INode? then Nodes(items[0], at, d) else [])
      + NodesIn(items[1..], at + |Flat(items[0])|, d)
  }

  datatype StepResult = Found(at: nat, depth: int) | Left(at: nat) | Ended(depth: int)

  /** The loop of fdt_next_node on tokens, from token `j` on: the next BEGIN_NODE,
      or the token after the END_NODE that takes the depth below zero, or the end. */
  function Step(ts: seq<Token>, j: nat, depth: int): StepResult
    requires j <= |ts|
    decreases |ts| - j
  {
    if j == |ts| then Ended(depth)
    else match ts[j]
      case Begin(_, _) => Found(j, depth + 1)
      case EndNode => if depth - 1 < 0 then Left(j + 1) else Step(ts, j + 1, depth - 1)
      case End => Ended(depth)
      case _ => Step(ts, j + 1, depth)
  }

  /** `xs` stands in `ts` at position `j`. */
  predicate At(ts: seq<Token>, j: nat, xs: seq<Token>) {
    j + |xs| <= |ts| && ts[j..j + |xs|] == xs
  }

  lemma AtParts(ts: seq<Token>, j: nat, a: seq<Token>, b: seq<Token>)
    requires At(ts, j, a + b)
    ensures At(ts, j, a) && At(ts, j + |a|, b)
  {
    assert ts[j..j + |a|] == ts[j..j + |a + b|][..|a|] == a;
    assert ts[j + |a|..j + |a + b|] == ts[j..j + |a + b|][|a|..] == b;
  }

  lemma AtNode(ts: seq<Token>, j: nat, n: Item)
    requires n.INode? && At(ts, j, Flat(n))
    ensures ts[j] == Begin(n.name, n.pad)
    ensures At(ts, j + 1, FlatAll(n.items))
    ensures j + |Flat(n)| == j + 1 + |FlatAll(n.items)| + 1
    ensures ts[j + 1 + |FlatAll(n.items)|] == EndNode
  {
    var x := [Begin(n.name, n.pad)];
    assert Flat(n) == x + (FlatAll(n.items) + [EndNode]);
    AtParts(ts, j, x, FlatAll(n.items) + [EndNode]);
    AtParts(ts, j + 1, FlatAll(n.items), [EndNode]);
    assert ts[j] == ts[j..j + 1][0];
  }

  /** What is next on the way: the first of `vs`, or `last` when there is none. */
  function First(vs: seq<Visit>, last: StepResult): StepResult {
    if vs == [] then last else Found(vs[0].at, vs[0].depth)
  }

  lemma FirstAppend(a: seq<Visit>, b: seq<Visit>, last: StepResult)
    ensures First(a + b, last) == First(a, First(b, last))
  {
  }

  /** Walking into a list of items finds its first node, or passes the list by. */
  lemma {:induction false} StepIn(ts: seq<Token>, j: nat, items: seq<Item>, d: int)
    requires At(ts, j, FlatAll(items)) && d >= 0
    ensures Step(ts, j, d) == First(NodesIn(items, j, d + 1), Step(ts, j + |FlatAll(items)|, d))
    decreases |items|
  {
    if items != [] {
      AtParts(ts, j, Flat(items[0]), FlatAll(items[1..]));
      if items[0].INode? {
        AtNode(ts, j, items[0]);
      } else {
        assert ts[j] == ts[j..j + 1][0] == Flat(items[0])[0];
        StepIn(ts, j + 1, items[1..], d);
      }
    }
  }

  /** The walk moves from node `v` to `r`. */
  predicate Moves(ts: seq<Token>, v: Visit, r: StepResult) {
    v.at < |ts| && Step(ts, v.at + 1, v.depth) == r
  }

  /** Where the walk goes when it has seen the last node of `n`. */
  function Exit(ts: seq<Token>, n: Item, j: nat, d: int): StepResult
    requires At(ts, j, Flat(n))
  {
    if d - 1 < 0 then Left(j + |Flat(n)|) else Step(ts, j + |Flat(n)|, d - 1)
  }

  /** From each node the walk moves to the next one in preorder, at its right depth,
      and from the last one it leaves the tree. */
  lemma {:induction false} WalkNode(ts: seq<Token>, n: Item, j: nat, d: int, k: nat)
    requires n.INode? && At(ts, j, Flat(n)) && d >= 0 && k < |Nodes(n, j, d)|
    ensures Moves(ts, Nodes(n, j, d)[k], First(Nodes(n, j, d)[k + 1..], Exit(ts, n, j, d)))
    decreases n, 1
  {
    AtNode(ts, j, n);
    hide At, Flat, FlatAll;
    var inner := NodesIn(n.items, j + 1, d + 1);
    assert Nodes(n, j, d) == [Visit(j, d)] + inner;
    assert Nodes(n, j, d)[k + 1..] == inner[k..];
    if k == 0 {
      assert inner[0..] == inner;
      StepIn(ts, j + 1, n.items, d);
    } else {
      WalkItems(ts, n.items, j + 1, d + 1, k - 1);
    }
  }

  lemma {:induction false} WalkItems(ts: seq<Token>, items: seq<Item>, j: nat, d: int, k: nat)
    requires At(ts, j, FlatAll(items)) && d >= 1 && k < |NodesIn(items, j, d)|
    ensures Moves(ts, NodesIn(items, j, d)[k],
                  First(NodesIn(items, j, d)[k + 1..], Step(ts, j + |FlatAll(items)|, d - 1)))
    decreases items, 0
  {
    var it, next := items[0], j + |Flat(items[0])|;
    var first := if it.INode? then Nodes(it, j, d) else [];
    var rest := NodesIn(items[1..], next, d);
    AtParts(ts, j, Flat(it), FlatAll(items[1..]));
    assert NodesIn(items, j, d) == first + rest;
    assert j + |FlatAll(items)| == next + |FlatAll(items[1..])|;
    hide At, Flat, FlatAll, NodesIn, Nodes, Moves;
    if k < |first| {
      WalkNode(ts, it, j, d, k);
      StepIn(ts, next, items[1..], d - 1);
      DropEarlier(first, rest, k);
      FirstAppend(first[k + 1..], rest, Step(ts, j + |FlatAll(items)|, d - 1));
    } else {
      WalkItems(ts, items[1..], next, d, k - |first|);
      DropLater(first, rest, k);
    }
  }

  lemma DropEarlier<T>(a: seq<T>, b: seq<T>, k: nat)
    requires k < |a|
    ensures (a + b)[k] == a[k] && (a + b)[k + 1..] == a[k + 1..] + b
  {
  }

  lemma DropLater<T>(a: seq<T>, b: seq<T>, k: nat)
    requires |a| <= k < |a + b|
    ensures (a + b)[k] == b[k - |a|] && (a + b)[k + 1..] == b[k - |a| + 1..]
  {
  }
}
