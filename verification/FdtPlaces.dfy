/** Offsets that stay valid: where the tokens and nodes of a blob stand when one item gives way to
    NOPs of the same size. */
module FdtPlaces {
  import opened BigEndian
  import opened FdtTokens
  import opened FdtTree
  import opened FdtBlob
  import opened FdtRead
  import opened FdtNodes
  import opened FdtProps

  /** Where token `j` is when `w` tokens take the place of the `k` from token `i` on. */
  function Shifted(j: nat, i: nat, k: nat, w: nat): int {
    if j < i then j else j - k + w
  }

  /** Token `j` of `ts` is also in `us`, at the same offset, and in `b` that offset passes the
      node check or the property check as before. */
  ghost predicate TokenStays(b: seq<byte>, ts: seq<Token>, us: seq<Token>, j: nat, i: nat, k: nat, w: nat)
    requires Reads(b, us) && ValidTokens(ts)
  {
    var j' := Shifted(j, i, k, w);
    && j < |ts| && 0 <= j' < |us| && us[j'] == ts[j]
    && Off(us, j') == Off(ts, j) <= MAX_INT
    && (BadNode(b, Off(ts, j)) <==> !ts[j].Begin?)
    && (BadProp(b, Off(ts, j)) <==> !ts[j].Prop?)
  }

  /** All tokens stay but the `k` from token `i` on, in whose place there are `w` NOPs. */
  ghost predicate TokensStay(b: seq<byte>, ts: seq<Token>, us: seq<Token>, i: nat, k: nat, w: nat) {
    && Reads(b, us) && ValidTokens(ts) && i + k <= |ts| && us == Blotted(ts, i, k, w)
    && forall j | 0 <= j < |ts| && !(i <= j < i + k) :: TokenStays(b, ts, us, j, i, k, w)
  }

  /** `w` NOPs in place of the `k` tokens from token `i` on. */
  function Blotted(ts: seq<Token>, i: nat, k: nat, w: nat): seq<Token>
    requires i + k <= |ts|
  {
    ts[..i] + Nops(w) + ts[i + k..]
  }

  /** What has become of the node `n` that starts at token `j`: the NOPs are in it, or it is as it was. */
  ghost predicate BlottedNode(n: Item, n': Item, j: nat, i: nat, k: nat, w: nat) {
    if j < i && i + k <= j + |Flat(n)| then Flat(n') == Blotted(Flat(n), i - j, k, w) else n' == n
  }

  /** The offset of the node `n` at `c` in `d` is still that node's in `b`, which holds `e`. */
  ghost predicate NodeStays(b: seq<byte>, d: DT, e: DT, c: Context, n: Item, i: nat, k: nat, w: nat)
    requires Contents(b, e) && ValidTokens(StructTokens(d))
  {
    && Index(c) <= |StructTokens(d)| && NodeOff(d, c) <= MAX_INT && !BadNode(b, NodeOff(d, c))
    && exists c', n' :: Refers(b, e, NodeOff(d, c), c', n') && BlottedNode(n, n', Index(c), i, k, w)
  }

  /** Outside the `k` tokens from token `i` on of `d` every offset stays valid in `b`. */
  ghost predicate OffsetsStay(b: seq<byte>, d: DT, e: DT, i: nat, k: nat, w: nat) {
    && Contents(b, e)
    && TokensStay(b, StructTokens(d), StructTokens(e), i, k, w)
    && forall c, n | IsNode(d, c, n) && !(i <= Index(c) < i + k) :: NodeStays(b, d, e, c, n, i, k, w)
  }

  // ---- offsets ----

  lemma OffFront(p: seq<Token>, x: seq<Token>, q: seq<Token>, j: nat)
    requires ValidTokens(p + x + q) && ValidTokens(p) && j <= |p|
    ensures Off(p + x + q, j) == Off(p, j)
  {
    assert (p + x + q)[..j] == p[..j];
  }

  lemma OffBack(p: seq<Token>, x: seq<Token>, q: seq<Token>, j: nat)
    requires ValidTokens(p) && ValidTokens(x) && ValidTokens(q) && ValidTokens(p + x + q) && j <= |q|
    ensures Off(p + x + q, |p| + |x| + j) == |Encode(p)| + |Encode(x)| + Off(q, j)
  {
    hide Encode;
    assert (p + x + q)[..|p| + |x| + j] == p + x + q[..j];
    EncodeAppend(p + x, q[..j]);
    EncodeAppend(p, x);
  }

  /** `x` and `y` take the same room, so what is around them stays. */
  lemma TokenIsStill(b: seq<byte>, p: seq<Token>, x: seq<Token>, y: seq<Token>, q: seq<Token>, j: nat)
    requires ValidTokens(p) && ValidTokens(x) && ValidTokens(y) && ValidTokens(q)
    requires ValidTokens(p + x + q) && Reads(b, p + y + q) && |Encode(x)| == |Encode(y)|
    requires j < |p + x + q| && !(|p| <= j < |p| + |x|)
    ensures TokenStays(b, p + x + q, p + y + q, j, |p|, |x|, |y|)
  {
    hide Encode, Off, BadNode, BadProp, ValidTokens;
    var ts, us := p + x + q, p + y + q;
    assert ValidTokens(us);
    hide Reads;
    if j < |p| {
      OffFront(p, x, q, j);
      OffFront(p, y, q, j);
      BadNodeToken(b, us, j);
      BadPropToken(b, us, j);
    } else {
      var o := j - |p| - |x|;
      OffBack(p, x, q, o);
      OffBack(p, y, q, o);
      assert ts[j] == q[o] && us[|p| + |y| + o] == q[o];
      BadNodeToken(b, us, |p| + |y| + o);
      BadPropToken(b, us, |p| + |y| + o);
    }
  }

  // ---- nesting ----

  /** Nodes opened less nodes closed. */
  function Level(ts: seq<Token>): int {
    if ts == [] then 0 else Rise(ts[0]) + Level(ts[1..])
  }

  function Rise(t: Token): int {
    if t.Begin? then 1 else if t.EndNode? then -1 else 0
  }

  lemma LevelOne(t: Token)
    ensures Level([t]) == Rise(t) && Level([]) == 0
  {
    assert [t][1..] == [];
  }

  lemma {:induction false} LevelAppend(a: seq<Token>, b: seq<Token>)
    ensures Level(a + b) == Level(a) + Level(b)
  {
    if a == [] {
      assert a + b == b;
    } else {
      assert (a + b)[1..] == a[1..] + b;
      LevelAppend(a[1..], b);
    }
  }

  lemma {:induction false} LevelNops(w: nat)
    ensures Level(Nops(w)) == 0
  {
    if w > 0 {
      LevelNops(w - 1);
      assert Nops(w)[1..] == Nops(w - 1);
    }
  }

  /** Properties and whole nodes: nothing left open, and never more closed than opened. */
  predicate Balanced(ts: seq<Token>) {
    Level(ts) == 0 && forall r | 0 <= r <= |ts| :: Level(ts[..r]) >= 0
  }

  /** One node: open from its first token up to its last. */
  predicate OneNode(ts: seq<Token>) {
    ts != [] && Level(ts) == 0 && forall r | 0 < r < |ts| :: Level(ts[..r]) >= 1
  }

  lemma BalancedAppend(a: seq<Token>, b: seq<Token>)
    requires Balanced(a) && Balanced(b)
    ensures Balanced(a + b)
  {
    LevelAppend(a, b);
    forall r | 0 <= r <= |a + b|
      ensures Level((a + b)[..r]) >= 0
    {
      if r <= |a| {
        assert (a + b)[..r] == a[..r];
      } else {
        assert (a + b)[..r] == a + b[..r - |a|];
        LevelAppend(a, b[..r - |a|]);
      }
    }
  }

  lemma Wrapped(t: Token, body: seq<Token>)
    requires t.Begin? && Balanced(body)
    ensures OneNode([t] + body + [EndNode]) && Balanced([t] + body + [EndNode])
  {
    var ts := [t] + body + [EndNode];
    LevelOne(t);
    LevelOne(EndNode);
    LevelAppend([t] + body, [EndNode]);
    LevelAppend([t], body);
    forall r | 0 < r < |ts|
      ensures Level(ts[..r]) >= 1
    {
      assert ts[..r] == [t] + body[..r - 1];
      LevelAppend([t], body[..r - 1]);
    }
    assert ts[..0] == [] && ts[..|ts|] == ts;
  }

  lemma {:induction false} ItemLevel(it: Item)
    ensures Balanced(Flat(it)) && (it.INode? ==> OneNode(Flat(it)))
    decreases it, 1
  {
    match it
    case INode(name, pad, items) =>
      ItemsLevel(items);
      hide Balanced, OneNode;
      Wrapped(Begin(name, pad), FlatAll(items));
    case _ =>
      var t := Flat(it)[0];
      LevelOne(t);
      assert Flat(it) == [t] && [t][..0] == [] && [t][..1] == [t];
  }

  lemma {:induction false} ItemsLevel(items: seq<Item>)
    ensures Balanced(FlatAll(items))
    decreases items, 0
  {
    if items != [] {
      ItemLevel(items[0]);
      ItemsLevel(items[1..]);
      hide Balanced, Flat;
      BalancedAppend(Flat(items[0]), FlatAll(items[1..]));
    }
  }

  /** A node ends where it is closed. */
  lemma SameEnd(a: seq<Token>, r: seq<Token>, b: seq<Token>, q: seq<Token>)
    requires OneNode(a) && OneNode(b) && a + r == b + q
    ensures a == b
  {
    assert (a + r)[..|a|] == a && (b + q)[..|b|] == b;
    assert |a| <= |b| ==> b[..|a|] == (b + q)[..|a|];
    assert |b| <= |a| ==> a[..|b|] == (a + r)[..|b|];
  }

  /** An item that starts inside a node ends inside it. */
  lemma InsideWhole(ts: seq<Token>, i: nat, x: seq<Token>, rest: seq<Token>, more: seq<Token>)
    requires OneNode(ts) && Balanced(x) && 0 < i < |ts| && x != []
    requires ts + more == ts[..i] + x + rest
    ensures i + |x| < |ts| && ts[i..i + |x|] == x
  {
    var all := ts + more;
    if |ts| <= i + |x| {
      var r := |ts| - i;
      assert ts == all[..|ts|] == ts[..i] + x[..r];
      LevelAppend(ts[..i], x[..r]);
      assert false;
    } else {
      assert ts[i..i + |x|] == all[i..i + |x|] == x;
    }
  }

  lemma BlottedPrefix(ts: seq<Token>, i: nat, k: nat, w: nat, r: nat)
    requires i + k <= |ts| && Level(ts[i..i + k]) == 0 && r <= |Blotted(ts, i, k, w)|
    ensures r <= i ==> Blotted(ts, i, k, w)[..r] == ts[..r]
    ensures i < r <= i + w ==> Level(Blotted(ts, i, k, w)[..r]) == Level(ts[..i])
    ensures i + w < r ==> Level(Blotted(ts, i, k, w)[..r]) == Level(ts[..r - w + k])
  {
    hide Level;
    var us := Blotted(ts, i, k, w);
    if i < r <= i + w {
      assert us[..r] == ts[..i] + Nops(w)[..r - i];
      NopsPrefix(w, r - i);
      LevelNops(r - i);
      LevelAppend(ts[..i], Nops(r - i));
    } else if i + w < r {
      var tail := ts[i + k..r - w + k];
      assert us[..r] == ts[..i] + Nops(w) + tail;
      LevelAppend(ts[..i] + Nops(w), tail);
      LevelAppend(ts[..i], Nops(w));
      LevelNops(w);
      assert ts[..r - w + k] == ts[..i] + ts[i..i + k] + tail;
      LevelAppend(ts[..i] + ts[i..i + k], tail);
      LevelAppend(ts[..i], ts[i..i + k]);
    }
  }

  lemma {:induction false} NopsPrefix(w: nat, r: nat)
    requires r <= w
    ensures Nops(w)[..r] == Nops(r)
  {
    if r > 0 {
      NopsPrefix(w - 1, r - 1);
    }
  }

  /** NOPs in a node leave it a node. */
  lemma BlottedIsNode(ts: seq<Token>, i: nat, k: nat, w: nat)
    requires OneNode(ts) && 0 < i && i + k < |ts| && Level(ts[i..i + k]) == 0
    ensures OneNode(Blotted(ts, i, k, w))
  {
    hide Level, Blotted;
    var us := Blotted(ts, i, k, w);
    BlottedSize(ts, i, k, w);
    forall r | 0 < r <= |us|
      ensures r < |us| ==> Level(us[..r]) >= 1
      ensures r == |us| ==> Level(us[..r]) == 0
    {
      BlottedPrefix(ts, i, k, w, r);
      if r == |us| {
        assert ts[..r - w + k] == ts;
      }
    }
    assert us[..|us|] == us;
  }

  lemma BlottedSize(ts: seq<Token>, i: nat, k: nat, w: nat)
    requires i + k <= |ts|
    ensures |Blotted(ts, i, k, w)| == |ts| - k + w
  {
  }

  // ---- the node at a token that stays ----

  /** The tokens from `j` on are the node's. */
  lemma NodeFrom(d: DT, c: Context, n: Item) returns (rest: seq<Token>)
    requires IsNode(d, c, n)
    ensures Index(c) < |StructTokens(d)| && StructTokens(d)[Index(c)].Begin?
    ensures StructTokens(d)[Index(c)..] == Flat(n) + rest
  {
    hide StructTokens, Before, Plug, Flat, Behind;
    NodeSplit(d, c, n);
    AtNode(StructTokens(d), Index(c), n);
    rest := Behind(d, c);
    assert (Before(c) + Flat(n) + rest)[|Before(c)|..] == Flat(n) + rest;
  }

  /** What stands at that token once the item `x` has given way. */
  lemma NodeAmid(p: seq<Token>, x: seq<Token>, q: seq<Token>, w: nat, n: Item, j: nat, rest: seq<Token>)
      returns (ns: seq<Token>, j': nat, rest': seq<Token>)
    requires Balanced(x) && x != [] && n.INode? && OneNode(Flat(n)) && j < |p + x + q| && !(|p| <= j < |p| + |x|)
    requires (p + x + q)[j..] == Flat(n) + rest
    ensures j' == Shifted(j, |p|, |x|, w) < |p + Nops(w) + q| && (p + Nops(w) + q)[j'..] == ns + rest'
    ensures OneNode(ns)
    ensures ns == if j < |p| && |p| + |x| <= j + |Flat(n)| then Blotted(Flat(n), |p| - j, |x|, w) else Flat(n)
  {
    hide Flat, Balanced, OneNode;
    var ts, us := p + x + q, p + Nops(w) + q;
    var f := Flat(n);
    if j >= |p| {
      j', ns, rest' := j - |x| + w, f, rest;
      assert us[j'..] == ts[j..];
    } else {
      j' := j;
      var i := |p| - j;
      assert ts[j..] == p[j..] + x + q && us[j..] == p[j..] + Nops(w) + q;
      if |f| <= i {
        assert f == ts[j..][..|f|] == p[j..][..|f|];
        ns, rest' := f, p[j..][|f|..] + Nops(w) + q;
      } else {
        assert f[..i] == ts[j..][..i] == p[j..];
        InsideWhole(f, i, x, q, rest);
        BalancedZero(x);
        BlottedIsNode(f, i, |x|, w);
        ns, rest' := Blotted(f, i, |x|, w), rest;
        BlottedAmid(f, i, |x|, w, rest, p[j..], x, q);
      }
    }
  }

  lemma BlottedAmid(f: seq<Token>, i: nat, k: nat, w: nat, rest: seq<Token>, p: seq<Token>, x: seq<Token>,
                    q: seq<Token>)
    requires i + k <= |f| && |p| == i && |x| == k && p + x + q == f + rest
    ensures p + Nops(w) + q == Blotted(f, i, k, w) + rest
  {
    assert (f + rest)[..i] == p && (p + x + q)[i + k..] == q;
    assert f[i + k..] + rest == (f + rest)[i + k..];
  }

  lemma BalancedZero(x: seq<Token>)
    requires Balanced(x)
    ensures Level(x) == 0
  {
  }

  lemma SameFlat(a: Item, b: Item)
    requires Flat(a) == Flat(b)
    ensures a == b
  {
    ItemUnique(a, [], b, []);
    assert Flat(a) + [] == Flat(b) + [];
  }

  lemma ReadsValid(b: seq<byte>, ts: seq<Token>)
    requires Reads(b, ts)
    ensures ValidTokens(ts)
  {
  }

  /** The node at an offset that stays. */
  lemma NodeIsStill(b: seq<byte>, d: DT, e: DT, c: Context, n: Item, p: seq<Token>, it: Item, q: seq<Token>, w: nat)
    requires Contents(b, e) && ValidTokens(StructTokens(d)) && IsNode(d, c, n)
    requires StructTokens(d) == p + Flat(it) + q && StructTokens(e) == p + Nops(w) + q
    requires TokensStay(b, StructTokens(d), StructTokens(e), |p|, |Flat(it)|, w)
    requires !(|p| <= Index(c) < |p| + |Flat(it)|)
    ensures NodeStays(b, d, e, c, n, |p|, |Flat(it)|, w)
  {
    hide Contents, StructTokens, Flat, Off, Plug, Before, ValidTokens, Reads, BadNode, BadProp, OneNode, Balanced,
      Blotted, Nops;
    var ts, us, j, x := StructTokens(d), StructTokens(e), Index(c), Flat(it);
    var rest := NodeFrom(d, c, n);
    ContentsReads(b, e);
    ReadsValid(b, us);
    ItemLevel(it);
    ItemLevel(n);
    var ns, j', rest' := NodeAmid(p, x, q, w, n, j, rest);
    assert TokenStays(b, ts, us, j, |p|, |x|, w);
    var c', n' := BoundaryRefers(b, e, j');
    NodeAt(b, e, c', n', j', ns, rest');
    if !(j < |p| && |p| + |x| <= j + |Flat(n)|) {
      SameFlat(n', n);
    }
    assert BlottedNode(n, n', j, |p|, |x|, w);
  }

  /** The node at a token is the one whose tokens stand there. */
  lemma NodeAt(b: seq<byte>, e: DT, c: Context, n: Item, j: nat, ns: seq<Token>, rest: seq<Token>)
    requires Contents(b, e) && j < |StructTokens(e)| && ValidTokens(StructTokens(e))
    requires Off(StructTokens(e), j) <= MAX_INT
    requires Refers(b, e, Off(StructTokens(e), j), c, n) && !BadNode(b, Off(StructTokens(e), j))
    requires StructTokens(e)[j..] == ns + rest && OneNode(ns)
    ensures n.INode? && Flat(n) == ns
  {
    hide Contents, StructTokens, Flat, Off, Plug, Before, ValidTokens, BadNode, OneNode;
    OffInjective(StructTokens(e), j, Index(c));
    var rest' := NodeFrom(e, c, n);
    ItemLevel(n);
    SameEnd(Flat(n), rest', ns, rest);
  }

  /** Replacing one item by NOPs of its size leaves every offset outside it valid. */
  lemma AllStay(b: seq<byte>, d: DT, e: DT, p: seq<Token>, it: Item, q: seq<Token>, w: nat)
    requires Contents(b, e) && ValidTokens(p) && ValidTokens(Flat(it)) && ValidTokens(q) && ValidTokens(Nops(w))
    requires StructTokens(d) == p + Flat(it) + q && StructTokens(e) == p + Nops(w) + q
    requires ValidTokens(StructTokens(d)) && |Encode(Flat(it))| == |Encode(Nops(w))|
    ensures OffsetsStay(b, d, e, |p|, |Flat(it)|, w)
  {
    hide Contents, StructTokens, Flat, Encode, ValidTokens, Reads, IsNode, TokenStays, Nops, NodeStays;
    ContentsReads(b, e);
    var ts, us, x := StructTokens(d), StructTokens(e), Flat(it);
    assert ts[..|p|] == p && ts[|p| + |x|..] == q;
    forall j | 0 <= j < |ts| && !(|p| <= j < |p| + |x|)
      ensures TokenStays(b, ts, us, j, |p|, |x|, w)
    {
      TokenIsStill(b, p, x, Nops(w), q, j);
    }
    assert TokensStay(b, ts, us, |p|, |x|, w);
    hide TokensStay;
    forall c, n | IsNode(d, c, n) && !(|p| <= Index(c) < |p| + |x|)
      ensures NodeStays(b, d, e, c, n, |p|, |x|, w)
    {
      NodeIsStill(b, d, e, c, n, p, it, q, w);
    }
  }
}
