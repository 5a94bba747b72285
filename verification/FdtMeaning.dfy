/** The edits seen in the decoded tree: what each of them does to what the blob means, and
    that the rest of the tree means what it did. */
module FdtMeaning {
  import opened Word32
  import opened BigEndian
  import opened FdtTokens
  import opened FdtTree
  import opened FdtBlob
  import opened FdtNodes
  import opened FdtProps
  import opened FdtStrings
  import opened FdtRw
  import opened FdtNodeRw
  import opened FdtLaws
  import opened FdtWip

  type Entry = (seq<byte>, seq<byte>)

  // ---- a node in its surroundings ----

  /** What everything around a node means, innermost enclosing node first. */
  datatype Around = Whole | Within(up: Around, name: seq<byte>, props: seq<Entry>, left: seq<Tree>, right: seq<Tree>)

  function Meant(c: Context, strings: seq<byte>): Around {
    match c
    case Top => Whole
    case Inside(up, name, _, left, right) =>
      Within(Meant(up, strings), name, Props(left, strings) + Props(right, strings), Kids(left, strings),
        Kids(right, strings))
  }

  function Graft(a: Around, t: Tree): Tree {
    match a
    case Whole => t
    case Within(up, name, props, left, right) => Graft(up, Tree(name, props, left + [t] + right))
  }

  /** The properties and children of a list of items cut in three. */
  lemma ThreeParts(left: seq<Item>, mid: seq<Item>, right: seq<Item>, strings: seq<byte>)
    ensures Props(left + mid + right, strings) == Props(left, strings) + Props(mid, strings) + Props(right, strings)
    ensures Kids(left + mid + right, strings) == Kids(left, strings) + Kids(mid, strings) + Kids(right, strings)
  {
    hide Props, Kids;
    PropsAppend(left + mid, right, strings);
    PropsAppend(left, mid, strings);
    KidsAppend(left + mid, right, strings);
    KidsAppend(left, mid, strings);
  }

  lemma OneItem(x: Item, strings: seq<byte>)
    ensures Props([x], strings) == if x.IProp? then [(NameOr(strings, x.nameoff), x.val)] else []
    ensures Kids([x], strings) == if x.INode? then [Decode(x, strings)] else []
  {
    hide NameOr, Decode;
    assert [x][1..] == [];
  }

  /** The tree is what the node means, grafted into what surrounds it. */
  lemma {:induction false} PlugMeans(c: Context, n: Item, strings: seq<byte>)
    requires n.INode?
    ensures Decode(Plug(c, n), strings) == Graft(Meant(c, strings), Decode(n, strings))
  {
    match c
    case Top =>
    case Inside(up, name, pad, left, right) =>
      PlugMeans(up, INode(name, pad, left + [n] + right), strings);
      ThreeParts(left, [n], right, strings);
      OneItem(n, strings);
      assert Props(left, strings) + [] == Props(left, strings);
  }

  // ---- a strings block that grows changes no meaning ----

  lemma {:induction false} PropsGrow(items: seq<Item>, strings: seq<byte>, more: seq<byte>)
    requires NamesOk(items, strings)
    ensures Props(items, strings + more) == Props(items, strings)
    decreases |items|
  {
    if items != [] {
      hide HasString, StringAt;
      if items[0].IProp? {
        NamedGrow(strings, more, items[0].nameoff);
      }
      PropsGrow(items[1..], strings, more);
    }
  }

  lemma {:induction false} DecodeGrow(n: Item, strings: seq<byte>, more: seq<byte>)
    requires NameOk(n, strings)
    ensures Decode(n, strings + more) == Decode(n, strings)
    decreases n
  {
    if n.INode? {
      PropsGrow(n.items, strings, more);
      KidsGrow(n.items, strings, more);
    }
  }

  lemma {:induction false} KidsGrow(items: seq<Item>, strings: seq<byte>, more: seq<byte>)
    requires NamesOk(items, strings)
    ensures Kids(items, strings + more) == Kids(items, strings)
    decreases items
  {
    if items != [] {
      DecodeGrow(items[0], strings, more);
      KidsGrow(items[1..], strings, more);
    }
  }

  lemma {:induction false} MeantGrow(c: Context, strings: seq<byte>, more: seq<byte>)
    requires AroundOk(c, strings)
    ensures Meant(c, strings + more) == Meant(c, strings)
  {
    if c.Inside? {
      PropsGrow(c.left, strings, more);
      PropsGrow(c.right, strings, more);
      KidsGrow(c.left, strings, more);
      KidsGrow(c.right, strings, more);
      MeantGrow(c.up, strings, more);
    }
  }

  lemma WithStringMore(strings: seq<byte>, s: seq<byte>) returns (more: seq<byte>)
    ensures WithString(strings, s) == strings + more
  {
    hide FindString;
    more := if FindString(strings, s, 0).Some? then [] else s + [NUL];
    assert strings + [] == strings;
  }

  /** What a failed fdt_setprop or fdt_appendprop leaves means what the blob meant before: at
      most a name has been added to the strings. */
  lemma FailedMeans(b: seq<byte>, d: DT, s: seq<byte>, e: DT)
    requires WellFormed(d) && HoldsBut(b, d, s) && Holds(b, e)
    ensures Decode(e.root, e.strings) == Decode(d.root, d.strings) && e.rsv == d.rsv
  {
    hide GoodHeader, Ordered, Contents, StructTokens, Decode;
    var more := WithStringMore(d.strings, s);
    if Holds(b, d) {
      HoldsUnique(b, e, d);
    } else {
      HoldsUnique(b, e, d.(strings := WithString(d.strings, s)));
      DecodeGrow(d.root, d.strings, more);
    }
  }

  // ---- edits of a list of properties ----

  /** Position of the first property of that name. */
  function Place(props: seq<Entry>, s: seq<byte>): (k: nat)
    ensures k <= |props| && (k < |props| ==> props[k].0 == s) && forall j | 0 <= j < k :: props[j].0 != s
  {
    if props == [] || props[0].0 == s then 0 else 1 + Place(props[1..], s)
  }

  /** The first property of that name given another value; nothing when there is none. */
  function Put(props: seq<Entry>, s: seq<byte>, val: seq<byte>): seq<Entry> {
    if Place(props, s) < |props| then props[Place(props, s) := (s, val)] else props
  }

  /** The first property of that name taken out. */
  function Strike(props: seq<Entry>, s: seq<byte>): seq<Entry> {
    if Place(props, s) < |props| then props[..Place(props, s)] + props[Place(props, s) + 1..] else props
  }

  lemma PlaceUnique(props: seq<Entry>, s: seq<byte>, k: nat)
    requires k < |props| && props[k].0 == s && forall j | 0 <= j < k :: props[j].0 != s
    ensures Place(props, s) == k
  {
  }

  lemma {:induction false} PropsNamed(items: seq<Item>, strings: seq<byte>, s: seq<byte>)
    requires NamesOk(items, strings)
             && forall j | 0 <= j < |items| && items[j].IProp? :: !Named(strings, items[j].nameoff, s)
    ensures forall j | 0 <= j < |Props(items, strings)| :: Props(items, strings)[j].0 != s
    decreases |items|
  {
    if items != [] {
      PropsNamed(items[1..], strings, s);
    }
  }

  /** The property the readers find is the first of that name in the decoded list. */
  lemma FoundFirst(items: seq<Item>, strings: seq<byte>, s: seq<byte>)
    requires NamesOk(items, strings) && FindProp(items, strings, s).Some?
    ensures var k, ps := FindProp(items, strings, s).value, Props(items, strings);
            && items == items[..k] + [items[k]] + items[k + 1..]
            && Place(ps, s) == |Props(items[..k], strings)| < |ps|
            && ps == Props(items[..k], strings) + [(s, items[k].val)] + Props(items[k + 1..], strings)
  {
    hide HasString, StringAt, NamesOk, Props, Kids;
    var k := FindProp(items, strings, s).value;
    assert items == items[..k] + [items[k]] + items[k + 1..];
    NamesOkAppend(items[..k], items[k..], strings);
    assert items == items[..k] + items[k..];
    PropsNamed(items[..k], strings, s);
    ThreeParts(items[..k], [items[k]], items[k + 1..], strings);
    OneItem(items[k], strings);
    PlaceUnique(Props(items, strings), s, |Props(items[..k], strings)|);
  }

  /** Properties before children, as section 5.4.2 of the Devicetree Specification has it. */
  predicate PropsFirst(items: seq<Item>) {
    forall i, j | 0 <= i < j < |items| && items[i].INode? :: !items[j].IProp?
  }

  /** Then a property is found just when the decoded node has one of that name. */
  lemma FoundIff(items: seq<Item>, strings: seq<byte>, s: seq<byte>)
    requires NamesOk(items, strings) && PropsFirst(items)
    ensures FindProp(items, strings, s).Some? <==> Place(Props(items, strings), s) < |Props(items, strings)|
  {
    hide NamesOk, Props, Named;
    if FindProp(items, strings, s).Some? {
      FoundFirst(items, strings, s);
    } else {
      PropsNamed(items, strings, s);
    }
  }

  // ---- the edits ----

  /** What fdt_setprop makes of a node: a new value in the place of the old one, or a new first property. */
  function Assigned(t: Tree, found: bool, s: seq<byte>, val: seq<byte>): Tree {
    t.(props := if found then Put(t.props, s, val) else [(s, val)] + t.props)
  }

  lemma ReplacedMeans(d: DT, c: Context, n: Item, s: seq<byte>, val: seq<byte>, pad: seq<byte>)
    requires IsNode(d, c, n) && NameOk(n, d.strings) && FindProp(n.items, d.strings, s).Some?
    ensures Decode(PropReplaced(d, c, n, FindProp(n.items, d.strings, s).value, val, pad).root, d.strings)
         == Graft(Meant(c, d.strings), Assigned(Decode(n, d.strings), true, s, val))
  {
    hide HasString, StringAt, NamesOk, Props, Kids, Graft, Meant, Plug;
    var k := FindProp(n.items, d.strings, s).value;
    var x := IProp(n.items[k].nameoff, val, pad);
    var l, r := n.items[..k], n.items[k + 1..];
    FoundFirst(n.items, d.strings, s);
    ThreeParts(l, [n.items[k]], r, d.strings);
    ThreeParts(l, [x], r, d.strings);
    OneItem(n.items[k], d.strings);
    OneItem(x, d.strings);
    hide FindProp, NameOr;
    var m := n.(items := l + [x] + r);
    PutHere(Props(l, d.strings), (s, n.items[k].val), Props(r, d.strings), s, val);
    assert Decode(m, d.strings).kids == Decode(n, d.strings).kids;
    PlugMeans(c, m, d.strings);
  }

  /** The first property of a name, and what Put and Strike do there. */
  lemma PutHere(l: seq<Entry>, e: Entry, r: seq<Entry>, s: seq<byte>, val: seq<byte>)
    requires e.0 == s && Place(l + [e] + r, s) == |l|
    ensures Put(l + [e] + r, s, val) == l + [(s, val)] + r
    ensures Strike(l + [e] + r, s) == l + r
  {
    assert (l + [e] + r)[|l| + 1..] == r && (l + [e] + r)[..|l|] == l;
  }

  lemma AddedMeans(d: DT, c: Context, n: Item, s: seq<byte>, val: seq<byte>, pad: seq<byte>)
    requires IsNode(d, c, n) && NameOk(n, d.strings) && AroundOk(c, d.strings) && NUL !in s
    requires StringOff(d.strings, s) <= MAX_INT
    ensures var e := PropAdded(d, c, n, s, val, pad);
            Decode(e.root, e.strings) == Graft(Meant(c, d.strings), Assigned(Decode(n, d.strings), false, s, val))
  {
    hide NamesOk, Props, Kids, Graft, Meant, Plug, WithString, StringOff, AroundOk, HasString, StringAt;
    var strings := WithString(d.strings, s);
    var more := WithStringMore(d.strings, s);
    WithStringNames(d.strings, s);
    var x := IProp(StringOff(d.strings, s) as u32, val, pad);
    PropsGrow(n.items, d.strings, more);
    KidsGrow(n.items, d.strings, more);
    MeantGrow(c, d.strings, more);
    ThreeParts([], [x], n.items, strings);
    NoItems(strings);
    OneItem(x, strings);
    var m := n.(items := [] + [x] + n.items);
    assert Decode(m, strings).props == [(s, val)] + Decode(n, d.strings).props;
    assert Decode(m, strings).kids == Decode(n, d.strings).kids;
    PlugMeans(c, m, strings);
  }

  lemma NoItems(strings: seq<byte>)
    ensures Props([], strings) == [] && Kids([], strings) == []
  {
  }

  /** fdt_setprop, in what the blob means: that property of that node has that value, new ones
      come first, and the rest of the tree is what it was. */
  lemma SetMeans(d: DT, c: Context, n: Item, s: seq<byte>, val: seq<byte>, pad: seq<byte>)
    requires WellFormed(d) && IsNode(d, c, n) && NUL !in s && StringOff(d.strings, s) <= MAX_INT
    ensures var e := PropSet(d, c, n, s, val, pad);
            Decode(e.root, e.strings)
            == Graft(Meant(c, d.strings), Assigned(Decode(n, d.strings), FindProp(n.items, d.strings, s).Some?, s, val))
    ensures Decode(d.root, d.strings) == Graft(Meant(c, d.strings), Decode(n, d.strings))
  {
    hide NamesOk, Decode, Graft, Meant, Plug, StringOff, AroundOk, FindProp, PropAdded, StructTokens, ValidTokens;
    PlugNameOk(c, n, d.strings);
    PlugMeans(c, n, d.strings);
    if FindProp(n.items, d.strings, s).Some? {
      ReplacedMeans(d, c, n, s, val, pad);
    } else {
      AddedMeans(d, c, n, s, val, pad);
    }
  }

  /** fdt_appendprop: the bytes come behind those the property had. */
  lemma AppendMeans(d: DT, c: Context, n: Item, s: seq<byte>, val: seq<byte>, pad: seq<byte>)
    requires WellFormed(d) && IsNode(d, c, n) && NUL !in s && StringOff(d.strings, s) <= MAX_INT
    ensures var e, t, found := PropAppended(d, c, n, s, val, pad), Decode(n, d.strings),
              FindProp(n.items, d.strings, s).Some?;
            && (found ==> Place(t.props, s) < |t.props|)
            && Decode(e.root, e.strings)
               == Graft(Meant(c, d.strings),
                 Assigned(t, found, s, (if found then t.props[Place(t.props, s)].1 else []) + val))
  {
    hide NamesOk, Props, Kids, Graft, Meant, Plug, StringOff, AroundOk, PropAdded, StructTokens, ValidTokens;
    PlugNameOk(c, n, d.strings);
    if FindProp(n.items, d.strings, s).Some? {
      FoundFirst(n.items, d.strings, s);
      ReplacedMeans(d, c, n, s, n.items[FindProp(n.items, d.strings, s).value].val + val, pad);
    } else {
      assert [] + val == val;
      AddedMeans(d, c, n, s, val, pad);
    }
  }

  /** fdt_delprop and fdt_nop_property: the node loses the first property of that name. */
  lemma DropMeans(d: DT, c: Context, n: Item, s: seq<byte>)
    requires WellFormed(d) && IsNode(d, c, n) && FindProp(n.items, d.strings, s).Some?
    ensures var t := Decode(n, d.strings);
            Decode(ItemDropped(d, c, n, FindProp(n.items, d.strings, s).value).root, d.strings)
            == Graft(Meant(c, d.strings), t.(props := Strike(t.props, s)))
  {
    hide NamesOk, Props, Kids, Graft, Meant, Plug, AroundOk, StructTokens, ValidTokens, HasString, StringAt;
    PlugNameOk(c, n, d.strings);
    var k := FindProp(n.items, d.strings, s).value;
    var l, r := n.items[..k], n.items[k + 1..];
    FoundFirst(n.items, d.strings, s);
    ThreeParts(l, [n.items[k]], r, d.strings);
    ThreeParts(l, [], r, d.strings);
    NoItems(d.strings);
    OneItem(n.items[k], d.strings);
    hide FindProp, NameOr;
    var m := n.(items := l + [] + r);
    PutHere(Props(l, d.strings), (s, n.items[k].val), Props(r, d.strings), s, []);
    assert Decode(m, d.strings).props == Props(l, d.strings) + Props(r, d.strings);
    assert Decode(m, d.strings).kids == Decode(n, d.strings).kids;
    PlugMeans(c, m, d.strings);
  }

  /** fdt_add_subnode: an empty node of that name as the last child. */
  lemma SubnodeMeans(d: DT, c: Context, n: Item, name: seq<byte>)
    requires IsNode(d, c, n)
    ensures var t := Decode(n, d.strings);
            Decode(SubnodeAdded(d, c, n, name).root, d.strings)
            == Graft(Meant(c, d.strings), t.(kids := t.kids + [Tree(name, [], [])]))
  {
    hide Props, Kids, Graft, Meant, Plug;
    ThreeParts(n.items, [NewNode(name)], [], d.strings);
    NoItems(d.strings);
    OneItem(NewNode(name), d.strings);
    assert Decode(NewNode(name), d.strings) == Tree(name, [], []);
    var m := n.(items := n.items + [NewNode(name)] + []);
    assert Decode(m, d.strings).props == Decode(n, d.strings).props;
    assert Decode(m, d.strings).kids == Decode(n, d.strings).kids + [Tree(name, [], [])];
    PlugMeans(c, m, d.strings);
  }

  /** fdt_del_node and fdt_nop_node: the node is gone from among its siblings. */
  lemma NodeDroppedMeans(d: DT, c: Context)
    requires c.Inside?
    ensures var a := Meant(c, d.strings);
            Decode(NodeDropped(d, c).root, d.strings) == Graft(a.up, Tree(a.name, a.props, a.left + a.right))
  {
    hide Props, Kids, Graft, Plug;
    ThreeParts(c.left, [], c.right, d.strings);
    NoItems(d.strings);
    var m, a := INode(c.name, c.pad, c.left + [] + c.right), Meant(c, d.strings);
    assert Decode(m, d.strings).props == a.props && Decode(m, d.strings).kids == a.left + a.right;
    PlugMeans(c.up, m, d.strings);
  }

  /** fdt_set_name: the same node under another name. */
  lemma RenamedMeans(d: DT, c: Context, n: Item, name: seq<byte>, pad: seq<byte>)
    requires IsNode(d, c, n)
    ensures Decode(Renamed(d, c, n, name, pad).root, d.strings)
         == Graft(Meant(c, d.strings), Decode(n, d.strings).(name := name))
  {
    hide Props, Kids, Graft, Meant, Plug;
    PlugMeans(c, n.(name := name, pad := pad), d.strings);
  }
}
