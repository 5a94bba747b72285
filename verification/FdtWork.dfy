/** A device tree being written sequentially: the nodes open now, the strings so far, names
    counted from the end of the string table, and what all that means as a document. */
module FdtWork {
  import opened BigEndian
  import opened Word32
  import opened Options
  import opened FdtTokens
  import opened FdtTree
  import opened FdtBlob
  import opened FdtProps
  import opened FdtWip

  /** A node begun and not yet ended, with what has been written in it so far. */
  datatype Frame = Frame(name: seq<byte>, pad: seq<byte>, items: seq<Item>)

  /** What has been written: reservations, the nodes open now (outermost first), the
      root once it is ended, and the strings. */
  datatype Work = Work(rsv: seq<Reserve>, frames: seq<Frame>, root: Option<Item>, strings: seq<byte>)

  function FrameTokens(fs: seq<Frame>): seq<Token> {
    if fs == [] then []
    else
      var f := fs[|fs| - 1];
      FrameTokens(fs[..|fs| - 1]) + ([Begin(f.name, f.pad)] + FlatAll(f.items))
  }

  function WorkTokens(w: Work): seq<Token> {
    match w.root
    case None => FrameTokens(w.frames)
    case Some(n) => Flat(n)
  }

  // ---- names counted from the end of the string table ----

  /** The string `k` bytes before the end of the table. */
  function FromEnd(strings: seq<byte>, off: u32): int { |strings| + off as int - W }

  /** A name offset as fdt_property stores it: minus the distance from the end, in 32 bits. */
  predicate EndNamed(strings: seq<byte>, off: u32, s: seq<byte>) {
    0 <= FromEnd(strings, off) < |strings| && Named(strings, FromEnd(strings, off), s)
  }

  predicate HasEndName(strings: seq<byte>, off: u32) {
    0 <= FromEnd(strings, off) < |strings| && HasString(strings, FromEnd(strings, off))
  }

  /** Growing the table at its front leaves every stored name what it was. */
  lemma EndNameGrow(more: seq<byte>, strings: seq<byte>, off: u32)
    requires HasEndName(strings, off)
    ensures HasEndName(more + strings, off)
    ensures StringAt(more + strings, FromEnd(more + strings, off)) == StringAt(strings, FromEnd(strings, off))
  {
    var p, q := FromEnd(strings, off), FromEnd(more + strings, off);
    var z := NulFrom(strings, p);
    assert (more + strings)[q..|more| + z] == strings[p..z];
    NulFromUnique(more + strings, q, |more| + z);
  }

  predicate EndNameOk(it: Item, strings: seq<byte>)
    decreases it
  {
    match it
    case INop => true
    case IProp(off, _, _) => HasEndName(strings, off)
    case INode(_, _, items) => EndNamesOk(items, strings)
  }

  predicate EndNamesOk(items: seq<Item>, strings: seq<byte>)
    decreases items
  {
    items == [] || (EndNameOk(items[0], strings) && EndNamesOk(items[1..], strings))
  }

  /** The tree written so far, names read from the end of the table. */
  function EndName(strings: seq<byte>, off: u32): seq<byte> {
    if HasEndName(strings, off) then StringAt(strings, FromEnd(strings, off)) else []
  }

  function EndProps(items: seq<Item>, strings: seq<byte>): seq<(seq<byte>, seq<byte>)> {
    if items == [] then []
    else
      (if items[0].IProp? then [(EndName(strings, items[0].nameoff), items[0].val)] else [])
      + EndProps(items[1..], strings)
  }

  function EndKids(items: seq<Item>, strings: seq<byte>): seq<Tree>
    decreases items
  {
    if items == [] then []
    else (if items[0].INode? then [EndDecode(items[0], strings)] else []) + EndKids(items[1..], strings)
  }

  function EndDecode(n: Item, strings: seq<byte>): Tree
    decreases n
  {
    match n
    case INode(name, _, items) => Tree(name, EndProps(items, strings), EndKids(items, strings))
    case _ => Tree([], [], [])
  }

  // ---- relocation ----

  /** fdt_finish adds the final table size to every name offset, in 32 bits. */
  function Relocate(it: Item, size: nat): Item
    decreases it
  {
    match it
    case INop => INop
    case IProp(off, val, pad) => IProp(U32(off + size), val, pad)
    case INode(name, pad, items) => INode(name, pad, RelocateAll(items, size))
  }

  function RelocateAll(items: seq<Item>, size: nat): (r: seq<Item>)
    ensures |r| == |items|
    decreases items
  {
    if items == [] then [] else [Relocate(items[0], size)] + RelocateAll(items[1..], size)
  }

  lemma OffsetFixed(strings: seq<byte>, off: u32)
    requires HasEndName(strings, off) && |strings| <= MAX_INT
    ensures U32(off + |strings|) == FromEnd(strings, off)
  {
  }

  /** Relocated names resolve, and the relocated tree means what was written. */
  lemma {:induction false} RelocateMeans(it: Item, strings: seq<byte>)
    requires EndNameOk(it, strings) && |strings| <= MAX_INT
    ensures NameOk(Relocate(it, |strings|), strings)
    ensures it.INode? ==> Decode(Relocate(it, |strings|), strings) == EndDecode(it, strings)
    decreases it, 1
  {
    match it
    case INop =>
    case IProp(off, _, _) => OffsetFixed(strings, off);
    case INode(_, _, items) => RelocateAllMeans(items, strings);
  }

  lemma {:induction false} RelocateAllMeans(items: seq<Item>, strings: seq<byte>)
    requires EndNamesOk(items, strings) && |strings| <= MAX_INT
    ensures NamesOk(RelocateAll(items, |strings|), strings)
    ensures Props(RelocateAll(items, |strings|), strings) == EndProps(items, strings)
    ensures Kids(RelocateAll(items, |strings|), strings) == EndKids(items, strings)
    decreases items, 0
  {
    if items != [] {
      var x, r := Relocate(items[0], |strings|), RelocateAll(items[1..], |strings|);
      RelocateMeans(items[0], strings);
      RelocateAllMeans(items[1..], strings);
      if items[0].IProp? {
        OffsetFixed(strings, items[0].nameoff);
      }
      hide StringAt, HasString, HasEndName;
      assert RelocateAll(items, |strings|) == [x] + r;
      PropsStep(x, r, strings);
      KidsStep(x, r, strings);
      assert ([x] + r)[1..] == r;
    }
  }

  // ---- the abstract writer ----

  /** A node being drafted. */
  datatype Draft = Draft(name: seq<byte>, props: seq<(seq<byte>, seq<byte>)>, kids: seq<Tree>)

  function DraftOf(f: Frame, strings: seq<byte>): Draft {
    Draft(f.name, EndProps(f.items, strings), EndKids(f.items, strings))
  }

  function Drafts(fs: seq<Frame>, strings: seq<byte>): seq<Draft> {
    seq(|fs|, i requires 0 <= i < |fs| => DraftOf(fs[i], strings))
  }

  predicate FramesOk(fs: seq<Frame>, strings: seq<byte>) {
    forall i | 0 <= i < |fs| :: EndNamesOk(fs[i].items, strings)
  }

  predicate NamesFine(w: Work) {
    && FramesOk(w.frames, w.strings)
    && (w.root.Some? ==> w.frames == [] && w.root.value.INode? && EndNameOk(w.root.value, w.strings))
  }

  /** The document as its author sees it: reservations, the open nodes, the finished root. */
  datatype Doc = Doc(rsv: seq<Reserve>, open: seq<Draft>, root: Option<Tree>)

  function Meaning(w: Work): Doc {
    Doc(w.rsv, Drafts(w.frames, w.strings), if w.root.Some? then Some(EndDecode(w.root.value, w.strings)) else None)
  }

  /** One call on the writer. */
  datatype Call = OpenNode(name: seq<byte>) | PutProp(name: seq<byte>, val: seq<byte>) | CloseNode

  /** What a call does to the document, when it is well nested. */
  function Apply(d: Doc, c: Call): Option<Doc> {
    if d.root.Some? then None
    else match c
      case OpenNode(name) => Some(d.(open := d.open + [Draft(name, [], [])]))
      case PutProp(name, val) => if d.open == [] then None else Some(DocProp(d, name, val))
      case CloseNode => if d.open == [] then None else Some(DocClosed(d))
  }

  function DocProp(d: Doc, name: seq<byte>, val: seq<byte>): Doc
    requires d.open != []
  {
    var k := |d.open| - 1;
    d.(open := d.open[k := d.open[k].(props := d.open[k].props + [(name, val)])])
  }

  function DocClosed(d: Doc): Doc
    requires d.open != []
  {
    var k := |d.open| - 1;
    var t := Tree(d.open[k].name, d.open[k].props, d.open[k].kids);
    if k == 0 then d.(open := [], root := Some(t))
    else d.(open := d.open[..k][k - 1 := d.open[k - 1].(kids := d.open[k - 1].kids + [t])])
  }

  function Run(d: Doc, calls: seq<Call>): Option<Doc>
    decreases |calls|
  {
    if calls == [] then Some(d)
    else match Apply(d, calls[0])
      case None => None
      case Some(e) => Run(e, calls[1..])
  }

  // ---- what the writer's calls do to the work ----

  const EMPTY_WORK := Work([], [], None, [])

  function Opened(w: Work, name: seq<byte>, pad: seq<byte>): Work {
    w.(frames := w.frames + [Frame(name, pad, [])])
  }

  function PropPut(w: Work, off: u32, val: seq<byte>, pad: seq<byte>): Work
    requires w.frames != []
  {
    var k := |w.frames| - 1;
    w.(frames := w.frames[k := w.frames[k].(items := w.frames[k].items + [IProp(off, val, pad)])])
  }

  function Closed(w: Work): Work
    requires w.frames != []
  {
    var k := |w.frames| - 1;
    var n := INode(w.frames[k].name, w.frames[k].pad, w.frames[k].items);
    if k == 0 then w.(frames := [], root := Some(n))
    else w.(frames := w.frames[..k][k - 1 := w.frames[k - 1].(items := w.frames[k - 1].items + [n])])
  }

  lemma FramesStep(fs: seq<Frame>, f: Frame)
    ensures FrameTokens(fs + [f]) == FrameTokens(fs) + ([Begin(f.name, f.pad)] + FlatAll(f.items))
  {
    assert (fs + [f])[..|fs|] == fs;
  }

  lemma NoFrames()
    ensures FrameTokens([]) == []
  {
  }

  lemma FlatAllSnoc(items: seq<Item>, it: Item)
    ensures FlatAll(items + [it]) == FlatAll(items) + Flat(it)
  {
    FlatAllAppend(items, [it]);
    FlatAllOne(it);
  }

  lemma OpenedTokens(w: Work, name: seq<byte>, pad: seq<byte>)
    requires w.root.None? && NamesFine(w)
    ensures WorkTokens(Opened(w, name, pad)) == WorkTokens(w) + [Begin(name, pad)] && NamesFine(Opened(w, name, pad))
    ensures Opened(w, name, pad).rsv == w.rsv && Opened(w, name, pad).strings == w.strings
  {
    hide FrameTokens;
    FramesStep(w.frames, Frame(name, pad, []));
    assert [Begin(name, pad)] + FlatAll([]) == [Begin(name, pad)];
  }

  lemma PropTokens(w: Work, off: u32, val: seq<byte>, pad: seq<byte>)
    requires w.root.None? && w.frames != []
    ensures WorkTokens(PropPut(w, off, val, pad)) == WorkTokens(w) + [Prop(off, val, pad)]
    ensures PropPut(w, off, val, pad).rsv == w.rsv && PropPut(w, off, val, pad).strings == w.strings
  {
    hide FrameTokens, FlatAll;
    var k := |w.frames| - 1;
    var f, it := w.frames[k], IProp(off, val, pad);
    var g := f.(items := f.items + [it]);
    assert w.frames == w.frames[..k] + [f] && w.frames[k := g] == w.frames[..k] + [g];
    FramesStep(w.frames[..k], f);
    FramesStep(w.frames[..k], g);
    FlatAllSnoc(f.items, it);
  }

  lemma ClosedTokens(w: Work)
    requires w.root.None? && w.frames != []
    ensures WorkTokens(Closed(w)) == WorkTokens(w) + [EndNode]
  {
    hide FrameTokens, FlatAll;
    var k := |w.frames| - 1;
    var f := w.frames[k];
    var n := INode(f.name, f.pad, f.items);
    assert w.frames == w.frames[..k] + [f];
    FramesStep(w.frames[..k], f);
    if k == 0 {
      NoFrames();
      assert w.frames[..0] == [];
      assert FrameTokens(w.frames[..0]) + ([Begin(f.name, f.pad)] + FlatAll(f.items)) + [EndNode] == Flat(n);
    } else {
      var e := w.frames[k - 1];
      var g := e.(items := e.items + [n]);
      assert w.frames[..k] == w.frames[..k - 1] + [e] && w.frames[..k][k - 1 := g] == w.frames[..k - 1] + [g];
      FramesStep(w.frames[..k - 1], e);
      FramesStep(w.frames[..k - 1], g);
      FlatAllSnoc(e.items, n);
    }
  }

  // ---- names of a grown list of items ----

  lemma {:induction false} EndNamesSnoc(items: seq<Item>, it: Item, strings: seq<byte>)
    requires EndNamesOk(items, strings) && EndNameOk(it, strings)
    ensures EndNamesOk(items + [it], strings)
    decreases |items|
  {
    if items == [] {
      assert [] + [it] == [it];
    } else {
      assert (items + [it])[1..] == items[1..] + [it];
      EndNamesSnoc(items[1..], it, strings);
    }
  }

  lemma {:induction false} EndPropsSnoc(items: seq<Item>, it: Item, strings: seq<byte>)
    ensures EndProps(items + [it], strings) ==
            EndProps(items, strings) + (if it.IProp? then [(EndName(strings, it.nameoff), it.val)] else [])
    decreases |items|
  {
    hide EndName;
    if items == [] {
      assert [] + [it] == [it] && [it][1..] == [];
    } else {
      assert (items + [it])[1..] == items[1..] + [it];
      EndPropsSnoc(items[1..], it, strings);
    }
  }

  lemma {:induction false} EndKidsSnoc(items: seq<Item>, it: Item, strings: seq<byte>)
    ensures EndKids(items + [it], strings) ==
            EndKids(items, strings) + (if it.INode? then [EndDecode(it, strings)] else [])
    decreases |items|
  {
    hide EndDecode;
    if items == [] {
      assert [] + [it] == [it] && [it][1..] == [];
    } else {
      EndKidsSnoc(items[1..], it, strings);
      EndKidsStep(items, strings);
      EndKidsStep(items + [it], strings);
      assert (items + [it])[1..] == items[1..] + [it] && (items + [it])[0] == items[0];
      hide EndKids;
      var a := if items[0].INode? then [EndDecode(items[0], strings)] else [];
      var c := if it.INode? then [EndDecode(it, strings)] else [];
      Joined(a, EndKids(items[1..], strings), c);
    }
  }

  lemma EndKidsStep(items: seq<Item>, strings: seq<byte>)
    requires items != []
    ensures EndKids(items, strings) ==
            (if items[0].INode? then [EndDecode(items[0], strings)] else []) + EndKids(items[1..], strings)
  {
    hide EndDecode;
  }

  lemma Joined(a: seq<Tree>, b: seq<Tree>, c: seq<Tree>)
    ensures a + (b + c) == a + b + c
  {
  }

  /** Growing the string table at its front changes nothing written so far. */
  lemma {:induction false} EndGrow(it: Item, more: seq<byte>, strings: seq<byte>)
    requires EndNameOk(it, strings)
    ensures EndNameOk(it, more + strings) && EndDecode(it, more + strings) == EndDecode(it, strings)
    decreases it, 1
  {
    match it
    case INop =>
    case IProp(off, _, _) => EndNameGrow(more, strings, off);
    case INode(_, _, items) => EndGrowAll(items, more, strings);
  }

  lemma {:induction false} EndGrowAll(items: seq<Item>, more: seq<byte>, strings: seq<byte>)
    requires EndNamesOk(items, strings)
    ensures EndNamesOk(items, more + strings)
    ensures EndProps(items, more + strings) == EndProps(items, strings)
    ensures EndKids(items, more + strings) == EndKids(items, strings)
    decreases items, 0
  {
    if items != [] {
      EndGrow(items[0], more, strings);
      EndGrowAll(items[1..], more, strings);
      if items[0].IProp? {
        EndNameGrow(more, strings, items[0].nameoff);
      }
      hide StringAt, HasEndName, EndDecode;
    }
  }

  lemma WorkGrow(w: Work, more: seq<byte>)
    requires NamesFine(w)
    ensures NamesFine(w.(strings := more + w.strings)) && Meaning(w.(strings := more + w.strings)) == Meaning(w)
    ensures WorkTokens(w.(strings := more + w.strings)) == WorkTokens(w)
  {
    hide EndNameOk, EndNamesOk, EndProps, EndKids, EndDecode;
    var v := w.(strings := more + w.strings);
    forall i | 0 <= i < |w.frames|
      ensures EndNamesOk(w.frames[i].items, v.strings)
      ensures DraftOf(w.frames[i], v.strings) == DraftOf(w.frames[i], w.strings)
    {
      EndGrowAll(w.frames[i].items, more, w.strings);
    }
    assert Drafts(v.frames, v.strings) == Drafts(w.frames, w.strings);
    if w.root.Some? {
      EndGrow(w.root.value, more, w.strings);
    }
  }

  // ---- each call does to the meaning what it says ----

  lemma OpenedMeans(w: Work, name: seq<byte>, pad: seq<byte>)
    requires w.root.None?
    ensures Apply(Meaning(w), OpenNode(name)) == Some(Meaning(Opened(w, name, pad)))
  {
    hide NamesFine;
    assert EndProps([], w.strings) == [] && EndKids([], w.strings) == [];
    assert Drafts(w.frames + [Frame(name, pad, [])], w.strings) == Drafts(w.frames, w.strings) + [Draft(name, [], [])];
  }

  lemma PropMeans(w: Work, off: u32, name: seq<byte>, val: seq<byte>, pad: seq<byte>)
    requires w.root.None? && w.frames != [] && NamesFine(w) && EndNamed(w.strings, off, name)
    ensures NamesFine(PropPut(w, off, val, pad))
    ensures Apply(Meaning(w), PutProp(name, val)) == Some(Meaning(PropPut(w, off, val, pad)))
  {
    var k := |w.frames| - 1;
    var f, it := w.frames[k], IProp(off, val, pad);
    EndNamesSnoc(f.items, it, w.strings);
    EndPropsSnoc(f.items, it, w.strings);
    EndKidsSnoc(f.items, it, w.strings);
    assert EndName(w.strings, off) == name;
    hide EndName, EndNamesOk, EndProps, EndKids, HasEndName, EndNamed;
    var g := f.(items := f.items + [it]);
    assert DraftOf(g, w.strings) == DraftOf(f, w.strings).(props := DraftOf(f, w.strings).props + [(name, val)]);
    assert Drafts(w.frames[k := g], w.strings) == Drafts(w.frames, w.strings)[k := DraftOf(g, w.strings)];
  }

  lemma ClosedMeans(w: Work)
    requires w.root.None? && w.frames != [] && NamesFine(w)
    ensures NamesFine(Closed(w)) && Apply(Meaning(w), CloseNode) == Some(Meaning(Closed(w)))
  {
    var k := |w.frames| - 1;
    var f := w.frames[k];
    var n := INode(f.name, f.pad, f.items);
    assert EndNamesOk(f.items, w.strings) && EndNameOk(n, w.strings);
    var t := EndDecode(n, w.strings);
    assert t == Tree(f.name, EndProps(f.items, w.strings), EndKids(f.items, w.strings));
    if k == 0 {
      assert Drafts([], w.strings) == [];
    } else {
      var e := w.frames[k - 1];
      assert EndNamesOk(e.items, w.strings);
      EndNamesSnoc(e.items, n, w.strings);
      EndPropsSnoc(e.items, n, w.strings);
      EndKidsSnoc(e.items, n, w.strings);
      hide EndNameOk, EndNamesOk, EndProps, EndKids, EndDecode;
      var g := e.(items := e.items + [n]);
      assert DraftOf(g, w.strings) == DraftOf(e, w.strings).(kids := DraftOf(e, w.strings).kids + [t]);
      assert Drafts(w.frames[..k][k - 1 := g], w.strings) ==
        Drafts(w.frames, w.strings)[..k][k - 1 := DraftOf(g, w.strings)];
    }
  }

  // ---- the calls that write a given tree ----

  function PropCalls(ps: seq<(seq<byte>, seq<byte>)>): seq<Call> {
    if ps == [] then [] else [PutProp(ps[0].0, ps[0].1)] + PropCalls(ps[1..])
  }

  /** Open the node, put its properties, write its children, close it. */
  function CallsOf(t: Tree): seq<Call>
    decreases t
  {
    [OpenNode(t.name)] + PropCalls(t.props) + KidCalls(t.kids) + [CloseNode]
  }

  function KidCalls(ts: seq<Tree>): seq<Call>
    decreases ts
  {
    if ts == [] then [] else CallsOf(ts[0]) + KidCalls(ts[1..])
  }

  lemma {:induction false} RunAppend(d: Doc, a: seq<Call>, b: seq<Call>)
    ensures Run(d, a + b) == (if Run(d, a).Some? then Run(Run(d, a).value, b) else None)
    decreases |a|
  {
    hide Apply;
    if a == [] {
      assert a + b == b;
    } else {
      assert (a + b)[1..] == a[1..] + b;
      if Apply(d, a[0]).Some? {
        RunAppend(Apply(d, a[0]).value, a[1..], b);
      }
    }
  }

  /** The open node `d.open`'s last, with more properties and children. */
  function Extended(d: Doc, props: seq<(seq<byte>, seq<byte>)>, kids: seq<Tree>): Doc
    requires d.open != []
  {
    var k := |d.open| - 1;
    d.(open := d.open[k := d.open[k].(props := d.open[k].props + props, kids := d.open[k].kids + kids)])
  }

  lemma ExtendedNothing(d: Doc)
    requires d.open != []
    ensures Extended(d, [], []) == d
  {
    var k := |d.open| - 1;
    assert d.open[k].props + [] == d.open[k].props && d.open[k].kids + [] == d.open[k].kids;
    assert d.open[k := d.open[k]] == d.open;
  }

  lemma {:induction false} RunProps(d: Doc, ps: seq<(seq<byte>, seq<byte>)>)
    requires d.open != [] && d.root.None?
    ensures Run(d, PropCalls(ps)) == Some(Extended(d, ps, []))
    decreases |ps|
  {
    var k := |d.open| - 1;
    if ps == [] {
      ExtendedNothing(d);
    } else {
      var e := DocProp(d, ps[0].0, ps[0].1);
      RunProps(e, ps[1..]);
      assert d.open[k].props + [ps[0]] + ps[1..] == d.open[k].props + ps by { assert ps == [ps[0]] + ps[1..]; }
      assert Extended(e, ps[1..], []) == Extended(d, ps, []);
      assert PropCalls(ps)[1..] == PropCalls(ps[1..]);
    }
  }

  /** The calls for a tree write exactly that tree: as the root, or as one more child. */
  lemma {:induction false} RunTree(d: Doc, t: Tree)
    requires d.root.None?
    ensures Run(d, CallsOf(t)) == Some(if d.open == [] then d.(root := Some(t)) else Extended(d, [], [t]))
    decreases t, 1
  {
    var start := d.(open := d.open + [Draft(t.name, [], [])]);
    var full := d.(open := d.open + [Draft(t.name, t.props, t.kids)]);
    RunOne(d, OpenNode(t.name));
    RunAppend(d, [OpenNode(t.name)], PropCalls(t.props));
    RunProps(start, t.props);
    RunAppend(d, [OpenNode(t.name)] + PropCalls(t.props), KidCalls(t.kids));
    RunKids(Extended(start, t.props, []), t.kids);
    assert Extended(Extended(start, t.props, []), [], t.kids) == full by {
      assert [] + t.props + [] == t.props && [] + t.kids == t.kids;
    }
    RunAppend(d, [OpenNode(t.name)] + PropCalls(t.props) + KidCalls(t.kids), [CloseNode]);
    RunOne(full, CloseNode);
    hide Run;
    ClosedDoc(d, t);
  }

  lemma ClosedDoc(d: Doc, t: Tree)
    requires d.root.None?
    ensures var full := d.(open := d.open + [Draft(t.name, t.props, t.kids)]);
            DocClosed(full) == if d.open == [] then d.(root := Some(t)) else Extended(d, [], [t])
  {
    var full := d.(open := d.open + [Draft(t.name, t.props, t.kids)]);
    if d.open != [] {
      var k := |d.open| - 1;
      assert full.open[..k + 1] == d.open;
      assert d.open[k].props + [] == d.open[k].props;
    }
  }

  lemma RunOne(d: Doc, c: Call)
    ensures Run(d, [c]) == Apply(d, c)
  {
    hide Apply;
    if Apply(d, c).Some? {
      assert Run(Apply(d, c).value, [c][1..]) == Apply(d, c);
    }
  }

  lemma {:induction false} RunKids(d: Doc, ts: seq<Tree>)
    requires d.open != [] && d.root.None?
    ensures Run(d, KidCalls(ts)) == Some(Extended(d, [], ts))
    decreases ts, 0
  {
    var k := |d.open| - 1;
    if ts == [] {
      ExtendedNothing(d);
    } else {
      assert d.open[k].props + [] == d.open[k].props;
      var e := Extended(d, [], [ts[0]]);
      RunTree(d, ts[0]);
      RunAppend(d, CallsOf(ts[0]), KidCalls(ts[1..]));
      RunKids(e, ts[1..]);
      hide Run, CallsOf;
      assert d.open[k].kids + [ts[0]] + ts[1..] == d.open[k].kids + ts by { assert ts == [ts[0]] + ts[1..]; }
      assert Extended(e, [], ts[1..]) == Extended(d, [], ts);
    }
  }
}
