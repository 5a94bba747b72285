/** From byte splices to tree edits: a splice of the structure block that replaces
    the bytes of some items by the bytes of others is that edit of the tree. */
module FdtEdit {
  import opened BigEndian
  import opened FdtTokens
  import opened FdtTree
  import opened FdtBlob
  import opened FdtProps
  import opened FdtSplice

  /** Same reservations and strings. */
  predicate SameSides(d: DT, e: DT) {
    d.rsv == e.rsv && d.term == e.term && d.strings == e.strings
  }

  lemma RsvKept(a: seq<byte>, b: seq<byte>, d: DT, at: nat)
    requires Holds(a, d) && HEADER_SIZE <= |b| && |a| == |b| && Field(b, OFF_RSVMAP) == Field(a, OFF_RSVMAP)
    requires Field(a, OFF_STRUCT) <= at <= |a| && a[HEADER_SIZE..at] == b[HEADER_SIZE..at]
    ensures var off, n := Field(b, OFF_RSVMAP), |ReserveBytes(d.rsv, d.term)|;
            off + n <= |b| && b[off..off + n] == ReserveBytes(d.rsv, d.term)
  {
    hide Get32, ReserveBytes, StructTokens, WellFormed, Field;
    var off, n := Field(a, OFF_RSVMAP), |ReserveBytes(d.rsv, d.term)|;
    PartsEqual(a, HEADER_SIZE, at, b, HEADER_SIZE, at, off - HEADER_SIZE, off + n - HEADER_SIZE);
  }

  lemma StringsMoved(a: seq<byte>, b: seq<byte>, d: DT, at: nat, oldlen: nat, newlen: nat)
    requires Holds(a, d) && StructSpliced(a, b, at, oldlen, newlen)
    requires at + oldlen <= Field(a, OFF_STRINGS)
    ensures Field(b, OFF_STRINGS) <= DataEnd(b) <= |b| && b[Field(b, OFF_STRINGS)..DataEnd(b)] == d.strings
  {
    hide Get32, ReserveBytes, StructTokens, WellFormed, Field, HeaderKept;
    var end, off := DataEnd(a), Field(a, OFF_STRINGS);
    Kept(a, b, {SIZE_STRUCT, OFF_STRINGS}, SIZE_STRINGS);
    PartsEqual(a, at + oldlen, end, b, at + newlen, end - oldlen + newlen, off - at - oldlen, end - at - oldlen);
  }

  lemma BlockMoved(a: seq<byte>, b: seq<byte>, base: nat, size: nat, at: nat, oldlen: nat, newlen: nat, end: nat)
    requires Moved(a, b, at, oldlen, newlen, end)
    requires HEADER_SIZE <= base <= at && at + oldlen <= base + size <= end
    ensures var size', pos, st := size - oldlen + newlen, at - base, a[base..base + size];
            base + size' <= |b| && b[base..base + size'] == st[..pos] + b[at..at + newlen] + st[pos + oldlen..]
  {
    var pos, st := at - base, a[base..base + size];
    PartsEqual(a, HEADER_SIZE, at, b, HEADER_SIZE, at, base - HEADER_SIZE, at - HEADER_SIZE);
    PartsEqual(a, at + oldlen, end, b, at + newlen, end - oldlen + newlen, 0, base + size - at - oldlen);
    SliceSlice(a, base, base + size, 0, pos);
    SliceSlice(a, base, base + size, pos + oldlen, size);
    hide Moved;
    assert st[..pos] == st[0..pos] == b[base..at];
    assert st[pos + oldlen..] == st[pos + oldlen..size] == b[at + newlen..base + size - oldlen + newlen];
    Adjacent(b, base, at, at + newlen, base + size - oldlen + newlen);
  }

  lemma StructMoved(a: seq<byte>, b: seq<byte>, d: DT, at: nat, oldlen: nat, newlen: nat)
    requires Holds(a, d) && StructSpliced(a, b, at, oldlen, newlen)
    requires Field(a, OFF_STRUCT) <= at && at + oldlen <= Field(a, OFF_STRUCT) + Field(a, SIZE_STRUCT)
    ensures Field(b, OFF_STRUCT) == Field(a, OFF_STRUCT) && Field(b, OFF_STRUCT) + Field(b, SIZE_STRUCT) <= |b|
    ensures var base, pos, st := Field(a, OFF_STRUCT), at - Field(a, OFF_STRUCT), StructBlock(a);
            b[base..base + Field(b, SIZE_STRUCT)] == st[..pos] + b[at..at + newlen] + st[pos + oldlen..]
  {
    hide Get32, Contents, Field, HeaderKept, Moved, ReserveBytes, GoodHeader;
    Kept(a, b, {SIZE_STRUCT, OFF_STRINGS}, OFF_STRUCT);
    BlockMoved(a, b, Field(a, OFF_STRUCT), Field(a, SIZE_STRUCT), at, oldlen, newlen, DataEnd(a));
  }

  /** After a splice of the structure block the buffer holds the tree whose structure
      block the splice produced; reservations and strings are the old ones. */
  lemma HoldsAfter(a: seq<byte>, b: seq<byte>, d: DT, e: DT, at: nat, oldlen: nat, newlen: nat)
    requires Holds(a, d) && StructSpliced(a, b, at, oldlen, newlen)
    requires Field(a, OFF_STRUCT) <= at && at + oldlen <= Field(a, OFF_STRUCT) + Field(a, SIZE_STRUCT)
    requires DataEnd(a) - oldlen + newlen <= Field(a, TOTALSIZE)
    requires WellFormed(e) && SameSides(d, e)
    requires var pos, st := at - Field(a, OFF_STRUCT), StructBlock(a);
             Encode(StructTokens(e)) == st[..pos] + b[at..at + newlen] + st[pos + oldlen..]
    ensures Holds(b, e)
  {
    hide Get32, ReserveBytes, StructTokens, WellFormed, Field, HeaderKept, Encode;
    var except := {SIZE_STRUCT, OFF_STRINGS};
    Kept(a, b, except, MAGIC);
    Kept(a, b, except, VERSION);
    Kept(a, b, except, LAST_COMP);
    Kept(a, b, except, TOTALSIZE);
    Kept(a, b, except, OFF_RSVMAP);
    Kept(a, b, except, SIZE_STRINGS);
    RsvKept(a, b, d, at);
    StringsMoved(a, b, d, at, oldlen, newlen);
    StructMoved(a, b, d, at, oldlen, newlen);
  }

  // ---- edits of the tokens ----

  /** The token sequences `x` and `y` take each other's place between `p` and `q`. */
  predicate Swapped(d: DT, e: DT, p: seq<Token>, x: seq<Token>, y: seq<Token>, q: seq<Token>) {
    && StructTokens(d) == p + x + q && StructTokens(e) == p + y + q
    && ValidTokens(p) && ValidTokens(x) && ValidTokens(y) && ValidTokens(q)
  }

  lemma SwappedBytes(d: DT, e: DT, p: seq<Token>, x: seq<Token>, y: seq<Token>, q: seq<Token>)
    requires Swapped(d, e, p, x, y, q)
    ensures ValidTokens(StructTokens(d)) && ValidTokens(StructTokens(e))
    ensures var st, pos, len := Encode(StructTokens(d)), |Encode(p)|, |Encode(x)|;
            pos + len <= |st| && st[pos..pos + len] == Encode(x) &&
            Encode(StructTokens(e)) == st[..pos] + Encode(y) + st[pos + len..]
  {
    hide StructTokens, Encode;
    EncodeAppend(p + x, q);
    EncodeAppend(p, x);
    EncodeAppend(p + y, q);
    EncodeAppend(p, y);
    var st, pos, len := Encode(StructTokens(d)), |Encode(p)|, |Encode(x)|;
    assert st[..pos] == Encode(p) && st[pos + len..] == Encode(q) && st[pos..pos + len] == Encode(x);
  }

  /** Tokens around the items `mid` of the node named `name` at `c`. */
  function ItemsBefore(c: Context, name: seq<byte>, pad: seq<byte>, left: seq<Item>): seq<Token> {
    Before(c) + [Begin(name, pad)] + FlatAll(left)
  }

  function ItemsAfter(nops: nat, c: Context, right: seq<Item>): seq<Token> {
    FlatAll(right) + [EndNode] + After(c) + Tail(nops)
  }

  lemma Regroup2(a: seq<Token>, b: seq<Token>, c: seq<Token>, d: seq<Token>, e: seq<Token>, f: seq<Token>,
                 g: seq<Token>, h: seq<Token>)
    ensures a + (b + (c + d + e) + f) + g + h == (a + b + c) + d + (e + f + g + h)
  {
  }

  lemma ItemsSplit(d: DT, c: Context, name: seq<byte>, pad: seq<byte>, left: seq<Item>, mid: seq<Item>,
                   right: seq<Item>)
    requires d.root == Plug(c, INode(name, pad, left + mid + right))
    ensures StructTokens(d) == ItemsBefore(c, name, pad, left) + FlatAll(mid) + ItemsAfter(d.nops, c, right)
  {
    hide FlatAll, Plug, Before, After, Tail;
    var n := INode(name, pad, left + mid + right);
    FlatPlug(c, n);
    FlatAllAppend(left + mid, right);
    FlatAllAppend(left, mid);
    Regroup2(Before(c), [Begin(name, pad)], FlatAll(left), FlatAll(mid), FlatAll(right), [EndNode], After(c),
      Tail(d.nops));
  }

  lemma ValidParts(a: seq<Token>, b: seq<Token>, c: seq<Token>)
    requires ValidTokens(a + b + c)
    ensures ValidTokens(a) && ValidTokens(b) && ValidTokens(c)
  {
    assert forall i | 0 <= i < |a| :: a[i] == (a + b + c)[i];
    assert forall i | 0 <= i < |b| :: b[i] == (a + b + c)[|a| + i];
    assert forall i | 0 <= i < |c| :: c[i] == (a + b + c)[|a| + |b| + i];
  }

  /** Replacing items `mid` of one node by `mid'`. */
  lemma ItemsSwapped(d: DT, c: Context, name: seq<byte>, pad: seq<byte>,
                     left: seq<Item>, mid: seq<Item>, mid': seq<Item>, right: seq<Item>)
    requires ValidTokens(StructTokens(d)) && d.root == Plug(c, INode(name, pad, left + mid + right))
    requires ValidTokens(FlatAll(mid'))
    ensures Swapped(d, d.(root := Plug(c, INode(name, pad, left + mid' + right))),
                    ItemsBefore(c, name, pad, left), FlatAll(mid), FlatAll(mid'), ItemsAfter(d.nops, c, right))
  {
    hide FlatAll, Plug, StructTokens, ItemsBefore, ItemsAfter, ValidTokens;
    var e := d.(root := Plug(c, INode(name, pad, left + mid' + right)));
    ItemsSplit(d, c, name, pad, left, mid, right);
    ItemsSplit(e, c, name, pad, left, mid', right);
    ValidParts(ItemsBefore(c, name, pad, left), FlatAll(mid), ItemsAfter(d.nops, c, right));
  }

  lemma {:induction false} PlugIsNode(c: Context, n: Item)
    requires n.INode?
    ensures Plug(c, n).INode?
  {
    if c.Inside? {
      PlugIsNode(c.up, INode(c.name, c.pad, c.left + [n] + c.right));
    }
  }

  /** The edited tree is well formed again. */
  lemma ItemsWellFormed(d: DT, c: Context, name: seq<byte>, pad: seq<byte>,
                        left: seq<Item>, mid: seq<Item>, mid': seq<Item>, right: seq<Item>)
    requires WellFormed(d) && d.root == Plug(c, INode(name, pad, left + mid + right))
    requires ValidTokens(FlatAll(mid')) && NamesOk(mid', d.strings)
    ensures WellFormed(d.(root := Plug(c, INode(name, pad, left + mid' + right))))
  {
    hide FlatAll, Plug, StructTokens, ItemsBefore, ItemsAfter, ValidTokens;
    var n, n' := INode(name, pad, left + mid + right), INode(name, pad, left + mid' + right);
    var e := d.(root := Plug(c, n'));
    ItemsSwapped(d, c, name, pad, left, mid, mid', right);
    SwappedBytes(d, e, ItemsBefore(c, name, pad, left), FlatAll(mid), FlatAll(mid'), ItemsAfter(d.nops, c, right));
    PlugNameOk(c, n, d.strings);
    PlugNameOk(c, n', d.strings);
    NamesOkAppend(left + mid, right, d.strings);
    NamesOkAppend(left, mid, d.strings);
    NamesOkAppend(left + mid', right, d.strings);
    NamesOkAppend(left, mid', d.strings);
    PlugIsNode(c, n');
  }
}
