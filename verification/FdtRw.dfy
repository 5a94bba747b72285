/** The read-write functions on properties: set, append, delete. */
module FdtRw {
  import opened BigEndian
  import opened Word32
  import opened FdtTokens
  import opened FdtTree
  import opened FdtBlob
  import opened FdtRead
  import opened FdtNodes
  import opened FdtProps
  import opened FdtSplice
  import opened FdtEdit
  import opened FdtStrings

  /** Bytes a property with a value of `len` bytes takes. */
  function PropSize(len: nat): (n: nat)
    ensures n >= 12 + len
  {
    12 + Align4(len)
  }

  lemma WordIs(x: seq<byte>, o: nat)
    requires o + 4 <= |x|
    ensures x[o..o + 4] == Enc32(Get32(x, o))
  {
    EncBe(x[o..o + 4]);
  }

  /** Tag, length, name and value make the bytes a property token. */
  lemma PropMade(x: seq<byte>, nameoff: u32, val: seq<byte>)
    requires |val| <= MAX_INT && |x| == PropSize(|val|)
    requires Get32(x, 0) == FDT_PROP && Get32(x, 4) == |val| && Get32(x, 8) == nameoff
    requires x[12..12 + |val|] == val
    ensures var t := Prop(nameoff, val, x[12 + |val|..]); ValidToken(t) && Bytes(t) == x
  {
    hide Get32, Enc32;
    WordIs(x, 0);
    WordIs(x, 4);
    WordIs(x, 8);
    hide Align4, PropSize;
    FiveParts(x, 4, 8, 12, 12 + |val|);
  }

  lemma FiveParts(x: seq<byte>, i: nat, j: nat, k: nat, l: nat)
    requires i <= j <= k <= l <= |x|
    ensures x == x[0..i] + (x[i..j] + x[j..k] + x[k..l] + x[l..])
  {
    assert x[i..j] + x[j..k] == x[i..k];
    assert x[i..k] + x[k..l] == x[i..l];
    assert x[i..l] + x[l..] == x[i..];
  }

  /** The property header fields in the buffer at `p`. */
  predicate HasHead(b: seq<byte>, p: nat, nameoff: u32, len: nat) {
    p + PropSize(len) <= |b|
    && Get32(b, p) == FDT_PROP && Get32(b, p + 4) == len && Get32(b, p + 8) == nameoff
  }

  lemma PropMadeAt(b: seq<byte>, p: nat, nameoff: u32, val: seq<byte>)
    requires |val| <= MAX_INT && HasHead(b, p, nameoff, |val|) && b[p + 12..p + 12 + |val|] == val
    ensures var t := Prop(nameoff, val, b[p + 12 + |val|..p + PropSize(|val|)]);
            ValidToken(t) && Bytes(t) == b[p..p + PropSize(|val|)]
  {
    hide Get32, PropSize, Bytes, ValidToken;
    var end := p + PropSize(|val|);
    var x := b[p..end];
    SubWord(b, p, end, 0);
    SubWord(b, p, end, 4);
    SubWord(b, p, end, 8);
    SliceSlice(b, p, end, 12, 12 + |val|);
    SliceSlice(b, p, end, 12 + |val|, |x|);
    assert x[12 + |val|..] == x[12 + |val|..|x|];
    PropMade(x, nameoff, val);
  }

  lemma PatchWords(b: seq<byte>, off: nat, data: seq<byte>, o: nat)
    requires off + |data| <= |b| && o + 4 <= |b| && (o + 4 <= off || off + |data| <= o)
    ensures Get32(Patch(b, off, data), o) == Get32(b, o)
  {
    hide Patch;
    PatchSlices(b, off, data, o, o + 4);
  }

  lemma PatchWord(b: seq<byte>, o: nat, v: u32)
    requires o + 4 <= |b|
    ensures Get32(Patch(b, o, Enc32(v)), o) == v
  {
    hide Patch, Enc32;
    PatchData(b, o, Enc32(v));
  }

  /** Copying the value in leaves the head alone. */
  lemma HeadKept(b: seq<byte>, p: nat, nameoff: u32, len: nat, off: nat, data: seq<byte>)
    requires HasHead(b, p, nameoff, len) && p + 12 <= off && off + |data| <= |b|
    ensures HasHead(Patch(b, off, data), p, nameoff, len)
  {
    hide Patch, Get32;
    PatchWords(b, off, data, p);
    PatchWords(b, off, data, p + 4);
    PatchWords(b, off, data, p + 8);
  }

  // ---- places inside a node ----

  lemma OffPrefix(p: seq<Token>, r: seq<Token>)
    requires ValidTokens(p + r)
    ensures ValidTokens(p) && Off(p + r, |p|) == |Encode(p)|
  {
    hide Encode;
    assert (p + r)[..|p|] == p;
    assert forall i | 0 <= i < |p| :: p[i] == (p + r)[i];
  }

  lemma {:induction false} SingleTokens(items: seq<Item>)
    requires forall j | 0 <= j < |items| :: !items[j].INode?
    ensures |FlatAll(items)| == |items|
  {
    if items != [] {
      SingleTokens(items[1..]);
    }
  }

  /** Where item `k` of a node stands, when only properties and NOPs come before it. */
  lemma ItemPlace(d: DT, c: Context, n: Item, k: nat)
    requires IsNode(d, c, n) && ValidTokens(StructTokens(d)) && k <= |n.items|
    requires forall j | 0 <= j < k :: !n.items[j].INode?
    ensures ValidTokens(ItemsBefore(c, n.name, n.pad, n.items[..k]))
    ensures Index(c) + 1 + k <= |StructTokens(d)|
    ensures |Encode(ItemsBefore(c, n.name, n.pad, n.items[..k]))| == Off(StructTokens(d), Index(c) + 1 + k)
  {
    hide FlatAll, Plug, Before, After, Tail, Encode, ValidTokens, Off;
    var p := ItemsBefore(c, n.name, n.pad, n.items[..k]);
    SingleTokens(n.items[..k]);
    assert n.items[..k] + [] + n.items[k..] == n.items;
    ItemsSplit(d, c, n.name, n.pad, n.items[..k], [], n.items[k..]);
    var q := ItemsAfter(d.nops, c, n.items[k..]);
    assert FlatAll([]) == [] by { EmptyFlat(); }
    assert p + [] + q == p + q;
    OffPrefix(p, q);
  }

  lemma EmptyFlat()
    ensures FlatAll([]) == []
  {
  }

  lemma OnePropFlat(it: Item)
    requires it.IProp?
    ensures FlatAll([it]) == [Prop(it.nameoff, it.val, it.pad)]
  {
    FlatAllOne(it);
  }

  lemma OneTokenBytes(t: Token)
    requires ValidToken(t)
    ensures ValidTokens([t]) && Encode([t]) == Bytes(t)
  {
    hide Bytes;
    assert Encode([t]) == Bytes(t) + Encode([t][1..]);
  }

  /** The tree after an edit of the items of a node, from the splice of the bytes. */
  lemma HoldsEdited(a: seq<byte>, b: seq<byte>, d: DT, c: Context, name: seq<byte>, pad: seq<byte>,
                    left: seq<Item>, x: seq<Item>, mid: seq<Item>, right: seq<Item>, at: nat, oldlen: nat, newlen: nat)
    requires Holds(a, d) && d.root == Plug(c, INode(name, pad, left + x + right))
    requires ValidTokens(FlatAll(mid)) && NamesOk(mid, d.strings)
    requires ValidTokens(FlatAll(x)) && ValidTokens(ItemsBefore(c, name, pad, left))
    requires at == Field(a, OFF_STRUCT) + |Encode(ItemsBefore(c, name, pad, left))|
    requires oldlen == |Encode(FlatAll(x))| && newlen == |Encode(FlatAll(mid))|
    requires DataEnd(a) - oldlen + newlen <= Field(a, TOTALSIZE)
    requires StructSpliced(a, b, at, oldlen, newlen) && at + newlen <= |b| && b[at..at + newlen] == Encode(FlatAll(mid))
    ensures Holds(b, d.(root := Plug(c, INode(name, pad, left + mid + right))))
  {
    hide Get32, Field, ReserveBytes, StructTokens, WellFormed, ValidTokens, FlatAll, Plug, ItemsBefore, ItemsAfter,
      Encode, StructSpliced, Readable, GoodHeader;
    WellFormedParts(a, d);
    ItemsWellFormed(d, c, name, pad, left, x, mid, right);
    ItemsSwapped(d, c, name, pad, left, x, mid, right);
    var e := d.(root := Plug(c, INode(name, pad, left + mid + right)));
    SwappedBytes(d, e, ItemsBefore(c, name, pad, left), FlatAll(x), FlatAll(mid), ItemsAfter(d.nops, c, right));
    HoldsAfter(a, b, d, e, at, oldlen, newlen);
  }

  lemma WellFormedParts(a: seq<byte>, d: DT)
    requires Holds(a, d)
    ensures WellFormed(d) && ValidTokens(StructTokens(d)) && StructBlock(a) == Encode(StructTokens(d))
  {
  }

  // ---- the property found, in the buffer ----

  lemma PadFills(len: nat, pad: seq<byte>)
    requires ValidPad(len, pad)
    ensures len + |pad| == Align4(len)
  {
  }

  /** Token of item `k`, which only properties and NOPs precede. */
  lemma ItemToken(d: DT, c: Context, n: Item, k: nat)
    requires IsNode(d, c, n) && ValidTokens(StructTokens(d)) && k < |n.items| && n.items[k].IProp?
    requires forall j | 0 <= j < k :: !n.items[j].INode?
    ensures Index(c) + 1 + k < |StructTokens(d)|
    ensures StructTokens(d)[Index(c) + 1 + k] == Prop(n.items[k].nameoff, n.items[k].val, n.items[k].pad)
  {
    hide FlatAll, Plug, Before, After, Tail, ValidTokens;
    var left, right := n.items[..k], n.items[k + 1..];
    SingleTokens(left);
    assert n.items == left + [n.items[k]] + right;
    ItemsSplit(d, c, n.name, n.pad, left, [n.items[k]], right);
    OnePropFlat(n.items[k]);
  }

  /** Where the property FindProp finds stands in the buffer, and what is there. */
  lemma FoundAt(b: seq<byte>, d: DT, c: Context, n: Item, k: nat)
    requires Contents(b, d) && IsNode(d, c, n) && k < |n.items| && n.items[k].IProp?
    requires forall j | 0 <= j < k :: !n.items[j].INode?
    ensures Index(c) + 1 + k < |StructTokens(d)|
    ensures var p, it := Field(b, OFF_STRUCT) + Off(StructTokens(d), Index(c) + 1 + k), n.items[k];
            && p + PropSize(|it.val|) <= Field(b, OFF_STRUCT) + Field(b, SIZE_STRUCT) <= |b|
            && HasHead(b, p, it.nameoff, |it.val|) && b[p + 12..p + 12 + |it.val|] == it.val
            && Align4(|it.val|) == |it.val| + |it.pad|
  {
    hide Contents, Off, StructTokens, Field, Get32, Plug, Reads, Align4;
    ContentsReads(b, d);
    ItemToken(d, c, n, k);
    var ts, i := StructTokens(d), Index(c) + 1 + k;
    PropFields(b, ts, i);
    assert ValidToken(ts[i]);
    PadFills(|n.items[k].val|, n.items[k].pad);
  }

  /** The result of fdt_get_property tells found from not found. */
  lemma PropResultCases(b: seq<byte>, d: DT, c: Context, n: Item, s: seq<byte>)
    requires Contents(b, d) && IsNode(d, c, n)
    ensures n.INode? && ValidTokens(StructTokens(d))
    ensures FindProp(n.items, d.strings, s).None? ==> PropResult(d, c, n, s) == ERR_NOTFOUND
    ensures FindProp(n.items, d.strings, s).Some? ==>
              var i := Index(c) + 1 + FindProp(n.items, d.strings, s).value;
              i < |StructTokens(d)| && PropResult(d, c, n, s) == Off(StructTokens(d), i)
  {
    hide Contents, Off, StructTokens, Plug, Named, ValidTokens, Reads;
    ContentsReads(b, d);
    if FindProp(n.items, d.strings, s).Some? {
      ItemToken(d, c, n, FindProp(n.items, d.strings, s).value);
    }
  }

  /** A splice seen as one of a larger stretch that starts earlier. */
  lemma Widen(a: seq<byte>, b: seq<byte>, at: nat, oldlen: nat, newlen: nat, w: nat)
    requires StructSpliced(a, b, at, oldlen, newlen) && HEADER_SIZE + w <= at
    ensures StructSpliced(a, b, at - w, oldlen + w, newlen + w)
    ensures b[at - w..at] == a[at - w..at]
  {
    hide Get32, HeaderKept, Field;
    var h := HEADER_SIZE;
    PartsEqual(a, h, at, b, h, at, 0, at - w - h);
    PartsEqual(a, h, at, b, h, at, at - w - h, at - h);
  }

  /** Writes inside the gap keep a splice a splice. */
  lemma GapWrite(a: seq<byte>, b: seq<byte>, at: nat, oldlen: nat, newlen: nat, off: nat, data: seq<byte>)
    requires StructSpliced(a, b, at, oldlen, newlen) && at <= off && off + |data| <= at + newlen
    ensures |data| + off <= |b| && StructSpliced(a, Patch(b, off, data), at, oldlen, newlen)
  {
    hide Get32, HeaderKept, Patch;
    MovedKeepsGapPatch(a, b, at, oldlen, newlen, DataEnd(a), off, data);
    KeptTrans(a, b, {SIZE_STRUCT, OFF_STRINGS}, Patch(b, off, data), {});
    assert {SIZE_STRUCT, OFF_STRINGS} + {} == {SIZE_STRUCT, OFF_STRINGS};
    Kept(b, Patch(b, off, data), {}, SIZE_STRUCT);
    Kept(b, Patch(b, off, data), {}, OFF_STRINGS);
  }

  /** The head of a property after its data was resized and its length rewritten. */
  lemma HeadResized(a: seq<byte>, b: seq<byte>, p: nat, nameoff: u32, oldlen: nat, len: u32)
    requires HasHead(a, p, nameoff, oldlen) && StructSpliced(a, b, p, PropSize(oldlen), PropSize(len))
    requires b[p..p + 12] == a[p..p + 12]
    ensures p + PropSize(len) <= |b|
    ensures HasHead(Patch(b, p + 4, Enc32(len)), p, nameoff, len)
    ensures StructSpliced(a, Patch(b, p + 4, Enc32(len)), p, PropSize(oldlen), PropSize(len))
  {
    hide Get32, HeaderKept, Patch, Enc32, PropSize, Field;
    PartsEqual(a, p, p + 12, b, p, p + 12, 0, 4);
    PartsEqual(a, p, p + 12, b, p, p + 12, 8, 12);
    SameWord(a, b, p);
    SameWord(a, b, p + 8);
    PatchWords(b, p + 4, Enc32(len), p);
    PatchWords(b, p + 4, Enc32(len), p + 8);
    PatchWord(b, p + 4, len);
    GapWrite(a, b, p, PropSize(oldlen), PropSize(len), p + 4, Enc32(len));
  }

  lemma SameWord(a: seq<byte>, b: seq<byte>, o: nat)
    requires o + 4 <= |a| && o + 4 <= |b| && a[o..o + 4] == b[o..o + 4]
    ensures Get32(a, o) == Get32(b, o)
  {
  }

  // ---- fdt_setprop ----

  const MAX_LEN := 0x7fff_ff00

  /** The splice of a property's data and the store of its new length. */
  method ResizeData(buf: array<byte>, prop: nat, oldlen: nat, len: nat, ghost nameoff: u32) returns (err: int)
    requires HEADER_SIZE <= buf.Length <= MAX_INT && len <= MAX_LEN
    requires DataEnd(buf[..]) <= Field(buf[..], TOTALSIZE) <= buf.Length
    requires HEADER_SIZE <= Field(buf[..], OFF_STRUCT) <= prop
    requires prop + PropSize(oldlen) <= Field(buf[..], OFF_STRUCT)
               + Field(buf[..], SIZE_STRUCT) <= Field(buf[..], OFF_STRINGS)
    requires HasHead(buf[..], prop, nameoff, oldlen)
    modifies buf
    ensures err == if DataEnd(old(buf[..])) - Align4(oldlen) + Align4(len) > Field(old(buf[..]), TOTALSIZE)
              then ERR_NOSPACE else 0
    ensures err != 0 ==> buf[..] == old(buf[..])
    ensures err == 0 ==> StructSpliced(old(buf[..]), buf[..], prop, PropSize(oldlen), PropSize(len))
    ensures err == 0 ==> HasHead(buf[..], prop, nameoff, len)
    ensures err == 0 && oldlen <= len ==>
              buf[..][prop + 12..prop + 12 + oldlen] == old(buf[..])[prop + 12..prop + 12 + oldlen]
  {
    hide Get32, Patch, Enc32, Field, StructSpliced;
    ghost var a := buf[..];
    HeadBound(a, prop, nameoff, oldlen);
    err := SpliceStruct(buf, prop + 12, Align4(oldlen), Align4(len));
    if err != 0 {
      return;
    }
    ghost var b := buf[..];
    Widen(a, b, prop + 12, Align4(oldlen), Align4(len), 12);
    HeadResized(a, b, prop, nameoff, oldlen, len);
    Write32(buf, prop + 4, len);
    if oldlen <= len {
      PartsEqual(a, prop + 12, prop + 12 + Align4(len), b, prop + 12, prop + 12 + Align4(len), 0, oldlen);
      PatchSlices(b, prop + 4, Enc32(len), prop + 12, prop + 12 + oldlen);
    }
  }

  lemma HeadBound(b: seq<byte>, p: nat, nameoff: u32, len: nat)
    requires HasHead(b, p, nameoff, len)
    ensures p + 12 + Align4(len) <= |b|
  {
  }

  /** _fdt_resize_property; `prop` is where the property stands. */
  method ResizeProperty(buf: array<byte>, offset: int, s: seq<byte>, len: nat, ghost d: DT, ghost c: Context,
                        ghost n: Item)
    returns (err: int, prop: nat)
    requires Holds(buf[..], d) && Refers(buf[..], d, offset, c, n) && len <= MAX_LEN
    modifies buf
    ensures err != 0 ==> buf[..] == old(buf[..])
    ensures BadNode(old(buf[..]), offset) ==> err == ERR_BADOFFSET
    ensures !BadNode(old(buf[..]), offset) ==>
              && n.INode?
              && (FindProp(n.items, d.strings, s).None? ==> err == ERR_NOTFOUND)
              && (FindProp(n.items, d.strings, s).Some? ==>
                    var k := FindProp(n.items, d.strings, s).value;
                    && err == (if DataEnd(old(buf[..])) - Align4(|n.items[k].val|) + Align4(len)
                                  > Field(old(buf[..]), TOTALSIZE)
                               then ERR_NOSPACE else 0)
                    && (err == 0 ==>
                          && Index(c) + 1 + k < |StructTokens(d)|
                          && prop == Field(old(buf[..]), OFF_STRUCT) + Off(StructTokens(d), Index(c) + 1 + k)
                          && StructSpliced(old(buf[..]), buf[..], prop, PropSize(|n.items[k].val|), PropSize(len))
                          && HasHead(buf[..], prop, n.items[k].nameoff, len)))
  {
    hide Get32, Contents, StructTokens, Off, BadNode, IsNode, ReserveBytes, StructSpliced, Patch, Enc32;
    ghost var a := buf[..];
    prop := 0;
    if !BadNode(a, offset) {
      PropResultCases(a, d, c, n, s);
    }
    hide PropResult, FindProp, Named;
    var r := GetProperty(buf, offset, s, d, c, n);
    if r < 0 {
      return r, prop;
    }
    ghost var k := FindProp(n.items, d.strings, s).value;
    FoundAt(a, d, c, n, k);
    var base: int := Read32(buf, OFF_STRUCT);
    prop := base + r;
    var oldlen: int := Read32(buf, prop + 4);
    err := ResizeData(buf, prop, oldlen, len, n.items[k].nameoff);
  }

  lemma HeadWritten(b: seq<byte>, p: nat, nameoff: u32, len: u32)
    requires p + PropSize(len) <= |b|
    ensures HasHead(Patch(Patch(Patch(b, p, Enc32(FDT_PROP)), p + 8, Enc32(nameoff)), p + 4, Enc32(len)), p, nameoff,
              len)
  {
    hide Get32, Patch, Enc32, PropSize;
    var b1 := Patch(b, p, Enc32(FDT_PROP));
    var b2 := Patch(b1, p + 8, Enc32(nameoff));
    PatchWord(b, p, FDT_PROP);
    PatchWord(b1, p + 8, nameoff);
    PatchWord(b2, p + 4, len);
    PatchWords(b1, p + 8, Enc32(nameoff), p);
    PatchWords(b2, p + 4, Enc32(len), p);
    PatchWords(b2, p + 4, Enc32(len), p + 8);
  }

  /** The three header stores of _fdt_add_property. */
  method WriteHead(buf: array<byte>, p: nat, nameoff: u32, len: u32, ghost a: seq<byte>)
    requires p + PropSize(len) <= buf.Length && StructSpliced(a, buf[..], p, 0, PropSize(len))
    modifies buf
    ensures StructSpliced(a, buf[..], p, 0, PropSize(len)) && HasHead(buf[..], p, nameoff, len)
  {
    hide Get32, Patch, Enc32, StructSpliced, HasHead;
    ghost var b := buf[..];
    HeadWritten(b, p, nameoff, len);
    GapWrite(a, b, p, 0, PropSize(len), p, Enc32(FDT_PROP));
    Write32(buf, p, FDT_PROP);
    GapWrite(a, buf[..], p, 0, PropSize(len), p + 8, Enc32(nameoff));
    Write32(buf, p + 8, nameoff);
    GapWrite(a, buf[..], p, 0, PropSize(len), p + 4, Enc32(len));
    Write32(buf, p + 4, len);
  }

  /** Bytes a name may add to the strings block. */
  function NameGrowth(strings: seq<byte>, s: seq<byte>): nat {
    if FindString(strings, s, 0).Some? then 0 else |s| + 1
  }

  lemma GrowthIs(strings: seq<byte>, s: seq<byte>)
    ensures |WithString(strings, s)| - |strings| == NameGrowth(strings, s)
  {
  }

  /** A node keeps its place when only the strings block grows. */
  lemma AppendedPlace(a: seq<byte>, b: seq<byte>, n: nat)
    requires Appended(a, b, n)
    ensures Field(a, OFF_STRUCT) == Field(b, OFF_STRUCT) && Field(a, TOTALSIZE) == Field(b, TOTALSIZE)
    ensures Field(a, SIZE_STRUCT) == Field(b, SIZE_STRUCT) && Field(a, OFF_STRINGS) == Field(b, OFF_STRINGS)
    ensures DataEnd(b) == DataEnd(a) + n
  {
    hide Field;
    Kept(a, b, {SIZE_STRINGS}, OFF_STRUCT);
    Kept(a, b, {SIZE_STRINGS}, TOTALSIZE);
    Kept(a, b, {SIZE_STRINGS}, SIZE_STRUCT);
    Kept(a, b, {SIZE_STRINGS}, OFF_STRINGS);
  }

  lemma StringOffFits(b: seq<byte>, d: DT, s: seq<byte>)
    requires Holds(b, d.(strings := WithString(d.strings, s))) && NUL !in s
    ensures StringOff(d.strings, s) <= MAX_INT
  {
    hide Get32, ReserveBytes, WellFormed, StructTokens, WithString, StringOff;
    WithStringNames(d.strings, s);
  }

  /** Room for a first property of the node at `c` has been made at `prop` and its head written. */
  ghost predicate PropOpened(a: seq<byte>, b: seq<byte>, d: DT, c: Context, s: seq<byte>, prop: nat, len: nat) {
    && HEADER_SIZE <= |a| && ValidTokens(StructTokens(d)) && Index(c) + 1 < |StructTokens(d)|
    && prop == Field(a, OFF_STRUCT) + Off(StructTokens(d), Index(c) + 1)
    && StructSpliced(a, b, prop, 0, PropSize(len))
    && StringOff(d.strings, s) <= MAX_INT && HasHead(b, prop, StringOff(d.strings, s), len)
  }

  /** _fdt_add_property; `mid` is the buffer once the name is in the strings block. */
  method AddProperty(buf: array<byte>, offset: int, s: seq<byte>, len: nat, ghost d: DT, ghost c: Context,
                     ghost n: Item)
    returns (err: int, prop: nat, ghost mid: seq<byte>)
    requires Holds(buf[..], d) && Refers(buf[..], d, offset, c, n) && len <= MAX_LEN && NUL !in s
    modifies buf
    ensures BadNode(old(buf[..]), offset) ==> err == ERR_BADOFFSET && buf[..] == old(buf[..])
    ensures !BadNode(old(buf[..]), offset) ==>
              var grow, end, total := NameGrowth(d.strings, s), DataEnd(old(buf[..])), Field(old(buf[..]), TOTALSIZE);
              && err == (if end + grow > total || end + grow + PropSize(len) > total then ERR_NOSPACE else 0)
              && (end + grow > total ==> buf[..] == old(buf[..]))
              && (end + grow <= total ==>
                    && Holds(mid, d.(strings := WithString(d.strings, s)))
                    && Appended(old(buf[..]), mid, grow)
                    && (err != 0 ==> buf[..] == mid)
                    && (err == 0 ==> PropOpened(mid, buf[..], d, c, s, prop, len)))
  {
    hide Get32, Contents, StructTokens, Off, IsNode, ReserveBytes, StructSpliced, Appended, HasHead, Reads,
      WithString, TagAt, FindString, StringOff, NameGrowth;
    ghost var a := buf[..];
    mid := a;
    prop := 0;
    if !BadNode(a, offset) {
      GoodNode(a, d, offset, c, n);
    }
    GrowthIs(d.strings, s);
    err := CheckNodeOffset(buf, offset);
    if err < 0 {
      return;
    }
    var next := err;
    var nameoff := FindAddString(buf, s, d);
    if nameoff < 0 {
      err := nameoff;
      return;
    }
    mid := buf[..];
    AppendedPlace(a, mid, NameGrowth(d.strings, s));
    var base: int := Read32(buf, OFF_STRUCT);
    prop := base + next;
    err := SpliceStruct(buf, prop, 0, PropSize(len));
    if err != 0 {
      return;
    }
    StringOffFits(mid, d, s);
    WriteHead(buf, prop, nameoff, len, mid);
  }

  // ---- the trees the edits produce ----

  /** `d` with the value of property `k` of node `n` replaced. */
  function PropReplaced(d: DT, c: Context, n: Item, k: nat, val: seq<byte>, pad: seq<byte>): DT
    requires n.INode? && k < |n.items| && n.items[k].IProp?
  {
    d.(root := Plug(c, n.(items := n.items[..k] + [IProp(n.items[k].nameoff, val, pad)] + n.items[k + 1..])))
  }

  /** `d` with a property put in as the first item of node `n`, its name in the strings block. */
  function PropAdded(d: DT, c: Context, n: Item, s: seq<byte>, val: seq<byte>, pad: seq<byte>): DT
    requires n.INode?
  {
    var off: u32 := if StringOff(d.strings, s) <= MAX_INT then StringOff(d.strings, s) else 0;
    d.(strings := WithString(d.strings, s), root := Plug(c, n.(items := [] + [IProp(off, val, pad)] + n.items)))
  }

  lemma PropItem(b: seq<byte>, prop: nat, nameoff: u32, val: seq<byte>, strings: seq<byte>) returns (pad: seq<byte>)
    requires |val| <= MAX_INT && HasHead(b, prop, nameoff, |val|) && b[prop + 12..prop + 12 + |val|] == val
    requires HasString(strings, nameoff)
    ensures ValidTokens(FlatAll([IProp(nameoff, val, pad)])) && NamesOk([IProp(nameoff, val, pad)], strings)
    ensures prop + PropSize(|val|) <= |b| && |Encode(FlatAll([IProp(nameoff, val, pad)]))| == PropSize(|val|)
    ensures b[prop..prop + PropSize(|val|)] == Encode(FlatAll([IProp(nameoff, val, pad)]))
  {
    hide Get32, PropSize, HasString, ValidToken, Bytes;
    PropMadeAt(b, prop, nameoff, val);
    pad := b[prop + 12 + |val|..prop + PropSize(|val|)];
    OnePropFlat(IProp(nameoff, val, pad));
    OneTokenBytes(Prop(nameoff, val, pad));
    assert NamesOk([IProp(nameoff, val, pad)][1..], strings);
  }

  /** The bytes of one property take PropSize of its value. */
  lemma PropItemSize(it: Item)
    requires it.IProp? && ValidToken(Prop(it.nameoff, it.val, it.pad))
    ensures ValidTokens(FlatAll([it])) && |Encode(FlatAll([it]))| == PropSize(|it.val|)
  {
    hide Enc32, Align4;
    OnePropFlat(it);
    OneTokenBytes(Prop(it.nameoff, it.val, it.pad));
    PadFills(|it.val|, it.pad);
  }

  /** The finished replacement of property `k`. */
  lemma ReplacedHolds(a: seq<byte>, b: seq<byte>, d: DT, c: Context, n: Item, k: nat, prop: nat, val: seq<byte>)
    returns (pad: seq<byte>)
    requires Holds(a, d) && IsNode(d, c, n) && k < |n.items| && n.items[k].IProp? && |val| <= MAX_INT
    requires forall j | 0 <= j < k :: !n.items[j].INode?
    requires HasString(d.strings, n.items[k].nameoff)
    requires Index(c) + 1 + k < |StructTokens(d)|
    requires prop == Field(a, OFF_STRUCT) + Off(StructTokens(d), Index(c) + 1 + k)
    requires StructSpliced(a, b, prop, PropSize(|n.items[k].val|), PropSize(|val|))
    requires DataEnd(a) - Align4(|n.items[k].val|) + Align4(|val|) <= Field(a, TOTALSIZE)
    requires HasHead(b, prop, n.items[k].nameoff, |val|) && b[prop + 12..prop + 12 + |val|] == val
    ensures Holds(b, PropReplaced(d, c, n, k, val, pad))
  {
    hide Get32, Field, ReserveBytes, StructTokens, ValidTokens, FlatAll, Plug, ItemsBefore, Encode, ValidToken,
      StructSpliced, Readable, GoodHeader, HasHead, HasString, Off, NamesOk, Align4;
    WellFormedParts(a, d);
    var it := n.items[k];
    pad := PropItem(b, prop, it.nameoff, val, d.strings);
    ItemPlace(d, c, n, k);
    ItemToken(d, c, n, k);
    TokenValid(StructTokens(d), Index(c) + 1 + k);
    PropItemSize(it);
    assert n.items == n.items[..k] + [it] + n.items[k + 1..];
    HoldsEdited(a, b, d, c, n.name, n.pad, n.items[..k], [it], [IProp(it.nameoff, val, pad)], n.items[k + 1..],
                prop, PropSize(|it.val|), PropSize(|val|));
  }

  lemma TokenValid(ts: seq<Token>, i: nat)
    requires ValidTokens(ts) && i < |ts|
    ensures ValidToken(ts[i])
  {
  }

  /** The finished insertion of a first property. */
  lemma AddedHolds(a: seq<byte>, b: seq<byte>, d: DT, c: Context, n: Item, s: seq<byte>, prop: nat, val: seq<byte>)
    returns (pad: seq<byte>)
    requires Holds(a, d.(strings := WithString(d.strings, s))) && IsNode(d, c, n) && |val| <= MAX_INT && NUL !in s
    requires PropOpened(a, b, d, c, s, prop, |val|)
    requires DataEnd(a) + PropSize(|val|) <= Field(a, TOTALSIZE)
    requires b[prop + 12..prop + 12 + |val|] == val
    ensures Holds(b, PropAdded(d, c, n, s, val, pad))
  {
    hide Get32, Field, ReserveBytes, StructTokens, ValidTokens, FlatAll, Plug, ItemsBefore, Encode,
      StructSpliced, Readable, GoodHeader, HasHead, HasString, Off, NamesOk, PropSize, WithString, StringOff, StringAt;
    var e := d.(strings := WithString(d.strings, s));
    WithStringNames(d.strings, s);
    var nameoff := StringOff(d.strings, s);
    pad := PropItem(b, prop, nameoff, val, e.strings);
    SameTokens(d, e);
    ItemPlace(d, c, n, 0);
    EmptyFlat();
    EmptyBytes();
    assert n.items[..0] == [] && n.items == [] + [] + n.items;
    HoldsEdited(a, b, e, c, n.name, n.pad, [], [], [IProp(nameoff, val, pad)], n.items, prop, 0, PropSize(|val|));
  }

  lemma EmptyBytes()
    ensures ValidTokens([]) && Encode([]) == []
  {
  }

  /** `d` with the property `s` of node `n` set to `val`. */
  function PropSet(d: DT, c: Context, n: Item, s: seq<byte>, val: seq<byte>, pad: seq<byte>): DT
    requires n.INode?
  {
    match FindProp(n.items, d.strings, s)
    case Some(k) => PropReplaced(d, c, n, k, val, pad)
    case None => PropAdded(d, c, n, s, val, pad)
  }

  /** By how much the data grows when the property `s` gets a value of `len` bytes. */
  function SetGrowth(d: DT, n: Item, s: seq<byte>, len: nat): int
    requires n.INode?
  {
    match FindProp(n.items, d.strings, s)
    case Some(k) => Align4(len) - Align4(|n.items[k].val|)
    case None => NameGrowth(d.strings, s) + PropSize(len)
  }

  /** The buffer still holds `d`, but for a name that may have been added to the strings. */
  ghost predicate HoldsBut(b: seq<byte>, d: DT, s: seq<byte>) {
    Holds(b, d) || Holds(b, d.(strings := WithString(d.strings, s)))
  }

  /** No byte has changed, but for a name that may have been added to the strings. */
  ghost predicate NameOnly(a: seq<byte>, b: seq<byte>, d: DT, s: seq<byte>) {
    b == a || Appended(a, b, NameGrowth(d.strings, s))
  }

  /** A property added: first its name, then room for it. */
  lemma AddedGrown(a: seq<byte>, mid: seq<byte>, b: seq<byte>, d: DT, s: seq<byte>, prop: nat, len: nat)
    requires Appended(a, mid, NameGrowth(d.strings, s)) && StructSpliced(mid, b, prop, 0, PropSize(len))
    ensures Grown(a, b, NameGrowth(d.strings, s) + PropSize(len))
  {
    hide Appended, StructSpliced, NameGrowth, PropSize, Grown;
    AppendedGrown(a, mid, NameGrowth(d.strings, s));
    SplicedGrown(mid, b, prop, 0, PropSize(len));
    GrownTrans(a, mid, NameGrowth(d.strings, s), b, PropSize(len));
  }

  /** The copy of the value into the property at `prop`. */
  method CopyValue(buf: array<byte>, prop: nat, off: nat, val: seq<byte>,
                   ghost nameoff: u32, ghost len: nat, ghost a: seq<byte>, ghost oldlen: nat)
    requires StructSpliced(a, buf[..], prop, oldlen, PropSize(len)) && HasHead(buf[..], prop, nameoff, len)
    requires off + |val| <= len
    modifies buf
    ensures prop + 12 + len <= buf.Length && buf[..] == Patch(old(buf[..]), prop + 12 + off, val)
    ensures buf[..][prop + 12 + off..prop + 12 + off + |val|] == val
    ensures StructSpliced(a, buf[..], prop, oldlen, PropSize(len)) && HasHead(buf[..], prop, nameoff, len)
  {
    hide Get32, Patch, StructSpliced, Align4;
    ghost var b := buf[..];
    GapWrite(a, b, prop, oldlen, PropSize(len), prop + 12 + off, val);
    HeadKept(b, prop, nameoff, len, prop + 12 + off, val);
    PatchData(b, prop + 12 + off, val);
    MemCpy(buf, prop + 12 + off, val);
  }

  /** What ResizeProperty yields for the property found. */
  lemma FoundFacts(a: seq<byte>, d: DT, offset: int, c: Context, n: Item, s: seq<byte>)
    requires Contents(a, d) && Refers(a, d, offset, c, n) && !BadNode(a, offset)
    ensures IsNode(d, c, n)
    ensures FindProp(n.items, d.strings, s).Some? ==>
              var k := FindProp(n.items, d.strings, s).value;
              && HasString(d.strings, n.items[k].nameoff)
              && forall j | 0 <= j < k :: !n.items[j].INode?
  {
    hide StructTokens, ReserveBytes, Plug, TagAt, Off;
  }

  lemma SizesDiffer(m: nat, n: nat)
    ensures PropSize(n) - PropSize(m) == Align4(n) - Align4(m)
  {
  }

  /** fdt_setprop. Beside the data and its extents nothing changes: the total size and the other
      header fields, and what is behind the data. */
  method SetProp(buf: array<byte>, offset: int, s: seq<byte>, val: seq<byte>, ghost d: DT, ghost c: Context,
                 ghost n: Item)
    returns (err: int, ghost pad: seq<byte>)
    requires Holds(buf[..], d) && Refers(buf[..], d, offset, c, n) && |val| <= MAX_LEN && NUL !in s
    modifies buf
    ensures BadNode(old(buf[..]), offset) ==> err == ERR_BADOFFSET && buf[..] == old(buf[..])
    ensures !BadNode(old(buf[..]), offset) ==>
              && n.INode?
              && err == (if DataEnd(old(buf[..])) + SetGrowth(d, n, s, |val|) > Field(old(buf[..]), TOTALSIZE)
                         then ERR_NOSPACE else 0)
              && (err == 0 ==> Holds(buf[..], PropSet(d, c, n, s, val, pad)))
              && (err == 0 ==> Grown(old(buf[..]), buf[..], SetGrowth(d, n, s, |val|)))
              && (err != 0 ==> HoldsBut(buf[..], d, s) && NameOnly(old(buf[..]), buf[..], d, s))
  {
    hide Get32, Contents, StructTokens, Off, ReserveBytes, StructSpliced, Patch, Enc32, HasHead, BadNode, Align4,
      PropSize, IsNode, WithString, StringOff, PropReplaced, PropAdded, NameGrowth, FindProp, Appended, HasString,
      TagAt, Grown;
    ghost var a := buf[..];
    pad := [];
    HoldsPasses(a, d);
    if !BadNode(a, offset) {
      GoodNode(a, d, offset, c, n);
      FoundFacts(a, d, offset, c, n, s);
    }
    err := RwCheckHeader(buf);
    if err != 0 {
      return;
    }
    var prop;
    err, prop := ResizeProperty(buf, offset, s, |val|, d, c, n);
    ghost var mid, oldlen, nameoff, found := a, 0, 0, err == 0;
    if err == ERR_NOTFOUND {
      err, prop, mid := AddProperty(buf, offset, s, |val|, d, c, n);
      if err == 0 {
        nameoff := StringOff(d.strings, s);
        AppendedPlace(a, mid, NameGrowth(d.strings, s));
      }
    } else if found {
      ghost var k := FindProp(n.items, d.strings, s).value;
      oldlen, nameoff := PropSize(|n.items[k].val|), n.items[k].nameoff;
    }
    if err != 0 {
      return;
    }
    CopyValue(buf, prop, 0, val, nameoff, |val|, mid, oldlen);
    if found {
      pad := ReplacedHolds(a, buf[..], d, c, n, FindProp(n.items, d.strings, s).value, prop, val);
      SplicedGrown(a, buf[..], prop, oldlen, PropSize(|val|));
      SizesDiffer(|n.items[FindProp(n.items, d.strings, s).value].val|, |val|);
    } else {
      pad := AddedHolds(mid, buf[..], d, c, n, s, prop, val);
      AddedGrown(a, mid, buf[..], d, s, prop, |val|);
    }
  }
}
