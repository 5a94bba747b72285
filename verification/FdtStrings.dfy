/** The strings block: finding a name, adding one at its end. */
module FdtStrings {
  import opened BigEndian
  import opened Options
  import opened FdtTokens
  import opened FdtTree
  import opened FdtBlob
  import opened FdtProps
  import opened FdtSplice
  import opened FdtEdit

  /** `s` with its terminator stands in `strings` at `p`. */
  predicate StandsAt(strings: seq<byte>, p: nat, s: seq<byte>) {
    p + |s| + 1 <= |strings| && strings[p..p + |s| + 1] == s + [NUL]
  }

  /** The first place where `s` with its terminator stands, possibly as the end of another string. */
  function FindString(strings: seq<byte>, s: seq<byte>, from: nat): (r: Option<nat>)
    requires from <= |strings|
    ensures r.Some? ==> from <= r.value && StandsAt(strings, r.value, s)
    ensures forall p | from <= p < (if r.Some? then r.value else |strings|) :: !StandsAt(strings, p, s)
    decreases |strings| - from
  {
    if from == |strings| then None
    else if StandsAt(strings, from, s) then Some(from)
    else FindString(strings, s, from + 1)
  }

  lemma StandsNamed(strings: seq<byte>, p: nat, s: seq<byte>)
    requires StandsAt(strings, p, s) && NUL !in s
    ensures Named(strings, p, s)
  {
    var x := strings[p..p + |s| + 1];
    assert strings[p..p + |s|] == x[..|s|] == s && strings[p + |s|] == x[|s|] == NUL;
    NulFromUnique(strings, p, p + |s|);
  }

  /** A string resolves to the same name when the block grows at its end. */
  lemma NamedGrow(strings: seq<byte>, more: seq<byte>, off: nat)
    requires HasString(strings, off)
    ensures HasString(strings + more, off) && StringAt(strings + more, off) == StringAt(strings, off)
  {
    var z := NulFrom(strings, off);
    assert (strings + more)[off..z] == strings[off..z];
    NulFromUnique(strings + more, off, z);
  }

  lemma {:induction false} NamesGrow(it: Item, strings: seq<byte>, more: seq<byte>)
    requires NameOk(it, strings)
    ensures NameOk(it, strings + more)
    decreases it
  {
    if it.IProp? {
      NamedGrow(strings, more, it.nameoff);
    } else if it.INode? {
      NamesGrowAll(it.items, strings, more);
    }
  }

  lemma {:induction false} NamesGrowAll(items: seq<Item>, strings: seq<byte>, more: seq<byte>)
    requires NamesOk(items, strings)
    ensures NamesOk(items, strings + more)
    decreases items
  {
    if items != [] {
      NamesGrow(items[0], strings, more);
      NamesGrowAll(items[1..], strings, more);
    }
  }

  /** The strings block once `s` is in it, and where `s` then stands. */
  function WithString(strings: seq<byte>, s: seq<byte>): seq<byte> {
    if FindString(strings, s, 0).Some? then strings else strings + (s + [NUL])
  }

  function StringOff(strings: seq<byte>, s: seq<byte>): nat {
    if FindString(strings, s, 0).Some? then FindString(strings, s, 0).value else |strings|
  }

  /** A string is added just when it stands nowhere, as the end of another string or by itself. */
  lemma StringReused(strings: seq<byte>, s: seq<byte>)
    ensures WithString(strings, s) == strings <==> exists p: nat :: StandsAt(strings, p, s)
    ensures WithString(strings, s) != strings ==> WithString(strings, s) == strings + s + [NUL]
  {
    var r := FindString(strings, s, 0);
    hide FindString;
    if r.None? {
      assert |strings + (s + [NUL])| > |strings|;
      assert strings + (s + [NUL]) == strings + s + [NUL];
      assert forall p: nat | p >= |strings| :: !StandsAt(strings, p, s);
    }
  }

  /** Adding a string makes its name resolve and changes no other name. */
  lemma WithStringNames(strings: seq<byte>, s: seq<byte>)
    requires NUL !in s
    ensures Named(WithString(strings, s), StringOff(strings, s), s)
    ensures StringOff(strings, s) < |WithString(strings, s)|
    ensures strings <= WithString(strings, s)
    ensures forall off | HasString(strings, off) ::
              HasString(WithString(strings, s), off) && StringAt(WithString(strings, s), off) == StringAt(strings, off)
  {
    if FindString(strings, s, 0).None? {
      var more := s + [NUL];
      forall off | HasString(strings, off)
        ensures HasString(strings + more, off) && StringAt(strings + more, off) == StringAt(strings, off)
      {
        NamedGrow(strings, more, off);
      }
      assert (strings + more)[|strings|..] == more;
      assert StandsAt(strings + more, |strings|, s);
      StandsNamed(strings + more, |strings|, s);
    } else {
      StandsNamed(strings, FindString(strings, s, 0).value, s);
    }
  }

  lemma GrownWellFormed(d: DT, more: seq<byte>)
    requires WellFormed(d)
    ensures WellFormed(d.(strings := d.strings + more))
  {
    hide StructTokens, ValidTokens, NameOk;
    NamesGrow(d.root, d.strings, more);
    assert StructTokens(d.(strings := d.strings + more)) == StructTokens(d) by {
      SameTokens(d, d.(strings := d.strings + more));
    }
  }

  lemma SameTokens(d: DT, e: DT)
    requires d.root == e.root && d.nops == e.nops
    ensures StructTokens(d) == StructTokens(e)
  {
  }

  /** Bytes appended at the end of the data, with the strings size adjusted. */
  lemma HoldsAppended(a: seq<byte>, b: seq<byte>, d: DT, more: seq<byte>)
    requires Holds(a, d) && |b| == |a| && HeaderKept(a, b, {SIZE_STRINGS})
    requires Field(b, SIZE_STRINGS) == Field(a, SIZE_STRINGS) + |more|
    requires DataEnd(a) + |more| <= Field(a, TOTALSIZE)
    requires b[HEADER_SIZE..DataEnd(a)] == a[HEADER_SIZE..DataEnd(a)]
    requires b[DataEnd(a)..DataEnd(a) + |more|] == more
    ensures Holds(b, d.(strings := d.strings + more))
  {
    hide Get32, ReserveBytes, StructTokens, WellFormed, Field, HeaderKept, Encode;
    var end, h := DataEnd(a), HEADER_SIZE;
    var except := {SIZE_STRINGS};
    Kept(a, b, except, MAGIC);
    Kept(a, b, except, VERSION);
    Kept(a, b, except, LAST_COMP);
    Kept(a, b, except, TOTALSIZE);
    Kept(a, b, except, OFF_RSVMAP);
    Kept(a, b, except, OFF_STRUCT);
    Kept(a, b, except, OFF_STRINGS);
    Kept(a, b, except, SIZE_STRUCT);
    RsvKept(a, b, d, end);
    var base, size, off := Field(a, OFF_STRUCT), Field(a, SIZE_STRUCT), Field(a, OFF_STRINGS);
    PartsEqual(a, h, end, b, h, end, base - h, base + size - h);
    PartsEqual(a, h, end, b, h, end, off - h, end - h);
    assert b[off..end + |more|] == b[off..end] + b[end..end + |more|];
    GrownWellFormed(d, more);
    SameTokens(d, d.(strings := d.strings + more));
  }

  /** _fdt_find_string over the strings block. */
  method FindStringAt(buf: array<byte>, base: nat, size: nat, s: seq<byte>) returns (r: Option<nat>)
    requires base + size <= buf.Length
    ensures r == FindString(buf[base..base + size], s, 0)
  {
    ghost var strings := buf[base..base + size];
    var len := |s| + 1;
    var p := 0;
    while p + len <= size
      invariant p <= size && FindString(strings, s, 0) == FindString(strings, s, p)
    {
      SliceSlice(buf[..], base, base + size, p, p + len);
      assert buf[..][base..base + size] == strings
        && buf[..][base + p..base + p + len] == buf[base + p..base + p + len];
      if buf[base + p..base + p + len] == s + [NUL] {
        return Some(p);
      }
      p := p + 1;
    }
    NoRoomLeft(strings, s, p);
    return None;
  }

  lemma {:induction false} NoRoomLeft(strings: seq<byte>, s: seq<byte>, p: nat)
    requires p <= |strings| < p + |s| + 1
    ensures FindString(strings, s, p) == None
    decreases |strings| - p
  {
    if p < |strings| {
      NoRoomLeft(strings, s, p + 1);
    }
  }

  /** _fdt_splice_string and the copy that follows it. */
  method AppendString(buf: array<byte>, s: seq<byte>, ghost d: DT) returns (err: int)
    requires Holds(buf[..], d)
    modifies buf
    ensures err == if DataEnd(old(buf[..])) + |s| + 1 > Field(old(buf[..]), TOTALSIZE) then ERR_NOSPACE else 0
    ensures err != 0 ==> buf[..] == old(buf[..])
    ensures err == 0 ==> Holds(buf[..], d.(strings := d.strings + (s + [NUL])))
    ensures err == 0 ==> Appended(old(buf[..]), buf[..], |s| + 1)
  {
    hide Get32, Contents, ReserveBytes, HeaderKept, Moved, Patch, Appended;
    ghost var a := buf[..];
    var off: int := Read32(buf, OFF_STRINGS);
    var size: int := Read32(buf, SIZE_STRINGS);
    var end: int := off + size;
    err := Splice(buf, end, 0, |s| + 1);
    if err != 0 {
      return;
    }
    ghost var b := buf[..];
    Kept(a, b, {}, SIZE_STRINGS);
    SetField(buf, SIZE_STRINGS, size + |s| + 1);
    ghost var c := buf[..];
    KeptTrans(a, b, {}, c, {SIZE_STRINGS});
    assert {} + {SIZE_STRINGS} == {SIZE_STRINGS};
    MovedKeepsHeaderPatch(a, b, c, end, 0, |s| + 1, end);
    MemCpy(buf, end, s + [NUL]);
    MovedKeepsGapPatch(a, c, end, 0, |s| + 1, end, end, s + [NUL]);
    KeptTrans(a, c, {SIZE_STRINGS}, buf[..], {});
    assert {SIZE_STRINGS} + {} == {SIZE_STRINGS};
    PatchData(c, end, s + [NUL]);
    Kept(c, buf[..], {}, SIZE_STRINGS);
    MovedPrefix(a, buf[..], end, 0, |s| + 1, end);
    AppendedIs(a, buf[..], |s| + 1);
    HoldsAppended(a, buf[..], d, s + [NUL]);
  }

  /** Only the strings block has grown: all that was in the data before is where it was. */
  ghost predicate Appended(a: seq<byte>, b: seq<byte>, n: nat) {
    && Confined(a, b, {SIZE_STRINGS}) && DataEnd(b) == DataEnd(a) + n
    && HEADER_SIZE <= DataEnd(a) && b[HEADER_SIZE..DataEnd(a)] == a[HEADER_SIZE..DataEnd(a)]
  }

  lemma AppendedIs(a: seq<byte>, b: seq<byte>, n: nat)
    requires HeaderKept(a, b, {SIZE_STRINGS}) && Field(b, SIZE_STRINGS) == Field(a, SIZE_STRINGS) + n
    requires Moved(a, b, DataEnd(a), 0, n, DataEnd(a))
    ensures Appended(a, b, n)
  {
    hide Field;
    Kept(a, b, {SIZE_STRINGS}, OFF_STRINGS);
  }

  lemma AppendedGrown(a: seq<byte>, b: seq<byte>, n: nat)
    requires Appended(a, b, n)
    ensures Grown(a, b, n)
  {
    hide Field;
  }

  lemma MovedPrefix(a: seq<byte>, b: seq<byte>, at: nat, oldlen: nat, newlen: nat, end: nat)
    requires Moved(a, b, at, oldlen, newlen, end)
    ensures |a| == |b| && b[HEADER_SIZE..at] == a[HEADER_SIZE..at]
  {
  }

  /** _fdt_find_add_string of fdt_rw.c */
  method FindAddString(buf: array<byte>, s: seq<byte>, ghost d: DT) returns (r: int)
    requires Holds(buf[..], d) && NUL !in s
    modifies buf
    ensures r == if DataEnd(old(buf[..])) + |WithString(d.strings, s)| - |d.strings| > Field(old(buf[..]), TOTALSIZE)
                 then ERR_NOSPACE else StringOff(d.strings, s)
    ensures r < 0 ==> buf[..] == old(buf[..])
    ensures r >= 0 ==> Holds(buf[..], d.(strings := WithString(d.strings, s)))
    ensures r >= 0 ==> Appended(old(buf[..]), buf[..], |WithString(d.strings, s)| - |d.strings|)
  {
    hide Get32, ReserveBytes, HeaderKept, WellFormed, FindString, StructTokens;
    var base: int := Read32(buf, OFF_STRINGS);
    var size: int := Read32(buf, SIZE_STRINGS);
    var p := FindStringAt(buf, base, size, s);
    assert buf[base..base + size] == buf[..][base..base + size] == d.strings;
    if p.Some? {
      KeptSelf(buf[..], {SIZE_STRINGS});
      return p.value;
    }
    var err := AppendString(buf, s, d);
    if err != 0 {
      return err;
    }
    r := size;
  }
}
