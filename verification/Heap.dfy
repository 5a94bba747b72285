/** The heap: a first-fit allocator over an address-ordered free list. Its state is
    explained by a tiling of the heap range into free and live blocks. */
module Heap {
  // The 32-bit target: sizes of a pointer, of struct free_heap_chunk and of struct alloc_struct_begin.
  const PTR := 4
  const FREE_HEADER := 12
  const ALLOC_HEADER := 12
  const SIZE_MAX := 0xffff_ffff

  datatype Chunk = Chunk(addr: nat, len: nat)

  function End(c: Chunk): nat { c.addr + c.len }

  // ---- the free list ----

  /** Strictly address-ordered, and no two chunks touch. */
  predicate Coalesced(fs: seq<Chunk>) {
    forall i, j | 0 <= i < j < |fs| :: End(fs[i]) < fs[j].addr
  }

  /** `c` put in front of the later chunks `fs`, merging with the first when they touch. */
  function MergeFront(c: Chunk, fs: seq<Chunk>): seq<Chunk> {
    if fs != [] && End(c) == fs[0].addr then [Chunk(c.addr, c.len + fs[0].len)] + fs[1..] else [c] + fs
  }

  /** `c` returned to the free list. */
  function Insert(fs: seq<Chunk>, c: Chunk): seq<Chunk>
    decreases |fs|
  {
    if fs == [] || c.addr < fs[0].addr then MergeFront(c, fs)
    else if End(fs[0]) == c.addr then MergeFront(Chunk(fs[0].addr, fs[0].len + c.len), fs[1..])
    else [fs[0]] + Insert(fs[1..], c)
  }

  lemma InsertStep(f: Chunk, fs: seq<Chunk>, c: Chunk)
    requires f.addr <= c.addr
    ensures Insert([f] + fs, c) ==
            if End(f) == c.addr then MergeFront(Chunk(f.addr, f.len + c.len), fs) else [f] + Insert(fs, c)
  {
    hide MergeFront;
    assert ([f] + fs)[1..] == fs;
  }

  lemma InsertFirst(fs: seq<Chunk>, c: Chunk)
    requires fs != [] ==> c.addr < fs[0].addr
    ensures Insert(fs, c) == MergeFront(c, fs)
  {
    hide MergeFront;
  }

  /** Chunks that end below `c` are passed by. */
  lemma {:induction false} InsertPasses(xs: seq<Chunk>, zs: seq<Chunk>, c: Chunk)
    requires forall i | 0 <= i < |xs| :: End(xs[i]) < c.addr
    ensures Insert(xs + zs, c) == xs + Insert(zs, c)
    decreases |xs|
  {
    hide Insert;
    if xs == [] {
      assert xs + zs == zs;
    } else {
      assert xs + zs == [xs[0]] + (xs[1..] + zs);
      InsertStep(xs[0], xs[1..] + zs, c);
      InsertPasses(xs[1..], zs, c);
    }
  }

  /** Between chunks that do not touch it, or behind one that does. */
  lemma InsertBetween(xs: seq<Chunk>, c: Chunk, ys: seq<Chunk>)
    requires forall i | 0 <= i < |xs| :: End(xs[i]) < c.addr
    requires ys != [] ==> c.addr < ys[0].addr
    ensures Insert(xs + ys, c) == xs + MergeFront(c, ys)
  {
    hide MergeFront, Insert;
    InsertPasses(xs, ys, c);
    InsertFirst(ys, c);
  }

  lemma InsertBehind(xs: seq<Chunk>, p: Chunk, c: Chunk, ys: seq<Chunk>)
    requires forall i | 0 <= i < |xs| :: End(xs[i]) < c.addr
    requires End(p) == c.addr
    ensures Insert(xs + ([p] + ys), c) == xs + MergeFront(Chunk(p.addr, p.len + c.len), ys)
  {
    hide MergeFront, Insert;
    InsertPasses(xs, [p] + ys, c);
    InsertStep(p, ys, c);
  }

  /** First chunk of at least `need` bytes. */
  function FirstFit(fs: seq<Chunk>, need: nat): (i: nat)
    ensures i <= |fs|
    ensures i < |fs| ==> fs[i].len >= need
    ensures forall j | 0 <= j < i :: fs[j].len < need
  {
    if fs == [] || fs[0].len >= need then 0 else 1 + FirstFit(fs[1..], need)
  }

  /** How much of a chunk is handed out: all of it unless a free chunk can be split off. */
  function Taken(len: nat, need: nat): (n: nat)
    requires len >= need
    ensures need <= n <= len && (n == len || len - n > FREE_HEADER)
  {
    if len > need + FREE_HEADER then need else len
  }

  /** What is left of chunk `c` in the free list. */
  function Remainder(c: Chunk, need: nat): seq<Chunk>
    requires c.len >= need
  {
    if c.len > need + FREE_HEADER then [Chunk(c.addr + need, c.len - need)] else []
  }

  /** The free list after the chunk at `i` is taken. */
  function Take(fs: seq<Chunk>, i: nat, need: nat): seq<Chunk>
    requires i < |fs| && fs[i].len >= need
  {
    fs[..i] + Remainder(fs[i], need) + fs[i + 1..]
  }

  /** Taking a chunk and giving it straight back restores the free list. */
  lemma TakeThenInsert(fs: seq<Chunk>, need: nat)
    requires Coalesced(fs) && (forall i | 0 <= i < |fs| :: fs[i].len > 0) && need > 0 && FirstFit(fs, need) < |fs|
    ensures var i := FirstFit(fs, need);
            Insert(Take(fs, i, need), Chunk(fs[i].addr, Taken(fs[i].len, need))) == fs
  {
    hide Insert, FirstFit, Coalesced, Remainder, Taken, MergeFront;
    var i := FirstFit(fs, need);
    var c := Chunk(fs[i].addr, Taken(fs[i].len, need));
    var xs, ys := fs[..i], Remainder(fs[i], need) + fs[i + 1..];
    assert Take(fs, i, need) == xs + ys;
    AroundTaken(fs, i, need);
    InsertBetween(xs, c, ys);
    RemainderBack(fs[i], need, fs[i + 1..]);
    assert fs == fs[..i] + ([fs[i]] + fs[i + 1..]);
  }

  lemma AroundTaken(fs: seq<Chunk>, i: nat, need: nat)
    requires Coalesced(fs) && i < |fs| && fs[i].len >= need > 0
    ensures forall j | 0 <= j < |fs[..i]| :: End(fs[..i][j]) < fs[i].addr
    ensures fs[i + 1..] != [] ==> End(fs[i]) < fs[i + 1..][0].addr
    ensures var ys := Remainder(fs[i], need) + fs[i + 1..]; ys != [] ==> fs[i].addr < ys[0].addr
  {
  }

  lemma RemainderBack(f: Chunk, need: nat, later: seq<Chunk>)
    requires f.len >= need && (later != [] ==> End(f) < later[0].addr)
    ensures MergeFront(Chunk(f.addr, Taken(f.len, need)), Remainder(f, need) + later) == [f] + later
  {
    if f.len > need + FREE_HEADER {
      assert (Remainder(f, need) + later)[1..] == later;
    } else {
      assert [] + later == later;
    }
  }

  // ---- the tiling ----

  datatype Use = Free | Live(ptr: nat)

  datatype Tile = Tile(addr: nat, len: nat, use: Use)

  /** The tiles lie one after the other from `lo` to `hi`, each large enough for a free chunk. */
  predicate Tiling(ts: seq<Tile>, lo: nat, hi: nat)
    decreases |ts|
  {
    if ts == [] then lo == hi
    else ts[0].addr == lo && lo % PTR == 0 && ts[0].len >= FREE_HEADER && ts[0].len % PTR == 0
         && Tiling(ts[1..], lo + ts[0].len, hi)
  }

  predicate NoFreePair(ts: seq<Tile>) {
    forall i | 0 <= i < |ts| - 1 :: !(ts[i].use.Free? && ts[i + 1].use.Free?)
  }

  /** Each live block holds its header and the address handed out. */
  predicate PtrInside(t: Tile) {
    t.use.Live? ==> t.addr + ALLOC_HEADER <= t.use.ptr <= t.addr + t.len
  }

  function FreeOf(ts: seq<Tile>): seq<Chunk>
    decreases |ts|
  {
    if ts == [] then []
    else (if ts[0].use.Free? then [Chunk(ts[0].addr, ts[0].len)] else []) + FreeOf(ts[1..])
  }

  /** What the header in front of each live pointer says: where its block starts and how long it is. */
  function HeadersOf(ts: seq<Tile>): map<nat, Chunk>
    decreases |ts|
  {
    if ts == [] then map[]
    else if ts[0].use.Live? then HeadersOf(ts[1..])[ts[0].use.ptr := Chunk(ts[0].addr, ts[0].len)]
    else HeadersOf(ts[1..])
  }

  lemma FreeStep(t: Tile, ts: seq<Tile>)
    ensures FreeOf([t] + ts) == (if t.use.Free? then [Chunk(t.addr, t.len)] else []) + FreeOf(ts)
  {
    assert ([t] + ts)[1..] == ts;
  }

  lemma {:induction false} FreeAppend(a: seq<Tile>, b: seq<Tile>)
    ensures FreeOf(a + b) == FreeOf(a) + FreeOf(b)
    decreases |a|
  {
    if a == [] {
      assert a + b == b && FreeOf(a) == [];
    } else {
      hide FreeOf;
      assert a == [a[0]] + a[1..] && a + b == [a[0]] + (a[1..] + b);
      FreeStep(a[0], a[1..]);
      FreeStep(a[0], a[1..] + b);
      FreeAppend(a[1..], b);
    }
  }

  lemma {:induction false} TilingAppend(a: seq<Tile>, b: seq<Tile>, lo: nat, mid: nat, hi: nat)
    requires Tiling(a, lo, mid) && Tiling(b, mid, hi)
    ensures Tiling(a + b, lo, hi)
    decreases |a|
  {
    if a == [] {
      assert a + b == b;
    } else {
      assert (a + b)[1..] == a[1..] + b;
      TilingAppend(a[1..], b, lo + a[0].len, mid, hi);
    }
  }

  lemma {:induction false} TilingSplit(a: seq<Tile>, b: seq<Tile>, lo: nat, hi: nat) returns (mid: nat)
    requires Tiling(a + b, lo, hi)
    ensures Tiling(a, lo, mid) && Tiling(b, mid, hi) && lo <= mid <= hi
    decreases |a|
  {
    mid := lo;
    if a == [] {
      assert a + b == b;
      TilingRange(b, lo, hi);
    } else {
      assert (a + b)[1..] == a[1..] + b;
      mid := TilingSplit(a[1..], b, lo + a[0].len, hi);
    }
  }

  lemma {:induction false} TilingRange(ts: seq<Tile>, lo: nat, hi: nat)
    requires Tiling(ts, lo, hi)
    ensures lo <= hi && (ts != [] ==> lo < hi && lo % PTR == 0 && hi % PTR == 0)
    ensures forall i | 0 <= i < |ts| ::
              lo <= ts[i].addr && ts[i].addr + ts[i].len <= hi && ts[i].len >= FREE_HEADER && ts[i].len % PTR == 0
    decreases |ts|
  {
    if ts != [] {
      TilingRange(ts[1..], lo + ts[0].len, hi);
    }
  }

  /** Tiles earlier in the list end before later ones start. */
  lemma {:induction false} TilesOrdered(ts: seq<Tile>, lo: nat, hi: nat, i: nat, j: nat)
    requires Tiling(ts, lo, hi) && i < j < |ts|
    ensures ts[i].addr + ts[i].len <= ts[j].addr
    decreases |ts|
  {
    if i == 0 {
      TilingRange(ts[1..], lo + ts[0].len, hi);
      assert ts[j] == ts[1..][j - 1];
    } else {
      TilesOrdered(ts[1..], lo + ts[0].len, hi, i - 1, j - 1);
    }
  }

  /** Lengths add up. */
  function Total(fs: seq<Chunk>): nat {
    if fs == [] then 0 else fs[0].len + Total(fs[1..])
  }

  function LiveOf(ts: seq<Tile>): seq<Chunk>
    decreases |ts|
  {
    if ts == [] then []
    else (if ts[0].use.Live? then [Chunk(ts[0].addr, ts[0].len)] else []) + LiveOf(ts[1..])
  }

  /** Free and live lengths together make up the range: nothing is ever lost. */
  lemma {:induction false} Conserved(ts: seq<Tile>, lo: nat, hi: nat)
    requires Tiling(ts, lo, hi)
    ensures Total(FreeOf(ts)) + Total(LiveOf(ts)) == hi - lo
    decreases |ts|
  {
    hide FreeOf, LiveOf, Total;
    if ts == [] {
      NoTotal();
    } else {
      var t, rest := ts[0], ts[1..];
      assert ts == [t] + rest;
      Conserved(rest, lo + t.len, hi);
      FreeStep(t, rest);
      LiveStep(t, rest);
      TotalCons(Chunk(t.addr, t.len), FreeOf(rest));
      TotalCons(Chunk(t.addr, t.len), LiveOf(rest));
      assert [] + FreeOf(rest) == FreeOf(rest) && [] + LiveOf(rest) == LiveOf(rest);
    }
  }

  lemma NoTotal()
    ensures Total(FreeOf([])) == 0 && Total(LiveOf([])) == 0
  {
  }

  lemma TotalCons(c: Chunk, fs: seq<Chunk>)
    ensures Total([c] + fs) == c.len + Total(fs)
  {
    assert ([c] + fs)[1..] == fs;
  }

  lemma LiveStep(t: Tile, ts: seq<Tile>)
    ensures LiveOf([t] + ts) == (if t.use.Live? then [Chunk(t.addr, t.len)] else []) + LiveOf(ts)
  {
    assert ([t] + ts)[1..] == ts;
  }

  /** Every free chunk is a free tile, in the same order. */
  lemma {:induction false} FreeTileAt(ts: seq<Tile>, i: nat) returns (k: nat)
    requires i < |FreeOf(ts)|
    ensures k < |ts| && ts[k].use.Free? && FreeOf(ts)[i] == Chunk(ts[k].addr, ts[k].len) && |FreeOf(ts[..k])| == i
    decreases |ts|
  {
    if ts[0].use.Free? && i == 0 {
      k := 0;
    } else {
      k := FreeTileAt(ts[1..], if ts[0].use.Free? then i - 1 else i);
      assert ts[..k + 1][1..] == ts[1..][..k];
      k := k + 1;
    }
  }

  lemma {:induction false} TwoFreeTiles(ts: seq<Tile>, i: nat, j: nat) returns (k: nat, l: nat)
    requires i < j < |FreeOf(ts)|
    ensures k < l < |ts| && ts[k].use.Free? && ts[l].use.Free?
    ensures FreeOf(ts)[i] == Chunk(ts[k].addr, ts[k].len) && FreeOf(ts)[j] == Chunk(ts[l].addr, ts[l].len)
    decreases |ts|
  {
    if ts[0].use.Free? && i == 0 {
      k := 0;
      l := FreeTileAt(ts[1..], j - 1);
      l := l + 1;
    } else {
      var n := if ts[0].use.Free? then 1 else 0;
      k, l := TwoFreeTiles(ts[1..], i - n, j - n);
      k, l := k + 1, l + 1;
    }
  }

  /** A tiling without two free neighbours has a coalesced free list, inside the range. */
  lemma FreeCoalesced(ts: seq<Tile>, lo: nat, hi: nat)
    requires Tiling(ts, lo, hi) && NoFreePair(ts)
    ensures Coalesced(FreeOf(ts))
    ensures forall i | 0 <= i < |FreeOf(ts)| :: lo <= FreeOf(ts)[i].addr && End(FreeOf(ts)[i]) <= hi
                                               && FreeOf(ts)[i].len >= FREE_HEADER && FreeOf(ts)[i].len % PTR == 0
  {
    var fs := FreeOf(ts);
    TilingRange(ts, lo, hi);
    forall i, j | 0 <= i < j < |fs|
      ensures End(fs[i]) < fs[j].addr
    {
      var k, l := TwoFreeTiles(ts, i, j);
      assert l != k + 1;
      TilesOrdered(ts, lo, hi, k, k + 1);
      TilesOrdered(ts, lo, hi, k + 1, l);
    }
    forall i | 0 <= i < |fs|
      ensures lo <= fs[i].addr && End(fs[i]) <= hi && fs[i].len >= FREE_HEADER && fs[i].len % PTR == 0
    {
      var k := FreeTileAt(ts, i);
    }
  }

  /** When nothing is live the heap is one free chunk again, whatever happened before. */
  lemma AllFreeIsOne(ts: seq<Tile>, lo: nat, hi: nat)
    requires Tiling(ts, lo, hi) && NoFreePair(ts) && lo < hi
    requires forall i | 0 <= i < |ts| :: ts[i].use.Free?
    ensures FreeOf(ts) == [Chunk(lo, hi - lo)]
  {
    assert |ts| == 1;
    assert ts[1..] == [];
  }

  // ---- headers of live blocks ----

  lemma {:induction false} HeadersAre(ts: seq<Tile>, lo: nat, hi: nat)
    requires Tiling(ts, lo, hi) && forall i | 0 <= i < |ts| :: PtrInside(ts[i])
    ensures forall i | 0 <= i < |ts| && ts[i].use.Live? ::
              ts[i].use.ptr in HeadersOf(ts) && HeadersOf(ts)[ts[i].use.ptr] == Chunk(ts[i].addr, ts[i].len)
    ensures forall p | p in HeadersOf(ts) :: lo + ALLOC_HEADER <= p <= hi
    ensures forall p | p in HeadersOf(ts) :: exists i :: 0 <= i < |ts| && ts[i].use == Live(p)
    decreases |ts|
  {
    if ts != [] {
      var rest, next := ts[1..], lo + ts[0].len;
      HeadersAre(rest, next, hi);
      TilingRange(rest, next, hi);
      forall p | p in HeadersOf(ts)
        ensures exists i :: 0 <= i < |ts| && ts[i].use == Live(p)
      {
        if ts[0].use == Live(p) {
        } else {
          var i :| 0 <= i < |rest| && rest[i].use == Live(p);
          assert ts[i + 1].use == Live(p);
        }
      }
      forall i | 0 <= i < |ts| && ts[i].use.Live?
        ensures ts[i].use.ptr in HeadersOf(ts) && HeadersOf(ts)[ts[i].use.ptr] == Chunk(ts[i].addr, ts[i].len)
      {
        if i > 0 {
          assert ts[i] == rest[i - 1];
        }
      }
    }
  }

  /** One tile changed: the headers change at its pointer alone. */
  lemma {:induction false} HeadersSplit(a: seq<Tile>, b: seq<Tile>)
    ensures HeadersOf(a + b) == HeadersOf(b) + HeadersOf(a)
    decreases |a|
  {
    if a == [] {
      assert a + b == b;
    } else {
      assert (a + b)[1..] == a[1..] + b;
      HeadersSplit(a[1..], b);
    }
  }

  lemma {:induction false} HeadersRange(ts: seq<Tile>, lo: nat, hi: nat)
    requires Tiling(ts, lo, hi) && forall i | 0 <= i < |ts| :: PtrInside(ts[i])
    ensures forall p | p in HeadersOf(ts) :: lo + ALLOC_HEADER <= p <= hi
  {
    HeadersAre(ts, lo, hi);
  }

  lemma NoPairsApart(a: seq<Tile>, m: seq<Tile>, b: seq<Tile>)
    requires NoFreePair(a) && NoFreePair(m) && NoFreePair(b) && m != []
    requires a != [] ==> !(a[|a| - 1].use.Free? && m[0].use.Free?)
    requires b != [] ==> !(m[|m| - 1].use.Free? && b[0].use.Free?)
    ensures NoFreePair(a + m + b)
  {
    var ts := a + m + b;
    forall i | 0 <= i < |ts| - 1
      ensures !(ts[i].use.Free? && ts[i + 1].use.Free?)
    {
      if i < |a| - 1 {
        assert ts[i] == a[i] && ts[i + 1] == a[i + 1];
      } else if i == |a| - 1 {
        assert ts[i] == a[i] && ts[i + 1] == m[0];
      } else if i < |a| + |m| - 1 {
        assert ts[i] == m[i - |a|] && ts[i + 1] == m[i + 1 - |a|];
      } else if i == |a| + |m| - 1 {
        assert ts[i] == m[|m| - 1] && ts[i + 1] == b[0];
      } else {
        assert ts[i] == b[i - |a| - |m|] && ts[i + 1] == b[i + 1 - |a| - |m|];
      }
    }
  }

  lemma PairsOfParts(a: seq<Tile>, t: Tile, b: seq<Tile>)
    requires NoFreePair(a + [t] + b)
    ensures NoFreePair(a) && NoFreePair(b)
    ensures t.use.Free? ==> (a != [] ==> a[|a| - 1].use.Live?) && (b != [] ==> b[0].use.Live?)
  {
    var ts := a + [t] + b;
    assert ts[|a|] == t;
    assert a != [] ==> ts[|a| - 1] == a[|a| - 1];
    assert b != [] ==> ts[|a| + 1] == b[0];
    forall i | 0 <= i < |a| - 1
      ensures !(a[i].use.Free? && a[i + 1].use.Free?)
    {
      assert ts[i] == a[i] && ts[i + 1] == a[i + 1];
    }
    forall i | 0 <= i < |b| - 1
      ensures !(b[i].use.Free? && b[i + 1].use.Free?)
    {
      assert ts[|a| + 1 + i] == b[i] && ts[|a| + 2 + i] == b[i + 1];
    }
  }

  /** All that the heap keeps, of a tiling. */
  ghost predicate Sound(ts: seq<Tile>, lo: nat, hi: nat) {
    Tiling(ts, lo, hi) && NoFreePair(ts) && forall i | 0 <= i < |ts| :: PtrInside(ts[i])
  }

  lemma SoundParts(a: seq<Tile>, t: Tile, b: seq<Tile>, lo: nat, hi: nat)
    requires Sound(a + [t] + b, lo, hi)
    ensures Tiling(a, lo, t.addr) && Tiling([t], t.addr, t.addr + t.len) && Tiling(b, t.addr + t.len, hi)
    ensures (forall i | 0 <= i < |a| :: PtrInside(a[i])) && PtrInside(t) && forall i | 0 <= i < |b| :: PtrInside(b[i])
    ensures lo <= t.addr && t.addr + t.len <= hi
  {
    hide PtrInside;
    var ts := a + [t] + b;
    var mid := TilingSplit(a + [t], b, lo, hi);
    var at := TilingSplit(a, [t], lo, mid);
    forall i | 0 <= i < |a| ensures PtrInside(a[i]) {
      assert ts[i] == a[i];
    }
    assert ts[|a|] == t;
    forall i | 0 <= i < |b| ensures PtrInside(b[i]) {
      assert ts[|a| + 1 + i] == b[i];
    }
  }

  lemma FreeOfThree(a: seq<Tile>, m: seq<Tile>, b: seq<Tile>)
    ensures FreeOf(a + m + b) == FreeOf(a) + FreeOf(m) + FreeOf(b)
  {
    FreeAppend(a + m, b);
    FreeAppend(a, m);
  }

  lemma HeadersOfThree(a: seq<Tile>, m: seq<Tile>, b: seq<Tile>)
    ensures HeadersOf(a + m + b) == HeadersOf(b) + (HeadersOf(m) + HeadersOf(a))
  {
    HeadersSplit(a + m, b);
    HeadersSplit(a, m);
  }

  lemma AllInside(a: seq<Tile>, m: seq<Tile>, b: seq<Tile>)
    requires (forall i | 0 <= i < |a| :: PtrInside(a[i])) && (forall i | 0 <= i < |m| :: PtrInside(m[i]))
    requires forall i | 0 <= i < |b| :: PtrInside(b[i])
    ensures forall i | 0 <= i < |a + m + b| :: PtrInside((a + m + b)[i])
  {
    hide PtrInside;
  }

  // ---- taking a block ----

  function TakenTiles(t: Tile, need: nat, ptr: nat): seq<Tile>
    requires t.len >= need
  {
    [Tile(t.addr, Taken(t.len, need), Live(ptr))]
    + if t.len > need + FREE_HEADER then [Tile(t.addr + need, t.len - need, Free)] else []
  }

  /** Splitting a free tile into a live one and perhaps a free rest keeps the tiling sound
      and changes the free list and the headers as the allocator does. */
  lemma TakenSound(a: seq<Tile>, t: Tile, b: seq<Tile>, lo: nat, hi: nat, need: nat, ptr: nat)
    requires Sound(a + [t] + b, lo, hi) && t.use.Free? && t.len >= need >= FREE_HEADER && need % PTR == 0
    requires t.addr + ALLOC_HEADER <= ptr <= t.addr + Taken(t.len, need)
    ensures Sound(a + TakenTiles(t, need, ptr) + b, lo, hi)
    ensures ptr !in HeadersOf(a + [t] + b)
    ensures HeadersOf(a + TakenTiles(t, need, ptr) + b) ==
              HeadersOf(a + [t] + b)[ptr := Chunk(t.addr, Taken(t.len, need))]
    ensures FreeOf(a + TakenTiles(t, need, ptr) + b) == FreeOf(a) + Remainder(Chunk(t.addr, t.len), need) + FreeOf(b)
  {
    hide TakenTiles, Tiling, Taken, FreeOf, HeadersOf, PtrInside, Remainder, NoFreePair;
    var m := TakenTiles(t, need, ptr);
    SoundParts(a, t, b, lo, hi);
    PairsOfParts(a, t, b);
    TakenParts(t, need, ptr);
    HeadersRange(a, lo, t.addr);
    HeadersRange(b, t.addr + t.len, hi);
    TilingAppend(a, m, lo, t.addr, t.addr + t.len);
    TilingAppend(a + m, b, lo, t.addr + t.len, hi);
    NoPairsApart(a, m, b);
    AllInside(a, m, b);
    FreeOfThree(a, m, b);
    HeadersOfThree(a, m, b);
    HeadersOfThree(a, [t], b);
    NoHeaders(t);
  }

  lemma NoHeaders(t: Tile)
    requires t.use.Free?
    ensures HeadersOf([t]) == map[]
  {
    assert [t][1..] == [];
  }

  lemma TakenParts(t: Tile, need: nat, ptr: nat)
    requires t.use.Free? && t.len >= need >= FREE_HEADER && need % PTR == 0 && Tiling([t], t.addr, t.addr + t.len)
    requires t.addr + ALLOC_HEADER <= ptr <= t.addr + Taken(t.len, need)
    ensures var m := TakenTiles(t, need, ptr);
            && m != [] && m[0].use == Live(ptr) && NoFreePair(m) && (forall i | 0 <= i < |m| :: PtrInside(m[i]))
            && Tiling(m, t.addr, t.addr + t.len)
            && FreeOf(m) == Remainder(Chunk(t.addr, t.len), need)
            && HeadersOf(m) == map[ptr := Chunk(t.addr, Taken(t.len, need))]
  {
    var m := TakenTiles(t, need, ptr);
    if t.len > need + FREE_HEADER {
      var rest := Tile(t.addr + need, t.len - need, Free);
      assert m[1..] == [rest] && [rest][1..] == [];
      assert Tiling([rest], t.addr + need, t.addr + t.len);
      OneFree(rest);
      NoHeaders(rest);
      assert [] + FreeOf([rest]) == FreeOf([rest]);
    } else {
      assert m[1..] == [] && FreeOf([]) == [] && HeadersOf([]) == map[];
    }
  }

  // ---- giving a block back ----

  /** Tiles before the block, less a free one at their end, and where the free block then starts. */
  function LeftRest(a: seq<Tile>): seq<Tile> {
    if a != [] && a[|a| - 1].use.Free? then a[..|a| - 1] else a
  }

  function LeftStart(a: seq<Tile>, t: Tile): nat {
    if a != [] && a[|a| - 1].use.Free? then a[|a| - 1].addr else t.addr
  }

  /** The same to the right. */
  function RightRest(b: seq<Tile>): seq<Tile> {
    if b != [] && b[0].use.Free? then b[1..] else b
  }

  function RightEnd(b: seq<Tile>, t: Tile): nat {
    if b != [] && b[0].use.Free? then b[0].addr + b[0].len else t.addr + t.len
  }

  function FreedTiles(a: seq<Tile>, t: Tile, b: seq<Tile>): seq<Tile> {
    var start, end := LeftStart(a, t), RightEnd(b, t);
    LeftRest(a) + [Tile(start, if end >= start then end - start else 0, Free)] + RightRest(b)
  }

  /** Sound tiles up to `at`, the last of them live. */
  ghost predicate LeftPart(l: seq<Tile>, lo: nat, at: nat) {
    Tiling(l, lo, at) && NoFreePair(l) && (l != [] ==> l[|l| - 1].use.Live?)
      && forall i | 0 <= i < |l| :: PtrInside(l[i])
  }

  /** Sound tiles from `at` on, the first of them live. */
  ghost predicate RightPart(r: seq<Tile>, at: nat, hi: nat) {
    Tiling(r, at, hi) && NoFreePair(r) && (r != [] ==> r[0].use.Live?) && forall i | 0 <= i < |r| :: PtrInside(r[i])
  }

  lemma LastFree(l: seq<Tile>, p: Tile, lo: nat, hi: nat)
    requires Tiling(l + [p], lo, hi) && NoFreePair(l + [p])
    requires (forall i | 0 <= i < |l + [p]| :: PtrInside((l + [p])[i]))
    requires p.use.Free?
    ensures LeftPart(l, lo, p.addr) && p.addr + p.len == hi && p.addr % PTR == hi % PTR == 0
    ensures HeadersOf(l) == HeadersOf(l + [p]) && FreeOf(l + [p]) == FreeOf(l) + [Chunk(p.addr, p.len)]
  {
    hide FreeOf, HeadersOf, PtrInside;
    var ts := l + [p];
    var mid := TilingSplit(l, [p], lo, hi);
    assert [p][1..] == [];
    FreeAppend(l, [p]);
    HeadersSplit(l, [p]);
    NoHeaders(p);
    OneFree(p);
    assert ts[|l|] == p && (l != [] ==> ts[|l| - 1] == l[|l| - 1]);
    forall i | 0 <= i < |l| - 1
      ensures !(l[i].use.Free? && l[i + 1].use.Free?)
    {
      assert ts[i] == l[i] && ts[i + 1] == l[i + 1];
    }
    forall i | 0 <= i < |l|
      ensures PtrInside(l[i])
    {
      assert ts[i] == l[i];
    }
  }

  lemma LeftSound(a: seq<Tile>, t: Tile, lo: nat)
    requires Tiling(a, lo, t.addr) && NoFreePair(a) && forall i | 0 <= i < |a| :: PtrInside(a[i])
    ensures var l := LeftRest(a);
            && LeftPart(l, lo, LeftStart(a, t)) && LeftStart(a, t) <= t.addr && LeftStart(a, t) % PTR == t.addr % PTR
            && HeadersOf(l) == HeadersOf(a)
            && FreeOf(a) == FreeOf(l) + (if l == a then [] else [Chunk(LeftStart(a, t), t.addr - LeftStart(a, t))])
            && forall i | 0 <= i < |FreeOf(l)| :: End(FreeOf(l)[i]) < LeftStart(a, t)
  {
    hide FreeOf, HeadersOf, PtrInside;
    var l := LeftRest(a);
    if l != a {
      var p := a[|a| - 1];
      assert a == l + [p];
      LastFree(l, p, lo, t.addr);
    } else {
      assert FreeOf(a) + [] == FreeOf(a);
    }
    ChunksBelow(l, lo, LeftStart(a, t));
  }

  /** Free chunks end before the end of the tiles, strictly when the last tile is live. */
  lemma {:induction false} ChunksBelow(ts: seq<Tile>, lo: nat, hi: nat)
    requires Tiling(ts, lo, hi) && (ts != [] ==> ts[|ts| - 1].use.Live?)
    ensures forall i | 0 <= i < |FreeOf(ts)| :: End(FreeOf(ts)[i]) < hi
    decreases |ts|
  {
    if ts != [] {
      TilingRange(ts[1..], lo + ts[0].len, hi);
      if |ts| > 1 {
        assert ts[1..][|ts| - 2] == ts[|ts| - 1];
      } else {
        assert ts[1..] == [];
      }
      ChunksBelow(ts[1..], lo + ts[0].len, hi);
    }
  }

  lemma {:induction false} ChunksAbove(ts: seq<Tile>, lo: nat, hi: nat)
    requires Tiling(ts, lo, hi)
    ensures forall i | 0 <= i < |FreeOf(ts)| :: FreeOf(ts)[i].addr >= lo
    decreases |ts|
  {
    if ts != [] {
      ChunksAbove(ts[1..], lo + ts[0].len, hi);
    }
  }

  lemma TilingStep(p: Tile, r: seq<Tile>, lo: nat, hi: nat)
    requires Tiling([p] + r, lo, hi)
    ensures p.addr == lo && p.len % PTR == 0 && (p.addr + p.len) % PTR == lo % PTR && Tiling(r, p.addr + p.len, hi)
  {
    assert ([p] + r)[1..] == r;
  }

  lemma FirstFree(p: Tile, r: seq<Tile>, lo: nat, hi: nat)
    requires Tiling([p] + r, lo, hi) && NoFreePair([p] + r)
    requires (forall i | 0 <= i < |[p] + r| :: PtrInside(([p] + r)[i]))
    requires p.use.Free?
    ensures RightPart(r, p.addr + p.len, hi) && p.addr == lo && (p.addr + p.len) % PTR == lo % PTR
    ensures HeadersOf(r) == HeadersOf([p] + r) && FreeOf([p] + r) == [Chunk(p.addr, p.len)] + FreeOf(r)
  {
    hide PtrInside, FreeOf, HeadersOf, Tiling;
    var ts := [p] + r;
    TilingStep(p, r, lo, hi);
    FreeStep(p, r);
    HeadersSplit([p], r);
    NoHeaders(p);
    assert ts[0] == p && (r != [] ==> ts[1] == r[0]);
    forall i | 0 <= i < |r| - 1
      ensures !(r[i].use.Free? && r[i + 1].use.Free?)
    {
      assert ts[i + 1] == r[i] && ts[i + 2] == r[i + 1];
    }
    forall i | 0 <= i < |r|
      ensures PtrInside(r[i])
    {
      assert ts[i + 1] == r[i];
    }
  }

  lemma RightSound(b: seq<Tile>, t: Tile, hi: nat, start: nat)
    requires Tiling(b, t.addr + t.len, hi) && NoFreePair(b) && (forall i | 0 <= i < |b| :: PtrInside(b[i]))
    requires start <= t.addr
    ensures var r := RightRest(b);
            && RightPart(r, RightEnd(b, t), hi)
            && t.addr + t.len <= RightEnd(b, t) && RightEnd(b, t) % PTR == (t.addr + t.len) % PTR
            && HeadersOf(r) == HeadersOf(b)
            && MergeFront(Chunk(start, t.addr + t.len - start), FreeOf(b)) ==
                 [Chunk(start, RightEnd(b, t) - start)] + FreeOf(r)
            && (FreeOf(b) != [] ==> t.addr + t.len <= FreeOf(b)[0].addr)
  {
    hide PtrInside, HeadersOf, FreeOf, MergeFront;
    ChunksAbove(b, t.addr + t.len, hi);
    var c := Chunk(start, t.addr + t.len - start);
    if b != [] && b[0].use.Free? {
      assert b == [b[0]] + b[1..];
      FirstFree(b[0], b[1..], t.addr + t.len, hi);
      MergeMeets(c, Chunk(b[0].addr, b[0].len), FreeOf(b[1..]));
    } else {
      FirstLive(b, t.addr + t.len, hi);
      MergeApart(c, FreeOf(b));
    }
  }

  lemma FirstLive(b: seq<Tile>, lo: nat, hi: nat)
    requires Tiling(b, lo, hi) && (b != [] ==> b[0].use.Live?)
    ensures FreeOf(b) != [] ==> FreeOf(b)[0].addr > lo
  {
    if b != [] {
      ChunksAbove(b[1..], b[0].addr + b[0].len, hi);
      assert FreeOf(b) == [] + FreeOf(b[1..]);
    }
  }

  lemma MergeApart(c: Chunk, fs: seq<Chunk>)
    requires fs != [] ==> End(c) < fs[0].addr
    ensures MergeFront(c, fs) == [c] + fs
  {
  }

  lemma MergeMeets(c: Chunk, f: Chunk, fs: seq<Chunk>)
    requires End(c) == f.addr
    ensures MergeFront(c, [f] + fs) == [Chunk(c.addr, c.len + f.len)] + fs
  {
    assert ([f] + fs)[1..] == fs;
  }

  /** Freeing a live tile and merging it with free neighbours keeps the tiling sound; the
      free list changes by one insertion and the block's header goes. */
  lemma FreedSound(a: seq<Tile>, t: Tile, b: seq<Tile>, lo: nat, hi: nat)
    requires Sound(a + [t] + b, lo, hi) && t.use.Live?
    ensures Sound(FreedTiles(a, t, b), lo, hi)
    ensures FreeOf(FreedTiles(a, t, b)) == Insert(FreeOf(a + [t] + b), Chunk(t.addr, t.len))
    ensures HeadersOf(FreedTiles(a, t, b)) == HeadersOf(a + [t] + b) - {t.use.ptr}
  {
    hide PtrInside, FreeOf, HeadersOf, Insert, MergeFront;
    SoundParts(a, t, b, lo, hi);
    PairsOfParts(a, t, b);
    LeftSound(a, t, lo);
    RightSound(b, t, hi, LeftStart(a, t));
    var l, r, start, end := LeftRest(a), RightRest(b), LeftStart(a, t), RightEnd(b, t);
    var m := Tile(start, end - start, Free);
    assert FreedTiles(a, t, b) == l + [m] + r;
    FreedTiled(l, m, r, lo, hi, t);
    hide Tiling, LeftRest, RightRest, LeftStart, RightEnd, NoFreePair, LeftPart, RightPart;
    FreedHeaders(a, t, b, l, m, r, lo, hi);
    FreedList(a, t, b, l, start, end, r);
    FreeOfThree(l, [m], r);
    OneFree(m);
  }

  lemma OneFree(m: Tile)
    requires m.use.Free?
    ensures FreeOf([m]) == [Chunk(m.addr, m.len)]
  {
    assert [m][1..] == [];
  }

  lemma OneLive(t: Tile)
    requires t.use.Live?
    ensures FreeOf([t]) == [] && HeadersOf([t]) == map[t.use.ptr := Chunk(t.addr, t.len)]
  {
    assert [t][1..] == [];
  }

  lemma FreedTiled(l: seq<Tile>, m: Tile, r: seq<Tile>, lo: nat, hi: nat, t: Tile)
    requires LeftPart(l, lo, m.addr) && RightPart(r, m.addr + m.len, hi) && m.use.Free?
    requires Tiling([t], t.addr, t.addr + t.len) && m.addr <= t.addr && t.addr + t.len <= m.addr + m.len
    requires m.addr % PTR == t.addr % PTR && (m.addr + m.len) % PTR == (t.addr + t.len) % PTR
    ensures Sound(l + [m] + r, lo, hi)
  {
    hide LeftPart, RightPart, Tiling, NoFreePair, PtrInside;
    OneTile(m, t);
    PartsTile(l, m, r, lo, hi);
    TilingAppend(l, [m], lo, m.addr, m.addr + m.len);
    TilingAppend(l + [m], r, lo, m.addr + m.len, hi);
    NoPairsApart(l, [m], r);
    AllInside(l, [m], r);
  }

  lemma OneTile(m: Tile, t: Tile)
    requires Tiling([t], t.addr, t.addr + t.len) && m.addr <= t.addr && t.addr + t.len <= m.addr + m.len && m.use.Free?
    requires m.addr % PTR == t.addr % PTR && (m.addr + m.len) % PTR == (t.addr + t.len) % PTR
    ensures Tiling([m], m.addr, m.addr + m.len) && PtrInside(m) && NoFreePair([m])
  {
    TilingOne(t);
    TilingOne(m);
    hide Tiling;
    LengthWords(t.addr, t.len);
    WordsLength(m.addr, m.len);
  }

  lemma TilingOne(t: Tile)
    ensures Tiling([t], t.addr, t.addr + t.len) <==> t.addr % PTR == 0 && t.len >= FREE_HEADER && t.len % PTR == 0
  {
    assert [t][1..] == [];
  }

  lemma LengthWords(a: nat, n: nat)
    requires a % PTR == 0 && n % PTR == 0
    ensures (a + n) % PTR == 0
  {
  }

  lemma WordsLength(a: nat, n: nat)
    requires a % PTR == 0 && (a + n) % PTR == 0
    ensures n % PTR == 0
  {
  }

  lemma PartsTile(l: seq<Tile>, m: Tile, r: seq<Tile>, lo: nat, hi: nat)
    requires LeftPart(l, lo, m.addr) && RightPart(r, m.addr + m.len, hi)
    ensures Tiling(l, lo, m.addr) && Tiling(r, m.addr + m.len, hi) && NoFreePair(l) && NoFreePair(r)
    ensures (l != [] ==> l[|l| - 1].use.Live?) && (r != [] ==> r[0].use.Live?)
    ensures (forall i | 0 <= i < |l| :: PtrInside(l[i])) && (forall i | 0 <= i < |r| :: PtrInside(r[i]))
  {
    hide Tiling, NoFreePair, PtrInside;
  }

  lemma FreedHeaders(a: seq<Tile>, t: Tile, b: seq<Tile>, l: seq<Tile>, m: Tile, r: seq<Tile>, lo: nat, hi: nat)
    requires HeadersOf(l) == HeadersOf(a) && HeadersOf(r) == HeadersOf(b) && m.use.Free? && t.use.Live? && PtrInside(t)
    requires Tiling(a, lo, t.addr) && Tiling(b, t.addr + t.len, hi)
    requires (forall i | 0 <= i < |a| :: PtrInside(a[i])) && (forall i | 0 <= i < |b| :: PtrInside(b[i]))
    ensures HeadersOf(l + [m] + r) == HeadersOf(a + [t] + b) - {t.use.ptr}
  {
    HeadersRange(a, lo, t.addr);
    HeadersRange(b, t.addr + t.len, hi);
    HeadersOfThree(l, [m], r);
    HeadersOfThree(a, [t], b);
    NoHeaders(m);
    OneLive(t);
  }

  lemma FreedList(a: seq<Tile>, t: Tile, b: seq<Tile>, l: seq<Tile>, start: nat, end: nat, r: seq<Tile>)
    requires t.use.Live? && t.len > 0 && start <= t.addr && t.addr + t.len <= end
    requires FreeOf(a) == FreeOf(l) + (if l == a then [] else [Chunk(start, t.addr - start)])
    requires (l == a ==> start == t.addr)
    requires forall i | 0 <= i < |FreeOf(l)| :: End(FreeOf(l)[i]) < start
    requires MergeFront(Chunk(start, t.addr + t.len - start), FreeOf(b)) == [Chunk(start, end - start)] + FreeOf(r)
    requires FreeOf(b) != [] ==> t.addr + t.len <= FreeOf(b)[0].addr
    ensures Insert(FreeOf(a + [t] + b), Chunk(t.addr, t.len)) == FreeOf(l) + [Chunk(start, end - start)] + FreeOf(r)
  {
    hide Insert, MergeFront, FreeOf;
    FreeOfThree(a, [t], b);
    OneLive(t);
    var xs, ys, c := FreeOf(l), FreeOf(b), Chunk(t.addr, t.len);
    if l == a {
      assert FreeOf(a + [t] + b) == xs + ys;
      InsertBetween(xs, c, ys);
    } else {
      var p := Chunk(start, t.addr - start);
      assert FreeOf(a + [t] + b) == xs + ([p] + ys);
      InsertBehind(xs, p, c, ys);
    }
  }

  // ---- the steps of heap_insert_free_chunk ----

  /** `c` overlaps none of the chunks. */
  predicate Apart(fs: seq<Chunk>, c: Chunk) {
    c.len > 0 && forall i | 0 <= i < |fs| :: fs[i].len > 0 && (End(fs[i]) <= c.addr || End(c) <= fs[i].addr)
  }

  lemma BelowIt(fs: seq<Chunk>, c: Chunk, i: nat)
    requires Apart(fs, c) && i < |fs| && fs[i].addr <= c.addr
    ensures End(fs[i]) <= c.addr
  {
  }

  lemma AboveFrom(fs: seq<Chunk>, c: Chunk, i: nat)
    requires Coalesced(fs) && Apart(fs, c) && i <= |fs| && (i < |fs| ==> c.addr < fs[i].addr)
    ensures forall j | i <= j < |fs| :: c.addr < fs[j].addr && End(c) <= fs[j].addr
    ensures forall j | 0 <= j < i - 1 :: End(fs[j]) < fs[i - 1].addr
  {
  }

  /** After the walk and the first merge: `ws`, the chunk `m` that holds `c`, and the rest. */
  lemma Joined(fs: seq<Chunk>, c: Chunk, i: nat, k: nat, gs: seq<Chunk>) returns (ws: seq<Chunk>, m: Chunk)
    requires Coalesced(fs) && Apart(fs, c) && i <= |fs|
    requires (forall j | 0 <= j < i :: End(fs[j]) <= c.addr) && (i < |fs| ==> c.addr < fs[i].addr)
    requires if i > 0 && End(fs[i - 1]) == c.addr
             then k == i - 1 && gs == (fs[..i] + [c] + fs[i..])[..i - 1]
                                      + [Chunk(fs[i - 1].addr, fs[i - 1].len + c.len)]
                                      + (fs[..i] + [c] + fs[i..])[i + 1..]
             else k == i && gs == fs[..i] + [c] + fs[i..]
    ensures |ws| == k && gs == ws + [m] + fs[i..] && End(m) == End(c) && m.addr <= c.addr
    ensures Insert(fs, c) == ws + MergeFront(m, fs[i..])
  {
    hide Insert, MergeFront, Coalesced;
    var ys := fs[i..];
    AboveFrom(fs, c, i);
    if k < i {
      var p := fs[i - 1];
      ws, m := fs[..i - 1], Chunk(p.addr, p.len + c.len);
      assert fs[..i] == ws + [p] && fs == ws + ([p] + ys);
      CutAround(ws, p, c, ys);
      assert forall j | 0 <= j < |ws| :: ws[j] == fs[j] && End(fs[j]) < p.addr;
      InsertBehind(ws, p, c, ys);
    } else {
      ws, m := fs[..i], c;
      assert fs == ws + ys;
      assert i > 0 ==> End(fs[i - 1]) < c.addr;
      assert forall j | 0 <= j < |ws| :: ws[j] == fs[j] && End(fs[j]) < c.addr;
      InsertBetween(ws, c, ys);
    }
  }

  lemma CutAround(ws: seq<Chunk>, p: Chunk, c: Chunk, ys: seq<Chunk>)
    ensures (ws + [p] + [c] + ys)[..|ws|] == ws && (ws + [p] + [c] + ys)[|ws| + 2..] == ys
  {
  }

  lemma AtMiddle(ws: seq<Chunk>, m: Chunk, ys: seq<Chunk>)
    ensures var gs := ws + [m] + ys; gs[|ws|] == m && gs[..|ws|] == ws && gs[|ws| + 1..] == ys
  {
  }

  /** After the second merge. */
  lemma MergedNext(ws: seq<Chunk>, m: Chunk, ys: seq<Chunk>, hs: seq<Chunk>)
    requires hs == if ys != [] && End(m) == ys[0].addr then ws + [Chunk(m.addr, m.len + ys[0].len)] + ys[1..]
               else ws + [m] + ys
    ensures hs == ws + MergeFront(m, ys) && |ws| < |hs| && hs[|ws|].addr == m.addr && End(m) <= End(hs[|ws|])
  {
  }

  // ---- requests ----

  predicate PowerOfTwo(n: nat) {
    n == 1 || (n > 1 && n % 2 == 0 && PowerOfTwo(n / 2))
  }

  /** x & (x - 1) is zero. */
  predicate AlignmentOk(alignment: nat) { alignment == 0 || PowerOfTwo(alignment) }

  lemma AtLeastOnce(b: nat, k: nat)
    requires k > 0
    ensures b * k >= b
  {
  }

  lemma MultipleMod(q: nat, b: nat)
    requires b > 0
    ensures b * q >= 0 && (b * q) % b == 0
  {
    var d, r := b * q / b, (b * q) % b;
    assert b * q == b * d + r;
    if q > d {
      AtLeastOnce(b, q - d);
    } else if q < d {
      AtLeastOnce(b, d - q);
    }
  }

  /** ROUNDUP, for `b` a power of two. */
  function RoundUp(a: nat, b: nat): (r: nat)
    requires b > 0
    ensures a <= r < a + b && r % b == 0
  {
    var x := a + b - 1;
    MultipleMod(x / b, b);
    assert x == b * (x / b) + x % b;
    b * (x / b)
  }

  /** The alignment really used. */
  function Boundary(alignment: nat): nat {
    if alignment == 0 then 0 else if alignment < 16 then 16 else alignment
  }

  /** Bytes looked for: header, request rounded up to a word, worst-case alignment. With
      its header a block is never smaller than a free chunk on this target. */
  function Need(size: nat, alignment: nat): (n: nat)
    ensures n >= size + ALLOC_HEADER + Boundary(alignment) && n >= FREE_HEADER
  {
    RoundUp(size + ALLOC_HEADER, PTR) + Boundary(alignment)
  }

  /** Rounding up to 16 or more is rounding up to any smaller power of two. */
  lemma BoundaryServes(alignment: nat, x: nat)
    requires PowerOfTwo(alignment) && x % Boundary(alignment) == 0
    ensures x % alignment == 0
  {
    if alignment < 16 {
      PowersBelow(alignment);
      hide PowerOfTwo;
      SixteenParts(x);
    }
  }

  lemma SixteenParts(x: nat)
    requires x % 16 == 0
    ensures x % 1 == x % 2 == x % 4 == x % 8 == 0
  {
    var k := x / 16;
    assert x == 2 * (8 * k) && x == 4 * (4 * k) && x == 8 * (2 * k);
  }

  lemma PowersBelow(n: nat)
    requires PowerOfTwo(n) && n < 16
    ensures n in {1, 2, 4, 8}
  {
    if n > 1 {
      var h := n / 2;
      assert PowerOfTwo(h) && n == 2 * h;
      if h > 1 {
        assert PowerOfTwo(h / 2) && h == 2 * (h / 2);
        assert h / 2 > 1 ==> PowerOfTwo(h / 2 / 2) && h / 2 == 2 * (h / 2 / 2);
      }
    }
  }

  lemma {:induction false} PowerWords(n: nat)
    requires PowerOfTwo(n) && n >= PTR
    ensures n % PTR == 0
  {
    assert PowerOfTwo(n / 2) && n == 2 * (n / 2);
    assert n / 2 >= 2 && PowerOfTwo(n / 2 / 2) && n / 2 == 2 * (n / 2 / 2);
  }

  lemma NeedWords(size: nat, alignment: nat)
    requires AlignmentOk(alignment)
    ensures Need(size, alignment) % PTR == 0
  {
    var b := Boundary(alignment);
    assert b % PTR == 0 by {
      if alignment >= 16 {
        PowerWords(alignment);
      }
    }
    var r := Need(size, alignment) - b;
    assert r % PTR == 0;
    WordsAdd(r, b);
  }

  lemma WordsAdd(a: nat, b: nat)
    requires a % PTR == 0 && b % PTR == 0
    ensures (a + b) % PTR == 0
  {
  }

  // ---- the whole transitions, by list index and by pointer ----

  lemma {:induction false} FirstFitIs(fs: seq<Chunk>, need: nat, i: nat)
    requires i <= |fs| && (forall j | 0 <= j < i :: fs[j].len < need) && (i < |fs| ==> fs[i].len >= need)
    ensures FirstFit(fs, need) == i
    ensures i == |fs| <==> forall c | c in fs :: c.len < need
  {
  }

  lemma TakeIs(fs: seq<Chunk>, i: nat, need: nat, gs: seq<Chunk>)
    requires i < |fs| && fs[i].len >= need
    requires var hs := fs[..i] + fs[i + 1..];
             gs == if fs[i].len > need + FREE_HEADER
                   then hs[..i] + [Chunk(fs[i].addr + need, fs[i].len - need)] + hs[i..] else hs
    ensures gs == Take(fs, i, need)
  {
    var hs := fs[..i] + fs[i + 1..];
    assert hs[..i] == fs[..i] && hs[i..] == fs[i + 1..];
    assert fs[..i] + [] == fs[..i];
  }

  /** `n` is the length looked for: the least multiple of four that has room for twelve bytes and the
      request, and beside that nothing, sixteen bytes or the alignment. */
  predicate Room(n: nat, size: nat, alignment: nat) {
    var m := n - (if alignment == 0 then 0 else if alignment <= 16 then 16 else alignment);
    m % 4 == 0 && size + 12 <= m < size + 16
  }

  lemma NeedIsRoom(n: nat, size: nat, alignment: nat)
    ensures Room(n, size, alignment) <==> n == Need(size, alignment)
  {
  }

  /** What a served request has done: the first chunk of at least `n` bytes is gone from the free list
      or cut down by exactly `n`, and the caller's bytes lie in what was taken, at the first place
      behind the header that suits the alignment. */
  ghost predicate Served(fs: seq<Chunk>, hs: map<nat, Chunk>, gs: seq<Chunk>, ks: map<nat, Chunk>, size: nat,
                         alignment: nat, p: nat, n: nat, i: nat) {
    && i < |fs| && fs[i].len >= n && (forall j | 0 <= j < i :: fs[j].len < n)
    && p !in hs
    && var c := fs[i];
       && (if c.len > n + 12
           then gs == fs[..i] + [Chunk(c.addr + n, c.len - n)] + fs[i + 1..] && ks == hs[p := Chunk(c.addr, n)]
           else gs == fs[..i] + fs[i + 1..] && ks == hs[p := c])
       && c.addr + 12 <= p && p + size <= End(ks[p])
       && (if alignment == 0 then p == c.addr + 12
           else p % alignment == 0 && p % 16 == 0 && p < c.addr + 12 + (if alignment <= 16 then 16 else alignment))
  }

  lemma ServedBy(fs: seq<Chunk>, hs: map<nat, Chunk>, gs: seq<Chunk>, ks: map<nat, Chunk>, size: nat, alignment: nat,
                 p: nat, i: nat)
    requires AlignmentOk(alignment) && i == FirstFit(fs, Need(size, alignment))
    requires var need := Need(size, alignment);
             && i < |fs| && gs == Take(fs, i, need) && p !in hs
             && ks == hs[p := Chunk(fs[i].addr, Taken(fs[i].len, need))]
             && (if alignment == 0 then p == fs[i].addr + ALLOC_HEADER
                 else p == RoundUp(fs[i].addr + ALLOC_HEADER, Boundary(alignment)) && p % alignment == 0)
    ensures Served(fs, hs, gs, ks, size, alignment, p, Need(size, alignment), i)
  {
    hide FirstFit, RoundUp, PowerOfTwo, Need, Boundary, AlignmentOk, Take, Taken;
    PtrFits(fs[i].addr, size, alignment, p);
    TakeShape(fs, i, Need(size, alignment));
  }

  lemma TakeShape(fs: seq<Chunk>, i: nat, need: nat)
    requires i < |fs| && fs[i].len >= need
    ensures var c := fs[i];
            if c.len > need + 12
            then Take(fs, i, need) == fs[..i] + [Chunk(c.addr + need, c.len - need)] + fs[i + 1..]
              && Taken(c.len, need) == need
            else Take(fs, i, need) == fs[..i] + fs[i + 1..] && Taken(c.len, need) == c.len
  {
    assert fs[..i] + [] == fs[..i];
  }

  /** Where the caller's bytes are in a chunk that is large enough. */
  lemma PtrFits(addr: nat, size: nat, alignment: nat, p: nat)
    requires AlignmentOk(alignment)
    requires if alignment == 0 then p == addr + ALLOC_HEADER
             else p == RoundUp(addr + ALLOC_HEADER, Boundary(alignment)) && p % alignment == 0
    ensures addr + 12 <= p && p + size <= addr + Need(size, alignment)
    ensures if alignment == 0 then p == addr + 12
            else p % alignment == 0 && p % 16 == 0 && p < addr + 12 + (if alignment <= 16 then 16 else alignment)
  {
    hide RoundUp, PowerOfTwo;
    if alignment > 0 {
      SixteenDivides(p, alignment);
    }
  }

  lemma ServedTakes(fs: seq<Chunk>, hs: map<nat, Chunk>, gs: seq<Chunk>, ks: map<nat, Chunk>, size: nat, alignment: nat,
                    p: nat, i: nat)
    requires Served(fs, hs, gs, ks, size, alignment, p, Need(size, alignment), i)
    ensures var need := Need(size, alignment);
            && i == FirstFit(fs, need) < |fs| && gs == Take(fs, i, need)
            && p in ks && ks[p] == Chunk(fs[i].addr, Taken(fs[i].len, need)) && ks - {p} == hs
  {
    hide Need, FirstFit, Take, Taken;
    FirstFitIs(fs, Need(size, alignment), i);
    TakeShape(fs, i, Need(size, alignment));
    WithoutNew(hs, p, ks[p]);
  }

  lemma WithoutNew(hs: map<nat, Chunk>, p: nat, c: Chunk)
    requires p !in hs
    ensures hs[p := c] - {p} == hs
  {
  }

  function Power(k: nat): nat {
    if k == 0 then 1 else 2 * Power(k - 1)
  }

  /** The alignments accepted are none and the powers of two. */
  lemma {:induction false} PowerIs(n: nat)
    ensures PowerOfTwo(n) <==> exists k: nat :: n == Power(k)
  {
    if PowerOfTwo(n) && n > 1 {
      PowerIs(n / 2);
      var k: nat :| n / 2 == Power(k);
      assert n == Power(k + 1);
    } else if n == 1 {
      assert n == Power(0);
    } else if exists k: nat :: n == Power(k) {
      var k: nat :| n == Power(k);
      PowerPasses(k);
    }
  }

  lemma {:induction false} PowerPasses(k: nat)
    ensures Power(k) >= 1 && PowerOfTwo(Power(k))
  {
    if k > 0 {
      PowerPasses(k - 1);
    }
  }

  lemma SixteenDivides(p: nat, alignment: nat)
    requires PowerOfTwo(alignment) && p % Boundary(alignment) == 0
    ensures p % 16 == 0
  {
    if alignment > 16 {
      var k := SixteenPower(alignment);
      hide PowerOfTwo;
      WholeTimes(p, alignment);
      Sixteens(k, p / alignment);
    }
  }

  lemma WholeTimes(p: nat, n: nat)
    requires n > 0 && p % n == 0
    ensures p == n * (p / n)
  {
  }

  lemma Sixteens(k: nat, q: nat)
    ensures (16 * k * q) % 16 == 0
  {
    assert 16 * k * q == 16 * (k * q);
  }

  lemma {:induction false} SixteenPower(n: nat) returns (k: nat)
    requires PowerOfTwo(n) && n >= 16
    ensures n == 16 * k
    decreases n
  {
    if n == 16 {
      k := 1;
    } else {
      assert PowerOfTwo(n / 2) && n == 2 * (n / 2);
      SmallPowers(n / 2);
      k := SixteenPower(n / 2);
      k := 2 * k;
    }
  }

  /** No power of two lies between 8 and 16. */
  lemma SmallPowers(n: nat)
    requires PowerOfTwo(n) && n > 8
    ensures n >= 16
  {
    assert PowerOfTwo(n / 2) && n == 2 * (n / 2);
    assert PowerOfTwo(n / 2 / 2) && n / 2 == 2 * (n / 2 / 2);
    assert PowerOfTwo(n / 2 / 2 / 2) && n / 2 / 2 == 2 * (n / 2 / 2 / 2);
  }

  /** The tiling once the free chunk number `i` is taken. */
  lemma TilesTaken(ts: seq<Tile>, lo: nat, hi: nat, i: nat, need: nat, ptr: nat) returns (us: seq<Tile>)
    requires Sound(ts, lo, hi) && i < |FreeOf(ts)| && FreeOf(ts)[i].len >= need >= FREE_HEADER && need % PTR == 0
    requires FreeOf(ts)[i].addr + ALLOC_HEADER <= ptr <= FreeOf(ts)[i].addr + Taken(FreeOf(ts)[i].len, need)
    ensures Sound(us, lo, hi) && FreeOf(us) == Take(FreeOf(ts), i, need) && ptr !in HeadersOf(ts)
    ensures HeadersOf(us) == HeadersOf(ts)[ptr := Chunk(FreeOf(ts)[i].addr, Taken(FreeOf(ts)[i].len, need))]
  {
    hide FreeOf, HeadersOf, Sound, Remainder, TakenTiles, Taken;
    var k := FreeTileAt(ts, i);
    var a, t, b := ts[..k], ts[k], ts[k + 1..];
    assert ts == a + [t] + b;
    TakenSound(a, t, b, lo, hi, need, ptr);
    us := a + TakenTiles(t, need, ptr) + b;
    FreeOfThree(a, [t], b);
    OneFree(t);
    var f := Chunk(t.addr, t.len);
    assert (FreeOf(a) + [f] + FreeOf(b))[..i] == FreeOf(a) && (FreeOf(a) + [f] + FreeOf(b))[i + 1..] == FreeOf(b);
  }

  lemma LiveTile(ts: seq<Tile>, lo: nat, hi: nat, p: nat) returns (k: nat)
    requires Sound(ts, lo, hi) && p in HeadersOf(ts)
    ensures k < |ts| && ts[k].use == Live(p) && HeadersOf(ts)[p] == Chunk(ts[k].addr, ts[k].len)
    ensures lo <= ts[k].addr && ts[k].addr + ts[k].len <= hi && ts[k].addr + ALLOC_HEADER <= p <= ts[k].addr + ts[k].len
    ensures ts[k].len > 0
  {
    hide HeadersOf, Tiling;
    HeadersAre(ts, lo, hi);
    k :| 0 <= k < |ts| && ts[k].use == Live(p);
    TilingRange(ts, lo, hi);
    assert PtrInside(ts[k]);
  }

  lemma LiveOrdered(ts: seq<Tile>, lo: nat, hi: nat, p: nat, q: nat)
    requires Sound(ts, lo, hi) && p in HeadersOf(ts) && q in HeadersOf(ts) && p < q
    ensures End(HeadersOf(ts)[p]) <= HeadersOf(ts)[q].addr
  {
    hide HeadersOf, Tiling;
    var k := LiveTile(ts, lo, hi, p);
    var l := LiveTile(ts, lo, hi, q);
    if l < k {
      TilesOrdered(ts, lo, hi, l, k);
    } else {
      TilesOrdered(ts, lo, hi, k, l);
    }
  }

  lemma LiveApart(ts: seq<Tile>, lo: nat, hi: nat, p: nat, c: Chunk)
    requires Sound(ts, lo, hi) && p in HeadersOf(ts) && c in FreeOf(ts)
    ensures End(HeadersOf(ts)[p]) <= c.addr || End(c) <= HeadersOf(ts)[p].addr
  {
    hide HeadersOf, Tiling, FreeOf;
    var k := LiveTile(ts, lo, hi, p);
    var i :| 0 <= i < |FreeOf(ts)| && FreeOf(ts)[i] == c;
    var l := FreeTileAt(ts, i);
    if l < k {
      TilesOrdered(ts, lo, hi, l, k);
    } else {
      TilesOrdered(ts, lo, hi, k, l);
    }
  }

  /** The tiling once the block of pointer `p` is given back. */
  lemma TilesFreed(ts: seq<Tile>, lo: nat, hi: nat, p: nat) returns (us: seq<Tile>)
    requires Sound(ts, lo, hi) && p in HeadersOf(ts)
    ensures Sound(us, lo, hi) && FreeOf(us) == Insert(FreeOf(ts), HeadersOf(ts)[p])
    ensures HeadersOf(us) == HeadersOf(ts) - {p}
    ensures Coalesced(FreeOf(ts)) && Apart(FreeOf(ts), HeadersOf(ts)[p])
    ensures lo <= HeadersOf(ts)[p].addr && End(HeadersOf(ts)[p]) <= hi
  {
    hide FreeOf, HeadersOf, Insert, FreedTiles, Tiling, Coalesced;
    var k := LiveTile(ts, lo, hi, p);
    var a, t, b := ts[..k], ts[k], ts[k + 1..];
    assert ts == a + [t] + b;
    FreedSound(a, t, b, lo, hi);
    us := FreedTiles(a, t, b);
    FreeCoalesced(ts, lo, hi);
    forall i | 0 <= i < |FreeOf(ts)|
      ensures FreeOf(ts)[i].len > 0 && (End(FreeOf(ts)[i]) <= t.addr || t.addr + t.len <= FreeOf(ts)[i].addr)
    {
      LiveApart(ts, lo, hi, p, FreeOf(ts)[i]);
    }
  }

  lemma PositiveHeaders(ts: seq<Tile>, lo: nat, hi: nat)
    requires Sound(ts, lo, hi)
    ensures 0 !in HeadersOf(ts)
  {
    HeadersAre(ts, lo, hi);
  }

  lemma NothingLive(ts: seq<Tile>, lo: nat, hi: nat)
    requires Sound(ts, lo, hi) && HeadersOf(ts) == map[]
    ensures forall i | 0 <= i < |ts| :: ts[i].use.Free?
  {
    hide HeadersOf;
    HeadersAre(ts, lo, hi);
  }

  /** One zone of the heap. `sentinel` is the address at which the list head would be a chunk:
      a walk that falls off the list ends there. */
  class Zone {
    const base: nat
    const len: nat
    const sentinel: nat
    var free: seq<Chunk>
    var headers: map<nat, Chunk>
    ghost var tiles: seq<Tile>

    ghost predicate Valid()
      reads this
    {
      && Sound(tiles, base, base + len) && len > 0
      && free == FreeOf(tiles) && headers == HeadersOf(tiles)
      && !(base <= sentinel <= base + len)
    }

    /** heap_init for this zone: one free chunk. */
    constructor (base: nat, len: nat, sentinel: nat)
      requires base % PTR == 0 && len % PTR == 0 && len >= FREE_HEADER && !(base <= sentinel <= base + len)
      ensures Valid() && this.base == base && this.len == len
      ensures free == [Chunk(base, len)] && headers == map[]
    {
      this.base, this.len, this.sentinel := base, len, sentinel;
      free, headers := [], map[];
      new;
      tiles := [Tile(base, len, Free)];
      var at := InsertFreeChunk(Chunk(base, len));
      assert tiles[1..] == [];
      OneFree(tiles[0]);
      NoHeaders(tiles[0]);
    }

    /** heap_insert_free_chunk: the walk to the first chunk above, then the two merges. */
    method InsertFreeChunk(chunk: Chunk) returns (at: nat)
      requires Coalesced(free) && Apart(free, chunk) && End(chunk) != sentinel
      modifies this`free
      ensures free == Insert(old(free), chunk)
      ensures exists i | 0 <= i < |free| :: free[i].addr == at && at <= chunk.addr && End(chunk) <= End(free[i])
    {
      hide Insert, Coalesced, MergeFront, Apart;
      ghost var fs := free;
      var i := 0;
      while i < |free| && chunk.addr >= free[i].addr
        invariant free == fs && i <= |fs| && forall j | 0 <= j < i :: End(fs[j]) <= chunk.addr
      {
        BelowIt(free, chunk, i);
        i := i + 1;
      }
      var next := if i < |free| then free[i].addr else sentinel;
      free := free[..i] + [chunk] + free[i..];
      var k := i;
      if i > 0 && End(free[i - 1]) == free[i].addr {
        free := free[..i - 1] + [Chunk(free[i - 1].addr, free[i - 1].len + free[i].len)] + free[i + 1..];
        k := i - 1;
      }
      ghost var ws, m := Joined(fs, chunk, i, k, free);
      AtMiddle(ws, m, fs[i..]);
      if End(free[k]) == next {
        free := free[..k] + [Chunk(free[k].addr, free[k].len + free[k + 1].len)] + free[k + 2..];
      }
      at := free[k].addr;
      MergedNext(ws, m, fs[i..], free);
    }

    /** heap_alloc; 0 is NULL. The first chunk that is large enough serves the request: header
        and requested bytes fit into the part of it that is taken, at the boundary asked for. */
    method Alloc(size: nat, alignment: nat) returns (p: nat)
      requires Valid() && Need(size, alignment) <= SIZE_MAX
      modifies this
      ensures Valid()
      ensures forall n | Room(n, size, alignment) ::
                && (p == 0 <==> !AlignmentOk(alignment) || forall c | c in old(free) :: c.len < n)
                && (p != 0 ==> exists i :: Served(old(free), old(headers), free, headers, size, alignment, p, n, i))
      ensures p == 0 ==> free == old(free) && headers == old(headers)
    {
      hide Insert, FreeOf, HeadersOf, Tiling, Remainder, Served, PowerOfTwo, TakenTiles;
      p := 0;
      forall n | Room(n, size, alignment)
        ensures n == Need(size, alignment)
      {
        NeedIsRoom(n, size, alignment);
      }
      hide Room;
      if !AlignmentOk(alignment) {
        return;
      }
      var need := Need(size, alignment);
      NeedWords(size, alignment);
      var i := 0;
      while i < |free| && free[i].len < need
        invariant i <= |free| && forall j | 0 <= j < i :: free[j].len < need
      {
        i := i + 1;
      }
      FirstFitIs(free, need, i);
      if i == |free| {
        return;
      }
      var chunk := free[i];
      free := free[..i] + free[i + 1..];
      var taken := chunk.len;
      if chunk.len > need + FREE_HEADER {
        free := free[..i] + [Chunk(chunk.addr + need, chunk.len - need)] + free[i..];
        taken := need;
      }
      TakeIs(old(free), i, need, free);
      p := chunk.addr + ALLOC_HEADER;
      if alignment > 0 {
        p := RoundUp(p, Boundary(alignment));
        BoundaryServes(alignment, p);
      }
      headers := headers[p := Chunk(chunk.addr, taken)];
      tiles := TilesTaken(old(tiles), base, base + len, i, need, p);
      ServedBy(old(free), old(headers), free, headers, size, alignment, p, i);
    }

    /** heap_free: the block goes back to the free list and merges with its neighbours. */
    method Release(p: nat)
      requires Valid() && (p == 0 || p in headers)
      modifies this
      ensures Valid()
      ensures p == 0 ==> free == old(free) && headers == old(headers)
      ensures p != 0 ==> free == Insert(old(free), old(headers)[p]) && headers == old(headers) - {p}
    {
      hide Insert, FreeOf, HeadersOf, Tiling, Coalesced, Apart;
      if p == 0 {
        return;
      }
      var chunk := headers[p];
      ghost var new' := TilesFreed(tiles, base, base + len, p);
      var at := InsertFreeChunk(chunk);
      headers := headers - {p};
      tiles := new';
    }

    /** An allocation given straight back leaves the heap as it was. */
    method AllocRelease(size: nat, alignment: nat) returns (p: nat)
      requires Valid() && Need(size, alignment) <= SIZE_MAX
      modifies this
      ensures Valid() && free == old(free) && headers == old(headers)
    {
      hide Insert, FreeOf, HeadersOf, Tiling, Coalesced, Apart, Take;
      ghost var fs := free;
      SoundFree();
      ghost var hs := headers;
      p := Alloc(size, alignment);
      NeedIsRoom(Need(size, alignment), size, alignment);
      if p != 0 {
        ghost var i :| Served(fs, hs, free, headers, size, alignment, p, Need(size, alignment), i);
        ServedTakes(fs, hs, free, headers, size, alignment, p, i);
        TakeThenInsert(fs, Need(size, alignment));
      }
      Release(p);
    }

    /** Freeing all that is live, in any order, leaves the one chunk the heap began with. */
    method ReleaseAll(ps: seq<nat>)
      requires Valid() && (forall i, j | 0 <= i < j < |ps| :: ps[i] != ps[j]) && (set p | p in ps) == headers.Keys
      modifies this
      ensures Valid() && headers == map[] && free == [Chunk(base, len)]
    {
      hide Insert, FreeOf, HeadersOf, Tiling;
      var i := 0;
      while i < |ps|
        invariant i <= |ps| && Valid()
        invariant headers.Keys == set p | p in ps[i..]
      {
        assert ps[i] in ps[i..];
        PositiveHeaders(tiles, base, base + len);
        Release(ps[i]);
        assert ps[i..] == [ps[i]] + ps[i + 1..];
        i := i + 1;
      }
      assert ps[i..] == [];
      NothingLive(tiles, base, base + len);
      AllFreeIsOne(tiles, base, base + len);
    }

    /** The free list a sound heap has. */
    lemma SoundFree()
      requires Valid()
      ensures Coalesced(free) && forall i | 0 <= i < |free| :: free[i].len > 0
    {
      hide FreeOf, HeadersOf, Tiling, Coalesced;
      FreeCoalesced(tiles, base, base + len);
    }

    /** What holds of every reachable heap: the free list is ordered and coalesced, everything
        lies inside the heap, live blocks overlap neither each other nor free chunks, and free
        and live bytes make up the heap. */
    lemma Reachable()
      requires Valid()
      ensures Coalesced(free)
      ensures forall c | c in free :: base <= c.addr && End(c) <= base + len && c.len >= FREE_HEADER
      ensures forall p | p in headers :: base <= headers[p].addr && End(headers[p]) <= base + len
                                         && headers[p].addr + ALLOC_HEADER <= p <= End(headers[p])
      ensures forall p, q | p in headers && q in headers && p < q :: End(headers[p]) <= headers[q].addr
      ensures forall p, c | p in headers && c in free :: End(headers[p]) <= c.addr || End(c) <= headers[p].addr
      ensures Total(free) + Total(LiveOf(tiles)) == len
    {
      hide FreeOf, HeadersOf, Tiling, Coalesced, Total, LiveOf;
      Conserved(tiles, base, base + len);
      FreeCoalesced(tiles, base, base + len);
      forall c | c in free
        ensures base <= c.addr && End(c) <= base + len && c.len >= FREE_HEADER
      {
        var i :| 0 <= i < |free| && free[i] == c;
      }
      forall p | p in headers
        ensures base <= headers[p].addr && End(headers[p]) <= base + len
        ensures headers[p].addr + ALLOC_HEADER <= p <= End(headers[p])
      {
        var k := LiveTile(tiles, base, base + len, p);
      }
      forall p, q | p in headers && q in headers && p < q
        ensures End(headers[p]) <= headers[q].addr
      {
        LiveOrdered(tiles, base, base + len, p, q);
      }
      forall p, c | p in headers && c in free
        ensures End(headers[p]) <= c.addr || End(c) <= headers[p].addr
      {
        LiveApart(tiles, base, base + len, p, c);
      }
    }
  }
}
