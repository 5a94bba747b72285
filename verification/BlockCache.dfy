/** The write-back block cache over a device that is a plain array of blocks. */
module BlockCache {
  import opened Options
  import opened BigEndian

  type Block = seq<byte>

  /** struct bcache_block. `touched` says that a holder of a reference has written through its
      pointer to a block not marked dirty, and has not marked it since; `used` is when the block was last looked up. */
  datatype Slot = Slot(blocknum: nat, refs: int, dirty: bool, data: Block, touched: bool, used: nat)

  /** The cache's lists hold slot numbers; `now` counts lookups. */
  datatype Cache = Cache(size: nat, dev: seq<Block>, slots: seq<Slot>, free: seq<nat>, lru: seq<nat>, now: nat)

  predicate Distinct(q: seq<nat>) {
    forall i, j | 0 <= i < j < |q| :: q[i] != q[j]
  }

  predicate InRange(q: seq<nat>, n: nat) {
    forall i | 0 <= i < |q| :: q[i] < n
  }

  /** No slot is in a list twice, or in both. */
  predicate Listed(c: Cache) {
    && Distinct(c.free) && Distinct(c.lru)
    && InRange(c.free, |c.slots|) && InRange(c.lru, |c.slots|) && forall s | s in c.free :: s !in c.lru
  }

  /** No block number is cached twice, each is a block of the device, and a slot that is
      neither dirty nor touched holds what the device holds. */
  predicate Contents(c: Cache)
    requires Listed(c)
  {
    && (forall b | b in c.dev :: |b| == c.size)
    && (forall s | s in c.lru ::
          && c.slots[s].blocknum < |c.dev| && |c.slots[s].data| == c.size && c.slots[s].refs >= 0
          && (c.slots[s].touched ==> c.slots[s].refs > 0)
          && (!c.slots[s].dirty && !c.slots[s].touched ==> c.slots[s].data == c.dev[c.slots[s].blocknum]))
    && (forall s, t | s in c.lru && t in c.lru && s != t :: c.slots[s].blocknum != c.slots[t].blocknum)
    && (forall s | s in c.free :: c.slots[s].refs == 0 && !c.slots[s].touched && !c.slots[s].dirty)
  }

  /** The LRU list is in the order of last use. */
  predicate InUseOrder(c: Cache)
    requires Listed(c)
  {
    && (forall i, j | 0 <= i < j < |c.lru| :: c.slots[c.lru[i]].used < c.slots[c.lru[j]].used)
    && forall s | s in c.lru :: c.slots[s].used < c.now
  }

  predicate CInv(c: Cache) {
    Listed(c) && Contents(c) && InUseOrder(c)
  }

  /** Position in the LRU list of the slot that caches `b`, or its length. */
  function Find(c: Cache, b: nat): (i: nat)
    requires Listed(c)
    ensures i <= |c.lru| && (i < |c.lru| ==> c.slots[c.lru[i]].blocknum == b)
    ensures forall j | 0 <= j < i :: c.slots[c.lru[j]].blocknum != b
  {
    FindFrom(c, b, 0)
  }

  function FindFrom(c: Cache, b: nat, k: nat): (i: nat)
    requires Listed(c) && k <= |c.lru|
    ensures k <= i <= |c.lru| && (i < |c.lru| ==> c.slots[c.lru[i]].blocknum == b)
    ensures forall j | k <= j < i :: c.slots[c.lru[j]].blocknum != b
    decreases |c.lru| - k
  {
    if k == |c.lru| || c.slots[c.lru[k]].blocknum == b then k else FindFrom(c, b, k + 1)
  }

  predicate Cached(c: Cache, b: nat)
    requires Listed(c)
  {
    Find(c, b) < |c.lru|
  }

  /** What a client of the cache sees: the plain block array it stands for. */
  function Logical(c: Cache): (l: seq<Block>)
    requires CInv(c)
    ensures |l| == |c.dev|
  {
    seq(|c.dev|, b requires 0 <= b < |c.dev| => if Cached(c, b) then c.slots[c.lru[Find(c, b)]].data else c.dev[b])
  }

  /** The logical block of a cached number is its slot's data. */
  lemma CachedData(c: Cache, s: nat)
    requires CInv(c) && s in c.lru
    ensures Cached(c, c.slots[s].blocknum) && c.lru[Find(c, c.slots[s].blocknum)] == s
    ensures Logical(c)[c.slots[s].blocknum] == c.slots[s].data
  {
    var b := c.slots[s].blocknum;
    var i := Find(c, b);
    var j :| 0 <= j < |c.lru| && c.lru[j] == s;
    assert i <= j;
    assert c.lru[i] in c.lru;
  }

  /** Two caches that agree on their slots and on what is uncached mean the same. */
  lemma SameLogical(c: Cache, e: Cache)
    requires CInv(c) && CInv(e) && |e.dev| == |c.dev|
    requires forall s :: s in e.lru <==> s in c.lru
    requires forall s | s in c.lru :: e.slots[s].blocknum == c.slots[s].blocknum && e.slots[s].data == c.slots[s].data
    requires forall b | 0 <= b < |c.dev| && !Cached(c, b) :: e.dev[b] == c.dev[b]
    ensures Logical(e) == Logical(c)
  {
    forall b | 0 <= b < |c.dev|
      ensures Logical(e)[b] == Logical(c)[b]
    {
      if Cached(c, b) {
        var s := c.lru[Find(c, b)];
        CachedData(c, s);
        CachedData(e, s);
      } else if Cached(e, b) {
        var s := e.lru[Find(e, b)];
        CachedData(c, s);
      }
    }
  }

  // ---- looking up ----

  /** A slot moves to the tail of the LRU list. */
  function Touch(c: Cache, i: nat): Cache
    requires Listed(c) && i < |c.lru|
  {
    var s := c.lru[i];
    c.(lru := c.lru[..i] + c.lru[i + 1..] + [s], slots := c.slots[s := c.slots[s].(used := c.now)], now := c.now + 1)
  }

  lemma MovedList(q: seq<nat>, i: nat)
    requires Distinct(q) && i < |q|
    ensures var r := q[..i] + q[i + 1..] + [q[i]];
            && Distinct(r) && |r| == |q| && (forall u :: u in r <==> u in q)
            && (forall j | 0 <= j < |r| :: r[j] == if j < i then q[j] else if j < |q| - 1 then q[j + 1] else q[i])
  {
    var r := q[..i] + q[i + 1..] + [q[i]];
    assert forall j | 0 <= j < |r| :: r[j] == if j < i then q[j] else if j < |q| - 1 then q[j + 1] else q[i];
    forall u | u in q
      ensures u in r
    {
      var k :| 0 <= k < |q| && q[k] == u;
      assert u == r[if k < i then k else if k == i then |q| - 1 else k - 1];
    }
  }

  lemma TouchListed(c: Cache, i: nat)
    requires CInv(c) && i < |c.lru|
    ensures Listed(Touch(c, i)) && Contents(Touch(c, i))
    ensures forall u :: u in Touch(c, i).lru <==> u in c.lru
  {
    hide InUseOrder;
    MovedList(c.lru, i);
    assert c.lru[i] in c.lru;
    hide Distinct;
    var e := Touch(c, i);
    assert InRange(e.lru, |e.slots|) by {
      assert forall j | 0 <= j < |e.lru| :: e.lru[j] in c.lru;
    }
  }

  /** A lookup changes the order of use and nothing a client sees. */
  lemma TouchKeeps(c: Cache, i: nat)
    requires CInv(c) && i < |c.lru|
    ensures CInv(Touch(c, i)) && Logical(Touch(c, i)) == Logical(c)
    ensures forall u :: u in Touch(c, i).lru <==> u in c.lru
  {
    TouchListed(c, i);
    TouchOrder(c, i);
    hide Distinct, InRange, InUseOrder;
    assert c.lru[i] in c.lru;
    SameLogical(c, Touch(c, i));
  }

  /** When the slot at position `j` was last used, after the lookup. */
  lemma UsedAfter(c: Cache, i: nat, j: nat)
    requires Listed(c) && i < |c.lru| && Listed(Touch(c, i)) && j < |c.lru|
    ensures |Touch(c, i).lru| == |c.lru|
    ensures var e := Touch(c, i);
            e.slots[e.lru[j]].used == if j < i then c.slots[c.lru[j]].used
                                      else if j < |c.lru| - 1 then c.slots[c.lru[j + 1]].used else c.now
  {
    var q := c.lru;
    MovedList(q, i);
    assert forall k | 0 <= k < |q| && k != i :: q[k] != q[i];
  }

  lemma TouchOrder(c: Cache, i: nat)
    requires CInv(c) && i < |c.lru| && Listed(Touch(c, i)) && forall u | u in Touch(c, i).lru :: u in c.lru
    ensures InUseOrder(Touch(c, i))
  {
    hide Contents, Distinct, Touch;
    var e := Touch(c, i);
    UsedAfter(c, i, i);
    TouchClock(c, i);
    assert forall k | 0 <= k < |c.lru| :: c.lru[k] in c.lru;
    forall j, k | 0 <= j < k < |e.lru|
      ensures e.slots[e.lru[j]].used < e.slots[e.lru[k]].used
    {
      UsedAfter(c, i, j);
      UsedAfter(c, i, k);
    }
    forall s | s in e.lru
      ensures e.slots[s].used < e.now
    {
      var j :| 0 <= j < |e.lru| && e.lru[j] == s;
      UsedAfter(c, i, j);
    }
  }

  lemma TouchClock(c: Cache, i: nat)
    requires Listed(c) && i < |c.lru|
    ensures Touch(c, i).now == c.now + 1
  {
  }

  // ---- eviction ----

  /** The victim: the first slot in the LRU list that nobody references. */
  function Victim(c: Cache): (i: nat)
    requires Listed(c)
    ensures i <= |c.lru| && (i < |c.lru| ==> c.slots[c.lru[i]].refs == 0)
    ensures forall j | 0 <= j < i :: c.slots[c.lru[j]].refs != 0
  {
    VictimFrom(c, 0)
  }

  function VictimFrom(c: Cache, k: nat): (i: nat)
    requires Listed(c) && k <= |c.lru|
    ensures k <= i <= |c.lru| && (i < |c.lru| ==> c.slots[c.lru[i]].refs == 0)
    ensures forall j | k <= j < i :: c.slots[c.lru[j]].refs != 0
    decreases |c.lru| - k
  {
    if k == |c.lru| || c.slots[c.lru[k]].refs == 0 then k else VictimFrom(c, k + 1)
  }

  /** It is the least recently used of all unreferenced slots. */
  lemma VictimIsOldest(c: Cache, s: nat)
    requires CInv(c) && s in c.lru && c.slots[s].refs == 0
    ensures Victim(c) < |c.lru| && c.slots[c.lru[Victim(c)]].used <= c.slots[s].used
  {
    var j :| 0 <= j < |c.lru| && c.lru[j] == s;
    assert Victim(c) <= j;
  }

  /** flush_block: the device takes the slot's data. */
  function Flushed(c: Cache, s: nat): Cache
    requires s < |c.slots| && c.slots[s].blocknum < |c.dev|
  {
    c.(dev := c.dev[c.slots[s].blocknum := c.slots[s].data],
      slots := c.slots[s := c.slots[s].(dirty := false, touched := false)])
  }

  lemma FlushKeeps(c: Cache, s: nat)
    requires CInv(c) && s in c.lru
    ensures CInv(Flushed(c, s)) && Logical(Flushed(c, s)) == Logical(c)
  {
    var e := Flushed(c, s);
    FlushedInv(c, s);
    CachedData(c, s);
    hide Distinct, InRange, InUseOrder;
    assert forall b | 0 <= b < |c.dev| && !Cached(c, b) :: e.dev[b] == c.dev[b];
    SameLogical(c, e);
  }

  lemma FlushedInv(c: Cache, s: nat)
    requires CInv(c) && s in c.lru
    ensures CInv(Flushed(c, s))
  {
    hide Distinct;
    var e := Flushed(c, s);
    assert forall b | b in e.dev :: b in c.dev || b == c.slots[s].data;
  }

  /** The slot found for a block number not cached: from the free list, or the victim, written
      back first when dirty. None when every slot is referenced. */
  function Allocated(c: Cache): (Cache, Option<nat>)
    requires CInv(c)
  {
    if c.free != [] then
      var s := c.free[0];
      (c.(free := c.free[1..], lru := c.lru + [s], slots := c.slots[s := c.slots[s].(refs := 0, used := c.now)],
        now := c.now + 1), Some(s))
    else
      var i := Victim(c);
      if i == |c.lru| then (c, None)
      else
        var s := c.lru[i];
        assert s in c.lru;
        (Touch(if c.slots[s].dirty then Flushed(c, s) else c, i), Some(s))
  }

  /** A slot takes over a block number, with the given data. */
  function Taken(c: Cache, s: nat, b: nat, data: Block, dirty: bool): Cache
    requires s < |c.slots|
  {
    c.(slots := c.slots[s := c.slots[s].(blocknum := b, data := data, dirty := dirty, touched := false)])
  }

  lemma NotCached(c: Cache, b: nat)
    requires Listed(c) && !Cached(c, b)
    ensures forall t | t in c.lru :: c.slots[t].blocknum != b
  {
    forall t | t in c.lru
      ensures c.slots[t].blocknum != b
    {
      var i :| 0 <= i < |c.lru| && c.lru[i] == t;
    }
  }

  lemma SlotOf(c: Cache, b: nat) returns (t: nat)
    requires Listed(c) && Cached(c, b)
    ensures t in c.lru && c.slots[t].blocknum == b
  {
    t := c.lru[Find(c, b)];
  }

  /** A slot that is ready to be reassigned: in the LRU list, free of references and
      modifications, and everything else of the invariant in order. */
  predicate Spare(c: Cache, s: nat) {
    Listed(c) && s in c.lru && c.slots[s].refs == 0 && !c.slots[s].dirty && !c.slots[s].touched
  }

  /** What reassigning a slot does to a client's view of block `a`. */
  lemma TakenAt(c: Cache, s: nat, b: nat, data: Block, dirty: bool, a: nat)
    requires CInv(c) && Spare(c, s) && CInv(Taken(c, s, b, data, dirty)) && !Cached(c, b) && a < |c.dev| && b < |c.dev|
    ensures Logical(Taken(c, s, b, data, dirty))[a] == if a == b then data else Logical(c)[a]
  {
    hide Distinct, InUseOrder;
    var e := Taken(c, s, b, data, dirty);
    CachedData(e, s);
    CachedData(c, s);
    NotCached(c, b);
    if a != b {
      if Cached(e, a) {
        var t := SlotOf(e, a);
        CachedData(c, t);
        CachedData(e, t);
      } else if Cached(c, a) {
        var t := SlotOf(c, a);
        CachedData(c, t);
        if t != s {
          CachedData(e, t);
        }
      }
    }
  }

  /** Reassigning an unreferenced, unmodified slot to a number not cached: what it held is on
      the device, so nothing a client sees is lost, and the new number reads as `data`. */
  lemma TakenLogical(c: Cache, s: nat, b: nat, data: Block, dirty: bool)
    requires CInv(c) && Spare(c, s) && !Cached(c, b) && b < |c.dev| && |data| == c.size
    requires dirty || data == c.dev[b]
    ensures CInv(Taken(c, s, b, data, dirty)) && Logical(Taken(c, s, b, data, dirty)) == Logical(c)[b := data]
  {
    TakenInv(c, s, b, data, dirty);
    hide CInv, Taken, Logical;
    TakenSize(c, s, b, data, dirty);
    forall a | 0 <= a < |c.dev|
      ensures Logical(Taken(c, s, b, data, dirty))[a] == Logical(c)[b := data][a]
    {
      TakenAt(c, s, b, data, dirty, a);
    }
  }

  lemma TakenSize(c: Cache, s: nat, b: nat, data: Block, dirty: bool)
    requires s < |c.slots|
    ensures |Taken(c, s, b, data, dirty).dev| == |c.dev|
  {
  }

  lemma TakenInv(c: Cache, s: nat, b: nat, data: Block, dirty: bool)
    requires CInv(c) && Spare(c, s) && !Cached(c, b) && b < |c.dev| && |data| == c.size
    requires dirty || data == c.dev[b]
    ensures CInv(Taken(c, s, b, data, dirty))
  {
    hide Distinct;
    NotCached(c, b);
  }

  /** A slot from the free list taking a block number. */
  function Filled(c: Cache, b: nat, data: Block, dirty: bool): Cache
    requires CInv(c) && c.free != []
  {
    var s := c.free[0];
    c.(free := c.free[1..], lru := c.lru + [s], slots := c.slots[s := Slot(b, 0, dirty, data, false, c.now)],
      now := c.now + 1)
  }

  lemma FilledListed(c: Cache, b: nat, data: Block, dirty: bool)
    requires CInv(c) && c.free != []
    ensures Listed(Filled(c, b, data, dirty)) && c.free[0] !in c.lru && c.free[0] < |c.slots|
    ensures forall u :: u in Filled(c, b, data, dirty).lru <==> u in c.lru || u == c.free[0]
    ensures forall u :: u in Filled(c, b, data, dirty).free <==> u in c.free && u != c.free[0]
  {
    hide Contents, InUseOrder;
    var s := c.free[0];
    assert s in c.free;
    FreeTail(c.free);
  }

  lemma FreeTail(q: seq<nat>)
    requires Distinct(q) && q != []
    ensures Distinct(q[1..]) && forall u :: u in q[1..] <==> u in q && u != q[0]
  {
    forall u | u in q && u != q[0]
      ensures u in q[1..]
    {
      var i :| 0 <= i < |q| && q[i] == u;
      assert q[1..][i - 1] == u;
    }
  }

  lemma FilledContents(c: Cache, b: nat, data: Block, dirty: bool)
    requires CInv(c) && c.free != [] && !Cached(c, b) && b < |c.dev| && |data| == c.size && (dirty || data == c.dev[b])
    requires Listed(Filled(c, b, data, dirty)) && c.free[0] !in c.lru && c.free[0] < |c.slots|
    requires forall u :: u in Filled(c, b, data, dirty).lru <==> u in c.lru || u == c.free[0]
    requires forall u :: u in Filled(c, b, data, dirty).free <==> u in c.free && u != c.free[0]
    ensures Contents(Filled(c, b, data, dirty))
  {
    hide InUseOrder, Distinct;
    NotCached(c, b);
  }

  lemma FilledOrder(c: Cache, b: nat, data: Block, dirty: bool)
    requires CInv(c) && c.free != [] && Listed(Filled(c, b, data, dirty)) && c.free[0] !in c.lru
    requires c.free[0] < |c.slots|
    ensures InUseOrder(Filled(c, b, data, dirty))
  {
    hide Contents, Distinct;
    var e, s := Filled(c, b, data, dirty), c.free[0];
    assert forall i | 0 <= i < |c.lru| :: c.lru[i] in c.lru && e.slots[c.lru[i]] == c.slots[c.lru[i]];
    assert forall i | 0 <= i < |e.lru| :: e.lru[i] == if i < |c.lru| then c.lru[i] else s;
    assert forall t | t in e.lru :: t in c.lru || t == s;
  }

  lemma FilledInv(c: Cache, b: nat, data: Block, dirty: bool)
    requires CInv(c) && c.free != [] && !Cached(c, b) && b < |c.dev| && |data| == c.size && (dirty || data == c.dev[b])
    ensures CInv(Filled(c, b, data, dirty))
  {
    hide Contents, InUseOrder, Listed;
    FilledListed(c, b, data, dirty);
    FilledContents(c, b, data, dirty);
    FilledOrder(c, b, data, dirty);
  }

  lemma FilledAt(c: Cache, b: nat, data: Block, dirty: bool, a: nat)
    requires CInv(c) && c.free != [] && !Cached(c, b) && CInv(Filled(c, b, data, dirty)) && a < |c.dev| && b < |c.dev|
    requires c.free[0] !in c.lru && c.free[0] < |c.slots|
    requires forall u :: u in Filled(c, b, data, dirty).lru <==> u in c.lru || u == c.free[0]
    ensures Logical(Filled(c, b, data, dirty))[a] == if a == b then data else Logical(c)[a]
  {
    hide Distinct, InUseOrder, Contents;
    var e := Filled(c, b, data, dirty);
    CachedData(e, c.free[0]);
    if a != b {
      if Cached(c, a) {
        var t := SlotOf(c, a);
        CachedData(c, t);
        CachedData(e, t);
      } else {
        FilledUncached(c, e, c.free[0], a);
      }
    }
  }

  lemma FilledUncached(c: Cache, e: Cache, s: nat, a: nat)
    requires Listed(c) && Listed(e) && !Cached(c, a) && s < |e.slots| && e.slots[s].blocknum != a
    requires |e.slots| == |c.slots|
    requires forall u :: u in e.lru <==> u in c.lru || u == s
    requires forall u | u in c.lru :: e.slots[u].blocknum == c.slots[u].blocknum
    ensures !Cached(e, a)
  {
    hide Distinct;
    NotCached(c, a);
    if Cached(e, a) {
      var t := SlotOf(e, a);
    }
  }

  lemma FilledLogical(c: Cache, b: nat, data: Block, dirty: bool)
    requires CInv(c) && c.free != [] && !Cached(c, b) && b < |c.dev| && |data| == c.size && (dirty || data == c.dev[b])
    ensures CInv(Filled(c, b, data, dirty)) && Logical(Filled(c, b, data, dirty)) == Logical(c)[b := data]
  {
    FilledInv(c, b, data, dirty);
    FilledListed(c, b, data, dirty);
    hide CInv, Logical, Listed;
    forall a | 0 <= a < |c.dev|
      ensures Logical(Filled(c, b, data, dirty))[a] == Logical(c)[b := data][a]
    {
      FilledAt(c, b, data, dirty, a);
    }
  }

  /** The cache once the block number `b`, not cached before, has been given a slot with `data`. */
  function Assigned(c: Cache, b: nat, data: Block, dirty: bool): (Cache, Option<nat>)
    requires CInv(c)
  {
    if c.free != [] then (Filled(c, b, data, dirty), Some(c.free[0]))
    else
      var (d, r) := Allocated(c);
      match r
      case None => (c, None)
      case Some(s) => if s < |d.slots| then (Taken(d, s, b, data, dirty), Some(s)) else (c, None)
  }

  /** Some slot can be had: a free one or an unreferenced one. */
  predicate HasRoom(c: Cache)
    requires Listed(c)
  {
    c.free != [] || Victim(c) < |c.lru|
  }

  /** References on the slot of block `b`. */
  function RefsOf(c: Cache, b: nat): int
    requires CInv(c)
  {
    if Cached(c, b) && c.lru[Find(c, b)] < |c.slots| then c.slots[c.lru[Find(c, b)]].refs else 0
  }

  /** Slot `s` with `n` more references, and slot `s` marked dirty. */
  function Recounted(c: Cache, s: nat, n: int): Cache
    requires s < |c.slots|
  {
    c.(slots := c.slots[s := c.slots[s].(refs := c.slots[s].refs + n)])
  }

  function Marked(c: Cache, s: nat): Cache
    requires s < |c.slots|
  {
    c.(slots := c.slots[s := c.slots[s].(dirty := true, touched := false)])
  }

  /** The referenced slots other than `s` are left alone. */
  ghost predicate OthersKept(c: Cache, e: Cache, s: nat)
    requires Listed(c)
  {
    forall t | t in c.lru && c.slots[t].refs > 0 && t != s ::
      t in e.lru && t < |e.slots| && e.slots[t].(used := c.slots[t].used) == c.slots[t]
  }

  /** The referenced slots of blocks other than `b` are left alone. */
  ghost predicate HeldKept(c: Cache, e: Cache, b: nat)
    requires Listed(c)
  {
    forall t | t in c.lru && c.slots[t].refs > 0 && c.slots[t].blocknum != b ::
      t in e.lru && t < |e.slots| && e.slots[t].(used := c.slots[t].used) == c.slots[t]
  }

  /** A slot somebody references keeps its number, its data and its references. */
  ghost predicate RefsKept(c: Cache, e: Cache)
    requires Listed(c)
  {
    forall s | s in c.lru && c.slots[s].refs > 0 ::
      s in e.lru && s < |e.slots| && e.slots[s].(used := c.slots[s].used) == c.slots[s]
  }

  /** No slot has been written through a pointer that was not before. */
  ghost predicate NoneTouched(c: Cache, e: Cache)
    requires Listed(c)
  {
    forall t | t in e.lru && t < |e.slots| && e.slots[t].touched :: t in c.lru && c.slots[t].touched
  }

  lemma FlushRefs(c: Cache, s: nat)
    requires CInv(c) && s in c.lru && c.slots[s].refs == 0
    ensures RefsKept(c, Flushed(c, s)) && NoneTouched(c, Flushed(c, s))
  {
    hide Distinct, InUseOrder;
  }

  lemma TouchRefs(c: Cache, e: Cache, i: nat)
    requires CInv(c) && CInv(e) && RefsKept(c, e) && NoneTouched(c, e) && i < |e.lru|
    ensures RefsKept(c, Touch(e, i)) && NoneTouched(c, Touch(e, i))
  {
    MovedList(e.lru, i);
    hide Distinct, InUseOrder, Contents;
    assert e.lru[i] in e.lru;
  }

  lemma VictimFacts(c: Cache, b: nat)
    requires CInv(c) && Victim(c) < |c.lru| && !Cached(c, b)
    ensures var s := c.lru[Victim(c)];
            s in c.lru && s < |c.slots| && c.slots[s].refs == 0 && !c.slots[s].touched && c.slots[s].blocknum != b
              && c.slots[s].blocknum < |c.dev|
  {
    hide Distinct, InUseOrder;
    assert c.lru[Victim(c)] in c.lru;
    NotCached(c, b);
  }

  lemma SameNumbers(c: Cache, d: Cache, b: nat)
    requires Listed(c) && Listed(d) && !Cached(c, b) && (forall u :: u in d.lru <==> u in c.lru)
    requires forall u | u in c.lru :: d.slots[u].blocknum == c.slots[u].blocknum
    ensures !Cached(d, b)
  {
    hide Distinct;
    NotCached(c, b);
    if Cached(d, b) {
      var t := SlotOf(d, b);
    }
  }

  /** The state just before the victim is reassigned. */
  ghost predicate Readied(c: Cache, d: Cache, b: nat, s: nat)
    requires CInv(c) && b < |c.dev|
  {
    && CInv(d) && Spare(d, s) && Logical(d) == Logical(c) && !Cached(d, b)
    && |d.dev| == |c.dev| && d.size == c.size && d.dev[b] == c.dev[b] && RefsKept(c, d) && NoneTouched(c, d)
  }

  lemma CleanReady(c: Cache, b: nat)
    requires CInv(c) && Victim(c) < |c.lru| && !Cached(c, b) && b < |c.dev|
    ensures c.lru[Victim(c)] < |c.slots|
    ensures var s := c.lru[Victim(c)]; !c.slots[s].dirty ==> Readied(c, Touch(c, Victim(c)), b, s)
  {
    VictimFacts(c, b);
    var i := Victim(c);
    TouchKeeps(c, i);
    assert RefsKept(c, c) && NoneTouched(c, c);
    TouchRefs(c, c, i);
    hide Distinct, InUseOrder, Contents, Logical, RefsKept, InRange, Victim;
    SameNumbers(c, Touch(c, i), b);
  }

  lemma DirtyReady(c: Cache, b: nat)
    requires CInv(c) && Victim(c) < |c.lru| && !Cached(c, b) && b < |c.dev|
    ensures var s := c.lru[Victim(c)];
            && s < |c.slots| && c.slots[s].blocknum < |c.dev|
            && Readied(c, Touch(Flushed(c, s), Victim(c)), b, s)
  {
    VictimFacts(c, b);
    var i, s := Victim(c), c.lru[Victim(c)];
    var f := Flushed(c, s);
    FlushKeeps(c, s);
    FlushRefs(c, s);
    TouchKeeps(f, i);
    TouchRefs(c, f, i);
    hide Distinct, InUseOrder, Contents, Logical, RefsKept, InRange, Victim;
    SameNumbers(c, Touch(f, i), b);
  }

  lemma VictimReady(c: Cache, b: nat)
    requires CInv(c) && c.free == [] && Victim(c) < |c.lru| && !Cached(c, b) && b < |c.dev|
    ensures var (d, r) := Allocated(c); r == Some(c.lru[Victim(c)]) && Readied(c, d, b, r.value)
  {
    hide Readied, Touch, Flushed, Victim, CInv;
    CleanReady(c, b);
    DirtyReady(c, b);
  }

  /** What assigning a slot promises. */
  ghost predicate AssignedOk(c: Cache, e: Cache, r: Option<nat>, b: nat, data: Block)
    requires CInv(c) && b < |c.dev|
  {
    && r.Some? && CInv(e) && r.value in e.lru && e.slots[r.value].blocknum == b
    && Logical(e) == Logical(c)[b := data] && RefsKept(c, e) && |e.dev| == |c.dev| && e.size == c.size
    && e.slots[r.value].refs == 0 && NoneTouched(c, e)
  }

  lemma FilledOk(c: Cache, b: nat, data: Block, dirty: bool)
    requires CInv(c) && c.free != [] && !Cached(c, b) && b < |c.dev| && |data| == c.size && (dirty || data == c.dev[b])
    ensures AssignedOk(c, Filled(c, b, data, dirty), Some(c.free[0]), b, data)
  {
    FilledLogical(c, b, data, dirty);
    FilledListed(c, b, data, dirty);
    hide CInv, Logical, Listed;
  }

  lemma ReadiedOk(c: Cache, d: Cache, s: nat, b: nat, data: Block, dirty: bool)
    requires CInv(c) && b < |c.dev| && Readied(c, d, b, s) && |data| == c.size && (dirty || data == c.dev[b])
    ensures s < |d.slots| && AssignedOk(c, Taken(d, s, b, data, dirty), Some(s), b, data)
  {
    TakenLogical(d, s, b, data, dirty);
    TakenRefs(c, d, s, b, data, dirty);
    hide Distinct, InUseOrder, Contents, Logical, RefsKept;
  }

  /** Giving a number a slot changes the client's view of that number alone, and no
      referenced block. */
  lemma AssignedKeeps(c: Cache, b: nat, data: Block, dirty: bool)
    requires CInv(c) && HasRoom(c) && !Cached(c, b) && b < |c.dev| && |data| == c.size && (dirty || data == c.dev[b])
    ensures var (e, r) := Assigned(c, b, data, dirty); AssignedOk(c, e, r, b, data)
  {
    hide AssignedOk, Filled, Allocated, Readied, Taken, Victim;
    if c.free != [] {
      FilledOk(c, b, data, dirty);
    } else {
      VictimReady(c, b);
      var (d, r) := Allocated(c);
      ReadiedOk(c, d, r.value, b, data, dirty);
    }
  }

  lemma TakenRefs(c: Cache, d: Cache, s: nat, b: nat, data: Block, dirty: bool)
    requires Listed(c) && RefsKept(c, d) && NoneTouched(c, d) && Spare(d, s)
    ensures RefsKept(c, Taken(d, s, b, data, dirty)) && NoneTouched(c, Taken(d, s, b, data, dirty))
  {
  }

  // ---- the cache as the code updates it ----

  class Bcache {
    const size: nat
    var dev: seq<Block>
    var slots: seq<Slot>
    var free: seq<nat>
    var lru: seq<nat>
    var now: nat

    function C(): Cache
      reads this
    {
      Cache(size, dev, slots, free, lru, now)
    }

    /** bcache_create: all slots free. */
    constructor (size: nat, dev: seq<Block>, count: nat)
      requires forall b | b in dev :: |b| == size
      ensures CInv(C()) && this.size == size && this.dev == dev && Logical(C()) == dev && |slots| == count
    {
      this.size, this.dev, lru, now := size, dev, [], 0;
      slots := seq(count, _ => Slot(0, 0, false, [], false, 0));
      free := seq(count, i => i);
    }

    /** flush_block */
    method FlushBlock(s: nat)
      requires s < |slots| && slots[s].blocknum < |dev|
      modifies this`dev, this`slots
      ensures C() == Flushed(old(C()), s)
    {
      dev := dev[slots[s].blocknum := slots[s].data];
      slots := slots[s := slots[s].(dirty := false, touched := false)];
    }

    /** find_block: a hit moves to the tail of the LRU list. */
    method FindBlock(b: nat) returns (r: Option<nat>)
      requires CInv(C())
      modifies this`lru, this`slots, this`now
      ensures CInv(old(C())) && C() == (if Cached(old(C()), b) then Touch(old(C()), Find(old(C()), b)) else old(C()))
      ensures r == if Cached(old(C()), b) then Some(old(lru)[Find(old(C()), b)]) else None
      ensures CInv(C()) && Logical(C()) == Logical(old(C()))
    {
      hide Distinct, Contents, InUseOrder, Logical;
      ghost var c := C();
      var i := 0;
      while i < |lru|
        invariant i <= |lru| && C() == c && FindFrom(c, b, 0) == FindFrom(c, b, i)
      {
        var s := lru[i];
        if slots[s].blocknum == b {
          TouchKeeps(c, i);
          lru := lru[..i] + lru[i + 1..] + [s];
          slots := slots[s := slots[s].(used := now)];
          now := now + 1;
          return Some(s);
        }
        i := i + 1;
      }
      return None;
    }

    /** alloc_block */
    method AllocBlock() returns (r: Option<nat>)
      requires CInv(C())
      modifies this
      ensures CInv(old(C())) && (C(), r) == Allocated(old(C()))
    {
      hide Distinct, Contents, InUseOrder, Logical;
      ghost var c := C();
      if free != [] {
        var s := free[0];
        free := free[1..];
        slots := slots[s := slots[s].(refs := 0, used := now)];
        lru := lru + [s];
        now := now + 1;
        return Some(s);
      }
      var i := 0;
      while i < |lru|
        invariant i <= |lru| && C() == c && VictimFrom(c, 0) == VictimFrom(c, i)
      {
        var s := lru[i];
        if slots[s].refs == 0 {
          SlotFits(c, s);
          if slots[s].dirty {
            FlushBlock(s);
          }
          lru := lru[..i] + lru[i + 1..] + [s];
          slots := slots[s := slots[s].(used := now)];
          now := now + 1;
          return Some(s);
        }
        i := i + 1;
      }
      return None;
    }

    lemma SlotFits(c: Cache, s: nat)
      requires CInv(c) && s in c.lru
      ensures s < |c.slots| && c.slots[s].blocknum < |c.dev| && |c.slots[s].data| == c.size
    {
      hide Distinct, InUseOrder;
    }

    /** alloc_block and what its caller then stores in the slot. */
    method AssignBlock(b: nat, zero: bool) returns (r: Option<nat>)
      requires CInv(C()) && !Cached(C(), b) && b < |dev|
      modifies this
      ensures CInv(old(C())) && (old(HasRoom(C())) <==> r.Some?)
      ensures r == None ==> C() == old(C())
      ensures r.Some? ==> AssignedOk(old(C()), C(), r, b, if zero then seq(size, _ => 0) else old(dev)[b])
      ensures r.Some? ==> r.value < |slots| && slots[r.value].dirty == zero
    {
      hide Distinct, Contents, InUseOrder, Logical, AssignedOk;
      ghost var c := C();
      ghost var data := if zero then seq(size, _ => 0) else dev[b];
      BlockSize(c, b);
      if HasRoom(c) {
        AssignedKeeps(c, b, data, zero);
      }
      AllocatedFacts(c, b);
      r := AllocBlock();
      if r == None {
        return;
      }
      var s := r.value;
      ghost var d := C();
      slots := slots[s := slots[s].(blocknum := b)];
      if zero {
        slots := slots[s := slots[s].(data := seq(size, _ => 0), dirty := true)];
      } else {
        slots := slots[s := slots[s].(data := dev[b])];
      }
      AssignedIs(c, b, data, zero);
      assert slots == Taken(d, s, b, data, zero).slots;
    }

    lemma BlockSize(c: Cache, b: nat)
      requires CInv(c) && b < |c.dev|
      ensures |c.dev[b]| == c.size
    {
      hide Distinct, InUseOrder;
      assert c.dev[b] in c.dev;
    }

    lemma AllocatedFacts(c: Cache, b: nat)
      requires CInv(c) && !Cached(c, b) && b < |c.dev|
      ensures var (d, r) := Allocated(c);
              && (r == None <==> !HasRoom(c)) && (r == None ==> d == c) && |d.dev| == |c.dev| && d.dev[b] == c.dev[b]
              && (r.Some? ==>
                   r.value < |d.slots| && !d.slots[r.value].dirty && !d.slots[r.value].touched
                     && d.slots[r.value].refs == 0)
    {
      if c.free != [] {
        assert c.free[0] in c.free;
        hide Distinct, InUseOrder;
      } else if Victim(c) < |c.lru| {
        VictimReady(c, b);
        hide Distinct, Contents, InUseOrder, Logical, Victim, RefsKept, Allocated;
      }
    }

    /** Storing number and data in the slot found makes it the slot assigned. */
    lemma AssignedIs(c: Cache, b: nat, data: Block, dirty: bool)
      requires CInv(c) && !Cached(c, b) && b < |c.dev|
      ensures var (d, r) := Allocated(c);
              r.Some? ==> r.value < |d.slots| && Assigned(c, b, data, dirty) == (Taken(d, r.value, b, data, dirty), r)
    {
      AllocatedFacts(c, b);
      hide Distinct, Contents, InUseOrder, Victim;
      if c.free != [] {
        var s := c.free[0];
        var (d, r) := Allocated(c);
        assert d.slots[s].touched == false && d.slots[s].refs == 0 && d.slots[s].used == c.now;
        assert Taken(d, s, b, data, dirty).slots == Filled(c, b, data, dirty).slots;
      }
    }

    /** find_or_fill_block, for a number on the device and with a slot to be had. */
    method FindOrFillBlock(b: nat) returns (s: nat)
      requires CInv(C()) && b < |dev| && (Cached(C(), b) || HasRoom(C()))
      modifies this
      ensures CInv(old(C())) && CInv(C()) && Logical(C()) == Logical(old(C())) && |dev| == old(|dev|)
      ensures s in lru && s < |slots| && slots[s].blocknum == b && slots[s].data == Logical(C())[b]
      ensures |slots[s].data| == size
      ensures RefsKept(old(C()), C()) && slots[s].refs == RefsOf(old(C()), b) && NoneTouched(old(C()), C())
    {
      hide Distinct, Contents, InUseOrder, Logical, RefsKept, InRange, NoneTouched;
      ghost var c := C();
      var r := FindBlock(b);
      if r == None {
        UncachedReads(c, b);
        r := AssignBlock(b, false);
        assert Logical(c)[b := Logical(c)[b]] == Logical(c);
      } else {
        HitFacts(c, b);
      }
      s := r.value;
      SlotFits(C(), s);
      CachedData(C(), s);
    }

    lemma UncachedReads(c: Cache, b: nat)
      requires CInv(c) && b < |c.dev| && !Cached(c, b)
      ensures Logical(c)[b] == c.dev[b]
    {
    }

    lemma HitFacts(c: Cache, b: nat)
      requires CInv(c) && Cached(c, b)
      ensures var i, e := Find(c, b), Touch(c, Find(c, b));
              CInv(e) && RefsKept(c, e) && NoneTouched(c, e) && (forall u :: u in e.lru <==> u in c.lru)
                && c.lru[i] in e.lru && c.lru[i] < |e.slots| && e.slots[c.lru[i]].blocknum == b
              && c.lru[i] < |c.slots| && e.slots[c.lru[i]] == c.slots[c.lru[i]].(used := c.now) && c.lru[i] in c.lru
    {
      var i := Find(c, b);
      TouchKeeps(c, i);
      assert RefsKept(c, c) && NoneTouched(c, c);
      TouchRefs(c, c, i);
      hide Distinct, Contents, InUseOrder, Logical, RefsKept, NoneTouched;
      assert c.lru[i] in c.lru;
    }

    /** bcache_read_block: what the plain block array would give. */
    method ReadBlock(b: nat) returns (data: Block)
      requires CInv(C()) && b < |dev| && (Cached(C(), b) || HasRoom(C()))
      modifies this
      ensures CInv(old(C())) && CInv(C()) && Logical(C()) == Logical(old(C())) && b < |dev| && data == Logical(C())[b]
      ensures RefsKept(old(C()), C())
    {
      hide Distinct, Contents, InUseOrder, Logical, RefsKept, InRange;
      var s := FindOrFillBlock(b);
      data := slots[s].data;
    }

    /** bcache_get_block: one more reference keeps the slot for this number. */
    method GetBlock(b: nat) returns (s: nat)
      requires CInv(C()) && b < |dev| && (Cached(C(), b) || HasRoom(C()))
      modifies this
      ensures CInv(old(C())) && CInv(C()) && Logical(C()) == Logical(old(C())) && |dev| == old(|dev|)
      ensures s in lru && s < |slots| && slots[s].blocknum == b && slots[s].data == Logical(C())[b]
      ensures slots[s].refs == RefsOf(old(C()), b) + 1 && OthersKept(old(C()), C(), s)
      ensures NoneTouched(old(C()), C()) && Cached(C(), b) && lru[Find(C(), b)] == s && slots[s].refs > 0
    {
      hide Distinct, Contents, InUseOrder, Logical, RefsKept, InRange;
      s := FindOrFillBlock(b);
      ghost var c := C();
      Positive(c, s);
      slots := slots[s := slots[s].(refs := slots[s].refs + 1)];
      SlotChanged(c, C(), s);
      OthersStay(old(C()), c, C(), s);
      CachedData(C(), s);
    }

    lemma HeldStay(c: Cache, d: Cache, e: Cache, s: nat, b: nat)
      requires Listed(c) && RefsKept(c, d) && s < |d.slots| == |e.slots| && e == d.(slots := d.slots[s := e.slots[s]])
      requires d.slots[s].blocknum == b
      ensures HeldKept(c, e, b)
    {
    }

    lemma OthersStay(c: Cache, d: Cache, e: Cache, s: nat)
      requires Listed(c) && RefsKept(c, d) && s < |d.slots| == |e.slots| && e == d.(slots := d.slots[s := e.slots[s]])
      ensures OthersKept(c, e, s)
    {
    }

    /** A slot changed in its references or marks alone. */
    lemma SlotChanged(c: Cache, e: Cache, s: nat)
      requires CInv(c) && s in c.lru && s < |c.slots| == |e.slots| && e == c.(slots := c.slots[s := e.slots[s]])
      requires var x, y := c.slots[s], e.slots[s];
               && y.blocknum == x.blocknum && y.data == x.data && y.used == x.used && y.refs >= 0
               && (y.touched ==> y.refs > 0) && (x.touched ==> y.touched || y.dirty) && (x.dirty ==> y.dirty)
      ensures CInv(e) && Logical(e) == Logical(c)
    {
      ChangedInv(c, e, s);
      hide Distinct, InRange, InUseOrder;
      assert forall b | 0 <= b < |c.dev| && !Cached(c, b) :: e.dev[b] == c.dev[b];
      SameLogical(c, e);
    }

    lemma ChangedInv(c: Cache, e: Cache, s: nat)
      requires CInv(c) && s in c.lru && s < |c.slots| == |e.slots| && e == c.(slots := c.slots[s := e.slots[s]])
      requires var x, y := c.slots[s], e.slots[s];
               && y.blocknum == x.blocknum && y.used == x.used && y.refs >= 0 && |y.data| == c.size
               && (y.touched ==> y.refs > 0)
               && (y.touched || y.dirty || (y.data == x.data && !x.touched && !x.dirty))
      ensures CInv(e)
    {
      hide Distinct;
    }

    /** A holder of a reference writes through its pointer; it is to mark the block dirty
        before it lets go of it. */
    method WriteThrough(s: nat, data: Block)
      requires CInv(C()) && s in lru && s < |slots| && slots[s].refs > 0 && |data| == size && slots[s].blocknum < |dev|
      modifies this`slots
      ensures CInv(old(C())) && CInv(C()) && Logical(C()) == Logical(old(C()))[old(slots[s].blocknum) := data]
      ensures slots == old(slots)[s := old(slots[s]).(data := data, touched := !old(slots[s]).dirty)]
    {
      hide Distinct, Contents, InUseOrder, Logical, InRange;
      ghost var c := C();
      slots := slots[s := slots[s].(data := data, touched := !slots[s].dirty)];
      ChangedInv(c, C(), s);
      WrittenLogical(c, C(), s);
    }

    lemma WrittenAt(c: Cache, e: Cache, s: nat, a: nat)
      requires CInv(c) && CInv(e) && s in c.lru && s < |c.slots| == |e.slots|
      requires e == c.(slots := c.slots[s := e.slots[s]])
      requires e.slots[s].blocknum == c.slots[s].blocknum < |c.dev| && a < |c.dev| && a != c.slots[s].blocknum
      ensures Logical(e)[a] == Logical(c)[a]
    {
      hide Distinct, InUseOrder, Contents;
      if Cached(c, a) {
        var t := SlotOf(c, a);
        CachedData(c, t);
        CachedData(e, t);
      } else {
        SameNumbers(c, e, a);
      }
    }

    lemma WrittenLogical(c: Cache, e: Cache, s: nat)
      requires CInv(c) && CInv(e) && s in c.lru && s < |c.slots| == |e.slots|
      requires e == c.(slots := c.slots[s := e.slots[s]])
      requires e.slots[s].blocknum == c.slots[s].blocknum < |c.dev|
      ensures Logical(e) == Logical(c)[c.slots[s].blocknum := e.slots[s].data]
    {
      hide CInv, Logical;
      CachedData(e, s);
      var b := c.slots[s].blocknum;
      forall a | 0 <= a < |c.dev| && a != b
        ensures Logical(e)[a] == Logical(c)[a]
      {
        WrittenAt(c, e, s, a);
      }
    }

    /** bcache_mark_block_dirty: fails exactly for a number not cached. */
    method MarkBlockDirty(b: nat) returns (err: int)
      requires CInv(C())
      modifies this
      ensures CInv(old(C())) && CInv(C()) && Logical(C()) == Logical(old(C()))
      ensures err == if old(Cached(C(), b)) then 0 else -1
      ensures err == 0 ==>
                var i := Find(old(C()), b);
                i < old(|lru|) && old(lru)[i] < old(|slots|) && C() == Marked(Touch(old(C()), i), old(lru)[i])
      ensures err == 0 ==>
                && Cached(C(), b)
                && var s, x := lru[Find(C(), b)], old(slots[lru[Find(C(), b)]]);
                   && s == old(lru[Find(C(), b)]) && s < |slots|
                   && slots == old(slots)[s := x.(dirty := true, touched := false, used := old(now))] && dev == old(dev)
                   && forall t :: t in lru <==> t in old(lru)
      ensures err != 0 ==> C() == old(C())
    {
      hide Distinct, Contents, InUseOrder, Logical, RefsKept, InRange;
      ghost var c := C();
      var r := FindBlock(b);
      if r == None {
        return -1;
      }
      HitFacts(c, b);
      var s := r.value;
      ghost var d := C();
      Positive(d, s);
      slots := slots[s := slots[s].(dirty := true, touched := false)];
      SlotChanged(d, C(), s);
      CachedData(C(), s);
      err := 0;
    }

    lemma Positive(c: Cache, s: nat)
      requires CInv(c) && s in c.lru
      ensures s < |c.slots| && c.slots[s].refs >= 0 && (c.slots[s].touched ==> c.slots[s].refs > 0)
    {
      hide Distinct, InUseOrder;
    }

    /** bcache_put_block. Nothing a client sees changes, but that the last holder of a block it
        has written and not marked leaves the change to be lost: `UnmarkedLost`. */
    method PutBlock(b: nat)
      requires CInv(C()) && Cached(C(), b)
      requires var s := lru[Find(C(), b)]; s < |slots| && slots[s].refs > 0
      modifies this
      ensures CInv(old(C()))
      ensures var i := Find(old(C()), b); C() == Recounted(Touch(old(C()), i), old(lru)[i], -1)
      ensures var s, x := old(lru[Find(C(), b)]), old(slots[lru[Find(C(), b)]]);
              && s < old(|slots|) && dev == old(dev)
              && slots == old(slots)[s := x.(refs := x.refs - 1, used := old(now))]
              && forall t :: t in lru <==> t in old(lru)
      ensures (var x := old(slots[lru[Find(C(), b)]]); x.touched ==> x.refs > 1) ==>
                CInv(C()) && Logical(C()) == Logical(old(C()))
    {
      hide Distinct, Contents, InUseOrder, Logical, RefsKept, InRange;
      ghost var c := C();
      HitFacts(c, b);
      var r := FindBlock(b);
      var s := r.value;
      ghost var d := C();
      slots := slots[s := slots[s].(refs := slots[s].refs - 1)];
      if slots[s].touched ==> slots[s].refs > 0 {
        SlotChanged(d, C(), s);
      }
    }

    /** The cache as it would be, had the holder of slot `s` not written. */
    function Unwritten(c: Cache, s: nat): Cache
      requires s < |c.slots| && c.slots[s].blocknum < |c.dev|
    {
      c.(slots := c.slots[s := c.slots[s].(data := c.dev[c.slots[s].blocknum], touched := false, refs := 0)])
    }

    /** The block put by its last holder, which is looked up for that, and its slot, now the
        last in the list, taken for block `a`. */
    function PutAndTaken(c: Cache, i: nat, a: nat): Cache
      requires Listed(c) && i < |c.lru| && Listed(Touch(c, i)) && a < |c.dev|
    {
      hide Distinct;
      var s := c.lru[i];
      var p := Recounted(Touch(c, i), s, -1);
      Taken(Touch(p, |p.lru| - 1), s, a, c.dev[a], false)
    }

    lemma UnwrittenInv(c: Cache, s: nat)
      requires CInv(c) && s in c.lru && !c.slots[s].dirty && c.slots[s].refs == 1
      ensures s < |c.slots| && c.slots[s].blocknum < |c.dev| && CInv(Unwritten(c, s))
      ensures Logical(c) == Logical(Unwritten(c, s))[c.slots[s].blocknum := c.slots[s].data]
      ensures Logical(Unwritten(c, s))[c.slots[s].blocknum] == c.dev[c.slots[s].blocknum]
    {
      SlotFits(c, s);
      BlockSize(c, c.slots[s].blocknum);
      var e := Unwritten(c, s);
      assert CInv(e) by { hide Distinct; }
      CachedData(e, s);
      hide Distinct, Contents, InUseOrder, Logical, InRange;
      assert c.slots == e.slots[s := c.slots[s]];
      WrittenLogical(e, c, s);
    }

    /** What the holder wrote leaves no trace once the slot is taken. */
    lemma TakenAnyway(c: Cache, x: Slot, i: nat, a: nat)
      requires Listed(c) && i < |c.lru| && c.lru[i] < |c.slots| && Listed(Touch(c, i)) && a < |c.dev|
      requires c.slots[c.lru[i]].refs == 1 && x.refs == 0 && |Touch(c, i).lru| == |c.lru|
      ensures var n := c.(slots := c.slots[c.lru[i] := x]);
              && Listed(n) && Listed(Touch(n, i)) && |Touch(n, i).lru| == |c.lru|
              && c.lru[i] < |Touch(Touch(n, i), |c.lru| - 1).slots|
              && PutAndTaken(c, i, a) == Taken(Touch(Touch(n, i), |c.lru| - 1), c.lru[i], a, c.dev[a], false)
    {
      hide Distinct;
      var s, n := c.lru[i], c.(slots := c.slots[c.lru[i] := x]);
      var t := Touch(c, i);
      assert t.lru[|t.lru| - 1] == s;
      assert Touch(n, i).lru == t.lru && Touch(n, i).free == t.free && |Touch(n, i).slots| == |t.slots|;
    }

    /** A lookup changes nothing a client sees. */
    lemma TouchOnce(n: Cache, i: nat, s: nat)
      requires CInv(n) && i < |n.lru| && Spare(n, s)
      ensures var v := Touch(n, i);
              && CInv(v) && Logical(v) == Logical(n) && Spare(v, s) && v.dev == n.dev && v.size == n.size
              && |v.lru| == |n.lru| && |v.slots| == |n.slots| && forall b :: !Cached(n, b) ==> !Cached(v, b)
    {
      TouchKeeps(n, i);
      var v := Touch(n, i);
      hide Contents, InUseOrder, Logical, Distinct, InRange;
      forall b | !Cached(n, b)
        ensures !Cached(v, b)
      {
        SameNumbers(n, v, b);
      }
    }

    lemma TouchTwice(n: Cache, i: nat, s: nat) returns (v: Cache)
      requires CInv(n) && i < |n.lru| && Spare(n, s)
      ensures CInv(Touch(n, i)) && |Touch(n, i).lru| == |n.lru| && v == Touch(Touch(n, i), |n.lru| - 1)
      ensures CInv(v) && Logical(v) == Logical(n) && Spare(v, s) && v.dev == n.dev && v.size == n.size
      ensures forall b :: !Cached(n, b) ==> !Cached(v, b)
    {
      hide Contents, InUseOrder, Logical, Distinct, InRange, Touch, Spare, Cached;
      TouchOnce(n, i, s);
      TouchOnce(Touch(n, i), |n.lru| - 1, s);
      v := Touch(Touch(n, i), |n.lru| - 1);
    }

    /** Taking a slot whose data the device has loses nothing. */
    lemma SpareTaken(n: Cache, i: nat, a: nat)
      requires CInv(n) && i < |n.lru| && Spare(n, n.lru[i]) && a < |n.dev| && !Cached(n, a)
      ensures CInv(Touch(n, i)) && |Touch(n, i).lru| == |n.lru|
      ensures n.lru[i] < |Touch(Touch(n, i), |n.lru| - 1).slots|
      ensures var e := Taken(Touch(Touch(n, i), |n.lru| - 1), n.lru[i], a, n.dev[a], false);
              CInv(e) && Logical(e) == Logical(n)
    {
      UncachedReads(n, a);
      BlockSize(n, a);
      var v := TouchTwice(n, i, n.lru[i]);
      hide CInv, Logical, Distinct, Touch, Taken;
      TakenLogical(v, n.lru[i], a, n.dev[a], false);
      assert Logical(n)[a := n.dev[a]] == Logical(n);
    }

    lemma UnwrittenSpare(c: Cache, b: nat, a: nat)
      requires CInv(c) && Cached(c, b) && !Cached(c, a)
      requires !c.slots[c.lru[Find(c, b)]].dirty && c.slots[c.lru[Find(c, b)]].refs == 1
      ensures var s := c.lru[Find(c, b)];
              && s in c.lru && s < |c.slots| && c.slots[s].blocknum == b < |c.dev|
              && CInv(Unwritten(c, s)) && Spare(Unwritten(c, s), s) && !Cached(Unwritten(c, s), a)
              && Logical(c) == Logical(Unwritten(c, s))[b := c.slots[s].data] && Logical(Unwritten(c, s))[b] == c.dev[b]
    {
      var s := c.lru[Find(c, b)];
      assert s in c.lru;
      UnwrittenInv(c, s);
      hide Contents, InUseOrder, Logical, Distinct;
      SameNumbers(c, Unwritten(c, s), a);
    }

    /** When the last holder of a block lets go of it without having marked what it wrote, and
        the slot is taken for another block, the block reads as the device has it again: a client
        sees a change exactly when slot and device differ, and in no other block. */
    lemma UnmarkedLost(c: Cache, b: nat, a: nat)
      requires CInv(c) && Cached(c, b) && a < |c.dev| && !Cached(c, a)
      requires !c.slots[c.lru[Find(c, b)]].dirty && c.slots[c.lru[Find(c, b)]].refs == 1
      ensures c.lru[Find(c, b)] < |c.slots| && b < |c.dev| && Listed(Touch(c, Find(c, b)))
      ensures var e := PutAndTaken(c, Find(c, b), a);
              && CInv(e) && Logical(e) == Logical(c)[b := c.dev[b]]
              && (Logical(e) == Logical(c) <==> c.slots[c.lru[Find(c, b)]].data == c.dev[b])
    {
      var i := Find(c, b);
      var s := c.lru[i];
      UnwrittenSpare(c, b, a);
      TouchListed(c, i);
      TouchedSize(c, i);
      hide Contents, InUseOrder, Logical, Distinct, InRange, Taken, Touch, PutAndTaken, Find, Spare, Cached;
      var n := Unwritten(c, s);
      UnwrittenIs(c, s);
      hide Unwritten, Listed, CInv;
      SpareTaken(n, i, a);
      TakenAnyway(c, n.slots[s], i, a);
      BackToDevice(Logical(c), Logical(n), b, c.slots[s].data);
    }

    lemma UnwrittenIs(c: Cache, s: nat)
      requires s < |c.slots| && c.slots[s].blocknum < |c.dev|
      ensures var n := Unwritten(c, s);
              && |n.slots| == |c.slots| && n == c.(slots := c.slots[s := n.slots[s]]) && n.lru == c.lru
                 && n.dev == c.dev
              && n.slots[s].refs == 0
    {
    }

    lemma BackToDevice(l: seq<Block>, n: seq<Block>, b: nat, data: Block)
      requires b < |n| && l == n[b := data]
      ensures n == l[b := n[b]] && (n == l <==> data == n[b])
    {
    }

    lemma TouchedSize(c: Cache, i: nat)
      requires Listed(c) && i < |c.lru|
      ensures |Touch(c, i).lru| == |c.lru|
    {
    }

    /** bcache_zero_block: the block reads as zeros from now on, whether it was cached or not;
        it fails only when it is not cached and every slot is referenced. */
    method ZeroBlock(b: nat) returns (err: int)
      requires CInv(C()) && b < |dev|
      modifies this
      ensures CInv(old(C())) && CInv(C())
      ensures err == if old(Cached(C(), b) || HasRoom(C())) then 0 else -1
      ensures err == 0 ==> b < |Logical(old(C()))| && Logical(C()) == Logical(old(C()))[b := seq(size, _ => 0)]
      ensures err == 0 ==> HeldKept(old(C()), C(), b)
      ensures err == 0 ==> Cached(C(), b) && lru[Find(C(), b)] < |slots| && slots[lru[Find(C(), b)]].dirty
      ensures err != 0 ==> C() == old(C())
    {
      hide Distinct, Contents, InUseOrder, Logical, RefsKept, InRange;
      ghost var c := C();
      var r := FindBlock(b);
      if r == None {
        r := AssignBlock(b, true);
        if r == None {
          return -1;
        }
        SlotFits(C(), r.value);
        HeldStay(c, C(), C(), r.value, b);
        CachedData(C(), r.value);
        return 0;
      }
      HitFacts(c, b);
      var s := r.value;
      ghost var d := C();
      Positive(d, s);
      slots := slots[s := slots[s].(data := seq(size, _ => 0), dirty := true, touched := false)];
      ChangedInv(d, C(), s);
      WrittenLogical(d, C(), s);
      HeldStay(c, d, C(), s, b);
      CachedData(C(), s);
      err := 0;
    }

    /** bcache_flush: what is marked dirty is written back. Afterwards the device holds what
        clients see exactly when every change made through a pointer was marked. */
    method Flush()
      requires CInv(C())
      modifies this
      ensures CInv(old(C())) && CInv(C()) && Logical(C()) == Logical(old(C()))
      ensures dev == Logical(C()) <==> AllMarked(old(C()))
      ensures lru == old(lru) && |slots| == old(|slots|)
      ensures forall s | s in lru && s < |slots| :: slots[s] == Cleaned(old(slots[s]))
    {
      hide Distinct, Contents, InUseOrder, Logical, RefsKept, InRange, AllMarked, Cleaned;
      ghost var c := C();
      AllFit(c);
      var i := 0;
      while i < |lru|
        invariant i <= |lru| && CInv(C()) && Logical(C()) == Logical(c) && lru == c.lru
        invariant |slots| == |c.slots| && (forall j | 0 <= j < |lru| :: lru[j] < |slots|)
        invariant forall j | 0 <= j < i :: slots[lru[j]] == Cleaned(c.slots[lru[j]])
        invariant forall j | i <= j < |lru| :: slots[lru[j]] == c.slots[lru[j]]
        invariant Undisturbed(c, C())
      {
        assert lru[i] in lru;
        SlotFits(C(), lru[i]);
        Apart(lru, i);
        CleanedIs(slots[lru[i]]);
        if slots[lru[i]].dirty {
          FlushKeeps(C(), lru[i]);
          StillUndisturbed(c, C(), lru[i]);
          FlushBlock(lru[i]);
        }
        i := i + 1;
      }
      FlushedIff(c, C());
    }

    /** A client that writes a block as the cache asks: it gets the block, writes through the pointer,
        marks, puts and flushes. Its bytes are on the device, and if nobody else is in the middle of such
        a write every other block of the device is what clients saw before. */
    method WriteBack(b: nat, data: Block)
      requires CInv(C()) && b < |dev| && |data| == size && (Cached(C(), b) || HasRoom(C()))
      modifies this
      ensures CInv(old(C())) && CInv(C()) && b < |dev| == |Logical(old(C()))|
      ensures dev[b] == data && Logical(C()) == Logical(old(C()))[b := data]
      ensures NobodyWriting(old(C())) ==> dev == Logical(old(C()))[b := data]
    {
      hide Distinct, Contents, InUseOrder, Logical, RefsKept, InRange, AllMarked, Cleaned, NoneTouched, OthersKept,
        NobodyWriting, Marked, Recounted, Touch;
      ghost var c := C();
      var s := GetBlock(b);
      ghost var d := C();
      SlotFits(d, s);
      WriteThrough(s, data);
      CachedData(C(), s);
      var err := MarkBlockDirty(b);
      ghost var m := C();
      PutBlock(b);
      if NobodyWriting(c) {
        StillQuiet(c, d);
        MarkedQuiet(d, m, s, m.slots[s]);
        MarkedQuiet(m, C(), s, slots[s]);
        QuietMarked(C());
      }
      CleanedIs(slots[s]);
      Flush();
      CleanSlot(C(), s);
    }

    /** No slot holds a change that is not marked. */
    ghost predicate NobodyWriting(c: Cache)
      requires Listed(c)
    {
      forall t | t in c.lru && t < |c.slots| :: !c.slots[t].touched
    }

    lemma StillQuiet(c: Cache, d: Cache)
      requires Listed(c) && Listed(d) && NobodyWriting(c) && NoneTouched(c, d)
      ensures NobodyWriting(d)
    {
      hide Distinct;
    }

    lemma MarkedQuiet(c: Cache, d: Cache, s: nat, x: Slot)
      requires Listed(c) && Listed(d) && NobodyWriting(c) && s < |c.slots| && d.slots == c.slots[s := x] && !x.touched
      requires forall t :: t in d.lru <==> t in c.lru
      ensures NobodyWriting(d)
    {
      hide Distinct;
    }

    lemma QuietMarked(c: Cache)
      requires CInv(c) && NobodyWriting(c)
      ensures AllMarked(c)
    {
      hide Distinct, InUseOrder;
    }

    lemma CleanSlot(c: Cache, s: nat)
      requires CInv(c) && s in c.lru
      ensures s < |c.slots| && c.slots[s].blocknum < |c.dev|
      ensures !c.slots[s].dirty && !c.slots[s].touched ==> c.dev[c.slots[s].blocknum] == c.slots[s].data
    {
      hide Distinct, InUseOrder;
    }

    /** Every slot that holds other data than the device is marked dirty. */
    ghost predicate AllMarked(c: Cache)
      requires CInv(c)
    {
      forall s | s in c.lru && s < |c.slots| && c.slots[s].blocknum < |c.dev| && !c.slots[s].dirty ::
        c.slots[s].data == c.dev[c.slots[s].blocknum]
    }

    /** A slot after a flush. */
    function Cleaned(x: Slot): Slot {
      if x.dirty then x.(dirty := false, touched := false) else x
    }

    lemma CleanedIs(x: Slot)
      ensures x.dirty ==> Cleaned(x) == x.(dirty := false, touched := false)
      ensures !x.dirty ==> Cleaned(x) == x
      ensures Cleaned(x).blocknum == x.blocknum && Cleaned(x).data == x.data
    {
    }

    /** The flush has written no block whose slot is not dirty. */
    ghost predicate Undisturbed(c: Cache, e: Cache) {
      && |e.dev| == |c.dev|
      && forall s | s in c.lru && s < |c.slots| && !c.slots[s].dirty && c.slots[s].blocknum < |c.dev| ::
           e.dev[c.slots[s].blocknum] == c.dev[c.slots[s].blocknum]
    }

    lemma StillUndisturbed(c: Cache, e: Cache, s: nat)
      requires CInv(c) && Undisturbed(c, e) && s in c.lru && s < |c.slots| == |e.slots| && c.slots[s].dirty
      requires e.slots[s] == c.slots[s]
      requires e.slots[s].blocknum < |e.dev|
      ensures Undisturbed(c, Flushed(e, s))
    {
      hide Distinct, InUseOrder;
    }

    lemma FlushedIff(c: Cache, e: Cache)
      requires CInv(c) && CInv(e) && e.lru == c.lru && |e.slots| == |c.slots| && Undisturbed(c, e)
      requires forall j | 0 <= j < |c.lru| :: c.lru[j] < |c.slots| && e.slots[c.lru[j]] == Cleaned(c.slots[c.lru[j]])
      ensures e.dev == Logical(e) <==> AllMarked(c)
      ensures forall s | s in c.lru && s < |c.slots| :: e.slots[s] == Cleaned(c.slots[s])
    {
      forall s | s in c.lru && s < |c.slots|
        ensures e.slots[s] == Cleaned(c.slots[s])
      {
        var j :| 0 <= j < |c.lru| && c.lru[j] == s;
      }
      hide Distinct, InUseOrder, Logical;
      if AllMarked(c) {
        forall b | 0 <= b < |e.dev|
          ensures Logical(e)[b] == e.dev[b]
        {
          BlockFlushed(c, e, b);
        }
      }
      if e.dev == Logical(e) {
        forall s | s in c.lru && s < |c.slots| && c.slots[s].blocknum < |c.dev| && !c.slots[s].dirty
          ensures c.slots[s].data == c.dev[c.slots[s].blocknum]
        {
          CleanedIs(c.slots[s]);
          CachedData(e, s);
        }
      }
    }

    lemma BlockFlushed(c: Cache, e: Cache, b: nat)
      requires CInv(c) && CInv(e) && e.lru == c.lru && |e.slots| == |c.slots| && Undisturbed(c, e) && AllMarked(c)
      requires b < |e.dev|
      requires forall s | s in c.lru && s < |c.slots| :: e.slots[s] == Cleaned(c.slots[s])
      ensures Logical(e)[b] == e.dev[b]
    {
      hide Distinct, InUseOrder;
      if Cached(e, b) {
        var s := e.lru[Find(e, b)];
        assert s in e.lru;
        CleanedIs(c.slots[s]);
      }
    }

    lemma AllFit(c: Cache)
      requires CInv(c)
      ensures forall j | 0 <= j < |c.lru| :: c.lru[j] < |c.slots|
    {
      forall j | 0 <= j < |c.lru|
        ensures c.lru[j] < |c.slots|
      {
        assert c.lru[j] in c.lru;
      }
    }

    lemma Apart(q: seq<nat>, i: nat)
      requires Distinct(q) && i < |q|
      ensures forall j | 0 <= j < |q| && j != i :: q[j] != q[i]
    {
    }
  }
}
