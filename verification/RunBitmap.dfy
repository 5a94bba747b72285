/** The 32-bit bitmap that says which run queues are not empty, and the count of leading
    zeros that picks the highest of them. */
module RunBitmap {
  const NUM_PRIORITIES := 32
  const HIGHEST_PRIORITY := 31

  /** 1 << p */
  function Mask(p: nat): bv32 {
    if p == 0 then 1 else Mask(p - 1) << 1
  }

  predicate Meets(b: bv32, m: bv32) { b & m != 0 }

  function WithMask(b: bv32, m: bv32): bv32 { b | m }

  function WithoutMask(b: bv32, m: bv32): bv32 { b & !m }

  predicate Bit(b: bv32, p: nat) { Meets(b, Mask(p)) }

  lemma ShiftedApart(x: bv32, y: bv32)
    requires x & y == 0
    ensures (x << 1) & (y << 1) == 0
  {
  }

  lemma OneApart(y: bv32)
    ensures 1 & (y << 1) == 0
  {
  }

  lemma {:induction false} MasksApart(p: nat, q: nat)
    requires p < q
    ensures Mask(p) & Mask(q) == 0
  {
    if p == 0 {
      OneApart(Mask(q - 1));
    } else {
      MasksApart(p - 1, q - 1);
      ShiftedApart(Mask(p - 1), Mask(q - 1));
    }
  }

  lemma {:induction false} MaskZero(p: nat, q: nat)
    requires p <= q && Mask(p) == 0
    ensures Mask(q) == 0
    decreases q
  {
    if p < q {
      MaskZero(p, q - 1);
    }
  }

  lemma TopMask()
    ensures Mask(31) == 0x8000_0000
  {
    assert Mask(4) == 0x10;
    assert Mask(8) == 0x100;
    assert Mask(12) == 0x1000;
    assert Mask(16) == 0x1_0000;
    assert Mask(20) == 0x10_0000;
    assert Mask(24) == 0x100_0000;
    assert Mask(28) == 0x1000_0000;
  }

  lemma MaskNonzero(p: nat)
    requires p < NUM_PRIORITIES
    ensures Mask(p) != 0
  {
    if Mask(p) == 0 {
      MaskZero(p, 31);
      TopMask();
    }
  }

  lemma OrKeeps(b: bv32, m: bv32, n: bv32)
    requires m & n == 0
    ensures (b | m) & n == b & n && (b & !m) & n == b & n
  {
  }

  lemma KeepsMeets(b: bv32, m: bv32, n: bv32)
    requires m & n == 0
    ensures Meets(WithMask(b, m), n) == Meets(b, n) && Meets(WithoutMask(b, m), n) == Meets(b, n)
  {
    OrKeeps(b, m, n);
  }

  lemma OrSets(b: bv32, m: bv32)
    ensures (b | m) & m == m && (b & !m) & m == 0
  {
  }

  lemma SetsMeets(b: bv32, m: bv32)
    requires m != 0
    ensures Meets(WithMask(b, m), m) && !Meets(WithoutMask(b, m), m)
  {
    OrSets(b, m);
  }

  lemma Swap(m: bv32, n: bv32)
    requires m & n == 0
    ensures n & m == 0
  {
  }

  /** Setting and clearing bit `p` changes bit `p` alone. */
  lemma SetBit(b: bv32, p: nat, q: nat)
    requires p < NUM_PRIORITIES && q < NUM_PRIORITIES
    ensures Bit(WithMask(b, Mask(p)), q) <==> q == p || Bit(b, q)
    ensures Bit(WithoutMask(b, Mask(p)), q) <==> q != p && Bit(b, q)
  {
    hide Mask, Meets, WithMask, WithoutMask;
    if p == q {
      MaskNonzero(p);
      SetsMeets(b, Mask(p));
    } else {
      if p < q {
        MasksApart(p, q);
      } else {
        MasksApart(q, p);
        Swap(Mask(q), Mask(p));
      }
      KeepsMeets(b, Mask(p), Mask(q));
    }
  }

  /** __builtin_clz: how many bits above and including bit `p` are clear before the first set one. */
  function LeadingZeros(b: bv32, p: nat): (n: nat)
    requires p < NUM_PRIORITIES
    ensures n <= p + 1
    ensures n <= p ==> Bit(b, p - n)
    ensures forall q | p - n < q <= p :: !Bit(b, q)
  {
    if Bit(b, p) then 0 else if p == 0 then 1 else 1 + LeadingZeros(b, p - 1)
  }

  /** The scan that the bitmap replaces: the highest priority whose queue is not empty. */
  function HighestNonEmpty<T>(run: seq<seq<T>>, p: nat): (r: int)
    requires p < |run|
    ensures -1 <= r <= p
    ensures r >= 0 ==> run[r] != []
    ensures forall q | r < q <= p :: run[q] == []
  {
    if run[p] != [] then p else if p == 0 then -1 else HighestNonEmpty(run, p - 1)
  }

  /** Bit `p` is set just when queue `p` is not empty. */
  predicate Tracks<T>(b: bv32, run: seq<seq<T>>) {
    |run| == NUM_PRIORITIES && forall p | 0 <= p < NUM_PRIORITIES :: Bit(b, p) <==> run[p] != []
  }

  lemma {:induction false} ClzFrom<T>(b: bv32, run: seq<seq<T>>, p: nat)
    requires Tracks(b, run) && p < NUM_PRIORITIES
    ensures p - LeadingZeros(b, p) == HighestNonEmpty(run, p)
  {
    hide Bit;
    if run[p] == [] && p > 0 {
      ClzFrom(b, run, p - 1);
    }
  }

  /** Counting leading zeros finds what the scan finds; the bitmap is zero only when all queues are empty. */
  lemma ClzIsScan<T>(b: bv32, run: seq<seq<T>>)
    requires Tracks(b, run)
    ensures HIGHEST_PRIORITY - LeadingZeros(b, HIGHEST_PRIORITY) == HighestNonEmpty(run, HIGHEST_PRIORITY)
    ensures HighestNonEmpty(run, HIGHEST_PRIORITY) >= 0 ==> b != 0
  {
    hide Bit, LeadingZeros;
    ClzFrom(b, run, HIGHEST_PRIORITY);
    var r := HighestNonEmpty(run, HIGHEST_PRIORITY);
    if r >= 0 {
      NoBits(b, r);
    }
  }

  lemma NoBits(b: bv32, p: nat)
    ensures b == 0 ==> !Bit(b, p)
  {
    hide Mask;
    AndZero(Mask(p));
  }

  lemma AndZero(m: bv32)
    ensures 0 & m == 0
  {
  }
}
