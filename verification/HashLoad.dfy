/** The load limits that decide when a cuckoo map grows and shrinks (calc_max_n and
    calc_min_n, the same in lib/cmap.c and lib/ccmap.c), with the 32-bit and 64-bit
    wrap-around of the source.

    Rehashing asserts that the entries fit below the new array's upper limit.  The
    assertion is shown to hold whenever a map shrinks, and to hold when a map grows
    exactly as long as it has fewer than 2^29 buckets: from 2^29 buckets on the 64-bit
    product wraps and the new limit falls below the number of entries.
  */
module HashLoad {
  import opened CuckooTable

  const TWO64: nat := 0x1_0000_0000_0000_0000
  /** Slots per bucket of a cmap on 64-bit hosts, on 32-bit hosts, and of a ccmap. */
  const CMAP_K: nat := 5
  const CMAP_K_32: nat := 7
  const CCMAP_K: nat := 8
  const MAX_LOAD: nat := 3650722200
  const MIN_LOAD: nat := 858993459
  const MAX_LOG: nat := 29

  function Limit(mask: nat, k: nat, load: nat): nat {
    (mask + 1) % TWO32 * k * load % TWO64 / TWO32
  }

  function Pow2(e: nat): (r: nat)
    ensures r > 0
  {
    if e == 0 then 1 else 2 * Pow2(e - 1)
  }

  /** `mask` belongs to an array of 2^e buckets. */
  predicate IsMask(mask: nat, e: nat) {
    mask + 1 == Pow2(e)
  }

  /** (mask << 1) | 1, in 32 bits. */
  function Grown(mask: nat): nat {
    mask * 2 % TWO32 + 1
  }

  lemma {:induction false} Pow2Bound(e: nat, top: nat)
    requires e <= top
    ensures Pow2(e) <= Pow2(top)
    decreases top - e
  {
    if e < top {
      Pow2Bound(e + 1, top);
    }
  }

  lemma Pow2At29()
    ensures Pow2(29) == 0x2000_0000
  {
    assert Pow2(4) == 16;
    assert Pow2(8) == 256;
    assert Pow2(12) == 0x1000;
    assert Pow2(16) == 0x1_0000;
    assert Pow2(20) == 0x10_0000;
    assert Pow2(24) == 0x100_0000;
    assert Pow2(28) == 0x1000_0000;
  }

  lemma MaskBound(mask: nat, e: nat)
    requires IsMask(mask, e) && e <= MAX_LOG
    ensures mask + 1 <= 0x2000_0000
    ensures e < MAX_LOG ==> mask + 1 <= 0x1000_0000
  {
    Pow2At29();
    Pow2Bound(e, MAX_LOG);
    if e < MAX_LOG {
      Pow2Bound(e, 28);
      assert Pow2(29) == 2 * Pow2(28);
    }
  }

  lemma GrownMask(mask: nat, e: nat)
    requires IsMask(mask, e) && e <= MAX_LOG
    ensures Grown(mask) == 2 * mask + 1 && IsMask(Grown(mask), e + 1)
  {
    MaskBound(mask, e);
  }

  lemma ShrunkMask(mask: nat, e: nat)
    requires IsMask(mask, e)
    ensures IsMask(mask / 2, if e == 0 then 0 else e - 1)
  {
  }

  /** The assertion of the expanding rehash: a map at its limit fits in the grown one. */
  predicate GrowthFits(mask: nat, k: nat) {
    Limit(mask, k, MAX_LOAD) < Limit(Grown(mask), k, MAX_LOAD)
  }

  /** The limit where nothing wraps; `k * load` is written out as one constant. */
  lemma LimitAt(mask: nat, k: nat, load: nat, per: nat)
    requires per == k * load && (mask + 1) * per < TWO64 && mask + 1 < TWO32
    ensures Limit(mask, k, load) == (mask + 1) * per / TWO32
  {
    assert (mask + 1) * k * load == (mask + 1) * (k * load);
  }

  lemma HalvesDiffer(x: nat)
    requires x >= TWO32
    ensures x / TWO32 < 2 * x / TWO32
  {
  }

  lemma GrowthFitsExactly(mask: nat, e: nat, k: nat)
    requires IsMask(mask, e) && e <= MAX_LOG && k in {CMAP_K, CMAP_K_32, CCMAP_K}
    ensures GrowthFits(mask, k) <==> mask + 1 < 0x2000_0000
  {
    MaskBound(mask, e);
    GrownMask(mask, e);
    if e == MAX_LOG {
      Pow2At29();
      assert mask + 1 == 0x2000_0000;
    } else if k == CMAP_K {
      LimitAt(mask, k, MAX_LOAD, 18253611000);
      LimitAt(Grown(mask), k, MAX_LOAD, 18253611000);
      HalvesDiffer((mask + 1) * 18253611000);
    } else if k == CMAP_K_32 {
      LimitAt(mask, k, MAX_LOAD, 25555055400);
      LimitAt(Grown(mask), k, MAX_LOAD, 25555055400);
      HalvesDiffer((mask + 1) * 25555055400);
    } else {
      LimitAt(mask, k, MAX_LOAD, 29205777600);
      LimitAt(Grown(mask), k, MAX_LOAD, 29205777600);
      HalvesDiffer((mask + 1) * 29205777600);
    }
  }

  /** An empty map that has never held anything grows from limit zero. */
  lemma FirstGrowthFits(k: nat)
    requires k in {CMAP_K, CMAP_K_32, CCMAP_K}
    ensures 0 < Limit(Grown(0), k, MAX_LOAD)
  {
  }

  /** Fewer entries than the lower limit always fit in an array half the size. */
  lemma ShrinkFits(mask: nat, e: nat, k: nat, n: nat)
    requires IsMask(mask, e) && e <= MAX_LOG && k in {CMAP_K, CMAP_K_32, CCMAP_K}
    requires n < Limit(mask, k, MIN_LOAD)
    ensures n < Limit(mask / 2, k, MAX_LOAD)
  {
    MaskBound(mask, e);
    ShrunkMask(mask, e);
    if k == CMAP_K {
      LimitAt(mask, k, MIN_LOAD, 4294967295);
      LimitAt(mask / 2, k, MAX_LOAD, 18253611000);
    } else if k == CMAP_K_32 {
      LimitAt(mask, k, MIN_LOAD, 6012954213);
      LimitAt(mask / 2, k, MAX_LOAD, 25555055400);
    } else {
      LimitAt(mask, k, MIN_LOAD, 6871947672);
      LimitAt(mask / 2, k, MAX_LOAD, 29205777600);
    }
  }
}
