/** The counting cuckoo map of lib/ccmap.c, which the classifier uses for its staged
    indices: it keeps, for every hash, how often it has been added.

    The contents are a multiset of hashes.  Lookups do not skip slots whose count has
    dropped to zero, so they are right only because such a slot never precedes the live
    one; that is part of the invariant shared with cmap (CuckooTable.Settled).
  */
module Ccmap {
  import opened CuckooTable
  import opened CuckooSearch
  import opened CuckooTransfer
  import opened HashLoad

  /** A count per hash, zero counts left out, against the multiset it stands for. */
  ghost predicate Counts(view: map<nat, nat>, contents: multiset<nat>) {
    forall h :: contents[h] == if h in view then view[h] else 0
  }

  lemma CountsAdd(view: map<nat, nat>, contents: multiset<nat>, hash: nat)
    requires Counts(view, contents)
    ensures var c := (if hash in view then view[hash] else 0) + 1;
      Counts(view[hash := c], contents + multiset{hash})
  {
  }

  lemma CountsRemove(p: Params<nat>, view: map<nat, nat>, contents: multiset<nat>, hash: nat)
    requires Counts(view, contents) && hash in view && view[hash] > 0 && p.nil == 0
    ensures Counts(Stored(p, view, hash, view[hash] - 1), contents - multiset{hash})
  {
  }

  lemma CountAtMost(view: map<nat, nat>, contents: multiset<nat>, hash: nat)
    requires Counts(view, contents) && hash in view
    ensures view[hash] <= |contents|
  {
  }

  class CountImpl {
    var nUnique: nat
    var n: nat
    const maxN: nat
    const minN: nat
    const mask: nat
    const basis: nat
    const finish: (nat, nat) -> nat
    const buckets: array<Bucket<nat>>
    ghost var view: map<nat, nat>

    function P(): Params<nat> {
      Params(CCMAP_K, mask, basis, finish, 0)
    }

    ghost predicate Valid()
      reads this, buckets
    {
      Settled(P(), buckets[..], view)
    }

    /** ccmap_impl_create. */
    constructor (mask: nat, basis: nat, finish: (nat, nat) -> nat)
      ensures Valid() && view == map[] && n == 0 && nUnique == 0 && fresh(buckets)
      ensures this.mask == mask && this.basis == basis && this.finish == finish
      ensures maxN == Limit(mask, CCMAP_K, MAX_LOAD) && minN == Limit(mask, CCMAP_K, MIN_LOAD)
    {
      this.mask, this.basis, this.finish := mask, basis, finish;
      n, nUnique := 0, 0;
      maxN, minN := Limit(mask, CCMAP_K, MAX_LOAD), Limit(mask, CCMAP_K, MIN_LOAD);
      var empty := seq(CCMAP_K, i => Slot(0, 0));
      buckets := new Bucket<nat>[mask + 1](i => empty);
      view := map[];
    }

    /** ccmap_find_in_bucket: the count of the first slot with `hash`, zero or not. */
    method FindInBucket(b: nat, hash: nat) returns (count: nat)
      requires Valid() && b < buckets.Length
      ensures count == FindIn(buckets[b], hash, 0)
    {
      var i := 0;
      while i < CCMAP_K
        invariant 0 <= i <= CCMAP_K && FirstMatch(buckets[b], hash) >= i
      {
        if buckets[b][i].hash == hash {
          return buckets[b][i].val;
        }
        i := i + 1;
      }
      return 0;
    }

    /** ccmap_find. */
    method Find(hash: nat) returns (count: nat)
      requires Valid()
      ensures count == ViewAt(P(), view, hash)
    {
      FindIsView(P(), buckets[..], view, hash);
      count := FindInBucket(First(P(), hash), hash);
      if count == 0 {
        count := FindInBucket(Second(P(), hash), hash);
      }
    }

    /** ccmap_find_slot_protected: the first slot with `hash` and a count. */
    method FindSlot(b: nat, hash: nat) returns (i: nat)
      requires Valid() && b < buckets.Length
      ensures i <= CCMAP_K == |buckets[b]|
      ensures i < CCMAP_K ==> buckets[b][i].hash == hash && buckets[b][i].val != 0
      ensures i == CCMAP_K ==>
        forall j :: 0 <= j < CCMAP_K ==> buckets[b][j].hash != hash || buckets[b][j].val == 0
    {
      i := 0;
      while i < CCMAP_K
        invariant 0 <= i <= CCMAP_K
        invariant forall j :: 0 <= j < i ==> buckets[b][j].hash != hash || buckets[b][j].val == 0
      {
        if buckets[b][i].hash == hash && buckets[b][i].val != 0 {
          return;
        }
        i := i + 1;
      }
    }

    /** Store a new count in a slot that has one (ccmap_set_bucket). */
    method SetCount(b: nat, i: nat, count: nat)
      requires Valid() && b < buckets.Length && i < CCMAP_K && buckets[b][i].val != 0
      modifies buckets, this`view
      ensures Valid()
      ensures view == Stored(P(), old(view), old(buckets[b])[i].hash, count)
    {
      ghost var t := buckets[..];
      assert Live(P(), t, b, i);
      LiveCanStore(P(), t, view, b, i);
      StoreSettled(P(), t, view, b, i, count);
      view := Stored(P(), view, buckets[b][i].hash, count);
      buckets[b] := buckets[b][i := Slot(buckets[b][i].hash, count)];
      assert buckets[..] == Put(t, b, i, Slot(t[b][i].hash, count));
    }

    lemma LiveInView(b: nat, i: nat)
      requires Valid() && b < buckets.Length && i < CCMAP_K && buckets[b][i].val != 0
      ensures buckets[b][i].hash in view && view[buckets[b][i].hash] == buckets[b][i].val
    {
    }

    /** ccmap_inc_bucket_existing: 0 if the bucket has no count for `hash`. */
    method IncExisting(b: nat, hash: nat, inc: nat) returns (count: nat)
      requires Valid() && b < buckets.Length && inc > 0
      modifies buckets, this`view
      ensures Valid()
      ensures count == 0 ==> view == old(view) && buckets[..] == old(buckets[..])
      ensures count == 0 ==> forall j :: 0 <= j < CCMAP_K ==> buckets[b][j].hash != hash || buckets[b][j].val == 0
      ensures count > 0 ==> hash in old(view) && count == old(view)[hash] + inc && view == old(view)[hash := count]
    {
      var i := FindSlot(b, hash);
      if i == CCMAP_K {
        return 0;
      }
      LiveInView(b, i);
      hide Settled;
      count := buckets[b][i].val + inc;
      SetCount(b, i, count);
    }

    /** ccmap_inc_bucket_new: 0 if the bucket is full. */
    method IncNew(b: nat, hash: nat, inc: nat) returns (count: nat)
      requires Valid() && inc > 0 && hash !in view && IsCandidate(P(), hash, b)
      requires b != First(P(), hash) ==> NoMatch(buckets[First(P(), hash)], hash)
      modifies buckets, this`view
      ensures Valid()
      ensures count == 0 ==> view == old(view) && buckets[..] == old(buckets[..]) && Full(buckets[b], 0)
      ensures count > 0 ==> count == inc && view == old(view)[hash := inc]
    {
      var i := 0;
      while i < CCMAP_K
        invariant 0 <= i <= CCMAP_K && FirstEmpty(buckets[b], 0) >= i
      {
        if buckets[b][i].val == 0 {
          EmptyCanDisplace(P(), buckets[..], view, Slot(hash, inc), b);
          DisplacedSettled(P(), buckets[..], view, [b], [i], Slot(hash, inc));
          view := view[hash := inc];
          buckets[b] := buckets[b][i := Slot(hash, inc)];
          assert buckets[..] == Put(old(buckets[..]), b, i, Slot(hash, inc));
          return inc;
        }
        i := i + 1;
      }
      return 0;
    }

    /** The backward moves of ccmap_inc_bfs. */
    method MoveBackward(ghost t: Table<nat>, bs: seq<nat>, ss: seq<nat>, ghost s: Slot<nat>)
      requires buckets[..] == t && InBounds(t, bs, ss) && Distinct(bs)
      modifies buckets
      ensures buckets[..] == Moved(t, bs, ss, s, 1)
    {
      var k := |bs| - 1;
      while k > 0
        invariant 0 <= k < |bs|
        invariant buckets[..] == Moved(t, bs, ss, s, k + 1)
      {
        MovedAt(t, bs, ss, s, k + 1, k - 1);
        assert buckets[bs[k - 1]] == buckets[..][bs[k - 1]];
        assert |buckets[bs[k]]| == |buckets[..][bs[k]]|;
        ghost var before := buckets[..];
        buckets[bs[k]] := buckets[bs[k]][ss[k] := buckets[bs[k - 1]][ss[k - 1]]];
        assert buckets[..] == Put(before, bs[k], ss[k], t[bs[k - 1]][ss[k - 1]]);
        k := k - 1;
      }
    }

    /** ccmap_inc_bfs. */
    method IncBfs(hash: nat, inc: nat) returns (count: nat)
      requires Valid() && inc > 0 && hash !in view
      requires Full(buckets[First(P(), hash)], 0) && Full(buckets[Second(P(), hash)], 0)
      modifies buckets, this`view
      ensures Valid()
      ensures count == 0 ==> view == old(view)
      ensures count > 0 ==> count == inc && view == old(view)[hash := inc]
    {
      var found, bs, ss, _ := FindPath(P(), buckets[..], hash);
      if !found {
        return 0;
      }
      ghost var t, s := buckets[..], Slot(hash, inc);
      PathCanDisplace(P(), t, view, s, bs, ss);
      DisplacedSettled(P(), t, view, bs, ss, s);
      PlanFacts(P(), t, view, bs, ss, s);
      MoveBackward(t, bs, ss, s);
      assert |buckets[bs[0]]| == |buckets[..][bs[0]]|;
      view := view[hash := inc];
      ghost var before := buckets[..];
      buckets[bs[0]] := buckets[bs[0]][ss[0] := Slot(hash, inc)];
      assert buckets[..] == Put(before, bs[0], ss[0], s);
      return inc;
    }

    /** ccmap_try_inc: the new count of `hash`, or 0 if no room could be made. */
    method TryInc(hash: nat, inc: nat) returns (count: nat)
      requires Valid() && inc > 0
      modifies buckets, this`view
      ensures Valid()
      ensures count == 0 ==> view == old(view)
      ensures count > 0 ==> count == ViewAt(P(), old(view), hash) + inc && view == old(view)[hash := count]
    {
      var b1, b2 := First(P(), hash), Second(P(), hash);
      count := IncExisting(b1, hash, inc);
      if count > 0 { return; }
      count := IncExisting(b2, hash, inc);
      if count > 0 { return; }
      NoCountNoHash(P(), buckets[..], view, hash);
      count := IncNew(b1, hash, inc);
      if count > 0 { return; }
      AbsentMatchIsUnused(P(), buckets[..], view, hash, b1);
      count := IncNew(b2, hash, inc);
      if count > 0 { return; }
      count := IncBfs(hash, inc);
    }

    /** ccmap_dec__ for the bucket given by its index: the old count, or 0. */
    method DecIn(b: nat, hash: nat) returns (count: nat)
      requires Valid() && b < buckets.Length
      modifies this`view, buckets
      ensures Valid()
      ensures count == 0 ==> view == old(view) && buckets[..] == old(buckets[..])
      ensures count == 0 ==>
        forall j :: 0 <= j < CCMAP_K ==> buckets[b][j].hash != hash || buckets[b][j].val == 0
      ensures count > 0 ==> hash in old(view) && count == old(view)[hash]
      ensures count > 0 ==> view == Stored(P(), old(view), hash, count - 1)
    {
      hide Settled;
      var i := FindSlot(b, hash);
      if i == CCMAP_K {
        return 0;
      }
      LiveInView(b, i);
      count := buckets[b][i].val;
      SetCount(b, i, count - 1);
    }

    /** A hash that has a count has it in one of its two buckets. */
    lemma HasSlot(hash: nat) returns (b: nat, i: nat)
      requires Valid() && hash in view
      ensures b < buckets.Length && i < CCMAP_K == |buckets[b]|
      ensures b == First(P(), hash) || b == Second(P(), hash)
      ensures buckets[b][i].hash == hash && buckets[b][i].val != 0
    {
      b, i := HomeOf(P(), buckets[..], view, hash);
    }

    /** The decrement of ccmap_dec; its assertion that the hash has a count never fires. */
    method DecCount(hash: nat) returns (count: nat)
      requires Valid() && hash in view
      modifies this`view, buckets
      ensures Valid() && count + 1 == old(view)[hash]
      ensures view == Stored(P(), old(view), hash, count)
    {
      ghost var b, i := HasSlot(hash);
      hide Settled;
      var c := DecIn(First(P(), hash), hash);
      if c == 0 {
        assert buckets[b] == buckets[..][b];
        c := DecIn(Second(P(), hash), hash);
      }
      count := c - 1;
    }
  }

  lemma NoCountNoHash(p: Params<nat>, t: Table<nat>, view: map<nat, nat>, hash: nat)
    requires Consistent(p, t, view)
    requires forall j :: 0 <= j < p.k ==> t[First(p, hash)][j].hash != hash || t[First(p, hash)][j].val == p.nil
    requires forall j :: 0 <= j < p.k ==> t[Second(p, hash)][j].hash != hash || t[Second(p, hash)][j].val == p.nil
    ensures hash !in view
  {
  }

  // Rehashing.

  method RehashSlot(s: Slot<nat>, into: CountImpl, ghost p: Params<nat>, ghost t: Table<nat>,
                    ghost view: map<nat, nat>, ghost b: nat, ghost i: nat) returns (ok: bool)
    requires Settled(p, t, view) && b < |t| && i < p.k && p.nil == 0 && s == t[b][i]
    requires into.Valid() && Partial(p, t, view, into.view, b, i)
    modifies into.buckets, into`view
    ensures into.Valid()
    ensures ok ==> Partial(p, t, view, into.view, b, i + 1)
  {
    hide Partial, Settled;
    TransferOne(p, t, view, into.view, b, i);
    ok := true;
    if s.val != 0 {
      var count := into.TryInc(s.hash, s.val);
      ok := count > 0;
    }
  }

  /** The inner loop of ccmap_try_rehash. */
  method RehashBucket(bucket: Bucket<nat>, into: CountImpl, ghost p: Params<nat>, ghost t: Table<nat>,
                      ghost view: map<nat, nat>, ghost b: nat) returns (ok: bool)
    requires Settled(p, t, view) && b < |t| && bucket == t[b] && p.k == CCMAP_K && p.nil == 0
    requires into.Valid() && Partial(p, t, view, into.view, b, 0)
    modifies into.buckets, into`view
    ensures into.Valid()
    ensures ok ==> Partial(p, t, view, into.view, b + 1, 0)
  {
    assert |bucket| == CCMAP_K && Shape(p, t);
    hide Partial, Settled;
    var i := 0;
    while i < CCMAP_K
      invariant 0 <= i <= CCMAP_K
      invariant into.Valid() && Partial(p, t, view, into.view, b, i)
    {
      ok := RehashSlot(bucket[i], into, p, t, view, b, i);
      if !ok {
        return;
      }
      i := i + 1;
    }
    TransferBucket(p, t, view, into.view, b);
    ok := true;
  }

  /** ccmap_try_rehash: every count of `from` is added to the empty array `into`. */
  method TryRehash(from: CountImpl, into: CountImpl) returns (ok: bool)
    requires from.Valid() && into.Valid() && into.view == map[]
    requires from != into && from.buckets != into.buckets
    modifies into.buckets, into`view
    ensures into.Valid()
    ensures ok ==> into.view == from.view
  {
    ghost var p, t, view := from.P(), from.buckets[..], from.view;
    TransferNone(p, t, view);
    var b := 0;
    while b < from.buckets.Length
      invariant 0 <= b <= from.buckets.Length
      invariant from.buckets[..] == t
      invariant into.Valid() && Partial(p, t, view, into.view, b, 0)
    {
      assert from.buckets[b] == t[b];
      ok := RehashBucket(from.buckets[b], into, p, t, view, b);
      if !ok {
        return;
      }
      b := b + 1;
    }
    TransferAll(p, t, view, into.view);
    ok := true;
  }

  /** struct ccmap.  `contents` is the multiset of hashes added and not removed. */
  class CountMap {
    var impl: CountImpl
    ghost var contents: multiset<nat>

    ghost predicate Valid()
      reads this, impl, impl.buckets
    {
      && impl.Valid() && Counts(impl.view, contents)
      && impl.n == |contents| && impl.nUnique == |impl.view|
      && impl.nUnique <= impl.maxN
      && (exists e: nat :: e <= MAX_LOG && IsMask(impl.mask, e))
      && impl.maxN == Limit(impl.mask, CCMAP_K, MAX_LOAD) && impl.minN == Limit(impl.mask, CCMAP_K, MIN_LOAD)
    }

    /** ccmap_init. */
    constructor (basis: nat, finish: (nat, nat) -> nat)
      ensures Valid() && contents == multiset{} && fresh(impl) && fresh(impl.buckets)
    {
      impl := new CountImpl(0, basis, finish);
      contents := multiset{};
      new;
      assert IsMask(impl.mask, 0);
    }

    /** ccmap_count. */
    method Count() returns (n: nat)
      requires Valid()
      ensures n == |contents|
    {
      n := impl.n;
    }

    /** ccmap_find: how often `hash` has been added. */
    method Find(hash: nat) returns (count: nat)
      requires Valid()
      ensures count == contents[hash]
    {
      count := impl.Find(hash);
    }

    /** ccmap_rehash. */
    method Rehash(mask: nat, draws: seq<nat>) returns (ok: bool, rest: seq<nat>)
      requires impl.Valid() && Counts(impl.view, contents) && impl.nUnique == |impl.view|
      requires exists e: nat :: e <= MAX_LOG && IsMask(mask, e)
      requires impl.nUnique < Limit(mask, CCMAP_K, MAX_LOAD)
      modifies this`impl
      ensures impl.Valid() && impl.view == old(impl.view)
      ensures impl.n == old(impl.n) && impl.nUnique == old(impl.nUnique)
      ensures ok ==> |rest| < |draws| && fresh(impl) && fresh(impl.buckets)
      ensures ok ==> impl.mask == mask && impl.nUnique < impl.maxN
      ensures ok ==> impl.maxN == Limit(mask, CCMAP_K, MAX_LOAD) && impl.minN == Limit(mask, CCMAP_K, MIN_LOAD)
      ensures !ok ==> impl == old(impl)
    {
      rest := draws;
      while rest != []
        invariant impl == old(impl) && impl.Valid() && impl.view == old(impl.view)
        invariant impl.n == old(impl.n) && impl.nUnique == old(impl.nUnique)
        invariant |rest| <= |draws|
        decreases |rest|
      {
        var into := new CountImpl(mask, rest[0], impl.finish);
        rest := rest[1..];
        var done := TryRehash(impl, into);
        if done {
          into.n, into.nUnique := impl.n, impl.nUnique;
          impl := into;
          return true, rest;
        }
      }
      ok := false;
    }

    method Expand(draws: seq<nat>) returns (ok: bool, rest: seq<nat>)
      requires Valid() && impl.nUnique >= impl.maxN && impl.mask + 1 < 0x2000_0000
      modifies this`impl
      ensures Valid()
      ensures ok ==> |rest| < |draws| && fresh(impl) && fresh(impl.buckets) && impl.nUnique < impl.maxN
      ensures !ok ==> impl == old(impl)
    {
      ghost var e: nat :| e <= MAX_LOG && IsMask(impl.mask, e);
      GrowthFitsExactly(impl.mask, e, CCMAP_K);
      GrownMask(impl.mask, e);
      if e == MAX_LOG {
        Pow2At29();
      }
      ok, rest := Rehash(Grown(impl.mask), draws);
    }

    /** ccmap_inc.  Counts are 32-bit, so the number of additions must stay below 2^32. */
    method Inc(hash: nat, draws: seq<nat>) returns (ok: bool, count: nat)
      requires Valid() && (impl.nUnique < impl.maxN || impl.mask + 1 < 0x2000_0000)
      requires |contents| + 1 < TWO32
      modifies this, impl, impl.buckets
      ensures Valid()
      ensures ok ==> contents == old(contents) + multiset{hash} && count == contents[hash] < TWO32
      ensures !ok ==> contents == old(contents)
    {
      count := 0;
      var rest := draws;
      if impl.nUnique >= impl.maxN {
        ok, rest := Expand(rest);
        if !ok { return; }
      }
      ok, count := TryInc(hash);
      while !ok
        invariant Valid()
        invariant impl == old(impl) || (fresh(impl) && fresh(impl.buckets))
        invariant !ok ==> contents == old(contents) && impl.nUnique < impl.maxN
        invariant ok ==> contents == old(contents) + multiset{hash} && count == contents[hash]
        decreases !ok, |rest|
      {
        ok, rest := Rehash(impl.mask, rest);
        if !ok { return; }
        ok, count := TryInc(hash);
      }
      CountAtMost(impl.view, contents, hash);
    }

    /** One round of ccmap_inc. */
    method TryInc(hash: nat) returns (ok: bool, count: nat)
      requires Valid() && impl.nUnique < impl.maxN
      modifies this`contents, impl, impl.buckets
      ensures Valid()
      ensures ok ==> contents == old(contents) + multiset{hash} && count == contents[hash]
      ensures !ok ==> contents == old(contents) && impl.nUnique == old(impl.nUnique)
    {
      count := impl.TryInc(hash, 1);
      ok := count > 0;
      if ok {
        CountsAdd(old(impl.view), contents, hash);
        contents := contents + multiset{hash};
        impl.n := impl.n + 1;
        if count == 1 {
          assert impl.view.Keys == old(impl.view.Keys) + {hash};
          impl.nUnique := impl.nUnique + 1;
        } else {
          assert impl.view.Keys == old(impl.view.Keys);
        }
      }
    }

    /** The shrinking at the end of ccmap_dec, when the array has become too empty. */
    method Shrink(draws: seq<nat>) returns (ok: bool)
      requires impl.Valid() && Counts(impl.view, contents) && impl.nUnique == |impl.view|
      requires exists e: nat :: e <= MAX_LOG && IsMask(impl.mask, e)
      requires impl.minN == Limit(impl.mask, CCMAP_K, MIN_LOAD) && impl.nUnique < impl.minN
      modifies this`impl
      ensures impl.Valid() && impl.view == old(impl.view)
      ensures impl.n == old(impl.n) && impl.nUnique == old(impl.nUnique)
      ensures !ok ==> impl == old(impl)
      ensures ok ==> fresh(impl) && fresh(impl.buckets) && impl.nUnique < impl.maxN
      ensures ok ==> exists e: nat :: e <= MAX_LOG && IsMask(impl.mask, e)
      ensures ok ==> impl.maxN == Limit(impl.mask, CCMAP_K, MAX_LOAD) && impl.minN == Limit(impl.mask, CCMAP_K, MIN_LOAD)
    {
      ghost var e: nat :| e <= MAX_LOG && IsMask(impl.mask, e);
      ShrunkMask(impl.mask, e);
      ShrinkFits(impl.mask, e, CCMAP_K, impl.nUnique);
      var shrunk, rest := Rehash(impl.mask / 2, draws);
      ok := shrunk;
    }

    /** ccmap_dec.  `ok` is false if a map that should shrink could not, for lack of
        draws; the decrement is done all the same. */
    method Dec(hash: nat, draws: seq<nat>) returns (ok: bool, count: nat)
      requires Valid() && hash in contents
      modifies this, impl, impl.buckets
      ensures Valid()
      ensures contents == old(contents) - multiset{hash} && count == contents[hash]
    {
      assert hash in impl.view;
      count := RemoveOne(hash);
      ok := true;
      if count == 0 && impl.nUnique < impl.minN {
        ok := Shrink(draws);
      }
      impl.n := impl.n - 1;
    }

    /** ccmap_dec up to the update of n_unique; n still counts the removed hash. */
    method RemoveOne(hash: nat) returns (count: nat)
      requires Valid() && hash in contents
      modifies this`contents, impl`view, impl`nUnique, impl.buckets
      ensures impl.Valid() && Counts(impl.view, contents)
      ensures contents == old(contents) - multiset{hash} && count == contents[hash]
      ensures impl.nUnique == |impl.view| <= old(impl.nUnique)
    {
      count := impl.DecCount(hash);
      CountsRemove(impl.P(), old(impl.view), contents, hash);
      contents := contents - multiset{hash};
      if count == 0 {
        assert impl.view.Keys == old(impl.view.Keys) - {hash};
        impl.nUnique := impl.nUnique - 1;
      } else {
        assert impl.view.Keys == old(impl.view.Keys);
      }
    }
  }
}
