/** The concurrent cuckoo hash map of lib/cmap.c, seen by its single writer.

    A slot carries the chain of nodes that share one client hash.  Every operation is
    proved to act on the map from hash to chain, and to keep the element count exact;
    its writes are of the two forms whose interleaving with readers is treated in
    CmapReaders.  Random hash bases are supplied by the caller as a finite sequence of
    draws: an operation whose rehashing runs out of draws reports so and leaves the
    map's contents unchanged.
  */
module Cmap {
  import opened CuckooTable
  import opened CuckooSearch
  import opened CuckooTransfer
  import opened HashLoad
  import opened CmapReaders

  type Node = nat
  type Chain = seq<Node>

  /** The positions of the nodes in the map, one per node. */
  ghost function Cells(view: map<nat, Chain>): set<(nat, nat)> {
    set h, i | h in view && 0 <= i < |view[h]| :: (h, i)
  }

  lemma CellsGrow(view: map<nat, Chain>, hash: nat, chain: Chain)
    requires |chain| == 1 + if hash in view then |view[hash]| else 0
    ensures |Cells(view[hash := chain])| == |Cells(view)| + 1
  {
    var view' := view[hash := chain];
    var cell := (hash, |chain| - 1);
    assert cell !in Cells(view);
    forall x | x in Cells(view')
      ensures x in Cells(view) + {cell}
    {
      assert x.0 == hash ==> x.1 == |chain| - 1 || x.1 < |view[hash]|;
    }
    assert Cells(view') == Cells(view) + {cell};
  }

  lemma CellsSame(view: map<nat, Chain>, hash: nat, chain: Chain)
    requires hash in view && |chain| == |view[hash]|
    ensures |Cells(view[hash := chain])| == |Cells(view)|
  {
    assert Cells(view[hash := chain]) == Cells(view);
  }

  lemma CellsShrink(view: map<nat, Chain>, hash: nat, chain: Chain)
    requires hash in view && |chain| + 1 == |view[hash]|
    ensures |Cells(view[hash := chain])| + 1 == |Cells(view)|
    ensures chain == [] ==> |Cells(view - {hash})| + 1 == |Cells(view)|
  {
    assert Cells(view) == Cells(view[hash := chain]) + {(hash, |chain|)};
    if chain == [] {
      assert Cells(view - {hash}) == Cells(view[hash := chain]);
    }
  }

  /** One operation of the writer on a settled array: a single pointer store, or a
      displacement along a path. */
  ghost predicate Writes(p: Params<Chain>, t: Table<Chain>, view: map<nat, Chain>,
                         t': Table<Chain>, view': map<nat, Chain>)
  {
    || (exists b: nat, i: nat, v: Chain ::
          && CanStore(p, t, view, b, i)
          && t' == Put(t, b, i, Slot(t[b][i].hash, v)) && view' == Stored(p, view, t[b][i].hash, v))
    || (exists bs: seq<nat>, ss: seq<nat>, s: Slot<Chain> ::
          && CanDisplace(p, t, view, bs, ss, s) && InBounds(t, bs, ss)
          && t' == Moved(t, bs, ss, s, 0) && view' == view[s.hash := s.val])
  }

  lemma StoreWrites(p: Params<Chain>, t: Table<Chain>, view: map<nat, Chain>, b: nat, i: nat, v: Chain)
    requires CanStore(p, t, view, b, i)
    ensures var t', view' := Put(t, b, i, Slot(t[b][i].hash, v)), Stored(p, view, t[b][i].hash, v);
      Settled(p, t', view') && Writes(p, t, view, t', view')
  {
    StoreSettled(p, t, view, b, i, v);
  }

  lemma DisplaceWrites(p: Params<Chain>, t: Table<Chain>, view: map<nat, Chain>,
                       bs: seq<nat>, ss: seq<nat>, s: Slot<Chain>)
    requires CanDisplace(p, t, view, bs, ss, s)
    ensures InBounds(t, bs, ss)
    ensures var t', view' := Moved(t, bs, ss, s, 0), view[s.hash := s.val];
      Settled(p, t', view') && Writes(p, t, view, t', view')
  {
    DisplacedSettled(p, t, view, bs, ss, s);
  }

  lemma StoreIsStores(im: CmapReaders.Impl<Chain>, b: nat, i: nat, v: Chain)
    returns (trace: seq<(CmapReaders.Impl<Chain>, Writer<Chain>)>, im': CmapReaders.Impl<Chain>)
    requires AtRest(im) && CanStore(im.p, im.slots, im.view, b, i)
    ensures Stores(trace, im, Idle, im', Idle) && im'.p == im.p
    ensures im'.slots == Put(im.slots, b, i, Slot(im.slots[b][i].hash, v))
    ensures im'.view == Stored(im.p, im.view, im.slots[b][i].hash, v)
  {
    im' := StoreTo(im, b, i, v);
    trace := [(im, Idle), (im', Idle)];
    assert im'.slots[b][i].val == v;
    assert StoreStep(im, Idle, im', Idle);
  }

  lemma DisplaceIsStores(im: CmapReaders.Impl<Chain>, bs: seq<nat>, ss: seq<nat>, s: Slot<Chain>)
    returns (trace: seq<(CmapReaders.Impl<Chain>, Writer<Chain>)>, im': CmapReaders.Impl<Chain>)
    requires AtRest(im) && CanDisplace(im.p, im.slots, im.view, bs, ss, s) && InBounds(im.slots, bs, ss)
    ensures Stores(trace, im, Idle, im', Idle) && im'.p == im.p
    ensures im'.slots == Moved(im.slots, bs, ss, s, 0) && im'.view == im.view[s.hash := s.val]
  {
    var w := Moving(Plan(im.slots, bs, ss, s), |bs| - 1, Ready);
    WriterStepOK(im, Idle, im, w);
    var rest;
    rest, im' := MoveCompletes(im, w);
    StoresCons(im, Idle, im, w, rest, im', Idle);
    trace := [(im, Idle)] + rest;
  }

  /** What an operation writes is a sequence of the stores that interleave with readers. */
  lemma WritesAreStores(im: CmapReaders.Impl<Chain>, t': Table<Chain>, view': map<nat, Chain>)
    returns (trace: seq<(CmapReaders.Impl<Chain>, Writer<Chain>)>, im': CmapReaders.Impl<Chain>)
    requires AtRest(im) && Writes(im.p, im.slots, im.view, t', view')
    ensures Stores(trace, im, Idle, im', Idle)
    ensures im'.p == im.p && im'.slots == t' && im'.view == view'
  {
    hide CanDisplace, AtRest, Stores, Moved;
    if b: nat, i: nat, v: Chain :|
      && CanStore(im.p, im.slots, im.view, b, i)
      && t' == Put(im.slots, b, i, Slot(im.slots[b][i].hash, v))
      && view' == Stored(im.p, im.view, im.slots[b][i].hash, v)
    {
      trace, im' := StoreIsStores(im, b, i, v);
    } else {
      var bs: seq<nat>, ss: seq<nat>, s: Slot<Chain> :|
        && CanDisplace(im.p, im.slots, im.view, bs, ss, s) && InBounds(im.slots, bs, ss)
        && t' == Moved(im.slots, bs, ss, s, 0) && view' == im.view[s.hash := s.val];
      trace, im' := DisplaceIsStores(im, bs, ss, s);
    }
  }

  /** The walk along a chain in cmap_replace__. */
  method Splice(chain: Chain, node: Node, replacement: Chain) returns (r: Chain)
    requires node in chain
    ensures r == Spliced(chain, node, replacement)
  {
    var pos := 0;
    while chain[pos] != node
      invariant 0 <= pos < |chain|
      invariant node in chain[pos..] && node !in chain[..pos]
      decreases |chain| - pos
    {
      assert chain[pos..] == [chain[pos]] + chain[pos + 1..];
      assert chain[..pos + 1] == chain[..pos] + [chain[pos]];
      pos := pos + 1;
    }
    SplicedAt(chain, node, replacement, pos);
    r := chain[..pos] + replacement + chain[pos + 1..];
  }

  class Impl {
    var n: nat
    const maxN: nat
    const minN: nat
    const mask: nat
    var basis: nat
    const finish: (nat, nat) -> nat
    const buckets: array<Bucket<Chain>>
    const counters: array<nat>
    ghost var view: map<nat, Chain>

    function P(): Params<Chain>
      reads this
    {
      Params(CMAP_K, mask, basis, finish, [])
    }

    ghost predicate Valid()
      reads this, buckets, counters
    {
      && counters.Length == buckets.Length
      && Settled(P(), buckets[..], view)
    }

    constructor (mask: nat, basis: nat, finish: (nat, nat) -> nat)
      ensures Valid() && view == map[] && n == 0 && fresh(buckets) && fresh(counters)
      ensures this.mask == mask && this.basis == basis && this.finish == finish
      ensures maxN == Limit(mask, CMAP_K, MAX_LOAD) && minN == Limit(mask, CMAP_K, MIN_LOAD)
    {
      this.n, this.mask, this.basis, this.finish := 0, mask, basis, finish;
      maxN, minN := Limit(mask, CMAP_K, MAX_LOAD), Limit(mask, CMAP_K, MIN_LOAD);
      var empty := seq(CMAP_K, i => Slot(0, []));
      buckets := new Bucket<Chain>[mask + 1](i => empty);
      counters := new nat[mask + 1](i => 0);
      view := map[];
    }

    /** The array used by a map that has never been written: no room at all. */
    constructor Empty(finish: (nat, nat) -> nat)
      ensures Valid() && view == map[] && n == 0 && fresh(buckets) && fresh(counters)
      ensures mask == 0 && maxN == 0 && minN == 0 && this.finish == finish
    {
      n, mask, basis, maxN, minN := 0, 0, 0, 0, 0;
      this.finish := finish;
      var empty := seq(CMAP_K, i => Slot(0, []));
      buckets := new Bucket<Chain>[1](i => empty);
      counters := new nat[1](i => 0);
      view := map[];
    }

    /** cmap_find_in_bucket. */
    method FindInBucket(b: nat, hash: nat) returns (chain: Chain)
      requires Valid() && b < buckets.Length
      ensures chain == FindIn(buckets[b], hash, [])
    {
      var i := 0;
      while i < CMAP_K
        invariant 0 <= i <= CMAP_K && FirstMatch(buckets[b], hash) >= i
      {
        if buckets[b][i].hash == hash {
          return buckets[b][i].val;
        }
        i := i + 1;
      }
      return [];
    }

    /** cmap_find, when nothing changes meanwhile. */
    method Find(hash: nat) returns (chain: Chain)
      requires Valid()
      ensures chain == ViewAt(P(), view, hash)
    {
      FindIsView(P(), buckets[..], view, hash);
      chain := FindInBucket(First(P(), hash), hash);
      if chain == [] {
        chain := FindInBucket(Second(P(), hash), hash);
      }
    }

    /** cmap_set_bucket. */
    method SetBucket(b: nat, i: nat, chain: Chain, hash: nat)
      requires counters.Length == buckets.Length && b < buckets.Length && i < |buckets[b]|
      modifies buckets, counters
      ensures buckets[..] == Put(old(buckets[..]), b, i, Slot(hash, chain))
      ensures counters[..] == old(counters[..])[b := old(counters[b]) + 2]
    {
      var c := counters[b];
      counters[b] := c + 1;
      buckets[b] := buckets[b][i := Slot(buckets[b][i].hash, chain)];
      buckets[b] := buckets[b][i := Slot(hash, buckets[b][i].val)];
      counters[b] := c + 2;
      assert buckets[b] == old(buckets[b])[i := Slot(hash, chain)];
    }

    /** Put a chain in front of the one in a slot that matches first. */
    method PrependAt(chain: Chain, hash: nat, b: nat, i: nat)
      requires Valid() && b < buckets.Length && chain != [] && i < CMAP_K && i == FirstMatch(buckets[b], hash)
      requires b == First(P(), hash) || (b == Second(P(), hash) && NoMatch(buckets[First(P(), hash)], hash))
      requires |buckets[b]| == CMAP_K && buckets[b][i].hash == hash
      modifies buckets, this`view
      ensures Valid()
      ensures view == old(view)[hash := chain + ViewAt(P(), old(view), hash)]
      ensures Writes(P(), old(buckets[..]), old(view), buckets[..], view)
    {
      MatchCanStore(P(), buckets[..], view, hash, b);
      StoreWrites(P(), buckets[..], view, b, i, chain + buckets[b][i].val);
      view := Stored(P(), view, hash, chain + buckets[b][i].val);
      buckets[b] := buckets[b][i := Slot(hash, chain + buckets[b][i].val)];
      assert buckets[..] == Put(old(buckets[..]), b, i, Slot(hash, chain + old(buckets[b])[i].val));
    }


    /** cmap_insert_dup: chain in front of an entry with the same hash, or reuse a slot
        that still has the hash. */
    method InsertDup(chain: Chain, hash: nat, b: nat) returns (ok: bool)
      requires Valid() && b < buckets.Length && chain != []
      requires b == First(P(), hash) || (b == Second(P(), hash) && NoMatch(buckets[First(P(), hash)], hash))
      modifies buckets, this`view
      ensures Valid()
      ensures ok == !NoMatch(old(buckets[b]), hash)
      ensures ok ==> view == old(view)[hash := chain + ViewAt(P(), old(view), hash)]
      ensures ok ==> Writes(P(), old(buckets[..]), old(view), buckets[..], view)
      ensures !ok ==> buckets[..] == old(buckets[..]) && view == old(view)
    {
      var i := 0;
      while i < CMAP_K
        invariant 0 <= i <= CMAP_K && FirstMatch(buckets[b], hash) >= i
        invariant buckets[..] == old(buckets[..]) && view == old(view)
      {
        if buckets[b][i].hash == hash {
          PrependAt(chain, hash, b, i);
          return true;
        }
        i := i + 1;
      }
      return false;
    }

    /** cmap_insert_bucket: take the first unused slot. */
    method InsertBucket(chain: Chain, hash: nat, b: nat) returns (ok: bool)
      requires Valid() && chain != [] && IsCandidate(P(), hash, b)
      requires NoMatch(buckets[First(P(), hash)], hash) && NoMatch(buckets[Second(P(), hash)], hash)
      modifies buckets, counters, this`view
      ensures Valid()
      ensures ok == !Full(old(buckets[b]), [])
      ensures ok ==> view == old(view)[hash := chain]
      ensures ok ==> Writes(P(), old(buckets[..]), old(view), buckets[..], view)
      ensures !ok ==> buckets[..] == old(buckets[..]) && view == old(view)
    {
      var i := 0;
      while i < CMAP_K
        invariant 0 <= i <= CMAP_K && FirstEmpty(buckets[b], []) >= i
        invariant buckets[..] == old(buckets[..]) && view == old(view)
      {
        if buckets[b][i].val == [] {
          AbsentFromView(P(), buckets[..], view, hash);
          EmptyCanDisplace(P(), buckets[..], view, Slot(hash, chain), b);
          DisplaceWrites(P(), buckets[..], view, [b], [i], Slot(hash, chain));
          view := view[hash := chain];
          SetBucket(b, i, chain, hash);
          return true;
        }
        i := i + 1;
      }
      return false;
    }

    /** The backward moves at the end of cmap_insert_bfs. */
    method Displace(bs: seq<nat>, ss: seq<nat>, chain: Chain, hash: nat)
      requires Valid() && CanDisplace(P(), buckets[..], view, bs, ss, Slot(hash, chain))
      modifies buckets, counters, this`view
      ensures Valid() && view == old(view)[hash := chain]
      ensures Writes(P(), old(buckets[..]), old(view), buckets[..], view)
    {
      ghost var t := buckets[..];
      ghost var s := Slot(hash, chain);
      DisplaceWrites(P(), t, view, bs, ss, s);
      PlanFacts(P(), t, view, bs, ss, s);
      MoveBackward(t, bs, ss, s);
      assert |buckets[bs[0]]| == |buckets[..][bs[0]]|;
      view := view[hash := chain];
      SetBucket(bs[0], ss[0], chain, hash);
    }

    method MoveBackward(ghost t: Table<Chain>, bs: seq<nat>, ss: seq<nat>, ghost s: Slot<Chain>)
      requires counters.Length == buckets.Length && buckets[..] == t
      requires InBounds(t, bs, ss) && Distinct(bs)
      modifies buckets, counters
      ensures buckets[..] == Moved(t, bs, ss, s, 1)
    {
      var k := |bs| - 1;
      while k > 0
        invariant 0 <= k < |bs|
        invariant buckets[..] == Moved(t, bs, ss, s, k + 1)
      {
        MovedAt(t, bs, ss, s, k + 1, k - 1);
        assert buckets[bs[k - 1]] == buckets[..][bs[k - 1]];
        assert |buckets[bs[k]]| == |buckets[..][bs[k]]|;
        var e := buckets[bs[k - 1]][ss[k - 1]];
        SetBucket(bs[k], ss[k], e.val, e.hash);
        k := k - 1;
      }
    }

    /** cmap_try_insert. */
    method TryInsert(chain: Chain, hash: nat) returns (ok: bool)
      requires Valid() && chain != []
      modifies buckets, counters, this`view
      ensures Valid()
      ensures ok ==> view == old(view)[hash := chain + ViewAt(P(), old(view), hash)]
      ensures ok ==> Writes(P(), old(buckets[..]), old(view), buckets[..], view)
      ensures !ok ==> buckets[..] == old(buckets[..]) && view == old(view)
    {
      var b1, b2 := First(P(), hash), Second(P(), hash);
      ok := InsertDup(chain, hash, b1);
      if ok { return; }
      ok := InsertDup(chain, hash, b2);
      if ok { return; }
      AbsentFromView(P(), buckets[..], view, hash);
      assert chain + [] == chain;
      ok := InsertBucket(chain, hash, b1);
      if ok { return; }
      ok := InsertBucket(chain, hash, b2);
      if ok { return; }
      var found, bs, ss, _ := FindPath(P(), buckets[..], hash);
      if !found { return false; }
      PathCanDisplace(P(), buckets[..], view, Slot(hash, chain), bs, ss);
      Displace(bs, ss, chain, hash);
      ok := true;
    }

    /** cmap_find_slot_protected: the first live slot with `hash`. */
    method FindSlot(b: nat, hash: nat) returns (i: nat)
      requires Valid() && b < buckets.Length
      ensures i <= CMAP_K
      ensures i < CMAP_K ==> buckets[b][i].hash == hash && buckets[b][i].val != []
      ensures forall j :: 0 <= j < i ==> buckets[b][j].hash != hash || buckets[b][j].val == []
    {
      i := 0;
      while i < CMAP_K
        invariant 0 <= i <= CMAP_K
        invariant forall j :: 0 <= j < i ==> buckets[b][j].hash != hash || buckets[b][j].val == []
      {
        if buckets[b][i].hash == hash && buckets[b][i].val != [] {
          return;
        }
        i := i + 1;
      }
    }

    /** cmap_replace__: `replacement` is empty or a single node. */
    method ReplaceIn(node: Node, replacement: Chain, hash: nat, b: nat) returns (ok: bool)
      requires Valid() && IsCandidate(P(), hash, b)
      requires hash in view && node in view[hash]
      modifies buckets, this`view
      ensures Valid()
      ensures ok ==> view == Stored(P(), old(view), hash, Spliced(old(view)[hash], node, replacement))
      ensures ok ==> Writes(P(), old(buckets[..]), old(view), buckets[..], view)
      ensures !ok ==> buckets[..] == old(buckets[..]) && view == old(view)
      ensures !ok ==> forall i :: 0 <= i < CMAP_K ==> !(buckets[b][i].hash == hash && buckets[b][i].val != [])
    {
      var slot := FindSlot(b, hash);
      if slot == CMAP_K {
        return false;
      }
      LiveCanStore(P(), buckets[..], view, b, slot);
      var chain := buckets[b][slot].val;
      var chain' := Splice(chain, node, replacement);
      StoreWrites(P(), buckets[..], view, b, slot, chain');
      view := Stored(P(), view, hash, chain');
      buckets[b] := buckets[b][slot := Slot(hash, chain')];
      assert buckets[..] == Put(old(buckets[..]), b, slot, Slot(hash, chain'));
      return true;
    }
  }

  /** `chain` with the first occurrence of `node` replaced. */
  function Spliced(chain: Chain, node: Node, replacement: Chain): (r: Chain)
    requires node in chain
    ensures |r| == |chain| - 1 + |replacement|
  {
    if chain[0] == node then replacement + chain[1..]
    else [chain[0]] + Spliced(chain[1..], node, replacement)
  }

  lemma {:induction false} SplicedAt(chain: Chain, node: Node, replacement: Chain, pos: nat)
    requires pos < |chain| && chain[pos] == node && node !in chain[..pos]
    ensures Spliced(chain, node, replacement) == chain[..pos] + replacement + chain[pos + 1..]
  {
    if pos > 0 {
      assert chain[0] in chain[..pos];
      assert chain[1..][..pos - 1] == chain[1..pos];
      forall x | x in chain[1..pos]
        ensures x in chain[..pos]
      {
      }
      SplicedAt(chain[1..], node, replacement, pos - 1);
      assert chain[1..][pos..] == chain[pos + 1..];
    }
  }

  // Rehashing.

  method RehashSlot(s: Slot<Chain>, into: Impl, ghost p: Params<Chain>, ghost t: Table<Chain>,
                    ghost view: map<nat, Chain>, ghost b: nat, ghost i: nat) returns (ok: bool)
    requires Settled(p, t, view) && b < |t| && i < p.k && p.nil == [] && s == t[b][i]
    requires into.Valid() && Partial(p, t, view, into.view, b, i)
    modifies into.buckets, into.counters, into`view
    ensures into.Valid()
    ensures ok ==> Partial(p, t, view, into.view, b, i + 1)
  {
    hide Partial;
    TransferOne(p, t, view, into.view, b, i);
    ok := true;
    if s.val != [] {
      ok := into.TryInsert(s.val, s.hash);
      assert s.val + [] == s.val;
    }
  }

  /** The inner loop of cmap_try_rehash. */
  method RehashBucket(bucket: Bucket<Chain>, into: Impl, ghost p: Params<Chain>, ghost t: Table<Chain>,
                      ghost view: map<nat, Chain>, ghost b: nat) returns (ok: bool)
    requires Settled(p, t, view) && b < |t| && bucket == t[b] && p.k == CMAP_K && p.nil == []
    requires into.Valid() && Partial(p, t, view, into.view, b, 0)
    modifies into.buckets, into.counters, into`view
    ensures into.Valid()
    ensures ok ==> Partial(p, t, view, into.view, b + 1, 0)
  {
    assert |bucket| == CMAP_K && Shape(p, t);
    hide Partial, Settled;
    var i := 0;
    while i < CMAP_K
      invariant 0 <= i <= CMAP_K
      invariant into.Valid() && Partial(p, t, view, into.view, b, i)
    {
      ok := RehashSlot(bucket[i], into, p, t, view, b, i);
      if !ok {
        return;
      }
      i := i + 1;
    }
    TransferBucket(p, t, view, into.view, b);
    ok := true;
  }

  /** cmap_try_rehash: every chain of `from` is inserted into the empty array `into`. */
  method TryRehash(from: Impl, into: Impl) returns (ok: bool)
    requires from.Valid() && into.Valid() && into.view == map[]
    requires from != into && from.buckets != into.buckets && from.counters != into.counters
    modifies into.buckets, into.counters, into`view
    ensures into.Valid()
    ensures ok ==> into.view == from.view
  {
    ghost var p, t, view := from.P(), from.buckets[..], from.view;
    TransferNone(p, t, view);
    var b := 0;
    while b < from.buckets.Length
      invariant 0 <= b <= from.buckets.Length
      invariant from.buckets[..] == t
      invariant into.Valid() && Partial(p, t, view, into.view, b, 0)
    {
      assert from.buckets[b] == t[b];
      ok := RehashBucket(from.buckets[b], into, p, t, view, b);
      if !ok {
        return;
      }
      b := b + 1;
    }
    TransferAll(p, t, view, into.view);
    ok := true;
  }

  /** struct cmap: a pointer to the current array. */
  class ConcurrentMap {
    var impl: Impl

    ghost function Contents(): map<nat, Chain>
      reads this, impl
    {
      impl.view
    }

    ghost predicate Valid()
      reads this, impl, impl.buckets, impl.counters
    {
      && impl.Valid()
      && impl.n == |Cells(impl.view)| && impl.n <= impl.maxN
      && (exists e: nat :: e <= MAX_LOG && IsMask(impl.mask, e))
      && (|| (impl.maxN == Limit(impl.mask, CMAP_K, MAX_LOAD) && impl.minN == Limit(impl.mask, CMAP_K, MIN_LOAD))
          || (impl.mask == 0 && impl.maxN == 0 && impl.minN == 0))
    }

    constructor (finish: (nat, nat) -> nat)
      ensures Valid() && Contents() == map[]
      ensures fresh(impl) && fresh(impl.buckets) && fresh(impl.counters)
    {
      impl := new Impl.Empty(finish);
      new;
      assert IsMask(impl.mask, 0);
      assert Cells(map[]) == {};
    }

    /** cmap_count. */
    method Count() returns (n: nat)
      requires Valid()
      ensures n == |Cells(Contents())|
    {
      n := impl.n;
    }

    /** cmap_rehash.  Fails only when `draws` has no base under which the search
        succeeds for every chain. */
    method Rehash(mask: nat, draws: seq<nat>) returns (ok: bool, rest: seq<nat>)
      requires Valid() && (exists e: nat :: e <= MAX_LOG && IsMask(mask, e))
      requires impl.n < Limit(mask, CMAP_K, MAX_LOAD)
      modifies this
      ensures Valid() && Contents() == old(Contents())
      ensures ok ==> |rest| < |draws| && fresh(impl) && fresh(impl.buckets) && fresh(impl.counters)
      ensures ok ==> impl.mask == mask && impl.n < impl.maxN && impl.maxN == Limit(mask, CMAP_K, MAX_LOAD)
      ensures !ok ==> impl == old(impl)
    {
      rest := draws;
      while rest != []
        invariant impl == old(impl) && Valid() && impl.view == old(impl.view) && impl.n == old(impl.n)
        invariant |rest| <= |draws|
        decreases |rest|
      {
        var fresh' := new Impl(mask, rest[0], impl.finish);
        rest := rest[1..];
        var done := TryRehash(impl, fresh');
        if done {
          fresh'.n := impl.n;
          impl := fresh';
          return true, rest;
        }
      }
      ok := false;
    }

    /** cmap_find, when nothing changes meanwhile. */
    method Find(hash: nat) returns (chain: Chain)
      requires Valid()
      ensures hash in Contents() ==> chain == Contents()[hash] && chain != []
      ensures hash !in Contents() ==> chain == []
    {
      chain := impl.Find(hash);
    }

    /** The expansion at the start of cmap_insert.  The source's own assertion demands
        fewer than 2^29 buckets (GrowthFitsExactly). */
    method Expand(draws: seq<nat>) returns (ok: bool, rest: seq<nat>)
      requires Valid() && impl.n >= impl.maxN && impl.mask + 1 < 0x2000_0000
      modifies this
      ensures Valid() && Contents() == old(Contents())
      ensures ok ==> |rest| < |draws| && fresh(impl) && fresh(impl.buckets) && fresh(impl.counters)
      ensures ok ==> impl.n < impl.maxN
      ensures !ok ==> impl == old(impl)
    {
      ghost var e: nat :| e <= MAX_LOG && IsMask(impl.mask, e);
      ExpansionFits(impl.mask, e);
      FirstGrowthFits(CMAP_K);
      ok, rest := Rehash(Grown(impl.mask), draws);
    }

    /** cmap_insert. */
    method Insert(node: Node, hash: nat, draws: seq<nat>) returns (ok: bool, count: nat)
      requires Valid() && (impl.n < impl.maxN || impl.mask + 1 < 0x2000_0000)
      modifies this, impl, impl.buckets, impl.counters
      ensures Valid()
      ensures ok ==> Contents() == old(Contents())[hash := [node] + ChainAt(old(Contents()), hash)]
      ensures ok ==> count == |Cells(Contents())| == |Cells(old(Contents()))| + 1
      ensures !ok ==> Contents() == old(Contents())
    {
      count := impl.n;
      var rest := draws;
      if impl.n >= impl.maxN {
        ok, rest := Expand(rest);
        if !ok { return; }
      }
      ok := TryInsert(node, hash);
      while !ok
        invariant Valid() && impl.n < impl.maxN + if ok then 1 else 0
        invariant impl == old(impl) || (fresh(impl) && fresh(impl.buckets) && fresh(impl.counters))
        invariant !ok ==> Contents() == old(Contents()) && |rest| <= |draws|
        invariant ok ==> Contents() == old(Contents())[hash := [node] + ChainAt(old(Contents()), hash)]
        decreases !ok, |rest|
      {
        ok, rest := Rehash(impl.mask, rest);
        if !ok { return; }
        ok := TryInsert(node, hash);
      }
      CellsGrow(old(Contents()), hash, [node] + ChainAt(old(Contents()), hash));
      count := impl.n;
    }

    /** One round of cmap_insert: cmap_try_insert, then the increment of n. */
    method TryInsert(node: Node, hash: nat) returns (ok: bool)
      requires Valid() && impl.n < impl.maxN
      modifies impl, impl.buckets, impl.counters
      ensures Valid()
      ensures ok ==> Contents() == old(Contents())[hash := [node] + ChainAt(old(Contents()), hash)]
      ensures ok ==> impl.n == old(impl.n) + 1
      ensures !ok ==> Contents() == old(Contents()) && impl.n == old(impl.n)
    {
      ok := impl.TryInsert([node], hash);
      if ok {
        CellsGrow(old(Contents()), hash, [node] + ChainAt(old(Contents()), hash));
        impl.n := impl.n + 1;
      }
    }

    /** The two calls of cmap_replace__; the assertion that one succeeds never fires. */
    method ReplaceNode(node: Node, replacement: Chain, hash: nat)
      requires Valid() && hash in Contents() && node in Contents()[hash] && |replacement| <= 1
      modifies impl`view, impl.buckets
      ensures impl.Valid() && impl.n == old(impl.n)
      ensures Contents() == Replaced(old(Contents()), hash, node, replacement)
    {
      var p := impl.P();
      ghost var b, i := HomeOf(p, impl.buckets[..], impl.view, hash);
      assert impl.buckets[b][i] == impl.buckets[..][b][i];
      var ok := impl.ReplaceIn(node, replacement, hash, First(p, hash));
      if !ok {
        ok := impl.ReplaceIn(node, replacement, hash, Second(p, hash));
      }
      assert ok;
    }

    /** cmap_replace; with an empty `replacement`, cmap_remove.  `ok` is false if a map
        that should shrink could not, for lack of draws; the removal is done all the same. */
    method Replace(node: Node, replacement: Chain, hash: nat, draws: seq<nat>) returns (ok: bool, count: nat)
      requires Valid() && hash in Contents() && node in Contents()[hash] && |replacement| <= 1
      modifies this, impl, impl.buckets, impl.counters
      ensures Valid()
      ensures Contents() == Replaced(old(Contents()), hash, node, replacement)
      ensures count == |Cells(Contents())| == |Cells(old(Contents()))| - 1 + |replacement|
      ensures ok && impl == old(impl) ==> impl.n >= impl.minN || replacement != []
    {
      ok := true;
      ReplaceNode(node, replacement, hash);
      ReplacedCount(old(Contents()), hash, node, replacement);
      if replacement == [] {
        impl.n := impl.n - 1;
        if impl.n < impl.minN {
          ghost var e: nat :| e <= MAX_LOG && IsMask(impl.mask, e);
          ShrunkMask(impl.mask, e);
          ShrinkFits(impl.mask, e, CMAP_K, impl.n);
          var shrunk, rest := Rehash(impl.mask / 2, draws);
          ok := shrunk;
        }
      }
      count := impl.n;
    }
  }

  /** The map after one node of a chain is replaced or, with nothing, removed. */
  ghost function Replaced(view: map<nat, Chain>, hash: nat, node: Node, replacement: Chain): map<nat, Chain>
    requires hash in view && node in view[hash]
  {
    var chain := Spliced(view[hash], node, replacement);
    if chain == [] then view - {hash} else view[hash := chain]
  }

  lemma ReplacedCount(view: map<nat, Chain>, hash: nat, node: Node, replacement: Chain)
    requires hash in view && node in view[hash] && |replacement| <= 1
    ensures |Cells(Replaced(view, hash, node, replacement))| == |Cells(view)| - 1 + |replacement|
  {
    var chain := Spliced(view[hash], node, replacement);
    if replacement == [] {
      CellsShrink(view, hash, chain);
    } else {
      CellsSame(view, hash, chain);
    }
  }

  ghost function ChainAt(view: map<nat, Chain>, hash: nat): Chain {
    if hash in view then view[hash] else []
  }

  lemma ExpansionFits(mask: nat, e: nat)
    requires e <= MAX_LOG && IsMask(mask, e) && mask + 1 < 0x2000_0000
    ensures IsMask(Grown(mask), e + 1) && e + 1 <= MAX_LOG
    ensures Limit(mask, CMAP_K, MAX_LOAD) < Limit(Grown(mask), CMAP_K, MAX_LOAD)
  {
    GrowthFitsExactly(mask, e, CMAP_K);
    GrownMask(mask, e);
    if e == MAX_LOG {
      Pow2At29();
    }
  }
}
