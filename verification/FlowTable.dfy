/** The kernel flow table (datapath/flow_table.c): flows hashed by masked key and by unique
    identifier, an array of reference-counted masks, and a cache that remembers for a packet
    hash which mask is likely to match.  A key is the set of positions of its 1-bits. */
module FlowTable {

  import opened Options

  const MASK_ARRAY_SIZE_MIN: nat := 16
  const TBL_MIN_BUCKETS: nat := 1024
  const MC_HASH_ENTRIES: nat := 256
  const MC_HASH_SEGS: nat := 4

  type Key = set<nat>

  /** The bits of a key to match, of which only those from `start` up to `end` count. */
  datatype MaskDef = MaskDef(bits: Key, start: nat, end: nat)

  /** A mask in use. */
  datatype Mask = Mask(def: MaskDef, refs: nat)

  /** A flow.  `mask` stands for the pointer to its mask. */
  datatype Flow = Flow(id: nat, key: Key, mask: nat, hash: nat, ufid: Option<seq<nat>>, ufidHash: nat)

  /** A hash table of flows, by the hash of their masked keys or of their identifiers. */
  datatype Instance = Instance(seed: nat, buckets: seq<seq<Flow>>)

  datatype Hashes = Hashes(key: (Key, nat, nat) -> nat, ufid: seq<nat> -> nat, spread: (nat, nat) -> nat)

  // Masks and keys

  function Cut(s: Key, m: MaskDef): Key {
    set b | b in s && m.start <= b < m.end
  }

  function Masked(key: Key, m: MaskDef): Key {
    Cut(key * m.bits, m)
  }

  /** mask_equal. */
  predicate MaskEqual(a: MaskDef, b: MaskDef) {
    a.start == b.start && a.end == b.end && Cut(a.bits, a) == Cut(b.bits, b)
  }

  /** Equal masks match the same keys. */
  lemma EqualMasksMatchAlike(a: MaskDef, b: MaskDef, key: Key)
    requires MaskEqual(a, b)
    ensures Masked(key, a) == Masked(key, b)
  {
    assert Masked(key, a) == key * Cut(a.bits, a);
    assert Masked(key, b) == key * Cut(b.bits, b);
  }

  predicate Matches(f: Flow, m: MaskDef, key: Key) {
    Cut(f.key, m) == Masked(key, m)
  }

  function KeyHash(h: Hashes, key: Key, m: MaskDef): nat {
    (h.key)(Cut(key, m), m.start, m.end)
  }

  lemma MaskedIsCut(key: Key, m: MaskDef)
    ensures Cut(Masked(key, m), m) == Masked(key, m)
  {
  }

  // Hash table instances

  function HashOf(f: Flow, ufid: bool): nat {
    if ufid then f.ufidHash else f.hash
  }

  function Slot(h: Hashes, ti: Instance, hash: nat): (n: nat)
    requires ti.buckets != []
    ensures n < |ti.buckets|
  {
    (h.spread)(hash, ti.seed) % |ti.buckets|
  }

  function Contents(buckets: seq<seq<Flow>>): multiset<Flow> {
    if buckets == [] then multiset{}
    else Contents(buckets[..|buckets| - 1]) + multiset(buckets[|buckets| - 1])
  }

  /** Every flow is in the bucket of its hash. */
  ghost predicate Placed(h: Hashes, ti: Instance, ufid: bool) {
    ti.buckets != [] && forall b, f :: 0 <= b < |ti.buckets| && f in ti.buckets[b] ==> b == Slot(h, ti, HashOf(f, ufid))
  }

  lemma {:induction false} ContentsUpdate(buckets: seq<seq<Flow>>, i: nat, bucket: seq<Flow>)
    requires i < |buckets|
    ensures multiset(buckets[i]) <= Contents(buckets)
    ensures Contents(buckets[i := bucket]) == Contents(buckets) - multiset(buckets[i]) + multiset(bucket)
  {
    var n := |buckets| - 1;
    if i == n {
      assert buckets[i := bucket][..n] == buckets[..n];
    } else {
      ContentsUpdate(buckets[..n], i, bucket);
      assert buckets[i := bucket][..n] == buckets[..n][i := bucket];
    }
  }

  lemma {:induction false} ContentsMember(buckets: seq<seq<Flow>>, f: Flow)
    ensures f in Contents(buckets) <==> exists b :: 0 <= b < |buckets| && f in buckets[b]
  {
    if buckets != [] {
      var n := |buckets| - 1;
      ContentsMember(buckets[..n], f);
      if f in Contents(buckets[..n]) {
        var b :| 0 <= b < n && f in buckets[..n][b];
        assert f in buckets[b];
      }
      if b :| 0 <= b < |buckets| && f in buckets[b] {
        assert b < n ==> f in buckets[..n][b];
      }
    }
  }

  lemma {:induction false} EmptyContents(buckets: seq<seq<Flow>>)
    requires forall b :: 0 <= b < |buckets| ==> buckets[b] == []
    ensures Contents(buckets) == multiset{}
  {
    if buckets != [] {
      EmptyContents(buckets[..|buckets| - 1]);
    }
  }

  lemma BucketSwap(h: Hashes, ti: Instance, b: nat, bucket: seq<Flow>, ufid: bool)
    requires Placed(h, ti, ufid) && b < |ti.buckets|
    requires forall f :: f in bucket ==> Slot(h, ti, HashOf(f, ufid)) == b
    ensures Placed(h, ti.(buckets := ti.buckets[b := bucket]), ufid)
  {
  }

  lemma Grown(all: multiset<Flow>, bucket: seq<Flow>, f: Flow)
    requires multiset(bucket) <= all
    ensures all - multiset(bucket) + multiset([f] + bucket) == all + multiset{f}
  {
  }

  lemma Shrunk(all: multiset<Flow>, bucket: seq<Flow>, i: nat)
    requires multiset(bucket) <= all && i < |bucket|
    ensures all - multiset(bucket) + multiset(bucket[..i] + bucket[i + 1..]) == all - multiset{bucket[i]}
  {
    assert bucket == bucket[..i] + [bucket[i]] + bucket[i + 1..];
  }

  /** table_instance_insert and ufid_table_instance_insert. */
  method InsertFlow(h: Hashes, ti: Instance, f: Flow, ufid: bool) returns (ti': Instance)
    requires Placed(h, ti, ufid)
    ensures Placed(h, ti', ufid) && ti'.seed == ti.seed && |ti'.buckets| == |ti.buckets|
    ensures Contents(ti'.buckets) == Contents(ti.buckets) + multiset{f}
  {
    hide Contents;
    var b := Slot(h, ti, HashOf(f, ufid));
    var bucket := [f] + ti.buckets[b];
    ContentsUpdate(ti.buckets, b, bucket);
    Grown(Contents(ti.buckets), ti.buckets[b], f);
    BucketSwap(h, ti, b, bucket, ufid);
    hide Placed;
    ti' := ti.(buckets := ti.buckets[b := bucket]);
  }

  method IndexOf(bucket: seq<Flow>, f: Flow) returns (i: nat)
    requires f in bucket
    ensures i < |bucket| && bucket[i] == f
  {
    i := 0;
    while bucket[i] != f
      invariant i < |bucket| && f in bucket[i..]
      decreases |bucket| - i
    {
      i := i + 1;
    }
  }

  /** hlist_del_rcu of a flow that is in the table. */
  method DeleteFlow(h: Hashes, ti: Instance, f: Flow, ufid: bool) returns (ti': Instance)
    requires Placed(h, ti, ufid) && f in Contents(ti.buckets)
    ensures Placed(h, ti', ufid) && ti'.seed == ti.seed && |ti'.buckets| == |ti.buckets|
    ensures Contents(ti'.buckets) == Contents(ti.buckets) - multiset{f}
  {
    hide Contents;
    InItsBucket(h, ti, f, ufid);
    var b := Slot(h, ti, HashOf(f, ufid));
    var before := ti.buckets[b];
    var i := IndexOf(before, f);
    var bucket := before[..i] + before[i + 1..];
    ContentsUpdate(ti.buckets, b, bucket);
    Shrunk(Contents(ti.buckets), before, i);
    BucketSwap(h, ti, b, bucket, ufid);
    hide Placed;
    ti' := ti.(buckets := ti.buckets[b := bucket]);
  }

  method CopyBucket(h: Hashes, ti: Instance, bucket: seq<Flow>, ufid: bool) returns (ti': Instance)
    requires Placed(h, ti, ufid)
    ensures Placed(h, ti', ufid) && |ti'.buckets| == |ti.buckets|
    ensures Contents(ti'.buckets) == Contents(ti.buckets) + multiset(bucket)
  {
    hide Placed, Contents;
    ti' := ti;
    for i := 0 to |bucket|
      invariant Placed(h, ti', ufid) && |ti'.buckets| == |ti.buckets|
      invariant Contents(ti'.buckets) == Contents(ti.buckets) + multiset(bucket[..i])
    {
      assert bucket[..i + 1] == bucket[..i] + [bucket[i]];
      ti' := InsertFlow(h, ti', bucket[i], ufid);
    }
    assert bucket[..|bucket|] == bucket;
  }

  /** table_instance_rehash: a new instance with the same flows. */
  method Rehash(h: Hashes, ti: Instance, size: nat, seed: nat, ufid: bool) returns (ti': Instance)
    requires size > 0
    ensures Placed(h, ti', ufid) && |ti'.buckets| == size
    ensures Contents(ti'.buckets) == Contents(ti.buckets)
  {
    ti' := Instance(seed, seq(size, i => []));
    EmptyContents(ti'.buckets);
    assert Placed(h, ti', ufid);
    hide Placed;
    for b := 0 to |ti.buckets|
      invariant Placed(h, ti', ufid) && |ti'.buckets| == size
      invariant Contents(ti'.buckets) == Contents(ti.buckets[..b])
    {
      ti' := CopyBucket(h, ti', ti.buckets[b], ufid);
      assert ti.buckets[..b + 1][..b] == ti.buckets[..b];
    }
    assert ti.buckets[..|ti.buckets|] == ti.buckets;
  }

  // The mask array

  type Slots = seq<Option<nat>>

  /** The masks in an array, in order. */
  function Compact(masks: Slots): seq<nat> {
    if masks == [] then []
    else
      var n := |masks| - 1;
      Compact(masks[..n]) + if masks[n].Some? then [masks[n].value] else []
  }

  lemma {:induction false} CompactMember(masks: Slots, m: nat)
    ensures m in Compact(masks) <==> Some(m) in masks
  {
    if masks != [] {
      var n := |masks| - 1;
      CompactMember(masks[..n], m);
      assert masks == masks[..n] + [masks[n]];
    }
  }

  lemma {:induction false} CompactLength(masks: Slots)
    ensures |Compact(masks)| <= |masks|
    ensures |Compact(masks)| == |masks| <==> None !in masks
  {
    if masks != [] {
      var n := |masks| - 1;
      CompactLength(masks[..n]);
      assert masks == masks[..n] + [masks[n]];
    }
  }

  lemma {:induction false} CompactNones(masks: Slots, k: nat)
    ensures Compact(masks + seq(k, i => None)) == Compact(masks)
    decreases k
  {
    var nones: Slots := seq(k, i => None);
    if k == 0 {
      assert masks + nones == masks;
    } else {
      CompactNones(masks, k - 1);
      assert (masks + nones)[..|masks| + k - 1] == masks + seq(k - 1, i => None);
    }
  }

  lemma {:induction false} CompactSet(masks: Slots, i: nat, m: nat)
    requires i < |masks| && masks[i].None?
    ensures multiset(Compact(masks[i := Some(m)])) == multiset(Compact(masks)) + multiset{m}
  {
    var n := |masks| - 1;
    var masks' := masks[i := Some(m)];
    if i == n {
      assert masks'[..n] == masks[..n];
    } else {
      CompactSet(masks[..n], i, m);
      assert masks'[..n] == masks[..n][i := Some(m)];
      var last := if masks[n].Some? then [masks[n].value] else [];
      assert Compact(masks') == Compact(masks'[..n]) + last;
    }
  }

  lemma CompactClear(masks: Slots, i: nat)
    requires i < |masks| && masks[i].Some?
    ensures multiset(Compact(masks)) == multiset(Compact(masks[i := None])) + multiset{masks[i].value}
  {
    CompactSet(masks[i := None], i, masks[i].value);
    assert masks[i := None][i := masks[i]] == masks;
  }

  /** tbl_mask_array_realloc: the same masks in the same order, packed. */
  method ReallocMasks(masks: Slots, size: nat) returns (masks': Slots)
    requires |Compact(masks)| <= size
    ensures Compact(masks') == Compact(masks)
    ensures |masks'| == if size < MASK_ARRAY_SIZE_MIN then MASK_ARRAY_SIZE_MIN else size
  {
    var max := if size < MASK_ARRAY_SIZE_MIN then MASK_ARRAY_SIZE_MIN else size;
    var kept: Slots := [];
    for i := 0 to |masks|
      invariant Compact(kept) == Compact(masks[..i]) && |kept| == |Compact(kept)|
    {
      assert masks[..i + 1][..i] == masks[..i];
      if masks[i].Some? {
        assert (kept + [masks[i]])[..|kept|] == kept;
        kept := kept + [masks[i]];
      }
    }
    assert masks[..|masks|] == masks;
    CompactNones(kept, max - |kept|);
    masks' := kept + seq(max - |kept|, i => None);
  }

  // What the table keeps true

  ghost function FlowsOf(ti: Instance): set<Flow> {
    set f | f in Contents(ti.buckets)
  }

  ghost function Users(flows: set<Flow>, m: nat): set<Flow> {
    set f | f in flows && f.mask == m
  }

  type Store = map<nat, Mask>

  /** The masks in the array are those in use, each once, and no two are equal. */
  ghost predicate ArrayOK(masks: Slots, store: Store) {
    && (forall m :: multiset(Compact(masks))[m] <= 1)
    && (forall m :: m in Compact(masks) <==> m in store)
    && (forall a, b :: a in store && b in store && MaskEqual(store[a].def, store[b].def) ==> a == b)
  }

  /** Each mask counts the flows that use it, and is there only for them. */
  ghost predicate RefsOK(store: Store, flows: set<Flow>) {
    && (forall f :: f in flows ==> f.mask in store)
    && (forall m :: m in store ==> store[m].refs == |Users(flows, m)| > 0)
  }

  ghost predicate HashedOK(h: Hashes, store: Store, flows: set<Flow>) {
    && (forall f :: f in flows ==> f.mask in store && f.hash == KeyHash(h, f.key, store[f.mask].def))
    && (forall f :: f in flows && f.ufid.Some? ==> f.ufidHash == (h.ufid)(f.ufid.value))
  }

  /** Each flow is in the table once, under an identity of its own. */
  ghost predicate DistinctOK(contents: multiset<Flow>) {
    && (forall f :: contents[f] <= 1)
    && (forall f, g :: f in contents && g in contents && f.id == g.id ==> f == g)
  }

  /** The table by identifier has exactly the flows that have one. */
  ghost predicate UfidOK(contents: multiset<Flow>, ufids: multiset<Flow>) {
    forall f :: ufids[f] == if f.ufid.Some? then contents[f] else 0
  }

  // Lookup

  ghost predicate Hit(store: Store, flows: set<Flow>, key: Key, f: Flow) {
    f in flows && f.mask in store && Matches(f, store[f.mask].def, key)
  }

  ghost predicate OnlyHit(store: Store, flows: set<Flow>, key: Key, f: Flow) {
    Hit(store, flows, key, f) && forall g :: Hit(store, flows, key, g) ==> g == f
  }

  /** What the rest of the flows match does not depend on a mask gaining or losing a user. */
  lemma HitsKept(store: Store, store': Store, flows: set<Flow>, flows': set<Flow>, m: nat, before: int, after: int,
                 key: Key, g: Flow)
    requires RefsMoved(store, store', m, before, after)
    requires g in flows <==> g in flows'
    requires g in flows ==> g.mask in store && g.mask in store'
    ensures Hit(store', flows', key, g) <==> Hit(store, flows, key, g)
  {
  }

  lemma NewFlowHits(store: Store, flows: set<Flow>, f: Flow, def: MaskDef, key: Key)
    requires f in flows && f.mask in store && MaskEqual(def, store[f.mask].def)
    ensures Hit(store, flows, key, f) <==> Cut(f.key, def) == Masked(key, def)
  {
    EqualMasksMatchAlike(def, store[f.mask].def, key);
    assert Cut(f.key, def) == Cut(f.key, store[f.mask].def);
  }

  lemma InItsBucket(h: Hashes, ti: Instance, f: Flow, ufid: bool)
    requires Placed(h, ti, ufid) && f in Contents(ti.buckets)
    ensures f in ti.buckets[Slot(h, ti, HashOf(f, ufid))]
  {
    ContentsMember(ti.buckets, f);
  }

  lemma HitHash(h: Hashes, f: Flow, def: MaskDef, key: Key)
    requires Matches(f, def, key)
    ensures KeyHash(h, f.key, def) == KeyHash(h, Masked(key, def), def)
  {
    MaskedIsCut(key, def);
  }

  /** masked_flow_lookup. */
  method MaskedFlowLookup(h: Hashes, ti: Instance, store: Store, key: Key, m: nat) returns (r: Option<Flow>)
    requires Placed(h, ti, false) && HashedOK(h, store, FlowsOf(ti)) && m in store
    ensures r.Some? ==> Hit(store, FlowsOf(ti), key, r.value) && r.value.mask == m
    ensures r.None? ==> forall f :: Hit(store, FlowsOf(ti), key, f) ==> f.mask != m
  {
    var def := store[m].def;
    var masked := Masked(key, def);
    var hash := KeyHash(h, masked, def);
    var bucket := ti.buckets[Slot(h, ti, hash)];
    MaskedIsCut(key, def);
    for i := 0 to |bucket|
      invariant forall k :: 0 <= k < i ==> !(bucket[k].mask == m && Matches(bucket[k], def, key))
    {
      var f := bucket[i];
      ContentsMember(ti.buckets, f);
      if f.mask == m && Matches(f, def, key) {
        HitHash(h, f, def, key);
      }
      if f.mask == m && f.hash == hash && Cut(f.key, def) == Cut(masked, def) {
        return Some(f);
      }
    }
    r := None;
    forall f | Hit(store, FlowsOf(ti), key, f) ensures f.mask != m {
      InItsBucket(h, ti, f, false);
      if f.mask == m {
        HitHash(h, f, def, key);
      }
    }
  }

  /** flow_lookup: the mask at `index` first, then the others in order. */
  method FlowLookup(h: Hashes, ti: Instance, store: Store, masks: Slots, key: Key, index: nat)
    returns (r: Option<Flow>, index': nat)
    requires Placed(h, ti, false) && HashedOK(h, store, FlowsOf(ti)) && ArrayOK(masks, store)
    ensures r.Some? <==> exists f :: Hit(store, FlowsOf(ti), key, f)
    ensures r.Some? ==> Hit(store, FlowsOf(ti), key, r.value)
    ensures r.Some? ==> index' < |masks| && masks[index'] == Some(r.value.mask)
    ensures r.None? ==> index' == index
  {
    index' := index;
    if index < |masks| && masks[index].Some? {
      CompactMember(masks, masks[index].value);
      r := MaskedFlowLookup(h, ti, store, key, masks[index].value);
      if r.Some? {
        return;
      }
    }
    for i := 0 to |masks|
      invariant index < |masks| && masks[index].Some? ==>
        forall f :: Hit(store, FlowsOf(ti), key, f) ==> f.mask != masks[index].value
      invariant forall k, f :: 0 <= k < i && masks[k].Some? && Hit(store, FlowsOf(ti), key, f) ==>
        f.mask != masks[k].value
    {
      if i != index && masks[i].Some? {
        CompactMember(masks, masks[i].value);
        r := MaskedFlowLookup(h, ti, store, key, masks[i].value);
        if r.Some? {
          index' := i;
          return;
        }
      }
    }
    r := None;
    forall f | Hit(store, FlowsOf(ti), key, f) ensures Some(f.mask) in masks {
      CompactMember(masks, f.mask);
    }
  }

  /** ovs_flow_tbl_lookup_ufid. */
  method LookupUfid(h: Hashes, ufidTi: Instance, ufid: seq<nat>) returns (r: Option<Flow>)
    requires Placed(h, ufidTi, true)
    requires forall f :: f in Contents(ufidTi.buckets) && f.ufid.Some? ==> f.ufidHash == (h.ufid)(f.ufid.value)
    ensures r.Some? ==> r.value in Contents(ufidTi.buckets) && r.value.ufid == Some(ufid)
    ensures r.None? ==> forall f :: f in Contents(ufidTi.buckets) ==> f.ufid != Some(ufid)
  {
    var hash := (h.ufid)(ufid);
    var bucket := ufidTi.buckets[Slot(h, ufidTi, hash)];
    for i := 0 to |bucket|
      invariant forall k :: 0 <= k < i ==> bucket[k].ufid != Some(ufid)
    {
      ContentsMember(ufidTi.buckets, bucket[i]);
      if bucket[i].ufidHash == hash && bucket[i].ufid == Some(ufid) {
        return Some(bucket[i]);
      }
    }
    r := None;
    forall f | f in Contents(ufidTi.buckets) ensures f.ufid != Some(ufid) {
      InItsBucket(h, ufidTi, f, true);
    }
  }

  // Masks come and go with the flows that use them

  /** flow_mask_find. */
  method FindMask(masks: Slots, store: Store, def: MaskDef) returns (r: Option<nat>)
    requires ArrayOK(masks, store)
    ensures r.Some? ==> r.value in store && MaskEqual(def, store[r.value].def)
    ensures r.None? ==> forall m :: m in store ==> !MaskEqual(def, store[m].def)
  {
    forall m {:trigger m in store} ensures m in store <==> Some(m) in masks {
      CompactMember(masks, m);
    }
    for i := 0 to |masks|
      invariant forall k :: 0 <= k < i && masks[k].Some? ==>
        masks[k].value in store && !MaskEqual(def, store[masks[k].value].def)
    {
      if masks[i].Some? {
        assert masks[i] in masks && masks[i].value in store;
        if MaskEqual(def, store[masks[i].value].def) {
          return masks[i];
        }
      }
    }
    r := None;
  }

  /** The first free slot of a mask array that is not full. */
  method FreeSlot(masks: Slots) returns (i: nat)
    requires |Compact(masks)| < |masks|
    ensures i < |masks| && masks[i].None? && forall k :: 0 <= k < i ==> masks[k].Some?
  {
    CompactLength(masks);
    i := 0;
    while masks[i].Some?
      invariant i < |masks| && forall k :: 0 <= k < i ==> masks[k].Some?
      invariant None in masks[i..]
      decreases |masks| - i
    {
      i := i + 1;
    }
  }

  /** The references of `m` go from `before` to `after`; nothing else changes. */
  ghost predicate RefsMoved(store: Store, store': Store, m: nat, before: int, after: int) {
    && (if m in store then store[m].refs else 0) == before
    && (if m in store' then store'[m].refs else 0) == after
    && (m in store && m in store' ==> store'[m].def == store[m].def)
    && (forall x :: x != m ==> (x in store' <==> x in store))
    && (forall x :: x != m && x in store ==> store'[x] == store[x])
  }

  lemma ArrayWith(masks: Slots, masks': Slots, store: Store, m: nat, mask: Mask)
    requires ArrayOK(masks, store) && m !in store && (forall x :: x in store ==> !MaskEqual(mask.def, store[x].def))
    requires multiset(Compact(masks')) == multiset(Compact(masks)) + multiset{m}
    ensures ArrayOK(masks', store[m := mask])
  {
    hide Compact;
    assert m !in Compact(masks);
    forall x ensures x in Compact(masks') <==> x in store[m := mask] {
      assert x in Compact(masks') <==> x in multiset(Compact(masks'));
      assert x in Compact(masks) <==> x in multiset(Compact(masks));
    }
    forall x ensures multiset(Compact(masks'))[x] <= 1 {
      assert multiset(Compact(masks))[x] <= 1 && multiset(Compact(masks))[m] == 0;
    }
  }

  /** flow_mask_insert, with `fresh` for the mask it may allocate. */
  method MaskInsert(masks: Slots, store: Store, count: nat, def: MaskDef, unused: nat)
    returns (masks': Slots, store': Store, count': nat, m: nat)
    requires ArrayOK(masks, store) && count == |Compact(masks)| && unused !in store
    requires forall x :: x in store ==> store[x].refs > 0
    ensures ArrayOK(masks', store') && count' == |Compact(masks')|
    ensures m in store' && MaskEqual(def, store'[m].def) && (m in store || m == unused)
    ensures store'[m].refs > 0 && count' == count + if m in store then 0 else 1
    ensures RefsMoved(store, store', m, store'[m].refs - 1, store'[m].refs)
    ensures |masks'| == if m !in store && count >= |masks| then |masks| + MASK_ARRAY_SIZE_MIN else |masks|
  {
    hide Compact;
    var found := FindMask(masks, store, def);
    if found.Some? {
      m := found.value;
      masks', count' := masks, count;
      store' := store[m := store[m].(refs := store[m].refs + 1)];
    } else {
      m := unused;
      masks' := masks;
      CompactLength(masks);
      if count >= |masks| {
        masks' := ReallocMasks(masks, |masks| + MASK_ARRAY_SIZE_MIN);
      }
      var i := FreeSlot(masks');
      CompactSet(masks', i, m);
      ArrayWith(masks, masks'[i := Some(m)], store, m, Mask(def, 1));
      SizeGrows(Compact(masks'[i := Some(m)]), Compact(masks'), m);
      masks' := masks'[i := Some(m)];
      count' := count + 1;
      store' := store[m := Mask(def, 1)];
    }
  }

  lemma SizeGrows(a: seq<nat>, b: seq<nat>, m: nat)
    requires multiset(a) == multiset(b) + multiset{m}
    ensures |a| == |b| + 1
  {
    assert |multiset(a)| == |a| && |multiset(b)| == |b|;
  }

  lemma ArrayWithout(masks: Slots, masks': Slots, store: Store, m: nat)
    requires ArrayOK(masks, store) && m in store
    requires multiset(Compact(masks)) == multiset(Compact(masks')) + multiset{m}
    ensures ArrayOK(masks', store - {m})
  {
    hide Compact;
    assert multiset(Compact(masks))[m] <= 1;
    forall x ensures x in Compact(masks') <==> x in store - {m} {
      assert x in Compact(masks') <==> x in multiset(Compact(masks'));
      assert x in Compact(masks) <==> x in multiset(Compact(masks));
    }
    forall x ensures multiset(Compact(masks'))[x] <= 1 {
      assert multiset(Compact(masks))[x] <= 1;
    }
  }

  /** flow_mask_remove. */
  method MaskRemove(masks: Slots, store: Store, count: nat, m: nat)
    returns (masks': Slots, store': Store, count': nat)
    requires ArrayOK(masks, store) && count == |Compact(masks)| && m in store && store[m].refs > 0
    ensures ArrayOK(masks', store') && count' == |Compact(masks')|
    ensures RefsMoved(store, store', m, store[m].refs, store[m].refs - 1)
    ensures m in store' <==> store[m].refs > 1
    ensures count' == count - if m in store' then 0 else 1
    ensures |masks'| ==
      if m !in store' && |masks| >= 2 * MASK_ARRAY_SIZE_MIN && count' <= |masks| / 3 then |masks| / 2 else |masks|
  {
    hide Compact;
    if store[m].refs > 1 {
      masks', count' := masks, count;
      store' := store[m := store[m].(refs := store[m].refs - 1)];
      return;
    }
    CompactMember(masks, m);
    var i := 0;
    while masks[i] != Some(m)
      invariant i < |masks| && Some(m) in masks[i..]
      decreases |masks| - i
    {
      i := i + 1;
    }
    CompactClear(masks, i);
    masks' := masks[i := None];
    ArrayWithout(masks, masks', store, m);
    SizeGrows(Compact(masks), Compact(masks'), m);
    store' := store - {m};
    count' := count - 1;
    if |masks| >= 2 * MASK_ARRAY_SIZE_MIN && count' <= |masks| / 3 {
      masks' := ReallocMasks(masks', |masks| / 2);
    }
  }

  // Counting users

  lemma UsersAdded(flows: set<Flow>, f: Flow, m: nat)
    requires f !in flows
    ensures |Users(flows + {f}, m)| == |Users(flows, m)| + if f.mask == m then 1 else 0
  {
    if f.mask == m {
      assert Users(flows + {f}, m) == Users(flows, m) + {f};
    } else {
      assert Users(flows + {f}, m) == Users(flows, m);
    }
  }

  lemma RefsAdded(store: Store, store': Store, flows: set<Flow>, f: Flow)
    requires RefsOK(store, flows) && f !in flows && f.mask in store' && store'[f.mask].refs > 0
    requires RefsMoved(store, store', f.mask, store'[f.mask].refs - 1, store'[f.mask].refs)
    ensures RefsOK(store', flows + {f})
  {
    forall m | m in store' ensures store'[m].refs == |Users(flows + {f}, m)| > 0 {
      UsersAdded(flows, f, m);
      if m !in store {
        assert Users(flows, m) == {};
      }
    }
  }

  lemma RefsRemoved(store: Store, store': Store, flows: set<Flow>, f: Flow)
    requires RefsOK(store, flows) && f in flows
    requires f.mask in store && store[f.mask].refs > 0
    requires RefsMoved(store, store', f.mask, store[f.mask].refs, store[f.mask].refs - 1)
    requires f.mask in store' <==> store[f.mask].refs > 1
    ensures RefsOK(store', flows - {f})
  {
    assert flows - {f} + {f} == flows;
    forall m | m in store' ensures store'[m].refs == |Users(flows - {f}, m)| > 0 {
      UsersAdded(flows - {f}, f, m);
    }
    forall g | g in flows - {f} ensures g.mask in store' {
      UsersAdded(flows - {f}, f, g.mask);
      assert g in Users(flows - {f}, g.mask);
    }
  }

  // The whole table

  ghost predicate FlowsOK(h: Hashes, ti: Instance, ufidTi: Instance, store: Store) {
    && Placed(h, ti, false) && Placed(h, ufidTi, true)
    && DistinctOK(Contents(ti.buckets)) && UfidOK(Contents(ti.buckets), Contents(ufidTi.buckets))
    && HashedOK(h, store, FlowsOf(ti))
  }

  lemma HashedAfter(h: Hashes, store: Store, store': Store, flows: set<Flow>, m: nat, before: int, after: int)
    requires HashedOK(h, store, flows) && RefsMoved(store, store', m, before, after)
    requires forall f :: f in flows ==> f.mask in store'
    ensures HashedOK(h, store', flows)
  {
  }

  lemma FlowsOfAdded(ti: Instance, ti': Instance, f: Flow)
    requires Contents(ti'.buckets) == Contents(ti.buckets) + multiset{f}
    ensures FlowsOf(ti') == FlowsOf(ti) + {f}
  {
  }

  lemma FlowsOfRemoved(ti: Instance, ti': Instance, f: Flow)
    requires Contents(ti'.buckets) == Contents(ti.buckets) - multiset{f} && DistinctOK(Contents(ti.buckets))
    ensures FlowsOf(ti') == FlowsOf(ti) - {f}
  {
  }

  lemma FlowsFacts(h: Hashes, ti: Instance, ufidTi: Instance, store: Store, flows: set<Flow>)
    requires FlowsOK(h, ti, ufidTi, store) && RefsOK(store, flows)
    ensures Placed(h, ti, false) && Placed(h, ufidTi, true)
    ensures forall x :: x in store ==> store[x].refs > 0
  {
  }

  lemma DistinctAdded(all: multiset<Flow>, f: Flow)
    requires DistinctOK(all) && forall g :: g in all ==> g.id != f.id
    ensures DistinctOK(all + multiset{f})
  {
  }

  lemma DistinctRemoved(all: multiset<Flow>, f: Flow)
    requires DistinctOK(all)
    ensures DistinctOK(all - multiset{f})
  {
  }

  lemma UfidAdded(all: multiset<Flow>, ufids: multiset<Flow>, f: Flow)
    requires UfidOK(all, ufids)
    ensures f.ufid.Some? ==> UfidOK(all + multiset{f}, ufids + multiset{f})
    ensures f.ufid.None? ==> UfidOK(all + multiset{f}, ufids)
  {
  }

  lemma UfidRemoved(all: multiset<Flow>, ufids: multiset<Flow>, f: Flow)
    requires UfidOK(all, ufids)
    ensures f.ufid.Some? ==> UfidOK(all - multiset{f}, ufids - multiset{f})
    ensures f.ufid.None? ==> UfidOK(all - multiset{f}, ufids)
  {
  }

  lemma AddedFlowsOK(h: Hashes, ti: Instance, ufidTi: Instance, store: Store,
                     ti': Instance, ufidTi': Instance, store': Store, f: Flow, before: int, after: int)
    requires FlowsOK(h, ti, ufidTi, store) && RefsOK(store', FlowsOf(ti) + {f})
    requires Placed(h, ti', false) && Placed(h, ufidTi', true)
    requires Contents(ti'.buckets) == Contents(ti.buckets) + multiset{f}
    requires if f.ufid.Some? then Contents(ufidTi'.buckets) == Contents(ufidTi.buckets) + multiset{f}
      else ufidTi' == ufidTi
    requires RefsMoved(store, store', f.mask, before, after)
    requires f.mask in store' && f.hash == KeyHash(h, f.key, store'[f.mask].def)
    requires f.ufid.Some? ==> f.ufidHash == (h.ufid)(f.ufid.value)
    requires forall g :: g in FlowsOf(ti) ==> g.id != f.id
    ensures FlowsOK(h, ti', ufidTi', store')
  {
    hide Contents, Placed, DistinctOK, UfidOK, RefsMoved;
    FlowsOfAdded(ti, ti', f);
    DistinctAdded(Contents(ti.buckets), f);
    UfidAdded(Contents(ti.buckets), Contents(ufidTi.buckets), f);
    HashedAfter(h, store, store', FlowsOf(ti), f.mask, before, after);
  }

  lemma RemovedFlowsOK(h: Hashes, ti: Instance, ufidTi: Instance, store: Store,
                       ti': Instance, ufidTi': Instance, store': Store, f: Flow, before: int, after: int)
    requires FlowsOK(h, ti, ufidTi, store) && RefsOK(store', FlowsOf(ti) - {f})
    requires Placed(h, ti', false) && Placed(h, ufidTi', true)
    requires Contents(ti'.buckets) == Contents(ti.buckets) - multiset{f}
    requires if f.ufid.Some? then Contents(ufidTi'.buckets) == Contents(ufidTi.buckets) - multiset{f}
      else ufidTi' == ufidTi
    requires RefsMoved(store, store', f.mask, before, after)
    ensures FlowsOK(h, ti', ufidTi', store')
  {
    hide Contents, Placed, DistinctOK, UfidOK, RefsMoved;
    FlowsOfRemoved(ti, ti', f);
    DistinctRemoved(Contents(ti.buckets), f);
    UfidRemoved(Contents(ti.buckets), Contents(ufidTi.buckets), f);
    HashedAfter(h, store, store', FlowsOf(ti'), f.mask, before, after);
  }

  /** flow_key_insert and flow_ufid_insert: adds a flow, in a larger instance if there are
      more flows than buckets. */
  method InsertAndGrow(h: Hashes, ti: Instance, count: nat, f: Flow, ufid: bool, due: bool, seed: nat)
    returns (ti': Instance, count': nat)
    requires Placed(h, ti, ufid) && count == |Contents(ti.buckets)|
    ensures Placed(h, ti', ufid) && count' == |Contents(ti'.buckets)|
    ensures Contents(ti'.buckets) == Contents(ti.buckets) + multiset{f}
    ensures |ti'.buckets| == if count + 1 > |ti.buckets| then 2 * |ti.buckets| else |ti.buckets|
  {
    ti' := InsertFlow(h, ti, f, ufid);
    count' := count + 1;
    if count' > |ti.buckets| {
      ti' := Rehash(h, ti', |ti.buckets| * 2, seed, ufid);
    } else if due {
      ti' := Rehash(h, ti', |ti.buckets|, seed, ufid);
    }
  }

  lemma NothingIsOK(h: Hashes, ti: Instance, ufidTi: Instance, masks: Slots)
    requires ti.buckets != [] && ufidTi.buckets != [] && Compact(masks) == []
    requires Contents(ti.buckets) == multiset{} && Contents(ufidTi.buckets) == multiset{}
    requires forall b :: 0 <= b < |ti.buckets| ==> ti.buckets[b] == []
    requires forall b :: 0 <= b < |ufidTi.buckets| ==> ufidTi.buckets[b] == []
    ensures FlowsOK(h, ti, ufidTi, map[]) && RefsOK(map[], FlowsOf(ti)) && ArrayOK(masks, map[]) && FlowsOf(ti) == {}
  {
  }

  datatype CacheEntry = CacheEntry(skbHash: nat, maskIndex: nat)

  class Table {
    const h: Hashes
    var ti: Instance
    var ufidTi: Instance
    var count: nat
    var ufidCount: nat
    var masks: Slots
    var maskCount: nat
    var store: Store
    const cache: array<CacheEntry>

    ghost predicate Valid()
      reads this
    {
      && FlowsOK(h, ti, ufidTi, store)
      && count == |Contents(ti.buckets)| && ufidCount == |Contents(ufidTi.buckets)|
      && ArrayOK(masks, store) && maskCount == |Compact(masks)| && RefsOK(store, FlowsOf(ti))
      && cache.Length == MC_HASH_ENTRIES
    }

    /** ovs_flow_tbl_init. */
    constructor (h: Hashes, seed: nat, ufidSeed: nat)
      ensures Valid() && FlowsOf(ti) == {} && fresh(cache)
    {
      this.h, count, ufidCount, maskCount, store := h, 0, 0, 0, map[];
      ti, ufidTi := Instance(seed, seq(TBL_MIN_BUCKETS, i => [])), Instance(ufidSeed, seq(TBL_MIN_BUCKETS, i => []));
      masks := seq(MASK_ARRAY_SIZE_MIN, i => None);
      cache := new CacheEntry[MC_HASH_ENTRIES](i => CacheEntry(0, 0));
      new;
      EmptyContents(ti.buckets);
      EmptyContents(ufidTi.buckets);
      CompactNones([], MASK_ARRAY_SIZE_MIN);
      assert [] + masks == masks;
      NothingIsOK(h, ti, ufidTi, masks);
    }

    /** The cache has an entry that leads from a packet hash to a mask. */
    ghost predicate Remembers(skb: nat, m: nat)
      reads this, cache
    {
      exists i :: 0 <= i < cache.Length && cache[i].skbHash == skb &&
        cache[i].maskIndex < |masks| && masks[cache[i].maskIndex] == Some(m)
    }

    /** ovs_flow_tbl_lookup_stats.  Whatever the cache holds, a flow is found exactly when one
        matches; only the cache changes. */
    method LookupStats(key: Key, skbHash: nat, recircId: nat) returns (r: Option<Flow>)
      requires Valid()
      modifies cache
      ensures Valid()
      ensures r.Some? <==> exists f :: Hit(store, FlowsOf(ti), key, f)
      ensures r.Some? ==> Hit(store, FlowsOf(ti), key, r.value)
      ensures forall f :: OnlyHit(store, FlowsOf(ti), key, f) ==> r == Some(f)
      ensures r.Some? && skbHash != 0 ==>
        Remembers(if recircId != 0 then (h.spread)(skbHash, recircId) else skbHash, r.value.mask)
    {
      if skbHash == 0 {
        var index;
        r, index := FlowLookup(h, ti, store, masks, key, 0);
        return;
      }
      var skb := if recircId != 0 then (h.spread)(skbHash, recircId) else skbHash;
      var ce: Option<nat> := None;
      var hash := skb;
      for seg := 0 to MC_HASH_SEGS
        invariant ce.Some? ==> ce.value < MC_HASH_ENTRIES
        invariant seg > 0 ==> ce.Some?
      {
        var index := hash % MC_HASH_ENTRIES;
        if cache[index].skbHash == skb {
          var maskIndex;
          r, maskIndex := FlowLookup(h, ti, store, masks, key, cache[index].maskIndex);
          cache[index] := CacheEntry(if r.None? then 0 else skb, maskIndex);
          return;
        }
        if ce.None? || cache[index].skbHash < cache[ce.value].skbHash {
          ce := Some(index);
        }
        hash := hash / MC_HASH_ENTRIES;
      }
      var maskIndex;
      r, maskIndex := FlowLookup(h, ti, store, masks, key, cache[ce.value].maskIndex);
      cache[ce.value] := CacheEntry(if r.Some? then skb else cache[ce.value].skbHash, maskIndex);
    }

    /** ovs_flow_tbl_lookup, which uses no cache. */
    method Lookup(key: Key) returns (r: Option<Flow>)
      requires Valid()
      ensures r.Some? <==> exists f :: Hit(store, FlowsOf(ti), key, f)
      ensures r.Some? ==> Hit(store, FlowsOf(ti), key, r.value)
      ensures forall f :: OnlyHit(store, FlowsOf(ti), key, f) ==> r == Some(f)
    {
      var index;
      r, index := FlowLookup(h, ti, store, masks, key, 0);
    }

    /** ovs_flow_tbl_lookup_ufid. */
    method LookupByUfid(ufid: seq<nat>) returns (r: Option<Flow>)
      requires Valid()
      ensures r.Some? ==> r.value in FlowsOf(ti) && r.value.ufid == Some(ufid)
      ensures r.None? ==> forall f :: f in FlowsOf(ti) ==> f.ufid != Some(ufid)
    {
      UfidFlows(h, ti, ufidTi, store);
      r := LookupUfid(h, ufidTi, ufid);
    }

    /** ovs_flow_tbl_insert.  `due` says that the periodic rehash is due, `seed` and
        `ufidSeed` are drawn for the instances it may make, `unused` is a new mask. */
    method Insert(id: nat, key: Key, def: MaskDef, ufid: Option<seq<nat>>, due: bool,
                  seed: nat, ufidSeed: nat, unused: nat)
      returns (f: Flow)
      requires Valid() && unused !in store && (forall g :: g in FlowsOf(ti) ==> g.id != id)
      modifies this
      ensures Valid()
      ensures f.id == id && f.key == key && f.ufid == ufid
      ensures f.mask in store && MaskEqual(def, store[f.mask].def)
      ensures Contents(ti.buckets) == old(Contents(ti.buckets)) + multiset{f}
      ensures FlowsOf(ti) == old(FlowsOf(ti)) + {f}
      ensures maskCount == old(maskCount) + if f.mask in old(store) then 0 else 1
      ensures forall k :: Hit(store, FlowsOf(ti), k, f) <==> Cut(key, def) == Masked(k, def)
      ensures forall k, g :: g != f ==> (Hit(store, FlowsOf(ti), k, g) <==> old(Hit(store, FlowsOf(ti), k, g)))
    {
      hide FlowsOK, ArrayOK, RefsOK, Contents, Placed, RefsMoved;
      FlowsFacts(h, ti, ufidTi, store, FlowsOf(ti));
      var m;
      masks, store, maskCount, m := MaskInsert(masks, store, maskCount, def, unused);
      f := Flow(id, key, m, KeyHash(h, key, store[m].def), ufid, if ufid.Some? then (h.ufid)(ufid.value) else 0);
      ti, count := InsertAndGrow(h, ti, count, f, false, due, seed);
      if ufid.Some? {
        ufidTi, ufidCount := InsertAndGrow(h, ufidTi, ufidCount, f, true, false, ufidSeed);
      }
      RefsAdded(old(store), store, old(FlowsOf(ti)), f);
      FlowsOfAdded(old(ti), ti, f);
      AddedFlowsOK(h, old(ti), old(ufidTi), old(store), ti, ufidTi, store, f, store[m].refs - 1, store[m].refs);
      forall k ensures Hit(store, FlowsOf(ti), k, f) <==> Cut(key, def) == Masked(k, def) {
        NewFlowHits(store, FlowsOf(ti), f, def, k);
      }
      forall k, g | g != f ensures Hit(store, FlowsOf(ti), k, g) <==> old(Hit(store, FlowsOf(ti), k, g)) {
        UsedMask(old(store), old(FlowsOf(ti)), g);
        UsedMask(store, FlowsOf(ti), g);
        HitsKept(old(store), store, old(FlowsOf(ti)), FlowsOf(ti), m, store[m].refs - 1, store[m].refs, k, g);
      }
    }

    /** ovs_flow_tbl_remove. */
    method Remove(f: Flow)
      requires Valid() && f in FlowsOf(ti)
      modifies this
      ensures Valid()
      ensures Contents(ti.buckets) == old(Contents(ti.buckets)) - multiset{f}
      ensures FlowsOf(ti) == old(FlowsOf(ti)) - {f}
      ensures maskCount == old(maskCount) - if f.mask in store then 0 else 1
      ensures forall k, g :: g != f ==> (Hit(store, FlowsOf(ti), k, g) <==> old(Hit(store, FlowsOf(ti), k, g)))
    {
      hide FlowsOK, ArrayOK, RefsOK, Contents, Placed, RefsMoved;
      RemovalFacts(h, ti, ufidTi, store, f);
      ti := DeleteFlow(h, ti, f, false);
      count := count - 1;
      if f.ufid.Some? {
        ufidTi := DeleteFlow(h, ufidTi, f, true);
        ufidCount := ufidCount - 1;
      }
      masks, store, maskCount := MaskRemove(masks, store, maskCount, f.mask);
      RefsRemoved(old(store), store, old(FlowsOf(ti)), f);
      FlowsOfRemoved(old(ti), ti, f);
      RemovedFlowsOK(h, old(ti), old(ufidTi), old(store), ti, ufidTi, store, f,
                     old(store)[f.mask].refs, old(store)[f.mask].refs - 1);
      forall k, g | g != f ensures Hit(store, FlowsOf(ti), k, g) <==> old(Hit(store, FlowsOf(ti), k, g)) {
        UsedMask(old(store), old(FlowsOf(ti)), g);
        UsedMask(store, FlowsOf(ti), g);
        HitsKept(old(store), store, old(FlowsOf(ti)), FlowsOf(ti), f.mask,
                 old(store)[f.mask].refs, old(store)[f.mask].refs - 1, k, g);
      }
    }
  }

  lemma UsedMask(store: Store, flows: set<Flow>, g: Flow)
    requires RefsOK(store, flows)
    ensures g in flows ==> g.mask in store
  {
  }

  lemma UfidFlows(h: Hashes, ti: Instance, ufidTi: Instance, store: Store)
    requires FlowsOK(h, ti, ufidTi, store)
    ensures Placed(h, ufidTi, true)
    ensures forall f :: f in Contents(ufidTi.buckets) <==> f in FlowsOf(ti) && f.ufid.Some?
    ensures forall f :: f in Contents(ufidTi.buckets) && f.ufid.Some? ==> f.ufidHash == (h.ufid)(f.ufid.value)
  {
  }

  lemma RemovalFacts(h: Hashes, ti: Instance, ufidTi: Instance, store: Store, f: Flow)
    requires FlowsOK(h, ti, ufidTi, store) && RefsOK(store, FlowsOf(ti)) && f in FlowsOf(ti)
    ensures Placed(h, ti, false) && Placed(h, ufidTi, true) && DistinctOK(Contents(ti.buckets))
    ensures f in Contents(ti.buckets) && f.mask in store && store[f.mask].refs > 0
    ensures f.ufid.Some? ==> f in Contents(ufidTi.buckets)
  {
  }
}
