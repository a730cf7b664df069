/** The bookkeeping of a rehash: which entries of an array have been carried over when a
    scan of its buckets has reached a given slot (cmap_try_rehash, ccmap_try_rehash).
  */
module CuckooTransfer {
  import opened CuckooTable

  predicate Before(c: nat, j: nat, b: nat, i: nat) {
    c < b || (c == b && j < i)
  }

  /** `done` are the hashes of the live slots before slot i of bucket b. */
  ghost predicate Transferred<V>(p: Params<V>, t: Table<V>, done: set<nat>, b: nat, i: nat) {
    && (forall c: nat, j: nat :: Live(p, t, c, j) && Before(c, j, b, i) ==> t[c][j].hash in done)
    && (forall h :: h in done ==> exists c: nat, j: nat :: Live(p, t, c, j) && Before(c, j, b, i) && t[c][j].hash == h)
  }

  /** The chains before slot i of bucket b, and no others, have been transferred. */
  ghost predicate Partial<V>(p: Params<V>, t: Table<V>, view: map<nat, V>,
                          view': map<nat, V>, b: nat, i: nat)
  {
    && Transferred(p, t, view'.Keys, b, i)
    && forall h :: h in view' ==> h in view && view'[h] == view[h]
  }

  lemma TransferOne<V>(p: Params<V>, t: Table<V>, view: map<nat, V>, view': map<nat, V>, b: nat, i: nat)
    requires Settled(p, t, view) && Partial(p, t, view, view', b, i) && b < |t| && i < p.k
    ensures var s := t[b][i];
      if s.val == p.nil then Partial(p, t, view, view', b, i + 1)
      else s.hash !in view' && Partial(p, t, view, view'[s.hash := s.val], b, i + 1)
  {
    LiveSlot(p, t, view, b, i);
    hide Settled, Unique, Transferred, Live;
    if t[b][i].val == p.nil {
      TransferSkip(p, t, view'.Keys, b, i);
    } else {
      TransferNew(p, t, view'.Keys, b, i);
      TransferKey(p, t, view'.Keys, b, i);
      PartialAdd(p, t, view, view', t[b][i].hash, b, i);
    }
  }

  lemma PartialAdd<V>(p: Params<V>, t: Table<V>, view: map<nat, V>, view': map<nat, V>, h: nat, b: nat, i: nat)
    requires Partial(p, t, view, view', b, i) && Transferred(p, t, view'.Keys + {h}, b, i + 1) && h in view
    ensures Partial(p, t, view, view'[h := view[h]], b, i + 1)
  {
    hide Transferred;
    assert view'[h := view[h]].Keys == view'.Keys + {h};
  }

  /** A slot in use, in a table at rest. */
  lemma LiveSlot<V>(p: Params<V>, t: Table<V>, view: map<nat, V>, b: nat, i: nat)
    requires Settled(p, t, view) && b < |t| && i < p.k
    ensures Unique(p, t) && i < |t[b]| && (Live(p, t, b, i) <==> t[b][i].val != p.nil)
    ensures t[b][i].val != p.nil ==> t[b][i].hash in view && view[t[b][i].hash] == t[b][i].val
  {
  }

  lemma TransferNew<V>(p: Params<V>, t: Table<V>, done: set<nat>, b: nat, i: nat)
    requires Unique(p, t) && Transferred(p, t, done, b, i) && Live(p, t, b, i)
    ensures t[b][i].hash !in done
  {
  }

  lemma TransferSkip<V>(p: Params<V>, t: Table<V>, done: set<nat>, b: nat, i: nat)
    requires Transferred(p, t, done, b, i) && !Live(p, t, b, i)
    ensures Transferred(p, t, done, b, i + 1)
  {
  }

  lemma TransferKey<V>(p: Params<V>, t: Table<V>, done: set<nat>, b: nat, i: nat)
    requires Shape(p, t) && Transferred(p, t, done, b, i) && Live(p, t, b, i)
    ensures Transferred(p, t, done + {t[b][i].hash}, b, i + 1)
  {
  }

  lemma TransferBucket<V>(p: Params<V>, t: Table<V>, view: map<nat, V>, view': map<nat, V>, b: nat)
    requires Shape(p, t) && Partial(p, t, view, view', b, p.k)
    ensures Partial(p, t, view, view', b + 1, 0)
  {
  }

  lemma TransferAll<V>(p: Params<V>, t: Table<V>, view: map<nat, V>, view': map<nat, V>)
    requires Settled(p, t, view) && Partial(p, t, view, view', |t|, 0)
    ensures view' == view
  {
    forall h | h in view
      ensures h in view'
    {
      var b, i := HomeOf(p, t, view, h);
    }
  }

  lemma TransferNone<V>(p: Params<V>, t: Table<V>, view: map<nat, V>)
    requires Settled(p, t, view)
    ensures Partial(p, t, view, map[], 0, 0)
  {
  }
}
