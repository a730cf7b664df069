/** The breadth-first search that makes room for an entry whose two candidate buckets
    are full (cmap_insert_bfs in lib/cmap.c, ccmap_inc_bfs in lib/ccmap.c).

    The search keeps no record of visited buckets and gives up at a fixed depth and a
    fixed queue length.  It is shown that every path it reports nevertheless visits
    pairwise distinct buckets, which is what makes moving entries backward along the
    path safe.  The argument uses only the order of the queue: if some queued path
    visits a bucket twice, then an earlier and no longer entry ends in the same bucket,
    and that entry would have found the free slot first.
  */
module CuckooSearch {
  import opened CuckooTable

  const MAX_DEPTH: nat := 4
  const MAX_QUEUE: nat := 500

  datatype Path = Path(start: nat, end: nat, slots: seq<nat>)

  predicate SlotsOK<V>(p: Params<V>, slots: seq<nat>) {
    forall i :: 0 <= i < |slots| ==> slots[i] < p.k
  }

  /** The buckets met when leaving `start` through `slots`. */
  function Trail<V>(p: Params<V>, t: Table<V>, start: nat, slots: seq<nat>): (r: seq<nat>)
    requires Shape(p, t) && start < |t| && SlotsOK(p, slots)
    ensures |r| == |slots| + 1 && r[0] == start
    ensures forall i :: 0 <= i < |r| ==> r[i] < |t|
  {
    if slots == [] then [start]
    else
      var n := |slots| - 1;
      var r := Trail(p, t, start, slots[..n]);
      r + [OtherBucket(p, t, r[n], slots[n])]
  }

  lemma {:induction false} TrailHops<V>(p: Params<V>, t: Table<V>, start: nat, slots: seq<nat>, i: nat)
    requires Shape(p, t) && start < |t| && SlotsOK(p, slots) && i < |slots|
    ensures var r := Trail(p, t, start, slots);
      r[i + 1] == OtherBucket(p, t, r[i], slots[i])
  {
    var n := |slots| - 1;
    if i < n {
      TrailHops(p, t, start, slots[..n], i);
    }
  }

  ghost predicate AllFull<V>(p: Params<V>, t: Table<V>, bs: seq<nat>) {
    forall i :: 0 <= i < |bs| ==> bs[i] < |t| && FirstEmptyOf(p, t, bs[i]) == p.k
  }

  /** One queue entry: its slots lead from a starting bucket to `end`, through full
      buckets only. */
  ghost predicate Sound<V>(p: Params<V>, t: Table<V>, starts: set<nat>, e: Path) {
    && Shape(p, t) && SlotsOK(p, e.slots) && |e.slots| <= MAX_DEPTH
    && e.start in starts && e.start < |t|
    && Trail(p, t, e.start, e.slots)[|e.slots|] == e.end
    && AllFull(p, t, Trail(p, t, e.start, e.slots))
  }

  /** Bucket `b` is the end of one of the first `upto` entries, after at most `n` hops. */
  ghost predicate Reached(queue: seq<Path>, b: nat, n: nat, upto: nat) {
    exists c :: 0 <= c < upto <= |queue| && queue[c].end == b && |queue[c].slots| <= n
  }

  lemma ReachedGrows(queue: seq<Path>, e: Path, b: nat, n: nat, upto: nat, n': nat, upto': nat)
    requires Reached(queue, b, n, upto) && n <= n' && upto <= upto' <= |queue| + 1
    ensures Reached(queue + [e], b, n', upto')
  {
    var c :| 0 <= c < upto && queue[c].end == b && |queue[c].slots| <= n;
    assert (queue + [e])[c] == queue[c];
  }

  /** No neighbour of bucket `b` through its first `i` slots has room. */
  ghost predicate NoRoom<V>(p: Params<V>, t: Table<V>, b: nat, i: nat)
    requires Shape(p, t)
  {
    b < |t| && forall x :: 0 <= x < i <= p.k ==> NoRoomVia(p, t, b, x)
  }

  ghost predicate NoRoomVia<V>(p: Params<V>, t: Table<V>, b: nat, x: nat)
    requires Shape(p, t) && b < |t| && x < p.k
  {
    var o := OtherBucket(p, t, b, x);
    o == b || FirstEmptyOf(p, t, o) == p.k
  }

  /** The neighbours of entry `s` through its first `i` slots are queued. */
  ghost predicate Expanded<V>(p: Params<V>, t: Table<V>, queue: seq<Path>, s: Path, i: nat)
    requires Shape(p, t)
  {
    s.end < |t| && forall x :: 0 <= x < i <= p.k ==> ExpandedVia(p, t, queue, s, x)
  }

  ghost predicate ExpandedVia<V>(p: Params<V>, t: Table<V>, queue: seq<Path>, s: Path, x: nat)
    requires Shape(p, t) && s.end < |t| && x < p.k
  {
    var o := OtherBucket(p, t, s.end, x);
    o == s.end || Reached(queue, o, |s.slots| + 1, |queue|)
  }

  /** The invariant of the queue.  `done` entries have been expanded. */
  ghost predicate QueueOK<V>(p: Params<V>, t: Table<V>, starts: set<nat>, queue: seq<Path>, done: nat)
  {
    && Shape(p, t) && done <= |queue| <= MAX_QUEUE
    && (forall q :: 0 <= q < |queue| ==> Sound(p, t, starts, queue[q]))
    && (forall q :: 0 <= q < |queue| ==> Traced(p, t, queue, q))
    && (forall q :: 0 <= q < done ==> NoRoom(p, t, queue[q].end, p.k))
    && (|queue| < MAX_QUEUE ==>
          forall q :: 0 <= q < done && |queue[q].slots| < MAX_DEPTH ==> Expanded(p, t, queue, queue[q], p.k))
  }

  /** Every bucket on the trail of entry q ends some entry up to q; and if the trail
      repeats a bucket, an earlier entry ends where q ends. */
  ghost predicate Traced<V>(p: Params<V>, t: Table<V>, queue: seq<Path>, q: nat)
    requires Shape(p, t) && q < |queue|
  {
    var e := queue[q];
    && SlotsOK(p, e.slots) && e.start < |t|
    && var r := Trail(p, t, e.start, e.slots);
    && (forall i :: 0 <= i < |r| ==> Reached(queue, r[i], i, q + 1))
    && (!Distinct(r) ==> Reached(queue, e.end, |e.slots|, q))
  }

  lemma TracedGrows<V>(p: Params<V>, t: Table<V>, queue: seq<Path>, e: Path, q: nat)
    requires Shape(p, t) && q < |queue| && Traced(p, t, queue, q)
    ensures Traced(p, t, queue + [e], q)
  {
    var f := queue[q];
    assert (queue + [e])[q] == f;
    var r := Trail(p, t, f.start, f.slots);
    forall i | 0 <= i < |r|
      ensures Reached(queue + [e], r[i], i, q + 1)
    {
      ReachedGrows(queue, e, r[i], i, q + 1, i, q + 1);
    }
    if !Distinct(r) {
      ReachedGrows(queue, e, f.end, |f.slots|, q, |f.slots|, q);
    }
  }

  lemma ExpandedGrows<V>(p: Params<V>, t: Table<V>, queue: seq<Path>, e: Path, s: Path, i: nat)
    requires Shape(p, t) && Expanded(p, t, queue, s, i)
    ensures Expanded(p, t, queue + [e], s, i)
  {
    forall x | 0 <= x < i <= p.k
      ensures ExpandedVia(p, t, queue + [e], s, x)
    {
      assert ExpandedVia(p, t, queue, s, x);
      var o := OtherBucket(p, t, s.end, x);
      if o != s.end {
        ReachedGrows(queue, e, o, |s.slots| + 1, |queue|, |s.slots| + 1, |queue| + 1);
      }
    }
  }

  /** The child of entry `q` through slot `i`. */
  function Child<V>(p: Params<V>, t: Table<V>, e: Path, i: nat): Path
    requires Shape(p, t) && e.end < |t| && i < p.k
  {
    Path(e.start, OtherBucket(p, t, e.end, i), e.slots + [i])
  }

  lemma ChildTrail<V>(p: Params<V>, t: Table<V>, starts: set<nat>, e: Path, i: nat)
    requires Sound(p, t, starts, e) && i < p.k && e.end < |t|
    ensures SlotsOK(p, e.slots + [i])
    ensures Trail(p, t, e.start, e.slots + [i]) ==
            Trail(p, t, e.start, e.slots) + [OtherBucket(p, t, e.end, i)]
  {
    assert (e.slots + [i])[..|e.slots|] == e.slots;
  }

  /** If the entry being expanded visits a bucket twice, an earlier entry ends in the
      same bucket, so none of the neighbours has room. */
  lemma RepeatsHaveNoRoom<V>(p: Params<V>, t: Table<V>, starts: set<nat>, queue: seq<Path>, q: nat)
    requires QueueOK(p, t, starts, queue, q) && q < |queue|
    requires !Distinct(Trail(p, t, queue[q].start, queue[q].slots))
    ensures NoRoom(p, t, queue[q].end, p.k)
  {
    assert Traced(p, t, queue, q);
    var e := queue[q];
    var s :| 0 <= s < q && queue[s].end == e.end && |queue[s].slots| <= |e.slots|;
  }

  /** If the child's trail repeats a bucket, its end was reached before: through the
      same slot of the earlier entry if the parent's trail repeats one already, and
      otherwise because the end itself is on the parent's trail. */
  lemma RepeatingChildWasReached<V>(p: Params<V>, t: Table<V>, starts: set<nat>, queue: seq<Path>, q: nat, i: nat)
    requires QueueOK(p, t, starts, queue, q) && q < |queue| < MAX_QUEUE
    requires i < p.k && |queue[q].slots| < MAX_DEPTH && queue[q].end < |t|
    requires OtherBucket(p, t, queue[q].end, i) != queue[q].end
    requires !Distinct(Trail(p, t, queue[q].start, queue[q].slots) + [OtherBucket(p, t, queue[q].end, i)])
    ensures Reached(queue, OtherBucket(p, t, queue[q].end, i), |queue[q].slots| + 1, |queue|)
  {
    var e := queue[q];
    var o := OtherBucket(p, t, e.end, i);
    var r := Trail(p, t, e.start, e.slots);
    assert Traced(p, t, queue, q);
    if !Distinct(r) {
      var s :| 0 <= s < q && queue[s].end == e.end && |queue[s].slots| <= |e.slots|;
      assert Expanded(p, t, queue, queue[s], p.k);
      assert ExpandedVia(p, t, queue, queue[s], i);
    } else {
      var r' := r + [o];
      var j, m :| 0 <= j < m < |r'| && r'[j] == r'[m];
      assert r[j] == r'[j];
      assert m == |r|;
      assert Reached(queue, r[j], j, q + 1);
    }
  }

  lemma ChildIsTraced<V>(p: Params<V>, t: Table<V>, starts: set<nat>, queue: seq<Path>, q: nat, i: nat)
    requires QueueOK(p, t, starts, queue, q) && q < |queue| < MAX_QUEUE
    requires i < p.k && |queue[q].slots| < MAX_DEPTH && queue[q].end < |t|
    requires OtherBucket(p, t, queue[q].end, i) != queue[q].end
    ensures Traced(p, t, queue + [Child(p, t, queue[q], i)], |queue|)
  {
    var e := queue[q];
    var o := OtherBucket(p, t, e.end, i);
    var c := Child(p, t, e, i);
    var queue' := queue + [c];
    ChildTrail(p, t, starts, e, i);
    assert queue'[|queue|] == c;
    var r, r' := Trail(p, t, e.start, e.slots), Trail(p, t, c.start, c.slots);
    assert Traced(p, t, queue, q);
    forall j | 0 <= j < |r'|
      ensures Reached(queue', r'[j], j, |queue| + 1)
    {
      if j < |r| {
        assert r'[j] == r[j];
        ReachedGrows(queue, c, r[j], j, q + 1, j, |queue| + 1);
      } else {
        assert queue'[|queue|].end == r'[j];
      }
    }
    if !Distinct(r') {
      RepeatingChildWasReached(p, t, starts, queue, q, i);
      ReachedGrows(queue, c, o, |c.slots|, |queue|, |c.slots|, |queue|);
    }
  }

  /** Appending the child of the entry being expanded keeps the invariant. */
  lemma QueueGrows<V>(p: Params<V>, t: Table<V>, starts: set<nat>, queue: seq<Path>, q: nat, i: nat)
    requires QueueOK(p, t, starts, queue, q) && q < |queue| < MAX_QUEUE
    requires i < p.k && |queue[q].slots| < MAX_DEPTH && queue[q].end < |t|
    requires OtherBucket(p, t, queue[q].end, i) != queue[q].end
    requires FirstEmptyOf(p, t, OtherBucket(p, t, queue[q].end, i)) == p.k
    ensures QueueOK(p, t, starts, queue + [Child(p, t, queue[q], i)], q)
  {
    var e := queue[q];
    var c := Child(p, t, e, i);
    var queue' := queue + [c];
    ChildTrail(p, t, starts, e, i);
    ChildIsTraced(p, t, starts, queue, q, i);
    forall x | 0 <= x < |queue'|
      ensures Sound(p, t, starts, queue'[x]) && Traced(p, t, queue', x)
    {
      if x < |queue| {
        assert queue'[x] == queue[x];
        assert Traced(p, t, queue, x);
        TracedGrows(p, t, queue, c, x);
      }
    }
    forall x | 0 <= x < q
      ensures NoRoom(p, t, queue'[x].end, p.k)
      ensures |queue'[x].slots| < MAX_DEPTH ==> Expanded(p, t, queue', queue'[x], p.k)
    {
      assert queue'[x] == queue[x];
      if |queue[x].slots| < MAX_DEPTH {
        ExpandedGrows(p, t, queue, c, queue[x], p.k);
      }
    }
  }

  /** A free slot found from an entry completes a path on which entries can be moved. */
  lemma FoundPath<V>(p: Params<V>, t: Table<V>, hash: nat, queue: seq<Path>, q: nat, i: nat)
    requires QueueOK(p, t, {First(p, hash), Second(p, hash)}, queue, q) && q < |queue|
    requires i < p.k && queue[q].end < |t| && !NoRoomVia(p, t, queue[q].end, i)
    ensures var e := queue[q];
      var o := OtherBucket(p, t, e.end, i);
      PathOK(p, t, hash, Trail(p, t, e.start, e.slots) + [o], e.slots + [i, FirstEmptyOf(p, t, o)])
  {
    var e := queue[q];
    var o := OtherBucket(p, t, e.end, i);
    var r := Trail(p, t, e.start, e.slots);
    var bs, ss := r + [o], e.slots + [i, FirstEmptyOf(p, t, o)];
    if !Distinct(r) {
      RepeatsHaveNoRoom(p, t, {First(p, hash), Second(p, hash)}, queue, q);
      assert false;
    }
    assert Distinct(bs) by {
      forall j, m | 0 <= j < m < |bs|
        ensures bs[j] != bs[m]
      {
        assert bs[j] == r[j];
      }
    }
    forall k | 0 <= k < |bs| - 1
      ensures bs[k + 1] == OtherBucket(p, t, bs[k], ss[k])
      ensures forall i :: 0 <= i < p.k ==> Live(p, t, bs[k], i)
    {
      assert bs[k] == r[k];
      if k < |e.slots| {
        TrailHops(p, t, e.start, e.slots, k);
      }
      assert FirstEmptyOf(p, t, r[k]) == p.k;
    }
  }

  predicate StartsQueued(queue: seq<Path>, b1: nat, b2: nat) {
    && 1 <= |queue| && queue[0] == Path(b1, b1, [])
    && (b1 != b2 ==> 2 <= |queue| && queue[1] == Path(b2, b2, []))
  }

  lemma StartQueue<V>(p: Params<V>, t: Table<V>, b1: nat, b2: nat, queue: seq<Path>)
    requires Shape(p, t) && b1 < |t| && b2 < |t|
    requires FirstEmptyOf(p, t, b1) == p.k && FirstEmptyOf(p, t, b2) == p.k
    requires queue == [Path(b1, b1, [])] || queue == [Path(b1, b1, []), Path(b2, b2, [])]
    ensures QueueOK(p, t, {b1, b2}, queue, 0)
  {
    forall q | 0 <= q < |queue|
      ensures Traced(p, t, queue, q)
    {
      assert queue[q].end == queue[q].start;
    }
  }

  lemma EntryDone<V>(p: Params<V>, t: Table<V>, starts: set<nat>, queue: seq<Path>, q: nat)
    requires QueueOK(p, t, starts, queue, q) && q < |queue|
    requires NoRoom(p, t, queue[q].end, p.k)
    requires |queue| < MAX_QUEUE && |queue[q].slots| < MAX_DEPTH ==> Expanded(p, t, queue, queue[q], p.k)
    ensures QueueOK(p, t, starts, queue, q + 1)
  {
  }

  lemma NoRoomStep<V>(p: Params<V>, t: Table<V>, b: nat, i: nat)
    requires Shape(p, t) && NoRoom(p, t, b, i) && i < p.k && NoRoomVia(p, t, b, i)
    ensures NoRoom(p, t, b, i + 1)
  {
  }

  lemma ExpandedStep<V>(p: Params<V>, t: Table<V>, queue: seq<Path>, s: Path, i: nat)
    requires Shape(p, t) && Expanded(p, t, queue, s, i) && i < p.k && ExpandedVia(p, t, queue, s, i)
    ensures Expanded(p, t, queue, s, i + 1)
  {
  }

  /** Appending the child of the entry being expanded completes its slot `i`. */
  lemma ChildQueued<V>(p: Params<V>, t: Table<V>, queue: seq<Path>, s: Path, i: nat)
    requires Shape(p, t) && i < p.k && Expanded(p, t, queue, s, i)
    ensures Expanded(p, t, queue + [Child(p, t, s, i)], s, i + 1)
  {
    var queue' := queue + [Child(p, t, s, i)];
    ExpandedGrows(p, t, queue, Child(p, t, s, i), s, i);
    assert queue'[|queue|].end == OtherBucket(p, t, s.end, i);
    ExpandedStep(p, t, queue', s, i);
  }

  /** Once every entry is expanded without filling the queue, every trail up to the
      maximum depth has been followed. */
  lemma {:induction false} Exhaustive<V>(p: Params<V>, t: Table<V>, starts: set<nat>, queue: seq<Path>,
                                         start: nat, slots: seq<nat>)
    requires QueueOK(p, t, starts, queue, |queue|) && |queue| < MAX_QUEUE
    requires start < |t| && Reached(queue, start, 0, |queue|)
    requires SlotsOK(p, slots) && |slots| <= MAX_DEPTH
    ensures Reached(queue, Trail(p, t, start, slots)[|slots|], |slots|, |queue|)
  {
    if slots != [] {
      var n := |slots| - 1;
      Exhaustive(p, t, starts, queue, start, slots[..n]);
      var b := Trail(p, t, start, slots[..n])[n];
      var c :| 0 <= c < |queue| && queue[c].end == b && |queue[c].slots| <= n;
      assert Expanded(p, t, queue, queue[c], p.k);
      assert ExpandedVia(p, t, queue, queue[c], slots[n]);
      if OtherBucket(p, t, b, slots[n]) != b {
        var d :| 0 <= d < |queue| && queue[d].end == OtherBucket(p, t, b, slots[n])
                 && |queue[d].slots| <= |queue[c].slots| + 1;
        assert Reached(queue, OtherBucket(p, t, b, slots[n]), n + 1, |queue|);
      }
    }
  }

  /** No bucket within MAX_DEPTH + 1 hops of `start` has room. */
  ghost predicate NoRoomWithin<V>(p: Params<V>, t: Table<V>, start: nat)
    requires Shape(p, t) && start < |t|
  {
    forall slots: seq<nat> :: SlotsOK(p, slots) && 1 <= |slots| <= MAX_DEPTH + 1 ==>
      FirstEmptyOf(p, t, Trail(p, t, start, slots)[|slots|]) == p.k
  }

  lemma NothingWithin<V>(p: Params<V>, t: Table<V>, starts: set<nat>, queue: seq<Path>, start: nat)
    requires QueueOK(p, t, starts, queue, |queue|) && |queue| < MAX_QUEUE
    requires start < |t| && Reached(queue, start, 0, |queue|) && FirstEmptyOf(p, t, start) == p.k
    ensures NoRoomWithin(p, t, start)
  {
    forall slots: seq<nat> | SlotsOK(p, slots) && 1 <= |slots| <= MAX_DEPTH + 1
      ensures FirstEmptyOf(p, t, Trail(p, t, start, slots)[|slots|]) == p.k
    {
      var n := |slots| - 1;
      Exhaustive(p, t, starts, queue, start, slots[..n]);
      var b := Trail(p, t, start, slots[..n])[n];
      var c :| 0 <= c < |queue| && queue[c].end == b && |queue[c].slots| <= n;
      assert NoRoom(p, t, b, p.k) && NoRoomVia(p, t, b, slots[n]);
      assert Sound(p, t, starts, queue[c]);
      var r := Trail(p, t, queue[c].start, queue[c].slots);
      assert FirstEmptyOf(p, t, r[|queue[c].slots|]) == p.k;
    }
  }

  /** The search.  `First` and `Second` of `hash` are both full.  On success, `bs` and
      `ss` are the buckets and slots of the displacement path, from a candidate bucket
      of `hash` to a bucket with room.  On failure there is no room within
      MAX_DEPTH + 1 hops of either candidate, unless the queue filled up. */
  method FindPath<V(==)>(p: Params<V>, t: Table<V>, hash: nat)
    returns (found: bool, bs: seq<nat>, ss: seq<nat>, overflow: bool)
    requires Shape(p, t)
    requires Full(t[First(p, hash)], p.nil) && Full(t[Second(p, hash)], p.nil)
    ensures found ==> PathOK(p, t, hash, bs, ss) && 2 <= |bs| <= MAX_DEPTH + 2
    ensures !found ==> NoRoom(p, t, First(p, hash), p.k) && NoRoom(p, t, Second(p, hash), p.k)
    ensures !found && !overflow ==>
      NoRoomWithin(p, t, First(p, hash)) && NoRoomWithin(p, t, Second(p, hash))
  {
    var b1, b2 := First(p, hash), Second(p, hash);
    var queue := [Path(b1, b1, [])];
    if b1 != b2 {
      queue := queue + [Path(b2, b2, [])];
    }
    ghost var starts := {b1, b2};
    StartQueue(p, t, b1, b2, queue);
    var tail := 0;
    while tail < |queue|
      invariant QueueOK(p, t, starts, queue, tail)
      invariant StartsQueued(queue, b1, b2)
      decreases MAX_QUEUE - tail
    {
      var path := queue[tail];
      assert Sound(p, t, starts, path) && path.end < |t|;
      var i := 0;
      while i < p.k
        invariant 0 <= i <= p.k
        invariant tail < |queue| && queue[tail] == path
        invariant QueueOK(p, t, starts, queue, tail)
        invariant StartsQueued(queue, b1, b2)
        invariant NoRoom(p, t, path.end, i)
        invariant |queue| < MAX_QUEUE && |path.slots| < MAX_DEPTH ==> Expanded(p, t, queue, path, i)
      {
        var next := OtherBucket(p, t, path.end, i);
        if path.end != next {
          var j := FirstEmpty(t[next], p.nil);
          if j < p.k {
            FoundPath(p, t, hash, queue, tail, i);
            return true, Trail(p, t, path.start, path.slots) + [next], path.slots + [i, j], false;
          }
          if |path.slots| < MAX_DEPTH && |queue| < MAX_QUEUE {
            QueueGrows(p, t, starts, queue, tail, i);
            ChildQueued(p, t, queue, path, i);
            queue := queue + [Path(path.start, next, path.slots + [i])];
          }
        } else if |queue| < MAX_QUEUE && |path.slots| < MAX_DEPTH {
          ExpandedStep(p, t, queue, path, i);
        }
        NoRoomStep(p, t, path.end, i);
        i := i + 1;
      }
      EntryDone(p, t, starts, queue, tail);
      tail := tail + 1;
    }
    found, bs, ss, overflow := false, [], [], |queue| == MAX_QUEUE;
    if !overflow {
      assert queue[0].slots == [];
      NothingWithin(p, t, starts, queue, b1);
      NothingWithin(p, t, starts, queue, b2);
    }
  }
}
