/** The bucket array shared by the two cuckoo hash maps of Open vSwitch, lib/cmap.c
    and lib/ccmap.c: every client hash has two candidate buckets of `k` slots each.

    The two maps differ only in what a slot carries (a chain of nodes, or a count) and
    in what they do on a duplicate, so the table, its invariant and the displacement of
    entries along a path are stated once, for any payload type `V` with a value `nil`
    that marks a slot as unused.  An unused slot keeps whatever hash it last had.
  */
module CuckooTable {

  const TWO32: nat := 0x1_0000_0000

  datatype Slot<+V> = Slot(hash: nat, val: V)
  type Bucket<+V> = seq<Slot<V>>
  type Table<+V> = seq<Bucket<V>>

  /** What is fixed for one instance of a map.  `finish` stands for hash_finish(), about
      which nothing is assumed. */
  datatype Params<V> = Params(k: nat, mask: nat, basis: nat, finish: (nat, nat) -> nat, nil: V)

  /** 16-bit rotation of a 32-bit value. */
  function OtherHash(x: nat): (y: nat)
    requires x < TWO32
    ensures y < TWO32
  {
    x % 0x1_0000 * 0x1_0000 + x / 0x1_0000
  }

  function Rehash<V>(p: Params<V>, hash: nat): (y: nat)
    ensures y < TWO32
  {
    p.finish(p.basis, hash) % TWO32
  }

  // `x & mask` is `x % (mask + 1)`, because mask + 1 is a power of two.
  function First<V>(p: Params<V>, hash: nat): (b: nat)
    ensures b <= p.mask
  {
    Rehash(p, hash) % (p.mask + 1)
  }

  function Second<V>(p: Params<V>, hash: nat): (b: nat)
    ensures b <= p.mask
  {
    OtherHash(Rehash(p, hash)) % (p.mask + 1)
  }

  lemma OtherHashIsInvolution(x: nat)
    requires x < TWO32
    ensures OtherHash(OtherHash(x)) == x
  {
  }

  predicate Shape<V>(p: Params<V>, t: Table<V>) {
    |t| == p.mask + 1 && forall b :: 0 <= b < |t| ==> |t[b]| == p.k
  }

  predicate IsCandidate<V>(p: Params<V>, hash: nat, b: nat) {
    b == First(p, hash) || b == Second(p, hash)
  }

  /** The other bucket that the entry in slot `i` of bucket `b` could occupy. */
  function OtherBucket<V>(p: Params<V>, t: Table<V>, b: nat, i: nat): (o: nat)
    requires Shape(p, t) && b < |t| && i < p.k
    ensures o < |t|
  {
    var h := t[b][i].hash;
    if First(p, h) == b then Second(p, h) else First(p, h)
  }

  function MatchFrom<V>(b: Bucket<V>, hash: nat, from: nat): (i: nat)
    requires from <= |b|
    ensures from <= i <= |b|
    ensures i < |b| ==> b[i].hash == hash
    ensures forall j :: from <= j < i ==> b[j].hash != hash
    decreases |b| - from
  {
    if from == |b| || b[from].hash == hash then from else MatchFrom(b, hash, from + 1)
  }

  function EmptyFrom<V(==)>(b: Bucket<V>, nil: V, from: nat): (i: nat)
    requires from <= |b|
    ensures from <= i <= |b|
    ensures i < |b| ==> b[i].val == nil
    ensures forall j :: from <= j < i ==> b[j].val != nil
    decreases |b| - from
  {
    if from == |b| || b[from].val == nil then from else EmptyFrom(b, nil, from + 1)
  }

  /** Index of the first slot carrying `hash`, live or not; the bucket's length if none. */
  function FirstMatch<V>(b: Bucket<V>, hash: nat): (i: nat)
    ensures i <= |b|
    ensures i < |b| ==> b[i].hash == hash
    ensures forall j :: 0 <= j < i ==> b[j].hash != hash
  {
    MatchFrom(b, hash, 0)
  }

  /** Index of the first unused slot; the bucket's length if the bucket is full. */
  function FirstEmpty<V(==)>(b: Bucket<V>, nil: V): (i: nat)
    ensures i <= |b|
    ensures i < |b| ==> b[i].val == nil
    ensures forall j :: 0 <= j < i ==> b[j].val != nil
  {
    EmptyFrom(b, nil, 0)
  }

  predicate Full<V(==)>(b: Bucket<V>, nil: V) {
    FirstEmpty(b, nil) == |b|
  }

  predicate NoMatch<V>(b: Bucket<V>, hash: nat) {
    FirstMatch(b, hash) == |b|
  }

  /** What a scan of one bucket yields: the payload of the first slot with `hash`. */
  function FindIn<V>(b: Bucket<V>, hash: nat, nil: V): V {
    var i := FirstMatch(b, hash);
    if i < |b| then b[i].val else nil
  }

  /** Lookup as cmap_find__ and ccmap_find do it when nothing changes meanwhile. */
  function Find<V(==)>(p: Params<V>, t: Table<V>, hash: nat): V
    requires Shape(p, t)
  {
    var v := FindIn(t[First(p, hash)], hash, p.nil);
    if v != p.nil then v else FindIn(t[Second(p, hash)], hash, p.nil)
  }

  /** Like `Find`, but an unused slot with the right hash in the first bucket already
      decides the answer.  A concurrent reader may rely on such a slot, so the invariant
      below is stated with this stricter form. */
  function StrictFind<V>(p: Params<V>, t: Table<V>, hash: nat): V
    requires Shape(p, t)
  {
    if NoMatch(t[First(p, hash)], hash)
    then FindIn(t[Second(p, hash)], hash, p.nil)
    else FindIn(t[First(p, hash)], hash, p.nil)
  }

  ghost predicate Live<V>(p: Params<V>, t: Table<V>, b: nat, i: nat) {
    b < |t| && i < |t[b]| && t[b][i].val != p.nil
  }

  /** Every live slot holds the value `view` gives its hash and lies in a candidate
      bucket, and every hash of `view` is found by a scan.  An entry may be present
      twice; this is what holds after every single write of a displacement. */
  ghost predicate Consistent<V>(p: Params<V>, t: Table<V>, view: map<nat, V>) {
    && Shape(p, t)
    && (forall b: nat, i: nat :: Live(p, t, b, i) ==>
          && IsCandidate(p, t[b][i].hash, b)
          && t[b][i].hash in view && view[t[b][i].hash] == t[b][i].val)
    && (forall h :: h in view ==> view[h] != p.nil && StrictFind(p, t, h) == view[h])
  }

  /** A hash occupies at most one live slot. */
  ghost predicate Unique<V>(p: Params<V>, t: Table<V>) {
    forall b: nat, i: nat, c: nat, j: nat ::
      Live(p, t, b, i) && Live(p, t, c, j) && t[b][i].hash == t[c][j].hash ==> b == c && i == j
  }

  /** What holds between two operations of the writer. */
  ghost predicate Settled<V>(p: Params<V>, t: Table<V>, view: map<nat, V>) {
    Consistent(p, t, view) && Unique(p, t)
  }

  function ViewAt<V>(p: Params<V>, view: map<nat, V>, hash: nat): V {
    if hash in view then view[hash] else p.nil
  }

  lemma FindIsView<V>(p: Params<V>, t: Table<V>, view: map<nat, V>, hash: nat)
    requires Consistent(p, t, view)
    ensures Find(p, t, hash) == ViewAt(p, view, hash)
  {
  }

  /** Where the invariant finds a present hash. */
  lemma HomeOf<V>(p: Params<V>, t: Table<V>, view: map<nat, V>, hash: nat) returns (b: nat, i: nat)
    requires Consistent(p, t, view) && hash in view
    ensures Live(p, t, b, i) && t[b][i] == Slot(hash, view[hash])
    ensures IsCandidate(p, hash, b) && FirstMatch(t[b], hash) == i
    ensures b != First(p, hash) ==> NoMatch(t[First(p, hash)], hash)
  {
    b := if NoMatch(t[First(p, hash)], hash) then Second(p, hash) else First(p, hash);
    i := FirstMatch(t[b], hash);
  }

  // Writes.

  function Put<V>(t: Table<V>, b: nat, i: nat, s: Slot<V>): (r: Table<V>)
    requires b < |t| && i < |t[b]|
    ensures |r| == |t| && forall c :: 0 <= c < |t| ==> |r[c]| == |t[c]|
  {
    t[b := t[b][i := s]]
  }

  /** A path `bs` of distinct buckets, left through slots `ss`: each entry on it moves to
      its other bucket, the last bucket has room in its first unused slot, and the first
      bucket is a candidate of `hash`.  A path of one bucket displaces nothing. */
  ghost predicate PathOK<V>(p: Params<V>, t: Table<V>, hash: nat, bs: seq<nat>, ss: seq<nat>)
    requires Shape(p, t)
  {
    && |bs| == |ss| && |bs| >= 1
    && (forall k :: 0 <= k < |bs| ==> bs[k] < |t|)
    && (forall k :: 0 <= k < |ss| ==> ss[k] < p.k)
    && (forall j, k :: 0 <= j < k < |bs| ==> bs[j] != bs[k])
    && (forall k :: 0 <= k < |bs| - 1 ==> bs[k + 1] == OtherBucket(p, t, bs[k], ss[k]))
    && (forall k :: 0 <= k < |bs| - 1 ==> forall i :: 0 <= i < p.k ==> Live(p, t, bs[k], i))
    && ss[|ss| - 1] == FirstEmptyOf(p, t, bs[|bs| - 1])
    && IsCandidate(p, hash, bs[0])
  }

  ghost function FirstEmptyOf<V>(p: Params<V>, t: Table<V>, b: nat): nat
    requires b < |t|
  {
    FirstEmpty(t[b], p.nil)
  }

  predicate InBounds<V>(t: Table<V>, bs: seq<nat>, ss: seq<nat>) {
    && |bs| == |ss| && 1 <= |bs|
    && forall m :: 0 <= m < |bs| ==> bs[m] < |t| && ss[m] < |t[bs[m]]|
  }

  /** What the displacement writes into slot ss[k] of bucket bs[k]: the entry of the
      preceding bucket on the path, or the new entry `s` at its start. */
  function Incoming<V>(t: Table<V>, bs: seq<nat>, ss: seq<nat>, s: Slot<V>, k: nat): Slot<V>
    requires InBounds(t, bs, ss) && k < |bs|
  {
    if k == 0 then s else t[bs[k - 1]][ss[k - 1]]
  }

  /** The table once the writes to bs[|bs| - 1], ..., bs[k] have been made.  Moves go
      backward along the path, so k counts down; at k == 0 the new entry is in place. */
  function Moved<V>(t: Table<V>, bs: seq<nat>, ss: seq<nat>, s: Slot<V>, k: nat): (r: Table<V>)
    requires InBounds(t, bs, ss) && k <= |bs|
    ensures |r| == |t| && forall c :: 0 <= c < |t| ==> |r[c]| == |t[c]|
    decreases |bs| - k
  {
    if k == |bs| then t
    else Put(Moved(t, bs, ss, s, k + 1), bs[k], ss[k], Incoming(t, bs, ss, s, k))
  }

  predicate Distinct(bs: seq<nat>) {
    forall j, m :: 0 <= j < m < |bs| ==> bs[j] != bs[m]
  }

  /** The bucket at position j of the path, after the writes down to position k. */
  lemma {:induction false} MovedAt<V>(t: Table<V>, bs: seq<nat>, ss: seq<nat>, s: Slot<V>, k: nat, j: nat)
    requires InBounds(t, bs, ss) && k <= |bs| && Distinct(bs) && j < |bs|
    ensures Moved(t, bs, ss, s, k)[bs[j]] ==
      if j < k then t[bs[j]] else t[bs[j]][ss[j] := Incoming(t, bs, ss, s, j)]
    decreases |bs| - k
  {
    if k < |bs| {
      MovedAt(t, bs, ss, s, k + 1, j);
      if k < j {
        assert bs[k] != bs[j];
      } else if j < k {
        assert bs[j] != bs[k];
      }
    }
  }

  lemma {:induction false} MovedElsewhere<V>(t: Table<V>, bs: seq<nat>, ss: seq<nat>, s: Slot<V>, k: nat, c: nat)
    requires InBounds(t, bs, ss) && k <= |bs| && c < |t| && c !in bs
    ensures Moved(t, bs, ss, s, k)[c] == t[c]
    decreases |bs| - k
  {
    if k < |bs| {
      MovedElsewhere(t, bs, ss, s, k + 1, c);
      assert bs[k] in bs;
    }
  }

  /** The premises under which a displacement is made. */
  ghost predicate CanDisplace<V>(p: Params<V>, t: Table<V>, view: map<nat, V>,
                                 bs: seq<nat>, ss: seq<nat>, s: Slot<V>)
  {
    && Settled(p, t, view) && PathOK(p, t, s.hash, bs, ss)
    && s.hash !in view && s.val != p.nil
    && (bs[0] != First(p, s.hash) ==> NoMatch(t[First(p, s.hash)], s.hash))
    && FirstMatch(t[bs[0]], s.hash) >= ss[0]
  }

  // The lemmas below use only these consequences of CanDisplace.

  lemma PlanFacts<V>(p: Params<V>, t: Table<V>, view: map<nat, V>, bs: seq<nat>, ss: seq<nat>, s: Slot<V>)
    requires CanDisplace(p, t, view, bs, ss, s)
    ensures Shape(p, t) && InBounds(t, bs, ss) && Distinct(bs)
    ensures s.hash !in view && s.val != p.nil && IsCandidate(p, s.hash, bs[0])
    ensures t[bs[|bs| - 1]][ss[|ss| - 1]].val == p.nil
    ensures bs[0] != First(p, s.hash) ==> NoMatch(t[First(p, s.hash)], s.hash)
    ensures FirstMatch(t[bs[0]], s.hash) >= ss[0]
  {
  }

  lemma PlanView<V>(p: Params<V>, t: Table<V>, view: map<nat, V>, bs: seq<nat>, ss: seq<nat>, s: Slot<V>, g: nat)
    requires CanDisplace(p, t, view, bs, ss, s) && g in view
    ensures Shape(p, t) && StrictFind(p, t, g) == view[g] != p.nil
  {
  }

  /** Overwriting a slot that is not where `g` is found does not disturb `g`. */
  lemma PutKeepsFind<V>(p: Params<V>, t: Table<V>, b: nat, x: nat, s: Slot<V>, g: nat)
    requires Shape(p, t) && b < |t| && x < p.k
    requires s.hash != g && StrictFind(p, t, g) != p.nil
    requires t[b][x].hash != g || t[b][x].val == p.nil
    ensures StrictFind(p, Put(t, b, x, s), g) == StrictFind(p, t, g)
  {
    var r := Put(t, b, x, s);
    var c := if NoMatch(t[First(p, g)], g) then Second(p, g) else First(p, g);
    var i := FirstMatch(t[c], g);
    assert c == b ==> x != i;
    assert FirstMatch(r[c], g) == i by {
      assert r[c][i] == t[c][i];
    }
    if NoMatch(t[First(p, g)], g) {
      assert NoMatch(r[First(p, g)], g) by {
        var f := r[First(p, g)];
        assert forall j :: 0 <= j < |f| ==> f[j] == t[First(p, g)][j] || f[j] == s;
      }
    }
  }

  /** Entries on the path are live, and lie in the bucket the path leaves. */
  lemma PathEntry<V>(p: Params<V>, t: Table<V>, view: map<nat, V>,
                     bs: seq<nat>, ss: seq<nat>, s: Slot<V>, j: nat)
    requires CanDisplace(p, t, view, bs, ss, s) && j < |bs| - 1
    ensures InBounds(t, bs, ss) && Shape(p, t)
    ensures Live(p, t, bs[j], ss[j])
    ensures var g := t[bs[j]][ss[j]].hash;
      && g in view && view[g] == t[bs[j]][ss[j]].val
      && IsCandidate(p, g, bs[j]) && IsCandidate(p, g, bs[j + 1])
      && (First(p, g) == bs[j] ==> Second(p, g) == bs[j + 1])
      && (First(p, g) != bs[j] ==> First(p, g) == bs[j + 1] && Second(p, g) == bs[j])
      && (forall i :: 0 <= i < p.k && i != ss[j] ==> t[bs[j]][i].hash != g)
      && FirstMatch(t[bs[j + 1]], g) >= ss[j + 1]
  {
    var b, x, c := bs[j], ss[j], bs[j + 1];
    assert Live(p, t, b, x);
    forall i | 0 <= i < p.k && i != x
      ensures t[b][i].hash != t[b][x].hash
    {
      assert Live(p, t, b, i);
    }
    var e := ss[j + 1];
    forall i | 0 <= i < e
      ensures t[c][i].hash != t[b][x].hash
    {
      if j + 1 == |bs| - 1 {
        assert e == FirstEmpty(t[c], p.nil);
      }
      assert Live(p, t, c, i);
    }
  }

  lemma MatchAt<V>(b: Bucket<V>, y: nat, e: Slot<V>, g: nat)
    requires y < |b| && FirstMatch(b, g) >= y && e.hash == g
    ensures FirstMatch(b[y := e], g) == y
  {
    assert b[y := e][y].hash == g;
  }

  lemma MatchGone<V>(b: Bucket<V>, x: nat, e: Slot<V>, g: nat)
    requires x < |b| && e.hash != g && forall i :: 0 <= i < |b| && i != x ==> b[i].hash != g
    ensures NoMatch(b[x := e], g)
  {
  }

  /** A hash with candidate buckets b and c is found if c has it and b agrees. */
  lemma StrictFromPair<V>(p: Params<V>, m: Table<V>, g: nat, v: V, b: nat, c: nat)
    requires Shape(p, m) && b < |m| && c < |m|
    requires (First(p, g) == b && Second(p, g) == c) || (First(p, g) == c && Second(p, g) == b)
    requires !NoMatch(m[c], g) && FindIn(m[c], g, p.nil) == v
    requires NoMatch(m[b], g) || FindIn(m[b], g, p.nil) == v
    ensures StrictFind(p, m, g) == v
  {
  }

  /** What bucket bs[j] shows for the hash that leaves it, before and after it left. */
  lemma LeavingBucket<V>(p: Params<V>, t: Table<V>, view: map<nat, V>,
                         bs: seq<nat>, ss: seq<nat>, s: Slot<V>, k: nat, j: nat)
    requires CanDisplace(p, t, view, bs, ss, s) && k <= |bs| && j < |bs| - 1
    ensures InBounds(t, bs, ss)
    ensures var g := t[bs[j]][ss[j]].hash;
      var x := Moved(t, bs, ss, s, k)[bs[j]];
      if j < k then FindIn(x, g, p.nil) == t[bs[j]][ss[j]].val else NoMatch(x, g)
  {
    hide CanDisplace;
    PlanFacts(p, t, view, bs, ss, s);
    MovedAt(t, bs, ss, s, k, j);
    PathEntry(p, t, view, bs, ss, s, j);
    var b, x := bs[j], ss[j];
    var g := t[b][x].hash;
    if j >= k {
      IncomingDiffers(p, t, view, bs, ss, s, j);
      MatchGone(t[b], x, Incoming(t, bs, ss, s, j), g);
    } else {
      assert FirstMatch(t[b], g) == x;
    }
  }

  lemma MovedStrictOnPath<V>(p: Params<V>, t: Table<V>, view: map<nat, V>,
                             bs: seq<nat>, ss: seq<nat>, s: Slot<V>, k: nat, j: nat)
    requires CanDisplace(p, t, view, bs, ss, s) && k <= |bs| && j < |bs| - 1
    ensures InBounds(t, bs, ss)
    ensures StrictFind(p, Moved(t, bs, ss, s, k), t[bs[j]][ss[j]].hash) == t[bs[j]][ss[j]].val
  {
    hide CanDisplace;
    PlanFacts(p, t, view, bs, ss, s);
    MovedAt(t, bs, ss, s, k, j);
    MovedAt(t, bs, ss, s, k, j + 1);
    PathEntry(p, t, view, bs, ss, s, j);
    LeavingBucket(p, t, view, bs, ss, s, k, j);
    var m := Moved(t, bs, ss, s, k);
    var b, x, c, y := bs[j], ss[j], bs[j + 1], ss[j + 1];
    var g := t[b][x].hash;
    if j + 1 < k {
      assert m[b] == t[b] && m[c] == t[c];
      PlanView(p, t, view, bs, ss, s, g);
    } else {
      assert m[c] == t[c][y := t[b][x]];
      MatchAt(t[c], y, t[b][x], g);
      StrictFromPair(p, m, g, t[b][x].val, b, c);
    }
  }

  lemma IncomingDiffers<V>(p: Params<V>, t: Table<V>, view: map<nat, V>,
                           bs: seq<nat>, ss: seq<nat>, s: Slot<V>, j: nat)
    requires CanDisplace(p, t, view, bs, ss, s) && j < |bs| - 1
    ensures InBounds(t, bs, ss)
    ensures Incoming(t, bs, ss, s, j).hash != t[bs[j]][ss[j]].hash
  {
    PathEntry(p, t, view, bs, ss, s, j);
    if j > 0 {
      PathEntry(p, t, view, bs, ss, s, j - 1);
    }
  }

  lemma {:induction false} MovedStrictOffPath<V>(p: Params<V>, t: Table<V>, view: map<nat, V>,
                                                 bs: seq<nat>, ss: seq<nat>, s: Slot<V>, k: nat, g: nat)
    requires CanDisplace(p, t, view, bs, ss, s) && k <= |bs| && g in view
    requires forall j :: 0 <= j < |bs| - 1 ==> t[bs[j]][ss[j]].hash != g
    ensures InBounds(t, bs, ss)
    ensures StrictFind(p, Moved(t, bs, ss, s, k), g) == view[g]
    decreases |bs| - k
  {
    hide CanDisplace;
    PlanFacts(p, t, view, bs, ss, s);
    PlanView(p, t, view, bs, ss, s, g);
    if k < |bs| {
      MovedStrictOffPath(p, t, view, bs, ss, s, k + 1, g);
      MovedAt(t, bs, ss, s, k + 1, k);
      var m := Moved(t, bs, ss, s, k + 1);
      assert m[bs[k]] == t[bs[k]];
      if k > 0 {
        PathEntry(p, t, view, bs, ss, s, k - 1);
      }
      PutKeepsFind(p, m, bs[k], ss[k], Incoming(t, bs, ss, s, k), g);
    }
  }

  lemma MovedStrict<V>(p: Params<V>, t: Table<V>, view: map<nat, V>,
                       bs: seq<nat>, ss: seq<nat>, s: Slot<V>, k: nat, g: nat)
    requires CanDisplace(p, t, view, bs, ss, s) && k <= |bs| && g in view
    ensures InBounds(t, bs, ss)
    ensures StrictFind(p, Moved(t, bs, ss, s, k), g) == view[g]
  {
    hide CanDisplace;
    PlanFacts(p, t, view, bs, ss, s);
    if j :| 0 <= j < |bs| - 1 && t[bs[j]][ss[j]].hash == g {
      PathEntry(p, t, view, bs, ss, s, j);
      MovedStrictOnPath(p, t, view, bs, ss, s, k, j);
    } else {
      MovedStrictOffPath(p, t, view, bs, ss, s, k, g);
    }
  }

  lemma {:induction false} MovedLive<V>(p: Params<V>, t: Table<V>, view: map<nat, V>,
                                        bs: seq<nat>, ss: seq<nat>, s: Slot<V>, k: nat, b: nat, i: nat)
    requires CanDisplace(p, t, view, bs, ss, s) && k <= |bs|
    requires InBounds(t, bs, ss) && Live(p, Moved(t, bs, ss, s, k), b, i)
    ensures var e := Moved(t, bs, ss, s, k)[b][i];
      IsCandidate(p, e.hash, b) && ((e.hash in view && view[e.hash] == e.val) || (k == 0 && e == s))
    decreases |bs| - k
  {
    if k == |bs| {
      assert Live(p, t, b, i);
    } else if b == bs[k] && i == ss[k] {
      if k > 0 {
        PathEntry(p, t, view, bs, ss, s, k - 1);
      }
    } else {
      assert Moved(t, bs, ss, s, k)[b][i] == Moved(t, bs, ss, s, k + 1)[b][i];
      MovedLive(p, t, view, bs, ss, s, k + 1, b, i);
    }
  }

  /** No displacement step hides an entry: before the new entry is stored, every hash
      still scans to its value and every live slot is where it may be. */
  lemma MovedConsistent<V>(p: Params<V>, t: Table<V>, view: map<nat, V>,
                           bs: seq<nat>, ss: seq<nat>, s: Slot<V>, k: nat)
    requires CanDisplace(p, t, view, bs, ss, s) && 1 <= k <= |bs|
    ensures InBounds(t, bs, ss)
    ensures Consistent(p, Moved(t, bs, ss, s, k), view)
  {
    hide CanDisplace;
    PlanFacts(p, t, view, bs, ss, s);
    var m := Moved(t, bs, ss, s, k);
    forall b: nat, i: nat | Live(p, m, b, i)
      ensures IsCandidate(p, m[b][i].hash, b)
      ensures m[b][i].hash in view && view[m[b][i].hash] == m[b][i].val
    {
      MovedLive(p, t, view, bs, ss, s, k, b, i);
    }
    forall g | g in view
      ensures StrictFind(p, m, g) == view[g] != p.nil
    {
      PlanView(p, t, view, bs, ss, s, g);
      MovedStrict(p, t, view, bs, ss, s, k, g);
    }
  }

  /** Inserting an absent hash along a path settles the table with the hash added and
      loses, duplicates or changes nothing else. */
  lemma DisplacedSettled<V>(p: Params<V>, t: Table<V>, view: map<nat, V>,
                            bs: seq<nat>, ss: seq<nat>, s: Slot<V>)
    requires CanDisplace(p, t, view, bs, ss, s)
    ensures InBounds(t, bs, ss)
    ensures Settled(p, Moved(t, bs, ss, s, 0), view[s.hash := s.val])
  {
    hide CanDisplace;
    PlanFacts(p, t, view, bs, ss, s);
    var r := Moved(t, bs, ss, s, 0);
    var view' := view[s.hash := s.val];
    forall b: nat, i: nat | Live(p, r, b, i)
      ensures IsCandidate(p, r[b][i].hash, b)
      ensures r[b][i].hash in view' && view'[r[b][i].hash] == r[b][i].val
    {
      MovedLive(p, t, view, bs, ss, s, 0, b, i);
    }
    forall g | g in view'
      ensures StrictFind(p, r, g) == view'[g] != p.nil
    {
      if g == s.hash {
        DisplacedFindsNew(p, t, view, bs, ss, s);
      } else {
        PlanView(p, t, view, bs, ss, s, g);
        MovedStrict(p, t, view, bs, ss, s, 0, g);
      }
    }
    DisplacedUnique(p, t, view, bs, ss, s);
  }

  lemma DisplacedFindsNew<V>(p: Params<V>, t: Table<V>, view: map<nat, V>,
                             bs: seq<nat>, ss: seq<nat>, s: Slot<V>)
    requires CanDisplace(p, t, view, bs, ss, s)
    ensures InBounds(t, bs, ss)
    ensures StrictFind(p, Moved(t, bs, ss, s, 0), s.hash) == s.val
  {
    hide CanDisplace;
    PlanFacts(p, t, view, bs, ss, s);
    MovedAt(t, bs, ss, s, 0, 0);
    var r := Moved(t, bs, ss, s, 0);
    assert r[bs[0]] == t[bs[0]][ss[0] := s];
    MatchAt(t[bs[0]], ss[0], s, s.hash);
    var f := First(p, s.hash);
    if bs[0] != f {
      if f in bs {
        var j :| 0 <= j < |bs| && f == bs[j];
        MovedAt(t, bs, ss, s, 0, j);
        PathEntry(p, t, view, bs, ss, s, j - 1);
        MatchGone(t[f], ss[j], t[bs[j - 1]][ss[j - 1]], s.hash);
      } else {
        MovedElsewhere(t, bs, ss, s, 0, f);
      }
    }
  }

  /** Where the entry now in slot (b, i) was before; the new entry has no origin. */
  lemma DisplacedOrigin<V>(p: Params<V>, t: Table<V>, view: map<nat, V>,
                           bs: seq<nat>, ss: seq<nat>, s: Slot<V>, b: nat, i: nat)
    returns (k: nat, c: nat, j: nat)
    requires CanDisplace(p, t, view, bs, ss, s)
    requires InBounds(t, bs, ss) && Live(p, Moved(t, bs, ss, s, 0), b, i)
    requires Moved(t, bs, ss, s, 0)[b][i].hash != s.hash
    ensures Live(p, t, c, j) && Moved(t, bs, ss, s, 0)[b][i] == t[c][j]
    ensures k < |bs| ==> k > 0 && b == bs[k] && i == ss[k] && c == bs[k - 1] && j == ss[k - 1]
    ensures k >= |bs| ==> c == b && j == i
    ensures k >= |bs| ==> forall m :: 0 <= m < |bs| ==> b != bs[m] || i != ss[m]
  {
    hide CanDisplace;
    PlanFacts(p, t, view, bs, ss, s);
    if m :| 0 <= m < |bs| && b == bs[m] && i == ss[m] {
      MovedAt(t, bs, ss, s, 0, m);
      k, c, j := m, bs[m - 1], ss[m - 1];
      PathEntry(p, t, view, bs, ss, s, m - 1);
    } else {
      k, c, j := |bs|, b, i;
      if b in bs {
        var m :| 0 <= m < |bs| && b == bs[m];
        MovedAt(t, bs, ss, s, 0, m);
      } else {
        MovedElsewhere(t, bs, ss, s, 0, b);
      }
    }
  }

  lemma DisplacedUnique<V>(p: Params<V>, t: Table<V>, view: map<nat, V>,
                           bs: seq<nat>, ss: seq<nat>, s: Slot<V>)
    requires CanDisplace(p, t, view, bs, ss, s) && InBounds(t, bs, ss)
    ensures Unique(p, Moved(t, bs, ss, s, 0))
  {
    var r := Moved(t, bs, ss, s, 0);
    forall b: nat, i: nat, c: nat, j: nat
      | Live(p, r, b, i) && Live(p, r, c, j) && r[b][i].hash == r[c][j].hash
      ensures b == c && i == j
    {
      if r[b][i].hash == s.hash {
        NewEntryIsAlone(p, t, view, bs, ss, s, b, i);
        NewEntryIsAlone(p, t, view, bs, ss, s, c, j);
      } else {
        var k1, b', i' := DisplacedOrigin(p, t, view, bs, ss, s, b, i);
        var k2, c', j' := DisplacedOrigin(p, t, view, bs, ss, s, c, j);
        assert b' == c' && i' == j';
        PlanFacts(p, t, view, bs, ss, s);
      }
    }
  }

  lemma NewEntryIsAlone<V>(p: Params<V>, t: Table<V>, view: map<nat, V>,
                           bs: seq<nat>, ss: seq<nat>, s: Slot<V>, b: nat, i: nat)
    requires CanDisplace(p, t, view, bs, ss, s) && InBounds(t, bs, ss)
    requires Live(p, Moved(t, bs, ss, s, 0), b, i) && Moved(t, bs, ss, s, 0)[b][i].hash == s.hash
    ensures b == bs[0] && i == ss[0]
  {
    var r := Moved(t, bs, ss, s, 0);
    if b != bs[0] || i != ss[0] {
      var m := Moved(t, bs, ss, s, 1);
      assert r[b][i] == m[b][i] && Live(p, m, b, i);
      MovedLive(p, t, view, bs, ss, s, 1, b, i);
      assert false;
    }
  }

  // Single stores.

  ghost predicate SameHashes<V>(b: Bucket<V>, b': Bucket<V>) {
    |b| == |b'| && forall i :: 0 <= i < |b| ==> b[i].hash == b'[i].hash
  }

  lemma SameHashesSameMatch<V>(b: Bucket<V>, b': Bucket<V>, hash: nat)
    requires SameHashes(b, b')
    ensures FirstMatch(b, hash) == FirstMatch(b', hash)
  {
  }

  /** A single pointer store to slot (b, i), which leaves the counter alone: chaining to
      an entry, reusing a slot that still has the hash, replacing or removing an entry. */
  ghost predicate CanStore<V>(p: Params<V>, t: Table<V>, view: map<nat, V>, b: nat, i: nat) {
    && Settled(p, t, view) && b < |t| && i < p.k
    && var h := t[b][i].hash;
    && FirstMatch(t[b], h) == i && IsCandidate(p, h, b)
    && (b != First(p, h) ==> NoMatch(t[First(p, h)], h))
    && (h in view ==> t[b][i].val != p.nil)
  }

  function Stored<V(==)>(p: Params<V>, view: map<nat, V>, hash: nat, v: V): map<nat, V> {
    if v == p.nil then view - {hash} else view[hash := v]
  }

  lemma StoreSettled<V>(p: Params<V>, t: Table<V>, view: map<nat, V>, b: nat, i: nat, v: V)
    requires CanStore(p, t, view, b, i)
    ensures var h := t[b][i].hash;
      Settled(p, Put(t, b, i, Slot(h, v)), Stored(p, view, h, v))
  {
    var h := t[b][i].hash;
    var r, view' := Put(t, b, i, Slot(h, v)), Stored(p, view, h, v);
    StoreLive(p, t, view, b, i, v);
    forall g | g in view'
      ensures view'[g] != p.nil && StrictFind(p, r, g) == view'[g]
    {
      if g == h {
        SameHashesSameMatch(t[b], r[b], h);
        SameHashesSameMatch(t[First(p, h)], r[First(p, h)], h);
      } else {
        PutKeepsFind(p, t, b, i, Slot(h, v), g);
      }
    }
  }

  lemma StoreLive<V>(p: Params<V>, t: Table<V>, view: map<nat, V>, b: nat, i: nat, v: V)
    requires CanStore(p, t, view, b, i)
    ensures var h := t[b][i].hash;
      var r, view' := Put(t, b, i, Slot(h, v)), Stored(p, view, h, v);
      && Unique(p, r)
      && forall c: nat, j: nat :: Live(p, r, c, j) ==>
          && IsCandidate(p, r[c][j].hash, c)
          && r[c][j].hash in view' && view'[r[c][j].hash] == r[c][j].val
  {
    var h := t[b][i].hash;
    var r, view' := Put(t, b, i, Slot(h, v)), Stored(p, view, h, v);
    forall c: nat, j: nat | Live(p, r, c, j)
      ensures (c == b && j == i) || (Live(p, t, c, j) && r[c][j] == t[c][j] && r[c][j].hash != h)
    {
      if c != b || j != i {
        assert r[c][j] == t[c][j] && Live(p, t, c, j);
        if t[c][j].hash == h {
          assert Live(p, t, b, i);
          assert false;
        }
      }
    }
  }

  /** The first slot with `hash` in the first candidate bucket that has one may be stored to. */
  lemma MatchCanStore<V>(p: Params<V>, t: Table<V>, view: map<nat, V>, hash: nat, b: nat)
    requires Settled(p, t, view) && b < |t| && !NoMatch(t[b], hash)
    requires b == First(p, hash) || (b == Second(p, hash) && NoMatch(t[First(p, hash)], hash))
    ensures CanStore(p, t, view, b, FirstMatch(t[b], hash))
    ensures t[b][FirstMatch(t[b], hash)] == Slot(hash, ViewAt(p, view, hash))
  {
  }

  lemma LiveCanStore<V>(p: Params<V>, t: Table<V>, view: map<nat, V>, b: nat, i: nat)
    requires Settled(p, t, view) && Live(p, t, b, i)
    ensures CanStore(p, t, view, b, i)
    ensures t[b][i].hash in view && view[t[b][i].hash] == t[b][i].val
  {
  }

  /** A slot that carries an absent hash is unused, so none comes before the first
      unused slot of its bucket. */
  lemma AbsentMatchIsUnused<V>(p: Params<V>, t: Table<V>, view: map<nat, V>, hash: nat, b: nat)
    requires Consistent(p, t, view) && hash !in view && b < |t|
    ensures FirstMatch(t[b], hash) >= FirstEmpty(t[b], p.nil)
    ensures Full(t[b], p.nil) ==> NoMatch(t[b], hash)
  {
  }

  lemma AbsentFromView<V>(p: Params<V>, t: Table<V>, view: map<nat, V>, hash: nat)
    requires Consistent(p, t, view)
    requires NoMatch(t[First(p, hash)], hash) && NoMatch(t[Second(p, hash)], hash)
    ensures hash !in view
  {
  }

  /** An absent hash can take the first unused slot of a candidate bucket. */
  lemma EmptyCanDisplace<V>(p: Params<V>, t: Table<V>, view: map<nat, V>, s: Slot<V>, b: nat)
    requires Settled(p, t, view) && s.hash !in view && s.val != p.nil
    requires IsCandidate(p, s.hash, b) && !Full(t[b], p.nil)
    requires b != First(p, s.hash) ==> NoMatch(t[First(p, s.hash)], s.hash)
    ensures CanDisplace(p, t, view, [b], [FirstEmpty(t[b], p.nil)], s)
    ensures Moved(t, [b], [FirstEmpty(t[b], p.nil)], s, 0) == Put(t, b, FirstEmpty(t[b], p.nil), s)
  {
  }

  /** An absent hash whose candidate buckets are full can take a longer path. */
  lemma PathCanDisplace<V>(p: Params<V>, t: Table<V>, view: map<nat, V>, s: Slot<V>, bs: seq<nat>, ss: seq<nat>)
    requires Settled(p, t, view) && s.hash !in view && s.val != p.nil && PathOK(p, t, s.hash, bs, ss)
    requires Full(t[First(p, s.hash)], p.nil) && Full(t[Second(p, s.hash)], p.nil)
    ensures CanDisplace(p, t, view, bs, ss, s)
  {
    AbsentMatchIsUnused(p, t, view, s.hash, First(p, s.hash));
    AbsentMatchIsUnused(p, t, view, s.hash, Second(p, s.hash));
  }
}
