/** One writer and any number of lock-free readers of a cuckoo map (lib/cmap.c).

    The writer's operations are broken into the individual stores that
    cmap_set_bucket(), cmap_insert_dup() and cmap_replace__() make, and a lookup into the
    individual loads of cmap_find__(); steps of the writer and of the readers interleave
    arbitrarily.  The result is that every lookup is linearizable: what it returns is the
    value the map had for that hash at some instant between the start of the call and its
    return.  In particular it is not null for a hash that was present throughout.

    The payload type `V` stands for the pointer kept in a slot, `nil` for null.  Steps are
    sequentially consistent.  Readers compare bucket counters modulo 2^32, as the source
    does, so the statements assume that no counter moves by 2^32 while one lookup holds a
    copy of it.
  */
module CmapReaders {
  import opened CuckooTable

  /** One bucket array in memory: slots and change counters as a reader finds them.
      `view` is the map the array represents; no step reads it. */
  datatype Impl<V> = Impl(p: Params<V>, slots: Table<V>, ctr: seq<nat>, view: map<nat, V>)

  datatype Phase = Ready | CounterOdd | NodeStored | HashStored

  /** The writer is between operations, or displacing entries along a path: the writes to
      bs[k + 1], bs[k + 2], ... are complete and the one to bs[k] is under way. */
  datatype Writer<V> = Idle | Moving(plan: Plan<V>, k: nat, phase: Phase)

  /** The displacement being made: its path, the new entry, and the table before it. */
  datatype Plan<V> = Plan(base: Table<V>, bs: seq<nat>, ss: seq<nat>, s: Slot<V>)

  datatype Pc = ReadC1 | Scan1 | Load1 | Check1 | ReadC2 | Scan2 | Load2 | Check2 | Recheck | Returned

  /** A call of cmap_find__ for `hash` on bucket array number `im`.  `hist` records the
      values the map has had for `hash` since the call began. */
  datatype Reader<V> =
    Reader(im: nat, hash: nat, pc: Pc, c1: nat, c2: nat, pos: nat, node: V, hist: set<V>)

  /** `impls` are the bucket arrays in order of publication; the last is current, and the
      others are kept alive for readers that still use them. */
  datatype Sys<V> = Sys(impls: seq<Impl<V>>, writer: Writer<V>, readers: seq<Reader<V>>)

  predicate WellShaped<V>(im: Impl<V>) {
    Shape(im.p, im.slots) && |im.ctr| == |im.slots|
  }

  predicate Changed(counter: nat, c: nat) {
    counter % TWO32 != c % TWO32
  }

  // The reader.

  function ReaderStep<V(==)>(im: Impl<V>, r: Reader<V>): Reader<V>
    requires WellShaped(im) && r.pos <= im.p.k && (r.pc in {Load1, Load2} ==> r.pos < im.p.k)
  {
    var b1, b2 := First(im.p, r.hash), Second(im.p, r.hash);
    match r.pc
    case ReadC1 =>
      if im.ctr[b1] % 2 == 1 then r else r.(pc := Scan1, c1 := im.ctr[b1], pos := 0)
    case Scan1 =>
      if r.pos == im.p.k then r.(pc := Check1, node := im.p.nil)
      else if im.slots[b1][r.pos].hash == r.hash then r.(pc := Load1)
      else r.(pos := r.pos + 1)
    case Load1 => r.(pc := Check1, node := im.slots[b1][r.pos].val)
    case Check1 =>
      if Changed(im.ctr[b1], r.c1) then r.(pc := ReadC1)
      else if r.node != im.p.nil then r.(pc := Returned)
      else r.(pc := ReadC2)
    case ReadC2 =>
      if im.ctr[b2] % 2 == 1 then r else r.(pc := Scan2, c2 := im.ctr[b2], pos := 0)
    case Scan2 =>
      if r.pos == im.p.k then r.(pc := Check2, node := im.p.nil)
      else if im.slots[b2][r.pos].hash == r.hash then r.(pc := Load2)
      else r.(pos := r.pos + 1)
    case Load2 => r.(pc := Check2, node := im.slots[b2][r.pos].val)
    case Check2 =>
      if Changed(im.ctr[b2], r.c2) then r.(pc := ReadC2)
      else if r.node != im.p.nil then r.(pc := Returned)
      else r.(pc := Recheck)
    case Recheck =>
      if Changed(im.ctr[b1], r.c1) then r.(pc := ReadC1) else r.(pc := Returned)
    case Returned => r
  }

  /** A bucket whose counter is even has the contents it has in `logical`, and `logical`
      represents the view. */
  ghost predicate Represents<V>(im: Impl<V>, logical: Table<V>) {
    && WellShaped(im) && Consistent(im.p, logical, im.view)
    && forall b :: 0 <= b < |im.ctr| && im.ctr[b] % 2 == 0 ==> im.slots[b] == logical[b]
  }

  predicate InRound1(pc: Pc) { pc in {Scan1, Load1, Check1} }
  predicate InRound2(pc: Pc) { pc in {Scan2, Load2, Check2} }
  predicate PastRound1(pc: Pc) { pc in {ReadC2, Scan2, Load2, Check2, Recheck} }

  /** A scan that has passed the first `pos` slots of bucket b since it read counter c. */
  ghost predicate Scanned<V>(im: Impl<V>, hash: nat, b: nat, c: nat, pos: nat, matched: bool)
    requires WellShaped(im) && b < |im.slots|
  {
    && c % 2 == 0 && pos <= im.p.k && (matched ==> pos < im.p.k) && c <= im.ctr[b]
    && (im.ctr[b] == c ==>
          && FirstMatch(im.slots[b], hash) >= pos
          && (matched ==> FirstMatch(im.slots[b], hash) == pos))
  }

  /** The first bucket has no slot with the hash, or the hash was absent meanwhile. */
  ghost predicate Missed<V>(im: Impl<V>, r: Reader<V>, b: nat)
    requires b < |im.slots|
  {
    NoMatch(im.slots[b], r.hash) || im.p.nil in r.hist
  }

  /** The invariant of one reader.  What it knows about a bucket holds as long as the
      counter it read is still the bucket's counter. */
  ghost predicate ReaderOK<V>(im: Impl<V>, r: Reader<V>)
    requires WellShaped(im)
  {
    var b1, b2 := First(im.p, r.hash), Second(im.p, r.hash);
    var nil := im.p.nil;
    && ViewAt(im.p, im.view, r.hash) in r.hist
    && r.pos <= im.p.k
    && (r.pc in {Scan1, Load1} ==> Scanned(im, r.hash, b1, r.c1, r.pos, r.pc == Load1))
    && (r.pc in {Scan2, Load2} ==> Scanned(im, r.hash, b2, r.c2, r.pos, r.pc == Load2))
    && (r.pc == Check1 || PastRound1(r.pc) ==> r.c1 % 2 == 0 && r.c1 <= im.ctr[b1])
    && (r.pc == Check1 && im.ctr[b1] == r.c1 ==>
          if r.node != nil then r.node in r.hist else Missed(im, r, b1))
    && (PastRound1(r.pc) && im.ctr[b1] == r.c1 ==> Missed(im, r, b1))
    && (r.pc == Check2 ==> r.c2 <= im.ctr[b2])
    && (r.pc == Check2 && im.ctr[b2] == r.c2 ==>
          if r.node != nil then r.node in r.hist else (im.ctr[b1] == r.c1 ==> nil in r.hist))
    && (r.pc == Recheck ==> r.node == nil && (im.ctr[b1] == r.c1 ==> nil in r.hist))
    && (r.pc == Returned ==> r.node in r.hist)
  }

  /** The reader has not slept through 2^32 changes of a counter it holds. */
  ghost predicate Awake<V>(im: Impl<V>, r: Reader<V>) {
    && WellShaped(im)
    && (InRound1(r.pc) || PastRound1(r.pc) ==> im.ctr[First(im.p, r.hash)] < r.c1 + TWO32)
    && (InRound2(r.pc) ==> im.ctr[Second(im.p, r.hash)] < r.c2 + TWO32)
  }

  lemma UnchangedIsSame(counter: nat, c: nat)
    requires c <= counter < c + TWO32 && !Changed(counter, c)
    ensures counter == c
  {
  }

  /** A payload read from the first match of a quiet bucket is the map's current value,
      and so is null when neither bucket shows one. */
  lemma QuietBucket<V>(im: Impl<V>, logical: Table<V>, hash: nat, b: nat)
    requires Represents(im, logical) && b < |im.ctr| && im.ctr[b] % 2 == 0
    ensures FirstMatch(im.slots[b], hash) < im.p.k ==>
      var v := im.slots[b][FirstMatch(im.slots[b], hash)].val;
      v != im.p.nil ==> v == ViewAt(im.p, im.view, hash)
    ensures b == First(im.p, hash) && FirstMatch(im.slots[b], hash) < im.p.k ==>
      var v := im.slots[b][FirstMatch(im.slots[b], hash)].val;
      v == im.p.nil ==> ViewAt(im.p, im.view, hash) == im.p.nil
  {
    var i := FirstMatch(im.slots[b], hash);
    if i < im.p.k && im.slots[b][i].val != im.p.nil {
      assert Live(im.p, logical, b, i);
    }
  }

  lemma BothQuiet<V>(im: Impl<V>, logical: Table<V>, hash: nat)
    requires Represents(im, logical)
    requires im.ctr[First(im.p, hash)] % 2 == 0 && im.ctr[Second(im.p, hash)] % 2 == 0
    requires NoMatch(im.slots[First(im.p, hash)], hash)
    requires FindIn(im.slots[Second(im.p, hash)], hash, im.p.nil) == im.p.nil
    ensures ViewAt(im.p, im.view, hash) == im.p.nil
  {
  }

  lemma Round1OK<V>(im: Impl<V>, logical: Table<V>, r: Reader<V>)
    requires Represents(im, logical) && ReaderOK(im, r) && Awake(im, r)
    requires r.pc in {ReadC1, Scan1, Load1, Check1} && (r.pc == Load1 ==> r.pos < im.p.k)
    ensures ReaderOK(im, ReaderStep(im, r))
  {
    var b1 := First(im.p, r.hash);
    if r.pc in {Scan1, Load1} && im.ctr[b1] == r.c1 {
      QuietBucket(im, logical, r.hash, b1);
    }
    if r.pc == Check1 && !Changed(im.ctr[b1], r.c1) {
      UnchangedIsSame(im.ctr[b1], r.c1);
    }
  }

  lemma Round2OK<V>(im: Impl<V>, logical: Table<V>, r: Reader<V>)
    requires Represents(im, logical) && ReaderOK(im, r) && Awake(im, r)
    requires r.pc in {ReadC2, Scan2, Load2, Check2} && (r.pc == Load2 ==> r.pos < im.p.k)
    ensures ReaderOK(im, ReaderStep(im, r))
  {
    var b1, b2 := First(im.p, r.hash), Second(im.p, r.hash);
    if r.pc in {Scan2, Load2} && im.ctr[b2] == r.c2 {
      QuietBucket(im, logical, r.hash, b2);
      if FindIn(im.slots[b2], r.hash, im.p.nil) == im.p.nil && im.ctr[b1] == r.c1 && NoMatch(im.slots[b1], r.hash) {
        BothQuiet(im, logical, r.hash);
      }
    }
    if r.pc == Check2 && !Changed(im.ctr[b2], r.c2) {
      UnchangedIsSame(im.ctr[b2], r.c2);
    }
  }

  lemma ReaderStepOK<V>(im: Impl<V>, logical: Table<V>, r: Reader<V>)
    requires Represents(im, logical) && ReaderOK(im, r) && Awake(im, r)
    requires r.pc in {Load1, Load2} ==> r.pos < im.p.k
    ensures ReaderOK(im, ReaderStep(im, r))
  {
    if r.pc in {ReadC1, Scan1, Load1, Check1} {
      Round1OK(im, logical, r);
    } else if r.pc in {ReadC2, Scan2, Load2, Check2} {
      Round2OK(im, logical, r);
    } else if r.pc == Recheck && !Changed(im.ctr[First(im.p, r.hash)], r.c1) {
      UnchangedIsSame(im.ctr[First(im.p, r.hash)], r.c1);
    }
  }

  /** What a step of the writer may do to memory: move counters forward, and change
      hashes only in buckets whose counter is odd or moves. */
  ghost predicate Disturbs<V>(im: Impl<V>, im': Impl<V>) {
    && WellShaped(im) && WellShaped(im') && im'.p == im.p
    && (forall b :: 0 <= b < |im.ctr| ==> im.ctr[b] <= im'.ctr[b])
    && (forall b :: 0 <= b < |im.ctr| && im.ctr[b] % 2 == 0 && im'.ctr[b] == im.ctr[b] ==>
          SameHashes(im.slots[b], im'.slots[b]))
  }

  lemma ReaderUndisturbed<V>(im: Impl<V>, im': Impl<V>, r: Reader<V>, hist: set<V>)
    requires Disturbs(im, im') && ReaderOK(im, r)
    requires r.hist <= hist && ViewAt(im'.p, im'.view, r.hash) in hist
    ensures ReaderOK(im', r.(hist := hist))
  {
    var b1, b2 := First(im.p, r.hash), Second(im.p, r.hash);
    if im.ctr[b1] % 2 == 0 && im'.ctr[b1] == im.ctr[b1] {
      SameHashesSameMatch(im.slots[b1], im'.slots[b1], r.hash);
    }
    if im.ctr[b2] % 2 == 0 && im'.ctr[b2] == im.ctr[b2] {
      SameHashesSameMatch(im.slots[b2], im'.slots[b2], r.hash);
    }
  }

  // The writer.

  /** The contents of the bucket being written at each stage of cmap_set_bucket(). */
  function InFlux<V>(b: Bucket<V>, i: nat, s: Slot<V>, phase: Phase): Bucket<V>
    requires i < |b|
  {
    match phase
    case Ready => b
    case CounterOdd => b
    case NodeStored => b[i := Slot(b[i].hash, s.val)]
    case HashStored => b[i := s]
  }

  function After<V>(plan: Plan<V>, k: nat): Table<V>
    requires InBounds(plan.base, plan.bs, plan.ss) && k <= |plan.bs|
  {
    Moved(plan.base, plan.bs, plan.ss, plan.s, k)
  }

  function Arriving<V>(plan: Plan<V>, k: nat): Slot<V>
    requires InBounds(plan.base, plan.bs, plan.ss) && k < |plan.bs|
  {
    Incoming(plan.base, plan.bs, plan.ss, plan.s, k)
  }

  ghost predicate PlanOK<V>(p: Params<V>, view: map<nat, V>, plan: Plan<V>) {
    CanDisplace(p, plan.base, view, plan.bs, plan.ss, plan.s)
  }

  /** Memory while the write to bs[k] is under way. */
  ghost predicate FluxOK<V>(im: Impl<V>, plan: Plan<V>, k: nat, phase: Phase) {
    && WellShaped(im)
    && InBounds(plan.base, plan.bs, plan.ss) && k < |plan.bs|
    && var m, b := After(plan, k + 1), plan.bs[k];
    && im.slots == m[b := InFlux(m[b], plan.ss[k], Arriving(plan, k), phase)]
    && forall c :: 0 <= c < |im.ctr| ==>
        im.ctr[c] % 2 == (if c == b && phase != Ready then 1 else 0)
  }

  ghost predicate AtRest<V>(im: Impl<V>) {
    && WellShaped(im) && Settled(im.p, im.slots, im.view)
    && forall b :: 0 <= b < |im.ctr| ==> im.ctr[b] % 2 == 0
  }

  /** The current array and the writer's progress agree. */
  ghost predicate WriterOK<V>(im: Impl<V>, w: Writer<V>) {
    match w
    case Idle => AtRest(im)
    case Moving(plan, k, phase) => PlanOK(im.p, im.view, plan) && FluxOK(im, plan, k, phase)
  }

  ghost function Logical<V>(im: Impl<V>, w: Writer<V>): Table<V>
    requires WriterOK(im, w)
  {
    match w
    case Idle => im.slots
    case Moving(plan, k, _) => After(plan, k + 1)
  }

  lemma WriterRepresents<V>(im: Impl<V>, w: Writer<V>)
    requires WriterOK(im, w)
    ensures Represents(im, Logical(im, w))
  {
    if w.Moving? {
      var plan, k := w.plan, w.k;
      MovedConsistent(im.p, plan.base, im.view, plan.bs, plan.ss, plan.s, k + 1);
      var m := After(plan, k + 1);
      assert forall c :: 0 <= c < |m| && c != plan.bs[k] ==> im.slots[c] == m[c];
    }
  }

  /** One store of the writer. */
  ghost predicate WriterStep<V>(im: Impl<V>, w: Writer<V>, im': Impl<V>, w': Writer<V>) {
    || StoreStep(im, w, im', w')
    || (w.Idle? && StartMove(im, im', w'))
    || (w.Moving? && MoveStep(im, w, im', w'))
  }

  ghost predicate StoreStep<V>(im: Impl<V>, w: Writer<V>, im': Impl<V>, w': Writer<V>) {
    && w.Idle? && w'.Idle?
    && exists b: nat, i: nat ::
        && CanStore(im.p, im.slots, im.view, b, i)
        && b < |im'.slots| && i < |im'.slots[b]|
        && im' == StoreTo(im, b, i, im'.slots[b][i].val)
  }

  ghost function StoreTo<V>(im: Impl<V>, b: nat, i: nat, v: V): Impl<V>
    requires b < |im.slots| && i < |im.slots[b]|
  {
    var h := im.slots[b][i].hash;
    im.(slots := Put(im.slots, b, i, Slot(h, v)), view := Stored(im.p, im.view, h, v))
  }

  ghost predicate StartMove<V>(im: Impl<V>, im': Impl<V>, w': Writer<V>) {
    && im' == im && w'.Moving? && w'.plan.base == im.slots && w'.phase == Ready
    && PlanOK(im.p, im.view, w'.plan) && w'.k == |w'.plan.bs| - 1
  }

  ghost predicate MoveStep<V>(im: Impl<V>, w: Writer<V>, im': Impl<V>, w': Writer<V>)
    requires w.Moving?
  {
    var Moving(plan, k, phase) := w;
    && InBounds(plan.base, plan.bs, plan.ss) && k < |plan.bs|
    && var b, i := plan.bs[k], plan.ss[k];
    && b < |im.slots| && i < |im.slots[b]| && b < |im.ctr|
    && var e := Arriving(plan, k);
    match phase
    case Ready =>
      w' == Moving(plan, k, CounterOdd) && im' == im.(ctr := im.ctr[b := im.ctr[b] + 1])
    case CounterOdd =>
      && w' == Moving(plan, k, NodeStored)
      && im' == im.(slots := Put(im.slots, b, i, Slot(im.slots[b][i].hash, e.val)))
    case NodeStored =>
      && w' == Moving(plan, k, HashStored)
      && im' == im.(slots := Put(im.slots, b, i, Slot(e.hash, im.slots[b][i].val)))
    case HashStored =>
      && w' == (if k == 0 then Idle else Moving(plan, k - 1, Ready))
      && im' == im.(ctr := im.ctr[b := im.ctr[b] + 1],
                    view := if k == 0 then im.view[plan.s.hash := plan.s.val] else im.view)
  }

  /** The stores inside one cmap_set_bucket(). */
  lemma FluxStepOK<V>(im: Impl<V>, plan: Plan<V>, k: nat, phase: Phase, im': Impl<V>, w': Writer<V>)
    requires FluxOK(im, plan, k, phase) && phase != HashStored
    requires MoveStep(im, Moving(plan, k, phase), im', w')
    ensures w'.Moving? && w'.plan == plan && w'.k == k && im'.p == im.p && im'.view == im.view
    ensures FluxOK(im', plan, k, w'.phase) && Disturbs(im, im')
  {
    var b, i := plan.bs[k], plan.ss[k];
    var m := After(plan, k + 1);
    var before: Bucket<V> := m[b];
    var e := Arriving(plan, k);
    match phase
    case Ready =>
    case CounterOdd =>
      assert im.slots[b] == before;
      assert im'.slots[b] == before[i := Slot(before[i].hash, e.val)];
      assert im'.slots == m[b := im'.slots[b]];
    case NodeStored =>
      assert im'.slots[b] == before[i := e];
      assert im'.slots == m[b := im'.slots[b]];
  }

  /** The final counter store: the write to bs[k] is complete. */
  lemma FluxEndOK<V>(im: Impl<V>, plan: Plan<V>, k: nat, im': Impl<V>, w': Writer<V>)
    requires FluxOK(im, plan, k, HashStored)
    requires MoveStep(im, Moving(plan, k, HashStored), im', w')
    ensures im'.p == im.p && im'.slots == After(plan, k) && Disturbs(im, im')
    ensures k == 0 ==> forall c :: 0 <= c < |im'.ctr| ==> im'.ctr[c] % 2 == 0
    ensures k > 0 ==> im'.view == im.view && w' == Moving(plan, k - 1, Ready) && FluxOK(im', plan, k - 1, Ready)
  {
    var b, i := plan.bs[k], plan.ss[k];
    var m := After(plan, k + 1);
    assert im.slots == Put(m, b, i, Arriving(plan, k));
    assert im.slots == After(plan, k);
    if k > 0 {
      var c := plan.bs[k - 1];
      assert im.slots[c := im.slots[c]] == im.slots;
    }
  }

  lemma MoveStepOK<V>(im: Impl<V>, w: Writer<V>, im': Impl<V>, w': Writer<V>)
    requires WriterOK(im, w) && w.Moving? && MoveStep(im, w, im', w')
    ensures WriterOK(im', w') && Disturbs(im, im')
  {
    var Moving(plan, k, phase) := w;
    if phase == HashStored {
      FluxEndOK(im, plan, k, im', w');
      if k == 0 {
        DisplacedSettled(im.p, plan.base, im.view, plan.bs, plan.ss, plan.s);
      }
    } else {
      FluxStepOK(im, plan, k, phase, im', w');
    }
  }

  lemma WriterStepOK<V>(im: Impl<V>, w: Writer<V>, im': Impl<V>, w': Writer<V>)
    requires WriterOK(im, w) && WriterStep(im, w, im', w')
    ensures WriterOK(im', w') && Disturbs(im, im')
  {
    if StoreStep(im, w, im', w') {
      var b: nat, i: nat :|
        && CanStore(im.p, im.slots, im.view, b, i)
        && b < |im'.slots| && i < |im'.slots[b]|
        && im' == StoreTo(im, b, i, im'.slots[b][i].val);
      StoreSettled(im.p, im.slots, im.view, b, i, im'.slots[b][i].val);
    } else if w.Idle? {
      PlanFacts(im.p, im.slots, im.view, w'.plan.bs, w'.plan.ss, w'.plan.s);
      var b := w'.plan.bs[w'.k];
      assert im.slots[b := im.slots[b]] == im.slots;
    } else {
      MoveStepOK(im, w, im', w');
    }
  }

  /** A sequence of stores that takes the array from one state to another. */
  ghost predicate Stores<V>(trace: seq<(Impl<V>, Writer<V>)>, im: Impl<V>, w: Writer<V>, im': Impl<V>, w': Writer<V>) {
    && |trace| > 0 && trace[0] == (im, w) && trace[|trace| - 1] == (im', w')
    && forall m :: 0 <= m < |trace| - 1 ==>
        WriterStep(trace[m].0, trace[m].1, trace[m + 1].0, trace[m + 1].1)
  }

  function PhaseRank(phase: Phase): nat {
    match phase
    case Ready => 3
    case CounterOdd => 2
    case NodeStored => 1
    case HashStored => 0
  }

  ghost function MoveNext<V>(im: Impl<V>, w: Writer<V>): (r: (Impl<V>, Writer<V>))
    requires w.Moving? && FluxOK(im, w.plan, w.k, w.phase)
    ensures MoveStep(im, w, r.0, r.1)
  {
    var Moving(plan, k, phase) := w;
    var b, i, e := plan.bs[k], plan.ss[k], Arriving(plan, k);
    match phase
    case Ready => (im.(ctr := im.ctr[b := im.ctr[b] + 1]), Moving(plan, k, CounterOdd))
    case CounterOdd =>
      (im.(slots := Put(im.slots, b, i, Slot(im.slots[b][i].hash, e.val))), Moving(plan, k, NodeStored))
    case NodeStored =>
      (im.(slots := Put(im.slots, b, i, Slot(e.hash, im.slots[b][i].val))), Moving(plan, k, HashStored))
    case HashStored =>
      (im.(ctr := im.ctr[b := im.ctr[b] + 1],
           view := if k == 0 then im.view[plan.s.hash := plan.s.val] else im.view),
       if k == 0 then Idle else Moving(plan, k - 1, Ready))
  }

  lemma StoresCons<V>(im: Impl<V>, w: Writer<V>, im1: Impl<V>, w1: Writer<V>,
                      rest: seq<(Impl<V>, Writer<V>)>, im': Impl<V>, w': Writer<V>)
    requires WriterStep(im, w, im1, w1) && Stores(rest, im1, w1, im', w')
    ensures Stores([(im, w)] + rest, im, w, im', w')
  {
    hide WriterStep;
    var trace := [(im, w)] + rest;
    forall m | 0 <= m < |trace| - 1
      ensures WriterStep(trace[m].0, trace[m].1, trace[m + 1].0, trace[m + 1].1)
    {
      if m > 0 {
        assert trace[m] == rest[m - 1] && trace[m + 1] == rest[m];
      }
    }
  }

  lemma MoveOnce<V>(im: Impl<V>, w: Writer<V>) returns (im1: Impl<V>, w1: Writer<V>)
    requires WriterOK(im, w) && w.Moving?
    ensures WriterStep(im, w, im1, w1) && WriterOK(im1, w1) && im1.p == im.p
    ensures w1.Idle? ==> im1.slots == After(w.plan, 0) && im1.view == im.view[w.plan.s.hash := w.plan.s.val]
    ensures w1.Moving? ==> w1.plan == w.plan && im1.view == im.view
    ensures w1.Moving? ==> w1.k < w.k || (w1.k == w.k && PhaseRank(w1.phase) < PhaseRank(w.phase))
  {
    assert FluxOK(im, w.plan, w.k, w.phase);
    hide WriterOK, FluxOK;
    var next := MoveNext(im, w);
    im1, w1 := next.0, next.1;
    MoveStepOK(im, w, im1, w1);
    if w1.Idle? {
      FluxEndOK(im, w.plan, w.k, im1, w1);
    }
  }

  /** A displacement under way runs to its end, store by store. */
  lemma {:induction false} MoveCompletes<V>(im: Impl<V>, w: Writer<V>)
    returns (trace: seq<(Impl<V>, Writer<V>)>, im': Impl<V>)
    requires WriterOK(im, w) && w.Moving?
    ensures Stores(trace, im, w, im', Idle)
    ensures im'.p == im.p && im'.slots == After(w.plan, 0) && im'.view == im.view[w.plan.s.hash := w.plan.s.val]
    decreases w.k, PhaseRank(w.phase)
  {
    var im1, w1 := MoveOnce(im, w);
    if w1.Idle? {
      im', trace := im1, [(im1, w1)];
    } else {
      trace, im' := MoveCompletes(im1, w1);
    }
    StoresCons(im, w, im1, w1, trace, im', Idle);
    trace := [(im, w)] + trace;
  }

  // The system.

  function Current<V>(s: Sys<V>): Impl<V>
    requires |s.impls| > 0
  {
    s.impls[|s.impls| - 1]
  }

  /** What the map contains for `hash` in state `s`. */
  function MapAt<V>(s: Sys<V>, hash: nat): V
    requires |s.impls| > 0
  {
    ViewAt(Current(s).p, Current(s).view, hash)
  }

  ghost predicate Init<V>(s: Sys<V>) {
    |s.impls| == 1 && AtRest(s.impls[0]) && s.writer.Idle? && s.readers == []
  }

  /** Readers keep a record of the values the map goes through. */
  ghost predicate Observed<V>(s: Sys<V>, s': Sys<V>)
    requires |s'.impls| > 0
  {
    && |s'.readers| == |s.readers|
    && forall i :: 0 <= i < |s.readers| ==>
        s'.readers[i] == s.readers[i].(hist := s.readers[i].hist + {MapAt(s', s.readers[i].hash)})
  }

  ghost predicate StepWrite<V>(s: Sys<V>, s': Sys<V>)
    requires |s.impls| > 0 && |s'.impls| > 0
  {
    && |s'.impls| == |s.impls| && s'.impls[..|s.impls| - 1] == s.impls[..|s.impls| - 1]
    && WriterStep(Current(s), s.writer, Current(s'), s'.writer)
    && Observed(s, s')
  }

  /** Publication of a rehashed array with the same contents (the end of cmap_rehash). */
  ghost predicate StepPublish<V>(s: Sys<V>, s': Sys<V>)
    requires |s.impls| > 0 && |s'.impls| > 0
  {
    && s.writer.Idle? && s'.writer.Idle?
    && |s'.impls| == |s.impls| + 1 && s'.impls[..|s.impls|] == s.impls
    && AtRest(Current(s')) && Current(s').view == Current(s).view && Current(s').p.nil == Current(s).p.nil
    && Observed(s, s')
  }

  ghost predicate StepCall<V>(s: Sys<V>, s': Sys<V>)
    requires |s.impls| > 0
  {
    && s'.impls == s.impls && s'.writer == s.writer
    && |s'.readers| == |s.readers| + 1 && s'.readers[..|s.readers|] == s.readers
    && var r := s'.readers[|s.readers|];
    r == Reader(|s.impls| - 1, r.hash, ReadC1, 0, 0, 0, Current(s).p.nil, {MapAt(s, r.hash)})
  }

  ghost predicate StepRead<V>(s: Sys<V>, s': Sys<V>) {
    && s'.impls == s.impls && s'.writer == s.writer
    && exists i :: 0 <= i < |s.readers| && ReadBy(s, s', i)
  }

  ghost predicate ReadBy<V>(s: Sys<V>, s': Sys<V>, i: nat)
    requires i < |s.readers|
  {
    var r := s.readers[i];
    && r.im < |s.impls| && WellShaped(s.impls[r.im]) && r.pos <= s.impls[r.im].p.k
    && (r.pc in {Load1, Load2} ==> r.pos < s.impls[r.im].p.k)
    && s'.readers == s.readers[i := ReaderStep(s.impls[r.im], r)]
  }

  ghost predicate Next<V>(s: Sys<V>, s': Sys<V>) {
    && |s.impls| > 0 && |s'.impls| > 0
    && (StepWrite(s, s') || StepPublish(s, s') || StepCall(s, s') || StepRead(s, s'))
  }

  ghost predicate ImplsOK<V>(impls: seq<Impl<V>>, w: Writer<V>) {
    && |impls| > 0 && WriterOK(impls[|impls| - 1], w)
    && forall j :: 0 <= j < |impls| - 1 ==> AtRest(impls[j])
  }

  ghost predicate ReaderIn<V>(impls: seq<Impl<V>>, r: Reader<V>) {
    r.im < |impls| && WellShaped(impls[r.im]) && ReaderOK(impls[r.im], r)
  }

  ghost predicate SysOK<V>(s: Sys<V>) {
    && ImplsOK(s.impls, s.writer)
    && forall i :: 0 <= i < |s.readers| ==> ReaderIn(s.impls, s.readers[i])
  }

  /** No reader holds a counter value that is 2^32 changes old. */
  ghost predicate NoneAsleep<V>(s: Sys<V>) {
    forall i :: 0 <= i < |s.readers| ==>
      s.readers[i].im < |s.impls| && Awake(s.impls[s.readers[i].im], s.readers[i])
  }

  lemma WriteImpls<V>(s: Sys<V>, s': Sys<V>)
    requires ImplsOK(s.impls, s.writer) && |s'.impls| > 0 && StepWrite(s, s')
    ensures ImplsOK(s'.impls, s'.writer) && |s'.impls| == |s.impls| && Observed(s, s')
    ensures Disturbs(Current(s), Current(s'))
    ensures forall j :: 0 <= j < |s.impls| - 1 ==> s'.impls[j] == s.impls[j]
  {
    var n := |s.impls| - 1;
    WriterStepOK(Current(s), s.writer, Current(s'), s'.writer);
    forall j | 0 <= j < n
      ensures s'.impls[j] == s.impls[j]
    {
      assert s'.impls[..n][j] == s.impls[..n][j];
    }
  }

  /** A reader keeps its invariant when others write or publish. */
  lemma ObservedReader<V>(s: Sys<V>, s': Sys<V>, i: nat)
    requires |s.impls| > 0 && |s'.impls| > 0 && Observed(s, s') && i < |s.readers|
    requires ReaderIn(s.impls, s.readers[i])
    requires var j := s.readers[i].im;
      && j < |s'.impls|
      && (s'.impls[j] == s.impls[j] || (s'.impls[j] == Current(s') && Disturbs(s.impls[j], s'.impls[j])))
    ensures ReaderIn(s'.impls, s'.readers[i])
  {
    var r := s.readers[i];
    ReaderUndisturbed(s.impls[r.im], s'.impls[r.im], r, s'.readers[i].hist);
  }

  lemma WriteOK<V>(s: Sys<V>, s': Sys<V>)
    requires SysOK(s) && |s'.impls| > 0 && StepWrite(s, s')
    ensures SysOK(s')
  {
    hide ImplsOK, ReaderOK, StepWrite, Disturbs, WellShaped;
    WriteImpls(s, s');
    forall i | 0 <= i < |s'.readers|
      ensures ReaderIn(s'.impls, s'.readers[i])
    {
      assert ReaderIn(s.impls, s.readers[i]);
      ObservedReader(s, s', i);
    }
  }

  lemma PublishOK<V>(s: Sys<V>, s': Sys<V>)
    requires SysOK(s) && |s'.impls| > 0 && StepPublish(s, s')
    ensures SysOK(s')
  {
    forall j | 0 <= j < |s.impls|
      ensures s'.impls[j] == s.impls[j]
    {
      assert s'.impls[..|s.impls|][j] == s.impls[j];
    }
    forall i | 0 <= i < |s'.readers|
      ensures ReaderIn(s'.impls, s'.readers[i])
    {
      assert ReaderIn(s.impls, s.readers[i]);
      ObservedReader(s, s', i);
    }
  }

  lemma NewReaderOK<V>(im: Impl<V>, r: Reader<V>)
    requires WellShaped(im) && r.pc == ReadC1 && r.pos == 0 && ViewAt(im.p, im.view, r.hash) in r.hist
    ensures ReaderOK(im, r)
  {
  }

  lemma CallOK<V>(s: Sys<V>, s': Sys<V>)
    requires SysOK(s) && StepCall(s, s')
    ensures SysOK(s')
  {
    assert WellShaped(Current(s)) by {
      WriterRepresents(Current(s), s.writer);
    }
    hide ImplsOK, ReaderOK, WellShaped;
    forall i | 0 <= i < |s'.readers|
      ensures ReaderIn(s'.impls, s'.readers[i])
    {
      if i < |s.readers| {
        assert s'.readers[i] == s'.readers[..|s.readers|][i];
        assert ReaderIn(s.impls, s.readers[i]);
      } else {
        NewReaderOK(Current(s), s'.readers[i]);
      }
    }
  }

  lemma OneReadOK<V>(s: Sys<V>, r: Reader<V>)
    requires ImplsOK(s.impls, s.writer) && ReaderIn(s.impls, r) && Awake(s.impls[r.im], r)
    requires r.pc in {Load1, Load2} ==> r.pos < s.impls[r.im].p.k
    ensures ReaderOK(s.impls[r.im], ReaderStep(s.impls[r.im], r))
  {
    var im := s.impls[r.im];
    if r.im == |s.impls| - 1 {
      WriterRepresents(im, s.writer);
      ReaderStepOK(im, Logical(im, s.writer), r);
    } else {
      assert AtRest(im);
      ReaderStepOK(im, im.slots, r);
    }
  }

  lemma ReadOK<V>(s: Sys<V>, s': Sys<V>)
    requires SysOK(s) && NoneAsleep(s) && StepRead(s, s')
    ensures SysOK(s')
  {
    hide ImplsOK, ReaderOK, Awake, ReaderStep;
    var i :| 0 <= i < |s.readers| && ReadBy(s, s', i);
    var r := s.readers[i];
    assert ReaderIn(s.impls, r) && Awake(s.impls[r.im], r);
    OneReadOK(s, r);
    assert ReaderIn(s'.impls, s'.readers[i]) by {
      ReaderStaysPut(s.impls[r.im], r);
    }
  }

  lemma ReaderStaysPut<V>(im: Impl<V>, r: Reader<V>)
    requires WellShaped(im) && r.pos <= im.p.k && (r.pc in {Load1, Load2} ==> r.pos < im.p.k)
    ensures ReaderStep(im, r).im == r.im && ReaderStep(im, r).hash == r.hash
    ensures ReaderStep(im, r).hist == r.hist
  {
  }

  lemma NextOK<V>(s: Sys<V>, s': Sys<V>)
    requires SysOK(s) && NoneAsleep(s) && Next(s, s')
    ensures SysOK(s')
  {
    if StepWrite(s, s') {
      WriteOK(s, s');
    } else if StepPublish(s, s') {
      PublishOK(s, s');
    } else if StepCall(s, s') {
      CallOK(s, s');
    } else {
      ReadOK(s, s');
    }
  }

  // Runs.

  ghost predicate Run<V>(run: seq<Sys<V>>) {
    && |run| > 0 && Init(run[0])
    && (forall m :: 0 <= m < |run| - 1 ==> Next(run[m], run[m + 1]))
    && (forall m :: 0 <= m < |run| ==> NoneAsleep(run[m]))
  }

  lemma InitOK<V>(s: Sys<V>)
    requires Init(s)
    ensures SysOK(s)
  {
  }

  lemma {:induction false} RunOK<V>(run: seq<Sys<V>>, m: nat)
    requires Run(run) && m < |run|
    ensures SysOK(run[m])
  {
    hide SysOK, Next, Init, NoneAsleep;
    if m == 0 {
      InitOK(run[0]);
    } else {
      RunOK(run, m - 1);
      assert Next(run[m - 1], run[m - 1 + 1]);
      NextOK(run[m - 1], run[m]);
    }
  }

  /** State `m` lies between the call of reader i and state `now`, and there the map had
      value v for the reader's hash. */
  ghost predicate HeldAt<V>(run: seq<Sys<V>>, i: nat, now: nat, v: V, m: nat) {
    && m <= now < |run| && |run[m].impls| > 0
    && i < |run[m].readers| && i < |run[now].readers|
    && MapAt(run[m], run[now].readers[i].hash) == v
  }

  /** What one step adds to the history of a reader. */
  lemma HistoryStep<V>(s: Sys<V>, s': Sys<V>, i: nat, v: V)
    requires Next(s, s') && i < |s'.readers| && v in s'.readers[i].hist
    ensures |s'.impls| > 0
    ensures i < |s.readers| ==> s'.readers[i].hash == s.readers[i].hash
    ensures (i < |s.readers| && v in s.readers[i].hist) || v == MapAt(s', s'.readers[i].hash)
  {
    hide WriterStep, AtRest;
    if StepCall(s, s') {
      if i < |s.readers| {
        assert s'.readers[..|s.readers|][i] == s.readers[i];
      }
    } else if StepRead(s, s') {
      var j :| 0 <= j < |s.readers| && ReadBy(s, s', j);
      ReaderStaysPut(s.impls[s.readers[j].im], s.readers[j]);
    }
  }

  /** The recorded history of a reader is made of values held since its call. */
  lemma {:induction false} HistoryIsReal<V>(run: seq<Sys<V>>, now: nat, i: nat, v: V)
    requires Run(run) && now < |run| && i < |run[now].readers| && v in run[now].readers[i].hist
    ensures exists m :: HeldAt(run, i, now, v, m)
  {
    hide Next, NoneAsleep;
    assert now > 0;
    var s, s' := run[now - 1], run[now - 1 + 1];
    assert Next(s, s');
    HistoryStep(s, s', i, v);
    if i < |s.readers| && v in s.readers[i].hist {
      HistoryIsReal(run, now - 1, i, v);
      var m :| HeldAt(run, i, now - 1, v, m);
      assert HeldAt(run, i, now, v, m);
    } else {
      assert HeldAt(run, i, now, v, now);
    }
  }

  /** Every lookup is linearizable: its result is what the map held for the hash at some
      instant of the call, whatever the writer and the other readers did meanwhile. */
  lemma LookupIsLinearizable<V>(run: seq<Sys<V>>, now: nat, i: nat)
    requires Run(run) && now < |run| && i < |run[now].readers| && run[now].readers[i].pc == Returned
    ensures exists m :: HeldAt(run, i, now, run[now].readers[i].node, m)
  {
    RunOK(run, now);
    assert ReaderIn(run[now].impls, run[now].readers[i]);
    HistoryIsReal(run, now, i, run[now].readers[i].node);
  }

  /** A hash that is present throughout a lookup is found by it. */
  lemma PresentIsFound<V>(run: seq<Sys<V>>, now: nat, i: nat, nil: V)
    requires Run(run) && now < |run| && i < |run[now].readers| && run[now].readers[i].pc == Returned
    requires forall m :: 0 <= m <= now && |run[m].impls| > 0 && i < |run[m].readers| ==>
      MapAt(run[m], run[now].readers[i].hash) != nil
    ensures run[now].readers[i].node != nil
  {
    LookupIsLinearizable(run, now, i);
    var m :| HeldAt(run, i, now, run[now].readers[i].node, m);
  }
}
