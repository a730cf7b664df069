/** Lookups in the kernel's flow table while it changes (datapath/flow_table.c).  Flows are
    linked into the buckets of a table instance.  A rehash links them into the buckets of a
    new instance while readers may still walk the old one, so each flow has two links, and an
    instance uses those of its version, which is the other one than its predecessor's.

    Writer and readers are a machine whose steps are single loads and stores.  A reader is
    shown to meet every flow of its bucket that stays in the table while it walks, and none
    that was not there when it started, as long as no second rehash begins before it is done;
    with two, it may miss flows. */
module FlowReaders {
  import opened Options

  /** The links of one version, by flow. */
  type Links = map<nat, Option<nat>>

  /** A table instance.  `slot` gives the bucket of a flow; `chains` what each bucket holds. */
  datatype Instance = Instance(ver: bool, slot: nat -> nat, heads: seq<Option<nat>>, chains: seq<seq<nat>>)

  /** TBL_MIN_BUCKETS: how many buckets a new table has. */
  const MIN_BUCKETS: nat := 1024

  /** The writer: between operations, with a new flow linked but not in its bucket yet, just done
      with that, or copying to a new instance, where flows in `done` have been copied and `next`
      is linked. */
  datatype Writer = Idle | Inserting(f: nat) | Inserted | Copying(done: set<nat>, next: Option<nat>)

  /** A walk along a bucket of instance `at`.  `start` are the flows in the bucket at first,
      `must` those of them that have not been removed since. */
  datatype Reader = Reader(at: nat, pos: Option<nat>, seen: set<nat>, start: set<nat>, must: set<nat>)

  /** Instance `current` is the published one; while copying, one more is being filled. */
  datatype Sys = Sys(links: bool -> Links, insts: seq<Instance>, current: nat, live: set<nat>, writer: Writer,
                     readers: seq<Reader>)

  function Set(links: bool -> Links, ver: bool, f: nat, to: Option<nat>): bool -> Links {
    v => if v == ver then links(v)[f := to] else links(v)
  }

  function Elements(s: seq<nat>): set<nat> {
    set x | x in s
  }

  // Walks

  /** From `p`, the links lead along `rest` to the end. */
  ghost predicate Leads(links: Links, p: Option<nat>, rest: seq<nat>)
    decreases |rest|
  {
    if rest == [] then p.None? else p == Some(rest[0]) && rest[0] in links && Leads(links, links[rest[0]], rest[1..])
  }

  lemma {:induction false} LeadsIn(links: Links, p: Option<nat>, rest: seq<nat>, f: nat)
    requires Leads(links, p, rest) && f in rest
    ensures f in links
    decreases |rest|
  {
    if f != rest[0] {
      LeadsIn(links, links[rest[0]], rest[1..], f);
    }
  }

  /** A link that is not on the way does not matter. */
  lemma {:induction false} LeadsStill(links: Links, p: Option<nat>, rest: seq<nat>, f: nat, to: Option<nat>)
    requires Leads(links, p, rest) && f !in rest
    ensures Leads(links[f := to], p, rest)
    decreases |rest|
  {
    if rest != [] {
      LeadsStill(links, links[rest[0]], rest[1..], f, to);
    }
  }

  lemma {:induction false} SameWay(links: Links, p: Option<nat>, a: seq<nat>, b: seq<nat>)
    requires Leads(links, p, a) && Leads(links, p, b)
    ensures a == b
    decreases |a|
  {
    if a != [] && b != [] {
      SameWay(links, links[a[0]], a[1..], b[1..]);
    }
  }

  lemma {:induction false} LeadsFrom(links: Links, p: Option<nat>, rest: seq<nat>, i: nat)
    requires Leads(links, p, rest) && i < |rest|
    ensures Leads(links, Some(rest[i]), rest[i..])
    decreases i
  {
    if i > 0 {
      LeadsFrom(links, links[rest[0]], rest[1..], i - 1);
      assert rest[1..][i - 1..] == rest[i..];
    }
  }

  /** A walk that ends does not come to a flow twice. */
  lemma NeverTwice(links: Links, p: Option<nat>, rest: seq<nat>, i: nat, j: nat)
    requires Leads(links, p, rest) && i < j < |rest|
    ensures rest[i] != rest[j]
  {
    if rest[i] == rest[j] {
      LeadsFrom(links, p, rest, i);
      LeadsFrom(links, p, rest, j);
      SameWay(links, Some(rest[i]), rest[i..], rest[j..]);
    }
  }

  /** The way without `f`, once the link of `before`, which leads to `f`, is set past it. */
  function Skip(rest: seq<nat>, before: nat): seq<nat> {
    if rest == [] then []
    else if rest[0] == before && |rest| > 1 then [before] + rest[2..]
    else [rest[0]] + Skip(rest[1..], before)
  }

  lemma {:induction false} SkipElements(rest: seq<nat>, before: nat, x: nat)
    ensures x in Skip(rest, before) ==> x in rest
    ensures x in rest && x !in Skip(rest, before) ==>
      exists i :: 0 <= i < |rest| - 1 && rest[i] == before && rest[i + 1] == x
  {
    if rest != [] {
      if rest[0] == before && |rest| > 1 {
        assert rest == [before, rest[1]] + rest[2..];
        assert x in rest && x !in Skip(rest, before) ==> rest[0] == before && rest[0 + 1] == x;
      } else {
        SkipElements(rest[1..], before, x);
        if x in rest[1..] && x !in Skip(rest[1..], before) {
          var i :| 0 <= i < |rest[1..]| - 1 && rest[1..][i] == before && rest[1..][i + 1] == x;
          assert rest[i + 1] == before && rest[(i + 1) + 1] == x;
        }
      }
    }
  }

  /** Unlinking a flow takes it out of every walk that would come to it by the link that is
      set, and leaves the others alone. */
  lemma {:induction false} LeadsPast(links: Links, p: Option<nat>, rest: seq<nat>, before: nat, f: nat)
    requires Leads(links, p, rest) && before in links && f in links && links[before] == Some(f) && before != f
    ensures Leads(links[before := links[f]], p, Skip(rest, before))
    decreases |rest|
  {
    if rest != [] {
      if rest[0] == before {
        assert rest[1..][0] == f && rest[1..][1..] == rest[2..];
        forall j | 0 <= j < |rest[2..]| ensures rest[2..][j] != before {
          NeverTwice(links, p, rest, 0, j + 2);
        }
        LeadsStill(links, links[f], rest[2..], before, links[f]);
        assert ([before] + rest[2..])[1..] == rest[2..];
      } else {
        LeadsPast(links, links[rest[0]], rest[1..], before, f);
        assert Skip(rest, before)[1..] == Skip(rest[1..], before);
      }
    }
  }

  // Steps

  datatype Step =
    | LinkNew(f: nat) | Insert | Remove(f: nat)
    | StartRehash(slot: nat -> nat, n: nat) | CopyLink(f: nat) | Copy | Publish
    | Begin(b: nat) | Walk(i: nat)

  function Current(s: Sys): Instance
    requires s.current < |s.insts|
  {
    s.insts[s.current]
  }

  /** The instance being filled. */
  function Filled(s: Sys): Instance
    requires s.current + 1 < |s.insts|
  {
    s.insts[s.current + 1]
  }

  function Without(chain: seq<nat>, f: nat): seq<nat> {
    if chain == [] then [] else if chain[0] == f then chain[1..] else [chain[0]] + Without(chain[1..], f)
  }

  /** The flow before `f` in its bucket, if there is one. */
  function Before(chain: seq<nat>, f: nat): Option<nat> {
    if |chain| < 2 || chain[0] == f then None
    else if chain[1] == f then Some(chain[0])
    else Before(chain[1..], f)
  }

  /** hlist_add_head_rcu, the second of its stores. */
  function WithHead(inst: Instance, f: nat): Instance
    requires inst.slot(f) < |inst.heads| == |inst.chains|
  {
    var b := inst.slot(f);
    inst.(heads := inst.heads[b := Some(f)], chains := inst.chains[b := [f] + inst.chains[b]])
  }

  ghost predicate Shaped(inst: Instance) {
    MIN_BUCKETS <= |inst.heads| == |inst.chains| && forall f :: inst.slot(f) < |inst.heads|
  }

  /** Instances there are, of which the one being filled comes last. */
  ghost predicate SysShaped(s: Sys) {
    && |s.insts| == s.current + (if s.writer.Copying? then 2 else 1)
    && forall i :: 0 <= i < |s.insts| ==> Shaped(s.insts[i])
  }

  /** Flows in the order in which they are copied: bucket by bucket, each from its head. */
  function Order(chains: seq<seq<nat>>): seq<nat> {
    if chains == [] then [] else Order(chains[..|chains| - 1]) + chains[|chains| - 1]
  }

  function FirstNotIn(order: seq<nat>, done: set<nat>): Option<nat> {
    if order == [] then None else if order[0] !in done then Some(order[0]) else FirstNotIn(order[1..], done)
  }

  /** How many buckets a rehash makes: twice as many if there are more flows than buckets. */
  function SizeOfNext(s: Sys): nat
    requires s.current < |s.insts|
  {
    var n := |Current(s).heads|;
    if |s.live| > n then 2 * n else n
  }

  ghost predicate Enabled(s: Sys, step: Step)
    requires SysShaped(s)
  {
    var cur := Current(s);
    match step
    case LinkNew(f) =>
      (s.writer.Idle? || s.writer.Inserted?) && f !in s.links(true) && f !in s.links(false) && f !in s.live
    case Insert => s.writer.Inserting?
    case Remove(f) => (s.writer.Idle? || s.writer.Inserted?) && f in s.live && f in s.links(cur.ver)
    case StartRehash(slot, n) => s.writer.Inserted? && n == SizeOfNext(s) && forall f :: slot(f) < n
    case CopyLink(f) =>
      && s.writer.Copying? && s.writer.next.None? && f in s.live && f !in s.writer.done
      && FirstNotIn(Order(cur.chains), s.writer.done) == Some(f)
    case Copy => s.writer.Copying? && s.writer.next.Some?
    case Publish => s.writer.Copying? && s.writer.next.None? && s.writer.done == s.live
    case Begin(b) => b < |cur.heads|
    case Walk(i) =>
      && i < |s.readers| && s.readers[i].pos.Some? && s.readers[i].at < |s.insts|
      && s.readers[i].pos.value in s.links(s.insts[s.readers[i].at].ver)
  }

  /** hlist_del_rcu: the link to the flow is set past it; its own link stays. */
  ghost function Removed(s: Sys, f: nat): Sys
    requires SysShaped(s) && Enabled(s, Remove(f))
  {
    var cur := Current(s);
    var b, to := cur.slot(f), s.links(cur.ver)[f];
    var chain := cur.chains[b];
    var cur' := cur.(chains := cur.chains[b := Without(chain, f)]);
    var rs := seq(|s.readers|, i requires 0 <= i < |s.readers| => s.readers[i].(must := s.readers[i].must - {f}));
    match Before(chain, f)
    case None =>
      s.(insts := s.insts[s.current := cur'.(heads := cur.heads[b := to])], live := s.live - {f}, readers := rs,
         writer := Idle)
    case Some(before) =>
      s.(insts := s.insts[s.current := cur'], links := Set(s.links, cur.ver, before, to), live := s.live - {f},
         readers := rs, writer := Idle)
  }

  ghost function Take(s: Sys, step: Step): Sys
    requires SysShaped(s) && Enabled(s, step)
  {
    var cur := Current(s);
    match step
    case LinkNew(f) =>
      s.(links := Set(s.links, cur.ver, f, cur.heads[cur.slot(f)]), writer := Inserting(f))
    case Insert =>
      s.(insts := s.insts[s.current := WithHead(cur, s.writer.f)], live := s.live + {s.writer.f},
         writer := Inserted)
    case Remove(f) => Removed(s, f)
    case StartRehash(slot, n) =>
      s.(insts := s.insts + [Instance(!cur.ver, slot, seq(n, i => None), seq(n, i => []))], writer := Copying({}, None))
    case CopyLink(f) =>
      s.(links := Set(s.links, Filled(s).ver, f, Filled(s).heads[Filled(s).slot(f)]),
         writer := s.writer.(next := Some(f)))
    case Copy =>
      var f := s.writer.next.value;
      s.(insts := s.insts[s.current + 1 := WithHead(Filled(s), f)], writer := Copying(s.writer.done + {f}, None))
    case Publish => s.(current := s.current + 1, writer := Idle)
    case Begin(b) =>
      var chain := Elements(cur.chains[b]);
      s.(readers := s.readers + [Reader(s.current, cur.heads[b], {}, chain, chain)])
    case Walk(i) =>
      var r := s.readers[i];
      var f := r.pos.value;
      s.(readers := s.readers[i := r.(seen := r.seen + {f}, pos := s.links(s.insts[r.at].ver)[f])])
  }

  lemma TakeShaped(s: Sys, step: Step)
    requires SysShaped(s) && Enabled(s, step)
    ensures SysShaped(Take(s, step))
  {
  }

  // What holds throughout

  ghost predicate InstOK(links: bool -> Links, inst: Instance, flows: set<nat>) {
    && Shaped(inst)
    && (forall b :: 0 <= b < |inst.heads| ==> Leads(links(inst.ver), inst.heads[b], inst.chains[b]))
    && (forall b, f :: 0 <= b < |inst.chains| && f in inst.chains[b] ==> f in flows && inst.slot(f) == b)
    && (forall f :: f in flows ==> f in inst.chains[inst.slot(f)])
  }

  ghost predicate WriterOK(s: Sys)
    requires SysShaped(s)
  {
    var cur := Current(s);
    && InstOK(s.links, cur, s.live)
    && match s.writer
       case Idle => true
       case Inserted => true
       case Inserting(f) =>
         f !in s.live && f in s.links(cur.ver) && s.links(cur.ver)[f] == cur.heads[cur.slot(f)]
       case Copying(done, next) =>
         var filled := Filled(s);
         && done <= s.live && filled.ver != cur.ver && InstOK(s.links, filled, done)
         && (next.Some? ==> var f := next.value;
               && f in s.live && f !in done && f in s.links(filled.ver)
               && s.links(filled.ver)[f] == filled.heads[filled.slot(f)])
  }

  /** What is left of a walk. */
  ghost predicate Left(links: Links, r: Reader, rest: seq<nat>) {
    && Leads(links, r.pos, rest)
    && r.must <= r.seen + Elements(rest) && r.seen + Elements(rest) <= r.start && r.seen !! Elements(rest)
  }

  /** A reader that is not done is on the current instance or, while nothing is being copied, on
      the one before. */
  ghost predicate Placed(s: Sys, r: Reader) {
    r.pos.Some? ==> r.at == s.current || (r.at + 1 == s.current && !s.writer.Copying?)
  }

  ghost predicate ReaderOK(s: Sys, r: Reader)
    requires SysShaped(s)
  {
    && r.at <= s.current && Placed(s, r) && RecordOK(s, r)
    && exists rest :: Left(s.links(s.insts[r.at].ver), r, rest)
  }

  /** A flow that is removed never comes back. */
  ghost predicate RecordOK(s: Sys, r: Reader) {
    && r.must == r.start * s.live
    && (forall x :: x in r.start ==> x in s.links(true) || x in s.links(false))
    && (s.writer.Inserting? ==> s.writer.f !in r.start)
  }

  ghost predicate SysOK(s: Sys) {
    && SysShaped(s) && WriterOK(s)
    && (forall i :: 0 <= i < s.current ==> s.insts[i].ver != s.insts[i + 1].ver)
    && (forall i :: 0 <= i < |s.readers| ==> ReaderOK(s, s.readers[i]))
  }

  /** No rehash begins while a reader is still on an instance that was replaced. */
  ghost predicate Calm(s: Sys, step: Step) {
    step.StartRehash? ==> forall i :: 0 <= i < |s.readers| && s.readers[i].pos.Some? ==> s.readers[i].at == s.current
  }

  // Chains

  lemma {:induction false} WithoutElements(links: Links, p: Option<nat>, chain: seq<nat>, f: nat, x: nat)
    requires Leads(links, p, chain)
    ensures x in Without(chain, f) <==> x in chain && x != f
    decreases |chain|
  {
    if chain != [] {
      if chain[0] == f {
        forall j | 0 <= j < |chain[1..]| ensures chain[1..][j] != f {
          NeverTwice(links, p, chain, 0, j + 1);
        }
      } else {
        WithoutElements(links, links[chain[0]], chain[1..], f, x);
      }
    }
  }

  /** The flow before another is linked to it, and setting its link past that flow is what
      takes the flow out. */
  lemma {:induction false} BeforeLinks(links: Links, p: Option<nat>, chain: seq<nat>, f: nat)
    requires Leads(links, p, chain) && f in chain
    ensures Before(chain, f).None? ==> chain[0] == f && Without(chain, f) == chain[1..]
    ensures Before(chain, f).Some? ==>
      var x := Before(chain, f).value;
      && x in chain && x in links && links[x] == Some(f) && x != f && Without(chain, f) == Skip(chain, x)
    decreases |chain|
  {
    if chain[0] != f && chain[1] != f {
      BeforeLinks(links, links[chain[0]], chain[1..], f);
      var x := Before(chain[1..], f).value;
      var j :| 0 <= j < |chain[1..]| && chain[1..][j] == x;
      NeverTwice(links, p, chain, 0, j + 1);
    } else if chain[0] != f {
      NeverTwice(links, p, chain, 0, 1);
      assert Without(chain, f) == [chain[0]] + chain[1..][1..];
      assert chain[1..][1..] == chain[2..];
    }
  }

  // Instances

  lemma LinkKeeps(links: bool -> Links, inst: Instance, flows: set<nat>, ver: bool, f: nat, to: Option<nat>)
    requires InstOK(links, inst, flows) && (ver != inst.ver || f !in flows)
    ensures InstOK(Set(links, ver, f, to), inst, flows)
  {
    forall b | 0 <= b < |inst.heads|
      ensures Leads(Set(links, ver, f, to)(inst.ver), inst.heads[b], inst.chains[b])
    {
      if ver == inst.ver {
        LeadsStill(links(ver), inst.heads[b], inst.chains[b], f, to);
      }
    }
  }

  lemma HeadKeeps(links: bool -> Links, inst: Instance, flows: set<nat>, f: nat)
    requires InstOK(links, inst, flows) && f !in flows
    requires f in links(inst.ver) && links(inst.ver)[f] == inst.heads[inst.slot(f)]
    ensures InstOK(links, WithHead(inst, f), flows + {f})
  {
    var inst', b := WithHead(inst, f), inst.slot(f);
    assert inst'.chains[b][1..] == inst.chains[b];
    forall c, g | 0 <= c < |inst'.chains| && g in inst'.chains[c] ensures g in flows + {f} && inst.slot(g) == c {
      assert c != b || g != f ==> g in inst.chains[c];
    }
    forall g | g in flows + {f} ensures g in inst'.chains[inst.slot(g)] {
      assert g != f ==> g in inst.chains[inst.slot(g)];
    }
  }

  /** The instance after a removal, given what its buckets lead to. */
  lemma CutKeeps(links: bool -> Links, links': bool -> Links, inst: Instance, inst': Instance, flows: set<nat>, f: nat)
    requires InstOK(links, inst, flows) && f in flows
    requires inst'.ver == inst.ver && inst'.slot == inst.slot && |inst'.heads| == |inst.heads|
    requires inst'.chains == inst.chains[inst.slot(f) := Without(inst.chains[inst.slot(f)], f)]
    requires forall b :: 0 <= b < |inst.heads| ==> Leads(links'(inst.ver), inst'.heads[b], inst'.chains[b])
    ensures InstOK(links', inst', flows - {f})
  {
    var b := inst.slot(f);
    forall x ensures x in inst'.chains[b] <==> x in inst.chains[b] && x != f {
      WithoutElements(links(inst.ver), inst.heads[b], inst.chains[b], f, x);
    }
  }

  lemma RemovedInstOK(s: Sys, f: nat)
    requires SysShaped(s) && InstOK(s.links, Current(s), s.live) && Enabled(s, Remove(f))
    ensures var s' := Removed(s, f); InstOK(s'.links, Current(s'), s'.live)
  {
    var cur, s' := Current(s), Removed(s, f);
    var b, cur', links := cur.slot(f), Current(s'), s.links(cur.ver);
    BeforeLinks(links, cur.heads[b], cur.chains[b], f);
    forall c | 0 <= c < |cur.heads| ensures Leads(s'.links(cur.ver), cur'.heads[c], cur'.chains[c]) {
      match Before(cur.chains[b], f)
      case None =>
      case Some(before) =>
        if c == b {
          LeadsPast(links, cur.heads[b], cur.chains[b], before, f);
        } else {
          assert cur.slot(before) == b;
          LeadsStill(links, cur.heads[c], cur.chains[c], before, links[f]);
        }
    }
    CutKeeps(s.links, s'.links, cur, cur', s.live, f);
  }

  // Readers

  /** A walk that is done, or whose links do not change, stays as it is. */
  lemma WalkStays(links: Links, links': Links, r: Reader)
    requires exists rest :: Left(links, r, rest)
    requires links' == links || r.pos.None?
    ensures exists rest :: Left(links', r, rest)
  {
    var rest :| Left(links, r, rest);
    assert Left(links', r, rest);
  }

  lemma ReadersStay(s: Sys, s': Sys)
    requires SysOK(s) && SysShaped(s') && s'.readers == s.readers && s.current <= s'.current
    requires forall i :: 0 <= i <= s.current ==> s'.insts[i].ver == s.insts[i].ver
    requires forall i :: 0 <= i < |s.readers| ==> Placed(s', s.readers[i]) && RecordOK(s', s.readers[i])
    requires forall i :: 0 <= i < |s.readers| && s.readers[i].pos.Some? ==>
      s'.links(s.insts[s.readers[i].at].ver) == s.links(s.insts[s.readers[i].at].ver)
    ensures forall i :: 0 <= i < |s'.readers| ==> ReaderOK(s', s'.readers[i])
  {
    forall i | 0 <= i < |s'.readers| ensures ReaderOK(s', s'.readers[i]) {
      var r := s.readers[i];
      assert ReaderOK(s, r) && Placed(s', r) && RecordOK(s', r);
      var ver := s.insts[r.at].ver;
      WalkStays(s.links(ver), s'.links(ver), r);
    }
  }

  /** A new flow is on no reader's way. */
  lemma NewFlowIsUnseen(s: Sys, f: nat, to: Option<nat>, ver: bool, i: nat)
    requires SysOK(s) && f !in s.links(true) && f !in s.links(false) && i < |s.readers|
    ensures exists rest :: Left(Set(s.links, ver, f, to)(s.insts[s.readers[i].at].ver), s.readers[i], rest)
  {
    var r := s.readers[i];
    assert ReaderOK(s, r);
    var v := s.insts[r.at].ver;
    var rest :| Left(s.links(v), r, rest);
    if f in rest {
      LeadsIn(s.links(v), r.pos, rest, f);
    }
    if v == ver {
      LeadsStill(s.links(v), r.pos, rest, f, to);
    }
    assert Left(Set(s.links, ver, f, to)(v), r, rest);
  }

  /** A walk on the instance that a flow is taken out of. */
  lemma WalkPast(links: Links, links': Links, r: Reader, r': Reader, before: nat, f: nat)
    requires exists rest :: Left(links, r, rest)
    requires before in links && f in links && links[before] == Some(f) && before != f
    requires links' == links[before := links[f]] && r' == r.(must := r.must - {f})
    ensures exists rest :: Left(links', r', rest)
  {
    var rest :| Left(links, r, rest);
    var rest' := Skip(rest, before);
    LeadsPast(links, r.pos, rest, before, f);
    forall x | x in r.must - {f} - r.seen ensures x in rest' {
      SkipElements(rest, before, x);
      if x !in rest' {
        var i :| 0 <= i < |rest| - 1 && rest[i] == before && rest[i + 1] == x;
        LeadsFrom(links, r.pos, rest, i);
      }
    }
    forall x | x in rest' ensures x in rest {
      SkipElements(rest, before, x);
    }
    assert Left(links', r', rest');
  }

  lemma LessIsMust(links: Links, r: Reader, r': Reader, f: nat)
    requires exists rest :: Left(links, r, rest)
    requires r' == r.(must := r.must - {f})
    ensures exists rest :: Left(links, r', rest)
  {
    var rest :| Left(links, r, rest);
    assert Left(links, r', rest);
  }

  // Every step keeps the invariant

  lemma RecordsKept(s: Sys)
    requires SysOK(s)
    ensures forall i :: 0 <= i < |s.readers| ==> Placed(s, s.readers[i]) && RecordOK(s, s.readers[i])
  {
    forall i | 0 <= i < |s.readers| ensures Placed(s, s.readers[i]) && RecordOK(s, s.readers[i]) {
      assert ReaderOK(s, s.readers[i]);
    }
  }

  lemma LinkNewOK(s: Sys, f: nat)
    requires SysOK(s) && Enabled(s, LinkNew(f))
    ensures SysOK(Take(s, LinkNew(f)))
  {
    var s', cur := Take(s, LinkNew(f)), Current(s);
    LinkKeeps(s.links, cur, s.live, cur.ver, f, cur.heads[cur.slot(f)]);
    forall i | 0 <= i < |s'.readers| ensures ReaderOK(s', s'.readers[i]) {
      assert ReaderOK(s, s.readers[i]);
      NewFlowIsUnseen(s, f, cur.heads[cur.slot(f)], cur.ver, i);
    }
  }

  lemma InsertOK(s: Sys)
    requires SysOK(s) && Enabled(s, Insert)
    ensures SysOK(Take(s, Insert))
  {
    HeadKeeps(s.links, Current(s), s.live, s.writer.f);
    RecordsKept(s);
    ReadersStay(s, Take(s, Insert));
  }

  lemma RemoveOK(s: Sys, f: nat)
    requires SysOK(s) && Enabled(s, Remove(f))
    ensures SysOK(Take(s, Remove(f)))
  {
    var s' := Take(s, Remove(f));
    RemovedInstOK(s, f);
    forall i | 0 <= i < |s'.readers| ensures ReaderOK(s', s'.readers[i]) {
      RemoveReader(s, f, i);
    }
  }

  lemma RemoveReader(s: Sys, f: nat, i: nat)
    requires SysOK(s) && Enabled(s, Remove(f)) && i < |s.readers|
    ensures SysShaped(Removed(s, f)) && ReaderOK(Removed(s, f), Removed(s, f).readers[i])
  {
    var s', cur, r := Removed(s, f), Current(s), s.readers[i];
    assert ReaderOK(s, r);
    var ver, r' := s.insts[r.at].ver, s'.readers[i];
    var b := cur.slot(f);
    BeforeLinks(s.links(cur.ver), cur.heads[b], cur.chains[b], f);
    assert s'.insts[r.at].ver == ver;
    if ver == cur.ver && Before(cur.chains[b], f).Some? {
      WalkPast(s.links(ver), s'.links(ver), r, r', Before(cur.chains[b], f).value, f);
    } else {
      assert s'.links(ver) == s.links(ver);
      LessIsMust(s.links(ver), r, r', f);
    }
  }

  lemma StartOK(s: Sys, slot: nat -> nat, n: nat)
    requires SysOK(s) && Enabled(s, StartRehash(slot, n)) && Calm(s, StartRehash(slot, n))
    ensures SysOK(Take(s, StartRehash(slot, n)))
  {
    RecordsKept(s);
    ReadersStay(s, Take(s, StartRehash(slot, n)));
  }

  lemma CopyLinkOK(s: Sys, f: nat)
    requires SysOK(s) && Enabled(s, CopyLink(f))
    ensures SysOK(Take(s, CopyLink(f)))
  {
    var filled := Filled(s);
    var to := filled.heads[filled.slot(f)];
    LinkKeeps(s.links, Current(s), s.live, filled.ver, f, to);
    LinkKeeps(s.links, filled, s.writer.done, filled.ver, f, to);
    RecordsKept(s);
    ReadersStay(s, Take(s, CopyLink(f)));
  }

  lemma CopyOK(s: Sys)
    requires SysOK(s) && Enabled(s, Copy)
    ensures SysOK(Take(s, Copy))
  {
    HeadKeeps(s.links, Filled(s), s.writer.done, s.writer.next.value);
    RecordsKept(s);
    ReadersStay(s, Take(s, Copy));
  }

  lemma PublishOK(s: Sys)
    requires SysOK(s) && Enabled(s, Publish)
    ensures SysOK(Take(s, Publish))
  {
    RecordsKept(s);
    ReadersStay(s, Take(s, Publish));
  }

  lemma BeginOK(s: Sys, b: nat)
    requires SysOK(s) && Enabled(s, Begin(b))
    ensures SysOK(Take(s, Begin(b)))
  {
    var s', cur := Take(s, Begin(b)), Current(s);
    forall i | 0 <= i < |s'.readers| ensures ReaderOK(s', s'.readers[i]) {
      if i < |s.readers| {
        assert ReaderOK(s, s.readers[i]);
      } else {
        assert Left(s.links(cur.ver), s'.readers[i], cur.chains[b]);
        forall x | x in cur.chains[b] ensures x in s.links(cur.ver) {
          LeadsIn(s.links(cur.ver), cur.heads[b], cur.chains[b], x);
        }
      }
    }
  }

  lemma WalkOK(s: Sys, i: nat)
    requires SysOK(s) && Enabled(s, Walk(i))
    ensures SysOK(Take(s, Walk(i)))
  {
    var s' := Take(s, Walk(i));
    forall j | 0 <= j < |s'.readers| ensures ReaderOK(s', s'.readers[j]) {
      assert ReaderOK(s, s.readers[j]);
      if j == i {
        var r, r' := s.readers[i], s'.readers[i];
        var links := s.links(s.insts[r.at].ver);
        var rest :| Left(links, r, rest);
        assert Elements(rest) == {rest[0]} + Elements(rest[1..]);
        forall k | 0 <= k < |rest[1..]| ensures rest[1..][k] != rest[0] {
          NeverTwice(links, r.pos, rest, 0, k + 1);
        }
        assert Left(links, r', rest[1..]);
      }
    }
  }

  lemma NextOK(s: Sys, step: Step)
    requires SysOK(s) && Enabled(s, step) && Calm(s, step)
    ensures SysOK(Take(s, step))
  {
    match step
    case LinkNew(f) => LinkNewOK(s, f);
    case Insert => InsertOK(s);
    case Remove(f) => RemoveOK(s, f);
    case StartRehash(slot, n) => StartOK(s, slot, n);
    case CopyLink(f) => CopyLinkOK(s, f);
    case Copy => CopyOK(s);
    case Publish => PublishOK(s);
    case Begin(b) => BeginOK(s, b);
    case Walk(i) => WalkOK(s, i);
  }

  // Runs

  ghost predicate Continues(run: seq<Sys>, steps: seq<Step>) {
    && |run| == |steps| + 1
    && forall i {:trigger steps[i]} :: 0 <= i < |steps| ==>
         SysShaped(run[i]) && Enabled(run[i], steps[i]) && run[i + 1] == Take(run[i], steps[i])
  }

  /** A run from any sound table without readers, in which no rehash begins while a reader is
      still on an instance that was replaced. */
  ghost predicate IsRun(run: seq<Sys>, steps: seq<Step>) {
    && Continues(run, steps) && SysOK(run[0]) && run[0].readers == []
    && forall i {:trigger steps[i]} :: 0 <= i < |steps| ==> Calm(run[i], steps[i])
  }

  lemma {:induction false} RunOK(run: seq<Sys>, steps: seq<Step>, m: nat)
    requires IsRun(run, steps) && m < |run|
    ensures SysOK(run[m])
  {
    if m > 0 {
      RunOK(run, steps, m - 1);
      var step := steps[m - 1];
      NextOK(run[m - 1], step);
    }
  }

  /** Flow `f` is in the table all the time from `from` on. */
  ghost predicate Stays(run: seq<Sys>, f: nat, from: nat, now: nat) {
    now < |run| && forall m :: from <= m <= now ==> f in run[m].live
  }

  lemma MustStep(s: Sys, step: Step, i: nat, f: nat)
    requires SysShaped(s) && Enabled(s, step) && i < |s.readers|
    ensures i < |Take(s, step).readers| && Take(s, step).readers[i].start == s.readers[i].start
    ensures f in s.readers[i].must && f in Take(s, step).live ==> f in Take(s, step).readers[i].must
  {
  }

  lemma {:induction false} MustIsKept(run: seq<Sys>, steps: seq<Step>, i: nat, f: nat, from: nat, now: nat)
    requires Continues(run, steps) && from <= now && Stays(run, f, from, now)
    requires i < |run[from].readers| && f in run[from].readers[i].must
    ensures i < |run[now].readers| && f in run[now].readers[i].must
    decreases now - from
  {
    if from < now {
      MustIsKept(run, steps, i, f, from, now - 1);
      var step := steps[now - 1];
      MustStep(run[now - 1], step, i, f);
      assert f in run[now].live;
    }
  }

  /** A reader that has walked to the end of its bucket has met every flow that was in the
      bucket when it began and has been in the table ever since, through insertions, removals
      and a rehash. */
  lemma WalkMeets(run: seq<Sys>, steps: seq<Step>, from: nat, b: nat, now: nat, f: nat)
    requires IsRun(run, steps) && from < |steps| && steps[from] == Begin(b)
    requires from < now && Stays(run, f, from + 1, now)
    requires SysShaped(run[from]) && b < |Current(run[from]).chains| && f in Current(run[from]).chains[b]
    ensures var i := |run[from].readers|;
      i < |run[now].readers| && (run[now].readers[i].pos.None? ==> f in run[now].readers[i].seen)
  {
    var i, step := |run[from].readers|, steps[from];
    assert run[from + 1] == Take(run[from], step);
    MustIsKept(run, steps, i, f, from + 1, now);
    RunOK(run, steps, now);
    assert ReaderOK(run[now], run[now].readers[i]);
  }

  lemma {:induction false} StartIsKept(run: seq<Sys>, steps: seq<Step>, i: nat, from: nat, now: nat)
    requires Continues(run, steps) && from <= now < |run| && i < |run[from].readers|
    ensures i < |run[now].readers| && run[now].readers[i].start == run[from].readers[i].start
    decreases now - from
  {
    if from < now {
      StartIsKept(run, steps, i, from, now - 1);
      var step := steps[now - 1];
      MustStep(run[now - 1], step, i, 0);
    }
  }

  /** And it has met no flow that was not in the bucket when it began. */
  lemma WalkMeetsOnly(run: seq<Sys>, steps: seq<Step>, from: nat, b: nat, now: nat)
    requires IsRun(run, steps) && from < |steps| && steps[from] == Begin(b) && from < now < |run|
    requires SysShaped(run[from]) && b < |Current(run[from]).chains|
    ensures var i := |run[from].readers|;
      i < |run[now].readers| && run[now].readers[i].seen <= Elements(Current(run[from]).chains[b])
  {
    var i, step := |run[from].readers|, steps[from];
    assert run[from + 1] == Take(run[from], step);
    StartIsKept(run, steps, i, from + 1, now);
    RunOK(run, steps, now);
    assert ReaderOK(run[now], run[now].readers[i]);
  }
}
