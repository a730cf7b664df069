/** What rehashes of the kernel's flow table do to a reader that is still on an instance that
    was replaced (datapath/flow_table.c).  The next instance uses the links of the one that the
    reader walks.  The reader may then miss flows, exactly if at least two flows that it has to
    meet are still ahead of it. */
module FlowRehashes {
  import opened Options
  import opened FlowReaders

  /** Flow `f` is still ahead of a reader that has to meet it. */
  predicate ToMeet(r: Reader, f: nat) {
    f in r.must && f !in r.seen
  }

  /** After some steps reader `i` is done without having met `f`, which was in the table all the
      time. */
  ghost predicate PassesBy(s: Sys, i: nat, run: seq<Sys>, steps: seq<Step>, f: nat) {
    && Continues(run, steps) && run[0] == s && i < |s.readers| && Stays(run, f, 0, |steps|)
    && i < |run[|steps|].readers| && run[|steps|].readers[i].pos.None? && f !in run[|steps|].readers[i].seen
  }

  /** And `f` was in its bucket when it began. */
  ghost predicate Misses(s: Sys, i: nat, run: seq<Sys>, steps: seq<Step>, f: nat) {
    PassesBy(s, i, run, steps, f) && f in s.readers[i].must
  }

  // The writer, whatever readers do

  lemma NewInstOK(links: bool -> Links, ver: bool, slot: nat -> nat, n: nat)
    requires n >= MIN_BUCKETS && forall f :: slot(f) < n
    ensures InstOK(links, Instance(ver, slot, seq(n, i => None), seq(n, i => [])), {})
  {
  }

  lemma CopyNext(s: Sys, f: nat)
    requires SysShaped(s) && WriterOK(s)
    ensures Enabled(s, CopyLink(f)) ==> SysShaped(Take(s, CopyLink(f))) && WriterOK(Take(s, CopyLink(f)))
    ensures Enabled(s, Copy) ==> SysShaped(Take(s, Copy)) && WriterOK(Take(s, Copy))
  {
    hide InstOK;
    if Enabled(s, CopyLink(f)) {
      TakeShaped(s, CopyLink(f));
      var filled := Filled(s);
      LinkKeeps(s.links, Current(s), s.live, filled.ver, f, filled.heads[filled.slot(f)]);
      LinkKeeps(s.links, filled, s.writer.done, filled.ver, f, filled.heads[filled.slot(f)]);
    }
    if Enabled(s, Copy) {
      TakeShaped(s, Copy);
      HeadKeeps(s.links, Filled(s), s.writer.done, s.writer.next.value);
    }
  }

  lemma ChangeNext(s: Sys, f: nat)
    requires SysShaped(s) && WriterOK(s)
    ensures Enabled(s, LinkNew(f)) ==> SysShaped(Take(s, LinkNew(f))) && WriterOK(Take(s, LinkNew(f)))
    ensures Enabled(s, Insert) ==> SysShaped(Take(s, Insert)) && WriterOK(Take(s, Insert))
    ensures Enabled(s, Remove(f)) ==> SysShaped(Take(s, Remove(f))) && WriterOK(Take(s, Remove(f)))
  {
    hide InstOK;
    var cur := Current(s);
    if Enabled(s, LinkNew(f)) {
      TakeShaped(s, LinkNew(f));
      LinkKeeps(s.links, cur, s.live, cur.ver, f, cur.heads[cur.slot(f)]);
    }
    if Enabled(s, Insert) {
      TakeShaped(s, Insert);
      HeadKeeps(s.links, cur, s.live, s.writer.f);
    }
    if Enabled(s, Remove(f)) {
      TakeShaped(s, Remove(f));
      RemovedInstOK(s, f);
    }
  }

  lemma WriterNext(s: Sys, step: Step)
    requires SysShaped(s) && WriterOK(s) && Enabled(s, step)
    ensures SysShaped(Take(s, step)) && WriterOK(Take(s, step))
  {
    hide InstOK;
    match step
    case LinkNew(f) => ChangeNext(s, f);
    case Insert => ChangeNext(s, 0);
    case Remove(f) => ChangeNext(s, f);
    case CopyLink(f) => CopyNext(s, f);
    case Copy => CopyNext(s, 0);
    case StartRehash(slot, n) =>
      TakeShaped(s, step);
      NewInstOK(s.links, !Current(s).ver, slot, n);
    case _ =>
      TakeShaped(s, step);
  }

  // One flow ahead

  /** From `p`, the links lead along `way` to `f`. */
  ghost predicate Reaches(links: Links, p: Option<nat>, way: seq<nat>, f: nat)
    decreases |way|
  {
    if way == [] then p == Some(f)
    else p == Some(way[0]) && way[0] in links && Reaches(links, links[way[0]], way[1..], f)
  }

  lemma {:induction false} ReachesStill(links: Links, links': Links, p: Option<nat>, way: seq<nat>, f: nat)
    requires Reaches(links, p, way, f)
    requires forall x :: x in way && x in links ==> x in links' && links'[x] == links[x]
    ensures Reaches(links', p, way, f)
    decreases |way|
  {
    if way != [] {
      ReachesStill(links, links', links[way[0]], way[1..], f);
    }
  }

  /** Not in the table, and not about to be. */
  predicate Gone(s: Sys, x: nat) {
    && x !in s.live && !(s.writer.Inserting? && s.writer.f == x)
    && (x in s.links(true) || x in s.links(false))
  }

  /** Reader `i` has met `f`, or comes to it past flows that are gone. */
  ghost predicate WillMeet(s: Sys, i: nat, f: nat) {
    i < |s.readers| && s.readers[i].at < |s.insts| &&
    var r := s.readers[i];
    f in r.seen || exists way :: GoneWay(s, r, way, f)
  }

  ghost predicate GoneWay(s: Sys, r: Reader, way: seq<nat>, f: nat) {
    r.at < |s.insts| && Reaches(s.links(s.insts[r.at].ver), r.pos, way, f) && forall x :: x in way ==> Gone(s, x)
  }

  /** The links of a flow that is gone are not changed any more. */
  lemma GoneStays(s: Sys, step: Step, x: nat)
    requires SysShaped(s) && WriterOK(s) && Enabled(s, step) && Gone(s, x)
    ensures Gone(Take(s, step), x)
    ensures forall v :: x in s.links(v) ==> x in Take(s, step).links(v) && Take(s, step).links(v)[x] == s.links(v)[x]
  {
    if step.Remove? {
      var cur := Current(s);
      var b := cur.slot(step.f);
      BeforeLinks(s.links(cur.ver), cur.heads[b], cur.chains[b], step.f);
    }
  }

  lemma VersionsStay(s: Sys, step: Step, i: nat)
    requires SysShaped(s) && Enabled(s, step) && i < |s.insts|
    ensures i < |Take(s, step).insts| && Take(s, step).insts[i].ver == s.insts[i].ver
  {
  }

  lemma WillMeetStep(s: Sys, step: Step, i: nat, f: nat)
    requires SysShaped(s) && WriterOK(s) && Enabled(s, step) && WillMeet(s, i, f)
    ensures WillMeet(Take(s, step), i, f)
  {
    var s', r := Take(s, step), s.readers[i];
    VersionsStay(s, step, r.at);
    MustStep(s, step, i, f);
    if f !in r.seen {
      var way :| GoneWay(s, r, way, f);
      var v := s.insts[r.at].ver;
      forall x | x in way
        ensures Gone(s', x) && (x in s.links(v) ==> x in s'.links(v) && s'.links(v)[x] == s.links(v)[x])
      {
        GoneStays(s, step, x);
      }
      ReachesStill(s.links(v), s'.links(v), r.pos, way, f);
      if step == Walk(i) {
        if way != [] {
          assert GoneWay(s', s'.readers[i], way[1..], f);
        }
      } else {
        SamePosition(s, step, i);
        assert GoneWay(s', s'.readers[i], way, f);
      }
    }
  }

  lemma SamePosition(s: Sys, step: Step, i: nat)
    requires SysShaped(s) && Enabled(s, step) && i < |s.readers| && step != Walk(i)
    ensures i < |Take(s, step).readers|
    ensures var r, r' := s.readers[i], Take(s, step).readers[i]; r'.at == r.at && r'.pos == r.pos && r'.seen == r.seen
  {
  }

  lemma {:induction false} WillMeetThroughout(run: seq<Sys>, steps: seq<Step>, i: nat, f: nat, m: nat)
    requires Continues(run, steps) && m < |run| && SysShaped(run[0]) && WriterOK(run[0]) && WillMeet(run[0], i, f)
    ensures SysShaped(run[m]) && WriterOK(run[m]) && WillMeet(run[m], i, f)
  {
    if m > 0 {
      WillMeetThroughout(run, steps, i, f, m - 1);
      var step := steps[m - 1];
      WriterNext(run[m - 1], step);
      WillMeetStep(run[m - 1], step, i, f);
    }
  }

  /** The flows before `f` on a way, if none of them is to be met. */
  lemma {:induction false} FirstAhead(s: Sys, r: Reader, rest: seq<nat>, f: nat) returns (way: seq<nat>)
    requires r.at < |s.insts| && Leads(s.links(s.insts[r.at].ver), r.pos, rest) && f in rest
    ensures Reaches(s.links(s.insts[r.at].ver), r.pos, way, f) && way + [f] <= rest && f !in way
    decreases |rest|
  {
    if rest[0] == f {
      way := [];
    } else {
      var links := s.links(s.insts[r.at].ver);
      var rest' := FirstAhead(s, r.(pos := links[rest[0]]), rest[1..], f);
      way := [rest[0]] + rest';
    }
  }

  lemma OneAheadIsMet(s: Sys, i: nat, f: nat)
    requires SysOK(s) && i < |s.readers| && f in s.readers[i].must
    requires forall g :: ToMeet(s.readers[i], g) ==> g == f
    ensures WillMeet(s, i, f)
  {
    var r := s.readers[i];
    assert ReaderOK(s, r);
    if f !in r.seen {
      var rest :| Left(s.links(s.insts[r.at].ver), r, rest);
      var way := FirstAhead(s, r, rest, f);
      forall x | x in way ensures Gone(s, x) {
        assert x in (way + [f]) && x in rest && x in Elements(rest);
        assert x in r.start && !ToMeet(r, x);
      }
      assert GoneWay(s, r, way, f);
    }
  }

  // Two flows ahead

  lemma Prepend(s: Sys, step: Step, run: seq<Sys>, steps: seq<Step>, run': seq<Sys>, steps': seq<Step>)
    requires SysShaped(s) && Enabled(s, step) && Continues(run, steps) && run[0] == Take(s, step)
    requires run' == [s] + run && steps' == [step] + steps
    ensures Continues(run', steps')
  {
    hide Enabled, Take, SysShaped;
    forall j | 0 <= j < |steps'|
      ensures SysShaped(run'[j]) && Enabled(run'[j], steps'[j]) && run'[j + 1] == Take(run'[j], steps'[j])
    {
      if j == 0 {
        assert steps'[0] == step && run'[0] == s && run'[1] == run[0];
      } else {
        assert steps'[j] == steps[j - 1] && run'[j] == run[j - 1] && run'[j + 1] == run[j];
      }
    }
  }

  /** The reader alone walks to the end. */
  lemma {:induction false} WalkAlong(s: Sys, i: nat, way: seq<nat>) returns (run: seq<Sys>, steps: seq<Step>)
    requires SysShaped(s) && i < |s.readers| && s.readers[i].at < |s.insts|
    requires Leads(s.links(s.insts[s.readers[i].at].ver), s.readers[i].pos, way)
    ensures Continues(run, steps) && run[0] == s && forall m :: 0 <= m < |run| ==> run[m].live == s.live
    ensures i < |run[|steps|].readers| && run[|steps|].readers[i].pos.None?
    ensures run[|steps|].readers[i].seen == s.readers[i].seen + Elements(way)
    decreases |way|
  {
    if way == [] {
      run, steps := [s], [];
    } else {
      var s' := Take(s, Walk(i));
      TakeShaped(s, Walk(i));
      var run', steps' := WalkAlong(s', i, way[1..]);
      run, steps := [s] + run', [Walk(i)] + steps';
      Prepend(s, Walk(i), run', steps', run, steps);
      assert run[|steps|] == run'[|steps'|];
      assert Elements(way) == {way[0]} + Elements(way[1..]);
    }
  }

  /** The first flow on a way that is to be met. */
  lemma {:induction false} FirstToMeet(r: Reader, rest: seq<nat>, f: nat) returns (k: nat)
    requires f in rest && ToMeet(r, f)
    ensures k < |rest| && ToMeet(r, rest[k]) && forall j :: 0 <= j < k ==> !ToMeet(r, rest[j])
  {
    if ToMeet(r, rest[0]) {
      k := 0;
    } else {
      var k' := FirstToMeet(r, rest[1..], f);
      k := k' + 1;
      forall j | 0 <= j < k ensures !ToMeet(r, rest[j]) {
        assert j > 0 ==> rest[j] == rest[1..][j - 1];
      }
    }
  }

  /** Reader `i` comes to `y` next, past flows that are gone; `h` is another flow it has not met. */
  ghost predicate Ahead(s: Sys, i: nat, y: nat, h: nat) {
    && SysShaped(s) && WriterOK(s) && WillMeet(s, i, y) && y !in s.readers[i].seen && h !in s.readers[i].seen
    && y in s.live && h in s.live && y != h
  }

  /** The version of the links that reader `i` follows. */
  function VersionOf(s: Sys, i: nat): bool
    requires i < |s.readers| && s.readers[i].at < |s.insts|
  {
    s.insts[s.readers[i].at].ver
  }

  ghost predicate CanPassBy(s: Sys, i: nat, h: nat) {
    exists run, steps :: PassesBy(s, i, run, steps, h)
  }

  /** A step of the writer that removes nothing: if the reader can pass by a flow afterwards, it
      can before. */
  lemma WriterMoves(s: Sys, step: Step, i: nat, y: nat, h: nat)
    requires Ahead(s, i, y, h) && Enabled(s, step) && !step.Walk? && !step.Remove?
    ensures Ahead(Take(s, step), i, y, h) && VersionOf(Take(s, step), i) == VersionOf(s, i)
    ensures CanPassBy(Take(s, step), i, h) ==> CanPassBy(s, i, h)
  {
    hide WriterOK, PassesBy;
    var s' := Take(s, step);
    WriterNext(s, step);
    WillMeetStep(s, step, i, y);
    SamePosition(s, step, i);
    VersionsStay(s, step, s.readers[i].at);
    if run, steps :| PassesBy(s', i, run, steps, h) {
      PrependPass(s, step, i, h, run, steps, [s] + run, [step] + steps);
    }
  }

  lemma PrependPass(s: Sys, step: Step, i: nat, h: nat, run: seq<Sys>, steps: seq<Step>,
                    run': seq<Sys>, steps': seq<Step>)
    requires SysShaped(s) && Enabled(s, step) && PassesBy(Take(s, step), i, run, steps, h)
    requires i < |s.readers| && h in s.live && run' == [s] + run && steps' == [step] + steps
    ensures PassesBy(s, i, run', steps', h)
  {
    hide Enabled, Take, SysShaped;
    Prepend(s, step, run, steps, run', steps');
    assert run'[|steps'|] == run[|steps|];
    forall m | 0 <= m <= |steps'| ensures h in run'[m].live {
      assert m > 0 ==> run'[m] == run[m - 1];
    }
  }

  // Flows are copied in order

  lemma {:induction false} OrderElements(chains: seq<seq<nat>>, x: nat)
    ensures x in Order(chains) <==> exists b :: 0 <= b < |chains| && x in chains[b]
  {
    if chains != [] {
      var n := |chains| - 1;
      OrderElements(chains[..n], x);
      assert forall b :: 0 <= b < n ==> chains[..n][b] == chains[b];
    }
  }

  lemma {:induction false} FirstNotInIs(order: seq<nat>, done: set<nat>, x: nat)
    requires x in order && x !in done
    ensures FirstNotIn(order, done).Some?
    ensures FirstNotIn(order, done).value in order && FirstNotIn(order, done).value !in done
  {
    if order[0] in done {
      FirstNotInIs(order[1..], done, x);
    }
  }

  /** Until all flows have been copied, there is a next one. */
  lemma NextToCopy(s: Sys, x: nat) returns (f: nat)
    requires SysShaped(s) && WriterOK(s) && s.writer.Copying? && s.writer.next.None?
    requires x in s.live && x !in s.writer.done
    ensures Enabled(s, CopyLink(f))
  {
    var chains := Current(s).chains;
    OrderElements(chains, x);
    FirstNotInIs(Order(chains), s.writer.done, x);
    f := FirstNotIn(Order(chains), s.writer.done).value;
    OrderElements(chains, f);
  }

  // Insertions come first

  lemma {:induction false} Above(a: set<nat>) returns (f: nat)
    ensures forall x :: x in a ==> x < f
  {
    f := 0;
    if x :| x in a {
      var f' := Above(a - {x});
      f := if f' > x then f' else x + 1;
      assert forall z :: z in a ==> z == x || z in a - {x};
    }
  }

  lemma InsertOne(s: Sys, i: nat, y: nat, h: nat) returns (s': Sys)
    requires Ahead(s, i, y, h) && !s.writer.Copying?
    ensures Ahead(s', i, y, h) && s'.writer.Inserted? && VersionOf(s', i) == VersionOf(s, i)
    ensures Current(s').ver == Current(s).ver
    ensures CanPassBy(s', i, h) ==> CanPassBy(s, i, h)
  {
    hide WriterOK, WillMeet, CanPassBy;
    var s0 := s;
    if !s.writer.Inserting? {
      var f := Above(s.links(true).Keys + s.links(false).Keys + s.live);
      assert f !in s.links(true).Keys + s.links(false).Keys + s.live;
      WriterMoves(s, LinkNew(f), i, y, h);
      s0 := Take(s, LinkNew(f));
    }
    WriterMoves(s0, Insert, i, y, h);
    s' := Take(s0, Insert);
  }

  lemma StartOne(s: Sys, i: nat, y: nat, h: nat, slot: nat -> nat) returns (s': Sys)
    requires Ahead(s, i, y, h) && s.writer.Inserted? && forall f :: slot(f) < MIN_BUCKETS
    ensures Ahead(s', i, y, h) && s'.writer == Copying({}, None) && VersionOf(s', i) == VersionOf(s, i)
    ensures Current(s').ver == Current(s).ver && Filled(s').slot == slot && Filled(s').ver == !Current(s').ver
    ensures CanPassBy(s', i, h) ==> CanPassBy(s, i, h)
  {
    hide WriterOK, WillMeet, CanPassBy;
    var step := StartRehash(slot, SizeOfNext(s));
    WriterMoves(s, step, i, y, h);
    s' := Take(s, step);
  }

  // The next instance that uses the reader's links

  lemma {:induction false} LeadsThere(links: Links, p: Option<nat>, way: seq<nat>, y: nat)
    requires Reaches(links, p, way, y) && y in links && links[y].None?
    ensures Leads(links, p, way + [y])
    decreases |way|
  {
    if way == [] {
      assert ([] + [y])[1..] == [];
    } else {
      LeadsThere(links, links[way[0]], way[1..], y);
      assert (way + [y])[1..] == way[1..] + [y];
    }
  }

  /** Once the next flow leads nowhere, the reader goes past all others. */
  lemma EndsThere(s: Sys, i: nat, y: nat, h: nat)
    requires Ahead(s, i, y, h) && y in s.links(VersionOf(s, i)) && s.links(VersionOf(s, i))[y].None?
    ensures CanPassBy(s, i, h)
  {
    hide WriterOK;
    var r := s.readers[i];
    var way :| GoneWay(s, r, way, y);
    LeadsThere(s.links(VersionOf(s, i)), r.pos, way, y);
    var run, steps := WalkAlong(s, i, way + [y]);
    assert h !in way + [y];
    assert PassesBy(s, i, run, steps, h);
  }

  /** Nothing else is in the bucket of `y`. */
  ghost predicate Alone(inst: Instance, y: nat) {
    forall f :: f != y ==> inst.slot(f) != inst.slot(y)
  }

  lemma FirstIsIn(chain: seq<nat>)
    ensures chain != [] ==> chain[0] in chain
  {
  }

  lemma AloneIsFirst(links: bool -> Links, inst: Instance, flows: set<nat>, y: nat)
    requires InstOK(links, inst, flows) && Alone(inst, y) && y !in flows
    ensures inst.heads[inst.slot(y)].None?
  {
    var b := inst.slot(y);
    forall x | x in inst.chains[b] ensures x == y && x in flows {
      assert inst.slot(x) == b;
    }
    FirstIsIn(inst.chains[b]);
    assert Leads(links(inst.ver), inst.heads[b], inst.chains[b]);
  }

  /** The next flow is copied: it is the first of its bucket, so its link ends there. */
  lemma CopyEnds(s: Sys, i: nat, y: nat, h: nat)
    requires Ahead(s, i, y, h) && Enabled(s, CopyLink(y)) && Filled(s).ver == VersionOf(s, i) && Alone(Filled(s), y)
    ensures CanPassBy(s, i, h)
  {
    AloneIsFirst(s.links, Filled(s), s.writer.done, y);
    hide WriterOK, InstOK, WillMeet, CanPassBy;
    WriterMoves(s, CopyLink(y), i, y, h);
    EndsThere(Take(s, CopyLink(y)), i, y, h);
  }

  /** Steps until the flows have been copied. */
  function ToCopy(s: Sys): nat
    requires s.writer.Copying?
  {
    2 * |s.live - s.writer.done| + if s.writer.next.None? then 1 else 0
  }

  /** A flow is linked, or put into its bucket; nothing else changes. */
  ghost predicate CopiedOn(s: Sys, s': Sys, step: Step)
    requires SysShaped(s) && s.writer.Copying? && SysShaped(s')
  {
    && s'.writer.Copying? && ToCopy(s') < ToCopy(s)
    && Current(s') == Current(s) && Filled(s').ver == Filled(s).ver && Filled(s').slot == Filled(s).slot
    && match s'.writer.next
       case None => s.writer.next.Some? && s'.writer.done == s.writer.done + {s.writer.next.value}
       case Some(f) => step == CopyLink(f) && s'.writer.done == s.writer.done
  }

  lemma FewerLeft(live: set<nat>, done: set<nat>, f: nat)
    requires f in live && f !in done
    ensures |live - (done + {f})| < |live - done|
  {
    assert live - (done + {f}) == (live - done) - {f};
  }

  lemma LinkCopiesOn(s: Sys, f: nat)
    requires SysShaped(s) && Enabled(s, CopyLink(f))
    ensures SysShaped(Take(s, CopyLink(f))) && CopiedOn(s, Take(s, CopyLink(f)), CopyLink(f))
  {
    hide Order, FirstNotIn, Shaped;
  }

  lemma BucketCopiesOn(s: Sys)
    requires SysShaped(s) && Enabled(s, Copy) && s.writer.next.value in s.live && s.writer.next.value !in s.writer.done
    ensures SysShaped(Take(s, Copy)) && CopiedOn(s, Take(s, Copy), Copy)
  {
    FewerLeft(s.live, s.writer.done, s.writer.next.value);
  }

  lemma CopyMoves(s: Sys, step: Step, i: nat, y: nat, h: nat)
    requires Ahead(s, i, y, h) && Enabled(s, step) && (step.Copy? || step.CopyLink?)
    ensures Ahead(Take(s, step), i, y, h) && VersionOf(Take(s, step), i) == VersionOf(s, i)
    ensures CopiedOn(s, Take(s, step), step)
    ensures CanPassBy(Take(s, step), i, h) ==> CanPassBy(s, i, h)
  {
    assert step.Copy? ==> s.writer.next.value in s.live && s.writer.next.value !in s.writer.done;
    hide WriterOK, WillMeet, CanPassBy, Take, CopiedOn;
    if step.Copy? {
      BucketCopiesOn(s);
    } else {
      LinkCopiesOn(s, step.f);
    }
    WriterMoves(s, step, i, y, h);
  }

  /** Flows are copied in order up to the one that the reader comes to next. */
  lemma {:induction false} CopyUpTo(s: Sys, i: nat, y: nat, h: nat)
    requires Ahead(s, i, y, h) && s.writer.Copying? && y !in s.writer.done && s.writer.next != Some(y)
    requires Filled(s).ver == VersionOf(s, i) && Alone(Filled(s), y)
    ensures CanPassBy(s, i, h)
    decreases ToCopy(s)
  {
    hide WriterOK, WillMeet, CanPassBy, Take;
    if s.writer.next.Some? {
      CopyMoves(s, Copy, i, y, h);
      CopyUpTo(Take(s, Copy), i, y, h);
    } else {
      var f := NextToCopy(s, y);
      if f == y {
        CopyEnds(s, i, y, h);
      } else {
        CopyMoves(s, CopyLink(f), i, y, h);
        CopyUpTo(Take(s, CopyLink(f)), i, y, h);
      }
    }
  }

  /** On an instance that was replaced, with the flow table free for an insertion. */
  lemma PassFromReplaced(s: Sys, i: nat, y: nat, h: nat)
    requires Ahead(s, i, y, h) && !s.writer.Copying? && VersionOf(s, i) != Current(s).ver
    ensures CanPassBy(s, i, h)
  {
    hide WriterOK, WillMeet, CanPassBy;
    var s1 := InsertOne(s, i, y, h);
    var s2 := StartOne(s1, i, y, h, f => if f == y then 1 else 0);
    CopyUpTo(s2, i, y, h);
  }

  /** All flows have been copied: the new instance replaces the reader's. */
  lemma PassFromFilled(s: Sys, i: nat, y: nat, h: nat)
    requires Ahead(s, i, y, h) && Enabled(s, Publish) && VersionOf(s, i) == Current(s).ver != Filled(s).ver
    ensures CanPassBy(s, i, h)
  {
    hide WriterOK, WillMeet, CanPassBy;
    WriterMoves(s, Publish, i, y, h);
    PassFromReplaced(Take(s, Publish), i, y, h);
  }

  /** A rehash copies all flows first. */
  lemma {:induction false} PassFromCopied(s: Sys, i: nat, y: nat, h: nat)
    requires Ahead(s, i, y, h) && s.writer.Copying? && VersionOf(s, i) == Current(s).ver != Filled(s).ver
    ensures CanPassBy(s, i, h)
    decreases ToCopy(s)
  {
    assert s.writer.done <= s.live;
    hide WriterOK, WillMeet, CanPassBy, Take;
    if s.writer.next.Some? {
      CopyMoves(s, Copy, i, y, h);
      PassFromCopied(Take(s, Copy), i, y, h);
    } else if x :| x in s.live && x !in s.writer.done {
      var f := NextToCopy(s, x);
      CopyMoves(s, CopyLink(f), i, y, h);
      PassFromCopied(Take(s, CopyLink(f)), i, y, h);
    } else {
      assert s.writer.done == s.live;
      PassFromFilled(s, i, y, h);
    }
  }

  lemma PassFromCurrent(s: Sys, i: nat, y: nat, h: nat)
    requires Ahead(s, i, y, h) && !s.writer.Copying? && VersionOf(s, i) == Current(s).ver
    ensures CanPassBy(s, i, h)
  {
    hide WriterOK, WillMeet, CanPassBy;
    var s1 := InsertOne(s, i, y, h);
    var s2 := StartOne(s1, i, y, h, f => 0);
    PassFromCopied(s2, i, y, h);
  }

  /** Of two flows ahead, the one that comes first, and the other. */
  lemma TwoAhead(s: Sys, i: nat, f: nat, g: nat) returns (y: nat, h: nat)
    requires SysOK(s) && i < |s.readers| && f != g && ToMeet(s.readers[i], f) && ToMeet(s.readers[i], g)
    ensures Ahead(s, i, y, h) && ToMeet(s.readers[i], h) && s.readers[i].pos.Some?
  {
    hide WriterOK;
    var r := s.readers[i];
    assert ReaderOK(s, r);
    var rest :| Left(s.links(s.insts[r.at].ver), r, rest);
    assert f in Elements(rest) && g in Elements(rest);
    var k := FirstToMeet(r, rest, f);
    y := rest[k];
    h := if y == f then g else f;
    var way := FirstAhead(s, r, rest, y);
    forall x | x in way ensures Gone(s, x) {
      var j :| 0 <= j < |way| && way[j] == x;
      assert (way + [y])[j] == rest[j] && k >= |way|;
      assert x in Elements(rest);
    }
    assert GoneWay(s, r, way, y);
  }

  lemma SecondIsMissed(s: Sys, i: nat, f: nat, g: nat)
    requires SysOK(s) && i < |s.readers| && f != g && ToMeet(s.readers[i], f) && ToMeet(s.readers[i], g)
    ensures exists run, steps, h :: Misses(s, i, run, steps, h)
  {
    var y, h := TwoAhead(s, i, f, g);
    assert ReaderOK(s, s.readers[i]);
    assert s.writer.Copying? ==> Current(s).ver != Filled(s).ver;
    hide WriterOK, WillMeet, PassesBy;
    if s.writer.Copying? {
      PassFromCopied(s, i, y, h);
    } else if VersionOf(s, i) == Current(s).ver {
      PassFromCurrent(s, i, y, h);
    } else {
      PassFromReplaced(s, i, y, h);
    }
    var run, steps :| PassesBy(s, i, run, steps, h);
    assert Misses(s, i, run, steps, h);
  }

  /** A reader can miss a flow that stays in the table, exactly if it has at least two flows still
      to meet. */
  lemma MissExact(s: Sys, i: nat)
    requires SysOK(s) && i < |s.readers|
    ensures (exists run, steps, f :: Misses(s, i, run, steps, f)) <==>
      exists f, g :: f != g && ToMeet(s.readers[i], f) && ToMeet(s.readers[i], g)
  {
    if f, g :| f != g && ToMeet(s.readers[i], f) && ToMeet(s.readers[i], g) {
      SecondIsMissed(s, i, f, g);
    } else if run: seq<Sys>, steps: seq<Step>, f :| Misses(s, i, run, steps, f) {
      if f in s.readers[i].seen {
        SeenStays(run, steps, i, f, |steps|);
      }
      forall g | ToMeet(s.readers[i], g) ensures g == f {
        assert ToMeet(s.readers[i], f);
      }
      OneAheadIsMet(s, i, f);
      WillMeetThroughout(run, steps, i, f, |steps|);
    }
  }

  lemma {:induction false} SeenStays(run: seq<Sys>, steps: seq<Step>, i: nat, f: nat, m: nat)
    requires Continues(run, steps) && m < |run| && i < |run[0].readers| && f in run[0].readers[i].seen
    ensures i < |run[m].readers| && f in run[m].readers[i].seen
  {
    if m > 0 {
      SeenStays(run, steps, i, f, m - 1);
      var step := steps[m - 1];
      MustStep(run[m - 1], step, i, f);
      if step != Walk(i) {
        SamePosition(run[m - 1], step, i);
      }
    }
  }

  // Runs in which that happens

  /** Whatever a sound table has been through, a reader that begins on a bucket can miss a flow of
      it exactly if the bucket holds at least two. */
  lemma BucketExact(s: Sys, b: nat)
    requires SysOK(s) && b < |Current(s).chains|
    ensures (exists run, steps, f :: Misses(Take(s, Begin(b)), |s.readers|, run, steps, f)) <==>
      |Current(s).chains[b]| >= 2
  {
    var s', i, chain := Take(s, Begin(b)), |s.readers|, Current(s).chains[b];
    BeginOK(s, b);
    MissExact(s', i);
    assert forall f :: ToMeet(s'.readers[i], f) <==> f in chain;
    if |chain| >= 2 {
      NeverTwice(s.links(Current(s).ver), Current(s).heads[b], chain, 0, 1);
      assert ToMeet(s'.readers[i], chain[0]) && ToMeet(s'.readers[i], chain[1]);
    }
  }

  /** ovs_flow_tbl_init. */
  function EmptyTable(): Sys {
    var none, no: seq<nat> := None, [];
    Sys(v => map[], [Instance(false, f => 0, seq(MIN_BUCKETS, i => none), seq(MIN_BUCKETS, i => no))], 0, {}, Idle, [])
  }

  /** The reader that begins at step `from` is done without having met `f`, which has been in its
      bucket and in the table since. */
  ghost predicate WalkMisses(run: seq<Sys>, steps: seq<Step>, from: nat, f: nat) {
    && Continues(run, steps) && from < |steps| && SysShaped(run[from])
    && steps[from].Begin? && steps[from].b < |Current(run[from]).chains|
    && f in Current(run[from]).chains[steps[from].b] && Stays(run, f, from, |steps|)
    && var i := |run[from].readers|;
       i < |run[|steps|].readers| && run[|steps|].readers[i].pos.None? && f !in run[|steps|].readers[i].seen
  }

  lemma BeginMisses(s: Sys, b: nat) returns (run: seq<Sys>, steps: seq<Step>, f: nat)
    requires SysOK(s) && b < |Current(s).chains| && |Current(s).chains[b]| >= 2
    ensures run != [] && run[0] == s && WalkMisses(run, steps, 0, f)
  {
    BucketExact(s, b);
    var s', i := Take(s, Begin(b)), |s.readers|;
    var run', steps';
    run', steps', f :| Misses(s', i, run', steps', f);
    assert f in Current(s).chains[b] && f in s.live;
    assert SysShaped(s) && Enabled(s, Begin(b));
    hide Take, Enabled, SysShaped, WriterOK;
    run, steps := [s] + run', [Begin(b)] + steps';
    Prepend(s, Begin(b), run', steps', run, steps);
    assert run[|steps|] == run'[|steps'|];
    forall m | 0 <= m <= |steps| ensures f in run[m].live {
      assert m > 0 ==> run[m] == run'[m - 1];
    }
  }

  lemma MissesLater(s: Sys, step: Step, run: seq<Sys>, steps: seq<Step>, from: nat, f: nat)
    returns (run': seq<Sys>, steps': seq<Step>)
    requires SysShaped(s) && Enabled(s, step) && run != [] && run[0] == Take(s, step) && WalkMisses(run, steps, from, f)
    ensures run' == [s] + run && steps' == [step] + steps && WalkMisses(run', steps', from + 1, f)
  {
    hide Take, Enabled, SysShaped;
    run', steps' := [s] + run, [step] + steps;
    Prepend(s, step, run, steps, run', steps');
    assert run'[|steps'|] == run[|steps|] && run'[from + 1] == run[from] && steps'[from + 1] == steps[from];
    forall m | from + 1 <= m <= |steps'| ensures f in run'[m].live {
      assert run'[m] == run[m - 1];
    }
  }

  /** A flow that goes to bucket 0 is inserted. */
  lemma InsertZero(s: Sys, f: nat) returns (s1: Sys, s2: Sys)
    requires SysOK(s) && Enabled(s, LinkNew(f)) && Current(s).slot(f) == 0
    ensures s1 == Take(s, LinkNew(f)) && SysOK(s1) && Enabled(s1, Insert) && s2 == Take(s1, Insert) && SysOK(s2)
    ensures Current(s2).slot == Current(s).slot && Current(s2).chains != [] && Current(s).chains != []
    ensures Current(s2).chains[0] == [f] + Current(s).chains[0]
    ensures forall g :: g != f && Enabled(s, LinkNew(g)) ==> Enabled(s2, LinkNew(g))
  {
    s1 := Take(s, LinkNew(f));
    LinkNewOK(s, f);
    s2 := Take(s1, Insert);
    InsertOK(s1);
  }

  lemma EmptyTableOK()
    ensures SysOK(EmptyTable()) && Current(EmptyTable()).chains != [] && Current(EmptyTable()).chains[0] == []
    ensures forall f :: Enabled(EmptyTable(), LinkNew(f)) && Current(EmptyTable()).slot(f) == 0
  {
  }

  /** From the empty table, a run in which a reader misses a flow that is in its bucket when it
      begins, and stays in the table. */
  lemma EmptyTableMisses() returns (run: seq<Sys>, steps: seq<Step>, f: nat)
    ensures run != [] && run[0] == EmptyTable() && WalkMisses(run, steps, 4, f)
  {
    EmptyTableOK();
    hide Take, Enabled, WriterOK, EmptyTable, WalkMisses, Shaped;
    var s0 := EmptyTable();
    var s1, s2 := InsertZero(s0, 1);
    var s3, s4 := InsertZero(s2, 2);
    run, steps, f := BeginMisses(s4, 0);
    run, steps := MissesLater(s3, Insert, run, steps, 0, f);
    run, steps := MissesLater(s2, LinkNew(2), run, steps, 1, f);
    run, steps := MissesLater(s1, Insert, run, steps, 2, f);
    run, steps := MissesLater(s0, LinkNew(1), run, steps, 3, f);
  }
}
