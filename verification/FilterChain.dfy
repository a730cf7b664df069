/** Filter programs and the chain of their results (lib/bpf.h, lib/bpf.c, and their use in
    classifier_lookup and find_match of lib/classifier.c).  A rule may depend on a program
    that is run on the packet.  Each program is run at most once per packet; the results that
    a classification depended on are recorded in a chain, which with the mask of the lookup
    is the key under which the datapath caches the outcome. */
module FilterChain {
  import opened Options
  import opened Flows
  import opened Subtables
  import opened SubtableUpdates
  import opened Classifier

  /** FILTER_PROG_CHAIN_MAX: the results kept for each packet. */
  const PROGRAMS: nat := 256

  datatype Verdict = Unknown | NoMatch | Matched

  /** One program of a chain and the result expected of it. */
  datatype Link = Link(prog: nat, expected: Verdict)

  // What programs decide

  /** What a packet's program returns: `run` says which programs match the packet. */
  function Outcome(run: nat -> bool, prog: nat): Verdict {
    if run(prog) then Matched else NoMatch
  }

  /** The programs that do not match the packet. */
  function Rejected(run: nat -> bool): set<nat> {
    set p | p in Range(0, PROGRAMS) && !run(p)
  }

  /** The results recorded in a chain are those of the packet. */
  ghost predicate Satisfies(run: nat -> bool, chain: seq<Link>) {
    forall k :: k in chain ==> k.expected == Outcome(run, k.prog)
  }

  ghost predicate Mentions(chain: seq<Link>, prog: nat) {
    exists k :: k in chain && k.prog == prog
  }

  ghost predicate InRange(rules: set<Rule>) {
    forall r :: r in rules ==> r.prog < PROGRAMS
  }

  // Ruling out more programs, or fewer, leaves a scan as it was, as long as those it passed
  // over stay out and the one it found stays in.

  lemma {:induction false} FirstRejects(chain: seq<Rule>, i: nat, version: nat, no: set<nat>, rej: set<nat>)
    requires i <= |chain| && Ordered(chain)
    requires forall p :: p in PassedIn(chain, i, version, no) ==> p in rej
    ensures var m, m' := FirstUsable(chain, i, version, no), FirstUsable(chain, i, version, rej);
      && (m.None? ==> m'.None?)
      && (m.Some? && Open(m.value, rej) ==> m' == m)
      && (m'.Some? ==> m.Some? && m'.value.priority <= m.value.priority)
    decreases |chain| - i
  {
    if i < |chain| {
      if Usable(chain[i], version, no) {
        FirstIsBest(chain, i, version, rej);
        var m' := FirstUsable(chain, i, version, rej);
        FirstAfter(chain, i, version, rej);
      } else {
        assert Visible(chain[i], version) ==> chain[i].prog in PassedIn(chain, i, version, no);
        forall p | p in PassedIn(chain, i + 1, version, no) ensures p in rej {
          assert p in PassedIn(chain, i, version, no);
        }
        FirstRejects(chain, i + 1, version, no, rej);
      }
    }
  }

  lemma {:induction false} FirstAfter(chain: seq<Rule>, i: nat, version: nat, no: set<nat>)
    requires i < |chain| && Ordered(chain)
    ensures var m := FirstUsable(chain, i, version, no); m.Some? ==> m.value.priority <= chain[i].priority
    decreases |chain| - i
  {
    if !Usable(chain[i], version, no) && i + 1 < |chain| {
      FirstAfter(chain, i + 1, version, no);
    }
  }

  lemma BestRejects(st: Subtable, f: Flow, version: nat, no: set<nat>, rej: set<nat>)
    requires ChainsOK(st)
    requires forall p :: p in Passed(st, f, version, no) ==> p in rej
    ensures var m, m' := Best(st, f, version, no), Best(st, f, version, rej);
      && (m.None? ==> m'.None?)
      && (m.Some? && Open(m.value, rej) ==> m' == m)
      && (m'.Some? ==> m.Some? && m'.value.priority <= m.value.priority)
  {
    if f * st.mask in st.rules {
      FirstRejects(st.rules[f * st.mask].chain, 0, version, no, rej);
    }
  }

  lemma {:induction false} ScanRejects(tables: Tables, order: seq<Entry>, i: nat, f: Flow, version: nat,
                                       no: set<nat>, rej: set<nat>, hard: Option<Rule>, hard': Option<Rule>)
    requires Ranked(tables) && Covered(order, tables) && i <= |order|
    requires Priority(hard') <= Priority(hard)
    requires forall p ::
      p in PassedOver(tables, order, i, Stop(tables, order, i, f, version, no, hard), f, version, no) ==> p in rej
    requires var r := Scan(tables, order, i, f, version, no, hard);
      (r.Some? ==> Open(r.value, rej)) && (r == hard ==> hard' == hard)
    ensures Scan(tables, order, i, f, version, rej, hard') == Scan(tables, order, i, f, version, no, hard)
    decreases |order| - i
  {
    hide Ranked, Best, Passed;
    if i < |order| && order[i].priority > Priority(hard) {
      var st := tables[order[i].mask];
      var n := Stop(tables, order, i, f, version, no, hard);
      forall p | p in Passed(st, f, version, no) ensures p in rej {
        assert p in PassedOver(tables, order, i, n, f, version, no);
      }
      ChainsInTables(tables, order[i].mask);
      BestRejects(st, f, version, no, rej);
      var m, m' := Best(st, f, version, no), Best(st, f, version, rej);
      ScanGrowsFrom(tables, order, i + 1, f, version, no, Better(hard, m));
      ScanRejects(tables, order, i + 1, f, version, no, rej, Better(hard, m), Better(hard', m'));
    }
  }

  lemma ChainsInTables(tables: Tables, m: Mask)
    requires Ranked(tables) && m in tables
    ensures ChainsOK(tables[m])
  {
  }

  /** What a scan found last is what it found, unless something better came along. */
  lemma {:induction false} ScanGrowsFrom(tables: Tables, order: seq<Entry>, i: nat, f: Flow, version: nat,
                                         no: set<nat>, hard: Option<Rule>)
    requires Covered(order, tables) && i <= |order|
    ensures var r := Scan(tables, order, i, f, version, no, hard); r == hard || Priority(r) > Priority(hard)
    decreases |order| - i
  {
    hide Best;
    if i < |order| && order[i].priority > Priority(hard) {
      ScanGrowsFrom(tables, order, i + 1, f, version, no, Better(hard, Best(tables[order[i].mask], f, version, no)));
    }
  }

  /** Two packets of the same flow get the same rule if they agree on the programs passed
      over and on that of the rule. */
  lemma FoundRejects(tables: Tables, order: seq<Entry>, f: Flow, version: nat, no: set<nat>, rej: set<nat>)
    requires Ranked(tables) && Covered(order, tables)
    requires forall p :: p in Recorded(tables, order, f, version, no) ==> p in rej
    requires var r := Found(tables, order, f, version, no); r.Some? ==> Open(r.value, rej)
    ensures Found(tables, order, f, version, rej) == Found(tables, order, f, version, no)
  {
    ScanRejects(tables, order, 0, f, version, no, rej, None, None);
  }

  /** What passed-over rules put into a chain, and the program of the rule found. */
  ghost predicate Records(chain: seq<Link>, passed: seq<nat>, r: Option<Rule>) {
    && (forall p :: p in passed ==> Link(p, NoMatch) in chain)
    && (r.Some? && r.value.prog != 0 ==> Link(r.value.prog, Matched) in chain)
  }

  /** Every packet that satisfies a chain recorded by a lookup is classified to its rule. */
  lemma ChainDecides(tables: Tables, order: seq<Entry>, f: Flow, version: nat, no: set<nat>,
                     chain: seq<Link>, run: nat -> bool)
    requires Ranked(tables) && Covered(order, tables)
    requires Satisfies(run, chain) && (forall k :: k in chain ==> k.prog < PROGRAMS)
    requires Records(chain, Recorded(tables, order, f, version, no), Found(tables, order, f, version, no))
    ensures Found(tables, order, f, version, Rejected(run)) == Found(tables, order, f, version, no)
  {
    hide Found, Recorded, Ranked, Covered;
    var r := Found(tables, order, f, version, no);
    forall p | p in Recorded(tables, order, f, version, no) ensures p in Rejected(run) {
      assert Link(p, NoMatch) in chain;
    }
    if r.Some? && r.value.prog != 0 {
      assert Link(r.value.prog, Matched) in chain;
    }
    FoundRejects(tables, order, f, version, no, Rejected(run));
  }

  lemma {:induction false} PassedInIsKnown(chain: seq<Rule>, i: nat, version: nat, no: set<nat>, p: nat)
    requires i <= |chain| && p in PassedIn(chain, i, version, no)
    ensures p in no
    decreases |chain| - i
  {
    if p in PassedIn(chain, i + 1, version, no) {
      PassedInIsKnown(chain, i + 1, version, no, p);
    }
  }

  lemma {:induction false} PassedOverIsKnown(tables: Tables, order: seq<Entry>, i: nat, n: nat, f: Flow,
                                             version: nat, no: set<nat>, p: nat)
    requires Covered(order, tables) && i <= n <= |order|
    requires p in PassedOver(tables, order, i, n, f, version, no)
    ensures p in no
    decreases n - i
  {
    var st := tables[order[i].mask];
    if p in Passed(st, f, version, no) {
      PassedInIsKnown(st.rules[f * st.mask].chain, 0, version, no, p);
    } else {
      PassedOverIsKnown(tables, order, i + 1, n, f, version, no, p);
    }
  }

  // One packet's programs

  function KnownNo(hist: seq<Verdict>): set<nat> {
    set p | p in Range(0, |hist|) && hist[p] == NoMatch
  }

  /** The results so far are those of the packet, and a program that was run has a result. */
  ghost predicate HistoryOK(hist: seq<Verdict>, runs: seq<nat>, run: nat -> bool) {
    && |hist| == PROGRAMS
    && (forall p :: 0 <= p < |hist| && hist[p] != Unknown ==> hist[p] == Outcome(run, p))
    && (forall i :: 0 <= i < |runs| ==> runs[i] < PROGRAMS && hist[runs[i]] != Unknown)
    && (forall i, j :: 0 <= i < j < |runs| ==> runs[i] != runs[j])
  }

  ghost predicate LinksOK(chain: seq<Link>, run: nat -> bool) {
    Satisfies(run, chain) && forall k :: k in chain ==> k.prog < PROGRAMS
  }

  class FilterState {
    /** The result of each program on this packet, so far. */
    var hist: seq<Verdict>
    var chain: seq<Link>
    /** The programs that were run, in order. */
    var runs: seq<nat>

    ghost predicate Valid(run: nat -> bool)
      reads this
    {
      HistoryOK(hist, runs, run) && LinksOK(chain, run)
    }

    /** run_filter_prog: the program's result, from the history if it has one. */
    method RunFilterProg(prog: nat, run: nat -> bool) returns (result: Verdict)
      requires Valid(run) && prog < PROGRAMS
      modifies this`hist, this`runs
      ensures Valid(run)
      ensures result == Outcome(run, prog) == hist[prog]
      ensures hist == old(hist)[prog := result]
      ensures runs == old(runs) + if old(hist)[prog] == Unknown then [prog] else []
    {
      if hist[prog] != Unknown {
        return hist[prog];
      }
      result := Outcome(run, prog);
      hist := hist[prog := result];
      runs := runs + [prog];
    }

    /** filter_prog_chain_add: appends unless the program is in the chain already. */
    method ChainAdd(prog: nat, expected: Verdict) returns (added: bool)
      modifies this`chain
      ensures added <==> !old(Mentions(chain, prog))
      ensures chain == old(chain) + if added then [Link(prog, expected)] else []
      ensures Mentions(chain, prog)
    {
      var found := false;
      for i := 0 to |chain|
        invariant chain == old(chain)
        invariant found <==> exists k :: k in chain[..i] && k.prog == prog
      {
        assert chain[..i + 1] == chain[..i] + [chain[i]];
        if chain[i].prog == prog {
          found := true;
        }
      }
      assert chain[..|chain|] == chain;
      if !found {
        chain := chain + [Link(prog, expected)];
        assert chain[|chain| - 1] in chain;
      }
      added := !found;
    }

    /** A result of this packet that is added is in the chain afterwards. */
    method Record(prog: nat, run: nat -> bool)
      requires Valid(run) && prog < PROGRAMS
      modifies this`chain
      ensures Valid(run) && Link(prog, Outcome(run, prog)) in chain && old(chain) <= chain
    {
      var added := ChainAdd(prog, Outcome(run, prog));
      if added {
        assert chain[|chain| - 1] == Link(prog, Outcome(run, prog));
      } else {
        var k :| k in chain && k.prog == prog;
      }
    }

    /** matches_filter_prog_chain: whether the packet has the results the chain expects. */
    method MatchesChain(expected: seq<Link>, run: nat -> bool) returns (ok: bool)
      requires Valid(run) && (forall k :: k in expected ==> k.prog < PROGRAMS)
      modifies this`hist, this`runs
      ensures Valid(run)
      ensures ok <==> Satisfies(run, expected)
    {
      for i := 0 to |expected|
        invariant Valid(run)
        invariant Satisfies(run, expected[..i])
      {
        var result := RunFilterProg(expected[i].prog, run);
        assert expected[i] in expected;
        if result != expected[i].expected {
          return false;
        }
        assert expected[..i + 1] == expected[..i] + [expected[i]];
      }
      assert expected[..|expected|] == expected;
      ok := true;
    }

    /** The rules passed over, and the program of the rule found, are recorded. */
    method RecordLookup(passed: seq<nat>, run: nat -> bool)
      requires Valid(run) && forall p :: p in passed ==> p < PROGRAMS && !run(p)
      modifies this`chain
      ensures Valid(run) && Records(chain, passed, None) && old(chain) <= chain
    {
      for i := 0 to |passed|
        invariant Valid(run) && old(chain) <= chain
        invariant Records(chain, passed[..i], None)
      {
        assert passed[i] in passed;
        label before:
        Record(passed[i], run);
        assert passed[..i + 1] == passed[..i] + [passed[i]];
        forall k | k in old@before(chain) ensures k in chain {
        }
      }
      assert passed[..|passed|] == passed;
    }

    /** One round of classifier_lookup: a lookup without the programs known not to match,
        and a run of the program of the rule it finds. */
    method Round(c: FlowClassifier, version: nat, f: Flow, wc: Mask, run: nat -> bool)
      returns (r: Option<Rule>, wc': Mask, done: bool, ghost no: set<nat>)
      requires Valid(run) && c.Valid() && InRange(Rules(c.tables))
      modifies this
      ensures Valid(run) && old(chain) <= chain && wc <= wc'
      ensures Covered(c.order, c.tables)
      ensures done ==> Settled(c.l, c.tables, c.order, version, f, wc', chain, r, no)
      ensures !done ==> KnownNo(old(hist)) < KnownNo(hist) <= Range(0, PROGRAMS)
    {
      hide FlowClassifier.Valid, Found, Recorded, AllSafe, Rules, Covered;
      var known := KnownNo(hist);
      no := known;
      var passed;
      r, passed, wc' := c.Lookup(version, known, f, wc);
      PassedAreKnown(c.tables, c.order, f, version, known);
      RecordLookup(passed, run);
      done := true;
      if r.Some? && r.value.prog != 0 {
        var result := RunFilterProg(r.value.prog, run);
        label before:
        Record(r.value.prog, run);
        forall k | k in old@before(chain) ensures k in chain {
        }
        done := result == Matched;
        assert !done ==> r.value.prog in KnownNo(hist) && r.value.prog !in known;
      }
    }

    /** classifier_lookup: looks again without the programs found not to match, until the
        rule found needs no program or its program matches.  The outcome is that of a linear
        scan for the rules whose programs match; it is the same for every packet that agrees
        on the mask and satisfies the chain. */
    method Classify(c: FlowClassifier, version: nat, f: Flow, wc: Mask, run: nat -> bool)
      returns (r: Option<Rule>, wc': Mask)
      requires Valid(run) && c.Valid() && InRange(Rules(c.tables))
      modifies this
      ensures Valid(run) && old(chain) <= chain && wc <= wc'
      ensures Covered(c.order, c.tables)
      ensures r == Found(c.tables, c.order, f, version, Rejected(run))
      ensures LinearScan(Rules(c.tables), f, version, Rejected(run), r)
      ensures AllSafe(c.l, c.tables) ==> forall g: Flow, other: nat -> bool ::
        f * wc' == g * wc' && Satisfies(other, chain) ==>
          Found(c.tables, c.order, g, version, Rejected(other)) == r
    {
      r, wc' := None, wc;
      var done := false;
      ghost var no: set<nat> := {};
      while !done
        invariant Valid(run) && old(chain) <= chain && wc <= wc'
        invariant done ==> Covered(c.order, c.tables)
        invariant done ==> Settled(c.l, c.tables, c.order, version, f, wc', chain, r, no)
        decreases !done, Range(0, PROGRAMS) - KnownNo(hist)
      {
        r, wc', done, no := Round(c, version, f, wc', run);
      }
      LookupsReady(c.l, c.tables, c.order, c.tries);
      hide Found, Recorded, AllSafe, Classifier.ClassifierOK, Rules, Covered, Ranked, Rejected;
      LookupIsLinearScan(c.tables, c.order, f, version, Rejected(run));
      ChainDecides(c.tables, c.order, f, version, no, chain, run);
      if AllSafe(c.l, c.tables) {
        forall g: Flow, other: nat -> bool | f * wc' == g * wc' && Satisfies(other, chain)
          ensures Found(c.tables, c.order, g, version, Rejected(other)) == r
        {
          ChainDecides(c.tables, c.order, g, version, no, chain, other);
        }
      }
    }
  }

  lemma PassedAreKnown(tables: Tables, order: seq<Entry>, f: Flow, version: nat, no: set<nat>)
    requires Covered(order, tables)
    ensures forall p :: p in Recorded(tables, order, f, version, no) ==> p in no
  {
    forall p | p in Recorded(tables, order, f, version, no) ensures p in no {
      PassedOverIsKnown(tables, order, 0, Stop(tables, order, 0, f, version, no, None), f, version, no, p);
    }
  }

  /** The rule was found by a lookup whose mask and chain settle the outcome. */
  ghost predicate Settled(l: Layout, tables: Tables, order: seq<Entry>, version: nat, f: Flow, wc: Mask,
                          chain: seq<Link>, r: Option<Rule>, no: set<nat>)
    requires Covered(order, tables)
  {
    && r == Found(tables, order, f, version, no)
    && Records(chain, Recorded(tables, order, f, version, no), r)
    && (AllSafe(l, tables) ==> forall g: Flow :: f * wc == g * wc ==>
          && Found(tables, order, g, version, no) == r
          && Recorded(tables, order, g, version, no) == Recorded(tables, order, f, version, no))
  }
}
