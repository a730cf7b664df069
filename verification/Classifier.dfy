/** The flow classifier (lib/classifier.c): subtables by mask, visited in the order of their
    highest priorities, and prefix tries shared by all of them. */
module Classifier {
  import opened Options
  import opened Flows
  import opened Subtables
  import opened SubtableUpdates
  import Trie

  type Tables = map<Mask, Subtable>

  /** An entry of the priority vector. */
  datatype Entry = Entry(mask: Mask, priority: int)

  // The rules of a classifier, and a linear scan of them

  function Rules(tables: Tables): set<Rule> {
    set m, r | m in tables && r in All(tables[m]) :: r
  }

  /** The rules that a lookup may return. */
  ghost predicate Candidate(rules: set<Rule>, f: Flow, version: nat, no: set<nat>, r: Rule) {
    r in rules && Matches(r, f) && Usable(r, version, no)
  }

  /** What a linear scan for a rule of the highest priority may return.  A rule of the lowest
      priority there is, INT_MIN, does not count. */
  ghost predicate LinearScan(rules: set<Rule>, f: Flow, version: nat, no: set<nat>, r: Option<Rule>) {
    && (r.Some? <==> exists c :: Candidate(rules, f, version, no, c) && c.priority > INT_MIN)
    && (r.Some? ==> Candidate(rules, f, version, no, r.value))
    && forall c :: r.Some? && Candidate(rules, f, version, no, c) ==> c.priority <= r.value.priority
  }

  // Lookup

  function Priority(r: Option<Rule>): int {
    if r.Some? then r.value.priority else INT_MIN
  }

  predicate Covered(order: seq<Entry>, tables: Tables) {
    forall i :: 0 <= i < |order| ==> order[i].mask in tables
  }

  function Better(hard: Option<Rule>, m: Option<Rule>): Option<Rule> {
    if m.Some? && m.value.priority > Priority(hard) then m else hard
  }

  /** The main loop of classifier_lookup__, from subtable `i`. */
  function Scan(tables: Tables, order: seq<Entry>, i: nat, f: Flow, version: nat, no: set<nat>,
                hard: Option<Rule>): Option<Rule>
    requires i <= |order| && Covered(order, tables)
    decreases |order| - i
  {
    if i == |order| || order[i].priority <= Priority(hard) then hard
    else Scan(tables, order, i + 1, f, version, no, Better(hard, Best(tables[order[i].mask], f, version, no)))
  }

  /** Where that loop stops. */
  function Stop(tables: Tables, order: seq<Entry>, i: nat, f: Flow, version: nat, no: set<nat>,
                hard: Option<Rule>): (n: nat)
    requires i <= |order| && Covered(order, tables)
    ensures i <= n <= |order|
    decreases |order| - i
  {
    if i == |order| || order[i].priority <= Priority(hard) then i
    else Stop(tables, order, i + 1, f, version, no, Better(hard, Best(tables[order[i].mask], f, version, no)))
  }

  /** The programs of the rules passed over in subtables `i` up to `n`. */
  function PassedOver(tables: Tables, order: seq<Entry>, i: nat, n: nat, f: Flow, version: nat,
                      no: set<nat>): seq<nat>
    requires i <= n <= |order| && Covered(order, tables)
    decreases n - i
  {
    if i == n then []
    else Passed(tables[order[i].mask], f, version, no) + PassedOver(tables, order, i + 1, n, f, version, no)
  }

  function Found(tables: Tables, order: seq<Entry>, f: Flow, version: nat, no: set<nat>): Option<Rule>
    requires Covered(order, tables)
  {
    Scan(tables, order, 0, f, version, no, None)
  }

  function Recorded(tables: Tables, order: seq<Entry>, f: Flow, version: nat, no: set<nat>): seq<nat>
    requires Covered(order, tables)
  {
    PassedOver(tables, order, 0, Stop(tables, order, 0, f, version, no, None), f, version, no)
  }

  // What a classifier keeps true

  ghost predicate TablesOK(l: Layout, tables: Tables) {
    forall m :: m in tables ==>
      tables[m].mask == m && Consistent(l, tables[m]) &&
      MaxOK(All(tables[m]), tables[m].maxPriority, tables[m].maxCount)
  }

  /** What the outcome of a lookup depends on. */
  ghost predicate Ranked(tables: Tables) {
    && (forall m :: m in tables ==> ChainsOK(tables[m]))
    && (forall m, r :: m in tables && r in All(tables[m]) ==> r.priority <= tables[m].maxPriority)
  }

  predicate Sorted(order: seq<Entry>) {
    forall i, j :: 0 <= i < j < |order| ==> order[i].priority >= order[j].priority
  }

  predicate DistinctMasks(order: seq<Entry>) {
    forall i, j :: 0 <= i < j < |order| ==> order[i].mask != order[j].mask
  }

  /** One entry per subtable, with its highest priority. */
  ghost predicate Listed(order: seq<Entry>, tables: Tables) {
    forall e :: e in order <==> e.mask in tables && e.priority == tables[e.mask].maxPriority
  }

  ghost predicate OrderOK(order: seq<Entry>, tables: Tables) {
    Sorted(order) && DistinctMasks(order) && Listed(order, tables)
  }

  function Matchings(tables: Tables): set<(Mask, Flow)> {
    set m, k | m in tables && k in tables[m].rules :: (m, k)
  }

  function FieldPrefix(l: Layout, j: nat, x: (Mask, Flow)): Trie.Bits
    requires j < |l.fields|
  {
    Value(x.1, l.fields[j])[..PrefixLen(x.0, l.fields[j])]
  }

  ghost function Holders(l: Layout, matches: set<(Mask, Flow)>, j: nat, p: Trie.Bits): set<(Mask, Flow)>
    requires j < |l.fields|
  {
    set x | x in matches && FieldPrefix(l, j, x) != [] && FieldPrefix(l, j, x) == p
  }

  /** A prefix trie counts the matches with each prefix of its field. */
  ghost predicate TrieOK(l: Layout, matches: set<(Mask, Flow)>, j: nat, t: Trie.Tree)
    requires j < |l.fields|
  {
    && Trie.Valid(t) && Trie.Fits(t, l.fields[j].bits)
    && forall p :: Trie.Count(t, p) == |Holders(l, matches, j, p)|
  }

  ghost predicate TriesOK(l: Layout, matches: set<(Mask, Flow)>, tries: seq<Trie.Tree>) {
    && |tries| == |l.fields|
    && forall j :: 0 <= j < |tries| ==> TrieOK(l, matches, j, tries[j])
  }

  ghost predicate DistinctRules(rules: set<Rule>) {
    forall r, s :: r in rules && s in rules && r.id == s.id ==> r == s
  }

  ghost predicate ClassifierOK(l: Layout, tables: Tables, order: seq<Entry>, tries: seq<Trie.Tree>) {
    && LayoutOK(l) && TablesOK(l, tables) && OrderOK(order, tables)
    && TriesOK(l, Matchings(tables), tries) && DistinctRules(Rules(tables))
  }

  lemma OrderIsCovered(order: seq<Entry>, tables: Tables)
    requires Listed(order, tables)
    ensures Covered(order, tables)
  {
  }

  lemma PrefixIsHeld(l: Layout, matches: set<(Mask, Flow)>, j: nat, t: Trie.Tree, x: (Mask, Flow))
    requires j < |l.fields| && TrieOK(l, matches, j, t) && x in matches && FieldPrefix(l, j, x) != []
    ensures Trie.Count(t, FieldPrefix(l, j, x)) > 0
  {
    assert x in Holders(l, matches, j, FieldPrefix(l, j, x));
  }

  lemma PrefixesAreStored(l: Layout, tables: Tables, tries: seq<Trie.Tree>, m: Mask)
    requires TriesOK(l, Matchings(tables), tries) && m in tables
    requires Shape(l, tables[m]) && tables[m].mask == m
    ensures PrefixesStored(l, tables[m], tries)
  {
    var st := tables[m];
    hide TrieOK, Trie.Count, Trie.Valid, Trie.Fits, PrefixLen;
    forall j | 0 <= j < |tries| ensures Trie.Valid(tries[j]) && Trie.Fits(tries[j], l.fields[j].bits) {
      TrieIsValid(l, Matchings(tables), j, tries[j]);
    }
    forall j, k | 0 <= j < |tries| && st.plens[j] > 0 && k in st.rules
      ensures Trie.Count(tries[j], Value(k, l.fields[j])[..st.plens[j]]) > 0
    {
      PrefixIsHeld(l, Matchings(tables), j, tries[j], (m, k));
    }
  }

  lemma TrieIsValid(l: Layout, matches: set<(Mask, Flow)>, j: nat, t: Trie.Tree)
    requires j < |l.fields| && TrieOK(l, matches, j, t)
    ensures Trie.Valid(t) && Trie.Fits(t, l.fields[j].bits)
  {
  }

  lemma TablesAreSearchable(l: Layout, tables: Tables, tries: seq<Trie.Tree>, m: Mask)
    requires LayoutOK(l) && TablesOK(l, tables) && TriesOK(l, Matchings(tables), tries) && m in tables
    ensures Searchable(l, tables[m], tries)
  {
    hide Shape, HashesOK, Indexed, PortsStored, PrefixesStored, TriesOK, IndexCounts, PortsCounts, MaxOK, ChainsOK;
    assert Consistent(l, tables[m]);
    CountsSuffice(l, tables[m]);
    PrefixesAreStored(l, tables, tries, m);
  }

  // A lookup is a linear scan

  lemma {:induction false} FirstIsBest(chain: seq<Rule>, i: nat, version: nat, no: set<nat>)
    requires i <= |chain| && Ordered(chain)
    ensures var r := FirstUsable(chain, i, version, no);
      && (r.Some? ==> r.value in chain && Usable(r.value, version, no))
      && forall k :: i <= k < |chain| && Usable(chain[k], version, no) ==>
           r.Some? && chain[k].priority <= r.value.priority
    decreases |chain| - i
  {
    if i < |chain| && !Usable(chain[i], version, no) {
      FirstIsBest(chain, i + 1, version, no);
    }
  }

  lemma BestIsBest(st: Subtable, f: Flow, version: nat, no: set<nat>)
    requires ChainsOK(st)
    ensures var r := Best(st, f, version, no);
      && (r.Some? ==> Candidate(All(st), f, version, no, r.value))
      && forall c :: Candidate(All(st), f, version, no, c) ==> r.Some? && c.priority <= r.value.priority
  {
    var r := Best(st, f, version, no);
    var key := f * st.mask;
    if key in st.rules {
      FirstIsBest(st.rules[key].chain, 0, version, no);
      if r.Some? {
        AllByKey(st, r.value);
      }
    }
    forall c | Candidate(All(st), f, version, no, c) ensures r.Some? && c.priority <= r.value.priority {
      AllByKey(st, c);
      var i :| 0 <= i < |st.rules[key].chain| && st.rules[key].chain[i] == c;
    }
  }

  lemma {:induction false} ScanGrows(tables: Tables, order: seq<Entry>, i: nat, f: Flow, version: nat,
                                     no: set<nat>, hard: Option<Rule>)
    requires Ranked(tables) && Covered(order, tables) && i <= |order|
    ensures var r := Scan(tables, order, i, f, version, no, hard);
      && Priority(r) >= Priority(hard)
      && (r == hard || (r.Some? && r.value.priority > INT_MIN && Candidate(Rules(tables), f, version, no, r.value)))
    requires hard.Some? ==> hard.value.priority >= INT_MIN
    decreases |order| - i
  {
    if i < |order| && order[i].priority > Priority(hard) {
      hide Ranked, Candidate, Best;
      var st := tables[order[i].mask];
      BestInTables(tables, order[i].mask, f, version, no);
      ScanGrows(tables, order, i + 1, f, version, no, Better(hard, Best(st, f, version, no)));
    }
  }

  lemma BestInTables(tables: Tables, m: Mask, f: Flow, version: nat, no: set<nat>)
    requires Ranked(tables) && m in tables
    ensures var r := Best(tables[m], f, version, no);
      r.Some? ==> Candidate(Rules(tables), f, version, no, r.value)
  {
    BestIsBest(tables[m], f, version, no);
  }

  lemma BestCovers(tables: Tables, m: Mask, f: Flow, version: nat, no: set<nat>, c: Rule)
    requires Ranked(tables) && m in tables && Candidate(All(tables[m]), f, version, no, c)
    ensures Best(tables[m], f, version, no).Some?
    ensures c.priority <= Best(tables[m], f, version, no).value.priority
    ensures c.priority <= tables[m].maxPriority
  {
    BestIsBest(tables[m], f, version, no);
  }

  lemma EntryFacts(tables: Tables, order: seq<Entry>, i: nat, k: nat)
    requires Sorted(order) && Listed(order, tables) && i <= k < |order|
    ensures order[i].mask in tables && order[k].mask in tables
    ensures tables[order[k].mask].maxPriority == order[k].priority <= order[i].priority
  {
  }

  /** No candidate from subtable `i` on outranks the outcome. */
  lemma {:induction false} ScanCovers(tables: Tables, order: seq<Entry>, i: nat, f: Flow, version: nat,
                                      no: set<nat>, hard: Option<Rule>, k: nat, c: Rule)
    requires Ranked(tables) && Sorted(order) && Listed(order, tables) && Covered(order, tables)
    requires hard.Some? ==> hard.value.priority >= INT_MIN
    requires i <= k < |order| && Candidate(All(tables[order[k].mask]), f, version, no, c)
    ensures c.priority <= Priority(Scan(tables, order, i, f, version, no, hard))
    decreases |order| - i
  {
    hide Ranked, Listed, Sorted, Covered, Candidate, All, Best;
    EntryFacts(tables, order, i, k);
    BestCovers(tables, order[k].mask, f, version, no, c);
    if order[i].priority > Priority(hard) {
      var best := Better(hard, Best(tables[order[i].mask], f, version, no));
      if i == k {
        ScanGrows(tables, order, i + 1, f, version, no, best);
      } else {
        ScanCovers(tables, order, i + 1, f, version, no, best, k, c);
      }
    }
  }

  /** The central law: a lookup finds a rule exactly when a linear scan would, and one of the
      highest priority. */
  lemma LookupIsLinearScan(tables: Tables, order: seq<Entry>, f: Flow, version: nat, no: set<nat>)
    requires Ranked(tables) && Sorted(order) && Listed(order, tables)
    ensures Covered(order, tables)
    ensures LinearScan(Rules(tables), f, version, no, Found(tables, order, f, version, no))
  {
    OrderIsCovered(order, tables);
    ScanGrows(tables, order, 0, f, version, no, None);
    var r := Found(tables, order, f, version, no);
    forall c | Candidate(Rules(tables), f, version, no, c) ensures c.priority <= Priority(r) {
      RuleIsCovered(tables, order, f, version, no, c);
    }
  }

  lemma RuleIsCovered(tables: Tables, order: seq<Entry>, f: Flow, version: nat, no: set<nat>, c: Rule)
    requires Ranked(tables) && Sorted(order) && Listed(order, tables) && Covered(order, tables)
    requires Candidate(Rules(tables), f, version, no, c)
    ensures c.priority <= Priority(Found(tables, order, f, version, no))
  {
    var m :| m in tables && c in All(tables[m]);
    var e := Entry(m, tables[m].maxPriority);
    assert e in order;
    var k :| 0 <= k < |order| && order[k] == e;
    hide All, Ranked, Listed;
    ScanCovers(tables, order, 0, f, version, no, None, k, c);
  }

  // What decides a lookup

  /** Flows with the same outcome in every subtable visited have the same outcome. */
  lemma {:induction false} ScanAgrees(tables: Tables, order: seq<Entry>, i: nat, f: Flow, g: Flow, version: nat,
                                      no: set<nat>, hard: Option<Rule>)
    requires Covered(order, tables) && i <= |order|
    requires forall k :: i <= k < Stop(tables, order, i, f, version, no, hard) ==>
      Best(tables[order[k].mask], g, version, no) == Best(tables[order[k].mask], f, version, no)
    ensures Scan(tables, order, i, g, version, no, hard) == Scan(tables, order, i, f, version, no, hard)
    ensures Stop(tables, order, i, g, version, no, hard) == Stop(tables, order, i, f, version, no, hard)
    decreases |order| - i
  {
    hide Best;
    if i < |order| && order[i].priority > Priority(hard) {
      var m := Best(tables[order[i].mask], f, version, no);
      assert Best(tables[order[i].mask], g, version, no) == m;
      ScanAgrees(tables, order, i + 1, f, g, version, no, Better(hard, m));
    }
  }

  lemma {:induction false} PassedAgrees(tables: Tables, order: seq<Entry>, i: nat, n: nat, f: Flow, g: Flow,
                                        version: nat, no: set<nat>)
    requires Covered(order, tables) && i <= n <= |order|
    requires forall k :: i <= k < n ==>
      Passed(tables[order[k].mask], g, version, no) == Passed(tables[order[k].mask], f, version, no)
    ensures PassedOver(tables, order, i, n, g, version, no) == PassedOver(tables, order, i, n, f, version, no)
    decreases n - i
  {
    if i < n {
      PassedAgrees(tables, order, i + 1, n, f, g, version, no);
    }
  }

  lemma {:induction false} PassedJoin(tables: Tables, order: seq<Entry>, i: nat, n: nat, f: Flow, version: nat,
                                      no: set<nat>)
    requires Covered(order, tables) && i <= n < |order|
    ensures PassedOver(tables, order, i, n + 1, f, version, no) ==
      PassedOver(tables, order, i, n, f, version, no) + Passed(tables[order[n].mask], f, version, no)
    decreases n - i
  {
    hide Passed;
    if i < n {
      PassedJoin(tables, order, i + 1, n, f, version, no);
      var a, b := Passed(tables[order[i].mask], f, version, no), Passed(tables[order[n].mask], f, version, no);
      var c := PassedOver(tables, order, i + 1, n, f, version, no);
      assert a + (c + b) == (a + c) + b;
    }
  }

  /** The bits in `wc` settle the outcome of the first `n` subtables. */
  ghost predicate DecidedUpTo(tables: Tables, order: seq<Entry>, n: nat, f: Flow, wc: Mask)
    requires Covered(order, tables) && n <= |order|
  {
    forall k :: 0 <= k < n ==> Decided(tables[order[k].mask], f, wc)
  }

  lemma DecidedUpToNext(tables: Tables, order: seq<Entry>, n: nat, f: Flow, wc: Mask, wc': Mask)
    requires Covered(order, tables) && n < |order| && wc <= wc'
    requires DecidedUpTo(tables, order, n, f, wc) && Decided(tables[order[n].mask], f, wc')
    ensures DecidedUpTo(tables, order, n + 1, f, wc')
  {
    forall k | 0 <= k < n ensures Decided(tables[order[k].mask], f, wc') {
      DecidedGrows(tables[order[k].mask], f, wc, wc');
    }
  }

  /** Every flow that agrees on those bits gets the same rule, and passes over the same ones. */
  lemma DecidedLookup(tables: Tables, order: seq<Entry>, f: Flow, g: Flow, wc: Mask, version: nat, no: set<nat>)
    requires Covered(order, tables)
    requires DecidedUpTo(tables, order, Stop(tables, order, 0, f, version, no, None), f, wc)
    requires f * wc == g * wc
    ensures Found(tables, order, g, version, no) == Found(tables, order, f, version, no)
    ensures Recorded(tables, order, g, version, no) == Recorded(tables, order, f, version, no)
  {
    var n := Stop(tables, order, 0, f, version, no, None);
    forall k | 0 <= k < n
      ensures Best(tables[order[k].mask], g, version, no) == Best(tables[order[k].mask], f, version, no)
      ensures Passed(tables[order[k].mask], g, version, no) == Passed(tables[order[k].mask], f, version, no)
    {
      DecidedForAll(tables[order[k].mask], f, g, wc, version, no);
    }
    ScanAgrees(tables, order, 0, f, g, version, no, None);
    PassedAgrees(tables, order, 0, n, f, g, version, no);
  }

  ghost predicate AllSafe(l: Layout, tables: Tables) {
    LayoutOK(l) && forall m :: m in tables ==> SafePorts(l, m)
  }

  function NoContext(): Context {
    Context(false, 0, {})
  }

  /** classifier_lookup__, for rules without conjunctions.  The bits it looked at are added
      to `wc`, and settle the outcome. */
  method LookupIn(l: Layout, tables: Tables, order: seq<Entry>, tries: seq<Trie.Tree>,
                version: nat, no: set<nat>, f: Flow, wc: Mask)
    returns (hard: Option<Rule>, passed: seq<nat>, wc': Mask)
    requires LayoutOK(l) && Covered(order, tables) && |tries| == |l.fields|
    requires forall m :: m in tables ==> tables[m].mask == m && Searchable(l, tables[m], tries)
    ensures hard == Found(tables, order, f, version, no)
    ensures passed == Recorded(tables, order, f, version, no)
    ensures wc <= wc'
    ensures AllSafe(l, tables) ==>
      DecidedUpTo(tables, order, Stop(tables, order, 0, f, version, no, None), f, wc')
  {
    hide Searchable, Decided, Best, Passed, SafePorts;
    hard, passed, wc' := None, [], wc;
    var ctx := seq(|tries|, i => NoContext());
    var i := 0;
    assert ContextsOK(l, tries, f, ctx);
    while i < |order| && order[i].priority > Priority(hard)
      invariant i <= |order| && ContextsOK(l, tries, f, ctx) && wc <= wc'
      invariant Scan(tables, order, 0, f, version, no, None) == Scan(tables, order, i, f, version, no, hard)
      invariant Stop(tables, order, 0, f, version, no, None) == Stop(tables, order, i, f, version, no, hard)
      invariant passed == PassedOver(tables, order, 0, i, f, version, no)
      invariant AllSafe(l, tables) ==> DecidedUpTo(tables, order, i, f, wc')
    {
      hide ContextsOK;
      ghost var before := wc';
      var m, more;
      m, more, ctx, wc' := FindMatchWc(l, tables[order[i].mask], tries, ctx, version, no, f, wc');
      if AllSafe(l, tables) {
        DecidedUpToNext(tables, order, i, f, before, wc');
      }
      PassedJoin(tables, order, 0, i, f, version, no);
      passed := passed + more;
      if m.Some? && m.value.priority > Priority(hard) {
        hard := m;
      }
      i := i + 1;
    }
  }

  // The priority vector

  function Without(order: seq<Entry>, m: Mask): seq<Entry> {
    if order == [] then []
    else
      var rest := Without(order[1..], m);
      if order[0].mask == m then rest else [order[0]] + rest
  }

  function Placed(order: seq<Entry>, e: Entry): seq<Entry> {
    if order == [] || order[0].priority < e.priority then [e] + order
    else [order[0]] + Placed(order[1..], e)
  }

  lemma {:induction false} WithoutMembers(order: seq<Entry>, m: Mask, e: Entry)
    ensures e in Without(order, m) <==> e in order && e.mask != m
  {
    if order != [] {
      WithoutMembers(order[1..], m, e);
      assert order == [order[0]] + order[1..];
    }
  }

  lemma {:induction false} WithoutKeeps(order: seq<Entry>, m: Mask)
    requires Sorted(order) && DistinctMasks(order)
    ensures Sorted(Without(order, m)) && DistinctMasks(Without(order, m))
  {
    if order != [] {
      WithoutKeeps(order[1..], m);
      forall e | e in Without(order[1..], m) ensures e.priority <= order[0].priority && e.mask != order[0].mask {
        WithoutMembers(order[1..], m, e);
        var i :| 0 <= i < |order[1..]| && order[1..][i] == e;
        assert order[i + 1] == e;
      }
    }
  }

  lemma {:induction false} PlacedMembers(order: seq<Entry>, e: Entry, x: Entry)
    ensures x in Placed(order, e) <==> x in order || x == e
  {
    if order != [] && order[0].priority >= e.priority {
      PlacedMembers(order[1..], e, x);
      assert order == [order[0]] + order[1..];
    }
  }

  lemma {:induction false} PlacedKeeps(order: seq<Entry>, e: Entry)
    requires Sorted(order) && DistinctMasks(order) && (forall x :: x in order ==> x.mask != e.mask)
    ensures Sorted(Placed(order, e)) && DistinctMasks(Placed(order, e))
  {
    if order != [] && order[0].priority >= e.priority {
      PlacedKeeps(order[1..], e);
      forall x | x in Placed(order[1..], e) ensures x.priority <= order[0].priority && x.mask != order[0].mask {
        PlacedMembers(order[1..], e, x);
        if x in order[1..] {
          var i :| 0 <= i < |order[1..]| && order[1..][i] == x;
          assert order[i + 1] == x;
        }
      }
    }
  }

  /** pvector_insert or pvector_change_priority, then pvector_publish. */
  function Reordered(order: seq<Entry>, m: Mask, priority: int): seq<Entry> {
    Placed(Without(order, m), Entry(m, priority))
  }

  lemma ReorderedOK(order: seq<Entry>, tables: Tables, m: Mask, st: Subtable)
    requires OrderOK(order, tables)
    ensures OrderOK(Reordered(order, m, st.maxPriority), tables[m := st])
  {
    hide Without, Placed;
    WithoutKeeps(order, m);
    forall x ensures x in Without(order, m) <==> x in order && x.mask != m {
      WithoutMembers(order, m, x);
    }
    var e := Entry(m, st.maxPriority);
    PlacedKeeps(Without(order, m), e);
    forall x ensures x in Placed(Without(order, m), e) <==> x in Without(order, m) || x == e {
      PlacedMembers(Without(order, m), e, x);
    }
  }

  /** pvector_remove, then pvector_publish. */
  lemma WithoutOK(order: seq<Entry>, tables: Tables, m: Mask)
    requires OrderOK(order, tables)
    ensures OrderOK(Without(order, m), tables - {m})
  {
    hide Without;
    WithoutKeeps(order, m);
    forall x ensures x in Without(order, m) <==> x in order && x.mask != m {
      WithoutMembers(order, m, x);
    }
  }

  /** A subtable whose highest priority does not change keeps its place. */
  lemma SameOrderOK(order: seq<Entry>, tables: Tables, m: Mask, st: Subtable)
    requires OrderOK(order, tables) && m in tables && st.maxPriority == tables[m].maxPriority
    ensures OrderOK(order, tables[m := st])
  {
  }

  // The prefix tries

  lemma HoldersAdded(l: Layout, matches: set<(Mask, Flow)>, j: nat, x: (Mask, Flow), p: Trie.Bits)
    requires j < |l.fields| && x !in matches
    ensures |Holders(l, matches + {x}, j, p)| ==
      |Holders(l, matches, j, p)| + if p != [] && FieldPrefix(l, j, x) == p then 1 else 0
  {
    hide FieldPrefix;
    if p != [] && FieldPrefix(l, j, x) == p {
      assert Holders(l, matches + {x}, j, p) == Holders(l, matches, j, p) + {x};
    } else {
      assert Holders(l, matches + {x}, j, p) == Holders(l, matches, j, p);
    }
  }

  function TrieWith(l: Layout, j: nat, t: Trie.Tree, x: (Mask, Flow)): Trie.Tree
    requires j < |l.fields|
  {
    if FieldPrefix(l, j, x) == [] then t else Trie.Inserted(t, FieldPrefix(l, j, x))
  }

  function TrieWithout(l: Layout, j: nat, t: Trie.Tree, x: (Mask, Flow)): Trie.Tree
    requires j < |l.fields|
  {
    if FieldPrefix(l, j, x) == [] then t else Trie.Removed(t, FieldPrefix(l, j, x))
  }

  lemma TrieWithOK(l: Layout, matches: set<(Mask, Flow)>, j: nat, t: Trie.Tree, x: (Mask, Flow))
    requires j < |l.fields| && TrieOK(l, matches, j, t) && x !in matches
    ensures TrieOK(l, matches + {x}, j, TrieWith(l, j, t, x))
  {
    var own, t' := FieldPrefix(l, j, x), TrieWith(l, j, t, x);
    assert |own| <= l.fields[j].bits;
    hide FieldPrefix, Holders, Trie.Count, Trie.Valid, Trie.Fits, Trie.Inserted;
    if own != [] {
      Trie.InsertedValid(t, own);
      Trie.InsertedFits(t, own, l.fields[j].bits);
    }
    forall p ensures Trie.Count(t', p) == |Holders(l, matches + {x}, j, p)| {
      HoldersAdded(l, matches, j, x, p);
      if own != [] {
        Trie.InsertedCount(t, own, p);
      }
    }
  }

  lemma TrieWithoutOK(l: Layout, matches: set<(Mask, Flow)>, j: nat, t: Trie.Tree, x: (Mask, Flow))
    requires j < |l.fields| && TrieOK(l, matches, j, t) && x in matches
    ensures TrieOK(l, matches - {x}, j, TrieWithout(l, j, t, x))
  {
    var own, t' := FieldPrefix(l, j, x), TrieWithout(l, j, t, x);
    hide FieldPrefix, Holders, Trie.Count, Trie.Valid, Trie.Fits, Trie.Removed;
    assert matches - {x} + {x} == matches;
    if own != [] {
      Trie.RemovedValid(t, own);
      Trie.RemovedFits(t, own, l.fields[j].bits);
      HoldersAdded(l, matches - {x}, j, x, own);
      assert Trie.Count(t, own) == |Holders(l, matches, j, own)|;
    }
    forall p ensures Trie.Count(t', p) == |Holders(l, matches - {x}, j, p)| {
      HoldersAdded(l, matches - {x}, j, x, p);
      if own != [] {
        Trie.RemovedCount(t, own, p);
      }
    }
  }

  /** The loop of classifier_replace that adds a match to the tries. */
  method InsertPrefixes(l: Layout, matches: set<(Mask, Flow)>, tries: seq<Trie.Tree>, m: Mask, key: Flow)
    returns (tries': seq<Trie.Tree>)
    requires TriesOK(l, matches, tries) && (m, key) !in matches
    ensures TriesOK(l, matches + {(m, key)}, tries')
  {
    hide TrieOK;
    tries' := tries;
    for j := 0 to |tries|
      invariant |tries'| == |tries|
      invariant forall k :: 0 <= k < j ==> TrieOK(l, matches + {(m, key)}, k, tries'[k])
      invariant forall k :: j <= k < |tries| ==> tries'[k] == tries[k]
    {
      var len := PrefixLen(m, l.fields[j]);
      TrieWithOK(l, matches, j, tries[j], (m, key));
      if len > 0 {
        var t := Trie.InsertPrefix(tries'[j], Value(key, l.fields[j])[..len]);
        tries' := tries'[j := t];
      }
    }
  }

  /** The loop of classifier_remove that removes a match from the tries. */
  method RemovePrefixes(l: Layout, matches: set<(Mask, Flow)>, tries: seq<Trie.Tree>, m: Mask, key: Flow)
    returns (tries': seq<Trie.Tree>)
    requires TriesOK(l, matches, tries) && (m, key) in matches
    ensures TriesOK(l, matches - {(m, key)}, tries')
  {
    hide TrieOK;
    tries' := tries;
    for j := 0 to |tries|
      invariant |tries'| == |tries|
      invariant forall k :: 0 <= k < j ==> TrieOK(l, matches - {(m, key)}, k, tries'[k])
      invariant forall k :: j <= k < |tries| ==> tries'[k] == tries[k]
    {
      var len := PrefixLen(m, l.fields[j]);
      TrieWithoutOK(l, matches, j, tries[j], (m, key));
      if len > 0 {
        var t := Trie.RemovePrefix(tries'[j], Value(key, l.fields[j])[..len]);
        tries' := tries'[j := t];
      }
    }
  }

  // The whole classifier

  /** Every rule is in the subtable of its mask. */
  ghost predicate Homed(tables: Tables) {
    forall m, r :: m in tables && r in All(tables[m]) ==> r.mask == m
  }

  lemma TablesAreHomed(l: Layout, tables: Tables)
    requires TablesOK(l, tables)
    ensures Homed(tables)
  {
  }

  function RulesOf(tables: Tables, m: Mask): set<Rule> {
    if m in tables then All(tables[m]) else {}
  }

  lemma RuleIsIn(tables: Tables, r: Rule)
    requires Homed(tables)
    ensures r in Rules(tables) <==> r in RulesOf(tables, r.mask)
  {
  }

  lemma RulesUpdated(tables: Tables, m: Mask, st: Subtable)
    requires Homed(tables) && forall r :: r in All(st) ==> r.mask == m
    ensures Homed(tables[m := st])
    ensures Rules(tables[m := st]) == Rules(tables) - RulesOf(tables, m) + All(st)
    ensures RulesOf(tables, m) <= Rules(tables)
  {
    hide All, Rules;
    var tables' := tables[m := st];
    assert Homed(tables');
    forall r {:trigger r in Rules(tables')} {:trigger r in Rules(tables)}
      ensures r in Rules(tables') <==> r in RulesOf(tables', r.mask)
      ensures r in Rules(tables) <==> r in RulesOf(tables, r.mask)
    {
      RuleIsIn(tables, r);
      RuleIsIn(tables', r);
    }
  }

  lemma RulesDropped(tables: Tables, m: Mask)
    requires Homed(tables) && m in tables
    ensures Rules(tables - {m}) == Rules(tables) - All(tables[m])
  {
    hide All, Rules;
    var tables' := tables - {m};
    assert Homed(tables');
    forall r {:trigger r in Rules(tables')} {:trigger r in Rules(tables)}
      ensures r in Rules(tables') <==> r in RulesOf(tables', r.mask)
      ensures r in Rules(tables) <==> r in RulesOf(tables, r.mask)
    {
      RuleIsIn(tables, r);
      RuleIsIn(tables', r);
    }
  }

  lemma MatchingsAdded(tables: Tables, m: Mask, st: Subtable, key: Flow)
    requires st.rules.Keys == (if m in tables then tables[m].rules.Keys else {}) + {key}
    ensures Matchings(tables[m := st]) == Matchings(tables) + {(m, key)}
  {
  }

  lemma MatchingsCut(tables: Tables, m: Mask, st: Subtable, key: Flow)
    requires m in tables && st.rules.Keys == tables[m].rules.Keys - {key}
    ensures Matchings(tables[m := st]) == Matchings(tables) - {(m, key)}
  {
  }

  lemma MatchingsSame(tables: Tables, m: Mask, st: Subtable)
    requires m in tables && st.rules.Keys == tables[m].rules.Keys
    ensures Matchings(tables[m := st]) == Matchings(tables)
  {
  }

  lemma MatchingsDropped(tables: Tables, m: Mask, st: Subtable)
    requires m in tables && st.rules == map[]
    ensures Matchings(tables - {m}) == Matchings(tables[m := st])
  {
  }

  /** The subtable for a mask, made if there is none. */
  method FindOrMake(l: Layout, tables: Tables, m: Mask) returns (st: Subtable)
    requires LayoutOK(l) && TablesOK(l, tables) && Fitting(l, m)
    ensures Consistent(l, st) && st.mask == m && All(st) == RulesOf(tables, m)
    ensures st.rules == map[] || MaxOK(All(st), st.maxPriority, st.maxCount)
    ensures st.rules.Keys == if m in tables then tables[m].rules.Keys else {}
    ensures m in tables ==> st == tables[m]
  {
    if m in tables {
      st := tables[m];
    } else {
      st := NewSubtable(l, m);
    }
  }

  predicate SameMatch(r: Rule, s: Rule) {
    r.mask == s.mask && r.key == s.key
  }

  /** The rule that a new one would take the place of. */
  function WouldDisplace(tables: Tables, rule: Rule): Option<Rule> {
    if rule.mask in tables then DisplacedIn(tables[rule.mask], rule) else None
  }

  /** The effect on all rules of adding one to the subtable of its mask. */
  lemma ReplaceEffect(tables: Tables, st: Subtable, st': Subtable, rule: Rule, displaced: Option<Rule>)
    requires Homed(tables) && ChainsOK(st) && st.mask == rule.mask && All(st) == RulesOf(tables, rule.mask)
    requires All(st') == All(st) + {rule} - AsSet(displaced)
    requires displaced.Some? <==> exists r :: r in All(st) && r.key == rule.key && Displaces(rule, r)
    requires displaced.Some? ==>
      displaced.value in All(st) && displaced.value.key == rule.key && Displaces(rule, displaced.value)
    ensures Rules(tables[rule.mask := st']) == Rules(tables) + {rule} - AsSet(displaced)
    ensures displaced.Some? <==> exists r :: r in Rules(tables) && SameMatch(r, rule) && Displaces(rule, r)
    ensures displaced.Some? ==>
      displaced.value in Rules(tables) && SameMatch(displaced.value, rule) && Displaces(rule, displaced.value)
  {
    forall r | r in All(st) ensures r.mask == rule.mask {
      AllByKey(st, r);
    }
    forall r {:trigger SameMatch(r, rule)} {:trigger r in Rules(tables)} | SameMatch(r, rule)
      ensures r in Rules(tables) <==> r in All(st) && r.key == rule.key
    {
      RuleIsIn(tables, r);
    }
    forall r {:trigger r in All(st)} | r in All(st) && r.key == rule.key ensures SameMatch(r, rule) {
    }
    hide All, Rules, ChainsOK, Homed;
    RulesUpdated(tables, rule.mask, st');
    AddInside(Rules(tables), All(st), rule, AsSet(displaced));
  }

  /** classifier_replace. */
  method ReplaceRule(l: Layout, tables: Tables, order: seq<Entry>, tries: seq<Trie.Tree>, rule: Rule)
    returns (tables': Tables, order': seq<Entry>, tries': seq<Trie.Tree>, displaced: Option<Rule>)
    requires LayoutOK(l) && TablesOK(l, tables) && OrderOK(order, tables) && TriesOK(l, Matchings(tables), tries)
    requires rule.key <= rule.mask && Fitting(l, rule.mask) && rule.priority >= INT_MIN
    requires Unused(Rules(tables), rule.id)
    ensures TablesOK(l, tables') && OrderOK(order', tables') && TriesOK(l, Matchings(tables'), tries')
    ensures Rules(tables') == Rules(tables) + {rule} - AsSet(displaced) && displaced == WouldDisplace(tables, rule)
    ensures displaced.Some? <==> exists r :: r in Rules(tables) && SameMatch(r, rule) && Displaces(rule, r)
    ensures displaced.Some? ==>
      displaced.value in Rules(tables) && SameMatch(displaced.value, rule) && Displaces(rule, displaced.value)
  {
    hide TablesOK, OrderOK, TriesOK, Consistent, Matchings, Rules, All, MaxOK, RulesOf;
    var m := rule.mask;
    TablesAreHomed(l, tables);
    var st := FindOrMake(l, tables, m);
    RulesAreSome(tables, m);
    var st';
    st', displaced := AddRule(l, st, rule);
    ChainsAreOK(l, st);
    ReplaceEffect(tables, st, st', rule, displaced);
    MatchingsAdded(tables, m, st', rule.key);
    TablesUpdated(l, tables, m, st');
    tables' := tables[m := st'];
    tries' := tries;
    if rule.key !in st.rules {
      NoMatching(tables, m, rule.key, st);
      tries' := InsertPrefixes(l, Matchings(tables), tries, m, rule.key);
    } else {
      SomeMatching(tables, m, rule.key, st);
    }
    if m in tables && st'.maxPriority == st.maxPriority {
      SameOrderOK(order, tables, m, st');
      order' := order;
    } else {
      ReorderedOK(order, tables, m, st');
      order' := Reordered(order, m, st'.maxPriority);
    }
  }

  lemma TablesUpdated(l: Layout, tables: Tables, m: Mask, st: Subtable)
    requires TablesOK(l, tables) && st.mask == m && Consistent(l, st)
    requires MaxOK(All(st), st.maxPriority, st.maxCount)
    ensures TablesOK(l, tables[m := st])
  {
    hide Consistent, MaxOK;
  }

  lemma ChainsAreOK(l: Layout, st: Subtable)
    requires Consistent(l, st)
    ensures ChainsOK(st)
  {
  }

  lemma RulesAreSome(tables: Tables, m: Mask)
    ensures RulesOf(tables, m) <= Rules(tables)
  {
  }

  lemma NoMatching(tables: Tables, m: Mask, key: Flow, st: Subtable)
    requires st.rules.Keys == (if m in tables then tables[m].rules.Keys else {}) && key !in st.rules
    ensures (m, key) !in Matchings(tables)
  {
  }

  lemma SomeMatching(tables: Tables, m: Mask, key: Flow, st: Subtable)
    requires st.rules.Keys == (if m in tables then tables[m].rules.Keys else {}) && key in st.rules
    ensures Matchings(tables) + {(m, key)} == Matchings(tables)
  {
  }

  /** The ports trie of a subtable without rules is empty, as destroy_subtable asserts. */
  lemma NoPortsLeft(l: Layout, st: Subtable)
    requires Consistent(l, st) && st.rules == map[]
    ensures st.ports == Trie.Null
  {
    forall p ensures WithPorts(l, st, p) == {} {
    }
    if st.ports.Node? {
      var p := Trie.SomethingStored(st.ports);
    }
  }

  /** The effect on all rules of removing one from the subtable of its mask. */
  lemma RemoveEffect(tables: Tables, st': Subtable, rule: Rule)
    requires Homed(tables) && rule in Rules(tables)
    requires rule.mask in tables && All(st') == All(tables[rule.mask]) - {rule}
    ensures Rules(tables[rule.mask := st']) == Rules(tables) - {rule}
    ensures st'.rules == map[] ==> Rules(tables - {rule.mask}) == Rules(tables) - {rule}
  {
    hide Rules;
    var m := rule.mask;
    RuleIsIn(tables, rule);
    RulesUpdated(tables, m, st');
    RulesDropped(tables, m);
    if st'.rules == map[] {
      NoRules(st');
      assert All(tables[m]) <= {rule};
    }
  }

  /** classifier_remove. */
  method DropRule(l: Layout, tables: Tables, order: seq<Entry>, tries: seq<Trie.Tree>, rule: Rule)
    returns (tables': Tables, order': seq<Entry>, tries': seq<Trie.Tree>)
    requires LayoutOK(l) && TablesOK(l, tables) && OrderOK(order, tables) && TriesOK(l, Matchings(tables), tries)
    requires rule in Rules(tables)
    ensures TablesOK(l, tables') && OrderOK(order', tables') && TriesOK(l, Matchings(tables'), tries')
    ensures Rules(tables') == Rules(tables) - {rule}
  {
    hide TablesOK, OrderOK, TriesOK, Consistent, Matchings, Rules, All, MaxOK;
    var m := rule.mask;
    TablesAreHomed(l, tables);
    RuleIsIn(tables, rule);
    var st := tables[m];
    TableFacts(l, tables, m);
    var st' := RemoveRule(l, st, rule);
    RemoveEffect(tables, st', rule);
    tries' := tries;
    if |st.rules[rule.key].chain| == 1 {
      SomeMatching(tables, m, rule.key, st);
      tries' := RemovePrefixes(l, Matchings(tables), tries, m, rule.key);
      MatchingsCut(tables, m, st', rule.key);
    } else {
      MatchingsSame(tables, m, st');
    }
    if st'.rules == map[] {
      NoPortsLeft(l, st');
      MatchingsDropped(tables, m, st');
      TablesDropped(l, tables, m);
      WithoutOK(order, tables, m);
      tables', order' := tables - {m}, Without(order, m);
    } else {
      TablesUpdated(l, tables, m, st');
      tables' := tables[m := st'];
      if st'.maxPriority == st.maxPriority {
        SameOrderOK(order, tables, m, st');
        order' := order;
      } else {
        ReorderedOK(order, tables, m, st');
        order' := Reordered(order, m, st'.maxPriority);
      }
    }
  }

  lemma TableFacts(l: Layout, tables: Tables, m: Mask)
    requires TablesOK(l, tables) && m in tables
    ensures tables[m].mask == m && Consistent(l, tables[m])
    ensures MaxOK(All(tables[m]), tables[m].maxPriority, tables[m].maxCount)
  {
  }

  lemma TablesDropped(l: Layout, tables: Tables, m: Mask)
    requires TablesOK(l, tables)
    ensures TablesOK(l, tables - {m})
  {
  }

  /** cls_rule_make_invisible_in_version and cls_rule_restore_visibility. */
  method ChangeRemoved(l: Layout, tables: Tables, order: seq<Entry>, tries: seq<Trie.Tree>, rule: Rule, removed: nat)
    returns (tables': Tables)
    requires LayoutOK(l) && TablesOK(l, tables) && OrderOK(order, tables) && TriesOK(l, Matchings(tables), tries)
    requires DistinctRules(Rules(tables)) && rule in Rules(tables)
    ensures TablesOK(l, tables') && OrderOK(order, tables') && TriesOK(l, Matchings(tables'), tries)
    ensures Rules(tables') == Rules(tables) - {rule} + {rule.(removed := removed)}
  {
    hide TablesOK, OrderOK, TriesOK, Consistent, Matchings, Rules, All, MaxOK;
    var m, rule' := rule.mask, rule.(removed := removed);
    TablesAreHomed(l, tables);
    RuleIsIn(tables, rule);
    RulesAreSome(tables, m);
    var st := tables[m];
    TableFacts(l, tables, m);
    var st' := SetRemoved(l, st, rule, removed);
    RulesUpdated(tables, m, st');
    SwapInside(Rules(tables), All(st), rule, rule');
    MatchingsSame(tables, m, st');
    TablesUpdated(l, tables, m, st');
    SameOrderOK(order, tables, m, st');
    tables' := tables[m := st'];
  }

  // Versions

  /** The same rule, except perhaps for the version it is removed in. */
  predicate SameRule(r: Rule, s: Rule) {
    s == r.(removed := s.removed)
  }

  /** Each rule that `a` shows to lookups in version `u`, `b` shows too. */
  ghost predicate Shows(a: set<Rule>, b: set<Rule>, u: nat) {
    forall r :: r in a && Visible(r, u) ==> exists s :: s in b && Visible(s, u) && SameRule(r, s)
  }

  ghost predicate SameVisible(a: set<Rule>, b: set<Rule>, u: nat) {
    Shows(a, b, u) && Shows(b, a, u)
  }

  lemma CandidateCarries(a: set<Rule>, b: set<Rule>, f: Flow, u: nat, no: set<nat>, r: Rule) returns (s: Rule)
    requires Shows(a, b, u) && Candidate(a, f, u, no, r)
    ensures Candidate(b, f, u, no, s) && SameRule(r, s)
  {
    s :| s in b && Visible(s, u) && SameRule(r, s);
  }

  /** No candidate but `r` has its priority. */
  ghost predicate UniqueBest(rules: set<Rule>, f: Flow, u: nat, no: set<nat>, r: Rule) {
    forall c :: Candidate(rules, f, u, no, c) && c.priority >= r.priority ==> c == r
  }

  /** The same outcome, up to a choice between rules of the same priority. */
  ghost predicate SameOutcome(rules: set<Rule>, f: Flow, u: nat, no: set<nat>, r: Option<Rule>, r': Option<Rule>) {
    && r.Some? == r'.Some? && Priority(r) == Priority(r')
    && (r.Some? && UniqueBest(rules, f, u, no, r.value) ==> SameRule(r'.value, r.value))
  }

  lemma VisibleDecides(a: set<Rule>, b: set<Rule>, f: Flow, u: nat, no: set<nat>, r: Option<Rule>, r': Option<Rule>)
    requires LinearScan(a, f, u, no, r) && LinearScan(b, f, u, no, r') && SameVisible(a, b, u)
    ensures SameOutcome(a, f, u, no, r, r')
  {
    hide Candidate, Shows;
    if r.Some? {
      var c :| Candidate(a, f, u, no, c) && c.priority > INT_MIN;
      var d := CandidateCarries(a, b, f, u, no, c);
      var s' := CandidateCarries(a, b, f, u, no, r.value);
    }
    if r'.Some? {
      var c :| Candidate(b, f, u, no, c) && c.priority > INT_MIN;
      var d := CandidateCarries(b, a, f, u, no, c);
      var s := CandidateCarries(b, a, f, u, no, r'.value);
    }
  }

  /** A lookup depends only on the rules visible in its version: with the same ones, it
      finds a rule of the same priority, and the same rule if that is the only best one. */
  lemma VersionIsolation(tables: Tables, order: seq<Entry>, tables': Tables, order': seq<Entry>,
                         f: Flow, u: nat, no: set<nat>)
    requires Ranked(tables) && Sorted(order) && Listed(order, tables) && Covered(order, tables)
    requires Ranked(tables') && Sorted(order') && Listed(order', tables') && Covered(order', tables')
    requires SameVisible(Rules(tables), Rules(tables'), u)
    ensures SameOutcome(Rules(tables), f, u, no, Found(tables, order, f, u, no), Found(tables', order', f, u, no))
  {
    hide Ranked, Listed, Sorted, Found, Rules, LinearScan, SameVisible, UniqueBest;
    LookupIsLinearScan(tables, order, f, u, no);
    LookupIsLinearScan(tables', order', f, u, no);
    VisibleDecides(Rules(tables), Rules(tables'), f, u, no,
                   Found(tables, order, f, u, no), Found(tables', order', f, u, no));
  }

  lemma SwapIsIsolated(rules: set<Rule>, rule: Rule, rule': Rule, u: nat)
    requires DistinctRules(rules) && rule in rules && SameRule(rule, rule')
    ensures SameVisible(rules, rules - {rule} + {rule'}, u) <==> (Visible(rule, u) <==> Visible(rule', u))
  {
  }

  /** The rule as it is put into the classifier. */
  function AsAdded(rule: Rule, version: nat): Rule {
    rule.(added := version, removed := NOT_REMOVED)
  }

  lemma DistinctAfterAdding(rules: set<Rule>, rule: Rule, gone: set<Rule>)
    requires DistinctRules(rules) && Unused(rules, rule.id) && gone <= rules
    ensures DistinctRules(rules + {rule} - gone)
    ensures |rules + {rule} - gone| == |rules| + 1 - |gone|
  {
  }

  lemma DistinctAfterRemoving(rules: set<Rule>, rule: Rule)
    requires DistinctRules(rules) && rule in rules
    ensures DistinctRules(rules - {rule}) && |rules - {rule}| == |rules| - 1
  {
  }

  lemma DistinctAfterSwap(rules: set<Rule>, rule: Rule, rule': Rule)
    requires DistinctRules(rules) && rule in rules && SameRule(rule, rule')
    ensures DistinctRules(rules - {rule} + {rule'}) && |rules - {rule} + {rule'}| == |rules|
  {
  }

  /** A rule is in the classifier if it is in the list of its match. */
  method Contains(l: Layout, tables: Tables, rule: Rule) returns (found: bool)
    requires TablesOK(l, tables)
    ensures found <==> rule in Rules(tables)
  {
    TablesAreHomed(l, tables);
    RuleIsIn(tables, rule);
    found := false;
    if rule.mask in tables {
      TableFacts(l, tables, rule.mask);
      AllByKey(tables[rule.mask], rule);
      found := rule.key in tables[rule.mask].rules && rule in tables[rule.mask].rules[rule.key].chain;
    }
  }

  /** The outcomes of lookups in version `u` stay as they were. */
  ghost predicate LookupsKept(tables: Tables, order: seq<Entry>, tables': Tables, order': seq<Entry>, u: nat) {
    && Covered(order, tables) && Covered(order', tables')
    && forall f, no ::
         SameOutcome(Rules(tables), f, u, no, Found(tables, order, f, u, no), Found(tables', order', f, u, no))
  }

  lemma SameVisibleKeeps(l: Layout, tables: Tables, order: seq<Entry>, tries: seq<Trie.Tree>,
                         tables': Tables, order': seq<Entry>, tries': seq<Trie.Tree>, u: nat)
    requires ClassifierOK(l, tables, order, tries) && ClassifierOK(l, tables', order', tries')
    requires SameVisible(Rules(tables), Rules(tables'), u)
    ensures LookupsKept(tables, order, tables', order', u)
  {
    LookupsReady(l, tables, order, tries);
    LookupsReady(l, tables', order', tries');
    hide ClassifierOK, SameVisible, Ranked, Listed, Sorted, Covered, SameOutcome, Rules, Found;
    forall f, no
      ensures SameOutcome(Rules(tables), f, u, no, Found(tables, order, f, u, no), Found(tables', order', f, u, no))
    {
      VersionIsolation(tables, order, tables', order', f, u, no);
    }
  }

  lemma LookupsReady(l: Layout, tables: Tables, order: seq<Entry>, tries: seq<Trie.Tree>)
    requires ClassifierOK(l, tables, order, tries)
    ensures Ranked(tables) && Sorted(order) && Listed(order, tables) && Covered(order, tables)
  {
  }

  // When a change to the rules is seen

  /** Rule `c` does for flow `f` in version `u` what `d` does, whatever programs are ruled out. */
  predicate Shadows(rules: set<Rule>, d: Rule, u: nat, f: Flow, c: Rule) {
    && c in rules && c != d && Visible(c, u) && Matches(c, f)
    && c.priority >= d.priority && (c.prog == 0 || c.prog == d.prog)
  }

  /** Every flow that `d` matches has such a rule. */
  ghost predicate Shadowed(rules: set<Rule>, d: Rule, u: nat) {
    forall f :: Matches(d, f) ==> exists c :: Shadows(rules, d, u, f, c)
  }

  /** Lookups in version `u` have no need of a rule. */
  ghost predicate Dispensable(rules: set<Rule>, d: Rule, u: nat) {
    !Visible(d, u) || d.priority == INT_MIN || Shadowed(rules, d, u)
  }

  lemma ShadowIsCandidate(rules: set<Rule>, d: Rule, u: nat, f: Flow, no: set<nat>) returns (c: Rule)
    requires Candidate(rules, f, u, no, d) && Shadowed(rules, d, u)
    ensures Candidate(rules - {d}, f, u, no, c) && c.priority >= d.priority
  {
    assert Matches(d, f);
    c :| Shadows(rules, d, u, f, c);
  }

  /** The outcome of a scan without a rule that is not needed. */
  lemma ScanWithout(rules: set<Rule>, d: Rule, f: Flow, u: nat, no: set<nat>, r: Option<Rule>) returns (r': Option<Rule>)
    requires LinearScan(rules, f, u, no, r) && (d.priority == INT_MIN || Shadowed(rules, d, u))
    ensures LinearScan(rules - {d}, f, u, no, r') && r'.Some? == r.Some? && Priority(r') == Priority(r)
    ensures r == Some(d) ==> !UniqueBest(rules, f, u, no, d)
    ensures r != Some(d) ==> r' == r
  {
    r' := r;
    if r == Some(d) {
      var c := ShadowIsCandidate(rules, d, u, f, no);
      r' := Some(c);
    }
  }

  lemma UniqueWithout(rules: set<Rule>, d: Rule, f: Flow, u: nat, no: set<nat>, r: Rule)
    requires UniqueBest(rules, f, u, no, r)
    ensures UniqueBest(rules - {d}, f, u, no, r)
  {
  }

  lemma NotNeeded(a: set<Rule>, b: set<Rule>, d: Rule, f: Flow, u: nat, no: set<nat>, r: Option<Rule>, r': Option<Rule>)
    requires LinearScan(a, f, u, no, r) && LinearScan(b, f, u, no, r') && SameVisible(a - {d}, b, u)
    requires d.priority == INT_MIN || Shadowed(a, d, u)
    ensures SameOutcome(a, f, u, no, r, r')
  {
    hide LinearScan, Shadowed, SameVisible, UniqueBest, SameRule;
    var mid := ScanWithout(a, d, f, u, no, r);
    VisibleDecides(a - {d}, b, f, u, no, mid, r');
    if r.Some? && UniqueBest(a, f, u, no, r.value) {
      UniqueWithout(a, d, f, u, no, r.value);
    }
  }

  function Programs(rules: set<Rule>): set<nat> {
    set r | r in rules :: r.prog
  }

  /** A flow, and programs to rule out, for which a rule is the only one of its priority or more. */
  lemma Exposed(rules: set<Rule>, d: Rule, u: nat) returns (f: Flow, no: set<nat>)
    requires !Shadowed(rules, d, u)
    ensures Matches(d, f) && Open(d, no)
    ensures forall c :: Candidate(rules, f, u, no, c) && c != d ==> c.priority < d.priority
  {
    f :| Matches(d, f) && !exists c :: Shadows(rules, d, u, f, c);
    no := Programs(rules) - {d.prog};
    forall c | Candidate(rules, f, u, no, c) && c != d ensures c.priority < d.priority {
      assert c.prog in Programs(rules);
      assert !Shadows(rules, d, u, f, c);
    }
  }

  lemma Needed(a: set<Rule>, b: set<Rule>, d: Rule, f: Flow, u: nat, no: set<nat>, r: Option<Rule>, r': Option<Rule>)
    requires LinearScan(a, f, u, no, r) && LinearScan(b, f, u, no, r') && SameVisible(a - {d}, b, u)
    requires Candidate(a, f, u, no, d) && d.priority > INT_MIN
    requires forall c :: Candidate(a, f, u, no, c) && c != d ==> c.priority < d.priority
    ensures r == Some(d) && Priority(r') < Priority(r)
  {
    hide Shows;
    assert r == Some(d);
    if r'.Some? {
      var s := CandidateCarries(b, a - {d}, f, u, no, r'.value);
      assert Candidate(a, f, u, no, s) && s != d;
    }
  }

  /** What can be looked up, and with which outcome. */
  ghost predicate Ready(tables: Tables, order: seq<Entry>) {
    Ranked(tables) && Sorted(order) && Listed(order, tables) && Covered(order, tables)
  }

  /** The same outcome, up to a choice between rules of the same priority before or after. */
  ghost predicate SameAnswer(a: set<Rule>, b: set<Rule>, f: Flow, u: nat, no: set<nat>, r: Option<Rule>, r': Option<Rule>) {
    && r.Some? == r'.Some? && Priority(r) == Priority(r')
    && (r.Some? && UniqueBest(a, f, u, no, r.value) && UniqueBest(b, f, u, no, r'.value) ==> SameRule(r.value, r'.value))
  }

  ghost predicate LookupsAgree(tables: Tables, order: seq<Entry>, tables': Tables, order': seq<Entry>, u: nat) {
    && Covered(order, tables) && Covered(order', tables')
    && forall f, no ::
         SameAnswer(Rules(tables), Rules(tables'), f, u, no, Found(tables, order, f, u, no), Found(tables', order', f, u, no))
  }

  lemma KeptAgree(tables: Tables, order: seq<Entry>, tables': Tables, order': seq<Entry>, u: nat)
    requires LookupsKept(tables, order, tables', order', u)
    ensures LookupsAgree(tables, order, tables', order', u) && LookupsAgree(tables', order', tables, order, u)
  {
    hide Found, Rules, Covered, UniqueBest;
  }

  lemma AgreeBack(tables: Tables, order: seq<Entry>, tables': Tables, order': seq<Entry>, u: nat)
    requires LookupsAgree(tables, order, tables', order', u)
    ensures LookupsAgree(tables', order', tables, order, u)
  {
    hide Found, Rules, Covered, UniqueBest;
  }

  /** If a rule goes, in version `u`, lookups there keep their outcomes exactly if they have no
      need of it. */
  lemma LosingExact(tables: Tables, order: seq<Entry>, tables': Tables, order': seq<Entry>, d: Rule, u: nat)
    requires Ready(tables, order) && Ready(tables', order')
    requires d in Rules(tables) && Visible(d, u) && SameVisible(Rules(tables) - {d}, Rules(tables'), u)
    ensures LookupsKept(tables, order, tables', order', u) <==> Dispensable(Rules(tables), d, u)
    ensures LookupsAgree(tables, order, tables', order', u) <==> Dispensable(Rules(tables), d, u)
  {
    hide Ranked, Listed, Sorted, Found, Rules, LinearScan, SameVisible, UniqueBest, Shadowed, SameOutcome;
    if Dispensable(Rules(tables), d, u) {
      forall f, no
        ensures SameOutcome(Rules(tables), f, u, no, Found(tables, order, f, u, no), Found(tables', order', f, u, no))
      {
        LookupIsLinearScan(tables, order, f, u, no);
        LookupIsLinearScan(tables', order', f, u, no);
        NotNeeded(Rules(tables), Rules(tables'), d, f, u, no,
                  Found(tables, order, f, u, no), Found(tables', order', f, u, no));
      }
      KeptAgree(tables, order, tables', order', u);
    } else {
      PriorityInRange(tables, order, d);
      LosingShows(tables, order, tables', order', d, u);
    }
  }

  lemma LosingShows(tables: Tables, order: seq<Entry>, tables': Tables, order': seq<Entry>, d: Rule, u: nat)
    requires Ready(tables, order) && Ready(tables', order')
    requires d in Rules(tables) && Visible(d, u) && SameVisible(Rules(tables) - {d}, Rules(tables'), u)
    requires !Dispensable(Rules(tables), d, u) && d.priority >= INT_MIN
    ensures !LookupsKept(tables, order, tables', order', u)
    ensures !LookupsAgree(tables, order, tables', order', u)
  {
    hide Ranked, Listed, Sorted, Found, Rules, LinearScan, SameVisible, UniqueBest, Shadowed, Matches;
    var f, no := Exposed(Rules(tables), d, u);
    assert Candidate(Rules(tables), f, u, no, d);
    hide Candidate;
    LookupIsLinearScan(tables, order, f, u, no);
    LookupIsLinearScan(tables', order', f, u, no);
    var r, r' := Found(tables, order, f, u, no), Found(tables', order', f, u, no);
    Needed(Rules(tables), Rules(tables'), d, f, u, no, r, r');
    assert !SameOutcome(Rules(tables), f, u, no, r, r');
    assert !SameAnswer(Rules(tables), Rules(tables'), f, u, no, r, r');
  }

  lemma PriorityInRange(tables: Tables, order: seq<Entry>, d: Rule)
    requires Ready(tables, order) && d in Rules(tables)
    ensures d.priority >= INT_MIN
  {
    var m :| m in tables && d in All(tables[m]);
  }

  /** What version `u` shows once rule `rule` is there from a later one on in place of `gone`. */
  lemma ShownAfterAdding(rules: set<Rule>, rule: Rule, gone: Option<Rule>, u: nat)
    requires rule.added > u && (gone.Some? ==> gone.value in rules)
    ensures SameVisible(rules - AsSet(gone), rules + {rule} - AsSet(gone), u)
    ensures gone.Some? && !Visible(gone.value, u) ==> SameVisible(rules, rules + {rule} - AsSet(gone), u)
  {
  }

  /** A rule added for a later version leaves the outcomes of lookups in version `u` as they
      are, exactly if they have no need of the rule whose place it takes. */
  lemma AddingExact(l: Layout, tables: Tables, order: seq<Entry>, tries: seq<Trie.Tree>,
                    tables': Tables, order': seq<Entry>, tries': seq<Trie.Tree>, rule: Rule, u: nat)
    requires ClassifierOK(l, tables, order, tries) && ClassifierOK(l, tables', order', tries')
    requires var gone := WouldDisplace(tables, rule);
      && (gone.Some? ==> gone.value in Rules(tables)) && Rules(tables') == Rules(tables) + {rule} - AsSet(gone)
    requires rule.added > u
    ensures var gone := WouldDisplace(tables, rule);
      LookupsKept(tables, order, tables', order', u) <==> gone.None? || Dispensable(Rules(tables), gone.value, u)
  {
    hide ClassifierOK, Rules, WouldDisplace, SameVisible, LookupsKept, Ranked, Listed, Sorted, Covered, Shadowed;
    var gone := WouldDisplace(tables, rule);
    LookupsReady(l, tables, order, tries);
    LookupsReady(l, tables', order', tries');
    ShownAfterAdding(Rules(tables), rule, gone, u);
    assert gone.None? ==> Rules(tables) - AsSet(gone) == Rules(tables);
    if gone.Some? && Visible(gone.value, u) {
      LosingExact(tables, order, tables', order', gone.value, u);
    } else {
      SameVisibleKeeps(l, tables, order, tries, tables', order', tries', u);
    }
  }

  lemma ShownWithout(rules: set<Rule>, rule: Rule, u: nat)
    ensures SameVisible(rules - {rule}, rules - {rule}, u)
    ensures !Visible(rule, u) ==> SameVisible(rules, rules - {rule}, u)
  {
  }

  /** Without a rule, lookups in version `u` have the outcomes they had exactly if they had no
      need of it. */
  lemma RemovingExact(l: Layout, tables: Tables, order: seq<Entry>, tries: seq<Trie.Tree>,
                      tables': Tables, order': seq<Entry>, tries': seq<Trie.Tree>, rule: Rule, u: nat)
    requires ClassifierOK(l, tables, order, tries) && ClassifierOK(l, tables', order', tries')
    requires rule in Rules(tables) && Rules(tables') == Rules(tables) - {rule}
    ensures LookupsKept(tables, order, tables', order', u) <==> Dispensable(Rules(tables), rule, u)
  {
    hide ClassifierOK, Rules, SameVisible, LookupsKept, Ranked, Listed, Sorted, Covered, Shadowed;
    LookupsReady(l, tables, order, tries);
    LookupsReady(l, tables', order', tries');
    ShownWithout(Rules(tables), rule, u);
    if Visible(rule, u) {
      LosingExact(tables, order, tables', order', rule, u);
    } else {
      SameVisibleKeeps(l, tables, order, tries, tables', order', tries', u);
    }
  }

  lemma ShownAfterSwap(rules: set<Rule>, rule: Rule, rule': Rule, u: nat)
    requires DistinctRules(rules) && rule in rules && SameRule(rule, rule')
    ensures var rules' := rules - {rule} + {rule'};
      && (!Visible(rule', u) ==> SameVisible(rules - {rule}, rules', u))
      && (!Visible(rule, u) && rule' != rule ==> SameVisible(rules' - {rule'}, rules, u))
      && (rule' != rule ==> (Shadowed(rules', rule', u) <==> Shadowed(rules, rule, u)))
  {
    var rules' := rules - {rule} + {rule'};
    if rule' != rule {
      assert rules' - {rule'} == rules - {rule};
      forall f, c ensures Shadows(rules', rule', u, f, c) <==> Shadows(rules, rule, u, f, c) {
      }
      forall f ensures Matches(rule', f) <==> Matches(rule, f) {
      }
    }
  }

  /** A new removal version leaves the outcomes of lookups in version `u` as they are, exactly
      if the rule is visible there both before and after or neither, or they have no need of it. */
  lemma RemovalExact(l: Layout, tables: Tables, order: seq<Entry>, tries: seq<Trie.Tree>,
                     tables': Tables, order': seq<Entry>, tries': seq<Trie.Tree>, rule: Rule, rule': Rule, u: nat)
    requires ClassifierOK(l, tables, order, tries) && ClassifierOK(l, tables', order', tries')
    requires rule in Rules(tables) && SameRule(rule, rule') && Rules(tables') == Rules(tables) - {rule} + {rule'}
    ensures LookupsAgree(tables, order, tables', order', u) <==>
      (Visible(rule, u) <==> Visible(rule', u)) || rule.priority == INT_MIN || Shadowed(Rules(tables), rule, u)
  {
    assert DistinctRules(Rules(tables));
    LookupsReady(l, tables, order, tries);
    LookupsReady(l, tables', order', tries');
    ShownAfterSwap(Rules(tables), rule, rule', u);
    SwapIsIsolated(Rules(tables), rule, rule', u);
    hide ClassifierOK, Rules, SameVisible, LookupsKept, LookupsAgree, Ranked, Listed, Sorted, Covered, Shadowed;
    if Visible(rule, u) <==> Visible(rule', u) {
      SameVisibleKeeps(l, tables, order, tries, tables', order', tries', u);
      KeptAgree(tables, order, tables', order', u);
    } else if Visible(rule, u) {
      LosingExact(tables, order, tables', order', rule, u);
    } else {
      LosingExact(tables', order', tables, order, rule', u);
      AgreeBothWays(tables, order, tables', order', u);
    }
  }

  lemma AgreeBothWays(tables: Tables, order: seq<Entry>, tables': Tables, order': seq<Entry>, u: nat)
    ensures LookupsAgree(tables, order, tables', order', u) <==> LookupsAgree(tables', order', tables, order, u)
  {
    if LookupsAgree(tables, order, tables', order', u) {
      AgreeBack(tables, order, tables', order', u);
    }
    if LookupsAgree(tables', order', tables, order, u) {
      AgreeBack(tables', order', tables, order, u);
    }
  }

  /** A classifier with one rule, whose place another one takes for a later version: the flows
      of the rule find nothing any more, also in the version it was added for. */
  lemma OnlyRuleIsMissed(tables: Tables, order: seq<Entry>, tables': Tables, order': seq<Entry>,
                         d: Rule, rule: Rule, f: Flow, u: nat)
    requires Ready(tables, order) && Ready(tables', order') && Rules(tables) == {d} && Rules(tables') == {rule}
    requires Visible(d, u) && rule.added > u && Matches(d, f) && d.priority > INT_MIN
    ensures Found(tables, order, f, u, {}) == Some(d) && Found(tables', order', f, u, {}) == None
  {
    LookupIsLinearScan(tables, order, f, u, {});
    LookupIsLinearScan(tables', order', f, u, {});
    hide Found, Ranked, Listed, Sorted;
    assert Candidate(Rules(tables), f, u, {}, d);
  }

  class FlowClassifier {
    const l: Layout
    var tables: Tables
    var order: seq<Entry>
    var tries: seq<Trie.Tree>
    var nRules: nat

    ghost predicate Valid()
      reads this
    {
      ClassifierOK(l, tables, order, tries) && nRules == |Rules(tables)|
    }

    constructor (l: Layout)
      requires LayoutOK(l)
      ensures Valid() && this.l == l && Rules(tables) == {}
    {
      this.l, tables, order, nRules := l, map[], [], 0;
      tries := seq(|l.fields|, j => Trie.Null);
      new;
      assert Matchings(tables) == {};
      forall j | 0 <= j < |tries| ensures TrieOK(l, {}, j, tries[j]) {
        forall p ensures Holders(l, {}, j, p) == {} {
        }
      }
      assert Rules(tables) == {};
    }

    /** classifier_replace. */
    method Replace(rule: Rule, version: nat) returns (displaced: Option<Rule>)
      requires Valid() && rule.key <= rule.mask && Fitting(l, rule.mask) && rule.priority >= INT_MIN
      requires Unused(Rules(tables), rule.id)
      modifies this
      ensures Valid()
      ensures Rules(tables) == old(Rules(tables)) + {AsAdded(rule, version)} - AsSet(displaced)
      ensures displaced.Some? <==>
        exists r :: r in old(Rules(tables)) && SameMatch(r, rule) && Displaces(AsAdded(rule, version), r)
      ensures displaced.Some? ==>
        displaced.value in old(Rules(tables)) && SameMatch(displaced.value, rule) &&
        displaced.value.priority == rule.priority && !EventuallyInvisible(displaced.value)
      ensures displaced == WouldDisplace(old(tables), AsAdded(rule, version))
      ensures forall u: nat :: u < version ==>
        (LookupsKept(old(tables), old(order), tables, order, u) <==>
         displaced.None? || Dispensable(old(Rules(tables)), displaced.value, u))
    {
      var added := AsAdded(rule, version);
      hide TablesOK, OrderOK, TriesOK, Rules, Matchings;
      DistinctAfterAdding(Rules(tables), added, {});
      ghost var before := Rules(tables);
      tables, order, tries, displaced := ReplaceRule(l, tables, order, tries, added);
      DistinctAfterAdding(before, added, AsSet(displaced));
      if displaced.None? {
        nRules := nRules + 1;
      }
      forall u: nat | u < version
        ensures LookupsKept(old(tables), old(order), tables, order, u) <==>
          displaced.None? || Dispensable(before, displaced.value, u)
      {
        AddingExact(l, old(tables), old(order), old(tries), tables, order, tries, added, u);
      }
    }

    /** classifier_remove. */
    method Remove(rule: Rule) returns (removed: bool)
      requires Valid()
      modifies this
      ensures Valid()
      ensures removed <==> rule in old(Rules(tables))
      ensures Rules(tables) == old(Rules(tables)) - {rule}
      ensures removed ==> forall u: nat ::
        LookupsKept(old(tables), old(order), tables, order, u) <==> Dispensable(old(Rules(tables)), rule, u)
    {
      hide TablesOK, OrderOK, TriesOK, Rules, Matchings;
      ghost var before := Rules(tables);
      removed := Contains(l, tables, rule);
      if removed {
        DistinctAfterRemoving(Rules(tables), rule);
        tables, order, tries := DropRule(l, tables, order, tries, rule);
        nRules := nRules - 1;
        forall u: nat
          ensures LookupsKept(old(tables), old(order), tables, order, u) <==> Dispensable(before, rule, u)
        {
          RemovingExact(l, old(tables), old(order), old(tries), tables, order, tries, rule, u);
        }
      }
    }

    /** cls_rule_make_invisible_in_version, and with NOT_REMOVED cls_rule_restore_visibility. */
    method SetRemovedVersion(rule: Rule, version: nat)
      requires Valid() && rule in Rules(tables) && version >= rule.added
      modifies this
      ensures Valid()
      ensures Rules(tables) == old(Rules(tables)) - {rule} + {rule.(removed := version)}
      ensures forall u: nat :: u < version && u < rule.removed ==> LookupsKept(old(tables), old(order), tables, order, u)
      ensures forall u: nat :: LookupsAgree(old(tables), old(order), tables, order, u) <==>
        || (Visible(rule, u) <==> rule.added <= u < version)
        || rule.priority == INT_MIN || Shadowed(old(Rules(tables)), rule, u)
    {
      hide TablesOK, OrderOK, TriesOK, Rules, Matchings;
      ghost var before := Rules(tables);
      DistinctAfterSwap(Rules(tables), rule, rule.(removed := version));
      tables := ChangeRemoved(l, tables, order, tries, rule, version);
      forall u: nat | u < version && u < rule.removed ensures LookupsKept(old(tables), old(order), tables, order, u) {
        SwapIsIsolated(before, rule, rule.(removed := version), u);
        SameVisibleKeeps(l, old(tables), old(order), old(tries), tables, order, tries, u);
      }
      forall u: nat
        ensures LookupsAgree(old(tables), old(order), tables, order, u) <==>
          || (Visible(rule, u) <==> rule.added <= u < version)
          || rule.priority == INT_MIN || Shadowed(before, rule, u)
      {
        RemovalExact(l, old(tables), old(order), old(tries), tables, order, tries, rule, rule.(removed := version), u);
      }
    }

    /** classifier_lookup__: the outcome of a linear scan, with a mask that settles it. */
    method Lookup(version: nat, no: set<nat>, f: Flow, wc: Mask)
      returns (r: Option<Rule>, passed: seq<nat>, wc': Mask)
      requires Valid()
      ensures Covered(order, tables) && r == Found(tables, order, f, version, no)
      ensures passed == Recorded(tables, order, f, version, no)
      ensures LinearScan(Rules(tables), f, version, no, r)
      ensures wc <= wc'
      ensures AllSafe(l, tables) ==> forall g: Flow :: f * wc' == g * wc' ==>
        Found(tables, order, g, version, no) == r && Recorded(tables, order, g, version, no) == passed
    {
      LookupsReady(l, tables, order, tries);
      AllSearchable(l, tables, order, tries);
      hide ClassifierOK, Ranked, Listed, Sorted, Covered, LinearScan, Found, Recorded, AllSafe, Searchable;
      hide DecidedUpTo, Rules;
      LookupIsLinearScan(tables, order, f, version, no);
      r, passed, wc' := LookupIn(l, tables, order, tries, version, no, f, wc);
      if AllSafe(l, tables) {
        forall g: Flow | f * wc' == g * wc'
          ensures Found(tables, order, g, version, no) == r && Recorded(tables, order, g, version, no) == passed
        {
          DecidedLookup(tables, order, f, g, wc', version, no);
        }
      }
    }
  }

  /** That happens to any rule: added for version v and found there, it is not found there any
      more once another of the same match and priority is added for the next version. */
  method OnlyRuleIsLost(l: Layout, rule: Rule, v: nat) returns (before: Option<Rule>, after: Option<Rule>)
    requires LayoutOK(l) && rule.key <= rule.mask && Fitting(l, rule.mask) && rule.priority > INT_MIN && v < NOT_REMOVED
    ensures before == Some(AsAdded(rule, v)) && after == None
  {
    hide LinearScan, ClassifierOK, Rules, Found, Recorded, LookupsKept, WouldDisplace, AllSafe;
    var c := new FlowClassifier(l);
    var d, d' := AsAdded(rule, v), AsAdded(rule.(id := rule.id + 1), v + 1);
    var none := c.Replace(rule, v);
    assert Rules(c.tables) == {d};
    ghost var tables, order := c.tables, c.order;
    LookupsReady(l, c.tables, c.order, c.tries);
    var passed, wc;
    before, passed, wc := c.Lookup(v, {}, rule.key, {});
    assert SameMatch(d, rule) && Displaces(d', d);
    var gone := c.Replace(rule.(id := rule.id + 1), v + 1);
    assert gone == Some(d);
    assert Rules(c.tables) == {d'};
    LookupsReady(l, c.tables, c.order, c.tries);
    after, passed, wc := c.Lookup(v, {}, rule.key, {});
    OnlyRuleIsMissed(tables, order, c.tables, c.order, d, d', rule.key, v);
  }

  lemma AllSearchable(l: Layout, tables: Tables, order: seq<Entry>, tries: seq<Trie.Tree>)
    requires ClassifierOK(l, tables, order, tries)
    ensures LayoutOK(l) && |tries| == |l.fields|
    ensures forall m :: m in tables ==> tables[m].mask == m && Searchable(l, tables[m], tries)
  {
    forall m | m in tables ensures tables[m].mask == m && Searchable(l, tables[m], tries) {
      TablesAreSearchable(l, tables, tries, m);
      TableFacts(l, tables, m);
    }
  }
}
