/** One subtable of the classifier, and the search of it that also reports which bits of
    the flow it looked at (lib/classifier.c, lib/classifier-private.h). */
module Subtables {
  import opened Options
  import opened Flows
  import Trie

  const NOT_REMOVED: nat := 0xFFFF_FFFF_FFFF_FFFF
  const INT_MIN: int := -0x8000_0000

  /** A rule, with the versions it was added and is to be removed in.  `prog` is the filter
      program it depends on, or 0. */
  datatype Rule = Rule(id: nat, priority: int, mask: Mask, key: Flow, prog: nat, added: nat, removed: nat)

  predicate Matches(r: Rule, f: Flow) {
    f * r.mask == r.key
  }

  predicate Visible(r: Rule, version: nat) {
    r.added <= version < r.removed
  }

  predicate EventuallyInvisible(r: Rule) {
    r.removed < NOT_REMOVED
  }

  /** Not ruled out by the programs already known not to match the packet. */
  predicate Open(r: Rule, no: set<nat>) {
    r.prog == 0 || r.prog !in no
  }

  predicate Usable(r: Rule, version: nat, no: set<nat>) {
    Visible(r, version) && Open(r, no)
  }

  /** Rules with the same match, by decreasing priority, and the hash of that match. */
  datatype Head = Head(hash: nat, chain: seq<Rule>)

  datatype Subtable = Subtable(mask: Mask, stages: seq<seq<nat>>, plens: seq<nat>, portsLen: nat,
                               indices: seq<multiset<nat>>, ports: Trie.Tree,
                               rules: map<Flow, Head>, maxPriority: int, maxCount: nat)

  // What is searched for

  function FirstUsable(chain: seq<Rule>, i: nat, version: nat, no: set<nat>): Option<Rule>
    requires i <= |chain|
    decreases |chain| - i
  {
    if i == |chain| then None
    else if Usable(chain[i], version, no) then Some(chain[i])
    else FirstUsable(chain, i + 1, version, no)
  }

  /** The programs of the visible rules passed over on the way to the first usable one. */
  function PassedIn(chain: seq<Rule>, i: nat, version: nat, no: set<nat>): seq<nat>
    requires i <= |chain|
    decreases |chain| - i
  {
    if i == |chain| || Usable(chain[i], version, no) then []
    else (if Visible(chain[i], version) then [chain[i].prog] else []) + PassedIn(chain, i + 1, version, no)
  }

  function Best(st: Subtable, f: Flow, version: nat, no: set<nat>): Option<Rule> {
    if f * st.mask in st.rules then FirstUsable(st.rules[f * st.mask].chain, 0, version, no) else None
  }

  function Passed(st: Subtable, f: Flow, version: nat, no: set<nat>): seq<nat> {
    if f * st.mask in st.rules then PassedIn(st.rules[f * st.mask].chain, 0, version, no) else []
  }

  // What a subtable keeps true, as far as a search depends on it

  ghost predicate Shape(l: Layout, st: Subtable) {
    && LayoutOK(l) && Fitting(l, st.mask)
    && st.stages == Stages(l, st.mask)
    && |st.indices| == |st.stages| - 1
    && |st.plens| == |l.fields|
    && (forall j :: 0 <= j < |l.fields| ==> st.plens[j] == PrefixLen(st.mask, l.fields[j]))
    && st.portsLen == PortsLen(l, st.mask)
  }

  ghost predicate HashesOK(l: Layout, st: Subtable) {
    forall k :: k in st.rules ==> k <= st.mask && st.rules[k].hash == FullHash(l, k, st.mask)
  }

  /** Every match is counted in each of the indices. */
  ghost predicate Indexed(l: Layout, st: Subtable)
    requires |st.indices| < |st.stages|
  {
    forall k, i :: k in st.rules && 0 <= i < |st.indices| ==>
      StageHash(l, k, st.mask, st.stages, i) in st.indices[i]
  }

  /** The ports of every match are in the ports trie. */
  ghost predicate PortsStored(l: Layout, st: Subtable) {
    && Trie.Valid(st.ports) && Trie.Fits(st.ports, PORTS_BITS)
    && st.portsLen <= PORTS_BITS
    && (st.portsLen > 0 ==> forall k :: k in st.rules ==>
          Trie.Count(st.ports, Value(k, Ports(l))[..st.portsLen]) > 0)
  }

  /** The prefix of every match is in the tries of the fields it has a prefix of. */
  ghost predicate PrefixesStored(l: Layout, st: Subtable, tries: seq<Trie.Tree>)
    requires |st.plens| == |l.fields|
  {
    && |tries| == |l.fields|
    && (forall j :: 0 <= j < |tries| ==> Trie.Valid(tries[j]) && Trie.Fits(tries[j], l.fields[j].bits))
    && (forall j :: 0 <= j < |tries| ==> st.plens[j] <= l.fields[j].bits)
    && (forall j, k :: 0 <= j < |tries| && st.plens[j] > 0 && k in st.rules ==>
          Trie.Count(tries[j], Value(k, l.fields[j])[..st.plens[j]]) > 0)
  }

  ghost predicate Searchable(l: Layout, st: Subtable, tries: seq<Trie.Tree>) {
    Shape(l, st) && HashesOK(l, st) && Indexed(l, st) && PortsStored(l, st) && PrefixesStored(l, st, tries)
  }

  // What a search has established

  /** No match of the subtable agrees with `f` on the bits in `s`. */
  ghost predicate Refuted(st: Subtable, f: Flow, s: Mask) {
    forall k :: k in st.rules ==> k * s != f * st.mask * s
  }

  /** The bits in `s` settle the outcome of searching the subtable for `f`. */
  ghost predicate Decided(st: Subtable, f: Flow, s: Mask) {
    Refuted(st, f, s) || st.mask <= s
  }

  lemma RefutedGrows(st: Subtable, f: Flow, s: Mask, s': Mask)
    requires Refuted(st, f, s) && s <= s'
    ensures Refuted(st, f, s')
  {
    forall k | k in st.rules ensures k * s' != f * st.mask * s' {
      assert k * s == (k * s') * s && f * st.mask * s == (f * st.mask * s') * s;
    }
  }

  lemma DecidedGrows(st: Subtable, f: Flow, s: Mask, s': Mask)
    requires Decided(st, f, s) && s <= s'
    ensures Decided(st, f, s')
  {
    if Refuted(st, f, s) {
      RefutedGrows(st, f, s, s');
    }
  }

  /** Once decided, every flow that agrees on those bits has the same outcome. */
  lemma DecidedForAll(st: Subtable, f: Flow, g: Flow, s: Mask, version: nat, no: set<nat>)
    requires Decided(st, f, s) && f * s == g * s
    ensures Best(st, g, version, no) == Best(st, f, version, no)
    ensures Passed(st, g, version, no) == Passed(st, f, version, no)
  {
    if st.mask <= s {
      assert g * st.mask == (g * s) * st.mask == (f * s) * st.mask == f * st.mask;
    } else {
      assert (g * st.mask) * s == (g * s) * st.mask == (f * s) * st.mask == f * st.mask * s;
      assert g * st.mask !in st.rules;
      assert f * st.mask !in st.rules;
    }
  }

  // Each way of missing

  lemma StageRefutes(l: Layout, st: Subtable, f: Flow, i: nat)
    requires Shape(l, st) && Indexed(l, st) && i < |st.indices|
    requires StageHash(l, f, st.mask, st.stages, i) !in st.indices[i]
    ensures Refuted(st, f, Within(st.mask, Concat(st.stages[..i + 1])))
  {
    var s := Within(st.mask, Concat(st.stages[..i + 1]));
    forall k | k in st.rules ensures k * s != f * st.mask * s {
      if k * s == f * st.mask * s {
        assert f * st.mask * s == f * s;
        StageHashAgrees(l, k, f, st.mask, st.stages, i);
      }
    }
  }

  lemma KeyAgreesOnPrefix(k: Flow, f: Flow, mask: Mask, s: Mask, field: Field, n: nat)
    requires k * s == f * mask * s && n <= field.bits
    requires PrefixMask(field, n) <= mask && PrefixMask(field, n) <= s
    ensures Value(k, field)[..n] == Value(f, field)[..n]
  {
    var p := PrefixMask(field, n);
    assert k * p == (k * s) * p == (f * mask * s) * p == f * p;
    PrefixAgrees(k, f, field, n);
  }

  lemma TrieRefutes(l: Layout, st: Subtable, tries: seq<Trie.Tree>, f: Flow, j: nat, s: Mask)
    requires Shape(l, st) && PrefixesStored(l, st, tries) && j < |tries| && st.plens[j] > 0
    requires !Trie.Stored(tries[j], Value(f, l.fields[j]), st.plens[j])
    requires PrefixMask(l.fields[j], Trie.MaskBits(tries[j], Value(f, l.fields[j]))) <= s
    ensures Refuted(st, f, s)
  {
    forall k | k in st.rules ensures k * s != f * st.mask * s {
      if k * s == f * st.mask * s {
        TrieRefutesKey(l, st, tries[j], f, j, s, k);
      }
    }
  }

  lemma TrieRefutesKey(l: Layout, st: Subtable, t: Trie.Tree, f: Flow, j: nat, s: Mask, k: Flow)
    requires Shape(l, st) && j < |l.fields| && 0 < st.plens[j] <= l.fields[j].bits
    requires Trie.Valid(t) && Trie.Fits(t, l.fields[j].bits)
    requires k * s == f * st.mask * s
    requires PrefixMask(l.fields[j], Trie.MaskBits(t, Value(f, l.fields[j]))) <= s
    requires Trie.Count(t, Value(k, l.fields[j])[..st.plens[j]]) > 0
    ensures Trie.Stored(t, Value(f, l.fields[j]), st.plens[j])
  {
    var field, len := l.fields[j], st.plens[j];
    var value := Value(f, field);
    var n := Trie.MaskBits(t, value);
    Trie.MaskBitsFit(t, value);
    if n <= len {
      assert PrefixMask(field, n) <= PrefixMask(field, len);
      KeyAgreesOnPrefix(k, f, st.mask, s, field, n);
      Trie.AgreeingValues(t, value, Value(k, field), len);
    } else {
      assert PrefixMask(field, len) <= PrefixMask(field, n);
      KeyAgreesOnPrefix(k, f, st.mask, s, field, len);
    }
  }

  // The ports trie

  /** Whether the stage that has the ports has nothing else to tell flows apart by. */
  predicate SafePorts(l: Layout, mask: Mask)
    requires LayoutOK(l)
  {
    StagesCover(l, mask);
    var stages := Stages(l, mask);
    PortsLen(l, mask) == 0 || Within(mask, stages[|stages| - 1]) <= PrefixMask(Ports(l), PORTS_BITS)
  }

  /** The bits of the stages before the last. */
  function EarlierBits(st: Subtable): Mask
    requires st.stages != []
  {
    Within(st.mask, Concat(st.stages[..|st.stages| - 1]))
  }

  lemma EarlierAndLast(l: Layout, st: Subtable)
    requires Shape(l, st) && st.stages != []
    ensures st.mask == EarlierBits(st) + Within(st.mask, st.stages[|st.stages| - 1])
  {
    var n := |st.stages| - 1;
    AllWords(l, st.mask);
    ConcatOne(st.stages[..n], st.stages[n]);
    assert st.stages == st.stages[..n] + [st.stages[n]];
  }

  lemma MaskedPortsAgree(l: Layout, k: Flow, f: Flow, mask: Mask, s: Mask, n: nat)
    requires k <= mask && k * s == f * mask * s && n <= PORTS_BITS
    requires mask * PrefixMask(Ports(l), n) <= s
    ensures Value(k, Ports(l))[..n] == Value(f * mask, Ports(l))[..n]
  {
    var p := PrefixMask(Ports(l), n);
    forall b | b in p ensures b in k <==> b in f * mask {
      if b in mask {
        assert b in s;
        assert b in k <==> b in k * s;
        assert b in f * mask <==> b in f * mask * s;
      }
    }
    assert k * p == (f * mask) * p;
    PrefixAgrees(k, f * mask, Ports(l), n);
  }

  /** The ports trie lookup decides a miss if its stage has only ports. */
  lemma PortsDecide(l: Layout, st: Subtable, f: Flow, s: Mask)
    requires Shape(l, st) && HashesOK(l, st) && PortsStored(l, st)
    requires st.portsLen > 0 && st.stages != [] && SafePorts(l, st.mask)
    requires EarlierBits(st) <= s
    requires st.mask * PrefixMask(Ports(l), Trie.MaskBits(st.ports, Value(f * st.mask, Ports(l)))) <= s
    ensures Decided(st, f, s)
  {
    var value := Value(f * st.mask, Ports(l));
    var n := Trie.MaskBits(st.ports, value);
    Trie.MaskBitsFit(st.ports, value);
    if Trie.Stored(st.ports, value, st.portsLen) {
      Trie.StoredNeedsBits(st.ports, value, st.portsLen);
      EarlierAndLast(l, st);
      assert st.mask * PrefixMask(Ports(l), PORTS_BITS) <= PrefixMask(Ports(l), n);
    } else {
      forall k | k in st.rules ensures k * s != f * st.mask * s {
        if k * s == f * st.mask * s {
          MaskedPortsAgree(l, k, f, st.mask, s, n);
          Trie.AgreeingValues(st.ports, value, Value(k, Ports(l)), st.portsLen);
        }
      }
    }
  }

  // The search

  /** What is known of the lookup of a flow in one prefix trie. */
  datatype Context = Context(done: bool, maskBits: nat, plens: set<nat>)

  ghost predicate ContextOK(l: Layout, t: Trie.Tree, j: nat, f: Flow, c: Context)
    requires j < |l.fields|
  {
    c.done && l.prereqs(j, f) ==>
      && c.maskBits == Trie.MaskBits(t, Value(f, l.fields[j]))
      && forall len :: len in c.plens <==> Trie.Stored(t, Value(f, l.fields[j]), len)
  }

  /** All lengths are possible for a flow without the prerequisites of the field. */
  ghost predicate NoPrereqsOK(l: Layout, j: nat, f: Flow, c: Context)
    requires j < |l.fields|
  {
    c.done && !l.prereqs(j, f) ==> Range(1, l.fields[j].bits) <= c.plens
  }

  ghost predicate ContextsOK(l: Layout, tries: seq<Trie.Tree>, f: Flow, ctx: seq<Context>) {
    && |ctx| == |tries| == |l.fields|
    && (forall j :: 0 <= j < |ctx| ==> ContextOK(l, tries[j], j, f, ctx[j]))
    && (forall j :: 0 <= j < |ctx| ==> NoPrereqsOK(l, j, f, ctx[j]))
  }

  lemma OneContext(l: Layout, tries: seq<Trie.Tree>, f: Flow, ctx: seq<Context>, j: nat)
    requires ContextsOK(l, tries, f, ctx) && j < |ctx|
    ensures ContextOK(l, tries[j], j, f, ctx[j]) && NoPrereqsOK(l, j, f, ctx[j])
    ensures forall c :: ContextOK(l, tries[j], j, f, c) && NoPrereqsOK(l, j, f, c) ==>
      ContextsOK(l, tries, f, ctx[j := c])
  {
    hide ContextOK, NoPrereqsOK;
  }

  /** trie_lookup. */
  method TrieLookup(l: Layout, t: Trie.Tree, j: nat, f: Flow) returns (c: Context)
    requires j < |l.fields| && Trie.Valid(t)
    ensures c.done && ContextOK(l, t, j, f, c) && NoPrereqsOK(l, j, f, c)
  {
    if l.prereqs(j, f) {
      var bits, plens := Trie.LookupValue(t, Value(f, l.fields[j]));
      c := Context(true, bits, plens);
    } else {
      c := Context(true, 0, Range(1, l.fields[j].bits));
    }
  }

  /** Trie `j`, if its field is in these words, rules out the subtable without looking at more
      bits than the subtable would, or than have been looked at. */
  ghost predicate TrieSkips(l: Layout, st: Subtable, t: Trie.Tree, words: seq<nat>, f: Flow, wc: Mask, j: nat)
    requires j < |l.fields| == |st.plens|
  {
    && st.plens[j] > 0 && WordOf(l.fields[j].ofs) in words && l.prereqs(j, f)
    && !Trie.Stored(t, Value(f, l.fields[j]), st.plens[j])
    && (Trie.MaskBits(t, Value(f, l.fields[j])) <= st.plens[j] || TrieBits(l, t, f, j) <= wc)
  }

  /** The bits of its field that a trie looks at. */
  function TrieBits(l: Layout, t: Trie.Tree, f: Flow, j: nat): Mask
    requires j < |l.fields|
  {
    PrefixMask(l.fields[j], Trie.MaskBits(t, Value(f, l.fields[j])))
  }

  /** One round of check_tries. */
  method CheckTrie(l: Layout, st: Subtable, t: Trie.Tree, j: nat, c: Context, words: seq<nat>, f: Flow, wc: Mask)
    returns (skip: bool, c': Context, wc': Mask)
    requires j < |l.fields| == |st.plens| && Trie.Valid(t) && st.plens[j] <= l.fields[j].bits
    requires ContextOK(l, t, j, f, c) && NoPrereqsOK(l, j, f, c)
    ensures ContextOK(l, t, j, f, c') && NoPrereqsOK(l, j, f, c')
    ensures skip <==> TrieSkips(l, st, t, words, f, wc, j)
    ensures wc' == if skip then wc + TrieBits(l, t, f, j) else wc
  {
    skip, c', wc' := false, c, wc;
    if st.plens[j] > 0 && WordOf(l.fields[j].ofs) in words {
      if !c.done {
        c' := TrieLookup(l, t, j, f);
      }
      if st.plens[j] !in c'.plens {
        assert l.prereqs(j, f);
        if c'.maskBits <= st.plens[j] {
          skip, wc' := true, wc + PrefixMask(l.fields[j], c'.maskBits);
        } else if PrefixMask(l.fields[j], c'.maskBits) <= wc {
          skip := true;
          assert wc == wc + TrieBits(l, t, f, j);
        }
      }
    }
  }

  /** The first trie that does so. */
  ghost function FirstSkip(l: Layout, st: Subtable, tries: seq<Trie.Tree>, words: seq<nat>, f: Flow, wc: Mask,
                           j: nat): (n: nat)
    requires |tries| == |l.fields| == |st.plens| && j <= |tries|
    ensures j <= n <= |tries| && (n < |tries| ==> TrieSkips(l, st, tries[n], words, f, wc, n))
    decreases |tries| - j
  {
    if j == |tries| || TrieSkips(l, st, tries[j], words, f, wc, j) then j
    else FirstSkip(l, st, tries, words, f, wc, j + 1)
  }

  /** check_tries: whether some trie rules out the rest of the subtable. */
  method CheckTries(l: Layout, st: Subtable, tries: seq<Trie.Tree>, ctx: seq<Context>,
                    words: seq<nat>, f: Flow, wc: Mask)
    returns (skip: bool, ctx': seq<Context>, wc': Mask)
    requires Shape(l, st) && PrefixesStored(l, st, tries) && ContextsOK(l, tries, f, ctx)
    ensures ContextsOK(l, tries, f, ctx')
    ensures wc <= wc' && (!skip ==> wc' == wc)
    ensures skip ==> l.fields != [] && Refuted(st, f, wc')
    ensures skip <==> FirstSkip(l, st, tries, words, f, wc, 0) < |tries|
    ensures skip ==> var j := FirstSkip(l, st, tries, words, f, wc, 0); wc' == wc + TrieBits(l, tries[j], f, j)
  {
    assert |tries| == |l.fields| == |ctx| == |st.plens|;
    hide TrieSkips, ContextOK, NoPrereqsOK, ContextsOK, Refuted, Shape, Trie.Valid, Trie.Fits;
    skip, ctx', wc' := false, ctx, wc;
    for j := 0 to |tries|
      invariant |ctx'| == |tries| && ContextsOK(l, tries, f, ctx') && wc' == wc && !skip
      invariant FirstSkip(l, st, tries, words, f, wc, 0) == FirstSkip(l, st, tries, words, f, wc, j)
    {
      OneContext(l, tries, f, ctx', j);
      var c;
      skip, c, wc' := CheckTrie(l, st, tries[j], j, ctx'[j], words, f, wc);
      ctx' := ctx'[j := c];
      if skip {
        SkipsRefute(l, st, tries, words, f, wc, j);
        return;
      }
    }
  }

  lemma SkipsRefute(l: Layout, st: Subtable, tries: seq<Trie.Tree>, words: seq<nat>, f: Flow, wc: Mask, j: nat)
    requires Shape(l, st) && PrefixesStored(l, st, tries) && j < |tries| && TrieSkips(l, st, tries[j], words, f, wc, j)
    ensures Refuted(st, f, wc + TrieBits(l, tries[j], f, j))
  {
    TrieRefutes(l, st, tries, f, j, wc + TrieBits(l, tries[j], f, j));
  }

  /** find_match: the first usable rule of the match with this hash that `f` has. */
  method FindMatch(st: Subtable, f: Flow, hash: nat, version: nat, no: set<nat>)
    returns (r: Option<Rule>, passed: seq<nat>)
    ensures f * st.mask in st.rules && st.rules[f * st.mask].hash != hash ==> r == None && passed == []
    ensures f * st.mask in st.rules && st.rules[f * st.mask].hash == hash ==>
      r == Best(st, f, version, no) && passed == Passed(st, f, version, no)
    ensures f * st.mask !in st.rules ==> r == None && passed == []
  {
    r, passed := None, [];
    var key := f * st.mask;
    if key in st.rules && st.rules[key].hash == hash {
      var chain := st.rules[key].chain;
      for i := 0 to |chain|
        invariant FirstUsable(chain, 0, version, no) == FirstUsable(chain, i, version, no)
        invariant PassedIn(chain, 0, version, no) == passed + PassedIn(chain, i, version, no)
      {
        if Visible(chain[i], version) {
          if chain[i].prog != 0 && chain[i].prog in no {
            passed := passed + [chain[i].prog];
          } else {
            return Some(chain[i]), passed;
          }
        }
      }
    }
  }

  /** A match in the subtable is found by the last of the staged hashes. */
  lemma HashFinds(l: Layout, st: Subtable, f: Flow)
    requires Shape(l, st) && HashesOK(l, st)
    ensures st.stages != []
    ensures f * st.mask in st.rules ==>
      st.rules[f * st.mask].hash == StageHash(l, f, st.mask, st.stages, |st.stages| - 1)
  {
    var n := |st.stages| - 1;
    var words := Concat(st.stages[..n + 1]);
    LastStageIsFullHash(l, f, st.mask);
    LastStageIsFullHash(l, f * st.mask, st.mask);
    assert f * Within(st.mask, words) == (f * st.mask) * Within(st.mask, words);
    StageHashAgrees(l, f, f * st.mask, st.mask, st.stages, n);
  }

  /** The bits reported if the search ends at stage `i`, by a trie or by the index. */
  ghost function StageLooked(l: Layout, st: Subtable, tries: seq<Trie.Tree>, f: Flow, wc: Mask, i: nat): Option<Mask>
    requires |tries| == |l.fields| == |st.plens| && i <= |st.indices| < |st.stages|
  {
    var j := FirstSkip(l, st, tries, st.stages[i], f, wc, 0);
    if j < |tries| then Some(wc + TrieBits(l, tries[j], f, j) + Within(st.mask, Concat(st.stages[..i])))
    else if i < |st.indices| && StageHash(l, f, st.mask, st.stages, i) !in st.indices[i] then
      Some(wc + Within(st.mask, Concat(st.stages[..i + 1])))
    else None
  }

  /** And if it ends at that stage or a later one. */
  ghost function MissLooked(l: Layout, st: Subtable, tries: seq<Trie.Tree>, f: Flow, wc: Mask, i: nat): Option<Mask>
    requires |tries| == |l.fields| == |st.plens| && i <= |st.indices| < |st.stages|
    decreases |st.indices| - i
  {
    var at := StageLooked(l, st, tries, f, wc, i);
    if at.Some? || i == |st.indices| then at else MissLooked(l, st, tries, f, wc, i + 1)
  }

  /** The bits reported by a search, added to those of the searches before. */
  ghost function Looked(l: Layout, st: Subtable, tries: seq<Trie.Tree>, f: Flow, version: nat, no: set<nat>,
                        wc: Mask): Mask
    requires |tries| == |l.fields| == |st.plens| && |st.indices| < |st.stages|
  {
    match MissLooked(l, st, tries, f, wc, 0)
    case Some(wc') => wc'
    case None =>
      wc + if Best(st, f, version, no).None? && st.portsLen > 0 then
             EarlierBits(st) + st.mask * PrefixMask(Ports(l), Trie.MaskBits(st.ports, Value(f * st.mask, Ports(l))))
           else st.mask
  }

  /** One stage of find_match_wc: its tries, its hash and, except for the last stage, its index. */
  method SearchStage(l: Layout, st: Subtable, tries: seq<Trie.Tree>, ctx: seq<Context>, f: Flow, wc: Mask,
                     i: nat, offset: nat, basis: nat)
    returns (miss: bool, hash: nat, ctx': seq<Context>, wc': Mask, offset': nat, basis': nat)
    requires Searchable(l, st, tries) && ContextsOK(l, tries, f, ctx) && i <= |st.indices| < |st.stages|
    requires offset == |Concat(st.stages[..i])| && basis == Fold(l, f, st.mask, Concat(st.stages[..i]), 0)
    ensures ContextsOK(l, tries, f, ctx') && wc <= wc'
    ensures miss ==> Refuted(st, f, wc')
    ensures !miss ==>
      && wc' == wc && hash == StageHash(l, f, st.mask, st.stages, i)
      && (i < |st.indices| ==> hash in st.indices[i])
      && offset' == |Concat(st.stages[..i + 1])| && basis' == Fold(l, f, st.mask, Concat(st.stages[..i + 1]), 0)
    ensures StageLooked(l, st, tries, f, wc, i) == if miss then Some(wc') else None
  {
    hide ContextsOK, PrefixesStored, HashesOK, PortsStored, Indexed, Refuted;
    hash, offset', basis' := 0, 0, 0;
    miss, ctx', wc' := CheckTries(l, st, tries, ctx, st.stages[i], f, wc);
    if miss {
      var used := Within(st.mask, Concat(st.stages[..i]));
      RefutedGrows(st, f, wc', wc' + used);
      wc' := wc' + used;
      return;
    }
    NextStage(l, f, st.mask, st.stages, i);
    hash, offset', basis' := HashRange(l, f, st.mask, st.stages[i], offset, basis);
    if i < |st.indices| && hash !in st.indices[i] {
      var used := Within(st.mask, Concat(st.stages[..i + 1]));
      StageRefutes(l, st, f, i);
      RefutedGrows(st, f, used, wc' + used);
      miss, wc' := true, wc' + used;
    }
  }

  /** The stages of find_match_wc, up to the hash of the last one. */
  method SearchStages(l: Layout, st: Subtable, tries: seq<Trie.Tree>, ctx: seq<Context>, f: Flow, wc: Mask)
    returns (miss: bool, hash: nat, ctx': seq<Context>, wc': Mask)
    requires Searchable(l, st, tries) && ContextsOK(l, tries, f, ctx) && |st.indices| < |st.stages|
    ensures ContextsOK(l, tries, f, ctx') && wc <= wc'
    ensures miss ==> Refuted(st, f, wc')
    ensures !miss ==> wc' == wc && hash == StageHash(l, f, st.mask, st.stages, |st.indices|)
    ensures MissLooked(l, st, tries, f, wc, 0) == if miss then Some(wc') else None
  {
    assert |tries| == |l.fields| == |st.plens|;
    hide Searchable, ContextsOK, Refuted, StageHash, StageLooked;
    ctx', wc', miss, hash := ctx, wc, false, 0;
    var offset, basis := 0, 0;
    for i := 0 to |st.indices|
      invariant ContextsOK(l, tries, f, ctx') && wc' == wc && !miss
      invariant offset == |Concat(st.stages[..i])| && basis == Fold(l, f, st.mask, Concat(st.stages[..i]), 0)
      invariant MissLooked(l, st, tries, f, wc, 0) == MissLooked(l, st, tries, f, wc, i)
    {
      miss, hash, ctx', wc', offset, basis := SearchStage(l, st, tries, ctx', f, wc', i, offset, basis);
      if miss {
        return;
      }
    }
    miss, hash, ctx', wc', offset, basis := SearchStage(l, st, tries, ctx', f, wc', |st.indices|, offset, basis);
  }

  /** find_match_wc: the best rule of the subtable for `f`, with the bits that settle it
      added to `wc`. */
  method FindMatchWc(l: Layout, st: Subtable, tries: seq<Trie.Tree>, ctx: seq<Context>,
                     version: nat, no: set<nat>, f: Flow, wc: Mask)
    returns (r: Option<Rule>, passed: seq<nat>, ctx': seq<Context>, wc': Mask)
    requires Searchable(l, st, tries) && ContextsOK(l, tries, f, ctx)
    ensures r == Best(st, f, version, no) && passed == Passed(st, f, version, no)
    ensures ContextsOK(l, tries, f, ctx') && wc <= wc'
    ensures SafePorts(l, st.mask) ==> Decided(st, f, wc')
    ensures wc' == Looked(l, st, tries, f, version, no, wc)
  {
    var miss, hash;
    StagesCover(l, st.mask);
    miss, hash, ctx', wc' := SearchStages(l, st, tries, ctx, f, wc);
    if miss {
      DecidedForAll(st, f, f, wc', version, no);
      assert f * st.mask !in st.rules;
      return None, [], ctx', wc';
    }
    HashFinds(l, st, f);
    r, passed := FindMatch(st, f, hash, version, no);
    if r.None? && st.portsLen > 0 {
      var value := Value(f * st.mask, Ports(l));
      var bits, plens := Trie.LookupValue(st.ports, value);
      wc' := wc' + st.mask * PrefixMask(Ports(l), bits) + EarlierBits(st);
      if SafePorts(l, st.mask) {
        PortsDecide(l, st, f, wc');
      }
    } else {
      wc' := wc' + st.mask;
    }
  }

  /** find_match_wc without a mask to fill in: one hash over the whole mask. */
  method FindMatchPlain(l: Layout, st: Subtable, f: Flow, version: nat, no: set<nat>)
    returns (r: Option<Rule>, passed: seq<nat>)
    requires Shape(l, st) && HashesOK(l, st)
    ensures r == Best(st, f, version, no) && passed == Passed(st, f, version, no)
  {
    HashFinds(l, st, f);
    LastStageIsFullHash(l, f, st.mask);
    r, passed := FindMatch(st, f, FullHash(l, f, st.mask), version, no);
  }
}
