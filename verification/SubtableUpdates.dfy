/** How the classifier changes one subtable when a rule comes or goes: the list of rules
    with the same match, the staged indices, the ports trie, and the highest priority
    (classifier_replace and classifier_remove in lib/classifier.c). */
module SubtableUpdates {
  import opened Options
  import opened Flows
  import opened Subtables
  import Trie

  // Lists of rules with the same match

  predicate Ordered(chain: seq<Rule>) {
    forall i, j :: 0 <= i < j < |chain| ==> chain[i].priority >= chain[j].priority
  }

  predicate DistinctIds(chain: seq<Rule>) {
    forall i, j :: 0 <= i < j < |chain| ==> chain[i].id != chain[j].id
  }

  predicate ChainOK(chain: seq<Rule>, mask: Mask, key: Flow) {
    && chain != [] && Ordered(chain) && DistinctIds(chain)
    && (forall r :: r in chain ==> r.mask == mask && r.key == key && r.priority >= INT_MIN)
  }

  function Members(chain: seq<Rule>): set<Rule> {
    set r | r in chain
  }

  /** A rule that a new one takes the place of. */
  predicate Displaces(rule: Rule, r: Rule) {
    r.priority == rule.priority && !EventuallyInvisible(r)
  }

  /** Where a new rule goes: before the first rule that it outranks or takes the place of. */
  function Position(chain: seq<Rule>, rule: Rule, i: nat): (n: nat)
    requires i <= |chain|
    ensures i <= n <= |chain|
    ensures forall k :: i <= k < n ==> rule.priority <= chain[k].priority && !Displaces(rule, chain[k])
    ensures n < |chain| ==> rule.priority > chain[n].priority || Displaces(rule, chain[n])
    decreases |chain| - i
  {
    if i == |chain| || rule.priority > chain[i].priority || Displaces(rule, chain[i]) then i
    else Position(chain, rule, i + 1)
  }

  function Displaced(chain: seq<Rule>, rule: Rule): Option<Rule> {
    var n := Position(chain, rule, 0);
    if n < |chain| && chain[n].priority == rule.priority then Some(chain[n]) else None
  }

  function Added(chain: seq<Rule>, rule: Rule): seq<Rule> {
    var n := Position(chain, rule, 0);
    if Displaced(chain, rule).Some? then chain[n := rule] else chain[..n] + [rule] + chain[n..]
  }

  lemma SwapMember(chain: seq<Rule>, n: nat, rule: Rule)
    requires DistinctIds(chain) && n < |chain| && (forall r :: r in chain ==> r.id != rule.id)
    ensures Members(chain[n := rule]) == Members(chain) + {rule} - {chain[n]}
  {
    var chain' := chain[n := rule];
    assert chain'[n] == rule;
    forall r | r in chain && r != chain[n] ensures r in chain' {
      var i :| 0 <= i < |chain| && chain[i] == r;
      assert chain'[i] == r;
    }
    forall r | r in chain' && r != rule ensures r in chain && r != chain[n] {
      var i :| 0 <= i < |chain'| && chain'[i] == r;
      assert chain[i] == r;
    }
  }

  lemma PutMember(chain: seq<Rule>, n: nat, rule: Rule)
    requires n <= |chain|
    ensures Members(chain[..n] + [rule] + chain[n..]) == Members(chain) + {rule}
  {
  }

  lemma SwapOrder(chain: seq<Rule>, n: nat, rule: Rule)
    requires Ordered(chain) && DistinctIds(chain) && n < |chain| && (forall r :: r in chain ==> r.id != rule.id)
    requires chain[n].priority == rule.priority
    ensures Ordered(chain[n := rule]) && DistinctIds(chain[n := rule])
  {
  }

  lemma PutOrder(chain: seq<Rule>, n: nat, rule: Rule)
    requires Ordered(chain) && DistinctIds(chain) && n <= |chain| && (forall r :: r in chain ==> r.id != rule.id)
    requires forall i :: 0 <= i < n ==> rule.priority <= chain[i].priority
    requires n < |chain| ==> chain[n].priority <= rule.priority
    ensures Ordered(chain[..n] + [rule] + chain[n..]) && DistinctIds(chain[..n] + [rule] + chain[n..])
  {
  }

  lemma AddedKeeps(chain: seq<Rule>, rule: Rule, mask: Mask, key: Flow)
    requires ChainOK(chain, mask, key) && rule.mask == mask && rule.key == key && rule.priority >= INT_MIN
    requires forall r :: r in chain ==> r.id != rule.id
    ensures ChainOK(Added(chain, rule), mask, key)
    ensures Members(Added(chain, rule)) ==
      Members(chain) + {rule} - (if Displaced(chain, rule).Some? then {Displaced(chain, rule).value} else {})
  {
    hide Ordered, DistinctIds;
    var n := Position(chain, rule, 0);
    if Displaced(chain, rule).Some? {
      SwapMember(chain, n, rule);
      SwapOrder(chain, n, rule);
    } else {
      PutMember(chain, n, rule);
      PutOrder(chain, n, rule);
    }
    forall r | r in Added(chain, rule) ensures r.mask == mask && r.key == key && r.priority >= INT_MIN {
      assert r in Members(Added(chain, rule));
    }
  }

  /** A rule of the same priority that stays is displaced, and only such a rule. */
  lemma DisplacedIff(chain: seq<Rule>, rule: Rule)
    requires Ordered(chain)
    ensures Displaced(chain, rule).Some? <==> exists r :: r in chain && Displaces(rule, r)
    ensures Displaced(chain, rule).Some? ==>
      Displaced(chain, rule).value in chain && Displaces(rule, Displaced(chain, rule).value)
  {
  }

  // Sets of rules

  function All(st: Subtable): set<Rule> {
    set k, r | k in st.rules && r in st.rules[k].chain :: r
  }

  function Top(rules: set<Rule>, priority: int): set<Rule> {
    set r | r in rules && r.priority == priority
  }

  /** The highest priority is exact; its count may fall short of the rules that have it. */
  ghost predicate MaxOK(rules: set<Rule>, maxPriority: int, maxCount: nat) {
    && (forall r :: r in rules ==> r.priority <= maxPriority)
    && 1 <= maxCount <= |Top(rules, maxPriority)|
  }

  // What a subtable keeps true

  ghost predicate ChainsOK(st: Subtable) {
    forall k :: k in st.rules ==> ChainOK(st.rules[k].chain, st.mask, k)
  }

  ghost function Hashed(l: Layout, st: Subtable, i: nat, hash: nat): set<Flow>
    requires i < |st.stages|
  {
    set k | k in st.rules && StageHash(l, k, st.mask, st.stages, i) == hash
  }

  ghost predicate IndexCounts(l: Layout, st: Subtable)
    requires |st.indices| < |st.stages|
  {
    forall i, hash :: 0 <= i < |st.indices| ==> st.indices[i][hash] == |Hashed(l, st, i, hash)|
  }

  function PortsPrefix(l: Layout, k: Flow, len: nat): Trie.Bits
    requires len <= PORTS_BITS
  {
    Value(k, Ports(l))[..len]
  }

  ghost function WithPorts(l: Layout, st: Subtable, p: Trie.Bits): set<Flow>
    requires st.portsLen <= PORTS_BITS
  {
    set k | k in st.rules && PortsPrefix(l, k, st.portsLen) == p
  }

  ghost predicate PortsCounts(l: Layout, st: Subtable) {
    && Trie.Valid(st.ports) && Trie.Fits(st.ports, PORTS_BITS)
    && st.portsLen <= PORTS_BITS
    && (if st.portsLen == 0 then st.ports == Trie.Null
        else forall p {:trigger Trie.Count(st.ports, p)} :: Trie.Count(st.ports, p) == |WithPorts(l, st, p)|)
  }

  /** Everything but the highest priority, which an empty subtable does not have. */
  ghost predicate Consistent(l: Layout, st: Subtable) {
    && Shape(l, st) && |st.indices| < |st.stages| && HashesOK(l, st) && ChainsOK(st)
    && IndexCounts(l, st) && PortsCounts(l, st)
  }

  lemma CountsSuffice(l: Layout, st: Subtable)
    requires Shape(l, st) && |st.indices| < |st.stages| && IndexCounts(l, st) && PortsCounts(l, st)
    ensures Indexed(l, st) && PortsStored(l, st)
  {
    forall k, i | k in st.rules && 0 <= i < |st.indices|
      ensures StageHash(l, k, st.mask, st.stages, i) in st.indices[i]
    {
      var hash := StageHash(l, k, st.mask, st.stages, i);
      assert k in Hashed(l, st, i, hash);
      assert st.indices[i][hash] == |Hashed(l, st, i, hash)|;
    }
    if st.portsLen > 0 {
      forall k | k in st.rules ensures Trie.Count(st.ports, Value(k, Ports(l))[..st.portsLen]) > 0 {
        assert k in WithPorts(l, st, PortsPrefix(l, k, st.portsLen));
      }
    }
  }

  // A match with its first rule, and without its last

  /** insert_subtable, before it has any rules. */
  method NewSubtable(l: Layout, mask: Mask) returns (st: Subtable)
    requires LayoutOK(l) && Fitting(l, mask)
    ensures st.mask == mask && st.rules == map[]
    ensures Consistent(l, st)
  {
    var stages := ComputeStages(l, mask);
    StagesCover(l, mask);
    var plens := [];
    for j := 0 to |l.fields|
      invariant |plens| == j
      invariant forall i :: 0 <= i < j ==> plens[i] == PrefixLen(mask, l.fields[i])
    {
      plens := plens + [PrefixLen(mask, l.fields[j])];
    }
    st := Subtable(mask, stages, plens, PortsLen(l, mask), seq(|stages| - 1, i => multiset{}),
                   Trie.Null, map[], INT_MIN, 0);
    forall i, hash | 0 <= i < |st.indices| ensures st.indices[i][hash] == |Hashed(l, st, i, hash)| {
      assert Hashed(l, st, i, hash) == {};
    }
    forall p {:trigger Trie.Count(st.ports, p)} ensures Trie.Count(st.ports, p) == |WithPorts(l, st, p)| {
      assert WithPorts(l, st, p) == {};
    }
  }

  ghost predicate SameShape(a: Subtable, b: Subtable) {
    a.mask == b.mask && a.stages == b.stages && a.plens == b.plens && a.portsLen == b.portsLen
  }

  /** Adds a rule whose match the subtable does not have. */
  method AddMatch(l: Layout, st: Subtable, rule: Rule) returns (st': Subtable)
    requires Consistent(l, st)
    requires rule.mask == st.mask && rule.key <= rule.mask && rule.key !in st.rules && rule.priority >= INT_MIN
    ensures SameShape(st, st') && st'.maxPriority == st.maxPriority && st'.maxCount == st.maxCount
    ensures st'.rules == st.rules[rule.key := Head(FullHash(l, rule.key, rule.mask), [rule])]
    ensures Consistent(l, st')
  {
    var hashes := StagedHashes(l, rule.key, st.mask, st.stages);
    var indices := st.indices;
    for i := 0 to |st.indices|
      invariant |indices| == |st.indices|
      invariant forall k :: 0 <= k < i ==> indices[k] == st.indices[k] + multiset{hashes[k]}
      invariant forall k :: i <= k < |indices| ==> indices[k] == st.indices[k]
    {
      indices := indices[i := indices[i] + multiset{hashes[i]}];
    }
    var ports := st.ports;
    if st.portsLen > 0 {
      ports := Trie.InsertPrefix(st.ports, PortsPrefix(l, rule.key, st.portsLen));
    }
    LastStageIsFullHash(l, rule.key, rule.mask);
    var head := Head(hashes[|st.stages| - 1], [rule]);
    st' := st.(indices := indices, ports := ports, rules := st.rules[rule.key := head]);
    AddedIndexCounts(l, st, st', rule.key, head);
    AddedPortsCounts(l, st, st', rule.key, head);
    AddedMatchKeeps(l, st, st', rule);
  }

  lemma AddedMatchKeeps(l: Layout, st: Subtable, st': Subtable, rule: Rule)
    requires Consistent(l, st) && rule.mask == st.mask && rule.key <= rule.mask && rule.priority >= INT_MIN
    requires SameShape(st, st') && |st'.indices| == |st.indices|
    requires st'.rules == st.rules[rule.key := Head(FullHash(l, rule.key, rule.mask), [rule])]
    ensures Shape(l, st') && HashesOK(l, st') && ChainsOK(st')
  {
    hide IndexCounts, PortsCounts;
  }

  lemma HashedAdded(l: Layout, st: Subtable, st': Subtable, key: Flow, head: Head, i: nat, hash: nat)
    requires i < |st.stages| && key !in st.rules
    requires SameShape(st, st') && st'.rules == st.rules[key := head]
    ensures |Hashed(l, st', i, hash)| == |Hashed(l, st, i, hash)| +
      if StageHash(l, key, st.mask, st.stages, i) == hash then 1 else 0
  {
    hide StageHash;
    if StageHash(l, key, st.mask, st.stages, i) == hash {
      assert Hashed(l, st', i, hash) == Hashed(l, st, i, hash) + {key};
    } else {
      assert Hashed(l, st', i, hash) == Hashed(l, st, i, hash);
    }
  }

  lemma AddedIndexCounts(l: Layout, st: Subtable, st': Subtable, key: Flow, head: Head)
    requires |st.indices| < |st.stages| && IndexCounts(l, st) && key !in st.rules
    requires SameShape(st, st') && st'.rules == st.rules[key := head] && |st'.indices| == |st.indices|
    requires forall i :: 0 <= i < |st.indices| ==>
      st'.indices[i] == st.indices[i] + multiset{StageHash(l, key, st.mask, st.stages, i)}
    ensures IndexCounts(l, st')
  {
    hide Hashed, StageHash;
    forall i, hash | 0 <= i < |st'.indices| ensures st'.indices[i][hash] == |Hashed(l, st', i, hash)| {
      assert st.indices[i][hash] == |Hashed(l, st, i, hash)|;
      HashedAdded(l, st, st', key, head, i, hash);
    }
  }

  lemma WithPortsAdded(l: Layout, st: Subtable, st': Subtable, key: Flow, head: Head, p: Trie.Bits)
    requires st.portsLen <= PORTS_BITS && key !in st.rules
    requires SameShape(st, st') && st'.rules == st.rules[key := head]
    ensures |WithPorts(l, st', p)| == |WithPorts(l, st, p)| + if PortsPrefix(l, key, st.portsLen) == p then 1 else 0
  {
    hide PortsPrefix;
    if PortsPrefix(l, key, st.portsLen) == p {
      assert WithPorts(l, st', p) == WithPorts(l, st, p) + {key};
    } else {
      assert WithPorts(l, st', p) == WithPorts(l, st, p);
    }
  }

  lemma AddedPortsCounts(l: Layout, st: Subtable, st': Subtable, key: Flow, head: Head)
    requires PortsCounts(l, st) && key !in st.rules
    requires SameShape(st, st') && st'.rules == st.rules[key := head]
    requires st'.ports ==
      if st.portsLen > 0 then Trie.Inserted(st.ports, PortsPrefix(l, key, st.portsLen)) else st.ports
    ensures PortsCounts(l, st')
  {
    if st.portsLen > 0 {
      var own := PortsPrefix(l, key, st.portsLen);
      hide WithPorts, PortsPrefix, Trie.Count, Trie.Valid, Trie.Fits, Trie.Inserted;
      Trie.InsertedValid(st.ports, own);
      Trie.InsertedFits(st.ports, own, PORTS_BITS);
      forall p {:trigger Trie.Count(st'.ports, p)} ensures Trie.Count(st'.ports, p) == |WithPorts(l, st', p)| {
        Trie.InsertedCount(st.ports, own, p);
        WithPortsAdded(l, st, st', key, head, p);
      }
    }
  }

  /** Removes a match with all its rules. */
  method RemoveMatch(l: Layout, st: Subtable, key: Flow) returns (st': Subtable)
    requires Consistent(l, st) && key in st.rules
    ensures SameShape(st, st') && st'.maxPriority == st.maxPriority && st'.maxCount == st.maxCount
    ensures st'.rules == st.rules - {key}
    ensures Consistent(l, st')
  {
    var ports := st.ports;
    if st.portsLen > 0 {
      ports := Trie.RemovePrefix(st.ports, PortsPrefix(l, key, st.portsLen));
    }
    var hashes := StagedHashes(l, key, st.mask, st.stages);
    var indices := st.indices;
    for i := 0 to |st.indices|
      invariant |indices| == |st.indices|
      invariant forall k :: 0 <= k < i ==> indices[k] == st.indices[k] - multiset{hashes[k]}
      invariant forall k :: i <= k < |indices| ==> indices[k] == st.indices[k]
    {
      indices := indices[i := indices[i] - multiset{hashes[i]}];
    }
    st' := st.(indices := indices, ports := ports, rules := st.rules - {key});
    RemovedIndexCounts(l, st, st', key);
    RemovedPortsCounts(l, st, st', key);
  }

  lemma RemovedIndexCounts(l: Layout, st: Subtable, st': Subtable, key: Flow)
    requires |st.indices| < |st.stages| && IndexCounts(l, st) && key in st.rules
    requires SameShape(st, st') && st'.rules == st.rules - {key} && |st'.indices| == |st.indices|
    requires forall i :: 0 <= i < |st.indices| ==>
      st'.indices[i] == st.indices[i] - multiset{StageHash(l, key, st.mask, st.stages, i)}
    ensures IndexCounts(l, st')
  {
    hide Hashed, StageHash;
    assert st.rules == st'.rules[key := st.rules[key]];
    forall i, hash | 0 <= i < |st'.indices| ensures st'.indices[i][hash] == |Hashed(l, st', i, hash)| {
      assert st.indices[i][hash] == |Hashed(l, st, i, hash)|;
      HashedAdded(l, st', st, key, st.rules[key], i, hash);
    }
  }

  lemma RemovedPortsCounts(l: Layout, st: Subtable, st': Subtable, key: Flow)
    requires PortsCounts(l, st) && key in st.rules
    requires SameShape(st, st') && st'.rules == st.rules - {key}
    requires st'.ports ==
      if st.portsLen > 0 then Trie.Removed(st.ports, PortsPrefix(l, key, st.portsLen)) else st.ports
    ensures PortsCounts(l, st')
  {
    assert st.rules == st'.rules[key := st.rules[key]];
    if st.portsLen > 0 {
      var own := PortsPrefix(l, key, st.portsLen);
      hide WithPorts, PortsPrefix, Trie.Count, Trie.Valid, Trie.Fits, Trie.Removed;
      Trie.RemovedValid(st.ports, own);
      Trie.RemovedFits(st.ports, own, PORTS_BITS);
      WithPortsAdded(l, st', st, key, st.rules[key], own);
      assert Trie.Count(st.ports, own) == |WithPorts(l, st, own)|;
      forall p {:trigger Trie.Count(st'.ports, p)} ensures Trie.Count(st'.ports, p) == |WithPorts(l, st', p)| {
        Trie.RemovedCount(st.ports, own, p);
        WithPortsAdded(l, st', st, key, st.rules[key], p);
      }
    }
  }

  // A match whose list of rules changes

  function WithChain(st: Subtable, key: Flow, chain: seq<Rule>): Subtable
    requires key in st.rules
  {
    st.(rules := st.rules[key := Head(st.rules[key].hash, chain)])
  }

  lemma WithChainKeeps(l: Layout, st: Subtable, key: Flow, chain: seq<Rule>)
    requires Consistent(l, st)
    requires key in st.rules && ChainOK(chain, st.mask, key)
    ensures var st' := WithChain(st, key, chain);
      && SameShape(st, st') && st'.rules.Keys == st.rules.Keys
      && Consistent(l, st')
  {
  }

  // The rules of a subtable

  lemma AllAdded(st: Subtable, st': Subtable, rule: Rule, hash: nat)
    requires st'.rules == st.rules[rule.key := Head(hash, [rule])] && rule.key !in st.rules
    ensures All(st') == All(st) + {rule}
  {
    forall r ensures r in All(st') <==> r in All(st) + {rule} {
      if r in All(st) {
        var k :| k in st.rules && r in st.rules[k].chain;
        assert k in st'.rules && r in st'.rules[k].chain;
      }
      assert rule in st'.rules[rule.key].chain;
    }
  }

  lemma AllRemoved(st: Subtable, st': Subtable, rule: Rule)
    requires ChainsOK(st) && rule.key in st.rules && st.rules[rule.key].chain == [rule]
    requires st'.rules == st.rules - {rule.key}
    ensures All(st') == All(st) - {rule}
  {
    forall r ensures r in All(st') <==> r in All(st) - {rule} {
      if r in All(st) {
        var k :| k in st.rules && r in st.rules[k].chain;
        assert r.key == k;
        if r != rule {
          assert k in st'.rules && r in st'.rules[k].chain;
        }
      }
    }
  }

  lemma AllWithChain(st: Subtable, key: Flow, chain: seq<Rule>)
    requires ChainsOK(st) && key in st.rules && (forall r :: r in chain ==> r.key == key)
    ensures All(WithChain(st, key, chain)) == All(st) - Members(st.rules[key].chain) + Members(chain)
  {
    var st' := WithChain(st, key, chain);
    forall r ensures r in All(st') <==> r in All(st) - Members(st.rules[key].chain) + Members(chain) {
      if r in All(st) {
        var k :| k in st.rules && r in st.rules[k].chain;
        assert r.key == k && k in st'.rules;
      }
      if r in All(st') {
        var k :| k in st'.rules && r in st'.rules[k].chain;
        assert r.key == k && k in st.rules;
      }
      assert r in chain ==> r in st'.rules[key].chain;
    }
  }

  /** Every rule is in the list of its own match. */
  lemma AllByKey(st: Subtable, r: Rule)
    requires ChainsOK(st)
    ensures r in All(st) <==> r.key in st.rules && r in st.rules[r.key].chain
    ensures r in All(st) ==> r.mask == st.mask
  {
  }

  // The highest priority

  lemma TopAdded(rules: set<Rule>, rule: Rule, p: int)
    requires rule !in rules
    ensures |Top(rules + {rule}, p)| == |Top(rules, p)| + if rule.priority == p then 1 else 0
  {
    if rule.priority == p {
      assert Top(rules + {rule}, p) == Top(rules, p) + {rule};
    } else {
      assert Top(rules + {rule}, p) == Top(rules, p);
    }
  }

  lemma TopRemoved(rules: set<Rule>, rule: Rule, p: int)
    requires rule in rules
    ensures |Top(rules, p)| == |Top(rules - {rule}, p)| + if rule.priority == p then 1 else 0
  {
    TopAdded(rules - {rule}, rule, p);
    assert rules - {rule} + {rule} == rules;
  }

  lemma MaxAdded(rules: set<Rule>, rule: Rule, p: int, c: nat)
    requires MaxOK(rules, p, c) && rule !in rules
    ensures rule.priority < p ==> MaxOK(rules + {rule}, p, c)
    ensures rule.priority == p ==> MaxOK(rules + {rule}, p, c + 1)
    ensures rule.priority > p ==> MaxOK(rules + {rule}, rule.priority, 1)
  {
    TopAdded(rules, rule, p);
    TopAdded(rules, rule, rule.priority);
  }

  lemma MaxSwapped(rules: set<Rule>, gone: Rule, rule: Rule, p: int, c: nat)
    requires MaxOK(rules, p, c) && gone in rules && rule !in rules && rule.priority == gone.priority
    ensures MaxOK(rules - {gone} + {rule}, p, c)
  {
    TopRemoved(rules, gone, p);
    TopAdded(rules - {gone}, rule, p);
  }

  lemma MaxRemoved(rules: set<Rule>, rule: Rule, p: int, c: nat)
    requires MaxOK(rules, p, c) && rule in rules
    ensures rule.priority != p ==> MaxOK(rules - {rule}, p, c)
    ensures rule.priority == p && c > 1 ==> MaxOK(rules - {rule}, p, c - 1)
  {
    TopRemoved(rules, rule, p);
  }

  lemma HeadIsTop(st: Subtable, k: Flow)
    requires ChainsOK(st) && k in st.rules
    ensures var head := st.rules[k].chain[0];
      && head in All(st) && head.key == k && head.priority >= INT_MIN
      && forall r :: r in All(st) && r.key == k ==> r.priority <= head.priority
  {
    assert st.rules[k].chain[0] in st.rules[k].chain;
  }

  /** The loop of classifier_remove that looks for the highest priority among the heads of
      the lists, each of which has the highest priority of its list. */
  method FindMax(st: Subtable) returns (maxPriority: int, maxCount: nat)
    requires ChainsOK(st) && st.rules != map[]
    ensures MaxOK(All(st), maxPriority, maxCount)
  {
    hide All, Ordered, DistinctIds;
    forall r | r in All(st) ensures r.key in st.rules {
      AllByKey(st, r);
    }
    maxPriority, maxCount := INT_MIN, 0;
    var todo := st.rules.Keys;
    ghost var heads: set<Rule> := {};
    while todo != {}
      invariant todo <= st.rules.Keys
      invariant if todo == st.rules.Keys then maxPriority == INT_MIN else maxCount >= 1
      invariant heads <= Top(All(st), maxPriority) && |heads| == maxCount
      invariant forall r :: r in heads ==> r.key !in todo
      invariant forall r :: r in All(st) && r.key !in todo ==> r.priority <= maxPriority
      decreases |todo|
    {
      var k :| k in todo;
      HeadIsTop(st, k);
      var head := st.rules[k].chain[0];
      todo := todo - {k};
      if head.priority > maxPriority {
        maxPriority, maxCount, heads := head.priority, 1, {head};
      } else if head.priority == maxPriority {
        maxCount, heads := maxCount + 1, heads + {head};
      }
    }
    assert |heads| <= |Top(All(st), maxPriority)| by {
      Subset(heads, Top(All(st), maxPriority));
    }
  }

  lemma Subset(a: set<Rule>, b: set<Rule>)
    requires a <= b
    ensures |a| <= |b|
  {
    assert b == a + (b - a);
  }

  // One rule at a time

  /** The list scan of classifier_replace. */
  method FindPosition(chain: seq<Rule>, rule: Rule) returns (n: nat)
    ensures n == Position(chain, rule, 0)
  {
    n := 0;
    while n < |chain| && !(rule.priority > chain[n].priority || Displaces(rule, chain[n]))
      invariant n <= |chain| && Position(chain, rule, 0) == Position(chain, rule, n)
    {
      n := n + 1;
    }
  }

  /** The rule of a subtable that a new one takes the place of. */
  function DisplacedIn(st: Subtable, rule: Rule): Option<Rule> {
    if rule.key in st.rules then Displaced(st.rules[rule.key].chain, rule) else None
  }

  function AsSet(r: Option<Rule>): set<Rule> {
    if r.Some? then {r.value} else {}
  }

  ghost predicate Unused(rules: set<Rule>, id: nat) {
    forall r :: r in rules ==> r.id != id
  }

  /** The rule list of a match that the subtable has, with one more rule. */
  method AddToMatch(l: Layout, st: Subtable, rule: Rule) returns (st': Subtable, displaced: Option<Rule>)
    requires Consistent(l, st) && rule.key in st.rules && rule.mask == st.mask
    requires rule.priority >= INT_MIN && Unused(All(st), rule.id)
    ensures Consistent(l, st') && SameShape(st, st') && st'.rules.Keys == st.rules.Keys
    ensures st'.maxPriority == st.maxPriority && st'.maxCount == st.maxCount
    ensures All(st') == All(st) + {rule} - AsSet(displaced)
    ensures displaced == DisplacedIn(st, rule)
    ensures displaced.Some? <==> exists r :: r in All(st) && r.key == rule.key && Displaces(rule, r)
    ensures displaced.Some? ==>
      displaced.value in All(st) && displaced.value.key == rule.key && Displaces(rule, displaced.value)
  {
    var chain := st.rules[rule.key].chain;
    assert ChainOK(chain, st.mask, rule.key);
    forall r {:trigger r in chain} ensures r in chain <==> r in All(st) && r.key == rule.key {
      AllByKey(st, r);
    }
    hide Shape, HashesOK, IndexCounts, PortsCounts, All;
    var n := FindPosition(chain, rule);
    var chain';
    if n < |chain| && chain[n].priority == rule.priority {
      displaced, chain' := Some(chain[n]), chain[n := rule];
    } else {
      displaced, chain' := None, chain[..n] + [rule] + chain[n..];
    }
    assert chain' == Added(chain, rule) && displaced == Displaced(chain, rule);
    AddedKeeps(chain, rule, st.mask, rule.key);
    DisplacedIff(chain, rule);
    assert AsSet(displaced) <= Members(chain);
    hide Members, Ordered, DistinctIds, Position;
    st' := WithChain(st, rule.key, chain');
    WithChainKeeps(l, st, rule.key, chain');
    AllWithChain(st, rule.key, chain');
    MembersAreRules(st, rule.key);
    AddInside(All(st), Members(chain), rule, AsSet(displaced));
  }

  function WithMax(st: Subtable, p: int, c: nat): Subtable {
    st.(maxPriority := p, maxCount := c)
  }

  lemma WithMaxKeeps(l: Layout, st: Subtable, p: int, c: nat)
    requires Consistent(l, st)
    ensures Consistent(l, WithMax(st, p, c)) && All(WithMax(st, p, c)) == All(st)
  {
  }

  lemma FirstMax(rule: Rule)
    ensures MaxOK({rule}, rule.priority, 1)
  {
    assert Top({rule}, rule.priority) == {rule};
  }

  /** What classifier_replace does to the subtable of the rule's mask. */
  method AddRule(l: Layout, st: Subtable, rule: Rule) returns (st': Subtable, displaced: Option<Rule>)
    requires Consistent(l, st) && (st.rules == map[] || MaxOK(All(st), st.maxPriority, st.maxCount))
    requires rule.mask == st.mask && rule.key <= rule.mask && rule.priority >= INT_MIN
    requires Unused(All(st), rule.id)
    ensures Consistent(l, st') && MaxOK(All(st'), st'.maxPriority, st'.maxCount)
    ensures SameShape(st, st') && st'.rules.Keys == st.rules.Keys + {rule.key}
    ensures All(st') == All(st) + {rule} - AsSet(displaced)
    ensures displaced == DisplacedIn(st, rule)
    ensures displaced.Some? <==> exists r :: r in All(st) && r.key == rule.key && Displaces(rule, r)
    ensures displaced.Some? ==>
      displaced.value in All(st) && displaced.value.key == rule.key && Displaces(rule, displaced.value)
  {
    hide Consistent, All;
    var mid;
    mid, displaced := AddUnranked(l, st, rule);
    var p, c := mid.maxPriority, mid.maxCount;
    if displaced.Some? {
      MaxSwapped(All(st), displaced.value, rule, p, c);
      assert All(mid) == All(st) - {displaced.value} + {rule};
    } else if st.rules == map[] {
      NoRules(st);
      FirstMax(rule);
      assert All(mid) == {rule};
      p, c := rule.priority, 1;
    } else {
      MaxAdded(All(st), rule, p, c);
      assert All(mid) == All(st) + {rule};
      if rule.priority == p {
        c := c + 1;
      } else if rule.priority > p {
        p, c := rule.priority, 1;
      }
    }
    st' := WithMax(mid, p, c);
    WithMaxKeeps(l, mid, p, c);
  }

  lemma NoRules(st: Subtable)
    requires st.rules == map[]
    ensures All(st) == {}
  {
  }

  /** The part of classifier_replace that leaves the highest priority as it was. */
  method AddUnranked(l: Layout, st: Subtable, rule: Rule) returns (st': Subtable, displaced: Option<Rule>)
    requires Consistent(l, st)
    requires rule.mask == st.mask && rule.key <= rule.mask && rule.priority >= INT_MIN
    requires Unused(All(st), rule.id)
    ensures Consistent(l, st') && SameShape(st, st') && st'.rules.Keys == st.rules.Keys + {rule.key}
    ensures st'.maxPriority == st.maxPriority && st'.maxCount == st.maxCount
    ensures All(st') == All(st) + {rule} - AsSet(displaced)
    ensures displaced == DisplacedIn(st, rule)
    ensures displaced.Some? <==> exists r :: r in All(st) && r.key == rule.key && Displaces(rule, r)
    ensures displaced.Some? ==> st.rules != map[]
    ensures displaced.Some? ==>
      displaced.value in All(st) && displaced.value.key == rule.key && Displaces(rule, displaced.value)
  {
    if rule.key in st.rules {
      st', displaced := AddToMatch(l, st, rule);
    } else {
      st' := AddMatch(l, st, rule);
      AllAdded(st, st', rule, st'.rules[rule.key].hash);
      displaced := None;
      forall r | r in All(st) ensures r.key != rule.key {
        AllByKey(st, r);
      }
    }
  }

  lemma CutChain(chain: seq<Rule>, i: nat, mask: Mask, key: Flow)
    requires ChainOK(chain, mask, key) && i < |chain| && |chain| > 1
    ensures ChainOK(chain[..i] + chain[i + 1..], mask, key)
    ensures Members(chain[..i] + chain[i + 1..]) == Members(chain) - {chain[i]}
  {
  }

  /** The part of classifier_remove that leaves the highest priority as it was. */
  method RemoveUnranked(l: Layout, st: Subtable, rule: Rule) returns (st': Subtable)
    requires Consistent(l, st) && rule in All(st)
    ensures Consistent(l, st') && SameShape(st, st') && All(st') == All(st) - {rule}
    ensures st'.maxPriority == st.maxPriority && st'.maxCount == st.maxCount
    ensures rule.key in st.rules
    ensures st'.rules.Keys == st.rules.Keys - if |st.rules[rule.key].chain| == 1 then {rule.key} else {}
  {
    AllByKey(st, rule);
    var chain := st.rules[rule.key].chain;
    assert ChainOK(chain, st.mask, rule.key);
    hide Shape, HashesOK, IndexCounts, PortsCounts, All;
    var i := 0;
    while chain[i] != rule
      invariant i < |chain| && rule in chain[i..]
      decreases |chain| - i
    {
      i := i + 1;
    }
    if |chain| == 1 {
      st' := RemoveMatch(l, st, rule.key);
      AllRemoved(st, st', rule);
    } else {
      CutChain(chain, i, st.mask, rule.key);
      st' := WithChain(st, rule.key, chain[..i] + chain[i + 1..]);
      WithChainKeeps(l, st, rule.key, chain[..i] + chain[i + 1..]);
      AllWithChain(st, rule.key, chain[..i] + chain[i + 1..]);
      MembersAreRules(st, rule.key);
    }
  }

  lemma MembersAreRules(st: Subtable, key: Flow)
    requires key in st.rules
    ensures Members(st.rules[key].chain) <= All(st)
  {
  }

  /** What classifier_remove does to the subtable of the rule's mask. */
  method RemoveRule(l: Layout, st: Subtable, rule: Rule) returns (st': Subtable)
    requires Consistent(l, st) && MaxOK(All(st), st.maxPriority, st.maxCount) && rule in All(st)
    ensures Consistent(l, st') && SameShape(st, st') && All(st') == All(st) - {rule}
    ensures st'.rules == map[] || MaxOK(All(st'), st'.maxPriority, st'.maxCount)
    ensures rule.key in st.rules
    ensures st'.rules.Keys == st.rules.Keys - if |st.rules[rule.key].chain| == 1 then {rule.key} else {}
  {
    st' := RemoveUnranked(l, st, rule);
    MaxRemoved(All(st), rule, st.maxPriority, st.maxCount);
    if st'.rules != map[] && st'.maxPriority == rule.priority {
      var mid := st';
      var p, c := mid.maxPriority, mid.maxCount - 1;
      if c == 0 {
        p, c := FindMax(mid);
      }
      st' := WithMax(mid, p, c);
      WithMaxKeeps(l, mid, p, c);
    }
  }

  /** Sets the version that a rule is removed in, leaving everything else in place. */
  method SetRemoved(l: Layout, st: Subtable, rule: Rule, removed: nat) returns (st': Subtable)
    requires Consistent(l, st) && MaxOK(All(st), st.maxPriority, st.maxCount) && rule in All(st)
    requires forall r :: r in All(st) && r.id == rule.id ==> r == rule
    ensures Consistent(l, st') && MaxOK(All(st'), st'.maxPriority, st'.maxCount)
    ensures SameShape(st, st') && st'.rules.Keys == st.rules.Keys
    ensures st'.maxPriority == st.maxPriority
    ensures All(st') == All(st) - {rule} + {rule.(removed := removed)}
  {
    AllByKey(st, rule);
    var rule' := rule.(removed := removed);
    var chain := st.rules[rule.key].chain;
    assert ChainOK(chain, st.mask, rule.key);
    hide Shape, HashesOK, IndexCounts, PortsCounts;
    assert rule in Members(chain);
    hide All, MaxOK, Members;
    var i :| 0 <= i < |chain| && chain[i] == rule;
    RewriteMember(chain, i, rule', st.mask, rule.key);
    st' := WithChain(st, rule.key, chain[i := rule']);
    WithChainKeeps(l, st, rule.key, chain[i := rule']);
    AllWithChain(st, rule.key, chain[i := rule']);
    MembersAreRules(st, rule.key);
    SwapInside(All(st), Members(chain), rule, rule');
    if rule' != rule {
      MaxSwapped(All(st), rule, rule', st.maxPriority, st.maxCount);
    } else {
      assert All(st) - {rule} + {rule'} == All(st);
    }
  }

  lemma AddInside(all: set<Rule>, some: set<Rule>, rule: Rule, gone: set<Rule>)
    requires some <= all && gone <= some
    ensures all - some + (some + {rule} - gone) == all + {rule} - gone
  {
  }

  lemma SwapInside(all: set<Rule>, some: set<Rule>, rule: Rule, rule': Rule)
    requires some <= all && rule in some
    ensures all - some + (some - {rule} + {rule'}) == all - {rule} + {rule'}
  {
  }

  lemma RewriteMember(chain: seq<Rule>, i: nat, rule: Rule, mask: Mask, key: Flow)
    requires ChainOK(chain, mask, key) && i < |chain|
    requires rule == chain[i].(removed := rule.removed)
    ensures ChainOK(chain[i := rule], mask, key)
    ensures Members(chain[i := rule]) == Members(chain) - {chain[i]} + {rule}
  {
    var chain' := chain[i := rule];
    assert chain'[i] == rule;
    forall r | r in chain && r != chain[i] ensures r in chain' {
      var a :| 0 <= a < |chain| && chain[a] == r;
      assert chain'[a] == r;
    }
  }
}
