/** When the ports trie may stand in for the ports of a mask (find_match_wc in
    lib/classifier.c).  A search that misses in the last stage reports, of that stage, only
    the leading port bits that the trie looked at.  That settles the outcome for every
    subtable exactly when the last stage has no other bits than ports. */
module PortsShortcut {
  import opened Options
  import opened Flows
  import opened Subtables
  import Trie

  /** The reported bits settle the outcome of a search, whatever the subtable and the prefix tries
      hold and earlier searches have reported. */
  ghost predicate AlwaysSettled(l: Layout, mask: Mask, version: nat) {
    forall st: Subtable, tries: seq<Trie.Tree>, wc: Mask, f: Flow, g: Flow ::
      st.mask == mask && Searchable(l, st, tries) && Agree(l, st, tries, wc, version, f, g) ==>
        Best(st, f, version, {}) == Best(st, g, version, {})
  }

  /** The flows agree on the bits that are reported for the first of them. */
  ghost predicate Agree(l: Layout, st: Subtable, tries: seq<Trie.Tree>, wc: Mask, version: nat, f: Flow, g: Flow)
    requires Searchable(l, st, tries)
  {
    f * Looked(l, st, tries, f, version, {}, wc) == g * Looked(l, st, tries, f, version, {}, wc)
  }

  lemma {:induction false} MissDecides(l: Layout, st: Subtable, tries: seq<Trie.Tree>, f: Flow, wc: Mask, i: nat)
    requires Searchable(l, st, tries) && i <= |st.indices| && MissLooked(l, st, tries, f, wc, i).Some?
    ensures Refuted(st, f, MissLooked(l, st, tries, f, wc, i).value)
    decreases |st.indices| - i
  {
    hide Refuted, TrieSkips, HashesOK, PortsStored, StageHash;
    var j := FirstSkip(l, st, tries, st.stages[i], f, wc, 0);
    if j < |tries| {
      SkipsRefute(l, st, tries, st.stages[i], f, wc, j);
      RefutedGrows(st, f, wc + TrieBits(l, tries[j], f, j), MissLooked(l, st, tries, f, wc, i).value);
    } else if i < |st.indices| && StageHash(l, f, st.mask, st.stages, i) !in st.indices[i] {
      StageRefutes(l, st, f, i);
      RefutedGrows(st, f, Within(st.mask, Concat(st.stages[..i + 1])), MissLooked(l, st, tries, f, wc, i).value);
    } else {
      MissDecides(l, st, tries, f, wc, i + 1);
    }
  }

  lemma LookedDecides(l: Layout, st: Subtable, tries: seq<Trie.Tree>, f: Flow, wc: Mask, version: nat)
    requires Searchable(l, st, tries) && SafePorts(l, st.mask)
    ensures Decided(st, f, Looked(l, st, tries, f, version, {}, wc))
  {
    if MissLooked(l, st, tries, f, wc, 0).Some? {
      MissDecides(l, st, tries, f, wc, 0);
    } else if Best(st, f, version, {}).None? && st.portsLen > 0 {
      PortsDecide(l, st, f, Looked(l, st, tries, f, version, {}, wc));
    }
  }

  // A subtable with one match, which has a bit outside the ports in its last stage.

  function OneRule(mask: Mask, key: Flow, version: nat): Rule {
    Rule(0, 0, mask, key, 0, version, version + 1)
  }

  function PrefixLens(l: Layout, mask: Mask): seq<nat> {
    seq(|l.fields|, j requires 0 <= j < |l.fields| => PrefixLen(mask, l.fields[j]))
  }

  function OneMatch(l: Layout, mask: Mask, key: Flow, version: nat): Subtable
    requires LayoutOK(l) && key <= mask && PortsLen(l, mask) > 0
  {
    StagesCover(l, mask);
    var stages := Stages(l, mask);
    var len := PortsLen(l, mask);
    Subtable(mask, stages, PrefixLens(l, mask), len,
             seq(|stages| - 1, i requires 0 <= i < |stages| - 1 => multiset{StageHash(l, key, mask, stages, i)}),
             Trie.Node(Value(key, Ports(l))[..len], 1, Trie.Null, Trie.Null),
             map[key := Head(FullHash(l, key, mask), [OneRule(mask, key, version)])], 0, 1)
  }

  lemma OneMatchPorts(l: Layout, mask: Mask, key: Flow, version: nat)
    requires LayoutOK(l) && key <= mask && PortsLen(l, mask) > 0
    ensures PortsStored(l, OneMatch(l, mask, key, version))
  {
  }

  /** A trie that has this prefix of both flows. */
  function BothPrefixes(field: Field, n: nat, a: Flow, b: Flow): Trie.Tree
    requires n <= field.bits
  {
    if n == 0 then Trie.Null
    else Trie.Inserted(Trie.Inserted(Trie.Null, Value(a, field)[..n]), Value(b, field)[..n])
  }

  lemma BothPrefixesStored(field: Field, n: nat, a: Flow, b: Flow)
    requires n <= field.bits
    ensures var t := BothPrefixes(field, n, a, b);
      && Trie.Valid(t) && Trie.Fits(t, field.bits)
      && (n > 0 ==> Trie.Count(t, Value(a, field)[..n]) > 0 && Trie.Stored(t, Value(b, field), n))
  {
    if n > 0 {
      var p, q := Value(a, field)[..n], Value(b, field)[..n];
      var t := Trie.Inserted(Trie.Null, p);
      Trie.InsertedValid(Trie.Null, p);
      Trie.InsertedValid(t, q);
      Trie.InsertedFits(Trie.Null, p, field.bits);
      Trie.InsertedFits(t, q, field.bits);
      Trie.InsertedCount(Trie.Null, p, p);
      Trie.InsertedCount(t, q, p);
      Trie.InsertedCount(t, q, q);
    }
  }

  /** Tries that have the prefixes of the match, and those of the flow without any bits. */
  function TriesFor(l: Layout, mask: Mask, key: Flow): seq<Trie.Tree>
    requires LayoutOK(l)
  {
    seq(|l.fields|, j requires 0 <= j < |l.fields| =>
      BothPrefixes(l.fields[j], PrefixLen(mask, l.fields[j]), key, {}))
  }

  lemma OneMatchSearchable(l: Layout, mask: Mask, key: Flow, version: nat)
    requires LayoutOK(l) && Fitting(l, mask) && key <= mask && PortsLen(l, mask) > 0
    ensures Searchable(l, OneMatch(l, mask, key, version), TriesFor(l, mask, key))
  {
    hide Trie.Valid, Trie.Fits, Trie.Count, BothPrefixes;
    OneMatchPorts(l, mask, key, version);
    forall j | 0 <= j < |l.fields|
      ensures var n, t := PrefixLen(mask, l.fields[j]), TriesFor(l, mask, key)[j];
        && Trie.Valid(t) && Trie.Fits(t, l.fields[j].bits)
        && (n > 0 ==> Trie.Count(t, Value(key, l.fields[j])[..n]) > 0)
    {
      BothPrefixesStored(l.fields[j], PrefixLen(mask, l.fields[j]), key, {});
    }
  }

  lemma NoTrieSkips(l: Layout, mask: Mask, key: Flow, version: nat, words: seq<nat>, j: nat)
    requires LayoutOK(l) && key <= mask && PortsLen(l, mask) > 0 && j < |l.fields|
    ensures !TrieSkips(l, OneMatch(l, mask, key, version), TriesFor(l, mask, key)[j], words, {}, {}, j)
  {
    BothPrefixesStored(l.fields[j], PrefixLen(mask, l.fields[j]), key, {});
  }

  lemma {:induction false} MaskWordsIncrease(mask: Mask, lo: nat, hi: nat, i: nat, j: nat)
    requires lo <= hi && i < j < |MaskWords(mask, lo, hi)|
    ensures lo <= MaskWords(mask, lo, hi)[i] < MaskWords(mask, lo, hi)[j]
    decreases hi - lo
  {
    var rest := MaskWords(mask, lo + 1, hi);
    var d := |MaskWords(mask, lo, hi)| - |rest|;
    if i >= d {
      MaskWordsIncrease(mask, lo + 1, hi, i - d, j - d);
    } else {
      MaskWordsMembers(mask, lo + 1, hi, rest[j - d]);
    }
  }

  /** A bit of the last stage is in no earlier one. */
  lemma LastStageIsNew(l: Layout, mask: Mask, b: nat)
    requires LayoutOK(l) && Stages(l, mask) != []
    requires var stages := Stages(l, mask); WordOf(b) in stages[|stages| - 1]
    ensures var stages := Stages(l, mask); WordOf(b) !in Concat(stages[..|stages| - 1])
  {
    var stages := Stages(l, mask);
    var n := |stages| - 1;
    var before, last := Concat(stages[..n]), stages[n];
    StagesCover(l, mask);
    ConcatOne(stages[..n], last);
    assert stages == stages[..n] + [last];
    if WordOf(b) in before {
      var i :| 0 <= i < |before| && before[i] == WordOf(b);
      var j :| 0 <= j < |last| && last[j] == WordOf(b);
      MaskWordsIncrease(mask, 0, l.words, i, |before| + j);
    }
  }

  lemma {:induction false} ConcatGrows(stages: seq<seq<nat>>, i: nat, j: nat, w: nat)
    requires i <= j <= |stages| && w in Concat(stages[..i])
    ensures w in Concat(stages[..j])
    decreases j - i
  {
    if i < j {
      ConcatGrows(stages, i, j - 1, w);
      assert stages[..j] == stages[..j - 1] + [stages[j - 1]];
      ConcatOne(stages[..j - 1], stages[j - 1]);
    }
  }

  /** A flow that differs from the match only in the last stage is a hit in every index. */
  lemma {:induction false} NoStageMisses(l: Layout, mask: Mask, b: nat, version: nat, i: nat)
    requires LayoutOK(l) && b in mask && PortsLen(l, mask) > 0 && Stages(l, mask) != []
    requires var stages := Stages(l, mask); WordOf(b) in stages[|stages| - 1]
    requires i <= |Stages(l, mask)| - 1
    ensures MissLooked(l, OneMatch(l, mask, {b}, version), TriesFor(l, mask, {b}), {}, {}, i).None?
    decreases |Stages(l, mask)| - i
  {
    hide Stages, TrieSkips, StageHash, FullHash, BothPrefixes;
    var stages := Stages(l, mask);
    var n := |stages| - 1;
    var j := FirstSkip(l, OneMatch(l, mask, {b}, version), TriesFor(l, mask, {b}), stages[i], {}, {}, 0);
    if j < |l.fields| {
      NoTrieSkips(l, mask, {b}, version, stages[i], j);
    }
    if i < n {
      LastStageIsNew(l, mask, b);
      var words := Concat(stages[..i + 1]);
      if WordOf(b) in words {
        ConcatGrows(stages, i + 1, n, WordOf(b));
      }
      assert {b} * Within(mask, words) == {} * Within(mask, words);
      StageHashAgrees(l, {b}, {}, mask, stages, i);
      NoStageMisses(l, mask, b, version, i + 1);
    }
  }

  lemma OneMatchOutcomes(l: Layout, mask: Mask, b: nat, version: nat)
    requires LayoutOK(l) && b in mask && PortsLen(l, mask) > 0
    ensures Best(OneMatch(l, mask, {b}, version), {}, version, {}) == None
    ensures Best(OneMatch(l, mask, {b}, version), {b}, version, {}) == Some(OneRule(mask, {b}, version))
  {
    hide StageHash, FullHash, Stages;
    assert {} * mask == {} && {b} * mask == {b};
    var st := OneMatch(l, mask, {b}, version);
    assert b in {b} && {} != {b};
    assert st.rules[{b}].chain[0] == OneRule(mask, {b}, version);
  }

  lemma OneMatchLooked(l: Layout, mask: Mask, b: nat, version: nat)
    requires LayoutOK(l) && b in mask && PortsLen(l, mask) > 0 && Stages(l, mask) != []
    requires var stages := Stages(l, mask); WordOf(b) in stages[|stages| - 1]
    requires b !in PrefixMask(Ports(l), PORTS_BITS)
    ensures var st := OneMatch(l, mask, {b}, version);
      |st.indices| < |st.stages| && b !in Looked(l, st, TriesFor(l, mask, {b}), {}, version, {}, {})
  {
    hide StageHash, FullHash, Stages;
    var st := OneMatch(l, mask, {b}, version);
    NoStageMisses(l, mask, b, version, 0);
    LastStageIsNew(l, mask, b);
    OneMatchOutcomes(l, mask, b, version);
    OneMatchPorts(l, mask, {b}, version);
    var none: Flow := {};
    Trie.MaskBitsFit(st.ports, Value(none * mask, Ports(l)));
  }

  /** Any bit other than a port in the last stage makes the shortcut miss it. */
  lemma UnsafeFails(l: Layout, mask: Mask, version: nat)
    requires LayoutOK(l) && Fitting(l, mask) && !SafePorts(l, mask)
    ensures !AlwaysSettled(l, mask, version)
  {
    StagesCover(l, mask);
    var stages := Stages(l, mask);
    var b :| b in Within(mask, stages[|stages| - 1]) && b !in PrefixMask(Ports(l), PORTS_BITS);
    OneMatchSearchable(l, mask, {b}, version);
    OneMatchOutcomes(l, mask, b, version);
    OneMatchLooked(l, mask, b, version);
    hide Looked, Best, Searchable, Stages;
    var st, tries, f: Flow, g: Flow := OneMatch(l, mask, {b}, version), TriesFor(l, mask, {b}), {}, {b};
    assert Agree(l, st, tries, {}, version, f, g);
  }

  /** The exact condition, whichever fields have prefix tries. */
  lemma SafePortsExact(l: Layout, mask: Mask, version: nat)
    requires LayoutOK(l) && Fitting(l, mask)
    ensures SafePorts(l, mask) <==> AlwaysSettled(l, mask, version)
  {
    if SafePorts(l, mask) {
      forall st: Subtable, tries: seq<Trie.Tree>, wc: Mask, f: Flow, g: Flow |
        st.mask == mask && Searchable(l, st, tries) && Agree(l, st, tries, wc, version, f, g)
        ensures Best(st, f, version, {}) == Best(st, g, version, {})
      {
        LookedDecides(l, st, tries, f, wc, version);
        DecidedForAll(st, f, g, Looked(l, st, tries, f, version, {}, wc), version, {});
      }
    } else {
      UnsafeFails(l, mask, version);
    }
  }
}
