/** Flows, masks and the staged hashes of the classifier (lib/classifier-private.h).
    A flow is the set of positions of its 1-bits, and so is a mask: masking is intersection,
    and two flows agree on a mask when their intersections with it are equal.  Positions
    are numbered from the most significant bit of the first word, 64 to a word. */
module Flows {
  import opened Trie

  type Flow = set<nat>
  type Mask = set<nat>

  /** A field of a flow, most significant bit first. */
  datatype Field = Field(ofs: nat, bits: nat)

  const PORTS_BITS: nat := 32

  /** What a classifier is configured with: the size of a flow, where its segments end, the
      fields that have a prefix trie, where the two 16-bit ports are, the hash functions,
      and whether a flow meets the prerequisites of a trie field. */
  datatype Layout = Layout(words: nat, segments: seq<nat>, fields: seq<Field>, ports: nat,
                           add: (nat, set<nat>) -> nat, finish: (nat, nat) -> nat,
                           prereqs: (nat, Flow) -> bool)

  predicate LayoutOK(l: Layout) {
    && (forall i :: 0 <= i < |l.segments| ==> l.segments[i] <= l.words)
    && (forall i, j :: 0 <= i <= j < |l.segments| ==> l.segments[i] <= l.segments[j])
    && (forall j :: 0 <= j < |l.fields| ==> l.fields[j].bits > 0)
  }

  function WordOf(bit: nat): nat {
    bit / 64
  }

  /** Whether a mask fits in the flow. */
  predicate Fitting(l: Layout, mask: Mask) {
    forall b :: b in mask ==> WordOf(b) < l.words
  }

  // Words of a mask

  /** The words from `lo` up to `hi` in which `mask` has a bit. */
  function MaskWords(mask: Mask, lo: nat, hi: nat): seq<nat>
    requires lo <= hi
    decreases hi - lo
  {
    if lo == hi then []
    else (if exists b :: b in mask && WordOf(b) == lo then [lo] else []) + MaskWords(mask, lo + 1, hi)
  }

  lemma {:induction false} MaskWordsMembers(mask: Mask, lo: nat, hi: nat, w: nat)
    requires lo <= hi
    ensures w in MaskWords(mask, lo, hi) <==> lo <= w < hi && exists b :: b in mask && WordOf(b) == w
    decreases hi - lo
  {
    if lo < hi {
      MaskWordsMembers(mask, lo + 1, hi, w);
    }
  }

  lemma {:induction false} MaskWordsJoin(mask: Mask, lo: nat, mid: nat, hi: nat)
    requires lo <= mid <= hi
    ensures MaskWords(mask, lo, mid) + MaskWords(mask, mid, hi) == MaskWords(mask, lo, hi)
    decreases mid - lo
  {
    if lo < mid {
      MaskWordsJoin(mask, lo + 1, mid, hi);
    }
  }

  /** The bits of a mask that lie in the given words. */
  function Within(mask: Mask, words: seq<nat>): Mask {
    set b | b in mask && WordOf(b) in words
  }

  // Stages

  function Concat(stages: seq<seq<nat>>): seq<nat> {
    if stages == [] then [] else Concat(stages[..|stages| - 1]) + stages[|stages| - 1]
  }

  function Start(l: Layout, i: nat): nat
    requires i <= |l.segments|
  {
    if i == 0 then 0 else l.segments[i - 1]
  }

  /** The stages of the first `n` segments: one for each segment that has mask bits. */
  function SegmentStages(l: Layout, mask: Mask, n: nat): seq<seq<nat>>
    requires LayoutOK(l) && n <= |l.segments|
  {
    if n == 0 then []
    else
      var words := MaskWords(mask, Start(l, n - 1), l.segments[n - 1]);
      SegmentStages(l, mask, n - 1) + if words == [] then [] else [words]
  }

  /** All stages.  The last takes the words after the last segment; if there are none, it
      is the last of the segments that has mask bits. */
  function Stages(l: Layout, mask: Mask): seq<seq<nat>>
    requires LayoutOK(l)
  {
    var stages := SegmentStages(l, mask, |l.segments|);
    var last := MaskWords(mask, Start(l, |l.segments|), l.words);
    if stages != [] && last == [] then stages else stages + [last]
  }

  lemma ConcatOne(stages: seq<seq<nat>>, words: seq<nat>)
    ensures Concat(stages + [words]) == Concat(stages) + words
  {
  }

  lemma {:induction false} SegmentStagesCover(l: Layout, mask: Mask, n: nat)
    requires LayoutOK(l) && n <= |l.segments|
    ensures Concat(SegmentStages(l, mask, n)) == MaskWords(mask, 0, Start(l, n))
  {
    if n > 0 {
      SegmentStagesCover(l, mask, n - 1);
      var words := MaskWords(mask, Start(l, n - 1), l.segments[n - 1]);
      ConcatOne(SegmentStages(l, mask, n - 1), words);
      MaskWordsJoin(mask, 0, Start(l, n - 1), l.segments[n - 1]);
      if words == [] {
        assert SegmentStages(l, mask, n) == SegmentStages(l, mask, n - 1);
      }
    }
  }

  /** Between them the stages take every word of the mask, in order. */
  lemma StagesCover(l: Layout, mask: Mask)
    requires LayoutOK(l)
    ensures Stages(l, mask) != []
    ensures Concat(Stages(l, mask)) == MaskWords(mask, 0, l.words)
  {
    var n := |l.segments|;
    SegmentStagesCover(l, mask, n);
    ConcatOne(SegmentStages(l, mask, n), MaskWords(mask, Start(l, n), l.words));
    MaskWordsJoin(mask, 0, Start(l, n), l.words);
  }

  lemma AllWords(l: Layout, mask: Mask)
    requires LayoutOK(l) && Fitting(l, mask)
    ensures Within(mask, Concat(Stages(l, mask))) == mask
  {
    StagesCover(l, mask);
    forall b | b in mask ensures WordOf(b) in MaskWords(mask, 0, l.words) {
      MaskWordsMembers(mask, 0, l.words, WordOf(b));
    }
  }

  /** The stages loop of insert_subtable. */
  method ComputeStages(l: Layout, mask: Mask) returns (stages: seq<seq<nat>>)
    requires LayoutOK(l)
    ensures stages == Stages(l, mask)
  {
    stages := [];
    var prev := 0;
    for i := 0 to |l.segments|
      invariant stages == SegmentStages(l, mask, i) && prev == Start(l, i)
    {
      var words := MaskWords(mask, prev, l.segments[i]);
      if words != [] {
        stages := stages + [words];
      }
      prev := l.segments[i];
    }
    stages := stages + [MaskWords(mask, prev, l.words)];
    var index := |stages| - 1;
    if index > 0 && stages[index] == [] {
      stages := stages[..index];
    }
  }

  // Hashes

  /** The masked part of a flow in one word. */
  function Chunk(f: Flow, mask: Mask, word: nat): set<nat> {
    set b | b in f && b in mask && WordOf(b) == word
  }

  /** hash_add64() over the given words of a masked flow. */
  function Fold(l: Layout, f: Flow, mask: Mask, words: seq<nat>, basis: nat): nat {
    if words == [] then basis
    else
      var n := |words| - 1;
      (l.add)(Fold(l, f, mask, words[..n], basis), Chunk(f, mask, words[n]))
  }

  lemma {:induction false} FoldJoin(l: Layout, f: Flow, mask: Mask, a: seq<nat>, b: seq<nat>, basis: nat)
    ensures Fold(l, f, mask, a + b, basis) == Fold(l, f, mask, b, Fold(l, f, mask, a, basis))
    decreases |b|
  {
    if b == [] {
      assert a + b == a;
    } else {
      var n := |b| - 1;
      assert (a + b)[..|a| + n] == a + b[..n];
      FoldJoin(l, f, mask, a, b[..n], basis);
    }
  }

  lemma {:induction false} FoldAgrees(l: Layout, f: Flow, g: Flow, mask: Mask, words: seq<nat>, basis: nat)
    requires f * Within(mask, words) == g * Within(mask, words)
    ensures Fold(l, f, mask, words, basis) == Fold(l, g, mask, words, basis)
  {
    if words != [] {
      var n := |words| - 1;
      forall b | b in Within(mask, words) ensures b in f <==> b in g {
        assert b in f * Within(mask, words) <==> b in g * Within(mask, words);
      }
      assert f * Within(mask, words[..n]) == g * Within(mask, words[..n]);
      FoldAgrees(l, f, g, mask, words[..n], basis);
      assert Chunk(f, mask, words[n]) == Chunk(g, mask, words[n]);
    }
  }

  /** The hash of the stages up to and including `i`. */
  function StageHash(l: Layout, f: Flow, mask: Mask, stages: seq<seq<nat>>, i: nat): nat
    requires i < |stages|
  {
    var words := Concat(stages[..i + 1]);
    (l.finish)(Fold(l, f, mask, words, 0), |words| * 8)
  }

  /** flow_hash_in_minimask(): the hash of all masked words at once. */
  function FullHash(l: Layout, f: Flow, mask: Mask): nat {
    var words := MaskWords(mask, 0, l.words);
    (l.finish)(Fold(l, f, mask, words, 0), |words| * 8)
  }

  /** The last of the staged hashes is the hash computed in one go. */
  lemma LastStageIsFullHash(l: Layout, f: Flow, mask: Mask)
    requires LayoutOK(l)
    ensures Stages(l, mask) != []
    ensures StageHash(l, f, mask, Stages(l, mask), |Stages(l, mask)| - 1) == FullHash(l, f, mask)
  {
    StagesCover(l, mask);
    var stages := Stages(l, mask);
    assert stages[..|stages|] == stages;
  }

  lemma StageHashAgrees(l: Layout, f: Flow, g: Flow, mask: Mask, stages: seq<seq<nat>>, i: nat)
    requires i < |stages|
    requires f * Within(mask, Concat(stages[..i + 1])) == g * Within(mask, Concat(stages[..i + 1]))
    ensures StageHash(l, f, mask, stages, i) == StageHash(l, g, mask, stages, i)
  {
    FoldAgrees(l, f, g, mask, Concat(stages[..i + 1]), 0);
  }

  /** flow_hash_in_minimask_range() and minimatch_hash_range(): the hash of one stage,
      continued from the unfinished hash and the word count of the stages before it. */
  method HashRange(l: Layout, f: Flow, mask: Mask, words: seq<nat>, offset: nat, basis: nat)
    returns (hash: nat, offset': nat, basis': nat)
    ensures basis' == Fold(l, f, mask, words, basis)
    ensures offset' == offset + |words|
    ensures hash == (l.finish)(basis', offset' * 8)
  {
    basis' := basis;
    for i := 0 to |words|
      invariant basis' == Fold(l, f, mask, words[..i], basis)
    {
      assert words[..i + 1][..i] == words[..i];
      basis' := (l.add)(basis', Chunk(f, mask, words[i]));
    }
    assert words[..|words|] == words;
    offset' := offset + |words|;
    hash := (l.finish)(basis', offset' * 8);
  }

  /** One more stage of a staged hash. */
  lemma NextStage(l: Layout, f: Flow, mask: Mask, stages: seq<seq<nat>>, i: nat)
    requires i < |stages|
    ensures Fold(l, f, mask, Concat(stages[..i + 1]), 0)
         == Fold(l, f, mask, stages[i], Fold(l, f, mask, Concat(stages[..i]), 0))
    ensures |Concat(stages[..i + 1])| == |Concat(stages[..i])| + |stages[i]|
  {
    assert stages[..i + 1] == stages[..i] + [stages[i]];
    ConcatOne(stages[..i], stages[i]);
    FoldJoin(l, f, mask, Concat(stages[..i]), stages[i], 0);
  }

  /** The hashes of all stages of a rule's match. */
  method StagedHashes(l: Layout, f: Flow, mask: Mask, stages: seq<seq<nat>>) returns (hashes: seq<nat>)
    ensures |hashes| == |stages|
    ensures forall i :: 0 <= i < |stages| ==> hashes[i] == StageHash(l, f, mask, stages, i)
  {
    hashes := [];
    var offset, basis := 0, 0;
    for i := 0 to |stages|
      invariant |hashes| == i
      invariant offset == |Concat(stages[..i])| && basis == Fold(l, f, mask, Concat(stages[..i]), 0)
      invariant forall k :: 0 <= k < i ==> hashes[k] == StageHash(l, f, mask, stages, k)
    {
      NextStage(l, f, mask, stages, i);
      var hash;
      hash, offset, basis := HashRange(l, f, mask, stages[i], offset, basis);
      hashes := hashes + [hash];
    }
  }

  // Fields

  function Value(f: Flow, field: Field): Bits {
    seq(field.bits, i requires 0 <= i => field.ofs + i in f)
  }

  function Range(lo: nat, n: nat): (r: set<nat>)
    ensures forall b :: b in r <==> lo <= b < lo + n
  {
    if n == 0 then {} else Range(lo, n - 1) + {lo + n - 1}
  }

  /** The first `n` bits of a field, as a mask. */
  function PrefixMask(field: Field, n: nat): Mask {
    Range(field.ofs, n)
  }

  lemma PrefixAgrees(f: Flow, g: Flow, field: Field, n: nat)
    requires n <= field.bits
    requires f * PrefixMask(field, n) == g * PrefixMask(field, n)
    ensures Value(f, field)[..n] == Value(g, field)[..n]
  {
    forall i | 0 <= i < n ensures Value(f, field)[i] == Value(g, field)[i] {
      var b := field.ofs + i;
      assert b in f * PrefixMask(field, n) <==> b in g * PrefixMask(field, n);
    }
  }

  function LeadingOnes(mask: Mask, field: Field, i: nat): (n: nat)
    requires i <= field.bits
    ensures i <= n <= field.bits
    ensures forall b :: field.ofs + i <= b < field.ofs + n ==> b in mask
    ensures n < field.bits ==> field.ofs + n !in mask
    decreases field.bits - i
  {
    if i == field.bits || field.ofs + i !in mask then i else LeadingOnes(mask, field, i + 1)
  }

  /** minimask_get_prefix_len(): the length of the mask's prefix on a field, or 0 if the
      mask of that field is not a prefix. */
  function PrefixLen(mask: Mask, field: Field): (n: nat)
    ensures n <= field.bits
    ensures PrefixMask(field, n) <= mask
    ensures n > 0 ==> PrefixMask(field, field.bits) * mask == PrefixMask(field, n)
    ensures n == 0 ==> forall k :: 0 < k <= field.bits ==> PrefixMask(field, field.bits) * mask != PrefixMask(field, k)
  {
    var n := LeadingOnes(mask, field, 0);
    if mask * Range(field.ofs + n, field.bits - n) == {} then
      assert forall b :: b in mask ==> b !in mask * Range(field.ofs + n, field.bits - n);
      n
    else
      NotAPrefix(mask, field, n);
      0
  }

  lemma NotAPrefix(mask: Mask, field: Field, n: nat)
    requires n < field.bits && field.ofs + n !in mask
    requires mask * Range(field.ofs + n, field.bits - n) != {}
    ensures forall k :: 0 < k <= field.bits ==> PrefixMask(field, field.bits) * mask != PrefixMask(field, k)
  {
    var b :| b in mask * Range(field.ofs + n, field.bits - n);
    forall k | 0 < k <= field.bits ensures PrefixMask(field, field.bits) * mask != PrefixMask(field, k) {
      assert b in PrefixMask(field, field.bits) * mask;
      assert field.ofs + n in PrefixMask(field, k) || b !in PrefixMask(field, k);
    }
  }

  // Ports

  function Ports(l: Layout): Field {
    Field(l.ports, PORTS_BITS)
  }

  /** The number of port bits up to and including the last one in the mask. */
  function LastOne(mask: Mask, field: Field, n: nat): (len: nat)
    requires n <= field.bits
    ensures len <= n
    ensures len > 0 ==> field.ofs + len - 1 in mask
    ensures forall b :: field.ofs + len <= b < field.ofs + n ==> b !in mask
  {
    if n == 0 || field.ofs + n - 1 in mask then n else LastOne(mask, field, n - 1)
  }

  function PortsLen(l: Layout, mask: Mask): nat {
    LastOne(mask, Ports(l), PORTS_BITS)
  }
}
