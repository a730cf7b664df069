/** The path-compressed prefix tree of lib/classifier.c, which tells a lookup which
    prefix lengths of an address can match any rule at all.

    The tree stands for a multiset of bit strings, given by the multiplicity `Count` of
    every string.  Insertion adds one occurrence and removal takes one away, through node
    splits, pruning and merging; a lookup reports exactly the lengths at which the value
    has a stored prefix, and a number of leading bits that determine this answer.
  */
module Trie {

  type Bits = seq<bool>

  /** TRIE_PREFIX_BITS: the most bits one node can hold. */
  const NODE_BITS: nat := 32

  /** A node, or the null pointer.  `left` and `right` are edges[0] and edges[1]. */
  datatype Tree = Null | Node(prefix: Bits, nRules: nat, left: Tree, right: Tree)

  function Edge(t: Tree, bit: bool): Tree
    requires t.Node?
  {
    if bit then t.right else t.left
  }

  function SetEdge(t: Tree, bit: bool, child: Tree): Tree
    requires t.Node?
  {
    if bit then t.(right := child) else t.(left := child)
  }

  predicate IsLeaf(t: Tree)
    requires t.Node?
  {
    t.left.Null? && t.right.Null?
  }

  /** How many times `key` is stored below `t`. */
  function Count(t: Tree, key: Bits): nat {
    match t
    case Null => 0
    case Node(prefix, n, _, _) =>
      if !(prefix <= key) then 0
      else if |prefix| == |key| then n
      else Count(Edge(t, key[|prefix|]), key[|prefix|..])
  }

  /** One step of the walk. */
  lemma CountStep(t: Tree, key: Bits)
    ensures t.Null? || !(t.prefix <= key) ==> Count(t, key) == 0
    ensures t.Node? && t.prefix == key ==> Count(t, key) == t.nRules
    ensures t.Node? && t.prefix <= key && |t.prefix| < |key| ==>
      Count(t, key) == Count(Edge(t, key[|t.prefix|]), key[|t.prefix|..])
  {
  }

  /** A subtree hanging off edge `bit`: nodes are neither empty nor too long, start with
      the bit of their edge, and lead to some rule. */
  predicate Hangs(t: Tree, bit: bool) {
    match t
    case Null => true
    case Node(prefix, n, left, right) =>
      && 0 < |prefix| <= NODE_BITS && prefix[0] == bit
      && (IsLeaf(t) ==> n > 0)
      && Hangs(left, false) && Hangs(right, true)
  }

  /** A whole tree.  Only its root may have no bits, and then it has no rules. */
  predicate Valid(t: Tree) {
    match t
    case Null => true
    case Node(prefix, n, left, right) =>
      && |prefix| <= NODE_BITS && (prefix == [] ==> n == 0)
      && (IsLeaf(t) ==> n > 0)
      && Hangs(left, false) && Hangs(right, true)
  }

  lemma HangsIsValid(t: Tree, bit: bool)
    requires Hangs(t, bit)
    ensures Valid(t)
  {
  }

  /** Number of leading bits two strings share. */
  function EqualBits(a: Bits, b: Bits): (n: nat)
    ensures n <= |a| && n <= |b| && a[..n] == b[..n]
    ensures n < |a| && n < |b| ==> a[n] != b[n]
  {
    if a == [] || b == [] || a[0] != b[0] then 0
    else
      var n := EqualBits(a[1..], b[1..]);
      assert a[..n + 1] == [a[0]] + a[1..][..n];
      assert b[..n + 1] == [b[0]] + b[1..][..n];
      n + 1
  }

  lemma PrefixIffEqualBits(a: Bits, b: Bits)
    ensures a <= b <==> EqualBits(a, b) == |a|
  {
  }

  /** Matching a string in two parts. */
  lemma PrefixInParts(p: Bits, q: Bits, key: Bits)
    ensures p + q <= key <==> p <= key && q <= key[|p|..]
    ensures p + q <= key ==> key[|p + q|..] == key[|p|..][|q|..]
  {
  }

  lemma SameTail(p: Bits, a: Bits, b: Bits)
    requires p <= a && p <= b
    ensures a == b <==> a[|p|..] == b[|p|..]
  {
  }

  // Insertion.

  /** trie_branch_create: a chain of nodes for `bits`, the last of which has n rules. */
  function Branch(bits: Bits, n: nat): (t: Tree)
    ensures t.Node? && (bits != [] ==> t.prefix != [] && t.prefix[0] == bits[0])
  {
    if |bits| <= NODE_BITS then Node(bits, n, Null, Null)
    else
      var sub := Branch(bits[NODE_BITS..], n);
      SetEdge(Node(bits[..NODE_BITS], 0, Null, Null), sub.prefix[0], sub)
  }

  lemma {:induction false} BranchHangs(bits: Bits, n: nat)
    requires bits != [] && n > 0
    ensures Hangs(Branch(bits, n), bits[0])
  {
    if |bits| > NODE_BITS {
      BranchHangs(bits[NODE_BITS..], n);
    }
  }

  lemma {:induction false} BranchCount(bits: Bits, n: nat, key: Bits)
    ensures Count(Branch(bits, n), key) == if key == bits then n else 0
  {
    if |bits| > NODE_BITS {
      var head, tail := bits[..NODE_BITS], bits[NODE_BITS..];
      assert bits == head + tail;
      if head <= key && |key| > NODE_BITS {
        assert key == head + key[NODE_BITS..];
        BranchCount(tail, n, key[NODE_BITS..]);
      }
    }
  }

  /** The split of a node whose prefix continues differently after `eq` bits. */
  function Split(t: Tree, bits: Bits, eq: nat): Tree
    requires t.Node? && eq < |t.prefix| && eq <= |bits|
  {
    var parent := Node(bits[..eq], if eq == |bits| then 1 else 0, Null, Null);
    var lower := t.(prefix := t.prefix[eq..]);
    var parent' := SetEdge(parent, t.prefix[eq], lower);
    if eq < |bits| then SetEdge(parent', !t.prefix[eq], Branch(bits[eq..], 1)) else parent'
  }

  function Inserted(t: Tree, bits: Bits): Tree {
    if t.Null? then Branch(bits, 1)
    else
      var eq := EqualBits(t.prefix, bits);
      if eq < |t.prefix| then Split(t, bits, eq)
      else if eq == |bits| then t.(nRules := t.nRules + 1)
      else SetEdge(t, bits[eq], Inserted(Edge(t, bits[eq]), bits[eq..]))
  }

  lemma SplitCount(t: Tree, bits: Bits, eq: nat, key: Bits)
    requires t.Node? && eq == EqualBits(t.prefix, bits) && eq < |t.prefix|
    ensures Count(Split(t, bits, eq), key) == Count(t, key) + if key == bits then 1 else 0
  {
    var p, head := t.prefix, bits[..eq];
    assert p == head + p[eq..];
    PrefixInParts(head, p[eq..], key);
    SplitEdges(t, bits, eq);
    if head <= key {
      SameTail(head, key, bits);
      if |key| > eq {
        if key[eq] == p[eq] {
          LowerCount(t, eq, key);
        } else if eq < |bits| {
          BranchCount(bits[eq..], 1, key[eq..]);
        }
      }
    }
  }

  lemma SplitEdges(t: Tree, bits: Bits, eq: nat)
    requires t.Node? && eq < |t.prefix| && eq <= |bits|
    ensures var r := Split(t, bits, eq);
      && r.Node? && r.prefix == bits[..eq] && r.nRules == (if eq == |bits| then 1 else 0)
      && Edge(r, t.prefix[eq]) == t.(prefix := t.prefix[eq..])
      && Edge(r, !t.prefix[eq]) == if eq < |bits| then Branch(bits[eq..], 1) else Null
  {
  }

  /** Shortening a node's prefix from the front, and the key with it. */
  lemma LowerCount(t: Tree, eq: nat, key: Bits)
    requires t.Node? && eq < |t.prefix| && t.prefix[..eq] <= key
    ensures Count(t.(prefix := t.prefix[eq..]), key[eq..]) == Count(t, key)
  {
  }

  lemma {:induction false} InsertedCount(t: Tree, bits: Bits, key: Bits)
    ensures Count(Inserted(t, bits), key) == Count(t, key) + if key == bits then 1 else 0
  {
    if t.Null? {
      BranchCount(bits, 1, key);
    } else {
      var p := t.prefix;
      var eq := EqualBits(p, bits);
      PrefixIffEqualBits(p, bits);
      if eq < |p| {
        SplitCount(t, bits, eq, key);
      } else if eq < |bits| {
        assert bits == p + bits[eq..];
        if p <= key && |key| > |p| {
          assert key == p + key[|p|..];
          InsertedCount(Edge(t, bits[eq]), bits[eq..], key[|p|..]);
        }
      } else {
        assert bits == p;
      }
    }
  }

  lemma SplitHangs(t: Tree, bits: Bits, eq: nat)
    requires t.Node? && eq == EqualBits(t.prefix, bits) && eq < |t.prefix| && bits != [] && Valid(t)
    ensures Valid(Split(t, bits, eq))
    ensures forall bit :: Hangs(t, bit) && bits[0] == bit ==> Hangs(Split(t, bits, eq), bit)
  {
    if eq < |bits| {
      BranchHangs(bits[eq..], 1);
    }
  }

  lemma {:induction false} InsertedHangs(t: Tree, bits: Bits, bit: bool)
    requires Hangs(t, bit) && bits != [] && bits[0] == bit
    ensures Hangs(Inserted(t, bits), bit)
  {
    if t.Null? {
      BranchHangs(bits, 1);
    } else {
      var eq := EqualBits(t.prefix, bits);
      if eq < |t.prefix| {
        HangsIsValid(t, bit);
        SplitHangs(t, bits, eq);
      } else if eq < |bits| {
        InsertedHangs(Edge(t, bits[eq]), bits[eq..], bits[eq]);
      }
    }
  }

  lemma InsertedValid(t: Tree, bits: Bits)
    requires Valid(t) && bits != []
    ensures Valid(Inserted(t, bits))
  {
    if t.Null? {
      BranchHangs(bits, 1);
      HangsIsValid(Branch(bits, 1), bits[0]);
    } else {
      var eq := EqualBits(t.prefix, bits);
      if eq < |t.prefix| {
        SplitHangs(t, bits, eq);
      } else if eq < |bits| {
        InsertedHangs(Edge(t, bits[eq]), bits[eq..], bits[eq]);
      }
    }
  }

  // Removal.

  /** One round of pruning: a node without rules and with at most one child goes away,
      merging with the child if the two fit in one node. */
  function Pruned(t: Tree): Tree
    requires t.Node?
  {
    if t.nRules > 0 || (t.left.Node? && t.right.Node?) then t
    else
      var next := if t.left.Node? then t.left else t.right;
      if next.Null? then Null
      else if |t.prefix| + |next.prefix| > NODE_BITS then t
      else next.(prefix := t.prefix + next.prefix)
  }

  function Removed(t: Tree, bits: Bits): Tree {
    if t.Null? || !(t.prefix <= bits) then t
    else if |t.prefix| == |bits| then
      if t.nRules == 0 then t else Pruned(t.(nRules := t.nRules - 1))
    else
      var bit := bits[|t.prefix|];
      var child := Edge(t, bit);
      var child' := Removed(child, bits[|t.prefix|..]);
      var t' := SetEdge(t, bit, child');
      if child.Node? && child'.Null? then Pruned(t') else t'
  }

  lemma PrunedCount(t: Tree, key: Bits)
    requires t.Node? && Hangs(t.left, false) && Hangs(t.right, true)
    ensures Count(Pruned(t), key) == Count(t, key)
  {
  }

  /** One step of a removal that goes below `t`. */
  lemma RemovedStep(t: Tree, bits: Bits)
    requires t.Node? && t.prefix <= bits && |t.prefix| < |bits|
    ensures var bit := bits[|t.prefix|];
      var child := Edge(t, bit);
      var child' := Removed(child, bits[|t.prefix|..]);
      var t' := SetEdge(t, bit, child');
      Removed(t, bits) == if child.Node? && child'.Null? then Pruned(t') else t'
  {
  }

  lemma {:induction false} RemovedCount(t: Tree, bits: Bits, key: Bits)
    requires Valid(t)
    ensures Count(Removed(t, bits), key) == if key == bits && Count(t, bits) > 0 then Count(t, key) - 1 else Count(t, key)
    decreases t, 1
  {
    if t.Node? && t.prefix <= bits {
      hide Count, Pruned;
      CountStep(t, key);
      CountStep(t, bits);
      var n := |t.prefix|;
      if n == |bits| {
        if t.nRules > 0 {
          var t' := t.(nRules := t.nRules - 1);
          CountStep(t', key);
          PrunedCount(t', key);
        }
      } else {
        RemovedBelow(t, bits, key);
      }
    } else {
      CountStep(t, bits);
    }
  }

  lemma RemovedBelow(t: Tree, bits: Bits, key: Bits)
    requires Valid(t) && t.Node? && t.prefix <= bits && |t.prefix| < |bits|
    ensures Count(Removed(t, bits), key) == if key == bits && Count(t, bits) > 0 then Count(t, key) - 1 else Count(t, key)
    decreases t, 0
  {
    hide Count, Pruned, Removed;
    CountStep(t, key);
    CountStep(t, bits);
    RemovedStep(t, bits);
    var n := |t.prefix|;
    var bit := bits[n];
    var child := Edge(t, bit);
    var t' := SetEdge(t, bit, Removed(child, bits[n..]));
    RemovedHangs(child, bits[n..], bit);
    HangsIsValid(child, bit);
    CountStep(t', key);
    PrunedCount(t', key);
    if t.prefix <= key && |key| > n {
      assert bits == t.prefix + bits[n..];
      assert key == t.prefix + key[n..];
      RemovedCount(child, bits[n..], key[n..]);
    }
  }

  lemma PrunedHangs(t: Tree)
    requires t.Node? && Hangs(t.left, false) && Hangs(t.right, true) && |t.prefix| <= NODE_BITS
    requires t.prefix == [] ==> t.nRules == 0
    ensures Valid(Pruned(t))
    ensures t.prefix != [] ==> Hangs(Pruned(t), t.prefix[0])
  {
  }

  lemma {:induction false} RemovedHangs(t: Tree, bits: Bits, bit: bool)
    requires Hangs(t, bit)
    ensures Hangs(Removed(t, bits), bit)
  {
    if t.Node? && t.prefix <= bits {
      if |t.prefix| == |bits| {
        if t.nRules > 0 {
          PrunedHangs(t.(nRules := t.nRules - 1));
        }
      } else {
        var b := bits[|t.prefix|];
        var child' := Removed(Edge(t, b), bits[|t.prefix|..]);
        RemovedHangs(Edge(t, b), bits[|t.prefix|..], b);
        PrunedHangs(SetEdge(t, b, child'));
      }
    }
  }

  lemma RemovedValid(t: Tree, bits: Bits)
    requires Valid(t)
    ensures Valid(Removed(t, bits))
  {
    if t.Node? && t.prefix <= bits {
      if |t.prefix| == |bits| {
        if t.nRules > 0 {
          PrunedHangs(t.(nRules := t.nRules - 1));
        }
      } else {
        var b := bits[|t.prefix|];
        var child' := Removed(Edge(t, b), bits[|t.prefix|..]);
        RemovedHangs(Edge(t, b), bits[|t.prefix|..], b);
        PrunedHangs(SetEdge(t, b, child'));
      }
    }
  }

  // Lookup.

  /** Every tree that is not empty stores something: there are no useless nodes. */
  lemma {:induction false} SomethingStored(t: Tree) returns (key: Bits)
    requires t.Node? && Valid(t)
    ensures Count(t, key) > 0
  {
    if t.nRules > 0 {
      key := t.prefix;
    } else {
      var bit := t.left.Null?;
      HangsIsValid(Edge(t, bit), bit);
      var rest := SomethingStored(Edge(t, bit));
      CountStep(Edge(t, bit), rest);
      key := t.prefix + rest;
      assert key[|t.prefix|..] == rest && key[|t.prefix|] == rest[0] == bit;
    }
  }

  /** The prefix lengths at which `value` has a stored prefix. */
  ghost predicate Stored(t: Tree, value: Bits, len: nat) {
    1 <= len <= |value| && Count(t, value[..len]) > 0
  }

  /** Every stored prefix has at most n bits. */
  predicate Fits(t: Tree, n: nat) {
    t.Node? ==> |t.prefix| <= n && Fits(t.left, n - |t.prefix|) && Fits(t.right, n - |t.prefix|)
  }

  /** How many leading bits of `value` decide which prefixes match. */
  function MaskBits(t: Tree, value: Bits): nat {
    if t.Null? then 0
    else
      var eq := EqualBits(t.prefix, value);
      if eq < |t.prefix| then eq + 1
      else if eq == |value| then |value|
      else
        var child := Edge(t, value[eq]);
        if child.Null? then if IsLeaf(t) then eq else eq + 1
        else eq + MaskBits(child, value[eq..])
  }

  lemma NodeNeedsBits(t: Tree, value: Bits)
    requires t.Node? && t.prefix != [] && value != []
    ensures MaskBits(t, value) > 0
  {
  }

  /** A trie of prefixes no longer than the field never asks for more bits than it has. */
  lemma {:induction false} MaskBitsFit(t: Tree, value: Bits)
    requires Fits(t, |value|)
    ensures MaskBits(t, value) <= |value|
  {
    if t.Node? {
      var eq := EqualBits(t.prefix, value);
      if eq == |t.prefix| && eq < |value| {
        MaskBitsFit(Edge(t, value[eq]), value[eq..]);
      }
    }
  }

  /** A lookup looks at least at the bits of every prefix it finds. */
  lemma {:induction false} StoredNeedsBits(t: Tree, value: Bits, len: nat)
    requires Stored(t, value, len)
    ensures MaskBits(t, value) >= len
  {
    var n := |t.prefix|;
    PrefixIffEqualBits(t.prefix, value);
    assert t.prefix <= value[..len] <= value;
    if n < len {
      Shortened(t.prefix, value, len);
      StoredNeedsBits(Edge(t, value[n]), value[n..], len - n);
    }
  }

  lemma {:induction false} BranchFits(bits: Bits, n: nat, max: nat)
    requires bits != [] && |bits| <= max
    ensures Fits(Branch(bits, n), max)
  {
    if |bits| > NODE_BITS {
      BranchFits(bits[NODE_BITS..], n, max - NODE_BITS);
    }
  }

  lemma {:induction false} InsertedFits(t: Tree, bits: Bits, max: nat)
    requires Fits(t, max) && bits != [] && |bits| <= max
    ensures Fits(Inserted(t, bits), max)
  {
    if t.Null? {
      BranchFits(bits, 1, max);
    } else {
      var eq := EqualBits(t.prefix, bits);
      if eq < |t.prefix| {
        if eq < |bits| {
          BranchFits(bits[eq..], 1, max - eq);
        }
      } else if eq < |bits| {
        InsertedFits(Edge(t, bits[eq]), bits[eq..], max - eq);
      }
    }
  }

  lemma {:induction false} RemovedFits(t: Tree, bits: Bits, max: nat)
    requires Fits(t, max)
    ensures Fits(Removed(t, bits), max)
  {
    if t.Node? && t.prefix <= bits && |t.prefix| < |bits| {
      RemovedFits(Edge(t, bits[|t.prefix|]), bits[|t.prefix|..], max - |t.prefix|);
    }
  }

  lemma NodeMaskBits(t: Tree, value: Bits)
    requires t.Node? && EqualBits(t.prefix, value) < |t.prefix|
    ensures MaskBits(t, value) == EqualBits(t.prefix, value) + 1
  {
  }

  /** Two values that agree on the bits a lookup reports have the same stored prefixes. */
  lemma {:induction false} AgreeingValues(t: Tree, value: Bits, other: Bits, len: nat)
    requires Valid(t) && |other| == |value| && MaskBits(t, value) <= |value|
    requires other[..MaskBits(t, value)] == value[..MaskBits(t, value)]
    requires len <= |value|
    ensures Count(t, value[..len]) == Count(t, other[..len])
  {
    hide Count, EqualBits, MaskBits;
    CountStep(t, value[..len]);
    CountStep(t, other[..len]);
    if t.Node? {
      var p, eq := t.prefix, EqualBits(t.prefix, value);
      if eq < |p| {
        NodeMaskBits(t, value);
        SharedMismatch(p, value, other);
        Mismatch(p, value, len);
        Mismatch(p, other, len);
      } else {
        AgreeingPrefix(t, value, other);
        if |p| < len {
          assert value[..len][|p|..] == value[|p|..][..len - |p|];
          assert other[..len][|p|..] == other[|p|..][..len - |p|];
          var child := Edge(t, value[eq]);
          CountStep(child, value[eq..][..len - |p|]);
          CountStep(Edge(t, other[eq]), other[eq..][..len - |p|]);
          if child.Node? {
            HangsIsValid(child, value[eq]);
            AgreeingValues(child, value[eq..], other[eq..], len - |p|);
          }
        } else {
          assert p <= value[..len] <==> |p| == len;
          assert p <= other[..len] <==> |p| == len;
        }
      }
    }
  }

  lemma Mismatch(p: Bits, value: Bits, len: nat)
    requires EqualBits(p, value) < |p| && len <= |value|
    ensures !(p <= value[..len])
  {
  }

  lemma SharedMismatch(p: Bits, value: Bits, other: Bits)
    requires EqualBits(p, value) < |p| && EqualBits(p, value) + 1 <= |value| && |other| == |value|
    requires other[..EqualBits(p, value) + 1] == value[..EqualBits(p, value) + 1]
    ensures EqualBits(p, other) < |p|
  {
    hide EqualBits;
    var eq := EqualBits(p, value);
    assert other[eq] == other[..eq + 1][eq] == value[..eq + 1][eq];
    PrefixIffEqualBits(p, other);
  }

  /** Past a node that matches, agreement carries over to the child on the value's side. */
  lemma AgreeingPrefix(t: Tree, value: Bits, other: Bits)
    requires Valid(t) && t.Node? && |other| == |value| && MaskBits(t, value) <= |value|
    requires other[..MaskBits(t, value)] == value[..MaskBits(t, value)]
    requires EqualBits(t.prefix, value) == |t.prefix|
    ensures t.prefix <= value && t.prefix <= other
    ensures |t.prefix| < |value| && !IsLeaf(t) ==> other[|t.prefix|] == value[|t.prefix|]
    ensures |t.prefix| < |value| ==>
      var child := Edge(t, value[|t.prefix|]);
      child.Node? ==>
        var k := MaskBits(child, value[|t.prefix|..]);
        k <= |value| - |t.prefix| && other[|t.prefix|..][..k] == value[|t.prefix|..][..k]
  {
    var n, m := |t.prefix|, MaskBits(t, value);
    PrefixIffEqualBits(t.prefix, value);
    assert other[..n] == other[..m][..n] == value[..m][..n] == value[..n];
    if n < |value| {
      var child := Edge(t, value[n]);
      if child.Node? {
        NodeNeedsBits(child, value[n..]);
        var k := MaskBits(child, value[n..]);
        assert other[n..][..k] == other[..m][n..] == value[..m][n..] == value[n..][..k];
      }
      if !IsLeaf(t) {
        assert n < m;
        assert other[n] == other[..m][n] == value[..m][n] == value[n];
      }
    }
  }

  // The loops of the source.  The edge pointers followed from the root are kept as the
  // list of nodes left behind, each with the bit of the edge taken.

  datatype Step = Step(node: Tree, bit: bool)

  predicate AllNodes(path: seq<Step>) {
    forall i :: 0 <= i < |path| ==> path[i].node.Node?
  }

  /** The whole tree, once the edge at the end of `path` has been set to `t`. */
  function Plug(path: seq<Step>, t: Tree): Tree
    requires AllNodes(path)
  {
    if path == [] then t
    else
      var n := |path| - 1;
      Plug(path[..n], SetEdge(path[n].node, path[n].bit, t))
  }

  /** The whole tree, once a removal that left `t` at the end of `path` has pruned upward. */
  function Ascend(path: seq<Step>, t: Tree): Tree
    requires AllNodes(path)
  {
    if path == [] || t.Node? then Plug(path, t)
    else
      var n := |path| - 1;
      Ascend(path[..n], Pruned(SetEdge(path[n].node, path[n].bit, Null)))
  }

  lemma PlugOne(path: seq<Step>, node: Tree, bit: bool, t: Tree)
    requires AllNodes(path) && node.Node?
    ensures Plug(path + [Step(node, bit)], t) == Plug(path, SetEdge(node, bit, t))
    ensures t.Null? ==> Ascend(path + [Step(node, bit)], t) == Ascend(path, Pruned(SetEdge(node, bit, Null)))
  {
  }

  /** trie_insert_prefix. */
  method InsertPrefix(root: Tree, prefix: Bits) returns (r: Tree)
    ensures r == Inserted(root, prefix)
  {
    hide EqualBits, Split, Branch;
    var path, node, ofs := [], root, 0;
    assert prefix[0..] == prefix;
    while node.Node?
      invariant AllNodes(path) && ofs <= |prefix|
      invariant Inserted(root, prefix) == Plug(path, Inserted(node, prefix[ofs..]))
      decreases node
    {
      var rest := prefix[ofs..];
      var eq := EqualBits(node.prefix, rest);
      if eq < |node.prefix| {
        return Plug(path, Split(node, rest, eq));
      }
      if eq == |rest| {
        return Plug(path, node.(nRules := node.nRules + 1));
      }
      PlugOne(path, node, rest[eq], Inserted(Edge(node, rest[eq]), rest[eq..]));
      assert rest[eq..] == prefix[ofs + eq..];
      path, node, ofs := path + [Step(node, rest[eq])], Edge(node, rest[eq]), ofs + eq;
    }
    r := Plug(path, Branch(prefix[ofs..], 1));
  }

  lemma NoPath(t: Tree, bits: Bits)
    ensures Plug([], t) == t && Ascend([], Removed(t, bits)) == Removed(t, bits) && Removed(Null, bits) == Null
  {
  }

  lemma AscendNode(path: seq<Step>, t: Tree)
    requires AllNodes(path)
    ensures t.Node? ==> Ascend(path, t) == Plug(path, t)
  {
  }

  lemma EmptyStays(bits: Bits)
    ensures Removed(Null, bits) == Null
  {
  }

  /** A removal that goes below a node leaves the rest to the child, if there is one. */
  lemma DownOne(path: seq<Step>, node: Tree, rest: Bits)
    requires AllNodes(path) && node.Node? && node.prefix <= rest && |node.prefix| < |rest|
    ensures var n := |node.prefix|;
      var child, path' := Edge(node, rest[n]), path + [Step(node, rest[n])];
      && AllNodes(path') && Plug(path', child) == Plug(path, node)
      && Ascend(path, Removed(node, rest)) ==
         if child.Node? then Ascend(path', Removed(child, rest[n..])) else Plug(path, node)
  {
    var n := |node.prefix|;
    var child := Edge(node, rest[n]);
    RemovedStep(node, rest);
    AscendNode(path, node);
    var t' := SetEdge(node, rest[n], Removed(child, rest[n..]));
    AscendNode(path, t');
    AscendNode(path + [Step(node, rest[n])], Removed(child, rest[n..]));
    hide Pruned, Removed, Ascend, Plug;
    PlugOne(path, node, rest[n], child);
    PlugOne(path, node, rest[n], Removed(child, rest[n..]));
    assert SetEdge(node, rest[n], child) == node;
    EmptyStays(rest[n..]);
  }

  /** A removal that ends at a node. */
  lemma StopsHere(path: seq<Step>, node: Tree, rest: Bits)
    requires AllNodes(path) && node.Node?
    ensures !(node.prefix <= rest) || (node.prefix == rest && node.nRules == 0) ==>
      Ascend(path, Removed(node, rest)) == Plug(path, node)
    ensures node.prefix == rest && node.nRules > 0 ==>
      Removed(node, rest) == Pruned(node.(nRules := node.nRules - 1))
  {
    hide Pruned;
  }

  /** The descent of trie_remove_prefix: down to the node that stores `prefix`, if any. */
  method FindPrefix(root: Tree, prefix: Bits) returns (found: bool, path: seq<Step>, node: Tree)
    ensures AllNodes(path)
    ensures !found ==> Removed(root, prefix) == root
    ensures found ==> node.Node? && node.nRules > 0
    ensures found ==> Removed(root, prefix) == Ascend(path, Pruned(node.(nRules := node.nRules - 1)))
  {
    hide EqualBits, Pruned, Ascend, Plug, Removed;
    path, node := [], root;
    NoPath(root, prefix);
    var ofs := 0;
    assert prefix[0..] == prefix;
    while node.Node?
      invariant AllNodes(path) && ofs <= |prefix| && Plug(path, node) == root
      invariant Removed(root, prefix) == if node.Node? then Ascend(path, Removed(node, prefix[ofs..])) else root
      decreases node
    {
      var rest := prefix[ofs..];
      var eq := EqualBits(node.prefix, rest);
      PrefixIffEqualBits(node.prefix, rest);
      StopsHere(path, node, rest);
      if eq < |node.prefix| {
        return false, path, node;
      }
      if eq == |rest| {
        return node.nRules > 0, path, node;
      }
      DownOne(path, node, rest);
      assert rest[eq..] == prefix[ofs + eq..];
      path, node, ofs := path + [Step(node, rest[eq])], Edge(node, rest[eq]), ofs + eq;
    }
    found := false;
  }

  /** trie_remove_prefix. */
  method RemovePrefix(root: Tree, prefix: Bits) returns (r: Tree)
    ensures r == Removed(root, prefix)
  {
    var found, path, node := FindPrefix(root, prefix);
    if !found {
      return root;
    }
    node := node.(nRules := node.nRules - 1);
    while true
      invariant AllNodes(path) && node.Node?
      invariant Removed(root, prefix) == Ascend(path, Pruned(node))
      decreases |path|
    {
      if node.nRules > 0 || (node.left.Node? && node.right.Node?) {
        return Plug(path, node);
      }
      var next := if node.left.Node? then node.left else node.right;
      if next.Node? {
        if |node.prefix| + |next.prefix| > NODE_BITS {
          return Plug(path, node);
        }
        return Plug(path, next.(prefix := node.prefix + next.prefix));
      }
      if path == [] {
        return Null;
      }
      var n := |path| - 1;
      node := SetEdge(path[n].node, path[n].bit, Null);
      path := path[..n];
    }
  }

  /** `acc` and the lengths of the prefixes found on the path of `value`, offset by `base`. */
  ghost function Lengths(t: Tree, value: Bits, base: nat, acc: set<nat>): set<nat> {
    if t.Null? || !(t.prefix <= value) then acc
    else
      var n := |t.prefix|;
      var found := if t.nRules > 0 then acc + {base + n} else acc;
      if n == |value| then found else Lengths(Edge(t, value[n]), value[n..], base + n, found)
  }

  /** What the first `len` bits of a value keep of a prefix of that value. */
  lemma Shortened(p: Bits, value: Bits, len: nat)
    requires p <= value && len <= |value|
    ensures p <= value[..len] <==> |p| <= len
    ensures |p| == len ==> value[..len] == p
    ensures |p| < len ==>
      value[..len][|p|] == value[|p|] && value[..len][|p|..] == value[|p|..][..len - |p|]
  {
  }

  lemma {:induction false} LengthsAreStored(t: Tree, value: Bits, base: nat, acc: set<nat>, len: nat)
    requires Valid(t)
    ensures len in Lengths(t, value, base, acc) <==>
      len in acc || (len >= base && Stored(t, value, len - base))
  {
    hide Count;
    var within := base < len <= base + |value|;
    if within {
      CountStep(t, value[..len - base]);
    }
    if t.Node? && t.prefix <= value {
      var n := |t.prefix|;
      if within {
        Shortened(t.prefix, value, len - base);
      }
      if n < |value| {
        var found := if t.nRules > 0 then acc + {base + n} else acc;
        HangsIsValid(Edge(t, value[n]), value[n]);
        LengthsAreStored(Edge(t, value[n]), value[n..], base + n, found, len);
      }
    } else if within {
      assert value[..len - base] <= value;
    }
  }

  /** What one node contributes to both results of a lookup. */
  lemma OneNode(t: Tree, value: Bits, base: nat, acc: set<nat>)
    requires t.Node?
    ensures var eq := EqualBits(t.prefix, value);
      if eq < |t.prefix| then Lengths(t, value, base, acc) == acc && MaskBits(t, value) == eq + 1
      else
        var found := if t.nRules > 0 then acc + {base + eq} else acc;
        if eq == |value| then Lengths(t, value, base, acc) == found && MaskBits(t, value) == eq
        else
          var child := Edge(t, value[eq]);
          && Lengths(t, value, base, acc) == Lengths(child, value[eq..], base + eq, found)
          && MaskBits(t, value) == eq + if child.Node? then MaskBits(child, value[eq..])
                                        else if IsLeaf(t) then 0 else 1
  {
  }

  lemma NoNode(value: Bits, base: nat, acc: set<nat>)
    ensures MaskBits(Null, value) == 0 && Lengths(Null, value, base, acc) == acc
  {
  }

  /** The loop of trie_lookup_value. */
  method Walk(root: Tree, value: Bits) returns (bits: nat, plens: set<nat>)
    ensures bits == MaskBits(root, value)
    ensures plens == Lengths(root, value, 0, {})
  {
    hide Lengths, MaskBits;
    var prev, node := Null, root;
    var matchLen := 0;
    plens := {};
    assert value[0..] == value;
    NoNode(value, 0, {});
    while node.Node?
      invariant matchLen <= |value|
      invariant MaskBits(root, value) ==
        if node.Node? then matchLen + MaskBits(node, value[matchLen..])
        else if prev.Null? || IsLeaf(prev) then matchLen else matchLen + 1
      invariant Lengths(root, value, 0, {}) == Lengths(node, value[matchLen..], matchLen, plens)
      decreases node
    {
      var rest := value[matchLen..];
      var eq := EqualBits(node.prefix, rest);
      OneNode(node, rest, matchLen, plens);
      if eq < |node.prefix| {
        return matchLen + eq + 1, plens;
      }
      assert rest[eq..] == value[matchLen + eq..];
      matchLen := matchLen + eq;
      if node.nRules > 0 {
        plens := plens + {matchLen};
      }
      if matchLen >= |value| {
        return |value|, plens;
      }
      prev, node := node, Edge(node, value[matchLen]);
    }
    NoNode(value[matchLen..], matchLen, plens);
    bits := if prev.Null? || IsLeaf(prev) then matchLen else matchLen + 1;
  }

  /** trie_lookup_value: the lengths with a stored prefix of `value`, and the number of
      bits that determine them. */
  method LookupValue(root: Tree, value: Bits) returns (bits: nat, plens: set<nat>)
    requires Valid(root)
    ensures bits == MaskBits(root, value)
    ensures forall len :: len in plens <==> Stored(root, value, len)
  {
    bits, plens := Walk(root, value);
    forall len {:trigger Stored(root, value, len)} ensures len in plens <==> Stored(root, value, len) {
      LengthsAreStored(root, value, 0, {}, len);
    }
  }
}
