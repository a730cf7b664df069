/** Copying actions into the kernel and dumping them again (ovs_nla_copy_actions and
    ovs_nla_put_actions in datapath/flow_netlink.c). */
module NetlinkDump {
  import opened NetlinkActions

  // The kernel's copy is at most twice as long

  lemma MessageSize(a: Act)
    requires Padded(a) && !a.Sample?
    ensures |Encoded(Converted(a))| <= 2 * |Message(a)|
  {
  }

  lemma SampleMessageSize(attrs: seq<SampleAttr>)
    requires GoodSample(attrs)
    ensures |SampleMessages(attrs)| >= 12 + |Messages(ActionsOf(attrs))|
  {
    hide Messages;
    assert attrs[..1][..0] == [] && attrs[..1][0] == attrs[0];
    assert SampleMessages(attrs[..0]) == [];
    assert SampleMessages(attrs[..1]) == [] + SampleMessage(attrs[0]);
    assert SampleMessages(attrs) == SampleMessages(attrs[..1]) + SampleMessage(attrs[1]);
    AttrSize(attrs[0]);
    AttrSize(attrs[1]);
    hide SampleMessages, SampleMessage;
  }

  lemma AttrSize(s: SampleAttr)
    ensures s.Probability? ==> |SampleMessage(s)| >= 4 + |s.data|
    ensures s.Actions? ==> |SampleMessage(s)| == 4 + |Messages(s.acts)|
  {
  }

  lemma {:induction false} CopyIsAtMostTwice(acts: seq<Act>)
    requires AllPadded(acts)
    ensures |EncodedAll(ConvertedAll(acts))| <= 2 * |Messages(acts)|
    decreases acts
  {
    if acts != [] {
      var n := |acts| - 1;
      CopyIsAtMostTwice(acts[..n]);
      OneIsAtMostTwice(acts[n]);
      EncodedSnoc(acts, n);
      assert acts[..n + 1] == acts;
      hide Encoded, Converted, EncodedAll, ConvertedAll, Message;
    }
  }

  lemma {:induction false} OneIsAtMostTwice(a: Act)
    requires Padded(a)
    ensures |Encoded(Converted(a))| <= 2 * |Message(a)|
    decreases a
  {
    if !a.Sample? {
      MessageSize(a);
    } else if GoodSample(a.attrs) {
      var acts, p := ActionsOf(a.attrs), ProbabilityOf(a.attrs);
      CopyIsAtMostTwice(acts);
      SampleMessageSize(a.attrs);
      SampleSize(p, EncodedAll(ConvertedAll(acts)));
      TlvSize(a.raw, SampleMessages(a.attrs), []);
      hide EncodedAll, ConvertedAll, Messages, SampleMessages, Tlv, Put;
    } else {
      TlvSize(a.raw, SampleMessages(a.attrs), []);
      TlvSize(0, [], []);
    }
  }

  /** There is room for a list of actions, as it is and as the kernel keeps it. */
  predicate Fits(acts: seq<Act>, off: nat) {
    |Messages(acts)| <= MAX_ACTIONS_BUFSIZE && off + |EncodedAll(ConvertedAll(acts))| <= MAX_ACTIONS_BUFSIZE
  }

  /** ovs_nla_copy_actions.  A list is accepted only if all its actions are, and it is then
      kept in the kernel's form; a valid list is turned down only for want of room. */
  method CopyAll(acts: seq<Act>, key: FlowKey, ctx: Ctx, off: nat, header: nat, rounded: nat -> nat)
    returns (r: Outcome, bytes: Bytes)
    requires AllPadded(acts) && 0 < off <= header && (forall n :: rounded(n) >= n)
    requires forall n: nat :: n <= header + MAX_ACTIONS_BUFSIZE ==> rounded(n) <= 0x1_0000
    ensures r == Ok ==> AcceptsAll(acts, key, ctx, 0) && bytes == EncodedAll(ConvertedAll(acts))
    ensures AcceptsAll(acts, key, ctx, 0) && Fits(acts, off) ==> r == Ok
  {
    bytes := [];
    if |Messages(acts)| > MAX_ACTIONS_BUFSIZE {
      return Invalid, bytes;
    }
    CopyIsAtMostTwice(acts);
    hide EncodedAll, ConvertedAll, Messages, AcceptsAll;
    var buffer := new ActionBuffer(off, header, rounded, |Messages(acts)|);
    r := buffer.CopyActions(acts, key, ctx, 0);
    bytes := buffer.bytes;
  }

  // Dumping

  function Undone(s: Stored): Act {
    match s
    case Copied(raw, data, _) => Other(Type(raw), data, Zeros(PadLen(|data|)))
    case ToMasked(k, value, _) => Set(SET, k, value, Zeros(PadLen(|value|)))
    case Sampled(p, acts) =>
      Sample(SAMPLE, [Probability(SAMPLE_PROBABILITY, p, []), Actions(SAMPLE_ACTIONS, UndoneAll(acts))])
  }

  function UndoneAll(acts: seq<Stored>): (r: seq<Act>)
    ensures |r| == |acts|
  {
    if acts == [] then [] else UndoneAll(acts[..|acts| - 1]) + [Undone(acts[|acts| - 1])]
  }

  /** What the kernel's copy of an accepted list looks like. */
  predicate StoredOK(s: Stored) {
    match s
    case Copied(raw, data, pad) =>
      Type(raw) != SET_TO_MASKED && Type(raw) != SAMPLE && |pad| == PadLen(|data|)
    case ToMasked(k, value, mask) => |mask| == |value| && Type(k) == k
    case Sampled(p, acts) => |p| == 4 && AllStoredOK(acts)
  }

  predicate AllStoredOK(acts: seq<Stored>) {
    forall i :: 0 <= i < |acts| ==> StoredOK(acts[i])
  }

  lemma {:induction false} AcceptedIsStoredOK(acts: seq<Act>, key: FlowKey, ctx: Ctx, depth: nat)
    requires AcceptsAll(acts, key, ctx, depth) && AllPadded(acts)
    ensures AllStoredOK(ConvertedAll(acts))
    decreases acts
  {
    if acts != [] {
      var n := |acts| - 1;
      AcceptedIsStoredOK(acts[..n], key, ctx, depth);
      OneAcceptedIsStoredOK(acts[n], key, AfterAll(acts[..n], ctx), depth);
      hide StoredOK, Converted, Accepts;
      assert ConvertedAll(acts) == ConvertedAll(acts[..n]) + [Converted(acts[n])];
    }
  }

  lemma {:induction false} OneAcceptedIsStoredOK(a: Act, key: FlowKey, ctx: Ctx, depth: nat)
    requires Accepts(a, key, ctx, depth) && Padded(a)
    ensures StoredOK(Converted(a))
    decreases a
  {
    if a.Sample? {
      AcceptedIsStoredOK(ActionsOf(a.attrs), key, ctx, depth + 1);
    } else if a.SetMasked? {
      TlvAligned(a.keyRaw, a.data, a.pad);
      hide Tlv;
    }
  }

  // Reading the buffer

  /** The encoding of the actions from `i` on. */
  function EncodedFrom(acts: seq<Stored>, i: nat): Bytes
    requires i <= |acts|
    decreases |acts| - i
  {
    if i == |acts| then [] else Encoded(acts[i]) + EncodedFrom(acts, i + 1)
  }

  lemma {:induction false} EncodedSplit(acts: seq<Stored>, i: nat)
    requires i <= |acts|
    ensures EncodedAll(acts) == EncodedAll(acts[..i]) + EncodedFrom(acts, i)
    decreases |acts| - i
  {
    hide Encoded;
    if i == |acts| {
      assert acts[..i] == acts;
    } else {
      EncodedSplit(acts, i + 1);
      assert acts[..i + 1][..i] == acts[..i];
      assert EncodedAll(acts[..i + 1]) == EncodedAll(acts[..i]) + Encoded(acts[i]);
    }
  }

  lemma TlvParts(raw: nat, data: Bytes, pad: Bytes)
    ensures var t := Tlv(raw, data, pad);
      && |t| == 4 + |data| + |pad|
      && t[0] + 256 * t[1] == 4 + |data| && t[2] + 256 * t[3] == raw && t[4..4 + |data|] == data
  {
  }

  lemma SamePad(len: nat)
    ensures PadLen(4 + len) == PadLen(len)
  {
  }

  /** What a reader finds at the start of an attribute. */
  lemma ReadTlv(before: Bytes, raw: nat, data: Bytes, pad: Bytes, rest: Bytes)
    requires |pad| == PadLen(|data|)
    ensures var b, n := before + Tlv(raw, data, pad) + rest, |before|;
      && n + 4 + |data| + |pad| <= |b|
      && b[n] + 256 * b[n + 1] == 4 + |data| && b[n + 2] + 256 * b[n + 3] == raw
      && b[n + 4..n + 4 + |data|] == data
      && n + 4 + |data| + PadLen(4 + |data|) == |before + Tlv(raw, data, pad)|
  {
    TlvParts(raw, data, pad);
    SamePad(|data|);
    hide Tlv, PadLen;
    var t, n := Tlv(raw, data, pad), |before|;
    var b := before + t + rest;
    assert b[n..n + |t|] == t;
    assert b[n] == t[0] && b[n + 1] == t[1] && b[n + 2] == t[2] && b[n + 3] == t[3];
    assert b[n + 4..n + 4 + |data|] == t[4..4 + |data|];
  }

  function RawOf(s: Stored): nat {
    match s
    case Copied(raw, _, _) => raw
    case ToMasked(_, _, _) => SET_TO_MASKED
    case Sampled(_, _) => SAMPLE
  }

  function PayloadOf(s: Stored): Bytes {
    match s
    case Copied(_, data, _) => data
    case ToMasked(k, value, mask) => Put(k, value + mask)
    case Sampled(p, acts) => Put(SAMPLE_PROBABILITY, p) + Tlv(SAMPLE_ACTIONS, EncodedAll(acts), [])
  }

  function PadOf(s: Stored): Bytes {
    if s.Copied? then s.pad else []
  }

  lemma {:induction false} StoredAligned(s: Stored)
    requires StoredOK(s)
    ensures |PadOf(s)| == PadLen(|PayloadOf(s)|) && |Encoded(s)| % 4 == 0
    decreases s
  {
    match s
    case Copied(raw, data, pad) =>
      TlvAligned(raw, data, pad);
    case ToMasked(k, value, mask) =>
      PutIsAligned(k, value + mask);
      hide Put;
      NestedAligned(SET_TO_MASKED, Put(k, value + mask));
    case Sampled(p, acts) =>
      AllStoredAligned(acts);
      PutIsAligned(SAMPLE_PROBABILITY, p);
      NestedAligned(SAMPLE_ACTIONS, EncodedAll(acts));
      hide Put, Tlv, EncodedAll;
      JoinAligned(Put(SAMPLE_PROBABILITY, p), Tlv(SAMPLE_ACTIONS, EncodedAll(acts), []));
      NestedAligned(SAMPLE, PayloadOf(s));
  }

  lemma {:induction false} AllStoredAligned(acts: seq<Stored>)
    requires AllStoredOK(acts)
    ensures |EncodedAll(acts)| % 4 == 0
    decreases acts
  {
    if acts != [] {
      var n := |acts| - 1;
      AllStoredAligned(acts[..n]);
      StoredAligned(acts[n]);
      hide Encoded, StoredOK;
      JoinAligned(EncodedAll(acts[..n]), Encoded(acts[n]));
    }
  }

  /** masked_set_action_to_set_action_attr. */
  method DumpMasked(data: Bytes, ghost k: nat, ghost value: Bytes, ghost mask: Bytes) returns (out: Bytes)
    requires data == Put(k, value + mask) && |mask| == |value| && Type(k) == k
    ensures out == Message(Undone(ToMasked(k, value, mask)))
  {
    PutIsAligned(k, value + mask);
    ReadTlv([], k, value + mask, Zeros(PadLen(|value + mask|)), []);
    assert [] + Put(k, value + mask) + [] == data;
    var len := data[0] + 256 * data[1];
    var key := Type(data[2] + 256 * data[3]);
    var both := data[4..len];
    assert both == value + mask;
    out := Tlv(SET, Put(key, both[..|both| / 2]), []);
  }

  /** ovs_nla_put_actions. */
  method DumpActions(buf: Bytes, ghost acts: seq<Stored>) returns (out: Bytes)
    requires buf == EncodedAll(acts) && AllStoredOK(acts)
    ensures out == Messages(UndoneAll(acts))
    decreases acts, 1
  {
    hide Encoded, Undone, Message, StoredOK, RawOf, PayloadOf, PadOf, EncodedAll, UndoneAll, Messages, PadLen;
    out := [];
    var p := 0;
    ghost var i := 0;
    NothingYet(acts);
    while p < |buf|
      invariant i <= |acts| && p == |EncodedAll(acts[..i])| && out == Messages(UndoneAll(acts[..i]))
      decreases |buf| - p
    {
      AtAction(acts, i);
      var len := buf[p] + 256 * buf[p + 1];
      var raw := buf[p + 2] + 256 * buf[p + 3];
      var one := DumpAction(raw, buf[p + 4..p + len], acts[i]);
      UndoneSnoc(acts, i);
      out := out + one;
      p := p + len + PadLen(len);
      i := i + 1;
    }
    EncodedSplit(acts, i);
    NothingLeft(acts, i);
  }

  lemma NothingYet(acts: seq<Stored>)
    ensures EncodedAll(acts[..0]) == [] && Messages(UndoneAll(acts[..0])) == []
  {
  }

  /** One round of the loop of ovs_nla_put_actions. */
  method DumpAction(raw: nat, data: Bytes, ghost s: Stored) returns (out: Bytes)
    requires StoredOK(s) && raw == RawOf(s) && data == PayloadOf(s)
    ensures out == Message(Undone(s))
    decreases s, 2
  {
    hide EncodedAll, UndoneAll, Tlv, PadLen;
    if Type(raw) == SET_TO_MASKED {
      out := DumpMasked(data, s.key, s.value, s.mask);
    } else if Type(raw) == SAMPLE {
      out := DumpSample(data, s.probability, s.acts);
    } else {
      out := Put(Type(raw), data);
    }
  }

  /** sample_action_to_attr.  The kernel's copy has the probability first. */
  method DumpSample(data: Bytes, ghost p: Bytes, ghost acts: seq<Stored>) returns (out: Bytes)
    requires |p| == 4 && AllStoredOK(acts)
    requires data == Put(SAMPLE_PROBABILITY, p) + Tlv(SAMPLE_ACTIONS, EncodedAll(acts), [])
    ensures out == Message(Undone(Sampled(p, acts)))
    decreases acts, 2
  {
    SampleParts(p, EncodedAll(acts));
    AllStoredAligned(acts);
    var len := data[0] + 256 * data[1];
    var probability := Put(SAMPLE_PROBABILITY, data[4..len]);
    var q := len + PadLen(len);
    var len' := data[q] + 256 * data[q + 1];
    var nested := DumpActions(data[q + 4..q + len'], acts);
    SampleWhole(p, UndoneAll(acts));
    out := Tlv(SAMPLE, probability + Tlv(SAMPLE_ACTIONS, nested, []), []);
  }

  // What the methods rely on

  lemma EncodedIsTlv(s: Stored)
    requires StoredOK(s)
    ensures Encoded(s) == Tlv(RawOf(s), PayloadOf(s), PadOf(s))
  {
  }

  /** The encoding of a list, around one of its actions. */
  lemma AroundAction(acts: seq<Stored>, i: nat)
    requires AllStoredOK(acts) && i < |acts|
    ensures EncodedAll(acts[..i + 1]) == EncodedAll(acts[..i]) + Tlv(RawOf(acts[i]), PayloadOf(acts[i]), PadOf(acts[i]))
    ensures EncodedAll(acts) == EncodedAll(acts[..i + 1]) + EncodedFrom(acts, i + 1)
  {
    EncodedIsTlv(acts[i]);
    EncodedSplit(acts, i + 1);
    hide Encoded, StoredOK, RawOf, PayloadOf, PadOf, Tlv;
    assert acts[..i + 1][..i] == acts[..i];
  }

  lemma NotAtEnd(acts: seq<Stored>, i: nat)
    requires i <= |acts| && |EncodedAll(acts[..i])| < |EncodedAll(acts)|
    ensures i < |acts|
  {
    EncodedSplit(acts, i);
  }

  lemma AtAction(acts: seq<Stored>, i: nat)
    requires AllStoredOK(acts) && i <= |acts| && |EncodedAll(acts[..i])| < |EncodedAll(acts)|
    ensures i < |acts|
    ensures var b, p, data := EncodedAll(acts), |EncodedAll(acts[..i])|, PayloadOf(acts[i]);
      && p + 4 + |data| <= |b|
      && b[p] + 256 * b[p + 1] == 4 + |data| && b[p + 2] + 256 * b[p + 3] == RawOf(acts[i])
      && b[p + 4..p + 4 + |data|] == data
      && p + 4 + |data| + PadLen(4 + |data|) == |EncodedAll(acts[..i + 1])| <= |b|
  {
    hide Encoded, StoredOK, RawOf, PayloadOf, PadOf, Tlv, EncodedAll, EncodedFrom, PadLen;
    NotAtEnd(acts, i);
    AroundAction(acts, i);
    StoredAligned(acts[i]);
    ReadTlv(EncodedAll(acts[..i]), RawOf(acts[i]), PayloadOf(acts[i]), PadOf(acts[i]), EncodedFrom(acts, i + 1));
  }

  lemma NothingLeft(acts: seq<Stored>, i: nat)
    requires i <= |acts| && |EncodedAll(acts[..i])| >= |EncodedAll(acts)|
    ensures i == |acts| && acts[..i] == acts
  {
    EncodedSplit(acts, i);
    if i < |acts| {
      NotEmpty(acts[i]);
    }
  }

  lemma NotEmpty(s: Stored)
    ensures |Encoded(s)| > 0
  {
  }

  lemma UndoneSnoc(acts: seq<Stored>, i: nat)
    requires i < |acts|
    ensures Messages(UndoneAll(acts[..i + 1])) == Messages(UndoneAll(acts[..i])) + Message(Undone(acts[i]))
  {
    assert acts[..i + 1][..i] == acts[..i];
    var u := UndoneAll(acts[..i]);
    hide Message, Undone;
    assert (u + [Undone(acts[i])])[..|u|] == u;
  }

  lemma SampleParts(p: Bytes, nested: Bytes)
    requires |p| == 4
    ensures var data := Put(SAMPLE_PROBABILITY, p) + Tlv(SAMPLE_ACTIONS, nested, []);
      && data[0] + 256 * data[1] == 8 && data[4..8] == p
      && data[8] + 256 * data[9] == 4 + |nested| && data[12..12 + |nested|] == nested
  {
  }

  lemma SampleWhole(p: Bytes, acts: seq<Act>)
    requires |p| == 4
    ensures Message(Sample(SAMPLE, [Probability(SAMPLE_PROBABILITY, p, []), Actions(SAMPLE_ACTIONS, acts)])) ==
      Tlv(SAMPLE, Put(SAMPLE_PROBABILITY, p) + Tlv(SAMPLE_ACTIONS, Messages(acts), []), [])
  {
    hide Messages;
    var a, b := Probability(SAMPLE_PROBABILITY, p, []), Actions(SAMPLE_ACTIONS, acts);
    assert [a, b][..1] == [a] && [a][..0] == [];
    assert SampleMessages([a]) == [] + SampleMessage(a);
    assert SampleMessages([a, b]) == SampleMessages([a]) + SampleMessage(b);
  }

  // Dumping what was copied

  /** A list as the kernel writes it: no flags in the types, zeros for padding, and the
      probability of a sample first. */
  function Normal(a: Act): Act {
    match a
    case Other(raw, data, _) => Other(Type(raw), data, Zeros(PadLen(|data|)))
    case Set(_, k, value, _) => Set(SET, Type(k), value, Zeros(PadLen(|value|)))
    case SetMasked(raw, k, data, pad) => SetMasked(Type(raw), k, data, pad)
    case Sample(raw, attrs) =>
      if !GoodSample(attrs) then a
      else Sample(SAMPLE, [Probability(SAMPLE_PROBABILITY, ProbabilityOf(attrs), []),
                           Actions(SAMPLE_ACTIONS, NormalAll(ActionsOf(attrs)))])
  }

  function NormalAll(acts: seq<Act>): (r: seq<Act>)
    ensures |r| == |acts|
  {
    if acts == [] then [] else NormalAll(acts[..|acts| - 1]) + [Normal(acts[|acts| - 1])]
  }

  lemma {:induction false} UndoneIsNormal(acts: seq<Act>, key: FlowKey, ctx: Ctx, depth: nat)
    requires AcceptsAll(acts, key, ctx, depth) && AllPadded(acts)
    ensures Messages(UndoneAll(ConvertedAll(acts))) == Messages(NormalAll(acts))
    decreases acts
  {
    if acts != [] {
      var n := |acts| - 1;
      UndoneIsNormal(acts[..n], key, ctx, depth);
      OneUndoneIsNormal(acts[n], key, AfterAll(acts[..n], ctx), depth);
      hide AcceptsAll, Accepts, ConvertedAll, Converted, UndoneAll, Undone, NormalAll, Normal, Messages, Message;
      var c := ConvertedAll(acts);
      ConvertedSnoc(acts);
      UndoneSnoc(c, n);
      assert c[..n + 1] == c;
      NormalSnoc(acts);
    }
  }

  lemma ConvertedSnoc(acts: seq<Act>)
    requires acts != []
    ensures var n, c := |acts| - 1, ConvertedAll(acts);
      c[..n] == ConvertedAll(acts[..n]) && c[n] == Converted(acts[n])
  {
    hide Converted;
  }

  lemma NormalSnoc(acts: seq<Act>)
    requires acts != []
    ensures var n := |acts| - 1;
      Messages(NormalAll(acts)) == Messages(NormalAll(acts[..n])) + Message(Normal(acts[n]))
  {
    hide Normal, Message;
    var n := |acts| - 1;
    var m := NormalAll(acts[..n]);
    assert (m + [Normal(acts[n])])[..|m|] == m;
  }

  lemma {:induction false} OneUndoneIsNormal(a: Act, key: FlowKey, ctx: Ctx, depth: nat)
    requires Accepts(a, key, ctx, depth) && Padded(a)
    ensures Message(Undone(Converted(a))) == Message(Normal(a))
    decreases a
  {
    match a
    case Other(_, _, _) =>
    case Set(_, _, _, _) =>
    case SetMasked(raw, k, data, pad) =>
      TlvAligned(k, data, pad);
      hide Tlv;
      assert Zeros(PadLen(|Tlv(k, data, pad)|)) == [];
    case Sample(_, attrs) =>
      var acts, p := ActionsOf(attrs), ProbabilityOf(attrs);
      UndoneIsNormal(acts, key, ctx, depth + 1);
      SampleWhole(p, UndoneAll(ConvertedAll(acts)));
      SampleWhole(p, NormalAll(acts));
      hide UndoneAll, ConvertedAll, NormalAll, Messages, Message, Tlv, Put;
  }

  /** The round trip: dumping what was copied gives back the actions in the kernel's way of
      writing them. */
  method CopyThenDump(acts: seq<Act>, key: FlowKey, ctx: Ctx, off: nat, header: nat, rounded: nat -> nat)
    returns (r: Outcome, out: Bytes)
    requires AllPadded(acts) && 0 < off <= header && (forall n :: rounded(n) >= n)
    requires forall n: nat :: n <= header + MAX_ACTIONS_BUFSIZE ==> rounded(n) <= 0x1_0000
    ensures r == Ok ==> AcceptsAll(acts, key, ctx, 0) && out == Messages(NormalAll(acts))
    ensures AcceptsAll(acts, key, ctx, 0) && Fits(acts, off) ==> r == Ok
  {
    hide EncodedAll, ConvertedAll, Messages, AcceptsAll, NormalAll, UndoneAll, AllStoredOK;
    var bytes;
    r, bytes := CopyAll(acts, key, ctx, off, header, rounded);
    out := [];
    if r == Ok {
      AcceptedIsStoredOK(acts, key, ctx, 0);
      UndoneIsNormal(acts, key, ctx, 0);
      out := DumpActions(bytes, ConvertedAll(acts));
    }
  }

  /** A list that is written that way already. */
  predicate IsNormal(a: Act) {
    match a
    case Other(raw, data, pad) => Type(raw) == raw && pad == Zeros(PadLen(|data|))
    case Set(raw, k, value, pad) => raw == SET && Type(k) == k && pad == Zeros(PadLen(|value|))
    case SetMasked(raw, _, _, _) => Type(raw) == raw
    case Sample(raw, attrs) =>
      && raw == SAMPLE && GoodSample(attrs) && attrs[0].Probability?
      && attrs[0].raw == SAMPLE_PROBABILITY && attrs[0].pad == [] && attrs[1].raw == SAMPLE_ACTIONS
      && forall i :: 0 <= i < |attrs[1].acts| ==> IsNormal(attrs[1].acts[i])
  }

  /** It comes back byte for byte. */
  lemma {:induction false} NormalStays(acts: seq<Act>)
    requires forall i :: 0 <= i < |acts| ==> IsNormal(acts[i])
    ensures NormalAll(acts) == acts
    decreases acts
  {
    if acts != [] {
      var n := |acts| - 1;
      NormalStays(acts[..n]);
      var a := acts[n];
      if a.Sample? {
        NormalStays(a.attrs[1].acts);
        assert a.attrs == [a.attrs[0], a.attrs[1]];
      }
      assert acts == acts[..n] + [a];
    }
  }
}
