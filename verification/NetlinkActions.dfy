/** Flow actions in Netlink form (datapath/flow_netlink.c).  Actions from user space are
    checked and copied into a buffer of the kernel's own, which is grown as needed and in
    which the lengths of nested attributes are filled in afterwards; plain set actions become
    masked ones on the way.  Dumping reads that buffer and undoes the change.

    Attributes are modelled down to their bytes, with 16-bit header fields in the order of a
    little-endian host.  Tunnel and connection tracking actions are not part of this model. */
module NetlinkActions {

  type Bytes = seq<nat>

  // Attributes

  const OUTPUT: nat := 1
  const USERSPACE: nat := 2
  const SET: nat := 3
  const PUSH_VLAN: nat := 4
  const POP_VLAN: nat := 5
  const SAMPLE: nat := 6
  const RECIRC: nat := 7
  const HASH: nat := 8
  const PUSH_MPLS: nat := 9
  const POP_MPLS: nat := 10
  const SET_MASKED: nat := 11
  const TRUNC: nat := 13
  const SET_TO_MASKED: nat := 15

  const SAMPLE_PROBABILITY: nat := 1
  const SAMPLE_ACTIONS: nat := 2

  const KEY_PRIORITY: nat := 2
  const KEY_ETHERNET: nat := 4
  const KEY_IPV4: nat := 7
  const KEY_IPV6: nat := 8
  const KEY_TCP: nat := 9
  const KEY_UDP: nat := 10
  const KEY_SKB_MARK: nat := 15
  const KEY_SCTP: nat := 17
  const KEY_MPLS: nat := 21
  const KEY_CT_MARK: nat := 24
  const KEY_CT_LABELS: nat := 25

  const SAMPLE_ACTION_DEPTH: nat := 3
  const MAX_ACTIONS_BUFSIZE: nat := 32768
  const DP_MAX_PORTS: nat := 0xFFFF
  const ETH_HLEN: nat := 14

  const ETH_P_IP: nat := 0x0800
  const ETH_P_ARP: nat := 0x0806
  const ETH_P_8021Q: nat := 0x8100
  const ETH_P_RARP: nat := 0x8035
  const ETH_P_IPV6: nat := 0x86DD
  const ETH_P_MPLS_UC: nat := 0x8847
  const ETH_P_MPLS_MC: nat := 0x8848

  /** The type of an attribute without the two flag bits. */
  function Type(raw: nat): nat {
    raw % 0x4000
  }

  function Header(len: nat, raw: nat): Bytes {
    [len % 256, len / 256, raw % 256, raw / 256]
  }

  function PadLen(len: nat): nat {
    if len % 4 == 0 then 0 else 4 - len % 4
  }

  function Zeros(n: nat): Bytes {
    seq(n, i => 0)
  }

  /** An attribute with its padding. */
  function Tlv(raw: nat, data: Bytes, pad: Bytes): Bytes {
    Header(4 + |data|, raw) + data + pad
  }

  function Put(type_: nat, data: Bytes): Bytes {
    Tlv(type_, data, Zeros(PadLen(|data|)))
  }

  // What user space sends

  datatype Act =
    | Other(raw: nat, data: Bytes, pad: Bytes)
    | Set(raw: nat, keyRaw: nat, value: Bytes, pad: Bytes)
    | SetMasked(raw: nat, keyRaw: nat, data: Bytes, pad: Bytes)
    | Sample(raw: nat, attrs: seq<SampleAttr>)

  datatype SampleAttr =
    | Probability(raw: nat, data: Bytes, pad: Bytes)
    | Actions(raw: nat, acts: seq<Act>)
    | Unknown(raw: nat, data: Bytes, pad: Bytes)

  function Message(a: Act): Bytes {
    match a
    case Other(raw, data, pad) => Tlv(raw, data, pad)
    case Set(raw, keyRaw, value, pad) => Tlv(raw, Tlv(keyRaw, value, pad), [])
    case SetMasked(raw, keyRaw, data, pad) => Tlv(raw, Tlv(keyRaw, data, pad), [])
    case Sample(raw, attrs) => Tlv(raw, SampleMessages(attrs), [])
  }

  function SampleMessage(s: SampleAttr): Bytes {
    match s
    case Probability(raw, data, pad) => Tlv(raw, data, pad)
    case Actions(raw, acts) => Tlv(raw, Messages(acts), [])
    case Unknown(raw, data, pad) => Tlv(raw, data, pad)
  }

  function SampleMessages(attrs: seq<SampleAttr>): Bytes {
    if attrs == [] then [] else SampleMessages(attrs[..|attrs| - 1]) + SampleMessage(attrs[|attrs| - 1])
  }

  function Messages(acts: seq<Act>): Bytes {
    if acts == [] then [] else Messages(acts[..|acts| - 1]) + Message(acts[|acts| - 1])
  }

  /** Attributes are padded to a multiple of four bytes. */
  predicate Padded(a: Act) {
    match a
    case Other(_, data, pad) => |pad| == PadLen(|data|)
    case Set(_, _, value, pad) => |pad| == PadLen(|value|)
    case SetMasked(_, _, data, pad) => |pad| == PadLen(|data|)
    case Sample(_, attrs) => forall i :: 0 <= i < |attrs| ==> PaddedAttr(attrs[i])
  }

  predicate PaddedAttr(s: SampleAttr) {
    match s
    case Probability(_, data, pad) => |pad| == PadLen(|data|)
    case Actions(_, acts) => forall i :: 0 <= i < |acts| ==> Padded(acts[i])
    case Unknown(_, data, pad) => |pad| == PadLen(|data|)
  }

  predicate AllPadded(acts: seq<Act>) {
    forall i :: 0 <= i < |acts| ==> Padded(acts[i])
  }

  // What the kernel keeps

  datatype Stored =
    | Copied(raw: nat, data: Bytes, pad: Bytes)
    | ToMasked(key: nat, value: Bytes, mask: Bytes)
    | Sampled(probability: Bytes, acts: seq<Stored>)

  function Encoded(s: Stored): Bytes {
    match s
    case Copied(raw, data, pad) => Tlv(raw, data, pad)
    case ToMasked(key, value, mask) => Tlv(SET_TO_MASKED, Put(key, value + mask), [])
    case Sampled(p, acts) =>
      Tlv(SAMPLE, Put(SAMPLE_PROBABILITY, p) + Tlv(SAMPLE_ACTIONS, EncodedAll(acts), []), [])
  }

  function EncodedAll(acts: seq<Stored>): Bytes {
    if acts == [] then [] else EncodedAll(acts[..|acts| - 1]) + Encoded(acts[|acts| - 1])
  }

  // The change from one to the other

  /** The mask that a plain set of a key gets: all bits that can be written. */
  function FullMask(key: nat, len: nat): Bytes {
    seq(len, i requires 0 <= i => if key == KEY_IPV6 && i == 32 then 0 else if key == KEY_IPV6 && i == 33 then 0x0F else 0xFF)
  }

  /** A sample has one probability of four bytes and one list of actions, in either order. */
  predicate GoodSample(attrs: seq<SampleAttr>) {
    && |attrs| == 2
    && ((attrs[0].Probability? && attrs[1].Actions? && |attrs[0].data| == 4)
        || (attrs[0].Actions? && attrs[1].Probability? && |attrs[1].data| == 4))
  }

  function ProbabilityOf(attrs: seq<SampleAttr>): Bytes
    requires GoodSample(attrs)
  {
    if attrs[0].Probability? then attrs[0].data else attrs[1].data
  }

  function ActionsOf(attrs: seq<SampleAttr>): (acts: seq<Act>)
    requires GoodSample(attrs)
  {
    if attrs[0].Actions? then attrs[0].acts else attrs[1].acts
  }

  function Converted(a: Act): Stored {
    match a
    case Other(raw, data, pad) => Copied(raw, data, pad)
    case Set(_, keyRaw, value, _) => ToMasked(Type(keyRaw), value, FullMask(Type(keyRaw), |value|))
    case SetMasked(raw, keyRaw, data, pad) => Copied(raw, Tlv(keyRaw, data, pad), [])
    case Sample(_, attrs) =>
      if !GoodSample(attrs) then Copied(0, [], [])
      else Sampled(ProbabilityOf(attrs), ConvertedAll(ActionsOf(attrs)))
  }

  function ConvertedAll(acts: seq<Act>): (r: seq<Stored>)
    ensures |r| == |acts|
  {
    if acts == [] then [] else ConvertedAll(acts[..|acts| - 1]) + [Converted(acts[|acts| - 1])]
  }

  // Which actions are accepted

  /** The flow that the actions are for, and what is known of nested user-space attributes. */
  datatype FlowKey = FlowKey(proto: nat, frag: nat, userspaceOK: Bytes -> bool)

  /** What the actions so far have made of the packet: its Ethernet type, or 0 if unknown, and
      whether it has a VLAN tag. */
  datatype Ctx = Ctx(ethType: nat, vlan: bool)

  function Be16(b: Bytes, i: nat): nat
    requires i + 1 < |b|
  {
    b[i] * 256 + b[i + 1]
  }

  function U32(b: Bytes): nat
    requires |b| >= 4
  {
    b[0] + 0x100 * b[1] + 0x1_0000 * b[2] + 0x100_0000 * b[3]
  }

  predicate IsMpls(ethType: nat) {
    ethType == ETH_P_MPLS_UC || ethType == ETH_P_MPLS_MC
  }

  /** The actions without nested parts that the model knows of. */
  predicate OtherOK(a: Act, key: FlowKey, ctx: Ctx)
    requires a.Other?
  {
    var t, data := Type(a.raw), a.data;
    if t == OUTPUT then |data| == 4 && U32(data) < DP_MAX_PORTS
    else if t == USERSPACE then key.userspaceOK(data)
    else if t == PUSH_VLAN then |data| == 4 && Be16(data, 0) == ETH_P_8021Q && data[2] / 16 % 2 == 1
    else if t == POP_VLAN then data == []
    else if t == RECIRC then |data| == 4
    else if t == HASH then |data| == 8 && U32(data) == 0
    else if t == PUSH_MPLS then
      && |data| == 8 && IsMpls(Be16(data, 4)) && !ctx.vlan
      && (ctx.ethType in {ETH_P_IP, ETH_P_IPV6, ETH_P_ARP, ETH_P_RARP} || IsMpls(ctx.ethType))
    else if t == POP_MPLS then |data| == 2 && !ctx.vlan && IsMpls(ctx.ethType)
    else t == TRUNC && |data| == 4 && U32(data) >= ETH_HLEN
  }

  /** Keys of the right length, for packets that have them. */
  predicate KeyOK(k: nat, len: nat, ethType: nat, proto: nat) {
    var ip := ethType == ETH_P_IP || ethType == ETH_P_IPV6;
    if k == KEY_PRIORITY || k == KEY_SKB_MARK || k == KEY_CT_MARK then len == 4
    else if k == KEY_CT_LABELS then len == 16
    else if k == KEY_ETHERNET then len == 12
    else if k == KEY_IPV4 then len == 12 && ethType == ETH_P_IP
    else if k == KEY_IPV6 then len == 40 && ethType == ETH_P_IPV6
    else if k == KEY_TCP then len == 4 && ip && proto == 6
    else if k == KEY_UDP then len == 4 && ip && proto == 17
    else if k == KEY_SCTP then len == 4 && ip && proto == 132
    else k == KEY_MPLS && len == 4 && IsMpls(ethType)
  }

  /** The twelve bits before an IPv6 flow label are zero. */
  predicate LabelOK(value: Bytes)
    requires |value| >= 40
  {
    value[32] == 0 && value[33] < 16
  }

  predicate SetOK(k: nat, value: Bytes, key: FlowKey, ctx: Ctx) {
    && KeyOK(k, |value|, ctx.ethType, key.proto)
    && (k == KEY_IPV4 ==> value[8] == key.proto && value[11] == key.frag)
    && (k == KEY_IPV6 ==> value[36] == key.proto && value[39] == key.frag && LabelOK(value))
  }

  function BitAnd(a: nat, b: nat): nat {
    if a == 0 || b == 0 then 0 else (if a % 2 == 1 && b % 2 == 1 then 1 else 0) + 2 * BitAnd(a / 2, b / 2)
  }

  /** validate_masked: no bits outside the mask. */
  predicate NothingUnmasked(value: Bytes, mask: Bytes)
    requires |mask| >= |value|
  {
    forall i :: 0 <= i < |value| ==> mask[i] < 256 && BitAnd(value[i], 255 - mask[i]) == 0
  }

  predicate SetMaskedOK(k: nat, data: Bytes, key: FlowKey, ctx: Ctx) {
    var n := |data| / 2;
    var value, mask := data[..n], data[n..];
    && KeyOK(k, n, ctx.ethType, key.proto) && NothingUnmasked(value, mask)
    && (k == KEY_IPV4 ==> mask[8] == 0 && mask[11] == 0)
    && (k == KEY_IPV6 ==> mask[36] == 0 && mask[39] == 0 && LabelOK(mask) && LabelOK(value))
  }

  /** A sample whose attributes have the types they are to have. */
  predicate SampleTypes(a: Act)
    requires a.Sample?
  {
    && Type(a.raw) == SAMPLE && GoodSample(a.attrs)
    && (forall i :: 0 <= i < 2 ==>
          Type(a.attrs[i].raw) == if a.attrs[i].Probability? then SAMPLE_PROBABILITY else SAMPLE_ACTIONS)
  }

  predicate Accepts(a: Act, key: FlowKey, ctx: Ctx, depth: nat)
    decreases a
  {
    match a
    case Other(_, _, _) => OtherOK(a, key, ctx)
    case Set(raw, k, value, _) => Type(raw) == SET && SetOK(Type(k), value, key, ctx)
    case SetMasked(raw, k, data, _) => Type(raw) == SET_MASKED && SetMaskedOK(Type(k), data, key, ctx)
    case Sample(_, attrs) => SampleTypes(a) && AcceptsAll(ActionsOf(attrs), key, ctx, depth + 1)
  }

  function After(a: Act, ctx: Ctx): Ctx {
    if !a.Other? then ctx
    else
      var t := Type(a.raw);
      if t == POP_VLAN then ctx.(vlan := false)
      else if t == PUSH_VLAN then ctx.(vlan := true)
      else if t == PUSH_MPLS && |a.data| >= 6 then ctx.(ethType := Be16(a.data, 4))
      else if t == POP_MPLS then ctx.(ethType := 0)
      else ctx
  }

  function AfterAll(acts: seq<Act>, ctx: Ctx): Ctx {
    if acts == [] then ctx else After(acts[|acts| - 1], AfterAll(acts[..|acts| - 1], ctx))
  }

  /** Each action is accepted in what the ones before it have left. */
  predicate AcceptsAll(acts: seq<Act>, key: FlowKey, ctx: Ctx, depth: nat)
    decreases acts
  {
    && depth < SAMPLE_ACTION_DEPTH
    && (acts == [] || (AcceptsAll(acts[..|acts| - 1], key, ctx, depth)
                       && Accepts(acts[|acts| - 1], key, AfterAll(acts[..|acts| - 1], ctx), depth)))
  }

  // Nesting

  function Max(a: nat, b: nat): nat {
    if a < b then b else a
  }

  /** How deeply samples are nested. */
  function Nesting(a: Act): nat
    decreases a
  {
    if a.Sample? && GoodSample(a.attrs) then 1 + NestingAll(ActionsOf(a.attrs)) else 0
  }

  function NestingAll(acts: seq<Act>): nat
    decreases acts
  {
    if acts == [] then 0 else Max(NestingAll(acts[..|acts| - 1]), Nesting(acts[|acts| - 1]))
  }

  /** Accepted samples are nested less deeply than the limit. */
  lemma {:induction false} NestingIsBounded(acts: seq<Act>, key: FlowKey, ctx: Ctx, depth: nat)
    requires AcceptsAll(acts, key, ctx, depth)
    ensures depth + NestingAll(acts) < SAMPLE_ACTION_DEPTH
    decreases acts
  {
    if acts != [] {
      var n := |acts| - 1;
      NestingIsBounded(acts[..n], key, ctx, depth);
      var a := acts[n];
      if a.Sample? && GoodSample(a.attrs) {
        NestingIsBounded(ActionsOf(a.attrs), key, AfterAll(acts[..n], ctx), depth + 1);
      }
    }
  }

  // A plain set means the same as the masked set that replaces it

  /** The effect of a masked set on one byte of a header field. */
  function MaskedByte(before: nat, value: nat, mask: nat): nat
    requires mask < 256
  {
    BitAnd(before, 255 - mask) + BitAnd(value, mask)
  }

  predicate AreBytes(b: Bytes) {
    forall i :: 0 <= i < |b| ==> b[i] < 256
  }

  lemma BitAndHalf(a: nat, b: nat)
    ensures BitAnd(a, b) == (if a % 2 == 1 && b % 2 == 1 then 1 else 0) + 2 * BitAnd(a / 2, b / 2)
  {
  }

  /** The low bits of a number, if the rest are kept. */
  lemma OneMoreBit(v: nat, ones: nat)
    requires BitAnd(v / 2, ones) == v / 2
    ensures BitAnd(v, 2 * ones + 1) == v
  {
  }

  lemma FourBits(v: nat)
    requires v < 16
    ensures BitAnd(v, 15) == v && BitAnd(v, 240) == 0
  {
    OneMoreBit(v / 8, 0);
    OneMoreBit(v / 4, 1);
    OneMoreBit(v / 2, 3);
    OneMoreBit(v, 7);
    BitAndHalf(v, 240);
    BitAndHalf(v / 2, 120);
    BitAndHalf(v / 4, 60);
    BitAndHalf(v / 8, 30);
  }

  lemma EightBits(v: nat)
    requires v < 256
    ensures BitAnd(v, 255) == v && BitAnd(v, 0) == 0
  {
    assert BitAnd(v, 0) == 0;
    FiveBits(v / 8);
    SixBits(v / 4);
    hide BitAnd;
    OneMoreBit(v / 2, 63);
    OneMoreBit(v, 127);
  }

  lemma FiveBits(v: nat)
    requires v < 32
    ensures BitAnd(v, 31) == v
  {
    FourBits(v / 2);
    hide BitAnd;
    OneMoreBit(v, 15);
  }

  lemma SixBits(v: nat)
    requires v < 64
    ensures BitAnd(v, 63) == v
  {
    FiveBits(v / 2);
    hide BitAnd;
    OneMoreBit(v, 31);
  }

  /** Whatever the field held, the masked set leaves the value of the plain set.  The bits of
      an IPv6 flow label word that are not written are zero in every key. */
  lemma SetMeansTheSame(k: nat, value: Bytes, before: Bytes, key: FlowKey, ctx: Ctx, i: nat)
    requires SetOK(k, value, key, ctx) && AreBytes(value) && AreBytes(before) && |before| == |value|
    requires k == KEY_IPV6 ==> LabelOK(before)
    requires i < |value|
    ensures var mask := FullMask(k, |value|); mask[i] < 256 && MaskedByte(before[i], value[i], mask[i]) == value[i]
  {
    EightBits(value[i]);
    EightBits(before[i]);
    if k == KEY_IPV6 && i == 33 {
      FourBits(value[i]);
      FourBits(before[i]);
    }
  }

  // The buffer

  datatype Outcome = Ok | Invalid | TooDeep | TooBig

  lemma PutIsAligned(t: nat, data: Bytes)
    ensures |Put(t, data)| % 4 == 0 && |Put(t, data)| == 4 + |data| + PadLen(|data|)
  {
    Aligned(|data|);
    hide PadLen;
  }

  /** Filling in the length of an attribute that was started at `start`. */
  lemma Patched(before: Bytes, t: nat, rest: Bytes)
    ensures var b := before + Header(4, t) + rest;
      var len := |b| - |before|;
      b[|before| := len % 256][|before| + 1 := len / 256] == before + Header(len, t) + rest
  {
  }

  class ActionBuffer {
    /** Where the actions start in the allocation, and the size of what comes before them;
        what an allocation is rounded up to, which is at most 64 KB for the largest one. */
    const off: nat
    const header: nat
    const rounded: nat -> nat
    /** The length of the user's actions, for which the first allocation was made. */
    const inputLen: nat
    var bytes: Bytes
    var capacity: nat

    ghost predicate Valid()
      reads this
    {
      && 0 < off <= header && inputLen <= MAX_ACTIONS_BUFSIZE
      && (forall n :: rounded(n) >= n) && (forall n: nat :: n <= header + MAX_ACTIONS_BUFSIZE ==> rounded(n) <= 0x1_0000)
      && header + inputLen <= capacity <= 0x1_0000 && off + |bytes| <= capacity && |bytes| % 4 == 0
    }

    /** nla_alloc_flow_actions. */
    constructor (off: nat, header: nat, rounded: nat -> nat, inputLen: nat)
      requires 0 < off <= header && inputLen <= MAX_ACTIONS_BUFSIZE && (forall n :: rounded(n) >= n)
      requires forall n: nat :: n <= header + MAX_ACTIONS_BUFSIZE ==> rounded(n) <= 0x1_0000
      ensures Valid() && bytes == [] && this.off == off && this.inputLen == inputLen
    {
      this.off, this.header, this.rounded, this.inputLen := off, header, rounded, inputLen;
      bytes, capacity := [], rounded(header + inputLen);
    }

    /** reserve_sfa_size: makes room for `size` more bytes, in a larger allocation if need be.
        What is written stays within twice the user's actions, for which one doubling is
        enough; the source relies on that and does not look at the size again. */
    method Reserve(size: nat) returns (ok: bool)
      requires Valid()
      modifies this`capacity
      ensures Valid()
      ensures ok && |bytes| + size <= 2 * inputLen ==> off + |bytes| + size <= capacity
      ensures !ok ==> off + |bytes| + size > MAX_ACTIONS_BUFSIZE
    {
      if size <= capacity - (off + |bytes|) {
        return true;
      }
      var newSize := capacity * 2;
      if newSize > MAX_ACTIONS_BUFSIZE {
        if MAX_ACTIONS_BUFSIZE - (off + |bytes|) < size {
          return false;
        }
        newSize := MAX_ACTIONS_BUFSIZE;
      }
      capacity := rounded(header + newSize);
      ok := true;
    }

    /** copy_action and __add_action: appends an attribute. */
    method Append(attr: Bytes) returns (ok: bool)
      requires Valid() && |attr| % 4 == 0 && |bytes| + |attr| <= 2 * inputLen
      modifies this
      ensures Valid()
      ensures ok ==> bytes == old(bytes) + attr
      ensures !ok ==> bytes == old(bytes) && off + |bytes| + |attr| > MAX_ACTIONS_BUFSIZE
    {
      ok := Reserve(|attr|);
      if ok {
        bytes := bytes + attr;
      }
    }

    /** add_nested_action_start. */
    method NestedStart(t: nat) returns (ok: bool, start: nat)
      requires Valid() && |bytes| + 4 <= 2 * inputLen
      modifies this
      ensures Valid() && start == |old(bytes)|
      ensures ok ==> bytes == old(bytes) + Header(4, t)
      ensures !ok ==> bytes == old(bytes) && off + |bytes| + 4 > MAX_ACTIONS_BUFSIZE
    {
      start := |bytes|;
      ok := Append(Header(4, t));
    }

    /** add_nested_action_end: the length goes into two bytes, which is enough for any buffer. */
    method NestedEnd(start: nat, ghost before: Bytes, ghost t: nat, ghost rest: Bytes)
      requires Valid() && bytes == before + Header(4, t) + rest && start == |before| && |rest| % 4 == 0
      modifies this`bytes
      ensures Valid() && bytes == before + Tlv(t, rest, [])
    {
      var len := |bytes| - start;
      Patched(before, t, rest);
      bytes := bytes[start := len % 256][start + 1 := len / 256 % 256];
      assert bytes == before + Tlv(t, rest, []);
    }

    /** The part of validate_set that turns a plain set into a masked one. */
    method AppendMasked(k: nat, value: Bytes) returns (ok: bool)
      requires Valid() && |bytes| + |Encoded(ToMasked(k, value, FullMask(k, |value|)))| <= 2 * inputLen
      modifies this
      ensures Valid()
      ensures ok ==> bytes == old(bytes) + Encoded(ToMasked(k, value, FullMask(k, |value|)))
      ensures !ok ==>
        off + |old(bytes)| + |Encoded(ToMasked(k, value, FullMask(k, |value|)))| > MAX_ACTIONS_BUFSIZE
    {
      var inner := Put(k, value + FullMask(k, |value|));
      PutIsAligned(k, value + FullMask(k, |value|));
      var start;
      ok, start := NestedStart(SET_TO_MASKED);
      if ok {
        ok := Append(inner);
        if ok {
          NestedEnd(start, old(bytes), SET_TO_MASKED, inner);
        }
      }
    }

    /** The start of a sample: its header, its probability, and the header of its actions. */
    method SampleStart(p: Bytes) returns (ok: bool, start: nat, startActs: nat)
      requires Valid() && |p| == 4 && |bytes| + 16 <= 2 * inputLen
      modifies this
      ensures Valid() && start == |old(bytes)| && startActs == start + 12
      ensures ok ==> (
        bytes == old(bytes) + Header(4, SAMPLE) + Put(SAMPLE_PROBABILITY, p) + Header(4, SAMPLE_ACTIONS))
      ensures !ok ==> off + |old(bytes)| + 16 > MAX_ACTIONS_BUFSIZE
    {
      startActs := |bytes| + 12;
      PutIsAligned(SAMPLE_PROBABILITY, p);
      ok, start := NestedStart(SAMPLE);
      if ok {
        ok := Append(Put(SAMPLE_PROBABILITY, p));
        if ok {
          ok, startActs := NestedStart(SAMPLE_ACTIONS);
        }
      }
    }

    /** The end of a sample: both lengths are filled in. */
    method SampleEnd(start: nat, startActs: nat, ghost before: Bytes, ghost p: Bytes, ghost nested: Bytes)
      requires Valid() && start == |before| && startActs == start + 12 && |p| == 4 && |nested| % 4 == 0
      requires bytes ==
        before + Header(4, SAMPLE) + Put(SAMPLE_PROBABILITY, p) + Header(4, SAMPLE_ACTIONS) + nested
      modifies this`bytes
      ensures Valid()
      ensures bytes == before + Tlv(SAMPLE, Put(SAMPLE_PROBABILITY, p) + Tlv(SAMPLE_ACTIONS, nested, []), [])
    {
      PutIsAligned(SAMPLE_PROBABILITY, p);
      ghost var prob := Put(SAMPLE_PROBABILITY, p);
      hide Put;
      NestedEnd(startActs, before + Header(4, SAMPLE) + prob, SAMPLE_ACTIONS, nested);
      ghost var rest := prob + Tlv(SAMPLE_ACTIONS, nested, []);
      assert bytes == before + Header(4, SAMPLE) + rest;
      NestedEnd(start, before, SAMPLE, rest);
    }

    /** validate_and_copy_sample. */
    method CopySample(a: Act, key: FlowKey, ctx: Ctx, depth: nat) returns (r: Outcome)
      requires Valid() && a.Sample? && Padded(a)
      requires |bytes| + |Encoded(Converted(a))| <= 2 * inputLen
      modifies this
      ensures Valid()
      ensures r == Ok ==> Accepts(a, key, ctx, depth) && bytes == old(bytes) + Encoded(Converted(a))
      ensures r == Invalid || r == TooDeep ==> !Accepts(a, key, ctx, depth)
      ensures r == TooBig ==> off + |old(bytes)| + |Encoded(Converted(a))| > MAX_ACTIONS_BUFSIZE
      decreases a, 0
    {
      if !SampleTypes(a) {
        return Invalid;
      }
      var acts, p := ActionsOf(a.attrs), ProbabilityOf(a.attrs);
      ghost var nested := EncodedAll(ConvertedAll(acts));
      SampleSize(p, nested);
      EncodedAligned(acts);
      hide EncodedAll, ConvertedAll, AcceptsAll, Padded, Tlv, Put;
      var ok, start, startActs := SampleStart(p);
      if !ok {
        return TooBig;
      }
      r := CopyActions(acts, key, ctx, depth + 1);
      if r == Ok {
        SampleEnd(start, startActs, old(bytes), p, nested);
      }
    }

    /** __ovs_nla_copy_actions. */
    method CopyActions(acts: seq<Act>, key: FlowKey, start: Ctx, depth: nat) returns (r: Outcome)
      requires Valid() && AllPadded(acts)
      requires |bytes| + |EncodedAll(ConvertedAll(acts))| <= 2 * inputLen
      modifies this
      ensures Valid()
      ensures r == Ok ==> AcceptsAll(acts, key, start, depth) && bytes == old(bytes) + EncodedAll(ConvertedAll(acts))
      ensures r == Invalid || r == TooDeep ==> !AcceptsAll(acts, key, start, depth)
      ensures r == TooBig ==> off + |old(bytes)| + |EncodedAll(ConvertedAll(acts))| > MAX_ACTIONS_BUFSIZE
      decreases acts, 1
    {
      hide EncodedAll, ConvertedAll, Padded, Accepts, Encoded, Converted;
      if depth >= SAMPLE_ACTION_DEPTH {
        return TooDeep;
      }
      var ctx := start;
      NoneYet(acts);
      for i := 0 to |acts|
        invariant Valid() && ctx == AfterAll(acts[..i], start)
        invariant AcceptsAll(acts[..i], key, start, depth)
        invariant bytes == old(bytes) + EncodedAll(ConvertedAll(acts[..i]))
      {
        OneMore(acts, i);
        r := CopyAction(acts[i], key, ctx, depth);
        if r != Ok {
          AcceptsPrefix(acts, key, start, depth, i + 1);
          return;
        }
        ctx := After(acts[i], ctx);
      }
      assert acts[..|acts|] == acts;
      r := Ok;
    }

    /** One round of the loop of __ovs_nla_copy_actions. */
    method CopyAction(a: Act, key: FlowKey, ctx: Ctx, depth: nat) returns (r: Outcome)
      requires Valid() && Padded(a)
      requires |bytes| + |Encoded(Converted(a))| <= 2 * inputLen
      modifies this
      ensures Valid()
      ensures r == Ok ==> Accepts(a, key, ctx, depth) && bytes == old(bytes) + Encoded(Converted(a))
      ensures r == Invalid || r == TooDeep ==> !Accepts(a, key, ctx, depth)
      ensures r == TooBig ==> off + |old(bytes)| + |Encoded(Converted(a))| > MAX_ACTIONS_BUFSIZE
      decreases a, 1
    {
      if a.Sample? {
        r := CopySample(a, key, ctx, depth);
      } else {
        r := CopyFlat(a, key, ctx, depth);
      }
    }

    method CopyFlat(a: Act, key: FlowKey, ctx: Ctx, depth: nat) returns (r: Outcome)
      requires Valid() && Padded(a) && !a.Sample?
      requires |bytes| + |Encoded(Converted(a))| <= 2 * inputLen
      modifies this
      ensures Valid()
      ensures r == Ok ==> Accepts(a, key, ctx, depth) && bytes == old(bytes) + Encoded(Converted(a))
      ensures r == Invalid ==> !Accepts(a, key, ctx, depth)
      ensures r != TooDeep
      ensures r == TooBig ==> off + |old(bytes)| + |Encoded(Converted(a))| > MAX_ACTIONS_BUFSIZE
    {
      hide OtherOK, SetOK, SetMaskedOK;
      EncodedOneAligned(a);
      var ok;
      if a.Other? {
        if !OtherOK(a, key, ctx) {
          return Invalid;
        }
        ok := Append(Tlv(a.raw, a.data, a.pad));
      } else if a.Set? {
        if Type(a.raw) != SET || !SetOK(Type(a.keyRaw), a.value, key, ctx) {
          return Invalid;
        }
        ok := AppendMasked(Type(a.keyRaw), a.value);
      } else {
        if Type(a.raw) != SET_MASKED || !SetMaskedOK(Type(a.keyRaw), a.data, key, ctx) {
          return Invalid;
        }
        ok := Append(Tlv(a.raw, Tlv(a.keyRaw, a.data, a.pad), []));
      }
      r := if ok then Ok else TooBig;
    }
  }

  // Sizes

  lemma TlvSize(raw: nat, data: Bytes, pad: Bytes)
    ensures |Tlv(raw, data, pad)| == 4 + |data| + |pad|
  {
  }

  lemma SampleSize(p: Bytes, nested: Bytes)
    requires |p| == 4
    ensures |Tlv(SAMPLE, Put(SAMPLE_PROBABILITY, p) + Tlv(SAMPLE_ACTIONS, nested, []), [])| == 16 + |nested|
  {
  }

  lemma {:induction false} EncodedAligned(acts: seq<Act>)
    requires AllPadded(acts)
    ensures |EncodedAll(ConvertedAll(acts))| % 4 == 0
    decreases acts
  {
    if acts != [] {
      var n := |acts| - 1;
      EncodedAligned(acts[..n]);
      EncodedOneAligned(acts[n]);
      EncodedSnoc(acts, n);
      hide Encoded, Converted, Padded, EncodedAll, ConvertedAll;
      JoinAligned(EncodedAll(ConvertedAll(acts[..n])), Encoded(Converted(acts[n])));
      assert acts[..n + 1] == acts;
    }
  }

  lemma JoinAligned(a: Bytes, b: Bytes)
    requires |a| % 4 == 0 && |b| % 4 == 0
    ensures |a + b| % 4 == 0
  {
  }

  lemma Aligned(len: nat)
    ensures (4 + len + PadLen(len)) % 4 == 0
  {
  }

  lemma TlvAligned(raw: nat, data: Bytes, pad: Bytes)
    requires |pad| == PadLen(|data|)
    ensures |Tlv(raw, data, pad)| % 4 == 0
  {
    Aligned(|data|);
    hide PadLen;
    TlvSize(raw, data, pad);
  }

  lemma NestedAligned(raw: nat, inner: Bytes)
    requires |inner| % 4 == 0
    ensures |Tlv(raw, inner, [])| % 4 == 0
  {
  }

  lemma SampleAligned(p: Bytes, nested: Bytes)
    requires |p| == 4 && |nested| % 4 == 0
    ensures |Tlv(SAMPLE, Put(SAMPLE_PROBABILITY, p) + Tlv(SAMPLE_ACTIONS, nested, []), [])| % 4 == 0
  {
    SampleSize(p, nested);
    hide Tlv, Put;
  }

  lemma {:induction false} EncodedOneAligned(a: Act)
    requires Padded(a)
    ensures |Encoded(Converted(a))| % 4 == 0
    decreases a
  {
    if a.Sample? {
      if GoodSample(a.attrs) {
        var acts, p := ActionsOf(a.attrs), ProbabilityOf(a.attrs);
        EncodedAligned(acts);
        hide EncodedAll, ConvertedAll, Tlv, Put, PadLen;
        SampleAligned(p, EncodedAll(ConvertedAll(acts)));
      }
    } else {
      hide Tlv, Put, PadLen;
      if a.Other? {
        TlvAligned(a.raw, a.data, a.pad);
      } else if a.Set? {
        var value, k := a.value, Type(a.keyRaw);
        PutIsAligned(k, value + FullMask(k, |value|));
        NestedAligned(SET_TO_MASKED, Put(k, value + FullMask(k, |value|)));
      } else {
        TlvAligned(a.keyRaw, a.data, a.pad);
        NestedAligned(a.raw, Tlv(a.keyRaw, a.data, a.pad));
      }
    }
  }

  lemma NoneYet(acts: seq<Act>)
    ensures EncodedAll(ConvertedAll(acts[..0])) == []
  {
  }

  lemma EncodedSnoc(acts: seq<Act>, i: nat)
    requires i < |acts|
    ensures EncodedAll(ConvertedAll(acts[..i + 1])) == EncodedAll(ConvertedAll(acts[..i])) + Encoded(Converted(acts[i]))
  {
    assert acts[..i + 1][..i] == acts[..i];
    var c := ConvertedAll(acts[..i]);
    hide Encoded, Converted;
    assert (c + [Converted(acts[i])])[..|c|] == c;
  }

  /** One more action in both the list and its encoding, which only grows. */
  lemma OneMore(acts: seq<Act>, i: nat)
    requires i < |acts|
    ensures EncodedAll(ConvertedAll(acts[..i + 1])) == EncodedAll(ConvertedAll(acts[..i])) + Encoded(Converted(acts[i]))
    ensures |EncodedAll(ConvertedAll(acts[..i + 1]))| <= |EncodedAll(ConvertedAll(acts))|
    ensures acts[..i + 1][..i] == acts[..i] && acts[..i + 1][i] == acts[i]
  {
    EncodedSnoc(acts, i);
    EncodedGrows(acts, i + 1);
  }

  lemma {:induction false} EncodedGrows(acts: seq<Act>, i: nat)
    requires i <= |acts|
    ensures |EncodedAll(ConvertedAll(acts[..i]))| <= |EncodedAll(ConvertedAll(acts))|
    decreases |acts| - i
  {
    if i == |acts| {
      assert acts[..i] == acts;
    } else {
      EncodedSnoc(acts, i);
      EncodedGrows(acts, i + 1);
    }
  }

  /** A list is accepted only if each part of it from the start is. */
  lemma {:induction false} AcceptsPrefix(acts: seq<Act>, key: FlowKey, ctx: Ctx, depth: nat, i: nat)
    requires i <= |acts|
    ensures AcceptsAll(acts, key, ctx, depth) ==> AcceptsAll(acts[..i], key, ctx, depth)
    decreases |acts|
  {
    hide Accepts;
    if i < |acts| {
      var n := |acts| - 1;
      AcceptsPrefix(acts[..n], key, ctx, depth, i);
      assert acts[..n][..i] == acts[..i];
    } else {
      assert acts[..i] == acts;
    }
  }
}
