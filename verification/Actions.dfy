/** Executing the actions of a flow on a packet (datapath/actions.c).  Sample and recirculate
    actions are deferred to a queue of bounded size, which the outermost execution empties;
    a packet sent to a port may come back and be executed again, up to a depth of four.

    The functions give the meaning: each output sends a copy at once.  The class below does
    what the source does, which puts off an output until the next action and queues in a
    fixed array, and is proved to have the same meaning, for every flow table. */
module Actions {

  import opened Options

  const FIFO_SIZE: nat := 10
  const RECURSION_LIMIT: nat := 4
  const ETH_HLEN: nat := 14
  const TWO_32: nat := 0x1_0000_0000
  const MAX_PORTS: nat := 0xFFFF

  type Bytes = seq<nat>

  datatype Key = Key(recircId: nat, fields: seq<nat>)

  /** `cutlen` bytes are to be cut off the end when the packet is next sent. */
  datatype Packet = Packet(bytes: Bytes, cutlen: nat)

  /** An action.  Modify stands for the actions that change the packet and its key, or fail.
      `payload` is the size of an argument that may vary. */
  datatype Action =
    | Output(port: nat)
    | Trunc(maxLen: nat)
    | Userspace(payload: nat)
    | Recirc(id: nat)
    | Sample(probability: nat, actions: seq<Action>)
    | Modify(apply: (Bytes, Key) -> Option<(Bytes, Key)>, payload: nat)

  /** Ports have numbers below the limit. */
  predicate WellFormed(a: Action) {
    && (a.Output? ==> a.port < MAX_PORTS)
    && (a.Sample? ==> forall i :: 0 <= i < |a.actions| ==> WellFormed(a.actions[i]))
  }

  predicate AllWellFormed(acts: seq<Action>) {
    forall i :: 0 <= i < |acts| ==> WellFormed(acts[i])
  }

  // Lists of actions are attributes one after the other in memory, each with a header of
  // four bytes and padded to a multiple of four.

  function Align(n: nat): (r: nat)
    ensures n <= r < n + 4 && r % 4 == 0
  {
    (n + 3) / 4 * 4
  }

  /** The size of an action's argument.  That of a sample is a probability and a list. */
  function Payload(a: Action): nat
    decreases a, 0
  {
    match a
    case Userspace(payload) => payload
    case Sample(_, actions) => 8 + 4 + ListLen(actions)
    case Modify(_, payload) => payload
    case _ => 4
  }

  /** How far it is from an attribute to the next one. */
  function Size(a: Action): nat
    decreases a, 1
  {
    Align(4 + Payload(a))
  }

  function ListLen(acts: seq<Action>): (n: nat)
    decreases acts
  {
    if acts == [] then 0 else Size(acts[0]) + ListLen(acts[1..])
  }

  /** The actions met by a loop that starts at a list with `rem` bytes to go. */
  function Walked(list: seq<Action>, rem: int): (r: seq<Action>)
    ensures r <= list
  {
    if rem <= 0 || list == [] then [] else [list[0]] + Walked(list[1..], rem - Size(list[0]))
  }

  /** nla_is_last. */
  predicate IsLast(list: seq<Action>, rem: int)
    requires list != []
  {
    4 + Payload(list[0]) == rem
  }

  /** With the length of the list, the loop meets all of it. */
  lemma {:induction false} FullLengthWalks(list: seq<Action>)
    ensures Walked(list, ListLen(list)) == list
  {
    if list != [] {
      FullLengthWalks(list[1..]);
    }
  }

  /** With the length of the first argument, it stops after that action, or before it if it
      has no argument. */
  lemma FirstLengthWalks(list: seq<Action>)
    requires list != []
    ensures Payload(list[0]) <= ListLen(list)
    ensures Walked(list, Payload(list[0])) == if Payload(list[0]) > 0 then list[..1] else []
  {
    if Payload(list[0]) > 0 {
      assert Payload(list[0]) - Size(list[0]) <= 0;
      assert Walked(list[1..], Payload(list[0]) - Size(list[0])) == [];
    }
  }

  /** A packet put off: to run the actions in memory from a given one on, or to be looked up
      again. */
  datatype Deferred = Deferred(packet: Packet, acts: Option<seq<Action>>, key: Key)

  datatype Effect =
    | Sent(port: nat, bytes: Bytes)
    | Upcalled(bytes: Bytes, cutlen: nat)
    | Missed(key: Key)
    | Dropped

  /** The flow table, which ports there are, where a packet sent to a port comes in again, the
      random numbers drawn, and the attributes found in memory behind a list of actions. */
  datatype Env = Env(table: Key -> Option<seq<Action>>, known: nat -> bool,
                     receive: (nat, Bytes) -> Option<Key>, random: nat -> nat, behind: nat -> Action)

  ghost predicate EnvOK(e: Env) {
    && (forall k :: e.table(k).Some? ==> AllWellFormed(e.table(k).value))
    && (forall n :: WellFormed(e.behind(n)))
  }

  /** `queue` is what was put into the array since it was last empty, of which `tail` have been
      taken out; `queued` and `ran` log all that was ever put in and taken out. */
  datatype World = World(level: nat, queue: seq<Deferred>, tail: nat, queued: seq<Deferred>, ran: seq<Deferred>,
                         trace: seq<Effect>, drawn: nat)

  predicate DeferredOK(d: Deferred) {
    d.acts.Some? ==> d.acts.value != [] && AllWellFormed(d.acts.value)
  }

  predicate WorldOK(w: World) {
    && w.level <= RECURSION_LIMIT && w.tail <= |w.queue| < FIFO_SIZE
    && (forall i :: 0 <= i < |w.queue| ==> DeferredOK(w.queue[i]))
  }

  /** Only effects and entries are added, and entries are not overwritten. */
  ghost predicate Grows(w: World, w': World) {
    && w'.level == w.level && w'.tail == w.tail && w'.ran == w.ran
    && w.queue <= w'.queue && w'.queued == w.queued + w'.queue[|w.queue|..]
    && w.trace <= w'.trace
  }

  lemma GrowsJoin(a: World, b: World, c: World)
    requires Grows(a, b) && Grows(b, c)
    ensures Grows(a, c)
  {
  }

  // The meaning of actions

  function Min(a: nat, b: nat): nat {
    if a < b then a else b
  }

  /** The difference of two unsigned 32-bit numbers. */
  function Sub32(a: nat, b: nat): (d: nat)
    ensures d < TWO_32
  {
    (a - b) % TWO_32
  }

  /** What is left of a packet that is sent.  Trimming to more than there is does nothing. */
  function Trimmed(p: Packet): Bytes {
    var len := |p.bytes|;
    if p.cutlen == 0 then p.bytes
    else if Sub32(len, p.cutlen) > ETH_HLEN then p.bytes[..Min(len, Sub32(len, p.cutlen))]
    else p.bytes[..Min(len, ETH_HLEN)]
  }

  /** A packet of `before` bytes that is truncated to `maxLen` is sent with no more than that,
      exactly if it has not grown since, and has not become so short that what is to be cut
      off is more than there is, unless it is then short enough anyway. */
  lemma TruncatedLength(p: Packet, before: nat, maxLen: nat)
    requires ETH_HLEN <= maxLen < before < TWO_32 && |p.bytes| < TWO_32 && p.cutlen == before - maxLen
    ensures |Trimmed(p)| <= maxLen <==>
      |p.bytes| <= before && (|p.bytes| >= before - maxLen || |p.bytes| <= maxLen)
  {
    if |p.bytes| >= p.cutlen {
      assert Sub32(|p.bytes|, p.cutlen) == |p.bytes| - p.cutlen;
    } else {
      assert Sub32(|p.bytes|, p.cutlen) == TWO_32 + |p.bytes| - p.cutlen;
    }
  }

  function CutTo(p: Packet, maxLen: nat, otherwise: nat): nat {
    if |p.bytes| > maxLen then |p.bytes| - maxLen else otherwise
  }

  function Emit(w: World, e: Effect): World {
    w.(trace := w.trace + [e])
  }

  /** add_deferred_actions: puts an entry in the queue unless it is full. */
  function Put(w: World, d: Deferred): (w': World)
    requires WorldOK(w) && DeferredOK(d)
    ensures WorldOK(w') && Grows(w, w')
  {
    if |w.queue| >= FIFO_SIZE - 1 then Emit(w, Dropped)
    else
      var w' := w.(queue := w.queue + [d], queued := w.queued + [d]);
      assert w'.queue[|w.queue|..] == [d];
      w'
  }

  /** What is left of a sample's list after a truncation at its start. */
  function Rest(acts: seq<Action>): seq<Action>
    requires acts != []
  {
    if acts[0].Trunc? then acts[1..] else acts
  }

  /** Where the entry of a deferred sample points to: past a truncation, even if nothing of
      the list is left there. */
  function Pointed(e: Env, n: nat, acts: seq<Action>): (r: seq<Action>)
    requires acts != []
    ensures r != []
  {
    if Rest(acts) == [] then [e.behind(n)] else Rest(acts)
  }

  /** A list that is one upcall, which may have a truncation before it. */
  predicate AtOnce(acts: seq<Action>)
    requires acts != []
  {
    var rest := Rest(acts);
    rest != [] && rest[0].Userspace? && IsLast(rest, ListLen(rest))
  }

  /** sample: an upcall is made at once; anything else is deferred. */
  function RunSample(e: Env, w: World, p: Packet, key: Key, a: Action): (w': World)
    requires EnvOK(e) && WorldOK(w) && a.Sample? && WellFormed(a)
    ensures WorldOK(w') && Grows(w, w')
  {
    if a.probability == 0 then w
    else
      var w1 := w.(drawn := w.drawn + 1);
      if e.random(w.drawn) > a.probability || |a.actions| == 0 then w1
      else
        var cut := if a.actions[0].Trunc? then CutTo(p, a.actions[0].maxLen, 0) else 0;
        if AtOnce(a.actions) then Emit(w1, Upcalled(p.bytes, cut))
        else Put(w1, Deferred(p, Some(Pointed(e, w.drawn, a.actions)), key))
  }

  /** do_output: sends what is left of the packet, which may come in again. */
  function Send(e: Env, w: World, port: nat, p: Packet): (w': World)
    requires EnvOK(e) && WorldOK(w) && w.level > 0
    ensures WorldOK(w') && Grows(w, w')
    decreases RECURSION_LIMIT + 1 - w.level, 2, 0
  {
    if !e.known(port) then w
    else
      var bytes := Trimmed(p);
      var w1 := Emit(w, Sent(port, bytes));
      match e.receive(port, bytes)
      case None => w1
      case Some(key) =>
        var w2 := Process(e, w1, Packet(bytes, 0), key);
        GrowsJoin(w, w1, w2);
        w2
  }

  /** ovs_dp_process_packet, below the outermost execution. */
  function Process(e: Env, w: World, p: Packet, key: Key): (w': World)
    requires EnvOK(e) && WorldOK(w) && w.level > 0
    ensures WorldOK(w') && Grows(w, w')
    decreases RECURSION_LIMIT + 1 - w.level, 1, 0
  {
    match e.table(key)
    case None => Emit(w, Missed(key))
    case Some(acts) => Execute(e, w, p, key, acts)
  }

  /** ovs_execute_actions, below the outermost execution. */
  function Execute(e: Env, w: World, p: Packet, key: Key, acts: seq<Action>): (w': World)
    requires EnvOK(e) && WorldOK(w) && w.level > 0 && AllWellFormed(acts)
    ensures WorldOK(w') && Grows(w, w')
    decreases RECURSION_LIMIT + 1 - w.level, 0, 0
  {
    if w.level + 1 > RECURSION_LIMIT then Emit(w, Dropped)
    else RunActions(e, w.(level := w.level + 1), p, key, acts).(level := w.level)
  }

  /** do_execute_actions, with each output sent at once. */
  function RunActions(e: Env, w: World, p: Packet, key: Key, acts: seq<Action>): (w': World)
    requires EnvOK(e) && WorldOK(w) && w.level > 0 && AllWellFormed(acts)
    ensures WorldOK(w') && Grows(w, w')
    decreases RECURSION_LIMIT + 1 - w.level, 3, |acts|
  {
    if |acts| == 0 then w
    else if acts[0].Modify? && acts[0].apply(p.bytes, key).None? then w
    else
      var w1 := RunOne(e, w, p, key, acts[0]);
      var (p1, key1) := After(p, key, acts[0]);
      var w2 := RunActions(e, w1, p1, key1, acts[1..]);
      GrowsJoin(w, w1, w2);
      w2
  }

  /** The effects of one action. */
  function RunOne(e: Env, w: World, p: Packet, key: Key, a: Action): (w': World)
    requires EnvOK(e) && WorldOK(w) && w.level > 0 && WellFormed(a)
    ensures WorldOK(w') && Grows(w, w')
    decreases RECURSION_LIMIT + 1 - w.level, 2, 1
  {
    match a
    case Output(port) => Send(e, w, port, p)
    case Userspace(_) => Emit(w, Upcalled(p.bytes, p.cutlen))
    case Recirc(id) => Put(w, Deferred(p, None, key.(recircId := id)))
    case Sample(_, _) => RunSample(e, w, p, key, a)
    case _ => w
  }

  /** The packet and the key that an action leaves for the next one. */
  function After(p: Packet, key: Key, a: Action): (Packet, Key)
    requires a.Modify? ==> a.apply(p.bytes, key).Some?
  {
    match a
    case Output(_) => (p.(cutlen := 0), key)
    case Userspace(_) => (p.(cutlen := 0), key)
    case Trunc(maxLen) => (p.(cutlen := CutTo(p, maxLen, p.cutlen)), key)
    case Modify(apply, _) => (p.(bytes := apply(p.bytes, key).value.0), apply(p.bytes, key).value.1)
    case _ => (p, key)
  }

  /** What running an entry amounts to: the length passed for its list is that of the first
      action's argument. */
  function RunEntry(e: Env, w: World, p: Packet, key: Key, list: seq<Action>): (w': World)
    requires EnvOK(e) && WorldOK(w) && w.level > 0 && list != [] && AllWellFormed(list)
    ensures WorldOK(w') && Grows(w, w')
    decreases RECURSION_LIMIT + 1 - w.level, 4, 0
  {
    RunActions(e, w, p, key, Walked(list, Payload(list[0])))
  }

  /** One round of process_deferred_actions. */
  function RunDeferred(e: Env, w: World): (w': World)
    requires EnvOK(e) && WorldOK(w) && w.level == 1 && w.tail < |w.queue|
    ensures WorldOK(w') && Grows(TakeOne(w), w')
    decreases RECURSION_LIMIT + 1 - w.level, 5, 0
  {
    var d := w.queue[w.tail];
    var w1 := TakeOne(w);
    if d.acts.Some? then RunEntry(e, w1, d.packet, d.key, d.acts.value)
    else Process(e, w1, d.packet, d.key)
  }

  function TakeOne(w: World): World
    requires w.tail < |w.queue|
  {
    w.(tail := w.tail + 1, ran := w.ran + [w.queue[w.tail]])
  }

  /** Everything from `tail` on was taken out, in order. */
  ghost predicate Drained(w: World, w': World) {
    && w'.level == w.level && w'.tail == |w'.queue|
    && w.tail <= |w.queue| && w.queue <= w'.queue && w.trace <= w'.trace
    && w'.queued == w.queued + w'.queue[|w.queue|..]
    && w'.ran == w.ran + w'.queue[w.tail..]
  }

  lemma DrainedJoin(w: World, w1: World, w2: World)
    requires w.tail < |w.queue| && Grows(TakeOne(w), w1) && Drained(w1, w2)
    ensures Drained(w, w2)
  {
  }

  /** process_deferred_actions: all entries, including those added on the way, in order. */
  function Drain(e: Env, w: World): (w': World)
    requires EnvOK(e) && WorldOK(w) && w.level == 1
    ensures WorldOK(w') && Drained(w, w')
    decreases RECURSION_LIMIT + 1 - w.level, 6, FIFO_SIZE - w.tail
  {
    if w.tail == |w.queue| then w
    else
      var w1 := RunDeferred(e, w);
      var w2 := Drain(e, w1);
      DrainedJoin(w, w1, w2);
      w2
  }

  /** The outermost ovs_execute_actions: runs the actions, then everything deferred. */
  function Outermost(e: Env, w: World, p: Packet, key: Key, acts: seq<Action>): (w': World)
    requires EnvOK(e) && WorldOK(w) && w.level == 0 && w.queue == [] && AllWellFormed(acts)
    ensures WorldOK(w') && w'.level == 0 && w'.queue == [] && w'.tail == 0 && w.trace <= w'.trace
  {
    var w1 := RunActions(e, w.(level := 1), p, key, acts);
    Drain(e, w1).(level := 0, queue := [], tail := 0)
  }

  /** For any flow table, an outermost packet defers at most nine entries, and each of them
      runs once, in the order they were queued. */
  lemma DeferredRunInOrder(e: Env, w: World, p: Packet, key: Key, acts: seq<Action>) returns (entries: seq<Deferred>)
    requires EnvOK(e) && WorldOK(w) && w.level == 0 && w.queue == [] && AllWellFormed(acts)
    ensures |entries| <= FIFO_SIZE - 1
    ensures Outermost(e, w, p, key, acts).queued == w.queued + entries
    ensures Outermost(e, w, p, key, acts).ran == w.ran + entries
  {
    hide RunActions, Drain, EnvOK;
    var w1 := RunActions(e, w.(level := 1), p, key, acts);
    var w2 := Drain(e, w1);
    entries := w2.queue;
    assert w2.queue == w1.queue + w2.queue[|w1.queue|..];
    assert w1.queue[0..] == w1.queue;
    assert w2.queue[0..] == w2.queue;
  }

  /** What is still to be done when an output has been put off. */
  function Flushed(e: Env, w: World, p: Packet, prev: Option<nat>): (w': World)
    requires EnvOK(e) && WorldOK(w) && w.level > 0
    ensures WorldOK(w') && Grows(w, w')
  {
    if prev.Some? then Send(e, w, prev.value, p) else w
  }

  function FlushedPacket(p: Packet, prev: Option<nat>): Packet {
    if prev.Some? then p.(cutlen := 0) else p
  }

  class Datapath {
    const e: Env
    const fifo: array<Deferred>
    var head: nat
    var tail: nat
    var level: nat
    var queued: seq<Deferred>
    var ran: seq<Deferred>
    var trace: seq<Effect>
    var drawn: nat

    ghost function Now(): World
      requires head <= fifo.Length
      reads this, fifo
    {
      World(level, fifo[..head], tail, queued, ran, trace, drawn)
    }

    ghost predicate Valid()
      reads this, fifo
    {
      EnvOK(e) && fifo.Length == FIFO_SIZE && head < FIFO_SIZE && WorldOK(Now())
    }

    constructor (e: Env)
      requires EnvOK(e)
      ensures Valid() && this.e == e && fresh(fifo)
      ensures Now() == World(0, [], 0, [], [], [], 0)
    {
      this.e, head, tail, level, drawn := e, 0, 0, 0, 0;
      queued, ran, trace := [], [], [];
      fifo := new Deferred[FIFO_SIZE](i => Deferred(Packet([], 0), None, Key(0, [])));
    }

    /** add_deferred_actions. */
    method AddDeferred(d: Deferred)
      requires Valid() && DeferredOK(d)
      modifies this, fifo
      ensures Valid() && Now() == Put(old(Now()), d)
    {
      if head >= FIFO_SIZE - 1 {
        trace := trace + [Dropped];
      } else {
        fifo[head] := d;
        head := head + 1;
        queued := queued + [d];
        assert fifo[..head] == old(fifo[..head]) + [d];
      }
    }

    /** sample. */
    method DoSample(p: Packet, key: Key, a: Action)
      requires Valid() && a.Sample? && WellFormed(a)
      modifies this, fifo
      ensures Valid() && Now() == RunSample(e, old(Now()), p, key, a)
    {
      if a.probability == 0 {
        return;
      }
      drawn := drawn + 1;
      if e.random(drawn - 1) > a.probability {
        return;
      }
      var list, rem := a.actions, ListLen(a.actions);
      if rem == 0 {
        return;
      }
      var cutlen := 0;
      if list[0].Trunc? {
        if |p.bytes| > list[0].maxLen {
          cutlen := |p.bytes| - list[0].maxLen;
        }
        rem := rem - Size(list[0]);
        list := if |list| == 1 then [e.behind(drawn - 1)] else list[1..];
      }
      assert |a.actions| == 1 ==> ListLen(a.actions[1..]) == 0;
      assert if Rest(a.actions) == [] then rem == 0 else list == Rest(a.actions) && rem == ListLen(list);
      if list[0].Userspace? && IsLast(list, rem) {
        trace := trace + [Upcalled(p.bytes, cutlen)];
      } else {
        AddDeferred(Deferred(p, Some(list), key));
      }
    }

    /** do_output. */
    method DoOutput(port: nat, p: Packet)
      requires Valid() && level > 0
      modifies this, fifo
      ensures Valid() && Now() == Send(e, old(Now()), port, p)
      decreases RECURSION_LIMIT + 1 - level, 2
    {
      if e.known(port) {
        var bytes := Trimmed(p);
        trace := trace + [Sent(port, bytes)];
        var key := e.receive(port, bytes);
        if key.Some? {
          ProcessPacket(Packet(bytes, 0), key.value);
        }
      }
    }

    /** ovs_dp_process_packet, for a packet that comes in while another is executed. */
    method ProcessPacket(p: Packet, key: Key)
      requires Valid() && level > 0
      modifies this, fifo
      ensures Valid() && Now() == Process(e, old(Now()), p, key)
      decreases RECURSION_LIMIT + 1 - level, 1
    {
      var acts := e.table(key);
      if acts.None? {
        trace := trace + [Missed(key)];
      } else {
        ExecuteActions(p, key, acts.value);
      }
    }

    /** ovs_execute_actions. */
    method ExecuteActions(p: Packet, key: Key, acts: seq<Action>)
      requires Valid() && AllWellFormed(acts) && (level == 0 ==> head == 0)
      modifies this, fifo
      ensures Valid()
      ensures old(level) > 0 ==> Now() == Execute(e, old(Now()), p, key, acts)
      ensures old(level) == 0 ==> old(fifo[..head]) == [] && Now() == Outermost(e, old(Now()), p, key, acts)
      decreases RECURSION_LIMIT + 1 - level, 0
    {
      if level + 1 > RECURSION_LIMIT {
        trace := trace + [Dropped];
        return;
      }
      level := level + 1;
      FullLengthWalks(acts);
      DoExecuteActions(p, key, acts, ListLen(acts));
      if level == 1 {
        ProcessDeferred();
      }
      level := level - 1;
    }

    /** One action of do_execute_actions.  An output is left in `prev`. */
    method DoAction(p: Packet, key: Key, a: Action) returns (p': Packet, key': Key, prev: Option<nat>, failed: bool)
      requires Valid() && level > 0 && WellFormed(a)
      modifies this, fifo
      ensures Valid() && level == old(level)
      ensures failed <==> a.Modify? && a.apply(p.bytes, key).None?
      ensures failed ==> Now() == old(Now())
      ensures prev.Some? ==> a.Output?
      ensures !failed ==> After(p, key, a) == (FlushedPacket(p', prev), key')
      ensures !failed ==> RunOne(e, old(Now()), p, key, a) == Flushed(e, Now(), p', prev)
      decreases RECURSION_LIMIT + 1 - level, 3, 0
    {
      p', key', prev, failed := p, key, None, false;
      match a
      case Output(port) =>
        prev := Some(port);
      case Trunc(maxLen) =>
        if |p.bytes| > maxLen {
          p' := p.(cutlen := |p.bytes| - maxLen);
        }
      case Userspace(_) =>
        trace := trace + [Upcalled(p.bytes, p.cutlen)];
        p' := p.(cutlen := 0);
      case Recirc(id) =>
        AddDeferred(Deferred(p, None, key.(recircId := id)));
      case Sample(_, _) =>
        DoSample(p, key, a);
      case Modify(apply, _) =>
        var changed := apply(p.bytes, key);
        if changed.None? {
          failed := true;
        } else {
          p', key' := p.(bytes := changed.value.0), changed.value.1;
        }
    }

    /** do_execute_actions, for the attributes in memory from `list` on and a length, which may
        be less than that of the list.  An output is put off until the next action. */
    method DoExecuteActions(packet: Packet, k: Key, list: seq<Action>, len: int)
      requires Valid() && level > 0 && AllWellFormed(list) && len <= ListLen(list)
      modifies this, fifo
      ensures Valid() && Now() == RunActions(e, old(Now()), packet, k, Walked(list, len))
      decreases RECURSION_LIMIT + 1 - level, 3
    {
      hide RunOne, After, Send, Payload, EnvOK;
      var p, key, a, rem := packet, k, list, len;
      var prev: Option<nat> := None;
      while rem > 0
        invariant Valid() && level == old(level) && AllWellFormed(a) && rem <= ListLen(a)
        invariant RunActions(e, old(Now()), packet, k, Walked(list, len)) ==
          RunActions(e, Flushed(e, Now(), p, prev), FlushedPacket(p, prev), key, Walked(a, rem))
        decreases |a|
      {
        if prev.Some? {
          DoOutput(prev.value, p);
          p := p.(cutlen := 0);
          prev := None;
        }
        assert Walked(a, rem)[0] == a[0] && Walked(a, rem)[1..] == Walked(a[1..], rem - Size(a[0]));
        var failed;
        p, key, prev, failed := DoAction(p, key, a[0]);
        if failed || (a[0].Recirc? && IsLast(a, rem)) {
          assert !failed ==> rem - Size(a[0]) <= 0;
          return;
        }
        a, rem := a[1..], rem - Size(a[0]);
      }
      if prev.Some? {
        DoOutput(prev.value, p);
      }
    }

    /** Takes out and runs one deferred entry. */
    method RunNext()
      requires Valid() && level == 1 && tail < head
      modifies this, fifo
      ensures Valid() && level == 1 && tail == old(tail) + 1
      ensures old(tail) < |old(Now()).queue| && Now() == RunDeferred(e, old(Now()))
      decreases RECURSION_LIMIT + 1 - level, 4
    {
      var d := fifo[tail];
      assert DeferredOK(Now().queue[tail]);
      tail := tail + 1;
      ran := ran + [d];
      assert Now() == TakeOne(old(Now()));
      if d.acts.Some? {
        FirstLengthWalks(d.acts.value);
        DoExecuteActions(d.packet, d.key, d.acts.value, Payload(d.acts.value[0]));
      } else {
        ProcessPacket(d.packet, d.key);
      }
    }

    /** process_deferred_actions. */
    method ProcessDeferred()
      requires Valid() && level == 1
      modifies this, fifo
      ensures Valid() && Now() == Drain(e, old(Now())).(queue := [], tail := 0)
      decreases RECURSION_LIMIT + 1 - level, 5
    {
      hide RunDeferred;
      while head != tail
        invariant Valid() && level == 1
        invariant Drain(e, old(Now())) == Drain(e, Now())
        decreases FIFO_SIZE - tail
      {
        RunNext();
      }
      head, tail := 0, 0;
    }
  }
}
