/** What a sample amounts to (datapath/actions.c).  Its list of actions is to be executed on a
    copy of the packet.  The code makes a single upcall at once; for any other list it defers
    a pointer into the list, behind a truncation at the start, and later walks from there with
    the length of one argument.  The exact conditions under which the effects are those of
    the list are given here, for a packet and a list. */
module DeferredSamples {
  import opened Options
  import opened Actions

  predicate Fails(p: Packet, key: Key, a: Action) {
    a.Modify? && a.apply(p.bytes, key).None?
  }

  /** An action that does something besides changing the packet. */
  predicate Effective(a: Action) {
    a.Output? || a.Userspace? || a.Recirc? || (a.Sample? && a.probability > 0)
  }

  /** No effective action of a list is reached. */
  predicate Quiet(p: Packet, key: Key, acts: seq<Action>)
    decreases |acts|
  {
    if acts == [] || Fails(p, key, acts[0]) then true
    else !Effective(acts[0]) && Quiet(After(p, key, acts[0]).0, After(p, key, acts[0]).1, acts[1..])
  }

  /** An action has the same effects on two packets that differ at most in how much is to be
      cut off. */
  predicate SameEffects(p: Packet, p': Packet, a: Action) {
    || p == p'
    || (match a
        case Output(_) => Trimmed(p) == Trimmed(p')
        case Userspace(_) => false
        case Recirc(_) => false
        case Sample(probability, acts) => probability == 0 || acts == [] || AtOnce(acts)
        case _ => true)
  }

  /** The packet as the list, without a truncation at its start, is to see it. */
  function Cut(p: Packet, acts: seq<Action>): (p': Packet)
    requires acts != []
    ensures p'.bytes == p.bytes
  {
    if acts[0].Trunc? then p.(cutlen := CutTo(p, acts[0].maxLen, p.cutlen)) else p
  }

  /** The condition: the one action that runs has the effects it would have on the truncated
      packet, and nothing that follows it does anything. */
  predicate OneActionDoes(p: Packet, key: Key, acts: seq<Action>)
    requires acts != []
  {
    var rest, p' := Rest(acts), Cut(p, acts);
    rest != [] &&
    if Payload(rest[0]) == 0 then Quiet(p', key, rest)
    else
      && SameEffects(p, p', rest[0])
      && (Fails(p', key, rest[0]) ||
          Quiet(After(p', key, rest[0]).0, After(p', key, rest[0]).1, rest[1..]))
  }

  /** The entry of a deferred sample has the effects of the sample's list, for every flow table,
      whatever is behind the list, and whatever was done before. */
  ghost predicate RunsAsWritten(p: Packet, key: Key, acts: seq<Action>)
    requires acts != [] && AllWellFormed(acts)
  {
    forall e: Env, w: World, n: nat :: EnvOK(e) && WorldOK(w) && w.level == 1 ==> EntryIsList(e, w, n, p, key, acts)
  }

  ghost predicate EntryIsList(e: Env, w: World, n: nat, p: Packet, key: Key, acts: seq<Action>)
    requires acts != [] && AllWellFormed(acts) && EnvOK(e) && WorldOK(w) && w.level == 1
  {
    RunEntry(e, w, p, key, Pointed(e, n, acts)) == RunActions(e, w, p, key, acts)
  }

  // If the condition holds

  lemma {:induction false} QuietDoesNothing(e: Env, w: World, p: Packet, key: Key, acts: seq<Action>)
    requires EnvOK(e) && WorldOK(w) && w.level > 0 && AllWellFormed(acts) && Quiet(p, key, acts)
    ensures RunActions(e, w, p, key, acts) == w
    decreases |acts|
  {
    if acts != [] && !Fails(p, key, acts[0]) {
      QuietDoesNothing(e, w, After(p, key, acts[0]).0, After(p, key, acts[0]).1, acts[1..]);
    }
  }

  /** A truncation at the start only changes the packet. */
  lemma RunRest(e: Env, w: World, p: Packet, key: Key, acts: seq<Action>)
    requires acts != [] && EnvOK(e) && WorldOK(w) && w.level > 0 && AllWellFormed(acts)
    ensures RunActions(e, w, p, key, acts) == RunActions(e, w, Cut(p, acts), key, Rest(acts))
  {
  }

  lemma RunFirst(e: Env, w: World, p: Packet, key: Key, acts: seq<Action>)
    requires acts != [] && EnvOK(e) && WorldOK(w) && w.level > 0 && AllWellFormed(acts) && !Fails(p, key, acts[0])
    ensures RunActions(e, w, p, key, acts[..1]) == RunOne(e, w, p, key, acts[0])
    ensures RunActions(e, w, p, key, acts) ==
      RunActions(e, RunOne(e, w, p, key, acts[0]), After(p, key, acts[0]).0, After(p, key, acts[0]).1, acts[1..])
  {
  }

  lemma SameEffectsRun(e: Env, w: World, p: Packet, p': Packet, key: Key, a: Action)
    requires EnvOK(e) && WorldOK(w) && w.level > 0 && WellFormed(a) && p'.bytes == p.bytes && SameEffects(p, p', a)
    ensures RunOne(e, w, p, key, a) == RunOne(e, w, p', key, a)
  {
  }

  lemma OneActionSuffices(e: Env, w: World, n: nat, p: Packet, key: Key, acts: seq<Action>)
    requires acts != [] && AllWellFormed(acts) && EnvOK(e) && WorldOK(w) && w.level == 1
    requires OneActionDoes(p, key, acts)
    ensures EntryIsList(e, w, n, p, key, acts)
  {
    hide RunActions, RunOne, Payload, EnvOK, WorldOK;
    var rest, p' := Rest(acts), Cut(p, acts);
    RunRest(e, w, p, key, acts);
    FirstLengthWalks(rest);
    if Payload(rest[0]) == 0 {
      QuietDoesNothing(e, w, p', key, rest);
      QuietDoesNothing(e, w, p, key, []);
    } else if Fails(p', key, rest[0]) {
      QuietDoesNothing(e, w, p', key, rest);
      QuietDoesNothing(e, w, p, key, rest[..1]);
    } else {
      RunFirst(e, w, p, key, rest);
      RunFirst(e, w, p', key, rest);
      SameEffectsRun(e, w, p, p', key, rest[0]);
      QuietDoesNothing(e, RunOne(e, w, p', key, rest[0]), After(p', key, rest[0]).0, After(p', key, rest[0]).1, rest[1..]);
    }
  }

  // If it does not: an environment in which every effect shows

  /** All ports exist, nothing comes in again, samples are taken. */
  function Plain(): Env {
    Env(_ => None, _ => true, (_, _) => None, _ => 0, _ => Output(0))
  }

  function Start(): World {
    World(1, [], 0, [], [], [], 0)
  }

  function Weight(w: World): nat {
    |w.trace| + |w.queue| + w.drawn
  }

  lemma EffectShows(w: World, p: Packet, key: Key, a: Action)
    requires WorldOK(w) && w.level > 0 && WellFormed(a)
    ensures EnvOK(Plain())
    ensures var w' := RunOne(Plain(), w, p, key, a);
      Weight(w') >= Weight(w) && (Effective(a) ==> Weight(w') > Weight(w))
  {
  }

  lemma {:induction false} RunAddsWeight(w: World, p: Packet, key: Key, acts: seq<Action>)
    requires WorldOK(w) && w.level > 0 && AllWellFormed(acts) && EnvOK(Plain())
    ensures var w' := RunActions(Plain(), w, p, key, acts);
      Weight(w') >= Weight(w) && (!Quiet(p, key, acts) ==> Weight(w') > Weight(w))
    decreases |acts|
  {
    if acts != [] && !Fails(p, key, acts[0]) {
      hide RunOne, EnvOK, Plain, Effective, After;
      EffectShows(w, p, key, acts[0]);
      var w1 := RunOne(Plain(), w, p, key, acts[0]);
      RunAddsWeight(w1, After(p, key, acts[0]).0, After(p, key, acts[0]).1, acts[1..]);
    }
  }

  /** Different effects of an action differ at once, whatever follows. */
  lemma DifferenceShows(p: Packet, p': Packet, key: Key, a: Action, w': World)
    requires WellFormed(a) && p'.bytes == p.bytes && !SameEffects(p, p', a) && EnvOK(Plain())
    requires Grows(RunOne(Plain(), Start(), p', key, a), w')
    ensures RunOne(Plain(), Start(), p, key, a) != w'
  {
    var w := RunOne(Plain(), Start(), p, key, a);
    match a
    case Output(_) =>
      assert w.trace == [Sent(a.port, Trimmed(p))] && w'.trace[0] == Sent(a.port, Trimmed(p'));
    case Userspace(_) =>
      assert w.trace == [Upcalled(p.bytes, p.cutlen)] && w'.trace[0] == Upcalled(p.bytes, p'.cutlen);
    case Recirc(_) =>
      assert w.queue[0].packet == p && w'.queue[0].packet == p';
    case Sample(_, _) =>
      assert w.queue[0].packet == p && w'.queue[0].packet == p';
    case _ =>
  }

  lemma PlainOK()
    ensures EnvOK(Plain()) && WorldOK(Start())
  {
  }

  lemma NoActions(e: Env, w: World, p: Packet, key: Key)
    requires EnvOK(e) && WorldOK(w) && w.level > 0
    ensures RunActions(e, w, p, key, []) == w
  {
  }

  /** A list that is only a truncation: what happens to be behind it runs. */
  lemma NothingLeft(p: Packet, key: Key, p': Packet)
    requires EnvOK(Plain()) && WorldOK(Start())
    ensures RunActions(Plain(), Start(), p, key, [Output(0)]) != RunActions(Plain(), Start(), p', key, [])
  {
    RunFirst(Plain(), Start(), p, key, [Output(0)]);
    assert [Output(0)][..1] == [Output(0)];
  }

  /** The one action that runs has other effects than it is to have. */
  lemma FirstDiffers(p: Packet, p': Packet, key: Key, rest: seq<Action>)
    requires rest != [] && AllWellFormed(rest) && p'.bytes == p.bytes && !SameEffects(p, p', rest[0])
    requires EnvOK(Plain()) && WorldOK(Start())
    ensures RunActions(Plain(), Start(), p, key, rest[..1]) != RunActions(Plain(), Start(), p', key, rest)
  {
    assert !Fails(p, key, rest[0]) && !Fails(p', key, rest[0]);
    hide RunActions, RunOne, EnvOK, WorldOK, SameEffects;
    RunFirst(Plain(), Start(), p, key, rest);
    RunFirst(Plain(), Start(), p', key, rest);
    DifferenceShows(p, p', key, rest[0], RunActions(Plain(), Start(), p', key, rest));
  }

  /** An action that does not run would have had an effect. */
  lemma TailDiffers(p: Packet, p': Packet, key: Key, rest: seq<Action>)
    requires rest != [] && AllWellFormed(rest) && p'.bytes == p.bytes && SameEffects(p, p', rest[0])
    requires !Fails(p', key, rest[0]) && !Quiet(After(p', key, rest[0]).0, After(p', key, rest[0]).1, rest[1..])
    requires EnvOK(Plain()) && WorldOK(Start())
    ensures RunActions(Plain(), Start(), p, key, rest[..1]) != RunActions(Plain(), Start(), p', key, rest)
  {
    hide RunActions, RunOne, EnvOK, WorldOK, SameEffects, Quiet, After;
    RunFirst(Plain(), Start(), p, key, rest);
    RunFirst(Plain(), Start(), p', key, rest);
    SameEffectsRun(Plain(), Start(), p, p', key, rest[0]);
    var w := RunOne(Plain(), Start(), p', key, rest[0]);
    RunAddsWeight(w, After(p', key, rest[0]).0, After(p', key, rest[0]).1, rest[1..]);
  }

  /** No action runs, and one would have had an effect. */
  lemma NoneDiffers(p: Packet, p': Packet, key: Key, rest: seq<Action>)
    requires AllWellFormed(rest) && !Quiet(p', key, rest) && EnvOK(Plain()) && WorldOK(Start())
    ensures RunActions(Plain(), Start(), p, key, []) != RunActions(Plain(), Start(), p', key, rest)
  {
    hide RunActions, EnvOK, WorldOK, Quiet;
    RunAddsWeight(Start(), p', key, rest);
    NoActions(Plain(), Start(), p, key);
  }

  /** Without the condition, the entry and the list differ in that environment. */
  lemma OtherwiseDiffers(p: Packet, key: Key, acts: seq<Action>)
    requires acts != [] && AllWellFormed(acts) && !OneActionDoes(p, key, acts)
    ensures EnvOK(Plain()) && WorldOK(Start()) && !EntryIsList(Plain(), Start(), 0, p, key, acts)
  {
    PlainOK();
    var rest, p' := Rest(acts), Cut(p, acts);
    RunRest(Plain(), Start(), p, key, acts);
    FirstLengthWalks(Pointed(Plain(), 0, acts));
    hide RunActions, Payload, EnvOK, WorldOK, Quiet, SameEffects, After, AllWellFormed;
    if rest == [] {
      assert Pointed(Plain(), 0, acts)[..1] == [Output(0)];
      NothingLeft(p, key, p');
    } else if Payload(rest[0]) == 0 {
      NoneDiffers(p, p', key, rest);
    } else if !SameEffects(p, p', rest[0]) {
      FirstDiffers(p, p', key, rest);
    } else {
      TailDiffers(p, p', key, rest);
    }
  }

  /** A deferred sample does what its list says exactly if the one action that runs does all
      of it. */
  lemma DeferredExact(p: Packet, key: Key, acts: seq<Action>)
    requires acts != [] && AllWellFormed(acts)
    ensures RunsAsWritten(p, key, acts) <==> OneActionDoes(p, key, acts)
  {
    if OneActionDoes(p, key, acts) {
      forall e: Env, w: World, n: nat | EnvOK(e) && WorldOK(w) && w.level == 1
        ensures EntryIsList(e, w, n, p, key, acts)
      {
        OneActionSuffices(e, w, n, p, key, acts);
      }
    } else {
      OtherwiseDiffers(p, key, acts);
    }
  }

  /** A deferred sample with two outputs: only the first is made. */
  lemma SecondOutputLost(e: Env, w: World, p: Packet, key: Key, a: nat, b: nat)
    requires EnvOK(e) && WorldOK(w) && w.level == 1 && w.queue == [] && a < MAX_PORTS && b < MAX_PORTS
    requires e.known(a) && e.known(b) && e.receive(a, Trimmed(p)).None? && e.random(w.drawn) == 0
    ensures var deferred := RunSample(e, w, p, key, Sample(1, [Output(a), Output(b)]));
      deferred.tail < |deferred.queue| && RunDeferred(e, deferred).trace == w.trace + [Sent(a, Trimmed(p))]
  {
    var acts := [Output(a), Output(b)];
    var deferred := RunSample(e, w, p, key, Sample(1, acts));
    assert deferred.queue == [Deferred(p, Some(acts), key)];
    FirstLengthWalks(acts);
    RunFirst(e, TakeOne(deferred), p, key, acts);
  }

  /** A deferred sample with a truncation and an output: the packet is sent whole. */
  lemma TruncationLost(e: Env, w: World, p: Packet, key: Key, maxLen: nat, a: nat)
    requires EnvOK(e) && WorldOK(w) && w.level == 1 && w.queue == [] && a < MAX_PORTS && p.cutlen == 0
    requires e.known(a) && e.receive(a, p.bytes).None? && e.random(w.drawn) == 0
    ensures var deferred := RunSample(e, w, p, key, Sample(1, [Trunc(maxLen), Output(a)]));
      deferred.tail < |deferred.queue| && RunDeferred(e, deferred).trace == w.trace + [Sent(a, p.bytes)]
  {
    var acts := [Trunc(maxLen), Output(a)];
    var deferred := RunSample(e, w, p, key, Sample(1, acts));
    assert acts[1..] == [Output(a)];
    assert deferred.queue == [Deferred(p, Some([Output(a)]), key)];
    FirstLengthWalks([Output(a)]);
    RunFirst(e, TakeOne(deferred), p, key, [Output(a)]);
  }

  /** The upcall that is made at once is the one the list asks for, exactly if nothing was to
      be cut off before, or the list itself cuts off something. */
  lemma UpcallExact(e: Env, w: World, p: Packet, key: Key, acts: seq<Action>, probability: nat)
    requires acts != [] && AllWellFormed(acts) && EnvOK(e) && WorldOK(w) && w.level > 0
    requires AtOnce(acts) && 0 < probability && e.random(w.drawn) <= probability
    ensures var meant := RunActions(e, w.(drawn := w.drawn + 1), p, key, acts);
      RunSample(e, w, p, key, Sample(probability, acts)) == meant <==>
        p.cutlen == 0 || (acts[0].Trunc? && |p.bytes| > acts[0].maxLen)
  {
    var rest, w1 := Rest(acts), w.(drawn := w.drawn + 1);
    LastIsAlone(rest);
    RunRest(e, w1, p, key, acts);
    RunFirst(e, w1, Cut(p, acts), key, rest);
    assert rest[..1] == rest;
    var made, meant := RunSample(e, w, p, key, Sample(probability, acts)), RunActions(e, w1, p, key, acts);
    assert meant == Emit(w1, Upcalled(p.bytes, Cut(p, acts).cutlen));
    assert made == meant <==> made.trace[|w.trace|] == meant.trace[|w.trace|];
  }

  /** An attribute that ends with the list is alone in it. */
  lemma LastIsAlone(list: seq<Action>)
    requires list != []
    ensures |list| > 1 ==> !IsLast(list, ListLen(list))
  {
    if |list| > 1 {
      assert ListLen(list) == Size(list[0]) + ListLen(list[1..]);
      assert ListLen(list[1..]) >= Size(list[1]) >= 4;
    }
  }
}
