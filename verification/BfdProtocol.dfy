/** Two BFD sessions over a channel that drops, duplicates, delays and reorders: whatever one
    side ever sent, the other may receive at any later time, any number of times. */
module BfdProtocol {
  import opened Bfd

  datatype Node = A | B

  function Peer(n: Node): Node {
    if n == A then B else A
  }

  /** The two sessions and all packets ever sent by each side. */
  datatype System = System(a: Session, b: Session, fromA: set<Msg>, fromB: set<Msg>)

  function At(sys: System, n: Node): Session {
    if n == A then sys.a else sys.b
  }

  function From(sys: System, n: Node): set<Msg> {
    if n == A then sys.fromA else sys.fromB
  }

  function With(sys: System, n: Node, s: Session, sent: set<Msg>): System {
    if n == A then sys.(a := s, fromA := sys.fromA + sent) else sys.(b := s, fromB := sys.fromB + sent)
  }

  /** A packet that is delivered was sent by the other side. */
  predicate Enabled(sys: System, n: Node, step: Step) {
    StepOK(step) && (step.Deliver? ==> step.m in From(sys, Peer(n)))
  }

  function Move(sys: System, n: Node, step: Step): System
    requires Enabled(sys, n, step)
  {
    With(sys, n, Take(At(sys, n), step), if step.Transmit? then {Packet(At(sys, n))} else {})
  }

  /** A run: the systems it passes through, and who took which step. */
  datatype Event = Event(n: Node, step: Step)

  ghost predicate Continues(run: seq<System>, events: seq<Event>) {
    && |run| == |events| + 1
    && forall i {:trigger events[i]} :: 0 <= i < |events| ==>
         Enabled(run[i], events[i].n, events[i].step) && run[i + 1] == Move(run[i], events[i].n, events[i].step)
  }

  /** Nothing is under way, and no session is above Down or polling. */
  predicate Initial(sys: System) {
    && sys.fromA == {} && sys.fromB == {} && SessionOK(sys.a) && SessionOK(sys.b)
    && !Above(sys.a.state) && !Above(sys.b.state)
    && !sys.a.poll && !sys.a.final && !sys.b.poll && !sys.b.final
  }

  ghost predicate IsRun(run: seq<System>, events: seq<Event>) {
    Continues(run, events) && Initial(run[0])
  }

  lemma OneStep(run: seq<System>, events: seq<Event>, i: nat)
    requires Continues(run, events) && i < |events|
    ensures Enabled(run[i], events[i].n, events[i].step)
    ensures var n, step := events[i].n, events[i].step;
      && At(run[i + 1], n) == Take(At(run[i], n), step)
      && At(run[i + 1], Peer(n)) == At(run[i], Peer(n))
      && From(run[i + 1], n) == From(run[i], n) + (if step.Transmit? then {Packet(At(run[i], n))} else {})
      && From(run[i + 1], Peer(n)) == From(run[i], Peer(n))
  {
  }

  /** Both sessions stay well-formed throughout: above Down a session knows the discriminator
      of its peer, and Poll and Final are never both set. */
  lemma {:induction false} AlwaysWellFormed(run: seq<System>, events: seq<Event>, i: nat, n: Node)
    requires IsRun(run, events) && i < |run|
    ensures SessionOK(At(run[i], n))
  {
    if i > 0 {
      AlwaysWellFormed(run, events, i - 1, n);
      OneStep(run, events, i - 1);
      hide Continues, Take;
      if events[i - 1].n == n {
        StepKeeps(At(run[i - 1], n), events[i - 1].step);
      }
    }
  }

  /** Every packet under way was made from a past state of its sender. */
  lemma {:induction false} WasSent(run: seq<System>, events: seq<Event>, i: nat, n: Node, m: Msg) returns (j: nat)
    requires IsRun(run, events) && i < |run| && m in From(run[i], n)
    ensures j < i && events[j].n == n && events[j].step.Transmit? && m == Packet(At(run[j], n))
  {
    OneStep(run, events, i - 1);
    if m in From(run[i - 1], n) {
      j := WasSent(run, events, i - 1, n, m);
    } else {
      j := i - 1;
    }
  }

  /** A session comes up only if its peer was in Init or Up before, holding this session's
      discriminator (section 6.8.6 of RFC 5880). */
  lemma UpNeedsPeer(run: seq<System>, events: seq<Event>, i: nat, n: Node) returns (j: nat)
    requires IsRun(run, events) && i < |events|
    requires At(run[i], n).state != Up && At(run[i + 1], n).state == Up
    ensures j < i && Above(At(run[j], Peer(n)).state)
    ensures At(run[j], Peer(n)).rmtDisc == At(run[i + 1], n).disc
  {
    OneStep(run, events, i);
    var step := events[i].step;
    assert events[i].n == n;
    hide Continues, Take;
    Facts(At(run[i], n), step);
    assert step.Deliver? && Accepted(At(run[i], n), step.m, step.ttl) && Above(step.m.state);
    j := WasSent(run, events, i, Peer(n), step.m);
  }

  /** A session that has Final set, or that sent it, received a Poll that its peer sent. */
  lemma {:induction false} FinalNeedsPoll(run: seq<System>, events: seq<Event>, i: nat, n: Node)
    returns (j: nat, k: nat)
    requires IsRun(run, events) && i < |run| && At(run[i], n).final
    ensures j < i && events[j].n == n && events[j].step.Deliver? && events[j].step.m.poll
    ensures k < j && events[k].n == Peer(n) && events[k].step.Transmit? && At(run[k], Peer(n)).poll
    ensures events[j].step.m == Packet(At(run[k], Peer(n)))
  {
    assert i > 0 && |run| == |events| + 1;
    hide Continues, Take;
    OneStep(run, events, i - 1);
    if events[i - 1].n == n {
      Facts(At(run[i - 1], n), events[i - 1].step);
    }
    if At(run[i - 1], n).final {
      j, k := FinalNeedsPoll(run, events, i - 1, n);
    } else {
      j := i - 1;
      k := WasSent(run, events, j, Peer(n), events[j].step.m);
    }
  }

  /** When a poll sequence ends, the peer has answered a Poll of this session. */
  lemma EndOfPollWasAnswered(run: seq<System>, events: seq<Event>, i: nat, n: Node)
    returns (sent: nat, received: nat)
    requires IsRun(run, events) && i < |events| && events[i].n == n && EndsPoll(At(run[i], n), events[i].step)
    ensures sent < received < i
    ensures events[sent].n == n && events[sent].step.Transmit? && At(run[sent], n).poll
    ensures events[received].n == Peer(n) && events[received].step.Deliver?
    ensures events[received].step.m == Packet(At(run[sent], n))
  {
    OneStep(run, events, i);
    var j := WasSent(run, events, i, Peer(n), events[i].step.m);
    received, sent := FinalNeedsPoll(run, events, j, Peer(n));
  }

  /** A session is in one poll sequence from `i` up to `k`. */
  ghost predicate Polling(run: seq<System>, n: Node, i: nat, k: nat)
    requires k < |run|
  {
    forall t :: i <= t <= k ==> At(run[t], n).poll
  }

  lemma PollStep(run: seq<System>, events: seq<Event>, n: Node, i: nat)
    requires IsRun(run, events) && i < |events| && At(run[i], n).poll && At(run[i + 1], n).poll
    ensures At(run[i + 1], n).pollMinTx == At(run[i], n).pollMinTx
    ensures At(run[i + 1], n).pollMinRx == At(run[i], n).pollMinRx
  {
    OneStep(run, events, i);
    hide Continues, Take, Packet;
    if events[i].n == n {
      PollValuesKept(At(run[i], n), events[i].step);
    }
  }

  lemma {:induction false} PollingKeeps(run: seq<System>, events: seq<Event>, n: Node, i: nat, k: nat)
    requires IsRun(run, events) && i <= k < |run| && Polling(run, n, i, k)
    ensures At(run[k], n).pollMinTx == At(run[i], n).pollMinTx && At(run[k], n).pollMinRx == At(run[i], n).pollMinRx
    decreases k - i
  {
    if i < k {
      PollStep(run, events, n, k - 1);
      PollingKeeps(run, events, n, i, k - 1);
    }
  }

  /** The values a session adopts when its poll sequence ends are those it put on every
      packet it sent during the sequence, each of which had Poll set. */
  lemma AdoptsWhatItPolled(run: seq<System>, events: seq<Event>, n: Node, j: nat, k: nat)
    requires IsRun(run, events) && j <= k < |events| && Polling(run, n, j, k)
    requires events[j].n == n && events[j].step.Transmit?
    requires events[k].n == n && EndsPoll(At(run[k], n), events[k].step) && At(run[k + 1], n).state == Up
    ensures var m := Packet(At(run[j], n));
      && m in From(run[j + 1], n) && m.poll
      && m.minTx == Stamp(At(run[k + 1], n).minTx) && m.minRx == Stamp(At(run[k + 1], n).minRx)
  {
    OneStep(run, events, j);
    OneStep(run, events, k);
    PollingKeeps(run, events, n, j, k);
    hide Continues, Take;
    Facts(At(run[k], n), events[k].step);
  }

  /** In every run, a session that stays up tightens its intervals only by ending a poll. */
  lemma TightenedInRun(run: seq<System>, events: seq<Event>, n: Node, i: nat)
    requires IsRun(run, events) && i < |events| && At(run[i], n).state == Up && At(run[i + 1], n).state == Up
    requires Tightened(At(run[i], n), At(run[i + 1], n))
    ensures events[i].n == n && EndsPoll(At(run[i], n), events[i].step)
    ensures At(run[i + 1], n).minTx == At(run[i], n).pollMinTx && At(run[i + 1], n).minRx == At(run[i], n).pollMinRx
  {
    OneStep(run, events, i);
    assert events[i].n == n;
    hide Continues, Take;
    TightenedByPollOnly(At(run[i], n), events[i].step);
  }
}
