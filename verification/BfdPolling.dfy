/** Poll sequences of two BFD sessions.  A Final is to answer the Poll of the sequence that it
    ends (section 6.5 of RFC 5880).  lib/bfd.c takes any Final, so one that is received again
    ends a later sequence; here is a run in which that happens, when it can happen, and when
    it can not. */
module BfdPolling {
  import opened Bfd
  import opened BfdProtocol

  /** An answer that `n` would take is under way. */
  predicate FinalUnderWay(sys: System, n: Node) {
    exists m :: m in From(sys, Peer(n)) && m.final && Accepted(At(sys, n), m, 255)
  }

  // Ending a sequence without the peer

  /** From `sys` on, `n` takes all the steps, and the last of them ends the sequence it is in. */
  ghost predicate EndsAlone(sys: System, n: Node, run: seq<System>, events: seq<Event>) {
    && Continues(run, events) && run[0] == sys && events != []
    && (forall i :: 0 <= i < |events| ==> events[i].n == n)
    && Polling(run, n, 0, |events| - 1)
    && EndsPoll(At(run[|events| - 1], n), events[|events| - 1].step)
  }

  lemma StaysTheSame(s: Session, step: Step)
    requires StepOK(step) && s.poll && Take(s, step).poll
    ensures Take(s, step).disc == s.disc
  {
    hide Take;
    Facts(s, step);
  }

  lemma {:induction false} AloneKeeps(run: seq<System>, events: seq<Event>, n: Node, i: nat)
    requires Continues(run, events) && i < |events| && (forall j :: 0 <= j < |events| ==> events[j].n == n)
    requires Polling(run, n, 0, |events| - 1)
    ensures At(run[i], n).disc == At(run[0], n).disc && From(run[i], Peer(n)) == From(run[0], Peer(n))
  {
    if i > 0 {
      AloneKeeps(run, events, n, i - 1);
      OneStep(run, events, i - 1);
      assert At(run[i - 1], n).poll && At(run[i], n).poll && events[i - 1].n == n;
      hide Continues, Take;
      StaysTheSame(At(run[i - 1], n), events[i - 1].step);
    }
  }

  /** A session can end its poll sequence with no step of its peer, exactly if an answer that
      it would take is under way already. */
  lemma AloneExact(sys: System, n: Node)
    requires At(sys, n).poll
    ensures (exists run, events :: EndsAlone(sys, n, run, events)) <==> FinalUnderWay(sys, n)
  {
    if run: seq<System>, events: seq<Event> :| EndsAlone(sys, n, run, events) {
      var i := |events| - 1;
      AloneKeeps(run, events, n, i);
      OneStep(run, events, i);
      var m := events[i].step.m;
      assert m in From(sys, Peer(n)) && m.final && Accepted(At(sys, n), m, 255);
    }
    if m :| m in From(sys, Peer(n)) && m.final && Accepted(At(sys, n), m, 255) {
      var step := Deliver(m, 255, 0, 0);
      var run, events := [sys, Move(sys, n, step)], [Event(n, step)];
      hide Take, Accepted;
      assert EndsAlone(sys, n, run, events);
    }
  }

  // Sequences that are answered

  /** The first sequence in which a session sends a Poll is ended by an answer to a Poll of
      that sequence, so that the peer has been told the values that are adopted. */
  lemma FirstPollIsAnswered(run: seq<System>, events: seq<Event>, n: Node, start: nat, end: nat)
    returns (sent: nat, received: nat)
    requires IsRun(run, events) && start <= end < |events| && Polling(run, n, start, end)
    requires events[end].n == n && EndsPoll(At(run[end], n), events[end].step)
    requires forall j :: 0 <= j < start && events[j].n == n && events[j].step.Transmit? ==> !At(run[j], n).poll
    ensures start <= sent < received < end
    ensures events[sent].n == n && events[sent].step.Transmit?
    ensures events[received].n == Peer(n) && events[received].step.Deliver?
    ensures var m := events[received].step.m;
      && m == Packet(At(run[sent], n)) && m.poll
      && (At(run[end + 1], n).state == Up ==>
            m.minTx == Stamp(At(run[end + 1], n).minTx) && m.minRx == Stamp(At(run[end + 1], n).minRx))
  {
    sent, received := EndOfPollWasAnswered(run, events, end, n);
    assert Polling(run, n, sent, end);
    if At(run[end + 1], n).state == Up {
      AdoptsWhatItPolled(run, events, n, sent, end);
    }
  }

  // A run in which a sequence is not answered

  function Last(run: seq<System>): System
    requires run != []
  {
    run[|run| - 1]
  }

  lemma Extend(run: seq<System>, events: seq<Event>, n: Node, step: Step)
    returns (run': seq<System>, events': seq<Event>)
    requires IsRun(run, events) && Enabled(Last(run), n, step)
    ensures IsRun(run', events') && run < run' && |run'| == |run| + 1 == |events'| + 1 && events' == events + [Event(n, step)]
    ensures At(Last(run'), n) == Take(At(Last(run), n), step) && At(Last(run'), Peer(n)) == At(Last(run), Peer(n))
    ensures From(Last(run), n) <= From(Last(run'), n)
    ensures From(Last(run'), Peer(n)) == From(Last(run), Peer(n))
    ensures step.Transmit? ==> Packet(At(Last(run), n)) in From(Last(run'), n)
  {
    hide Take, Packet, SessionOK;
    run', events' := run + [Move(Last(run), n, step)], events + [Event(n, step)];
    assert forall i {:trigger events'[i]} :: 0 <= i < |events| ==> events'[i] == events[i];
  }

  /** What a packet of a session depends on, and the session keeps. */
  predicate Talks(s: Session, disc: nat, rmtDisc: nat, state: State, poll: bool, final: bool) {
    && s.disc == disc && s.rmtDisc == rmtDisc && s.state == state && s.poll == poll && s.final == final
    && s.mult != 0
  }

  /** What a packet never changes. */
  predicate SameConfiguration(s: Session, r: Session) {
    r.mult == s.mult && r.cfgMinTx == s.cfgMinTx
  }

  lemma PeerKeeps(s: Session, m: Msg)
    ensures SameConfiguration(s, LearnPeer(s, m))
  {
  }

  lemma TimersKeep(s: Session, m: Msg)
    ensures SameConfiguration(s, LearnTimers(s, m, 0, 0))
  {
  }

  lemma ReceiveKeeps(s: Session, m: Msg)
    ensures SameConfiguration(s, Receive(s, m, 255, 0, 0))
  {
    hide LearnPeer, LearnTimers, Accepted, NextState;
    PeerKeeps(s, m);
    TimersKeep(LearnPeer(s, m), m);
  }

  lemma Transmits(s: Session, disc: nat, rmtDisc: nat, state: State, poll: bool, final: bool)
    requires Talks(s, disc, rmtDisc, state, poll, final)
    ensures Talks(Take(s, Transmit(0, 0)), disc, rmtDisc, state, poll, false)
    ensures Take(s, Transmit(0, 0)).minTx == s.minTx && Take(s, Transmit(0, 0)).pollMinTx == s.pollMinTx
    ensures Take(s, Transmit(0, 0)).cfgMinTx == s.cfgMinTx
  {
  }

  /** A packet from a session to one that it is for. */
  lemma Takes(s: Session, disc: nat, rmtDisc: nat, state: State, poll: bool, final: bool,
              from: Session, state': State, poll': bool, final': bool)
    requires Talks(s, disc, rmtDisc, state, poll, final) && disc != 0 && from.disc != 0
    requires Talks(from, from.disc, from.rmtDisc, state', poll', final')
    requires from.rmtDisc == disc || (from.rmtDisc == 0 && !Above(state'))
    requires Above(NextState(state, state'))
    ensures var r := Take(s, Deliver(Packet(from), 255, 0, 0));
      && Talks(r, disc, from.disc, NextState(state, state'), poll && !final' && !poll', final || poll')
      && r.minTx == (if final' && poll then s.pollMinTx else s.minTx) && r.cfgMinTx == s.cfgMinTx
  {
    var step := Deliver(Packet(from), 255, 0, 0);
    assert Accepted(s, Packet(from), 255);
    ReceiveKeeps(s, Packet(from));
    assert Take(s, step) == Receive(s, Packet(from), 255, 0, 0);
    hide Take, Receive;
    Facts(s, step);
  }

  /** The configuration changes in how fast the session may send, and in nothing else. */
  function Change(s: Session, cfgTx: nat): Step {
    Reconfigure(cfgTx, Max(s.cfgMinRx, 1), s.decayMinRx, s.cpathDown)
  }

  lemma StartsPoll(s: Session, disc: nat, rmtDisc: nat, cfgTx: nat)
    requires Talks(s, disc, rmtDisc, Up, false, false) && cfgTx > s.minTx && cfgTx != s.cfgMinTx
    ensures var r := Take(s, Change(s, cfgTx));
      Talks(r, disc, rmtDisc, Up, true, false) && r.pollMinTx == cfgTx == r.cfgMinTx && r.minTx == s.minTx
  {
  }

  /** Two new sessions come up. */
  lemma ComeUp(a: nat, b: nat) returns (run: seq<System>, events: seq<Event>)
    requires a != 0 && b != 0
    ensures IsRun(run, events) && |run| == |events| + 1 == 7
    ensures Talks(Last(run).a, a, b, Up, false, false) && Talks(Last(run).b, b, a, Up, false, false)
    ensures Last(run).a.minTx == 1000 && Last(run).a.cfgMinTx == 0
  {
    run, events := [System(Fresh(a), Fresh(b), {}, {})], [];
    hide Take, Packet, Continues;
    var s, t := Fresh(a), Fresh(b);
    assert IsRun(run, events) by {
      StartIsRun(a, b);
    }
    Transmits(s, a, 0, Down, false, false);
    run, events := Extend(run, events, A, Transmit(0, 0));
    Takes(t, b, 0, Down, false, false, s, Down, false, false);
    run, events := Extend(run, events, B, Deliver(Packet(s), 255, 0, 0));
    s, t := Last(run).a, Last(run).b;
    Transmits(t, b, a, Init, false, false);
    run, events := Extend(run, events, B, Transmit(0, 0));
    Takes(s, a, 0, Down, false, false, t, Init, false, false);
    run, events := Extend(run, events, A, Deliver(Packet(t), 255, 0, 0));
    s, t := Last(run).a, Last(run).b;
    Transmits(s, a, b, Up, false, false);
    run, events := Extend(run, events, A, Transmit(0, 0));
    Takes(t, b, a, Init, false, false, s, Up, false, false);
    run, events := Extend(run, events, B, Deliver(Packet(s), 255, 0, 0));
  }

  lemma StartIsRun(a: nat, b: nat)
    requires a != 0 && b != 0
    ensures IsRun([System(Fresh(a), Fresh(b), {}, {})], [])
  {
  }

  /** A starts to poll, B answers, and A takes the answer, which stays under way. */
  lemma PollOnce(run: seq<System>, events: seq<Event>, a: nat, b: nat, cfgTx: nat)
    returns (run': seq<System>, events': seq<Event>, t: Session)
    requires IsRun(run, events) && |run| == |events| + 1 && a != 0 && b != 0
    requires Talks(Last(run).a, a, b, Up, false, false) && Talks(Last(run).b, b, a, Up, false, false)
    requires cfgTx > Last(run).a.minTx && cfgTx != Last(run).a.cfgMinTx
    ensures IsRun(run', events') && |run'| == |events'| + 1 == |events| + 6
    ensures Talks(Last(run').a, a, b, Up, false, false) && Last(run').a.minTx == Last(run').a.cfgMinTx == cfgTx
    ensures Talks(t, b, a, Up, false, true) && Packet(t) in From(Last(run'), B)
  {
    hide Take, Continues;
    var s := Last(run).a;
    t := Last(run).b;
    StartsPoll(s, a, b, cfgTx);
    run', events' := Extend(run, events, A, Change(s, cfgTx));
    s := Last(run').a;
    Transmits(s, a, b, Up, true, false);
    run', events' := Extend(run', events', A, Transmit(0, 0));
    Takes(t, b, a, Up, false, false, s, Up, true, false);
    run', events' := Extend(run', events', B, Deliver(Packet(s), 255, 0, 0));
    s, t := Last(run').a, Last(run').b;
    Transmits(t, b, a, Up, false, true);
    run', events' := Extend(run', events', B, Transmit(0, 0));
    Takes(s, a, b, Up, true, false, t, Up, false, true);
    run', events' := Extend(run', events', A, Deliver(Packet(t), 255, 0, 0));
  }

  /** In the second of two poll sequences, A sends no Poll and B takes no step, and yet the
      sequence ends, by the answer to the first: A adopts an interval that B was not told. */
  lemma StaleFinalEndsPoll(a: nat, b: nat, cfgTx: nat, cfgTx': nat) returns (run: seq<System>, events: seq<Event>)
    requires a != 0 && b != 0 && 1000 < cfgTx < cfgTx'
    ensures IsRun(run, events) && |run| == |events| + 1 == 14
    ensures events[11].n == A && events[11].step.Reconfigure? && events[12].n == A && events[12].step.Deliver?
    ensures !At(run[11], A).poll && At(run[12], A).poll && EndsPoll(At(run[12], A), events[12].step)
    ensures At(run[13], A).state == Up && At(run[13], A).minTx == cfgTx' > At(run[12], A).minTx
  {
    hide Take, Continues, Packet;
    run, events := ComeUp(a, b);
    var t;
    run, events, t := PollOnce(run, events, a, b, cfgTx);
    var s := Last(run).a;
    StartsPoll(s, a, b, cfgTx');
    var run1, events1 := Extend(run, events, A, Change(s, cfgTx'));
    s := Last(run1).a;
    var step := Deliver(Packet(t), 255, 0, 0);
    assert EndsPoll(s, step) by {
      Answers(s, t, a, b);
    }
    Takes(s, a, b, Up, true, false, t, Up, false, true);
    run, events := Extend(run1, events1, A, step);
    assert run[12] == run1[12] && run[11] == run1[11] && events[11] == events1[11];
  }

  lemma Answers(s: Session, t: Session, a: nat, b: nat)
    requires Talks(s, a, b, Up, true, false) && Talks(t, b, a, Up, false, true) && a != 0 && b != 0
    ensures EndsPoll(s, Deliver(Packet(t), 255, 0, 0))
  {
  }
}
