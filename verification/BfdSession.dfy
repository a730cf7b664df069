/** The operations of lib/bfd.c on a struct bfd, whose fields they update one by one.  The
    contracts say which fields change, and how; Now() is the session of Bfd.dfy that the fields
    amount to, so that what is proved of its transitions holds of these operations. */
module BfdSession {
  import opened Bfd

  lemma ReceiveKeeps(s: Session, m: Msg, ttl: nat, now: nat, draw: nat)
    requires draw < 26 && SessionOK(s)
    ensures SessionOK(Receive(s, m, ttl, now, draw))
  {
    StepKeeps(s, Deliver(m, ttl, now, draw));
  }

  lemma RunKeeps(s: Session, now: nat, decayDue: bool, decayed: bool)
    requires SessionOK(s)
    ensures SessionOK(Run(s, now, decayDue, decayed))
  {
    StepKeeps(s, Tick(now, decayDue, decayed));
  }

  lemma ConfigureKeeps(s: Session, cfgTx: nat, cfgRx: nat, decayMinRx: nat, cpathDown: bool)
    requires SessionOK(s)
    ensures SessionOK(Configure(s, cfgTx, cfgRx, decayMinRx, cpathDown))
  {
    StepKeeps(s, Reconfigure(cfgTx, cfgRx, decayMinRx, cpathDown));
  }

  class SessionState {
    const disc: nat
    const mult: nat
    var state: State
    var diag: nat
    var rmtState: State
    var rmtDiag: nat
    var rmtDisc: nat
    var rmtMinRx: nat
    var rmtMinTx: nat
    var poll: bool
    var final: bool
    var cfgMinTx: nat
    var cfgMinRx: nat
    var pollMinTx: nat
    var pollMinRx: nat
    var minTx: nat
    var minRx: nat
    var lastTx: nat
    var nextTx: nat
    var detectTime: nat
    var inDecay: bool
    var decayMinRx: nat
    var cpathDown: bool

    function Now(): Session
      reads this
    {
      Session(disc, state, diag, rmtState, rmtDiag, rmtDisc, rmtMinRx, rmtMinTx, poll, final, cfgMinTx, cfgMinRx,
              pollMinTx, pollMinRx, minTx, minRx, lastTx, nextTx, detectTime, mult, inDecay, decayMinRx, cpathDown)
    }

    /** Nothing is known of the peer (section 6.8.1 of RFC 5880). */
    predicate NoPeer()
      reads this
    {
      rmtDisc == 0 && rmtState == Down && rmtDiag == DIAG_NONE && rmtMinRx == 1 && rmtMinTx == 0
    }

    /** The creation of a session in bfd_configure, with the discriminator drawn for it. */
    constructor (disc: nat)
      requires disc != 0
      ensures this.disc == disc && state == Down && NoPeer() && !poll && !final && minTx == 1000 && mult == 3
      ensures Now() == Fresh(disc) && SessionOK(Now())
    {
      this.disc, mult, minTx, minRx := disc, 3, 1000, 0;
      state, diag, poll, final := AdminDown, DIAG_NONE, false, false;
      rmtState, rmtDiag, rmtDisc, rmtMinRx, rmtMinTx := AdminDown, DIAG_NONE, 0, 0, 0;
      cfgMinTx, cfgMinRx, pollMinTx, pollMinRx := 0, 0, 0, 0;
      lastTx, nextTx, detectTime := 0, 0, 0;
      inDecay, decayMinRx, cpathDown := false, 0, false;
      new;
      ChangeState(Down, DIAG_NONE);
    }

    /** What bfd_set_state resets when a session is down. */
    method ForgetPeer()
      modifies `rmtState, `rmtDiag, `rmtDisc, `rmtMinRx, `rmtMinTx
      ensures NoPeer()
    {
      rmtState := Down;
      rmtDiag := DIAG_NONE;
      rmtMinRx := 1;
      rmtDisc := 0;
      rmtMinTx := 0;
    }

    method LeaveDecay()
      modifies `minRx, `inDecay
      ensures !inDecay && minRx == if old(inDecay) then cfgMinRx else old(minRx)
    {
      if inDecay {
        minRx := cfgMinRx;
        inDecay := false;
      }
    }

    method GoDown()
      modifies `rmtState, `rmtDiag, `rmtDisc, `rmtMinRx, `rmtMinTx, `minRx, `inDecay
      ensures NoPeer() && !inDecay && Now() == Forgotten(old(Now()))
    {
      ForgetPeer();
      LeaveDecay();
    }

    /** bfd_set_state. */
    method ChangeState(next: State, why: nat)
      modifies `state, `diag, `rmtState, `rmtDiag, `rmtDisc, `rmtMinRx, `rmtMinTx, `minRx, `inDecay
      ensures state == next && diag == if cpathDown then DIAG_CPATH_DOWN else why
      ensures !Above(next) && (old(state) != next || old(diag) != diag) ==> NoPeer() && !inDecay
      ensures Above(next) ==> rmtDisc == old(rmtDisc) && minRx == old(minRx) && inDecay == old(inDecay)
      ensures Now() == SetState(old(Now()), next, why)
    {
      hide Forgotten;
      var d := why;
      if cpathDown {
        d := DIAG_CPATH_DOWN;
      }
      if state != next || diag != d {
        state := next;
        diag := d;
        if !Above(state) {
          GoDown();
        }
      }
    }

    /** bfd_poll. */
    method StartPoll()
      modifies `pollMinTx, `pollMinRx, `poll, `nextTx
      ensures poll <==> old(poll) || (Above(state) && !final)
      ensures old(poll) ==> pollMinTx == old(pollMinTx) && pollMinRx == old(pollMinRx)
      ensures poll && !old(poll) ==> nextTx == 0 && pollMinTx == cfgMinTx
      ensures Now() == Poll(old(Now()))
    {
      if Above(state) && !poll && !final {
        pollMinTx := cfgMinTx;
        pollMinRx := if inDecay then decayMinRx else cfgMinRx;
        poll := true;
        nextTx := 0;
      }
    }

    /** bfd_set_next_tx. */
    method ScheduleTx(draw: nat)
      requires draw < 26
      modifies `nextTx
      ensures Now() == SetNextTx(old(Now()), draw)
    {
      var interval := TxInterval(Now());
      Scale(interval, draw);
      interval := interval - interval * draw / 100;
      nextTx := lastTx + interval;
    }

    /** The flags of a packet: Final ends a poll sequence, Poll is to be answered. */
    method TakeFlags(m: Msg)
      modifies `minTx, `minRx, `poll, `final
      ensures Now() == Polled(old(Now()), m.poll, m.final)
    {
      if m.final && poll {
        minTx := pollMinTx;
        minRx := pollMinRx;
        poll := false;
      }
      if m.poll {
        poll := false;
        final := true;
      }
    }

    /** What bfd_process_packet takes over from a packet about the peer. */
    method TakePeer(m: Msg)
      modifies `rmtDisc, `rmtState, `rmtDiag, `minTx, `minRx, `poll, `final
      ensures Now() == LearnPeer(old(Now()), m)
    {
      hide Polled;
      rmtDisc := m.myDisc;
      rmtState := m.state;
      rmtDiag := m.diag;
      TakeFlags(m);
    }

    method TakeTimers(m: Msg, now: nat, draw: nat)
      requires draw < 26
      modifies `rmtMinRx, `rmtMinTx, `nextTx, `detectTime
      ensures Now() == LearnTimers(old(Now()), m, now, draw)
    {
      hide SetNextTx;
      var minRx' := Max(m.minRx / 1000, 1);
      if rmtMinRx != minRx' {
        rmtMinRx := minRx';
        if nextTx != 0 {
          ScheduleTx(draw);
        }
      }
      rmtMinTx := Max(m.minTx / 1000, 1);
      detectTime := RxInterval(Now()) * mult + now;
    }

    /** The state machine of bfd_process_packet. */
    method MakeTransition(remote: State)
      modifies `state, `diag, `rmtState, `rmtDiag, `rmtDisc, `rmtMinRx, `rmtMinTx, `minRx, `inDecay
      ensures state == NextState(old(state), remote)
      ensures Now() == Transition(old(Now()), remote)
    {
      hide SetState;
      if state == AdminDown {
        return;
      }
      if remote == AdminDown {
        if state != Down {
          ChangeState(Down, DIAG_RMT_DOWN);
        }
      } else {
        match state
        case Down =>
          if remote == Down {
            ChangeState(Init, diag);
          } else if remote == Init {
            ChangeState(Up, diag);
          }
        case Init =>
          if Above(remote) {
            ChangeState(Up, diag);
          }
        case Up =>
          if !Above(remote) {
            ChangeState(Down, DIAG_RMT_DOWN);
          }
        case AdminDown =>
      }
    }

    /** bfd_process_packet.  A packet that section 6.8.6 of RFC 5880 discards has no effect.  Any
        other makes the transition of section 6.2, ends a poll sequence by Final, and is
        answered with Final if it has Poll (section 6.5). */
    method ProcessPacket(m: Msg, ttl: nat, now: nat, draw: nat)
      requires draw < 26 && SessionOK(Now())
      modifies `state, `diag, `rmtState, `rmtDiag, `rmtDisc, `rmtMinRx, `rmtMinTx, `minTx, `minRx, `poll, `final,
        `nextTx, `detectTime, `inDecay
      ensures !Accepted(old(Now()), m, ttl) ==> Now() == old(Now())
      ensures Accepted(old(Now()), m, ttl) ==>
        && state == NextState(old(state), m.state)
        && (Above(state) ==> rmtDisc == m.myDisc)
        && final == (old(final) || m.poll) && poll == (old(poll) && !m.final && !m.poll)
        && minTx == if old(poll) && m.final then pollMinTx else old(minTx)
      ensures Now() == Receive(old(Now()), m, ttl, now, draw) && SessionOK(Now())
    {
      ReceiveKeeps(Now(), m, ttl, now, draw);
      if ttl != 255 || m.version != BFD_VERSION || m.auth || m.length < BFD_PACKET_LEN || m.mult == 0 || m.multipoint ||
         m.myDisc == 0 {
        return;
      }
      if m.yourDisc != 0 {
        if m.yourDisc != disc {
          return;
        }
      } else if Above(m.state) {
        return;
      }
      ReceiveFacts(Now(), m, ttl, now, draw);
      LearnFacts(Now(), m, now, draw);
      hide LearnPeer, LearnTimers, Learn, SetState, SessionOK, NextState;
      TakePeer(m);
      TakeTimers(m, now, draw);
      MakeTransition(m.state);
    }

    /** bfd_put_packet.  The packet says what the session is in, never with both Poll and Final,
        as the source asserts; during a poll sequence it carries the values polled for.  The next
        one is due after 75 to 100 percent of the interval (section 6.8.7 of RFC 5880). */
    method PutPacket(now: nat, draw: nat) returns (m: Msg)
      requires draw < 26 && SessionOK(Now())
      modifies `final, `lastTx, `nextTx
      ensures m.state == state && m.myDisc == disc && m.yourDisc == rmtDisc && m.poll == poll && m.final == old(final)
      ensures !(m.poll && m.final) && !final
      ensures poll ==> m.minTx == Stamp(pollMinTx) && m.minRx == Stamp(pollMinRx)
      ensures lastTx == now && 3 * TxInterval(Now()) <= 4 * (nextTx - now) && nextTx - now <= TxInterval(Now())
      ensures m == Packet(old(Now())) && Now() == Sent(old(Now()), now, draw) && SessionOK(Now())
    {
      var minTx', minRx' := MinTx(Now()), minRx;
      if poll {
        minTx', minRx' := pollMinTx, pollMinRx;
      }
      m := Msg(BFD_VERSION, diag, state, poll, final, false, false, mult, BFD_PACKET_LEN, disc, rmtDisc,
               Stamp(minTx'), Stamp(minRx'));
      final := false;
      lastTx := now;
      JitterBounds(Now(), draw);
      ScheduleTx(draw);
    }

    method CheckPeer(now: nat, decayDue: bool, decayed: bool)
      modifies `state, `diag, `rmtState, `rmtDiag, `rmtDisc, `rmtMinRx, `rmtMinTx, `minRx, `inDecay
      ensures if Above(old(state)) && now >= old(detectTime) then state == Down && NoPeer() else state == old(state)
      ensures Now() == BeforePoll(old(Now()), now, decayDue, decayed)
    {
      hide SetState;
      if Above(state) && now >= detectTime {
        ChangeState(Down, DIAG_EXPIRED);
      }
      if state == Up && decayMinRx > 0 && decayDue {
        inDecay := decayed;
      }
    }

    /** bfd_run.  A session that has heard nothing for the detection time, which is not always that
        of section 6.8.4 of RFC 5880, goes down and forgets its peer; intervals that are not the
        configured ones are polled for. */
    method DoRun(now: nat, decayDue: bool, decayed: bool)
      requires SessionOK(Now())
      modifies `state, `diag, `rmtState, `rmtDiag, `rmtDisc, `rmtMinRx, `rmtMinTx, `minRx, `inDecay,
        `pollMinTx, `pollMinRx, `poll, `nextTx
      ensures if Above(old(state)) && now >= old(detectTime) then state == Down && NoPeer() else state == old(state)
      ensures Above(state) && !final && minTx != cfgMinTx ==> poll && (!old(poll) ==> pollMinTx == cfgMinTx)
      ensures old(poll) ==> poll && pollMinTx == old(pollMinTx) && pollMinRx == old(pollMinRx)
      ensures Now() == Run(old(Now()), now, decayDue, decayed) && SessionOK(Now())
    {
      RunKeeps(Now(), now, decayDue, decayed);
      hide BeforePoll, Poll, SessionOK;
      var wasInDecay := inDecay;
      CheckPeer(now, decayDue, decayed);
      if minTx != cfgMinTx || (minRx != cfgMinRx && minRx != decayMinRx) || inDecay != wasInDecay {
        StartPoll();
      }
    }

    // The timers in bfd_configure

    method SetMinTx(wanted: nat) returns (changed: bool)
      modifies `cfgMinTx, `minTx
      ensures Now() == ConfigureTx(old(Now()), wanted) && (changed <==> old(cfgMinTx) != wanted)
    {
      changed := cfgMinTx != wanted;
      if changed {
        cfgMinTx := wanted;
        if state != Up || (!poll && cfgMinTx < minTx) {
          minTx := cfgMinTx;
        }
      }
    }

    method SetMinRx(wanted: nat) returns (changed: bool)
      modifies `cfgMinRx, `minRx
      ensures Now() == ConfigureRx(old(Now()), wanted) && (changed <==> old(cfgMinRx) != wanted)
    {
      changed := cfgMinRx != wanted;
      if changed {
        cfgMinRx := wanted;
        if state != Up || (!poll && cfgMinRx > minRx) {
          minRx := cfgMinRx;
        }
      }
    }

    method SetDecay(rxChanged: bool, wanted: nat) returns (changed: bool)
      modifies `decayMinRx, `inDecay
      ensures Now() == ConfigureDecay(old(Now()), rxChanged, wanted)
      ensures changed <==> old(decayMinRx) != wanted || rxChanged
    {
      changed := decayMinRx != wanted || rxChanged;
      if changed {
        decayMinRx := if 0 < wanted < cfgMinRx then 0 else wanted;
        inDecay := false;
      }
    }

    method SetTimers(wantedTx: nat, wantedRx: nat, wantedDecay: nat) returns (changed: bool)
      modifies `cfgMinTx, `minTx, `cfgMinRx, `minRx, `decayMinRx, `inDecay
      ensures Now() == ConfigureTimers(old(Now()), wantedTx, wantedRx, wantedDecay)
      ensures changed <==> TimersChange(old(Now()), wantedTx, wantedRx, wantedDecay)
    {
      hide ConfigureTx, ConfigureRx, ConfigureDecay;
      changed := SetMinTx(wantedTx);
      var rxChanged := SetMinRx(wantedRx);
      var decayChanged := SetDecay(rxChanged, wantedDecay);
      changed := changed || rxChanged || decayChanged;
    }

    method SetPath(pathDown: bool) returns (changed: bool)
      modifies `cpathDown, `diag, `state, `rmtState, `rmtDiag, `rmtDisc, `rmtMinRx, `rmtMinTx, `minRx, `inDecay
      ensures Now() == ConfigurePath(old(Now()), pathDown) && (changed <==> old(cpathDown) != pathDown)
    {
      hide SetState;
      changed := cpathDown != pathDown;
      if changed {
        cpathDown := pathDown;
        ChangeState(state, DIAG_NONE);
      }
    }

    /** bfd_configure of a session that exists.  While it is up, it takes over at once only
        intervals that send faster or expect less, and polls for the rest (section 6.8.3 of
        RFC 5880). */
    method DoConfigure(cfgTx: nat, cfgRx: nat, wantedDecay: nat, pathDown: bool)
      requires SessionOK(Now())
      modifies `diag, `state, `rmtState, `rmtDiag, `rmtDisc, `rmtMinRx, `rmtMinTx, `minTx, `minRx, `inDecay,
        `cfgMinTx, `cfgMinRx, `decayMinRx, `cpathDown, `pollMinTx, `pollMinRx, `poll, `nextTx
      ensures state == old(state) && cfgMinTx == Max(cfgTx, 1) && cfgMinRx == Max(cfgRx, 1) && cpathDown == pathDown
      ensures state == Up ==> minTx <= old(minTx) && minRx >= old(minRx)
      ensures Above(state) && !final && (cfgMinTx != old(cfgMinTx) || cfgMinRx != old(cfgMinRx)) ==> poll
      ensures old(poll) ==> poll && pollMinTx == old(pollMinTx) && pollMinRx == old(pollMinRx)
      ensures Now() == Configure(old(Now()), cfgTx, cfgRx, wantedDecay, pathDown) && SessionOK(Now())
    {
      ConfigureKeeps(Now(), cfgTx, cfgRx, wantedDecay, pathDown);
      ConfigureFacts(Now(), cfgTx, cfgRx, wantedDecay, pathDown);
      hide SetState, Poll, SessionOK, ConfigureTimers, ConfigurePath, Configure;
      assert Now() == old(Now());
      var timersChanged := SetTimers(Max(cfgTx, 1), Max(cfgRx, 1), wantedDecay);
      var pathChanged := SetPath(pathDown);
      if timersChanged || pathChanged {
        StartPoll();
      }
    }
  }
}
