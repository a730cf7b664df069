/** Bidirectional Forwarding Detection (lib/bfd.c), which follows RFC 5880.  A session is a
    value here and the functions are its transitions; the class in BfdSession.dfy updates
    fields in place as the source does. */
module Bfd {

  const BFD_VERSION: nat := 1
  const BFD_PACKET_LEN: nat := 24
  const DIAG_NONE: nat := 0
  const DIAG_EXPIRED: nat := 1
  const DIAG_RMT_DOWN: nat := 3
  const DIAG_CPATH_DOWN: nat := 6
  const TWO_32: nat := 0x1_0000_0000

  datatype State = AdminDown | Down | Init | Up

  /** Whether a state is above Down. */
  predicate Above(s: State) {
    s == Init || s == Up
  }

  /** A control packet, as far as it is looked at. */
  datatype Msg = Msg(version: nat, diag: nat, state: State, poll: bool, final: bool, auth: bool, multipoint: bool,
                     mult: nat, length: nat, myDisc: nat, yourDisc: nat, minTx: nat, minRx: nat)

  datatype Session = Session(
    disc: nat, state: State, diag: nat, rmtState: State, rmtDiag: nat, rmtDisc: nat, rmtMinRx: nat, rmtMinTx: nat,
    poll: bool, final: bool, cfgMinTx: nat, cfgMinRx: nat, pollMinTx: nat, pollMinRx: nat, minTx: nat, minRx: nat,
    lastTx: nat, nextTx: nat, detectTime: nat, mult: nat, inDecay: bool, decayMinRx: nat, cpathDown: bool)

  function Max(a: nat, b: nat): nat {
    if a < b then b else a
  }

  // Intervals

  /** bfd_min_tx. */
  function MinTx(s: Session): nat {
    if s.state == Up then s.minTx else Max(s.minTx, 1000)
  }

  function TxInterval(s: Session): nat {
    Max(MinTx(s), s.rmtMinRx)
  }

  function RxInterval(s: Session): nat {
    Max(s.minRx, s.rmtMinTx)
  }

  /** bfd_set_next_tx, with `draw` the random percentage to take off. */
  function SetNextTx(s: Session, draw: nat): Session
    requires draw < 26
  {
    var interval := TxInterval(s);
    s.(nextTx := s.lastTx + interval - interval * draw / 100)
  }

  /** The jitter of section 6.8.7 of RFC 5880: packets go out after between 75 and 100 percent
      of the interval, and when not up the interval is at least a second (section 6.8.3). */
  lemma JitterBounds(s: Session, draw: nat)
    requires draw < 26
    ensures 3 * TxInterval(s) <= 4 * (SetNextTx(s, draw).nextTx - s.lastTx)
    ensures SetNextTx(s, draw).nextTx - s.lastTx <= TxInterval(s)
    ensures s.state != Up ==> TxInterval(s) >= 1000
  {
    var interval := TxInterval(s);
    assert interval * draw <= interval * 25 by {
      Scale(interval, draw);
    }
  }

  lemma Scale(interval: nat, draw: nat)
    requires draw <= 25
    ensures interval * draw <= interval * 25
  {
  }

  // Transitions

  /** Nothing is known of the peer any more. */
  function Forgotten(s: Session): Session {
    s.(rmtState := Down, rmtDiag := DIAG_NONE, rmtMinRx := 1, rmtDisc := 0, rmtMinTx := 0,
       minRx := if s.inDecay then s.cfgMinRx else s.minRx, inDecay := false)
  }

  /** bfd_set_state. */
  function SetState(s: Session, state: State, diag: nat): Session {
    var d := if s.cpathDown then DIAG_CPATH_DOWN else diag;
    if s.state == state && s.diag == d then s
    else if Above(state) then s.(state := state, diag := d)
    else Forgotten(s.(state := state, diag := d))
  }

  /** bfd_poll. */
  function Poll(s: Session): Session {
    if Above(s.state) && !s.poll && !s.final then
      s.(pollMinTx := s.cfgMinTx, pollMinRx := if s.inDecay then s.decayMinRx else s.cfgMinRx, poll := true, nextTx := 0)
    else s
  }

  /** The packets that section 6.8.6 of RFC 5880 does not discard. */
  predicate Accepted(s: Session, m: Msg, ttl: nat) {
    && ttl == 255 && m.version == BFD_VERSION && !m.auth && m.length >= BFD_PACKET_LEN && m.mult != 0 && !m.multipoint
    && m.myDisc != 0
    && (if m.yourDisc != 0 then m.yourDisc == s.disc else !Above(m.state))
  }

  /** The state machine of section 6.2 of RFC 5880. */
  function NextState(local: State, remote: State): State {
    match local
    case AdminDown => AdminDown
    case Down => if remote == Down then Init else if remote == Init then Up else Down
    case Init => if Above(remote) then Up else if remote == AdminDown then Down else Init
    case Up => if Above(remote) then Up else Down
  }

  /** What a packet says of the other side is taken over, and a poll sequence ends or is
      answered. */
  function LearnPeer(s: Session, m: Msg): Session {
    Polled(s.(rmtDisc := m.myDisc, rmtState := m.state, rmtDiag := m.diag), m.poll, m.final)
  }

  function Polled(s: Session, poll: bool, final: bool): Session {
    var s1 := if final && s.poll then s.(minTx := s.pollMinTx, minRx := s.pollMinRx, poll := false) else s;
    if poll then s1.(poll := false, final := true) else s1
  }

  /** The intervals of the other side, and when it counts as silent. */
  function LearnTimers(s: Session, m: Msg, now: nat, draw: nat): Session
    requires draw < 26
  {
    var rmtMinRx := Max(m.minRx / 1000, 1);
    var s1 := if s.rmtMinRx == rmtMinRx then s
              else if s.nextTx != 0 then SetNextTx(s.(rmtMinRx := rmtMinRx), draw)
              else s.(rmtMinRx := rmtMinRx);
    var s2 := s1.(rmtMinTx := Max(m.minTx / 1000, 1));
    s2.(detectTime := RxInterval(s2) * s2.mult + now)
  }

  function Learn(s: Session, m: Msg, now: nat, draw: nat): Session
    requires draw < 26
  {
    LearnTimers(LearnPeer(s, m), m, now, draw)
  }

  function Transition(s: Session, remote: State): Session {
    var next := NextState(s.state, remote);
    if next == s.state then s else SetState(s, next, if next == Down then DIAG_RMT_DOWN else s.diag)
  }

  /** bfd_process_packet. */
  function Receive(s: Session, m: Msg, ttl: nat, now: nat, draw: nat): Session
    requires draw < 26
  {
    if Accepted(s, m, ttl) then Transition(Learn(s, m, now, draw), m.state) else s
  }

  lemma TransitionKeepsTimer(s: Session, remote: State)
    ensures Transition(s, remote).detectTime == s.detectTime
  {
  }

  lemma LearnSetsTimer(s: Session, m: Msg, now: nat, draw: nat)
    requires draw < 26
    ensures var learnt := LearnTimers(s, m, now, draw);
      learnt.detectTime == RxInterval(learnt) * s.mult + now && RxInterval(learnt) > 0
  {
  }

  /** Section 6.8.4 of RFC 5880 has the detection time be the interval times the multiplier of the
      packet.  The code takes the session's own multiplier. */
  lemma DetectionExact(s: Session, m: Msg, ttl: nat, now: nat, draw: nat)
    requires draw < 26 && Accepted(s, m, ttl)
    ensures Receive(s, m, ttl, now, draw).detectTime == now + RxInterval(Learn(s, m, now, draw)) * m.mult <==>
      m.mult == s.mult
  {
    assert LearnPeer(s, m).mult == s.mult;
    hide Transition, LearnPeer, LearnTimers, RxInterval, Accepted;
    LearnSetsTimer(LearnPeer(s, m), m, now, draw);
    var learnt := Learn(s, m, now, draw);
    TransitionKeepsTimer(learnt, m.state);
    TimesExact(RxInterval(learnt), m.mult, s.mult);
  }

  lemma TimesExact(interval: nat, a: nat, b: nat)
    requires interval > 0
    ensures interval * a == interval * b <==> a == b
  {
  }

  /** The interval values a packet carries, in microseconds and 32 bits. */
  function Stamp(ms: nat): nat {
    ms * 1000 % TWO_32
  }

  function Packet(s: Session): Msg {
    Msg(BFD_VERSION, s.diag, s.state, s.poll, s.final, false, false, s.mult, BFD_PACKET_LEN, s.disc, s.rmtDisc,
        Stamp(if s.poll then s.pollMinTx else MinTx(s)), Stamp(if s.poll then s.pollMinRx else s.minRx))
  }

  /** bfd_put_packet, which sends Packet(s). */
  function Sent(s: Session, now: nat, draw: nat): Session
    requires draw < 26
  {
    SetNextTx(s.(final := false, lastTx := now), draw)
  }

  /** bfd_run up to the decision to poll.  `decayed` is the outcome of bfd_try_decay, if that
      is due. */
  function BeforePoll(s: Session, now: nat, decayDue: bool, decayed: bool): Session {
    var s1 := if Above(s.state) && now >= s.detectTime then SetState(s, Down, DIAG_EXPIRED) else s;
    if s1.state == Up && s1.decayMinRx > 0 && decayDue then s1.(inDecay := decayed) else s1
  }

  predicate WantsPoll(s: Session, wasInDecay: bool) {
    s.minTx != s.cfgMinTx || (s.minRx != s.cfgMinRx && s.minRx != s.decayMinRx) || s.inDecay != wasInDecay
  }

  /** bfd_run. */
  function Run(s: Session, now: nat, decayDue: bool, decayed: bool): Session {
    var s' := BeforePoll(s, now, decayDue, decayed);
    if WantsPoll(s', s.inDecay) then Poll(s') else s'
  }

  // bfd_configure, the part that concerns timers

  function ConfigureTx(s: Session, minTx: nat): Session {
    if s.cfgMinTx == minTx then s
    else s.(cfgMinTx := minTx, minTx := if s.state != Up || (!s.poll && minTx < s.minTx) then minTx else s.minTx)
  }

  function ConfigureRx(s: Session, minRx: nat): Session {
    if s.cfgMinRx == minRx then s
    else s.(cfgMinRx := minRx, minRx := if s.state != Up || (!s.poll && minRx > s.minRx) then minRx else s.minRx)
  }

  function ConfigureDecay(s: Session, rxChanged: bool, decayMinRx: nat): Session {
    if s.decayMinRx == decayMinRx && !rxChanged then s
    else s.(decayMinRx := if 0 < decayMinRx < s.cfgMinRx then 0 else decayMinRx, inDecay := false)
  }

  function ConfigurePath(s: Session, cpathDown: bool): Session {
    if s.cpathDown == cpathDown then s
    else
      var s1 := s.(cpathDown := cpathDown);
      SetState(s1, s1.state, DIAG_NONE)
  }

  function ConfigureTimers(s: Session, minTx: nat, minRx: nat, decayMinRx: nat): Session {
    ConfigureDecay(ConfigureRx(ConfigureTx(s, minTx), minRx), s.cfgMinRx != minRx, decayMinRx)
  }

  predicate TimersChange(s: Session, minTx: nat, minRx: nat, decayMinRx: nat) {
    s.cfgMinTx != minTx || s.cfgMinRx != minRx || s.decayMinRx != decayMinRx
  }

  function Configure(s: Session, cfgTx: nat, cfgRx: nat, decayMinRx: nat, cpathDown: bool): Session {
    var minTx, minRx := Max(cfgTx, 1), Max(cfgRx, 1);
    var s' := ConfigurePath(ConfigureTimers(s, minTx, minRx, decayMinRx), cpathDown);
    if TimersChange(s, minTx, minRx, decayMinRx) || s.cpathDown != cpathDown then Poll(s') else s'
  }

  /** A new session. */
  function Fresh(disc: nat): Session {
    SetState(Session(disc, AdminDown, DIAG_NONE, AdminDown, 0, 0, 0, 0, false, false, 0, 0, 0, 0, 1000, 0,
                     0, 0, 0, 3, false, 0, false), Down, DIAG_NONE)
  }

  // What every transition keeps, and when intervals change

  /** Above Down the peer's discriminator is known; Poll and Final are never both set. */
  predicate SessionOK(s: Session) {
    && s.disc != 0 && (Above(s.state) ==> s.rmtDisc != 0) && !(s.poll && s.final)
  }

  /** What a change of state leaves alone. */
  lemma SetStateFacts(s: Session, state: State, diag: nat)
    ensures var r := SetState(s, state, diag);
      && r.state == state && r.disc == s.disc && r.poll == s.poll && r.final == s.final && r.minTx == s.minTx
      && r.pollMinTx == s.pollMinTx && r.pollMinRx == s.pollMinRx && r.cfgMinTx == s.cfgMinTx && r.cfgMinRx == s.cfgMinRx
      && (Above(state) ==> r.rmtDisc == s.rmtDisc && r.minRx == s.minRx && r.inDecay == s.inDecay)
      && r.cpathDown == s.cpathDown
  {
  }

  lemma PollFacts(s: Session)
    ensures var r := Poll(s);
      && r.state == s.state && r.disc == s.disc && r.rmtDisc == s.rmtDisc && r.final == s.final
      && r.minTx == s.minTx && r.minRx == s.minRx && r.cfgMinTx == s.cfgMinTx && r.cfgMinRx == s.cfgMinRx
      && r.cpathDown == s.cpathDown
      && (s.poll ==> r == s) && (r.poll <==> s.poll || (Above(s.state) && !s.final))
      && (r.poll && !s.poll ==> r.pollMinTx == s.cfgMinTx)
  {
  }

  lemma LearnPeerFacts(s: Session, m: Msg)
    ensures var r := LearnPeer(s, m);
      && r.state == s.state && r.diag == s.diag && r.disc == s.disc && r.rmtDisc == m.myDisc
      && r.poll == (s.poll && !m.final && !m.poll) && r.final == (s.final || m.poll)
      && r.pollMinTx == s.pollMinTx && r.pollMinRx == s.pollMinRx
      && r.minTx == (if m.final && s.poll then s.pollMinTx else s.minTx)
      && r.minRx == (if m.final && s.poll then s.pollMinRx else s.minRx)
  {
  }

  lemma LearnFacts(s: Session, m: Msg, now: nat, draw: nat)
    requires draw < 26
    ensures var r := Learn(s, m, now, draw);
      && r.state == s.state && r.diag == s.diag && r.disc == s.disc && r.rmtDisc == m.myDisc
      && r.poll == (s.poll && !m.final && !m.poll) && r.final == (s.final || m.poll)
      && r.pollMinTx == s.pollMinTx && r.pollMinRx == s.pollMinRx
      && r.minTx == (if m.final && s.poll then s.pollMinTx else s.minTx)
      && r.minRx == (if m.final && s.poll then s.pollMinRx else s.minRx)
  {
    hide LearnPeer;
    LearnPeerFacts(s, m);
  }

  lemma ReceiveFacts(s: Session, m: Msg, ttl: nat, now: nat, draw: nat)
    requires draw < 26 && Accepted(s, m, ttl)
    ensures var r := Receive(s, m, ttl, now, draw);
      && r.state == NextState(s.state, m.state) && r.disc == s.disc
      && (Above(r.state) ==> r.rmtDisc == m.myDisc)
      && r.poll == (s.poll && !m.final && !m.poll) && r.final == (s.final || m.poll)
      && r.pollMinTx == s.pollMinTx && r.pollMinRx == s.pollMinRx
      && r.minTx == (if m.final && s.poll then s.pollMinTx else s.minTx)
      && (Above(r.state) ==> r.minRx == if m.final && s.poll then s.pollMinRx else s.minRx)
  {
    hide Learn, SetState;
    LearnFacts(s, m, now, draw);
    var next := NextState(s.state, m.state);
    SetStateFacts(Learn(s, m, now, draw), next, if next == Down then DIAG_RMT_DOWN else s.diag);
  }

  lemma RunFacts(s: Session, now: nat, decayDue: bool, decayed: bool)
    ensures var r := Run(s, now, decayDue, decayed);
      && (r.state == s.state || r.state == Down) && r.disc == s.disc && r.final == s.final && r.minTx == s.minTx
      && (Above(r.state) ==> r.state == s.state && r.rmtDisc == s.rmtDisc && r.minRx == s.minRx)
      && (s.poll ==> r.poll && r.pollMinTx == s.pollMinTx && r.pollMinRx == s.pollMinRx)
      && (r.poll && !s.poll ==> !s.final)
  {
    hide SetState, Poll;
    SetStateFacts(s, Down, DIAG_EXPIRED);
    PollFacts(BeforePoll(s, now, decayDue, decayed));
  }

  /** What configuring the timers leaves alone. */
  predicate SamePhase(s: Session, r: Session) {
    && r.state == s.state && r.disc == s.disc && r.rmtDisc == s.rmtDisc && r.poll == s.poll && r.final == s.final
    && r.pollMinTx == s.pollMinTx && r.pollMinRx == s.pollMinRx && r.cpathDown == s.cpathDown
    && (s.state == Up ==> r.minTx <= s.minTx && r.minRx >= s.minRx)
  }

  lemma ConfigureTxFacts(s: Session, minTx: nat)
    ensures SamePhase(s, ConfigureTx(s, minTx)) && ConfigureTx(s, minTx).cfgMinTx == minTx
    ensures ConfigureTx(s, minTx).cfgMinRx == s.cfgMinRx && ConfigureTx(s, minTx).decayMinRx == s.decayMinRx
  {
  }

  lemma ConfigureRxFacts(s: Session, minRx: nat)
    ensures SamePhase(s, ConfigureRx(s, minRx)) && ConfigureRx(s, minRx).cfgMinRx == minRx
    ensures ConfigureRx(s, minRx).cfgMinTx == s.cfgMinTx && ConfigureRx(s, minRx).decayMinRx == s.decayMinRx
  {
  }

  lemma ConfigureDecayFacts(s: Session, rxChanged: bool, decayMinRx: nat)
    ensures var r := ConfigureDecay(s, rxChanged, decayMinRx);
      SamePhase(s, r) && r.cfgMinTx == s.cfgMinTx && r.cfgMinRx == s.cfgMinRx
  {
  }

  lemma ConfigureTimersFacts(s: Session, minTx: nat, minRx: nat, decayMinRx: nat)
    ensures var r := ConfigureTimers(s, minTx, minRx, decayMinRx);
      SamePhase(s, r) && r.cfgMinTx == minTx && r.cfgMinRx == minRx
  {
    hide ConfigureTx, ConfigureRx, ConfigureDecay;
    ConfigureTxFacts(s, minTx);
    ConfigureRxFacts(ConfigureTx(s, minTx), minRx);
    ConfigureDecayFacts(ConfigureRx(ConfigureTx(s, minTx), minRx), s.cfgMinRx != minRx, decayMinRx);
  }

  lemma ConfigurePathFacts(s: Session, cpathDown: bool)
    ensures var r := ConfigurePath(s, cpathDown);
      && r.state == s.state && r.disc == s.disc && r.poll == s.poll && r.final == s.final && r.minTx == s.minTx
      && r.pollMinTx == s.pollMinTx && r.pollMinRx == s.pollMinRx && r.cfgMinTx == s.cfgMinTx && r.cfgMinRx == s.cfgMinRx
      && (Above(s.state) ==> r.rmtDisc == s.rmtDisc && r.minRx == s.minRx && r.inDecay == s.inDecay)
      && r.cpathDown == cpathDown
  {
    hide SetState;
    SetStateFacts(s.(cpathDown := cpathDown), s.state, DIAG_NONE);
  }

  lemma ConfigureFacts(s: Session, cfgTx: nat, cfgRx: nat, decayMinRx: nat, cpathDown: bool)
    ensures var r := Configure(s, cfgTx, cfgRx, decayMinRx, cpathDown);
      && r.state == s.state && r.disc == s.disc && r.final == s.final
      && (s.state == Up ==> r.minTx <= s.minTx && r.minRx >= s.minRx)
      && (Above(s.state) ==> r.rmtDisc == s.rmtDisc)
      && (s.poll ==> r.poll && r.pollMinTx == s.pollMinTx && r.pollMinRx == s.pollMinRx)
      && (r.poll && !s.poll ==> !s.final)
      && r.cfgMinTx == Max(cfgTx, 1) && r.cfgMinRx == Max(cfgRx, 1) && r.cpathDown == cpathDown
      && (Above(r.state) && !r.final && (r.cfgMinTx != s.cfgMinTx || r.cfgMinRx != s.cfgMinRx) ==> r.poll)
  {
    hide ConfigureTimers, ConfigurePath, Poll;
    var minTx, minRx := Max(cfgTx, 1), Max(cfgRx, 1);
    ConfigureTimersFacts(s, minTx, minRx, decayMinRx);
    var s1 := ConfigureTimers(s, minTx, minRx, decayMinRx);
    ConfigurePathFacts(s1, cpathDown);
    PollFacts(ConfigurePath(s1, cpathDown));
  }

  // The steps of a session

  datatype Step =
    | Deliver(m: Msg, ttl: nat, now: nat, draw: nat)
    | Transmit(now: nat, draw: nat)
    | Tick(now: nat, decayDue: bool, decayed: bool)
    | Reconfigure(cfgTx: nat, cfgRx: nat, decayMinRx: nat, cpathDown: bool)
    | Restart(disc: nat)

  predicate StepOK(step: Step) {
    && (step.Deliver? ==> step.draw < 26) && (step.Transmit? ==> step.draw < 26)
    && (step.Restart? ==> step.disc != 0)
  }

  function Take(s: Session, step: Step): Session
    requires StepOK(step)
  {
    match step
    case Deliver(m, ttl, now, draw) => Receive(s, m, ttl, now, draw)
    case Transmit(now, draw) => Sent(s, now, draw)
    case Tick(now, decayDue, decayed) => Run(s, now, decayDue, decayed)
    case Reconfigure(cfgTx, cfgRx, decayMinRx, cpathDown) => Configure(s, cfgTx, cfgRx, decayMinRx, cpathDown)
    case Restart(disc) => Fresh(disc)
  }

  lemma Facts(s: Session, step: Step)
    requires StepOK(step)
    ensures step.Deliver? && Accepted(s, step.m, step.ttl) ==>
      var r := Take(s, step);
      && r.state == NextState(s.state, step.m.state) && r.disc == s.disc
      && (Above(r.state) ==> r.rmtDisc == step.m.myDisc)
      && r.poll == (s.poll && !step.m.final && !step.m.poll) && r.final == (s.final || step.m.poll)
      && r.pollMinTx == s.pollMinTx && r.pollMinRx == s.pollMinRx
      && r.minTx == (if step.m.final && s.poll then s.pollMinTx else s.minTx)
      && (Above(r.state) ==> r.minRx == if step.m.final && s.poll then s.pollMinRx else s.minRx)
    ensures step.Deliver? && !Accepted(s, step.m, step.ttl) ==> Take(s, step) == s
    ensures step.Transmit? ==>
      var r := Take(s, step);
      && r.state == s.state && r.disc == s.disc && r.rmtDisc == s.rmtDisc && r.poll == s.poll && !r.final
      && r.minTx == s.minTx && r.minRx == s.minRx && r.pollMinTx == s.pollMinTx && r.pollMinRx == s.pollMinRx
    ensures step.Tick? || step.Reconfigure? ==>
      var r := Take(s, step);
      && (r.state == s.state || r.state == Down) && r.disc == s.disc && r.final == s.final
      && (s.state == r.state == Up ==> r.minTx <= s.minTx && r.minRx >= s.minRx)
      && (Above(r.state) ==> r.state == s.state && r.rmtDisc == s.rmtDisc)
      && (s.poll ==> r.poll && r.pollMinTx == s.pollMinTx && r.pollMinRx == s.pollMinRx)
      && (r.poll && !s.poll ==> !s.final)
    ensures step.Restart? ==>
      var r := Take(s, step); r.state == Down && r.disc == step.disc && !r.poll && !r.final
  {
    hide Receive, Run, Configure;
    match step
    case Deliver(m, ttl, now, draw) =>
      if Accepted(s, m, ttl) {
        ReceiveFacts(s, m, ttl, now, draw);
      } else {
        NotAccepted(s, m, ttl, now, draw);
      }
    case Transmit(_, _) =>
    case Tick(now, decayDue, decayed) => RunFacts(s, now, decayDue, decayed);
    case Reconfigure(cfgTx, cfgRx, decayMinRx, cpathDown) => ConfigureFacts(s, cfgTx, cfgRx, decayMinRx, cpathDown);
    case Restart(_) =>
  }

  lemma NotAccepted(s: Session, m: Msg, ttl: nat, now: nat, draw: nat)
    requires draw < 26 && !Accepted(s, m, ttl)
    ensures Receive(s, m, ttl, now, draw) == s
  {
  }

  /** Every step keeps a session well-formed, whatever packets it is sent. */
  lemma StepKeeps(s: Session, step: Step)
    requires SessionOK(s) && StepOK(step)
    ensures SessionOK(Take(s, step))
  {
    hide Take;
    Facts(s, step);
  }

  /** A change that section 6.8.3 of RFC 5880 wants negotiated: slower sending, or accepting
      packets faster. */
  predicate Tightened(s: Session, s': Session) {
    s'.minTx > s.minTx || s'.minRx < s.minRx
  }

  /** A packet ends the poll sequence of a session that is in one. */
  predicate EndsPoll(s: Session, step: Step) {
    step.Deliver? && Accepted(s, step.m, step.ttl) && step.m.final && s.poll
  }

  /** While a session stays up, its sending slows down or its receiving speeds up only when
      a poll sequence ends, and then to the values polled for. */
  lemma TightenedByPollOnly(s: Session, step: Step)
    requires StepOK(step) && s.state == Up && Take(s, step).state == Up
    ensures Tightened(s, Take(s, step)) ==> EndsPoll(s, step)
    ensures EndsPoll(s, step) ==> Take(s, step).minTx == s.pollMinTx && Take(s, step).minRx == s.pollMinRx
  {
    hide Take;
    Facts(s, step);
  }

  /** While a poll sequence lasts, its values do not change. */
  lemma PollValuesKept(s: Session, step: Step)
    requires StepOK(step) && s.poll && Take(s, step).poll
    ensures Take(s, step).pollMinTx == s.pollMinTx && Take(s, step).pollMinRx == s.pollMinRx
  {
    hide Take;
    Facts(s, step);
  }
}
