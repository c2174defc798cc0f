/** The three ways in which a run of the protocol trips over one of the program's assertions or aborts:
    exactly when they happen, and that each of them does happen. */
module Hazards {
  import opened Outcomes
  import opened Quanta
  import opened Protocol
  import opened OnePacketOut
  import S = Sender
  import I = SenderInvariant
  import P = PullPacer
  import W = ReceiveWindow

  /** The card calls back a speculating source that has a packet to resend; a timeout resends once too often;
      or a refusal arrives whose packet is no longer outstanding. */
  ghost predicate Hazard(s: Sys, a: Action)
    requires Enabled(s, a)
  {
    || (a.NicReady? && I.SpeculativeHazard(s.snd, a.cc))
    || (a.Timeout? && I.ResendHazard(s.snd, a.cc, a.grant, a.grant'))
    || (a.NackArrives? && a.seqno !in s.snd.tx)
  }

  /** Of all the assertions on the way, exactly these can fail. */
  lemma NextAbortsIff(s: Sys, a: Action)
    requires Inv(s) && Enabled(s, a) && InReach(s, a)
    ensures Next(s, a).Aborted? <==> Hazard(s, a)
  {
    if OwnEvent(a) {
      SenderAbortsIff(s, a);
    } else if a.AckArrives? || a.PullArrives? {
      CreditNeverAborts(s, a);
    } else {
      SinkNeverAborts(s, a);
    }
  }

  lemma CreditNeverAborts(s: Sys, a: Action)
    requires Inv(s) && Enabled(s, a) && (a.AckArrives? || a.PullArrives?)
    ensures Next(s, a).Ok?
  {
    if a.AckArrives? {
      AckKeepsInv(s, a.ack, a.now, a.cc, a.grant);
    } else {
      PullKeepsInv(s, a.pullno, a.now, a.cc, a.grant);
    }
  }

  lemma SinkNeverAborts(s: Sys, a: Action)
    requires Inv(s) && Enabled(s, a) && InReach(s, a) && !OwnEvent(a) && !a.AckArrives? && !a.PullArrives?
    ensures Next(s, a).Ok?
  {
    match a
    case DataArrives(p, ecn) => DataKeepsInv(s, p, ecn);
    case DataTrimmed(p) => TrimKeepsInv(s, p);
    case RtsArrives(p, ecn) => RtsKeepsInv(s, p, ecn);
    case PacerTimer(skip) => PacerKeepsInv(s, P.Timer(skip));
    case Others(e) => PacerKeepsInv(s, e);
  }

  lemma SenderAbortsIff(s: Sys, a: Action)
    requires Inv(s) && Enabled(s, a) && OwnEvent(a)
    ensures Next(s, a).Aborted? <==> Hazard(s, a)
  {
    match a
    case NackArrives(q, now, cc, grant, grant') =>
      I.ProcessNackSteps(s.snd, s.sizes, q, now, cc, grant, grant');
    case Timeout(now, cc, grant, grant', recent) =>
      I.TimerAborts(s.snd, s.sizes, now, cc, grant, grant', recent);
    case NicReady(now, cc) =>
      I.TimeToSendSteps(s.snd, s.sizes, now, cc);
  }

  /** No action of the run meets a hazard. */
  ghost predicate HazardFree(s: Sys, actions: seq<Action>)
    requires Inv(s) && StaysInReach(s, actions)
    decreases |actions|
  {
    if actions == [] then true
    else if !Enabled(s, actions[0]) then HazardFree(s, actions[1..])
    else
      NextAbortsIff(s, actions[0]);
      && !Hazard(s, actions[0])
      && (NextKeepsInv(s, actions[0]); HazardFree(Next(s, actions[0]).value, actions[1..]))
  }

  /** A run trips an assertion if and only if it meets a hazard. */
  lemma {:induction false} RunAbortsIff(s: Sys, actions: seq<Action>)
    requires Inv(s) && StaysInReach(s, actions)
    ensures Run(s, actions).Ok? <==> HazardFree(s, actions)
    decreases |actions|
  {
    if actions == [] {
    } else if !Enabled(s, actions[0]) {
      RunAbortsIff(s, actions[1..]);
    } else {
      NextAbortsIff(s, actions[0]);
      if Next(s, actions[0]).Ok? {
        NextKeepsInv(s, actions[0]);
        RunAbortsIff(Next(s, actions[0]).value, actions[1..]);
      }
    }
  }

  // ---------------------------------------------------------------- refusals that come too late

  /** The program as the comment beside its abort would have it: a refusal of a packet that is no longer
      outstanding is ignored. */
  ghost function NextTolerant(s: Sys, a: Action): Outcome<Sys>
    requires Joined(s) && Enabled(s, a)
  {
    if a.NackArrives? && a.seqno !in s.snd.tx then Ok(s) else Next(s, a)
  }

  ghost function RunTolerant(s: Sys, actions: seq<Action>): Outcome<Sys>
    requires Joined(s)
    decreases |actions|
  {
    if actions == [] then Ok(s)
    else if !Enabled(s, actions[0]) then RunTolerant(s, actions[1..])
    else
      var t :- NextTolerant(s, actions[0]);
      TolerantStaysJoined(s, actions[0]);
      RunTolerant(t, actions[1..])
  }

  lemma TolerantStaysJoined(s: Sys, a: Action)
    requires Joined(s) && Enabled(s, a) && NextTolerant(s, a).Ok?
    ensures Joined(NextTolerant(s, a).value)
  {
    if !(a.NackArrives? && a.seqno !in s.snd.tx) {
      StaysJoined(s, a);
    }
  }

  ghost predicate TolerantInReach(s: Sys, actions: seq<Action>)
    requires Joined(s)
    decreases |actions|
  {
    if actions == [] then true
    else if !Enabled(s, actions[0]) then TolerantInReach(s, actions[1..])
    else
      InReach(s, actions[0]) &&
      var o := NextTolerant(s, actions[0]);
      o.Ok? ==> (TolerantStaysJoined(s, actions[0]); TolerantInReach(o.value, actions[1..]))
  }

  lemma TolerantKeepsInv(s: Sys, a: Action)
    requires Inv(s) && Enabled(s, a) && InReach(s, a)
    ensures NextTolerant(s, a).Ok? ==> Inv(NextTolerant(s, a).value)
    ensures NextTolerant(s, a).Aborted? <==> Hazard(s, a) && !a.NackArrives?
  {
    NextAbortsIff(s, a);
    if Next(s, a).Ok? {
      NextKeepsInv(s, a);
    }
  }

  /** No action of the run meets one of the other two hazards. */
  ghost predicate TolerantHazardFree(s: Sys, actions: seq<Action>)
    requires Inv(s) && TolerantInReach(s, actions)
    decreases |actions|
  {
    if actions == [] then true
    else if !Enabled(s, actions[0]) then TolerantHazardFree(s, actions[1..])
    else
      TolerantKeepsInv(s, actions[0]);
      && !(Hazard(s, actions[0]) && !actions[0].NackArrives?)
      && TolerantHazardFree(NextTolerant(s, actions[0]).value, actions[1..])
  }

  /** Ignoring late refusals is safe: every run then keeps the invariant, and fails exactly at the other two
      hazards. */
  lemma {:induction false} TolerantRunsAreSafe(s: Sys, actions: seq<Action>)
    requires Inv(s) && TolerantInReach(s, actions)
    ensures RunTolerant(s, actions).Ok? ==> Inv(RunTolerant(s, actions).value)
    ensures RunTolerant(s, actions).Ok? <==> TolerantHazardFree(s, actions)
    decreases |actions|
  {
    if actions == [] {
    } else if !Enabled(s, actions[0]) {
      TolerantRunsAreSafe(s, actions[1..]);
    } else {
      TolerantKeepsInv(s, actions[0]);
      if NextTolerant(s, actions[0]).Ok? {
        TolerantRunsAreSafe(NextTolerant(s, actions[0]).value, actions[1..]);
      }
    }
  }

  // ---------------------------------------------------------------- each hazard is real

  lemma RunAborts(s: Sys, a: Action)
    requires Inv(s) && Enabled(s, a) && InReach(s, a) && Hazard(s, a)
    ensures Run(s, [a]).Aborted?
  {
    NextAbortsIff(s, a);
  }

  /** The first packet times out. Both ports are free, and no request-to-send went out before. */
  const FirstTimeout: Action := Timeout(5, S.NoCc, true, true, false)

  /** The refusal of the first packet arrives late. */
  const LateRefusal: Action := NackArrives(0, 6, S.NoCc, true, true)

  /** The first pull that the receiver grants arrives. */
  const FirstPull: Action := PullArrives(INIT_PULL + P.CREDIT_PER_PULL, 3, S.NoCc, true)

  /** A source that speculates is turned away by its card after one packet, the packet times out, and the
      card calls the source back. It happens to every flow of more than one packet whose initial window
      has room for a second. */
  lemma SpeculativeHazardReachable(c: Config, pacer: P.State<nat>)
    requires c.flowSize > c.mss && c.maxWnd > c.mss + S.HDR_SIZE && Awaiting(pacer)
    ensures Started(c, pacer).Ok? && Joined(Started(c, pacer).value)
    ensures Run(Started(c, pacer).value, [FirstTimeout, NicReady(6, S.NoCc)]).Aborted?
  {
    StartsWithOne(c, pacer);
    var s := Started(c, pacer).value;
    var t := FirstTimesOut(c, s);
    RunOne(s, FirstTimeout, t, [NicReady(6, S.NoCc)]);
    CalledBackTooEarly(t, NicReady(6, S.NoCc));
  }

  lemma CalledBackTooEarly(s: Sys, a: Action)
    requires Inv(s) && a.NicReady? && I.SpeculativeHazard(s.snd, a.cc)
    ensures Run(s, [a]).Aborted?
  {
    RunAborts(s, a);
  }

  /** Without pulled credit the timed-out packet waits, and the source goes on speculating. */
  lemma FirstTimesOut(c: Config, s: Sys) returns (t: Sys)
    requires Inv(s) && FirstOut(c, s.snd)
    ensures Leads(s, FirstTimeout, t) && Inv(t)
    ensures 0 in t.snd.rtx && 0 !in t.snd.tx && s.net <= t.net
    ensures t.snd.speculating && t.snd.creditSpec == s.snd.creditSpec && t.snd.creditPull == 0
  {
    assert 0 in s.snd.sendTimes.Keys;
    assert S.Least(s.snd.sendTimes.Keys) == 0;
    SenderAbortsIff(s, FirstTimeout);
    OwnEventSteps(s, FirstTimeout);
    t := Next(s, FirstTimeout).value;
  }

  /** The first packet is trimmed and its refusal delayed; by the time it arrives, the packet has timed out.
      It happens to every flow. */
  lemma StaleRefusalReachable(c: Config, pacer: P.State<nat>)
    requires c.maxWnd > 0 && c.flowSize > 0 && Awaiting(pacer)
    ensures Started(c, pacer).Ok? && Joined(Started(c, pacer).value)
    ensures Run(Started(c, pacer).value, [DataTrimmed(FirstPacket(c, S.NoCc)), FirstTimeout, LateRefusal]).Aborted?
  {
    StartsWithOne(c, pacer);
    var s := Started(c, pacer).value;
    var t := FirstTrimmed(s, FirstPacket(c, S.NoCc));
    var u := FirstTimesOut(c, t);
    RunOne(s, DataTrimmed(FirstPacket(c, S.NoCc)), t, [FirstTimeout, LateRefusal]);
    RunOne(t, FirstTimeout, u, [LateRefusal]);
    RunAborts(u, LateRefusal);
  }

  /** Nothing has arrived before, so the packet is refused and its demand listed. */
  lemma FirstTrimmed(s: Sys, p: S.Packet) returns (t: Sys)
    requires Inv(s) && p.Data? && FromSender(p) in s.net && p.seqno == 0 && s.win == W.InitWindow
    ensures Leads(s, DataTrimmed(p), t) && Inv(t)
    ensures t.snd == s.snd && t.net == s.net + {NackMsg(0)}
    ensures P.TrimmedDemand(s.pacer, ME, Field(p.pullTarget), RtxDemand(s.snd)) == Ok(t.pacer)
  {
    TrimKeepsInv(s, p);
    assert !W.Duplicate(s.win, 0);
    t := TakeTrimmed(s, p).value;
  }

  /** The first packet is trimmed and its refusal lost. The receiver pulls it again, its sender takes the pull
      for new credit, and then the packet times out: a card with two free ports lets the source resend it
      twice. It happens to every one-packet flow whose packet costs less than a pull. */
  lemma DoubleResendReachable(c: Config)
    requires 0 < c.flowSize <= c.mss && c.flowSize + S.HDR_SIZE < 4096 <= c.maxWnd
    ensures Awaiting(P.InitState<nat>()) && Started(c, P.InitState<nat>()).Ok?
    ensures Joined(Started(c, P.InitState<nat>()).value)
    ensures Run(Started(c, P.InitState<nat>()).value,
                [DataTrimmed(FirstPacket(c, S.NoCc)), PacerTimer(false), FirstPull, FirstTimeout]).Aborted?
  {
    StartsWithOne(c, P.InitState<nat>());
    var s := Started(c, P.InitState<nat>()).value;
    var t := FirstTrimmed(s, FirstPacket(c, S.NoCc));
    AloneInRtx(s.pacer, Field(FirstPacket(c, S.NoCc).pullTarget), RtxDemand(s.snd));
    var u := TrimmedIsPulled(t);
    var v := FirstCredit(c, u);
    RunOne(s, DataTrimmed(FirstPacket(c, S.NoCc)), t, [PacerTimer(false), FirstPull, FirstTimeout]);
    RunOne(t, PacerTimer(false), u, [FirstPull, FirstTimeout]);
    RunOne(u, FirstPull, v, [FirstTimeout]);
    ResentTwice(c, v);
  }

  /** The receiver's retransmission is the only one its pacer has to serve. */
  ghost predicate Alone(p: P.State<nat>) {
    p.rtx == [ME] && ME in p.credit && p.credit[ME].latest == INIT_PULL && p.pending > 0
  }

  /** A pacer that serves nobody else pulls the trimmed packet at once. */
  lemma TrimmedIsPulled(s: Sys) returns (t: Sys)
    requires Inv(s) && Alone(s.pacer)
    ensures Leads(s, PacerTimer(false), t) && Inv(t)
    ensures t.snd == s.snd && PullMsg(INIT_PULL + P.CREDIT_PER_PULL) in t.net
  {
    PacerKeepsInv(s, P.Timer(false));
    t := PacerStep(s, P.Timer(false)).value;
    AlonePulled(s.pacer);
  }

  lemma AlonePulled(p: P.State<nat>)
    requires P.Inv(p) && Alone(p)
    ensures P.Tick(p, false).Ok?
    ensures PullMsg(INIT_PULL + P.CREDIT_PER_PULL) in PullMessages(P.Tick(p, false).value.1)
  {
    var sent := P.PullPkt(ME, INIT_PULL + P.CREDIT_PER_PULL, false);
    assert P.Tick(p, false).value.1 == [sent];
    assert sent in [sent];
  }

  lemma AloneInRtx(p: P.State<nat>, pt: nat, amount: nat)
    requires P.Inv(p) && P.Quiet(p) && ME in p.credit && p.credit[ME].latest == INIT_PULL && amount > 0
    ensures P.TrimmedDemand(p, ME, pt, amount).Ok?
    ensures Alone(P.TrimmedDemand(p, ME, pt, amount).value)
  {
    P.TrimmedKeepsInv(p, ME, pt, amount);
    assert P.Placed(p, ME);
  }

  lemma FirstCredit(c: Config, s: Sys) returns (t: Sys)
    requires Inv(s) && FirstOut(c, s.snd) && s.snd.unsent == 0 && s.snd.maxWnd >= 4096 && Enabled(s, FirstPull)
    ensures Leads(s, FirstPull, t) && Inv(t)
    ensures OneOut(t.snd, FirstSize(c)) && t.snd.creditPull == 4096 && !t.snd.speculating
    ensures t.snd.creditSpec == s.snd.creditSpec && t.snd.blocked == s.snd.blocked
  {
    PullKeepsInv(s, FirstPull.pullno, FirstPull.now, FirstPull.cc, FirstPull.grant);
    t := Next(s, FirstPull).value;
  }

  lemma ResentTwice(c: Config, s: Sys)
    requires Inv(s) && OneOut(s.snd, FirstSize(c)) && FirstSize(c) < 4096
    requires s.snd.creditPull == 4096 && !s.snd.speculating && !s.snd.blocked && s.snd.creditSpec >= 0
    ensures Run(s, [FirstTimeout]).Aborted?
  {
    assert 0 in s.snd.sendTimes.Keys;
    assert S.Least(s.snd.sendTimes.Keys) == 0;
    RunAborts(s, FirstTimeout);
  }
}
