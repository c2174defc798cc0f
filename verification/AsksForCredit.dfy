/**
A flow whose first packet asks for credit never starves: as long as the receiver has not heard of any demand,
that packet has not arrived, and no other copy of it is ever sent. Together with the run that starves every
small flow this says exactly which flows can starve.
 */
module AsksForCredit {
  import opened Outcomes
  import opened Quanta
  import opened Cyclic
  import opened Protocol
  import opened OnePacketOut
  import opened CreditLoop
  import opened Starvation
  import S = Sender
  import I = SenderInvariant
  import P = PullPacer
  import W = ReceiveWindow
  import Reach

  // ---------------------------------------------------------------- a demand stays heard

  predicate SameLists(p: P.State<nat>, r: P.State<nat>) {
    && (ME in p.rtx <==> ME in r.rtx) && (ME in p.active <==> ME in r.active) && (ME in p.idle <==> ME in r.idle)
    && ME in p.credit && ME in r.credit && p.credit[ME] == r.credit[ME]
  }

  lemma HeadOrTail(q: seq<nat>)
    requires q != []
    ensures ME in q <==> q[0] == ME || ME in q[1..]
  {
    assert q == [q[0]] + q[1..];
  }

  /** Unless the pacer pulls the receiver, it leaves it where it is. */
  lemma TickPullsOrSpares(p: P.State<nat>, skip: bool)
    requires P.Known(p) && p.pending > 0 && ME in p.credit && P.Tick(p, skip).Ok?
    ensures var r := P.Tick(p, skip).value.0;
            ME in r.credit && (r.credit[ME].latest == p.credit[ME].latest ==> SameLists(p, r))
  {
    if p.rtx != [] {
      HeadOrTail(p.rtx);
    } else if p.active != [] {
      HeadOrTail(p.active);
    } else if p.idle != [] {
      HeadOrTail(p.idle);
    }
  }

  lemma TimerKeepsHeard(s: Sys, skip: bool)
    requires Inv(s) && s.pacer.pending > 0 && PacerStep(s, P.Timer(skip)).Ok?
    requires Undemanded(PacerStep(s, P.Timer(skip)).value)
    ensures Undemanded(s)
  {
    var t := PacerStep(s, P.Timer(skip)).value;
    PacerMoves(s.pacer, P.Timer(skip));
    TickPullsOrSpares(s.pacer, skip);
    assert Latest(t) == Latest(s) by {
      assert PullMsg(Latest(t)) !in t.net;
    }
    NoPullBefore(s, t);
  }

  lemma NoPullBefore(s: Sys, t: Sys)
    requires Undemanded(t) && s.net <= t.net
    ensures forall n :: PullMsg(n) !in s.net
  {
    forall n ensures PullMsg(n) !in s.net {
      assert PullMsg(n) !in t.net;
    }
  }

  /** From `p` to `r` the receiver's demand only grew, and it was taken off no list. */
  predicate Grew(p: P.State<nat>, r: P.State<nat>) {
    && ME in p.credit && ME in r.credit
    && (ME in p.rtx ==> ME in r.rtx) && (ME in p.active ==> ME in r.active) && (ME in p.idle ==> ME in r.idle)
    && p.credit[ME].retx <= r.credit[ME].retx && p.credit[ME].target <= r.credit[ME].target
    && p.credit[ME].latest == r.credit[ME].latest && p.credit[ME].slowLimit == r.credit[ME].slowLimit
    && (p.credit[ME].inPull ==> r.credit[ME].inPull) && p.credit[ME].inSlowPull == r.credit[ME].inSlowPull
  }

  lemma TargetGrows(p: P.State<nat>, k: nat, pt: nat)
    requires ME in p.credit && k in p.credit
    ensures P.HandlePullTarget(p, k, pt).Ok? ==> Grew(p, P.HandlePullTarget(p, k, pt).value)
  {
  }

  lemma TrimmedGrows(p: P.State<nat>, k: nat, pt: nat, amount: nat)
    requires ME in p.credit && k in p.credit
    ensures P.TrimmedDemand(p, k, pt, amount).Ok? ==> Grew(p, P.TrimmedDemand(p, k, pt, amount).value)
  {
    TargetGrows(p, k, pt);
  }

  lemma RtsGrows(p: P.State<nat>, k: nat, pt: nat, amount: nat)
    requires ME in p.credit && k in p.credit
    ensures P.RtsDemand(p, k, pt, amount).Ok? ==> Grew(p, P.RtsDemand(p, k, pt, amount).value)
  {
    TargetGrows(p, k, pt);
    if P.HandlePullTarget(p, k, pt).Ok? {
      var p1 := P.HandlePullTarget(p, k, pt).value;
      AddRtsGrows(p1, k, amount);
    }
  }

  lemma AddRtsGrows(p: P.State<nat>, k: nat, amount: nat)
    requires ME in p.credit && k in p.credit
    ensures P.AddRtsDemand(p, k, amount).Ok? ==> Grew(p, P.AddRtsDemand(p, k, amount).value)
  {
  }

  lemma OthersGrow(p: P.State<nat>, e: P.Event<nat>)
    requires P.Known(p) && ME in p.credit && P.Enabled(p, e) && OfOthers(e) && P.Step(p, e).Ok?
    ensures Grew(p, P.Step(p, e).value.0)
  {
    match e
    case Target(k, pt) => TargetGrows(p, k, pt);
    case Trimmed(k, pt, amount) => TrimmedGrows(p, k, pt, amount);
    case Rts(k, pt, amount) => RtsGrows(p, k, pt, amount);
    case Join(_, _) =>
  }

  /** The pull target never falls below the number where both ends start. */
  ghost predicate TargetStarts(s: Sys) {
    ME in s.pacer.credit && s.pacer.credit[ME].target >= INIT_PULL
  }

  lemma GrewKeepsHeard(s: Sys, t: Sys)
    requires Grew(s.pacer, t.pacer) && s.net <= t.net && TargetStarts(s)
    ensures TargetStarts(t) && (Undemanded(t) ==> Undemanded(s))
  {
    if Undemanded(t) {
      NoPullBefore(s, t);
    }
  }

  lemma SinkKeepsHeard(s: Sys, a: Action)
    requires Inv(s) && TargetStarts(s) && Enabled(s, a) && Next(s, a).Ok?
    requires a.DataArrives? || a.DataTrimmed? || a.RtsArrives? || a.Others?
    ensures var t := Next(s, a).value; TargetStarts(t) && (Undemanded(t) ==> Undemanded(s))
  {
    var t := Next(s, a).value;
    match a
    case DataArrives(p, ecn) => TargetGrows(s.pacer, ME, Field(p.pullTarget));
    case DataTrimmed(p) => TrimmedGrows(s.pacer, ME, Field(p.pullTarget), RtxDemand(s.snd));
    case RtsArrives(p, ecn) => RtsGrows(s.pacer, ME, Field(p.pullTarget), RtxDemand(s.snd));
    case Others(e) => OthersGrow(s.pacer, e);
    GrewKeepsHeard(s, t);
  }

  lemma TimerKeepsTarget(s: Sys, skip: bool)
    requires Inv(s) && TargetStarts(s) && s.pacer.pending > 0 && PacerStep(s, P.Timer(skip)).Ok?
    ensures TargetStarts(PacerStep(s, P.Timer(skip)).value)
  {
  }

  /** Once the receiver has heard of a demand, it is never as if it had not. */
  lemma DemandStaysHeard(s: Sys, a: Action)
    requires Inv(s) && TargetStarts(s) && Enabled(s, a) && Next(s, a).Ok?
    ensures var t := Next(s, a).value; TargetStarts(t) && (Undemanded(t) ==> Undemanded(s))
  {
    var t := Next(s, a).value;
    if a.PacerTimer? {
      TimerKeepsTarget(s, a.skip);
      if Undemanded(t) {
        TimerKeepsHeard(s, a.skip);
      }
    } else if a.DataArrives? || a.DataTrimmed? || a.RtsArrives? || a.Others? {
      SinkKeepsHeard(s, a);
    } else {
      SenderKeepsPacer(s, a);
      if Undemanded(t) {
        NoPullBefore(s, t);
      }
    }
  }

  lemma SenderKeepsPacer(s: Sys, a: Action)
    requires Joined(s) && Enabled(s, a) && Next(s, a).Ok? && (OwnEvent(a) || a.AckArrives? || a.PullArrives?)
    ensures var t := Next(s, a).value; t.pacer == s.pacer && s.net <= t.net && t.rcv == s.rcv && t.win == s.win
  {
  }

  // ---------------------------------------------------------------- unpaid sources send new packets only

  /** Going from `s`, which has no pulled credit, to `t`, only data with new numbers was sent. */
  ghost predicate NewOnly(s: S.Sender, t: S.Sender, pkts: seq<S.Packet>) {
    && t.creditPull <= 0 && t.highestSent >= s.highestSent
    && forall i :: 0 <= i < |pkts| && pkts[i].Data? ==> pkts[i].seqno >= s.highestSent
  }

  ghost predicate SendsNewOnly(s: S.Sender, r: S.Sent) {
    r.Ok? ==> NewOnly(s, r.value.0, r.value.1)
  }

  lemma NewOnlyTwice(s: S.Sender, t: S.Sender, a: seq<S.Packet>, u: S.Sender, b: seq<S.Packet>)
    requires NewOnly(s, t, a) && NewOnly(t, u, b)
    ensures NewOnly(s, u, a + b)
  {
  }

  lemma SpendingKeepsUnpaid(s: S.Sender, size: nat)
    requires s.creditPull <= 0
    ensures var r := S.SpendCredit(s, size);
            r.Ok? ==> r.value.s.creditPull <= 0 && r.value.s.highestSent == s.highestSent
                      && (r.value.sent ==> r.value.speculative)
  {
  }

  lemma NewIsNew(s: S.Sender, now: nat, cc: S.Cc)
    requires s.creditPull <= 0
    ensures SendsNewOnly(s, S.SendNew(s, now, cc))
  {
    if S.NextPayload(s) > 0 {
      SpendingKeepsUnpaid(s, S.NextPayload(s) + S.HDR_SIZE);
    }
  }

  lemma RtxIsWithheld(s: S.Sender, now: nat, cc: S.Cc)
    requires s.creditPull <= 0
    ensures SendsNewOnly(s, S.SendRtx(s, now, cc))
  {
    if s.rtx.Keys != {} {
      SpendingKeepsUnpaid(s, s.rtx[S.Least(s.rtx.Keys)]);
    }
  }

  lemma AskingSendsNew(s: S.Sender, now: nat, cc: S.Cc, grant: bool)
    requires s.creditPull <= 0
    ensures SendsNewOnly(s, S.SendIfPermitted(s, now, cc, grant))
  {
    NewIsNew(s, now, cc);
    RtxIsWithheld(s, now, cc);
  }

  lemma QueueingSendsNew(s: S.Sender, q: nat, size: nat, now: nat, cc: S.Cc, grant: bool)
    requires s.creditPull <= 0
    ensures SendsNewOnly(s, S.QueueForRtx(s, q, size, now, cc, grant))
  {
    AskingSendsNew(s.(rtx := s.rtx[q := size]), now, cc, grant);
  }

  lemma AckSendsNew(s: S.Sender, k: W.Ack, now: nat, cc: S.Cc, grant: bool)
    requires s.creditPull <= 0
    ensures SendsNewOnly(s, S.ProcessAck(s, k.cum, k.ref, k.bitmap, now, cc, grant))
  {
    AskingSendsNew(I.Acknowledged(s, k.cum, k.ref, k.bitmap), now, cc, grant);
  }

  lemma NackSendsNew(s: S.Sender, q: nat, now: nat, cc: S.Cc, grant: bool, grant': bool)
    requires s.creditPull <= 0
    ensures SendsNewOnly(s, S.ProcessNack(s, q, now, cc, grant, grant'))
  {
    if q in s.tx {
      var s1 := S.StopSpeculating(S.Drop(s, {q}));
      QueueingSendsNew(s1, q, s.tx[q].size, now, cc, grant);
      var r := S.QueueForRtx(s1, q, s.tx[q].size, now, cc, grant);
      if r.Ok? {
        AskingSendsNew(r.value.0, now, cc, grant');
        var r' := S.SendIfPermitted(r.value.0, now, cc, grant');
        if r'.Ok? {
          NewOnlyTwice(s1, r.value.0, r.value.1, r'.value.0, r'.value.1);
        }
      }
    }
  }

  lemma CardSendsNew(s: S.Sender, now: nat, cc: S.Cc)
    requires s.creditPull <= 0
    ensures SendsNewOnly(s, S.TimeToSend(s, now, cc))
  {
    NewIsNew(s.(blocked := false), now, cc);
    RtxIsWithheld(s.(blocked := false), now, cc);
  }

  lemma AfterTimeoutSendsNew(s: S.Sender, size: nat, now: nat, cc: S.Cc, grant: bool, recent: bool)
    requires s.creditPull <= 0
    ensures SendsNewOnly(s, S.AfterTimeout(s, size, now, cc, grant, recent))
    ensures SendsNewOnly(s, S.SendRts(s, now, recent))
  {
    RtxIsWithheld(s, now, cc);
  }

  lemma BehindSendsNew(s: S.Sender, q: nat, size: nat, now: nat, cc: S.Cc, grant: bool, recent: bool)
    requires s.creditPull <= 0
    ensures SendsNewOnly(s, S.QueueBehind(s, q, size, now, cc, grant, recent))
  {
    var s1 := S.StopSpeculating(s);
    QueueingSendsNew(s1, q, size, now, cc, grant);
    var r := S.QueueForRtx(s1, q, size, now, cc, grant);
    if r.Ok? && S.SendRts(r.value.0, now, recent).Ok? {
      AfterTimeoutSendsNew(r.value.0, size, now, cc, grant, recent);
      var r' := S.SendRts(r.value.0, now, recent).value;
      NewOnlyTwice(s1, r.value.0, r.value.1, r'.0, r'.1);
    }
  }

  lemma AloneSendsNew(s: S.Sender, q: nat, size: nat, now: nat, cc: S.Cc, grant: bool, grant': bool, recent: bool)
    requires s.creditPull <= 0
    ensures SendsNewOnly(s, S.QueueAlone(s, q, size, now, cc, grant, grant', recent))
  {
    QueueingSendsNew(s, q, size, now, cc, grant);
    var r := S.QueueForRtx(s, q, size, now, cc, grant);
    if r.Ok? && S.AfterTimeout(r.value.0, size, now, cc, grant', recent).Ok? {
      AfterTimeoutSendsNew(r.value.0, size, now, cc, grant', recent);
      var r' := S.AfterTimeout(r.value.0, size, now, cc, grant', recent).value;
      NewOnlyTwice(s, r.value.0, r.value.1, r'.0, r'.1);
    }
  }

  lemma TimeoutSendsNew(s: S.Sender, now: nat, cc: S.Cc, grant: bool, grant': bool, recent: bool)
    requires s.creditPull <= 0
    ensures SendsNewOnly(s, S.TimerExpired(s, now, cc, grant, grant', recent))
  {
    if s.sendTimes.Keys != {} {
      var t := S.Least(s.sendTimes.Keys);
      var q := s.sendTimes[t];
      if q in s.tx {
        var s1 := s.(sendTimes := s.sendTimes - {t}, tx := s.tx - {q});
        BehindSendsNew(s1, q, s.tx[q].size, now, cc, grant, recent);
        AloneSendsNew(s1, q, s.tx[q].size, now, cc, grant, grant', recent);
      }
    }
  }

  // ---------------------------------------------------------------- no run starves

  /** The first packet is on its way, or a demand has been heard: all copies of packet 0 ask for credit. */
  ghost predicate WillAsk(s: Sys) {
    && TargetStarts(s) && s.snd.highestSent > 0
    && (Undemanded(s) ==>
          && 0 !in s.rcv
          && forall p :: FromSender(p) in s.net && p.Data? && p.seqno == 0 ==> Field(p.pullTarget) > INIT_PULL)
  }

  /** A source whose receiver has granted nothing has no pulled credit. */
  lemma UndemandedIsUnpaid(s: Sys)
    requires Inv(s) && Undemanded(s)
    ensures s.snd.creditPull <= 0
  {
  }

  lemma SenderStillAsks(s: Sys, a: Action, r: S.Sent)
    requires Inv(s) && WillAsk(s) && Enabled(s, a) && Next(s, a) == FromEvent(s, r) && r.Ok?
    requires OwnEvent(a) || a.AckArrives? || a.PullArrives?
    requires Undemanded(s) ==> NewOnly(s.snd, r.value.0, r.value.1)
    requires r.value.0.highestSent >= s.snd.highestSent
    ensures WillAsk(Next(s, a).value)
  {
    var t := Next(s, a).value;
    DemandStaysHeard(s, a);
    if Undemanded(t) {
      forall p | FromSender(p) in t.net && p.Data? && p.seqno == 0 ensures Field(p.pullTarget) > INIT_PULL {
        assert FromSender(p) in s.net;
      }
    }
  }

  lemma NackStillAsks(s: Sys, a: Action)
    requires Inv(s) && WillAsk(s) && Enabled(s, a) && a.NackArrives? && Next(s, a).Ok?
    requires Next(s, a).value.snd.highestSent >= s.snd.highestSent
    ensures WillAsk(Next(s, a).value)
  {
    if Undemanded(s) {
      UndemandedIsUnpaid(s);
      NackSendsNew(s.snd, a.seqno, a.now, a.cc, a.grant, a.grant');
    }
    SenderStillAsks(s, a, S.ProcessNack(s.snd, a.seqno, a.now, a.cc, a.grant, a.grant'));
  }

  lemma TimeoutStillAsks(s: Sys, a: Action)
    requires Inv(s) && WillAsk(s) && Enabled(s, a) && a.Timeout? && Next(s, a).Ok?
    requires Next(s, a).value.snd.highestSent >= s.snd.highestSent
    ensures WillAsk(Next(s, a).value)
  {
    if Undemanded(s) {
      UndemandedIsUnpaid(s);
      TimeoutSendsNew(s.snd, a.now, a.cc, a.grant, a.grant', a.recent);
    }
    SenderStillAsks(s, a, S.TimerExpired(s.snd, a.now, a.cc, a.grant, a.grant', a.recent));
  }

  lemma CardStillAsks(s: Sys, a: Action)
    requires Inv(s) && WillAsk(s) && Enabled(s, a) && a.NicReady? && Next(s, a).Ok?
    requires Next(s, a).value.snd.highestSent >= s.snd.highestSent
    ensures WillAsk(Next(s, a).value)
  {
    if Undemanded(s) {
      UndemandedIsUnpaid(s);
      CardSendsNew(s.snd, a.now, a.cc);
    }
    SenderStillAsks(s, a, S.TimeToSend(s.snd, a.now, a.cc));
  }

  lemma OwnEventStillAsks(s: Sys, a: Action)
    requires Inv(s) && WillAsk(s) && Enabled(s, a) && OwnEvent(a) && Next(s, a).Ok?
    ensures WillAsk(Next(s, a).value)
  {
    OwnEventSteps(s, a);
    if a.NackArrives? {
      NackStillAsks(s, a);
    } else if a.Timeout? {
      TimeoutStillAsks(s, a);
    } else {
      CardStillAsks(s, a);
    }
  }

  lemma AckStillAsks(s: Sys, a: Action)
    requires Inv(s) && WillAsk(s) && Enabled(s, a) && a.AckArrives?
    ensures Next(s, a).Ok? ==> WillAsk(Next(s, a).value)
  {
    var k := a.ack;
    AckBounded(s, k);
    I.ProcessAckKeeps(s.snd, s.sizes, k.cum, k.ref, k.bitmap, a.now, a.cc, a.grant);
    if Undemanded(s) {
      UndemandedIsUnpaid(s);
      AckSendsNew(s.snd, k, a.now, a.cc, a.grant);
    }
    SenderStillAsks(s, a, S.ProcessAck(s.snd, k.cum, k.ref, k.bitmap, a.now, a.cc, a.grant));
  }

  lemma PullStillAsks(s: Sys, a: Action)
    requires Inv(s) && WillAsk(s) && Enabled(s, a) && a.PullArrives?
    ensures Next(s, a).Ok? ==> WillAsk(Next(s, a).value)
  {
    I.ProcessPullKeeps(s.snd, s.sizes, a.pullno, a.now, a.cc, a.grant);
    assert !Undemanded(s);
    SenderStillAsks(s, a, S.ProcessPull(s.snd, a.pullno, a.now, a.cc, a.grant));
  }

  lemma SinkStillAsks(s: Sys, a: Action)
    requires Inv(s) && WillAsk(s) && Enabled(s, a) && InReach(s, a) && Next(s, a).Ok?
    requires a.DataArrives? || a.DataTrimmed? || a.RtsArrives? || a.PacerTimer? || a.Others?
    ensures WillAsk(Next(s, a).value)
  {
    var t := Next(s, a).value;
    DemandStaysHeard(s, a);
    SinkKeepsSender(s, a);
    if Undemanded(t) {
      UndemandedIff(s, a);
      SinkSendsNoData(s, a);
      assert 0 !in t.rcv;
    }
  }

  lemma SinkSendsNoData(s: Sys, a: Action)
    requires Joined(s) && Enabled(s, a) && Next(s, a).Ok?
    requires a.DataArrives? || a.DataTrimmed? || a.RtsArrives? || a.PacerTimer? || a.Others?
    ensures forall p :: FromSender(p) in Next(s, a).value.net ==> FromSender(p) in s.net
    ensures Next(s, a).value.rcv <= s.rcv + if a.DataArrives? || a.RtsArrives? then {a.pkt.seqno} else {}
  {
  }

  lemma NextStillAsks(s: Sys, a: Action)
    requires Inv(s) && WillAsk(s) && Enabled(s, a) && InReach(s, a) && Next(s, a).Ok?
    ensures WillAsk(Next(s, a).value)
  {
    if OwnEvent(a) {
      OwnEventStillAsks(s, a);
    } else if a.AckArrives? {
      AckStillAsks(s, a);
    } else if a.PullArrives? {
      PullStillAsks(s, a);
    } else {
      SinkStillAsks(s, a);
    }
  }

  /** Everything that was sent has arrived at a starved receiver, so the first packet has as well. */
  lemma AskingIsNotStarved(s: Sys)
    requires WillAsk(s)
    ensures !Starved(s)
  {
  }

  // ---------------------------------------------------------------- data once sent stays sent

  lemma {:induction false} PayloadGrows(sizes: seq<nat>, sizes': seq<nat>)
    requires sizes <= sizes' && forall q :: 0 <= q < |sizes'| ==> sizes'[q] >= S.HDR_SIZE
    ensures I.Payload(sizes) <= I.Payload(sizes')
    decreases |sizes'|
  {
    if |sizes'| > |sizes| {
      PayloadGrows(sizes, sizes'[..|sizes'| - 1]);
    } else {
      assert sizes == sizes';
    }
  }

  lemma UnsentNeverGrows(s: Sys, a: Action)
    requires Inv(s) && Enabled(s, a) && InReach(s, a) && Next(s, a).Ok?
    ensures Next(s, a).value.snd.unsent <= s.snd.unsent
  {
    NextKeepsInv(s, a);
    Reach.NextKeepsFlow(s, a);
    SizesGrow(s, a);
    PayloadGrows(s.sizes, Next(s, a).value.sizes);
  }

  lemma SizesGrow(s: Sys, a: Action)
    requires Joined(s) && Enabled(s, a) && Next(s, a).Ok?
    ensures s.sizes <= Next(s, a).value.sizes
  {
  }

  // ---------------------------------------------------------------- before the first packet

  /** The card has not let the source send anything yet. */
  ghost predicate Before(c: Config, s: Sys) {
    && Inv(s) && s.snd == Ready(c).(blocked := s.snd.blocked)
    && Undemanded(s) && TargetStarts(s) && s.net == {} && s.rcv == {}
  }

  lemma BeforeIsNotStarved(c: Config, s: Sys)
    requires Before(c, s)
    ensures !Starved(s)
  {
  }

  lemma PacerKeepsBefore(c: Config, s: Sys, e: P.Event<nat>)
    requires Before(c, s) && P.Enabled(s.pacer, e) && (e.Timer? || OfOthers(e))
    ensures PacerStep(s, e).Ok? && Before(c, PacerStep(s, e).value)
  {
    PacerKeepsInv(s, e);
    PacerSparesUndemanded(s, e);
    PacerMoves(s.pacer, e);
    var t := PacerStep(s, e).value;
    assert PullMsg(Latest(t)) !in t.net;
    if !e.Timer? {
      OthersGrow(s.pacer, e);
    }
  }

  /** A call-back either sends the first packet or changes nothing. */
  lemma FirstCallBackSends(c: Config, s: S.Sender, now: nat, cc: S.Cc)
    requires s == Ready(c).(blocked := s.blocked)
    ensures var o := S.TimeToSend(s, now, cc);
            o.Ok? && (|| (o.value.1 == [] && o.value.0 == Ready(c).(blocked := o.value.0.blocked))
                      || (c.maxWnd > 0 && c.flowSize > 0 && o.value.1 == [FirstPacket(c, cc)]
                          && o.value.0.highestSent == 1 && o.value.0.unsent == c.flowSize - FirstPayload(c)))
  {
    assert s.(blocked := false) == Ready(c);
    I.ReadyToStartGood(c.mss, c.maxWnd, c.flowSize);
    if c.flowSize > 0 && c.maxWnd > 0 {
      SendsFirst(c, Ready(c), now, cc);
      I.SendNewSteps(Ready(c), [], now, cc);
      var r := S.SendNew(Ready(c), now, cc).value;
      I.SendAgainSteps(Ready(c), [], r.0, r.1, cc);
    }
  }

  /** What keeps a flow from starving: it has not begun, it asks, or it has nothing left to send. */
  ghost predicate Fed(c: Config, s: Sys) {
    Inv(s) && (Before(c, s) || WillAsk(s) || s.snd.unsent == 0)
  }

  /** The first packet a flow sends asks for credit, or is its last. */
  predicate FirstSuffices(c: Config) {
    TotalBytes(c) > c.maxWnd || c.flowSize <= c.mss
  }

  lemma CallBackFeeds(c: Config, s: Sys, now: nat, cc: S.Cc)
    requires Before(c, s) && FirstSuffices(c) && ProgramSizes(c) && (c.maxWnd > 0 ==> Wide(c, cc))
    ensures var o := Next(s, NicReady(now, cc)); o.Ok? && Fed(c, o.value)
  {
    var r := S.TimeToSend(s.snd, now, cc);
    FirstCallBackSends(c, s.snd, now, cc);
    var t, pkts := EventLeads(s, NicReady(now, cc), r);
    OwnEventSteps(s, NicReady(now, cc));
    SenderSparesUndemanded(s, r);
    if pkts == [] {
      assert Messages([]) == {};
    } else if c.flowSize > c.mss {
      AsksNothingIff(c, cc);
      FirstUnderWay(s, t, FirstPacket(c, cc));
    }
  }

  lemma FirstUnderWay(s: Sys, t: Sys, p: S.Packet)
    requires s.net == {} && t.net == s.net + Messages([p]) && TargetStarts(s) && t.pacer == s.pacer
    requires t.rcv == {} && t.snd.highestSent > 0 && Field(p.pullTarget) > INIT_PULL
    ensures WillAsk(t)
  {
    forall p' | FromSender(p') in t.net ensures p' == p {
      assert p' in [p];
    }
  }

  lemma NextKeepsFed(c: Config, s: Sys, a: Action)
    requires Fed(c, s) && Enabled(s, a) && InReach(s, a) && Next(s, a).Ok?
    requires s.snd.highestSent == 0 && s.snd.unsent > 0 ==>
               FirstSuffices(c) && ProgramSizes(c) && (a.NicReady? && c.maxWnd > 0 ==> Wide(c, a.cc))
    ensures Fed(c, Next(s, a).value)
  {
    NextKeepsInv(s, a);
    if s.snd.unsent == 0 {
      UnsentNeverGrows(s, a);
      assert I.Counts(Next(s, a).value.snd);
    } else if Before(c, s) {
      BeforeMoves(c, s, a);
    } else {
      NextStillAsks(s, a);
    }
  }

  lemma BeforeMoves(c: Config, s: Sys, a: Action)
    requires Before(c, s) && Enabled(s, a) && Next(s, a).Ok?
    requires FirstSuffices(c) && ProgramSizes(c) && (a.NicReady? && c.maxWnd > 0 ==> Wide(c, a.cc))
    ensures Fed(c, Next(s, a).value)
  {
    match a
    case PacerTimer(skip) => PacerKeepsBefore(c, s, P.Timer(skip));
    case Others(e) => PacerKeepsBefore(c, s, e);
    case NicReady(now, cc) => CallBackFeeds(c, s, now, cc);
  }

  /** Call-backs that come before the first packet find a wide window. */
  predicate OpensWide(c: Config, actions: seq<Action>) {
    forall i :: 0 <= i < |actions| && actions[i].NicReady? ==> Wide(c, actions[i].cc)
  }

  /** What a run needs that has not sent its first packet yet. */
  predicate OpensWell(c: Config, s: Sys, actions: seq<Action>) {
    s.snd.highestSent == 0 && s.snd.unsent > 0 ==>
      FirstSuffices(c) && ProgramSizes(c) && (c.maxWnd > 0 ==> OpensWide(c, actions))
  }

  lemma {:induction false} FedNeverStarves(c: Config, s: Sys, actions: seq<Action>)
    requires Fed(c, s) && StaysInReach(s, actions) && OpensWell(c, s, actions)
    ensures Run(s, actions).Ok? ==> !Starved(Run(s, actions).value)
    decreases |actions|
  {
    if actions == [] {
      if WillAsk(s) {
        AskingIsNotStarved(s);
      }
    } else if !Enabled(s, actions[0]) {
      FedNeverStarves(c, s, actions[1..]);
    } else if Next(s, actions[0]).Ok? {
      NextKeepsFed(c, s, actions[0]);
      SizesGrow(s, actions[0]);
      UnsentNeverGrows(s, actions[0]);
      FedNeverStarves(c, Next(s, actions[0]).value, actions[1..]);
    }
  }

  // ---------------------------------------------------------------- from the start

  /** Everything that is sent at the start has a number of its own, from `s.highestSent` on. */
  lemma {:induction false} StartsNew(s: S.Sender, now: nat, cc: S.Cc, n: nat)
    requires s.creditPull <= 0
    ensures SendsNewOnly(s, S.StartLoop(s, now, cc, n))
    decreases n
  {
    NewIsNew(s, now, cc);
    if n > 0 && s.Credit() > 0 && s.unsent > 0 && S.SendNew(s, now, cc).Ok? {
      var r := S.SendNew(s, now, cc).value;
      StartsNew(r.0, now, cc, n - 1);
      if S.StartLoop(r.0, now, cc, n - 1).Ok? {
        var rest := S.StartLoop(r.0, now, cc, n - 1).value;
        NewOnlyTwice(s, r.0, r.1, rest.0, rest.1);
      }
    }
  }

  /** A flow that may send at the start begins with its first packet, and all others are different ones. */
  lemma StartsWithFirst(c: Config, now: nat, cc: S.Cc, n: nat)
    requires c.maxWnd > 0 && c.flowSize > 0 && n > 0
    ensures var o := S.StartLoop(Ready(c), now, cc, n);
            o.Ok? ==>
              && o.value.0.highestSent > 0 && |o.value.1| > 0
              && forall i :: 0 <= i < |o.value.1| && o.value.1[i].Data? && o.value.1[i].seqno == 0 ==>
                   o.value.1[i] == FirstPacket(c, cc)
  {
    var o := S.StartLoop(Ready(c), now, cc, n);
    if o.Ok? {
      SendsFirst(c, Ready(c), now, cc);
      S.StartLoopUnfolds(Ready(c), now, cc, n);
      var r := S.SendNew(Ready(c), now, cc).value;
      StartsNew(r.0, now, cc, n - 1);
    }
  }

  lemma StartsAsking(c: Config, pacer: P.State<nat>, now: nat, cc: S.Cc, n: nat) returns (s: Sys)
    requires c.maxWnd > 0 && c.flowSize > 0 && n > 0 && Field(FirstPacket(c, cc).pullTarget) > INIT_PULL
    requires Awaiting(pacer)
    ensures Init(c, pacer, now, cc, n) == Ok(s) && Inv(s) && WillAsk(s)
  {
    InitInv(c, pacer, now, cc, n);
    StartsWithFirst(c, now, cc, n);
    s := Init(c, pacer, now, cc, n).value;
  }

  /** No run starves a flow whose first packet asks for credit, whatever the congestion window was when it
      started, and however many packets the card granted then. */
  lemma AskingFlowsNeverStarve(
    c: Config, pacer: P.State<nat>, now: nat, cc: S.Cc, grants: nat, actions: seq<Action>)
    requires c.maxWnd > 0 && c.flowSize > 0 && grants > 0 && Awaiting(pacer)
    requires Field(FirstPacket(c, cc).pullTarget) > INIT_PULL
    ensures Init(c, pacer, now, cc, grants).Ok? && Joined(Init(c, pacer, now, cc, grants).value)
    ensures var s := Init(c, pacer, now, cc, grants).value;
            StaysInReach(s, actions) && Run(s, actions).Ok? ==> !Starved(Run(s, actions).value)
  {
    var s := StartsAsking(c, pacer, now, cc, grants);
    if StaysInReach(s, actions) {
      FedNeverStarves(c, s, actions);
    }
  }

  lemma TakesOneGrant(unsent: nat, n: nat, m: Positive)
    requires 0 < unsent <= n * m
    ensures n > 0 && unsent - S.Min(m, unsent) <= (n - 1) * m
  {
    LeavesOneMore(n, m);
    if n > 0 {
      I.MulMonotone(0, n - 1, m);
    }
  }

  /** With enough grants a covered source sends everything at once. */
  lemma {:induction false} StartSendsAll(c: Config, s: S.Sender, sizes: seq<nat>, now: nat, cc: S.Cc, n: nat)
    requires Covered(c, s) && I.Sized(s, sizes) && s.unsent <= n * c.mss && !s.done
    requires TotalBytes(c) <= c.maxWnd && Wide(c, cc)
    ensures var o := S.StartLoop(s, now, cc, n); o.Ok? && o.value.0.unsent == 0
    decreases n
  {
    if s.unsent == 0 {
      S.StartLoopEnds(s, now, cc, n);
    } else {
      TakesOneGrant(s.unsent, n, c.mss);
      SendsCovered(c, s, sizes, now, cc);
      var r := S.SendNew(s, now, cc).value;
      StartSendsAll(c, r.0, I.Extend(sizes, r.1), now, cc, n - 1);
    }
  }

  /** Data is left when the card has granted its first packets. */
  predicate DataIsLeft(c: Config, grants: nat) {
    c.flowSize > (if grants == 0 then 1 else grants) * c.mss
  }

  lemma StartsFed(c: Config, pacer: P.State<nat>, now: nat, cc: S.Cc, grants: nat) returns (s: Sys)
    requires ProgramSizes(c) && Awaiting(pacer) && (grants > 0 ==> Wide(c, cc))
    requires !(TotalBytes(c) <= c.maxWnd && DataIsLeft(c, grants))
    ensures Init(c, pacer, now, cc, grants) == Ok(s) && Fed(c, s)
    ensures s.snd.highestSent == 0 && s.snd.unsent > 0 && c.maxWnd > 0 ==> grants == 0
    ensures s.snd.highestSent == 0 && s.snd.unsent > 0 ==> FirstSuffices(c)
  {
    InitInv(c, pacer, now, cc, grants);
    StartsUndemanded(c, pacer, now, cc, grants);
    s := Init(c, pacer, now, cc, grants).value;
    if c.flowSize == 0 || c.maxWnd == 0 || grants == 0 {
      S.StartLoopEnds(Ready(c), now, cc, grants);
    } else if TotalBytes(c) <= c.maxWnd {
      ReadyIsCovered(c);
      StartSendsAll(c, Ready(c), [], now, cc, grants);
    } else {
      AsksNothingIff(c, cc);
      var t := StartsAsking(c, pacer, now, cc, grants);
    }
  }

  // ---------------------------------------------------------------- exactly which flows starve

  /** The run `actions` ends with a starved flow. */
  ghost predicate Starves(s: Sys, actions: seq<Action>) {
    Joined(s) && StaysInReach(s, actions) && Run(s, actions).Ok? && Starved(Run(s, actions).value)
  }

  /** Some run starves a flow if and only if the flow with its headers fits the initial window and data is left
      when the card has granted its first packets. The window of congestion control, if there is one, starts
      wide, as the program sets it. */
  lemma StarvesIff(c: Config, pacer: P.State<nat>, now: nat, cc: S.Cc, grants: nat)
    requires ProgramSizes(c) && Awaiting(pacer) && (grants > 0 ==> Wide(c, cc))
    ensures Init(c, pacer, now, cc, grants).Ok?
    ensures (exists actions :: Starves(Init(c, pacer, now, cc, grants).value, actions)
                               && (grants == 0 ==> OpensWide(c, actions)))
            <==> TotalBytes(c) <= c.maxWnd && DataIsLeft(c, grants)
  {
    InitInv(c, pacer, now, cc, grants);
    var s := Init(c, pacer, now, cc, grants).value;
    if TotalBytes(c) <= c.maxWnd && DataIsLeft(c, grants) {
      var actions := StarvingRun(c, pacer, now, cc, grants, s);
    } else {
      forall actions | Starves(s, actions) && (grants == 0 ==> OpensWide(c, actions)) ensures false {
        NoStarvingRun(c, pacer, now, cc, grants, s, actions);
      }
    }
  }

  lemma NoStarvingRun(
    c: Config, pacer: P.State<nat>, now: nat, cc: S.Cc, grants: nat, s: Sys, actions: seq<Action>)
    requires ProgramSizes(c) && Awaiting(pacer) && (grants > 0 ==> Wide(c, cc))
    requires Init(c, pacer, now, cc, grants) == Ok(s) && !(TotalBytes(c) <= c.maxWnd && DataIsLeft(c, grants))
    requires grants == 0 ==> OpensWide(c, actions)
    ensures !Starves(s, actions)
  {
    var t := StartsFed(c, pacer, now, cc, grants);
    if Joined(s) && StaysInReach(s, actions) {
      FedNeverStarves(c, s, actions);
    }
  }

  /** The run is a plain one, and the source's last announcement asked for nothing. */
  ghost predicate StarvesPlainly(s: Sys, actions: seq<Action>) {
    Starves(s, actions) && PlainRun(actions) && Run(s, actions).value.snd.pullTarget <= INIT_PULL
  }

  lemma StarvingRun(c: Config, pacer: P.State<nat>, now: nat, cc: S.Cc, grants: nat, s: Sys)
    returns (actions: seq<Action>)
    requires ProgramSizes(c) && Awaiting(pacer) && (grants > 0 ==> Wide(c, cc))
    requires Init(c, pacer, now, cc, grants) == Ok(s) && TotalBytes(c) <= c.maxWnd && DataIsLeft(c, grants)
    ensures StarvesPlainly(s, actions) && (grants == 0 ==> OpensWide(c, actions))
  {
    if grants == 0 {
      actions := StarvingCallBack(c, pacer, now, cc, s);
    } else {
      var s', pkts := GrantedStart(c, pacer, now, cc, grants);
      actions := StarvingStart(c, s, pkts, now);
    }
  }

  lemma StarvingStart(c: Config, s: Sys, pkts: seq<S.Packet>, now: nat) returns (actions: seq<Action>)
    requires JustStarted(c, s, pkts) && TotalBytes(c) <= c.maxWnd
    ensures StarvesPlainly(s, actions) && forall i :: 0 <= i < |actions| ==> !actions[i].NicReady?
  {
    var marks := seq(|pkts|, i => true);
    var k := SmallRunStarves(c, s, pkts, marks, now, S.NoCc, false);
    actions := SmallRun(pkts, marks, k, now, S.NoCc, false);
    SmallRunIsPlain(pkts, marks, k, now, S.NoCc, false);
    SmallTargetIsSmall(c);
  }

  lemma SmallTargetIsSmall(c: Config)
    requires TotalBytes(c) <= c.maxWnd
    ensures SmallTarget(c) <= INIT_PULL
  {
  }

  lemma StarvingCallBack(c: Config, pacer: P.State<nat>, now: nat, cc: S.Cc, s: Sys) returns (actions: seq<Action>)
    requires ProgramSizes(c) && Awaiting(pacer) && c.flowSize > c.mss && TotalBytes(c) <= c.maxWnd
    requires Init(c, pacer, now, cc, 0) == Ok(s)
    ensures StarvesPlainly(s, actions) && OpensWide(c, actions)
  {
    var s', t, pkts := CalledBackStart(c, pacer, now, cc, now);
    var rest := StarvingStart(c, t, pkts, now);
    actions := [NicReady(now, S.NoCc)] + rest;
    StarvesLater(s, NicReady(now, S.NoCc), t, rest);
    OneCallBackOpensWide(c, now, rest);
  }

  lemma OneCallBackOpensWide(c: Config, now: nat, rest: seq<Action>)
    requires forall i :: 0 <= i < |rest| ==> !rest[i].NicReady?
    ensures OpensWide(c, [NicReady(now, S.NoCc)] + rest)
  {
  }

  lemma StarvesLater(s: Sys, a: Action, t: Sys, rest: seq<Action>)
    requires Leads(s, a, t) && InReach(s, a) && StarvesPlainly(t, rest) && Plain(a)
    ensures StarvesPlainly(s, [a] + rest)
  {
    assert ([a] + rest)[1..] == rest;
  }
}
