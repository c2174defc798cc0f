/**
A flow whose first packet asks for nothing, because the whole flow fits the initial window: once its
acknowledgement ends the speculative phase before the card has let the rest go, nothing is outstanding, no
timer runs and no pull is due, and none of this ever changes again.
 */
module Starvation {
  import opened Outcomes
  import opened Quanta
  import opened Cyclic
  import opened Protocol
  import opened OnePacketOut
  import opened CreditLoop
  import S = Sender
  import I = SenderInvariant
  import P = PullPacer
  import W = ReceiveWindow

  /** A source with data to send that waits for credit, with nothing outstanding. */
  ghost predicate Waits(s: S.Sender) {
    && I.Good(s) && !s.speculating && s.creditPull <= 0 && s.unsent > 0
    && s.tx == map[] && s.rtx == map[] && s.sendTimes == map[]
  }

  /** Everything sent has arrived, and nothing that is still under way asks for credit or for a packet. */
  ghost predicate Starved(s: Sys) {
    && Inv(s) && Undemanded(s) && Waits(s.snd)
    && (forall p :: FromSender(p) in s.net ==> p.Data? && Field(p.pullTarget) <= INIT_PULL)
    && (forall q :: NackMsg(q) !in s.net)
  }

  // ---------------------------------------------------------------- for ever

  /** What has changed for a waiting source that could not send. */
  predicate Unmoved(s: S.Sender, t: S.Sender) {
    t == s.(creditSpec := t.creditSpec, blocked := t.blocked)
  }

  lemma WaitsOnAck(s: S.Sender, k: W.Ack, now: nat, cc: S.Cc, grant: bool)
    requires Waits(s) && k.cum <= s.highestSent
    ensures var r := S.ProcessAck(s, k.cum, k.ref, k.bitmap, now, cc, grant);
            r.Ok? && r.value.1 == [] && Unmoved(s, r.value.0)
  {
    assert s.tx - {} == s.tx;
    assert S.HandleAck(s, k.cum, k.ref, k.bitmap) == s by {
      assert s.tx - (set q | q in s.tx && q < k.cum) == s.tx;
    }
    I.CheckFinishedExact(s, k.cum);
    I.UnpaidSendsNothing(s, now, cc, grant);
  }

  lemma WaitsOnCard(s: S.Sender, now: nat, cc: S.Cc)
    requires Waits(s)
    ensures var r := S.TimeToSend(s, now, cc); r.Ok? && r.value.1 == [] && Unmoved(s, r.value.0)
  {
    I.SendNewGuards(s);
  }

  /** In reach, and known already: everything that was sent has arrived. */
  lemma ArrivedBefore(s: Sys, p: S.Packet)
    requires Starved(s) && FromSender(p) in s.net
    ensures W.InWindow(s.win.expected, p.seqno) && p.seqno in s.rcv && W.Duplicate(s.win, p.seqno)
  {
    assert MsgOk(FromSender(p), s);
    W.ExactMeaning(s.win, s.rcv);
    assert s.win.expected >= s.snd.highestSent;
    W.DuplicateIsReceived(s.win, s.rcv, p.seqno);
  }

  lemma DataStarves(s: Sys, p: S.Packet, ecn: bool)
    requires Starved(s) && Enabled(s, DataArrives(p, ecn))
    ensures InReach(s, DataArrives(p, ecn))
    ensures TakeData(s, p, ecn).Ok? && Starved(TakeData(s, p, ecn).value) && TakeData(s, p, ecn).value.snd == s.snd
  {
    ArrivedBefore(s, p);
    var t := DataLeads(s, p, ecn);
    DataDemandsIff(s, p, ecn);
  }

  lemma TrimmedStarves(s: Sys, p: S.Packet)
    requires Starved(s) && Enabled(s, DataTrimmed(p))
    ensures InReach(s, DataTrimmed(p))
    ensures TakeTrimmed(s, p).Ok? && Starved(TakeTrimmed(s, p).value) && TakeTrimmed(s, p).value.snd == s.snd
  {
    ArrivedBefore(s, p);
    TrimKeepsInv(s, p);
    TrimmedDemandsIff(s, p);
  }

  lemma PacerStarves(s: Sys, e: P.Event<nat>)
    requires Starved(s) && P.Enabled(s.pacer, e) && (e.Timer? || OfOthers(e))
    ensures PacerStep(s, e).Ok? && Starved(PacerStep(s, e).value) && PacerStep(s, e).value.snd == s.snd
  {
    PacerKeepsInv(s, e);
    PacerSparesUndemanded(s, e);
  }

  lemma SinkStarves(s: Sys, a: Action)
    requires Starved(s) && Enabled(s, a) && !a.AckArrives? && !a.NicReady?
    ensures InReach(s, a) && Next(s, a).Ok? && Starved(Next(s, a).value) && Next(s, a).value.snd == s.snd
  {
    match a
    case DataArrives(p, ecn) => DataStarves(s, p, ecn);
    case DataTrimmed(p) => TrimmedStarves(s, p);
    case PacerTimer(skip) => PacerStarves(s, P.Timer(skip));
    case Others(e) => PacerStarves(s, e);
  }

  lemma SenderStarves(s: Sys, a: Action)
    requires Starved(s) && Enabled(s, a) && (a.AckArrives? || a.NicReady?)
    ensures Next(s, a).Ok? && Starved(Next(s, a).value) && Unmoved(s.snd, Next(s, a).value.snd)
  {
    if a.AckArrives? {
      AckBounded(s, a.ack);
      AckKeepsInv(s, a.ack, a.now, a.cc, a.grant);
      WaitsOnAck(s.snd, a.ack, a.now, a.cc, a.grant);
    } else {
      WaitsOnCard(s.snd, a.now, a.cc);
      OwnEventSteps(s, a);
    }
    assert Messages([]) == {};
  }

  /** Nothing that can happen feeds a starved flow. */
  lemma StaysStarved(s: Sys, a: Action)
    requires Starved(s) && Enabled(s, a)
    ensures InReach(s, a) && Next(s, a).Ok? && Starved(Next(s, a).value)
    ensures Next(s, a).value.snd.unsent == s.snd.unsent
  {
    if a.AckArrives? || a.NicReady? {
      SenderStarves(s, a);
    } else {
      SinkStarves(s, a);
    }
  }

  /** A starved flow never sends another byte, whatever happens, and never finishes. */
  lemma {:induction false} StarvedForever(s: Sys, actions: seq<Action>)
    requires Starved(s)
    ensures Run(s, actions).Ok?
    ensures var t := Run(s, actions).value; Starved(t) && t.snd.unsent == s.snd.unsent && !t.snd.done
    decreases |actions|
  {
    if actions == [] {
    } else if !Enabled(s, actions[0]) {
      StarvedForever(s, actions[1..]);
    } else {
      StaysStarved(s, actions[0]);
      StarvedForever(Next(s, actions[0]).value, actions[1..]);
    }
  }

  // ---------------------------------------------------------------- small flows starve

  /** With a window of at least the flow's initial one, congestion control asks for no less. */
  predicate Wide(c: Config, cc: S.Cc) {
    cc.Window? ==> cc.cwnd + c.mss + S.HDR_SIZE >= c.maxWnd
  }

  /** The program keeps packet sizes in 16 bits, and pull numbers start above every window. */
  predicate ProgramSizes(c: Config) {
    c.mss + S.HDR_SIZE < 0x1_0000 && c.maxWnd <= Unquantize(INIT_PULL)
  }

  /** The first packet asks for nothing exactly if the whole flow, headers included, fits the initial
      window. */
  lemma AsksNothingIff(c: Config, cc: S.Cc)
    requires c.flowSize > 0 && ProgramSizes(c) && Wide(c, cc)
    ensures Field(FirstPacket(c, cc).pullTarget) <= INIT_PULL <==> TotalBytes(c) <= c.maxWnd
  {
    TotalCoversFirst(c);
    TargetAsksIff(FirstTarget(c, cc));
  }

  /** A target of so many bytes is a demand exactly if it lies above where both ends start. */
  lemma TargetAsksIff(bytes: int)
    requires 0 <= bytes <= Unquantize(INIT_PULL) + 0x1_0000
    ensures Field(QuantizeCeil(bytes)) <= INIT_PULL <==> bytes <= Unquantize(INIT_PULL)
  {
    assert 0 <= QuantizeCeil(bytes) < 0x1_0000_0000;
  }

  lemma TotalCoversFirst(c: Config)
    requires c.flowSize > 0
    ensures TotalBytes(c) >= FirstSize(c)
  {
    I.CeilDivStep(c.flowSize, c.mss);
  }

  /** A source in its initial phase whose credit covers its whole backlog, and then some. */
  ghost predicate Covered(c: Config, s: S.Sender) {
    && I.Good(s) && s.speculating && s.creditPull == 0 && s.rtx == map[] && s.pull == INIT_PULL
    && s.mss == c.mss && s.maxWnd == c.maxWnd && s.creditSpec <= c.maxWnd
    && s.backlog - s.creditSpec == TotalBytes(c) - c.maxWnd
  }

  /** What every packet of such a source announces. */
  function SmallTarget(c: Config): int {
    QuantizeCeil(TotalBytes(c) - c.maxWnd + Unquantize(INIT_PULL))
  }

  lemma CoveredTarget(c: Config, s: S.Sender, backlog: int, cc: S.Cc)
    requires s.speculating && s.creditPull == 0 && s.pull == INIT_PULL && s.mss == c.mss && s.maxWnd == c.maxWnd
    requires backlog - s.creditSpec == TotalBytes(c) - c.maxWnd <= 0 && s.creditSpec <= c.maxWnd && Wide(c, cc)
    ensures S.ComputePullTarget(s, backlog, cc) == (SmallTarget(c), s.creditSpec)
  {
  }

  predicate AsksNothing(c: Config, p: S.Packet, q: nat) {
    p.Data? && p.seqno == q && p.pullTarget == SmallTarget(c)
  }

  lemma SendsCovered(c: Config, s: S.Sender, sizes: seq<nat>, now: nat, cc: S.Cc)
    requires Covered(c, s) && I.Sized(s, sizes) && s.unsent > 0 && TotalBytes(c) <= c.maxWnd && Wide(c, cc)
    ensures s.Credit() > 0 && S.SendNew(s, now, cc).Ok?
    ensures var r := S.SendNew(s, now, cc).value;
            && Covered(c, r.0) && I.Sized(r.0, I.Extend(sizes, r.1))
            && r.0.highestSent == s.highestSent + 1 && r.0.unsent == s.unsent - S.NextPayload(s)
            && r.0.done == s.done && r.0.pullTarget == SmallTarget(c)
            && |r.1| == 1 && AsksNothing(c, r.1[0], s.highestSent)
  {
    var size := S.NextPayload(s) + S.HDR_SIZE;
    I.SendNewSteps(s, sizes, now, cc);
    I.SendNewGuards(s);
    I.SpendCreditOk(s, size);
    I.SendNewUnfolds(s, now, cc);
    LaunchesCovered(c, S.SpendCredit(s, size).value.s, now, cc);
  }

  lemma LaunchesCovered(c: Config, s: S.Sender, now: nat, cc: S.Cc)
    requires I.Good(s) && s.unsent > 0 && s.speculating && s.creditPull == 0 && s.rtx == map[] && s.pull == INIT_PULL
    requires s.mss == c.mss && s.maxWnd == c.maxWnd && s.creditSpec <= c.maxWnd && Wide(c, cc)
    requires s.backlog - S.NextPayload(s) - S.HDR_SIZE - s.creditSpec == TotalBytes(c) - c.maxWnd <= 0
    requires S.NextPayload(s) >= 0
    ensures S.LaunchNew(s, S.NextPayload(s), now, cc).Ok?
    ensures var r := S.LaunchNew(s, S.NextPayload(s), now, cc).value;
            && r.0.speculating && r.0.creditPull == 0 && r.0.rtx == map[] && r.0.pull == INIT_PULL
            && r.0.creditSpec == s.creditSpec && r.0.backlog == s.backlog - S.NextPayload(s) - S.HDR_SIZE
            && r.0.mss == s.mss && r.0.maxWnd == s.maxWnd && r.0.done == s.done
            && r.0.highestSent == s.highestSent + 1 && r.0.unsent == s.unsent - S.NextPayload(s)
            && r.0.pullTarget == SmallTarget(c) && |r.1| == 1 && AsksNothing(c, r.1[0], s.highestSent)
  {
    I.CountsNext(s);
    CoveredTarget(c, s, s.backlog - S.NextPayload(s) - S.HDR_SIZE, cc);
  }

  /** Going from `s` to `t`, `n` packets were sent that ask for nothing. */
  ghost predicate SentSmall(c: Config, s: S.Sender, t: S.Sender, pkts: seq<S.Packet>, n: nat) {
    && Covered(c, t) && t.unsent > 0 && t.highestSent == s.highestSent + n && |pkts| == n && !t.done
    && t.pullTarget == (if n == 0 then s.pullTarget else SmallTarget(c))
    && forall i :: 0 <= i < n ==> AsksNothing(c, pkts[i], s.highestSent + i)
  }

  lemma {:induction false} StartsSmall(c: Config, s: S.Sender, sizes: seq<nat>, now: nat, cc: S.Cc, n: nat)
    requires Covered(c, s) && I.Sized(s, sizes) && s.unsent > n * c.mss && !s.done
    requires TotalBytes(c) <= c.maxWnd && Wide(c, cc)
    ensures var o := S.StartLoop(s, now, cc, n); o.Ok? && SentSmall(c, s, o.value.0, o.value.1, n)
    decreases n
  {
    LeavesEnough(s.unsent, n, c.mss);
    if n > 0 {
      SendsCovered(c, s, sizes, now, cc);
      var r := S.SendNew(s, now, cc).value;
      StartsSmall(c, r.0, I.Extend(sizes, r.1), now, cc, n - 1);
      StartsOneMore(c, s, now, cc, n);
    } else {
      S.StartLoopEnds(s, now, cc, n);
    }
  }

  lemma StartsOneMore(c: Config, s: S.Sender, now: nat, cc: S.Cc, n: nat)
    requires n > 0 && s.Credit() > 0 && s.unsent > 0 && S.SendNew(s, now, cc).Ok?
    requires var r := S.SendNew(s, now, cc).value; var o := S.StartLoop(r.0, now, cc, n - 1);
             && |r.1| == 1 && AsksNothing(c, r.1[0], s.highestSent) && r.0.highestSent == s.highestSent + 1
             && r.0.pullTarget == SmallTarget(c) && o.Ok? && SentSmall(c, r.0, o.value.0, o.value.1, n - 1)
    ensures var o := S.StartLoop(s, now, cc, n); o.Ok? && SentSmall(c, s, o.value.0, o.value.1, n)
  {
    var r := S.SendNew(s, now, cc).value;
    var rest := S.StartLoop(r.0, now, cc, n - 1).value;
    SmallAppend(c, s, r.0, r.1, rest.0, rest.1, n);
  }

  lemma SmallAppend(c: Config, s: S.Sender, t: S.Sender, a: seq<S.Packet>, u: S.Sender, b: seq<S.Packet>, n: nat)
    requires n > 0 && |a| == 1 && AsksNothing(c, a[0], s.highestSent) && t.highestSent == s.highestSent + 1
    requires t.pullTarget == SmallTarget(c)
    requires SentSmall(c, t, u, b, n - 1)
    ensures SentSmall(c, s, u, a + b, n)
  {
  }

  lemma LeavesEnough(unsent: int, n: nat, m: Positive)
    requires unsent > n * m
    ensures unsent > 0 && (n > 0 ==> unsent - S.Min(m, unsent) > (n - 1) * m)
  {
    LeavesOneMore(n, m);
  }

  lemma LeavesOneMore(n: nat, m: nat)
    ensures n * m >= 0 && (n > 0 ==> n * m == m + (n - 1) * m)
  {
  }

  // ---------------------------------------------------------------- the run that starves them

  /** The first `n` packets arrive in order, marked by switches as `marks` says. */
  function Deliver(pkts: seq<S.Packet>, marks: seq<bool>, n: nat): seq<Action>
    requires n <= |pkts| && n <= |marks| && forall i :: 0 <= i < n ==> pkts[i].Data?
  {
    if n == 0 then [] else Deliver(pkts, marks, n - 1) + [DataArrives(pkts[n - 1], marks[n - 1])]
  }

  /** Only acknowledgements were added to what is under way. */
  ghost predicate OnlyAcks(s: Sys, t: Sys) {
    forall m: Msg :: !m.AckMsg? ==> (m in t.net <==> m in s.net)
  }

  /** Nobody has asked for anything, and the packets below `n` have all come in, in order. */
  ghost predicate TakenIn(s: Sys, n: nat) {
    Inv(s) && Undemanded(s) && s.win.expected == n && s.win.stored == {}
  }

  lemma OneDelivered(s: Sys, p: S.Packet, ecn: bool) returns (t: Sys, k: W.Ack)
    requires TakenIn(s, p.seqno) && p.Data? && FromSender(p) in s.net && Field(p.pullTarget) <= INIT_PULL
    ensures Leads(s, DataArrives(p, ecn), t) && InReach(s, DataArrives(p, ecn))
    ensures TakenIn(t, p.seqno + 1) && t.snd == s.snd && OnlyAcks(s, t)
    ensures ecn || s.win.received == 0 ==> AckMsg(k) in t.net && k.cum == p.seqno + 1
  {
    t := DataLeads(s, p, ecn);
    TargetDemandsIff(s, Field(p.pullTarget), t);
    W.InOrder(s.win, Arrival(p, ecn));
    var reply := W.ReceiveData(s.win, Arrival(p, ecn)).1;
    k := if reply.Send? then reply.ack else W.Ack(0, 0, 0, false);
  }

  lemma {:induction false} AllDelivered(s: Sys, pkts: seq<S.Packet>, marks: seq<bool>, n: nat)
      returns (t: Sys, k: W.Ack)
    requires TakenIn(s, 0) && s.win == W.InitWindow && n <= |pkts| && n <= |marks|
    requires forall i :: 0 <= i < n ==>
               pkts[i].Data? && pkts[i].seqno == i && Field(pkts[i].pullTarget) <= INIT_PULL
               && FromSender(pkts[i]) in s.net
    ensures Run(s, Deliver(pkts, marks, n)) == Ok(t) && StaysInReach(s, Deliver(pkts, marks, n))
    ensures TakenIn(t, n) && t.snd == s.snd && OnlyAcks(s, t) && (n == 0 ==> t == s)
    ensures n > 0 && (n == 1 || marks[n - 1]) ==> AckMsg(k) in t.net && k.cum == n
  {
    if n == 0 {
      t, k := s, W.Ack(0, 0, 0, false);
    } else {
      var u, k' := AllDelivered(s, pkts, marks, n - 1);
      t, k := OneDelivered(u, pkts[n - 1], marks[n - 1]);
      RunLast(s, Deliver(pkts, marks, n - 1), u, DataArrives(pkts[n - 1], marks[n - 1]), t);
    }
  }

  lemma RunLast(s: Sys, actions: seq<Action>, t: Sys, a: Action, u: Sys)
    requires Joined(s) && Run(s, actions) == Ok(t) && StaysInReach(s, actions) && Leads(t, a, u) && InReach(t, a)
    ensures Run(s, actions + [a]) == Ok(u) && StaysInReach(s, actions + [a])
  {
    RunOne(t, a, u, []);
    assert [a] + [] == [a];
    assert StaysInReach(t, [a]);
    RunAppend(s, actions, [a]);
  }

  /** When everything is acknowledged before a source has its first credit, it is left waiting. */
  lemma AllForgotten(s: S.Sender, sizes: seq<nat>, k: W.Ack, now: nat, cc: S.Cc, grant: bool)
    requires I.Good(s) && I.Sized(s, sizes) && s.creditPull <= 0 && s.rtx == map[] && s.unsent > 0 && !s.done
    requires k.cum == s.highestSent
    ensures var r := S.ProcessAck(s, k.cum, k.ref, k.bitmap, now, cc, grant);
            && r.Ok? && r.value.1 == [] && Waits(r.value.0)
            && r.value.0.unsent == s.unsent && r.value.0.pullTarget == s.pullTarget
  {
    I.AcknowledgedKeeps(s, sizes, k.cum, k.ref, k.bitmap);
    I.AcknowledgedExact(s, k.cum, k.ref, k.bitmap);
    I.HandleAckExact(s, k.cum, k.ref, k.bitmap);
    I.UnpaidSendsNothing(I.Acknowledged(s, k.cum, k.ref, k.bitmap), now, cc, grant);
  }

  /** The source's first packets have arrived, and the acknowledgement of all of them comes back before
      the card has called the source again. */
  function SmallRun(pkts: seq<S.Packet>, marks: seq<bool>, k: W.Ack, now: nat, cc: S.Cc, grant: bool): seq<Action>
    requires |marks| == |pkts| && forall i :: 0 <= i < |pkts| ==> pkts[i].Data?
  {
    Deliver(pkts, marks, |pkts|) + [AckArrives(k, now, cc, grant)]
  }

  /** A flow has started with packets that ask for nothing, and none of them has arrived. */
  ghost predicate JustStarted(c: Config, s: Sys, pkts: seq<S.Packet>) {
    && TakenIn(s, 0) && s.win == W.InitWindow && s.net == Messages(pkts)
    && SentSmall(c, Ready(c), s.snd, pkts, |pkts|) && |pkts| > 0 && Field(SmallTarget(c)) <= INIT_PULL
  }

  lemma SmallRunStarves(c: Config, s: Sys, pkts: seq<S.Packet>, marks: seq<bool>, now: nat, cc: S.Cc, grant: bool)
    returns (k: W.Ack)
    requires JustStarted(c, s, pkts) && |marks| == |pkts| && (|pkts| == 1 || marks[|pkts| - 1])
    ensures var actions := SmallRun(pkts, marks, k, now, cc, grant); var o := Run(s, actions);
            && o.Ok? && Starved(o.value) && StaysInReach(s, actions)
            && o.value.snd.unsent == s.snd.unsent && o.value.snd.pullTarget == s.snd.pullTarget
  {
    var t, u;
    AllUnderWay(c, s, pkts);
    t, k := AllDelivered(s, pkts, marks, |pkts|);
    u := AckStarves(c, s, pkts, t, k, now, cc, grant);
    RunLast(s, Deliver(pkts, marks, |pkts|), t, AckArrives(k, now, cc, grant), u);
  }

  lemma AllUnderWay(c: Config, s: Sys, pkts: seq<S.Packet>)
    requires JustStarted(c, s, pkts)
    ensures forall i :: 0 <= i < |pkts| ==> pkts[i].Data? && FromSender(pkts[i]) in s.net && pkts[i].seqno == i
  {
    forall i | 0 <= i < |pkts| ensures FromSender(pkts[i]) in s.net {
      assert pkts[i] in pkts;
    }
  }

  lemma AckStarves(c: Config, s: Sys, pkts: seq<S.Packet>, t: Sys, k: W.Ack, now: nat, cc: S.Cc, grant: bool)
    returns (u: Sys)
    requires JustStarted(c, s, pkts) && TakenIn(t, |pkts|) && t.snd == s.snd && OnlyAcks(s, t)
    requires AckMsg(k) in t.net && k.cum == |pkts|
    ensures Leads(t, AckArrives(k, now, cc, grant), u) && Starved(u)
    ensures u.snd.unsent == s.snd.unsent && u.snd.pullTarget == s.snd.pullTarget
  {
    var sent;
    u, sent := AckLeads(t, k, now, cc, grant);
    AllForgotten(t.snd, t.sizes, k, now, cc, grant);
    NothingUnderWay(c, s, pkts, t, u);
  }

  lemma NothingUnderWay(c: Config, s: Sys, pkts: seq<S.Packet>, t: Sys, u: Sys)
    requires JustStarted(c, s, pkts) && OnlyAcks(s, t) && Undemanded(t) && Inv(u) && Waits(u.snd)
    requires u.net == t.net + Messages([]) && u.pacer == t.pacer
    ensures Starved(u)
  {
    assert Messages([]) == {};
    forall p | FromSender(p) in u.net ensures p.Data? && Field(p.pullTarget) <= INIT_PULL {
      assert FromSender(p) in s.net;
    }
    forall q ensures NackMsg(q) !in u.net {
      assert NackMsg(q) !in s.net;
    }
  }

  /** Windows are not negative. */
  predicate Sane(cc: S.Cc) {
    cc.Window? ==> cc.cwnd >= 0
  }

  predicate SaneAction(a: Action) {
    a.AckArrives? || a.NackArrives? || a.PullArrives? || a.Timeout? || a.NicReady? ==> Sane(a.cc)
  }

  /** No packet is trimmed, no request-to-send arrives, and windows are not negative. */
  predicate Plain(a: Action) {
    !a.DataTrimmed? && !a.RtsArrives? && SaneAction(a)
  }

  predicate PlainRun(actions: seq<Action>) {
    forall i :: 0 <= i < |actions| ==> Plain(actions[i])
  }

  /** The run that starves a small flow is a plain one, and the card does not call back in it. */
  lemma SmallRunIsPlain(pkts: seq<S.Packet>, marks: seq<bool>, k: W.Ack, now: nat, cc: S.Cc, grant: bool)
    requires |marks| == |pkts| && Sane(cc) && forall i :: 0 <= i < |pkts| ==> pkts[i].Data?
    ensures var actions := SmallRun(pkts, marks, k, now, cc, grant);
            PlainRun(actions) && forall i :: 0 <= i < |actions| ==> !actions[i].NicReady?
  {
    DeliverIsPlain(pkts, marks, |pkts|);
  }

  lemma {:induction false} DeliverIsPlain(pkts: seq<S.Packet>, marks: seq<bool>, n: nat)
    requires n <= |pkts| && n <= |marks| && forall i :: 0 <= i < n ==> pkts[i].Data?
    ensures forall i :: 0 <= i < |Deliver(pkts, marks, n)| ==> Deliver(pkts, marks, n)[i].DataArrives?
  {
    if n > 0 {
      DeliverIsPlain(pkts, marks, n - 1);
    }
  }

  // ---------------------------------------------------------------- from the start

  lemma ReadyIsCovered(c: Config)
    requires c.flowSize > 0
    ensures Covered(c, Ready(c)) && I.Sized(Ready(c), []) && Ready(c).unsent == c.flowSize && !Ready(c).done
    ensures Ready(c).highestSent == 0
  {
    I.ReadyToStartGood(c.mss, c.maxWnd, c.flowSize);
  }

  lemma GrantsSendSmall(c: Config, now: nat, cc: S.Cc, n: nat)
    requires c.flowSize > n * c.mss && TotalBytes(c) <= c.maxWnd && Wide(c, cc)
    ensures var o := S.StartLoop(Ready(c), now, cc, n); o.Ok? && SentSmall(c, Ready(c), o.value.0, o.value.1, n)
  {
    LeavesOneMore(n, c.mss);
    ReadyIsCovered(c);
    StartsSmall(c, Ready(c), [], now, cc, n);
  }

  lemma SmallTargetAsksNothing(c: Config)
    requires TotalBytes(c) <= c.maxWnd && ProgramSizes(c)
    ensures Field(SmallTarget(c)) <= INIT_PULL
  {
    TargetAsksIff(TotalBytes(c) - c.maxWnd + Unquantize(INIT_PULL));
  }

  /** The card grants `n` packets, and data is left. */
  lemma GrantedStart(c: Config, pacer: P.State<nat>, now: nat, cc: S.Cc, n: nat) returns (s: Sys, pkts: seq<S.Packet>)
    requires 0 < n && c.flowSize > n * c.mss && TotalBytes(c) <= c.maxWnd && ProgramSizes(c) && Wide(c, cc)
    requires Awaiting(pacer)
    ensures Init(c, pacer, now, cc, n) == Ok(s) && JustStarted(c, s, pkts) && |pkts| == n
  {
    GrantsSendSmall(c, now, cc, n);
    SmallTargetAsksNothing(c);
    s, pkts := SmallInit(c, pacer, now, cc, n);
  }

  lemma SmallInit(c: Config, pacer: P.State<nat>, now: nat, cc: S.Cc, n: nat) returns (s: Sys, pkts: seq<S.Packet>)
    requires 0 < n && Awaiting(pacer) && Field(SmallTarget(c)) <= INIT_PULL
    requires var o := S.StartLoop(Ready(c), now, cc, n); o.Ok? && SentSmall(c, Ready(c), o.value.0, o.value.1, n)
    ensures Init(c, pacer, now, cc, n) == Ok(s) && JustStarted(c, s, pkts) && |pkts| == n
  {
    StartsUndemanded(c, pacer, now, cc, n);
    InitInv(c, pacer, now, cc, n);
    s := Init(c, pacer, now, cc, n).value;
    pkts := S.StartLoop(Ready(c), now, cc, n).value.1;
  }

  /** The card grants nothing at first, and then calls the source back once. */
  lemma CalledBackStart(c: Config, pacer: P.State<nat>, now: nat, cc: S.Cc, later: nat)
    returns (s: Sys, t: Sys, pkts: seq<S.Packet>)
    requires c.flowSize > c.mss && TotalBytes(c) <= c.maxWnd && ProgramSizes(c) && Awaiting(pacer)
    ensures Init(c, pacer, now, cc, 0) == Ok(s) && Leads(s, NicReady(later, S.NoCc), t)
    ensures JustStarted(c, t, pkts) && |pkts| == 1
  {
    ReadyIsCovered(c);
    TotalCoversFirst(c);
    S.StartLoopEnds(Ready(c), now, cc, 0);
    StartsUndemanded(c, pacer, now, cc, 0);
    InitInv(c, pacer, now, cc, 0);
    s := Init(c, pacer, now, cc, 0).value;
    t, pkts := FirstCallBack(c, s, later);
  }

  lemma CallBackSendsSmall(c: Config, now: nat)
    requires c.flowSize > c.mss && TotalBytes(c) <= c.maxWnd
    ensures var o := S.TimeToSend(Ready(c).(blocked := true), now, S.NoCc);
            o.Ok? && SentSmall(c, Ready(c), o.value.0, o.value.1, 1)
  {
    ReadyIsCovered(c);
    SendsCovered(c, Ready(c), [], now, S.NoCc);
    assert Ready(c).(blocked := true).(blocked := false) == Ready(c);
    var r := S.SendNew(Ready(c), now, S.NoCc).value;
    StaysCovered(c, r.0);
  }

  lemma StaysCovered(c: Config, s: S.Sender)
    requires Covered(c, s)
    ensures Covered(c, s.(blocked := true))
  {
    assert I.Counts(s.(blocked := true));
  }

  lemma FirstCallBack(c: Config, s: Sys, now: nat) returns (t: Sys, pkts: seq<S.Packet>)
    requires c.flowSize > c.mss && TotalBytes(c) <= c.maxWnd && ProgramSizes(c)
    requires s.snd == Ready(c).(blocked := true) && TakenIn(s, 0) && s.win == W.InitWindow && s.net == {}
    ensures Leads(s, NicReady(now, S.NoCc), t) && JustStarted(c, t, pkts) && |pkts| == 1
  {
    CallBackSendsSmall(c, now);
    SmallTargetAsksNothing(c);
    t, pkts := EventLeads(s, NicReady(now, S.NoCc), S.TimeToSend(s.snd, now, S.NoCc));
    OwnEventSteps(s, NicReady(now, S.NoCc));
    SenderSparesUndemanded(s, S.TimeToSend(s.snd, now, S.NoCc));
    assert {} + Messages(pkts) == Messages(pkts);
  }

  /** The first packets of a flow arrive and are acknowledged before the card has called the source back, and
      from then on anything may happen: a flow that fits its initial window, with data left, sends nothing
      more and never finishes. No packet needs to be lost for that. */
  lemma SmallFlowsStarve(
    c: Config, pacer: P.State<nat>, start: nat, cc: S.Cc, marks: seq<bool>,
    now: nat, cc': S.Cc, grant: bool, rest: seq<Action>)
    returns (pkts: seq<S.Packet>, k: W.Ack)
    requires |marks| == 1 || (|marks| > 0 && marks[|marks| - 1])
    requires c.flowSize > |marks| * c.mss && TotalBytes(c) <= c.maxWnd && ProgramSizes(c) && Wide(c, cc)
    requires Awaiting(pacer)
    ensures Init(c, pacer, start, cc, |marks|).Ok? && Joined(Init(c, pacer, start, cc, |marks|).value)
    ensures |pkts| == |marks| && forall i :: 0 <= i < |pkts| ==> pkts[i].Data?
    ensures var o := Run(Init(c, pacer, start, cc, |marks|).value, SmallRun(pkts, marks, k, now, cc', grant) + rest);
            o.Ok? && !o.value.snd.done && o.value.snd.unsent > 0 && o.value.snd.sendTimes == map[]
  {
    var s;
    s, pkts := GrantedStart(c, pacer, start, cc, |marks|);
    AllUnderWay(c, s, pkts);
    k := SmallRunThen(c, s, pkts, marks, now, cc', grant, rest);
  }

  lemma SmallRunThen(
    c: Config, s: Sys, pkts: seq<S.Packet>, marks: seq<bool>, now: nat, cc: S.Cc, grant: bool, rest: seq<Action>)
    returns (k: W.Ack)
    requires JustStarted(c, s, pkts) && |marks| == |pkts| && (|pkts| == 1 || marks[|pkts| - 1])
    ensures var o := Run(s, SmallRun(pkts, marks, k, now, cc, grant) + rest);
            o.Ok? && !o.value.snd.done && o.value.snd.unsent > 0 && o.value.snd.sendTimes == map[]
  {
    k := SmallRunStarves(c, s, pkts, marks, now, cc, grant);
    var actions := SmallRun(pkts, marks, k, now, cc, grant);
    RunAppend(s, actions, rest);
    StarvedForever(Run(s, actions).value, rest);
  }
}
