/**
How far apart the two ends may drift: the receive window has 4096 slots, and nothing stops a sender from
running further ahead. Within reach every promise of the protocol is kept, and the sender can tell from its
own books whether it is within reach; beyond it a trimmed packet may be acknowledged and lost.
 */
module Reach {
  import opened Outcomes
  import opened Quanta
  import opened Cyclic
  import opened Protocol
  import S = Sender
  import I = SenderInvariant
  import P = PullPacer
  import W = ReceiveWindow

  /** How many numbers above the next expected one the sender may have used: an acknowledgement spans 64. */
  const REACH: nat := 4034

  // ---------------------------------------------------------------- within reach

  /** Whatever the network delivers lies in the window as long as the sender has not used numbers further
      than `REACH` above the next expected one. */
  lemma CloseIsInReach(s: Sys, p: S.Packet)
    requires Inv(s) && FromSender(p) in s.net && s.snd.highestSent <= s.win.expected + REACH
    ensures W.InWindow(s.win.expected, p.seqno)
  {
    assert MsgOk(FromSender(p), s);
  }

  /** What the sender can check: no packet that it still has to deliver lies further back. */
  ghost predicate Narrow(s: S.Sender) {
    forall q: nat :: q in s.tx || q in s.rtx ==> s.highestSent <= q + REACH
  }

  lemma NarrowIsInReach(s: Sys, a: Action)
    requires Inv(s) && Enabled(s, a) && Narrow(s.snd)
    ensures InReach(s, a)
  {
    if a.DataArrives? || a.DataTrimmed? || a.RtsArrives? {
      W.ExactMeaning(s.win, s.rcv);
      if s.win.expected < s.snd.highestSent {
        assert s.win.expected in s.snd.tx || s.win.expected in s.snd.rtx;
      }
      CloseIsInReach(s, a.pkt);
    }
  }

  /** In every state of the run the sender's books are narrow. */
  ghost predicate StaysNarrow(s: Sys, actions: seq<Action>)
    requires Joined(s)
    decreases |actions|
  {
    Narrow(s.snd) &&
    if actions == [] then true
    else if !Enabled(s, actions[0]) then StaysNarrow(s, actions[1..])
    else
      var o := Next(s, actions[0]);
      o.Ok? ==> (StaysJoined(s, actions[0]); StaysNarrow(o.value, actions[1..]))
  }

  /** The network is free to do anything with the packets of a sender that keeps its books narrow. */
  lemma {:induction false} NarrowStaysInReach(s: Sys, actions: seq<Action>)
    requires Inv(s) && StaysNarrow(s, actions)
    ensures StaysInReach(s, actions)
    decreases |actions|
  {
    if actions == [] {
    } else if !Enabled(s, actions[0]) {
      NarrowStaysInReach(s, actions[1..]);
    } else {
      NarrowIsInReach(s, actions[0]);
      if Next(s, actions[0]).Ok? {
        NextKeepsInv(s, actions[0]);
        NarrowStaysInReach(Next(s, actions[0]).value, actions[1..]);
      }
    }
  }

  /** End to end, over a network that is free to do anything: as long as the sender keeps its books narrow,
      the receiver's byte count stays within the flow, and when the sender reports the flow finished the
      receiver has all of it. */
  lemma EveryRunDelivers(c: Config, pacer: P.State<nat>, now: nat, cc: S.Cc, grants: nat, actions: seq<Action>)
    requires Awaiting(pacer)
    ensures Init(c, pacer, now, cc, grants).Ok? && Joined(Init(c, pacer, now, cc, grants).value)
    ensures var s := Init(c, pacer, now, cc, grants).value;
            StaysNarrow(s, actions) && Run(s, actions).Ok? ==> Delivers(c, Run(s, actions).value)
  {
    InitInv(c, pacer, now, cc, grants);
    var s := Init(c, pacer, now, cc, grants).value;
    if StaysNarrow(s, actions) {
      InitFlow(c, pacer, now, cc, grants);
      NarrowStaysInReach(s, actions);
      RunKeepsInv(s, actions);
      RunKeepsFlow(s, actions);
      if Run(s, actions).Ok? {
        InvDelivers(c, Run(s, actions).value);
      }
    }
  }

  ghost predicate Delivers(c: Config, t: Sys) {
    && OfFlow(c, t.snd) && t.win.received <= c.flowSize
    && (t.snd.done ==> t.win.received == c.flowSize && forall q :: 0 <= q < t.snd.highestSent ==> q in t.rcv)
    && t.snd.pull <= Latest(t)
  }

  ghost predicate OfFlow(c: Config, s: S.Sender) {
    s.mss == c.mss && s.maxWnd == c.maxWnd && s.flowSize == c.flowSize
  }

  lemma InvDelivers(c: Config, t: Sys)
    requires Inv(t) && OfFlow(c, t.snd)
    ensures Delivers(c, t)
  {
    ReceivedWithinFlow(t);
    if t.snd.done {
      FinishedMeansReceived(t);
    }
  }

  lemma InitFlow(c: Config, pacer: P.State<nat>, now: nat, cc: S.Cc, grants: nat)
    requires Awaiting(pacer)
    ensures Init(c, pacer, now, cc, grants).Ok? && OfFlow(c, Init(c, pacer, now, cc, grants).value.snd)
  {
    I.ReadyToStartGood(c.mss, c.maxWnd, c.flowSize);
    I.StartFlowGood(c.mss, c.maxWnd, c.flowSize, now, cc, grants);
  }

  lemma {:induction false} RunKeepsFlow(s: Sys, actions: seq<Action>)
    requires Inv(s) && StaysInReach(s, actions)
    ensures Run(s, actions).Ok? ==> SameFlow(s.snd, Run(s, actions).value.snd)
    decreases |actions|
  {
    if actions == [] {
    } else if !Enabled(s, actions[0]) {
      RunKeepsFlow(s, actions[1..]);
    } else if Next(s, actions[0]).Ok? {
      NextKeepsInv(s, actions[0]);
      NextKeepsFlow(s, actions[0]);
      RunKeepsFlow(Next(s, actions[0]).value, actions[1..]);
    }
  }

  ghost predicate SameFlow(s: S.Sender, t: S.Sender) {
    t.mss == s.mss && t.maxWnd == s.maxWnd && t.flowSize == s.flowSize
  }

  lemma NextKeepsFlow(s: Sys, a: Action)
    requires Inv(s) && Enabled(s, a) && Next(s, a).Ok?
    ensures SameFlow(s.snd, Next(s, a).value.snd)
  {
    if OwnEvent(a) {
      OwnEventSteps(s, a);
    } else if a.AckArrives? {
      AckBounded(s, a.ack);
      I.ProcessAckKeeps(s.snd, s.sizes, a.ack.cum, a.ack.ref, a.ack.bitmap, a.now, a.cc, a.grant);
    } else if a.PullArrives? {
      I.ProcessPullKeeps(s.snd, s.sizes, a.pullno, a.now, a.cc, a.grant);
    } else {
      SinkKeepsSender(s, a);
    }
  }

  // ---------------------------------------------------------------- flows that never leave it

  function Timeouts(actions: seq<Action>): nat {
    if actions == [] then 0 else (if actions[0].Timeout? then 1 else 0) + Timeouts(actions[1..])
  }

  /** A flow whose packets and timeouts together number at most `REACH` never leaves the window. */
  lemma ShortFlowsStayInReach(c: Config, pacer: P.State<nat>, now: nat, cc: S.Cc, grants: nat, actions: seq<Action>)
    requires Awaiting(pacer) && S.CeilDiv(c.flowSize, c.mss) + Timeouts(actions) <= REACH
    ensures Init(c, pacer, now, cc, grants).Ok? && Joined(Init(c, pacer, now, cc, grants).value)
    ensures StaysInReach(Init(c, pacer, now, cc, grants).value, actions)
  {
    InitInv(c, pacer, now, cc, grants);
    InitFlow(c, pacer, now, cc, grants);
    var ready := S.ReadyToStart(S.Fresh(c.mss, c.maxWnd, c.flowSize));
    StartKeepsRts(ready, now, cc, grants);
    FewNumbersStayNarrow(Init(c, pacer, now, cc, grants).value, actions);
  }

  lemma {:induction false} FewNumbersStayNarrow(s: Sys, actions: seq<Action>)
    requires Inv(s) && S.CeilDiv(s.snd.flowSize, s.snd.mss) + s.snd.rtsSent + Timeouts(actions) <= REACH
    ensures StaysInReach(s, actions)
    decreases |actions|
  {
    if actions == [] {
    } else if !Enabled(s, actions[0]) {
      FewNumbersStayNarrow(s, actions[1..]);
    } else {
      NumbersUsed(s.snd);
      NarrowIsInReach(s, actions[0]);
      if Next(s, actions[0]).Ok? {
        NextKeepsInv(s, actions[0]);
        NextKeepsFlow(s, actions[0]);
        NextCountsRts(s, actions[0]);
        FewNumbersStayNarrow(Next(s, actions[0]).value, actions[1..]);
      }
    }
  }

  /** The data takes no more numbers than the flow has packets. */
  lemma NumbersUsed(s: S.Sender)
    requires I.Counts(s)
    ensures s.highestSent <= S.CeilDiv(s.flowSize, s.mss) + s.rtsSent
  {
    var n, m := s.flowSize + s.mss - 1, s.mss;
    assert n == m * (n / m) + n % m;
    assert s.newSent * m <= n;
    assert (n / m + 1) * m == m * (n / m) + m;
    if s.newSent > n / m {
      I.MulMonotone(n / m + 1, s.newSent, m);
    }
  }

  /** Only a timeout sends a request-to-send, and at most one. */
  lemma NextCountsRts(s: Sys, a: Action)
    requires Joined(s) && Enabled(s, a) && Next(s, a).Ok?
    ensures Next(s, a).value.snd.rtsSent <= s.snd.rtsSent + if a.Timeout? then 1 else 0
  {
    match a
    case DataArrives(_, _) => SinkKeepsSender(s, a);
    case DataTrimmed(_) => SinkKeepsSender(s, a);
    case RtsArrives(_, _) => SinkKeepsSender(s, a);
    case PacerTimer(_) => SinkKeepsSender(s, a);
    case Others(_) => SinkKeepsSender(s, a);
    case AckArrives(k, now, cc, grant) => AckCountsRts(s.snd, k, now, cc, grant);
    case NackArrives(q, now, cc, grant, grant') => NackCountsRts(s.snd, q, now, cc, grant, grant');
    case PullArrives(n, now, cc, grant) =>
      AskingKeepsRts(S.StopSpeculating(S.HandlePull(s.snd, n)), now, cc, grant);
    case Timeout(now, cc, grant, grant', recent) => TimeoutCountsRts(s.snd, now, cc, grant, grant', recent);
    case NicReady(now, cc) => SendingKeepsRts(s.snd.(blocked := false), now, cc);
  }

  lemma SendingKeepsRts(s: S.Sender, now: nat, cc: S.Cc)
    ensures S.SendNew(s, now, cc).Ok? ==> S.SendNew(s, now, cc).value.0.rtsSent == s.rtsSent
    ensures S.SendRtx(s, now, cc).Ok? ==> S.SendRtx(s, now, cc).value.0.rtsSent == s.rtsSent
  {
  }

  lemma AskingKeepsRts(s: S.Sender, now: nat, cc: S.Cc, grant: bool)
    ensures var r := S.SendIfPermitted(s, now, cc, grant); r.Ok? ==> r.value.0.rtsSent == s.rtsSent
  {
    SendingKeepsRts(s, now, cc);
  }

  lemma QueueingKeepsRts(s: S.Sender, q: nat, size: nat, now: nat, cc: S.Cc, grant: bool)
    ensures var r := S.QueueForRtx(s, q, size, now, cc, grant); r.Ok? ==> r.value.0.rtsSent == s.rtsSent
  {
    AskingKeepsRts(s.(rtx := s.rtx[q := size]), now, cc, grant);
  }

  lemma AckCountsRts(s: S.Sender, k: W.Ack, now: nat, cc: S.Cc, grant: bool)
    ensures var r := S.ProcessAck(s, k.cum, k.ref, k.bitmap, now, cc, grant); r.Ok? ==> r.value.0.rtsSent == s.rtsSent
  {
    AskingKeepsRts(I.Acknowledged(s, k.cum, k.ref, k.bitmap), now, cc, grant);
  }

  lemma NackCountsRts(s: S.Sender, q: nat, now: nat, cc: S.Cc, grant: bool, grant': bool)
    ensures var r := S.ProcessNack(s, q, now, cc, grant, grant'); r.Ok? ==> r.value.0.rtsSent == s.rtsSent
  {
    if q in s.tx {
      var s1 := S.StopSpeculating(S.Drop(s, {q}));
      QueueingKeepsRts(s1, q, s.tx[q].size, now, cc, grant);
      var r := S.QueueForRtx(s1, q, s.tx[q].size, now, cc, grant);
      if r.Ok? {
        AskingKeepsRts(r.value.0, now, cc, grant');
      }
    }
  }

  lemma TimeoutCountsRts(s: S.Sender, now: nat, cc: S.Cc, grant: bool, grant': bool, recent: bool)
    ensures var r := S.TimerExpired(s, now, cc, grant, grant', recent); r.Ok? ==> r.value.0.rtsSent <= s.rtsSent + 1
  {
    if s.sendTimes.Keys != {} {
      var t := S.Least(s.sendTimes.Keys);
      var q := s.sendTimes[t];
      if q in s.tx {
        var s1 := s.(sendTimes := s.sendTimes - {t}, tx := s.tx - {q});
        BehindCountsRts(s1, q, s.tx[q].size, now, cc, grant, recent);
        AloneCountsRts(s1, q, s.tx[q].size, now, cc, grant, grant', recent);
      }
    }
  }

  lemma BehindCountsRts(s: S.Sender, q: nat, size: nat, now: nat, cc: S.Cc, grant: bool, recent: bool)
    ensures var r := S.QueueBehind(s, q, size, now, cc, grant, recent); r.Ok? ==> r.value.0.rtsSent <= s.rtsSent + 1
  {
    QueueingKeepsRts(S.StopSpeculating(s), q, size, now, cc, grant);
  }

  lemma AloneCountsRts(s: S.Sender, q: nat, size: nat, now: nat, cc: S.Cc, grant: bool, grant': bool, recent: bool)
    ensures var r := S.QueueAlone(s, q, size, now, cc, grant, grant', recent);
            r.Ok? ==> r.value.0.rtsSent <= s.rtsSent + 1
  {
    QueueingKeepsRts(s, q, size, now, cc, grant);
    var r := S.QueueForRtx(s, q, size, now, cc, grant);
    if r.Ok? {
      SendingKeepsRts(r.value.0, now, cc);
    }
  }

  lemma {:induction false} StartKeepsRts(s: S.Sender, now: nat, cc: S.Cc, grants: nat)
    ensures var r := S.StartLoop(s, now, cc, grants); r.Ok? ==> r.value.0.rtsSent == s.rtsSent
    decreases grants
  {
    SendingKeepsRts(s, now, cc);
    if grants > 0 && S.SendNew(s, now, cc).Ok? {
      StartKeepsRts(S.SendNew(s, now, cc).value.0, now, cc, grants - 1);
    }
  }

  // ---------------------------------------------------------------- beyond reach

  /** A trimmed packet whose slot is taken by the packet 4096 below it is acknowledged without having come
      in. */
  lemma TrimmedIsAcknowledged(s: Sys, p: S.Packet)
    requires Inv(s) && Enabled(s, DataTrimmed(p))
    requires p.seqno >= W.SLOTS && p.seqno - W.SLOTS in s.win.stored && p.seqno !in s.rcv
    ensures Next(s, DataTrimmed(p)).Ok? && W.ReceiveTrimmed(s.win, p.seqno).Send?
    ensures var k, t := W.ReceiveTrimmed(s.win, p.seqno).ack, Next(s, DataTrimmed(p)).value;
            AckMsg(k) in t.net && W.Acknowledges(k, p.seqno) && !W.Sound(k, t.rcv)
  {
    W.CanonUnique(p.seqno, s.win.expected, p.seqno - W.SLOTS);
    W.AckBits(s.win, p.seqno, false, 0);
  }

  /** Packet `q` is nowhere: neither outstanding nor waiting to be resent, and not received. */
  ghost predicate Lost(s: Sys, q: nat) {
    q < s.snd.highestSent && q !in s.snd.tx && q !in s.snd.rtx && q !in s.rcv
  }

  /** So many packets that the last one shares its slot with the second. */
  const MANY: nat := W.SLOTS + 2

  /** Data packet `p`, of number `q`, has been sent. */
  ghost predicate IsOut(s: Sys, p: S.Packet, q: nat) {
    p.Data? && p.seqno == q && FromSender(p) in s.net
  }

  /** The second packet arrives, the last one is trimmed, and the answer reaches the sender. */
  function LossyRun(p: S.Packet, last: S.Packet, k: W.Ack): seq<Action> {
    [DataArrives(p, false), DataTrimmed(last), AckArrives(k, 1, S.NoCc, true)]
  }

  /** It happens to every flow that may send 4098 packets or more at once: the last of the 4098 is trimmed and
      acknowledged, and the sender forgets it. */
  lemma PacketIsLost(c: Config, pacer: P.State<nat>, n: nat) returns (p: S.Packet, last: S.Packet, k: W.Ack)
    requires Awaiting(pacer) && n >= MANY && c.flowSize >= n * c.mss && c.maxWnd >= n * (c.mss + S.HDR_SIZE)
    ensures Init(c, pacer, 0, S.NoCc, n).Ok? && Joined(Init(c, pacer, 0, S.NoCc, n).value)
    ensures var o := Run(Init(c, pacer, 0, S.NoCc, n).value, LossyRun(p, last, k));
            o.Ok? && Lost(o.value, W.SLOTS + 1)
  {
    var s, pkts := ManyOut(c, pacer, n);
    AllOut(s, pkts);
    p, last := pkts[1], pkts[W.SLOTS + 1];
    k := LastIsLost(s, p, last);
  }

  lemma LastIsLost(s: Sys, p: S.Packet, last: S.Packet) returns (k: W.Ack)
    requires Inv(s) && IsOut(s, p, 1) && IsOut(s, last, W.SLOTS + 1) && s.win == W.InitWindow && s.rcv == {}
    requires Unanswered(s)
    ensures var o := Run(s, LossyRun(p, last, k)); o.Ok? && Lost(o.value, W.SLOTS + 1)
  {
    var t := SecondArrives(s, p);
    k := LastIsForgotten(t, last);
    RunOne(s, DataArrives(p, false), t, [DataTrimmed(last), AckArrives(k, 1, S.NoCc, true)]);
  }

  /** The sender has used number 4097, and nothing has come back. */
  ghost predicate Unanswered(s: Sys) {
    && s.snd.creditPull == 0 && s.snd.rtx == map[] && !s.snd.done && s.snd.flowSize > 0
    && W.SLOTS + 1 < s.snd.highestSent
  }

  lemma LastIsForgotten(s: Sys, last: S.Packet) returns (k: W.Ack)
    requires Inv(s) && IsOut(s, last, W.SLOTS + 1) && s.rcv == {1} && s.win.expected == 0 && 1 in s.win.stored
    requires Unanswered(s)
    ensures var o := Run(s, [DataTrimmed(last), AckArrives(k, 1, S.NoCc, true)]); o.Ok? && Lost(o.value, W.SLOTS + 1)
  {
    k := W.ReceiveTrimmed(s.win, last.seqno).ack;
    var t := LastIsAcknowledged(s, last, k);
    ForgetsAcknowledged(t, k);
    RunOne(s, DataTrimmed(last), t, [AckArrives(k, 1, S.NoCc, true)]);
  }

  lemma LastIsAcknowledged(s: Sys, p: S.Packet, k: W.Ack) returns (t: Sys)
    requires Inv(s) && IsOut(s, p, W.SLOTS + 1) && s.rcv == {1} && s.win.expected == 0 && 1 in s.win.stored
    requires k == W.MakeAck(s.win, p.seqno, false)
    ensures Leads(s, DataTrimmed(p), t)
    ensures AckMsg(k) in t.net && W.Acknowledges(k, W.SLOTS + 1)
    ensures t.snd == s.snd && t.sizes == s.sizes && t.rcv == {1}
  {
    TrimmedIsAcknowledged(s, p);
    t := Next(s, DataTrimmed(p)).value;
  }

  lemma SecondArrives(s: Sys, p: S.Packet) returns (t: Sys)
    requires Inv(s) && IsOut(s, p, 1) && s.win == W.InitWindow && s.rcv == {}
    ensures Leads(s, DataArrives(p, false), t) && Inv(t)
    ensures t.snd == s.snd && s.net <= t.net && t.rcv == {1} && t.win.expected == 0 && 1 in t.win.stored
  {
    t := DataLeads(s, p, false);
    assert t.rcv == {1};
    OnlySecond(t.win, t.rcv);
  }

  lemma OnlySecond(w: W.Window, rcv: set<nat>)
    requires W.Exact(w, rcv) && rcv == {1}
    ensures w.expected == 0 && 1 in w.stored
  {
    W.ExactMeaning(w, rcv);
    assert 0 !in rcv && 1 in rcv;
  }

  lemma ForgetsAcknowledged(s: Sys, k: W.Ack)
    requires Joined(s) && I.Good(s.snd) && I.Sized(s.snd, s.sizes) && AckMsg(k) in s.net
    requires k.cum == 0 && k.ref == W.SLOTS + 1 && W.Acknowledges(k, W.SLOTS + 1) && W.SLOTS + 1 !in s.rcv
    requires Unanswered(s)
    ensures var o := Run(s, [AckArrives(k, 1, S.NoCc, true)]); o.Ok? && Lost(o.value, W.SLOTS + 1)
  {
    SenderForgets(s.snd, s.sizes, k);
    var t := Next(s, AckArrives(k, 1, S.NoCc, true)).value;
    RunOne(s, AckArrives(k, 1, S.NoCc, true), t, []);
  }

  lemma SenderForgets(s: S.Sender, sizes: seq<nat>, k: W.Ack)
    requires I.Good(s) && I.Sized(s, sizes) && s.creditPull == 0 && s.rtx == map[] && !s.done && s.flowSize > 0
    requires k.cum == 0 && k.ref == W.SLOTS + 1 && W.Acknowledges(k, W.SLOTS + 1)
    ensures var r := S.ProcessAck(s, k.cum, k.ref, k.bitmap, 1, S.NoCc, true);
            && r.Ok? && W.SLOTS + 1 !in r.value.0.tx && r.value.0.rtx == map[]
            && r.value.0.highestSent == s.highestSent
  {
    I.HandleAckExact(s, 0, k.ref, k.bitmap);
    I.HandleAckKeeps(s, sizes, 0, k.ref, k.bitmap);
    var acked := S.HandleAck(s, 0, k.ref, k.bitmap);
    assert (0 - acked.rtsSent) * acked.mss <= 0;
    I.UnpaidSendsNothing(S.StopSpeculating(acked), 1, S.NoCc, true);
  }

  /** Speculative credit for `n` packets lets a flow send them all at once. */
  lemma ManyOut(c: Config, pacer: P.State<nat>, n: nat) returns (s: Sys, pkts: seq<S.Packet>)
    requires Awaiting(pacer) && n > 0 && c.flowSize >= n * c.mss && c.maxWnd >= n * (c.mss + S.HDR_SIZE)
    ensures Init(c, pacer, 0, S.NoCc, n) == Ok(s) && Inv(s)
    ensures s.win == W.InitWindow && s.rcv == {} && s.net == Messages(pkts)
    ensures SentAll(c, s.snd, pkts, n)
  {
    RoomForMany(c, n);
    StartSendsAll(c, n);
    InitInv(c, pacer, 0, S.NoCc, n);
    s := Init(c, pacer, 0, S.NoCc, n).value;
    pkts := S.StartFlow(S.Fresh(c.mss, c.maxWnd, c.flowSize), 0, S.NoCc, n).value.1;
  }

  /** The first `n` packets went out, and nothing has come back. */
  ghost predicate SentAll(c: Config, s: S.Sender, pkts: seq<S.Packet>, n: nat) {
    && s.highestSent == n == |pkts| && s.rtx == map[] && s.creditPull == 0 && !s.done
    && s.flowSize == c.flowSize && c.flowSize > 0
    && forall q :: 0 <= q < n ==> pkts[q].Data? && pkts[q].seqno == q
  }

  lemma StartSendsAll(c: Config, n: nat)
    requires CanSend(S.ReadyToStart(S.Fresh(c.mss, c.maxWnd, c.flowSize)), n) && c.flowSize > 0
    ensures var r := S.StartFlow(S.Fresh(c.mss, c.maxWnd, c.flowSize), 0, S.NoCc, n);
            r.Ok? && SentAll(c, r.value.0, r.value.1, n)
  {
    I.ReadyToStartGood(c.mss, c.maxWnd, c.flowSize);
    SendsMany(S.ReadyToStart(S.Fresh(c.mss, c.maxWnd, c.flowSize)), [], n);
  }

  lemma RoomForMany(c: Config, n: nat)
    requires n > 0 && c.flowSize >= n * c.mss && c.maxWnd >= n * (c.mss + S.HDR_SIZE)
    ensures CanSend(S.ReadyToStart(S.Fresh(c.mss, c.maxWnd, c.flowSize)), n) && c.flowSize > 0
  {
    I.MulMonotone(1, n, c.mss);
  }

  lemma AllOut(s: Sys, pkts: seq<S.Packet>)
    requires s.net == Messages(pkts) && forall q :: 0 <= q < |pkts| ==> pkts[q].Data? && pkts[q].seqno == q
    ensures forall q :: 0 <= q < |pkts| ==> IsOut(s, pkts[q], q)
  {
  }

  /** A speculating source with credit for `n` packets, and nothing else to send. */
  ghost predicate CanSend(s: S.Sender, n: nat) {
    && s.speculating && s.creditPull == 0 && s.rtx == map[]
    && s.creditSpec >= n * s.Mtu() && s.unsent >= n * s.mss
  }

  lemma {:induction false} SendsMany(s: S.Sender, sizes: seq<nat>, n: nat)
    requires I.Good(s) && I.Sized(s, sizes) && CanSend(s, n)
    ensures S.StartLoop(s, 0, S.NoCc, n).Ok?
    ensures var r := S.StartLoop(s, 0, S.NoCc, n).value;
            && r.0.rtx == map[] && r.0.creditPull == 0 && r.0.highestSent == s.highestSent + n
            && r.0.done == s.done && r.0.flowSize == s.flowSize
            && |r.1| == n && forall i :: 0 <= i < n ==> r.1[i].Data? && r.1[i].seqno == s.highestSent + i
    decreases n
  {
    if n > 0 {
      SendsOne(s, sizes, n);
      var r := S.SendNew(s, 0, S.NoCc).value;
      SendsMany(r.0, I.Extend(sizes, r.1), n - 1);
    }
  }

  lemma SendsOne(s: S.Sender, sizes: seq<nat>, n: nat)
    requires I.Good(s) && I.Sized(s, sizes) && CanSend(s, n) && n > 0
    ensures s.Credit() > 0 && s.unsent > 0 && S.SendNew(s, 0, S.NoCc).Ok?
    ensures var r := S.SendNew(s, 0, S.NoCc).value;
            && I.Good(r.0) && I.Sized(r.0, I.Extend(sizes, r.1))
            && CanSend(r.0, n - 1) && r.0.highestSent == s.highestSent + 1
            && r.0.done == s.done && r.0.flowSize == s.flowSize
            && |r.1| == 1 && r.1[0].Data? && r.1[0].seqno == s.highestSent
  {
    RoomForOneMore(n, s.Mtu());
    RoomForOneMore(n, s.mss);
    I.SendNewSteps(s, sizes, 0, S.NoCc);
    NewIsSent(s);
  }

  lemma RoomForOneMore(n: nat, m: nat)
    requires n > 0
    ensures n * m == m + (n - 1) * m && (n - 1) * m >= 0
  {
  }

  lemma NewIsSent(s: S.Sender)
    requires I.Good(s) && s.speculating && s.creditPull == 0 && s.creditSpec > 0 && s.unsent > 0 && s.rtx == map[]
    ensures S.SendNew(s, 0, S.NoCc).Ok?
    ensures var r := S.SendNew(s, 0, S.NoCc).value;
            && r.0.speculating && r.0.creditPull == 0 && r.0.rtx == map[] && r.0.mss == s.mss
            && r.0.creditSpec >= s.creditSpec - s.Mtu() && r.0.unsent >= s.unsent - s.mss
            && r.0.highestSent == s.highestSent + 1 && r.0.done == s.done && r.0.flowSize == s.flowSize
            && |r.1| == 1 && r.1[0].Data? && r.1[0].seqno == s.highestSent
  {
    I.SendNewGuards(s);
    I.SpendCreditOk(s, S.NextPayload(s) + S.HDR_SIZE);
    I.SendNewUnfolds(s, 0, S.NoCc);
    var t := S.SpendCredit(s, S.NextPayload(s) + S.HDR_SIZE).value.s;
    I.CountsNext(t);
    I.LaunchNewIs(t, 0, S.NoCc);
  }
}
