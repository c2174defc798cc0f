/**
When a packet asks its receiver for an answer: every resend does, and a new packet does exactly if it overdraws the
pulled credit of its source or is the last of the flow. Such a packet is answered whenever it arrives.
 */
module AnswerRequests {
  import opened Outcomes
  import opened Protocol
  import S = Sender
  import I = SenderInvariant
  import W = ReceiveWindow
  import A = AckCoverage
  import P = PullPacer
  import Reach
  import O = OnePacketOut

  /** The source has no business left that an answer could wait for. */
  predicate Spent(s: S.Sender) {
    s.creditPull < 0 || s.backlog == 0
  }

  /** A packet sent on the way from `s` to `t` asks for an answer if it goes out again, and if it is new exactly if the
      source is then spent. */
  predicate Right(s: S.Sender, t: S.Sender, p: S.Packet) {
    p.Data? ==> (p.ar <==> p.seqno < s.highestSent || Spent(t))
  }

  predicate AsksRightly(s: S.Sender, t: S.Sender, pkts: seq<S.Packet>) {
    forall i :: 0 <= i < |pkts| ==> Right(s, t, pkts[i])
  }

  predicate Asking(p: S.Packet) {
    p.Data? && p.ar
  }

  /** A source becomes spent only by sending a packet that asks for an answer. */
  predicate SpendsAsking(s: S.Sender, t: S.Sender, pkts: seq<S.Packet>) {
    Spent(t) && !Spent(s) ==> exists i :: 0 <= i < |pkts| && Asking(pkts[i])
  }

  ghost predicate Sends(s: S.Sender, r: S.Sent) {
    r.Ok? ==> AsksRightly(s, r.value.0, r.value.1) && SpendsAsking(s, r.value.0, r.value.1)
  }

  /** Only packets that have been sent wait to be sent again. */
  predicate Known(s: S.Sender) {
    forall q :: q in s.rtx ==> q < s.highestSent
  }

  // ---------------------------------------------------------------- one packet

  lemma NewAsks(s: S.Sender, now: nat, cc: S.Cc)
    ensures Sends(s, S.SendNew(s, now, cc))
    ensures S.SendNew(s, now, cc).Ok? ==> |S.SendNew(s, now, cc).value.1| <= 1
  {
    var r := S.SendNew(s, now, cc);
    if r.Ok? && r.value.1 != [] {
      var p := r.value.1[0];
      assert p.seqno == s.highestSent && (p.ar <==> Spent(r.value.0));
      assert Asking(p) || !Spent(r.value.0);
    }
  }

  lemma ResendAsks(s: S.Sender, now: nat, cc: S.Cc)
    requires Known(s)
    ensures Sends(s, S.SendRtx(s, now, cc))
    ensures S.SendRtx(s, now, cc).Ok? ==>
              var t := S.SendRtx(s, now, cc).value.0;
              t.highestSent == s.highestSent && t.backlog == s.backlog && Known(t)
  {
    var r := S.SendRtx(s, now, cc);
    if r.Ok? && r.value.1 != [] {
      assert Asking(r.value.1[0]) && r.value.1[0].seqno == S.Least(s.rtx.Keys);
    }
  }

  lemma PacketAsks(s: S.Sender, now: nat, cc: S.Cc)
    requires Known(s)
    ensures Sends(s, S.SendPacket(s, now, cc))
  {
    NewAsks(s, now, cc);
    ResendAsks(s, now, cc);
  }

  lemma PermittedAsks(s: S.Sender, now: nat, cc: S.Cc, grant: bool)
    requires Known(s)
    ensures Sends(s, S.SendIfPermitted(s, now, cc, grant))
  {
    PacketAsks(s, now, cc);
  }

  // ---------------------------------------------------------------- every event

  predicate Resends(s: S.Sender, pkts: seq<S.Packet>) {
    forall i :: 0 <= i < |pkts| ==> Asking(pkts[i]) && pkts[i].seqno < s.highestSent
  }

  /** What is sent for one reason and then for another. */
  lemma SendsTwice(s: S.Sender, t: S.Sender, a: seq<S.Packet>, u: S.Sender, b: seq<S.Packet>)
    requires t.highestSent == s.highestSent && Resends(s, a)
    requires SpendsAsking(s, t, a) && AsksRightly(t, u, b) && SpendsAsking(t, u, b)
    ensures AsksRightly(s, u, a + b) && SpendsAsking(s, u, a + b)
  {
    if Spent(t) && !Spent(s) {
      var i :| 0 <= i < |a| && Asking(a[i]);
      assert Asking((a + b)[i]);
    } else if Spent(u) && !Spent(t) {
      var i :| 0 <= i < |b| && Asking(b[i]);
      assert Asking((a + b)[|a| + i]);
    }
  }

  lemma QueuedAsks(s: S.Sender, q: nat, size: nat, now: nat, cc: S.Cc, grant: bool)
    requires Known(s) && q < s.highestSent
    ensures var r := S.QueueForRtx(s, q, size, now, cc, grant);
            && Sends(s, r)
            && (r.Ok? ==> r.value.0.highestSent == s.highestSent && Known(r.value.0)
                          && Resends(s, r.value.1))
  {
    var s1 := s.(rtx := s.rtx[q := size]);
    assert q in s1.rtx.Keys;
    ResendAsks(s1, now, cc);
  }

  lemma RefusalAsks(s: S.Sender, q: nat, now: nat, cc: S.Cc, grant: bool, grant': bool)
    requires I.Book(s)
    ensures Sends(s, S.ProcessNack(s, q, now, cc, grant, grant'))
  {
    if q in s.tx {
      var s1 := S.StopSpeculating(S.Drop(s, {q}));
      QueuedAsks(s1, q, s.tx[q].size, now, cc, grant);
      var r := S.QueueForRtx(s1, q, s.tx[q].size, now, cc, grant);
      if r.Ok? {
        PermittedAsks(r.value.0, now, cc, grant');
        var r' := S.SendIfPermitted(r.value.0, now, cc, grant');
        if r'.Ok? {
          SendsTwice(s1, r.value.0, r.value.1, r'.value.0, r'.value.1);
        }
      }
    }
  }

  lemma RtsAsks(s: S.Sender, now: nat, recent: bool)
    ensures Sends(s, S.SendRts(s, now, recent))
  {
  }

  lemma BehindAsks(s: S.Sender, q: nat, size: nat, now: nat, cc: S.Cc, grant: bool, recent: bool)
    requires Known(s) && q < s.highestSent
    ensures Sends(s, S.QueueBehind(s, q, size, now, cc, grant, recent))
  {
    var s1 := S.StopSpeculating(s);
    QueuedAsks(s1, q, size, now, cc, grant);
    var r := S.QueueForRtx(s1, q, size, now, cc, grant);
    if r.Ok? {
      RtsAsks(r.value.0, now, recent);
      var r' := S.SendRts(r.value.0, now, recent);
      if r'.Ok? {
        SendsTwice(s1, r.value.0, r.value.1, r'.value.0, r'.value.1);
      }
    }
  }

  lemma AfterTimeoutAsks(s: S.Sender, size: nat, now: nat, cc: S.Cc, grant: bool, recent: bool)
    requires Known(s)
    ensures Sends(s, S.AfterTimeout(s, size, now, cc, grant, recent))
  {
    RtsAsks(s, now, recent);
    ResendAsks(s, now, cc);
  }

  lemma AloneAsks(
    s: S.Sender, q: nat, size: nat, now: nat, cc: S.Cc, grant: bool, grant': bool, recent: bool)
    requires Known(s) && q < s.highestSent
    ensures Sends(s, S.QueueAlone(s, q, size, now, cc, grant, grant', recent))
  {
    QueuedAsks(s, q, size, now, cc, grant);
    var r := S.QueueForRtx(s, q, size, now, cc, grant);
    if r.Ok? {
      AfterTimeoutAsks(r.value.0, size, now, cc, grant', recent);
      var r' := S.AfterTimeout(r.value.0, size, now, cc, grant', recent);
      if r'.Ok? {
        SendsTwice(s, r.value.0, r.value.1, r'.value.0, r'.value.1);
      }
    }
  }

  lemma TimeoutAsks(s: S.Sender, now: nat, cc: S.Cc, grant: bool, grant': bool, recent: bool)
    requires I.Book(s)
    ensures Sends(s, S.TimerExpired(s, now, cc, grant, grant', recent))
  {
    if s.sendTimes.Keys != {} {
      var t := S.Least(s.sendTimes.Keys);
      var q := s.sendTimes[t];
      if q in s.tx {
        var s1 := s.(sendTimes := s.sendTimes - {t}, tx := s.tx - {q});
        BehindAsks(s1, q, s.tx[q].size, now, cc, grant, recent);
        AloneAsks(s1, q, s.tx[q].size, now, cc, grant, grant', recent);
      }
    }
  }

  lemma CallBackAsks(s: S.Sender, now: nat, cc: S.Cc)
    requires Known(s)
    ensures Sends(s, S.TimeToSend(s, now, cc))
  {
    PacketAsks(s.(blocked := false), now, cc);
  }

  lemma AckAsks(s: S.Sender, k: W.Ack, now: nat, cc: S.Cc, grant: bool)
    requires I.Book(s)
    ensures Sends(s, S.ProcessAck(s, k.cum, k.ref, k.bitmap, now, cc, grant))
  {
    PermittedAsks(I.Acknowledged(s, k.cum, k.ref, k.bitmap), now, cc, grant);
  }

  lemma PullAsks(s: S.Sender, n: nat, now: nat, cc: S.Cc, grant: bool)
    requires Known(s)
    ensures Sends(s, S.ProcessPull(s, n, now, cc, grant))
  {
    PermittedAsks(S.StopSpeculating(S.HandlePull(s, n)), now, cc, grant);
  }

  // ---------------------------------------------------------------- the start

  /** While nothing has been pulled a packet is paid for with speculative credit. */
  lemma StartSendsOne(s: S.Sender, sizes: seq<nat>, now: nat, cc: S.Cc)
    requires I.Good(s) && I.Sized(s, sizes) && s.speculating && s.creditPull == 0 && s.Credit() > 0 && s.unsent > 0
    ensures S.SendNew(s, now, cc).Ok?
    ensures var r := S.SendNew(s, now, cc).value;
            && |r.1| == 1 && I.Good(r.0) && I.Sized(r.0, I.Extend(sizes, r.1)) && r.0.speculating
            && r.0.creditPull == 0 && r.1[0].Data? && (r.1[0].ar <==> r.0.backlog == 0)
  {
    I.SendNewSteps(s, sizes, now, cc);
    NewAsks(s, now, cc);
    var r := S.SendNew(s, now, cc).value;
    assert r.1[0].seqno == s.highestSent;
  }

  /** The packets a flow starts with ask for no answer, but the last one does if it is the last of the flow. */
  ghost predicate StartsAsking(r: S.Sent) {
    r.Ok? ==>
      && r.value.0.creditPull == 0
      && forall i :: 0 <= i < |r.value.1| ==>
           r.value.1[i].Data? && (r.value.1[i].ar <==> i == |r.value.1| - 1 && r.value.0.backlog == 0)
  }

  lemma {:induction false} StartAsks(s: S.Sender, sizes: seq<nat>, now: nat, cc: S.Cc, grants: nat)
    requires I.Good(s) && I.Sized(s, sizes) && s.speculating && s.creditPull == 0
    ensures StartsAsking(S.StartLoop(s, now, cc, grants))
    ensures var r := S.StartLoop(s, now, cc, grants);
            r.Ok? && r.value.1 == [] ==> r.value.0.backlog == s.backlog
    decreases grants
  {
    if grants > 0 && s.Credit() > 0 && s.unsent > 0 && S.StartLoop(s, now, cc, grants).Ok? {
      StartSendsOne(s, sizes, now, cc);
      S.StartLoopUnfolds(s, now, cc, grants);
      var r := S.SendNew(s, now, cc).value;
      StartAsks(r.0, I.Extend(sizes, r.1), now, cc, grants - 1);
      StartGoesOn(s, r.0, r.1, now, cc, grants);
    } else {
      S.StartLoopEnds(s, now, cc, if s.Credit() > 0 && s.unsent > 0 then 0 else grants);
    }
  }

  lemma StartGoesOn(s: S.Sender, u: S.Sender, a: seq<S.Packet>, now: nat, cc: S.Cc, grants: nat)
    requires grants > 0 && |a| == 1 && a[0].Data? && (a[0].ar <==> u.backlog == 0) && I.Counts(u)
    requires S.StartLoop(s, now, cc, grants).Ok? && S.StartLoop(u, now, cc, grants - 1).Ok?
    requires var o, rest := S.StartLoop(s, now, cc, grants).value, S.StartLoop(u, now, cc, grants - 1).value;
             o.0 == rest.0 && o.1 == a + rest.1 && (rest.1 == [] ==> rest.0.backlog == u.backlog)
    requires StartsAsking(S.StartLoop(u, now, cc, grants - 1))
    ensures StartsAsking(S.StartLoop(s, now, cc, grants))
  {
    var o, rest := S.StartLoop(s, now, cc, grants).value, S.StartLoop(u, now, cc, grants - 1).value;
    if rest.1 != [] {
      SomeLeft(u, now, cc, grants - 1);
    }
    forall i | 0 <= i < |o.1| ensures o.1[i].Data? && (o.1[i].ar <==> i == |o.1| - 1 && o.0.backlog == 0) {
      if i > 0 {
        assert o.1[i] == rest.1[i - 1];
      }
    }
  }

  lemma SomeLeft(s: S.Sender, now: nat, cc: S.Cc, grants: nat)
    requires I.Counts(s) && S.StartLoop(s, now, cc, grants).Ok? && S.StartLoop(s, now, cc, grants).value.1 != []
    ensures s.backlog > 0
  {
    I.CeilDivStep(s.unsent, s.mss);
  }

  // ---------------------------------------------------------------- whole runs

  /** If the source is spent, a packet that asks for an answer has been sent. */
  ghost predicate Asked(s: Sys) {
    Spent(s.snd) && s.snd.flowSize > 0 ==> exists p: S.Packet :: FromSender(p) in s.net && Asking(p)
  }

  lemma EventAsks(s: Sys, a: Action)
    requires Inv(s) && Enabled(s, a) && Next(s, a).Ok? && (OwnEvent(a) || a.AckArrives? || a.PullArrives?)
    ensures exists pkts :: Next(s, a).value == WithSender(s, Next(s, a).value.snd, pkts)
                           && AsksRightly(s.snd, Next(s, a).value.snd, pkts)
                           && SpendsAsking(s.snd, Next(s, a).value.snd, pkts)
  {
    var r: S.Sent;
    match a {
      case AckArrives(k, now, cc, grant) =>
        AckAsks(s.snd, k, now, cc, grant);
        r := S.ProcessAck(s.snd, k.cum, k.ref, k.bitmap, now, cc, grant);
      case NackArrives(q, now, cc, grant, grant') =>
        RefusalAsks(s.snd, q, now, cc, grant, grant');
        r := S.ProcessNack(s.snd, q, now, cc, grant, grant');
      case PullArrives(n, now, cc, grant) =>
        PullAsks(s.snd, n, now, cc, grant);
        r := S.ProcessPull(s.snd, n, now, cc, grant);
      case Timeout(now, cc, grant, grant', recent) =>
        TimeoutAsks(s.snd, now, cc, grant, grant', recent);
        r := S.TimerExpired(s.snd, now, cc, grant, grant', recent);
      case NicReady(now, cc) =>
        CallBackAsks(s.snd, now, cc);
        r := S.TimeToSend(s.snd, now, cc);
    }
    var t, pkts := EventLeads(s, a, r);
  }

  lemma NextKeepsAsked(s: Sys, a: Action)
    requires Inv(s) && Asked(s) && Enabled(s, a) && InReach(s, a) && Next(s, a).Ok?
    ensures Asked(Next(s, a).value)
  {
    var t := Next(s, a).value;
    Reach.NextKeepsFlow(s, a);
    if OwnEvent(a) || a.AckArrives? || a.PullArrives? {
      EventAsks(s, a);
      var pkts :| t == WithSender(s, t.snd, pkts) && SpendsAsking(s.snd, t.snd, pkts);
      SentKeepsAsked(s, t, pkts);
    } else {
      SinkKeepsSender(s, a);
      NetGrows(s, a);
      StillAsked(s, t);
    }
  }

  lemma NetGrows(s: Sys, a: Action)
    requires Joined(s) && Enabled(s, a) && Next(s, a).Ok?
    ensures s.net <= Next(s, a).value.net
  {
  }

  lemma StillAsked(s: Sys, t: Sys)
    requires Asked(s) && s.net <= t.net && t.snd.flowSize == s.snd.flowSize && (Spent(t.snd) ==> Spent(s.snd))
    ensures Asked(t)
  {
    if Spent(t.snd) && t.snd.flowSize > 0 {
      var p: S.Packet :| FromSender(p) in s.net && Asking(p);
      assert FromSender(p) in t.net;
    }
  }

  lemma SentKeepsAsked(s: Sys, t: Sys, pkts: seq<S.Packet>)
    requires Asked(s) && t == WithSender(s, t.snd, pkts) && SpendsAsking(s.snd, t.snd, pkts)
    requires t.snd.flowSize == s.snd.flowSize
    ensures Asked(t)
  {
    if Spent(t.snd) && !Spent(s.snd) {
      var i :| 0 <= i < |pkts| && Asking(pkts[i]);
      assert FromSender(pkts[i]) in t.net;
    } else {
      StillAsked(s, t);
    }
  }

  lemma {:induction false} RunKeepsAsked(s: Sys, actions: seq<Action>)
    requires Inv(s) && Asked(s) && StaysInReach(s, actions)
    ensures Run(s, actions).Ok? ==> Asked(Run(s, actions).value)
    decreases |actions|
  {
    if actions == [] {
    } else if !Enabled(s, actions[0]) {
      RunKeepsAsked(s, actions[1..]);
    } else if Next(s, actions[0]).Ok? {
      NextKeepsInv(s, actions[0]);
      NextKeepsAsked(s, actions[0]);
      RunKeepsAsked(Next(s, actions[0]).value, actions[1..]);
    }
  }

  lemma StartsAsked(c: Config, pacer: P.State<nat>, now: nat, cc: S.Cc, grants: nat)
    requires Awaiting(pacer)
    ensures Init(c, pacer, now, cc, grants).Ok? && Asked(Init(c, pacer, now, cc, grants).value)
  {
    InitInv(c, pacer, now, cc, grants);
    I.ReadyToStartGood(c.mss, c.maxWnd, c.flowSize);
    StartAsks(O.Ready(c), [], now, cc, grants);
    var s := Init(c, pacer, now, cc, grants).value;
    var r := S.StartLoop(O.Ready(c), now, cc, grants).value;
    if Spent(s.snd) && c.flowSize > 0 {
      I.CeilDivStep(c.flowSize, c.mss);
      assert Asking(r.1[|r.1| - 1]) && r.1[|r.1| - 1] in r.1;
    }
  }

  /** Over every run in reach from the start of a flow: once its source has overdrawn its pulled credit, or has sent
      all that there was, a packet that asks for an answer is in the network. */
  lemma SpentHasAsked(c: Config, pacer: P.State<nat>, now: nat, cc: S.Cc, grants: nat, actions: seq<Action>)
    requires Awaiting(pacer)
    ensures Init(c, pacer, now, cc, grants).Ok? && Inv(Init(c, pacer, now, cc, grants).value)
    ensures var s := Init(c, pacer, now, cc, grants).value; var o := Run(s, actions);
            StaysInReach(s, actions) && o.Ok? ==> Asked(o.value)
  {
    InitInv(c, pacer, now, cc, grants);
    StartsAsked(c, pacer, now, cc, grants);
    var s := Init(c, pacer, now, cc, grants).value;
    if StaysInReach(s, actions) {
      RunKeepsAsked(s, actions);
    }
  }

  /** Whenever such a packet arrives, full and in reach of the window, an acknowledgement goes out that covers it and
      says how far everything has come in. */
  lemma AskingIsAnswered(s: Sys, p: S.Packet, ecn: bool) returns (t: Sys, k: W.Ack)
    requires Inv(s) && FromSender(p) in s.net && Asking(p) && InReach(s, DataArrives(p, ecn))
    ensures Leads(s, DataArrives(p, ecn), t) && Inv(t) && t.rcv == s.rcv + {p.seqno}
    ensures AckMsg(k) in t.net && W.Acknowledges(k, p.seqno) && k.cum == t.win.expected
    ensures k.cum !in t.rcv && forall q: nat :: q < k.cum ==> q in t.rcv
  {
    t := DataLeads(s, p, ecn);
    A.DataAnswered(s.win, s.rcv, Arrival(p, ecn));
    k := W.ReceiveData(s.win, Arrival(p, ecn)).1.ack;
  }
}
