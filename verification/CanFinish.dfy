/**
A flow that does not fit its initial window can always be finished: from every state that a run without mishaps
leads to, some continuation delivers the rest and ends with the flow done.
 */
module CanFinish {
  import opened Outcomes
  import opened Quanta
  import opened Cyclic
  import opened Protocol
  import opened OnePacketOut
  import opened CreditLoop
  import opened Starvation
  import opened AsksForCredit
  import opened NeverStalls
  import opened NeverStuck
  import opened CarefulRuns
  import S = Sender
  import I = SenderInvariant
  import P = PullPacer
  import W = ReceiveWindow
  import Reach

  // ---------------------------------------------------------------- nothing sent is out of the world

  ghost predicate HasCopy(s: Sys, q: nat) {
    exists p: S.Packet :: FromSender(p) in s.net && p.seqno == q
  }

  ghost predicate HasTarget(s: Sys, target: int) {
    exists p: S.Packet :: FromSender(p) in s.net && p.pullTarget == target
  }

  /** Every number was sent with some packet, and so was the source's last announcement. */
  ghost predicate Posted(s: Sys) {
    && (forall q :: 0 <= q < s.snd.highestSent ==> HasCopy(s, q))
    && HasTarget(s, s.snd.pullTarget)
    && (forall p :: FromSender(p) in s.net ==> p.pullTarget >= 0)
  }

  /** The window is not so large that announcements could be negative. */
  predicate Countable(c: Config) {
    2 * c.maxWnd <= Unquantize(INIT_PULL)
  }

  lemma {:induction false} ExtendHasCopies(sizes: seq<nat>, pkts: seq<S.Packet>, q: nat)
    requires |sizes| <= q < |I.Extend(sizes, pkts)|
    ensures exists p :: p in pkts && p.seqno == q
    decreases |pkts|
  {
    if pkts[0].seqno == |sizes| {
      if q == |sizes| {
        assert pkts[0] in pkts;
      } else {
        ExtendHasCopies(sizes + [I.SizeOf(pkts[0])], pkts[1..], q);
        var p :| p in pkts[1..] && p.seqno == q;
        assert p in pkts;
      }
    } else {
      ExtendHasCopies(sizes, pkts[1..], q);
      var p :| p in pkts[1..] && p.seqno == q;
      assert p in pkts;
    }
  }

  lemma SendsPosted(c: Config, s: Sys, t: Sys)
    requires Posted(s) && Sends(c, s, t) && Countable(c)
    requires |s.sizes| == s.snd.highestSent && |t.sizes| == t.snd.highestSent
    ensures Posted(t)
  {
    var pkts :| t == WithSender(s, t.snd, pkts) && Posts(c, s.snd, t.snd, pkts);
    forall q: nat | q < t.snd.highestSent ensures HasCopy(t, q) {
      if q < s.snd.highestSent {
        assert HasCopy(s, q);
        var p :| FromSender(p) in s.net && p.seqno == q;
        assert FromSender(p) in t.net;
      } else {
        ExtendHasCopies(s.sizes, pkts, q);
        var p: S.Packet :| p in pkts && p.seqno == q;
        assert FromSender(p) in t.net;
      }
    }
    if pkts == [] {
      KeepsTarget(s, t);
    } else {
      assert pkts[|pkts| - 1] in pkts;
      assert FromSender(pkts[|pkts| - 1]) in t.net;
    }
  }

  lemma KeepsTarget(s: Sys, t: Sys)
    requires HasTarget(s, s.snd.pullTarget) && t.snd.pullTarget == s.snd.pullTarget && s.net <= t.net
    ensures HasTarget(t, t.snd.pullTarget)
  {
    var p: S.Packet :| FromSender(p) in s.net && p.pullTarget == s.snd.pullTarget;
    assert FromSender(p) in t.net;
  }

  lemma SinkKeepsPosted(s: Sys, t: Sys)
    requires Posted(s) && t.snd == s.snd && s.net <= t.net
    requires forall p :: FromSender(p) in t.net ==> FromSender(p) in s.net
    ensures Posted(t)
  {
    KeepsTarget(s, t);
    forall q: nat | q < t.snd.highestSent ensures HasCopy(t, q) {
      assert HasCopy(s, q);
      var p :| FromSender(p) in s.net && p.seqno == q;
      assert FromSender(p) in t.net;
    }
  }

  // ---------------------------------------------------------------- a flow that can go on

  /** A flow that has begun, and whose receiver will care for it while data is left. */
  ghost predicate Live(c: Config, s: Sys) {
    && Inv(s) && Announced(c, s.snd) && Posted(s) && s.snd.flowSize == c.flowSize && s.snd.highestSent > 0
    && c.flowSize > 0 && c.maxWnd > 0
    && (s.snd.unsent > 0 ==> WillAsk(s) && c.flowSize > c.mss && Supplied(c, s))
  }

  lemma EventPosts(c: Config, s: Sys, a: Action)
    requires Inv(s) && Announced(c, s.snd) && Posted(s) && Countable(c)
    requires Enabled(s, a) && InReach(s, a) && Next(s, a).Ok? && SaneAction(a)
    ensures Posted(Next(s, a).value)
  {
    NextKeepsInv(s, a);
    var t := Next(s, a).value;
    if OwnEvent(a) || a.AckArrives? || a.PullArrives? {
      SourceAnnounces(c, s, a);
      SendsPosted(c, s, t);
    } else {
      SinkPosts(s, a);
    }
  }

  lemma SinkPosts(s: Sys, a: Action)
    requires Inv(s) && Posted(s) && Enabled(s, a) && Next(s, a).Ok?
    requires !OwnEvent(a) && !a.AckArrives? && !a.PullArrives?
    ensures Posted(Next(s, a).value)
  {
    SinkKeepsSender(s, a);
    SinkSendsNoData(s, a);
    SinkKeepsPosted(s, Next(s, a).value);
  }

  /** Every timely event leaves it so. */
  lemma NextKeepsLive(c: Config, s: Sys, a: Action)
    requires Live(c, s) && Countable(c) && Enabled(s, a) && InReach(s, a) && Next(s, a).Ok? && SaneAction(a)
    requires !Overtakes(s, a) && !Unasked(s, a)
    ensures Live(c, Next(s, a).value)
  {
    NextKeepsInv(s, a);
    EventAnnounces(c, s, a);
    EventPosts(c, s, a);
    Reach.NextKeepsFlow(s, a);
    SizesGrow(s, a);
    UnsentNeverGrows(s, a);
    if s.snd.unsent > 0 {
      NextStillAsks(s, a);
      SuppliedIff(c, s, a);
    }
  }

  lemma {:induction false} RunKeepsLive(c: Config, s: Sys, actions: seq<Action>)
    requires Live(c, s) && Countable(c) && StaysInReach(s, actions) && SaneRun(actions) && TimelyRun(s, actions)
    ensures Run(s, actions).Ok? ==> Live(c, Run(s, actions).value)
    decreases |actions|
  {
    if actions == [] {
    } else if !Enabled(s, actions[0]) {
      RunKeepsLive(c, s, actions[1..]);
    } else if Next(s, actions[0]).Ok? {
      NextKeepsLive(c, s, actions[0]);
      RunKeepsLive(c, Next(s, actions[0]).value, actions[1..]);
    }
  }

  // ---------------------------------------------------------------- what the pacer can grant at most

  function Limit(c: Config): nat {
    QuantizeFloor(c.maxWnd)
  }

  /** The pulls that the sink has been granted or will be for what is to be resent. */
  function Base(credit: P.Credit): nat {
    credit.latest + credit.retx + if credit.retx > 0 then P.CREDIT_PER_PULL else 0
  }

  /** What the pacer may yet come to grant without further requests. */
  function Crest(p: P.State<nat>): nat
    requires ME in p.credit
  {
    var credit := p.credit[ME];
    var top := credit.target + credit.slowLimit;
    (if Base(credit) > top then Base(credit) else top)
    + (if ME in p.active || credit.retx > 0 then 2 * P.CREDIT_PER_PULL else 0)
    + P.CREDIT_PER_PULL * multiset(p.idle)[ME]
  }

  lemma CountHead(q: seq<nat>)
    requires q != []
    ensures multiset(q)[ME] == multiset(q[1..])[ME] + if q[0] == ME then 1 else 0
    ensures forall x: nat :: multiset(q[1..] + [x])[ME] == multiset(q[1..])[ME] + if x == ME then 1 else 0
  {
    assert q == [q[0]] + q[1..];
  }

  lemma CountLast(q: seq<nat>, x: nat)
    ensures multiset(q + [x])[ME] == multiset(q)[ME] + if x == ME then 1 else 0
  {
  }

  ghost predicate CrestFalls(p: P.State<nat>, r: P.State<nat>)
    requires ME in p.credit
  {
    && ME in r.credit && Crest(r) <= Crest(p)
    && r.credit[ME].target == p.credit[ME].target && r.credit[ME].slowLimit == p.credit[ME].slowLimit
  }

  lemma RtxKeepsCrest(p: P.State<nat>)
    requires P.Inv(p) && ME in p.credit && p.rtx != []
    ensures CrestFalls(p, P.ServeRtx(p))
  {
    assert P.Placed(p, ME);
    HeadOrTail(p.rtx);
  }

  lemma ActiveKeepsCrest(p: P.State<nat>)
    requires P.Inv(p) && ME in p.credit && p.rtx == [] && p.active != []
    ensures CrestFalls(p, P.ServeActive(p))
  {
    assert P.Placed(p, ME);
    HeadOrTail(p.active);
    CountLast(p.idle, p.active[0]);
  }

  lemma IdleKeepsCrest(p: P.State<nat>)
    requires P.Inv(p) && ME in p.credit && p.rtx == [] && p.active == [] && p.idle != []
    ensures CrestFalls(p, P.ServeIdle(p))
  {
    assert P.Placed(p, ME);
    CountHead(p.idle);
  }

  /** The pacer's events do not raise it. */
  lemma TickKeepsCrest(p: P.State<nat>)
    requires P.Inv(p) && p.pending > 0 && ME in p.credit && P.Tick(p, false).Ok?
    ensures CrestFalls(p, P.Tick(p, false).value.0)
  {
    ServeKeepsCrest(p);
    var q := p.(pending := p.pending - 1);
    assert Crest(q) == Crest(p);
  }

  lemma ServeKeepsCrest(p: P.State<nat>)
    requires P.Inv(p) && ME in p.credit && p.pending > 0
    ensures var q := p.(pending := p.pending - 1);
            !P.Quiet(q) && P.Serve(q).Ok? ==> CrestFalls(p, P.Serve(q).value.0)
  {
    var q := p.(pending := p.pending - 1);
    if p.rtx != [] {
      RtxKeepsCrest(p);
      assert P.ServeRtx(q) == P.ServeRtx(p).(pending := q.pending);
    } else if p.active != [] {
      ActiveKeepsCrest(p);
      assert P.ServeActive(q) == P.ServeActive(p).(pending := q.pending);
    } else if p.idle != [] {
      IdleKeepsCrest(p);
      assert P.ServeIdle(q) == P.ServeIdle(p).(pending := q.pending);
    }
  }

  // ---------------------------------------------------------------- continuations

  /** Every careful run from `s0` leaves the flow live. */
  ghost predicate Lively(c: Config, s0: Sys) {
    Joined(s0) &&
    forall actions {:trigger StaysInReach(s0, actions)} ::
      StaysInReach(s0, actions) && SaneRun(actions) && TimelyRun(s0, actions) && Run(s0, actions).Ok? ==>
        Live(c, Run(s0, actions).value)
  }

  lemma LiveIsLively(c: Config, s0: Sys)
    requires Live(c, s0) && Countable(c)
    ensures Lively(c, s0)
  {
    forall actions | StaysInReach(s0, actions) && SaneRun(actions) && TimelyRun(s0, actions) && Run(s0, actions).Ok?
      ensures Live(c, Run(s0, actions).value)
    {
      RunKeepsLive(c, s0, actions);
    }
  }

  lemma GotLive(c: Config, s0: Sys, t: Sys)
    requires Lively(c, s0) && Got(s0, t, Either)
    ensures Live(c, t)
  {
    var actions :| Careful(s0, actions, Either) && Run(s0, actions) == Ok(t);
    CarefulStays(s0, actions, Either);
    CarefulIsTimely(s0, actions);
  }

  // ---------------------------------------------------------------- numbers that stay small

  /** Pull numbers, granted or asked for, lie below `b`, apart from slow credit. */
  ghost predicate Below(c: Config, s: Sys, b: nat) {
    && ME in s.pacer.credit && s.pacer.credit[ME].slowLimit == Limit(c)
    && (forall p :: FromSender(p) in s.net ==> p.pullTarget <= b)
    && Crest(s.pacer) <= b + Limit(c)
  }

  /** From `s` to `t` only the pacer has moved. */
  ghost predicate OnlyPulled(s: Sys, t: Sys) {
    && t == s.(pacer := t.pacer, net := t.net) && s.net <= t.net
    && forall p :: FromSender(p) in t.net ==> FromSender(p) in s.net
  }

  lemma {:induction false} Ticks(c: Config, s0: Sys, s: Sys, b: nat, n: nat) returns (t: Sys)
    requires Lively(c, s0) && Got(s0, s, Either) && Below(c, s, b) && P.Inv(s.pacer)
    ensures Got(s0, t, Either) && Below(c, t, b) && OnlyPulled(s, t) && t.pacer == AfterTimers(s.pacer, n)
    ensures P.Placed(t.pacer, ME) && t.pacer.credit[ME].target == s.pacer.credit[ME].target
    decreases n
  {
    if n == 0 {
      t := s;
    } else {
      var u := TicksOnce(c, s0, s, b);
      AfterTimersStep(s.pacer, u.pacer, n);
      t := Ticks(c, s0, u, b, n - 1);
    }
  }

  lemma TicksOnce(c: Config, s0: Sys, s: Sys, b: nat) returns (t: Sys)
    requires Lively(c, s0) && Got(s0, s, Either) && Below(c, s, b) && P.Inv(s.pacer)
    ensures Got(s0, t, Either) && Below(c, t, b) && OnlyPulled(s, t) && P.Inv(t.pacer)
    ensures if s.pacer.pending > 0 then PacerNext(s.pacer, t.pacer) else t.pacer == s.pacer
    ensures t.pacer.credit[ME].target == s.pacer.credit[ME].target
  {
    t := s;
    if s.pacer.pending > 0 {
      GotLive(c, s0, s);
      t := TickLeads(c, s, b);
      GotStep(s0, s, PacerTimer(false), t, Either);
    }
  }

  lemma TickLeads(c: Config, s: Sys, b: nat) returns (t: Sys)
    requires Inv(s) && s.pacer.pending > 0 && Below(c, s, b)
    ensures Leads(s, PacerTimer(false), t) && PacerNext(s.pacer, t.pacer) && P.Inv(t.pacer)
    ensures Below(c, t, b) && OnlyPulled(s, t) && t.pacer.credit[ME].target == s.pacer.credit[ME].target
  {
    t := PacerLeads(s);
    TickKeepsCrest(s.pacer);
  }

  /** The pacer works off its lists. */
  lemma Drains(c: Config, s0: Sys, s: Sys, b: nat) returns (t: Sys)
    requires Lively(c, s0) && Got(s0, s, Either) && Below(c, s, b)
    ensures Got(s0, t, Either) && Below(c, t, b) && OnlyPulled(s, t) && P.Quiet(t.pacer)
    ensures t.pacer.credit[ME].target == s.pacer.credit[ME].target
  {
    PacerInOrder(c, s0, s);
    P.PacerDrains(s.pacer);
    t := Ticks(c, s0, s, b, P.EventsToDrain(s.pacer));
  }

  lemma PacerInOrder(c: Config, s0: Sys, s: Sys)
    requires Lively(c, s0) && Got(s0, s, Either)
    ensures P.Inv(s.pacer) && ME in s.pacer.credit && P.Placed(s.pacer, ME)
  {
    GotLive(c, s0, s);
  }

  // ---------------------------------------------------------------- deliveries

  /** What one delivery can add to the pull numbers. */
  function Cost(c: Config): nat {
    CeilPositive(c.mss + S.HDR_SIZE);
    QuantizeCeil(c.mss + S.HDR_SIZE) + 3 * P.CREDIT_PER_PULL
  }

  /** A packet arrives whole, and is marked so that it is answered. */
  function Delivery(p: S.Packet): Action {
    if p.Data? then DataArrives(p, true) else RtsArrives(p, true)
  }

  /** An acknowledgement of everything below `n` is under way. */
  ghost predicate Answers(s: Sys, n: nat) {
    exists k: W.Ack :: AckMsg(k) in s.net && k.cum == n
  }

  lemma MarkedIsAnswered(w: W.Window, p: W.Arrival)
    requires p.ecn
    ensures var r := W.ReceiveData(w, p); r.1.Send? && r.1.ack.cum == r.0.expected
    ensures var r := W.ReceiveRts(w, p); r.1.cum == r.0.expected
  {
  }

  /** A demand on a pacer at rest raises what it may grant by no more than it asks for. */
  lemma TargetRaisesCrest(p: P.State<nat>, pt: nat, b: nat)
    requires P.Inv(p) && P.Quiet(p) && ME in p.credit && pt <= b && Crest(p) <= b + p.credit[ME].slowLimit
    ensures P.HandlePullTarget(p, ME, pt).Ok?
    ensures var r := P.HandlePullTarget(p, ME, pt).value;
            && ME in r.credit && r.credit[ME].slowLimit == p.credit[ME].slowLimit && r.credit[ME].target >= pt
            && Crest(r) <= b + p.credit[ME].slowLimit + 2 * P.CREDIT_PER_PULL
  {
    P.TargetKeepsInv(p, ME, pt);
    assert P.Placed(p, ME);
  }

  lemma RtsRaisesCrest(p: P.State<nat>, pt: nat, amount: nat, b: nat)
    requires P.Inv(p) && P.Quiet(p) && ME in p.credit && pt <= b && Crest(p) <= b + p.credit[ME].slowLimit
    requires amount > 0
    ensures P.RtsDemand(p, ME, pt, amount).Ok?
    ensures var r := P.RtsDemand(p, ME, pt, amount).value;
            && ME in r.credit && r.credit[ME].slowLimit == p.credit[ME].slowLimit && r.credit[ME].target >= pt
            && Crest(r) <= b + p.credit[ME].slowLimit + amount + 3 * P.CREDIT_PER_PULL
  {
    P.RtsKeepsInv(p, ME, pt, amount);
    P.TargetKeepsInv(p, ME, pt);
    assert P.Placed(p, ME);
    AddRtsRaises(P.HandlePullTarget(p, ME, pt).value, amount);
  }

  lemma AddRtsRaises(p: P.State<nat>, amount: nat)
    requires ME in p.credit && p.rtx == [] && p.idle == [] && p.credit[ME].retx == 0 && amount > 0
    requires P.AddRtsDemand(p, ME, amount).Ok?
    ensures var r := P.AddRtsDemand(p, ME, amount).value;
            && ME in r.credit && r.idle == []
            && r.credit[ME] == p.credit[ME].(retx := amount, inPull := r.credit[ME].inPull)
  {
  }

  lemma RtsLeads(s: Sys, p: S.Packet) returns (t: Sys)
    requires Inv(s) && p.Rts? && FromSender(p) in s.net && p.seqno <= s.win.expected
    ensures Leads(s, RtsArrives(p, true), t) && Inv(t)
    ensures t == s.(pacer := t.pacer, win := t.win, rcv := s.rcv + {p.seqno},
                    net := s.net + {AckMsg(W.ReceiveRts(s.win, Arrival(p, true)).1)})
    ensures t.win == W.ReceiveRts(s.win, Arrival(p, true)).0
    ensures P.RtsDemand(s.pacer, ME, Field(p.pullTarget), RtxDemand(s.snd)) == Ok(t.pacer)
  {
    Protocol.RtsKeepsInv(s, p, true);
    t := TakeRts(s, p, true).value;
  }

  lemma MarkedLeads(s: Sys, p: S.Packet) returns (t: Sys)
    requires Inv(s) && p.Data? && FromSender(p) in s.net && p.seqno <= s.win.expected
    ensures Leads(s, DataArrives(p, true), t) && Inv(t)
    ensures t == s.(pacer := t.pacer, win := t.win, rcv := s.rcv + {p.seqno},
                    net := s.net + AckMessages(W.ReceiveData(s.win, Arrival(p, true)).1))
    ensures t.win == W.ReceiveData(s.win, Arrival(p, true)).0
    ensures P.HandlePullTarget(s.pacer, ME, Field(p.pullTarget)) == Ok(t.pacer)
  {
    t := DataLeads(s, p, true);
  }

  /** Answered, it says what the receiver expects next. */
  lemma DeliveryAnswers(s: Sys, p: S.Packet) returns (t: Sys)
    requires Inv(s) && FromSender(p) in s.net && p.seqno <= s.win.expected
    ensures Leads(s, Delivery(p), t) && InReach(s, Delivery(p)) && t.snd == s.snd && t.rcv == s.rcv + {p.seqno}
    ensures s.net <= t.net && Answers(t, t.win.expected) && W.Exact(t.win, t.rcv)
    ensures if p.Data? then P.HandlePullTarget(s.pacer, ME, Field(p.pullTarget)) == Ok(t.pacer)
            else P.RtsDemand(s.pacer, ME, Field(p.pullTarget), RtxDemand(s.snd)) == Ok(t.pacer)
  {
    MarkedIsAnswered(s.win, Arrival(p, true));
    var k;
    if p.Data? {
      t := MarkedLeads(s, p);
      k := W.ReceiveData(s.win, Arrival(p, true)).1.ack;
    } else {
      t := RtsLeads(s, p);
      k := W.ReceiveRts(s.win, Arrival(p, true)).1;
    }
    assert AckMsg(k) in t.net;
  }

  lemma DeliveryRaisesCrest(c: Config, p: P.State<nat>, pkt: S.Packet, r: P.State<nat>, b: nat)
    requires P.Inv(p) && P.Quiet(p) && ME in p.credit && Crest(p) <= b + p.credit[ME].slowLimit
    requires 0 <= pkt.pullTarget <= b < 0x1_0000_0000_0000_0000
    requires if pkt.Data? then P.HandlePullTarget(p, ME, Field(pkt.pullTarget)) == Ok(r)
             else P.RtsDemand(p, ME, Field(pkt.pullTarget), QuantizeCeil(c.mss + S.HDR_SIZE)) == Ok(r)
    ensures ME in r.credit && r.credit[ME].slowLimit == p.credit[ME].slowLimit
    ensures r.credit[ME].target >= pkt.pullTarget && Crest(r) <= b + p.credit[ME].slowLimit + Cost(c)
  {
    CeilPositive(c.mss + S.HDR_SIZE);
    FieldIs(pkt.pullTarget);
    if pkt.Data? {
      TargetRaisesCrest(p, pkt.pullTarget, b);
    } else {
      RtsRaisesCrest(p, pkt.pullTarget, QuantizeCeil(c.mss + S.HDR_SIZE), b);
    }
  }

  /** A packet arrives at a receiver whose pacer is at rest. */
  lemma Arrives(c: Config, s0: Sys, s: Sys, b: nat, p: S.Packet) returns (t: Sys)
    requires Lively(c, s0) && Got(s0, s, Either) && Below(c, s, b) && P.Quiet(s.pacer)
    requires FromSender(p) in s.net && p.seqno <= s.win.expected && b < 0x1_0000_0000_0000_0000
    ensures Got(s0, t, Either) && Below(c, t, b + Cost(c)) && Delivered(s, p, t)
  {
    GotLive(c, s0, s);
    t := DeliveryAnswers(s, p);
    DeliveryFacts(c, s, b, p, t);
    GotStep(s0, s, Delivery(p), t, Either);
  }

  /** From `s` to `t` packet `p` has arrived and been answered. */
  ghost predicate Delivered(s: Sys, p: S.Packet, t: Sys) {
    && t.snd == s.snd && s.net <= t.net && t.win.expected >= s.win.expected && t.win.expected >= p.seqno + 1
    && ME in t.pacer.credit && t.pacer.credit[ME].target >= p.pullTarget && Answers(t, t.win.expected)
  }

  lemma DeliveryFacts(c: Config, s: Sys, b: nat, p: S.Packet, t: Sys)
    requires Live(c, s) && Below(c, s, b) && P.Quiet(s.pacer) && FromSender(p) in s.net && p.seqno <= s.win.expected
    requires b < 0x1_0000_0000_0000_0000 && Leads(s, Delivery(p), t) && t.snd == s.snd && t.rcv == s.rcv + {p.seqno}
    requires s.net <= t.net && Answers(t, t.win.expected) && W.Exact(t.win, t.rcv)
    requires if p.Data? then P.HandlePullTarget(s.pacer, ME, Field(p.pullTarget)) == Ok(t.pacer)
             else P.RtsDemand(s.pacer, ME, Field(p.pullTarget), RtxDemand(s.snd)) == Ok(t.pacer)
    ensures Delivered(s, p, t) && Below(c, t, b + Cost(c)) && !Strikes(s, Delivery(p), Either)
  {
    assert P.Placed(s.pacer, ME);
    DeliveryRaisesCrest(c, s.pacer, p, t.pacer, b);
    ExpectsMore(s, p.seqno, t);
    SinkSendsNoData(s, Delivery(p));
  }

  lemma ExpectsMore(s: Sys, q: nat, t: Sys)
    requires W.Exact(s.win, s.rcv) && W.Exact(t.win, t.rcv) && t.rcv == s.rcv + {q} && q <= s.win.expected
    ensures t.win.expected >= s.win.expected && t.win.expected >= q + 1
  {
    W.ExactMeaning(s.win, s.rcv);
    W.ExactMeaning(t.win, t.rcv);
  }

  /** A packet is delivered, and the pacer comes to rest again. */
  lemma Delivers(c: Config, s0: Sys, s: Sys, b: nat, p: S.Packet) returns (t: Sys)
    requires Lively(c, s0) && Got(s0, s, Either) && Below(c, s, b) && P.Quiet(s.pacer)
    requires FromSender(p) in s.net && p.seqno <= s.win.expected && b < 0x1_0000_0000_0000_0000
    ensures Got(s0, t, Either) && Below(c, t, b + Cost(c)) && P.Quiet(t.pacer) && Delivered(s, p, t)
  {
    var u := Arrives(c, s0, s, b, p);
    t := Drains(c, s0, u, b + Cost(c));
    StillAnswers(u, t);
  }

  lemma StillAnswers(s: Sys, t: Sys)
    requires Answers(s, s.win.expected) && s.net <= t.net && t.win == s.win
    ensures Answers(t, t.win.expected)
  {
    var k: W.Ack :| AckMsg(k) in s.net && k.cum == s.win.expected;
    assert AckMsg(k) in t.net;
  }

  // ---------------------------------------------------------------- everything sent is received and answered

  const FIELD: nat := 0x1_0000_0000_0000_0000

  /** What `n` deliveries can add to the pull numbers. */
  function Costs(c: Config, n: nat): nat {
    if n == 0 then 0 else Cost(c) + Costs(c, n - 1)
  }

  lemma BelowMore(c: Config, s: Sys, b: nat, b': nat)
    requires Below(c, s, b) && b <= b'
    ensures Below(c, s, b')
  {
  }

  /** The receiver gets what it lacks, one number after the other. */
  lemma {:induction false} CatchesUp(c: Config, s0: Sys, s: Sys, b: nat, n: nat) returns (t: Sys)
    requires Lively(c, s0) && Got(s0, s, Either) && Below(c, s, b) && P.Quiet(s.pacer)
    requires s.snd.highestSent <= s.win.expected + n && b + Costs(c, n) < FIELD
    ensures Got(s0, t, Either) && Below(c, t, b + Costs(c, n)) && P.Quiet(t.pacer) && t.snd == s.snd
    ensures t.win.expected >= s.snd.highestSent
    decreases n
  {
    if s.win.expected >= s.snd.highestSent {
      t := s;
      BelowMore(c, s, b, b + Costs(c, n));
    } else {
      var p := CopyOf(c, s0, s, s.win.expected);
      t := Delivers(c, s0, s, b, p);
      t := CatchesUp(c, s0, t, b + Cost(c), n - 1);
    }
  }

  lemma CopyOf(c: Config, s0: Sys, s: Sys, q: nat) returns (p: S.Packet)
    requires Lively(c, s0) && Got(s0, s, Either) && q < s.snd.highestSent
    ensures FromSender(p) in s.net && p.seqno == q
  {
    GotLive(c, s0, s);
    assert HasCopy(s, q);
    p :| FromSender(p) in s.net && p.seqno == q;
  }

  lemma CopyWithTarget(c: Config, s0: Sys, s: Sys) returns (p: S.Packet)
    requires Lively(c, s0) && Got(s0, s, Either)
    ensures FromSender(p) in s.net && p.pullTarget == s.snd.pullTarget && p.seqno < s.snd.highestSent
  {
    GotLive(c, s0, s);
    p :| FromSender(p) in s.net && p.pullTarget == s.snd.pullTarget;
    assert MsgOk(FromSender(p), s);
  }

  lemma ExpectsAtMost(c: Config, s0: Sys, s: Sys)
    requires Lively(c, s0) && Got(s0, s, Either)
    ensures s.win.expected <= s.snd.highestSent
  {
    GotLive(c, s0, s);
    W.ExactMeaning(s.win, s.rcv);
    assert s.snd.highestSent !in s.rcv;
  }

  /** The receiver has everything that was sent and has heard of every demand, its pacer has granted all there is to
      grant, and an acknowledgement of it all is under way. */
  ghost predicate AllHeard(s: Sys) {
    && P.Quiet(s.pacer) && ME in s.pacer.credit && s.win.expected == s.snd.highestSent
    && s.pacer.credit[ME].target >= s.snd.pullTarget && Answers(s, s.snd.highestSent)
  }

  lemma HearsAll(c: Config, s0: Sys, s: Sys, b: nat, n: nat) returns (t: Sys)
    requires Lively(c, s0) && Got(s0, s, Either) && Below(c, s, b)
    requires s.snd.highestSent <= s.win.expected + n && b + Costs(c, n + 1) < FIELD
    ensures Got(s0, t, Either) && Below(c, t, b + Costs(c, n + 1)) && t.snd == s.snd && AllHeard(t)
  {
    t := Drains(c, s0, s, b);
    t := CatchesUp(c, s0, t, b, n);
    var p := CopyWithTarget(c, s0, t);
    t := Delivers(c, s0, t, b + Costs(c, n), p);
    ExpectsAtMost(c, s0, t);
  }

  // ---------------------------------------------------------------- acknowledged, paid and called

  lemma AckLeads(s: Sys) returns (k: W.Ack, t: Sys)
    requires Inv(s) && Answers(s, s.snd.highestSent) && !s.snd.done
    ensures Leads(s, AckArrives(k, 0, S.NoCc, false), t)
    ensures t.pacer == s.pacer && t.win == s.win && t.rcv == s.rcv && t.net == s.net
    ensures if s.snd.unsent == 0 then t.snd.done else Cleared(s.snd, t.snd)
  {
    k :| AckMsg(k) in s.net && k.cum == s.snd.highestSent;
    t := LastAckLeads(s, k);
    FinishesExactly(s, k, 0, S.NoCc, false);
  }

  lemma LastAckLeads(s: Sys, k: W.Ack) returns (t: Sys)
    requires Inv(s) && AckMsg(k) in s.net && k.cum == s.snd.highestSent && !s.snd.done
    ensures Leads(s, AckArrives(k, 0, S.NoCc, false), t)
    ensures t.pacer == s.pacer && t.win == s.win && t.rcv == s.rcv && t.net == s.net
    ensures !t.snd.done ==> Cleared(s.snd, t.snd)
  {
    AckKeepsInv(s, k, 0, S.NoCc, false);
    ClearsBooks(s, k);
    t := Next(s, AckArrives(k, 0, S.NoCc, false)).value;
  }

  /** The acknowledgement clears the books. If nothing is left to send, the flow is done. */
  lemma Acknowledges(c: Config, s0: Sys, s: Sys) returns (t: Sys)
    requires Lively(c, s0) && Got(s0, s, Either) && AllHeard(s) && !s.snd.done
    ensures Got(s0, t, Either) && t.pacer == s.pacer && t.win == s.win && t.rcv == s.rcv && t.net == s.net
    ensures if s.snd.unsent == 0 then t.snd.done else Cleared(s.snd, t.snd)
  {
    GotLive(c, s0, s);
    var k;
    k, t := AckLeads(s);
    GotStep(s0, s, AckArrives(k, 0, S.NoCc, false), t, Either);
  }

  /** Nothing is to be resent, and the source is committed. */
  ghost predicate Cleared(s: S.Sender, t: S.Sender) {
    && t.rtx == map[] && !t.speculating && !t.done
    && t.unsent == s.unsent && t.highestSent == s.highestSent && t.pull == s.pull && t.pullTarget == s.pullTarget
  }

  lemma ClearsBooks(s: Sys, k: W.Ack)
    requires Inv(s) && k.cum == s.snd.highestSent && !s.snd.done
    ensures var r := S.ProcessAck(s.snd, k.cum, k.ref, k.bitmap, 0, S.NoCc, false);
            r.Ok? && r.value.1 == [] && (!r.value.0.done ==> Cleared(s.snd, r.value.0))
  {
    I.HandleAckExact(s.snd, k.cum, k.ref, k.bitmap);
    var u := S.HandleAck(s.snd, k.cum, k.ref, k.bitmap);
    assert u.rtx == map[];
  }

  lemma LastPullLeads(s: Sys) returns (t: Sys)
    requires Inv(s) && s.snd.pull < Latest(s) && !s.snd.speculating && s.snd.rtx == map[]
    ensures Leads(s, PullArrives(Latest(s), 0, S.NoCc, false), t)
    ensures t.pacer == s.pacer && t.win == s.win && t.rcv == s.rcv && t.net == s.net && Pulled(s.snd, t.snd)
    ensures t.snd.pull == Latest(s)
  {
    PullKeepsInv(s, Latest(s), 0, S.NoCc, false);
    t := Next(s, PullArrives(Latest(s), 0, S.NoCc, false)).value;
  }

  /** Between `s` and `t` at most credit has come. */
  ghost predicate Pulled(s: S.Sender, t: S.Sender) {
    && t.rtx == map[] && !t.speculating && t.done == s.done && t.unsent == s.unsent
    && t.highestSent == s.highestSent && t.pullTarget == s.pullTarget
  }

  /** The last pull arrives. */
  lemma PulledFully(c: Config, s0: Sys, s: Sys) returns (t: Sys)
    requires Lively(c, s0) && Got(s0, s, Either) && ME in s.pacer.credit && !s.snd.speculating && s.snd.rtx == map[]
    ensures Got(s0, t, Either) && t.pacer == s.pacer && t.win == s.win && t.rcv == s.rcv && t.net == s.net
    ensures t.snd.pull == Latest(t) && Pulled(s.snd, t.snd)
  {
    GotLive(c, s0, s);
    t := s;
    if s.snd.pull < Latest(s) {
      t := LastPullLeads(s);
      GotStep(s0, s, PullArrives(Latest(s), 0, S.NoCc, false), t, Either);
    }
  }

  // ---------------------------------------------------------------- a new packet

  /** How far an announcement can lie beyond the last pull. */
  function Stride(c: Config): nat {
    CeilPositive(c.maxWnd + 2 * (c.mss + S.HDR_SIZE));
    QuantizeCeil(c.maxWnd + 2 * (c.mss + S.HDR_SIZE))
  }

  lemma TargetAtMost(c: Config, s: S.Sender, backlog: int)
    requires s.mss == c.mss && s.maxWnd == c.maxWnd && s.Credit() + s.Mtu() >= 0
    ensures S.ComputePullTarget(s, backlog, S.NoCc).0 <= s.pull + Stride(c)
  {
    var (target, spec) := S.ComputePullTarget(s, backlog, S.NoCc);
    CeilCovers(Want(s, backlog, S.NoCc) - s.creditPull - spec + Unquantize(s.pull));
    CeilCovers(c.maxWnd + 2 * (c.mss + S.HDR_SIZE));
  }

  /** A committed source with credit and nothing to resend sends a new packet when it is called. */
  lemma SendsNew(c: Config, s: S.Sender) returns (t: S.Sender, p: S.Packet)
    requires I.Good(s) && s.mss == c.mss && s.maxWnd == c.maxWnd && !s.speculating && !s.done && s.rtx == map[]
    requires s.unsent > 0 && s.creditPull > 0 && s.Credit() > 0
    ensures S.TimeToSend(s, 0, S.NoCc) == Ok((t, [p]))
    ensures 0 <= t.unsent < s.unsent && t.highestSent == s.highestSent + 1 && t.pull == s.pull
    ensures p.pullTarget <= s.pull + Stride(c)
  {
    var s0 := s.(blocked := false);
    t, p := PaysAndLaunches(c, s0);
    AgainIsOk(t, [p]);
    assert s0.rtx.Keys == {} && S.SendPacket(s0, 0, S.NoCc) == Ok((t, [p]));
    t := S.SendAgain(t, [p], S.NoCc).value.0;
  }

  lemma PaysAndLaunches(c: Config, s: S.Sender) returns (t: S.Sender, p: S.Packet)
    requires I.Good(s) && s.mss == c.mss && s.maxWnd == c.maxWnd && !s.speculating && !s.done
    requires s.unsent > 0 && s.creditPull > 0 && s.Credit() > 0
    ensures S.SendNew(s, 0, S.NoCc) == Ok((t, [p])) && I.Counts(t)
    ensures 0 <= t.unsent < s.unsent && t.highestSent == s.highestSent + 1 && t.pull == s.pull
    ensures p.pullTarget <= s.pull + Stride(c)
  {
    var size := S.NextPayload(s) + S.HDR_SIZE;
    I.SendNewGuards(s);
    I.SpendCreditOk(s, size);
    I.SendNewUnfolds(s, 0, S.NoCc);
    t, p := LaunchesNext(c, S.SpendCredit(s, size).value.s);
  }

  lemma LaunchesNext(c: Config, s: S.Sender) returns (t: S.Sender, p: S.Packet)
    requires I.Good(s) && s.mss == c.mss && s.maxWnd == c.maxWnd && s.unsent > 0 && s.Credit() + s.Mtu() >= 0
    ensures S.LaunchNew(s, S.NextPayload(s), 0, S.NoCc) == Ok((t, [p]))
    ensures 0 <= t.unsent < s.unsent && t.highestSent == s.highestSent + 1 && t.pull == s.pull && I.Counts(t)
    ensures p.pullTarget <= s.pull + Stride(c)
  {
    I.CountsNext(s);
    I.LaunchNewIs(s, 0, S.NoCc);
    var r := S.LaunchNew(s, S.NextPayload(s), 0, S.NoCc).value;
    t, p := r.0, r.1[0];
    TargetAtMost(c, s, s.backlog - S.NextPayload(s) - S.HDR_SIZE);
  }

  lemma AgainIsOk(s: S.Sender, pkts: seq<S.Packet>)
    requires I.Counts(s) && pkts != []
    ensures var o := S.SendAgain(s, pkts, S.NoCc);
            o.Ok? && o.value.1 == pkts && o.value.0 == s.(blocked := o.value.0.blocked)
  {
  }

  lemma IsSettled(c: Config, s: Sys)
    requires Live(c, s) && Ample(c) && s.snd.unsent > 0 && !s.snd.speculating && P.Quiet(s.pacer)
    requires s.win.expected == s.snd.highestSent && s.snd.pull == Latest(s)
    requires s.pacer.credit[ME].target >= s.snd.pullTarget
    ensures s.snd.creditPull > 0 && s.snd.Credit() > 0
  {
    W.ExactMeaning(s.win, s.rcv);
    SettledCanSend(c, s);
  }

  lemma NewLeads(c: Config, s: Sys, b: nat) returns (t: Sys)
    requires Inv(s) && s.snd.mss == c.mss && s.snd.maxWnd == c.maxWnd && !s.snd.speculating && !s.snd.done
    requires s.snd.rtx == map[] && s.snd.unsent > 0 && s.snd.creditPull > 0 && s.snd.Credit() > 0
    requires Below(c, s, b) && s.snd.pull <= b + Limit(c)
    ensures Leads(s, NicReady(0, S.NoCc), t) && t.pacer == s.pacer && t.win == s.win
    ensures 0 <= t.snd.unsent < s.snd.unsent && t.snd.highestSent == s.snd.highestSent + 1
    ensures Below(c, t, b + Limit(c) + Stride(c))
  {
    var snd, p := SendsNew(c, s.snd);
    t := WithSender(s, snd, [p]);
    assert forall q :: FromSender(q) in t.net ==> FromSender(q) in s.net || q == p;
  }

  /** With everything heard, the source is paid, called, and sends on. */
  lemma GoesOn(c: Config, s0: Sys, s: Sys, b: nat) returns (t: Sys)
    requires Lively(c, s0) && Got(s0, s, Either) && AllHeard(s) && Ample(c) && !s.snd.done && s.snd.unsent > 0
    requires Below(c, s, b)
    ensures Got(s0, t, Either) && Below(c, t, b + Limit(c) + Stride(c))
    ensures 0 <= t.snd.unsent < s.snd.unsent && t.snd.highestSent == t.win.expected + 1
  {
    var u := Acknowledges(c, s0, s);
    u := PulledFully(c, s0, u);
    t := Called(c, s0, u, b);
  }

  lemma Called(c: Config, s0: Sys, s: Sys, b: nat) returns (t: Sys)
    requires Lively(c, s0) && Got(s0, s, Either) && Ample(c) && Below(c, s, b) && P.Quiet(s.pacer)
    requires s.win.expected == s.snd.highestSent && s.snd.pull == Latest(s)
    requires s.pacer.credit[ME].target >= s.snd.pullTarget
    requires s.snd.unsent > 0 && !s.snd.speculating && !s.snd.done && s.snd.rtx == map[]
    ensures Got(s0, t, Either) && Below(c, t, b + Limit(c) + Stride(c)) && t.win == s.win
    ensures 0 <= t.snd.unsent < s.snd.unsent && t.snd.highestSent == s.snd.highestSent + 1
  {
    GotLive(c, s0, s);
    IsSettled(c, s);
    t := NewLeads(c, s, b);
    GotStep(s0, s, NicReady(0, S.NoCc), t, Either);
  }

  // ---------------------------------------------------------------- finishing

  /** What it takes at most to send the next packet and get it heard. */
  function Round(c: Config): nat {
    Limit(c) + Stride(c) + 2 * Cost(c)
  }

  function Rounds(c: Config, n: nat): nat {
    if n == 0 then 0 else Round(c) + Rounds(c, n - 1)
  }

  /** One round later there is still room for the others. */
  lemma RoomIsLeft(c: Config, b: nat, n: nat, u: nat)
    requires u > 0 && b + Costs(c, n + 1) + Rounds(c, u) < FIELD
    ensures b + Costs(c, n + 1) + Limit(c) + Stride(c) + Costs(c, 2) + Rounds(c, u - 1) < FIELD
  {
    assert Costs(c, 1) == Cost(c) + Costs(c, 0);
  }

  /** Everything sent is heard and acknowledged, and the next packet goes out, or the flow is done. */
  lemma OneRound(c: Config, s0: Sys, s: Sys, b: nat, n: nat) returns (t: Sys)
    requires Lively(c, s0) && Got(s0, s, Either) && Ample(c) && Below(c, s, b)
    requires !s.snd.done && s.snd.unsent >= 0
    requires s.snd.highestSent <= s.win.expected + n && b + Costs(c, n + 1) < FIELD
    ensures Got(s0, t, Either)
    ensures t.snd.done || (&& 0 <= t.snd.unsent < s.snd.unsent && t.snd.highestSent == t.win.expected + 1
                           && Below(c, t, b + Costs(c, n + 1) + Limit(c) + Stride(c)))
  {
    t := HearsAll(c, s0, s, b, n);
    if s.snd.unsent == 0 {
      t := Acknowledges(c, s0, t);
    } else {
      t := GoesOn(c, s0, t, b + Costs(c, n + 1));
    }
  }

  lemma {:induction false} CostsAre(c: Config, n: nat)
    ensures Costs(c, n) == n * Cost(c) && Rounds(c, n) == n * Round(c)
  {
    if n > 0 {
      CostsAre(c, n - 1);
      assert n * Cost(c) == (n - 1) * Cost(c) + Cost(c) && n * Round(c) == (n - 1) * Round(c) + Round(c);
    }
  }

  /** Pull numbers up to `b`, `n` numbers not received and `u` unsent bytes leave room in the field. */
  ghost predicate Roomy(c: Config, s: Sys, b: nat, n: nat, u: nat) {
    && Below(c, s, b) && s.snd.highestSent <= s.win.expected + n && 0 <= s.snd.unsent <= u
    && b + Costs(c, n + 1) + Rounds(c, u) < FIELD
  }

  lemma RoundLeavesRoom(c: Config, s0: Sys, s: Sys, b: nat, n: nat, u: nat) returns (t: Sys, b': nat)
    requires Lively(c, s0) && Got(s0, s, Either) && Ample(c) && Roomy(c, s, b, n, u) && !s.snd.done
    ensures Got(s0, t, Either) && (t.snd.done || (u > 0 && Roomy(c, t, b', 1, u - 1)))
  {
    b' := b + Costs(c, n + 1) + Limit(c) + Stride(c);
    t := OneRound(c, s0, s, b, n);
    if !t.snd.done {
      RoomIsLeft(c, b, n, u);
    }
  }

  /** Round by round, the rest of the flow is sent, received and acknowledged. */
  lemma {:induction false} Finishes(c: Config, s0: Sys, s: Sys, b: nat, n: nat, u: nat) returns (t: Sys)
    requires Lively(c, s0) && Got(s0, s, Either) && Ample(c) && Roomy(c, s, b, n, u)
    ensures Got(s0, t, Either) && t.snd.done
    decreases u
  {
    t := s;
    if !s.snd.done {
      var b';
      t, b' := RoundLeavesRoom(c, s0, s, b, n, u);
      if !t.snd.done {
        t := Finishes(c, s0, t, b', 1, u - 1);
      }
    }
  }

  // ---------------------------------------------------------------- from the start

  /** The numbers in flight leave room in the 64-bit field for the rest of the flow. */
  ghost predicate Fits(c: Config, s: Sys) {
    s.snd.unsent >= 0 && exists b :: Roomy(c, s, b, s.snd.highestSent, s.snd.unsent)
  }

  /** A live flow has a careful continuation that ends with the flow done. */
  lemma LiveCanFinish(c: Config, s: Sys) returns (rest: seq<Action>)
    requires Live(c, s) && Ample(c) && Countable(c) && Fits(c, s)
    ensures Careful(s, rest, Either) && Run(s, rest).Ok? && Run(s, rest).value.snd.done
  {
    var b :| Roomy(c, s, b, s.snd.highestSent, s.snd.unsent);
    LiveIsLively(c, s);
    GotStart(s, Either);
    var t := Finishes(c, s, s, b, s.snd.highestSent, s.snd.unsent);
    rest :| Careful(s, rest, Either) && Run(s, rest) == Ok(t);
  }

  lemma MessagesPosted(c: Config, s: Sys, pkts: seq<S.Packet>)
    requires s.net == Messages(pkts) && s.sizes == I.Extend([], pkts) && |s.sizes| == s.snd.highestSent > 0
    requires Posts(c, Ready(c), s.snd, pkts) && Countable(c)
    ensures Posted(s)
  {
    forall q: nat | q < s.snd.highestSent ensures HasCopy(s, q) {
      ExtendHasCopies([], pkts, q);
      var p: S.Packet :| p in pkts && p.seqno == q;
      assert FromSender(p) in s.net;
    }
    assert pkts != [];
    assert pkts[|pkts| - 1] in pkts;
    assert FromSender(pkts[|pkts| - 1]) in s.net;
  }

  lemma StartsPosted(c: Config, pacer: P.State<nat>, now: nat, cc: S.Cc, grants: nat)
    requires Awaiting(pacer) && grants > 0 && c.maxWnd > 0 && c.flowSize > 0 && Sane(cc) && Countable(c)
    ensures Init(c, pacer, now, cc, grants).Ok?
    ensures var s := Init(c, pacer, now, cc, grants).value;
            Announced(c, s.snd) && (s.snd.highestSent > 0 ==> Posted(s))
  {
    InitInv(c, pacer, now, cc, grants);
    GrantsAnnounce(c, now, cc, grants);
    var s := Init(c, pacer, now, cc, grants).value;
    var pkts := S.StartFlow(S.Fresh(c.mss, c.maxWnd, c.flowSize), now, cc, grants).value.1;
    if s.snd.highestSent > 0 {
      MessagesPosted(c, s, pkts);
    }
  }

  lemma StartsLive(c: Config, pacer: P.State<nat>, now: nat, cc: S.Cc, grants: nat) returns (s: Sys)
    requires ProgramSizes(c) && Awaiting(pacer) && grants > 0 && Wide(c, cc) && Sane(cc) && Ample(c) && Countable(c)
    requires !(TotalBytes(c) <= c.maxWnd && DataIsLeft(c, grants))
    ensures Init(c, pacer, now, cc, grants) == Ok(s) && Live(c, s)
  {
    s := StartsKept(c, pacer, now, cc, grants);
    Reach.InitFlow(c, pacer, now, cc, grants);
    StartsPosted(c, pacer, now, cc, grants);
    if s.snd.unsent == 0 {
      HasBegun(s);
    }
  }

  lemma HasBegun(s: Sys)
    requires Inv(s) && s.snd.flowSize > 0 && s.snd.unsent == 0
    ensures s.snd.highestSent > 0
  {
    assert s.snd.newSent == 0 ==> s.snd.newSent * s.snd.mss == 0;
  }

  /** From every state that a timely run leads a flow to, some continuation ends with the flow done, and has no mishap
      either. Set apart are flows that fit their initial window and had data left when the card had granted their
      first packets. */
  lemma CanAlwaysFinish(
    c: Config, pacer: P.State<nat>, now: nat, cc: S.Cc, grants: nat, actions: seq<Action>) returns (rest: seq<Action>)
    requires ProgramSizes(c) && Awaiting(pacer) && grants > 0 && Wide(c, cc) && Sane(cc) && Ample(c) && Countable(c)
    requires !(TotalBytes(c) <= c.maxWnd && DataIsLeft(c, grants))
    ensures Init(c, pacer, now, cc, grants).Ok? && Joined(Init(c, pacer, now, cc, grants).value)
    ensures var s := Init(c, pacer, now, cc, grants).value; var o := Run(s, actions);
            StaysInReach(s, actions) && SaneRun(actions) && TimelyRun(s, actions) && o.Ok? && Fits(c, o.value) ==>
              Joined(o.value) && Careful(o.value, rest, Either)
              && Run(o.value, rest).Ok? && Run(o.value, rest).value.snd.done
  {
    var s := StartsLive(c, pacer, now, cc, grants);
    rest := [];
    if StaysInReach(s, actions) && SaneRun(actions) && TimelyRun(s, actions) && Run(s, actions).Ok? {
      RunKeepsLive(c, s, actions);
      if Fits(c, Run(s, actions).value) {
        rest := LiveCanFinish(c, Run(s, actions).value);
      }
    }
  }
}
