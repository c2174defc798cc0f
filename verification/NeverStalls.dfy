/**
A flow that asks for credit is not left without: the slow credit of the idle list, up to a whole window beyond
what was asked for, outlasts whatever speculative credit its source still holds. Exactly two events keep the
receiver from granting that slow credit. With the starvation of small flows this says which flows can come to a
standstill while those two are absent.
 */
module NeverStalls {
  import opened Outcomes
  import opened Quanta
  import opened Cyclic
  import opened Protocol
  import opened OnePacketOut
  import opened CreditLoop
  import opened Starvation
  import opened AsksForCredit
  import S = Sender
  import I = SenderInvariant
  import P = PullPacer
  import W = ReceiveWindow

  // ---------------------------------------------------------------- what the source has announced

  /** No packet is larger than the largest there is. */
  ghost predicate Small(s: S.Sender) {
    && (forall q :: q in s.tx ==> s.tx[q].size <= s.Mtu())
    && (forall q :: q in s.rtx ==> s.rtx[q] <= s.Mtu())
  }

  /** What a source is short of when it is pulled up to its last announcement: at least its backlog, or a packet
      or a window of it, beyond the speculative credit that a first packet leaves. */
  function Owed(c: Config, s: S.Sender, backlog: int): int {
    S.Min(S.Min(backlog, s.Mtu()), c.maxWnd) - (c.maxWnd - FirstSize(c))
  }

  /** What a source may hold. Speculative credit is overdrawn by less than a packet. */
  ghost predicate Holds(c: Config, s: S.Sender) {
    && s.maxWnd == c.maxWnd && s.mss == c.mss && s.creditSpec <= c.maxWnd - FirstSize(c)
    && s.creditPull <= c.maxWnd && s.pull >= INIT_PULL && s.backlog >= 0
    && (c.maxWnd >= FirstSize(c) ==> s.creditSpec + s.Mtu() > 0)
  }

  /** After its first packet a source has announced what it is short of, or holds a full window. */
  ghost predicate Announced(c: Config, s: S.Sender) {
    && Holds(c, s) && Small(s)
    && (s.creditPull == c.maxWnd
        || Unquantize(s.pullTarget) - Unquantize(s.pull) + s.creditPull >= Owed(c, s, s.backlog))
    && (2 * c.maxWnd <= Unquantize(INIT_PULL) ==> s.pullTarget >= 0)
  }

  /** The last packet sent carries the source's last announcement. */
  predicate Posts(c: Config, s: S.Sender, t: S.Sender, pkts: seq<S.Packet>) {
    && t.pullTarget == (if pkts == [] then s.pullTarget else pkts[|pkts| - 1].pullTarget)
    && (2 * c.maxWnd <= Unquantize(INIT_PULL) ==> forall i :: 0 <= i < |pkts| ==> pkts[i].pullTarget >= 0)
  }

  ghost predicate StaysAnnounced(c: Config, s: S.Sender, r: S.Sent) {
    r.Ok? ==> Announced(c, r.value.0) && Posts(c, s, r.value.0, r.value.1)
  }

  lemma PostsTwice(c: Config, s: S.Sender, t: S.Sender, a: seq<S.Packet>, u: S.Sender, b: seq<S.Packet>)
    requires Posts(c, s, t, a) && Posts(c, t, u, b)
    ensures Posts(c, s, u, a + b)
  {
  }

  /** The target covers what is owed, and speculative credit is given up by less than a packet. */
  predicate Fair(c: Config, s: S.Sender, backlog: int, computed: (int, int)) {
    && computed.1 <= c.maxWnd - FirstSize(c) && (c.maxWnd >= FirstSize(c) ==> computed.1 + s.Mtu() > 0)
    && Unquantize(computed.0) - Unquantize(s.pull) + s.creditPull >= Owed(c, s, backlog)
    && (2 * c.maxWnd <= Unquantize(INIT_PULL) ==> computed.0 >= 0)
  }

  /** The target that goes with a packet is announced with it. */
  lemma TargetAnnounced(c: Config, s: S.Sender, backlog: int, cc: S.Cc)
    requires Holds(c, s) && Sane(cc) && backlog >= 0
    ensures Fair(c, s, backlog, S.ComputePullTarget(s, backlog, cc))
  {
    CeilCovers(Want(s, backlog, cc) - s.creditPull - S.ComputePullTarget(s, backlog, cc).1 + Unquantize(s.pull));
  }

  lemma LaunchNewAnnounces(c: Config, s: S.Sender, payload: nat, now: nat, cc: S.Cc)
    requires Holds(c, s) && Small(s) && Sane(cc) && payload <= s.mss
    ensures StaysAnnounced(c, s, S.LaunchNew(s, payload, now, cc))
  {
    var o := S.LaunchNew(s, payload, now, cc);
    if o.Ok? {
      LaunchNewStaysSmall(s, payload, now, cc);
      var computed := S.ComputePullTarget(s, o.value.0.backlog, cc);
      assert computed == (o.value.0.pullTarget, o.value.0.creditSpec);
      TargetAnnounced(c, s, o.value.0.backlog, cc);
      NewTargetAnnounces(c, s, o.value.0);
    }
  }

  lemma LaunchNewStaysSmall(s: S.Sender, payload: nat, now: nat, cc: S.Cc)
    requires Small(s) && payload <= s.mss
    ensures var o := S.LaunchNew(s, payload, now, cc); o.Ok? ==> Small(o.value.0)
  {
  }

  /** A source that announces what it owes has announced it. */
  lemma NewTargetAnnounces(c: Config, s: S.Sender, t: S.Sender)
    requires Holds(c, s) && Small(t) && t.backlog >= 0 && Fair(c, s, t.backlog, (t.pullTarget, t.creditSpec))
    requires t == s.(backlog := t.backlog, unsent := t.unsent, inFlight := t.inFlight, pullTarget := t.pullTarget,
                     creditSpec := t.creditSpec, tx := t.tx, sendTimes := t.sendTimes, highestSent := t.highestSent,
                     newSent := t.newSent)
    ensures Announced(c, t) && (2 * c.maxWnd <= Unquantize(INIT_PULL) ==> t.pullTarget >= 0)
  {
  }

  lemma LaunchRtxAnnounces(c: Config, s: S.Sender, q: nat, size: nat, now: nat, cc: S.Cc)
    requires Holds(c, s) && Small(s) && Sane(cc) && size <= s.Mtu()
    ensures StaysAnnounced(c, s, S.LaunchRtx(s, q, size, now, cc))
  {
    TargetAnnounced(c, s, s.backlog, cc);
  }

  lemma SpendingLowers(c: Config, s: S.Sender, size: nat)
    requires Announced(c, s) && size <= s.Mtu() && S.SpendCredit(s, size).Ok?
    ensures var r := S.SpendCredit(s, size).value;
            && r.s == s.(creditPull := r.s.creditPull, creditSpec := r.s.creditSpec, spent := r.s.spent)
            && Holds(c, r.s) && Small(r.s) && (!r.sent ==> Announced(c, r.s))
  {
    SpendingHolds(c, s, size);
    var r := S.SpendCredit(s, size).value;
    assert Small(r.s);
  }

  lemma SpendingHolds(c: Config, s: S.Sender, size: nat)
    requires Holds(c, s) && size <= s.Mtu() && S.SpendCredit(s, size).Ok?
    ensures var r := S.SpendCredit(s, size).value;
            && r.s == s.(creditPull := r.s.creditPull, creditSpec := r.s.creditSpec, spent := r.s.spent)
            && Holds(c, r.s) && (!r.sent ==> r.s.creditPull == s.creditPull)
  {
  }

  lemma NewAnnounces(c: Config, s: S.Sender, now: nat, cc: S.Cc)
    requires Announced(c, s) && Sane(cc)
    ensures StaysAnnounced(c, s, S.SendNew(s, now, cc))
  {
    if S.NextPayload(s) > 0 {
      var size := S.NextPayload(s) + S.HDR_SIZE;
      if S.SpendCredit(s, size).Ok? {
        SpendingLowers(c, s, size);
        LaunchNewAnnounces(c, S.SpendCredit(s, size).value.s, S.NextPayload(s), now, cc);
      }
    }
  }

  lemma RtxAnnounces(c: Config, s: S.Sender, now: nat, cc: S.Cc)
    requires Announced(c, s) && Sane(cc)
    ensures StaysAnnounced(c, s, S.SendRtx(s, now, cc))
  {
    if s.rtx.Keys != {} {
      var q := S.Least(s.rtx.Keys);
      if S.SpendCredit(s, s.rtx[q]).Ok? {
        SpendingLowers(c, s, s.rtx[q]);
        LaunchRtxAnnounces(c, S.SpendCredit(s, s.rtx[q]).value.s, q, s.rtx[q], now, cc);
      }
    }
  }

  lemma AskingAnnounces(c: Config, s: S.Sender, now: nat, cc: S.Cc, grant: bool)
    requires Announced(c, s) && Sane(cc)
    ensures StaysAnnounced(c, s, S.SendIfPermitted(s, now, cc, grant))
  {
    PacketAnnounces(c, s, now, cc);
  }

  lemma QueueingAnnounces(c: Config, s: S.Sender, q: nat, size: nat, now: nat, cc: S.Cc, grant: bool)
    requires Announced(c, s) && Sane(cc) && size <= s.Mtu()
    ensures StaysAnnounced(c, s, S.QueueForRtx(s, q, size, now, cc, grant))
  {
    AskingAnnounces(c, s.(rtx := s.rtx[q := size]), now, cc, grant);
  }

  lemma AckAnnounces(c: Config, s: S.Sender, k: W.Ack, now: nat, cc: S.Cc, grant: bool)
    requires Announced(c, s) && Sane(cc)
    ensures StaysAnnounced(c, s, S.ProcessAck(s, k.cum, k.ref, k.bitmap, now, cc, grant))
  {
    AskingAnnounces(c, I.Acknowledged(s, k.cum, k.ref, k.bitmap), now, cc, grant);
  }

  lemma DroppingAnnounces(c: Config, s: S.Sender, q: nat)
    requires Announced(c, s)
    ensures var t := S.StopSpeculating(S.Drop(s, {q})); Announced(c, t) && t.pullTarget == s.pullTarget
    ensures S.StopSpeculating(S.Drop(s, {q})).Mtu() == s.Mtu()
  {
    StoppingAnnounces(c, S.Drop(s, {q}));
  }

  lemma QueueingAsksAgain(
    c: Config, s: S.Sender, q: nat, size: nat, now: nat, cc: S.Cc, grant: bool, grant': bool)
    requires Announced(c, s) && Sane(cc) && size <= s.Mtu()
    ensures var r := S.QueueForRtx(s, q, size, now, cc, grant);
            r.Ok? ==> var r' := S.SendIfPermitted(r.value.0, now, cc, grant');
                      StaysAnnounced(c, r.value.0, r') && StaysAnnounced(c, s, r)
                      && (r'.Ok? ==> Posts(c, s, r'.value.0, r.value.1 + r'.value.1))
  {
    QueueingAnnounces(c, s, q, size, now, cc, grant);
    var r := S.QueueForRtx(s, q, size, now, cc, grant);
    if r.Ok? {
      AskingAnnounces(c, r.value.0, now, cc, grant');
      var r' := S.SendIfPermitted(r.value.0, now, cc, grant');
      if r'.Ok? {
        PostsTwice(c, s, r.value.0, r.value.1, r'.value.0, r'.value.1);
      }
    }
  }

  lemma NackAnnounces(c: Config, s: S.Sender, q: nat, now: nat, cc: S.Cc, grant: bool, grant': bool)
    requires Announced(c, s) && Sane(cc)
    ensures StaysAnnounced(c, s, S.ProcessNack(s, q, now, cc, grant, grant'))
  {
    if q in s.tx {
      var s1 := S.StopSpeculating(S.Drop(s, {q}));
      DroppingAnnounces(c, s, q);
      QueueingAsksAgain(c, s1, q, s.tx[q].size, now, cc, grant, grant');
    }
  }

  lemma CreditAnnounces(c: Config, s: S.Sender, n: nat)
    requires Announced(c, s)
    ensures Announced(c, S.HandlePull(s, n)) && S.HandlePull(s, n).pullTarget == s.pullTarget
  {
    if n > s.pull {
      assert Unquantize(n) == Unquantize(s.pull) + Unquantize(n - s.pull);
      GrantAnnounces(c, s, S.HandlePull(s, n), Unquantize(n - s.pull));
    }
  }

  /** A grant pays for what was owed, up to a window. */
  lemma GrantAnnounces(c: Config, s: S.Sender, t: S.Sender, bytes: int)
    requires Announced(c, s) && bytes >= 0 && t == s.(pull := t.pull, creditPull := t.creditPull) && t.pull >= INIT_PULL
    requires t.creditPull == S.Min(s.creditPull + bytes, s.maxWnd)
    requires Unquantize(t.pull) == Unquantize(s.pull) + bytes
    ensures Announced(c, t)
  {
    assert Owed(c, t, t.backlog) == Owed(c, s, s.backlog);
  }

  lemma StoppingAnnounces(c: Config, s: S.Sender)
    requires Announced(c, s)
    ensures Announced(c, S.StopSpeculating(s)) && S.StopSpeculating(s).pullTarget == s.pullTarget
  {
  }

  lemma PullAnnounces(c: Config, s: S.Sender, n: nat, now: nat, cc: S.Cc, grant: bool)
    requires Announced(c, s) && Sane(cc)
    ensures StaysAnnounced(c, s, S.ProcessPull(s, n, now, cc, grant))
  {
    CreditAnnounces(c, s, n);
    StoppingAnnounces(c, S.HandlePull(s, n));
    AskingAnnounces(c, S.StopSpeculating(S.HandlePull(s, n)), now, cc, grant);
  }

  lemma PacketAnnounces(c: Config, s: S.Sender, now: nat, cc: S.Cc)
    requires Announced(c, s) && Sane(cc)
    ensures StaysAnnounced(c, s, S.SendPacket(s, now, cc))
  {
    NewAnnounces(c, s, now, cc);
    RtxAnnounces(c, s, now, cc);
  }

  lemma CardAnnounces(c: Config, s: S.Sender, now: nat, cc: S.Cc)
    requires Announced(c, s) && Sane(cc)
    ensures StaysAnnounced(c, s, S.TimeToSend(s, now, cc))
  {
    var s1 := s.(blocked := false);
    PacketAnnounces(c, s1, now, cc);
    var r := S.SendPacket(s1, now, cc);
    if r.Ok? {
      AgainAnnounces(c, r.value.0, r.value.1, cc);
    }
  }

  /** To ask again changes no announcement. */
  lemma AgainAnnounces(c: Config, s: S.Sender, pkts: seq<S.Packet>, cc: S.Cc)
    requires Announced(c, s)
    ensures var o := S.SendAgain(s, pkts, cc);
            o.Ok? ==> Announced(c, o.value.0) && o.value.0.pullTarget == s.pullTarget && o.value.1 == pkts
  {
  }

  lemma BehindAnnounces(c: Config, s: S.Sender, q: nat, size: nat, now: nat, cc: S.Cc, grant: bool, recent: bool)
    requires Announced(c, s) && Sane(cc) && size <= s.Mtu()
    ensures StaysAnnounced(c, s, S.QueueBehind(s, q, size, now, cc, grant, recent))
  {
    var s1 := S.StopSpeculating(s);
    StoppingAnnounces(c, s);
    QueueingAnnounces(c, s1, q, size, now, cc, grant);
    var r := S.QueueForRtx(s1, q, size, now, cc, grant);
    if r.Ok? {
      RtsAnnounces(c, r.value.0, now, recent);
      var r' := S.SendRts(r.value.0, now, recent);
      if r'.Ok? {
        PostsTwice(c, s1, r.value.0, r.value.1, r'.value.0, r'.value.1);
      }
    }
  }

  lemma AloneAnnounces(
    c: Config, s: S.Sender, q: nat, size: nat, now: nat, cc: S.Cc, grant: bool, grant': bool, recent: bool)
    requires Announced(c, s) && Sane(cc) && size <= s.Mtu()
    ensures StaysAnnounced(c, s, S.QueueAlone(s, q, size, now, cc, grant, grant', recent))
  {
    QueueingAnnounces(c, s, q, size, now, cc, grant);
    var r := S.QueueForRtx(s, q, size, now, cc, grant);
    if r.Ok? {
      AfterTimeoutAnnounces(c, r.value.0, size, now, cc, grant', recent);
      var r' := S.AfterTimeout(r.value.0, size, now, cc, grant', recent);
      if r'.Ok? {
        PostsTwice(c, s, r.value.0, r.value.1, r'.value.0, r'.value.1);
      }
    }
  }

  lemma RtsAnnounces(c: Config, s: S.Sender, now: nat, recent: bool)
    requires Announced(c, s)
    ensures StaysAnnounced(c, s, S.SendRts(s, now, recent))
  {
  }

  lemma AfterTimeoutAnnounces(c: Config, s: S.Sender, size: nat, now: nat, cc: S.Cc, grant: bool, recent: bool)
    requires Announced(c, s) && Sane(cc)
    ensures StaysAnnounced(c, s, S.AfterTimeout(s, size, now, cc, grant, recent))
  {
    RtsAnnounces(c, s, now, recent);
    RtxAnnounces(c, s, now, cc);
  }

  lemma TimeoutAnnounces(c: Config, s: S.Sender, now: nat, cc: S.Cc, grant: bool, grant': bool, recent: bool)
    requires Announced(c, s) && Sane(cc)
    ensures StaysAnnounced(c, s, S.TimerExpired(s, now, cc, grant, grant', recent))
  {
    if s.sendTimes.Keys != {} {
      var t := S.Least(s.sendTimes.Keys);
      var q := s.sendTimes[t];
      if q in s.tx {
        var s1 := s.(sendTimes := s.sendTimes - {t}, tx := s.tx - {q});
        BehindAnnounces(c, s1, q, s.tx[q].size, now, cc, grant, recent);
        AloneAnnounces(c, s1, q, s.tx[q].size, now, cc, grant, grant', recent);
      }
    }
  }

  // ---------------------------------------------------------------- what the receiver has granted

  /** The pacer will see to the receiver's demand and slow credit, or has granted all of that slow credit. */
  predicate Cared(p: P.State<nat>) {
    ME in p.credit
    && (ME in p.active || ME in p.idle || p.credit[ME].SlowCredit() >= p.credit[ME].slowLimit)
  }

  /** The receiver is cared for, or has not asked. */
  ghost predicate Supplied(c: Config, s: Sys) {
    && ME in s.pacer.credit && s.pacer.credit[ME].slowLimit == QuantizeFloor(c.maxWnd)
    && (Cared(s.pacer) || Undemanded(s))
  }

  /** A demand that is heard while retransmission demand is pending lists nobody, and uses up slow credit. */
  predicate Overtaken(p: P.State<nat>, pt: nat) {
    && ME in p.credit && p.credit[ME].retx > 0 && pt > p.credit[ME].target
    && ME !in p.active && ME !in p.idle
    && p.credit[ME].(target := pt).SlowCredit() < p.credit[ME].slowLimit
  }

  /** The packet's pull target is looked at. */
  predicate Heard(s: Sys, a: Action) {
    a.DataArrives? || a.RtsArrives? || (a.DataTrimmed? && !W.Duplicate(s.win, a.pkt.seqno))
  }

  predicate Overtakes(s: Sys, a: Action) {
    Heard(s, a) && Overtaken(s.pacer, Field(a.pkt.pullTarget))
  }

  /** A trimmed packet that asks for nothing is pulled although nothing has been asked for. */
  ghost predicate Unasked(s: Sys, a: Action) {
    && a.DataTrimmed? && Heard(s, a) && Undemanded(s) && Field(a.pkt.pullTarget) <= INIT_PULL
    && s.pacer.credit[ME].slowLimit > 0
  }

  /** A sink that leaves the idle list has its slow credit. */
  lemma TickSupplies(p: P.State<nat>, skip: bool)
    requires P.Inv(p) && p.pending > 0 && ME in p.credit && P.Tick(p, skip).Ok?
    ensures var r := P.Tick(p, skip).value.0;
            && ME in r.credit && r.credit[ME].slowLimit == p.credit[ME].slowLimit
            && (Cared(p) ==> Cared(r))
  {
    assert P.Placed(p, ME);
    if p.rtx != [] {
      HeadOrTail(p.rtx);
    } else if p.active != [] {
      HeadOrTail(p.active);
    } else if p.idle != [] {
      HeadOrTail(p.idle);
    }
  }

  lemma TimerSupplies(c: Config, s: Sys, skip: bool)
    requires Inv(s) && Supplied(c, s) && s.pacer.pending > 0
    ensures PacerStep(s, P.Timer(skip)).Ok? && Supplied(c, PacerStep(s, P.Timer(skip)).value)
  {
    PacerKeepsInv(s, P.Timer(skip));
    TickSupplies(s.pacer, skip);
    if Undemanded(s) {
      PacerSparesUndemanded(s, P.Timer(skip));
    }
  }

  /** What other sinks ask for does not change the receiver's share. */
  lemma OthersLeave(p: P.State<nat>, e: P.Event<nat>)
    requires P.Known(p) && ME in p.credit && P.Enabled(p, e) && OfOthers(e) && P.Step(p, e).Ok?
    ensures var r := P.Step(p, e).value.0; ME in r.credit && r.credit[ME] == p.credit[ME]
  {
    match e
    case Target(k, pt) =>
    case Trimmed(k, pt, amount) =>
      assert P.HandlePullTarget(p, k, pt).Ok?;
    case Rts(k, pt, amount) =>
      assert P.HandlePullTarget(p, k, pt).Ok?;
    case Join(_, _) =>
  }

  lemma OthersSupply(c: Config, s: Sys, e: P.Event<nat>)
    requires Inv(s) && Supplied(c, s) && P.Enabled(s.pacer, e) && OfOthers(e)
    ensures PacerStep(s, e).Ok? && Supplied(c, PacerStep(s, e).value)
  {
    PacerKeepsInv(s, e);
    OthersGrow(s.pacer, e);
    OthersLeave(s.pacer, e);
    if Undemanded(s) {
      PacerSparesUndemanded(s, e);
    }
  }

  /** An announcement leaves a receiver cared for unless it is overtaken, and lists it if it asks for more
      while nothing is to be resent. */
  lemma TargetCaresIff(p: P.State<nat>, pt: nat)
    requires P.Inv(p) && ME in p.credit
    ensures P.HandlePullTarget(p, ME, pt).Ok?
    ensures var r := P.HandlePullTarget(p, ME, pt).value;
            && ME in r.credit && r.credit[ME].slowLimit == p.credit[ME].slowLimit
            && r.credit[ME].retx == p.credit[ME].retx
            && (Cared(p) ==> (Cared(r) <==> !Overtaken(p, pt)))
            && (p.credit[ME].retx == 0 && pt > p.credit[ME].target ==> ME in r.active)
  {
    P.TargetKeepsInv(p, ME, pt);
    assert P.Placed(p, ME);
  }

  lemma TrimmedCaresIff(p: P.State<nat>, pt: nat, amount: nat)
    requires P.Inv(p) && ME in p.credit && amount > 0
    ensures P.TrimmedDemand(p, ME, pt, amount).Ok?
    ensures var r := P.TrimmedDemand(p, ME, pt, amount).value;
            && ME in r.credit && r.credit[ME].slowLimit == p.credit[ME].slowLimit && r.credit[ME].retx > 0
            && (Cared(p) ==> (Cared(r) <==> !Overtaken(p, pt)))
            && (Unlisted(p, ME) && p.credit[ME].SlowCredit() < p.credit[ME].slowLimit ==>
                  (Cared(r) <==> pt > p.credit[ME].target))
  {
    P.TrimmedKeepsInv(p, ME, pt, amount);
    TargetCaresIff(p, pt);
    assert P.Placed(p, ME);
  }

  lemma RtsCaresIff(p: P.State<nat>, pt: nat, amount: nat)
    requires P.Inv(p) && ME in p.credit && amount > 0
    ensures P.RtsDemand(p, ME, pt, amount).Ok?
    ensures var r := P.RtsDemand(p, ME, pt, amount).value;
            && ME in r.credit && r.credit[ME].slowLimit == p.credit[ME].slowLimit && r.credit[ME].retx > 0
            && (Cared(p) ==> (Cared(r) <==> !Overtaken(p, pt)))
            && (p.credit[ME].retx == 0 ==> Cared(r))
  {
    P.RtsKeepsInv(p, ME, pt, amount);
    TargetCaresIff(p, pt);
    assert P.Placed(p, ME);
    AddRtsCares(P.HandlePullTarget(p, ME, pt).value, amount);
  }

  lemma AddRtsCares(p: P.State<nat>, amount: nat)
    requires ME in p.credit && amount > 0 && P.AddRtsDemand(p, ME, amount).Ok?
    requires p.credit[ME].inPull ==> ME in p.active
    ensures var r := P.AddRtsDemand(p, ME, amount).value;
            && ME in r.credit && r.credit[ME].slowLimit == p.credit[ME].slowLimit && r.credit[ME].retx > 0
            && (Cared(r) <==> Cared(p) || p.credit[ME].retx == 0)
  {
  }

  lemma DataSuppliesIff(c: Config, s: Sys, p: S.Packet, ecn: bool)
    requires Inv(s) && Supplied(c, s) && Enabled(s, DataArrives(p, ecn)) && InReach(s, DataArrives(p, ecn))
    ensures TakeData(s, p, ecn).Ok?
    ensures Supplied(c, TakeData(s, p, ecn).value) <==> !Overtakes(s, DataArrives(p, ecn))
  {
    var t := DataLeads(s, p, ecn);
    TargetCaresIff(s.pacer, Field(p.pullTarget));
    if Undemanded(s) {
      TargetDemandsIff(s, Field(p.pullTarget), t);
    }
  }

  lemma TrimmedSuppliesIff(c: Config, s: Sys, p: S.Packet)
    requires Inv(s) && Supplied(c, s) && Enabled(s, DataTrimmed(p)) && InReach(s, DataTrimmed(p))
    ensures TakeTrimmed(s, p).Ok?
    ensures Supplied(c, TakeTrimmed(s, p).value)
            <==> !Overtakes(s, DataTrimmed(p)) && !Unasked(s, DataTrimmed(p))
  {
    TrimKeepsInv(s, p);
    if W.Duplicate(s.win, p.seqno) {
      if Undemanded(s) {
        TrimmedDemandsIff(s, p);
      }
    } else {
      TrimmedCaresIff(s.pacer, Field(p.pullTarget), RtxDemand(s.snd));
    }
  }

  lemma RtsSuppliesIff(c: Config, s: Sys, p: S.Packet, ecn: bool)
    requires Inv(s) && Supplied(c, s) && Enabled(s, RtsArrives(p, ecn)) && InReach(s, RtsArrives(p, ecn))
    ensures TakeRts(s, p, ecn).Ok?
    ensures Supplied(c, TakeRts(s, p, ecn).value) <==> !Overtakes(s, RtsArrives(p, ecn))
  {
    Protocol.RtsKeepsInv(s, p, ecn);
    RtsCaresIff(s.pacer, Field(p.pullTarget), RtxDemand(s.snd));
  }

  /** Exactly two things take a receiver's supply away: a demand that overtakes a trimmed packet, and a trimmed
      packet before any demand. Both are guards on the state before. */
  lemma SuppliedIff(c: Config, s: Sys, a: Action)
    requires Inv(s) && Supplied(c, s) && Enabled(s, a) && InReach(s, a) && Next(s, a).Ok?
    ensures Supplied(c, Next(s, a).value) <==> !Overtakes(s, a) && !Unasked(s, a)
  {
    match a
    case DataArrives(p, ecn) => DataSuppliesIff(c, s, p, ecn);
    case DataTrimmed(p) => TrimmedSuppliesIff(c, s, p);
    case RtsArrives(p, ecn) => RtsSuppliesIff(c, s, p, ecn);
    case PacerTimer(skip) => TimerSupplies(c, s, skip);
    case Others(e) => OthersSupply(c, s, e);
    case AckArrives(_, _, _, _) => SenderSupplies(c, s, a);
    case NackArrives(_, _, _, _, _) => SenderSupplies(c, s, a);
    case PullArrives(_, _, _, _) => SenderSupplies(c, s, a);
    case Timeout(_, _, _, _, _) => SenderSupplies(c, s, a);
    case NicReady(_, _) => SenderSupplies(c, s, a);
  }

  lemma SenderSupplies(c: Config, s: Sys, a: Action)
    requires Inv(s) && Supplied(c, s) && Enabled(s, a) && Next(s, a).Ok?
    requires OwnEvent(a) || a.AckArrives? || a.PullArrives?
    ensures Supplied(c, Next(s, a).value)
  {
    SenderKeepsPacer(s, a);
    if Undemanded(s) {
      UndemandedIff(s, a);
    }
  }

  // ---------------------------------------------------------------- a flow that asks

  /** Everything that was sent has arrived, the last announcement has been heard, every pull has arrived and
      none is due. */
  ghost predicate Settled(s: Sys) {
    && Inv(s) && s.snd.unsent > 0 && !s.snd.speculating
    && (forall q :: 0 <= q < s.snd.highestSent ==> q in s.rcv)
    && s.pacer.credit[ME].target >= s.snd.pullTarget
    && s.snd.pull == Latest(s) && Unlisted(s.pacer, ME)
  }

  /** A source with data left and no pulled credit then waits for ever. */
  ghost predicate Stalled(s: Sys) {
    Settled(s) && s.snd.creditPull <= 0
  }

  /** A flow of more than one packet that has begun and asks for credit. */
  ghost predicate Asking(c: Config, s: Sys) {
    Inv(s) && WillAsk(s) && Announced(c, s.snd) && c.flowSize > c.mss && c.maxWnd > 0
  }

  /** It comes to a standstill only with slow credit missing. Packets of at least one quantum make up for what
      rounding takes away. */
  lemma StalledLacksCredit(c: Config, s: Sys)
    requires Asking(c, s) && Stalled(s) && c.mss + S.HDR_SIZE >= PULL_QUANTUM
    ensures s.pacer.credit[ME].SlowCredit() < QuantizeFloor(c.maxWnd) && !Undemanded(s)
  {
    assert P.Placed(s.pacer, ME);
    if s.pacer.credit[ME].SlowCredit() >= QuantizeFloor(c.maxWnd) {
      LedgerCloses(c, s.snd, s.pacer.credit[ME]);
    }
  }

  /** A whole window beyond the last target is more than an unpaid source can have done without. */
  lemma LedgerCloses(c: Config, s: S.Sender, credit: P.Credit)
    requires Announced(c, s) && I.Counts(s) && s.unsent > 0 && c.flowSize > c.mss && c.maxWnd > 0
    requires c.mss + S.HDR_SIZE >= PULL_QUANTUM
    requires credit.target >= s.pullTarget && s.pull == credit.latest && credit.Backlog() == 0
    requires credit.SlowCredit() >= QuantizeFloor(c.maxWnd)
    ensures s.creditPull > 0
  {
    I.CeilDivStep(s.unsent, s.mss);
  }

  /** The source has moved on and sent packets, the last of which carries its announcement. */
  ghost predicate Sends(c: Config, s: Sys, t: Sys) {
    exists pkts :: t == WithSender(s, t.snd, pkts) && Posts(c, s.snd, t.snd, pkts)
  }

  lemma SourceAnnounces(c: Config, s: Sys, a: Action)
    requires Announced(c, s.snd) && Joined(s) && Enabled(s, a) && Next(s, a).Ok? && SaneAction(a)
    requires OwnEvent(a) || a.AckArrives? || a.PullArrives?
    ensures Announced(c, Next(s, a).value.snd) && Sends(c, s, Next(s, a).value)
  {
    match a
    case AckArrives(k, now, cc, grant) => AckAnnounces(c, s.snd, k, now, cc, grant);
    case NackArrives(q, now, cc, grant, grant') => NackAnnounces(c, s.snd, q, now, cc, grant, grant');
    case PullArrives(n, now, cc, grant) => PullAnnounces(c, s.snd, n, now, cc, grant);
    case Timeout(now, cc, grant, grant', recent) => TimeoutAnnounces(c, s.snd, now, cc, grant, grant', recent);
    case NicReady(now, cc) => CardAnnounces(c, s.snd, now, cc);
  }

  lemma EventAnnounces(c: Config, s: Sys, a: Action)
    requires Announced(c, s.snd) && Joined(s) && Enabled(s, a) && Next(s, a).Ok? && SaneAction(a)
    ensures Announced(c, Next(s, a).value.snd)
  {
    if OwnEvent(a) || a.AckArrives? || a.PullArrives? {
      SourceAnnounces(c, s, a);
    } else {
      SinkKeepsSender(s, a);
    }
  }

  lemma NextKeepsAsking(c: Config, s: Sys, a: Action)
    requires Asking(c, s) && Enabled(s, a) && InReach(s, a) && Next(s, a).Ok? && SaneAction(a)
    ensures Asking(c, Next(s, a).value)
  {
    NextKeepsInv(s, a);
    NextStillAsks(s, a);
    EventAnnounces(c, s, a);
  }

  // ---------------------------------------------------------------- from the start

  /** The first packet leaves its size less of speculative credit. */
  lemma FirstAnnounces(c: Config, now: nat, cc: S.Cc)
    requires c.maxWnd > 0 && c.flowSize > 0 && Sane(cc)
    ensures S.SendNew(Ready(c), now, cc).Ok? && StaysAnnounced(c, Ready(c), S.SendNew(Ready(c), now, cc))
  {
    SendsFirst(c, Ready(c), now, cc);
    I.SendNewGuards(Ready(c)) by {
      I.ReadyToStartGood(c.mss, c.maxWnd, c.flowSize);
    }
    I.SendNewUnfolds(Ready(c), now, cc);
    var t := S.SpendCredit(Ready(c), FirstSize(c)).value.s;
    LaunchNewAnnounces(c, t, FirstPayload(c), now, cc);
  }

  lemma {:induction false} StartAnnounces(c: Config, s: S.Sender, now: nat, cc: S.Cc, n: nat)
    requires Announced(c, s) && Sane(cc)
    ensures StaysAnnounced(c, s, S.StartLoop(s, now, cc, n))
    decreases n
  {
    NewAnnounces(c, s, now, cc);
    if n > 0 && S.SendNew(s, now, cc).Ok? {
      StartAnnounces(c, S.SendNew(s, now, cc).value.0, now, cc, n - 1);
      StartsOneMore(c, s, now, cc, n);
    }
  }

  lemma StartsOneMore(c: Config, s: S.Sender, now: nat, cc: S.Cc, n: nat)
    requires n > 0 && S.SendNew(s, now, cc).Ok?
    requires var r := S.SendNew(s, now, cc).value;
             Posts(c, s, r.0, r.1) && StaysAnnounced(c, r.0, S.StartLoop(r.0, now, cc, n - 1))
    ensures s.Credit() > 0 && s.unsent > 0 ==> StaysAnnounced(c, s, S.StartLoop(s, now, cc, n))
  {
    if s.Credit() > 0 && s.unsent > 0 && S.StartLoop(s, now, cc, n).Ok? {
      S.StartLoopUnfolds(s, now, cc, n);
      var r := S.SendNew(s, now, cc).value;
      var rest := S.StartLoop(r.0, now, cc, n - 1).value;
      PostsTwice(c, s, r.0, r.1, rest.0, rest.1);
    }
  }

  lemma GrantsAnnounce(c: Config, now: nat, cc: S.Cc, n: nat)
    requires c.maxWnd > 0 && c.flowSize > 0 && n > 0 && Sane(cc)
    ensures StaysAnnounced(c, Ready(c), S.StartLoop(Ready(c), now, cc, n))
  {
    FirstAnnounces(c, now, cc);
    StartAnnounces(c, S.SendNew(Ready(c), now, cc).value.0, now, cc, n - 1);
    StartsOneMore(c, Ready(c), now, cc, n);
  }

  lemma StartsSupplied(c: Config, pacer: P.State<nat>, now: nat, cc: S.Cc, n: nat)
    requires Awaiting(pacer)
    ensures Init(c, pacer, now, cc, n).Ok? && Supplied(c, Init(c, pacer, now, cc, n).value)
  {
    StartsUndemanded(c, pacer, now, cc, n);
  }

  // ---------------------------------------------------------------- exactly which flows stall

  /** A flow has not begun, asks for credit, or has nothing left to send. */
  ghost predicate Kept(c: Config, s: Sys) {
    Inv(s) && (Before(c, s) || Asking(c, s) || s.snd.unsent == 0)
  }

  lemma KeptStallsUnsupplied(c: Config, s: Sys)
    requires Kept(c, s) && Stalled(s) && c.mss + S.HDR_SIZE >= PULL_QUANTUM
    ensures s.pacer.credit[ME].SlowCredit() < QuantizeFloor(c.maxWnd) && !Supplied(c, s)
  {
    StalledLacksCredit(c, s);
  }

  lemma FirstCallBackAnnounces(c: Config, s: S.Sender, now: nat, cc: S.Cc)
    requires s == Ready(c).(blocked := s.blocked) && Sane(cc)
    ensures var o := S.TimeToSend(s, now, cc); o.Ok? && (o.value.1 != [] ==> c.maxWnd > 0 && Announced(c, o.value.0))
  {
    FirstCallBackSends(c, s, now, cc);
    assert s.(blocked := false) == Ready(c);
    if c.maxWnd > 0 && c.flowSize > 0 {
      FirstAnnounces(c, now, cc);
      var r := S.SendNew(Ready(c), now, cc).value;
      AgainAnnounces(c, r.0, r.1, cc);
    }
  }

  lemma CallBackKeeps(c: Config, s: Sys, now: nat, cc: S.Cc)
    requires Before(c, s) && FirstSuffices(c) && ProgramSizes(c) && Sane(cc)
    requires c.maxWnd > 0 ==> Wide(c, cc)
    ensures var o := Next(s, NicReady(now, cc)); o.Ok? && Kept(c, o.value)
  {
    CallBackFeeds(c, s, now, cc);
    var r := CallBackAnnounces(c, s, now, cc);
    FedIsKept(c, Next(s, NicReady(now, cc)).value);
  }

  lemma CallBackAnnounces(c: Config, s: Sys, now: nat, cc: S.Cc) returns (r: S.Sender)
    requires Before(c, s) && FirstSuffices(c) && Sane(cc) && Next(s, NicReady(now, cc)).Ok?
    ensures r == Next(s, NicReady(now, cc)).value.snd && BegunAnnounces(c, r)
  {
    FirstCallBackAnnounces(c, s.snd, now, cc);
    FirstCallBackSends(c, s.snd, now, cc);
    r := S.TimeToSend(s.snd, now, cc).value.0;
  }

  /** The source has announced what it is short of, if it has begun and not sent all of its data. */
  ghost predicate BegunAnnounces(c: Config, r: S.Sender) {
    r.highestSent > 0 && r.unsent > 0 ==> Announced(c, r) && c.flowSize > c.mss && c.maxWnd > 0
  }

  lemma FedIsKept(c: Config, t: Sys)
    requires Fed(c, t) && BegunAnnounces(c, t.snd)
    ensures Kept(c, t)
  {
  }

  lemma NextKeepsKept(c: Config, s: Sys, a: Action)
    requires Kept(c, s) && Enabled(s, a) && InReach(s, a) && Next(s, a).Ok? && SaneAction(a)
    requires s.snd.highestSent == 0 && s.snd.unsent > 0 ==>
               FirstSuffices(c) && ProgramSizes(c) && (a.NicReady? && c.maxWnd > 0 ==> Wide(c, a.cc))
    ensures Kept(c, Next(s, a).value)
  {
    NextKeepsInv(s, a);
    if s.snd.unsent == 0 {
      UnsentNeverGrows(s, a);
      assert I.Counts(Next(s, a).value.snd);
    } else if Asking(c, s) {
      NextKeepsAsking(c, s, a);
    } else if a.NicReady? {
      CallBackKeeps(c, s, a.now, a.cc);
    } else {
      PacerKeepsBeforeAny(c, s, a);
    }
  }

  lemma PacerKeepsBeforeAny(c: Config, s: Sys, a: Action)
    requires Before(c, s) && Enabled(s, a) && !a.NicReady? && Next(s, a).Ok?
    ensures Before(c, Next(s, a).value)
  {
    match a
    case PacerTimer(skip) => PacerKeepsBefore(c, s, P.Timer(skip));
    case Others(e) => PacerKeepsBefore(c, s, e);
  }

  predicate SaneRun(actions: seq<Action>) {
    forall i :: 0 <= i < |actions| ==> SaneAction(actions[i])
  }

  lemma ProgressNeverUndone(s: Sys, a: Action)
    requires Inv(s) && Enabled(s, a) && InReach(s, a) && Next(s, a).Ok?
    ensures var t := Next(s, a).value; Inv(t) && t.snd.highestSent >= s.snd.highestSent && t.snd.unsent <= s.snd.unsent
  {
    NextKeepsInv(s, a);
    SizesGrow(s, a);
    UnsentNeverGrows(s, a);
  }

  lemma {:induction false} RunKeepsKept(c: Config, s: Sys, actions: seq<Action>)
    requires Kept(c, s) && StaysInReach(s, actions) && SaneRun(actions) && OpensWell(c, s, actions)
    ensures Run(s, actions).Ok? ==> Kept(c, Run(s, actions).value)
    decreases |actions|
  {
    if actions == [] {
    } else if !Enabled(s, actions[0]) {
      RunKeepsKept(c, s, actions[1..]);
    } else if Next(s, actions[0]).Ok? {
      NextKeepsKept(c, s, actions[0]);
      ProgressNeverUndone(s, actions[0]);
      RunKeepsKept(c, Next(s, actions[0]).value, actions[1..]);
    }
  }

  /** No action of the run takes the receiver's supply away. */
  ghost predicate TimelyRun(s: Sys, actions: seq<Action>)
    requires Joined(s)
    decreases |actions|
  {
    if actions == [] then true
    else if !Enabled(s, actions[0]) then TimelyRun(s, actions[1..])
    else
      !Overtakes(s, actions[0]) && !Unasked(s, actions[0]) &&
      var o := Next(s, actions[0]);
      o.Ok? ==> (StaysJoined(s, actions[0]); TimelyRun(o.value, actions[1..]))
  }

  lemma {:induction false} RunKeepsSupplied(c: Config, s: Sys, actions: seq<Action>)
    requires Inv(s) && Supplied(c, s) && StaysInReach(s, actions) && TimelyRun(s, actions)
    ensures Run(s, actions).Ok? ==> Supplied(c, Run(s, actions).value)
    decreases |actions|
  {
    if actions == [] {
    } else if !Enabled(s, actions[0]) {
      RunKeepsSupplied(c, s, actions[1..]);
    } else if Next(s, actions[0]).Ok? {
      NextKeepsInv(s, actions[0]);
      SuppliedIff(c, s, actions[0]);
      RunKeepsSupplied(c, Next(s, actions[0]).value, actions[1..]);
    }
  }

  /** While nothing takes the supply away, a flow that has not begun, asks or has nothing left never stalls. */
  lemma KeptNeverStalls(c: Config, s: Sys, actions: seq<Action>)
    requires Kept(c, s) && Supplied(c, s) && StaysInReach(s, actions) && OpensWell(c, s, actions)
    requires SaneRun(actions) && TimelyRun(s, actions) && c.mss + S.HDR_SIZE >= PULL_QUANTUM
    ensures Run(s, actions).Ok? ==> !Stalled(Run(s, actions).value)
  {
    RunKeepsKept(c, s, actions);
    RunKeepsSupplied(c, s, actions);
    if Run(s, actions).Ok? && Stalled(Run(s, actions).value) {
      KeptStallsUnsupplied(c, Run(s, actions).value);
    }
  }

  /** A flow of more than one packet whose first packet asks for credit, whatever the windows and the card do:
      without the two events it does not come to a standstill, and with them only for want of slow credit. */
  lemma AskingFlowsNeverStall(
    c: Config, pacer: P.State<nat>, now: nat, cc: S.Cc, grants: nat, actions: seq<Action>)
    requires c.maxWnd > 0 && c.flowSize > c.mss && grants > 0 && Awaiting(pacer) && Sane(cc)
    requires Field(FirstPacket(c, cc).pullTarget) > INIT_PULL && c.mss + S.HDR_SIZE >= PULL_QUANTUM
    ensures Init(c, pacer, now, cc, grants).Ok? && Joined(Init(c, pacer, now, cc, grants).value)
    ensures var s := Init(c, pacer, now, cc, grants).value; var o := Run(s, actions);
            StaysInReach(s, actions) && SaneRun(actions) && o.Ok? && Stalled(o.value) ==>
              !TimelyRun(s, actions) && o.value.pacer.credit[ME].SlowCredit() < QuantizeFloor(c.maxWnd)
  {
    var s := StartsAsking(c, pacer, now, cc, grants);
    StartsSupplied(c, pacer, now, cc, grants);
    GrantsAnnounce(c, now, cc, grants);
    if StaysInReach(s, actions) && SaneRun(actions) && Run(s, actions).Ok? && Stalled(Run(s, actions).value) {
      RunKeepsKept(c, s, actions);
      KeptStallsUnsupplied(c, Run(s, actions).value);
      if TimelyRun(s, actions) {
        KeptNeverStalls(c, s, actions);
      }
    }
  }

  lemma StartsKept(c: Config, pacer: P.State<nat>, now: nat, cc: S.Cc, grants: nat) returns (s: Sys)
    requires ProgramSizes(c) && Awaiting(pacer) && (grants > 0 ==> Wide(c, cc) && Sane(cc))
    requires !(TotalBytes(c) <= c.maxWnd && DataIsLeft(c, grants))
    ensures Init(c, pacer, now, cc, grants) == Ok(s) && Kept(c, s) && Supplied(c, s)
    ensures s.snd.highestSent == 0 && s.snd.unsent > 0 && c.maxWnd > 0 ==> grants == 0
    ensures s.snd.highestSent == 0 && s.snd.unsent > 0 ==> FirstSuffices(c)
  {
    s := StartsFed(c, pacer, now, cc, grants);
    StartsSupplied(c, pacer, now, cc, grants);
    if WillAsk(s) {
      WillAskHasStarted(c, pacer, now, cc, grants, s);
      GrantsAnnounce(c, now, cc, grants);
      if c.flowSize <= c.mss {
        OneGrantSuffices(c, now, cc, grants);
      }
    }
  }

  lemma WillAskHasStarted(c: Config, pacer: P.State<nat>, now: nat, cc: S.Cc, grants: nat, s: Sys)
    requires Init(c, pacer, now, cc, grants) == Ok(s) && s.snd.highestSent > 0
    ensures c.maxWnd > 0 && c.flowSize > 0 && grants > 0
  {
    if c.maxWnd == 0 || c.flowSize == 0 || grants == 0 {
      S.StartLoopEnds(Ready(c), now, cc, grants);
    }
  }

  lemma OneGrantSuffices(c: Config, now: nat, cc: S.Cc, grants: nat)
    requires c.maxWnd > 0 && 0 < c.flowSize <= c.mss && grants > 0
    ensures S.StartLoop(Ready(c), now, cc, grants).Ok? ==> S.StartLoop(Ready(c), now, cc, grants).value.0.unsent == 0
  {
    if S.StartLoop(Ready(c), now, cc, grants).Ok? {
      SendsFirst(c, Ready(c), now, cc);
      S.StartLoopUnfolds(Ready(c), now, cc, grants);
      S.StartLoopEnds(S.SendNew(Ready(c), now, cc).value.0, now, cc, grants - 1);
    }
  }

  /** The run `actions` is timely and ends at a standstill. */
  ghost predicate Stalls(s: Sys, actions: seq<Action>) {
    && Joined(s) && StaysInReach(s, actions) && SaneRun(actions) && TimelyRun(s, actions)
    && Run(s, actions).Ok? && Stalled(Run(s, actions).value)
  }

  /** A starved flow that has asked for nothing stands still. */
  lemma StarvedIsStalled(s: Sys)
    requires Starved(s) && s.snd.pullTarget <= INIT_PULL
    ensures Stalled(s)
  {
  }

  /** The card's first call-backs find a wide window, if the flow has not begun. */
  predicate Opens(c: Config, grants: nat, actions: seq<Action>) {
    grants == 0 ==> OpensWide(c, actions)
  }

  /** The windows at the start are wide and not negative, and packets have at least a quantum. */
  ghost predicate StartsWell(c: Config, pacer: P.State<nat>, cc: S.Cc, grants: nat) {
    && ProgramSizes(c) && Awaiting(pacer) && (grants > 0 ==> Wide(c, cc) && Sane(cc))
    && c.mss + S.HDR_SIZE >= PULL_QUANTUM
  }

  /** Some timely run brings a flow to a standstill if and only if the flow with its headers fits the initial
      window and data is left when the card has granted its first packets. */
  lemma StallsIff(c: Config, pacer: P.State<nat>, now: nat, cc: S.Cc, grants: nat)
    requires StartsWell(c, pacer, cc, grants)
    ensures Init(c, pacer, now, cc, grants).Ok?
    ensures (exists actions :: Stalls(Init(c, pacer, now, cc, grants).value, actions) && Opens(c, grants, actions))
            <==> TotalBytes(c) <= c.maxWnd && DataIsLeft(c, grants)
  {
    InitInv(c, pacer, now, cc, grants);
    var s := Init(c, pacer, now, cc, grants).value;
    if TotalBytes(c) <= c.maxWnd && DataIsLeft(c, grants) {
      var actions := TimelyStarvingRun(c, pacer, now, cc, grants, s);
      assert Stalls(s, actions);
    } else {
      forall actions | Stalls(s, actions) && Opens(c, grants, actions) ensures false {
        RunKeepsSuppliedFromStart(c, pacer, now, cc, grants, actions);
        StallsUnsupplied(c, pacer, now, cc, grants, actions);
      }
    }
  }

  lemma TimelyStarvingRun(c: Config, pacer: P.State<nat>, now: nat, cc: S.Cc, grants: nat, s: Sys)
    returns (actions: seq<Action>)
    requires ProgramSizes(c) && Awaiting(pacer) && (grants > 0 ==> Wide(c, cc))
    requires Init(c, pacer, now, cc, grants) == Ok(s) && TotalBytes(c) <= c.maxWnd && DataIsLeft(c, grants)
    ensures Stalls(s, actions) && Opens(c, grants, actions)
  {
    actions := StarvingRun(c, pacer, now, cc, grants, s);
    NothingToResend(c, pacer, now, cc, grants);
    PlainStarvingIsStalling(s, actions);
  }

  lemma PlainStarvingIsStalling(s: Sys, actions: seq<Action>)
    requires Inv(s) && s.pacer.credit[ME].retx == 0 && StarvesPlainly(s, actions)
    ensures Stalls(s, actions)
  {
    StarvedIsStalled(Run(s, actions).value);
    PlainIsTimely(s, actions);
  }

  lemma RunKeepsSuppliedFromStart(
    c: Config, pacer: P.State<nat>, now: nat, cc: S.Cc, grants: nat, actions: seq<Action>)
    requires Awaiting(pacer)
    ensures Init(c, pacer, now, cc, grants).Ok? && Joined(Init(c, pacer, now, cc, grants).value)
    ensures var s := Init(c, pacer, now, cc, grants).value;
            StaysInReach(s, actions) && TimelyRun(s, actions) && Run(s, actions).Ok? ==>
              Supplied(c, Run(s, actions).value)
  {
    InitInv(c, pacer, now, cc, grants);
    StartsSupplied(c, pacer, now, cc, grants);
    var s := Init(c, pacer, now, cc, grants).value;
    if StaysInReach(s, actions) && TimelyRun(s, actions) {
      RunKeepsSupplied(c, s, actions);
    }
  }

  /** Over every run, packets trimmed or not: a flow that does not fit its initial window, or has sent all of its
      data at the start, comes to a standstill only with slow credit missing. */
  lemma StallsUnsupplied(c: Config, pacer: P.State<nat>, now: nat, cc: S.Cc, grants: nat, actions: seq<Action>)
    requires StartsWell(c, pacer, cc, grants) && Opens(c, grants, actions)
    requires !(TotalBytes(c) <= c.maxWnd && DataIsLeft(c, grants))
    ensures Init(c, pacer, now, cc, grants).Ok? && Joined(Init(c, pacer, now, cc, grants).value)
    ensures var s := Init(c, pacer, now, cc, grants).value; var o := Run(s, actions);
            StaysInReach(s, actions) && SaneRun(actions) && o.Ok? && Stalled(o.value) ==>
              && o.value.pacer.credit[ME].SlowCredit() < QuantizeFloor(c.maxWnd)
              && !Supplied(c, o.value)
  {
    var s := StartsKept(c, pacer, now, cc, grants);
    if StaysInReach(s, actions) && SaneRun(actions) && Run(s, actions).Ok? && Stalled(Run(s, actions).value) {
      RunKeepsKept(c, s, actions);
      KeptStallsUnsupplied(c, Run(s, actions).value);
    }
  }

  // ---------------------------------------------------------------- plain runs are timely

  /** Nothing is ever to be resent in a plain run. */
  lemma NextKeepsNoRetx(s: Sys, a: Action)
    requires Inv(s) && s.pacer.credit[ME].retx == 0 && Enabled(s, a) && InReach(s, a) && Next(s, a).Ok? && Plain(a)
    ensures Inv(Next(s, a).value) && Next(s, a).value.pacer.credit[ME].retx == 0
  {
    NextKeepsInv(s, a);
    if a.DataArrives? {
      DataKeepsNoRetx(s, a.pkt, a.ecn);
    } else if a.PacerTimer? {
      TickKeepsNoRetx(s.pacer, a.skip);
    } else if a.Others? {
      OthersLeave(s.pacer, a.event);
    } else {
      SenderKeepsPacer(s, a);
    }
  }

  lemma DataKeepsNoRetx(s: Sys, p: S.Packet, ecn: bool)
    requires Inv(s) && s.pacer.credit[ME].retx == 0 && p.Data? && TakeData(s, p, ecn).Ok?
    ensures var r := TakeData(s, p, ecn).value.pacer; ME in r.credit && r.credit[ME].retx == 0
  {
    TargetCaresIff(s.pacer, Field(p.pullTarget));
  }

  lemma TickKeepsNoRetx(p: P.State<nat>, skip: bool)
    requires P.Known(p) && p.pending > 0 && ME in p.credit && p.credit[ME].retx == 0 && P.Tick(p, skip).Ok?
    ensures ME in P.Tick(p, skip).value.0.credit && P.Tick(p, skip).value.0.credit[ME].retx == 0
  {
  }

  lemma {:induction false} PlainIsTimely(s: Sys, actions: seq<Action>)
    requires Inv(s) && s.pacer.credit[ME].retx == 0 && StaysInReach(s, actions) && PlainRun(actions)
    ensures TimelyRun(s, actions) && SaneRun(actions)
    decreases |actions|
  {
    if actions == [] {
    } else if !Enabled(s, actions[0]) {
      PlainIsTimely(s, actions[1..]);
    } else if Next(s, actions[0]).Ok? {
      NextKeepsNoRetx(s, actions[0]);
      PlainIsTimely(Next(s, actions[0]).value, actions[1..]);
    }
  }

  lemma NothingToResend(c: Config, pacer: P.State<nat>, now: nat, cc: S.Cc, grants: nat)
    requires Awaiting(pacer)
    ensures Init(c, pacer, now, cc, grants).Ok?
    ensures Inv(Init(c, pacer, now, cc, grants).value)
    ensures var p := Init(c, pacer, now, cc, grants).value.pacer; ME in p.credit && p.credit[ME].retx == 0
  {
    InitInv(c, pacer, now, cc, grants);
  }
}
