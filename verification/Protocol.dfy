/**
A sender and its receiver, joined by a network that may lose, duplicate, reorder, delay and trim
packets: `net` is the set of all packets ever sent, and delivering one does not take it out. The
receiver's pull pacer also serves other sinks, which may ask for anything at any time.
 */
module Protocol {
  import opened Outcomes
  import opened Quanta
  import opened Cyclic
  import S = Sender
  import I = SenderInvariant
  import W = ReceiveWindow
  import P = PullPacer

  datatype Msg =
    | FromSender(pkt: S.Packet)
    | AckMsg(ack: W.Ack)
    | NackMsg(seqno: nat)
    | PullMsg(pullno: nat)

  /** The receiver's name at its pacer. */
  const ME: nat := 0

  /** `rcv` and `sizes` are history: the sequence numbers received untrimmed, and the size of every
      packet sent. */
  datatype Sys = Sys(snd: S.Sender, win: W.Window, pacer: P.State<nat>, net: set<Msg>, rcv: set<nat>, sizes: seq<nat>)

  /** `PacerTimer` is the pacer's next event, `skip` the verdict of its congestion control; `Others` is what
      the other sinks of the pacer do. */
  datatype Action =
    | DataArrives(pkt: S.Packet, ecn: bool)
    | DataTrimmed(pkt: S.Packet)
    | RtsArrives(pkt: S.Packet, ecn: bool)
    | PacerTimer(skip: bool)
    | Others(event: P.Event<nat>)
    | AckArrives(ack: W.Ack, now: nat, cc: S.Cc, grant: bool)
    | NackArrives(seqno: nat, now: nat, cc: S.Cc, grant: bool, grant': bool)
    | PullArrives(pullno: nat, now: nat, cc: S.Cc, grant: bool)
    | Timeout(now: nat, cc: S.Cc, grant: bool, grant': bool, recent: bool)
    | NicReady(now: nat, cc: S.Cc)

  predicate Joined(s: Sys) {
    P.Known(s.pacer) && ME in s.pacer.credit
  }

  /** The last pull number that the receiver has granted. */
  function Latest(s: Sys): nat {
    if ME in s.pacer.credit then s.pacer.credit[ME].latest else 0
  }

  predicate OfOthers(e: P.Event<nat>) {
    match e
    case Timer(_) => false
    case Target(k, _) => k != ME
    case Trimmed(k, _, _) => k != ME
    case Rts(k, _, _) => k != ME
    case Join(k, _) => k != ME
  }

  /** Packets must have been sent, timers must be running, and a request-to-send is recent only if there
      was one. */
  predicate Enabled(s: Sys, a: Action) {
    match a
    case DataArrives(p, _) => p.Data? && FromSender(p) in s.net
    case DataTrimmed(p) => p.Data? && FromSender(p) in s.net
    case RtsArrives(p, _) => p.Rts? && FromSender(p) in s.net
    case PacerTimer(_) => s.pacer.pending > 0
    case Others(e) => OfOthers(e) && P.Enabled(s.pacer, e)
    case AckArrives(k, _, _, _) => AckMsg(k) in s.net
    case NackArrives(q, _, _, _, _) => NackMsg(q) in s.net
    case PullArrives(n, _, _, _) => PullMsg(n) in s.net
    case Timeout(_, _, _, _, recent) => s.snd.sendTimes.Keys != {} && (recent ==> s.snd.rtsSent > 0)
    case NicReady(_, _) => true
  }

  /** A packet that reaches the receive window lies where the 4096 slots can tell it apart; see
      `ReceiveWindow.AckSoundIff` and `ReceiveWindow.AcceptExactIff`. */
  predicate InReach(s: Sys, a: Action) {
    a.DataArrives? || a.DataTrimmed? || a.RtsArrives? ==> W.InWindow(s.win.expected, a.pkt.seqno)
  }

  function Arrival(p: S.Packet, ecn: bool): W.Arrival {
    if p.Data? then W.Arrival(p.seqno, p.size, p.ar, ecn) else W.Arrival(p.seqno, W.ACK_SIZE, true, ecn)
  }

  /** A pull target as a packet carries it, in an unsigned field of 64 bits. */
  function Field(target: int): nat {
    target % 0x1_0000_0000_0000_0000
  }

  lemma FieldIs(target: int)
    requires 0 <= target < 0x1_0000_0000_0000_0000
    ensures Field(target) == target
  {
  }

  function Messages(pkts: seq<S.Packet>): set<Msg> {
    set p | p in pkts :: FromSender(p)
  }

  function AckMessages(m: W.MaybeAck): set<Msg> {
    if m.NoAck? then {} else {AckMsg(m.ack)}
  }

  /** The pulls among `pkts` that go to this receiver's sender. */
  function PullMessages(pkts: seq<P.PullPkt<nat>>): set<Msg> {
    set p | p in pkts && p.sink == ME :: PullMsg(p.pullno)
  }

  /** The sender has moved on and sent packets. */
  function WithSender(s: Sys, snd: S.Sender, pkts: seq<S.Packet>): Sys {
    s.(snd := snd, net := s.net + Messages(pkts), sizes := I.Extend(s.sizes, pkts))
  }

  ghost function FromEvent(s: Sys, r: S.Sent): Outcome<Sys> {
    var v :- r;
    Ok(WithSender(s, v.0, v.1))
  }

  /** A full data packet raises demand and enters the window. The receiver asserts that it never counts more
      than the flow. */
  function TakeData(s: Sys, p: S.Packet, ecn: bool): Outcome<Sys>
    requires Joined(s) && p.Data?
  {
    var pacer :- P.HandlePullTarget(s.pacer, ME, Field(p.pullTarget));
    EnterData(s.(pacer := pacer), p, ecn)
  }

  function EnterData(s: Sys, p: S.Packet, ecn: bool): Outcome<Sys> {
    var (win, reply) := W.ReceiveData(s.win, Arrival(p, ecn));
    if win.received != s.win.received && win.received > s.snd.flowSize then Aborted
    else Ok(s.(win := win, rcv := s.rcv + {p.seqno}, net := s.net + AckMessages(reply)))
  }

  /** A trimmed packet that is already here is acknowledged; any other one is refused and adds a packet's
      worth of retransmission demand. */
  function TakeTrimmed(s: Sys, p: S.Packet): Outcome<Sys>
    requires Joined(s) && p.Data?
  {
    if W.Duplicate(s.win, p.seqno) then
      Ok(s.(net := s.net + AckMessages(W.ReceiveTrimmed(s.win, p.seqno))))
    else
      var pacer :- P.TrimmedDemand(s.pacer, ME, Field(p.pullTarget), RtxDemand(s.snd));
      Ok(s.(pacer := pacer, net := s.net + {NackMsg(p.seqno)}))
  }

  function TakeRts(s: Sys, p: S.Packet, ecn: bool): Outcome<Sys>
    requires Joined(s) && p.Rts?
  {
    var pacer :- P.RtsDemand(s.pacer, ME, Field(p.pullTarget), RtxDemand(s.snd));
    Ok(EnterRts(s.(pacer := pacer), p, ecn))
  }

  function EnterRts(s: Sys, p: S.Packet, ecn: bool): Sys {
    var (win, ack) := W.ReceiveRts(s.win, Arrival(p, ecn));
    s.(win := win, rcv := s.rcv + {p.seqno}, net := s.net + {AckMsg(ack)})
  }

  /** A packet of the largest size, in quanta. Both ends know it. */
  function RtxDemand(snd: S.Sender): (r: nat)
    ensures r > 0
  {
    CeilPositive(snd.Mtu());
    QuantizeCeil(snd.Mtu())
  }

  function PacerStep(s: Sys, e: P.Event<nat>): Outcome<Sys>
    requires Joined(s) && P.Enabled(s.pacer, e)
  {
    var r :- P.Step(s.pacer, e);
    Ok(s.(pacer := r.0, net := s.net + PullMessages(r.1)))
  }

  ghost function Next(s: Sys, a: Action): Outcome<Sys>
    requires Joined(s) && Enabled(s, a)
  {
    match a
    case DataArrives(p, ecn) => TakeData(s, p, ecn)
    case DataTrimmed(p) => TakeTrimmed(s, p)
    case RtsArrives(p, ecn) => TakeRts(s, p, ecn)
    case PacerTimer(skip) => PacerStep(s, P.Timer(skip))
    case Others(e) => PacerStep(s, e)
    case AckArrives(k, now, cc, grant) =>
      FromEvent(s, S.ProcessAck(s.snd, k.cum, k.ref, k.bitmap, now, cc, grant))
    case NackArrives(q, now, cc, grant, grant') =>
      FromEvent(s, S.ProcessNack(s.snd, q, now, cc, grant, grant'))
    case PullArrives(n, now, cc, grant) =>
      FromEvent(s, S.ProcessPull(s.snd, n, now, cc, grant))
    case Timeout(now, cc, grant, grant', recent) =>
      FromEvent(s, S.TimerExpired(s.snd, now, cc, grant, grant', recent))
    case NicReady(now, cc) =>
      FromEvent(s, S.TimeToSend(s.snd, now, cc))
  }

  lemma StaysJoined(s: Sys, a: Action)
    requires Joined(s) && Enabled(s, a) && Next(s, a).Ok?
    ensures Joined(Next(s, a).value)
  {
  }

  /** Runs `actions`, passing over those that are not enabled. */
  ghost function Run(s: Sys, actions: seq<Action>): Outcome<Sys>
    requires Joined(s)
    decreases |actions|
  {
    if actions == [] then Ok(s)
    else if !Enabled(s, actions[0]) then Run(s, actions[1..])
    else
      var t :- Next(s, actions[0]);
      StaysJoined(s, actions[0]);
      Run(t, actions[1..])
  }

  /** Action `a` is enabled in `s` and leads to `t`. */
  ghost predicate Leads(s: Sys, a: Action, t: Sys) {
    Joined(s) && Enabled(s, a) && Next(s, a) == Ok(t) && Joined(t)
  }

  lemma RunOne(s: Sys, a: Action, t: Sys, rest: seq<Action>)
    requires Leads(s, a, t)
    ensures Run(s, [a] + rest) == Run(t, rest)
  {
    assert ([a] + rest)[1..] == rest;
  }

  /** Every packet that the run delivers lies in reach of the window when it arrives. */
  ghost predicate StaysInReach(s: Sys, actions: seq<Action>)
    requires Joined(s)
    decreases |actions|
  {
    if actions == [] then true
    else if !Enabled(s, actions[0]) then StaysInReach(s, actions[1..])
    else
      InReach(s, actions[0]) &&
      var o := Next(s, actions[0]);
      o.Ok? ==> (StaysJoined(s, actions[0]); StaysInReach(o.value, actions[1..]))
  }

  lemma {:induction false} RunAppend(s: Sys, a: seq<Action>, b: seq<Action>)
    requires Joined(s)
    ensures Run(s, a).Ok? ==>
              && Joined(Run(s, a).value) && Run(s, a + b) == Run(Run(s, a).value, b)
              && (StaysInReach(s, a) && StaysInReach(Run(s, a).value, b) ==> StaysInReach(s, a + b))
    decreases |a|
  {
    if a == [] {
      assert a + b == b;
    } else {
      assert (a + b)[1..] == a[1..] + b;
      if !Enabled(s, a[0]) {
        RunAppend(s, a[1..], b);
      } else if Next(s, a[0]).Ok? {
        StaysJoined(s, a[0]);
        RunAppend(Next(s, a[0]).value, a[1..], b);
      }
    }
  }

  datatype Config = Config(mss: Positive, maxWnd: nat, flowSize: nat)

  /** The flow has just started, with `grants` packets granted by the card, and its receiver has joined
      a pacer that may already be at work. */
  function Init(c: Config, pacer: P.State<nat>, now: nat, cc: S.Cc, grants: nat): Outcome<Sys> {
    var r :- S.StartFlow(S.Fresh(c.mss, c.maxWnd, c.flowSize), now, cc, grants);
    Ok(Sys(r.0, W.InitWindow, Join(pacer, c.maxWnd), Messages(r.1), {}, I.Extend([], r.1)))
  }

  function Join(pacer: P.State<nat>, maxWnd: nat): P.State<nat> {
    P.WithCredit(pacer, ME, P.FreshCredit(QuantizeFloor(maxWnd)))
  }

  /** A pacer in good order that the receiver has not joined yet. */
  ghost predicate Awaiting(pacer: P.State<nat>) {
    P.Inv(pacer) && ME !in pacer.credit
  }

  // ---------------------------------------------------------------- the invariant

  /** The payload of the received packets. */
  function Received(sizes: seq<nat>, rcv: set<nat>): int {
    if sizes == [] then 0
    else
      var q := |sizes| - 1;
      Received(sizes[..q], rcv) + if q in rcv then sizes[q] - S.HDR_SIZE else 0
  }

  ghost predicate MsgOk(m: Msg, s: Sys) {
    match m
    case FromSender(p) => I.Fits(p, s.sizes)
    case AckMsg(k) => W.Sound(k, s.rcv)
    case NackMsg(_) => true
    case PullMsg(n) => n <= Latest(s)
  }

  /** Every number that was ever used is outstanding, waiting to be resent, or received. */
  ghost predicate NothingLost(s: Sys) {
    forall q :: 0 <= q < s.snd.highestSent ==> q in s.snd.tx || q in s.snd.rtx || q in s.rcv
  }

  ghost predicate SinkOk(s: Sys) {
    && W.Exact(s.win, s.rcv)
    && (forall q :: q in s.rcv ==> q < |s.sizes|)
    && s.win.received == Received(s.sizes, s.rcv)
  }

  /** The pacer is in good order, and every pull that the receiver granted was sent. */
  ghost predicate Credited(s: Sys) {
    && P.Inv(s.pacer) && ME in s.pacer.credit
    && s.snd.pull <= Latest(s)
    && (Latest(s) == INIT_PULL || PullMsg(Latest(s)) in s.net)
  }

  ghost predicate Inv(s: Sys) {
    && I.Good(s.snd) && I.Sized(s.snd, s.sizes)
    && SinkOk(s) && NothingLost(s) && Credited(s)
    && (forall m :: m in s.net ==> MsgOk(m, s))
  }

  // ---------------------------------------------------------------- counting payload

  lemma {:induction false} ReceivedAdd(sizes: seq<nat>, rcv: set<nat>, q: nat)
    requires q < |sizes| && q !in rcv
    ensures Received(sizes, rcv + {q}) == Received(sizes, rcv) + sizes[q] - S.HDR_SIZE
  {
    var n := |sizes| - 1;
    if q < n {
      ReceivedAdd(sizes[..n], rcv, q);
    } else {
      ReceivedSame(sizes[..n], rcv, q);
    }
  }

  lemma {:induction false} ReceivedSame(sizes: seq<nat>, rcv: set<nat>, q: nat)
    requires q >= |sizes|
    ensures Received(sizes, rcv + {q}) == Received(sizes, rcv)
  {
    if sizes != [] {
      ReceivedSame(sizes[..|sizes| - 1], rcv, q);
    }
  }

  /** Packets that have not been received do not count. */
  lemma {:induction false} ReceivedGrow(sizes: seq<nat>, sizes': seq<nat>, rcv: set<nat>)
    requires sizes <= sizes' && forall q :: q in rcv ==> q < |sizes|
    ensures Received(sizes', rcv) == Received(sizes, rcv)
    decreases |sizes'|
  {
    if |sizes'| > |sizes| {
      ReceivedGrow(sizes, sizes'[..|sizes'| - 1], rcv);
    } else {
      assert sizes == sizes';
    }
  }

  lemma {:induction false} ReceivedAtMost(sizes: seq<nat>, rcv: set<nat>)
    requires forall q :: 0 <= q < |sizes| ==> sizes[q] >= S.HDR_SIZE
    ensures Received(sizes, rcv) <= I.Payload(sizes)
    ensures (forall q: nat :: q < |sizes| ==> q in rcv) ==> Received(sizes, rcv) == I.Payload(sizes)
  {
    if sizes != [] {
      ReceivedAtMost(sizes[..|sizes| - 1], rcv);
    }
  }

  // ---------------------------------------------------------------- steps of the sender

  /** Sending keeps the invariant as long as it keeps the sender's own and its packets fit. */
  lemma SendingKeepsInv(s: Sys, snd: S.Sender, pkts: seq<S.Packet>)
    requires Inv(s) && I.Stepped(s.snd, s.sizes, snd, pkts)
    ensures Inv(WithSender(s, snd, pkts))
  {
    SenderMoves(s, WithSender(s, snd, pkts), pkts);
  }

  lemma SenderMoves(s: Sys, t: Sys, pkts: seq<S.Packet>)
    requires SinkOk(s) && Credited(s) && forall m :: m in s.net ==> MsgOk(m, s)
    requires t == s.(snd := t.snd, net := s.net + Messages(pkts), sizes := t.sizes) && s.sizes <= t.sizes
    requires I.Good(t.snd) && I.Sized(t.snd, t.sizes) && t.snd.pull <= Latest(s) && NothingLost(t)
    requires forall i :: 0 <= i < |pkts| ==> I.Fits(pkts[i], t.sizes)
    ensures Inv(t)
  {
    ReceivedGrow(s.sizes, t.sizes, s.rcv);
    forall m | m in t.net ensures MsgOk(m, t) {
      if m in s.net {
        assert MsgOk(m, s);
      }
    }
  }

  /** A sound acknowledgement never reaches beyond what was sent. */
  lemma SoundCum(k: W.Ack, rcv: set<nat>, n: nat)
    requires W.Sound(k, rcv) && forall q :: q in rcv ==> q < n
    ensures k.cum <= n
  {
    if k.cum > n {
      assert W.Acknowledges(k, n);
    }
  }

  lemma AckBounded(s: Sys, k: W.Ack)
    requires Inv(s) && AckMsg(k) in s.net
    ensures W.Sound(k, s.rcv) && k.cum <= s.snd.highestSent
  {
    assert MsgOk(AckMsg(k), s);
    SoundCum(k, s.rcv, |s.sizes|);
  }

  lemma AckKeepsInv(s: Sys, k: W.Ack, now: nat, cc: S.Cc, grant: bool)
    requires Inv(s) && AckMsg(k) in s.net
    ensures var o := FromEvent(s, S.ProcessAck(s.snd, k.cum, k.ref, k.bitmap, now, cc, grant)); o.Ok? && Inv(o.value)
  {
    AckBounded(s, k);
    I.ProcessAckKeeps(s.snd, s.sizes, k.cum, k.ref, k.bitmap, now, cc, grant);
    AckMoves(s, k, S.ProcessAck(s.snd, k.cum, k.ref, k.bitmap, now, cc, grant));
  }

  lemma EventLeads(s: Sys, a: Action, r: S.Sent) returns (t: Sys, pkts: seq<S.Packet>)
    requires Joined(s) && Enabled(s, a) && Next(s, a) == FromEvent(s, r) && r.Ok?
    ensures Leads(s, a, t) && FromEvent(s, r) == Ok(t) && r == Ok((t.snd, pkts)) && t == WithSender(s, t.snd, pkts)
  {
    t, pkts := WithSender(s, r.value.0, r.value.1), r.value.1;
  }

  lemma AckLeads(s: Sys, k: W.Ack, now: nat, cc: S.Cc, grant: bool) returns (t: Sys, pkts: seq<S.Packet>)
    requires Inv(s) && AckMsg(k) in s.net
    ensures Leads(s, AckArrives(k, now, cc, grant), t) && Inv(t) && t == WithSender(s, t.snd, pkts)
    ensures S.ProcessAck(s.snd, k.cum, k.ref, k.bitmap, now, cc, grant) == Ok((t.snd, pkts))
  {
    AckKeepsInv(s, k, now, cc, grant);
    var r := S.ProcessAck(s.snd, k.cum, k.ref, k.bitmap, now, cc, grant);
    t, pkts := EventLeads(s, AckArrives(k, now, cc, grant), r);
  }

  lemma AckMoves(s: Sys, k: W.Ack, r: S.Sent)
    requires Inv(s) && AckMsg(k) in s.net
    requires r.Ok? && I.AckStepped(s.snd, s.sizes, k.cum, k.ref, k.bitmap, r.value.0, r.value.1)
    ensures Inv(FromEvent(s, r).value)
  {
    AckBounded(s, k);
    var t := WithSender(s, r.value.0, r.value.1);
    AckLosesNothing(s, k, t);
    SenderMoves(s, t, r.value.1);
  }

  /** What leaves the books because of an acknowledgement has been received. */
  lemma AckLosesNothing(s: Sys, k: W.Ack, t: Sys)
    requires NothingLost(s) && W.Sound(k, s.rcv) && t.rcv == s.rcv && s.snd.highestSent <= t.snd.highestSent
    requires forall q: nat :: q in s.snd.tx || q in s.snd.rtx ==>
               q in t.snd.tx || q in t.snd.rtx || I.Covers(k.cum, k.ref, k.bitmap, q)
    requires forall q :: s.snd.highestSent <= q < t.snd.highestSent ==> q in t.snd.tx || q in t.snd.rtx
    ensures NothingLost(t)
  {
    forall q | 0 <= q < t.snd.highestSent ensures q in t.snd.tx || q in t.snd.rtx || q in t.rcv {
      if q < s.snd.highestSent && q !in s.rcv {
        assert !W.Acknowledges(k, q);
        assert !I.Covers(k.cum, k.ref, k.bitmap, q);
      }
    }
  }

  lemma PullKeepsInv(s: Sys, n: nat, now: nat, cc: S.Cc, grant: bool)
    requires Inv(s) && PullMsg(n) in s.net
    ensures var o := FromEvent(s, S.ProcessPull(s.snd, n, now, cc, grant));
            o.Ok? && Inv(o.value) && o.value.snd.pull >= n
  {
    assert MsgOk(PullMsg(n), s);
    I.ProcessPullKeeps(s.snd, s.sizes, n, now, cc, grant);
    var r := S.ProcessPull(s.snd, n, now, cc, grant).value;
    PullMoves(s, S.StopSpeculating(S.HandlePull(s.snd, n)), WithSender(s, r.0, r.1), r.1);
  }

  lemma PullMoves(s: Sys, pulled: S.Sender, t: Sys, pkts: seq<S.Packet>)
    requires Inv(s) && I.Stepped(pulled, s.sizes, t.snd, pkts)
    requires t == WithSender(s, t.snd, pkts) && t.snd.pull <= Latest(s)
    requires pulled.tx == s.snd.tx && pulled.rtx == s.snd.rtx && pulled.highestSent == s.snd.highestSent
    ensures Inv(t)
  {
    SenderMoves(s, t, pkts);
  }

  // ---------------------------------------------------------------- steps of the pacer

  /** Any event of the pacer keeps it in order, and moves the receiver's pull number only by sending it. */
  lemma PacerMoves(p: P.State<nat>, e: P.Event<nat>)
    requires P.Inv(p) && P.Enabled(p, e) && ME in p.credit
    ensures P.Step(p, e).Ok?
    ensures var r := P.Step(p, e).value; P.Inv(r.0) && Pulled(p, r.0, r.1)
  {
    P.StepKeepsInv(p, e);
    var r := P.Step(p, e).value;
    if e.Timer? {
      P.TickGrants(p, e.skip, ME);
    } else {
      P.RequestsGrantNothing(p, e, ME);
    }
    OnePull(p, r.0, r.1);
  }

  /** The receiver's pull number stays, or it moves up and goes out. */
  ghost predicate Pulled(p: P.State<nat>, r: P.State<nat>, pkts: seq<P.PullPkt<nat>>) {
    && ME in p.credit && ME in r.credit && p.credit[ME].latest <= r.credit[ME].latest
    && PullMessages(pkts)
       == (if r.credit[ME].latest == p.credit[ME].latest then {} else {PullMsg(r.credit[ME].latest)})
  }

  lemma OnePull(p: P.State<nat>, r: P.State<nat>, pkts: seq<P.PullPkt<nat>>)
    requires |pkts| <= 1 && P.Granted(p, r, pkts, ME)
    ensures Pulled(p, r, pkts)
  {
    if pkts != [] {
      assert pkts[1..] == [];
      if pkts[0].sink == ME {
        assert P.PullsTo(pkts, ME) == [pkts[0].pullno];
        assert P.PullsTo(pkts, ME)[0] == pkts[0].pullno;
      }
    }
  }

  ghost predicate Requested(p: P.State<nat>, o: Outcome<P.State<nat>>) {
    o.Ok? && P.Inv(o.value) && ME in p.credit && ME in o.value.credit
    && o.value.credit[ME].latest == p.credit[ME].latest
  }

  lemma TargetRequests(p: P.State<nat>, pt: nat)
    requires P.Inv(p) && ME in p.credit
    ensures Requested(p, P.HandlePullTarget(p, ME, pt))
  {
    P.TargetKeepsInv(p, ME, pt);
    P.RequestsGrantNothing(p, P.Target(ME, pt), ME);
  }

  lemma TrimmedRequests(p: P.State<nat>, pt: nat, amount: nat)
    requires P.Inv(p) && ME in p.credit && amount > 0
    ensures Requested(p, P.TrimmedDemand(p, ME, pt, amount))
  {
    P.TrimmedKeepsInv(p, ME, pt, amount);
    P.RequestsGrantNothing(p, P.Trimmed(ME, pt, amount), ME);
  }

  lemma RtsRequests(p: P.State<nat>, pt: nat, amount: nat)
    requires P.Inv(p) && ME in p.credit && amount > 0
    ensures Requested(p, P.RtsDemand(p, ME, pt, amount))
  {
    P.RtsKeepsInv(p, ME, pt, amount);
    P.RequestsGrantNothing(p, P.Rts(ME, pt, amount), ME);
  }

  lemma PacerKeepsInv(s: Sys, e: P.Event<nat>)
    requires Inv(s) && P.Enabled(s.pacer, e)
    ensures PacerStep(s, e).Ok? && Inv(PacerStep(s, e).value)
  {
    PacerMoves(s.pacer, e);
    SinkMoves(s, PacerStep(s, e).value);
  }

  // ---------------------------------------------------------------- steps of the receiver

  lemma SinkMoves(s: Sys, t: Sys)
    requires Inv(s) && SinkOk(t) && Credited(t) && s.rcv <= t.rcv && Latest(s) <= Latest(t)
    requires t == s.(win := t.win, rcv := t.rcv, net := t.net, pacer := t.pacer)
    requires forall m :: m in t.net ==> m in s.net || MsgOk(m, t)
    ensures Inv(t)
  {
    forall m | m in t.net ensures MsgOk(m, t) {
      if m in s.net {
        assert MsgOk(m, s);
      }
    }
  }

  /** A request from the receiver changes nothing but the pacer's lists. */
  lemma RequestKeepsInv(s: Sys, t: Sys)
    requires Inv(s) && Requested(s.pacer, Ok(t.pacer)) && t == s.(pacer := t.pacer)
    ensures Inv(t)
  {
    SinkMoves(s, t);
  }

  /** A packet that fits updates the window, the received set and the byte count together. */
  lemma AcceptKeepsSink(s: Sys, w: W.Window, q: nat, size: nat)
    requires SinkOk(s) && q < |s.sizes| && s.sizes[q] == size && q !in s.rcv && W.InWindow(s.win.expected, q)
    requires w.expected == s.win.expected && w.stored == s.win.stored && w.outOfOrder == s.win.outOfOrder
    requires w.received == s.win.received + size - W.ACK_SIZE
    ensures W.Exact(W.Accept(w, q), s.rcv + {q})
    ensures W.Accept(w, q).received == Received(s.sizes, s.rcv + {q}) && W.Accept(w, q).expected >= w.expected
  {
    ReceivedAdd(s.sizes, s.rcv, q);
    W.AcceptKeepsExact(w, s.rcv, q);
    W.AcceptKeepsValid(w, q);
  }

  /** Every acknowledgement that a packet in the window can give rise to is sound. */
  lemma ReplySound(w: W.Window, rcv: set<nat>, q: nat, e: nat, exactRef: bool, ecn: bool)
    requires W.Exact(w, rcv) && e <= w.expected && W.InWindow(e, q)
    ensures W.Sound(W.MakeAck(w, if exactRef then q else W.SackBase(w, q), ecn), rcv)
  {
    W.AckIsExact(w, rcv, if exactRef then q else W.SackBase(w, q), ecn);
  }

  lemma DataRepeated(s: Sys, w: W.Window, p: S.Packet, ecn: bool)
    requires W.Exact(w, s.rcv) && p.seqno in s.rcv && W.InWindow(s.win.expected, p.seqno)
    requires w.expected == s.win.expected
    ensures s.rcv + {p.seqno} == s.rcv
    ensures W.Sound(W.MakeAck(w, if ecn then p.seqno else W.SackBase(w, p.seqno), ecn), s.rcv)
  {
    assert s.rcv + {p.seqno} == s.rcv;
    ReplySound(w, s.rcv, p.seqno, s.win.expected, ecn, ecn);
  }

  /** The receiver never counts more than the flow, as it asserts on every data packet. */
  lemma CountsWithinFlow(snd: S.Sender, sizes: seq<nat>, rcv: set<nat>)
    requires I.Good(snd) && I.Sized(snd, sizes)
    ensures Received(sizes, rcv) <= snd.flowSize
  {
    ReceivedAtMost(sizes, rcv);
  }

  lemma DataKeepsInv(s: Sys, p: S.Packet, ecn: bool)
    requires Inv(s) && Enabled(s, DataArrives(p, ecn)) && InReach(s, DataArrives(p, ecn))
    ensures TakeData(s, p, ecn).Ok? && Inv(TakeData(s, p, ecn).value)
  {
    TargetRequests(s.pacer, Field(p.pullTarget));
    var s1 := s.(pacer := P.HandlePullTarget(s.pacer, ME, Field(p.pullTarget)).value);
    RequestKeepsInv(s, s1);
    DataEnters(s1, p, ecn);
  }

  lemma DataLeads(s: Sys, p: S.Packet, ecn: bool) returns (t: Sys)
    requires Inv(s) && Enabled(s, DataArrives(p, ecn)) && InReach(s, DataArrives(p, ecn))
    ensures Leads(s, DataArrives(p, ecn), t) && Inv(t)
    ensures t == s.(pacer := t.pacer, win := t.win, rcv := s.rcv + {p.seqno},
                    net := s.net + AckMessages(W.ReceiveData(s.win, Arrival(p, ecn)).1))
    ensures P.HandlePullTarget(s.pacer, ME, Field(p.pullTarget)) == Ok(t.pacer)
  {
    DataKeepsInv(s, p, ecn);
    t := TakeData(s, p, ecn).value;
  }

  lemma DataEnters(s: Sys, p: S.Packet, ecn: bool)
    requires Inv(s) && p.Data? && FromSender(p) in s.net && W.InWindow(s.win.expected, p.seqno)
    ensures EnterData(s, p, ecn).Ok? && Inv(EnterData(s, p, ecn).value)
  {
    assert MsgOk(FromSender(p), s);
    DataTaken(s, p, ecn);
    CountsWithinFlow(s.snd, s.sizes, s.rcv + {p.seqno});
    var r := W.ReceiveData(s.win, Arrival(p, ecn));
    Entered(s, p.seqno, r.0, AckMessages(r.1));
  }

  /** A packet has entered the window, and was answered with `replies`. */
  lemma Entered(s: Sys, q: nat, win: W.Window, replies: set<Msg>)
    requires Inv(s) && q < |s.sizes| && W.Exact(win, s.rcv + {q}) && win.received == Received(s.sizes, s.rcv + {q})
    requires forall m :: m in replies ==> m.AckMsg? && W.Sound(m.ack, s.rcv + {q})
    ensures Inv(s.(win := win, rcv := s.rcv + {q}, net := s.net + replies))
  {
    var t := s.(win := win, rcv := s.rcv + {q}, net := s.net + replies);
    assert forall m :: m in replies ==> MsgOk(m, t);
    SinkMoves(s, t);
  }

  lemma DataTaken(s: Sys, p: S.Packet, ecn: bool)
    requires SinkOk(s) && p.Data? && I.Fits(p, s.sizes) && W.InWindow(s.win.expected, p.seqno)
    ensures var r := W.ReceiveData(s.win, Arrival(p, ecn)); var rcv := s.rcv + {p.seqno};
            W.Exact(r.0, rcv) && r.0.received == Received(s.sizes, rcv) && (r.1.Send? ==> W.Sound(r.1.ack, rcv))
  {
    var q := p.seqno;
    var a := Arrival(p, ecn);
    var w1 := s.win.(accepted := (s.win.accepted + a.size) % 0x1_0000, high := W.Max(s.win.high, q));
    assert W.Exact(w1, s.rcv);
    W.DuplicateIsReceived(w1, s.rcv, q);
    if W.Duplicate(w1, q) {
      DataRepeated(s, w1, p, ecn);
    } else {
      DataAccepted(s, w1, p, ecn);
    }
  }

  lemma DataAccepted(s: Sys, w: W.Window, p: S.Packet, ecn: bool)
    requires SinkOk(s) && p.Data? && I.Fits(p, s.sizes) && p.seqno !in s.rcv && W.InWindow(s.win.expected, p.seqno)
    requires w == s.win.(accepted := w.accepted, high := w.high)
    ensures var r := W.ReceiveNew(w, Arrival(p, ecn));
            && W.Exact(r.0, s.rcv + {p.seqno}) && r.0.received == Received(s.sizes, s.rcv + {p.seqno})
            && (r.1.Send? ==> W.Sound(r.1.ack, s.rcv + {p.seqno}))
  {
    var q, rcv := p.seqno, s.rcv + {p.seqno};
    var w0 := w.(received := w.received + p.size - W.ACK_SIZE);
    AcceptKeepsSink(s, w0, q, p.size);
    var r := W.ReceiveNew(w, Arrival(p, ecn));
    var w3 := W.Accept(w0, q).(ackRequest := r.0.ackRequest);
    SameSlotsExact(W.Accept(w0, q), w3, rcv);
    ReplySound(w3, rcv, q, s.win.expected, ecn || p.ar, ecn);
    SameSlotsExact(w3, r.0, rcv);
  }

  /** Counters and flags do not matter to the agreement with what was received. */
  lemma SameSlotsExact(w: W.Window, v: W.Window, rcv: set<nat>)
    requires W.Exact(w, rcv) && v == w.(accepted := v.accepted, ackRequest := v.ackRequest)
    ensures W.Exact(v, rcv)
  {
  }

  lemma TrimKeepsInv(s: Sys, p: S.Packet)
    requires Inv(s) && Enabled(s, DataTrimmed(p)) && InReach(s, DataTrimmed(p))
    ensures TakeTrimmed(s, p).Ok? && Inv(TakeTrimmed(s, p).value)
  {
    if W.Duplicate(s.win, p.seqno) {
      var k := W.ReceiveTrimmed(s.win, p.seqno).ack;
      ReplySound(s.win, s.rcv, p.seqno, s.win.expected, true, false);
      Answered(s, s, {AckMsg(k)});
    } else {
      TrimmedRequests(s.pacer, Field(p.pullTarget), RtxDemand(s.snd));
      var s1 := s.(pacer := P.TrimmedDemand(s.pacer, ME, Field(p.pullTarget), RtxDemand(s.snd)).value);
      Answered(s, s1, {NackMsg(p.seqno)});
    }
  }

  /** The receiver has raised its demand, and answers. */
  lemma Answered(s: Sys, t: Sys, replies: set<Msg>)
    requires Inv(s) && Requested(s.pacer, Ok(t.pacer)) && t == s.(pacer := t.pacer)
    requires forall m :: m in replies ==> MsgOk(m, s) && (m.AckMsg? || m.NackMsg?)
    ensures Inv(t.(net := s.net + replies))
  {
    RequestKeepsInv(s, t);
    SinkMoves(t, t.(net := s.net + replies));
  }

  lemma RtsKeepsInv(s: Sys, p: S.Packet, ecn: bool)
    requires Inv(s) && Enabled(s, RtsArrives(p, ecn)) && InReach(s, RtsArrives(p, ecn))
    ensures TakeRts(s, p, ecn).Ok? && Inv(TakeRts(s, p, ecn).value)
  {
    RtsRequests(s.pacer, Field(p.pullTarget), RtxDemand(s.snd));
    var s1 := s.(pacer := P.RtsDemand(s.pacer, ME, Field(p.pullTarget), RtxDemand(s.snd)).value);
    RequestKeepsInv(s, s1);
    RtsEnters(s1, p, ecn);
  }

  lemma RtsEnters(s: Sys, p: S.Packet, ecn: bool)
    requires Inv(s) && p.Rts? && FromSender(p) in s.net && W.InWindow(s.win.expected, p.seqno)
    ensures Inv(EnterRts(s, p, ecn))
  {
    assert MsgOk(FromSender(p), s);
    RtsTaken(s, p, ecn);
    var r := W.ReceiveRts(s.win, Arrival(p, ecn));
    Entered(s, p.seqno, r.0, {AckMsg(r.1)});
  }

  lemma RtsTaken(s: Sys, p: S.Packet, ecn: bool)
    requires SinkOk(s) && p.Rts? && I.Fits(p, s.sizes) && W.InWindow(s.win.expected, p.seqno)
    ensures var r := W.ReceiveRts(s.win, Arrival(p, ecn)); var rcv := s.rcv + {p.seqno};
            W.Exact(r.0, rcv) && r.0.received == Received(s.sizes, rcv) && W.Sound(r.1, rcv)
  {
    var q, rcv := p.seqno, s.rcv + {p.seqno};
    W.DuplicateIsReceived(s.win, s.rcv, q);
    if W.Duplicate(s.win, q) {
      assert rcv == s.rcv;
      ReplySound(s.win, s.rcv, q, s.win.expected, true, ecn);
    } else {
      var w0 := s.win.(received := s.win.received + W.ACK_SIZE - W.ACK_SIZE);
      AcceptKeepsSink(s, w0, q, W.ACK_SIZE);
      var w2 := W.ReceiveRts(s.win, Arrival(p, ecn)).0;
      SameSlotsExact(W.Accept(w0, q), w2, rcv);
      ReplySound(w2, rcv, q, s.win.expected, true, ecn);
    }
  }

  // ---------------------------------------------------------------- runs

  /** The events in which the sender acts on nothing that the network brings it, or on a refusal. */
  predicate OwnEvent(a: Action) {
    a.NackArrives? || a.Timeout? || a.NicReady?
  }

  lemma OwnEventSteps(s: Sys, a: Action)
    requires Inv(s) && Enabled(s, a) && Next(s, a).Ok? && OwnEvent(a)
    ensures var t := Next(s, a).value; Inv(t) && I.Advance(s.snd, t.snd)
  {
    match a
    case NackArrives(q, now, cc, grant, grant') =>
      I.ProcessNackSteps(s.snd, s.sizes, q, now, cc, grant, grant');
      SentKeepsInv(s, S.ProcessNack(s.snd, q, now, cc, grant, grant'));
    case Timeout(now, cc, grant, grant', recent) =>
      I.TimerExpiredSteps(s.snd, s.sizes, now, cc, grant, grant', recent);
      SentKeepsInv(s, S.TimerExpired(s.snd, now, cc, grant, grant', recent));
    case NicReady(now, cc) =>
      I.TimeToSendSteps(s.snd, s.sizes, now, cc);
      SentKeepsInv(s, S.TimeToSend(s.snd, now, cc));
  }

  lemma SentKeepsInv(s: Sys, r: S.Sent)
    requires Inv(s) && (r.Ok? ==> I.Stepped(s.snd, s.sizes, r.value.0, r.value.1))
    ensures FromEvent(s, r).Ok? ==> Inv(FromEvent(s, r).value) && I.Advance(s.snd, FromEvent(s, r).value.snd)
  {
    if r.Ok? {
      SendingKeepsInv(s, r.value.0, r.value.1);
    }
  }

  lemma NextKeepsInv(s: Sys, a: Action)
    requires Inv(s) && Enabled(s, a) && InReach(s, a) && Next(s, a).Ok?
    ensures Inv(Next(s, a).value)
  {
    match a
    case DataArrives(p, ecn) => DataKeepsInv(s, p, ecn);
    case DataTrimmed(p) => TrimKeepsInv(s, p);
    case RtsArrives(p, ecn) => RtsKeepsInv(s, p, ecn);
    case PacerTimer(skip) => PacerKeepsInv(s, P.Timer(skip));
    case Others(e) => PacerKeepsInv(s, e);
    case AckArrives(k, now, cc, grant) => AckKeepsInv(s, k, now, cc, grant);
    case PullArrives(n, now, cc, grant) => PullKeepsInv(s, n, now, cc, grant);
    case NackArrives(_, _, _, _, _) => OwnEventSteps(s, a);
    case Timeout(_, _, _, _, _) => OwnEventSteps(s, a);
    case NicReady(_, _) => OwnEventSteps(s, a);
  }

  lemma InitInv(c: Config, pacer: P.State<nat>, now: nat, cc: S.Cc, grants: nat)
    requires Awaiting(pacer)
    ensures Init(c, pacer, now, cc, grants).Ok?
    ensures Inv(Init(c, pacer, now, cc, grants).value)
  {
    var snd := S.Fresh(c.mss, c.maxWnd, c.flowSize);
    I.ReadyToStartGood(c.mss, c.maxWnd, c.flowSize);
    I.StartFlowGood(c.mss, c.maxWnd, c.flowSize, now, cc, grants);
    JoinedPacer(pacer, c.maxWnd);
    var r := S.StartFlow(snd, now, cc, grants).value;
    StartedInv(S.ReadyToStart(snd), Join(pacer, c.maxWnd), r.0, r.1);
  }

  lemma JoinedPacer(pacer: P.State<nat>, maxWnd: nat)
    requires Awaiting(pacer)
    ensures var p := Join(pacer, maxWnd); P.Inv(p) && ME in p.credit && p.credit[ME].latest == INIT_PULL
  {
    P.JoinKeepsInv(pacer, ME, QuantizeFloor(maxWnd));
  }

  lemma StartedInv(ready: S.Sender, pacer: P.State<nat>, snd: S.Sender, pkts: seq<S.Packet>)
    requires I.Good(ready) && I.Sized(ready, []) && ready.highestSent == 0 && ready.pull == INIT_PULL
    requires P.Inv(pacer) && ME in pacer.credit && pacer.credit[ME].latest == INIT_PULL
    requires I.Stepped(ready, [], snd, pkts)
    ensures Inv(Sys(snd, W.InitWindow, pacer, Messages(pkts), {}, I.Extend([], pkts)))
  {
    var s0 := Sys(ready, W.InitWindow, pacer, {}, {}, []);
    assert Inv(s0);
    SendingKeepsInv(s0, snd, pkts);
    assert {} + Messages(pkts) == Messages(pkts);
  }

  /** Every state of every run in reach satisfies the invariant, whatever the network, the clock, the
      interface card, the congestion window and the pacer's other sinks do. */
  lemma {:induction false} RunKeepsInv(s: Sys, actions: seq<Action>)
    requires Inv(s) && StaysInReach(s, actions)
    ensures Run(s, actions).Ok? ==> Inv(Run(s, actions).value)
    decreases |actions|
  {
    if actions == [] {
    } else if !Enabled(s, actions[0]) {
      RunKeepsInv(s, actions[1..]);
    } else if Next(s, actions[0]).Ok? {
      NextKeepsInv(s, actions[0]);
      RunKeepsInv(Next(s, actions[0]).value, actions[1..]);
    }
  }

  // ---------------------------------------------------------------- what the invariant means

  /** The books, the retransmit queue and the received packets together account for every number used,
      and no packet is both outstanding and queued for resending. */
  lemma NoPacketIsLost(s: Sys)
    requires Inv(s)
    ensures forall q :: 0 <= q < s.snd.highestSent <==> q in s.snd.tx.Keys + s.snd.rtx.Keys + s.rcv
    ensures s.snd.tx.Keys !! s.snd.rtx.Keys
    ensures s.snd.inFlight >= S.Bytes(s.snd.tx)
  {
  }

  /** Only acknowledgements take packets off the sender's books. */
  lemma OthersKeepBooks(s: Sys, a: Action, q: nat)
    requires Inv(s) && Enabled(s, a) && Next(s, a).Ok? && !a.AckArrives?
    requires q in s.snd.tx || q in s.snd.rtx
    ensures var t := Next(s, a).value; q in t.snd.tx || q in t.snd.rtx
  {
    if OwnEvent(a) {
      OwnEventSteps(s, a);
    } else if a.PullArrives? {
      I.ProcessPullKeeps(s.snd, s.sizes, a.pullno, a.now, a.cc, a.grant);
    } else {
      SinkKeepsSender(s, a);
    }
  }

  lemma SinkKeepsSender(s: Sys, a: Action)
    requires Joined(s) && Enabled(s, a) && Next(s, a).Ok?
    requires a.DataArrives? || a.DataTrimmed? || a.RtsArrives? || a.PacerTimer? || a.Others?
    ensures Next(s, a).value.snd == s.snd && Next(s, a).value.sizes == s.sizes
  {
  }

  /** Whatever happens, a packet leaves the books without being sent again only if it was received. */
  lemma OnlyReceivedIsDropped(s: Sys, a: Action, q: nat)
    requires Inv(s) && Enabled(s, a) && Next(s, a).Ok?
    requires q in s.snd.tx || q in s.snd.rtx
    requires var t := Next(s, a).value; q !in t.snd.tx && q !in t.snd.rtx
    ensures a.AckArrives? && q in s.rcv
  {
    if a.AckArrives? {
      AckDropsReceived(s, a.ack, a.now, a.cc, a.grant, q);
    } else {
      OthersKeepBooks(s, a, q);
    }
  }

  lemma AckDropsReceived(s: Sys, k: W.Ack, now: nat, cc: S.Cc, grant: bool, q: nat)
    requires Inv(s) && AckMsg(k) in s.net && (q in s.snd.tx || q in s.snd.rtx)
    ensures var r := S.ProcessAck(s.snd, k.cum, k.ref, k.bitmap, now, cc, grant);
            r.Ok? ==> q in r.value.0.tx || q in r.value.0.rtx || q in s.rcv
  {
    AckBounded(s, k);
    I.ProcessAckKeeps(s.snd, s.sizes, k.cum, k.ref, k.bitmap, now, cc, grant);
    var r := S.ProcessAck(s.snd, k.cum, k.ref, k.bitmap, now, cc, grant).value;
    CoveredIsReceived(s.snd, s.sizes, k, s.rcv, r.0, r.1, q);
  }

  lemma CoveredIsReceived(
    s: S.Sender, sizes: seq<nat>, k: W.Ack, rcv: set<nat>, t: S.Sender, pkts: seq<S.Packet>, q: nat)
    requires I.AckStepped(s, sizes, k.cum, k.ref, k.bitmap, t, pkts) && W.Sound(k, rcv) && (q in s.tx || q in s.rtx)
    ensures q in t.tx || q in t.rtx || q in rcv
  {
    assert I.Covers(k.cum, k.ref, k.bitmap, q) ==> W.Acknowledges(k, q);
  }

  lemma ReceivedWithinFlow(s: Sys)
    requires Inv(s)
    ensures s.win.received <= s.snd.flowSize
  {
    CountsWithinFlow(s.snd, s.sizes, s.rcv);
  }

  /** A finished flow has been received completely, to the byte. */
  lemma FinishedMeansReceived(s: Sys)
    requires Inv(s) && s.snd.done
    ensures forall q :: 0 <= q < s.snd.highestSent <==> q in s.rcv
    ensures s.win.received == s.snd.flowSize && s.win.expected == s.snd.highestSent
  {
    assert forall q :: 0 <= q < s.snd.highestSent ==> q in s.rcv;
    ReceivedAtMost(s.sizes, s.rcv);
    W.ExactMeaning(s.win, s.rcv);
    assert s.snd.highestSent !in s.rcv;
  }

  /** An acknowledgement finishes the flow exactly when it covers every number used, requests-to-send
      included, and nothing is left unsent. */
  lemma FinishesExactly(s: Sys, k: W.Ack, now: nat, cc: S.Cc, grant: bool)
    requires Inv(s) && AckMsg(k) in s.net && !s.snd.done
    ensures var o := Next(s, AckArrives(k, now, cc, grant));
            o.Ok? && (o.value.snd.done <==> k.cum == s.snd.highestSent && s.snd.unsent == 0)
  {
    AckFinishes(s, k, now, cc, grant);
  }

  lemma AckFinishes(s: Sys, k: W.Ack, now: nat, cc: S.Cc, grant: bool)
    requires Inv(s) && AckMsg(k) in s.net && !s.snd.done
    ensures var r := S.ProcessAck(s.snd, k.cum, k.ref, k.bitmap, now, cc, grant);
            r.Ok? && (r.value.0.done <==> k.cum == s.snd.highestSent && s.snd.unsent == 0)
  {
    AckBounded(s, k);
    I.ProcessAckKeeps(s.snd, s.sizes, k.cum, k.ref, k.bitmap, now, cc, grant);
  }

  /** Credit is conserved across the network: the sender never holds or spends more than the receiver
      granted, up to the last packet, which may be sent on a single byte of credit. */
  lemma CreditConserved(s: Sys)
    requires Inv(s)
    ensures INIT_PULL <= s.snd.pull <= Latest(s)
    ensures -(s.snd.mss + S.HDR_SIZE) < s.snd.creditPull <= s.snd.maxWnd
    ensures s.snd.spent < Unquantize(Latest(s) - INIT_PULL) + s.snd.mss + S.HDR_SIZE
    ensures s.snd.spent + s.snd.creditPull <= Unquantize(Latest(s) - INIT_PULL)
  {
  }
}
