/**
The retransmission timer watches the packets through an index by send time, which keeps one packet for every
instant. As long as no two packets are sent at one instant, every packet that is out has a timer; with a
shared instant one can be lost for good.
 */
module Timers {
  import opened Outcomes
  import opened Quanta
  import opened Cyclic
  import opened Bits
  import opened Protocol
  import opened OnePacketOut
  import S = Sender
  import I = SenderInvariant
  import P = PullPacer
  import W = ReceiveWindow

  // ---------------------------------------------------------------- the packets of one event

  /** Going from `s` to `t`, the packets `pkts`, at most one, were entered in the books. */
  ghost predicate Tracks(s: S.Sender, t: S.Sender, pkts: seq<S.Packet>, now: nat) {
    if pkts == [] then t.tx == s.tx && t.sendTimes == s.sendTimes
    else
      var q := pkts[0].seqno;
      && |pkts| == 1 && q !in s.tx && t.tx == s.tx[q := S.Record(I.SizeOf(pkts[0]), now)]
      && t.sendTimes == S.AddSendTime(s.sendTimes, now, q)
  }

  /** Whatever `r` sent was entered in the books, unless it was more than one packet. */
  ghost predicate Sends(s: S.Sender, r: S.Sent, now: nat) {
    r.Ok? && |r.value.1| <= 1 ==> Tracks(s, r.value.0, r.value.1, now)
  }

  lemma TracksTwo(s: S.Sender, t: S.Sender, a: seq<S.Packet>, u: S.Sender, b: seq<S.Packet>, now: nat)
    requires Tracks(s, t, a, now) && Tracks(t, u, b, now) && |a + b| <= 1
    ensures Tracks(s, u, a + b, now)
  {
    assert a == [] ==> a + b == b;
    assert b == [] ==> a + b == a;
  }

  lemma LaunchNewTracks(s: S.Sender, payload: nat, now: nat, cc: S.Cc)
    ensures var r := S.LaunchNew(s, payload, now, cc); r.Ok? ==> Tracks(s, r.value.0, r.value.1, now)
  {
  }

  lemma SpendingKeepsBooks(s: S.Sender, size: nat)
    ensures var r := S.SpendCredit(s, size); r.Ok? ==> r.value.s.tx == s.tx && r.value.s.sendTimes == s.sendTimes
  {
  }

  lemma SendNewTracks(s: S.Sender, now: nat, cc: S.Cc)
    ensures S.SendNew(s, now, cc).Ok? ==> Tracks(s, S.SendNew(s, now, cc).value.0, S.SendNew(s, now, cc).value.1, now)
  {
    if S.NextPayload(s) > 0 {
      var size := S.NextPayload(s) + S.HDR_SIZE;
      SpendingKeepsBooks(s, size);
      if S.SpendCredit(s, size).Ok? {
        LaunchNewTracks(S.SpendCredit(s, size).value.s, S.NextPayload(s), now, cc);
      }
    }
  }

  lemma SendRtxTracks(s: S.Sender, now: nat, cc: S.Cc)
    ensures S.SendRtx(s, now, cc).Ok? ==> Tracks(s, S.SendRtx(s, now, cc).value.0, S.SendRtx(s, now, cc).value.1, now)
  {
  }

  lemma AskingTracks(s: S.Sender, now: nat, cc: S.Cc, grant: bool)
    ensures var r := S.SendIfPermitted(s, now, cc, grant); r.Ok? ==> Tracks(s, r.value.0, r.value.1, now)
  {
    SendNewTracks(s, now, cc);
    SendRtxTracks(s, now, cc);
  }

  lemma QueueingTracks(s: S.Sender, q: nat, size: nat, now: nat, cc: S.Cc, grant: bool)
    ensures var r := S.QueueForRtx(s, q, size, now, cc, grant); r.Ok? ==> Tracks(s, r.value.0, r.value.1, now)
  {
    AskingTracks(s.(rtx := s.rtx[q := size]), now, cc, grant);
  }

  lemma RtsTracks(s: S.Sender, now: nat, recent: bool)
    ensures var r := S.SendRts(s, now, recent); r.Ok? ==> Tracks(s, r.value.0, r.value.1, now)
  {
  }

  lemma AfterTimeoutTracks(s: S.Sender, size: nat, now: nat, cc: S.Cc, grant: bool, recent: bool)
    ensures var r := S.AfterTimeout(s, size, now, cc, grant, recent); r.Ok? ==> Tracks(s, r.value.0, r.value.1, now)
  {
    RtsTracks(s, now, recent);
    SendRtxTracks(s, now, cc);
  }

  lemma BehindTracks(s: S.Sender, q: nat, size: nat, now: nat, cc: S.Cc, grant: bool, recent: bool)
    ensures Sends(s, S.QueueBehind(s, q, size, now, cc, grant, recent), now)
  {
    var s1 := S.StopSpeculating(s);
    var r := S.QueueForRtx(s1, q, size, now, cc, grant);
    QueueingTracks(s1, q, size, now, cc, grant);
    if r.Ok? && S.SendRts(r.value.0, now, recent).Ok? {
      var r' := S.SendRts(r.value.0, now, recent).value;
      RtsTracks(r.value.0, now, recent);
      if |r.value.1 + r'.1| <= 1 {
        TracksTwo(s1, r.value.0, r.value.1, r'.0, r'.1, now);
      }
    }
  }

  lemma AloneTracks(s: S.Sender, q: nat, size: nat, now: nat, cc: S.Cc, grant: bool, grant': bool, recent: bool)
    ensures Sends(s, S.QueueAlone(s, q, size, now, cc, grant, grant', recent), now)
  {
    var r := S.QueueForRtx(s, q, size, now, cc, grant);
    QueueingTracks(s, q, size, now, cc, grant);
    if r.Ok? && S.AfterTimeout(r.value.0, size, now, cc, grant', recent).Ok? {
      var r' := S.AfterTimeout(r.value.0, size, now, cc, grant', recent).value;
      AfterTimeoutTracks(r.value.0, size, now, cc, grant', recent);
      if |r.value.1 + r'.1| <= 1 {
        TracksTwo(s, r.value.0, r.value.1, r'.0, r'.1, now);
      }
    }
  }

  /** A sending that shares its instant with no other keeps every packet on the timer. */
  lemma TracksKeepsTimed(s: S.Sender, t: S.Sender, pkts: seq<S.Packet>, now: nat)
    requires I.Timed(s) && I.Times(s) && Tracks(s, t, pkts, now) && (pkts != [] ==> now !in s.sendTimes)
    ensures I.Timed(t)
  {
    forall q | q in t.tx ensures t.tx[q].sendTime in t.sendTimes && t.sendTimes[t.tx[q].sendTime] == q {
      assert q in s.tx ==> s.tx[q].sendTime in s.sendTimes;
    }
  }

  // ---------------------------------------------------------------- the events of the sender

  /** Before it sends, an event may have taken packets off the books; the others stay on the timer. */
  ghost predicate Thinned(s: S.Sender, s1: S.Sender) {
    I.Timed(s1) && I.Times(s1) && s1.sendTimes.Keys <= s.sendTimes.Keys
  }

  /** From `s` to `t` an event sent `pkts`; if no other packet has its instant, all stay on the timer. */
  ghost predicate KeepsTimed(s: S.Sender, t: S.Sender, pkts: seq<S.Packet>, now: nat) {
    && (|pkts| <= 1 && (pkts != [] ==> now !in s.sendTimes) ==> I.Timed(t))
    && (|pkts| <= 1 ==> t.sendTimes.Keys <= s.sendTimes.Keys + if pkts == [] then {} else {now})
  }

  lemma ThinnedSends(s: S.Sender, s1: S.Sender, r: S.Sent, now: nat)
    requires Thinned(s, s1) && Sends(s1, r, now) && r.Ok?
    ensures KeepsTimed(s, r.value.0, r.value.1, now)
  {
    if |r.value.1| <= 1 && (r.value.1 != [] ==> now !in s.sendTimes) {
      TracksKeepsTimed(s1, r.value.0, r.value.1, now);
    }
  }

  lemma DropThins(s: S.Sender, gone: set<nat>)
    requires I.Timed(s) && I.Times(s)
    ensures Thinned(s, S.Drop(s, gone))
  {
    I.DropKeepsTimed(s, gone);
    var t := S.Drop(s, gone);
    forall i | i in t.sendTimes ensures t.sendTimes[i] in t.tx && t.tx[t.sendTimes[i]].sendTime == i {
      assert s.sendTimes[i] in s.tx;
    }
  }

  lemma CumulativeThins(s: S.Sender, cum: nat)
    requires I.Timed(s) && I.Times(s)
    ensures Thinned(s, S.HandleCumulativeAck(s, cum))
  {
    var s0 := s.(rtx := map q | q in s.rtx && q >= cum :: s.rtx[q]);
    DropThins(s0, set q | q in s0.tx && q < cum);
  }

  lemma BitmapThins(s: S.Sender, ref: nat, bitmap: nat)
    requires I.Timed(s) && I.Times(s)
    ensures Thinned(s, S.HandleBitmap(s, ref, bitmap))
  {
    DropThins(s, set q | q in s.tx && q >= ref && Bit(bitmap, q - ref));
  }

  lemma AckThins(s: S.Sender, k: W.Ack)
    requires I.Timed(s) && I.Times(s)
    ensures Thinned(s, I.Acknowledged(s, k.cum, k.ref, k.bitmap))
  {
    CumulativeThins(s, k.cum);
    BitmapThins(S.HandleCumulativeAck(s, k.cum), k.ref, k.bitmap);
    SameBooksThin(s, S.HandleAck(s, k.cum, k.ref, k.bitmap), I.Acknowledged(s, k.cum, k.ref, k.bitmap));
  }

  lemma SameBooksThin(s: S.Sender, t: S.Sender, u: S.Sender)
    requires Thinned(s, t) && u.tx == t.tx && u.sendTimes == t.sendTimes
    ensures Thinned(s, u)
  {
  }

  lemma AckKeepsTimed(s: S.Sender, k: W.Ack, now: nat, cc: S.Cc, grant: bool)
    requires I.Timed(s) && I.Times(s)
    ensures var r := S.ProcessAck(s, k.cum, k.ref, k.bitmap, now, cc, grant);
            r.Ok? ==> KeepsTimed(s, r.value.0, r.value.1, now)
  {
    AckThins(s, k);
    AskedKeepsTimed(s, I.Acknowledged(s, k.cum, k.ref, k.bitmap), now, cc, grant);
  }

  /** An event that ends by asking the card, or that stops because the flow is done. */
  lemma AskedKeepsTimed(s: S.Sender, s1: S.Sender, now: nat, cc: S.Cc, grant: bool)
    requires Thinned(s, s1)
    ensures KeepsTimed(s, s1, [], now)
    ensures var r := S.SendIfPermitted(s1, now, cc, grant); r.Ok? ==> KeepsTimed(s, r.value.0, r.value.1, now)
  {
    var r := S.SendIfPermitted(s1, now, cc, grant);
    AskingTracks(s1, now, cc, grant);
    if r.Ok? {
      ThinnedSends(s, s1, r, now);
    }
  }

  lemma NackKeepsTimed(s: S.Sender, q: nat, now: nat, cc: S.Cc, grant: bool, grant': bool)
    requires I.Timed(s) && I.Times(s)
    ensures var r := S.ProcessNack(s, q, now, cc, grant, grant');
            r.Ok? ==> KeepsTimed(s, r.value.0, r.value.1, now)
  {
    if q in s.tx {
      DropThins(s, {q});
      var s1 := S.StopSpeculating(S.Drop(s, {q}));
      RefusedTracks(s1, q, s.tx[q].size, now, cc, grant, grant');
      if S.ProcessNack(s, q, now, cc, grant, grant').Ok? {
        ThinnedSends(s, s1, S.ProcessNack(s, q, now, cc, grant, grant'), now);
      }
    }
  }

  lemma RefusedTracks(s: S.Sender, q: nat, size: nat, now: nat, cc: S.Cc, grant: bool, grant': bool)
    ensures var r := S.QueueForRtx(s, q, size, now, cc, grant);
            r.Ok? ==>
              var r' := S.SendIfPermitted(r.value.0, now, cc, grant');
              r'.Ok? && |r.value.1 + r'.value.1| <= 1 ==> Tracks(s, r'.value.0, r.value.1 + r'.value.1, now)
  {
    var r := S.QueueForRtx(s, q, size, now, cc, grant);
    QueueingTracks(s, q, size, now, cc, grant);
    if r.Ok? && S.SendIfPermitted(r.value.0, now, cc, grant').Ok? {
      var r' := S.SendIfPermitted(r.value.0, now, cc, grant').value;
      AskingTracks(r.value.0, now, cc, grant');
      if |r.value.1 + r'.1| <= 1 {
        TracksTwo(s, r.value.0, r.value.1, r'.0, r'.1, now);
      }
    }
  }

  lemma PullKeepsTimed(s: S.Sender, n: nat, now: nat, cc: S.Cc, grant: bool)
    requires I.Timed(s) && I.Times(s)
    ensures var r := S.ProcessPull(s, n, now, cc, grant); r.Ok? ==> KeepsTimed(s, r.value.0, r.value.1, now)
  {
    AskedKeepsTimed(s, S.StopSpeculating(S.HandlePull(s, n)), now, cc, grant);
  }

  lemma CardKeepsTimed(s: S.Sender, now: nat, cc: S.Cc)
    requires I.Timed(s) && I.Times(s)
    ensures var r := S.TimeToSend(s, now, cc); r.Ok? ==> KeepsTimed(s, r.value.0, r.value.1, now)
  {
    var s1 := s.(blocked := false);
    SendNewTracks(s1, now, cc);
    SendRtxTracks(s1, now, cc);
    if S.TimeToSend(s, now, cc).Ok? {
      ThinnedSends(s, s1, S.TimeToSend(s, now, cc), now);
    }
  }

  lemma TimeoutKeepsTimed(s: S.Sender, now: nat, cc: S.Cc, grant: bool, grant': bool, recent: bool)
    requires I.Timed(s) && I.Times(s) && s.sendTimes.Keys != {}
    ensures var r := S.TimerExpired(s, now, cc, grant, grant', recent);
            r.Ok? ==> KeepsTimed(s, r.value.0, r.value.1, now)
  {
    var t := S.Least(s.sendTimes.Keys);
    var q := s.sendTimes[t];
    var s1 := s.(sendTimes := s.sendTimes - {t}, tx := s.tx - {q});
    OldestThins(s, t);
    BehindTracks(s1, q, s.tx[q].size, now, cc, grant, recent);
    AloneTracks(s1, q, s.tx[q].size, now, cc, grant, grant', recent);
    if S.TimerExpired(s, now, cc, grant, grant', recent).Ok? {
      ThinnedSends(s, s1, S.TimerExpired(s, now, cc, grant, grant', recent), now);
    }
  }

  lemma OldestThins(s: S.Sender, t: nat)
    requires I.Timed(s) && I.Times(s) && t in s.sendTimes
    ensures s.sendTimes[t] in s.tx
    ensures Thinned(s, s.(sendTimes := s.sendTimes - {t}, tx := s.tx - {s.sendTimes[t]}))
  {
    var s1 := s.(sendTimes := s.sendTimes - {t}, tx := s.tx - {s.sendTimes[t]});
    forall i | i in s1.sendTimes ensures s1.sendTimes[i] in s1.tx && s1.tx[s1.sendTimes[i]].sendTime == i {
      assert s.sendTimes[i] in s.tx;
    }
  }

  // ---------------------------------------------------------------- runs

  function PacketsOf(r: S.Sent): seq<S.Packet> {
    if r.Ok? then r.value.1 else []
  }

  /** The packets that the sender sends in answer to an action. */
  ghost function SentBy(s: Sys, a: Action): seq<S.Packet> {
    match a
    case AckArrives(k, now, cc, grant) => PacketsOf(S.ProcessAck(s.snd, k.cum, k.ref, k.bitmap, now, cc, grant))
    case NackArrives(q, now, cc, grant, grant') => PacketsOf(S.ProcessNack(s.snd, q, now, cc, grant, grant'))
    case PullArrives(n, now, cc, grant) => PacketsOf(S.ProcessPull(s.snd, n, now, cc, grant))
    case Timeout(now, cc, grant, grant', recent) => PacketsOf(S.TimerExpired(s.snd, now, cc, grant, grant', recent))
    case NicReady(now, cc) => PacketsOf(S.TimeToSend(s.snd, now, cc))
    case _ => []
  }

  /** When the sender acts; the receiver's actions send no packet of the sender. */
  function Instant(a: Action): nat {
    if a.AckArrives? || a.NackArrives? || a.PullArrives? || a.Timeout? || a.NicReady? then a.now else 0
  }

  /** No two packets of the run go out at one instant, and none at one of `seen`. */
  ghost predicate SendsApart(s: Sys, actions: seq<Action>, seen: set<nat>)
    requires Joined(s)
    decreases |actions|
  {
    if actions == [] then true
    else if !Enabled(s, actions[0]) then SendsApart(s, actions[1..], seen)
    else
      var a := actions[0];
      && |SentBy(s, a)| <= 1 && (SentBy(s, a) != [] ==> Instant(a) !in seen)
      && var o := Next(s, a);
         o.Ok? ==>
           (StaysJoined(s, a);
            SendsApart(o.value, actions[1..], seen + if SentBy(s, a) == [] then {} else {Instant(a)}))
  }

  lemma NextKeepsTimed(s: Sys, a: Action)
    requires Inv(s) && Enabled(s, a) && Next(s, a).Ok? && I.Timed(s.snd)
    ensures KeepsTimed(s.snd, Next(s, a).value.snd, SentBy(s, a), Instant(a))
  {
    match a
    case AckArrives(k, now, cc, grant) => AckKeepsTimed(s.snd, k, now, cc, grant);
    case NackArrives(q, now, cc, grant, grant') => NackKeepsTimed(s.snd, q, now, cc, grant, grant');
    case PullArrives(n, now, cc, grant) => PullKeepsTimed(s.snd, n, now, cc, grant);
    case Timeout(now, cc, grant, grant', recent) => TimeoutKeepsTimed(s.snd, now, cc, grant, grant', recent);
    case NicReady(now, cc) => CardKeepsTimed(s.snd, now, cc);
    case _ => SinkKeepsSender(s, a);
  }

  /** If no two packets share an instant, the timer watches every outstanding packet, in every state. */
  lemma {:induction false} RunKeepsTimed(s: Sys, actions: seq<Action>, seen: set<nat>)
    requires Inv(s) && StaysInReach(s, actions) && SendsApart(s, actions, seen)
    requires I.Timed(s.snd) && s.snd.sendTimes.Keys <= seen
    ensures Run(s, actions).Ok? ==> I.Timed(Run(s, actions).value.snd)
    decreases |actions|
  {
    if actions == [] {
    } else if !Enabled(s, actions[0]) {
      RunKeepsTimed(s, actions[1..], seen);
    } else if Next(s, actions[0]).Ok? {
      var a := actions[0];
      NextKeepsInv(s, a);
      NextKeepsTimed(s, a);
      RunKeepsTimed(Next(s, a).value, actions[1..], seen + if SentBy(s, a) == [] then {} else {Instant(a)});
    }
  }

  /** From the start of a flow that sends its packets at different instants: in every state with a packet
      out, a timeout is due. */
  lemma OutstandingHasTimer(
    c: Config, pacer: P.State<nat>, now: nat, cc: S.Cc, grants: nat, actions: seq<Action>)
    requires Awaiting(pacer) && grants <= 1
    ensures Init(c, pacer, now, cc, grants).Ok? && Joined(Init(c, pacer, now, cc, grants).value)
    ensures var s := Init(c, pacer, now, cc, grants).value;
            StaysInReach(s, actions) && SendsApart(s, actions, {now}) && Run(s, actions).Ok? ==>
              var t := Run(s, actions).value;
              I.Timed(t.snd) && (t.snd.tx != map[] ==> Enabled(t, Timeout(now, cc, true, true, false)))
  {
    InitInv(c, pacer, now, cc, grants);
    var s := Init(c, pacer, now, cc, grants).value;
    StartsTimed(S.ReadyToStart(S.Fresh(c.mss, c.maxWnd, c.flowSize)), now, cc, grants);
    if StaysInReach(s, actions) && SendsApart(s, actions, {now}) {
      RunKeepsTimed(s, actions, {now});
      if Run(s, actions).Ok? && Run(s, actions).value.snd.tx != map[] {
        TimedIsDue(Run(s, actions).value.snd);
      }
    }
  }

  lemma TimedIsDue(s: S.Sender)
    requires I.Timed(s) && s.tx != map[]
    ensures s.sendTimes.Keys != {}
  {
    var q :| q in s.tx;
    assert s.tx[q].sendTime in s.sendTimes;
  }

  lemma StartsTimed(s: S.Sender, now: nat, cc: S.Cc, grants: nat)
    requires s.tx == map[] && s.sendTimes == map[] && grants <= 1 && S.StartLoop(s, now, cc, grants).Ok?
    ensures var t := S.StartLoop(s, now, cc, grants).value.0; I.Timed(t) && t.sendTimes.Keys <= {now}
  {
    SendNewTracks(s, now, cc);
  }

  // ---------------------------------------------------------------- two packets at one instant

  /** The second packet of a flow that may send two at once is out, and so is the first. */
  ghost predicate TwoOut(c: Config, s: S.Sender) {
    && s.tx.Keys == {0, 1} && s.tx[0].sendTime == 0 && s.tx[1].sendTime == 0 && s.sendTimes == map[0 := 0]
    && s.rtx == map[] && s.highestSent == 2 && s.creditPull == 0 && !s.done
  }

  lemma SendsSecond(c: Config, s: S.Sender, sizes: seq<nat>)
    requires I.Good(s) && I.Sized(s, sizes) && OneOut(s, FirstSize(c)) && s.speculating && s.creditPull == 0
    requires s.creditSpec > 0 && s.unsent > 0
    ensures S.SendNew(s, 0, S.NoCc).Ok? && TwoOut(c, S.SendNew(s, 0, S.NoCc).value.0)
    ensures |S.SendNew(s, 0, S.NoCc).value.1| == 1 && S.SendNew(s, 0, S.NoCc).value.1[0].seqno == 1
  {
    I.SendNewGuards(s);
    I.SpendCreditOk(s, S.NextPayload(s) + S.HDR_SIZE);
    I.SendNewUnfolds(s, 0, S.NoCc);
    var t := S.SpendCredit(s, S.NextPayload(s) + S.HDR_SIZE).value.s;
    I.CountsNext(t);
    I.LaunchNewIs(t, 0, S.NoCc);
  }

  lemma StartsWithTwo(c: Config, pacer: P.State<nat>) returns (s: Sys)
    requires c.flowSize > c.mss && c.maxWnd > FirstSize(c) && Awaiting(pacer)
    ensures Init(c, pacer, 0, S.NoCc, 2) == Ok(s) && Inv(s) && TwoOut(c, s.snd)
    ensures FromSender(FirstPacket(c, S.NoCc)) in s.net && s.win == W.InitWindow && s.rcv == {}
  {
    InitInv(c, pacer, 0, S.NoCc, 2);
    s := Init(c, pacer, 0, S.NoCc, 2).value;
    TwoStart(c);
  }

  lemma TwoStart(c: Config)
    requires c.flowSize > c.mss && c.maxWnd > FirstSize(c)
    ensures var r := S.StartFlow(S.Fresh(c.mss, c.maxWnd, c.flowSize), 0, S.NoCc, 2);
            r.Ok? && TwoOut(c, r.value.0) && FirstPacket(c, S.NoCc) in r.value.1
  {
    var s0 := S.ReadyToStart(S.Fresh(c.mss, c.maxWnd, c.flowSize));
    I.ReadyToStartGood(c.mss, c.maxWnd, c.flowSize);
    SendsFirst(c, s0, 0, S.NoCc);
    I.SendNewSteps(s0, [], 0, S.NoCc);
    var r := S.SendNew(s0, 0, S.NoCc).value;
    SendsSecond(c, r.0, I.Extend([], r.1));
    var r' := S.SendNew(r.0, 0, S.NoCc).value;
    S.StartLoopEnds(r'.0, 0, S.NoCc, 0);
    I.StartFlowGood(c.mss, c.maxWnd, c.flowSize, 0, S.NoCc, 2);
    S.StartLoopUnfolds(s0, 0, S.NoCc, 2);
    S.StartLoopUnfolds(r.0, 0, S.NoCc, 1);
  }

  /** Two packets leave at one instant, the second is lost, and the first is acknowledged: the second is still
      out, but no timeout is due. It happens to every flow of more than one packet that may send two at once. */
  lemma UntimedReachable(c: Config, pacer: P.State<nat>, ecn: bool, now: nat, cc: S.Cc, grant: bool)
    requires c.flowSize > c.mss && c.maxWnd > FirstSize(c) && Awaiting(pacer)
    ensures Init(c, pacer, 0, S.NoCc, 2).Ok? && Joined(Init(c, pacer, 0, S.NoCc, 2).value)
    ensures var o := Run(Init(c, pacer, 0, S.NoCc, 2).value, EarlyAck(c, ecn, now, cc, grant));
            o.Ok? && var t := o.value.snd; 1 in t.tx && 1 !in o.value.rcv && t.sendTimes == map[] && !t.done
  {
    var s := StartsWithTwo(c, pacer);
    var t := FirstOfTwoArrives(c, s, ecn);
    var u := SecondUntimed(c, t, FirstAck(c, ecn), now, cc, grant);
    RunOne(s, DataArrives(FirstPacket(c, S.NoCc), ecn), t, [AckArrives(FirstAck(c, ecn), now, cc, grant)]);
    RunOne(t, AckArrives(FirstAck(c, ecn), now, cc, grant), u, []);
    assert [AckArrives(FirstAck(c, ecn), now, cc, grant)] + [] == [AckArrives(FirstAck(c, ecn), now, cc, grant)];
  }

  lemma FirstOfTwoArrives(c: Config, s: Sys, ecn: bool) returns (t: Sys)
    requires Inv(s) && FromSender(FirstPacket(c, S.NoCc)) in s.net && s.win == W.InitWindow && s.rcv == {}
    ensures Leads(s, DataArrives(FirstPacket(c, S.NoCc), ecn), t) && Inv(t)
    ensures t.snd == s.snd && t.rcv == {0} && AckMsg(FirstAck(c, ecn)) in t.net
  {
    t := DataLeads(s, FirstPacket(c, S.NoCc), ecn);
    FirstIsAnswered(c, ecn);
  }

  lemma SecondUntimed(c: Config, s: Sys, k: W.Ack, now: nat, cc: S.Cc, grant: bool) returns (t: Sys)
    requires Inv(s) && TwoOut(c, s.snd) && AckMsg(k) in s.net && s.rcv == {0} && k.cum == 1
    ensures Leads(s, AckArrives(k, now, cc, grant), t)
    ensures 1 in t.snd.tx && 1 !in t.rcv && t.snd.sendTimes == map[] && !t.snd.done
  {
    var pkts;
    AckBounded(s, k);
    assert !W.Acknowledges(k, 1);
    t, pkts := AckLeads(s, k, now, cc, grant);
    SecondRemains(c, s.snd, s.sizes, k, now, cc, grant);
  }

  lemma SecondRemains(c: Config, s: S.Sender, sizes: seq<nat>, k: W.Ack, now: nat, cc: S.Cc, grant: bool)
    requires I.Good(s) && I.Sized(s, sizes) && TwoOut(c, s) && k.cum == 1 && !W.Acknowledges(k, 1)
    ensures var r := S.ProcessAck(s, k.cum, k.ref, k.bitmap, now, cc, grant);
            r.Ok? && 1 in r.value.0.tx && r.value.0.sendTimes == map[] && !r.value.0.done
  {
    I.AcknowledgedKeeps(s, sizes, k.cum, k.ref, k.bitmap);
    SecondStays(c, s, k);
    I.UnpaidSendsNothing(I.Acknowledged(s, k.cum, k.ref, k.bitmap), now, cc, grant);
  }

  lemma SecondStays(c: Config, s: S.Sender, k: W.Ack)
    requires I.Counts(s) && TwoOut(c, s) && k.cum == 1 && !W.Acknowledges(k, 1) && I.PhaseOk(s)
    ensures var t := I.Acknowledged(s, k.cum, k.ref, k.bitmap);
            && 1 in t.tx && t.sendTimes == map[] && !t.done && t.creditPull == 0
            && !t.speculating && t.phase.Committed?
  {
    I.HandleAckExact(s, k.cum, k.ref, k.bitmap);
    I.AcknowledgedExact(s, k.cum, k.ref, k.bitmap);
    var s1 := S.HandleCumulativeAck(s, k.cum);
    assert s1.sendTimes == map[] by {
      assert 0 in s.tx && 0 < k.cum;
    }
  }
}
