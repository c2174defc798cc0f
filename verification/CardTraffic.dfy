/**
Source and card account for the same packets: each packet the source sends takes a port or, if it is a request-to-send,
waits among the control packets.
 */
module CardTraffic {
  import opened Outcomes
  import opened CardedSource
  import S = Sender
  import I = SenderInvariant
  import N = NicPorts
  import O = PortOrder

  /** The packets that the card sends or holds. */
  function Load(n: N.Nic<nat>): int {
    n.busyPorts + |n.control|
  }

  /** From `p` to `o` the card has taken on the packets that the source sent. */
  ghost predicate Carries(p: Pair, o: Outcome<Pair>, r: S.Sent) {
    o.Ok? ==> r.Ok? && N.Inv(o.value.card) && o.value.snd == r.value.0
              && Load(o.value.card) == Load(p.card) + |r.value.1|
  }

  /** A port goes from free to busy. */
  lemma TakesPort(n: N.Nic<nat>, m: N.Nic<nat>, p: nat, now: nat, packet: O.Packet)
    requires N.Inv(n) && N.Inv(m) && p < |n.ports| && !n.ports[p].busy && packet.Packet?
    requires m.ports == n.ports[p := O.Sending(now, packet.size, n.linkspeed)]
    ensures m.busyPorts == n.busyPorts + 1
  {
    N.CountUpdate(n.ports, p, O.Sending(now, packet.size, n.linkspeed));
  }

  /** The source asks for a port, and takes it if it sends. */
  lemma AskingCarries(card: N.Nic<nat>, now: nat, plan: seq<N.Decision>)
    requires N.Inv(card) && |plan| <= 1
    ensures N.SourceAsks(card, SRC, now, plan).Ok?
    ensures var m := N.SourceAsks(card, SRC, now, plan).value.nic;
            && N.Inv(m)
            && Load(m) == Load(card) + if !N.AllBusy(card) && plan != [] && plan[0].SendPacket? then 1 else 0
  {
    N.SourceAsksOk(card, SRC, now, plan);
    O.SourceWaitsOrGoes(card, SRC, now, plan);
    var m := N.SourceAsks(card, SRC, now, plan).value.nic;
    if !N.AllBusy(card) && plan != [] && plan[0].SendPacket? {
      TakesPort(card, m, m.rr, now, O.Packet(plan[0].size, false));
    }
  }

  lemma SendsAtMostOne(s: S.Sender, now: nat, cc: S.Cc)
    ensures S.SendPacket(s, now, cc).Ok? ==> |S.SendPacket(s, now, cc).value.1| <= 1
    ensures S.SendRtx(s, now, cc).Ok? ==> |S.SendRtx(s, now, cc).value.1| <= 1
  {
  }

  lemma AskCarries(p: Pair, now: nat, cc: S.Cc)
    requires N.Inv(p.card)
    ensures Carries(p, Ask(p, now, cc), S.SendIfPermitted(p.snd, now, cc, !N.AllBusy(p.card)))
  {
    if S.WantsToSend(p.snd, cc) {
      var r := S.SendIfPermitted(p.snd, now, cc, !N.AllBusy(p.card));
      if r.Ok? {
        SendsAtMostOne(p.snd, now, cc);
        AskingCarries(p.card, now, Decide(r.value.1, false));
      }
    }
  }

  lemma QueueingCarries(p: Pair, q: nat, size: nat, now: nat, cc: S.Cc)
    requires N.Inv(p.card)
    ensures Carries(p, QueueAndAsk(p, q, size, now, cc), S.QueueForRtx(p.snd, q, size, now, cc, !N.AllBusy(p.card)))
  {
    AskCarries(p.(snd := p.snd.(rtx := p.snd.rtx[q := size])), now, cc);
  }

  lemma RtsCarries(p: Pair, now: nat, recent: bool)
    requires N.Inv(p.card)
    ensures Carries(p, SendRts(p, now, recent), S.SendRts(p.snd, now, recent))
  {
    N.ControlArrivesOk(p.card, S.HDR_SIZE, now);
    O.ControlWaitsOrGoes(p.card, S.HDR_SIZE, now);
    N.CountBound(p.card.ports);
    if !N.AllBusy(p.card) {
      var m := N.ControlArrives(p.card, S.HDR_SIZE, now).value;
      TakesPort(p.card, m, m.rr, now, O.Packet(S.HDR_SIZE, false));
    }
  }

  lemma DirectlyCarries(p: Pair, now: nat, cc: S.Cc)
    requires N.Inv(p.card)
    ensures Carries(p, AskDirectly(p, now, cc),
                    if N.AllBusy(p.card) then Ok((p.snd, [])) else S.SendRtx(p.snd, now, cc))
  {
    if N.AllBusy(p.card) {
      AskingCarries(p.card, now, []);
    } else if S.SendRtx(p.snd, now, cc).Ok? {
      SendsAtMostOne(p.snd, now, cc);
      var r := S.SendRtx(p.snd, now, cc).value;
      AskingCarries(p.card, now, if r.1 == [] then [N.CannotSend] else [N.SendPacket(1, false)]);
    }
  }

  lemma BehindCarries(p: Pair, q: nat, size: nat, now: nat, cc: S.Cc, recent: bool)
    requires N.Inv(p.card)
    ensures Carries(p, TimedOutBehind(p, q, size, now, cc, recent),
                    S.QueueBehind(p.snd, q, size, now, cc, !N.AllBusy(p.card), recent))
  {
    var p1 := p.(snd := S.StopSpeculating(p.snd));
    QueueingCarries(p1, q, size, now, cc);
    if QueueAndAsk(p1, q, size, now, cc).Ok? {
      RtsCarries(QueueAndAsk(p1, q, size, now, cc).value, now, recent);
    }
  }

  lemma AloneCarries(p: Pair, q: nat, size: nat, now: nat, cc: S.Cc, recent: bool)
    requires N.Inv(p.card)
    ensures var second := FreeAfter(QueueAndAsk(p, q, size, now, cc));
            Carries(p, TimedOutAlone(p, q, size, now, cc, recent),
                    S.QueueAlone(p.snd, q, size, now, cc, !N.AllBusy(p.card), second, recent))
  {
    QueueingCarries(p, q, size, now, cc);
    if QueueAndAsk(p, q, size, now, cc).Ok? {
      var p1 := QueueAndAsk(p, q, size, now, cc).value;
      RtsCarries(p1, now, recent);
      DirectlyCarries(p1, now, cc);
    }
  }

  /** What the source sends at an event, its grants being the card's answers. */
  ghost function SentAt(p: Pair, e: Event): S.Sent
    requires Possible(p, e) && (e.Acked? || e.Refused? || e.Pulled? || e.TimedOut?)
  {
    var first, second := !N.AllBusy(p.card), SecondAnswer(p, e);
    match e
    case Acked(cum, ref, bitmap, now, cc) => S.ProcessAck(p.snd, cum, ref, bitmap, now, cc, first)
    case Refused(q, now, cc) => S.ProcessNack(p.snd, q, now, cc, first, second)
    case Pulled(n, now, cc) => S.ProcessPull(p.snd, n, now, cc, first)
    case TimedOut(now, cc, recent) => S.TimerExpired(p.snd, now, cc, first, second, recent)
  }

  /** At every event that reaches the source, each packet that it sends takes a port, or waits among the control
      packets, and nothing else is added to the card. */
  lemma SourceCarries(p: Pair, e: Event)
    requires N.Inv(p.card) && Possible(p, e) && (e.Acked? || e.Refused? || e.Pulled? || e.TimedOut?)
    ensures Carries(p, Step(p, e), SentAt(p, e))
  {
    match e
    case Acked(cum, ref, bitmap, now, cc) =>
      AskCarries(p.(snd := I.Acknowledged(p.snd, cum, ref, bitmap)), now, cc);
    case Refused(q, now, cc) =>
      if q in p.snd.tx {
        var p1 := WithoutRefused(p, q);
        QueueingCarries(p1, q, p.snd.tx[q].size, now, cc);
        if QueueAndAsk(p1, q, p.snd.tx[q].size, now, cc).Ok? {
          AskCarries(QueueAndAsk(p1, q, p.snd.tx[q].size, now, cc).value, now, cc);
        }
      }
    case Pulled(n, now, cc) => AskCarries(p.(snd := S.StopSpeculating(S.HandlePull(p.snd, n))), now, cc);
    case TimedOut(now, cc, recent) =>
      var t := S.Least(p.snd.sendTimes.Keys);
      var q := p.snd.sendTimes[t];
      if q in p.snd.tx {
        BehindCarries(WithoutTimedOut(p, t, q), q, p.snd.tx[q].size, now, cc, recent);
        AloneCarries(WithoutTimedOut(p, t, q), q, p.snd.tx[q].size, now, cc, recent);
      }
  }

  // ---------------------------------------------------------------- call-backs

  /** The first of the queue that can send is the source, if it is called and has a packet. */
  lemma {:induction false} ResolveSends(
    s: S.Sender, queue: seq<nat>, control: seq<nat>, now: nat, cc: S.Cc, plan: seq<N.Decision>)
    requires Resolve(s, queue, now, cc, plan).Ok? && IsCalled(queue, plan)
    requires S.TimeToSend(s, now, cc).Ok? && S.TimeToSend(s, now, cc).value.1 != []
    ensures var r, (t, pkts) := Resolve(s, queue, now, cc, plan).value, S.TimeToSend(s, now, cc).value;
            r.0 == t && O.FirstToSend(|queue|, control, r.1) == O.Packet(I.SizeOf(pkts[0]), false)
    decreases |queue|
  {
    if queue[0] != SRC {
      ResolveSends(s, queue[1..], control, now, cc, if plan == [] then [] else plan[1..]);
    }
  }

  /** A source that is called back and sends gets the port that has become free, for as long as its packet takes. */
  lemma CallBackCarries(p: Pair, now: nat, cc: S.Cc, plan: seq<N.Decision>)
    requires N.Inv(p.card) && now in p.card.pending && SourcesTurn(p.card) && IsCalled(p.card.queue, plan)
    requires S.TimeToSend(p.snd, now, cc).Ok? && S.TimeToSend(p.snd, now, cc).value.1 != []
    requires FreePort(p, now, cc, plan).Ok?
    ensures var t, (s, pkts) := FreePort(p, now, cc, plan).value, S.TimeToSend(p.snd, now, cc).value;
            var i := N.FirstDone(p.card.ports, now, 0);
            && t.snd == s && t.card.control == p.card.control && i < |t.card.ports|
            && t.card.ports == p.card.ports[i := O.Sending(now, I.SizeOf(pkts[0]), p.card.linkspeed)]
  {
    var r := Resolve(p.snd, p.card.queue, now, cc, plan).value;
    ResolveSends(p.snd, p.card.queue, p.card.control, now, cc, plan);
    O.FreedPortIsUsed(p.card, now, r.1);
  }
}
