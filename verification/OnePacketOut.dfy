/** How a flow starts: its first packet, and what a flow looks like whose card lets it send exactly one. Runs
    that show what can go wrong begin here. */
module OnePacketOut {
  import opened Outcomes
  import opened Quanta
  import opened Protocol
  import S = Sender
  import I = SenderInvariant
  import P = PullPacer
  import W = ReceiveWindow

  /** The flow has just been allowed one packet, at time 0, without congestion control at the sender. */
  function Started(c: Config, pacer: P.State<nat>): Outcome<Sys> {
    Init(c, pacer, 0, S.NoCc, 1)
  }

  /** A sender that is ready to start. */
  function Ready(c: Config): S.Sender {
    S.ReadyToStart(S.Fresh(c.mss, c.maxWnd, c.flowSize))
  }

  /** The bytes of the flow with all its headers. */
  function TotalBytes(c: Config): nat {
    c.flowSize + S.HDR_SIZE * S.CeilDiv(c.flowSize, c.mss)
  }

  function FirstPayload(c: Config): nat {
    S.Min(c.mss, c.flowSize)
  }

  function FirstSize(c: Config): nat {
    FirstPayload(c) + S.HDR_SIZE
  }

  /** The demand that the first packet announces, in bytes. */
  function FirstTarget(c: Config, cc: S.Cc): int {
    var backlog := TotalBytes(c) - FirstSize(c);
    S.Min(if cc.Window? then S.Min(backlog, cc.cwnd + c.mss + S.HDR_SIZE) else backlog, c.maxWnd)
    - (c.maxWnd - FirstSize(c)) + Unquantize(INIT_PULL)
  }

  function FirstPacket(c: Config, cc: S.Cc): S.Packet {
    S.Data(0, FirstSize(c), QuantizeCeil(FirstTarget(c, cc)), TotalBytes(c) == FirstSize(c))
  }

  /** The answer to the first packet, which is never withheld. */
  function FirstAck(c: Config, ecn: bool): (k: W.Ack)
    ensures k.cum == 1
  {
    W.ReceiveData(W.InitWindow, Arrival(FirstPacket(c, S.NoCc), ecn)).1.ack
  }

  lemma FirstIsAnswered(c: Config, ecn: bool)
    ensures AckMessages(W.ReceiveData(W.InitWindow, Arrival(FirstPacket(c, S.NoCc), ecn)).1)
            == {AckMsg(FirstAck(c, ecn))}
  {
  }

  /** The first packet arrives, and its acknowledgement reaches the sender. */
  function EarlyAck(c: Config, ecn: bool, now: nat, cc: S.Cc, grant: bool): seq<Action> {
    [DataArrives(FirstPacket(c, S.NoCc), ecn)] + [AckArrives(FirstAck(c, ecn), now, cc, grant)]
  }

  /** One packet of `size` bytes is out since time 0, and nothing else has happened. */
  ghost predicate OneOut(s: S.Sender, size: nat) {
    && s.tx == map[0 := S.Record(size, 0)] && s.sendTimes == map[0 := 0] && s.rtx == map[]
    && s.highestSent == 1 && s.rtsSent == 0
    && S.HDR_SIZE < size <= s.Mtu() && !s.done
  }

  /** The sender of a flow that was allowed its first packet. */
  ghost predicate FirstOut(c: Config, s: S.Sender) {
    && OneOut(s, FirstSize(c))
    && s.speculating && s.creditPull == 0 && s.creditSpec == c.maxWnd - FirstSize(c)
    && s.maxWnd == c.maxWnd && s.mss == c.mss && s.flowSize == c.flowSize && s.pull == INIT_PULL
    && s.unsent == c.flowSize - FirstPayload(c) && s.inFlight == FirstSize(c)
    && (s.blocked <==> s.creditSpec > 0 && s.unsent > 0)
  }

  lemma StartsWithOne(c: Config, pacer: P.State<nat>)
    requires c.maxWnd > 0 && c.flowSize > 0 && Awaiting(pacer)
    ensures Started(c, pacer).Ok?
    ensures var s := Started(c, pacer).value;
            && Inv(s) && FirstOut(c, s.snd) && s.net == {FromSender(FirstPacket(c, S.NoCc))}
            && s.win == W.InitWindow && s.pacer == Join(pacer, c.maxWnd) && s.rcv == {}
  {
    InitInv(c, pacer, 0, S.NoCc, 1);
    var s0 := Ready(c);
    SendsFirst(c, s0, 0, S.NoCc);
    var r := S.SendNew(s0, 0, S.NoCc).value;
    S.StartLoopUnfolds(s0, 0, S.NoCc, 1);
    S.StartLoopEnds(r.0, 0, S.NoCc, 0);
    assert [FirstPacket(c, S.NoCc)] + [] == [FirstPacket(c, S.NoCc)];
    assert Messages([FirstPacket(c, S.NoCc)]) == {FromSender(FirstPacket(c, S.NoCc))};
  }

  lemma SendsFirst(c: Config, s: S.Sender, now: nat, cc: S.Cc)
    requires c.maxWnd > 0 && c.flowSize > 0 && s == Ready(c)
    ensures S.SendNew(s, now, cc).Ok?
    ensures S.SendNew(s, now, cc).value.1 == [FirstPacket(c, cc)]
    ensures var t := S.SendNew(s, now, cc).value.0;
            && (now == 0 ==> OneOut(t, FirstSize(c))) && t.highestSent == 1 && t.speculating && t.creditPull == 0
            && t.creditSpec == c.maxWnd - FirstSize(c) && t.unsent == c.flowSize - FirstPayload(c) && !t.blocked
            && t.inFlight == FirstSize(c) && t.pull == INIT_PULL && t.maxWnd == c.maxWnd && t.mss == c.mss
            && t.flowSize == c.flowSize
  {
    I.ReadyToStartGood(c.mss, c.maxWnd, c.flowSize);
    I.SendNewGuards(s);
    I.SpendCreditOk(s, FirstSize(c));
    I.SendNewUnfolds(s, now, cc);
    var t := S.SpendCredit(s, FirstSize(c)).value.s;
    I.CountsNext(t);
    I.LaunchNewIs(t, now, cc);
  }
}
