/**
One source together with its interface card: the card's answers are no longer free, and the card calls the
source back only when the source waits in its queue. Other sources and control packets share the card.
 */
module CardedSource {
  import opened Outcomes
  import opened Cyclic
  import opened OnePacketOut
  import opened Protocol
  import S = Sender
  import I = SenderInvariant
  import N = NicPorts
  import Bits

  /** The source's name at its card. */
  const SRC: nat := 0

  datatype Pair = Pair(snd: S.Sender, card: N.Nic<nat>)

  /** What the card is told: nothing could be sent, or a packet was, and perhaps the source asks again. */
  function Decide(pkts: seq<S.Packet>, again: bool): seq<N.Decision> {
    if pkts == [] then [N.CannotSend] else [N.SendPacket(I.SizeOf(pkts[0]), again)]
  }

  /** The source asks its card if it wants to send, and sends if it may. */
  function Ask(p: Pair, now: nat, cc: S.Cc): Outcome<Pair> {
    if !S.WantsToSend(p.snd, cc) then Ok(p)
    else
      var r :- S.SendIfPermitted(p.snd, now, cc, !N.AllBusy(p.card));
      var c :- N.SourceAsks(p.card, SRC, now, Decide(r.1, false));
      Ok(Pair(r.0, c.nic))
  }

  function QueueAndAsk(p: Pair, q: nat, size: nat, now: nat, cc: S.Cc): Outcome<Pair> {
    if q in p.snd.rtx then Aborted
    else
      var p1 := p.(snd := p.snd.(rtx := p.snd.rtx[q := size]));
      if p1.snd.speculating then Ok(p1) else Ask(p1, now, cc)
  }

  /** A request-to-send goes out as a control packet. */
  function SendRts(p: Pair, now: nat, recent: bool): Outcome<Pair> {
    var r :- S.SendRts(p.snd, now, recent);
    if r.1 == [] then Ok(Pair(r.0, p.card))
    else
      var c :- N.ControlArrives(p.card, S.HDR_SIZE, now);
      Ok(Pair(r.0, c))
  }

  /** After a timeout the source asks the card without looking whether it waits there already, and does not
      remember a refusal. The card is told a size of one byte. */
  function AskDirectly(p: Pair, now: nat, cc: S.Cc): Outcome<Pair> {
    if N.AllBusy(p.card) then
      var c :- N.SourceAsks(p.card, SRC, now, []);
      Ok(p.(card := c.nic))
    else
      var r :- S.SendRtx(p.snd, now, cc);
      var c :- N.SourceAsks(p.card, SRC, now, if r.1 == [] then [N.CannotSend] else [N.SendPacket(1, false)]);
      Ok(Pair(r.0, c.nic))
  }

  function TimedOutAlone(p: Pair, q: nat, size: nat, now: nat, cc: S.Cc, recent: bool): Outcome<Pair> {
    var p1 :- QueueAndAsk(p, q, size, now, cc);
    if (cc.Window? && cc.cwnd < size + p1.snd.inFlight) || p1.snd.creditPull <= 0 then SendRts(p1, now, recent)
    else AskDirectly(p1, now, cc)
  }

  function TimedOutBehind(p: Pair, q: nat, size: nat, now: nat, cc: S.Cc, recent: bool): Outcome<Pair> {
    var p1 :- QueueAndAsk(p.(snd := S.StopSpeculating(p.snd)), q, size, now, cc);
    SendRts(p1, now, recent)
  }

  /** It is the sources' turn when a port becomes free. */
  predicate SourcesTurn(n: N.Nic<nat>) {
    n.numQueued > 0 && (n.control == [] || N.Turn(n.crt) < N.RATIO_DATA)
  }

  /** What the sources in the queue decide, one after the other until one of them sends. `plan` are the decisions
      of the other sources. */
  function Resolve(s: S.Sender, queue: seq<nat>, now: nat, cc: S.Cc, plan: seq<N.Decision>)
    : Outcome<(S.Sender, seq<N.Decision>)>
    decreases |queue|
  {
    if queue == [] then Ok((s, []))
    else if queue[0] == SRC then
      var r :- S.TimeToSend(s, now, cc);
      if r.1 != [] then Ok((r.0, Decide(r.1, r.0.blocked)))
      else
        var rest :- Resolve(r.0, queue[1..], now, cc, plan);
        Ok((rest.0, [N.CannotSend] + rest.1))
    else if plan == [] || plan[0].CannotSend? then
      var rest :- Resolve(s, queue[1..], now, cc, if plan == [] then [] else plan[1..]);
      Ok((rest.0, [N.CannotSend] + rest.1))
    else Ok((s, [plan[0]]))
  }

  function FreePort(p: Pair, now: nat, cc: S.Cc, plan: seq<N.Decision>): Outcome<Pair> {
    if !SourcesTurn(p.card) then
      var c :- N.PortDone(p.card, now, plan);
      Ok(p.(card := c.nic))
    else
      var r :- Resolve(p.snd, p.card.queue, now, cc, plan);
      var c :- N.PortDone(p.card, now, r.1);
      Ok(Pair(r.0, c.nic))
  }

  datatype Event =
    | Acked(cum: nat, ref: nat, bitmap: nat, now: nat, cc: S.Cc)
    | Refused(seqno: nat, now: nat, cc: S.Cc)
    | Pulled(pullno: nat, now: nat, cc: S.Cc)
    | TimedOut(now: nat, cc: S.Cc, recent: bool)
    | PortDone(now: nat, cc: S.Cc, plan: seq<N.Decision>)
    | OtherAsks(src: nat, now: nat, plan: seq<N.Decision>)
    | ControlPacket(size: nat, now: nat)

  /** A sound acknowledgement never lies beyond what was sent. */
  predicate Possible(p: Pair, e: Event) {
    && (e.Acked? ==> e.cum <= p.snd.highestSent)
    && (e.TimedOut? ==> p.snd.sendTimes.Keys != {})
    && (e.PortDone? ==> e.now in p.card.pending)
    && (e.OtherAsks? ==> e.src != SRC)
  }

  ghost function Step(p: Pair, e: Event): Outcome<Pair>
    requires Possible(p, e)
  {
    match e
    case Acked(cum, ref, bitmap, now, cc) =>
      var p1 := p.(snd := I.Acknowledged(p.snd, cum, ref, bitmap));
      if p1.snd.done then Ok(p1) else Ask(p1, now, cc)
    case Refused(q, now, cc) =>
      if q !in p.snd.tx then Aborted
      else
        var p1 :- QueueAndAsk(p.(snd := S.StopSpeculating(S.Drop(p.snd, {q}))), q, p.snd.tx[q].size, now, cc);
        Ask(p1, now, cc)
    case Pulled(n, now, cc) => Ask(p.(snd := S.StopSpeculating(S.HandlePull(p.snd, n))), now, cc)
    case TimedOut(now, cc, recent) =>
      var t := S.Least(p.snd.sendTimes.Keys);
      var q := p.snd.sendTimes[t];
      if q !in p.snd.tx then Aborted
      else
        var p1 := p.(snd := p.snd.(sendTimes := p.snd.sendTimes - {t}, tx := p.snd.tx - {q}));
        if p.snd.rtx.Keys != {} then TimedOutBehind(p1, q, p.snd.tx[q].size, now, cc, recent)
        else TimedOutAlone(p1, q, p.snd.tx[q].size, now, cc, recent)
    case PortDone(now, cc, plan) => FreePort(p, now, cc, plan)
    case OtherAsks(src, now, plan) =>
      var c :- N.SourceAsks(p.card, src, now, plan);
      Ok(p.(card := c.nic))
    case ControlPacket(size, now) =>
      var c :- N.ControlArrives(p.card, size, now);
      Ok(p.(card := c))
  }

  // ---------------------------------------------------------------- the card's queue

  /** How often the source waits at its card. */
  function Waiting(n: N.Nic<nat>): nat {
    multiset(n.queue)[SRC]
  }

  /** The queue after the card has called sources until one of them sends. */
  function QueueAfter(queue: seq<nat>, plan: seq<N.Decision>): seq<nat> {
    if queue == [] then []
    else if plan == [] || plan[0].CannotSend? then QueueAfter(queue[1..], if plan == [] then [] else plan[1..])
    else queue[1..] + if plan[0].again then [queue[0]] else []
  }

  lemma {:induction false} CallNextQueue(n: N.Nic<nat>, now: nat, plan: seq<N.Decision>)
    requires n.numQueued == |n.queue| && n.queue != [] && N.CallNext(n, now, plan).Ok?
    ensures N.CallNext(n, now, plan).value.nic.queue == QueueAfter(n.queue, plan)
    decreases |n.queue|
  {
    var m := N.FindFreePort(n).value;
    assert N.CallNext(n, now, plan) == N.TimeToSend(m, m.queue[0], now, plan);
    if plan == [] || plan[0].CannotSend? {
      assert N.TimeToSend(m, m.queue[0], now, plan)
        == N.CantSend(m, m.queue[0], now, if plan == [] then [] else plan[1..]);
      var rest := if plan == [] then [] else plan[1..];
      var popped := N.PopSource(m, m.queue[0]).value;
      if popped.numQueued > 0 {
        assert N.CantSend(m, m.queue[0], now, rest) == N.CallNext(popped, now, rest);
        CallNextQueue(popped, now, rest);
      }
    }
  }

  lemma PortDoneQueue(n: N.Nic<nat>, now: nat, plan: seq<N.Decision>)
    requires n.numQueued == |n.queue| && N.PortDone(n, now, plan).Ok?
    ensures N.PortDone(n, now, plan).value.nic.queue == if SourcesTurn(n) then QueueAfter(n.queue, plan) else n.queue
  {
    var p := N.FirstDone(n.ports, now, 0);
    var m := n.(busyPorts := n.busyPorts - 1, ports := n.ports[p := N.Port(false, now)],
      pending := n.pending - multiset{now});
    if n.numQueued > 0 && (n.control == [] || N.Turn(n.crt) < N.RATIO_DATA) {
      var c := if n.control == [] then m else m.(crt := N.Turn(n.crt));
      CallNextQueue(c, now, plan);
    }
  }

  lemma AsksQueue(n: N.Nic<nat>, src: nat, now: nat, plan: seq<N.Decision>)
    requires N.Inv(n) && N.SourceAsks(n, src, now, plan).Ok?
    ensures N.SourceAsks(n, src, now, plan).value.nic.queue == if N.AllBusy(n) then n.queue + [src] else n.queue
  {
    if !N.AllBusy(n) {
      N.CountBound(n.ports);
    }
  }

  lemma ControlQueue(n: N.Nic<nat>, size: nat, now: nat)
    requires N.ControlArrives(n, size, now).Ok?
    ensures N.ControlArrives(n, size, now).value.queue == n.queue
  {
  }

  // ---------------------------------------------------------------- what a call-back does

  /** The source is among those that the card calls. */
  predicate IsCalled(queue: seq<nat>, plan: seq<N.Decision>) {
    queue != [] &&
    (|| queue[0] == SRC
     || ((plan == [] || plan[0].CannotSend?) && IsCalled(queue[1..], if plan == [] then [] else plan[1..])))
  }

  predicate NothingToSend(s: S.Sender) {
    s.unsent == 0 && s.rtx.Keys == {}
  }

  /** A source that is called back forgets that it waits, unless there is nothing to send or it asks again. */
  lemma CallBackForgets(s: S.Sender, now: nat, cc: S.Cc)
    requires S.TimeToSend(s, now, cc).Ok?
    ensures var r := S.TimeToSend(s, now, cc).value;
            && (r.1 == [] ==> if NothingToSend(s) then r.0 == s else !r.0.blocked)
            && (NothingToSend(s) ==> r.1 == [])
  {
  }

  lemma CountHead(queue: seq<nat>)
    requires queue != []
    ensures multiset(queue)[SRC] == (if queue[0] == SRC then 1 else 0) + multiset(queue[1..])[SRC]
  {
    assert queue == [queue[0]] + queue[1..];
  }

  lemma CountLast(queue: seq<nat>, src: nat)
    ensures multiset(queue + [src])[SRC] == multiset(queue)[SRC] + if src == SRC then 1 else 0
  {
  }

  /** A source that waits once is called at most once. It waits again exactly if it asked again, unless it was
      called with nothing to send: then it still believes that it waits. */
  lemma {:induction false} ResolveWaits(s: S.Sender, queue: seq<nat>, now: nat, cc: S.Cc, plan: seq<N.Decision>)
    requires Resolve(s, queue, now, cc, plan).Ok? && multiset(queue)[SRC] == (if s.blocked then 1 else 0)
    ensures var r := Resolve(s, queue, now, cc, plan).value;
            multiset(QueueAfter(queue, r.1))[SRC] == (if r.0.blocked then 1 else 0)
            <==> !(IsCalled(queue, plan) && NothingToSend(s))
    decreases |queue|
  {
    if queue != [] {
      CountHead(queue);
      if queue[0] == SRC {
        CallBackForgets(s, now, cc);
        CountLast(queue[1..], SRC);
        var r := S.TimeToSend(s, now, cc).value;
        if r.1 == [] {
          ResolveSpares(r.0, queue[1..], now, cc, plan);
        }
      } else if plan == [] || plan[0].CannotSend? {
        ResolveWaits(s, queue[1..], now, cc, if plan == [] then [] else plan[1..]);
      } else {
        CountLast(queue[1..], queue[0]);
      }
    }
  }

  /** A source that does not wait is not called. */
  lemma {:induction false} ResolveSpares(s: S.Sender, queue: seq<nat>, now: nat, cc: S.Cc, plan: seq<N.Decision>)
    requires multiset(queue)[SRC] == 0
    ensures Resolve(s, queue, now, cc, plan).Ok?
    ensures var r := Resolve(s, queue, now, cc, plan).value; r.0 == s && multiset(QueueAfter(queue, r.1))[SRC] == 0
    ensures !IsCalled(queue, plan)
    decreases |queue|
  {
    if queue != [] {
      CountHead(queue);
      if plan == [] || plan[0].CannotSend? {
        ResolveSpares(s, queue[1..], now, cc, if plan == [] then [] else plan[1..]);
      } else {
        CountLast(queue[1..], queue[0]);
      }
    }
  }

  // ---------------------------------------------------------------- who waits

  /** The source believes that it waits exactly if it does, and it waits at most once. */
  ghost predicate Clean(p: Pair) {
    N.Inv(p.card) && Waiting(p.card) == if p.snd.blocked then 1 else 0
  }

  /** Nobody waits while a port is free. */
  lemma FreeMeansNobodyWaits(p: Pair)
    requires Clean(p) && !N.AllBusy(p.card)
    ensures !p.snd.blocked
  {
  }

  lemma SendingKeepsBlocked(s: S.Sender, now: nat, cc: S.Cc)
    ensures S.SendPacket(s, now, cc).Ok? ==> S.SendPacket(s, now, cc).value.0.blocked == s.blocked
    ensures S.SendRtx(s, now, cc).Ok? ==> S.SendRtx(s, now, cc).value.0.blocked == s.blocked
  {
  }

  /** Asking in the ordinary way keeps the source and its card in step. */
  lemma AskKeepsClean(p: Pair, now: nat, cc: S.Cc)
    requires Clean(p) && Ask(p, now, cc).Ok?
    ensures Clean(Ask(p, now, cc).value)
  {
    if S.WantsToSend(p.snd, cc) {
      var granted := !N.AllBusy(p.card);
      var r := S.SendIfPermitted(p.snd, now, cc, granted).value;
      SendingKeepsBlocked(p.snd, now, cc);
      N.SourceAsksOk(p.card, SRC, now, Decide(r.1, false));
      AsksQueue(p.card, SRC, now, Decide(r.1, false));
      CountLast(p.card.queue, SRC);
    }
  }

  lemma QueueingKeepsClean(p: Pair, q: nat, size: nat, now: nat, cc: S.Cc)
    requires Clean(p) && QueueAndAsk(p, q, size, now, cc).Ok?
    ensures Clean(QueueAndAsk(p, q, size, now, cc).value)
  {
    var p1 := p.(snd := p.snd.(rtx := p.snd.rtx[q := size]));
    if !p1.snd.speculating {
      AskKeepsClean(p1, now, cc);
    }
  }

  lemma RtsKeepsClean(p: Pair, now: nat, recent: bool)
    requires Clean(p) && SendRts(p, now, recent).Ok?
    ensures Clean(SendRts(p, now, recent).value)
  {
    N.ControlArrivesOk(p.card, S.HDR_SIZE, now);
    ControlQueue(p.card, S.HDR_SIZE, now);
  }

  /** Asking directly breaks step exactly if the card refuses. */
  lemma DirectlyKeepsCleanIff(p: Pair, now: nat, cc: S.Cc)
    requires Clean(p) && AskDirectly(p, now, cc).Ok?
    ensures Clean(AskDirectly(p, now, cc).value) <==> !N.AllBusy(p.card)
  {
    SendingKeepsBlocked(p.snd, now, cc);
    if N.AllBusy(p.card) {
      N.SourceAsksOk(p.card, SRC, now, []);
      AsksQueue(p.card, SRC, now, []);
      CountLast(p.card.queue, SRC);
    } else {
      var r := S.SendRtx(p.snd, now, cc).value;
      var plan := if r.1 == [] then [N.CannotSend] else [N.SendPacket(1, false)];
      N.SourceAsksOk(p.card, SRC, now, plan);
      AsksQueue(p.card, SRC, now, plan);
    }
  }

  lemma PortKeepsCleanIff(p: Pair, now: nat, cc: S.Cc, plan: seq<N.Decision>)
    requires Clean(p) && now in p.card.pending && FreePort(p, now, cc, plan).Ok?
    ensures Clean(FreePort(p, now, cc, plan).value)
            <==> !(SourcesTurn(p.card) && IsCalled(p.card.queue, plan) && NothingToSend(p.snd))
  {
    if SourcesTurn(p.card) {
      var r := Resolve(p.snd, p.card.queue, now, cc, plan).value;
      ResolveWaits(p.snd, p.card.queue, now, cc, plan);
      N.PortDoneOk(p.card, now, r.1);
      PortDoneQueue(p.card, now, r.1);
    } else {
      N.PortDoneOk(p.card, now, plan);
      PortDoneQueue(p.card, now, plan);
    }
  }

  // ---------------------------------------------------------------- exactly when they fall out of step

  /** After a timeout on an empty retransmit queue the source asks directly and is refused: all ports are busy,
      or the packet has just taken the last one. */
  predicate TimeoutSlips(p: Pair, cc: S.Cc)
    requires p.snd.sendTimes.Keys != {}
  {
    var s := p.snd;
    var q := s.sendTimes[S.Least(s.sendTimes.Keys)];
    q in s.tx && s.rtx.Keys == {} && !s.speculating &&
    var size := s.tx[q].size;
    if N.AllBusy(p.card) then s.creditPull > 0 && (cc.Window? ==> s.inFlight + size <= cc.cwnd)
    else
      && p.card.busyPorts + 1 == |p.card.ports| && s.Credit() > 0 && s.creditPull > size
      && (cc.Window? ==> s.inFlight < cc.cwnd && s.inFlight + 2 * size <= cc.cwnd)
  }

  /** The card calls the source back, which has nothing to send any more. */
  predicate CallBackSlips(p: Pair, plan: seq<N.Decision>) {
    SourcesTurn(p.card) && IsCalled(p.card.queue, plan) && NothingToSend(p.snd)
  }

  predicate Slips(p: Pair, e: Event)
    requires Possible(p, e)
  {
    (e.TimedOut? && TimeoutSlips(p, e.cc)) || (e.PortDone? && CallBackSlips(p, e.plan))
  }

  /** What the first question after a timeout does to a source with nothing else to resend. */
  lemma FirstQuestion(p: Pair, sizes: seq<nat>, q: nat, now: nat, cc: S.Cc)
    requires Clean(p) && I.Good(p.snd) && I.Sized(p.snd, sizes) && q in p.snd.rtx && p.snd.rtx.Keys == {q}
    requires !p.snd.speculating && Ask(p, now, cc).Ok?
    ensures var u := Ask(p, now, cc).value; var busy := N.AllBusy(p.card);
            && I.AskedAlone(p.snd, u.snd, p.snd.rtx[q], cc, !busy)
            && (u.snd.rtx.Keys == {} ==> |u.card.ports| == |p.card.ports| && u.card.busyPorts == p.card.busyPorts + 1)
            && (u.snd.rtx.Keys != {} ==> (N.AllBusy(u.card) <==> busy))
  {
    var granted := !N.AllBusy(p.card);
    I.PermittedAlone(p.snd, sizes, q, now, cc, granted);
    if S.WantsToSend(p.snd, cc) {
      var r := S.SendIfPermitted(p.snd, now, cc, granted).value;
      if granted {
        FreeMeansNobodyWaits(p);
        I.SendRtxSteps(p.snd, sizes, now, cc);
        GrantedPort(p.card, now, Decide(r.1, false));
      }
    }
  }

  lemma GrantedPort(n: N.Nic<nat>, now: nat, plan: seq<N.Decision>)
    requires N.Inv(n) && !N.AllBusy(n) && N.SourceAsks(n, SRC, now, plan).Ok? && plan != []
    ensures var c := N.SourceAsks(n, SRC, now, plan).value.nic;
            && |c.ports| == |n.ports|
            && c.busyPorts == n.busyPorts + if plan[0].SendPacket? then 1 else 0
  {
    N.CountBound(n.ports);
  }

  lemma AloneKeepsCleanIff(
    p: Pair, s: S.Sender, sizes: seq<nat>, q: nat, now: nat, cc: S.Cc, recent: bool)
    requires Clean(p) && I.Good(s) && I.Sized(s, sizes) && q in s.tx && s.rtx.Keys == {} && q !in p.snd.rtx
    requires p.snd == s.(tx := p.snd.tx, sendTimes := p.snd.sendTimes)
    requires I.Moved(s, p.snd.(rtx := p.snd.rtx[q := s.tx[q].size]), q)
    requires TimedOutAlone(p, q, s.tx[q].size, now, cc, recent).Ok?
    ensures var size := s.tx[q].size;
            Clean(TimedOutAlone(p, q, size, now, cc, recent).value)
            <==> !(!s.speculating &&
                   if N.AllBusy(p.card) then s.creditPull > 0 && (cc.Window? ==> s.inFlight + size <= cc.cwnd)
                   else
                     && p.card.busyPorts + 1 == |p.card.ports| && s.Credit() > 0 && s.creditPull > size
                     && (cc.Window? ==> s.inFlight < cc.cwnd && s.inFlight + 2 * size <= cc.cwnd))
  {
    var size := s.tx[q].size;
    var p1 := p.(snd := p.snd.(rtx := p.snd.rtx[q := size]));
    I.MovedSteps(s, sizes, p1.snd, q);
    assert q in p1.snd.rtx && p1.snd.rtx.Keys == {q};
    QueueingKeepsClean(p, q, size, now, cc);
    var u := QueueAndAsk(p, q, size, now, cc).value;
    if !s.speculating {
      FirstQuestion(p1, sizes, q, now, cc);
    }
    if (cc.Window? && cc.cwnd < size + u.snd.inFlight) || u.snd.creditPull <= 0 {
      RtsKeepsClean(u, now, recent);
    } else {
      DirectlyKeepsCleanIff(u, now, cc);
    }
  }

  lemma TimeoutKeepsCleanIff(p: Pair, sizes: seq<nat>, e: Event)
    requires Clean(p) && I.Good(p.snd) && I.Sized(p.snd, sizes) && e.TimedOut? && Possible(p, e) && Step(p, e).Ok?
    ensures Clean(Step(p, e).value) <==> !TimeoutSlips(p, e.cc)
  {
    var t := S.Least(p.snd.sendTimes.Keys);
    var q := p.snd.sendTimes[t];
    var p1 := p.(snd := p.snd.(sendTimes := p.snd.sendTimes - {t}, tx := p.snd.tx - {q}));
    I.TimerFindsRecord(p.snd);
    I.TimeoutMoves(p.snd, t);
    if p.snd.rtx.Keys != {} {
      var p2 := p1.(snd := S.StopSpeculating(p1.snd));
      QueueingKeepsClean(p2, q, p.snd.tx[q].size, e.now, e.cc);
      RtsKeepsClean(QueueAndAsk(p2, q, p.snd.tx[q].size, e.now, e.cc).value, e.now, e.recent);
    } else {
      AloneKeepsCleanIff(p1, p.snd, sizes, q, e.now, e.cc, e.recent);
    }
  }

  lemma OthersKeepClean(p: Pair, e: Event)
    requires Clean(p) && Possible(p, e) && (e.OtherAsks? || e.ControlPacket?) && Step(p, e).Ok?
    ensures Clean(Step(p, e).value)
  {
    match e
    case OtherAsks(src, now, plan) =>
      N.SourceAsksOk(p.card, src, now, plan);
      AsksQueue(p.card, src, now, plan);
      CountLast(p.card.queue, src);
    case ControlPacket(size, now) =>
      N.ControlArrivesOk(p.card, size, now);
      ControlQueue(p.card, size, now);
  }

  /** A source and its card fall out of step exactly at a direct question that is refused, and at a call-back
      with nothing to send. Otherwise the card calls back a source exactly once for each time it was refused. */
  lemma StepKeepsCleanIff(p: Pair, sizes: seq<nat>, e: Event)
    requires Clean(p) && I.Good(p.snd) && I.Sized(p.snd, sizes) && Possible(p, e) && Step(p, e).Ok?
    ensures Clean(Step(p, e).value) <==> !Slips(p, e)
  {
    match e
    case Acked(cum, ref, bitmap, now, cc) =>
      var p1 := p.(snd := I.Acknowledged(p.snd, cum, ref, bitmap));
      if !p1.snd.done {
        AskKeepsClean(p1, now, cc);
      }
    case Refused(q, now, cc) =>
      var p1 := p.(snd := S.StopSpeculating(S.Drop(p.snd, {q})));
      QueueingKeepsClean(p1, q, p.snd.tx[q].size, now, cc);
      AskKeepsClean(QueueAndAsk(p1, q, p.snd.tx[q].size, now, cc).value, now, cc);
    case Pulled(n, now, cc) => AskKeepsClean(p.(snd := S.StopSpeculating(S.HandlePull(p.snd, n))), now, cc);
    case TimedOut(_, _, _) => TimeoutKeepsCleanIff(p, sizes, e);
    case PortDone(now, cc, plan) => PortKeepsCleanIff(p, now, cc, plan);
    case OtherAsks(_, _, _) => OthersKeepClean(p, e);
    case ControlPacket(_, _) => OthersKeepClean(p, e);
  }

  // ---------------------------------------------------------------- the source's part

  /** Asking is what the source does alone, with the card's answer for a grant. */
  lemma AskIsSender(p: Pair, now: nat, cc: S.Cc)
    requires Ask(p, now, cc).Ok?
    ensures var r := S.SendIfPermitted(p.snd, now, cc, !N.AllBusy(p.card));
            r.Ok? && r.value.0 == Ask(p, now, cc).value.snd
  {
  }

  lemma QueueingIsSender(p: Pair, q: nat, size: nat, now: nat, cc: S.Cc)
    requires QueueAndAsk(p, q, size, now, cc).Ok?
    ensures var r := S.QueueForRtx(p.snd, q, size, now, cc, !N.AllBusy(p.card));
            r.Ok? && r.value.0 == QueueAndAsk(p, q, size, now, cc).value.snd
  {
    var p1 := p.(snd := p.snd.(rtx := p.snd.rtx[q := size]));
    if !p1.snd.speculating {
      AskIsSender(p1, now, cc);
    }
  }

  lemma BehindIsSender(p: Pair, q: nat, size: nat, now: nat, cc: S.Cc, recent: bool)
    requires TimedOutBehind(p, q, size, now, cc, recent).Ok?
    ensures var r := S.QueueBehind(p.snd, q, size, now, cc, !N.AllBusy(p.card), recent);
            r.Ok? && r.value.0 == TimedOutBehind(p, q, size, now, cc, recent).value.snd
  {
    QueueingIsSender(p.(snd := S.StopSpeculating(p.snd)), q, size, now, cc);
  }

  lemma AloneIsSender(p: Pair, q: nat, size: nat, now: nat, cc: S.Cc, recent: bool)
    requires TimedOutAlone(p, q, size, now, cc, recent).Ok?
    ensures var second := FreeAfter(QueueAndAsk(p, q, size, now, cc));
            var r := S.QueueAlone(p.snd, q, size, now, cc, !N.AllBusy(p.card), second, recent);
            r.Ok? && r.value.0 == TimedOutAlone(p, q, size, now, cc, recent).value.snd
  {
    QueueingIsSender(p, q, size, now, cc);
    var p1 := QueueAndAsk(p, q, size, now, cc).value;
    var r := S.AfterTimeout(p1.snd, size, now, cc, !N.AllBusy(p1.card), recent);
    assert r.Ok? && r.value.0 == TimedOutAlone(p, q, size, now, cc, recent).value.snd;
  }

  predicate FreeAfter(o: Outcome<Pair>) {
    o.Ok? && !N.AllBusy(o.value.card)
  }

  /** The books after the refusal of packet `q`, or after its timeout, before it is queued. */
  ghost function WithoutRefused(p: Pair, q: nat): Pair {
    p.(snd := S.StopSpeculating(S.Drop(p.snd, {q})))
  }

  function WithoutTimedOut(p: Pair, t: nat, q: nat): Pair {
    p.(snd := p.snd.(sendTimes := p.snd.sendTimes - {t}, tx := p.snd.tx - {q}))
  }

  /** What the card answers when the source asks for the second time within an event. */
  ghost function SecondAnswer(p: Pair, e: Event): bool
    requires Possible(p, e)
  {
    match e
    case Refused(q, now, cc) =>
      q in p.snd.tx && FreeAfter(QueueAndAsk(WithoutRefused(p, q), q, p.snd.tx[q].size, now, cc))
    case TimedOut(now, cc, _) =>
      var t := S.Least(p.snd.sendTimes.Keys);
      var q := p.snd.sendTimes[t];
      && q in p.snd.tx && p.snd.rtx.Keys == {}
      && FreeAfter(QueueAndAsk(WithoutTimedOut(p, t, q), q, p.snd.tx[q].size, now, cc))
    case _ => false
  }

  /** The source does what it does alone, its free grants replaced by the answers of its card: the first says
      whether a port is free before the event, and the second whether one still is when the source asks again.
      A source that waits at most once is called at most once. */
  lemma StepIsSender(p: Pair, e: Event)
    requires Possible(p, e) && Step(p, e).Ok?
    ensures var t := Step(p, e).value.snd; var first := !N.AllBusy(p.card); var second := SecondAnswer(p, e);
            match e
            case Acked(cum, ref, bitmap, now, cc) =>
              var r := S.ProcessAck(p.snd, cum, ref, bitmap, now, cc, first); r.Ok? && r.value.0 == t
            case Refused(q, now, cc) =>
              var r := S.ProcessNack(p.snd, q, now, cc, first, second); r.Ok? && r.value.0 == t
            case Pulled(n, now, cc) =>
              var r := S.ProcessPull(p.snd, n, now, cc, first); r.Ok? && r.value.0 == t
            case TimedOut(now, cc, recent) =>
              var r := S.TimerExpired(p.snd, now, cc, first, second, recent); r.Ok? && r.value.0 == t
            case PortDone(now, cc, plan) =>
              Waiting(p.card) <= 1 ==>
                t == p.snd || (S.TimeToSend(p.snd, now, cc).Ok? && t == S.TimeToSend(p.snd, now, cc).value.0)
            case OtherAsks(_, _, _) => t == p.snd
            case ControlPacket(_, _) => t == p.snd
  {
    match e
    case Acked(cum, ref, bitmap, now, cc) =>
      var p1 := p.(snd := I.Acknowledged(p.snd, cum, ref, bitmap));
      if !p1.snd.done {
        AskIsSender(p1, now, cc);
      }
    case Refused(q, now, cc) =>
      var p1 := WithoutRefused(p, q);
      QueueingIsSender(p1, q, p.snd.tx[q].size, now, cc);
      AskIsSender(QueueAndAsk(p1, q, p.snd.tx[q].size, now, cc).value, now, cc);
    case Pulled(n, now, cc) => AskIsSender(p.(snd := S.StopSpeculating(S.HandlePull(p.snd, n))), now, cc);
    case TimedOut(now, cc, recent) =>
      var t := S.Least(p.snd.sendTimes.Keys);
      var q := p.snd.sendTimes[t];
      if p.snd.rtx.Keys != {} {
        BehindIsSender(WithoutTimedOut(p, t, q), q, p.snd.tx[q].size, now, cc, recent);
      } else {
        AloneIsSender(WithoutTimedOut(p, t, q), q, p.snd.tx[q].size, now, cc, recent);
      }
    case PortDone(now, cc, plan) =>
      if SourcesTurn(p.card) && Waiting(p.card) <= 1 {
        CalledOnce(p.snd, p.card.queue, now, cc, plan);
      }
    case OtherAsks(_, _, _) =>
    case ControlPacket(_, _) =>
  }

  lemma {:induction false} CalledOnce(s: S.Sender, queue: seq<nat>, now: nat, cc: S.Cc, plan: seq<N.Decision>)
    requires multiset(queue)[SRC] <= 1 && Resolve(s, queue, now, cc, plan).Ok?
    ensures var t := Resolve(s, queue, now, cc, plan).value.0;
            t == s || (S.TimeToSend(s, now, cc).Ok? && t == S.TimeToSend(s, now, cc).value.0)
    decreases |queue|
  {
    if queue != [] {
      CountHead(queue);
      if queue[0] == SRC {
        ResolveSpares(S.TimeToSend(s, now, cc).value.0, queue[1..], now, cc, plan);
      } else if plan == [] || plan[0].CannotSend? {
        CalledOnce(s, queue[1..], now, cc, if plan == [] then [] else plan[1..]);
      }
    }
  }

  // ---------------------------------------------------------------- runs

  lemma AskKeepsGood(p: Pair, sizes: seq<nat>, now: nat, cc: S.Cc) returns (sizes': seq<nat>)
    requires I.Good(p.snd) && I.Sized(p.snd, sizes) && !p.snd.speculating && Ask(p, now, cc).Ok?
    ensures var t := Ask(p, now, cc).value.snd;
            I.Good(t) && I.Sized(t, sizes') && !t.speculating && I.Slack(t) == I.Slack(p.snd) && t.done == p.snd.done
  {
    sizes' := sizes;
    if S.WantsToSend(p.snd, cc) {
      I.SendIfPermittedSteps(p.snd, sizes, now, cc, !N.AllBusy(p.card));
      sizes' := I.Extend(sizes, S.SendIfPermitted(p.snd, now, cc, !N.AllBusy(p.card)).value.1);
    }
  }

  /** Queueing packet `q`, which has left the books of outstanding packets. */
  lemma QueueingKeepsGood(p: Pair, s: S.Sender, sizes: seq<nat>, q: nat, now: nat, cc: S.Cc) returns (sizes': seq<nat>)
    requires I.Good(s) && I.Sized(s, sizes) && q in s.tx && QueueAndAsk(p, q, s.tx[q].size, now, cc).Ok?
    requires I.Moved(s, p.snd.(rtx := p.snd.rtx[q := s.tx[q].size]), q) && p.snd.done == s.done
    requires I.PhaseOk(p.snd.(rtx := s.rtx))
    ensures var t := QueueAndAsk(p, q, s.tx[q].size, now, cc).value.snd;
            && I.Good(t) && I.Sized(t, sizes') && t.speculating == p.snd.speculating && !t.done
            && I.Slack(t) == p.snd.inFlight - (S.Bytes(s.tx) - s.tx[q].size)
  {
    var p1 := p.(snd := p.snd.(rtx := p.snd.rtx[q := s.tx[q].size]));
    I.MovedSteps(s, sizes, p1.snd, q);
    I.TotalSplitOf(s, q);
    sizes' := sizes;
    if !p1.snd.speculating {
      sizes' := AskKeepsGood(p1, sizes, now, cc);
    }
  }

  lemma RtsKeepsGood(p: Pair, sizes: seq<nat>, now: nat, recent: bool) returns (sizes': seq<nat>)
    requires I.Good(p.snd) && I.Sized(p.snd, sizes) && !p.snd.done && I.Slack(p.snd) >= S.HDR_SIZE
    requires SendRts(p, now, recent).Ok?
    ensures I.Good(SendRts(p, now, recent).value.snd) && I.Sized(SendRts(p, now, recent).value.snd, sizes')
  {
    I.SendRtsSteps(p.snd, sizes, now, recent);
    sizes' := I.Extend(sizes, S.SendRts(p.snd, now, recent).value.1);
  }

  lemma DirectlyKeepsGood(p: Pair, sizes: seq<nat>, now: nat, cc: S.Cc) returns (sizes': seq<nat>)
    requires I.Good(p.snd) && I.Sized(p.snd, sizes) && AskDirectly(p, now, cc).Ok?
    ensures I.Good(AskDirectly(p, now, cc).value.snd) && I.Sized(AskDirectly(p, now, cc).value.snd, sizes')
  {
    sizes' := sizes;
    if !N.AllBusy(p.card) {
      if p.snd.Credit() > 0 {
        I.SendRtxSteps(p.snd, sizes, now, cc);
      }
      sizes' := I.Extend(sizes, S.SendRtx(p.snd, now, cc).value.1);
    }
  }

  lemma {:induction false} ResolveKeepsGood(
    s: S.Sender, sizes: seq<nat>, queue: seq<nat>, now: nat, cc: S.Cc, plan: seq<N.Decision>) returns (sizes': seq<nat>)
    requires I.Good(s) && I.Sized(s, sizes) && Resolve(s, queue, now, cc, plan).Ok?
    ensures var t := Resolve(s, queue, now, cc, plan).value.0; I.Good(t) && I.Sized(t, sizes')
    decreases |queue|
  {
    sizes' := sizes;
    if queue != [] {
      if queue[0] == SRC {
        I.TimeToSendSteps(s, sizes, now, cc);
        var r := S.TimeToSend(s, now, cc).value;
        sizes' := I.Extend(sizes, r.1);
        if r.1 == [] {
          sizes' := ResolveKeepsGood(r.0, sizes', queue[1..], now, cc, plan);
        }
      } else if plan == [] || plan[0].CannotSend? {
        sizes' := ResolveKeepsGood(s, sizes, queue[1..], now, cc, if plan == [] then [] else plan[1..]);
      }
    }
  }

  lemma TimeoutKeepsGood(p: Pair, sizes: seq<nat>, e: Event) returns (sizes': seq<nat>)
    requires I.Good(p.snd) && I.Sized(p.snd, sizes) && e.TimedOut? && Possible(p, e) && Step(p, e).Ok?
    ensures I.Good(Step(p, e).value.snd) && I.Sized(Step(p, e).value.snd, sizes')
  {
    var t := S.Least(p.snd.sendTimes.Keys);
    var q := p.snd.sendTimes[t];
    var size := p.snd.tx[q].size;
    var p1 := p.(snd := p.snd.(sendTimes := p.snd.sendTimes - {t}, tx := p.snd.tx - {q}));
    I.TimerFindsRecord(p.snd);
    I.TimeoutMoves(p.snd, t);
    if p.snd.rtx.Keys != {} {
      var p2 := p1.(snd := S.StopSpeculating(p1.snd));
      sizes' := QueueingKeepsGood(p2, p.snd, sizes, q, e.now, e.cc);
      sizes' := RtsKeepsGood(QueueAndAsk(p2, q, size, e.now, e.cc).value, sizes', e.now, e.recent);
    } else {
      sizes' := QueueingKeepsGood(p1, p.snd, sizes, q, e.now, e.cc);
      var u := QueueAndAsk(p1, q, size, e.now, e.cc).value;
      if (e.cc.Window? && e.cc.cwnd < size + u.snd.inFlight) || u.snd.creditPull <= 0 {
        sizes' := RtsKeepsGood(u, sizes', e.now, e.recent);
      } else {
        sizes' := DirectlyKeepsGood(u, sizes', e.now, e.cc);
      }
    }
  }

  /** Every step that trips no assertion keeps the source's own invariant. */
  lemma StepKeepsGood(p: Pair, sizes: seq<nat>, e: Event) returns (sizes': seq<nat>)
    requires I.Good(p.snd) && I.Sized(p.snd, sizes) && Possible(p, e) && Step(p, e).Ok?
    ensures I.Good(Step(p, e).value.snd) && I.Sized(Step(p, e).value.snd, sizes')
  {
    match e
    case Acked(cum, ref, bitmap, now, cc) =>
      var p1 := p.(snd := I.Acknowledged(p.snd, cum, ref, bitmap));
      I.AcknowledgedKeeps(p.snd, sizes, cum, ref, bitmap);
      sizes' := sizes;
      if !p1.snd.done {
        sizes' := AskKeepsGood(p1, sizes, now, cc);
      }
    case Refused(q, now, cc) =>
      var p1 := p.(snd := S.StopSpeculating(S.Drop(p.snd, {q})));
      I.NackMoves(p.snd, q);
      sizes' := QueueingKeepsGood(p1, p.snd, sizes, q, now, cc);
      sizes' := AskKeepsGood(QueueAndAsk(p1, q, p.snd.tx[q].size, now, cc).value, sizes', now, cc);
    case Pulled(n, now, cc) =>
      I.PullGood(p.snd, sizes, n);
      sizes' := AskKeepsGood(p.(snd := S.StopSpeculating(S.HandlePull(p.snd, n))), sizes, now, cc);
    case TimedOut(_, _, _) => sizes' := TimeoutKeepsGood(p, sizes, e);
    case PortDone(now, cc, plan) =>
      sizes' := sizes;
      if SourcesTurn(p.card) {
        sizes' := ResolveKeepsGood(p.snd, sizes, p.card.queue, now, cc, plan);
      }
    case OtherAsks(_, _, _) => sizes' := sizes;
    case ControlPacket(_, _) => sizes' := sizes;
  }

  /** Runs `es`, passing over events that are not possible. */
  ghost function Run(p: Pair, es: seq<Event>): Outcome<Pair>
    decreases |es|
  {
    if es == [] then Ok(p)
    else if !Possible(p, es[0]) then Run(p, es[1..])
    else
      var t :- Step(p, es[0]);
      Run(t, es[1..])
  }

  /** No event of the run lets the two fall out of step. */
  ghost predicate NeverSlips(p: Pair, es: seq<Event>)
    decreases |es|
  {
    if es == [] then true
    else if !Possible(p, es[0]) then NeverSlips(p, es[1..])
    else !Slips(p, es[0]) && (Step(p, es[0]).Ok? ==> NeverSlips(Step(p, es[0]).value, es[1..]))
  }

  /** Over every run without those two events a source waits at its card exactly if it was refused and not called
      since, and then once: the card calls nobody who did not ask, and forgets nobody who did. */
  lemma {:induction false} RunKeepsClean(p: Pair, sizes: seq<nat>, es: seq<Event>)
    requires Clean(p) && I.Good(p.snd) && I.Sized(p.snd, sizes) && NeverSlips(p, es)
    ensures Run(p, es).Ok? ==> Clean(Run(p, es).value)
    decreases |es|
  {
    if es == [] {
    } else if !Possible(p, es[0]) {
      RunKeepsClean(p, sizes, es[1..]);
    } else if Step(p, es[0]).Ok? {
      StepKeepsCleanIff(p, sizes, es[0]);
      var sizes' := StepKeepsGood(p, sizes, es[0]);
      RunKeepsClean(Step(p, es[0]).value, sizes', es[1..]);
    }
  }

  // ---------------------------------------------------------------- a source that is never called again

  /** The source believes that it waits, the card does not know of it, and packet `q` is to be resent. */
  ghost predicate Forgotten(p: Pair, q: nat) {
    N.Inv(p.card) && p.snd.blocked && Waiting(p.card) == 0 && q in p.snd.rtx
  }

  lemma ForgottenDoesNotAsk(p: Pair, now: nat, cc: S.Cc)
    requires p.snd.blocked
    ensures Ask(p, now, cc) == Ok(p)
  {
  }

  lemma ForgottenQueues(p: Pair, q': nat, size: nat, now: nat, cc: S.Cc)
    requires p.snd.blocked && QueueAndAsk(p, q', size, now, cc).Ok?
    ensures QueueAndAsk(p, q', size, now, cc).value == p.(snd := p.snd.(rtx := p.snd.rtx[q' := size]))
  {
  }

  lemma RtsLeavesForgotten(p: Pair, q: nat, now: nat, recent: bool)
    requires Forgotten(p, q) && SendRts(p, now, recent).Ok?
    ensures Forgotten(SendRts(p, now, recent).value, q)
  {
    N.ControlArrivesOk(p.card, S.HDR_SIZE, now);
    ControlQueue(p.card, S.HDR_SIZE, now);
  }

  lemma TimeoutLeavesForgotten(p: Pair, q: nat, e: Event)
    requires Forgotten(p, q) && e.TimedOut? && Possible(p, e) && Step(p, e).Ok?
    ensures Forgotten(Step(p, e).value, q)
  {
    var t := S.Least(p.snd.sendTimes.Keys);
    var q' := p.snd.sendTimes[t];
    var size := p.snd.tx[q'].size;
    var p1 := p.(snd := S.StopSpeculating(p.snd.(sendTimes := p.snd.sendTimes - {t}, tx := p.snd.tx - {q'})));
    assert q in p.snd.rtx.Keys;
    ForgottenQueues(p1, q', size, e.now, e.cc);
    RtsLeavesForgotten(QueueAndAsk(p1, q', size, e.now, e.cc).value, q, e.now, e.recent);
  }

  lemma PortLeavesForgotten(p: Pair, q: nat, now: nat, cc: S.Cc, plan: seq<N.Decision>)
    requires Forgotten(p, q) && now in p.card.pending && FreePort(p, now, cc, plan).Ok?
    ensures Forgotten(FreePort(p, now, cc, plan).value, q) && FreePort(p, now, cc, plan).value.snd == p.snd
  {
    ResolveSpares(p.snd, p.card.queue, now, cc, plan);
    var r := if SourcesTurn(p.card) then Resolve(p.snd, p.card.queue, now, cc, plan).value.1 else plan;
    N.PortDoneOk(p.card, now, r);
    PortDoneQueue(p.card, now, r);
  }

  /** Short of an acknowledgement of the packet, nothing makes a forgotten source send it. */
  lemma StaysForgotten(p: Pair, q: nat, e: Event)
    requires Forgotten(p, q) && Possible(p, e) && Step(p, e).Ok? && (e.Acked? ==> e.cum <= q)
    ensures Forgotten(Step(p, e).value, q)
  {
    match e
    case Acked(cum, ref, bitmap, now, cc) =>
      I.HandleAckExact(p.snd, cum, ref, bitmap);
    case Refused(q', now, cc) =>
      var p1 := p.(snd := S.StopSpeculating(S.Drop(p.snd, {q'})));
      ForgottenQueues(p1, q', p.snd.tx[q'].size, now, cc);
    case Pulled(n, now, cc) =>
    case TimedOut(_, _, _) => TimeoutLeavesForgotten(p, q, e);
    case PortDone(now, cc, plan) => PortLeavesForgotten(p, q, now, cc, plan);
    case OtherAsks(src, now, plan) =>
      N.SourceAsksOk(p.card, src, now, plan);
      AsksQueue(p.card, src, now, plan);
      CountLast(p.card.queue, src);
    case ControlPacket(size, now) =>
      N.ControlArrivesOk(p.card, size, now);
      ControlQueue(p.card, size, now);
  }

  /** Over every run in which packet `q` is not acknowledged, a forgotten source never sends it. */
  lemma {:induction false} ForgottenForever(p: Pair, q: nat, es: seq<Event>)
    requires Forgotten(p, q) && forall i :: 0 <= i < |es| && es[i].Acked? ==> es[i].cum <= q
    ensures Run(p, es).Ok? ==> Forgotten(Run(p, es).value, q)
    decreases |es|
  {
    if es == [] {
    } else if !Possible(p, es[0]) {
      ForgottenForever(p, q, es[1..]);
    } else if Step(p, es[0]).Ok? {
      StaysForgotten(p, q, es[0]);
      ForgottenForever(Step(p, es[0]).value, q, es[1..]);
    }
  }

  // ---------------------------------------------------------------- starting

  /** A flow starts: it sends while the card grants it ports, and then waits. */
  function StartLoop(p: Pair, now: nat, cc: S.Cc, ports: nat): Outcome<Pair>
    decreases ports
  {
    if p.snd.Credit() <= 0 || p.snd.unsent <= 0 || ports == 0 then Ok(p)
    else if N.AllBusy(p.card) then
      var c :- N.SourceAsks(p.card, SRC, now, []);
      Ok(Pair(p.snd.(blocked := true), c.nic))
    else
      var r :- S.SendNew(p.snd, now, cc);
      var c :- N.SourceAsks(p.card, SRC, now, Decide(r.1, false));
      StartLoop(Pair(r.0, c.nic), now, cc, ports - 1)
  }

  /** The flow cannot send more packets at once than the card has ports: the loop ends before its bound. */
  function Start(c: Config, card: N.Nic<nat>, now: nat, cc: S.Cc): Outcome<Pair> {
    StartLoop(Pair(Ready(c), card), now, cc, |card.ports| + 1)
  }

  lemma SendNewKeepsBlocked(s: S.Sender, now: nat, cc: S.Cc)
    ensures S.SendNew(s, now, cc).Ok? ==> S.SendNew(s, now, cc).value.0.blocked == s.blocked
  {
  }

  /** A granted packet of a starting flow. */
  lemma LaunchKeepsClean(p: Pair, sizes: seq<nat>, now: nat, cc: S.Cc) returns (t: Pair, sizes': seq<nat>)
    requires Clean(p) && I.Good(p.snd) && I.Sized(p.snd, sizes) && !p.snd.blocked
    requires p.snd.speculating && p.snd.Credit() > 0 && p.snd.unsent > 0 && !N.AllBusy(p.card)
    ensures S.SendNew(p.snd, now, cc).Ok?
    ensures var r := S.SendNew(p.snd, now, cc).value;
            var c := N.SourceAsks(p.card, SRC, now, Decide(r.1, false));
            c.Ok? && t == Pair(r.0, c.value.nic)
    ensures Clean(t) && I.Good(t.snd) && I.Sized(t.snd, sizes') && !t.snd.blocked
    ensures t.snd.speculating && |t.card.ports| == |p.card.ports| && t.card.busyPorts == p.card.busyPorts + 1
  {
    I.SendNewSteps(p.snd, sizes, now, cc);
    SendNewKeepsBlocked(p.snd, now, cc);
    var r := S.SendNew(p.snd, now, cc).value;
    N.SourceAsksOk(p.card, SRC, now, Decide(r.1, false));
    AsksQueue(p.card, SRC, now, Decide(r.1, false));
    t := Pair(r.0, N.SourceAsks(p.card, SRC, now, Decide(r.1, false)).value.nic);
    GrantedPort(p.card, now, Decide(r.1, false));
    sizes' := I.Extend(sizes, r.1);
  }

  lemma StartLoopGoesOn(p: Pair, t: Pair, now: nat, cc: S.Cc, ports: nat)
    requires p.snd.Credit() > 0 && p.snd.unsent > 0 && !N.AllBusy(p.card) && ports > 0
    requires S.SendNew(p.snd, now, cc).Ok?
    requires var r := S.SendNew(p.snd, now, cc).value;
             var c := N.SourceAsks(p.card, SRC, now, Decide(r.1, false));
             c.Ok? && t == Pair(r.0, c.value.nic)
    ensures StartLoop(p, now, cc, ports) == StartLoop(t, now, cc, ports - 1)
  {
  }

  lemma RefusalKeepsClean(p: Pair, now: nat)
    requires Clean(p) && !p.snd.blocked && N.AllBusy(p.card)
    ensures N.SourceAsks(p.card, SRC, now, []).Ok?
    ensures Clean(Pair(p.snd.(blocked := true), N.SourceAsks(p.card, SRC, now, []).value.nic))
  {
    N.SourceAsksOk(p.card, SRC, now, []);
    AsksQueue(p.card, SRC, now, []);
    CountLast(p.card.queue, SRC);
  }

  lemma {:induction false} StartLoopKeeps(p: Pair, sizes: seq<nat>, now: nat, cc: S.Cc, ports: nat)
      returns (sizes': seq<nat>)
    requires Clean(p) && I.Good(p.snd) && I.Sized(p.snd, sizes) && !p.snd.blocked && p.snd.speculating
    requires |p.card.ports| - p.card.busyPorts < ports
    ensures StartLoop(p, now, cc, ports).Ok?
    ensures var t := StartLoop(p, now, cc, ports).value;
            && Clean(t) && I.Good(t.snd) && I.Sized(t.snd, sizes')
            && (t.snd.Credit() <= 0 || t.snd.unsent <= 0 || t.snd.blocked)
    decreases ports
  {
    sizes' := sizes;
    N.CountBound(p.card.ports);
    if p.snd.Credit() > 0 && p.snd.unsent > 0 {
      if N.AllBusy(p.card) {
        RefusalKeepsClean(p, now);
      } else {
        var t, sizes1 := LaunchKeepsClean(p, sizes, now, cc);
        StartLoopGoesOn(p, t, now, cc, ports);
        sizes' := StartLoopKeeps(t, sizes1, now, cc, ports - 1);
      }
    }
  }

  /** A flow that starts at a card that does not know it yet is in step with its card over every run without the
      two events that break step. */
  lemma EveryRunIsClean(c: Config, card: N.Nic<nat>, now: nat, cc: S.Cc, es: seq<Event>)
    requires N.Inv(card) && Waiting(card) == 0
    ensures Start(c, card, now, cc).Ok?
    ensures var p := Start(c, card, now, cc).value;
            && Clean(p) && (p.snd.Credit() <= 0 || p.snd.unsent <= 0 || p.snd.blocked)
            && (NeverSlips(p, es) && Run(p, es).Ok? ==> Clean(Run(p, es).value))
  {
    I.ReadyToStartGood(c.mss, c.maxWnd, c.flowSize);
    var sizes := StartLoopKeeps(Pair(Ready(c), card), [], now, cc, |card.ports| + 1);
    var p := Start(c, card, now, cc).value;
    if NeverSlips(p, es) {
      RunKeepsClean(p, sizes, es);
    }
  }

  // ---------------------------------------------------------------- it happens

  /** A card with one port, which is busy until `end`. */
  function Busy(end: nat, queue: seq<nat>, control: seq<nat>, crt: nat, speed: Positive): N.Nic<nat> {
    N.Nic([N.Port(true, end)], 1, 0, speed, queue, |queue|, control, crt, multiset{end})
  }

  function Idle(end: nat, crt: nat, speed: Positive): N.Nic<nat> {
    N.Nic([N.Port(false, end)], 0, 0, speed, [], 0, [], crt, multiset{})
  }

  function Later(end: nat, size: nat, speed: Positive): nat {
    end + size * 8 * N.PS_PER_SECOND / speed
  }

  lemma FreeTakesIt(n: N.Nic<nat>, end: nat)
    requires n.rr == 0 && |n.ports| == 1 && !n.ports[0].busy && n.busyPorts == 0
    ensures N.FindFreePort(n) == Ok(n)
    ensures N.SendOnFreePort(n, end, false)
            == Ok(n.(ports := [N.Port(true, end)], busyPorts := 1, pending := n.pending + multiset{end}))
  {
    assert N.NextFree(n.ports, 0, 1) == Ok(0);
    assert n.ports[0 := N.Port(true, end)] == [N.Port(true, end)];
  }

  /** While control packets wait and the sources' turn has not come, the next of them goes out. */
  lemma ControlGoesOut(end: nat, queue: seq<nat>, size: nat, rest: seq<nat>, crt: nat, speed: Positive)
    requires queue != [] && crt < N.RATIO_CONTROL - 1
    ensures N.PortDone(Busy(end, queue, [size] + rest, crt, speed), end, [])
            == Ok(N.Result(Busy(Later(end, size, speed), queue, rest, crt + 1, speed), []))
    ensures !SourcesTurn(Busy(end, queue, [size] + rest, crt, speed))
  {
    var n := Busy(end, queue, [size] + rest, crt, speed);
    assert N.FirstDone(n.ports, end, 0) == 0;
    assert n.ports[0 := N.Port(false, end)] == [N.Port(false, end)];
    assert ([size] + rest)[1..] == rest;
    assert multiset{end} - multiset{end} == multiset{};
    var m := n.(busyPorts := 0, ports := [N.Port(false, end)], pending := multiset{}, crt := crt + 1);
    FreeTakesIt(m.(control := rest), Later(end, size, speed));
    assert multiset{} + multiset{Later(end, size, speed)} == multiset{Later(end, size, speed)};
    assert N.SendControlNow(m, end) == Ok(Busy(Later(end, size, speed), queue, rest, crt + 1, speed));
  }

  /** The only source in the queue is called and cannot send. */
  lemma CalledInVain(end: nat, crt: nat, speed: Positive)
    ensures N.PortDone(Busy(end, [SRC], [], crt, speed), end, [N.CannotSend]) == Ok(N.Result(Idle(end, crt, speed), []))
    ensures SourcesTurn(Busy(end, [SRC], [], crt, speed))
  {
    var n := Busy(end, [SRC], [], crt, speed);
    assert N.FirstDone(n.ports, end, 0) == 0;
    assert n.ports[0 := N.Port(false, end)] == [N.Port(false, end)];
    assert multiset{end} - multiset{end} == multiset{};
    var m := n.(busyPorts := 0, ports := [N.Port(false, end)], pending := multiset{});
    FreeTakesIt(m, end);
    assert [SRC][1..] == [];
    assert N.PopSource(m, SRC) == Ok(Idle(end, crt, speed));
    assert N.CantSend(m, SRC, end, []) == Ok(N.Result(Idle(end, crt, speed), []));
    assert N.TimeToSend(m, SRC, end, [N.CannotSend]) == N.CantSend(m, SRC, end, []);
    assert N.CallNext(m, end, [N.CannotSend]) == N.TimeToSend(m, SRC, end, [N.CannotSend]);
  }

  /** A flow of one packet, with speculative credit left over. */
  predicate OnePacketFlow(c: Config) {
    0 < c.flowSize <= c.mss && c.maxWnd > FirstSize(c)
  }

  /** What the steps below have in common: no pulled credit, nothing left unsent, not done. */
  predicate AllSent(s: S.Sender, c: Config) {
    && s.mss == c.mss && s.flowSize == c.flowSize && c.flowSize > 0
    && s.unsent == 0 && s.creditPull == 0 && s.creditSpec > 0 && !s.done
  }

  lemma StartsOnOnePort(c: Config, speed: Positive)
    requires OnePacketFlow(c)
    ensures Start(c, N.InitNic<nat>(1, 0, speed), 0, S.NoCc).Ok?
    ensures var p := Start(c, N.InitNic<nat>(1, 0, speed), 0, S.NoCc).value;
            && AllSent(p.snd, c) && OneOut(p.snd, FirstSize(c)) && p.snd.speculating && !p.snd.blocked
            && p.card == Busy(Later(0, FirstSize(c), speed), [], [], 0, speed)
  {
    var card := N.InitNic<nat>(1, 0, speed);
    SendsFirst(c, Ready(c), 0, S.NoCc);
    var r := S.SendNew(Ready(c), 0, S.NoCc).value;
    assert card.ports == [N.Port(false, 0)];
    FreeTakesIt(card, Later(0, FirstSize(c), speed));
    assert multiset{} + multiset{Later(0, FirstSize(c), speed)} == multiset{Later(0, FirstSize(c), speed)};
    var t := Pair(r.0, Busy(Later(0, FirstSize(c), speed), [], [], 0, speed));
    assert N.SourceAsks(card, SRC, 0, Decide(r.1, false)).value.nic == t.card;
    StartLoopGoesOn(Pair(Ready(c), card), t, 0, S.NoCc, 2);
  }

  /** The packet times out: it is queued, and a request-to-send waits at the card. */
  lemma TimesOut(p: Pair, c: Config, end: nat, speed: Positive) returns (t: Pair)
    requires AllSent(p.snd, c) && OneOut(p.snd, FirstSize(c)) && p.snd.speculating && !p.snd.blocked
    requires p.card == Busy(end, [], [], 0, speed)
    ensures Possible(p, TimedOut(1, S.NoCc, false)) && Step(p, TimedOut(1, S.NoCc, false)) == Ok(t)
    ensures AllSent(t.snd, c) && t.snd.speculating && !t.snd.blocked
    ensures t.snd.rtx == map[0 := FirstSize(c)] && t.snd.tx == map[1 := S.Record(S.HDR_SIZE, 1)]
    ensures t.snd.sendTimes == map[1 := 1] && t.snd.highestSent == 2 && t.snd.rtsSent == 1
    ensures t.card == Busy(end, [], [S.HDR_SIZE], 0, speed)
  {
    var e := TimedOut(1, S.NoCc, false);
    assert 0 in p.snd.sendTimes.Keys;
    assert S.Least(p.snd.sendTimes.Keys) == 0;
    assert p.snd.rtx.Keys == {};
    var s1 := p.snd.(sendTimes := map[], tx := map[]);
    assert p.snd.sendTimes - {0} == map[] && p.snd.tx - {0} == map[];
    var p1 := Pair(s1.(rtx := map[0 := FirstSize(c)]), p.card);
    assert QueueAndAsk(Pair(s1, p.card), 0, FirstSize(c), 1, S.NoCc) == Ok(p1);
    assert [] + [S.HDR_SIZE] == [S.HDR_SIZE];
    t := SendRts(p1, 1, false).value;
    assert Step(p, e) == SendRts(p1, 1, false);
  }

  /** The request-to-send times out as well: the source asks, is refused, and sends another one. */
  lemma TimesOutAgain(p: Pair, c: Config, end: nat, speed: Positive) returns (t: Pair)
    requires AllSent(p.snd, c) && p.snd.speculating && !p.snd.blocked
    requires p.snd.rtx == map[0 := FirstSize(c)] && p.snd.tx == map[1 := S.Record(S.HDR_SIZE, 1)]
    requires p.snd.sendTimes == map[1 := 1] && p.snd.highestSent == 2 && p.snd.rtsSent == 1
    requires p.card == Busy(end, [], [S.HDR_SIZE], 0, speed)
    ensures Possible(p, TimedOut(2, S.NoCc, false)) && Step(p, TimedOut(2, S.NoCc, false)) == Ok(t)
    ensures AllSent(t.snd, c) && !t.snd.speculating && t.snd.blocked
    ensures t.snd.rtx.Keys == {0, 1} && t.snd.tx == map[2 := S.Record(S.HDR_SIZE, 2)]
    ensures t.snd.sendTimes == map[2 := 2] && t.snd.highestSent == 3 && t.snd.rtsSent == 2
    ensures t.card == Busy(end, [SRC], [S.HDR_SIZE] + [S.HDR_SIZE], 0, speed)
  {
    var e := TimedOut(2, S.NoCc, false);
    assert 1 in p.snd.sendTimes.Keys && 0 in p.snd.rtx.Keys;
    assert S.Least(p.snd.sendTimes.Keys) == 1;
    assert p.snd.sendTimes - {1} == map[] && p.snd.tx - {1} == map[];
    var s1 := S.StopSpeculating(p.snd.(sendTimes := map[], tx := map[]));
    var s2 := s1.(rtx := s1.rtx[1 := S.HDR_SIZE]);
    assert 0 in s2.rtx.Keys && S.WantsToSend(s2, S.NoCc);
    assert [] + [SRC] == [SRC];
    var p1 := Pair(s2.(blocked := true), Busy(end, [SRC], [S.HDR_SIZE], 0, speed));
    assert Ask(Pair(s2, p.card), 2, S.NoCc) == Ok(p1);
    assert QueueAndAsk(Pair(s1, p.card), 1, S.HDR_SIZE, 2, S.NoCc) == Ok(p1);
    t := SendRts(p1, 2, false).value;
    assert Step(p, e) == SendRts(p1, 2, false);
  }

  /** An acknowledgement of packets that wait to be resent takes them out of the queue. */
  lemma OnlyUnqueues(s: S.Sender, cum: nat, ref: nat)
    requires forall q :: q in s.tx ==> q >= cum
    ensures S.HandleAck(s, cum, ref, 0) == s.(rtx := S.HandleAck(s, cum, ref, 0).rtx)
    ensures forall q :: q in S.HandleAck(s, cum, ref, 0).rtx ==> q in s.rtx.Keys && q >= cum
  {
    var s1 := S.HandleCumulativeAck(s, cum);
    var s0 := s.(rtx := s1.rtx);
    S.DropNothing(s0);
    S.DropSame(s0, set q | q in s.tx && q < cum, {});
    forall i: nat ensures !Bits.Bit(0, i) {
      Bits.ZeroBit(i);
    }
    S.DropSame(s0, set q | q in s0.tx && q >= ref && Bits.Bit(0, q - ref), {});
  }

  /** The packet and the first request-to-send arrive after all, and are acknowledged. */
  lemma AllAcknowledged(p: Pair, c: Config) returns (t: Pair)
    requires AllSent(p.snd, c) && !p.snd.speculating && p.snd.blocked
    requires p.snd.rtx.Keys == {0, 1} && p.snd.tx == map[2 := S.Record(S.HDR_SIZE, 2)]
    requires p.snd.sendTimes == map[2 := 2] && p.snd.highestSent == 3 && p.snd.rtsSent == 2
    ensures Possible(p, Acked(2, 2, 0, 2, S.NoCc)) && Step(p, Acked(2, 2, 0, 2, S.NoCc)) == Ok(t)
    ensures AllSent(t.snd, c) && !t.snd.speculating && t.snd.blocked && t.card == p.card
    ensures t.snd.rtx == map[] && t.snd.tx == p.snd.tx && t.snd.sendTimes == p.snd.sendTimes
  {
    OnlyUnqueues(p.snd, 2, 2);
    var s0 := S.HandleAck(p.snd, 2, 2, 0);
    assert s0.rtx.Keys == {};
    t := Pair(I.Acknowledged(p.snd, 2, 2, 0), p.card);
    assert !t.snd.done;
  }

  /** With nothing to resend the source is called in vain. */
  lemma CalledToNothing(p: Pair, c: Config, end: nat, crt: nat, speed: Positive)
    requires AllSent(p.snd, c) && p.snd.rtx == map[] && p.card == Busy(end, [SRC], [], crt, speed)
    ensures Possible(p, PortDone(end, S.NoCc, []))
    ensures Step(p, PortDone(end, S.NoCc, [])) == Ok(Pair(p.snd, Idle(end, crt, speed)))
  {
    CalledInVain(end, crt, speed);
    assert p.card.queue[1..] == [];
    assert Resolve(p.snd, [], end, S.NoCc, []) == Ok((p.snd, []));
    assert [N.CannotSend] + [] == [N.CannotSend];
    assert Resolve(p.snd, p.card.queue, end, S.NoCc, []) == Ok((p.snd, [N.CannotSend]));
  }

  /** Now the second request-to-send is queued, and the source does not ask for a port. */
  lemma TimesOutUnasked(p: Pair, c: Config, end: nat, crt: nat, speed: Positive)
    requires AllSent(p.snd, c) && !p.snd.speculating && p.snd.blocked && p.card == Idle(end, crt, speed)
    requires p.snd.rtx == map[] && p.snd.tx == map[2 := S.Record(S.HDR_SIZE, 2)] && p.snd.sendTimes == map[2 := 2]
    ensures Possible(p, TimedOut(3, S.NoCc, true)) && Step(p, TimedOut(3, S.NoCc, true)).Ok?
    ensures Forgotten(Step(p, TimedOut(3, S.NoCc, true)).value, 2)
  {
    assert 2 in p.snd.sendTimes.Keys && p.snd.rtx.Keys == {};
    assert S.Least(p.snd.sendTimes.Keys) == 2;
    assert p.card.ports[..0] == [] && N.EndTimes([]) == multiset{} && N.CountBusy([]) == 0;
    assert N.EndTimes(p.card.ports) == multiset{};
  }

  lemma RunNext(p: Pair, e: Event, es: seq<Event>)
    requires Possible(p, e) && Step(p, e).Ok?
    ensures Run(p, [e] + es) == Run(Step(p, e).value, es)
  {
    assert ([e] + es)[1..] == es;
  }

  /** The control packets leave the card, the source is called in vain, and the second request-to-send times out. */
  function LateEvents(end: nat, speed: Positive): seq<Event> {
    var end1 := Later(end, S.HDR_SIZE, speed);
    var end2 := Later(end1, S.HDR_SIZE, speed);
    [PortDone(end, S.NoCc, [])] + ([PortDone(end1, S.NoCc, [])] + ([PortDone(end2, S.NoCc, [])]
    + ([TimedOut(3, S.NoCc, true)] + [])))
  }

  lemma LateEventsForget(p: Pair, c: Config, end: nat, speed: Positive)
    requires AllSent(p.snd, c) && !p.snd.speculating && p.snd.blocked
    requires p.snd.rtx == map[] && p.snd.tx == map[2 := S.Record(S.HDR_SIZE, 2)] && p.snd.sendTimes == map[2 := 2]
    requires p.card == Busy(end, [SRC], [S.HDR_SIZE] + [S.HDR_SIZE], 0, speed)
    ensures Run(p, LateEvents(end, speed)).Ok? && Forgotten(Run(p, LateEvents(end, speed)).value, 2)
  {
    var end1 := Later(end, S.HDR_SIZE, speed);
    var end2 := Later(end1, S.HDR_SIZE, speed);
    ControlGoesOut(end, [SRC], S.HDR_SIZE, [S.HDR_SIZE], 0, speed);
    var p1 := Pair(p.snd, Busy(end1, [SRC], [S.HDR_SIZE], 1, speed));
    ControlGoesOut(end1, [SRC], S.HDR_SIZE, [], 1, speed);
    assert [S.HDR_SIZE] + [] == [S.HDR_SIZE];
    var p2 := Pair(p.snd, Busy(end2, [SRC], [], 2, speed));
    var p3 := Pair(p.snd, Idle(end2, 2, speed));
    CalledToNothing(p2, c, end2, 2, speed);
    TimesOutUnasked(p3, c, end2, 2, speed);
    var last := [TimedOut(3, S.NoCc, true)] + [];
    RunNext(p3, TimedOut(3, S.NoCc, true), []);
    RunNext(p2, PortDone(end2, S.NoCc, []), last);
    RunNext(p1, PortDone(end1, S.NoCc, []), [PortDone(end2, S.NoCc, [])] + last);
    RunNext(p, PortDone(end, S.NoCc, []), [PortDone(end1, S.NoCc, [])] + ([PortDone(end2, S.NoCc, [])] + last));
  }

  /** Every flow of one packet that starts alone on a card with one port can be forgotten by it: the packet and two
      requests-to-send time out while the port is busy, and the first two of the three are acknowledged. */
  lemma ForgottenReachable(c: Config, speed: Positive)
    requires OnePacketFlow(c)
    ensures Start(c, N.InitNic<nat>(1, 0, speed), 0, S.NoCc).Ok?
    ensures var p := Start(c, N.InitNic<nat>(1, 0, speed), 0, S.NoCc).value;
            exists es :: Run(p, es).Ok? && Forgotten(Run(p, es).value, 2)
  {
    StartsOnOnePort(c, speed);
    var end := Later(0, FirstSize(c), speed);
    var p := Start(c, N.InitNic<nat>(1, 0, speed), 0, S.NoCc).value;
    var p1 := TimesOut(p, c, end, speed);
    var p2 := TimesOutAgain(p1, c, end, speed);
    var p3 := AllAcknowledged(p2, c);
    var late := LateEvents(end, speed);
    LateEventsForget(p3, c, end, speed);
    RunNext(p2, Acked(2, 2, 0, 2, S.NoCc), late);
    RunNext(p1, TimedOut(2, S.NoCc, false), [Acked(2, 2, 0, 2, S.NoCc)] + late);
    RunNext(p, TimedOut(1, S.NoCc, false), [TimedOut(2, S.NoCc, false)] + ([Acked(2, 2, 0, 2, S.NoCc)] + late));
  }
}
