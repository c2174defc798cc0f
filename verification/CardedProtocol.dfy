/**
The protocol with a real interface card: the card's answers decide when the source may send, and it calls the
source back when a port is free. Receiver, pacer and network are those of the protocol.
 */
module CardedProtocol {
  import opened Outcomes
  import opened Cyclic
  import opened Protocol
  import C = CardedSource
  import S = Sender
  import I = SenderInvariant
  import N = NicPorts
  import W = ReceiveWindow
  import H = Hazards
  import NeverStalls
  import O = OnePacketOut
  import P = PullPacer

  // ---------------------------------------------------------------- the card itself never fails

  /** Asking trips no assertion of the card. */
  lemma AskOk(p: C.Pair, now: nat, cc: S.Cc)
    requires N.Inv(p.card)
    ensures C.Ask(p, now, cc).Ok? <==> S.SendIfPermitted(p.snd, now, cc, !N.AllBusy(p.card)).Ok?
    ensures C.Ask(p, now, cc).Ok? ==> N.Inv(C.Ask(p, now, cc).value.card)
  {
    if S.WantsToSend(p.snd, cc) {
      var r := S.SendIfPermitted(p.snd, now, cc, !N.AllBusy(p.card));
      if r.Ok? {
        N.SourceAsksOk(p.card, C.SRC, now, C.Decide(r.value.1, false));
      }
    }
  }

  lemma QueueingOk(p: C.Pair, q: nat, size: nat, now: nat, cc: S.Cc)
    requires N.Inv(p.card)
    ensures C.QueueAndAsk(p, q, size, now, cc).Ok? <==> S.QueueForRtx(p.snd, q, size, now, cc, !N.AllBusy(p.card)).Ok?
    ensures C.QueueAndAsk(p, q, size, now, cc).Ok? ==> N.Inv(C.QueueAndAsk(p, q, size, now, cc).value.card)
  {
    AskOk(p.(snd := p.snd.(rtx := p.snd.rtx[q := size])), now, cc);
  }

  lemma RtsOk(p: C.Pair, now: nat, recent: bool)
    requires N.Inv(p.card)
    ensures C.SendRts(p, now, recent).Ok? <==> S.SendRts(p.snd, now, recent).Ok?
    ensures C.SendRts(p, now, recent).Ok? ==> N.Inv(C.SendRts(p, now, recent).value.card)
  {
    N.ControlArrivesOk(p.card, S.HDR_SIZE, now);
  }

  lemma DirectlyOk(p: C.Pair, now: nat, cc: S.Cc)
    requires N.Inv(p.card)
    ensures C.AskDirectly(p, now, cc).Ok? <==> N.AllBusy(p.card) || S.SendRtx(p.snd, now, cc).Ok?
    ensures C.AskDirectly(p, now, cc).Ok? ==> N.Inv(C.AskDirectly(p, now, cc).value.card)
  {
    if N.AllBusy(p.card) {
      N.SourceAsksOk(p.card, C.SRC, now, []);
    } else if S.SendRtx(p.snd, now, cc).Ok? {
      var r := S.SendRtx(p.snd, now, cc).value;
      N.SourceAsksOk(p.card, C.SRC, now, if r.1 == [] then [N.CannotSend] else [N.SendPacket(1, false)]);
    }
  }

  lemma BehindOk(p: C.Pair, q: nat, size: nat, now: nat, cc: S.Cc, recent: bool)
    requires N.Inv(p.card)
    ensures var o := C.TimedOutBehind(p, q, size, now, cc, recent);
            && (o.Ok? <==> S.QueueBehind(p.snd, q, size, now, cc, !N.AllBusy(p.card), recent).Ok?)
            && (o.Ok? ==> N.Inv(o.value.card))
  {
    var p1 := p.(snd := S.StopSpeculating(p.snd));
    QueueingOk(p1, q, size, now, cc);
    if C.QueueAndAsk(p1, q, size, now, cc).Ok? {
      C.QueueingIsSender(p1, q, size, now, cc);
      RtsOk(C.QueueAndAsk(p1, q, size, now, cc).value, now, recent);
    }
  }

  lemma AloneOk(p: C.Pair, q: nat, size: nat, now: nat, cc: S.Cc, recent: bool)
    requires N.Inv(p.card)
    ensures var o := C.TimedOutAlone(p, q, size, now, cc, recent);
            var second := C.FreeAfter(C.QueueAndAsk(p, q, size, now, cc));
            && (o.Ok? <==> S.QueueAlone(p.snd, q, size, now, cc, !N.AllBusy(p.card), second, recent).Ok?)
            && (o.Ok? ==> N.Inv(o.value.card))
  {
    QueueingOk(p, q, size, now, cc);
    if C.QueueAndAsk(p, q, size, now, cc).Ok? {
      C.QueueingIsSender(p, q, size, now, cc);
      var p1 := C.QueueAndAsk(p, q, size, now, cc).value;
      RtsOk(p1, now, recent);
      DirectlyOk(p1, now, cc);
    }
  }

  // ---------------------------------------------------------------- protocol and card

  datatype World = World(sys: Sys, card: N.Nic<nat>)

  function AtCard(w: World): C.Pair {
    C.Pair(w.sys.snd, w.card)
  }

  /** `Sink` is what happens at the receiver and its pacer; `Source` what reaches the source from the network or its
      timer, the grants in it being ignored; `Card` what happens at the card. */
  datatype Event = Sink(a: Action) | Source(a: Action) | Card(e: C.Event)

  predicate AtSink(a: Action) {
    a.DataArrives? || a.DataTrimmed? || a.RtsArrives? || a.PacerTimer? || a.Others?
  }

  predicate AtSource(a: Action) {
    a.AckArrives? || a.NackArrives? || a.PullArrives? || a.Timeout?
  }

  function ToCard(a: Action): C.Event
    requires AtSource(a)
  {
    match a
    case AckArrives(k, now, cc, _) => C.Acked(k.cum, k.ref, k.bitmap, now, cc)
    case NackArrives(q, now, cc, _, _) => C.Refused(q, now, cc)
    case PullArrives(n, now, cc, _) => C.Pulled(n, now, cc)
    case Timeout(now, cc, _, _, recent) => C.TimedOut(now, cc, recent)
  }

  predicate Possible(w: World, e: Event) {
    match e
    case Sink(a) => AtSink(a) && Enabled(w.sys, a)
    case Source(a) => AtSource(a) && Enabled(w.sys, a) && C.Possible(AtCard(w), ToCard(a))
    case Card(e) => (e.PortDone? || e.OtherAsks? || e.ControlPacket?) && C.Possible(AtCard(w), e)
  }

  /** The action with the card's answers for grants. */
  ghost function Granted(w: World, a: Action): Action
    requires AtSource(a) && C.Possible(AtCard(w), ToCard(a))
  {
    var first := !N.AllBusy(w.card);
    match a
    case AckArrives(k, now, cc, _) => AckArrives(k, now, cc, first)
    case NackArrives(q, now, cc, _, _) => NackArrives(q, now, cc, first, C.SecondAnswer(AtCard(w), ToCard(a)))
    case PullArrives(n, now, cc, _) => PullArrives(n, now, cc, first)
    case Timeout(now, cc, _, _, recent) => Timeout(now, cc, first, C.SecondAnswer(AtCard(w), ToCard(a)), recent)
  }

  /** How often the card calls the source while it goes through its queue. */
  function CallCount(s: S.Sender, queue: seq<nat>, now: nat, cc: S.Cc, plan: seq<N.Decision>): nat
    decreases |queue|
  {
    if queue == [] then 0
    else if queue[0] == C.SRC then
      var r := S.TimeToSend(s, now, cc);
      if r.Ok? && r.value.1 == [] then 1 + CallCount(r.value.0, queue[1..], now, cc, plan) else 1
    else if plan == [] || plan[0].CannotSend? then
      CallCount(s, queue[1..], now, cc, if plan == [] then [] else plan[1..])
    else 0
  }

  function CallBacks(n: nat, now: nat, cc: S.Cc): seq<Action> {
    if n == 0 then [] else [NicReady(now, cc)] + CallBacks(n - 1, now, cc)
  }

  /** What the event amounts to in the protocol. */
  ghost function Actions(w: World, e: Event): seq<Action>
    requires Possible(w, e)
  {
    match e
    case Sink(a) => [a]
    case Source(a) => [Granted(w, a)]
    case Card(PortDone(now, cc, plan)) =>
      if C.SourcesTurn(w.card) then CallBacks(CallCount(w.sys.snd, w.card.queue, now, cc, plan), now, cc) else []
    case Card(_) => []
  }

  ghost function CardStep(w: World, e: Event): Outcome<C.Pair>
    requires Possible(w, e)
  {
    match e
    case Sink(_) => Ok(AtCard(w))
    case Source(a) => C.Step(AtCard(w), ToCard(a))
    case Card(e) => C.Step(AtCard(w), e)
  }

  /** Card and protocol each take their part of the event. */
  ghost function Step(w: World, e: Event): Outcome<World>
    requires Joined(w.sys) && Possible(w, e)
  {
    var p :- CardStep(w, e);
    var t :- Protocol.Run(w.sys, Actions(w, e));
    Ok(World(t, p.card))
  }

  // ---------------------------------------------------------------- both mean the same source

  lemma RunSingle(s: Sys, a: Action)
    requires Joined(s) && Enabled(s, a)
    ensures Protocol.Run(s, [a]) == Next(s, a)
    ensures InReach(s, a) ==> StaysInReach(s, [a])
  {
    assert [a][1..] == [];
    if Next(s, a).Ok? {
      StaysJoined(s, a);
    }
  }

  lemma {:induction false} ResolveIsRun(s: Sys, queue: seq<nat>, now: nat, cc: S.Cc, plan: seq<N.Decision>)
    requires Joined(s)
    ensures var r := C.Resolve(s.snd, queue, now, cc, plan);
            var o := Protocol.Run(s, CallBacks(CallCount(s.snd, queue, now, cc, plan), now, cc));
            (r.Ok? <==> o.Ok?) && (r.Ok? ==> Joined(o.value) && o.value.snd == r.value.0)
    decreases |queue|
  {
    if queue != [] {
      if queue[0] == C.SRC {
        var r := S.TimeToSend(s.snd, now, cc);
        var n := CallCount(s.snd, queue, now, cc, plan);
        assert CallBacks(n, now, cc)[1..] == CallBacks(n - 1, now, cc);
        if r.Ok? {
          var t := Next(s, NicReady(now, cc)).value;
          StaysJoined(s, NicReady(now, cc));
          if r.value.1 == [] {
            ResolveIsRun(t, queue[1..], now, cc, plan);
          }
        }
      } else if plan == [] || plan[0].CannotSend? {
        ResolveIsRun(s, queue[1..], now, cc, if plan == [] then [] else plan[1..]);
      }
    }
  }

  /** The card adds no failure of its own, and keeps its invariant. */
  lemma SourceOk(w: World, a: Action)
    requires Joined(w.sys) && N.Inv(w.card) && Possible(w, Source(a))
    ensures var p := C.Step(AtCard(w), ToCard(a));
            (p.Ok? <==> Next(w.sys, Granted(w, a)).Ok?) && (p.Ok? ==> N.Inv(p.value.card))
  {
    var p := AtCard(w);
    match a
    case AckArrives(k, now, cc, _) =>
      AskOk(p.(snd := I.Acknowledged(p.snd, k.cum, k.ref, k.bitmap)), now, cc);
    case NackArrives(q, now, cc, _, _) =>
      if q in p.snd.tx {
        RefusalOk(p, q, now, cc);
      }
    case PullArrives(n, now, cc, _) => AskOk(p.(snd := S.StopSpeculating(S.HandlePull(p.snd, n))), now, cc);
    case Timeout(now, cc, _, _, recent) => TimeoutOk(p, now, cc, recent);
  }

  lemma SourceAgrees(w: World, a: Action)
    requires Joined(w.sys) && N.Inv(w.card) && Possible(w, Source(a)) && C.Step(AtCard(w), ToCard(a)).Ok?
    ensures var t := Next(w.sys, Granted(w, a)); t.Ok? && t.value.snd == C.Step(AtCard(w), ToCard(a)).value.snd
  {
    C.StepIsSender(AtCard(w), ToCard(a));
  }

  lemma RefusalOk(p: C.Pair, q: nat, now: nat, cc: S.Cc)
    requires N.Inv(p.card) && q in p.snd.tx
    ensures var e := C.Refused(q, now, cc); var o := C.Step(p, e);
            && (o.Ok? <==> S.ProcessNack(p.snd, q, now, cc, !N.AllBusy(p.card), C.SecondAnswer(p, e)).Ok?)
            && (o.Ok? ==> N.Inv(o.value.card))
  {
    var p1 := C.WithoutRefused(p, q);
    QueueingOk(p1, q, p.snd.tx[q].size, now, cc);
    if C.QueueAndAsk(p1, q, p.snd.tx[q].size, now, cc).Ok? {
      C.QueueingIsSender(p1, q, p.snd.tx[q].size, now, cc);
      AskOk(C.QueueAndAsk(p1, q, p.snd.tx[q].size, now, cc).value, now, cc);
    }
  }

  lemma TimeoutOk(p: C.Pair, now: nat, cc: S.Cc, recent: bool)
    requires N.Inv(p.card) && p.snd.sendTimes.Keys != {}
    ensures var e := C.TimedOut(now, cc, recent); var o := C.Step(p, e);
            && (o.Ok? <==>
                S.TimerExpired(p.snd, now, cc, !N.AllBusy(p.card), C.SecondAnswer(p, e), recent).Ok?)
            && (o.Ok? ==> N.Inv(o.value.card))
  {
    var t := S.Least(p.snd.sendTimes.Keys);
    var q := p.snd.sendTimes[t];
    if q in p.snd.tx {
      var p1 := C.WithoutTimedOut(p, t, q);
      if p.snd.rtx.Keys != {} {
        BehindOk(p1, q, p.snd.tx[q].size, now, cc, recent);
      } else {
        AloneOk(p1, q, p.snd.tx[q].size, now, cc, recent);
      }
    }
  }

  lemma CardAgrees(w: World, e: C.Event)
    requires Joined(w.sys) && N.Inv(w.card) && Possible(w, Card(e))
    ensures var p := C.Step(AtCard(w), e); var t := Protocol.Run(w.sys, Actions(w, Card(e)));
            (p.Ok? <==> t.Ok?) && (p.Ok? ==> N.Inv(p.value.card) && t.value.snd == p.value.snd)
  {
    match e
    case PortDone(now, cc, plan) =>
      ResolveIsRun(w.sys, w.card.queue, now, cc, plan);
      var r := C.Resolve(w.sys.snd, w.card.queue, now, cc, plan);
      N.PortDoneOk(w.card, now, if C.SourcesTurn(w.card) && r.Ok? then r.value.1 else plan);
    case OtherAsks(src, now, plan) => N.SourceAsksOk(w.card, src, now, plan);
    case ControlPacket(size, now) => N.ControlArrivesOk(w.card, size, now);
  }

  /** An event fails exactly if its actions fail in the protocol. If it succeeds, card and protocol mean the same
      source, and the card is in order. */
  lemma StepAgrees(w: World, e: Event)
    requires Joined(w.sys) && N.Inv(w.card) && Possible(w, e)
    ensures var o := Step(w, e); var t := Protocol.Run(w.sys, Actions(w, e));
            && (o.Ok? <==> t.Ok?)
            && (o.Ok? ==> Joined(o.value.sys) && N.Inv(o.value.card) && CardStep(w, e).Ok?
                          && CardStep(w, e).value == AtCard(o.value) && o.value.sys == t.value)
  {
    RunAppend(w.sys, Actions(w, e), []);
    match e
    case Sink(a) =>
      RunSingle(w.sys, a);
      if Next(w.sys, a).Ok? {
        SinkKeepsSender(w.sys, a);
      }
    case Source(a) =>
      SourceOk(w, a);
      if C.Step(AtCard(w), ToCard(a)).Ok? {
        SourceAgrees(w, a);
      }
      RunSingle(w.sys, Granted(w, a));
    case Card(e) => CardAgrees(w, e);
  }

  // ---------------------------------------------------------------- hazards with a real card

  function FreePorts(n: N.Nic<nat>): int {
    |n.ports| - n.busyPorts
  }

  /** A timeout resends once too often only if the card has two free ports, and resends without any credit left only
      if it has one. */
  predicate ResendHazard(p: C.Pair, cc: S.Cc)
    requires p.snd.sendTimes.Keys != {}
  {
    var s := p.snd;
    var q := s.sendTimes[S.Least(s.sendTimes.Keys)];
    q in s.tx && s.rtx.Keys == {} && !s.speculating && s.creditPull > 0 &&
    var size := s.tx[q].size;
    if s.Credit() > 0 then
      && FreePorts(p.card) >= 2 && !s.blocked && s.creditPull > size
      && (cc.Window? ==> s.inFlight < cc.cwnd && s.inFlight + 2 * size <= cc.cwnd)
    else
      FreePorts(p.card) >= 1 && (cc.Window? ==> s.inFlight + size <= cc.cwnd)
  }

  /** The closed guards under which an event trips an assertion. */
  predicate Hazard(w: World, e: Event)
    requires Possible(w, e)
  {
    match e
    case Sink(_) => false
    case Source(a) =>
      || (a.Timeout? && ResendHazard(AtCard(w), a.cc))
      || (a.NackArrives? && a.seqno !in w.sys.snd.tx)
    case Card(e) =>
      && e.PortDone? && C.SourcesTurn(w.card) && C.IsCalled(w.card.queue, e.plan)
      && I.SpeculativeHazard(w.sys.snd, e.cc)
  }

  /** A source that sends nothing when it is called is no nearer to the hazard of being called again. */
  lemma {:induction false} ResolveAbortsIff(
    s: S.Sender, sizes: seq<nat>, queue: seq<nat>, now: nat, cc: S.Cc, plan: seq<N.Decision>)
    requires I.Good(s) && I.Sized(s, sizes)
    ensures C.Resolve(s, queue, now, cc, plan).Aborted? <==> C.IsCalled(queue, plan) && I.SpeculativeHazard(s, cc)
    decreases |queue|
  {
    if queue != [] {
      if queue[0] == C.SRC {
        I.TimeToSendSteps(s, sizes, now, cc);
        var r := S.TimeToSend(s, now, cc);
        if r.Ok? && r.value.1 == [] {
          CalledInVain(s, now, cc);
          ResolveAbortsIff(r.value.0, I.Extend(sizes, r.value.1), queue[1..], now, cc, plan);
        }
      } else if plan == [] || plan[0].CannotSend? {
        ResolveAbortsIff(s, sizes, queue[1..], now, cc, if plan == [] then [] else plan[1..]);
      }
    }
  }

  lemma CalledInVain(s: S.Sender, now: nat, cc: S.Cc)
    requires I.Good(s) && S.TimeToSend(s, now, cc).Ok? && S.TimeToSend(s, now, cc).value.1 == []
    requires !I.SpeculativeHazard(s, cc)
    ensures !I.SpeculativeHazard(S.TimeToSend(s, now, cc).value.0, cc)
  {
  }

  /** The second answer, as far as it matters. */
  lemma SecondIsFree(p: C.Pair, sizes: seq<nat>, now: nat, cc: S.Cc, recent: bool)
    requires N.Inv(p.card) && I.Good(p.snd) && I.Sized(p.snd, sizes) && p.snd.sendTimes.Keys != {}
    ensures var second := C.SecondAnswer(p, C.TimedOut(now, cc, recent));
            I.ResendHazard(p.snd, cc, !N.AllBusy(p.card), second) <==> ResendHazard(p, cc)
  {
    N.CountBound(p.card.ports);
    var s := p.snd;
    var t := S.Least(s.sendTimes.Keys);
    var q := s.sendTimes[t];
    if q in s.tx && s.rtx.Keys == {} && !s.speculating && s.creditPull > 0 {
      var p1 := C.WithoutTimedOut(p, t, q);
      if s.Credit() > 0 && !N.AllBusy(p.card) && !s.blocked && (cc.Window? ==> s.inFlight < cc.cwnd) {
        AsksOnce(p1, q, s.tx[q].size, now, cc);
      }
    }
  }

  /** A source with pulled credit takes a port. */
  lemma AsksOnce(p: C.Pair, q: nat, size: nat, now: nat, cc: S.Cc)
    requires N.Inv(p.card) && !N.AllBusy(p.card) && p.snd.rtx.Keys == {} && q !in p.snd.tx && !p.snd.speculating
    requires p.snd.creditPull > 0 && p.snd.Credit() > 0 && !p.snd.blocked && (cc.Window? ==> p.snd.inFlight < cc.cwnd)
    requires p.snd.phase.Committed?
    ensures C.FreeAfter(C.QueueAndAsk(p, q, size, now, cc)) <==> FreePorts(p.card) >= 2
  {
    var s := p.snd.(rtx := p.snd.rtx[q := size]);
    assert q in s.rtx.Keys && s.rtx.Keys == {q} && S.Least(s.rtx.Keys) == q;
    var r := S.SendRtx(s, now, cc).value;
    var plan := C.Decide(r.1, false);
    N.SourceAsksOk(p.card, C.SRC, now, plan);
    C.GrantedPort(p.card, now, plan);
    N.CountBound(p.card.ports);
  }

  lemma SourceAbortsIff(w: World, a: Action)
    requires Inv(w.sys) && N.Inv(w.card) && Possible(w, Source(a))
    ensures Next(w.sys, Granted(w, a)).Aborted? <==> Hazard(w, Source(a))
  {
    H.NextAbortsIff(w.sys, Granted(w, a));
    if a.Timeout? {
      SecondIsFree(AtCard(w), w.sys.sizes, a.now, a.cc, a.recent);
    }
  }

  /** With a real card an event trips an assertion exactly under those guards. */
  lemma StepAbortsIff(w: World, e: Event)
    requires Inv(w.sys) && N.Inv(w.card) && Possible(w, e)
    requires e.Sink? ==> InReach(w.sys, e.a)
    ensures Step(w, e).Aborted? <==> Hazard(w, e)
  {
    StepAgrees(w, e);
    match e
    case Sink(a) =>
      RunSingle(w.sys, a);
      H.NextAbortsIff(w.sys, a);
    case Source(a) =>
      RunSingle(w.sys, Granted(w, a));
      SourceAbortsIff(w, a);
    case Card(e) =>
      if e.PortDone? {
        ResolveIsRun(w.sys, w.card.queue, e.now, e.cc, e.plan);
        ResolveAbortsIff(w.sys.snd, w.sys.sizes, w.card.queue, e.now, e.cc, e.plan);
      }
  }

  // ---------------------------------------------------------------- runs

  /** Runs `es`, passing over events that are not possible. */
  ghost function Run(w: World, es: seq<Event>): Outcome<World>
    requires Joined(w.sys) && N.Inv(w.card)
    decreases |es|
  {
    if es == [] then Ok(w)
    else if !Possible(w, es[0]) then Run(w, es[1..])
    else
      StepAgrees(w, es[0]);
      var t :- Step(w, es[0]);
      Run(t, es[1..])
  }

  /** What the run amounts to in the protocol. */
  ghost function RunActions(w: World, es: seq<Event>): seq<Action>
    requires Joined(w.sys) && N.Inv(w.card)
    decreases |es|
  {
    if es == [] then []
    else if !Possible(w, es[0]) then RunActions(w, es[1..])
    else
      StepAgrees(w, es[0]);
      var o := Step(w, es[0]);
      Actions(w, es[0]) + if o.Ok? then RunActions(o.value, es[1..]) else []
  }

  /** A run with a real card is a run of the protocol, so everything that holds over every run of the protocol holds
      over it. */
  lemma {:induction false} RunProjects(w: World, es: seq<Event>)
    requires Joined(w.sys) && N.Inv(w.card)
    ensures var o := Run(w, es); var t := Protocol.Run(w.sys, RunActions(w, es));
            (o.Ok? <==> t.Ok?) && (o.Ok? ==> o.value.sys == t.value && Joined(o.value.sys) && N.Inv(o.value.card))
    decreases |es|
  {
    if es == [] {
    } else if !Possible(w, es[0]) {
      RunProjects(w, es[1..]);
    } else {
      StepAgrees(w, es[0]);
      var o := Step(w, es[0]);
      RunAppend(w.sys, Actions(w, es[0]), if o.Ok? then RunActions(o.value, es[1..]) else []);
      if o.Ok? {
        RunProjects(o.value, es[1..]);
      } else {
        assert RunActions(w, es) == Actions(w, es[0]);
      }
    }
  }

  /** Every packet that the run delivers lies in reach of the receive window. */
  ghost predicate InReachRun(w: World, es: seq<Event>)
    requires Joined(w.sys) && N.Inv(w.card)
  {
    StaysInReach(w.sys, RunActions(w, es))
  }

  // ---------------------------------------------------------------- source and card in step

  /** The event is none of the two that let source and card fall out of step. */
  predicate InStep(w: World, e: Event)
    requires Possible(w, e)
  {
    match e
    case Sink(_) => true
    case Source(a) => !C.Slips(AtCard(w), ToCard(a))
    case Card(e) => !C.Slips(AtCard(w), e)
  }

  ghost predicate NeverSlips(w: World, es: seq<Event>)
    requires Joined(w.sys) && N.Inv(w.card)
    decreases |es|
  {
    if es == [] then true
    else if !Possible(w, es[0]) then NeverSlips(w, es[1..])
    else
      StepAgrees(w, es[0]);
      InStep(w, es[0]) && (Step(w, es[0]).Ok? ==> NeverSlips(Step(w, es[0]).value, es[1..]))
  }

  lemma StepKeepsClean(w: World, e: Event)
    requires Joined(w.sys) && I.Good(w.sys.snd) && I.Sized(w.sys.snd, w.sys.sizes)
    requires C.Clean(AtCard(w)) && Possible(w, e) && Step(w, e).Ok?
    ensures C.Clean(AtCard(Step(w, e).value)) <==> InStep(w, e)
  {
    StepAgrees(w, e);
    match e
    case Sink(_) =>
    case Source(a) => C.StepKeepsCleanIff(AtCard(w), w.sys.sizes, ToCard(a));
    case Card(e) => C.StepKeepsCleanIff(AtCard(w), w.sys.sizes, e);
  }

  lemma {:induction false} ReachOfFirst(s: Sys, a: seq<Action>, b: seq<Action>)
    requires Joined(s) && StaysInReach(s, a + b)
    ensures StaysInReach(s, a) && (Protocol.Run(s, a).Ok? ==>
              Joined(Protocol.Run(s, a).value) && StaysInReach(Protocol.Run(s, a).value, b))
    decreases |a|
  {
    if a == [] {
      assert a + b == b;
    } else {
      assert (a + b)[1..] == a[1..] + b;
      if !Enabled(s, a[0]) {
        ReachOfFirst(s, a[1..], b);
      } else if Next(s, a[0]).Ok? {
        StaysJoined(s, a[0]);
        ReachOfFirst(Next(s, a[0]).value, a[1..], b);
      }
    }
  }

  /** Over every run, protocol and card keep their invariants; without the two events source and card also agree on
      who waits. */
  lemma {:induction false} RunKeepsInvs(w: World, es: seq<Event>)
    requires Inv(w.sys) && N.Inv(w.card) && InReachRun(w, es) && Run(w, es).Ok?
    ensures Inv(Run(w, es).value.sys) && N.Inv(Run(w, es).value.card)
    ensures C.Clean(AtCard(w)) && NeverSlips(w, es) ==> C.Clean(AtCard(Run(w, es).value))
    decreases |es|
  {
    if es == [] {
    } else if !Possible(w, es[0]) {
      RunKeepsInvs(w, es[1..]);
    } else {
      StepAgrees(w, es[0]);
      var t := Step(w, es[0]).value;
      ReachOfFirst(w.sys, Actions(w, es[0]), RunActions(t, es[1..]));
      RunKeepsInv(w.sys, Actions(w, es[0]));
      if C.Clean(AtCard(w)) {
        StepKeepsClean(w, es[0]);
      }
      RunKeepsInvs(t, es[1..]);
    }
  }

  /** No event of the run meets a hazard. */
  ghost predicate HazardFree(w: World, es: seq<Event>)
    requires Joined(w.sys) && N.Inv(w.card)
    decreases |es|
  {
    if es == [] then true
    else if !Possible(w, es[0]) then HazardFree(w, es[1..])
    else
      StepAgrees(w, es[0]);
      !Hazard(w, es[0]) && (Step(w, es[0]).Ok? ==> HazardFree(Step(w, es[0]).value, es[1..]))
  }

  /** A run with a real card trips an assertion exactly if it meets a hazard. */
  lemma {:induction false} RunAbortsIff(w: World, es: seq<Event>)
    requires Inv(w.sys) && N.Inv(w.card) && InReachRun(w, es)
    ensures Run(w, es).Ok? <==> HazardFree(w, es)
    decreases |es|
  {
    if es == [] {
    } else if !Possible(w, es[0]) {
      RunAbortsIff(w, es[1..]);
    } else {
      StepAgrees(w, es[0]);
      var o := Step(w, es[0]);
      ReachOfFirst(w.sys, Actions(w, es[0]), if o.Ok? then RunActions(o.value, es[1..]) else []);
      if es[0].Sink? {
        assert Enabled(w.sys, es[0].a) && InReach(w.sys, es[0].a);
      }
      StepAbortsIff(w, es[0]);
      if o.Ok? {
        RunKeepsInv(w.sys, Actions(w, es[0]));
        RunAbortsIff(o.value, es[1..]);
      }
    }
  }

  // ---------------------------------------------------------------- from the start

  /** The card lets the source send `grants` packets in a row, and no more. */
  predicate StartsAlike(p: C.Pair, now: nat, cc: S.Cc, ports: nat, grants: nat) {
    var o := C.StartLoop(p, now, cc, ports);
    var r := S.StartLoop(p.snd, now, cc, grants);
    o.Ok? && r.Ok? && o.value.snd == r.value.0
  }

  /** While the flow starts, each granted packet takes a port. */
  lemma {:induction false} StartLoopAgrees(p: C.Pair, sizes: seq<nat>, now: nat, cc: S.Cc, ports: nat)
    requires C.Clean(p) && I.Good(p.snd) && I.Sized(p.snd, sizes) && !p.snd.blocked && p.snd.speculating
    requires 0 <= FreePorts(p.card) < ports
    ensures StartsAlike(p, now, cc, ports, FreePorts(p.card))
    decreases ports
  {
    N.CountBound(p.card.ports);
    if p.snd.Credit() <= 0 || p.snd.unsent <= 0 || N.AllBusy(p.card) {
      StartsNone(p, now, cc, ports);
    } else {
      var t, sizes' := StartsNext(p, sizes, now, cc, ports);
      StartLoopAgrees(t, sizes', now, cc, ports - 1);
    }
  }

  lemma StartsNext(p: C.Pair, sizes: seq<nat>, now: nat, cc: S.Cc, ports: nat) returns (t: C.Pair, sizes': seq<nat>)
    requires C.Clean(p) && I.Good(p.snd) && I.Sized(p.snd, sizes) && !p.snd.blocked && p.snd.speculating
    requires p.snd.Credit() > 0 && p.snd.unsent > 0 && 0 < FreePorts(p.card) < ports
    ensures C.Clean(t) && I.Good(t.snd) && I.Sized(t.snd, sizes') && !t.snd.blocked && t.snd.speculating
    ensures FreePorts(t.card) == FreePorts(p.card) - 1
    ensures StartsAlike(t, now, cc, ports - 1, FreePorts(t.card)) ==> StartsAlike(p, now, cc, ports, FreePorts(p.card))
  {
    t, sizes' := C.LaunchKeepsClean(p, sizes, now, cc);
    if StartsAlike(t, now, cc, ports - 1, FreePorts(t.card)) {
      StartsOneMore(p, t, now, cc, ports);
    }
  }

  lemma StartsNone(p: C.Pair, now: nat, cc: S.Cc, ports: nat)
    requires C.Clean(p) && !p.snd.blocked && 0 <= FreePorts(p.card) < ports
    requires p.snd.Credit() <= 0 || p.snd.unsent <= 0 || N.AllBusy(p.card)
    ensures StartsAlike(p, now, cc, ports, FreePorts(p.card))
  {
    S.StartLoopEnds(p.snd, now, cc, FreePorts(p.card));
    if N.AllBusy(p.card) {
      C.RefusalKeepsClean(p, now);
    }
  }

  lemma StartsOneMore(p: C.Pair, t: C.Pair, now: nat, cc: S.Cc, ports: nat)
    requires p.snd.Credit() > 0 && p.snd.unsent > 0 && 0 < FreePorts(p.card) < ports
    requires S.SendNew(p.snd, now, cc).Ok?
    requires var r := S.SendNew(p.snd, now, cc).value;
             var c := N.SourceAsks(p.card, C.SRC, now, C.Decide(r.1, false));
             c.Ok? && t == C.Pair(r.0, c.value.nic)
    requires FreePorts(t.card) == FreePorts(p.card) - 1 && StartsAlike(t, now, cc, ports - 1, FreePorts(t.card))
    ensures StartsAlike(p, now, cc, ports, FreePorts(p.card))
  {
    C.StartLoopGoesOn(p, t, now, cc, ports);
  }

  /** A flow that starts at a card sends as many packets as the card has free ports. */
  ghost predicate Starts(c: Config, card: N.Nic<nat>, pacer: P.State<nat>, now: nat, cc: S.Cc, w: World) {
    && FreePorts(card) >= 0 && C.Start(c, card, now, cc).Ok? && C.Start(c, card, now, cc).value == AtCard(w)
    && Init(c, pacer, now, cc, FreePorts(card)) == Ok(w.sys)
  }

  lemma StartAgrees(c: Config, card: N.Nic<nat>, pacer: P.State<nat>, now: nat, cc: S.Cc) returns (w: World)
    requires N.Inv(card) && C.Waiting(card) == 0 && Awaiting(pacer)
    ensures Starts(c, card, pacer, now, cc, w) && Inv(w.sys) && C.Clean(AtCard(w))
  {
    N.CountBound(card.ports);
    I.ReadyToStartGood(c.mss, c.maxWnd, c.flowSize);
    InitInv(c, pacer, now, cc, FreePorts(card));
    StartLoopAgrees(C.Pair(O.Ready(c), card), [], now, cc, |card.ports| + 1);
    C.EveryRunIsClean(c, card, now, cc, []);
    w := World(Init(c, pacer, now, cc, FreePorts(card)).value, C.Start(c, card, now, cc).value.card);
  }

  /** From the start of any flow at any card that it shares with others, over every run: protocol and card keep
      their invariants, an assertion fails exactly at a hazard, and a flow is done only when all of it has arrived. */
  lemma EveryRunIsSafe(
    c: Config, card: N.Nic<nat>, pacer: P.State<nat>, now: nat, cc: S.Cc, es: seq<Event>) returns (w: World)
    requires N.Inv(card) && C.Waiting(card) == 0 && Awaiting(pacer)
    ensures Starts(c, card, pacer, now, cc, w) && Inv(w.sys) && N.Inv(w.card)
    ensures InReachRun(w, es) ==> (Run(w, es).Ok? <==> HazardFree(w, es))
    ensures InReachRun(w, es) && Run(w, es).Ok? ==>
              var t := Run(w, es).value;
              && Inv(t.sys) && N.Inv(t.card) && (NeverSlips(w, es) ==> C.Clean(AtCard(t)))
              && (t.sys.snd.done ==> t.sys.win.received == t.sys.snd.flowSize)
  {
    w := StartAgrees(c, card, pacer, now, cc);
    if InReachRun(w, es) {
      RunAbortsIff(w, es);
      if Run(w, es).Ok? {
        RunKeepsInvs(w, es);
        if Run(w, es).value.sys.snd.done {
          FinishedMeansReceived(Run(w, es).value.sys);
        }
      }
    }
  }

  /** Nor does a real card bring a flow to a standstill that is larger than its initial window: without the two
      mishaps at the receiver no run does. */
  lemma LargeFlowsNeverStall(
    c: Config, card: N.Nic<nat>, pacer: P.State<nat>, now: nat, cc: S.Cc, es: seq<Event>) returns (w: World)
    requires N.Inv(card) && C.Waiting(card) == 0 && FreePorts(card) > 0 && Awaiting(pacer)
    requires NeverStalls.StartsWell(c, pacer, cc, FreePorts(card)) && O.TotalBytes(c) > c.maxWnd
    ensures Starts(c, card, pacer, now, cc, w) && Inv(w.sys) && N.Inv(w.card)
    ensures var actions := RunActions(w, es);
            InReachRun(w, es) && NeverStalls.SaneRun(actions) && NeverStalls.TimelyRun(w.sys, actions)
            && Run(w, es).Ok? ==>
              !NeverStalls.Stalled(Run(w, es).value.sys)
  {
    w := StartAgrees(c, card, pacer, now, cc);
    N.CountBound(card.ports);
    RunProjects(w, es);
    var actions := RunActions(w, es);
    if StaysInReach(w.sys, actions) && NeverStalls.SaneRun(actions) && NeverStalls.TimelyRun(w.sys, actions) {
      NeverStalls.RunKeepsSuppliedFromStart(c, pacer, now, cc, FreePorts(card), actions);
      NeverStalls.StallsUnsupplied(c, pacer, now, cc, FreePorts(card), actions);
    }
  }

  // ---------------------------------------------------------------- a hazard that a real card meets

  /** A flow of one packet, which costs less than a pull. */
  predicate CheapFlow(c: Config) {
    0 < c.flowSize <= c.mss && c.flowSize + S.HDR_SIZE < 4096 <= c.maxWnd
  }

  lemma OneGrantSuffices(c: Config, grants: nat)
    requires CheapFlow(c) && grants > 0
    ensures Init(c, P.InitState<nat>(), 0, S.NoCc, grants) == O.Started(c, P.InitState<nat>())
  {
    O.SendsFirst(c, O.Ready(c), 0, S.NoCc);
    var t := S.SendNew(O.Ready(c), 0, S.NoCc).value.0;
    S.StartLoopEnds(t, 0, S.NoCc, grants - 1);
    S.StartLoopEnds(t, 0, S.NoCc, 0);
  }

  /** The flow has sent its packet, and takes one of the card's ports. */
  lemma StartsCheaply(c: Config, card: N.Nic<nat>) returns (w: World)
    requires CheapFlow(c) && N.Inv(card) && C.Waiting(card) == 0 && FreePorts(card) > 0
    ensures Starts(c, card, P.InitState<nat>(), 0, S.NoCc, w) && Inv(w.sys) && N.Inv(w.card)
    ensures O.Started(c, P.InitState<nat>()) == Ok(w.sys) && FreePorts(w.card) == FreePorts(card) - 1
  {
    var pacer := P.InitState<nat>();
    w := StartAgrees(c, card, pacer, 0, S.NoCc);
    OneGrantSuffices(c, FreePorts(card));
    I.ReadyToStartGood(c.mss, c.maxWnd, c.flowSize);
    O.SendsFirst(c, O.Ready(c), 0, S.NoCc);
    var p := C.Pair(O.Ready(c), card);
    N.CountBound(card.ports);
    var t, sizes' := C.LaunchKeepsClean(p, [], 0, S.NoCc);
    C.StartLoopGoesOn(p, t, 0, S.NoCc, |card.ports| + 1);
  }

  lemma SinkStep(w: World, a: Action, t: Sys)
    requires N.Inv(w.card) && AtSink(a) && Leads(w.sys, a, t)
    ensures Possible(w, Sink(a)) && Step(w, Sink(a)) == Ok(World(t, w.card))
  {
    RunSingle(w.sys, a);
  }

  /** A source with nothing to send takes its credit and asks for no port. */
  lemma PullStep(w: World, a: Action, t: Sys)
    requires N.Inv(w.card) && a.PullArrives? && Leads(w.sys, a, t) && !N.AllBusy(w.card) && a.grant
    requires w.sys.snd.unsent == 0 && w.sys.snd.rtx == map[]
    ensures Possible(w, Source(a)) && Step(w, Source(a)) == Ok(World(t, w.card))
  {
    assert Granted(w, a) == a;
    RunSingle(w.sys, a);
    var s := S.StopSpeculating(S.HandlePull(w.sys.snd, a.pullno));
    assert s.rtx.Keys == {} && !S.WantsToSend(s, a.cc);
  }

  /** The packet is trimmed and its refusal lost, and it is pulled. */
  lemma PulledOnce(c: Config, s: Sys) returns (t: Sys, u: Sys, v: Sys)
    requires CheapFlow(c) && O.Started(c, P.InitState<nat>()) == Ok(s)
    ensures Leads(s, DataTrimmed(O.FirstPacket(c, S.NoCc)), t) && Leads(t, PacerTimer(false), u) && Inv(v)
    ensures Leads(u, H.FirstPull, v) && u.snd.unsent == 0 && u.snd.rtx == map[]
    ensures O.OneOut(v.snd, O.FirstSize(c)) && v.snd.creditPull == 4096 && !v.snd.speculating && !v.snd.blocked
    ensures v.snd.creditSpec >= 0
  {
    O.StartsWithOne(c, P.InitState<nat>());
    var first := O.FirstPacket(c, S.NoCc);
    t := H.FirstTrimmed(s, first);
    H.AloneInRtx(s.pacer, Field(first.pullTarget), RtxDemand(s.snd));
    u := H.TrimmedIsPulled(t);
    v := H.FirstCredit(c, u);
  }

  function TrimAndTimeout(c: Config): seq<Event> {
    [Sink(DataTrimmed(O.FirstPacket(c, S.NoCc)))]
    + ([Sink(PacerTimer(false))] + ([Source(H.FirstPull)] + ([Source(H.FirstTimeout)] + [])))
  }

  /** The run of `Hazards.DoubleResendReachable`, on any card that has three free ports when the flow starts. */
  lemma DoubleResendWithCard(c: Config, card: N.Nic<nat>) returns (w: World)
    requires CheapFlow(c) && N.Inv(card) && C.Waiting(card) == 0 && FreePorts(card) >= 3
    ensures Starts(c, card, P.InitState<nat>(), 0, S.NoCc, w) && Inv(w.sys) && N.Inv(w.card)
    ensures Run(w, TrimAndTimeout(c)).Aborted?
  {
    w := StartsCheaply(c, card);
    var t, u, v := PulledOnce(c, w.sys);
    AbortsOnCard(c, w, t, u, v);
  }

  lemma AbortsOnCard(c: Config, w: World, t: Sys, u: Sys, v: Sys)
    requires Joined(w.sys) && N.Inv(w.card) && FreePorts(w.card) >= 2 && CheapFlow(c)
    requires Leads(w.sys, DataTrimmed(O.FirstPacket(c, S.NoCc)), t) && Leads(t, PacerTimer(false), u)
    requires Leads(u, H.FirstPull, v) && Inv(v) && u.snd.unsent == 0 && u.snd.rtx == map[]
    requires O.OneOut(v.snd, O.FirstSize(c)) && v.snd.creditPull == 4096 && !v.snd.speculating && !v.snd.blocked
    requires v.snd.creditSpec >= 0
    ensures Run(w, TrimAndTimeout(c)).Aborted?
  {
    var a, b, d, e := Sink(DataTrimmed(O.FirstPacket(c, S.NoCc))), Sink(PacerTimer(false)), Source(H.FirstPull),
      Source(H.FirstTimeout);
    var w1, w2, w3 := World(t, w.card), World(u, w.card), World(v, w.card);
    SinkStep(w, a.a, t);
    SinkStep(w1, b.a, u);
    PullStep(w2, d.a, v);
    TimesOutTwice(w3, c);
    RunFirst(w3, e, []);
    RunFirst(w2, d, [e] + []);
    RunFirst(w1, b, [d] + ([e] + []));
    RunFirst(w, a, [b] + ([d] + ([e] + [])));
  }

  lemma RunFirst(w: World, e: Event, es: seq<Event>)
    requires Joined(w.sys) && N.Inv(w.card) && Possible(w, e)
    ensures var o := Step(w, e);
            (o.Aborted? ==> Run(w, [e] + es).Aborted?)
            && (o.Ok? ==> Joined(o.value.sys) && N.Inv(o.value.card) && Run(w, [e] + es) == Run(o.value, es))
  {
    StepAgrees(w, e);
    assert ([e] + es)[1..] == es;
  }

  lemma TimesOutTwice(w: World, c: Config)
    requires Inv(w.sys) && N.Inv(w.card) && FreePorts(w.card) >= 2
    requires O.OneOut(w.sys.snd, O.FirstSize(c)) && O.FirstSize(c) < 4096
    requires w.sys.snd.creditPull == 4096 && !w.sys.snd.speculating && !w.sys.snd.blocked && w.sys.snd.creditSpec >= 0
    ensures Possible(w, Source(H.FirstTimeout)) && Step(w, Source(H.FirstTimeout)).Aborted?
  {
    assert 0 in w.sys.snd.sendTimes.Keys && S.Least(w.sys.snd.sendTimes.Keys) == 0;
    assert w.sys.snd.rtx.Keys == {};
    StepAbortsIff(w, Source(H.FirstTimeout));
  }
}
