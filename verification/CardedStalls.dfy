/** Which flows come to a standstill with a real card: the same as without one. */
module CardedStalls {
  import opened Outcomes
  import opened Protocol
  import opened CardedProtocol
  import opened OnePacketOut
  import opened Starvation
  import opened AsksForCredit
  import opened NeverStalls
  import opened Quanta
  import C = CardedSource
  import S = Sender
  import I = SenderInvariant
  import N = NicPorts
  import P = PullPacer
  import W = ReceiveWindow
  import H = Hazards

  function SinkEvents(actions: seq<Action>): seq<Event> {
    if actions == [] then [] else [Sink(actions[0])] + SinkEvents(actions[1..])
  }

  /** What the run amounts to in the protocol is what it says, apart from what could not happen. */
  ghost predicate Mirrors(w: World, es: seq<Event>, actions: seq<Action>)
    requires Joined(w.sys) && N.Inv(w.card)
  {
    && (Protocol.Run(w.sys, actions).Ok? ==>
          CardedProtocol.Run(w, es).Ok? && CardedProtocol.Run(w, es).value.sys == Protocol.Run(w.sys, actions).value)
    && (StaysInReach(w.sys, actions) ==> InReachRun(w, es))
    && forall a :: a in RunActions(w, es) ==> a in actions
  }

  /** While all ports are busy, an acknowledgement grants nothing. */
  lemma AckMirrors(w: World, a: Action)
    requires Inv(w.sys) && N.Inv(w.card) && a.AckArrives? && !a.grant && N.AllBusy(w.card)
    ensures Mirrors(w, [Source(a)], [a])
  {
    if Enabled(w.sys, a) {
      AckBounded(w.sys, a.ack);
      assert Granted(w, a) == a;
      StepAgrees(w, Source(a));
      RunFirst(w, Source(a), []);
      RunSingle(w.sys, a);
      assert [Source(a)] + [] == [Source(a)];
      assert RunActions(w, [Source(a)]) == [a];
    } else {
      assert [Source(a)][1..] == [] && [a][1..] == [];
      assert RunActions(w, [Source(a)]) == [];
    }
  }

  /** Arrivals at the receiver do not touch the card. */
  lemma SinkMirrors(w: World, a: Action, t: Sys, es: seq<Event>, actions: seq<Action>)
    requires N.Inv(w.card) && AtSink(a) && Leads(w.sys, a, t) && Mirrors(World(t, w.card), es, actions)
    ensures Mirrors(w, [Sink(a)] + es, [a] + actions)
  {
    SinkStep(w, a, t);
    RunFirst(w, Sink(a), es);
    RunOne(w.sys, a, t, actions);
    StepAgrees(w, Sink(a));
    assert ([Sink(a)] + es)[1..] == es && ([a] + actions)[1..] == actions;
    assert RunActions(w, [Sink(a)] + es) == [a] + RunActions(World(t, w.card), es);
  }

  lemma SinkSkipped(w: World, a: Action, es: seq<Event>, actions: seq<Action>)
    requires Joined(w.sys) && N.Inv(w.card) && !Enabled(w.sys, a) && Mirrors(w, es, actions)
    ensures Mirrors(w, [Sink(a)] + es, [a] + actions)
  {
    assert ([Sink(a)] + es)[1..] == es && ([a] + actions)[1..] == actions;
    assert RunActions(w, [Sink(a)] + es) == RunActions(w, es);
  }

  /** First arrivals at the receiver, then an acknowledgement at the source. */
  lemma {:induction false} ArrivalsMirror(w: World, arrivals: seq<Action>, a: Action)
    requires Inv(w.sys) && N.Inv(w.card) && N.AllBusy(w.card) && a.AckArrives? && !a.grant
    requires (forall i :: 0 <= i < |arrivals| ==> AtSink(arrivals[i])) && StaysInReach(w.sys, arrivals + [a])
    ensures Mirrors(w, SinkEvents(arrivals) + [Source(a)], arrivals + [a])
    decreases |arrivals|
  {
    if arrivals == [] {
      assert [] + [a] == [a] && [] + [Source(a)] == [Source(a)];
      AckMirrors(w, a);
    } else {
      var rest, es := arrivals[1..], SinkEvents(arrivals[1..]) + [Source(a)];
      assert arrivals + [a] == [arrivals[0]] + (rest + [a]);
      assert SinkEvents(arrivals) + [Source(a)] == [Sink(arrivals[0])] + es;
      assert ([arrivals[0]] + (rest + [a]))[1..] == rest + [a];
      if Enabled(w.sys, arrivals[0]) {
        H.NextAbortsIff(w.sys, arrivals[0]);
        NextKeepsInv(w.sys, arrivals[0]);
        var t := Next(w.sys, arrivals[0]).value;
        ArrivalsMirror(World(t, w.card), rest, a);
        SinkMirrors(w, arrivals[0], t, es, rest + [a]);
      } else {
        ArrivalsMirror(w, rest, a);
        SinkSkipped(w, arrivals[0], es, rest + [a]);
      }
    }
  }

  // ---------------------------------------------------------------- exactly which flows

  /** The run with the card is timely and ends at a standstill. */
  ghost predicate CardStalls(w: World, es: seq<Event>)
    requires Joined(w.sys) && N.Inv(w.card)
  {
    && InReachRun(w, es) && SaneRun(RunActions(w, es)) && TimelyRun(w.sys, RunActions(w, es))
    && CardedProtocol.Run(w, es).Ok? && Stalled(CardedProtocol.Run(w, es).value.sys)
  }

  lemma PartIsPlain(part: seq<Action>, actions: seq<Action>)
    requires PlainRun(actions) && forall a :: a in part ==> a in actions
    ensures PlainRun(part)
  {
    forall i | 0 <= i < |part| ensures Plain(part[i]) {
      assert part[i] in actions;
    }
  }

  /** A plain run that starves the flow stalls it with the card as well. */
  lemma MirroredStalls(w: World, es: seq<Event>, actions: seq<Action>)
    requires Inv(w.sys) && N.Inv(w.card) && w.sys.pacer.credit[ME].retx == 0 && Mirrors(w, es, actions)
    requires StaysInReach(w.sys, actions) && PlainRun(actions) && Protocol.Run(w.sys, actions).Ok?
    requires var t := Protocol.Run(w.sys, actions).value; Starved(t) && t.snd.pullTarget <= INIT_PULL
    ensures CardStalls(w, es)
  {
    PartIsPlain(RunActions(w, es), actions);
    PlainIsTimely(w.sys, RunActions(w, es));
    StarvedIsStalled(Protocol.Run(w.sys, actions).value);
  }

  lemma StarvesWithCard(w: World, pkts: seq<S.Packet>, marks: seq<bool>, k: W.Ack, now: nat) returns (es: seq<Event>)
    requires Inv(w.sys) && N.Inv(w.card) && N.AllBusy(w.card) && w.sys.pacer.credit[ME].retx == 0
    requires |marks| == |pkts| && forall i :: 0 <= i < |pkts| ==> pkts[i].Data?
    requires var actions := SmallRun(pkts, marks, k, now, S.NoCc, false); var o := Protocol.Run(w.sys, actions);
             StaysInReach(w.sys, actions) && o.Ok? && Starved(o.value) && o.value.snd.pullTarget <= INIT_PULL
    ensures CardStalls(w, es)
  {
    var arrivals, ack := Deliver(pkts, marks, |pkts|), AckArrives(k, now, S.NoCc, false);
    es := SinkEvents(arrivals) + [Source(ack)];
    DeliverIsPlain(pkts, marks, |pkts|);
    ArrivalsMirror(w, arrivals, ack);
    SmallRunIsPlain(pkts, marks, k, now, S.NoCc, false);
    MirroredStalls(w, es, arrivals + [ack]);
  }

  /** A small flow of which the card lets part go starves also with that card: its first packets arrive and are
      acknowledged before a port is free again. */
  lemma SmallFlowStalls(c: Config, card: N.Nic<nat>, pacer: P.State<nat>, now: nat, cc: S.Cc, w: World)
    returns (es: seq<Event>)
    requires FreePorts(card) > 0 && Awaiting(pacer) && Starts(c, card, pacer, now, cc, w)
    requires ProgramSizes(c) && Wide(c, cc) && TotalBytes(c) <= c.maxWnd && DataIsLeft(c, FreePorts(card))
    requires Inv(w.sys) && N.Inv(w.card) && N.AllBusy(w.card)
    ensures CardStalls(w, es)
  {
    var s, pkts := GrantedStart(c, pacer, now, cc, FreePorts(card));
    var marks := seq(|pkts|, i => true);
    AllUnderWay(c, s, pkts);
    SmallTargetIsSmall(c);
    NothingToResend(c, pacer, now, cc, FreePorts(card));
    var k := SmallRunStarves(c, s, pkts, marks, now, S.NoCc, false);
    es := StarvesWithCard(w, pkts, marks, k, now);
  }

  /** A source that was refused a port waits at a card whose ports are all busy. */
  lemma RefusedMeansBusy(c: Config, card: N.Nic<nat>, pacer: P.State<nat>, now: nat, cc: S.Cc, w: World)
    requires N.Inv(card) && C.Waiting(card) == 0 && Starts(c, card, pacer, now, cc, w) && C.Clean(AtCard(w))
    requires w.sys.snd.Credit() > 0 && w.sys.snd.unsent > 0
    ensures N.AllBusy(w.card)
  {
    C.EveryRunIsClean(c, card, now, cc, []);
    assert w.card.queue != [];
  }

  lemma NothingStallsOnCard(
    c: Config, card: N.Nic<nat>, pacer: P.State<nat>, now: nat, cc: S.Cc, w: World, es: seq<Event>)
    requires FreePorts(card) > 0 && StartsWell(c, pacer, cc, FreePorts(card))
    requires Starts(c, card, pacer, now, cc, w) && Inv(w.sys) && N.Inv(w.card)
    requires !(TotalBytes(c) <= c.maxWnd && DataIsLeft(c, FreePorts(card)))
    ensures !CardStalls(w, es)
  {
    RunProjects(w, es);
    var actions := RunActions(w, es);
    if CardStalls(w, es) {
      RunKeepsSuppliedFromStart(c, pacer, now, cc, FreePorts(card), actions);
      StallsUnsupplied(c, pacer, now, cc, FreePorts(card), actions);
    }
  }

  /** With a real card some timely run brings a flow to a standstill if and only if the flow with its headers fits the
      initial window and data is left when the card has let the first packets go, one for each free port. */
  lemma StallsWithCardIff(c: Config, card: N.Nic<nat>, pacer: P.State<nat>, now: nat, cc: S.Cc) returns (w: World)
    requires N.Inv(card) && C.Waiting(card) == 0 && FreePorts(card) > 0 && Awaiting(pacer)
    requires StartsWell(c, pacer, cc, FreePorts(card))
    ensures Starts(c, card, pacer, now, cc, w) && Inv(w.sys) && N.Inv(w.card)
    ensures (exists es :: CardStalls(w, es)) <==> TotalBytes(c) <= c.maxWnd && DataIsLeft(c, FreePorts(card))
  {
    w := StartAgrees(c, card, pacer, now, cc);
    if TotalBytes(c) <= c.maxWnd && DataIsLeft(c, FreePorts(card)) {
      var s, pkts := GrantedStart(c, pacer, now, cc, FreePorts(card));
      RefusedMeansBusy(c, card, pacer, now, cc, w);
      var es := SmallFlowStalls(c, card, pacer, now, cc, w);
    } else {
      forall es | CardStalls(w, es) ensures false {
        NothingStallsOnCard(c, card, pacer, now, cc, w, es);
      }
    }
  }
}
