/**
Port arbitration in the EQDS interface card: sources and control packets wait for a port, and the
card and its sources call each other back. On values; `EqdsNIC` in EqdsNic.dfy does it in place.

What a source does when it is called back (send a packet of some size, and ask again or not, or be
unable to send) is not known to the card: it is read from the list `plan`.
 */
module NicPorts {
  import opened Outcomes
  import opened Cyclic

  const RATIO_DATA: nat := 1
  const RATIO_CONTROL: nat := 10
  const PS_PER_SECOND: nat := 1000000000000

  datatype Port = Port(busy: bool, endTime: nat)

  datatype Decision = CannotSend | SendPacket(size: nat, again: bool)

  /** `pending` are the end times for which the card has an event in the event list. */
  datatype Nic<S(==)> = Nic(
    ports: seq<Port>, busyPorts: int, rr: nat, linkspeed: Positive,
    queue: seq<S>, numQueued: int, control: seq<nat>, crt: nat, pending: multiset<nat>)

  /** A result together with the decisions that are still to be made. */
  datatype Result<S(==)> = Result(nic: Nic<S>, plan: seq<Decision>)

  function EndTime<S>(n: Nic<S>, now: nat, size: nat): nat {
    now + size * 8 * PS_PER_SECOND / n.linkspeed
  }

  predicate AllBusy<S(==)>(n: Nic<S>) {
    n.busyPorts == |n.ports|
  }

  /** The first free port after `p`, going round at most `fuel` steps. */
  function NextFree(ports: seq<Port>, p: nat, fuel: nat): (r: Outcome<nat>)
    requires p < |ports|
    ensures r.Ok? ==> r.value < |ports| && !ports[r.value].busy
    decreases fuel
  {
    if fuel == 0 then Aborted
    else
      var q := After(p, |ports|);
      if !ports[q].busy then Ok(q) else NextFree(ports, q, fuel - 1)
  }

  function FindFreePort<S>(n: Nic<S>): Outcome<Nic<S>> {
    if n.busyPorts >= |n.ports| || n.rr >= |n.ports| then Aborted
    else
      var p :- NextFree(n.ports, n.rr, |n.ports|);
      Ok(n.(rr := p))
  }

  /** Marks a port busy until `end`: the one just handed out, or else the next free one. */
  function SendOnFreePort<S>(n: Nic<S>, end: nat, handed: bool): Outcome<Nic<S>> {
    var m :- if handed then Ok(n) else FindFreePort(n);
    if m.rr >= |m.ports| || m.ports[m.rr].busy then Aborted
    else Ok(m.(ports := m.ports[m.rr := Port(true, end)], busyPorts := m.busyPorts + 1,
      pending := m.pending + multiset{end}))
  }

  function RequestSending<S>(n: Nic<S>, src: S): Outcome<(Nic<S>, bool)> {
    if AllBusy(n) then Ok((n.(queue := n.queue + [src], numQueued := n.numQueued + 1), false))
    else if n.control != [] then Aborted
    else
      var m :- FindFreePort(n);
      Ok((m, true))
  }

  /** The source at the front of the queue leaves it. */
  function PopSource<S>(n: Nic<S>, src: S): Outcome<Nic<S>> {
    if n.queue == [] || n.queue[0] != src then Aborted
    else Ok(n.(queue := n.queue[1..], numQueued := n.numQueued - 1))
  }

  function StartSending<S>(n: Nic<S>, src: S, now: nat, size: nat, handed: bool): Outcome<Nic<S>> {
    var m :- if n.numQueued > 0 then PopSource(n, src) else Ok(n);
    SendOnFreePort(m, EndTime(m, now, size), handed)
  }

  function SendControlNow<S>(n: Nic<S>, now: nat): Outcome<Nic<S>> {
    if n.control == [] || AllBusy(n) then Aborted
    else SendOnFreePort(n.(control := n.control[1..]), EndTime(n, now, n.control[0]), false)
  }

  /** A source that was called back, or granted a port, cannot send after all: the turn goes to the
      next source, and after the last one to a control packet. */
  function CantSend<S>(n: Nic<S>, src: S, now: nat, plan: seq<Decision>): Outcome<Result<S>>
    decreases |n.queue|, 0
  {
    if n.numQueued == 0 && n.control == [] then Ok(Result(n, plan))
    else if n.numQueued > 0 then
      var m :- PopSource(n, src);
      if m.busyPorts >= |m.ports| then Aborted
      else if m.numQueued > 0 then CallNext(m, now, plan)
      else if m.control != [] then
        var c :- SendControlNow(m, now);
        Ok(Result(c, plan))
      else Ok(Result(m, plan))
    else
      var c :- SendControlNow(n, now);
      Ok(Result(c, plan))
  }

  /** Calls the source at the front of the queue back with a free port. */
  function CallNext<S>(n: Nic<S>, now: nat, plan: seq<Decision>): Outcome<Result<S>>
    decreases |n.queue|, 2
  {
    if n.queue == [] then Aborted
    else
      var m :- FindFreePort(n);
      TimeToSend(m, m.queue[0], now, plan)
  }

  /** The source's side of being called back. Having sent, it may ask again, and must be turned away. */
  function TimeToSend<S>(n: Nic<S>, src: S, now: nat, plan: seq<Decision>): Outcome<Result<S>>
    decreases |n.queue|, 1
  {
    if plan == [] || plan[0].CannotSend? then CantSend(n, src, now, if plan == [] then [] else plan[1..])
    else
      var m :- StartSending(n, src, now, plan[0].size, false);
      if !plan[0].again then Ok(Result(m, plan[1..]))
      else
        var r :- RequestSending(m, src);
        if r.1 then Aborted else Ok(Result(r.0, plan[1..]))
  }

  // ---------------------------------------------------------------- what happens to the card

  /** A source asks on its own account, and acts at once if it is granted a port. */
  function SourceAsks<S>(n: Nic<S>, src: S, now: nat, plan: seq<Decision>): Outcome<Result<S>> {
    var r :- RequestSending(n, src);
    if !r.1 then Ok(Result(r.0, plan))
    else if plan == [] || plan[0].CannotSend? then CantSend(r.0, src, now, if plan == [] then [] else plan[1..])
    else
      var m :- StartSending(r.0, src, now, plan[0].size, true);
      Ok(Result(m, plan[1..]))
  }

  function ControlArrives<S>(n: Nic<S>, size: nat, now: nat): Outcome<Nic<S>> {
    var m := n.(control := n.control + [size]);
    if AllBusy(m) then Ok(m) else SendControlNow(m, now)
  }

  /** The first port that finishes at `now`. */
  function FirstDone(ports: seq<Port>, now: nat, from: nat): (p: nat)
    requires from <= |ports|
    ensures from <= p <= |ports|
    ensures p < |ports| ==> ports[p] == Port(true, now)
    ensures forall q :: from <= q < p ==> ports[q] != Port(true, now)
    decreases |ports| - from
  {
    if from == |ports| then from
    else if ports[from].busy && ports[from].endTime == now then from
    else FirstDone(ports, now, from + 1)
  }

  /** A packet has left: its port is free again, and the turn goes round between sources and control
      packets, one in eleven to the sources. */
  function PortDone<S>(n: Nic<S>, now: nat, plan: seq<Decision>): Outcome<Result<S>> {
    var p := FirstDone(n.ports, now, 0);
    if p == |n.ports| then Aborted
    else
      Serve(n.(busyPorts := n.busyPorts - 1, ports := n.ports[p := Port(false, now)],
        pending := n.pending - multiset{now}),
            now, plan)
  }

  function Turn(crt: nat): nat {
    if crt + 1 >= RATIO_CONTROL + RATIO_DATA then 0 else crt + 1
  }

  function Serve<S>(n: Nic<S>, now: nat, plan: seq<Decision>): Outcome<Result<S>> {
    if n.numQueued > 0 && n.control != [] then
      var m := n.(crt := Turn(n.crt));
      if m.crt < RATIO_DATA then CallNext(m, now, plan)
      else
        var c :- SendControlNow(m, now);
        Ok(Result(c, plan))
    else if n.numQueued > 0 then CallNext(n, now, plan)
    else if n.control != [] then
      var c :- SendControlNow(n, now);
      Ok(Result(c, plan))
    else Ok(Result(n, plan))
  }

  // ---------------------------------------------------------------- the invariant

  function CountBusy(ports: seq<Port>): nat {
    if ports == [] then 0 else CountBusy(ports[..|ports| - 1]) + if ports[|ports| - 1].busy then 1 else 0
  }

  function EndTimes(ports: seq<Port>): multiset<nat> {
    if ports == [] then multiset{}
    else
      EndTimes(ports[..|ports| - 1])
      + if ports[|ports| - 1].busy then multiset{ports[|ports| - 1].endTime} else multiset{}
  }

  /** The counters count, and the card has exactly one event for each busy port. */
  ghost predicate Ledger<S>(n: Nic<S>) {
    && n.rr < |n.ports|
    && n.busyPorts == CountBusy(n.ports)
    && n.numQueued == |n.queue|
    && n.pending == EndTimes(n.ports)
  }

  /** Nobody waits while a port is free. */
  ghost predicate Inv<S>(n: Nic<S>) {
    Ledger(n) && (n.queue != [] || n.control != [] ==> AllBusy(n))
  }

  /** A port has just become free, and it is the only one if anybody is waiting. */
  ghost predicate OneFree<S>(n: Nic<S>) {
    Ledger(n) && n.busyPorts == |n.ports| - 1
  }

  lemma {:induction false} CountUpdate(ports: seq<Port>, p: nat, v: Port)
    requires p < |ports|
    ensures CountBusy(ports[p := v]) == CountBusy(ports) - (if ports[p].busy then 1 else 0) + (if v.busy then 1 else 0)
  {
    var n := |ports| - 1;
    if p < n {
      assert ports[p := v][..n] == ports[..n][p := v];
      CountUpdate(ports[..n], p, v);
    } else {
      assert ports[p := v][..n] == ports[..n];
    }
  }

  lemma {:induction false} EndTimesStart(ports: seq<Port>, p: nat, end: nat)
    requires p < |ports| && !ports[p].busy
    ensures EndTimes(ports[p := Port(true, end)]) == EndTimes(ports) + multiset{end}
  {
    var n := |ports| - 1;
    if p < n {
      assert ports[p := Port(true, end)][..n] == ports[..n][p := Port(true, end)];
      EndTimesStart(ports[..n], p, end);
    } else {
      assert ports[p := Port(true, end)][..n] == ports[..n];
    }
  }

  lemma RemoveFromSum(a: multiset<nat>, b: multiset<nat>, x: nat)
    requires x in a
    ensures (a + b) - multiset{x} == (a - multiset{x}) + b
  {
  }

  lemma {:induction false} EndTimesStop(ports: seq<Port>, p: nat)
    requires p < |ports| && ports[p].busy
    ensures ports[p].endTime in EndTimes(ports)
    ensures EndTimes(ports[p := Port(false, ports[p].endTime)]) == EndTimes(ports) - multiset{ports[p].endTime}
  {
    var n := |ports| - 1;
    var free := Port(false, ports[p].endTime);
    if p < n {
      assert ports[p := free][..n] == ports[..n][p := free];
      EndTimesStop(ports[..n], p);
      var last := if ports[n].busy then multiset{ports[n].endTime} else multiset{};
      RemoveFromSum(EndTimes(ports[..n]), last, ports[p].endTime);
    } else {
      assert ports[p := free][..n] == ports[..n];
    }
  }

  lemma {:induction false} CountBound(ports: seq<Port>)
    ensures CountBusy(ports) <= |ports|
    ensures CountBusy(ports) == |ports| <==> forall p :: 0 <= p < |ports| ==> ports[p].busy
  {
    if ports != [] {
      CountBound(ports[..|ports| - 1]);
      assert forall p :: 0 <= p < |ports| - 1 ==> ports[p] == ports[..|ports| - 1][p];
    }
  }

  /** With one port short of all busy, exactly one is free. */
  lemma {:induction false} OneFreePort(ports: seq<Port>, p: nat, q: nat)
    requires CountBusy(ports) == |ports| - 1 && p < |ports| && q < |ports| && !ports[p].busy && !ports[q].busy
    ensures p == q
  {
    var full := ports[p := Port(true, 0)];
    CountUpdate(ports, p, Port(true, 0));
    CountBound(full);
    assert full[q].busy;
  }

  lemma {:induction false} PendingHasPort(ports: seq<Port>, t: nat)
    requires t in EndTimes(ports)
    ensures exists p :: 0 <= p < |ports| && ports[p] == Port(true, t)
  {
    var n := |ports| - 1;
    if ports[n] != Port(true, t) {
      PendingHasPort(ports[..n], t);
      var p :| 0 <= p < n && ports[..n][p] == Port(true, t);
      assert ports[p] == Port(true, t);
    }
  }

  /** How many steps round from `p` to `q`. */
  function Distance(p: nat, q: nat, n: nat): int {
    if q > p then q - p else q - p + n
  }

  /** Going round finds a free port if there is one. */
  lemma {:induction false} NextFreeFinds(ports: seq<Port>, p: nat, fuel: nat, target: nat)
    requires p < |ports| && target < |ports| && !ports[target].busy
    requires fuel >= Distance(p, target, |ports|)
    ensures NextFree(ports, p, fuel).Ok?
    decreases fuel
  {
    var q := After(p, |ports|);
    if ports[q].busy {
      NextFreeFinds(ports, q, fuel - 1, target);
    }
  }

  lemma FindFreePortOk<S>(n: Nic<S>)
    requires Ledger(n) && n.busyPorts < |n.ports|
    ensures FindFreePort(n).Ok?
    ensures var m := FindFreePort(n).value; Ledger(m) && !m.ports[m.rr].busy && m == n.(rr := m.rr)
  {
    CountBound(n.ports);
    var target :| 0 <= target < |n.ports| && !n.ports[target].busy;
    NextFreeFinds(n.ports, n.rr, |n.ports|, target);
  }

  lemma SendOnFreePortOk<S>(n: Nic<S>, end: nat, handed: bool)
    requires Ledger(n) && n.busyPorts < |n.ports| && (handed ==> !n.ports[n.rr].busy)
    ensures SendOnFreePort(n, end, handed).Ok?
    ensures var m := SendOnFreePort(n, end, handed).value;
            && Ledger(m) && m.busyPorts == n.busyPorts + 1 && |m.ports| == |n.ports|
            && m.queue == n.queue && m.numQueued == n.numQueued && m.control == n.control && m.crt == n.crt
            && !n.ports[m.rr].busy && m.ports[m.rr] == Port(true, end) && (handed ==> m.rr == n.rr)
  {
    if !handed {
      FindFreePortOk(n);
    }
    var f := if handed then n else FindFreePort(n).value;
    CountUpdate(f.ports, f.rr, Port(true, end));
    EndTimesStart(f.ports, f.rr, end);
  }

  lemma SendControlOk<S>(n: Nic<S>, now: nat)
    requires Ledger(n) && n.control != [] && n.busyPorts < |n.ports|
    ensures SendControlNow(n, now).Ok?
    ensures var m := SendControlNow(n, now).value;
            && Ledger(m) && m.busyPorts == n.busyPorts + 1 && |m.ports| == |n.ports|
            && m.queue == n.queue && m.control == n.control[1..]
  {
    SendOnFreePortOk(n.(control := n.control[1..]), EndTime(n, now, n.control[0]), false);
  }

  // ---------------------------------------------------------------- callbacks

  /** Calling sources back never trips an assertion, always comes to an end, and leaves nobody waiting
      while a port is free. */
  lemma {:induction false} CantSendOk<S>(n: Nic<S>, src: S, now: nat, plan: seq<Decision>)
    requires OneFree(n) && n.queue != [] && n.queue[0] == src
    ensures CantSend(n, src, now, plan).Ok? && Inv(CantSend(n, src, now, plan).value.nic)
    ensures |CantSend(n, src, now, plan).value.nic.ports| == |n.ports|
    decreases |n.queue|, 0
  {
    var m := PopSource(n, src).value;
    assert OneFree(m);
    if m.numQueued > 0 {
      CallNextOk(m, now, plan);
    } else if m.control != [] {
      SendControlOk(m, now);
    }
  }

  lemma {:induction false} CallNextOk<S>(n: Nic<S>, now: nat, plan: seq<Decision>)
    requires OneFree(n) && n.queue != []
    ensures CallNext(n, now, plan).Ok? && Inv(CallNext(n, now, plan).value.nic)
    ensures |CallNext(n, now, plan).value.nic.ports| == |n.ports|
    decreases |n.queue|, 2
  {
    FindFreePortOk(n);
    TimeToSendOk(FindFreePort(n).value, n.queue[0], now, plan);
  }

  lemma {:induction false} TimeToSendOk<S>(n: Nic<S>, src: S, now: nat, plan: seq<Decision>)
    requires OneFree(n) && n.queue != [] && n.queue[0] == src
    ensures TimeToSend(n, src, now, plan).Ok? && Inv(TimeToSend(n, src, now, plan).value.nic)
    ensures |TimeToSend(n, src, now, plan).value.nic.ports| == |n.ports|
    decreases |n.queue|, 1
  {
    if plan == [] || plan[0].CannotSend? {
      CantSendOk(n, src, now, if plan == [] then [] else plan[1..]);
    } else {
      SendOnFreePortOk(PopSource(n, src).value, EndTime(n, now, plan[0].size), false);
    }
  }

  /** The port that a called-back source was handed is the one its packet then occupies. */
  lemma HandedPortIsUsed<S>(n: Nic<S>, now: nat, size: nat)
    requires OneFree(n) && n.queue != []
    ensures FindFreePort(n).Ok?
    ensures var handed := FindFreePort(n).value;
            var r := StartSending(handed, n.queue[0], now, size, false);
            r.Ok? && r.value.rr == handed.rr && r.value.ports[handed.rr] == Port(true, EndTime(n, now, size))
  {
    FindFreePortOk(n);
    var handed := FindFreePort(n).value;
    var popped := PopSource(handed, n.queue[0]).value;
    SendOnFreePortOk(popped, EndTime(n, now, size), false);
    var m := SendOnFreePort(popped, EndTime(n, now, size), false).value;
    OneFreePort(n.ports, handed.rr, m.rr);
  }

  // ---------------------------------------------------------------- events and runs

  lemma SourceAsksOk<S>(n: Nic<S>, src: S, now: nat, plan: seq<Decision>)
    requires Inv(n)
    ensures SourceAsks(n, src, now, plan).Ok? && Inv(SourceAsks(n, src, now, plan).value.nic)
  {
    CountBound(n.ports);
    if !AllBusy(n) {
      FindFreePortOk(n);
      var m := FindFreePort(n).value;
      if plan != [] && plan[0].SendPacket? {
        SendOnFreePortOk(m, EndTime(m, now, plan[0].size), true);
      }
    }
  }

  lemma ControlArrivesOk<S>(n: Nic<S>, size: nat, now: nat)
    requires Inv(n)
    ensures ControlArrives(n, size, now).Ok? && Inv(ControlArrives(n, size, now).value)
  {
    CountBound(n.ports);
    if !AllBusy(n) {
      SendControlOk(n.(control := n.control + [size]), now);
    }
  }

  lemma ServeOk<S>(n: Nic<S>, now: nat, plan: seq<Decision>)
    requires Ledger(n) && n.busyPorts < |n.ports|
    requires n.queue != [] || n.control != [] ==> n.busyPorts == |n.ports| - 1
    ensures Serve(n, now, plan).Ok? && Inv(Serve(n, now, plan).value.nic)
  {
    if n.numQueued > 0 && n.control != [] {
      var m := n.(crt := Turn(n.crt));
      if m.crt < RATIO_DATA {
        CallNextOk(m, now, plan);
      } else {
        SendControlOk(m, now);
      }
    } else if n.numQueued > 0 {
      CallNextOk(n, now, plan);
    } else if n.control != [] {
      SendControlOk(n, now);
    }
  }

  /** The port whose event has come is busy until now; freeing it leaves it the only free one if anybody
      is waiting. */
  lemma PortFreed<S>(n: Nic<S>, now: nat)
    requires Inv(n) && now in n.pending
    ensures var p := FirstDone(n.ports, now, 0);
            && p < |n.ports|
            && var m := n.(busyPorts := n.busyPorts - 1, ports := n.ports[p := Port(false, now)],
              pending := n.pending - multiset{now});
               Ledger(m) && m.busyPorts < |m.ports| && (m.queue != [] || m.control != [] ==> OneFree(m))
  {
    PendingHasPort(n.ports, now);
    var p := FirstDone(n.ports, now, 0);
    CountBound(n.ports);
    CountUpdate(n.ports, p, Port(false, now));
    EndTimesStop(n.ports, p);
  }

  /** Each pending event finds the port it was scheduled for. */
  lemma PortDoneOk<S>(n: Nic<S>, now: nat, plan: seq<Decision>)
    requires Inv(n) && now in n.pending
    ensures PortDone(n, now, plan).Ok? && Inv(PortDone(n, now, plan).value.nic)
  {
    PortFreed(n, now);
    var p := FirstDone(n.ports, now, 0);
    ServeOk(n.(busyPorts := n.busyPorts - 1, ports := n.ports[p := Port(false, now)],
      pending := n.pending - multiset{now}),
            now, plan);
  }

  datatype Event<S> =
    | Asks(src: S, now: nat, plan: seq<Decision>)
    | Control(size: nat, now: nat)
    | Done(now: nat, plan: seq<Decision>)

  function Step<S>(n: Nic<S>, e: Event<S>): Outcome<Nic<S>> {
    match e
    case Asks(src, now, plan) => var r :- SourceAsks(n, src, now, plan); Ok(r.nic)
    case Control(size, now) => ControlArrives(n, size, now)
    case Done(now, plan) => var r :- PortDone(n, now, plan); Ok(r.nic)
  }

  /** A port is done only when its event is pending; other `Done` events are passed over. */
  function Run<S>(n: Nic<S>, es: seq<Event<S>>): Outcome<Nic<S>>
    decreases |es|
  {
    if es == [] then Ok(n)
    else if es[0].Done? && es[0].now !in n.pending then Run(n, es[1..])
    else
      var m :- Step(n, es[0]);
      Run(m, es[1..])
  }

  function InitNic<S>(ports: Positive, rr: nat, linkspeed: Positive): Nic<S> {
    Nic(seq(ports, i => Port(false, 0)), 0, rr, linkspeed, [], 0, [], 0, multiset{})
  }

  lemma {:induction false} IdlePorts(n: nat)
    ensures CountBusy(seq(n, i => Port(false, 0))) == 0 && EndTimes(seq(n, i => Port(false, 0))) == multiset{}
  {
    if n > 0 {
      assert seq(n, i => Port(false, 0))[..n - 1] == seq(n - 1, i => Port(false, 0));
      IdlePorts(n - 1);
    }
  }

  /** Work conservation, and no failed assertion, in every run from a fresh card. */
  lemma {:induction false} RunIsSafe<S>(n: Nic<S>, es: seq<Event<S>>)
    requires Inv(n)
    ensures Run(n, es).Ok? && Inv(Run(n, es).value)
    decreases |es|
  {
    if es == [] {
    } else if es[0].Done? && es[0].now !in n.pending {
      RunIsSafe(n, es[1..]);
    } else {
      match es[0] {
        case Asks(src, now, plan) => SourceAsksOk(n, src, now, plan);
        case Control(size, now) => ControlArrivesOk(n, size, now);
        case Done(now, plan) => PortDoneOk(n, now, plan);
      }
      RunIsSafe(Step(n, es[0]).value, es[1..]);
    }
  }

  lemma EveryRunIsSafe<S>(ports: Positive, rr: nat, linkspeed: Positive, es: seq<Event<S>>)
    requires rr < ports
    ensures Run(InitNic<S>(ports, rr, linkspeed), es).Ok?
    ensures Inv(Run(InitNic<S>(ports, rr, linkspeed), es).value)
  {
    IdlePorts(ports);
    RunIsSafe(InitNic<S>(ports, rr, linkspeed), es);
  }

  // ---------------------------------------------------------------- sharing the ports

  /** Calling sources back does not touch the count of turns. */
  lemma {:induction false} CantSendKeepsCrt<S>(n: Nic<S>, src: S, now: nat, plan: seq<Decision>)
    requires CantSend(n, src, now, plan).Ok?
    ensures CantSend(n, src, now, plan).value.nic.crt == n.crt
    decreases |n.queue|, 0
  {
    if n.numQueued > 0 {
      var m := PopSource(n, src).value;
      if m.numQueued > 0 {
        CallNextKeepsCrt(m, now, plan);
      }
    }
  }

  lemma {:induction false} CallNextKeepsCrt<S>(n: Nic<S>, now: nat, plan: seq<Decision>)
    requires CallNext(n, now, plan).Ok?
    ensures CallNext(n, now, plan).value.nic.crt == n.crt
    decreases |n.queue|, 2
  {
    var m := FindFreePort(n).value;
    TimeToSendKeepsCrt(m, m.queue[0], now, plan);
  }

  lemma {:induction false} TimeToSendKeepsCrt<S>(n: Nic<S>, src: S, now: nat, plan: seq<Decision>)
    requires TimeToSend(n, src, now, plan).Ok?
    ensures TimeToSend(n, src, now, plan).value.nic.crt == n.crt
    decreases |n.queue|, 1
  {
    if plan == [] || plan[0].CannotSend? {
      CantSendKeepsCrt(n, src, now, if plan == [] then [] else plan[1..]);
    }
  }

  /** A port becomes free while a source and a control packet both wait for one. */
  predicate Contested<S(==)>(n: Nic<S>, e: Event<S>) {
    e.Done? && e.now in n.pending && n.numQueued > 0 && n.control != []
  }

  /** Who is served then: the source at the front of the queue, or the first control packet. */
  predicate SourceIsServed<S(==)>(n: Nic<S>) {
    Turn(n.crt) < RATIO_DATA
  }

  /** Only contested ports move the turn on. When it is not the sources' turn, the first control packet
      goes out and no source leaves the queue; when it is, the first source leaves it. */
  lemma TurnIsTaken<S>(n: Nic<S>, e: Event<S>)
    requires Step(n, e).Ok? && (e.Done? ==> e.now in n.pending)
    ensures Step(n, e).value.crt == if Contested(n, e) then Turn(n.crt) else n.crt
    ensures Contested(n, e) && !SourceIsServed(n) ==>
              Step(n, e).value.control == n.control[1..] && Step(n, e).value.queue == n.queue
  {
    match e
    case Asks(src, now, plan) =>
      var m := RequestSending(n, src).value;
      if m.1 && (plan == [] || plan[0].CannotSend?) {
        CantSendKeepsCrt(m.0, src, now, if plan == [] then [] else plan[1..]);
      }
    case Control(size, now) =>
    case Done(now, plan) =>
      var p := FirstDone(n.ports, now, 0);
      var m := n.(busyPorts := n.busyPorts - 1, ports := n.ports[p := Port(false, now)],
        pending := n.pending - multiset{now});
      if Contested(n, e) && SourceIsServed(n) {
        CallNextKeepsCrt(m.(crt := Turn(m.crt)), now, plan);
      } else if !Contested(n, e) && m.numQueued > 0 {
        CallNextKeepsCrt(m, now, plan);
      }
  }

  /** The turns of a run: for every contested port, whether a source was served. */
  function RunTurns<S>(n: Nic<S>, es: seq<Event<S>>): seq<bool>
    requires Run(n, es).Ok?
    decreases |es|
  {
    if es == [] then []
    else if es[0].Done? && es[0].now !in n.pending then RunTurns(n, es[1..])
    else (if Contested(n, es[0]) then [SourceIsServed(n)] else []) + RunTurns(Step(n, es[0]).value, es[1..])
  }

  function CountTrue(turns: seq<bool>): nat {
    if turns == [] then 0 else (if turns[0] then 1 else 0) + CountTrue(turns[1..])
  }

  lemma {:induction false} CountTrueConcat(a: seq<bool>, b: seq<bool>)
    ensures CountTrue(a + b) == CountTrue(a) + CountTrue(b)
    decreases |a|
  {
    if a == [] {
      assert a + b == b;
    } else {
      assert (a + b)[1..] == a[1..] + b;
      CountTrueConcat(a[1..], b);
    }
  }

  lemma TurnsSplit(crt: nat, j: nat)
    requires crt < RATIO_CONTROL + RATIO_DATA && j > 0
    ensures (crt + j) / (RATIO_CONTROL + RATIO_DATA)
            == (if Turn(crt) < RATIO_DATA then 1 else 0) + (Turn(crt) + j - 1) / (RATIO_CONTROL + RATIO_DATA)
  {
  }

  /** The first `j` contested ports of a run, one in eleven to the sources wherever the count starts. */
  lemma {:induction false} PrefixShared<S>(n: Nic<S>, es: seq<Event<S>>, j: nat)
    requires Run(n, es).Ok? && n.crt < RATIO_CONTROL + RATIO_DATA && j <= |RunTurns(n, es)|
    ensures CountTrue(RunTurns(n, es)[..j]) == (n.crt + j) / (RATIO_CONTROL + RATIO_DATA)
    decreases |es|
  {
    var turns := RunTurns(n, es);
    if es == [] || j == 0 {
      assert turns[..j] == [];
    } else if es[0].Done? && es[0].now !in n.pending {
      PrefixShared(n, es[1..], j);
    } else {
      TurnIsTaken(n, es[0]);
      var m := Step(n, es[0]).value;
      if Contested(n, es[0]) {
        assert turns[..j] == [SourceIsServed(n)] + RunTurns(m, es[1..])[..j - 1];
        PrefixShared(m, es[1..], j - 1);
        TurnsSplit(n.crt, j);
      } else {
        PrefixShared(m, es[1..], j);
        assert turns == RunTurns(m, es[1..]);
      }
    }
  }

  /** Over every run of the card, of any stretch of contested ports one in eleven goes to a source, give or
      take the start of the stretch: neither sources nor control packets starve. */
  lemma TurnsAreShared<S>(n: Nic<S>, es: seq<Event<S>>, i: nat, j: nat)
    requires Run(n, es).Ok? && n.crt < RATIO_CONTROL + RATIO_DATA && i <= j <= |RunTurns(n, es)|
    ensures var sources := CountTrue(RunTurns(n, es)[i..j]);
            (j - i) / (RATIO_CONTROL + RATIO_DATA) <= sources <= (j - i) / (RATIO_CONTROL + RATIO_DATA) + 1
  {
    var turns := RunTurns(n, es);
    PrefixShared(n, es, i);
    PrefixShared(n, es, j);
    assert turns[..j] == turns[..i] + turns[i..j];
    CountTrueConcat(turns[..i], turns[i..j]);
  }
}
