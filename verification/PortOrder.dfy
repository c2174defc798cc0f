/**
Which port a packet takes, for how long, and who is served when a port becomes free: sources and control packets leave
their queues in the order in which they came.
 */
module PortOrder {
  import opened Outcomes
  import opened Cyclic
  import opened NicPorts

  // ---------------------------------------------------------------- round robin

  /** Going round from port `p`, `r` is the first free one. */
  ghost predicate NextRound(ports: seq<Port>, p: nat, r: nat) {
    && p < |ports| && r < |ports| && !ports[r].busy
    && forall q: nat :: q < |ports| && !ports[q].busy ==> Distance(p, r, |ports|) <= Distance(p, q, |ports|)
  }

  lemma {:induction false} NextFreeIsNext(ports: seq<Port>, p: nat, fuel: nat, target: nat)
    requires p < |ports| && target < |ports| && !ports[target].busy && fuel >= Distance(p, target, |ports|)
    ensures NextFree(ports, p, fuel).Ok?
    ensures Distance(p, NextFree(ports, p, fuel).value, |ports|) <= Distance(p, target, |ports|)
    decreases fuel
  {
    var q := After(p, |ports|);
    if ports[q].busy {
      NextFreeIsNext(ports, q, fuel - 1, target);
    }
  }

  /** The card hands out the first free port after the one it handed out last. */
  lemma FreePortIsNext<S>(n: Nic<S>)
    requires Ledger(n) && n.busyPorts < |n.ports|
    ensures FindFreePort(n).Ok? && FindFreePort(n).value == n.(rr := FindFreePort(n).value.rr)
    ensures NextRound(n.ports, n.rr, FindFreePort(n).value.rr)
  {
    FindFreePortOk(n);
    forall q: nat | q < |n.ports| && !n.ports[q].busy
      ensures Distance(n.rr, FindFreePort(n).value.rr, |n.ports|) <= Distance(n.rr, q, |n.ports|)
    {
      NextFreeIsNext(n.ports, n.rr, |n.ports|, q);
    }
  }

  // ---------------------------------------------------------------- what is sent

  /** A packet of `size` bytes keeps its port busy for as long as its bits take. */
  function Sending(now: nat, size: nat, speed: Positive): Port {
    Port(true, now + size * 8 * 1_000_000_000_000 / speed)
  }

  datatype Packet = Nothing | Packet(size: nat, control: bool)

  /** What goes out when the card calls its sources in turn: the packet of the first that can send, or the first control
      packet if none can. */
  function FirstToSend(queue: nat, control: seq<nat>, plan: seq<Decision>): Packet {
    if queue == 0 then if control == [] then Nothing else Packet(control[0], true)
    else if plan == [] || plan[0].CannotSend? then FirstToSend(queue - 1, control, if plan == [] then [] else plan[1..])
    else Packet(plan[0].size, false)
  }

  /** From `n` to `m` the packet has gone out on port `p`, and the control packets behind it have moved up. */
  ghost predicate Goes<S>(n: Nic<S>, m: Nic<S>, p: nat, now: nat, packet: Packet) {
    && p < |n.ports|
    && m.ports == (if packet.Nothing? then n.ports else n.ports[p := Sending(now, packet.size, n.linkspeed)])
    && m.control == (if packet.Packet? && packet.control && n.control != [] then n.control[1..] else n.control)
    && m.linkspeed == n.linkspeed
  }

  lemma ControlGoes<S>(n: Nic<S>, now: nat, p: nat)
    requires OneFree(n) && n.control != [] && p < |n.ports| && !n.ports[p].busy
    ensures SendControlNow(n, now).Ok? && Goes(n, SendControlNow(n, now).value, p, now, Packet(n.control[0], true))
    ensures SendControlNow(n, now).value.queue == n.queue
  {
    SendControlOk(n, now);
    OneFreePort(n.ports, SendControlNow(n, now).value.rr, p);
  }

  lemma StartsGoing<S>(n: Nic<S>, now: nat, size: nat, p: nat)
    requires OneFree(n) && n.queue != [] && p < |n.ports| && !n.ports[p].busy
    ensures StartSending(n, n.queue[0], now, size, false).Ok?
    ensures var m := StartSending(n, n.queue[0], now, size, false).value;
            Goes(n, m, p, now, Packet(size, false)) && AllBusy(m) && m.queue == n.queue[1..]
  {
    var popped := PopSource(n, n.queue[0]).value;
    SendOnFreePortOk(popped, EndTime(n, now, size), false);
    OneFreePort(n.ports, SendOnFreePort(popped, EndTime(n, now, size), false).value.rr, p);
  }

  lemma SourceGoes<S>(n: Nic<S>, now: nat, plan: seq<Decision>, p: nat)
    requires OneFree(n) && n.queue != [] && p < |n.ports| && !n.ports[p].busy && plan != [] && plan[0].SendPacket?
    ensures TimeToSend(n, n.queue[0], now, plan).Ok?
    ensures Goes(n, TimeToSend(n, n.queue[0], now, plan).value.nic, p, now, Packet(plan[0].size, false))
  {
    StartsGoing(n, now, plan[0].size, p);
  }

  /** Calling the sources sends what the first one that can has. */
  lemma {:induction false} CallsGo<S>(n: Nic<S>, now: nat, plan: seq<Decision>, p: nat)
    requires OneFree(n) && n.queue != [] && p < |n.ports| && !n.ports[p].busy
    ensures CallNext(n, now, plan).Ok?
    ensures Goes(n, CallNext(n, now, plan).value.nic, p, now, FirstToSend(|n.queue|, n.control, plan))
    decreases |n.queue|
  {
    CallNextOk(n, now, plan);
    FindFreePortOk(n);
    var m := FindFreePort(n).value;
    assert CallNext(n, now, plan) == TimeToSend(m, m.queue[0], now, plan);
    if plan == [] || plan[0].CannotSend? {
      var rest := if plan == [] then [] else plan[1..];
      var popped := PopSource(m, m.queue[0]).value;
      assert TimeToSend(m, m.queue[0], now, plan) == CantSend(m, m.queue[0], now, rest);
      if popped.queue != [] {
        assert CantSend(m, m.queue[0], now, rest) == CallNext(popped, now, rest);
        CallsGo(popped, now, rest, p);
      } else if popped.control != [] {
        ControlGoes(popped, now, p);
      }
    } else {
      SourceGoes(m, now, plan, p);
    }
  }

  /** Sources are called if they wait alone, or it is their turn. */
  predicate CallsSources<S(==)>(n: Nic<S>) {
    n.queue != [] && (n.control == [] || Turn(n.crt) < RATIO_DATA)
  }

  lemma ServiceGoes<S>(n: Nic<S>, now: nat, plan: seq<Decision>, p: nat)
    requires Ledger(n) && p < |n.ports| && !n.ports[p].busy && (n.queue != [] || n.control != [] ==> OneFree(n))
    ensures Serve(n, now, plan).Ok?
    ensures var m := Serve(n, now, plan).value.nic;
            && Goes(n, m, p, now, FirstToSend(if CallsSources(n) then |n.queue| else 0, n.control, plan))
            && (!CallsSources(n) ==> m.queue == n.queue)
  {
    var m := if n.queue != [] && n.control != [] then n.(crt := Turn(n.crt)) else n;
    if CallsSources(n) {
      CallsGo(m, now, plan, p);
    } else if n.control != [] {
      ControlGoes(m, now, p);
    }
  }

  /** A port becomes free, and whoever waits gets that port at once: the first source that can send if it is the turn of
      the sources or no control packet waits, else the first control packet. */
  lemma FreedPortIsUsed<S>(n: Nic<S>, now: nat, plan: seq<Decision>)
    requires Inv(n) && now in n.pending
    ensures PortDone(n, now, plan).Ok?
    ensures var p := FirstDone(n.ports, now, 0); var m := PortDone(n, now, plan).value.nic;
            && p < |n.ports| && n.ports[p] == Port(true, now)
            && Goes(n.(ports := n.ports[p := Port(false, now)]), m, p, now,
                    FirstToSend(if CallsSources(n) then |n.queue| else 0, n.control, plan))
            && (!CallsSources(n) ==> m.queue == n.queue)
  {
    PortFreed(n, now);
    var p := FirstDone(n.ports, now, 0);
    ServiceGoes(n.(busyPorts := n.busyPorts - 1, ports := n.ports[p := Port(false, now)],
      pending := n.pending - multiset{now}),
                now, plan, p);
  }

  /** A control packet waits behind the others, or goes out on the next free port. */
  lemma ControlWaitsOrGoes<S>(n: Nic<S>, size: nat, now: nat)
    requires Inv(n)
    ensures ControlArrives(n, size, now).Ok?
    ensures var m := ControlArrives(n, size, now).value;
            && m.queue == n.queue
            && if AllBusy(n) then m.ports == n.ports && m.control == n.control + [size]
               else NextRound(n.ports, n.rr, m.rr) && Goes(n, m, m.rr, now, Packet(size, false))
  {
    ControlArrivesOk(n, size, now);
    CountBound(n.ports);
    if !AllBusy(n) {
      FreePortIsNext(n);
      assert ([] + [size])[1..] == [];
      assert n.control + [size] == [size];
    }
  }

  /** A source that asks on its own waits behind the others, or gets the next free port and sends at once if it can. */
  lemma SourceWaitsOrGoes<S>(n: Nic<S>, src: S, now: nat, plan: seq<Decision>)
    requires Inv(n)
    ensures SourceAsks(n, src, now, plan).Ok?
    ensures var m := SourceAsks(n, src, now, plan).value.nic;
            && m.control == n.control
            && if AllBusy(n) then m.ports == n.ports && m.queue == n.queue + [src]
               else
                 && m.queue == n.queue && NextRound(n.ports, n.rr, m.rr)
                 && Goes(n, m, m.rr, now, FirstToSend(1, [], plan))
  {
    SourceAsksOk(n, src, now, plan);
    CountBound(n.ports);
    if !AllBusy(n) {
      FreePortIsNext(n);
    }
  }
}
