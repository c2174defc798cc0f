/** The interface card as an object, proved against NicPorts.dfy. */
module EqdsNics {
  import opened Outcomes
  import opened Cyclic
  import N = NicPorts

  class EqdsNIC<Src(==)> {
    const linkspeed: Positive
    const ports: array<N.Port>
    var busyPorts: int
    var rrPort: nat
    var activeSrcs: seq<Src>
    var numQueuedSrcs: int
    var control: seq<nat>
    var crt: nat
    ghost var pending: multiset<nat>

    constructor (noOfPorts: Positive, rr: nat, linkspeed: Positive)
      requires rr < noOfPorts
      ensures View() == N.InitNic(noOfPorts, rr, linkspeed) && N.Inv(View()) && fresh(ports)
    {
      this.linkspeed := linkspeed;
      ports := new N.Port[noOfPorts](i => N.Port(false, 0));
      busyPorts, rrPort, activeSrcs, numQueuedSrcs, control, crt, pending := 0, rr, [], 0, [], 0, multiset{};
      new;
      N.IdlePorts(noOfPorts);
      assert ports[..] == seq(noOfPorts, i => N.Port(false, 0));
    }

    ghost function View(): N.Nic<Src>
      reads this, ports
    {
      N.Nic(ports[..], busyPorts, rrPort, linkspeed, activeSrcs, numQueuedSrcs, control, crt, pending)
    }

    method FindFreePort() returns (port: nat)
      requires N.FindFreePort(View()).Ok?
      modifies this`rrPort
      ensures N.FindFreePort(old(View())) == Ok(View()) && port == rrPort
    {
      assert busyPorts < ports.Length;
      ghost var fuel := ports.Length - 1;
      rrPort := (rrPort + 1) % ports.Length;
      while ports[rrPort].busy
        invariant rrPort < ports.Length && 0 <= fuel < ports.Length
        invariant N.NextFree(ports[..], old(rrPort), ports.Length)
                  == if ports[rrPort].busy then N.NextFree(ports[..], rrPort, fuel) else Ok(rrPort)
        decreases fuel
      {
        assert fuel > 0;
        rrPort := (rrPort + 1) % ports.Length;
        fuel := fuel - 1;
      }
      port := rrPort;
    }

    method SendOnFreePortNow(endTime: nat, handed: bool) returns (port: nat)
      requires N.SendOnFreePort(View(), endTime, handed).Ok?
      modifies this`rrPort, this`busyPorts, this`pending, ports
      ensures N.SendOnFreePort(old(View()), endTime, handed) == Ok(View()) && port == rrPort
    {
      if handed {
        assert !ports[rrPort].busy;
      } else {
        var _ := FindFreePort();
      }
      ports[rrPort] := N.Port(true, endTime);
      busyPorts := busyPorts + 1;
      pending := pending + multiset{endTime};
      port := rrPort;
    }

    method RequestSending(src: Src) returns (granted: bool)
      requires N.RequestSending(View(), src).Ok?
      modifies this`numQueuedSrcs, this`activeSrcs, this`rrPort
      ensures N.RequestSending(old(View()), src) == Ok((View(), granted))
    {
      if busyPorts == ports.Length {
        numQueuedSrcs := numQueuedSrcs + 1;
        activeSrcs := activeSrcs + [src];
        return false;
      }
      assert control == [];
      var _ := FindFreePort();
      granted := true;
    }

    method PopSource(src: Src)
      requires N.PopSource(View(), src).Ok?
      modifies this`numQueuedSrcs, this`activeSrcs
      ensures N.PopSource(old(View()), src) == Ok(View())
    {
      assert activeSrcs[0] == src;
      activeSrcs := activeSrcs[1..];
      numQueuedSrcs := numQueuedSrcs - 1;
    }

    method StartSending(src: Src, now: nat, size: nat, handed: bool)
      requires N.StartSending(View(), src, now, size, handed).Ok?
      modifies this, ports
      ensures N.StartSending(old(View()), src, now, size, handed) == Ok(View())
    {
      if numQueuedSrcs > 0 {
        PopSource(src);
      }
      var _ := SendOnFreePortNow(now + size * 8 * N.PS_PER_SECOND / linkspeed, handed);
    }

    method SendControlPktNow(now: nat)
      requires N.SendControlNow(View(), now).Ok?
      modifies this, ports
      ensures N.SendControlNow(old(View()), now) == Ok(View())
    {
      assert control != [] && busyPorts != ports.Length;
      var size := control[0];
      control := control[1..];
      var _ := SendOnFreePortNow(now + size * 8 * N.PS_PER_SECOND / linkspeed, false);
    }

    method CantSend(src: Src, now: nat, plan: seq<N.Decision>) returns (rest: seq<N.Decision>)
      requires N.CantSend(View(), src, now, plan).Ok?
      modifies this, ports
      ensures N.CantSend(old(View()), src, now, plan) == Ok(N.Result(View(), rest))
      decreases |activeSrcs|, 0
    {
      rest := plan;
      if numQueuedSrcs == 0 && control == [] {
        return;
      }
      if numQueuedSrcs > 0 {
        PopSource(src);
        assert busyPorts < ports.Length;
        if numQueuedSrcs > 0 {
          rest := CallNext(now, plan);
          return;
        }
      }
      if control != [] {
        SendControlPktNow(now);
      }
    }

    method CallNext(now: nat, plan: seq<N.Decision>) returns (rest: seq<N.Decision>)
      requires N.CallNext(View(), now, plan).Ok?
      modifies this, ports
      ensures N.CallNext(old(View()), now, plan) == Ok(N.Result(View(), rest))
      decreases |activeSrcs|, 2
    {
      var queued := activeSrcs[0];
      var _ := FindFreePort();
      rest := TimeToSend(queued, now, plan);
    }

    /** The source's callback, as far as the card can see it. */
    method TimeToSend(src: Src, now: nat, plan: seq<N.Decision>) returns (rest: seq<N.Decision>)
      requires N.TimeToSend(View(), src, now, plan).Ok?
      modifies this, ports
      ensures N.TimeToSend(old(View()), src, now, plan) == Ok(N.Result(View(), rest))
      decreases |activeSrcs|, 1
    {
      if plan == [] || plan[0].CannotSend? {
        rest := CantSend(src, now, if plan == [] then [] else plan[1..]);
        return;
      }
      StartSending(src, now, plan[0].size, false);
      if plan[0].again {
        var granted := RequestSending(src);
        assert !granted;
      }
      rest := plan[1..];
    }

    method SourceAsks(src: Src, now: nat, plan: seq<N.Decision>) returns (rest: seq<N.Decision>)
      requires N.Inv(View())
      modifies this, ports
      ensures N.SourceAsks(old(View()), src, now, plan) == Ok(N.Result(View(), rest)) && N.Inv(View())
    {
      N.SourceAsksOk(View(), src, now, plan);
      var granted := RequestSending(src);
      rest := plan;
      if granted {
        if plan == [] || plan[0].CannotSend? {
          rest := CantSend(src, now, if plan == [] then [] else plan[1..]);
        } else {
          StartSending(src, now, plan[0].size, true);
          rest := plan[1..];
        }
      }
    }

    method SendControlPacket(size: nat, now: nat)
      requires N.Inv(View())
      modifies this, ports
      ensures N.ControlArrives(old(View()), size, now) == Ok(View()) && N.Inv(View())
    {
      N.ControlArrivesOk(View(), size, now);
      control := control + [size];
      if busyPorts != ports.Length {
        SendControlPktNow(now);
      }
    }

    method FirstDone(now: nat) returns (port: nat)
      ensures port == N.FirstDone(ports[..], now, 0)
    {
      port := 0;
      while port < ports.Length && !(ports[port].busy && ports[port].endTime == now)
        invariant port <= ports.Length
        invariant N.FirstDone(ports[..], now, 0) == N.FirstDone(ports[..], now, port)
      {
        port := port + 1;
      }
    }

    /** A packet has left one of the ports. */
    method DoNextEvent(now: nat, plan: seq<N.Decision>) returns (rest: seq<N.Decision>)
      requires N.Inv(View()) && now in pending
      modifies this, ports
      ensures N.PortDone(old(View()), now, plan) == Ok(N.Result(View(), rest)) && N.Inv(View())
    {
      N.PortDoneOk(View(), now, plan);
      pending := pending - multiset{now};
      var last := FirstDone(now);
      assert last != ports.Length;
      busyPorts := busyPorts - 1;
      ports[last] := N.Port(false, now);
      rest := Serve(now, plan);
    }

    method Serve(now: nat, plan: seq<N.Decision>) returns (rest: seq<N.Decision>)
      requires N.Serve(View(), now, plan).Ok?
      modifies this, ports
      ensures N.Serve(old(View()), now, plan) == Ok(N.Result(View(), rest))
    {
      rest := plan;
      if numQueuedSrcs > 0 && control != [] {
        crt := crt + 1;
        if crt >= N.RATIO_CONTROL + N.RATIO_DATA {
          crt := 0;
        }
        if crt < N.RATIO_DATA {
          rest := CallNext(now, plan);
        } else {
          SendControlPktNow(now);
        }
        return;
      }
      if numQueuedSrcs > 0 {
        rest := CallNext(now, plan);
      } else if control != [] {
        SendControlPktNow(now);
      }
    }
  }
}
