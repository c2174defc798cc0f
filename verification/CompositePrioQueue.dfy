/** The path-length queue as an object, proved against PathQueue.dfy. */
module CompositePrioQueues {
  import opened Outcomes
  import opened Packets
  import opened ServiceShares
  import P = PathQueue

  class CompositePrioQueue {
    const config: P.Config
    const enqueuedPathLens: array<nat>
    var enqueuedLow: seq<Packet>
    var enqueuedHigh: seq<Packet>
    var queuesizeLow: int
    var queuesizeHigh: int
    var maxPathLenQueued: nat
    var maxPathLenSeen: nat
    var serv: Service
    var crt: nat

    ghost predicate Valid()
      reads this
    {
      enqueuedPathLens.Length == P.MAX_PATH_LEN + 1
    }

    ghost function View(): P.Queue
      requires Valid()
      reads this, enqueuedPathLens
    {
      P.Queue(enqueuedLow, enqueuedHigh, queuesizeLow, queuesizeHigh, enqueuedPathLens[..], maxPathLenQueued,
              maxPathLenSeen, serv, crt)
    }

    constructor (config: P.Config)
      ensures Valid() && fresh(enqueuedPathLens) && View() == P.InitQueue() && this.config == config
    {
      this.config := config;
      enqueuedPathLens := new nat[P.MAX_PATH_LEN + 1](_ => 0);
      enqueuedLow, enqueuedHigh, queuesizeLow, queuesizeHigh := [], [], 0, 0;
      maxPathLenQueued, maxPathLenSeen, serv, crt := 0, 0, Idle, 0;
      new;
      assert enqueuedPathLens[..] == P.InitQueue().lens;
    }

    /** The consistency check, which never fails where the specification says so. */
    method CheckQueued()
      requires Valid() && P.CheckQueued(View()).Ok?
    {
      var maxpath, totalQueued := 0, 0;
      for i := 0 to P.MAX_PATH_LEN
        invariant maxpath == P.Top(enqueuedPathLens[..], i) && totalQueued == P.Queued(enqueuedPathLens[..], i)
      {
        if enqueuedPathLens[i] > 0 {
          maxpath := i;
          totalQueued := totalQueued + enqueuedPathLens[i];
        }
      }
      assert maxpath == maxPathLenQueued;
      assert totalQueued <= P.MAX_QUEUED;
    }

    method FindMaxPathLenQueued()
      requires Valid() && maxPathLenSeen <= P.MAX_PATH_LEN
      requires P.CheckQueued(View().(maxLen := P.FindMax(View()))).Ok?
      modifies this`maxPathLenQueued
      ensures View() == old(View()).(maxLen := P.FindMax(old(View())))
    {
      maxPathLenQueued := 0;
      if enqueuedLow == [] {
        return;
      }
      var i := maxPathLenSeen;
      while i >= 0
        invariant -1 <= i <= maxPathLenSeen && maxPathLenQueued == 0
        invariant P.Top(enqueuedPathLens[..], maxPathLenSeen + 1) == P.Top(enqueuedPathLens[..], i + 1)
      {
        if enqueuedPathLens[i] > 0 {
          maxPathLenQueued := i;
          return;
        }
        i := i - 1;
      }
      CheckQueued();
    }

    method EnqueuePacket(p: Packet)
      requires Valid() && P.Enqueue(View(), p).Ok?
      modifies this`enqueuedLow, this`queuesizeLow, this`maxPathLenQueued, this`maxPathLenSeen, enqueuedPathLens
      ensures P.Enqueue(old(View()), p) == Ok(View())
    {
      enqueuedLow := [p] + enqueuedLow;
      queuesizeLow := queuesizeLow + p.size;
      if maxPathLenQueued < p.pathLen {
        maxPathLenQueued := p.pathLen;
        if maxPathLenSeen < maxPathLenQueued {
          maxPathLenSeen := maxPathLenQueued;
        }
      }
      enqueuedPathLens[p.pathLen] := enqueuedPathLens[p.pathLen] + 1;
      assert View() == P.Put(old(View()), p);
      CheckQueued();
    }

    /** Takes packet `i` out of the low class, with the housekeeping. */
    method RemoveLow(i: nat)
      requires Valid() && i < |enqueuedLow| && P.Remove(View(), i).Ok?
      modifies this`enqueuedLow, this`queuesizeLow, this`maxPathLenQueued, enqueuedPathLens
      ensures P.Remove(old(View()), i) == Ok(View())
    {
      var pkt := enqueuedLow[i];
      enqueuedLow := enqueuedLow[..i] + enqueuedLow[i + 1..];
      queuesizeLow := queuesizeLow - pkt.size;
      var pathLen := pkt.pathLen;
      assert enqueuedPathLens[pathLen] > 0;
      enqueuedPathLens[pathLen] := enqueuedPathLens[pathLen] - 1;
      if pathLen == maxPathLenQueued && enqueuedPathLens[pathLen] == 0 {
        FindMaxPathLenQueued();
      }
      CheckQueued();
    }

    method TrimLowPriorityPacket(prio: nat) returns (fates: seq<Fate>)
      requires Valid() && P.Trim(config, View(), prio).Ok?
      modifies this`enqueuedLow, this`enqueuedHigh, this`queuesizeLow, this`queuesizeHigh, this`maxPathLenQueued,
               enqueuedPathLens
      ensures P.Trim(config, old(View()), prio) == Ok(P.Step(View(), fates))
    {
      assert prio < maxPathLenQueued;
      var i := 0;
      while i < |enqueuedLow| && enqueuedLow[i].pathLen <= prio
        invariant i <= |enqueuedLow| && P.Victim(enqueuedLow, prio, 0) == P.Victim(enqueuedLow, prio, i)
      {
        i := i + 1;
      }
      assert i < |enqueuedLow|;
      fates := Boot(i);
      CheckQueued();
    }

    /** The victim's payload is cut off; its header goes to the front of the high class if there is room. */
    method Boot(i: nat) returns (fates: seq<Fate>)
      requires Valid() && i < |enqueuedLow| && P.Remove(View(), i).Ok? && Strip(enqueuedLow[i], config.trimSize).Ok?
      modifies this`enqueuedLow, this`enqueuedHigh, this`queuesizeLow, this`queuesizeHigh, this`maxPathLenQueued,
               enqueuedPathLens
      ensures var r := P.Remove(old(View()), i).value; var header := Strip(old(enqueuedLow)[i], config.trimSize).value;
        if r.highBytes + header.size > config.maxSize then View() == r && fates == [Freed(header)]
        else View() == P.PushHigh(r, header) && fates == []
      ensures Valid()
    {
      var booted := enqueuedLow[i];
      RemoveLow(i);
      booted := booted.(header := true, size := config.trimSize);
      if queuesizeHigh + booted.size > config.maxSize {
        fates := [Freed(booted)];
      } else {
        enqueuedHigh := [booted] + enqueuedHigh;
        queuesizeHigh := queuesizeHigh + booted.size;
        fates := [];
      }
    }

    method BeginService()
      requires Valid() && P.BeginService(config, View()).Ok?
      modifies this`serv, this`crt
      ensures P.BeginService(config, old(View())) == Ok(View())
    {
      if enqueuedHigh != [] && enqueuedLow != [] {
        crt := crt + 1;
        if crt >= P.RATIO.high + P.RATIO.low {
          crt := 0;
        }
        serv := if crt < P.RATIO.high then High else Low;
      } else if enqueuedHigh != [] {
        serv := High;
      } else {
        assert enqueuedLow != [];
        serv := Low;
      }
    }

    method CompleteService() returns (fates: seq<Fate>)
      requires Valid() && P.CompleteService(config, View()).Ok?
      modifies this, enqueuedPathLens
      ensures P.CompleteService(config, old(View())) == Ok(P.Step(View(), fates))
    {
      if serv == Low {
        var pkt := enqueuedLow[|enqueuedLow| - 1];
        RemoveLow(|enqueuedLow| - 1);
        fates := [Sent(pkt, false)];
      } else {
        assert serv == High;
        var pkt := enqueuedHigh[|enqueuedHigh| - 1];
        enqueuedHigh := enqueuedHigh[..|enqueuedHigh| - 1];
        queuesizeHigh := queuesizeHigh - pkt.size;
        CheckQueued();
        fates := [Sent(pkt, false)];
      }
      serv := Idle;
      if enqueuedHigh != [] || enqueuedLow != [] {
        BeginService();
      }
    }

    method ReceivePacket(p: Packet, coin: bool) returns (fates: seq<Fate>)
      requires Valid() && P.Receive(config, View(), p, coin).Ok?
      modifies this, enqueuedPathLens
      ensures P.Receive(config, old(View()), p, coin) == Ok(P.Step(View(), fates))
    {
      var pkt := p;
      if !p.header {
        if queuesizeLow + p.size <= config.maxSize
           || (p.pathLen == enqueuedLow[0].pathLen && coin)
           || p.pathLen < maxPathLenQueued {
          fates := AdmitLow(p);
          return;
        }
        pkt := p.(header := true, size := config.trimSize);
      }
      fates := AdmitHeader(pkt);
    }

    /** An arriving full packet is queued, in place of another one if need be. */
    method AdmitLow(p: Packet) returns (fates: seq<Fate>)
      requires Valid() && P.AdmitLow(config, View(), p).Ok?
      modifies this, enqueuedPathLens
      ensures P.AdmitLow(config, old(View()), p) == Ok(P.Step(View(), fates))
    {
      fates := [];
      if queuesizeLow + p.size > config.maxSize {
        if p.pathLen < maxPathLenQueued {
          fates := TrimLowPriorityPacket(p.pathLen);
        } else {
          fates := TrimLowPriorityPacket(P.Below(p.pathLen));
        }
      }
      assert queuesizeLow + p.size <= config.maxSize;
      EnqueuePacket(p);
      if serv == Idle {
        BeginService();
      }
    }

    method AdmitHeader(p: Packet) returns (fates: seq<Fate>)
      requires Valid() && P.AdmitHeader(config, View(), p).Ok?
      modifies this`enqueuedHigh, this`queuesizeHigh, this`serv, this`crt
      ensures P.AdmitHeader(config, old(View()), p) == Ok(P.Step(View(), fates))
    {
      if queuesizeHigh + p.size > config.maxSize {
        return [Freed(p)];
      }
      enqueuedHigh := [p] + enqueuedHigh;
      queuesizeHigh := queuesizeHigh + p.size;
      if serv == Idle {
        BeginService();
      }
      fates := [];
    }
  }
}
