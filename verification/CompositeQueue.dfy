/** The trimming queue as an object over two growable rings, proved against TrimmingQueue.dfy. */
module CompositeQueues {
  import opened Outcomes
  import opened Packets
  import opened ServiceShares
  import opened CircularBuffers
  import T = TrimmingQueue

  class CompositeQueue {
    const config: T.Config
    const enqueuedLow: CircularBuffer<Packet>
    const enqueuedHigh: CircularBuffer<Packet>
    var queuesizeLow: int
    var queuesizeHigh: int
    var serv: Service
    var crt: nat
    var numDrops: nat
    var numStripped: nat
    var numBounced: nat

    ghost function Footprint(): set<object>
      reads this, enqueuedLow, enqueuedHigh
    {
      {this, enqueuedLow, enqueuedHigh, enqueuedLow.slots, enqueuedHigh.slots}
    }

    ghost predicate Valid()
      reads this, enqueuedLow, enqueuedHigh, enqueuedLow.slots, enqueuedHigh.slots
    {
      && enqueuedLow != enqueuedHigh && enqueuedLow.slots != enqueuedHigh.slots
      && enqueuedLow.Valid() && enqueuedHigh.Valid()
    }

    ghost function View(): T.Queue
      requires Valid()
      reads this, enqueuedLow, enqueuedHigh, enqueuedLow.slots, enqueuedHigh.slots
    {
      T.Queue(enqueuedLow.Contents(), enqueuedHigh.Contents(), queuesizeLow, queuesizeHigh, serv, crt,
              numDrops, numStripped, numBounced)
    }

    constructor (config: T.Config)
      ensures Valid() && fresh(Footprint()) && View() == T.InitQueue() && this.config == config
      ensures config.trimSize >= MIN_TRIM ==> T.Inv(config, View())
    {
      this.config := config;
      enqueuedLow := new CircularBuffer(8);
      enqueuedHigh := new CircularBuffer(8);
      queuesizeLow, queuesizeHigh, serv, crt, numDrops, numStripped, numBounced := 0, 0, Idle, 0, 0, 0, 0;
    }

    method BeginService()
      requires Valid() && T.BeginService(config, View()).Ok?
      modifies this`serv, this`crt
      ensures T.BeginService(config, old(View())) == Ok(View())
    {
      if !enqueuedHigh.IsEmpty() && !enqueuedLow.IsEmpty() {
        crt := crt + 1;
        if crt >= T.RATIO.high + T.RATIO.low {
          crt := 0;
        }
        if crt < T.RATIO.high {
          serv := High;
        } else {
          assert crt < T.RATIO.high + T.RATIO.low;
          serv := Low;
        }
        return;
      }
      if !enqueuedHigh.IsEmpty() {
        serv := High;
      } else {
        assert !enqueuedLow.IsEmpty();
        serv := Low;
      }
    }

    method CompleteService(coin: bool) returns (fates: seq<Fate>)
      requires Valid() && T.CompleteService(config, View(), coin).Ok?
      modifies Footprint()
      ensures Valid() && fresh(Footprint() - old(Footprint()))
      ensures T.CompleteService(config, old(View()), coin) == Ok(T.Step(View(), fates))
    {
      ghost var q := View();
      if serv == Low {
        var popped := enqueuedLow.Pop();
        var pkt := popped.value;
        queuesizeLow := queuesizeLow - pkt.size;
        fates := [Sent(pkt, queuesizeLow > config.ecnMax || (queuesizeLow > config.ecnMin && coin))];
      } else {
        assert serv == High;
        var popped := enqueuedHigh.Pop();
        var pkt := popped.value;
        queuesizeHigh := queuesizeHigh - pkt.size;
        fates := [Sent(pkt, false)];
      }
      serv := Idle;
      assert T.Depart(config, q, coin) == Ok(T.Step(View(), fates));
      if !enqueuedHigh.IsEmpty() || !enqueuedLow.IsEmpty() {
        BeginService();
      }
    }

    /** A header that an eviction made, or one that arrives, is queued, returned or freed. */
    method PlaceHeader(p: Packet) returns (fates: seq<Fate>)
      requires Valid()
      modifies this`queuesizeHigh, this`numBounced, enqueuedHigh, enqueuedHigh.slots
      ensures Valid() && (enqueuedHigh.slots == old(enqueuedHigh.slots) || fresh(enqueuedHigh.slots))
      ensures T.PlaceHeader(config, old(View()), p) == T.Step(View(), fates)
    {
      if queuesizeHigh + p.size > T.HEADER_ROOM * config.maxSize {
        if config.returnToSender && p.reversible && !p.bounced {
          numBounced := numBounced + 1;
          fates := [Bounced(p.(bounced := true, header := true))];
        } else {
          fates := [Freed(p)];
        }
      } else {
        enqueuedHigh.Push(p);
        queuesizeHigh := queuesizeHigh + p.size;
        fates := [];
      }
    }

    /** Trims, or without trimming frees, the newest packet of the low class. */
    method Evict() returns (fates: seq<Fate>)
      requires Valid() && T.Evict(config, View()).Ok?
      modifies Footprint()
      ensures Valid() && fresh(Footprint() - old(Footprint()))
      ensures T.Evict(config, old(View())) == Ok(T.Step(View(), fates))
    {
      var popped := enqueuedLow.PopFront();
      var booted := popped.value;
      queuesizeLow := queuesizeLow - booted.size;
      if config.disableTrim {
        fates := [Freed(booted)];
        numDrops := numDrops + 1;
      } else {
        numStripped := numStripped + 1;
        fates := PlaceHeader(booted.(header := true, size := config.trimSize));
      }
    }

    method AdmitFull(p: Packet, coin: bool) returns (fates: seq<Fate>)
      requires Valid() && T.AdmitFull(config, View(), p, coin).Ok?
      modifies Footprint()
      ensures Valid() && fresh(Footprint() - old(Footprint()))
      ensures T.AdmitFull(config, old(View()), p, coin) == Ok(T.Step(View(), fates))
    {
      if queuesizeLow + p.size <= config.maxSize || coin {
        fates := [];
        if queuesizeLow + p.size > config.maxSize {
          fates := Evict();
        }
        ghost var made := T.Step(View(), fates);
        enqueuedLow.Push(p);
        queuesizeLow := queuesizeLow + p.size;
        assert View() == T.PushLow(made.queue, p);
        if serv == Idle {
          BeginService();
        }
        assert T.AdmitLow(config, made, p) == Ok(T.Step(View(), fates));
        return;
      }
      if config.disableTrim {
        numDrops := numDrops + 1;
        return [Freed(p)];
      }
      numStripped := numStripped + 1;
      fates := AdmitHeader(p.(header := true, size := config.trimSize));
    }

    method AdmitHeader(p: Packet) returns (fates: seq<Fate>)
      requires Valid() && T.AdmitHeader(config, View(), p).Ok?
      modifies Footprint()
      ensures Valid() && fresh(Footprint() - old(Footprint()))
      ensures T.AdmitHeader(config, old(View()), p) == Ok(T.Step(View(), fates))
    {
      var full := queuesizeHigh + p.size > T.HEADER_ROOM * config.maxSize;
      fates := PlaceHeader(p);
      if !full {
        if serv == Idle {
          BeginService();
        }
      } else if !(config.returnToSender && p.reversible && !p.bounced) {
        numDrops := numDrops + 1;
      }
    }

    method ReceivePacket(p: Packet, failed: bool, coin: bool) returns (fates: seq<Fate>)
      requires Valid() && T.Receive(config, View(), p, failed, coin).Ok?
      modifies Footprint()
      ensures Valid() && fresh(Footprint() - old(Footprint()))
      ensures T.Receive(config, old(View()), p, failed, coin) == Ok(T.Step(View(), fates))
    {
      var pkt := p;
      if failed {
        if config.useTimeouts {
          return [Freed(p)];
        }
        if !p.header {
          pkt := p.(header := true, size := MIN_TRIM);
        }
      }
      if pkt.header {
        fates := AdmitHeader(pkt);
      } else {
        fates := AdmitFull(pkt, coin);
      }
    }
  }
}
