/**
The receiving end of EQDS as objects: sinks, which own the credit counters and the 4096-slot
receive bitmap, and the pull pacer they share. Every method is proved against the functions of
PullPacer.dfy and ReceiveWindow.dfy.
 */
module EqdsSinks {
  import opened Outcomes
  import opened Quanta
  import opened Bits
  import P = PullPacer
  import W = ReceiveWindow

  datatype DataPkt = DataPkt(arrival: W.Arrival, pullTarget: nat)

  datatype RtsPkt = RtsPkt(arrival: W.Arrival, pullTarget: nat, retxBacklog: nat)

  /** What a trimmed packet is answered with. */
  datatype TrimReply = AckBack(ack: W.Ack) | NackBack(epsn: nat)

  class EqdsSink {
    const pacer: EqdsPullPacer
    const mtu: nat
    const maxWnd: nat

    var retxBacklog: nat
    var latestPull: nat
    var highestPullTarget: nat
    var inPull: bool
    var inSlowPull: bool

    var expected: nat
    var highEpsn: nat
    var accepted: nat
    var received: int
    var outOfOrder: nat
    var ackRequest: bool
    const slots: array<nat>
    ghost var stored: set<nat>

    constructor (pacer: EqdsPullPacer, mtu: nat, maxWnd: nat)
      ensures this.pacer == pacer && this.mtu == mtu && this.maxWnd == maxWnd
      ensures Credit() == P.FreshCredit(QuantizeFloor(maxWnd))
      ensures WindowValid() && Window() == W.InitWindow && fresh(slots)
    {
      this.pacer, this.mtu, this.maxWnd := pacer, mtu, maxWnd;
      retxBacklog, latestPull, highestPullTarget := 0, INIT_PULL, INIT_PULL;
      inPull, inSlowPull := false, false;
      expected, highEpsn, accepted, received, outOfOrder, ackRequest := 0, 0, 0, 0, 0, false;
      slots := new nat[W.SLOTS](i => 0);
      stored := {};
    }

    ghost function Credit(): P.Credit
      reads this
    {
      P.Credit(retxBacklog, latestPull, highestPullTarget, inPull, inSlowPull, QuantizeFloor(maxWnd))
    }

    ghost function Window(): W.Window
      reads this
    {
      W.Window(expected, stored, outOfOrder, highEpsn, accepted, received, ackRequest)
    }

    /** The slot array spells out the set of stored numbers, modulo 4096. */
    ghost predicate WindowValid()
      reads this, slots
    {
      && slots.Length == W.SLOTS
      && W.Valid(Window())
      && forall i :: 0 <= i < W.SLOTS ==> (slots[i] != 0 <==> W.Canon(i, expected) in stored)
    }

    // -------------------------------------------------------------- credit

    method HandlePullTarget(pt: nat)
      requires this in pacer.sinks && P.HandlePullTarget(pacer.View(), this, pt).Ok?
      modifies pacer, this`highestPullTarget, this`inPull
      ensures P.HandlePullTarget(old(pacer.View()), this, pt) == Ok(pacer.View())
      ensures pacer.sinks == old(pacer.sinks)
      ensures Window() == old(Window())
    {
      ghost var sinks := pacer.sinks;
      if pt > highestPullTarget {
        highestPullTarget := pt;
        if retxBacklog == 0 && !inPull {
          inPull := true;
          assert Credits(sinks) == old(Credits(sinks))[this := Credit()];
          pacer.RequestPull(this);
        }
        assert Credits(sinks) == old(Credits(sinks))[this := Credit()];
      }
    }

    method Pull() returns (pullno: nat)
      modifies this`retxBacklog, this`latestPull
      ensures Credit() == old(Credit()).Pull() && pullno == latestPull
    {
      if retxBacklog > 0 {
        if retxBacklog > P.CREDIT_PER_PULL {
          retxBacklog := retxBacklog - P.CREDIT_PER_PULL;
        } else {
          retxBacklog := 0;
        }
      }
      latestPull := latestPull + P.CREDIT_PER_PULL;
      pullno := latestPull;
    }

    method AddToPullQueue()
      modifies this`inPull
      ensures inPull
    {
      inPull := true;
    }

    method RemoveFromPullQueue()
      modifies this`inPull
      ensures !inPull
    {
      inPull := false;
    }

    method AddToSlowPullQueue()
      modifies this`inPull, this`inSlowPull
      ensures !inPull && inSlowPull
    {
      inPull, inSlowPull := false, true;
    }

    method RemoveFromSlowPullQueue()
      modifies this`inPull, this`inSlowPull
      ensures !inPull && !inSlowPull
    {
      inPull, inSlowPull := false, false;
    }

    function Backlog(): (b: nat)
      reads this
      ensures b == Credit().Backlog()
    {
      if highestPullTarget > latestPull then highestPullTarget - latestPull else 0
    }

    function SlowCredit(): (c: nat)
      reads this
      ensures c == Credit().SlowCredit()
    {
      if highestPullTarget >= latestPull then 0 else latestPull - highestPullTarget
    }

    // -------------------------------------------------------------- the receive window

    predicate Slot(x: nat)
      requires WindowValid()
      reads this, slots
      ensures Slot(x) == W.Holds(Window(), x)
    {
      W.SlotCanon(x, expected);
      slots[x % W.SLOTS] != 0
    }

    /** Takes in a packet that is not a duplicate: the next expected one moves the window past
        everything already stored behind it, any other is remembered in its slot. */
    method AcceptPacket(epsn: nat)
      requires WindowValid() && !W.Duplicate(Window(), epsn)
      modifies this`expected, this`outOfOrder, this`stored, slots
      ensures WindowValid() && Window() == W.Accept(old(Window()), epsn)
    {
      if epsn == expected {
        CatchUp();
      } else {
        StoreAbove(epsn);
      }
    }

    method StoreAbove(epsn: nat)
      requires WindowValid() && !W.Duplicate(Window(), epsn) && epsn != expected
      modifies this`outOfOrder, this`stored, slots
      ensures WindowValid() && Window() == W.Accept(old(Window()), epsn)
    {
      ghost var y := W.Canon(epsn, expected);
      W.SlotCanon(epsn, expected);
      slots[epsn % W.SLOTS] := 1;
      outOfOrder := outOfOrder + 1;
      stored := stored + {y};
      forall i | 0 <= i < W.SLOTS && W.Canon(i, expected) == y ensures i == epsn % W.SLOTS {
        W.SameSlot(i, epsn, expected);
      }
    }

    /** The slots, read from a window that stood at `e`. */
    ghost predicate Spells(e: nat)
      reads this, slots
    {
      && slots.Length == W.SLOTS && e < expected <= e + W.SLOTS
      && forall i :: 0 <= i < W.SLOTS ==> (slots[i] != 0 <==> W.Canon(i, e) in stored)
    }

    method CatchUp()
      requires WindowValid() && expected !in stored
      modifies this`expected, this`outOfOrder, this`stored, slots
      ensures WindowValid() && Window() == W.Accept(old(Window()), old(expected))
    {
      ghost var e, all := expected, stored;
      expected := expected + 1;
      while slots[expected % W.SLOTS] != 0
        invariant Spells(e) && outOfOrder == |stored|
        invariant stored == set x | x in all && x >= expected
        invariant forall q :: e < q < expected ==> q in all
        decreases e + W.SLOTS - expected
      {
        ClearExpected(e);
      }
      W.CaughtUp(slots[..], all, stored, e, expected);
    }

    /** The next expected packet is already there: its slot is freed, and the window moves past it. */
    method ClearExpected(ghost e: nat)
      requires Spells(e) && slots[expected % W.SLOTS] != 0 && outOfOrder == |stored|
      requires forall q :: q in stored ==> expected <= q < e + W.SLOTS
      modifies this`expected, this`outOfOrder, this`stored, slots
      ensures old(expected) in old(stored) && expected == old(expected) + 1 && stored == old(stored) - {old(expected)}
      ensures Spells(e) && outOfOrder == |stored|
    {
      W.SlotCanon(expected, e);
      W.ClearSlot(slots[..], stored, expected, e);
      slots[expected % W.SLOTS] := 0;
      outOfOrder := outOfOrder - 1;
      stored := stored - {expected};
      expected := expected + 1;
    }

    /** Spells the 64 slots from `ref` into a word, shifting each new one in at the top, and counts
        in each set slot but the first that it was reported once more. */
    method BuildSackBitmap(ref: nat) returns (bitmap: nat)
      requires WindowValid()
      modifies slots
      ensures WindowValid()
      ensures bitmap == Word(W.SackBits(Window(), ref))
    {
      var width: nat := W.SACK_WIDTH;
      ghost var bits := W.SackBits(Window(), ref);
      ghost var done := [Slot(ref)];
      bitmap := if Slot(ref) then Pow2(width - 1) else 0;
      ShiftInFirst(Slot(ref), width);
      for i := 1 to width
        invariant WindowValid()
        invariant done == bits[..i]
        invariant bitmap == Word(done) * Pow2(width - i)
      {
        var b := Slot(ref + i);
        ShiftIn(done, b, width);
        bitmap := bitmap / 2 + if b then Pow2(width - 1) else 0;
        done := done + [b];
        CountReport(ref + i);
      }
      assert done == bits;
    }

    /** Remembers that a stored packet was reported once more; the count stays in one byte. */
    method CountReport(x: nat)
      requires WindowValid()
      modifies slots
      ensures WindowValid()
      ensures var i := x % W.SLOTS;
        slots[..] == old(slots[..])[i := if 0 < old(slots[i]) < 255 then old(slots[i]) + 1 else old(slots[i])]
    {
      if 0 < slots[x % W.SLOTS] < 255 {
        slots[x % W.SLOTS] := slots[x % W.SLOTS] + 1;
      }
    }

    method Sack(ref: nat, ce: bool) returns (ack: W.Ack)
      requires WindowValid()
      modifies slots
      ensures WindowValid() && ack == W.MakeAck(Window(), ref, ce)
    {
      var bitmap := BuildSackBitmap(ref);
      ack := W.Ack(expected, ref, bitmap, ce);
    }

    method SackAndReset(ref: nat, ce: bool) returns (ack: W.Ack)
      requires WindowValid()
      modifies slots, this`accepted
      ensures WindowValid() && Window() == old(Window()).(accepted := 0)
      ensures ack == W.MakeAck(old(Window()), ref, ce)
    {
      ack := Sack(ref, ce);
      accepted := 0;
    }

    function SackBitmapBase(epsn: nat): (base: nat)
      reads this
      ensures base == W.SackBase(Window(), epsn)
    {
      if epsn - 63 > expected + 1 then epsn - 63 else expected + 1
    }

    /** The receive window's share of a data packet. */
    method TakeData(p: W.Arrival) returns (ack: W.MaybeAck)
      requires WindowValid()
      modifies this`expected, this`highEpsn, this`accepted, this`received, this`outOfOrder, this`ackRequest,
        this`stored, slots
      ensures WindowValid() && (Window(), ack) == W.ReceiveData(old(Window()), p)
    {
      accepted := (accepted + p.size) % 0x1_0000;
      if p.epsn > highEpsn {
        highEpsn := p.epsn;
      }
      if p.epsn < expected || Slot(p.epsn) {
        var a := SackAndReset(if p.ecn then p.epsn else SackBitmapBase(p.epsn), p.ecn);
        return W.Send(a);
      }
      ack := TakeNewData(p);
    }

    /** Accepts a packet. Once the window has no gaps left, a standing acknowledgement request is met. */
    method AcceptAndDrain(epsn: nat) returns (drained: bool)
      requires WindowValid() && !W.Duplicate(Window(), epsn)
      modifies this`expected, this`outOfOrder, this`stored, this`ackRequest, slots
      ensures var w := W.Accept(old(Window()), epsn);
              && drained == (epsn == old(expected) && w.outOfOrder == 0 && old(ackRequest))
              && WindowValid() && Window() == w.(ackRequest := old(ackRequest) && !drained)
    {
      var wasExpected := epsn == expected;
      AcceptPacket(epsn);
      drained := wasExpected && outOfOrder == 0 && ackRequest;
      if drained {
        ackRequest := false;
      }
    }

    method CountPayload(size: nat)
      requires WindowValid()
      modifies this`received
      ensures WindowValid() && Window() == old(Window()).(received := old(received) + size - W.ACK_SIZE)
    {
      received := received + size - W.ACK_SIZE;
    }

    /** Counts the payload; the first packet and one that asks for it are acknowledged at once. */
    method NoteArrival(p: W.Arrival) returns (forceAck: bool)
      requires WindowValid()
      modifies this`received, this`ackRequest
      ensures WindowValid() && forceAck == (old(received) == 0 || p.ar)
      ensures var w := old(Window());
              Window() == w.(received := w.received + p.size - W.ACK_SIZE, ackRequest := w.ackRequest || p.ar)
    {
      forceAck := received == 0;
      CountPayload(p.size);
      if p.ar {
        forceAck, ackRequest := true, true;
      }
    }

    method TakeNewData(p: W.Arrival) returns (ack: W.MaybeAck)
      requires WindowValid() && !W.Duplicate(Window(), p.epsn)
      modifies this`expected, this`accepted, this`received, this`outOfOrder, this`ackRequest, this`stored, slots
      ensures WindowValid() && (Window(), ack) == W.ReceiveNew(old(Window()), p)
    {
      var forceAck := NoteArrival(p);
      var drained := AcceptAndDrain(p.epsn);
      forceAck := forceAck || drained;
      ack := W.NoAck;
      if p.ecn || accepted >= W.UNACKED_THRESHOLD || forceAck {
        var a := SackAndReset(if p.ecn || p.ar then p.epsn else SackBitmapBase(p.epsn), p.ecn);
        ack := W.Send(a);
      }
    }

    /** The receive window's share of a request-to-send. */
    method TakeRts(p: W.Arrival) returns (ack: W.Ack)
      requires WindowValid()
      modifies this`expected, this`accepted, this`received, this`outOfOrder, this`ackRequest, this`stored, slots
      ensures WindowValid() && (Window(), ack) == W.ReceiveRts(old(Window()), p)
    {
      if p.epsn < expected || Slot(p.epsn) {
        ack := SackAndReset(p.epsn, p.ecn);
        return;
      }
      ack := TakeNewRts(p);
    }

    method TakeNewRts(p: W.Arrival) returns (ack: W.Ack)
      requires WindowValid() && !W.Duplicate(Window(), p.epsn)
      modifies this`expected, this`accepted, this`received, this`outOfOrder, this`ackRequest, this`stored, slots
      ensures WindowValid() && (Window(), ack) == W.ReceiveNewRts(old(Window()), p)
    {
      AcceptRts(p);
      ack := ResetAndSack(if p.ecn || p.ar then p.epsn else SackBitmapBase(p.epsn), p.ecn);
    }

    method AcceptRts(p: W.Arrival)
      requires WindowValid() && !W.Duplicate(Window(), p.epsn)
      modifies this`expected, this`received, this`outOfOrder, this`ackRequest, this`stored, slots
      ensures WindowValid()
      ensures var w := old(Window());
              var w1 := W.Accept(w.(received := w.received + p.size - W.ACK_SIZE), p.epsn);
              Window() == w1.(ackRequest := w1.ackRequest && !(p.epsn == w.expected && w1.outOfOrder == 0))
    {
      CountPayload(p.size);
      var _ := AcceptAndDrain(p.epsn);
    }

    method ResetAndSack(ref: nat, ce: bool) returns (ack: W.Ack)
      requires WindowValid()
      modifies slots, this`accepted
      ensures WindowValid() && Window() == old(Window()).(accepted := 0) && ack == W.MakeAck(Window(), ref, ce)
    {
      accepted := 0;
      ack := Sack(ref, ce);
    }

    // -------------------------------------------------------------- packets

    ghost predicate Valid()
      reads this, slots, pacer, pacer.sinks
    {
      WindowValid() && this in pacer.sinks && mtu > 0 && P.Inv(pacer.View())
    }

    method ProcessData(p: DataPkt) returns (ack: W.MaybeAck)
      requires Valid()
      modifies this, slots, pacer
      ensures Valid() && pacer.sinks == old(pacer.sinks)
      ensures P.HandlePullTarget(old(pacer.View()), this, p.pullTarget) == Ok(pacer.View())
      ensures (Window(), ack) == W.ReceiveData(old(Window()), p.arrival)
    {
      P.TargetKeepsInv(pacer.View(), this, p.pullTarget);
      HandlePullTarget(p.pullTarget);
      label Granted:
      ack := TakeData(p.arrival);
      CreditsUntouched@Granted(pacer.sinks);
    }

    /** A packet that lost its payload on the way. If it is new, its sender is served first. */
    method ProcessTrimmed(p: DataPkt) returns (reply: TrimReply)
      requires Valid()
      modifies this, slots, pacer
      ensures Valid() && pacer.sinks == old(pacer.sinks) && Window() == old(Window())
      ensures var q := p.arrival.epsn;
        if W.Duplicate(Window(), q) then
          reply == AckBack(W.MakeAck(Window(), q, false)) && pacer.View() == old(pacer.View())
        else
          reply == NackBack(q) &&
          P.TrimmedDemand(old(pacer.View()), this, p.pullTarget, QuantizeCeil(mtu)) == Ok(pacer.View())
    {
      var q := p.arrival.epsn;
      if q < expected || Slot(q) {
        var a := Sack(q, false);
        CreditsUntouched(pacer.sinks);
        return AckBack(a);
      }
      RaiseTrimmedDemand(p.pullTarget);
      reply := NackBack(q);
    }

    method RaiseTrimmedDemand(pt: nat)
      requires this in pacer.sinks && mtu > 0 && P.Inv(pacer.View())
      modifies pacer, this`highestPullTarget, this`inPull, this`retxBacklog
      ensures pacer.sinks == old(pacer.sinks) && P.Inv(pacer.View())
      ensures P.TrimmedDemand(old(pacer.View()), this, pt, QuantizeCeil(mtu)) == Ok(pacer.View())
    {
      CeilPositive(mtu);
      P.TrimmedKeepsInv(pacer.View(), this, pt, QuantizeCeil(mtu));
      AddTrimmedDemand(pt);
    }

    method AddTrimmedDemand(pt: nat)
      requires this in pacer.sinks && QuantizeCeil(mtu) >= 0
      requires P.TrimmedDemand(pacer.View(), this, pt, QuantizeCeil(mtu)).Ok?
      modifies pacer, this`highestPullTarget, this`inPull, this`retxBacklog
      ensures P.TrimmedDemand(old(pacer.View()), this, pt, QuantizeCeil(mtu)) == Ok(pacer.View())
      ensures pacer.sinks == old(pacer.sinks)
    {
      HandlePullTarget(pt);
      var wasRetransmitting := retxBacklog > 0;
      AddRetransmission(QuantizeCeil(mtu));
      if !wasRetransmitting {
        pacer.RequestRetransmit(this);
      }
    }

    method ProcessRts(p: RtsPkt) returns (ack: W.Ack)
      requires Valid() && p.retxBacklog > 0
      modifies this, slots, pacer
      ensures Valid() && pacer.sinks == old(pacer.sinks)
      ensures P.RtsDemand(old(pacer.View()), this, p.pullTarget, p.retxBacklog) == Ok(pacer.View())
      ensures (Window(), ack) == W.ReceiveRts(old(Window()), p.arrival)
    {
      AnnounceRts(p.pullTarget, p.retxBacklog);
      ack := TakeRtsUnpaced(p.arrival);
    }

    /** Taking in the packet does not concern the pacer. */
    method TakeRtsUnpaced(p: W.Arrival) returns (ack: W.Ack)
      requires WindowValid() && this in pacer.sinks
      modifies this`expected, this`accepted, this`received, this`outOfOrder, this`ackRequest, this`stored, slots
      ensures WindowValid() && (Window(), ack) == W.ReceiveRts(old(Window()), p)
      ensures pacer.View() == old(pacer.View())
    {
      ack := TakeRts(p);
      CreditsUntouched(pacer.sinks);
    }

    /** The pacer's share of a request-to-send. */
    method AnnounceRts(pt: nat, amount: nat)
      requires this in pacer.sinks && P.Inv(pacer.View()) && amount > 0 && WindowValid()
      modifies pacer, this`highestPullTarget, this`inPull, this`retxBacklog
      ensures WindowValid() && Window() == old(Window())
      ensures P.RtsDemand(old(pacer.View()), this, pt, amount) == Ok(pacer.View())
      ensures pacer.sinks == old(pacer.sinks) && P.Inv(pacer.View())
    {
      P.RtsKeepsInv(pacer.View(), this, pt, amount);
      HandlePullTarget(pt);
      AddRtsDemand(amount);
    }

    method AddRtsDemand(amount: nat)
      requires this in pacer.sinks && P.AddRtsDemand(pacer.View(), this, amount).Ok?
      modifies pacer, this`inPull, this`retxBacklog
      ensures P.AddRtsDemand(old(pacer.View()), this, amount) == Ok(pacer.View())
      ensures pacer.sinks == old(pacer.sinks)
    {
      var wasRetransmitting := retxBacklog > 0;
      AddRetransmission(amount);
      if !wasRetransmitting {
        StartRetransmitting();
      }
    }

    method StartRetransmitting()
      requires this in pacer.sinks && P.EnsurePulled(pacer.View(), this).Ok?
      requires P.RequestRetransmit(P.EnsurePulled(pacer.View(), this).value, this).Ok?
      modifies pacer, this`inPull
      ensures P.RequestRetransmit(P.EnsurePulled(old(pacer.View()), this).value, this) == Ok(pacer.View())
      ensures pacer.sinks == old(pacer.sinks)
    {
      EnsurePulled();
      pacer.RequestRetransmit(this);
    }

    method AddRetransmission(amount: nat)
      requires this in pacer.sinks
      modifies this`retxBacklog
      ensures pacer.View() == P.WithCredit(old(pacer.View()), this, old(Credit()).(retx := old(retxBacklog) + amount))
    {
      retxBacklog := retxBacklog + amount;
      assert Credits(pacer.sinks) == old(Credits(pacer.sinks))[this := Credit()];
    }

    method EnsurePulled()
      requires this in pacer.sinks && P.EnsurePulled(pacer.View(), this).Ok?
      modifies pacer, this`inPull
      ensures P.EnsurePulled(old(pacer.View()), this) == Ok(pacer.View())
      ensures pacer.sinks == old(pacer.sinks)
    {
      if !inPull {
        inPull := true;
        assert Credits(pacer.sinks) == old(Credits(pacer.sinks))[this := Credit()];
        pacer.RequestPull(this);
      }
    }
  }

  ghost function Credits(sinks: set<EqdsSink>): map<EqdsSink, P.Credit>
    reads sinks
  {
    map s | s in sinks :: s.Credit()
  }

  /** What only touches receive windows leaves the pacer's view alone. */
  twostate lemma CreditsUntouched(sinks: set<EqdsSink>)
    requires forall s :: s in sinks ==> s.Credit() == old(s.Credit())
    ensures Credits(sinks) == old(Credits(sinks))
  {
  }

  class EqdsPullPacer {
    var rtxSenders: seq<EqdsSink>
    var activeSenders: seq<EqdsSink>
    var idleSenders: seq<EqdsSink>
    var on: bool
    var pending: nat
    ghost var sinks: set<EqdsSink>

    constructor ()
      ensures View() == P.InitState() && sinks == {}
    {
      rtxSenders, activeSenders, idleSenders, on, pending, sinks := [], [], [], false, 0, {};
    }

    ghost function View(): P.State<EqdsSink>
      reads this, sinks
    {
      P.State(Credits(sinks), rtxSenders, activeSenders, idleSenders, on, pending)
    }

    /** A newly constructed sink starts to share this pacer. */
    ghost method Join(sink: EqdsSink)
      requires P.Inv(View()) && sink !in sinks && sink.Credit() == P.FreshCredit(QuantizeFloor(sink.maxWnd))
      modifies this`sinks
      ensures sinks == old(sinks) + {sink} && P.Inv(View())
      ensures View() == P.WithCredit(old(View()), sink, P.FreshCredit(QuantizeFloor(sink.maxWnd)))
    {
      P.JoinKeepsInv(View(), sink, QuantizeFloor(sink.maxWnd));
      sinks := sinks + {sink};
      assert Credits(sinks) == old(Credits(sinks))[sink := sink.Credit()];
    }

    method IsActive(sink: EqdsSink) returns (found: bool)
      ensures found <==> sink in activeSenders
    {
      for i := 0 to |activeSenders|
        invariant sink !in activeSenders[..i]
      {
        if activeSenders[i] == sink { return true; }
      }
      return false;
    }

    method IsRetransmitting(sink: EqdsSink) returns (found: bool)
      ensures found <==> sink in rtxSenders
    {
      for i := 0 to |rtxSenders|
        invariant sink !in rtxSenders[..i]
      {
        if rtxSenders[i] == sink { return true; }
      }
      return false;
    }

    /** The precondition is what the program checks: it aborts on a sink that is already listed. */
    method RequestPull(sink: EqdsSink)
      requires sink in sinks && P.RequestPull(View(), sink).Ok?
      modifies this`activeSenders, this`on, this`pending
      ensures P.RequestPull(old(View()), sink) == Ok(View())
    {
      var listed := IsActive(sink);
      assert !listed && sink.inPull;
      activeSenders := activeSenders + [sink];
      if !on {
        pending, on := pending + 1, true;
      }
    }

    method RequestRetransmit(sink: EqdsSink)
      requires sink in sinks && P.RequestRetransmit(View(), sink).Ok?
      modifies this`rtxSenders, this`on, this`pending
      ensures P.RequestRetransmit(old(View()), sink) == Ok(View())
    {
      var listed := IsRetransmitting(sink);
      assert !listed;
      rtxSenders := rtxSenders + [sink];
      if !on {
        pending, on := pending + 1, true;
      }
    }

    /** The event list hands over the pacer's event. */
    method Dispatch(skip: bool) returns (pkts: seq<P.PullPkt<EqdsSink>>)
      requires P.Inv(View()) && pending > 0
      modifies this, sinks
      ensures P.Tick(old(View()), skip) == Ok((View(), pkts))
      ensures sinks == old(sinks) && P.Inv(View())
    {
      P.TickKeepsInv(View(), skip);
      pending := pending - 1;
      pkts := DoNextEvent(skip);
    }

    /** The timer fires: one pull, from the first list that is not empty. */
    method DoNextEvent(skip: bool) returns (pkts: seq<P.PullPkt<EqdsSink>>)
      requires P.Known(View()) && P.HandleEvent(View(), skip).Ok?
      modifies this, sinks
      ensures P.HandleEvent(old(View()), skip) == Ok((View(), pkts))
      ensures sinks == old(sinks)
    {
      pkts := [];
      if rtxSenders == [] && activeSenders == [] && idleSenders == [] {
        on := false;
      } else if skip {
        pending := pending + 1;
      } else {
        pkts := Serve();
        Reschedule();
      }
    }

    method Reschedule()
      modifies this`on, this`pending
      ensures on && pending == old(pending) + 1
    {
      on, pending := true, pending + 1;
    }

    method Serve() returns (pkts: seq<P.PullPkt<EqdsSink>>)
      requires P.Known(View()) && !P.Quiet(View()) && P.Serve(View()).Ok?
      modifies this, sinks
      ensures sinks == old(sinks) && P.Serve(old(View())) == Ok((View(), pkts))
    {
      if rtxSenders != [] {
        pkts := ServeRtx();
      } else if activeSenders != [] {
        assert activeSenders[0] in View().credit;
        pkts := ServeActive();
      } else {
        pkts := ServeIdle();
      }
    }

    method ServeRtx() returns (pkts: seq<P.PullPkt<EqdsSink>>)
      requires P.Known(View()) && rtxSenders != []
      modifies this, sinks
      ensures sinks == old(sinks) && View() == P.ServeRtx(old(View()))
      ensures old(rtxSenders[0]) in sinks
      ensures pkts == [P.PullPkt(old(rtxSenders[0]), View().credit[old(rtxSenders[0])].latest, false)]
    {
      var sink := rtxSenders[0];
      assert sink in View().credit;
      rtxSenders := rtxSenders[1..];
      var pullno := sink.Pull();
      if sink.retxBacklog > 0 {
        rtxSenders := rtxSenders + [sink];
      } else if sink.Backlog() > 0 && !sink.inPull {
        activeSenders := activeSenders + [sink];
        sink.AddToPullQueue();
      }
      assert Credits(sinks) == old(Credits(sinks))[sink := sink.Credit()];
      pkts := [P.PullPkt(sink, pullno, false)];
    }

    method ServeActive() returns (pkts: seq<P.PullPkt<EqdsSink>>)
      requires P.Known(View()) && activeSenders != [] && activeSenders[0].inPull
      modifies this, sinks
      ensures sinks == old(sinks) && View() == P.ServeActive(old(View()))
      ensures old(activeSenders[0]) in sinks
      ensures pkts == [P.PullPkt(old(activeSenders[0]), View().credit[old(activeSenders[0])].latest, false)]
    {
      var sink := activeSenders[0];
      assert sink in View().credit;
      activeSenders := activeSenders[1..];
      var pullno := sink.Pull();
      if sink.Backlog() > 0 {
        activeSenders := activeSenders + [sink];
      } else {
        idleSenders := idleSenders + [sink];
        sink.RemoveFromPullQueue();
        sink.AddToSlowPullQueue();
      }
      assert Credits(sinks) == old(Credits(sinks))[sink := sink.Credit()];
      pkts := [P.PullPkt(sink, pullno, false)];
    }

    method ServeIdle() returns (pkts: seq<P.PullPkt<EqdsSink>>)
      requires P.Known(View()) && idleSenders != []
      modifies this, sinks
      ensures sinks == old(sinks) && View() == P.ServeIdle(old(View()))
      ensures old(idleSenders[0]) in sinks
      ensures pkts == [P.PullPkt(old(idleSenders[0]), View().credit[old(idleSenders[0])].latest, true)]
    {
      var sink := idleSenders[0];
      assert sink in View().credit;
      idleSenders := idleSenders[1..];
      if !sink.inSlowPull {
        sink.AddToSlowPullQueue();
      }
      var pullno := sink.Pull();
      if sink.Backlog() == 0 && sink.SlowCredit() < QuantizeFloor(sink.maxWnd) {
        idleSenders := idleSenders + [sink];
      } else {
        sink.RemoveFromSlowPullQueue();
      }
      assert Credits(sinks) == old(Credits(sinks))[sink := sink.Credit()];
      pkts := [P.PullPkt(sink, pullno, true)];
    }
  }
}
