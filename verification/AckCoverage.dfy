/**
What the acknowledgements of the receive window cover, and when one is sent: the packet that is answered is covered,
as are the 63 numbers before it, no more than a fixed number of bytes goes unanswered, and a sender that has asked for
an answer gets one when no gap is left.
 */
module AckCoverage {
  import opened Bits
  import opened ReceiveWindow

  /** The window takes the packet for what it is. */
  predicate Near(w: Window, q: nat) {
    q < w.expected + SLOTS
  }

  /** The acknowledgement says of each of these numbers whether it has come in. */
  ghost predicate Tells(a: Ack, rcv: set<nat>, from: int, to: int) {
    forall q: nat :: from <= q <= to ==> (Acknowledges(a, q) <==> q in rcv)
  }

  /** What an answer to the packet says: it acknowledges the packet and reports either the 63 numbers before it, or
      the 63 after it. The cumulative number is the first one missing, and no bit is spent on it when looking back. */
  ghost predicate Covers(a: Ack, rcv: set<nat>, p: Arrival, backwards: bool) {
    && a.ecn == p.ecn && a.cum !in rcv && (forall q: nat :: q < a.cum ==> q in rcv)
    && Acknowledges(a, p.epsn)
    && (backwards ==> a.ref > a.cum && p.epsn - 63 <= a.ref && Tells(a, rcv, p.epsn - 63, a.ref + 63))
    && (!backwards && InWindow(a.cum, p.epsn) ==> Tells(a, rcv, p.epsn, p.epsn + 63))
  }

  // ---------------------------------------------------------------- what a reply covers

  lemma AckTells(w: Window, rcv: set<nat>, ref: nat, ecn: bool, from: int, to: int)
    requires Exact(w, rcv) && InWindow(w.expected, ref)
    requires ref <= from && to < ref + SACK_WIDTH
    ensures Tells(MakeAck(w, ref, ecn), rcv, from, to)
  {
    AckIsExact(w, rcv, ref, ecn);
  }

  /** A reply whose reference is the packet itself. */
  lemma ForwardsCovers(w: Window, rcv: set<nat>, p: Arrival)
    requires Exact(w, rcv) && p.epsn in rcv && Near(w, p.epsn)
    ensures Covers(MakeAck(w, p.epsn, p.ecn), rcv, p, false)
  {
    var a := MakeAck(w, p.epsn, p.ecn);
    AckBits(w, p.epsn, p.ecn, 0);
    DuplicateIsReceived(w, rcv, p.epsn);
    assert Acknowledges(a, p.epsn);
    if InWindow(w.expected, p.epsn) {
      AckTells(w, rcv, p.epsn, p.ecn, p.epsn, p.epsn + 63);
    }
  }

  /** A reply whose reference lies 63 numbers before it, or is the one after the next expected number. */
  lemma BackwardsCovers(w: Window, rcv: set<nat>, p: Arrival)
    requires Exact(w, rcv) && p.epsn in rcv && Near(w, p.epsn)
    ensures Covers(MakeAck(w, SackBase(w, p.epsn), p.ecn), rcv, p, true)
  {
    var ref := SackBase(w, p.epsn);
    var a := MakeAck(w, ref, p.ecn);
    AckIsExact(w, rcv, ref, p.ecn);
    forall q: nat | p.epsn - 63 <= q <= ref + 63 ensures Acknowledges(a, q) <==> q in rcv {
      if w.expected < q {
        assert ref <= q < ref + SACK_WIDTH;
      }
    }
  }

  // ---------------------------------------------------------------- one arrival

  /** The reply looks back unless the packet is marked, or new and asking for an answer. */
  predicate LooksBack(p: Arrival, rcv: set<nat>) {
    !p.ecn && (!p.ar || p.epsn in rcv)
  }

  /** The bytes that have come in since the last reply are many enough. */
  predicate Due(w: Window, p: Arrival) {
    (w.accepted + p.size) % 0x1_0000 >= UNACKED_THRESHOLD
  }

  /** Exactly the numbers below `n` have come in. */
  ghost predicate UpTo(rcv: set<nat>, n: nat) {
    forall q: nat :: q in rcv <==> q < n
  }

  /** No gap is left below the highest number received. */
  ghost predicate Gapless(rcv: set<nat>) {
    exists n: nat :: UpTo(rcv, n)
  }

  lemma GaplessIff(w: Window, rcv: set<nat>)
    requires Exact(w, rcv)
    ensures Gapless(rcv) <==> w.stored == {}
  {
    if w.stored == {} {
      assert UpTo(rcv, w.expected);
    }
    if Gapless(rcv) {
      var n: nat :| UpTo(rcv, n);
      assert n <= w.expected;
    }
  }

  /** A packet fills the last gap, or leaves none. */
  ghost predicate Completes(w: Window, rcv: set<nat>, p: Arrival) {
    p.epsn == w.expected && Gapless(rcv + {p.epsn})
  }

  lemma AcceptedCompletes(w: Window, rcv: set<nat>, p: Arrival, v: Window)
    requires Exact(w, rcv) && p.epsn !in rcv && Near(w, p.epsn) && v == w.(received := v.received)
    ensures var t := Accept(v, p.epsn);
            && Exact(t, rcv + {p.epsn}) && t.expected >= w.expected
            && (p.epsn == w.expected && t.outOfOrder == 0 <==> Completes(w, rcv, p))
  {
    assert Exact(v, rcv);
    AcceptKeepsExact(v, rcv, p.epsn);
    AcceptKeepsValid(v, p.epsn);
    var t := Accept(v, p.epsn);
    GaplessIff(t, rcv + {p.epsn});
    assert t.outOfOrder == 0 <==> t.stored == {};
  }

  /** A data packet in the window is answered exactly if it has been received before, is marked, asks for it, is the
      first, fills the byte budget, or leaves no gap behind for a sender that has asked before. */
  ghost predicate Answers(w: Window, rcv: set<nat>, p: Arrival) {
    || p.epsn in rcv || p.ecn || p.ar || w.received == 0 || Due(w, p)
    || (Completes(w, rcv, p) && w.ackRequest)
  }

  /** A packet has been taken in: what is known of the window, and of the answer. */
  ghost predicate Taken(w: Window, rcv: set<nat>, p: Arrival, r: (Window, MaybeAck)) {
    var rcv' := rcv + {p.epsn};
    && Exact(r.0, rcv') && r.0.expected >= w.expected
    && (r.1.Send? <==> Answers(w, rcv, p))
    && (r.1.Send? ==> Covers(r.1.ack, rcv', p, LooksBack(p, rcv)) && r.1.ack.cum == r.0.expected)
    && r.0.accepted == (if r.1.Send? then 0 else (w.accepted + p.size) % 0x1_0000)
    && r.0.received == w.received + (if p.epsn in rcv then 0 else p.size - ACK_SIZE)
    && (r.0.ackRequest <==>
          if p.epsn in rcv then w.ackRequest else (w.ackRequest || p.ar) && !Completes(w, rcv, p))
  }

  lemma DataAnswered(w: Window, rcv: set<nat>, p: Arrival)
    requires Exact(w, rcv) && Near(w, p.epsn)
    ensures Taken(w, rcv, p, ReceiveData(w, p))
  {
    var w1 := w.(accepted := (w.accepted + p.size) % 0x1_0000, high := Max(w.high, p.epsn));
    assert Exact(w1, rcv);
    DuplicateIsReceived(w1, rcv, p.epsn);
    if Duplicate(w1, p.epsn) {
      assert rcv + {p.epsn} == rcv;
      ForwardsCovers(w1, rcv, p);
      BackwardsCovers(w1, rcv, p);
    } else {
      NewAnswered(w, rcv, p, w1);
    }
  }

  lemma FlagsDoNotMatter(w: Window, rcv: set<nat>, v: Window)
    requires Exact(w, rcv) && v == w.(ackRequest := v.ackRequest, accepted := v.accepted)
    ensures Exact(v, rcv)
  {
  }

  lemma NewAnswered(w: Window, rcv: set<nat>, p: Arrival, w1: Window)
    requires Exact(w, rcv) && Near(w, p.epsn) && p.epsn !in rcv
    requires w1 == w.(accepted := (w.accepted + p.size) % 0x1_0000, high := w1.high)
    ensures Taken(w, rcv, p, ReceiveNew(w1, p))
  {
    NewTakenIn(w, rcv, p, w1);
    var rcv', w3 := rcv + {p.epsn}, ReceiveNew(w1, p).0.(accepted := w1.accepted);
    FlagsDoNotMatter(ReceiveNew(w1, p).0, rcv', w3);
    ForwardsCovers(w3, rcv', p);
    BackwardsCovers(w3, rcv', p);
  }

  lemma NewTakenIn(w: Window, rcv: set<nat>, p: Arrival, w1: Window)
    requires Exact(w, rcv) && Near(w, p.epsn) && p.epsn !in rcv
    requires w1 == w.(accepted := (w.accepted + p.size) % 0x1_0000, high := w1.high)
    ensures var r := ReceiveNew(w1, p); var t := r.0.(accepted := w1.accepted);
            && Exact(r.0, rcv + {p.epsn}) && r.0.expected >= w.expected
            && (r.1.Send? <==> Answers(w, rcv, p))
            && (r.1.Send? ==>
                  r.1.ack == MakeAck(t, if p.ecn || p.ar then p.epsn else SackBase(t, p.epsn), p.ecn))
            && r.0.accepted == (if r.1.Send? then 0 else w1.accepted)
            && r.0.received == w.received + p.size - ACK_SIZE
            && (r.0.ackRequest <==> (w.ackRequest || p.ar) && !Completes(w, rcv, p))
  {
    AcceptedCompletes(w1, rcv, p, w1.(received := w1.received + p.size - ACK_SIZE));
    var t := Accept(w1.(received := w1.received + p.size - ACK_SIZE), p.epsn);
    FlagsDoNotMatter(t, rcv + {p.epsn}, ReceiveNew(w1, p).0);
  }

  /** A request-to-send is always answered, and so is what it has come to stand for. */
  lemma RtsAnswered(w: Window, rcv: set<nat>, p: Arrival)
    requires Exact(w, rcv) && Near(w, p.epsn)
    ensures var r := ReceiveRts(w, p); var rcv' := rcv + {p.epsn};
            && Exact(r.0, rcv') && r.0.expected >= w.expected && r.0.accepted == 0
            && Covers(r.1, rcv', p, !p.ecn && !p.ar && p.epsn !in rcv) && r.1.cum == r.0.expected
            && r.0.received == w.received + (if p.epsn in rcv then 0 else p.size - ACK_SIZE)
            && (r.0.ackRequest <==> w.ackRequest && (p.epsn in rcv || !Completes(w, rcv, p)))
  {
    DuplicateIsReceived(w, rcv, p.epsn);
    if Duplicate(w, p.epsn) {
      assert rcv + {p.epsn} == rcv;
      ForwardsCovers(w, rcv, p);
    } else {
      NewRtsAnswered(w, rcv, p);
    }
  }

  lemma NewRtsAnswered(w: Window, rcv: set<nat>, p: Arrival)
    requires Exact(w, rcv) && Near(w, p.epsn) && p.epsn !in rcv
    ensures var r := ReceiveNewRts(w, p); var rcv' := rcv + {p.epsn};
            && Exact(r.0, rcv') && r.0.expected >= w.expected && r.0.accepted == 0
            && Covers(r.1, rcv', p, !p.ecn && !p.ar) && r.1.cum == r.0.expected
            && r.0.received == w.received + p.size - ACK_SIZE
            && (r.0.ackRequest <==> w.ackRequest && !Completes(w, rcv, p))
  {
    var rcv' := rcv + {p.epsn};
    AcceptedCompletes(w, rcv, p, w.(received := w.received + p.size - ACK_SIZE));
    var t := ReceiveNewRts(w, p).0;
    assert Exact(t, rcv');
    ForwardsCovers(t, rcv', p);
    BackwardsCovers(t, rcv', p);
  }

  /** A trimmed packet is acknowledged exactly if it has come in before. */
  lemma TrimmedAnswered(w: Window, rcv: set<nat>, q: nat)
    requires Exact(w, rcv) && Near(w, q)
    ensures ReceiveTrimmed(w, q).Send? <==> q in rcv
    ensures ReceiveTrimmed(w, q).Send? ==> Covers(ReceiveTrimmed(w, q).ack, rcv, Arrival(q, 0, false, false), false)
  {
    DuplicateIsReceived(w, rcv, q);
    if q in rcv {
      ForwardsCovers(w, rcv, Arrival(q, 0, false, false));
    }
  }

  // ---------------------------------------------------------------- runs of data packets

  /** Takes in the packets one after the other, and collects the answers. */
  function Receive(w: Window, ps: seq<Arrival>): (Window, seq<Ack>)
    decreases |ps|
  {
    if ps == [] then (w, [])
    else
      var r := ReceiveData(w, ps[0]);
      var rest := Receive(r.0, ps[1..]);
      (rest.0, (if r.1.Send? then [r.1.ack] else []) + rest.1)
  }

  /** Every packet arrives while it lies in the window. */
  predicate AllNear(w: Window, ps: seq<Arrival>)
    decreases |ps|
  {
    ps == [] || (Near(w, ps[0].epsn) && AllNear(ReceiveData(w, ps[0]).0, ps[1..]))
  }

  function Numbers(ps: seq<Arrival>): set<nat> {
    if ps == [] then {} else {ps[0].epsn} + Numbers(ps[1..])
  }

  function Sizes(ps: seq<Arrival>): nat {
    if ps == [] then 0 else ps[0].size + Sizes(ps[1..])
  }

  lemma {:induction false} ReceiveExact(w: Window, rcv: set<nat>, ps: seq<Arrival>)
    requires Exact(w, rcv) && AllNear(w, ps)
    ensures Exact(Receive(w, ps).0, rcv + Numbers(ps)) && Receive(w, ps).0.expected >= w.expected
    decreases |ps|
  {
    if ps == [] {
      assert rcv + {} == rcv;
    } else {
      DataAnswered(w, rcv, ps[0]);
      ReceiveExact(ReceiveData(w, ps[0]).0, rcv + {ps[0].epsn}, ps[1..]);
      assert rcv + {ps[0].epsn} + Numbers(ps[1..]) == rcv + Numbers(ps);
    }
  }

  lemma NoneAnswered(w: Window, ps: seq<Arrival>)
    requires ps != [] && Receive(w, ps).1 == []
    ensures ReceiveData(w, ps[0]).1.NoAck? && Receive(ReceiveData(w, ps[0]).0, ps[1..]).1 == []
  {
  }

  /** Packets that go unanswered hold less than the byte budget together, as long as none of them is so large that the
      counter of two bytes runs over. */
  lemma {:induction false} UnansweredAreFew(w: Window, rcv: set<nat>, ps: seq<Arrival>)
    requires Exact(w, rcv) && AllNear(w, ps) && w.accepted < UNACKED_THRESHOLD
    requires forall i :: 0 <= i < |ps| ==> ps[i].size <= 0x1_0000 - UNACKED_THRESHOLD
    requires Receive(w, ps).1 == []
    ensures w.accepted + Sizes(ps) < UNACKED_THRESHOLD
    decreases |ps|
  {
    if ps != [] {
      DataAnswered(w, rcv, ps[0]);
      NoneAnswered(w, ps);
      UnansweredAreFew(ReceiveData(w, ps[0]).0, rcv + {ps[0].epsn}, ps[1..]);
    }
  }

  /** Once a sender has asked for an answer, some answer acknowledges everything that had come in by then if the
      packets that follow leave no gap behind. */
  lemma {:induction false} AskedIsAnswered(w: Window, rcv: set<nat>, ps: seq<Arrival>)
    requires Exact(w, rcv) && AllNear(w, ps) && w.ackRequest
    requires !Gapless(rcv) && Gapless(rcv + Numbers(ps))
    ensures exists a :: a in Receive(w, ps).1 && forall q :: q in rcv ==> q < a.cum
    decreases |ps|
  {
    assert rcv + {} == rcv;
    if ps != [] {
      var p, r, rcv' := ps[0], ReceiveData(w, ps[0]), rcv + {ps[0].epsn};
      DataAnswered(w, rcv, p);
      assert rcv' + Numbers(ps[1..]) == rcv + Numbers(ps);
      if Gapless(rcv') {
        GapCloses(w, rcv, p);
        assert r.1.ack in Receive(w, ps).1;
        assert forall q :: q in rcv ==> q < r.1.ack.cum;
      } else {
        AskedIsAnswered(r.0, rcv', ps[1..]);
      }
    }
  }

  /** The packet that closes the last gap is the next one expected. */
  lemma GapCloses(w: Window, rcv: set<nat>, p: Arrival)
    requires Exact(w, rcv) && Near(w, p.epsn) && !Gapless(rcv) && Gapless(rcv + {p.epsn}) && w.ackRequest
    ensures Completes(w, rcv, p) && ReceiveData(w, p).1.Send?
    ensures forall q :: q in rcv ==> q < ReceiveData(w, p).1.ack.cum
  {
    DataAnswered(w, rcv, p);
    var n: nat :| UpTo(rcv + {p.epsn}, n);
    assert rcv + {p.epsn} == rcv ==> Gapless(rcv);
    assert p.epsn !in rcv;
    GaplessIff(w, rcv);
    var x :| x in w.stored;
    assert x in rcv && x < n && w.expected < n;
    assert w.expected in rcv + {p.epsn};
  }
}
