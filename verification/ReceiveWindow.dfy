/**
The receive window of an EQDS sink: which sequence numbers it believes it has, and the
acknowledgements it builds from that. The window is stored modulo 4096.

This module is the specification, on values; `EqdsSink` in EqdsSink.dfy updates the same fields
and the 4096-slot array in place.
 */
module ReceiveWindow {
  import opened Bits

  /** Slots in the receive bitmap. */
  const SLOTS: nat := 4096

  /** Size of a header, of an acknowledgement and of a request-to-send, in bytes. */
  const ACK_SIZE: nat := 64

  /** Bytes accepted before an acknowledgement is due. */
  const UNACKED_THRESHOLD: nat := 16384

  /** Sequence numbers covered by one selective acknowledgement. */
  const SACK_WIDTH: nat := 64

  /** `stored` are the numbers above the next expected one whose slots are set. */
  datatype Window = Window(
    expected: nat, stored: set<nat>, outOfOrder: nat, high: nat, accepted: nat, received: int, ackRequest: bool)

  /** A data or request-to-send packet, as far as the receive window is concerned. */
  datatype Arrival = Arrival(epsn: nat, size: nat, ar: bool, ecn: bool)

  datatype Ack = Ack(cum: nat, ref: nat, bitmap: nat, ecn: bool)

  datatype MaybeAck = NoAck | Send(ack: Ack)

  /** The number in `[e, e + 4096)` that shares a slot with `x`. */
  function Canon(x: int, e: nat): (y: nat)
    ensures e <= y < e + SLOTS && (y - x) % SLOTS == 0
    ensures e <= x < e + SLOTS ==> y == x
  {
    assert (e + (x - e) % SLOTS - x) % SLOTS == 0 by {
      assert x - e == SLOTS * ((x - e) / SLOTS) + (x - e) % SLOTS;
      assert e + (x - e) % SLOTS - x == SLOTS * (-((x - e) / SLOTS));
    }
    e + (x - e) % SLOTS
  }

  /** The slot of `q` is set. */
  predicate Holds(w: Window, q: nat) {
    Canon(q, w.expected) in w.stored
  }

  predicate Duplicate(w: Window, q: nat) {
    q < w.expected || Holds(w, q)
  }

  /** The numbers below `n`. */
  function Below(n: nat): (s: set<nat>)
    ensures forall q: nat :: q in s <==> q < n
  {
    if n == 0 then {} else Below(n - 1) + {n - 1}
  }

  /** The first number from `e` on that is not in `stored`. */
  function NextMissing(e: nat, stored: set<nat>): (r: nat)
    ensures e <= r && r !in stored
    ensures forall q :: e <= q < r ==> q in stored
    decreases |stored|
  {
    if e in stored then
      var r := NextMissing(e + 1, stored - {e});
      assert forall q | e < q < r :: q in stored by {
        forall q | e < q < r ensures q in stored { assert q in stored - {e}; }
      }
      r
    else e
  }

  /** Takes in a packet that is not a duplicate. */
  function Accept(w: Window, q: nat): Window {
    if q == w.expected then
      var e := NextMissing(w.expected + 1, w.stored);
      var above := set x | x in w.stored && x >= e;
      w.(expected := e, stored := above, outOfOrder := |above|)
    else
      w.(stored := w.stored + {Canon(q, w.expected)}, outOfOrder := w.outOfOrder + 1)
  }

  function SackBits(w: Window, ref: nat): seq<bool> {
    seq(SACK_WIDTH, i requires 0 <= i => Holds(w, ref + i))
  }

  function MakeAck(w: Window, ref: nat, ecn: bool): Ack {
    Ack(w.expected, ref, Word(SackBits(w, ref)), ecn)
  }

  function SackBase(w: Window, epsn: nat): nat {
    if epsn - 63 > w.expected + 1 then epsn - 63 else w.expected + 1
  }

  function Max(a: nat, b: nat): nat {
    if a > b then a else b
  }

  /** A full data packet arrives. `accepted` is a 16-bit counter. */
  function ReceiveData(w: Window, p: Arrival): (Window, MaybeAck) {
    var w1 := w.(accepted := (w.accepted + p.size) % 0x1_0000, high := Max(w.high, p.epsn));
    if Duplicate(w1, p.epsn) then
      (w1.(accepted := 0),
       Send(MakeAck(w1, if p.ecn then p.epsn else SackBase(w1, p.epsn), p.ecn)))
    else ReceiveNew(w1, p)
  }

  /** The data packet is new: it is acknowledged at once if it is the first, was marked, asks for it,
      completes a hole the sender asked about, or fills the byte budget. */
  function ReceiveNew(w: Window, p: Arrival): (Window, MaybeAck) {
    var asked := w.ackRequest || p.ar;
    var w2 := Accept(w.(received := w.received + p.size - ACK_SIZE), p.epsn);
    var drained := p.epsn == w.expected && w2.outOfOrder == 0 && asked;
    var w3 := w2.(ackRequest := asked && !drained);
    if p.ecn || w3.accepted >= UNACKED_THRESHOLD || w.received == 0 || p.ar || drained then
      (w3.(accepted := 0),
       Send(MakeAck(w3, if p.ecn || p.ar then p.epsn else SackBase(w3, p.epsn), p.ecn)))
    else (w3, NoAck)
  }

  /** A trimmed packet arrives: acknowledged if it was already here, otherwise refused. */
  function ReceiveTrimmed(w: Window, q: nat): MaybeAck {
    if Duplicate(w, q) then Send(MakeAck(w, q, false)) else NoAck
  }

  /** A request-to-send arrives: it takes up a sequence number and always asks for an answer. */
  function ReceiveRts(w: Window, p: Arrival): (Window, Ack) {
    if Duplicate(w, p.epsn) then (w.(accepted := 0), MakeAck(w, p.epsn, p.ecn))
    else ReceiveNewRts(w, p)
  }

  function ReceiveNewRts(w: Window, p: Arrival): (Window, Ack) {
    var w1 := Accept(w.(received := w.received + p.size - ACK_SIZE), p.epsn);
    var drained := p.epsn == w.expected && w1.outOfOrder == 0 && w1.ackRequest;
    var w2 := w1.(ackRequest := w1.ackRequest && !drained, accepted := 0);
    (w2, MakeAck(w2, if p.ecn || p.ar then p.epsn else SackBase(w2, p.epsn), p.ecn))
  }

  // ---------------------------------------------------------------- what always holds

  const InitWindow := Window(0, {}, 0, 0, 0, 0, false)

  /** What the slot array can represent, wherever the packets come from. */
  ghost predicate Valid(w: Window) {
    && (forall q :: q in w.stored ==> w.expected <= q < w.expected + SLOTS)
    && w.outOfOrder == |w.stored|
  }

  lemma AcceptKeepsValid(w: Window, q: nat)
    requires Valid(w) && !Duplicate(w, q)
    ensures Valid(Accept(w, q)) && Accept(w, q).expected >= w.expected
  {
  }

  // ---------------------------------------------------------------- agreement with what was received

  /** The window agrees with the unbounded set of numbers received: `expected` is the least one
      missing, and the slots say which of the others have come in. */
  ghost predicate Exact(w: Window, rcv: set<nat>) {
    && Valid(w) && w.expected !in w.stored
    && forall q: nat :: q in rcv <==> q < w.expected || q in w.stored
  }

  lemma ExactMeaning(w: Window, rcv: set<nat>)
    requires Exact(w, rcv)
    ensures w.expected !in rcv && (forall q :: 0 <= q < w.expected ==> q in rcv)
    ensures w.outOfOrder == |set q | q in rcv && q > w.expected|
  {
    assert w.stored == set q | q in rcv && q > w.expected;
  }

  lemma AcceptKeepsExact(w: Window, rcv: set<nat>, q: nat)
    requires Exact(w, rcv) && q !in rcv && q < w.expected + SLOTS
    ensures !Duplicate(w, q)
    ensures Exact(Accept(w, q), rcv + {q})
  {
    AcceptKeepsValid(w, q);
  }

  /** The duplicate test recognises exactly the packets received before. */
  lemma DuplicateIsReceived(w: Window, rcv: set<nat>, q: nat)
    requires Exact(w, rcv) && q <= w.expected + SLOTS
    ensures Duplicate(w, q) <==> q in rcv
  {
    if q == w.expected + SLOTS {
      CanonUnique(q, w.expected, w.expected);
    }
  }

  lemma CanonUnique(x: int, e: nat, y: int)
    requires e <= y < e + SLOTS && (y - x) % SLOTS == 0
    ensures Canon(x, e) == y
  {
    var z := Canon(x, e);
    assert (z - y) % SLOTS == 0 by {
      assert z - x == SLOTS * ((z - x) / SLOTS);
      assert y - x == SLOTS * ((y - x) / SLOTS);
      assert z - y == SLOTS * ((z - x) / SLOTS - (y - x) / SLOTS);
    }
  }

  /** Packets that arrive in order leave no gaps; a marked one is acknowledged at once, and so is the first. */
  lemma InOrder(w: Window, p: Arrival)
    requires Valid(w) && w.stored == {} && p.epsn == w.expected
    ensures var r := ReceiveData(w, p);
            && r.0.expected == w.expected + 1 && r.0.stored == {}
            && (p.ecn || w.received == 0 ==> r.1.Send? && r.1.ack.cum == w.expected + 1)
  {
    NextMissingUnique(w.expected + 1, {}, w.expected + 1);
  }

  // ---------------------------------------------------------------- slots

  /** `x` and its slot number stand for the same member of the window. */
  lemma SlotCanon(x: nat, e: nat)
    ensures Canon(x % SLOTS, e) == Canon(x, e)
  {
    var y := Canon(x, e);
    assert (y - x % SLOTS) % SLOTS == 0 by {
      assert x == SLOTS * (x / SLOTS) + x % SLOTS;
      assert y - x == SLOTS * ((y - x) / SLOTS);
      assert y - x % SLOTS == SLOTS * ((y - x) / SLOTS + x / SLOTS);
    }
    CanonUnique(x % SLOTS, e, y);
  }

  /** Moving the window up to `f` does not move the stored numbers to other slots. */
  lemma CanonMoves(x: int, e: nat, f: nat, stored: set<nat>)
    requires e <= f <= e + SLOTS
    requires forall q :: q in stored ==> f <= q < e + SLOTS
    ensures Canon(x, f) in stored <==> Canon(x, e) in stored
  {
    var y := Canon(x, e);
    var z := if y < f then y + SLOTS else y;
    assert (z - x) % SLOTS == 0 by {
      assert y - x == SLOTS * ((y - x) / SLOTS);
      assert y + SLOTS - x == SLOTS * ((y - x) / SLOTS + 1);
    }
    CanonUnique(x, f, z);
  }

  /** The slots spell out the same numbers wherever the window stands. */
  lemma SlotsMove(slots: seq<nat>, stored: set<nat>, e: nat, f: nat)
    requires |slots| == SLOTS && e <= f <= e + SLOTS
    requires forall q :: q in stored ==> f <= q < e + SLOTS
    requires forall i :: 0 <= i < SLOTS ==> (slots[i] != 0 <==> Canon(i, e) in stored)
    ensures forall i :: 0 <= i < SLOTS ==> (slots[i] != 0 <==> Canon(i, f) in stored)
  {
    forall i | 0 <= i < SLOTS ensures slots[i] != 0 <==> Canon(i, f) in stored {
      CanonMoves(i, e, f, stored);
    }
  }

  lemma SameSlot(i: nat, x: nat, e: nat)
    requires i < SLOTS && Canon(i, e) == Canon(x, e)
    ensures i == x % SLOTS
  {
    var y := Canon(x, e);
    assert (i - x) % SLOTS == 0 by {
      assert y - x == SLOTS * ((y - x) / SLOTS);
      assert y - i == SLOTS * ((y - i) / SLOTS);
      assert i - x == SLOTS * ((y - x) / SLOTS - (y - i) / SLOTS);
    }
    assert i - x == SLOTS * ((i - x) / SLOTS);
    assert i == x + SLOTS * ((i - x) / SLOTS);
  }

  /** Clearing the slot of a stored number takes exactly that number out of the window. */
  lemma ClearSlot(slots: seq<nat>, stored: set<nat>, x: nat, e: nat)
    requires |slots| == SLOTS && e <= x && Canon(x, e) in stored
    requires forall q :: q in stored ==> x <= q < e + SLOTS
    requires forall i :: 0 <= i < SLOTS ==> (slots[i] != 0 <==> Canon(i, e) in stored)
    ensures x in stored && x < e + SLOTS
    ensures var slots' := slots[x % SLOTS := 0];
            forall i :: 0 <= i < SLOTS ==> (slots'[i] != 0 <==> Canon(i, e) in stored - {x})
  {
    forall i | 0 <= i < SLOTS && Canon(i, e) == x ensures i == x % SLOTS {
      SameSlot(i, x, e);
    }
    SlotCanon(x, e);
  }

  /** Reading slots stopped at the first empty one, `f`: that is the next number missing, and the slots above it
      are spelled from there. */
  lemma CaughtUp(slots: seq<nat>, all: set<nat>, stored: set<nat>, e: nat, f: nat)
    requires |slots| == SLOTS && e < f <= e + SLOTS && slots[f % SLOTS] == 0
    requires stored == (set x | x in all && x >= f) && forall q :: q in all ==> q < e + SLOTS
    requires forall q :: e < q < f ==> q in all
    requires forall i :: 0 <= i < SLOTS ==> (slots[i] != 0 <==> Canon(i, e) in stored)
    ensures NextMissing(e + 1, all) == f
    ensures forall i :: 0 <= i < SLOTS ==> (slots[i] != 0 <==> Canon(i, f) in stored)
  {
    SlotCanon(f, e);
    NextMissingUnique(e + 1, all, f);
    SlotsMove(slots, stored, e, f);
  }

  lemma NextMissingUnique(e: nat, stored: set<nat>, r: nat)
    requires e <= r && r !in stored && forall q :: e <= q < r ==> q in stored
    ensures NextMissing(e, stored) == r
  {
  }

  // ---------------------------------------------------------------- acknowledgements

  /** What an acknowledgement tells the sender about `q`. */
  predicate Acknowledges(a: Ack, q: nat) {
    q < a.cum || (a.ref <= q && Bit(a.bitmap, q - a.ref))
  }

  /** Everything acknowledged has been received. */
  ghost predicate Sound(a: Ack, rcv: set<nat>) {
    forall q: nat :: Acknowledges(a, q) ==> q in rcv
  }

  /** The packet at the far end of the bitmap does not reach the slot of the next expected one. */
  predicate InWindow(e: nat, ref: nat) {
    ref + SACK_WIDTH - 1 <= e + SLOTS
  }

  lemma AckBits(w: Window, ref: nat, ecn: bool, i: nat)
    ensures Bit(MakeAck(w, ref, ecn).bitmap, i) <==> i < SACK_WIDTH && Holds(w, ref + i)
  {
    WordBit(SackBits(w, ref), i);
  }

  /** An acknowledgement is sound, and it reports every stored packet in its span. */
  lemma AckIsExact(w: Window, rcv: set<nat>, ref: nat, ecn: bool)
    requires Exact(w, rcv) && InWindow(w.expected, ref)
    ensures Sound(MakeAck(w, ref, ecn), rcv)
    ensures forall q: nat :: w.expected <= q && ref <= q < ref + SACK_WIDTH ==>
              (Acknowledges(MakeAck(w, ref, ecn), q) <==> q in rcv)
  {
    var a := MakeAck(w, ref, ecn);
    forall q: nat | Acknowledges(a, q) ensures q in rcv {
      if q >= a.cum {
        AckBits(w, ref, ecn, q - ref);
        DuplicateIsReceived(w, rcv, q);
      }
    }
    forall q: nat | w.expected <= q && ref <= q < ref + SACK_WIDTH
      ensures Acknowledges(a, q) <==> q in rcv
    {
      AckBits(w, ref, ecn, q - ref);
      DuplicateIsReceived(w, rcv, q);
    }
  }

  // ---------------------------------------------------------------- exactly when the 4096 slots suffice

  /** A window that agrees with what was received stays so after every new packet `q` if and only
      if `q` is less than 4096 above the next expected number. */
  lemma AcceptExactIff(e: nat, q: nat)
    requires q >= e
    ensures (forall w, rcv :: Exact(w, rcv) && w.expected == e && q !in rcv ==>
               !Duplicate(w, q) && Exact(Accept(w, q), rcv + {q}))
            <==> q < e + SLOTS
  {
    if q < e + SLOTS {
      forall w, rcv | Exact(w, rcv) && w.expected == e && q !in rcv
        ensures !Duplicate(w, q) && Exact(Accept(w, q), rcv + {q})
      {
        AcceptKeepsExact(w, rcv, q);
      }
    } else {
      var w, rcv := WindowOf(e, {}), Below(e);
      assert Exact(w, rcv) && q !in rcv;
      assert q !in Accept(w, q).stored;
    }
  }

  /** Every acknowledgement built with reference `ref` is sound if and only if its span ends no
      later than the slot of the next expected number. */
  lemma AckSoundIff(e: nat, ref: nat)
    ensures (forall w, rcv :: Exact(w, rcv) && w.expected == e ==> Sound(MakeAck(w, ref, false), rcv))
            <==> InWindow(e, ref)
  {
    if InWindow(e, ref) {
      forall w, rcv | Exact(w, rcv) && w.expected == e ensures Sound(MakeAck(w, ref, false), rcv) {
        AckIsExact(w, rcv, ref, false);
      }
    } else {
      var w, rcv := UnsoundAck(e, ref);
    }
  }

  /** Some number in the span lies beyond the window and shares the slot of a storable one. */
  lemma UnsoundAck(e: nat, ref: nat) returns (w: Window, rcv: set<nat>)
    requires !InWindow(e, ref)
    ensures Exact(w, rcv) && w.expected == e && !Sound(MakeAck(w, ref, false), rcv)
  {
    var q := if Canon(ref + 63, e) != e then ref + 63 else ref + 62;
    assert Canon(q, e) != e && q > e + SLOTS by {
      if Canon(ref + 63, e) == e {
        assert (e - (ref + 63)) % SLOTS == 0;
        OffByOne(ref + 63, e);
      }
    }
    w := WindowOf(e, {Canon(q, e)});
    rcv := Below(e) + {Canon(q, e)};
    AckBits(w, ref, false, q - ref);
    assert Acknowledges(MakeAck(w, ref, false), q) && q !in rcv;
  }

  lemma OffByOne(x: nat, e: nat)
    requires x > e + SLOTS && (e - x) % SLOTS == 0
    ensures Canon(x - 1, e) == e + SLOTS - 1 && x - 1 > e + SLOTS
  {
    var k := (e - x) / SLOTS;
    assert e - x == SLOTS * k;
    assert e + SLOTS - 1 - (x - 1) == SLOTS * (k + 1);
    CanonUnique(x - 1, e, e + SLOTS - 1);
    assert k <= -2;
  }

  /** Everything below `e` has come in, and `above` of the rest. */
  function WindowOf(e: nat, above: set<nat>): Window {
    Window(e, above, |above|, e, 0, 0, false)
  }

}
