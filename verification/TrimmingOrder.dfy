/**
In which order packets leave the trimming queue, and what a packet has become when it does: both classes are served
first in, first out, and a trimmed packet is the one that arrived but for its payload.
 */
module TrimmingOrder {
  import opened Outcomes
  import opened Packets
  import opened ServiceShares
  import opened Subsequences
  import opened TrimmingQueue

  /** Taking the last member out leaves a subsequence. */
  lemma SettledSubsequence(s: seq<Packet>)
    ensures Subsequence(Settled(s), s)
  {
    if s != [] {
      SubsequenceSame(Settled(s));
      SubsequenceAppend(Settled(s), Settled(s), [], [s[|s| - 1]]);
      assert Settled(s) + [] == Settled(s) && Settled(s) + [s[|s| - 1]] == s;
    }
  }

  /** The full packets that arrive. */
  function FullArrivals(events: seq<Event>): seq<Packet> {
    if events == [] then []
    else (if events[0].Arrive? && !events[0].packet.header then [events[0].packet] else []) + FullArrivals(events[1..])
  }

  // ---------------------------------------------------------------- arrivals

  /** What trimming to `size` leaves of a packet. */
  function HeaderOf(p: Packet, size: nat): Packet {
    if p.header then p else p.(header := true, size := size)
  }

  /** A header joins the high class if that has room for it. Otherwise it goes back to its sender, if it may and has not
      done so before, or is dropped. */
  ghost predicate Places(c: Config, q: Queue, h: Packet, t: Step) {
    var returned := c.returnToSender && h.reversible && !h.bounced;
    if q.highBytes + h.size <= HEADER_ROOM * c.maxSize then
      t.queue.high == q.high + [h] && t.fates == [] && t.queue.bounces == q.bounces
    else
      && t.queue.high == q.high && t.queue.bounces == q.bounces + (if returned then 1 else 0)
      && t.fates == [if returned then Bounced(h.(bounced := true)) else Freed(h)]
  }

  /** Nothing is trimmed. */
  predicate Untrimmed(q: Queue, t: Queue) {
    t.high == q.high && t.stripped == q.stripped && t.bounces == q.bounces
  }

  /** The packet that has arrived keeps its payload exactly if it fits or the toss is for it, and joins the low class
      then, in the place of the newest packet there if it does not fit. */
  predicate Keeps(c: Config, q: Queue, p: Packet, coin: bool, t: Queue) {
    var fits := q.lowBytes + p.size <= c.maxSize;
    t.low == if fits then q.low + [p] else if coin then Settled(q.low) + [p] else q.low
  }

  /** A full packet arrives. If it does not fit, either it or the newest of the low class is trimmed. */
  ghost predicate Enters(c: Config, q: Queue, p: Packet, coin: bool, t: Step) {
    && Keeps(c, q, p, coin, t.queue)
    && if q.lowBytes + p.size <= c.maxSize then Untrimmed(q, t.queue) && t.fates == []
       else if coin && q.low == [] then false
       else
         var loser := if coin then q.low[|q.low| - 1] else p;
         if c.disableTrim then Untrimmed(q, t.queue) && t.fates == [Freed(loser)]
         else Places(c, q, HeaderOf(loser, c.trimSize), t) && t.queue.stripped == q.stripped + 1
  }

  /** What an arrival does. A packet hit by a failure is dropped, or stripped if timeouts are not in use. */
  ghost predicate Arrives(c: Config, q: Queue, p: Packet, failed: bool, coin: bool, t: Step) {
    if failed && c.useTimeouts then t == Step(q, [Freed(p)])
    else if failed || p.header then
      && t.queue.low == q.low && t.queue.stripped == q.stripped
      && Places(c, q, HeaderOf(p, MIN_TRIM), t)
    else Enters(c, q, p, coin, t)
  }

  lemma HeaderArrives(c: Config, q: Queue, p: Packet)
    requires AdmitHeader(c, q, p).Ok? && p.header
    ensures var t := AdmitHeader(c, q, p).value;
            Places(c, q, p, t) && t.queue.low == q.low && t.queue.stripped == q.stripped
  {
  }

  lemma FullArrives(c: Config, q: Queue, p: Packet, coin: bool)
    requires AdmitFull(c, q, p, coin).Ok? && !p.header && Kinds(q)
    ensures Enters(c, q, p, coin, AdmitFull(c, q, p, coin).value)
  {
    if q.lowBytes + p.size > c.maxSize && !coin && !c.disableTrim {
      HeaderArrives(c, q.(stripped := q.stripped + 1), HeaderOf(p, c.trimSize));
    }
  }

  lemma ArrivalArrives(c: Config, q: Queue, p: Packet, failed: bool, coin: bool)
    requires Receive(c, q, p, failed, coin).Ok? && Kinds(q)
    ensures Arrives(c, q, p, failed, coin, Receive(c, q, p, failed, coin).value)
  {
    if !(failed && c.useTimeouts) {
      if failed || p.header {
        HeaderArrives(c, q, HeaderOf(p, MIN_TRIM));
      } else {
        FullArrives(c, q, p, coin);
      }
    }
  }

  // ---------------------------------------------------------------- whole runs

  /** The headers that join the high class, oldest first. */
  ghost function Joined(c: Config, q: Queue, events: seq<Event>): seq<Packet>
    requires Run(c, q, events).Ok?
    decreases |events|
  {
    if events == [] then []
    else
      var t := Next(c, q, events[0]).value.queue;
      Joining(events[0], q, t) + Joined(c, t, events[1..])
  }

  /** What an arrival has added at the end of the high class. */
  function Joining(e: Event, q: Queue, t: Queue): seq<Packet> {
    if e.Arrive? && |q.high| <= |t.high| then t.high[|q.high|..] else []
  }

  /** What an event sends and what then waits are what waited and what came, in this order. */
  ghost predicate InOrder(c: Config, q: Queue, e: Event, t: Step) {
    && Subsequence(Sending(t.fates, false) + t.queue.low, q.low + FullArrivals([e]))
    && Sending(t.fates, true) + t.queue.high == q.high + Joining(e, q, t.queue)
  }

  lemma ArrivesSendsNothing(c: Config, q: Queue, p: Packet, failed: bool, coin: bool, t: Step)
    requires Arrives(c, q, p, failed, coin, t)
    ensures NothingSent(t.fates) && q.high <= t.queue.high
    ensures t.queue.low == q.low || (!p.header && (t.queue.low == q.low + [p] || t.queue.low == Settled(q.low) + [p]))
  {
  }

  lemma ArrivalInOrder(c: Config, q: Queue, p: Packet, failed: bool, coin: bool)
    requires Receive(c, q, p, failed, coin).Ok? && Kinds(q)
    ensures InOrder(c, q, Arrive(p, failed, coin), Receive(c, q, p, failed, coin).value)
  {
    var t := Receive(c, q, p, failed, coin).value;
    ArrivalArrives(c, q, p, failed, coin);
    ArrivesSendsNothing(c, q, p, failed, coin, t);
    NothingSending(t.fates, false);
    NothingSending(t.fates, true);
    OneArrival(Arrive(p, failed, coin));
    NewcomerInOrder(q.low, t.queue.low, if p.header then [] else [p]);
    assert [] + t.queue.low == t.queue.low && [] + t.queue.high == t.queue.high;
  }

  lemma NewcomerInOrder(low: seq<Packet>, after: seq<Packet>, came: seq<Packet>)
    requires after == low || after == low + came || after == Settled(low) + came
    ensures Subsequence(after, low + came)
  {
    SubsequenceSame(low);
    SubsequenceSame(came);
    SettledSubsequence(low);
    if after == low {
      SubsequenceAppend(low, low, [], came);
      assert low + [] == low;
    } else if after == low + came {
      SubsequenceAppend(low, low, came, came);
    } else {
      SubsequenceAppend(Settled(low), low, came, came);
    }
  }

  /** The class that is served sends its oldest packet. */
  lemma ServiceInOrder(c: Config, q: Queue, mark: bool)
    requires CompleteService(c, q, mark).Ok? && Kinds(q)
    ensures InOrder(c, q, Complete(mark), CompleteService(c, q, mark).value)
    ensures |CompleteService(c, q, mark).value.fates| == 1 && CompleteService(c, q, mark).value.fates[0].Sent?
  {
    var t := CompleteService(c, q, mark).value;
    SubsequenceSame(q.low);
    assert t.fates[1..] == [];
    OneArrival(Complete(mark));
    assert q.low + [] == q.low && q.high + [] == q.high;
    assert Sending(t.fates, false) + t.queue.low == q.low;
  }

  lemma NextInOrder(c: Config, q: Queue, e: Event)
    requires Next(c, q, e).Ok? && Kinds(q)
    ensures InOrder(c, q, e, Next(c, q, e).value)
  {
    match e
    case Arrive(p, failed, coin) => ArrivalInOrder(c, q, p, failed, coin);
    case Complete(mark) =>
      if q.serving != Idle {
        ServiceInOrder(c, q, mark);
      } else {
        SubsequenceSame(q.low);
        OneArrival(e);
        assert [] + q.low == q.low == q.low + [] && [] + q.high == q.high == q.high + [];
      }
  }

  /** Over every run: the full packets that are sent, with those that still wait behind them, come in the order in
      which they waited and arrived; the headers do in the order in which they waited and joined, without exception. */
  lemma {:induction false} FirstInFirstOut(c: Config, q: Queue, events: seq<Event>)
    requires Inv(c, q) && Run(c, q, events).Ok?
    ensures var t := Run(c, q, events).value;
            && Subsequence(Sending(t.fates, false) + t.queue.low, q.low + FullArrivals(events))
            && Sending(t.fates, true) + t.queue.high == q.high + Joined(c, q, events)
    decreases |events|
  {
    if events == [] {
      SubsequenceSame(q.low);
      assert [] + q.low == q.low == q.low + [] && [] + q.high == q.high == q.high + [];
    } else {
      var s := Next(c, q, events[0]).value;
      NextKeeps(c, q, events[0], 0);
      NextInOrder(c, q, events[0]);
      FirstInFirstOut(c, s.queue, events[1..]);
      var rest := Run(c, s.queue, events[1..]).value;
      FullGoOn(s, rest, q.low, events);
      HeadersGoOn(s, rest, q.high, Joining(events[0], q, s.queue), Joined(c, s.queue, events[1..]));
    }
  }

  lemma FullGoOn(s: Step, rest: Step, low: seq<Packet>, events: seq<Event>)
    requires events != []
    requires Subsequence(Sending(s.fates, false) + s.queue.low, low + FullArrivals([events[0]]))
    requires Subsequence(Sending(rest.fates, false) + rest.queue.low, s.queue.low + FullArrivals(events[1..]))
    ensures Subsequence(Sending(s.fates + rest.fates, false) + rest.queue.low, low + FullArrivals(events))
  {
    var came, later := FullArrivals([events[0]]), FullArrivals(events[1..]);
    SendingConcat(s.fates, rest.fates, false);
    InOrderTwice(Sending(s.fates, false), s.queue.low, low, came, Sending(rest.fates, false), rest.queue.low, later);
    OneArrival(events[0]);
    assert FullArrivals(events) == came + later;
  }

  lemma OneArrival(e: Event)
    ensures FullArrivals([e]) == if e.Arrive? && !e.packet.header then [e.packet] else []
  {
    assert [e][1..] == [] && FullArrivals([]) == [];
  }

  lemma HeadersGoOn(s: Step, rest: Step, high: seq<Packet>, came: seq<Packet>, later: seq<Packet>)
    requires Sending(s.fates, true) + s.queue.high == high + came
    requires Sending(rest.fates, true) + rest.queue.high == s.queue.high + later
    ensures Sending(s.fates + rest.fates, true) + rest.queue.high == high + (came + later)
  {
    SendingConcat(s.fates, rest.fates, true);
    Regroup(Sending(s.fates, true), Sending(rest.fates, true), rest.queue.high);
    Regroup(Sending(s.fates, true), s.queue.high, later);
    Regroup(high, came, later);
  }

  // ---------------------------------------------------------------- marks, and trims that are too small

  /** What leaves is marked exactly if it is a full packet and the full packets it leaves behind are too many bytes, or
      enough for the toss to decide. */
  lemma MarkedIff(c: Config, q: Queue, coin: bool)
    requires Inv(c, q) && CompleteService(c, q, coin).Ok?
    ensures var t := CompleteService(c, q, coin).value; var behind := Bytes(t.queue.low);
            && |t.fates| == 1 && t.fates[0].Sent?
            && (t.fates[0].marked <==>
                  !t.fates[0].packet.header && (behind > c.ecnMax || (behind > c.ecnMin && coin)))
  {
    CompleteKeeps(c, q, coin, 0);
  }

  /** A trimmed size below that of a header makes exactly those arrivals fail that have to trim a packet, or would have
      to and find none. */
  lemma SmallTrimsFail(c: Config, q: Queue, p: Packet, coin: bool)
    requires c.trimSize < MIN_TRIM && Kinds(q) && Served(c, q) && !p.header
    ensures Receive(c, q, p, false, coin).Aborted? <==>
              q.lowBytes + p.size > c.maxSize && (!c.disableTrim || (coin && q.low == []))
  {
  }
}
