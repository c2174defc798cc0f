/**
In which order packets leave the queue that spares short paths, what becomes of the packets it trims, and how its two
classes share the link.
 */
module PathOrder {
  import opened Outcomes
  import opened Packets
  import opened ServiceShares
  import opened Subsequences
  import opened PathQueue

  // ---------------------------------------------------------------- arrivals

  function HeaderOf(c: Config, p: Packet): Packet {
    if p.header then p else p.(header := true, size := c.trimSize)
  }

  /** The header joins the high class exactly if there is room for it, and is dropped otherwise. */
  ghost predicate Places(c: Config, q: Queue, h: Packet, t: Step) {
    if q.highBytes + h.size <= c.maxSize then t.queue.high == [h] + q.high && t.fates == []
    else t.queue.high == q.high && t.fates == [Freed(h)]
  }

  /** The full packet that arrives joins the low class for packet `v`, which loses its payload. */
  ghost predicate TakesPlaceOf(c: Config, q: Queue, p: Packet, t: Step, v: nat) {
    v < |q.low| && t.queue.low == [p] + (q.low[..v] + q.low[v + 1..]) && Places(c, q, HeaderOf(c, q.low[v]), t)
  }

  /** What an arrival does: the packet joins the low class, or does so in the place of one that is trimmed, or it loses
      its own payload. */
  ghost predicate Enters(c: Config, q: Queue, p: Packet, coin: bool, t: Step) {
    if p.header then t.queue.low == q.low && Places(c, q, p, t)
    else if FitsLow(c, q, p) then t.queue.low == [p] + q.low && t.queue.high == q.high && t.fates == []
    else if LongerQueued(q, p) || (coin && q.low != [] && p.pathLen == q.low[0].pathLen) then
      exists v: nat :: Replaces(q, p, t.queue.low, v) && TakesPlaceOf(c, q, p, t, v)
    else t.queue.low == q.low && Places(c, q, HeaderOf(c, p), t)
  }

  lemma HeaderPlaced(c: Config, q: Queue, p: Packet)
    requires AdmitHeader(c, q, p).Ok?
    ensures Places(c, q, p, AdmitHeader(c, q, p).value) && AdmitHeader(c, q, p).value.queue.low == q.low
  {
  }

  lemma VictimPlaced(c: Config, q: Queue, prio: nat)
    requires Sound(c, q) && prio < q.maxLen
    ensures var v := Victim(q.low, prio, 0);
            && v < |q.low| && Trim(c, q, prio).Ok?
            && Trim(c, q, prio).value.queue.low == q.low[..v] + q.low[v + 1..]
            && Places(c, q, HeaderOf(c, q.low[v]), Trim(c, q, prio).value)
  {
    TrimKeeps(c, q, prio, 0);
    RemoveKeeps(c, q, Victim(q.low, prio, 0), 0);
  }

  lemma FullPlaced(c: Config, q: Queue, p: Packet, coin: bool)
    requires Inv(c, q) && !p.header && !FitsLow(c, q, p) && q.low != [] && Prevails(q, p, coin)
    requires AdmitLow(c, q, p).Ok?
    ensures TakesPlaceOf(c, q, p, AdmitLow(c, q, p).value, Displaced(q, p))
  {
    AdmitLowKeeps(c, q, p, coin, 0);
    MakeRoomKeeps(c, q, p, coin, 0);
    VictimPlaced(c, q, if p.pathLen < q.maxLen then p.pathLen else Below(p.pathLen));
    EnqueueKeeps(c, MakeRoom(c, q, p).value.queue, p, 0);
  }

  lemma ArrivalEnters(c: Config, q: Queue, p: Packet, coin: bool)
    requires Inv(c, q) && Receive(c, q, p, coin).Ok?
    ensures Enters(c, q, p, coin, Receive(c, q, p, coin).value)
  {
    if p.header {
      HeaderPlaced(c, q, p);
    } else if FitsLow(c, q, p) {
      AdmitLowKeeps(c, q, p, coin, 0);
      EnqueueKeeps(c, q, p, 0);
    } else {
      assert p.pathLen < q.maxLen <==> LongerQueued(q, p);
      if Prevails(q, p, coin) {
        ArrivalReplaces(c, q, p, coin);
        FullPlaced(c, q, p, coin);
      } else {
        HeaderPlaced(c, q, HeaderOf(c, p));
      }
    }
  }

  /** A packet that enters the low class is seen, however long ago the longest was. */
  lemma EntrySeen(c: Config, q: Queue, p: Packet, coin: bool)
    requires Inv(c, q) && !p.header && AdmitLow(c, q, p).Ok?
    requires FitsLow(c, q, p) || (q.low != [] && Prevails(q, p, coin))
    ensures AdmitLow(c, q, p).value.queue.maxSeen == if p.pathLen > q.maxSeen then p.pathLen else q.maxSeen
  {
    if !FitsLow(c, q, p) {
      MakeRoomKeeps(c, q, p, coin, 0);
      TrimSeesNothing(c, q, if p.pathLen < q.maxLen then p.pathLen else Below(p.pathLen));
    }
    assert Sound(c, MakeRoom(c, q, p).value.queue);
  }

  /** The longest path seen is that of all packets that have entered the low class, and is never forgotten. */
  lemma SeenIsLongest(c: Config, q: Queue, p: Packet, coin: bool)
    requires Inv(c, q) && Receive(c, q, p, coin).Ok?
    ensures var t := Receive(c, q, p, coin).value.queue;
            t.maxSeen == if t.low != q.low && p.pathLen > q.maxSeen then p.pathLen else q.maxSeen
  {
    ArrivalEnters(c, q, p, coin);
    if !p.header && (FitsLow(c, q, p) || Prevails(q, p, coin)) {
      EntrySeen(c, q, p, coin);
      AdmitLowKeeps(c, q, p, coin, 0);
      EntryChangesLow(q, p, Receive(c, q, p, coin).value.queue.low);
    }
  }

  /** A packet in the place of another leaves the class as it was only if it is that packet. */
  lemma EntryChangesLow(q: Queue, p: Packet, low: seq<Packet>)
    requires low == [p] + q.low || exists v: nat :: v < |q.low| && low == [p] + (q.low[..v] + q.low[v + 1..])
    ensures low == q.low ==> p in q.low
  {
    assert low[0] == p;
  }

  lemma TrimSeesNothing(c: Config, q: Queue, prio: nat)
    requires Sound(c, q) && Trim(c, q, prio).Ok?
    ensures Trim(c, q, prio).value.queue.maxSeen == q.maxSeen
  {
  }

  lemma ServiceSeesNothing(c: Config, q: Queue)
    requires Inv(c, q) && CompleteService(c, q).Ok?
    ensures CompleteService(c, q).value.queue.maxSeen == q.maxSeen
  {
  }

  /** While a service goes on, an arrival leaves it alone; only an idle link chooses anew. */
  lemma ServiceGoesOn(c: Config, q: Queue, p: Packet, coin: bool)
    requires Inv(c, q) && Receive(c, q, p, coin).Ok?
    ensures var t := Receive(c, q, p, coin).value.queue;
            if q.serving != Idle || (t.low == [] && t.high == []) then t.serving == q.serving && t.crt == q.crt
            else Begin(RATIO, q.crt, t.low != [], t.high != []) == Ok((t.serving, t.crt))
  {
    if p.header {
      HeaderServed(c, q, p);
    } else if FitsLow(c, q, p) || Prevails(q, p, coin) {
      FullServed(c, q, p, coin);
    } else {
      HeaderServed(c, q, HeaderOf(c, p));
    }
  }

  lemma HeaderServed(c: Config, q: Queue, p: Packet)
    requires Served(c, q) && AdmitHeader(c, q, p).Ok?
    ensures var t := AdmitHeader(c, q, p).value.queue;
            if q.serving != Idle || (t.low == [] && t.high == []) then t.serving == q.serving && t.crt == q.crt
            else Begin(RATIO, q.crt, t.low != [], t.high != []) == Ok((t.serving, t.crt))
  {
  }

  lemma FullServed(c: Config, q: Queue, p: Packet, coin: bool)
    requires Inv(c, q) && !p.header && AdmitLow(c, q, p).Ok?
    requires FitsLow(c, q, p) || (q.low != [] && Prevails(q, p, coin))
    ensures var t := AdmitLow(c, q, p).value.queue;
            if q.serving != Idle then t.serving == q.serving && t.crt == q.crt
            else Begin(RATIO, q.crt, t.low != [], t.high != []) == Ok((t.serving, t.crt))
    ensures AdmitLow(c, q, p).value.queue.low != []
  {
    AdmitLowKeeps(c, q, p, coin, 0);
    if !FitsLow(c, q, p) {
      MakeRoomKeeps(c, q, p, coin, 0);
    }
    EnqueueKeeps(c, MakeRoom(c, q, p).value.queue, p, 0);
  }

  // ---------------------------------------------------------------- first in, first out

  function FullArrivals(events: seq<Event>): seq<Packet> {
    if events == [] then []
    else (if events[0].Arrive? && !events[0].packet.header then [events[0].packet] else []) + FullArrivals(events[1..])
  }

  lemma OneArrival(e: Event)
    ensures FullArrivals([e]) == if e.Arrive? && !e.packet.header then [e.packet] else []
  {
    assert [e][1..] == [] && FullArrivals([]) == [];
  }

  /** What an arrival has added to the high class. */
  function Joining(e: Event, q: Queue, t: Queue): seq<Packet> {
    if e.Arrive? && |q.high| < |t.high| then [t.high[0]] else []
  }

  /** The headers that join the high class, oldest first. */
  ghost function Joined(c: Config, q: Queue, events: seq<Event>): seq<Packet>
    requires Run(c, q, events).Ok?
    decreases |events|
  {
    if events == [] then []
    else
      var t := Next(c, q, events[0]).value.queue;
      Joining(events[0], q, t) + Joined(c, t, events[1..])
  }

  /** What an event sends and what then waits are what waited and what came, in this order. */
  ghost predicate InOrder(q: Queue, e: Event, t: Step) {
    && Subsequence(Sending(t.fates, false) + Reversed(t.queue.low), Reversed(q.low) + FullArrivals([e]))
    && Sending(t.fates, true) + Reversed(t.queue.high) == Reversed(q.high) + Joining(e, q, t.queue)
  }

  /** Taking one packet out. */
  lemma WithoutOne(low: seq<Packet>, v: nat)
    requires v < |low|
    ensures Subsequence(Reversed(low[..v] + low[v + 1..]), Reversed(low))
  {
    SplitSeq(low, v);
    ReversedWithout(low[..v], low[v], low[v + 1..]);
  }

  /** The newest waits at the end. */
  lemma NewestLast(was: seq<Packet>, rest: seq<Packet>, p: Packet)
    requires Subsequence(Reversed(rest), Reversed(was))
    ensures Subsequence(Reversed([p] + rest), Reversed(was) + [p])
  {
    ReversedFirst(p, rest);
    SubsequenceSame([p]);
    SubsequenceAppend(Reversed(rest), Reversed(was), [p], [p]);
  }

  lemma LowInOrder(c: Config, q: Queue, p: Packet, coin: bool, t: Step)
    requires Enters(c, q, p, coin, t)
    ensures Subsequence(Reversed(t.queue.low), Reversed(q.low) + FullArrivals([Arrive(p, coin)]))
  {
    OneArrival(Arrive(p, coin));
    SubsequenceSame(Reversed(q.low));
    if t.queue.low == q.low {
      SubsequenceAppend(Reversed(q.low), Reversed(q.low), [], FullArrivals([Arrive(p, coin)]));
      assert Reversed(q.low) + [] == Reversed(q.low);
    } else if FitsLow(c, q, p) {
      NewestLast(q.low, q.low, p);
    } else {
      var v: nat :| Replaces(q, p, t.queue.low, v);
      WithoutOne(q.low, v);
      NewestLast(q.low, q.low[..v] + q.low[v + 1..], p);
    }
  }

  lemma ArrivalInOrder(c: Config, q: Queue, p: Packet, coin: bool)
    requires Inv(c, q) && Receive(c, q, p, coin).Ok?
    ensures InOrder(q, Arrive(p, coin), Receive(c, q, p, coin).value)
  {
    var t := Receive(c, q, p, coin).value;
    ArrivalEnters(c, q, p, coin);
    NothingSending(t.fates, false);
    NothingSending(t.fates, true);
    LowInOrder(c, q, p, coin, t);
    assert [] + Reversed(t.queue.low) == Reversed(t.queue.low);
    assert [] + Reversed(t.queue.high) == Reversed(t.queue.high);
    if t.queue.high != q.high {
      ReversedFirst(t.queue.high[0], q.high);
    } else {
      assert Reversed(q.high) + [] == Reversed(q.high);
    }
  }

  /** The packet at the end is served. */
  lemma LastServed(s: seq<Packet>, rest: seq<Packet>, fates: seq<Fate>, header: bool)
    requires s != [] && rest == s[..|s| - 1] && fates == [Sent(s[|s| - 1], false)] && s[|s| - 1].header == header
    ensures Sending(fates, header) + Reversed(rest) == Reversed(s) && Sending(fates, !header) == []
  {
    ReversedLast(s);
    assert fates[1..] == [];
  }

  /** The served class loses its oldest packet. */
  predicate LosesOldest(q: Queue, t: Step) {
    if q.serving == Low then
      && q.low != [] && t.queue.low == q.low[..|q.low| - 1] && t.queue.high == q.high
      && t.fates == [Sent(q.low[|q.low| - 1], false)]
    else
      && q.high != [] && t.queue.low == q.low && t.queue.high == q.high[..|q.high| - 1]
      && t.fates == [Sent(q.high[|q.high| - 1], false)]
  }

  lemma DepartureIs(c: Config, q: Queue)
    requires Inv(c, q) && Depart(q).Ok?
    ensures LosesOldest(q, Depart(q).value)
  {
    if q.serving == Low {
      RemoveKeeps(c, q, |q.low| - 1, 0);
    }
  }

  lemma ServiceIs(c: Config, q: Queue)
    requires Inv(c, q) && CompleteService(c, q).Ok?
    ensures LosesOldest(q, CompleteService(c, q).value)
  {
    DepartureIs(c, q);
  }

  lemma ServiceInOrder(c: Config, q: Queue)
    requires Inv(c, q) && CompleteService(c, q).Ok?
    ensures InOrder(q, Complete, CompleteService(c, q).value)
  {
    var t := CompleteService(c, q).value;
    ServiceIs(c, q);
    OneArrival(Complete);
    SubsequenceSame(Reversed(q.low));
    assert Reversed(q.low) + [] == Reversed(q.low) && Reversed(q.high) + [] == Reversed(q.high);
    assert [] + Reversed(q.low) == Reversed(q.low) && [] + Reversed(q.high) == Reversed(q.high);
    if q.serving == Low {
      LastServed(q.low, t.queue.low, t.fates, false);
    } else {
      LastServed(q.high, t.queue.high, t.fates, true);
    }
  }

  lemma NextInOrder(c: Config, q: Queue, e: Event)
    requires Inv(c, q) && Next(c, q, e).Ok?
    ensures InOrder(q, e, Next(c, q, e).value)
  {
    match e
    case Arrive(p, coin) => ArrivalInOrder(c, q, p, coin);
    case Complete =>
      if q.serving != Idle {
        ServiceInOrder(c, q);
      } else {
        SubsequenceSame(Reversed(q.low));
        OneArrival(e);
        assert [] + Reversed(q.low) == Reversed(q.low) == Reversed(q.low) + [];
        assert [] + Reversed(q.high) == Reversed(q.high) == Reversed(q.high) + [];
      }
  }

  /** Over every run: the full packets that are sent, with those that still wait behind them, come in the order in
      which they waited and arrived; the headers do in the order in which they waited and joined, without exception. */
  lemma {:induction false} FirstInFirstOut(c: Config, q: Queue, events: seq<Event>)
    requires Inv(c, q) && Run(c, q, events).Ok?
    ensures var t := Run(c, q, events).value;
            && Subsequence(Sending(t.fates, false) + Reversed(t.queue.low), Reversed(q.low) + FullArrivals(events))
            && Sending(t.fates, true) + Reversed(t.queue.high) == Reversed(q.high) + Joined(c, q, events)
    decreases |events|
  {
    if events == [] {
      SubsequenceSame(Reversed(q.low));
      assert [] + Reversed(q.low) == Reversed(q.low) == Reversed(q.low) + [];
      assert [] + Reversed(q.high) == Reversed(q.high) == Reversed(q.high) + [];
    } else {
      var s := Next(c, q, events[0]).value;
      NextKeeps(c, q, events[0], 0);
      NextInOrder(c, q, events[0]);
      FirstInFirstOut(c, s.queue, events[1..]);
      var rest := Run(c, s.queue, events[1..]).value;
      FullGoOn(s, rest, q.low, events);
      HeadersGoOn(s, rest, q.high, Joining(events[0], q, s.queue), Joined(c, s.queue, events[1..]));
    }
  }

  lemma FullGoOn(s: Step, rest: Step, low: seq<Packet>, events: seq<Event>)
    requires events != []
    requires Subsequence(Sending(s.fates, false) + Reversed(s.queue.low), Reversed(low) + FullArrivals([events[0]]))
    requires Subsequence(Sending(rest.fates, false) + Reversed(rest.queue.low),
                         Reversed(s.queue.low) + FullArrivals(events[1..]))
    ensures Subsequence(Sending(s.fates + rest.fates, false) + Reversed(rest.queue.low),
                        Reversed(low) + FullArrivals(events))
  {
    SendingConcat(s.fates, rest.fates, false);
    InOrderTwice(Sending(s.fates, false), Reversed(s.queue.low), Reversed(low), FullArrivals([events[0]]),
                 Sending(rest.fates, false), Reversed(rest.queue.low), FullArrivals(events[1..]));
    OneArrival(events[0]);
    assert FullArrivals(events) == FullArrivals([events[0]]) + FullArrivals(events[1..]);
  }

  lemma HeadersGoOn(s: Step, rest: Step, high: seq<Packet>, came: seq<Packet>, later: seq<Packet>)
    requires Sending(s.fates, true) + Reversed(s.queue.high) == Reversed(high) + came
    requires Sending(rest.fates, true) + Reversed(rest.queue.high) == Reversed(s.queue.high) + later
    ensures Sending(s.fates + rest.fates, true) + Reversed(rest.queue.high) == Reversed(high) + (came + later)
  {
    SendingConcat(s.fates, rest.fates, true);
    Regroup(Sending(s.fates, true), Sending(rest.fates, true), Reversed(rest.queue.high));
    Regroup(Sending(s.fates, true), Reversed(s.queue.high), later);
    Regroup(Reversed(high), came, later);
  }

  // ---------------------------------------------------------------- sharing the link

  /** The service started by an event, if any, with the backlog it was chosen on. */
  ghost function Log(c: Config, q: Queue, e: Event): seq<Start> {
    var t := Next(c, q, e);
    if t.Aborted? then []
    else
      var n := t.value.queue;
      if n.serving != Idle && (q.serving == Idle || e.Complete?) then [Start(n.low != [], n.high != [], n.serving)]
      else []
  }

  ghost function RunLog(c: Config, q: Queue, events: seq<Event>): seq<Start>
    requires Run(c, q, events).Ok?
    decreases |events|
  {
    if events == [] then [] else Log(c, q, events[0]) + RunLog(c, Next(c, q, events[0]).value.queue, events[1..])
  }

  lemma NextFollows(c: Config, q: Queue, e: Event)
    requires Inv(c, q) && Next(c, q, e).Ok?
    ensures var n := Next(c, q, e).value.queue;
            if Log(c, q, e) == [] then n.crt == q.crt
            else Begin(RATIO, q.crt, n.low != [], n.high != []) == Ok((n.serving, n.crt))
  {
    NextKeeps(c, q, e, 0);
    if e.Arrive? {
      ServiceGoesOn(c, q, e.packet, e.coin);
    } else if q.serving != Idle {
      DepartKeeps(c, q, 0);
    }
  }

  lemma {:induction false} RunFollows(c: Config, q: Queue, events: seq<Event>)
    requires Inv(c, q) && Run(c, q, events).Ok?
    ensures Follows(RATIO, q.crt, RunLog(c, q, events))
    decreases |events|
  {
    if events != [] {
      var e, n := events[0], Next(c, q, events[0]).value.queue;
      NextFollows(c, q, e);
      NextKeeps(c, q, e, 0);
      RunFollows(c, n, events[1..]);
      var log := Log(c, q, e);
      assert log == [] || (log + RunLog(c, n, events[1..]))[1..] == RunLog(c, n, events[1..]);
      assert log == [] ==> log + RunLog(c, n, events[1..]) == RunLog(c, n, events[1..]);
    }
  }

  /** Over every run of the queue, at most ten services of headers separate two services of full packets while full
      packets wait, and at most one of full packets separates two of headers. */
  lemma LinkIsShared(c: Config, q: Queue, events: seq<Event>, i: nat, j: nat)
    requires Inv(c, q) && Run(c, q, events).Ok? && i <= j <= |RunLog(c, q, events)|
    ensures Passes(RunLog(c, q, events)[i..j], High) ==> j - i <= 10
    ensures Passes(RunLog(c, q, events)[i..j], Low) ==> j - i <= 1
  {
    RunFollows(c, q, events);
    if Passes(RunLog(c, q, events)[i..j], High) {
      FairShares(RATIO, q.crt, RunLog(c, q, events), i, j, High);
    }
    if Passes(RunLog(c, q, events)[i..j], Low) {
      FairShares(RATIO, q.crt, RunLog(c, q, events), i, j, Low);
    }
  }
}
