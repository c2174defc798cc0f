/** The trimming queue of a switch, on values: full packets wait in the low class, headers and control
    packets in the high class. When the low class is full a packet, the arriving or the newest waiting
    one, loses its payload and its header joins the high class. */
module TrimmingQueue {
  import opened Outcomes
  import opened Packets
  import opened ServiceShares

  const RATIO: Ratio := Ratio(100000, 1)
  const HEADER_ROOM: nat := 200

  datatype Config = Config(
    maxSize: nat, trimSize: nat, disableTrim: bool, returnToSender: bool, useTimeouts: bool,
    ecnMin: nat, ecnMax: nat)

  datatype Queue = Queue(
    low: seq<Packet>, high: seq<Packet>, lowBytes: int, highBytes: int, serving: Service, crt: nat,
    drops: nat, stripped: nat, bounces: nat)

  /** The queue after an event, and the packets that left it. */
  datatype Step = Step(queue: Queue, fates: seq<Fate>)

  function BeginService(c: Config, q: Queue): Outcome<Queue> {
    var b :- Begin(RATIO, q.crt, q.low != [], q.high != []);
    Ok(q.(serving := b.0, crt := b.1))
  }

  function Wake(c: Config, q: Queue): Outcome<Queue> {
    if q.serving == Idle then BeginService(c, q) else Ok(q)
  }

  predicate HighFull(c: Config, q: Queue, p: Packet) {
    q.highBytes + p.size > HEADER_ROOM * c.maxSize
  }

  predicate Returnable(c: Config, p: Packet) {
    c.returnToSender && p.reversible && !p.bounced
  }

  function PlaceHeader(c: Config, q: Queue, p: Packet): Step {
    if !HighFull(c, q, p) then Step(q.(high := q.high + [p], highBytes := q.highBytes + p.size), [])
    else if Returnable(c, p) then Step(q.(bounces := q.bounces + 1), [Bounced(p.(bounced := true, header := true))])
    else Step(q, [Freed(p)])
  }

  /** Takes the newest packet out of the low class. */
  function Evict(c: Config, q: Queue): Outcome<Step> {
    if q.low == [] then Aborted
    else
      var booted := q.low[|q.low| - 1];
      var rest := q.(low := q.low[..|q.low| - 1], lowBytes := q.lowBytes - booted.size);
      if c.disableTrim then Ok(Step(rest.(drops := q.drops + 1), [Freed(booted)]))
      else
        var header :- Strip(booted, c.trimSize);
        Ok(PlaceHeader(c, rest.(stripped := q.stripped + 1), header))
  }

  function AdmitHeader(c: Config, q: Queue, p: Packet): Outcome<Step> {
    var placed := PlaceHeader(c, q, p);
    if !HighFull(c, q, p) then
      var woken :- Wake(c, placed.queue);
      Ok(Step(woken, []))
    else if Returnable(c, p) then Ok(placed)
    else Ok(Step(q.(drops := q.drops + 1), placed.fates))
  }

  function PushLow(q: Queue, p: Packet): Queue {
    q.(low := q.low + [p], lowBytes := q.lowBytes + p.size)
  }

  function AdmitLow(c: Config, made: Step, p: Packet): Outcome<Step> {
    var woken :- Wake(c, PushLow(made.queue, p));
    Ok(Step(woken, made.fates))
  }

  function TrimArrival(c: Config, q: Queue, p: Packet): Outcome<Step> {
    var header :- Strip(p, c.trimSize);
    AdmitHeader(c, q.(stripped := q.stripped + 1), header)
  }

  function AdmitFull(c: Config, q: Queue, p: Packet, coin: bool): Outcome<Step> {
    if q.lowBytes + p.size <= c.maxSize then AdmitLow(c, Step(q, []), p)
    else if coin then
      var made :- Evict(c, q);
      AdmitLow(c, made, p)
    else if c.disableTrim then Ok(Step(q.(drops := q.drops + 1), [Freed(p)]))
    else TrimArrival(c, q, p)
  }

  /** A packet arrives. `failed` says that the failure generator hits it, `coin` decides which packet to
      trim when the low class is full. */
  function Receive(c: Config, q: Queue, p: Packet, failed: bool, coin: bool): Outcome<Step> {
    if failed && c.useTimeouts then Ok(Step(q, [Freed(p)]))
    else
      var arrived :- if failed && !p.header then Strip(p, MIN_TRIM) else Ok(p);
      if arrived.header then AdmitHeader(c, q, arrived) else AdmitFull(c, q, arrived, coin)
  }

  /** Congestion marking as a packet leaves the low class; `coin` falls between the two thresholds. */
  predicate Marks(c: Config, lowBytes: int, coin: bool) {
    lowBytes > c.ecnMax || (lowBytes > c.ecnMin && coin)
  }

  /** The packet in service leaves. */
  function Depart(c: Config, q: Queue, coin: bool): Outcome<Step> {
    if q.serving == Low && q.low != [] then
      var left := q.lowBytes - q.low[0].size;
      Ok(Step(q.(low := q.low[1..], lowBytes := left, serving := Idle), [Sent(q.low[0], Marks(c, left, coin))]))
    else if q.serving == High && q.high != [] then
      Ok(Step(q.(high := q.high[1..], highBytes := q.highBytes - q.high[0].size, serving := Idle),
        [Sent(q.high[0], false)]))
    else Aborted
  }

  function CompleteService(c: Config, q: Queue, coin: bool): Outcome<Step> {
    var left :- Depart(c, q, coin);
    var next :- if left.queue.low != [] || left.queue.high != [] then BeginService(c, left.queue) else Ok(left.queue);
    Ok(Step(next, left.fates))
  }

  function InitQueue(): Queue {
    Queue([], [], 0, 0, Idle, 0, 0, 0, 0)
  }

  // ---------------------------------------------------------------- the invariant

  /** The low class without its newest packet. */
  function Settled(s: seq<Packet>): seq<Packet> {
    if s == [] then [] else s[..|s| - 1]
  }

  ghost predicate Kinds(q: Queue) {
    && (forall i: nat :: i < |q.low| ==> !q.low[i].header)
    && (forall i: nat :: i < |q.high| ==> q.high[i].header)
  }

  ghost predicate Counted(q: Queue) {
    q.lowBytes == Bytes(q.low) && q.highBytes == Bytes(q.high)
  }

  ghost predicate Room(c: Config, q: Queue) {
    Bytes(Settled(q.low)) <= c.maxSize && q.highBytes <= HEADER_ROOM * c.maxSize
  }

  /** The class in service has a packet, and the link is idle only if nothing waits. */
  ghost predicate Served(c: Config, q: Queue) {
    && (q.serving == Low ==> q.low != [])
    && (q.serving == High ==> q.high != [])
    && (q.serving == Idle ==> q.low == [] && q.high == [])
    && q.crt < RATIO.high + RATIO.low
  }

  ghost predicate Inv(c: Config, q: Queue) {
    c.trimSize >= MIN_TRIM && Kinds(q) && Counted(q) && Room(c, q) && Served(c, q)
  }

  // ---------------------------------------------------------------- what one event keeps

  function Held(q: Queue, id: nat): nat {
    Count(q.low, id) + Count(q.high, id)
  }

  /** A packet at the end of the low class. */
  lemma PushLowKeeps(q: Queue, p: Packet, id: nat)
    requires Counted(q)
    ensures var t := PushLow(q, p);
            Counted(t) && Held(t, id) == Held(q, id) + One(p, id) && Settled(t.low) == q.low
  {
    BytesSnoc(q.low, p);
    CountSnoc(q.low, p, id);
  }

  lemma PlaceHeaderKeeps(c: Config, q: Queue, p: Packet, id: nat)
    requires Kinds(q) && Counted(q) && Room(c, q) && p.header
    ensures var t := PlaceHeader(c, q, p);
            && Kinds(t.queue) && Counted(t.queue) && Room(c, t.queue)
            && t.queue == q.(high := t.queue.high, highBytes := t.queue.highBytes, bounces := t.queue.bounces)
            && Held(t.queue, id) + Gone(t.fates, id) == Held(q, id) + One(p, id)
            && |q.high| <= |t.queue.high|
  {
    if !HighFull(c, q, p) {
      PushHighKeeps(q, p, id);
    }
  }

  lemma PushHighKeeps(q: Queue, p: Packet, id: nat)
    requires Kinds(q) && Counted(q) && p.header
    ensures var t := q.(high := q.high + [p], highBytes := q.highBytes + p.size);
            Kinds(t) && Counted(t) && Held(t, id) == Held(q, id) + One(p, id)
  {
    BytesSnoc(q.high, p);
    CountSnoc(q.high, p, id);
  }

  /** The queue without the newest packet of the low class. */
  lemma WithoutNewest(q: Queue, id: nat)
    requires Kinds(q) && Counted(q) && q.low != []
    ensures var p := q.low[|q.low| - 1]; var t := q.(low := Settled(q.low), lowBytes := q.lowBytes - p.size);
            Kinds(t) && Counted(t) && Held(t, id) + One(p, id) == Held(q, id) && Bytes(Settled(t.low)) <= Bytes(t.low)
  {
    SettledShrinks(Settled(q.low));
  }

  /** Eviction succeeds exactly if the low class is not empty, and makes room for at least that packet. */
  lemma EvictKeeps(c: Config, q: Queue, id: nat)
    requires Inv(c, q)
    ensures Evict(c, q).Aborted? <==> q.low == []
    ensures Evict(c, q).Ok? ==>
              var t := Evict(c, q).value;
              && Kinds(t.queue) && Counted(t.queue) && t.queue.low == Settled(q.low) && Room(c, t.queue)
              && t.queue.serving == q.serving && t.queue.crt == q.crt && |q.high| <= |t.queue.high|
              && Held(t.queue, id) + Gone(t.fates, id) == Held(q, id)
  {
    if q.low != [] {
      var booted := q.low[|q.low| - 1];
      var rest := q.(low := Settled(q.low), lowBytes := q.lowBytes - booted.size, stripped := q.stripped + 1);
      WithoutNewest(q, id);
      if c.disableTrim {
        assert Evict(c, q).value.fates == [Freed(booted)];
      } else {
        var header := booted.(header := true, size := c.trimSize);
        assert Evict(c, q) == Ok(PlaceHeader(c, rest, header));
        PlaceHeaderKeeps(c, rest, header, id);
      }
    }
  }

  lemma SettledShrinks(s: seq<Packet>)
    ensures Bytes(Settled(s)) <= Bytes(s)
  {
  }

  lemma {:induction false} SettledPop(s: seq<Packet>)
    requires s != []
    ensures Bytes(Settled(s[1..])) <= Bytes(Settled(s))
  {
    if |s| > 1 {
      assert Settled(s[1..]) == Settled(s)[1..];
      BytesFirst(Settled(s));
    }
  }

  /** What an event promises: no packet of any identity is lost or duplicated, `before` being those there
      were together with the one that arrived. */
  ghost predicate Steps(c: Config, t: Step, before: nat, id: nat) {
    Inv(c, t.queue) && Held(t.queue, id) + Gone(t.fates, id) == before
  }

  lemma WakeKeeps(c: Config, q: Queue)
    requires q.crt < RATIO.high + RATIO.low && (q.low != [] || q.high != [])
    requires (q.serving == Low ==> q.low != []) && (q.serving == High ==> q.high != [])
    ensures Wake(c, q).Ok? && Served(c, Wake(c, q).value)
    ensures var w := Wake(c, q).value; w == q.(serving := w.serving, crt := w.crt)
  {
  }

  lemma AdmitHeaderKeeps(c: Config, q: Queue, p: Packet, id: nat)
    requires Inv(c, q) && p.header
    ensures AdmitHeader(c, q, p).Ok? && Steps(c, AdmitHeader(c, q, p).value, Held(q, id) + One(p, id), id)
  {
    PlaceHeaderKeeps(c, q, p, id);
    if !HighFull(c, q, p) {
      WakeKeeps(c, PlaceHeader(c, q, p).queue);
    }
  }

  lemma AdmitLowKeeps(c: Config, q: Queue, made: Step, p: Packet, id: nat)
    requires Inv(c, q) && !p.header && |q.high| <= |made.queue.high|
    requires Kinds(made.queue) && Counted(made.queue) && Room(c, made.queue) && made.queue.lowBytes <= c.maxSize
    requires made.queue.serving == q.serving && made.queue.crt == q.crt
    ensures var t := AdmitLow(c, made, p);
            t.Ok? && Steps(c, t.value, Held(made.queue, id) + Gone(made.fates, id) + One(p, id), id)
  {
    PushLowKeeps(made.queue, p, id);
    WakeKeeps(c, PushLow(made.queue, p));
  }

  lemma AdmitEvictingKeeps(c: Config, q: Queue, p: Packet, id: nat)
    requires Inv(c, q) && !p.header && q.low != []
    ensures var e := Evict(c, q);
            e.Ok? && AdmitLow(c, e.value, p).Ok?
            && Steps(c, AdmitLow(c, e.value, p).value, Held(q, id) + One(p, id), id)
  {
    EvictKeeps(c, q, id);
    var made := Evict(c, q).value;
    AdmitLowKeeps(c, q, made, p, id);
  }

  lemma TrimArrivalKeeps(c: Config, q: Queue, p: Packet, id: nat)
    requires Inv(c, q) && !p.header
    ensures var t := TrimArrival(c, q, p);
            t.Ok? && Steps(c, t.value, Held(q, id) + One(p, id), id)
  {
    var r, h := q.(stripped := q.stripped + 1), p.(header := true, size := c.trimSize);
    assert TrimArrival(c, q, p) == AdmitHeader(c, r, h);
    assert Inv(c, r) && Held(r, id) == Held(q, id);
    AdmitHeaderKeeps(c, r, h, id);
  }

  lemma AdmitFullKeeps(c: Config, q: Queue, p: Packet, coin: bool, id: nat)
    requires Inv(c, q) && !p.header
    ensures AdmitFull(c, q, p, coin).Aborted? <==> q.low == [] && p.size > c.maxSize && coin
    ensures AdmitFull(c, q, p, coin).Ok? ==> Steps(c, AdmitFull(c, q, p, coin).value, Held(q, id) + One(p, id), id)
  {
    if q.lowBytes + p.size <= c.maxSize {
      AdmitLowKeeps(c, q, Step(q, []), p, id);
    } else if coin {
      if q.low != [] {
        AdmitEvictingKeeps(c, q, p, id);
      }
    } else if !c.disableTrim {
      TrimArrivalKeeps(c, q, p, id);
    }
  }

  /** The guard of the branch that runs into the program's `assert(0)`. */
  predicate Hopeless(c: Config, q: Queue, p: Packet, failed: bool, coin: bool) {
    !failed && !p.header && coin && q.low == [] && p.size > c.maxSize
  }

  /** An arrival keeps the invariant, and it fails exactly if a packet larger than the whole class finds
      the class empty and the coin says to evict. */
  lemma ReceiveKeeps(c: Config, q: Queue, p: Packet, failed: bool, coin: bool, id: nat)
    requires Inv(c, q)
    ensures Receive(c, q, p, failed, coin).Aborted? <==> Hopeless(c, q, p, failed, coin)
    ensures Receive(c, q, p, failed, coin).Ok? ==>
              Steps(c, Receive(c, q, p, failed, coin).value, Held(q, id) + One(p, id), id)
  {
    if failed && !c.useTimeouts && !p.header {
      AdmitHeaderKeeps(c, q, Strip(p, MIN_TRIM).value, id);
    } else if p.header {
      AdmitHeaderKeeps(c, q, p, id);
    } else if !failed {
      AdmitFullKeeps(c, q, p, coin, id);
    }
  }

  lemma DepartKeeps(c: Config, q: Queue, coin: bool, id: nat)
    requires Inv(c, q)
    ensures Depart(c, q, coin).Aborted? <==> q.serving == Idle
    ensures Depart(c, q, coin).Ok? ==>
              var t := Depart(c, q, coin).value;
              && Kinds(t.queue) && Counted(t.queue) && Room(c, t.queue) && t.queue.crt == q.crt
              && t.queue.serving == Idle
              && Held(t.queue, id) + Gone(t.fates, id) == Held(q, id)
  {
    if q.serving == Low {
      BytesFirst(q.low);
      CountFirst(q.low, id);
      SettledPop(q.low);
    } else if q.serving == High {
      BytesFirst(q.high);
      CountFirst(q.high, id);
    }
  }

  /** The event at the end of a service keeps the invariant and never finds its class empty, even though
      packets may have been evicted since the service began. */
  lemma CompleteKeeps(c: Config, q: Queue, coin: bool, id: nat)
    requires Inv(c, q)
    ensures CompleteService(c, q, coin).Aborted? <==> q.serving == Idle
    ensures CompleteService(c, q, coin).Ok? ==> Steps(c, CompleteService(c, q, coin).value, Held(q, id), id)
  {
    DepartKeeps(c, q, coin, id);
    if q.serving != Idle {
      var left := Depart(c, q, coin).value.queue;
      if left.low != [] || left.high != [] {
        WakeKeeps(c, left);
      }
    }
  }

  // ---------------------------------------------------------------- whole runs

  datatype Event = Arrive(packet: Packet, failed: bool, coin: bool) | Complete(mark: bool)

  /** A service ends only while one is going on: its event is in the event list exactly then. */
  function Next(c: Config, q: Queue, e: Event): Outcome<Step> {
    match e
    case Arrive(p, failed, coin) => Receive(c, q, p, failed, coin)
    case Complete(mark) => if q.serving == Idle then Ok(Step(q, [])) else CompleteService(c, q, mark)
  }

  function Run(c: Config, q: Queue, events: seq<Event>): Outcome<Step>
    decreases |events|
  {
    if events == [] then Ok(Step(q, []))
    else
      var s :- Next(c, q, events[0]);
      var rest :- Run(c, s.queue, events[1..]);
      Ok(Step(rest.queue, s.fates + rest.fates))
  }

  function Brings(e: Event, id: nat): nat {
    if e.Arrive? then One(e.packet, id) else 0
  }

  function Arrived(events: seq<Event>, id: nat): nat {
    if events == [] then 0 else Brings(events[0], id) + Arrived(events[1..], id)
  }

  lemma NextKeeps(c: Config, q: Queue, e: Event, id: nat)
    requires Inv(c, q)
    ensures Next(c, q, e).Aborted? <==> e.Arrive? && Hopeless(c, q, e.packet, e.failed, e.coin)
    ensures Next(c, q, e).Ok? ==> Steps(c, Next(c, q, e).value, Held(q, id) + Brings(e, id), id)
  {
    match e
    case Arrive(p, failed, coin) => ReceiveKeeps(c, q, p, failed, coin, id);
    case Complete(mark) => CompleteKeeps(c, q, mark, id);
  }

  /** Over every run: the counters are the bytes queued, the low class exceeds its limit by no more than
      its newest packet, the class in service has a packet, and every packet that arrived is queued, sent,
      returned or freed, exactly once. */
  lemma {:induction false} RunKeeps(c: Config, q: Queue, events: seq<Event>, id: nat)
    requires Inv(c, q) && Run(c, q, events).Ok?
    ensures Steps(c, Run(c, q, events).value, Held(q, id) + Arrived(events, id), id)
    decreases |events|
  {
    if events != [] {
      NextKeeps(c, q, events[0], id);
      var s := Next(c, q, events[0]).value;
      RunKeeps(c, s.queue, events[1..], id);
      GoneConcat(s.fates, Run(c, s.queue, events[1..]).value.fates, id);
    }
  }

  predicate Fits(c: Config, e: Event) {
    e.Arrive? ==> e.packet.size <= c.maxSize
  }

  /** With no packet larger than the low class, no run fails. */
  lemma {:induction false} FittingRunsSucceed(c: Config, q: Queue, events: seq<Event>)
    requires Inv(c, q) && forall i: nat :: i < |events| ==> Fits(c, events[i])
    ensures Run(c, q, events).Ok?
    decreases |events|
  {
    if events != [] {
      assert Fits(c, events[0]);
      NextKeeps(c, q, events[0], 0);
      FittingRunsSucceed(c, Next(c, q, events[0]).value.queue, events[1..]);
    }
  }

  /** From the empty queue, low occupancy is at most the limit plus one packet. */
  lemma EveryRunIsSafe(c: Config, events: seq<Event>)
    requires c.trimSize >= MIN_TRIM && forall i: nat :: i < |events| ==> Fits(c, events[i])
    ensures var r := Run(c, InitQueue(), events);
            && r.Ok? && Inv(c, r.value.queue)
            && forall id: nat :: Held(r.value.queue, id) + Gone(r.value.fates, id) == Arrived(events, id)
    ensures var q := Run(c, InitQueue(), events).value.queue;
            q.low != [] ==> q.lowBytes <= c.maxSize + q.low[|q.low| - 1].size
  {
    var q := InitQueue();
    FittingRunsSucceed(c, q, events);
    forall id: nat
      ensures Steps(c, Run(c, q, events).value, Arrived(events, id), id)
    {
      RunKeeps(c, q, events, id);
    }
    assert Steps(c, Run(c, q, events).value, Arrived(events, 0), 0);
    var low := Run(c, q, events).value.queue.low;
    assert low == [] || Bytes(low) == Bytes(Settled(low)) + low[|low| - 1].size;
  }

  // ---------------------------------------------------------------- marking is off by default

  ghost predicate SmallLow(c: Config, q: Queue) {
    forall i: nat :: i < |q.low| ==> q.low[i].size <= c.maxSize
  }

  ghost predicate Unmarked(fates: seq<Fate>) {
    forall i: nat :: i < |fates| && fates[i].Sent? ==> !fates[i].marked
  }

  predicate DefaultMarking(c: Config) {
    c.ecnMin == 2 * c.maxSize && c.ecnMax == 2 * c.maxSize
  }

  lemma CompleteUnmarked(c: Config, q: Queue, coin: bool)
    requires Inv(c, q) && SmallLow(c, q) && DefaultMarking(c) && q.serving != Idle
    ensures var t := CompleteService(c, q, coin);
            t.Ok? && Unmarked(t.value.fates) && SmallLow(c, t.value.queue)
  {
    CompleteKeeps(c, q, coin, 0);
    if q.serving == Low {
      BytesFirst(q.low);
      assert Bytes(q.low) == Bytes(Settled(q.low)) + q.low[|q.low| - 1].size;
    }
  }

  /** Arrivals send nothing on, and change the low class by no more than the packet that arrives. */
  ghost predicate Arrives(q: Queue, t: Step, p: Packet) {
    Unmarked(t.fates) && (t.queue.low == q.low || t.queue.low == q.low + [p] || t.queue.low == Settled(q.low) + [p])
  }

  lemma AdmitHeaderArrives(c: Config, q: Queue, p: Packet)
    requires AdmitHeader(c, q, p).Ok?
    ensures AdmitHeader(c, q, p).value.queue.low == q.low && Unmarked(AdmitHeader(c, q, p).value.fates)
  {
  }

  lemma AdmitFullArrives(c: Config, q: Queue, p: Packet, coin: bool)
    requires AdmitFull(c, q, p, coin).Ok?
    ensures Arrives(q, AdmitFull(c, q, p, coin).value, p)
  {
    if q.lowBytes + p.size > c.maxSize && !coin && !c.disableTrim {
      AdmitHeaderArrives(c, q.(stripped := q.stripped + 1), Strip(p, c.trimSize).value);
    }
  }

  lemma ReceiveArrives(c: Config, q: Queue, p: Packet, failed: bool, coin: bool)
    requires Receive(c, q, p, failed, coin).Ok?
    ensures Arrives(q, Receive(c, q, p, failed, coin).value, p)
  {
    if failed && !c.useTimeouts && !p.header {
      AdmitHeaderArrives(c, q, Strip(p, MIN_TRIM).value);
    } else if p.header && !(failed && c.useTimeouts) {
      AdmitHeaderArrives(c, q, p);
    } else if !failed {
      AdmitFullArrives(c, q, p, coin);
    }
  }

  lemma StaysSmall(c: Config, q: Queue, t: Step, p: Packet)
    requires SmallLow(c, q) && Arrives(q, t, p) && p.size <= c.maxSize
    ensures SmallLow(c, t.queue)
  {
  }

  /** With the thresholds that the constructor sets, no packet is ever marked, whatever the coins. */
  lemma {:induction false} NeverMarksByDefault(c: Config, q: Queue, events: seq<Event>)
    requires Inv(c, q) && SmallLow(c, q) && DefaultMarking(c) && forall i: nat :: i < |events| ==> Fits(c, events[i])
    ensures Run(c, q, events).Ok? && Unmarked(Run(c, q, events).value.fates)
    decreases |events|
  {
    if events != [] {
      assert Fits(c, events[0]);
      NextKeeps(c, q, events[0], 0);
      match events[0] {
        case Arrive(p, failed, coin) =>
          ReceiveArrives(c, q, p, failed, coin);
          StaysSmall(c, q, Receive(c, q, p, failed, coin).value, p);
        case Complete(mark) => if q.serving != Idle { CompleteUnmarked(c, q, mark); }
      }
      NeverMarksByDefault(c, Next(c, q, events[0]).value.queue, events[1..]);
    }
  }

  // ---------------------------------------------------------------- the drop counter

  function FreedCount(fates: seq<Fate>): nat {
    if fates == [] then 0 else (if fates[0].Freed? then 1 else 0) + FreedCount(fates[1..])
  }

  /** An arrival evicts a packet whose header then finds no room and no way back. */
  predicate LosesEvicted(c: Config, q: Queue, p: Packet, failed: bool, coin: bool) {
    && !failed && !p.header && coin && q.lowBytes + p.size > c.maxSize && q.low != [] && !c.disableTrim
    && q.highBytes + c.trimSize > HEADER_ROOM * c.maxSize
    && !Returnable(c, q.low[|q.low| - 1])
  }

  /** The drop counter counts every packet that is freed, except those freed by the failure generator and
      evicted ones whose header does not fit. */
  lemma DropsExactIff(c: Config, q: Queue, p: Packet, failed: bool, coin: bool)
    requires Inv(c, q) && Receive(c, q, p, failed, coin).Ok?
    ensures var t := Receive(c, q, p, failed, coin).value;
            t.queue.drops == q.drops + FreedCount(t.fates) <==>
              !(failed && c.useTimeouts) && !LosesEvicted(c, q, p, failed, coin)
  {
  }

  // ---------------------------------------------------------------- sharing the link

  /** The service started by an event, if any, with the backlog it was chosen on. */
  ghost function Log(c: Config, q: Queue, e: Event): seq<Start> {
    var t := Next(c, q, e);
    if t.Aborted? then []
    else
      var n := t.value.queue;
      if n.serving != Idle && (q.serving == Idle || e.Complete?) then [Start(n.low != [], n.high != [], n.serving)]
        else []
  }

  ghost function RunLog(c: Config, q: Queue, events: seq<Event>): seq<Start>
    requires Run(c, q, events).Ok?
    decreases |events|
  {
    if events == [] then [] else Log(c, q, events[0]) + RunLog(c, Next(c, q, events[0]).value.queue, events[1..])
  }

  lemma NextFollows(c: Config, q: Queue, e: Event)
    requires Inv(c, q) && Next(c, q, e).Ok?
    ensures var n := Next(c, q, e).value.queue;
            if Log(c, q, e) == [] then n.crt == q.crt
            else Begin(RATIO, q.crt, n.low != [], n.high != []) == Ok((n.serving, n.crt))
  {
    NextKeeps(c, q, e, 0);
  }

  lemma {:induction false} RunFollows(c: Config, q: Queue, events: seq<Event>)
    requires Inv(c, q) && Run(c, q, events).Ok?
    ensures Follows(RATIO, q.crt, RunLog(c, q, events))
    decreases |events|
  {
    if events != [] {
      var e, n := events[0], Next(c, q, events[0]).value.queue;
      NextFollows(c, q, e);
      NextKeeps(c, q, e, 0);
      RunFollows(c, n, events[1..]);
      var log := Log(c, q, e);
      assert log == [] || (log + RunLog(c, n, events[1..]))[1..] == RunLog(c, n, events[1..]);
      assert log == [] ==> log + RunLog(c, n, events[1..]) == RunLog(c, n, events[1..]);
    }
  }

  /** Over every run of the queue, `ratio.high` services of headers at most separate two services of full
      packets while full packets wait. */
  lemma LowIsNotStarved(c: Config, q: Queue, events: seq<Event>, i: nat, j: nat)
    requires Inv(c, q) && Run(c, q, events).Ok?
    requires i <= j <= |RunLog(c, q, events)| && Passes(RunLog(c, q, events)[i..j], High)
    ensures j - i <= RATIO.high
  {
    RunFollows(c, q, events);
    FairShares(RATIO, q.crt, RunLog(c, q, events), i, j, High);
  }
}
