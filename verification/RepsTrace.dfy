/**
The trace of a simulation with entropy rings, and the independent checker that reads it: which rows
the checker reports, and which traces it accepts.
 */
module RepsTrace {
  import opened Outcomes
  import opened Cyclic
  import R = RepsRing

  datatype Kind = SEND | RTX | RTS | ACK | NACK | FREEZE | UNFREEZE

  /** Where the entropy of a sent packet came from. */
  datatype EvSrc = NoSrc | FreshPop | FrozenPop | PxrPop | Explore | Random | PxrRandom | OtherSrc

  datatype FifoItem = Ev(ev: int) | Elided(more: int)

  datatype Fifo = NoFifo | Items(items: seq<FifoItem>)

  /** One row: an event and a snapshot of the ring just after it. */
  datatype Row = Row(
    n: int, time: int, src: nat, kind: Kind, ev: int, evSrc: EvSrc, ecn: int, freshCount: int, bufSize: int,
    frozenMode: bool, frozenEv: int, head: int, frozenHead: int, slots: seq<R.Slot>, fifo: Fifo)

  datatype Rule =
    | TimeDecreased | NotIncreasing | WrongFreshCount
    | FifoWasEmpty | NotFifoFront | FifoTailChanged | NotAppended | AppendedWrongEv
    | FrozenPopMismatch | PopMissing | PopOutOfOrder | DrawChangedSlots | AckNotAdded
    | MarkedAckChangedSlots | NackChangedSlots | WrongFrozenEv | StillValidAfterUnfreeze

  datatype Violation = Violation(n: int, rule: Rule)

  datatype Before = First | Prev(row: Row)

  predicate Sends(e: Row) {
    e.kind.SEND? || e.kind.RTX? || e.kind.RTS?
  }

  function When(c: bool, n: int, rule: Rule): seq<Violation> {
    if c then [Violation(n, rule)] else []
  }

  // ---------------------------------------------------------------- the rules

  function OrderRules(prev: Before, e: Row): seq<Violation> {
    When(prev.Prev? && e.time < prev.row.time, e.n, TimeDecreased)
    + When(prev.Prev? && e.n <= prev.row.n, e.n, NotIncreasing)
    + When(e.freshCount != -1 && e.freshCount != R.CountValid(e.slots), e.n, WrongFreshCount)
  }

  predicate Complete(f: Fifo) {
    f.Items? && forall i :: 0 <= i < |f.items| ==> f.items[i].Ev?
  }

  function FifoRules(prev: Before, e: Row): seq<Violation> {
    if !prev.Prev? || !Complete(e.fifo) || !Complete(prev.row.fifo) then []
    else
      var was, now := prev.row.fifo.items, e.fifo.items;
      if Sends(e) && e.evSrc.FreshPop? then
        if was == [] then [Violation(e.n, FifoWasEmpty)]
        else if was[0] != Ev(e.ev) then [Violation(e.n, NotFifoFront)]
        else When(now != was[1..], e.n, FifoTailChanged)
      else if e.kind.ACK? && |now| == |was| + 1 then
        if now[..|was|] != was then [Violation(e.n, NotAppended)]
        else When(now[|was|] != Ev(e.ev), e.n, AppendedWrongEv)
      else []
  }

  /** The first slot in which a valid `ev` has become invalid, or `-1`. */
  function PoppedSlot(was: seq<R.Slot>, now: seq<R.Slot>, ev: int, from: nat): int
    decreases |was| - from
  {
    if from >= |was| || from >= |now| then -1
    else if was[from].valid && !now[from].valid && was[from].value == ev then from
    else PoppedSlot(was, now, ev, from + 1)
  }

  /** A row that reports a fill level beyond its slots can make the checker look past the last one. */
  predicate OutOfRange(e: Row) {
    && Sends(e) && e.evSrc.FrozenPop?
    && e.bufSize > |e.slots| && (e.frozenHead - 1) % e.bufSize >= |e.slots|
  }

  /** A frozen read invalidates the slot it reads and moves on, modulo the fill level. */
  function FrozenPopRule(e: Row): seq<Violation>
    requires Sends(e) && e.evSrc.FrozenPop? && !OutOfRange(e)
  {
    var modulus := if e.bufSize > 0 then e.bufSize else |e.slots|;
    if modulus == 0 then [Violation(e.n, FrozenPopMismatch)]
    else
      var slot := e.slots[(e.frozenHead - 1) % modulus];
      When(slot.valid || slot.value != e.ev, e.n, FrozenPopMismatch)
  }

  /** A draw invalidates a slot that held its entropy, and a draw of the oldest fresh entry a certain one. */
  function PopRules(prev: Before, e: Row): seq<Violation> {
    var popped := if prev.Prev? then PoppedSlot(prev.row.slots, e.slots, e.ev, 0) else -1;
    When(popped == -1, e.n, PopMissing)
    + (if e.evSrc.FreshPop? && prev.Prev? && |e.slots| > 0 && popped != -1 then
         When(popped != (e.head - prev.row.freshCount) % |e.slots|, e.n, PopOutOfOrder)
       else [])
  }

  function SendRules(prev: Before, e: Row): seq<Violation>
    requires !OutOfRange(e)
  {
    if !Sends(e) then []
    else
      (if e.evSrc.FrozenPop? then FrozenPopRule(e)
       else if e.evSrc.FreshPop? || e.evSrc.PxrPop? then PopRules(prev, e)
       else [])
      + When((e.evSrc.Explore? || e.evSrc.Random? || e.evSrc.PxrRandom?) && prev.Prev? && prev.row.slots != e.slots,
             e.n, DrawChangedSlots)
  }

  function AckRules(prev: Before, e: Row): seq<Violation> {
    if e.kind.ACK? && e.ecn == 0 && |e.slots| > 0 then
      var slot := e.slots[(e.head - 1) % |e.slots|];
      When(!slot.valid || slot.value != e.ev, e.n, AckNotAdded)
    else if e.kind.ACK? && e.ecn == 1 then
      When(prev.Prev? && prev.row.slots != e.slots, e.n, MarkedAckChangedSlots)
    else if e.kind.NACK? then
      When(prev.Prev? && prev.row.slots != e.slots, e.n, NackChangedSlots)
    else []
  }

  function FrozenRules(e: Row): seq<Violation> {
    When(e.frozenMode && 0 <= e.frozenHead < |e.slots| && e.slots[e.frozenHead].value != e.frozenEv, e.n, WrongFrozenEv)
    + When(e.kind.UNFREEZE? && exists i :: 0 <= i < |e.slots| && e.slots[i].valid, e.n, StillValidAfterUnfreeze)
  }

  /** What the checker reports about a row. The rules about the ring apply if the ring is in use. */
  function Check(prev: Before, e: Row, live: bool): seq<Violation>
    requires live ==> !OutOfRange(e)
  {
    OrderRules(prev, e) + FifoRules(prev, e)
    + if live then SendRules(prev, e) + AckRules(prev, e) + FrozenRules(e) else []
  }

  predicate BufferIsLive(rows: seq<Row>) {
    exists k :: 0 <= k < |rows| && HasValid(rows[k].slots)
  }

  predicate HasValid(slots: seq<R.Slot>) {
    exists i :: 0 <= i < |slots| && slots[i].valid
  }

  /** The row of the same source before row `k`. */
  function Previous(rows: seq<Row>, k: nat, src: nat): Before
    requires k <= |rows|
  {
    if k == 0 then First
    else if rows[k - 1].src == src then Prev(rows[k - 1])
    else Previous(rows, k - 1, src)
  }

  function Flatten(reports: seq<seq<Violation>>): seq<Violation> {
    if reports == [] then [] else Flatten(reports[..|reports| - 1]) + reports[|reports| - 1]
  }

  /** The checker finds every slot it looks for in the first `k` rows. */
  predicate Readable(rows: seq<Row>, live: bool, k: nat)
    requires k <= |rows|
  {
    live ==> forall i :: 0 <= i < k ==> !OutOfRange(rows[i])
  }

  /** What is reported about each row, given that the rows are in order. */
  function Reports(rows: seq<Row>, live: bool): seq<seq<Violation>>
    requires Readable(rows, live, |rows|)
  {
    seq(|rows|, k requires 0 <= k < |rows| => Check(Previous(rows, k, rows[k].src), rows[k], live))
  }

  lemma FlattenSnoc(reports: seq<seq<Violation>>, k: nat)
    requires k < |reports|
    ensures Flatten(reports[..k + 1]) == Flatten(reports[..k]) + reports[k]
  {
    assert reports[..k + 1][..k] == reports[..k];
  }

  lemma {:induction false} FlattenEmptyIff(reports: seq<seq<Violation>>)
    ensures Flatten(reports) == [] <==> forall k :: 0 <= k < |reports| ==> reports[k] == []
  {
    if reports != [] {
      FlattenEmptyIff(reports[..|reports| - 1]);
    }
  }

  // ---------------------------------------------------------------- sorting

  predicate InOrder(a: Row, b: Row) {
    a.time < b.time || (a.time == b.time && a.n <= b.n)
  }

  /** The stable sort by time and row number. */
  function Insert(sorted: seq<Row>, e: Row): seq<Row> {
    if sorted == [] then [e]
    else if InOrder(sorted[|sorted| - 1], e) then sorted + [e]
    else Insert(sorted[..|sorted| - 1], e) + [sorted[|sorted| - 1]]
  }

  function Sorted(rows: seq<Row>): seq<Row> {
    if rows == [] then [] else Insert(Sorted(rows[..|rows| - 1]), rows[|rows| - 1])
  }

  lemma {:induction false} SortedOfOrdered(rows: seq<Row>)
    requires forall k :: 0 < k < |rows| ==> InOrder(rows[k - 1], rows[k])
    ensures Sorted(rows) == rows
  {
    if rows != [] {
      SortedOfOrdered(rows[..|rows| - 1]);
    }
  }

  lemma SnocAdds(rows: seq<Row>, e: Row)
    ensures multiset(rows + [e]) == multiset(rows) + multiset{e}
  {
  }

  lemma LastAdds(rows: seq<Row>)
    requires rows != []
    ensures multiset(rows) == multiset(rows[..|rows| - 1]) + multiset{rows[|rows| - 1]}
  {
    SnocAdds(rows[..|rows| - 1], rows[|rows| - 1]);
    assert rows == rows[..|rows| - 1] + [rows[|rows| - 1]];
  }

  lemma {:induction false} SortedKeepsRows(rows: seq<Row>)
    ensures multiset(Sorted(rows)) == multiset(rows)
  {
    if rows != [] {
      SortedKeepsRows(rows[..|rows| - 1]);
      InsertAdds(Sorted(rows[..|rows| - 1]), rows[|rows| - 1]);
      LastAdds(rows);
    }
  }

  lemma {:induction false} InsertAdds(sorted: seq<Row>, e: Row)
    ensures multiset(Insert(sorted, e)) == multiset(sorted) + multiset{e}
  {
    if sorted != [] {
      assert sorted == sorted[..|sorted| - 1] + [sorted[|sorted| - 1]];
      if !InOrder(sorted[|sorted| - 1], e) {
        InsertAdds(sorted[..|sorted| - 1], e);
      }
    }
  }

  /** What the checker reports about a trace. Looking past the last slot of a row raises an exception. */
  function Violations(rows: seq<Row>): Outcome<seq<Violation>> {
    var sorted := Sorted(rows);
    var live := BufferIsLive(sorted);
    if Readable(sorted, live, |sorted|) then Ok(Flatten(Reports(sorted, live))) else Aborted
  }

  // ---------------------------------------------------------------- the checker's loop

  /** The last row of each source among the first `k`. */
  ghost predicate Remembers(last: map<nat, Row>, rows: seq<Row>, k: nat)
    requires k <= |rows|
  {
    forall src: nat :: Previous(rows, k, src) == if src in last then Prev(last[src]) else First
  }

  lemma RememberOneMore(last: map<nat, Row>, rows: seq<Row>, k: nat)
    requires k < |rows| && Remembers(last, rows, k)
    ensures Remembers(last[rows[k].src := rows[k]], rows, k + 1)
  {
  }

  /** Walks the sorted rows, remembering each source's last row, and collects the violations. */
  method VerifyEvents(events: seq<Row>) returns (result: Outcome<seq<Violation>>)
    ensures result == Violations(events)
  {
    var rows := Sorted(events);
    var checkBuffer := BufferIsLive(rows);
    var last: map<nat, Row> := map[];
    ghost var readable := Readable(rows, checkBuffer, |rows|);
    ghost var reports := if readable then Reports(rows, checkBuffer) else [];
    var violations: seq<Violation> := [];
    for k := 0 to |rows|
      invariant Remembers(last, rows, k) && Readable(rows, checkBuffer, k)
      invariant readable ==> violations == Flatten(reports[..k])
    {
      var e := rows[k];
      if checkBuffer && OutOfRange(e) {
        return Aborted;
      }
      var prev := if e.src in last then Prev(last[e.src]) else First;
      var report := Check(prev, e, checkBuffer);
      if readable {
        assert report == reports[k];
        FlattenSnoc(reports, k);
      }
      violations := violations + report;
      RememberOneMore(last, rows, k);
      last := last[e.src := e];
    }
    assert readable ==> reports[..|rows|] == reports;
    return Ok(violations);
  }

  // ---------------------------------------------------------------- what the simulation writes

  /** What a source does with its ring. A packet is sent with an explored entropy, or else with whatever
      the ring yields; `rnd` is the random number drawn if that is what it comes to. */
  datatype Step =
    | CleanAck(ev: nat)
    | MarkedAck(ev: nat)
    | Refused(ev: nat)
    | SendOne(kind: Kind, explore: bool, rnd: nat)
    | Freeze(ev: nat)
    | Unfreeze

  predicate Allowed(r: R.Ring, st: Step) {
    match st
    case SendOne(kind, _, _) => kind.SEND? || kind.RTX? || kind.RTS?
    case Unfreeze => r.frozen
    case _ => true
  }

  /** A step's ring afterwards, and the event, entropy, entropy source and mark that its row reports. */
  datatype Effect = Effect(ring: R.Ring, kind: Kind, ev: int, evSrc: EvSrc, ecn: int)

  function Do(r: R.Ring, cfg: R.Config, st: Step): Outcome<Effect>
    requires r.head < |r.slots|
  {
    match st
    case CleanAck(ev) => Ok(Effect(R.Add(r, cfg, ev), ACK, ev, NoSrc, 0))
    case MarkedAck(ev) => Ok(Effect(r, ACK, ev, NoSrc, 1))
    case Refused(ev) => Ok(Effect(r, NACK, ev, NoSrc, -1))
    case SendOne(kind, explore, rnd) =>
      if explore then Ok(Effect(r, kind, rnd, Explore, -1))
      else if r.frozen then
        if r.count == 0 then Ok(Effect(r, kind, rnd, Random, -1))
        else
          var d :- R.RemoveFrozen(r, cfg);
          Ok(Effect(d.0, kind, d.1, FrozenPop, -1))
      else if r.count == 0 || r.freshCount == 0 then Ok(Effect(r, kind, rnd, Random, -1))
      else
        var d :- R.RemoveEarliestFresh(r, cfg);
        Ok(Effect(d.0, kind, d.1, FreshPop, -1))
    case Freeze(ev) => Ok(Effect(R.SetFrozenMode(r, cfg, true), FREEZE, ev, NoSrc, -1))
    case Unfreeze => Ok(Effect(R.ResetBuffer(R.SetFrozenMode(r, cfg, false)), UNFREEZE, -1, NoSrc, -1))
  }

  function RowOf(x: Effect, n: int, time: int, src: nat): Row
    requires x.ring.frozenHead < |x.ring.slots|
  {
    Row(n, time, src, x.kind, x.ev, x.evSrc, x.ecn, x.ring.freshCount, x.ring.count, x.ring.frozen,
        R.GetFrozenEv(x.ring), x.ring.head, x.ring.frozenHead, x.ring.slots, NoFifo)
  }

  // ---------------------------------------------------------------- rings in traces

  /** In a trace a ring is contiguous outside frozen mode, holds path numbers, and is blank when empty. */
  ghost predicate RingOk(r: R.Ring) {
    && R.Inv(r) && (!r.frozen ==> R.Contiguous(r))
    && (forall i :: 0 <= i < |r.slots| ==> r.slots[i].value >= 0)
    && (r.count == 0 ==> forall i :: 0 <= i < |r.slots| ==> r.slots[i] == R.EMPTY_SLOT)
  }

  lemma AddKeepsRing(r: R.Ring, cfg: R.Config, ev: nat)
    requires RingOk(r)
    ensures RingOk(R.Add(r, cfg, ev)) && |R.Add(r, cfg, ev).slots| == |r.slots|
  {
    R.AddKeepsInv(r, cfg, ev);
    if !r.frozen {
      R.AddKeepsContiguous(r, cfg, ev);
    }
  }

  lemma DrawKeepsRing(r: R.Ring, cfg: R.Config)
    requires RingOk(r) && r.count > 0 && (r.frozen || r.freshCount != 0)
    ensures var d := if r.frozen then R.RemoveFrozen(r, cfg) else R.RemoveEarliestFresh(r, cfg);
            d.Ok? && RingOk(d.value.0) && |d.value.0.slots| == |r.slots|
  {
    if r.frozen {
      R.RemoveFrozenKeepsInv(r, cfg);
    } else {
      R.CountBound(r.slots);
      R.RemoveFreshKeepsInv(r, cfg);
      R.RemoveKeepsContiguous(r, cfg);
    }
  }

  /** Every step succeeds and keeps the ring in shape, frozen only if freezing is enabled. */
  lemma DoKeepsRing(r: R.Ring, cfg: R.Config, st: Step)
    requires RingOk(r) && Allowed(r, st) && Freezable(r, cfg)
    ensures Do(r, cfg, st).Ok? && RingOk(Do(r, cfg, st).value.ring) && |Do(r, cfg, st).value.ring.slots| == |r.slots|
    ensures Freezable(Do(r, cfg, st).value.ring, cfg)
  {
    match st
    case CleanAck(ev) => AddKeepsRing(r, cfg, ev);
    case MarkedAck(ev) =>
    case Refused(ev) =>
    case SendOne(kind, explore, rnd) =>
      if !explore && r.count > 0 && (r.frozen || r.freshCount != 0) {
        DrawKeepsRing(r, cfg);
      }
    case Freeze(ev) =>
    case Unfreeze => R.ResetKeepsInv(R.SetFrozenMode(r, cfg, false));
  }

  predicate Freezable(r: R.Ring, cfg: R.Config) {
    r.frozen ==> cfg.useFreezing
  }

  /** With compressed acknowledgements a draw leaves its entry valid until its lifetime is used up. */
  predicate KeepsEntry(r: R.Ring, cfg: R.Config, st: Step) {
    && cfg.compressedAcks && st.SendOne? && !st.explore && r.count > 0
    && if r.frozen then
         r.frozenHead < |r.slots| && r.slots[r.frozenHead].valid && r.slots[r.frozenHead].lifetime > 0
       else
         && r.freshCount != 0 && 0 <= R.EarliestFresh(r) < |r.slots|
         && r.slots[R.EarliestFresh(r)].lifetime > 1
  }

  /** `prev` is the row written after the source's last step, if there was one. */
  ghost predicate Follows(prev: Before, r: R.Ring, n: int, time: int) {
    match prev
    case First => r.count == 0 && !r.frozen
    case Prev(p) => p.slots == r.slots && p.freshCount == r.freshCount && p.time <= time && p.n < n && p.fifo.NoFifo?
  }

  lemma {:induction false} PoppedSlotIs(was: seq<R.Slot>, i: nat, s: R.Slot, from: nat)
    requires from <= i < |was| && was[i].valid && !s.valid
    ensures PoppedSlot(was, was[i := s], was[i].value, from) == i
    decreases i - from
  {
    if from < i {
      PoppedSlotIs(was, i, s, from + 1);
    }
  }

  lemma {:induction false} NothingPopped(was: seq<R.Slot>, i: nat, s: R.Slot, ev: int, from: nat)
    requires i < |was| && s.valid
    ensures PoppedSlot(was, was[i := s], ev, from) == -1
    decreases |was| - from
  {
    if from < |was| {
      NothingPopped(was, i, s, ev, from + 1);
    }
  }

  /** The row of a step passes every rule, except if the ring is frozen and empty, or if the step has drawn an
      entry without using it up. */
  lemma RowPassesIff(prev: Before, r: R.Ring, cfg: R.Config, st: Step, n: int, time: int, src: nat, live: bool)
    requires RingOk(r) && Allowed(r, st) && Freezable(r, cfg) && Follows(prev, r, n, time)
    ensures Do(r, cfg, st).Ok? && RingOk(Do(r, cfg, st).value.ring)
    ensures var x := Do(r, cfg, st).value; var e := RowOf(x, n, time, src);
            && !OutOfRange(e)
            && (Check(prev, e, live) == [] <==>
                !(live && ((x.ring.frozen && x.ring.count == 0) || KeepsEntry(r, cfg, st))))
  {
    DoKeepsRing(r, cfg, st);
    var x := Do(r, cfg, st).value;
    var e := RowOf(x, n, time, src);
    assert OrderRules(prev, e) == [] && FifoRules(prev, e) == [];
    if live {
      SendPassesIff(prev, r, cfg, st, n, time, src);
      AckPasses(prev, r, cfg, st, n, time, src);
      FrozenPassesIff(r, cfg, st, n, time, src);
    }
  }

  lemma SendPassesIff(prev: Before, r: R.Ring, cfg: R.Config, st: Step, n: int, time: int, src: nat)
    requires RingOk(r) && Allowed(r, st) && Follows(prev, r, n, time)
    requires Do(r, cfg, st).Ok? && RingOk(Do(r, cfg, st).value.ring)
    ensures SendRules(prev, RowOf(Do(r, cfg, st).value, n, time, src)) == [] <==> !KeepsEntry(r, cfg, st)
  {
    if st.SendOne? && !st.explore {
      if r.frozen && r.count > 0 {
        FrozenPopPassesIff(r, cfg, st, n, time, src);
      } else if !r.frozen && r.count > 0 && r.freshCount != 0 {
        FreshPopPassesIff(prev, r, cfg, st, n, time, src);
      }
    }
  }

  lemma FrozenPopPassesIff(r: R.Ring, cfg: R.Config, st: Step, n: int, time: int, src: nat)
    requires RingOk(r) && st.SendOne? && Allowed(r, st) && !st.explore && r.frozen && r.count > 0
    requires Do(r, cfg, st).Ok? && RingOk(Do(r, cfg, st).value.ring)
    ensures Do(r, cfg, st).value.evSrc.FrozenPop?
    ensures FrozenPopRule(RowOf(Do(r, cfg, st).value, n, time, src)) == [] <==> !KeepsEntry(r, cfg, st)
  {
    var x := Do(r, cfg, st).value;
    ModIs(x.ring.frozenHead - 1, r.count);
  }

  lemma FreshPopPassesIff(prev: Before, r: R.Ring, cfg: R.Config, st: Step, n: int, time: int, src: nat)
    requires RingOk(r) && Follows(prev, r, n, time)
    requires st.SendOne? && !st.explore && !r.frozen && r.count > 0 && r.freshCount != 0
    requires Do(r, cfg, st).Ok?
    ensures Do(r, cfg, st).value.evSrc.FreshPop? && Do(r, cfg, st).value.ring.frozenHead == r.frozenHead
    ensures |Do(r, cfg, st).value.ring.slots| == |r.slots|
    ensures PopRules(prev, RowOf(Do(r, cfg, st).value, n, time, src)) == [] <==> !KeepsEntry(r, cfg, st)
  {
    R.CountBound(r.slots);
    R.EarliestIsValid(r);
    var x, i := Do(r, cfg, st).value, R.EarliestFresh(r);
    if x.ring.slots[i].valid {
      NothingPopped(r.slots, i, x.ring.slots[i], x.ev, 0);
    } else {
      PoppedSlotIs(r.slots, i, x.ring.slots[i], 0);
      ModIs(r.head - r.freshCount, |r.slots|);
    }
  }

  lemma AckPasses(prev: Before, r: R.Ring, cfg: R.Config, st: Step, n: int, time: int, src: nat)
    requires RingOk(r) && Allowed(r, st) && Follows(prev, r, n, time)
    requires Do(r, cfg, st).Ok? && RingOk(Do(r, cfg, st).value.ring)
    ensures AckRules(prev, RowOf(Do(r, cfg, st).value, n, time, src)) == []
  {
    if st.CleanAck? {
      var x := Do(r, cfg, st).value;
      ModIs(x.ring.head - 1, |r.slots|);
    }
  }

  lemma FrozenPassesIff(r: R.Ring, cfg: R.Config, st: Step, n: int, time: int, src: nat)
    requires RingOk(r) && Allowed(r, st) && Freezable(r, cfg)
    requires Do(r, cfg, st).Ok? && RingOk(Do(r, cfg, st).value.ring)
    ensures var x := Do(r, cfg, st).value;
            FrozenRules(RowOf(x, n, time, src)) == [] <==> !(x.ring.frozen && x.ring.count == 0)
  {
  }

  // ---------------------------------------------------------------- whole traces

  datatype Act = Act(src: nat, wait: nat, step: Step)

  /** History: `emptyFreeze` says that some source froze a ring that held nothing, and `kept` are the rows whose
      draw has left its entry valid. */
  datatype World = World(rings: map<nat, R.Ring>, rows: seq<Row>, time: int, emptyFreeze: bool, kept: set<nat>)

  /** A world as it starts: blank rings and an empty trace. */
  ghost predicate Init(w: World) {
    && w.rows == [] && !w.emptyFreeze && w.kept == {}
    && forall src :: src in w.rings ==> |w.rings[src].slots| > 0 && w.rings[src] == R.InitRing(|w.rings[src].slots|)
  }

  ghost predicate Possible(w: World, cfg: R.Config, a: Act) {
    a.src in w.rings && RingOk(w.rings[a.src]) && Freezable(w.rings[a.src], cfg) && Allowed(w.rings[a.src], a.step)
  }

  ghost function Perform(w: World, cfg: R.Config, a: Act): World
    requires Possible(w, cfg, a)
  {
    DoKeepsRing(w.rings[a.src], cfg, a.step);
    var x := Do(w.rings[a.src], cfg, a.step).value;
    World(w.rings[a.src := x.ring], w.rows + [RowOf(x, |w.rows| + 1, w.time + a.wait, a.src)], w.time + a.wait,
          w.emptyFreeze || (a.step.Freeze? && cfg.useFreezing && w.rings[a.src].count == 0),
          w.kept + if KeepsEntry(w.rings[a.src], cfg, a.step) then {|w.rows|} else {})
  }

  ghost function RunWorld(w: World, cfg: R.Config, acts: seq<Act>): World
    decreases |acts|
  {
    if acts == [] then w
    else RunWorld(if Possible(w, cfg, acts[0]) then Perform(w, cfg, acts[0]) else w, cfg, acts[1..])
  }

  predicate FrozenEmpty(e: Row) {
    e.frozenMode && e.bufSize == 0
  }

  /** Row `k` is reported exactly when the ring is in use and was frozen while empty, or its draw has left the
      entry valid. */
  ghost predicate Verdict(w: World, k: nat)
    requires k < |w.rows|
  {
    && !OutOfRange(w.rows[k])
    && forall live :: Check(Previous(w.rows, k, w.rows[k].src), w.rows[k], live) == []
                      <==> !(live && (FrozenEmpty(w.rows[k]) || k in w.kept))
  }

  ghost predicate TraceOk(w: World) {
    && (forall k :: 0 <= k < |w.rows| ==> w.rows[k].n == k + 1 && w.rows[k].time <= w.time)
    && (forall k :: 0 < k < |w.rows| ==> w.rows[k - 1].time <= w.rows[k].time)
    && (forall k :: 0 <= k < |w.rows| ==> Verdict(w, k))
    && (forall k :: k in w.kept ==> k < |w.rows|)
  }

  ghost predicate RingsOk(w: World, cfg: R.Config) {
    && (forall src :: src in w.rings ==> RingOk(w.rings[src]) && Freezable(w.rings[src], cfg))
    && (forall src :: src in w.rings ==>
          Follows(Previous(w.rows, |w.rows|, src), w.rings[src], |w.rows| + 1, w.time))
  }

  ghost predicate FreezesOk(w: World) {
    && (w.emptyFreeze <==> exists k :: 0 <= k < |w.rows| && FrozenEmpty(w.rows[k]))
    && (forall src :: src in w.rings && w.rings[src].frozen && w.rings[src].count == 0 ==> w.emptyFreeze)
  }

  lemma {:induction false} PreviousPrefix(rows: seq<Row>, e: Row, k: nat, src: nat)
    requires k <= |rows|
    ensures Previous(rows + [e], k, src) == Previous(rows, k, src)
  {
    if k > 0 && rows[k - 1].src != src {
      PreviousPrefix(rows, e, k - 1, src);
    }
  }

  lemma PerformKeepsTrace(w: World, cfg: R.Config, a: Act)
    requires TraceOk(w) && RingsOk(w, cfg) && Possible(w, cfg, a)
    ensures TraceOk(Perform(w, cfg, a))
  {
    var t := Perform(w, cfg, a);
    forall k | 0 <= k < |t.rows| ensures Verdict(t, k) {
      PreviousPrefix(w.rows, t.rows[|w.rows|], k, t.rows[k].src);
      if k < |w.rows| {
        assert Verdict(w, k);
      } else {
        NewRowVerdict(w, cfg, a, Previous(w.rows, |w.rows|, a.src));
      }
    }
  }

  lemma NewRowVerdict(w: World, cfg: R.Config, a: Act, prev: Before)
    requires Possible(w, cfg, a) && Follows(prev, w.rings[a.src], |w.rows| + 1, w.time)
    ensures var e := Perform(w, cfg, a).rows[|w.rows|];
            && !OutOfRange(e)
            && forall live :: Check(prev, e, live) == []
                              <==> !(live && (FrozenEmpty(e) || KeepsEntry(w.rings[a.src], cfg, a.step)))
  {
    LaterStillFollows(prev, w.rings[a.src], |w.rows| + 1, w.time, a.wait);
    RowVerdict(prev, w.rings[a.src], cfg, a.step, |w.rows| + 1, w.time + a.wait, a.src);
  }

  lemma RowVerdict(prev: Before, r: R.Ring, cfg: R.Config, st: Step, n: int, time: int, src: nat)
    requires RingOk(r) && Allowed(r, st) && Freezable(r, cfg) && Follows(prev, r, n, time)
    ensures Do(r, cfg, st).Ok? && RingOk(Do(r, cfg, st).value.ring)
    ensures var e := RowOf(Do(r, cfg, st).value, n, time, src);
            && !OutOfRange(e)
            && forall live :: Check(prev, e, live) == [] <==> !(live && (FrozenEmpty(e) || KeepsEntry(r, cfg, st)))
  {
    RowPassesIff(prev, r, cfg, st, n, time, src, true);
    RowPassesIff(prev, r, cfg, st, n, time, src, false);
  }

  lemma LaterStillFollows(prev: Before, r: R.Ring, n: int, time: int, wait: nat)
    requires Follows(prev, r, n, time)
    ensures Follows(prev, r, n, time + wait) && Follows(prev, r, n + 1, time + wait)
  {
  }

  lemma PerformKeepsRings(w: World, cfg: R.Config, a: Act)
    requires RingsOk(w, cfg) && Possible(w, cfg, a)
    ensures RingsOk(Perform(w, cfg, a), cfg)
  {
    var t := Perform(w, cfg, a);
    var e := t.rows[|w.rows|];
    DoKeepsRing(w.rings[a.src], cfg, a.step);
    forall src | src in t.rings
      ensures Follows(Previous(t.rows, |t.rows|, src), t.rings[src], |t.rows| + 1, t.time)
    {
      if src != a.src {
        PreviousPrefix(w.rows, e, |w.rows|, src);
        LaterStillFollows(Previous(w.rows, |w.rows|, src), w.rings[src], |w.rows| + 1, w.time, a.wait);
      }
    }
  }

  /** A ring is frozen while empty only because it was frozen while empty. */
  lemma FrozenEmptyOnlyByFreeze(r: R.Ring, cfg: R.Config, st: Step)
    requires RingOk(r) && Allowed(r, st) && Freezable(r, cfg) && Do(r, cfg, st).Ok?
    ensures var t := Do(r, cfg, st).value.ring;
            t.frozen && t.count == 0 ==> (r.frozen && r.count == 0) || (st.Freeze? && cfg.useFreezing && r.count == 0)
    ensures st.Freeze? && cfg.useFreezing && r.count == 0 ==>
              Do(r, cfg, st).value.ring.frozen && Do(r, cfg, st).value.ring.count == 0
  {
  }

  lemma PerformKeepsFreezes(w: World, cfg: R.Config, a: Act)
    requires FreezesOk(w) && Possible(w, cfg, a)
    ensures FreezesOk(Perform(w, cfg, a))
  {
    var t := Perform(w, cfg, a);
    DoKeepsRing(w.rings[a.src], cfg, a.step);
    FrozenEmptyOnlyByFreeze(w.rings[a.src], cfg, a.step);
    assert forall k :: 0 <= k < |w.rows| ==> t.rows[k] == w.rows[k];
    assert FrozenEmpty(t.rows[|w.rows|]) <==> t.rings[a.src].frozen && t.rings[a.src].count == 0;
    if w.emptyFreeze {
      var k :| 0 <= k < |w.rows| && FrozenEmpty(w.rows[k]);
      assert FrozenEmpty(t.rows[k]);
    }
  }

  lemma {:induction false} RunKeeps(w: World, cfg: R.Config, acts: seq<Act>)
    requires TraceOk(w) && RingsOk(w, cfg) && FreezesOk(w)
    ensures var t := RunWorld(w, cfg, acts); TraceOk(t) && RingsOk(t, cfg) && FreezesOk(t)
    decreases |acts|
  {
    if acts == [] {
    } else if Possible(w, cfg, acts[0]) {
      PerformKeepsTrace(w, cfg, acts[0]);
      PerformKeepsRings(w, cfg, acts[0]);
      PerformKeepsFreezes(w, cfg, acts[0]);
      RunKeeps(Perform(w, cfg, acts[0]), cfg, acts[1..]);
    } else {
      RunKeeps(w, cfg, acts[1..]);
    }
  }

  /** Whatever the settings, the checker reads the trace of every run, of any number of sources, and accepts it
      if and only if no ring was ever in use, or no source froze an empty ring and no draw left its entry
      valid. */
  lemma CheckerAcceptsIff(w: World, cfg: R.Config, acts: seq<Act>)
    requires Init(w)
    ensures var t := RunWorld(w, cfg, acts);
            && Violations(t.rows).Ok?
            && (Violations(t.rows).value == [] <==> (!t.emptyFreeze && t.kept == {}) || !BufferIsLive(t.rows))
  {
    InitWorldOk(w, cfg);
    RunKeeps(w, cfg, acts);
    var t := RunWorld(w, cfg, acts);
    SortedOfOrdered(t.rows);
    var live := BufferIsLive(t.rows);
    TraceIsReadable(t, live);
    FlattenEmptyIff(Reports(t.rows, live));
    ReportsEmptyIff(t, live);
  }

  lemma TraceIsReadable(w: World, live: bool)
    requires TraceOk(w)
    ensures Readable(w.rows, live, |w.rows|)
  {
    forall k | 0 <= k < |w.rows| ensures !OutOfRange(w.rows[k]) {
      assert Verdict(w, k);
    }
  }

  lemma ReportsEmptyIff(w: World, live: bool)
    requires TraceOk(w) && FreezesOk(w) && Readable(w.rows, live, |w.rows|)
    ensures (forall k :: 0 <= k < |w.rows| ==> Reports(w.rows, live)[k] == [])
            <==> (!w.emptyFreeze && w.kept == {}) || !live
  {
    forall k | 0 <= k < |w.rows|
      ensures Reports(w.rows, live)[k] == [] <==> !(live && (FrozenEmpty(w.rows[k]) || k in w.kept))
    {
      assert Verdict(w, k);
    }
    if w.kept != {} {
      var k :| k in w.kept;
      assert k < |w.rows|;
    }
  }

  lemma InitWorldOk(w: World, cfg: R.Config)
    requires Init(w)
    ensures TraceOk(w) && RingsOk(w, cfg) && FreezesOk(w)
  {
    forall src | src in w.rings ensures RingOk(w.rings[src]) {
      R.InitInv(|w.rings[src].slots|);
    }
  }

  // ---------------------------------------------------------------- traces that are rejected

  /** Two sources with rings of one slot. */
  function TwoSources(): World {
    World(map[0 := R.InitRing(1), 1 := R.InitRing(1)], [], 0, false, {})
  }

  lemma PerformOne(w: World, cfg: R.Config, a: Act, rest: seq<Act>)
    requires Possible(w, cfg, a)
    ensures RunWorld(w, cfg, [a] + rest) == RunWorld(Perform(w, cfg, a), cfg, rest)
  {
    assert ([a] + rest)[1..] == rest;
  }

  lemma FirstAckIsLive(cfg: R.Config, ev: nat)
    ensures var w := TwoSources(); var a := Act(0, 0, CleanAck(ev));
            && Init(w) && Possible(w, cfg, a)
            && var t := Perform(w, cfg, a);
               && |t.rows| == 1 && t.rows[0].slots == [R.Slot(ev, true, cfg.maxLifetime)]
               && t.rings == map[0 := R.Ring([R.Slot(ev, true, cfg.maxLifetime)], 0, 1, 0, 1, false),
                 1 := R.InitRing(1)]
               && !t.emptyFreeze && t.kept == {}
  {
    R.InitInv(1);
    assert R.InitRing(1).slots == [R.EMPTY_SLOT];
    assert [R.EMPTY_SLOT][0 := R.Slot(ev, true, cfg.maxLifetime)] == [R.Slot(ev, true, cfg.maxLifetime)];
  }

  /** The checker rejects a run in which one source uses its ring and another one freezes while its own is
      empty, as it does when a timeout comes before its first acknowledgement. */
  lemma EmptyFreezeIsRejected(cfg: R.Config, ev: nat)
    requires cfg.useFreezing
    ensures Init(TwoSources())
    ensures var t := RunWorld(TwoSources(), cfg, [Act(0, 0, CleanAck(ev)), Act(1, 0, Freeze(ev))]);
            Violations(t.rows).Ok? && Violations(t.rows).value != []
  {
    var w := TwoSources();
    var ack, freeze := Act(0, 0, CleanAck(ev)), Act(1, 0, Freeze(ev));
    FirstAckIsLive(cfg, ev);
    var t := Perform(w, cfg, ack);
    R.InitInv(1);
    PerformOne(w, cfg, ack, [freeze]);
    LastAct(t, cfg, freeze);
    CheckerAcceptsIff(w, cfg, [ack] + [freeze]);
    assert HasValid(Perform(t, cfg, freeze).rows[0].slots) by {
      assert t.rows[0].slots[0].valid;
    }
  }

  /** It also rejects every run in which a draw does not use up its entry. */
  lemma CompressedDrawIsRejected(cfg: R.Config, ev: nat)
    requires cfg.compressedAcks && cfg.maxLifetime > 1
    ensures Init(TwoSources())
    ensures var t := RunWorld(TwoSources(), cfg, [Act(0, 0, CleanAck(ev)), Act(0, 0, SendOne(SEND, false, 0))]);
            Violations(t.rows).Ok? && Violations(t.rows).value != []
  {
    var w := TwoSources();
    var ack, send := Act(0, 0, CleanAck(ev)), Act(0, 0, SendOne(SEND, false, 0));
    FirstAckIsLive(cfg, ev);
    var t := Perform(w, cfg, ack);
    DoKeepsRing(w.rings[0], cfg, ack.step);
    PerformOne(w, cfg, ack, [send]);
    LastAct(t, cfg, send);
    CheckerAcceptsIff(w, cfg, [ack] + [send]);
    assert HasValid(Perform(t, cfg, send).rows[0].slots) by {
      assert t.rows[0].slots[0].valid;
    }
  }

  lemma LastAct(w: World, cfg: R.Config, a: Act)
    requires Possible(w, cfg, a)
    ensures RunWorld(w, cfg, [a]) == Perform(w, cfg, a)
  {
    PerformOne(w, cfg, a, []);
    assert [a] + [] == [a];
  }
}
