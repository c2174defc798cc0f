/**
The rules of the trace checker, each said of a row and the row of its source before it: a row is reported for a rule
exactly if it breaks it.
 */
module TraceRules {
  import opened Outcomes
  import opened Cyclic
  import opened RepsTrace
  import R = RepsRing

  // ---------------------------------------------------------------- what the rules say

  /** The rules that are about the ring apply only if some ring is in use. */
  predicate AboutRing(rule: Rule) {
    match rule
    case FrozenPopMismatch | PopMissing | PopOutOfOrder | DrawChangedSlots | AckNotAdded | MarkedAckChangedSlots |
      NackChangedSlots | WrongFrozenEv | StillValidAfterUnfreeze => true
    case _ => false
  }

  /** Slot `i` is the one that was written last. */
  predicate WrittenLast(e: Row, i: int) {
    0 <= i < |e.slots| && (i + 1 - e.head) % |e.slots| == 0
  }

  /** Slot `i` held the entropy of the row before it, and does so no longer. */
  predicate Drawn(was: seq<R.Slot>, e: Row, i: int) {
    0 <= i < |was| && i < |e.slots| && was[i].valid && !e.slots[i].valid && was[i].value == e.ev
  }

  /** Slot `i` is the first of those. */
  ghost predicate FirstDrawn(was: seq<R.Slot>, e: Row, i: int) {
    Drawn(was, e, i) && forall j :: 0 <= j < i ==> !Drawn(was, e, j)
  }

  /** Slot `i` held the oldest of `count` entries. */
  predicate Oldest(e: Row, count: int, i: int) {
    0 <= i < |e.slots| && (i + count - e.head) % |e.slots| == 0
  }

  /** Slot `i` is the one that a frozen read has just left, among as many as are filled. */
  predicate JustRead(e: Row, i: int) {
    var filled := if e.bufSize > 0 then e.bufSize else |e.slots|;
    0 <= i < |e.slots| && i < filled && (i + 1 - e.frozenHead) % filled == 0
  }

  /** Both rows show the whole queue. */
  predicate Queues(prev: Before, e: Row) {
    prev.Prev? && Complete(prev.row.fifo) && Complete(e.fifo)
  }

  predicate DrawsFresh(e: Row) {
    Sends(e) && e.evSrc.FreshPop?
  }

  predicate Grows(was: seq<FifoItem>, e: Row) {
    e.kind.ACK? && e.fifo.Items? && |e.fifo.items| == |was| + 1
  }

  predicate SlotsChange(prev: Before, e: Row) {
    prev.Prev? && prev.row.slots != e.slots
  }

  ghost predicate BreaksFifo(prev: Before, e: Row, rule: Rule)
    requires Queues(prev, e)
  {
    var was, now := prev.row.fifo.items, e.fifo.items;
    match rule
    case FifoWasEmpty => DrawsFresh(e) && was == []
    case NotFifoFront => DrawsFresh(e) && was != [] && was[0] != Ev(e.ev)
    case FifoTailChanged => DrawsFresh(e) && was != [] && was[0] == Ev(e.ev) && was != [Ev(e.ev)] + now
    case NotAppended => Grows(was, e) && !(was <= now)
    case AppendedWrongEv => Grows(was, e) && was <= now && now != was + [Ev(e.ev)]
    case _ => false
  }

  ghost predicate BreaksDraw(prev: Before, e: Row, rule: Rule)
    requires Sends(e)
  {
    match rule
    case FrozenPopMismatch =>
      e.evSrc.FrozenPop? && !exists i :: JustRead(e, i) && !e.slots[i].valid && e.slots[i].value == e.ev
    case PopMissing =>
      (e.evSrc.FreshPop? || e.evSrc.PxrPop?) && !(prev.Prev? && exists i :: Drawn(prev.row.slots, e, i))
    case PopOutOfOrder =>
      && e.evSrc.FreshPop? && prev.Prev?
      && exists i :: FirstDrawn(prev.row.slots, e, i) && !Oldest(e, prev.row.freshCount, i)
    case DrawChangedSlots =>
      (e.evSrc.Explore? || e.evSrc.Random? || e.evSrc.PxrRandom?) && SlotsChange(prev, e)
    case _ => false
  }

  /** The row `e` breaks the rule, `prev` being the row of its source before it. */
  ghost predicate Breaks(prev: Before, e: Row, rule: Rule) {
    match rule
    case TimeDecreased => prev.Prev? && e.time < prev.row.time
    case NotIncreasing => prev.Prev? && e.n <= prev.row.n
    case WrongFreshCount => e.freshCount != -1 && e.freshCount != |set i | 0 <= i < |e.slots| && e.slots[i].valid|
    case FifoWasEmpty | NotFifoFront | FifoTailChanged | NotAppended | AppendedWrongEv =>
      Queues(prev, e) && BreaksFifo(prev, e, rule)
    case FrozenPopMismatch | PopMissing | PopOutOfOrder | DrawChangedSlots => Sends(e) && BreaksDraw(prev, e, rule)
    case AckNotAdded =>
      && e.kind.ACK? && e.ecn == 0
      && exists i :: WrittenLast(e, i) && !(e.slots[i].valid && e.slots[i].value == e.ev)
    case MarkedAckChangedSlots => e.kind.ACK? && e.ecn == 1 && SlotsChange(prev, e)
    case NackChangedSlots => e.kind.NACK? && SlotsChange(prev, e)
    case WrongFrozenEv =>
      e.frozenMode && 0 <= e.frozenHead < |e.slots| && e.slots[e.frozenHead].value != e.frozenEv
    case StillValidAfterUnfreeze => e.kind.UNFREEZE? && exists i :: 0 <= i < |e.slots| && e.slots[i].valid
  }

  /** `reports` are the violations of row `e` against the rules that apply. */
  ghost predicate Exactly(reports: seq<Violation>, prev: Before, e: Row, rules: set<Rule>) {
    forall v :: v in reports <==> v.n == e.n && v.rule in rules && Breaks(prev, e, v.rule)
  }

  // ---------------------------------------------------------------- the checker follows the rules

  lemma {:induction false} CountIsCardinal(slots: seq<R.Slot>)
    ensures R.CountValid(slots) == |set i | 0 <= i < |slots| && slots[i].valid|
  {
    var valid := set i | 0 <= i < |slots| && slots[i].valid;
    if slots == [] {
      assert valid == {};
    } else {
      var rest, n := slots[..|slots| - 1], |slots| - 1;
      CountIsCardinal(rest);
      var before := set i | 0 <= i < |rest| && rest[i].valid;
      assert forall i :: 0 <= i < n ==> rest[i] == slots[i];
      assert valid == before + if slots[n].valid then {n} else {};
    }
  }

  lemma OrderFollows(prev: Before, e: Row)
    ensures Exactly(OrderRules(prev, e), prev, e, {TimeDecreased, NotIncreasing, WrongFreshCount})
  {
    CountIsCardinal(e.slots);
  }

  lemma FifoFollows(prev: Before, e: Row)
    ensures Exactly(FifoRules(prev, e), prev, e,
                    {FifoWasEmpty, NotFifoFront, FifoTailChanged, NotAppended, AppendedWrongEv})
  {
    if Queues(prev, e) {
      var was, now := prev.row.fifo.items, e.fifo.items;
      if was != [] && was[0] == Ev(e.ev) {
        assert was == [Ev(e.ev)] + was[1..];
      }
      if Grows(was, e) && was <= now {
        assert now == was + [now[|was|]];
      }
    }
  }

  lemma {:induction false} PoppedIsFirst(was: seq<R.Slot>, e: Row, from: nat)
    ensures var i := PoppedSlot(was, e.slots, e.ev, from);
            if i == -1 then forall j :: from <= j ==> !Drawn(was, e, j)
            else from <= i && Drawn(was, e, i) && forall j :: from <= j < i ==> !Drawn(was, e, j)
    decreases |was| - from
  {
    if from < |was| && from < |e.slots| && !Drawn(was, e, from) {
      PoppedIsFirst(was, e, from + 1);
    }
  }

  /** A remainder is the one number of its class in the range. */
  lemma RemainderIs(x: int, n: nat, i: int)
    requires n > 0
    ensures 0 <= i < n && (i - x) % n == 0 <==> i == x % n
  {
    assert x == n * (x / n) + x % n;
    if 0 <= i < n && (i - x) % n == 0 {
      assert i - x == n * ((i - x) / n);
      assert x == n * (-((i - x) / n)) + i;
      DivModUnique(x, n, -((i - x) / n), i);
    }
    if i == x % n {
      assert i - x == n * (-(x / n));
      DivModUnique(i - x, n, -(x / n), 0);
    }
  }

  lemma FrozenPopFollows(prev: Before, e: Row)
    requires Sends(e) && e.evSrc.FrozenPop? && !OutOfRange(e)
    ensures Exactly(FrozenPopRule(e), prev, e, {FrozenPopMismatch})
  {
    var filled := if e.bufSize > 0 then e.bufSize else |e.slots|;
    if filled > 0 {
      forall i ensures JustRead(e, i) <==> i == (e.frozenHead - 1) % filled && i < |e.slots| {
        RemainderIs(e.frozenHead - 1, filled, i);
      }
    }
  }

  lemma PopFollows(prev: Before, e: Row)
    requires Sends(e) && (e.evSrc.FreshPop? || e.evSrc.PxrPop?)
    ensures Exactly(PopRules(prev, e), prev, e, {PopMissing, PopOutOfOrder})
  {
    if prev.Prev? {
      var was := prev.row.slots;
      PoppedIsFirst(was, e, 0);
      var popped := PoppedSlot(was, e.slots, e.ev, 0);
      if popped != -1 {
        RemainderIs(e.head - prev.row.freshCount, |e.slots|, popped);
        assert FirstDrawn(was, e, popped);
        forall i | FirstDrawn(was, e, i) ensures i == popped {
          assert !(i < popped) && !(popped < i);
        }
      }
    }
  }

  lemma SendFollows(prev: Before, e: Row)
    requires !OutOfRange(e)
    ensures Exactly(SendRules(prev, e), prev, e, {FrozenPopMismatch, PopMissing, PopOutOfOrder, DrawChangedSlots})
  {
    if Sends(e) {
      if e.evSrc.FrozenPop? {
        FrozenPopFollows(prev, e);
      } else if e.evSrc.FreshPop? || e.evSrc.PxrPop? {
        PopFollows(prev, e);
      }
    }
  }

  lemma AckFollows(prev: Before, e: Row)
    ensures Exactly(AckRules(prev, e), prev, e, {AckNotAdded, MarkedAckChangedSlots, NackChangedSlots})
  {
    if |e.slots| > 0 {
      forall i ensures WrittenLast(e, i) <==> i == (e.head - 1) % |e.slots| {
        RemainderIs(e.head - 1, |e.slots|, i);
      }
    }
  }

  lemma FrozenFollows(prev: Before, e: Row)
    ensures Exactly(FrozenRules(e), prev, e, {WrongFrozenEv, StillValidAfterUnfreeze})
  {
  }

  /** A row is reported for a rule exactly if it breaks it, and the rule applies. */
  lemma ReportedIff(prev: Before, e: Row, live: bool, v: Violation)
    requires live ==> !OutOfRange(e)
    ensures v in Check(prev, e, live) <==> v.n == e.n && Breaks(prev, e, v.rule) && (AboutRing(v.rule) ==> live)
  {
    OrderFollows(prev, e);
    FifoFollows(prev, e);
    if live {
      SendFollows(prev, e);
      AckFollows(prev, e);
      FrozenFollows(prev, e);
    }
  }

  // ---------------------------------------------------------------- whole traces

  /** Some ring is in use. */
  predicate InUse(rows: seq<Row>) {
    exists e, i :: e in rows && 0 <= i < |e.slots| && e.slots[i].valid
  }

  /** `prev` is the last row of the same source before row `k`, if there is one. */
  ghost predicate IsBefore(rows: seq<Row>, k: nat, prev: Before)
    requires k < |rows|
  {
    match prev
    case First => forall j :: 0 <= j < k ==> rows[j].src != rows[k].src
    case Prev(p) =>
      exists j :: 0 <= j < k && rows[j] == p && p.src == rows[k].src
                  && forall i :: j < i < k ==> rows[i].src != rows[k].src
  }

  lemma {:induction false} PreviousIsBefore(rows: seq<Row>, k: nat, m: nat)
    requires k < |rows| && m <= k && forall i :: m <= i < k ==> rows[i].src != rows[k].src
    ensures IsBefore(rows, k, Previous(rows, m, rows[k].src))
    decreases m
  {
    if m > 0 && rows[m - 1].src != rows[k].src {
      PreviousIsBefore(rows, k, m - 1);
    }
  }

  lemma BeforeIsUnique(rows: seq<Row>, k: nat, a: Before, b: Before)
    requires k < |rows| && IsBefore(rows, k, a) && IsBefore(rows, k, b)
    ensures a == b
  {
    if a.Prev? && b.Prev? {
      var i :| 0 <= i < k && rows[i] == a.row && a.row.src == rows[k].src
               && forall j :: i < j < k ==> rows[j].src != rows[k].src;
      var j :| 0 <= j < k && rows[j] == b.row && b.row.src == rows[k].src
               && forall i :: j < i < k ==> rows[i].src != rows[k].src;
      assert !(i < j) && !(j < i);
    }
  }

  /** Row `k` of the sorted trace breaks the rule. */
  ghost predicate BreaksAt(rows: seq<Row>, k: nat, rule: Rule) {
    k < |rows| && exists prev :: IsBefore(rows, k, prev) && Breaks(prev, rows[k], rule)
  }

  lemma BreaksAtIff(rows: seq<Row>, k: nat, rule: Rule)
    requires k < |rows|
    ensures BreaksAt(rows, k, rule) <==> Breaks(Previous(rows, k, rows[k].src), rows[k], rule)
  {
    PreviousIsBefore(rows, k, k);
    forall prev | IsBefore(rows, k, prev) ensures prev == Previous(rows, k, rows[k].src) {
      BeforeIsUnique(rows, k, prev, Previous(rows, k, rows[k].src));
    }
  }

  lemma {:induction false} FlattenMembers(reports: seq<seq<Violation>>, v: Violation)
    ensures v in Flatten(reports) <==> exists k :: 0 <= k < |reports| && v in reports[k]
  {
    if reports != [] {
      var rest, n := reports[..|reports| - 1], |reports| - 1;
      FlattenMembers(rest, v);
      if v in Flatten(rest) {
        var k :| 0 <= k < |rest| && v in rest[k];
        assert v in reports[k];
      }
      if k :| 0 <= k < |reports| && v in reports[k] {
        assert k == n || v in rest[k];
      }
    }
  }

  lemma InUseIsLive(rows: seq<Row>)
    ensures BufferIsLive(Sorted(rows)) <==> InUse(rows)
  {
    SortedKeepsRows(rows);
    var sorted := Sorted(rows);
    if BufferIsLive(sorted) {
      var k :| 0 <= k < |sorted| && HasValid(sorted[k].slots);
      assert sorted[k] in multiset(sorted);
      assert sorted[k] in rows;
    }
    if InUse(rows) {
      var e, i :| e in rows && 0 <= i < |e.slots| && e.slots[i].valid;
      assert e in multiset(rows);
      assert e in sorted;
      var k :| 0 <= k < |sorted| && sorted[k] == e;
      assert HasValid(sorted[k].slots);
    }
  }

  /** The sorted trace is in order. */
  lemma {:induction false} SortedIsInOrder(rows: seq<Row>)
    ensures AllInOrder(Sorted(rows))
  {
    if rows != [] {
      SortedIsInOrder(rows[..|rows| - 1]);
      InsertIsInOrder(Sorted(rows[..|rows| - 1]), rows[|rows| - 1]);
    }
  }

  ghost predicate AllInOrder(rows: seq<Row>) {
    forall i, j :: 0 <= i < j < |rows| ==> InOrder(rows[i], rows[j])
  }

  lemma AddLast(rows: seq<Row>, last: Row)
    requires AllInOrder(rows) && forall x :: x in rows ==> InOrder(x, last)
    ensures AllInOrder(rows + [last])
  {
    forall i, j | 0 <= i < j < |rows + [last]| ensures InOrder((rows + [last])[i], (rows + [last])[j]) {
      assert rows[i] in rows;
    }
  }

  lemma {:induction false} InsertIsInOrder(sorted: seq<Row>, e: Row)
    requires AllInOrder(sorted)
    ensures AllInOrder(Insert(sorted, e))
    ensures forall x :: x in Insert(sorted, e) <==> x == e || x in sorted
  {
    if sorted != [] {
      var rest, last := sorted[..|sorted| - 1], sorted[|sorted| - 1];
      assert sorted == rest + [last];
      forall x | x in rest ensures InOrder(x, last) {
        var i :| 0 <= i < |rest| && rest[i] == x;
        assert sorted[i] == x;
      }
      if InOrder(last, e) {
        AddLast(sorted, e);
      } else {
        InsertIsInOrder(rest, e);
        AddLast(Insert(rest, e), last);
      }
    }
  }

  lemma ReadableIff(rows: seq<Row>)
    ensures Readable(Sorted(rows), InUse(rows), |Sorted(rows)|)
            <==> !(InUse(rows) && exists e :: e in rows && OutOfRange(e))
  {
    SortedKeepsRows(rows);
    var sorted := Sorted(rows);
    forall e ensures e in rows <==> e in sorted {
      assert e in multiset(rows) <==> e in multiset(sorted);
    }
  }

  /** Some row with number `n` breaks the rule. */
  ghost predicate BrokenAt(sorted: seq<Row>, rule: Rule, n: int) {
    exists k: nat :: BreaksAt(sorted, k, rule) && sorted[k].n == n
  }

  lemma ReportsAreBreaks(sorted: seq<Row>, live: bool, v: Violation)
    requires Readable(sorted, live, |sorted|)
    ensures v in Flatten(Reports(sorted, live)) <==> (AboutRing(v.rule) ==> live) && BrokenAt(sorted, v.rule, v.n)
  {
    var reports := Reports(sorted, live);
    FlattenMembers(reports, v);
    forall k: nat | k < |sorted|
      ensures v in reports[k] <==> (AboutRing(v.rule) ==> live) && BreaksAt(sorted, k, v.rule) && sorted[k].n == v.n
    {
      ReportedIff(Previous(sorted, k, sorted[k].src), sorted[k], live, v);
      BreaksAtIff(sorted, k, v.rule);
    }
  }

  /** The checker fails exactly if a ring is in use and a row reports a fill level that makes it look past its slots.
      Otherwise it reports exactly the rows that break a rule, each with that rule. */
  lemma CheckerIsExact(rows: seq<Row>, v: Violation)
    ensures Violations(rows).Aborted? <==> InUse(rows) && exists e :: e in rows && OutOfRange(e)
    ensures Violations(rows).Ok? ==>
              (v in Violations(rows).value <==>
                 (AboutRing(v.rule) ==> InUse(rows)) && BrokenAt(Sorted(rows), v.rule, v.n))
  {
    InUseIsLive(rows);
    ReadableIff(rows);
    if Violations(rows).Ok? {
      ReportsAreBreaks(Sorted(rows), InUse(rows), v);
    }
  }

  /** If nothing is reported about a trace with a ring in use, every row follows every rule. */
  lemma AcceptedIsRight(rows: seq<Row>, k: nat, rule: Rule)
    requires Violations(rows) == Ok([]) && InUse(rows)
    ensures !BreaksAt(Sorted(rows), k, rule)
  {
    if BreaksAt(Sorted(rows), k, rule) {
      CheckerIsExact(rows, Violation(Sorted(rows)[k].n, rule));
      assert BrokenAt(Sorted(rows), rule, Sorted(rows)[k].n);
    }
  }

  // ---------------------------------------------------------------- a forged acknowledgement

  /** An acknowledgement that was not marked. */
  predicate CleanAckRow(e: Row) {
    e.kind.ACK? && e.ecn == 0
  }

  /** Every such row shows its entropy in the slot written last. */
  ghost predicate AcksAdded(rows: seq<Row>) {
    forall k :: 0 <= k < |rows| && CleanAckRow(rows[k]) ==>
      exists i :: WrittenLast(rows[k], i) && rows[k].slots[i].valid && rows[k].slots[i].value == rows[k].ev
  }

  lemma AckIsAdded(r: R.Ring, cfg: R.Config, st: Step, n: int, time: int, src: nat)
    requires RingOk(r) && Do(r, cfg, st).Ok? && RingOk(Do(r, cfg, st).value.ring)
    ensures AcksAdded([RowOf(Do(r, cfg, st).value, n, time, src)])
  {
    if st.CleanAck? {
      var e := RowOf(Do(r, cfg, st).value, n, time, src);
      RemainderIs(e.head - 1, |r.slots|, r.head);
      ModIs(e.head - 1, |r.slots|);
      assert WrittenLast(e, r.head);
    }
  }

  lemma {:induction false} RunAddsAcks(w: World, cfg: R.Config, acts: seq<Act>)
    requires AcksAdded(w.rows)
    ensures AcksAdded(RunWorld(w, cfg, acts).rows)
    decreases |acts|
  {
    if acts != [] {
      if Possible(w, cfg, acts[0]) {
        var a, t := acts[0], Perform(w, cfg, acts[0]);
        DoKeepsRing(w.rings[a.src], cfg, a.step);
        AckIsAdded(w.rings[a.src], cfg, a.step, |w.rows| + 1, w.time + a.wait, a.src);
        assert t.rows[|w.rows|] == [t.rows[|w.rows|]][0];
        RunAddsAcks(t, cfg, acts[1..]);
      } else {
        RunAddsAcks(w, cfg, acts[1..]);
      }
    }
  }

  /** Whatever a run does, its trace with another entropy in one unmarked acknowledgement is rejected, and that row is
      reported. */
  lemma ForgedAckIsReported(w: World, cfg: R.Config, acts: seq<Act>, k: nat, ev: int)
    requires Init(w) && k < |RunWorld(w, cfg, acts).rows|
    requires var e := RunWorld(w, cfg, acts).rows[k]; CleanAckRow(e) && ev != e.ev
    ensures var rows := RunWorld(w, cfg, acts).rows; var forged := rows[k := rows[k].(ev := ev)];
            Violations(forged).Ok? && Violation(k + 1, AckNotAdded) in Violations(forged).value
  {
    var t := RunWorld(w, cfg, acts);
    InitWorldOk(w, cfg);
    RunKeeps(w, cfg, acts);
    RunAddsAcks(w, cfg, acts);
    var forged := t.rows[k := t.rows[k].(ev := ev)];
    SortedOfOrdered(forged);
    TraceIsReadable(t, true);
    ForgedBreaks(t.rows, k, ev);
    var v := Violation(k + 1, AckNotAdded);
    assert BrokenAt(forged, v.rule, v.n);
    NotOutOfRange(t, k, ev);
    CheckerIsExact(forged, v);
  }

  lemma NotOutOfRange(w: World, k: nat, ev: int)
    requires TraceOk(w) && k < |w.rows| && CleanAckRow(w.rows[k])
    ensures forall e :: e in w.rows[k := w.rows[k].(ev := ev)] ==> !OutOfRange(e)
  {
    var forged := w.rows[k := w.rows[k].(ev := ev)];
    forall e | e in forged ensures !OutOfRange(e) {
      var j :| 0 <= j < |forged| && forged[j] == e;
      assert Verdict(w, j);
    }
  }

  lemma ForgedBreaks(rows: seq<Row>, k: nat, ev: int)
    requires AcksAdded(rows) && k < |rows| && CleanAckRow(rows[k]) && ev != rows[k].ev
    ensures var forged := rows[k := rows[k].(ev := ev)]; BreaksAt(forged, k, AckNotAdded) && InUse(forged)
  {
    var forged := rows[k := rows[k].(ev := ev)];
    var i :| WrittenLast(rows[k], i) && rows[k].slots[i].valid && rows[k].slots[i].value == rows[k].ev;
    assert WrittenLast(forged[k], i);
    assert forged[k] in forged && forged[k].slots[i].valid;
    PreviousIsBefore(forged, k, k);
    assert Breaks(Previous(forged, k, forged[k].src), forged[k], AckNotAdded);
  }
}
