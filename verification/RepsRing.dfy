/**
The ring of recycled path entropies, on values: a slot array with a write position, a separate read
position for frozen mode, and a cached count of the slots that are still fresh.
 */
module RepsRing {
  import opened Outcomes
  import opened Cyclic

  datatype Slot = Slot(value: int, valid: bool, lifetime: int)

  /** Settings shared by all rings. */
  datatype Config = Config(maxLifetime: int, compressedAcks: bool, useFreezing: bool) {

    /** A lifetime above one turns acknowledgement compression on, and nothing turns it off. */
    function SetUsableLifetime(life: int): Config {
      this.(maxLifetime := life, compressedAcks := compressedAcks || life > 1)
    }
  }

  datatype Ring = Ring(slots: seq<Slot>, head: nat, count: nat, frozenHead: nat, freshCount: int, frozen: bool)

  const EMPTY_SLOT := Slot(0, false, 0)

  function InitRing(size: Positive): Ring {
    Ring(seq(size, i => EMPTY_SLOT), 0, 0, 0, 0, false)
  }

  function CountValid(slots: seq<Slot>): nat {
    if slots == [] then 0
    else CountValid(slots[..|slots| - 1]) + if slots[|slots| - 1].valid then 1 else 0
  }

  /** What holds in every mode. */
  ghost predicate Inv(r: Ring) {
    && |r.slots| > 0 && r.head < |r.slots| && r.count <= |r.slots|
    && (r.count < |r.slots| ==> r.head == r.count)
    && (forall i :: r.count <= i < |r.slots| ==> !r.slots[i].valid)
    && r.freshCount == CountValid(r.slots)
    && (if r.count == 0 then r.frozenHead == 0 else r.frozenHead < r.count)
  }

  /** How far slot `i` lies behind the write position. */
  function Behind(head: nat, i: nat, size: nat): int {
    if i < head then head - 1 - i else head - 1 - i + size
  }

  /** The fresh slots are the `freshCount` ones just behind the write position. */
  ghost predicate Contiguous(r: Ring) {
    && r.freshCount <= |r.slots|
    && forall i :: 0 <= i < |r.slots| ==> (r.slots[i].valid <==> Behind(r.head, i, |r.slots|) < r.freshCount)
  }

  // ---------------------------------------------------------------- operations

  function Add(r: Ring, cfg: Config, value: int): Ring
    requires r.head < |r.slots|
  {
    var size := |r.slots|;
    var freshCount := if r.slots[r.head].valid then r.freshCount else r.freshCount + 1;
    r.(slots := r.slots[r.head := Slot(value, true, cfg.maxLifetime)],
       head := After(r.head, size),
       freshCount := if freshCount > size then size else freshCount,
       count := if r.count + 1 > size then size else r.count + 1)
  }

  /** Where the oldest fresh entry is expected. */
  function EarliestFresh(r: Ring): int {
    if r.head - r.freshCount < 0 then r.head + |r.slots| - r.freshCount else r.head - r.freshCount
  }

  /** Draws the oldest fresh entry; with nothing fresh the program throws. */
  function RemoveEarliestFresh(r: Ring, cfg: Config): Outcome<(Ring, int)> {
    var i := EarliestFresh(r);
    if r.count == 0 || r.freshCount == 0 || i < 0 || i >= |r.slots| then Aborted
    else
      var s := r.slots[i];
      var left := if cfg.compressedAcks then s.lifetime - 1 else s.lifetime;
      if cfg.compressedAcks && left > 0 then
        Ok((r.(slots := r.slots[i := s.(lifetime := left)]), s.value))
      else
        Ok((r.(slots := r.slots[i := s.(valid := false, lifetime := left)], freshCount := r.freshCount - 1), s.value))
  }

  datatype Option = None | Some(value: int)

  function PeekEarliestFresh(r: Ring): Option {
    var i := EarliestFresh(r);
    if r.count == 0 || r.freshCount == 0 || i < 0 || i >= |r.slots| then None else Some(r.slots[i].value)
  }

  /** Reads at the frozen position, fresh or not, and moves it on; outside frozen mode the program throws. */
  function RemoveFrozen(r: Ring, cfg: Config): Outcome<(Ring, int)> {
    if r.count == 0 || !r.frozen || r.frozenHead >= r.count || r.count > |r.slots| then Aborted
    else
      var s := r.slots[r.frozenHead];
      var left := if cfg.compressedAcks then s.lifetime - 1 else s.lifetime;
      var spent := !cfg.compressedAcks || left < 0;
      Ok((r.(slots := r.slots[r.frozenHead := s.(lifetime := left, valid := s.valid && !spent)],
             freshCount := if spent && s.valid then r.freshCount - 1 else r.freshCount,
             frozenHead := After(r.frozenHead, r.count)),
          s.value))
  }

  function ResetBuffer(r: Ring): Ring {
    r.(slots := seq(|r.slots|, i => EMPTY_SLOT), head := 0, count := 0, frozenHead := 0, freshCount := 0)
  }

  function SetFrozenMode(r: Ring, cfg: Config, mode: bool): Ring {
    if cfg.useFreezing then r.(frozen := mode) else r
  }

  function GetFrozenEv(r: Ring): int
    requires r.frozenHead < |r.slots|
  {
    if !r.frozen || r.count == 0 then -1 else r.slots[r.frozenHead].value
  }

  // ---------------------------------------------------------------- counting valid slots

  lemma {:induction false} CountUpdate(slots: seq<Slot>, i: nat, s: Slot)
    requires i < |slots|
    ensures CountValid(slots[i := s])
            == CountValid(slots) - (if slots[i].valid then 1 else 0) + (if s.valid then 1 else 0)
    ensures slots[i].valid ==> CountValid(slots) >= 1
  {
    var n := |slots| - 1;
    if i < n {
      assert slots[i := s][..n] == slots[..n][i := s];
      CountUpdate(slots[..n], i, s);
    } else {
      assert slots[i := s][..n] == slots[..n];
    }
  }

  lemma {:induction false} CountBound(slots: seq<Slot>)
    ensures CountValid(slots) <= |slots|
    ensures (forall i :: 0 <= i < |slots| ==> !slots[i].valid) ==> CountValid(slots) == 0
  {
    if slots != [] {
      CountBound(slots[..|slots| - 1]);
    }
  }

  /** Slots past the fill level are never valid, so counting up to it counts everything. */
  lemma {:induction false} CountPrefix(slots: seq<Slot>, n: nat)
    requires n <= |slots| && forall i :: n <= i < |slots| ==> !slots[i].valid
    ensures CountValid(slots[..n]) == CountValid(slots)
  {
    if n < |slots| {
      CountPrefix(slots[..|slots| - 1], n);
      assert slots[..|slots| - 1][..n] == slots[..n];
    } else {
      assert slots[..n] == slots;
    }
  }

  // ---------------------------------------------------------------- every mode

  lemma InitInv(size: Positive)
    ensures Inv(InitRing(size)) && Contiguous(InitRing(size))
  {
    CountBound(InitRing(size).slots);
  }

  lemma AddKeepsInv(r: Ring, cfg: Config, value: int)
    requires Inv(r)
    ensures Inv(Add(r, cfg, value))
  {
    CountUpdate(r.slots, r.head, Slot(value, true, cfg.maxLifetime));
    CountBound(Add(r, cfg, value).slots);
  }

  lemma RemoveFreshKeepsInv(r: Ring, cfg: Config)
    requires Inv(r) && Contiguous(r) && r.freshCount > 0
    ensures RemoveEarliestFresh(r, cfg).Ok? && Inv(RemoveEarliestFresh(r, cfg).value.0)
  {
    CountBound(r.slots);
    EarliestIsValid(r);
    var t := RemoveEarliestFresh(r, cfg).value.0;
    CountUpdate(r.slots, EarliestFresh(r), t.slots[EarliestFresh(r)]);
  }

  lemma EarliestIsValid(r: Ring)
    requires Inv(r) && Contiguous(r) && r.freshCount > 0
    ensures 0 <= EarliestFresh(r) < |r.slots| && r.slots[EarliestFresh(r)].valid && r.count > 0
    ensures Behind(r.head, EarliestFresh(r), |r.slots|) == r.freshCount - 1
  {
  }

  lemma RemoveFrozenKeepsInv(r: Ring, cfg: Config)
    requires Inv(r) && r.frozen && r.count > 0
    ensures RemoveFrozen(r, cfg).Ok? && Inv(RemoveFrozen(r, cfg).value.0)
  {
    var t := RemoveFrozen(r, cfg).value.0;
    CountUpdate(r.slots, r.frozenHead, t.slots[r.frozenHead]);
  }

  lemma ResetKeepsInv(r: Ring)
    requires |r.slots| > 0
    ensures Inv(ResetBuffer(r)) && Contiguous(ResetBuffer(r))
  {
    CountBound(ResetBuffer(r).slots);
  }

  // ---------------------------------------------------------------- the queue behind the ring

  datatype Entry = Entry(value: int, lifetime: int)

  /** The slot of the `j`-th oldest fresh entry. */
  function SlotOf(r: Ring, j: nat): int {
    Wrap(r.head - r.freshCount + j, |r.slots|)
  }

  function EntryAt(r: Ring, j: nat): Entry
    requires 0 <= SlotOf(r, j) < |r.slots|
  {
    Entry(r.slots[SlotOf(r, j)].value, r.slots[SlotOf(r, j)].lifetime)
  }

  /** The fresh entries, oldest first. */
  ghost function Queue(r: Ring): (q: seq<Entry>)
    requires Inv(r) && Contiguous(r)
    ensures |q| == r.freshCount
  {
    CountBound(r.slots);
    seq(r.freshCount, j requires 0 <= j < r.freshCount => EntryAt(r, j))
  }

  lemma AddKeepsContiguous(r: Ring, cfg: Config, value: int)
    requires Inv(r) && Contiguous(r)
    ensures Contiguous(Add(r, cfg, value))
  {
    CountBound(r.slots);
    var t := Add(r, cfg, value);
    var n := |r.slots|;
    assert t.head == if r.head + 1 == n then 0 else r.head + 1;
    forall i | 0 <= i < n ensures t.slots[i].valid <==> Behind(t.head, i, n) < t.freshCount {
      if i == r.head {
        assert Behind(t.head, i, n) == 0;
      } else {
        assert Behind(t.head, i, n) == Behind(r.head, i, n) + 1;
      }
    }
  }

  /** Between resets and outside frozen mode, adding is appending to a bounded queue that drops its
      oldest entry when it is full. */
  lemma AddAppends(r: Ring, cfg: Config, value: int)
    requires Inv(r) && Contiguous(r)
    ensures Inv(Add(r, cfg, value)) && Contiguous(Add(r, cfg, value))
    ensures var q := Queue(r);
            Queue(Add(r, cfg, value)) ==
            (if |q| == |r.slots| then q[1..] else q) + [Entry(value, cfg.maxLifetime)]
  {
    CountBound(r.slots);
    AddKeepsInv(r, cfg, value);
    AddKeepsContiguous(r, cfg, value);
    AddShifts(r, cfg, value);
    var t, q := Add(r, cfg, value), Queue(r);
    var kept := if |q| == |r.slots| then q[1..] else q;
    assert |Queue(t)| == |kept| + 1;
    assert Queue(t)[|kept|] == EntryAt(t, |kept|);
    forall j | 0 <= j < |kept| ensures Queue(t)[j] == kept[j] {
      assert Queue(t)[j] == EntryAt(t, j);
    }
  }

  /** The entries keep their slots; in a full ring each moves one place towards the front. */
  lemma AddShifts(r: Ring, cfg: Config, value: int)
    requires Inv(r) && Contiguous(r)
    ensures var t := Add(r, cfg, value); var full := r.freshCount == |r.slots|;
            && t.freshCount == (if full then r.freshCount else r.freshCount + 1)
            && SlotOf(t, t.freshCount - 1) == r.head
            && (forall j :: 0 <= j < t.freshCount - 1 ==>
                  SlotOf(t, j) == SlotOf(r, if full then j + 1 else j) && SlotOf(t, j) != r.head)
  {
    CountBound(r.slots);
    assert r.slots[r.head].valid <==> r.freshCount == |r.slots|;
  }

  /** What drawing does to the queue: the oldest entry is returned, and stays while it has lifetime left. */
  function Drawn(q: seq<Entry>, compressedAcks: bool): seq<Entry>
    requires q != []
  {
    if compressedAcks && q[0].lifetime > 1 then q[0 := q[0].(lifetime := q[0].lifetime - 1)] else q[1..]
  }

  lemma RemoveKeepsContiguous(r: Ring, cfg: Config)
    requires Inv(r) && Contiguous(r) && r.freshCount > 0
    ensures RemoveEarliestFresh(r, cfg).Ok? && Contiguous(RemoveEarliestFresh(r, cfg).value.0)
  {
    EarliestIsValid(r);
    var t, i := RemoveEarliestFresh(r, cfg).value.0, EarliestFresh(r);
    forall k | 0 <= k < |r.slots| ensures t.slots[k].valid <==> Behind(t.head, k, |r.slots|) < t.freshCount {
      if k != i {
        assert Behind(r.head, k, |r.slots|) != Behind(r.head, i, |r.slots|);
      }
    }
  }

  /** Outside frozen mode a draw takes the oldest entry, as the non-destructive read predicted. */
  lemma RemoveFreshDraws(r: Ring, cfg: Config)
    requires Inv(r) && Contiguous(r) && r.freshCount > 0
    ensures RemoveEarliestFresh(r, cfg).Ok? && PeekEarliestFresh(r) == Some(RemoveEarliestFresh(r, cfg).value.1)
    ensures var t := RemoveEarliestFresh(r, cfg).value;
            && Inv(t.0) && Contiguous(t.0)
            && t.1 == Queue(r)[0].value && Queue(t.0) == Drawn(Queue(r), cfg.compressedAcks)
  {
    RemoveFreshKeepsInv(r, cfg);
    RemoveKeepsContiguous(r, cfg);
    EarliestIsValid(r);
    assert EarliestFresh(r) == SlotOf(r, 0) && Queue(r)[0] == EntryAt(r, 0);
    QueueDrawn(r, cfg);
  }

  lemma FirstEntry(r: Ring, cfg: Config)
    requires Inv(r) && Contiguous(r) && r.freshCount > 0 && RemoveEarliestFresh(r, cfg).Ok?
    ensures Queue(r)[0] == EntryAt(r, 0) && EarliestFresh(r) == SlotOf(r, 0)
    ensures RemoveEarliestFresh(r, cfg).value.0.freshCount
            == if cfg.compressedAcks && Queue(r)[0].lifetime > 1 then r.freshCount else r.freshCount - 1
  {
  }

  lemma QueueDrawn(r: Ring, cfg: Config)
    requires Inv(r) && Contiguous(r) && r.freshCount > 0
    requires var t := RemoveEarliestFresh(r, cfg); t.Ok? && Inv(t.value.0) && Contiguous(t.value.0)
    ensures Queue(RemoveEarliestFresh(r, cfg).value.0) == Drawn(Queue(r), cfg.compressedAcks)
  {
    FirstEntry(r, cfg);
    if cfg.compressedAcks && Queue(r)[0].lifetime > 1 {
      QueueAged(r, cfg);
    } else {
      QueueShifted(r, cfg);
    }
  }

  lemma QueueAged(r: Ring, cfg: Config)
    requires Inv(r) && Contiguous(r) && r.freshCount > 0
    requires var t := RemoveEarliestFresh(r, cfg); t.Ok? && Inv(t.value.0) && Contiguous(t.value.0)
    requires RemoveEarliestFresh(r, cfg).value.0.freshCount == r.freshCount
    ensures var q := Queue(r);
            Queue(RemoveEarliestFresh(r, cfg).value.0) == q[0 := q[0].(lifetime := q[0].lifetime - 1)]
  {
    var t, q := RemoveEarliestFresh(r, cfg).value.0, Queue(r);
    forall j: nat | j < t.freshCount
      ensures Queue(t)[j] == if j == 0 then q[0].(lifetime := q[0].lifetime - 1) else q[j]
    {
      DrawShifts(r, cfg, j);
    }
  }

  lemma QueueShifted(r: Ring, cfg: Config)
    requires Inv(r) && Contiguous(r) && r.freshCount > 0
    requires var t := RemoveEarliestFresh(r, cfg); t.Ok? && Inv(t.value.0) && Contiguous(t.value.0)
    requires RemoveEarliestFresh(r, cfg).value.0.freshCount == r.freshCount - 1
    ensures Queue(RemoveEarliestFresh(r, cfg).value.0) == Queue(r)[1..]
  {
    var t, q := RemoveEarliestFresh(r, cfg).value.0, Queue(r);
    forall j: nat | j < t.freshCount ensures Queue(t)[j] == q[j + 1] {
      DrawShifts(r, cfg, j);
    }
  }

  /** After a draw, entry `j` is the one that was there, older by one report if it is the first, or the
      next one if the first is used up. */
  lemma DrawShifts(r: Ring, cfg: Config, j: nat)
    requires r.head < |r.slots| && 0 < r.freshCount <= |r.slots| && RemoveEarliestFresh(r, cfg).Ok?
    requires j < RemoveEarliestFresh(r, cfg).value.0.freshCount
    ensures var t := RemoveEarliestFresh(r, cfg).value.0; var k := j + r.freshCount - t.freshCount;
            EntryAt(t, j) == if k == 0 then EntryAt(r, 0).(lifetime := EntryAt(r, 0).lifetime - 1) else EntryAt(r, k)
  {
    var t := RemoveEarliestFresh(r, cfg).value.0;
    var k := j + r.freshCount - t.freshCount;
    assert SlotOf(t, j) == SlotOf(r, k) && EarliestFresh(r) == SlotOf(r, 0);
    assert k > 0 ==> SlotOf(r, k) != SlotOf(r, 0);
  }

  // ---------------------------------------------------------------- runs

  datatype QueueOp = Put(value: int) | Draw

  /** A run of the bounded queue, and the values drawn. Drawing from an empty queue does nothing. */
  function RunQueue(q: seq<Entry>, ops: seq<QueueOp>, size: Positive, cfg: Config): (seq<Entry>, seq<int>)
    decreases |ops|
  {
    if ops == [] then (q, [])
    else if ops[0].Put? then
      RunQueue((if |q| == size then q[1..] else q) + [Entry(ops[0].value, cfg.maxLifetime)], ops[1..], size, cfg)
    else if q == [] then RunQueue(q, ops[1..], size, cfg)
    else
      var r := RunQueue(Drawn(q, cfg.compressedAcks), ops[1..], size, cfg);
      (r.0, [q[0].value] + r.1)
  }

  /** The same run on the ring; callers draw only while something is fresh. */
  ghost function RunRing(r: Ring, ops: seq<QueueOp>, cfg: Config): (Ring, seq<int>)
    requires Inv(r) && Contiguous(r)
    decreases |ops|
  {
    if ops == [] then (r, [])
    else if ops[0].Put? then
      AddAppends(r, cfg, ops[0].value);
      RunRing(Add(r, cfg, ops[0].value), ops[1..], cfg)
    else if r.freshCount == 0 then RunRing(r, ops[1..], cfg)
    else
      RemoveFreshDraws(r, cfg);
      var d := RemoveEarliestFresh(r, cfg).value;
      var rest := RunRing(d.0, ops[1..], cfg);
      (rest.0, [d.1] + rest.1)
  }

  /** Between resets and outside frozen mode the ring is a bounded queue that drops its oldest entry:
      over every run it hands out the same values, and in the end it holds the same entries. */
  lemma {:induction false} RingRefinesQueue(r: Ring, ops: seq<QueueOp>, cfg: Config)
    requires Inv(r) && Contiguous(r)
    ensures var t := RunRing(r, ops, cfg); var q := RunQueue(Queue(r), ops, |r.slots|, cfg);
            Inv(t.0) && Contiguous(t.0) && Queue(t.0) == q.0 && t.1 == q.1
    decreases |ops|
  {
    if ops == [] {
    } else if ops[0].Put? {
      AddAppends(r, cfg, ops[0].value);
      RingRefinesQueue(Add(r, cfg, ops[0].value), ops[1..], cfg);
    } else if r.freshCount == 0 {
      RingRefinesQueue(r, ops[1..], cfg);
    } else {
      RemoveFreshDraws(r, cfg);
      RingRefinesQueue(RemoveEarliestFresh(r, cfg).value.0, ops[1..], cfg);
    }
  }

  // ---------------------------------------------------------------- lifetimes

  /** How often an entry can still be drawn. */
  function Worth(e: Entry): nat {
    if e.lifetime > 1 then e.lifetime else 1
  }

  /** How often `v` can still be drawn. */
  function Potential(q: seq<Entry>, v: int): nat {
    if q == [] then 0 else (if q[0].value == v then Worth(q[0]) else 0) + Potential(q[1..], v)
  }

  function Puts(ops: seq<QueueOp>, v: int): nat {
    if ops == [] then 0 else (if ops[0] == Put(v) then 1 else 0) + Puts(ops[1..], v)
  }

  function Occurrences(values: seq<int>, v: int): nat {
    if values == [] then 0 else (if values[0] == v then 1 else 0) + Occurrences(values[1..], v)
  }

  lemma {:induction false} PotentialSnoc(q: seq<Entry>, e: Entry, v: int)
    ensures Potential(q + [e], v) == Potential(q, v) + if e.value == v then Worth(e) else 0
  {
    if q != [] {
      assert (q + [e])[1..] == q[1..] + [e];
      PotentialSnoc(q[1..], e, v);
    } else {
      assert [e][1..] == [];
    }
  }

  /** Over every run, a value is drawn at most once, or at most its lifetime many times, for every time
      that it was cached. */
  lemma {:induction false} DrawsBounded(q: seq<Entry>, ops: seq<QueueOp>, size: Positive, cfg: Config, v: int)
    ensures Occurrences(RunQueue(q, ops, size, cfg).1, v)
            <= Potential(q, v) + Worth(Entry(v, cfg.maxLifetime)) * Puts(ops, v)
    decreases |ops|
  {
    if ops == [] {
    } else if ops[0].Put? {
      var kept, e := if |q| == size then q[1..] else q, Entry(ops[0].value, cfg.maxLifetime);
      DrawsBounded(kept + [e], ops[1..], size, cfg, v);
      PotentialSnoc(kept, e, v);
      MulStep(Worth(Entry(v, cfg.maxLifetime)), Puts(ops[1..], v));
    } else if q == [] {
      DrawsBounded(q, ops[1..], size, cfg, v);
    } else {
      var d := Drawn(q, cfg.compressedAcks);
      DrawsBounded(d, ops[1..], size, cfg, v);
      assert d == q[1..] || d[1..] == q[1..];
      var rest := RunQueue(d, ops[1..], size, cfg).1;
      assert ([q[0].value] + rest)[1..] == rest;
    }
  }

  lemma MulStep(a: int, n: int)
    ensures a * (n + 1) == a * n + a
  {
  }

  // ---------------------------------------------------------------- where values come from

  /** Up to the fill level, every slot holds a value that was added since the last reset. */
  ghost predicate FromAdded(r: Ring, added: set<int>) {
    r.count <= |r.slots| && forall i :: 0 <= i < r.count ==> r.slots[i].value in added
  }

  lemma AddKeepsSource(r: Ring, cfg: Config, value: int, added: set<int>)
    requires Inv(r) && FromAdded(r, added)
    ensures FromAdded(Add(r, cfg, value), added + {value})
  {
  }

  /** Frozen reads, stale or not, return only values that were added. */
  lemma FrozenReadsAdded(r: Ring, cfg: Config, added: set<int>)
    requires Inv(r) && FromAdded(r, added) && r.frozen && r.count > 0
    ensures RemoveFrozen(r, cfg).Ok?
    ensures RemoveFrozen(r, cfg).value.1 in added && FromAdded(RemoveFrozen(r, cfg).value.0, added)
  {
  }
}
