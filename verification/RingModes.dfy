/**
The entropy ring over runs in either mode: frozen reads go round the filled slots in turn, a slot's lifetime counts how
often it has been drawn, and settings only ever turn compression on.
 */
module RingModes {
  import opened Outcomes
  import opened Cyclic
  import opened RepsRing

  // ---------------------------------------------------------------- frozen reads

  /** Reads at the frozen position `n` times. */
  function FrozenReads(r: Ring, cfg: Config, n: nat): Outcome<(Ring, seq<int>)>
    decreases n
  {
    if n == 0 then Ok((r, []))
    else
      var d :- RemoveFrozen(r, cfg);
      var rest :- FrozenReads(d.0, cfg, n - 1);
      Ok((rest.0, [d.1] + rest.1))
  }

  /** The slot that the `i`-th of the reads to come looks at. */
  function ReadSlot(h: nat, c: nat, i: nat): (s: nat)
    requires h < c
    ensures s < c
  {
    (h + i) % c
  }

  lemma NextRound(h: nat, c: nat, i: nat)
    requires h < c
    ensures ReadSlot(After(h, c), c, i) == ReadSlot(h, c, i + 1) && ReadSlot(h, c, 0) == h
  {
    assert h == c * 0 + h;
    DivModUnique(h, c, 0, h);
    if h + 1 == c {
      assert h + (i + 1) == c * 1 + i;
      assert i == c * (i / c) + i % c;
      DivModUnique(h + (i + 1), c, 1 + i / c, i % c);
    }
  }

  /** The ring has been read `n` times. */
  ghost predicate WentRound(r: Ring, n: nat, t: Ring, values: seq<int>) {
    && r.frozenHead < r.count <= |r.slots| && |values| == n && t.count == r.count
    && t.frozenHead == ReadSlot(r.frozenHead, r.count, n)
    && forall i :: 0 <= i < n ==> values[i] == r.slots[ReadSlot(r.frozenHead, r.count, i)].value
  }

  lemma OneRead(r: Ring, cfg: Config)
    requires Inv(r) && r.frozen && r.count > 0
    ensures RemoveFrozen(r, cfg).Ok?
    ensures var d := RemoveFrozen(r, cfg).value;
            && Inv(d.0) && d.0.frozen && d.0.count == r.count && |d.0.slots| == |r.slots|
            && d.0.frozenHead == After(r.frozenHead, r.count) && d.1 == r.slots[r.frozenHead].value
            && forall i :: 0 <= i < |r.slots| ==> d.0.slots[i].value == r.slots[i].value
  {
    RemoveFrozenKeepsInv(r, cfg);
  }

  lemma OneMoreRound(r: Ring, n: nat, d: Ring, v: int, t: Ring, values: seq<int>)
    requires r.frozenHead < r.count <= |r.slots| && d.count == r.count && |d.slots| == |r.slots|
    requires d.frozenHead == After(r.frozenHead, r.count) && v == r.slots[r.frozenHead].value
    requires forall i :: 0 <= i < |r.slots| ==> d.slots[i].value == r.slots[i].value
    requires WentRound(d, n, t, values)
    ensures WentRound(r, n + 1, t, [v] + values)
  {
    NextRound(r.frozenHead, r.count, n);
    forall i | 0 <= i < n + 1 ensures ([v] + values)[i] == r.slots[ReadSlot(r.frozenHead, r.count, i)].value {
      NextRound(r.frozenHead, r.count, if i > 0 then i - 1 else 0);
    }
  }

  /** However often a frozen ring is read, it hands out the filled slots in turn, whether they are still fresh or not,
      and changes neither their values nor their number. */
  lemma {:induction false} FrozenReadsGoRound(r: Ring, cfg: Config, n: nat)
    requires Inv(r) && r.frozen && r.count > 0
    ensures var o := FrozenReads(r, cfg, n);
            o.Ok? && Inv(o.value.0) && WentRound(r, n, o.value.0, o.value.1)
    decreases n
  {
    NextRound(r.frozenHead, r.count, 0);
    if n > 0 {
      OneRead(r, cfg);
      var d := RemoveFrozen(r, cfg).value;
      FrozenReadsGoRound(d.0, cfg, n - 1);
      var o := FrozenReads(d.0, cfg, n - 1).value;
      OneMoreRound(r, n - 1, d.0, d.1, o.0, o.1);
    }
  }

  // ---------------------------------------------------------------- lifetimes

  datatype Op = Write(value: int) | Read | Mode(frozen: bool) | Reset

  /** History: how often each slot has been drawn since it was written. */
  datatype Drawing = Drawing(ring: Ring, uses: seq<nat>)

  /** The slot that a draw looks at, if there is one. */
  function Target(r: Ring): int {
    if r.count == 0 then -1
    else if r.frozen then r.frozenHead
    else if r.freshCount == 0 then -1
    else EarliestFresh(r)
  }

  function Draw(r: Ring, cfg: Config): Outcome<(Ring, int)> {
    if r.frozen then RemoveFrozen(r, cfg) else RemoveEarliestFresh(r, cfg)
  }

  function Do(d: Drawing, cfg: Config, op: Op): Drawing
    requires d.ring.head < |d.ring.slots| == |d.uses|
  {
    match op
    case Write(v) => Drawing(Add(d.ring, cfg, v), d.uses[d.ring.head := 0])
    case Read =>
      var o, i := Draw(d.ring, cfg), Target(d.ring);
      if o.Aborted? || i < 0 || i >= |d.uses| then d else Drawing(o.value.0, d.uses[i := d.uses[i] + 1])
    case Mode(frozen) => d.(ring := SetFrozenMode(d.ring, cfg, frozen))
    case Reset => Drawing(ResetBuffer(d.ring), seq(|d.uses|, i => 0))
  }

  /** Whatever has been drawn in whatever mode, the positions lie within the ring. */
  ghost predicate Shaped(r: Ring) {
    && |r.slots| > 0 && r.head < |r.slots| && r.count <= |r.slots| && (r.count < |r.slots| ==> r.head == r.count)
    && (if r.count == 0 then r.frozenHead == 0 else r.frozenHead < r.count)
  }

  /** Every filled slot has the lifetime it was written with, less its draws if acknowledgements are compressed. If
      they are not, it is valid until it is drawn. */
  ghost predicate Aged(d: Drawing, cfg: Config) {
    && Shaped(d.ring) && |d.uses| == |d.ring.slots|
    && forall i :: 0 <= i < d.ring.count ==>
         && d.ring.slots[i].lifetime == cfg.maxLifetime - (if cfg.compressedAcks then d.uses[i] else 0)
         && (!cfg.compressedAcks ==> (d.ring.slots[i].valid <==> d.uses[i] == 0))
  }

  lemma DoKeepsAged(d: Drawing, cfg: Config, op: Op)
    requires Aged(d, cfg)
    ensures Aged(Do(d, cfg, op), cfg)
  {
  }

  function Run(d: Drawing, cfg: Config, ops: seq<Op>): Drawing
    requires d.ring.head < |d.ring.slots| == |d.uses|
    decreases |ops|
  {
    if ops == [] then d else Run(Do(d, cfg, ops[0]), cfg, ops[1..])
  }

  lemma {:induction false} RunKeepsAged(d: Drawing, cfg: Config, ops: seq<Op>)
    requires Aged(d, cfg)
    ensures Aged(Run(d, cfg, ops), cfg)
    decreases |ops|
  {
    if ops != [] {
      DoKeepsAged(d, cfg, ops[0]);
      RunKeepsAged(Do(d, cfg, ops[0]), cfg, ops[1..]);
    }
  }

  /** From a blank ring, over every run of writes, draws, changes of mode and resets: a filled slot's lifetime is the
      one that is set, less the number of its draws since it was written if acknowledgements are compressed; if they
      are not, it is valid exactly if it has not been drawn. */
  lemma LifetimeCountsDraws(size: Positive, cfg: Config, ops: seq<Op>)
    ensures Aged(Run(Drawing(InitRing(size), seq(size, i => 0)), cfg, ops), cfg)
  {
    RunKeepsAged(Drawing(InitRing(size), seq(size, i => 0)), cfg, ops);
  }

  // ---------------------------------------------------------------- settings

  function Settings(cfg: Config, lives: seq<int>): Config {
    if lives == [] then cfg else Settings(cfg, lives[..|lives| - 1]).SetUsableLifetime(lives[|lives| - 1])
  }

  /** The lifetime that was set last counts, and compression is on for good once a lifetime above one was set. */
  lemma {:induction false} SettingsAfter(cfg: Config, lives: seq<int>)
    ensures var t := Settings(cfg, lives);
            && t.maxLifetime == (if lives == [] then cfg.maxLifetime else lives[|lives| - 1])
            && (t.compressedAcks <==> cfg.compressedAcks || exists i :: 0 <= i < |lives| && lives[i] > 1)
            && t.useFreezing == cfg.useFreezing
  {
    if lives != [] {
      var rest := lives[..|lives| - 1];
      SettingsAfter(cfg, rest);
      if i :| 0 <= i < |lives| && lives[i] > 1 {
        assert i == |rest| || rest[i] > 1;
      }
    }
  }
}
