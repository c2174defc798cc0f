/** The growable ring buffer, on values. One slot always stays free, so that a full ring and an empty
    one look different. */
module GrowRing {
  import opened Outcomes
  import opened Cyclic

  datatype Ring<T> = Ring(slots: seq<T>, nextPush: nat, nextPop: nat, count: nat)

  /** `i` positions after `p`. */
  function At(p: nat, i: nat, n: nat): int {
    if p + i >= n then p + i - n else p + i
  }

  ghost predicate Inv<T>(r: Ring<T>) {
    && r.nextPush < |r.slots| && r.nextPop < |r.slots| && r.count < |r.slots|
    && r.nextPush == At(r.nextPop, r.count, |r.slots|)
  }

  /** The elements, in the order in which they will be popped. */
  ghost function Contents<T>(r: Ring<T>): seq<T>
    requires Inv(r)
  {
    seq(r.count, i requires 0 <= i < r.count => r.slots[At(r.nextPop, i, |r.slots|)])
  }

  /** Doubles the ring. If the elements wrap round, those before `nextPush` move to the new half.
      `blank` are the slots that resizing adds. */
  function Grow<T>(r: Ring<T>, blank: seq<T>): Ring<T>
    requires |blank| == |r.slots| && r.nextPush <= |r.slots|
  {
    if r.nextPush < r.nextPop then
      r.(slots := r.slots + r.slots[..r.nextPush] + blank[r.nextPush..], nextPush := r.nextPush + |r.slots|)
    else r.(slots := r.slots + blank)
  }

  function Push<T>(r: Ring<T>, item: T, blank: seq<T>): Ring<T>
    requires |blank| == |r.slots| && r.nextPush < |r.slots|
  {
    var g := if r.count + 1 == |r.slots| then Grow(r, blank) else r;
    g.(slots := g.slots[g.nextPush := item], nextPush := After(g.nextPush, |g.slots|), count := r.count + 1)
  }

  function Pop<T>(r: Ring<T>): Outcome<(Ring<T>, T)>
    requires r.nextPop < |r.slots|
  {
    if r.count == 0 then Aborted
    else Ok((r.(nextPop := After(r.nextPop, |r.slots|), count := r.count - 1), r.slots[r.nextPop]))
  }

  /** Takes back the newest element. */
  function PopFront<T>(r: Ring<T>): Outcome<(Ring<T>, T)>
    requires 0 < r.nextPush + |r.slots| && r.nextPush < |r.slots|
  {
    if r.count == 0 then Aborted
    else
      var i := Wrap(r.nextPush - 1, |r.slots|);
      Ok((r.(nextPush := i, count := r.count - 1), r.slots[i]))
  }

  // ---------------------------------------------------------------- it is a double-ended queue

  /** Growing keeps every element in its place in the order, even while the ring is wrapped. */
  lemma GrowKeeps<T>(r: Ring<T>, blank: seq<T>)
    requires Inv(r) && |blank| == |r.slots| && r.count + 1 == |r.slots|
    ensures var g := Grow(r, blank); Inv(g) && Contents(g) == Contents(r) && |g.slots| == 2 * |r.slots|
  {
    var g, n := Grow(r, blank), |r.slots|;
    forall i | 0 <= i < r.count ensures g.slots[At(g.nextPop, i, |g.slots|)] == r.slots[At(r.nextPop, i, n)] {
    }
  }

  lemma PushAppends<T>(r: Ring<T>, item: T, blank: seq<T>)
    requires Inv(r) && |blank| == |r.slots|
    ensures var t := Push(r, item, blank); Inv(t) && Contents(t) == Contents(r) + [item]
    ensures |Push(r, item, blank).slots| == if r.count + 1 == |r.slots| then 2 * |r.slots| else |r.slots|
  {
    if r.count + 1 == |r.slots| {
      GrowKeeps(r, blank);
    }
    var g := if r.count + 1 == |r.slots| then Grow(r, blank) else r;
    PutAppends(g, item);
  }

  lemma PutAppends<T>(g: Ring<T>, item: T)
    requires Inv(g) && g.count + 1 < |g.slots|
    ensures var t := g.(slots := g.slots[g.nextPush := item], nextPush := After(g.nextPush, |g.slots|),
            count := g.count + 1);
            Inv(t) && Contents(t) == Contents(g) + [item]
  {
    var t := g.(slots := g.slots[g.nextPush := item], nextPush := After(g.nextPush, |g.slots|), count := g.count + 1);
    forall i | 0 <= i < g.count ensures t.slots[At(t.nextPop, i, |t.slots|)] == g.slots[At(g.nextPop, i, |g.slots|)] {
      assert At(g.nextPop, i, |g.slots|) != g.nextPush;
    }
    assert At(t.nextPop, g.count, |t.slots|) == g.nextPush;
  }

  lemma PopTakesOldest<T>(r: Ring<T>)
    requires Inv(r) && r.count > 0
    ensures Pop(r).Ok? && Inv(Pop(r).value.0)
    ensures Pop(r).value.1 == Contents(r)[0] && Contents(Pop(r).value.0) == Contents(r)[1..]
  {
    var t := Pop(r).value.0;
    forall i | 0 <= i < t.count ensures Contents(t)[i] == Contents(r)[i + 1] {
      assert At(t.nextPop, i, |t.slots|) == At(r.nextPop, i + 1, |r.slots|);
    }
  }

  lemma PopFrontTakesNewest<T>(r: Ring<T>)
    requires Inv(r) && r.count > 0
    ensures PopFront(r).Ok? && Inv(PopFront(r).value.0)
    ensures PopFront(r).value.1 == Contents(r)[r.count - 1] &&
            Contents(PopFront(r).value.0) == Contents(r)[..r.count - 1]
  {
    var t := PopFront(r).value.0;
    assert t.nextPush == At(r.nextPop, r.count - 1, |r.slots|);
  }

  datatype Op<T> = PushOp(item: T) | PopOp | PopFrontOp

  /** The slots that resizing adds, all holding `filler`. */
  function Blank<T>(r: Ring<T>, filler: T): (b: seq<T>)
    ensures |b| == |r.slots|
  {
    seq(|r.slots|, _ => filler)
  }

  /** A run of the ring, and what it handed out. */
  ghost function RunRing<T>(r: Ring<T>, filler: T, ops: seq<Op<T>>): (Ring<T>, seq<T>)
    requires Inv(r)
    decreases |ops|
  {
    if ops == [] then (r, [])
    else
      match ops[0]
      case PushOp(item) =>
        PushAppends(r, item, Blank(r, filler));
        RunRing(Push(r, item, Blank(r, filler)), filler, ops[1..])
      case PopOp =>
        if r.count == 0 then RunRing(r, filler, ops[1..])
        else
          PopTakesOldest(r);
          var rest := RunRing(Pop(r).value.0, filler, ops[1..]);
          (rest.0, [Pop(r).value.1] + rest.1)
      case PopFrontOp =>
        if r.count == 0 then RunRing(r, filler, ops[1..])
        else
          PopFrontTakesNewest(r);
          var rest := RunRing(PopFront(r).value.0, filler, ops[1..]);
          (rest.0, [PopFront(r).value.1] + rest.1)
  }

  /** The same run on a plain sequence. */
  function RunDeque<T>(q: seq<T>, ops: seq<Op<T>>): (seq<T>, seq<T>)
    decreases |ops|
  {
    if ops == [] then (q, [])
    else
      match ops[0]
      case PushOp(item) => RunDeque(q + [item], ops[1..])
      case PopOp =>
        if q == [] then RunDeque(q, ops[1..])
        else var rest := RunDeque(q[1..], ops[1..]); (rest.0, [q[0]] + rest.1)
      case PopFrontOp =>
        if q == [] then RunDeque(q, ops[1..])
        else var rest := RunDeque(q[..|q| - 1], ops[1..]); (rest.0, [q[|q| - 1]] + rest.1)
  }

  /** Across any mix of pushes and pops at both ends, from any starting size, the ring is a double-ended
      queue, and it never becomes completely full. */
  lemma {:induction false} RingRefinesDeque<T>(r: Ring<T>, filler: T, ops: seq<Op<T>>)
    requires Inv(r)
    ensures var t := RunRing(r, filler, ops); var d := RunDeque(Contents(r), ops);
            Inv(t.0) && Contents(t.0) == d.0 && t.1 == d.1
    decreases |ops|
  {
    if ops != [] {
      match ops[0]
      case PushOp(item) =>
        PushAppends(r, item, Blank(r, filler));
        RingRefinesDeque(Push(r, item, Blank(r, filler)), filler, ops[1..]);
      case PopOp =>
        if r.count == 0 {
          RingRefinesDeque(r, filler, ops[1..]);
        } else {
          PopTakesOldest(r);
          RingRefinesDeque(Pop(r).value.0, filler, ops[1..]);
        }
      case PopFrontOp =>
        if r.count == 0 {
          RingRefinesDeque(r, filler, ops[1..]);
        } else {
          PopFrontTakesNewest(r);
          RingRefinesDeque(PopFront(r).value.0, filler, ops[1..]);
        }
    }
  }
}
