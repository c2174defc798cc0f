/** A window of the most recent delay samples and its percentiles, on values. */
module DelayWindow {
  import opened Outcomes
  import opened Cyclic

  const MAX_H: nat := 128

  datatype Window = Window(samples: seq<nat>, capacity: nat)

  datatype Op = Push(delay: nat) | SetCapacity(h: int)

  function Clamp(h: int): (n: nat)
    ensures 1 <= n <= MAX_H && (1 <= h <= MAX_H ==> n == h)
  {
    if h < 1 then 1 else if h > MAX_H then MAX_H else h
  }

  function Latest(s: seq<nat>, n: nat): seq<nat> {
    if |s| <= n then s else s[|s| - n..]
  }

  function Apply(w: Window, op: Op): Window {
    match op
    case Push(delay) => w.(samples := Latest(w.samples + [delay], w.capacity))
    case SetCapacity(h) => Window(Latest(w.samples, Clamp(h)), Clamp(h))
  }

  function Run(w: Window, ops: seq<Op>): Window
    decreases |ops|
  {
    if ops == [] then w else Run(Apply(w, ops[0]), ops[1..])
  }

  function Adds(op: Op): seq<nat> {
    if op.Push? then [op.delay] else []
  }

  function Pushed(ops: seq<Op>): seq<nat> {
    if ops == [] then [] else Adds(ops[0]) + Pushed(ops[1..])
  }

  ghost predicate Inv(w: Window) {
    |w.samples| <= w.capacity && 1 <= w.capacity <= MAX_H
  }

  ghost predicate SuffixOf(s: seq<nat>, history: seq<nat>) {
    |s| <= |history| && s == history[|history| - |s|..]
  }

  lemma ApplyKeepsSuffix(w: Window, history: seq<nat>, op: Op)
    requires Inv(w) && SuffixOf(w.samples, history)
    ensures Inv(Apply(w, op)) && SuffixOf(Apply(w, op).samples, history + Adds(op))
  {
  }

  lemma Associate(a: seq<nat>, b: seq<nat>, c: seq<nat>)
    ensures (a + b) + c == a + (b + c)
  {
  }

  /** Whatever mix of samples and capacity changes came before, the window holds the most recent samples,
      with none left out. */
  lemma {:induction false} RunKeepsSuffix(w: Window, history: seq<nat>, ops: seq<Op>)
    requires Inv(w) && SuffixOf(w.samples, history)
    ensures Inv(Run(w, ops)) && SuffixOf(Run(w, ops).samples, history + Pushed(ops))
    decreases |ops|
  {
    if ops == [] {
      assert history + [] == history;
    } else {
      var more := Adds(ops[0]);
      ApplyKeepsSuffix(w, history, ops[0]);
      RunKeepsSuffix(Apply(w, ops[0]), history + more, ops[1..]);
      Associate(history, more, Pushed(ops[1..]));
    }
  }

  function Min(a: nat, b: nat): nat {
    if a < b then a else b
  }

  /** The least room there ever was: over every moment, the capacity then and the samples pushed since. */
  function Tightest(capacity: nat, ops: seq<Op>): nat
    decreases |ops|
  {
    if ops == [] then capacity
    else
      Min(capacity + |Pushed(ops)|,
          Tightest(if ops[0].Push? then capacity else Clamp(ops[0].h), ops[1..]))
  }

  /** And it leaves none out that a keep-most-recent window could hold: its length is exactly the number of
      samples there have been, or the least room there ever was. */
  lemma {:induction false} RunLength(w: Window, ops: seq<Op>)
    requires Inv(w)
    ensures |Run(w, ops).samples| == Min(|w.samples| + |Pushed(ops)|, Tightest(w.capacity, ops))
    decreases |ops|
  {
    if ops != [] {
      RunLength(Apply(w, ops[0]), ops[1..]);
    }
  }

  /** It is as large as it may be: after as many samples as its capacity, it is full. */
  lemma {:induction false} PushesFill(w: Window, ops: seq<Op>)
    requires Inv(w) && forall i: nat :: i < |ops| ==> ops[i].Push?
    ensures Run(w, ops).capacity == w.capacity
    ensures |Run(w, ops).samples| == if |w.samples| + |ops| <= w.capacity then |w.samples| + |ops| else w.capacity
    decreases |ops|
  {
    if ops != [] {
      forall i: nat | i < |ops[1..]| ensures ops[1..][i].Push? {
        assert ops[1..][i] == ops[i + 1];
      }
      PushesFill(Apply(w, ops[0]), ops[1..]);
    }
  }

  // ---------------------------------------------------------------- the ring that holds the window

  /** The `n` slots before `head` in a ring of MAX_H slots. */
  function Slots(buf: seq<nat>, head: nat, n: nat): seq<nat>
    requires |buf| == MAX_H && head < MAX_H && n <= MAX_H
  {
    seq(n, i requires 0 <= i < n => buf[Wrap(head - n + i, MAX_H)])
  }

  /** Overwriting the slot at `head` adds a sample; what does not fit is the oldest. */
  lemma PushSlots(buf: seq<nat>, head: nat, n: nat, m: nat, delay: nat)
    requires |buf| == MAX_H && head < MAX_H && n <= MAX_H && 0 < m <= n + 1 && m <= MAX_H
    ensures Slots(buf[head := delay], After(head, MAX_H), m) == Latest(Slots(buf, head, n) + [delay], m)
  {
    var t, s := Slots(buf[head := delay], After(head, MAX_H), m), Slots(buf, head, n);
    forall i: nat | i < m ensures t[i] == if i == m - 1 then delay else s[n + 1 - m + i] {
      SlotStays(buf, head, n, m, delay, i);
    }
    assert t == (s + [delay])[n + 1 - m..];
  }

  lemma SlotStays(buf: seq<nat>, head: nat, n: nat, m: nat, delay: nat, i: nat)
    requires |buf| == MAX_H && head < MAX_H && n <= MAX_H && i < m <= n + 1 && m <= MAX_H
    ensures Slots(buf[head := delay], After(head, MAX_H), m)[i]
            == if i == m - 1 then delay else Slots(buf, head, n)[n + 1 - m + i]
  {
    var k := Wrap(After(head, MAX_H) - m + i, MAX_H);
    assert Slots(buf[head := delay], After(head, MAX_H), m)[i] == buf[head := delay][k];
    if i < m - 1 {
      assert k == Wrap(head - n + (n + 1 - m + i), MAX_H) && k != head;
    }
  }

  /** Keeping fewer slots keeps the most recent samples. */
  lemma ShrinkSlots(buf: seq<nat>, head: nat, n: nat, m: nat)
    requires |buf| == MAX_H && head < MAX_H && m <= n <= MAX_H
    ensures Slots(buf, head, m) == Latest(Slots(buf, head, n), m)
  {
  }

  // ---------------------------------------------------------------- sorting

  function Insert(x: nat, s: seq<nat>): seq<nat> {
    if s == [] || x <= s[0] then [x] + s else [s[0]] + Insert(x, s[1..])
  }

  /** What the library's sort computes. */
  function Sort(s: seq<nat>): seq<nat> {
    if s == [] then [] else Insert(s[0], Sort(s[1..]))
  }

  ghost predicate Sorted(s: seq<nat>) {
    forall i: nat, j: nat :: i < j < |s| ==> s[i] <= s[j]
  }

  lemma {:induction false} InsertPermutes(x: nat, s: seq<nat>)
    ensures multiset(Insert(x, s)) == multiset(s) + multiset{x}
    decreases |s|
  {
    if s != [] && x > s[0] {
      InsertPermutes(x, s[1..]);
      assert s == [s[0]] + s[1..];
    }
  }

  lemma SortedCons(x: nat, s: seq<nat>)
    requires Sorted(s) && (s == [] || x <= s[0])
    ensures Sorted([x] + s)
  {
  }

  lemma {:induction false} InsertSorts(x: nat, s: seq<nat>)
    requires Sorted(s)
    ensures Sorted(Insert(x, s))
    decreases |s|
  {
    if s == [] || x <= s[0] {
      SortedCons(x, s);
    } else {
      InsertSorts(x, s[1..]);
      SortedCons(s[0], Insert(x, s[1..]));
    }
  }

  lemma {:induction false} SortSorts(s: seq<nat>)
    ensures Sorted(Sort(s)) && multiset(Sort(s)) == multiset(s) && |Sort(s)| == |s|
    decreases |s|
  {
    if s != [] {
      SortSorts(s[1..]);
      InsertSorts(s[0], Sort(s[1..]));
      InsertPermutes(s[0], Sort(s[1..]));
      assert s == [s[0]] + s[1..];
    }
    assert |multiset(Sort(s))| == |multiset(s)|;
  }

  // ---------------------------------------------------------------- percentiles

  function Rank(n: nat, p: int): int {
    var idx := TruncDiv(n * p, 100);
    if idx >= n then n - 1 else idx
  }

  /** The p-th percentile, or 0 of an empty window. A negative index into the copied samples counts as a
      failure. */
  function Percentile(w: Window, p: int): Outcome<nat> {
    if w.samples == [] then Ok(0)
    else
      var idx := Rank(|w.samples|, p);
      SortSorts(w.samples);
      if idx < 0 then Aborted else Ok(Sort(w.samples)[idx])
  }

  lemma PercentileAbortsIff(w: Window, p: int)
    ensures Percentile(w, p).Aborted? <==> |w.samples| * p <= -100
  {
  }

  /** How many samples are below `v`, or at most `v`. */
  function Tally(s: seq<nat>, v: nat, orEqual: bool): nat {
    if s == [] then 0 else (if s[0] < v || (orEqual && s[0] == v) then 1 else 0) + Tally(s[1..], v, orEqual)
  }

  lemma {:induction false} TallyInsert(x: nat, s: seq<nat>, v: nat, orEqual: bool)
    ensures Tally(Insert(x, s), v, orEqual) == Tally([x] + s, v, orEqual)
    decreases |s|
  {
    assert ([x] + s)[1..] == s;
    if s != [] && x > s[0] {
      TallyInsert(x, s[1..], v, orEqual);
      assert ([x] + s[1..])[1..] == s[1..];
      assert Insert(x, s)[1..] == Insert(x, s[1..]);
    }
  }

  lemma {:induction false} TallySort(s: seq<nat>, v: nat, orEqual: bool)
    ensures Tally(Sort(s), v, orEqual) == Tally(s, v, orEqual)
    decreases |s|
  {
    if s != [] {
      TallySort(s[1..], v, orEqual);
      TallyInsert(s[0], Sort(s[1..]), v, orEqual);
      assert ([s[0]] + Sort(s[1..]))[1..] == Sort(s[1..]);
    }
  }

  lemma {:induction false} TallySorted(s: seq<nat>, k: nat, v: nat)
    requires Sorted(s)
    ensures k < |s| && v <= s[k] ==> Tally(s, v, false) <= k
    ensures k < |s| && s[k] <= v ==> k < Tally(s, v, true)
    decreases |s|
  {
    if s != [] {
      if k > 0 {
        TallySorted(s[1..], k - 1, v);
      } else {
        NoneBelow(s, v);
      }
    }
  }

  lemma {:induction false} NoneBelow(s: seq<nat>, v: nat)
    requires Sorted(s)
    ensures s != [] && v <= s[0] ==> Tally(s, v, false) == 0
    decreases |s|
  {
    if s != [] {
      NoneBelow(s[1..], v);
    }
  }

  ghost predicate HasRank(s: seq<nat>, v: nat, rank: nat) {
    Tally(s, v, false) <= rank < Tally(s, v, true)
  }

  /** The percentile is the sample of rank min(n*p/100, n-1), counting in the window itself. */
  lemma PercentileHasRank(w: Window, p: int)
    requires w.samples != [] && Percentile(w, p).Ok?
    ensures Rank(|w.samples|, p) >= 0
    ensures Percentile(w, p).value in w.samples && HasRank(w.samples, Percentile(w, p).value, Rank(|w.samples|, p))
  {
    var s, k, v := Sort(w.samples), Rank(|w.samples|, p), Percentile(w, p).value;
    SortSorts(w.samples);
    assert v in multiset(s);
    TallySorted(s, k, v);
    TallySort(w.samples, v, false);
    TallySort(w.samples, v, true);
  }

  lemma {:induction false} TallyMonotone(s: seq<nat>, u: nat, v: nat)
    requires u < v
    ensures Tally(s, u, true) <= Tally(s, v, false)
    decreases |s|
  {
    if s != [] {
      TallyMonotone(s[1..], u, v);
    }
  }

  /** At most one value has a given rank, so the rank determines the percentile. */
  lemma RankIsUnique(s: seq<nat>, u: nat, v: nat, rank: nat)
    requires HasRank(s, u, rank) && HasRank(s, v, rank)
    ensures u == v
  {
    if u < v {
      TallyMonotone(s, u, v);
    } else if v < u {
      TallyMonotone(s, v, u);
    }
  }

  lemma RankMonotone(n: nat, p: int, q: int)
    requires p <= q
    ensures Rank(n, p) <= Rank(n, q)
  {
    assert n * p <= n * q;
  }

  /** Higher percentiles are no smaller. */
  lemma PercentileMonotone(w: Window, p: int, q: int)
    requires p <= q && Percentile(w, p).Ok?
    ensures Percentile(w, q).Ok? && Percentile(w, p).value <= Percentile(w, q).value
  {
    SortSorts(w.samples);
    RankMonotone(|w.samples|, p, q);
  }
}
