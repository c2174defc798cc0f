/** The trimming queue that spares packets with short paths, on values. It counts the queued packets by
    path length and caches the longest length. Both lists are newest first. */
module PathQueue {
  import opened Outcomes
  import opened Packets
  import opened ServiceShares

  const RATIO: Ratio := Ratio(10, 1)
  const MAX_PATH_LEN: nat := 20
  const MAX_QUEUED: nat := 8
  const WORD32: nat := 0x1_0000_0000

  type Histogram = s: seq<nat> | |s| == MAX_PATH_LEN + 1 witness seq(MAX_PATH_LEN + 1, _ => 0)

  datatype Config = Config(maxSize: nat, trimSize: nat)

  datatype Queue = Queue(
    low: seq<Packet>, high: seq<Packet>, lowBytes: int, highBytes: int, lens: Histogram, maxLen: nat, maxSeen: nat,
    serving: Service, crt: nat)

  datatype Step = Step(queue: Queue, fates: seq<Fate>)

  /** The greatest length below `n` that is counted, or 0. */
  function Top(lens: Histogram, n: nat): (t: nat)
    requires n <= |lens|
    ensures forall i: nat :: t < i < n ==> lens[i] == 0
    ensures t == 0 || (t < n && lens[t] > 0)
  {
    if n == 0 then 0 else if lens[n - 1] > 0 then n - 1 else Top(lens, n - 1)
  }

  function Queued(lens: Histogram, n: nat): nat
    requires n <= |lens|
  {
    if n == 0 then 0 else Queued(lens, n - 1) + lens[n - 1]
  }

  /** The program's own consistency check. It does not look at the last length. */
  function CheckQueued(q: Queue): Outcome<Queue> {
    if Top(q.lens, MAX_PATH_LEN) == q.maxLen && Queued(q.lens, MAX_PATH_LEN) <= MAX_QUEUED then Ok(q) else Aborted
  }

  /** The longest queued length, searched down from the longest ever seen. */
  function FindMax(q: Queue): nat
    requires q.maxSeen <= MAX_PATH_LEN
  {
    if q.low == [] then 0 else Top(q.lens, q.maxSeen + 1)
  }

  function Put(q: Queue, p: Packet): Queue
    requires p.pathLen <= MAX_PATH_LEN
  {
    var longest := if q.maxLen < p.pathLen then p.pathLen else q.maxLen;
    q.(
      low := [p] + q.low, lowBytes := q.lowBytes + p.size, maxLen := longest,
      maxSeen := if q.maxLen < p.pathLen && q.maxSeen < longest then longest else q.maxSeen,
      lens := q.lens[p.pathLen := q.lens[p.pathLen] + 1])
  }

  function Enqueue(q: Queue, p: Packet): Outcome<Queue> {
    if p.pathLen > MAX_PATH_LEN then Aborted else CheckQueued(Put(q, p))
  }

  /** Takes packet `i` out of the low class. */
  function Remove(q: Queue, i: nat): Outcome<Queue>
    requires i < |q.low|
  {
    var p := q.low[i];
    if p.pathLen > MAX_PATH_LEN || q.lens[p.pathLen] == 0 || q.maxSeen > MAX_PATH_LEN then Aborted
    else
      var r := q.(
        low := q.low[..i] + q.low[i + 1..], lowBytes := q.lowBytes - p.size,
        lens := q.lens[p.pathLen := q.lens[p.pathLen] - 1]);
      CheckQueued(if p.pathLen == q.maxLen && r.lens[p.pathLen] == 0 then r.(maxLen := FindMax(r)) else r)
  }

  function PushHigh(q: Queue, p: Packet): Queue {
    q.(high := [p] + q.high, highBytes := q.highBytes + p.size)
  }

  /** The newest packet with a path longer than `prio`, searching from `i`. */
  function Victim(low: seq<Packet>, prio: nat, i: nat): (v: nat)
    requires i <= |low|
    ensures i <= v <= |low|
    ensures v < |low| ==> low[v].pathLen > prio
    ensures forall j: nat :: i <= j < v ==> low[j].pathLen <= prio
    decreases |low| - i
  {
    if i == |low| || low[i].pathLen > prio then i else Victim(low, prio, i + 1)
  }

  /** Makes room: the newest packet with a path longer than `prio` loses its payload. */
  function Trim(c: Config, q: Queue, prio: nat): Outcome<Step> {
    if prio >= q.maxLen then Aborted
    else
      var v := Victim(q.low, prio, 0);
      if v == |q.low| then Aborted
      else
        var r :- Remove(q, v);
        var header :- Strip(q.low[v], c.trimSize);
        if r.highBytes + header.size > c.maxSize then
          var kept :- CheckQueued(r);
          Ok(Step(kept, [Freed(header)]))
        else
          var kept :- CheckQueued(PushHigh(r, header));
          Ok(Step(kept, []))
  }

  function BeginService(c: Config, q: Queue): Outcome<Queue> {
    var b :- Begin(RATIO, q.crt, q.low != [], q.high != []);
    Ok(q.(serving := b.0, crt := b.1))
  }

  function Wake(c: Config, q: Queue): Outcome<Queue> {
    if q.serving == Idle then BeginService(c, q) else Ok(q)
  }

  function AdmitHeader(c: Config, q: Queue, p: Packet): Outcome<Step> {
    if q.highBytes + p.size > c.maxSize then Ok(Step(q, [Freed(p)]))
    else
      var woken :- Wake(c, PushHigh(q, p));
      Ok(Step(woken, []))
  }

  predicate FitsLow(c: Config, q: Queue, p: Packet) {
    q.lowBytes + p.size <= c.maxSize
  }

  /** The arriving packet is not the one to trim: some queued packet has a longer path, or the newest one
      has an equal path and loses the toss. */
  predicate Prevails(q: Queue, p: Packet, coin: bool)
    requires q.low != []
  {
    (p.pathLen == q.low[0].pathLen && coin) || p.pathLen < q.maxLen
  }

  /** A 32-bit decrement. */
  function Below(len: nat): nat {
    if len == 0 then WORD32 - 1 else len - 1
  }

  function MakeRoom(c: Config, q: Queue, p: Packet): Outcome<Step> {
    if FitsLow(c, q, p) then Ok(Step(q, []))
    else Trim(c, q, if p.pathLen < q.maxLen then p.pathLen else Below(p.pathLen))
  }

  function AdmitLow(c: Config, q: Queue, p: Packet): Outcome<Step> {
    var made :- MakeRoom(c, q, p);
    if !FitsLow(c, made.queue, p) then Aborted
    else
      var queued :- Enqueue(made.queue, p);
      var woken :- Wake(c, queued);
      Ok(Step(woken, made.fates))
  }

  function TrimArrival(c: Config, q: Queue, p: Packet): Outcome<Step> {
    var header :- Strip(p, c.trimSize);
    AdmitHeader(c, q, header)
  }

  /** A packet arrives. When the low class is full but empty, the program looks at the front of an empty
      list; that counts as a failure here. */
  function Receive(c: Config, q: Queue, p: Packet, coin: bool): Outcome<Step> {
    if p.header then AdmitHeader(c, q, p)
    else if FitsLow(c, q, p) then AdmitLow(c, q, p)
    else if q.low == [] then Aborted
    else if Prevails(q, p, coin) then AdmitLow(c, q, p)
    else TrimArrival(c, q, p)
  }

  /** The packet in service leaves: the oldest of its class. */
  function Depart(q: Queue): Outcome<Step> {
    if q.serving == Low && q.low != [] then
      var r :- Remove(q, |q.low| - 1);
      Ok(Step(r.(serving := Idle), [Sent(q.low[|q.low| - 1], false)]))
    else if q.serving == High && q.high != [] then
      var p := q.high[|q.high| - 1];
      var r :- CheckQueued(q.(high := q.high[..|q.high| - 1], highBytes := q.highBytes - p.size));
      Ok(Step(r.(serving := Idle), [Sent(p, false)]))
    else Aborted
  }

  function CompleteService(c: Config, q: Queue): Outcome<Step> {
    var left :- Depart(q);
    var next :- if left.queue.low != [] || left.queue.high != [] then BeginService(c, left.queue) else Ok(left.queue);
    Ok(Step(next, left.fates))
  }

  function InitQueue(): Queue {
    Queue([], [], 0, 0, seq(MAX_PATH_LEN + 1, _ => 0), 0, 0, Idle, 0)
  }

  // ---------------------------------------------------------------- the histogram and the cached maximum

  function CountLen(s: seq<Packet>, len: nat): nat {
    if s == [] then 0 else CountLen(s[..|s| - 1], len) + if s[|s| - 1].pathLen == len then 1 else 0
  }

  lemma {:induction false} CountLenConcat(s: seq<Packet>, t: seq<Packet>, len: nat)
    ensures CountLen(s + t, len) == CountLen(s, len) + CountLen(t, len)
    decreases |t|
  {
    if t == [] {
      assert s + t == s;
    } else {
      assert (s + t)[..|s + t| - 1] == s + t[..|t| - 1];
      CountLenConcat(s, t[..|t| - 1], len);
    }
  }

  /** A length is counted exactly if a packet with that path length is queued. */
  lemma {:induction false} CountLenPositiveIff(s: seq<Packet>, len: nat)
    ensures CountLen(s, len) > 0 <==> exists i: nat :: i < |s| && s[i].pathLen == len
    decreases |s|
  {
    if s != [] {
      CountLenPositiveIff(s[..|s| - 1], len);
      if s[|s| - 1].pathLen != len && exists i: nat :: i < |s| && s[i].pathLen == len {
        var i: nat :| i < |s| && s[i].pathLen == len;
        assert s[..|s| - 1][i].pathLen == len;
      }
      if CountLen(s[..|s| - 1], len) > 0 {
        var i: nat :| i < |s| - 1 && s[..|s| - 1][i].pathLen == len;
        assert s[i].pathLen == len;
      }
    }
  }

  ghost predicate Histo(q: Queue) {
    forall len: nat :: len <= MAX_PATH_LEN ==> q.lens[len] == CountLen(q.low, len)
  }

  ghost predicate Paths(q: Queue) {
    q.maxSeen < MAX_PATH_LEN && forall i: nat :: i < |q.low| ==> q.low[i].pathLen <= q.maxSeen
  }

  /** `m` is the longest queued path, or 0 when nothing is queued. */
  ghost predicate IsLongest(low: seq<Packet>, m: nat) {
    && (forall i: nat :: i < |low| ==> low[i].pathLen <= m)
    && (m > 0 ==> exists i: nat :: i < |low| && low[i].pathLen == m)
  }

  lemma TopIsLongest(q: Queue, n: nat)
    requires Histo(q) && Paths(q) && q.maxSeen < n <= MAX_PATH_LEN + 1
    ensures IsLongest(q.low, Top(q.lens, n))
  {
    var t := Top(q.lens, n);
    CountLenPositiveIff(q.low, t);
    forall i: nat | i < |q.low| ensures q.low[i].pathLen <= t {
      CountLenPositiveIff(q.low, q.low[i].pathLen);
    }
  }

  lemma LongestIsUnique(low: seq<Packet>, m: nat, n: nat)
    requires IsLongest(low, m) && IsLongest(low, n)
    ensures m == n
  {
  }

  lemma {:induction false} QueuedUpdate(lens: Histogram, n: nat, i: nat, v: nat)
    requires n <= |lens| && i < |lens|
    ensures Queued(lens[i := v], n) == if i < n then Queued(lens, n) + v - lens[i] else Queued(lens, n)
    decreases n
  {
    if n > 0 {
      QueuedUpdate(lens, n - 1, i, v);
    }
  }

  /** The bookkeeping agrees with the queue. */
  ghost predicate Tracks(q: Queue) {
    && Histo(q) && Paths(q) && IsLongest(q.low, q.maxLen)
    && Queued(q.lens, MAX_PATH_LEN) == |q.low|
    && q.lowBytes == Bytes(q.low) && q.highBytes == Bytes(q.high)
  }

  /** On a queue whose bookkeeping is right, the program's check passes exactly if no more than eight
      packets wait. */
  lemma CheckPassesIff(q: Queue)
    requires Tracks(q)
    ensures CheckQueued(q).Ok? <==> |q.low| <= MAX_QUEUED
  {
    TopIsLongest(q, MAX_PATH_LEN);
    LongestIsUnique(q.low, q.maxLen, Top(q.lens, MAX_PATH_LEN));
  }

  /** Enqueueing keeps the bookkeeping right, and fails exactly for a path as long as the limit or longer
      and for a ninth packet. */
  lemma EnqueueTracks(q: Queue, p: Packet)
    requires Tracks(q)
    ensures Enqueue(q, p).Ok? <==> p.pathLen < MAX_PATH_LEN && |q.low| < MAX_QUEUED
    ensures Enqueue(q, p).Ok? ==>
              var t := Enqueue(q, p).value;
              Tracks(t) && t == q.(low := [p] + q.low, lowBytes := t.lowBytes, maxLen := t.maxLen,
                maxSeen := t.maxSeen, lens := t.lens)
  {
    if p.pathLen < MAX_PATH_LEN {
      PutTracks(q, p);
      CheckPassesIff(Put(q, p));
    }
  }

  lemma PutTracks(q: Queue, p: Packet)
    requires Tracks(q) && p.pathLen < MAX_PATH_LEN
    ensures Tracks(Put(q, p))
  {
    var t := Put(q, p);
    QueuedUpdate(q.lens, MAX_PATH_LEN, p.pathLen, q.lens[p.pathLen] + 1);
    BytesConcat([p], q.low);
    forall len: nat | len <= MAX_PATH_LEN ensures t.lens[len] == CountLen(t.low, len) {
      CountLenConcat([p], q.low, len);
    }
    PrependLongest(q.low, p, q.maxLen);
    forall i: nat | i < |t.low| ensures t.low[i].pathLen <= t.maxSeen {
      assert i == 0 || t.low[i] == q.low[i - 1];
    }
  }

  lemma PrependLongest(low: seq<Packet>, p: Packet, m: nat)
    requires IsLongest(low, m)
    ensures IsLongest([p] + low, if m < p.pathLen then p.pathLen else m)
  {
    if m < p.pathLen {
      assert ([p] + low)[0].pathLen == p.pathLen;
    } else if m > 0 {
      var i: nat :| i < |low| && low[i].pathLen == m;
      assert ([p] + low)[i + 1].pathLen == m;
    }
  }

  lemma SplitAt(q: Queue, i: nat, len: nat)
    requires i < |q.low|
    ensures var r := q.low[..i] + q.low[i + 1..]; var p := q.low[i];
            && CountLen(q.low, len) == CountLen(r, len) + (if p.pathLen == len then 1 else 0)
            && Bytes(q.low) == Bytes(r) + p.size
  {
    var a, p, b := q.low[..i], q.low[i], q.low[i + 1..];
    assert q.low == a + ([p] + b);
    CountLenConcat(a, [p] + b, len);
    CountLenConcat([p], b, len);
    CountLenConcat(a, b, len);
    BytesConcat(a, [p] + b);
    BytesConcat([p], b);
    BytesConcat(a, b);
  }

  lemma SplitCount(low: seq<Packet>, i: nat, id: nat)
    requires i < |low|
    ensures Count(low, id) == Count(low[..i] + low[i + 1..], id) + One(low[i], id)
  {
    var a, p, b := low[..i], low[i], low[i + 1..];
    assert low == a + ([p] + b);
    CountConcat(a, [p] + b, id);
    CountConcat([p], b, id);
    CountConcat(a, b, id);
  }

  /** The queue after packet `i` has left, before the cached maximum is brought up to date. */
  lemma RemovedHisto(q: Queue, i: nat, r: Queue)
    requires Tracks(q) && i < |q.low| && q.lens[q.low[i].pathLen] > 0
    requires r == q.(low := q.low[..i] + q.low[i + 1..], lowBytes := q.lowBytes - q.low[i].size,
                     lens := q.lens[q.low[i].pathLen := q.lens[q.low[i].pathLen] - 1])
    ensures Histo(r) && Paths(r) && Queued(r.lens, MAX_PATH_LEN) == |r.low| && r.lowBytes == Bytes(r.low)
  {
    var p := q.low[i];
    QueuedUpdate(q.lens, MAX_PATH_LEN, p.pathLen, q.lens[p.pathLen] - 1);
    SplitAt(q, i, p.pathLen);
    forall len: nat | len <= MAX_PATH_LEN ensures r.lens[len] == CountLen(r.low, len) {
      SplitAt(q, i, len);
    }
  }

  /** Removing any packet, from either end or the middle, succeeds and keeps the bookkeeping right. */
  lemma RemoveTracks(q: Queue, i: nat)
    requires Tracks(q) && i < |q.low| && |q.low| <= MAX_QUEUED + 1
    ensures Remove(q, i).Ok? && Tracks(Remove(q, i).value)
    ensures var t := Remove(q, i).value;
            t == q.(low := q.low[..i] + q.low[i + 1..], lowBytes := t.lowBytes, maxLen := t.maxLen, lens := t.lens)
  {
    var p := q.low[i];
    CountLenPositiveIff(q.low, p.pathLen);
    var r := q.(low := q.low[..i] + q.low[i + 1..], lowBytes := q.lowBytes - p.size,
                lens := q.lens[p.pathLen := q.lens[p.pathLen] - 1]);
    RemovedHisto(q, i, r);
    var t := if p.pathLen == q.maxLen && r.lens[p.pathLen] == 0 then r.(maxLen := FindMax(r)) else r;
    assert IsLongest(r.low, t.maxLen) by {
      if p.pathLen == q.maxLen && r.lens[p.pathLen] == 0 {
        TopIsLongest(r, r.maxSeen + 1);
      } else {
        StillLongest(q, i, r);
      }
    }
    CheckPassesIff(t);
  }

  lemma StillLongest(q: Queue, i: nat, r: Queue)
    requires Tracks(q) && i < |q.low| && r.low == q.low[..i] + q.low[i + 1..] && Histo(r)
    requires q.low[i].pathLen == q.maxLen ==> r.lens[q.maxLen] > 0
    ensures IsLongest(r.low, q.maxLen)
  {
    if q.maxLen > 0 {
      if q.low[i].pathLen == q.maxLen {
        CountLenPositiveIff(r.low, q.maxLen);
      } else {
        var k: nat :| k < |q.low| && q.low[k].pathLen == q.maxLen;
        assert k < i ==> r.low[k] == q.low[k];
        assert k > i ==> r.low[k - 1] == q.low[k];
      }
    }
  }

  // ---------------------------------------------------------------- what one event keeps

  ghost predicate Kinds(q: Queue) {
    && (forall i: nat :: i < |q.low| ==> !q.low[i].header)
    && (forall i: nat :: i < |q.high| ==> q.high[i].header)
  }

  ghost predicate Room(c: Config, q: Queue) {
    q.lowBytes <= c.maxSize && q.highBytes <= c.maxSize && |q.low| <= MAX_QUEUED
  }

  ghost predicate Served(c: Config, q: Queue) {
    && (q.serving == Low ==> q.low != [])
    && (q.serving == High ==> q.high != [])
    && (q.serving == Idle ==> q.low == [] && q.high == [])
    && q.crt < RATIO.high + RATIO.low
  }

  ghost predicate Sound(c: Config, q: Queue) {
    c.trimSize >= MIN_TRIM && Tracks(q) && Kinds(q) && Room(c, q)
  }

  ghost predicate Inv(c: Config, q: Queue) {
    Sound(c, q) && Served(c, q)
  }

  function Held(q: Queue, id: nat): nat {
    Count(q.low, id) + Count(q.high, id)
  }

  /** What an event promises: the invariant, and that no packet of any identity is lost or duplicated. */
  ghost predicate Steps(c: Config, t: Step, before: nat, id: nat) {
    Inv(c, t.queue) && Held(t.queue, id) + Gone(t.fates, id) == before
  }

  /** The same between the parts of an event, before the next service begins. */
  ghost predicate Half(c: Config, q: Queue, t: Step, before: nat, id: nat) {
    && Sound(c, t.queue) && Held(t.queue, id) + Gone(t.fates, id) == before
    && t.queue.serving == q.serving && t.queue.crt == q.crt && |t.queue.high| >= |q.high|
  }

  lemma WakeKeeps(c: Config, q: Queue)
    requires q.crt < RATIO.high + RATIO.low && (q.low != [] || q.high != [])
    requires (q.serving == Low ==> q.low != []) && (q.serving == High ==> q.high != [])
    ensures Wake(c, q).Ok? && Served(c, Wake(c, q).value)
    ensures var w := Wake(c, q).value; w == q.(serving := w.serving, crt := w.crt)
  {
  }

  lemma PushHighKeeps(c: Config, q: Queue, p: Packet, id: nat)
    requires Sound(c, q) && p.header && q.highBytes + p.size <= c.maxSize
    ensures Sound(c, PushHigh(q, p)) && Held(PushHigh(q, p), id) == Held(q, id) + One(p, id)
  {
    BytesConcat([p], q.high);
    CountConcat([p], q.high, id);
  }

  lemma AdmitHeaderKeeps(c: Config, q: Queue, p: Packet, id: nat)
    requires Inv(c, q) && p.header
    ensures AdmitHeader(c, q, p).Ok? && Steps(c, AdmitHeader(c, q, p).value, Held(q, id) + One(p, id), id)
    ensures AdmitHeader(c, q, p).value.queue.low == q.low
  {
    if q.highBytes + p.size <= c.maxSize {
      PushHighKeeps(c, q, p, id);
      WakeKeeps(c, PushHigh(q, p));
    }
  }

  lemma RemoveKeeps(c: Config, q: Queue, i: nat, id: nat)
    requires Sound(c, q) && i < |q.low|
    ensures Remove(q, i).Ok?
    ensures var t := Remove(q, i).value;
            && Sound(c, t) && Held(t, id) + One(q.low[i], id) == Held(q, id)
            && t.low == q.low[..i] + q.low[i + 1..] && t.lowBytes == q.lowBytes - q.low[i].size
            && t.serving == q.serving && t.crt == q.crt && t.high == q.high
  {
    RemoveTracks(q, i);
    SplitCount(q.low, i, id);
  }

  /** Trimming finds a victim exactly if the caller asks for a length that some queued packet exceeds. */
  lemma TrimKeeps(c: Config, q: Queue, prio: nat, id: nat)
    requires Sound(c, q)
    ensures Trim(c, q, prio).Ok? <==> prio < q.maxLen
    ensures prio < q.maxLen ==>
              var t := Trim(c, q, prio).value; var v := Victim(q.low, prio, 0);
              && Half(c, q, t, Held(q, id), id) && v < |q.low|
              && t.queue.low == q.low[..v] + q.low[v + 1..] && t.queue.lowBytes == q.lowBytes - q.low[v].size
  {
    if prio < q.maxLen {
      var v := Victim(q.low, prio, 0);
      assert v < |q.low|;
      RemoveKeeps(c, q, v, id);
      var r := Remove(q, v).value;
      var header := q.low[v].(header := true, size := c.trimSize);
      CheckPassesIff(r);
      if r.highBytes + header.size <= c.maxSize {
        PushHighKeeps(c, r, header, id);
        CheckPassesIff(PushHigh(r, header));
      }
    }
  }

  lemma EnqueueKeeps(c: Config, q: Queue, p: Packet, id: nat)
    requires Sound(c, q) && FitsLow(c, q, p) && !p.header
    ensures Enqueue(q, p).Ok? <==> p.pathLen < MAX_PATH_LEN && |q.low| < MAX_QUEUED
    ensures Enqueue(q, p).Ok? ==>
              var t := Enqueue(q, p).value;
              && Sound(c, t) && Held(t, id) == Held(q, id) + One(p, id) && t.low == [p] + q.low
              && t.serving == q.serving && t.crt == q.crt && t.high == q.high
  {
    EnqueueTracks(q, p);
    CountConcat([p], q.low, id);
  }

  /** Which packet an arrival displaces when the low class is full. */
  function Displaced(q: Queue, p: Packet): nat {
    Victim(q.low, if p.pathLen < q.maxLen then p.pathLen else Below(p.pathLen), 0)
  }

  lemma MakeRoomKeeps(c: Config, q: Queue, p: Packet, coin: bool, id: nat)
    requires Sound(c, q) && !FitsLow(c, q, p) && q.low != [] && Prevails(q, p, coin)
    ensures MakeRoom(c, q, p).Ok? <==> p.pathLen > 0 || q.maxLen > 0
    ensures MakeRoom(c, q, p).Ok? ==>
              var t := MakeRoom(c, q, p).value; var v := Displaced(q, p);
              && Half(c, q, t, Held(q, id), id) && v < |q.low|
              && t.queue.low == q.low[..v] + q.low[v + 1..] && t.queue.lowBytes == q.lowBytes - q.low[v].size
  {
    TrimKeeps(c, q, if p.pathLen < q.maxLen then p.pathLen else Below(p.pathLen), id);
  }

  lemma AdmitIntoKeeps(c: Config, q: Queue, made: Step, p: Packet, id: nat)
    requires Inv(c, q) && Half(c, q, made, Held(q, id), id) && FitsLow(c, made.queue, p) && !p.header
    requires p.pathLen < MAX_PATH_LEN && |made.queue.low| < MAX_QUEUED
    ensures Enqueue(made.queue, p).Ok? && Wake(c, Enqueue(made.queue, p).value).Ok?
    ensures var w := Wake(c, Enqueue(made.queue, p).value).value;
            Steps(c, Step(w, made.fates), Held(q, id) + One(p, id), id) && w.low == [p] + made.queue.low
  {
    EnqueueKeeps(c, made.queue, p, id);
    WakeKeeps(c, Enqueue(made.queue, p).value);
  }

  /** The guard under which an arriving full packet runs into one of the program's assertions, or reads the
      front of an empty list. */
  predicate Hopeless(c: Config, q: Queue, p: Packet, coin: bool) {
    if FitsLow(c, q, p) then p.pathLen >= MAX_PATH_LEN || |q.low| >= MAX_QUEUED
    else if q.low == [] then true
    else
      var v := Displaced(q, p);
      Prevails(q, p, coin) &&
      ((p.pathLen == 0 && q.maxLen == 0) || v == |q.low| || q.lowBytes - q.low[v].size + p.size > c.maxSize)
  }

  lemma AdmitLowKeeps(c: Config, q: Queue, p: Packet, coin: bool, id: nat)
    requires Inv(c, q) && !p.header && (FitsLow(c, q, p) || (q.low != [] && Prevails(q, p, coin)))
    ensures AdmitLow(c, q, p).Aborted? <==> Hopeless(c, q, p, coin)
    ensures AdmitLow(c, q, p).Ok? ==>
              var t := AdmitLow(c, q, p).value; var v := Displaced(q, p);
              && Steps(c, t, Held(q, id) + One(p, id), id)
              && if FitsLow(c, q, p) then t.queue.low == [p] + q.low
                 else v < |q.low| && t.queue.low == [p] + (q.low[..v] + q.low[v + 1..])
  {
    if FitsLow(c, q, p) {
      EnqueueKeeps(c, q, p, id);
      if !Hopeless(c, q, p, coin) {
        AdmitIntoKeeps(c, q, Step(q, []), p, id);
      }
    } else {
      MakeRoomKeeps(c, q, p, coin, id);
      if !Hopeless(c, q, p, coin) {
        AdmitIntoKeeps(c, q, MakeRoom(c, q, p).value, p, id);
      }
    }
  }

  lemma TrimArrivalKeeps(c: Config, q: Queue, p: Packet, id: nat)
    requires Inv(c, q) && !p.header
    ensures var t := TrimArrival(c, q, p);
            t.Ok? && Steps(c, t.value, Held(q, id) + One(p, id), id) && t.value.queue.low == q.low
  {
    AdmitHeaderKeeps(c, q, p.(header := true, size := c.trimSize), id);
  }

  /** An arrival keeps the invariant, and fails exactly under the guard. */
  lemma ReceiveKeeps(c: Config, q: Queue, p: Packet, coin: bool, id: nat)
    requires Inv(c, q)
    ensures Receive(c, q, p, coin).Aborted? <==> !p.header && Hopeless(c, q, p, coin)
    ensures Receive(c, q, p, coin).Ok? ==> Steps(c, Receive(c, q, p, coin).value, Held(q, id) + One(p, id), id)
  {
    if p.header {
      AdmitHeaderKeeps(c, q, p, id);
    } else if FitsLow(c, q, p) || (q.low != [] && Prevails(q, p, coin)) {
      AdmitLowKeeps(c, q, p, coin, id);
    } else if q.low != [] {
      TrimArrivalKeeps(c, q, p, id);
    }
  }

  ghost predicate LongerQueued(q: Queue, p: Packet) {
    exists i: nat :: i < |q.low| && q.low[i].pathLen > p.pathLen
  }

  /** The arrival replaces a packet with a path at least as long, longer if any is; newer ones are no longer. */
  ghost predicate Replaces(q: Queue, p: Packet, low: seq<Packet>, v: nat) {
    && v < |q.low| && low == [p] + (q.low[..v] + q.low[v + 1..])
    && q.low[v].pathLen >= p.pathLen && (LongerQueued(q, p) ==> q.low[v].pathLen > p.pathLen)
    && forall j: nat :: j < v ==> q.low[j].pathLen <= p.pathLen
  }

  lemma ArrivalReplaces(c: Config, q: Queue, p: Packet, coin: bool)
    requires Inv(c, q) && !p.header && !FitsLow(c, q, p) && q.low != [] && Prevails(q, p, coin)
    requires AdmitLow(c, q, p).Ok?
    ensures Replaces(q, p, AdmitLow(c, q, p).value.queue.low, Displaced(q, p))
  {
    AdmitLowKeeps(c, q, p, coin, 0);
  }

  /** Path lengths decide who keeps its payload. When the class is full, an arrival is queued if some queued
      packet has a longer path, and otherwise only by winning a toss against an equal path; it is stripped
      only if no queued path is longer. */
  lemma ShorterPathsPrevail(c: Config, q: Queue, p: Packet, coin: bool)
    requires Inv(c, q) && !p.header && !FitsLow(c, q, p) && Receive(c, q, p, coin).Ok?
    ensures var low := Receive(c, q, p, coin).value.queue.low;
            if LongerQueued(q, p) || (coin && p.pathLen == q.low[0].pathLen)
            then exists v: nat :: Replaces(q, p, low, v)
            else low == q.low
  {
    assert q.low != [];
    assert p.pathLen < q.maxLen <==> LongerQueued(q, p);
    if Prevails(q, p, coin) {
      ArrivalReplaces(c, q, p, coin);
    } else {
      TrimArrivalKeeps(c, q, p, 0);
    }
  }

  lemma DepartKeeps(c: Config, q: Queue, id: nat)
    requires Inv(c, q)
    ensures Depart(q).Aborted? <==> q.serving == Idle
    ensures Depart(q).Ok? ==>
              var t := Depart(q).value;
              && Sound(c, t.queue) && t.queue.crt == q.crt && t.queue.serving == Idle
              && Held(t.queue, id) + Gone(t.fates, id) == Held(q, id)
  {
    if q.serving == Low {
      RemoveKeeps(c, q, |q.low| - 1, id);
    } else if q.serving == High {
      CheckPassesIff(q.(high := q.high[..|q.high| - 1], highBytes := q.highBytes - q.high[|q.high| - 1].size));
    }
  }

  lemma CompleteKeeps(c: Config, q: Queue, id: nat)
    requires Inv(c, q)
    ensures CompleteService(c, q).Aborted? <==> q.serving == Idle
    ensures CompleteService(c, q).Ok? ==> Steps(c, CompleteService(c, q).value, Held(q, id), id)
  {
    DepartKeeps(c, q, id);
    if q.serving != Idle {
      var left := Depart(q).value.queue;
      if left.low != [] || left.high != [] {
        WakeKeeps(c, left);
      }
    }
  }

  // ---------------------------------------------------------------- whole runs

  datatype Event = Arrive(packet: Packet, coin: bool) | Complete

  /** A service ends only while one is going on. */
  function Next(c: Config, q: Queue, e: Event): Outcome<Step> {
    match e
    case Arrive(p, coin) => Receive(c, q, p, coin)
    case Complete => if q.serving == Idle then Ok(Step(q, [])) else CompleteService(c, q)
  }

  function Run(c: Config, q: Queue, events: seq<Event>): Outcome<Step>
    decreases |events|
  {
    if events == [] then Ok(Step(q, []))
    else
      var s :- Next(c, q, events[0]);
      var rest :- Run(c, s.queue, events[1..]);
      Ok(Step(rest.queue, s.fates + rest.fates))
  }

  function Brings(e: Event, id: nat): nat {
    if e.Arrive? then One(e.packet, id) else 0
  }

  function Arrived(events: seq<Event>, id: nat): nat {
    if events == [] then 0 else Brings(events[0], id) + Arrived(events[1..], id)
  }

  lemma NextKeeps(c: Config, q: Queue, e: Event, id: nat)
    requires Inv(c, q)
    ensures Next(c, q, e).Aborted? <==> e.Arrive? && !e.packet.header && Hopeless(c, q, e.packet, e.coin)
    ensures Next(c, q, e).Ok? ==> Steps(c, Next(c, q, e).value, Held(q, id) + Brings(e, id), id)
  {
    match e
    case Arrive(p, coin) => ReceiveKeeps(c, q, p, coin, id);
    case Complete => CompleteKeeps(c, q, id);
  }

  /** Over every run the histogram and the cached maximum describe the queue, and every packet that arrived
      is queued, sent or freed, exactly once. */
  lemma {:induction false} RunKeeps(c: Config, q: Queue, events: seq<Event>, id: nat)
    requires Inv(c, q) && Run(c, q, events).Ok?
    ensures Steps(c, Run(c, q, events).value, Held(q, id) + Arrived(events, id), id)
    decreases |events|
  {
    if events != [] {
      NextKeeps(c, q, events[0], id);
      var s := Next(c, q, events[0]).value;
      RunKeeps(c, s.queue, events[1..], id);
      GoneConcat(s.fates, Run(c, s.queue, events[1..]).value.fates, id);
    }
  }

  // ---------------------------------------------------------------- when no run fails

  ghost predicate AllSized(q: Queue, size: nat) {
    forall i: nat :: i < |q.low| ==> q.low[i].size == size
  }

  predicate Regular(e: Event, size: nat) {
    e.Arrive? && !e.packet.header ==> e.packet.size == size && 0 < e.packet.pathLen < MAX_PATH_LEN
  }

  lemma {:induction false} SizedBytes(s: seq<Packet>, size: nat)
    requires forall i: nat :: i < |s| ==> s[i].size == size
    ensures Bytes(s) == |s| * size
    decreases |s|
  {
    if s != [] {
      SizedBytes(s[..|s| - 1], size);
    }
  }

  /** With packets of one size, of which the low class holds between one and eight, no arrival fails. */
  lemma RegularArrivalSucceeds(c: Config, q: Queue, p: Packet, coin: bool, size: nat)
    requires Inv(c, q) && AllSized(q, size) && 0 < size <= c.maxSize < (MAX_QUEUED + 1) * size
    requires !p.header ==> p.size == size && 0 < p.pathLen < MAX_PATH_LEN
    ensures Receive(c, q, p, coin).Ok? && AllSized(Receive(c, q, p, coin).value.queue, size)
  {
    SizedBytes(q.low, size);
    ReceiveKeeps(c, q, p, coin, 0);
    if p.header {
      AdmitHeaderKeeps(c, q, p, 0);
    } else {
      if FitsLow(c, q, p) {
        AtMostEight(|q.low|, size, c.maxSize);
      }
      if FitsLow(c, q, p) || (q.low != [] && Prevails(q, p, coin)) {
        AdmitLowKeeps(c, q, p, coin, 0);
      } else {
        TrimArrivalKeeps(c, q, p, 0);
      }
    }
  }

  lemma AtMostEight(n: nat, size: nat, room: nat)
    requires n * size + size <= room < (MAX_QUEUED + 1) * size
    ensures n < MAX_QUEUED
  {
    assert n >= MAX_QUEUED ==> n * size >= MAX_QUEUED * size;
  }

  lemma CompleteKeepsSized(c: Config, q: Queue, size: nat)
    requires Inv(c, q) && AllSized(q, size) && CompleteService(c, q).Ok?
    ensures AllSized(CompleteService(c, q).value.queue, size)
  {
    if q.serving == Low {
      RemoveKeeps(c, q, |q.low| - 1, 0);
      assert CompleteService(c, q).value.queue.low == q.low[..|q.low| - 1] + q.low[|q.low|..];
    }
  }

  lemma {:induction false} RegularRunsSucceed(c: Config, q: Queue, events: seq<Event>, size: nat)
    requires Inv(c, q) && AllSized(q, size) && 0 < size <= c.maxSize < (MAX_QUEUED + 1) * size
    requires forall i: nat :: i < |events| ==> Regular(events[i], size)
    ensures Run(c, q, events).Ok?
    decreases |events|
  {
    if events != [] {
      assert Regular(events[0], size);
      NextKeeps(c, q, events[0], 0);
      if events[0].Arrive? {
        RegularArrivalSucceeds(c, q, events[0].packet, events[0].coin, size);
      } else if q.serving != Idle {
        CompleteKeepsSized(c, q, size);
      }
      RegularRunsSucceed(c, Next(c, q, events[0]).value.queue, events[1..], size);
    }
  }

  /** The whole guarantee, from an empty queue. */
  lemma EveryRunIsSafe(c: Config, events: seq<Event>, size: nat)
    requires c.trimSize >= MIN_TRIM && 0 < size <= c.maxSize < (MAX_QUEUED + 1) * size
    requires forall i: nat :: i < |events| ==> Regular(events[i], size)
    ensures var r := Run(c, InitQueue(), events);
            && r.Ok? && Inv(c, r.value.queue)
            && forall id: nat :: Held(r.value.queue, id) + Gone(r.value.fates, id) == Arrived(events, id)
  {
    var q := InitQueue();
    NothingQueued(MAX_PATH_LEN);
    assert Inv(c, q);
    RegularRunsSucceed(c, q, events, size);
    forall id: nat
      ensures Steps(c, Run(c, q, events).value, Arrived(events, id), id)
    {
      RunKeeps(c, q, events, id);
    }
    assert Steps(c, Run(c, q, events).value, Arrived(events, 0), 0);
  }

  lemma {:induction false} NothingQueued(n: nat)
    requires n <= MAX_PATH_LEN
    ensures Queued(seq(MAX_PATH_LEN + 1, _ => 0), n) == 0
  {
    if n > 0 {
      NothingQueued(n - 1);
    }
  }
}
