/**
The sending end of an EQDS flow, on values: credit, the outstanding packets, the retransmit
queue, and what each event does to them. The congestion window, the interface card's answers
and the clock are arguments. `EqdsSrc` in EqdsSrc.dfy updates the same fields in place.
 */
module Sender {
  import opened Outcomes
  import opened Totals
  import opened Quanta
  import opened Bits
  import opened Cyclic

  /** Size of a header, and of a request-to-send, in bytes. */
  const HDR_SIZE: nat := 64

  datatype Phase = InitializeCredit | Speculating | Committed | Idle

  /** A packet that is out and unanswered. */
  datatype Record = Record(size: nat, sendTime: nat)

  /** Window-based congestion control is off, or its window is `cwnd`. */
  datatype Cc = NoCc | Window(cwnd: int)

  /** `spent` is history: the bytes sent on pulled credit. */
  datatype Sender = Sender(
    mss: Positive, maxWnd: nat, flowSize: nat,
    highestSent: nat, newSent: nat, rtsSent: nat,
    unsent: int, backlog: int,
    tx: map<nat, Record>, sendTimes: map<nat, nat>, rtx: map<nat, nat>, inFlight: int,
    pull: nat, pullTarget: int, creditPull: int, creditSpec: int, spent: nat,
    phase: Phase, speculating: bool, blocked: bool, done: bool)
  {
    function Mtu(): nat {
      mss + HDR_SIZE
    }

    function Credit(): int {
      creditPull + creditSpec
    }
  }

  datatype Packet =
    | Data(seqno: nat, size: nat, pullTarget: int, ar: bool)
    | Rts(seqno: nat, pullTarget: int)

  type Sent = Outcome<(Sender, seq<Packet>)>

  lemma {:induction false} FindLeast(keys: set<nat>) returns (k: nat)
    requires keys != {}
    ensures k in keys && forall j :: j in keys ==> k <= j
    decreases keys
  {
    k :| k in keys;
    var rest := keys - {k};
    if rest != {} {
      var m := FindLeast(rest);
      forall j | j in keys ensures (if k < m then k else m) <= j {
        assert j == k || j in rest;
      }
      k := if k < m then k else m;
    } else {
      forall j | j in keys ensures k <= j {
        assert j == k || j in rest;
      }
    }
  }

  lemma LeastExists(keys: set<nat>)
    requires keys != {}
    ensures exists k :: k in keys && forall j :: j in keys ==> k <= j
  {
    var k := FindLeast(keys);
  }

  /** The least key, where iteration over an ordered map begins. */
  function Least(keys: set<nat>): (k: nat)
    requires keys != {}
    ensures k in keys && forall j :: j in keys ==> k <= j
  {
    LeastExists(keys);
    var k :| k in keys && forall j :: j in keys ==> k <= j;
    k
  }

  ghost function Bytes(tx: map<nat, Record>): nat {
    Total(tx, (r: Record) => r.size)
  }

  // ---------------------------------------------------------------- acknowledgements and credit

  /** Takes the records of `gone` off the books. A send time is forgotten with its record. */
  ghost function Drop(s: Sender, gone: set<nat>): Sender {
    s.(tx := s.tx - gone,
       sendTimes := map t | t in s.sendTimes && (forall q :: q in gone && q in s.tx ==> s.tx[q].sendTime != t)
                      :: s.sendTimes[t],
       inFlight := s.inFlight - (Bytes(s.tx) - Bytes(s.tx - gone)))
  }

  ghost function HandleCumulativeAck(s: Sender, cum: nat): Sender {
    Drop(s.(rtx := map q | q in s.rtx && q >= cum :: s.rtx[q]), set q | q in s.tx && q < cum)
  }

  /** The selectively acknowledged packets: one for every bit that is set. */
  ghost function HandleBitmap(s: Sender, ref: nat, bitmap: nat): Sender {
    Drop(s, set q | q in s.tx && q >= ref && Bit(bitmap, q - ref))
  }

  function HandlePull(s: Sender, pullno: nat): Sender {
    if pullno > s.pull then
      var credit := s.creditPull + Unquantize(pullno - s.pull);
      s.(creditPull := if credit > s.maxWnd then s.maxWnd else credit, pull := pullno)
    else s
  }

  /** Request-to-send packets consume sequence numbers, so they are not counted as data. */
  function CheckFinished(s: Sender, cum: nat): Sender {
    if !s.done && (cum - s.rtsSent) * s.mss >= s.flowSize then s.(phase := Idle, done := true) else s
  }

  function StopSpeculating(s: Sender): Sender {
    s.(speculating := false, phase := if s.phase.Speculating? then Committed else s.phase)
  }

  datatype Spending = Spending(s: Sender, sent: bool, speculative: bool)

  /** Pays for a packet. Without pulled credit and outside the speculative phase nothing is sent, but
      speculative credit is still reduced so that the pull target can advance. */
  function SpendCredit(s: Sender, size: nat): Outcome<Spending> {
    if s.Credit() <= 0 then Aborted
    else if s.creditPull > 0 then
      if !s.phase.Committed? then Aborted
      else Ok(Spending(s.(creditPull := s.creditPull - size, spent := s.spent + size), true, false))
    else if s.speculating && s.creditSpec > 0 then
      if !s.phase.Speculating? then Aborted
      else Ok(Spending(s.(creditSpec := s.creditSpec - size), true, true))
    else
      if !s.phase.Committed? then Aborted
      else Ok(Spending(s.(creditSpec := s.creditSpec - size), false, false))
  }

  function Min(a: int, b: int): int {
    if a < b then a else b
  }

  /** The demand announced to the receiver, and the speculative credit that is left: the target moves
      forward with every packet, if need be by giving up speculative credit. */
  function ComputePullTarget(s: Sender, backlog: int, cc: Cc): (int, int) {
    var want := Min(if cc.Window? then Min(backlog, cc.cwnd + s.Mtu()) else backlog, s.maxWnd);
    var target := want - s.Credit() + Unquantize(s.pull);
    if !s.speculating && target - Unquantize(s.pullTarget) < PULL_QUANTUM && s.creditSpec > 0 then
      (QuantizeCeil(target + s.Mtu()), s.creditSpec - s.Mtu())
    else
      (QuantizeCeil(target), s.creditSpec)
  }

  lemma PullTargetDependsOnCredit(s: Sender, t: Sender, backlog: int, cc: Cc)
    requires s.mss == t.mss && s.maxWnd == t.maxWnd && s.creditPull == t.creditPull && s.creditSpec == t.creditSpec
    requires s.pull == t.pull && s.pullTarget == t.pullTarget && s.speculating == t.speculating
    ensures ComputePullTarget(s, backlog, cc) == ComputePullTarget(t, backlog, cc)
  {
  }

  /** The index by send time keeps the first of several packets sent at the same instant. */
  function AddSendTime(sendTimes: map<nat, nat>, now: nat, q: nat): map<nat, nat> {
    if now in sendTimes then sendTimes else sendTimes[now := q]
  }

  // ---------------------------------------------------------------- sending

  function NextPayload(s: Sender): int {
    Min(s.mss, s.unsent)
  }

  function SendNew(s: Sender, now: nat, cc: Cc): Sent {
    var payload := NextPayload(s);
    if s.unsent <= 0 || (s.highestSent - s.rtsSent) * s.mss >= s.flowSize || payload <= 0 then Aborted
    else
      var paid :- SpendCredit(s, payload + HDR_SIZE);
      if !paid.sent then Ok((paid.s, []))
      else LaunchNew(paid.s, payload, now, cc)
  }

  /** Enters a new packet in the books and sends it. The guards are the program's assertions. */
  function LaunchNew(s: Sender, payload: nat, now: nat, cc: Cc): Sent {
    var size := payload + HDR_SIZE;
    var backlog, unsent := s.backlog - size, s.unsent - payload;
    if backlog < 0 || backlog < unsent || s.highestSent in s.tx then Aborted
    else
      var (target, spec) := ComputePullTarget(s, backlog, cc);
      Ok((s.(backlog := backlog, unsent := unsent, inFlight := s.inFlight + size,
             pullTarget := target, creditSpec := spec,
             tx := s.tx[s.highestSent := Record(size, now)],
             sendTimes := AddSendTime(s.sendTimes, now, s.highestSent),
             highestSent := s.highestSent + 1, newSent := s.newSent + 1),
          [Data(s.highestSent, size, target, backlog == 0 || s.creditPull < 0)]))
  }

  /** Resends the first packet of the retransmit queue. The program asserts that this is never paid
      for with speculative credit. */
  function SendRtx(s: Sender, now: nat, cc: Cc): Sent {
    if s.rtx.Keys == {} then Aborted
    else
      var q := Least(s.rtx.Keys);
      var paid :- SpendCredit(s, s.rtx[q]);
      if paid.speculative then Aborted
      else if !paid.sent then Ok((paid.s, []))
      else LaunchRtx(paid.s, q, s.rtx[q], now, cc)
  }

  function LaunchRtx(s: Sender, q: nat, size: nat, now: nat, cc: Cc): Sent {
    if q in s.tx then Aborted
    else
      var (target, spec) := ComputePullTarget(s, s.backlog, cc);
      Ok((s.(rtx := s.rtx - {q}, inFlight := s.inFlight + size,
             pullTarget := target, creditSpec := spec,
             tx := s.tx[q := Record(size, now)], sendTimes := AddSendTime(s.sendTimes, now, q)),
          [Data(q, size, target, true)]))
  }

  function SendPacket(s: Sender, now: nat, cc: Cc): Sent {
    if s.rtx.Keys == {} then SendNew(s, now, cc) else SendRtx(s, now, cc)
  }

  /** At most one request-to-send per round trip; `recent` says that one has just been sent. */
  function SendRts(s: Sender, now: nat, recent: bool): Sent {
    if recent then Ok((s, []))
    else if s.highestSent in s.tx then Aborted
    else
      Ok((s.(tx := s.tx[s.highestSent := Record(HDR_SIZE, now)],
             sendTimes := AddSendTime(s.sendTimes, now, s.highestSent),
             highestSent := s.highestSent + 1, rtsSent := s.rtsSent + 1),
          [Rts(s.highestSent, s.pullTarget)]))
  }

  predicate WantsToSend(s: Sender, cc: Cc) {
    && s.Credit() > 0
    && !(cc.Window? && cc.cwnd <= s.inFlight)
    && !(s.rtx.Keys == {} && (s.backlog == 0 || s.unsent == 0))
    && !s.blocked
  }

  /** Asks the interface card, which answers `grant`, and sends one packet if it may. */
  function SendIfPermitted(s: Sender, now: nat, cc: Cc, grant: bool): Sent {
    if !WantsToSend(s, cc) then Ok((s, []))
    else if grant then SendPacket(s, now, cc)
    else Ok((s.(blocked := true), []))
  }

  function QueueForRtx(s: Sender, q: nat, size: nat, now: nat, cc: Cc, grant: bool): Sent {
    if q in s.rtx then Aborted
    else
      var s1 := s.(rtx := s.rtx[q := size]);
      if s1.speculating then Ok((s1, [])) else SendIfPermitted(s1, now, cc, grant)
  }

  // ---------------------------------------------------------------- events

  /** A sender as it is constructed and given its flow size. */
  function Fresh(mss: Positive, maxWnd: nat, flowSize: nat): Sender {
    Sender(mss, maxWnd, flowSize, 0, 0, 0, 0, 0, map[], map[], map[], 0,
           INIT_PULL, INIT_PULL, 0, maxWnd, 0, InitializeCredit, false, false, false)
  }

  /** The flow starts: speculative credit, and packets for as long as the card grants them. */
  function StartFlow(s: Sender, now: nat, cc: Cc, grants: nat): Sent {
    StartLoop(ReadyToStart(s), now, cc, grants)
  }

  lemma StartLoopUnfolds(s: Sender, now: nat, cc: Cc, grants: nat)
    requires grants > 0 && s.Credit() > 0 && s.unsent > 0 && StartLoop(s, now, cc, grants).Ok?
    ensures SendNew(s, now, cc).Ok?
    ensures var r := SendNew(s, now, cc).value;
            && StartLoop(r.0, now, cc, grants - 1).Ok?
            && StartLoop(s, now, cc, grants).value.0 == StartLoop(r.0, now, cc, grants - 1).value.0
            && StartLoop(s, now, cc, grants).value.1 == r.1 + StartLoop(r.0, now, cc, grants - 1).value.1
  {
  }

  lemma StartLoopEnds(s: Sender, now: nat, cc: Cc, grants: nat)
    requires grants == 0 || s.Credit() <= 0 || s.unsent <= 0
    ensures StartLoop(s, now, cc, grants)
            == Ok((if s.Credit() > 0 && s.unsent > 0 then s.(blocked := true) else s, []))
  {
  }

  function CeilDiv(a: nat, m: Positive): nat {
    (a + m - 1) / m
  }

  function ReadyToStart(s: Sender): Sender {
    s.(creditSpec := s.maxWnd, inFlight := 0, pullTarget := INIT_PULL, pull := INIT_PULL,
       unsent := s.flowSize, backlog := s.flowSize + HDR_SIZE * CeilDiv(s.flowSize, s.mss),
       phase := Speculating, speculating := true, blocked := false)
  }

  function StartLoop(s: Sender, now: nat, cc: Cc, grants: nat): Sent
    decreases grants
  {
    if s.Credit() <= 0 || s.unsent <= 0 then Ok((s, []))
    else if grants == 0 then Ok((s.(blocked := true), []))
    else
      var r :- SendNew(s, now, cc);
      var rest :- StartLoop(r.0, now, cc, grants - 1);
      Ok((rest.0, r.1 + rest.1))
  }

  ghost function HandleAck(s: Sender, cum: nat, ref: nat, bitmap: nat): Sender {
    HandleBitmap(HandleCumulativeAck(s, cum), ref, bitmap)
  }

  ghost function ProcessAck(s: Sender, cum: nat, ref: nat, bitmap: nat, now: nat, cc: Cc, grant: bool): Sent {
    var s1 := StopSpeculating(CheckFinished(HandleAck(s, cum, ref, bitmap), cum));
    if s1.done then Ok((s1, [])) else SendIfPermitted(s1, now, cc, grant)
  }

  /** A refused packet moves to the retransmit queue. The program aborts on a refusal of anything else. */
  ghost function ProcessNack(s: Sender, q: nat, now: nat, cc: Cc, grant: bool, grant': bool): Sent {
    if q !in s.tx then Aborted
    else
      var r :- QueueForRtx(StopSpeculating(Drop(s, {q})), q, s.tx[q].size, now, cc, grant);
      var r' :- SendIfPermitted(r.0, now, cc, grant');
      Ok((r'.0, r.1 + r'.1))
  }

  function ProcessPull(s: Sender, pullno: nat, now: nat, cc: Cc, grant: bool): Sent {
    SendIfPermitted(StopSpeculating(HandlePull(s, pullno)), now, cc, grant)
  }

  /** The interface card calls back a source that it turned away before. */
  function TimeToSend(s: Sender, now: nat, cc: Cc): Sent {
    if s.unsent == 0 && s.rtx.Keys == {} then Ok((s, []))
    else
      var s1 := s.(blocked := false);
      if (cc.Window? && cc.cwnd < s1.inFlight) || s1.Credit() <= 0 then Ok((s1, []))
      else
        var r :- SendPacket(s1, now, cc);
        SendAgain(r.0, r.1, cc)
  }

  /** After a packet went out: asks for the next turn if there is more to send. */
  function SendAgain(s: Sender, pkts: seq<Packet>, cc: Cc): Sent {
    if pkts == [] || (cc.Window? && cc.cwnd < s.inFlight) || s.Credit() <= 0 then Ok((s, pkts))
    else if s.unsent == 0 && s.rtx.Keys == {} then
      if s.backlog != 0 then Aborted else Ok((s, pkts))
    else Ok((s.(blocked := true), pkts))
  }

  /** The retransmission timer fires for the packet that has been out longest. Its bytes stay counted
      as in flight. */
  function TimerExpired(s: Sender, now: nat, cc: Cc, grant: bool, grant': bool, recent: bool): Sent {
    if s.sendTimes.Keys == {} then Aborted
    else
      var t := Least(s.sendTimes.Keys);
      var q := s.sendTimes[t];
      if q !in s.tx then Aborted
      else
        var size := s.tx[q].size;
        var s1 := s.(sendTimes := s.sendTimes - {t}, tx := s.tx - {q});
        if s1.rtx.Keys != {} then QueueBehind(s1, q, size, now, cc, grant, recent)
        else QueueAlone(s1, q, size, now, cc, grant, grant', recent)
  }

  /** Others are waiting to be resent: the packet joins them, and the receiver is told. */
  function QueueBehind(s: Sender, q: nat, size: nat, now: nat, cc: Cc, grant: bool, recent: bool): Sent {
    var r :- QueueForRtx(StopSpeculating(s), q, size, now, cc, grant);
    var r' :- SendRts(r.0, now, recent);
    Ok((r'.0, r.1 + r'.1))
  }

  function QueueAlone(s: Sender, q: nat, size: nat, now: nat, cc: Cc, grant: bool, grant': bool, recent: bool): Sent {
    var r :- QueueForRtx(s, q, size, now, cc, grant);
    var r' :- AfterTimeout(r.0, size, now, cc, grant', recent);
    Ok((r'.0, r.1 + r'.1))
  }

  /** The retransmit queue was empty before the timeout: resend at once on pulled credit, or ask. */
  function AfterTimeout(s: Sender, size: nat, now: nat, cc: Cc, grant: bool, recent: bool): Sent {
    if cc.Window? && cc.cwnd < size + s.inFlight then SendRts(s, now, recent)
    else if s.creditPull <= 0 then SendRts(s, now, recent)
    else if grant then SendRtx(s, now, cc)
    else Ok((s, []))
  }

  // ---------------------------------------------------------------- dropping one packet after the other

  lemma DropTwice(s: Sender, a: set<nat>, b: set<nat>)
    ensures Drop(Drop(s, a), b) == Drop(s, a + b)
  {
    var l, r := Drop(Drop(s, a), b), Drop(s, a + b);
    assert s.tx - a - b == s.tx - (a + b);
    assert l.sendTimes == r.sendTimes by {
      forall t | t in s.sendTimes ensures t in l.sendTimes <==> t in r.sendTimes {
        if t !in l.sendTimes && t in Drop(s, a).sendTimes {
          var q :| q in b && q in s.tx - a && (s.tx - a)[q].sendTime == t;
          assert q in a + b && q in s.tx;
        }
      }
    }
  }

  lemma DropNothing(s: Sender)
    ensures Drop(s, {}) == s
  {
    assert s.tx - {} == s.tx;
  }

  lemma DropSame(s: Sender, a: set<nat>, b: set<nat>)
    requires forall q :: q in s.tx ==> (q in a <==> q in b)
    ensures Drop(s, a) == Drop(s, b)
  {
    assert s.tx - a == s.tx - b;
  }

  /** Reading a word from its lowest bit. */
  lemma {:induction false} BitAfterShift(n: nat, i: nat)
    ensures Bit(n / 2, i) <==> Bit(n, i + 1)
    ensures Bit(n, 0) <==> n % 2 == 1
  {
  }
}
