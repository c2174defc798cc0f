/**
What every event keeps true of a sender: its books are disjoint and complete, the bytes in flight
cover what is outstanding, its counters count, its credit is bounded, and its phase is consistent.
 */
module SenderInvariant {
  import opened Outcomes
  import opened Totals
  import opened Quanta
  import opened Cyclic
  import opened Sender

  // ---------------------------------------------------------------- the invariant

  /** Outstanding packets and packets waiting to be resent are different packets. */
  ghost predicate Book(s: Sender) {
    && s.tx.Keys !! s.rtx.Keys
    && (forall q :: q in s.tx ==> q < s.highestSent && HDR_SIZE <= s.tx[q].size <= s.Mtu())
    && (forall q :: q in s.rtx ==> q < s.highestSent && HDR_SIZE <= s.rtx[q] <= s.Mtu())
  }

  /** The timer's index points at outstanding packets. */
  ghost predicate Times(s: Sender) {
    forall t :: t in s.sendTimes ==> s.sendTimes[t] in s.tx && s.tx[s.sendTimes[t]].sendTime == t
  }

  /** Bytes counted as in flight beyond those outstanding: a timeout leaves its packet's bytes in the
      count, and a request-to-send is outstanding without being counted. */
  ghost function Slack(s: Sender): int {
    s.inFlight - Bytes(s.tx)
  }

  ghost predicate Flight(s: Sender) {
    Slack(s) >= 0
  }

  /** Every sequence number is a data packet or a request-to-send, and the backlog is the unsent data
      with one header for each packet it still takes. */
  ghost predicate Counts(s: Sender) {
    && s.highestSent == s.newSent + s.rtsSent
    && 0 <= s.unsent <= s.flowSize
    && (s.unsent > 0 ==> s.unsent == s.flowSize - s.newSent * s.mss)
    && (s.unsent == 0 ==> s.flowSize <= s.newSent * s.mss < s.flowSize + s.mss)
    && s.backlog == s.unsent + HDR_SIZE * CeilDiv(s.unsent, s.mss)
  }

  ghost predicate CreditBound(s: Sender) {
    && s.creditPull + s.Mtu() > 0 && s.creditPull <= s.maxWnd
    && s.pull >= INIT_PULL
    && s.creditPull + s.spent <= Unquantize(s.pull - INIT_PULL)
  }

  ghost predicate PhaseOk(s: Sender) {
    && !s.phase.InitializeCredit?
    && (s.speculating <==> s.phase.Speculating?)
    && (s.creditPull > 0 ==> !s.speculating)
    && (s.done <==> s.phase.Idle?)
    && (s.done ==> s.unsent == 0 && s.tx.Keys == {} && s.rtx.Keys == {})
  }

  ghost predicate Good(s: Sender) {
    Book(s) && Times(s) && Flight(s) && Counts(s) && CreditBound(s) && PhaseOk(s)
  }

  // ---------------------------------------------------------------- the size of every packet

  /** The payload carried by the packets of sizes `sizes`. */
  function Payload(sizes: seq<nat>): int {
    if sizes == [] then 0 else Payload(sizes[..|sizes| - 1]) + sizes[|sizes| - 1] - HDR_SIZE
  }

  /** `sizes[q]` is the size that packet `q` has had since it was first sent. */
  ghost predicate Sized(s: Sender, sizes: seq<nat>) {
    && |sizes| == s.highestSent
    && (forall q :: 0 <= q < |sizes| ==> HDR_SIZE <= sizes[q] <= s.Mtu())
    && (forall q :: q in s.tx && q < |sizes| ==> s.tx[q].size == sizes[q])
    && (forall q :: q in s.rtx && q < |sizes| ==> s.rtx[q] == sizes[q])
    && Payload(sizes) == s.flowSize - s.unsent
  }

  function SizeOf(p: Packet): nat {
    if p.Data? then p.size else HDR_SIZE
  }

  /** The sizes after `pkts` were sent: the packets with new numbers are added. */
  function Extend(sizes: seq<nat>, pkts: seq<Packet>): (r: seq<nat>)
    ensures sizes <= r
    decreases |pkts|
  {
    if pkts == [] then sizes
    else Extend(if pkts[0].seqno == |sizes| then sizes + [SizeOf(pkts[0])] else sizes, pkts[1..])
  }

  predicate Fits(p: Packet, sizes: seq<nat>) {
    p.seqno < |sizes| && sizes[p.seqno] == SizeOf(p)
  }

  lemma {:induction false} ExtendAppend(sizes: seq<nat>, a: seq<Packet>, b: seq<Packet>)
    ensures Extend(sizes, a + b) == Extend(Extend(sizes, a), b)
    decreases |a|
  {
    if a == [] {
      assert a + b == b;
    } else {
      assert (a + b)[1..] == a[1..] + b;
      ExtendAppend(if a[0].seqno == |sizes| then sizes + [SizeOf(a[0])] else sizes, a[1..], b);
    }
  }

  /** No packet is lost from the books between `s` and `t`, and the new ones are entered. */
  ghost predicate Advance(s: Sender, t: Sender) {
    && t.highestSent >= s.highestSent
    && t.mss == s.mss && t.maxWnd == s.maxWnd && t.flowSize == s.flowSize
    && t.pull == s.pull && t.done == s.done
    && (forall q :: q in s.tx || q in s.rtx ==> q in t.tx || q in t.rtx)
    && (forall q :: s.highestSent <= q < t.highestSent ==> q in t.tx || q in t.rtx)
  }

  /** Going from `s` to `t` while sending `pkts` kept everything. */
  ghost predicate Stepped(s: Sender, sizes: seq<nat>, t: Sender, pkts: seq<Packet>) {
    && Good(t) && Sized(t, Extend(sizes, pkts)) && Advance(s, t)
    && (forall i :: 0 <= i < |pkts| ==> Fits(pkts[i], Extend(sizes, pkts)))
  }

  lemma SteppedNothing(s: Sender, sizes: seq<nat>)
    requires Good(s) && Sized(s, sizes)
    ensures Stepped(s, sizes, s, [])
  {
  }

  lemma SteppedTrans(s: Sender, sizes: seq<nat>, t: Sender, a: seq<Packet>, u: Sender, b: seq<Packet>)
    requires Stepped(s, sizes, t, a) && Stepped(t, Extend(sizes, a), u, b)
    ensures Stepped(s, sizes, u, a + b)
  {
    ExtendAppend(sizes, a, b);
    forall i | 0 <= i < |a + b| ensures Fits((a + b)[i], Extend(sizes, a + b)) {
      if i < |a| {
        assert Fits(a[i], Extend(sizes, a));
      }
    }
  }

  // ---------------------------------------------------------------- arithmetic

  lemma CeilDivStep(u: nat, m: Positive)
    requires u > 0
    ensures CeilDiv(u, m) == 1 + CeilDiv(if u < m then 0 else u - m, m)
  {
    if u < m {
      assert u + m - 1 == m * 1 + (u - 1);
      DivModUnique(u + m - 1, m, 1, u - 1);
      DivModUnique(m - 1, m, 0, m - 1);
    } else {
      var k, r := (u - 1) / m, (u - 1) % m;
      assert u - 1 == m * k + r;
      DivModUnique(u - 1, m, k, r);
      assert u + m - 1 == m * (k + 1) + r;
      DivModUnique(u + m - 1, m, k + 1, r);
    }
  }

  // ---------------------------------------------------------------- credit

  lemma SpendCreditOk(s: Sender, size: nat)
    requires Good(s) && !s.done && s.Credit() > 0 && size <= s.Mtu()
    ensures SpendCredit(s, size).Ok?
    ensures var r := SpendCredit(s, size).value;
            && Good(r.s)
            && r.s == s.(creditPull := r.s.creditPull, creditSpec := r.s.creditSpec, spent := r.s.spent)
            && (r.speculative <==> s.creditPull <= 0 && s.speculating)
            && (r.sent <==> s.creditPull > 0 || s.speculating)
  {
  }

  // ---------------------------------------------------------------- sending

  lemma PayloadSnoc(sizes: seq<nat>, size: nat)
    ensures Payload(sizes + [size]) == Payload(sizes) + size - HDR_SIZE
  {
    assert (sizes + [size])[..|sizes|] == sizes;
  }

  /** The counters after one more data packet. */
  lemma CountsNext(s: Sender)
    requires Counts(s) && s.unsent > 0
    ensures s.newSent * s.mss < s.flowSize
    ensures var p := NextPayload(s); var u := s.unsent - p;
            && 0 < p <= s.mss && u >= 0
            && s.backlog - p - HDR_SIZE == u + HDR_SIZE * CeilDiv(u, s.mss)
            && (u > 0 ==> u == s.flowSize - (s.newSent + 1) * s.mss)
            && (u == 0 ==> s.flowSize <= (s.newSent + 1) * s.mss < s.flowSize + s.mss)
  {
    CeilDivStep(s.unsent, s.mss);
    assert (s.newSent + 1) * s.mss == s.newSent * s.mss + s.mss;
  }

  /** `t` is `s` after packet `q` of `size` bytes went out, new or from the retransmit queue. */
  ghost predicate Launched(s: Sender, t: Sender, q: nat, size: nat, now: nat) {
    && q !in s.tx && HDR_SIZE <= size <= s.Mtu()
    && t.tx == s.tx[q := Record(size, now)] && t.rtx == s.rtx - {q}
    && t.sendTimes == AddSendTime(s.sendTimes, now, q)
    && t.inFlight == s.inFlight + size
    && t.mss == s.mss && t.maxWnd == s.maxWnd && t.flowSize == s.flowSize
    && t.pull == s.pull && t.creditPull == s.creditPull && t.spent == s.spent
    && t.phase == s.phase && t.speculating == s.speculating && t.done == s.done
    && t.rtsSent == s.rtsSent
  }

  lemma LaunchedBooks(s: Sender, t: Sender, q: nat, size: nat, now: nat)
    requires Launched(s, t, q, size, now) && Book(s) && Times(s) && Flight(s)
    requires t.highestSent >= s.highestSent && q < t.highestSent
    ensures Book(t) && Times(t) && Slack(t) == Slack(s)
  {
    TotalInsert(s.tx, (r: Record) => r.size, q, Record(size, now));
  }

  /** The timer watches every outstanding packet. */
  ghost predicate Timed(s: Sender) {
    forall q :: q in s.tx ==> s.tx[q].sendTime in s.sendTimes && s.sendTimes[s.tx[q].sendTime] == q
  }

  /** The timer keeps watching every outstanding packet if and only if no two are sent at one instant. */
  lemma TimedIff(s: Sender, t: Sender, q: nat, size: nat, now: nat)
    requires Launched(s, t, q, size, now) && Times(s) && Timed(s)
    ensures Timed(t) <==> now !in s.sendTimes
  {
    if now in s.sendTimes {
      assert t.tx[q].sendTime == now && s.sendTimes[now] in s.tx;
    } else {
      forall p | p in t.tx ensures t.tx[p].sendTime in t.sendTimes && t.sendTimes[t.tx[p].sendTime] == p {
        if p != q {
          assert s.tx[p].sendTime in s.sendTimes;
        }
      }
    }
  }

  lemma LaunchedRest(s: Sender, t: Sender, q: nat, size: nat, now: nat)
    requires Launched(s, t, q, size, now) && CreditBound(s) && PhaseOk(s) && !s.done
    ensures CreditBound(t) && PhaseOk(t)
  {
  }

  lemma LaunchNewIs(s: Sender, now: nat, cc: Cc)
    requires Book(s) && 0 < NextPayload(s) <= s.mss
    requires s.backlog - NextPayload(s) - HDR_SIZE >= s.unsent - NextPayload(s) >= 0
    ensures LaunchNew(s, NextPayload(s), now, cc).Ok?
    ensures var size := NextPayload(s) + HDR_SIZE; var r := LaunchNew(s, NextPayload(s), now, cc).value;
            && Launched(s, r.0, s.highestSent, size, now)
            && r.0.highestSent == s.highestSent + 1 && r.0.newSent == s.newSent + 1
            && r.0.unsent == s.unsent - NextPayload(s) && r.0.backlog == s.backlog - size
            && |r.1| == 1 && r.1[0].Data? && r.1[0].seqno == s.highestSent && r.1[0].size == size
  {
    assert s.rtx - {s.highestSent} == s.rtx;
  }

  lemma LaunchNewSteps(s: Sender, sizes: seq<nat>, now: nat, cc: Cc)
    requires Good(s) && Sized(s, sizes) && s.unsent > 0 && !s.done
    ensures var r := LaunchNew(s, NextPayload(s), now, cc);
            && r.Ok? && Stepped(s, sizes, r.value.0, r.value.1) && |r.value.1| == 1
            && Launched(s, r.value.0, s.highestSent, NextPayload(s) + HDR_SIZE, now)
            && Slack(r.value.0) == Slack(s)
            && r.value.0.unsent == s.unsent - NextPayload(s) < s.unsent
  {
    CountsNext(s);
    LaunchNewIs(s, now, cc);
    var size := NextPayload(s) + HDR_SIZE;
    var r := LaunchNew(s, NextPayload(s), now, cc).value;
    LaunchedBooks(s, r.0, s.highestSent, size, now);
    LaunchedRest(s, r.0, s.highestSent, size, now);
    assert Counts(r.0);
    OnePacketNew(s, sizes, r.0, r.1, size, now);
  }

  lemma OnePacketNew(s: Sender, sizes: seq<nat>, t: Sender, pkts: seq<Packet>, size: nat, now: nat)
    requires Sized(s, sizes) && Launched(s, t, s.highestSent, size, now) && Book(s)
    requires t.highestSent == s.highestSent + 1 && t.unsent == s.unsent - (size - HDR_SIZE)
    requires |pkts| == 1 && pkts[0].seqno == s.highestSent && SizeOf(pkts[0]) == size
    ensures Sized(t, Extend(sizes, pkts)) && Fits(pkts[0], Extend(sizes, pkts)) && Advance(s, t)
  {
    ExtendOne(sizes, pkts);
    SizedSnoc(s, t, sizes, size, now);
  }

  lemma ExtendOne(sizes: seq<nat>, pkts: seq<Packet>)
    requires |pkts| == 1 && pkts[0].seqno == |sizes|
    ensures Extend(sizes, pkts) == sizes + [SizeOf(pkts[0])]
  {
    assert pkts[1..] == [];
  }

  lemma SizedSnoc(s: Sender, t: Sender, sizes: seq<nat>, size: nat, now: nat)
    requires Sized(s, sizes) && Launched(s, t, s.highestSent, size, now) && Book(s)
    requires t.highestSent == s.highestSent + 1 && t.unsent == s.unsent - (size - HDR_SIZE)
    ensures Sized(t, sizes + [size])
  {
    PayloadSnoc(sizes, size);
  }

  lemma LaunchRtxIs(s: Sender, q: nat, now: nat, cc: Cc)
    requires Book(s) && q in s.rtx
    ensures LaunchRtx(s, q, s.rtx[q], now, cc).Ok?
    ensures var r := LaunchRtx(s, q, s.rtx[q], now, cc).value;
            && Launched(s, r.0, q, s.rtx[q], now)
            && r.0.highestSent == s.highestSent && r.0.newSent == s.newSent
            && r.0.unsent == s.unsent && r.0.backlog == s.backlog
            && |r.1| == 1 && r.1[0].Data? && r.1[0].seqno == q && r.1[0].size == s.rtx[q]
  {
  }

  lemma LaunchRtxSteps(s: Sender, sizes: seq<nat>, q: nat, now: nat, cc: Cc)
    requires Good(s) && Sized(s, sizes) && q in s.rtx && !s.done
    ensures var r := LaunchRtx(s, q, s.rtx[q], now, cc);
            && r.Ok? && Stepped(s, sizes, r.value.0, r.value.1) && |r.value.1| == 1
            && Launched(s, r.value.0, q, s.rtx[q], now) && r.value.0.unsent == s.unsent
            && Slack(r.value.0) == Slack(s)
  {
    LaunchRtxIs(s, q, now, cc);
    var r := LaunchRtx(s, q, s.rtx[q], now, cc).value;
    LaunchedBooks(s, r.0, q, s.rtx[q], now);
    LaunchedRest(s, r.0, q, s.rtx[q], now);
    assert Counts(r.0);
    assert r.1[1..] == [];
    assert Extend(sizes, r.1) == sizes;
  }

  lemma SendNewGuards(s: Sender)
    requires Counts(s) && s.unsent > 0
    ensures (s.highestSent - s.rtsSent) * s.mss < s.flowSize && 0 < NextPayload(s) <= s.mss
  {
    CountsNext(s);
    assert s.highestSent - s.rtsSent == s.newSent;
  }

  lemma SendNewUnfolds(s: Sender, now: nat, cc: Cc)
    requires s.unsent > 0 && (s.highestSent - s.rtsSent) * s.mss < s.flowSize && 0 < NextPayload(s)
    requires SpendCredit(s, NextPayload(s) + HDR_SIZE).Ok?
    ensures var paid := SpendCredit(s, NextPayload(s) + HDR_SIZE).value;
            SendNew(s, now, cc) == if paid.sent then LaunchNew(paid.s, NextPayload(s), now, cc) else Ok((paid.s, []))
  {
  }

  lemma SendNewSteps(s: Sender, sizes: seq<nat>, now: nat, cc: Cc)
    requires Good(s) && Sized(s, sizes) && s.unsent > 0 && s.Credit() > 0
    ensures SendNew(s, now, cc).Ok?
    ensures var r := SendNew(s, now, cc).value;
            && Stepped(s, sizes, r.0, r.1) && (r.1 != [] <==> s.creditPull > 0 || s.speculating)
            && r.0.speculating == s.speculating && Slack(r.0) == Slack(s)
            && (r.1 != [] ==> r.0.unsent < s.unsent)
  {
    SendNewGuards(s);
    SpendCreditOk(s, NextPayload(s) + HDR_SIZE);
    SendNewUnfolds(s, now, cc);
    var t := SpendCredit(s, NextPayload(s) + HDR_SIZE).value.s;
    SpendingSteps(s, sizes, t);
    if s.creditPull > 0 || s.speculating {
      LaunchNewSteps(t, sizes, now, cc);
      var r := LaunchNew(t, NextPayload(t), now, cc).value;
      SteppedAfterNothing(s, sizes, t, r.0, r.1);
    }
  }

  lemma SpendingSteps(s: Sender, sizes: seq<nat>, t: Sender)
    requires Good(s) && Sized(s, sizes) && Good(t)
    requires t == s.(creditPull := t.creditPull, creditSpec := t.creditSpec, spent := t.spent)
    ensures Stepped(s, sizes, t, [])
  {
  }

  lemma SteppedAfterNothing(s: Sender, sizes: seq<nat>, t: Sender, u: Sender, pkts: seq<Packet>)
    requires Stepped(s, sizes, t, []) && Stepped(t, sizes, u, pkts)
    ensures Stepped(s, sizes, u, pkts)
  {
    SteppedTrans(s, sizes, t, [], u, pkts);
    assert [] + pkts == pkts;
  }

  /** A resend goes wrong exactly when there is nothing to resend, or when it would be paid for with
      speculative credit. */
  lemma SendRtxSteps(s: Sender, sizes: seq<nat>, now: nat, cc: Cc)
    requires Good(s) && Sized(s, sizes) && s.Credit() > 0
    ensures SendRtx(s, now, cc).Ok? <==> s.rtx.Keys != {} && !s.speculating
    ensures SendRtx(s, now, cc).Ok? ==>
              var r := SendRtx(s, now, cc).value;
              && Stepped(s, sizes, r.0, r.1) && (r.1 != [] <==> s.creditPull > 0)
              && !r.0.speculating && r.0.unsent == s.unsent && Slack(r.0) == Slack(s)
              && (r.1 != [] ==> r.0.rtx == s.rtx - {Least(s.rtx.Keys)}
                                && r.0.creditPull == s.creditPull - s.rtx[Least(s.rtx.Keys)])
  {
    if s.rtx.Keys != {} {
      var q := Least(s.rtx.Keys);
      SpendCreditOk(s, s.rtx[q]);
      var paid := SpendCredit(s, s.rtx[q]).value;
      SpendingSteps(s, sizes, paid.s);
      if paid.sent && !paid.speculative {
        LaunchRtxSteps(paid.s, sizes, q, now, cc);
        var r := LaunchRtx(paid.s, q, s.rtx[q], now, cc).value;
        SteppedAfterNothing(s, sizes, paid.s, r.0, r.1);
      }
    }
  }

  lemma SendPacketSteps(s: Sender, sizes: seq<nat>, now: nat, cc: Cc)
    requires Good(s) && Sized(s, sizes) && s.Credit() > 0 && (s.unsent > 0 || s.rtx.Keys != {})
    ensures SendPacket(s, now, cc).Ok? <==> s.rtx.Keys == {} || !s.speculating
    ensures SendPacket(s, now, cc).Ok? ==>
              var r := SendPacket(s, now, cc).value;
              Stepped(s, sizes, r.0, r.1) && r.0.speculating == s.speculating && Slack(r.0) == Slack(s)
  {
    if s.rtx.Keys == {} {
      SendNewSteps(s, sizes, now, cc);
    } else {
      SendRtxSteps(s, sizes, now, cc);
    }
  }

  lemma BlockedSteps(s: Sender, sizes: seq<nat>, blocked: bool)
    requires Good(s) && Sized(s, sizes)
    ensures Stepped(s, sizes, s.(blocked := blocked), [])
  {
  }

  /** Outside the speculative phase, asking to send cannot go wrong. */
  lemma SendIfPermittedSteps(s: Sender, sizes: seq<nat>, now: nat, cc: Cc, grant: bool)
    requires Good(s) && Sized(s, sizes) && !s.speculating
    ensures SendIfPermitted(s, now, cc, grant).Ok?
    ensures var r := SendIfPermitted(s, now, cc, grant).value;
            Stepped(s, sizes, r.0, r.1) && !r.0.speculating && Slack(r.0) == Slack(s)
  {
    if !WantsToSend(s, cc) {
      SteppedNothing(s, sizes);
    } else if grant {
      SendPacketSteps(s, sizes, now, cc);
    } else {
      BlockedSteps(s, sizes, true);
    }
  }

  /** Without pulled credit, and no longer speculating, the source sends nothing. */
  lemma UnpaidSendsNothing(s: Sender, now: nat, cc: Cc, grant: bool)
    requires Counts(s) && s.creditPull <= 0 && !s.speculating && s.phase.Committed?
    ensures var o := SendIfPermitted(s, now, cc, grant);
            o.Ok? && o.value.1 == [] && o.value.0 == s.(creditSpec := o.value.0.creditSpec,
              blocked := o.value.0.blocked)
  {
    if s.unsent > 0 {
      SendNewGuards(s);
    }
  }

  // ---------------------------------------------------------------- timeouts and refusals

  /** Packet `q` moves from the books of outstanding packets to the retransmit queue. Its bytes leave
      the flight if `counted`. */
  ghost predicate Moved(s: Sender, t: Sender, q: nat) {
    && q in s.tx
    && t.tx == s.tx - {q} && t.rtx == s.rtx[q := s.tx[q].size]
    && (forall i :: i in t.sendTimes ==> i in s.sendTimes && t.sendTimes[i] == s.sendTimes[i] && s.sendTimes[i] != q)
    && (t.inFlight == s.inFlight - s.tx[q].size || t.inFlight == s.inFlight)
    && t == s.(tx := t.tx, rtx := t.rtx, sendTimes := t.sendTimes, inFlight := t.inFlight,
               speculating := t.speculating, phase := t.phase)
  }

  lemma TotalSplitOf(s: Sender, q: nat)
    requires q in s.tx
    ensures Bytes(s.tx) == s.tx[q].size + Bytes(s.tx - {q})
  {
    TotalSplit(s.tx, (r: Record) => r.size, q);
  }

  lemma MovedSteps(s: Sender, sizes: seq<nat>, t: Sender, q: nat)
    requires Good(s) && Sized(s, sizes) && Moved(s, t, q) && PhaseOk(t.(done := s.done))
    ensures !s.done && Stepped(s, sizes, t, [])
  {
    TotalSplit(s.tx, (r: Record) => r.size, q);
    assert Counts(t) && CreditBound(t);
    assert Book(t) && Times(t) && Flight(t) && Sized(t, sizes);
  }

  /** A request-to-send, given a packet whose timeout has left its bytes in the flight. */
  lemma SendRtsSteps(s: Sender, sizes: seq<nat>, now: nat, recent: bool)
    requires Good(s) && Sized(s, sizes) && !s.done && Slack(s) >= HDR_SIZE
    ensures SendRts(s, now, recent).Ok?
    ensures var r := SendRts(s, now, recent).value; Stepped(s, sizes, r.0, r.1)
  {
    if recent {
      SteppedNothing(s, sizes);
    } else {
      SendRtsGood(s, now);
      var r := SendRts(s, now, recent).value;
      RtsSized(s, sizes, r.0, r.1);
    }
  }

  lemma SendRtsGood(s: Sender, now: nat)
    requires Good(s) && !s.done && Slack(s) >= HDR_SIZE
    ensures SendRts(s, now, false).Ok? && Good(SendRts(s, now, false).value.0)
  {
    TotalInsert(s.tx, (r: Record) => r.size, s.highestSent, Record(HDR_SIZE, now));
    var t := SendRts(s, now, false).value.0;
    assert Counts(t) && CreditBound(t) && PhaseOk(t);
    assert Book(t) && Times(t) && Flight(t);
  }

  lemma RtsSized(s: Sender, sizes: seq<nat>, t: Sender, pkts: seq<Packet>)
    requires Sized(s, sizes) && Book(s)
    requires |pkts| == 1 && pkts[0].Rts? && pkts[0].seqno == s.highestSent
    requires t.highestSent == s.highestSent + 1 && t.rtx == s.rtx && t.unsent == s.unsent && t.flowSize == s.flowSize
    requires t.mss == s.mss && t.maxWnd == s.maxWnd && t.pull == s.pull && t.done == s.done
    requires s.highestSent in t.tx && t.tx[s.highestSent].size == HDR_SIZE && t.tx - {s.highestSent} == s.tx
    ensures Sized(t, Extend(sizes, pkts)) && Fits(pkts[0], Extend(sizes, pkts)) && Advance(s, t)
  {
    PayloadSnoc(sizes, HDR_SIZE);
    assert pkts[1..] == [];
    assert Extend(sizes, pkts) == sizes + [HDR_SIZE];
    assert forall q :: q in s.tx ==> q in t.tx && t.tx[q] == s.tx[q];
    assert forall q :: q in t.tx ==> q == s.highestSent || q in s.tx;
  }

  // ---------------------------------------------------------------- acknowledgements

  lemma DropKeeps(s: Sender, sizes: seq<nat>, gone: set<nat>)
    requires Good(s) && Sized(s, sizes)
    ensures Good(Drop(s, gone)) && Sized(Drop(s, gone), sizes) && Drop(s, gone).inFlight >= 0
  {
    var t := Drop(s, gone);
    TotalShrinks(s.tx, (r: Record) => r.size, gone);
    assert Book(t) && Flight(t) && Counts(t) && CreditBound(t) && PhaseOk(t);
    forall i | i in t.sendTimes ensures t.sendTimes[i] in t.tx && t.tx[t.sendTimes[i]].sendTime == i {
      assert s.sendTimes[i] in s.tx;
    }
  }

  lemma DropKeepsTimed(s: Sender, gone: set<nat>)
    requires Timed(s)
    ensures Timed(Drop(s, gone))
  {
    var t := Drop(s, gone);
    forall q | q in t.tx ensures t.tx[q].sendTime in t.sendTimes && t.sendTimes[t.tx[q].sendTime] == q {
      forall p | p in gone && p in s.tx ensures s.tx[p].sendTime != s.tx[q].sendTime {
        assert s.sendTimes[s.tx[p].sendTime] == p && s.sendTimes[s.tx[q].sendTime] == q;
      }
    }
  }

  /** Exactly the acknowledged packets leave the books: from the outstanding ones by either kind of
      acknowledgement, from the retransmit queue only by the cumulative one. */
  lemma HandleAckExact(s: Sender, cum: nat, ref: nat, bitmap: nat)
    ensures var t := HandleAck(s, cum, ref, bitmap);
            && (forall q :: q in t.tx <==> q in s.tx && q >= cum && !(q >= ref && Bits.Bit(bitmap, q - ref)))
            && (forall q :: q in t.rtx <==> q in s.rtx && q >= cum)
            && t.highestSent == s.highestSent && t.inFlight == s.inFlight - (Bytes(s.tx) - Bytes(t.tx))
  {
  }

  lemma HandleAckKeeps(s: Sender, sizes: seq<nat>, cum: nat, ref: nat, bitmap: nat)
    requires Good(s) && Sized(s, sizes)
    ensures Good(HandleAck(s, cum, ref, bitmap)) && Sized(HandleAck(s, cum, ref, bitmap), sizes)
  {
    var s0 := s.(rtx := map q | q in s.rtx && q >= cum :: s.rtx[q]);
    FewerQueued(s, s0, sizes);
    DropKeeps(s0, sizes, set q | q in s.tx && q < cum);
    var s1 := HandleCumulativeAck(s, cum);
    DropKeeps(s1, sizes, set q | q in s1.tx && q >= ref && Bits.Bit(bitmap, q - ref));
  }

  lemma FewerQueued(s: Sender, t: Sender, sizes: seq<nat>)
    requires Good(s) && Sized(s, sizes) && t == s.(rtx := t.rtx)
    requires forall q :: q in t.rtx ==> q in s.rtx && t.rtx[q] == s.rtx[q]
    ensures Good(t) && Sized(t, sizes)
  {
    assert Counts(t) && CreditBound(t) && Flight(t) && Times(t);
  }

  /** The flow is reported finished exactly when everything sent is cumulatively acknowledged and
      nothing is left to send. */
  lemma CheckFinishedExact(s: Sender, cum: nat)
    requires Counts(s) && !s.done && cum <= s.highestSent
    ensures CheckFinished(s, cum).done <==> cum == s.highestSent && s.unsent == 0
  {
    var n := cum - s.rtsSent;
    if cum == s.highestSent {
      assert n == s.newSent;
    } else {
      assert n <= s.newSent - 1;
      MulMonotone(n, s.newSent - 1, s.mss);
      assert (s.newSent - 1) * s.mss == s.newSent * s.mss - s.mss;
    }
  }

  lemma MulMonotone(a: int, b: int, m: nat)
    requires a <= b
    ensures a * m <= b * m
  {
  }

  // ---------------------------------------------------------------- whole events

  /** Queueing the moved packet, and perhaps sending one at once. */
  lemma QueueSteps(s: Sender, sizes: seq<nat>, s1: Sender, q: nat, now: nat, cc: Cc, grant: bool)
    requires Good(s) && Sized(s, sizes) && q in s.tx && q !in s1.rtx
    requires Moved(s, s1.(rtx := s1.rtx[q := s.tx[q].size]), q) && PhaseOk(s1.(rtx := s.rtx, done := s.done))
    ensures QueueForRtx(s1, q, s.tx[q].size, now, cc, grant).Ok?
    ensures var r := QueueForRtx(s1, q, s.tx[q].size, now, cc, grant).value;
            && Stepped(s, sizes, r.0, r.1) && r.0.speculating == s1.speculating && !r.0.done
            && Slack(r.0) == s1.inFlight - (Bytes(s.tx) - s.tx[q].size)
            && (s1.speculating ==> r.0.rtx.Keys != {} && r.0.creditPull == s.creditPull)
  {
    var s2 := s1.(rtx := s1.rtx[q := s.tx[q].size]);
    MovedSteps(s, sizes, s2, q);
    TotalSplit(s.tx, (r: Record) => r.size, q);
    if !s1.speculating {
      SendIfPermittedSteps(s2, sizes, now, cc, grant);
      var r := SendIfPermitted(s2, now, cc, grant).value;
      SteppedAfterNothing(s, sizes, s2, r.0, r.1);
    }
  }

  /** A refusal goes wrong exactly when its packet is no longer outstanding. */
  lemma ProcessNackSteps(s: Sender, sizes: seq<nat>, q: nat, now: nat, cc: Cc, grant: bool, grant': bool)
    requires Good(s) && Sized(s, sizes)
    ensures ProcessNack(s, q, now, cc, grant, grant').Aborted? <==> q !in s.tx
    ensures ProcessNack(s, q, now, cc, grant, grant').Ok? ==>
              var r := ProcessNack(s, q, now, cc, grant, grant').value; Stepped(s, sizes, r.0, r.1)
  {
    if q in s.tx {
      var s1 := StopSpeculating(Drop(s, {q}));
      NackMoves(s, q);
      RefusedSteps(s, sizes, s1, q, now, cc, grant, grant');
    }
  }

  lemma RefusedSteps(s: Sender, sizes: seq<nat>, s1: Sender, q: nat, now: nat, cc: Cc, grant: bool, grant': bool)
    requires Good(s) && Sized(s, sizes) && q in s.tx && q !in s1.rtx && !s1.speculating
    requires Moved(s, s1.(rtx := s1.rtx[q := s.tx[q].size]), q) && PhaseOk(s1.(rtx := s.rtx, done := s.done))
    ensures QueueForRtx(s1, q, s.tx[q].size, now, cc, grant).Ok?
    ensures var r := QueueForRtx(s1, q, s.tx[q].size, now, cc, grant).value;
            var o := SendIfPermitted(r.0, now, cc, grant');
            o.Ok? && Stepped(s, sizes, o.value.0, r.1 + o.value.1)
  {
    QueueSteps(s, sizes, s1, q, now, cc, grant);
    var r := QueueForRtx(s1, q, s.tx[q].size, now, cc, grant).value;
    SendIfPermittedSteps(r.0, Extend(sizes, r.1), now, cc, grant');
    var r' := SendIfPermitted(r.0, now, cc, grant').value;
    SteppedTrans(s, sizes, r.0, r.1, r'.0, r'.1);
  }

  lemma NackMoves(s: Sender, q: nat)
    requires Good(s) && q in s.tx
    ensures var s1 := StopSpeculating(Drop(s, {q}));
            && Moved(s, s1.(rtx := s1.rtx[q := s.tx[q].size]), q) && PhaseOk(s1.(rtx := s.rtx, done := s.done))
  {
    TotalSplit(s.tx, (r: Record) => r.size, q);
    forall i | i in s.sendTimes && s.sendTimes[i] == q ensures s.tx[q].sendTime == i {
    }
  }

  /** What an acknowledgement of everything below `cum`, and of the set bits from `ref`, covers. */
  ghost predicate Covers(cum: nat, ref: nat, bitmap: nat, q: nat) {
    q < cum || (q >= ref && Bits.Bit(bitmap, q - ref))
  }

  /** Going from `s` to `t`, an acknowledgement took only packets that it covers off the books. */
  ghost predicate AckStepped(
    s: Sender, sizes: seq<nat>, cum: nat, ref: nat, bitmap: nat, t: Sender, pkts: seq<Packet>) {
    && Good(t) && Sized(t, Extend(sizes, pkts))
    && (forall i :: 0 <= i < |pkts| ==> Fits(pkts[i], Extend(sizes, pkts)))
    && (forall q: nat :: q in s.tx || q in s.rtx ==> q in t.tx || q in t.rtx || Covers(cum, ref, bitmap, q))
    && t.pull == s.pull && t.highestSent >= s.highestSent
    && (forall q :: s.highestSent <= q < t.highestSent ==> q in t.tx || q in t.rtx)
    && t.mss == s.mss && t.maxWnd == s.maxWnd && t.flowSize == s.flowSize
  }

  /** An acknowledgement cannot fail, and finishes the flow exactly when it covers all of it. */
  lemma ProcessAckKeeps(s: Sender, sizes: seq<nat>, cum: nat, ref: nat, bitmap: nat, now: nat, cc: Cc, grant: bool)
    requires Good(s) && Sized(s, sizes) && cum <= s.highestSent
    ensures ProcessAck(s, cum, ref, bitmap, now, cc, grant).Ok?
    ensures var r := ProcessAck(s, cum, ref, bitmap, now, cc, grant).value;
            && AckStepped(s, sizes, cum, ref, bitmap, r.0, r.1)
            && (r.0.done <==> s.done || (cum == s.highestSent && s.unsent == 0))
  {
    AcknowledgedKeeps(s, sizes, cum, ref, bitmap);
    AcknowledgedExact(s, cum, ref, bitmap);
    ContinueSteps(Acknowledged(s, cum, ref, bitmap), sizes, now, cc, grant);
  }

  /** The sender after an acknowledgement, before it sends on. */
  ghost function Acknowledged(s: Sender, cum: nat, ref: nat, bitmap: nat): Sender {
    StopSpeculating(CheckFinished(HandleAck(s, cum, ref, bitmap), cum))
  }

  lemma AcknowledgedKeeps(s: Sender, sizes: seq<nat>, cum: nat, ref: nat, bitmap: nat)
    requires Good(s) && Sized(s, sizes) && cum <= s.highestSent
    ensures var t := Acknowledged(s, cum, ref, bitmap); Good(t) && Sized(t, sizes) && !t.speculating
  {
    HandleAckExact(s, cum, ref, bitmap);
    HandleAckKeeps(s, sizes, cum, ref, bitmap);
    FinishedKeeps(HandleAck(s, cum, ref, bitmap), sizes, cum);
  }

  lemma AcknowledgedExact(s: Sender, cum: nat, ref: nat, bitmap: nat)
    requires Counts(s) && cum <= s.highestSent
    ensures var t := Acknowledged(s, cum, ref, bitmap);
            && (forall q: nat :: q in s.tx || q in s.rtx ==> q in t.tx || q in t.rtx || Covers(cum, ref, bitmap, q))
            && t.pull == s.pull && t.highestSent == s.highestSent
            && (t.done <==> s.done || (cum == s.highestSent && s.unsent == 0))
  {
    HandleAckExact(s, cum, ref, bitmap);
    var s1 := HandleAck(s, cum, ref, bitmap);
    assert Counts(s1);
    if !s1.done {
      CheckFinishedExact(s1, cum);
    }
  }

  /** An unfinished flow goes on sending. */
  lemma ContinueSteps(s: Sender, sizes: seq<nat>, now: nat, cc: Cc, grant: bool)
    requires Good(s) && Sized(s, sizes) && !s.speculating
    ensures var t := if s.done then Ok((s, [])) else SendIfPermitted(s, now, cc, grant);
            t.Ok? && Stepped(s, sizes, t.value.0, t.value.1)
  {
    if s.done {
      SteppedNothing(s, sizes);
    } else {
      SendIfPermittedSteps(s, sizes, now, cc, grant);
    }
  }

  lemma FinishedKeeps(s: Sender, sizes: seq<nat>, cum: nat)
    requires Good(s) && Sized(s, sizes) && cum <= s.highestSent
    requires forall q :: q in s.tx || q in s.rtx ==> q >= cum
    ensures var t := StopSpeculating(CheckFinished(s, cum)); Good(t) && Sized(t, sizes) && !t.speculating
  {
    var t := StopSpeculating(CheckFinished(s, cum));
    if !s.done {
      CheckFinishedExact(s, cum);
      if t.done {
        NothingOutstanding(s);
      }
    }
    OtherPhaseKeeps(s, t, sizes);
  }

  lemma NothingOutstanding(s: Sender)
    requires Book(s) && forall q :: q in s.tx || q in s.rtx ==> q >= s.highestSent
    ensures s.tx.Keys == {} && s.rtx.Keys == {}
  {
  }

  lemma OtherPhaseKeeps(s: Sender, t: Sender, sizes: seq<nat>)
    requires Good(s) && Sized(s, sizes) && t == s.(phase := t.phase, done := t.done, speculating := t.speculating)
    ensures Book(t) && Times(t) && Flight(t) && Counts(t) && CreditBound(t) && Sized(t, sizes)
  {
  }

  /** Pulled credit is bounded by what the pull number stands for, and by the window. */
  lemma ProcessPullKeeps(s: Sender, sizes: seq<nat>, pullno: nat, now: nat, cc: Cc, grant: bool)
    requires Good(s) && Sized(s, sizes)
    ensures ProcessPull(s, pullno, now, cc, grant).Ok?
    ensures var r := ProcessPull(s, pullno, now, cc, grant).value;
            && Stepped(StopSpeculating(HandlePull(s, pullno)), sizes, r.0, r.1)
            && r.0.pull == if pullno > s.pull then pullno else s.pull
  {
    PullGood(s, sizes, pullno);
    SendIfPermittedSteps(StopSpeculating(HandlePull(s, pullno)), sizes, now, cc, grant);
  }

  lemma PullGood(s: Sender, sizes: seq<nat>, pullno: nat)
    requires Good(s) && Sized(s, sizes)
    ensures var t := StopSpeculating(HandlePull(s, pullno));
            Good(t) && Sized(t, sizes) && !t.speculating && t.pull == (if pullno > s.pull then pullno else s.pull)
  {
    var t := StopSpeculating(HandlePull(s, pullno));
    PullCredit(s, pullno);
    SameBooks(s, t, sizes);
  }

  lemma SameBooks(s: Sender, t: Sender, sizes: seq<nat>)
    requires Good(s) && Sized(s, sizes) && t == s.(creditPull := t.creditPull, pull := t.pull,
                                                          speculating := t.speculating, phase := t.phase)
    ensures Counts(t) && Book(t) && Times(t) && Flight(t) && Sized(t, sizes)
  {
  }

  lemma PullCredit(s: Sender, pullno: nat)
    requires CreditBound(s)
    ensures CreditBound(HandlePull(s, pullno))
  {
  }

  /** The timer's index always leads to an outstanding packet. */
  lemma TimerFindsRecord(s: Sender)
    requires Good(s) && s.sendTimes.Keys != {}
    ensures s.sendTimes[Least(s.sendTimes.Keys)] in s.tx && !s.done
  {
  }

  /** After a timeout on an empty retransmit queue the source resends on pulled credit without checking
      that the packet is still queued and that pulled and speculative credit together are positive.
      It goes wrong exactly when one of the two fails. */
  lemma AfterTimeoutSteps(s: Sender, sizes: seq<nat>, size: nat, now: nat, cc: Cc, grant: bool, recent: bool)
    requires Good(s) && Sized(s, sizes) && !s.done && Slack(s) >= HDR_SIZE
    ensures AfterTimeout(s, size, now, cc, grant, recent).Aborted? <==>
              && !(cc.Window? && cc.cwnd < size + s.inFlight)
              && s.creditPull > 0 && grant && (s.rtx.Keys == {} || s.Credit() <= 0)
    ensures AfterTimeout(s, size, now, cc, grant, recent).Ok? ==>
              var r := AfterTimeout(s, size, now, cc, grant, recent).value; Stepped(s, sizes, r.0, r.1)
  {
    if (cc.Window? && cc.cwnd < size + s.inFlight) || s.creditPull <= 0 {
      SendRtsSteps(s, sizes, now, recent);
    } else if grant {
      if s.Credit() > 0 {
        SendRtxSteps(s, sizes, now, cc);
      }
    } else {
      SteppedNothing(s, sizes);
    }
  }

  lemma QueueBehindSteps(s: Sender, sizes: seq<nat>, s1: Sender, q: nat, now: nat, cc: Cc, grant: bool, recent: bool)
    requires Good(s) && Sized(s, sizes) && q in s.tx && q !in s1.rtx && s1.inFlight == s.inFlight
    requires Moved(s, StopSpeculating(s1).(rtx := s1.rtx[q := s.tx[q].size]), q)
    requires PhaseOk(StopSpeculating(s1).(rtx := s.rtx, done := s.done))
    ensures QueueBehind(s1, q, s.tx[q].size, now, cc, grant, recent).Ok?
    ensures var r := QueueBehind(s1, q, s.tx[q].size, now, cc, grant, recent).value; Stepped(s, sizes, r.0, r.1)
  {
    var s2 := StopSpeculating(s1);
    QueueSteps(s, sizes, s2, q, now, cc, grant);
    var r := QueueForRtx(s2, q, s.tx[q].size, now, cc, grant).value;
    SendRtsSteps(r.0, Extend(sizes, r.1), now, recent);
    var r' := SendRts(r.0, now, recent).value;
    SteppedTrans(s, sizes, r.0, r.1, r'.0, r'.1);
  }

  lemma QueueAloneSteps(
    s: Sender, sizes: seq<nat>, s1: Sender, q: nat, now: nat, cc: Cc, grant: bool, grant': bool, recent: bool)
    requires Good(s) && Sized(s, sizes) && q in s.tx && q !in s1.rtx && s1.inFlight == s.inFlight
    requires Moved(s, s1.(rtx := s1.rtx[q := s.tx[q].size]), q) && PhaseOk(s1.(rtx := s.rtx, done := s.done))
    ensures QueueAlone(s1, q, s.tx[q].size, now, cc, grant, grant', recent).Ok? ==>
              var r := QueueAlone(s1, q, s.tx[q].size, now, cc, grant, grant', recent).value;
              Stepped(s, sizes, r.0, r.1)
  {
    var size := s.tx[q].size;
    QueueSteps(s, sizes, s1, q, now, cc, grant);
    var r := QueueForRtx(s1, q, size, now, cc, grant).value;
    AfterTimeoutSteps(r.0, Extend(sizes, r.1), size, now, cc, grant', recent);
    if AfterTimeout(r.0, size, now, cc, grant', recent).Ok? {
      var r' := AfterTimeout(r.0, size, now, cc, grant', recent).value;
      SteppedTrans(s, sizes, r.0, r.1, r'.0, r'.1);
    }
  }

  /** A timeout moves its packet to the retransmit queue, whatever else it sends. */
  lemma TimerExpiredSteps(s: Sender, sizes: seq<nat>, now: nat, cc: Cc, grant: bool, grant': bool, recent: bool)
    requires Good(s) && Sized(s, sizes) && s.sendTimes.Keys != {}
    ensures s.rtx.Keys != {} ==> TimerExpired(s, now, cc, grant, grant', recent).Ok?
    ensures TimerExpired(s, now, cc, grant, grant', recent).Ok? ==>
              var r := TimerExpired(s, now, cc, grant, grant', recent).value; Stepped(s, sizes, r.0, r.1)
  {
    TimerFindsRecord(s);
    var t := Least(s.sendTimes.Keys);
    var q := s.sendTimes[t];
    var s1 := s.(sendTimes := s.sendTimes - {t}, tx := s.tx - {q});
    TimeoutMoves(s, t);
    if s.rtx.Keys != {} {
      QueueBehindSteps(s, sizes, s1, q, now, cc, grant, recent);
    } else {
      QueueAloneSteps(s, sizes, s1, q, now, cc, grant, grant', recent);
    }
  }

  /** A timeout on an empty retransmit queue resends without a second look: on pulled credit although the
      total credit is used up, or once more although the first grant has emptied the queue. */
  predicate ResendHazard(s: Sender, cc: Cc, grant: bool, grant': bool)
    requires s.sendTimes.Keys != {}
  {
    var q := s.sendTimes[Least(s.sendTimes.Keys)];
    q in s.tx && s.rtx.Keys == {} && grant' && !s.speculating && s.creditPull > 0 &&
    var size := s.tx[q].size;
    if s.Credit() > 0 then
      && grant && !s.blocked && s.creditPull > size
      && (cc.Window? ==> s.inFlight < cc.cwnd && s.inFlight + 2 * size <= cc.cwnd)
    else
      cc.Window? ==> s.inFlight + size <= cc.cwnd
  }

  /** The card calls back a source that has a packet to resend while it is still speculating. */
  predicate SpeculativeHazard(s: Sender, cc: Cc) {
    s.rtx.Keys != {} && s.speculating && s.Credit() > 0 && !(cc.Window? && cc.cwnd < s.inFlight)
  }

  /** A timeout goes wrong exactly under a guard on the state before it. */
  lemma TimerAborts(s: Sender, sizes: seq<nat>, now: nat, cc: Cc, grant: bool, grant': bool, recent: bool)
    requires Good(s) && Sized(s, sizes) && s.sendTimes.Keys != {}
    ensures TimerExpired(s, now, cc, grant, grant', recent).Aborted? <==> ResendHazard(s, cc, grant, grant')
  {
    TimerFindsRecord(s);
    TimerExpiredSteps(s, sizes, now, cc, grant, grant', recent);
    var t := Least(s.sendTimes.Keys);
    var q := s.sendTimes[t];
    var s1 := s.(sendTimes := s.sendTimes - {t}, tx := s.tx - {q});
    if s.rtx.Keys == {} {
      TimeoutMoves(s, t);
      AloneAborts(s, sizes, s1, q, now, cc, grant, grant', recent);
    }
  }

  lemma AloneAborts(
    s: Sender, sizes: seq<nat>, s1: Sender, q: nat, now: nat, cc: Cc, grant: bool, grant': bool, recent: bool)
    requires Good(s) && Sized(s, sizes) && q in s.tx && s.rtx.Keys == {} && s1.inFlight == s.inFlight
    requires Moved(s, s1.(rtx := s1.rtx[q := s.tx[q].size]), q) && PhaseOk(s1.(rtx := s.rtx, done := s.done))
    requires s1 == s.(tx := s1.tx, sendTimes := s1.sendTimes)
    ensures QueueAlone(s1, q, s.tx[q].size, now, cc, grant, grant', recent).Aborted? <==>
              && grant' && !s.speculating && s.creditPull > 0
              && if s.Credit() > 0 then
                   && grant && !s.blocked && s.creditPull > s.tx[q].size
                   && (cc.Window? ==> s.inFlight < cc.cwnd && s.inFlight + 2 * s.tx[q].size <= cc.cwnd)
                 else
                   cc.Window? ==> s.inFlight + s.tx[q].size <= cc.cwnd
  {
    var size := s.tx[q].size;
    QueueSteps(s, sizes, s1, q, now, cc, grant);
    AloneQueued(s, sizes, s1, q, now, cc, grant);
    var r := QueueForRtx(s1, q, size, now, cc, grant).value;
    AfterTimeoutSteps(r.0, Extend(sizes, r.1), size, now, cc, grant', recent);
  }

  lemma AloneQueued(s: Sender, sizes: seq<nat>, s1: Sender, q: nat, now: nat, cc: Cc, grant: bool)
    requires Good(s) && Sized(s, sizes) && q in s.tx && s.rtx.Keys == {}
    requires Moved(s, s1.(rtx := s1.rtx[q := s.tx[q].size]), q) && PhaseOk(s1.(rtx := s.rtx, done := s.done))
    requires s1 == s.(tx := s1.tx, sendTimes := s1.sendTimes)
    ensures QueueForRtx(s1, q, s.tx[q].size, now, cc, grant).Ok?
    ensures AskedAlone(s, QueueForRtx(s1, q, s.tx[q].size, now, cc, grant).value.0, s.tx[q].size, cc, grant)
  {
    var s2 := s1.(rtx := s1.rtx[q := s.tx[q].size]);
    MovedSteps(s, sizes, s2, q);
    assert q in s2.rtx && s2.rtx.Keys == {q};
    if s2.speculating {
      assert AskedAlone(s2, s2, s.tx[q].size, cc, grant);
    } else {
      PermittedAlone(s2, sizes, q, now, cc, grant);
    }
  }

  /** The only packet in the queue leaves it if credit, window and card allow. */
  predicate AskedAlone(s: Sender, u: Sender, size: nat, cc: Cc, grant: bool) {
    if s.creditPull > 0 && s.Credit() > 0 && !(cc.Window? && cc.cwnd <= s.inFlight) && !s.blocked && grant then
      u.rtx.Keys == {} && u.inFlight == s.inFlight + size && u.creditPull == s.creditPull - size
    else
      && u.rtx.Keys != {} && u.inFlight == s.inFlight && u.creditPull == s.creditPull
      && (u.Credit() == s.Credit() || s.creditPull <= 0)
  }

  lemma PermittedAlone(s: Sender, sizes: seq<nat>, q: nat, now: nat, cc: Cc, grant: bool)
    requires Good(s) && Sized(s, sizes) && q in s.rtx && s.rtx.Keys == {q} && !s.speculating
    ensures SendIfPermitted(s, now, cc, grant).Ok?
    ensures AskedAlone(s, SendIfPermitted(s, now, cc, grant).value.0, s.rtx[q], cc, grant)
  {
    if s.Credit() > 0 {
      SendRtxSteps(s, sizes, now, cc);
      ResendAlone(s, q, now, cc);
    }
  }

  lemma ResendAlone(s: Sender, q: nat, now: nat, cc: Cc)
    requires q in s.rtx && s.rtx.Keys == {q} && SendRtx(s, now, cc).Ok?
    ensures var t := SendRtx(s, now, cc).value.0;
            if s.creditPull > 0
            then t.rtx.Keys == {} && t.inFlight == s.inFlight + s.rtx[q] && t.creditPull == s.creditPull - s.rtx[q]
            else t.rtx == s.rtx && t.inFlight == s.inFlight && t.creditPull == s.creditPull
  {
    assert Least(s.rtx.Keys) in s.rtx.Keys;
  }

  lemma TimeoutMoves(s: Sender, t: nat)
    requires Good(s) && t in s.sendTimes && s.sendTimes[t] in s.tx
    ensures var q := s.sendTimes[t]; var s1 := s.(sendTimes := s.sendTimes - {t}, tx := s.tx - {q});
            && Moved(s, s1.(rtx := s1.rtx[q := s.tx[q].size]), q) && PhaseOk(s1.(rtx := s.rtx, done := s.done))
            && Moved(s, StopSpeculating(s1).(rtx := s1.rtx[q := s.tx[q].size]), q)
            && PhaseOk(StopSpeculating(s1).(rtx := s.rtx, done := s.done))
  {
    var q := s.sendTimes[t];
    forall i | i in s.sendTimes && s.sendTimes[i] == q ensures i == t {
      assert s.tx[q].sendTime == i;
    }
  }

  /** Calling a source back goes wrong exactly when a timeout has queued a packet for resending while
      the source is still speculating: the resend would be paid for with speculative credit. */
  lemma TimeToSendSteps(s: Sender, sizes: seq<nat>, now: nat, cc: Cc)
    requires Good(s) && Sized(s, sizes)
    ensures TimeToSend(s, now, cc).Aborted? <==> SpeculativeHazard(s, cc)
    ensures TimeToSend(s, now, cc).Ok? ==>
              var r := TimeToSend(s, now, cc).value; Stepped(s, sizes, r.0, r.1)
  {
    if s.unsent == 0 && s.rtx.Keys == {} {
      SteppedNothing(s, sizes);
    } else {
      BlockedSteps(s, sizes, false);
      var s1 := s.(blocked := false);
      if !(cc.Window? && cc.cwnd < s1.inFlight) && s1.Credit() > 0 {
        CalledBackSteps(s, sizes, s1, now, cc);
      }
    }
  }

  lemma CalledBackSteps(s: Sender, sizes: seq<nat>, s1: Sender, now: nat, cc: Cc)
    requires Stepped(s, sizes, s1, []) && s1.Credit() > 0 && (s1.unsent > 0 || s1.rtx.Keys != {})
    ensures var p := SendPacket(s1, now, cc);
            && (p.Aborted? <==> s1.rtx.Keys != {} && s1.speculating)
            && (p.Ok? ==>
                  var r := SendAgain(p.value.0, p.value.1, cc);
                  r.Ok? && Stepped(s, sizes, r.value.0, r.value.1))
  {
    SendPacketSteps(s1, sizes, now, cc);
    if SendPacket(s1, now, cc).Ok? {
      var r := SendPacket(s1, now, cc).value;
      UnblockedSteps(s, sizes, s1, r.0, r.1, cc);
    }
  }

  lemma UnblockedSteps(s: Sender, sizes: seq<nat>, s1: Sender, t: Sender, pkts: seq<Packet>, cc: Cc)
    requires Stepped(s, sizes, s1, []) && Stepped(s1, sizes, t, pkts)
    ensures SendAgain(t, pkts, cc).Ok?
    ensures Stepped(s, sizes, SendAgain(t, pkts, cc).value.0, SendAgain(t, pkts, cc).value.1)
  {
    SteppedAfterNothing(s, sizes, s1, t, pkts);
    SendAgainSteps(s, sizes, t, pkts, cc);
  }

  lemma SendAgainSteps(s: Sender, sizes: seq<nat>, t: Sender, pkts: seq<Packet>, cc: Cc)
    requires Stepped(s, sizes, t, pkts)
    ensures SendAgain(t, pkts, cc).Ok? && Stepped(s, sizes, SendAgain(t, pkts, cc).value.0, pkts)
    ensures SendAgain(t, pkts, cc).value.1 == pkts
  {
    BlockedSteps(t, Extend(sizes, pkts), true);
    SteppedTrans(s, sizes, t, pkts, t.(blocked := true), []);
    assert pkts + [] == pkts;
    if t.unsent == 0 {
      DivModUnique(t.mss - 1, t.mss, 0, t.mss - 1);
    }
  }

  lemma {:induction false} StartLoopSteps(s: Sender, sizes: seq<nat>, now: nat, cc: Cc, grants: nat)
    requires Good(s) && Sized(s, sizes)
    ensures StartLoop(s, now, cc, grants).Ok?
    ensures var r := StartLoop(s, now, cc, grants).value; Stepped(s, sizes, r.0, r.1)
    decreases grants
  {
    if s.Credit() <= 0 || s.unsent <= 0 {
      SteppedNothing(s, sizes);
    } else if grants == 0 {
      BlockedSteps(s, sizes, true);
    } else {
      SendNewSteps(s, sizes, now, cc);
      var r := SendNew(s, now, cc).value;
      StartLoopSteps(r.0, Extend(sizes, r.1), now, cc, grants - 1);
      var rest := StartLoop(r.0, now, cc, grants - 1).value;
      SteppedTrans(s, sizes, r.0, r.1, rest.0, rest.1);
      StartLoopUnfolds(s, now, cc, grants);
    }
  }

  lemma ReadyToStartGood(mss: Positive, maxWnd: nat, flowSize: nat)
    ensures Good(ReadyToStart(Fresh(mss, maxWnd, flowSize))) && Sized(ReadyToStart(Fresh(mss, maxWnd, flowSize)), [])
  {
    var s := ReadyToStart(Fresh(mss, maxWnd, flowSize));
    assert 0 * s.mss == 0;
    assert Counts(s);
  }

  lemma StartFlowGood(mss: Positive, maxWnd: nat, flowSize: nat, now: nat, cc: Cc, grants: nat)
    ensures StartFlow(Fresh(mss, maxWnd, flowSize), now, cc, grants).Ok?
    ensures var r := StartFlow(Fresh(mss, maxWnd, flowSize), now, cc, grants).value;
            Stepped(ReadyToStart(Fresh(mss, maxWnd, flowSize)), [], r.0, r.1)
  {
    ReadyToStartGood(mss, maxWnd, flowSize);
    StartLoopSteps(ReadyToStart(Fresh(mss, maxWnd, flowSize)), [], now, cc, grants);
  }
}
