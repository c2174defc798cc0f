/**
What a source never leaves undone: it ends every event at the limit of what it may send, or waits at the card; it stops
speculating at the first answer; and after a timeout it tells the receiver if it cannot send by itself.
 */
module NothingMissed {
  import opened Outcomes
  import opened Cyclic
  import opened Quanta
  import opened Sender
  import I = SenderInvariant

  /** There is nothing the source would ask the card for: it may not send, has nothing to send, or waits already. */
  predicate Content(s: Sender, cc: Cc) {
    s.Credit() <= 0 || (cc.Window? && cc.cwnd <= s.inFlight) || (s.unsent <= 0 && s.rtx == map[]) || s.blocked
  }

  lemma ContentIff(s: Sender, cc: Cc)
    requires I.Counts(s)
    ensures Content(s, cc) <==> !WantsToSend(s, cc)
  {
    if s.unsent > 0 {
      I.CeilDivStep(s.unsent, s.mss);
    } else {
      DivModUnique(s.mss - 1, s.mss, 0, s.mss - 1);
    }
    assert s.rtx.Keys == {} <==> s.rtx == map[];
  }

  /** After asking once: a source that wants to send has sent, or paid with speculative credit, or waits. */
  ghost predicate Asked(s: Sender, cc: Cc, grant: bool, r: Sent) {
    r.Ok? ==>
      var (t, pkts) := r.value;
      if Content(s, cc) then t == s && pkts == []
      else if grant then pkts != [] || (t == s.(creditSpec := t.creditSpec) && t.creditSpec < s.creditSpec)
      else t == s.(blocked := true) && pkts == []
  }

  lemma AsksOnce(s: Sender, now: nat, cc: Cc, grant: bool)
    requires I.Book(s) && I.Counts(s)
    ensures Asked(s, cc, grant, SendIfPermitted(s, now, cc, grant))
    ensures !grant && SendIfPermitted(s, now, cc, grant).Ok? ==>
              Content(SendIfPermitted(s, now, cc, grant).value.0, cc)
  {
    ContentIff(s, cc);
    if !Content(s, cc) && grant && s.rtx.Keys != {} {
      var q := Least(s.rtx.Keys);
    }
  }

  /** A packet cannot be paid for without credit, or in the wrong phase: speculative credit is spent while speculating,
      and pulled credit after that. */
  lemma PaymentFailsIff(s: Sender, size: nat)
    ensures SpendCredit(s, size).Aborted? <==>
              || s.Credit() <= 0
              || (if s.creditPull <= 0 && s.speculating && s.creditSpec > 0 then !s.phase.Speculating?
                  else !s.phase.Committed?)
  {
  }

  /** Every answer from the receiver ends speculation. */
  predicate Committed(t: Sender) {
    !t.speculating && !t.phase.Speculating?
  }

  lemma SendingKeepsPhase(s: Sender, now: nat, cc: Cc, grant: bool)
    ensures var r := SendIfPermitted(s, now, cc, grant);
            r.Ok? ==> r.value.0.speculating == s.speculating && r.value.0.phase == s.phase && r.value.0.done == s.done
  {
  }

  /** After an acknowledgement the flow is done, or the source has asked for what it then wanted to send. */
  lemma AckMissesNothing(s: Sender, cum: nat, ref: nat, bitmap: nat, now: nat, cc: Cc, grant: bool)
    requires I.Good(s) && ProcessAck(s, cum, ref, bitmap, now, cc, grant).Ok?
    ensures var t := ProcessAck(s, cum, ref, bitmap, now, cc, grant).value.0;
            Committed(t) && (t.done || grant || Content(t, cc))
    ensures var u := I.Acknowledged(s, cum, ref, bitmap);
            u.done || Asked(u, cc, grant, ProcessAck(s, cum, ref, bitmap, now, cc, grant))
  {
    var u := I.Acknowledged(s, cum, ref, bitmap);
    AsksOnce(u, now, cc, grant);
    SendingKeepsPhase(u, now, cc, grant);
  }

  lemma PullMissesNothing(s: Sender, n: nat, now: nat, cc: Cc, grant: bool)
    requires I.Good(s) && ProcessPull(s, n, now, cc, grant).Ok?
    ensures var t := ProcessPull(s, n, now, cc, grant).value.0; Committed(t) && (grant || Content(t, cc))
    ensures Asked(StopSpeculating(HandlePull(s, n)), cc, grant, ProcessPull(s, n, now, cc, grant))
  {
    var u := StopSpeculating(HandlePull(s, n));
    PulledKeepsBook(s, n);
    AsksOnce(u, now, cc, grant);
    SendingKeepsPhase(u, now, cc, grant);
  }

  lemma PulledKeepsBook(s: Sender, n: nat)
    requires I.Book(s) && I.Counts(s)
    ensures var u := StopSpeculating(HandlePull(s, n)); I.Book(u) && I.Counts(u) && Committed(u)
  {
    SameBooks(s, StopSpeculating(HandlePull(s, n)));
  }

  /** Credit and phase are no part of the books. */
  lemma SameBooks(s: Sender, t: Sender)
    requires I.Book(s) && I.Counts(s)
    requires t == s.(pull := t.pull, creditPull := t.creditPull, creditSpec := t.creditSpec, spent := t.spent,
                     speculating := t.speculating, phase := t.phase)
    ensures I.Book(t) && I.Counts(t)
  {
  }

  /** After a refusal the packet has been sent again or waits to be, and the source has asked a second time for what it
      wanted to send then. */
  lemma RefusalMissesNothing(s: Sender, q: nat, now: nat, cc: Cc, grant: bool, grant': bool)
    requires I.Good(s) && ProcessNack(s, q, now, cc, grant, grant').Ok?
    ensures q in s.tx
    ensures var r := QueueForRtx(StopSpeculating(Drop(s, {q})), q, s.tx[q].size, now, cc, grant);
            var t := ProcessNack(s, q, now, cc, grant, grant').value.0;
            && r.Ok? && Committed(t) && (grant' || Content(t, cc))
            && Asked(r.value.0, cc, grant', SendIfPermitted(r.value.0, now, cc, grant'))
            && t == SendIfPermitted(r.value.0, now, cc, grant').value.0
  {
    var u := StopSpeculating(Drop(s, {q}));
    var u1 := u.(rtx := u.rtx[q := s.tx[q].size]);
    SendingKeepsPhase(u1, now, cc, grant);
    var r := QueueForRtx(u, q, s.tx[q].size, now, cc, grant).value.0;
    QueueingKeepsBook(u, q, s.tx[q].size, now, cc, grant);
    AsksOnce(r, now, cc, grant');
    SendingKeepsPhase(r, now, cc, grant');
  }

  lemma QueueingKeepsBook(s: Sender, q: nat, size: nat, now: nat, cc: Cc, grant: bool)
    requires I.Book(s) && I.Counts(s) && q !in s.tx && q < s.highestSent && HDR_SIZE <= size <= s.Mtu()
    ensures var r := QueueForRtx(s, q, size, now, cc, grant); r.Ok? ==> I.Book(r.value.0) && I.Counts(r.value.0)
  {
    var u := s.(rtx := s.rtx[q := size]);
    assert q in u.rtx.Keys;
    if !u.speculating && WantsToSend(u, cc) && grant {
      ResendKeepsBook(u, now, cc);
    }
  }

  lemma ResendKeepsBook(s: Sender, now: nat, cc: Cc)
    requires I.Book(s) && I.Counts(s)
    ensures var r := SendRtx(s, now, cc); r.Ok? ==> I.Book(r.value.0) && I.Counts(r.value.0)
  {
    if s.rtx.Keys != {} {
      var q := Least(s.rtx.Keys);
      if SpendCredit(s, s.rtx[q]).Ok? {
        var paid := SpendCredit(s, s.rtx[q]).value;
        SameBooks(s, paid.s);
        LaunchKeepsBook(paid.s, q, s.rtx[q], now, cc);
      }
    }
  }

  lemma LaunchKeepsBook(s: Sender, q: nat, size: nat, now: nat, cc: Cc)
    requires I.Book(s) && I.Counts(s) && q in s.rtx && size == s.rtx[q]
    ensures var r := LaunchRtx(s, q, size, now, cc); r.Ok? ==> I.Book(r.value.0) && I.Counts(r.value.0)
  {
  }

  /** The source may send more. */
  predicate HasMore(s: Sender, cc: Cc) {
    s.Credit() > 0 && !(cc.Window? && cc.cwnd < s.inFlight) && (s.unsent != 0 || s.rtx.Keys != {})
  }

  lemma PacketKeepsPhase(s: Sender, now: nat, cc: Cc)
    requires SendPacket(s, now, cc).Ok?
    ensures var (t, pkts) := SendPacket(s, now, cc).value;
            && t.speculating == s.speculating && t.phase == s.phase && t.blocked == s.blocked
            && (s.creditPull > 0 ==> pkts != [])
  {
  }

  lemma AsksAgainIff(s: Sender, pkts: seq<Packet>, cc: Cc)
    requires !s.blocked && SendAgain(s, pkts, cc).Ok?
    ensures var (t, sent) := SendAgain(s, pkts, cc).value;
            && sent == pkts && t == s.(blocked := t.blocked) && (t.blocked <==> pkts != [] && HasMore(t, cc))
  {
  }

  /** A source that was called and has sent waits again exactly if it may send more. It sends whenever it has pulled
      credit and the window is open. */
  lemma CallBackMissesNothing(s: Sender, now: nat, cc: Cc)
    requires TimeToSend(s, now, cc).Ok? && (s.unsent != 0 || s.rtx.Keys != {})
    ensures var (t, pkts) := TimeToSend(s, now, cc).value;
            && t.speculating == s.speculating && t.phase == s.phase
            && (t.blocked <==> pkts != [] && HasMore(t, cc))
            && (s.creditPull > 0 && s.Credit() > 0 && !(cc.Window? && cc.cwnd < s.inFlight) ==> pkts != [])
  {
    var u := s.(blocked := false);
    if !((cc.Window? && cc.cwnd < u.inFlight) || u.Credit() <= 0) {
      PacketKeepsPhase(u, now, cc);
      var r := SendPacket(u, now, cc).value;
      AsksAgainIff(r.0, r.1, cc);
    }
  }

  // ---------------------------------------------------------------- timeouts

  /** After the packet that timed out is queued, and perhaps sent, the source cannot resend by itself: others waited
      before it, the window is closed for one more, or there is no pulled credit. */
  predicate NeedsHelp(s: Sender, queued: Sender, size: nat, cc: Cc) {
    s.rtx.Keys != {} || (cc.Window? && cc.cwnd < size + queued.inFlight) || queued.creditPull <= 0
  }

  /** The source as it is when the packet that has been out longest is taken off the books and queued. */
  function Queued(s: Sender, now: nat, cc: Cc, grant: bool): Sent
    requires s.sendTimes.Keys != {} && s.sendTimes[Least(s.sendTimes.Keys)] in s.tx
  {
    var t := Least(s.sendTimes.Keys);
    var q := s.sendTimes[t];
    var u := s.(sendTimes := s.sendTimes - {t}, tx := s.tx - {q});
    QueueForRtx(if s.rtx.Keys != {} then StopSpeculating(u) else u, q, s.tx[q].size, now, cc, grant)
  }

  /** After a timeout a request-to-send goes out exactly if the source cannot resend by itself and has not sent one
      within a round trip. It carries the next number and the last announcement. */
  lemma RtsSentIff(s: Sender, now: nat, cc: Cc, grant: bool, grant': bool, recent: bool)
    requires I.Good(s) && TimerExpired(s, now, cc, grant, grant', recent).Ok?
    ensures s.sendTimes.Keys != {} && s.sendTimes[Least(s.sendTimes.Keys)] in s.tx && Queued(s, now, cc, grant).Ok?
    ensures var (u, sent) := Queued(s, now, cc, grant).value;
            var size := s.tx[s.sendTimes[Least(s.sendTimes.Keys)]].size;
            var r := TimerExpired(s, now, cc, grant, grant', recent).value;
            u.rtsSent == s.rtsSent && sent <= r.1
            && Tells(u, NeedsHelp(s, u, size, cc) && !recent, r.0, r.1[|sent|..])
  {
    QueueingSendsNoRts(s, now, cc, grant);
    var (u, sent) := Queued(s, now, cc, grant).value;
    var size := s.tx[s.sendTimes[Least(s.sendTimes.Keys)]].size;
    RtsTells(u, now, recent);
    ResendTells(u, size, now, cc, grant', recent);
  }

  /** On the way from `u` to `t` a request-to-send was sent if `told`, and no new packet otherwise. */
  predicate Tells(u: Sender, told: bool, t: Sender, pkts: seq<Packet>) {
    if told then pkts == [Rts(u.highestSent, u.pullTarget)] && t.rtsSent == u.rtsSent + 1
                 && t.highestSent == u.highestSent + 1
    else t.rtsSent == u.rtsSent && t.highestSent == u.highestSent && forall i :: 0 <= i < |pkts| ==> pkts[i].Data?
  }

  lemma RtsTells(u: Sender, now: nat, recent: bool)
    ensures var r := SendRts(u, now, recent); r.Ok? ==> Tells(u, !recent, r.value.0, r.value.1)
  {
  }

  lemma ResendTells(u: Sender, size: nat, now: nat, cc: Cc, grant: bool, recent: bool)
    ensures var r := AfterTimeout(u, size, now, cc, grant, recent);
            var help := (cc.Window? && cc.cwnd < size + u.inFlight) || u.creditPull <= 0;
            r.Ok? ==> Tells(u, help && !recent, r.value.0, r.value.1)
  {
  }

  lemma QueueingSendsNoRts(s: Sender, now: nat, cc: Cc, grant: bool)
    requires s.sendTimes.Keys != {} && s.sendTimes[Least(s.sendTimes.Keys)] in s.tx && Queued(s, now, cc, grant).Ok?
    ensures Queued(s, now, cc, grant).value.0.rtsSent == s.rtsSent
  {
  }

  // ---------------------------------------------------------------- announcements

  /** What the source wants: its backlog, or a packet more than its congestion window, or its window. */
  function Wants(s: Sender, backlog: int, cc: Cc): (w: int)
    ensures w <= backlog && w <= s.maxWnd && (cc.Window? ==> w <= cc.cwnd + s.Mtu())
    ensures w == backlog || w == s.maxWnd || (cc.Window? && w == cc.cwnd + s.Mtu())
  {
    Min(if cc.Window? then Min(backlog, cc.cwnd + s.Mtu()) else backlog, s.maxWnd)
  }

  /** The last announcement covers all but a quantum of what the source wants beyond its credit. */
  predicate Stagnates(s: Sender, backlog: int, cc: Cc) {
    Wants(s, backlog, cc) - s.Credit() < Unquantize(s.pullTarget) - Unquantize(s.pull) + PULL_QUANTUM
  }

  /** An announcement is the least that covers what the source wants beyond its credit, as far as rounding is exact. To
      move it forward the source gives up a packet of its speculative credit, exactly if it no longer speculates, has
      some left, and would stagnate otherwise. */
  lemma AnnouncesLeast(s: Sender, backlog: int, cc: Cc)
    ensures var (target, spec) := ComputePullTarget(s, backlog, cc);
            var lacking := Wants(s, backlog, cc) - s.creditPull - spec + Unquantize(s.pull);
            && spec == s.creditSpec - (if !s.speculating && s.creditSpec > 0 && Stagnates(s, backlog, cc) then s.Mtu()
                                       else 0)
            && (lacking > -PULL_QUANTUM ==> IsCeiling(lacking, target))
  {
    var (target, spec) := ComputePullTarget(s, backlog, cc);
    CeilIsLeastIff(Wants(s, backlog, cc) - s.creditPull - spec + Unquantize(s.pull));
  }

  /** Whatever a source has been through, a flow starts with a full window of speculative credit and nothing announced,
      granted or in flight. */
  lemma StartsAfresh(s: Sender)
    ensures var t := ReadyToStart(s);
            && t.creditSpec == s.maxWnd && t.pullTarget == t.pull == INIT_PULL && t.inFlight == 0
            && t.unsent == s.flowSize && t.speculating && t.phase.Speculating? && !t.blocked
  {
  }
}
