/**
What a standstill takes, for whole families of flows larger than their initial window: a demand that overtakes a
trimmed packet, or a trimmed packet before any demand. Each of the two alone is enough.
 */
module TrimmedStall {
  import opened Outcomes
  import opened Quanta
  import opened Cyclic
  import opened Protocol
  import opened OnePacketOut
  import opened CreditLoop
  import opened Starvation
  import opened NeverStalls
  import opened CarefulRuns
  import S = Sender
  import I = SenderInvariant
  import P = PullPacer
  import W = ReceiveWindow

  // ---------------------------------------------------------------- the flows

  function Mtu(c: Config): nat {
    c.mss + S.HDR_SIZE
  }

  /** A flow that does not fit its initial window, which has room for fifteen packets of at least two quanta, and for
      ten quanta that rounding may take. */
  predicate Roomy(c: Config) {
    ProgramSizes(c) && TotalBytes(c) > c.maxWnd >= 15 * Mtu(c) + 10 * PULL_QUANTUM && Mtu(c) >= 1024
  }

  /** Where both ends start to count, in bytes. */
  const ORIGIN: int := Unquantize(INIT_PULL)

  lemma CeilDivTwice(flowSize: nat, m: Positive)
    ensures flowSize > 2 * m ==> S.CeilDiv(flowSize, m) == 2 + S.CeilDiv(flowSize - 2 * m, m)
    ensures flowSize <= 2 * m ==> S.CeilDiv(flowSize, m) <= 2
  {
    assert S.CeilDiv(0, m) == 0 by {
      DivModUnique(m - 1, m, 0, m - 1);
    }
    if flowSize > 0 {
      I.CeilDivStep(flowSize, m);
    }
    if flowSize > m {
      I.CeilDivStep(flowSize - m, m);
    }
  }

  lemma RoomyIsLong(c: Config)
    requires Roomy(c)
    ensures c.flowSize > 2 * c.mss && FirstSize(c) == Mtu(c)
    ensures var u := c.flowSize - 2 * c.mss;
            u + S.HDR_SIZE * S.CeilDiv(u, c.mss) == TotalBytes(c) - 2 * Mtu(c)
  {
    CeilDivTwice(c.flowSize, c.mss);
  }

  /** The first two packets are out and the rest of the flow is not. */
  ghost predicate TwoOut(c: Config, s: S.Sender) {
    && s.mss == c.mss && s.maxWnd == c.maxWnd && s.flowSize == c.flowSize
    && s.highestSent == 2 && s.rtsSent == 0
    && s.tx.Keys == {0, 1} && s.tx[0].size == Mtu(c) && s.tx[1].size == Mtu(c) && s.rtx == map[]
    && s.unsent > 0 && s.backlog == TotalBytes(c) - 2 * Mtu(c) && !s.done
    && s.phase == if s.speculating then S.Speculating else S.Committed
  }

  // ---------------------------------------------------------------- what is announced

  /** What a source with `want` bytes of demand announces, in bytes. */
  function Level(s: S.Sender, want: int): int {
    want - s.creditPull - s.creditSpec + Unquantize(s.pull)
  }

  /** The source's last announcement is what it would announce now. */
  predicate InStep(s: S.Sender, want: int) {
    s.pullTarget == QuantizeCeil(Level(s, want))
  }

  /** The next announcement rises by the packet that goes out, and takes speculative credit only if the last one
      was higher. */
  lemma Announces(s: S.Sender, backlog: int, cc: S.Cc, want: int, size: nat)
    requires want == S.Min(if cc.Window? then S.Min(backlog, cc.cwnd + s.Mtu()) else backlog, s.maxWnd)
    requires Level(s, want) >= size >= 1024
    ensures var (target, spec) := S.ComputePullTarget(s, backlog, cc);
            && InStep(s.(pullTarget := target, creditSpec := spec), want)
            && (spec == s.creditSpec || spec == s.creditSpec - s.Mtu())
            && (InStep(s.(creditPull := s.creditPull + size), want) || s.speculating ==> spec == s.creditSpec)
  {
    CeilCovers(Level(s, want) - size);
  }

  // ---------------------------------------------------------------- what the source does

  /** The demand of a source with so much backlog. */
  function Want(s: S.Sender, cc: S.Cc): int {
    S.Min(if cc.Window? then S.Min(s.backlog, cc.cwnd + s.Mtu()) else s.backlog, s.maxWnd)
  }

  /** From `s` to `t` a source has sent packet `q` again on pulled credit. */
  ghost predicate SentAgain(s: S.Sender, t: S.Sender, q: nat, size: nat, now: nat, cc: S.Cc) {
    && t == s.(rtx := map[], tx := s.tx[q := S.Record(size, now)], sendTimes := t.sendTimes,
               inFlight := s.inFlight + size, creditPull := s.creditPull - size, spent := s.spent + size,
               pullTarget := t.pullTarget, creditSpec := t.creditSpec)
    && Announced(s, t, cc)
  }

  ghost predicate Announced(s: S.Sender, t: S.Sender, cc: S.Cc) {
    && InStep(t, Want(s, cc)) && (t.creditSpec == s.creditSpec || t.creditSpec == s.creditSpec - s.Mtu())
    && (InStep(s, Want(s, cc)) ==> t.creditSpec == s.creditSpec)
  }

  lemma SendsAgain(s: S.Sender, q: nat, size: nat, now: nat, cc: S.Cc) returns (t: S.Sender)
    requires s.rtx == map[q := size] && q !in s.tx && size >= 1024 && s.creditPull > 0 && s.Credit() > 0
    requires s.phase.Committed? && !s.speculating && Level(s, Want(s, cc)) >= 0
    ensures S.SendRtx(s, now, cc) == Ok((t, [S.Data(q, size, t.pullTarget, true)]))
    ensures SentAgain(s, t, q, size, now, cc)
  {
    assert s.rtx.Keys == {q} && S.Least(s.rtx.Keys) == q;
    var paid := s.(creditPull := s.creditPull - size, spent := s.spent + size);
    assert S.SpendCredit(s, size) == Ok(S.Spending(paid, true, false));
    assert s.rtx - {q} == map[];
    assert S.SendRtx(s, now, cc) == S.LaunchRtx(paid, q, size, now, cc);
    t := S.LaunchRtx(paid, q, size, now, cc).value.0;
    Announces(paid, paid.backlog, cc, Want(s, cc), size);
  }

  /** Packet 1 is refused, for the first time or again: it is sent again at once. */
  lemma SendsSecondAgain(c: Config, s: S.Sender, now: nat, cc: S.Cc) returns (t: S.Sender)
    requires TwoOut(c, s) && !s.speculating && !s.blocked && s.creditPull > 0 && s.Credit() > 0 && Mtu(c) >= 1024
    requires cc.Window? ==> cc.cwnd == s.inFlight
    requires Level(s, Want(s, cc)) >= 0
    ensures S.ProcessNack(s, 1, now, cc, true, false) == Ok((t, [S.Data(1, Mtu(c), t.pullTarget, true)]))
    ensures TwoOut(c, t) && !t.speculating && t.creditPull == s.creditPull - Mtu(c)
    ensures t.inFlight == s.inFlight && t.pull == s.pull && (cc.Window? ==> !t.blocked) && Announced(s, t, cc)
  {
    var m := Mtu(c);
    I.TotalSplitOf(s, 1);
    var d := S.StopSpeculating(S.Drop(s, {1}));
    assert d == s.(tx := s.tx - {1}, sendTimes := d.sendTimes, inFlight := s.inFlight - m);
    var d1 := d.(rtx := map[1 := m]);
    assert map[][1 := m] == map[1 := m];
    assert 1 in d1.rtx.Keys;
    var u := SendsAgain(d1, 1, m, now, cc);
    var p := S.Data(1, m, u.pullTarget, true);
    assert S.SendIfPermitted(d1, now, cc, true) == Ok((u, [p]));
    assert S.QueueForRtx(d, 1, m, now, cc, true) == Ok((u, [p]));
    var r := S.SendIfPermitted(u, now, cc, false).value;
    t := r.0;
    assert [p] + r.1 == [p];
  }

  /** The card calls back, but the window is closed. */
  lemma CalledBehindWindow(s: S.Sender, now: nat)
    requires s.unsent > 0 && s.inFlight > 0
    ensures S.TimeToSend(s, now, S.Window(0)) == Ok((s.(blocked := false), []))
  {
  }

  /** A pull arrives while the window is closed. */
  lemma PulledBehindWindow(c: Config, s: S.Sender, pullno: nat, now: nat) returns (t: S.Sender)
    requires TwoOut(c, s) && s.inFlight >= 0 && pullno > s.pull
    ensures S.ProcessPull(s, pullno, now, S.Window(0), false) == Ok((t, []))
    ensures t == s.(creditPull := S.Min(s.creditPull + Unquantize(pullno - s.pull), s.maxWnd), pull := pullno,
                    speculating := false, phase := S.Committed)
  {
    t := S.StopSpeculating(S.HandlePull(s, pullno));
  }

  /** A source that has paid for its second packet under a narrow window announces less than it holds. */
  lemma LaunchesSecond(c: Config, s: S.Sender) returns (t: S.Sender, p: S.Packet)
    requires Roomy(c) && I.Good(s) && OneOut(s, Mtu(c)) && s.speculating && !s.blocked
    requires s.mss == c.mss && s.maxWnd == c.maxWnd && s.flowSize == c.flowSize && s.unsent == c.flowSize - c.mss
    requires s.creditPull == 0 && s.creditSpec == c.maxWnd - 2 * Mtu(c) && s.pull == INIT_PULL && s.inFlight == Mtu(c)
    ensures S.LaunchNew(s, c.mss, 1, S.Window(Mtu(c))) == Ok((t, [p]))
    ensures p.Data? && p.seqno == 1 && p.size == Mtu(c) && p.pullTarget == t.pullTarget
    ensures TwoOut(c, t) && t.speculating && !t.blocked && t.sendTimes == map[0 := 0, 1 := 1]
    ensures t.creditPull == 0 && t.creditSpec == c.maxWnd - 2 * Mtu(c) && t.inFlight == 2 * Mtu(c)
    ensures t.pull == INIT_PULL && 0 <= t.pullTarget <= INIT_PULL
  {
    RoomyIsLong(c);
    I.CountsNext(s);
    I.LaunchNewIs(s, 1, S.Window(Mtu(c)));
    var r := S.LaunchNew(s, c.mss, 1, S.Window(Mtu(c))).value;
    t, p := r.0, r.1[0];
    Announces(s, s.backlog - Mtu(c), S.Window(Mtu(c)), 2 * Mtu(c), Mtu(c));
    CeilCovers(Level(t, 2 * Mtu(c)));
  }

  lemma SendsSecond(c: Config, s: S.Sender) returns (t: S.Sender, p: S.Packet)
    requires Roomy(c) && FirstOut(c, s) && I.Good(s)
    ensures S.TimeToSend(s, 1, S.Window(Mtu(c))) == Ok((t, [p]))
    ensures p.Data? && p.seqno == 1 && p.size == Mtu(c) && p.pullTarget == t.pullTarget
    ensures TwoOut(c, t) && t.speculating && !t.blocked && t.sendTimes == map[0 := 0, 1 := 1]
    ensures t.creditPull == 0 && t.creditSpec == c.maxWnd - 2 * Mtu(c) && t.inFlight == 2 * Mtu(c)
    ensures t.pull == INIT_PULL && 0 <= t.pullTarget <= INIT_PULL
  {
    RoomyIsLong(c);
    var s0 := s.(blocked := false);
    I.SendNewGuards(s0);
    var s1 := s0.(creditSpec := s.creditSpec - Mtu(c));
    assert S.SpendCredit(s0, Mtu(c)) == Ok(S.Spending(s1, true, true));
    I.SendNewUnfolds(s0, 1, S.Window(Mtu(c)));
    t, p := LaunchesSecond(c, s1);
    assert S.SendNew(s0, 1, S.Window(Mtu(c))) == Ok((t, [p]));
  }

  /** The first packet times out while there is credit for it. The card has no port free, and calls back later. */
  lemma FirstTimesOut(c: Config, s: S.Sender) returns (u: S.Sender, t: S.Sender)
    requires Roomy(c) && TwoOut(c, s) && !s.speculating && !s.blocked && s.creditPull > 0
    requires s.sendTimes == map[0 := 0, 1 := 1] && s.inFlight == 2 * Mtu(c) && s.creditSpec > 2 * Mtu(c)
    requires Level(s, 4 * Mtu(c)) >= 0
    ensures S.TimerExpired(s, 2, S.Window(3 * Mtu(c)), false, false, false) == Ok((u, []))
    ensures S.TimeToSend(u, 2, S.Window(3 * Mtu(c))) == Ok((t, [S.Data(0, Mtu(c), t.pullTarget, true)]))
    ensures TwoOut(c, t) && !t.speculating && t.creditPull == s.creditPull - Mtu(c) && t.inFlight == 3 * Mtu(c)
    ensures t.pull == s.pull && Announced(s, t, S.Window(3 * Mtu(c)))
  {
    var m := Mtu(c);
    var cc := S.Window(3 * m);
    assert 0 in s.sendTimes.Keys && S.Least(s.sendTimes.Keys) == 0 && s.rtx.Keys == {};
    var s1 := s.(sendTimes := s.sendTimes - {0}, tx := s.tx - {0});
    u := s1.(rtx := map[0 := m], blocked := true);
    assert map[][0 := m] == map[0 := m];
    assert 0 in u.rtx.Keys;
    assert S.QueueForRtx(s1, 0, m, 2, cc, false) == Ok((u, []));
    assert S.AfterTimeout(u, m, 2, cc, false, false) == Ok((u, []));
    var none: seq<S.Packet> := [];
    assert none + none == none;
    var s2 := u.(blocked := false);
    var v := SendsAgain(s2, 0, m, 2, cc);
    t := v.(blocked := true);
    assert S.SendPacket(s2, 2, cc) == Ok((v, [S.Data(0, m, v.pullTarget, true)]));
  }

  /** Both packets are acknowledged while the window is closed. */
  lemma BothAcknowledged(c: Config, s: S.Sender, ref: nat, bitmap: nat, now: nat) returns (t: S.Sender)
    requires TwoOut(c, s) && I.Good(s) && !s.speculating
    ensures S.ProcessAck(s, 2, ref, bitmap, now, S.Window(0), false) == Ok((t, []))
    ensures t.tx == map[] && t.unsent == s.unsent && t.creditPull == s.creditPull && !t.speculating
    ensures t.highestSent == 2 && t.pull == s.pull && t.pullTarget == s.pullTarget
  {
    var u := S.HandleAck(s, 2, ref, bitmap);
    I.HandleAckExact(s, 2, ref, bitmap);
    assert u.tx == map[] by {
      assert forall q :: q in u.tx ==> q in s.tx.Keys;
    }
    I.CheckFinishedExact(u, 2);
    t := S.ProcessAck(s, 2, ref, bitmap, now, S.Window(0), false).value.0;
  }

  // ---------------------------------------------------------------- a pacer that serves nobody else

  function One(c: P.Credit, rtx: seq<nat>, active: seq<nat>, idle: seq<nat>): P.State<nat> {
    P.State(map[ME := c], rtx, active, idle, true, 1)
  }

  lemma Replaces(c: P.Credit, d: P.Credit)
    ensures map[ME := c][ME := d] == map[ME := d]
  {
  }

  /** From `s` to `t` only the pacer has moved, and it has sent its last pull. */
  ghost predicate Ticked(s: Sys, t: Sys) {
    t == s.(pacer := t.pacer, net := t.net) && s.net <= t.net && ME in t.pacer.credit && PullMsg(Latest(t)) in t.net
  }

  lemma TickRtx(c: P.Credit)
    requires c.retx > 0 && (c.Pull().retx == 0 ==> c.Pull().Backlog() == 0)
    ensures P.Tick(One(c, [ME], [], []), false)
            == Ok((One(c.Pull(), if c.Pull().retx > 0 then [ME] else [], [], []),
                   [P.PullPkt(ME, c.latest + P.CREDIT_PER_PULL, false)]))
  {
    Replaces(c, c.Pull());
    assert [ME][1..] == [] && [] + [ME] == [ME];
    var s := One(c, [ME], [], []).(pending := 0);
    assert P.ServeRtx(s) == One(c.Pull(), if c.Pull().retx > 0 then [ME] else [], [], []).(pending := 0);
  }

  lemma RtxTick(s0: Sys, s: Sys, c: P.Credit, k: Mishap) returns (t: Sys)
    requires Got(s0, s, k) && s.pacer == One(c, [ME], [], []) && c.retx > 0
    requires c.Pull().retx == 0 ==> c.Pull().Backlog() == 0
    ensures Got(s0, t, k) && Ticked(s, t) && t.pacer == One(c.Pull(), if c.Pull().retx > 0 then [ME] else [], [], [])
  {
    TickRtx(c);
    var r := One(c.Pull(), if c.Pull().retx > 0 then [ME] else [], [], []);
    t := GotTick(s0, s, r, c.latest + P.CREDIT_PER_PULL, false, k);
  }

  /** Retransmission demand is pulled until there is none left. */
  lemma {:induction false} ServesRtx(s0: Sys, s: Sys, c: P.Credit, k: Mishap) returns (t: Sys, d: P.Credit)
    requires Got(s0, s, k) && s.pacer == One(c, [ME], [], []) && c.retx > 0 && c.target <= c.latest + c.retx
    ensures Got(s0, t, k) && Ticked(s, t) && t.pacer == One(d, [], [], [])
    ensures d == c.(retx := 0, latest := d.latest) && c.retx <= d.latest - c.latest < c.retx + P.CREDIT_PER_PULL
    decreases c.retx
  {
    t := RtxTick(s0, s, c, k);
    d := c.Pull();
    if d.retx > 0 {
      t, d := ServesRtx(s0, t, d, k);
    }
  }

  function AfterActive(c: P.Credit): P.State<nat> {
    if c.Pull().Backlog() > 0 then One(c.Pull(), [], [ME], [])
    else One(c.Pull().(inPull := false, inSlowPull := true), [], [], [ME])
  }

  lemma TickActive(c: P.Credit)
    requires c.inPull
    ensures P.Tick(One(c, [], [ME], []), false)
            == Ok((AfterActive(c), [P.PullPkt(ME, c.latest + P.CREDIT_PER_PULL, false)]))
  {
    Replaces(c, AfterActive(c).credit[ME]);
    assert [ME][1..] == [] && [] + [ME] == [ME];
    assert P.ServeActive(One(c, [], [ME], []).(pending := 0)) == AfterActive(c).(pending := 0);
  }

  lemma ActiveTick(s0: Sys, s: Sys, c: P.Credit, k: Mishap) returns (t: Sys)
    requires Got(s0, s, k) && s.pacer == One(c, [], [ME], []) && c.inPull
    ensures Got(s0, t, k) && Ticked(s, t) && t.pacer == AfterActive(c)
  {
    TickActive(c);
    t := GotTick(s0, s, AfterActive(c), c.latest + P.CREDIT_PER_PULL, false, k);
  }

  lemma {:induction false} ServesActive(s0: Sys, s: Sys, c: P.Credit, k: Mishap) returns (t: Sys, d: P.Credit)
    requires Got(s0, s, k) && s.pacer == One(c, [], [ME], []) && c.inPull && c.retx == 0 && c.target > c.latest
    ensures Got(s0, t, k) && Ticked(s, t) && t.pacer == One(d, [], [], [ME])
    ensures d == c.(inPull := false, inSlowPull := true, latest := d.latest)
    ensures 0 <= d.latest - c.target < P.CREDIT_PER_PULL
    decreases c.target - c.latest
  {
    t := ActiveTick(s0, s, c, k);
    d := c.Pull();
    if d.Backlog() > 0 {
      t, d := ServesActive(s0, t, d, k);
    } else {
      d := d.(inPull := false, inSlowPull := true);
    }
  }

  function AfterIdle(c: P.Credit): P.State<nat> {
    var more := c.Pull().SlowCredit() < c.slowLimit;
    One(c.Pull().(inSlowPull := more), [], [], if more then [ME] else [])
  }

  lemma TickIdle(c: P.Credit)
    requires c.inSlowPull && !c.inPull && c.Pull().Backlog() == 0
    ensures P.Tick(One(c, [], [], [ME]), false)
            == Ok((AfterIdle(c), [P.PullPkt(ME, c.latest + P.CREDIT_PER_PULL, true)]))
  {
    Replaces(c, AfterIdle(c).credit[ME]);
    assert [ME][1..] == [] && [] + [ME] == [ME];
    assert P.ServeIdle(One(c, [], [], [ME]).(pending := 0)) == AfterIdle(c).(pending := 0);
  }

  lemma IdleTick(s0: Sys, s: Sys, c: P.Credit, k: Mishap) returns (t: Sys)
    requires Got(s0, s, k) && s.pacer == One(c, [], [], [ME])
    requires c.inSlowPull && !c.inPull && c.Pull().Backlog() == 0
    ensures Got(s0, t, k) && Ticked(s, t) && t.pacer == AfterIdle(c)
  {
    TickIdle(c);
    t := GotTick(s0, s, AfterIdle(c), c.latest + P.CREDIT_PER_PULL, true, k);
  }

  lemma {:induction false} ServesIdle(s0: Sys, s: Sys, c: P.Credit, k: Mishap) returns (t: Sys, d: P.Credit)
    requires Got(s0, s, k) && s.pacer == One(c, [], [], [ME]) && c.inSlowPull && !c.inPull && c.retx == 0
    requires c.target <= c.latest
    ensures Got(s0, t, k) && Ticked(s, t) && t.pacer == One(d, [], [], [])
    ensures d == c.(inSlowPull := false, latest := d.latest) && d.latest - c.target >= c.slowLimit
    ensures d.latest <= (if c.latest > c.target + c.slowLimit then c.latest else c.target + c.slowLimit)
            + P.CREDIT_PER_PULL
    decreases c.Shortfall()
  {
    t := IdleTick(s0, s, c, k);
    d := c.Pull();
    if d.SlowCredit() < d.slowLimit {
      t, d := ServesIdle(s0, t, d, k);
    } else {
      d := d.(inSlowPull := false);
    }
  }

  // ---------------------------------------------------------------- spending credit

  /** The sink has heard nothing between `s` and `t`. */
  ghost predicate SameSink(s: Sys, t: Sys) {
    t.pacer == s.pacer && t.win == s.win && t.rcv == s.rcv && s.net <= t.net
  }

  /** A source with speculative credit left over, which sends packet 1 again whenever it is refused. */
  ghost predicate Spends(c: Config, s0: Sys, s: Sys, k: Mishap) {
    && Got(s0, s, k) && TwoOut(c, s.snd) && !s.snd.speculating && !s.snd.blocked && NackMsg(1) in s.net
    && Mtu(c) <= s.snd.inFlight <= 3 * Mtu(c) && s.snd.creditSpec > 0
  }

  /** The demand under a window that is just full. */
  function Narrow(c: Config, s: Sys): int {
    s.snd.inFlight + Mtu(c)
  }

  lemma BurnsOnce(c: Config, s0: Sys, s: Sys, k: Mishap) returns (t: Sys)
    requires Roomy(c) && Spends(c, s0, s, k) && s.snd.creditPull > 0 && s.snd.creditSpec > Mtu(c)
    requires Level(s.snd, Narrow(c, s)) >= 0
    ensures Spends(c, s0, t, k) && SameSink(s, t)
    ensures t.snd.creditPull == s.snd.creditPull - Mtu(c) && t.snd.pull == s.snd.pull
    ensures t.snd.inFlight == s.snd.inFlight && Announced(s.snd, t.snd, S.Window(s.snd.inFlight))
    ensures Want(s.snd, S.Window(s.snd.inFlight)) == Narrow(c, s)
  {
    var cc := S.Window(s.snd.inFlight);
    var snd := SendsSecondAgain(c, s.snd, 2, cc);
    t := GotMove(s0, s, NackArrives(1, 2, cc, true, false), snd, [S.Data(1, Mtu(c), snd.pullTarget, true)], k);
  }

  /** It spends its pulled credit down to `floor`, and announces little meanwhile. */
  lemma {:induction false} Burns(c: Config, s0: Sys, s: Sys, floor: nat, k: Mishap) returns (t: Sys)
    requires Roomy(c) && Spends(c, s0, s, k) && s.snd.creditPull > floor && s.snd.creditSpec > 2 * Mtu(c)
    requires Level(s.snd, Narrow(c, s)) >= 0
    ensures Spends(c, s0, t, k) && SameSink(s, t)
    ensures floor - Mtu(c) < t.snd.creditPull <= floor && t.snd.pull == s.snd.pull
    ensures t.snd.inFlight == s.snd.inFlight && InStep(t.snd, Narrow(c, s))
    ensures t.snd.creditSpec == s.snd.creditSpec || t.snd.creditSpec == s.snd.creditSpec - Mtu(c)
    ensures InStep(s.snd, Narrow(c, s)) ==> t.snd.creditSpec == s.snd.creditSpec
    decreases s.snd.creditPull
  {
    t := BurnsOnce(c, s0, s, k);
    if t.snd.creditPull > floor {
      t := BurnsAgain(c, s0, t, floor, k);
    }
  }

  /** The same once the last announcement is in step: speculative credit stays as it is. */
  lemma {:induction false} BurnsAgain(c: Config, s0: Sys, s: Sys, floor: nat, k: Mishap) returns (t: Sys)
    requires Roomy(c) && Spends(c, s0, s, k) && s.snd.creditPull > floor && s.snd.creditSpec > Mtu(c)
    requires Level(s.snd, Narrow(c, s)) >= 0 && InStep(s.snd, Narrow(c, s))
    ensures Spends(c, s0, t, k) && SameSink(s, t)
    ensures floor - Mtu(c) < t.snd.creditPull <= floor && t.snd.pull == s.snd.pull
    ensures t.snd.inFlight == s.snd.inFlight && InStep(t.snd, Narrow(c, s)) && t.snd.creditSpec == s.snd.creditSpec
    decreases s.snd.creditPull
  {
    t := BurnsOnce(c, s0, s, k);
    if t.snd.creditPull > floor {
      t := BurnsAgain(c, s0, t, floor, k);
    }
  }

  /** A pull arrives while the window is closed. */
  lemma GotPull(c: Config, s0: Sys, s: Sys, k: Mishap) returns (t: Sys)
    requires Got(s0, s, k) && TwoOut(c, s.snd) && s.snd.inFlight >= 0
    requires PullMsg(Latest(s)) in s.net && Latest(s) > s.snd.pull
    ensures Got(s0, t, k) && SameSink(s, t) && TwoOut(c, t.snd)
    ensures t.snd == s.snd.(creditPull := S.Min(s.snd.creditPull + Unquantize(Latest(s) - s.snd.pull), c.maxWnd),
                            pull := Latest(s), speculating := false, phase := S.Committed)
  {
    var snd := PulledBehindWindow(c, s.snd, Latest(s), 2);
    t := GotMove(s0, s, PullArrives(Latest(s), 2, S.Window(0), false), snd, [], k);
  }

  /** The card calls back while the window is closed. */
  lemma GotCalled(c: Config, s0: Sys, s: Sys, k: Mishap) returns (t: Sys)
    requires Got(s0, s, k) && TwoOut(c, s.snd) && s.snd.inFlight > 0
    ensures Got(s0, t, k) && SameSink(s, t) && t.snd == s.snd.(blocked := false)
  {
    CalledBehindWindow(s.snd, 2);
    t := GotMove(s0, s, NicReady(2, S.Window(0)), s.snd.(blocked := false), [], k);
  }

  // ---------------------------------------------------------------- how the runs begin and end

  /** A data packet whose target is no demand. */
  predicate AsksLittle(p: S.Packet, q: nat) {
    p.Data? && p.seqno == q && 0 <= p.pullTarget <= INIT_PULL
  }

  lemma AsksNoMore(p: S.Packet, q: nat)
    requires AsksLittle(p, q)
    ensures Field(p.pullTarget) == p.pullTarget <= INIT_PULL
  {
    FieldIs(p.pullTarget);
  }

  /** The first two packets are out, the second under a narrow window. Nothing has arrived. */
  ghost predicate Sent(c: Config, s: Sys, second: S.Packet) {
    && TwoOut(c, s.snd) && s.snd.speculating && !s.snd.blocked && s.snd.sendTimes == map[0 := 0, 1 := 1]
    && s.snd.creditPull == 0 && s.snd.creditSpec == c.maxWnd - 2 * Mtu(c) && s.snd.inFlight == 2 * Mtu(c)
    && s.snd.pull == INIT_PULL
    && s.net == {FromSender(FirstPacket(c, S.NoCc)), FromSender(second)} && s.rcv == {} && s.win == W.InitWindow
    && s.pacer == One(P.FreshCredit(QuantizeFloor(c.maxWnd)), [], [], []).(on := false, pending := 0)
    && AsksLittle(second, 1)
  }

  /** A flow that is granted its first packet by the card and whose pacer serves nobody else. */
  function Alone(c: Config): Outcome<Sys> {
    Started(c, P.InitState<nat>())
  }

  lemma PacerJoins(maxWnd: nat)
    ensures Awaiting(P.InitState<nat>())
    ensures Join(P.InitState<nat>(), maxWnd)
            == One(P.FreshCredit(QuantizeFloor(maxWnd)), [], [], []).(on := false, pending := 0)
  {
    var credit := P.FreshCredit(QuantizeFloor(maxWnd));
    assert map[][ME := credit] == map[ME := credit];
  }

  lemma SendsOne(c: Config) returns (s: Sys)
    requires Roomy(c)
    ensures Alone(c) == Ok(s) && Safe(s) && FirstOut(c, s.snd) && I.Good(s.snd)
    ensures s.net == {FromSender(FirstPacket(c, S.NoCc))} && s.rcv == {} && s.win == W.InitWindow
    ensures s.pacer == One(P.FreshCredit(QuantizeFloor(c.maxWnd)), [], [], []).(on := false, pending := 0)
  {
    RoomyIsLong(c);
    PacerJoins(c.maxWnd);
    StartsWithOne(c, P.InitState<nat>());
    s := Alone(c).value;
    InvIsSafe(s);
  }

  lemma SendsTwo(c: Config, s0: Sys, k: Mishap) returns (s: Sys, second: S.Packet)
    requires Roomy(c) && Joined(s0) && FirstOut(c, s0.snd) && I.Good(s0.snd)
    requires s0.net == {FromSender(FirstPacket(c, S.NoCc))} && s0.rcv == {} && s0.win == W.InitWindow
    requires s0.pacer == One(P.FreshCredit(QuantizeFloor(c.maxWnd)), [], [], []).(on := false, pending := 0)
    ensures Got(s0, s, k) && Sent(c, s, second)
  {
    var snd;
    snd, second := SendsSecond(c, s0.snd);
    s := WithSender(s0, snd, [second]);
    assert Messages([second]) == {FromSender(second)};
    GotStart(s0, k);
    GotStep(s0, s0, NicReady(1, S.Window(Mtu(c))), s, k);
  }

  /** A full packet arrives. */
  lemma GotData(s0: Sys, s: Sys, p: S.Packet, k: Mishap) returns (t: Sys)
    requires Safe(s0) && Got(s0, s, k) && p.Data? && FromSender(p) in s.net && p.seqno <= 1
    requires !Strikes(s, DataArrives(p, false), k)
    ensures Got(s0, t, k) && t.snd == s.snd && t.rcv == s.rcv + {p.seqno} && s.net <= t.net
    ensures P.HandlePullTarget(s.pacer, ME, Field(p.pullTarget)) == Ok(t.pacer)
    ensures p.ar && t.rcv == {0, 1} ==> Answered(t)
  {
    GotInv(s0, s, k);
    t := DataLeads(s, p, false);
    GotStep(s0, s, DataArrives(p, false), t, k);
    if p.ar && t.rcv == {0, 1} {
      AnswersBoth(s, p, t);
    }
  }

  /** An acknowledgement of both packets is under way. */
  ghost predicate Answered(s: Sys) {
    exists a: W.Ack :: AckMsg(a) in s.net && a.cum == 2
  }

  lemma AnswersWhenAsked(w: W.Window, p: W.Arrival)
    requires p.ar
    ensures var r := W.ReceiveData(w, p); r.1.Send? && r.1.ack.cum == r.0.expected
  {
  }

  lemma AnswersBoth(s: Sys, p: S.Packet, t: Sys)
    requires p.Data? && p.ar && Leads(s, DataArrives(p, false), t) && W.Exact(t.win, t.rcv) && t.rcv == {0, 1}
    ensures Answered(t)
  {
    AnswersWhenAsked(s.win, Arrival(p, false));
    W.ExactMeaning(t.win, t.rcv);
    assert t.win.expected > 2 ==> 2 in t.rcv;
    assert 0 in t.rcv && 1 in t.rcv && 2 !in t.rcv;
    var a := W.ReceiveData(s.win, Arrival(p, false)).1.ack;
    assert AckMsg(a) in t.net && a.cum == 2;
  }

  lemma TrimLeads(s: Sys, p: S.Packet) returns (t: Sys)
    requires Inv(s) && p.Data? && FromSender(p) in s.net && p.seqno == 1 && 1 !in s.rcv
    ensures Leads(s, DataTrimmed(p), t) && InReach(s, DataTrimmed(p))
    ensures t == s.(pacer := t.pacer, net := s.net + {NackMsg(1)})
    ensures P.TrimmedDemand(s.pacer, ME, Field(p.pullTarget), RtxDemand(s.snd)) == Ok(t.pacer)
  {
    TrimKeepsInv(s, p);
    W.DuplicateIsReceived(s.win, s.rcv, 1);
    t := TakeTrimmed(s, p).value;
  }

  /** Packet 1 is trimmed. */
  lemma GotTrimmed(s0: Sys, s: Sys, p: S.Packet, k: Mishap) returns (t: Sys)
    requires Safe(s0) && Got(s0, s, k) && p.Data? && FromSender(p) in s.net && p.seqno == 1 && 1 !in s.rcv
    requires !Strikes(s, DataTrimmed(p), k)
    ensures Got(s0, t, k) && t == s.(pacer := t.pacer, net := s.net + {NackMsg(1)})
    ensures P.TrimmedDemand(s.pacer, ME, Field(p.pullTarget), RtxDemand(s.snd)) == Ok(t.pacer)
  {
    GotInv(s0, s, k);
    t := TrimLeads(s, p);
    GotStep(s0, s, DataTrimmed(p), t, k);
  }

  /** Everything sent has arrived, all that was announced has been heard and granted, and no credit is left. */
  ghost predicate Exhausted(c: Config, s: Sys) {
    && Joined(s) && TwoOut(c, s.snd) && !s.snd.speculating && s.snd.creditPull <= 0 && s.rcv == {0, 1}
    && s.pacer.credit[ME].target >= s.snd.pullTarget && s.snd.pull == Latest(s) && Unlisted(s.pacer, ME)
    && Answered(s)
  }

  lemma NothingTimed(s: S.Sender)
    requires I.Times(s) && s.tx == map[]
    ensures s.sendTimes == map[]
  {
  }

  lemma Ends(c: Config, s0: Sys, s: Sys, k: Mishap) returns (t: Sys)
    requires Safe(s0) && Got(s0, s, k) && Exhausted(c, s)
    ensures Got(s0, t, k) && Stalled(t) && t.snd.sendTimes == map[]
  {
    var a: W.Ack :| AckMsg(a) in s.net && a.cum == 2;
    GotInv(s0, s, k);
    var snd := BothAcknowledged(c, s.snd, a.ref, a.bitmap, 2);
    t := GotMove(s0, s, AckArrives(a, 2, S.Window(0), false), snd, [], k);
    GotInv(s0, t, k);
    NothingTimed(t.snd);
  }

  // ---------------------------------------------------------------- a trimmed packet before any demand

  lemma AmountCovers(s: S.Sender)
    ensures s.Mtu() <= Unquantize(RtxDemand(s)) < s.Mtu() + PULL_QUANTUM
  {
    CeilCovers(s.Mtu());
  }

  /** A target at or below the origin is no demand. */
  lemma IsNoDemand(level: int)
    requires 0 <= level <= ORIGIN
    ensures 0 <= QuantizeCeil(level) <= INIT_PULL
  {
    CeilCovers(level);
  }

  lemma TrimsFresh(limit: nat, pt: nat, r: nat)
    requires pt <= INIT_PULL && r > 0
    ensures P.TrimmedDemand(One(P.FreshCredit(limit), [], [], []).(on := false, pending := 0), ME, pt, r)
            == Ok(One(P.FreshCredit(limit).(retx := r), [ME], [], []))
  {
    var credit := P.FreshCredit(limit);
    Replaces(credit, credit.(retx := r));
    assert [] + [ME] == [ME];
  }

  lemma NothingOvertaken(s: Sys, a: Action)
    requires ME in s.pacer.credit && s.pacer.credit[ME].retx == 0
    ensures !Strikes(s, a, Overtaking)
  {
  }

  lemma TrimmedEarly(c: Config, s0: Sys, s: Sys, second: S.Packet) returns (t: Sys)
    requires Safe(s0) && Got(s0, s, Overtaking) && Sent(c, s, second)
    ensures Got(s0, t, Overtaking) && t == s.(pacer := t.pacer, net := s.net + {NackMsg(1)})
    ensures t.pacer == One(P.FreshCredit(QuantizeFloor(c.maxWnd)).(retx := RtxDemand(s.snd)), [ME], [], [])
  {
    AsksNoMore(second, 1);
    TrimsFresh(QuantizeFloor(c.maxWnd), Field(second.pullTarget), RtxDemand(s.snd));
    NothingOvertaken(s, DataTrimmed(second));
    t := GotTrimmed(s0, s, second, Overtaking);
  }

  /** The second packet is trimmed before the first arrives: it is pulled, and nothing else is. */
  lemma PulledEarly(c: Config, s0: Sys, s: Sys, second: S.Packet) returns (t: Sys)
    requires Safe(s0) && Got(s0, s, Overtaking) && Sent(c, s, second)
    ensures Got(s0, t, Overtaking) && t.snd == s.snd && t.rcv == {} && s.net <= t.net && NackMsg(1) in t.net
    ensures Quiet(t) && t.pacer.credit[ME].target == INIT_PULL && PullMsg(Latest(t)) in t.net
    ensures Mtu(c) <= Unquantize(Latest(t) - INIT_PULL) < Mtu(c) + 9 * PULL_QUANTUM
  {
    t := TrimmedEarly(c, s0, s, second);
    AmountCovers(s.snd);
    var d;
    t, d := ServesRtx(s0, t, P.FreshCredit(QuantizeFloor(c.maxWnd)).(retx := RtxDemand(s.snd)), Overtaking);
  }

  /** The sink is on no list and nothing is to be resent. */
  predicate Quiet(s: Sys) {
    ME in s.pacer.credit && Unlisted(s.pacer, ME) && s.pacer.credit[ME].retx == 0 && !s.pacer.credit[ME].inPull
  }

  /** What has been pulled early is less than the window has room for. */
  lemma AnnouncesNothing(c: Config, s: S.Sender)
    requires Roomy(c) && InStep(s, 4 * Mtu(c)) && s.creditPull + Mtu(c) > 0
    requires c.maxWnd - 3 * Mtu(c) <= s.creditSpec <= c.maxWnd - 2 * Mtu(c)
    requires INIT_PULL <= s.pull && Unquantize(s.pull - INIT_PULL) < Mtu(c) + 9 * PULL_QUANTUM
    requires s.creditPull <= Unquantize(s.pull - INIT_PULL)
    ensures Level(s, 4 * Mtu(c)) >= 0 && 0 <= s.pullTarget <= INIT_PULL
  {
    IsNoDemand(Level(s, 4 * Mtu(c)));
  }

  /** The pull pays for the first packet, which has timed out, and for copies of the second. */
  lemma SpendsEarly(c: Config, s0: Sys, s: Sys) returns (t: Sys, first: S.Packet)
    requires Roomy(c) && Got(s0, s, Overtaking) && TwoOut(c, s.snd) && NackMsg(1) in s.net
    requires s.snd.sendTimes == map[0 := 0, 1 := 1] && s.snd.inFlight == 2 * Mtu(c) && !s.snd.blocked
    requires s.snd.creditPull == 0 && s.snd.creditSpec == c.maxWnd - 2 * Mtu(c) && s.snd.pull == INIT_PULL
    requires PullMsg(Latest(s)) in s.net && Mtu(c) <= Unquantize(Latest(s) - INIT_PULL) < Mtu(c) + 9 * PULL_QUANTUM
    ensures Got(s0, t, Overtaking) && SameSink(s, t) && TwoOut(c, t.snd) && !t.snd.speculating
    ensures t.snd.creditPull <= 0 && t.snd.pull == Latest(s) && 0 <= t.snd.pullTarget <= INIT_PULL
    ensures AsksLittle(first, 0) && first.ar && FromSender(first) in t.net
  {
    t := GotPull(c, s0, s, Overtaking);
    t, first := ResendsFirst(c, s0, t);
    AnnouncesNothing(c, t.snd);
    if t.snd.creditPull > 0 {
      t := BurnsAgain(c, s0, t, 0, Overtaking);
      AnnouncesNothing(c, t.snd);
    }
  }

  lemma FirstAgain(c: Config, s: S.Sender) returns (u: S.Sender, t: S.Sender)
    requires Roomy(c) && TwoOut(c, s) && !s.speculating && !s.blocked
    requires s.sendTimes == map[0 := 0, 1 := 1] && s.inFlight == 2 * Mtu(c) && s.pull >= INIT_PULL
    requires Mtu(c) <= s.creditPull == Unquantize(s.pull - INIT_PULL) < Mtu(c) + 9 * PULL_QUANTUM
    requires s.creditSpec == c.maxWnd - 2 * Mtu(c)
    ensures S.TimerExpired(s, 2, S.Window(3 * Mtu(c)), false, false, false) == Ok((u, []))
    ensures S.TimeToSend(u, 2, S.Window(3 * Mtu(c))) == Ok((t, [S.Data(0, Mtu(c), t.pullTarget, true)]))
    ensures TwoOut(c, t) && !t.speculating && t.creditPull == s.creditPull - Mtu(c) && t.inFlight == 3 * Mtu(c)
    ensures t.pull == s.pull && InStep(t, 4 * Mtu(c)) && 0 <= t.pullTarget <= INIT_PULL
    ensures c.maxWnd - 3 * Mtu(c) <= t.creditSpec <= c.maxWnd - 2 * Mtu(c)
  {
    assert Level(s, 4 * Mtu(c)) == 6 * Mtu(c) - c.maxWnd + ORIGIN;
    u, t := FirstTimesOut(c, s);
    AnnouncesNothing(c, t);
  }

  lemma ResendsFirst(c: Config, s0: Sys, s: Sys) returns (t: Sys, first: S.Packet)
    requires Roomy(c) && Got(s0, s, Overtaking) && TwoOut(c, s.snd) && NackMsg(1) in s.net && !s.snd.speculating
    requires s.snd.sendTimes == map[0 := 0, 1 := 1] && s.snd.inFlight == 2 * Mtu(c) && !s.snd.blocked
    requires s.snd.pull >= INIT_PULL && s.snd.creditSpec == c.maxWnd - 2 * Mtu(c)
    requires Mtu(c) <= s.snd.creditPull == Unquantize(s.snd.pull - INIT_PULL) < Mtu(c) + 9 * PULL_QUANTUM
    ensures Spends(c, s0, t, Overtaking) && SameSink(s, t) && t.snd.inFlight == 3 * Mtu(c)
    ensures t.snd.creditPull == s.snd.creditPull - Mtu(c) && t.snd.pull == s.snd.pull
    ensures c.maxWnd - 3 * Mtu(c) <= t.snd.creditSpec <= c.maxWnd - 2 * Mtu(c) && InStep(t.snd, 4 * Mtu(c))
    ensures AsksLittle(first, 0) && first.ar && FromSender(first) in t.net
  {
    var queued, snd := FirstAgain(c, s.snd);
    first := S.Data(0, Mtu(c), snd.pullTarget, true);
    assert first in [first] && 1 in s.snd.sendTimes.Keys;
    t := GotMove(s0, s, Timeout(2, S.Window(3 * Mtu(c)), false, false, false), queued, [], Overtaking);
    t := GotMove(s0, t, NicReady(2, S.Window(3 * Mtu(c))), snd, [first], Overtaking);
    t := GotCalled(c, s0, t, Overtaking);
  }

  /** A packet that asks for nothing arrives. */
  lemma GotUnheard(s0: Sys, s: Sys, p: S.Packet, q: nat) returns (t: Sys)
    requires Safe(s0) && Got(s0, s, Overtaking) && FromSender(p) in s.net && AsksLittle(p, q) && q <= 1
    requires Quiet(s) && s.pacer.credit[ME].target == INIT_PULL
    ensures Got(s0, t, Overtaking) && t.snd == s.snd && t.pacer == s.pacer && t.rcv == s.rcv + {q} && s.net <= t.net
    ensures p.ar && t.rcv == {0, 1} ==> Answered(t)
  {
    AsksNoMore(p, q);
    assert P.HandlePullTarget(s.pacer, ME, Field(p.pullTarget)) == Ok(s.pacer);
    t := GotData(s0, s, p, Overtaking);
  }

  /** Both packets arrive, and ask for nothing. */
  lemma ArrivesUnheard(s0: Sys, s: Sys, first: S.Packet, second: S.Packet) returns (t: Sys)
    requires Safe(s0) && Got(s0, s, Overtaking) && s.rcv == {}
    requires FromSender(first) in s.net && FromSender(second) in s.net
    requires AsksLittle(first, 0) && first.ar && AsksLittle(second, 1)
    requires Quiet(s) && s.pacer.credit[ME].target == INIT_PULL
    ensures Got(s0, t, Overtaking) && t.snd == s.snd && t.pacer == s.pacer && t.rcv == {0, 1} && Answered(t)
  {
    t := GotUnheard(s0, s, second, 1);
    t := GotUnheard(s0, t, first, 0);
  }

  /** A careful run from `s0` that ends at a standstill, and with no timer. */
  ghost predicate StallsWithout(s0: Sys, actions: seq<Action>, k: Mishap) {
    && Joined(s0) && Careful(s0, actions, k) && StaysInReach(s0, actions) && SaneRun(actions)
    && Run(s0, actions).Ok? && Stalled(Run(s0, actions).value) && Run(s0, actions).value.snd.sendTimes == map[]
  }

  lemma GotStalls(s0: Sys, t: Sys, k: Mishap) returns (actions: seq<Action>)
    requires Got(s0, t, k) && Stalled(t) && t.snd.sendTimes == map[]
    ensures StallsWithout(s0, actions, k)
  {
    actions :| Careful(s0, actions, k) && Run(s0, actions) == Ok(t);
    CarefulStays(s0, actions, k);
  }

  /** Every roomy flow whose second packet is trimmed before the first arrives can come to a standstill, although
      no demand overtakes a trimmed packet. */
  lemma EarlyStalls(c: Config) returns (actions: seq<Action>)
    requires Roomy(c)
    ensures Alone(c).Ok? && StallsWithout(Alone(c).value, actions, Overtaking)
  {
    var s0 := SendsOne(c);
    var t, first, second;
    t, second := SendsTwo(c, s0, Overtaking);
    t := PulledEarly(c, s0, t, second);
    t, first := SpendsEarly(c, s0, t);
    t := ArrivesUnheard(s0, t, first, second);
    t := Ends(c, s0, t, Overtaking);
    actions := GotStalls(s0, t, Overtaking);
  }

  // ---------------------------------------------------------------- a demand that overtakes a trimmed packet

  /** The target of the first packet is a demand of at most a packet. */
  lemma FirstAsks(c: Config)
    requires Roomy(c)
    ensures var t := FirstPacket(c, S.NoCc).pullTarget;
            && Field(t) == t && INIT_PULL < t && Unquantize(t) < ORIGIN + Mtu(c) + PULL_QUANTUM
  {
    RoomyIsLong(c);
    CeilCovers(FirstTarget(c, S.NoCc));
    FieldIs(QuantizeCeil(FirstTarget(c, S.NoCc)));
  }

  lemma TakesTarget(limit: nat, pt: nat)
    requires pt > INIT_PULL
    ensures P.HandlePullTarget(One(P.FreshCredit(limit), [], [], []).(on := false, pending := 0), ME, pt)
            == Ok(One(P.FreshCredit(limit).(target := pt, inPull := true), [], [ME], []))
  {
    var credit := P.FreshCredit(limit);
    Replaces(credit, credit.(target := pt, inPull := true));
    assert [] + [ME] == [ME];
  }

  lemma NotEarly(s: Sys, a: Action)
    requires a.DataArrives? || PullMsg(Latest(s)) in s.net
    ensures !Strikes(s, a, Early)
  {
  }

  /** The sink has been granted its demand and all of its slow credit, and little more. */
  ghost predicate Granted(c: Config, s: Sys, credit: P.Credit) {
    && s.pacer == One(credit, [], [], []) && credit.retx == 0 && !credit.inPull && PullMsg(Latest(s)) in s.net
    && credit.slowLimit == QuantizeFloor(c.maxWnd) && credit.target > INIT_PULL
    && credit.target + credit.slowLimit <= credit.latest
    && Unquantize(credit.latest) < ORIGIN + Mtu(c) + c.maxWnd + 20 * PULL_QUANTUM
  }

  /** The first packet arrives, and the pacer works off its lists. */
  lemma FirstServed(c: Config, s0: Sys, s: Sys, second: S.Packet) returns (t: Sys, credit: P.Credit)
    requires Safe(s0) && Roomy(c) && Got(s0, s, Early) && Sent(c, s, second)
    ensures Got(s0, t, Early) && t.snd == s.snd && t.rcv == {0} && s.net <= t.net && Granted(c, t, credit)
  {
    t := FirstArrives(c, s0, s, second);
    t, credit := ServesActive(s0, t, t.pacer.credit[ME], Early);
    t, credit := ServesIdle(s0, t, credit, Early);
  }

  lemma FirstArrives(c: Config, s0: Sys, s: Sys, second: S.Packet) returns (t: Sys)
    requires Safe(s0) && Roomy(c) && Got(s0, s, Early) && Sent(c, s, second)
    ensures Got(s0, t, Early) && t.snd == s.snd && t.rcv == {0} && s.net <= t.net
    ensures var first := FirstPacket(c, S.NoCc); var limit := QuantizeFloor(c.maxWnd);
            && first.pullTarget > INIT_PULL && Unquantize(first.pullTarget) < ORIGIN + Mtu(c) + PULL_QUANTUM
            && t.pacer == One(P.FreshCredit(limit).(target := first.pullTarget, inPull := true), [], [ME], [])
  {
    var first := FirstPacket(c, S.NoCc);
    FirstAsks(c);
    TakesTarget(QuantizeFloor(c.maxWnd), first.pullTarget);
    NotEarly(s, DataArrives(first, false));
    t := GotData(s0, s, first, Early);
  }

  /** A packet that asks for no more is trimmed while the sink is on no list. */
  lemma TrimsGranted(credit: P.Credit, pt: nat, r: nat)
    requires pt <= credit.target && credit.retx == 0 && r > 0
    ensures P.TrimmedDemand(One(credit, [], [], []), ME, pt, r) == Ok(One(credit.(retx := r), [ME], [], []))
  {
    Replaces(credit, credit.(retx := r));
    assert [] + [ME] == [ME];
  }

  lemma SecondTrimmed(c: Config, s0: Sys, s: Sys, credit: P.Credit, second: S.Packet) returns (t: Sys)
    requires Safe(s0) && Got(s0, s, Early) && Granted(c, s, credit) && s.rcv == {0}
    requires AsksLittle(second, 1) && FromSender(second) in s.net
    ensures Got(s0, t, Early) && t == s.(pacer := t.pacer, net := s.net + {NackMsg(1)})
    ensures t.pacer == One(credit.(retx := RtxDemand(s.snd)), [ME], [], [])
  {
    AsksNoMore(second, 1);
    TrimsGranted(credit, Field(second.pullTarget), RtxDemand(s.snd));
    NotEarly(s, DataTrimmed(second));
    t := GotTrimmed(s0, s, second, Early);
  }

  /** With the window open again the source announces all that it wants. */
  lemma SendsWide(c: Config, s0: Sys, s: Sys) returns (t: Sys, p: S.Packet)
    requires Roomy(c) && Spends(c, s0, s, Early) && s.snd.creditPull > 0 && s.snd.creditSpec > Mtu(c)
    requires Level(s.snd, Want(s.snd, S.NoCc)) >= 0
    ensures Spends(c, s0, t, Early) && SameSink(s, t)
    ensures t.snd.creditPull == s.snd.creditPull - Mtu(c) && t.snd.pull == s.snd.pull
    ensures t.snd.inFlight == s.snd.inFlight && Announced(s.snd, t.snd, S.NoCc)
    ensures p == S.Data(1, Mtu(c), t.snd.pullTarget, true) && FromSender(p) in t.net
  {
    var snd := SendsSecondAgain(c, s.snd, 2, S.NoCc);
    p := S.Data(1, Mtu(c), snd.pullTarget, true);
    assert p in [p];
    t := GotMove(s0, s, NackArrives(1, 2, S.NoCc, true, false), snd, [p], Early);
    t := GotCalled(c, s0, t, Early);
  }

  /** Some of the window is left, and the last announcement was a high one. */
  ghost predicate HalfSpent(c: Config, s0: Sys, s: Sys) {
    && Spends(c, s0, s, Early) && s.snd.inFlight == 2 * Mtu(c) && s.snd.pull == Latest(s)
    && 4 * Mtu(c) < s.snd.creditPull <= 5 * Mtu(c)
    && c.maxWnd - 4 * Mtu(c) <= s.snd.creditSpec <= c.maxWnd - 2 * Mtu(c)
    && Unquantize(Latest(s)) - 5 * Mtu(c) <= Unquantize(s.snd.pullTarget) && s.snd.pullTarget <= Latest(s)
  }

  /** A level below the last pull number is announced as such. */
  lemma AnnouncesAtMost(level: int, pull: nat)
    requires 0 <= level <= Unquantize(pull)
    ensures level <= Unquantize(QuantizeCeil(level)) && 0 <= QuantizeCeil(level) <= pull
  {
    CeilCovers(level);
  }

  /** The window is spent on copies of the second packet, announcing little, and then one goes out that announces
      all that the source wants. */
  lemma SpendsHalf(c: Config, s0: Sys, s: Sys) returns (t: Sys, p: S.Packet)
    requires Roomy(c) && Spends(c, s0, s, Early) && s.snd.inFlight == 2 * Mtu(c) && s.snd.pull == Latest(s)
    requires s.snd.creditPull == c.maxWnd && s.snd.creditSpec == c.maxWnd - 2 * Mtu(c)
    requires Unquantize(Latest(s)) >= ORIGIN + c.maxWnd
    ensures HalfSpent(c, s0, t) && SameSink(s, t)
    ensures p == S.Data(1, Mtu(c), t.snd.pullTarget, true) && FromSender(p) in t.net
  {
    var m := Mtu(c);
    var u := Burns(c, s0, s, 6 * m, Early);
    var want := Want(u.snd, S.NoCc);
    assert c.maxWnd - 2 * m <= want <= c.maxWnd;
    t, p := SendsWide(c, s0, u);
    AnnouncesAtMost(Level(t.snd, want), Latest(s));
  }

  lemma RaisesTarget(credit: P.Credit, pt: nat)
    requires credit.retx > 0 && pt > credit.target
    ensures P.HandlePullTarget(One(credit, [ME], [], []), ME, pt) == Ok(One(credit.(target := pt), [ME], [], []))
  {
    Replaces(credit, credit.(target := pt));
  }

  /** It arrives while the second packet is still to be pulled, and the pulls for that packet are the last. */
  lemma ArrivesInTime(s0: Sys, s: Sys, credit: P.Credit, p: S.Packet) returns (t: Sys)
    requires Safe(s0) && Got(s0, s, Early) && s.pacer == One(credit, [ME], [], []) && credit.retx > 0 && !credit.inPull
    requires p.Data? && p.seqno == 1 && p.ar && FromSender(p) in s.net && s.rcv == {0}
    requires credit.target < p.pullTarget <= credit.latest && Unquantize(credit.latest) < 3 * ORIGIN
    ensures Got(s0, t, Early) && t.snd == s.snd && t.rcv == {0, 1} && Answered(t) && s.net <= t.net
    ensures Quiet(t) && t.pacer.credit[ME].target == p.pullTarget && PullMsg(Latest(t)) in t.net
    ensures credit.retx <= Latest(t) - credit.latest < credit.retx + P.CREDIT_PER_PULL
  {
    FieldIs(p.pullTarget);
    RaisesTarget(credit, p.pullTarget);
    NotEarly(s, DataArrives(p, false));
    t := GotData(s0, s, p, Early);
    var d;
    t, d := ServesRtx(s0, t, credit.(target := p.pullTarget), Early);
  }

  /** The last pull arrives and is spent, with narrow announcements only. */
  lemma SpendsRest(c: Config, s0: Sys, s: Sys) returns (t: Sys)
    requires Roomy(c) && Spends(c, s0, s, Early) && s.snd.inFlight == 2 * Mtu(c) && s.snd.pull <= Latest(s)
    requires PullMsg(Latest(s)) in s.net && 0 <= s.snd.creditPull <= 5 * Mtu(c)
    requires c.maxWnd - 4 * Mtu(c) <= s.snd.creditSpec <= c.maxWnd - 2 * Mtu(c) && s.snd.pull >= INIT_PULL
    requires Mtu(c) <= Unquantize(Latest(s) - s.snd.pull) < Mtu(c) + 9 * PULL_QUANTUM
    ensures Spends(c, s0, t, Early) && SameSink(s, t) && t.snd.creditPull <= 0 && t.snd.pull == Latest(s)
    ensures Unquantize(t.snd.pullTarget) < Unquantize(s.snd.pull) - 5 * Mtu(c)
  {
    var m := Mtu(c);
    var u := GotPull(c, s0, s, Early);
    assert u.snd.creditPull == s.snd.creditPull + Unquantize(Latest(s) - s.snd.pull);
    t := Burns(c, s0, u, 0, Early);
    CeilCovers(Level(t.snd, 3 * m));
  }

  /** All of the slow credit is granted, and reaches a source whose second packet is then trimmed. */
  lemma FillsWindow(c: Config, s0: Sys, s: Sys, credit: P.Credit, second: S.Packet) returns (t: Sys)
    requires Safe(s0) && Roomy(c) && Got(s0, s, Early) && Granted(c, s, credit) && s.rcv == {0}
    requires AsksLittle(second, 1) && FromSender(second) in s.net
    requires TwoOut(c, s.snd) && !s.snd.blocked && s.snd.creditPull == 0 && s.snd.pull == INIT_PULL
    requires s.snd.creditSpec == c.maxWnd - 2 * Mtu(c) && s.snd.inFlight == 2 * Mtu(c)
    ensures Spends(c, s0, t, Early) && t.rcv == {0} && t.snd.pull == Latest(t) == credit.latest
    ensures t.snd.creditPull == c.maxWnd && t.snd.creditSpec == s.snd.creditSpec && t.snd.inFlight == 2 * Mtu(c)
    ensures t.pacer == One(credit.(retx := RtxDemand(t.snd)), [ME], [], [])
    ensures Unquantize(credit.latest) >= ORIGIN + c.maxWnd
  {
    t := GotPull(c, s0, s, Early);
    t := SecondTrimmed(c, s0, t, credit, second);
  }

  /** The high announcement overtakes the second packet, and what that packet's pulls grant is spent. */
  lemma ExhaustsRest(c: Config, s0: Sys, s: Sys, credit: P.Credit, p: S.Packet) returns (t: Sys)
    requires Roomy(c) && Safe(s0) && HalfSpent(c, s0, s) && s.rcv == {0} && s.snd.pull == credit.latest >= INIT_PULL
    requires s.pacer == One(credit.(retx := RtxDemand(s.snd)), [ME], [], []) && !credit.inPull
    requires credit.target < s.snd.pullTarget && Unquantize(credit.latest) < 3 * ORIGIN
    requires p == S.Data(1, Mtu(c), s.snd.pullTarget, true) && FromSender(p) in s.net
    ensures Got(s0, t, Early) && Exhausted(c, t)
  {
    AmountCovers(s.snd);
    t := ArrivesInTime(s0, s, credit.(retx := RtxDemand(s.snd)), p);
    t := SpendsRest(c, s0, t);
  }

  lemma FillsWindowFirst(c: Config, s0: Sys, s: Sys, second: S.Packet) returns (t: Sys, credit: P.Credit)
    requires Roomy(c) && Safe(s0) && Got(s0, s, Early) && Sent(c, s, second)
    ensures Spends(c, s0, t, Early) && t.rcv == {0} && t.snd.pull == Latest(t) == credit.latest
    ensures t.snd.creditPull == c.maxWnd && t.snd.creditSpec == c.maxWnd - 2 * Mtu(c) && t.snd.inFlight == 2 * Mtu(c)
    ensures t.pacer == One(credit.(retx := RtxDemand(t.snd)), [ME], [], []) && !credit.inPull
    ensures credit.target + QuantizeFloor(c.maxWnd) <= credit.latest && credit.latest >= INIT_PULL
    ensures ORIGIN + c.maxWnd <= Unquantize(credit.latest) < 3 * ORIGIN
  {
    t, credit := FirstServed(c, s0, s, second);
    t := FillsWindow(c, s0, t, credit, second);
  }

  lemma ExhaustsWindow(c: Config, s0: Sys, s: Sys, credit: P.Credit) returns (t: Sys)
    requires Roomy(c) && Safe(s0) && Spends(c, s0, s, Early) && s.rcv == {0} && s.snd.pull == Latest(s) == credit.latest
    requires s.snd.creditPull == c.maxWnd && s.snd.creditSpec == c.maxWnd - 2 * Mtu(c) && s.snd.inFlight == 2 * Mtu(c)
    requires s.pacer == One(credit.(retx := RtxDemand(s.snd)), [ME], [], []) && !credit.inPull
    requires credit.target + QuantizeFloor(c.maxWnd) <= credit.latest && credit.latest >= INIT_PULL
    requires ORIGIN + c.maxWnd <= Unquantize(credit.latest) < 3 * ORIGIN
    ensures Got(s0, t, Early) && Exhausted(c, t)
  {
    var p;
    t, p := SpendsHalf(c, s0, s);
    t := ExhaustsRest(c, s0, t, credit, p);
  }

  lemma OvertakenExhausts(c: Config, s0: Sys, s: Sys, second: S.Packet) returns (t: Sys)
    requires Roomy(c) && Safe(s0) && Got(s0, s, Early) && Sent(c, s, second)
    ensures Got(s0, t, Early) && Exhausted(c, t)
  {
    var credit;
    t, credit := FillsWindowFirst(c, s0, s, second);
    t := ExhaustsWindow(c, s0, t, credit);
  }

  /** Every roomy flow can come to a standstill when a demand overtakes a packet that was trimmed, although the
      sink has heard of demand before that. */
  lemma OvertakingStalls(c: Config) returns (actions: seq<Action>)
    requires Roomy(c)
    ensures Alone(c).Ok? && StallsWithout(Alone(c).value, actions, Early)
  {
    var s0 := SendsOne(c);
    var t, second := SendsTwo(c, s0, Early);
    t := OvertakenExhausts(c, s0, t, second);
    t := Ends(c, s0, t, Early);
    actions := GotStalls(s0, t, Early);
  }
}
