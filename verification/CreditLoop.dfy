/**
The loop of demand and credit between the two ends: a sink is pulled only after demand has reached it,
demand that reached it is granted, and what is granted can be spent.
 */
module CreditLoop {
  import opened Outcomes
  import opened Quanta
  import opened Cyclic
  import opened Protocol
  import opened OnePacketOut
  import S = Sender
  import I = SenderInvariant
  import P = PullPacer
  import W = ReceiveWindow

  // ---------------------------------------------------------------- pulled only on demand

  predicate Unlisted(p: P.State<nat>, k: nat) {
    k !in p.rtx && k !in p.active && k !in p.idle
  }

  /** The receiver has not heard of any demand: it is on none of its pacer's lists and has granted nothing. */
  ghost predicate Undemanded(s: Sys) {
    && ME in s.pacer.credit && Unlisted(s.pacer, ME)
    && s.pacer.credit[ME] == P.FreshCredit(s.pacer.credit[ME].slowLimit)
    && forall n :: PullMsg(n) !in s.net
  }

  /** The action brings the receiver a demand: a pull target above the number where both ends start, a packet
      that it must ask for again, or a request-to-send. */
  predicate Demands(s: Sys, a: Action) {
    || (a.DataArrives? && Field(a.pkt.pullTarget) > INIT_PULL)
    || (a.DataTrimmed? && !W.Duplicate(s.win, a.pkt.seqno))
    || a.RtsArrives?
  }

  /** From `p` to `r`, the receiver was left alone. */
  predicate Spared(p: P.State<nat>, r: P.State<nat>) {
    ME in p.credit && ME in r.credit && r.credit[ME] == p.credit[ME] && Unlisted(r, ME)
  }

  /** The pacer leaves a sink alone that is on none of its lists. */
  lemma TickSpares(p: P.State<nat>, skip: bool)
    requires P.Known(p) && p.pending > 0 && ME in p.credit && Unlisted(p, ME) && P.Tick(p, skip).Ok?
    ensures var r := P.Tick(p, skip).value;
            Spared(p, r.0) && forall i :: 0 <= i < |r.1| ==> r.1[i].sink != ME
  {
  }

  lemma TargetSpares(p: P.State<nat>, k: nat, pt: nat)
    requires k != ME && k in p.credit && ME in p.credit && Unlisted(p, ME)
    ensures P.HandlePullTarget(p, k, pt).Ok? ==> Spared(p, P.HandlePullTarget(p, k, pt).value)
  {
  }

  lemma TrimmedSpares(p: P.State<nat>, k: nat, pt: nat, amount: nat)
    requires k != ME && k in p.credit && ME in p.credit && Unlisted(p, ME)
    ensures P.TrimmedDemand(p, k, pt, amount).Ok? ==> Spared(p, P.TrimmedDemand(p, k, pt, amount).value)
  {
    TargetSpares(p, k, pt);
  }

  lemma RtsSpares(p: P.State<nat>, k: nat, pt: nat, amount: nat)
    requires k != ME && k in p.credit && ME in p.credit && Unlisted(p, ME)
    ensures P.RtsDemand(p, k, pt, amount).Ok? ==> Spared(p, P.RtsDemand(p, k, pt, amount).value)
  {
    TargetSpares(p, k, pt);
    if P.HandlePullTarget(p, k, pt).Ok? {
      AddRtsSpares(P.HandlePullTarget(p, k, pt).value, k, amount);
    }
  }

  lemma AddRtsSpares(p: P.State<nat>, k: nat, amount: nat)
    requires k != ME && k in p.credit && ME in p.credit && Unlisted(p, ME)
    ensures P.AddRtsDemand(p, k, amount).Ok? ==> Spared(p, P.AddRtsDemand(p, k, amount).value)
  {
  }

  lemma OthersSpare(p: P.State<nat>, e: P.Event<nat>)
    requires P.Known(p) && ME in p.credit && Unlisted(p, ME) && OfOthers(e) && P.Enabled(p, e) && P.Step(p, e).Ok?
    ensures Spared(p, P.Step(p, e).value.0) && P.Step(p, e).value.1 == []
  {
    match e
    case Target(k, pt) => TargetSpares(p, k, pt);
    case Trimmed(k, pt, amount) => TrimmedSpares(p, k, pt, amount);
    case Rts(k, pt, amount) => RtsSpares(p, k, pt, amount);
    case Join(_, _) =>
  }

  lemma PacerSparesUndemanded(s: Sys, e: P.Event<nat>)
    requires Inv(s) && Undemanded(s) && P.Enabled(s.pacer, e) && (e.Timer? || OfOthers(e))
    ensures PacerStep(s, e).Ok? && Undemanded(PacerStep(s, e).value)
  {
    PacerMoves(s.pacer, e);
    if e.Timer? {
      TickSpares(s.pacer, e.skip);
      assert PullMessages(P.Tick(s.pacer, e.skip).value.1) == {};
    } else {
      OthersSpare(s.pacer, e);
      assert PullMessages(P.Step(s.pacer, e).value.1) == {};
    }
  }

  lemma SenderSparesUndemanded(s: Sys, r: S.Sent)
    requires Undemanded(s)
    ensures FromEvent(s, r).Ok? ==> Undemanded(FromEvent(s, r).value)
  {
  }

  /** A pull target is a demand exactly if it lies above the number where both ends start. */
  lemma TargetDemandsIff(s: Sys, pt: nat, t: Sys)
    requires Inv(s) && Undemanded(s) && P.HandlePullTarget(s.pacer, ME, pt) == Ok(t.pacer)
    requires forall n :: PullMsg(n) !in t.net
    ensures Undemanded(t) <==> pt <= INIT_PULL
  {
  }

  lemma DataDemandsIff(s: Sys, p: S.Packet, ecn: bool)
    requires Inv(s) && Undemanded(s) && Enabled(s, DataArrives(p, ecn)) && TakeData(s, p, ecn).Ok?
    ensures Undemanded(TakeData(s, p, ecn).value) <==> Field(p.pullTarget) <= INIT_PULL
  {
    TargetDemandsIff(s, Field(p.pullTarget), TakeData(s, p, ecn).value);
  }

  lemma TrimmedDemandsIff(s: Sys, p: S.Packet)
    requires Inv(s) && Undemanded(s) && Enabled(s, DataTrimmed(p)) && TakeTrimmed(s, p).Ok?
    ensures Undemanded(TakeTrimmed(s, p).value) <==> W.Duplicate(s.win, p.seqno)
  {
    P.TargetKeepsInv(s.pacer, ME, Field(p.pullTarget));
  }

  lemma RtsDemands(s: Sys, p: S.Packet, ecn: bool)
    requires Inv(s) && Undemanded(s) && Enabled(s, RtsArrives(p, ecn)) && TakeRts(s, p, ecn).Ok?
    ensures !Undemanded(TakeRts(s, p, ecn).value)
  {
    P.TargetKeepsInv(s.pacer, ME, Field(p.pullTarget));
  }

  /** Exactly the actions that bring a demand end the receiver's rest. */
  lemma UndemandedIff(s: Sys, a: Action)
    requires Inv(s) && Undemanded(s) && Enabled(s, a) && Next(s, a).Ok?
    ensures Undemanded(Next(s, a).value) <==> !Demands(s, a)
  {
    match a
    case DataArrives(p, ecn) => DataDemandsIff(s, p, ecn);
    case DataTrimmed(p) => TrimmedDemandsIff(s, p);
    case RtsArrives(p, ecn) => RtsDemands(s, p, ecn);
    case PacerTimer(skip) => PacerSparesUndemanded(s, P.Timer(skip));
    case Others(e) => PacerSparesUndemanded(s, e);
    case AckArrives(k, now, cc, grant) =>
      SenderSparesUndemanded(s, S.ProcessAck(s.snd, k.cum, k.ref, k.bitmap, now, cc, grant));
    case NackArrives(q, now, cc, grant, grant') =>
      SenderSparesUndemanded(s, S.ProcessNack(s.snd, q, now, cc, grant, grant'));
    case PullArrives(n, now, cc, grant) =>
      SenderSparesUndemanded(s, S.ProcessPull(s.snd, n, now, cc, grant));
    case Timeout(now, cc, grant, grant', recent) =>
      SenderSparesUndemanded(s, S.TimerExpired(s.snd, now, cc, grant, grant', recent));
    case NicReady(now, cc) => SenderSparesUndemanded(s, S.TimeToSend(s.snd, now, cc));
  }

  /** No action of the run brings the receiver a demand. */
  ghost predicate NoDemand(s: Sys, actions: seq<Action>)
    requires Joined(s)
    decreases |actions|
  {
    if actions == [] then true
    else if !Enabled(s, actions[0]) then NoDemand(s, actions[1..])
    else
      !Demands(s, actions[0]) &&
      var o := Next(s, actions[0]);
      o.Ok? ==> (StaysJoined(s, actions[0]); NoDemand(o.value, actions[1..]))
  }

  /** A sink is pulled only on demand: whatever its pacer does meanwhile for others, it sends no pull to this
      sender before some demand of this sender has arrived. */
  lemma {:induction false} PulledOnlyOnDemand(s: Sys, actions: seq<Action>)
    requires Inv(s) && Undemanded(s) && StaysInReach(s, actions) && NoDemand(s, actions)
    ensures Run(s, actions).Ok? ==> Undemanded(Run(s, actions).value)
    decreases |actions|
  {
    if actions == [] {
    } else if !Enabled(s, actions[0]) {
      PulledOnlyOnDemand(s, actions[1..]);
    } else if Next(s, actions[0]).Ok? {
      NextKeepsInv(s, actions[0]);
      UndemandedIff(s, actions[0]);
      PulledOnlyOnDemand(Next(s, actions[0]).value, actions[1..]);
    }
  }

  /** A flow starts without having made any demand. */
  lemma StartsUndemanded(c: Config, pacer: P.State<nat>, now: nat, cc: S.Cc, grants: nat)
    requires Awaiting(pacer)
    ensures Init(c, pacer, now, cc, grants).Ok? && Undemanded(Init(c, pacer, now, cc, grants).value)
  {
    InitInv(c, pacer, now, cc, grants);
  }

  // ---------------------------------------------------------------- demand is granted

  /** The receiver waits for a pull. */
  predicate Waiting(s: Sys) {
    ME in s.pacer.active || ME in s.pacer.rtx
  }

  /** A packet that arrives puts the receiver in line exactly if it was there before, or if the packet asks for
      more than any before it. */
  lemma ArrivalListsIff(s: Sys, p: S.Packet, ecn: bool)
    requires Inv(s) && Enabled(s, DataArrives(p, ecn)) && InReach(s, DataArrives(p, ecn))
    ensures TakeData(s, p, ecn).Ok?
    ensures Waiting(TakeData(s, p, ecn).value) <==> Waiting(s) || Field(p.pullTarget) > s.pacer.credit[ME].target
  {
    var t := DataLeads(s, p, ecn);
    RaisedListsIff(s.pacer, Field(p.pullTarget));
  }

  lemma RaisedListsIff(p: P.State<nat>, pt: nat)
    requires P.Inv(p) && ME in p.credit
    ensures P.HandlePullTarget(p, ME, pt).Ok?
    ensures var r := P.HandlePullTarget(p, ME, pt).value;
            && (ME in r.active || ME in r.rtx <==> ME in p.active || ME in p.rtx || pt > p.credit[ME].target)
            && ME in r.credit && r.credit[ME].target >= pt && r.credit[ME].latest == p.credit[ME].latest
  {
    P.TargetKeepsInv(p, ME, pt);
    assert P.Placed(p, ME);
  }

  function PacerTimers(n: nat): seq<Action> {
    seq(n, i => PacerTimer(false))
  }

  /** The pacer after `n` of its events, with nothing arriving in between. */
  ghost function AfterTimers(p: P.State<nat>, n: nat): P.State<nat>
    requires P.Inv(p)
  {
    P.RunIsSafe(p, P.Timers(n));
    P.Run(p, P.Timers(n)).value.0
  }

  lemma AfterTimersStep(p: P.State<nat>, r: P.State<nat>, n: nat)
    requires P.Inv(p) && n > 0 && P.Inv(r)
    requires if p.pending > 0 then PacerNext(p, r) else r == p
    ensures AfterTimers(p, n) == AfterTimers(r, n - 1)
  {
    P.RunIsSafe(p, P.Timers(n));
    P.RunIsSafe(r, P.Timers(n - 1));
    assert P.Timers<nat>(n)[1..] == P.Timers<nat>(n - 1);
  }

  ghost predicate PacerNext(p: P.State<nat>, r: P.State<nat>)
    requires P.Inv(p) && p.pending > 0
  {
    P.Step(p, P.Timer(false)).Ok? && r == P.Step(p, P.Timer(false)).value.0
  }

  /** Running the pacer does to the whole what it does to the pacer alone. */
  lemma {:induction false} PacerTimersRun(s: Sys, n: nat) returns (t: Sys)
    requires Inv(s)
    ensures Run(s, PacerTimers(n)) == Ok(t) && Inv(t) && t.snd == s.snd && t.pacer == AfterTimers(s.pacer, n)
    decreases n
  {
    if n == 0 {
      t := s;
    } else {
      var u := FirstTimer(s, n);
      t := PacerTimersRun(u, n - 1);
    }
  }

  lemma FirstTimer(s: Sys, n: nat) returns (t: Sys)
    requires Inv(s) && n > 0
    ensures Inv(t) && t.snd == s.snd && Run(s, PacerTimers(n)) == Run(t, PacerTimers(n - 1))
    ensures AfterTimers(s.pacer, n) == AfterTimers(t.pacer, n - 1)
  {
    if s.pacer.pending > 0 {
      t := PacerLeads(s);
      TimersRunOn(s, t, n);
    } else {
      t := s;
      assert PacerTimers(n)[1..] == PacerTimers(n - 1);
    }
    AfterTimersStep(s.pacer, t.pacer, n);
  }

  lemma TimersRunOn(s: Sys, t: Sys, n: nat)
    requires n > 0 && Leads(s, PacerTimer(false), t)
    ensures Run(s, PacerTimers(n)) == Run(t, PacerTimers(n - 1))
  {
    assert PacerTimers(n) == [PacerTimer(false)] + PacerTimers(n - 1);
    RunOne(s, PacerTimer(false), t, PacerTimers(n - 1));
  }

  lemma PacerLeads(s: Sys) returns (t: Sys)
    requires Inv(s) && s.pacer.pending > 0
    ensures Leads(s, PacerTimer(false), t) && Inv(t) && t.snd == s.snd
    ensures PacerNext(s.pacer, t.pacer)
  {
    PacerKeepsInv(s, P.Timer(false));
    t := PacerStep(s, P.Timer(false)).value;
  }

  /** A packet that asks for more than the number where both ends start arrives, the pacer works off its lists,
      and its last pull reaches the sender. */
  function CreditRun(p: S.Packet, ecn: bool, n: nat, pull: Action): seq<Action> {
    [DataArrives(p, ecn)] + (PacerTimers(n) + [pull])
  }

  /** Demand that has arrived comes back as credit: a pacer that is not told to skip sends, after finitely many
      events, a pull with which the sender has all that the packet asked for. */
  lemma DemandIsGranted(s: Sys, p: S.Packet, ecn: bool, now: nat, cc: S.Cc, grant: bool) returns (n: nat, pullno: nat)
    requires Inv(s) && Enabled(s, DataArrives(p, ecn)) && InReach(s, DataArrives(p, ecn))
    requires Field(p.pullTarget) > INIT_PULL
    ensures var o := Run(s, CreditRun(p, ecn, n, PullArrives(pullno, now, cc, grant)));
            o.Ok? && Inv(o.value) && o.value.snd.pull >= Field(p.pullTarget)
  {
    var t := ArrivalRaises(s, p, ecn);
    n, pullno := ListedIsGranted(t, Field(p.pullTarget), now, cc, grant);
    var pull := PullArrives(pullno, now, cc, grant);
    RunOne(s, DataArrives(p, ecn), t, PacerTimers(n) + [pull]);
  }

  lemma ArrivalRaises(s: Sys, p: S.Packet, ecn: bool) returns (t: Sys)
    requires Inv(s) && Enabled(s, DataArrives(p, ecn)) && InReach(s, DataArrives(p, ecn))
    ensures Leads(s, DataArrives(p, ecn), t) && Inv(t) && t.pacer.credit[ME].target >= Field(p.pullTarget)
  {
    t := DataLeads(s, p, ecn);
    RaisedListsIff(s.pacer, Field(p.pullTarget));
  }

  lemma ListedIsGranted(s: Sys, target: nat, now: nat, cc: S.Cc, grant: bool) returns (n: nat, pullno: nat)
    requires Inv(s) && INIT_PULL < target <= s.pacer.credit[ME].target
    ensures var o := Run(s, PacerTimers(n) + [PullArrives(pullno, now, cc, grant)]);
            o.Ok? && Inv(o.value) && o.value.snd.pull >= target
  {
    n := P.EventsToDrain(s.pacer);
    var t := Drained(s, n);
    pullno := Latest(t);
    var pull := PullArrives(pullno, now, cc, grant);
    var u := PullLeads(t, pullno, now, cc, grant);
    RunAppend(s, PacerTimers(n), [pull]);
    RunOne(t, pull, u, []);
    assert [pull] + [] == [pull];
  }

  lemma Drained(s: Sys, n: nat) returns (t: Sys)
    requires Inv(s) && n == P.EventsToDrain(s.pacer)
    ensures Run(s, PacerTimers(n)) == Ok(t) && Inv(t) && Latest(t) >= s.pacer.credit[ME].target
  {
    P.PacerDrains(s.pacer);
    t := PacerTimersRun(s, n);
  }

  lemma PullLeads(s: Sys, pullno: nat, now: nat, cc: S.Cc, grant: bool) returns (t: Sys)
    requires Inv(s) && PullMsg(pullno) in s.net
    ensures Leads(s, PullArrives(pullno, now, cc, grant), t) && Inv(t) && t.snd.pull >= pullno
  {
    PullKeepsInv(s, pullno, now, cc, grant);
    t := FromEvent(s, S.ProcessPull(s.snd, pullno, now, cc, grant)).value;
  }

  // ---------------------------------------------------------------- what a packet asks for

  /** What the sender wants to have in hand: its backlog, as far as windows allow. */
  function Want(s: S.Sender, backlog: int, cc: S.Cc): int {
    S.Min(if cc.Window? then S.Min(backlog, cc.cwnd + s.Mtu()) else backlog, s.maxWnd)
  }

  /** Rounding up never asks for too little, and for less than one quantum too much. */
  lemma CeilCovers(bytes: int)
    ensures Unquantize(QuantizeCeil(bytes)) >= bytes
    ensures QuantizeCeil(bytes) > 0 ==> Unquantize(QuantizeCeil(bytes)) < bytes + PULL_QUANTUM
  {
  }

  /** What a sender gets that is pulled up to the target it announced: pulled credit for all that it wants beyond
      the speculative credit it still holds, and less than one quantum more, or a whole window. The speculative
      credit itself is only ever given up once the initial phase is over. */
  lemma GrantCoversWant(s: S.Sender, backlog: int, cc: S.Cc, pullno: nat)
    requires var (target, spec) := S.ComputePullTarget(s, backlog, cc); pullno >= target
    ensures var (target, spec) := S.ComputePullTarget(s, backlog, cc);
            var t := S.HandlePull(s.(pullTarget := target, creditSpec := spec), pullno);
            && (t.creditPull >= Want(s, backlog, cc) - spec || t.creditPull == t.maxWnd)
            && (pullno == target > s.pull ==> t.creditPull < Want(s, backlog, cc) - spec + PULL_QUANTUM)
  {
    var (target, spec) := S.ComputePullTarget(s, backlog, cc);
    CeilCovers(Want(s, backlog, cc) - s.creditPull - spec + Unquantize(s.pull));
  }

  /** Served up to its target, a source that wants more than its speculative credit can send again; one that
      wants at least a quantum less cannot. A first packet that asks for nothing is the latter case. */
  lemma ServedCanSpend(s: S.Sender, backlog: int, cc: S.Cc, pullno: nat)
    requires var (target, spec) := S.ComputePullTarget(s, backlog, cc); pullno >= target
    requires s.maxWnd > 0
    ensures var (target, spec) := S.ComputePullTarget(s, backlog, cc);
            var t := S.HandlePull(s.(pullTarget := target, creditSpec := spec), pullno);
            && (Want(s, backlog, cc) > spec ==> t.creditPull > 0)
            && (pullno == target > s.pull && Want(s, backlog, cc) + PULL_QUANTUM <= spec ==> t.creditPull < 0)
  {
    GrantCoversWant(s, backlog, cc, pullno);
  }
}
