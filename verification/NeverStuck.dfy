/**
Pulled credit is not yet leave to send: speculative credit may be overdrawn, and then a source holds pulled credit
but no credit in all. With a window of at least a packet, and a last packet that makes up for rounding the window to
quanta, that never lasts; with a window of at most half a packet it lasts for ever. A window smaller than two packets
of the flow, its first and its last, never leads to a standstill without pulled credit, whatever the receiver meets.
 */
module NeverStuck {
  import opened Outcomes
  import opened Quanta
  import opened Cyclic
  import opened Protocol
  import opened OnePacketOut
  import opened CreditLoop
  import opened Starvation
  import opened AsksForCredit
  import opened NeverStalls
  import S = Sender
  import I = SenderInvariant
  import P = PullPacer
  import Reach

  /** A source with data left that may not send, and nothing is under way that could change it. */
  ghost predicate Stuck(s: Sys) {
    Settled(s) && (s.snd.creditPull <= 0 || s.snd.Credit() <= 0)
  }

  // ---------------------------------------------------------------- the last packet

  /** The payload of the last packet of a flow. */
  function LastPayload(c: Config): nat
    requires c.flowSize > 0
  {
    (c.flowSize - 1) % c.mss + 1
  }

  /** A window has room for a packet, and what it loses when it is rounded down to quanta is made up for by the last
      packet. */
  predicate Ample(c: Config) {
    && c.flowSize > 0 && c.maxWnd >= c.mss + S.HDR_SIZE
    && LastPayload(c) + S.HDR_SIZE >= c.maxWnd % PULL_QUANTUM
  }

  lemma RestHasLast(f: nat, m: Positive, k: nat)
    requires f > 0 && f - k * m > 0
    ensures f - k * m >= (f - 1) % m + 1
  {
    var d, r := (f - 1) / m, (f - 1) % m;
    assert f - 1 == m * d + r;
    if k > d {
      TimesGrows(d + 1, k, m);
    } else {
      TimesGrows(k, d, m);
    }
  }

  lemma TimesGrows(a: nat, b: nat, m: nat)
    requires a <= b
    ensures a * m <= b * m
  {
    assert (b - a) * m >= 0;
    assert b * m == a * m + (b - a) * m;
  }

  /** While data is unsent the last packet is. */
  lemma BacklogHasLast(c: Config, s: S.Sender)
    requires I.Counts(s) && s.mss == c.mss && s.flowSize == c.flowSize && s.unsent > 0
    ensures s.backlog >= LastPayload(c) + S.HDR_SIZE
  {
    RestHasLast(c.flowSize, c.mss, s.newSent);
    I.CeilDivStep(s.unsent, s.mss);
  }

  // ---------------------------------------------------------------- a settled source can send

  /** Served with all of its slow credit, a source can send. */
  lemma ServedCanSend(c: Config, s: S.Sender, credit: P.Credit)
    requires Announced(c, s) && I.Counts(s) && s.flowSize == c.flowSize && s.unsent > 0
    requires c.flowSize > c.mss && Ample(c)
    requires credit.target >= s.pullTarget && s.pull == credit.latest && credit.Backlog() == 0
    requires credit.SlowCredit() >= QuantizeFloor(c.maxWnd)
    ensures s.creditPull > 0 && s.Credit() > 0
  {
    BacklogHasLast(c, s);
    assert Unquantize(QuantizeFloor(c.maxWnd)) == c.maxWnd - c.maxWnd % PULL_QUANTUM;
  }

  lemma SettledCanSend(c: Config, s: Sys)
    requires Asking(c, s) && s.snd.flowSize == c.flowSize && Settled(s) && Supplied(c, s) && Ample(c)
    ensures s.snd.creditPull > 0 && s.snd.Credit() > 0
  {
    assert P.Placed(s.pacer, ME);
    ServedCanSend(c, s.snd, s.pacer.credit[ME]);
  }

  // ---------------------------------------------------------------- exactly which flows get stuck

  /** The run is timely and leaves the source stuck. */
  ghost predicate Sticks(s: Sys, actions: seq<Action>) {
    && Joined(s) && StaysInReach(s, actions) && SaneRun(actions) && TimelyRun(s, actions)
    && Run(s, actions).Ok? && Stuck(Run(s, actions).value)
  }

  /** Some timely run leaves a flow stuck, which ample windows keep supplied, if and only if the flow with its headers
      fits the initial window and data is left when the card has granted its first packets. */
  lemma StuckIff(c: Config, pacer: P.State<nat>, now: nat, cc: S.Cc, grants: nat)
    requires ProgramSizes(c) && Awaiting(pacer) && (grants > 0 ==> Wide(c, cc) && Sane(cc)) && Ample(c)
    ensures Init(c, pacer, now, cc, grants).Ok?
    ensures (exists actions :: Sticks(Init(c, pacer, now, cc, grants).value, actions) && Opens(c, grants, actions))
            <==> TotalBytes(c) <= c.maxWnd && DataIsLeft(c, grants)
  {
    InitInv(c, pacer, now, cc, grants);
    var s := Init(c, pacer, now, cc, grants).value;
    if TotalBytes(c) <= c.maxWnd && DataIsLeft(c, grants) {
      var actions := TimelyStarvingRun(c, pacer, now, cc, grants, s);
      assert Sticks(s, actions);
    } else {
      forall actions | Sticks(s, actions) && Opens(c, grants, actions) ensures false {
        NothingSticks(c, pacer, now, cc, grants, s, actions);
      }
    }
  }

  lemma NothingSticks(
    c: Config, pacer: P.State<nat>, now: nat, cc: S.Cc, grants: nat, s: Sys, actions: seq<Action>)
    requires ProgramSizes(c) && Awaiting(pacer) && (grants > 0 ==> Wide(c, cc) && Sane(cc)) && Ample(c)
    requires Init(c, pacer, now, cc, grants) == Ok(s) && Opens(c, grants, actions)
    requires !(TotalBytes(c) <= c.maxWnd && DataIsLeft(c, grants))
    ensures !Sticks(s, actions)
  {
    var t := StartsKept(c, pacer, now, cc, grants);
    if Sticks(s, actions) {
      RunKeepsKept(c, s, actions);
      RunKeepsSupplied(c, s, actions);
      Reach.InitFlow(c, pacer, now, cc, grants);
      Reach.RunKeepsFlow(s, actions);
      SettledCanSend(c, Run(s, actions).value);
    }
  }

  // ---------------------------------------------------------------- windows that no mishap empties

  /** A source whose window is smaller than its first and its last packet together keeps pulled credit when it has been
      pulled as far as it has announced, even with no slow credit at all. */
  lemma NarrowStaysPaid(c: Config, s: Sys)
    requires Asking(c, s) && s.snd.flowSize == c.flowSize && Settled(s)
    requires c.maxWnd < c.mss + S.HDR_SIZE + LastPayload(c) + S.HDR_SIZE
    ensures s.snd.creditPull > 0
  {
    assert P.Placed(s.pacer, ME);
    BacklogHasLast(c, s.snd);
  }

  /** With such a window nothing stalls a flow of several packets, whatever overtakes what and whatever is trimmed. */
  lemma NarrowNeverStalls(c: Config, pacer: P.State<nat>, now: nat, cc: S.Cc, grants: nat, actions: seq<Action>)
    requires ProgramSizes(c) && Awaiting(pacer) && (grants > 0 ==> Wide(c, cc) && Sane(cc)) && Opens(c, grants, actions)
    requires c.flowSize > c.mss && c.maxWnd < c.mss + S.HDR_SIZE + LastPayload(c) + S.HDR_SIZE
    ensures Init(c, pacer, now, cc, grants).Ok? && Joined(Init(c, pacer, now, cc, grants).value)
    ensures var s := Init(c, pacer, now, cc, grants).value; var o := Run(s, actions);
            StaysInReach(s, actions) && SaneRun(actions) && o.Ok? ==> !Stalled(o.value)
  {
    NarrowIsExceeded(c);
    var s := StartsKept(c, pacer, now, cc, grants);
    if StaysInReach(s, actions) && SaneRun(actions) && Run(s, actions).Ok? && Stalled(Run(s, actions).value) {
      RunKeepsKept(c, s, actions);
      Reach.InitFlow(c, pacer, now, cc, grants);
      Reach.RunKeepsFlow(s, actions);
      NarrowStaysPaid(c, Run(s, actions).value);
    }
  }

  lemma NarrowIsExceeded(c: Config)
    requires c.flowSize > c.mss && c.maxWnd < c.mss + S.HDR_SIZE + LastPayload(c) + S.HDR_SIZE
    ensures TotalBytes(c) > c.maxWnd
  {
    RestHasLast(c.flowSize, c.mss, 1);
    I.CeilDivStep(c.flowSize, c.mss);
    I.CeilDivStep(c.flowSize - c.mss, c.mss);
  }

  // ---------------------------------------------------------------- windows that are too small

  /** With a window of at most half a packet, a source that has sent its first packet never has credit again. */
  lemma {:induction false} TinyWindowNeverPays(c: Config, s: Sys, actions: seq<Action>)
    requires Asking(c, s) && 2 * c.maxWnd <= c.mss + S.HDR_SIZE
    requires StaysInReach(s, actions) && SaneRun(actions)
    ensures Run(s, actions).Ok? ==> Run(s, actions).value.snd.Credit() <= 0
    decreases |actions|
  {
    if actions == [] {
    } else if !Enabled(s, actions[0]) {
      TinyWindowNeverPays(c, s, actions[1..]);
    } else if Next(s, actions[0]).Ok? {
      NextKeepsAsking(c, s, actions[0]);
      TinyWindowNeverPays(c, Next(s, actions[0]).value, actions[1..]);
    }
  }
}
