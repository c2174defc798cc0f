/**
In which order the pacer's sinks are pulled: every list is served in turn, and whoever is served goes to the end.
 */
module PullOrder {
  import opened Outcomes
  import opened PullPacer
  import opened Subsequences

  /** The sinks that the pulls went to, oldest first. */
  function Sinks<K>(pkts: seq<PullPkt<K>>): (r: seq<K>)
    ensures |r| == |pkts|
  {
    if pkts == [] then [] else [pkts[0].sink] + Sinks(pkts[1..])
  }

  /** The pulls went to the sinks of `q` in this order, as far as either of the two goes. */
  predicate InTurn<K(==)>(sent: seq<K>, q: seq<K>) {
    sent <= q || q <= sent
  }

  lemma {:induction false} SinksAppend<K>(a: seq<PullPkt<K>>, b: seq<PullPkt<K>>)
    requires |a| <= 1
    ensures Sinks(a + b) == Sinks(a) + Sinks(b)
  {
    if a == [] {
      assert a + b == b;
    } else {
      assert a == [a[0]] && (a + b)[1..] == b && a[1..] == [];
    }
  }

  /** `q` waits at the head of the list, or the pull `sent` has just gone to its first and the others wait there. */
  ghost predicate Moves<K>(q: seq<K>, sent: seq<PullPkt<K>>, list: seq<K>) {
    || (sent == [] && q <= list)
    || (|sent| == 1 && q != [] && sent[0].sink == q[0] && q[1..] <= list)
  }

  lemma MovesInTurn<K>(q: seq<K>, a: seq<PullPkt<K>>, list: seq<K>, b: seq<PullPkt<K>>)
    requires Moves(q, a, list)
    requires InTurn(Sinks(b), if a == [] then q else q[1..])
    ensures InTurn(Sinks(a + b), q)
  {
    SinksAppend(a, b);
    if a == [] {
      assert Sinks(a + b) == Sinks(b);
    } else {
      assert a == [a[0]] && a[1..] == [] && Sinks(a) == [q[0]];
      assert q == [q[0]] + q[1..];
      assert Sinks(a + b) == [q[0]] + Sinks(b);
    }
  }

  // ---------------------------------------------------------------- requests

  /** From `s` to `t` sinks have only joined the lists at their ends, the retransmit list only if `retx`. */
  predicate Joins<K(==)>(s: State<K>, t: State<K>, retx: bool) {
    s.rtx <= t.rtx && s.active <= t.active && s.idle == t.idle && (!retx ==> t.rtx == s.rtx)
  }

  lemma TargetJoins<K>(s: State<K>, k: K, pt: nat)
    requires Inv(s) && k in s.credit
    ensures HandlePullTarget(s, k, pt).Ok? && Joins(s, HandlePullTarget(s, k, pt).value, false)
    ensures k in HandlePullTarget(s, k, pt).value.credit
  {
    TargetKeepsInv(s, k, pt);
  }

  lemma DemandJoins<K>(s: State<K>, t: State<K>, k: K, amount: nat)
    requires Joins(s, t, false) && k in t.credit
    ensures var o := RequestRetransmit(WithCredit(t, k, t.credit[k].(retx := t.credit[k].retx + amount)), k);
            o.Ok? ==> Joins(s, o.value, true)
    ensures AddRtsDemand(t, k, amount).Ok? ==> Joins(s, AddRtsDemand(t, k, amount).value, true)
  {
  }

  /** Whoever asks to be pulled waits behind all that wait already. */
  lemma RequestsWaitBehind<K>(s: State<K>, e: Event<K>)
    requires Inv(s) && Enabled(s, e) && !e.Timer?
    ensures Step(s, e).Ok? && Step(s, e).value.1 == []
    ensures Joins(s, Step(s, e).value.0, e.Trimmed? || e.Rts?)
    ensures e.Join? ==> Step(s, e).value.0.active == s.active
  {
    StepKeepsInv(s, e);
    match e
    case Target(k, pt) => TargetJoins(s, k, pt);
    case Trimmed(k, pt, amount) =>
      TargetJoins(s, k, pt);
      DemandJoins(s, HandlePullTarget(s, k, pt).value, k, amount);
    case Rts(k, pt, amount) =>
      TargetJoins(s, k, pt);
      DemandJoins(s, HandlePullTarget(s, k, pt).value, k, amount);
    case Join(_, _) =>
  }

  /** Asking for a pull without the flag, or twice, is caught, and so is asking twice for a retransmission. */
  lemma AskingTwiceAborts<K>(s: State<K>, k: K)
    requires Inv(s) && k in s.credit
    ensures RequestPull(s, k).Aborted?
    ensures RequestPull(WithCredit(s, k, s.credit[k].(inPull := true)), k).Aborted? <==> s.credit[k].inPull
    ensures RequestRetransmit(s, k).Aborted? <==> s.credit[k].retx > 0
  {
    assert Placed(s, k);
  }

  // ---------------------------------------------------------------- one event

  lemma RtxMoves<K>(s: State<K>, e: Event<K>, q: seq<K>)
    requires Inv(s) && Enabled(s, e) && q != [] && q <= s.rtx
    ensures Step(s, e).Ok? && Moves(q, Step(s, e).value.1, Step(s, e).value.0.rtx)
    ensures s.active <= Step(s, e).value.0.active && s.idle == Step(s, e).value.0.idle
  {
    StepKeepsInv(s, e);
    if !e.Timer? {
      RequestsWaitBehind(s, e);
    }
  }

  lemma ActiveMoves<K>(s: State<K>, e: Event<K>, q: seq<K>)
    requires Inv(s) && Enabled(s, e) && q != [] && q <= s.active && s.rtx == [] && !e.Trimmed? && !e.Rts?
    ensures Step(s, e).Ok? && Step(s, e).value.0.rtx == []
    ensures Moves(q, Step(s, e).value.1, Step(s, e).value.0.active)
  {
    StepKeepsInv(s, e);
    if !e.Timer? {
      RequestsWaitBehind(s, e);
    }
  }

  lemma IdleMoves<K>(s: State<K>, e: Event<K>, q: seq<K>)
    requires Inv(s) && Enabled(s, e) && q != [] && q <= s.idle && s.rtx == s.active == [] && (e.Timer? || e.Join?)
    ensures Step(s, e).Ok? && Step(s, e).value.0.rtx == Step(s, e).value.0.active == []
    ensures Moves(q, Step(s, e).value.1, Step(s, e).value.0.idle)
  {
    StepKeepsInv(s, e);
    if !e.Timer? {
      RequestsWaitBehind(s, e);
    }
  }

  // ---------------------------------------------------------------- whole runs

  /** Over every run whatsoever, the sinks that wait for retransmissions are pulled first and in turn. Until they have
      been, those that wait for their backlog keep their places, and whoever is done with its retransmissions joins
      behind them. */
  lemma {:induction false} RtxInTurn<K>(s: State<K>, es: seq<Event<K>>, q: seq<K>)
    requires Inv(s) && q <= s.rtx
    ensures Run(s, es).Ok? && InTurn(Sinks(Run(s, es).value.1), q)
    ensures |Run(s, es).value.1| < |q| ==> s.active <= Run(s, es).value.0.active
    decreases |es|
  {
    RunIsSafe(s, es);
    if es != [] && q != [] {
      if !Enabled(s, es[0]) {
        RtxInTurn(s, es[1..], q);
      } else {
        StepKeepsInv(s, es[0]);
        RtxMoves(s, es[0], q);
        var r := Step(s, es[0]).value;
        RtxInTurn(r.0, es[1..], if r.1 == [] then q else q[1..]);
        MovesInTurn(q, r.1, r.0.rtx, Run(r.0, es[1..]).value.1);
      }
    }
  }

  /** While nothing is to be retransmitted, the backlogged sinks are pulled first and in turn, whoever asks
      meanwhile. */
  lemma {:induction false} ActiveInTurn<K>(s: State<K>, es: seq<Event<K>>, q: seq<K>)
    requires Inv(s) && s.rtx == [] && q <= s.active && forall i :: 0 <= i < |es| ==> !es[i].Trimmed? && !es[i].Rts?
    ensures Run(s, es).Ok? && InTurn(Sinks(Run(s, es).value.1), q)
    decreases |es|
  {
    RunIsSafe(s, es);
    if es != [] && q != [] {
      if !Enabled(s, es[0]) {
        ActiveInTurn(s, es[1..], q);
      } else {
        StepKeepsInv(s, es[0]);
        ActiveMoves(s, es[0], q);
        var r := Step(s, es[0]).value;
        ActiveInTurn(r.0, es[1..], if r.1 == [] then q else q[1..]);
        MovesInTurn(q, r.1, r.0.active, Run(r.0, es[1..]).value.1);
      }
    }
  }

  /** While nobody asks for anything, the idle sinks get their slow credit in turn. */
  lemma {:induction false} IdleInTurn<K>(s: State<K>, es: seq<Event<K>>, q: seq<K>)
    requires Inv(s) && s.rtx == s.active == [] && q <= s.idle
    requires forall i :: 0 <= i < |es| ==> es[i].Timer? || es[i].Join?
    ensures Run(s, es).Ok? && InTurn(Sinks(Run(s, es).value.1), q)
    decreases |es|
  {
    RunIsSafe(s, es);
    if es != [] && q != [] {
      if !Enabled(s, es[0]) {
        IdleInTurn(s, es[1..], q);
      } else {
        StepKeepsInv(s, es[0]);
        IdleMoves(s, es[0], q);
        var r := Step(s, es[0]).value;
        IdleInTurn(r.0, es[1..], if r.1 == [] then q else q[1..]);
        MovesInTurn(q, r.1, r.0.idle, Run(r.0, es[1..]).value.1);
      }
    }
  }

  // ---------------------------------------------------------------- one round

  /** With `n` sinks on the active list and none to retransmit, the next `n` timer events pull each of them once, in
      their order. Those with demand left are then on the list again, in the same order, and the others idle. */
  lemma {:induction false} OneRound<K>(s: State<K>)
    requires Inv(s) && s.rtx == []
    ensures var o := Run(s, Timers(|s.active|));
            && o.Ok? && Sinks(o.value.1) == s.active
            && o.value.0.active == Needy(s, s.active) && o.value.0.idle == s.idle + Sated(s, s.active)
  {
    RoundFrom(s, s.active, []);
    assert s.active + [] == s.active;
  }

  /** Those of `q` that one pull leaves with demand. */
  function Needy<K>(s: State<K>, q: seq<K>): seq<K>
    requires forall k :: k in q ==> k in s.credit
  {
    if q == [] then []
    else (if s.credit[q[0]].target > s.credit[q[0]].latest + CREDIT_PER_PULL then [q[0]] else []) + Needy(s, q[1..])
  }

  function Sated<K>(s: State<K>, q: seq<K>): seq<K>
    requires forall k :: k in q ==> k in s.credit
  {
    if q == [] then []
    else (if s.credit[q[0]].target > s.credit[q[0]].latest + CREDIT_PER_PULL then [] else [q[0]]) + Sated(s, q[1..])
  }

  lemma {:induction false} SameNeeds<K>(s: State<K>, t: State<K>, q: seq<K>)
    requires forall k :: k in q ==> k in s.credit && k in t.credit && t.credit[k] == s.credit[k]
    ensures Needy(s, q) == Needy(t, q) && Sated(s, q) == Sated(t, q)
  {
    if q != [] {
      SameNeeds(s, t, q[1..]);
    }
  }

  lemma {:induction false} RoundFrom<K>(s: State<K>, q: seq<K>, done: seq<K>)
    requires Inv(s) && s.rtx == [] && s.active == q + done
    ensures Goes(s, q, done)
    decreases q
  {
    RunIsSafe(s, Timers(|q|));
    if q != [] {
      RoundStep(s, q, done);
      var r := Step(s, Timer(false)).value;
      var more := if s.credit[q[0]].target > s.credit[q[0]].latest + CREDIT_PER_PULL then [q[0]] else [];
      RoundFrom(r.0, q[1..], done + more);
      SameNeeds(s, r.0, q[1..]);
      RoundGoesOn(s, q, done, r.0, r.1);
    }
  }

  /** The sinks of `q` were pulled in turn, and those with demand left wait behind `done`. */
  ghost predicate Ends<K>(s: State<K>, q: seq<K>, done: seq<K>, t: State<K>, sent: seq<PullPkt<K>>)
    requires forall k :: k in q ==> k in s.credit
  {
    Sinks(sent) == q && t.active == done + Needy(s, q) && t.idle == s.idle + Sated(s, q)
  }

  ghost predicate Goes<K>(s: State<K>, q: seq<K>, done: seq<K>)
    requires Inv(s) && forall k :: k in q ==> k in s.credit
  {
    var o := Run(s, Timers(|q|));
    o.Ok? && Ends(s, q, done, o.value.0, o.value.1)
  }

  lemma EndsOneMore<K>(
    s: State<K>, q: seq<K>, done: seq<K>, t: State<K>, sent: seq<PullPkt<K>>, u: State<K>, rest: seq<PullPkt<K>>)
    requires q != [] && Sinks(sent) == [q[0]] && |sent| == 1
    requires forall k :: k in q ==> k in s.credit && k in t.credit
    requires Needy(s, q[1..]) == Needy(t, q[1..]) && Sated(s, q[1..]) == Sated(t, q[1..])
    requires var more := s.credit[q[0]].target > s.credit[q[0]].latest + CREDIT_PER_PULL;
             && Ends(t, q[1..], done + if more then [q[0]] else [], u, rest)
             && t.idle == s.idle + if more then [] else [q[0]]
    ensures Ends(s, q, done, u, sent + rest)
  {
    SinksAppend(sent, rest);
    assert q == [q[0]] + q[1..];
    Regroup(done, if s.credit[q[0]].target > s.credit[q[0]].latest + CREDIT_PER_PULL then [q[0]] else [],
            Needy(s, q[1..]));
    Regroup(s.idle, if s.credit[q[0]].target > s.credit[q[0]].latest + CREDIT_PER_PULL then [] else [q[0]],
            Sated(s, q[1..]));
  }

  lemma RoundGoesOn<K>(s: State<K>, q: seq<K>, done: seq<K>, t: State<K>, sent: seq<PullPkt<K>>)
    requires Inv(s) && Inv(t) && q != [] && Enabled(s, Timer(false)) && Step(s, Timer(false)) == Ok((t, sent))
    requires Sinks(sent) == [q[0]] && forall k :: k in q ==> k in s.credit && k in t.credit
    requires Needy(s, q[1..]) == Needy(t, q[1..]) && Sated(s, q[1..]) == Sated(t, q[1..])
    requires var more := s.credit[q[0]].target > s.credit[q[0]].latest + CREDIT_PER_PULL;
             && Goes(t, q[1..], done + if more then [q[0]] else [])
             && t.idle == s.idle + if more then [] else [q[0]]
    ensures Goes(s, q, done)
  {
    var rest := Run(t, Timers(|q[1..]|)).value;
    FirstTimer(s, |q|, t, sent);
    EndsOneMore(s, q, done, t, sent, rest.0, rest.1);
  }

  lemma FirstTimer<K>(s: State<K>, n: nat, t: State<K>, sent: seq<PullPkt<K>>)
    requires Known(s) && Known(t) && n > 0 && Enabled(s, Timer(false)) && Step(s, Timer(false)) == Ok((t, sent))
    requires Run(t, Timers(n - 1)).Ok?
    ensures var rest := Run(t, Timers(n - 1)).value; Run(s, Timers(n)) == Ok((rest.0, sent + rest.1))
  {
    assert Timers<K>(n)[0] == Timer(false) && Timers<K>(n)[1..] == Timers<K>(n - 1);
  }

  lemma RoundStep<K>(s: State<K>, q: seq<K>, done: seq<K>)
    requires Inv(s) && s.rtx == [] && q != [] && s.active == q + done
    ensures Enabled(s, Timer(false)) && Step(s, Timer(false)).Ok?
    ensures var r := Step(s, Timer(false)).value; var k := q[0];
            var more := s.credit[k].target > s.credit[k].latest + CREDIT_PER_PULL;
            && Inv(r.0) && r.0.rtx == [] && Sinks(r.1) == [k]
            && r.0.active == q[1..] + (done + if more then [k] else [])
            && r.0.idle == s.idle + (if more then [] else [k])
            && forall j :: j in q[1..] ==> j in r.0.credit && r.0.credit[j] == s.credit[j]
  {
    StepKeepsInv(s, Timer(false));
    ServesActive(s);
    NoDupTail(s.active);
    assert s.active[1..] == q[1..] + done;
    Regroup(q[1..], done, [q[0]]);
    assert q[1..] + done == q[1..] + (done + []);
  }

  /** The timer event serves the head of the active list. */
  lemma ServesActive<K>(s: State<K>)
    requires Inv(s) && s.rtx == [] && s.active != []
    ensures Enabled(s, Timer(false)) && Step(s, Timer(false)).Ok?
    ensures var r := Step(s, Timer(false)).value; var t := ServeActive(s);
            && r.0.credit == t.credit && r.0.active == t.active && r.0.idle == t.idle && r.0.rtx == []
            && r.1 == [PullPkt(s.active[0], s.credit[s.active[0]].latest + CREDIT_PER_PULL, false)]
            && Sinks(r.1) == [s.active[0]]
  {
    StepKeepsInv(s, Timer(false));
    var r := Step(s, Timer(false)).value;
    assert r.1[1..] == [];
  }

  // ---------------------------------------------------------------- slow credit

  /** A sink served from the idle list gets one pull. It goes back to the end of that list, flagged, exactly if its slow
      credit is then still short of its limit, and otherwise loses the flag. */
  lemma IdleGoesBackIff<K>(s: State<K>)
    requires Inv(s) && s.rtx == s.active == [] && s.idle != []
    ensures Step(s, Timer(false)).Ok?
    ensures var t := Step(s, Timer(false)).value.0; var k := s.idle[0]; var c := s.credit[k];
            var short := c.latest + CREDIT_PER_PULL - c.target < c.slowLimit;
            && t.credit[k].latest == c.latest + CREDIT_PER_PULL && (t.credit[k].inSlowPull <==> short)
            && t.idle == (if short then s.idle[1..] + [k] else s.idle[1..])
            && Step(s, Timer(false)).value.1 == [PullPkt(k, c.latest + CREDIT_PER_PULL, true)]
  {
    StepKeepsInv(s, Timer(false));
    assert Placed(s, s.idle[0]);
  }

  /** A sink served from the retransmit list gets one pull, which counts against its retransmissions. It goes back to
      the end of that list exactly if some are left, and otherwise joins the active list if it has demand and is not on
      it. */
  lemma RtxGoesBackIff<K>(s: State<K>)
    requires Inv(s) && s.rtx != []
    ensures Step(s, Timer(false)).Ok?
    ensures var t := Step(s, Timer(false)).value.0; var k := s.rtx[0]; var c := s.credit[k];
            var left := if c.retx > CREDIT_PER_PULL then c.retx - CREDIT_PER_PULL else 0;
            var needy := left == 0 && c.target > c.latest + CREDIT_PER_PULL && k !in s.active;
            && t.credit[k].latest == c.latest + CREDIT_PER_PULL && t.credit[k].retx == left
            && t.rtx == (if left > 0 then s.rtx[1..] + [k] else s.rtx[1..])
            && t.active == (if needy then s.active + [k] else s.active) && t.idle == s.idle
            && Step(s, Timer(false)).value.1 == [PullPkt(k, c.latest + CREDIT_PER_PULL, false)]
  {
    StepKeepsInv(s, Timer(false));
    assert Placed(s, s.rtx[0]);
  }

  /** Only sinks of the idle list are flagged as being on it. */
  ghost predicate Flagged<K>(s: State<K>) {
    forall k :: k in s.credit && s.credit[k].inSlowPull ==> k in s.idle
  }

  /** From `s` to `t` nobody is newly flagged, and nobody leaves the idle list. */
  ghost predicate SameFlags<K>(s: State<K>, t: State<K>) {
    && s.idle <= t.idle
    && forall k :: k in t.credit && t.credit[k].inSlowPull ==> k in s.credit && s.credit[k].inSlowPull
  }

  lemma DemandKeepsFlags<K>(s: State<K>, k: K, amount: nat)
    requires k in s.credit
    ensures var o := RequestRetransmit(WithCredit(s, k, s.credit[k].(retx := s.credit[k].retx + amount)), k);
            o.Ok? ==> SameFlags(s, o.value)
    ensures AddRtsDemand(s, k, amount).Ok? ==> SameFlags(s, AddRtsDemand(s, k, amount).value)
  {
  }

  lemma TargetKeepsFlags<K>(s: State<K>, k: K, pt: nat)
    requires k in s.credit
    ensures HandlePullTarget(s, k, pt).Ok? ==>
              SameFlags(s, HandlePullTarget(s, k, pt).value) && k in HandlePullTarget(s, k, pt).value.credit
  {
  }

  lemma SameFlagsTwice<K>(s: State<K>, t: State<K>, u: State<K>)
    requires SameFlags(s, t) && SameFlags(t, u)
    ensures SameFlags(s, u)
  {
  }

  lemma StillFlagged<K>(s: State<K>, t: State<K>)
    requires Flagged(s) && SameFlags(s, t)
    ensures Flagged(t)
  {
  }

  lemma TrimmedKeepsFlags<K>(s: State<K>, k: K, pt: nat, amount: nat)
    requires k in s.credit && TrimmedDemand(s, k, pt, amount).Ok?
    ensures SameFlags(s, TrimmedDemand(s, k, pt, amount).value)
  {
    TargetKeepsFlags(s, k, pt);
    var t := HandlePullTarget(s, k, pt).value;
    DemandKeepsFlags(t, k, amount);
    SameFlagsTwice(s, t, TrimmedDemand(s, k, pt, amount).value);
  }

  lemma RtsKeepsFlags<K>(s: State<K>, k: K, pt: nat, amount: nat)
    requires k in s.credit && RtsDemand(s, k, pt, amount).Ok?
    ensures SameFlags(s, RtsDemand(s, k, pt, amount).value)
  {
    TargetKeepsFlags(s, k, pt);
    var t := HandlePullTarget(s, k, pt).value;
    DemandKeepsFlags(t, k, amount);
    SameFlagsTwice(s, t, RtsDemand(s, k, pt, amount).value);
  }

  lemma RequestKeepsFlags<K>(s: State<K>, e: Event<K>)
    requires Inv(s) && Flagged(s) && Enabled(s, e) && !e.Timer?
    ensures Step(s, e).Ok? && Flagged(Step(s, e).value.0)
  {
    StepKeepsInv(s, e);
    match e {
      case Target(k, pt) => TargetKeepsFlags(s, k, pt);
      case Trimmed(k, pt, amount) => TrimmedKeepsFlags(s, k, pt, amount);
      case Rts(k, pt, amount) => RtsKeepsFlags(s, k, pt, amount);
      case Join(_, _) =>
    }
    StillFlagged(s, Step(s, e).value.0);
  }

  lemma TimerKeepsFlags<K>(s: State<K>, skip: bool)
    requires Inv(s) && Flagged(s) && s.pending > 0
    ensures Step(s, Timer(skip)).Ok? && Flagged(Step(s, Timer(skip)).value.0)
  {
    StepKeepsInv(s, Timer(skip));
    var t := Step(s, Timer(skip)).value.0;
    forall k | k in t.credit && t.credit[k].inSlowPull ensures k in t.idle {
      if k in s.idle && s.idle != [] {
        assert k == s.idle[0] || k in s.idle[1..];
      }
    }
  }

  lemma {:induction false} RunKeepsFlags<K>(s: State<K>, es: seq<Event<K>>)
    requires Inv(s) && Flagged(s)
    ensures Run(s, es).Ok? && Flagged(Run(s, es).value.0)
    decreases |es|
  {
    RunIsSafe(s, es);
    if es != [] {
      if !Enabled(s, es[0]) {
        RunKeepsFlags(s, es[1..]);
      } else {
        StepKeepsInv(s, es[0]);
        if es[0].Timer? {
          TimerKeepsFlags(s, es[0].skip);
        } else {
          RequestKeepsFlags(s, es[0]);
        }
        RunKeepsFlags(Step(s, es[0]).value.0, es[1..]);
      }
    }
  }
}
