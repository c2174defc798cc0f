/** Runs that are careful: they stay in reach, trip no assertion, and avoid mishaps of some kind. */
module CarefulRuns {
  import opened Outcomes
  import opened Protocol
  import opened Starvation
  import opened NeverStalls
  import S = Sender
  import P = PullPacer

  /** The two ways to take away a receiver's supply, and either of them. */
  datatype Mishap = Overtaking | Early | Either

  ghost predicate Strikes(s: Sys, a: Action, k: Mishap) {
    (!k.Early? && Overtakes(s, a)) || (!k.Overtaking? && Unasked(s, a))
  }

  /** Every action of the run can happen, lies in reach, has a sane window and trips no assertion, and none is a
      mishap of kind `k`. */
  ghost predicate Careful(s: Sys, actions: seq<Action>, k: Mishap)
    requires Joined(s)
    decreases |actions|
  {
    actions == [] ||
    (&& Enabled(s, actions[0]) && InReach(s, actions[0]) && SaneAction(actions[0]) && !Strikes(s, actions[0], k)
     && Next(s, actions[0]).Ok?
     && (StaysJoined(s, actions[0]); Careful(Next(s, actions[0]).value, actions[1..], k)))
  }

  lemma {:induction false} CarefulSnoc(s: Sys, actions: seq<Action>, k: Mishap, t: Sys, a: Action, u: Sys)
    requires Joined(s) && Careful(s, actions, k) && Run(s, actions) == Ok(t)
    requires Leads(t, a, u) && InReach(t, a) && SaneAction(a) && !Strikes(t, a, k)
    ensures Careful(s, actions + [a], k) && Run(s, actions + [a]) == Ok(u)
    decreases |actions|
  {
    if actions == [] {
      assert [] + [a] == [a] && [a][1..] == [];
      assert Careful(u, [], k) && Run(u, []) == Ok(u);
    } else {
      assert (actions + [a])[1..] == actions[1..] + [a];
      CarefulSnoc(Next(s, actions[0]).value, actions[1..], k, t, a, u);
    }
  }

  lemma {:induction false} CarefulStays(s: Sys, actions: seq<Action>, k: Mishap)
    requires Joined(s) && Careful(s, actions, k)
    ensures StaysInReach(s, actions) && SaneRun(actions)
    decreases |actions|
  {
    if actions != [] {
      StaysJoined(s, actions[0]);
      CarefulStays(Next(s, actions[0]).value, actions[1..], k);
    }
  }

  lemma {:induction false} CarefulIsTimely(s: Sys, actions: seq<Action>)
    requires Joined(s) && Careful(s, actions, Either)
    ensures TimelyRun(s, actions)
    decreases |actions|
  {
    if actions != [] {
      StaysJoined(s, actions[0]);
      CarefulIsTimely(Next(s, actions[0]).value, actions[1..]);
    }
  }

  /** Some careful run leads from `s0` to `t`. */
  ghost predicate Got(s0: Sys, t: Sys, k: Mishap) {
    && Joined(s0) && Joined(t)
    && exists actions :: Careful(s0, actions, k) && Run(s0, actions) == Ok(t)
  }

  /** Every run in reach from `s0` keeps the invariant. */
  ghost predicate Safe(s0: Sys) {
    Joined(s0) &&
    forall actions {:trigger StaysInReach(s0, actions)} ::
      StaysInReach(s0, actions) && Run(s0, actions).Ok? ==> Inv(Run(s0, actions).value)
  }

  lemma InvIsSafe(s0: Sys)
    requires Inv(s0)
    ensures Safe(s0)
  {
    forall actions | StaysInReach(s0, actions) && Run(s0, actions).Ok? ensures Inv(Run(s0, actions).value) {
      RunKeepsInv(s0, actions);
    }
  }

  lemma GotInv(s0: Sys, t: Sys, k: Mishap)
    requires Safe(s0) && Got(s0, t, k)
    ensures Inv(t)
  {
    var actions :| Careful(s0, actions, k) && Run(s0, actions) == Ok(t);
    CarefulStays(s0, actions, k);
  }

  lemma GotStart(s0: Sys, k: Mishap)
    requires Joined(s0)
    ensures Got(s0, s0, k)
  {
    assert Careful(s0, [], k) && Run(s0, []) == Ok(s0);
  }

  lemma GotStep(s0: Sys, t: Sys, a: Action, u: Sys, k: Mishap)
    requires Got(s0, t, k) && Leads(t, a, u) && InReach(t, a) && SaneAction(a) && !Strikes(t, a, k)
    ensures Got(s0, u, k)
  {
    var actions :| Careful(s0, actions, k) && Run(s0, actions) == Ok(t);
    CarefulSnoc(s0, actions, k, t, a, u);
  }

  /** A step of the source, given by what it does to the source and what it sends. */
  lemma GotMove(s0: Sys, t: Sys, a: Action, snd: S.Sender, pkts: seq<S.Packet>, k: Mishap) returns (u: Sys)
    requires Got(s0, t, k) && Enabled(t, a) && SaneAction(a) && Next(t, a) == Ok(WithSender(t, snd, pkts))
    requires OwnEvent(a) || a.AckArrives? || a.PullArrives?
    ensures Got(s0, u, k) && u == WithSender(t, snd, pkts)
  {
    u := WithSender(t, snd, pkts);
    GotStep(s0, t, a, u, k);
  }

  lemma GotTick(s0: Sys, t: Sys, p: P.State<nat>, n: nat, slow: bool, k: Mishap) returns (u: Sys)
    requires Got(s0, t, k) && t.pacer.pending > 0 && P.Known(p) && ME in p.credit
    requires P.Tick(t.pacer, false) == Ok((p, [P.PullPkt(ME, n, slow)]))
    ensures Got(s0, u, k) && u == t.(pacer := p, net := t.net + {PullMsg(n)})
  {
    assert PullMessages([P.PullPkt(ME, n, slow)]) == {PullMsg(n)};
    u := t.(pacer := p, net := t.net + {PullMsg(n)});
    GotStep(s0, t, PacerTimer(false), u, k);
  }
}
