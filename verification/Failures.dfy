/**
The failure injector, on values: switches and cables that have failed, are degraded or lose packets
periodically, the trial copy of each of these six sets that the connectivity test reads, and the
elements known to be needed.
 */
module Failures {

  datatype Interval = Interval(failed: nat, recovers: nat)

  /** One packet route from a source to its sink and back. */
  datatype Path = Path(switches: seq<nat>, cables: seq<nat>)

  /** The routes of each source, one for every path entropy. */
  type Network = seq<seq<Path>>

  datatype Faults = Faults(
    failingSwitches: map<nat, Interval>, degradedSwitches: set<nat>, periodicSwitches: map<nat, Interval>,
    failingCables: map<nat, Interval>, degradedCables: map<nat, nat>, periodicCables: map<nat, Interval>)

  /** `trial` holds the copies that the connectivity test reads. Each attempt refreshes only the copy
      of the set it wants to extend. */
  datatype Injector = Injector(
    live: Faults, trial: Faults,
    neededSwitches: set<nat>, neededCables: set<nat>, neededDegradedSwitches: set<nat>, neededDegradedCables: set<nat>)

  predicate SwitchHit(f: Faults, sw: nat) {
    sw in f.failingSwitches || sw in f.degradedSwitches || sw in f.periodicSwitches
  }

  predicate CableHit(f: Faults, cable: nat) {
    cable in f.failingCables || cable in f.degradedCables || cable in f.periodicCables
  }

  predicate Usable(f: Faults, p: Path) {
    && (forall i :: 0 <= i < |p.switches| ==> !SwitchHit(f, p.switches[i]))
    && (forall i :: 0 <= i < |p.cables| ==> !CableHit(f, p.cables[i]))
  }

  predicate HasUsable(f: Faults, paths: seq<Path>) {
    exists i :: 0 <= i < |paths| && Usable(f, paths[i])
  }

  /** Every source has a path that avoids all faulty elements. */
  predicate Connected(f: Faults, net: Network) {
    forall s :: 0 <= s < |net| ==> HasUsable(f, net[s])
  }

  // ---------------------------------------------------------------- attempts

  /** `refused` stands for the checks that come first: the injector is paused, the share of faulty
      elements is too high already, or the list being replayed names another element. */
  function FailSwitch(g: Injector, net: Network, id: nat, when: Interval, refused: bool): Injector {
    if refused || id in g.neededSwitches then g
    else
      var m := g.live.failingSwitches[id := when];
      var t := g.(trial := g.trial.(failingSwitches := m));
      if !Connected(t.trial, net) then t.(neededSwitches := t.neededSwitches + {id})
      else t.(live := g.live.(failingSwitches := m))
  }

  function FailPeriodicSwitch(g: Injector, net: Network, id: nat, when: Interval, refused: bool): Injector {
    if refused || id in g.neededSwitches then g
    else
      var m := g.live.periodicSwitches[id := when];
      var t := g.(trial := g.trial.(periodicSwitches := m));
      if !Connected(t.trial, net) then t.(neededSwitches := t.neededSwitches + {id})
      else t.(live := g.live.(periodicSwitches := m))
  }

  function DegradeSwitch(g: Injector, net: Network, id: nat, refused: bool): Injector {
    if refused || id in g.neededDegradedSwitches then g
    else
      var m := g.live.degradedSwitches + {id};
      var t := g.(trial := g.trial.(degradedSwitches := m));
      if !Connected(t.trial, net) then t.(neededDegradedSwitches := t.neededDegradedSwitches + {id})
      else t.(live := g.live.(degradedSwitches := m))
  }

  function FailCable(g: Injector, net: Network, id: nat, when: Interval, refused: bool): Injector {
    if refused || id in g.neededCables then g
    else
      var m := g.live.failingCables[id := when];
      var t := g.(trial := g.trial.(failingCables := m));
      if !Connected(t.trial, net) then t.(neededCables := t.neededCables + {id})
      else t.(live := g.live.(failingCables := m))
  }

  function FailPeriodicCable(g: Injector, net: Network, id: nat, when: Interval, refused: bool): Injector {
    if refused || id in g.neededCables then g
    else
      var m := g.live.periodicCables[id := when];
      var t := g.(trial := g.trial.(periodicCables := m));
      if !Connected(t.trial, net) then t.(neededCables := t.neededCables + {id})
      else t.(live := g.live.(periodicCables := m))
  }

  function DegradeCable(g: Injector, net: Network, id: nat, severity: nat, refused: bool): Injector {
    if refused || id in g.neededDegradedCables then g
    else
      var m := g.live.degradedCables[id := severity];
      var t := g.(trial := g.trial.(degradedCables := m));
      if !Connected(t.trial, net) then t.(neededDegradedCables := t.neededDegradedCables + {id})
      else t.(live := g.live.(degradedCables := m))
  }

  // ---------------------------------------------------------------- a packet passes an element

  /** A packet passes a switch. An element in a set recovers when its time has come, and otherwise an
      attempt is made once its period is over (`due`). */
  function SwitchFail(g: Injector, net: Network, id: nat, now: nat, due: bool, recovers: nat, refused: bool): Injector {
    if id in g.live.failingSwitches then
      if now > g.live.failingSwitches[id].recovers then
        g.(neededSwitches := {}, live := g.live.(failingSwitches := g.live.failingSwitches - {id}))
      else g
    else if !due then g
    else FailSwitch(g, net, id, Interval(now, recovers), refused)
  }

  function SwitchPeriodicDrop(
    g: Injector, net: Network, id: nat, now: nat, due: bool, recovers: nat, refused: bool): Injector {
    if id in g.live.periodicSwitches then
      if now > g.live.periodicSwitches[id].recovers then
        g.(neededSwitches := {}, live := g.live.(periodicSwitches := g.live.periodicSwitches - {id}))
      else g
    else if !due then g
    else FailPeriodicSwitch(g, net, id, Interval(now, recovers), refused)
  }

  /** Degradation is for good. */
  function SwitchDegradation(g: Injector, net: Network, id: nat, due: bool, refused: bool): Injector {
    if id in g.live.degradedSwitches || !due then g else DegradeSwitch(g, net, id, refused)
  }

  function CableFail(g: Injector, net: Network, id: nat, now: nat, due: bool, recovers: nat, refused: bool): Injector {
    if id in g.live.failingCables then
      if now > g.live.failingCables[id].recovers then
        g.(neededCables := {}, live := g.live.(failingCables := g.live.failingCables - {id}))
      else g
    else if !due then g
    else FailCable(g, net, id, Interval(now, recovers), refused)
  }

  function CablePeriodicDrop(
    g: Injector, net: Network, id: nat, now: nat, due: bool, recovers: nat, refused: bool): Injector {
    if id in g.live.periodicCables then
      if now > g.live.periodicCables[id].recovers then
        g.(neededCables := {}, live := g.live.(periodicCables := g.live.periodicCables - {id}))
      else g
    else if !due then g
    else FailPeriodicCable(g, net, id, Interval(now, recovers), refused)
  }

  function CableDegradation(g: Injector, net: Network, id: nat, due: bool, severity: nat, refused: bool): Injector {
    if id in g.live.degradedCables || !due then g else DegradeCable(g, net, id, severity, refused)
  }

  datatype Event =
    | AtSwitchFail(id: nat, now: nat, due: bool, recovers: nat, refused: bool)
    | AtSwitchDegradation(id: nat, due: bool, refused: bool)
    | AtSwitchPeriodic(id: nat, now: nat, due: bool, recovers: nat, refused: bool)
    | AtCableFail(id: nat, now: nat, due: bool, recovers: nat, refused: bool)
    | AtCableDegradation(id: nat, due: bool, severity: nat, refused: bool)
    | AtCablePeriodic(id: nat, now: nat, due: bool, recovers: nat, refused: bool)

  function Step(g: Injector, net: Network, e: Event): Injector {
    match e
    case AtSwitchFail(id, now, due, recovers, refused) => SwitchFail(g, net, id, now, due, recovers, refused)
    case AtSwitchDegradation(id, due, refused) => SwitchDegradation(g, net, id, due, refused)
    case AtSwitchPeriodic(id, now, due, recovers, refused) =>
      SwitchPeriodicDrop(g, net, id, now, due, recovers, refused)
    case AtCableFail(id, now, due, recovers, refused) => CableFail(g, net, id, now, due, recovers, refused)
    case AtCableDegradation(id, due, severity, refused) => CableDegradation(g, net, id, due, severity, refused)
    case AtCablePeriodic(id, now, due, recovers, refused) => CablePeriodicDrop(g, net, id, now, due, recovers, refused)
  }

  function Run(g: Injector, net: Network, es: seq<Event>): Injector
    decreases |es|
  {
    if es == [] then g else Run(Step(g, net, es[0]), net, es[1..])
  }

  const NO_FAULTS := Faults(map[], {}, map[], map[], map[], map[])

  const INIT := Injector(NO_FAULTS, NO_FAULTS, {}, {}, {}, {})

  // ---------------------------------------------------------------- safety

  ghost predicate Within(f: Faults, t: Faults) {
    && f.failingSwitches.Keys <= t.failingSwitches.Keys
    && f.degradedSwitches <= t.degradedSwitches
    && f.periodicSwitches.Keys <= t.periodicSwitches.Keys
    && f.failingCables.Keys <= t.failingCables.Keys
    && f.degradedCables.Keys <= t.degradedCables.Keys
    && f.periodicCables.Keys <= t.periodicCables.Keys
  }

  /** Every element that `f` hits is hit by `t`, in whatever set. */
  ghost predicate HitsWithin(f: Faults, t: Faults) {
    && (forall sw: nat :: SwitchHit(f, sw) ==> SwitchHit(t, sw))
    && (forall cable: nat :: CableHit(f, cable) ==> CableHit(t, cable))
  }

  /** Fewer faults leave at least as much of the network usable. */
  lemma ConnectedAntimonotone(f: Faults, t: Faults, net: Network)
    requires HitsWithin(f, t) && Connected(t, net)
    ensures Connected(f, net)
  {
    forall s | 0 <= s < |net| ensures HasUsable(f, net[s]) {
      assert HasUsable(t, net[s]);
      var i :| 0 <= i < |net[s]| && Usable(t, net[s][i]);
      UsableAntimonotone(f, t, net[s][i]);
    }
  }

  lemma UsableAntimonotone(f: Faults, t: Faults, p: Path)
    requires HitsWithin(f, t) && Usable(t, p)
    ensures Usable(f, p)
  {
    forall i | 0 <= i < |p.switches| ensures !SwitchHit(f, p.switches[i]) {
      assert !SwitchHit(t, p.switches[i]);
    }
    forall i | 0 <= i < |p.cables| ensures !CableHit(f, p.cables[i]) {
      assert !CableHit(t, p.cables[i]);
    }
  }

  /** The network is connected, and every set lies within its possibly stale trial copy. */
  ghost predicate Safe(g: Injector, net: Network) {
    Within(g.live, g.trial) && Connected(g.live, net)
  }

  /** What an attempt may do: it leaves the live sets alone, or its trial sets passed the test and cover
      the new live sets. */
  lemma AttemptKeepsSafe(g: Injector, h: Injector, net: Network)
    requires Safe(g, net) && Within(h.live, h.trial)
    requires h.live == g.live || Connected(h.trial, net)
    ensures Safe(h, net)
  {
    if h.live != g.live {
      ConnectedAntimonotone(h.live, h.trial, net);
    }
  }

  lemma RecoveryKeepsSafe(g: Injector, h: Injector, net: Network)
    requires Safe(g, net) && Within(h.live, g.live) && h.trial == g.trial
    ensures Safe(h, net)
  {
    ConnectedAntimonotone(h.live, g.live, net);
  }

  /** An event is an attempt or a recovery. */
  lemma StepKeeps(g: Injector, h: Injector, net: Network)
    requires Safe(g, net)
    requires || (Within(h.live, h.trial) && (h.live == g.live || Connected(h.trial, net)))
             || (h.trial == g.trial && Within(h.live, g.live))
    ensures Safe(h, net)
  {
    if h.trial == g.trial && Within(h.live, g.live) {
      RecoveryKeepsSafe(g, h, net);
    } else {
      AttemptKeepsSafe(g, h, net);
    }
  }

  lemma SwitchFailKeepsSafe(g: Injector, net: Network, e: Event)
    requires Safe(g, net) && e.AtSwitchFail?
    ensures Safe(Step(g, net, e), net)
  {
    StepKeeps(g, Step(g, net, e), net);
  }

  lemma SwitchDegradationKeepsSafe(g: Injector, net: Network, e: Event)
    requires Safe(g, net) && e.AtSwitchDegradation?
    ensures Safe(Step(g, net, e), net)
  {
    StepKeeps(g, Step(g, net, e), net);
  }

  lemma SwitchPeriodicKeepsSafe(g: Injector, net: Network, e: Event)
    requires Safe(g, net) && e.AtSwitchPeriodic?
    ensures Safe(Step(g, net, e), net)
  {
    StepKeeps(g, Step(g, net, e), net);
  }

  lemma CableFailKeepsSafe(g: Injector, net: Network, e: Event)
    requires Safe(g, net) && e.AtCableFail?
    ensures Safe(Step(g, net, e), net)
  {
    StepKeeps(g, Step(g, net, e), net);
  }

  lemma CableDegradationKeepsSafe(g: Injector, net: Network, e: Event)
    requires Safe(g, net) && e.AtCableDegradation?
    ensures Safe(Step(g, net, e), net)
  {
    StepKeeps(g, Step(g, net, e), net);
  }

  lemma CablePeriodicKeepsSafe(g: Injector, net: Network, e: Event)
    requires Safe(g, net) && e.AtCablePeriodic?
    ensures Safe(Step(g, net, e), net)
  {
    StepKeeps(g, Step(g, net, e), net);
  }

  lemma StepKeepsSafe(g: Injector, net: Network, e: Event)
    requires Safe(g, net)
    ensures Safe(Step(g, net, e), net)
  {
    match e
    case AtSwitchFail(_, _, _, _, _) => SwitchFailKeepsSafe(g, net, e);
    case AtSwitchDegradation(_, _, _) => SwitchDegradationKeepsSafe(g, net, e);
    case AtSwitchPeriodic(_, _, _, _, _) => SwitchPeriodicKeepsSafe(g, net, e);
    case AtCableFail(_, _, _, _, _) => CableFailKeepsSafe(g, net, e);
    case AtCableDegradation(_, _, _, _) => CableDegradationKeepsSafe(g, net, e);
    case AtCablePeriodic(_, _, _, _, _) => CablePeriodicKeepsSafe(g, net, e);
  }

  /** No run of the injector ever cuts a source off, however failures, recoveries and degradations of
      switches and cables interleave, although the test reads stale copies of five of the six sets. */
  lemma {:induction false} RunNeverDisconnects(g: Injector, net: Network, es: seq<Event>)
    requires Safe(g, net)
    ensures Safe(Run(g, net, es), net)
    decreases |es|
  {
    if es != [] {
      StepKeepsSafe(g, net, es[0]);
      RunNeverDisconnects(Step(g, net, es[0]), net, es[1..]);
    }
  }

  lemma EveryRunStaysConnected(net: Network, es: seq<Event>)
    requires forall s :: 0 <= s < |net| ==> |net[s]| > 0
    ensures Connected(Run(INIT, net, es).live, net)
  {
    forall s | 0 <= s < |net| ensures HasUsable(NO_FAULTS, net[s]) {
      assert Usable(NO_FAULTS, net[s][0]);
    }
    RunNeverDisconnects(INIT, net, es);
  }

  // ---------------------------------------------------------------- what stale copies cost

  /** `f` with the element of the event added to the set that the event is about. */
  function Extended(f: Faults, e: Event): Faults {
    match e
    case AtSwitchFail(id, now, _, recovers, _) =>
      f.(failingSwitches := f.failingSwitches[id := Interval(now, recovers)])
    case AtSwitchDegradation(id, _, _) => f.(degradedSwitches := f.degradedSwitches + {id})
    case AtSwitchPeriodic(id, now, _, recovers, _) =>
      f.(periodicSwitches := f.periodicSwitches[id := Interval(now, recovers)])
    case AtCableFail(id, now, _, recovers, _) => f.(failingCables := f.failingCables[id := Interval(now, recovers)])
    case AtCableDegradation(id, _, severity, _) => f.(degradedCables := f.degradedCables[id := severity])
    case AtCablePeriodic(id, now, _, recovers, _) =>
      f.(periodicCables := f.periodicCables[id := Interval(now, recovers)])
  }

  /** The trial copies, with the one that the event is about brought up to date. */
  function Refreshed(g: Injector, e: Event): Faults {
    match e
    case AtSwitchFail(_, _, _, _, _) => g.trial.(failingSwitches := g.live.failingSwitches)
    case AtSwitchDegradation(_, _, _) => g.trial.(degradedSwitches := g.live.degradedSwitches)
    case AtSwitchPeriodic(_, _, _, _, _) => g.trial.(periodicSwitches := g.live.periodicSwitches)
    case AtCableFail(_, _, _, _, _) => g.trial.(failingCables := g.live.failingCables)
    case AtCableDegradation(_, _, _, _) => g.trial.(degradedCables := g.live.degradedCables)
    case AtCablePeriodic(_, _, _, _, _) => g.trial.(periodicCables := g.live.periodicCables)
  }

  /** The event makes an attempt: its element is sound, its time has come, and nothing rules it out. */
  predicate Attempts(g: Injector, e: Event) {
    e.due && !e.refused &&
    match e
    case AtSwitchFail(id, _, _, _, _) => id !in g.live.failingSwitches && id !in g.neededSwitches
    case AtSwitchDegradation(id, _, _) => id !in g.live.degradedSwitches && id !in g.neededDegradedSwitches
    case AtSwitchPeriodic(id, _, _, _, _) => id !in g.live.periodicSwitches && id !in g.neededSwitches
    case AtCableFail(id, _, _, _, _) => id !in g.live.failingCables && id !in g.neededCables
    case AtCableDegradation(id, _, _, _) => id !in g.live.degradedCables && id !in g.neededDegradedCables
    case AtCablePeriodic(id, _, _, _, _) => id !in g.live.periodicCables && id !in g.neededCables
  }

  /** What the connectivity test of an attempt looks at. */
  function Tested(g: Injector, e: Event): Faults {
    Extended(Refreshed(g, e), e)
  }

  /** The decision that the live sets call for: the element fails if the network survives it. */
  function Ideal(g: Injector, net: Network, e: Event): Faults {
    if Connected(Extended(g.live, e), net) then Extended(g.live, e) else g.live
  }

  /** An attempt of any kind decides rightly in every network exactly when no stale copy hits a switch or
      a cable that the live sets, with the new element, leave alone. */
  lemma AttemptIsExactIff(g: Injector, e: Event)
    requires Attempts(g, e) && Within(g.live, g.trial)
    ensures (forall net :: Safe(g, net) ==> Step(g, net, e).live == Ideal(g, net, e))
            <==> HitsWithin(Tested(g, e), Extended(g.live, e))
  {
    if HitsWithin(Tested(g, e), Extended(g.live, e)) {
      forall net | Safe(g, net) ensures Step(g, net, e).live == Ideal(g, net, e) {
        AttemptDecides(g, net, e);
        TestedCovers(g, e);
        if Connected(Extended(g.live, e), net) {
          ConnectedAntimonotone(Tested(g, e), Extended(g.live, e), net);
        } else if Connected(Tested(g, e), net) {
          ConnectedAntimonotone(Extended(g.live, e), Tested(g, e), net);
        }
      }
    } else {
      var p: Path :| !Usable(Tested(g, e), p) && Usable(Extended(g.live, e), p) by {
        StalePath(g, e);
      }
      StaleNetwork(g, e, p);
    }
  }

  /** Safety makes the copies cover the live sets. */
  lemma TestedCovers(g: Injector, e: Event)
    requires Within(g.live, g.trial)
    ensures HitsWithin(Extended(g.live, e), Tested(g, e)) && HitsWithin(g.live, Extended(g.live, e))
  {
  }

  /** A path through an element that only a stale copy hits. */
  lemma StalePath(g: Injector, e: Event)
    requires !HitsWithin(Tested(g, e), Extended(g.live, e))
    ensures exists p: Path :: !Usable(Tested(g, e), p) && Usable(Extended(g.live, e), p)
  {
    if sw: nat :| SwitchHit(Tested(g, e), sw) && !SwitchHit(Extended(g.live, e), sw) {
      var p := Path([sw], []);
      assert SwitchHit(Tested(g, e), p.switches[0]);
      assert Usable(Extended(g.live, e), p);
    } else {
      var cable: nat :| CableHit(Tested(g, e), cable) && !CableHit(Extended(g.live, e), cable);
      var p := Path([], [cable]);
      assert CableHit(Tested(g, e), p.cables[0]);
      assert Usable(Extended(g.live, e), p);
    }
  }

  /** The network that consists of this path alone would survive the attempt, which is refused. */
  lemma StaleNetwork(g: Injector, e: Event, p: Path)
    requires Attempts(g, e) && Within(g.live, g.trial)
    requires !Usable(Tested(g, e), p) && Usable(Extended(g.live, e), p)
    ensures Safe(g, [[p]]) && Step(g, [[p]], e).live != Ideal(g, [[p]], e)
  {
    var net: Network := [[p]];
    assert net[0][0] == p;
    assert Connected(Extended(g.live, e), net);
    assert !Connected(Tested(g, e), net) by {
      assert !HasUsable(Tested(g, e), net[0]);
    }
    TestedCovers(g, e);
    ConnectedAntimonotone(g.live, Extended(g.live, e), net);
    AttemptDecides(g, net, e);
    AttemptAdds(g, e);
  }

  lemma AttemptDecides(g: Injector, net: Network, e: Event)
    requires Attempts(g, e)
    ensures Step(g, net, e).live == if Connected(Tested(g, e), net) then Extended(g.live, e) else g.live
  {
  }

  lemma AttemptAdds(g: Injector, e: Event)
    requires Attempts(g, e)
    ensures Extended(g.live, e) != g.live
  {
    if e.AtSwitchDegradation? {
      assert e.id in Extended(g.live, e).degradedSwitches;
    } else if e.AtSwitchFail? {
      assert e.id in Extended(g.live, e).failingSwitches;
    } else if e.AtSwitchPeriodic? {
      assert e.id in Extended(g.live, e).periodicSwitches;
    } else if e.AtCableFail? {
      assert e.id in Extended(g.live, e).failingCables;
    } else if e.AtCableDegradation? {
      assert e.id in Extended(g.live, e).degradedCables;
    } else {
      assert e.id in Extended(g.live, e).periodicCables;
    }
  }

  /** With stale copies it is not: after one failure, one refused degradation and the recovery, nothing
      is faulty any more, and yet a switch that the network could spare is refused. */
  lemma StaleCopyRefuses(a: nat, b: nat, t: nat)
    requires a != b
    ensures var net := [[Path([a], []), Path([b], [])]];
            var g := Run(INIT, net, [AtSwitchFail(a, t, true, t + 5, false),
                                     AtSwitchDegradation(b, true, false),
                                     AtSwitchFail(a, t + 6, true, 0, false)]);
            && g.live == NO_FAULTS && a !in g.neededSwitches
            && Step(g, net, AtSwitchPeriodic(a, t + 7, true, t + 9, false)).live == NO_FAULTS
            && Connected(NO_FAULTS.(periodicSwitches := map[a := Interval(t + 7, t + 9)]), net)
  {
    var net: Network := [[Path([a], []), Path([b], [])]];
    var e0, e1, e2 := AtSwitchFail(a, t, true, t + 5, false), AtSwitchDegradation(b, true, false),
                      AtSwitchFail(a, t + 6, true, 0, false);
    var f0 := NO_FAULTS.(failingSwitches := map[a := Interval(t, t + 5)]);
    TwoPaths(f0, a, b);
    var g0 := Step(INIT, net, e0);
    assert g0.live == f0 && g0.trial == f0;
    var f1 := f0.(degradedSwitches := {b});
    TwoPaths(f1, a, b);
    var g1 := Step(g0, net, e1);
    assert g1.live == f0 && g1.trial == f1;
    var g2 := Step(g1, net, e2);
    assert g2.live == NO_FAULTS && g2.trial == f1 && g2.neededSwitches == {};
    TwoPaths(f1.(periodicSwitches := map[a := Interval(t + 7, t + 9)]), a, b);
    TwoPaths(NO_FAULTS.(periodicSwitches := map[a := Interval(t + 7, t + 9)]), a, b);
    assert Run(INIT, net, [e0, e1, e2]) == g2 by {
      assert [e0, e1, e2][1..] == [e1, e2] && [e1, e2][1..] == [e2];
      assert Run(g1, net, [e2]) == g2;
      assert Run(g0, net, [e1, e2]) == g2;
    }
  }

  lemma TwoPaths(f: Faults, a: nat, b: nat)
    ensures Connected(f, [[Path([a], []), Path([b], [])]]) <==> !SwitchHit(f, a) || !SwitchHit(f, b)
  {
    var p, q := Path([a], []), Path([b], []);
    assert Usable(f, p) <==> !SwitchHit(f, p.switches[0]);
    assert Usable(f, q) <==> !SwitchHit(f, q.switches[0]);
    var paths := [p, q];
    assert HasUsable(f, paths) <==> Usable(f, paths[0]) || Usable(f, paths[1]);
    var net: Network := [paths];
    assert Connected(f, net) <==> HasUsable(f, net[0]);
  }
}
