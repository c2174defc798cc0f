/** The failure injector as an object, proved against Failures.dfy. */
module FailureGenerators {
  import opened F = Failures

  class FailureGenerator {
    const net: Network
    var live: Faults
    var trial: Faults
    var neededSwitches: set<nat>
    var neededCables: set<nat>
    var neededDegradedSwitches: set<nat>
    var neededDegradedCables: set<nat>

    constructor (net: Network)
      requires forall s :: 0 <= s < |net| ==> |net[s]| > 0
      ensures this.net == net && View() == INIT && Safe(View(), net)
    {
      this.net := net;
      live, trial := NO_FAULTS, NO_FAULTS;
      neededSwitches, neededCables, neededDegradedSwitches, neededDegradedCables := {}, {}, {}, {};
      new;
      EveryRunStaysConnected(net, []);
    }

    ghost function View(): Injector
      reads this
    {
      Injector(live, trial, neededSwitches, neededCables, neededDegradedSwitches, neededDegradedCables)
    }

    /** Looks for a path of every source that avoids the trial sets. */
    method CheckConnectivity() returns (connected: bool)
      ensures connected == Connected(trial, net)
    {
      for s := 0 to |net|
        invariant forall k :: 0 <= k < s ==> HasUsable(trial, net[k])
      {
        var found := false;
        for i := 0 to |net[s]|
          invariant !found
          invariant forall k :: 0 <= k < i ==> !Usable(trial, net[s][k])
        {
          var usable := IsUsable(net[s][i]);
          if usable {
            found := true;
            break;
          }
        }
        if !found {
          return false;
        }
      }
      return true;
    }

    method IsUsable(p: Path) returns (usable: bool)
      ensures usable == Usable(trial, p)
    {
      var switchesActive, cablesActive := true, true;
      for i := 0 to |p.switches|
        invariant switchesActive && forall k :: 0 <= k < i ==> !SwitchHit(trial, p.switches[k])
      {
        var sw := p.switches[i];
        if sw in trial.failingSwitches || sw in trial.degradedSwitches || sw in trial.periodicSwitches {
          switchesActive := false;
          break;
        }
      }
      for i := 0 to |p.cables|
        invariant cablesActive && forall k :: 0 <= k < i ==> !CableHit(trial, p.cables[k])
      {
        var cable := p.cables[i];
        if cable in trial.failingCables || cable in trial.degradedCables || cable in trial.periodicCables {
          cablesActive := false;
          break;
        }
      }
      usable := switchesActive && cablesActive;
    }

    method FailNewSwitch(id: nat, when: Interval, refused: bool)
      modifies this
      ensures View() == FailSwitch(old(View()), net, id, when, refused)
    {
      if refused || id in neededSwitches {
        return;
      }
      trial := trial.(failingSwitches := live.failingSwitches[id := when]);
      var ok := CheckConnectivity();
      if !ok {
        neededSwitches := neededSwitches + {id};
        return;
      }
      live := live.(failingSwitches := live.failingSwitches[id := when]);
    }

    method FailNewPeriodicSwitch(id: nat, when: Interval, refused: bool)
      modifies this
      ensures View() == FailPeriodicSwitch(old(View()), net, id, when, refused)
    {
      if refused || id in neededSwitches {
        return;
      }
      trial := trial.(periodicSwitches := live.periodicSwitches[id := when]);
      var ok := CheckConnectivity();
      if !ok {
        neededSwitches := neededSwitches + {id};
        return;
      }
      live := live.(periodicSwitches := live.periodicSwitches[id := when]);
    }

    method FailNewCable(id: nat, when: Interval, refused: bool)
      modifies this
      ensures View() == FailCable(old(View()), net, id, when, refused)
    {
      if refused || id in neededCables {
        return;
      }
      trial := trial.(failingCables := live.failingCables[id := when]);
      var ok := CheckConnectivity();
      if !ok {
        neededCables := neededCables + {id};
        return;
      }
      live := live.(failingCables := live.failingCables[id := when]);
    }

    method FailNewPeriodicCable(id: nat, when: Interval, refused: bool)
      modifies this
      ensures View() == FailPeriodicCable(old(View()), net, id, when, refused)
    {
      if refused || id in neededCables {
        return;
      }
      trial := trial.(periodicCables := live.periodicCables[id := when]);
      var ok := CheckConnectivity();
      if !ok {
        neededCables := neededCables + {id};
        return;
      }
      live := live.(periodicCables := live.periodicCables[id := when]);
    }

    method AtSwitchFail(id: nat, now: nat, due: bool, recovers: nat, refused: bool)
      requires Safe(View(), net)
      modifies this
      ensures View() == SwitchFail(old(View()), net, id, now, due, recovers, refused) && Safe(View(), net)
    {
      StepKeepsSafe(View(), net, Event.AtSwitchFail(id, now, due, recovers, refused));
      if id in live.failingSwitches {
        if now > live.failingSwitches[id].recovers {
          neededSwitches := {};
          live := live.(failingSwitches := live.failingSwitches - {id});
        }
      } else if due {
        FailNewSwitch(id, Interval(now, recovers), refused);
      }
    }

    method AtSwitchPeriodic(id: nat, now: nat, due: bool, recovers: nat, refused: bool)
      requires Safe(View(), net)
      modifies this
      ensures View() == SwitchPeriodicDrop(old(View()), net, id, now, due, recovers, refused) && Safe(View(), net)
    {
      StepKeepsSafe(View(), net, Event.AtSwitchPeriodic(id, now, due, recovers, refused));
      if id in live.periodicSwitches {
        if now > live.periodicSwitches[id].recovers {
          neededSwitches := {};
          live := live.(periodicSwitches := live.periodicSwitches - {id});
        }
      } else if due {
        FailNewPeriodicSwitch(id, Interval(now, recovers), refused);
      }
    }

    method AtSwitchDegradation(id: nat, due: bool, refused: bool)
      requires Safe(View(), net)
      modifies this
      ensures View() == SwitchDegradation(old(View()), net, id, due, refused) && Safe(View(), net)
    {
      StepKeepsSafe(View(), net, Event.AtSwitchDegradation(id, due, refused));
      if id in live.degradedSwitches || !due || refused || id in neededDegradedSwitches {
        return;
      }
      trial := trial.(degradedSwitches := live.degradedSwitches + {id});
      var ok := CheckConnectivity();
      if !ok {
        neededDegradedSwitches := neededDegradedSwitches + {id};
        return;
      }
      live := live.(degradedSwitches := live.degradedSwitches + {id});
    }

    method AtCableFail(id: nat, now: nat, due: bool, recovers: nat, refused: bool)
      requires Safe(View(), net)
      modifies this
      ensures View() == CableFail(old(View()), net, id, now, due, recovers, refused) && Safe(View(), net)
    {
      StepKeepsSafe(View(), net, Event.AtCableFail(id, now, due, recovers, refused));
      if id in live.failingCables {
        if now > live.failingCables[id].recovers {
          neededCables := {};
          live := live.(failingCables := live.failingCables - {id});
        }
      } else if due {
        FailNewCable(id, Interval(now, recovers), refused);
      }
    }

    method AtCablePeriodic(id: nat, now: nat, due: bool, recovers: nat, refused: bool)
      requires Safe(View(), net)
      modifies this
      ensures View() == CablePeriodicDrop(old(View()), net, id, now, due, recovers, refused) && Safe(View(), net)
    {
      StepKeepsSafe(View(), net, Event.AtCablePeriodic(id, now, due, recovers, refused));
      if id in live.periodicCables {
        if now > live.periodicCables[id].recovers {
          neededCables := {};
          live := live.(periodicCables := live.periodicCables - {id});
        }
      } else if due {
        FailNewPeriodicCable(id, Interval(now, recovers), refused);
      }
    }

    method AtCableDegradation(id: nat, due: bool, severity: nat, refused: bool)
      requires Safe(View(), net)
      modifies this
      ensures View() == CableDegradation(old(View()), net, id, due, severity, refused) && Safe(View(), net)
    {
      StepKeepsSafe(View(), net, Event.AtCableDegradation(id, due, severity, refused));
      if id in live.degradedCables || !due || refused || id in neededDegradedCables {
        return;
      }
      trial := trial.(degradedCables := live.degradedCables[id := severity]);
      var ok := CheckConnectivity();
      if !ok {
        neededDegradedCables := neededDegradedCables + {id};
        return;
      }
      live := live.(degradedCables := live.degradedCables[id := severity]);
    }
  }
}
