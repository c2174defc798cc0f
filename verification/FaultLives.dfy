/**
The life of a fault: exactly when an element becomes faulty, when it recovers, and when it is set aside as needed.
*/
module FaultLives {
  import opened Failures

  datatype Kind =
    | SwitchFailing | SwitchDegraded | SwitchPeriodic
    | CableFailing | CableDegraded | CablePeriodic

  function KindOf(e: Event): Kind {
    match e
    case AtSwitchFail(_, _, _, _, _) => SwitchFailing
    case AtSwitchDegradation(_, _, _) => SwitchDegraded
    case AtSwitchPeriodic(_, _, _, _, _) => SwitchPeriodic
    case AtCableFail(_, _, _, _, _) => CableFailing
    case AtCableDegradation(_, _, _, _) => CableDegraded
    case AtCablePeriodic(_, _, _, _, _) => CablePeriodic
  }

  /** A fault with an end, one without, or none. */
  datatype Fault = Sound | Until(when: Interval) | Degraded(severity: nat)

  function Timed(m: map<nat, Interval>, id: nat): Fault {
    if id in m then Until(m[id]) else Sound
  }

  /** What is wrong with element `id`. */
  function FaultOf(f: Faults, k: Kind, id: nat): Fault {
    match k
    case SwitchFailing => Timed(f.failingSwitches, id)
    case SwitchDegraded => if id in f.degradedSwitches then Degraded(0) else Sound
    case SwitchPeriodic => Timed(f.periodicSwitches, id)
    case CableFailing => Timed(f.failingCables, id)
    case CableDegraded => if id in f.degradedCables then Degraded(f.degradedCables[id]) else Sound
    case CablePeriodic => Timed(f.periodicCables, id)
  }

  /** The elements that have been found to be needed. Failures and periodic ones share a set. */
  function Needed(g: Injector, k: Kind): set<nat> {
    match k
    case SwitchFailing | SwitchPeriodic => g.neededSwitches
    case CableFailing | CablePeriodic => g.neededCables
    case SwitchDegraded => g.neededDegradedSwitches
    case CableDegraded => g.neededDegradedCables
  }

  predicate SharesNeeded(j: Kind, k: Kind) {
    || j == k
    || {j, k} == {SwitchFailing, SwitchPeriodic}
    || {j, k} == {CableFailing, CablePeriodic}
  }

  predicate HasClock(e: Event) {
    !e.AtSwitchDegradation? && !e.AtCableDegradation?
  }

  /** The element of the event has a fault of the event's kind, and its time is over. */
  predicate Recovers(g: Injector, e: Event) {
    HasClock(e) && var fault := FaultOf(g.live, KindOf(e), e.id); fault.Until? && e.now > fault.when.recovers
  }

  /** The fault that the event would start. */
  function Starting(e: Event): Fault {
    if HasClock(e) then Until(Interval(e.now, e.recovers))
    else Degraded(if e.AtCableDegradation? then e.severity else 0)
  }

  /** The event tries its element: it is sound, its time has come, nothing rules it out, and it is not known to be
      needed. */
  predicate Tries(g: Injector, e: Event) {
    FaultOf(g.live, KindOf(e), e.id).Sound? && e.due && !e.refused && e.id !in Needed(g, KindOf(e))
  }

  // ---------------------------------------------------------------- one event

  lemma TriesAttempts(g: Injector, e: Event)
    ensures Tries(g, e) <==> Attempts(g, e)
  {
  }

  /** An event changes no other fault. It starts one exactly if it tries its element and every source keeps a path in
      what the test looks at, and ends one exactly if that one's time is over. */
  lemma FaultAfter(g: Injector, net: Network, e: Event, k: Kind, id: nat)
    ensures var h := Step(g, net, e); var was := FaultOf(g.live, k, id);
            FaultOf(h.live, k, id) == (
              if k != KindOf(e) || id != e.id then was
              else if was.Sound? then if Tries(g, e) && Connected(Tested(g, e), net) then Starting(e) else Sound
              else if Recovers(g, e) then Sound
              else was)
  {
  }

  /** An element is set aside as needed exactly when it has been tried and some source would have lost its last path.
      A recovery forgets all of its class. */
  lemma NeededAfter(g: Injector, net: Network, e: Event, k: Kind, id: nat)
    ensures var h := Step(g, net, e);
            id in Needed(h, k) <==>
              if !SharesNeeded(k, KindOf(e)) then id in Needed(g, k)
              else
                && !Recovers(g, e)
                && (id in Needed(g, k) || (id == e.id && Tries(g, e) && !Connected(Tested(g, e), net)))
  {
  }

  /** Only an attempt refreshes a trial copy, and only the one of its own set. */
  lemma TrialAfter(g: Injector, net: Network, e: Event)
    ensures Step(g, net, e).trial == if Tries(g, e) then Tested(g, e) else g.trial
  {
  }

  // ---------------------------------------------------------------- whole runs

  /** No event finds the time of this fault over. */
  predicate InTime(es: seq<Event>, k: Kind, id: nat, fault: Fault) {
    forall i :: 0 <= i < |es| && KindOf(es[i]) == k && es[i].id == id && fault.Until? && HasClock(es[i]) ==>
      es[i].now <= fault.when.recovers
  }

  /** Over every run a fault stays what it is until a packet passes its element after its time; a degradation stays for
      good. */
  lemma {:induction false} FaultLasts(g: Injector, net: Network, es: seq<Event>, k: Kind, id: nat)
    requires !FaultOf(g.live, k, id).Sound? && InTime(es, k, id, FaultOf(g.live, k, id))
    ensures FaultOf(Run(g, net, es).live, k, id) == FaultOf(g.live, k, id)
    decreases |es|
  {
    if es != [] {
      FaultAfter(g, net, es[0], k, id);
      FaultLasts(Step(g, net, es[0]), net, es[1..], k, id);
    }
  }

  /** None of the events is a recovery from a fault whose class shares its needed elements with `k`. */
  predicate NoRecovery(g: Injector, net: Network, es: seq<Event>, k: Kind)
    decreases |es|
  {
    || es == []
    || (!(SharesNeeded(k, KindOf(es[0])) && Recovers(g, es[0])) && NoRecovery(Step(g, net, es[0]), net, es[1..], k))
  }

  /** An element once found to be needed is left alone, over every run until something of its class recovers. */
  lemma {:induction false} NeededIsSpared(g: Injector, net: Network, es: seq<Event>, k: Kind, id: nat)
    requires id in Needed(g, k) && FaultOf(g.live, k, id).Sound? && NoRecovery(g, net, es, k)
    ensures id in Needed(Run(g, net, es), k) && FaultOf(Run(g, net, es).live, k, id).Sound?
    decreases |es|
  {
    if es != [] {
      FaultAfter(g, net, es[0], k, id);
      NeededAfter(g, net, es[0], k, id);
      NeededIsSpared(Step(g, net, es[0]), net, es[1..], k, id);
    }
  }

  /** What an attempt leaves behind: its element is faulty or set aside. */
  lemma TriedOnce(g: Injector, net: Network, e: Event)
    requires Tries(g, e)
    ensures var h := Step(g, net, e);
            FaultOf(h.live, KindOf(e), e.id).Sound? <==> e.id in Needed(h, KindOf(e))
  {
    FaultAfter(g, net, e, KindOf(e), e.id);
    NeededAfter(g, net, e, KindOf(e), e.id);
  }
}
