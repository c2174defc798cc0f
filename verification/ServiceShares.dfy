/** How a trimming queue divides the link between its low class (full packets) and its high class
    (headers and control packets). Both kinds of trimming queue do it this way. */
module ServiceShares {
  import opened Outcomes
  import opened Cyclic

  datatype Service = Idle | Low | High

  datatype Ratio = Ratio(high: Positive, low: Positive)

  /** Chooses the class to serve next, from which classes are backlogged. */
  function Begin(r: Ratio, crt: nat, low: bool, high: bool): Outcome<(Service, nat)> {
    if high && low then
      var n := if crt + 1 >= r.high + r.low then 0 else crt + 1;
      Ok((if n < r.high then High else Low, n))
    else if high then Ok((High, crt))
    else if low then Ok((Low, crt))
    else Aborted
  }

  lemma BeginAbortsIff(r: Ratio, crt: nat, low: bool, high: bool)
    ensures Begin(r, crt, low, high).Aborted? <==> !low && !high
    ensures var b := Begin(r, crt, low, high);
            b.Ok? && crt < r.high + r.low ==>
              b.value.1 < r.high + r.low && (b.value.0 == Low ==> low) && (b.value.0 == High ==> high)
              && b.value.0 != Idle
  {
  }

  /** One choice, and the backlog it was made on. */
  datatype Start = Start(low: bool, high: bool, service: Service)

  ghost predicate Follows(r: Ratio, crt: nat, log: seq<Start>)
    decreases |log|
  {
    log == [] ||
    var b := Begin(r, crt, log[0].low, log[0].high);
    b.Ok? && b.value.0 == log[0].service && Follows(r, b.value.1, log[1..])
  }

  /** Choices in a row for one class while the other one is backlogged. */
  ghost predicate Passes(log: seq<Start>, service: Service) {
    forall k: nat :: k < |log| ==> log[k].low && log[k].high && log[k].service == service
  }

  ghost function TurnsLeft(r: Ratio, crt: nat, service: Service): nat
    requires crt < r.high + r.low
  {
    match service
    case High => if crt < r.high then r.high - 1 - crt else if crt + 1 == r.high + r.low then r.high else 0
    case Low => if crt + 1 < r.high then 0 else r.high + r.low - 1 - crt
    case Idle => 0
  }

  lemma {:induction false} PassesAtMost(r: Ratio, crt: nat, log: seq<Start>, service: Service)
    requires crt < r.high + r.low && Follows(r, crt, log) && Passes(log, service)
    ensures |log| <= TurnsLeft(r, crt, service)
    decreases |log|
  {
    if log != [] {
      assert log[0].low && log[0].high && log[0].service == service;
      var b := Begin(r, crt, true, true);
      forall k: nat | k < |log[1..]| ensures log[1..][k].low && log[1..][k].high && log[1..][k].service == service {
        assert log[1..][k] == log[k + 1];
      }
      PassesAtMost(r, b.value.1, log[1..], service);
    }
  }

  /** Weighted sharing, over every run: while the low class is backlogged, no more than `high` services of
      the high class lie between two of its own, and the other way round no more than `low`. */
  lemma {:induction false} FairShares(r: Ratio, crt: nat, log: seq<Start>, i: nat, j: nat, service: Service)
    requires crt < r.high + r.low && Follows(r, crt, log)
    requires i <= j <= |log| && service != Idle && Passes(log[i..j], service)
    ensures j - i <= if service == High then r.high else r.low
    decreases i
  {
    if i == 0 {
      FollowsPrefix(r, crt, log, j);
      assert log[..j] == log[i..j];
      PassesAtMost(r, crt, log[..j], service);
    } else {
      FollowsTail(r, crt, log);
      var rest := log[1..];
      assert rest[i - 1..j - 1] == log[i..j];
      FairShares(r, Begin(r, crt, log[0].low, log[0].high).value.1, rest, i - 1, j - 1, service);
    }
  }

  lemma FollowsTail(r: Ratio, crt: nat, log: seq<Start>)
    requires crt < r.high + r.low && Follows(r, crt, log) && log != []
    ensures var b := Begin(r, crt, log[0].low, log[0].high);
            b.Ok? && b.value.1 < r.high + r.low && Follows(r, b.value.1, log[1..])
  {
    BeginAbortsIff(r, crt, log[0].low, log[0].high);
  }

  lemma {:induction false} FollowsPrefix(r: Ratio, crt: nat, log: seq<Start>, j: nat)
    requires Follows(r, crt, log) && j <= |log|
    ensures Follows(r, crt, log[..j])
    decreases j
  {
    if j > 0 {
      FollowsPrefix(r, Begin(r, crt, log[0].low, log[0].high).value.1, log[1..], j - 1);
      assert log[..j][1..] == log[1..][..j - 1];
    }
  }

  // ---------------------------------------------------------------- whose turn it is

  /** How often a choice was made while both classes were backlogged. */
  function Contested(log: seq<Start>): nat {
    if log == [] then 0 else (if log[0].low && log[0].high then 1 else 0) + Contested(log[1..])
  }

  function Round(r: Ratio): Positive {
    r.high + r.low
  }

  lemma NextTurn(r: Ratio, crt: nat, n: nat)
    requires crt < Round(r)
    ensures (if crt + 1 >= Round(r) then 0 else crt + 1) == (crt + 1) % Round(r)
    ensures ((crt + 1) % Round(r) + n) % Round(r) == (crt + 1 + n) % Round(r)
  {
    var m := Round(r);
    if crt + 1 == m {
      DivModUnique(crt + 1, m, 1, 0);
      assert n == m * (n / m) + n % m;
      DivModUnique(crt + 1 + n, m, 1 + n / m, n % m);
    } else {
      DivModUnique(crt + 1, m, 0, crt + 1);
    }
  }

  /** Of the choices that matter, turn after turn goes to the classes as the ratio says, whatever is chosen between them
      while only one class is backlogged. */
  lemma {:induction false} TurnIs(r: Ratio, crt: nat, log: seq<Start>, k: nat)
    requires crt < Round(r) && Follows(r, crt, log) && k < |log|
    ensures log[k].service ==
            if log[k].low && log[k].high then
              if (crt + Contested(log[..k]) + 1) % Round(r) < r.high then High else Low
            else if log[k].high then High
            else Low
    decreases k
  {
    NextTurn(r, crt, 0);
    if k > 0 {
      var b := Begin(r, crt, log[0].low, log[0].high).value;
      BeginAbortsIff(r, crt, log[0].low, log[0].high);
      TurnIs(r, b.1, log[1..], k - 1);
      assert log[..k][1..] == log[1..][..k - 1];
      if log[0].low && log[0].high {
        NextTurn(r, crt, Contested(log[1..][..k - 1]) + 1);
      }
    } else {
      assert log[..0] == [];
    }
  }
}
