/**
The receiver-driven credit scheduler: three first-in first-out lists of sinks
(retransmitting, active, idle), served in strict priority, one pull per timer event.

This module is the specification, on values. `K` is the identity of a sink. The classes
that update these fields in place are in EqdsSink.dfy.
 */
module PullPacer {
  import opened Outcomes
  import opened Totals
  import opened Quanta

  /** Credit granted by one pull, in pull quanta. */
  const CREDIT_PER_PULL: nat := 8

  /** The part of a sink that the pacer and the receive path both update. */
  datatype Credit = Credit(retx: nat, latest: nat, target: nat, inPull: bool, inSlowPull: bool, slowLimit: nat) {

    /** Demand the sender has announced and not been granted. */
    function Backlog(): nat {
      if target > latest then target - latest else 0
    }

    /** Credit granted beyond the announced demand. */
    function SlowCredit(): nat {
      if target >= latest then 0 else latest - target
    }

    /** How much more slow credit the idle list may still hand out. */
    function Shortfall(): nat {
      if SlowCredit() < slowLimit then slowLimit - SlowCredit() else 0
    }

    /** One pull: retransmission demand is paid first, and the pull number always advances. */
    function Pull(): Credit {
      this.(retx := if retx > CREDIT_PER_PULL then retx - CREDIT_PER_PULL else 0,
            latest := latest + CREDIT_PER_PULL)
    }
  }

  /** A pull packet on its way to the sender of sink `sink`. */
  datatype PullPkt<K> = PullPkt(sink: K, pullno: nat, slow: bool)

  /** `pending` counts this pacer's events in the event list. */
  datatype State<K(==)> = State(
    credit: map<K, Credit>, rtx: seq<K>, active: seq<K>, idle: seq<K>, on: bool, pending: nat)

  /** The lists only ever hold connected sinks. */
  predicate Known<K(==)>(s: State<K>) {
    && (forall k :: k in s.rtx ==> k in s.credit)
    && (forall k :: k in s.active ==> k in s.credit)
    && (forall k :: k in s.idle ==> k in s.credit)
  }

  // ---------------------------------------------------------------- requests from the sinks

  function Wake<K>(s: State<K>): State<K> {
    if s.on then s else s.(on := true, pending := s.pending + 1)
  }

  function RequestPull<K>(s: State<K>, k: K): Outcome<State<K>>
    requires k in s.credit
  {
    if k in s.active || !s.credit[k].inPull then Aborted
    else Ok(Wake(s.(active := s.active + [k])))
  }

  function RequestRetransmit<K>(s: State<K>, k: K): Outcome<State<K>> {
    if k in s.rtx then Aborted
    else Ok(Wake(s.(rtx := s.rtx + [k])))
  }

  function WithCredit<K>(s: State<K>, k: K, c: Credit): State<K> {
    s.(credit := s.credit[k := c])
  }

  /** A pull target arrives: only an advance matters, and only a sink on no list asks to be pulled. */
  function HandlePullTarget<K>(s: State<K>, k: K, pt: nat): (r: Outcome<State<K>>)
    requires k in s.credit
    ensures r.Ok? ==> r.value.credit.Keys == s.credit.Keys && (Known(s) ==> Known(r.value))
  {
    var c := s.credit[k];
    if pt <= c.target then Ok(s)
    else if c.retx == 0 && !c.inPull then
      RequestPull(WithCredit(s, k, c.(target := pt, inPull := true)), k)
    else Ok(WithCredit(s, k, c.(target := pt)))
  }

  /** A trimmed packet that the sink does not have yet adds `amount` of retransmission demand. */
  function TrimmedDemand<K>(s: State<K>, k: K, pt: nat, amount: nat): (r: Outcome<State<K>>)
    requires k in s.credit
    ensures r.Ok? ==> r.value.credit.Keys == s.credit.Keys && (Known(s) ==> Known(r.value))
  {
    var s1 :- HandlePullTarget(s, k, pt);
    var c := s1.credit[k];
    var s2 := WithCredit(s1, k, c.(retx := c.retx + amount));
    if c.retx > 0 then Ok(s2) else RequestRetransmit(s2, k)
  }

  /** A request-to-send also puts a sink that nobody knew was backlogged on the active list. */
  function RtsDemand<K>(s: State<K>, k: K, pt: nat, amount: nat): (r: Outcome<State<K>>)
    requires k in s.credit
    ensures r.Ok? ==> r.value.credit.Keys == s.credit.Keys && (Known(s) ==> Known(r.value))
  {
    var s1 :- HandlePullTarget(s, k, pt);
    AddRtsDemand(s1, k, amount)
  }

  function AddRtsDemand<K>(s: State<K>, k: K, amount: nat): (r: Outcome<State<K>>)
    requires k in s.credit
    ensures r.Ok? ==> r.value.credit.Keys == s.credit.Keys && (Known(s) ==> Known(r.value))
  {
    var c := s.credit[k];
    var s2 := WithCredit(s, k, c.(retx := c.retx + amount));
    if c.retx > 0 then Ok(s2)
    else
      var s3 :- EnsurePulled(s2, k);
      RequestRetransmit(s3, k)
  }

  function EnsurePulled<K>(s: State<K>, k: K): (r: Outcome<State<K>>)
    requires k in s.credit
    ensures r.Ok? ==> r.value.credit.Keys == s.credit.Keys && (Known(s) ==> Known(r.value))
  {
    if s.credit[k].inPull then Ok(s)
    else RequestPull(WithCredit(s, k, s.credit[k].(inPull := true)), k)
  }

  // ---------------------------------------------------------------- the timer event

  /** The head of the retransmit list is pulled, and goes back while demand remains. */
  function ServeRtx<K>(s: State<K>): (r: State<K>)
    requires Known(s) && s.rtx != []
    ensures Known(r) && r.credit.Keys == s.credit.Keys
  {
    var k := s.rtx[0];
    var c := s.credit[k].Pull();
    if c.retx > 0 then WithCredit(s.(rtx := s.rtx[1..] + [k]), k, c)
    else if c.Backlog() > 0 && !c.inPull then
      WithCredit(s.(rtx := s.rtx[1..], active := s.active + [k]), k, c.(inPull := true))
    else WithCredit(s.(rtx := s.rtx[1..]), k, c)
  }

  /** The head of the active list is pulled, and goes idle once its demand is met. */
  function ServeActive<K>(s: State<K>): (r: State<K>)
    requires Known(s) && s.active != []
    ensures Known(r) && r.credit.Keys == s.credit.Keys
  {
    var k := s.active[0];
    var c := s.credit[k].Pull();
    if c.Backlog() > 0 then WithCredit(s.(active := s.active[1..] + [k]), k, c)
    else WithCredit(s.(active := s.active[1..], idle := s.idle + [k]), k, c.(inPull := false, inSlowPull := true))
  }

  /** The head of the idle list gets speculative credit, up to its slow limit. */
  function ServeIdle<K>(s: State<K>): (r: State<K>)
    requires Known(s) && s.idle != []
    ensures Known(r) && r.credit.Keys == s.credit.Keys
  {
    var k := s.idle[0];
    var c0 := s.credit[k];
    var c := (if c0.inSlowPull then c0 else c0.(inPull := false, inSlowPull := true)).Pull();
    if c.Backlog() == 0 && c.SlowCredit() < c.slowLimit then
      WithCredit(s.(idle := s.idle[1..] + [k]), k, c)
    else WithCredit(s.(idle := s.idle[1..]), k, c.(inPull := false, inSlowPull := false))
  }

  /** Nobody is waiting for a pull. */
  predicate Quiet<K(==)>(s: State<K>) {
    s.rtx == [] && s.active == [] && s.idle == []
  }

  /** Serves the first list that is not empty. The assertion is the program's own. */
  function Serve<K>(s: State<K>): (r: Outcome<(State<K>, seq<PullPkt<K>>)>)
    requires Known(s) && !Quiet(s)
    ensures r.Ok? ==> r.value.0.credit.Keys == s.credit.Keys && Known(r.value.0)
  {
    if s.rtx != [] then
      var t := ServeRtx(s);
      Ok((t, [PullPkt(s.rtx[0], t.credit[s.rtx[0]].latest, false)]))
    else if s.active != [] then
      if !s.credit[s.active[0]].inPull then Aborted
      else
        var t := ServeActive(s);
        Ok((t, [PullPkt(s.active[0], t.credit[s.active[0]].latest, false)]))
    else
      var t := ServeIdle(s);
      Ok((t, [PullPkt(s.idle[0], t.credit[s.idle[0]].latest, true)]))
  }

  /** The pacer's event handler. `skip` is the verdict of the oversubscription control, which is random. */
  function HandleEvent<K>(s: State<K>, skip: bool): (r: Outcome<(State<K>, seq<PullPkt<K>>)>)
    requires Known(s)
    ensures r.Ok? ==> r.value.0.credit.Keys == s.credit.Keys && Known(r.value.0)
  {
    if Quiet(s) then Ok((s.(on := false), []))
    else if skip then Ok((s.(pending := s.pending + 1), []))
    else
      var r :- Serve(s);
      Ok((r.0.(on := true, pending := r.0.pending + 1), r.1))
  }

  /** One event: it leaves the event list, and is then handled. */
  function Tick<K>(s: State<K>, skip: bool): (r: Outcome<(State<K>, seq<PullPkt<K>>)>)
    requires Known(s) && s.pending > 0
    ensures r.Ok? ==> r.value.0.credit.Keys == s.credit.Keys && Known(r.value.0)
  {
    HandleEvent(s.(pending := s.pending - 1), skip)
  }

  // ---------------------------------------------------------------- runs

  datatype Event<K> =
    | Timer(skip: bool)
    | Target(sink: K, pt: nat)
    | Trimmed(sink: K, pt: nat, amount: nat)
    | Rts(sink: K, pt: nat, amount: nat)
    | Join(sink: K, slowLimit: nat)

  /** Timer events fire only when scheduled, and a retransmission demand is a whole packet,
      so at least one quantum. */
  predicate Enabled<K(==)>(s: State<K>, e: Event<K>) {
    match e
    case Timer(_) => s.pending > 0
    case Target(k, _) => k in s.credit
    case Trimmed(k, _, amount) => k in s.credit && amount > 0
    case Rts(k, _, amount) => k in s.credit && amount > 0
    case Join(k, _) => k !in s.credit
  }

  /** A sink as it is constructed. */
  function FreshCredit(slowLimit: nat): Credit {
    Credit(0, INIT_PULL, INIT_PULL, false, false, slowLimit)
  }

  function Step<K>(s: State<K>, e: Event<K>): (r: Outcome<(State<K>, seq<PullPkt<K>>)>)
    requires Known(s) && Enabled(s, e)
    ensures r.Ok? ==> s.credit.Keys <= r.value.0.credit.Keys && Known(r.value.0)
  {
    match e
    case Timer(skip) => Tick(s, skip)
    case Target(k, pt) => Quietly(HandlePullTarget(s, k, pt))
    case Trimmed(k, pt, amount) => Quietly(TrimmedDemand(s, k, pt, amount))
    case Rts(k, pt, amount) => Quietly(RtsDemand(s, k, pt, amount))
    case Join(k, slowLimit) => Ok((WithCredit(s, k, FreshCredit(slowLimit)), []))
  }

  function Quietly<K>(o: Outcome<State<K>>): Outcome<(State<K>, seq<PullPkt<K>>)> {
    var s :- o;
    Ok((s, []))
  }

  /** Runs `es`, passing over events that are not enabled, and collects the pull packets. */
  function Run<K>(s: State<K>, es: seq<Event<K>>): Outcome<(State<K>, seq<PullPkt<K>>)>
    requires Known(s)
    decreases |es|
  {
    if es == [] then Ok((s, []))
    else if !Enabled(s, es[0]) then Run(s, es[1..])
    else
      var r :- Step(s, es[0]);
      var rest :- Run(r.0, es[1..]);
      Ok((rest.0, r.1 + rest.1))
  }

  /** A pacer as it is constructed. */
  function InitState<K>(): State<K> {
    State(map[], [], [], [], false, 0)
  }

  // ---------------------------------------------------------------- the invariant

  ghost predicate NoDup<K>(q: seq<K>) {
    forall i, j :: 0 <= i < j < |q| ==> q[i] != q[j]
  }

  /** Flags and counters say exactly which list a sink is on, and no backlogged sink is forgotten. */
  ghost predicate Listed<K>(s: State<K>) {
    && Known(s)
    && NoDup(s.rtx) && NoDup(s.active)
    && forall k :: k in s.credit ==> Placed(s, k)
  }

  ghost predicate Placed<K>(s: State<K>, k: K)
    requires k in s.credit
  {
    && (s.credit[k].inPull <==> k in s.active)
    && (s.credit[k].retx > 0 <==> k in s.rtx)
    && (s.credit[k].Backlog() > 0 ==> k in s.rtx || k in s.active)
  }

  /** An event is pending exactly while the pacer is on, and it is on while anybody waits. */
  ghost predicate Scheduled<K>(s: State<K>) {
    && s.pending == (if s.on then 1 else 0)
    && (!Quiet(s) ==> s.on)
  }

  ghost predicate Inv<K>(s: State<K>) {
    Listed(s) && Scheduled(s)
  }

  /** `Inv` while sink `k` has new demand that the retransmit list has not been told about. */
  ghost predicate InvExcept<K>(s: State<K>, k: K) {
    && Known(s) && Scheduled(s)
    && NoDup(s.rtx) && NoDup(s.active)
    && (forall j :: j in s.credit && j != k ==> Placed(s, j))
    && k in s.credit && s.credit[k].retx > 0 && k !in s.rtx
    && (s.credit[k].inPull <==> k in s.active)
  }

  lemma NoDupSnoc<K>(q: seq<K>, k: K)
    requires NoDup(q)
    ensures k !in q ==> NoDup(q + [k])
  {
  }

  lemma NoDupTail<K>(q: seq<K>)
    requires q != [] && NoDup(q)
    ensures NoDup(q[1..]) && q[0] !in q[1..]
    ensures forall k :: k in q <==> k == q[0] || k in q[1..]
  {
  }

  lemma TargetKeepsInv<K>(s: State<K>, k: K, pt: nat)
    requires Inv(s) && k in s.credit
    ensures HandlePullTarget(s, k, pt).Ok?
    ensures Inv(HandlePullTarget(s, k, pt).value)
  {
    NoDupSnoc(s.active, k);
    var s' := HandlePullTarget(s, k, pt).value;
    forall j | j in s'.credit ensures Placed(s', j) {
      assert Placed(s, j);
    }
  }

  lemma RetransmitRestoresInv<K>(s: State<K>, k: K)
    requires InvExcept(s, k)
    ensures RequestRetransmit(s, k).Ok?
    ensures Inv(RequestRetransmit(s, k).value)
  {
    NoDupSnoc(s.rtx, k);
  }

  /** New retransmission demand at a sink that had none leaves the invariant open at that sink only. */
  lemma DemandOpensInv<K>(s: State<K>, k: K, amount: nat)
    requires Inv(s) && k in s.credit && amount > 0 && s.credit[k].retx == 0
    ensures InvExcept(WithCredit(s, k, s.credit[k].(retx := amount)), k)
  {
    var s' := WithCredit(s, k, s.credit[k].(retx := amount));
    assert Placed(s, k);
    forall j | j in s'.credit && j != k ensures Placed(s', j) {
      assert Placed(s, j);
    }
  }

  lemma MoreDemandKeepsInv<K>(s: State<K>, k: K, amount: nat)
    requires Inv(s) && k in s.credit && s.credit[k].retx > 0
    ensures Inv(WithCredit(s, k, s.credit[k].(retx := s.credit[k].retx + amount)))
  {
    var s' := WithCredit(s, k, s.credit[k].(retx := s.credit[k].retx + amount));
    forall j | j in s'.credit ensures Placed(s', j) {
      assert Placed(s, j);
    }
  }

  lemma EnsurePulledKeepsOpen<K>(s: State<K>, k: K)
    requires InvExcept(s, k)
    ensures EnsurePulled(s, k).Ok? && InvExcept(EnsurePulled(s, k).value, k)
  {
    NoDupSnoc(s.active, k);
    var s' := EnsurePulled(s, k).value;
    forall j | j in s'.credit && j != k ensures Placed(s', j) {
      assert Placed(s, j);
    }
  }

  lemma TrimmedKeepsInv<K>(s: State<K>, k: K, pt: nat, amount: nat)
    requires Inv(s) && k in s.credit && amount > 0
    ensures TrimmedDemand(s, k, pt, amount).Ok?
    ensures Inv(TrimmedDemand(s, k, pt, amount).value)
  {
    TargetKeepsInv(s, k, pt);
    var s1 := HandlePullTarget(s, k, pt).value;
    if s1.credit[k].retx > 0 {
      MoreDemandKeepsInv(s1, k, amount);
    } else {
      DemandOpensInv(s1, k, amount);
      RetransmitRestoresInv(WithCredit(s1, k, s1.credit[k].(retx := amount)), k);
    }
  }

  lemma RtsKeepsInv<K>(s: State<K>, k: K, pt: nat, amount: nat)
    requires Inv(s) && k in s.credit && amount > 0
    ensures RtsDemand(s, k, pt, amount).Ok?
    ensures Inv(RtsDemand(s, k, pt, amount).value)
  {
    TargetKeepsInv(s, k, pt);
    var s1 := HandlePullTarget(s, k, pt).value;
    assert RtsDemand(s, k, pt, amount) == AddRtsDemand(s1, k, amount);
    if s1.credit[k].retx > 0 {
      MoreDemandKeepsInv(s1, k, amount);
    } else {
      RtsOpensAndCloses(s1, k, amount);
    }
  }

  lemma RtsOpensAndCloses<K>(s: State<K>, k: K, amount: nat)
    requires Inv(s) && k in s.credit && amount > 0 && s.credit[k].retx == 0
    ensures AddRtsDemand(s, k, amount).Ok? && Inv(AddRtsDemand(s, k, amount).value)
  {
    DemandOpensInv(s, k, amount);
    var s2 := WithCredit(s, k, s.credit[k].(retx := amount));
    EnsurePulledKeepsOpen(s2, k);
    RetransmitRestoresInv(EnsurePulled(s2, k).value, k);
  }

  lemma ServeRtxKeepsListed<K>(s: State<K>)
    requires Listed(s) && s.rtx != []
    ensures Listed(ServeRtx(s))
  {
    var k, s' := s.rtx[0], ServeRtx(s);
    NoDupTail(s.rtx);
    NoDupSnoc(s.rtx[1..], k);
    NoDupSnoc(s.active, k);
    forall j | j in s'.credit ensures Placed(s', j) {
      assert Placed(s, j);
    }
  }

  lemma ServeActiveKeepsListed<K>(s: State<K>)
    requires Listed(s) && s.rtx == [] && s.active != []
    ensures Listed(ServeActive(s))
  {
    var k, s' := s.active[0], ServeActive(s);
    NoDupTail(s.active);
    NoDupSnoc(s.active[1..], k);
    assert Placed(s, k);
    forall j | j in s'.credit ensures Placed(s', j) {
      assert Placed(s, j);
    }
  }

  /** Serving the idle list is safe only because the other two are empty: it clears `inPull`. */
  lemma ServeIdleKeepsListed<K>(s: State<K>)
    requires Listed(s) && s.rtx == [] && s.active == [] && s.idle != []
    ensures Listed(ServeIdle(s))
  {
    var s' := ServeIdle(s);
    forall j | j in s'.credit ensures Placed(s', j) {
      assert Placed(s, j);
    }
  }

  lemma ServeKeepsListed<K>(s: State<K>)
    requires Listed(s) && !Quiet(s)
    ensures Serve(s).Ok? && Listed(Serve(s).value.0) && Serve(s).value.0.pending == s.pending
  {
    if s.rtx != [] {
      ServeRtxKeepsListed(s);
    } else if s.active != [] {
      assert Placed(s, s.active[0]);
      ServeActiveKeepsListed(s);
    } else {
      ServeIdleKeepsListed(s);
    }
  }

  lemma TickKeepsInv<K>(s: State<K>, skip: bool)
    requires Inv(s) && s.pending > 0
    ensures Tick(s, skip).Ok? && Inv(Tick(s, skip).value.0)
  {
    TimerFieldsKeepListed(s, s.on, s.pending - 1);
    HandleEventKeepsInv(s.(pending := s.pending - 1), skip);
  }

  lemma HandleEventKeepsInv<K>(s: State<K>, skip: bool)
    requires Listed(s) && s.pending == 0 && s.on
    ensures HandleEvent(s, skip).Ok? && Inv(HandleEvent(s, skip).value.0)
  {
    if Quiet(s) {
      TimerFieldsKeepListed(s, false, 0);
    } else if skip {
      TimerFieldsKeepListed(s, true, 1);
    } else {
      ServeKeepsListed(s);
      TimerFieldsKeepListed(Serve(s).value.0, true, 1);
    }
  }

  lemma TimerFieldsKeepListed<K>(s: State<K>, on: bool, pending: nat)
    requires Listed(s)
    ensures Listed(s.(on := on, pending := pending))
  {
    forall j | j in s.credit ensures Placed(s.(on := on, pending := pending), j) {
      assert Placed(s, j);
    }
  }

  lemma JoinKeepsInv<K>(s: State<K>, k: K, slowLimit: nat)
    requires Inv(s) && k !in s.credit
    ensures Inv(WithCredit(s, k, FreshCredit(slowLimit)))
  {
    var s' := WithCredit(s, k, FreshCredit(slowLimit));
    forall j | j in s'.credit ensures Placed(s', j) {
      if j != k {
        assert Placed(s, j);
      }
    }
  }

  lemma StepKeepsInv<K>(s: State<K>, e: Event<K>)
    requires Inv(s) && Enabled(s, e)
    ensures Step(s, e).Ok? && Inv(Step(s, e).value.0)
  {
    match e
    case Timer(skip) => TickKeepsInv(s, skip);
    case Target(k, pt) => TargetKeepsInv(s, k, pt);
    case Trimmed(k, pt, amount) => TrimmedKeepsInv(s, k, pt, amount);
    case Rts(k, pt, amount) => RtsKeepsInv(s, k, pt, amount);
    case Join(k, slowLimit) => JoinKeepsInv(s, k, slowLimit);
  }

  /** No run of any number of sinks sharing a pacer reaches an `abort` or a failed `assert`,
      and every state on the way satisfies `Inv`. */
  lemma {:induction false} RunIsSafe<K>(s: State<K>, es: seq<Event<K>>)
    requires Inv(s)
    ensures Run(s, es).Ok? && Inv(Run(s, es).value.0)
    decreases |es|
  {
    if es == [] {
    } else if !Enabled(s, es[0]) {
      RunIsSafe(s, es[1..]);
    } else {
      StepKeepsInv(s, es[0]);
      RunIsSafe(Step(s, es[0]).value.0, es[1..]);
    }
  }

  /** From a pacer nobody has joined, whatever sinks join and whatever reaches them. */
  lemma EveryRunIsSafe<K>(es: seq<Event<K>>)
    ensures Run(InitState<K>(), es).Ok? && Inv(Run(InitState<K>(), es).value.0)
  {
    RunIsSafe(InitState<K>(), es);
  }

  // ---------------------------------------------------------------- pull numbers

  /** The pull numbers sent to sink `k`, oldest first. */
  function PullsTo<K(==)>(pkts: seq<PullPkt<K>>, k: K): seq<nat> {
    if pkts == [] then []
    else (if pkts[0].sink == k then [pkts[0].pullno] else []) + PullsTo(pkts[1..], k)
  }

  /** `pulls` counts up from `latest` in steps of one credit. */
  predicate CountsUp(pulls: seq<nat>, latest: nat) {
    forall i :: 0 <= i < |pulls| ==> pulls[i] == latest + CREDIT_PER_PULL * (i + 1)
  }

  lemma PullsToAppend<K>(a: seq<PullPkt<K>>, b: seq<PullPkt<K>>, k: K)
    requires |a| <= 1
    ensures PullsTo(a + b, k) == PullsTo(a, k) + PullsTo(b, k)
  {
    if a == [] {
      assert a + b == b;
    } else {
      assert a[1..] == [] && (a + b)[1..] == b;
    }
  }

  /** Between `s` and `t` exactly the pulls `sent` were granted to sink `k`. */
  predicate Granted<K(==)>(s: State<K>, t: State<K>, sent: seq<PullPkt<K>>, k: K) {
    && k in s.credit && k in t.credit
    && CountsUp(PullsTo(sent, k), s.credit[k].latest)
    && t.credit[k].latest == s.credit[k].latest + CREDIT_PER_PULL * |PullsTo(sent, k)|
  }

  lemma RequestsGrantNothing<K>(s: State<K>, e: Event<K>, k: K)
    requires Known(s) && Enabled(s, e) && !e.Timer? && Step(s, e).Ok? && k in s.credit
    ensures Step(s, e).value.1 == [] && Granted(s, Step(s, e).value.0, [], k)
  {
    match e
    case Target(_, _) =>
    case Trimmed(j, pt, amount) =>
      assert HandlePullTarget(s, j, pt).Ok?;
    case Rts(j, pt, amount) =>
      assert HandlePullTarget(s, j, pt).Ok?;
    case Join(_, _) =>
  }

  lemma TickGrants<K>(s: State<K>, skip: bool, k: K)
    requires Known(s) && s.pending > 0 && Tick(s, skip).Ok? && k in s.credit
    ensures |Tick(s, skip).value.1| <= 1
    ensures Granted(s, Tick(s, skip).value.0, Tick(s, skip).value.1, k)
  {
    var sent := Tick(s, skip).value.1;
    if sent != [] {
      assert sent[1..] == [];
    }
  }

  lemma GrantedAppend<K>(s: State<K>, t: State<K>, u: State<K>, a: seq<PullPkt<K>>, b: seq<PullPkt<K>>, k: K)
    requires |a| <= 1 && Granted(s, t, a, k) && Granted(t, u, b, k)
    ensures Granted(s, u, a + b, k)
  {
    PullsToAppend(a, b, k);
  }

  /** Credit is conserved over every run: each sink's grants are numbered consecutively, and the
      latest pull number accounts for exactly the pulls that were sent. */
  lemma {:induction false} RunConservesCredit<K>(s: State<K>, es: seq<Event<K>>, k: K)
    requires Inv(s) && k in s.credit
    ensures Run(s, es).Ok? && Granted(s, Run(s, es).value.0, Run(s, es).value.1, k)
    decreases |es|
  {
    RunIsSafe(s, es);
    if es == [] {
    } else if !Enabled(s, es[0]) {
      RunConservesCredit(s, es[1..], k);
    } else {
      StepKeepsInv(s, es[0]);
      var r := Step(s, es[0]).value;
      if es[0].Timer? {
        TickGrants(s, es[0].skip, k);
      } else {
        RequestsGrantNothing(s, es[0], k);
      }
      RunConservesCredit(r.0, es[1..], k);
      var rest := Run(r.0, es[1..]).value;
      GrantedAppend(s, r.0, rest.0, r.1, rest.1, k);
    }
  }

  // ---------------------------------------------------------------- the pacer drains

  ghost function TotalRetx<K>(s: State<K>): nat {
    Total(s.credit, (c: Credit) => c.retx)
  }

  ghost function TotalBacklog<K>(s: State<K>): nat {
    Total(s.credit, (c: Credit) => c.Backlog())
  }

  ghost function TotalShortfall<K>(s: State<K>): nat {
    Total(s.credit, (c: Credit) => c.Shortfall())
  }

  /** With no arrivals every event makes progress, in lexicographic order: retransmission demand,
      then demand, then the active list, then slow credit, then the idle list. */
  ghost predicate Progress<K>(s: State<K>, t: State<K>) {
    || TotalRetx(t) < TotalRetx(s)
    || (TotalRetx(t) == TotalRetx(s) &&
        (|| TotalBacklog(t) < TotalBacklog(s)
         || (TotalBacklog(t) == TotalBacklog(s) &&
             (|| |t.active| < |s.active|
              || (|t.active| == |s.active| &&
                  (|| TotalShortfall(t) < TotalShortfall(s)
                   || (TotalShortfall(t) == TotalShortfall(s) && |t.idle| < |s.idle|)))))))
  }

  lemma ServeRtxProgress<K>(s: State<K>)
    requires Listed(s) && s.rtx != []
    ensures Progress(s, ServeRtx(s))
  {
    var k := s.rtx[0];
    assert Placed(s, k);
    TotalUpdate(s.credit, (c: Credit) => c.retx, k, ServeRtx(s).credit[k]);
    assert ServeRtx(s).credit == s.credit[k := ServeRtx(s).credit[k]];
  }

  lemma ServeActiveProgress<K>(s: State<K>)
    requires Listed(s) && s.rtx == [] && s.active != []
    ensures Progress(s, ServeActive(s))
  {
    var k := s.active[0];
    assert Placed(s, k);
    TotalUpdate(s.credit, (c: Credit) => c.retx, k, ServeActive(s).credit[k]);
    TotalUpdate(s.credit, (c: Credit) => c.Backlog(), k, ServeActive(s).credit[k]);
    assert ServeActive(s).credit == s.credit[k := ServeActive(s).credit[k]];
  }

  lemma ServeIdleProgress<K>(s: State<K>)
    requires Listed(s) && s.rtx == [] && s.active == [] && s.idle != []
    ensures Progress(s, ServeIdle(s))
  {
    var k := s.idle[0];
    assert Placed(s, k);
    TotalUpdate(s.credit, (c: Credit) => c.retx, k, ServeIdle(s).credit[k]);
    TotalUpdate(s.credit, (c: Credit) => c.Backlog(), k, ServeIdle(s).credit[k]);
    TotalUpdate(s.credit, (c: Credit) => c.Shortfall(), k, ServeIdle(s).credit[k]);
    assert ServeIdle(s).credit == s.credit[k := ServeIdle(s).credit[k]];
  }

  lemma ServeProgress<K>(s: State<K>)
    requires Listed(s) && !Quiet(s)
    ensures Serve(s).Ok? && Progress(s, Serve(s).value.0)
  {
    if s.rtx != [] {
      ServeRtxProgress(s);
    } else if s.active != [] {
      assert Placed(s, s.active[0]);
      ServeActiveProgress(s);
    } else {
      ServeIdleProgress(s);
    }
  }

  lemma TickProgress<K>(s: State<K>)
    requires Inv(s) && s.pending > 0
    ensures Tick(s, false).Ok?
    ensures Quiet(s) || Progress(s, Tick(s, false).value.0)
    ensures Quiet(s) ==> Tick(s, false).value.0 == s.(on := false, pending := s.pending - 1)
  {
    TickKeepsInv(s, false);
    if !Quiet(s) {
      TimerFieldsKeepListed(s, s.on, s.pending - 1);
      ServeProgress(s.(pending := s.pending - 1));
    }
  }

  /** How many timer events an undisturbed pacer still handles. That this number exists is the
      claim: it holds although the idle list may hold the same sink several times. */
  ghost function EventsToDrain<K>(s: State<K>): nat
    requires Inv(s)
    decreases TotalRetx(s), TotalBacklog(s), |s.active|, TotalShortfall(s), |s.idle|, s.pending
  {
    if s.pending == 0 then 0
    else
      TickKeepsInv(s, false);
      TickProgress(s);
      1 + EventsToDrain(Tick(s, false).value.0)
  }

  function Timers<K>(n: nat): seq<Event<K>> {
    seq(n, i => Timer(false))
  }

  /** With no further arrivals and no skipping, the pacer empties all three lists and switches
      itself off, and then every announced demand has been granted. */
  lemma {:induction false} PacerDrains<K>(s: State<K>)
    requires Inv(s)
    ensures Run(s, Timers(EventsToDrain(s))).Ok?
    ensures var t := Run(s, Timers(EventsToDrain(s))).value.0;
            Inv(t) && Quiet(t) && !t.on && t.pending == 0 && t.credit.Keys == s.credit.Keys
    ensures var t := Run(s, Timers(EventsToDrain(s))).value.0;
            forall k :: k in t.credit ==>
              t.credit[k].retx == 0 && t.credit[k].latest >= t.credit[k].target == s.credit[k].target
    decreases EventsToDrain(s)
  {
    var n := EventsToDrain(s);
    RunIsSafe(s, Timers(n));
    if s.pending == 0 {
      assert Timers<K>(n) == [];
      forall k | k in s.credit ensures s.credit[k].retx == 0 && s.credit[k].latest >= s.credit[k].target {
        assert Placed(s, k);
      }
    } else {
      TickKeepsInv(s, false);
      TickKeepsTargets(s);
      var t := Tick(s, false).value.0;
      assert Timers<K>(n)[0] == Timer(false) && Timers<K>(n)[1..] == Timers<K>(EventsToDrain(t));
      PacerDrains(t);
    }
  }

  lemma TickKeepsTargets<K>(s: State<K>)
    requires Inv(s) && s.pending > 0 && Tick(s, false).Ok?
    ensures Tick(s, false).value.0.credit.Keys == s.credit.Keys
    ensures forall k :: k in s.credit ==> Tick(s, false).value.0.credit[k].target == s.credit[k].target
  {
  }
}
