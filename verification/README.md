# Verification of the receiver-driven transport and its queues

This project models, in Dafny, the EQDS transport of the htsim packet simulator (receiver credit, sender
reliability, port arbitration), the REPS entropy buffer with the checker of its traces, the failure
injector, the trimming switch queues, and the small containers under them. Nothing here runs the
simulator; every statement is about the model and holds for all inputs and all runs.

## How the model is laid out

Code that changes fields in place is a class with those fields. Every method of such a class is proved equal
to a function on values, and the properties are proved about that function:

| values | object | what it is |
|---|---|---|
| PullPacer.dfy, PullOrder.dfy, ReceiveWindow.dfy, AckCoverage.dfy | EqdsSink.dfy | pull pacer and its order, receiver credit, receive bitmap and what its acknowledgements cover |
| Sender.dfy, SenderInvariant.dfy | EqdsSrc.dfy | sender credit, outstanding packets, retransmission |
| Protocol.dfy | | sender, receiver and pull pacer over an unreliable network |
| OnePacketOut.dfy, Hazards.dfy, Reach.dfy, CreditLoop.dfy, Starvation.dfy, AsksForCredit.dfy, NeverStalls.dfy, NeverStuck.dfy, CarefulRuns.dfy, CanFinish.dfy, TrimmedStall.dfy, Timers.dfy, AnswerRequests.dfy, NothingMissed.dfy | | what runs of the protocol do: assertions that fail, the reach of the window, demand and credit, which flows starve and stall, which can always finish, timers, requests for an answer, what a source never leaves undone |
| NicPorts.dfy, PortOrder.dfy | EqdsNic.dfy | interface card, its call-backs, who is served next |
| CardedSource.dfy, CardTraffic.dfy, CardedProtocol.dfy, CardedStalls.dfy | | one source together with its card, the packets that pass between them, the protocol with that card, and which flows stall there |
| RepsRing.dfy, RingModes.dfy, RepsTrace.dfy, TraceRules.dfy | RepsBuffer.dfy | entropy ring in both modes, trace checker and its rules |
| Failures.dfy, FaultLives.dfy | FailureGenerator.dfy | failure injector, the life of a fault |
| GrowRing.dfy | CircularBuffer.dfy | growable ring |
| Packets.dfy, ServiceShares.dfy, TrimmingQueue.dfy, TrimmingOrder.dfy | CompositeQueue.dfy | trimming queue, the order and form in which packets leave it |
| PathQueue.dfy, PathOrder.dfy | CompositePrioQueue.dfy | trimming queue that spares short paths, likewise |
| DelayWindow.dfy | DelayBuffer.dfy | delay percentiles |
| Cdf.dfy | CustomRandom.dfy | inverse distribution functions, over exact reals |

Bits.dfy, Cyclic.dfy, Totals.dfy, Subsequences.dfy, Quanta.dfy and Outcomes.dfy hold shared arithmetic and the result type
`Ok | Aborted`; `Aborted` stands for a failing `assert`, an `abort`, a thrown exception or an access outside
a container. A precondition `….Ok?` or a negated hazard on a method says that none of these happens on its
path; the lemmas say exactly when that is so. Ghost fields record history only.

Packets in flight are the set of all packets ever sent: one that is never delivered is lost, one delivered
twice is duplicated, and the order of delivery is free. The receiver's pacer serves any number of other sinks,
which may join and ask at any time. Clock values, coin tosses, the congestion window and the answers of the
interface card are arguments of each action. Integers are unbounded; the widths that matter (the 4096 slots,
the 64-bit bitmap, the unsigned 64-bit pull target of a packet, the 16-bit byte count, the one-byte report
count, the 32-bit path decrement) are written out.

Two oddities of the source are fixed by the model. htsim/sim/eqds.cpp:1581 stores the size of a resend in a `bool`,
so the card is told a size of one byte: the sender's books keep the size, CardedSource.dfy tells the card one byte,
and NicPorts.dfy leaves the sizes free. `_max_path_len_seen` is never initialised in
htsim/sim/compositeprioqueue.cpp; the model starts it at 0.

## Where the code does less than it says

Each of these is stated with the exact condition under which the code does meet its promise.

- htsim/sim/eqds.cpp:1325 asserts that a resend is never speculative. A timeout while the source still
  speculates queues the packet without leaving that phase, and a later call-back of the card resends it on
  speculative credit (`Hazards.SpeculativeHazardReachable`, `SenderInvariant.TimeToSendSteps`).
- htsim/sim/eqds.cpp:1549-1588 queues a timed-out packet and then resends again without looking at the
  queue. With two free ports the first grant empties the queue and the second meets
  `assert(!_rtx_queue.empty())`; with pulled credit but no total credit, `assert(credit() > 0)` fails
  (`Hazards.DoubleResendReachable`, `SenderInvariant.TimerAborts`).
- htsim/sim/eqds.cpp:876 aborts on a NACK whose packet is no longer outstanding. The comment there expects this
  to be unlikely; it happens whenever the packet times out before its NACK arrives
  (`Hazards.StaleRefusalReachable`). Ignoring such a NACK is safe (`Hazards.TolerantRunsAreSafe`). These three
  hazards are the only ways in which a run of the protocol within reach of the window fails
  (`Hazards.RunAbortsIff`); with a real card the double resend takes two free ports
  (`CardedProtocol.StepAbortsIff`, `CardedProtocol.DoubleResendWithCard`).
- The 4096-slot receive bitmap agrees with what was received only for packets less than 4096 ahead of the
  expected number, and acknowledgements are sound only while their 64 bits stay inside it
  (`ReceiveWindow.AcceptExactIff`, `ReceiveWindow.AckSoundIff`). The sender does not keep to that; the one that
  does is safe over any network (`Reach.EveryRunDelivers`, `Reach.ShortFlowsStayInReach`), and another one can lose
  a packet for good (`Reach.PacketIsLost`).
- A flow that fits its initial window announces no demand with its first packets. If they leave data unsent, and
  an acknowledgement arrives before the card has called the source back, speculation ends with nothing
  outstanding: no timer runs, no pull is due, and nothing that can still arrive makes the source send again. The
  flow hangs although nothing is lost (`Starvation.SmallFlowsStarve`), so a fair network does not make every
  flow finish. Some run starves a flow exactly if the flow with its headers fits the initial window and the
  packets that the card grants at the start leave data unsent (`AsksForCredit.StarvesIff`). The others are
  carried on by slow credit, and without two mishaps at the receiver the small flows are the only ones that can be
  left without pulled credit for good (`NeverStalls.StallsIff`), also with a real card
  (`CardedStalls.StallsWithCardIff`). They are the only ones that can be left unable to send at all, if the window
  takes a packet and the last packet makes up for rounding it (`NeverStuck.StuckIff`); every other flow can then
  be finished from wherever such a run has led it (`CanFinish.CanAlwaysFinish`). A window of at most half a packet
  never lets a second one go: the first overdraws the speculative credit by more than can be pulled
  (`NeverStuck.TinyWindowNeverPays`). The mishaps, each a guard on the state before an event,
  are exactly what takes the slow credit away (`NeverStalls.SuppliedIff`): a demand that is heard while a
  trimmed packet is still to be pulled puts its sink on no list (htsim/sim/eqds.cpp:1696), and a trimmed packet
  without demand is pulled although nothing was asked for. Each alone can stall every flow that is larger than a
  window of fifteen packets and ten quanta (`TrimmedStall.OvertakingStalls`, `TrimmedStall.EarlyStalls`), and
  neither can if the window is smaller than the first and last packets together (`NeverStuck.NarrowNeverStalls`).
  No larger flow ever stalls with its slow credit granted (`NeverStalls.StallsUnsupplied`).
- A source remembers that it waits at its card, and does not ask again while it does. A call-back that finds
  nothing to send takes the source out of the queue without clearing that memory, and a timeout asks again
  without looking at it. Source and card agree over every run without these two events, and at no such event
  (`CardedSource.StepKeepsCleanIff`, `CardedSource.EveryRunIsClean`). After the first of them a source may never
  be called again (`CardedSource.ForgottenForever`, `CardedSource.ForgottenReachable`).
- Every outstanding packet is indexed by its send time only while no two packets are sent at the same
  instant (`SenderInvariant.TimedIff`, `Timers.OutstandingHasTimer`). Otherwise a lost packet may have no timer
  (`Timers.UntimedReachable`).
- `quantize_ceil` is the ceiling only for bytes > -512 or exact results (`Quanta.CeilIsLeastIff`).
- The trace checker accepts every trace only if no source freezes an empty ring and no draw leaves its entry
  valid, as compressed acknowledgements make it do (or if no ring is ever used): `RepsTrace.CheckerAcceptsIff`,
  `RepsTrace.EmptyFreezeIsRejected`, `RepsTrace.CompressedDrawIsRejected`.
- The failure injector may refuse an element that the network can spare, because the test reads stale
  copies of the other five sets. It decides rightly in every network exactly if no stale copy hits an element
  that the live sets spare (`Failures.AttemptIsExactIff`, `Failures.StaleCopyRefuses`).
- The trimming queue's `assert(0)` is reached by a packet larger than the low class on an empty class
  (`TrimmingQueue.ReceiveKeeps`), and its drop counter misses evicted headers that find no room
  (`TrimmingQueue.DropsExactIff`).
- The path-length queue asserts that at most eight packets wait, and does not look at path length 20
  (`PathQueue.EnqueueTracks`, `PathQueue.ReceiveKeeps`); when it is full and empty at once it reads the front of an
  empty list.
- `get_value_from_percentile` extrapolates below 0 where its documentation promises None
  (`Cdf.ValueIsNoneIff`). `get_percentile_from_value` returns the promised -1 for every value out of range exactly
  if the distribution does not start above 0 (`Cdf.OutOfRangeIff`), and a percentage for every value in range
  exactly if it does not start below 0 (`Cdf.InRangeIff`). `is_valid_cdf` fails on the empty list
  (`CustomRandom.CustomRandomNumberGenerator.IsValidCdf`).

## Model

| member | source | states |
|---|---|---|
| `PullPacer.EveryRunIsSafe` | htsim/sim/eqds.cpp:2116-2254 | from the fresh pacer, over every run of joins, arrivals and timer events of any number of sinks, no abort or assertion fires; the active list holds a sink exactly once iff `_in_pull`, the rtx list exactly once iff it has retransmit backlog, backlog implies being listed, `_active` iff exactly one event is pending, and a non-empty list implies `_active` |
| `PullPacer.RunIsSafe` | htsim/sim/eqds.cpp:1839-1898 | the same from any state that satisfies the invariant |
| `PullPacer.StepKeepsInv` | htsim/sim/eqds.cpp:2116-2254 | every single event succeeds and keeps that invariant |
| `PullPacer.TargetKeepsInv` | htsim/sim/eqds.cpp:1689-1704 | a pull target from a data packet keeps the invariant and cannot fail |
| `PullPacer.TrimmedKeepsInv` | htsim/sim/eqds.cpp:1839-1864 | a trimmed packet restores the invariant although retransmit demand is added before the sink is listed |
| `PullPacer.RtsKeepsInv` | htsim/sim/eqds.cpp:1873-1898 | a request-to-send restores the invariant through its three separate updates |
| `PullPacer.TickKeepsInv` | htsim/sim/eqds.cpp:2116-2196 | a timer event keeps the invariant, whichever of the three lists it serves |
| `PullPacer.RunConservesCredit` | htsim/sim/eqds.cpp:1992-2014 | over every run the pull numbers granted to a sink rise by `_credit_per_pull` for each pull packet sent to it, and by nothing else |
| `PullPacer.RequestsGrantNothing` | htsim/sim/eqds.cpp:1689-1704 | requests never move a sink's pull number |
| `PullPacer.TickGrants` | htsim/sim/eqds.cpp:2116-2196 | a timer event moves the pull number of exactly the sink it sends to |
| `PullPacer.TickProgress` | htsim/sim/eqds.cpp:2116-2196 | without arrivals every timer event lowers the lexicographic measure of retransmit backlog, backlog, active length, slow-credit shortfall and idle length, or finds all lists empty and switches the pacer off |
| `PullPacer.PacerDrains` | htsim/sim/eqds.cpp:2116-2196 | without arrivals the pacer empties all lists after finitely many events, even with duplicates in the idle list, and then every demand has been met |
| `PullPacer.ServeIdleProgress` | htsim/sim/eqds.cpp:2165-2187 | serving the idle list makes progress although a sink may be put back into it |
| `PullOrder.ActiveInTurn` | htsim/sim/eqds.cpp:2146-2164 | over every run of requests and timer events in which nothing is to be retransmitted, the sinks that wait on the active list are pulled first and in their order, whoever asks meanwhile |
| `PullOrder.RtxInTurn` | htsim/sim/eqds.cpp:2131-2145 | over every run whatsoever the sinks that wait for retransmissions are pulled first and in their order |
| `PullOrder.IdleInTurn` | htsim/sim/eqds.cpp:2165-2187 | over every run without requests, while the other two lists are empty, the idle sinks get their slow credit in their order |
| `PullOrder.OneRound` | htsim/sim/eqds.cpp:2146-2164 | the next timer events, one for each sink of the active list, pull each once and in order; those with demand left are then on the list in the same order, and the others idle behind those that were |
| `PullOrder.RequestsWaitBehind` | htsim/sim/eqds.cpp:2222-2260 | a request puts its sink behind all that wait, and sends no pull |
| `PullOrder.IdleGoesBackIff` | htsim/sim/eqds.cpp:2165-2187 | a sink served from the idle list gets one pull, and goes back to the end of that list, flagged, iff its slow credit is then still short of its limit |
| `PullOrder.RtxGoesBackIff` | htsim/sim/eqds.cpp:2131-2145 | a sink served from the retransmit list gets one pull, counted against its retransmissions; it goes back to the end of that list iff some are left, and otherwise joins the active list iff it has demand and is not on it |
| `EqdsSinks.EqdsPullPacer.RequestPull` | htsim/sim/eqds.cpp:2222-2235 | in place, equal to the specification step |
| `EqdsSinks.EqdsPullPacer.RequestRetransmit` | htsim/sim/eqds.cpp:2237-2254 | in place, equal to the specification step |
| `EqdsSinks.EqdsPullPacer.DoNextEvent` | htsim/sim/eqds.cpp:2116-2196 | in place, equal to the specification step |
| `EqdsSinks.EqdsPullPacer.Dispatch` | htsim/sim/eqds.cpp:2116-2196 | the event list hands over the pending event: the invariant is kept |
| `EqdsSinks.EqdsPullPacer.ServeRtx` | htsim/sim/eqds.cpp:2131-2145 | the head of the retransmit list is pulled and goes back while demand remains |
| `EqdsSinks.EqdsPullPacer.ServeActive` | htsim/sim/eqds.cpp:2146-2164 | the head of the active list is pulled and moves on by its backlog |
| `EqdsSinks.EqdsPullPacer.ServeIdle` | htsim/sim/eqds.cpp:2165-2187 | the head of the idle list is pulled on slow credit |
| `EqdsSinks.EqdsPullPacer.IsActive` | htsim/sim/eqds.cpp:2198-2204 | list search: found iff listed |
| `EqdsSinks.EqdsPullPacer.IsRetransmitting` | htsim/sim/eqds.cpp:2206-2212 | list search: found iff listed |
| `EqdsSinks.EqdsSink.HandlePullTarget` | htsim/sim/eqds.cpp:1689-1704 | in place, equal to the specification step; the receive window is untouched |
| `EqdsSinks.EqdsSink.Pull` | htsim/sim/eqds.cpp:1992-2014 | lowers the retransmit backlog by at most one pull and advances the pull number |
| `EqdsSinks.EqdsSink.Backlog` | htsim/sim/eqds.h:389-394 | demand beyond what has been pulled, never negative |
| `EqdsSinks.EqdsSink.SlowCredit` | htsim/sim/eqds.h:395-400 | credit granted ahead of demand, never negative |
| `EqdsSinks.EqdsSink.AddToSlowPullQueue` | htsim/sim/eqds.h:415-418 | sets the slow flag and clears the other |
| `EqdsSinks.EqdsSink.ProcessData` | htsim/sim/eqds.cpp:1710-1815 | credit and receive window both move as specified, and the pacer's invariant holds again |
| `EqdsSinks.EqdsSink.ProcessTrimmed` | htsim/sim/eqds.cpp:1817-1865 | a duplicate is acknowledged and changes nothing; a new one is refused and raises retransmit demand |
| `EqdsSinks.EqdsSink.ProcessRts` | htsim/sim/eqds.cpp:1867-1956 | demand and receive window both move as specified, and the pacer's invariant holds again |
| `Quanta.FloorIsGreatest` | htsim/sim/eqdspacket.cpp:9-12 | the floor is the greatest number of quanta worth no more than the bytes, also for negative bytes |
| `Quanta.CeilIsLeastIff` | htsim/sim/eqdspacket.cpp:14-17 | the ceiling is the least number of quanta worth at least the bytes iff bytes > -512 or the truncation is exact: C division rounds towards zero |
| `Quanta.UnquantizeExact` | htsim/sim/eqdspacket.cpp:19-22 | quantizing undoes unquantizing, upwards only for non-negative quanta |
| `ReceiveWindow.ExactMeaning` | htsim/sim/eqds.cpp:1735-1799 | an exact window: the expected number is the least one missing and the out-of-order count is the number received above it |
| `ReceiveWindow.AcceptKeepsExact` | htsim/sim/eqds.cpp:1779-1799 | taking in a packet less than 4096 ahead keeps the modular window in agreement with the unbounded set of received numbers |
| `ReceiveWindow.AcceptExactIff` | htsim/sim/eqds.cpp:1779-1799 | that holds for all windows iff the packet lies less than 4096 ahead of the expected number |
| `ReceiveWindow.DuplicateIsReceived` | htsim/sim/eqds.cpp:1735 | within the window a packet looks like a duplicate iff it was received |
| `ReceiveWindow.AckIsExact` | htsim/sim/eqds.cpp:2046-2074 | an acknowledgement is sound, and from the expected number on acknowledges, within its 64 bits, exactly what was received |
| `ReceiveWindow.AckSoundIff` | htsim/sim/eqds.cpp:2046-2066 | every acknowledgement built for a reference is sound iff the reference plus 63 lies no later than the slot of the next expected number |
| `ReceiveWindow.UnsoundAck` | htsim/sim/eqds.cpp:2046-2066 | outside that range a window and a received set that give an unsound acknowledgement |
| `ReceiveWindow.AckBits` | htsim/sim/eqds.cpp:2046-2066 | bit i of the bitmap is the slot of reference + i |
| `AckCoverage.DataAnswered` | htsim/sim/eqds.cpp:1709-1811 | a data packet in the window is answered iff it was received before, is marked, asks for it, is the first, fills the byte budget, or leaves no gap for a sender that has asked; the answer acknowledges the packet, its cumulative number is the first one missing, and it tells exactly which of the 63 numbers before the packet (of those after it, if it was marked or, being new, asked) have come in |
| `AckCoverage.RtsAnswered` | htsim/sim/eqds.cpp:1866-1953 | a request-to-send is always answered, with the same coverage |
| `AckCoverage.TrimmedAnswered` | htsim/sim/eqds.cpp:1820-1838 | a trimmed packet is acknowledged iff it had been received, and the answer covers it |
| `AckCoverage.UnansweredAreFew` | htsim/sim/eqds.cpp:2016-2022 | over every run of data packets, those that go unanswered in a row hold less than 16384 bytes together |
| `AckCoverage.AskedIsAnswered` | htsim/sim/eqds.cpp:1761-1796 | over every run of data packets that leaves no gap behind, some answer acknowledges cumulatively all that had come in when the sender had asked |
| `ReceiveWindow.NextMissingUnique` | htsim/sim/eqds.cpp:1779-1784 | the catch-up loop stops at the least number not stored |
| `EqdsSinks.EqdsSink.AcceptPacket` | htsim/sim/eqds.cpp:1779-1799 | in place over the slot array, equal to the specification |
| `EqdsSinks.EqdsSink.CatchUp` | htsim/sim/eqds.cpp:1779-1784 | the loop clears slot after slot, terminates within one turn of the array, and leaves the least missing number |
| `EqdsSinks.EqdsSink.BuildSackBitmap` | htsim/sim/eqds.cpp:2046-2066 | the shift loop spells exactly the 64 slots from the reference; report counts change no slot's state |
| `EqdsSinks.EqdsSink.Sack` | htsim/sim/eqds.cpp:2068-2074 | builds the specified acknowledgement |
| `EqdsSinks.EqdsSink.SackBitmapBase` | htsim/sim/eqds.cpp:2020-2022 | the reference is 63 back, but past the expected number |
| `EqdsSinks.EqdsSink.TakeData` | htsim/sim/eqds.cpp:1715-1815 | equal to the specification of a data arrival |
| `EqdsSinks.EqdsSink.TakeRts` | htsim/sim/eqds.cpp:1900-1956 | equal to the specification of a request-to-send |
| `Bits.ShiftIn` | htsim/sim/eqds.cpp:2050-2062 | shifting right and setting the top bit appends a slot to a word |
| `SenderInvariant.CheckFinishedExact` | htsim/sim/eqds.cpp:619-648 | although requests-to-send use up sequence numbers, the flow finishes iff the cumulative acknowledgement is the highest sent and nothing is unsent |
| `SenderInvariant.HandleAckExact` | htsim/sim/eqds.cpp:541-607 | an acknowledgement removes exactly the packets below the cumulative number or with their bit set, and their bytes |
| `SenderInvariant.HandleAckKeeps` | htsim/sim/eqds.cpp:541-607 | an acknowledgement keeps all bookkeeping, so the bytes in flight never become negative |
| `SenderInvariant.ProcessAckKeeps` | htsim/sim/eqds.cpp:650-693 | an acknowledgement event cannot fail; only covered packets leave the books; it finishes the flow exactly as above |
| `SenderInvariant.ProcessNackSteps` | htsim/sim/eqds.cpp:851-917 | a refusal moves its packet to the retransmit queue and keeps the bookkeeping; it fails iff the packet is no longer outstanding, where the program aborts |
| `SenderInvariant.ProcessPullKeeps` | htsim/sim/eqds.cpp:919-930 | a pull event cannot fail and keeps the credit bound |
| `SenderInvariant.PullGood` | htsim/sim/eqds.cpp:609-617 | pulled credit plus spent bytes never exceeds what was granted |
| `SenderInvariant.SpendCreditOk` | htsim/sim/eqds.cpp:1018-1038 | with positive credit the phase assertions hold in every branch |
| `SenderInvariant.LaunchNewSteps` | htsim/sim/eqds.cpp:1261-1315 | a new packet keeps backlog == unsent + header * ceil(unsent/mss) and the count of sequence numbers |
| `AnswerRequests.NewAsks` | htsim/sim/eqds.cpp:1301-1302 | a new packet asks for an answer iff the sender has then overdrawn its pulled credit or has no backlog, stated on the states before and after and on what is sent; who becomes so has sent a packet that asks |
| `AnswerRequests.PermittedAsks` | htsim/sim/eqds.cpp:1089-1142 | the same for asking the card, resends asking always |
| `AnswerRequests.CallBackAsks` | htsim/sim/eqds.cpp:1400-1480 | the same for a call-back of the card |
| `AnswerRequests.EventAsks` | htsim/sim/eqds.cpp:1301-1302 | the same for every event that reaches a sender: acknowledgement, refusal, pull, timeout and call-back |
| `AnswerRequests.StartAsks` | htsim/sim/eqds.cpp:969-998 | none of the packets a flow starts with asks, but the last one of the flow |
| `AnswerRequests.SpentHasAsked` | htsim/sim/eqds.cpp:1301-1302 | over every run in reach: once a source has overdrawn its pulled credit or sent all there was, a packet that asks for an answer is in the network |
| `AnswerRequests.AskingIsAnswered` | htsim/sim/eqds.cpp:1761-1811 | whenever such a packet arrives, in reach of the window, an acknowledgement goes out that covers it and whose cumulative number is the first one missing |
| `SenderInvariant.SendNewSteps` | htsim/sim/eqds.cpp:1261-1315 | sending a new packet cannot fail while data is unsent and credit is positive |
| `SenderInvariant.SendRtxSteps` | htsim/sim/eqds.cpp:1317-1354 | a resend succeeds iff something is queued and the source is not speculating |
| `SenderInvariant.SendRtsSteps` | htsim/sim/eqds.cpp:1356-1381 | a request-to-send keeps the books: the bytes of the timed-out packet cover its own |
| `SenderInvariant.SendIfPermittedSteps` | htsim/sim/eqds.cpp:1089-1149 | outside the speculative phase asking to send cannot fail |
| `SenderInvariant.TimeToSendSteps` | htsim/sim/eqds.cpp:1400-1496 | a call-back fails iff something is queued for resending while the source is still speculating, with credit and window left |
| `SenderInvariant.TimerFindsRecord` | htsim/sim/eqds.cpp:1510-1530 | the timer's index always leads to an outstanding packet |
| `SenderInvariant.TimerExpiredSteps` | htsim/sim/eqds.cpp:1510-1589 | a timeout keeps all bookkeeping whenever it succeeds, and always succeeds if others were waiting to be resent |
| `SenderInvariant.AfterTimeoutSteps` | htsim/sim/eqds.cpp:1549-1588 | what follows a timeout fails iff it resends while the queue has emptied or the total credit is not positive |
| `SenderInvariant.TimerAborts` | htsim/sim/eqds.cpp:1510-1589 | a timeout runs into an assertion iff a guard on the state before it holds: nothing waits to be resent, the source does not speculate and has pulled credit, the second grant comes, and either credit, window and card let the packet go twice, or the total credit is used up and the window has room |
| `NothingMissed.AckMissesNothing` | htsim/sim/eqds.cpp:1089-1142 | after an acknowledgement the source speculates no more, and is done, has sent, or waits at the card if it wants to send |
| `NothingMissed.PullMissesNothing` | htsim/sim/eqds.cpp:914-929 | the same after a pull |
| `NothingMissed.RefusalMissesNothing` | htsim/sim/eqds.cpp:893-911 | after a refusal the packet is sent again or waits to be, speculation ends, and the source has asked a second time for what it then wanted to send |
| `NothingMissed.CallBackMissesNothing` | htsim/sim/eqds.cpp:1400-1500 | a source that is called sends whenever it has pulled credit and the window is open, and then waits at the card again iff it may send more |
| `NothingMissed.RtsSentIff` | htsim/sim/eqds.cpp:1526-1576 | after a timeout a request-to-send goes out iff others wait to be resent, the window is closed for another packet, or no pulled credit is left, and none has gone out within a round trip; it carries the next number and the last announcement |
| `NothingMissed.PaymentFailsIff` | htsim/sim/eqds.cpp:1018-1037 | paying for a packet fails iff there is no credit or the phase is the wrong one |
| `NothingMissed.AnnouncesLeast` | htsim/sim/eqds.cpp:1040-1087 | a pull target is the least number of quanta that covers what the source wants beyond its credit, wherever rounding is exact; a packet of speculative credit is given up iff the source no longer speculates, has some left, and the last target already covers all but a quantum |
| `NothingMissed.StartsAfresh` | htsim/sim/eqds.cpp:969-998 | a flow starts with a full window of speculative credit and nothing announced, granted or in flight, whatever the source has been through |
| `SenderInvariant.TimedIff` | htsim/sim/eqds.cpp:1383-1391 | every outstanding packet stays indexed by its send time iff no two are sent at the same instant |
| `SenderInvariant.DropKeepsTimed` | htsim/sim/eqds.cpp:541-564 | acknowledgements do not lose the index of other packets |
| `SenderInvariant.StartFlowGood` | htsim/sim/eqds.cpp:953-998 | starting a flow cannot fail and establishes the invariant |
| `EqdsSrcs.EqdsSrc.HandleAckno` | htsim/sim/eqds.cpp:541-564 | in place: takes one packet off the books, if it is there |
| `EqdsSrcs.EqdsSrc.HandleCumulativeAck` | htsim/sim/eqds.cpp:566-607 | the two erase loops remove exactly what lies below the cumulative number |
| `EqdsSrcs.EqdsSrc.HandleBitmap` | htsim/sim/eqds.cpp:661-674 | the sender's shift loop acknowledges exactly the packets whose bit is set |
| `EqdsSrcs.EqdsSrc.HandlePull` | htsim/sim/eqds.cpp:609-617 | in place, equal to the specification |
| `EqdsSrcs.EqdsSrc.CheckFinished` | htsim/sim/eqds.cpp:619-648 | in place, equal to the specification |
| `EqdsSrcs.EqdsSrc.StopSpeculating` | htsim/sim/eqds.cpp:1004-1016 | in place, equal to the specification |
| `EqdsSrcs.EqdsSrc.Credit` | htsim/sim/eqds.cpp:1000-1002 | pulled plus speculative credit |
| `EqdsSrcs.EqdsSrc.SpendCredit` | htsim/sim/eqds.cpp:1018-1038 | in place, equal to the specification |
| `EqdsSrcs.EqdsSrc.ComputePullTarget` | htsim/sim/eqds.cpp:1040-1087 | in place, equal to the specification |
| `EqdsSrcs.EqdsSrc.CreateSendRecord` | htsim/sim/eqds.cpp:1383-1391 | records the packet; its send time only if that instant is free |
| `EqdsSrcs.EqdsSrc.SendNewPacket` | htsim/sim/eqds.cpp:1261-1315 | in place, equal to the specification |
| `EqdsSrcs.EqdsSrc.SendRtxPacket` | htsim/sim/eqds.cpp:1317-1354 | in place, equal to the specification |
| `EqdsSrcs.EqdsSrc.SendRts` | htsim/sim/eqds.cpp:1356-1381 | in place, equal to the specification |
| `EqdsSrcs.EqdsSrc.SendIfPermitted` | htsim/sim/eqds.cpp:1089-1149 | in place, equal to the specification |
| `EqdsSrcs.EqdsSrc.QueueForRtx` | htsim/sim/eqds.cpp:1393-1398 | in place, equal to the specification |
| `EqdsSrcs.EqdsSrc.StartFlow` | htsim/sim/eqds.cpp:953-998 | sets up the flow, sends while the card grants, and establishes the invariant |
| `EqdsSrcs.EqdsSrc.SendWhileGranted` | htsim/sim/eqds.cpp:980-997 | the starting loop, equal to its specification |
| `EqdsSrcs.EqdsSrc.ProcessAck` | htsim/sim/eqds.cpp:650-693 | equals the specification for any cumulative number as long as no assertion fails; keeps the invariant if that number does not exceed the highest sent, which a sound one never does |
| `EqdsSrcs.EqdsSrc.ProcessNack` | htsim/sim/eqds.cpp:851-917 | for an outstanding packet; keeps the invariant and equals the specification (the program aborts on any other) |
| `EqdsSrcs.EqdsSrc.ProcessPull` | htsim/sim/eqds.cpp:919-930 | keeps the invariant and equals the specification |
| `EqdsSrcs.EqdsSrc.TimeToSend` | htsim/sim/eqds.cpp:1400-1496 | outside the hazard of a speculative resend; keeps the invariant and equals the specification |
| `EqdsSrcs.EqdsSrc.RtxTimerExpired` | htsim/sim/eqds.cpp:1510-1589 | outside the hazard of a second resend; keeps the invariant and equals the specification |
| `Protocol.RunKeepsInv` | htsim/sim/eqds.cpp:510-540 | over every run with loss, duplication, reordering and trimming, next to any other sinks of the same pacer, the joint invariant of sender, receiver, pacer and packets in flight holds, as long as packets arrive in reach of the window; `Reach` says when they do |
| `Protocol.NextKeepsInv` | htsim/sim/eqds.cpp:510-540 | every single action in reach that succeeds keeps it |
| `Protocol.NoPacketIsLost` | htsim/sim/eqds.cpp:541-607 | outstanding, waiting to be resent, and received packets together are exactly the numbers used; the first two are disjoint; bytes in flight cover the outstanding ones |
| `Protocol.OnlyReceivedIsDropped` | htsim/sim/eqds.cpp:541-607 | a packet leaves the sender's books for good only through an acknowledgement, and only if it was received |
| `Protocol.FinishedMeansReceived` | htsim/sim/eqds.cpp:619-648 | a finished flow has been received to the byte |
| `Protocol.FinishesExactly` | htsim/sim/eqds.cpp:619-648 | an acknowledgement in flight finishes the flow iff it covers everything sent and nothing is unsent |
| `Protocol.ReceivedWithinFlow` | htsim/sim/eqds.cpp:1758-1764 | the receiver never counts more than the flow, as it asserts |
| `Protocol.CreditConserved` | htsim/sim/eqds.cpp:609-617 | however pulls are lost, duplicated or reordered, INIT_PULL <= pull <= latest pull, -mtu < pulled credit <= maximum window, and bytes sent on pulled credit stay below the credit granted plus one mtu |
| `Hazards.NextAbortsIff` | htsim/sim/eqds.cpp:867-877 | an action in reach fails iff it meets one of three hazards, each a guard on the state before it: a call-back of a speculating source with a packet to resend, a timeout that resends once too often, a refusal of a packet no longer outstanding; no other assertion of sender, receiver or pacer fails |
| `Hazards.RunAbortsIff` | htsim/sim/eqds.cpp:1510-1589 | a run in reach trips an assertion iff one of its actions meets a hazard |
| `Hazards.TolerantRunsAreSafe` | htsim/sim/eqds.cpp:867-877 | with late refusals ignored, as the comment there expects, every run in reach keeps the invariant, and fails iff it meets one of the other two hazards |
| `Hazards.SpeculativeHazardReachable` | htsim/sim/eqds.cpp:1322-1326 | in every flow of more than one packet with room for a second: the first packet times out before the first answer, then the card calls back, and the assertion that resends are not speculative fails |
| `Hazards.DoubleResendReachable` | htsim/sim/eqds.cpp:1549-1588 | in every flow of one packet that costs less than a pull: the packet is trimmed and its refusal lost, the receiver pulls once, and a timeout with two grants resends the packet twice; the assertion that the queue is not empty fails |
| `Hazards.StaleRefusalReachable` | htsim/sim/eqds.cpp:867-877 | in every flow: the first packet is trimmed and times out, and when its refusal arrives the program aborts |
| `Reach.EveryRunDelivers` | htsim/sim/eqds.cpp:619-693 | from the start of any flow, over a network free to do anything with the packets sent: as long as every outstanding or waiting packet lies within 4034 of the sender's highest number, no more than the flow is received, and done means received completely |
| `Reach.NarrowStaysInReach` | htsim/sim/eqds.cpp:1735 | a sender whose books stay that narrow never has a packet delivered outside the window, whatever the network does |
| `Reach.CloseIsInReach` | htsim/sim/eqds.cpp:1735 | no packet lies outside the window while the highest number used is at most 4034 above the expected one |
| `Reach.ShortFlowsStayInReach` | htsim/sim/eqds.cpp:1356-1381 | a flow whose packets and timeouts number at most 4034 together never leaves the window |
| `Reach.NextCountsRts` | htsim/sim/eqds.cpp:1356-1381 | only a timeout sends a request-to-send, and at most one |
| `Reach.TrimmedIsAcknowledged` | htsim/sim/eqds.cpp:1823-1833 | outside it a trimmed packet whose slot is taken is acknowledged although it never arrived |
| `Reach.PacketIsLost` | htsim/sim/eqds.cpp:1823-1833 | in every flow that may send 4098 packets at once, a run after which one of them is neither outstanding, nor waiting to be resent, nor received |
| `CreditLoop.UndemandedIff` | htsim/sim/eqds.cpp:1689-1704 | exactly a pull target above INIT_PULL, a new trimmed packet or a request-to-send ends the rest of a sink that has heard of no demand |
| `CreditLoop.PulledOnlyOnDemand` | htsim/sim/eqds.cpp:2116-2190 | over every run a sink is sent no pull before some demand of its sender has arrived, whatever the pacer does for others |
| `CreditLoop.ArrivalListsIff` | htsim/sim/eqds.cpp:1689-1704 | after a data packet its sink waits for a pull iff it did before or the packet asks for more than any before it |
| `CreditLoop.DemandIsGranted` | htsim/sim/eqds.cpp:2116-2190 | a data packet that asks for more than INIT_PULL arrives, the pacer works off its lists without skipping, its last pull arrives: then the sender has been pulled at least as far as the packet asked |
| `CreditLoop.PacerTimersRun` | htsim/sim/eqds.cpp:2116-2190 | the pacer within the protocol moves as it does alone, and its events leave the sender as it is |
| `CreditLoop.GrantCoversWant` | htsim/sim/eqds.cpp:1040-1087 | pulled up to the target that it announced, a sender has pulled credit for all that it wanted beyond its speculative credit, or a full window of it; pulled exactly that far, it has less than one pull more than that |
| `CreditLoop.ServedCanSpend` | htsim/sim/eqds.cpp:1018-1087 | so a sender that wanted more than its speculative credit can spend when it is served; one that wanted a pull less than that cannot |
| `Starvation.AsksNothingIff` | htsim/sim/eqds.cpp:1040-1087 | the first packet asks for nothing iff the whole flow with its headers fits the initial window, also under congestion control whose window starts no smaller than that |
| `Starvation.StaysStarved` | htsim/sim/eqds.cpp:1018-1037 | no action at all feeds a starved flow |
| `Starvation.StarvedForever` | htsim/sim/eqds.cpp:1018-1037 | over every run a starved flow sends nothing more and never finishes |
| `Starvation.SmallFlowsStarve` | htsim/sim/eqds.cpp:684-693 | from the start of every flow that fits its initial window and of which the first packets granted, however many, leave data unsent: once they have arrived and one acknowledgement comes back before the card calls, whatever happens, the flow is never done, data stays unsent and no timer runs |
| `Starvation.SmallRunStarves` | htsim/sim/eqds.cpp:1018-1037 | that run is in reach, trips no assertion, loses nothing and ends starved |
| `AsksForCredit.StarvesIff` | htsim/sim/eqds.cpp:969-998 | over all runs in reach from the start of any flow, with any number of packets granted at once: some run starves the flow iff the flow with its headers fits the initial window and the packets granted leave data unsent |
| `AsksForCredit.AskingFlowsNeverStarve` | htsim/sim/eqds.cpp:1040-1087 | no run in reach starves a flow whose first packet asks for credit, whatever the congestion window and however many packets were granted |
| `AsksForCredit.FedNeverStarves` | htsim/sim/eqds.cpp:1018-1037 | from any state of a flow that has not begun, still asks or has nothing left, no run in reach ends starved |
| `AsksForCredit.NextStillAsks` | htsim/sim/eqds.cpp:1018-1087 | a flow whose demand was heard, or whose first packet with the demand may still arrive, stays so: no action and no loss takes the demand back |
| `AsksForCredit.DemandStaysHeard` | htsim/sim/eqds.cpp:1689-1704 | once the receiver has heard of a demand it is never again as if it had not, whatever happens |
| `AsksForCredit.UnsentNeverGrows` | htsim/sim/eqds.cpp:1261-1315 | no action gives a sender unsent data back |
| `NeverStalls.StallsIff` | htsim/sim/eqds.cpp:2146-2187 | over all runs in reach, packets trimmed or not, in which neither of the two mishaps below happens: some run brings a flow to a standstill, with data unsent, everything sent received, every demand heard, no pulled credit, the latest pull received and its sink listed nowhere at the pacer, iff the flow with its headers fits the initial window and the packets granted at the start leave data unsent |
| `NeverStalls.SuppliedIff` | htsim/sim/eqds.cpp:1689-1704 | an action takes away the pacer's care for a sink (it is listed, has all of its slow credit, or has not asked) iff it is one of two mishaps, closed guards on the state before: a demand heard while `_retx_backlog > 0` by a sink on no other list whose slow credit it uses up, or a trimmed packet without demand at a sink that has heard of none |
| `NeverStalls.StallsUnsupplied` | htsim/sim/eqds.cpp:2146-2187 | over every run in reach, mishaps or not: a flow that does not fit its initial window, or has sent everything at the start, is at a standstill only while part of its slow credit has not been granted |
| `NeverStalls.AskingFlowsNeverStall` | htsim/sim/eqds.cpp:2146-2187 | a flow of more than one packet whose first packet asks for credit, whatever the windows and the card do, is at a standstill only after a mishap and only while slow credit is missing |
| `NeverStalls.KeptNeverStalls` | htsim/sim/eqds.cpp:2146-2187 | without mishaps no run stalls a flow from any state in which it has not begun, asks or has nothing left, and its sink is cared for |
| `NeverStalls.StalledLacksCredit` | htsim/sim/eqds.cpp:1040-1087 | the target that was announced last, with the slow credit of a whole window on top, is more than a source without pulled credit can have been pulled to |
| `NeverStalls.TickSupplies` | htsim/sim/eqds.cpp:2116-2190 | a timer event of the pacer never ends its care for a sink: a sink leaves the idle list only with its slow credit granted in full, also with retransmission demand pending |
| `NeverStalls.TrimmedCaresIff` | htsim/sim/eqds.cpp:1839-1864 | a trimmed packet ends the pacer's care for its sink iff its demand overtakes one trimmed before |
| `NeverStalls.RtsCaresIff` | htsim/sim/eqds.cpp:1873-1898 | so does a request-to-send, which otherwise puts its sink on the active list |
| `TrimmedStall.OvertakingStalls` | htsim/sim/eqds.cpp:1689-1704 | the first mishap alone is enough: every flow larger than its initial window, which takes fifteen packets and ten quanta or more, has a run in reach, without the other mishap, in which a demand overtakes a trimmed packet and which ends at a standstill without a timer |
| `TrimmedStall.EarlyStalls` | htsim/sim/eqds.cpp:1839-1864 | the second is enough alone: every such flow has a run in which the second packet is trimmed before the first arrives, no demand overtakes a trimmed packet, and which ends so too |
| `NeverStuck.StuckIff` | htsim/sim/eqds.cpp:1018-1037 | pulled credit is no leave to send while speculative credit is overdrawn; standing still is here having no pulled credit or no credit in all. For windows of at least a packet, with a last packet that makes up for rounding the window to quanta: some run without mishaps leaves a flow so iff the flow with its headers fits the initial window and the packets granted at the start leave data unsent |
| `NeverStuck.ServedCanSend` | htsim/sim/eqds.cpp:1040-1087 | a source pulled up to its last announcement and a whole window beyond has pulled credit and credit in all |
| `NeverStuck.NarrowNeverStalls` | htsim/sim/eqds.cpp:1689-1704 | a flow of several packets whose window is smaller than its first and its last packet together is never at a standstill without pulled credit, over every run in reach: neither mishap can bring it there |
| `NeverStuck.TinyWindowNeverPays` | htsim/sim/eqds.cpp:1018-1037 | with a window of at most half a packet, a source of several packets that has sent the first has no credit again, over every run in reach |
| `CanFinish.CanAlwaysFinish` | htsim/sim/eqds.cpp:969-998 | from every state that a run without mishaps leads a flow to, unless the flow fits its initial window with its headers and the packets granted at the start left data unsent, some continuation, in reach and without mishaps itself, trips no assertion and ends with the flow done |
| `CanFinish.LiveCanFinish` | htsim/sim/eqds.cpp:1018-1037 | the same from any state in which a flow has begun, everything sent is still in the network, and its sink is cared for |
| `CanFinish.RunKeepsLive` | htsim/sim/eqds.cpp:1040-1087 | over every run without mishaps a flow stays so: in particular the source has announced all that it is short of, or holds a full window, and the packet with its last announcement is in the network |
| `CanFinish.OneRound` | htsim/sim/eqds.cpp:2116-2190 | one round of delivery, pacing, pulls, an acknowledgement and a call-back of the card sends at least one byte more, or finishes the flow |
| `CanFinish.TickKeepsCrest` | htsim/sim/eqds.cpp:2116-2190 | what the pacer may yet come to grant a sink without further requests never grows by its own timer events |
| `TrimmedStall.ArrivesInTime` | htsim/sim/eqds.cpp:1839-1864 | a demand below the next pull number that is heard while a trimmed packet is still to be pulled is granted by the pulls for that packet, and the sink is then on no list |
| `TrimmedStall.Burns` | htsim/sim/eqds.cpp:1040-1087 | a source under a window that is just full spends its pulled credit on refused packets down to any floor, and gives up at most one packet of speculative credit on the way |
| `Timers.RunKeepsTimed` | htsim/sim/eqds.cpp:1383-1391 | over every run in which no two packets are sent at one instant every outstanding packet stays indexed by its send time |
| `Timers.OutstandingHasTimer` | htsim/sim/eqds.cpp:1498-1508 | from the start of a flow, over those runs, a timeout is due whenever a packet is out |
| `Timers.UntimedReachable` | htsim/sim/eqds.cpp:600-604 | in every flow that sends two packets at one instant: the first is acknowledged, and the second is out without a timer |
| `NicPorts.EveryRunIsSafe` | htsim/sim/eqds.cpp:95-297 | over every run no assertion of the card or of the call-back recursion fails, a queued source or control packet implies that all ports are busy, the busy count is the number of busy flags, and pending events are exactly the busy ports' end times |
| `NicPorts.RunIsSafe` | htsim/sim/eqds.cpp:95-297 | the same from any state that satisfies the invariant |
| `NicPorts.HandedPortIsUsed` | htsim/sim/eqds.cpp:126-159 | the port handed to a source that is called back is the port then marked busy |
| `NicPorts.OneFreePort` | htsim/sim/eqds.cpp:117-124 | one port short of all busy, exactly one is free |
| `NicPorts.CantSendOk` | htsim/sim/eqds.cpp:161-192 | passing the turn on terminates, and ends with the port used or nobody waiting |
| `NicPorts.TimeToSendOk` | htsim/sim/eqds.cpp:1400-1496 | a source that is called back with the one free port leaves the card with no free port while anybody waits |
| `NicPorts.PortDoneOk` | htsim/sim/eqds.cpp:244-297 | each pending event finds the port it was scheduled for, and keeps the invariant |
| `NicPorts.TurnsAreShared` | htsim/sim/eqds.cpp:260-284 | over every run of the card, of any stretch of ports that a source and a control packet both wait for, one in eleven goes to a source, give or take one |
| `NicPorts.TurnIsTaken` | htsim/sim/eqds.cpp:260-284 | only such a port moves the turn on; when it is not the sources' turn the first control packet goes out and no source leaves the queue |
| `PortOrder.FreePortIsNext` | htsim/sim/eqds.cpp:117-124 | the port handed out is the first free one going round from the one handed out last |
| `PortOrder.FreedPortIsUsed` | htsim/sim/eqds.cpp:244-295 | a port that becomes free goes at once to whoever waits: to the first queued source that can send if it is the turn of the sources or no control packet waits, otherwise to the first control packet; it is then busy for as long as the bits of that packet take |
| `PortOrder.ControlWaitsOrGoes` | htsim/sim/eqds.cpp:190-242 | a control packet joins its queue at the end if all ports are busy, and goes out on the next free port otherwise |
| `PortOrder.SourceWaitsOrGoes` | htsim/sim/eqds.cpp:95-115 | a source that asks joins its queue at the end if all ports are busy, and gets the next free port otherwise |
| `CardedSource.EveryRunIsClean` | htsim/sim/eqds.cpp:1123-1142 | a source that starts at any card, shared with any other sources and control packets: over every run without the two events below, it waits in the card's queue exactly if it believes so, and once; the card calls back nobody who did not ask and forgets nobody who did |
| `CardedSource.StepKeepsCleanIff` | htsim/sim/eqds.cpp:1400-1417 | an event lets source and card fall out of step iff it is a call-back to a source with nothing left to send, or a timeout whose direct question the card refuses; both are closed guards on the state before |
| `CardedSource.RunKeepsClean` | htsim/sim/eqds.cpp:1123-1142 | the same over runs from any state in step |
| `CardedSource.StepKeepsGood` | htsim/sim/eqds.cpp:1400-1589 | with the card's answers every event that trips no assertion keeps the sender's invariant |
| `CardedSource.StepIsSender` | htsim/sim/eqds.cpp:1123-1142 | each event moves the source as in the protocol, with the card's first and second answer in place of free grants |
| `CardTraffic.SourceCarries` | htsim/sim/eqds.cpp:1123-1142 | at every event that reaches the source, each packet that it sends takes a port or, if it is a request-to-send, waits among the control packets, and nothing else is added to the card |
| `CardTraffic.CallBackCarries` | htsim/sim/eqds.cpp:1400-1500 | a source that is called back and sends gets the port that has become free, for as long as its packet takes |
| `CardedSource.ResolveWaits` | htsim/sim/eqds.cpp:1400-1496 | while the card calls its queue, a source that waits once is called at most once, and then waits again iff it asked again, unless it had nothing left to send |
| `CardedSource.ForgottenForever` | htsim/sim/eqds.cpp:1123-1126 | a source that believes it waits while the card does not know of it never resends what it has queued: over every run, only an acknowledgement takes that away |
| `CardedSource.ForgottenReachable` | htsim/sim/eqds.cpp:1404-1407 | every flow of one packet that starts on an idle card with one port has a run that ends so |
| `CardedProtocol.EveryRunIsSafe` | htsim/sim/eqds.cpp:969-998 | sender, receiver, pacer and network with a real card, from the start of any flow at any card in order, shared with other sources: over every run in reach protocol and card keep their invariants, an assertion fails iff an event meets a hazard, done means received completely, and without the two slips source and card agree on who waits |
| `CardedProtocol.StepAgrees` | htsim/sim/eqds.cpp:1123-1142 | an event at card or source is what the card makes of it iff it is what the protocol makes of it with the card's answers: the card adds no failure, and both end with the same source |
| `CardedProtocol.StepAbortsIff` | htsim/sim/eqds.cpp:1549-1588 | with a real card an event trips an assertion iff a closed guard on the state before it holds: a timeout that could be resent twice and two free ports, a timeout with pulled credit only on paper and one free port, a call-back of a speculating source, or a refusal of a packet no longer outstanding |
| `CardedProtocol.RunAbortsIff` | htsim/sim/eqds.cpp:1510-1589 | the same over runs |
| `CardedProtocol.RunProjects` | htsim/sim/eqds.cpp:1123-1142 | every run with a real card is a run of the protocol, so whatever holds over all of those holds over it |
| `CardedProtocol.RunKeepsInvs` | htsim/sim/eqds.cpp:1123-1142 | the invariants over runs from any state that has them |
| `CardedProtocol.LargeFlowsNeverStall` | htsim/sim/eqds.cpp:2146-2187 | with a real card no run without the two mishaps brings a flow to a standstill that is larger than its initial window |
| `CardedStalls.StallsWithCardIff` | htsim/sim/eqds.cpp:1123-1142 | with a real card some run without the two mishaps brings a flow to a standstill iff the flow with its headers fits the initial window and data is left when the card has let packets go on every port that was free |
| `CardedStalls.RefusedMeansBusy` | htsim/sim/eqds.cpp:95-115 | a source that still has credit and data when its start is over waits at a card whose ports are all busy |
| `CardedStalls.ArrivalsMirror` | htsim/sim/eqds.cpp:1123-1142 | while all ports are busy, arrivals at the receiver and then an acknowledgement do in the protocol with the card what they do in the protocol alone |
| `CardedProtocol.DoubleResendWithCard` | htsim/sim/eqds.cpp:1549-1588 | every flow of one packet that costs less than a pull, started at a card with three free ports, has a run in which the packet is trimmed and times out and is resent twice: the assertion that the retransmit queue is not empty fails |
| `EqdsNics.EqdsNIC.FindFreePort` | htsim/sim/eqds.cpp:117-124 | the round-robin loop ends at the first free port |
| `EqdsNics.EqdsNIC.SendOnFreePortNow` | htsim/sim/eqds.cpp:126-138 | in place, equal to the specification |
| `EqdsNics.EqdsNIC.RequestSending` | htsim/sim/eqds.cpp:95-115 | in place, equal to the specification |
| `EqdsNics.EqdsNIC.StartSending` | htsim/sim/eqds.cpp:140-159 | in place, equal to the specification |
| `EqdsNics.EqdsNIC.CantSend` | htsim/sim/eqds.cpp:161-192 | in place and mutually recursive with TimeToSend, equal to the specification |
| `EqdsNics.EqdsNIC.TimeToSend` | htsim/sim/eqds.cpp:1400-1496 | the source's side of a call-back, equal to the specification |
| `EqdsNics.EqdsNIC.SendControlPacket` | htsim/sim/eqds.cpp:194-216 | in place, equal to the specification |
| `EqdsNics.EqdsNIC.SendControlPktNow` | htsim/sim/eqds.cpp:218-242 | in place, equal to the specification |
| `EqdsNics.EqdsNIC.DoNextEvent` | htsim/sim/eqds.cpp:244-297 | in place, equal to the specification, keeping the invariant |
| `RepsRing.RingRefinesQueue` | htsim/sim/buffer_reps.cpp:25-119 | between resets in normal mode, over every run of adds and draws, the ring holds and returns what a bounded drop-oldest queue does |
| `RepsRing.AddAppends` | htsim/sim/buffer_reps.cpp:25-55 | an add appends, dropping the oldest entry if the ring is full of fresh ones; fresh slots stay those just behind the head |
| `RepsRing.RemoveFreshDraws` | htsim/sim/buffer_reps.cpp:75-140 | a draw returns the oldest entry, which the non-destructive read predicts |
| `RepsRing.DrawsBounded` | htsim/sim/buffer_reps.cpp:75-119 | with compressed acknowledgements each cached value is returned at most its lifetime many times for every time it was added |
| `RepsRing.AddKeepsInv` | htsim/sim/buffer_reps.cpp:25-55 | in every mode the cached count is the number of valid slots and the frozen cursor stays below the count |
| `RepsRing.RemoveFrozenKeepsInv` | htsim/sim/buffer_reps.cpp:161-198 | a frozen read keeps the cached count and the cursor right |
| `RepsRing.ResetKeepsInv` | htsim/sim/buffer_reps.cpp:211-223 | a reset restores the empty ring |
| `RepsRing.CountPrefix` | htsim/sim/buffer_reps.cpp:257-265 | counting the valid slots in the filled part counts all of them |
| `RepsRing.AddKeepsSource` | htsim/sim/buffer_reps.cpp:25-55 | everything in the ring was added |
| `RepsRing.FrozenReadsAdded` | htsim/sim/buffer_reps.cpp:161-198 | frozen reads return only values that were added |
| `RingModes.FrozenReadsGoRound` | htsim/sim/buffer_reps.cpp:161-200 | however often a frozen ring is read, it hands out the filled slots in turn, fresh or not, and changes neither their values nor their number |
| `RingModes.LifetimeCountsDraws` | htsim/sim/buffer_reps.cpp:97-107 | over every run of writes, draws in either mode, changes of mode and resets: the lifetime of a filled slot is the one that is set, less its draws since it was written if acknowledgements are compressed; if they are not, it is valid iff it has not been drawn |
| `RingModes.SettingsAfter` | htsim/sim/buffer_reps.h:92-97 | the lifetime that was set last counts, and compression is on for good once one above 1 was set |
| `RepsBuffers.CircularBufferREPS.Add` | htsim/sim/buffer_reps.cpp:25-55 | in place, equal to the specification |
| `RepsBuffers.CircularBufferREPS.RemoveEarliestFresh` | htsim/sim/buffer_reps.cpp:75-119 | in place, equal to the specification |
| `RepsBuffers.CircularBufferREPS.PeekEarliestFresh` | htsim/sim/buffer_reps.cpp:121-140 | read-only, equal to the specification |
| `RepsBuffers.CircularBufferREPS.RemoveFrozen` | htsim/sim/buffer_reps.cpp:161-198 | in place, equal to the specification |
| `RepsBuffers.CircularBufferREPS.ResetBuffer` | htsim/sim/buffer_reps.cpp:211-223 | the loop blanks every slot |
| `RepsBuffers.CircularBufferREPS.SetFrozenMode` | htsim/sim/buffer_reps.h:83-88 | freezes only if freezing is enabled |
| `RepsBuffers.CircularBufferREPS.GetFrozenEv` | htsim/sim/buffer_reps.h:72-75 | the value at the frozen cursor, or -1 |
| `RepsBuffers.CircularBufferREPS.NumValid` | htsim/sim/buffer_reps.cpp:257-265 | the counting loop returns the cached count |
| `RepsBuffers.CircularBufferREPS.GetSlots` | htsim/sim/buffer_reps.cpp:291-301 | a copy of every slot of the ring |
| `RepsTrace.VerifyEvents` | experiments/tools/reps_event_viewer.py:287-473 | for any rows: the loop reports exactly the violations of each event against the previous one of its source, in sorted order, and raises an exception iff the ring is used and a row makes it look past the last slot |
| `RepsTrace.RowPassesIff` | experiments/tools/reps_event_viewer.py:287-473 | the event of a buffer step breaks no rule, unless the buffer is live and the ring is frozen and empty or the step drew an entry that compressed acknowledgements leave valid |
| `RepsTrace.CheckerAcceptsIff` | experiments/tools/reps_event_viewer.py:275-473 | with every setting, the checker reads the trace of a run of any number of sources without an exception, and accepts it iff no ring was ever used, or no empty ring was frozen and no draw left its entry valid |
| `RepsTrace.EmptyFreezeIsRejected` | experiments/tools/reps_event_viewer.py:275-473 | a run of two sources that is rejected: one uses its ring, the other freezes an empty one |
| `RepsTrace.CompressedDrawIsRejected` | experiments/tools/reps_event_viewer.py:275-473 | and one that is rejected with compressed acknowledgements: an acknowledgement and a draw |
| `RepsTrace.FrozenEmptyOnlyByFreeze` | experiments/tools/reps_event_viewer.py:275-285 | a ring is frozen and empty only from freezing an empty ring on |
| `RepsTrace.SortedOfOrdered` | experiments/tools/reps_event_viewer.py:227-229 | events in order of time and row number stay as they are |
| `RepsTrace.SortedKeepsRows` | experiments/tools/reps_event_viewer.py:227-229 | sorting only permutes |
| `TraceRules.CheckerIsExact` | experiments/tools/reps_event_viewer.py:287-473 | for any rows: the checker fails iff a ring is in use and a row makes it look past the last slot, and otherwise reports exactly the rows that break a rule, each with that rule; the rules are stated on a row and the row of its source before it |
| `TraceRules.AcceptedIsRight` | experiments/tools/reps_event_viewer.py:287-473 | if nothing is reported about a trace with a ring in use, no row breaks any rule |
| `TraceRules.ReportedIff` | experiments/tools/reps_event_viewer.py:287-473 | the same for one row: the slot before head holds the acknowledged entropy, a draw takes the oldest fresh entry and only marks it, marked and refused packets and random draws leave the slots alone, a frozen read leaves the slot it read invalid, the reported frozen value is the one under the cursor |
| `TraceRules.ForgedAckIsReported` | experiments/tools/reps_event_viewer.py:437-447 | the trace of any run with another entropy written into one unmarked acknowledgement is read without an exception, and that row is reported |
| `TraceRules.SortedIsInOrder` | experiments/tools/reps_event_viewer.py:227-229 | sorted rows are in order of time and row number |
| `Failures.EveryRunStaysConnected` | htsim/sim/failuregenerator copy.cpp:1190-1239 | over every run of failures, degradations, periodic failures and recoveries every source keeps a path that avoids all faulty switches and cables |
| `Failures.RunNeverDisconnects` | htsim/sim/failuregenerator copy.cpp:1190-1239 | the same from any safe state: each live set lies within its possibly stale trial copy |
| `Failures.ConnectedAntimonotone` | htsim/sim/failuregenerator copy.cpp:1190-1239 | fewer faults never disconnect anybody |
| `Failures.AttemptIsExactIff` | htsim/sim/failuregenerator copy.cpp:183-205 | an attempt of any of the six kinds decides rightly in every network iff no stale copy hits a switch or cable that the live sets and the new element leave alone |
| `Failures.StaleCopyRefuses` | htsim/sim/failuregenerator copy.cpp:233-256 | with stale copies an element is refused although the network could spare it |
| `Failures.StepKeepsSafe` | htsim/sim/failuregenerator copy.cpp:259-275 | every event of the injector keeps a safe state safe |
| `FaultLives.FaultAfter` | htsim/sim/failuregenerator copy.cpp:148-205 | an event changes no fault but that of its own element and kind: it starts it iff the element is sound, due, not ruled out and not known to be needed, and every source keeps a path in what the test looks at; it ends it iff its time is over |
| `FaultLives.NeededAfter` | htsim/sim/failuregenerator copy.cpp:178-197 | an element is set aside as needed iff it has been tried and some source would have lost its last path; a recovery forgets all of its class |
| `FaultLives.FaultLasts` | htsim/sim/failuregenerator copy.cpp:259-290 | over every run a fault stays as it is until a packet passes its element after its time, and a degradation for good |
| `FaultLives.NeededIsSpared` | htsim/sim/failuregenerator copy.cpp:178-197 | over every run until something of its class recovers, an element found to be needed stays sound |
| `FailureGenerators.FailureGenerator.CheckConnectivity` | htsim/sim/failuregenerator copy.cpp:1190-1239 | the loops answer yes iff every source has a usable path |
| `FailureGenerators.FailureGenerator.FailNewSwitch` | htsim/sim/failuregenerator copy.cpp:148-205 | in place, equal to the specification |
| `FailureGenerators.FailureGenerator.FailNewPeriodicSwitch` | htsim/sim/failuregenerator copy.cpp:207-257 | in place, equal to the specification |
| `FailureGenerators.FailureGenerator.FailNewCable` | htsim/sim/failuregenerator copy.cpp:583-673 | in place, equal to the specification |
| `FailureGenerators.FailureGenerator.FailNewPeriodicCable` | htsim/sim/failuregenerator copy.cpp:675-729 | in place, equal to the specification |
| `FailureGenerators.FailureGenerator.AtSwitchFail` | htsim/sim/failuregenerator copy.cpp:259-290 | recovery or a new attempt, equal to the specification and safe |
| `FailureGenerators.FailureGenerator.AtSwitchPeriodic` | htsim/sim/failuregenerator copy.cpp:404-448 | recovery or a new attempt, equal to the specification and safe |
| `FailureGenerators.FailureGenerator.AtSwitchDegradation` | htsim/sim/failuregenerator copy.cpp:337-402 | equal to the specification and safe |
| `FailureGenerators.FailureGenerator.AtCableFail` | htsim/sim/failuregenerator copy.cpp:737-775 | recovery or a new attempt, equal to the specification and safe |
| `FailureGenerators.FailureGenerator.AtCablePeriodic` | htsim/sim/failuregenerator copy.cpp:902-956 | recovery or a new attempt, equal to the specification and safe |
| `FailureGenerators.FailureGenerator.AtCableDegradation` | htsim/sim/failuregenerator copy.cpp:814-900 | equal to the specification and safe |
| `GrowRing.RingRefinesDeque` | htsim/sim/circular_buffer.h:32-75 | across any mix of pushes and pops at both ends, from any starting size, the ring is a double-ended queue that never fills up completely |
| `GrowRing.GrowKeeps` | htsim/sim/circular_buffer.h:35-53 | doubling keeps every element in its place in the order, also while wrapped |
| `GrowRing.PushAppends` | htsim/sim/circular_buffer.h:32-55 | a push appends; the ring doubles exactly when it would become full |
| `GrowRing.PopTakesOldest` | htsim/sim/circular_buffer.h:57-65 | a pop takes the oldest element |
| `GrowRing.PopFrontTakesNewest` | htsim/sim/circular_buffer.h:67-75 | a pop at the front takes back the newest element |
| `CircularBuffers.CircularBuffer.constructor` | htsim/sim/circular_buffer.h:23-30 | an empty buffer of the given size |
| `CircularBuffers.CircularBuffer.Push` | htsim/sim/circular_buffer.h:32-55 | in place, with reallocation: the contents gain the item at the end |
| `CircularBuffers.CircularBuffer.Grow` | htsim/sim/circular_buffer.h:35-53 | the copy loop moves the wrapped part to the new half |
| `CircularBuffers.CircularBuffer.Pop` | htsim/sim/circular_buffer.h:57-65 | returns and removes the first item, or fails on an empty buffer |
| `CircularBuffers.CircularBuffer.PopFront` | htsim/sim/circular_buffer.h:67-75 | returns and removes the last item, or fails on an empty buffer |
| `CircularBuffers.CircularBuffer.NextToPop` | htsim/sim/circular_buffer.h:82-85 | the first item |
| `CircularBuffers.CircularBuffer.IsEmpty` | htsim/sim/circular_buffer.h:87 | empty iff there are no contents |
| `CircularBuffers.CircularBuffer.Size` | htsim/sim/circular_buffer.h:88 | the number of items |
| `ServiceShares.FairShares` | htsim/sim/compositequeue.cpp:86-114 | over every run of choices, at most 100000 services of headers separate two of full packets while full packets wait, and the other way round at most one; with the ratio of the path-length queue, ten and one |
| `ServiceShares.BeginAbortsIff` | htsim/sim/compositequeue.cpp:86-114 | choosing a class fails iff nothing waits, and chooses a class with a packet |
| `ServiceShares.TurnIs` | htsim/sim/compositequeue.cpp:86-111 | over every run of choices each contested one goes to the class whose turn it is, counting contested choices only; an uncontested one goes to the class that has packets |
| `TrimmingQueue.EveryRunIsSafe` | htsim/sim/compositequeue.cpp:198-457 | with packets no larger than the low class: no run fails, counters equal the bytes queued, low occupancy exceeds the limit by at most the newest packet, the class in service has a packet, and every packet is queued, sent, returned or freed exactly once |
| `TrimmingQueue.RunKeeps` | htsim/sim/compositequeue.cpp:198-457 | the same for every run that has not failed, with packets of any size |
| `TrimmingQueue.ReceiveKeeps` | htsim/sim/compositequeue.cpp:253-457 | an arrival keeps the invariant, and runs into the assertion iff a packet larger than the whole low class finds it empty and the coin says to evict |
| `TrimmingQueue.EvictKeeps` | htsim/sim/compositequeue.cpp:305-365 | evicting succeeds iff the low class has a packet, and makes room for at least that one |
| `TrimmingQueue.CompleteKeeps` | htsim/sim/compositequeue.cpp:129-192 | the end of a service finds its class non-empty whatever was evicted meanwhile |
| `TrimmingQueue.FittingRunsSucceed` | htsim/sim/compositequeue.cpp:198-457 | no run fails while packets fit |
| `TrimmingQueue.NeverMarksByDefault` | htsim/sim/compositequeue.cpp:71-72 | with the constructor's thresholds no packet is ever marked, whatever the coins |
| `TrimmingQueue.DropsExactIff` | htsim/sim/compositequeue.cpp:331-357 | the drop counter counts every freed packet iff the failure generator did not free it and no evicted header was turned away |
| `TrimmingQueue.LowIsNotStarved` | htsim/sim/compositequeue.cpp:86-114 | over every run of the queue, at most `_ratio_high` services of headers separate two of full packets that wait |
| `TrimmingOrder.FirstInFirstOut` | htsim/sim/compositequeue.cpp:130-186 | over every run: the full packets sent, followed by those still in the low class, are a subsequence of the low class at the start followed by the arrivals; the headers sent, followed by the high class, are exactly the high class at the start followed by those that joined |
| `TrimmingOrder.ArrivalArrives` | htsim/sim/compositequeue.cpp:196-430 | what an arrival does to both classes: it keeps its payload iff it fits or the toss is for it; otherwise exactly one packet, it or the newest of the low class, is cut to the trim size, and its header joins the high class iff there is room, or else goes back to its sender or is dropped |
| `TrimmingOrder.MarkedIff` | htsim/sim/compositequeue.cpp:113-146 | a packet leaves marked iff it is a full one and the full packets left behind exceed the upper threshold, or the lower one and the toss says so |
| `TrimmingOrder.SmallTrimsFail` | htsim/sim/compositequeue.cpp:320-360 | a trim size below 64 makes exactly those arrivals fail that have to trim a packet, or find none to evict |
| `CompositeQueues.CompositeQueue.constructor` | htsim/sim/compositequeue.cpp:54-84 | empty, idle, with the invariant |
| `CompositeQueues.CompositeQueue.BeginService` | htsim/sim/compositequeue.cpp:86-114 | in place, equal to the specification |
| `CompositeQueues.CompositeQueue.CompleteService` | htsim/sim/compositequeue.cpp:129-192 | in place over two growable rings, equal to the specification |
| `CompositeQueues.CompositeQueue.Evict` | htsim/sim/compositequeue.cpp:305-365 | in place, equal to the specification |
| `CompositeQueues.CompositeQueue.AdmitFull` | htsim/sim/compositequeue.cpp:275-404 | in place, equal to the specification |
| `CompositeQueues.CompositeQueue.AdmitHeader` | htsim/sim/compositequeue.cpp:405-456 | in place, equal to the specification |
| `CompositeQueues.CompositeQueue.ReceivePacket` | htsim/sim/compositequeue.cpp:198-457 | in place, equal to the specification |
| `PathQueue.EveryRunIsSafe` | htsim/sim/compositeprioqueue.cpp:99-333 | with packets of one size, of which the queue holds one to eight, and paths of 1 to 19 hops: no run fails, histogram and cached maximum describe the queue, and every packet is queued, sent or freed exactly once |
| `PathQueue.RunKeeps` | htsim/sim/compositeprioqueue.cpp:99-333 | the same for every run that has not failed, with any sizes and paths |
| `PathQueue.CheckPassesIff` | htsim/sim/compositeprioqueue.cpp:262-272 | with correct bookkeeping the program's own check passes iff at most eight packets wait |
| `PathQueue.EnqueueTracks` | htsim/sim/compositeprioqueue.cpp:186-198 | enqueueing keeps the bookkeeping, and fails iff the path has 20 hops or more or eight packets wait already |
| `PathQueue.RemoveTracks` | htsim/sim/compositeprioqueue.cpp:200-260 | removing any packet keeps the bookkeeping, recomputing the maximum only when its last packet leaves |
| `PathQueue.TopIsLongest` | htsim/sim/compositeprioqueue.cpp:244-259 | the search down the histogram finds the longest queued path |
| `PathQueue.TrimKeeps` | htsim/sim/compositeprioqueue.cpp:275-333 | trimming finds a victim iff some queued path is longer than asked |
| `PathQueue.ReceiveKeeps` | htsim/sim/compositeprioqueue.cpp:100-183 | an arrival keeps the invariant, and fails exactly under a guard that can be checked before |
| `PathQueue.ShorterPathsPrevail` | htsim/sim/compositeprioqueue.cpp:104-157 | on a full queue an arrival keeps its payload iff some queued path is longer, or the newest is equal and it wins the toss; it then displaces the newest packet with a longer (or equal) path |
| `PathQueue.CompleteKeeps` | htsim/sim/compositeprioqueue.cpp:71-92 | the end of a service finds its class non-empty |
| `PathQueue.RegularArrivalSucceeds` | htsim/sim/compositeprioqueue.cpp:100-183 | with regular packets no arrival fails |
| `PathOrder.FirstInFirstOut` | htsim/sim/compositeprioqueue.cpp:71-92 | over every run: the full packets sent, followed by those still waiting, are a subsequence of those that waited and arrived, and the headers exactly those that waited and joined |
| `PathOrder.ArrivalEnters` | htsim/sim/compositeprioqueue.cpp:100-183 | what an arrival does to both classes, the header of the packet that loses its payload joining the high class iff there is room |
| `PathOrder.LinkIsShared` | htsim/sim/compositeprioqueue.cpp:39-69 | over every run at most ten services of headers separate two of full packets while both wait, and at most one the other way round |
| `PathOrder.SeenIsLongest` | htsim/sim/compositeprioqueue.cpp:186-198 | the longest path seen is that of all packets that have entered the low class, and no arrival or service forgets it |
| `CompositePrioQueues.CompositePrioQueue.FindMaxPathLenQueued` | htsim/sim/compositeprioqueue.cpp:245-259 | the downward loop, equal to the specification |
| `CompositePrioQueues.CompositePrioQueue.EnqueuePacket` | htsim/sim/compositeprioqueue.cpp:186-198 | in place, equal to the specification |
| `CompositePrioQueues.CompositePrioQueue.RemoveLow` | htsim/sim/compositeprioqueue.cpp:200-217 | in place, equal to the specification |
| `CompositePrioQueues.CompositePrioQueue.TrimLowPriorityPacket` | htsim/sim/compositeprioqueue.cpp:275-333 | the search loop and the trim, equal to the specification |
| `CompositePrioQueues.CompositePrioQueue.CompleteService` | htsim/sim/compositeprioqueue.cpp:71-92 | in place, equal to the specification |
| `CompositePrioQueues.CompositePrioQueue.ReceivePacket` | htsim/sim/compositeprioqueue.cpp:100-183 | in place, equal to the specification |
| `DelayWindow.RunKeepsSuffix` | htsim/sim/delay_median_buffer.h:30-50 | after any interleaving of pushes and capacity changes the window is the most recent part of the history, within its capacity |
| `DelayWindow.RunLength` | htsim/sim/delay_median_buffer.h:30-50 | and it is as long as there were samples, or as the least room there ever was since: the capacity plus the pushes after it |
| `DelayWindow.PushesFill` | htsim/sim/delay_median_buffer.h:45-50 | after as many pushes as its capacity the window is full |
| `DelayWindow.PushSlots` | htsim/sim/delay_median_buffer.h:45-50 | overwriting the slot at the head adds a sample and drops the oldest |
| `DelayWindow.ShrinkSlots` | htsim/sim/delay_median_buffer.h:30-42 | truncating the count keeps the most recent samples |
| `DelayWindow.PercentileHasRank` | htsim/sim/delay_median_buffer.h:54-66 | the percentile is the sample of rank min(n*p/100, n-1), counting in the window itself |
| `DelayWindow.RankIsUnique` | htsim/sim/delay_median_buffer.h:54-66 | only one value has a given rank, so the order in the window does not matter |
| `DelayWindow.PercentileMonotone` | htsim/sim/delay_median_buffer.h:54-66 | higher percentiles are no smaller |
| `DelayWindow.PercentileAbortsIff` | htsim/sim/delay_median_buffer.h:63-65 | the index is negative iff n*p <= -100 |
| `DelayWindow.SortSorts` | htsim/sim/delay_median_buffer.h:62 | the sort orders and permutes |
| `DelayBuffers.DelayMedianBuffer.SetCapacity` | htsim/sim/delay_median_buffer.h:30-42 | in place, equal to the specification |
| `DelayBuffers.DelayMedianBuffer.Push` | htsim/sim/delay_median_buffer.h:45-50 | in place, equal to the specification |
| `DelayBuffers.DelayMedianBuffer.Percentile` | htsim/sim/delay_median_buffer.h:54-66 | copies the ring in order, sorts and picks, equal to the specification |
| `DelayBuffers.DelayMedianBuffer.Median` | htsim/sim/delay_median_buffer.h:68 | the 50th percentile, which never fails |
| `Cdf.ValidIff` | traffic_gen/custom_random_number_generator.py:36-66 | the check fails iff the list is empty, and accepts iff it runs from 0 to 100 percent with values and percentages strictly increasing |
| `Cdf.MutualInverses` | traffic_gen/custom_random_number_generator.py:142-183 | for every accepted distribution with first value >= 0 the two directions undo each other, on all percentages from 0 to 100 and all values from the first to the last |
| `Cdf.BothRise` | traffic_gen/custom_random_number_generator.py:142-183 | both directions are strictly increasing |
| `Cdf.ValueIsNoneIff` | traffic_gen/custom_random_number_generator.py:142-160 | there is no value iff the percentage is above 100; below 0 the program extrapolates instead of returning None |
| `Cdf.PercentileInRangeIff` | traffic_gen/custom_random_number_generator.py:162-183 | the percentage lies between 0 and 100 iff the value lies between the first and the last and is not negative |
| `Cdf.OutOfRangeIff` | traffic_gen/custom_random_number_generator.py:162-183 | the promised -1 is returned for every value out of range iff the first value is not above 0 |
| `Cdf.InRangeIff` | traffic_gen/custom_random_number_generator.py:162-183 | every value in range gets a percentage from 0 to 100 iff the first value is not below 0 |
| `Cdf.ExtrapolatesBelowFirst` | traffic_gen/custom_random_number_generator.py:172-183 | when the first value is above 0, some value below it gets another answer than the promised -1 |
| `Cdf.LineForms` | traffic_gen/custom_random_number_generator.py:157-183 | both ways the program writes the interpolation are the same line |
| `Cdf.MeanInRange` | traffic_gen/custom_random_number_generator.py:109-130 | the mean lies between the smallest and the largest value |
| `Cdf.RefineKeepsMean` | traffic_gen/custom_random_number_generator.py:109-130 | inserting an interpolated point does not change the mean |
| `Cdf.RefineKeepsLookups` | traffic_gen/custom_random_number_generator.py:142-160 | nor any lookup |
| `CustomRandom.CustomRandomNumberGenerator.IsValidCdf` | traffic_gen/custom_random_number_generator.py:36-66 | the loop decides validity; the empty list fails although the documentation says False |
| `CustomRandom.CustomRandomNumberGenerator.SetCdf` | traffic_gen/custom_random_number_generator.py:68-81 | takes the list over iff it is valid |
| `CustomRandom.CustomRandomNumberGenerator.CalculateAverageValue` | traffic_gen/custom_random_number_generator.py:109-130 | the accumulating loop computes the mean |
| `CustomRandom.CustomRandomNumberGenerator.GetValueFromPercentile` | traffic_gen/custom_random_number_generator.py:142-160 | the scan equals the specification |
| `CustomRandom.CustomRandomNumberGenerator.GetPercentileFromValue` | traffic_gen/custom_random_number_generator.py:162-183 | the scan equals the specification |

## Left out

- Protocol.RunKeepsInv: holds for runs in which packets arrive within the receive window's reach; outside it the invariant does not hold (`Reach.PacketIsLost`). When runs stay inside is `Reach.NarrowStaysInReach` and `Reach.ShortFlowsStayInReach`.
- Reach.EveryRunDelivers: says what a run that has not failed has delivered; the ways of failing are in `Hazards.RunAbortsIff`. That every flow finishes on a fair network is false; which flows can be left with data unsent and nothing under way is `AsksForCredit.StarvesIff`. That the network is fair is not modelled: that some continuation finishes a flow is `CanFinish.CanAlwaysFinish`, not that every long run does.
- AsksForCredit.StarvesIff: is about sizes as the program has them (packets under 65536 bytes, a window below where pull numbers start) and a congestion window that starts no smaller than the initial window, as the program sets it.
- NeverStalls.StallsIff: is about packets of at least 512 bytes, windows that are never negative, sizes and start windows as in `AsksForCredit.StarvesIff`, and runs without the two mishaps. With a mishap a larger flow need not stall; that it can is shown for windows that take fifteen packets, of 1024 bytes or more, and ten quanta, with the congestion window as small as one packet at times (`TrimmedStall.OvertakingStalls`, `TrimmedStall.EarlyStalls`); that it cannot, for windows smaller than the first and last packets together (`NeverStuck.NarrowNeverStalls`). What a mishap does under the windows in between is not stated.
- NeverStuck.StuckIff: is about windows of at least a packet whose remainder modulo 512 is no larger than the last packet. Nothing is stated about windows between half a packet and those.
- CanFinish.CanAlwaysFinish: is about such windows, of at most half of what pull numbers start from, about flows that were granted their first packet at the start, and about states whose pull numbers leave room in the 64-bit field for the rest of the flow. Packets of the past stay deliverable, so the continuation may deliver a copy that another network would have lost; the source would have to time out first.
- CardedStalls.StallsWithCardIff: is about a card with a free port when the flow starts. The two mishaps are not shown to stall a larger flow with a card.
- CardedProtocol.EveryRunIsSafe: the other sources of the card are arbitrary decisions, and the order of card, timer and network events is free: that a packet takes time to leave is not tied to its arrival.
- AckCoverage.UnansweredAreFew: is about packets of at most 49152 bytes; with larger ones the counter of two bytes may run over. All of AckCoverage is about packets less than 4096 above the next expected number.
- PullOrder.ActiveInTurn: leaves out requests for retransmission, which take precedence; `PullOrder.RtxInTurn` is about them.
- CreditLoop.DemandIsGranted: is about a pacer whose congestion control never says to skip a pull, with nothing else arriving in between.
- PullPacer.PacerDrains: is about a pacer whose congestion control never says to skip a pull; with skipping, an event may make no progress.
- RepsTrace.CheckerAcceptsIff: is about traces without the optional FIFO column, which the ring does not write.
- RepsTrace.VerifyEvents: reports violations as rule names per event, not as message texts; reading and filtering the CSV file is not modelled.
- Timer instants: which timeout fires when (`startRTO`, `recalculateRTO`, `cancelRTO`) is not modelled; a timeout may happen whenever a send time is recorded. Round-trip times and the once-per-round-trip limit on requests-to-send are an argument (`recent`), which is false before the first of them.
- Congestion control (SmaRTT, DCTCP, DCQCN and the receiver's share): floating point; the window is an arbitrary argument.
- Path entropies, routes, ECN penalties and statistics counters: no part in the proved properties.
- Drain times of queues and ports other than the end times of card ports: only the order of events matters here. The packet in service may be evicted and another one leave in its place at the time computed for it.
- The failure injector's probabilities, drop decisions for single packets, degradation of bit rates, network-card failures and the replay of failure lists from a file: arguments (`refused`, `due`) or no part of connectivity. The map from path numbers to switches and cables is fixed.
- CompositePrioQueues: counters of acknowledgements, headers, drops and stripped packets are not modelled.
- CompositeQueues: counters of served packets, benchmark-only drops keyed on queue names, and data collection are not modelled.
- `CircularBufferREPS::remove`, `remove_earliest_round`, `mostValidIdx`: dead code or a random probe without a measure.
- Cdf: exact reals instead of floating point; reading distributions from files and drawing random numbers are not modelled.
- DelayWindow.Sort: stands for the library's sort; only that it orders and permutes is used.
- `ECNQueue`, `AeolusQueue`, `ECNPrioQueue`, `CutPayloadQueue`, topologies, pipes, loggers, plotting and workload scripts: easier repeats of the above, or no invariant beyond plumbing.
- htsim/sim/uec.cpp: the driver that freezes and unfreezes the entropy buffer is an arbitrary caller.
