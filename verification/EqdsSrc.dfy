/**
The sending end of EQDS as an object. Every method is proved against the functions of Sender.dfy;
a precondition `….Ok?` says that the program's assertions on that path hold, and the entry points
establish it from the invariant of SenderInvariant.dfy.
 */
module EqdsSrcs {
  import opened Outcomes
  import opened Quanta
  import opened Cyclic
  import opened Totals
  import opened Bits
  import S = Sender
  import I = SenderInvariant

  class EqdsSrc {
    const mss: Positive
    const maxWnd: nat
    const flowSize: nat

    var highestSent: nat
    var newPacketsSent: nat
    var rtsPacketsSent: nat
    var unsent: int
    var backlog: int
    var tx: map<nat, S.Record>
    var sendTimes: map<nat, nat>
    var rtxQueue: map<nat, nat>
    var inFlight: int
    var pull: nat
    var pullTarget: int
    var creditPull: int
    var creditSpec: int
    ghost var spent: nat
    var phase: S.Phase
    var speculating: bool
    var sendBlockedOnNic: bool
    var doneSending: bool

    constructor (mss: Positive, maxWnd: nat, flowSize: nat)
      ensures this.mss == mss && this.maxWnd == maxWnd && this.flowSize == flowSize
      ensures View() == S.Fresh(mss, maxWnd, flowSize)
    {
      this.mss, this.maxWnd, this.flowSize := mss, maxWnd, flowSize;
      highestSent, newPacketsSent, rtsPacketsSent, unsent, backlog := 0, 0, 0, 0, 0;
      tx, sendTimes, rtxQueue, inFlight := map[], map[], map[], 0;
      pull, pullTarget, creditPull, creditSpec, spent := INIT_PULL, INIT_PULL, 0, maxWnd, 0;
      phase, speculating, sendBlockedOnNic, doneSending := S.InitializeCredit, false, false, false;
    }

    ghost function View(): S.Sender
      reads this
    {
      S.Sender(mss, maxWnd, flowSize, highestSent, newPacketsSent, rtsPacketsSent, unsent, backlog,
               tx, sendTimes, rtxQueue, inFlight, pull, pullTarget, creditPull, creditSpec, spent,
               phase, speculating, sendBlockedOnNic, doneSending)
    }

    function Credit(): (c: int)
      reads this
      ensures c == View().Credit()
    {
      creditPull + creditSpec
    }

    // -------------------------------------------------------------- acknowledgements

    /** Takes one acknowledged packet off the books, if it is there. */
    method HandleAckno(ackno: nat) returns (size: nat)
      requires I.Flight(View())
      modifies this`tx, this`sendTimes, this`inFlight
      ensures View() == S.Drop(old(View()), {ackno}) && I.Flight(View())
      ensures size == S.Bytes(old(tx)) - S.Bytes(tx)
    {
      if ackno !in tx {
        assert tx - {ackno} == tx;
        size := 0;
        assert View().sendTimes == S.Drop(View(), {ackno}).sendTimes;
        return;
      }
      TotalSplit(tx, (r: S.Record) => r.size, ackno);
      size := tx[ackno].size;
      var sendTime := tx[ackno].sendTime;
      inFlight := inFlight - size;
      assert inFlight >= 0;
      tx := tx - {ackno};
      sendTimes := sendTimes - {sendTime};
    }

    method HandleCumulativeAck(cumAck: nat) returns (newlyAcked: nat)
      requires I.Flight(View())
      modifies this`tx, this`sendTimes, this`inFlight, this`rtxQueue
      ensures View() == S.HandleCumulativeAck(old(View()), cumAck) && I.Flight(View())
      ensures newlyAcked == S.Bytes(old(tx)) - S.Bytes(tx)
    {
      FreeRtxQueue(cumAck);
      newlyAcked := FreeOutstanding(cumAck);
    }

    /** Frees the outstanding packets in order until one is not acknowledged. */
    method FreeOutstanding(cumAck: nat) returns (newlyAcked: nat)
      requires I.Flight(View())
      modifies this`tx, this`sendTimes, this`inFlight
      ensures View() == S.Drop(old(View()), set q | q in old(tx) && q < cumAck) && I.Flight(View())
      ensures newlyAcked == S.Bytes(old(tx)) - S.Bytes(tx)
    {
      ghost var s := View();
      ghost var gone: set<nat> := {};
      newlyAcked := 0;
      S.DropNothing(s);
      while tx.Keys != {} && S.Least(tx.Keys) < cumAck
        invariant View() == S.Drop(s, gone) && I.Flight(View())
        invariant forall q :: q in gone ==> q < cumAck
        invariant newlyAcked == S.Bytes(s.tx) - S.Bytes(tx)
        decreases tx.Keys
      {
        var seqno := S.Least(tx.Keys);
        var size := HandleAckno(seqno);
        newlyAcked := newlyAcked + size;
        S.DropTwice(s, gone, {seqno});
        gone := gone + {seqno};
      }
      forall q | q in s.tx ensures q in gone <==> q < cumAck {
        if q !in gone {
          assert q in tx;
        }
      }
      S.DropSame(s, gone, set q | q in s.tx && q < cumAck);
    }

    /** Packets waiting to be resent that are cumulatively acknowledged need not be resent. */
    method FreeRtxQueue(cumAck: nat)
      modifies this`rtxQueue
      ensures rtxQueue == map q | q in old(rtxQueue) && q >= cumAck :: old(rtxQueue)[q]
    {
      while rtxQueue.Keys != {} && S.Least(rtxQueue.Keys) < cumAck
        invariant forall q :: q in rtxQueue ==> q in old(rtxQueue) && rtxQueue[q] == old(rtxQueue)[q]
        invariant forall q :: q in old(rtxQueue) && q >= cumAck ==> q in rtxQueue
        decreases rtxQueue.Keys
      {
        rtxQueue := rtxQueue - {S.Least(rtxQueue.Keys)};
      }
    }

    /** Walks the acknowledgement bitmap from its lowest bit, shifting it right until it is used up. */
    method HandleBitmap(refAck: nat, sackBitmap: nat) returns (newlyAcked: nat)
      requires I.Flight(View())
      modifies this`tx, this`sendTimes, this`inFlight
      ensures View() == S.HandleBitmap(old(View()), refAck, sackBitmap) && I.Flight(View())
      ensures newlyAcked == S.Bytes(old(tx)) - S.Bytes(tx)
    {
      var ackno, bitmap := refAck, sackBitmap;
      ghost var s := View();
      ghost var gone: set<nat> := {};
      newlyAcked := 0;
      S.DropNothing(s);
      while bitmap > 0
        invariant ackno >= refAck
        invariant forall i: nat :: Bit(bitmap, i) <==> Bit(sackBitmap, ackno - refAck + i)
        invariant forall q: nat :: q in gone <==> refAck <= q < ackno && Bit(sackBitmap, q - refAck)
        invariant View() == S.Drop(s, gone) && I.Flight(View())
        invariant newlyAcked == S.Bytes(s.tx) - S.Bytes(tx)
        decreases bitmap
      {
        S.BitAfterShift(bitmap, 0);
        assert Bit(bitmap, 0) <==> Bit(sackBitmap, ackno - refAck + 0);
        if bitmap % 2 == 1 {
          var size := HandleAckno(ackno);
          newlyAcked := newlyAcked + size;
          S.DropTwice(s, gone, {ackno});
          gone := gone + {ackno};
        }
        forall i: nat ensures Bit(bitmap / 2, i) <==> Bit(sackBitmap, ackno + 1 - refAck + i) {
          S.BitAfterShift(bitmap, i);
          assert ackno + 1 - refAck + i == ackno - refAck + (i + 1);
        }
        ackno, bitmap := ackno + 1, bitmap / 2;
      }
      forall q | q in s.tx ensures q in gone <==> q >= refAck && Bit(sackBitmap, q - refAck) {
        if q >= ackno {
          ZeroBit(q - ackno);
          assert Bit(bitmap, q - ackno) <==> Bit(sackBitmap, ackno - refAck + (q - ackno));
        }
      }
      S.DropSame(s, gone, set q | q in s.tx && q >= refAck && Bit(sackBitmap, q - refAck));
    }

    // -------------------------------------------------------------- credit

    method HandlePull(pullno: nat)
      modifies this`creditPull, this`pull
      ensures View() == S.HandlePull(old(View()), pullno)
    {
      if pullno > pull {
        creditPull := creditPull + Unquantize(pullno - pull);
        if creditPull > maxWnd {
          creditPull := maxWnd;
        }
        pull := pullno;
      }
    }

    method CheckFinished(cumAck: nat) returns (finished: bool)
      modifies this`phase, this`doneSending
      ensures View() == S.CheckFinished(old(View()), cumAck) && finished == doneSending
    {
      if doneSending {
        return true;
      }
      if (cumAck - rtsPacketsSent) * mss >= flowSize {
        phase, doneSending := S.Idle, true;
        return true;
      }
      return false;
    }

    method StopSpeculating()
      modifies this`phase, this`speculating
      ensures View() == S.StopSpeculating(old(View()))
    {
      speculating := false;
      if phase.Speculating? {
        phase := S.Committed;
      }
    }

    method SpendCredit(size: nat) returns (sent: bool, speculative: bool)
      requires S.SpendCredit(View(), size).Ok?
      modifies this`creditPull, this`creditSpec, this`spent
      ensures S.SpendCredit(old(View()), size) == Ok(S.Spending(View(), sent, speculative))
    {
      assert Credit() > 0;
      sent, speculative := true, false;
      if creditPull > 0 {
        assert phase.Committed?;
        creditPull := creditPull - size;
        spent := spent + size;
      } else if speculating && creditSpec > 0 {
        assert phase.Speculating?;
        creditSpec := creditSpec - size;
        speculative := true;
      } else {
        assert phase.Committed?;
        creditSpec := creditSpec - size;
        sent := false;
      }
    }

    /** Gives up speculative credit when the target would not move forward otherwise. */
    method ComputePullTarget(cc: S.Cc) returns (target: int)
      modifies this`creditSpec
      ensures (target, creditSpec) == S.ComputePullTarget(old(View()), backlog, cc)
    {
      var bytes := backlog;
      if cc.Window? && bytes > cc.cwnd + (mss + S.HDR_SIZE) {
        bytes := cc.cwnd + (mss + S.HDR_SIZE);
      }
      if bytes > maxWnd {
        bytes := maxWnd;
      }
      bytes := bytes - Credit() + Unquantize(pull);
      if !speculating && bytes - Unquantize(pullTarget) < PULL_QUANTUM && creditSpec > 0 {
        creditSpec := creditSpec - (mss + S.HDR_SIZE);
        bytes := bytes + (mss + S.HDR_SIZE);
      }
      target := QuantizeCeil(bytes);
    }

    method UpdatePullTarget(cc: S.Cc)
      modifies this`creditSpec, this`pullTarget
      ensures (pullTarget, creditSpec) == S.ComputePullTarget(old(View()), backlog, cc)
    {
      pullTarget := ComputePullTarget(cc);
    }

    method CreateSendRecord(seqno: nat, size: nat, now: nat)
      requires seqno !in tx
      modifies this`tx, this`sendTimes
      ensures tx == old(tx)[seqno := S.Record(size, now)]
      ensures sendTimes == S.AddSendTime(old(sendTimes), now, seqno)
    {
      tx := tx[seqno := S.Record(size, now)];
      if now !in sendTimes {
        sendTimes := sendTimes[now := seqno];
      }
    }

    // -------------------------------------------------------------- sending

    method SendNewPacket(now: nat, cc: S.Cc) returns (pkts: seq<S.Packet>)
      requires S.SendNew(View(), now, cc).Ok?
      modifies this
      ensures S.SendNew(old(View()), now, cc) == Ok((View(), pkts))
    {
      assert unsent > 0 && (highestSent - rtsPacketsSent) * mss < flowSize;
      var payload: int := mss;
      if unsent < payload {
        payload := unsent;
      }
      assert payload > 0;
      var sent, _ := SpendCredit(payload + S.HDR_SIZE);
      if !sent {
        return [];
      }
      pkts := LaunchNew(payload, now, cc);
    }

    method LaunchNew(payload: nat, now: nat, cc: S.Cc) returns (pkts: seq<S.Packet>)
      requires S.LaunchNew(View(), payload, now, cc).Ok?
      modifies this
      ensures S.LaunchNew(old(View()), payload, now, cc) == Ok((View(), pkts))
    {
      var size := payload + S.HDR_SIZE;
      AccountNew(payload, cc);
      pkts := [S.Data(highestSent, size, pullTarget, backlog == 0 || creditPull < 0)];
      RecordNew(size, now);
    }

    method AccountNew(payload: nat, cc: S.Cc)
      requires backlog - (payload + S.HDR_SIZE) >= 0 && backlog - (payload + S.HDR_SIZE) >= unsent - payload
      modifies this`backlog, this`unsent, this`inFlight, this`pullTarget, this`creditSpec
      ensures backlog == old(backlog) - (payload + S.HDR_SIZE) && unsent == old(unsent) - payload
      ensures inFlight == old(inFlight) + payload + S.HDR_SIZE
      ensures (pullTarget, creditSpec) == S.ComputePullTarget(old(View()), backlog, cc)
    {
      TakeFromBacklog(payload);
      S.PullTargetDependsOnCredit(old(View()), View(), backlog, cc);
      UpdatePullTarget(cc);
    }

    method RecordNew(size: nat, now: nat)
      requires highestSent !in tx
      modifies this`tx, this`sendTimes, this`highestSent, this`newPacketsSent
      ensures tx == old(tx)[old(highestSent) := S.Record(size, now)]
      ensures sendTimes == S.AddSendTime(old(sendTimes), now, old(highestSent))
      ensures highestSent == old(highestSent) + 1 && newPacketsSent == old(newPacketsSent) + 1
    {
      CreateSendRecord(highestSent, size, now);
      highestSent := highestSent + 1;
      newPacketsSent := newPacketsSent + 1;
    }

    method TakeFromBacklog(payload: nat)
      requires backlog - (payload + S.HDR_SIZE) >= 0 && backlog - (payload + S.HDR_SIZE) >= unsent - payload
      modifies this`backlog, this`unsent, this`inFlight
      ensures backlog == old(backlog) - (payload + S.HDR_SIZE) && unsent == old(unsent) - payload
      ensures inFlight == old(inFlight) + payload + S.HDR_SIZE
    {
      backlog := backlog - (payload + S.HDR_SIZE);
      assert backlog >= 0;
      unsent := unsent - payload;
      assert backlog >= unsent;
      inFlight := inFlight + payload + S.HDR_SIZE;
    }

    method SendRtxPacket(now: nat, cc: S.Cc) returns (pkts: seq<S.Packet>)
      requires S.SendRtx(View(), now, cc).Ok?
      modifies this
      ensures S.SendRtx(old(View()), now, cc) == Ok((View(), pkts))
    {
      assert rtxQueue.Keys != {};
      var seqno := S.Least(rtxQueue.Keys);
      var size := rtxQueue[seqno];
      var sent, speculative := SpendCredit(size);
      assert !speculative;
      if !sent {
        return [];
      }
      pkts := LaunchRtx(seqno, size, now, cc);
    }

    method LaunchRtx(seqno: nat, size: nat, now: nat, cc: S.Cc) returns (pkts: seq<S.Packet>)
      requires S.LaunchRtx(View(), seqno, size, now, cc).Ok?
      modifies this
      ensures S.LaunchRtx(old(View()), seqno, size, now, cc) == Ok((View(), pkts))
    {
      AccountRtx(seqno, size, cc);
      CreateSendRecord(seqno, size, now);
      pkts := [S.Data(seqno, size, pullTarget, true)];
    }

    method AccountRtx(seqno: nat, size: nat, cc: S.Cc)
      modifies this`rtxQueue, this`inFlight, this`pullTarget, this`creditSpec
      ensures rtxQueue == old(rtxQueue) - {seqno} && inFlight == old(inFlight) + size
      ensures (pullTarget, creditSpec) == S.ComputePullTarget(old(View()), backlog, cc)
    {
      rtxQueue := rtxQueue - {seqno};
      inFlight := inFlight + size;
      S.PullTargetDependsOnCredit(old(View()), View(), backlog, cc);
      UpdatePullTarget(cc);
    }

    method SendPacket(now: nat, cc: S.Cc) returns (pkts: seq<S.Packet>)
      requires S.SendPacket(View(), now, cc).Ok?
      modifies this
      ensures S.SendPacket(old(View()), now, cc) == Ok((View(), pkts))
    {
      if rtxQueue.Keys == {} {
        pkts := SendNewPacket(now, cc);
      } else {
        pkts := SendRtxPacket(now, cc);
      }
    }

    method SendRts(now: nat, recent: bool) returns (pkts: seq<S.Packet>)
      requires S.SendRts(View(), now, recent).Ok?
      modifies this`tx, this`sendTimes, this`highestSent, this`rtsPacketsSent
      ensures S.SendRts(old(View()), now, recent) == Ok((View(), pkts))
    {
      if recent {
        return [];
      }
      CreateSendRecord(highestSent, S.HDR_SIZE, now);
      pkts := [S.Rts(highestSent, pullTarget)];
      highestSent := highestSent + 1;
      rtsPacketsSent := rtsPacketsSent + 1;
    }

    /** `grant` is the interface card's answer. */
    method SendIfPermitted(now: nat, cc: S.Cc, grant: bool) returns (pkts: seq<S.Packet>)
      requires S.SendIfPermitted(View(), now, cc, grant).Ok?
      modifies this
      ensures S.SendIfPermitted(old(View()), now, cc, grant) == Ok((View(), pkts))
    {
      pkts := [];
      if Credit() <= 0 {
        return;
      }
      if cc.Window? && cc.cwnd <= inFlight {
        return;
      }
      if rtxQueue.Keys == {} && (backlog == 0 || unsent == 0) {
        return;
      }
      if sendBlockedOnNic {
        return;
      }
      if grant {
        pkts := SendPacket(now, cc);
      } else {
        sendBlockedOnNic := true;
      }
    }

    method QueueForRtx(seqno: nat, size: nat, now: nat, cc: S.Cc, grant: bool) returns (pkts: seq<S.Packet>)
      requires S.QueueForRtx(View(), seqno, size, now, cc, grant).Ok?
      modifies this
      ensures S.QueueForRtx(old(View()), seqno, size, now, cc, grant) == Ok((View(), pkts))
    {
      assert seqno !in rtxQueue;
      rtxQueue := rtxQueue[seqno := size];
      pkts := [];
      if !speculating {
        pkts := SendIfPermitted(now, cc, grant);
      }
    }

    // -------------------------------------------------------------- events

    /** The invariant of a sender, for some history of packet sizes. */
    ghost predicate Valid()
      reads this
    {
      I.Good(View()) && exists sizes :: I.Sized(View(), sizes)
    }

    method StartFlow(now: nat, cc: S.Cc, grants: nat) returns (pkts: seq<S.Packet>)
      requires View() == S.Fresh(mss, maxWnd, flowSize)
      modifies this
      ensures S.StartFlow(old(View()), now, cc, grants) == Ok((View(), pkts)) && Valid()
    {
      I.StartFlowGood(mss, maxWnd, flowSize, now, cc, grants);
      ReadyToStart();
      pkts := SendWhileGranted(now, cc, grants);
    }

    method ReadyToStart()
      modifies this
      ensures View() == S.ReadyToStart(old(View()))
    {
      ResetCredit();
      LoadFlow();
      phase, speculating, sendBlockedOnNic := S.Speculating, true, false;
    }

    method ResetCredit()
      modifies this`creditSpec, this`pullTarget, this`pull
      ensures creditSpec == maxWnd && pullTarget == INIT_PULL && pull == INIT_PULL
    {
      creditSpec, pullTarget, pull := maxWnd, INIT_PULL, INIT_PULL;
    }

    method LoadFlow()
      modifies this`inFlight, this`unsent, this`backlog
      ensures inFlight == 0 && unsent == flowSize && backlog == flowSize + S.HDR_SIZE * S.CeilDiv(flowSize, mss)
    {
      inFlight, unsent := 0, flowSize;
      backlog := flowSize + S.HDR_SIZE * S.CeilDiv(flowSize, mss);
    }

    /** What remains of the starting loop: it ends in `end` after sending `rest`. */
    ghost predicate Remaining(now: nat, cc: S.Cc, left: nat, end: S.Sender, rest: seq<S.Packet>)
      reads this
    {
      S.StartLoop(View(), now, cc, left) == Ok((end, rest))
    }

    method SendGranted(now: nat, cc: S.Cc, ghost left: nat, ghost end: S.Sender, ghost rest: seq<S.Packet>)
      returns (pkts: seq<S.Packet>, ghost rest': seq<S.Packet>)
      requires Credit() > 0 && unsent > 0 && left > 0 && Remaining(now, cc, left, end, rest)
      modifies this
      ensures Remaining(now, cc, left - 1, end, rest') && rest == pkts + rest'
    {
      S.StartLoopUnfolds(View(), now, cc, left);
      pkts := SendNewPacket(now, cc);
      rest' := S.StartLoop(View(), now, cc, left - 1).value.1;
    }

    /** The loop that starts a flow: the card grants `grants` packets and then says no. */
    method SendWhileGranted(now: nat, cc: S.Cc, grants: nat) returns (pkts: seq<S.Packet>)
      requires S.StartLoop(View(), now, cc, grants).Ok?
      modifies this
      ensures S.StartLoop(old(View()), now, cc, grants) == Ok((View(), pkts))
    {
      ghost var (end, all) := S.StartLoop(View(), now, cc, grants).value;
      ghost var rest := all;
      var left := grants;
      pkts := [];
      assert [] + all == all;
      while Credit() > 0 && unsent > 0 && left > 0
        invariant Remaining(now, cc, left, end, rest) && pkts + rest == all
        decreases left
      {
        ghost var rest';
        var sent;
        sent, rest' := SendGranted(now, cc, left, end, rest);
        assert (pkts + sent) + rest' == pkts + (sent + rest');
        left, pkts, rest := left - 1, pkts + sent, rest';
      }
      S.StartLoopEnds(View(), now, cc, left);
      assert rest == [] && pkts == all;
      if Credit() > 0 && unsent > 0 {
        sendBlockedOnNic := true;
      }
    }

    /** A sound acknowledgement never lies beyond what was sent; any other one may get here as well, and
        the specification says what then happens, as long as no assertion on the way fails. */
    method ProcessAck(cumAck: nat, refAck: nat, bitmap: nat, now: nat, cc: S.Cc, grant: bool)
      returns (pkts: seq<S.Packet>)
      requires Valid() && (cumAck <= highestSent || S.ProcessAck(View(), cumAck, refAck, bitmap, now, cc, grant).Ok?)
      modifies this
      ensures S.ProcessAck(old(View()), cumAck, refAck, bitmap, now, cc, grant) == Ok((View(), pkts))
      ensures cumAck <= old(highestSent) ==> Valid()
    {
      ghost var sizes :| I.Sized(View(), sizes);
      if cumAck <= highestSent {
        I.ProcessAckKeeps(View(), sizes, cumAck, refAck, bitmap, now, cc, grant);
      }
      var byCum := HandleCumulativeAck(cumAck);
      var bySack := HandleBitmap(refAck, bitmap);
      var finished := CheckFinished(cumAck);
      StopSpeculating();
      pkts := [];
      if !finished {
        pkts := SendIfPermitted(now, cc, grant);
      }
    }

    /** The program aborts on a refusal of a packet that is not outstanding. */
    method ProcessNack(seqno: nat, now: nat, cc: S.Cc, grant: bool, grant': bool) returns (pkts: seq<S.Packet>)
      requires Valid() && seqno in tx
      modifies this
      ensures S.ProcessNack(old(View()), seqno, now, cc, grant, grant') == Ok((View(), pkts)) && Valid()
    {
      ghost var sizes :| I.Sized(View(), sizes);
      I.ProcessNackSteps(View(), sizes, seqno, now, cc, grant, grant');
      var size := tx[seqno].size;
      assert size >= S.HDR_SIZE;
      var dropped := HandleAckno(seqno);
      StopSpeculating();
      var first := QueueForRtx(seqno, size, now, cc, grant);
      var second := SendIfPermitted(now, cc, grant');
      pkts := first + second;
    }

    method ProcessPull(pullno: nat, now: nat, cc: S.Cc, grant: bool) returns (pkts: seq<S.Packet>)
      requires Valid()
      modifies this
      ensures S.ProcessPull(old(View()), pullno, now, cc, grant) == Ok((View(), pkts)) && Valid()
    {
      ghost var sizes :| I.Sized(View(), sizes);
      I.ProcessPullKeeps(View(), sizes, pullno, now, cc, grant);
      HandlePull(pullno);
      StopSpeculating();
      pkts := SendIfPermitted(now, cc, grant);
    }

    /** The card calls back. The precondition excludes the case in which the program's assertion on
        speculative resends fails. */
    method TimeToSend(now: nat, cc: S.Cc) returns (pkts: seq<S.Packet>)
      requires Valid() && !I.SpeculativeHazard(View(), cc)
      modifies this
      ensures S.TimeToSend(old(View()), now, cc) == Ok((View(), pkts)) && Valid()
    {
      ghost var sizes :| I.Sized(View(), sizes);
      I.TimeToSendSteps(View(), sizes, now, cc);
      pkts := [];
      if unsent == 0 && rtxQueue.Keys == {} {
        return;
      }
      sendBlockedOnNic := false;
      if cc.Window? && cc.cwnd < inFlight {
        return;
      }
      if Credit() <= 0 {
        return;
      }
      pkts := SendPacket(now, cc);
      SendAgain(pkts, cc);
    }

    method SendAgain(pkts: seq<S.Packet>, cc: S.Cc)
      requires S.SendAgain(View(), pkts, cc).Ok?
      modifies this`sendBlockedOnNic
      ensures S.SendAgain(old(View()), pkts, cc) == Ok((View(), pkts))
    {
      if pkts == [] {
        return;
      }
      if cc.Window? && cc.cwnd < inFlight {
        return;
      }
      if Credit() <= 0 {
        return;
      }
      if unsent == 0 && rtxQueue.Keys == {} {
        assert backlog == 0;
        return;
      }
      sendBlockedOnNic := true;
    }

    /** The precondition excludes the cases in which an assertion on the way fails. */
    method RtxTimerExpired(now: nat, cc: S.Cc, grant: bool, grant': bool, recent: bool) returns (pkts: seq<S.Packet>)
      requires Valid() && sendTimes.Keys != {} && !I.ResendHazard(View(), cc, grant, grant')
      modifies this
      ensures S.TimerExpired(old(View()), now, cc, grant, grant', recent) == Ok((View(), pkts)) && Valid()
    {
      ghost var sizes :| I.Sized(View(), sizes);
      I.TimerAborts(View(), sizes, now, cc, grant, grant', recent);
      I.TimerExpiredSteps(View(), sizes, now, cc, grant, grant', recent);
      pkts := QueueOldest(now, cc, grant, grant', recent);
    }

    method QueueOldest(now: nat, cc: S.Cc, grant: bool, grant': bool, recent: bool) returns (pkts: seq<S.Packet>)
      requires I.Good(View()) && sendTimes.Keys != {} && S.TimerExpired(View(), now, cc, grant, grant', recent).Ok?
      modifies this
      ensures S.TimerExpired(old(View()), now, cc, grant, grant', recent) == Ok((View(), pkts))
    {
      var seqno, size := ForgetOldest();
      if rtxQueue.Keys != {} {
        pkts := QueueBehind(seqno, size, now, cc, grant, recent);
      } else {
        pkts := QueueAlone(seqno, size, now, cc, grant, grant', recent);
      }
    }

    /** The packet that has been out longest leaves the books; its bytes stay counted as in flight. */
    method ForgetOldest() returns (seqno: nat, size: nat)
      requires I.Good(View()) && sendTimes.Keys != {}
      modifies this`sendTimes, this`tx
      ensures var first := S.Least(old(sendTimes).Keys);
              && seqno == old(sendTimes)[first] && seqno in old(tx) && size == old(tx)[seqno].size
              && sendTimes == old(sendTimes) - {first} && tx == old(tx) - {seqno}
    {
      I.TimerFindsRecord(View());
      var first := S.Least(sendTimes.Keys);
      seqno := sendTimes[first];
      assert seqno in tx;
      size := tx[seqno].size;
      sendTimes := sendTimes - {first};
      tx := tx - {seqno};
    }

    method QueueBehind(seqno: nat, size: nat, now: nat, cc: S.Cc, grant: bool, recent: bool)
        returns (pkts: seq<S.Packet>)
      requires S.QueueBehind(View(), seqno, size, now, cc, grant, recent).Ok?
      modifies this
      ensures S.QueueBehind(old(View()), seqno, size, now, cc, grant, recent) == Ok((View(), pkts))
    {
      StopSpeculating();
      var sent := QueueForRtx(seqno, size, now, cc, grant);
      var more := SendRts(now, recent);
      pkts := sent + more;
    }

    method QueueAlone(seqno: nat, size: nat, now: nat, cc: S.Cc, grant: bool, grant': bool, recent: bool)
      returns (pkts: seq<S.Packet>)
      requires S.QueueAlone(View(), seqno, size, now, cc, grant, grant', recent).Ok?
      modifies this
      ensures S.QueueAlone(old(View()), seqno, size, now, cc, grant, grant', recent) == Ok((View(), pkts))
    {
      var sent := QueueForRtx(seqno, size, now, cc, grant);
      var more := AfterTimeout(size, now, cc, grant', recent);
      pkts := sent + more;
    }

    method AfterTimeout(size: nat, now: nat, cc: S.Cc, grant: bool, recent: bool) returns (pkts: seq<S.Packet>)
      requires S.AfterTimeout(View(), size, now, cc, grant, recent).Ok?
      modifies this
      ensures S.AfterTimeout(old(View()), size, now, cc, grant, recent) == Ok((View(), pkts))
    {
      if cc.Window? && cc.cwnd < size + inFlight {
        pkts := SendRts(now, recent);
      } else if creditPull <= 0 {
        pkts := SendRts(now, recent);
      } else if grant {
        pkts := SendRtxPacket(now, cc);
      } else {
        pkts := [];
      }
    }
  }
}
