/** The QSO handler's variables and the routines that update them, proved against the machine. */
module QsoHandlers {
  import opened CallIds
  import opened Qso

  class QsoHandler {
    const rcall: string
    const dialFreq: int
    const peers: array<nat>
    var qsoState: QsoState
    var currentQSO: Message
    var ft8time: nat
    var ft8tick: nat
    var txBusy: bool
    var peersIdx: nat
    var autoCq: bool
    var autoCqReply: bool
    var autoQSO: bool
    var activeSlot: Slot
    var queryRepeat: nat
    var txQueue: seq<Tx>
    var tickQueue: seq<Slot>
    var qsohQueue: seq<Message>

    ghost predicate Valid()
      reads this
    {
      peersIdx < peers.Length == MAXQSOPEERS
    }

    ghost function State(): (m: Machine)
      reads this, peers
      requires Valid()
      ensures Ready(m.peers)
    {
      Machine(Contact(qsoState, currentQSO, ft8time), Peers(peers[..], peersIdx),
              Settings(autoCq, autoCqReply, autoQSO, activeSlot), ft8tick, txBusy, queryRepeat, txQueue)
    }

    constructor (rcall: string, dialFreq: int)
      ensures Valid() && State() == Init() && fresh(peers) && this.rcall == rcall && this.dialFreq == dialFreq
      ensures tickQueue == [] && qsohQueue == []
    {
      this.rcall, this.dialFreq := rcall, dialFreq;
      peers := new nat[MAXQSOPEERS](i => 0);
      qsoState, currentQSO, ft8time, ft8tick, txBusy := Idle, NO_PEER, 0, 0, false;
      peersIdx, autoCq, autoCqReply, autoQSO, activeSlot, queryRepeat := 0, false, false, false, Even, 0;
      txQueue, tickQueue, qsohQueue := [], [], [];
      new;
      assert peers[..] == seq(MAXQSOPEERS, i => 0);
    }

    method CheckPeer(thePeer: string) returns (known: bool)
      requires Valid()
      ensures known == Qso.CheckPeer(State().peers, thePeer)
    {
      hide HashCallId;
      var theHash := ComputeHashCallId(thePeer);
      var i := 0;
      while i < peersIdx
        invariant i <= peersIdx && theHash !in peers[..i]
      {
        if peers[i] == theHash {
          assert peers[..peersIdx][i] == theHash;
          return true;
        }
        i := i + 1;
      }
      return false;
    }

    method AddPeer(newPeer: string) returns (added: bool)
      requires Valid()
      modifies this`peersIdx, peers
      ensures Valid() && State() == old(State()).(peers := Qso.AddPeer(old(State()).peers, newPeer))
      ensures added == !Qso.CheckPeer(old(State()).peers, newPeer)
    {
      hide HashCallId, Qso.CheckPeer;
      var known := CheckPeer(newPeer);
      if known {
        return false;
      }
      peers[peersIdx] := ComputeHashCallId(newPeer);
      peersIdx := peersIdx + 1;
      if peersIdx >= MAXQSOPEERS {
        peersIdx := 0;
      }
      return true;
    }

    method ResetQsoState()
      requires Valid()
      modifies this`qsoState, this`currentQSO, this`ft8time
      ensures Valid() && State() == old(State()).(qso := Qso.ResetQsoState(ft8tick))
    {
      qsoState := Idle;
      currentQSO := NO_PEER;
      ft8time := ft8tick;
    }

    method AddQso(newQso: Message)
      requires Valid()
      modifies this`qsoState, this`currentQSO, this`ft8time, this`peersIdx, peers
      ensures Valid()
      ensures var (qso, known) := Qso.AddQso(old(State()).qso, old(State()).peers, old(State()).auto, ft8tick, newQso);
              State() == old(State()).(qso := qso, peers := known)
    {
      hide HashCallId, Qso.CheckPeer, Qso.AddPeer, ParseMsg;
      if !autoQSO {
        return;
      }
      if newQso.slot != activeSlot {
        return;
      }
      if qsoState == Idle {
        var known := CheckPeer(newQso.src);
        if known {
          return;
        }
        ft8time := ft8tick + MAXQSOLIFETIME;
        currentQSO := newQso;
        match ParseMsg(currentQSO.message) {
          case LocMsg => qsoState := ReplySig;
          case SigMsg => qsoState := ReplySig;
          case _ =>
        }
      } else {
        if newQso.src != currentQSO.src {
          return;
        }
        currentQSO := currentQSO.(message := newQso.message);
        match ParseMsg(currentQSO.message) {
          case LocMsg => qsoState := ReplySig;
          case SigMsg =>
            if qsoState == ReplySig {
              qsoState := ReplyRR73;
            } else {
              qsoState := ReplySig;
            }
          case RR73Msg =>
            qsoState := Reply73;
            var added := AddPeer(newQso.src);
          case S73Msg => ResetQsoState();
          case _ => ResetQsoState();
        }
      }
    }

    method AddCQ(newQso: Message)
      requires Valid()
      modifies this`qsoState, this`currentQSO, this`ft8time
      ensures Valid()
      ensures var m := old(State());
              State() == m.(qso := Qso.AddCQ(m.qso, m.peers, m.auto, ft8tick, newQso))
    {
      hide HashCallId, Qso.CheckPeer;
      if !autoCqReply {
        return;
      }
      if qsoState != Idle {
        return;
      }
      if newQso.slot != activeSlot {
        return;
      }
      var known := CheckPeer(newQso.src);
      if known {
        return;
      }
      ft8time := ft8tick + MAXQSOLIFETIME;
      currentQSO := newQso.(dest := "", message := "CQ");
      qsoState := ReplyLoc;
    }

    method QueueTx(tx: Tx)
      modifies this`txQueue
      ensures txQueue == old(txQueue) + [tx]
    {
      txQueue := txQueue + [tx];
    }

    method HandleTx(txSlot: Slot) returns (busy: bool)
      requires Valid()
      modifies this`qsoState, this`txQueue
      ensures Valid()
      ensures var (replies, state, b) := Qso.HandleTx(old(State()).qso, txSlot);
              && busy == b
              && State() == old(State()).(qso := old(State()).qso.(state := state), tx := old(txQueue) + replies)
    {
      var txFreq := currentQSO.freq;
      if qsoState == Idle {
        return false;
      }
      if currentQSO.slot == txSlot {
        match qsoState {
          case ReplyLoc => QueueTx(Reply(txFreq, currentQSO.src, SendLoc));
          case ReplySig => QueueTx(Reply(txFreq, currentQSO.src, SendReport(currentQSO.snr)));
          case ReplyRR73 => QueueTx(Reply(txFreq, currentQSO.src, SendRR73));
          case Reply73 =>
            qsoState := Idle;
            QueueTx(Reply(txFreq, currentQSO.src, Send73));
          case CqIng => qsoState := Idle;
        }
      }
      if qsoState == Idle {
        return false;
      }
      return true;
    }

    method QueryCQ(theSlot: Slot)
      requires Valid()
      modifies this`txQueue, this`queryRepeat
      ensures Valid() && State() == Qso.QueryCQ(old(State()), theSlot, dialFreq)
    {
      if !autoCq {
        return;
      }
      if theSlot != activeSlot {
        return;
      }
      if ft8tick >= queryRepeat {
        QueueTx(Cq(dialFreq));
        queryRepeat := ft8tick + QUERYCQDELAY;
      }
    }

    method UpdateQsoMachine(theSlot: Slot)
      requires Valid()
      modifies this`qsoState, this`currentQSO, this`ft8time, this`txBusy, this`txQueue, this`queryRepeat
      ensures Valid() && State() == Update(old(State()), theSlot, dialFreq)
    {
      hide Qso.HandleTx, Qso.QueryCQ;
      ghost var m := State();
      if ft8tick >= ft8time {
        ResetQsoState();
        txBusy := false;
      } else if theSlot == activeSlot {
        txBusy := HandleTx(theSlot);
      } else {
        txBusy := false;
      }
      assert State() == Settle(m, theSlot);
      if !txBusy {
        if theSlot == activeSlot {
          QueryCQ(theSlot);
        }
      }
    }

    /** One message: a CQ, one for us, or neither. */
    method Dispatch(msg: Message)
      requires Valid()
      modifies this`qsoState, this`currentQSO, this`ft8time, this`peersIdx, peers
      ensures Valid() && State() == Hear(old(State()), msg, rcall)
    {
      hide Qso.AddCQ, Qso.AddQso;
      if msg.dest == "CQ" {
        AddCQ(msg);
      } else if msg.dest == rcall {
        AddQso(msg);
      }
    }

    /** Counts the ticks waiting and returns the slot of the last. */
    method DrainTicks() returns (slot: Slot)
      requires Valid() && tickQueue != []
      modifies this`tickQueue, this`ft8tick
      ensures Valid() && tickQueue == [] && slot == old(tickQueue[|tickQueue| - 1])
      ensures State() == old(State()).(tick := old(ft8tick) + |old(tickQueue)|)
    {
      ghost var m := State();
      slot := tickQueue[|tickQueue| - 1];
      while tickQueue != []
        invariant Valid() && |tickQueue| <= old(|tickQueue|)
        invariant tickQueue == old(tickQueue)[old(|tickQueue|) - |tickQueue|..]
        invariant tickQueue == [] ==> slot == old(tickQueue[|tickQueue| - 1])
        invariant State() == m.(tick := m.tick + old(|tickQueue|) - |tickQueue|)
        decreases |tickQueue|
      {
        slot := tickQueue[0];
        tickQueue := tickQueue[1..];
        ft8tick := ft8tick + 1;
      }
    }

    /** Feeds the machine with all messages waiting. */
    method DrainMessages()
      requires Valid()
      modifies this`qsohQueue, this`qsoState, this`currentQSO, this`ft8time, this`peersIdx, peers
      ensures Valid() && qsohQueue == [] && State() == HearAll(old(State()), old(qsohQueue), rcall)
    {
      hide Hear, HearAll;
      ghost var m, msgs := State(), qsohQueue;
      HearNothing(m, rcall);
      assert msgs[..0] == [];
      while qsohQueue != []
        invariant Valid() && |qsohQueue| <= |msgs|
        invariant qsohQueue == msgs[|msgs| - |qsohQueue|..]
        invariant State() == HearAll(m, msgs[..|msgs| - |qsohQueue|], rcall)
        decreases |qsohQueue|
      {
        ghost var k := |msgs| - |qsohQueue|;
        var msg := qsohQueue[0];
        qsohQueue := qsohQueue[1..];
        HearNext(m, msgs, k, rcall);
        Dispatch(msg);
      }
      assert msgs[..|msgs|] == msgs;
    }

    /** One pass of the handler thread: all ticks, all messages, then the machine. */
    method QSOHandler()
      requires Valid() && tickQueue != []
      modifies this, peers
      ensures Valid() && tickQueue == [] && qsohQueue == []
      ensures State() == Pass(old(State()), |old(tickQueue)| - 1, old(qsohQueue), old(tickQueue[|tickQueue| - 1]),
                              rcall, dialFreq)
    {
      hide HearAll, Update;
      var slot := DrainTicks();
      DrainMessages();
      UpdateQsoMachine(slot);
    }
  }
}
