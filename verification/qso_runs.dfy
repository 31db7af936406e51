/** Properties of every run of the QSO machine, stated on the trace of what it opened, heard and sent. */
module QsoRuns {
  import opened CallIds
  import opened Qso

  /** What our station is set to. */
  datatype Station = Station(rcall: string, dialFreq: int)

  datatype Event =
    | Passed(moreTicks: nat, msgs: seq<Message>, slot: Slot)
    | Switched(autoCq: bool, autoCqReply: bool, autoQso: bool)
    | SlotSet(slot: Slot)

  /** What is observed of a run: a QSO opens with a station, a message of its peer arrives in some state, and
      a reply or a CQ is queued. */
  datatype Entry =
    | Opened(call: string, freq: int, snr: int, byCq: bool, slot: Slot, tick: nat)
    | Heard(before: QsoState, kind: Kind)
    | Replied(freq: int, to: string, payload: Payload, tick: nat)
    | CalledCq(tick: nat)

  type Trace = seq<Entry>

  /** A message of the open QSO's peer to us that the machine accepts. */
  predicate FromPeer(m: Machine, msg: Message, rcall: string) {
    && msg.dest != "CQ" && msg.dest == rcall && m.auto.autoQso && msg.slot == m.auto.activeSlot
    && m.qso.state != Idle && msg.src == m.qso.current.src
  }

  function Opening(m: Machine, msg: Message): Entry {
    Opened(msg.src, msg.freq, msg.snr, msg.dest == "CQ", msg.slot, m.tick)
  }

  /** What hearing a message adds to the trace. */
  function HearEntries(m: Machine, msg: Message, n: Machine, rcall: string): Trace {
    if m.qso.state == Idle && n.qso.state != Idle then [Opening(m, msg)]
    else if FromPeer(m, msg, rcall) then [Heard(m.qso.state, ParseMsg(msg.message))]
    else []
  }

  /** What the transmissions queued since the i-th add to the trace. */
  function TxEntries(tx: seq<Tx>, i: nat, tick: nat): Trace
    requires i <= |tx|
    decreases |tx| - i
  {
    if i == |tx| then []
    else
      [Queued(tx[i], tick)] + TxEntries(tx, i + 1, tick)
  }

  function Queued(tx: Tx, tick: nat): Entry {
    match tx
    case Reply(freq, to, payload) => Replied(freq, to, payload, tick)
    case Cq(freq) => CalledCq(tick)
  }

  function HearTrace(m: Machine, msgs: seq<Message>, rcall: string): Trace
    requires Ready(m.peers)
  {
    hide Hear;
    if msgs == [] then []
    else
      var before := HearAll(m, msgs[..|msgs| - 1], rcall);
      HearTrace(m, msgs[..|msgs| - 1], rcall)
        + HearEntries(before, msgs[|msgs| - 1], Hear(before, msgs[|msgs| - 1], rcall), rcall)
  }

  /** What settling may change, and the reply it may queue. */
  lemma SettleFacts(m: Machine, slot: Slot)
    ensures var n := Settle(m, slot);
            && n == m.(qso := n.qso, tx := n.tx, txBusy := n.txBusy)
            && (n.tx == m.tx || (n.tx == m.tx + [Reply(m.qso.current.freq, m.qso.current.src, Due(m.qso))]
                                 && m.tick < m.qso.time && Replying(m.qso.state)
                                 && slot == m.auto.activeSlot == m.qso.current.slot))
            && (n.qso.state == Idle || (n.qso == m.qso && n.tick < n.qso.time))
            && (n.tx != m.tx && m.qso.state == Reply73 ==> n.qso.state == Idle)
            && (!n.txBusy && slot == n.auto.activeSlot ==> n.qso.state == Idle)
            && (m.qso.state != CqIng ==> SettlesExactly(m, slot, n))
  {
  }

  /** When exactly a reply is queued, when the QSO is closed, and when the transmitter is left free. */
  predicate SettlesExactly(m: Machine, slot: Slot, n: Machine) {
    && (n.tx != m.tx <==>
        m.tick < m.qso.time && m.qso.state != Idle && slot == m.auto.activeSlot && slot == m.qso.current.slot)
    && (n.qso.state == Idle <==>
        m.qso.state == Idle || m.tick >= m.qso.time || (n.tx != m.tx && m.qso.state == Reply73))
    && (slot == m.auto.activeSlot ==> (n.txBusy <==> n.qso.state != Idle))
  }

  lemma QueryFacts(m: Machine, slot: Slot, dialFreq: int)
    ensures var n := QueryCQ(m, slot, dialFreq);
            && n.(tx := m.tx, queryRepeat := m.queryRepeat) == m
            && ((n.tx == m.tx && n.queryRepeat == m.queryRepeat)
                || (n.tx == m.tx + [Cq(dialFreq)] && n.queryRepeat == m.tick + QUERYCQDELAY && m.queryRepeat <= m.tick
                    && slot == m.auto.activeSlot && m.auto.autoCq))
            && (n.tx != m.tx <==> m.auto.autoCq && slot == m.auto.activeSlot && m.queryRepeat <= m.tick)
  {
  }

  lemma TxGrows(m: Machine, slot: Slot, dialFreq: int)
    ensures |m.tx| <= |Update(m, slot, dialFreq).tx| && Update(m, slot, dialFreq).tx[..|m.tx|] == m.tx
    ensures Update(m, slot, dialFreq).tick == m.tick
  {
    hide Settle, QueryCQ;
    SettleFacts(m, slot);
    QueryFacts(Settle(m, slot), slot, dialFreq);
  }

  function UpdateTrace(m: Machine, slot: Slot, dialFreq: int): Trace {
    TxGrows(m, slot, dialFreq);
    hide Update;
    TxEntries(Update(m, slot, dialFreq).tx, |m.tx|, m.tick)
  }

  /** The run's machine and trace after its events. */
  function Run(st: Station, events: seq<Event>): (r: (Machine, Trace))
    ensures Ready(r.0.peers)
  {
    hide HearAll, HearTrace, Update, UpdateTrace;
    if events == [] then (Init(), [])
    else
      var (m, trace) := Run(st, events[..|events| - 1]);
      match events[|events| - 1]
      case Passed(more, msgs, slot) =>
        var ticked := m.(tick := m.tick + 1 + more);
        var heard := HearAll(ticked, msgs, st.rcall);
        UpdateReady(heard, slot, st.dialFreq);
        (Pass(m, more, msgs, slot, st.rcall, st.dialFreq),
         trace + HearTrace(ticked, msgs, st.rcall) + UpdateTrace(heard, slot, st.dialFreq))
      case Switched(cq, cqReply, qso) => (m.(auto := Settings(cq, cqReply, qso, m.auto.activeSlot)), trace)
      case SlotSet(slot) => (m.(auto := m.auto.(activeSlot := slot)), trace)
  }

  lemma UpdateReady(m: Machine, slot: Slot, dialFreq: int)
    requires Ready(m.peers)
    ensures Ready(Update(m, slot, dialFreq).peers)
  {
    hide Settle, QueryCQ;
    SettleFacts(m, slot);
    QueryFacts(Settle(m, slot), slot, dialFreq);
  }

  // ----- what every trace obeys -----

  /** The trace from the opening of the latest QSO on. */
  function Since(trace: Trace): Trace {
    if trace == [] then []
    else if trace[|trace| - 1].Opened? then [trace[|trace| - 1]]
    else if Since(trace[..|trace| - 1]) == [] then []
    else Since(trace[..|trace| - 1]) + [trace[|trace| - 1]]
  }

  /** Where the dialogue of a QSO stands: what opened it, the peer's messages and our 73 decide, and nothing else. */
  function Dialogue(qso: Trace): QsoState {
    if qso == [] then Idle else Onward(Dialogue(qso[..|qso| - 1]), qso[|qso| - 1])
  }

  function Onward(before: QsoState, e: Entry): QsoState {
    if e.Opened? then (if e.byCq then ReplyLoc else ReplySig)
    else if e.Heard? && before != Idle then AfterHearing(before, e.kind)
    else if e.Replied? && e.payload == Send73 then Idle
    else before
  }

  function AfterHearing(before: QsoState, kind: Kind): QsoState {
    match kind
    case LocMsg => ReplySig
    case SigMsg => if before == ReplySig then ReplyRR73 else ReplySig
    case RR73Msg => Reply73
    case _ => Idle
  }

  /** The answer a dialogue calls for; a report tells the level at which the peer was first heard. */
  function Answer(state: QsoState, snr: int): Payload {
    match state
    case ReplySig => SendReport(snr)
    case ReplyRR73 => SendRR73
    case Reply73 => Send73
    case _ => SendLoc
  }

  /** A reply belongs to the latest QSO: its peer and frequency, within its lifetime, the answer the dialogue calls
      for, and with the messages its kind presupposes already heard. */
  predicate ReplyLawful(qso: Trace, e: Entry)
    requires e.Replied?
  {
    && qso != [] && qso[0].Opened?
    && e.to == qso[0].call && e.freq == qso[0].freq
    && qso[0].tick <= e.tick < qso[0].tick + MAXQSOLIFETIME
    && Replying(Dialogue(qso)) && e.payload == Answer(Dialogue(qso), qso[0].snr)
    && (e.payload == SendRR73 ==> Heard(ReplySig, SigMsg) in qso)
    && (e.payload == Send73 ==> HeardRoger(qso))
  }

  predicate HeardRoger(qso: Trace) {
    exists i :: 0 <= i < |qso| && qso[i].Heard? && qso[i].kind == RR73Msg
  }

  predicate RepliesBefore(trace: Trace, tick: nat) {
    forall i :: 0 <= i < |trace| && trace[i].Replied? ==> trace[i].tick < tick
  }

  predicate CqsBefore(trace: Trace, tick: nat) {
    forall i :: 0 <= i < |trace| && trace[i].CalledCq? ==> trace[i].tick + QUERYCQDELAY <= tick
  }

  predicate EntryLawful(trace: Trace, e: Entry) {
    match e
    case Replied(_, _, _, tick) => ReplyLawful(Since(trace), e) && RepliesBefore(trace, tick)
    case CalledCq(tick) => CqsBefore(trace, tick)
    case _ => true
  }

  ghost predicate Lawful(trace: Trace) {
    forall i {:trigger trace[i]} :: 0 <= i < |trace| ==> EntryLawful(trace[..i], trace[i])
  }

  // ----- the invariant -----

  predicate Distinct(p: Peers)
    requires Ready(p)
  {
    forall i, j :: 0 <= i < j < p.idx ==> p.hashes[i] != p.hashes[j]
  }

  /** The open QSO as the trace knows it. */
  predicate OpenQso(c: Contact, tick: nat, qso: Trace) {
    && qso != [] && qso[0].Opened?
    && qso[0].call == c.current.src && qso[0].freq == c.current.freq && qso[0].snr == c.current.snr
    && qso[0].slot == c.current.slot && c.state == Dialogue(qso)
    && qso[0].tick <= tick && c.time == qso[0].tick + MAXQSOLIFETIME
    && (c.state == ReplyRR73 ==> Heard(ReplySig, SigMsg) in qso)
    && (c.state == Reply73 ==> HeardRoger(qso))
  }

  /** By the trace, the latest QSO is open: its dialogue has not ended and its time is not over. */
  predicate Live(qso: Trace, tick: nat) {
    qso != [] && qso[0].Opened? && Dialogue(qso) != Idle && tick < qso[0].tick + MAXQSOLIFETIME
  }

  /** The time of the next CQ is where the machine starts or three ticks after a CQ. */
  predicate CqReason(trace: Trace, t: nat) {
    t == 0 || (t >= QUERYCQDELAY && CalledCq(t - QUERYCQDELAY) in trace)
  }

  ghost predicate Inv(m: Machine, trace: Trace) {
    && Ready(m.peers) && Distinct(m.peers)
    && Lawful(trace)
    && m.qso.state != CqIng
    && (m.qso.state != Idle ==> OpenQso(m.qso, m.tick, Since(trace)))
    && (Live(Since(trace), m.tick) ==> m.qso.state != Idle)
    && CqsBefore(trace, m.queryRepeat) && CqReason(trace, m.queryRepeat)
  }

  lemma SinceGrows(trace: Trace, e: Entry)
    ensures Since(trace + [e]) ==
            if e.Opened? then [e] else if Since(trace) == [] then [] else Since(trace) + [e]
  {
    assert (trace + [e])[..|trace|] == trace;
  }

  lemma LawfulGrows(trace: Trace, e: Entry)
    requires Lawful(trace) && EntryLawful(trace, e)
    ensures Lawful(trace + [e])
  {
    hide EntryLawful;
    var t := trace + [e];
    forall i | 0 <= i < |t|
      ensures EntryLawful(t[..i], t[i])
    {
      if i < |trace| {
        assert t[..i] == trace[..i];
      } else {
        assert t[..i] == trace;
      }
    }
  }

  lemma HeardStays(qso: Trace, e: Entry)
    ensures HeardRoger(qso) ==> HeardRoger(qso + [e])
    ensures forall h :: h in qso ==> h in qso + [e]
    ensures e.Heard? && e.kind == RR73Msg ==> HeardRoger(qso + [e])
    ensures e in qso + [e]
  {
    if HeardRoger(qso) {
      var i :| 0 <= i < |qso| && qso[i].Heard? && qso[i].kind == RR73Msg;
      assert (qso + [e])[i] == qso[i];
    }
    assert (qso + [e])[|qso|] == e;
  }

  lemma DialogueGrows(qso: Trace, e: Entry)
    ensures Dialogue(qso + [e]) == Onward(Dialogue(qso), e)
  {
    assert (qso + [e])[..|qso|] == qso;
  }

  lemma AddPeerDistinct(p: Peers, call: string)
    requires Ready(p) && Distinct(p)
    ensures Distinct(AddPeer(p, call))
  {
    hide HashCallId;
    var h := HashCallId(call);
    if h !in p.hashes[..p.idx] {
      forall i | 0 <= i < p.idx
        ensures p.hashes[i] != h
      {
        assert p.hashes[..p.idx][i] == p.hashes[i];
      }
    }
  }

  /** What a message does to an open or a closed QSO, in the terms of the trace. */
  lemma ContactKept(m: Machine, msg: Message, rcall: string, qso: Trace, qso': Trace)
    requires Ready(m.peers) && m.qso.state != CqIng && (m.qso.state != Idle ==> OpenQso(m.qso, m.tick, qso))
    requires var n := Hear(m, msg, rcall);
             qso' == if m.qso.state == Idle && n.qso.state != Idle then [Opening(m, msg)]
                     else if FromPeer(m, msg, rcall) then qso + [Heard(m.qso.state, ParseMsg(msg.message))]
                     else qso
    ensures var n := Hear(m, msg, rcall);
            n.qso.state != CqIng && (n.qso.state != Idle ==> OpenQso(n.qso, n.tick, qso'))
            && (m.qso.state != Idle ==> n.qso.state == Dialogue(qso'))
  {
    hide HashCallId, ParseMsg, CheckPeer, AddPeer, HeardRoger, Dialogue;
    var e := Heard(m.qso.state, ParseMsg(msg.message));
    HeardStays(qso, e);
    DialogueGrows(qso, e);
    DialogueGrows([], Opening(m, msg));
    assert [] + [Opening(m, msg)] == [Opening(m, msg)];
  }

  /** One message keeps the invariant and queues nothing. */
  lemma HearKeeps(m: Machine, trace: Trace, msg: Message, rcall: string)
    requires Inv(m, trace)
    ensures var n := Hear(m, msg, rcall);
            Inv(n, trace + HearEntries(m, msg, n, rcall)) && n == m.(qso := n.qso, peers := n.peers)
    ensures forall t: nat :: RepliesBefore(trace, t) ==>
              RepliesBefore(trace + HearEntries(m, msg, Hear(m, msg, rcall), rcall), t)
  {
    hide HashCallId, ParseMsg, Lawful, HeardRoger, CheckPeer, Hear, OpenQso, Distinct;
    var n := Hear(m, msg, rcall);
    var entries := HearEntries(m, msg, n, rcall);
    HearFacts(m, msg, rcall);
    if entries == [] {
      assert trace + entries == trace;
    } else {
      var e := entries[0];
      assert entries == [e];
      SinceGrows(trace, e);
      LawfulGrows(trace, e);
      if m.qso.state != Idle {
        assert Since(trace) != [] by { assert OpenQso(m.qso, m.tick, Since(trace)); OpenHasStart(m, trace); }
      }
    }
    ContactKept(m, msg, rcall, Since(trace), Since(trace + entries));
  }

  lemma OpenHasStart(m: Machine, trace: Trace)
    requires OpenQso(m.qso, m.tick, Since(trace))
    ensures Since(trace) != []
  {
  }

  lemma HearFacts(m: Machine, msg: Message, rcall: string)
    requires Ready(m.peers) && Distinct(m.peers)
    ensures var n := Hear(m, msg, rcall); n == m.(qso := n.qso, peers := n.peers) && Distinct(n.peers)
  {
    hide HashCallId, ParseMsg, CheckPeer, AddPeer, Distinct;
    AddPeerDistinct(m.peers, msg.src);
  }

  lemma {:induction false} HearAllKeeps(m: Machine, trace: Trace, msgs: seq<Message>, rcall: string, t: nat)
    requires Ready(m.peers) && Inv(m, trace) && RepliesBefore(trace, t)
    ensures var n, trace' := HearAll(m, msgs, rcall), trace + HearTrace(m, msgs, rcall);
            Inv(n, trace') && RepliesBefore(trace', t) && n == m.(qso := n.qso, peers := n.peers)
  {
    hide Hear, HearEntries, Inv, RepliesBefore;
    if msgs == [] {
      assert trace + [] == trace;
    } else {
      var k := |msgs| - 1;
      HearAllKeeps(m, trace, msgs[..k], rcall, t);
      var before := HearAll(m, msgs[..k], rcall);
      var trace' := trace + HearTrace(m, msgs[..k], rcall);
      HearKeeps(before, trace', msgs[k], rcall);
      assert trace + HearTrace(m, msgs, rcall) ==
             trace' + HearEntries(before, msgs[k], Hear(before, msgs[k], rcall), rcall);
    }
  }

  // ----- the update -----

  lemma TxSplits(tx: seq<Tx>, i: nat, tick: nat)
    requires i <= |tx| <= i + 2
    ensures TxEntries(tx, i, tick) ==
            if |tx| == i then [] else if |tx| == i + 1 then [Queued(tx[i], tick)]
            else [Queued(tx[i], tick), Queued(tx[i + 1], tick)]
  {
    assert TxEntries(tx, |tx|, tick) == [];
    if |tx| == i + 2 {
      assert TxEntries(tx, i + 1, tick) == [Queued(tx[i + 1], tick)];
    }
  }

  /** Queueing the reply that is due is lawful. */
  lemma ReplyKeeps(m: Machine, trace: Trace, e: Entry)
    requires Inv(m, trace) && RepliesBefore(trace, m.tick) && m.tick < m.qso.time && Replying(m.qso.state)
    requires e == Replied(m.qso.current.freq, m.qso.current.src, Due(m.qso), m.tick)
    ensures Lawful(trace + [e]) && RepliesBefore(trace + [e], m.tick + 1) && CqsBefore(trace + [e], m.queryRepeat)
    ensures m.qso.state != Reply73 ==> OpenQso(m.qso, m.tick, Since(trace + [e]))
    ensures m.qso.state == Reply73 ==> Dialogue(Since(trace + [e])) == Idle
    ensures CqReason(trace + [e], m.queryRepeat)
  {
    hide Lawful, HeardRoger, Distinct, Dialogue;
    DialogueGrows(Since(trace), e);
    assert ReplyLawful(Since(trace), e);
    LawfulGrows(trace, e);
    SinceGrows(trace, e);
    HeardStays(Since(trace), e);
  }

  lemma LiveInTime(c: Contact, tick: nat, qso: Trace)
    requires OpenQso(c, tick, qso)
    ensures Live(qso, tick) <==> tick < c.time && c.state != Idle
  {
  }

  /** Settling a QSO keeps the invariant, with the reply it queues on the trace. */
  lemma SettleKeeps(m: Machine, trace: Trace, slot: Slot)
    requires Inv(m, trace) && RepliesBefore(trace, m.tick)
    ensures var n := Settle(m, slot);
            && |m.tx| <= |n.tx| <= |m.tx| + 1 && n.tick == m.tick
            && (n.qso.state != Idle ==> n.tick < n.qso.time)
            && var trace' := trace + if |n.tx| == |m.tx| then [] else [Queued(n.tx[|m.tx|], m.tick)];
               Inv(n, trace') && RepliesBefore(trace', m.tick + 1)
  {
    hide Settle, Lawful, OpenQso, Distinct, Dialogue;
    var n := Settle(m, slot);
    SettleFacts(m, slot);
    if n.tx == m.tx {
      if m.qso.state != Idle && Live(Since(trace), m.tick) {
        LiveInTime(m.qso, m.tick, Since(trace));
      }
      assert trace + [] == trace;
    } else {
      ReplyKeeps(m, trace, Queued(n.tx[|m.tx|], m.tick));
    }
  }

  /** A CQ on the trace changes nothing for a QSO. */
  lemma CqChangesNothing(c: Contact, t: nat, qso: Trace, e: Entry)
    requires e.CalledCq?
    ensures qso != [] && OpenQso(c, t, qso) ==> OpenQso(c, t, qso + [e])
    ensures qso != [] && Live(qso + [e], t) ==> Live(qso, t)
  {
    hide HeardRoger, Dialogue;
    DialogueGrows(qso, e);
    HeardStays(qso, e);
  }

  /** Queueing a CQ keeps the invariant. */
  lemma QueryKeeps(m: Machine, trace: Trace, slot: Slot, dialFreq: int)
    requires Inv(m, trace)
    ensures var n := QueryCQ(m, slot, dialFreq);
            && |m.tx| <= |n.tx| <= |m.tx| + 1 && n.qso == m.qso && n.tick == m.tick
            && var trace' := trace + if |n.tx| == |m.tx| then [] else [Queued(n.tx[|m.tx|], m.tick)];
               Inv(n, trace') && forall t: nat :: RepliesBefore(trace, t) ==> RepliesBefore(trace', t)
  {
    hide QueryCQ, Lawful, Distinct, OpenQso, Live;
    var n := QueryCQ(m, slot, dialFreq);
    QueryFacts(m, slot, dialFreq);
    if n.tx == m.tx {
      assert trace + [] == trace;
    } else {
      var e := Queued(n.tx[|m.tx|], m.tick);
      assert e == CalledCq(m.tick);
      LawfulGrows(trace, e);
      SinceGrows(trace, e);
      CqChangesNothing(m.qso, m.tick, Since(trace), e);
      if Since(trace) == [] {
        NothingOpen(m.qso, m.tick);
      }
    }
  }

  lemma NothingOpen(c: Contact, t: nat)
    ensures !OpenQso(c, t, []) && !Live([], t)
  {
  }

  lemma UpdateKeeps(m: Machine, trace: Trace, slot: Slot, dialFreq: int)
    requires Inv(m, trace) && RepliesBefore(trace, m.tick)
    ensures var n, trace' := Update(m, slot, dialFreq), trace + UpdateTrace(m, slot, dialFreq);
            && Inv(n, trace') && RepliesBefore(trace', m.tick + 1) && n.tick == m.tick
            && (n.qso.state != Idle ==> n.tick < n.qso.time)
  {
    hide Settle, QueryCQ, Inv, RepliesBefore, Queued;
    var k := Settle(m, slot);
    SettleKeeps(m, trace, slot);
    var n := Update(m, slot, dialFreq);
    var trace1 := trace + if |k.tx| == |m.tx| then [] else [Queued(k.tx[|m.tx|], m.tick)];
    SettleFacts(m, slot);
    QueryFacts(k, slot, dialFreq);
    QueryKeeps(k, trace1, slot, dialFreq);
    TxSplits(n.tx, |m.tx|, m.tick);
    assert trace + UpdateTrace(m, slot, dialFreq) ==
           trace1 + if |n.tx| == |k.tx| then [] else [Queued(n.tx[|k.tx|], m.tick)];
  }

  // ----- every run -----

  /** After every event of every run the invariant holds; between passes an open QSO has time left. */
  lemma {:induction false} RunKeeps(st: Station, events: seq<Event>)
    ensures var (m, trace) := Run(st, events);
            && Inv(m, trace) && RepliesBefore(trace, m.tick + 1)
            && (m.qso.state != Idle ==> m.tick < m.qso.time)
  {
    hide HearAll, HearTrace, Update, UpdateTrace, Lawful, OpenQso, Distinct;
    if events == [] {
      InitHolds();
    } else {
      var k := |events| - 1;
      RunKeeps(st, events[..k]);
      var (m, trace) := Run(st, events[..k]);
      match events[k]
      case Passed(more, msgs, slot) =>
        var ticked := m.(tick := m.tick + 1 + more);
        TickKeeps(m, trace, ticked.tick);
        HearAllKeeps(ticked, trace, msgs, st.rcall, ticked.tick);
        UpdateKeeps(HearAll(ticked, msgs, st.rcall), trace + HearTrace(ticked, msgs, st.rcall), slot, st.dialFreq);
      case Switched(_, _, _) =>
      case SlotSet(_) =>
    }
  }

  lemma InitHolds()
    ensures Inv(Init(), []) && RepliesBefore([], 1)
  {
  }

  lemma TickKeeps(m: Machine, trace: Trace, tick: nat)
    requires Inv(m, trace) && RepliesBefore(trace, m.tick + 1) && m.tick < tick
    ensures Inv(m.(tick := tick), trace) && RepliesBefore(trace, tick)
  {
    hide Lawful, HeardRoger, Distinct;
  }

  // ----- what a run owes -----

  /** The reply owed at the end of a pass: none unless the latest QSO is open and the pass's slot is the active one
      and the peer's; then the answer its dialogue calls for, to the opening call on the opening frequency. */
  function ReplyOwed(qso: Trace, active: Slot, slot: Slot, tick: nat): Trace {
    if Live(qso, tick) && slot == active && slot == qso[0].slot then
      [Replied(qso[0].freq, qso[0].call, Answer(Dialogue(qso), qso[0].snr), tick)]
    else []
  }

  /** The CQ owed: with automatic CQs on, on the active slot, when no QSO is open any more and the last CQ is three
      ticks ago. */
  function CqOwed(trace: Trace, auto: Settings, slot: Slot, tick: nat): Trace {
    if auto.autoCq && slot == auto.activeSlot && !Live(Since(trace), tick) && CqsBefore(trace, tick) then
      [CalledCq(tick)]
    else []
  }

  /** All that is owed at the end of a pass: the reply, and then perhaps a CQ. */
  function Owed(trace: Trace, auto: Settings, slot: Slot, tick: nat): Trace {
    var reply := ReplyOwed(Since(trace), auto.activeSlot, slot, tick);
    reply + CqOwed(trace + reply, auto, slot, tick)
  }

  /** What settling queues is the reply owed. */
  lemma SettleOwes(m: Machine, trace: Trace, slot: Slot)
    requires Inv(m, trace)
    ensures var n, owed := Settle(m, slot), ReplyOwed(Since(trace), m.auto.activeSlot, slot, m.tick);
            owed == if n.tx == m.tx then [] else [Queued(n.tx[|m.tx|], m.tick)]
  {
    hide Settle, Lawful, Distinct, CqReason, CqsBefore, HeardRoger;
    SettleFacts(m, slot);
  }

  /** The machine's timer for CQs is exactly the wait since the last CQ. */
  lemma CqWaits(trace: Trace, t: nat, tick: nat)
    requires CqsBefore(trace, t) && CqReason(trace, t)
    ensures CqsBefore(trace, tick) <==> t <= tick
  {
  }

  /** What the query queues is the CQ owed. */
  lemma QueryOwes(m: Machine, trace: Trace, slot: Slot, dialFreq: int)
    requires Inv(m, trace) && (m.qso.state != Idle ==> m.tick < m.qso.time)
    ensures var n := QueryCQ(m, slot, dialFreq);
            CqOwed(trace, m.auto, slot, m.tick) ==
            if m.qso.state != Idle || n.tx == m.tx then [] else [Queued(n.tx[|m.tx|], m.tick)]
  {
    hide QueryCQ, Lawful, Distinct, CqReason, CqsBefore, Dialogue, HeardRoger;
    QueryFacts(m, slot, dialFreq);
    CqWaits(trace, m.queryRepeat, m.tick);
    if m.qso.state != Idle {
      LiveInTime(m.qso, m.tick, Since(trace));
    }
  }

  /** The update transmits what the trace owes, no more and no less. */
  lemma UpdateOwes(m: Machine, trace: Trace, slot: Slot, dialFreq: int)
    requires Inv(m, trace) && RepliesBefore(trace, m.tick)
    ensures UpdateTrace(m, slot, dialFreq) == Owed(trace, m.auto, slot, m.tick)
  {
    hide Settle, QueryCQ, Inv, RepliesBefore, Queued, ReplyOwed, CqOwed;
    var k := Settle(m, slot);
    assert m.qso.state != CqIng by { KnownState(m, trace); }
    SettleKeeps(m, trace, slot);
    SettleOwes(m, trace, slot);
    SettleFacts(m, slot);
    var reply := ReplyOwed(Since(trace), m.auto.activeSlot, slot, m.tick);
    QueryOwes(k, trace + reply, slot, dialFreq);
    QueryFacts(k, slot, dialFreq);
    TxSplits(Update(m, slot, dialFreq).tx, |m.tx|, m.tick);
    if slot != m.auto.activeSlot {
      NoCqElsewhere(trace + reply, k.auto, slot, m.tick);
    }
  }

  lemma KnownState(m: Machine, trace: Trace)
    requires Inv(m, trace)
    ensures m.qso.state != CqIng
  {
    hide Lawful, Distinct, OpenQso;
  }

  lemma NoCqElsewhere(trace: Trace, auto: Settings, slot: Slot, tick: nat)
    requires slot != auto.activeSlot
    ensures CqOwed(trace, auto, slot, tick) == []
  {
  }

  /** The machine after a pass's ticks and messages, and the trace up to there. */
  function Listened(st: Station, events: seq<Event>, more: nat, msgs: seq<Message>): (r: (Machine, Trace))
    ensures Ready(r.0.peers)
  {
    hide Run, HearAll, HearTrace, Ticked;
    var (m, trace) := Run(st, events);
    assert Ready(Ticked(m, more).peers) by { TickedIs(m, more); }
    (HearAll(Ticked(m, more), msgs, st.rcall), trace + HearTrace(Ticked(m, more), msgs, st.rcall))
  }

  lemma ListenedKeeps(st: Station, events: seq<Event>, more: nat, msgs: seq<Message>)
    ensures var (heard, trace) := Listened(st, events, more, msgs);
            && Inv(heard, trace) && RepliesBefore(trace, heard.tick)
            && heard.tick == Run(st, events).0.tick + 1 + more && heard.auto == Run(st, events).0.auto
  {
    hide Run, HearAll, HearTrace, Inv, RepliesBefore;
    RunKeeps(st, events);
    var (m, trace) := Run(st, events);
    var ticked := Ticked(m, more);
    TickedIs(m, more);
    TickKeeps(m, trace, ticked.tick);
    HearAllKeeps(ticked, trace, msgs, st.rcall, ticked.tick);
  }

  lemma RunPassed(st: Station, events: seq<Event>, more: nat, msgs: seq<Message>, slot: Slot)
    ensures var (heard, trace) := Listened(st, events, more, msgs);
            Run(st, events + [Passed(more, msgs, slot)]).1 == trace + UpdateTrace(heard, slot, st.dialFreq)
  {
    hide HearAll, HearTrace, UpdateTrace, Update, Ticked;
    var all := events + [Passed(more, msgs, slot)];
    assert all[..|all| - 1] == events;
    TickedIs(Run(st, events).0, more);
  }

  /** In every run, each pass transmits exactly what the trace owes after its messages were heard: the answer of an
      open QSO in the peer's slot, then a CQ when none is open; nothing is left unanswered and nothing is added. */
  lemma PassTransmits(st: Station, events: seq<Event>, more: nat, msgs: seq<Message>, slot: Slot)
    ensures var (heard, trace) := Listened(st, events, more, msgs);
            Run(st, events + [Passed(more, msgs, slot)]).1 ==
            trace + Owed(trace, Run(st, events).0.auto, slot, Run(st, events).0.tick + 1 + more)
  {
    hide Run, Listened, UpdateTrace, Owed, Inv, RepliesBefore;
    var (heard, trace) := Listened(st, events, more, msgs);
    ListenedKeeps(st, events, more, msgs);
    RunPassed(st, events, more, msgs, slot);
    UpdateOwes(heard, trace, slot, st.dialFreq);
  }

  /** An open QSO with time left is answered in the pass of the active slot, if that is the peer's: one reply with the
      opening call and frequency, the dialogue's answer and this tick, and no other reply. */
  lemma OpenQsoIsAnswered(st: Station, events: seq<Event>, more: nat, msgs: seq<Message>, slot: Slot)
    requires var qso, m := Since(Listened(st, events, more, msgs).1), Run(st, events).0;
             Live(qso, m.tick + 1 + more) && slot == m.auto.activeSlot && slot == qso[0].slot
    ensures var before, after := Listened(st, events, more, msgs).1, Run(st, events + [Passed(more, msgs, slot)]).1;
            var qso, tick := Since(before), Run(st, events).0.tick + 1 + more;
            && |before| < |after| <= |before| + 2 && before <= after
            && after[|before|] == Replied(qso[0].freq, qso[0].call, Answer(Dialogue(qso), qso[0].snr), tick)
            && (|after| == |before| + 2 ==> after[|before| + 1] == CalledCq(tick))
  {
    hide Run, Listened, Dialogue, CqsBefore, Since;
    PassTransmits(st, events, more, msgs, slot);
  }

  /** Between passes the machine is idle exactly when the trace has no open QSO with time left. */
  lemma IdleExactly(st: Station, events: seq<Event>)
    ensures var (m, trace) := Run(st, events); m.qso.state == Idle <==> !Live(Since(trace), m.tick)
  {
    hide Run, Lawful, Distinct, Since, CqReason, CqsBefore, RepliesBefore, Dialogue, HeardRoger;
    RunKeeps(st, events);
    var (m, trace) := Run(st, events);
    if m.qso.state != Idle {
      LiveInTime(m.qso, m.tick, Since(trace));
    }
  }

  // ----- what opens a QSO -----

  /** A message that opens a QSO with an idle station: in the active slot, from a station not recorded, a CQ while CQs
      are answered, or a locator or report for us while QSOs are automatic. */
  predicate Wanted(m: Machine, msg: Message, rcall: string)
    requires Ready(m.peers)
  {
    && msg.slot == m.auto.activeSlot && !CheckPeer(m.peers, msg.src)
    && if msg.dest == "CQ" then m.auto.autoCqReply
       else msg.dest == rcall && m.auto.autoQso && ParseMsg(msg.message) in {LocMsg, SigMsg}
  }

  /** An idle machine opens a QSO with a message exactly when it is wanted, and otherwise stays idle. */
  lemma OpensExactly(m: Machine, msg: Message, rcall: string)
    requires Ready(m.peers) && m.qso.state == Idle
    ensures var n := Hear(m, msg, rcall);
            && HearEntries(m, msg, n, rcall) == (if Wanted(m, msg, rcall) then [Opening(m, msg)] else [])
            && (n.qso.state != Idle <==> Wanted(m, msg, rcall))
  {
    hide HashCallId, ParseMsg, CheckPeer, AddPeer;
  }

  /** From idle to the first answer: a wanted message in a pass of the active slot is answered in that pass, a CQ with
      our locator and a message for us with a report of its level. */
  lemma WantedIsAnswered(st: Station, events: seq<Event>, more: nat, msg: Message)
    requires var m := Run(st, events).0; m.qso.state == Idle && Wanted(m, msg, st.rcall)
    ensures var (m, before) := Run(st, events);
            var tick := m.tick + 1 + more;
            Run(st, events + [Passed(more, [msg], msg.slot)]).1 ==
            before + [Opened(msg.src, msg.freq, msg.snr, msg.dest == "CQ", msg.slot, tick),
                      Replied(msg.freq, msg.src, if msg.dest == "CQ" then SendLoc else SendReport(msg.snr), tick)]
  {
    hide Run, Listened, Hear, CheckPeer, ParseMsg, Owed, HearEntries;
    var (m, before) := Run(st, events);
    var ticked := Ticked(m, more);
    TickedIs(m, more);
    assert Wanted(ticked, msg, st.rcall);
    OpensExactly(ticked, msg, st.rcall);
    HeardOne(ticked, msg, st.rcall);
    var open := Opening(ticked, msg);
    ListenedIs(st, events, more, [msg]);
    PassTransmits(st, events, more, [msg], msg.slot);
    OpeningOwes(before, open, m.auto);
  }

  lemma HeardOne(m: Machine, msg: Message, rcall: string)
    requires Ready(m.peers)
    ensures HearTrace(m, [msg], rcall) == HearEntries(m, msg, Hear(m, msg, rcall), rcall)
  {
    hide Hear, HearEntries;
    assert [msg][..0] == [];
    HearNothing(m, rcall);
    assert HearTrace(m, [], rcall) == [];
  }

  lemma ListenedIs(st: Station, events: seq<Event>, more: nat, msgs: seq<Message>)
    ensures Ready(Ticked(Run(st, events).0, more).peers)
    ensures Listened(st, events, more, msgs).1 ==
            Run(st, events).1 + HearTrace(Ticked(Run(st, events).0, more), msgs, st.rcall)
  {
    hide Run, HearTrace, HearAll, Ticked;
    TickedIs(Run(st, events).0, more);
  }

  /** What is owed right after an opening in the active slot is the first answer, and no CQ. */
  lemma OpeningOwes(trace: Trace, open: Entry, auto: Settings)
    requires open.Opened? && open.slot == auto.activeSlot
    ensures Owed(trace + [open], auto, open.slot, open.tick) ==
            [Replied(open.freq, open.call, if open.byCq then SendLoc else SendReport(open.snr), open.tick)]
  {
    hide CqsBefore, Dialogue;
    var t := trace + [open];
    SinceGrows(trace, open);
    DialogueGrows([], open);
    assert [] + [open] == [open];
    var reply := ReplyOwed(Since(t), auto.activeSlot, open.slot, open.tick);
    SinceGrows(t, reply[0]);
    DialogueGrows([open], reply[0]);
    assert t + reply == t + [reply[0]];
  }

  // ----- the properties, one by one -----

  /** Lifetime: an open QSO never outlives its eighth tick, whatever its peer keeps sending. */
  lemma QsoLifetime(st: Station, events: seq<Event>)
    ensures var (m, trace) := Run(st, events);
            var qso := Since(trace);
            m.qso.state != Idle ==>
              && qso != [] && qso[0].Opened? && qso[0].call == m.qso.current.src && qso[0].freq == m.qso.current.freq
              && m.tick < m.qso.time == qso[0].tick + MAXQSOLIFETIME
  {
    hide Run, Since, Lawful, Distinct;
    RunKeeps(st, events);
  }

  /** The default branch of the reply step is never taken: whenever a pass has counted its ticks and heard its
      messages, the state the reply step is called in is idle or one of the four it handles. */
  lemma DefaultUnreachable(st: Station, events: seq<Event>, more: nat, msgs: seq<Message>)
    ensures var m := HearAll(Ticked(Run(st, events).0, more), msgs, st.rcall);
            m.qso.state == Idle || Replying(m.qso.state)
  {
    hide Run, Lawful, Distinct, OpenQso, HearAll, HearTrace;
    RunKeeps(st, events);
    var (m, trace) := Run(st, events);
    var ticked := Ticked(m, more);
    TickedIs(m, more);
    TickKeeps(m, trace, ticked.tick);
    HearAllKeeps(ticked, trace, msgs, st.rcall, ticked.tick);
  }

  /** The stations recorded are pairwise different and the next one always has a place. */
  lemma PeersDistinct(st: Station, events: seq<Event>)
    ensures var p := Run(st, events).0.peers;
            && p.idx < MAXQSOPEERS == |p.hashes|
            && forall i, j :: 0 <= i < j < p.idx ==> p.hashes[i] != p.hashes[j]
  {
    hide Run, Lawful;
    RunKeeps(st, events);
  }

  /** Where the latest QSO of a trace opened. */
  lemma {:induction false} SinceOpening(trace: Trace) returns (j: nat)
    requires Since(trace) != []
    ensures j < |trace| && trace[j].Opened? && Since(trace) == trace[j..]
    ensures forall k :: j < k < |trace| ==> !trace[k].Opened?
  {
    var n := |trace| - 1;
    if trace[n].Opened? {
      j := n;
      assert trace[n..] == [trace[n]];
    } else {
      j := SinceOpening(trace[..n]);
      assert trace[j..] == trace[..n][j..] + [trace[n]];
    }
  }

  /** Entry j opened the QSO that entry i replies in. */
  predicate Opens(trace: Trace, j: nat, i: nat) {
    && j < i < |trace| && trace[j].Opened? && trace[i].Replied?
    && trace[i].to == trace[j].call && trace[i].freq == trace[j].freq
    && trace[j].tick <= trace[i].tick < trace[j].tick + MAXQSOLIFETIME
    && forall k :: j < k < i ==> !trace[k].Opened?
  }

  /** Precedence and isolation: every reply ever queued goes to the opening call on the opening frequency within the
      lifetime, and is the one answer the dialogue of that QSO calls for; an RR73 only after a further report heard in
      replySig, a 73 only after the peer's RR73, in that QSO. */
  lemma ReplyPrecedence(st: Station, events: seq<Event>, i: nat)
    requires var trace := Run(st, events).1; i < |trace| && trace[i].Replied?
    ensures var trace := Run(st, events).1;
            exists j: nat ::
              && Opens(trace, j, i)
              && Replying(Dialogue(trace[j..i])) && trace[i].payload == Answer(Dialogue(trace[j..i]), trace[j].snr)
              && (trace[i].payload == SendRR73 ==> exists k :: j < k < i && trace[k] == Heard(ReplySig, SigMsg))
              && (trace[i].payload == Send73 ==>
                    exists k :: j < k < i && trace[k].Heard? && trace[k].kind == RR73Msg)
  {
    hide Run, Distinct, Since, RepliesBefore;
    RunKeeps(st, events);
    var trace := Run(st, events).1;
    assert EntryLawful(trace[..i], trace[i]);
    var before := trace[..i];
    var j := SinceOpening(before);
    var qso := Since(before);
    forall k: nat | j + k < i
      ensures qso[k] == trace[j + k]
    {
      assert before[j..][k] == before[j + k];
    }
    assert qso[0] == trace[j];
    forall k | j < k < i
      ensures !trace[k].Opened?
    {
      assert before[k] == trace[k];
    }
    assert Opens(trace, j, i);
    assert trace[j..i] == qso;
    if trace[i].payload == SendRR73 {
      var k :| 0 <= k < |qso| && qso[k] == Heard(ReplySig, SigMsg);
      assert trace[j + k] == Heard(ReplySig, SigMsg);
    }
    if trace[i].payload == Send73 {
      var k :| 0 <= k < |qso| && qso[k].Heard? && qso[k].kind == RR73Msg;
      assert trace[j + k].Heard?;
    }
  }

  /** A dialogue that has ended stays ended until the next opening. */
  lemma {:induction false} EndedStays(qso: Trace, more: Trace)
    requires Dialogue(qso) == Idle && forall k :: 0 <= k < |more| ==> !more[k].Opened?
    ensures Dialogue(qso + more) == Idle
  {
    if more == [] {
      assert qso + more == qso;
    } else {
      var n := |more| - 1;
      EndedStays(qso, more[..n]);
      assert qso + more == (qso + more[..n]) + [more[n]];
      DialogueGrows(qso + more[..n], more[n]);
    }
  }

  lemma EndedBy73(trace: Trace, o: nat, i: nat, k: nat)
    requires o <= i < k <= |trace| && trace[i].Replied? && trace[i].payload == Send73
    requires forall n :: i < n < k ==> !trace[n].Opened?
    ensures Dialogue(trace[o..k]) == Idle
  {
    hide Dialogue;
    DialogueGrows(trace[o..i], trace[i]);
    assert trace[o..i + 1] == trace[o..i] + [trace[i]];
    EndedStays(trace[o..i + 1], trace[i + 1..k]);
    assert trace[o..k] == trace[o..i + 1] + trace[i + 1..k];
  }

  /** A 73 is the last reply of its QSO: any later reply has an opening in between. */
  lemma NothingAfter73(st: Station, events: seq<Event>, i: nat, k: nat)
    requires var trace := Run(st, events).1;
             i < k < |trace| && trace[i].Replied? && trace[i].payload == Send73 && trace[k].Replied?
    ensures var trace := Run(st, events).1; exists o :: i < o < k && trace[o].Opened?
  {
    hide Run, Dialogue;
    var trace := Run(st, events).1;
    ReplyPrecedence(st, events, k);
    var o: nat :| Opens(trace, o, k) && Replying(Dialogue(trace[o..k]));
    if o <= i {
      EndedBy73(trace, o, i, k);
      assert false;
    }
  }

  function CountReplies(trace: Trace): nat {
    if trace == [] then 0
    else CountReplies(trace[..|trace| - 1]) + if trace[|trace| - 1].Replied? then 1 else 0
  }

  /** Replies at strictly increasing ticks between first and last are at most as many as the ticks. */
  lemma {:induction false} IncreasingReplies(trace: Trace, first: nat, last: nat)
    requires forall i :: 0 <= i < |trace| && trace[i].Replied? ==> first <= trace[i].tick < last
    requires forall i, k :: 0 <= i < k < |trace| && trace[i].Replied? && trace[k].Replied? ==>
               trace[i].tick < trace[k].tick
    requires first <= last
    ensures CountReplies(trace) <= last - first
  {
    if trace != [] {
      var n := |trace| - 1;
      if trace[n].Replied? {
        IncreasingReplies(trace[..n], first, trace[n].tick);
      } else {
        IncreasingReplies(trace[..n], first, last);
      }
    }
  }

  /** From an opening up to the next one, at most eight replies are queued. */
  lemma AtMostEightReplies(st: Station, events: seq<Event>, j: nat, end: nat)
    requires var trace := Run(st, events).1;
             j < end <= |trace| && trace[j].Opened? && forall k :: j < k < end ==> !trace[k].Opened?
    ensures CountReplies(Run(st, events).1[j..end]) <= MAXQSOLIFETIME
  {
    hide Run, Distinct, Since;
    RunKeeps(st, events);
    var trace := Run(st, events).1;
    var qso := trace[j..end];
    forall i | 0 <= i < |qso| && qso[i].Replied?
      ensures trace[j].tick <= qso[i].tick < trace[j].tick + MAXQSOLIFETIME
    {
      assert qso[i] == trace[j + i];
      ReplyPrecedence(st, events, j + i);
      var o: nat :| Opens(trace, o, j + i);
      assert o == j;
    }
    forall i, k | 0 <= i < k < |qso| && qso[i].Replied? && qso[k].Replied?
      ensures qso[i].tick < qso[k].tick
    {
      assert EntryLawful(trace[..j + k], trace[j + k]);
      assert trace[..j + k][j + i] == qso[i];
    }
    IncreasingReplies(qso, trace[j].tick, trace[j].tick + MAXQSOLIFETIME);
  }

  /** Two CQs are at least three ticks apart. */
  lemma CqsApart(st: Station, events: seq<Event>, i: nat, k: nat)
    requires var trace := Run(st, events).1; i < k < |trace| && trace[i].CalledCq? && trace[k].CalledCq?
    ensures var trace := Run(st, events).1; trace[i].tick + QUERYCQDELAY <= trace[k].tick
  {
    hide Run, Distinct, Since, ReplyLawful;
    RunKeeps(st, events);
    var trace := Run(st, events).1;
    assert EntryLawful(trace[..k], trace[k]);
    assert trace[..k][i] == trace[i];
  }

  /** A CQ is queued only when no QSO is open, on the active slot, with automatic CQs on. */
  lemma CqOnlyWhenIdle(m: Machine, slot: Slot, dialFreq: int)
    requires exists i :: |m.tx| <= i < |Update(m, slot, dialFreq).tx| && Update(m, slot, dialFreq).tx[i].Cq?
    ensures Update(m, slot, dialFreq).qso.state == Idle && slot == m.auto.activeSlot && m.auto.autoCq
  {
    hide Settle, QueryCQ;
    SettleFacts(m, slot);
    QueryFacts(Settle(m, slot), slot, dialFreq);
  }

  /** Isolation: while a QSO is open, a message from another station changes nothing at all. */
  lemma OthersIgnored(m: Machine, msg: Message, rcall: string)
    requires Ready(m.peers) && m.qso.state != Idle && msg.src != m.qso.current.src
    ensures Hear(m, msg, rcall) == m
  {
  }

  /** A station already worked opens no QSO. */
  lemma WorkedStaysClosed(m: Machine, msg: Message, rcall: string)
    requires Ready(m.peers) && m.qso.state == Idle && CheckPeer(m.peers, msg.src)
    ensures Hear(m, msg, rcall) == m
  {
  }

  /** Recording a station: it is then found, unless the place after it is the first again. */
  lemma AddedIsFound(p: Peers, call: string)
    requires Ready(p)
    ensures CheckPeer(AddPeer(p, call), call) <==> CheckPeer(p, call) || p.idx + 1 < MAXQSOPEERS
    ensures AddPeer(p, call).idx != 0 ==> forall other :: CheckPeer(p, other) ==> CheckPeer(AddPeer(p, call), other)
  {
    hide HashCallId;
    var q := AddPeer(p, call);
    if q.idx == p.idx + 1 {
      assert q.hashes[..q.idx] == p.hashes[..p.idx] + [HashCallId(call)];
    }
  }

  /** Exactly the peer's RR73 records a station: then the peer is found, unless the index starts over. */
  lemma RogerRecords(m: Machine, msg: Message, rcall: string)
    requires Ready(m.peers)
    ensures var n, roger := Hear(m, msg, rcall), FromPeer(m, msg, rcall) && ParseMsg(msg.message) == RR73Msg;
            && (!roger ==> n.peers == m.peers)
            && (roger ==> (CheckPeer(n.peers, msg.src) <==>
                           CheckPeer(m.peers, msg.src) || m.peers.idx + 1 < MAXQSOPEERS))
  {
    hide HashCallId, ParseMsg, CheckPeer, AddPeer;
    AddedIsFound(m.peers, msg.src);
  }

  /** A message forgets no worked station unless it makes the index start over. */
  lemma HearKeepsWorked(m: Machine, msg: Message, rcall: string, call: string)
    requires Ready(m.peers) && CheckPeer(m.peers, call)
    requires Hear(m, msg, rcall).peers.idx >= m.peers.idx
    ensures CheckPeer(Hear(m, msg, rcall).peers, call)
  {
    hide HashCallId, ParseMsg, AddPeer, CheckPeer;
    AddedIsFound(m.peers, msg.src);
    assert m.peers.idx > 0 by { WorkedMeansSome(m.peers, call); }
  }

  lemma WorkedMeansSome(p: Peers, call: string)
    requires Ready(p) && CheckPeer(p, call)
    ensures p.idx > 0
  {
  }

  /** As long as the index does not start over, a worked station stays worked through any messages, and none of
      them opens a QSO with it. */
  lemma {:induction false} WorkedThroughout(m: Machine, msgs: seq<Message>, rcall: string, call: string)
    requires Ready(m.peers) && CheckPeer(m.peers, call)
    requires forall i :: 0 <= i < |msgs| ==> IndexGrows(m, msgs, rcall, i)
    ensures CheckPeer(HearAll(m, msgs, rcall).peers, call)
    ensures forall i :: 0 <= i < |msgs| && msgs[i].src == call ==> !OpensWith(m, msgs, rcall, i)
  {
    hide Hear, CheckPeer;
    if msgs != [] {
      var k := |msgs| - 1;
      forall i | 0 <= i < k
        ensures IndexGrows(m, msgs[..k], rcall, i)
        ensures OpensWith(m, msgs, rcall, i) == OpensWith(m, msgs[..k], rcall, i)
      {
        assert IndexGrows(m, msgs, rcall, i);
        assert msgs[..k][..i] == msgs[..i];
      }
      WorkedThroughout(m, msgs[..k], rcall, call);
      var before := HearAll(m, msgs[..k], rcall);
      assert IndexGrows(m, msgs, rcall, k);
      HearKeepsWorked(before, msgs[k], rcall, call);
      if msgs[k].src == call && before.qso.state == Idle {
        WorkedStaysClosed(before, msgs[k], rcall);
      }
    }
  }

  /** Message i does not make the index of recorded stations start over. */
  predicate IndexGrows(m: Machine, msgs: seq<Message>, rcall: string, i: nat)
    requires Ready(m.peers) && i < |msgs|
  {
    hide Hear;
    var before := HearAll(m, msgs[..i], rcall);
    before.peers.idx <= Hear(before, msgs[i], rcall).peers.idx
  }

  /** Message i opens a QSO. */
  predicate OpensWith(m: Machine, msgs: seq<Message>, rcall: string, i: nat)
    requires Ready(m.peers) && i < |msgs|
  {
    hide Hear;
    var before := HearAll(m, msgs[..i], rcall);
    before.qso.state == Idle && Hear(before, msgs[i], rcall).qso.state != Idle
  }

  predicate NoOpening(trace: Trace, call: string) {
    forall i :: 0 <= i < |trace| && trace[i].Opened? ==> trace[i].call != call
  }

  lemma {:induction false} WorkedNeverOpens(m: Machine, msgs: seq<Message>, rcall: string, call: string)
    requires Ready(m.peers) && CheckPeer(m.peers, call)
    requires forall i :: 0 <= i < |msgs| ==> IndexGrows(m, msgs, rcall, i)
    ensures NoOpening(HearTrace(m, msgs, rcall), call)
  {
    hide Hear, CheckPeer, ParseMsg;
    if msgs != [] {
      var k := |msgs| - 1;
      forall i | 0 <= i < k
        ensures IndexGrows(m, msgs[..k], rcall, i)
      {
        assert IndexGrows(m, msgs, rcall, i);
        assert msgs[..k][..i] == msgs[..i];
      }
      WorkedNeverOpens(m, msgs[..k], rcall, call);
      WorkedThroughout(m, msgs, rcall, call);
      assert msgs[k].src == call ==> !OpensWith(m, msgs, rcall, k);
    }
  }

  lemma {:induction false} TxNeverOpens(tx: seq<Tx>, i: nat, tick: nat, call: string)
    requires i <= |tx|
    ensures NoOpening(TxEntries(tx, i, tick), call)
    decreases |tx| - i
  {
    if i < |tx| {
      TxNeverOpens(tx, i + 1, tick, call);
    }
  }

  lemma UpdateKeepsPeers(m: Machine, slot: Slot, dialFreq: int)
    ensures Update(m, slot, dialFreq).peers == m.peers
  {
    hide Settle, QueryCQ;
    SettleFacts(m, slot);
    QueryFacts(Settle(m, slot), slot, dialFreq);
  }

  predicate MessagesGrow(m: Machine, msgs: seq<Message>, rcall: string)
    requires Ready(m.peers)
  {
    forall i :: 0 <= i < |msgs| ==> IndexGrows(m, msgs, rcall, i)
  }

  function Ticked(m: Machine, more: nat): Machine {
    m.(tick := m.tick + 1 + more)
  }

  /** No message of event k makes the index of recorded stations start over. */
  predicate EventGrows(st: Station, events: seq<Event>, k: nat)
    requires k < |events|
  {
    hide Run, MessagesGrow;
    events[k].Passed? ==>
      MessagesGrow(Ticked(Run(st, events[..k]).0, events[k].moreTicks), events[k].msgs, st.rcall)
  }

  lemma TickedIs(m: Machine, more: nat)
    ensures Ticked(m, more) == m.(tick := m.tick + 1 + more)
  {
  }

  lemma EventGrowsPrefix(st: Station, events: seq<Event>, k: nat, i: nat)
    requires i < k <= |events| && EventGrows(st, events, i)
    ensures EventGrows(st, events[..k], i)
  {
    hide Run, MessagesGrow;
    assert events[..k][..i] == events[..i];
    assert events[..k][i] == events[i];
  }

  /** From the moment a station is recorded until the index next starts over, no run opens a QSO with it again. */
  lemma {:induction false} WorkedStationsStayClosed(st: Station, events: seq<Event>, from: nat, call: string)
    requires from <= |events| && CheckPeer(Run(st, events[..from]).0.peers, call)
    requires forall k :: from <= k < |events| ==> EventGrows(st, events, k)
    ensures CheckPeer(Run(st, events).0.peers, call)
    ensures var before, after := Run(st, events[..from]).1, Run(st, events).1;
            before <= after && NoOpening(after[|before|..], call)
    decreases |events|
  {
    hide HearAll, HearTrace, Update, UpdateTrace, CheckPeer, NoOpening, IndexGrows, Ticked;
    if from == |events| {
      assert events[..from] == events;
      NothingOpens(call);
    } else {
      var k := |events| - 1;
      var prior := events[..k];
      assert prior[..from] == events[..from];
      forall i | from <= i < k
        ensures EventGrows(st, prior, i)
      {
        assert EventGrows(st, events, i);
        EventGrowsPrefix(st, events, k, i);
      }
      WorkedStationsStayClosed(st, prior, from, call);
      var (m, trace) := Run(st, prior);
      assert EventGrows(st, events, k);
      match events[k]
      case Passed(more, msgs, slot) =>
        var ticked := m.(tick := m.tick + 1 + more);
        assert ticked == Ticked(m, more) by { TickedIs(m, more); }
        WorkedThroughout(ticked, msgs, st.rcall, call);
        WorkedNeverOpens(ticked, msgs, st.rcall, call);
        var heard := HearAll(ticked, msgs, st.rcall);
        UpdateKeepsPeers(heard, slot, st.dialFreq);
        UpdateNeverOpens(heard, slot, st.dialFreq, call);
        var before := Run(st, events[..from]).1;
        var entries := HearTrace(ticked, msgs, st.rcall) + UpdateTrace(heard, slot, st.dialFreq);
        OpeningsJoin(HearTrace(ticked, msgs, st.rcall), UpdateTrace(heard, slot, st.dialFreq), call);
        OpeningsJoin(trace[|before|..], entries, call);
        assert Run(st, events).1[|before|..] == trace[|before|..] + entries;
      case Switched(_, _, _) =>
      case SlotSet(_) =>
    }
  }

  lemma NothingOpens(call: string)
    ensures NoOpening([], call)
  {
  }

  lemma UpdateNeverOpens(m: Machine, slot: Slot, dialFreq: int, call: string)
    ensures NoOpening(UpdateTrace(m, slot, dialFreq), call)
  {
    hide Update;
    TxGrows(m, slot, dialFreq);
    TxNeverOpens(Update(m, slot, dialFreq).tx, |m.tx|, m.tick, call);
  }

  lemma OpeningsJoin(a: Trace, b: Trace, call: string)
    requires NoOpening(a, call) && NoOpening(b, call)
    ensures NoOpening(a + b, call)
  {
  }
}
