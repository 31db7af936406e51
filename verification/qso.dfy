/** The automatic QSO machine as a function of its state and inputs. */
module Qso {
  import opened CallIds
  import opened Texts

  const MAXQSOPEERS := 512
  const MAXQSOLIFETIME := 8
  const QUERYCQDELAY := 3

  datatype QsoState = Idle | ReplyLoc | ReplySig | ReplyRR73 | Reply73 | CqIng
  datatype Kind = CqMsg | LocMsg | SigMsg | RR73Msg | S73Msg
  datatype Slot = Even | Odd

  datatype Message = Message(src: string, dest: string, message: string, freq: int, snr: int, tempus: int, slot: Slot)

  const NO_PEER := Message("", "", "", 0, 0, 0, Odd)

  /** What a reply carries behind the two calls. */
  datatype Payload = SendLoc | SendReport(snr: int) | SendRR73 | Send73

  /** A transmission queued for the transmitter; every one is from our own station. */
  datatype Tx = Reply(freq: int, to: string, payload: Payload) | Cq(freq: int)

  /** The one QSO there may be: its state, its peer's latest message, and the tick at which it times out. */
  datatype Contact = Contact(state: QsoState, current: Message, time: nat)

  /** The hashes of the stations worked, and where the next one goes. */
  datatype Peers = Peers(hashes: seq<nat>, idx: nat)

  datatype Settings = Settings(autoCq: bool, autoCqReply: bool, autoQso: bool, activeSlot: Slot)

  datatype Machine = Machine(qso: Contact, peers: Peers, auto: Settings, tick: nat, txBusy: bool, queryRepeat: nat,
                             tx: seq<Tx>)

  // ----- parsing -----

  /** The number the leading digits spell. */
  function Atoi(s: string, acc: nat): nat {
    if s != "" && IsDigit(s[0]) then Atoi(s[1..], acc * 10 + (s[0] as int - '0' as int)) else acc
  }

  function ParseMsg(msg: string): Kind {
    if msg != "" && IsDigit(msg[0]) then (if Atoi(msg, 0) == 73 then S73Msg else SigMsg)
    else if msg != "" && (msg[0] == '+' || msg[0] == '-') then SigMsg
    else if msg == "RR73" then RR73Msg
    else if |msg| == 4 && msg[0] == 'R' && (msg[1] == '+' || msg[1] == '-') then SigMsg
    else LocMsg
  }

  // ----- the worked stations -----

  predicate Ready(p: Peers) {
    p.idx < |p.hashes| == MAXQSOPEERS
  }

  predicate CheckPeer(p: Peers, call: string)
    requires Ready(p)
  {
    HashCallId(call) in p.hashes[..p.idx]
  }

  function AddPeer(p: Peers, call: string): (q: Peers)
    requires Ready(p)
    ensures Ready(q)
  {
    if CheckPeer(p, call) then p
    else Peers(p.hashes[p.idx := HashCallId(call)], if p.idx + 1 >= MAXQSOPEERS then 0 else p.idx + 1)
  }

  // ----- the steps -----

  function ResetQsoState(tick: nat): Contact {
    Contact(Idle, NO_PEER, tick)
  }

  /** A message for us, when automatic QSOs are on. */
  function AddQso(c: Contact, p: Peers, auto: Settings, tick: nat, msg: Message): (Contact, Peers)
    requires Ready(p)
  {
    if !auto.autoQso || msg.slot != auto.activeSlot then (c, p)
    else if c.state == Idle then
      if CheckPeer(p, msg.src) then (c, p)
      else
        var kind := ParseMsg(msg.message);
        (Contact(if kind == LocMsg || kind == SigMsg then ReplySig else Idle, msg, tick + MAXQSOLIFETIME), p)
    else if msg.src != c.current.src then (c, p)
    else
      var current := c.current.(message := msg.message);
      match ParseMsg(msg.message)
      case LocMsg => (Contact(ReplySig, current, c.time), p)
      case SigMsg => (Contact(if c.state == ReplySig then ReplyRR73 else ReplySig, current, c.time), p)
      case RR73Msg => (Contact(Reply73, current, c.time), AddPeer(p, msg.src))
      case S73Msg => (ResetQsoState(tick), p)
      case CqMsg => (ResetQsoState(tick), p)
  }

  /** Someone's CQ, when automatic answers to CQs are on. */
  function AddCQ(c: Contact, p: Peers, auto: Settings, tick: nat, msg: Message): Contact
    requires Ready(p)
  {
    if !auto.autoCqReply || c.state != Idle || msg.slot != auto.activeSlot || CheckPeer(p, msg.src) then c
    else Contact(ReplyLoc, msg.(dest := "", message := "CQ"), tick + MAXQSOLIFETIME)
  }

  /** One decoded message. */
  function Hear(m: Machine, msg: Message, rcall: string): (n: Machine)
    requires Ready(m.peers)
    ensures Ready(n.peers)
  {
    if msg.dest == "CQ" then m.(qso := AddCQ(m.qso, m.peers, m.auto, m.tick, msg))
    else if msg.dest == rcall then
      var (qso, peers) := AddQso(m.qso, m.peers, m.auto, m.tick, msg);
      m.(qso := qso, peers := peers)
    else m
  }

  /** The reply due in an open QSO. */
  function Due(c: Contact): Payload {
    match c.state
    case ReplySig => SendReport(c.current.snr)
    case ReplyRR73 => SendRR73
    case Reply73 => Send73
    case _ => SendLoc
  }

  predicate Replying(s: QsoState) {
    s == ReplyLoc || s == ReplySig || s == ReplyRR73 || s == Reply73
  }

  /** The replies queued for an open QSO, the state after, and whether the transmitter is busy. */
  function HandleTx(c: Contact, txSlot: Slot): (seq<Tx>, QsoState, bool) {
    if c.state == Idle then ([], Idle, false)
    else if c.current.slot != txSlot then ([], c.state, true)
    else if !Replying(c.state) then ([], Idle, false)
    else
      var reply := [Reply(c.current.freq, c.current.src, Due(c))];
      if c.state == Reply73 then (reply, Idle, false) else (reply, c.state, true)
  }

  function QueryCQ(m: Machine, slot: Slot, dialFreq: int): Machine {
    if !m.auto.autoCq || slot != m.auto.activeSlot || m.tick < m.queryRepeat then m
    else m.(tx := m.tx + [Cq(dialFreq)], queryRepeat := m.tick + QUERYCQDELAY)
  }

  /** A QSO past its time is closed; else, on the active slot, its reply is queued. */
  function Settle(m: Machine, slot: Slot): Machine {
    if m.tick >= m.qso.time then m.(qso := ResetQsoState(m.tick), txBusy := false)
    else if slot == m.auto.activeSlot then
      var (replies, state, busy) := HandleTx(m.qso, slot);
      m.(qso := m.qso.(state := state), tx := m.tx + replies, txBusy := busy)
    else m.(txBusy := false)
  }

  /** The end of a pass: the QSO is settled, then perhaps a CQ is queued. */
  function Update(m: Machine, slot: Slot, dialFreq: int): Machine {
    var n := Settle(m, slot);
    if !n.txBusy && slot == n.auto.activeSlot then QueryCQ(n, slot, dialFreq) else n
  }

  function HearAll(m: Machine, msgs: seq<Message>, rcall: string): (n: Machine)
    requires Ready(m.peers)
    ensures Ready(n.peers)
  {
    hide Hear;
    if msgs == [] then m else Hear(HearAll(m, msgs[..|msgs| - 1], rcall), msgs[|msgs| - 1], rcall)
  }

  lemma HearNothing(m: Machine, rcall: string)
    requires Ready(m.peers)
    ensures HearAll(m, [], rcall) == m
  {
  }

  lemma HearNext(m: Machine, msgs: seq<Message>, k: nat, rcall: string)
    requires Ready(m.peers) && k < |msgs|
    ensures HearAll(m, msgs[..k + 1], rcall) == Hear(HearAll(m, msgs[..k], rcall), msgs[k], rcall)
  {
    hide Hear;
    assert msgs[..k + 1][..k] == msgs[..k];
  }

  /** A pass of the handler: at least one tick, the messages decoded meanwhile, then the update. */
  function Pass(m: Machine, moreTicks: nat, msgs: seq<Message>, slot: Slot, rcall: string, dialFreq: int): Machine
    requires Ready(m.peers)
  {
    hide HearAll;
    Update(HearAll(m.(tick := m.tick + 1 + moreTicks), msgs, rcall), slot, dialFreq)
  }

  function Init(): (m: Machine)
    ensures Ready(m.peers)
  {
    Machine(Contact(Idle, NO_PEER, 0), Peers(seq(MAXQSOPEERS, i => 0), 0), Settings(false, false, false, Even),
            0, false, 0, [])
  }
}
