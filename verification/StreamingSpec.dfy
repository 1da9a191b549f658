/**
 Streaming, on values: what every handler of a `Stream` does to the stream's state. The class in
 `Streaming.dfy` is proved against these functions; the protocol theorems are about them.

 Fixed-width arithmetic is explicit where the code relies on it: sequence numbers are unsigned
 32-bit, the last received number is signed 32-bit and starts at -1.
 */
module StreamingSpec {
  import opened Bytes

  const STREAMING_MTU: nat := 1730
  const FOLLOW_ON_ROOM: nat := STREAMING_MTU - 22
  const WINDOW_SIZE := 6
  const MIN_WINDOW_SIZE := 1
  const MAX_WINDOW_SIZE := 128
  const INITIAL_RTT := 8000
  const INITIAL_RTO := 9000
  const MAX_NUM_RESEND_ATTEMPTS := 6
  const UINT32_RANGE := 0x1_0000_0000
  const SEQN_LIMIT := 0x8000_0000

  function AsUint32(n: int): nat {
    if 0 <= n < UINT32_RANGE then n else if n == -1 then UINT32_RANGE - 1 else n % UINT32_RANGE
  }

  function AsInt32(u: nat): int {
    if u < SEQN_LIMIT then u
    else if u % UINT32_RANGE < SEQN_LIMIT then u % UINT32_RANGE else u % UINT32_RANGE - UINT32_RANGE
  }

  datatype Status = New | Open | Reset | Closing | Closed

  /** A streaming packet. `close` stands for the CLOSE or RESET flag, `badSignature` for an included
      signature that does not verify. */
  datatype Packet = Packet(sendID: nat, recvID: nat, seqn: nat, ackThrough: nat, nacks: seq<nat>,
                           syn: bool, close: bool, noAck: bool, badSignature: bool, payload: seq<byte>)

  datatype SentPacket = SentPacket(packet: Packet, sendTime: int)

  /** Window and round-trip bookkeeping. */
  datatype Rate = Rate(window: int, rtt: int, rto: int, lastIncrease: int)

  /** The state of one stream. `outbox` collects every packet handed to the tunnels, `posted` the close
      packets waiting in the service queue. `log` (every numbered packet ever built), `written` (every
      byte passed to Send) and `readOut` (every byte given to the reader) are history. */
  datatype State = State(
    recvID: nat, synRoom: nat, sendID: nat, seqNum: nat, last: int, status: Status, ackScheduled: bool,
    saved: seq<Packet>, sent: seq<SentPacket>, queue: seq<seq<byte>>, buffer: seq<byte>, eof: bool,
    rate: Rate, numResends: nat, posted: seq<Packet>, outbox: seq<Packet>, deleted: bool,
    log: seq<Packet>, written: seq<byte>, readOut: seq<byte>)

  function Fresh(recvID: nat, synRoom: nat): State {
    State(recvID, synRoom, 0, 0, -1, New, false, [], [], [], [], false,
          Rate(MIN_WINDOW_SIZE, INITIAL_RTT, INITIAL_RTO, 0), 0, [], [], false, [], [], [])
  }

  /** The receiving half of the stream is the same. */
  predicate SameReceiver(s: State, r: State) {
    r.last == s.last && r.saved == s.saved && r.queue == s.queue && r.readOut == s.readOut
  }

  /** The receiving half, the stream IDs and the packet room are the same. */
  predicate OnlySending(s: State, r: State) {
    SameReceiver(s, r) && r.sendID == s.sendID && r.recvID == s.recvID && r.synRoom == s.synRoom
  }

  /** Nothing leaves the log, and every packet handed to the tunnels since `s` is a numbered one. */
  predicate SendsNumbered(s: State, r: State) {
    && (forall p :: p in s.log ==> p in r.log)
    && (forall p :: p in r.outbox ==> p in s.outbox || p in r.log)
  }

  // ---------------------------------------------------------------- sorted packet sets

  /** Insertion into the set ordered by sequence number; an equal number is already there. */
  function InsertSaved(ps: seq<Packet>, p: Packet): seq<Packet> {
    if ps == [] then [p]
    else if p.seqn < ps[0].seqn then [p] + ps
    else if p.seqn == ps[0].seqn then ps
    else [ps[0]] + InsertSaved(ps[1..], p)
  }

  function InsertSent(es: seq<SentPacket>, e: SentPacket): seq<SentPacket> {
    if es == [] then [e]
    else if e.packet.seqn < es[0].packet.seqn then [e] + es
    else if e.packet.seqn == es[0].packet.seqn then es
    else [es[0]] + InsertSent(es[1..], e)
  }

  function InsertAll(es: seq<SentPacket>, ps: seq<Packet>, ts: int): seq<SentPacket> {
    if ps == [] then es
    else InsertSent(InsertAll(es, ps[..|ps| - 1], ts), SentPacket(ps[|ps| - 1], ts))
  }

  // ---------------------------------------------------------------- acknowledgements

  /** Packet `p` says that number `n` has been received. */
  predicate Claims(p: Packet, n: nat) {
    n <= p.ackThrough && n !in p.nacks
  }

  /** The outstanding packets `p` does not acknowledge, in order. */
  function Unacked(es: seq<SentPacket>, p: Packet): seq<SentPacket> {
    if es == [] then []
    else if Claims(p, es[0].packet.seqn) then Unacked(es[1..], p)
    else [es[0]] + Unacked(es[1..], p)
  }

  /** The outstanding packets `p` acknowledges, in order. */
  function Acked(es: seq<SentPacket>, p: Packet): seq<SentPacket> {
    if es == [] then []
    else if Claims(p, es[0].packet.seqn) then [es[0]] + Acked(es[1..], p)
    else Acked(es[1..], p)
  }

  /** The running average of the round-trip time: the old average counts once for each earlier packet. */
  function Average(rtt: int, seqn: nat, sample: int): int {
    (rtt * seqn + sample) / (seqn + 1)
  }

  function AckOne(r: Rate, e: SentPacket, ts: int): Rate {
    var rtt := Average(r.rtt, e.packet.seqn, ts - e.sendTime);
    var r1 := r.(rtt := rtt, rto := rtt * 3 / 2);
    if r.window < WINDOW_SIZE then r1.(window := r.window + 1)
    else if ts > r.lastIncrease + rtt then
      r1.(window := if r.window + 1 > MAX_WINDOW_SIZE then MAX_WINDOW_SIZE else r.window + 1, lastIncrease := ts)
    else r1
  }

  function AckAll(r: Rate, es: seq<SentPacket>, ts: int): Rate
    decreases |es|
  {
    if es == [] then r else AckAll(AckOne(r, es[0], ts), es[1..], ts)
  }

  function DropAcked(s: State, p: Packet, ts: int): State {
    s.(sent := Unacked(s.sent, p), rate := AckAll(s.rate, Acked(s.sent, p), ts))
  }

  /** After an ack: the freed window is used, and a closing stream tries to finish. */
  function Resume(s: State, acknowledged: bool, ts: int): (r: State)
    ensures OnlySending(s, r) && SendsNumbered(s, r)
  {
    var s1 := if acknowledged then SendBuffer(s.(numResends := 0), ts) else s;
    if s1.status.Closing? then Close(s1) else s1
  }

  function ProcessAck(s: State, p: Packet, ts: int): (r: State)
    ensures OnlySending(s, r) && SendsNumbered(s, r)
  {
    Resume(DropAcked(s, p, ts), Acked(s.sent, p) != [], ts)
  }

  // ---------------------------------------------------------------- sending

  function Min(a: nat, b: nat): nat {
    if a < b then a else b
  }

  /** `Send`: the bytes join the send buffer, which is no longer at its end. */
  function Write(s: State, data: seq<byte>): State {
    if data == [] then s
    else s.(buffer := s.buffer + data, eof := false, written := s.written + data)
  }

  /** Room for payload in the next packet. */
  function Room(s: State): nat {
    if s.status.New? then s.synRoom else FOLLOW_ON_ROOM
  }

  /** The bytes the next packet takes from the send buffer; a short read leaves the buffer at its end. */
  function Chunk(s: State): seq<byte> {
    if s.eof then [] else s.buffer[..Min(Room(s), |s.buffer|)]
  }

  function NextPacket(s: State, isNoAck: bool): Packet {
    Packet(s.sendID, s.recvID, s.seqNum, if isNoAck then AsUint32(s.last) else 0, [],
           s.status.New?, false, s.status.New? && isNoAck, false, Chunk(s))
  }

  function AfterPacket(s: State, p: Packet): State {
    s.(seqNum := AsUint32(s.seqNum + 1), status := if s.status.New? then Open else s.status,
       buffer := if s.eof then s.buffer else s.buffer[Min(Room(s), |s.buffer|)..],
       eof := s.eof || |s.buffer| < Room(s), log := s.log + [p])
  }

  predicate CanSend(s: State, numMsgs: int) {
    s.status.New? || (s.sendID != 0 && !s.eof && numMsgs > 0)
  }

  /** Only the building of packets touched the state. */
  predicate OnlyBuilt(s: State, r: State) {
    r == s.(seqNum := r.seqNum, status := r.status, buffer := r.buffer, eof := r.eof, log := r.log)
  }

  /** Builds packets while the window and the buffer allow; they are the new end of the log. */
  function Fill(s: State, numMsgs: int, isNoAck: bool): (r: State)
    ensures OnlyBuilt(s, r) && SendsNumbered(s, r)
    decreases if s.status.New? then 1 else 0, if numMsgs > 0 then numMsgs else 0
  {
    if CanSend(s, numMsgs) then Fill(AfterPacket(s, NextPacket(s, isNoAck)), numMsgs - 1, isNoAck) else s
  }

  /** The packets `r` has built since `s`. */
  function Built(s: State, r: State): seq<Packet> {
    if |s.log| <= |r.log| then r.log[|s.log|..] else []
  }

  /** Fresh packets become outstanding and go out. */
  function Launch(s: State, ps: seq<Packet>, ts: int): State {
    s.(ackScheduled := false, sent := InsertAll(s.sent, ps, ts), outbox := s.outbox + ps)
  }

  /** Sends what `r` has built since `s`, and a close packet once a closing stream has nothing left. */
  function Dispatch(s: State, r: State, ts: int): (r2: State)
    requires SendsNumbered(s, r)
    ensures SendsNumbered(s, r2)
  {
    var ps := Built(s, r);
    if ps == [] then r
    else
      var r1 := Launch(r, ps, ts);
      if r1.status.Closing? && r1.eof then SendClose(r1) else r1
  }

  function SendBuffer(s: State, ts: int): (r: State)
    ensures OnlySending(s, r) && SendsNumbered(s, r)
  {
    var numMsgs := s.rate.window - |s.sent|;
    if numMsgs <= 0 then s else Dispatch(s, Fill(s, numMsgs, s.last < 0), ts)
  }

  function ClosePacket(s: State): Packet {
    Packet(s.sendID, s.recvID, s.seqNum, AsUint32(s.last), [], false, true, false, false, [])
  }

  /** Numbers a close packet and leaves it to the service queue. */
  function SendClose(s: State): State {
    s.(seqNum := AsUint32(s.seqNum + 1), log := s.log + [ClosePacket(s)], posted := s.posted + [ClosePacket(s)])
  }

  /** The service runs the first posted send. */
  function RunPosted(s: State): State
    requires s.posted != []
  {
    var p := s.posted[0];
    s.(ackScheduled := false, outbox := s.outbox + [p], posted := s.posted[1..],
       sent := if s.status.Open? then InsertSent(s.sent, SentPacket(p, 0)) else s.sent)
  }

  /** `Close` on a stream that is not open. */
  function CloseNow(s: State): State {
    match s.status
    case Reset => SendClose(s).(deleted := true)
    case Closing => if s.sent == [] && s.eof then SendClose(s.(status := Closed)).(deleted := true) else s
    case Closed => s.(deleted := true)
    case _ => s
  }

  function Close(s: State): (r: State)
    ensures OnlySending(s, r) && SendsNumbered(s, r)
  {
    if s.status.Open? then CloseNow(s.(status := Closing)) else CloseNow(s)
  }

  // ---------------------------------------------------------------- receiving

  function ProcessPacket(s: State, p: Packet): (r: State)
    ensures SendsNumbered(s, r)
  {
    var s1 := if p.badSignature then Close(s) else s;
    var s2 := s1.(queue := if p.payload != [] then s1.queue + [p.payload] else s1.queue, last := AsInt32(p.seqn));
    if p.close || p.badSignature then Close(s2.(status := Reset)) else s2
  }

  /** Takes saved packets while the first one is next in sequence. */
  function Drain(s: State): (r: State)
    ensures SendsNumbered(s, r)
    decreases |s.saved|
  {
    if s.saved != [] && s.saved[0].seqn == AsUint32(s.last + 1) then
      Drain(ProcessPacket(s.(saved := s.saved[1..]), s.saved[0]))
    else s
  }

  /** The ack part of an incoming packet, which also tells the stream its peer's ID. */
  function TakeAck(s: State, p: Packet, ts: int): (r: State)
    ensures SendsNumbered(s, r)
  {
    var s1 := if s.sendID == 0 then s.(sendID := p.recvID) else s;
    if !p.noAck then ProcessAck(s1, p, ts) else s1
  }

  /** After delivery: an open stream schedules its ack, a new one answers the SYN. */
  function Respond(s: State, isSyn: bool, ts: int): (r: State)
    ensures SendsNumbered(s, r) && SameReceiver(s, r)
  {
    if s.status.Open? then s.(ackScheduled := true)
    else if isSyn then SendBuffer(s, ts)
    else s
  }

  function TakeInSequence(s: State, p: Packet, ts: int): (r: State)
    ensures SendsNumbered(s, r)
  {
    Respond(Drain(ProcessPacket(s, p)), p.syn, ts)
  }

  function TakeEarly(s: State, p: Packet): State {
    var s1 := s.(saved := InsertSaved(s.saved, p));
    if s1.last >= 0 then SendQuickAck(s1.(ackScheduled := false)) else s1.(ackScheduled := true)
  }

  function TakeNumbered(s: State, p: Packet, ts: int): State {
    if AsInt32(p.seqn) == 0 && !p.syn then s
    else if p.syn || AsInt32(p.seqn) == s.last + 1 then TakeInSequence(s, p, ts)
    else if AsInt32(p.seqn) <= s.last then SendQuickAck(s)
    else TakeEarly(s, p)
  }

  function HandleNextPacket(s: State, p: Packet, ts: int): State {
    TakeNumbered(TakeAck(s, p, ts), p, ts)
  }

  /** The numbers from `lo` up to but not including `hi`. */
  function Range(lo: int, hi: int): seq<nat>
    requires 0 <= lo
    decreases hi - lo
  {
    if lo < hi then Range(lo, hi - 1) + [hi - 1] else []
  }

  /** The scan of `SendQuickAck` over the saved packets: the final ackThrough and the NACK list. */
  function NackScan(ps: seq<Packet>, next: nat, through: nat, nacks: seq<nat>): (nat, seq<nat>) {
    if ps == [] then (through, nacks)
    else if |nacks| + AsUint32(ps[0].seqn - next) >= 256 then (next, nacks)
    else NackScan(ps[1..], ps[0].seqn + 1, through, nacks + Range(next, ps[0].seqn))
  }

  /** The highest number received so far. */
  function Top(s: State): int {
    if s.saved != [] && AsInt32(s.saved[|s.saved| - 1].seqn) > s.last then AsInt32(s.saved[|s.saved| - 1].seqn) else s.last
  }

  function QuickAck(s: State): Packet
    requires Top(s) >= 0 && s.last >= -1
  {
    var (through, nacks) := if Top(s) > s.last then NackScan(s.saved, s.last + 1, Top(s), []) else (Top(s), []);
    Packet(s.sendID, s.recvID, 0, through, nacks, false, false, false, false, [])
  }

  /** Nothing is sent before anything was received; a last number below -1 (2^31 packets) is outside the model. */
  function SendQuickAck(s: State): State {
    if Top(s) < 0 || s.last < -1 then s else s.(outbox := s.outbox + [QuickAck(s)])
  }

  /** The receive queue without its first `n` bytes. */
  function DropBytes(q: seq<seq<byte>>, n: nat): seq<seq<byte>> {
    if n == 0 || q == [] then q
    else if n >= |q[0]| then DropBytes(q[1..], n - |q[0]|)
    else [q[0][n..]] + q[1..]
  }

  function ReadSome(s: State, n: nat): State {
    var k := Min(n, |Flatten(s.queue)|);
    s.(queue := DropBytes(s.queue, k), readOut := s.readOut + Flatten(s.queue)[..k])
  }

  // ---------------------------------------------------------------- timers

  predicate Due(e: SentPacket, ts: int, rto: int) {
    ts >= e.sendTime + rto
  }

  function DuePackets(es: seq<SentPacket>, ts: int, rto: int): seq<Packet> {
    if es == [] then []
    else (if Due(es[0], ts, rto) then [es[0].packet] else []) + DuePackets(es[1..], ts, rto)
  }

  function Touched(es: seq<SentPacket>, ts: int, rto: int): seq<SentPacket> {
    if es == [] then []
    else [if Due(es[0], ts, rto) then es[0].(sendTime := ts) else es[0]] + Touched(es[1..], ts, rto)
  }

  function BackOff(r: Rate, attempt: nat): Rate {
    if attempt == 1 then r.(rto := r.rto * 2, window := if r.window / 2 < MIN_WINDOW_SIZE then MIN_WINDOW_SIZE else r.window / 2)
    else if attempt == 2 then r.(rto := INITIAL_RTO)
    else r.(rto := r.rto * 2)
  }

  function HandleResendTimer(s: State, ts: int): State {
    if s.numResends >= MAX_NUM_RESEND_ATTEMPTS then Close(s.(status := Reset))
    else
      var due := DuePackets(s.sent, ts, s.rate.rto);
      var s1 := s.(sent := Touched(s.sent, ts, s.rate.rto));
      if due == [] then s1
      else s1.(numResends := s.numResends + 1, rate := BackOff(s.rate, s.numResends + 1), outbox := s.outbox + due)
  }

  function HandleAckSendTimer(s: State): State {
    if !s.ackScheduled then s
    else if s.last < 0 then Close(s.(status := Reset))
    else (if s.status.Open? then SendQuickAck(s) else s).(ackScheduled := false)
  }
}
