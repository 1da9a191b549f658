/**
 Progress: from every reliable state in which two open streams know each other and resends are left, there is a way to
 go on, checked event by event beforehand, after which all that one of them wrote can be read by the other.
 */
module StreamingProgress {
  import opened Bytes
  import opened StreamingSpec
  import opened StreamingInvariants
  import opened StreamingForeign
  import opened StreamingProtocol
  import opened StreamingAcks
  import opened StreamingReliability
  import opened StreamingLimits
  import opened StreamingGuard
  import opened StreamingClose
  import opened StreamingSecond

  // ---------------------------------------------------------------- what is left to send

  /** How many packets a stream may still build without being written to. */
  function Left(s: State): nat {
    |s.buffer| + if s.eof then 0 else 1
  }

  /** An open stream goes on from `s` to `r` by sending only. */
  ghost predicate SendsOn(s: State, r: State) {
    && r.status == s.status && r.sendID == s.sendID && r.recvID == s.recvID && r.deleted == s.deleted
    && r.last == s.last && r.saved == s.saved && r.queue == s.queue && r.readOut == s.readOut && r.written == s.written
    && s.log <= r.log && s.outbox <= r.outbox && |r.log| + Left(r) <= |s.log| + Left(s)
    && (|r.log| > |s.log| ==> Left(r) < Left(s))
    && forall i :: |s.log| <= i < |r.log| ==> !r.log[i].close && r.log[i].sendID == s.sendID
  }

  lemma SendsOnAgain(s: State, t: State, r: State)
    requires SendsOn(s, t) && SendsOn(t, r)
    ensures SendsOn(s, r)
  {
    PrefixTransitive(s.log, t.log, r.log);
    PrefixTransitive(s.outbox, t.outbox, r.outbox);
    forall i | |s.log| <= i < |r.log| ensures !r.log[i].close && r.log[i].sendID == s.sendID {
      if i < |t.log| {
        assert r.log[i] == t.log[i];
      }
    }
  }

  lemma BuildSendsOn(s: State, isNoAck: bool)
    requires !s.status.New? && !s.eof
    ensures SendsOn(s, AfterPacket(s, NextPacket(s, isNoAck)))
  {
  }

  lemma {:induction false} FillSendsOn(s: State, numMsgs: int, isNoAck: bool)
    requires !s.status.New?
    ensures SendsOn(s, Fill(s, numMsgs, isNoAck)) && (CanSend(s, numMsgs) ==> |Fill(s, numMsgs, isNoAck).log| > |s.log|)
    decreases if numMsgs > 0 then numMsgs else 0
  {
    if CanSend(s, numMsgs) {
      var s1 := AfterPacket(s, NextPacket(s, isNoAck));
      BuildSendsOn(s, isNoAck);
      FillSendsOn(s1, numMsgs - 1, isNoAck);
      SendsOnAgain(s, s1, Fill(s1, numMsgs - 1, isNoAck));
    }
  }

  lemma DispatchSendsOn(s: State, s1: State, ts: int)
    requires s.status.Open? && SendsOn(s, s1) && SendsNumbered(s, s1) && s1.outbox == s.outbox
    ensures SendsOn(s, Dispatch(s, s1, ts)) && Dispatch(s, s1, ts).log == s1.log
    ensures Dispatch(s, s1, ts).numResends == s1.numResends
  {
  }

  /** What an open stream's `SendBuffer` does. */
  lemma SendBufferOpen(s: State, ts: int)
    requires s.status.Open?
    ensures var r := SendBuffer(s, ts); SendsOn(s, r) && r.numResends == s.numResends
    ensures s.rate.window > |s.sent| && s.sendID != 0 && !s.eof ==> |SendBuffer(s, ts).log| > |s.log|
  {
    var numMsgs := s.rate.window - |s.sent|;
    if numMsgs > 0 {
      FillSendsOn(s, numMsgs, s.last < 0);
      DispatchSendsOn(s, Fill(s, numMsgs, s.last < 0), ts);
    }
  }

  /** The ack in a packet for an open stream. */
  lemma TakeAckOpen(s: State, p: Packet, ts: int)
    requires s.status.Open? && s.sendID != 0
    ensures SendsOn(s, TakeAck(s, p, ts))
  {
    if !p.noAck {
      var s1 := DropAcked(s, p, ts);
      SendBufferOpen(s1.(numResends := 0), ts);
      assert TakeAck(s, p, ts) == Resume(s1, Acked(s.sent, p) != [], ts);
    }
  }

  // ---------------------------------------------------------------- the receiving stream

  /** An open stream goes on from `s` to `r`, staying open. */
  ghost predicate StaysOpen(s: State, r: State) {
    && r.status.Open? && s.status.Open? && r.sendID == s.sendID && r.recvID == s.recvID && r.deleted == s.deleted
    && r.written == s.written && r.last >= s.last && s.outbox <= r.outbox && |r.log| + Left(r) <= |s.log| + Left(s)
  }

  lemma {:induction false} DrainOpen(s: State)
    requires -1 <= s.last < SEQN_LIMIT
    requires forall i :: 0 <= i < |s.saved| ==> !s.saved[i].badSignature && !s.saved[i].close && s.saved[i].seqn < SEQN_LIMIT
    ensures var r := Drain(s); r == s.(saved := r.saved, queue := r.queue, last := r.last) && r.last >= s.last
    decreases |s.saved|
  {
    if s.saved != [] && s.saved[0].seqn == AsUint32(s.last + 1) {
      var s1 := ProcessPacket(s.(saved := s.saved[1..]), s.saved[0]);
      assert s1 == s.(saved := s1.saved, queue := s1.queue, last := s1.last) && s1.saved == s.saved[1..];
      DrainOpen(s1);
      assert Drain(s) == Drain(s1);
    }
  }

  lemma InSequenceOpen(s: State, p: Packet, ts: int)
    requires s.status.Open? && -1 <= s.last <= p.seqn && WellBuilt(p) && !p.close && !p.syn
    requires forall i :: 0 <= i < |s.saved| ==> !s.saved[i].badSignature && !s.saved[i].close && s.saved[i].seqn < SEQN_LIMIT
    ensures StaysOpen(s, TakeInSequence(s, p, ts)) && TakeInSequence(s, p, ts).last >= p.seqn
  {
    var s1 := ProcessPacket(s, p);
    assert s1 == s.(queue := s1.queue, last := p.seqn);
    DrainOpen(s1);
    assert TakeInSequence(s, p, ts) == Drain(s1).(ackScheduled := true);
  }

  lemma EarlyOpen(s: State, p: Packet)
    requires s.status.Open?
    ensures StaysOpen(s, TakeEarly(s, p))
  {
  }

  ghost predicate QuietLog(log: seq<Packet>) {
    LogOk(log) && NoClose(log) && |log| < MAX_PACKETS
  }

  /** A packet of the sender's log is held once it has been delivered. */
  lemma NumberedOpen(s: State, p: Packet, ts: int, log: seq<Packet>)
    requires s.status.Open? && ReceiverOk(s, log) && QuietLog(log) && Logged(p, log) && !p.syn && p.seqn >= 1
    ensures StaysOpen(s, TakeNumbered(s, p, ts)) && Holds(TakeNumbered(s, p, ts), p.seqn)
  {
    assert AsInt32(p.seqn) == p.seqn;
    if p.seqn == s.last + 1 {
      InSequenceOpen(s, p, ts);
      assert TakeNumbered(s, p, ts) == TakeInSequence(s, p, ts);
    } else if p.seqn <= s.last {
      assert TakeNumbered(s, p, ts) == SendQuickAck(s);
    } else {
      EarlyOpen(s, p);
      InsertSavedOk(s.saved, p, log);
      assert TakeNumbered(s, p, ts) == TakeEarly(s, p);
      assert p in TakeEarly(s, p).saved;
    }
  }

  lemma DeliveredOpen(s: State, p: Packet, ts: int, log: seq<Packet>)
    requires s.status.Open? && s.sendID != 0 && SenderOk(s) && |s.log| < MAX_PACKETS
    requires ReceiverOk(s, log) && QuietLog(log) && Logged(p, log) && !p.syn && p.seqn >= 1
    ensures StaysOpen(s, HandleNextPacket(s, p, ts)) && Holds(HandleNextPacket(s, p, ts), p.seqn)
  {
    var s1 := TakeAck(s, p, ts);
    TakeAckOpen(s, p, ts);
    TakeAckOk(s, p, ts, log);
    NumberedOpen(s1, p, ts, log);
  }

  /** A repeated packet is answered with a quick ack at once. */
  lemma RepeatOpen(s: State, p: Packet, ts: int)
    requires s.status.Open? && s.sendID != 0 && !p.syn && 1 <= p.seqn <= s.last < SEQN_LIMIT
    ensures var r := HandleNextPacket(s, p, ts);
            && StaysOpen(s, r) && r.last == s.last && r.saved == s.saved && |r.outbox| > |s.outbox|
            && r.outbox[|r.outbox| - 1] == QuickAck(r) && QuickAck(r).sendID == s.sendID
  {
    var s1 := TakeAck(s, p, ts);
    TakeAckOpen(s, p, ts);
    assert AsInt32(p.seqn) == p.seqn;
    assert HandleNextPacket(s, p, ts) == SendQuickAck(s1);
    assert SendQuickAck(s1) == s1.(outbox := s1.outbox + [QuickAck(s1)]);
  }

  // ---------------------------------------------------------------- the sending stream

  lemma {:induction false} AllUnacked(es: seq<SentPacket>, p: Packet)
    requires forall i :: 0 <= i < |es| ==> Claims(p, es[i].packet.seqn)
    ensures Unacked(es, p) == [] && (es != [] ==> Acked(es, p) != [])
  {
    if es != [] {
      AllUnacked(es[1..], p);
    }
  }

  /** `r` has nothing outstanding but what it has built since `s`. */
  ghost predicate OnlyNewOut(s: State, r: State) {
    (|r.log| == |s.log| ==> r.sent == []) && forall i :: 0 <= i < |r.sent| ==> r.sent[i].packet.seqn >= |s.log|
  }

  lemma NewPackets(log: seq<Packet>, k: nat, ts: int)
    requires LogOk(log) && k <= |log|
    ensures var es := InsertAll([], log[k..], ts);
            |es| == |log| - k && forall i :: 0 <= i < |es| ==> es[i].packet.seqn >= k
  {
    assert log[k..] == log[k..k + |log[k..]|];
    InsertAllLast([], log[k..], ts, log, k);
  }

  lemma DispatchNew(s: State, s1: State, ts: int)
    requires s.status.Open? && s.sent == [] && s1.sent == [] && s1.status.Open? && s.log <= s1.log && LogOk(s1.log)
    requires SendsNumbered(s, s1)
    ensures OnlyNewOut(s, Dispatch(s, s1, ts))
  {
    NewPackets(s1.log, |s.log|, ts);
  }

  lemma SendNew(s: State, ts: int)
    requires s.status.Open? && s.sent == [] && SenderOk(s) && |s.log| < MAX_PACKETS
    ensures OnlyNewOut(s, SendBuffer(s, ts))
  {
    var s1 := Filled(s, s.rate.window);
    DispatchNew(s, s1, ts);
  }

  lemma Filled(s: State, numMsgs: int) returns (r: State)
    requires s.status.Open? && SenderOk(s) && |s.log| < MAX_PACKETS && 1 <= numMsgs <= MAX_WINDOW_SIZE
    ensures r == Fill(s, numMsgs, s.last < 0) && r.sent == s.sent && r.status.Open? && s.log <= r.log && LogOk(r.log)
    ensures SendsNumbered(s, r)
  {
    r := Fill(s, numMsgs, s.last < 0);
    FillSendsOn(s, numMsgs, s.last < 0);
    FillOk(s, numMsgs, s.last < 0);
  }

  /** Sending with nothing outstanding. */
  lemma SendFreed(s: State, ts: int)
    requires s.status.Open? && s.sendID != 0 && s.sent == [] && SenderOk(s) && |s.log| < MAX_PACKETS
    ensures var r := SendBuffer(s, ts);
            SendsOn(s, r) && r.numResends == s.numResends && OnlyNewOut(s, r) && (!s.eof ==> |r.log| > |s.log|)
  {
    SendBufferOpen(s, ts);
    SendNew(s, ts);
  }

  /** A stream whose packets have all been acknowledged. */
  function Freed(s: State, p: Packet, ts: int): State {
    s.(sent := [], rate := AckAll(s.rate, Acked(s.sent, p), ts), numResends := 0)
  }

  lemma FreedOk(s: State, p: Packet, ts: int)
    requires SenderOk(s) && s.sent != [] && forall i :: 0 <= i < |s.sent| ==> Claims(p, s.sent[i].packet.seqn)
    ensures SenderOk(Freed(s, p, ts)) && Acked(s.sent, p) != []
    ensures DropAcked(s, p, ts).(numResends := 0) == Freed(s, p, ts)
  {
    AllUnacked(s.sent, p);
    AckAllWindow(s.rate, Acked(s.sent, p), ts);
  }

  /** A plain ack for everything frees the window, and what it allows is sent. */
  lemma AckedOpen(s: State, p: Packet, ts: int)
    requires s.status.Open? && s.sendID != 0 && p.seqn == 0 && !p.syn && !p.noAck
    requires SenderOk(s) && |s.log| < MAX_PACKETS && s.sent != []
    requires forall i :: 0 <= i < |s.sent| ==> Claims(p, s.sent[i].packet.seqn)
    ensures var r := HandleNextPacket(s, p, ts);
            SendsOn(s, r) && r.numResends == 0 && OnlyNewOut(s, r) && (!s.eof ==> |r.log| > |s.log|)
  {
    FreedOk(s, p, ts);
    SendFreed(Freed(s, p, ts), ts);
    AckIsSend(s, p, ts);
  }

  lemma AckIsSend(s: State, p: Packet, ts: int)
    requires s.status.Open? && s.sendID != 0 && p.seqn == 0 && !p.syn && !p.noAck
    requires Acked(s.sent, p) != [] && DropAcked(s, p, ts).(numResends := 0) == Freed(s, p, ts)
    ensures HandleNextPacket(s, p, ts) == SendBuffer(Freed(s, p, ts), ts)
  {
    SendBufferOpen(Freed(s, p, ts), ts);
  }

  // ---------------------------------------------------------------- two sides of one system

  /** The system with one side and its peer replaced. */
  function Put(sys: System, side: Side, x: State, y: State): System
    requires sys.peer < |sys.streams|
  {
    if side.Opener? then sys.(a := x, streams := sys.streams[sys.peer := y])
    else sys.(a := y, streams := sys.streams[sys.peer := x])
  }

  lemma PutIs(sys: System, side: Side, x: State, y: State)
    requires sys.peer < |sys.streams|
    ensures var r := Put(sys, side, x, y);
            This(r, side) == x && Peer(r, side) == y && |r.streams| == |sys.streams| && r.peer == sys.peer
    ensures InRange(sys) && |x.log| < MAX_PACKETS && |y.log| < MAX_PACKETS ==> InRange(Put(sys, side, x, y))
  {
  }

  /** This side acts, or packet `i` of its outbox reaches the other side. */
  function Acts(sys: System, side: Side, act: Action): Event {
    if side.Opener? then AtOpener(act) else AtStream(sys.peer, act)
  }

  function Reaches(sys: System, side: Side, i: nat): Event {
    if side.Opener? then AtStream(sys.peer, Deliver(i, 0)) else Arrive(sys.peer, i, 0)
  }

  lemma ActsIs(sys: System, side: Side, act: Action)
    requires sys.peer < |sys.streams| && !act.Deliver?
    ensures Step(sys, Acts(sys, side, act)) == Put(sys, side, StreamStep(This(sys, side), [], act), Peer(sys, side))
  {
    assert sys.streams[sys.peer := sys.streams[sys.peer]] == sys.streams;
  }

  lemma ReachesIs(sys: System, side: Side, i: nat)
    requires sys.peer < |sys.streams| && !Unheard(sys.a)
    ensures Step(sys, Reaches(sys, side, i)) ==
            Put(sys, side, This(sys, side), StreamStep(Peer(sys, side), This(sys, side).outbox, Deliver(i, 0)))
  {
    assert sys.streams[sys.peer := sys.streams[sys.peer]] == sys.streams;
  }

  /** The two streams are open and know each other. */
  ghost predicate Linked(x: State, y: State) {
    && x.status.Open? && y.status.Open? && !x.deleted && !y.deleted && x.last >= 0 && y.last >= 0
    && x.sendID == y.recvID && x.sendID != 0 && y.sendID == x.recvID && y.sendID != 0
  }

  /** What is outstanding is addressed to the peer; the SYN is not outstanding. */
  ghost predicate OutTo(x: State) {
    forall i :: 0 <= i < |x.sent| ==> x.sent[i].packet.seqn >= 1 && x.sent[i].packet.sendID == x.sendID
  }

  /**
   The two streams are linked, nothing this side has outstanding is its SYN, and there are packet numbers for all they
   still have to send.
   */
  ghost predicate Talking(sys: System, side: Side) {
    && InRange(sys) && sys.streams != [] && Linked(This(sys, side), Peer(sys, side)) && OutTo(This(sys, side))
    && |This(sys, side).log| + Left(This(sys, side)) < MAX_PACKETS && |Peer(sys, side).log| + Left(Peer(sys, side)) < MAX_PACKETS
  }

  /** A reliable state of two streams that talk. */
  ghost predicate Live(sys: System, side: Side) {
    Reliable(sys) && Calm(sys) && Talking(sys, side) && NoClose(This(sys, side).log)
  }

  /** Resends are left. */
  ghost predicate Ready(sys: System, side: Side) {
    Live(sys, side) && This(sys, side).numResends < MAX_NUM_RESEND_ATTEMPTS
  }

  /** The event `e` is allowed, fair and guarded in `sys`. */
  ghost predicate Safe(sys: System, e: Event) {
    Allowed(sys, e) && FairArrival(sys, e) && GuardedEvent(sys, e)
  }

  lemma SafeKeeps(sys: System, e: Event)
    requires Reliable(sys) && Calm(sys) && Safe(sys, e)
    ensures Reliable(Step(sys, e)) && Calm(Step(sys, e))
  {
    StepCalm(sys, e);
    StepReliable(sys, e);
  }

  /** From `s0` the run `es` of safe events leads to `r`. */
  ghost predicate Way(s0: System, es: seq<Event>, r: System) {
    GuardedRun(s0, es) && Run(s0, es) == r
  }

  lemma WayOn(s0: System, es: seq<Event>, sys: System, e: Event, r: System)
    requires Way(s0, es, sys) && Safe(sys, e) && Step(sys, e) == r
    ensures Way(s0, es + [e], r)
  {
    assert (es + [e])[..|es|] == es;
  }

  // ---------------------------------------------------------------- each kind of event

  lemma LiveParts(sys: System, side: Side)
    requires Live(sys, side)
    ensures var x, y := This(sys, side), Peer(sys, side);
            && sys.peer < |sys.streams| && !Unheard(sys.a)
            && SenderOk(x) && SenderOk(y) && ReceiverOk(y, x.log) && ReceiverOk(x, y.log) && NoLoss(x, y) && TrueAcks(y)
            && CalmStream(x) && CalmStream(y) && QuietLog(x.log) && |y.log| < MAX_PACKETS
  {
    SideReliable(sys, side);
    PeerOk(sys);
    assert StreamOk(PeerOf(sys), sys.a.log);
    assert CalmStream(sys.streams[sys.peer]);
  }

  lemma ActsSafe(sys: System, side: Side, act: Action)
    requires Ready(sys, side) && (act.Pump? || act.ResendTimer?)
    ensures Safe(sys, Acts(sys, side, act))
  {
    LiveParts(sys, side);
  }

  /** A packet of `x`, not a SYN and not far ahead, may reach `y`. */
  lemma ReachesSafe(sys: System, side: Side, i: nat)
    requires Reliable(sys) && InRange(sys) && sys.peer < |sys.streams| && !Unheard(sys.a)
    requires var x, y := This(sys, side), Peer(sys, side);
             && y.last >= 0 && i < |x.outbox| && !x.outbox[i].syn && x.outbox[i].seqn <= y.last + 256
    ensures Safe(sys, Reaches(sys, side, i))
  {
  }

  /** After a safe event that changes the two streams into `x` and `y` the state is live again. */
  lemma LiveAgain(sys: System, side: Side, e: Event, x: State, y: State)
    requires Live(sys, side) && Safe(sys, e) && sys.peer < |sys.streams| && Step(sys, e) == Put(sys, side, x, y)
    requires Linked(x, y) && NoClose(x.log) && OutTo(x)
    requires |x.log| + Left(x) < MAX_PACKETS && |y.log| + Left(y) < MAX_PACKETS
    ensures Live(Put(sys, side, x, y), side)
  {
    SafeKeeps(sys, e);
    PutIs(sys, side, x, y);
  }

  // ---------------------------------------------------------------- sending

  /** This side pumps or resends, which turns it into `x`. */
  lemma ActOn(sys: System, side: Side, act: Action, x: State) returns (e: Event, r: System)
    requires Ready(sys, side) && (act.Pump? || act.ResendTimer?) && x == StreamStep(This(sys, side), [], act)
    requires Linked(x, Peer(sys, side)) && NoClose(x.log) && OutTo(x) && |x.log| + Left(x) < MAX_PACKETS
    ensures Safe(sys, e) && Step(sys, e) == r && Live(r, side) && This(r, side) == x && Peer(r, side) == Peer(sys, side)
  {
    e, r := Acts(sys, side, act), Put(sys, side, x, Peer(sys, side));
    LiveParts(sys, side);
    ActsSafe(sys, side, act);
    ActsIs(sys, side, act);
    LiveAgain(sys, side, e, x, Peer(sys, side));
    PutIs(sys, side, x, Peer(sys, side));
  }

  lemma SentIsTo(s: State, r: State)
    requires SendsOn(s, r) && OnlyNewOut(s, r) && SentOk(r.sent, r.log) && NoClose(s.log) && s.log != []
    ensures OutTo(r) && NoClose(r.log)
  {
    forall i | 0 <= i < |r.log| ensures !r.log[i].close {
      assert i < |s.log| ==> r.log[i] == s.log[i];
    }
    forall i | 0 <= i < |r.sent| ensures r.sent[i].packet.seqn >= 1 && r.sent[i].packet.sendID == r.sendID {
      assert Logged(r.sent[i].packet, r.log);
    }
  }

  /** What pumping does to a stream with nothing outstanding and something to send. */
  lemma PumpState(x: State, y: State) returns (r: State)
    requires SenderOk(x) && Linked(x, y) && NoClose(x.log) && x.log != [] && x.sent == [] && !x.eof
    requires |x.log| + Left(x) < MAX_PACKETS
    ensures r == StreamStep(x, [], Pump(0)) && Linked(r, y) && NoClose(r.log) && OutTo(r)
    ensures Left(r) < Left(x) && |r.log| + Left(r) < MAX_PACKETS
    ensures r.log != [] && r.written == x.written && r.numResends == x.numResends
  {
    r := SendBuffer(x, 0);
    SendFreed(x, 0);
    SendBufferOk(x, 0);
    SentIsTo(x, SendBuffer(x, 0));
  }

  /** With nothing outstanding and something to send, more of it goes out. */
  lemma PumpOn(sys: System, side: Side) returns (e: Event, r: System)
    requires Ready(sys, side) && This(sys, side).sent == [] && !This(sys, side).eof && This(sys, side).log != []
    ensures Safe(sys, e) && Step(sys, e) == r && Ready(r, side) && Left(This(r, side)) < Left(This(sys, side))
    ensures This(r, side).written == This(sys, side).written && This(r, side).log != []
  {
    LiveParts(sys, side);
    var x := PumpState(This(sys, side), Peer(sys, side));
    e, r := ActOn(sys, side, Pump(0), x);
  }

  // ---------------------------------------------------------------- resending everything

  /** A time at which everything outstanding is due. */
  function AllDueAt(es: seq<SentPacket>, rto: int): (ts: int)
    ensures forall i :: 0 <= i < |es| ==> Due(es[i], ts, rto)
  {
    if es == [] then 0
    else
      var ts := AllDueAt(es[1..], rto);
      if ts >= es[0].sendTime + rto then ts else es[0].sendTime + rto
  }

  function PacketsOf(es: seq<SentPacket>): (ps: seq<Packet>)
    ensures |ps| == |es| && forall i :: 0 <= i < |es| ==> ps[i] == es[i].packet
  {
    if es == [] then [] else [es[0].packet] + PacketsOf(es[1..])
  }

  lemma {:induction false} AllDue(es: seq<SentPacket>, ts: int, rto: int)
    requires forall i :: 0 <= i < |es| ==> Due(es[i], ts, rto)
    ensures DuePackets(es, ts, rto) == PacketsOf(es)
  {
    if es != [] {
      AllDue(es[1..], ts, rto);
    }
  }

  /** The last packets of the outbox are those outstanding. */
  ghost predicate JustSent(x: State, base: nat) {
    base + |x.sent| <= |x.outbox| && forall i :: 0 <= i < |x.sent| ==> x.outbox[base + i] == x.sent[i].packet
  }

  lemma ResendAll(x: State)
    requires x.sent != [] && x.numResends < MAX_NUM_RESEND_ATTEMPTS
    ensures var r := HandleResendTimer(x, AllDueAt(x.sent, x.rate.rto));
            && JustSent(r, |x.outbox|) && SamePackets(x.sent, r.sent) && r.log == x.log && Left(r) == Left(x)
            && r.status == x.status && r.sendID == x.sendID && r.recvID == x.recvID && r.deleted == x.deleted && r.last == x.last
            && r.written == x.written && r.eof == x.eof
  {
    var ts := AllDueAt(x.sent, x.rate.rto);
    AllDue(x.sent, ts, x.rate.rto);
    ResendPackets(x, ts);
  }

  lemma ResendState(x: State, y: State) returns (act: Action, r: State)
    requires Linked(x, y) && OutTo(x) && x.sent != [] && x.numResends < MAX_NUM_RESEND_ATTEMPTS
    ensures act.ResendTimer? && r == StreamStep(x, [], act) && Linked(r, y) && OutTo(r) && JustSent(r, |x.outbox|)
    ensures r.sent != [] && r.written == x.written && r.log == x.log && Left(r) == Left(x) && r.eof == x.eof
  {
    ResendAll(x);
    act := ResendTimer(AllDueAt(x.sent, x.rate.rto));
    r := HandleResendTimer(x, AllDueAt(x.sent, x.rate.rto));
  }

  lemma ResendOn(sys: System, side: Side) returns (e: Event, r: System)
    requires Ready(sys, side) && This(sys, side).sent != []
    ensures Safe(sys, e) && Step(sys, e) == r && Live(r, side) && JustSent(This(r, side), |This(sys, side).outbox|)
    ensures var x, x' := This(sys, side), This(r, side);
            x'.sent != [] && x'.written == x.written && x'.log == x.log && Left(x') == Left(x) && x'.eof == x.eof
  {
    var act, x := ResendState(This(sys, side), Peer(sys, side));
    e, r := ActOn(sys, side, act, x);
  }

  // ---------------------------------------------------------------- delivering everything

  /** The packet at `i` of the outbox is a numbered one for the peer, the SYN aside. */
  ghost predicate Sends(x: State, i: nat) {
    && i < |x.outbox| && Logged(x.outbox[i], x.log) && !x.outbox[i].syn && x.outbox[i].seqn >= 1
    && x.outbox[i].sendID == x.sendID
  }

  lemma SendsAgain(x: State, base: nat, k: nat)
    requires SenderOk(x) && OutTo(x) && JustSent(x, base) && k < |x.sent|
    ensures Sends(x, base + k) && x.outbox[base + k] == x.sent[k].packet
  {
    assert Logged(x.sent[k].packet, x.log);
  }

  /** What a delivery does to the receiving stream. */
  lemma PacketTaken(x: State, y: State, p: Packet) returns (r: State)
    requires Linked(x, y) && SenderOk(y) && |y.log| + Left(y) < MAX_PACKETS && ReceiverOk(y, x.log) && QuietLog(x.log)
    requires Logged(p, x.log) && !p.syn && p.seqn >= 1
    ensures r == HandleNextPacket(y, p, 0) && StaysOpen(y, r) && Holds(r, p.seqn)
    ensures Linked(x, r) && |r.log| + Left(r) < MAX_PACKETS
  {
    r := HandleNextPacket(y, p, 0);
    DeliveredOpen(y, p, 0, x.log);
  }

  lemma ReachState(x: State, y: State, i: nat)
    requires Linked(x, y) && SenderOk(y) && |y.log| + Left(y) < MAX_PACKETS && ReceiverOk(y, x.log) && QuietLog(x.log)
    requires Sends(x, i)
    ensures var r := StreamStep(y, x.outbox, Deliver(i, 0));
            && r == HandleNextPacket(y, x.outbox[i], 0) && StaysOpen(y, r) && Holds(r, x.outbox[i].seqn)
            && Linked(x, r) && |r.log| + Left(r) < MAX_PACKETS
  {
    assert Routed(y, x.outbox[i]);
    var r := PacketTaken(x, y, x.outbox[i]);
    assert StreamStep(y, x.outbox, Deliver(i, 0)) == r;
  }

  /** Packet `i` of this side, next or held already, reaches the other. */
  lemma ReachOn(sys: System, side: Side, i: nat) returns (e: Event, r: System)
    requires Live(sys, side) && Sends(This(sys, side), i) && This(sys, side).outbox[i].seqn <= Peer(sys, side).last + 1
    ensures Safe(sys, e) && Step(sys, e) == r && Live(r, side) && This(r, side) == This(sys, side)
    ensures Peer(r, side) == HandleNextPacket(Peer(sys, side), This(sys, side).outbox[i], 0)
    ensures Holds(Peer(r, side), This(sys, side).outbox[i].seqn) && HoldsMore(Peer(sys, side), Peer(r, side))
  {
    var x, y := This(sys, side), Peer(sys, side);
    var y' := StreamStep(y, x.outbox, Deliver(i, 0));
    e, r := Reaches(sys, side, i), Put(sys, side, x, y');
    LiveParts(sys, side);
    ReachState(x, y, i);
    DeliverHolds(y, x.outbox[i], 0, x.log);
    ReachesSafe(sys, side, i);
    ReachesIs(sys, side, i);
    LiveAgain(sys, side, e, x, y');
    PutIs(sys, side, x, y');
  }

  /** The first `k` outstanding packets of `x` are held by `y`. */
  ghost predicate HeldTo(x: State, y: State, k: nat)
    requires k <= |x.sent|
  {
    forall j :: 0 <= j < k ==> Holds(y, x.sent[j].packet.seqn)
  }

  /** Everything below the first packet that has not been delivered is held. */
  lemma HeldBelow(x: State, y: State, k: nat)
    requires SenderOk(x) && ReceiverOk(y, x.log) && NoLoss(x, y) && NoClose(x.log) && k <= |x.sent| && HeldTo(x, y, k)
    ensures y.last + 1 >= if k < |x.sent| then x.sent[k].packet.seqn else |x.log|
  {
    var n := y.last + 1;
    assert !Holds(y, n);
    if n < |x.log| {
      assert Outstanding(x.sent, n);
      var j :| 0 <= j < |x.sent| && x.sent[j].packet.seqn == n;
      assert j >= k;
    }
  }

  lemma HeldNext(x: State, y: State, r: State, k: nat)
    requires k < |x.sent| && HeldTo(x, y, k) && HoldsMore(y, r) && Holds(r, x.sent[k].packet.seqn)
    ensures HeldTo(x, r, k + 1)
  {
  }

  lemma NextToDeliver(x: State, y: State, base: nat, k: nat)
    requires SenderOk(x) && ReceiverOk(y, x.log) && NoLoss(x, y) && NoClose(x.log) && OutTo(x) && JustSent(x, base)
    requires k < |x.sent| && HeldTo(x, y, k)
    ensures Sends(x, base + k) && x.outbox[base + k] == x.sent[k].packet && x.outbox[base + k].seqn <= y.last + 1
  {
    SendsAgain(x, base, k);
    HeldBelow(x, y, k);
  }

  lemma NextToSend(sys: System, side: Side, base: nat, k: nat)
    requires Live(sys, side) && JustSent(This(sys, side), base) && k < |This(sys, side).sent|
    requires HeldTo(This(sys, side), Peer(sys, side), k)
    ensures var x, y := This(sys, side), Peer(sys, side);
            Sends(x, base + k) && x.outbox[base + k] == x.sent[k].packet && x.outbox[base + k].seqn <= y.last + 1
  {
    LiveParts(sys, side);
    NextToDeliver(This(sys, side), Peer(sys, side), base, k);
  }

  /** The next outstanding packet is delivered. */
  lemma DeliverNext(sys: System, side: Side, base: nat, k: nat) returns (e: Event, r: System)
    requires Live(sys, side) && JustSent(This(sys, side), base) && k < |This(sys, side).sent|
    requires HeldTo(This(sys, side), Peer(sys, side), k)
    ensures Safe(sys, e) && Step(sys, e) == r && Live(r, side) && This(r, side) == This(sys, side)
    ensures HeldTo(This(sys, side), Peer(r, side), k + 1)
  {
    NextToSend(sys, side, base, k);
    e, r := ReachOn(sys, side, base + k);
    HeldNext(This(sys, side), Peer(sys, side), Peer(r, side), k);
  }

  /** The outstanding packets, just sent, are delivered one after the other. */
  lemma {:induction false} DeliverAll(s0: System, es: seq<Event>, sys: System, side: Side, base: nat, k: nat)
    returns (fs: seq<Event>, r: System)
    requires Way(s0, es, sys) && Live(sys, side) && JustSent(This(sys, side), base) && k <= |This(sys, side).sent|
    ensures Way(s0, fs, r) && Live(r, side) && This(r, side) == This(sys, side)
    ensures HeldTo(This(sys, side), Peer(r, side), k)
    decreases k
  {
    if k == 0 {
      fs, r := es, sys;
    } else {
      var gs, before := DeliverAll(s0, es, sys, side, base, k - 1);
      var e;
      e, r := DeliverNext(before, side, base, k - 1);
      WayOn(s0, gs, before, e, r);
      fs := gs + [e];
    }
  }

  /** The other side holds everything this side has built. */
  ghost predicate AllHeld(x: State, y: State) {
    y.last == |x.log| - 1 && y.saved == []
  }

  lemma SavedBelow(y: State, log: seq<Packet>)
    requires ReceiverOk(y, log)
    ensures y.saved != [] ==> y.last + 1 < |log|
  {
    if y.saved != [] {
      assert Logged(y.saved[0], log);
    }
  }

  lemma HeldIsAll(x: State, y: State)
    requires SenderOk(x) && ReceiverOk(y, x.log) && NoLoss(x, y) && NoClose(x.log) && HeldTo(x, y, |x.sent|)
    ensures AllHeld(x, y)
  {
    HeldBelow(x, y, |x.sent|);
    SavedBelow(y, x.log);
  }

  // ---------------------------------------------------------------- acknowledging everything

  /** The quick ack at the end of the outbox of `y` acknowledges everything. */
  ghost predicate AcksAll(x: State, y: State) {
    && AllHeld(x, y) && y.last >= 0
    && y.outbox != [] && y.outbox[|y.outbox| - 1] == QuickAck(y) && QuickAck(y).sendID == x.recvID
  }

  lemma RepeatState(x: State, y: State, i: nat)
    requires Linked(x, y) && AllHeld(x, y) && Sends(x, i) && |x.log| < MAX_PACKETS
    ensures AcksAll(x, HandleNextPacket(y, x.outbox[i], 0))
  {
    RepeatOpen(y, x.outbox[i], 0);
  }

  /** A packet delivered again is acknowledged with everything else. */
  lemma RepeatOn(sys: System, side: Side, i: nat) returns (e: Event, r: System)
    requires Live(sys, side) && AllHeld(This(sys, side), Peer(sys, side)) && Sends(This(sys, side), i)
    ensures Safe(sys, e) && Step(sys, e) == r && Live(r, side) && This(r, side) == This(sys, side)
    ensures AcksAll(This(r, side), Peer(r, side))
  {
    RepeatState(This(sys, side), Peer(sys, side), i);
    e, r := ReachOn(sys, side, i);
  }

  function Other(side: Side): Side {
    if side.Opener? then Acceptor else Opener
  }

  lemma ClaimsAll(x: State, y: State)
    requires SenderOk(x) && ReceiverOk(y, x.log) && |x.log| < MAX_PACKETS && AllHeld(x, y) && y.last >= 0
    ensures forall i :: 0 <= i < |x.sent| ==> Claims(QuickAck(y), x.sent[i].packet.seqn)
  {
    assert NumMissing(y) == 0;
    forall i | 0 <= i < |x.sent| ensures Claims(QuickAck(y), x.sent[i].packet.seqn) {
      assert Logged(x.sent[i].packet, x.log);
      QuickAckHolds(y, x.log, x.sent[i].packet.seqn);
    }
  }

  /** Nothing is outstanding or waits to be sent, and the stream has noticed it. */
  predicate Drained(s: State) {
    s.sent == [] && s.buffer == [] && s.eof
  }

  /** Nothing is left to send, or less than before. */
  predicate Done(s: State, r: State) {
    if s.eof then Drained(r) else Left(r) < Left(s)
  }

  lemma NothingLeft(s: State, r: State)
    requires SendsOn(s, r) && OnlyNewOut(s, r) && (!s.eof ==> |r.log| > |s.log|) && SenderOk(s)
    ensures Done(s, r)
  {
  }

  /** A plain ack for everything outstanding. */
  ghost predicate AcksEverything(x: State, q: Packet) {
    && q.seqn == 0 && !q.syn && !q.noAck && q.sendID == x.recvID
    && forall i :: 0 <= i < |x.sent| ==> Claims(q, x.sent[i].packet.seqn)
  }

  /** The ack `q` arrives: what this side may send next goes out, and nothing else is outstanding. */
  lemma AckState(x: State, y: State, q: Packet) returns (r: State)
    requires SenderOk(x) && ReceiverOk(x, y.log) && Linked(x, y) && QuietLog(x.log) && |x.log| + Left(x) < MAX_PACKETS
    requires x.sent != [] && AcksEverything(x, q)
    ensures r == HandleNextPacket(x, q, 0) && Linked(r, y) && NoClose(r.log) && OutTo(r)
    ensures |r.log| + Left(r) < MAX_PACKETS && r.written == x.written && r.numResends == 0 && r.log != [] && Done(x, r)
  {
    AckedOpen(x, q, 0);
    TakeAckOk(x, q, 0, y.log);
    r := HandleNextPacket(x, q, 0);
    assert Logged(x.sent[0].packet, x.log);
    assert r == TakeAck(x, q, 0);
    SentIsTo(x, r);
    NothingLeft(x, r);
  }

  lemma LastAck(x: State, y: State)
    requires SenderOk(x) && ReceiverOk(y, x.log) && |x.log| < MAX_PACKETS && AcksAll(x, y)
    ensures AcksEverything(x, y.outbox[|y.outbox| - 1])
  {
    ClaimsAll(x, y);
  }

  /** The ack at the end of the outbox of the other side. */
  lemma AckIsDue(sys: System, side: Side, y: State)
    requires Live(sys, side) && y == Peer(sys, side) && AcksAll(This(sys, side), y)
    ensures AcksEverything(This(sys, side), y.outbox[|y.outbox| - 1])
  {
    LiveParts(sys, side);
    LastAck(This(sys, side), y);
  }

  lemma AckIs(sys: System, side: Side, i: nat)
    requires sys.peer < |sys.streams| && !Unheard(sys.a)
    ensures Step(sys, Reaches(sys, Other(side), i)) ==
            Put(sys, side, StreamStep(This(sys, side), Peer(sys, side).outbox, Deliver(i, 0)), Peer(sys, side))
  {
    ReachesIs(sys, Other(side), i);
    assert sys.streams[sys.peer := sys.streams[sys.peer]] == sys.streams;
  }

  lemma AckRouted(x: State, y: State, net: seq<Packet>, i: nat, q: Packet)
    requires Linked(x, y) && AcksEverything(x, q) && i < |net| && net[i] == q
    ensures StreamStep(x, net, Deliver(i, 0)) == HandleNextPacket(x, q, 0)
  {
  }

  /** Its arrival is a safe event, ... */
  lemma AckIsSafe(sys: System, side: Side, i: nat)
    requires Live(sys, side) && i < |Peer(sys, side).outbox| && AcksEverything(This(sys, side), Peer(sys, side).outbox[i])
    ensures sys.peer < |sys.streams| && !Unheard(sys.a) && Safe(sys, Reaches(sys, Other(side), i))
  {
    LiveParts(sys, side);
    ReachesSafe(sys, Other(side), i);
  }

  /** ... which this side handles. */
  lemma AckEvent(sys: System, side: Side, i: nat, q: Packet) returns (e: Event)
    requires Live(sys, side) && i < |Peer(sys, side).outbox| && Peer(sys, side).outbox[i] == q
    requires AcksEverything(This(sys, side), q)
    ensures sys.peer < |sys.streams| && Safe(sys, e)
    ensures Step(sys, e) == Put(sys, side, HandleNextPacket(This(sys, side), q, 0), Peer(sys, side))
  {
    AckIsSafe(sys, side, i);
    e := Reaches(sys, Other(side), i);
    AckIs(sys, side, i);
    AckRouted(This(sys, side), Peer(sys, side), Peer(sys, side).outbox, i, q);
  }

  lemma AckTaken(sys: System, side: Side, q: Packet) returns (x: State)
    requires Live(sys, side) && AcksEverything(This(sys, side), q) && This(sys, side).sent != []
    ensures x == HandleNextPacket(This(sys, side), q, 0) && Linked(x, Peer(sys, side)) && NoClose(x.log) && OutTo(x)
    ensures |x.log| + Left(x) < MAX_PACKETS && x.log != []
    ensures x.written == This(sys, side).written && x.numResends == 0 && Done(This(sys, side), x)
  {
    LiveParts(sys, side);
    x := AckState(This(sys, side), Peer(sys, side), q);
  }

  /** The ack reaches this side. */
  lemma AckOn(sys: System, side: Side) returns (e: Event, r: System)
    requires Live(sys, side) && AcksAll(This(sys, side), Peer(sys, side)) && This(sys, side).sent != []
    ensures Safe(sys, e) && Step(sys, e) == r && Ready(r, side) && This(r, side).log != []
    ensures This(r, side).written == This(sys, side).written && Done(This(sys, side), This(r, side))
  {
    var y := Peer(sys, side);
    AckIsDue(sys, side, y);
    var q := y.outbox[|y.outbox| - 1];
    e := AckEvent(sys, side, |y.outbox| - 1, q);
    var x := AckTaken(sys, side, q);
    r := Put(sys, side, x, Peer(sys, side));
    LiveAgain(sys, side, e, x, Peer(sys, side));
    PutIs(sys, side, x, Peer(sys, side));
  }

  // ---------------------------------------------------------------- to the end

  /** Everything just sent has been delivered. */
  lemma AllDelivered(sys: System, side: Side, base: nat)
    requires Live(sys, side) && JustSent(This(sys, side), base) && This(sys, side).sent != []
    requires HeldTo(This(sys, side), Peer(sys, side), |This(sys, side).sent|)
    ensures AllHeld(This(sys, side), Peer(sys, side)) && Sends(This(sys, side), base)
  {
    LiveParts(sys, side);
    HeldIsAll(This(sys, side), Peer(sys, side));
    SendsAgain(This(sys, side), base, 0);
  }

  /** Nothing is outstanding any more, or what the window allows has gone out. */
  lemma DeliverAndAck(s0: System, es: seq<Event>, sys: System, side: Side, base: nat) returns (fs: seq<Event>, r: System)
    requires Way(s0, es, sys) && Live(sys, side) && JustSent(This(sys, side), base) && This(sys, side).sent != []
    ensures Way(s0, fs, r) && Ready(r, side) && This(r, side).log != []
    ensures This(r, side).written == This(sys, side).written && Done(This(sys, side), This(r, side))
  {
    var gs, s1 := DeliverAll(s0, es, sys, side, base, |This(sys, side).sent|);
    AllDelivered(s1, side, base);
    var e, s2 := RepeatOn(s1, side, base);
    WayOn(s0, gs, s1, e, s2);
    var f;
    f, r := AckOn(s2, side);
    WayOn(s0, gs + [e], s2, f, r);
    fs := gs + [e] + [f];
  }

  /** Everything outstanding is sent again, delivered and acknowledged, and what the window then allows goes out. */
  lemma Round(s0: System, es: seq<Event>, sys: System, side: Side) returns (fs: seq<Event>, r: System)
    requires Way(s0, es, sys) && Ready(sys, side) && This(sys, side).sent != []
    ensures Way(s0, fs, r) && Ready(r, side) && This(r, side).log != []
    ensures This(r, side).written == This(sys, side).written && Done(This(sys, side), This(r, side))
  {
    var e, s1 := ResendOn(sys, side);
    WayOn(s0, es, sys, e, s1);
    fs, r := DeliverAndAck(s0, es + [e], s1, side, |This(sys, side).outbox|);
  }

  /** Round after round, until everything has been sent and acknowledged. */
  lemma {:induction false} Finish(s0: System, es: seq<Event>, sys: System, side: Side) returns (fs: seq<Event>, r: System)
    requires Way(s0, es, sys) && Ready(sys, side) && This(sys, side).log != []
    ensures Way(s0, fs, r) && Live(r, side) && Drained(This(r, side)) && This(r, side).written == This(sys, side).written
    decreases Left(This(sys, side))
  {
    if Drained(This(sys, side)) {
      fs, r := es, sys;
    } else {
      var gs, t := Further(s0, es, sys, side);
      if This(sys, side).eof {
        fs, r := gs, t;
      } else {
        fs, r := Finish(s0, gs, t, side);
      }
    }
  }

  /** A first packet, or a round. */
  lemma Further(s0: System, es: seq<Event>, sys: System, side: Side) returns (fs: seq<Event>, r: System)
    requires Way(s0, es, sys) && Ready(sys, side) && This(sys, side).log != [] && !Drained(This(sys, side))
    ensures Way(s0, fs, r) && Ready(r, side) && This(r, side).log != []
    ensures This(r, side).written == This(sys, side).written && Done(This(sys, side), This(r, side))
  {
    if This(sys, side).sent == [] {
      LiveParts(sys, side);
      var e;
      e, r := PumpOn(sys, side);
      WayOn(s0, es, sys, e, r);
      fs := es + [e];
    } else {
      fs, r := Round(s0, es, sys, side);
    }
  }

  lemma NoCloseLast(sys: System, side: Side)
    requires Live(sys, side)
    ensures CloseLast(This(sys, side).log)
  {
  }

  lemma SynLogged(sys: System, side: Side)
    requires Live(sys, side)
    ensures This(sys, side).log != []
  {
    LiveParts(sys, side);
  }

  /** From every live state with resends left everything this side has written can still be delivered. */
  lemma FinishDelivers(sys: System, side: Side) returns (es: seq<Event>, r: System)
    requires Ready(sys, side)
    ensures Way(sys, es, r) && Live(r, side) && Drained(This(r, side)) && This(r, side).written == This(sys, side).written
    ensures Peer(r, side).readOut + Flatten(Peer(r, side).queue) == This(sys, side).written
  {
    SynLogged(sys, side);
    assert Way(sys, [], sys);
    es, r := Finish(sys, [], sys, side);
    NoCloseLast(r, side);
    AllAckedAllDelivered(r, side);
  }

  lemma {:induction false} Joined(s0: System, es: seq<Event>, fs: seq<Event>)
    requires GuardedRun(s0, es) && GuardedRun(Run(s0, es), fs)
    ensures Way(s0, es + fs, Run(Run(s0, es), fs))
  {
    if fs == [] {
      assert es + fs == es;
    } else {
      Joined(s0, es, fs[..|fs| - 1]);
      assert (es + fs)[..|es + fs| - 1] == es + fs[..|fs| - 1];
    }
  }

  lemma GuardedIsAllowed(sys: System, es: seq<Event>)
    requires GuardedRun(sys, es)
    ensures AllowedRun(sys, es)
  {
  }

  /** What a guarded run keeps. */
  lemma RunIsLive(id: nat, room: nat, es: seq<Event>, side: Side)
    requires GuardedRun(Init(id, room), es) && Talking(Run(Init(id, room), es), side)
    ensures Live(Run(Init(id, room), es), side)
  {
    GuardedIsCareful(id, room, es);
    GuardedRunReliable(id, room, es);
    GuardedIsAllowed(Init(id, room), es);
    OpenHasNoClose(id, room, es);
    PeerOk(Run(Init(id, room), es));
  }

  /**
   Whatever was lost, repeated or reordered in a guarded run: while the two streams are linked, the SYN of this side has
   been acknowledged and resends are left, the run can go on, guarded, until nothing of this side is outstanding or waits
   to be sent, and the other side has read, or can read, exactly the bytes this side has written.
   */
  lemma CanFinish(id: nat, room: nat, es: seq<Event>, side: Side) returns (fs: seq<Event>)
    requires GuardedRun(Init(id, room), es) && Talking(Run(Init(id, room), es), side)
    requires This(Run(Init(id, room), es), side).numResends < MAX_NUM_RESEND_ATTEMPTS
    ensures GuardedRun(Init(id, room), es + fs)
    ensures var sys, r := Run(Init(id, room), es), Run(Init(id, room), es + fs);
            && Drained(This(r, side)) && This(r, side).written == This(sys, side).written
            && Peer(r, side).readOut + Flatten(Peer(r, side).queue) == This(sys, side).written
  {
    RunIsLive(id, room, es, side);
    var r;
    fs, r := FinishDelivers(Run(Init(id, room), es), side);
    Joined(Init(id, room), es, fs);
  }

  // ---------------------------------------------------------------- to the close

  /** Closing a drained stream that has heard its peer ends it at once. */
  lemma CloseDrained(x: State)
    requires x.status.Open? && Drained(x) && x.last >= 0
    ensures var r := Close(x);
            && r.status.Closed? && r.written == x.written
            && |r.posted| == |x.posted| + 1 && r.posted[|x.posted|].close
  {
  }

  lemma CloseEvent(sys: System, side: Side)
    requires Live(sys, side)
    ensures sys.peer < |sys.streams| && Safe(sys, Acts(sys, side, DoClose))
    ensures Step(sys, Acts(sys, side, DoClose)) == Put(sys, side, Close(This(sys, side)), Peer(sys, side))
  {
    LiveParts(sys, side);
    MayActSafe(sys, side, DoClose);
    ActsIs(sys, side, DoClose);
  }

  lemma MayActSafe(sys: System, side: Side, act: Action)
    requires InRange(sys) && sys.peer < |sys.streams| && This(sys, side).last >= 0 && act.DoClose?
    ensures Safe(sys, Acts(sys, side, act))
  {
  }

  /**
   From `sys` to `r` the stream has been Closed, its close packet waits to be sent, and the other side has, or can read,
   exactly the bytes written.
   */
  ghost predicate ClosedWith(sys: System, r: System, side: Side) {
    && This(r, side).status.Closed? && This(r, side).written == This(sys, side).written
    && This(r, side).posted != [] && This(r, side).posted[|This(r, side).posted| - 1].close
    && Peer(r, side).readOut + Flatten(Peer(r, side).queue) == This(sys, side).written
  }

  /** And it can be closed: the run can go on, guarded, until the stream is Closed and everything has been delivered. */
  lemma CanClose(id: nat, room: nat, es: seq<Event>, side: Side) returns (fs: seq<Event>)
    requires GuardedRun(Init(id, room), es) && Talking(Run(Init(id, room), es), side)
    requires This(Run(Init(id, room), es), side).numResends < MAX_NUM_RESEND_ATTEMPTS
    ensures GuardedRun(Init(id, room), es + fs)
    ensures ClosedWith(Run(Init(id, room), es), Run(Init(id, room), es + fs), side)
  {
    RunIsLive(id, room, es, side);
    var r;
    fs, r := CloseDelivers(Run(Init(id, room), es), side);
    Joined(Init(id, room), es, fs);
  }

  lemma CloseDelivers(sys: System, side: Side) returns (fs: seq<Event>, r: System)
    requires Ready(sys, side)
    ensures Way(sys, fs, r) && ClosedWith(sys, r, side)
  {
    var gs, t := FinishDelivers(sys, side);
    fs, r := CloseAfter(sys, gs, t, side);
  }

  lemma CloseAfter(sys: System, gs: seq<Event>, t: System, side: Side) returns (fs: seq<Event>, r: System)
    requires Way(sys, gs, t) && Live(t, side) && Drained(This(t, side))
    ensures Way(sys, fs, r) && This(r, side) == Close(This(t, side)) && Peer(r, side) == Peer(t, side)
    ensures var x := This(r, side);
            x.status.Closed? && x.written == This(t, side).written && x.posted != [] && x.posted[|x.posted| - 1].close
  {
    CloseEvent(t, side);
    CloseDrained(This(t, side));
    r := Put(t, side, Close(This(t, side)), Peer(t, side));
    PutIs(t, side, Close(This(t, side)), Peer(t, side));
    WayOn(sys, gs, t, Acts(t, side, DoClose), r);
    fs := gs + [Acts(t, side, DoClose)];
  }

  // ---------------------------------------------------------------- such a state is reached

  lemma SafeGoes(s0: System, es: seq<Event>, sys: System, e: Event, r: System)
    requires Way(s0, es, sys) && Goes(sys, e, r) && FairArrival(sys, e) && GuardedEvent(sys, e)
    ensures Way(s0, es + [e], r)
  {
    WayOn(s0, es, sys, e, r);
  }

  lemma FirstSyn(g: Gap) returns (es: seq<Event>)
    requires GapOk(g)
    ensures Way(GBegin(g), es, System(GA1(g), [], 0))
  {
    GapOpener(g);
    AloneGoes(Fresh(g.idA, g.room), Pump(0));
    es := [];
    SafeGoes(GBegin(g), es, GBegin(g), AtOpener(Pump(0)), System(GA1(g), [], 0));
    es := es + [AtOpener(Pump(0))];
  }

  /** The opener sends an empty SYN, which opens a stream. */
  lemma SynWay(g: Gap) returns (es: seq<Event>)
    requires GapOk(g)
    ensures Way(GBegin(g), es, Two(GA1(g), GB1(g, g.idB)))
  {
    es := FirstSyn(g);
    GapAnswer(g, g.idB);
    AcceptGoes(GA1(g), g.idB, g.roomB, GSynA(g));
    SafeGoes(GBegin(g), es, System(GA1(g), [], 0), Accept(0, g.idB, g.roomB, 0), Two(GA1(g), GB1(g, g.idB)));
    es := es + [Accept(0, g.idB, g.roomB, 0)];
  }

  /** The answer arrives and is acknowledged. */
  lemma HandshakeWay(g: Gap) returns (es: seq<Event>)
    requires GapOk(g)
    ensures Way(GBegin(g), es, Two(GA3(g), GB2(g)))
  {
    var b := GB1(g, g.idB);
    GapHeard(g);
    GapAcked(g);
    es := SynWay(g);
    OpenerGoes(GA1(g), b, 0, GSynB(g, g.idB));
    SafeGoes(GBegin(g), es, Two(GA1(g), b), Arrive(0, 0, 0), Two(GA2(g), b));
    es := es + [Arrive(0, 0, 0)];
    SafeGoes(GBegin(g), es, Two(GA2(g), b), AtOpener(AckTimer), Two(GA3(g), b));
    es := es + [AtOpener(AckTimer)];
    AcceptorGoes(GA3(g), b, 1, GAck(g));
    SafeGoes(GBegin(g), es, Two(GA3(g), b), AtStream(0, Deliver(1, 0)), Two(GA3(g), GB2(g)));
    es := es + [AtStream(0, Deliver(1, 0))];
  }

  /** After a handshake and a write of any size with packet numbers for it the opener's side can finish. */
  lemma HandshakeTalks(g: Gap, data: seq<byte>) returns (es: seq<Event>)
    requires GapOk(g) && 1 <= |data| < MAX_PACKETS - 2
    ensures GuardedRun(GBegin(g), es) && Talking(Run(GBegin(g), es), Opener)
    ensures var x := This(Run(GBegin(g), es), Opener); x.written == data && x.numResends < MAX_NUM_RESEND_ATTEMPTS
  {
    var before := HandshakeWay(g);
    var e, x := AtOpener(DoWrite(data)), Write(GA3(g), data);
    es := before + [e];
    assert x.buffer == data && x.written == data;
    SafeGoes(GBegin(g), before, Two(GA3(g), GB2(g)), e, Two(x, GB2(g)));
  }
}
