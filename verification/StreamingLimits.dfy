/**
 Where the side conditions come from: for each of them, exactly when one call of the code meets the property,
 and a run on which the code loses data without it.
 */
module StreamingLimits {
  import opened Bytes
  import opened StreamingSpec
  import opened StreamingInvariants
  import opened StreamingProtocol
  import opened StreamingAcks
  import opened StreamingReliability

  /** A SYN keeps the received bytes in order and what is held, if and only if it is the first packet or a repeat
      of an empty one with nothing received after it: the code takes every SYN as next in sequence. */
  lemma DuplicateSynExact(s: State, p: Packet, ts: int, log: seq<Packet>)
    requires SenderOk(s) && ReceiverOk(s, log) && LogOk(log) && Logged(p, log) && p.syn
    requires |s.log| < MAX_PACKETS && |log| < MAX_PACKETS
    ensures var r := TakeNumbered(s, p, ts);
            (ReceiverOk(r, log) && HoldsMore(s, r)) <==> SynAllowed(s, p)
  {
    var r := TakeNumbered(s, p, ts);
    assert p.seqn == 0 && p == log[0];
    if SynAllowed(s, p) {
      TakeNumberedOk(s, p, ts, log);
      TakeNumberedHolds(s, p, ts, log);
    } else {
      SecondSyn(s, p, ts, log);
      if s.last >= 1 {
        assert Holds(s, 1) && !Holds(r, 1);
      } else {
        FlattenAppend(s.queue, [p.payload]);
        assert Flatten([p.payload]) == p.payload;
        assert |r.readOut + Flatten(r.queue)| == |Payloads(log[..1])| + |p.payload|;
      }
    }
  }

  /** What a SYN does after others: the last number falls back to 0 and its payload is queued again. */
  lemma SecondSyn(s: State, p: Packet, ts: int, log: seq<Packet>)
    requires ReceiverOk(s, log) && LogOk(log) && Logged(p, log) && p.syn && s.last >= 0
    ensures var r := TakeNumbered(s, p, ts);
            && r.last == 0 && r.saved == s.saved && r.readOut == s.readOut
            && r.queue == if p.payload == [] then s.queue else s.queue + [p.payload]
  {
    var s1 := ProcessPacket(s, p);
    assert s1.saved == s.saved && s1.last == 0;
    assert Drain(s1) == s1;
    assert TakeNumbered(s, p, ts) == Respond(s1, true, ts);
  }

  /** A numbered packet is truthful if and only if it is the SYN or the peer's SYN has arrived. */
  lemma BuiltAckExact(s: State, log: seq<Packet>)
    requires SenderOk(s) && ReceiverOk(s, log)
    ensures TrueAck(NextPacket(s, s.last < 0), s) <==> s.last >= 0 || s.status.New?
    ensures TrueAck(ClosePacket(s), s) <==> s.last >= 0
  {
    assert s.last < 0 ==> !Holds(s, 0);
    assert s.last >= 0 ==> Holds(s, 0);
    assert Claims(NextPacket(s, s.last < 0), 0) && Claims(ClosePacket(s), 0);
    if s.last >= 0 {
      forall n: nat | Claims(ClosePacket(s), n) ensures Holds(s, n) {
      }
    }
  }

  /** Once a stream has sent its SYN, `SendBuffer` builds packets that acknowledge everything exactly when the window
      is open, the peer is known, there is something to send and the peer's SYN has not arrived. */
  lemma LateExact(s: State, ts: int)
    requires SenderOk(s) && !s.status.New? && s.seqNum + MAX_WINDOW_SIZE + 1 < UINT32_RANGE
    ensures (exists i :: |s.log| <= i < |SendBuffer(s, ts).log| && LatePacket(SendBuffer(s, ts).log[i]))
       <==> (s.last < 0 && |s.sent| < s.rate.window && s.sendID != 0 && !s.eof)
  {
    SendBufferOk(s, ts);
    var r := SendBuffer(s, ts);
    var numMsgs := s.rate.window - |s.sent|;
    if numMsgs > 0 && CanSend(s, numMsgs) {
      SendBufferFirst(s, ts);
      if s.last >= 0 {
        forall i | |s.log| <= i < |r.log| ensures !LatePacket(r.log[i]) {
          SendBufferPrompt(s, ts, i);
        }
      }
    } else {
      assert r == s;
    }
  }

  lemma SendBufferFirst(s: State, ts: int)
    requires SenderOk(s) && !s.status.New? && s.seqNum + MAX_WINDOW_SIZE + 1 < UINT32_RANGE
    requires s.rate.window > |s.sent| && CanSend(s, s.rate.window - |s.sent|)
    ensures var r := SendBuffer(s, ts); |s.log| < |r.log| && r.log[|s.log|] == NextPacket(s, s.last < 0)
  {
    var numMsgs := s.rate.window - |s.sent|;
    FillFirst(s, numMsgs, s.last < 0);
    var s1 := Fill(s, numMsgs, s.last < 0);
    DispatchLog(s, s1, ts);
    assert SendBuffer(s, ts) == Dispatch(s, s1, ts);
  }

  lemma DispatchLog(s: State, s1: State, ts: int)
    requires SendsNumbered(s, s1)
    ensures s1.log <= Dispatch(s, s1, ts).log
  {
  }

  lemma FillFirst(s: State, numMsgs: int, isNoAck: bool)
    requires Numbered(s) && isNoAck == (s.last < 0) && numMsgs >= 1 && s.seqNum + numMsgs < UINT32_RANGE && CanSend(s, numMsgs)
    ensures var r := Fill(s, numMsgs, isNoAck); |s.log| < |r.log| && r.log[|s.log|] == NextPacket(s, isNoAck)
  {
    var s1 := AfterPacket(s, NextPacket(s, isNoAck));
    BuildOk(s, isNoAck);
    assert Fill(s, numMsgs, isNoAck) == Fill(s1, numMsgs - 1, isNoAck);
    if numMsgs == 1 {
      assert Fill(s1, 0, isNoAck) == s1;
    } else {
      FillOk(s1, numMsgs - 1, isNoAck);
      assert Fill(s1, numMsgs - 1, isNoAck).log[|s.log|] == s1.log[|s.log|];
    }
  }

  lemma SendBufferPrompt(s: State, ts: int, i: nat)
    requires SenderOk(s) && s.last >= 0 && s.seqNum + MAX_WINDOW_SIZE + 1 < UINT32_RANGE
    requires |s.log| <= i < |SendBuffer(s, ts).log|
    ensures !LatePacket(SendBuffer(s, ts).log[i])
  {
    var numMsgs := s.rate.window - |s.sent|;
    var s1 := Fill(s, numMsgs, false);
    FillOk(s, numMsgs, false);
    if i < |s1.log| {
      FillPrompt(s, numMsgs, i);
    }
  }

  lemma {:induction false} FillPrompt(s: State, numMsgs: int, i: nat)
    requires Numbered(s) && s.last >= 0 && numMsgs >= 1 && s.seqNum + numMsgs < UINT32_RANGE
    requires |s.log| <= i < |Fill(s, numMsgs, false).log|
    ensures !LatePacket(Fill(s, numMsgs, false).log[i])
    decreases numMsgs
  {
    var s1 := AfterPacket(s, NextPacket(s, false));
    BuildOk(s, false);
    if numMsgs == 1 {
      assert !CanSend(s1, 0);
    } else {
      FillOk(s1, numMsgs - 1, false);
      if i > |s.log| {
        FillPrompt(s1, numMsgs - 1, i);
      }
    }
  }

  // ---------------------------------------------------------------- runs on which data is lost

  lemma RunPush(sys: System, es: seq<Event>, e: Event)
    ensures Run(sys, es + [e]) == Step(Run(sys, es), e)
    ensures AllowedRun(sys, es + [e]) <==> AllowedRun(sys, es) && Allowed(Run(sys, es), e)
  {
    assert (es + [e])[..|es|] == es;
  }

  /**
   The opener `idA` has more to send than fits its SYN: `head` fills the SYN's room and `rest` is left over. The
   acceptor `idB`, whose SYN has room for `roomB` bytes, sends `y` once the connection is open.
   */
  datatype Case = Case(idA: nat, idB: nat, roomB: nat, head: seq<byte>, rest: seq<byte>, y: seq<byte>)

  ghost predicate Proper(c: Case) {
    c.idA != 0 && c.idB != 0 && 1 <= |c.rest| < FOLLOW_ON_ROOM && 1 <= |c.y| < FOLLOW_ON_ROOM
  }

  const START := Rate(1, INITIAL_RTT, INITIAL_RTO, 0)

  function Begin(c: Case): System { Init(c.idA, |c.head|) }

  /** The opener and the one stream it has opened, its peer. */
  function Two(a: State, b: State): System { System(a, [b], 0) }

  function SynA(c: Case): Packet { Packet(0, c.idA, 0, LATE_SYN, [], true, false, true, false, c.head) }

  function SynB(c: Case): Packet { Packet(c.idA, c.idB, 0, 0, [], true, false, false, false, []) }

  function LateA(c: Case): Packet { Packet(c.idB, c.idA, 1, LATE_SYN, [], false, false, false, false, c.rest) }

  function DataB(c: Case): Packet { Packet(c.idA, c.idB, 1, 0, [], false, false, false, false, c.y) }

  function A0(c: Case): State { Fresh(c.idA, |c.head|).(buffer := c.head + c.rest, written := c.head + c.rest) }

  function A1(c: Case): State {
    A0(c).(seqNum := 1, status := Open, buffer := c.rest, log := [SynA(c)], sent := [SentPacket(SynA(c), 0)], outbox := [SynA(c)])
  }

  function A1Free(c: Case): State { A1(c).(sendID := c.idB, sent := [], rate := Rate(2, 0, 0, 0)) }

  function A1Sent(c: Case): State {
    A1Free(c).(seqNum := 2, log := [SynA(c), LateA(c)], buffer := [], eof := true,
               sent := [SentPacket(LateA(c), 0)], outbox := [SynA(c), LateA(c)])
  }

  function A2(c: Case): State { A1Sent(c).(last := 0, ackScheduled := true) }

  function B0(c: Case): State { Fresh(c.idB, c.roomB) }

  /** What the opener's SYN carried, in the acceptor's queue. */
  function Carried(c: Case): seq<seq<byte>> { if c.head == [] then [] else [c.head] }

  function B1(c: Case): State {
    B0(c).(sendID := c.idA, seqNum := 1, last := 0, status := Open, log := [SynB(c)], eof := c.roomB > 0, queue := Carried(c),
           sent := [SentPacket(SynB(c), 0)], outbox := [SynB(c)])
  }

  function B2(c: Case): State { B1(c).(buffer := c.y, written := c.y, eof := false) }

  function B2Free(c: Case): State { B2(c).(sent := [], rate := Rate(2, 0, 0, 0)) }

  function B2Sent(c: Case): State {
    B2Free(c).(seqNum := 2, log := [SynB(c), DataB(c)], buffer := [], eof := true,
               sent := [SentPacket(DataB(c), 0)], outbox := [SynB(c), DataB(c)])
  }

  function B3(c: Case): State { B2Sent(c).(last := 1, ackScheduled := true, queue := Carried(c) + [c.rest]) }

  lemma SingleAck(e: SentPacket, p: Packet, r: Rate, ts: int)
    requires Claims(p, e.packet.seqn)
    ensures Unacked([e], p) == [] && Acked([e], p) == [e] && AckAll(r, [e], ts) == AckOne(r, e, ts)
  {
    var none: seq<SentPacket> := [];
    assert [e][1..] == none;
    assert Unacked(none, p) == none && Acked(none, p) == none;
    assert AckAll(AckOne(r, e, ts), none, ts) == AckOne(r, e, ts);
  }

  lemma FirstAck(e: SentPacket)
    requires e.packet.seqn == 0 && e.sendTime == 0
    ensures AckOne(START, e, 0) == Rate(2, 0, 0, 0)
  {
  }

  lemma SingleInsert(p: Packet, ts: int)
    ensures InsertAll([], [p], ts) == [SentPacket(p, ts)]
  {
    assert [p][..0] == [];
    assert InsertAll([], [p][..0], ts) == [];
  }

  lemma A01(c: Case)
    requires Proper(c)
    ensures Write(Fresh(c.idA, |c.head|), c.head + c.rest) == A0(c) && SendBuffer(A0(c), 0) == A1(c)
  {
    var p := SynA(c);
    assert (c.head + c.rest)[..|c.head|] == c.head && (c.head + c.rest)[|c.head|..] == c.rest;
    assert NextPacket(A0(c), true) == p;
    var s := AfterPacket(A0(c), p);
    assert !CanSend(s, 0);
    assert Fill(A0(c), 1, true) == s;
    assert Built(A0(c), s) == [p];
    SingleInsert(p, 0);
  }

  lemma B01(c: Case)
    requires Proper(c)
    ensures HandleNextPacket(B0(c), SynA(c), 0) == B1(c) && Write(B1(c), c.y) == B2(c)
  {
    var s0 := B0(c).(sendID := c.idA);
    assert TakeAck(B0(c), SynA(c), 0) == s0;
    var s1 := s0.(last := 0, queue := Carried(c));
    assert Drain(ProcessPacket(s0, SynA(c))) == s1;
    var p := SynB(c);
    assert s1.buffer[..0] == [];
    assert NextPacket(s1, false) == p;
    var s2 := AfterPacket(s1, p);
    assert !CanSend(s2, 0);
    assert Fill(s1, 1, false) == s2;
    assert Built(s1, s2) == [p];
    SingleInsert(p, 0);
  }

  /** An ack that takes out the only outstanding packet, on an open stream, is followed by sending. */
  lemma OpenAck(s: State, e: SentPacket, p: Packet, free: State, r: State)
    requires s.sendID != 0 && s.sent == [e] && Claims(p, e.packet.seqn) && !p.noAck && s.numResends == 0
    requires AckOne(s.rate, e, 0) == free.rate && free == s.(sent := [], rate := free.rate)
    requires SendBuffer(free, 0) == r && r.status.Open?
    ensures TakeAck(s, p, 0) == r
  {
    SingleAck(e, p, s.rate, 0);
    assert DropAcked(s, p, 0) == free && free.(numResends := 0) == free;
    assert Resume(free, true, 0) == r;
  }

  lemma A1Send(c: Case)
    requires Proper(c)
    ensures SendBuffer(A1Free(c), 0) == A1Sent(c)
  {
    var p := LateA(c);
    assert c.rest[..|c.rest|] == c.rest;
    assert NextPacket(A1Free(c), true) == p;
    var s2 := AfterPacket(A1Free(c), p);
    assert !CanSend(s2, 1);
    assert Fill(A1Free(c), 2, true) == s2;
    assert Built(A1Free(c), s2) == [p];
    SingleInsert(p, 0);
    assert SendBuffer(A1Free(c), 0) == Launch(s2, [p], 0);
  }

  lemma A12(c: Case)
    requires Proper(c)
    ensures HandleNextPacket(A1(c), SynB(c), 0) == A2(c)
  {
    var e := SentPacket(SynA(c), 0);
    FirstAck(e);
    A1Send(c);
    OpenAck(A1(c).(sendID := c.idB), e, SynB(c), A1Free(c), A1Sent(c));
    assert TakeAck(A1(c), SynB(c), 0) == A1Sent(c);
    var s := A1Sent(c).(last := 0);
    assert ProcessPacket(A1Sent(c), SynB(c)) == s && Drain(s) == s;
    assert TakeNumbered(A1Sent(c), SynB(c), 0) == Respond(s, true, 0);
  }

  lemma B2Send(c: Case)
    requires Proper(c)
    ensures SendBuffer(B2Free(c), 0) == B2Sent(c)
  {
    var p := DataB(c);
    assert c.y[..|c.y|] == c.y;
    assert NextPacket(B2Free(c), false) == p;
    var s2 := AfterPacket(B2Free(c), p);
    assert !CanSend(s2, 1);
    assert Fill(B2Free(c), 2, false) == s2;
    assert Built(B2Free(c), s2) == [p];
    SingleInsert(p, 0);
    assert SendBuffer(B2Free(c), 0) == Launch(s2, [p], 0);
  }

  lemma B23(c: Case)
    requires Proper(c)
    ensures HandleNextPacket(B2(c), LateA(c), 0) == B3(c)
  {
    var e := SentPacket(SynB(c), 0);
    FirstAck(e);
    B2Send(c);
    OpenAck(B2(c), e, LateA(c), B2Free(c), B2Sent(c));
    var s := B2Sent(c).(last := 1, queue := Carried(c) + [c.rest]);
    assert ProcessPacket(B2Sent(c), LateA(c)) == s && Drain(s) == s;
    assert TakeNumbered(B2Sent(c), LateA(c), 0) == Respond(s, false, 0);
  }

  /** The second copy of the late packet takes out the data packet the opener never got. */
  lemma B34(c: Case)
    requires Proper(c)
    ensures HandleNextPacket(B3(c), LateA(c), 0).sent == []
    ensures HandleNextPacket(B3(c), LateA(c), 0).log == [SynB(c), DataB(c)]
  {
    var e := SentPacket(DataB(c), 0);
    SingleAck(e, LateA(c), B3(c).rate, 0);
    var s1 := B3(c).(sent := [], rate := AckOne(B3(c).rate, e, 0));
    assert DropAcked(B3(c), LateA(c), 0) == s1 && s1.(numResends := 0) == s1;
    assert !CanSend(s1, s1.rate.window);
    assert SendBuffer(s1, 0) == s1;
    assert TakeAck(B3(c), LateA(c), 0) == s1;
    assert TakeNumbered(s1, LateA(c), 0) == SendQuickAck(s1);
  }

  /** From state `s` of an allowed run, `e` is allowed and leads to `r`. */
  ghost predicate Goes(s: System, e: Event, r: System) {
    Allowed(s, e) && Step(s, e) == r
  }

  lemma Extend(s0: System, es: seq<Event>, e: Event, r: System)
    requires AllowedRun(s0, es) && Goes(Run(s0, es), e, r)
    ensures AllowedRun(s0, es + [e]) && Run(s0, es + [e]) == r
  {
    RunPush(s0, es, e);
  }

  /** The opener acts before it has opened a stream. */
  lemma AloneGoes(a: State, act: Action)
    requires |a.log| < MAX_PACKETS
    ensures Goes(System(a, [], 0), AtOpener(act), System(StreamStep(a, [], act), [], 0))
  {
  }

  lemma AcceptGoes(a: State, id: nat, room: nat, p: Packet)
    requires |a.log| < MAX_PACKETS && a.outbox == [p] && OpensStream(p)
    ensures Goes(System(a, [], 0), Accept(0, id, room, 0), Two(a, HandleNextPacket(Fresh(id, room), p, 0)))
  {
  }

  lemma StreamGoes(a: State, b: State, act: Action)
    requires |a.log| < MAX_PACKETS && |b.log| < MAX_PACKETS
    ensures Goes(Two(a, b), AtStream(0, act), Two(a, StreamStep(b, a.outbox, act)))
  {
    assert [b][0 := StreamStep(b, a.outbox, act)] == [StreamStep(b, a.outbox, act)];
  }

  /** The packet at index `i` reaches the stream it is routed to. */
  lemma AcceptorGoes(a: State, b: State, i: nat, p: Packet)
    requires |a.log| < MAX_PACKETS && |b.log| < MAX_PACKETS && i < |a.outbox| && a.outbox[i] == p && Routed(b, p)
    ensures Goes(Two(a, b), AtStream(0, Deliver(i, 0)), Two(a, HandleNextPacket(b, p, 0)))
  {
    StreamGoes(a, b, Deliver(i, 0));
  }

  lemma OpenerGoes(a: State, b: State, i: nat, p: Packet)
    requires |a.log| < MAX_PACKETS && |b.log| < MAX_PACKETS && i < |b.outbox| && b.outbox[i] == p && Routed(a, p)
    requires SynAllowed(a, p)
    ensures Goes(Two(a, b), Arrive(0, i, 0), Two(HandleNextPacket(a, p, 0), b))
  {
    assert PeerThen(Two(a, b), 0) == 0;
  }

  lemma SixSteps(c: Case) returns (es: seq<Event>)
    requires Proper(c)
    ensures AllowedRun(Begin(c), es) && Run(Begin(c), es) == Two(A2(c), B3(c))
  {
    var s0 := Begin(c);
    es := OpeningSteps(c);
    A12(c);
    OpenerGoes(A1(c), B2(c), 0, SynB(c));
    Extend(s0, es, Arrive(0, 0, 0), Two(A2(c), B2(c)));
    es := es + [Arrive(0, 0, 0)];
    B23(c);
    AcceptorGoes(A2(c), B2(c), 1, LateA(c));
    Extend(s0, es, AtStream(0, Deliver(1, 0)), Two(A2(c), B3(c)));
    es := es + [AtStream(0, Deliver(1, 0))];
  }

  lemma SynGoes(c: Case)
    requires Proper(c)
    ensures Goes(Begin(c), AtOpener(DoWrite(c.head + c.rest)), System(A0(c), [], 0))
    ensures Goes(System(A0(c), [], 0), AtOpener(Pump(0)), System(A1(c), [], 0))
  {
    A01(c);
    AloneGoes(Fresh(c.idA, |c.head|), DoWrite(c.head + c.rest));
    AloneGoes(A0(c), Pump(0));
  }

  lemma OpenGoes(c: Case)
    requires Proper(c)
    ensures Goes(System(A1(c), [], 0), Accept(0, c.idB, c.roomB, 0), Two(A1(c), B1(c)))
  {
    B01(c);
    AcceptGoes(A1(c), c.idB, c.roomB, SynA(c));
  }

  lemma ReplyGoes(c: Case)
    requires Proper(c)
    ensures Goes(Two(A1(c), B1(c)), AtStream(0, DoWrite(c.y)), Two(A1(c), B2(c)))
  {
    B01(c);
    StreamGoes(A1(c), B1(c), DoWrite(c.y));
  }

  /** The opener writes and sends its SYN; it opens a stream, whose application writes. */
  lemma OpeningSteps(c: Case) returns (es: seq<Event>)
    requires Proper(c)
    ensures AllowedRun(Begin(c), es) && Run(Begin(c), es) == Two(A1(c), B2(c))
  {
    SynGoes(c);
    OpenGoes(c);
    ReplyGoes(c);
    es := [];
    Extend(Begin(c), es, AtOpener(DoWrite(c.head + c.rest)), System(A0(c), [], 0));
    es := es + [AtOpener(DoWrite(c.head + c.rest))];
    Extend(Begin(c), es, AtOpener(Pump(0)), System(A1(c), [], 0));
    es := es + [AtOpener(Pump(0))];
    Extend(Begin(c), es, Accept(0, c.idB, c.roomB, 0), Two(A1(c), B1(c)));
    es := es + [Accept(0, c.idB, c.roomB, 0)];
    Extend(Begin(c), es, AtStream(0, DoWrite(c.y)), Two(A1(c), B2(c)));
    es := es + [AtStream(0, DoWrite(c.y))];
  }

  /**
   A run with one SYN each way, for any rooms and any data that overflow the opener's SYN, on which the acceptor's
   data packet is acknowledged, hence never sent again, though the opener does not hold it: the opener answered the
   SYN with data before recording it.
   */
  lemma SilentLoss(c: Case) returns (es: seq<Event>)
    requires Proper(c)
    ensures AllowedRun(Begin(c), es)
    ensures var sys := Run(Begin(c), es); var b := PeerOf(sys);
            |sys.streams| == 1 && |b.log| == 2 && !b.log[1].close && !Outstanding(b.sent, 1) && !Holds(sys.a, 1)
  {
    es := SixSteps(c);
    AcceptorGoes(A2(c), B3(c), 1, LateA(c));
    Extend(Begin(c), es, AtStream(0, Deliver(1, 0)), Two(A2(c), HandleNextPacket(B3(c), LateA(c), 0)));
    es := es + [AtStream(0, Deliver(1, 0))];
    B34(c);
  }

  // ---------------------------------------------------------------- a run on which bytes repeat

  function A3(c: Case): State { A2(c).(last := 1, queue := [c.y]) }

  function A4(c: Case): State { A3(c).(last := 0) }

  function A5(c: Case): State { A3(c).(queue := [c.y, c.y]) }

  /** A packet of the acceptor's that acknowledges only the SYN changes nothing that is outstanding. */
  lemma OldAck(s: State, p: Packet, c: Case)
    requires s.sendID != 0 && s.sent == [SentPacket(LateA(c), 0)] && s.status.Open? && p.ackThrough == 0 && p.nacks == []
    ensures TakeAck(s, p, 0) == s
  {
    var e := SentPacket(LateA(c), 0);
    var none: seq<SentPacket> := [];
    assert [e][1..] == none && Unacked(none, p) == none && Acked(none, p) == none;
    assert Unacked([e], p) == [e] && Acked([e], p) == none;
    assert DropAcked(s, p, 0) == s;
    assert Resume(s, false, 0) == s;
  }

  lemma TakeData(c: Case, s: State, queue: seq<seq<byte>>)
    requires Proper(c) && s == A3(c).(last := 0, queue := queue)
    ensures HandleNextPacket(s, DataB(c), 0) == s.(last := 1, queue := queue + [c.y])
  {
    OldAck(s, DataB(c), c);
    var r := s.(last := 1, queue := queue + [c.y]);
    assert ProcessPacket(s, DataB(c)) == r && Drain(r) == r;
    assert TakeNumbered(s, DataB(c), 0) == Respond(r, false, 0);
  }

  /** Whichever stream `id` it comes from. */
  lemma TakeSecondSyn(c: Case, id: nat)
    requires Proper(c)
    ensures HandleNextPacket(A3(c), SynB(c.(idB := id)), 0) == A4(c)
  {
    var p := SynB(c.(idB := id));
    OldAck(A3(c), p, c);
    assert ProcessPacket(A3(c), p) == A4(c) && Drain(A4(c)) == A4(c);
    assert TakeNumbered(A3(c), p, 0) == Respond(A4(c), true, 0);
  }

  lemma ArriveIs(c: Case, a: State, i: nat, r: State)
    requires Proper(c) && i < 2 && !a.deleted && a.recvID == c.idA && HandleNextPacket(a, B3(c).outbox[i], 0) == r
    ensures Step(Two(a, B3(c)), Arrive(0, i, 0)) == Two(r, B3(c))
  {
    assert PeerThen(Two(a, B3(c)), 0) == 0;
  }

  lemma ReadAll(c: Case)
    ensures ReadSome(A5(c), 2 * |c.y|).readOut == c.y + c.y
  {
    var q, none: seq<seq<byte>> := [c.y, c.y], [];
    assert q[1..] == [c.y] && [c.y][1..] == none && Flatten(none) == [];
    assert Flatten([c.y]) == c.y + [] == c.y;
    assert Flatten(q) == c.y + c.y;
    assert A5(c).readOut + (c.y + c.y)[..2 * |c.y|] == c.y + c.y;
  }

  /**
   A run that is allowed up to the point where the network repeats the acceptor's SYN and data: the opener's reader
   then gets the bytes twice, which is no prefix of what the acceptor wrote.
   */
  lemma RepeatedSynRepeatsBytes(c: Case) returns (before: seq<Event>, es: seq<Event>)
    requires Proper(c)
    ensures AllowedRun(Begin(c), before)
    ensures es == before + [Arrive(0, 0, 0), Arrive(0, 1, 0), AtOpener(DoRead(2 * |c.y|))]
    ensures var sys := Run(Begin(c), es);
            PeerOf(sys).written == c.y && sys.a.readOut == c.y + c.y && !(sys.a.readOut <= PeerOf(sys).written)
  {
    before := UpToData(c);
    AgainSteps(c);
    RunThree(Begin(c), before, Arrive(0, 0, 0), Arrive(0, 1, 0), AtOpener(DoRead(2 * |c.y|)));
    es := before + [Arrive(0, 0, 0), Arrive(0, 1, 0), AtOpener(DoRead(2 * |c.y|))];
    assert |c.y + c.y| > |c.y|;
  }

  lemma RunThree(sys: System, es: seq<Event>, e: Event, f: Event, g: Event)
    ensures Run(sys, es + [e, f, g]) == Step(Step(Step(Run(sys, es), e), f), g)
  {
    RunPush(sys, es, e);
    RunPush(sys, es + [e], f);
    RunPush(sys, es + [e] + [f], g);
    assert es + [e, f, g] == es + [e] + [f] + [g];
  }

  lemma UpToData(c: Case) returns (es: seq<Event>)
    requires Proper(c)
    ensures AllowedRun(Begin(c), es) && Run(Begin(c), es) == Two(A3(c), B3(c))
  {
    es := SixSteps(c);
    TakeData(c, A2(c), []);
    assert [] + [c.y] == [c.y];
    OpenerGoes(A2(c), B3(c), 1, DataB(c));
    Extend(Begin(c), es, Arrive(0, 1, 0), Two(A3(c), B3(c)));
    es := es + [Arrive(0, 1, 0)];
  }

  lemma AgainSteps(c: Case)
    requires Proper(c)
    ensures Step(Two(A3(c), B3(c)), Arrive(0, 0, 0)) == Two(A4(c), B3(c))
    ensures Step(Two(A4(c), B3(c)), Arrive(0, 1, 0)) == Two(A5(c), B3(c))
    ensures Step(Two(A5(c), B3(c)), AtOpener(DoRead(2 * |c.y|))) == Two(ReadSome(A5(c), 2 * |c.y|), B3(c))
    ensures ReadSome(A5(c), 2 * |c.y|).readOut == c.y + c.y
  {
    TakeSecondSyn(c, c.idB);
    ArriveIs(c, A3(c), 0, A4(c));
    TakeData(c, A4(c), [c.y]);
    assert [c.y] + [c.y] == [c.y, c.y];
    ArriveIs(c, A4(c), 1, A5(c));
    ReadAll(c);
  }
}
