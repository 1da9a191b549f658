/**
 The streams a repeated SYN opens: exactly which of their packets the opener may take, and two runs, with one SYN
 taken by every stream, on which they make the opener's reader see bytes twice or miss some.
 */
module StreamingSecond {
  import opened Bytes
  import opened StreamingSpec
  import opened StreamingInvariants
  import opened StreamingForeign
  import opened StreamingProtocol
  import opened StreamingAcks
  import opened StreamingReliability
  import opened StreamingLimits

  // ---------------------------------------------------------------- exactly which packets are harmless

  /** Two logs that differ in one place and still have the same bytes do not differ in payload. */
  lemma {:induction false} PayloadsTell(log: seq<Packet>, p: Packet, k: nat)
    requires p.seqn < k <= |log| && Payloads(With(log, p)[..k]) == Payloads(log[..k])
    ensures p.payload == log[p.seqn].payload
    decreases k
  {
    var with := With(log, p);
    assert with[..k][..k - 1] == with[..k - 1] && log[..k][..k - 1] == log[..k - 1];
    if p.seqn < k - 1 {
      SameEnds(Payloads(with[..k - 1]), Payloads(log[..k - 1]), log[k - 1].payload);
      PayloadsTell(log, p, k - 1);
    } else {
      assert with[..k - 1] == log[..k - 1];
      SameStarts(Payloads(log[..k - 1]), p.payload, log[k - 1].payload);
    }
  }

  lemma SameEnds<T>(x: seq<T>, y: seq<T>, t: seq<T>)
    requires x + t == y + t
    ensures x == y
  {
    assert |x| == |y|;
    assert x == (x + t)[..|x|] && y == (y + t)[..|y|];
  }

  lemma SameStarts<T>(s: seq<T>, x: seq<T>, y: seq<T>)
    requires s + x == s + y
    ensures x == y
  {
    assert x == (s + x)[|s|..] && y == (s + y)[|s|..];
  }

  /** What was received so far does not depend on the packet that comes next. */
  lemma NextIsFree(s: State, p: Packet, log: seq<Packet>)
    requires ReceiverOk(s, log) && LogOk(log) && WellBuilt(p) && p.seqn == s.last + 1 && p.seqn < |log|
    ensures ReceiverOk(s, With(log, p)) && LogOk(With(log, p)) && Logged(p, With(log, p))
  {
    assert With(log, p)[..s.last + 1] == log[..s.last + 1];
  }

  /** A packet taken as next in sequence has brought the peer's bytes, if what was received is still in order. */
  lemma BroughtBytes(s: State, p: Packet, ts: int, log: seq<Packet>)
    requires SenderOk(s) && ReceiverOk(s, log) && LogOk(log) && WellBuilt(p) && p.seqn == s.last + 1
    requires |log| < MAX_PACKETS && |s.log| <= MAX_PACKETS + MAX_WINDOW_SIZE + 2
    requires ReceiverOk(TakeInSequence(s, p, ts), log)
    ensures p.seqn < |log| && p.payload == log[p.seqn].payload
  {
    TakenLast(s, p, ts, log);
    NextIsFree(s, p, log);
    TakeInSequenceOk(s, p, ts, With(log, p));
    BothInOrder(TakeInSequence(s, p, ts), log, p);
  }

  lemma BothInOrder(r: State, log: seq<Packet>, p: Packet)
    requires p.seqn <= r.last < |log| && ReceiverOk(r, log) && ReceiverOk(r, With(log, p))
    ensures p.payload == log[p.seqn].payload
  {
    PayloadsTell(log, p, r.last + 1);
  }

  lemma TakenLast(s: State, p: Packet, ts: int, log: seq<Packet>)
    requires ReceiverOk(s, log) && |log| < MAX_PACKETS && WellBuilt(p)
    ensures TakeInSequence(s, p, ts).last >= p.seqn
  {
    var s1 := ProcessPacket(s, p);
    assert s1.last == p.seqn && s1.saved == s.saved;
    DrainLast(s1);
    assert SameReceiver(Drain(s1), TakeInSequence(s, p, ts));
  }

  lemma {:induction false} InsertedIs(ps: seq<Packet>, p: Packet)
    requires forall i :: 0 <= i < |ps| ==> ps[i].seqn != p.seqn
    ensures p in InsertSaved(ps, p)
  {
    if ps != [] && p.seqn >= ps[0].seqn {
      InsertedIs(ps[1..], p);
    }
  }

  /** A SYN after others takes the last number back to 0. */
  lemma SynAfterOthers(s: State, p: Packet, ts: int, log: seq<Packet>)
    requires ReceiverOk(s, log) && WellBuilt(p) && p.syn && s.last >= 0
    ensures ReceiverOk(TakeNumbered(s, p, ts), log) && HoldsMore(s, TakeNumbered(s, p, ts)) ==> s.last == 0 && p.payload == []
  {
    var r, s1 := TakeNumbered(s, p, ts), ProcessPacket(s, p);
    assert s1.saved == s.saved && s1.last == 0 && Drain(s1) == s1;
    assert r == Respond(s1, true, ts) && SameReceiver(s1, r);
    if s.last >= 1 {
      assert Holds(s, 1) && !Holds(r, 1);
    } else if p.payload != [] {
      FlattenAppend(s.queue, [p.payload]);
      assert Flatten([p.payload]) == p.payload;
      assert |r.readOut + Flatten(r.queue)| == |Payloads(log[..1])| + |p.payload|;
    }
  }

  lemma KeptIsHarmless(s: State, p: Packet, ts: int, log: seq<Packet>)
    requires SenderOk(s) && ReceiverOk(s, log) && LogOk(log) && WellBuilt(p)
    requires |log| < MAX_PACKETS && |s.log| <= MAX_PACKETS + MAX_WINDOW_SIZE + 2
    requires ReceiverOk(TakeNumbered(s, p, ts), log) && HoldsMore(s, TakeNumbered(s, p, ts))
    ensures Harmless(s, p, log)
  {
    if p.syn && s.last >= 0 {
      SynAfterOthers(s, p, ts, log);
    } else if p.syn || (p.seqn != 0 && p.seqn == s.last + 1) {
      NextIsTaken(s, p, ts);
      BroughtBytes(s, p, ts, log);
    } else if p.seqn > s.last && p.seqn != 0 && !Holds(s, p.seqn) {
      InsertedIs(s.saved, p);
      assert AsInt32(p.seqn) == p.seqn;
      assert TakeNumbered(s, p, ts) == TakeEarly(s, p);
      assert p in TakeEarly(s, p).saved;
    }
  }

  /**
   A packet of another stream keeps the bytes received in order, and everything that is held, if and only if it is
   harmless.
   */
  lemma HarmlessExact(s: State, p: Packet, ts: int, log: seq<Packet>)
    requires SenderOk(s) && ReceiverOk(s, log) && LogOk(log) && WellBuilt(p) && |s.log| < MAX_PACKETS && |log| < MAX_PACKETS
    ensures var r := HandleNextPacket(s, p, ts);
            (ReceiverOk(r, log) && HoldsMore(s, r)) <==> Harmless(s, p, log)
  {
    var s1 := TakeAck(s, p, ts);
    TakeAckOk(s, p, ts, log);
    if Harmless(s, p, log) {
      HarmlessNumberedOk(s1, p, ts, log);
      HarmlessKeeps(s1, p, ts, log);
    }
    var r := TakeNumbered(s1, p, ts);
    if ReceiverOk(r, log) && HoldsMore(s, r) {
      KeptIsHarmless(s1, p, ts, log);
    }
  }

  /** The acknowledgement in a packet of another stream loses nothing if and only if it is justified. */
  lemma JustifiedExact(s: State, p: Packet, ts: int, peer: State)
    requires SenderOk(s) && NoLoss(s, peer) && !p.noAck
    ensures NoLoss(DropAcked(s, p, ts), peer) <==> Justified(s, p, peer)
  {
    var r := DropAcked(s, p, ts);
    forall n: nat ensures Outstanding(r.sent, n) <==> Outstanding(s.sent, n) && !Claims(p, n) {
      UnackedNumbers(s.sent, p, s.log, n);
    }
  }

  // ---------------------------------------------------------------- a second stream repeats bytes

  /** The opener, its peer `b` and another stream `o`. */
  function Three(a: State, b: State, o: State): System { System(a, [b, o], 0) }

  lemma JoinGoes(a: State, b: State, id: nat, room: nat)
    requires |a.log| < MAX_PACKETS && |b.log| < MAX_PACKETS && a.outbox != [] && OpensStream(a.outbox[0])
    ensures Goes(Two(a, b), Accept(0, id, room, 0), Three(a, b, HandleNextPacket(Fresh(id, room), a.outbox[0], 0)))
  {
    var o := HandleNextPacket(Fresh(id, room), a.outbox[0], 0);
    assert [b] + [o] == [b, o];
  }

  /** What arrives from either stream once the opener knows its peer. */
  lemma FromEither(a: State, b: State, o: State, from: nat, i: nat)
    requires from < 2 && a.sendID != 0
    ensures var x := if from == 0 then b else o;
            i < |x.outbox| && Routed(a, x.outbox[i]) ==>
              Step(Three(a, b, o), Arrive(from, i, 0)) == Three(HandleNextPacket(a, x.outbox[i], 0), b, o)
  {
    assert !Unheard(a);
  }

  /** The second stream, opened by the repeated SYN, answers like the first. */
  lemma SecondAnswers(c: Case, id: nat) returns (es: seq<Event>)
    requires Proper(c) && id != 0
    ensures AllowedRun(Begin(c), es) && Run(Begin(c), es) == Three(A3(c), B3(c), B1(c.(idB := id)))
  {
    es := UpToData(c);
    B01(c.(idB := id));
    JoinGoes(A3(c), B3(c), id, c.roomB);
    Extend(Begin(c), es, Accept(0, id, c.roomB, 0), Three(A3(c), B3(c), B1(c.(idB := id))));
    es := es + [Accept(0, id, c.roomB, 0)];
  }

  lemma RepeatSteps(c: Case, id: nat)
    requires Proper(c) && id != 0
    ensures var o := B1(c.(idB := id));
            && Step(Three(A3(c), B3(c), o), Arrive(1, 0, 0)) == Three(A4(c), B3(c), o)
            && Step(Three(A4(c), B3(c), o), Arrive(0, 1, 0)) == Three(A5(c), B3(c), o)
            && Step(Three(A5(c), B3(c), o), AtOpener(DoRead(2 * |c.y|))) == Three(ReadSome(A5(c), 2 * |c.y|), B3(c), o)
  {
    var o := B1(c.(idB := id));
    TakeSecondSyn(c, id);
    FromEither(A3(c), B3(c), o, 1, 0);
    TakeData(c, A4(c), [c.y]);
    assert [c.y] + [c.y] == [c.y, c.y];
    FromEither(A4(c), B3(c), o, 0, 1);
  }

  /**
   A run that is allowed until the answer of a second stream, opened by a repeated SYN of the opener's, reaches the
   opener: every stream takes one SYN, yet after the peer's data has been repeated the reader has got the bytes twice.
   */
  lemma SecondStreamRepeatsBytes(c: Case, id: nat) returns (before: seq<Event>, es: seq<Event>)
    requires Proper(c) && id != 0
    ensures AllowedRun(Begin(c), before)
    ensures es == before + [Arrive(1, 0, 0), Arrive(0, 1, 0), AtOpener(DoRead(2 * |c.y|))]
    ensures var sys := Run(Begin(c), es);
            |sys.streams| == 2 && PeerOf(sys).written == c.y && sys.a.readOut == c.y + c.y && !(sys.a.readOut <= PeerOf(sys).written)
  {
    before := SecondAnswers(c, id);
    RepeatSteps(c, id);
    ReadAll(c);
    RunThree(Begin(c), before, Arrive(1, 0, 0), Arrive(0, 1, 0), AtOpener(DoRead(2 * |c.y|)));
    es := before + [Arrive(1, 0, 0), Arrive(0, 1, 0), AtOpener(DoRead(2 * |c.y|))];
    assert |c.y + c.y| > |c.y|;
  }

  // ---------------------------------------------------------------- a second stream makes bytes go missing

  /** The opener `idA` has nothing to send; its peer `idB` sends `x` and then `y`; `idO` is the second stream. */
  datatype Gap = Gap(idA: nat, room: nat, idB: nat, roomB: nat, idO: nat, x: seq<byte>, y: seq<byte>)

  ghost predicate GapOk(g: Gap) {
    && g.idA != 0 && g.idB != 0 && g.idO != 0 && g.room > 0 && g.roomB > 0
    && 1 <= |g.x| < FOLLOW_ON_ROOM && 1 <= |g.y| < FOLLOW_ON_ROOM && !(g.y <= g.x + g.y)
  }

  function GSynA(g: Gap): Packet { Packet(0, g.idA, 0, LATE_SYN, [], true, false, true, false, []) }

  function GSynB(g: Gap, id: nat): Packet { Packet(g.idA, id, 0, 0, [], true, false, false, false, []) }

  function GAck(g: Gap): Packet { Packet(g.idB, g.idA, 0, 0, [], false, false, false, false, []) }

  function GData(g: Gap, n: nat, data: seq<byte>): Packet { Packet(g.idA, g.idB, n, 0, [], false, false, false, false, data) }

  function GClose(g: Gap): Packet { Packet(g.idA, g.idO, 1, 0, [], false, true, false, false, []) }

  function GA1(g: Gap): State {
    Fresh(g.idA, g.room).(seqNum := 1, status := Open, log := [GSynA(g)], eof := true,
                          sent := [SentPacket(GSynA(g), 0)], outbox := [GSynA(g)])
  }

  function GA2(g: Gap): State { GA1(g).(sendID := g.idB, sent := [], rate := Rate(2, 0, 0, 0), last := 0, ackScheduled := true) }

  function GA3(g: Gap): State { GA2(g).(ackScheduled := false, outbox := [GSynA(g), GAck(g)]) }

  function GB1(g: Gap, id: nat): State {
    Fresh(id, g.roomB).(sendID := g.idA, seqNum := 1, last := 0, status := Open, log := [GSynB(g, id)], eof := true,
                        sent := [SentPacket(GSynB(g, id), 0)], outbox := [GSynB(g, id)])
  }

  function GB2(g: Gap): State { GB1(g, g.idB).(sent := [], rate := Rate(2, 0, 0, 0)) }

  function GB3(g: Gap): State {
    var p := GData(g, 1, g.x);
    GB2(g).(seqNum := 2, log := [GSynB(g, g.idB), p], sent := [SentPacket(p, 0)], outbox := [GSynB(g, g.idB), p], written := g.x)
  }

  function GB4(g: Gap): State {
    var p, q := GData(g, 1, g.x), GData(g, 2, g.y);
    GB3(g).(seqNum := 3, log := [GSynB(g, g.idB), p, q], sent := [SentPacket(p, 0), SentPacket(q, 0)],
            outbox := [GSynB(g, g.idB), p, q], written := g.x + g.y)
  }

  lemma GapOpener(g: Gap)
    requires GapOk(g)
    ensures SendBuffer(Fresh(g.idA, g.room), 0) == GA1(g)
  {
    var s, p := Fresh(g.idA, g.room), GSynA(g);
    assert s.buffer[..0] == [] && NextPacket(s, true) == p;
    var r := AfterPacket(s, p);
    assert !CanSend(r, 0);
    assert Fill(s, 1, true) == r;
    assert Built(s, r) == [p];
    SingleInsert(p, 0);
  }

  /** Either stream answers the SYN. */
  lemma GapAnswer(g: Gap, id: nat)
    requires GapOk(g)
    ensures HandleNextPacket(Fresh(id, g.roomB), GSynA(g), 0) == GB1(g, id)
  {
    var s0, p := Fresh(id, g.roomB).(sendID := g.idA), GSynB(g, id);
    assert TakeAck(Fresh(id, g.roomB), GSynA(g), 0) == s0;
    var s1 := s0.(last := 0);
    assert Drain(ProcessPacket(s0, GSynA(g))) == s1;
    assert s1.buffer[..0] == [] && NextPacket(s1, false) == p;
    var s2 := AfterPacket(s1, p);
    assert !CanSend(s2, 0);
    assert Fill(s1, 1, false) == s2;
    assert Built(s1, s2) == [p];
    SingleInsert(p, 0);
  }

  /** With nothing to send an ack only frees the window. */
  lemma {:induction false} QuietAck(s: State, e: SentPacket, p: Packet, free: State)
    requires s.sendID != 0 && s.sent == [e] && Claims(p, e.packet.seqn) && !p.noAck && s.numResends == 0
    requires s.eof && s.status.Open? && free == s.(sent := [], rate := AckOne(s.rate, e, 0))
    ensures TakeAck(s, p, 0) == free
  {
    SingleAck(e, p, s.rate, 0);
    assert DropAcked(s, p, 0) == free && free.(numResends := 0) == free;
    assert !CanSend(free, free.rate.window);
    assert Fill(free, free.rate.window, free.last < 0) == free;
    assert SendBuffer(free, 0) == free;
    assert Resume(free, true, 0) == free;
  }

  lemma GapHeard(g: Gap)
    requires GapOk(g)
    ensures HandleNextPacket(GA1(g), GSynB(g, g.idB), 0) == GA2(g) && HandleAckSendTimer(GA2(g)) == GA3(g)
  {
    var e, s := SentPacket(GSynA(g), 0), GA1(g).(sendID := g.idB);
    FirstAck(e);
    var free := s.(sent := [], rate := Rate(2, 0, 0, 0));
    QuietAck(s, e, GSynB(g, g.idB), free);
    assert TakeAck(GA1(g), GSynB(g, g.idB), 0) == free;
    assert ProcessPacket(free, GSynB(g, g.idB)) == free.(last := 0) && Drain(free.(last := 0)) == free.(last := 0);
    assert QuickAck(GA2(g)) == GAck(g);
  }

  lemma GapAcked(g: Gap)
    requires GapOk(g)
    ensures HandleNextPacket(GB1(g, g.idB), GAck(g), 0) == GB2(g)
  {
    var e := SentPacket(GSynB(g, g.idB), 0);
    FirstAck(e);
    QuietAck(GB1(g, g.idB), e, GAck(g), GB2(g));
  }

  function WithOne(s: State, data: seq<byte>, p: Packet): State {
    s.(seqNum := s.seqNum + 1, log := s.log + [p], ackScheduled := false, written := s.written + data,
       sent := InsertSent(s.sent, SentPacket(p, 0)), outbox := s.outbox + [p])
  }

  lemma InsertOne(es: seq<SentPacket>, p: Packet, ts: int)
    ensures InsertAll(es, [p], ts) == InsertSent(es, SentPacket(p, ts))
  {
    assert [p][..0] == [];
    assert InsertAll(es, [p][..0], ts) == es;
  }

  /** A stream that has sent everything writes one more packet's worth. */
  lemma {:induction false} SendsOne(s: State, data: seq<byte>, p: Packet)
    requires s.sendID != 0 && s.status.Open? && s.eof && s.buffer == [] && s.last >= 0 && 1 <= |data| < FOLLOW_ON_ROOM
    requires s.rate.window > |s.sent| && s.seqNum + 1 < UINT32_RANGE
    requires p == Packet(s.sendID, s.recvID, s.seqNum, 0, [], false, false, false, false, data)
    ensures SendBuffer(Write(s, data), 0) == WithOne(s, data, p)
  {
    var s1 := Write(s, data);
    var numMsgs := s.rate.window - |s.sent|;
    assert s1.buffer == data && data[..|data|] == data;
    assert NextPacket(s1, false) == p;
    var s2 := AfterPacket(s1, p);
    assert s2.buffer == [] && !CanSend(s2, numMsgs - 1);
    assert Fill(s1, numMsgs, false) == s2;
    assert Built(s1, s2) == [p];
    InsertOne(s.sent, p, 0);
    assert SendBuffer(s1, 0) == Dispatch(s1, s2, 0);
  }

  lemma GapWrites(g: Gap)
    requires GapOk(g)
    ensures SendBuffer(Write(GB2(g), g.x), 0) == GB3(g) && SendBuffer(Write(GB3(g), g.y), 0) == GB4(g)
  {
    SendsOne(GB2(g), g.x, GData(g, 1, g.x));
    FirstData(g);
    SendsOne(GB3(g), g.y, GData(g, 2, g.y));
    SecondData(g);
  }

  lemma FirstData(g: Gap)
    ensures WithOne(GB2(g), g.x, GData(g, 1, g.x)) == GB3(g)
  {
    var p := GData(g, 1, g.x);
    assert [] + g.x == g.x && [GSynB(g, g.idB)] + [p] == [GSynB(g, g.idB), p];
  }

  lemma SecondData(g: Gap)
    ensures WithOne(GB3(g), g.y, GData(g, 2, g.y)) == GB4(g)
  {
    var p, q := GData(g, 1, g.x), GData(g, 2, g.y);
    InsertSentLast([SentPacket(p, 0)], SentPacket(q, 0));
    assert [GSynB(g, g.idB), p] + [q] == [GSynB(g, g.idB), p, q];
    assert [SentPacket(p, 0)] + [SentPacket(q, 0)] == [SentPacket(p, 0), SentPacket(q, 0)];
  }

  /** The opener after its peer's second packet has arrived without the first. */
  function GA4(g: Gap): State { SendQuickAck(GA3(g).(saved := [GData(g, 2, g.y)])) }

  /** An ack for a stream with nothing outstanding changes nothing. */
  lemma NothingToAck(s: State, p: Packet)
    requires s.sendID != 0 && s.sent == [] && s.status.Open?
    ensures TakeAck(s, p, 0) == s
  {
    assert DropAcked(s, p, 0) == s && Resume(s, false, 0) == s;
  }

  lemma GapSaved(g: Gap)
    requires GapOk(g)
    ensures HandleNextPacket(GA3(g), GData(g, 2, g.y), 0) == GA4(g)
  {
    var p := GData(g, 2, g.y);
    NothingToAck(GA3(g), p);
    assert InsertSaved([], p) == [p];
    assert TakeNumbered(GA3(g), p, 0) == TakeEarly(GA3(g), p);
  }

  /** The foreign close packet fills the gap, and the packet behind it is delivered. */
  lemma GapFilled(g: Gap, s: State)
    requires GapOk(g) && s.sendID != 0 && s.sent == [] && s.status.Open? && s.last == 0 && s.queue == []
    requires s.saved == [GData(g, 2, g.y)]
    ensures var r := HandleNextPacket(s, GClose(g), 0); r.queue == [g.y] && r.readOut == s.readOut
  {
    var p, q := GClose(g), GData(g, 2, g.y);
    NothingToAck(s, p);
    var s1 := ProcessPacket(s, p);
    assert s1.last == 1 && s1.saved == [q] && s1.queue == [] && s1.status.Reset?;
    var s2 := ProcessPacket(s1.(saved := s1.saved[1..]), q);
    assert s2.saved == [] && s2.queue == [] + [g.y];
    assert Drain(s1) == Drain(s2) == s2;
    assert TakeNumbered(s, p, 0) == TakeInSequence(s, p, 0) == Respond(s2, false, 0);
  }

  // ---------------------------------------------------------------- the second stream gives up

  /** The second stream has resent its SYN `n` times. */
  ghost predicate Waiting(g: Gap, o: State, n: nat) {
    && o.status.Open? && o.numResends == n && |o.sent| == 1 && o.sent[0].packet == GSynB(g, g.idO)
    && o.log == [GSynB(g, g.idO)] && o.posted == [] && !o.deleted
    && o.sendID == g.idA && o.recvID == g.idO && o.seqNum == 1 && o.last == 0
  }

  lemma ResendOnce(g: Gap, o: State, n: nat)
    requires Waiting(g, o, n) && n < MAX_NUM_RESEND_ATTEMPTS
    ensures Waiting(g, HandleResendTimer(o, o.sent[0].sendTime + o.rate.rto), n + 1)
  {
    var ts, none: seq<SentPacket> := o.sent[0].sendTime + o.rate.rto, [];
    assert o.sent == [o.sent[0]] && o.sent[1..] == none;
    assert DuePackets(none, ts, o.rate.rto) == [];
    assert DuePackets(o.sent, ts, o.rate.rto) == [o.sent[0].packet];
    assert Touched(none, ts, o.rate.rto) == none;
    assert Touched(o.sent, ts, o.rate.rto) == [o.sent[0].(sendTime := ts)];
  }

  /** After six of them it resets itself, and its close packet goes to the opener under number 1. */
  lemma GivesUp(g: Gap, o: State)
    requires GapOk(g) && Waiting(g, o, MAX_NUM_RESEND_ATTEMPTS)
    ensures var r := HandleResendTimer(o, 0); |r.log| == 2 && r.posted == [GClose(g)] && RunPosted(r).outbox == o.outbox + [GClose(g)]
  {
    assert ClosePacket(o.(status := Reset)) == GClose(g);
  }

  // ---------------------------------------------------------------- the run

  lemma ThreeOpenerGoes(a: State, b: State, o: State, act: Action)
    requires |a.log| < MAX_PACKETS && |b.log| < MAX_PACKETS && |o.log| < MAX_PACKETS
    ensures Goes(Three(a, b, o), AtOpener(act), Three(StreamStep(a, [], act), b, o))
  {
  }

  lemma PeerGoes(a: State, b: State, o: State, act: Action)
    requires |a.log| < MAX_PACKETS && |b.log| < MAX_PACKETS && |o.log| < MAX_PACKETS
    ensures Goes(Three(a, b, o), AtStream(0, act), Three(a, StreamStep(b, a.outbox, act), o))
  {
    assert [b, o][0 := StreamStep(b, a.outbox, act)] == [StreamStep(b, a.outbox, act), o];
  }

  lemma SecondGoes(a: State, b: State, o: State, act: Action)
    requires |a.log| < MAX_PACKETS && |b.log| < MAX_PACKETS && |o.log| < MAX_PACKETS
    ensures Goes(Three(a, b, o), AtStream(1, act), Three(a, b, StreamStep(o, a.outbox, act)))
  {
    assert [b, o][1 := StreamStep(o, a.outbox, act)] == [b, StreamStep(o, a.outbox, act)];
  }

  lemma PeerArrives(a: State, b: State, o: State, i: nat)
    requires |a.log| < MAX_PACKETS && |b.log| < MAX_PACKETS && |o.log| < MAX_PACKETS
    requires i < |b.outbox| && Routed(a, b.outbox[i]) && SynAllowed(a, b.outbox[i])
    ensures Goes(Three(a, b, o), Arrive(0, i, 0), Three(HandleNextPacket(a, b.outbox[i], 0), b, o))
  {
    assert PeerThen(Three(a, b, o), 0) == 0;
  }

  function GBegin(g: Gap): System { Init(g.idA, g.room) }

  /** Two copies of the opener's SYN open two streams; the first answer makes the first one the peer. */
  lemma GapOpening(g: Gap) returns (es: seq<Event>)
    requires GapOk(g)
    ensures AllowedRun(GBegin(g), es) && Run(GBegin(g), es) == Three(GA1(g), GB1(g, g.idB), GB1(g, g.idO))
  {
    var a := GA1(g);
    GapOpener(g);
    GapAnswer(g, g.idB);
    GapAnswer(g, g.idO);
    AloneGoes(Fresh(g.idA, g.room), Pump(0));
    es := [];
    Extend(GBegin(g), es, AtOpener(Pump(0)), System(a, [], 0));
    es := es + [AtOpener(Pump(0))];
    AcceptGoes(a, g.idB, g.roomB, GSynA(g));
    Extend(GBegin(g), es, Accept(0, g.idB, g.roomB, 0), Two(a, GB1(g, g.idB)));
    es := es + [Accept(0, g.idB, g.roomB, 0)];
    JoinGoes(a, GB1(g, g.idB), g.idO, g.roomB);
    Extend(GBegin(g), es, Accept(0, g.idO, g.roomB, 0), Three(a, GB1(g, g.idB), GB1(g, g.idO)));
    es := es + [Accept(0, g.idO, g.roomB, 0)];
  }

  /** In state `Three(a, b, o)` of an allowed run, `e` leads to `Three(a', b', o')`. */
  lemma More(g: Gap, es: seq<Event>, a: State, b: State, o: State, e: Event, a': State, b': State, o': State)
    returns (fs: seq<Event>)
    requires AllowedRun(GBegin(g), es) && Run(GBegin(g), es) == Three(a, b, o) && Goes(Three(a, b, o), e, Three(a', b', o'))
    ensures AllowedRun(GBegin(g), fs) && Run(GBegin(g), fs) == Three(a', b', o')
  {
    Extend(GBegin(g), es, e, Three(a', b', o'));
    fs := es + [e];
  }

  lemma HandshakeGoes(g: Gap)
    requires GapOk(g)
    ensures var b, o := GB1(g, g.idB), GB1(g, g.idO);
            && Goes(Three(GA1(g), b, o), Arrive(0, 0, 0), Three(GA2(g), b, o))
            && Goes(Three(GA2(g), b, o), AtOpener(AckTimer), Three(GA3(g), b, o))
            && Goes(Three(GA3(g), b, o), AtStream(0, Deliver(1, 0)), Three(GA3(g), GB2(g), o))
  {
    var b, o := GB1(g, g.idB), GB1(g, g.idO);
    GapHeard(g);
    GapAcked(g);
    PeerArrives(GA1(g), b, o, 0);
    ThreeOpenerGoes(GA2(g), b, o, AckTimer);
    PeerGoes(GA3(g), b, o, Deliver(1, 0));
  }

  lemma GapHandshake(g: Gap) returns (es: seq<Event>)
    requires GapOk(g)
    ensures AllowedRun(GBegin(g), es) && Run(GBegin(g), es) == Three(GA3(g), GB2(g), GB1(g, g.idO))
  {
    var b, o := GB1(g, g.idB), GB1(g, g.idO);
    HandshakeGoes(g);
    es := GapOpening(g);
    es := More(g, es, GA1(g), b, o, Arrive(0, 0, 0), GA2(g), b, o);
    es := More(g, es, GA2(g), b, o, AtOpener(AckTimer), GA3(g), b, o);
    es := More(g, es, GA3(g), b, o, AtStream(0, Deliver(1, 0)), GA3(g), GB2(g), o);
  }

  /** The peer sends two packets, of which the second arrives. */
  lemma GapData(g: Gap) returns (es: seq<Event>)
    requires GapOk(g)
    ensures AllowedRun(GBegin(g), es) && Run(GBegin(g), es) == Three(GA4(g), GB4(g), GB1(g, g.idO))
  {
    var a, o := GA3(g), GB1(g, g.idO);
    es := GapHandshake(g);
    GapWrites(g);
    es := WritesAndSends(g, es, a, GB2(g), o, g.x, GB3(g));
    es := WritesAndSends(g, es, a, GB3(g), o, g.y, GB4(g));
    GapSaved(g);
    PeerArrives(a, GB4(g), o, 2);
    Extend(GBegin(g), es, Arrive(0, 2, 0), Three(GA4(g), GB4(g), o));
    es := es + [Arrive(0, 2, 0)];
  }

  lemma WritesAndSends(g: Gap, es: seq<Event>, a: State, b: State, o: State, data: seq<byte>, r: State) returns (fs: seq<Event>)
    requires AllowedRun(GBegin(g), es) && Run(GBegin(g), es) == Three(a, b, o) && SendBuffer(Write(b, data), 0) == r
    requires |a.log| < MAX_PACKETS && |b.log| < MAX_PACKETS && |o.log| < MAX_PACKETS
    ensures AllowedRun(GBegin(g), fs) && Run(GBegin(g), fs) == Three(a, r, o)
  {
    PeerGoes(a, b, o, DoWrite(data));
    Extend(GBegin(g), es, AtStream(0, DoWrite(data)), Three(a, Write(b, data), o));
    fs := es + [AtStream(0, DoWrite(data))];
    PeerGoes(a, Write(b, data), o, Pump(0));
    Extend(GBegin(g), fs, AtStream(0, Pump(0)), Three(a, r, o));
    fs := fs + [AtStream(0, Pump(0))];
  }

  lemma ResendGoes(g: Gap, a: State, b: State, o: State, n: nat) returns (act: Action, r: State)
    requires Waiting(g, o, n) && |a.log| < MAX_PACKETS && |b.log| < MAX_PACKETS && n < MAX_NUM_RESEND_ATTEMPTS
    ensures Goes(Three(a, b, o), AtStream(1, act), Three(a, b, r)) && Waiting(g, r, n + 1)
  {
    act := ResendTimer(o.sent[0].sendTime + o.rate.rto);
    r := HandleResendTimer(o, o.sent[0].sendTime + o.rate.rto);
    ResendOnce(g, o, n);
    SecondGoes(a, b, o, act);
  }

  lemma {:induction false} ResendRun(g: Gap, before: seq<Event>, a: State, b: State, o0: State, n: nat)
    returns (es: seq<Event>, o: State)
    requires AllowedRun(GBegin(g), before) && Run(GBegin(g), before) == Three(a, b, o0) && Waiting(g, o0, 0)
    requires |a.log| < MAX_PACKETS && |b.log| < MAX_PACKETS && n <= MAX_NUM_RESEND_ATTEMPTS
    ensures AllowedRun(GBegin(g), es) && Run(GBegin(g), es) == Three(a, b, o) && Waiting(g, o, n)
    decreases n
  {
    if n == 0 {
      es, o := before, o0;
    } else {
      var last: State;
      es, last := ResendRun(g, before, a, b, o0, n - 1);
      var act: Action;
      act, o := ResendGoes(g, a, b, last, n - 1);
      es := More(g, es, a, b, last, AtStream(1, act), a, b, o);
    }
  }

  lemma CloseGoes(g: Gap, a: State, b: State, o: State) returns (closed: State, r: State, i: nat)
    requires GapOk(g) && Waiting(g, o, MAX_NUM_RESEND_ATTEMPTS) && |a.log| < MAX_PACKETS && |b.log| < MAX_PACKETS
    ensures Goes(Three(a, b, o), AtStream(1, ResendTimer(0)), Three(a, b, closed))
    ensures Goes(Three(a, b, closed), AtStream(1, Posted), Three(a, b, r))
    ensures i < |r.outbox| && r.outbox[i] == GClose(g)
  {
    closed := HandleResendTimer(o, 0);
    GivesUp(g, o);
    r := RunPosted(closed);
    i := |o.outbox|;
    SecondGoes(a, b, o, ResendTimer(0));
    SecondGoes(a, b, closed, Posted);
  }

  lemma CloseRun(g: Gap, before: seq<Event>, a: State, b: State, o: State) returns (es: seq<Event>, r: State, i: nat)
    requires AllowedRun(GBegin(g), before) && Run(GBegin(g), before) == Three(a, b, o)
    requires GapOk(g) && Waiting(g, o, MAX_NUM_RESEND_ATTEMPTS) && |a.log| < MAX_PACKETS && |b.log| < MAX_PACKETS
    ensures AllowedRun(GBegin(g), es) && Run(GBegin(g), es) == Three(a, b, r)
    ensures i < |r.outbox| && r.outbox[i] == GClose(g)
  {
    var closed: State;
    closed, r, i := CloseGoes(g, a, b, o);
    es := More(g, before, a, b, o, AtStream(1, ResendTimer(0)), a, b, closed);
    es := More(g, es, a, b, closed, AtStream(1, Posted), a, b, r);
  }

  lemma GapClosing(g: Gap) returns (es: seq<Event>, o: State, i: nat)
    requires GapOk(g)
    ensures AllowedRun(GBegin(g), es) && Run(GBegin(g), es) == Three(GA4(g), GB4(g), o)
    ensures i < |o.outbox| && o.outbox[i] == GClose(g)
  {
    es := GapData(g);
    es, o := ResendRun(g, es, GA4(g), GB4(g), GB1(g, g.idO), MAX_NUM_RESEND_ATTEMPTS);
    es, o, i := CloseRun(g, es, GA4(g), GB4(g), o);
  }

  lemma ReadGap(s: State, y: seq<byte>)
    requires s.queue == [y] && s.readOut == []
    ensures ReadSome(s, |y|).readOut == y
  {
    var none: seq<seq<byte>> := [];
    assert [y][1..] == none && Flatten(none) == [];
    assert Flatten([y]) == y + [] == y;
    assert [] + y[..|y|] == y;
  }

  lemma TwoSteps(g: Gap, before: seq<Event>, e: Event, f: Event)
    ensures Run(GBegin(g), before + [e, f]) == Step(Step(Run(GBegin(g), before), e), f)
  {
    RunPush(GBegin(g), before, e);
    RunPush(GBegin(g), before + [e], f);
    assert before + [e, f] == before + [e] + [f];
  }

  /** The opener's reader has got the peer's second packet without the first. */
  ghost predicate Skipped(g: Gap, r: System) {
    && |r.streams| == 2 && PeerOf(r).written == g.x + g.y
    && r.a.readOut == g.y && !(r.a.readOut <= PeerOf(r).written)
  }

  /** The close packet arrives, and the opener's reader reads. */
  lemma GapEnd(g: Gap, s: System, o: State, i: nat)
    requires GapOk(g) && s == Three(GA4(g), GB4(g), o) && i < |o.outbox| && o.outbox[i] == GClose(g)
    ensures Skipped(g, Step(Step(s, Arrive(1, i, 0)), AtOpener(DoRead(|g.y|))))
  {
    FromEither(GA4(g), GB4(g), o, 1, i);
    GapFilled(g, GA4(g));
    ReadGap(HandleNextPacket(GA4(g), GClose(g), 0), g.y);
  }

  /** The run up to the arrival of the close packet at index `i` of the second stream's outbox. */
  lemma UpToClose(g: Gap) returns (es: seq<Event>, i: nat)
    requires GapOk(g)
    ensures AllowedRun(GBegin(g), es)
    ensures Skipped(g, Step(Step(Run(GBegin(g), es), Arrive(1, i, 0)), AtOpener(DoRead(|g.y|))))
  {
    var o: State;
    es, o, i := GapClosing(g);
    GapEnd(g, Run(GBegin(g), es), o, i);
  }

  /**
   A run that is allowed until the close packet of a second stream, which nobody ever acknowledged, reaches the opener:
   every stream takes one SYN, yet the opener's reader gets the peer's second packet without the first.
   */
  lemma SecondStreamSkipsBytes(g: Gap) returns (before: seq<Event>, es: seq<Event>, i: nat)
    requires GapOk(g)
    ensures AllowedRun(GBegin(g), before) && es == before + [Arrive(1, i, 0), AtOpener(DoRead(|g.y|))]
    ensures Skipped(g, Run(GBegin(g), es))
  {
    before, i := UpToClose(g);
    es := before + [Arrive(1, i, 0), AtOpener(DoRead(|g.y|))];
    TwoSteps(g, before, Arrive(1, i, 0), AtOpener(DoRead(|g.y|)));
  }
}
