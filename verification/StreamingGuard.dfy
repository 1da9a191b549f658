/**
 A condition on each action that can be checked before it is taken, and that is enough for the acknowledgements of
 a whole run to be truthful.
 */
module StreamingGuard {
  import opened Bytes
  import opened StreamingSpec
  import opened StreamingInvariants
  import opened StreamingForeign
  import opened StreamingProtocol
  import opened StreamingAcks
  import opened StreamingReliability
  import opened StreamingLimits

  /** What was saved is at most 256 numbers ahead. */
  predicate Near(s: State) {
    forall i :: 0 <= i < |s.saved| ==> s.saved[i].seqn <= s.last + 256
  }

  predicate NoLate(log: seq<Packet>) {
    forall i :: 0 <= i < |log| ==> !LatePacket(log[i])
  }

  /** `Close` builds no packet, or the peer's SYN has arrived. */
  predicate MayClose(s: State) {
    s.last >= 0 || (!s.status.Reset? && !((s.status.Open? || s.status.Closing?) && s.sent == [] && s.eof))
  }

  /** The ack on `p` releases nothing to send, or the peer's SYN has arrived. */
  predicate MayTakeAck(s: State, p: Packet) {
    s.last >= 0 || p.noAck || (!s.status.Closing? && (s.eof || Acked(s.sent, p) == []))
  }

  /**
   Nothing is sent beyond the first SYN before the peer's SYN has arrived, and no packet is taken that is more than
   256 numbers ahead.
   */
  predicate Guarded(s: State, net: seq<Packet>, act: Action) {
    match act
    case Pump(_) => s.last >= 0 || s.sendID == 0
    case DoClose => MayClose(s)
    case ResendTimer(_) => s.last >= 0 || s.numResends < MAX_NUM_RESEND_ATTEMPTS
    case AckTimer => s.last >= 0 || !s.ackScheduled
    case Deliver(i, _) => i < |net| ==> MayTakeAck(s, net[i]) && net[i].seqn <= s.last + 256
    case _ => true
  }

  // ---------------------------------------------------------------- no late packet is built

  lemma {:induction false} FillFirstOnly(s: State, numMsgs: int)
    requires s.sendID == 0 && NoLate(s.log)
    ensures NoLate(Fill(s, numMsgs, true).log)
    decreases if s.status.New? then 1 else 0, if numMsgs > 0 then numMsgs else 0
  {
    if CanSend(s, numMsgs) {
      var s1 := AfterPacket(s, NextPacket(s, true));
      FillFirstOnly(s1, numMsgs - 1);
      assert Fill(s, numMsgs, true) == Fill(s1, numMsgs - 1, true);
    }
  }

  lemma DispatchNoLate(s: State, s1: State, ts: int)
    requires SendsNumbered(s, s1) && NoLate(s1.log) && (s1.status.Closing? ==> -1 < s1.last < SEQN_LIMIT)
    ensures NoLate(Dispatch(s, s1, ts).log)
  {
  }

  lemma SendBufferNoLate(s: State, ts: int)
    requires SenderOk(s) && s.seqNum + MAX_WINDOW_SIZE + 1 < UINT32_RANGE && NoLate(s.log)
    requires s.last >= 0 || s.sendID == 0
    ensures NoLate(SendBuffer(s, ts).log)
  {
    if s.last >= 0 {
      SendPromptly(s, ts);
    } else if s.rate.window > |s.sent| {
      FillFirstOnly(s, s.rate.window - |s.sent|);
      FillOnce(s, s.rate.window - |s.sent|, ts);
    }
  }

  lemma SendPromptly(s: State, ts: int)
    requires SenderOk(s) && s.seqNum + MAX_WINDOW_SIZE + 1 < UINT32_RANGE && NoLate(s.log) && s.last >= 0
    ensures NoLate(SendBuffer(s, ts).log)
  {
    var r := SendBuffer(s, ts);
    SendBufferOk(s, ts);
    forall i | 0 <= i < |r.log| ensures !LatePacket(r.log[i]) {
      if i < |s.log| {
        assert r.log[i] == s.log[i];
      } else {
        SendBufferPrompt(s, ts, i);
      }
    }
  }

  /** A stream without a peer sends its SYN or nothing. */
  lemma FillOnce(s: State, numMsgs: int, ts: int)
    requires s.sendID == 0 && NoLate(s.log) && numMsgs > 0
    ensures var s1 := Fill(s, numMsgs, true);
            NoLate(s1.log) && NoLate(Dispatch(s, s1, ts).log)
  {
    FillFirstOnly(s, numMsgs);
    var s1 := Fill(s, numMsgs, true);
    if s.status.New? {
      var s2 := AfterPacket(s, NextPacket(s, true));
      assert !CanSend(s2, numMsgs - 1);
      assert Fill(s2, numMsgs - 1, true) == s2;
      assert s1 == s2;
    } else {
      assert s1 == s;
    }
  }

  lemma CloseNoLate(s: State)
    requires NoLate(s.log) && MayClose(s) && -1 <= s.last < SEQN_LIMIT
    ensures NoLate(Close(s).log)
  {
    if s.last >= 0 {
      assert !LatePacket(ClosePacket(s));
    } else {
      assert Close(s).log == s.log;
    }
  }

  lemma TakeAckNoLate(s: State, p: Packet, ts: int)
    requires SenderOk(s) && s.seqNum + MAX_WINDOW_SIZE + 2 < UINT32_RANGE && NoLate(s.log) && MayTakeAck(s, p)
    ensures NoLate(TakeAck(s, p, ts).log)
  {
    var s1 := if s.sendID == 0 then s.(sendID := p.recvID) else s;
    if p.noAck {
      assert TakeAck(s, p, ts) == s1;
    } else if s.last >= 0 {
      AckPrompt(s1, p, ts);
    } else {
      AckQuiet(s1, p, ts);
    }
  }

  lemma AckPrompt(s: State, p: Packet, ts: int)
    requires SenderOk(s) && s.seqNum + MAX_WINDOW_SIZE + 2 < UINT32_RANGE && NoLate(s.log) && s.last >= 0
    ensures NoLate(ProcessAck(s, p, ts).log)
  {
    UnackedOk(s.sent, p, s.log);
    AckAllWindow(s.rate, Acked(s.sent, p), ts);
    var s1 := DropAcked(s, p, ts);
    assert SenderOk(s1.(numResends := 0));
    SendBufferNoLate(s1.(numResends := 0), ts);
    var s2 := if Acked(s.sent, p) != [] then SendBuffer(s1.(numResends := 0), ts) else s1;
    CloseNoLate(s2);
  }

  /** Without the peer's SYN an ack that releases nothing builds nothing. */
  lemma AckQuiet(s: State, p: Packet, ts: int)
    requires SenderOk(s) && s.last < 0 && !s.status.Closing? && (s.eof || Acked(s.sent, p) == [])
    ensures ProcessAck(s, p, ts).log == s.log
  {
    var s1 := DropAcked(s, p, ts);
    if Acked(s.sent, p) != [] {
      var s2 := s1.(numResends := 0);
      NewHasNothing(s);
      assert !CanSend(s2, s2.rate.window - |s2.sent|);
      assert SendBuffer(s2, ts) == s2;
    }
  }

  lemma NewHasNothing(s: State)
    requires SenderOk(s)
    ensures s.status.New? ==> s.sent == []
  {
    assert s.sent != [] ==> Logged(s.sent[0].packet, s.log);
  }

  // ---------------------------------------------------------------- receiving

  lemma ProcessPacketNoLate(s: State, p: Packet)
    requires NoLate(s.log) && !p.badSignature && p.seqn < SEQN_LIMIT
    ensures NoLate(ProcessPacket(s, p).log) && ProcessPacket(s, p).last == p.seqn && ProcessPacket(s, p).saved == s.saved
  {
    var s2 := s.(queue := if p.payload != [] then s.queue + [p.payload] else s.queue, last := AsInt32(p.seqn));
    if p.close {
      CloseNoLate(s2.(status := Reset));
      assert ProcessPacket(s, p) == Close(s2.(status := Reset));
    } else {
      assert ProcessPacket(s, p) == s2;
    }
  }

  /** Draining keeps what was near near, builds nothing late and moves on. */
  lemma {:induction false} DrainGuarded(s: State)
    requires NoLate(s.log) && Near(s) && -1 <= s.last < SEQN_LIMIT
    requires forall i :: 0 <= i < |s.saved| ==> !s.saved[i].badSignature && s.saved[i].seqn < SEQN_LIMIT
    ensures NoLate(Drain(s).log) && Near(Drain(s)) && s.last <= Drain(s).last < SEQN_LIMIT
    decreases |s.saved|
  {
    if s.saved != [] && s.saved[0].seqn == AsUint32(s.last + 1) {
      var s1 := ProcessPacket(s.(saved := s.saved[1..]), s.saved[0]);
      ProcessPacketNoLate(s.(saved := s.saved[1..]), s.saved[0]);
      assert s1.saved == s.saved[1..] && s1.last == s.last + 1;
      DrainGuarded(s1);
      assert Drain(s) == Drain(s1);
    }
  }

  lemma InSequenceGuarded(s: State, p: Packet, ts: int, log: seq<Packet>)
    requires SenderOk(s) && ReceiverOk(s, log) && LogOk(log) && Logged(p, log)
    requires p.seqn == s.last + 1 || (p.syn && SynAllowed(s, p))
    requires |log| < MAX_PACKETS && |s.log| <= MAX_PACKETS + MAX_WINDOW_SIZE + 2
    requires NoLate(s.log) && Near(s)
    ensures var r := TakeInSequence(s, p, ts); NoLate(r.log) && Near(r)
  {
    ProcessPacketNoLate(s, p);
    DrainGuarded(ProcessPacket(s, p));
    InSequenceOk(s, p, log);
    var s2 := Drain(ProcessPacket(s, p));
    var r := Respond(s2, p.syn, ts);
    if !s2.status.Open? && p.syn {
      SendBufferNoLate(s2, ts);
    }
    assert Near(r) by {
      assert r.last == s2.last && r.saved == s2.saved;
    }
  }

  lemma EarlyGuarded(s: State, p: Packet, log: seq<Packet>)
    requires ReceiverOk(s, log) && Logged(p, log) && !p.syn && NoLate(s.log) && Near(s) && p.seqn <= s.last + 256
    ensures var r := TakeEarly(s, p); NoLate(r.log) && Near(r)
  {
    InsertSavedOk(s.saved, p, log);
    var r := TakeEarly(s, p);
    assert r.saved == InsertSaved(s.saved, p) && r.last == s.last && r.log == s.log;
    forall i | 0 <= i < |r.saved| ensures r.saved[i].seqn <= r.last + 256 {
      assert r.saved[i] in r.saved;
    }
  }

  lemma TakeNumberedGuarded(s: State, p: Packet, ts: int, log: seq<Packet>)
    requires SenderOk(s) && ReceiverOk(s, log) && LogOk(log) && Genuine(p, log) && SynAllowed(s, p)
    requires |log| < MAX_PACKETS && |s.log| <= MAX_PACKETS + MAX_WINDOW_SIZE + 2
    requires NoLate(s.log) && Near(s) && p.seqn <= s.last + 256
    ensures var r := TakeNumbered(s, p, ts); NoLate(r.log) && Near(r)
  {
    assert AsInt32(p.seqn) == p.seqn;
    if p.seqn == 0 && !p.syn {
      assert TakeNumbered(s, p, ts) == s;
    } else if p.syn || p.seqn == s.last + 1 {
      InSequenceGuarded(s, p, ts, log);
      assert TakeNumbered(s, p, ts) == TakeInSequence(s, p, ts);
    } else if p.seqn <= s.last {
      assert TakeNumbered(s, p, ts) == SendQuickAck(s);
    } else {
      EarlyGuarded(s, p, log);
      assert TakeNumbered(s, p, ts) == TakeEarly(s, p);
    }
  }

  lemma HandleGuarded(s: State, p: Packet, ts: int, log: seq<Packet>)
    requires SenderOk(s) && ReceiverOk(s, log) && LogOk(log) && Genuine(p, log) && SynAllowed(s, p)
    requires |log| < MAX_PACKETS && |s.log| < MAX_PACKETS
    requires NoLate(s.log) && Near(s) && MayTakeAck(s, p) && p.seqn <= s.last + 256
    ensures var r := HandleNextPacket(s, p, ts); NoLate(r.log) && Near(r)
  {
    TakeAckOk(s, p, ts, log);
    TakeAckNoLate(s, p, ts);
    TakeNumberedGuarded(TakeAck(s, p, ts), p, ts, log);
  }

  // ---------------------------------------------------------------- every action

  lemma SameNear(s: State, r: State)
    requires Near(s) && SameReceiver(s, r)
    ensures Near(r)
  {
  }

  lemma TimerGuarded(x: State, net: seq<Packet>, act: Action)
    requires SenderOk(x) && NoLate(x.log) && Near(x) && Guarded(x, net, act)
    requires act.ResendTimer? || act.AckTimer? || act.Posted?
    ensures var r := StreamStep(x, net, act); NoLate(r.log) && Near(r)
  {
    match act
    case ResendTimer(ts) => ResendGuarded(x, ts);
    case AckTimer => AckTimerGuarded(x);
    case Posted =>
  }

  lemma ResendGuarded(x: State, ts: int)
    requires SenderOk(x) && NoLate(x.log) && Near(x) && (x.last >= 0 || x.numResends < MAX_NUM_RESEND_ATTEMPTS)
    ensures NoLate(HandleResendTimer(x, ts).log) && Near(HandleResendTimer(x, ts))
  {
    ResendPackets(x, ts);
    if x.numResends >= MAX_NUM_RESEND_ATTEMPTS {
      CloseNoLate(x.(status := Reset));
      SameNear(x, Close(x.(status := Reset)));
    }
  }

  lemma AckTimerGuarded(x: State)
    requires NoLate(x.log) && Near(x) && (x.last >= 0 || !x.ackScheduled)
    ensures NoLate(HandleAckSendTimer(x).log) && Near(HandleAckSendTimer(x))
  {
  }

  lemma StreamStepGuarded(x: State, net: seq<Packet>, act: Action, log: seq<Packet>)
    requires SenderOk(x) && ReceiverOk(x, log) && LogOk(log) && |log| < MAX_PACKETS && |x.log| < MAX_PACKETS
    requires forall i :: 0 <= i < |net| ==> Genuine(net[i], log)
    requires act.Deliver? && act.index < |net| && Routed(x, net[act.index]) ==> SynAllowed(x, net[act.index])
    requires NoLate(x.log) && Near(x) && Guarded(x, net, act)
    ensures var r := StreamStep(x, net, act); NoLate(r.log) && Near(r)
  {
    match act
    case Deliver(i, ts) =>
      if i < |net| && Routed(x, net[i]) {
        HandleGuarded(x, net[i], ts, log);
      }
    case Pump(ts) =>
      SendBufferNoLate(x, ts);
      SameNear(x, SendBuffer(x, ts));
    case DoClose =>
      CloseNoLate(x);
      SameNear(x, Close(x));
    case DoRead(_) =>
    case DoWrite(_) =>
    case _ => TimerGuarded(x, net, act);
  }

  // ---------------------------------------------------------------- whole runs

  lemma {:induction false} MissingSize(ps: seq<Packet>, next: nat)
    requires Ascending(ps, next)
    ensures |Missing(ps, next)| == if ps == [] then 0 else ps[|ps| - 1].seqn - next - (|ps| - 1)
  {
    if ps != [] {
      var rest := ps[1..];
      RangeOk(next, ps[0].seqn);
      assert Ascending(rest, ps[0].seqn + 1);
      MissingSize(rest, ps[0].seqn + 1);
      assert |Missing(ps, next)| == ps[0].seqn - next + |Missing(rest, ps[0].seqn + 1)|;
      if rest != [] {
        assert rest[|rest| - 1] == ps[|ps| - 1];
      }
    }
  }

  lemma NearIsPrompt(s: State, log: seq<Packet>)
    requires ReceiverOk(s, log) && |log| < MAX_PACKETS && NoLate(s.log) && Near(s)
    ensures Prompt(s)
  {
    SavedAscending(s, log);
    MissingSize(s.saved, s.last + 1);
  }

  /** No late packet was built and no more than 255 numbers are missing. */
  predicate CalmStream(x: State) {
    NoLate(x.log) && Near(x)
  }

  predicate AllCalm(xs: seq<State>) {
    forall k :: 0 <= k < |xs| ==> CalmStream(xs[k])
  }

  predicate Calm(sys: System) {
    CalmStream(sys.a) && AllCalm(sys.streams)
  }

  /** The condition on an event, to be checked before it is taken. */
  predicate GuardedEvent(sys: System, e: Event) {
    match e
    case AtOpener(act) => Guarded(sys.a, [], act)
    case AtStream(k, act) => k < |sys.streams| ==> Guarded(sys.streams[k], sys.a.outbox, act)
    case Accept(_, _, _, _) => true
    case Arrive(from, i, ts) => from < |sys.streams| ==> Guarded(sys.a, sys.streams[from].outbox, Deliver(i, ts))
  }

  lemma CalmIsPrompt(sys: System)
    requires Inv(sys) && InRange(sys) && Calm(sys)
    ensures AllPrompt(sys)
  {
    NearIsPrompt(sys.a, PeerOf(sys).log);
    forall k | 0 <= k < |sys.streams| ensures Prompt(sys.streams[k]) {
      assert StreamOk(sys.streams[k], sys.a.log);
      NearIsPrompt(sys.streams[k], sys.a.log);
    }
  }

  lemma OpenerCalm(sys: System, act: Action)
    requires Inv(sys) && InRange(sys) && Calm(sys) && Guarded(sys.a, [], act)
    ensures var x := StreamStep(sys.a, [], act); CalmStream(x) && Prompt(x)
  {
    PeerOk(sys);
    PeerInRange(sys);
    StreamStepGuarded(sys.a, [], act, PeerOf(sys).log);
    OpenerAlone(sys.a, act, PeerOf(sys).log);
    NearIsPrompt(StreamStep(sys.a, [], act), PeerOf(sys).log);
  }

  lemma AcceptorCalm(sys: System, k: nat, act: Action)
    requires Inv(sys) && InRange(sys) && Calm(sys) && k < |sys.streams| && Guarded(sys.streams[k], sys.a.outbox, act)
    ensures var x := StreamStep(sys.streams[k], sys.a.outbox, act); CalmStream(x) && Prompt(x)
  {
    assert StreamOk(sys.streams[k], sys.a.log) && CalmStream(sys.streams[k]);
    if act.Deliver? && act.index < |sys.a.outbox| {
      NoSecondSyn(sys, k, act.index);
    }
    StreamStepGuarded(sys.streams[k], sys.a.outbox, act, sys.a.log);
    AcceptorAlone(sys, k, act);
    NearIsPrompt(StreamStep(sys.streams[k], sys.a.outbox, act), sys.a.log);
  }

  lemma OpenedCalm(a: State, i: nat, id: nat, room: nat, ts: int)
    requires SenderOk(a) && |a.log| < MAX_PACKETS && i < |a.outbox| && OpensStream(a.outbox[i])
    ensures var x := HandleNextPacket(Fresh(id, room), a.outbox[i], ts); CalmStream(x) && Prompt(x)
  {
    var x, p := Fresh(id, room), a.outbox[i];
    assert Genuine(p, a.log);
    FreshFits(id, room, a.log);
    assert Acked(x.sent, p) == [];
    HandleGuarded(x, p, ts, a.log);
    Opened(a, i, id, room, ts);
    NearIsPrompt(HandleNextPacket(x, p, ts), a.log);
  }

  /** A harmless packet of another stream builds nothing late and saves nothing far ahead. */
  lemma HarmlessGuarded(s: State, p: Packet, ts: int, log: seq<Packet>)
    requires SenderOk(s) && ReceiverOk(s, log) && LogOk(log) && WellBuilt(p) && Harmless(s, p, log)
    requires |log| < MAX_PACKETS && |s.log| <= MAX_PACKETS + MAX_WINDOW_SIZE + 2
    requires CalmStream(s) && p.seqn <= s.last + 256
    ensures CalmStream(TakeNumbered(s, p, ts))
  {
    var again, q, log' := HarmlessStands(s, p, ts, log);
    if again {
      if !s.status.Open? {
        SendBufferNoLate(s, ts);
      }
      SameNear(s, Respond(s, true, ts));
    } else {
      TakeNumberedGuarded(s, q, ts, log');
    }
  }

  lemma ArrivesGuarded(s: State, y: State, i: nat, ts: int, log: seq<Packet>, own: bool)
    requires SenderOk(s) && ReceiverOk(s, log) && LogOk(log) && |s.log| < MAX_PACKETS && |log| < MAX_PACKETS
    requires SenderOk(y) && |y.log| < MAX_PACKETS && (own ==> y.log == log)
    requires i < |y.outbox| && Routed(s, y.outbox[i]) ==>
               if own then SynAllowed(s, y.outbox[i]) else Harmless(s, y.outbox[i], log)
    requires CalmStream(s) && Guarded(s, y.outbox, Deliver(i, ts))
    ensures CalmStream(StreamStep(s, y.outbox, Deliver(i, ts)))
  {
    if i < |y.outbox| && Routed(s, y.outbox[i]) {
      var p := y.outbox[i];
      OutboxWellBuilt(y, i);
      assert StreamStep(s, y.outbox, Deliver(i, ts)) == HandleNextPacket(s, p, ts);
      if own || (p.seqn == 0 && !p.syn) {
        HandleGuarded(s, p, ts, log);
      } else {
        TakeAckOk(s, p, ts, log);
        TakeAckNoLate(s, p, ts);
        HarmlessGuarded(TakeAck(s, p, ts), p, ts, log);
      }
    } else {
      assert StreamStep(s, y.outbox, Deliver(i, ts)) == s;
    }
  }

  lemma ArriveCalm(sys: System, from: nat, i: nat, ts: int)
    requires Inv(sys) && Allowed(sys, Arrive(from, i, ts)) && Calm(sys) && from < |sys.streams|
    requires Guarded(sys.a, sys.streams[from].outbox, Deliver(i, ts))
    ensures var x := StreamStep(sys.a, sys.streams[from].outbox, Deliver(i, ts)); CalmStream(x) && Prompt(x)
  {
    var y, peer := sys.streams[from], PeerThen(sys, from);
    assert StreamOk(y, sys.a.log);
    PeerThenOk(sys, from);
    PeerInRange(sys.(peer := peer));
    ArrivesGuarded(sys.a, y, i, ts, PeerOf(sys.(peer := peer)).log, peer == from);
    ArrivesOk(sys, from, i, ts);
    NearIsPrompt(StreamStep(sys.a, y.outbox, Deliver(i, ts)), PeerOf(sys.(peer := peer)).log);
  }

  ghost predicate CalmAndPrompt(r: System) {
    Calm(r) && AllPrompt(r)
  }

  lemma StreamsCalm(sys: System, k: nat, x: State)
    requires CalmAndPrompt(sys) && k < |sys.streams| && CalmStream(x) && Prompt(x)
    ensures CalmAndPrompt(sys.(streams := sys.streams[k := x]))
  {
  }

  lemma JoinCalm(sys: System, x: State)
    requires CalmAndPrompt(sys) && CalmStream(x) && Prompt(x)
    ensures CalmAndPrompt(sys.(streams := sys.streams + [x]))
  {
  }

  /** An event that meets its condition beforehand leaves every stream prompt. */
  lemma StepCalm(sys: System, e: Event)
    requires Inv(sys) && Calm(sys) && Allowed(sys, e) && GuardedEvent(sys, e)
    ensures CalmAndPrompt(Step(sys, e))
  {
    CalmIsPrompt(sys);
    match e
    case AtOpener(act) => OpenerCalm(sys, act);
    case AtStream(k, act) =>
      if k < |sys.streams| {
        AcceptorCalm(sys, k, act);
        StreamsCalm(sys, k, StreamStep(sys.streams[k], sys.a.outbox, act));
      }
    case Accept(i, id, room, ts) =>
      if i < |sys.a.outbox| && OpensStream(sys.a.outbox[i]) {
        OpenedCalm(sys.a, i, id, room, ts);
        JoinCalm(sys, HandleNextPacket(Fresh(id, room), sys.a.outbox[i], ts));
      }
    case Arrive(from, i, ts) =>
      if from < |sys.streams| {
        ArriveCalm(sys, from, i, ts);
      }
  }

  /** Every event is allowed, fair and meets its condition beforehand. */
  ghost predicate GuardedRun(sys: System, es: seq<Event>) {
    es == [] ||
    (&& GuardedRun(sys, es[..|es| - 1])
     && Allowed(Run(sys, es[..|es| - 1]), es[|es| - 1]) && FairArrival(Run(sys, es[..|es| - 1]), es[|es| - 1])
     && GuardedEvent(Run(sys, es[..|es| - 1]), es[|es| - 1]))
  }

  /** A run whose every event meets its condition beforehand is careful, so its acknowledgements are truthful. */
  lemma {:induction false} GuardedIsCareful(id: nat, room: nat, es: seq<Event>)
    requires GuardedRun(Init(id, room), es)
    ensures CarefulRun(Init(id, room), es) && Inv(Run(Init(id, room), es)) && Calm(Run(Init(id, room), es))
  {
    if es == [] {
      InitInv(id, room);
    } else {
      var sys, e := Run(Init(id, room), es[..|es| - 1]), es[|es| - 1];
      GuardedIsCareful(id, room, es[..|es| - 1]);
      StepInv(sys, e);
      StepCalm(sys, e);
    }
  }

  /** So over every such run all acknowledgements are truthful and nothing is lost. */
  lemma GuardedRunReliable(id: nat, room: nat, es: seq<Event>)
    requires GuardedRun(Init(id, room), es)
    ensures Reliable(Run(Init(id, room), es))
  {
    GuardedIsCareful(id, room, es);
    RunReliable(id, room, es);
  }

  // ---------------------------------------------------------------- one SYN

  ghost predicate SingleGuardedRun(sys: System, es: seq<Event>) {
    es == [] ||
    (&& SingleGuardedRun(sys, es[..|es| - 1])
     && Single(Run(sys, es[..|es| - 1]), es[|es| - 1]) && GuardedEvent(Run(sys, es[..|es| - 1]), es[|es| - 1]))
  }

  lemma SingleIsFair(sys: System, e: Event)
    requires Opening(sys) && |sys.streams| <= 1 && Single(sys, e)
    ensures FairArrival(sys, e)
  {
  }

  /**
   It is enough to let the opener's SYN in only while no stream is open: then everything comes from the peer, and every
   other condition looks at one stream and what reaches it.
   */
  lemma {:induction false} SingleIsGuarded(id: nat, room: nat, es: seq<Event>)
    requires SingleGuardedRun(Init(id, room), es)
    ensures GuardedRun(Init(id, room), es) && |Run(Init(id, room), es).streams| <= 1
  {
    if es != [] {
      var sys, e := Run(Init(id, room), es[..|es| - 1]), es[|es| - 1];
      SingleIsGuarded(id, room, es[..|es| - 1]);
      GuardedIsCareful(id, room, es[..|es| - 1]);
      SingleAllowed(sys, e);
      SingleStays(sys, e);
      SingleIsFair(sys, e);
    }
  }

  lemma SingleRunReliable(id: nat, room: nat, es: seq<Event>)
    requires SingleGuardedRun(Init(id, room), es)
    ensures Reliable(Run(Init(id, room), es)) && |Run(Init(id, room), es).streams| <= 1
  {
    SingleIsGuarded(id, room, es);
    GuardedRunReliable(id, room, es);
  }
}
