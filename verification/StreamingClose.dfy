/**
 Closing: over whole runs, a stream that reaches Closed has delivered everything, whether or not data was still
 buffered when it was closed.
 */
module StreamingClose {
  import opened Bytes
  import opened StreamingSpec
  import opened StreamingInvariants
  import opened StreamingProtocol
  import opened StreamingAcks
  import opened StreamingReliability

  ghost predicate NoClose(log: seq<Packet>) {
    forall i :: 0 <= i < |log| ==> !log[i].close
  }

  /**
   Before it is closed, a stream has built no close packet; while it is closing, one is built only behind the last
   byte; and it is Closed only with nothing buffered or outstanding. A stream that was reset promises nothing.
   */
  ghost predicate Tidy(s: State) {
    match s.status
    case New => NoClose(s.log) && s.sent == []
    case Open => NoClose(s.log)
    case Closing => CloseLast(s.log) && (NoClose(s.log) || s.eof)
    case Closed => CloseLast(s.log) && !NoClose(s.log) && s.eof && s.sent == []
    case Reset => true
  }

  /** The parts of the state on which being tidy depends are the same. */
  predicate SameClosing(s: State, r: State) {
    r.status == s.status && r.log == s.log && r.eof == s.eof && (s.sent == [] ==> r.sent == [])
  }

  lemma SameTidy(s: State, r: State)
    requires Tidy(s) && SameClosing(s, r)
    ensures Tidy(r)
  {
  }

  // ---------------------------------------------------------------- sending

  lemma {:induction false} FillTidy(s: State, numMsgs: int, isNoAck: bool)
    requires NoClose(s.log)
    ensures NoClose(Fill(s, numMsgs, isNoAck).log)
    ensures Fill(s, numMsgs, isNoAck).status == if s.status.New? then Open else s.status
    decreases if s.status.New? then 1 else 0, if numMsgs > 0 then numMsgs else 0
  {
    if CanSend(s, numMsgs) {
      var s1 := AfterPacket(s, NextPacket(s, isNoAck));
      FillTidy(s1, numMsgs - 1, isNoAck);
      assert Fill(s, numMsgs, isNoAck) == Fill(s1, numMsgs - 1, isNoAck);
    }
  }

  /** A close packet at the end of a log without payload behind close packets. */
  lemma CloseAppended(log: seq<Packet>, p: Packet)
    requires CloseLast(log) && p.close && p.payload == []
    ensures CloseLast(log + [p]) && !NoClose(log + [p])
  {
    assert (log + [p])[|log|] == p;
  }

  lemma DispatchTidy(s: State, s1: State, ts: int)
    requires SendsNumbered(s, s1) && NoClose(s1.log) && (s1.status.Open? || s1.status.Closing?)
    ensures Tidy(Dispatch(s, s1, ts))
  {
    if Built(s, s1) != [] {
      var s2 := Launch(s1, Built(s, s1), ts);
      CloseAppended(s2.log, ClosePacket(s2));
    }
  }

  lemma SendBufferTidy(s: State, ts: int)
    requires Tidy(s)
    ensures Tidy(SendBuffer(s, ts))
  {
    var numMsgs := s.rate.window - |s.sent|;
    if numMsgs > 0 && !s.status.Reset? {
      if CanSend(s, numMsgs) {
        FillTidy(s, numMsgs, s.last < 0);
        DispatchTidy(s, Fill(s, numMsgs, s.last < 0), ts);
      } else {
        assert Fill(s, numMsgs, s.last < 0) == s;
        assert SendBuffer(s, ts) == s;
      }
    } else if s.status.Reset? {
      SendBufferReset(s, ts);
    }
  }

  lemma {:induction false} FillStatus(s: State, numMsgs: int, isNoAck: bool)
    requires !s.status.New?
    ensures Fill(s, numMsgs, isNoAck).status == s.status
    decreases if numMsgs > 0 then numMsgs else 0
  {
    if CanSend(s, numMsgs) {
      FillStatus(AfterPacket(s, NextPacket(s, isNoAck)), numMsgs - 1, isNoAck);
    }
  }

  lemma SendBufferReset(s: State, ts: int)
    requires s.status.Reset?
    ensures SendBuffer(s, ts).status.Reset?
  {
    FillStatus(s, s.rate.window - |s.sent|, s.last < 0);
  }

  lemma CloseTidy(s: State)
    requires Tidy(s)
    ensures Tidy(Close(s))
  {
    if s.status.Open? || s.status.Closing? {
      CloseAppended(s.log, ClosePacket(s));
    }
  }

  lemma TakeAckTidy(s: State, p: Packet, ts: int)
    requires Tidy(s)
    ensures Tidy(TakeAck(s, p, ts))
  {
    var s1 := if s.sendID == 0 then s.(sendID := p.recvID) else s;
    SameTidy(s, s1);
    if !p.noAck {
      var s2 := DropAcked(s1, p, ts);
      SameTidy(s1, s2);
      SameTidy(s2, s2.(numResends := 0));
      SendBufferTidy(s2.(numResends := 0), ts);
      var s3 := if Acked(s1.sent, p) != [] then SendBuffer(s2.(numResends := 0), ts) else s2;
      CloseTidy(s3);
      assert TakeAck(s, p, ts) == if s3.status.Closing? then Close(s3) else s3;
    } else {
      assert TakeAck(s, p, ts) == s1;
    }
  }

  // ---------------------------------------------------------------- receiving

  lemma ProcessPacketTidy(s: State, p: Packet)
    requires Tidy(s) && !p.badSignature
    ensures Tidy(ProcessPacket(s, p))
  {
    var s2 := s.(queue := if p.payload != [] then s.queue + [p.payload] else s.queue, last := AsInt32(p.seqn));
    SameTidy(s, s2);
    if p.close {
      assert ProcessPacket(s, p) == Close(s2.(status := Reset));
    } else {
      assert ProcessPacket(s, p) == s2;
    }
  }

  lemma {:induction false} DrainTidy(s: State)
    requires Tidy(s) && forall i :: 0 <= i < |s.saved| ==> !s.saved[i].badSignature
    ensures Tidy(Drain(s))
    decreases |s.saved|
  {
    if s.saved != [] && s.saved[0].seqn == AsUint32(s.last + 1) {
      var s0 := s.(saved := s.saved[1..]);
      var s1 := ProcessPacket(s0, s.saved[0]);
      SameTidy(s, s0);
      ProcessPacketTidy(s0, s.saved[0]);
      assert s1.saved == s.saved[1..];
      DrainTidy(s1);
      assert Drain(s) == Drain(s1);
    }
  }

  lemma RespondTidy(s: State, isSyn: bool, ts: int)
    requires Tidy(s)
    ensures Tidy(Respond(s, isSyn, ts))
  {
    if s.status.Open? {
      SameTidy(s, s.(ackScheduled := true));
    } else {
      SendBufferTidy(s, ts);
    }
  }

  lemma QuickAckTidy(s: State)
    requires Tidy(s)
    ensures Tidy(SendQuickAck(s))
  {
    SameTidy(s, SendQuickAck(s));
  }

  lemma TakeNumberedTidy(s: State, p: Packet, ts: int)
    requires Tidy(s) && ((AsInt32(p.seqn) == 0 && !p.syn) || !p.badSignature)
    requires forall i :: 0 <= i < |s.saved| ==> !s.saved[i].badSignature
    ensures Tidy(TakeNumbered(s, p, ts))
  {
    QuickAckTidy(s);
    if AsInt32(p.seqn) == 0 && !p.syn {
      assert TakeNumbered(s, p, ts) == s;
    } else if p.syn || AsInt32(p.seqn) == s.last + 1 {
      ProcessPacketTidy(s, p);
      assert ProcessPacket(s, p).saved == s.saved;
      DrainTidy(ProcessPacket(s, p));
      RespondTidy(Drain(ProcessPacket(s, p)), p.syn, ts);
    } else {
      var s1 := s.(saved := InsertSaved(s.saved, p));
      SameTidy(s, s1.(ackScheduled := true));
      SameTidy(s, s1.(ackScheduled := false));
      QuickAckTidy(s1.(ackScheduled := false));
    }
  }

  lemma HandleNextPacketTidy(s: State, p: Packet, ts: int)
    requires Tidy(s) && ((AsInt32(p.seqn) == 0 && !p.syn) || !p.badSignature)
    requires forall i :: 0 <= i < |s.saved| ==> !s.saved[i].badSignature
    ensures Tidy(HandleNextPacket(s, p, ts))
  {
    TakeAckTidy(s, p, ts);
    assert SameReceiver(s, TakeAck(s, p, ts)) by {
      TakeAckReceiver(s, p, ts);
    }
    TakeNumberedTidy(TakeAck(s, p, ts), p, ts);
  }

  lemma TakeAckReceiver(s: State, p: Packet, ts: int)
    ensures SameReceiver(s, TakeAck(s, p, ts))
  {
  }

  // ---------------------------------------------------------------- every action

  /** The application does not write to a stream that has built its close packet. */
  ghost predicate WritesInTime(x: State, act: Action) {
    act.DoWrite? && act.data != [] ==> NoClose(x.log)
  }

  lemma ResendTidy(x: State, ts: int)
    requires Tidy(x)
    ensures Tidy(HandleResendTimer(x, ts))
  {
    ResendPackets(x, ts);
    if x.numResends < MAX_NUM_RESEND_ATTEMPTS {
      SameTidy(x, HandleResendTimer(x, ts));
    }
  }

  lemma AckTimerTidy(x: State)
    requires Tidy(x)
    ensures Tidy(HandleAckSendTimer(x))
  {
    if x.ackScheduled && x.last >= 0 {
      SameTidy(x, HandleAckSendTimer(x));
    }
  }

  lemma PostedTidy(x: State)
    requires Tidy(x) && SenderOk(x) && x.posted != []
    ensures Tidy(RunPosted(x))
  {
    SameTidy(x, RunPosted(x));
  }

  lemma TimerTidy(x: State, net: seq<Packet>, act: Action)
    requires Tidy(x) && SenderOk(x) && (act.ResendTimer? || act.AckTimer? || act.Posted?)
    ensures Tidy(StreamStep(x, net, act))
  {
    match act
    case ResendTimer(ts) => ResendTidy(x, ts);
    case AckTimer => AckTimerTidy(x);
    case Posted =>
      if x.posted != [] {
        PostedTidy(x);
      }
  }

  lemma ApplicationTidy(x: State, net: seq<Packet>, act: Action)
    requires Tidy(x) && SenderOk(x) && WritesInTime(x, act)
    requires act.DoWrite? || act.DoRead? || act.DoClose? || act.Pump?
    ensures Tidy(StreamStep(x, net, act))
  {
    match act
    case DoWrite(data) =>
    case DoRead(size) => SameTidy(x, ReadSome(x, size));
    case DoClose => CloseTidy(x);
    case Pump(ts) => SendBufferTidy(x, ts);
  }

  lemma StreamStepTidy(x: State, net: seq<Packet>, act: Action, log: seq<Packet>, from: seq<Packet>)
    requires Tidy(x) && SenderOk(x) && ReceiverOk(x, log) && LogOk(log) && LogOk(from) && WritesInTime(x, act)
    requires forall i :: 0 <= i < |net| ==> Genuine(net[i], from)
    ensures Tidy(StreamStep(x, net, act))
  {
    if act.Deliver? {
      if act.index < |net| && Routed(x, net[act.index]) {
        HandleNextPacketTidy(x, net[act.index], act.ts);
      }
    } else if act.ResendTimer? || act.AckTimer? || act.Posted? {
      TimerTidy(x, net, act);
    } else {
      ApplicationTidy(x, net, act);
    }
  }

  // ---------------------------------------------------------------- whole runs

  ghost predicate AllTidy(sys: System) {
    Tidy(sys.a) && forall k :: 0 <= k < |sys.streams| ==> Tidy(sys.streams[k])
  }

  /** No application writes to a stream that has built its close packet. */
  ghost predicate AllInTime(sys: System, e: Event) {
    match e
    case AtOpener(act) => WritesInTime(sys.a, act)
    case AtStream(k, act) => k < |sys.streams| ==> WritesInTime(sys.streams[k], act)
    case _ => true
  }

  ghost predicate TidyRun(sys: System, es: seq<Event>) {
    es == [] ||
    (&& TidyRun(sys, es[..|es| - 1])
     && Careful(Run(sys, es[..|es| - 1]), es[|es| - 1]) && AllInTime(Run(sys, es[..|es| - 1]), es[|es| - 1]))
  }

  lemma OpenerTidy(sys: System, net: seq<Packet>, act: Action, from: seq<Packet>)
    requires Inv(sys) && Tidy(sys.a) && LogOk(from) && WritesInTime(sys.a, act)
    requires forall i :: 0 <= i < |net| ==> Genuine(net[i], from)
    ensures Tidy(StreamStep(sys.a, net, act))
  {
    PeerOk(sys);
    StreamStepTidy(sys.a, net, act, PeerOf(sys).log, from);
  }

  lemma FreshTidy(a: State, i: nat, id: nat, room: nat, ts: int)
    requires SenderOk(a) && i < |a.outbox|
    ensures Tidy(HandleNextPacket(Fresh(id, room), a.outbox[i], ts))
  {
    assert Genuine(a.outbox[i], a.log);
    HandleNextPacketTidy(Fresh(id, room), a.outbox[i], ts);
  }

  lemma AcceptorTidy(sys: System, k: nat, act: Action)
    requires Inv(sys) && AllTidy(sys) && k < |sys.streams| && WritesInTime(sys.streams[k], act)
    ensures Tidy(StreamStep(sys.streams[k], sys.a.outbox, act))
  {
    assert StreamOk(sys.streams[k], sys.a.log);
    StreamStepTidy(sys.streams[k], sys.a.outbox, act, sys.a.log, sys.a.log);
  }

  lemma ArriveTidy(sys: System, from: nat, i: nat, ts: int)
    requires Inv(sys) && Tidy(sys.a) && from < |sys.streams|
    ensures Tidy(StreamStep(sys.a, sys.streams[from].outbox, Deliver(i, ts)))
  {
    assert StreamOk(sys.streams[from], sys.a.log);
    OpenerTidy(sys, sys.streams[from].outbox, Deliver(i, ts), sys.streams[from].log);
  }

  lemma StreamTidy(sys: System, k: nat, act: Action)
    requires Inv(sys) && AllTidy(sys) && k < |sys.streams| && WritesInTime(sys.streams[k], act)
    ensures AllTidy(AfterStream(sys, k, act))
  {
    AcceptorTidy(sys, k, act);
  }

  lemma AcceptTidy(sys: System, i: nat, id: nat, room: nat, ts: int)
    requires Inv(sys) && AllTidy(sys) && i < |sys.a.outbox|
    ensures AllTidy(AfterAccept(sys, i, id, room, ts))
  {
    FreshTidy(sys.a, i, id, room, ts);
  }

  lemma StepTidy(sys: System, e: Event, r: System)
    requires Inv(sys) && AllTidy(sys) && AllInTime(sys, e) && r == Step(sys, e)
    ensures AllTidy(r)
  {
    match e
    case AtOpener(act) =>
      assert r == AfterOpener(sys, act);
      OpenerTidy(sys, [], act, []);
    case AtStream(k, act) =>
      if k < |sys.streams| {
        assert r == AfterStream(sys, k, act);
        StreamTidy(sys, k, act);
      } else {
        assert r == sys;
      }
    case Accept(i, id, room, ts) =>
      if i < |sys.a.outbox| && OpensStream(sys.a.outbox[i]) {
        assert r == AfterAccept(sys, i, id, room, ts);
        AcceptTidy(sys, i, id, room, ts);
      } else {
        assert r == sys;
      }
    case Arrive(from, i, ts) =>
      if from < |sys.streams| {
        assert r == AfterArrive(sys, from, i, ts);
        ArriveTidy(sys, from, i, ts);
      } else {
        assert r == sys;
      }
  }

  lemma {:induction false} TidyRunOk(id: nat, room: nat, es: seq<Event>)
    requires TidyRun(Init(id, room), es)
    ensures Reliable(Run(Init(id, room), es)) && AllTidy(Run(Init(id, room), es))
  {
    if es == [] {
      InitReliable(id, room);
    } else {
      var sys, e := Run(Init(id, room), es[..|es| - 1]), es[|es| - 1];
      TidyRunOk(id, room, es[..|es| - 1]);
      StepReliable(sys, e);
      StepTidy(sys, e, Step(sys, e));
    }
  }

  lemma SideTidy(sys: System, side: Side)
    requires AllTidy(sys)
    ensures Tidy(This(sys, side))
  {
  }

  lemma TidyIsDrained(x: State)
    requires Tidy(x) && SenderOk(x) && x.status.Closed?
    ensures x.sent == [] && x.buffer == [] && CloseLast(x.log)
  {
  }

  /** A closed stream has nothing buffered or outstanding, and closed behind the last byte. */
  lemma ClosedIsDrained(sys: System, side: Side)
    requires Reliable(sys) && AllTidy(sys) && This(sys, side).status.Closed?
    ensures Peer(sys, side).readOut + Flatten(Peer(sys, side).queue) == This(sys, side).written
  {
    SideReliable(sys, side);
    SideTidy(sys, side);
    TidyIsDrained(This(sys, side));
    AllAckedAllDelivered(sys, side);
  }

  /**
   Over every careful run, whatever was still buffered when a stream was closed: whenever the status of the opener or of
   its peer is Closed, the other one has, or can read, exactly the bytes it wrote.
   */
  lemma ClosedMeansDelivered(id: nat, room: nat, es: seq<Event>, side: Side)
    requires TidyRun(Init(id, room), es) && This(Run(Init(id, room), es), side).status.Closed?
    ensures var sys := Run(Init(id, room), es);
            Peer(sys, side).readOut + Flatten(Peer(sys, side).queue) == This(sys, side).written
  {
    TidyRunOk(id, room, es);
    ClosedIsDrained(Run(Init(id, room), es), side);
  }

  // ---------------------------------------------------------------- before the close

  /** A stream that has not been closed has built no close packet. */
  ghost predicate Unclosed(s: State) {
    s.status.New? || s.status.Open? ==> Tidy(s)
  }

  ghost predicate AllUnclosed(sys: System) {
    Unclosed(sys.a) && forall k :: 0 <= k < |sys.streams| ==> Unclosed(sys.streams[k])
  }

  /** A stream that is open was never closed before, so it was written to in time. */
  lemma StreamUnclosed(x: State, net: seq<Packet>, act: Action, log: seq<Packet>, from: seq<Packet>)
    requires Unclosed(x) && SenderOk(x) && ReceiverOk(x, log) && LogOk(log) && LogOk(from)
    requires forall i :: 0 <= i < |net| ==> Genuine(net[i], from)
    requires Progress(x, StreamStep(x, net, act))
    ensures Unclosed(StreamStep(x, net, act))
  {
    if StreamStep(x, net, act).status.New? || StreamStep(x, net, act).status.Open? {
      StreamStepTidy(x, net, act, log, from);
    }
  }

  lemma OpenerUnclosed(sys: System, net: seq<Packet>, act: Action, from: seq<Packet>)
    requires Inv(sys) && Unclosed(sys.a) && LogOk(from) && Progress(sys.a, StreamStep(sys.a, net, act))
    requires forall i :: 0 <= i < |net| ==> Genuine(net[i], from)
    ensures Unclosed(StreamStep(sys.a, net, act))
  {
    PeerOk(sys);
    StreamUnclosed(sys.a, net, act, PeerOf(sys).log, from);
  }

  lemma AcceptorUnclosed(sys: System, k: nat, act: Action)
    requires Inv(sys) && AllUnclosed(sys) && k < |sys.streams| && Progress(sys.streams[k], StreamStep(sys.streams[k], sys.a.outbox, act))
    ensures AllUnclosed(AfterStream(sys, k, act))
  {
    assert StreamOk(sys.streams[k], sys.a.log);
    StreamUnclosed(sys.streams[k], sys.a.outbox, act, sys.a.log, sys.a.log);
  }

  lemma AcceptUnclosed(sys: System, i: nat, id: nat, room: nat, ts: int)
    requires Inv(sys) && AllUnclosed(sys) && i < |sys.a.outbox|
    ensures AllUnclosed(AfterAccept(sys, i, id, room, ts))
  {
    FreshTidy(sys.a, i, id, room, ts);
  }

  lemma ArriveUnclosed(sys: System, from: nat, i: nat, ts: int)
    requires Inv(sys) && AllUnclosed(sys) && from < |sys.streams|
    requires Progress(sys.a, StreamStep(sys.a, sys.streams[from].outbox, Deliver(i, ts)))
    ensures AllUnclosed(AfterArrive(sys, from, i, ts))
  {
    assert StreamOk(sys.streams[from], sys.a.log);
    OpenerUnclosed(sys, sys.streams[from].outbox, Deliver(i, ts), sys.streams[from].log);
  }

  /** Every stream has moved onward. */
  ghost predicate Moved(sys: System, r: System) {
    Progress(sys.a, r.a) && AllProgress(sys.streams, r.streams)
  }

  lemma StreamMoved(sys: System, k: nat, act: Action)
    requires k < |sys.streams| && Moved(sys, AfterStream(sys, k, act))
    ensures Progress(sys.streams[k], StreamStep(sys.streams[k], sys.a.outbox, act))
  {
    assert AfterStream(sys, k, act).streams[k] == StreamStep(sys.streams[k], sys.a.outbox, act);
  }

  lemma AfterOpenerUnclosed(sys: System, act: Action)
    requires Inv(sys) && AllUnclosed(sys) && Moved(sys, AfterOpener(sys, act))
    ensures AllUnclosed(AfterOpener(sys, act))
  {
    OpenerUnclosed(sys, [], act, []);
  }

  lemma AfterStreamUnclosed(sys: System, k: nat, act: Action)
    requires Inv(sys) && AllUnclosed(sys) && k < |sys.streams| && Moved(sys, AfterStream(sys, k, act))
    ensures AllUnclosed(AfterStream(sys, k, act))
  {
    StreamMoved(sys, k, act);
    AcceptorUnclosed(sys, k, act);
  }

  lemma AfterArriveUnclosed(sys: System, from: nat, i: nat, ts: int)
    requires Inv(sys) && AllUnclosed(sys) && from < |sys.streams| && Moved(sys, AfterArrive(sys, from, i, ts))
    ensures AllUnclosed(AfterArrive(sys, from, i, ts))
  {
    ArriveUnclosed(sys, from, i, ts);
  }

  lemma StepUnclosed(sys: System, e: Event, r: System)
    requires Inv(sys) && AllUnclosed(sys) && Moved(sys, r) && r == Step(sys, e)
    ensures AllUnclosed(r)
  {
    match e
    case AtOpener(act) =>
      assert r == AfterOpener(sys, act);
      AfterOpenerUnclosed(sys, act);
    case AtStream(k, act) =>
      if k < |sys.streams| {
        assert r == AfterStream(sys, k, act);
        AfterStreamUnclosed(sys, k, act);
      } else {
        assert r == sys;
      }
    case Accept(i, id, room, ts) =>
      if i < |sys.a.outbox| && OpensStream(sys.a.outbox[i]) {
        assert r == AfterAccept(sys, i, id, room, ts);
        AcceptUnclosed(sys, i, id, room, ts);
      } else {
        assert r == sys;
      }
    case Arrive(from, i, ts) =>
      if from < |sys.streams| {
        assert r == AfterArrive(sys, from, i, ts);
        AfterArriveUnclosed(sys, from, i, ts);
      } else {
        assert r == sys;
      }
  }

  /** Over every allowed run a stream that is still open has built no close packet. */
  lemma {:induction false} OpenHasNoClose(id: nat, room: nat, es: seq<Event>)
    requires AllowedRun(Init(id, room), es)
    ensures Inv(Run(Init(id, room), es)) && AllUnclosed(Run(Init(id, room), es))
  {
    if es == [] {
      InitInv(id, room);
    } else {
      var sys, e := Run(Init(id, room), es[..|es| - 1]), es[|es| - 1];
      OpenHasNoClose(id, room, es[..|es| - 1]);
      StepInv(sys, e);
      StepUnclosed(sys, e, Step(sys, e));
    }
  }
}
