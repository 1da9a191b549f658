/**
 Reliability: a packet leaves the outstanding set only once the peer holds it, so that when everything is
 acknowledged everything has been delivered.
 */
module StreamingReliability {
  import opened Bytes
  import opened StreamingSpec
  import opened StreamingInvariants
  import opened StreamingForeign
  import opened StreamingProtocol
  import opened StreamingAcks

  // ---------------------------------------------------------------- nothing outstanding is forgotten

  /** Outstanding packets stay outstanding and every new packet is outstanding or a close packet. */
  ghost predicate Keeps(s: State, r: State) {
    && s.log <= r.log
    && (forall n: nat :: Outstanding(s.sent, n) ==> Outstanding(r.sent, n))
    && (forall n: nat :: |s.log| <= n < |r.log| ==> r.log[n].close || Outstanding(r.sent, n))
  }

  lemma KeepsOn(s: State, t: State, r: State)
    requires Keeps(s, t) && Keeps(t, r)
    ensures Keeps(s, r)
  {
    PrefixTransitive(s.log, t.log, r.log);
    forall n: nat | |s.log| <= n < |r.log| ensures r.log[n].close || Outstanding(r.sent, n) {
      if n < |t.log| {
        assert r.log[n] == t.log[n];
      }
    }
  }

  lemma CloseKeeps(s: State)
    ensures Keeps(s, Close(s))
  {
  }

  lemma LaunchKeeps(s: State, s1: State, ts: int)
    requires SentOk(s.sent, s.log) && LogOk(s1.log) && s1.sent == s.sent && s.log <= s1.log
    ensures Keeps(s, Launch(s1, s1.log[|s.log|..], ts))
  {
    var ps := s1.log[|s.log|..];
    assert ps == s1.log[|s.log|..|s.log| + |ps|];
    assert SentOk(s1.sent, s1.log);
    InsertAllLast(s1.sent, ps, ts, s1.log, |s.log|);
    var s2 := Launch(s1, ps, ts);
    forall n: nat | Outstanding(s.sent, n) ensures Outstanding(s2.sent, n) {
      var i :| 0 <= i < |s.sent| && s.sent[i].packet.seqn == n;
      assert s2.sent[i] == s.sent[i];
    }
    forall n: nat | |s.log| <= n < |s2.log| ensures Outstanding(s2.sent, n) {
      assert s2.sent[|s.sent| + n - |s.log|] == SentPacket(s1.log[n], ts);
    }
  }

  lemma DispatchKeeps(s: State, s1: State, ts: int)
    requires SenderOk(s) && Numbered(s1) && OnlyBuilt(s, s1) && s.log <= s1.log && SendsNumbered(s, s1)
    ensures Keeps(s, Dispatch(s, s1, ts))
  {
    if Built(s, s1) == [] {
      assert s1.log == s.log;
    } else {
      LaunchKeeps(s, s1, ts);
      var s2 := Launch(s1, Built(s, s1), ts);
      assert Keeps(s2, SendClose(s2));
      KeepsOn(s, s2, SendClose(s2));
    }
  }

  lemma SendBufferKeeps(s: State, ts: int)
    requires SenderOk(s) && s.seqNum + MAX_WINDOW_SIZE + 1 < UINT32_RANGE
    ensures Keeps(s, SendBuffer(s, ts))
  {
    var numMsgs := s.rate.window - |s.sent|;
    if numMsgs > 0 {
      FillOk(s, numMsgs, s.last < 0);
      var s1 := Fill(s, numMsgs, s.last < 0);
      DispatchKeeps(s, s1, ts);
      assert SendBuffer(s, ts) == Dispatch(s, s1, ts);
    } else {
      assert SendBuffer(s, ts) == s;
    }
  }

  lemma ProcessPacketKeeps(s: State, p: Packet)
    requires !p.badSignature
    ensures Keeps(s, ProcessPacket(s, p))
  {
    var s2 := s.(queue := if p.payload != [] then s.queue + [p.payload] else s.queue, last := AsInt32(p.seqn));
    if p.close {
      CloseKeeps(s2.(status := Reset));
      assert ProcessPacket(s, p) == Close(s2.(status := Reset));
    } else {
      assert ProcessPacket(s, p) == s2;
    }
  }

  lemma {:induction false} DrainKeeps(s: State)
    requires forall i :: 0 <= i < |s.saved| ==> !s.saved[i].badSignature
    ensures Keeps(s, Drain(s))
    decreases |s.saved|
  {
    if s.saved != [] && s.saved[0].seqn == AsUint32(s.last + 1) {
      var s1 := ProcessPacket(s.(saved := s.saved[1..]), s.saved[0]);
      ProcessPacketKeeps(s.(saved := s.saved[1..]), s.saved[0]);
      assert s1.saved == s.saved[1..];
      assert Keeps(s, s1);
      DrainKeeps(s1);
      assert Drain(s) == Drain(s1);
      KeepsOn(s, s1, Drain(s1));
    }
  }

  lemma InSequenceKeeps(s: State, p: Packet, ts: int, log: seq<Packet>)
    requires SenderOk(s) && ReceiverOk(s, log) && LogOk(log) && Logged(p, log)
    requires p.seqn == s.last + 1 || (p.syn && SynAllowed(s, p))
    requires |log| < MAX_PACKETS && |s.log| <= MAX_PACKETS + MAX_WINDOW_SIZE + 2
    ensures Keeps(s, TakeInSequence(s, p, ts))
  {
    var s1 := ProcessPacket(s, p);
    ProcessPacketKeeps(s, p);
    assert s1.saved == s.saved;
    DrainKeeps(s1);
    var s2 := Drain(s1);
    KeepsOn(s, s1, s2);
    InSequenceOk(s, p, log);
    var s3 := Respond(s2, p.syn, ts);
    assert Keeps(s2, s3) by {
      if !s2.status.Open? && p.syn {
        SendBufferKeeps(s2, ts);
      }
    }
    KeepsOn(s, s2, s3);
  }

  lemma TakeNumberedKeeps(s: State, p: Packet, ts: int, log: seq<Packet>)
    requires SenderOk(s) && ReceiverOk(s, log) && LogOk(log) && Genuine(p, log) && SynAllowed(s, p)
    requires |log| < MAX_PACKETS && |s.log| <= MAX_PACKETS + MAX_WINDOW_SIZE + 2
    ensures Keeps(s, TakeNumbered(s, p, ts))
  {
    assert AsInt32(p.seqn) == p.seqn;
    if (p.seqn != 0 || p.syn) && (p.syn || p.seqn == s.last + 1) {
      InSequenceKeeps(s, p, ts, log);
      assert TakeNumbered(s, p, ts) == TakeInSequence(s, p, ts);
    } else {
      var r := TakeNumbered(s, p, ts);
      assert r.log == s.log && r.sent == s.sent;
    }
  }

  lemma ResendKeeps(s: State, ts: int)
    ensures Keeps(s, HandleResendTimer(s, ts))
  {
    if s.numResends >= MAX_NUM_RESEND_ATTEMPTS {
      CloseKeeps(s.(status := Reset));
    } else {
      TouchedOk(s.sent, ts, s.rate.rto);
      var r := HandleResendTimer(s, ts);
      forall n: nat | Outstanding(s.sent, n) ensures Outstanding(r.sent, n) {
        var i :| 0 <= i < |s.sent| && s.sent[i].packet.seqn == n;
        assert r.sent[i].packet == s.sent[i].packet;
      }
    }
  }

  lemma QuietKeeps(s: State, r: State)
    requires r.log == s.log && r.sent == s.sent
    ensures Keeps(s, r)
  {
  }

  /** Only a delivery can take a packet out of the outstanding set. */
  lemma OtherStepKeeps(x: State, net: seq<Packet>, act: Action)
    requires SenderOk(x) && |x.log| < MAX_PACKETS && !act.Deliver?
    ensures Keeps(x, StreamStep(x, net, act))
  {
    match act
    case ResendTimer(ts) => ResendKeeps(x, ts);
    case AckTimer =>
      if x.ackScheduled && x.last < 0 {
        CloseKeeps(x.(status := Reset));
      } else {
        QuietKeeps(x, HandleAckSendTimer(x));
      }
    case Posted => QuietKeeps(x, StreamStep(x, net, act));
    case Pump(ts) => SendBufferKeeps(x, ts);
    case DoClose => CloseKeeps(x);
    case DoRead(size) => QuietKeeps(x, ReadSome(x, size));
    case DoWrite(data) => QuietKeeps(x, Write(x, data));
  }

  // ---------------------------------------------------------------- the invariant

  /** Every packet built is a close packet, still outstanding, or held by the peer. */
  ghost predicate NoLoss(s: State, peer: State) {
    forall n :: 0 <= n < |s.log| ==> s.log[n].close || Outstanding(s.sent, n) || Holds(peer, n)
  }

  ghost predicate TrueAcks(s: State) {
    forall p :: p in s.outbox || p in s.log ==> TrueAck(p, s)
  }

  /** A packet that acknowledges everything because it was written before the peer's SYN arrived. */
  predicate LatePacket(p: Packet) {
    !p.noAck && p.ackThrough == LATE_SYN
  }

  /** The conditions under which the code acknowledges truthfully: numbered packets other than the first SYN are
      built only once the peer's SYN has arrived, and at most 255 numbers are missing. */
  ghost predicate Prompt(s: State) {
    && (forall p :: p in s.log ==> !LatePacket(p))
    && (s.last >= 0 ==> NumMissing(s) <= 255)
  }

  /** `p` takes out nothing that its sender's peer does not hold. */
  ghost predicate Justified(s: State, p: Packet, peer: State) {
    p.noAck || forall n :: 0 <= n < |s.log| && Outstanding(s.sent, n) && Claims(p, n) ==> s.log[n].close || Holds(peer, n)
  }

  /** A stream opened by the opener `a` acknowledges truthfully and has lost nothing. */
  ghost predicate StreamReliable(x: State, a: State) {
    TrueAcks(x) && NoLoss(x, a)
  }

  ghost predicate AllReliable(xs: seq<State>, a: State) {
    forall k :: 0 <= k < |xs| ==> StreamReliable(xs[k], a)
  }

  ghost predicate Reliable(sys: System) {
    Inv(sys) && TrueAcks(sys.a) && NoLoss(sys.a, PeerOf(sys)) && AllReliable(sys.streams, sys.a)
  }

  ghost predicate AllPrompt(sys: System) {
    Prompt(sys.a) && forall k :: 0 <= k < |sys.streams| ==> Prompt(sys.streams[k])
  }

  /** What arrives from a stream that is not the peer acknowledges nothing that the peer does not hold. */
  ghost predicate FairArrival(sys: System, e: Event) {
    e.Arrive? && e.from < |sys.streams| && e.index < |sys.streams[e.from].outbox| && e.from != sys.peer && !Unheard(sys.a) ==>
      Justified(sys.a, sys.streams[e.from].outbox[e.index], PeerOf(sys))
  }

  /** Taken in `sys`, the event `e` leads to `r`. */
  ghost predicate CarefulTo(sys: System, e: Event, r: System) {
    Allowed(sys, e) && FairArrival(sys, e) && AllPrompt(r)
  }

  ghost predicate Careful(sys: System, e: Event) {
    CarefulTo(sys, e, Step(sys, e))
  }

  ghost predicate CarefulRun(sys: System, es: seq<Event>) {
    es == [] || (CarefulRun(sys, es[..|es| - 1]) && Careful(Run(sys, es[..|es| - 1]), es[|es| - 1]))
  }

  lemma StepTrueAcks(x: State, r: State, log: seq<Packet>)
    requires TrueAcks(x) && SenderOk(r) && ReceiverOk(r, log) && |log| < MAX_PACKETS
    requires HoldsMore(x, r) && OutboxFrom(x, r) && Prompt(r)
    ensures TrueAcks(r)
  {
    forall p | p in r.outbox || p in r.log ensures TrueAck(p, r) {
      if p in r.log {
        var i :| 0 <= i < |r.log| && r.log[i] == p;
        assert Sound(r.log[i], r.last);
      } else if p in x.outbox {
        assert TrueAck(p, x);
      } else {
        QuickAckExact(r, log);
      }
    }
  }

  lemma NoLossKept(s: State, r: State, peer: State)
    requires NoLoss(s, peer) && Keeps(s, r)
    ensures NoLoss(r, peer)
  {
    forall n | 0 <= n < |r.log| ensures r.log[n].close || Outstanding(r.sent, n) || Holds(peer, n) {
      if n < |s.log| {
        assert r.log[n] == s.log[n];
      }
    }
  }

  lemma TrueIsJustified(s: State, p: Packet, peer: State)
    requires TrueAck(p, peer)
    ensures Justified(s, p, peer)
  {
  }

  /** A justified ack takes out only what the peer holds. */
  lemma AckNoLoss(s: State, p: Packet, ts: int, peer: State)
    requires SenderOk(s) && |s.log| < MAX_PACKETS && NoLoss(s, peer) && Justified(s, p, peer)
    ensures NoLoss(TakeAck(s, p, ts), peer)
  {
    var s0 := if s.sendID == 0 then s.(sendID := p.recvID) else s;
    if !p.noAck {
      var s1 := s0.(sent := Unacked(s.sent, p), rate := AckAll(s.rate, Acked(s.sent, p), ts));
      forall n | 0 <= n < |s.log| ensures s.log[n].close || Outstanding(s1.sent, n) || Holds(peer, n) {
        UnackedNumbers(s.sent, p, s.log, n);
      }
      UnackedOk(s.sent, p, s.log);
      AckAllWindow(s.rate, Acked(s.sent, p), ts);
      var s1' := s1.(numResends := 0);
      SendBufferOk(s1', ts);
      SendBufferKeeps(s1', ts);
      var s2 := if Acked(s.sent, p) != [] then SendBuffer(s1', ts) else s1;
      NoLossKept(s1, s2, peer);
      CloseKeeps(s2);
      NoLossKept(s2, Close(s2), peer);
      assert TakeAck(s, p, ts) == if s2.status.Closing? then Close(s2) else s2;
    }
  }

  lemma StreamStepNoLoss(x: State, net: seq<Packet>, act: Action, log: seq<Packet>, peer: State)
    requires SenderOk(x) && ReceiverOk(x, log) && LogOk(log) && |x.log| < MAX_PACKETS && |log| < MAX_PACKETS
    requires forall i :: 0 <= i < |net| ==> Genuine(net[i], log)
    requires act.Deliver? && act.index < |net| && Routed(x, net[act.index]) ==> SynAllowed(x, net[act.index])
    requires NoLoss(x, peer) && forall p :: p in net ==> TrueAck(p, peer)
    ensures NoLoss(StreamStep(x, net, act), peer)
  {
    if act.Deliver? {
      if act.index < |net| && Routed(x, net[act.index]) {
        DeliverNoLoss(x, net[act.index], act.ts, log, peer);
        assert StreamStep(x, net, act) == HandleNextPacket(x, net[act.index], act.ts);
      } else {
        assert StreamStep(x, net, act) == x;
      }
    } else {
      OtherStepKeeps(x, net, act);
      NoLossKept(x, StreamStep(x, net, act), peer);
    }
  }

  lemma DeliverNoLoss(x: State, p: Packet, ts: int, log: seq<Packet>, peer: State)
    requires SenderOk(x) && ReceiverOk(x, log) && LogOk(log) && |x.log| < MAX_PACKETS && |log| < MAX_PACKETS
    requires Genuine(p, log) && SynAllowed(x, p) && NoLoss(x, peer) && TrueAck(p, peer)
    ensures NoLoss(HandleNextPacket(x, p, ts), peer)
  {
    TakeAckOk(x, p, ts, log);
    TrueIsJustified(x, p, peer);
    AckNoLoss(x, p, ts, peer);
    var x1 := TakeAck(x, p, ts);
    TakeNumberedKeeps(x1, p, ts, log);
    NoLossKept(x1, TakeNumbered(x1, p, ts), peer);
  }

  /** All streams keep what they know of the opener while it moves on. */
  lemma OthersStay(xs: seq<State>, a: State, r: State)
    requires AllReliable(xs, a) && HoldsMore(a, r)
    ensures AllReliable(xs, r)
  {
    forall k | 0 <= k < |xs| ensures StreamReliable(xs[k], r) {
      assert StreamReliable(xs[k], a);
    }
  }

  /** The opener moves to `x` against the peer it then has. */
  lemma OpenerKeepsReliable(sys: System, x: State, peer: nat)
    requires Reliable(sys) && Inv(sys.(a := x, peer := peer)) && |PeerOf(sys.(peer := peer)).log| < MAX_PACKETS
    requires HoldsMore(sys.a, x) && OutboxFrom(sys.a, x) && Prompt(x) && NoLoss(x, PeerOf(sys.(peer := peer)))
    ensures Reliable(sys.(a := x, peer := peer))
  {
    var r := sys.(a := x, peer := peer);
    assert PeerOf(r) == PeerOf(sys.(peer := peer));
    StepTrueAcks(sys.a, x, PeerOf(r).log);
    OthersStay(sys.streams, sys.a, x);
  }

  lemma OpenerActs(x: State, act: Action, log: seq<Packet>, peer: State)
    requires SenderOk(x) && ReceiverOk(x, log) && LogOk(log) && |x.log| < MAX_PACKETS && |log| < MAX_PACKETS && NoLoss(x, peer)
    ensures var r := StreamStep(x, [], act); HoldsMore(x, r) && OutboxFrom(x, r) && NoLoss(r, peer)
  {
    StreamStepHolds(x, [], act, log);
    StreamStepNoLoss(x, [], act, log, peer);
  }

  lemma OpenerReliable(sys: System, act: Action)
    requires Reliable(sys) && CarefulTo(sys, AtOpener(act), AfterOpener(sys, act))
    ensures Reliable(AfterOpener(sys, act))
  {
    OpenerStep(sys, act);
    PeerOk(sys);
    PeerInRange(sys);
    OpenerActs(sys.a, act, PeerOf(sys).log, PeerOf(sys));
    assert sys.(peer := sys.peer) == sys;
    assert AfterOpener(sys, act) == sys.(a := StreamStep(sys.a, [], act), peer := sys.peer);
    OpenerKeepsReliable(sys, StreamStep(sys.a, [], act), sys.peer);
  }

  /** Stream `k` moves to `x`. */
  lemma StreamKeepsReliable(sys: System, k: nat, x: State)
    requires Reliable(sys) && k < |sys.streams| && Inv(sys.(streams := sys.streams[k := x])) && |sys.a.log| < MAX_PACKETS
    requires HoldsMore(sys.streams[k], x) && OutboxFrom(sys.streams[k], x) && Prompt(x) && NoLoss(x, sys.a)
    ensures Reliable(sys.(streams := sys.streams[k := x]))
  {
    var r := sys.(streams := sys.streams[k := x]);
    assert StreamOk(r.streams[k], sys.a.log) && StreamReliable(sys.streams[k], sys.a);
    StepTrueAcks(sys.streams[k], x, sys.a.log);
    forall j | 0 <= j < |r.streams| ensures StreamReliable(r.streams[j], r.a) {
      assert j != k ==> StreamReliable(sys.streams[j], sys.a);
    }
    assert PeerOf(r) == if k == sys.peer then x else PeerOf(sys);
  }

  lemma StreamActs(sys: System, k: nat, act: Action)
    requires Reliable(sys) && Allowed(sys, AtStream(k, act)) && k < |sys.streams|
    ensures var x, r := sys.streams[k], StreamStep(sys.streams[k], sys.a.outbox, act);
            HoldsMore(x, r) && OutboxFrom(x, r) && NoLoss(r, sys.a)
  {
    assert StreamOk(sys.streams[k], sys.a.log) && StreamReliable(sys.streams[k], sys.a);
    if act.Deliver? && act.index < |sys.a.outbox| {
      NoSecondSyn(sys, k, act.index);
    }
    StreamStepHolds(sys.streams[k], sys.a.outbox, act, sys.a.log);
    StreamStepNoLoss(sys.streams[k], sys.a.outbox, act, sys.a.log, sys.a);
  }

  lemma AcceptorReliable(sys: System, k: nat, act: Action)
    requires Reliable(sys) && k < |sys.streams| && CarefulTo(sys, AtStream(k, act), AfterStream(sys, k, act))
    ensures Reliable(AfterStream(sys, k, act))
  {
    AcceptorStep(sys, k, act);
    assert Prompt(AfterStream(sys, k, act).streams[k]);
    StreamActs(sys, k, act);
    StreamKeepsReliable(sys, k, StreamStep(sys.streams[k], sys.a.outbox, act));
  }

  /** A stream that holds nothing, and any other, know no less of the opener once `x` has joined. */
  lemma JoinKeepsReliable(sys: System, x: State)
    requires Reliable(sys) && Inv(sys.(streams := sys.streams + [x])) && StreamReliable(x, sys.a)
    ensures Reliable(sys.(streams := sys.streams + [x]))
  {
    var r := sys.(streams := sys.streams + [x]);
    forall j | 0 <= j < |r.streams| ensures StreamReliable(r.streams[j], r.a) {
      assert j < |sys.streams| ==> StreamReliable(sys.streams[j], sys.a);
    }
    assert PeerOf(r) == if sys.streams == [] then x else PeerOf(sys);
  }

  lemma OpenedReliable(a: State, i: nat, id: nat, room: nat, ts: int)
    requires SenderOk(a) && TrueAcks(a) && |a.log| < MAX_PACKETS && i < |a.outbox| && OpensStream(a.outbox[i])
    requires Prompt(HandleNextPacket(Fresh(id, room), a.outbox[i], ts))
    ensures StreamReliable(HandleNextPacket(Fresh(id, room), a.outbox[i], ts), a)
  {
    var x, p := Fresh(id, room), a.outbox[i];
    assert Genuine(p, a.log);
    FreshFits(id, room, a.log);
    Opened(a, i, id, room, ts);
    DeliverHolds(x, p, ts, a.log);
    DeliverNoLoss(x, p, ts, a.log, a);
    StepTrueAcks(x, HandleNextPacket(x, p, ts), a.log);
  }

  lemma AcceptReliable(sys: System, i: nat, id: nat, room: nat, ts: int)
    requires Reliable(sys) && i < |sys.a.outbox| && OpensStream(sys.a.outbox[i])
    requires CarefulTo(sys, Accept(i, id, room, ts), AfterAccept(sys, i, id, room, ts))
    ensures Reliable(AfterAccept(sys, i, id, room, ts))
  {
    AcceptStep(sys, i, id, room, ts);
    assert Prompt(AfterAccept(sys, i, id, room, ts).streams[|sys.streams|]);
    OpenedReliable(sys.a, i, id, room, ts);
    JoinKeepsReliable(sys, HandleNextPacket(Fresh(id, room), sys.a.outbox[i], ts));
  }

  /** Handling a harmless packet: what is held stays held, and nothing outstanding is forgotten. */
  lemma HarmlessKeeps(s: State, p: Packet, ts: int, log: seq<Packet>)
    requires SenderOk(s) && ReceiverOk(s, log) && LogOk(log) && WellBuilt(p) && Harmless(s, p, log)
    requires |log| < MAX_PACKETS && |s.log| <= MAX_PACKETS + MAX_WINDOW_SIZE + 2
    ensures var r := TakeNumbered(s, p, ts); Keeps(s, r) && HoldsMore(s, r) && OutboxFrom(s, r)
  {
    var again, q, log' := HarmlessStands(s, p, ts, log);
    if again {
      if !s.status.Open? {
        SendBufferKeeps(s, ts);
      }
    } else {
      TakeNumberedKeeps(s, q, ts, log');
      TakeNumberedHolds(s, q, ts, log');
    }
  }

  lemma DeliverHarmless(x: State, p: Packet, ts: int, log: seq<Packet>, peer: State)
    requires SenderOk(x) && ReceiverOk(x, log) && LogOk(log) && |x.log| < MAX_PACKETS && |log| < MAX_PACKETS
    requires WellBuilt(p) && Harmless(x, p, log) && NoLoss(x, peer) && Justified(x, p, peer)
    ensures var r := HandleNextPacket(x, p, ts); HoldsMore(x, r) && OutboxFrom(x, r) && NoLoss(r, peer)
  {
    TakeAckOk(x, p, ts, log);
    AckNoLoss(x, p, ts, peer);
    var x1 := TakeAck(x, p, ts);
    HarmlessKeeps(x1, p, ts, log);
    HarmlessNumberedOk(x1, p, ts, log);
    OutboxOnward(x, x1, TakeNumbered(x1, p, ts));
    NoLossKept(x1, TakeNumbered(x1, p, ts), peer);
  }

  /** A plain ack of another stream only acknowledges. */
  lemma DeliverPlain(x: State, p: Packet, ts: int, log: seq<Packet>, peer: State)
    requires SenderOk(x) && ReceiverOk(x, log) && |x.log| < MAX_PACKETS && NoLoss(x, peer) && Justified(x, p, peer)
    requires p.seqn == 0 && !p.syn
    ensures var r := HandleNextPacket(x, p, ts); HoldsMore(x, r) && OutboxFrom(x, r) && NoLoss(r, peer)
  {
    TakeAckOk(x, p, ts, log);
    AckNoLoss(x, p, ts, peer);
    assert HandleNextPacket(x, p, ts) == TakeAck(x, p, ts);
  }

  /** A packet of stream `y` reaches the opener `s` with peer `peer`. */
  lemma ArrivesReliably(s: State, y: State, i: nat, ts: int, peer: State, own: bool)
    requires SenderOk(s) && ReceiverOk(s, peer.log) && LogOk(peer.log) && |s.log| < MAX_PACKETS && |peer.log| < MAX_PACKETS
    requires SenderOk(y) && |y.log| < MAX_PACKETS && NoLoss(s, peer) && (own ==> y == peer && TrueAcks(y))
    requires i < |y.outbox| && Routed(s, y.outbox[i]) ==>
               if own then SynAllowed(s, y.outbox[i]) else Harmless(s, y.outbox[i], peer.log) && Justified(s, y.outbox[i], peer)
    ensures var r := StreamStep(s, y.outbox, Deliver(i, ts)); HoldsMore(s, r) && OutboxFrom(s, r) && NoLoss(r, peer)
  {
    if i < |y.outbox| && Routed(s, y.outbox[i]) {
      var p := y.outbox[i];
      OutboxWellBuilt(y, i);
      if own {
        DeliverHolds(s, p, ts, peer.log);
        DeliverNoLoss(s, p, ts, peer.log, peer);
      } else if p.seqn == 0 && !p.syn {
        DeliverPlain(s, p, ts, peer.log, peer);
      } else {
        DeliverHarmless(s, p, ts, peer.log, peer);
      }
      assert StreamStep(s, y.outbox, Deliver(i, ts)) == HandleNextPacket(s, p, ts);
    } else {
      assert StreamStep(s, y.outbox, Deliver(i, ts)) == s;
    }
  }

  /** Nothing of an opener that has heard nothing was lost, whichever stream becomes its peer. */
  lemma PeerThenReliable(sys: System, from: nat)
    requires Reliable(sys) && from < |sys.streams|
    ensures NoLoss(sys.a, PeerOf(sys.(peer := PeerThen(sys, from))))
  {
    if !Unheard(sys.a) {
      assert sys.(peer := sys.peer) == sys;
    }
  }

  lemma ArriveActs(sys: System, from: nat, i: nat, ts: int)
    requires Reliable(sys) && Allowed(sys, Arrive(from, i, ts)) && FairArrival(sys, Arrive(from, i, ts)) && from < |sys.streams|
    ensures var x, peer := StreamStep(sys.a, sys.streams[from].outbox, Deliver(i, ts)), PeerOf(sys.(peer := PeerThen(sys, from)));
            HoldsMore(sys.a, x) && OutboxFrom(sys.a, x) && NoLoss(x, peer) && |peer.log| < MAX_PACKETS
  {
    var y, peer := sys.streams[from], PeerThen(sys, from);
    assert StreamOk(y, sys.a.log) && StreamReliable(y, sys.a);
    PeerThenOk(sys, from);
    PeerThenReliable(sys, from);
    PeerInRange(sys.(peer := peer));
    ArrivesReliably(sys.a, y, i, ts, PeerOf(sys.(peer := peer)), peer == from);
  }

  lemma ArriveReliable(sys: System, from: nat, i: nat, ts: int)
    requires Reliable(sys) && from < |sys.streams| && CarefulTo(sys, Arrive(from, i, ts), AfterArrive(sys, from, i, ts))
    ensures Reliable(AfterArrive(sys, from, i, ts))
  {
    ArriveActs(sys, from, i, ts);
    ArriveStep(sys, from, i, ts);
    OpenerKeepsReliable(sys, StreamStep(sys.a, sys.streams[from].outbox, Deliver(i, ts)), PeerThen(sys, from));
  }

  /** Every careful event keeps acknowledgements truthful and forgets nothing. */
  lemma StepReliable(sys: System, e: Event)
    requires Reliable(sys) && Careful(sys, e)
    ensures Reliable(Step(sys, e))
  {
    match e
    case AtOpener(act) => OpenerReliable(sys, act);
    case AtStream(k, act) =>
      if k < |sys.streams| {
        AcceptorReliable(sys, k, act);
      } else {
        assert Step(sys, e) == sys;
      }
    case Accept(i, id, room, ts) =>
      if i < |sys.a.outbox| && OpensStream(sys.a.outbox[i]) {
        AcceptReliable(sys, i, id, room, ts);
      } else {
        assert Step(sys, e) == sys;
      }
    case Arrive(from, i, ts) =>
      if from < |sys.streams| {
        ArriveReliable(sys, from, i, ts);
      } else {
        assert Step(sys, e) == sys;
      }
  }

  lemma InitReliable(id: nat, room: nat)
    ensures Reliable(Init(id, room))
  {
    InitInv(id, room);
  }

  /** In every state a careful run reaches, all acknowledgements in flight are truthful, and every packet built by the
      opener or by a stream its SYN opened is a close packet, outstanding, or held by the other side. */
  lemma {:induction false} RunReliable(id: nat, room: nat, es: seq<Event>)
    requires CarefulRun(Init(id, room), es)
    ensures Reliable(Run(Init(id, room), es))
  {
    if es == [] {
      InitReliable(id, room);
    } else {
      RunReliable(id, room, es[..|es| - 1]);
      StepReliable(Run(Init(id, room), es[..|es| - 1]), es[|es| - 1]);
    }
  }

  // ---------------------------------------------------------------- what it means, for either side

  /** The opener, or its peer. */
  function This(sys: System, side: Side): State {
    if side.Opener? then sys.a else PeerOf(sys)
  }

  function Peer(sys: System, side: Side): State {
    if side.Opener? then PeerOf(sys) else sys.a
  }

  lemma SideReliable(sys: System, side: Side)
    requires Reliable(sys)
    ensures var x, y := This(sys, side), Peer(sys, side); StreamReliable(x, y) && SenderOk(x) && ReceiverOk(y, x.log)
    ensures TrueAcks(Peer(sys, side))
  {
    PeerOk(sys);
    if sys.streams != [] {
      assert StreamReliable(sys.streams[sys.peer], sys.a);
    }
  }

  /** Whatever ack arrives, however old or repeated, a packet it takes out is held by the peer. */
  lemma AckDropsOnlyHeld(sys: System, side: Side, i: nat, n: nat)
    requires Reliable(sys) && i < |Peer(sys, side).outbox| && !Peer(sys, side).outbox[i].noAck
    requires Outstanding(This(sys, side).sent, n) && !Outstanding(Unacked(This(sys, side).sent, Peer(sys, side).outbox[i]), n)
    ensures Holds(Peer(sys, side), n)
  {
    var x, p := This(sys, side), Peer(sys, side).outbox[i];
    SideReliable(sys, side);
    UnackedNumbers(x.sent, p, x.log, n);
    assert p in Peer(sys, side).outbox;
  }

  /** Once nothing is outstanding, every packet before the first close packet has been delivered, ... */
  lemma AckedMeansDelivered(s: State, peer: State, c: nat)
    requires NoLoss(s, peer) && ReceiverOk(peer, s.log) && s.sent == []
    requires c <= |s.log| && forall i :: 0 <= i < c ==> !s.log[i].close
    ensures peer.last >= c - 1
    ensures Payloads(s.log[..c]) <= peer.readOut + Flatten(peer.queue)
  {
    assert !Holds(peer, peer.last + 1);
    assert s.log[..peer.last + 1][..c] == s.log[..c];
    PayloadsPrefix(s.log[..peer.last + 1], c);
  }

  /** No payload stands behind a close packet. */
  ghost predicate CloseLast(log: seq<Packet>) {
    forall i, j :: 0 <= i <= j < |log| && log[i].close ==> log[j].payload == []
  }

  /** The place of the first close packet, or the end. */
  function FirstClose(log: seq<Packet>): (c: nat)
    ensures c <= |log| && (forall i :: 0 <= i < c ==> !log[i].close) && (c < |log| ==> log[c].close)
  {
    if log == [] then 0
    else
      var c := FirstClose(log[..|log| - 1]);
      if c < |log| - 1 || log[|log| - 1].close then c else c + 1
  }

  lemma {:induction false} EmptyTail(log: seq<Packet>, c: nat)
    requires c <= |log| && forall j :: c <= j < |log| ==> log[j].payload == []
    ensures Payloads(log) == Payloads(log[..c])
  {
    if c < |log| {
      EmptyTail(log[..|log| - 1], c);
      assert log[..|log| - 1][..c] == log[..c];
      assert Payloads(log[..|log| - 1]) + [] == Payloads(log[..|log| - 1]);
    } else {
      assert log[..c] == log;
    }
  }

  /** ... so with an empty buffer and nothing behind a close packet the reader has, or can read, exactly the bytes written. */
  lemma DrainedMeansDelivered(s: State, peer: State)
    requires NoLoss(s, peer) && ReceiverOk(peer, s.log) && s.sent == [] && s.buffer == []
    requires s.written == Payloads(s.log) + s.buffer && CloseLast(s.log)
    ensures peer.readOut + Flatten(peer.queue) == s.written
  {
    var c, k := FirstClose(s.log), peer.last + 1;
    AckedMeansDelivered(s, peer, c);
    EmptyTail(s.log, c);
    assert s.log[..k][..c] == s.log[..c];
    EmptyTail(s.log[..k], c);
  }

  lemma AllAckedAllDelivered(sys: System, side: Side)
    requires Reliable(sys) && This(sys, side).sent == [] && This(sys, side).buffer == [] && CloseLast(This(sys, side).log)
    ensures Peer(sys, side).readOut + Flatten(Peer(sys, side).queue) == This(sys, side).written
  {
    SideReliable(sys, side);
    DrainedMeansDelivered(This(sys, side), Peer(sys, side));
  }

  /**
   A graceful close: an open or closing stream that nothing was written to behind its close packet becomes Closed only
   when all it wrote has reached the peer.
   */
  lemma GracefulClose(sys: System, side: Side)
    requires Reliable(sys) && CloseLast(This(sys, side).log)
    requires This(sys, side).status.Open? || This(sys, side).status.Closing?
    requires Close(This(sys, side)).status.Closed?
    ensures Peer(sys, side).readOut + Flatten(Peer(sys, side).queue) == This(sys, side).written
  {
    AllAckedAllDelivered(sys, side);
  }
}
