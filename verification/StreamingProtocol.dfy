/**
 One opener, every stream its SYN opens at the other destination, and the network between them. The network holds
 every packet ever sent and may deliver any of them at any time, any number of times or never: it loses, repeats and
 reorders. A run is any interleaving of deliveries, timers, posted sends and the application's writes, reads and closes.
 */
module StreamingProtocol {
  import opened Bytes
  import opened StreamingSpec
  import opened StreamingInvariants
  import opened StreamingForeign

  datatype Side = Opener | Acceptor

  /**
   `a` opened the connection. Every copy of its SYN that arrives opens a stream at the other destination; `streams` are
   all of them, oldest first, and each may answer. `peer` is the one the opener heard first.
   */
  datatype System = System(a: State, streams: seq<State>, peer: nat)

  /** What one stream does. */
  datatype Action =
    | DoWrite(data: seq<byte>)
    | DoRead(size: nat)
    | DoClose
    | Pump(ts: int)
    | Deliver(index: nat, ts: int)
    | ResendTimer(ts: int)
    | AckTimer
    | Posted

  /**
   `Accept`: the SYN at `index` of the opener's outbox arrives and opens a stream with the random number `id`. `Arrive`:
   the packet at `index` of the outbox of stream `from` arrives at the opener's destination.
   */
  datatype Event =
    | AtOpener(act: Action)
    | AtStream(k: nat, act: Action)
    | Accept(index: nat, id: nat, room: nat, ts: int)
    | Arrive(from: nat, index: nat, ts: int)

  /** An initial SYN, which always opens a new stream. */
  predicate OpensStream(p: Packet) {
    p.sendID == 0 && p.syn && p.seqn == 0
  }

  /** The destination hands `p` to stream `x`. */
  predicate Routed(x: State, p: Packet) {
    !x.deleted && !OpensStream(p) && if p.sendID != 0 then p.sendID == x.recvID else x.sendID == p.recvID
  }

  /** One action of stream `x`, to which `net` has been sent. */
  function StreamStep(x: State, net: seq<Packet>, act: Action): State {
    match act
    case DoWrite(data) => Write(x, data)
    case DoRead(size) => ReadSome(x, size)
    case DoClose => Close(x)
    case Pump(ts) => SendBuffer(x, ts)
    case Deliver(i, ts) => if i < |net| && Routed(x, net[i]) then HandleNextPacket(x, net[i], ts) else x
    case ResendTimer(ts) => HandleResendTimer(x, ts)
    case AckTimer => HandleAckSendTimer(x)
    case Posted => if x.posted != [] then RunPosted(x) else x
  }

  /** The stream has heard nothing: it knows no peer, has received nothing, and nothing of it has been acknowledged. */
  ghost predicate Unheard(s: State) {
    && s.sendID == 0 && s.last == -1 && s.saved == []
    && forall n :: 0 <= n < |s.log| ==> s.log[n].close || Outstanding(s.sent, n)
  }

  /** The stream the opener heard first. */
  function PeerOf(sys: System): State {
    if sys.peer < |sys.streams| then sys.streams[sys.peer] else Fresh(0, 0)
  }

  function AfterOpener(sys: System, act: Action): System {
    sys.(a := StreamStep(sys.a, [], act))
  }

  function AfterStream(sys: System, k: nat, act: Action): System
    requires k < |sys.streams|
  {
    sys.(streams := sys.streams[k := StreamStep(sys.streams[k], sys.a.outbox, act)])
  }

  function AfterAccept(sys: System, i: nat, id: nat, room: nat, ts: int): System
    requires i < |sys.a.outbox|
  {
    sys.(streams := sys.streams + [HandleNextPacket(Fresh(id, room), sys.a.outbox[i], ts)])
  }

  /** The peer of the opener once something of `from` has arrived. */
  ghost function PeerThen(sys: System, from: nat): nat {
    if Unheard(sys.a) then from else sys.peer
  }

  ghost function AfterArrive(sys: System, from: nat, i: nat, ts: int): System
    requires from < |sys.streams|
  {
    sys.(a := StreamStep(sys.a, sys.streams[from].outbox, Deliver(i, ts)), peer := PeerThen(sys, from))
  }

  ghost function Step(sys: System, e: Event): System {
    match e
    case AtOpener(act) => AfterOpener(sys, act)
    case AtStream(k, act) => if k < |sys.streams| then AfterStream(sys, k, act) else sys
    case Accept(i, id, room, ts) =>
      if i < |sys.a.outbox| && OpensStream(sys.a.outbox[i]) then AfterAccept(sys, i, id, room, ts) else sys
    case Arrive(from, i, ts) => if from < |sys.streams| then AfterArrive(sys, from, i, ts) else sys
  }

  ghost function Run(sys: System, es: seq<Event>): System {
    if es == [] then sys else Step(Run(sys, es[..|es| - 1]), es[|es| - 1])
  }

  function Init(id: nat, room: nat): System {
    System(Fresh(id, room), [], 0)
  }

  ghost predicate InRange(sys: System) {
    |sys.a.log| < MAX_PACKETS && forall k :: 0 <= k < |sys.streams| ==> |sys.streams[k].log| < MAX_PACKETS
  }

  /** The peer's SYN is taken once, or is a repeat of an empty one before anything follows it; other streams' packets are
      harmless. */
  ghost predicate MayArrive(sys: System, from: nat, p: Packet) {
    if from == sys.peer || Unheard(sys.a) then SynAllowed(sys.a, p) else Harmless(sys.a, p, PeerOf(sys).log)
  }

  /** The side conditions of the code: fewer than 2^31 packets, and what arrives at the opener may arrive. */
  ghost predicate Allowed(sys: System, e: Event) {
    && InRange(sys)
    && (e.Arrive? && e.from < |sys.streams| && e.index < |sys.streams[e.from].outbox| ==>
          Routed(sys.a, sys.streams[e.from].outbox[e.index]) ==> MayArrive(sys, e.from, sys.streams[e.from].outbox[e.index]))
  }

  ghost predicate AllowedRun(sys: System, es: seq<Event>) {
    es == [] || (AllowedRun(sys, es[..|es| - 1]) && Allowed(Run(sys, es[..|es| - 1]), es[|es| - 1]))
  }

  /** How the connection opens: nothing is known of a peer before the SYN has left, and the SYN names none. */
  ghost predicate Opening(sys: System) {
    && (sys.streams != [] ==> sys.a.log != [])
    && (sys.a.log == [] ==> sys.a.sendID == 0)
    && (sys.a.log != [] && sys.a.log[0].syn ==> sys.a.log[0].sendID == 0)
    && (if sys.streams == [] then sys.peer == 0 else sys.peer < |sys.streams|)
  }

  ghost predicate StreamOk(x: State, log: seq<Packet>) {
    SenderOk(x) && ReceiverOk(x, log)
  }

  ghost predicate AllOk(xs: seq<State>, log: seq<Packet>) {
    forall k :: 0 <= k < |xs| ==> StreamOk(xs[k], log)
  }

  ghost predicate Inv(sys: System) {
    && SenderOk(sys.a) && ReceiverOk(sys.a, PeerOf(sys).log)
    && AllOk(sys.streams, sys.a.log)
    && Opening(sys)
  }

  // ---------------------------------------------------------------- one stream, one action

  lemma ApplicationStepOk(x: State, net: seq<Packet>, act: Action, log: seq<Packet>)
    requires SenderOk(x) && ReceiverOk(x, log) && |x.log| < MAX_PACKETS
    requires act.DoWrite? || act.DoRead? || act.DoClose? || act.Pump?
    ensures var r := StreamStep(x, net, act); SenderOk(r) && Progress(x, r) && ReceiverOk(r, log)
  {
    match act
    case DoWrite(data) =>
      WriteOk(x, data);
      assert StreamStep(x, net, act) == Write(x, data);
    case DoRead(size) =>
      ReadSomeOk(x, size, log);
      assert StreamStep(x, net, act) == ReadSome(x, size);
    case DoClose =>
      CloseOk(x);
      assert StreamStep(x, net, act) == Close(x);
    case Pump(ts) =>
      SendBufferOk(x, ts);
      assert StreamStep(x, net, act) == SendBuffer(x, ts);
  }

  lemma TimerStepOk(x: State, net: seq<Packet>, act: Action, log: seq<Packet>)
    requires SenderOk(x) && ReceiverOk(x, log) && |x.log| < MAX_PACKETS
    requires act.ResendTimer? || act.AckTimer? || act.Posted?
    ensures var r := StreamStep(x, net, act); SenderOk(r) && Progress(x, r) && ReceiverOk(r, log)
  {
    match act
    case ResendTimer(ts) =>
      HandleResendTimerOk(x, ts);
      assert StreamStep(x, net, act) == HandleResendTimer(x, ts);
    case AckTimer =>
      HandleAckSendTimerOk(x, log);
      assert StreamStep(x, net, act) == HandleAckSendTimer(x);
    case Posted =>
      if x.posted != [] {
        RunPostedOk(x);
        assert StreamStep(x, net, act) == RunPosted(x);
      } else {
        assert StreamStep(x, net, act) == x;
      }
  }

  lemma StreamStepOk(x: State, net: seq<Packet>, act: Action, log: seq<Packet>)
    requires SenderOk(x) && ReceiverOk(x, log) && LogOk(log)
    requires forall i :: 0 <= i < |net| ==> Genuine(net[i], log)
    requires |x.log| < MAX_PACKETS && |log| < MAX_PACKETS
    requires act.Deliver? && act.index < |net| && Routed(x, net[act.index]) ==> SynAllowed(x, net[act.index])
    ensures var r := StreamStep(x, net, act); SenderOk(r) && Progress(x, r) && ReceiverOk(r, log)
  {
    if act.Deliver? {
      if act.index < |net| && Routed(x, net[act.index]) {
        HandleNextPacketOk(x, net[act.index], act.ts, log);
        assert StreamStep(x, net, act) == HandleNextPacket(x, net[act.index], act.ts);
      } else {
        assert StreamStep(x, net, act) == x;
      }
    } else if act.ResendTimer? || act.AckTimer? || act.Posted? {
      TimerStepOk(x, net, act, log);
    } else {
      ApplicationStepOk(x, net, act, log);
    }
  }

  /** A longer peer log changes nothing about what has been received. */
  lemma ReceiverGrows(x: State, log: seq<Packet>, log': seq<Packet>)
    requires ReceiverOk(x, log) && log <= log'
    ensures ReceiverOk(x, log')
  {
    assert log[..x.last + 1] == log'[..x.last + 1];
  }

  /** Actions other than a delivery leave the peer's ID alone. */
  lemma StepKeepsID(x: State, net: seq<Packet>, act: Action)
    requires SenderOk(x) && |x.log| < MAX_PACKETS
    requires act.Deliver? ==> act.index >= |net|
    ensures StreamStep(x, net, act).sendID == x.sendID
  {
    if act.ResendTimer? {
      HandleResendTimerOk(x, act.ts);
    }
  }

  // ---------------------------------------------------------------- the invariant

  lemma FreshOk(id: nat, room: nat)
    ensures SenderOk(Fresh(id, room)) && ReceiverOk(Fresh(id, room), [])
  {
    FreshSender(id, room);
    FreshReceiver(id, room);
  }

  lemma FreshSender(id: nat, room: nat)
    ensures SenderOk(Fresh(id, room))
  {
    var none: seq<Packet> := [];
    assert Payloads(none) == [];
  }

  lemma FreshReceiver(id: nat, room: nat)
    ensures ReceiverOk(Fresh(id, room), [])
  {
    var none: seq<Packet> := [];
    assert Payloads(none) == [] && none[..0] == none;
  }

  lemma InitInv(id: nat, room: nat)
    ensures Inv(Init(id, room))
  {
    FreshOk(id, room);
    StartInv(Fresh(id, room));
  }

  /** An opener that has done nothing. */
  lemma StartInv(a: State)
    requires SenderOk(a) && ReceiverOk(a, []) && a.log == [] && a.sendID == 0
    ensures Inv(System(a, [], 0))
  {
    assert PeerOf(System(a, [], 0)).log == [];
  }

  /** A stream that has received nothing has received the first bytes of any log. */
  lemma NothingReceived(s: State, log: seq<Packet>, log': seq<Packet>)
    requires ReceiverOk(s, log) && s.last == -1 && s.saved == []
    ensures ReceiverOk(s, log')
  {
    assert log[..0] == log'[..0];
  }

  lemma FreshFits(id: nat, room: nat, log: seq<Packet>)
    ensures StreamOk(Fresh(id, room), log)
  {
    FreshOk(id, room);
    NothingReceived(Fresh(id, room), [], log);
  }

  /** The peer is one of the streams, or one that has done nothing. */
  lemma PeerOk(sys: System)
    requires Inv(sys)
    ensures StreamOk(PeerOf(sys), sys.a.log)
  {
    if sys.streams == [] {
      FreshFits(0, 0, sys.a.log);
    }
  }

  lemma PeerInRange(sys: System)
    requires InRange(sys)
    ensures |PeerOf(sys).log| < MAX_PACKETS
  {
  }

  lemma AllGrow(xs: seq<State>, log: seq<Packet>, log': seq<Packet>)
    requires AllOk(xs, log) && log <= log'
    ensures AllOk(xs, log')
  {
    forall k | 0 <= k < |xs| ensures StreamOk(xs[k], log') {
      ReceiverGrows(xs[k], log, log');
    }
  }

  ghost predicate AllProgress(xs: seq<State>, ys: seq<State>) {
    |xs| <= |ys| && forall k :: 0 <= k < |xs| ==> Progress(xs[k], ys[k])
  }

  /** Every stream has moved onward, with the invariant kept. */
  ghost predicate Onwards(sys: System, r: System) {
    Inv(r) && Progress(sys.a, r.a) && AllProgress(sys.streams, r.streams)
  }

  lemma OpenerInv(sys: System, x: State, peer: nat)
    requires Inv(sys) && SenderOk(x) && sys.a.log <= x.log && (x.log == [] ==> x.sendID == 0)
    requires x.log != [] && x.log[0].syn ==> x.log[0].sendID == 0
    requires ReceiverOk(x, PeerOf(sys.(peer := peer)).log) && AllOk(sys.streams, x.log)
    requires if sys.streams == [] then peer == 0 else peer < |sys.streams|
    ensures Inv(sys.(a := x, peer := peer))
  {
    assert PeerOf(sys.(a := x, peer := peer)) == PeerOf(sys.(peer := peer));
  }

  /** The invariant survives a change `x` of the opener against the peer it then has. */
  lemma OpenerMoves(sys: System, x: State, peer: nat)
    requires Inv(sys) && SenderOk(x) && Progress(sys.a, x) && (sys.a.log == [] ==> x.sendID == sys.a.sendID)
    requires ReceiverOk(x, PeerOf(sys.(peer := peer)).log)
    requires if sys.streams == [] then peer == 0 else peer < |sys.streams|
    ensures Onwards(sys, sys.(a := x, peer := peer))
  {
    AllGrow(sys.streams, sys.a.log, x.log);
    SynStaysFirst(sys.a, x);
    OpenerInv(sys, x, peer);
    AllStay(sys.streams);
  }

  lemma SynStaysFirst(s: State, x: State)
    requires s.log <= x.log && Numbered(x) && (s.log == [] ==> x.sendID == s.sendID && s.sendID == 0)
    requires s.log != [] && s.log[0].syn ==> s.log[0].sendID == 0
    ensures (x.log == [] ==> x.sendID == 0) && (x.log != [] && x.log[0].syn ==> x.log[0].sendID == 0)
  {
    if s.log != [] {
      assert x.log[0] == s.log[0];
    }
  }

  lemma OpenerAlone(x: State, act: Action, log: seq<Packet>)
    requires SenderOk(x) && ReceiverOk(x, log) && LogOk(log) && |x.log| < MAX_PACKETS && |log| < MAX_PACKETS
    ensures var r := StreamStep(x, [], act); SenderOk(r) && Progress(x, r) && ReceiverOk(r, log) && r.sendID == x.sendID
  {
    StreamStepOk(x, [], act, log);
    StepKeepsID(x, [], act);
  }

  lemma OpenerStep(sys: System, act: Action)
    requires Inv(sys) && Allowed(sys, AtOpener(act))
    ensures Onwards(sys, AfterOpener(sys, act))
  {
    PeerOk(sys);
    PeerInRange(sys);
    OpenerAlone(sys.a, act, PeerOf(sys).log);
    assert sys.(peer := sys.peer) == sys;
    OpenerMoves(sys, StreamStep(sys.a, [], act), sys.peer);
    assert AfterOpener(sys, act) == sys.(a := StreamStep(sys.a, [], act), peer := sys.peer);
  }

  /** What a stream sends is a plain ack or well built. */
  lemma OutboxWellBuilt(x: State, i: nat)
    requires SenderOk(x) && |x.log| < MAX_PACKETS && i < |x.outbox|
    ensures Genuine(x.outbox[i], x.log) && ((x.outbox[i].seqn == 0 && !x.outbox[i].syn) || WellBuilt(x.outbox[i]))
  {
  }

  /** A packet of stream `y` reaches the opener `s`, whose peer has built `log`: `y` is the peer, or it is harmless. */
  lemma ArrivePacket(s: State, y: State, i: nat, ts: int, log: seq<Packet>, own: bool)
    requires SenderOk(s) && ReceiverOk(s, log) && LogOk(log) && |s.log| < MAX_PACKETS && |log| < MAX_PACKETS
    requires SenderOk(y) && |y.log| < MAX_PACKETS && (own ==> y.log == log)
    requires i < |y.outbox| && Routed(s, y.outbox[i]) ==>
               if own then SynAllowed(s, y.outbox[i]) else Harmless(s, y.outbox[i], log)
    ensures var r := StreamStep(s, y.outbox, Deliver(i, ts)); SenderOk(r) && Progress(s, r) && ReceiverOk(r, log)
  {
    if i < |y.outbox| && Routed(s, y.outbox[i]) {
      var p := y.outbox[i];
      OutboxWellBuilt(y, i);
      if own || (p.seqn == 0 && !p.syn) {
        HandleNextPacketOk(s, p, ts, log);
      } else {
        HandleHarmlessOk(s, p, ts, log);
      }
      assert StreamStep(s, y.outbox, Deliver(i, ts)) == HandleNextPacket(s, p, ts);
    } else {
      assert StreamStep(s, y.outbox, Deliver(i, ts)) == s;
    }
  }

  lemma PeerThenOk(sys: System, from: nat)
    requires Inv(sys) && from < |sys.streams|
    ensures var peer := PeerOf(sys.(peer := PeerThen(sys, from))); SenderOk(peer) && ReceiverOk(sys.a, peer.log)
  {
    PeerOk(sys);
    if Unheard(sys.a) {
      NothingReceived(sys.a, PeerOf(sys).log, sys.streams[from].log);
      assert StreamOk(sys.streams[from], sys.a.log);
    } else {
      assert sys.(peer := sys.peer) == sys;
    }
  }

  lemma ArriveStep(sys: System, from: nat, i: nat, ts: int)
    requires Inv(sys) && Allowed(sys, Arrive(from, i, ts)) && from < |sys.streams|
    ensures Onwards(sys, AfterArrive(sys, from, i, ts))
  {
    ArrivesOk(sys, from, i, ts);
    OpenerMoves(sys, StreamStep(sys.a, sys.streams[from].outbox, Deliver(i, ts)), PeerThen(sys, from));
  }

  lemma ArrivesOk(sys: System, from: nat, i: nat, ts: int)
    requires Inv(sys) && Allowed(sys, Arrive(from, i, ts)) && from < |sys.streams|
    ensures var x := StreamStep(sys.a, sys.streams[from].outbox, Deliver(i, ts));
            SenderOk(x) && Progress(sys.a, x) && ReceiverOk(x, PeerOf(sys.(peer := PeerThen(sys, from))).log)
    ensures sys.a.log != [] && PeerThen(sys, from) < |sys.streams|
  {
    var peer, y := PeerThen(sys, from), sys.streams[from];
    assert StreamOk(y, sys.a.log);
    PeerThenOk(sys, from);
    ArrivePacket(sys.a, y, i, ts, PeerOf(sys.(peer := peer)).log, peer == from);
  }

  /** The opener's SYN always opens a new stream, so a stream that exists never sees a second one. */
  lemma NoSecondSyn(sys: System, k: nat, i: nat)
    requires Inv(sys) && k < |sys.streams| && i < |sys.a.outbox|
    ensures Routed(sys.streams[k], sys.a.outbox[i]) ==> !sys.a.outbox[i].syn
  {
    assert Genuine(sys.a.outbox[i], sys.a.log);
  }

  lemma StreamMoves(sys: System, k: nat, x: State)
    requires Inv(sys) && k < |sys.streams| && StreamOk(x, sys.a.log) && Progress(sys.streams[k], x)
    ensures Onwards(sys, sys.(streams := sys.streams[k := x]))
  {
    var r := sys.(streams := sys.streams[k := x]);
    AllStay(sys.streams);
    assert PeerOf(r) == if k == sys.peer then x else PeerOf(sys);
    ReceiverGrows(sys.a, PeerOf(sys).log, PeerOf(r).log);
  }

  lemma AllStay(xs: seq<State>)
    ensures AllProgress(xs, xs)
  {
  }

  lemma AcceptorAlone(sys: System, k: nat, act: Action)
    requires Inv(sys) && Allowed(sys, AtStream(k, act)) && k < |sys.streams|
    ensures var r := StreamStep(sys.streams[k], sys.a.outbox, act); StreamOk(r, sys.a.log) && Progress(sys.streams[k], r)
  {
    assert StreamOk(sys.streams[k], sys.a.log);
    if act.Deliver? && act.index < |sys.a.outbox| {
      NoSecondSyn(sys, k, act.index);
    }
    StreamStepOk(sys.streams[k], sys.a.outbox, act, sys.a.log);
  }

  lemma AcceptorStep(sys: System, k: nat, act: Action)
    requires Inv(sys) && Allowed(sys, AtStream(k, act)) && k < |sys.streams|
    ensures Onwards(sys, AfterStream(sys, k, act))
  {
    AcceptorAlone(sys, k, act);
    StreamMoves(sys, k, StreamStep(sys.streams[k], sys.a.outbox, act));
  }

  lemma StreamJoins(sys: System, x: State)
    requires Inv(sys) && StreamOk(x, sys.a.log) && sys.a.log != []
    ensures Onwards(sys, sys.(streams := sys.streams + [x]))
  {
    var r := sys.(streams := sys.streams + [x]);
    assert PeerOf(r) == if sys.streams == [] then x else PeerOf(sys);
    ReceiverGrows(sys.a, PeerOf(sys).log, PeerOf(r).log);
  }

  lemma Opened(a: State, i: nat, id: nat, room: nat, ts: int)
    requires SenderOk(a) && |a.log| < MAX_PACKETS && i < |a.outbox| && OpensStream(a.outbox[i])
    ensures a.log != [] && StreamOk(HandleNextPacket(Fresh(id, room), a.outbox[i], ts), a.log)
  {
    assert Genuine(a.outbox[i], a.log);
    FreshFits(id, room, a.log);
    HandleNextPacketOk(Fresh(id, room), a.outbox[i], ts, a.log);
  }

  lemma AcceptStep(sys: System, i: nat, id: nat, room: nat, ts: int)
    requires Inv(sys) && Allowed(sys, Accept(i, id, room, ts)) && i < |sys.a.outbox| && OpensStream(sys.a.outbox[i])
    ensures Onwards(sys, AfterAccept(sys, i, id, room, ts))
  {
    Opened(sys.a, i, id, room, ts);
    StreamJoins(sys, HandleNextPacket(Fresh(id, room), sys.a.outbox[i], ts));
  }

  lemma Stays(sys: System)
    requires Inv(sys)
    ensures Onwards(sys, sys)
  {
    AllStay(sys.streams);
  }

  /** Every allowed event keeps the invariant and moves all streams onward. */
  lemma StepInv(sys: System, e: Event)
    requires Inv(sys) && Allowed(sys, e)
    ensures Onwards(sys, Step(sys, e))
  {
    match e
    case AtOpener(act) => OpenerStep(sys, act);
    case AtStream(k, act) =>
      if k < |sys.streams| {
        AcceptorStep(sys, k, act);
      } else {
        Stays(sys);
        assert Step(sys, e) == sys;
      }
    case Accept(i, id, room, ts) =>
      if i < |sys.a.outbox| && OpensStream(sys.a.outbox[i]) {
        AcceptStep(sys, i, id, room, ts);
      } else {
        Stays(sys);
        assert Step(sys, e) == sys;
      }
    case Arrive(from, i, ts) =>
      if from < |sys.streams| {
        ArriveStep(sys, from, i, ts);
      } else {
        Stays(sys);
        assert Step(sys, e) == sys;
      }
  }

  lemma {:induction false} RunInv(sys: System, es: seq<Event>)
    requires Inv(sys) && AllowedRun(sys, es)
    ensures Inv(Run(sys, es))
  {
    if es != [] {
      RunInv(sys, es[..|es| - 1]);
      StepInv(Run(sys, es[..|es| - 1]), es[|es| - 1]);
    }
  }

  // ---------------------------------------------------------------- end to end

  lemma {:induction false} PayloadsPrefix(log: seq<Packet>, k: nat)
    requires k <= |log|
    ensures Payloads(log[..k]) <= Payloads(log)
  {
    if k < |log| {
      PayloadsPrefix(log[..|log| - 1], k);
      assert log[..|log| - 1][..k] == log[..k];
      PrefixTransitive(Payloads(log[..k]), Payloads(log[..|log| - 1]), Payloads(log));
    } else {
      assert log[..k] == log;
    }
  }

  /** What has been read, and what can still be read, are the first bytes the peer wrote. */
  lemma ReadIsPrefix(x: State, y: State)
    requires SenderOk(y) && ReceiverOk(x, y.log)
    ensures x.readOut + Flatten(x.queue) <= y.written && x.readOut <= y.written
  {
    PayloadsPrefix(y.log, x.last + 1);
    PrefixTransitive(Payloads(y.log[..x.last + 1]), Payloads(y.log), y.written);
    PrefixTransitive(x.readOut, x.readOut + Flatten(x.queue), y.written);
  }

  /**
   In every run, the bytes the opener has read are the first bytes its peer wrote, and the bytes read at every stream
   its SYN opened are the first bytes the opener wrote: no gap, no repeat, no swap, with any read sizes.
   */
  lemma EndToEnd(id: nat, room: nat, es: seq<Event>, k: nat)
    requires AllowedRun(Init(id, room), es)
    ensures var sys := Run(Init(id, room), es);
            && sys.a.readOut <= PeerOf(sys).written
            && (k < |sys.streams| ==> sys.streams[k].readOut <= sys.a.written)
  {
    InitInv(id, room);
    RunInv(Init(id, room), es);
    BothRead(Run(Init(id, room), es), k);
  }

  lemma BothRead(sys: System, k: nat)
    requires Inv(sys)
    ensures sys.a.readOut <= PeerOf(sys).written
    ensures k < |sys.streams| ==> sys.streams[k].readOut <= sys.a.written
  {
    PeerOk(sys);
    ReadIsPrefix(sys.a, PeerOf(sys));
    if k < |sys.streams| {
      assert StreamOk(sys.streams[k], sys.a.log);
      ReadIsPrefix(sys.streams[k], sys.a);
    }
  }

  /** Over any run, at every stream, the window stays within 1..128, at most 128 packets are outstanding, and their
      numbers are distinct, ascending and below the next sequence number. */
  lemma SenderBounds(id: nat, room: nat, es: seq<Event>, x: State)
    requires AllowedRun(Init(id, room), es)
    requires x == Run(Init(id, room), es).a || x in Run(Init(id, room), es).streams
    ensures 1 <= x.rate.window <= 128 && |x.sent| <= 128
    ensures forall i :: 0 <= i < |x.sent| ==> x.sent[i].packet.seqn < x.seqNum
    ensures forall i, j :: 0 <= i < j < |x.sent| ==> x.sent[i].packet.seqn < x.sent[j].packet.seqn
  {
    InitInv(id, room);
    RunInv(Init(id, room), es);
    EverySenderOk(Run(Init(id, room), es), x);
  }

  lemma EverySenderOk(sys: System, x: State)
    requires Inv(sys) && (x == sys.a || x in sys.streams)
    ensures SenderOk(x)
  {
    if x != sys.a {
      var k :| 0 <= k < |sys.streams| && sys.streams[k] == x;
      assert StreamOk(sys.streams[k], sys.a.log);
    }
  }

  /** Between `s` and `r` the stream was not reopened. */
  predicate StaysClosed(s: State, r: State) {
    (r.status.Open? ==> s.status.Open? || s.status.New?) && (r.status.New? ==> s.status.New?)
  }

  ghost predicate AllStayClosed(sys: System, r: System) {
    && StaysClosed(sys.a, r.a) && |sys.streams| <= |r.streams|
    && forall k :: 0 <= k < |sys.streams| ==> StaysClosed(sys.streams[k], r.streams[k])
  }

  lemma StepStaysClosed(sys: System, e: Event)
    requires Inv(sys) && Allowed(sys, e)
    ensures AllStayClosed(sys, Step(sys, e))
  {
    StepInv(sys, e);
    OnwardsClosed(sys, Step(sys, e));
  }

  lemma OnwardsClosed(sys: System, r: System)
    requires Onwards(sys, r)
    ensures AllStayClosed(sys, r)
  {
    assert forall k :: 0 <= k < |sys.streams| ==> Progress(sys.streams[k], r.streams[k]);
  }

  lemma StayClosedOn(sys: System, t: System, r: System)
    requires AllStayClosed(sys, t) && AllStayClosed(t, r)
    ensures AllStayClosed(sys, r)
  {
  }

  /** A stream that has left Open never returns to it, nor to New, however the run goes on. */
  lemma {:induction false} NeverReopened(sys: System, es: seq<Event>)
    requires Inv(sys) && AllowedRun(sys, es)
    ensures AllStayClosed(sys, Run(sys, es))
  {
    if es != [] {
      var n := |es| - 1;
      var t := Run(sys, es[..n]);
      NeverReopened(sys, es[..n]);
      RunInv(sys, es[..n]);
      StepStaysClosed(t, es[n]);
      StayClosedOn(sys, t, Step(t, es[n]));
    }
  }

  // ---------------------------------------------------------------- one SYN

  /** The SYN opens one stream only, and what that stream answers may arrive. */
  ghost predicate Single(sys: System, e: Event) {
    && InRange(sys) && (e.Accept? ==> sys.streams == [])
    && (e.Arrive? && e.from < |sys.streams| && e.index < |sys.streams[e.from].outbox| ==>
          SynAllowed(sys.a, sys.streams[e.from].outbox[e.index]))
  }

  ghost predicate SingleRun(sys: System, es: seq<Event>) {
    es == [] || (SingleRun(sys, es[..|es| - 1]) && Single(Run(sys, es[..|es| - 1]), es[|es| - 1]))
  }

  lemma SingleAllowed(sys: System, e: Event)
    requires Opening(sys) && |sys.streams| <= 1 && Single(sys, e)
    ensures Allowed(sys, e)
  {
  }

  lemma SingleStays(sys: System, e: Event)
    requires |sys.streams| <= 1 && Single(sys, e)
    ensures |Step(sys, e).streams| <= 1
  {
  }

  /** If the opener's SYN is let in only while no stream is open, all that arrives comes from the peer. */
  lemma {:induction false} SingleIsAllowed(id: nat, room: nat, es: seq<Event>)
    requires SingleRun(Init(id, room), es)
    ensures AllowedRun(Init(id, room), es) && |Run(Init(id, room), es).streams| <= 1
  {
    if es != [] {
      var sys := Run(Init(id, room), es[..|es| - 1]);
      SingleIsAllowed(id, room, es[..|es| - 1]);
      InitInv(id, room);
      RunInv(Init(id, room), es[..|es| - 1]);
      SingleAllowed(sys, es[|es| - 1]);
      SingleStays(sys, es[|es| - 1]);
    }
  }
}
