/**
 The SSU peer test: Alice asks Bob, Bob asks Charlie, Charlie tries to reach Alice; from what arrives, and on what kind of
 session, a router concludes whether it can be reached.
 */
module PeerTest {
  import opened Wrappers

  type Nonce = nat
  type SessionId = nat

  const SSU_PEER_TEST_TIMEOUT: nat := 60

  datatype Status = Testing | OK | Firewalled

  datatype Role = Alice1 | Alice2 | Bob | Charlie

  datatype Endpoint = Endpoint(address: nat, port: nat)

  /** `session` is the session with Alice, kept by Bob. */
  datatype Test = Test(created: nat, role: Role, session: Option<SessionId>)

  /**
   A peer-test packet and the session it came on. `address` is 0 if it is not four bytes long; `charlie` is some other
   established session, if there is one, and `aliceThere` whether the session Bob keeps is still established.
   */
  datatype Packet = Packet(
    nonce: Nonce, address: nat, port: nat, introKey: seq<int>, session: SessionId, established: bool,
    sender: Endpoint, charlie: Option<SessionId>, aliceThere: bool)

  /** What is sent: the same packet over a session, or a new one over a session or straight to an endpoint. */
  datatype Out =
    | Same(via: SessionId)
    | OverSession(via: SessionId, nonce: Nonce, endpoint: Endpoint, introKey: seq<int>)
    | Direct(to: Endpoint, nonce: Nonce, tellAddress: bool, introKey: seq<int>)

  datatype Router = Router(status: Status, tests: map<Nonce, Test>)

  datatype Outcome = Outcome(router: Router, sent: seq<Out>)

  /** A port without an address of four bytes is not supported. */
  predicate Supported(p: Packet) {
    p.port == 0 || p.address != 0
  }

  function RoleIn(y: Router, nonce: Nonce): Option<Role> {
    if nonce in y.tests then Some(y.tests[nonce].role) else None
  }

  function AsAlice1(y: Router, p: Packet): Outcome
    requires p.nonce in y.tests
  {
    if p.established then Outcome(if y.status == Testing then y.(status := Firewalled) else y, [])
    else Outcome(Router(OK, y.tests[p.nonce := y.tests[p.nonce].(role := Alice2)]), [Direct(p.sender, p.nonce, false, p.introKey)])
  }

  function AsAlice2(y: Router, p: Packet): Outcome {
    if p.established then Outcome(y, []) else Outcome(Router(OK, y.tests - {p.nonce}), [])
  }

  function AsBob(y: Router, p: Packet): Outcome
    requires p.nonce in y.tests
  {
    var alice := y.tests[p.nonce].session;
    Outcome(y.(tests := y.tests - {p.nonce}), if alice.Some? && p.aliceThere then [Same(alice.value)] else [])
  }

  function AsCharlie(y: Router, p: Packet): Outcome {
    Outcome(y.(tests := y.tests - {p.nonce}), [Direct(p.sender, p.nonce, true, p.introKey)])
  }

  /** A nonce not seen before: a request from Bob names Alice's endpoint, one from Alice does not. */
  function NewTest(y: Router, p: Packet, ts: nat): Outcome {
    if !p.established then Outcome(y, [])
    else if p.port != 0 then
      Outcome(y.(tests := y.tests[p.nonce := Test(ts, Charlie, None)]),
              [Same(p.session), Direct(Endpoint(p.address, p.port), p.nonce, true, p.introKey)])
    else if p.charlie.Some? then
      Outcome(y.(tests := y.tests[p.nonce := Test(ts, Bob, Some(p.session))]),
              [OverSession(p.charlie.value, p.nonce, p.sender, p.introKey)])
    else Outcome(y, [])
  }

  function ProcessPeerTest(y: Router, p: Packet, ts: nat): Outcome {
    if !Supported(p) then Outcome(y, [])
    else
      match RoleIn(y, p.nonce)
      case Some(Alice1) => AsAlice1(y, p)
      case Some(Alice2) => AsAlice2(y, p)
      case Some(Bob) => AsBob(y, p)
      case Some(Charlie) => AsCharlie(y, p)
      case None => NewTest(y, p, ts)
  }

  /** What starts a test of our own: Bob is told no address. */
  function Opening(session: SessionId, nonce: Nonce, introKey: seq<int>): Out {
    OverSession(session, nonce, Endpoint(0, 0), introKey)
  }

  function Unexpired(tests: map<Nonce, Test>, ts: nat): map<Nonce, Test> {
    map n | n in tests && ts <= tests[n].created + SSU_PEER_TEST_TIMEOUT * 1000 :: tests[n]
  }

  // ---------------------------------------------------------------- runs

  datatype Event = Arrives(packet: Packet, ts: nat) | Starts(nonce: Nonce, ts: nat) | Cleanup(ts: nat)

  function Step(y: Router, e: Event): Router {
    match e
    case Arrives(p, ts) => ProcessPeerTest(y, p, ts).router
    case Starts(nonce, ts) => y.(tests := y.tests[nonce := Test(ts, Alice1, None)])
    case Cleanup(ts) => y.(tests := Unexpired(y.tests, ts))
  }

  function Run(y: Router, run: seq<Event>): Router
    decreases |run|
  {
    if run == [] then y else Run(Step(y, run[0]), run[1..])
  }

  /** Charlie reached us: a packet for a test of ours on a session that is not established. */
  predicate FromCharlie(y: Router, e: Event) {
    && e.Arrives? && Supported(e.packet) && !e.packet.established
    && (RoleIn(y, e.packet.nonce) == Some(Alice1) || RoleIn(y, e.packet.nonce) == Some(Alice2))
  }

  /** Only Bob answered so far: the same on an established session, before Charlie was heard of. */
  predicate FromBob(y: Router, e: Event) {
    e.Arrives? && Supported(e.packet) && e.packet.established && RoleIn(y, e.packet.nonce) == Some(Alice1)
  }

  /** Somewhere in the run, at that moment. */
  predicate Sometime(y: Router, run: seq<Event>, what: (Router, Event) -> bool)
    decreases |run|
  {
    run != [] && (what(y, run[0]) || Sometime(Step(y, run[0]), run[1..], what))
  }

  /** One event moves the status to OK exactly if it comes from Charlie, and from Testing to Firewalled exactly if from Bob. */
  lemma StatusMoves(y: Router, e: Event)
    ensures Step(y, e).status ==
            if FromCharlie(y, e) then OK else if y.status == Testing && FromBob(y, e) then Firewalled else y.status
  {
  }

  /**
   Over every run of packets, new tests and cleanups, the router ends OK exactly if it was or Charlie was heard at some
   moment; otherwise it ends Firewalled exactly if it was, or was Testing and Bob was heard.
   */
  lemma {:induction false} RunStatus(y: Router, run: seq<Event>)
    ensures var charlie := Sometime(y, run, FromCharlie);
            var bob := Sometime(y, run, FromBob);
            Run(y, run).status ==
            if y.status == OK || charlie then OK
            else if y.status == Testing && bob then Firewalled
            else y.status
    decreases |run|
  {
    if run != [] {
      StatusMoves(y, run[0]);
      RunStatus(Step(y, run[0]), run[1..]);
    }
  }

  /** A session is used only if it is established: the one the packet came on, the one to Charlie, or Alice's. */
  lemma OverEstablished(y: Router, p: Packet, ts: nat, o: Out)
    requires o in ProcessPeerTest(y, p, ts).sent && !o.Direct?
    ensures (o.via == p.session && p.established) || Some(o.via) == p.charlie
            || (p.aliceThere && p.nonce in y.tests && y.tests[p.nonce].session == Some(o.via))
  {
  }

  /** What comes after a start and before anything else about its nonce. */
  predicate Elsewhere(run: seq<Event>, nonce: Nonce) {
    forall e :: e in run ==> (e.Arrives? ==> e.packet.nonce != nonce) && (e.Starts? ==> e.nonce != nonce)
  }

  lemma {:induction false} OnlySwept(y: Router, run: seq<Event>, nonce: Nonce)
    requires Elsewhere(run, nonce) && nonce in y.tests
    ensures nonce in Run(y, run).tests ==> Run(y, run).tests[nonce] == y.tests[nonce]
    ensures nonce in Run(y, run).tests <==> forall e :: e in run && e.Cleanup? ==> e.ts <= y.tests[nonce].created + 60000
    decreases |run|
  {
    if run != [] {
      var e, y1, rest := run[0], Step(y, run[0]), run[1..];
      assert e in run && run == [e] + rest;
      assert Elsewhere(rest, nonce);
      if nonce in y1.tests {
        OnlySwept(y1, rest, nonce);
      } else {
        StaysAway(y1, rest, nonce);
      }
    }
  }

  lemma {:induction false} StaysAway(y: Router, run: seq<Event>, nonce: Nonce)
    requires Elsewhere(run, nonce) && nonce !in y.tests
    ensures nonce !in Run(y, run).tests
    decreases |run|
  {
    if run != [] {
      assert run[0] in run && run == [run[0]] + run[1..];
      assert Elsewhere(run[1..], nonce);
      StaysAway(Step(y, run[0]), run[1..], nonce);
    }
  }

  /**
   A test of ours that nothing was heard of is given up by the first sweep more than 60 s after its start, and by no
   other; once it is, a packet from Charlie changes nothing.
   */
  lemma GivenUpAfterAMinute(y: Router, nonce: Nonce, start: nat, run: seq<Event>, p: Packet, ts: nat)
    requires Elsewhere(run, nonce) && p.nonce == nonce && !p.established
    ensures var r := Run(Step(y, Starts(nonce, start)), run);
            var late := exists e :: e in run && e.Cleanup? && e.ts > start + 60000;
            Step(r, Arrives(p, ts)).status == if late || !Supported(p) then r.status else OK
  {
    OnlySwept(Step(y, Starts(nonce, start)), run, nonce);
  }

  // ---------------------------------------------------------------- order does not matter

  /** The verdict read off the packets and the tests under way when the first one arrived, regardless of order. */
  ghost function Verdict(y: Router, run: seq<Event>): Status {
    if y.status == OK || (exists e :: e in run && FromCharlie(y, e)) then OK
    else if y.status == Testing && (exists e :: e in run && FromBob(y, e)) then Firewalled
    else y.status
  }

  ghost predicate OnlyPackets(run: seq<Event>) {
    forall e :: e in run ==> e.Arrives?
  }

  /** Short of hearing Charlie, packets do not change whose tests are ours. */
  lemma OursStayOurs(y: Router, e: Event, e': Event)
    requires e.Arrives? && e'.Arrives? && !FromCharlie(y, e)
    ensures var y' := Step(y, e); (FromCharlie(y, e') <==> FromCharlie(y', e')) && (FromBob(y, e') <==> FromBob(y', e'))
  {
  }

  lemma {:induction false} PacketsDecide(y: Router, run: seq<Event>)
    requires OnlyPackets(run)
    ensures Run(y, run).status == Verdict(y, run)
    decreases |run|
  {
    if run != [] {
      var e, y1, rest := run[0], Step(y, run[0]), run[1..];
      assert e in run && run == [e] + rest;
      StatusMoves(y, e);
      assert OnlyPackets(rest);
      PacketsDecide(y1, rest);
      if !FromCharlie(y, e) {
        forall e' | e' in rest
          ensures (FromCharlie(y, e') <==> FromCharlie(y1, e')) && (FromBob(y, e') <==> FromBob(y1, e'))
        {
          OursStayOurs(y, e, e');
        }
      }
    }
  }

  /** Any two ways in which the same packets arrive, in any order and any number of times, lead to the same status. */
  lemma OrderIndependent(y: Router, run: seq<Event>, run': seq<Event>)
    requires OnlyPackets(run) && OnlyPackets(run') && forall e :: e in run <==> e in run'
    ensures Run(y, run).status == Run(y, run').status
  {
    PacketsDecide(y, run);
    PacketsDecide(y, run');
    assert (exists e :: e in run && FromCharlie(y, e)) <==> (exists e :: e in run' && FromCharlie(y, e));
    assert (exists e :: e in run && FromBob(y, e)) <==> (exists e :: e in run' && FromBob(y, e));
  }

  // ---------------------------------------------------------------- the server

  class SSUServer {
    var status: Status
    var peerTests: map<Nonce, Test>

    ghost function View(): Router
      reads this
    {
      Router(status, peerTests)
    }

    constructor ()
      ensures View() == Router(Testing, map[])
    {
      status, peerTests := Testing, map[];
    }

    /** Starts a test of our own over the session with Bob. */
    method SendPeerTest(session: SessionId, nonce: Nonce, introKey: seq<int>, ts: nat) returns (sent: seq<Out>)
      modifies this`peerTests
      ensures View() == Step(old(View()), Starts(nonce, ts)) && sent == [Opening(session, nonce, introKey)]
    {
      peerTests := peerTests[nonce := Test(ts, Alice1, None)];
      sent := [OverSession(session, nonce, Endpoint(0, 0), introKey)];
    }

    method ProcessPacket(p: Packet, ts: nat) returns (sent: seq<Out>)
      modifies this
      ensures Outcome(View(), sent) == ProcessPeerTest(old(View()), p, ts)
    {
      sent := [];
      if p.port != 0 && p.address == 0 {
        return;
      }
      if p.nonce in peerTests {
        match peerTests[p.nonce].role
        case Alice1 =>
          if p.established {
            if status == Testing {
              status := Firewalled;
            }
          } else {
            status := OK;
            peerTests := peerTests[p.nonce := peerTests[p.nonce].(role := Alice2)];
            sent := [Direct(p.sender, p.nonce, false, p.introKey)];
          }
        case Alice2 =>
          if !p.established {
            status := OK;
            peerTests := peerTests - {p.nonce};
          }
        case Bob =>
          var session := peerTests[p.nonce].session;
          if session.Some? && p.aliceThere {
            sent := [Same(session.value)];
          }
          peerTests := peerTests - {p.nonce};
        case Charlie =>
          sent := [Direct(p.sender, p.nonce, true, p.introKey)];
          peerTests := peerTests - {p.nonce};
      } else if p.established {
        if p.port != 0 {
          peerTests := peerTests[p.nonce := Test(ts, Charlie, None)];
          sent := [Same(p.session), Direct(Endpoint(p.address, p.port), p.nonce, true, p.introKey)];
        } else if p.charlie.Some? {
          peerTests := peerTests[p.nonce := Test(ts, Bob, Some(p.session))];
          sent := [OverSession(p.charlie.value, p.nonce, p.sender, p.introKey)];
        }
      }
    }

    method HandlePeerTestsCleanupTimer(ts: nat)
      modifies this`peerTests
      ensures View() == Step(old(View()), Cleanup(ts))
    {
      var left, kept := peerTests.Keys, peerTests;
      while left != {}
        invariant left <= peerTests.Keys
        invariant forall n :: n in kept <==>
                    n in peerTests && (n in left || ts <= peerTests[n].created + SSU_PEER_TEST_TIMEOUT * 1000)
        invariant forall n :: n in kept ==> kept[n] == peerTests[n]
        decreases |left|
      {
        var n :| n in left;
        if ts > peerTests[n].created + SSU_PEER_TEST_TIMEOUT * 1000 {
          kept := kept - {n};
        }
        left := left - {n};
      }
      peerTests := kept;
    }
  }
}
