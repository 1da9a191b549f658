/**
 Three routers and the network between them: what each one sends reaches the others over their sessions and at their
 endpoints, in any order.
 */
module PeerTestNetwork {
  import opened Wrappers
  import opened PeerTest

  datatype Who = TheAlice | TheBob | TheCharlie

  /**
   Where each router is seen at, its intro key, and the sessions: `bobAtAlice` is Alice's session with Bob, and so on.
   Alice and Charlie have no session with each other; `unknown` is the one made up for a packet from nowhere. `spare` is
   another session Alice or Charlie might have. `open` says whether Alice can be reached by those she has sent nothing to.
   */
  datatype Net = Net(
    alice: Endpoint, bob: Endpoint, charlie: Endpoint, aliceKey: seq<int>, bobKey: seq<int>, charlieKey: seq<int>,
    bobAtAlice: SessionId, aliceAtBob: SessionId, charlieAtBob: SessionId, bobAtCharlie: SessionId,
    unknown: SessionId, spare: Option<SessionId>, open: bool)

  predicate NetOk(c: Net) {
    && c.alice != c.bob && c.bob != c.charlie && c.alice != c.charlie && c.aliceAtBob != c.charlieAtBob
    && c.alice.address != 0 && c.alice.port != 0
  }

  datatype Wire = Wire(to: Who, packet: Packet)

  datatype World = World(alice: Router, bob: Router, charlie: Router, flying: seq<Wire>)

  function EndpointOf(c: Net, who: Who): Endpoint {
    match who
    case TheAlice => c.alice
    case TheBob => c.bob
    case TheCharlie => c.charlie
  }

  function KeyOf(c: Net, who: Who): seq<int> {
    match who
    case TheAlice => c.aliceKey
    case TheBob => c.bobKey
    case TheCharlie => c.charlieKey
  }

  /** The other end of a session. */
  function OtherEnd(c: Net, from: Who, via: SessionId): Option<(Who, SessionId)> {
    match from
    case TheAlice => if via == c.bobAtAlice then Some((TheBob, c.aliceAtBob)) else None
    case TheBob =>
      if via == c.aliceAtBob then Some((TheAlice, c.bobAtAlice))
      else if via == c.charlieAtBob then Some((TheCharlie, c.bobAtCharlie))
      else None
    case TheCharlie => if via == c.bobAtCharlie then Some((TheBob, c.charlieAtBob)) else None
  }

  function At(c: Net, to: Endpoint): Option<Who> {
    if to == c.alice then Some(TheAlice)
    else if to == c.bob then Some(TheBob)
    else if to == c.charlie then Some(TheCharlie)
    else None
  }

  /** Bob's other session is the one with Charlie. */
  function SpareOf(c: Net, who: Who): Option<SessionId> {
    if who.TheBob? then Some(c.charlieAtBob) else c.spare
  }

  function OnSession(c: Net, from: Who, via: SessionId, nonce: Nonce, named: Endpoint, key: seq<int>): seq<Wire> {
    var end := OtherEnd(c, from, via);
    if end.None? then []
    else
      [Wire(end.value.0, Packet(nonce, named.address, named.port, key, end.value.1, true, EndpointOf(c, from),
                                SpareOf(c, end.value.0), true))]
  }

  /**
   How what `from` sends while it looks at `p` arrives. A packet sent straight to an endpoint is encrypted with the key
   given, carries the sender's own, and can be read only by a router whose key it is.
   */
  function Carry(c: Net, from: Who, p: Packet, out: Out): seq<Wire> {
    match out
    case Same(via) => OnSession(c, from, via, p.nonce, Endpoint(p.address, p.port), p.introKey)
    case OverSession(via, nonce, named, key) => OnSession(c, from, via, nonce, named, key)
    case Direct(to, nonce, tellAddress, key) =>
      var who := At(c, to);
      if who.None? || key != KeyOf(c, who.value) || (who.value.TheAlice? && !c.open) then []
      else
        [Wire(who.value, Packet(nonce, if tellAddress then to.address else 0, to.port, KeyOf(c, from), c.unknown, false,
                                EndpointOf(c, from), SpareOf(c, who.value), true))]
  }

  function CarryAll(c: Net, from: Who, p: Packet, outs: seq<Out>): seq<Wire> {
    if outs == [] then [] else Carry(c, from, p, outs[0]) + CarryAll(c, from, p, outs[1..])
  }

  function RouterOf(w: World, who: Who): Router {
    match who
    case TheAlice => w.alice
    case TheBob => w.bob
    case TheCharlie => w.charlie
  }

  function Put(w: World, who: Who, y: Router): World {
    match who
    case TheAlice => w.(alice := y)
    case TheBob => w.(bob := y)
    case TheCharlie => w.(charlie := y)
  }

  /** Packet `i` of those under way arrives. */
  function Deliver(c: Net, w: World, i: nat, ts: nat): World
    requires i < |w.flying|
  {
    var f := w.flying[i];
    var o := ProcessPeerTest(RouterOf(w, f.to), f.packet, ts);
    Put(w, f.to, o.router).(flying := w.flying[..i] + w.flying[i + 1..] + CarryAll(c, f.to, f.packet, o.sent))
  }

  /** Alice starts a test. */
  function Begin(c: Net, a: Router, b: Router, d: Router, nonce: Nonce, ts: nat): World {
    World(PeerTest.Step(a, Starts(nonce, ts)), b, d, OnSession(c, TheAlice, c.bobAtAlice, nonce, Endpoint(0, 0), c.aliceKey))
  }

  datatype Choice = Choice(index: nat, ts: nat)

  /** Each choice names a packet that is under way. */
  predicate Possible(c: Net, w: World, run: seq<Choice>)
    decreases |run|
  {
    run == [] || (run[0].index < |w.flying| && Possible(c, Deliver(c, w, run[0].index, run[0].ts), run[1..]))
  }

  function Run(c: Net, w: World, run: seq<Choice>): World
    requires Possible(c, w, run)
    decreases |run|
  {
    if run == [] then w else Run(c, Deliver(c, w, run[0].index, run[0].ts), run[1..])
  }

  // ---------------------------------------------------------------- how a test goes

  /** A test: the network, the routers before it, its nonce, and when Alice, Bob and Charlie made their entries. */
  datatype Story = Story(c: Net, a: Router, b: Router, d: Router, nonce: Nonce, ta: nat, tb: nat, tc: nat)

  /** Nobody knows the nonce. */
  predicate StoryOk(x: Story) {
    NetOk(x.c) && x.nonce !in x.a.tests && x.nonce !in x.b.tests && x.nonce !in x.d.tests
  }

  /** The packets, named by sender and receiver. */
  function AliceToBob(x: Story): Wire {
    Wire(TheBob, Packet(x.nonce, 0, 0, x.c.aliceKey, x.c.aliceAtBob, true, x.c.alice, Some(x.c.charlieAtBob), true))
  }

  function BobToCharlie(x: Story): Wire {
    Wire(TheCharlie, Packet(x.nonce, x.c.alice.address, x.c.alice.port, x.c.aliceKey, x.c.bobAtCharlie, true, x.c.bob, x.c.spare, true))
  }

  function CharlieToBob(x: Story): Wire {
    Wire(TheBob, Packet(x.nonce, x.c.alice.address, x.c.alice.port, x.c.aliceKey, x.c.charlieAtBob, true, x.c.charlie,
                        Some(x.c.charlieAtBob), true))
  }

  function CharlieToAlice(x: Story): Wire {
    Wire(TheAlice, Packet(x.nonce, x.c.alice.address, x.c.alice.port, x.c.charlieKey, x.c.unknown, false, x.c.charlie, x.c.spare, true))
  }

  function BobToAlice(x: Story): Wire {
    Wire(TheAlice, Packet(x.nonce, x.c.alice.address, x.c.alice.port, x.c.aliceKey, x.c.bobAtAlice, true, x.c.bob, x.c.spare, true))
  }

  function AliceToCharlie(x: Story): Wire {
    Wire(TheCharlie, Packet(x.nonce, 0, x.c.charlie.port, x.c.aliceKey, x.c.unknown, false, x.c.alice, x.c.spare, true))
  }

  /** Which packets have arrived, in the order in which those under way were sent. */
  datatype Stage =
    | Asked | Passed | Tried | BobTold | AliceReached | BothDone | BothDoneSwapped | ToldFirst | AnswerFirst
    | AnswerLeft | NoticeLeft | Over | Again | AllGone | Shut | NoticeOnly | ShutOut

  /** Alice while only Bob has answered, and once Charlie has reached her. */
  function Waiting(x: Story, status: Status): Router {
    Router(status, x.a.tests[x.nonce := Test(x.ta, Alice1, None)])
  }

  function Reached(x: Story): Router {
    Router(OK, x.a.tests[x.nonce := Test(x.ta, Alice2, None)])
  }

  function Notified(s: Status): Status {
    if s == Testing then Firewalled else s
  }

  function BobBusy(x: Story): Router {
    x.b.(tests := x.b.tests[x.nonce := Test(x.tb, Bob, Some(x.c.aliceAtBob))])
  }

  function CharlieBusy(x: Story): Router {
    x.d.(tests := x.d.tests[x.nonce := Test(x.tc, Charlie, None)])
  }

  function WorldAt(x: Story, g: Stage): World {
    match g
    case Asked => World(Waiting(x, x.a.status), x.b, x.d, [AliceToBob(x)])
    case Passed => World(Waiting(x, x.a.status), BobBusy(x), x.d, [BobToCharlie(x)])
    case Tried => World(Waiting(x, x.a.status), BobBusy(x), CharlieBusy(x), [CharlieToBob(x), CharlieToAlice(x)])
    case BobTold => World(Waiting(x, x.a.status), x.b, CharlieBusy(x), [CharlieToAlice(x), BobToAlice(x)])
    case AliceReached => World(Reached(x), BobBusy(x), CharlieBusy(x), [CharlieToBob(x), AliceToCharlie(x)])
    case BothDone => World(Reached(x), x.b, CharlieBusy(x), [BobToAlice(x), AliceToCharlie(x)])
    case BothDoneSwapped => World(Reached(x), x.b, CharlieBusy(x), [AliceToCharlie(x), BobToAlice(x)])
    case ToldFirst => World(Waiting(x, Notified(x.a.status)), x.b, CharlieBusy(x), [CharlieToAlice(x)])
    case AnswerFirst => World(Reached(x), BobBusy(x), CharlieBusy(x), [CharlieToBob(x)])
    case AnswerLeft => World(Reached(x), x.b, CharlieBusy(x), [AliceToCharlie(x)])
    case NoticeLeft => World(Reached(x), x.b, CharlieBusy(x), [BobToAlice(x)])
    case Over => World(Reached(x), x.b, CharlieBusy(x), [])
    case Again => World(Reached(x), x.b, x.d, [CharlieToAlice(x)])
    case AllGone => World(x.a.(status := OK), x.b, x.d, [])
    case Shut => World(Waiting(x, x.a.status), BobBusy(x), CharlieBusy(x), [CharlieToBob(x)])
    case NoticeOnly => World(Waiting(x, x.a.status), x.b, CharlieBusy(x), [BobToAlice(x)])
    case ShutOut => World(Waiting(x, Notified(x.a.status)), x.b, CharlieBusy(x), [])
  }

  lemma {:induction false} OneOut(c: Net, from: Who, p: Packet, out: Out)
    ensures CarryAll(c, from, p, [out]) == Carry(c, from, p, out)
  {
    assert [out][1..] == [];
  }

  lemma {:induction false} TwoOut(c: Net, from: Who, p: Packet, out: Out, out': Out)
    ensures CarryAll(c, from, p, [out, out']) == Carry(c, from, p, out) + Carry(c, from, p, out')
  {
    assert [out, out'][1..] == [out'];
    OneOut(c, from, p, out');
  }

  lemma {:induction false} BobPasses(x: Story)
    requires StoryOk(x)
    ensures Deliver(x.c, WorldAt(x, Asked), 0, x.tb) == WorldAt(x, Passed)
  {
    OneOut(x.c, TheBob, AliceToBob(x).packet, OverSession(x.c.charlieAtBob, x.nonce, x.c.alice, x.c.aliceKey));
  }

  lemma {:induction false} CharlieTries(x: Story)
    requires StoryOk(x)
    ensures Deliver(x.c, WorldAt(x, Passed), 0, x.tc) == WorldAt(x, if x.c.open then Tried else Shut)
  {
    var p := BobToCharlie(x).packet;
    TwoOut(x.c, TheCharlie, p, Same(x.c.bobAtCharlie), Direct(x.c.alice, x.nonce, true, x.c.aliceKey));
  }

  lemma {:induction false} BobAnswers(x: Story, g: Stage, g': Stage, ts: nat)
    requires StoryOk(x)
    requires (g == Tried && g' == BobTold) || (g == AliceReached && g' == BothDoneSwapped) || (g == AnswerFirst && g' == NoticeLeft)
             || (g == Shut && g' == NoticeOnly)
    ensures Deliver(x.c, WorldAt(x, g), 0, ts) == WorldAt(x, g')
  {
    OneOut(x.c, TheBob, CharlieToBob(x).packet, Same(x.c.aliceAtBob));
    assert BobBusy(x).tests - {x.nonce} == x.b.tests;
  }

  lemma {:induction false} AliceIsReached(x: Story, g: Stage, i: nat, g': Stage, ts: nat)
    requires StoryOk(x)
    requires (g == Tried && i == 1 && g' == AliceReached) || (g == BobTold && i == 0 && g' == BothDone)
             || (g == ToldFirst && i == 0 && g' == AnswerLeft)
    ensures Deliver(x.c, WorldAt(x, g), i, ts) == WorldAt(x, g')
  {
    OneOut(x.c, TheAlice, CharlieToAlice(x).packet, Direct(x.c.charlie, x.nonce, false, x.c.charlieKey));
  }

  /** Bob's notice is the last word only if Charlie does not get through. */
  lemma {:induction false} AliceIsTold(x: Story, g: Stage, i: nat, g': Stage, ts: nat)
    requires StoryOk(x)
    requires (g == BobTold && i == 1 && g' == ToldFirst) || (g == BothDone && i == 0 && g' == AnswerLeft)
             || (g == BothDoneSwapped && i == 1 && g' == AnswerLeft) || (g == NoticeLeft && i == 0 && g' == Over)
             || (g == NoticeOnly && i == 0 && g' == ShutOut)
    ensures Deliver(x.c, WorldAt(x, g), i, ts) == WorldAt(x, g')
  {
  }

  /** Alice's answer names Charlie's port but no address, so Charlie does not look at it. */
  lemma {:induction false} CharlieIgnores(x: Story, g: Stage, i: nat, g': Stage, ts: nat)
    requires StoryOk(x) && x.c.charlie.port != 0
    requires (g == AliceReached && i == 1 && g' == AnswerFirst) || (g == BothDone && i == 1 && g' == NoticeLeft)
             || (g == BothDoneSwapped && i == 0 && g' == NoticeLeft) || (g == AnswerLeft && i == 0 && g' == Over)
    ensures Deliver(x.c, WorldAt(x, g), i, ts) == WorldAt(x, g')
  {
  }

  /** Were the port zero, he would try her once more and be done. */
  lemma {:induction false} CharlieAnswers(x: Story, ts: nat)
    requires StoryOk(x) && x.c.open && x.c.charlie.port == 0
    ensures Deliver(x.c, WorldAt(x, AnswerLeft), 0, ts) == WorldAt(x, Again)
  {
    OneOut(x.c, TheCharlie, AliceToCharlie(x).packet, Direct(x.c.alice, x.nonce, true, x.c.aliceKey));
    assert CharlieBusy(x).tests - {x.nonce} == x.d.tests;
  }

  lemma {:induction false} AliceIsDone(x: Story, ts: nat)
    requires StoryOk(x)
    ensures Deliver(x.c, WorldAt(x, Again), 0, ts) == WorldAt(x, AllGone)
  {
    assert Reached(x).tests - {x.nonce} == x.a.tests;
  }

  // ---------------------------------------------------------------- in any order

  /** The stage after packet `i` has arrived. */
  function Then(g: Stage, i: nat): Stage {
    match g
    case Tried => if i == 0 then BobTold else AliceReached
    case BobTold => if i == 0 then BothDone else ToldFirst
    case AliceReached => if i == 0 then BothDoneSwapped else AnswerFirst
    case BothDone => if i == 0 then AnswerLeft else NoticeLeft
    case BothDoneSwapped => if i == 0 then NoticeLeft else AnswerLeft
    case ToldFirst => AnswerLeft
    case AnswerFirst => NoticeLeft
    case Shut => NoticeOnly
    case NoticeOnly => ShutOut
    case _ => Over
  }

  /** How many packets will still arrive. */
  function Left(g: Stage): nat {
    match g
    case Tried => 4
    case BobTold => 3
    case AliceReached => 3
    case BothDone => 2
    case BothDoneSwapped => 2
    case ToldFirst => 2
    case AnswerFirst => 2
    case AnswerLeft => 1
    case NoticeLeft => 1
    case Shut => 2
    case NoticeOnly => 1
    case _ => 0
  }

  lemma {:induction false} OneArrivesEarly(x: Story, g: Stage, i: nat, ts: nat)
    requires StoryOk(x) && x.c.charlie.port != 0 && (g == Tried || g == BobTold || g == AliceReached) && i < 2
    ensures Deliver(x.c, WorldAt(x, g), i, ts) == WorldAt(x, Then(g, i))
  {
    match g
    case Tried => if i == 0 { BobAnswers(x, Tried, BobTold, ts); } else { AliceIsReached(x, Tried, 1, AliceReached, ts); }
    case BobTold => if i == 0 { AliceIsReached(x, BobTold, 0, BothDone, ts); } else { AliceIsTold(x, BobTold, 1, ToldFirst, ts); }
    case AliceReached =>
      if i == 0 { BobAnswers(x, AliceReached, BothDoneSwapped, ts); } else { CharlieIgnores(x, AliceReached, 1, AnswerFirst, ts); }
  }

  lemma {:induction false} OneArrivesLate(x: Story, g: Stage, i: nat, ts: nat)
    requires StoryOk(x) && x.c.charlie.port != 0 && (g == BothDone || g == BothDoneSwapped) && i < 2
    ensures Deliver(x.c, WorldAt(x, g), i, ts) == WorldAt(x, Then(g, i))
  {
    match g
    case BothDone => if i == 0 { AliceIsTold(x, BothDone, 0, AnswerLeft, ts); } else { CharlieIgnores(x, BothDone, 1, NoticeLeft, ts); }
    case BothDoneSwapped =>
      if i == 0 { CharlieIgnores(x, BothDoneSwapped, 0, NoticeLeft, ts); } else { AliceIsTold(x, BothDoneSwapped, 1, AnswerLeft, ts); }
  }

  /** Only one packet is under way. */
  predicate Single(g: Stage) {
    g == ToldFirst || g == AnswerFirst || g == AnswerLeft || g == NoticeLeft || g == Shut || g == NoticeOnly
  }

  lemma {:induction false} OnlyOneArrives(x: Story, g: Stage, ts: nat)
    requires StoryOk(x) && x.c.charlie.port != 0 && Single(g)
    ensures Deliver(x.c, WorldAt(x, g), 0, ts) == WorldAt(x, Then(g, 0))
  {
    match g
    case ToldFirst => AliceIsReached(x, ToldFirst, 0, AnswerLeft, ts);
    case AnswerFirst => BobAnswers(x, AnswerFirst, NoticeLeft, ts);
    case AnswerLeft => CharlieIgnores(x, AnswerLeft, 0, Over, ts);
    case NoticeLeft => AliceIsTold(x, NoticeLeft, 0, Over, ts);
    case Shut => BobAnswers(x, Shut, NoticeOnly, ts);
    case NoticeOnly => AliceIsTold(x, NoticeOnly, 0, ShutOut, ts);
  }

  lemma {:induction false} InFlight(x: Story, g: Stage)
    requires Left(g) > 0
    ensures |WorldAt(x, g).flying| == if Single(g) then 1 else 2
  {
  }

  lemma {:induction false} OneArrives(x: Story, g: Stage, i: nat, ts: nat)
    requires StoryOk(x) && x.c.charlie.port != 0 && Left(g) > 0 && i < |WorldAt(x, g).flying|
    ensures Deliver(x.c, WorldAt(x, g), i, ts) == WorldAt(x, Then(g, i))
  {
    InFlight(x, g);
    if Single(g) {
      OnlyOneArrives(x, g, ts);
    } else if g == BothDone || g == BothDoneSwapped {
      OneArrivesLate(x, g, i, ts);
    } else {
      OneArrivesEarly(x, g, i, ts);
    }
  }

  /** Where it ends from stage `g`. */
  function Last(g: Stage): Stage {
    if g == Shut || g == NoticeOnly || g == ShutOut then ShutOut else Over
  }

  predicate OnTheWay(g: Stage) {
    Left(g) > 0 || g == Over || g == ShutOut
  }

  lemma {:induction false} RunOne(c: Net, w: World, run: seq<Choice>, w': World)
    requires run != [] && Possible(c, w, run) && Deliver(c, w, run[0].index, run[0].ts) == w'
    ensures Possible(c, w', run[1..]) && Run(c, w, run) == Run(c, w', run[1..])
  {
  }

  /** Each arrival leads from the world `at` one stage to that at the next, with one arrival less to come. */
  ghost predicate Staged<G(!new)>(c: Net, at: G -> World, left: G -> nat, next: (G, nat) -> G, last: G -> G) {
    && (forall g, i: nat, ts :: left(g) > 0 && i < |at(g).flying| ==>
          Deliver(c, at(g), i, ts) == at(next(g, i)) && left(next(g, i)) == left(g) - 1 && last(next(g, i)) == last(g))
    && (forall g :: at(g).flying == [] <==> left(g) == 0)
    && (forall g :: left(g) == 0 ==> last(g) == g)
  }

  /** Whatever the order, the rest arrives, and no more than that. */
  lemma {:induction false} RestArrives<G(!new)>(
      c: Net, at: G -> World, left: G -> nat, next: (G, nat) -> G, last: G -> G, g: G, run: seq<Choice>)
    requires Staged(c, at, left, next, last) && Possible(c, at(g), run)
    ensures |run| <= left(g)
    ensures |run| == left(g) ==> Run(c, at(g), run) == at(last(g))
    ensures |run| < left(g) ==> Run(c, at(g), run).flying != []
    decreases |run|
  {
    if run != [] {
      var i := run[0].index;
      RunOne(c, at(g), run, at(next(g, i)));
      RestArrives(c, at, left, next, last, next(g, i), run[1..]);
    }
  }

  /** The stages of a test whose packets can all arrive. */
  type Going = g: Stage | OnTheWay(g) witness Over

  lemma {:induction false} StagesFollow(g: Going, i: nat)
    requires Left(g) > 0
    ensures OnTheWay(Then(g, i)) && Left(Then(g, i)) == Left(g) - 1 && Last(Then(g, i)) == Last(g)
  {
  }

  lemma {:induction false} SomeLeft(x: Story, g: Going)
    ensures (WorldAt(x, g).flying == [] <==> Left(g) == 0) && (Left(g) == 0 ==> Last(g) == g)
  {
  }

  function Next(g: Going, i: nat): Going {
    if OnTheWay(Then(g, i)) then Then(g, i) else g
  }

  lemma {:induction false} StoryIsStaged(x: Story)
    requires StoryOk(x) && x.c.charlie.port != 0
    ensures Staged<Going>(x.c, (g: Going) => WorldAt(x, g), (g: Going) => Left(g), (g: Going, i: nat) => Next(g, i), (g: Going) => LastGoing(g))
  {
    forall g: Going, i: nat, ts | Left(g) > 0 && i < |WorldAt(x, g).flying|
      ensures Deliver(x.c, WorldAt(x, g), i, ts) == WorldAt(x, Next(g, i)) && Left(Next(g, i)) == Left(g) - 1
      ensures LastGoing(Next(g, i)) == LastGoing(g)
    {
      OneArrives(x, g, i, ts);
      StagesFollow(g, i);
    }
    forall g: Going ensures (WorldAt(x, g).flying == [] <==> Left(g) == 0) && (Left(g) == 0 ==> LastGoing(g) == g) {
      SomeLeft(x, g);
    }
  }

  function LastGoing(g: Going): Going {
    Last(g)
  }

  lemma {:induction false} Starting(x: Story)
    requires StoryOk(x)
    ensures Begin(x.c, x.a, x.b, x.d, x.nonce, x.ta) == WorldAt(x, Asked)
  {
  }

  /**
   How it ends: nothing is under way; Alice is OK if she can be reached, and otherwise Firewalled unless she had another
   status; Bob has forgotten the test; Charlie has not.
   */
  predicate Ended(c: Net, a: Router, b: Router, d: Router, nonce: Nonce, w: World) {
    && w.flying == [] && w.bob == b
    && w.alice.status == (if c.open then OK else if a.status == Testing then Firewalled else a.status)
    && nonce in w.charlie.tests && w.charlie.tests - {nonce} == d.tests && w.alice.tests - {nonce} == a.tests
  }

  /** Two arrivals pass the test to Charlie. */
  lemma {:induction false} FirstTwo(x: Story, run: seq<Choice>)
    requires StoryOk(x) && Possible(x.c, WorldAt(x, Asked), run)
    requires (|run| > 0 ==> run[0].ts == x.tb) && (|run| > 1 ==> run[1].ts == x.tc)
    ensures |run| < 2 ==> Run(x.c, WorldAt(x, Asked), run).flying != []
    ensures |run| >= 2 ==>
              var w := WorldAt(x, if x.c.open then Tried else Shut);
              Possible(x.c, w, run[2..]) && Run(x.c, WorldAt(x, Asked), run) == Run(x.c, w, run[2..])
  {
    BobPasses(x);
    CharlieTries(x);
    if run != [] {
      RunOne(x.c, WorldAt(x, Asked), run, WorldAt(x, Passed));
      if |run| > 1 {
        RunOne(x.c, WorldAt(x, Passed), run[1..], WorldAt(x, if x.c.open then Tried else Shut));
        assert run[1..][1..] == run[2..];
      }
    }
  }

  lemma {:induction false} StoryEnds(x: Story)
    requires StoryOk(x)
    ensures Ended(x.c, x.a, x.b, x.d, x.nonce, WorldAt(x, if x.c.open then Over else ShutOut))
  {
    Forgotten(x);
  }

  lemma {:induction false} StoryRuns(x: Story, run: seq<Choice>)
    requires StoryOk(x) && x.c.charlie.port != 0 && Possible(x.c, WorldAt(x, Asked), run)
    requires (|run| > 0 ==> run[0].ts == x.tb) && (|run| > 1 ==> run[1].ts == x.tc)
    ensures var n, w := if x.c.open then 6 else 4, Run(x.c, WorldAt(x, Asked), run);
            |run| <= n && (|run| < n ==> w.flying != []) && (|run| == n ==> w == WorldAt(x, if x.c.open then Over else ShutOut))
  {
    FirstTwo(x, run);
    if |run| >= 2 {
      StoryGoesOn(x, if x.c.open then Tried else Shut, run[2..]);
    }
  }

  lemma {:induction false} StoryGoesOn(x: Story, g: Stage, run: seq<Choice>)
    requires StoryOk(x) && x.c.charlie.port != 0 && Possible(x.c, WorldAt(x, g), run) && Left(g) > 0
    ensures |run| <= Left(g) && (|run| < Left(g) ==> Run(x.c, WorldAt(x, g), run).flying != [])
    ensures |run| == Left(g) ==> Run(x.c, WorldAt(x, g), run) == WorldAt(x, Last(g))
  {
    StoryIsStaged(x);
    RestArrives<Going>(x.c, (g: Going) => WorldAt(x, g), (g: Going) => Left(g), (g: Going, i: nat) => Next(g, i),
                (g: Going) => LastGoing(g), g, run);
  }

  /**
   A test among three routers none of which knows its nonce, for every order in which what they send, and only that,
   arrives: it ends after six arrivals, or four if Alice cannot be reached, and not before.
   */
  lemma {:induction false} EveryOrder(c: Net, a: Router, b: Router, d: Router, nonce: Nonce, ts: nat, run: seq<Choice>)
    requires NetOk(c) && c.charlie.port != 0 && nonce !in a.tests && nonce !in b.tests && nonce !in d.tests
    requires Possible(c, Begin(c, a, b, d, nonce, ts), run)
    ensures var n := if c.open then 6 else 4;
            var w := Run(c, Begin(c, a, b, d, nonce, ts), run);
            |run| <= n && (|run| < n ==> w.flying != []) && (|run| == n ==> Ended(c, a, b, d, nonce, w))
  {
    var x := Story(c, a, b, d, nonce, ts, if |run| > 0 then run[0].ts else 0, if |run| > 1 then run[1].ts else 0);
    Starting(x);
    StoryRuns(x, run);
    StoryEnds(x);
  }

  lemma {:induction false} Forgotten(x: Story)
    requires StoryOk(x)
    ensures CharlieBusy(x).tests - {x.nonce} == x.d.tests && Reached(x).tests - {x.nonce} == x.a.tests
    ensures forall s :: Waiting(x, s).tests - {x.nonce} == x.a.tests
  {
  }

  // ---------------------------------------------------------------- in the order sent

  /** What was sent first arrives first, as long as something is under way. */
  function InOrder(c: Net, w: World, times: seq<nat>): World
    decreases |times|
  {
    if times == [] || w.flying == [] then w else InOrder(c, Deliver(c, w, 0, times[0]), times[1..])
  }

  lemma {:induction false} FirstOf(c: Net, w: World, times: seq<nat>, w': World)
    requires times != [] && w.flying != [] && Deliver(c, w, 0, times[0]) == w'
    ensures InOrder(c, w, times) == InOrder(c, w', times[1..])
  {
  }

  lemma {:induction false} ToTried(x: Story, times: seq<nat>)
    requires StoryOk(x) && x.c.open && |times| == 7 && times[0] == x.tb && times[1] == x.tc
    ensures InOrder(x.c, WorldAt(x, Asked), times) == InOrder(x.c, WorldAt(x, Tried), times[2..])
  {
    BobPasses(x);
    FirstOf(x.c, WorldAt(x, Asked), times, WorldAt(x, Passed));
    CharlieTries(x);
    FirstOf(x.c, WorldAt(x, Passed), times[1..], WorldAt(x, Tried));
    assert times[1..][1..] == times[2..];
  }

  lemma {:induction false} ToAnswer(x: Story, times: seq<nat>)
    requires StoryOk(x) && x.c.open && |times| == 5
    ensures InOrder(x.c, WorldAt(x, Tried), times) == InOrder(x.c, WorldAt(x, AnswerLeft), times[3..])
  {
    BobAnswers(x, Tried, BobTold, times[0]);
    FirstOf(x.c, WorldAt(x, Tried), times, WorldAt(x, BobTold));
    AliceIsReached(x, BobTold, 0, BothDone, times[1]);
    FirstOf(x.c, WorldAt(x, BobTold), times[1..], WorldAt(x, BothDone));
    AliceIsTold(x, BothDone, 0, AnswerLeft, times[2]);
    assert times[1..][1..] == times[2..] && times[2..][1..] == times[3..];
    FirstOf(x.c, WorldAt(x, BothDone), times[2..], WorldAt(x, AnswerLeft));
  }

  lemma {:induction false} FromAnswer(x: Story, times: seq<nat>)
    requires StoryOk(x) && x.c.open && |times| == 2
    ensures InOrder(x.c, WorldAt(x, AnswerLeft), times) == WorldAt(x, if x.c.charlie.port == 0 then AllGone else Over)
  {
    if x.c.charlie.port == 0 {
      CharlieAnswers(x, times[0]);
      FirstOf(x.c, WorldAt(x, AnswerLeft), times, WorldAt(x, Again));
      AliceIsDone(x, times[1]);
      FirstOf(x.c, WorldAt(x, Again), times[1..], WorldAt(x, AllGone));
    } else {
      CharlieIgnores(x, AnswerLeft, 0, Over, times[0]);
      FirstOf(x.c, WorldAt(x, AnswerLeft), times, WorldAt(x, Over));
    }
  }

  /**
   In the order sent, Charlie too forgets the test if and only if Alice's answer names port zero: a port without an
   address is refused, and Alice sends no address.
   */
  lemma {:induction false} CharlieForgetsExactly(c: Net, a: Router, b: Router, d: Router, nonce: Nonce, ts: nat, times: seq<nat>)
    requires NetOk(c) && c.open && nonce !in a.tests && nonce !in b.tests && nonce !in d.tests && |times| == 7
    ensures var w := InOrder(c, Begin(c, a, b, d, nonce, ts), times);
            && w.flying == [] && w.alice.status == OK && nonce !in w.bob.tests
            && (nonce !in w.charlie.tests <==> c.charlie.port == 0)
  {
    var x := Story(c, a, b, d, nonce, ts, times[0], times[1]);
    Starting(x);
    StoryInOrder(x, times);
    StoryForgets(x);
  }

  lemma {:induction false} StoryInOrder(x: Story, times: seq<nat>)
    requires StoryOk(x) && x.c.open && |times| == 7 && times[0] == x.tb && times[1] == x.tc
    ensures InOrder(x.c, WorldAt(x, Asked), times) == WorldAt(x, if x.c.charlie.port == 0 then AllGone else Over)
  {
    ToTried(x, times);
    ToAnswer(x, times[2..]);
    assert times[2..][3..] == times[5..];
    FromAnswer(x, times[5..]);
  }

  lemma {:induction false} StoryForgets(x: Story)
    requires StoryOk(x)
    ensures var w := WorldAt(x, if x.c.charlie.port == 0 then AllGone else Over);
            && w.flying == [] && w.alice.status == OK && x.nonce !in w.bob.tests
            && (x.nonce !in w.charlie.tests <==> x.c.charlie.port == 0)
  {
  }
}
