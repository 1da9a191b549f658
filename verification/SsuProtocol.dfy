/**
 Fragmentation and reassembly over a network that loses, repeats and reorders fragments of many messages,
 with cleanup ticks in between: what is handed on is what was sent, and once at a time.
 */
module SsuProtocol {
  import opened Wrappers
  import opened Bytes
  import opened SsuSpec

  datatype Outgoing = Outgoing(msg: Message, frags: seq<seq<byte>>)

  datatype System = System(sent: map<MsgID, Outgoing>, rcv: Receiver)

  datatype Action =
    | Post(msg: Message, size: nat)
    | Arrive(id: MsgID, n: nat, ts: nat)
    | CleanupTick(ts: nat)
    | DecayTick

  function Start(established: bool): System {
    System(map[], Receiver(established, map[], {}, 0, [], []))
  }

  /** The room for a message behind the place of its long header, in the largest buffer. */
  const MESSAGE_ROOM: nat := I2NP_MAX_MESSAGE_SIZE + 16 - 13

  /** Numbers and times fit their fields, the message its buffer, and there are at most 128 fragments. */
  predicate Postable(m: Message, size: nat) {
    && m.id < Pow(256, 4) && m.expiration / 1000 < Pow(256, 4)
    && 0 < size < 1456 && |Chop(ShortForm(m), size)| <= 128 && |ShortForm(m)| <= MESSAGE_ROOM
  }

  /** A fragment may arrive any number of times once its message has been posted. */
  predicate Allowed(y: System, a: Action) {
    match a
    case Post(m, size) => m.id !in y.sent && Postable(m, size)
    case Arrive(id, n, ts) => id in y.sent && n < |y.sent[id].frags|
    case CleanupTick(ts) => true
    case DecayTick => true
  }

  function Piece(id: MsgID, frags: seq<seq<byte>>, n: nat): Fragment
    requires n < |frags|
  {
    Fragment(id, n, n == |frags| - 1, frags[n])
  }

  function Step(y: System, a: Action): System
    requires Allowed(y, a)
  {
    match a
    case Post(m, size) => y.(sent := y.sent[m.id := Outgoing(m, Chop(ShortForm(m), size))])
    case Arrive(id, n, ts) => y.(rcv := HandleFragment(y.rcv, Piece(id, y.sent[id].frags, n), ts))
    case CleanupTick(ts) => y.(rcv := Cleanup(y.rcv, ts))
    case DecayTick => y.(rcv := Decay(y.rcv))
  }

  predicate AllowedRun(y: System, run: seq<Action>)
    decreases |run|
  {
    run == [] || (Allowed(y, run[0]) && AllowedRun(Step(y, run[0]), run[1..]))
  }

  function Run(y: System, run: seq<Action>): System
    requires AllowedRun(y, run)
    decreases |run|
  {
    if run == [] then y else Run(Step(y, run[0]), run[1..])
  }

  // ---------------------------------------------------------------- one message

  /** The first fragments are together, and what is saved are fragments further on. */
  ghost predicate Consistent(frags: seq<seq<byte>>, inc: Incomplete) {
    && inc.next <= |frags| && inc.data == Flatten(frags[..inc.next])
    && forall n :: n in inc.saved ==> inc.next <= n < |frags| && inc.saved[n] == Saved(frags[n], n == |frags| - 1)
  }

  /** Some fragment is still missing, the next one for a start. */
  ghost predicate Partial(frags: seq<seq<byte>>, inc: Incomplete) {
    Consistent(frags, inc) && inc.next < |frags| && inc.next !in inc.saved
  }

  predicate Has(inc: Incomplete, n: nat) {
    n < inc.next || n in inc.saved
  }

  lemma AttachOk(frags: seq<seq<byte>>, inc: Incomplete)
    requires Consistent(frags, inc) && inc.next < |frags|
    ensures Consistent(frags, Attach(inc.(saved := inc.saved - {inc.next}), frags[inc.next]))
  {
    var n := inc.next;
    assert frags[..n + 1] == frags[..n] + [frags[n]];
    FlattenAppend(frags[..n], [frags[n]]);
    assert Flatten([frags[n]]) == frags[n] + [] == frags[n];
  }

  /** Adding saved fragments either completes the message or stops at a gap, and forgets no fragment. */
  lemma {:induction false} AttachSavedOk(frags: seq<seq<byte>>, inc: Incomplete, last: bool)
    requires Consistent(frags, inc) && last == (inc.next == |frags|)
    ensures var a := AttachSaved(inc, last);
            && Consistent(frags, a.inc) && a.last == (a.inc.next == |frags|) && (a.last || Partial(frags, a.inc))
            && (forall n :: Has(a.inc, n) <==> Has(inc, n))
            && a.inc.lastInsert == inc.lastInsert
    decreases inc.saved
  {
    if inc.next in inc.saved {
      var f := inc.saved[inc.next];
      var inc1 := Attach(inc.(saved := inc.saved - {inc.next}), f.bytes);
      AttachOk(frags, inc);
      SmallerMap(inc.saved, inc.next);
      AttachSavedOk(frags, inc1, f.last);
      forall n ensures Has(inc1, n) <==> Has(inc, n) {
      }
    }
  }

  lemma ExpectedOk(id: MsgID, frags: seq<seq<byte>>, inc: Incomplete)
    requires Partial(frags, inc)
    ensures var a := Expected(inc, Piece(id, frags, inc.next));
            && Consistent(frags, a.inc) && a.last == (a.inc.next == |frags|) && (a.last || Partial(frags, a.inc))
            && (forall n :: Has(a.inc, n) <==> Has(inc, n) || n == inc.next)
  {
    var inc1 := Attach(inc, frags[inc.next]);
    assert inc.saved - {inc.next} == inc.saved;
    AttachOk(frags, inc);
    if inc.next < |frags| - 1 {
      AttachSavedOk(frags, inc1, false);
    }
    assert forall n :: Has(inc1, n) <==> Has(inc, n) || n == inc.next;
  }

  lemma EarlyOk(id: MsgID, frags: seq<seq<byte>>, inc: Incomplete, n: nat, ts: nat)
    requires Partial(frags, inc) && inc.next < n < |frags|
    ensures var e := Early(inc, Piece(id, frags, n), ts);
            Partial(frags, e) && forall k :: Has(e, k) <==> Has(inc, k) || k == n
  {
  }

  // ---------------------------------------------------------------- the invariant

  ghost predicate HandedOn(y: Receiver, id: MsgID) {
    exists d :: d in y.delivered && d.msg.id == id && d.epoch == y.epoch
  }

  ghost predicate OutgoingOk(id: MsgID, o: Outgoing) {
    && o.msg.id == id < Pow(256, 4) && o.msg.expiration / 1000 < Pow(256, 4) && 0 < |o.frags| <= 128
    && Flatten(o.frags) == ShortForm(o.msg) && |ShortForm(o.msg)| <= MESSAGE_ROOM
    && forall n :: 0 <= n < |o.frags| ==> 0 < |o.frags[n]| < 1456
  }

  ghost predicate DeliveriesOk(y: System) {
    && (forall d :: d in y.rcv.delivered ==>
          d.msg.id in y.sent && d.msg == Rounded(y.sent[d.msg.id].msg) && d.epoch <= y.rcv.epoch)
    && (forall d :: d in y.rcv.delivered && d.epoch == y.rcv.epoch ==> d.msg.id in y.rcv.received)
    && (forall i, j :: 0 <= i < j < |y.rcv.delivered| && y.rcv.delivered[i].msg.id == y.rcv.delivered[j].msg.id ==>
          y.rcv.delivered[i].epoch != y.rcv.delivered[j].epoch)
    && (forall id :: id in y.rcv.received ==> HandedOn(y.rcv, id))
  }

  ghost predicate Inv(y: System) {
    && (forall id :: id in y.sent ==> OutgoingOk(id, y.sent[id]))
    && (forall id :: id in y.rcv.incomplete ==> id in y.sent && Partial(y.sent[id].frags, y.rcv.incomplete[id]))
    && DeliveriesOk(y)
  }

  lemma LookupOk(y: System, id: MsgID)
    requires Inv(y) && id in y.sent
    ensures Partial(y.sent[id].frags, Lookup(y.rcv, id))
  {
    assert OutgoingOk(id, y.sent[id]);
    assert y.sent[id].frags[..0] == [];
  }

  /** A complete message is the one posted, and it is handed on unless it was already. */
  lemma CompleteOk(y: System, id: MsgID)
    requires Inv(y) && id in y.sent
    ensures var y' := y.(rcv := Complete(y.rcv, id, Flatten(y.sent[id].frags)));
            && Inv(y') && y'.rcv.acked == y.rcv.acked + [id] && id !in y'.rcv.incomplete
            && (y.rcv.established ==> y'.rcv.established && HandedOn(y'.rcv, id))
            && y.rcv.delivered <= y'.rcv.delivered
  {
    var m, r := y.sent[id].msg, y.rcv;
    assert OutgoingOk(id, y.sent[id]);
    ShortFormRoundTrip(m);
    var r' := Complete(r, id, ShortForm(m));
    var y' := y.(rcv := r');
    if r.established && id !in r.received {
      var full := |r.received| > MAX_NUM_RECEIVED_MESSAGES;
      Deliver(y, id, full);
      assert r' == Handed(y, id, full).(incomplete := r.incomplete - {id}, acked := r.acked + [id]);
      SameDeliveries(y.(rcv := Handed(y, id, full)), y');
      assert r'.delivered[|r.delivered|] in r'.delivered;
    } else {
      SameDeliveries(y, y');
    }
  }

  /** Handing on a message: the new list of received messages and deliveries. */
  ghost function Handed(y: System, id: MsgID, full: bool): Receiver
    requires id in y.sent
  {
    var epoch := if full then y.rcv.epoch + 1 else y.rcv.epoch;
    y.rcv.(received := (if full then {} else y.rcv.received) + {id}, epoch := epoch,
           delivered := y.rcv.delivered + [Delivery(Rounded(y.sent[id].msg), epoch)])
  }

  lemma Deliver(y: System, id: MsgID, full: bool)
    requires Inv(y) && id in y.sent && id !in y.rcv.received
    ensures DeliveriesOk(y.(rcv := Handed(y, id, full)))
  {
    assert OutgoingOk(id, y.sent[id]);
    var r, r' := y.rcv, Handed(y, id, full);
    var last := r'.delivered[|r.delivered|];
    forall i | 0 <= i < |r.delivered| && r.delivered[i].msg.id == id ensures r.delivered[i].epoch != r'.epoch {
      assert r.delivered[i] in r.delivered;
    }
    forall k | k in r'.received ensures HandedOn(r', k) {
      if k == id {
        assert last in r'.delivered && last.msg.id == k && last.epoch == r'.epoch;
      } else {
        assert HandedOn(r, k);
        var d :| d in r.delivered && d.msg.id == k && d.epoch == r.epoch;
        assert d in r'.delivered;
      }
    }
  }

  lemma SameDeliveries(y: System, y': System)
    requires DeliveriesOk(y) && y.sent == y'.sent
    requires y.rcv.delivered == y'.rcv.delivered && y.rcv.received == y'.rcv.received && y.rcv.epoch == y'.rcv.epoch
    ensures DeliveriesOk(y')
    ensures forall id :: HandedOn(y.rcv, id) <==> HandedOn(y'.rcv, id)
  {
    forall id ensures HandedOn(y.rcv, id) <==> HandedOn(y'.rcv, id) {
    }
  }

  /** Putting a consistent partial message back keeps everything else. */
  lemma UpdateOk(y: System, id: MsgID, inc: Incomplete)
    requires Inv(y) && id in y.sent && Partial(y.sent[id].frags, inc)
    ensures Inv(y.(rcv := y.rcv.(incomplete := y.rcv.incomplete[id := inc])))
  {
    SameDeliveries(y, y.(rcv := y.rcv.(incomplete := y.rcv.incomplete[id := inc])));
  }

  lemma ArriveOk(y: System, id: MsgID, n: nat, ts: nat)
    requires Inv(y) && Allowed(y, Arrive(id, n, ts))
    ensures Inv(Step(y, Arrive(id, n, ts)))
  {
    var frags, inc := y.sent[id].frags, Lookup(y.rcv, id);
    var f := Piece(id, frags, n);
    LookupOk(y, id);
    if n == inc.next {
      ExpectedOk(id, frags, inc);
      var a := Expected(inc, f);
      if a.last {
        assert frags[..|frags|] == frags;
        CompleteOk(y, id);
      } else {
        UpdateOk(y, id, a.inc);
      }
    } else if n < inc.next {
      UpdateOk(y, id, inc);
    } else {
      EarlyOk(id, frags, inc, n, ts);
      UpdateOk(y, id, Early(inc, f, ts));
    }
  }

  lemma PostOk(y: System, m: Message, size: nat)
    requires Inv(y) && Allowed(y, Post(m, size))
    ensures Inv(Step(y, Post(m, size)))
  {
    var s, y' := ShortForm(m), Step(y, Post(m, size));
    ChopFlattens(s, size);
    forall n | 0 <= n < |Chop(s, size)| ensures 0 < |Chop(s, size)[n]| <= size {
      ChopSizes(s, size, n);
    }
    forall id | id in y'.rcv.received ensures HandedOn(y'.rcv, id) {
      assert HandedOn(y.rcv, id);
    }
  }

  lemma DecayOk(y: System)
    requires Inv(y)
    ensures Inv(y.(rcv := Decay(y.rcv)))
  {
    var y' := y.(rcv := Decay(y.rcv));
    forall d | d in y'.rcv.delivered ensures d.epoch < y'.rcv.epoch {
    }
  }

  lemma StepOk(y: System, a: Action)
    requires Inv(y) && Allowed(y, a)
    ensures Inv(Step(y, a))
  {
    match a
    case Post(m, size) => PostOk(y, m, size);
    case Arrive(id, n, ts) => ArriveOk(y, id, n, ts);
    case CleanupTick(ts) => SameDeliveries(y, Step(y, a));
    case DecayTick => DecayOk(y);
  }

  lemma {:induction false} RunOk(y: System, run: seq<Action>)
    requires Inv(y) && AllowedRun(y, run)
    ensures Inv(Run(y, run))
    decreases |run|
  {
    if run != [] {
      StepOk(y, run[0]);
      RunOk(Step(y, run[0]), run[1..]);
    }
  }

  // ---------------------------------------------------------------- main results

  /** Whatever the network does, every message handed on is one that was posted, up to the milliseconds of its expiration. */
  lemma DeliveredWasSent(established: bool, run: seq<Action>, d: Delivery)
    requires AllowedRun(Start(established), run) && d in Run(Start(established), run).rcv.delivered
    ensures var y := Run(Start(established), run); d.msg.id in y.sent && d.msg == Rounded(y.sent[d.msg.id].msg)
  {
    RunOk(Start(established), run);
  }

  /** Between two clears of the list of received messages, no message is handed on twice. */
  lemma HandedOnOnce(established: bool, run: seq<Action>, i: nat, j: nat)
    requires AllowedRun(Start(established), run)
    requires var r := Run(Start(established), run).rcv;
             i < j < |r.delivered| && r.delivered[i].msg.id == r.delivered[j].msg.id
    ensures var r := Run(Start(established), run).rcv; r.delivered[i].epoch != r.delivered[j].epoch
  {
    RunOk(Start(established), run);
  }

  // ---------------------------------------------------------------- packets and buffers

  /** Taking a fragment is taking the packet the sender made of it, whatever padding follows. */
  lemma ArriveIsPacket(y: System, id: MsgID, n: nat, ts: nat, padding: seq<byte>)
    requires Inv(y) && Allowed(y, Arrive(id, n, ts))
    ensures var frags := y.sent[id].frags;
            var packet := EncodeFragment(id, n, n == |frags| - 1, frags[n]) + padding;
            Step(y, Arrive(id, n, ts)).rcv == HandleFragments(y.rcv, PacketFragments(packet), ts)
  {
    var frags := y.sent[id].frags;
    assert OutgoingOk(id, y.sent[id]);
    var f := Piece(id, frags, n);
    FragmentRoundTrip(id, n, f.last, f.bytes, padding);
    assert [f][1..] == [];
    assert HandleFragments(y.rcv, [f], ts) == HandleFragments(HandleFragment(y.rcv, f, ts), [], ts);
  }

  lemma {:induction false} PrefixSize(frags: seq<seq<byte>>, k: nat)
    requires k <= |frags|
    ensures |Flatten(frags[..k])| <= |Flatten(frags)|
  {
    FlattenAppend(frags[..k], frags[k..]);
    assert frags == frags[..k] + frags[k..];
  }

  /** Over every run, what is put together fits the largest buffer, and so does any next fragment of it. */
  lemma NeverOverruns(established: bool, run: seq<Action>, id: MsgID)
    requires AllowedRun(Start(established), run) && id in Run(Start(established), run).rcv.incomplete
    ensures var y := Run(Start(established), run);
            var inc := y.rcv.incomplete[id];
            && id in y.sent && inc.next < |y.sent[id].frags|
            && 13 + |inc.data| + |y.sent[id].frags[inc.next]| <= I2NP_MAX_MESSAGE_SIZE + 16
  {
    RunOk(Start(established), run);
    var y := Run(Start(established), run);
    var inc, frags := y.rcv.incomplete[id], y.sent[id].frags;
    assert OutgoingOk(id, y.sent[id]);
    assert frags[..inc.next + 1] == frags[..inc.next] + [frags[inc.next]];
    FlattenAppend(frags[..inc.next], [frags[inc.next]]);
    assert Flatten([frags[inc.next]]) == frags[inc.next] + [];
    PrefixSize(frags, inc.next + 1);
  }

  // ---------------------------------------------------------------- completion

  predicate Arrives(run: seq<Action>, id: MsgID, n: nat) {
    run != [] && ((run[0].Arrive? && run[0].id == id && run[0].n == n) || Arrives(run[1..], id, n))
  }

  /** The message `id` was completed at some point after `y`. */
  predicate CompletedSince(y: Receiver, y': Receiver, id: MsgID) {
    |y.acked| <= |y'.acked| && id in y'.acked[|y.acked|..]
  }

  ghost predicate EverDelivered(y: Receiver, id: MsgID) {
    exists d :: d in y.delivered && d.msg.id == id
  }

  /** What never shrinks. */
  ghost predicate Grows(y: Receiver, y': Receiver) {
    y.acked <= y'.acked && y.delivered <= y'.delivered && (y.established ==> y'.established)
  }

  /** A step either completes the message, or keeps its fragments and adds the one that arrived. */
  lemma StepProgress(y: System, a: Action, id: MsgID)
    requires Inv(y) && Allowed(y, a) && !a.CleanupTick? && id in y.sent
    ensures var y' := Step(y, a);
            && Grows(y.rcv, y'.rcv) && id in y'.sent && y'.sent[id] == y.sent[id]
            && (|| (CompletedSince(y.rcv, y'.rcv, id) && (y.rcv.established ==> EverDelivered(y'.rcv, id)))
                || (forall n :: Has(Lookup(y.rcv, id), n) || Arrives([a], id, n) ==> Has(Lookup(y'.rcv, id), n)))
  {
    if a.Arrive? {
      ArriveProgress(y, a.id, a.n, a.ts, id);
    }
  }

  lemma ArriveProgress(y: System, from: MsgID, n: nat, ts: nat, id: MsgID)
    requires Inv(y) && Allowed(y, Arrive(from, n, ts)) && id in y.sent
    ensures var y' := Step(y, Arrive(from, n, ts));
            && Grows(y.rcv, y'.rcv)
            && (|| (CompletedSince(y.rcv, y'.rcv, id) && (y.rcv.established ==> EverDelivered(y'.rcv, id)))
                || (forall k :: Has(Lookup(y.rcv, id), k) || (from == id && k == n) ==> Has(Lookup(y'.rcv, id), k)))
  {
    var frags, inc := y.sent[from].frags, Lookup(y.rcv, from);
    var f := Piece(from, frags, n);
    LookupOk(y, from);
    if n == inc.next {
      ExpectedOk(from, frags, inc);
      if Expected(inc, f).last {
        assert frags[..|frags|] == frags;
        CompleteProgress(y, from);
      }
    } else if n > inc.next {
      EarlyOk(from, frags, inc, n, ts);
    }
  }

  lemma CompleteProgress(y: System, id: MsgID)
    requires Inv(y) && id in y.sent
    ensures var r := Complete(y.rcv, id, Flatten(y.sent[id].frags));
            && Grows(y.rcv, r) && CompletedSince(y.rcv, r, id) && (y.rcv.established ==> EverDelivered(r, id))
  {
    CompleteOk(y, id);
    var r := Complete(y.rcv, id, Flatten(y.sent[id].frags));
    assert r.acked[|y.rcv.acked|..] == [id];
    if y.rcv.established {
      var d :| d in r.delivered && d.msg.id == id && d.epoch == r.epoch;
      assert EverDelivered(r, id);
    }
  }

  lemma GrowsOn(a: Receiver, b: Receiver, c: Receiver, id: MsgID)
    requires Grows(a, b) && Grows(b, c)
    ensures Grows(a, c)
    ensures CompletedSince(a, b, id) || CompletedSince(b, c, id) ==> CompletedSince(a, c, id)
    ensures EverDelivered(b, id) ==> EverDelivered(c, id)
  {
    var late := c.acked[|b.acked|..];
    assert c.acked == b.acked + late;
    assert c.acked[|a.acked|..] == b.acked[|a.acked|..] + late;
    if EverDelivered(b, id) {
      var d :| d in b.delivered && d.msg.id == id;
      assert d in c.delivered;
    }
  }

  lemma {:induction false} RunGrows(y: System, run: seq<Action>)
    requires Inv(y) && AllowedRun(y, run)
    ensures Grows(y.rcv, Run(y, run).rcv)
    decreases |run|
  {
    if run != [] {
      var y1 := Step(y, run[0]);
      StepOk(y, run[0]);
      if run[0].Arrive? {
        ArriveProgress(y, run[0].id, run[0].n, run[0].ts, run[0].id);
      }
      RunGrows(y1, run[1..]);
      GrowsOn(y.rcv, y1.rcv, Run(y, run).rcv, 0);
    }
  }

  /** Every fragment is there or arrives, and no cleanup comes in between: the message is completed. */
  lemma {:induction false} AllFragmentsComplete(y: System, run: seq<Action>, id: MsgID)
    requires Inv(y) && AllowedRun(y, run) && id in y.sent && (forall a :: a in run ==> !a.CleanupTick?)
    requires forall n :: 0 <= n < |y.sent[id].frags| ==> Has(Lookup(y.rcv, id), n) || Arrives(run, id, n)
    ensures var r := Run(y, run).rcv;
            CompletedSince(y.rcv, r, id) && (y.rcv.established ==> EverDelivered(r, id))
    decreases |run|
  {
    var inc, k := Lookup(y.rcv, id), |y.sent[id].frags|;
    LookupOk(y, id);
    assert Has(inc, inc.next) || Arrives(run, id, inc.next);
    if run == [] {
      assert false;
    } else {
      var a, y1, end := run[0], Step(y, run[0]), Run(y, run).rcv;
      assert a in run;
      StepOk(y, a);
      StepProgress(y, a, id);
      RunGrows(y1, run[1..]);
      if forall n :: Has(inc, n) || Arrives([a], id, n) ==> Has(Lookup(y1.rcv, id), n) {
        forall n | 0 <= n < k ensures Has(Lookup(y1.rcv, id), n) || Arrives(run[1..], id, n) {
          ArrivesFirst(run, id, n);
        }
        AllFragmentsComplete(y1, run[1..], id);
      }
      GrowsOn(y.rcv, y1.rcv, end, id);
    }
  }

  lemma ArrivesFirst(run: seq<Action>, id: MsgID, n: nat)
    requires run != []
    ensures Arrives(run, id, n) <==> Arrives([run[0]], id, n) || Arrives(run[1..], id, n)
  {
  }

  /**
   After any run, if all fragments of a posted message arrive, in whatever order and among whatever else, with no
   cleanup in between, then the message is completed, and an established session has handed on just what was posted.
   */
  lemma Reassembled(established: bool, before: seq<Action>, after: seq<Action>, id: MsgID)
    requires AllowedRun(Start(established), before)
    requires var y := Run(Start(established), before);
             && AllowedRun(y, after) && id in y.sent && (forall a :: a in after ==> !a.CleanupTick?)
             && (forall n :: 0 <= n < |y.sent[id].frags| ==> Arrives(after, id, n))
    ensures var y := Run(Start(established), before);
            var r := Run(y, after).rcv;
            && CompletedSince(y.rcv, r, id)
            && (y.rcv.established ==> exists d :: d in r.delivered && d.msg == Rounded(y.sent[id].msg))
  {
    RunOk(Start(established), before);
    var y := Run(Start(established), before);
    AllFragmentsComplete(y, after, id);
    RunOk(y, after);
    SentStays(y, after, id);
    var r := Run(y, after).rcv;
    if y.rcv.established {
      var d :| d in r.delivered && d.msg.id == id;
      assert d.msg == Rounded(y.sent[id].msg);
    }
  }

  lemma {:induction false} SentStays(y: System, run: seq<Action>, id: MsgID)
    requires AllowedRun(y, run) && id in y.sent
    ensures id in Run(y, run).sent && Run(y, run).sent[id] == y.sent[id]
    decreases |run|
  {
    if run != [] {
      SentStays(Step(y, run[0]), run[1..], id);
    }
  }

  // ---------------------------------------------------------------- giving up

  /** No cleanup later than `until`, and no fragment of `id` before `from`. */
  ghost predicate Timely(run: seq<Action>, id: MsgID, from: nat, until: nat) {
    forall a :: a in run ==> (a.CleanupTick? ==> a.ts <= until) && (a.Arrive? && a.id == id ==> a.ts >= from)
  }

  lemma StepKeeps(y: System, a: Action, id: MsgID, t: nat)
    requires Inv(y) && Allowed(y, a) && Timely([a], id, t, t + 30)
    requires id in y.rcv.incomplete && y.rcv.incomplete[id].lastInsert >= t && Step(y, a).rcv.acked == y.rcv.acked
    ensures var r := Step(y, a).rcv; id in r.incomplete && r.incomplete[id].lastInsert >= t
  {
    assert a in [a];
    if a.Arrive? && a.id == id {
      LookupOk(y, id);
      var inc := Lookup(y.rcv, id);
      if a.n == inc.next {
        ExpectedTime(inc, Piece(id, y.sent[id].frags, a.n));
      }
    }
  }

  lemma {:induction false} AttachSavedTime(inc: Incomplete, last: bool)
    ensures AttachSaved(inc, last).inc.lastInsert == inc.lastInsert
    decreases inc.saved
  {
    if inc.next in inc.saved {
      SmallerMap(inc.saved, inc.next);
      AttachSavedTime(Attach(inc.(saved := inc.saved - {inc.next}), inc.saved[inc.next].bytes), inc.saved[inc.next].last);
    }
  }

  lemma ExpectedTime(inc: Incomplete, f: Fragment)
    ensures Expected(inc, f).inc.lastInsert == inc.lastInsert
  {
    if !f.last {
      AttachSavedTime(Attach(inc, f.bytes), false);
    }
  }

  lemma {:induction false} RunKeeps(y: System, run: seq<Action>, id: MsgID, t: nat)
    requires Inv(y) && AllowedRun(y, run) && Timely(run, id, t, t + 30)
    requires id in y.rcv.incomplete && y.rcv.incomplete[id].lastInsert >= t && Run(y, run).rcv.acked == y.rcv.acked
    ensures id in Run(y, run).rcv.incomplete
    decreases |run|
  {
    if run != [] {
      var a, y1 := run[0], Step(y, run[0]);
      assert a in run && run == [a] + run[1..];
      StepOk(y, a);
      if a.Arrive? {
        ArriveProgress(y, a.id, a.n, a.ts, a.id);
      }
      RunGrows(y1, run[1..]);
      assert Timely([a], id, t, t + 30) && Timely(run[1..], id, t, t + 30);
      StepKeeps(y, a, id, t);
      RunKeeps(y1, run[1..], id, t);
    }
  }

  /** A fragment that had to be saved keeps its message for thirty seconds: cleanups until then leave it, as long as nothing is completed. */
  lemma SavedIsKept(established: bool, before: seq<Action>, id: MsgID, n: nat, t: nat, after: seq<Action>)
    requires AllowedRun(Start(established), before)
    requires var y := Run(Start(established), before);
             && Allowed(y, Arrive(id, n, t)) && n > Lookup(y.rcv, id).next && n !in Lookup(y.rcv, id).saved
             && AllowedRun(Step(y, Arrive(id, n, t)), after)
             && Run(Step(y, Arrive(id, n, t)), after).rcv.acked == y.rcv.acked
    requires Timely(after, id, t, t + 30)
    ensures id in Run(Step(Run(Start(established), before), Arrive(id, n, t)), after).rcv.incomplete
  {
    RunOk(Start(established), before);
    var y := Run(Start(established), before);
    StepOk(y, Arrive(id, n, t));
    RunKeeps(Step(y, Arrive(id, n, t)), after, id, t);
  }

  /** A fragment that is there already changes nothing: it prolongs nothing and is not put together twice. */
  lemma RepeatChangesNothing(established: bool, run: seq<Action>, id: MsgID, n: nat, ts: nat)
    requires AllowedRun(Start(established), run) && Allowed(Run(Start(established), run), Arrive(id, n, ts))
    requires id in Run(Start(established), run).rcv.incomplete && Has(Run(Start(established), run).rcv.incomplete[id], n)
    ensures Step(Run(Start(established), run), Arrive(id, n, ts)) == Run(Start(established), run)
  {
    RunOk(Start(established), run);
    var y := Run(Start(established), run);
    LookupOk(y, id);
    assert y.rcv.incomplete[id := y.rcv.incomplete[id]] == y.rcv.incomplete;
  }

  /** The fragments from number `n` on, one after the other. */
  predicate InTurn(run: seq<Action>, id: MsgID, n: nat)
    decreases |run|
  {
    run == [] || (run[0].Arrive? && run[0].id == id && run[0].n == n && InTurn(run[1..], id, n + 1))
  }

  lemma {:induction false} NothingSaved(y: System, run: seq<Action>, id: MsgID)
    requires Inv(y) && AllowedRun(y, run) && id in y.sent
    requires var inc := Lookup(y.rcv, id); inc.saved == map[] && inc.lastInsert == 0 && InTurn(run, id, inc.next)
    requires Lookup(y.rcv, id).next + |run| < |y.sent[id].frags|
    ensures var inc := Lookup(Run(y, run).rcv, id);
            && inc.saved == map[] && inc.lastInsert == 0 && inc.next == Lookup(y.rcv, id).next + |run|
            && (run != [] ==> id in Run(y, run).rcv.incomplete)
    decreases |run|
  {
    if run != [] {
      StepOk(y, run[0]);
      NothingSaved(Step(y, run[0]), run[1..], id);
    }
  }

  /**
   A message whose fragments have all come in their turn so far has no such time: the next cleanup gives it up, however
   recent its last fragment is, and its other fragments alone will not complete it.
   */
  lemma InTurnIsGivenUp(established: bool, before: seq<Action>, id: MsgID, run: seq<Action>, ts: nat)
    requires AllowedRun(Start(established), before)
    requires var y := Run(Start(established), before);
             && id in y.sent && id !in y.rcv.incomplete && AllowedRun(y, run) && InTurn(run, id, 0)
             && 0 < |run| < |y.sent[id].frags|
    ensures var y := Run(Run(Start(established), before), run);
            id in y.rcv.incomplete && (id in Step(y, CleanupTick(ts)).rcv.incomplete <==> ts <= 30)
  {
    RunOk(Start(established), before);
    NothingSaved(Run(Start(established), before), run, id);
  }
}
