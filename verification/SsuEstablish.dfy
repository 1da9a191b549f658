/**
 A session that is not established yet: over every run, exactly when it becomes so, and what it hands on from then on.
 */
module SsuEstablish {
  import opened Wrappers
  import opened Bytes
  import opened SsuSpec
  import opened SsuProtocol

  /** Message `k` of those completed so far, in order, was posted with type 10, a DeliveryStatus. */
  ghost predicate Opens(y: System, k: int) {
    0 <= k < |y.rcv.acked| && y.rcv.acked[k] in y.sent && y.sent[y.rcv.acked[k]].msg.typeID == 10
  }

  /** The message `id` was completed as number `k`, behind one that opens the session. */
  ghost predicate CompletedAfterOpening(y: System, e: int, k: int, id: MsgID) {
    Opens(y, e) && e < k < |y.rcv.acked| && y.rcv.acked[k] == id
  }

  ghost predicate CompletedOpen(y: System, id: MsgID) {
    exists e, k :: CompletedAfterOpening(y, e, k, id)
  }

  ghost predicate EstablishedOk(y: System) {
    && (forall k :: 0 <= k < |y.rcv.acked| ==> y.rcv.acked[k] in y.sent)
    && (y.rcv.established <==> exists k :: Opens(y, k))
    && (!y.rcv.established ==> y.rcv.received == {})
    && (forall id :: EverDelivered(y.rcv, id) <==> CompletedOpen(y, id))
  }

  // ---------------------------------------------------------------- one completion

  lemma OpensBefore(y: System, y': System, id: MsgID)
    requires y'.sent == y.sent && id in y.sent && y'.rcv.acked == y.rcv.acked + [id]
    ensures forall k :: k < |y.rcv.acked| ==> (Opens(y', k) <==> Opens(y, k))
    ensures Opens(y', |y.rcv.acked|) <==> y.sent[id].msg.typeID == 10
  {
  }

  lemma CompletedBefore(y: System, y': System, id: MsgID, other: MsgID)
    requires y'.sent == y.sent && id in y.sent && y'.rcv.acked == y.rcv.acked + [id]
    ensures CompletedOpen(y', other) <==> CompletedOpen(y, other) || (other == id && exists k :: Opens(y, k))
  {
    OpensBefore(y, y', id);
    var n := |y.rcv.acked|;
    if CompletedOpen(y, other) {
      var e, k :| CompletedAfterOpening(y, e, k, other);
      assert CompletedAfterOpening(y', e, k, other);
    }
    if other == id && exists k :: Opens(y, k) {
      var e :| Opens(y, e);
      assert CompletedAfterOpening(y', e, n, other);
    }
    if CompletedOpen(y', other) {
      var e, k :| CompletedAfterOpening(y', e, k, other);
      assert Opens(y, e);
      if k < n {
        assert CompletedAfterOpening(y, e, k, other);
      }
    }
  }

  lemma OpenNow(y: System, y': System, id: MsgID)
    requires y'.sent == y.sent && id in y.sent && y'.rcv.acked == y.rcv.acked + [id]
    ensures (exists k :: Opens(y', k)) <==> (exists k :: Opens(y, k)) || y.sent[id].msg.typeID == 10
  {
    OpensBefore(y, y', id);
    if exists k :: Opens(y, k) {
      var k :| Opens(y, k);
      assert Opens(y', k);
    }
    if exists k :: Opens(y', k) {
      var k :| Opens(y', k);
      assert k < |y.rcv.acked| ==> Opens(y, k);
    }
  }

  /** What a completion does to the deliveries. */
  lemma DeliveredNow(y: System, id: MsgID, other: MsgID)
    requires SsuProtocol.Inv(y) && id in y.sent && (!y.rcv.established ==> y.rcv.received == {})
    ensures var r := Complete(y.rcv, id, Flatten(y.sent[id].frags));
            && (EverDelivered(r, other) <==> EverDelivered(y.rcv, other) || (other == id && y.rcv.established))
            && (r.established <==> y.rcv.established || y.sent[id].msg.typeID == 10)
            && (!r.established ==> r.received == {})
  {
    assert OutgoingOk(id, y.sent[id]);
    ShortFormRoundTrip(y.sent[id].msg);
    var r := Complete(y.rcv, id, Flatten(y.sent[id].frags));
    if EverDelivered(y.rcv, other) {
      var d :| d in y.rcv.delivered && d.msg.id == other;
      assert d in r.delivered;
    }
    if other == id && y.rcv.established {
      CompleteOk(y, id);
      var d :| d in r.delivered && d.msg.id == id && d.epoch == r.epoch;
    }
    if EverDelivered(r, other) {
      var d :| d in r.delivered && d.msg.id == other;
      assert d in y.rcv.delivered || (y.rcv.established && d.msg.id == id);
    }
  }

  lemma CompleteEstablished(y: System, id: MsgID)
    requires SsuProtocol.Inv(y) && EstablishedOk(y) && id in y.sent
    ensures EstablishedOk(y.(rcv := Complete(y.rcv, id, Flatten(y.sent[id].frags))))
  {
    var y' := y.(rcv := Complete(y.rcv, id, Flatten(y.sent[id].frags)));
    OpenNow(y, y', id);
    DeliveredNow(y, id, id);
    forall other ensures EverDelivered(y'.rcv, other) <==> CompletedOpen(y', other) {
      DeliveredNow(y, id, other);
      CompletedBefore(y, y', id, other);
    }
  }

  // ---------------------------------------------------------------- every step

  /** Nothing that counts has changed. */
  lemma SameEstablished(y: System, y': System)
    requires EstablishedOk(y)
    requires y'.rcv.acked == y.rcv.acked && y'.rcv.established == y.rcv.established && y'.rcv.delivered == y.rcv.delivered
    requires y'.rcv.received == {} || y'.rcv.received == y.rcv.received
    requires forall id :: id in y.sent ==> id in y'.sent && y'.sent[id] == y.sent[id]
    ensures EstablishedOk(y')
  {
    forall k ensures Opens(y', k) <==> Opens(y, k) {
    }
    forall id ensures CompletedOpen(y', id) <==> CompletedOpen(y, id) {
      if CompletedOpen(y, id) {
        var e, k :| CompletedAfterOpening(y, e, k, id);
        assert CompletedAfterOpening(y', e, k, id);
      }
      if CompletedOpen(y', id) {
        var e, k :| CompletedAfterOpening(y', e, k, id);
        assert CompletedAfterOpening(y, e, k, id);
      }
    }
    forall id ensures EverDelivered(y'.rcv, id) <==> EverDelivered(y.rcv, id) {
    }
  }

  lemma ArriveEstablished(y: System, id: MsgID, n: nat, ts: nat)
    requires SsuProtocol.Inv(y) && EstablishedOk(y) && Allowed(y, Arrive(id, n, ts))
    ensures EstablishedOk(SsuProtocol.Step(y, Arrive(id, n, ts)))
  {
    var frags, inc := y.sent[id].frags, Lookup(y.rcv, id);
    var f := Piece(id, frags, n);
    LookupOk(y, id);
    if n == inc.next {
      ExpectedOk(id, frags, inc);
      if Expected(inc, f).last {
        assert frags[..|frags|] == frags;
        CompleteEstablished(y, id);
        return;
      }
    }
    SameEstablished(y, SsuProtocol.Step(y, Arrive(id, n, ts)));
  }

  lemma StepEstablished(y: System, a: Action)
    requires SsuProtocol.Inv(y) && EstablishedOk(y) && Allowed(y, a)
    ensures EstablishedOk(SsuProtocol.Step(y, a))
  {
    match a
    case Arrive(id, n, ts) => ArriveEstablished(y, id, n, ts);
    case _ => SameEstablished(y, SsuProtocol.Step(y, a));
  }

  lemma {:induction false} RunEstablished(y: System, run: seq<Action>)
    requires SsuProtocol.Inv(y) && EstablishedOk(y) && AllowedRun(y, run)
    ensures SsuProtocol.Inv(Run(y, run)) && EstablishedOk(Run(y, run))
    decreases |run|
  {
    if run != [] {
      StepOk(y, run[0]);
      StepEstablished(y, run[0]);
      RunEstablished(SsuProtocol.Step(y, run[0]), run[1..]);
    }
  }

  // ---------------------------------------------------------------- main results

  /**
   Over every run of a session that starts out not established, it is established if and only if a message posted with
   type 10 has been completed.
   */
  lemma EstablishedExactly(run: seq<Action>)
    requires AllowedRun(Start(false), run)
    ensures var y := Run(Start(false), run);
            y.rcv.established <==>
            exists k :: 0 <= k < |y.rcv.acked| && y.rcv.acked[k] in y.sent && y.sent[y.rcv.acked[k]].msg.typeID == 10
  {
    RunEstablished(Start(false), run);
    var y := Run(Start(false), run);
    if y.rcv.established {
      var k :| Opens(y, k);
    }
    forall k | 0 <= k < |y.rcv.acked| && y.rcv.acked[k] in y.sent && y.sent[y.rcv.acked[k]].msg.typeID == 10 ensures Opens(y, k) {
    }
  }

  /**
   And what it has handed on are exactly the messages completed behind one of type 10, as they were posted: nothing
   before, and nothing is missing after.
   */
  lemma HandedOnExactly(run: seq<Action>, m: Message)
    requires AllowedRun(Start(false), run)
    ensures var y := Run(Start(false), run);
            (exists d :: d in y.rcv.delivered && d.msg == m) <==>
            m.id in y.sent && m == Rounded(y.sent[m.id].msg) && exists e, k :: CompletedAfterOpening(y, e, k, m.id)
  {
    RunEstablished(Start(false), run);
    var y := Run(Start(false), run);
    if d :| d in y.rcv.delivered && d.msg == m {
      assert EverDelivered(y.rcv, m.id);
      assert CompletedOpen(y, m.id);
    }
    if CompletedOpen(y, m.id) {
      assert EverDelivered(y.rcv, m.id);
      var d :| d in y.rcv.delivered && d.msg.id == m.id;
    }
  }
}
