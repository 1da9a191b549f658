/**
 The supply of session tags: which messages bring new ones, and what becomes of tags whose message asked for no
 DeliveryStatus.
 */
module GarlicSupply {
  import opened Wrappers
  import opened GarlicTags
  import opened GarlicProtocol
  import opened GarlicLeaseSet

  /**
   A message brings new tags exactly when, once it has taken its own, at most two thirds of the session's tags are left;
   it asks for a DeliveryStatus exactly when it brings tags or the LeaseSet and an inbound tunnel is there.
   */
  lemma BringsTagsExactly(now: nat, run: seq<Action>, j: nat)
    requires AllowedRun(Start(now), run) && j < |run| && run[j].Send?
    ensures var m, key := SentBy(now, run, j), run[j].key;
            && key in Before(now, run, j + 1).sessions
            && var s := Before(now, run, j + 1).sessions[key];
               && m.tags == (if s.numTags > 0 && 3 * |s.ready| <= 2 * s.numTags then run[j].drawn else [])
               && (m.status <==> run[j].tunnel && (m.tags != [] || m.leaseSet))
               && Before(now, run, j + 1).log == Before(now, run, j).log + [m]
  {
    NextMoment(now, run, j);
    var y, a := Before(now, run, j), run[j];
    WrapSupply(y.sessions[a.key], a.key, y.now, a.ms, a.drawn, a.id, a.tunnel);
  }

  lemma WrapSupply(s: Session, key: Key, ts: nat, ms: nat, drawn: seq<Tag>, id: MsgID, tunnel: bool)
    requires |drawn| == s.numTags
    ensures var w := Wrap(s, key, ts, ms, drawn, id, tunnel);
            && w.session.numTags == s.numTags
            && w.msg.tags == (if s.numTags > 0 && 3 * |w.session.ready| <= 2 * s.numTags then drawn else [])
            && (w.msg.status <==> tunnel && (w.msg.tags != [] || w.msg.leaseSet))
  {
  }

  // ---------------------------------------------------------------- tags nobody will confirm

  /** Messages differ in number, and only those that asked for it are awaited or answered. */
  ghost predicate AskedOnly(y: System) {
    && (forall i, j :: 0 <= i < j < |y.log| ==> y.log[i].id != y.log[j].id)
    && (forall i :: 0 <= i < |y.log| && !y.log[i].status ==> y.log[i].id !in y.acks && y.log[i].id !in y.created)
  }

  lemma SendAsked(y: System, key: Key, w: Wrapped, id: MsgID)
    requires Inv(y) && AskedOnly(y) && id !in y.ids && w.msg.id == id
    ensures AskedOnly(DoSend(y, key, w, id))
  {
    forall i | 0 <= i < |y.log| ensures y.log[i].id in y.ids {
      assert MessageOk(y, i);
    }
  }

  lemma StepAsked(y: System, a: Action)
    requires Inv(y) && AskedOnly(y) && Allowed(y, a)
    ensures AskedOnly(Step(y, a))
  {
    match a
    case Send(key, ms, drawn, id, tunnel) =>
      WrapMeans(y.sessions[key], key, y.now, ms, drawn, id, tunnel);
      SendAsked(y, key, Wrap(y.sessions[key], key, y.now, ms, drawn, id, tunnel), id);
    case Confirm(_) =>
    case _ =>
  }

  lemma {:induction false} RunAsked(y: System, run: seq<Action>)
    requires Inv(y) && AskedOnly(y) && AllowedRun(y, run)
    ensures Inv(Run(y, run)) && AskedOnly(Run(y, run))
    decreases |run|
  {
    if run != [] {
      StepOk(y, run[0]);
      StepAsked(y, run[0]);
      RunAsked(Step(y, run[0]), run[1..]);
    }
  }

  /** A tag that is ready or used was confirmed, and one that is pending is awaited. */
  lemma WhereTagsAre(y: System, t: Tag)
    requires Inv(y)
    ensures forall k :: IsReady(y, k, t) ==> t in y.born && y.born[t].id in y.acks
    ensures forall k, id :: IsPending(y, k, id, t) ==> t in y.born && y.born[t].id in y.created
    ensures forall j :: Uses(y, j, t) ==> t in y.born && y.born[t].id in y.acks
  {
    forall k | IsReady(y, k, t) ensures t in y.born && y.born[t].id in y.acks {
      assert SessionOk(y, k, y.sessions[k]);
    }
    forall k, id | IsPending(y, k, id, t) ensures t in y.born && y.born[t].id in y.created {
      assert SessionOk(y, k, y.sessions[k]);
      assert BatchOk(y, k, id, y.sessions[k].unconfirmed[id]);
    }
    forall j: nat | Uses(y, j, t) ensures t in y.born && y.born[t].id in y.acks {
      assert MessageOk(y, j);
    }
  }

  /**
   Over every run: tags brought by a message that asked for no DeliveryStatus are stored by the receiver for nothing;
   the sender never has them ready, and never uses one.
   */
  lemma UnaskedAreLost(now: nat, run: seq<Action>, i: nat, t: Tag)
    requires AllowedRun(Start(now), run)
    requires var y := Run(Start(now), run); i < |y.log| && !y.log[i].status && t in y.log[i].tags
    ensures var y := Run(Start(now), run);
            && (forall k :: !IsReady(y, k, t)) && (forall k, id :: !IsPending(y, k, id, t)) && (forall j :: !Uses(y, j, t))
  {
    RunAsked(Start(now), run);
    var y := Run(Start(now), run);
    assert MessageOk(y, i);
    WhereTagsAre(y, t);
  }

  // ---------------------------------------------------------------- what is too old

  lemma {:induction false} LiveTagsAre(ready: seq<SessionTag>, ts: nat)
    ensures forall r :: r in LiveTags(ready, ts) <==> r in ready && ts < r.created + 720
  {
    if ready != [] {
      LiveTagsAre(ready[1..], ts);
      assert ready == [ready[0]] + ready[1..];
    }
  }

  /** A sweep leaves a session exactly the tags and the unconfirmed messages younger than 720 s, and nobody waits for the others. */
  lemma SweepLeaves(y: System, key: Key)
    requires key in y.sessions
    ensures var s, s', y' := y.sessions[key], Step(y, Sweep(key)).sessions[key], Step(y, Sweep(key));
            && (forall r :: r in s'.ready <==> r in s.ready && y.now < r.created + 720)
            && (forall id :: id in s'.unconfirmed <==> id in s.unconfirmed && y.now < s.unconfirmed[id].created + 720)
            && (forall id :: id in s.unconfirmed && id !in s'.unconfirmed ==> id !in y'.created)
  {
    LiveTagsAre(y.sessions[key].ready, y.now);
  }

  /** A confirmation that comes 720 s after the tags were made, or later, makes none of them ready. */
  lemma LateConfirmation(now: nat, run: seq<Action>, key: Key, id: MsgID, t: Tag)
    requires AllowedRun(Start(now), run)
    requires var y := Run(Start(now), run);
             && Allowed(y, Confirm(id)) && IsPending(y, key, id, t) && y.now >= y.sessions[key].unconfirmed[id].created + 720
    ensures var y' := Step(Run(Start(now), run), Confirm(id)); !IsReady(y', key, t) && !IsPending(y', key, id, t)
  {
    RunOk(Start(now), run);
    var y := Run(Start(now), run);
    assert SessionOk(y, key, y.sessions[key]);
    assert BatchOk(y, key, id, y.sessions[key].unconfirmed[id]);
    WhereReady(y, key, t);
    LiveTagsAre(y.sessions[key].ready + [], y.now);
    assert y.sessions[key].ready + [] == y.sessions[key].ready;
  }

  lemma WhereReady(y: System, key: Key, t: Tag)
    requires Inv(y) && key in y.sessions && t in y.born && y.born[t].id !in y.confirmed
    ensures !IsReady(y, key, t)
  {
    assert SessionOk(y, key, y.sessions[key]);
  }

  /** A message that cannot be read brings nothing: no tag is stored and no DeliveryStatus goes back. */
  lemma UnreadBringsNothing(y: System, i: nat)
    requires i < |y.log| && !Readable(y.inbox.table, y.log[i])
    ensures var y' := Step(y, Receive(i));
            y'.acks == y.acks && forall t :: t in y'.inbox.table ==> t in y.inbox.table && y'.inbox.table[t] == y.inbox.table[t]
  {
  }
}
