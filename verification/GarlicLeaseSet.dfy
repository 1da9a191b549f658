/**
 The LeaseSet a session attaches to its messages: over whole runs, exactly which messages carry it.
 */
module GarlicLeaseSet {
  import opened Wrappers
  import opened GarlicTags
  import opened GarlicProtocol

  // ---------------------------------------------------------------- moments of a run

  lemma {:induction false} Prefixes(y: System, run: seq<Action>, k: nat)
    requires AllowedRun(y, run) && k <= |run|
    ensures AllowedRun(y, run[..k])
    ensures k < |run| ==> Allowed(Run(y, run[..k]), run[k]) && AllowedRun(y, run[..k + 1])
                          && Run(y, run[..k + 1]) == Step(Run(y, run[..k]), run[k])
    ensures k == |run| ==> Run(y, run[..k]) == Run(y, run)
    decreases |run|
  {
    if k == 0 {
      if run != [] {
        assert run[..1][1..] == [];
      }
    } else {
      assert run[..k][1..] == run[1..][..k - 1];
      Prefixes(Step(y, run[0]), run[1..], k - 1);
      if k < |run| {
        assert run[..k + 1][1..] == run[1..][..k];
      }
    }
    assert run[..|run|] == run;
  }

  /** The state before action `k`. */
  ghost function Before(now: nat, run: seq<Action>, k: nat): System
    requires AllowedRun(Start(now), run) && k <= |run|
  {
    Prefixes(Start(now), run, k);
    Run(Start(now), run[..k])
  }

  lemma NextMoment(now: nat, run: seq<Action>, k: nat)
    requires AllowedRun(Start(now), run) && k < |run|
    ensures Allowed(Before(now, run, k), run[k]) && Before(now, run, k + 1) == Step(Before(now, run, k), run[k])
  {
    Prefixes(Start(now), run, k);
  }

  ghost predicate Sends(run: seq<Action>, k: nat, key: Key) {
    k < |run| && run[k].Send? && run[k].key == key
  }

  /** Action `k` sends a message of session `key` that carries the LeaseSet. */
  ghost predicate Carries(now: nat, run: seq<Action>, k: nat, key: Key)
    requires AllowedRun(Start(now), run)
  {
    && Sends(run, k, key)
    && |Before(now, run, k + 1).log| == |Before(now, run, k).log| + 1
    && Before(now, run, k + 1).log[|Before(now, run, k).log|].leaseSet
  }

  /** Action `k` brings the DeliveryStatus that session `key` is waiting for message `id`. */
  ghost predicate Settles(now: nat, run: seq<Action>, k: nat, key: Key, id: MsgID)
    requires AllowedRun(Start(now), run)
  {
    && k < |run| && run[k] == Confirm(id)
    && id in Before(now, run, k).created && Before(now, run, k).created[id] == key
  }

  ghost predicate Renews(run: seq<Action>, k: nat, key: Key) {
    k < |run| && run[k] == Renew(key)
  }

  /** Of the messages sent before action `i`, the one sent by action `j` carried the LeaseSet last. */
  ghost predicate CarriedLast(now: nat, run: seq<Action>, j: nat, i: nat, key: Key)
    requires AllowedRun(Start(now), run)
  {
    j < i && Carries(now, run, j, key) && forall k :: j < k < i ==> !Carries(now, run, k, key)
  }

  // ---------------------------------------------------------------- one action

  /** What one message does about the LeaseSet. */
  lemma WrapLeaseSet(s: Session, key: Key, ts: nat, ms: nat, drawn: seq<Tag>, id: MsgID, tunnel: bool)
    ensures var w := Wrap(s, key, ts, ms, drawn, id, tunnel);
            && w.msg.leaseSet == (s.status == Updated || (s.status == Submitted && ms > s.submitted + 4000))
            && (if w.msg.leaseSet then w.session.status == Submitted && w.session.updateId == id && w.session.submitted == ms
                else w.session.status == s.status && w.session.updateId == s.updateId && w.session.submitted == s.submitted)
  {
  }

  /** The LeaseSet part of a session is the same. */
  predicate SameLeaseSet(s: Session, s': Session) {
    s'.status == s.status && s'.updateId == s.updateId && s'.submitted == s.submitted
  }

  lemma CarriesIs(now: nat, run: seq<Action>, k: nat, key: Key)
    requires AllowedRun(Start(now), run) && Sends(run, k, key)
    ensures var y, y' := Before(now, run, k), Before(now, run, k + 1);
            && key in y.sessions && key in y'.sessions
            && var s, s' := y.sessions[key], y'.sessions[key];
               && (Carries(now, run, k, key) <==> s.status == Updated || (s.status == Submitted && run[k].ms > s.submitted + 4000))
               && (if Carries(now, run, k, key) then s'.status == Submitted && s'.updateId == run[k].id && s'.submitted == run[k].ms
                   else SameLeaseSet(s, s'))
  {
    NextMoment(now, run, k);
    var y, a := Before(now, run, k), run[k];
    WrapLeaseSet(y.sessions[key], key, y.now, a.ms, a.drawn, a.id, a.tunnel);
  }

  ghost predicate Confirms(y: System, a: Action, key: Key, id: MsgID) {
    a == Confirm(id) && id in y.created && y.created[id] == key
  }

  lemma StepLeaseSet(y: System, a: Action, key: Key)
    requires Allowed(y, a) && key in y.sessions && !(a.Send? && a.key == key)
    ensures var y' := Step(y, a);
            && key in y'.sessions
            && var s, s' := y.sessions[key], y'.sessions[key];
               && (Confirms(y, a, key, s.updateId) ==> s'.status == UpToDate && s'.updateId == s.updateId)
               && (a == Renew(key) ==> SameLeaseSet(s.(status := if s.status == DoNotSend then DoNotSend else Updated), s'))
               && (!Confirms(y, a, key, s.updateId) && a != Renew(key) ==> SameLeaseSet(s, s'))
  {
  }

  /** Everything else leaves it alone, except a renewal, and the confirmation of the message that carried it. */
  lemma OtherLeaseSet(now: nat, run: seq<Action>, k: nat, key: Key)
    requires AllowedRun(Start(now), run) && k < |run| && key in Before(now, run, k).sessions && !Sends(run, k, key)
    ensures var y, y' := Before(now, run, k), Before(now, run, k + 1);
            && key in y'.sessions
            && var s, s' := y.sessions[key], y'.sessions[key];
               && (Settles(now, run, k, key, s.updateId) ==> s'.status == UpToDate && s'.updateId == s.updateId)
               && (Renews(run, k, key) ==> SameLeaseSet(s.(status := if s.status == DoNotSend then DoNotSend else Updated), s'))
               && (!Settles(now, run, k, key, s.updateId) && !Renews(run, k, key) ==> SameLeaseSet(s, s'))
  {
    NextMoment(now, run, k);
    StepLeaseSet(Before(now, run, k), run[k], key);
  }

  // ---------------------------------------------------------------- after it was carried

  /** The message that carried the LeaseSet last is the one whose confirmation is awaited. */
  lemma {:induction false} AwaitedIs(now: nat, run: seq<Action>, j: nat, i: nat, key: Key)
    requires AllowedRun(Start(now), run) && i <= |run| && CarriedLast(now, run, j, i, key)
    ensures key in Before(now, run, i).sessions && Before(now, run, i).sessions[key].updateId == run[j].id
    decreases i
  {
    if i == j + 1 {
      CarriesIs(now, run, j, key);
    } else {
      AwaitedIs(now, run, j, i - 1, key);
      if Sends(run, i - 1, key) {
        CarriesIs(now, run, i - 1, key);
      } else {
        OtherLeaseSet(now, run, i - 1, key);
      }
    }
  }

  lemma {:induction false} StaysUpToDate(now: nat, run: seq<Action>, c: nat, i: nat, key: Key)
    requires AllowedRun(Start(now), run) && c <= i <= |run|
    requires key in Before(now, run, c).sessions && Before(now, run, c).sessions[key].status == UpToDate
    requires forall r: nat :: c <= r < i ==> !Renews(run, r, key)
    ensures key in Before(now, run, i).sessions && Before(now, run, i).sessions[key].status == UpToDate
    decreases i
  {
    if c < i {
      StaysUpToDate(now, run, c, i - 1, key);
      if Sends(run, i - 1, key) {
        CarriesIs(now, run, i - 1, key);
      } else {
        OtherLeaseSet(now, run, i - 1, key);
      }
    }
  }

  /**
   Once the message that carried the LeaseSet last has been confirmed, no message of the session carries it until the
   LeaseSet changes again.
   */
  lemma NotAfterConfirmation(now: nat, run: seq<Action>, j: nat, c: nat, i: nat, key: Key)
    requires AllowedRun(Start(now), run) && c < i < |run|
    requires CarriedLast(now, run, j, c, key) && Settles(now, run, c, key, run[j].id)
    requires forall r: nat :: c < r < i ==> !Renews(run, r, key)
    ensures !Carries(now, run, i, key)
  {
    AwaitedIs(now, run, j, c, key);
    OtherLeaseSet(now, run, c, key);
    StaysUpToDate(now, run, c + 1, i, key);
    if Sends(run, i, key) {
      CarriesIs(now, run, i, key);
    }
  }

  lemma {:induction false} StaysSubmitted(now: nat, run: seq<Action>, j: nat, i: nat, key: Key)
    requires AllowedRun(Start(now), run) && i <= |run| && CarriedLast(now, run, j, i, key)
    requires forall r: nat :: j < r < i ==> !Renews(run, r, key) && !Settles(now, run, r, key, run[j].id)
    ensures key in Before(now, run, i).sessions
    ensures var s := Before(now, run, i).sessions[key]; s.status == Submitted && s.updateId == run[j].id && s.submitted == run[j].ms
    decreases i
  {
    if i == j + 1 {
      CarriesIs(now, run, j, key);
    } else {
      StaysSubmitted(now, run, j, i - 1, key);
      if Sends(run, i - 1, key) {
        CarriesIs(now, run, i - 1, key);
      } else {
        OtherLeaseSet(now, run, i - 1, key);
      }
    }
  }

  /** While it is not confirmed, and has not changed, the first message more than four seconds later carries it again. */
  lemma AgainAfterFourSeconds(now: nat, run: seq<Action>, j: nat, i: nat, key: Key)
    requires AllowedRun(Start(now), run) && Sends(run, i, key) && CarriedLast(now, run, j, i, key)
    requires forall r: nat :: j < r < i ==> !Renews(run, r, key) && !Settles(now, run, r, key, run[j].id)
    ensures Carries(now, run, i, key) <==> run[i].ms > run[j].ms + 4000
  {
    StaysSubmitted(now, run, j, i, key);
    CarriesIs(now, run, i, key);
  }

  // ---------------------------------------------------------------- from the start

  /** Action `o` opens the session. */
  ghost predicate Opens(run: seq<Action>, o: nat, key: Key, attach: bool, garbage: MsgID) {
    o < |run| && run[o].Open? && run[o].key == key && run[o].attach == attach && run[o].garbage == garbage
  }

  lemma AfterOpen(now: nat, run: seq<Action>, o: nat, key: Key, attach: bool, garbage: MsgID)
    requires AllowedRun(Start(now), run) && Opens(run, o, key, attach, garbage)
    ensures key in Before(now, run, o + 1).sessions && key !in Before(now, run, o).sessions
    ensures var s := Before(now, run, o + 1).sessions[key]; s.updateId == garbage && s.status == if attach then Updated else DoNotSend
  {
    NextMoment(now, run, o);
  }

  /** A message awaited by a session was sent by it after the session was opened. */
  lemma {:induction false} AwaitedWasSent(now: nat, run: seq<Action>, i: nat, key: Key, id: MsgID)
    requires AllowedRun(Start(now), run) && i <= |run|
    requires id in Before(now, run, i).created && Before(now, run, i).created[id] == key
    ensures exists k :: 0 <= k < i && Sends(run, k, key) && run[k].id == id
    decreases i
  {
    if i > 0 {
      NextMoment(now, run, i - 1);
      if !(Sends(run, i - 1, key) && run[i - 1].id == id) {
        AwaitedWasSent(now, run, i - 1, key, id);
      }
    }
  }

  /** Before its session is opened nothing is sent. */
  lemma {:induction false} NotYetOpen(now: nat, run: seq<Action>, i: nat, k: nat, key: Key)
    requires AllowedRun(Start(now), run) && k < i <= |run| && key !in Before(now, run, i).sessions
    ensures !Sends(run, k, key)
    decreases i
  {
    NextMoment(now, run, i - 1);
    if k < i - 1 {
      NotYetOpen(now, run, i - 1, k, key);
    }
  }

  /** A session opened with the LeaseSet, until it sends something. */
  lemma {:induction false} StaysUpdated(now: nat, run: seq<Action>, o: nat, i: nat, key: Key, garbage: MsgID)
    requires AllowedRun(Start(now), run) && Opens(run, o, key, true, garbage) && o < i <= |run|
    requires forall k: nat :: o < k < i ==> !Sends(run, k, key)
    ensures key in Before(now, run, i).sessions && Before(now, run, i).sessions[key].status == Updated
    decreases i
  {
    AfterOpen(now, run, o, key, true, garbage);
    if i > o + 1 {
      StaysUpdated(now, run, o, i - 1, key, garbage);
      NothingAwaited(now, run, o, i - 1, key, garbage);
      OtherLeaseSet(now, run, i - 1, key);
    }
  }

  lemma NothingAwaited(now: nat, run: seq<Action>, o: nat, i: nat, key: Key, garbage: MsgID)
    requires AllowedRun(Start(now), run) && Opens(run, o, key, true, garbage) && o < i < |run|
    requires forall k: nat :: o < k < i ==> !Sends(run, k, key)
    ensures forall id :: !Settles(now, run, i, key, id)
  {
    AfterOpen(now, run, o, key, true, garbage);
    forall id ensures !Settles(now, run, i, key, id) {
      if Settles(now, run, i, key, id) {
        AwaitedWasSent(now, run, i, key, id);
        var k :| 0 <= k < i && Sends(run, k, key) && run[k].id == id;
        if k < o {
          NotYetOpen(now, run, o, k, key);
        }
        assert false;
      }
    }
  }

  /** The first message of a session opened with the LeaseSet carries it. */
  lemma FirstCarries(now: nat, run: seq<Action>, o: nat, i: nat, key: Key, garbage: MsgID)
    requires AllowedRun(Start(now), run) && Opens(run, o, key, true, garbage) && o < i && Sends(run, i, key)
    requires forall k: nat :: o < k < i ==> !Sends(run, k, key)
    ensures Carries(now, run, i, key)
  {
    StaysUpdated(now, run, o, i, key, garbage);
    CarriesIs(now, run, i, key);
  }

  // ---------------------------------------------------------------- after a change

  lemma {:induction false} SomeoneLast(now: nat, run: seq<Action>, k: nat, i: nat, key: Key) returns (j: nat)
    requires AllowedRun(Start(now), run) && k < i <= |run| && Carries(now, run, k, key)
    ensures CarriedLast(now, run, j, i, key)
    decreases i
  {
    if Carries(now, run, i - 1, key) {
      j := i - 1;
    } else {
      j := SomeoneLast(now, run, k, i - 1, key);
    }
  }

  lemma {:induction false} NoneSent(now: nat, run: seq<Action>, o: nat, i: nat, key: Key, garbage: MsgID)
    requires AllowedRun(Start(now), run) && Opens(run, o, key, true, garbage) && o < i <= |run|
    requires forall k: nat :: o < k < i ==> !Carries(now, run, k, key)
    ensures forall k: nat :: o < k < i ==> !Sends(run, k, key)
    decreases i
  {
    if i > o + 1 {
      NoneSent(now, run, o, i - 1, key, garbage);
      if Sends(run, i - 1, key) {
        FirstCarries(now, run, o, i - 1, key, garbage);
      }
    }
  }

  lemma {:induction false} SendsItAtTimes(now: nat, run: seq<Action>, o: nat, i: nat, key: Key, garbage: MsgID)
    requires AllowedRun(Start(now), run) && Opens(run, o, key, true, garbage) && o < i <= |run|
    ensures key in Before(now, run, i).sessions && Before(now, run, i).sessions[key].status != DoNotSend
    decreases i
  {
    AfterOpen(now, run, o, key, true, garbage);
    if i > o + 1 {
      SendsItAtTimes(now, run, o, i - 1, key, garbage);
      if Sends(run, i - 1, key) {
        CarriesIs(now, run, i - 1, key);
      } else {
        OtherLeaseSet(now, run, i - 1, key);
      }
    }
  }

  /** Action `k` confirms the message that carried the LeaseSet last. */
  ghost predicate SettlesLast(now: nat, run: seq<Action>, k: nat, key: Key)
    requires AllowedRun(Start(now), run)
  {
    exists j: nat :: k < |run| && CarriedLast(now, run, j, k, key) && Settles(now, run, k, key, run[j].id)
  }

  /** Only the confirmation of the message that carried it last counts. */
  lemma AwaitsLast(now: nat, run: seq<Action>, o: nat, k: nat, key: Key, garbage: MsgID)
    requires AllowedRun(Start(now), run) && Opens(run, o, key, true, garbage) && o < k < |run|
    requires key in Before(now, run, k).sessions && Settles(now, run, k, key, Before(now, run, k).sessions[key].updateId)
    ensures SettlesLast(now, run, k, key)
  {
    if exists k': nat :: o < k' < k && Carries(now, run, k', key) {
      var k': nat :| o < k' < k && Carries(now, run, k', key);
      var j := SomeoneLast(now, run, k', k, key);
      AwaitedIs(now, run, j, k, key);
    } else {
      NoneSent(now, run, o, k, key, garbage);
      NothingAwaited(now, run, o, k, key, garbage);
    }
  }

  lemma {:induction false} StaysRenewed(now: nat, run: seq<Action>, o: nat, r: nat, i: nat, key: Key, garbage: MsgID)
    requires AllowedRun(Start(now), run) && Opens(run, o, key, true, garbage) && o < r < i <= |run| && Renews(run, r, key)
    requires forall k: nat :: r < k < i ==> !Carries(now, run, k, key) && !SettlesLast(now, run, k, key)
    ensures key in Before(now, run, i).sessions && Before(now, run, i).sessions[key].status == Updated
    decreases i
  {
    if i == r + 1 {
      SendsItAtTimes(now, run, o, r, key, garbage);
      OtherLeaseSet(now, run, r, key);
    } else {
      StaysRenewed(now, run, o, r, i - 1, key, garbage);
      if Sends(run, i - 1, key) {
        CarriesIs(now, run, i - 1, key);
      } else {
        OtherLeaseSet(now, run, i - 1, key);
        if Settles(now, run, i - 1, key, Before(now, run, i - 1).sessions[key].updateId) {
          AwaitsLast(now, run, o, i - 1, key, garbage);
        }
      }
    }
  }

  /** The first message after a change of the LeaseSet carries the new one, ... */
  lemma CarriesTheNew(now: nat, run: seq<Action>, o: nat, r: nat, i: nat, key: Key, garbage: MsgID)
    requires AllowedRun(Start(now), run) && Opens(run, o, key, true, garbage) && o < r < i
    requires Renews(run, r, key) && Sends(run, i, key)
    requires forall k: nat :: r < k < i ==> !Carries(now, run, k, key) && !SettlesLast(now, run, k, key)
    ensures Carries(now, run, i, key)
  {
    StaysRenewed(now, run, o, r, i, key, garbage);
    CarriesIs(now, run, i, key);
  }

  /**
   ... if and only if the message that carried the old one is not confirmed in between: that confirmation is taken for
   one of the new LeaseSet, which then is not sent.
   */
  lemma ChangeExact(now: nat, run: seq<Action>, o: nat, r: nat, i: nat, key: Key, garbage: MsgID)
    requires AllowedRun(Start(now), run) && Opens(run, o, key, true, garbage) && o < r < i
    requires Renews(run, r, key) && Sends(run, i, key)
    requires forall k: nat :: r < k < i ==> !Carries(now, run, k, key) && !Renews(run, k, key)
    ensures Carries(now, run, i, key) <==> !exists c: nat :: r < c < i && SettlesLast(now, run, c, key)
  {
    if c: nat :| r < c < i && SettlesLast(now, run, c, key) {
      var j: nat :| c < |run| && CarriedLast(now, run, j, c, key) && Settles(now, run, c, key, run[j].id);
      NotAfterConfirmation(now, run, j, c, i, key);
    } else {
      CarriesTheNew(now, run, o, r, i, key, garbage);
    }
  }

  // ---------------------------------------------------------------- opened without

  /** Before action `i` the message numbered like the uninitialised field was confirmed, and then the LeaseSet changed. */
  ghost predicate Ripe(now: nat, run: seq<Action>, i: nat, key: Key, garbage: MsgID)
    requires AllowedRun(Start(now), run)
  {
    exists c: nat, r: nat :: c < r < i && Settles(now, run, c, key, garbage) && Renews(run, r, key)
  }

  ghost predicate Settled(now: nat, run: seq<Action>, i: nat, key: Key, garbage: MsgID)
    requires AllowedRun(Start(now), run)
  {
    exists c: nat :: c < i && Settles(now, run, c, key, garbage)
  }

  ghost predicate Dormant(now: nat, run: seq<Action>, i: nat, key: Key, garbage: MsgID)
    requires AllowedRun(Start(now), run) && i <= |run|
  {
    && key in Before(now, run, i).sessions
    && var s := Before(now, run, i).sessions[key];
       && s.updateId == garbage && s.status != Submitted && (s.status == Updated ==> Ripe(now, run, i, key, garbage))
       && (s.status != DoNotSend ==> Settled(now, run, i, key, garbage))
  }

  lemma DormantOn(now: nat, run: seq<Action>, i: nat, key: Key, garbage: MsgID)
    requires AllowedRun(Start(now), run) && i < |run| && Dormant(now, run, i, key, garbage) && !Carries(now, run, i, key)
    ensures Dormant(now, run, i + 1, key, garbage)
  {
    assert Ripe(now, run, i, key, garbage) ==> Ripe(now, run, i + 1, key, garbage);
    assert Settled(now, run, i, key, garbage) ==> Settled(now, run, i + 1, key, garbage);
    if Sends(run, i, key) {
      CarriesIs(now, run, i, key);
    } else {
      OtherLeaseSet(now, run, i, key);
      if Settles(now, run, i, key, garbage) {
        assert Settled(now, run, i + 1, key, garbage);
      } else if Renews(run, i, key) && Before(now, run, i).sessions[key].status != DoNotSend {
        var c: nat :| c < i && Settles(now, run, c, key, garbage);
        assert c < i < i + 1 && Renews(run, i, key);
      }
    }
  }

  lemma {:induction false} StaysDormant(now: nat, run: seq<Action>, o: nat, i: nat, key: Key, garbage: MsgID)
    requires AllowedRun(Start(now), run) && Opens(run, o, key, false, garbage) && o < i <= |run|
    requires forall k: nat :: o < k < i ==> !Carries(now, run, k, key)
    ensures Dormant(now, run, i, key, garbage)
    decreases i
  {
    AfterOpen(now, run, o, key, false, garbage);
    if i > o + 1 {
      StaysDormant(now, run, o, i - 1, key, garbage);
      DormantOn(now, run, i - 1, key, garbage);
    }
  }

  lemma {:induction false} FirstOfAll(now: nat, run: seq<Action>, i: nat, key: Key) returns (f: nat)
    requires AllowedRun(Start(now), run) && i < |run| && Carries(now, run, i, key)
    ensures f <= i && Carries(now, run, f, key) && forall k: nat :: k < f ==> !Carries(now, run, k, key)
    decreases i
  {
    if k: nat :| k < i && Carries(now, run, k, key) {
      f := FirstOfAll(now, run, k, key);
    } else {
      f := i;
    }
  }

  /** A confirmation is taken once. */
  lemma {:induction false} ConfirmedOnce(now: nat, run: seq<Action>, c: nat, i: nat, key: Key, id: MsgID)
    requires AllowedRun(Start(now), run) && Settles(now, run, c, key, id) && c < i <= |run|
    ensures id !in Before(now, run, i).created && id in Before(now, run, i).ids
    decreases i
  {
    NextMoment(now, run, i - 1);
    if i == c + 1 {
      Prefixes(Start(now), run, c);
      RunOk(Start(now), run[..c]);
    } else {
      ConfirmedOnce(now, run, c, i - 1, key, id);
    }
  }

  lemma {:induction false} WokenUp(now: nat, run: seq<Action>, r: nat, i: nat, c: nat, key: Key, garbage: MsgID)
    requires AllowedRun(Start(now), run) && c < r < i <= |run|
    requires Settles(now, run, c, key, garbage) && Renews(run, r, key)
    requires key in Before(now, run, r).sessions
    requires var s := Before(now, run, r).sessions[key]; s.status != DoNotSend && s.updateId == garbage
    requires forall k: nat :: r < k < i ==> !Carries(now, run, k, key)
    ensures key in Before(now, run, i).sessions
    ensures var s := Before(now, run, i).sessions[key]; s.status == Updated && s.updateId == garbage
    decreases i
  {
    ConfirmedOnce(now, run, c, i - 1, key, garbage);
    if i == r + 1 {
      OtherLeaseSet(now, run, r, key);
    } else {
      WokenUp(now, run, r, i - 1, c, key, garbage);
      if Sends(run, i - 1, key) {
        CarriesIs(now, run, i - 1, key);
      } else {
        OtherLeaseSet(now, run, i - 1, key);
      }
    }
  }

  lemma RipeCarries(now: nat, run: seq<Action>, o: nat, c: nat, r: nat, i: nat, key: Key, garbage: MsgID)
    requires AllowedRun(Start(now), run) && Opens(run, o, key, false, garbage) && o < c < r < i
    requires Settles(now, run, c, key, garbage) && Renews(run, r, key) && Sends(run, i, key)
    ensures exists k: nat :: k <= i && Carries(now, run, k, key)
  {
    if forall k: nat :: k < i ==> !Carries(now, run, k, key) {
      StaysDormant(now, run, o, c, key, garbage);
      OtherLeaseSet(now, run, c, key);
      NotAgainDoNotSend(now, run, c + 1, r, key);
      StaysDormant(now, run, o, r, key, garbage);
      WokenUp(now, run, r, i, c, key, garbage);
      CarriesIs(now, run, i, key);
    }
  }

  lemma {:induction false} NotAgainDoNotSend(now: nat, run: seq<Action>, c: nat, i: nat, key: Key)
    requires AllowedRun(Start(now), run) && c <= i <= |run|
    requires key in Before(now, run, c).sessions && Before(now, run, c).sessions[key].status != DoNotSend
    ensures key in Before(now, run, i).sessions && Before(now, run, i).sessions[key].status != DoNotSend
    decreases i
  {
    if c < i {
      NotAgainDoNotSend(now, run, c, i - 1, key);
      if Sends(run, i - 1, key) {
        CarriesIs(now, run, i - 1, key);
      } else {
        OtherLeaseSet(now, run, i - 1, key);
      }
    }
  }

  /**
   A session opened without the LeaseSet sends it after all if and only if a message of its own happens to be numbered
   like its uninitialised field and is confirmed, the LeaseSet changes after that, and something is sent after that.
   */
  lemma NeverUnlessGarbage(now: nat, run: seq<Action>, o: nat, key: Key, garbage: MsgID)
    requires AllowedRun(Start(now), run) && Opens(run, o, key, false, garbage)
    ensures (exists i: nat :: Carries(now, run, i, key)) <==>
            exists c: nat, r: nat, i: nat ::
              c < r < i && Settles(now, run, c, key, garbage) && Renews(run, r, key) && Sends(run, i, key)
  {
    if i: nat :| Carries(now, run, i, key) {
      var f := FirstOfAll(now, run, i, key);
      NoEarlier(now, run, o, f, key, false, garbage);
      StaysDormant(now, run, o, f, key, garbage);
      CarriesIs(now, run, f, key);
      var c: nat, r: nat :| c < r < f && Settles(now, run, c, key, garbage) && Renews(run, r, key);
      assert Sends(run, f, key);
    }
    if c: nat, r: nat, i: nat :|
       (c < r < i && Settles(now, run, c, key, garbage) && Renews(run, r, key) && Sends(run, i, key)) {
      SettlesAfterOpen(now, run, o, c, key, garbage);
      RipeCarries(now, run, o, c, r, i, key, garbage);
    }
  }

  lemma NoEarlier(now: nat, run: seq<Action>, o: nat, i: nat, key: Key, attach: bool, garbage: MsgID)
    requires AllowedRun(Start(now), run) && Opens(run, o, key, attach, garbage) && Sends(run, i, key)
    ensures o < i
  {
    AfterOpen(now, run, o, key, attach, garbage);
    if i < o {
      NotYetOpen(now, run, o, i, key);
    }
  }

  lemma SettlesAfterOpen(now: nat, run: seq<Action>, o: nat, c: nat, key: Key, garbage: MsgID)
    requires AllowedRun(Start(now), run) && Opens(run, o, key, false, garbage) && Settles(now, run, c, key, garbage)
    ensures o < c
  {
    AwaitedWasSent(now, run, c, key, garbage);
    var k :| 0 <= k < c && Sends(run, k, key) && run[k].id == garbage;
    NoEarlier(now, run, o, k, key, false, garbage);
  }

  // ---------------------------------------------------------------- what settles

  /** The message sent by action `j`. */
  ghost function SentBy(now: nat, run: seq<Action>, j: nat): Garlic
    requires AllowedRun(Start(now), run) && j < |run| && run[j].Send?
  {
    var y := Before(now, run, j);
    NextMoment(now, run, j);
    Wrap(y.sessions[run[j].key], run[j].key, y.now, run[j].ms, run[j].drawn, run[j].id, run[j].tunnel).msg
  }

  /** Message `id` of session `key` waits for its confirmation; its tags, if it brought any, were made at `at`. */
  ghost predicate Awaited(y: System, key: Key, id: MsgID, at: nat, tags: bool) {
    && id in y.created && y.created[id] == key && id in y.ids && key in y.sessions
    && (id in y.sessions[key].unconfirmed ==> tags && y.sessions[key].unconfirmed[id].created == at)
  }

  lemma KeepsAwaiting(y: System, a: Action, key: Key, id: MsgID, at: nat, tags: bool)
    requires Inv(y) && Allowed(y, a) && a != Confirm(id) && Awaited(y, key, id, at, tags) && (tags ==> y.now < at + 720)
    ensures Awaited(Step(y, a), key, id, at, tags)
  {
    match a
    case Confirm(other) => ConfirmAwaiting(y, other, key, id, at, tags);
    case Sweep(k) => NotGivenUp(y, k, key, id, at, tags);
    case Send(k, ms, drawn, other, tunnel) => SendAwaiting(y, a, key, id, at, tags);
    case _ =>
  }

  lemma ConfirmAwaiting(y: System, other: MsgID, key: Key, id: MsgID, at: nat, tags: bool)
    requires Inv(y) && other != id && Awaited(y, key, id, at, tags) && (tags ==> y.now < at + 720)
    ensures Awaited(DoConfirm(y, other), key, id, at, tags)
  {
    if other in y.created {
      NotGivenUp(y, y.created[other], key, id, at, tags);
    }
  }

  lemma SendAwaiting(y: System, a: Action, key: Key, id: MsgID, at: nat, tags: bool)
    requires Allowed(y, a) && a.Send? && Awaited(y, key, id, at, tags)
    ensures Awaited(Step(y, a), key, id, at, tags)
  {
  }

  /** A session gives up only messages of its own whose tags are too old. */
  lemma NotGivenUp(y: System, k: Key, key: Key, id: MsgID, at: nat, tags: bool)
    requires Inv(y) && k in y.sessions && Awaited(y, key, id, at, tags) && (tags ==> y.now < at + 720)
    ensures id !in Expired(y.sessions[k], y.now)
    ensures forall other :: other != id ==> id !in ExpiredOnConfirm(y.sessions[k], other, y.now)
  {
    var s := y.sessions[k];
    assert SessionOk(y, k, s);
    assert id in s.unconfirmed ==> BatchOk(y, k, id, s.unconfirmed[id]);
  }

  lemma NowAwaited(y: System, a: Action)
    requires Inv(y) && Allowed(y, a) && a.Send?
    ensures var m := Wrap(y.sessions[a.key], a.key, y.now, a.ms, a.drawn, a.id, a.tunnel).msg;
            m.status ==> Awaited(Step(y, a), a.key, a.id, y.now, m.tags != [])
  {
    var s := y.sessions[a.key];
    assert SessionOk(y, a.key, s);
    assert a.id in s.unconfirmed ==> BatchOk(y, a.key, a.id, s.unconfirmed[a.id]);
    WrapTags(s, a.key, y.now, a.ms, a.drawn, a.id, a.tunnel);
  }

  lemma WrapTags(s: Session, key: Key, ts: nat, ms: nat, drawn: seq<Tag>, id: MsgID, tunnel: bool)
    requires |drawn| == s.numTags && id !in s.unconfirmed
    ensures var w := Wrap(s, key, ts, ms, drawn, id, tunnel);
            id in w.session.unconfirmed ==> w.msg.tags != [] && w.session.unconfirmed[id].created == ts
  {
  }

  lemma MomentOk(now: nat, run: seq<Action>, i: nat)
    requires AllowedRun(Start(now), run) && i <= |run|
    ensures Inv(Before(now, run, i))
  {
    Prefixes(Start(now), run, i);
    RunOk(Start(now), run[..i]);
  }

  lemma FirstAwaited(now: nat, run: seq<Action>, j: nat)
    requires AllowedRun(Start(now), run) && j < |run| && run[j].Send? && SentBy(now, run, j).status
    ensures Awaited(Before(now, run, j + 1), run[j].key, run[j].id, Before(now, run, j).now, SentBy(now, run, j).tags != [])
  {
    MomentOk(now, run, j);
    NextMoment(now, run, j);
    NowAwaited(Before(now, run, j), run[j]);
  }

  lemma AwaitedOn(now: nat, run: seq<Action>, i: nat, key: Key, id: MsgID, at: nat, tags: bool)
    requires AllowedRun(Start(now), run) && i < |run| && run[i] != Confirm(id)
    requires Awaited(Before(now, run, i), key, id, at, tags) && (tags ==> Before(now, run, i).now < at + 720)
    ensures Awaited(Before(now, run, i + 1), key, id, at, tags)
  {
    MomentOk(now, run, i);
    NextMoment(now, run, i);
    KeepsAwaiting(Before(now, run, i), run[i], key, id, at, tags);
  }

  lemma TimePasses(now: nat, run: seq<Action>, i: nat)
    requires AllowedRun(Start(now), run) && i < |run|
    ensures Before(now, run, i).now <= Before(now, run, i + 1).now
  {
    NextMoment(now, run, i);
  }

  lemma {:induction false} StillAwaited(now: nat, run: seq<Action>, j: nat, i: nat)
    requires AllowedRun(Start(now), run) && j < i <= |run| && run[j].Send? && SentBy(now, run, j).status
    requires forall k :: j < k < i ==> run[k] != Confirm(run[j].id)
    requires SentBy(now, run, j).tags == [] || Before(now, run, i).now < Before(now, run, j).now + 720
    ensures Awaited(Before(now, run, i), run[j].key, run[j].id, Before(now, run, j).now, SentBy(now, run, j).tags != [])
    decreases i
  {
    if i == j + 1 {
      FirstAwaited(now, run, j);
    } else {
      TimePasses(now, run, i - 1);
      StillAwaited(now, run, j, i - 1);
      AwaitedOn(now, run, i - 1, run[j].key, run[j].id, Before(now, run, j).now, SentBy(now, run, j).tags != []);
    }
  }

  /**
   The first DeliveryStatus for a message that asked for one settles it, unless the message brought tags and it comes
   after 720 s. With `NotAfterConfirmation`: a LeaseSet that has arrived is not sent again.
   */
  lemma StatusSettles(now: nat, run: seq<Action>, j: nat, c: nat)
    requires AllowedRun(Start(now), run) && j < c < |run| && run[j].Send? && SentBy(now, run, j).status
    requires run[c] == Confirm(run[j].id) && forall k :: j < k < c ==> run[k] != Confirm(run[j].id)
    requires SentBy(now, run, j).tags == [] || Before(now, run, c).now < Before(now, run, j).now + 720
    ensures Settles(now, run, c, run[j].key, run[j].id)
  {
    StillAwaited(now, run, j, c);
  }

  /** A message that carries the LeaseSet asks for a DeliveryStatus whenever an inbound tunnel is there for it. */
  lemma CarrierAsks(now: nat, run: seq<Action>, j: nat, key: Key)
    requires AllowedRun(Start(now), run) && Carries(now, run, j, key)
    ensures SentBy(now, run, j).status == run[j].tunnel
    ensures Before(now, run, j + 1).log == Before(now, run, j).log + [SentBy(now, run, j)]
  {
    NextMoment(now, run, j);
  }

  // ---------------------------------------------------------------- it happens

  /** The first four actions: the session's first message, numbered 7, is answered. */
  lemma Answered(now: nat, key: Key, tag: Tag)
    ensures var y1 := Step(Start(now), Open(key, 1, false, 7));
            && Allowed(y1, Send(key, 0, [tag], 7, true))
            && var y2 := Step(y1, Send(key, 0, [tag], 7, true));
               && Allowed(y2, Receive(0))
               && var y3 := Step(y2, Receive(0));
                  && Allowed(y3, Confirm(7)) && 7 in y3.created && y3.created[7] == key && y3.ids == {7} && key in y3.sessions
                  && y3.sessions[key].numTags == 1 && y3.born.Keys == {tag} && y3.inbox.table.Keys <= {tag}
  {
    var y1 := Step(Start(now), Open(key, 1, false, 7));
    var w := Wrap(y1.sessions[key], key, y1.now, 0, [tag], 7, true);
    assert w.msg == Garlic(ByElGamal, key, [tag], true, false, 7, now);
  }

  lemma LastThree(y: System, key: Key, tag: Tag, tag': Tag)
    requires Allowed(y, Confirm(7)) && 7 in y.created && y.created[7] == key && y.ids == {7} && key in y.sessions
    requires y.sessions[key].numTags == 1 && y.born.Keys == {tag} && y.inbox.table.Keys <= {tag} && tag != tag'
    ensures AllowedRun(y, [Confirm(7)] + ([Renew(key)] + ([Send(key, 0, [tag'], 8, true)] + [])))
  {
    var y1 := Step(y, Confirm(7));
    var y2 := Step(y1, Renew(key));
    assert Allowed(y2, Send(key, 0, [tag'], 8, true));
    RunCons(y2, Send(key, 0, [tag'], 8, true), []);
    RunCons(y1, Renew(key), [Send(key, 0, [tag'], 8, true)] + []);
    RunCons(y, Confirm(7), [Renew(key)] + ([Send(key, 0, [tag'], 8, true)] + []));
  }

  lemma FirstThree(y: System, a: Action, b: Action, c: Action, rest: seq<Action>)
    requires Allowed(y, a) && Allowed(Step(y, a), b) && Allowed(Step(Step(y, a), b), c)
    requires AllowedRun(Step(Step(Step(y, a), b), c), rest)
    ensures AllowedRun(y, [a] + ([b] + ([c] + rest)))
  {
    RunCons(Step(Step(y, a), b), c, rest);
    RunCons(Step(y, a), b, [c] + rest);
    RunCons(y, a, [b] + ([c] + rest));
  }

  /** A run on which a session opened without the LeaseSet sends it. */
  lemma SentAfterAll(now: nat, key: Key, tag: Tag, tag': Tag) returns (run: seq<Action>)
    requires tag != tag'
    ensures AllowedRun(Start(now), run) && Opens(run, 0, key, false, 7) && exists i: nat :: Carries(now, run, i, key)
  {
    var a, b := Open(key, 1, false, 7), Send(key, 0, [tag], 7, true);
    Answered(now, key, tag);
    var y := Step(Step(Step(Start(now), a), b), Receive(0));
    LastThree(y, key, tag, tag');
    var rest := [Confirm(7)] + ([Renew(key)] + ([Send(key, 0, [tag'], 8, true)] + []));
    FirstThree(Start(now), a, b, Receive(0), rest);
    run := [a] + ([b] + ([Receive(0)] + rest));
    FourthMoment(now, run, y);
    assert Settles(now, run, 3, key, 7) && Renews(run, 4, key) && Sends(run, 5, key);
    NeverUnlessGarbage(now, run, 0, key, 7);
  }

  lemma FourthMoment(now: nat, run: seq<Action>, y3: System)
    requires AllowedRun(Start(now), run) && |run| > 3 && Allowed(Start(now), run[0]) && Allowed(Step(Start(now), run[0]), run[1])
    requires Allowed(Step(Step(Start(now), run[0]), run[1]), run[2])
    requires y3 == Step(Step(Step(Start(now), run[0]), run[1]), run[2])
    ensures Before(now, run, 3) == y3
  {
    NextMoment(now, run, 0);
    NextMoment(now, run, 1);
    NextMoment(now, run, 2);
  }
}
