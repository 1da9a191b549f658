/**
 Routing sessions and the destination they send to, over a network that loses, repeats and reorders messages:
 no tag is spent twice, and a tag that is spent is understood.
 */
module GarlicProtocol {
  import opened Wrappers
  import opened GarlicTags

  /** Where a tag comes from. */
  datatype Birth = Birth(key: Key, id: MsgID, created: nat)

  /**
   `log` holds every garlic message ever sent and `acks` every DeliveryStatus ever returned. The rest is history:
   numbers drawn, messages confirmed, tags generated, where each tag was spent, and whose message has arrived.
   */
  datatype System = System(
    now: nat, sessions: map<Key, Session>, created: map<MsgID, Key>, inbox: Inbox,
    log: seq<Garlic>, acks: set<MsgID>,
    ids: set<MsgID>, confirmed: set<MsgID>, born: map<Tag, Birth>, spent: map<Tag, nat>, arrived: set<Tag>)

  datatype Action =
    | Tick(seconds: nat)
    | Open(key: Key, numTags: nat, attach: bool, garbage: MsgID)
    | Send(key: Key, ms: nat, drawn: seq<Tag>, id: MsgID, tunnel: bool)
    | Confirm(id: MsgID)
    | Sweep(key: Key)
    | Renew(key: Key)
    | Receive(i: nat)
    | Submit(tag: Tag, key: Key)

  function Start(now: nat): System {
    System(now, map[], map[], Inbox(map[], 0), [], {}, {}, {}, map[], map[], {})
  }

  /** Random numbers do not repeat, and a DeliveryStatus is received only if it was returned. */
  predicate Allowed(y: System, a: Action) {
    match a
    case Open(key, numTags, attach, garbage) => key !in y.sessions
    case Send(key, ms, drawn, id, tunnel) =>
      && key in y.sessions && id !in y.ids && |drawn| == y.sessions[key].numTags
      && (forall i, j :: 0 <= i < j < |drawn| ==> drawn[i] != drawn[j])
      && (forall t :: t in drawn ==> t !in y.born && t !in y.inbox.table)
    case Confirm(id) => id in y.acks
    case Sweep(key) => key in y.sessions
    case Renew(key) => key in y.sessions
    case Receive(i) => i < |y.log|
    case Submit(tag, key) => tag !in y.born
    case Tick(seconds) => true
  }

  function WithBirths(born: map<Tag, Birth>, tags: seq<Tag>, b: Birth): map<Tag, Birth> {
    map t | t in born.Keys + (set x | x in tags) :: if t in tags then b else born[t]
  }

  function DoSend(y: System, key: Key, w: Wrapped, id: MsgID): System
  {
    y.(sessions := y.sessions[key := w.session],
       created := if w.msg.status then y.created[id := key] else y.created,
       log := y.log + [w.msg], ids := y.ids + {id},
       born := WithBirths(y.born, w.msg.tags, Birth(key, id, y.now)),
       spent := if w.msg.header.ByTag? then y.spent[w.msg.header.tag := |y.log|] else y.spent)
  }

  function DoConfirm(y: System, id: MsgID): System {
    var y1 := y.(confirmed := y.confirmed + {id});
    if id !in y.created || y.created[id] !in y.sessions then y1
    else
      var key := y.created[id];
      var s := y.sessions[key];
      y1.(sessions := y.sessions[key := MessageConfirmed(s, id, y.now)],
          created := y.created - ({id} + ExpiredOnConfirm(s, id, y.now)))
  }

  function DoSweep(y: System, key: Key): System
    requires key in y.sessions
  {
    var s := y.sessions[key];
    y.(sessions := y.sessions[key := CleanupExpiredTags(s, y.now)], created := y.created - Expired(s, y.now))
  }

  function DoReceive(y: System, m: Garlic): System {
    y.(inbox := HandleGarlic(y.inbox, m, y.now),
       acks := if Readable(y.inbox.table, m) && m.status then y.acks + {m.id} else y.acks,
       arrived := if m.header.ByTag? then y.arrived + {m.header.tag} else y.arrived)
  }

  function Step(y: System, a: Action): System
    requires Allowed(y, a)
  {
    match a
    case Tick(seconds) => y.(now := y.now + seconds)
    case Open(key, numTags, attach, garbage) =>
      y.(sessions := y.sessions[key := Session(numTags, [], map[], if attach then Updated else DoNotSend, garbage, 0)])
    case Send(key, ms, drawn, id, tunnel) =>
      DoSend(y, key, Wrap(y.sessions[key], key, y.now, ms, drawn, id, tunnel), id)
    case Confirm(id) => DoConfirm(y, id)
    case Sweep(key) => DoSweep(y, key)
    case Renew(key) => y.(sessions := y.sessions[key := Renewed(y.sessions[key])])
    case Receive(i) => DoReceive(y, y.log[i])
    case Submit(tag, key) => y.(inbox := y.inbox.(table := Store(y.inbox.table, [tag], key, y.now)))
  }

  predicate AllowedRun(y: System, run: seq<Action>)
    decreases |run|
  {
    run == [] || (Allowed(y, run[0]) && AllowedRun(Step(y, run[0]), run[1..]))
  }

  function Run(y: System, run: seq<Action>): System
    requires AllowedRun(y, run)
    decreases |run|
  {
    if run == [] then y else Run(Step(y, run[0]), run[1..])
  }

  // ---------------------------------------------------------------- the invariant

  /** A tag of session `key`, generated at `created` for message `id` and not spent. */
  predicate Unspent(y: System, t: Tag, key: Key, created: nat) {
    t in y.born && y.born[t].key == key && y.born[t].created == created && t !in y.spent
  }

  ghost predicate ReadyOk(y: System, key: Key, ready: seq<SessionTag>) {
    && (forall i, j :: 0 <= i < j < |ready| ==> ready[i].tag != ready[j].tag)
    && (forall r :: r in ready ==> Unspent(y, r.tag, key, r.created) && y.born[r.tag].id in y.confirmed)
  }

  ghost predicate BatchOk(y: System, key: Key, id: MsgID, b: Batch) {
    && id in y.created && y.created[id] == key && id in y.ids && id !in y.confirmed
    && (forall i, j :: 0 <= i < j < |b.tags| ==> b.tags[i] != b.tags[j])
    && (forall t :: t in b.tags ==> Unspent(y, t, key, b.created) && y.born[t].id == id)
  }

  ghost predicate SessionOk(y: System, key: Key, s: Session) {
    ReadyOk(y, key, s.ready) && forall id :: id in s.unconfirmed ==> BatchOk(y, key, id, s.unconfirmed[id])
  }

  ghost predicate SessionsOk(y: System) {
    && (forall key :: key in y.sessions ==> SessionOk(y, key, y.sessions[key]))
    && (forall id :: id in y.created ==> y.created[id] in y.sessions && id in y.ids)
  }

  /** A spent tag was confirmed before and not yet expired. */
  ghost predicate SpentOk(y: System) {
    forall t :: t in y.spent ==>
      && y.spent[t] < |y.log| && y.log[y.spent[t]].header == ByTag(t)
      && t in y.born && y.born[t].key == y.log[y.spent[t]].key && y.born[t].id in y.confirmed
      && y.log[y.spent[t]].at < y.born[t].created + OUTGOING_TAGS_EXPIRATION_TIMEOUT
  }

  ghost predicate MessageOk(y: System, i: nat)
    requires i < |y.log|
  {
    var m := y.log[i];
    && m.id in y.ids && m.at <= y.now
    && (m.header.ByTag? ==> m.header.tag in y.spent && y.spent[m.header.tag] == i)
    && (forall t :: t in m.tags ==> t in y.born && y.born[t].key == m.key && y.born[t].id == m.id)
    && (forall t :: t in y.born && y.born[t].id == m.id ==> t in m.tags)
  }

  ghost predicate LogOk(y: System) {
    forall i :: 0 <= i < |y.log| ==> MessageOk(y, i)
  }

  /** A tag whose message was acknowledged is in the table until it is used, or until it is too old for that. */
  ghost predicate Held(y: System, t: Tag)
    requires t in y.born
  {
    t in y.inbox.table || y.now > y.born[t].created + INCOMING_TAGS_EXPIRATION_TIMEOUT
  }

  ghost predicate InboxOk(y: System) {
    && (forall t :: t in y.born && t in y.inbox.table ==>
          y.inbox.table[t].key == y.born[t].key && y.inbox.table[t].created >= y.born[t].created)
    && (forall t :: t in y.born && y.born[t].id in y.acks && t !in y.arrived ==> Held(y, t))
  }

  ghost predicate HistoryOk(y: System) {
    && y.confirmed <= y.acks <= y.ids
    && (forall t :: t in y.born ==> y.born[t].id in y.ids && y.born[t].created <= y.now)
    && (forall t :: t in y.arrived ==> t in y.spent)
  }

  ghost predicate Inv(y: System) {
    SessionsOk(y) && SpentOk(y) && LogOk(y) && InboxOk(y) && HistoryOk(y)
  }

  // ---------------------------------------------------------------- sending

  /** What is left after a pick is the end of the list, and the tag picked stood just before it and is live. */
  lemma {:induction false} PickFacts(ready: seq<SessionTag>, ts: nat)
    ensures var p := Pick(ready, ts);
            var k := |ready| - |p.rest|;
            && 0 <= k && p.rest == ready[k..]
            && (p.tag.Some? ==> k > 0 && p.tag.value == ready[k - 1] && Live(p.tag.value, ts))
  {
    if ready != [] && !Live(ready[0], ts) {
      PickFacts(ready[1..], ts);
      var p := Pick(ready[1..], ts);
      assert ready[1..][|ready[1..]| - |p.rest|..] == ready[|ready| - |p.rest|..];
    }
  }

  /** How wrapping a message changes a session. */
  ghost predicate WrapFacts(s: Session, key: Key, ts: nat, drawn: seq<Tag>, id: MsgID, w: Wrapped) {
    var k := |s.ready| - |w.session.ready|;
    && 0 <= k && w.session.ready == s.ready[k..]
    && (w.msg.header.ByTag? ==> k > 0 && w.msg.header.tag == s.ready[k - 1].tag && Live(s.ready[k - 1], ts))
    && w.msg.key == key && w.msg.id == id && w.msg.at == ts
    && (w.msg.tags == [] || w.msg.tags == drawn)
    && (w.session.unconfirmed == s.unconfirmed
        || (w.msg.status && w.msg.tags == drawn && w.session.unconfirmed == s.unconfirmed[id := Batch(drawn, ts)]))
  }

  lemma WrapMeans(s: Session, key: Key, ts: nat, ms: nat, drawn: seq<Tag>, id: MsgID, tunnel: bool)
    ensures WrapFacts(s, key, ts, drawn, id, Wrap(s, key, ts, ms, drawn, id, tunnel))
  {
    PickOrNot(s, ts);
    WrapWithMeans(s, if s.numTags > 0 then Pick(s.ready, ts) else Picked(None, s.ready), key, ts, ms, drawn, id, tunnel);
  }

  lemma WrapFields(s: Session, p: Picked, key: Key, ts: nat, ms: nat, drawn: seq<Tag>, id: MsgID, tunnel: bool)
    ensures var w := WrapWith(s, p, key, ts, ms, drawn, id, tunnel);
            && w.session.ready == p.rest && w.msg.header == (if p.tag.Some? then ByTag(p.tag.value.tag) else ByElGamal)
            && w.msg.key == key && w.msg.id == id && w.msg.at == ts && (w.msg.tags == [] || w.msg.tags == drawn)
    ensures var w := WrapWith(s, p, key, ts, ms, drawn, id, tunnel);
            w.session.unconfirmed == s.unconfirmed
            || (w.msg.status && w.msg.tags == drawn && w.session.unconfirmed == s.unconfirmed[id := Batch(drawn, ts)])
  {
  }

  lemma WrapWithMeans(s: Session, p: Picked, key: Key, ts: nat, ms: nat, drawn: seq<Tag>, id: MsgID, tunnel: bool)
    requires var k := |s.ready| - |p.rest|;
             && 0 <= k && p.rest == s.ready[k..]
             && (p.tag.Some? ==> k > 0 && p.tag.value == s.ready[k - 1] && Live(p.tag.value, ts))
    ensures WrapFacts(s, key, ts, drawn, id, WrapWith(s, p, key, ts, ms, drawn, id, tunnel))
  {
    WrapFields(s, p, key, ts, ms, drawn, id, tunnel);
    FieldsMean(s, p, key, ts, drawn, id, WrapWith(s, p, key, ts, ms, drawn, id, tunnel));
  }

  lemma FieldsMean(s: Session, p: Picked, key: Key, ts: nat, drawn: seq<Tag>, id: MsgID, w: Wrapped)
    requires var k := |s.ready| - |p.rest|;
             && 0 <= k && p.rest == s.ready[k..]
             && (p.tag.Some? ==> k > 0 && p.tag.value == s.ready[k - 1] && Live(p.tag.value, ts))
    requires w.session.ready == p.rest && w.msg.header == (if p.tag.Some? then ByTag(p.tag.value.tag) else ByElGamal)
    requires w.msg.key == key && w.msg.id == id && w.msg.at == ts && (w.msg.tags == [] || w.msg.tags == drawn)
    requires w.session.unconfirmed == s.unconfirmed
             || (w.msg.status && w.msg.tags == drawn && w.session.unconfirmed == s.unconfirmed[id := Batch(drawn, ts)])
    ensures WrapFacts(s, key, ts, drawn, id, w)
  {
  }

  lemma PickOrNot(s: Session, ts: nat)
    ensures var p := if s.numTags > 0 then Pick(s.ready, ts) else Picked(None, s.ready);
            var k := |s.ready| - |p.rest|;
            && 0 <= k && p.rest == s.ready[k..]
            && (p.tag.Some? ==> k > 0 && p.tag.value == s.ready[k - 1] && Live(p.tag.value, ts))
  {
    PickFacts(s.ready, ts);
    assert s.ready[0..] == s.ready;
  }

  ghost predicate Sending(y: System, key: Key, drawn: seq<Tag>, id: MsgID, w: Wrapped) {
    && Inv(y) && key in y.sessions && id !in y.ids && WrapFacts(y.sessions[key], key, y.now, drawn, id, w)
    && (forall i, j :: 0 <= i < j < |drawn| ==> drawn[i] != drawn[j])
    && (forall t :: t in drawn ==> t !in y.born && t !in y.inbox.table)
  }

  /** A tag picked is ready, so it is unspent and confirmed. */
  lemma PickedTag(y: System, key: Key, drawn: seq<Tag>, id: MsgID, w: Wrapped)
    requires Sending(y, key, drawn, id, w) && w.msg.header.ByTag?
    ensures var t := w.msg.header.tag;
            && t in y.born && y.born[t].key == key && t !in y.spent && y.born[t].id in y.confirmed
            && y.now < y.born[t].created + OUTGOING_TAGS_EXPIRATION_TIMEOUT
            && (forall r :: r in w.session.ready ==> r.tag != t)
  {
    var s := y.sessions[key];
    var k := |s.ready| - |w.session.ready|;
    assert SessionOk(y, key, s);
    assert s.ready[k - 1] in s.ready;
  }

  lemma SendReady(y: System, key: Key, drawn: seq<Tag>, id: MsgID, w: Wrapped)
    requires Sending(y, key, drawn, id, w)
    ensures ReadyOk(DoSend(y, key, w, id), key, w.session.ready)
  {
    var s := y.sessions[key];
    assert SessionOk(y, key, s);
    if w.msg.header.ByTag? {
      PickedTag(y, key, drawn, id, w);
    }
    forall r | r in w.session.ready ensures r in s.ready {
    }
  }

  /** Tags that are not the one spent stay as they were. */
  lemma SendKeeps(y: System, key: Key, drawn: seq<Tag>, id: MsgID, w: Wrapped, k: Key, t: Tag, created: nat)
    requires Sending(y, key, drawn, id, w) && Unspent(y, t, k, created)
    requires w.msg.header.ByTag? ==> w.msg.header.tag != t
    ensures var y' := DoSend(y, key, w, id); Unspent(y', t, k, created) && y'.born[t] == y.born[t]
  {
  }

  lemma SendBatch(y: System, key: Key, drawn: seq<Tag>, id: MsgID, w: Wrapped, k: Key, b: MsgID)
    requires Sending(y, key, drawn, id, w) && k in y.sessions && b in y.sessions[k].unconfirmed
    ensures BatchOk(DoSend(y, key, w, id), k, b, y.sessions[k].unconfirmed[b])
  {
    var batch := y.sessions[k].unconfirmed[b];
    assert SessionOk(y, k, y.sessions[k]);
    assert BatchOk(y, k, b, batch);
    forall t | t in batch.tags
      ensures Unspent(DoSend(y, key, w, id), t, k, batch.created) && DoSend(y, key, w, id).born[t].id == b
    {
      if w.msg.header.ByTag? {
        PickedTag(y, key, drawn, id, w);
      }
      SendKeeps(y, key, drawn, id, w, k, t, batch.created);
    }
  }

  lemma SendNewBatch(y: System, key: Key, drawn: seq<Tag>, id: MsgID, w: Wrapped)
    requires Sending(y, key, drawn, id, w) && w.msg.status && w.msg.tags == drawn
    ensures BatchOk(DoSend(y, key, w, id), key, id, Batch(drawn, y.now))
  {
    if w.msg.header.ByTag? {
      PickedTag(y, key, drawn, id, w);
    }
    forall t | t in drawn ensures t !in y.spent {
    }
  }

  lemma SendSessions(y: System, key: Key, drawn: seq<Tag>, id: MsgID, w: Wrapped)
    requires Sending(y, key, drawn, id, w)
    ensures SessionsOk(DoSend(y, key, w, id))
  {
    var y' := DoSend(y, key, w, id);
    forall k | k in y'.sessions ensures SessionOk(y', k, y'.sessions[k]) {
      forall b | b in y'.sessions[k].unconfirmed ensures BatchOk(y', k, b, y'.sessions[k].unconfirmed[b]) {
        if k == key && b == id {
          assert SessionOk(y, key, y.sessions[key]);
          assert id !in y.sessions[key].unconfirmed;
          SendNewBatch(y, key, drawn, id, w);
        } else {
          SendBatch(y, key, drawn, id, w, k, b);
        }
      }
      if k == key {
        SendReady(y, key, drawn, id, w);
      } else {
        SendOtherReady(y, key, drawn, id, w, k);
      }
    }
  }

  lemma SendOtherReady(y: System, key: Key, drawn: seq<Tag>, id: MsgID, w: Wrapped, k: Key)
    requires Sending(y, key, drawn, id, w) && k in y.sessions && k != key
    ensures ReadyOk(DoSend(y, key, w, id), k, y.sessions[k].ready)
  {
    assert SessionOk(y, k, y.sessions[k]);
    if w.msg.header.ByTag? {
      PickedTag(y, key, drawn, id, w);
    }
  }

  lemma SendHistory(y: System, key: Key, drawn: seq<Tag>, id: MsgID, w: Wrapped)
    requires Sending(y, key, drawn, id, w)
    ensures var y' := DoSend(y, key, w, id); SpentOk(y') && InboxOk(y') && HistoryOk(y')
  {
    if w.msg.header.ByTag? {
      PickedTag(y, key, drawn, id, w);
    }
  }

  lemma SendLog(y: System, key: Key, drawn: seq<Tag>, id: MsgID, w: Wrapped)
    requires Sending(y, key, drawn, id, w)
    ensures LogOk(DoSend(y, key, w, id))
  {
    var y' := DoSend(y, key, w, id);
    forall i | 0 <= i < |y'.log| ensures MessageOk(y', i) {
      if i < |y.log| {
        assert MessageOk(y, i);
        if w.msg.header.ByTag? {
          PickedTag(y, key, drawn, id, w);
        }
      }
    }
  }

  lemma SendOk(y: System, key: Key, drawn: seq<Tag>, id: MsgID, w: Wrapped)
    requires Sending(y, key, drawn, id, w)
    ensures Inv(DoSend(y, key, w, id))
  {
    SendSessions(y, key, drawn, id, w);
    SendHistory(y, key, drawn, id, w);
    SendLog(y, key, drawn, id, w);
  }

  // ---------------------------------------------------------------- confirming and cleaning up

  ghost predicate Distinct(ready: seq<SessionTag>) {
    forall i, j :: 0 <= i < j < |ready| ==> ready[i].tag != ready[j].tag
  }

  lemma {:induction false} LiveTagsFacts(ready: seq<SessionTag>, ts: nat)
    requires Distinct(ready)
    ensures Distinct(LiveTags(ready, ts)) && forall r :: r in LiveTags(ready, ts) ==> r in ready
  {
    if ready != [] {
      var rest := LiveTags(ready[1..], ts);
      LiveTagsFacts(ready[1..], ts);
      forall r | r in rest ensures r.tag != ready[0].tag && r in ready {
        var i :| 0 <= i < |ready[1..]| && ready[1..][i] == r;
        assert ready[i + 1] == r;
      }
      if Live(ready[0], ts) {
        assert LiveTags(ready, ts) == [ready[0]] + rest;
        assert forall j :: 0 <= j < |rest| ==> rest[j] in rest;
      } else {
        assert LiveTags(ready, ts) == rest;
      }
    }
  }

  /** A cleanup only ever drops tags. */
  lemma CleanupKeeps(y: System, key: Key, s: Session)
    requires SessionOk(y, key, s)
    ensures SessionOk(y, key, CleanupExpiredTags(s, y.now))
  {
    LiveTagsFacts(s.ready, y.now);
  }

  lemma StampedTags(tags: seq<Tag>, created: nat, r: SessionTag)
    requires r in Stamped(tags, created)
    ensures r.tag in tags && r.created == created
  {
    var i :| 0 <= i < |tags| && Stamped(tags, created)[i] == r;
  }

  /** Once its message is confirmed, a batch joins the ready tags. */
  lemma ConfirmReady(y: System, key: Key, s: Session, id: MsgID)
    requires SessionOk(y, key, s) && id in s.unconfirmed
    ensures ReadyOk(y.(confirmed := y.confirmed + {id}), key, TagsConfirmed(s, id, y.now).ready)
  {
    var b := s.unconfirmed[id];
    assert BatchOk(y, key, id, b);
    var more := Stamped(b.tags, b.created);
    forall r | r in more ensures Unspent(y, r.tag, key, r.created) && y.born[r.tag].id == id {
      StampedTags(b.tags, b.created, r);
    }
    forall i, j | 0 <= i < |s.ready| && 0 <= j < |more| ensures s.ready[i].tag != more[j].tag {
      assert s.ready[i] in s.ready && more[j] in more;
    }
    assert forall i, j :: 0 <= i < j < |more| ==> more[i].tag != more[j].tag;
  }

  lemma ConfirmedSession(y: System, key: Key, s: Session, id: MsgID)
    requires SessionOk(y, key, s) && id in y.created
    ensures var y1 := y.(confirmed := y.confirmed + {id});
            SessionOk(y1, key, TagsConfirmed(s, id, y.now)) && SessionOk(y1, key, MessageConfirmed(s, id, y.now))
  {
    var y1 := y.(confirmed := y.confirmed + {id});
    var s1 := TagsConfirmed(s, id, y.now);
    if id in s.unconfirmed {
      ConfirmReady(y, key, s, id);
    }
    forall b | b in s1.unconfirmed ensures BatchOk(y1, key, b, s1.unconfirmed[b]) {
      assert BatchOk(y, key, b, s.unconfirmed[b]);
    }
    assert SessionOk(y1, key, s1);
    CleanupKeeps(y1, key, s1);
  }

  /** A session none of whose pending messages is forgotten stays in order. */
  lemma ForgetOthers(y: System, key: Key, s: Session, ids: set<MsgID>)
    requires SessionOk(y, key, s) && forall b :: b in s.unconfirmed ==> b !in ids
    ensures SessionOk(y.(created := y.created - ids), key, s)
  {
    forall b | b in s.unconfirmed ensures BatchOk(y.(created := y.created - ids), key, b, s.unconfirmed[b]) {
      assert BatchOk(y, key, b, s.unconfirmed[b]);
    }
  }

  lemma SessionOkDependsOn(y: System, y': System, key: Key, s: Session)
    requires SessionOk(y, key, s)
    requires y.born == y'.born && y.spent == y'.spent && y.confirmed == y'.confirmed && y.created == y'.created && y.ids == y'.ids
    ensures SessionOk(y', key, s)
  {
    forall b | b in s.unconfirmed ensures BatchOk(y', key, b, s.unconfirmed[b]) {
      assert BatchOk(y, key, b, s.unconfirmed[b]);
    }
  }

  /** Replacing one session by a later state of it, and forgetting messages that are pending nowhere. */
  lemma ReplaceSession(y: System, y': System, key: Key, s: Session, ids: set<MsgID>)
    requires SessionsOk(y) && key in y.sessions && y' == y.(sessions := y.sessions[key := s], created := y.created - ids)
    requires SessionOk(y, key, s) && (forall b :: b in s.unconfirmed ==> b !in ids)
    requires forall b :: b in ids && b in y.created ==> y.created[b] == key
    ensures SessionsOk(y')
  {
    forall k | k in y'.sessions ensures SessionOk(y', k, y'.sessions[k]) {
      var t := y'.sessions[k];
      assert SessionOk(y, k, t);
      forall b | b in t.unconfirmed ensures b !in ids {
        assert BatchOk(y, k, b, t.unconfirmed[b]);
      }
      ForgetOthers(y, k, t, ids);
      SessionOkDependsOn(y.(created := y.created - ids), y', k, t);
    }
  }

  lemma SweepOk(y: System, key: Key)
    requires Inv(y) && key in y.sessions
    ensures Inv(DoSweep(y, key))
  {
    var s := y.sessions[key];
    var y' := DoSweep(y, key);
    CleanupKeeps(y, key, s);
    forall b | b in Expired(s, y.now) && b in y.created ensures y.created[b] == key {
      assert BatchOk(y, key, b, s.unconfirmed[b]);
    }
    ReplaceSession(y, y', key, CleanupExpiredTags(s, y.now), Expired(s, y.now));
    SameHistory(y, y');
  }

  /** The rest of the invariant does not depend on the sessions. */
  lemma SameHistory(y: System, y': System)
    requires Inv(y) && SessionsOk(y')
    requires y' == y.(sessions := y'.sessions, created := y'.created, confirmed := y'.confirmed)
    requires y.confirmed <= y'.confirmed <= y.acks
    ensures Inv(y')
  {
    forall i | 0 <= i < |y'.log| ensures MessageOk(y', i) {
      assert MessageOk(y, i);
    }
    forall t | t in y'.born && y'.born[t].id in y'.acks && t !in y'.arrived ensures Held(y', t) {
      assert Held(y, t);
    }
  }

  lemma ConfirmUnknown(y: System, id: MsgID)
    requires SessionsOk(y) && id !in y.created
    ensures SessionsOk(y.(confirmed := y.confirmed + {id}))
  {
    var y' := y.(confirmed := y.confirmed + {id});
    forall k | k in y'.sessions ensures SessionOk(y', k, y'.sessions[k]) {
      var s := y.sessions[k];
      assert SessionOk(y, k, s);
      forall b | b in s.unconfirmed ensures BatchOk(y', k, b, s.unconfirmed[b]) {
        assert BatchOk(y, k, b, s.unconfirmed[b]);
      }
    }
  }

  /** Confirming a message leaves the other sessions, whose messages are different ones, in order. */
  lemma ConfirmOthers(y: System, id: MsgID, k: Key)
    requires SessionsOk(y) && id in y.created && k in y.sessions && k != y.created[id]
    ensures SessionOk(y.(confirmed := y.confirmed + {id}), k, y.sessions[k])
  {
    var y1, s := y.(confirmed := y.confirmed + {id}), y.sessions[k];
    assert SessionOk(y, k, s);
    forall b | b in s.unconfirmed ensures BatchOk(y1, k, b, s.unconfirmed[b]) {
      assert BatchOk(y, k, b, s.unconfirmed[b]);
    }
  }

  lemma ConfirmKnown(y: System, id: MsgID)
    requires Inv(y) && id in y.created
    ensures SessionsOk(DoConfirm(y, id))
  {
    var key := y.created[id];
    var s := y.sessions[key];
    var s', gone := MessageConfirmed(s, id, y.now), {id} + ExpiredOnConfirm(s, id, y.now);
    var y1 := y.(confirmed := y.confirmed + {id});
    assert SessionOk(y, key, s);
    ConfirmedSession(y, key, s, id);
    forall b | b in gone && b in y.created ensures y.created[b] == key {
      if b != id {
        assert BatchOk(y, key, b, s.unconfirmed[b]);
      }
    }
    var y2 := y1.(sessions := y1.sessions[key := s']);
    forall k | k in y2.sessions ensures SessionOk(y2, k, y2.sessions[k]) {
      if k != key {
        ConfirmOthers(y, id, k);
      }
      SessionOkDependsOn(y1, y2, k, y2.sessions[k]);
    }
    assert DoConfirm(y, id) == y2.(sessions := y2.sessions[key := s'], created := y2.created - gone);
    ReplaceSession(y2, DoConfirm(y, id), key, s', gone);
  }

  lemma ConfirmOk(y: System, id: MsgID)
    requires Inv(y) && id in y.acks
    ensures Inv(DoConfirm(y, id))
  {
    if id in y.created {
      ConfirmKnown(y, id);
    } else {
      ConfirmUnknown(y, id);
    }
    SameHistory(y, DoConfirm(y, id));
  }

  // ---------------------------------------------------------------- receiving

  /** Tags once held stay held, but for the one used up. */
  lemma ReceiveHeld(y: System, i: nat, t: Tag)
    requires Inv(y) && i < |y.log| && t in y.born
    requires y.born[t].id in DoReceive(y, y.log[i]).acks && t !in DoReceive(y, y.log[i]).arrived
    ensures Held(DoReceive(y, y.log[i]), t)
  {
    var m := y.log[i];
    assert MessageOk(y, i);
    if y.born[t].id in y.acks {
      assert Held(y, t);
    } else {
      assert t in m.tags;
    }
  }

  lemma ReceiveTable(y: System, i: nat, t: Tag)
    requires Inv(y) && i < |y.log| && t in y.born && t in DoReceive(y, y.log[i]).inbox.table
    ensures var e := DoReceive(y, y.log[i]).inbox.table[t]; e.key == y.born[t].key && e.created >= y.born[t].created
  {
    assert MessageOk(y, i);
  }

  lemma ReceiveOk(y: System, i: nat)
    requires Inv(y) && i < |y.log|
    ensures Inv(DoReceive(y, y.log[i]))
  {
    var y' := DoReceive(y, y.log[i]);
    assert MessageOk(y, i);
    forall t | t in y'.born && y'.born[t].id in y'.acks && t !in y'.arrived ensures Held(y', t) {
      ReceiveHeld(y, i, t);
    }
    forall t | t in y'.born && t in y'.inbox.table
      ensures y'.inbox.table[t].key == y'.born[t].key && y'.inbox.table[t].created >= y'.born[t].created
    {
      ReceiveTable(y, i, t);
    }
    forall k | k in y'.sessions ensures SessionOk(y', k, y'.sessions[k]) {
      SessionOkDependsOn(y, y', k, y.sessions[k]);
    }
    forall j | 0 <= j < |y'.log| ensures MessageOk(y', j) {
      assert MessageOk(y, j);
    }
  }

  // ---------------------------------------------------------------- whole runs

  lemma TickOk(y: System, seconds: nat)
    requires Inv(y)
    ensures Inv(y.(now := y.now + seconds))
  {
    var y' := y.(now := y.now + seconds);
    forall t | t in y'.born && y'.born[t].id in y'.acks && t !in y'.arrived ensures Held(y', t) {
      assert Held(y, t);
    }
    forall k | k in y'.sessions ensures SessionOk(y', k, y'.sessions[k]) {
      SessionOkDependsOn(y, y', k, y.sessions[k]);
    }
    forall j | 0 <= j < |y'.log| ensures MessageOk(y', j) {
      assert MessageOk(y, j);
    }
  }

  lemma SubmitOk(y: System, tag: Tag, key: Key)
    requires Inv(y) && tag !in y.born
    ensures Inv(Step(y, Submit(tag, key)))
  {
    var y' := Step(y, Submit(tag, key));
    forall t | t in y'.born && y'.born[t].id in y'.acks && t !in y'.arrived ensures Held(y', t) {
      assert Held(y, t);
    }
    forall k | k in y'.sessions ensures SessionOk(y', k, y'.sessions[k]) {
      SessionOkDependsOn(y, y', k, y.sessions[k]);
    }
    forall j | 0 <= j < |y'.log| ensures MessageOk(y', j) {
      assert MessageOk(y, j);
    }
  }

  /** A new session, or a change of LeaseSet status, touches no tag. */
  lemma SessionStartOk(y: System, key: Key, s: Session)
    requires Inv(y) && SessionOk(y, key, s)
    ensures Inv(y.(sessions := y.sessions[key := s]))
  {
    var y' := y.(sessions := y.sessions[key := s]);
    forall k | k in y'.sessions ensures SessionOk(y', k, y'.sessions[k]) {
      SessionOkDependsOn(y, y', k, y'.sessions[k]);
    }
    SameHistory(y, y');
  }

  lemma StepOk(y: System, a: Action)
    requires Inv(y) && Allowed(y, a)
    ensures Inv(Step(y, a))
  {
    match a
    case Tick(seconds) => TickOk(y, seconds);
    case Open(key, numTags, attach, garbage) =>
      SessionStartOk(y, key, Session(numTags, [], map[], if attach then Updated else DoNotSend, garbage, 0));
    case Send(key, ms, drawn, id, tunnel) =>
      WrapMeans(y.sessions[key], key, y.now, ms, drawn, id, tunnel);
      SendOk(y, key, drawn, id, Wrap(y.sessions[key], key, y.now, ms, drawn, id, tunnel));
    case Confirm(id) => ConfirmOk(y, id);
    case Sweep(key) => SweepOk(y, key);
    case Renew(key) =>
      var s := y.sessions[key];
      assert SessionOk(y, key, s);
      SessionStartOk(y, key, Renewed(s));
    case Receive(i) => ReceiveOk(y, i);
    case Submit(tag, key) => SubmitOk(y, tag, key);
  }

  lemma {:induction false} RunOk(y: System, run: seq<Action>)
    requires Inv(y) && AllowedRun(y, run)
    ensures Inv(Run(y, run))
    decreases |run|
  {
    if run != [] {
      StepOk(y, run[0]);
      RunOk(Step(y, run[0]), run[1..]);
    }
  }

  // ---------------------------------------------------------------- conservation

  predicate IsReady(y: System, key: Key, t: Tag) {
    key in y.sessions && exists r :: r in y.sessions[key].ready && r.tag == t
  }

  predicate IsPending(y: System, key: Key, id: MsgID, t: Tag) {
    key in y.sessions && id in y.sessions[key].unconfirmed && t in y.sessions[key].unconfirmed[id].tags
  }

  /** Message `i` used tag `t`. */
  predicate Uses(y: System, i: nat, t: Tag) {
    i < |y.log| && y.log[i].header == ByTag(t)
  }

  /**
   After any run, a tag is waiting for confirmation in one place only, or ready, or spent, never two of these;
   and no two messages use the same tag.
   */
  lemma TagConservation(now: nat, run: seq<Action>, t: Tag)
    requires AllowedRun(Start(now), run)
    ensures var y := Run(Start(now), run);
            && (forall k, k', id :: IsReady(y, k, t) ==> !IsPending(y, k', id, t))
            && (forall k, k' :: IsReady(y, k, t) && IsReady(y, k', t) ==> k == k')
            && (forall k :: k in y.sessions ==> Distinct(y.sessions[k].ready))
            && (forall k, k', id, id' :: IsPending(y, k, id, t) && IsPending(y, k', id', t) ==> k == k' && id == id')
            && (forall i, k :: Uses(y, i, t) ==> !IsReady(y, k, t))
            && (forall i, k, id :: Uses(y, i, t) ==> !IsPending(y, k, id, t))
            && (forall i, j :: Uses(y, i, t) && Uses(y, j, t) ==> i == j)
  {
    RunOk(Start(now), run);
    var y := Run(Start(now), run);
    forall k | IsReady(y, k, t) ensures t in y.born && y.born[t].key == k && y.born[t].id in y.confirmed && t !in y.spent {
      assert SessionOk(y, k, y.sessions[k]);
    }
    forall k | k in y.sessions ensures Distinct(y.sessions[k].ready) {
      assert SessionOk(y, k, y.sessions[k]);
    }
    forall k, id | IsPending(y, k, id, t)
      ensures t in y.born && y.born[t].key == k && y.born[t].id == id && id !in y.confirmed && t !in y.spent
    {
      assert SessionOk(y, k, y.sessions[k]);
      assert BatchOk(y, k, id, y.sessions[k].unconfirmed[id]);
    }
    forall i | Uses(y, i, t) ensures t in y.spent && y.spent[t] == i {
      assert MessageOk(y, i);
    }
  }

  /** A tag is used only after its own message was confirmed, which the receiver did, and less than 720 s after its creation. */
  lemma SpentInTime(now: nat, run: seq<Action>, i: nat, t: Tag)
    requires AllowedRun(Start(now), run) && Uses(Run(Start(now), run), i, t)
    ensures var y := Run(Start(now), run);
            && t in y.born && y.born[t].key == y.log[i].key && y.born[t].id in y.confirmed && y.born[t].id in y.acks
            && y.log[i].at < y.born[t].created + OUTGOING_TAGS_EXPIRATION_TIMEOUT
  {
    RunOk(Start(now), run);
    assert MessageOk(Run(Start(now), run), i);
  }

  // ---------------------------------------------------------------- agreement

  /**
   Every tag the sender picks is known to the receiver: until the first copy of its message arrives, and for 241 s
   at least, the tag is in the table and stands for the sender's key.
   */
  lemma TagAgreement(now: nat, run: seq<Action>, i: nat, t: Tag)
    requires AllowedRun(Start(now), run) && Uses(Run(Start(now), run), i, t)
    requires var y := Run(Start(now), run); t !in y.arrived && y.now <= y.log[i].at + 241
    ensures var y := Run(Start(now), run); t in y.inbox.table && y.inbox.table[t].key == y.log[i].key
  {
    RunOk(Start(now), run);
    var y := Run(Start(now), run);
    assert MessageOk(y, i);
    assert Held(y, t);
  }

  /** So that copy is read: its new tags are stored under the session's key, and its DeliveryStatus goes back. */
  lemma FirstCopyIsRead(now: nat, run: seq<Action>, i: nat, t: Tag)
    requires AllowedRun(Start(now), run) && Uses(Run(Start(now), run), i, t)
    requires var y := Run(Start(now), run); t !in y.arrived && y.now <= y.log[i].at + 241
    ensures var y := Run(Start(now), run);
            var y' := Step(y, Receive(i));
            && (forall n :: n in y.log[i].tags && n != t && n !in y.inbox.table ==>
                  n in y'.inbox.table && y'.inbox.table[n].key == y.log[i].key && y'.inbox.table[n].created == y.now)
            && (y.log[i].status ==> y.log[i].id in y'.acks)
            && t !in y'.inbox.table
  {
    TagAgreement(now, run, i, t);
    RunOk(Start(now), run);
    ReadCopy(Run(Start(now), run), Run(Start(now), run).log[i], t);
  }

  /** A message under a tag in the table. */
  lemma ReadCopy(y: System, m: Garlic, t: Tag)
    requires m.header == ByTag(t) && t in y.inbox.table && y.inbox.table[t].key == m.key
    ensures var y' := DoReceive(y, m);
            && (forall n :: n in m.tags && n != t && n !in y.inbox.table ==>
                  n in y'.inbox.table && y'.inbox.table[n].key == m.key && y'.inbox.table[n].created == y.now)
            && (m.status ==> m.id in y'.acks) && t !in y'.inbox.table
  {
  }

  lemma RunCons(y: System, a: Action, rest: seq<Action>)
    requires Allowed(y, a) && AllowedRun(Step(y, a), rest)
    ensures AllowedRun(y, [a] + rest) && Run(y, [a] + rest) == Run(Step(y, a), rest)
  {
    assert ([a] + rest)[1..] == rest;
  }

  /** A session's first message: its tags are stored, confirmed and all ready. */
  lemma FirstMessage(y: System, key: Key, drawn: seq<Tag>, id: MsgID)
    requires y.now > INCOMING_TAGS_EXPIRATION_TIMEOUT && y.inbox == Inbox(map[], 0) && y.log == [] && y.acks == {}
    requires key in y.sessions && y.sessions[key] == Session(4, [], map[], DoNotSend, 0, 0) && id > 0
    requires y.created == map[] && |drawn| == 4
    ensures var m := Garlic(ByElGamal, key, drawn, true, false, id, y.now);
            var y1 := DoSend(y, key, Wrap(y.sessions[key], key, y.now, 0, drawn, id, true), id);
            var y2 := DoReceive(y1, m);
            var y3 := DoConfirm(y2, id);
            && y1.log == [m] && id in y2.acks && y3.log == [m] && y3.now == y.now && y3.inbox.lastCleanup == y.now
            && (forall t :: t in y3.inbox.table ==> y3.inbox.table[t].created == y.now)
            && y3.sessions == y.sessions[key := Session(4, Stamped(drawn, y.now), map[], DoNotSend, 0, 0)]
            && y3.arrived == y.arrived && y3.ids == y.ids + {id}
            && (forall t :: t in y3.inbox.table <==> t in drawn) && y3.born == y1.born
  {
    var s := y.sessions[key];
    var w := Wrap(s, key, y.now, 0, drawn, id, true);
    assert w.msg == Garlic(ByElGamal, key, drawn, true, false, id, y.now);
    var s1 := w.session;
    assert s1.unconfirmed == map[id := Batch(drawn, y.now)];
    var y1 := DoSend(y, key, w, id);
    var y2 := DoReceive(y1, w.msg);
    var ready := Stamped(drawn, y.now);
    AllLive(ready, y.now);
    assert TagsConfirmed(s1, id, y.now).ready == [] + ready == ready;
    assert TagsConfirmed(s1, id, y.now).unconfirmed == map[];
  }

  lemma {:induction false} AllLive(ready: seq<SessionTag>, ts: nat)
    requires forall i :: 0 <= i < |ready| ==> Live(ready[i], ts)
    ensures LiveTags(ready, ts) == ready
  {
    if ready != [] {
      AllLive(ready[1..], ts);
      assert ready == [ready[0]] + ready[1..];
    }
  }

  /** A tag used at the last moment, and a repeated message just before its own arrives too late. */
  lemma LateMessage(y: System, key: Key, m: Garlic, drawn: seq<Tag>, more: seq<Tag>, id: MsgID)
    requires key in y.sessions && y.sessions[key] == Session(4, Stamped(drawn, y.now), map[], DoNotSend, 0, 0) && |drawn| == 4
    requires y.log == [m] && m.header == ByElGamal && y.inbox.lastCleanup == y.now > 0
    requires m.tags == drawn && drawn[0] in y.inbox.table && y.inbox.table[drawn[0]].created == y.now
    ensures var y1 := y.(now := y.now + 719);
            var w := Wrap(y1.sessions[key], key, y1.now, 0, more, id, true);
            var y2 := DoSend(y1, key, w, id);
            var y3 := y2.(now := y2.now + 242);
            var y4 := DoReceive(y3, m);
            && y2.log == [m, w.msg] && w.msg.header == ByTag(drawn[0]) && w.msg.at == y.now + 719 && y4.arrived == y.arrived
            && drawn[0] !in y4.inbox.table
  {
    var ready := Stamped(drawn, y.now);
    assert ready[0] == SessionTag(drawn[0], y.now);
    assert Live(ready[0], y.now + 719);
    assert Pick(ready, y.now + 719) == Picked(Some(ready[0]), ready[1..]);
  }

  /** The state after a confirmed first message. */
  ghost predicate AfterFirst(y: System, m: Garlic, key: Key, drawn: seq<Tag>) {
    && key in y.sessions && y.sessions[key] == Session(4, Stamped(drawn, y.now), map[], DoNotSend, 0, 0) && |drawn| == 4
    && y.log == [m] && m.header == ByElGamal && y.inbox.lastCleanup == y.now > 0 && y.arrived == {} && y.ids == {1}
    && m.tags == drawn && (forall t :: t in y.inbox.table <==> t in drawn) && (forall t :: t in y.born ==> t in drawn)
    && forall t :: t in y.inbox.table ==> y.inbox.table[t].created == y.now
  }

  lemma FirstDone(y: System, key: Key, drawn: seq<Tag>)
    requires y.now > INCOMING_TAGS_EXPIRATION_TIMEOUT && y.inbox == Inbox(map[], 0) && y.log == [] && y.acks == {}
    requires key in y.sessions && y.sessions[key] == Session(4, [], map[], DoNotSend, 0, 0)
    requires y.created == map[] && y.born == map[] && y.ids == {} && y.arrived == {} && |drawn| == 4
    ensures var m := Garlic(ByElGamal, key, drawn, true, false, 1, y.now);
            var y1 := DoSend(y, key, Wrap(y.sessions[key], key, y.now, 0, drawn, 1, true), 1);
            var y2 := DoReceive(y1, m);
            y1.log == [m] && 1 in y2.acks && AfterFirst(DoConfirm(y2, 1), m, key, drawn)
  {
    FirstMessage(y, key, drawn, 1);
  }

  lemma LateRun(y: System, m: Garlic, key: Key, drawn: seq<Tag>, more: seq<Tag>) returns (run: seq<Action>)
    requires AfterFirst(y, m, key, drawn)
    requires |more| == 4 && (forall i, j :: 0 <= i < j < |more| ==> more[i] != more[j])
    requires forall t :: t in more ==> t !in drawn
    ensures AllowedRun(y, run)
    ensures var y' := Run(y, run);
            Uses(y', 1, drawn[0]) && drawn[0] !in y'.arrived && y'.now == y'.log[1].at + 242 && drawn[0] !in y'.inbox.table
  {
    assert drawn[0] in drawn;
    LateMessage(y, key, m, drawn, more, 2);
    var c := Send(key, 0, more, 2, true);
    var y1 := Step(y, Tick(719));
    var y2 := Step(y1, c);
    var y3 := Step(y2, Tick(242));
    var y4 := Step(y3, Receive(0));
    RunCons(y3, Receive(0), []);
    RunCons(y2, Tick(242), [Receive(0)] + []);
    RunCons(y1, c, [Tick(242)] + ([Receive(0)] + []));
    run := [Tick(719)] + ([c] + ([Tick(242)] + ([Receive(0)] + [])));
    RunCons(y, Tick(719), [c] + ([Tick(242)] + ([Receive(0)] + [])));
    assert Run(y, run) == y4;
  }

  /** The bound is sharp: 242 s after a tag was picked, the first copy of its message can find the tag gone. */
  lemma BoundIsSharp(now: nat, key: Key, drawn: seq<Tag>, more: seq<Tag>) returns (run: seq<Action>)
    requires now > INCOMING_TAGS_EXPIRATION_TIMEOUT && |drawn| == 4 && |more| == 4
    requires forall i, j :: 0 <= i < j < |drawn| ==> drawn[i] != drawn[j]
    requires forall i, j :: 0 <= i < j < |more| ==> more[i] != more[j]
    requires forall t :: t in more ==> t !in drawn
    ensures AllowedRun(Start(now), run)
    ensures var y := Run(Start(now), run);
            Uses(y, 1, drawn[0]) && drawn[0] !in y.arrived && y.now == y.log[1].at + 242 && drawn[0] !in y.inbox.table
  {
    var a, b := Open(key, 4, false, 0), Send(key, 0, drawn, 1, true);
    var y0 := Start(now);
    var y1 := Step(y0, a);
    FirstDone(y1, key, drawn);
    var y2 := Step(y1, b);
    var y3 := Step(y2, Receive(0));
    var y4 := Step(y3, Confirm(1));
    var tail := LateRun(y4, y2.log[0], key, drawn, more);
    RunFour(y0, a, b, Receive(0), Confirm(1), tail);
    run := [a] + ([b] + ([Receive(0)] + ([Confirm(1)] + tail)));
  }

  lemma RunFour(y: System, a: Action, b: Action, c: Action, d: Action, rest: seq<Action>)
    requires Allowed(y, a) && Allowed(Step(y, a), b) && Allowed(Step(Step(y, a), b), c)
    requires Allowed(Step(Step(Step(y, a), b), c), d) && AllowedRun(Step(Step(Step(Step(y, a), b), c), d), rest)
    ensures var run := [a] + ([b] + ([c] + ([d] + rest)));
            AllowedRun(y, run) && Run(y, run) == Run(Step(Step(Step(Step(y, a), b), c), d), rest)
  {
    var y1 := Step(y, a);
    var y2 := Step(y1, b);
    RunCons(Step(y2, c), d, rest);
    RunCons(y2, c, [d] + rest);
    RunCons(y1, b, [c] + ([d] + rest));
    RunCons(y, a, [b] + ([c] + ([d] + rest)));
  }
}
