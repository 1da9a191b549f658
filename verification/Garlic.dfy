/**
 The two objects behind garlic encryption: a routing session with its tag lists, and the destination that
 owns sessions and keeps the table of tags it can be reached by.
 */
module Garlic {
  import opened Wrappers
  import opened Spec = GarlicTags

  class GarlicRoutingSession {
    const owner: GarlicDestination
    const sessionKey: Key
    const numTags: nat
    var sessionTags: seq<SessionTag>
    var unconfirmedTagsMsgs: map<MsgID, Batch>
    var leaseSetUpdateStatus: LeaseSetStatus
    var leaseSetUpdateMsgID: MsgID
    var leaseSetSubmissionTime: nat

    ghost function View(): Session
      reads this
    {
      Session(numTags, sessionTags, unconfirmedTagsMsgs, leaseSetUpdateStatus, leaseSetUpdateMsgID, leaseSetSubmissionTime)
    }

    /** `garbage` stands for the message number the source leaves uninitialised. */
    constructor (owner: GarlicDestination, key: Key, numTags: nat, attachLeaseSet: bool, garbage: MsgID)
      ensures View() == Session(numTags, [], map[], if attachLeaseSet then Updated else DoNotSend, garbage, 0)
      ensures this.owner == owner && sessionKey == key
    {
      this.owner, sessionKey, this.numTags := owner, key, numTags;
      sessionTags, unconfirmedTagsMsgs := [], map[];
      leaseSetUpdateStatus := if attachLeaseSet then Updated else DoNotSend;
      leaseSetUpdateMsgID, leaseSetSubmissionTime := garbage, 0;
    }

    method TagsConfirmed(id: MsgID, ts: nat)
      modifies this
      ensures View() == Spec.TagsConfirmed(old(View()), id, ts)
    {
      if id in unconfirmedTagsMsgs {
        var b := unconfirmedTagsMsgs[id];
        if ts < b.created + OUTGOING_TAGS_EXPIRATION_TIMEOUT {
          var tags := sessionTags;
          for i := 0 to |b.tags|
            invariant tags == sessionTags + Stamped(b.tags, b.created)[..i]
          {
            tags := tags + [SessionTag(b.tags[i], b.created)];
          }
          assert Stamped(b.tags, b.created)[..|b.tags|] == Stamped(b.tags, b.created);
          sessionTags := tags;
        } else {
          assert sessionTags + [] == sessionTags;
        }
        unconfirmedTagsMsgs := unconfirmedTagsMsgs - {id};
      }
    }

    /** Drops what has expired; true if something is left or nothing is pending. */
    method CleanupExpiredTags(ts: nat) returns (left: bool)
      modifies this, owner`createdSessions
      ensures View() == Spec.CleanupExpiredTags(old(View()), ts)
      ensures owner.createdSessions == old(owner.createdSessions) - Expired(old(View()), ts)
      ensures left == (sessionTags != [] || unconfirmedTagsMsgs == map[])
    {
      var kept := LiveOnly(sessionTags, ts);
      var batches, gone := LiveMessages(unconfirmedTagsMsgs, ts);
      sessionTags, unconfirmedTagsMsgs := kept, batches;
      owner.RemoveCreatedSessions(gone);
      left := sessionTags != [] || unconfirmedTagsMsgs == map[];
    }

    /** The loop that erases expired tags from the list. */
    static method LiveOnly(tags: seq<SessionTag>, ts: nat) returns (kept: seq<SessionTag>)
      ensures kept == LiveTags(tags, ts)
    {
      kept := [];
      var rest := tags;
      while rest != []
        invariant kept + LiveTags(rest, ts) == LiveTags(tags, ts)
        decreases |rest|
      {
        ghost var later := LiveTags(rest[1..], ts);
        if Live(rest[0], ts) {
          assert kept + ([rest[0]] + later) == kept + [rest[0]] + later;
          kept := kept + [rest[0]];
        } else {
          assert LiveTags(rest, ts) == later;
        }
        rest := rest[1..];
      }
      assert kept + [] == kept;
    }

    /** The loop that erases expired batches from the map and tells which messages they belonged to. */
    static method LiveMessages(batches: map<MsgID, Batch>, ts: nat) returns (kept: map<MsgID, Batch>, gone: set<MsgID>)
      ensures kept == LiveBatches(batches, ts) && gone == batches.Keys - kept.Keys
    {
      kept, gone := batches, {};
      var ids := batches.Keys;
      while ids != {}
        invariant ids <= batches.Keys && gone == batches.Keys - kept.Keys
        invariant forall id :: id in kept <==>
                    id in batches && (id in ids || ts < batches[id].created + OUTGOING_TAGS_EXPIRATION_TIMEOUT)
        invariant forall id :: id in kept ==> kept[id] == batches[id]
        decreases |ids|
      {
        var id :| id in ids;
        if ts >= batches[id].created + OUTGOING_TAGS_EXPIRATION_TIMEOUT {
          kept, gone := kept - {id}, gone + {id};
        }
        ids := ids - {id};
      }
    }

    method MessageConfirmed(id: MsgID, ts: nat)
      modifies this, owner`createdSessions
      ensures View() == Spec.MessageConfirmed(old(View()), id, ts)
      ensures owner.createdSessions == old(owner.createdSessions) - ExpiredOnConfirm(old(View()), id, ts)
    {
      TagsConfirmed(id, ts);
      if id == leaseSetUpdateMsgID {
        leaseSetUpdateStatus := UpToDate;
      } else {
        var left := CleanupExpiredTags(ts);
      }
    }

    method SetLeaseSetUpdated()
      modifies this`leaseSetUpdateStatus
      ensures View() == Renewed(old(View()))
    {
      if leaseSetUpdateStatus != DoNotSend {
        leaseSetUpdateStatus := Updated;
      }
    }

    /** The loop that looks for a tag that has not expired, dropping those that have. */
    static method FindTag(tags: seq<SessionTag>, ts: nat) returns (tag: Option<SessionTag>, rest: seq<SessionTag>)
      ensures Picked(tag, rest) == Pick(tags, ts)
    {
      tag, rest := None, tags;
      while rest != []
        invariant Pick(rest, ts) == Pick(tags, ts)
        decreases |rest|
      {
        if Live(rest[0], ts) {
          return Some(rest[0]), rest[1..];
        }
        rest := rest[1..];
      }
    }

    /** `drawn` and `id` are random; `tunnel` says whether an inbound tunnel was found. */
    method WrapSingleMessage(ts: nat, ms: nat, drawn: seq<Tag>, id: MsgID, tunnel: bool) returns (msg: Garlic)
      modifies this, owner`createdSessions
      ensures Wrapped(View(), msg) == Wrap(old(View()), sessionKey, ts, ms, drawn, id, tunnel)
      ensures owner.createdSessions ==
              if msg.status then old(owner.createdSessions)[id := this] else old(owner.createdSessions)
    {
      var tag: Option<SessionTag>, rest := None, sessionTags;
      if numTags > 0 {
        tag, rest := FindTag(sessionTags, ts);
      }
      sessionTags := rest;
      var creates := NeedsTags(numTags, sessionTags);
      if leaseSetUpdateStatus == Submitted && ms > leaseSetSubmissionTime + LEASESET_CONFIRMATION_TIMEOUT {
        leaseSetUpdateStatus := Updated;
      }
      var confirms := (creates || leaseSetUpdateStatus == Updated) && tunnel;
      if confirms {
        if creates {
          unconfirmedTagsMsgs := unconfirmedTagsMsgs[id := Batch(drawn, ts)];
        }
        owner.DeliveryStatusSent(this, id);
      }
      var attaches := leaseSetUpdateStatus == Updated;
      if attaches {
        leaseSetUpdateStatus, leaseSetUpdateMsgID, leaseSetSubmissionTime := Submitted, id, ms;
      }
      msg := Garlic(if tag.Some? then ByTag(tag.value.tag) else ByElGamal, sessionKey,
                    if creates then drawn else [], confirms, attaches, id, ts);
    }
  }

  class GarlicDestination {
    var tags: map<Tag, Entry>
    var lastTagsCleanupTime: nat
    var createdSessions: map<MsgID, GarlicRoutingSession>

    ghost function Table(): Inbox
      reads this`tags, this`lastTagsCleanupTime
    {
      Inbox(tags, lastTagsCleanupTime)
    }

    constructor ()
      ensures Table() == Inbox(map[], 0) && createdSessions == map[]
    {
      tags, lastTagsCleanupTime, createdSessions := map[], 0, map[];
    }

    method AddSessionKey(key: Key, tag: Tag, ts: nat)
      modifies this`tags
      ensures tags == Store(old(tags), [tag], key, ts)
    {
      AddTags([tag], key, ts);
    }

    method DeliveryStatusSent(session: GarlicRoutingSession, id: MsgID)
      modifies this`createdSessions
      ensures createdSessions == old(createdSessions)[id := session]
    {
      createdSessions := createdSessions[id := session];
    }

    method RemoveCreatedSessions(ids: set<MsgID>)
      modifies this`createdSessions
      ensures createdSessions == old(createdSessions) - ids
    {
      createdSessions := createdSessions - ids;
    }

    /** The loop of an AES block that stores its tags. */
    method AddTags(newTags: seq<Tag>, key: Key, ts: nat)
      modifies this`tags
      ensures tags == Store(old(tags), newTags, key, ts)
    {
      var table := tags;
      for i := 0 to |newTags|
        invariant forall t :: t in table <==> t in tags || t in newTags[..i]
        invariant forall t :: t in table ==>
                    table[t] == if t in newTags[..i] then Entry(key, if t in tags then tags[t].created else ts) else tags[t]
      {
        var t := newTags[i];
        assert newTags[..i + 1] == newTags[..i] + [t];
        table := table[t := Entry(key, if t in table then table[t].created else ts)];
      }
      assert newTags[..|newTags|] == newTags;
      tags := table;
    }

    /** The loop that erases the tags stored too long ago. */
    method EraseExpired(ts: nat)
      modifies this`tags
      ensures tags == Unexpired(old(tags), ts)
    {
      var table, left := tags, tags.Keys;
      while left != {}
        invariant left <= tags.Keys
        invariant forall t :: t in table <==>
                    t in tags && (t in left || ts <= tags[t].created + INCOMING_TAGS_EXPIRATION_TIMEOUT)
        invariant forall t :: t in table ==> table[t] == tags[t]
        decreases |left|
      {
        var t :| t in left;
        if ts > tags[t].created + INCOMING_TAGS_EXPIRATION_TIMEOUT {
          table := table - {t};
        }
        left := left - {t};
      }
      tags := table;
    }

    /** Whether the message could be read. */
    method HandleGarlicMessage(m: Garlic, ts: nat) returns (read: bool)
      modifies this`tags, this`lastTagsCleanupTime
      ensures Table() == HandleGarlic(old(Table()), m, ts) && read == Readable(old(tags), m)
    {
      read := Readable(tags, m);
      if read {
        AddTags(m.tags, m.key, ts);
      }
      if m.header.ByTag? {
        tags := tags - {m.header.tag};
      }
      assert tags == Opened(old(tags), m, ts);
      if ts > lastTagsCleanupTime + INCOMING_TAGS_EXPIRATION_TIMEOUT {
        if lastTagsCleanupTime != 0 {
          EraseExpired(ts);
        }
        lastTagsCleanupTime := ts;
      }
    }

    /** A DeliveryStatus confirms the message of the session that sent it, once. */
    method HandleDeliveryStatusMessage(id: MsgID, ts: nat)
      requires id in createdSessions ==> createdSessions[id].owner == this
      modifies this`createdSessions, if id in createdSessions then {createdSessions[id]} else {}
      ensures id !in createdSessions
      ensures id !in old(createdSessions) ==> createdSessions == old(createdSessions)
      ensures id in old(createdSessions) ==>
                var s := old(createdSessions)[id];
                && s.View() == Spec.MessageConfirmed(old(s.View()), id, ts)
                && createdSessions == old(createdSessions) - ({id} + ExpiredOnConfirm(old(s.View()), id, ts))
    {
      if id in createdSessions {
        var s := createdSessions[id];
        s.MessageConfirmed(id, ts);
        createdSessions := createdSessions - {id};
      }
    }
  }
}
