/**
 Garlic session tags: what a routing session does with its tags, and what the destination that receives
 its messages does with its tag table.
 */
module GarlicTags {
  import opened Wrappers

  /** 32 random bytes, as numbers. */
  type Tag = nat
  type Key = nat
  type MsgID = nat

  const INCOMING_TAGS_EXPIRATION_TIMEOUT: nat := 960
  const OUTGOING_TAGS_EXPIRATION_TIMEOUT: nat := 720
  const LEASESET_CONFIRMATION_TIMEOUT: nat := 4000

  datatype SessionTag = SessionTag(tag: Tag, created: nat)

  /** Tags sent in one message and not confirmed yet. */
  datatype Batch = Batch(tags: seq<Tag>, created: nat)

  datatype LeaseSetStatus = UpToDate | Updated | Submitted | DoNotSend

  datatype Session = Session(
    numTags: nat, ready: seq<SessionTag>, unconfirmed: map<MsgID, Batch>,
    status: LeaseSetStatus, updateId: MsgID, submitted: nat)

  datatype Header = ByTag(tag: Tag) | ByElGamal

  /**
   A garlic message: how its key is found, its new tags, whether it asks for a DeliveryStatus, and whether it carries the
   LeaseSet.
   */
  datatype Garlic = Garlic(header: Header, key: Key, tags: seq<Tag>, status: bool, leaseSet: bool, id: MsgID, at: nat)

  // ---------------------------------------------------------------- the sending session

  function Live(t: SessionTag, ts: nat): bool {
    ts < t.created + OUTGOING_TAGS_EXPIRATION_TIMEOUT
  }

  datatype Picked = Picked(tag: Option<SessionTag>, rest: seq<SessionTag>)

  /** The first tag that has not expired; those before it are dropped. */
  function Pick(ready: seq<SessionTag>, ts: nat): Picked {
    if ready == [] then Picked(None, [])
    else if Live(ready[0], ts) then Picked(Some(ready[0]), ready[1..])
    else Pick(ready[1..], ts)
  }

  function Stamped(tags: seq<Tag>, created: nat): (r: seq<SessionTag>)
    ensures |r| == |tags| && forall i :: 0 <= i < |tags| ==> r[i] == SessionTag(tags[i], created)
  {
    if tags == [] then [] else [SessionTag(tags[0], created)] + Stamped(tags[1..], created)
  }

  function TagsConfirmed(s: Session, id: MsgID, ts: nat): Session {
    if id !in s.unconfirmed then s
    else
      var b := s.unconfirmed[id];
      var more := if ts < b.created + OUTGOING_TAGS_EXPIRATION_TIMEOUT then Stamped(b.tags, b.created) else [];
      s.(ready := s.ready + more, unconfirmed := s.unconfirmed - {id})
  }

  function LiveTags(ready: seq<SessionTag>, ts: nat): seq<SessionTag> {
    if ready == [] then []
    else (if Live(ready[0], ts) then [ready[0]] else []) + LiveTags(ready[1..], ts)
  }

  function LiveBatches(m: map<MsgID, Batch>, ts: nat): map<MsgID, Batch> {
    map id | id in m && ts < m[id].created + OUTGOING_TAGS_EXPIRATION_TIMEOUT :: m[id]
  }

  function CleanupExpiredTags(s: Session, ts: nat): Session {
    s.(ready := LiveTags(s.ready, ts), unconfirmed := LiveBatches(s.unconfirmed, ts))
  }

  /** The messages given up by a cleanup. */
  function Expired(s: Session, ts: nat): set<MsgID> {
    s.unconfirmed.Keys - LiveBatches(s.unconfirmed, ts).Keys
  }

  function MessageConfirmed(s: Session, id: MsgID, ts: nat): Session {
    var s1 := TagsConfirmed(s, id, ts);
    if id == s.updateId then s1.(status := UpToDate) else CleanupExpiredTags(s1, ts)
  }

  /** The other messages given up when `id` is confirmed. */
  function ExpiredOnConfirm(s: Session, id: MsgID, ts: nat): set<MsgID> {
    if id == s.updateId then {} else Expired(TagsConfirmed(s, id, ts), ts)
  }

  /** A new message takes along new tags when at most two thirds are left. */
  function NeedsTags(numTags: nat, ready: seq<SessionTag>): bool {
    numTags > 0 && |ready| <= numTags * 2 / 3
  }

  /** A LeaseSet not confirmed in time is sent again. */
  function StatusNow(s: Session, ms: nat): LeaseSetStatus {
    if s.status == Submitted && ms > s.submitted + LEASESET_CONFIRMATION_TIMEOUT then Updated else s.status
  }

  datatype Wrapped = Wrapped(session: Session, msg: Garlic)

  /**
   One message wrapped at `ts` seconds: `drawn` are the random tags and `id` the random number at hand, `tunnel`
   says whether an inbound tunnel for the DeliveryStatus was found.
   */
  function Wrap(s: Session, key: Key, ts: nat, ms: nat, drawn: seq<Tag>, id: MsgID, tunnel: bool): Wrapped {
    WrapWith(s, if s.numTags > 0 then Pick(s.ready, ts) else Picked(None, s.ready), key, ts, ms, drawn, id, tunnel)
  }

  /** The same once a tag has been looked for. */
  function WrapWith(s: Session, p: Picked, key: Key, ts: nat, ms: nat, drawn: seq<Tag>, id: MsgID, tunnel: bool): Wrapped {
    var creates := NeedsTags(s.numTags, p.rest);
    var status := StatusNow(s, ms);
    var confirms := (creates || status == Updated) && tunnel;
    var s1 := s.(ready := p.rest, status := status,
                 unconfirmed := if creates && confirms then s.unconfirmed[id := Batch(drawn, ts)] else s.unconfirmed);
    var s2 := if status == Updated then s1.(status := Submitted, updateId := id, submitted := ms) else s1;
    Wrapped(s2, Garlic(if p.tag.Some? then ByTag(p.tag.value.tag) else ByElGamal, key,
                       if creates then drawn else [], confirms, status == Updated, id, ts))
  }

  /** The LeaseSet has changed, which does not matter to a session that never sends it. */
  function Renewed(s: Session): Session {
    if s.status != DoNotSend then s.(status := Updated) else s
  }

  // ---------------------------------------------------------------- the receiving destination

  /** The key a tag stands for, and when the tag was stored. */
  datatype Entry = Entry(key: Key, created: nat)

  /** Stores tags; one that is there already keeps its time. */
  function Store(table: map<Tag, Entry>, tags: seq<Tag>, key: Key, ts: nat): map<Tag, Entry> {
    map t | t in table.Keys + (set x | x in tags) ::
      if t in tags then Entry(key, if t in table then table[t].created else ts) else table[t]
  }

  function Unexpired(table: map<Tag, Entry>, ts: nat): map<Tag, Entry> {
    map t | t in table && ts <= table[t].created + INCOMING_TAGS_EXPIRATION_TIMEOUT :: table[t]
  }

  datatype Inbox = Inbox(table: map<Tag, Entry>, lastCleanup: nat)

  /** A message can be read if its tag stands for its key, or if it needs no tag. */
  function Readable(table: map<Tag, Entry>, m: Garlic): bool {
    m.header.ByTag? ==> m.header.tag in table && table[m.header.tag].key == m.key
  }

  /** The table once a message has been looked at: new tags stored, the tag that led to the key used up. */
  function Opened(table: map<Tag, Entry>, m: Garlic, ts: nat): map<Tag, Entry> {
    var stored := if Readable(table, m) then Store(table, m.tags, m.key, ts) else table;
    if m.header.ByTag? then stored - {m.header.tag} else stored
  }

  function CleanedUp(b: Inbox, ts: nat): Inbox {
    if ts > b.lastCleanup + INCOMING_TAGS_EXPIRATION_TIMEOUT then
      Inbox(if b.lastCleanup != 0 then Unexpired(b.table, ts) else b.table, ts)
    else b
  }

  function HandleGarlic(b: Inbox, m: Garlic, ts: nat): Inbox {
    CleanedUp(b.(table := Opened(b.table, m, ts)), ts)
  }
}
