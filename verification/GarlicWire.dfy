/**
 Tags on the wire: what the bytes of a garlic message do to a tag table of 32-byte strings is what the message does to
 the table of the protocol. So the first copy of a message, opened from its bytes, yields its key, tags and cloves.
 */
module GarlicWire {
  import opened Wrappers
  import opened Bytes
  import ElGamal
  import opened GarlicCodec
  import Tags = GarlicTags
  import Protocol = GarlicProtocol

  /** The table of the receiver, as the program keeps it. */
  datatype WireEntry = WireEntry(key: Hash, created: nat)

  type WireTable = map<Hash, WireEntry>

  ghost function Limit(): nat {
    Pow(256, 32)
  }

  function HashOf(n: nat): Hash {
    BigEndian(n, 32)
  }

  function HashesOf(tags: seq<nat>): (r: seq<Hash>)
    ensures |r| == |tags|
  {
    seq(|tags|, i requires 0 <= i < |tags| => HashOf(tags[i]))
  }

  lemma SameHash(a: Hash, b: Hash)
    requires FromBigEndian(a) == FromBigEndian(b)
    ensures a == b
  {
    FromBigEndianRoundTrip(a);
    FromBigEndianRoundTrip(b);
  }

  lemma NumberOfHash(n: nat)
    requires n < Limit()
    ensures FromBigEndian(HashOf(n)) == n
  {
    BigEndianRoundTrip(n, 32);
  }

  /** The same tags, keys and times, as byte strings and as numbers. */
  ghost predicate Matches(wire: WireTable, table: map<nat, Tags.Entry>) {
    && (forall h: Hash :: h in wire <==> FromBigEndian(h) in table)
    && (forall h: Hash :: h in wire ==>
          table[FromBigEndian(h)] == Tags.Entry(FromBigEndian(wire[h].key), wire[h].created))
  }

  function Keys(wire: WireTable): map<seq<byte>, Hash> {
    map h | h in wire :: wire[h].key
  }

  function StoreHashes(wire: WireTable, tags: seq<Hash>, key: Hash, ts: nat): WireTable {
    map h: Hash | h in wire.Keys + (set x | x in tags) ::
      if h in tags then WireEntry(key, if h in wire then wire[h].created else ts) else wire[h]
  }

  /** The tag that stands for a known key at the front of a message, if there is one. */
  function UsedTag(wire: WireTable, body: seq<byte>): Option<Hash> {
    if |body| < 32 then None
    else
      var h: Hash := body[..32];
      if h in wire then Some(h) else None
  }

  /** A message arrives: the tags in it are stored under its key, and the tag that led to the key is used up. */
  function HandleBytes(u: Suite, x: nat, wire: WireTable, msg: seq<byte>, ts: nat): WireTable
    requires u.q.size == 256 && x < u.q.p
  {
    var found, body := OpenMessage(u, x, Keys(wire), msg), BodyOf(msg);
    var stored := if found.Some? then StoreHashes(wire, ReadBlock(u.h, found.value.plain).tags, found.value.key, ts) else wire;
    if body.None? then wire
    else
      var used := UsedTag(wire, body.value);
      if used.Some? then stored - {used.value} else stored
  }

  // ---------------------------------------------------------------- storing and using up

  lemma InHashes(tags: seq<nat>, h: Hash)
    requires forall t :: t in tags ==> t < Limit()
    ensures h in HashesOf(tags) <==> FromBigEndian(h) in tags
  {
    if h in HashesOf(tags) {
      var i :| 0 <= i < |tags| && HashesOf(tags)[i] == h;
      assert tags[i] in tags;
      NumberOfHash(tags[i]);
    }
    if FromBigEndian(h) in tags {
      var i :| 0 <= i < |tags| && tags[i] == FromBigEndian(h);
      assert tags[i] in tags;
      NumberOfHash(tags[i]);
      SameHash(HashOf(tags[i]), h);
      assert HashesOf(tags)[i] in HashesOf(tags);
    }
  }

  lemma StoreMatches(wire: WireTable, table: map<nat, Tags.Entry>, tags: seq<nat>, key: nat, ts: nat)
    requires Matches(wire, table) && key < Limit() && forall t :: t in tags ==> t < Limit()
    ensures Matches(StoreHashes(wire, HashesOf(tags), HashOf(key), ts), Tags.Store(table, tags, key, ts))
  {
    NumberOfHash(key);
    forall h: Hash ensures h in HashesOf(tags) <==> FromBigEndian(h) in tags {
      InHashes(tags, h);
    }
  }

  lemma UseMatches(wire: WireTable, table: map<nat, Tags.Entry>, tag: nat)
    requires Matches(wire, table) && tag < Limit()
    ensures Matches(wire - {HashOf(tag)}, table - {tag})
  {
    NumberOfHash(tag);
    forall h: Hash | FromBigEndian(h) == tag ensures h == HashOf(tag) {
      SameHash(h, HashOf(tag));
    }
  }

  // ---------------------------------------------------------------- one message

  /** The bytes carry `m`: its tag stands in front, or nothing that the receiver takes for a tag. */
  ghost predicate Carries(u: Suite, x: nat, wire: WireTable, m: Tags.Garlic, access: Access)
    requires u.q.p > 0
  {
    match m.header
    case ByTag(tag) => tag < Limit() && access == Access.ByTag(HashOf(tag))
    case ByElGamal =>
      && access.ByElGamal? && |access.filler| == 158
      && var e := HeaderOf(u, ElGamal.PowMod(u.q.g, x, u.q.p), HashOf(m.key), access); |e| >= 32 && e[..32] !in wire
  }

  ghost predicate InLimits(m: Tags.Garlic) {
    m.key < Limit() && |m.tags| < 65536 && forall t :: t in m.tags ==> t < Limit()
  }

  function PlainOf(u: Suite, m: Tags.Garlic, payload: seq<byte>, padding: seq<byte>): seq<byte> {
    WriteBlock(u.h, HashesOf(m.tags), payload, padding)
  }

  function BytesOf(u: Suite, x: nat, m: Tags.Garlic, access: Access, payload: seq<byte>, padding: seq<byte>): seq<byte>
    requires u.q.p > 0
  {
    WriteMessage(u, ElGamal.PowMod(u.q.g, x, u.q.p), HashOf(m.key), access, PlainOf(u, m, payload, padding))
  }

  lemma ReadableIsExpected(u: Suite, x: nat, wire: WireTable, table: map<nat, Tags.Entry>, m: Tags.Garlic, access: Access)
    requires u.q.p > 0 && Matches(wire, table) && Tags.Readable(table, m) && Carries(u, x, wire, m, access) && InLimits(m)
    ensures Expected(u, x, Keys(wire), HashOf(m.key), access)
  {
    if m.header.ByTag? {
      NumberOfHash(m.header.tag);
      NumberOfHash(m.key);
      SameHash(wire[HashOf(m.header.tag)].key, HashOf(m.key));
    }
  }

  /** What stands in front of a message is its tag, or is no tag of the table. */
  lemma FrontOf(u: Suite, x: nat, wire: WireTable, table: map<nat, Tags.Entry>, m: Tags.Garlic, access: Access, plain: seq<byte>)
    requires u.q.p > 0 && Matches(wire, table) && Tags.Readable(table, m) && Carries(u, x, wire, m, access)
    requires |WriteMessage(u, ElGamal.PowMod(u.q.g, x, u.q.p), HashOf(m.key), access, plain)| < Pow(256, 4)
    ensures var body := BodyOf(WriteMessage(u, ElGamal.PowMod(u.q.g, x, u.q.p), HashOf(m.key), access, plain));
            body.Some? && UsedTag(wire, body.value) == if m.header.ByTag? then Some(HashOf(m.header.tag)) else None
  {
    var y, key := ElGamal.PowMod(u.q.g, x, u.q.p), HashOf(m.key);
    var seed := if access.ByTag? then access.tag else access.preIV;
    var header := HeaderOf(u, y, key, access);
    var body := header + Seal(u.cipher(key), FirstIv(u, seed), plain);
    BodyRoundTrip(body);
    assert body[..32] == header[..32];
    if m.header.ByTag? {
      NumberOfHash(m.header.tag);
      assert header[..32] == header;
    }
  }

  /**
   Opening the bytes of a readable message gives its key, exactly its tags and its cloves in order, and changes the
   table of byte strings exactly as the message changes the table of the protocol.
   */
  lemma WireOpens(u: Suite, x: nat, wire: WireTable, table: map<nat, Tags.Entry>, m: Tags.Garlic, access: Access,
                  cloves: seq<Sealed>, msgID: nat, expiration: nat, padding: seq<byte>, ts: nat)
    requires Sound(u) && x < u.q.p && Matches(wire, table) && InLimits(m)
    requires Tags.Readable(table, m) && Carries(u, x, wire, m, access)
    requires |cloves| < 256 && forall s :: s in cloves ==> Writable(s.clove)
    requires |BytesOf(u, x, m, access, WritePayload(cloves, msgID, expiration), padding)| < Pow(256, 4)
    ensures var payload := WritePayload(cloves, msgID, expiration);
            var msg := BytesOf(u, x, m, access, payload, padding);
            && OpenMessage(u, x, Keys(wire), msg) == Some(Found(HashOf(m.key), PlainOf(u, m, payload, padding)))
            && ReadBlock(u.h, PlainOf(u, m, payload, padding)) == GarlicCodec.Opened(HashesOf(m.tags), Some(payload))
            && ParsePayload(payload + padding, |payload|) == AllHandedOn(cloves)
            && Matches(HandleBytes(u, x, wire, msg, ts), Tags.Opened(table, m, ts))
  {
    var payload := WritePayload(cloves, msgID, expiration);
    ReadableIsExpected(u, x, wire, table, m, access);
    GarlicRoundTrip(u, x, Keys(wire), HashOf(m.key), access, HashesOf(m.tags), cloves, msgID, expiration, padding);
    FrontOf(u, x, wire, table, m, access, PlainOf(u, m, payload, padding));
    TableAfter(u, x, wire, table, m, BytesOf(u, x, m, access, payload, padding), PlainOf(u, m, payload, padding), ts);
  }

  /** The table once a message has been opened. */
  lemma TableAfter(u: Suite, x: nat, wire: WireTable, table: map<nat, Tags.Entry>, m: Tags.Garlic, msg: seq<byte>, plain: seq<byte>, ts: nat)
    requires u.q.size == 256 && x < u.q.p && Matches(wire, table) && InLimits(m) && Tags.Readable(table, m)
    requires m.header.ByTag? ==> m.header.tag < Limit()
    requires OpenMessage(u, x, Keys(wire), msg) == Some(Found(HashOf(m.key), plain)) && ReadBlock(u.h, plain).tags == HashesOf(m.tags)
    requires BodyOf(msg).Some?
    requires UsedTag(wire, BodyOf(msg).value) == if m.header.ByTag? then Some(HashOf(m.header.tag)) else None
    ensures Matches(HandleBytes(u, x, wire, msg, ts), Tags.Opened(table, m, ts))
  {
    StoreMatches(wire, table, m.tags, m.key, ts);
    if m.header.ByTag? {
      UseMatches(StoreHashes(wire, HashesOf(m.tags), HashOf(m.key), ts), Tags.Store(table, m.tags, m.key, ts), m.header.tag);
    }
  }

  // ---------------------------------------------------------------- over whole runs

  /**
   Over every run of senders and receiver, the first copy of a message under a tag, arriving within 241 s, is opened from
   its bytes: its key, tags and cloves come out, and the table then is that of the protocol.
   */
  lemma FirstCopyOpens(now: nat, run: seq<Protocol.Action>, i: nat, t: nat, u: Suite, x: nat, wire: WireTable,
                       cloves: seq<Sealed>, msgID: nat, expiration: nat, padding: seq<byte>)
    requires Protocol.AllowedRun(Protocol.Start(now), run) && Protocol.Uses(Protocol.Run(Protocol.Start(now), run), i, t)
    requires var y := Protocol.Run(Protocol.Start(now), run);
             && t !in y.arrived && y.now <= y.log[i].at + 241
             && Matches(wire, y.inbox.table) && InLimits(y.log[i]) && t < Limit()
    requires Sound(u) && x < u.q.p && |cloves| < 256 && forall s :: s in cloves ==> Writable(s.clove)
    requires var m := Protocol.Run(Protocol.Start(now), run).log[i];
             |BytesOf(u, x, m, Access.ByTag(HashOf(t)), WritePayload(cloves, msgID, expiration), padding)| < Pow(256, 4)
    ensures var y := Protocol.Run(Protocol.Start(now), run);
            var m, payload := y.log[i], WritePayload(cloves, msgID, expiration);
            var msg := BytesOf(u, x, m, Access.ByTag(HashOf(t)), payload, padding);
            && OpenMessage(u, x, Keys(wire), msg) == Some(Found(HashOf(m.key), PlainOf(u, m, payload, padding)))
            && ReadBlock(u.h, PlainOf(u, m, payload, padding)) == GarlicCodec.Opened(HashesOf(m.tags), Some(payload))
            && ParsePayload(payload + padding, |payload|) == AllHandedOn(cloves)
            && Matches(HandleBytes(u, x, wire, msg, y.now), Tags.Opened(y.inbox.table, m, y.now))
  {
    var y := Protocol.Run(Protocol.Start(now), run);
    Protocol.TagAgreement(now, run, i, t);
    WireOpens(u, x, wire, y.inbox.table, y.log[i], Access.ByTag(HashOf(t)), cloves, msgID, expiration, padding, y.now);
  }
}
