/**
 The layers of a garlic message: cloves in a payload, the payload behind session tags in an AES block, the block
 encrypted under a key found by a session tag or wrapped in an ElGamal block.
 */
module GarlicCodec {
  import opened Wrappers
  import opened Bytes
  import opened Cbc
  import ElGamal

  type Hash = h: seq<byte> | |h| == 32 witness seq(32, i => 0)

  /** An I2NP message whose size field is right. */
  ghost predicate WellFormed(msg: seq<byte>) {
    |msg| >= 16 && |msg| == 16 + FromBigEndian(msg[13..15])
  }

  // ---------------------------------------------------------------- cloves

  datatype Clove = Local(msg: seq<byte>) | ToDestination(hash: Hash, msg: seq<byte>) | ToTunnel(hash: Hash, tunnelID: nat, msg: seq<byte>)

  /** A clove with its number and expiration. */
  datatype Sealed = Sealed(clove: Clove, cloveID: nat, expiration: nat)

  /** Where a received clove goes. */
  datatype Handed = HandedHere(msg: seq<byte>) | HandedToTunnel(hash: Hash, tunnelID: nat, msg: seq<byte>)

  ghost predicate Writable(c: Clove) {
    WellFormed(c.msg) && (c.ToTunnel? ==> c.tunnelID < Pow(256, 4))
  }

  /** The delivery type sits in the three top bits. */
  function Instructions(c: Clove): seq<byte> {
    match c
    case Local(_) => [0]
    case ToDestination(hash, _) => [0x20] + hash
    case ToTunnel(hash, tunnelID, _) => [0x60] + hash + BigEndian(tunnelID, 4)
  }

  function Trailer(s: Sealed): (r: seq<byte>)
    ensures |r| == 15
  {
    BigEndian(s.cloveID, 4) + BigEndian(s.expiration, 8) + [0, 0, 0]
  }

  function WriteClove(s: Sealed): seq<byte> {
    Instructions(s.clove) + s.clove.msg + Trailer(s)
  }

  function WriteCloves(cloves: seq<Sealed>): seq<byte> {
    if cloves == [] then [] else WriteClove(cloves[0]) + WriteCloves(cloves[1..])
  }

  function WritePayload(cloves: seq<Sealed>, msgID: nat, expiration: nat): seq<byte>
    requires |cloves| < 256
  {
    [|cloves|] + WriteCloves(cloves) + Ending(msgID, expiration)
  }

  /** An empty certificate, the message number and the expiration. */
  function Ending(msgID: nat, expiration: nat): seq<byte> {
    [0, 0, 0] + BigEndian(msgID, 4) + BigEndian(expiration, 8)
  }

  function HandedOn(c: Clove): Handed {
    match c
    case Local(msg) => HandedHere(msg)
    case ToDestination(_, msg) => HandedHere(msg)
    case ToTunnel(hash, tunnelID, msg) => HandedToTunnel(hash, tunnelID, msg)
  }

  function AllHandedOn(cloves: seq<Sealed>): seq<Handed> {
    if cloves == [] then [] else [HandedOn(cloves[0].clove)] + AllHandedOn(cloves[1..])
  }

  /** How many bytes of delivery instructions start with `flag`. */
  function HeadSize(flag: byte): nat {
    1 + (if flag >= 128 then 32 else 0) +
    (match (flag / 32) % 4 case 0 => 0 case 3 => 36 case _ => 32)
  }

  /** A clove at the front of `rest`: what it asks for (nothing for a router), and how long it is. */
  datatype Read = Read(handed: seq<Handed>, size: nat)

  function ReadClove(rest: seq<byte>): Option<Read> {
    if rest == [] then None
    else
      var head := HeadSize(rest[0]);
      if |rest| < head + 16 then None
      else
        var size := 16 + FromBigEndian(rest[head + 13..head + 15]);
        if |rest| < head + size + 15 then None
        else
          var msg := rest[head..head + size];
          var handed := match (rest[0] / 32) % 4
                        case 2 => []
                        case 3 => [HandedToTunnel(rest[head - 36..head - 4], FromBigEndian(rest[head - 4..head]), msg)]
                        case _ => [HandedHere(msg)];
          Some(Read(handed, head + size + 15))
  }

  /**
   Up to `n` cloves one after the other; `rest` goes on to the end of the message's buffer, `left` bytes of it belong
   to the payload. A clove that runs past the payload is still handed on, and ends the walk.
   */
  function Walk(read: seq<byte> -> Option<Read>, rest: seq<byte>, n: nat, left: int): seq<Handed>
    decreases n
  {
    if n == 0 then []
    else
      var r := read(rest);
      if r.None? || r.value.size > |rest| then []
      else
        r.value.handed +
        if r.value.size > left then [] else Walk(read, rest[r.value.size..], n - 1, left - r.value.size)
  }

  function ParseCloves(rest: seq<byte>, n: nat, left: int): seq<Handed> {
    Walk(ReadClove, rest, n, left)
  }

  lemma WalkOne(read: seq<byte> -> Option<Read>, w: seq<byte>, more: seq<byte>, tail: seq<byte>, n: nat, left: int, h: Handed)
    requires n > 0 && read(w + (more + tail)) == Some(Read([h], |w|)) && |w| <= left
    ensures Walk(read, w + more + tail, n, left) == [h] + Walk(read, more + tail, n - 1, left - |w|)
  {
    ConcatAssociates(w, more, tail);
    assert (w + (more + tail))[|w|..] == more + tail;
  }

  /** One round of the walk. */
  lemma WalkStep(read: seq<byte> -> Option<Read>, rest: seq<byte>, n: nat, left: int, r: Read)
    requires n > 0 && read(rest) == Some(r) && r.size <= |rest|
    ensures Walk(read, rest, n, left) == r.handed + if r.size > left then [] else Walk(read, rest[r.size..], n - 1, left - r.size)
  {
  }

  /** The fields of a clove stand where the reader looks for them. */
  lemma CloveFields(s: Sealed, tail: seq<byte>)
    requires Writable(s.clove)
    ensures var rest, head, msg := WriteClove(s) + tail, |Instructions(s.clove)|, s.clove.msg;
            && head >= 1 && |rest| == head + |msg| + 15 + |tail| && rest[0] == Instructions(s.clove)[0]
            && rest[head + 13..head + 15] == msg[13..15] && rest[head..head + |msg|] == msg
            && rest[head + |msg| + 15..] == tail && rest[..head] == Instructions(s.clove)
  {
    var rest, head, msg := WriteClove(s) + tail, |Instructions(s.clove)|, s.clove.msg;
    assert rest[head..head + |msg|] == msg;
    SliceOfSlice(rest, head, head + |msg|, 13, 15);
  }

  lemma CloveRoundTrip(s: Sealed, tail: seq<byte>)
    requires Writable(s.clove)
    ensures ReadClove(WriteClove(s) + tail) == Some(Read([HandedOn(s.clove)], |WriteClove(s)|))
  {
    CloveFields(s, tail);
    if s.clove.ToTunnel? {
      TunnelFields(s, tail);
    }
  }

  lemma TunnelFields(s: Sealed, tail: seq<byte>)
    requires Writable(s.clove) && s.clove.ToTunnel?
    ensures var rest := WriteClove(s) + tail;
            rest[1..33] == s.clove.hash && FromBigEndian(rest[33..37]) == s.clove.tunnelID
  {
    CloveFields(s, tail);
    var rest, head := WriteClove(s) + tail, Instructions(s.clove);
    assert rest[..37] == head;
    SliceOfSlice(rest, 0, 37, 1, 33);
    SliceOfSlice(rest, 0, 37, 33, 37);
    assert head[1..33] == s.clove.hash && head[33..37] == BigEndian(s.clove.tunnelID, 4);
    BigEndianRoundTrip(s.clove.tunnelID, 4);
  }

  /** The parts of a clove with any flag, one behind the other. */
  lemma AnyParts(head: seq<byte>, hash: seq<byte>, tunnel: seq<byte>, msg: seq<byte>, trailer: seq<byte>, tail: seq<byte>)
    requires head != [] && |msg| >= 16 && |trailer| == 15
    ensures var rest, at := head + hash + tunnel + msg + trailer + tail, |head| + |hash| + |tunnel|;
            && |rest| == at + |msg| + 15 + |tail| && rest[0] == head[0]
            && rest[|head|..|head| + |hash|] == hash && rest[|head| + |hash|..at] == tunnel
            && rest[at..at + |msg|] == msg && rest[at + 13..at + 15] == msg[13..15]
  {
    var rest, at := head + hash + tunnel + msg + trailer + tail, |head| + |hash| + |tunnel|;
    assert rest[at..at + |msg|] == msg;
    SliceOfSlice(rest, at, at + |msg|, 13, 15);
  }

  /**
   Any clove whatever its flag: the top bit says that a key of 32 bytes follows, which is passed over; the next two say
   where the message goes. One for a router is handed to nobody, and the walk goes on behind it all the same.
   */
  lemma AnyClove(flag: byte, key: seq<byte>, hash: seq<byte>, tunnel: seq<byte>, msg: seq<byte>, trailer: seq<byte>, tail: seq<byte>)
    requires |key| == (if flag >= 128 then 32 else 0) && |hash| == (if flag / 32 % 4 == 0 then 0 else 32)
    requires |tunnel| == (if flag / 32 % 4 == 3 then 4 else 0) && WellFormed(msg) && |trailer| == 15
    ensures ReadClove([flag] + key + hash + tunnel + msg + trailer + tail) ==
            Some(Read(match flag / 32 % 4
                      case 2 => []
                      case 3 => [HandedToTunnel(hash, FromBigEndian(tunnel), msg)]
                      case _ => [HandedHere(msg)],
                      1 + |key| + |hash| + |tunnel| + |msg| + 15))
  {
    var rest, head := [flag] + key + hash + tunnel + msg + trailer + tail, 1 + |key| + |hash| + |tunnel|;
    AnyParts([flag] + key, hash, tunnel, msg, trailer, tail);
    AnyHead(flag, key, hash, tunnel);
    ReadAt(rest, head, |msg|);
    assert flag / 32 % 4 == 3 ==> rest[head - 36..head - 4] == hash && rest[head - 4..head] == tunnel;
  }

  lemma AnyHead(flag: byte, key: seq<byte>, hash: seq<byte>, tunnel: seq<byte>)
    requires |key| == (if flag >= 128 then 32 else 0) && |hash| == (if flag / 32 % 4 == 0 then 0 else 32)
    requires |tunnel| == (if flag / 32 % 4 == 3 then 4 else 0)
    ensures HeadSize(flag) == 1 + |key| + |hash| + |tunnel|
  {
  }

  /** A clove whose instructions end at `head` and whose message has `size` bytes. */
  lemma ReadAt(rest: seq<byte>, head: nat, size: nat)
    requires rest != [] && head == HeadSize(rest[0]) && |rest| >= head + size + 15 && size >= 16
    requires FromBigEndian(rest[head + 13..head + 15]) == size - 16
    ensures ReadClove(rest) ==
            Some(Read(match rest[0] / 32 % 4
                      case 2 => []
                      case 3 => [HandedToTunnel(rest[head - 36..head - 4], FromBigEndian(rest[head - 4..head]), rest[head..head + size])]
                      case _ => [HandedHere(rest[head..head + size])],
                      head + size + 15))
  {
  }

  /** One clove at the front is handed on and the walk goes on behind it. */
  lemma OneClove(s: Sealed, w: seq<byte>, more: seq<byte>, tail: seq<byte>, n: nat, left: int)
    requires Writable(s.clove) && w == WriteClove(s) && n > 0 && |w| <= left
    ensures Walk(ReadClove, w + more + tail, n, left) ==
            [HandedOn(s.clove)] + Walk(ReadClove, more + tail, n - 1, left - |w|)
  {
    var read := ReadClove;
    assert read(w + (more + tail)) == Some(Read([HandedOn(s.clove)], |w|)) by {
      CloveRoundTrip(s, more + tail);
    }
    WalkOne(read, w, more, tail, n, left, HandedOn(s.clove));
  }

  lemma FirstClove(cloves: seq<Sealed>, w: seq<byte>, more: seq<byte>)
    requires cloves != [] && w == WriteClove(cloves[0]) && more == WriteCloves(cloves[1..])
    ensures WriteCloves(cloves) == w + more && AllHandedOn(cloves) == [HandedOn(cloves[0].clove)] + AllHandedOn(cloves[1..])
  {
  }

  lemma {:induction false} ClovesRoundTrip(cloves: seq<Sealed>, tail: seq<byte>, left: int)
    requires (forall i :: 0 <= i < |cloves| ==> Writable(cloves[i].clove)) && left >= |WriteCloves(cloves)|
    ensures ParseCloves(WriteCloves(cloves) + tail, |cloves|, left) == AllHandedOn(cloves)
    decreases |cloves|
  {
    if cloves != [] {
      var w, more := WriteClove(cloves[0]), WriteCloves(cloves[1..]);
      FirstClove(cloves, w, more);
      OneClove(cloves[0], w, more, tail, |cloves|, left);
      ClovesRoundTrip(cloves[1..], tail, left - |w|);
    }
  }

  /** A payload of `len` bytes at the front of `buf`, which goes on to the end of the message's buffer. */
  function ParsePayload(buf: seq<byte>, len: nat): seq<Handed> {
    if buf == [] then [] else ParseCloves(buf[1..], buf[0], len - 1)
  }

  /** Every clove is handed on, in order, with its delivery type, whatever stands behind the payload. */
  lemma PayloadRoundTrip(cloves: seq<Sealed>, msgID: nat, expiration: nat, behind: seq<byte>)
    requires |cloves| < 256 && forall s :: s in cloves ==> Writable(s.clove)
    ensures var payload := WritePayload(cloves, msgID, expiration);
            ParsePayload(payload + behind, |payload|) == AllHandedOn(cloves)
  {
    var tail := Ending(msgID, expiration) + behind;
    CountThenRest(|cloves|, WriteCloves(cloves), Ending(msgID, expiration), behind);
    ClovesRoundTrip(cloves, tail, |WritePayload(cloves, msgID, expiration)| - 1);
  }

  lemma CountThenRest(n: byte, body: seq<byte>, end: seq<byte>, behind: seq<byte>)
    ensures var s := [n] + body + end + behind;
            s[0] == n && s[1..] == body + (end + behind)
  {
  }

  // ---------------------------------------------------------------- the AES block

  function TagBytes(tags: seq<Hash>): (r: seq<byte>)
    ensures |r| == 32 * |tags|
  {
    if tags == [] then [] else tags[0] + TagBytes(tags[1..])
  }

  /** Tag count, tags, payload size, payload hash, a flag and the payload, before padding. */
  function BlockFront(tags: seq<Hash>, payload: seq<byte>): seq<byte> {
    BigEndian(|tags|, 2) + TagBytes(tags) + BigEndian(|payload|, 4)
  }

  function WriteBlock(h: ElGamal.Digest, tags: seq<Hash>, payload: seq<byte>, padding: seq<byte>): seq<byte> {
    BlockFront(tags, payload) + h(payload) + [0] + payload + padding
  }

  function ReadTags(s: seq<byte>, n: nat): seq<Hash>
    requires |s| >= 32 * n
  {
    if n == 0 then [] else [s[..32]] + ReadTags(s[32..], n - 1)
  }

  /** The tags of a block count even if its payload turns out to be damaged. */
  datatype Opened = Opened(tags: seq<Hash>, payload: Option<seq<byte>>)

  /** What follows the tags. */
  function ReadRest(h: ElGamal.Digest, s: seq<byte>): Option<seq<byte>> {
    if |s| < 37 then None
    else
      var size := FromBigEndian(s[..4]);
      var at := if s[36] != 0 then 69 else 37;
      if size > |s| || at + size > |s| then None
      else if h(s[at..at + size]) != s[4..36] then None
      else Some(s[at..at + size])
  }

  function ReadBlock(h: ElGamal.Digest, s: seq<byte>): Opened {
    if |s| < 2 then Opened([], None)
    else
      var n := FromBigEndian(s[..2]);
      if 32 * n > |s| - 2 then Opened([], None)
      else Opened(ReadTags(s[2..], n), ReadRest(h, s[2 + 32 * n..]))
  }

  lemma {:induction false} TagsRoundTrip(tags: seq<Hash>, rest: seq<byte>)
    ensures ReadTags(TagBytes(tags) + rest, |tags|) == tags
    decreases |tags|
  {
    if tags != [] {
      var first: seq<byte> := tags[0];
      ConcatAssociates(first, TagBytes(tags[1..]), rest);
      var s := TagBytes(tags) + rest;
      assert s == first + (TagBytes(tags[1..]) + rest);
      assert s[..32] == first && s[32..] == TagBytes(tags[1..]) + rest;
      TagsRoundTrip(tags[1..], rest);
    }
  }

  lemma RestRoundTrip(h: ElGamal.Digest, payload: seq<byte>, padding: seq<byte>)
    requires |payload| < Pow(256, 4)
    ensures ReadRest(h, BigEndian(|payload|, 4) + h(payload) + [0] + payload + padding) == Some(payload)
  {
    BigEndianRoundTrip(|payload|, 4);
    RestRead(h, BigEndian(|payload|, 4), payload, padding);
  }

  lemma RestRead(h: ElGamal.Digest, size: seq<byte>, payload: seq<byte>, padding: seq<byte>)
    requires |size| == 4 && FromBigEndian(size) == |payload|
    ensures ReadRest(h, size + h(payload) + [0] + payload + padding) == Some(payload)
  {
    RestParts(size, h(payload), payload, padding);
  }

  lemma RestParts(size: seq<byte>, hash: seq<byte>, payload: seq<byte>, padding: seq<byte>)
    requires |size| == 4 && |hash| == 32
    ensures var s := size + hash + [0] + payload + padding;
            s[..4] == size && s[4..36] == hash && s[36] == 0 && s[37..37 + |payload|] == payload
  {
  }

  lemma BlockParts(n: seq<byte>, tags: seq<byte>, size: seq<byte>, hash: seq<byte>, flag: seq<byte>, payload: seq<byte>, padding: seq<byte>)
    ensures n + tags + size + hash + flag + payload + padding == n + (tags + (size + hash + flag + payload + padding))
  {
  }

  lemma Parts(n: seq<byte>, tags: seq<byte>, rest: seq<byte>)
    ensures var s := n + (tags + rest); s[..|n|] == n && s[|n|..] == tags + rest && s[|n| + |tags|..] == rest
  {
  }

  lemma BlockRead(h: ElGamal.Digest, n: seq<byte>, tags: seq<Hash>, rest: seq<byte>)
    requires |n| == 2 && FromBigEndian(n) == |tags|
    ensures ReadBlock(h, n + (TagBytes(tags) + rest)) == Opened(tags, ReadRest(h, rest))
  {
    var s, k := n + (TagBytes(tags) + rest), |tags|;
    Parts(n, TagBytes(tags), rest);
    assert s[..2] == n && s[2..] == TagBytes(tags) + rest && s[2 + 32 * k..] == rest;
    TagsRoundTrip(tags, rest);
    assert 32 * k <= |s| - 2;
  }

  /** Reading a block gives back its tags and its payload, whatever the padding. */
  lemma BlockRoundTrip(h: ElGamal.Digest, tags: seq<Hash>, payload: seq<byte>, padding: seq<byte>)
    requires |tags| < 65536 && |payload| < Pow(256, 4)
    ensures ReadBlock(h, WriteBlock(h, tags, payload, padding)) == Opened(tags, Some(payload))
  {
    var n, size := BigEndian(|tags|, 2), BigEndian(|payload|, 4);
    BlockParts(n, TagBytes(tags), size, h(payload), [0], payload, padding);
    CountFits(|tags|);
    BlockRead(h, n, tags, size + h(payload) + [0] + payload + padding);
    RestRoundTrip(h, payload, padding);
  }

  lemma AnyRestParts(size: seq<byte>, hash: seq<byte>, flag: byte, skip: seq<byte>, payload: seq<byte>, padding: seq<byte>)
    requires |size| == 4 && |hash| == 32
    ensures var s, at := size + hash + [flag] + skip + payload + padding, 37 + |skip|;
            s[..4] == size && s[4..36] == hash && s[36] == flag && s[at..at + |payload|] == payload
  {
  }

  lemma AnyRest(h: ElGamal.Digest, hash: seq<byte>, flag: byte, skip: seq<byte>, payload: seq<byte>, padding: seq<byte>)
    requires |payload| < Pow(256, 4) && |hash| == 32 && |skip| == if flag != 0 then 32 else 0
    ensures ReadRest(h, BigEndian(|payload|, 4) + hash + [flag] + skip + payload + padding) ==
            if h(payload) == hash then Some(payload) else None
  {
    BigEndianRoundTrip(|payload|, 4);
    AnyRestParts(BigEndian(|payload|, 4), hash, flag, skip, payload, padding);
  }

  /**
   Any block that holds what it announces: its tags count in any case, its payload if and only if the hash is right; a
   flag says that a key of 32 bytes comes first, which is passed over.
   */
  lemma AnyBlock(h: ElGamal.Digest, tags: seq<Hash>, hash: seq<byte>, flag: byte, skip: seq<byte>, payload: seq<byte>, padding: seq<byte>)
    requires |tags| < 65536 && |payload| < Pow(256, 4) && |hash| == 32 && |skip| == if flag != 0 then 32 else 0
    ensures ReadBlock(h, BigEndian(|tags|, 2) +
                         (TagBytes(tags) + (BigEndian(|payload|, 4) + hash + [flag] + skip + payload + padding))) ==
            Opened(tags, if h(payload) == hash then Some(payload) else None)
  {
    CountFits(|tags|);
    BlockRead(h, BigEndian(|tags|, 2), tags, BigEndian(|payload|, 4) + hash + [flag] + skip + payload + padding);
    AnyRest(h, hash, flag, skip, payload, padding);
  }

  /** Whatever is read as a payload stands in the block as announced, and has the hash given. */
  lemma PayloadIsSound(h: ElGamal.Digest, s: seq<byte>, p: seq<byte>)
    requires ReadRest(h, s) == Some(p)
    ensures |s| >= 37 + |p| && h(p) == s[4..36] && FromBigEndian(s[..4]) == |p|
    ensures if s[36] == 0 then s[37..37 + |p|] == p else |s| >= 69 + |p| && s[69..69 + |p|] == p
  {
  }

  lemma CountFits(n: nat)
    requires n < 65536
    ensures FromBigEndian(BigEndian(n, 2)) == n
  {
    assert Pow(256, 2) == 65536;
    BigEndianRoundTrip(n, 2);
  }

  // ---------------------------------------------------------------- encryption

  /** CBC over the whole blocks of `s`; bytes behind the last whole block stay as they are. */
  function Seal(c: Cipher, iv: Block, s: seq<byte>): (r: seq<byte>)
    ensures |r| == |s|
    decreases |s|
  {
    if |s| < 16 then s else var x: seq<byte> := EncryptBlock(c, iv, s[..16]); x + Seal(c, x, s[16..])
  }

  function Unseal(c: Cipher, iv: Block, s: seq<byte>): (r: seq<byte>)
    ensures |r| == |s|
    decreases |s|
  {
    if |s| < 16 then s else var x: seq<byte> := DecryptBlock(c, iv, s[..16]); x + Unseal(c, s[..16], s[16..])
  }

  lemma {:induction false} SealRoundTrip(c: Cipher, iv: Block, s: seq<byte>)
    requires Invertible(c)
    ensures Unseal(c, iv, Seal(c, iv, s)) == s
    decreases |s|
  {
    if |s| >= 16 {
      var x: seq<byte> := EncryptBlock(c, iv, s[..16]);
      var e := Seal(c, iv, s);
      assert e == x + Seal(c, x, s[16..]);
      assert e[..16] == x && e[16..] == Seal(c, x, s[16..]);
      Cbc.BlockRoundTrip(c, iv, s[..16]);
      SealRoundTrip(c, x, s[16..]);
      assert s == s[..16] + s[16..];
    }
  }

  /** The hash, the block cipher under each key, and the ElGamal group. */
  datatype Suite = Suite(h: ElGamal.Digest, cipher: Hash -> Cipher, q: ElGamal.Group)

  ghost predicate Sound(u: Suite) {
    ElGamal.Proper(u.q) && u.q.size == 256 && forall k :: Invertible(u.cipher(k))
  }

  /** How the receiver gets at the session key. */
  datatype Access = ByTag(tag: Hash) | ByElGamal(preIV: Hash, filler: seq<byte>, k: nat)

  function FirstIv(u: Suite, seed: Hash): Block {
    u.h(seed)[..16]
  }

  /** The 222 bytes of an ElGamal block. */
  function KeyBlock(key: Hash, preIV: Hash, filler: seq<byte>): seq<byte> {
    key + preIV + filler
  }

  function WriteMessage(u: Suite, y: nat, key: Hash, access: Access, plain: seq<byte>): seq<byte>
    requires u.q.p > 0
  {
    var seed := if access.ByTag? then access.tag else access.preIV;
    var body := HeaderOf(u, y, key, access) + Seal(u.cipher(key), FirstIv(u, seed), plain);
    BigEndian(|body|, 4) + body
  }

  datatype Found = Found(key: Hash, plain: seq<byte>)

  /** Opens what follows the length: by tag if the tag is known, by ElGamal otherwise. */
  function OpenBody(u: Suite, x: nat, table: map<seq<byte>, Hash>, body: seq<byte>): Option<Found>
    requires u.q.size == 256 && x < u.q.p
  {
    if |body| >= 32 && body[..32] in table then
      var key := table[body[..32]];
      Some(Found(key, Unseal(u.cipher(key), FirstIv(u, body[..32]), body[32..])))
    else if |body| < 514 then None
    else
      var d := ElGamal.Decrypt(u.q, u.h, x, body[..514], true);
      if d.None? || |d.value| < 64 then None
      else
        var key, preIV := d.value[..32], d.value[32..64];
        Some(Found(key, Unseal(u.cipher(key), FirstIv(u, preIV), body[514..])))
  }

  /** What the length at the front of a message says belongs to it. */
  function BodyOf(msg: seq<byte>): Option<seq<byte>> {
    if |msg| < 4 || 4 + FromBigEndian(msg[..4]) > |msg| then None else Some(msg[4..4 + FromBigEndian(msg[..4])])
  }

  function OpenMessage(u: Suite, x: nat, table: map<seq<byte>, Hash>, msg: seq<byte>): Option<Found>
    requires u.q.size == 256 && x < u.q.p
  {
    var body := BodyOf(msg);
    if body.None? then None else OpenBody(u, x, table, body.value)
  }

  lemma OpenByTag(u: Suite, x: nat, table: map<seq<byte>, Hash>, key: Hash, tag: Hash, plain: seq<byte>)
    requires Sound(u) && x < u.q.p && tag in table && table[tag] == key
    ensures OpenBody(u, x, table, tag + Seal(u.cipher(key), FirstIv(u, tag), plain)) == Some(Found(key, plain))
  {
    var t: seq<byte>, sealed := tag, Seal(u.cipher(key), FirstIv(u, tag), plain);
    assert (t + sealed)[..32] == t && (t + sealed)[32..] == sealed;
    SealRoundTrip(u.cipher(key), FirstIv(u, tag), plain);
  }

  lemma KeyBlockParts(key: Hash, preIV: Hash, filler: seq<byte>)
    ensures var b := KeyBlock(key, preIV, filler); b[..32] == key && b[32..64] == preIV
  {
  }

  lemma OpenByElGamal(u: Suite, x: nat, table: map<seq<byte>, Hash>, key: Hash, preIV: Hash, filler: seq<byte>, k: nat, plain: seq<byte>)
    requires Sound(u) && x < u.q.p && |filler| == 158
    requires var e := ElGamal.Encrypted(u.q, u.h, ElGamal.PowMod(u.q.g, x, u.q.p), k, KeyBlock(key, preIV, filler), true);
             |e| == 514 && e[..32] !in table
    ensures var e := ElGamal.Encrypted(u.q, u.h, ElGamal.PowMod(u.q.g, x, u.q.p), k, KeyBlock(key, preIV, filler), true);
            OpenBody(u, x, table, e + Seal(u.cipher(key), FirstIv(u, preIV), plain)) == Some(Found(key, plain))
  {
    var e := ElGamal.Encrypted(u.q, u.h, ElGamal.PowMod(u.q.g, x, u.q.p), k, KeyBlock(key, preIV, filler), true);
    var sealed := Seal(u.cipher(key), FirstIv(u, preIV), plain);
    var body := e + sealed;
    assert body[..514] == e && body[514..] == sealed && body[..32] == e[..32];
    ElGamal.RoundTrip(u.q, u.h, x, k, KeyBlock(key, preIV, filler), true);
    KeyBlockParts(key, preIV, filler);
    SealRoundTrip(u.cipher(key), FirstIv(u, preIV), plain);
  }

  /** What comes before the sealed block, and what its IV is made from. */
  function HeaderOf(u: Suite, y: nat, key: Hash, access: Access): seq<byte>
    requires u.q.p > 0
  {
    if access.ByTag? then access.tag
    else ElGamal.Encrypted(u.q, u.h, y, access.k, KeyBlock(key, access.preIV, access.filler), true)
  }

  /** The receiver knows the tag for this key; or the message needs none, and does not look as if it had one. */
  ghost predicate Expected(u: Suite, x: nat, table: map<seq<byte>, Hash>, key: Hash, access: Access)
    requires u.q.p > 0
  {
    match access
    case ByTag(tag) => tag in table && table[tag] == key
    case ByElGamal(_, filler, _) =>
      && |filler| == 158
      && var e := HeaderOf(u, ElGamal.PowMod(u.q.g, x, u.q.p), key, access); |e| >= 32 && e[..32] !in table
  }

  lemma BodyFollows(n: seq<byte>, body: seq<byte>)
    requires |n| == 4 && FromBigEndian(n) == |body|
    ensures BodyOf(n + body) == Some(body)
  {
    assert (n + body)[..4] == n && (n + body)[4..4 + |body|] == body;
  }

  lemma BodyRoundTrip(body: seq<byte>)
    requires |body| < Pow(256, 4)
    ensures BodyOf(BigEndian(|body|, 4) + body) == Some(body)
  {
    BigEndianRoundTrip(|body|, 4);
    BodyFollows(BigEndian(|body|, 4), body);
  }

  lemma MessageRoundTrip(u: Suite, x: nat, table: map<seq<byte>, Hash>, key: Hash, access: Access, plain: seq<byte>)
    requires Sound(u) && x < u.q.p && Expected(u, x, table, key, access)
    requires |WriteMessage(u, ElGamal.PowMod(u.q.g, x, u.q.p), key, access, plain)| < Pow(256, 4)
    ensures OpenMessage(u, x, table, WriteMessage(u, ElGamal.PowMod(u.q.g, x, u.q.p), key, access, plain)) == Some(Found(key, plain))
  {
    var y := ElGamal.PowMod(u.q.g, x, u.q.p);
    var header := HeaderOf(u, y, key, access);
    var seed := if access.ByTag? then access.tag else access.preIV;
    var body := header + Seal(u.cipher(key), FirstIv(u, seed), plain);
    assert WriteMessage(u, y, key, access, plain) == BigEndian(|body|, 4) + body;
    BodyRoundTrip(body);
    match access
    case ByTag(tag) => OpenByTag(u, x, table, key, tag, plain);
    case ByElGamal(preIV, filler, k) =>
      ElGamal.RoundTrip(u.q, u.h, x, k, KeyBlock(key, preIV, filler), true);
      OpenByElGamal(u, x, table, key, preIV, filler, k, plain);
  }

  /**
   The whole way: the message a session writes for its tags and cloves, opened by a receiver that has the tag or
   the private key, yields the session key, exactly those tags, and exactly those cloves in order.
   */
  lemma GarlicRoundTrip(u: Suite, x: nat, table: map<seq<byte>, Hash>, key: Hash, access: Access, tags: seq<Hash>,
                        cloves: seq<Sealed>, msgID: nat, expiration: nat, padding: seq<byte>)
    requires Sound(u) && x < u.q.p && Expected(u, x, table, key, access)
    requires |tags| < 65536 && |cloves| < 256 && forall s :: s in cloves ==> Writable(s.clove)
    requires var plain := WriteBlock(u.h, tags, WritePayload(cloves, msgID, expiration), padding);
             |WriteMessage(u, ElGamal.PowMod(u.q.g, x, u.q.p), key, access, plain)| < Pow(256, 4)
    ensures var payload := WritePayload(cloves, msgID, expiration);
            var plain := WriteBlock(u.h, tags, payload, padding);
            var found := OpenMessage(u, x, table, WriteMessage(u, ElGamal.PowMod(u.q.g, x, u.q.p), key, access, plain));
            && found == Some(Found(key, plain))
            && ReadBlock(u.h, found.value.plain) == Opened(tags, Some(payload))
            && ParsePayload(payload + padding, |payload|) == AllHandedOn(cloves)
  {
    var payload := WritePayload(cloves, msgID, expiration);
    var plain := WriteBlock(u.h, tags, payload, padding);
    MessageRoundTrip(u, x, table, key, access, plain);
    Smaller(u, x, key, access, tags, payload, padding);
    BlockRoundTrip(u.h, tags, payload, padding);
    PayloadRoundTrip(cloves, msgID, expiration, padding);
  }

  lemma Smaller(u: Suite, x: nat, key: Hash, access: Access, tags: seq<Hash>, payload: seq<byte>, padding: seq<byte>)
    requires u.q.p > 0
    ensures |payload| <= |WriteMessage(u, ElGamal.PowMod(u.q.g, x, u.q.p), key, access, WriteBlock(u.h, tags, payload, padding))|
  {
  }

  // ---------------------------------------------------------------- the loops

  /** Appends the tags one by one. */
  method WriteTags(front: seq<byte>, tags: seq<Hash>) returns (buf: seq<byte>)
    ensures buf == front + TagBytes(tags)
  {
    buf := front;
    for i := 0 to |tags|
      invariant buf + TagBytes(tags[i..]) == front + TagBytes(tags)
    {
      ghost var first: seq<byte> := tags[i];
      assert tags[i..][0] == tags[i] && tags[i..][1..] == tags[i + 1..];
      ConcatAssociates(buf, first, TagBytes(tags[i + 1..]));
      buf := buf + tags[i];
    }
  }

  /** Fills up to whole cipher blocks. */
  method Pad(front: seq<byte>) returns (buf: seq<byte>, padding: seq<byte>)
    ensures buf == front + padding && |buf| % 16 == 0 && |padding| < 16
  {
    var rem := |front| % 16;
    padding := if rem > 0 then seq(16 - rem, k => 0) else [];
    buf := front + padding;
  }

  /** Builds a block field by field and pads it. */
  method CreateAESBlock(h: ElGamal.Digest, tags: seq<Hash>, payload: seq<byte>) returns (buf: seq<byte>, padding: seq<byte>)
    ensures buf == WriteBlock(h, tags, payload, padding) && |buf| % 16 == 0 && |padding| < 16
  {
    buf := WriteTags(BigEndian(|tags|, 2), tags);
    buf := buf + BigEndian(|payload|, 4);
    buf := buf + h(payload) + [0] + payload;
    buf, padding := Pad(buf);
  }

  /** The walk over the cloves, for any way of reading one. */
  method WalkCloves(read: seq<byte> -> Option<Read>, input: seq<byte>, count: nat, len: int) returns (handed: seq<Handed>)
    ensures handed == Walk(read, input, count, len)
  {
    handed := [];
    var buf, n, left := input, count, len;
    while n > 0
      invariant handed + Walk(read, buf, n, left) == Walk(read, input, count, len)
    {
      var r := read(buf);
      if r.None? || r.value.size > |buf| {
        assert handed + [] == handed;
        return;
      }
      var here, size := r.value.handed, r.value.size;
      WalkStep(read, buf, n, left, r.value);
      if size > left {
        assert here + [] == here;
        handed := handed + here;
        return;
      }
      ConcatAssociates(handed, here, Walk(read, buf[size..], n - 1, left - size));
      handed, buf, n, left := handed + here, buf[size..], n - 1, left - size;
    }
    assert handed + [] == handed;
  }

  /** Hands on the cloves of a payload of `len` bytes at the front of `buf`. */
  method HandleGarlicPayload(buf: seq<byte>, len: nat) returns (handed: seq<Handed>)
    ensures handed == ParsePayload(buf, len)
  {
    if buf == [] {
      return [];
    }
    handed := WalkCloves(ReadClove, buf[1..], buf[0], len - 1);
  }
}
