/**
 NTCP framing: a message goes out as length, body, padding and checksum, a multiple of 16 bytes, encrypted with
 the session's running CBC state; TCP delivers the ciphertext cut anywhere.
 */
module NtcpSpec {
  import opened Bytes
  import opened Cbc
  import opened BlockReader

  const NTCP_MAX_MESSAGE_SIZE: nat := 16384

  /** Adler-32, of which only the length matters. */
  type Checksum = h: seq<byte> -> seq<byte> | forall s :: |h(s)| == 4 witness s => [0, 0, 0, 0]

  /** What a session sends; `pad` is whatever happens to lie behind the message in its buffer. */
  datatype Item = Message(body: seq<byte>, pad: seq<byte>) | TimeSync(body: seq<byte>, pad: seq<byte>)

  function Padding(len: nat): nat {
    var rem := (len + 6) % 16;
    if rem > 0 then 16 - rem else 0
  }

  ghost predicate Sendable(it: Item) {
    && |it.pad| == Padding(|it.body|)
    && if it.Message? then 1 <= |it.body| <= NTCP_MAX_MESSAGE_SIZE else |it.body| == 4
  }

  /** What a session can send. */
  type Outgoing = it: Item | Sendable(it) witness TimeSync([0, 0, 0, 0], seq(6, i => 0))

  /** Length, body and padding; the length of a time-sync frame is written as zero. */
  function Front(it: Item): seq<byte> {
    BigEndian(if it.Message? then |it.body| else 0, 2) + it.body + it.pad
  }

  function Frame(ck: Checksum, it: Item): seq<byte> {
    Front(it) + ck(Front(it))
  }

  lemma FrameSize(ck: Checksum, it: Outgoing)
    ensures |Frame(ck, it)| == |it.body| + |it.pad| + 6 && |Frame(ck, it)| % 16 == 0
    ensures |it.body| + 6 <= |Frame(ck, it)| < |it.body| + 22
  {
  }

  /** One frame encrypted: the new chaining state and the ciphertext. */
  function Encrypted(c: Cipher, ck: Checksum, iv: Block, it: Outgoing): (Block, seq<byte>) {
    FrameSize(ck, it);
    var e := EncryptAll(c, iv, Blocks(Frame(ck, it)));
    (LastOf(iv, e), Flatten(e))
  }

  function Sender(c: Cipher, ck: Checksum): Producer<Block, Outgoing> {
    Producer((iv, it) => Encrypted(c, ck, iv, it))
  }

  /** The ciphertext of a list of items. */
  function Wire(c: Cipher, ck: Checksum, iv: Block, items: seq<Outgoing>): seq<byte> {
    Produce(Sender(c, ck), iv, items).1
  }

  /** The messages among the items. */
  function Bodies(items: seq<Outgoing>): seq<seq<byte>> {
    if items == [] then []
    else (if items[0].Message? then [items[0].body] else []) + Bodies(items[1..])
  }

  // ---------------------------------------------------------------- receiving

  /** The message being received: its bytes so far (length field included) and where its body ends. */
  datatype Reading = Idle | Partial(buf: seq<byte>, len: nat)

  datatype Session = Session(stopped: bool, cur: Reading, delivered: seq<seq<byte>>)

  /** The last four bytes are the checksum of those before. */
  predicate Verifies(ck: Checksum, buf: seq<byte>)
    requires |buf| >= 4
  {
    ck(buf[..|buf| - 4]) == buf[|buf| - 4..]
  }

  /** Hands on a message whose last block has arrived, if its checksum is right. */
  function Finish(ck: Checksum, s: Session): Session {
    if s.cur.Partial? && |s.cur.buf| >= s.cur.len + 4 && s.cur.len >= 2 then
      s.(cur := Idle, delivered := if Verifies(ck, s.cur.buf) then s.delivered + [s.cur.buf[2..s.cur.len]] else s.delivered)
    else s
  }

  /** One decrypted block. */
  function TakePlain(ck: Checksum, s: Session, b: Block): Session {
    match s.cur
    case Partial(buf, len) => Finish(ck, s.(cur := Partial(buf + b, len)))
    case Idle =>
      var size := FromBigEndian(b[..2]);
      if size == 0 then s
      else if size > NTCP_MAX_MESSAGE_SIZE then s.(stopped := true)
      else Finish(ck, s.(cur := Partial(b, size + 2)))
  }

  function Plain(ck: Checksum): Consumer<Session> {
    Consumer((s, b) => TakePlain(ck, s, b), (s: Session) => !s.stopped)
  }

  /** The receiving end of a session, over the ciphertext. */
  function Receiver(c: Cipher, ck: Checksum): Consumer<(Block, Session)> {
    Deciphering(c, Plain(ck))
  }

  function Start(iv: Block): Reader<(Block, Session)> {
    Reader((iv, Session(false, Idle, [])), [])
  }

  // ---------------------------------------------------------------- one frame

  type Sum = s: seq<byte> | |s| == 4 witness [0, 0, 0, 0]

  /** An item under any four bytes in the place of its checksum. */
  datatype Stamped = Stamped(it: Outgoing, sum: Sum)

  function StampedFrame(f: Stamped): seq<byte> {
    Front(f.it) + f.sum
  }

  /** The items under the checksums they should have. */
  function Stamp(ck: Checksum, items: seq<Outgoing>): seq<Stamped> {
    if items == [] then [] else [Stamped(items[0], ck(Front(items[0])))] + Stamp(ck, items[1..])
  }

  function EncryptedFrame(c: Cipher, iv: Block, f: Stamped): (Block, seq<byte>) {
    StampedSize(f);
    var e := EncryptAll(c, iv, Blocks(StampedFrame(f)));
    (LastOf(iv, e), Flatten(e))
  }

  function Stamper(c: Cipher): Producer<Block, Stamped> {
    Producer((iv, f) => EncryptedFrame(c, iv, f))
  }

  function StampedWire(c: Cipher, iv: Block, fs: seq<Stamped>): seq<byte> {
    Produce(Stamper(c), iv, fs).1
  }

  lemma StampedSize(f: Stamped)
    ensures |StampedFrame(f)| == |f.it.body| + |f.it.pad| + 6 && |StampedFrame(f)| % 16 == 0
    ensures |f.it.body| + 6 <= |StampedFrame(f)| < |f.it.body| + 22
  {
  }

  lemma {:induction false} WireIsStamped(c: Cipher, ck: Checksum, iv: Block, items: seq<Outgoing>)
    ensures Produce(Sender(c, ck), iv, items) == Produce(Stamper(c), iv, Stamp(ck, items))
    decreases |items|
  {
    if items != [] {
      var f := Stamped(items[0], ck(Front(items[0])));
      assert StampedFrame(f) == Frame(ck, items[0]);
      assert Encrypted(c, ck, iv, items[0]) == EncryptedFrame(c, iv, f);
      assert Stamp(ck, items)[1..] == Stamp(ck, items[1..]);
      WireIsStamped(c, ck, EncryptedFrame(c, iv, f).0, items[1..]);
    }
  }

  /** Its checksum is right. */
  predicate Intact(ck: Checksum, f: Stamped) {
    ck(Front(f.it)) == f.sum
  }

  /** The messages whose checksum is right. */
  function Passed(ck: Checksum, fs: seq<Stamped>): seq<seq<byte>> {
    if fs == [] then []
    else (if fs[0].it.Message? && Intact(ck, fs[0]) then [fs[0].it.body] else []) + Passed(ck, fs[1..])
  }

  lemma {:induction false} AllPassed(ck: Checksum, items: seq<Outgoing>)
    ensures Passed(ck, Stamp(ck, items)) == Bodies(items)
  {
    if items != [] {
      assert Stamp(ck, items)[1..] == Stamp(ck, items[1..]);
      AllPassed(ck, items[1..]);
    }
  }

  lemma PassedHead(ck: Checksum, fs: seq<Stamped>)
    requires fs != []
    ensures Passed(ck, fs) == Passed(ck, [fs[0]]) + Passed(ck, fs[1..])
  {
    assert [fs[0]][1..] == [];
  }

  /** A complete frame yields its body if its checksum is right. */
  lemma FrameEnds(ck: Checksum, s: Session, f: Stamped)
    requires s.cur == Partial(StampedFrame(f), |f.it.body| + 2)
    ensures Finish(ck, s) == s.(cur := Idle, delivered := if Intact(ck, f) then s.delivered + [f.it.body] else s.delivered)
  {
    StampedSize(f);
    var b, n := StampedFrame(f), |StampedFrame(f)| - 4;
    assert b[..n] == Front(f.it) && b[n..] == f.sum;
    assert b[2..|f.it.body| + 2] == f.it.body;
  }

  /** Before the last block a message is never taken for complete. */
  lemma NotYet(ck: Checksum, s: Session, f: Stamped, done: seq<byte>, plain: seq<byte>)
    requires StampedFrame(f) == done + plain && |plain| >= 16
    requires s.cur == Partial(done, |f.it.body| + 2)
    ensures Finish(ck, s) == s
  {
    StampedSize(f);
  }

  /** From inside a message to its end: `done` has arrived, the blocks `bs` are still to come. */
  lemma {:induction false} FoldMessage(ck: Checksum, s: Session, f: Stamped, done: seq<byte>, bs: seq<Block>)
    requires !s.stopped && StampedFrame(f) == done + Flatten(bs)
    requires bs != [] && s.cur == Partial(done, |f.it.body| + 2)
    ensures Fold(Plain(ck), s, bs) ==
            s.(cur := Idle, delivered := if Intact(ck, f) then s.delivered + [f.it.body] else s.delivered)
    decreases |bs|
  {
    var done1, rest := done + bs[0], Flatten(bs[1..]);
    ConcatAssociates<byte>(done, bs[0], rest);
    var s1 := s.(cur := Partial(done1, |f.it.body| + 2));
    EndOrOn(ck, s1, f, done1, bs[1..]);
    if bs[1..] != [] {
      FoldMessage(ck, s1, f, done1, bs[1..]);
    }
  }

  /** A frame of which `done` has arrived is either complete or still being read. */
  lemma EndOrOn(ck: Checksum, s: Session, f: Stamped, done: seq<byte>, bs: seq<Block>)
    requires StampedFrame(f) == done + Flatten(bs) && s.cur == Partial(done, |f.it.body| + 2)
    ensures Finish(ck, s) ==
            if bs != [] then s
            else s.(cur := Idle, delivered := if Intact(ck, f) then s.delivered + [f.it.body] else s.delivered)
  {
    if bs == [] {
      assert done == StampedFrame(f);
      FrameEnds(ck, s, f);
    } else {
      assert |Flatten(bs)| >= 16;
      NotYet(ck, s, f, done, Flatten(bs));
    }
  }

  lemma LengthField(f: Stamped)
    ensures |StampedFrame(f)| >= 16
    ensures FromBigEndian(StampedFrame(f)[..16][..2]) == if f.it.Message? then |f.it.body| else 0
  {
    StampedSize(f);
    var v := if f.it.Message? then |f.it.body| else 0;
    assert StampedFrame(f)[..16][..2] == BigEndian(v, 2);
    assert Pow(256, 2) == 65536;
    BigEndianRoundTrip(v, 2);
  }

  /**
   A whole frame, received while no message is open, hands on its body if it is a message whose checksum is right, and
   nothing otherwise.
   */
  lemma FoldFrame(ck: Checksum, s: Session, f: Stamped, bs: seq<Block>)
    requires !s.stopped && s.cur == Idle && StampedFrame(f) == Flatten(bs)
    ensures Fold(Plain(ck), s, bs) == s.(delivered := s.delivered + Passed(ck, [f]))
  {
    LengthField(f);
    assert bs != [];
    var first: seq<byte> := bs[0];
    assert (first + Flatten(bs[1..]))[..16] == first;
    if f.it.Message? {
      MessageFolds(ck, s, f, bs);
    } else {
      StampedSize(f);
      assert |Flatten(bs[1..])| == 0;
      assert bs[1..] == [];
    }
  }

  /** The first block of a message. */
  lemma Starts(ck: Checksum, s: Session, b: Block, n: nat)
    requires s.cur == Idle && FromBigEndian(b[..2]) == n && 1 <= n <= NTCP_MAX_MESSAGE_SIZE
    ensures TakePlain(ck, s, b) == Finish(ck, s.(cur := Partial(b, n + 2)))
  {
  }

  lemma FoldFirst(ck: Checksum, s: Session, bs: seq<Block>, s1: Session)
    requires bs != [] && !s.stopped && TakePlain(ck, s, bs[0]) == s1
    ensures Fold(Plain(ck), s, bs) == Fold(Plain(ck), s1, bs[1..])
  {
  }

  lemma OneMessage(ck: Checksum, f: Stamped)
    requires f.it.Message?
    ensures Passed(ck, [f]) == if Intact(ck, f) then [f.it.body] else []
  {
    assert [f][1..] == [];
  }

  lemma MessageFolds(ck: Checksum, s: Session, f: Stamped, bs: seq<Block>)
    requires !s.stopped && s.cur == Idle && StampedFrame(f) == Flatten(bs) && f.it.Message? && bs != []
    requires FromBigEndian(bs[0][..2]) == |f.it.body|
    ensures Fold(Plain(ck), s, bs) == s.(delivered := s.delivered + Passed(ck, [f]))
  {
    var s1 := s.(cur := Partial(bs[0], |f.it.body| + 2));
    Starts(ck, s, bs[0], |f.it.body|);
    EndOrOn(ck, s1, f, bs[0], bs[1..]);
    OneMessage(ck, f);
    FoldFirst(ck, s, bs, Finish(ck, s1));
    if bs[1..] != [] {
      FoldMessage(ck, s1, f, bs[0], bs[1..]);
    }
    assert s.delivered + [] == s.delivered;
  }

  /** A block that announces more than 16384 bytes, and no other, stops the session; nothing behind it is looked at. */
  lemma OversizedStops(ck: Checksum, s: Session, b: Block, bs: seq<Block>)
    requires !s.stopped && s.cur == Idle
    ensures TakePlain(ck, s, b).stopped <==> FromBigEndian(b[..2]) > 16384
    ensures FromBigEndian(b[..2]) > 16384 ==> Fold(Plain(ck), s, [b] + bs) == s.(stopped := true)
  {
    assert ([b] + bs)[1..] == bs;
    assert Fold(Plain(ck), s.(stopped := true), bs) == s.(stopped := true);
  }

  // ---------------------------------------------------------------- whole sessions

  /** Items under whatever checksums. */
  lemma {:induction false} DrainItems(c: Cipher, ck: Checksum, iv: Block, s: Session, fs: seq<Stamped>)
    requires Invertible(c) && !s.stopped && s.cur == Idle
    ensures var d := Drain(Receiver(c, ck), (iv, s), StampedWire(c, iv, fs));
            d.state.1 == s.(delivered := s.delivered + Passed(ck, fs)) && d.pending == []
    decreases |fs|
  {
    if fs != [] {
      var f, m := fs[0], Receiver(c, ck);
      StampedSize(f);
      var bs := Blocks(StampedFrame(f));
      var e := EncryptAll(c, iv, bs);
      var rest := StampedWire(c, LastOf(iv, e), fs[1..]);
      FlattenBlocks(StampedFrame(f));
      FoldFrame(ck, s, f, bs);
      var s1 := s.(delivered := s.delivered + Passed(ck, [f]));
      FoldCipher(c, Plain(ck), iv, s, bs);
      DrainIsFold(m, (iv, s), e);
      DrainAppend(m, (iv, s), Flatten(e), rest);
      assert [] + rest == rest;
      DrainItems(c, ck, LastOf(iv, e), s1, fs[1..]);
      assert fs == [f] + fs[1..];
      PassedHead(ck, fs);
      ConcatAssociates(s.delivered, Passed(ck, [f]), Passed(ck, fs[1..]));
    }
  }

  /**
   However TCP cuts the ciphertext into reads, exactly the posted messages are handed on, in order, and the
   session is ready for more.
   */
  lemma FramingCorrect(c: Cipher, ck: Checksum, iv: Block, items: seq<Outgoing>, chunks: seq<seq<byte>>)
    requires Invertible(c)
    requires Flatten(chunks) == Wire(c, ck, iv, items)
    ensures var d := FeedAll(Receiver(c, ck), Start(iv), chunks);
            d.state.1 == Session(false, Idle, Bodies(items)) && d.pending == []
  {
    OneRead(c, ck, iv, items);
    AnyCuts(Receiver(c, ck), Start(iv), chunks);
  }

  lemma OneRead(c: Cipher, ck: Checksum, iv: Block, items: seq<Outgoing>)
    requires Invertible(c)
    ensures var d := Feed(Receiver(c, ck), Start(iv), Wire(c, ck, iv, items));
            d.state.1 == Session(false, Idle, Bodies(items)) && d.pending == []
  {
    WireIsStamped(c, ck, iv, items);
    OneStampedRead(c, ck, iv, Stamp(ck, items));
    AllPassed(ck, items);
  }

  /**
   Whatever stands in the place of the checksums, and however the ciphertext is cut: exactly the messages whose checksum
   is right are handed on, in order, and a wrong one costs no other message.
   */
  lemma DamagedAreDropped(c: Cipher, ck: Checksum, iv: Block, fs: seq<Stamped>, chunks: seq<seq<byte>>)
    requires Invertible(c)
    requires Flatten(chunks) == StampedWire(c, iv, fs)
    ensures var d := FeedAll(Receiver(c, ck), Start(iv), chunks);
            d.state.1 == Session(false, Idle, Passed(ck, fs)) && d.pending == []
  {
    OneStampedRead(c, ck, iv, fs);
    AnyCuts(Receiver(c, ck), Start(iv), chunks);
  }

  lemma OneStampedRead(c: Cipher, ck: Checksum, iv: Block, fs: seq<Stamped>)
    requires Invertible(c)
    ensures var d := Feed(Receiver(c, ck), Start(iv), StampedWire(c, iv, fs));
            d.state.1 == Session(false, Idle, Passed(ck, fs)) && d.pending == []
  {
    var r, all := Start(iv), StampedWire(c, iv, fs);
    DrainItems(c, ck, iv, r.state.1, fs);
    assert r.pending + all == all;
  }

  /** Messages once handed on are never taken back. */
  lemma {:induction false} DeliveredGrows(c: Cipher, ck: Checksum, s: (Block, Session), pending: seq<byte>)
    ensures s.1.delivered <= Drain(Receiver(c, ck), s, pending).state.1.delivered
    decreases |pending|
  {
    var m := Receiver(c, ck);
    if m.live(s) && |pending| >= 16 {
      var s1 := m.take(s, pending[..16]);
      TakeGrows(ck, s.1, DecryptBlock(c, s.0, pending[..16]));
      DeliveredGrows(c, ck, s1, pending[16..]);
    }
  }

  lemma TakeGrows(ck: Checksum, s: Session, b: Block)
    ensures s.delivered <= TakePlain(ck, s, b).delivered
  {
  }

  /** At every moment, the messages handed on so far are the first ones posted. */
  lemma FramingPrefix(c: Cipher, ck: Checksum, iv: Block, items: seq<Outgoing>, chunks: seq<seq<byte>>)
    requires Invertible(c)
    requires Flatten(chunks) <= Wire(c, ck, iv, items)
    ensures FeedAll(Receiver(c, ck), Start(iv), chunks).state.1.delivered <= Bodies(items)
  {
    OneRead(c, ck, iv, items);
    CutShort(c, ck, Start(iv), chunks, Wire(c, ck, iv, items));
  }

  /** What a part of a stream delivers is a prefix of what the whole stream delivers. */
  lemma CutShort(c: Cipher, ck: Checksum, r: Reader<(Block, Session)>, chunks: seq<seq<byte>>, all: seq<byte>)
    requires Settled(Receiver(c, ck), r) && Flatten(chunks) <= all
    ensures FeedAll(Receiver(c, ck), r, chunks).state.1.delivered <= Feed(Receiver(c, ck), r, all).state.1.delivered
  {
    var m := Receiver(c, ck);
    FeedRest(m, r, chunks, all);
    var d := FeedAll(m, r, chunks);
    DeliveredGrows(c, ck, d.state, d.pending + all[|Flatten(chunks)|..]);
  }
}
