/**
 SSU data: a message loses its long header, is cut into fragments, and is put together again from fragments
 that arrive in any order, any number of times, or not at all.
 */
module SsuSpec {
  import opened Wrappers
  import opened Bytes

  type MsgID = nat

  const MAX_NUM_RECEIVED_MESSAGES: nat := 1000
  const INCOMPLETE_MESSAGES_CLEANUP_TIMEOUT: nat := 30
  const DELIVERY_STATUS: byte := 10

  /** An I2NP message; it expires at `expiration` milliseconds. */
  datatype Message = Message(typeID: byte, id: MsgID, expiration: nat, payload: seq<byte>)

  // ---------------------------------------------------------------- the short form

  /** Type and expiration in seconds, then the payload. */
  function ShortForm(m: Message): (r: seq<byte>)
    ensures |r| == |m.payload| + 5
  {
    [m.typeID] + BigEndian(m.expiration / 1000, 4) + m.payload
  }

  /** Reads the short form back; a message too short for its header is read as if followed by zeros. */
  function FromShortForm(id: MsgID, data: seq<byte>): Message {
    var d := if |data| < 5 then data + [0, 0, 0, 0, 0] else data;
    Message(d[0], id, FromBigEndian(d[1..5]) * 1000, if |data| < 5 then [] else data[5..])
  }

  /** The expiration loses its milliseconds. */
  function Rounded(m: Message): Message {
    m.(expiration := m.expiration / 1000 * 1000)
  }

  lemma ShortFormRoundTrip(m: Message)
    requires m.expiration / 1000 < Pow(256, 4)
    ensures FromShortForm(m.id, ShortForm(m)) == Rounded(m)
  {
    var s := ShortForm(m);
    assert s[1..5] == BigEndian(m.expiration / 1000, 4) && s[5..] == m.payload;
    BigEndianRoundTrip(m.expiration / 1000, 4);
  }

  // ---------------------------------------------------------------- fragments

  /** Pieces of `size` bytes, the last one possibly shorter. */
  function Chop(data: seq<byte>, size: nat): (r: seq<seq<byte>>)
    requires size > 0
    ensures |r| > 0
    decreases |data|
  {
    if |data| <= size then [data] else [data[..size]] + Chop(data[size..], size)
  }

  lemma {:induction false} ChopFlattens(data: seq<byte>, size: nat)
    requires size > 0
    ensures Flatten(Chop(data, size)) == data
    decreases |data|
  {
    if |data| <= size {
      assert Chop(data, size)[1..] == [];
      assert Flatten(Chop(data, size)) == data + [];
    } else {
      ChopFlattens(data[size..], size);
      assert Chop(data, size)[1..] == Chop(data[size..], size);
      assert data == data[..size] + data[size..];
    }
  }

  lemma {:induction false} ChopSizes(data: seq<byte>, size: nat, i: nat)
    requires size > 0 && data != [] && i < |Chop(data, size)|
    ensures 0 < |Chop(data, size)[i]| <= size
    ensures i < |Chop(data, size)| - 1 ==> |Chop(data, size)[i]| == size
    decreases |data|
  {
    if |data| > size && i > 0 {
      ChopSizes(data[size..], size, i - 1);
    }
  }

  // ---------------------------------------------------------------- one fragment on the wire

  /** Seven bits of number, the last-fragment bit, three spare bits and thirteen bits of size. */
  function FragmentInfo(num: nat, last: bool, size: nat): nat {
    num * 0x20000 + (if last then 0x10000 else 0) + size
  }

  function EncodeFragment(id: MsgID, num: nat, last: bool, bytes: seq<byte>): seq<byte> {
    [4, 1] + BigEndian(id, 4) + BigEndian(FragmentInfo(num, last, |bytes|), 3) + bytes
  }

  datatype Fragment = Fragment(id: MsgID, num: nat, last: bool, bytes: seq<byte>)

  /** The fragment at the front of `s`; too big a fragment is refused. */
  function ReadFragment(s: seq<byte>): Option<Fragment> {
    if |s| < 7 then None
    else
      var info := FromBigEndian(s[4..7]);
      var size := info % 0x2000;
      if size >= 1456 || |s| < 7 + size then None
      else Some(Fragment(FromBigEndian(s[..4]), info / 0x20000, (info / 0x10000) % 2 == 1, s[7..7 + size]))
  }

  /** Up to `n` fragments one after the other; the first one refused ends the packet. */
  function Fragments(s: seq<byte>, n: nat): seq<Fragment>
    decreases n
  {
    if n == 0 then []
    else
      var f := ReadFragment(s);
      if f.None? || |s| < 7 + |f.value.bytes| then []
      else [f.value] + Fragments(s[7 + |f.value.bytes|..], n - 1)
  }

  /** The fragments of a packet without acks or extended data. */
  function PacketFragments(p: seq<byte>): seq<Fragment> {
    if |p| < 2 || p[0] != 4 then [] else Fragments(p[2..], p[1])
  }

  lemma InfoFields(num: nat, last: bool, size: nat)
    requires num < 128 && size < 0x2000
    ensures var v := FragmentInfo(num, last, size);
            v < 0x1000000 && v % 0x2000 == size && v / 0x20000 == num && ((v / 0x10000) % 2 == 1) == last
  {
  }

  lemma FragmentParts(id: seq<byte>, info: seq<byte>, bytes: seq<byte>, padding: seq<byte>)
    requires |id| == 4 && |info| == 3
    ensures var s := id + info + bytes + padding;
            s[..4] == id && s[4..7] == info && s[7..7 + |bytes|] == bytes
  {
  }

  lemma ReadBack(id: MsgID, num: nat, last: bool, bytes: seq<byte>, padding: seq<byte>)
    requires id < Pow(256, 4) && num < 128 && |bytes| < 1456
    ensures ReadFragment(BigEndian(id, 4) + BigEndian(FragmentInfo(num, last, |bytes|), 3) + bytes + padding) ==
            Some(Fragment(id, num, last, bytes))
  {
    var info := FragmentInfo(num, last, |bytes|);
    InfoFields(num, last, |bytes|);
    FragmentParts(BigEndian(id, 4), BigEndian(info, 3), bytes, padding);
    BigEndianRoundTrip(id, 4);
    assert Pow(256, 3) == 0x1000000;
    BigEndianRoundTrip(info, 3);
  }

  /** A packet, whatever padding follows it, gives back its fragment, as long as there are at most 128 of them. */
  lemma FragmentRoundTrip(id: MsgID, num: nat, last: bool, bytes: seq<byte>, padding: seq<byte>)
    requires id < Pow(256, 4) && num < 128 && |bytes| < 1456
    ensures PacketFragments(EncodeFragment(id, num, last, bytes) + padding) == [Fragment(id, num, last, bytes)]
  {
    var p := EncodeFragment(id, num, last, bytes) + padding;
    var s := BigEndian(id, 4) + BigEndian(FragmentInfo(num, last, |bytes|), 3) + bytes + padding;
    assert p[0] == 4 && p[1] == 1 && p[2..] == s;
    ReadBack(id, num, last, bytes, padding);
    assert Fragments(s, 1) == [Fragment(id, num, last, bytes)] + Fragments(s[7 + |bytes|..], 0);
  }

  // ---------------------------------------------------------------- the receiver

  datatype Saved = Saved(bytes: seq<byte>, last: bool)

  /** A message of which the first `next` fragments are put together and some later ones are saved. */
  datatype Incomplete = Incomplete(data: seq<byte>, next: nat, saved: map<nat, Saved>, lastInsert: nat)

  /** A message handed on, and how often the list of received messages had been cleared by then. */
  datatype Delivery = Delivery(msg: Message, epoch: nat)

  datatype Receiver = Receiver(
    established: bool, incomplete: map<MsgID, Incomplete>, received: set<MsgID>,
    epoch: nat, delivered: seq<Delivery>, acked: seq<MsgID>)

  function Attach(inc: Incomplete, bytes: seq<byte>): Incomplete {
    inc.(data := inc.data + bytes, next := inc.next + 1)
  }

  datatype Attached = Attached(inc: Incomplete, last: bool)

  /** Adds saved fragments for as long as the next one is there. */
  function AttachSaved(inc: Incomplete, last: bool): Attached
    decreases inc.saved
  {
    if inc.next !in inc.saved then Attached(inc, last)
    else
      var f := inc.saved[inc.next];
      SmallerMap(inc.saved, inc.next);
      AttachSaved(Attach(inc.(saved := inc.saved - {inc.next}), f.bytes), f.last)
  }

  lemma SmallerMap(m: map<nat, Saved>, k: nat)
    requires k in m
    ensures |(m - {k}).Keys| < |m.Keys|
  {
    assert (m - {k}).Keys == m.Keys - {k};
  }

  /** A whole message has arrived. */
  function Complete(y: Receiver, id: MsgID, data: seq<byte>): Receiver {
    var msg := FromShortForm(id, data);
    var y1 := y.(incomplete := y.incomplete - {id}, acked := y.acked + [id]);
    if !y.established then y1.(established := msg.typeID == DELIVERY_STATUS)
    else if id in y.received then y1
    else
      var full := |y.received| > MAX_NUM_RECEIVED_MESSAGES;
      var epoch := if full then y.epoch + 1 else y.epoch;
      y1.(received := (if full then {} else y.received) + {id}, epoch := epoch,
          delivered := y.delivered + [Delivery(msg, epoch)])
  }

  function Lookup(y: Receiver, id: MsgID): Incomplete {
    if id in y.incomplete then y.incomplete[id] else Incomplete([], 0, map[], 0)
  }

  /** The fragment expected next. */
  function Expected(inc: Incomplete, f: Fragment): Attached {
    var inc1 := Attach(inc, f.bytes);
    if f.last then Attached(inc1, true) else AttachSaved(inc1, false)
  }

  /** A fragment that came too early is saved once. */
  function Early(inc: Incomplete, f: Fragment, ts: nat): Incomplete {
    if f.num in inc.saved then inc
    else inc.(saved := inc.saved[f.num := Saved(f.bytes, f.last)], lastInsert := ts)
  }

  function HandleFragment(y: Receiver, f: Fragment, ts: nat): Receiver {
    var inc := Lookup(y, f.id);
    if f.num == inc.next then
      var a := Expected(inc, f);
      if a.last then Complete(y, f.id, a.inc.data) else y.(incomplete := y.incomplete[f.id := a.inc])
    else
      y.(incomplete := y.incomplete[f.id := if f.num < inc.next then inc else Early(inc, f, ts)])
  }

  /** The fragments of one packet, in order. */
  function HandleFragments(y: Receiver, fs: seq<Fragment>, ts: nat): Receiver
    decreases |fs|
  {
    if fs == [] then y else HandleFragments(HandleFragment(y, fs[0], ts), fs[1..], ts)
  }

  /** Messages are given up when nothing was saved for them lately. */
  function Cleanup(y: Receiver, ts: nat): Receiver {
    y.(incomplete := map id | id in y.incomplete &&
                              ts <= y.incomplete[id].lastInsert + INCOMPLETE_MESSAGES_CLEANUP_TIMEOUT :: y.incomplete[id])
  }

  function Decay(y: Receiver): Receiver {
    y.(received := {}, epoch := y.epoch + 1)
  }
}
