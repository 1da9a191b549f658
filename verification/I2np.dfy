/**
 I2NP messages in their buffers: the long header used everywhere else, the short one used by SSU, the conversion
 between the two in place, and the buffer of a message that grows fragment by fragment.
 */
module I2np {
  import opened Wrappers
  import opened Bytes
  import opened SsuSpec

  const I2NP_HEADER_SIZE: nat := 16
  const I2NP_SHORT_HEADER_SIZE: nat := 5

  /** Type, number, expiration, size and checksum. */
  function Header(typeID: byte, id: nat, expiration: nat, size: nat, checksum: byte): (r: seq<byte>)
    ensures |r| == 16
  {
    [typeID] + BigEndian(id, 4) + BigEndian(expiration, 8) + BigEndian(size, 2) + [checksum]
  }

  function LongForm(m: Message, checksum: byte): (r: seq<byte>)
    ensures |r| == |m.payload| + 16
  {
    Header(m.typeID, m.id, m.expiration, |m.payload|, checksum) + m.payload
  }

  lemma TwoDigits(size: nat)
    ensures size / 256 % 256 == size % 65536 / 256 && size % 65536 / 256 < 256 && size % 256 == size % 65536 % 256
  {
    var q, high, low := size / 65536, size % 65536 / 256, size % 65536 % 256;
    assert size == 256 * (256 * q + high) + low;
    assert size / 256 == 256 * q + high;
  }

  /** A size is cut to its two bytes. */
  lemma TwoBytes(size: nat)
    ensures BigEndian(size, 2) == BigEndian(size % 65536, 2) && FromBigEndian(BigEndian(size, 2)) == size % 65536
  {
    TwoDigits(size);
    assert BigEndian(size / 256, 1) == [] + [size / 256 % 256];
    assert BigEndian(size % 65536 / 256, 1) == [] + [size % 65536 / 256 % 256];
    assert Pow(256, 2) == 65536;
    BigEndianRoundTrip(size % 65536, 2);
  }

  /** The message a buffer of at least a header stands for. */
  function FromLongForm(b: seq<byte>): Message
    requires |b| >= 16
  {
    Message(b[0], FromBigEndian(b[1..5]), FromBigEndian(b[5..13]), b[16..])
  }

  function SizeField(b: seq<byte>): nat
    requires |b| >= 16
  {
    FromBigEndian(b[13..15])
  }

  lemma LongFormRoundTrip(m: Message, checksum: byte)
    requires m.id < Pow(256, 4) && m.expiration < Pow(256, 8) && |m.payload| < 65536
    ensures FromLongForm(LongForm(m, checksum)) == m && SizeField(LongForm(m, checksum)) == |m.payload|
  {
    var b := LongForm(m, checksum);
    assert b[1..5] == BigEndian(m.id, 4) && b[5..13] == BigEndian(m.expiration, 8);
    assert b[13..15] == BigEndian(|m.payload|, 2) && b[16..] == m.payload;
    BigEndianRoundTrip(m.id, 4);
    BigEndianRoundTrip(m.expiration, 8);
    assert Pow(256, 2) == 65536;
    BigEndianRoundTrip(|m.payload|, 2);
  }

  /** From the long header to the short one and back: only the milliseconds and the checksum are lost. */
  lemma HeaderRoundTrip(m: Message, checksum: byte)
    requires m.id < Pow(256, 4) && m.expiration < Pow(256, 8) && |m.payload| < 65536 && m.expiration / 1000 < Pow(256, 4)
    ensures var ssu := ShortForm(FromLongForm(LongForm(m, checksum)));
            LongForm(FromShortForm(m.id, ssu), 0) == LongForm(Rounded(m), 0)
  {
    LongFormRoundTrip(m, checksum);
    ShortFormRoundTrip(m);
  }

  /** Where the header of a message in a buffer has its fields. */
  lemma HeaderFields(a: array<byte>, offset: nat, len: nat)
    requires offset + 16 <= len <= a.Length
    ensures var b := a[offset..len];
            && b[0] == a[offset] && b[1..5] == a[offset + 1..offset + 5] && b[5..13] == a[offset + 5..offset + 13]
            && b[13..15] == a[offset + 13..offset + 15] && b[16..] == a[offset + 16..len]
  {
    SliceOfSlice(a[..], offset, len, 1, 5);
    SliceOfSlice(a[..], offset, len, 5, 13);
    SliceOfSlice(a[..], offset, len, 13, 15);
    assert a[offset..len] == a[..][offset..len];
  }

  /** The long header made from a short one; the size is cut to two bytes. */
  function FromShortHeader(short: seq<byte>, msgID: nat, size: int): (r: seq<byte>)
    requires |short| == 5
    ensures |r| == 16
  {
    Header(short[0], msgID, FromBigEndian(short[1..]) * 1000, size % 65536, 0)
  }

  lemma ShortToLong(short: seq<byte>, payload: seq<byte>, msgID: nat)
    requires |short| == 5
    ensures FromShortHeader(short, msgID, |payload|) + payload == LongForm(FromShortForm(msgID, short + payload), 0)
  {
    var d := short + payload;
    assert d[0] == short[0] && d[1..5] == short[1..] && d[5..] == payload;
    TwoBytes(|payload|);
  }

  lemma SizeOfShort(short: seq<byte>, msgID: nat, size: int)
    requires |short| == 5
    ensures SizeField(FromShortHeader(short, msgID, size)) == size % 65536
  {
    var cut := size % 65536;
    TwoBytes(cut);
    assert FromShortHeader(short, msgID, size)[13..15] == BigEndian(cut, 2);
  }

  lemma TailParts(a: array<byte>, i: nat, len: nat)
    requires i <= len <= a.Length
    ensures a[i..len] == a[i..][..len - i] && a[len..] == a[i..][len - i..]
  {
  }

  class I2NPMessage {
    const buf: array<byte>
    var len: nat
    var offset: nat
    var maxLen: nat

    ghost predicate Valid()
      reads this
    {
      offset + 11 <= len <= buf.Length && offset + 16 <= buf.Length && maxLen + 16 <= buf.Length
    }

    /** The message with its long header. */
    ghost function Contents(): seq<byte>
      reads this, buf
      requires Valid()
    {
      buf[offset..len]
    }

    constructor (size: nat)
      requires size >= 18
      ensures Valid() && fresh(buf) && offset == 2 && len == 18 && maxLen == size && buf.Length == size + 16
    {
      buf := new byte[size + 16](i => 0);
      len, offset, maxLen := 18, 2, size;
    }

    /** Copies the contents of another message; the nominal size comes along with it. */
    method Assign(other: I2NPMessage)
      requires Valid() && other.Valid() && other.buf != buf && other != this
      requires offset + (other.len - other.offset) <= buf.Length && other.maxLen + 16 <= buf.Length
      modifies this, buf
      ensures Valid() && offset == old(offset) && maxLen == other.maxLen
      ensures Contents() == other.Contents()
    {
      CopyInto(buf, offset, other.buf[other.offset..other.len]);
      len := offset + (other.len - other.offset);
      maxLen := other.maxLen;
    }

    /** Turns the long header into the short one, right before the payload; returns the message number. */
    method ToSSU() returns (msgID: nat)
      requires Valid() && offset + 16 <= len && offset + 16 + SizeField(Contents()) <= buf.Length
      modifies this`len, buf
      ensures len == offset + 5 + SizeField(old(Contents()))
      ensures msgID == FromLongForm(old(Contents())).id
      ensures offset + 11 + (len - offset) <= buf.Length
      ensures var b := old(Contents());
              old(len) == offset + 16 + SizeField(b) ==>
                buf[offset + 11..offset + 11 + (len - offset)] == ShortForm(FromLongForm(b))
      ensures buf[..offset + 11] == old(buf[..offset + 11]) && buf[offset + 16..] == old(buf[offset + 16..])
    {
      ghost var b := Contents();
      HeaderFields(buf, offset, len);
      var typeID, seconds := buf[offset], FromBigEndian(buf[offset + 5..offset + 13]) / 1000;
      var size := FromBigEndian(buf[offset + 13..offset + 15]);
      msgID := FromBigEndian(buf[offset + 1..offset + 5]);
      var ssu := offset + 11;
      ghost var tail := buf[ssu + 5..];
      CopyInto(buf, ssu, [typeID] + BigEndian(seconds, 4));
      assert buf[ssu + 5..] == tail && buf[ssu + 5..ssu + 5 + size] == tail[..size];
      SliceJoins(buf, ssu, ssu + 5, ssu + 5 + size);
      assert old(len) == offset + 16 + size ==> tail[..size] == b[16..];
      len := offset + 5 + size;
    }

    /** The bytes of a message received over SSU, starting with its short header. */
    ghost function Received(): seq<byte>
      reads this, buf
      requires Valid()
    {
      buf[offset + 11..len]
    }

    method Append(data: seq<byte>)
      requires Valid() && len + |data| <= buf.Length
      modifies this`len, buf
      ensures Valid() && len == old(len) + |data| && Received() == old(Received()) + data
    {
      ghost var before := Received();
      CopyInto(buf, len, data);
      len := len + |data|;
      assert buf[offset + 11..len] == before + data;
    }

    /** Writes a long header in place. */
    method SetHeader(header: seq<byte>)
      requires Valid() && |header| == 16
      modifies buf
      ensures Valid() && buf[..offset] == old(buf[..offset]) && buf[offset + 16..] == old(buf[offset + 16..])
      ensures buf[offset..offset + 16] == header
      ensures len >= offset + 16 ==> Contents() == header + old(Received())[5..]
    {
      ghost var size := len - offset - 16;
      ghost var payload := buf[offset + 16..];
      assert size >= 0 ==> Received()[5..] == payload[..size];
      CopyInto(buf, offset, header);
      if size >= 0 {
        TailParts(buf, offset + 16, len);
        SliceJoins(buf, offset, offset + 16, len);
      }
    }

    /**
     Turns the short header back into a long one; the long one overlaps it. A message of fewer than the five bytes of
     a short header is converted too: its size field wraps.
     */
    method FromSSU(msgID: nat)
      requires Valid()
      modifies buf
      ensures Valid() && buf[..offset] == old(buf[..offset]) && buf[offset + 16..] == old(buf[offset + 16..])
      ensures buf[offset..offset + 16] == FromShortHeader(old(buf[offset + 11..offset + 16]), msgID, len - offset - 16)
      ensures SizeField(buf[offset..offset + 16]) == (len - offset - 16) % 65536
      ensures len >= offset + 16 ==> Contents() == LongForm(FromShortForm(msgID, old(Received())), 0)
    {
      var short, size := buf[offset + 11..offset + 16], len - offset - 16;
      SizeOfShort(short, msgID, size);
      if size >= 0 {
        assert Received() == short + Received()[5..];
        ShortToLong(short, Received()[5..], msgID);
      }
      SetHeader(FromShortHeader(short, msgID, size));
    }
  }

  /** A message being put together behind room for its long header. */
  class IncompleteMessage {
    var msg: I2NPMessage
    var nextFragmentNum: nat

    ghost predicate Valid()
      reads this, msg
    {
      msg.Valid() && msg.offset == 2 && msg.maxLen == I2NP_MAX_SHORT_MESSAGE_SIZE
    }

    ghost function Data(): seq<byte>
      reads this, msg, msg.buf
      requires Valid()
    {
      msg.Received()
    }

    constructor ()
      ensures Valid() && fresh(msg) && fresh(msg.buf) && nextFragmentNum == 0 && Data() == []
    {
      msg := new I2NPMessage(I2NP_MAX_SHORT_MESSAGE_SIZE);
      nextFragmentNum := 0;
      new;
      msg.len := msg.len - I2NP_SHORT_HEADER_SIZE;
    }

    /** Appends a fragment, in a bigger buffer once the short one is full. */
    method AttachNextFragment(fragment: seq<byte>)
      requires Valid() && 13 + |Data()| + |fragment| <= I2NP_MAX_MESSAGE_SIZE + 16
      modifies this, msg, msg.buf
      ensures Valid() && (msg == old(msg) || (fresh(msg) && fresh(msg.buf)))
      ensures Data() == old(Data()) + fragment && nextFragmentNum == old(nextFragmentNum) + 1
    {
      if msg.len + |fragment| > msg.maxLen {
        UseBiggerBuffer();
      }
      msg.Append(fragment);
      nextFragmentNum := nextFragmentNum + 1;
    }

    method UseBiggerBuffer()
      requires Valid() && 13 + |Data()| <= I2NP_MAX_MESSAGE_SIZE + 16
      modifies this`msg
      ensures Valid() && fresh(msg) && fresh(msg.buf) && msg.buf.Length == I2NP_MAX_MESSAGE_SIZE + 16
      ensures Data() == old(Data())
    {
      var newMsg := new I2NPMessage(I2NP_MAX_MESSAGE_SIZE);
      newMsg.Assign(msg);
      assert newMsg.Contents()[11..] == msg.Contents()[11..];
      assert newMsg.Received() == newMsg.Contents()[11..] && msg.Received() == msg.Contents()[11..];
      msg := newMsg;
    }
  }
}
