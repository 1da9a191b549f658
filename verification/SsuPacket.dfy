/**
 Data packets: a flag, then acknowledgements of whole messages, acknowledgement bitfields, extended data and fragments,
 each as the flag says. What is written is read back, and an acknowledgement does as a packet what it does in a run.
 */
module SsuPacket {
  import opened Wrappers
  import opened Bytes
  import opened SsuSpec
  import Sending = SsuResend
  import Receiving = SsuProtocol
  import Duplex = SsuDuplex

  /** The bitfield for one message. */
  datatype Bits = Bits(id: MsgID, field: seq<byte>)

  datatype Contents = Contents(acks: seq<MsgID>, bits: seq<Bits>, fragments: seq<Fragment>)

  /** A part of a packet, and what follows it. */
  datatype Got<T> = Got(value: T, rest: seq<byte>)

  // ---------------------------------------------------------------- reading

  function ReadIds(s: seq<byte>, n: nat): Option<Got<seq<MsgID>>>
    decreases n
  {
    if n == 0 then Some(Got([], s))
    else if |s| < 4 then None
    else
      var more := ReadIds(s[4..], n - 1);
      if more.None? then None else Some(Got([FromBigEndian(s[..4])] + more.value.value, more.value.rest))
  }

  /** A bitfield ends with its first byte below 128. */
  function FieldSize(s: seq<byte>): (k: nat)
    ensures k <= |s|
  {
    if s == [] then 0 else if s[0] < 128 then 1 else 1 + FieldSize(s[1..])
  }

  function ReadBits(s: seq<byte>, n: nat): Option<Got<seq<Bits>>>
    decreases n
  {
    if n == 0 then Some(Got([], s))
    else if |s| < 4 then None
    else
      var k := FieldSize(s[4..]);
      var more := ReadBits(s[4 + k..], n - 1);
      if more.None? then None else Some(Got([Bits(FromBigEndian(s[..4]), s[4..4 + k])] + more.value.value, more.value.rest))
  }

  predicate HasAcks(flag: byte) { flag >= 128 }

  predicate HasBits(flag: byte) { flag / 64 % 2 == 1 }

  predicate HasExtended(flag: byte) { flag / 2 % 2 == 1 }

  function AcksPart(flag: byte, s: seq<byte>): Option<Got<seq<MsgID>>> {
    if !HasAcks(flag) then Some(Got([], s)) else if s == [] then None else ReadIds(s[1..], s[0])
  }

  function BitsPart(flag: byte, s: seq<byte>): Option<Got<seq<Bits>>> {
    if !HasBits(flag) then Some(Got([], s)) else if s == [] then None else ReadBits(s[1..], s[0])
  }

  /** Extended data is passed over. */
  function ExtendedPart(flag: byte, s: seq<byte>): Option<seq<byte>> {
    if !HasExtended(flag) then Some(s)
    else if s == [] then None
    else
      var size: nat := s[0];
      if |s| < size + 1 then None else Some(s[size + 1..])
  }

  function FragmentsPart(s: seq<byte>): seq<Fragment> {
    if s == [] then [] else Fragments(s[1..], s[0])
  }

  /** Nothing if the packet ends within its acknowledgements or extended data. */
  function ReadPacket(p: seq<byte>): Option<Contents> {
    if p == [] then None
    else
      var a := AcksPart(p[0], p[1..]);
      if a.None? then None
      else
        var b := BitsPart(p[0], a.value.rest);
        if b.None? then None
        else
          var x := ExtendedPart(p[0], b.value.rest);
          if x.None? then None else Some(Contents(a.value.value, b.value.value, FragmentsPart(x.value)))
  }

  // ---------------------------------------------------------------- writing

  function WriteIds(ids: seq<MsgID>): seq<byte> {
    if ids == [] then [] else BigEndian(ids[0], 4) + WriteIds(ids[1..])
  }

  function WriteBits(bits: seq<Bits>): seq<byte> {
    if bits == [] then [] else BigEndian(bits[0].id, 4) + (bits[0].field + WriteBits(bits[1..]))
  }

  function WriteFragment(f: Fragment): seq<byte> {
    BigEndian(f.id, 4) + BigEndian(FragmentInfo(f.num, f.last, |f.bytes|), 3) + f.bytes
  }

  function WriteFragments(fs: seq<Fragment>): seq<byte> {
    if fs == [] then [] else WriteFragment(fs[0]) + WriteFragments(fs[1..])
  }

  function Counted(there: bool, n: nat, s: seq<byte>): seq<byte>
    requires n < 256
  {
    if there then [n] + s else []
  }

  predicate Short(w: Contents, extended: seq<byte>) {
    |w.acks| < 256 && |w.bits| < 256 && |extended| < 256 && |w.fragments| < 256
  }

  function WritePacket(flag: byte, w: Contents, extended: seq<byte>): seq<byte>
    requires Short(w, extended)
  {
    [flag] + (Counted(HasAcks(flag), |w.acks|, WriteIds(w.acks))
    + (Counted(HasBits(flag), |w.bits|, WriteBits(w.bits))
    + (Counted(HasExtended(flag), |extended|, extended) + ([|w.fragments|] + WriteFragments(w.fragments)))))
  }

  /** A bitfield: every byte but the last one says that another follows. */
  predicate IsField(field: seq<byte>) {
    field != [] && field[|field| - 1] < 128 && forall i :: 0 <= i < |field| - 1 ==> field[i] >= 128
  }

  predicate FragmentFits(f: Fragment) {
    f.id < 0x1_0000_0000 && f.num < 128 && |f.bytes| < 1456
  }

  predicate Fits(w: Contents) {
    IdsFit(w.acks) && BitsFit(w.bits) && AllFit(w.fragments)
  }

  predicate IdsFit(ids: seq<MsgID>) {
    forall i :: 0 <= i < |ids| ==> ids[i] < 0x1_0000_0000
  }

  predicate BitsFit(bits: seq<Bits>) {
    forall i :: 0 <= i < |bits| ==> bits[i].id < 0x1_0000_0000 && IsField(bits[i].field)
  }

  predicate AllFit(fs: seq<Fragment>) {
    forall i :: 0 <= i < |fs| ==> FragmentFits(fs[i])
  }

  // ---------------------------------------------------------------- round trips

  lemma IdReads(id: MsgID, rest: seq<byte>)
    requires id < 0x1_0000_0000
    ensures var s := BigEndian(id, 4) + rest; s[..4] == BigEndian(id, 4) && s[4..] == rest && FromBigEndian(s[..4]) == id
  {
    assert Pow(256, 4) == 0x1_0000_0000;
    BigEndianRoundTrip(id, 4);
  }

  lemma {:induction false} IdsRoundTrip(ids: seq<MsgID>, tail: seq<byte>)
    requires IdsFit(ids)
    ensures ReadIds(WriteIds(ids) + tail, |ids|) == Some(Got(ids, tail))
    decreases |ids|
  {
    if ids == [] {
      assert WriteIds(ids) + tail == tail;
    } else {
      var rest := WriteIds(ids[1..]) + tail;
      ConcatAssociates(BigEndian(ids[0], 4), WriteIds(ids[1..]), tail);
      IdReads(ids[0], rest);
      assert ids == [ids[0]] + ids[1..];
      IdsRoundTrip(ids[1..], tail);
    }
  }

  lemma {:induction false} FieldEnds(field: seq<byte>, tail: seq<byte>)
    requires IsField(field)
    ensures FieldSize(field + tail) == |field|
    decreases |field|
  {
    assert (field + tail)[1..] == field[1..] + tail;
    if |field| > 1 {
      FieldEnds(field[1..], tail);
    }
  }

  lemma BitsRead(b: Bits, rest: seq<byte>, n: nat, more: Got<seq<Bits>>)
    requires b.id < 0x1_0000_0000 && IsField(b.field) && ReadBits(rest, n) == Some(more)
    ensures ReadBits(BigEndian(b.id, 4) + (b.field + rest), n + 1) == Some(Got([b] + more.value, more.rest))
  {
    var s, k := BigEndian(b.id, 4) + (b.field + rest), |b.field|;
    IdReads(b.id, b.field + rest);
    FieldEnds(b.field, rest);
    assert FieldSize(s[4..]) == k;
    assert s[4..4 + k] == b.field && s[4 + k..] == rest;
  }

  lemma {:induction false} BitsRoundTrip(bits: seq<Bits>, tail: seq<byte>)
    requires BitsFit(bits)
    ensures ReadBits(WriteBits(bits) + tail, |bits|) == Some(Got(bits, tail))
    decreases |bits|
  {
    if bits == [] {
      assert WriteBits(bits) + tail == tail;
    } else {
      var b, rest := bits[0], WriteBits(bits[1..]) + tail;
      Regroup(BigEndian(b.id, 4), b.field, WriteBits(bits[1..]), tail);
      BitsRoundTrip(bits[1..], tail);
      BitsRead(b, rest, |bits| - 1, Got(bits[1..], tail));
      assert bits == [b] + bits[1..];
    }
  }

  lemma Regroup(a: seq<byte>, b: seq<byte>, c: seq<byte>, d: seq<byte>)
    ensures a + (b + c) + d == a + (b + (c + d))
  {
  }

  lemma OneFragment(f: Fragment, rest: seq<byte>, n: nat)
    requires FragmentFits(f)
    ensures Fragments(WriteFragment(f) + rest, n + 1) == [f] + Fragments(rest, n)
  {
    assert Pow(256, 4) == 0x1_0000_0000;
    ReadBack(f.id, f.num, f.last, f.bytes, rest);
    var s := WriteFragment(f) + rest;
    assert |WriteFragment(f)| == 7 + |f.bytes| && s[7 + |f.bytes|..] == rest;
  }

  lemma FragmentFirst(f: Fragment, rest: seq<byte>, n: nat, more: seq<Fragment>)
    requires FragmentFits(f) && n > 0 && Fragments(rest, n - 1) == more
    ensures Fragments(WriteFragment(f) + rest, n) == [f] + more
  {
    OneFragment(f, rest, n - 1);
  }

  lemma FirstBack<T>(fs: seq<T>, more: seq<T>)
    requires fs != []
    ensures [fs[0]] + (fs[1..] + more) == fs + more
  {
  }

  lemma WriteFirst(fs: seq<Fragment>, tail: seq<byte>)
    requires fs != []
    ensures WriteFragments(fs) + tail == WriteFragment(fs[0]) + (WriteFragments(fs[1..]) + tail)
  {
  }

  lemma WriteNone(tail: seq<byte>)
    ensures WriteFragments([]) + tail == tail
  {
  }

  /** Reading takes one item after the other off the front of what writing has put there. */
  ghost predicate TakesOff<T(!new)>(read: (seq<byte>, nat) -> seq<T>, write: seq<T> -> seq<byte>, fits: T -> bool, tail: seq<byte>) {
    && write([]) + tail == tail
    && forall ts: seq<T>, n: nat :: ts != [] && fits(ts[0]) && n > 0 ==>
         read(write(ts) + tail, n) == [ts[0]] + read(write(ts[1..]) + tail, n - 1)
  }

  lemma {:induction false} AllTakenOff<T(!new)>(
      read: (seq<byte>, nat) -> seq<T>, write: seq<T> -> seq<byte>, fits: T -> bool, tail: seq<byte>, ts: seq<T>, n: nat)
    requires TakesOff(read, write, fits, tail) && forall i :: 0 <= i < |ts| ==> fits(ts[i])
    ensures read(write(ts) + tail, |ts| + n) == ts + read(tail, n)
    decreases |ts|
  {
    if ts == [] {
      assert ts + read(tail, n) == read(tail, n);
    } else {
      AllTakenOff(read, write, fits, tail, ts[1..], n);
      FirstBack(ts, read(tail, n));
    }
  }

  lemma FragmentsTakeOff(tail: seq<byte>)
    ensures TakesOff((s, n: nat) => Fragments(s, n), fs => WriteFragments(fs), f => FragmentFits(f), tail)
  {
    WriteNone(tail);
    forall fs: seq<Fragment>, n: nat | fs != [] && FragmentFits(fs[0]) && n > 0
      ensures Fragments(WriteFragments(fs) + tail, n) == [fs[0]] + Fragments(WriteFragments(fs[1..]) + tail, n - 1)
    {
      WriteFirst(fs, tail);
      FragmentFirst(fs[0], WriteFragments(fs[1..]) + tail, n, Fragments(WriteFragments(fs[1..]) + tail, n - 1));
    }
  }

  lemma FragmentsThen(fs: seq<Fragment>, tail: seq<byte>, n: nat)
    requires AllFit(fs)
    ensures Fragments(WriteFragments(fs) + tail, |fs| + n) == fs + Fragments(tail, n)
  {
    FragmentsTakeOff(tail);
    AllTakenOff((s, n: nat) => Fragments(s, n), fs => WriteFragments(fs), f => FragmentFits(f), tail, fs, n);
  }

  lemma FragmentsRoundTrip(fs: seq<Fragment>, tail: seq<byte>)
    requires AllFit(fs)
    ensures Fragments(WriteFragments(fs) + tail, |fs|) == fs
  {
    FragmentsThen(fs, tail, 0);
    assert fs + [] == fs;
  }

  lemma Refused(id: MsgID, info: nat, rest: seq<byte>)
    requires info < 0x100_0000 && info % 0x2000 >= 1456
    ensures ReadFragment(BigEndian(id, 4) + BigEndian(info, 3) + rest).None?
  {
    var bad := BigEndian(id, 4) + BigEndian(info, 3) + rest;
    assert bad[4..7] == BigEndian(info, 3);
    assert Pow(256, 3) == 0x100_0000;
    BigEndianRoundTrip(info, 3);
  }

  lemma NothingRead(bad: seq<byte>, n: nat)
    requires ReadFragment(bad).None?
    ensures Fragments(bad, n) == []
  {
  }

  /** A fragment that announces 1456 bytes or more ends the packet: those before it count, nothing behind it does. */
  lemma OversizedEnds(fs: seq<Fragment>, id: MsgID, info: nat, rest: seq<byte>, n: nat)
    requires AllFit(fs) && info < 0x100_0000 && info % 0x2000 >= 1456
    ensures Fragments(WriteFragments(fs) + (BigEndian(id, 4) + BigEndian(info, 3) + rest), |fs| + n) == fs
  {
    Refused(id, info, rest);
    var bad := BigEndian(id, 4) + BigEndian(info, 3) + rest;
    NothingRead(bad, n);
    FragmentsThen(fs, bad, n);
    assert fs + [] == fs;
  }

  lemma CountFirst(n: nat, s: seq<byte>, tail: seq<byte>)
    requires n < 256
    ensures var t := Counted(true, n, s) + tail; t != [] && t[0] == n && t[1..] == s + tail
    ensures Counted(false, n, s) + tail == tail
  {
  }

  lemma AcksBack(flag: byte, ids: seq<MsgID>, tail: seq<byte>)
    requires |ids| < 256 && IdsFit(ids) && (!HasAcks(flag) ==> ids == [])
    ensures AcksPart(flag, Counted(HasAcks(flag), |ids|, WriteIds(ids)) + tail) == Some(Got(ids, tail))
  {
    CountFirst(|ids|, WriteIds(ids), tail);
    IdsRoundTrip(ids, tail);
  }

  lemma BitsBack(flag: byte, bits: seq<Bits>, tail: seq<byte>)
    requires |bits| < 256 && BitsFit(bits) && (!HasBits(flag) ==> bits == [])
    ensures BitsPart(flag, Counted(HasBits(flag), |bits|, WriteBits(bits)) + tail) == Some(Got(bits, tail))
  {
    CountFirst(|bits|, WriteBits(bits), tail);
    BitsRoundTrip(bits, tail);
  }

  lemma ExtendedBack(flag: byte, extended: seq<byte>, tail: seq<byte>)
    requires |extended| < 256 && (!HasExtended(flag) ==> extended == [])
    ensures ExtendedPart(flag, Counted(HasExtended(flag), |extended|, extended) + tail) == Some(tail)
  {
    var s := Counted(HasExtended(flag), |extended|, extended) + tail;
    if HasExtended(flag) {
      assert s[0] == |extended| && s[1 + |extended|..] == tail;
    } else {
      assert s == tail;
    }
  }

  /** Whatever the flag says is there is read back, whatever padding follows. */
  lemma PacketRoundTrip(flag: byte, w: Contents, extended: seq<byte>, padding: seq<byte>)
    requires Short(w, extended) && Fits(w)
    requires (!HasAcks(flag) ==> w.acks == []) && (!HasBits(flag) ==> w.bits == []) && (!HasExtended(flag) ==> extended == [])
    ensures ReadPacket(WritePacket(flag, w, extended) + padding) == Some(w)
  {
    var last := Counted(true, |w.fragments|, WriteFragments(w.fragments));
    var x := Counted(HasExtended(flag), |extended|, extended);
    var b := Counted(HasBits(flag), |w.bits|, WriteBits(w.bits));
    var a := Counted(HasAcks(flag), |w.acks|, WriteIds(w.acks));
    PaddedParts(flag, a, b, x, last, padding);
    AcksBack(flag, w.acks, b + (x + (last + padding)));
    BitsBack(flag, w.bits, x + (last + padding));
    ExtendedBack(flag, extended, last + padding);
    LastBack(w.fragments, padding);
    PartsRead(flag, a, b, x, last + padding, w);
  }

  lemma LastBack(fs: seq<Fragment>, padding: seq<byte>)
    requires |fs| < 256 && AllFit(fs)
    ensures FragmentsPart(Counted(true, |fs|, WriteFragments(fs)) + padding) == fs
  {
    CountFirst(|fs|, WriteFragments(fs), padding);
    FragmentsRoundTrip(fs, padding);
  }

  lemma PartsRead(flag: byte, a: seq<byte>, b: seq<byte>, x: seq<byte>, last: seq<byte>, w: Contents)
    requires AcksPart(flag, a + (b + (x + last))) == Some(Got(w.acks, b + (x + last)))
    requires BitsPart(flag, b + (x + last)) == Some(Got(w.bits, x + last))
    requires ExtendedPart(flag, x + last) == Some(last) && FragmentsPart(last) == w.fragments
    ensures ReadPacket([flag] + (a + (b + (x + last)))) == Some(w)
  {
    var p := [flag] + (a + (b + (x + last)));
    assert p[0] == flag && p[1..] == a + (b + (x + last));
  }

  lemma PaddedParts(flag: byte, a: seq<byte>, b: seq<byte>, x: seq<byte>, last: seq<byte>, padding: seq<byte>)
    ensures [flag] + (a + (b + (x + last))) + padding == [flag] + (a + (b + (x + (last + padding))))
  {
  }

  // ---------------------------------------------------------------- taking a packet

  /** Both halves of one end of a session. */
  datatype Ends = Ends(snd: Sending.Sender, rcv: Receiver)

  function AckIds(y: Sending.Sender, ids: seq<MsgID>, ts: nat): Sending.Sender
    decreases |ids|
  {
    if ids == [] then y else AckIds(Sending.AckMessage(y, ids[0], ts), ids[1..], ts)
  }

  function AckBits(y: Sending.Sender, bits: seq<Bits>): Sending.Sender
    decreases |bits|
  {
    if bits == [] then y else AckBits(Sending.AckFragments(y, bits[0].id, bits[0].field), bits[1..])
  }

  /** What has been removed is history. */
  lemma {:induction false} IdsOfSent(y: Sending.Sender, ids: seq<MsgID>, ts: nat)
    ensures AckIds(y, ids, ts).sent == AckIds(Sending.Sender(y.sent, []), ids, ts).sent
    decreases |ids|
  {
    if ids != [] {
      IdsOfSent(Sending.AckMessage(y, ids[0], ts), ids[1..], ts);
      IdsOfSent(Sending.AckMessage(Sending.Sender(y.sent, []), ids[0], ts), ids[1..], ts);
    }
  }

  lemma OneAck(y: Sending.Sender, ids: seq<MsgID>, ts: nat)
    requires ids != []
    ensures AckIds(y, ids, ts).sent == AckIds(Sending.Sender(y.sent - {ids[0]}, []), ids[1..], ts).sent
  {
    IdsOfSent(Sending.AckMessage(y, ids[0], ts), ids[1..], ts);
    assert Sending.AckMessage(y, ids[0], ts).sent == y.sent - {ids[0]};
  }

  lemma {:induction false} BitsOfSent(y: Sending.Sender, bits: seq<Bits>)
    ensures AckBits(y, bits).sent == AckBits(Sending.Sender(y.sent, []), bits).sent
    decreases |bits|
  {
    if bits != [] {
      BitsOfSent(Sending.AckFragments(y, bits[0].id, bits[0].field), bits[1..]);
      BitsOfSent(Sending.AckFragments(Sending.Sender(y.sent, []), bits[0].id, bits[0].field), bits[1..]);
    }
  }

  /** One round of each loop. */
  lemma NextId(y: Sending.Sender, s: seq<byte>, n: nat, ts: nat)
    requires n > 0 && ReadIds(s, n).Some?
    ensures |s| >= 4 && ReadIds(s[4..], n - 1).Some? && ReadIds(s[4..], n - 1).value.rest == ReadIds(s, n).value.rest
    ensures AckIds(y, ReadIds(s, n).value.value, ts).sent ==
            AckIds(Sending.Sender(y.sent - {FromBigEndian(s[..4])}, []), ReadIds(s[4..], n - 1).value.value, ts).sent
  {
    var ids := ReadIds(s, n).value.value;
    assert ids[0] == FromBigEndian(s[..4]) && ids[1..] == ReadIds(s[4..], n - 1).value.value;
    OneAck(y, ids, ts);
  }

  lemma NextBits(y: Sending.Sender, s: seq<byte>, n: nat, k: nat)
    requires n > 0 && ReadBits(s, n).Some? && k == FieldSize(s[4..])
    ensures |s| >= 4 + k && ReadBits(s[4 + k..], n - 1).Some? && ReadBits(s[4 + k..], n - 1).value.rest == ReadBits(s, n).value.rest
    ensures var sent := Sending.AckFragments(y, FromBigEndian(s[..4]), s[4..4 + k]).sent;
            AckBits(y, ReadBits(s, n).value.value).sent ==
            AckBits(Sending.Sender(sent, []), ReadBits(s[4 + k..], n - 1).value.value).sent
  {
    var bits := ReadBits(s, n).value.value;
    assert bits[0] == Bits(FromBigEndian(s[..4]), s[4..4 + k]) && bits[1..] == ReadBits(s[4 + k..], n - 1).value.value;
    BitsOfSent(Sending.AckFragments(y, FromBigEndian(s[..4]), s[4..4 + k]), bits[1..]);
  }

  function Take(e: Ends, w: Contents, ts: nat): Ends {
    Ends(AckBits(AckIds(e.snd, w.acks, ts), w.bits), HandleFragments(e.rcv, w.fragments, ts))
  }

  function TakePacket(e: Ends, p: seq<byte>, ts: nat): Ends {
    var w := ReadPacket(p);
    if w.None? then e else Take(e, w.value, ts)
  }

  /** The packet that acknowledges a message. */
  function MessageAck(id: MsgID): seq<byte> {
    [0x80, 1] + BigEndian(id, 4) + [0]
  }

  /** The packet that acknowledges one fragment. */
  function FragmentAck(id: MsgID, n: nat): seq<byte>
    requires n <= 64
  {
    [0x40, 1] + BigEndian(id, 4) + Sending.WriteBitfield(n) + [0]
  }

  lemma {:induction false} SkipsAreMore(k: nat)
    ensures |Sending.Skips(k)| == k && forall i :: 0 <= i < k ==> Sending.Skips(k)[i] == 0x80
  {
    if k > 0 {
      SkipsAreMore(k - 1);
    }
  }

  lemma BitfieldIsField(n: nat)
    requires n <= 64
    ensures IsField(Sending.WriteBitfield(n))
  {
    Sending.BitPower(n % 7);
    SkipsAreMore(n / 7);
  }

  /** A message acknowledgement that arrives as a packet does what it does in a run of both ends. */
  lemma MessageAckIsStep(y: Duplex.System, id: MsgID, ts: nat, padding: seq<byte>)
    requires Duplex.Allowed(y, Duplex.AckArrives(id, ts)) && id < 0x1_0000_0000
    ensures TakePacket(Ends(y.snd, y.rcv), MessageAck(id) + padding, ts) ==
            Ends(Duplex.Step(y, Duplex.AckArrives(id, ts)).snd, y.rcv)
  {
    var w := Contents([id], [], []);
    assert [id][1..] == [] && WriteIds([id]) == BigEndian(id, 4) + [];
    assert MessageAck(id) == WritePacket(0x80, w, []);
    PacketRoundTrip(0x80, w, [], padding);
    assert AckIds(y.snd, [id], ts) == AckIds(Sending.AckMessage(y.snd, id, ts), [], ts);
  }

  /** So does the acknowledgement of a fragment. */
  lemma FragmentAckIsStep(y: Duplex.System, slot: Duplex.Slot, ts: nat, padding: seq<byte>)
    requires Duplex.Allowed(y, Duplex.BitsArrive(slot)) && slot.id < 0x1_0000_0000 && slot.n <= 64
    ensures TakePacket(Ends(y.snd, y.rcv), FragmentAck(slot.id, slot.n) + padding, ts) ==
            Ends(Duplex.Step(y, Duplex.BitsArrive(slot)).snd, y.rcv)
  {
    var b := Bits(slot.id, Sending.WriteBitfield(slot.n));
    var w := Contents([], [b], []);
    BitfieldIsField(slot.n);
    assert [b][1..] == [] && WriteBits([b]) == BigEndian(slot.id, 4) + (b.field + []);
    assert FragmentAck(slot.id, slot.n) == WritePacket(0x40, w, []);
    PacketRoundTrip(0x40, w, [], padding);
    assert AckBits(y.snd, [b]) == AckBits(Sending.AckFragments(y.snd, slot.id, b.field), []);
  }

  lemma FragmentPacket(f: Fragment, padding: seq<byte>)
    requires FragmentFits(f)
    ensures ReadPacket(EncodeFragment(f.id, f.num, f.last, f.bytes) + padding) == Some(Contents([], [], [f]))
  {
    var w := Contents([], [], [f]);
    assert [f][1..] == [] && WriteFragments([f]) == WriteFragment(f) + [];
    assert EncodeFragment(f.id, f.num, f.last, f.bytes) == WritePacket(4, w, []);
    PacketRoundTrip(4, w, [], padding);
  }

  lemma TakeFragment(e: Ends, p: seq<byte>, f: Fragment, ts: nat)
    requires ReadPacket(p) == Some(Contents([], [], [f]))
    ensures TakePacket(e, p, ts) == Ends(e.snd, HandleFragment(e.rcv, f, ts))
  {
    assert [f][1..] == [];
    assert HandleFragments(e.rcv, [f], ts) == HandleFragments(HandleFragment(e.rcv, f, ts), [], ts);
  }

  lemma PostedFits(y: Duplex.System, id: MsgID, n: nat)
    requires Duplex.Inv(y) && id in y.posted && n < |y.posted[id].frags|
    ensures FragmentFits(Receiving.Piece(id, y.posted[id].frags, n))
  {
    assert Receiving.OutgoingOk(id, y.posted[id]);
    assert Pow(256, 4) == 0x1_0000_0000;
  }

  /** And a fragment. */
  lemma FragmentIsStep(y: Duplex.System, id: MsgID, n: nat, ts: nat, padding: seq<byte>)
    requires Duplex.Inv(y) && Duplex.Allowed(y, Duplex.Arrive(id, n, ts))
    ensures var frags := y.posted[id].frags;
            var p := EncodeFragment(id, n, n == |frags| - 1, frags[n]) + padding;
            TakePacket(Ends(y.snd, y.rcv), p, ts) == Ends(y.snd, Duplex.Step(y, Duplex.Arrive(id, n, ts)).rcv)
  {
    var f := Receiving.Piece(id, y.posted[id].frags, n);
    PostedFits(y, id, n);
    FragmentPacket(f, padding);
    TakeFragment(Ends(y.snd, y.rcv), EncodeFragment(f.id, f.num, f.last, f.bytes) + padding, f, ts);
  }
}
