/**
 The data part of an SSU session: the tables of incomplete, received and sent messages, and the loops over them.
 */
module Ssu {
  import opened Wrappers
  import opened Bytes
  import opened SsuSpec
  import opened Resend = SsuResend
  import Packet = SsuPacket

  const SSU_HEADER_SIZE: nat := 37
  /** In front of a fragment: the header, a flag, the number of fragments, the message number and the fragment info. */
  const FRAGMENT_OVERHEAD: nat := SSU_HEADER_SIZE + 9
  /** A fragment's buffer. */
  const FRAGMENT_BUFFER: nat := 1456 + 18

  function HeadersSize(v6: bool): nat {
    if v6 then 40 + 8 else 20 + 8
  }

  function MaxPacketSize(v6: bool): nat {
    if v6 then 1472 - HeadersSize(true) else 1484 - HeadersSize(false)
  }

  /** How many bytes of a message go into one packet; the difference is computed without a sign. */
  function PayloadSize(packetSize: nat): (r: nat)
    ensures packetSize < FRAGMENT_OVERHEAD ==> r > 0xFFFF_FFFF_FFFF_0000
    ensures FRAGMENT_OVERHEAD <= packetSize < 65536 ==> r == packetSize - FRAGMENT_OVERHEAD
  {
    (packetSize - FRAGMENT_OVERHEAD) % 0x1_0000_0000_0000_0000
  }

  class SSUData {
    const v6: bool
    var isEstablished: bool
    var incompleteMessages: map<MsgID, Incomplete>
    var receivedMessages: set<MsgID>
    var sentMessages: map<MsgID, SentMessage>
    var packetSize: nat
    /** Messages handed on, acknowledgements sent, and how often the received messages were forgotten. */
    ghost var delivered: seq<Delivery>
    ghost var acked: seq<MsgID>
    ghost var epoch: nat

    ghost function Receiving(): Receiver
      reads this
    {
      Receiver(isEstablished, incompleteMessages, receivedMessages, epoch, delivered, acked)
    }

    /** Packets are whole cipher blocks, and saved fragments are further on than the next one. */
    ghost predicate Valid()
      reads this
    {
      packetSize % 16 == 0 && packetSize <= MaxPacketSize(v6) &&
      forall id :: id in incompleteMessages ==>
        forall n :: n in incompleteMessages[id].saved ==> n > incompleteMessages[id].next
    }

    constructor (v6: bool)
      ensures Valid() && Receiving() == Receiver(false, map[], {}, 0, [], []) && sentMessages == map[]
      ensures this.v6 == v6 && packetSize == MaxPacketSize(v6)
    {
      this.v6, isEstablished, incompleteMessages, receivedMessages, sentMessages := v6, false, map[], {}, map[];
      packetSize, delivered, acked, epoch := MaxPacketSize(v6), [], [], 0;
    }

    /** The biggest whole number of cipher blocks that the router's MTU leaves, up to the maximum. */
    method AdjustPacketSize(mtu: nat)
      requires Valid()
      modifies this`packetSize
      ensures Valid() && Receiving() == old(Receiving())
      ensures mtu == 0 ==> packetSize == old(packetSize)
      ensures 0 < mtu <= HeadersSize(v6) ==> packetSize == MaxPacketSize(v6)
      ensures mtu > HeadersSize(v6) ==>
                && packetSize <= mtu - HeadersSize(v6)
                && (packetSize == MaxPacketSize(v6) || mtu - HeadersSize(v6) < packetSize + 16)
    {
      if mtu > 0 {
        var size: int := mtu - HeadersSize(v6);
        if size > 0 {
          size := size / 16 * 16;
          packetSize := if size > MaxPacketSize(v6) then MaxPacketSize(v6) else size;
        } else {
          packetSize := MaxPacketSize(v6);
        }
      }
    }

    /** The loop over the saved fragments, smallest number first. */
    static method TrySaved(inc: Incomplete) returns (r: Incomplete, last: bool)
      requires forall n :: n in inc.saved ==> n >= inc.next
      ensures Attached(r, last) == AttachSaved(inc, false)
      ensures forall n :: n in r.saved ==> n > r.next
    {
      r, last := inc, false;
      while r.saved != map[]
        invariant AttachSaved(r, last) == AttachSaved(inc, false)
        invariant forall n :: n in r.saved ==> n >= r.next
        decreases |r.saved.Keys|
      {
        var n := Smallest(r.saved);
        if n != r.next {
          break;
        }
        var f := r.saved[n];
        SmallerMap(r.saved, n);
        last := f.last;
        r := Attach(r.(saved := r.saved - {n}), f.bytes);
      }
    }

    static method Smallest(m: map<nat, Saved>) returns (k: nat)
      requires m != map[]
      ensures k in m && forall n :: n in m ==> k <= n
    {
      k :| k in m;
      var left := m.Keys - {k};
      while left != {}
        invariant k in m && left <= m.Keys && forall n :: n in m && n !in left ==> k <= n
        decreases |left|
      {
        var n :| n in left;
        left := left - {n};
        k := if n < k then n else k;
      }
    }

    method ProcessFragment(f: Fragment, ts: nat)
      requires Valid()
      modifies this`incompleteMessages, this`isEstablished, this`receivedMessages, this`delivered, this`acked, this`epoch
      ensures Valid() && Receiving() == HandleFragment(old(Receiving()), f, ts)
    {
      var inc := if f.id in incompleteMessages then incompleteMessages[f.id] else Incomplete([], 0, map[], 0);
      if f.num == inc.next {
        var r, last := Attach(inc, f.bytes), f.last;
        if !last {
          r, last := TrySaved(r);
        }
        if last {
          MessageComplete(f.id, r.data);
        } else {
          incompleteMessages := incompleteMessages[f.id := r];
        }
      } else if f.num < inc.next {
        incompleteMessages := incompleteMessages[f.id := inc];
      } else {
        if f.num !in inc.saved {
          inc := inc.(saved := inc.saved[f.num := Saved(f.bytes, f.last)], lastInsert := ts);
        }
        incompleteMessages := incompleteMessages[f.id := inc];
      }
    }

    /** The loop over the fragments of a packet; `buf` starts with their number. */
    method ProcessFragments(buf: seq<byte>, ts: nat)
      requires Valid() && buf != []
      modifies this`incompleteMessages, this`isEstablished, this`receivedMessages, this`delivered, this`acked, this`epoch
      ensures Valid() && Receiving() == HandleFragments(old(Receiving()), Fragments(buf[1..], buf[0]), ts)
    {
      var rest, left := buf[1..], buf[0] as nat;
      ghost var goal := HandleFragments(Receiving(), Fragments(rest, left), ts);
      while left > 0
        invariant Valid() && HandleFragments(Receiving(), Fragments(rest, left), ts) == goal
      {
        var f := ReadFragment(rest);
        if f.None? || |rest| < 7 + |f.value.bytes| {
          return;
        }
        ghost var later := Fragments(rest[7 + |f.value.bytes|..], left - 1);
        assert ([f.value] + later)[1..] == later;
        ProcessFragment(f.value, ts);
        rest, left := rest[7 + |f.value.bytes|..], left - 1;
      }
    }

    method MessageComplete(id: MsgID, data: seq<byte>)
      requires Valid()
      modifies this`incompleteMessages, this`isEstablished, this`receivedMessages, this`delivered, this`acked, this`epoch
      ensures Valid() && Receiving() == Complete(old(Receiving()), id, data)
    {
      incompleteMessages, acked := incompleteMessages - {id}, acked + [id];
      var msg := FromShortForm(id, data);
      if isEstablished {
        if id !in receivedMessages {
          if |receivedMessages| > MAX_NUM_RECEIVED_MESSAGES {
            receivedMessages, epoch := {}, epoch + 1;
          }
          receivedMessages, delivered := receivedMessages + {id}, delivered + [Delivery(msg, epoch)];
        }
      } else if msg.typeID == DELIVERY_STATUS {
        isEstablished := true;
      }
    }

    /** The sweep over incomplete messages. */
    method HandleIncompleteMessagesCleanupTimer(ts: nat)
      requires Valid()
      modifies this`incompleteMessages
      ensures Valid() && Receiving() == Cleanup(old(Receiving()), ts)
    {
      var left, kept := incompleteMessages.Keys, incompleteMessages;
      while left != {}
        invariant left <= incompleteMessages.Keys
        invariant forall id :: id in kept <==>
                    id in incompleteMessages &&
                    (id in left || ts <= incompleteMessages[id].lastInsert + INCOMPLETE_MESSAGES_CLEANUP_TIMEOUT)
        invariant forall id :: id in kept ==> kept[id] == incompleteMessages[id]
        decreases |left|
      {
        var id :| id in left;
        if ts > incompleteMessages[id].lastInsert + INCOMPLETE_MESSAGES_CLEANUP_TIMEOUT {
          kept := kept - {id};
        }
        left := left - {id};
      }
      incompleteMessages := kept;
    }

    method HandleDecayTimer()
      requires Valid()
      modifies this`receivedMessages, this`epoch
      ensures Valid() && Receiving() == Decay(old(Receiving()))
    {
      receivedMessages, epoch := {}, epoch + 1;
    }

    // ---------------------------------------------------------------- sending

    /**
     Cuts a message into packets; nothing is sent while the same number is still unacknowledged. With a packet size of
     32 or less, which a small MTU gives, the payload size wraps and the whole message goes into one fragment.
     */
    method Send(id: MsgID, data: seq<byte>, ts: nat) returns (packets: seq<seq<byte>>)
      requires Valid() && data != [] && (packetSize < FRAGMENT_OVERHEAD ==> FRAGMENT_OVERHEAD + |data| <= FRAGMENT_BUFFER)
      modifies this`sentMessages
      ensures PayloadSize(packetSize) > 0
      ensures sentMessages == Resend.Send(Sender(old(sentMessages), []), id, Chop(data, PayloadSize(packetSize)), ts).sent
      ensures id in old(sentMessages) ==> packets == []
      ensures id !in old(sentMessages) && packetSize < FRAGMENT_OVERHEAD ==> packets == [EncodeFragment(id, 0, true, data)]
      ensures id !in old(sentMessages) ==>
                var pieces := Chop(data, PayloadSize(packetSize));
                && |packets| == |pieces|
                && forall i :: 0 <= i < |pieces| ==> packets[i] == EncodeFragment(id, i, i == |pieces| - 1, pieces[i])
    {
      packets := [];
      if id !in sentMessages {
        var pieces;
        pieces, packets := Cut(id, data, PayloadSize(packetSize));
        sentMessages := sentMessages[id := NewMessage(pieces, ts)];
      }
    }

    /** The loop that cuts a message into numbered packets. */
    static method Cut(id: MsgID, data: seq<byte>, payloadSize: nat) returns (pieces: seq<seq<byte>>, packets: seq<seq<byte>>)
      requires payloadSize > 0 && data != []
      ensures pieces == Chop(data, payloadSize) && |packets| == |pieces|
      ensures forall i :: 0 <= i < |pieces| ==> packets[i] == EncodeFragment(id, i, i == |pieces| - 1, pieces[i])
    {
      ghost var all := Chop(data, payloadSize);
      pieces, packets := [], [];
      var len, msgBuf := |data|, 0;
      while len > 0
        invariant msgBuf <= |data| && (len == 0 || len == |data| - msgBuf)
        invariant if len == 0 then pieces == all else pieces + Chop(data[msgBuf..], payloadSize) == all
        invariant |packets| == |pieces|
        invariant forall i :: 0 <= i < |pieces| ==> packets[i] == EncodeFragment(id, i, i == |all| - 1, pieces[i])
        decreases len
      {
        ghost var rest := data[msgBuf..];
        var isLast := len <= payloadSize;
        var size := if isLast then len else payloadSize;
        var piece := data[msgBuf..msgBuf + size];
        assert piece == rest[..size];
        packets := packets + [EncodeFragment(id, |pieces|, isLast, piece)];
        if isLast {
          assert piece == rest;
          len := 0;
        } else {
          ConcatAssociates(pieces, [piece], Chop(rest[payloadSize..], payloadSize));
          assert rest[payloadSize..] == data[msgBuf + payloadSize..];
          len, msgBuf := len - payloadSize, msgBuf + payloadSize;
        }
        pieces := pieces + [piece];
      }
    }

    method ProcessSentMessageAck(id: MsgID)
      modifies this`sentMessages
      ensures sentMessages == old(sentMessages) - {id}
    {
      sentMessages := sentMessages - {id};
    }

    /** The nested loops over the bytes of one ack bitfield and the seven bits of each. */
    static method ReadAckBitfield(bytes: seq<byte>, fragments: seq<Option<seq<byte>>>) returns (r: seq<Option<seq<byte>>>)
      ensures r == ReadBitfield(bytes, fragments, 0)
    {
      r := fragments;
      var fragment, i, isNonLast := 0, 0, true;
      while isNonLast && i < |bytes|
        invariant 0 <= i <= |bytes|
        invariant ReadBitfield(fragments := fragments, from := 0, bytes := bytes) ==
                  if isNonLast then ReadBitfield(bytes[i..], r, fragment) else r
      {
        assert bytes[i..][0] == bytes[i] && bytes[i..][1..] == bytes[i + 1..];
        isNonLast := bytes[i] >= 128;
        var bitfield := bytes[i] % 128;
        if bitfield != 0 {
          var j := 0;
          ghost var before := r;
          while j < 7
            invariant 0 <= j <= 7 && ClearBits(r, fragment, bitfield, j) == ClearBits(before, fragment, bitfield, 0)
          {
            if Bit(bitfield, j) && fragment + j < |r| {
              r := r[fragment + j := None];
            }
            j := j + 1;
          }
          fragment := fragment + 7;
        }
        i := i + 1;
      }
    }

    method ProcessAckBitfield(id: MsgID, bytes: seq<byte>)
      modifies this`sentMessages
      ensures sentMessages == AckFragments(Sender(old(sentMessages), []), id, bytes).sent
    {
      if id in sentMessages {
        var fragments := ReadAckBitfield(bytes, sentMessages[id].fragments);
        sentMessages := sentMessages[id := sentMessages[id].(fragments := fragments)];
      }
    }

    /** The loop over the messages acknowledged; what follows them is left. */
    method ProcessExplicitAcks(s: seq<byte>, ts: nat) returns (rest: seq<byte>)
      requires s != [] && Packet.ReadIds(s[1..], s[0]).Some?
      modifies this`sentMessages
      ensures var ids := Packet.ReadIds(s[1..], s[0]).value;
              rest == ids.rest && sentMessages == Packet.AckIds(Sender(old(sentMessages), []), ids.value, ts).sent
    {
      var left: nat := s[0];
      rest := s[1..];
      ghost var all := Packet.ReadIds(rest, left).value;
      ghost var goal := Packet.AckIds(Sender(sentMessages, []), all.value, ts).sent;
      while left > 0
        invariant Packet.ReadIds(rest, left).Some? && Packet.ReadIds(rest, left).value.rest == all.rest
        invariant Packet.AckIds(Sender(sentMessages, []), Packet.ReadIds(rest, left).value.value, ts).sent == goal
      {
        Packet.NextId(Sender(sentMessages, []), rest, left, ts);
        ProcessSentMessageAck(FromBigEndian(rest[..4]));
        rest, left := rest[4..], left - 1;
      }
    }

    /** The loop that looks for the end of a bitfield. */
    static method FieldLength(s: seq<byte>) returns (size: nat)
      ensures size == Packet.FieldSize(s)
    {
      size := 0;
      while size < |s| && s[size] >= 128
        invariant size <= |s| && size + Packet.FieldSize(s[size..]) == Packet.FieldSize(s)
      {
        assert s[size..][1..] == s[size + 1..];
        size := size + 1;
      }
      size := if size < |s| then size + 1 else size;
    }

    /** The loop over the bitfields; what follows them is left. */
    method ProcessAckBitfields(s: seq<byte>) returns (rest: seq<byte>)
      requires s != [] && Packet.ReadBits(s[1..], s[0]).Some?
      modifies this`sentMessages
      ensures var bits := Packet.ReadBits(s[1..], s[0]).value;
              rest == bits.rest && sentMessages == Packet.AckBits(Sender(old(sentMessages), []), bits.value).sent
    {
      var left: nat := s[0];
      rest := s[1..];
      ghost var all := Packet.ReadBits(rest, left).value;
      ghost var goal := Packet.AckBits(Sender(sentMessages, []), all.value).sent;
      while left > 0
        invariant Packet.ReadBits(rest, left).Some? && Packet.ReadBits(rest, left).value.rest == all.rest
        invariant Packet.AckBits(Sender(sentMessages, []), Packet.ReadBits(rest, left).value.value).sent == goal
      {
        var size := FieldLength(rest[4..]);
        Packet.NextBits(Sender(sentMessages, []), rest, left, size);
        ProcessAckBitfield(FromBigEndian(rest[..4]), rest[4..4 + size]);
        rest, left := rest[4 + size..], left - 1;
      }
    }

    /** The acknowledgements of a packet, as its flag says; what follows them is left. */
    method ProcessAcks(flag: byte, s: seq<byte>, ts: nat) returns (rest: seq<byte>)
      requires Packet.AcksPart(flag, s).Some? && Packet.BitsPart(flag, Packet.AcksPart(flag, s).value.rest).Some?
      modifies this`sentMessages
      ensures var acks := Packet.AcksPart(flag, s).value;
              var bits := Packet.BitsPart(flag, acks.rest).value;
              && rest == bits.rest
              && sentMessages == Packet.AckBits(Packet.AckIds(Sender(old(sentMessages), []), acks.value, ts), bits.value).sent
    {
      rest := s;
      if flag >= 128 {
        rest := ProcessExplicitAcks(rest, ts);
      }
      ghost var snd := Packet.AckIds(Sender(old(sentMessages), []), Packet.AcksPart(flag, s).value.value, ts);
      Packet.BitsOfSent(snd, Packet.BitsPart(flag, rest).value.value);
      if flag / 64 % 2 == 1 {
        rest := ProcessAckBitfields(rest);
      }
    }

    /** A data packet: acknowledgements, extended data, fragments, as its flag says. */
    method ProcessMessage(buf: seq<byte>, ts: nat)
      requires Valid() && Packet.ReadPacket(buf).Some?
      modifies this
      ensures Valid()
      ensures var e := Packet.TakePacket(Packet.Ends(Sender(old(sentMessages), []), old(Receiving())), buf, ts);
              sentMessages == e.snd.sent && Receiving() == e.rcv
    {
      var rest := ProcessAcks(buf[0], buf[1..], ts);
      ProcessData(buf[0], rest, ts);
    }

    /** Extended data is passed over. */
    method ProcessData(flag: byte, s: seq<byte>, ts: nat)
      requires Valid() && Packet.ExtendedPart(flag, s).Some?
      modifies this`incompleteMessages, this`isEstablished, this`receivedMessages, this`delivered, this`acked, this`epoch
      ensures Valid()
      ensures Receiving() == HandleFragments(old(Receiving()), Packet.FragmentsPart(Packet.ExtendedPart(flag, s).value), ts)
    {
      var rest := s;
      if flag / 2 % 2 == 1 {
        var size: nat := rest[0];
        rest := rest[size + 1..];
      }
      if rest != [] {
        ProcessFragments(rest, ts);
      }
    }

    /** The sweep over sent messages: what is due is sent again or given up. */
    method HandleResendTimer(ts: nat)
      modifies this`sentMessages
      ensures sentMessages == TickAll(old(sentMessages), ts)
    {
      var left, now := sentMessages.Keys, sentMessages;
      while left != {}
        invariant left <= sentMessages.Keys
        invariant forall id :: id in now <==> id in sentMessages && (id in left || TickMessage(sentMessages[id], ts).Some?)
        invariant forall id :: id in now ==>
                    now[id] == if id in left then sentMessages[id] else TickMessage(sentMessages[id], ts).value
        decreases |left|
      {
        var id :| id in left;
        if ts >= now[id].nextResendTime {
          if now[id].numResends < MAX_NUM_RESENDS {
            now := now[id := Resent(now[id])];
          } else {
            now := now - {id};
          }
        }
        left := left - {id};
      }
      sentMessages := now;
    }
  }

  /** Every sent message ticked once. */
  function TickAll(sent: map<MsgID, SentMessage>, ts: nat): map<MsgID, SentMessage> {
    map id | id in sent && TickMessage(sent[id], ts).Some? :: TickMessage(sent[id], ts).value
  }

  function Ticks(ids: seq<MsgID>, ts: nat): seq<Action> {
    if ids == [] then [] else [Tick(ids[0], ts)] + Ticks(ids[1..], ts)
  }

  /** A sweep is a run of single ticks, in whatever order. */
  lemma {:induction false} SweepIsTicks(y: Sender, ids: seq<MsgID>, ts: nat)
    requires forall i, j :: 0 <= i < j < |ids| ==> ids[i] != ids[j]
    ensures forall id :: id in Run(y, Ticks(ids, ts)).sent <==>
              id in y.sent && (id in ids ==> TickMessage(y.sent[id], ts).Some?)
    ensures forall id :: id in Run(y, Ticks(ids, ts)).sent ==>
              Run(y, Ticks(ids, ts)).sent[id] == if id in ids then TickMessage(y.sent[id], ts).value else y.sent[id]
    decreases |ids|
  {
    if ids != [] {
      var y1 := Step(y, Tick(ids[0], ts));
      assert Ticks(ids, ts)[1..] == Ticks(ids[1..], ts);
      SweepIsTicks(y1, ids[1..], ts);
      assert ids[0] !in ids[1..];
      assert forall id :: id in ids <==> id == ids[0] || id in ids[1..];
    }
  }
}
