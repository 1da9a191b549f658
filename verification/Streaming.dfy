/**
 The `Stream` object: its fields are updated in place by loops over sorted packet sets and a byte
 buffer. Every method is proved against the value-level specification.
 */
module Streaming {
  import opened Bytes
  import Spec = StreamingSpec
  import opened Types = StreamingSpec
  import opened StreamingInvariants

  ghost predicate Sorted(es: seq<SentPacket>) {
    forall i, j :: 0 <= i < j < |es| ==> es[i].packet.seqn < es[j].packet.seqn
  }

  lemma {:induction false} InsertSentIn(es: seq<SentPacket>, e: SentPacket)
    ensures forall x :: x in InsertSent(es, e) ==> x in es || x == e
  {
    if es != [] {
      InsertSentIn(es[1..], e);
    }
  }

  lemma {:induction false} InsertSentSorted(es: seq<SentPacket>, e: SentPacket)
    requires Sorted(es)
    ensures Sorted(InsertSent(es, e))
  {
    if es != [] && e.packet.seqn > es[0].packet.seqn {
      InsertSentSorted(es[1..], e);
      InsertSentIn(es[1..], e);
      var r := InsertSent(es[1..], e);
      forall j | 0 <= j < |r| ensures es[0].packet.seqn < r[j].packet.seqn {
        assert r[j] in r;
      }
    }
  }

  lemma {:induction false} UnackedSorted(es: seq<SentPacket>, p: Packet)
    requires Sorted(es)
    ensures Sorted(Unacked(es, p))
  {
    if es != [] {
      UnackedSorted(es[1..], p);
      UnackedIn(es[1..], p);
      var u := Unacked(es[1..], p);
      forall i | 0 <= i < |u| ensures es[0].packet.seqn < u[i].packet.seqn {
        assert u[i] in es[1..];
      }
    }
  }

  /** Beyond ackThrough nothing is acknowledged, so the scan may stop there. */
  lemma {:induction false} NothingAcked(es: seq<SentPacket>, p: Packet)
    requires forall j :: 0 <= j < |es| ==> es[j].packet.seqn > p.ackThrough
    ensures Unacked(es, p) == es && Acked(es, p) == []
  {
    if es != [] {
      NothingAcked(es[1..], p);
      assert es == [es[0]] + es[1..];
    }
  }

  /** Part of the way through filling the window of `s`: `packets` have been built, and `x` may build `left` more. */
  ghost predicate Filling(s: State, numMsgs: int, isNoAck: bool, x: State, left: int, packets: seq<Packet>) {
    Fill(x, left, isNoAck) == Fill(s, numMsgs, isNoAck) && x.log == s.log + packets
  }

  lemma FillOne(s: State, numMsgs: int, isNoAck: bool, x: State, left: int, packets: seq<Packet>)
    requires Filling(s, numMsgs, isNoAck, x, left, packets) && CanSend(x, left)
    ensures var p := NextPacket(x, isNoAck); Filling(s, numMsgs, isNoAck, AfterPacket(x, p), left - 1, packets + [p])
  {
    ConcatAssociates(s.log, packets, [NextPacket(x, isNoAck)]);
  }

  lemma FillDone(s: State, numMsgs: int, isNoAck: bool, x: State, left: int, packets: seq<Packet>)
    requires Filling(s, numMsgs, isNoAck, x, left, packets) && !CanSend(x, left)
    ensures x == Fill(s, numMsgs, isNoAck) && packets == Built(s, x)
  {
    assert (s.log + packets)[|s.log|..] == packets;
  }

  /** Part of the way through a read of `len` bytes from `q`: `r` has been taken and `rest` remains. */
  ghost predicate Taking(q: seq<seq<byte>>, len: nat, r: seq<byte>, rest: seq<seq<byte>>) {
    && (forall i :: 0 <= i < |rest| ==> rest[i] != [])
    && r + Flatten(rest) == Flatten(q) && |r| <= Min(len, |Flatten(q)|)
    && DropBytes(rest, Min(len, |Flatten(q)|) - |r|) == DropBytes(q, Min(len, |Flatten(q)|))
  }

  lemma TakingStep(q: seq<seq<byte>>, len: nat, r: seq<byte>, rest: seq<seq<byte>>)
    requires Taking(q, len, r, rest) && |r| < len && rest != []
    ensures var l := Min(|rest[0]|, len - |r|);
            var rest' := if l == |rest[0]| then rest[1..] else [rest[0][l..]] + rest[1..];
            Taking(q, len, r + rest[0][..l], rest') && |Flatten(rest')| < |Flatten(rest)|
  {
    var packet, others := rest[0], rest[1..];
    var l := Min(|packet|, len - |r|);
    var n := Min(len, |Flatten(q)|) - |r|;
    assert |Flatten(rest)| == |packet| + |Flatten(others)|;
    SplitPacket(r, packet, l, others);
    assert rest == [packet] + others;
    if l == |packet| {
      assert DropBytes(rest, n) == DropBytes(others, n - l);
    } else {
      var rest' := [packet[l..]] + others;
      assert n == l && DropBytes(rest, n) == rest' == DropBytes(rest', 0);
      assert rest'[1..] == others;
    }
  }

  /** Moving the first `l` bytes of a packet to the reader's buffer moves nothing else. */
  lemma SplitPacket(r: seq<byte>, packet: seq<byte>, l: nat, others: seq<seq<byte>>)
    requires l <= |packet|
    ensures var rest := if l == |packet| then others else [packet[l..]] + others;
            r + packet[..l] + Flatten(rest) == r + Flatten([packet] + others)
  {
    assert ([packet] + others)[1..] == others;
    if l == |packet| {
      assert packet[..l] == packet;
      ConcatAssociates(r, packet, Flatten(others));
    } else {
      assert packet == packet[..l] + packet[l..];
      assert ([packet[l..]] + others)[1..] == others;
      ConcatAssociates(packet[..l], packet[l..], Flatten(others));
      ConcatAssociates(r, packet[..l], packet[l..] + Flatten(others));
    }
  }

  class Stream {
    const recvID: nat
    const synRoom: nat
    var sendID: nat
    var seqNum: nat
    var last: int
    var status: Status
    var ackScheduled: bool
    var saved: seq<Packet>
    var sent: seq<SentPacket>
    var queue: seq<seq<byte>>
    var buffer: seq<byte>
    var eof: bool
    var rate: Rate
    var numResends: nat
    var posted: seq<Packet>
    var outbox: seq<Packet>
    var deleted: bool
    ghost var log: seq<Packet>
    ghost var written: seq<byte>
    ghost var readOut: seq<byte>

    /** The stream as a value. */
    ghost function View(): State
      reads this
    {
      State(recvID, synRoom, sendID, seqNum, last, status, ackScheduled, saved, sent, queue, buffer, eof,
            rate, numResends, posted, outbox, deleted, log, written, readOut)
    }

    ghost predicate Valid()
      reads this
    {
      Sorted(sent) && forall i :: 0 <= i < |queue| ==> queue[i] != []
    }

    constructor (recvID: nat, synRoom: nat)
      ensures Valid() && View() == Spec.Fresh(recvID, synRoom)
    {
      this.recvID, this.synRoom := recvID, synRoom;
      sendID, seqNum, last, status, ackScheduled := 0, 0, -1, New, false;
      saved, sent, queue, buffer, eof := [], [], [], [], false;
      rate, numResends := Rate(MIN_WINDOW_SIZE, INITIAL_RTT, INITIAL_RTO, 0), 0;
      posted, outbox, deleted := [], [], false;
      log, written, readOut := [], [], [];
    }

    method Send(data: seq<byte>)
      requires Valid()
      modifies this
      ensures Valid() && View() == Spec.Write(old(View()), data)
    {
      if |data| > 0 {
        eof := false;
        buffer := buffer + data;
        written := written + data;
      }
    }

    /** Reads up to `len` bytes, crossing packet boundaries and leaving partly read packets in place. */
    method ConcatenatePackets(len: nat) returns (r: seq<byte>)
      requires Valid()
      modifies this
      ensures Valid() && View() == Spec.ReadSome(old(View()), len)
      ensures r == Flatten(old(queue))[..Min(len, |Flatten(old(queue))|)]
    {
      r, queue := TakeBytes(queue, len);
      readOut := readOut + r;
    }

    static method TakeBytes(q: seq<seq<byte>>, len: nat) returns (r: seq<byte>, rest: seq<seq<byte>>)
      requires forall i :: 0 <= i < |q| ==> q[i] != []
      ensures var k := Min(len, |Flatten(q)|); r == Flatten(q)[..k] && rest == DropBytes(q, k)
      ensures forall i :: 0 <= i < |rest| ==> rest[i] != []
    {
      r, rest := [], q;
      while |r| < len && rest != []
        invariant Taking(q, len, r, rest)
        decreases |Flatten(rest)|
      {
        TakingStep(q, len, r, rest);
        var l := Min(|rest[0]|, len - |r|);
        r := r + rest[0][..l];
        rest := if l == |rest[0]| then rest[1..] else [rest[0][l..]] + rest[1..];
      }
    }

    method SendClose()
      requires Valid()
      modifies this
      ensures Valid() && View() == Spec.SendClose(old(View()))
    {
      var p := Packet(sendID, recvID, seqNum, AsUint32(last), [], false, true, false, false, []);
      seqNum := AsUint32(seqNum + 1);
      posted := posted + [p];
      log := log + [p];
    }

    method Close()
      requires Valid()
      modifies this
      ensures Valid() && View() == Spec.Close(old(View()))
      decreases status == Open
    {
      match status
      case Open =>
        status := Closing;
        Close();
      case Reset =>
        SendClose();
        deleted := true;
      case Closing =>
        if sent == [] && eof {
          status := Closed;
          SendClose();
          deleted := true;
        }
      case Closed =>
        deleted := true;
      case New =>
    }

    /** The service queue sends the first posted packet. */
    method SendPosted()
      requires Valid() && posted != []
      modifies this
      ensures Valid() && View() == Spec.RunPosted(old(View()))
    {
      var packet := posted[0];
      posted, ackScheduled, outbox := posted[1..], false, outbox + [packet];
      if status == Open {
        InsertSentSorted(sent, SentPacket(packet, 0));
        sent := InsertSent(sent, SentPacket(packet, 0));
      }
    }

    /** Builds the next packet from the send buffer; a short read leaves the buffer at its end. */
    method BuildPacket(isNoAck: bool) returns (p: Packet)
      requires Valid()
      modifies this
      ensures Valid() && p == NextPacket(old(View()), isNoAck) && View() == AfterPacket(old(View()), p)
    {
      var isSyn := status == New;
      var room := if isSyn then synRoom else FOLLOW_ON_ROOM;
      var chunk := ReadBuffer(room);
      p := Packet(sendID, recvID, seqNum, if isNoAck then AsUint32(last) else 0, [],
                  isSyn, false, isSyn && isNoAck, false, chunk);
      seqNum, status, log := AsUint32(seqNum + 1), if isSyn then Open else status, log + [p];
    }

    method ReadBuffer(room: nat) returns (chunk: seq<byte>)
      requires Valid()
      modifies this
      ensures Valid() && chunk == if old(eof) then [] else old(buffer)[..Min(room, |old(buffer)|)]
      ensures var n := if old(eof) then 0 else Min(room, |old(buffer)|);
              View() == old(View()).(buffer := old(buffer)[n..], eof := old(eof) || |old(buffer)| < room)
    {
      chunk := [];
      if !eof {
        var n := Min(room, |buffer|);
        chunk := buffer[..n];
        eof, buffer := |buffer| < room, buffer[n..];
      }
    }

    /** Cuts the send buffer into packets while the window allows and makes them outstanding. */
    method SendBuffer(ts: int)
      requires Valid()
      modifies this
      ensures Valid() && View() == Spec.SendBuffer(old(View()), ts)
    {
      var numMsgs := rate.window - |sent|;
      if numMsgs <= 0 {
        return;
      }
      ghost var s := View();
      var packets := FillWindow(numMsgs, last < 0);
      ghost var s1 := View();
      if packets != [] {
        SendNew(packets, ts);
      }
      assert View() == Dispatch(s, s1, ts);
    }

    method FillWindow(numMsgs: int, isNoAck: bool) returns (packets: seq<Packet>)
      requires Valid()
      modifies this
      ensures Valid() && View() == Fill(old(View()), numMsgs, isNoAck) && packets == Built(old(View()), View())
    {
      packets := [];
      var left := numMsgs;
      ghost var s := View();
      while status == New || (sendID != 0 && !eof && left > 0)
        invariant Valid() && Filling(s, numMsgs, isNoAck, View(), left, packets)
        decreases if status == New then 1 else 0, left
      {
        FillOne(s, numMsgs, isNoAck, View(), left, packets);
        var p := BuildPacket(isNoAck);
        packets := packets + [p];
        left := left - 1;
      }
      FillDone(s, numMsgs, isNoAck, View(), left, packets);
    }

    method SendNew(packets: seq<Packet>, ts: int)
      requires Valid()
      modifies this
      ensures Valid()
      ensures var r := Launch(old(View()), packets, ts);
              View() == if r.status.Closing? && r.eof then Spec.SendClose(r) else r
    {
      var all := Insert(sent, packets, ts);
      ackScheduled, sent, outbox := false, all, outbox + packets;
      if status == Closing && eof {
        SendClose();
      }
    }

    static method Insert(es: seq<SentPacket>, packets: seq<Packet>, ts: int) returns (r: seq<SentPacket>)
      requires Sorted(es)
      ensures r == InsertAll(es, packets, ts) && Sorted(r)
    {
      r := es;
      var i := 0;
      while i < |packets|
        invariant 0 <= i <= |packets| && r == InsertAll(es, packets[..i], ts) && Sorted(r)
      {
        assert packets[..i + 1][..i] == packets[..i];
        InsertSentSorted(r, SentPacket(packets[i], ts));
        r := InsertSent(r, SentPacket(packets[i], ts));
        i := i + 1;
      }
      assert packets[..i] == packets;
    }

    method ProcessAck(p: Packet, ts: int)
      requires Valid()
      modifies this
      ensures Valid() && View() == Spec.ProcessAck(old(View()), p, ts)
    {
      var acknowledged := DropAcknowledged(p, ts);
      Resume(acknowledged, ts);
    }

    method DropAcknowledged(p: Packet, ts: int) returns (acknowledged: bool)
      requires Valid()
      modifies this
      ensures Valid() && View() == DropAcked(old(View()), p, ts) && acknowledged == (Acked(old(View()).sent, p) != [])
    {
      UnackedSorted(sent, p);
      sent, rate, acknowledged := RemoveAcknowledged(sent, rate, p, ts);
    }

    method Resume(acknowledged: bool, ts: int)
      requires Valid()
      modifies this
      ensures Valid() && View() == Spec.Resume(old(View()), acknowledged, ts)
    {
      if acknowledged {
        numResends := 0;
        SendBuffer(ts);
      }
      if status == Closing {
        Close();
      }
    }

    /** Erases, while iterating, what `p` acknowledges; the scan stops at the first number beyond ackThrough. */
    static method RemoveAcknowledged(es: seq<SentPacket>, rate0: Rate, p: Packet, ts: int)
      returns (rest: seq<SentPacket>, rate: Rate, acknowledged: bool)
      requires Sorted(es)
      ensures rest == Unacked(es, p) && rate == AckAll(rate0, Acked(es, p), ts) && acknowledged == (Acked(es, p) != [])
    {
      rest, rate, acknowledged := es, rate0, false;
      var i := 0;
      while i < |rest|
        invariant 0 <= i <= |rest| && Sorted(rest[i..])
        invariant rest[..i] + Unacked(rest[i..], p) == Unacked(es, p)
        invariant AckAll(rate, Acked(rest[i..], p), ts) == AckAll(rate0, Acked(es, p), ts)
        invariant (acknowledged || Acked(rest[i..], p) != []) == (Acked(es, p) != [])
        decreases |rest| - i
      {
        var e := rest[i];
        if e.packet.seqn > p.ackThrough {
          NothingAcked(rest[i..], p);
          return;
        }
        assert rest[i..][1..] == rest[i + 1..];
        var nacked := IsNacked(e.packet.seqn, p.nacks);
        if nacked {
          ConcatAssociates(rest[..i], [e], Unacked(rest[i + 1..], p));
          assert rest[..i + 1] == rest[..i] + [e];
          i := i + 1;
        } else {
          ghost var before := rest;
          rest := rest[..i] + rest[i + 1..];
          assert rest[i..] == before[i + 1..] && rest[..i] == before[..i];
          rate := Acknowledge(rate, e, ts);
          acknowledged := true;
        }
      }
    }

    static method Acknowledge(r: Rate, e: SentPacket, ts: int) returns (rate: Rate)
      ensures rate == AckOne(r, e, ts)
    {
      var rtt := Average(r.rtt, e.packet.seqn, ts - e.sendTime);
      rate := r.(rtt := rtt, rto := rtt * 3 / 2);
      if rate.window < WINDOW_SIZE {
        rate := rate.(window := rate.window + 1);
      } else if ts > rate.lastIncrease + rtt {
        rate := rate.(window := rate.window + 1, lastIncrease := ts);
        if rate.window > MAX_WINDOW_SIZE {
          rate := rate.(window := MAX_WINDOW_SIZE);
        }
      }
    }

    static method IsNacked(seqn: nat, nacks: seq<nat>) returns (nacked: bool)
      ensures nacked == (seqn in nacks)
    {
      nacked := false;
      var i := 0;
      while i < |nacks| && !nacked
        invariant 0 <= i <= |nacks| && nacked == (seqn in nacks[..i])
      {
        nacked := seqn == nacks[i];
        i := i + 1;
      }
    }

    /** Delivers the payload of `p`, and handles its close flag. */
    method ProcessPacket(p: Packet)
      requires Valid()
      modifies this
      ensures Valid() && View() == Spec.ProcessPacket(old(View()), p)
    {
      var close := p.close;
      if p.badSignature {
        Close();
        close := true;
      }
      if |p.payload| > 0 {
        queue := queue + [p.payload];
      }
      last := AsInt32(p.seqn);
      if close {
        status := Reset;
        Close();
      }
    }

    /** Takes the saved packets that have become next in sequence. */
    method TrySaved()
      requires Valid()
      modifies this
      ensures Valid() && View() == Drain(old(View()))
    {
      while saved != [] && saved[0].seqn == AsUint32(last + 1)
        invariant Valid() && Drain(View()) == Drain(old(View()))
        decreases |saved|
      {
        var savedPacket := saved[0];
        saved := saved[1..];
        ProcessPacket(savedPacket);
      }
    }

    method HandleNextPacket(p: Packet, ts: int)
      requires Valid()
      modifies this
      ensures Valid() && View() == Spec.HandleNextPacket(old(View()), p, ts)
    {
      if sendID == 0 {
        sendID := p.recvID;
      }
      if !p.noAck {
        ProcessAck(p, ts);
      }
      assert View() == TakeAck(old(View()), p, ts);
      HandleNumber(p, ts);
    }

    method HandleNumber(p: Packet, ts: int)
      requires Valid()
      modifies this
      ensures Valid() && View() == TakeNumbered(old(View()), p, ts)
    {
      var receivedSeqn := AsInt32(p.seqn);
      if receivedSeqn == 0 && !p.syn {
        return;
      }
      if p.syn || receivedSeqn == last + 1 {
        ProcessPacket(p);
        TrySaved();
        if status == Open {
          ackScheduled := true;
        } else if p.syn {
          SendBuffer(ts);
        }
      } else if receivedSeqn <= last {
        SendQuickAck();
      } else {
        saved := InsertSaved(saved, p);
        if last >= 0 {
          ackScheduled := false;
          SendQuickAck();
        } else {
          ackScheduled := true;
        }
      }
    }

    /** Acknowledges up to the highest number received, listing the missing ones. */
    method SendQuickAck()
      requires Valid()
      modifies this
      ensures Valid() && View() == Spec.SendQuickAck(old(View()))
    {
      var lastReceivedSeqn := last;
      if saved != [] {
        var seqn := AsInt32(saved[|saved| - 1].seqn);
        if seqn > lastReceivedSeqn {
          lastReceivedSeqn := seqn;
        }
      }
      if lastReceivedSeqn < 0 || last < -1 {
        return;
      }
      var through, nacks := lastReceivedSeqn, [];
      if lastReceivedSeqn > last {
        through, nacks := FillNacks(saved, last + 1, lastReceivedSeqn);
      }
      outbox := outbox + [Packet(sendID, recvID, 0, through, nacks, false, false, false, false, [])];
    }

    static method FillNacks(ps: seq<Packet>, first: nat, top: nat) returns (through: nat, nacks: seq<nat>)
      ensures (through, nacks) == NackScan(ps, first, top, [])
    {
      through, nacks := top, [];
      var nextSeqn := first;
      var i := 0;
      while i < |ps|
        invariant 0 <= i <= |ps| && NackScan(ps[i..], nextSeqn, through, nacks) == NackScan(ps, first, top, [])
      {
        var seqn := ps[i].seqn;
        if |nacks| + AsUint32(seqn as int - nextSeqn) >= 256 {
          return nextSeqn, nacks;
        }
        ghost var before := nacks;
        var n := nextSeqn;
        while n < seqn
          invariant nextSeqn <= n && (n <= seqn || n == nextSeqn) && nacks == before + Range(nextSeqn, n)
        {
          nacks := nacks + [n];
          n := n + 1;
        }
        assert Range(nextSeqn, n) == Range(nextSeqn, seqn);
        nextSeqn := seqn + 1;
        i := i + 1;
        assert ps[i - 1..][1..] == ps[i..];
      }
    }

    method HandleResendTimer(ts: int)
      requires Valid()
      modifies this
      ensures Valid() && View() == Spec.HandleResendTimer(old(View()), ts)
    {
      if numResends >= MAX_NUM_RESEND_ATTEMPTS {
        status := Reset;
        Close();
        return;
      }
      var packets := CollectAll(ts);
      if packets != [] {
        numResends := numResends + 1;
        SlowDown();
        outbox := outbox + packets;
      }
    }

    method CollectAll(ts: int) returns (packets: seq<Packet>)
      requires Valid()
      modifies this
      ensures Valid() && View() == old(View()).(sent := Touched(old(sent), ts, rate.rto))
      ensures packets == DuePackets(old(sent), ts, rate.rto)
    {
      TouchedOk(sent, ts, rate.rto);
      packets, sent := CollectDue(sent, ts, rate.rto);
    }

    method SlowDown()
      requires Valid()
      modifies this
      ensures Valid() && View() == old(View()).(rate := BackOff(old(View()).rate, numResends))
    {
      rate := rate.(rto := rate.rto * 2);
      if numResends == 1 {
        rate := rate.(window := rate.window / 2);
        if rate.window < MIN_WINDOW_SIZE {
          rate := rate.(window := MIN_WINDOW_SIZE);
        }
      } else if numResends == 2 {
        rate := rate.(rto := INITIAL_RTO);
      }
    }

    static method CollectDue(es: seq<SentPacket>, ts: int, rto: int) returns (packets: seq<Packet>, r: seq<SentPacket>)
      ensures packets == DuePackets(es, ts, rto) && r == Touched(es, ts, rto)
    {
      packets, r := [], [];
      var i := 0;
      while i < |es|
        invariant 0 <= i <= |es|
        invariant packets + DuePackets(es[i..], ts, rto) == DuePackets(es, ts, rto)
        invariant r + Touched(es[i..], ts, rto) == Touched(es, ts, rto)
      {
        var e := es[i];
        assert es[i..][1..] == es[i + 1..];
        if ts >= e.sendTime + rto {
          ConcatAssociates(packets, [e.packet], DuePackets(es[i + 1..], ts, rto));
          packets := packets + [e.packet];
          e := e.(sendTime := ts);
        }
        ConcatAssociates(r, [e], Touched(es[i + 1..], ts, rto));
        r := r + [e];
        i := i + 1;
      }
    }

    method HandleAckSendTimer()
      requires Valid()
      modifies this
      ensures Valid() && View() == Spec.HandleAckSendTimer(old(View()))
    {
      if ackScheduled {
        if last < 0 {
          status := Reset;
          Close();
          return;
        }
        if status == Open {
          SendQuickAck();
        }
        ackScheduled := false;
      }
    }
  }
}
