/**
 What every handler of one stream keeps, for any packets the peer's log can justify.
 */
module StreamingInvariants {
  import opened Bytes
  import opened StreamingSpec

  /** The payload bytes of a run of packets. */
  function Payloads(ps: seq<Packet>): seq<byte> {
    if ps == [] then [] else Payloads(ps[..|ps| - 1]) + ps[|ps| - 1].payload
  }

  /** `p` is the packet that was built under its number. */
  ghost predicate Logged(p: Packet, log: seq<Packet>) {
    p.seqn < |log| && log[p.seqn] == p
  }

  /** `p` is a plain ack or a packet of the log: what the network may deliver. */
  ghost predicate Genuine(p: Packet, log: seq<Packet>) {
    (p.seqn == 0 && !p.syn) || Logged(p, log)
  }

  ghost predicate LogOk(log: seq<Packet>) {
    forall i :: 0 <= i < |log| ==>
      log[i].seqn == i && (log[i].syn ==> i == 0 && !log[i].close) && !log[i].badSignature
  }

  ghost predicate SavedOk(ps: seq<Packet>, log: seq<Packet>) {
    && (forall i :: 0 <= i < |ps| ==> Logged(ps[i], log) && !ps[i].syn)
    && (forall i, j :: 0 <= i < j < |ps| ==> ps[i].seqn < ps[j].seqn)
  }

  ghost predicate SentOk(es: seq<SentPacket>, log: seq<Packet>) {
    && (forall i :: 0 <= i < |es| ==> Logged(es[i].packet, log))
    && (forall i, j :: 0 <= i < j < |es| ==> es[i].packet.seqn < es[j].packet.seqn)
  }

  /** The ackThrough a stream writes before it has received anything: -1 as an unsigned number. */
  const LATE_SYN: nat := UINT32_RANGE - 1

  /** What a numbered packet acknowledges: nothing, packets up to `last`, or - written before the
      peer's SYN arrived - every number there is. */
  ghost predicate Sound(p: Packet, last: int) {
    p.nacks == [] && (p.noAck || p.ackThrough == LATE_SYN || p.ackThrough <= last)
  }

  /** Packets are numbered without gap or repeat, and their payloads followed by the buffer are exactly
      the bytes written. */
  ghost predicate Numbered(s: State) {
    && |s.log| == s.seqNum < UINT32_RANGE
    && LogOk(s.log)
    && (s.status.New? ==> s.log == [])
    && s.written == Payloads(s.log) + s.buffer
    && (s.eof ==> s.buffer == [])
    && -1 <= s.last < SEQN_LIMIT
    && (forall i :: 0 <= i < |s.log| ==> Sound(s.log[i], s.last))
    && (forall i :: 0 <= i < |s.log| ==> s.log[i].sendID == 0 || s.log[i].sendID == s.sendID)
  }

  /** Everything outstanding, posted or sent comes from the log, and the window is bounded. */
  ghost predicate InFlight(s: State) {
    && SentOk(s.sent, s.log)
    && |s.sent| <= MAX_WINDOW_SIZE
    && MIN_WINDOW_SIZE <= s.rate.window <= MAX_WINDOW_SIZE
    && (forall i :: 0 <= i < |s.posted| ==> Logged(s.posted[i], s.log) && s.posted[i].close)
    && (forall i :: 0 <= i < |s.outbox| ==> Genuine(s.outbox[i], s.log))
    && (s.status.Open? || s.status.New? ==> s.posted == [])
  }

  ghost predicate SenderOk(s: State) {
    Numbered(s) && InFlight(s)
  }

  /** The receiving half against the peer's log: exactly the payloads of packets 0..last were given to
      the reader or wait in the queue, and every saved packet lies beyond `last`. */
  ghost predicate Receiving(s: State, log: seq<Packet>) {
    && -1 <= s.last < |log|
    && SavedOk(s.saved, log)
    && (forall i :: 0 <= i < |s.saved| ==> s.saved[i].seqn > s.last)
    && (forall i :: 0 <= i < |s.queue| ==> s.queue[i] != [])
    && s.readOut + Flatten(s.queue) == Payloads(log[..s.last + 1])
  }

  /** The next number in sequence is missing. */
  ghost predicate NextMissing(s: State) {
    forall i :: 0 <= i < |s.saved| ==> s.saved[i].seqn > s.last + 1
  }

  ghost predicate ReceiverOk(s: State, log: seq<Packet>) {
    Receiving(s, log) && NextMissing(s)
  }

  /** The stream has got packet `n` of the peer. */
  ghost predicate Holds(s: State, n: nat) {
    n <= s.last || exists i :: 0 <= i < |s.saved| && s.saved[i].seqn == n
  }

  ghost predicate Outstanding(es: seq<SentPacket>, n: nat) {
    exists i :: 0 <= i < |es| && es[i].packet.seqn == n
  }

  /** What any step does to the sending half: history grows, the stream is never reopened. */
  ghost predicate Progress(s: State, r: State) {
    && s.log <= r.log && s.outbox <= r.outbox && s.written <= r.written
    && (r.status.Open? ==> s.status.Open? || s.status.New?)
    && (r.status.New? ==> s.status.New?)
  }

  // ---------------------------------------------------------------- helpers

  lemma PrefixTransitive<T>(a: seq<T>, b: seq<T>, c: seq<T>)
    requires a <= b <= c
    ensures a <= c
  {
  }

  lemma Onward(s: State, t: State, r: State)
    requires Progress(s, t) && Progress(t, r)
    ensures Progress(s, r)
  {
    PrefixTransitive(s.log, t.log, r.log);
    PrefixTransitive(s.outbox, t.outbox, r.outbox);
    PrefixTransitive(s.written, t.written, r.written);
  }

  lemma PayloadsPush(ps: seq<Packet>, p: Packet)
    ensures Payloads(ps + [p]) == Payloads(ps) + p.payload
  {
    assert (ps + [p])[..|ps|] == ps;
  }

  lemma {:induction false} InsertSentLast(es: seq<SentPacket>, e: SentPacket)
    requires forall i :: 0 <= i < |es| ==> es[i].packet.seqn < e.packet.seqn
    ensures InsertSent(es, e) == es + [e]
  {
    if es != [] {
      InsertSentLast(es[1..], e);
      assert es == [es[0]] + es[1..];
    }
  }

  /** Packets newer than all the outstanding ones join them at the end. */
  lemma {:induction false} InsertAllAppends(es: seq<SentPacket>, ps: seq<Packet>, ts: int)
    requires forall i, j :: 0 <= i < |es| && 0 <= j < |ps| ==> es[i].packet.seqn < ps[j].seqn
    requires forall i, j :: 0 <= i < j < |ps| ==> ps[i].seqn < ps[j].seqn
    ensures var r := InsertAll(es, ps, ts);
            && |r| == |es| + |ps| && es <= r
            && forall j :: |es| <= j < |r| ==> r[j] == SentPacket(ps[j - |es|], ts)
  {
    if ps != [] {
      var n := |ps| - 1;
      InsertAllAppends(es, ps[..n], ts);
      InsertSentLast(InsertAll(es, ps[..n], ts), SentPacket(ps[n], ts));
    }
  }

  /** Fresh packets join the outstanding ones at the end. */
  lemma InsertAllLast(es: seq<SentPacket>, ps: seq<Packet>, ts: int, log: seq<Packet>, k: nat)
    requires LogOk(log) && SentOk(es, log) && k + |ps| <= |log|
    requires forall i :: 0 <= i < |es| ==> es[i].packet.seqn < k
    requires ps == log[k..k + |ps|]
    ensures var r := InsertAll(es, ps, ts);
            && SentOk(r, log) && |r| == |es| + |ps| && es <= r
            && forall j :: |es| <= j < |r| ==> r[j] == SentPacket(log[k + j - |es|], ts)
  {
    assert forall j :: 0 <= j < |ps| ==> ps[j] == log[k + j] && ps[j].seqn == k + j;
    InsertAllAppends(es, ps, ts);
    AppendSent(es, InsertAll(es, ps, ts), ts, log, k);
  }

  lemma AppendSent(es: seq<SentPacket>, r: seq<SentPacket>, ts: int, log: seq<Packet>, k: nat)
    requires LogOk(log) && SentOk(es, log) && es <= r && k + |r| - |es| <= |log|
    requires forall i :: 0 <= i < |es| ==> es[i].packet.seqn < k
    requires forall j :: |es| <= j < |r| ==> r[j] == SentPacket(log[k + j - |es|], ts)
    ensures SentOk(r, log)
  {
  }

  /** Insertion into the saved set keeps it sorted and adds exactly one number. */
  lemma {:induction false} InsertSavedOk(ps: seq<Packet>, p: Packet, log: seq<Packet>)
    requires SavedOk(ps, log) && Logged(p, log) && !p.syn
    ensures SavedOk(InsertSaved(ps, p), log)
    ensures forall q :: q in InsertSaved(ps, p) <==> q in ps || q == p
  {
    if ps != [] && p.seqn > ps[0].seqn {
      assert SavedOk(ps[1..], log);
      InsertSavedOk(ps[1..], p, log);
      var r := InsertSaved(ps[1..], p);
      assert ps == [ps[0]] + ps[1..];
      forall j | 0 <= j < |r| ensures ps[0].seqn < r[j].seqn {
        assert r[j] in r;
      }
      assert SavedOk([ps[0]], log);
      SavedCons(ps[0], r, log);
      assert InsertSaved(ps, p) == [ps[0]] + r;
    }
  }

  lemma SavedCons(q: Packet, r: seq<Packet>, log: seq<Packet>)
    requires SavedOk([q], log) && SavedOk(r, log) && forall j :: 0 <= j < |r| ==> q.seqn < r[j].seqn
    ensures SavedOk([q] + r, log)
  {
    assert [q][0] == q;
  }

  // ---------------------------------------------------------------- the sending half

  lemma {:induction false} UnackedIn(es: seq<SentPacket>, p: Packet)
    ensures |Unacked(es, p)| <= |es|
    ensures forall e :: e in Unacked(es, p) <==> e in es && !Claims(p, e.packet.seqn)
  {
    if es != [] {
      UnackedIn(es[1..], p);
      assert es == [es[0]] + es[1..];
    }
  }

  lemma {:induction false} UnackedOk(es: seq<SentPacket>, p: Packet, log: seq<Packet>)
    requires SentOk(es, log)
    ensures SentOk(Unacked(es, p), log) && |Unacked(es, p)| <= |es|
  {
    UnackedIn(es, p);
    if es != [] {
      UnackedOk(es[1..], p, log);
      UnackedIn(es[1..], p);
      var u := Unacked(es[1..], p);
      forall i | 0 <= i < |u| ensures es[0].packet.seqn < u[i].packet.seqn {
        assert u[i] in es[1..];
      }
    }
  }

  /** `ProcessAck` drops exactly the outstanding numbers up to ackThrough that are not NACKed. */
  lemma UnackedNumbers(es: seq<SentPacket>, p: Packet, log: seq<Packet>, n: nat)
    requires SentOk(es, log)
    ensures Outstanding(Unacked(es, p), n) <==> Outstanding(es, n) && !Claims(p, n)
  {
    UnackedIn(es, p);
    var u := Unacked(es, p);
    if Outstanding(u, n) {
      var i :| 0 <= i < |u| && u[i].packet.seqn == n;
      assert u[i] in u;
    }
    if Outstanding(es, n) && !Claims(p, n) {
      var i :| 0 <= i < |es| && es[i].packet.seqn == n;
      assert es[i] in es;
      assert es[i] in u;
    }
  }

  lemma {:induction false} AckAllWindow(r: Rate, es: seq<SentPacket>, ts: int)
    requires MIN_WINDOW_SIZE <= r.window <= MAX_WINDOW_SIZE
    ensures MIN_WINDOW_SIZE <= AckAll(r, es, ts).window <= MAX_WINDOW_SIZE
    decreases |es|
  {
    if es != [] {
      AckAllWindow(AckOne(r, es[0], ts), es[1..], ts);
    }
  }

  /** Appending one sound packet keeps the log in order. */
  lemma LogPush(log: seq<Packet>, p: Packet, last: int)
    requires LogOk(log) && (forall i :: 0 <= i < |log| ==> Sound(log[i], last))
    requires p.seqn == |log| && (p.syn ==> log == [] && !p.close) && !p.badSignature && Sound(p, last)
    ensures LogOk(log + [p]) && forall i :: 0 <= i < |log + [p]| ==> Sound((log + [p])[i], last)
  {
  }

  /** Building one packet keeps the numbering. */
  lemma BuildOk(s: State, isNoAck: bool)
    requires Numbered(s) && isNoAck == (s.last < 0) && s.seqNum + 1 < UINT32_RANGE
    ensures Numbered(AfterPacket(s, NextPacket(s, isNoAck)))
  {
    var p := NextPacket(s, isNoAck);
    var r := AfterPacket(s, p);
    PayloadsPush(s.log, p);
    SplitBuffer(s, p);
    LogPush(s.log, p, s.last);
  }

  lemma SplitBuffer(s: State, p: Packet)
    requires s.written == Payloads(s.log) + s.buffer && (s.eof ==> s.buffer == []) && p.payload == Chunk(s)
    ensures s.written == Payloads(s.log) + p.payload + AfterPacket(s, p).buffer
  {
    assert s.buffer == Chunk(s) + AfterPacket(s, p).buffer;
    ConcatAssociates(Payloads(s.log), Chunk(s), AfterPacket(s, p).buffer);
  }

  lemma {:induction false} FillOk(s: State, numMsgs: int, isNoAck: bool)
    requires Numbered(s) && isNoAck == (s.last < 0) && numMsgs >= 1 && s.seqNum + numMsgs < UINT32_RANGE
    ensures var r := Fill(s, numMsgs, isNoAck);
            && Numbered(r) && s.log <= r.log && |r.log| <= |s.log| + numMsgs
            && (|r.log| == |s.log| ==> r == s)
            && r.status == (if s.status.New? then Open else s.status)
    decreases numMsgs
  {
    if CanSend(s, numMsgs) {
      var s1 := AfterPacket(s, NextPacket(s, isNoAck));
      BuildOk(s, isNoAck);
      if numMsgs == 1 {
        assert !CanSend(s1, 0);
      } else {
        FillOk(s1, numMsgs - 1, isNoAck);
      }
    }
  }

  /** What was in flight still is when only the log has grown. */
  lemma FlightGrows(s: State, r: State)
    requires InFlight(s) && s.log <= r.log
    requires r.sent == s.sent && r.posted == s.posted && r.outbox == s.outbox && r.rate == s.rate
    requires r.status.Open? || r.status.New? ==> s.status.Open? || s.status.New?
    ensures InFlight(r)
  {
  }

  lemma SendCloseNumbered(s: State)
    requires Numbered(s) && s.seqNum + 1 < UINT32_RANGE && !s.status.New?
    ensures Numbered(SendClose(s))
  {
    PayloadsPush(s.log, ClosePacket(s));
    assert Payloads(s.log + [ClosePacket(s)]) == Payloads(s.log);
    LogPush(s.log, ClosePacket(s), s.last);
  }

  lemma SendCloseOk(s: State)
    requires SenderOk(s) && s.seqNum + 1 < UINT32_RANGE && !s.status.New? && !s.status.Open?
    ensures SenderOk(SendClose(s)) && Progress(s, SendClose(s))
  {
    SendCloseNumbered(s);
    FlightGrows(s, s.(log := SendClose(s).log));
  }

  lemma CloseNowOk(s: State)
    requires SenderOk(s) && s.seqNum + 1 < UINT32_RANGE && !s.status.Open?
    ensures SenderOk(CloseNow(s)) && Progress(s, CloseNow(s)) && |CloseNow(s).log| <= |s.log| + 1
  {
    if s.status.Reset? {
      SendCloseOk(s);
      assert CloseNow(s) == SendClose(s).(deleted := true);
    } else if s.status.Closing? && s.sent == [] && s.eof {
      var s1 := s.(status := Closed);
      SendCloseOk(s1);
      assert CloseNow(s) == SendClose(s1).(deleted := true);
    } else {
      assert CloseNow(s) == s.(deleted := s.deleted || s.status.Closed?);
    }
  }

  lemma CloseOk(s: State)
    requires SenderOk(s) && s.seqNum + 1 < UINT32_RANGE
    ensures SenderOk(Close(s)) && Progress(s, Close(s)) && |Close(s).log| <= |s.log| + 1
  {
    CloseNowOk(if s.status.Open? then s.(status := Closing) else s);
  }

  lemma LaunchOk(s: State, k: nat, ts: int)
    requires SenderOk(s) && k <= |s.log| && |s.sent| + |s.log| - k <= MAX_WINDOW_SIZE
    requires forall i :: 0 <= i < |s.sent| ==> s.sent[i].packet.seqn < k
    ensures SenderOk(Launch(s, s.log[k..], ts)) && Progress(s, Launch(s, s.log[k..], ts))
  {
    var ps := s.log[k..];
    var r := Launch(s, ps, ts);
    assert ps == s.log[k..k + |ps|];
    InsertAllLast(s.sent, ps, ts, s.log, k);
    forall i | 0 <= i < |r.outbox| ensures Genuine(r.outbox[i], r.log) {
      if i >= |s.outbox| {
        assert r.outbox[i] == s.log[k + (i - |s.outbox|)];
      }
    }
  }

  lemma DispatchOk(s: State, s1: State, ts: int)
    requires SenderOk(s) && Numbered(s1) && OnlyBuilt(s, s1) && Progress(s, s1)
    requires |s.sent| + |s1.log| - |s.log| <= MAX_WINDOW_SIZE && s1.seqNum + 1 < UINT32_RANGE
    requires |s1.log| > |s.log| ==> !s1.status.New?
    ensures var r := Dispatch(s, s1, ts); SenderOk(r) && Progress(s, r) && |r.log| <= |s1.log| + 1
  {
    FlightGrows(s, s1);
    if Built(s, s1) != [] {
      LaunchOk(s1, |s.log|, ts);
      var s2 := Launch(s1, Built(s, s1), ts);
      Onward(s, s1, s2);
      if s2.status.Closing? && s2.eof {
        SendCloseOk(s2);
        Onward(s, s2, SendClose(s2));
      }
    }
  }

  lemma SendBufferOk(s: State, ts: int)
    requires SenderOk(s) && s.seqNum + MAX_WINDOW_SIZE + 1 < UINT32_RANGE
    ensures var r := SendBuffer(s, ts);
            SenderOk(r) && Progress(s, r) && |r.log| <= |s.log| + MAX_WINDOW_SIZE + 1
  {
    var numMsgs := s.rate.window - |s.sent|;
    if numMsgs > 0 {
      FillOk(s, numMsgs, s.last < 0);
      DispatchOk(s, Fill(s, numMsgs, s.last < 0), ts);
    }
  }

  lemma ProcessAckOk(s: State, p: Packet, ts: int)
    requires SenderOk(s) && s.seqNum + MAX_WINDOW_SIZE + 2 < UINT32_RANGE
    ensures var r := ProcessAck(s, p, ts);
            SenderOk(r) && Progress(s, r) && |r.log| <= |s.log| + MAX_WINDOW_SIZE + 2
  {
    UnackedOk(s.sent, p, s.log);
    AckAllWindow(s.rate, Acked(s.sent, p), ts);
    var s1 := s.(sent := Unacked(s.sent, p), rate := AckAll(s.rate, Acked(s.sent, p), ts));
    assert SenderOk(s1);
    var s2 := if Acked(s.sent, p) != [] then SendBuffer(s1.(numResends := 0), ts) else s1;
    if Acked(s.sent, p) != [] {
      SendBufferOk(s1.(numResends := 0), ts);
    }
    if s2.status.Closing? {
      CloseOk(s2);
      Onward(s, s2, Close(s2));
    }
  }

  // ---------------------------------------------------------------- the receiving half

  /** Fewer packets than this keep every sequence number below 2^31, through any one step. */
  const MAX_PACKETS := SEQN_LIMIT - 0x100

  /** The payload of the packet next in sequence joins the queue. */
  lemma AcceptOk(s: State, p: Packet, log: seq<Packet>)
    requires Receiving(s, log) && NextMissing(s) && LogOk(log) && Logged(p, log) && p.seqn == s.last + 1
    requires |log| < MAX_PACKETS
    ensures Receiving(ProcessPacket(s, p), log) && ProcessPacket(s, p).last == p.seqn
    ensures ProcessPacket(s, p).saved == s.saved
  {
    var r := ProcessPacket(s, p);
    assert log[..p.seqn + 1] == log[..s.last + 1] + [p];
    PayloadsPush(log[..s.last + 1], p);
    if p.payload != [] {
      FlattenAppend(s.queue, [p.payload]);
      assert Flatten([p.payload]) == p.payload;
      ConcatAssociates(s.readOut, Flatten(s.queue), p.payload);
    }
  }

  lemma ProcessPacketOk(s: State, p: Packet)
    requires SenderOk(s) && !p.badSignature && s.seqNum + 1 < UINT32_RANGE && s.last <= p.seqn < SEQN_LIMIT
    ensures var r := ProcessPacket(s, p); SenderOk(r) && Progress(s, r) && |r.log| <= |s.log| + 1
  {
    var s2 := s.(queue := if p.payload != [] then s.queue + [p.payload] else s.queue, last := AsInt32(p.seqn));
    if p.close {
      CloseOk(s2.(status := Reset));
    }
  }

  /** Taking the first saved packet when it is next in sequence. */
  lemma TakeSavedOk(s: State, log: seq<Packet>)
    requires SenderOk(s) && Receiving(s, log) && LogOk(log) && |log| < MAX_PACKETS && s.seqNum + 1 < UINT32_RANGE
    requires s.saved != [] && s.saved[0].seqn == s.last + 1
    ensures var r := ProcessPacket(s.(saved := s.saved[1..]), s.saved[0]);
            && SenderOk(r) && Progress(s, r) && Receiving(r, log) && |r.log| <= |s.log| + 1
            && r.last == s.last + 1 && |r.saved| == |s.saved| - 1
  {
    var s0 := s.(saved := s.saved[1..]);
    AcceptOk(s0, s.saved[0], log);
    ProcessPacketOk(s0, s.saved[0]);
  }

  /** Draining delivers the longest consecutive run of saved packets and stops at the first missing number. */
  lemma {:induction false} DrainOk(s: State, log: seq<Packet>)
    requires SenderOk(s) && Receiving(s, log) && LogOk(log) && |log| < MAX_PACKETS
    requires |s.log| + |log| - s.last < UINT32_RANGE
    ensures var r := Drain(s);
            && SenderOk(r) && Progress(s, r) && ReceiverOk(r, log)
            && s.last <= r.last && |r.log| + s.last <= |s.log| + r.last
    decreases |s.saved|
  {
    if s.saved != [] && s.saved[0].seqn == AsUint32(s.last + 1) {
      TakeSavedOk(s, log);
      var s1 := ProcessPacket(s.(saved := s.saved[1..]), s.saved[0]);
      DrainOk(s1, log);
      assert Drain(s) == Drain(s1);
      Onward(s, s1, Drain(s1));
    }
  }

  /** When a SYN may be taken: it is the first packet, or a repeat of an empty one with nothing after it. */
  ghost predicate SynAllowed(s: State, p: Packet) {
    p.syn ==> s.last == -1 || (s.last == 0 && p.payload == [])
  }

  /** In-sequence arrival: the packet and the saved run behind it are delivered. */
  lemma InSequenceOk(s: State, p: Packet, log: seq<Packet>)
    requires SenderOk(s) && ReceiverOk(s, log) && LogOk(log) && Logged(p, log)
    requires p.seqn == s.last + 1 || (p.syn && SynAllowed(s, p))
    requires |log| < MAX_PACKETS && |s.log| <= MAX_PACKETS + MAX_WINDOW_SIZE + 2
    ensures var r := Drain(ProcessPacket(s, p));
            && SenderOk(r) && Progress(s, r) && ReceiverOk(r, log)
            && |r.log| < UINT32_RANGE - MAX_WINDOW_SIZE - 2 && s.last <= r.last && 0 <= r.last
  {
    var s1 := ProcessPacket(s, p);
    ProcessPacketOk(s, p);
    if p.seqn == s.last + 1 {
      AcceptOk(s, p, log);
    } else {
      assert s1.last == 0 == s.last && Receiving(s1, log);
    }
    DrainOk(s1, log);
    Onward(s, s1, Drain(s1));
  }

  lemma PlainAckOk(s: State, q: Packet)
    requires SenderOk(s) && q.seqn == 0 && !q.syn
    ensures var r := s.(outbox := s.outbox + [q]); SenderOk(r) && Progress(s, r)
  {
  }

  lemma QuickAckOk(s: State, log: seq<Packet>)
    requires SenderOk(s) && ReceiverOk(s, log)
    ensures var r := SendQuickAck(s); SenderOk(r) && Progress(s, r) && ReceiverOk(r, log)
  {
    if Top(s) >= 0 {
      var q := QuickAck(s);
      PlainAckOk(s, q);
      assert SendQuickAck(s) == s.(outbox := s.outbox + [q]);
    } else {
      assert SendQuickAck(s) == s;
    }
  }

  lemma SavePacketOk(s: State, p: Packet, log: seq<Packet>)
    requires ReceiverOk(s, log) && LogOk(log) && Logged(p, log) && p.seqn > s.last + 1
    ensures ReceiverOk(s.(saved := InsertSaved(s.saved, p)), log)
  {
    InsertSavedOk(s.saved, p, log);
    var r := s.(saved := InsertSaved(s.saved, p));
    forall i | 0 <= i < |r.saved| ensures r.saved[i].seqn > s.last + 1 {
      assert r.saved[i] in r.saved;
    }
  }

  /** Learning the peer's ID changes nothing else. */
  lemma LearnIDOk(s: State, id: nat, log: seq<Packet>)
    requires SenderOk(s) && ReceiverOk(s, log)
    ensures var r := if s.sendID == 0 then s.(sendID := id) else s;
            SenderOk(r) && Progress(s, r) && ReceiverOk(r, log) && SameReceiver(s, r)
  {
  }

  lemma TakeAckOk(s: State, p: Packet, ts: int, log: seq<Packet>)
    requires SenderOk(s) && ReceiverOk(s, log) && |s.log| < MAX_PACKETS
    ensures var r := TakeAck(s, p, ts);
            && SenderOk(r) && Progress(s, r) && ReceiverOk(r, log) && SameReceiver(s, r)
            && |r.log| <= MAX_PACKETS + MAX_WINDOW_SIZE + 2
  {
    var s1 := if s.sendID == 0 then s.(sendID := p.recvID) else s;
    LearnIDOk(s, p.recvID, log);
    var r := TakeAck(s, p, ts);
    if !p.noAck {
      ProcessAckOk(s1, p, ts);
      assert r == ProcessAck(s1, p, ts);
      Onward(s, s1, r);
    } else {
      assert r == s1;
    }
    SameReceived(s, r, log);
  }

  /** What has been received is in order as long as it is the same. */
  lemma SameReceived(s: State, r: State, log: seq<Packet>)
    requires ReceiverOk(s, log) && SameReceiver(s, r)
    ensures ReceiverOk(r, log)
  {
  }

  lemma RespondOk(s: State, isSyn: bool, ts: int, log: seq<Packet>)
    requires SenderOk(s) && ReceiverOk(s, log) && |s.log| < UINT32_RANGE - MAX_WINDOW_SIZE - 2
    ensures var r := Respond(s, isSyn, ts); SenderOk(r) && Progress(s, r) && ReceiverOk(r, log)
  {
    if !s.status.Open? && isSyn {
      SendBufferOk(s, ts);
    }
  }

  lemma TakeInSequenceOk(s: State, p: Packet, ts: int, log: seq<Packet>)
    requires SenderOk(s) && ReceiverOk(s, log) && LogOk(log) && Logged(p, log)
    requires p.seqn == s.last + 1 || (p.syn && SynAllowed(s, p))
    requires |log| < MAX_PACKETS && |s.log| <= MAX_PACKETS + MAX_WINDOW_SIZE + 2
    ensures var r := TakeInSequence(s, p, ts); SenderOk(r) && Progress(s, r) && ReceiverOk(r, log)
  {
    InSequenceOk(s, p, log);
    var s1 := Drain(ProcessPacket(s, p));
    RespondOk(s1, p.syn, ts, log);
    Onward(s, s1, Respond(s1, p.syn, ts));
  }

  lemma TakeEarlyOk(s: State, p: Packet, log: seq<Packet>)
    requires SenderOk(s) && ReceiverOk(s, log) && LogOk(log) && Logged(p, log) && p.seqn > s.last + 1
    ensures var r := TakeEarly(s, p); SenderOk(r) && Progress(s, r) && ReceiverOk(r, log)
  {
    SavePacketOk(s, p, log);
    var s1 := s.(saved := InsertSaved(s.saved, p), ackScheduled := s.last < 0);
    assert SenderOk(s1) && Progress(s, s1);
    if s.last >= 0 {
      QuickAckOk(s1, log);
      assert TakeEarly(s, p) == SendQuickAck(s1);
      Onward(s, s1, SendQuickAck(s1));
    } else {
      assert TakeEarly(s, p) == s1;
    }
  }

  lemma TakeNumberedOk(s: State, p: Packet, ts: int, log: seq<Packet>)
    requires SenderOk(s) && ReceiverOk(s, log) && LogOk(log) && Genuine(p, log) && SynAllowed(s, p)
    requires |s.log| <= MAX_PACKETS + MAX_WINDOW_SIZE + 2 && |log| < MAX_PACKETS
    ensures var r := TakeNumbered(s, p, ts); SenderOk(r) && Progress(s, r) && ReceiverOk(r, log)
  {
    assert AsInt32(p.seqn) == p.seqn;
    if p.seqn == 0 && !p.syn {
      assert TakeNumbered(s, p, ts) == s;
    } else if p.syn || p.seqn == s.last + 1 {
      TakeInSequenceOk(s, p, ts, log);
      assert TakeNumbered(s, p, ts) == TakeInSequence(s, p, ts);
    } else if p.seqn <= s.last {
      QuickAckOk(s, log);
      assert TakeNumbered(s, p, ts) == SendQuickAck(s);
    } else {
      TakeEarlyOk(s, p, log);
      assert TakeNumbered(s, p, ts) == TakeEarly(s, p);
    }
  }

  /** One incoming packet, genuine and (if a SYN) allowed, keeps both halves of the stream. */
  lemma HandleNextPacketOk(s: State, p: Packet, ts: int, log: seq<Packet>)
    requires SenderOk(s) && ReceiverOk(s, log) && LogOk(log) && Genuine(p, log) && SynAllowed(s, p)
    requires |s.log| < MAX_PACKETS && |log| < MAX_PACKETS
    ensures var r := HandleNextPacket(s, p, ts); SenderOk(r) && Progress(s, r) && ReceiverOk(r, log)
  {
    TakeAckOk(s, p, ts, log);
    var s1 := TakeAck(s, p, ts);
    TakeNumberedOk(s1, p, ts, log);
    Onward(s, s1, TakeNumbered(s1, p, ts));
  }

  // ---------------------------------------------------------------- reading, writing, timers

  lemma {:induction false} DropBytesOk(q: seq<seq<byte>>, n: nat)
    requires n <= |Flatten(q)| && forall i :: 0 <= i < |q| ==> q[i] != []
    ensures Flatten(DropBytes(q, n)) == Flatten(q)[n..]
    ensures forall i :: 0 <= i < |DropBytes(q, n)| ==> DropBytes(q, n)[i] != []
  {
    if n != 0 && q != [] {
      if n >= |q[0]| {
        DropBytesOk(q[1..], n - |q[0]|);
        assert Flatten(q)[n..] == Flatten(q[1..])[n - |q[0]|..];
      } else {
        var r := [q[0][n..]] + q[1..];
        assert r[1..] == q[1..];
        assert Flatten(q)[n..] == q[0][n..] + Flatten(q[1..]);
      }
    }
  }

  /** A read of any size takes the next bytes of the queue, in order. */
  lemma ReadSomeOk(s: State, n: nat, log: seq<Packet>)
    requires ReceiverOk(s, log)
    ensures ReceiverOk(ReadSome(s, n), log)
  {
    var k := Min(n, |Flatten(s.queue)|);
    DropBytesOk(s.queue, k);
    var all := Flatten(s.queue);
    assert all == all[..k] + all[k..];
    ConcatAssociates(s.readOut, all[..k], all[k..]);
  }

  lemma WriteOk(s: State, data: seq<byte>)
    requires SenderOk(s)
    ensures SenderOk(Write(s, data)) && Progress(s, Write(s, data))
  {
    ConcatAssociates(Payloads(s.log), s.buffer, data);
  }

  lemma {:induction false} TouchedOk(es: seq<SentPacket>, ts: int, rto: int)
    ensures var r := Touched(es, ts, rto);
            |r| == |es| && forall i :: 0 <= i < |es| ==> r[i].packet == es[i].packet
  {
    if es != [] {
      TouchedOk(es[1..], ts, rto);
    }
  }

  lemma {:induction false} DueOk(es: seq<SentPacket>, ts: int, rto: int, log: seq<Packet>)
    requires SentOk(es, log)
    ensures forall p :: p in DuePackets(es, ts, rto) ==> Logged(p, log)
  {
    if es != [] {
      DueOk(es[1..], ts, rto, log);
      assert Logged(es[0].packet, log);
    }
  }

  lemma ResendOk(s: State, ts: int, due: seq<Packet>, rate: Rate)
    requires SenderOk(s) && forall p :: p in due ==> Logged(p, s.log)
    requires MIN_WINDOW_SIZE <= rate.window <= MAX_WINDOW_SIZE
    ensures var r := s.(sent := Touched(s.sent, ts, s.rate.rto), rate := rate, outbox := s.outbox + due);
            SenderOk(r) && Progress(s, r)
  {
    TouchedOk(s.sent, ts, s.rate.rto);
    var r := s.(sent := Touched(s.sent, ts, s.rate.rto), rate := rate, outbox := s.outbox + due);
    forall i | 0 <= i < |r.outbox| ensures Genuine(r.outbox[i], r.log) {
      if i >= |s.outbox| {
        assert r.outbox[i] in due;
      }
    }
  }

  /** The same packets are outstanding, in the same order. */
  predicate SamePackets(es: seq<SentPacket>, r: seq<SentPacket>) {
    |r| == |es| && forall i :: 0 <= i < |es| ==> r[i].packet == es[i].packet
  }

  lemma ResendPackets(s: State, ts: int)
    ensures SamePackets(s.sent, HandleResendTimer(s, ts).sent)
    ensures s.numResends < MAX_NUM_RESEND_ATTEMPTS ==> HandleResendTimer(s, ts).log == s.log
  {
    if s.numResends >= MAX_NUM_RESEND_ATTEMPTS {
      assert HandleResendTimer(s, ts).sent == s.sent;
    } else {
      TouchedOk(s.sent, ts, s.rate.rto);
      assert HandleResendTimer(s, ts).sent == Touched(s.sent, ts, s.rate.rto);
    }
  }

  /** Resending takes nothing out, adds nothing and, short of a reset, numbers nothing. */
  lemma HandleResendTimerOk(s: State, ts: int)
    requires SenderOk(s) && s.seqNum + 1 < UINT32_RANGE
    ensures var r := HandleResendTimer(s, ts); SenderOk(r) && Progress(s, r) && OnlySending(s, r)
    ensures SamePackets(s.sent, HandleResendTimer(s, ts).sent)
    ensures s.numResends < MAX_NUM_RESEND_ATTEMPTS ==> HandleResendTimer(s, ts).log == s.log
  {
    ResendPackets(s, ts);
    if s.numResends >= MAX_NUM_RESEND_ATTEMPTS {
      CloseOk(s.(status := Reset));
    } else {
      var due := DuePackets(s.sent, ts, s.rate.rto);
      DueOk(s.sent, ts, s.rate.rto, s.log);
      if due == [] {
        ResendOk(s, ts, [], s.rate);
        assert s.outbox + [] == s.outbox;
      } else {
        ResendOk(s, ts, due, BackOff(s.rate, s.numResends + 1));
      }
    }
  }

  lemma AckTimerFires(s: State, log: seq<Packet>)
    requires SenderOk(s) && ReceiverOk(s, log) && s.ackScheduled && s.last >= 0
    ensures var r := HandleAckSendTimer(s); SenderOk(r) && Progress(s, r) && ReceiverOk(r, log)
  {
    QuickAckOk(s, log);
    if s.status.Open? {
      TimerOff(s, SendQuickAck(s), log);
    } else {
      TimerOff(s, s, log);
    }
  }

  lemma TimerOff(s: State, r: State, log: seq<Packet>)
    requires SenderOk(r) && Progress(s, r) && ReceiverOk(r, log)
    ensures var t := r.(ackScheduled := false); SenderOk(t) && Progress(s, t) && ReceiverOk(t, log)
  {
  }

  lemma HandleAckSendTimerOk(s: State, log: seq<Packet>)
    requires SenderOk(s) && ReceiverOk(s, log) && s.seqNum + 1 < UINT32_RANGE
    ensures var r := HandleAckSendTimer(s); SenderOk(r) && Progress(s, r) && ReceiverOk(r, log)
  {
    if !s.ackScheduled {
      assert HandleAckSendTimer(s) == s;
    } else if s.last < 0 {
      CloseOk(s.(status := Reset));
      assert HandleAckSendTimer(s) == Close(s.(status := Reset));
    } else {
      AckTimerFires(s, log);
    }
  }

  lemma RunPostedOk(s: State)
    requires SenderOk(s) && s.posted != []
    ensures var r := RunPosted(s); SenderOk(r) && Progress(s, r) && OnlySending(s, r)
  {
  }
}
