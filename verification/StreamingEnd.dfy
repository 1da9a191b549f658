/**
 How a stream ends: when a closing stream sends its close packet and becomes Closed, and what resets a stream.
 */
module StreamingEnd {
  import opened Bytes
  import opened StreamingSpec
  import opened StreamingInvariants
  import opened StreamingProtocol

  // ---------------------------------------------------------------- closing

  /** `r` has posted one close packet more than `s`, numbered next. */
  ghost predicate PostsClose(s: State, r: State) {
    && |r.posted| == |s.posted| + 1 && s.posted <= r.posted
    && var p := r.posted[|s.posted|];
       p.close && p.payload == [] && r.log != [] && r.log[|r.log| - 1] == p && p.sendID == s.sendID
  }

  lemma {:induction false} FillKeepsPosted(s: State, numMsgs: int, isNoAck: bool)
    ensures var r := Fill(s, numMsgs, isNoAck);
            && r.posted == s.posted && r.sendID == s.sendID && s.log <= r.log && (CanSend(s, numMsgs) ==> |r.log| > |s.log|)
            && (s.status.Closing? ==> r.status.Closing?)
    decreases if s.status.New? then 1 else 0, if numMsgs > 0 then numMsgs else 0
  {
    if CanSend(s, numMsgs) {
      FillKeepsPosted(AfterPacket(s, NextPacket(s, isNoAck)), numMsgs - 1, isNoAck);
    }
  }

  lemma DispatchCloses(s: State, s1: State, ts: int)
    requires s.status.Closing? && s1.status.Closing? && s.log <= s1.log && |s1.log| > |s.log| && SendsNumbered(s, s1)
    requires s1.posted == s.posted && s1.sendID == s.sendID
    ensures var r := Dispatch(s, s1, ts);
            && r.eof == s1.eof && r.status.Closing?
            && (if r.eof then PostsClose(s, r) && |r.log| == |s1.log| + 1 else r.posted == s.posted && r.log == s1.log)
  {
  }

  /**
   A closing stream that still has something to send posts its close packet in the moment the last of it goes out, behind
   it, and not before.
   */
  lemma ClosesBehindTheLast(s: State, ts: int)
    requires s.status.Closing? && s.sendID != 0 && !s.eof && |s.sent| < s.rate.window
    ensures var r := SendBuffer(s, ts);
            && |r.log| > |s.log| && r.status.Closing?
            && (if r.eof then PostsClose(s, r) else r.posted == s.posted)
  {
    var numMsgs := s.rate.window - |s.sent|;
    FillKeepsPosted(s, numMsgs, s.last < 0);
    DispatchCloses(s, Fill(s, numMsgs, s.last < 0), ts);
  }

  /** With nothing to send any more, it is Closed by the ack that leaves nothing outstanding, and by no other. */
  lemma ClosedByTheLastAck(s: State, p: Packet, ts: int)
    requires s.status.Closing? && s.eof
    ensures var r := ProcessAck(s, p, ts);
            if Unacked(s.sent, p) == [] then r.status.Closed? && r.deleted && PostsClose(s, r) else r.status.Closing? && r.posted == s.posted
  {
    var s1 := DropAcked(s, p, ts);
    var s2 := s1.(numResends := 0);
    assert Fill(s2, s2.rate.window - |s2.sent|, s2.last < 0) == s2;
    assert SendBuffer(s2, ts) == s2;
  }

  /** Closing an open stream ends it at once if and only if everything was sent and acknowledged. */
  lemma ClosedAtOnce(s: State)
    requires s.status.Open?
    ensures var r := Close(s);
            if s.sent == [] && s.eof then r.status.Closed? && r.deleted && PostsClose(s, r) else r.status.Closing? && r.posted == s.posted
  {
  }

  /** A close packet goes out once and is never outstanding, so it is never sent again. */
  lemma CloseIsNotResent(s: State)
    requires SenderOk(s) && s.posted != []
    ensures RunPosted(s).sent == s.sent && RunPosted(s).outbox == s.outbox + [s.posted[0]] && s.posted[0].close
  {
  }

  // ---------------------------------------------------------------- reset

  ghost predicate IsReset(s: State) {
    s.status.Reset? && s.deleted
  }

  lemma ProcessKeepsReset(s: State, p: Packet)
    requires IsReset(s)
    ensures IsReset(ProcessPacket(s, p)) && |ProcessPacket(s, p).saved| == |s.saved|
  {
  }

  lemma {:induction false} DrainKeepsReset(s: State)
    requires IsReset(s)
    ensures IsReset(Drain(s))
    decreases |s.saved|
  {
    if s.saved != [] && s.saved[0].seqn == AsUint32(s.last + 1) {
      var s1 := s.(saved := s.saved[1..]);
      ProcessKeepsReset(s1, s.saved[0]);
      DrainKeepsReset(ProcessPacket(s1, s.saved[0]));
    }
  }

  lemma {:induction false} SendKeepsReset(s: State, ts: int)
    requires IsReset(s)
    ensures IsReset(SendBuffer(s, ts))
  {
    var numMsgs := s.rate.window - |s.sent|;
    if numMsgs > 0 {
      FillKeepsReset(s, numMsgs, s.last < 0);
    }
  }

  lemma {:induction false} FillKeepsReset(s: State, numMsgs: int, isNoAck: bool)
    requires IsReset(s)
    ensures IsReset(Fill(s, numMsgs, isNoAck))
    decreases if numMsgs > 0 then numMsgs else 0
  {
    if CanSend(s, numMsgs) {
      FillKeepsReset(AfterPacket(s, NextPacket(s, isNoAck)), numMsgs - 1, isNoAck);
    }
  }

  lemma EndedResets(s: State, p: Packet)
    requires p.close || p.badSignature
    ensures IsReset(ProcessPacket(s, p)) && |ProcessPacket(s, p).posted| > |s.posted|
  {
  }

  /** A packet taken in sequence that closes the stream, or whose signature is wrong, resets it whatever its status was. */
  lemma ResetBy(s: State, p: Packet, ts: int)
    requires p.close || p.badSignature
    ensures IsReset(TakeInSequence(s, p, ts))
  {
    var s1 := ProcessPacket(s, p);
    EndedResets(s, p);
    DrainKeepsReset(s1);
    SendKeepsReset(Drain(s1), ts);
  }

  /** Any other packet, with none such behind it, leaves the status alone. */
  lemma NotResetBy(s: State, p: Packet)
    requires !p.close && !p.badSignature
    ensures ProcessPacket(s, p).status == s.status && ProcessPacket(s, p).posted == s.posted
  {
  }

  // ---------------------------------------------------------------- acks and addresses

  /** Once a packet has gone out, the ack that was to follow by itself is not sent. */
  lemma NoAckAfterSending(s: State, ts: int)
    ensures s.posted != [] ==> HandleAckSendTimer(RunPosted(s)) == RunPosted(s)
    ensures |SendBuffer(s, ts).log| > |s.log| ==> HandleAckSendTimer(SendBuffer(s, ts)) == SendBuffer(s, ts)
  {
  }

  lemma TakeAckKeepsLast(s: State, p: Packet, ts: int)
    ensures TakeAck(s, p, ts).last == s.last
  {
  }

  /**
   A close packet sent before the stream knew its peer names no stream to go to; it finds the one that sends to its own
   number, and ends it if it comes in sequence.
   */
  lemma EarlyCloseArrives(a: State, x: State, ts: int)
    requires a.sendID == 0 && 1 <= a.seqNum < SEQN_LIMIT && x.sendID == a.recvID && !x.deleted && x.last + 1 == a.seqNum
    ensures IsReset(StreamStep(x, [ClosePacket(a)], Deliver(0, ts)))
  {
    var p := ClosePacket(a);
    assert Routed(x, p);
    TakeAckKeepsLast(x, p, ts);
    ResetBy(TakeAck(x, p, ts), p, ts);
    assert AsInt32(p.seqn) == p.seqn;
    assert StreamStep(x, [p], Deliver(0, ts)) == HandleNextPacket(x, p, ts);
  }
}
