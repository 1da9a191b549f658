/**
 Packets of a stream that is not the peer. A repeated SYN opens another stream at the acceptor's destination, and
 everything that stream sends carries the opener's number: the opener takes it as if it came from its peer.
 */
module StreamingForeign {
  import opened Bytes
  import opened StreamingSpec
  import opened StreamingInvariants

  /** A packet as streams build them: numbered below 2^31, a SYN only as number 0. */
  predicate WellBuilt(p: Packet) {
    p.seqn < MAX_PACKETS && !p.badSignature && (p.syn ==> p.seqn == 0 && !p.close)
  }

  /**
   When taking `p` keeps the bytes received equal to the first ones of `log`: it is a plain ack, its number is held
   already, or it brings the bytes the peer sent under that number. A SYN is taken as next in sequence even after others.
   */
  ghost predicate Harmless(s: State, p: Packet, log: seq<Packet>) {
    if p.syn then
      log != [] && ((s.last == -1 && p.payload == log[0].payload) || (s.last == 0 && p.payload == []))
    else
      || p.seqn == 0
      || Holds(s, p.seqn)
      || (p.seqn == s.last + 1 && p.seqn < |log| && p.payload == log[p.seqn].payload)
      || (p.seqn > s.last + 1 && Logged(p, log))
  }

  /** Logs with the same payloads. */
  predicate SamePayloads(log: seq<Packet>, log': seq<Packet>) {
    |log| == |log'| && forall i :: 0 <= i < |log| ==> log[i].payload == log'[i].payload
  }

  lemma {:induction false} PayloadsSame(log: seq<Packet>, log': seq<Packet>, k: nat)
    requires SamePayloads(log, log') && k <= |log|
    ensures Payloads(log[..k]) == Payloads(log'[..k])
  {
    if k > 0 {
      PayloadsSame(log, log', k - 1);
      assert log[..k][..k - 1] == log[..k - 1] && log'[..k][..k - 1] == log'[..k - 1];
    }
  }

  /** Only what is saved has to stand in the log itself. */
  lemma SameReceiving(s: State, log: seq<Packet>, log': seq<Packet>)
    requires ReceiverOk(s, log) && SamePayloads(log, log')
    requires forall i :: 0 <= i < |s.saved| ==> Logged(s.saved[i], log')
    ensures ReceiverOk(s, log')
  {
    PayloadsSame(log, log', s.last + 1);
  }

  /** The log with `p` under its number. */
  function With(log: seq<Packet>, p: Packet): seq<Packet>
    requires p.seqn < |log|
  {
    log[p.seqn := p]
  }

  /** Taken as next in sequence, `p` brings what the log has under its number. */
  ghost predicate Replaces(s: State, p: Packet, log: seq<Packet>) {
    p.seqn < |log| && p.payload == log[p.seqn].payload && (p.syn || (p.seqn != 0 && p.seqn == s.last + 1))
  }

  /** A packet that is next in sequence and brings the peer's bytes could as well be the peer's. */
  lemma StandsInLog(s: State, p: Packet, log: seq<Packet>)
    requires ReceiverOk(s, log) && LogOk(log) && WellBuilt(p) && p.seqn == s.last + 1
    requires p.seqn < |log| && p.payload == log[p.seqn].payload
    ensures ReceiverOk(s, With(log, p)) && LogOk(With(log, p)) && Logged(p, With(log, p))
  {
    SameReceiving(s, log, With(log, p));
  }

  /** Draining takes from the saved packets and adds none. */
  lemma {:induction false} DrainSaved(s: State)
    ensures |Drain(s).saved| <= |s.saved| && Drain(s).saved == s.saved[|s.saved| - |Drain(s).saved|..]
    decreases |s.saved|
  {
    if s.saved != [] && s.saved[0].seqn == AsUint32(s.last + 1) {
      var s1 := ProcessPacket(s.(saved := s.saved[1..]), s.saved[0]);
      assert s1.saved == s.saved[1..];
      DrainSaved(s1);
      assert Drain(s) == Drain(s1);
    }
  }

  /** A repeated empty SYN is answered again, and that is all. */
  lemma EmptySynAgain(s: State, p: Packet, ts: int)
    requires NextMissing(s) && WellBuilt(p) && p.syn && p.payload == [] && s.last == 0
    ensures TakeNumbered(s, p, ts) == Respond(s, true, ts)
  {
    assert ProcessPacket(s, p) == s && Drain(s) == s;
  }

  /** Of a packet whose number is held already only the number matters. */
  lemma HeldAlready(s: State, p: Packet, q: Packet, ts: int)
    requires !p.syn && !q.syn && p.seqn == q.seqn && 0 < p.seqn < MAX_PACKETS && Holds(s, p.seqn) && NextMissing(s) && s.last >= -1
    requires forall i, j :: 0 <= i < j < |s.saved| ==> s.saved[i].seqn < s.saved[j].seqn
    ensures TakeNumbered(s, p, ts) == TakeNumbered(s, q, ts)
  {
    assert AsInt32(p.seqn) == p.seqn && p.seqn != s.last + 1;
    if p.seqn <= s.last {
      assert TakeNumbered(s, p, ts) == SendQuickAck(s);
    } else {
      var i :| 0 <= i < |s.saved| && s.saved[i].seqn == p.seqn;
      InsertHeld(s.saved, p, i);
      InsertHeld(s.saved, q, i);
      assert TakeNumbered(s, p, ts) == TakeEarly(s, p);
    }
  }

  lemma {:induction false} InsertHeld(ps: seq<Packet>, p: Packet, i: nat)
    requires i < |ps| && ps[i].seqn == p.seqn && forall i, j :: 0 <= i < j < |ps| ==> ps[i].seqn < ps[j].seqn
    ensures InsertSaved(ps, p) == ps
    decreases |ps|
  {
    if i > 0 {
      InsertHeld(ps[1..], p, i - 1);
      assert ps == [ps[0]] + ps[1..];
    }
  }

  /**
   A harmless packet is handled either as a repeated empty SYN or exactly as some packet `q` that is genuine for a log
   `log'` with the same payloads; `again` tells which.
   */
  lemma HarmlessStands(s: State, p: Packet, ts: int, log: seq<Packet>) returns (again: bool, q: Packet, log': seq<Packet>)
    requires ReceiverOk(s, log) && LogOk(log) && WellBuilt(p) && Harmless(s, p, log)
    ensures again ==> s.last == 0 && TakeNumbered(s, p, ts) == Respond(s, true, ts)
    ensures !again ==>
              && TakeNumbered(s, p, ts) == TakeNumbered(s, q, ts) && q.seqn == p.seqn
              && ReceiverOk(s, log') && LogOk(log') && SamePayloads(log, log') && Genuine(q, log') && SynAllowed(s, q)
    ensures !again ==> log' == log || (Replaces(s, p, log) && log' == With(log, p) && q == p)
  {
    again, q, log' := false, p, log;
    if p.syn {
      if s.last == 0 {
        EmptySynAgain(s, p, ts);
        again := true;
      } else {
        StandsInLog(s, p, log);
        log' := With(log, p);
      }
    } else if p.seqn == 0 {
    } else if Holds(s, p.seqn) {
      if p.seqn <= s.last {
        q := log[p.seqn];
      } else {
        var i :| 0 <= i < |s.saved| && s.saved[i].seqn == p.seqn;
        q := s.saved[i];
      }
      HeldAlready(s, p, q, ts);
    } else if p.seqn == s.last + 1 {
      StandsInLog(s, p, log);
      log' := With(log, p);
    }
  }

  /** What is saved after a packet next in sequence was saved before. */
  lemma InSequenceSaved(s: State, p: Packet, ts: int)
    requires !p.badSignature
    ensures var r := TakeInSequence(s, p, ts); |r.saved| <= |s.saved| && r.saved == s.saved[|s.saved| - |r.saved|..]
  {
    var s1 := ProcessPacket(s, p);
    assert s1.saved == s.saved;
    DrainSaved(s1);
    assert SameReceiver(Drain(s1), TakeInSequence(s, p, ts));
  }

  lemma NextIsTaken(s: State, p: Packet, ts: int)
    requires WellBuilt(p) && (p.syn || (p.seqn != 0 && p.seqn == s.last + 1))
    ensures TakeNumbered(s, p, ts) == TakeInSequence(s, p, ts)
  {
    assert AsInt32(p.seqn) == p.seqn;
  }

  /** Back from the log with `p` in it to the peer's own. */
  lemma BackToLog(s: State, p: Packet, ts: int, log: seq<Packet>)
    requires ReceiverOk(s, log) && WellBuilt(p) && Replaces(s, p, log) && ReceiverOk(TakeInSequence(s, p, ts), With(log, p))
    ensures ReceiverOk(TakeInSequence(s, p, ts), log)
  {
    var r := TakeInSequence(s, p, ts);
    InSequenceSaved(s, p, ts);
    forall i | 0 <= i < |r.saved| ensures Logged(r.saved[i], log) {
      assert r.saved[i] == s.saved[|s.saved| - |r.saved| + i];
    }
    SameReceiving(r, With(log, p), log);
  }

  lemma HarmlessNumberedOk(s: State, p: Packet, ts: int, log: seq<Packet>)
    requires SenderOk(s) && ReceiverOk(s, log) && LogOk(log) && WellBuilt(p) && Harmless(s, p, log)
    requires |s.log| <= MAX_PACKETS + MAX_WINDOW_SIZE + 2 && |log| < MAX_PACKETS
    ensures var r := TakeNumbered(s, p, ts); SenderOk(r) && Progress(s, r) && ReceiverOk(r, log)
  {
    var again, q, log' := HarmlessStands(s, p, ts, log);
    if again {
      RespondOk(s, true, ts, log);
    } else {
      TakeNumberedOk(s, q, ts, log');
      if log' != log {
        NextIsTaken(s, p, ts);
        BackToLog(s, p, ts, log);
      }
    }
  }

  /** One harmless packet of another stream keeps both halves of the stream. */
  lemma HandleHarmlessOk(s: State, p: Packet, ts: int, log: seq<Packet>)
    requires SenderOk(s) && ReceiverOk(s, log) && LogOk(log) && WellBuilt(p) && Harmless(s, p, log)
    requires |s.log| < MAX_PACKETS && |log| < MAX_PACKETS
    ensures var r := HandleNextPacket(s, p, ts); SenderOk(r) && Progress(s, r) && ReceiverOk(r, log)
  {
    TakeAckOk(s, p, ts, log);
    var s1 := TakeAck(s, p, ts);
    HarmlessNumberedOk(s1, p, ts, log);
    Onward(s, s1, TakeNumbered(s1, p, ts));
  }
}
