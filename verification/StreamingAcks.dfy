/**
 Acknowledgements tell the truth, and nothing unacknowledged is forgotten - exactly when the code's side
 conditions hold.
 */
module StreamingAcks {
  import opened Bytes
  import opened StreamingSpec
  import opened StreamingInvariants
  import opened StreamingProtocol

  // ---------------------------------------------------------------- the quick ack

  /** The missing numbers below the saved packets, counted from `next`. */
  function Missing(ps: seq<Packet>, next: nat): seq<nat> {
    if ps == [] then [] else Range(next, ps[0].seqn) + Missing(ps[1..], ps[0].seqn + 1)
  }

  ghost predicate Has(ps: seq<Packet>, n: nat) {
    exists i :: 0 <= i < |ps| && ps[i].seqn == n
  }

  lemma {:induction false} RangeOk(lo: nat, hi: int)
    ensures |Range(lo, hi)| == if lo < hi then hi - lo else 0
    ensures forall n: nat :: n in Range(lo, hi) <==> lo <= n < hi
    decreases hi - lo
  {
    if lo < hi {
      RangeOk(lo, hi - 1);
    }
  }

  ghost predicate Ascending(ps: seq<Packet>, next: nat) {
    && (forall i :: 0 <= i < |ps| ==> next <= ps[i].seqn < SEQN_LIMIT)
    && (forall i, j :: 0 <= i < j < |ps| ==> ps[i].seqn < ps[j].seqn)
  }

  lemma HasSplit(ps: seq<Packet>, n: nat)
    requires ps != []
    ensures Has(ps, n) <==> ps[0].seqn == n || Has(ps[1..], n)
  {
    if Has(ps[1..], n) {
      var i :| 0 <= i < |ps[1..]| && ps[1..][i].seqn == n;
      assert ps[i + 1].seqn == n;
    }
    if Has(ps, n) && ps[0].seqn != n {
      var i :| 0 <= i < |ps| && ps[i].seqn == n;
      assert ps[1..][i - 1].seqn == n;
    }
  }

  /** `Missing` lists exactly the numbers up to the last saved one that were not saved. */
  lemma {:induction false} MissingOk(ps: seq<Packet>, next: nat, n: nat)
    requires Ascending(ps, next)
    ensures n in Missing(ps, next) <==> ps != [] && next <= n < ps[|ps| - 1].seqn && !Has(ps, n)
  {
    if ps != [] {
      RangeOk(next, ps[0].seqn);
      HasSplit(ps, n);
      var rest := ps[1..];
      assert Ascending(rest, ps[0].seqn + 1);
      MissingOk(rest, ps[0].seqn + 1, n);
      if rest != [] {
        assert rest[|rest| - 1] == ps[|ps| - 1];
      }
      if Has(rest, n) {
        var i :| 0 <= i < |rest| && rest[i].seqn == n;
        assert rest[i].seqn >= ps[0].seqn + 1;
      }
    }
  }

  /** With fewer than 256 numbers missing the scan lists them all and leaves ackThrough alone. */
  lemma {:induction false} NackScanAll(ps: seq<Packet>, next: nat, through: nat, nacks: seq<nat>)
    requires Ascending(ps, next) && |nacks| + |Missing(ps, next)| <= 255
    ensures NackScan(ps, next, through, nacks) == (through, nacks + Missing(ps, next))
  {
    if ps != [] {
      RangeOk(next, ps[0].seqn);
      var more := nacks + Range(next, ps[0].seqn);
      assert Ascending(ps[1..], ps[0].seqn + 1);
      NackScanAll(ps[1..], ps[0].seqn + 1, through, more);
      ConcatAssociates(nacks, Range(next, ps[0].seqn), Missing(ps[1..], ps[0].seqn + 1));
    } else {
      assert nacks + [] == nacks;
    }
  }

  /** With 256 or more missing the scan ends with ackThrough on a missing number that is not NACKed. */
  lemma {:induction false} NackScanOverflow(ps: seq<Packet>, next: nat, through: nat, nacks: seq<nat>)
    requires Ascending(ps, next) && |nacks| <= 255 && |nacks| + |Missing(ps, next)| >= 256
    requires forall n :: n in nacks ==> n < next
    ensures var (t, ns) := NackScan(ps, next, through, nacks); t !in ns && next <= t && !Has(ps, t)
  {
    assert ps != [];
    RangeOk(next, ps[0].seqn);
    if |nacks| + AsUint32(ps[0].seqn - next) >= 256 {
      assert next < ps[0].seqn && forall i :: 0 <= i < |ps| ==> ps[0].seqn <= ps[i].seqn;
    } else {
      assert Ascending(ps[1..], ps[0].seqn + 1);
      var more := nacks + Range(next, ps[0].seqn);
      NackScanOverflow(ps[1..], ps[0].seqn + 1, through, more);
      HasSplit(ps, NackScan(ps, next, through, nacks).0);
    }
  }

  ghost predicate TrueAck(p: Packet, s: State) {
    p.noAck || forall n: nat :: Claims(p, n) ==> Holds(s, n)
  }

  function NumMissing(s: State): nat
    requires s.last >= -1
  {
    |Missing(s.saved, s.last + 1)|
  }

  lemma SavedAscending(s: State, log: seq<Packet>)
    requires ReceiverOk(s, log) && |log| < MAX_PACKETS
    ensures Ascending(s.saved, s.last + 1)
  {
  }

  lemma QuickAckHolds(s: State, log: seq<Packet>, n: nat)
    requires ReceiverOk(s, log) && |log| < MAX_PACKETS && s.last >= 0 && NumMissing(s) <= 255
    ensures Claims(QuickAck(s), n) <==> Holds(s, n)
  {
    SavedAscending(s, log);
    if s.saved != [] {
      var top := s.saved[|s.saved| - 1].seqn;
      NackScanAll(s.saved, s.last + 1, top, []);
      assert [] + Missing(s.saved, s.last + 1) == Missing(s.saved, s.last + 1);
      MissingOk(s.saved, s.last + 1, n);
      assert s.saved[|s.saved| - 1].seqn == top;
    }
  }

  /** A quick ack says exactly what the stream holds; and it is truthful if and only if at most 255 numbers
      are missing. */
  lemma QuickAckExact(s: State, log: seq<Packet>)
    requires ReceiverOk(s, log) && |log| < MAX_PACKETS && s.last >= 0
    ensures TrueAck(QuickAck(s), s) <==> NumMissing(s) <= 255
    ensures NumMissing(s) <= 255 ==> forall n: nat :: Claims(QuickAck(s), n) <==> Holds(s, n)
  {
    SavedAscending(s, log);
    if NumMissing(s) <= 255 {
      forall n: nat ensures Claims(QuickAck(s), n) <==> Holds(s, n) {
        QuickAckHolds(s, log, n);
      }
    } else {
      NackScanOverflow(s.saved, s.last + 1, Top(s), []);
      var t := QuickAck(s).ackThrough;
      assert Claims(QuickAck(s), t) && !Holds(s, t);
    }
  }

  // ---------------------------------------------------------------- what is held stays held

  ghost predicate HoldsMore(s: State, r: State) {
    forall n: nat :: Holds(s, n) ==> Holds(r, n)
  }

  lemma {:induction false} DrainHolds(s: State, n: nat)
    requires Holds(s, n) && -1 <= s.last < SEQN_LIMIT && (forall i :: 0 <= i < |s.saved| ==> s.saved[i].seqn < SEQN_LIMIT && !s.saved[i].badSignature)
    ensures Holds(Drain(s), n)
    decreases |s.saved|
  {
    if s.saved != [] && s.saved[0].seqn == AsUint32(s.last + 1) {
      var s1 := ProcessPacket(s.(saved := s.saved[1..]), s.saved[0]);
      assert s1.last == s.last + 1 && s1.saved == s.saved[1..];
      if n > s.last && n != s.saved[0].seqn {
        var i :| 0 <= i < |s.saved| && s.saved[i].seqn == n;
        assert s1.saved[i - 1].seqn == n;
      }
      DrainHolds(s1, n);
      assert Drain(s) == Drain(s1);
    }
  }

  lemma InSequenceHolds(s: State, p: Packet, ts: int, log: seq<Packet>)
    requires ReceiverOk(s, log) && LogOk(log) && Logged(p, log) && |log| < MAX_PACKETS
    requires p.seqn == s.last + 1 || (p.syn && SynAllowed(s, p))
    ensures HoldsMore(s, TakeInSequence(s, p, ts)) && TakeInSequence(s, p, ts).last >= 0
  {
    var s1 := ProcessPacket(s, p);
    assert s1.last == p.seqn >= s.last && s1.saved == s.saved;
    var s2 := Drain(s1);
    forall n: nat | Holds(s, n) ensures Holds(s2, n) {
      DrainHolds(s1, n);
    }
    assert Holds(s1, 0);
    DrainHolds(s1, 0);
    DrainLast(s1);
    assert SameReceiver(s2, TakeInSequence(s, p, ts));
  }

  lemma {:induction false} DrainLast(s: State)
    requires -1 <= s.last < SEQN_LIMIT && (forall i :: 0 <= i < |s.saved| ==> s.saved[i].seqn < SEQN_LIMIT)
    ensures s.last <= Drain(s).last
    decreases |s.saved|
  {
    if s.saved != [] && s.saved[0].seqn == AsUint32(s.last + 1) {
      var s1 := ProcessPacket(s.(saved := s.saved[1..]), s.saved[0]);
      assert s1.last == s.last + 1;
      DrainLast(s1);
      assert Drain(s) == Drain(s1);
    }
  }

  lemma TakeEarlyHolds(s: State, p: Packet, log: seq<Packet>)
    requires ReceiverOk(s, log) && LogOk(log) && Logged(p, log) && p.seqn > s.last + 1
    ensures HoldsMore(s, TakeEarly(s, p))
  {
    InsertSavedOk(s.saved, p, log);
    var r := TakeEarly(s, p);
    assert r.last == s.last && r.saved == InsertSaved(s.saved, p);
    forall n: nat | Holds(s, n) ensures Holds(r, n) {
      if n > s.last {
        var i :| 0 <= i < |s.saved| && s.saved[i].seqn == n;
        assert s.saved[i] in s.saved;
        assert s.saved[i] in r.saved;
      }
    }
  }

  /** The outbox of `r` holds only what was sent before `s`, numbered packets, and quick acks `r` could send. */
  ghost predicate OutboxFrom(s: State, r: State) {
    forall p :: p in r.outbox ==> p in s.outbox || p in r.log || (r.last >= 0 && p == QuickAck(r))
  }

  lemma QuickAckOutbox(s: State, t: State)
    requires SendsNumbered(s, t) && t.last >= -1 && (t.last < 0 ==> t.saved == [])
    ensures OutboxFrom(s, SendQuickAck(t)) && SameReceiver(t, SendQuickAck(t))
  {
    var r := SendQuickAck(t);
    if Top(t) >= 0 {
      assert QuickAck(r) == QuickAck(t);
    }
  }

  lemma TakeNumberedHolds(s: State, p: Packet, ts: int, log: seq<Packet>)
    requires ReceiverOk(s, log) && LogOk(log) && Genuine(p, log) && SynAllowed(s, p) && |log| < MAX_PACKETS
    ensures var r := TakeNumbered(s, p, ts); HoldsMore(s, r) && OutboxFrom(s, r)
  {
    assert AsInt32(p.seqn) == p.seqn;
    if p.seqn == 0 && !p.syn {
      assert TakeNumbered(s, p, ts) == s;
    } else if p.syn || p.seqn == s.last + 1 {
      InSequenceHolds(s, p, ts, log);
      assert TakeNumbered(s, p, ts) == TakeInSequence(s, p, ts);
    } else if p.seqn <= s.last {
      QuickAckOutbox(s, s);
      assert TakeNumbered(s, p, ts) == SendQuickAck(s);
    } else {
      TakeEarlyHolds(s, p, log);
      var s1 := s.(saved := InsertSaved(s.saved, p), ackScheduled := s.last < 0);
      if s.last >= 0 {
        QuickAckOutbox(s, s1);
        assert TakeEarly(s, p) == SendQuickAck(s1);
      }
      assert TakeNumbered(s, p, ts) == TakeEarly(s, p);
    }
  }

  lemma OutboxOnward(s: State, t: State, r: State)
    requires SendsNumbered(s, t) && OutboxFrom(t, r) && t.log <= r.log
    ensures OutboxFrom(s, r)
  {
    forall p | p in t.log ensures p in r.log {
      var i :| 0 <= i < |t.log| && t.log[i] == p;
      assert r.log[i] == p;
    }
  }

  lemma DeliverHolds(x: State, p: Packet, ts: int, log: seq<Packet>)
    requires SenderOk(x) && ReceiverOk(x, log) && LogOk(log) && |x.log| < MAX_PACKETS && |log| < MAX_PACKETS
    requires Genuine(p, log) && SynAllowed(x, p)
    ensures var r := HandleNextPacket(x, p, ts); HoldsMore(x, r) && OutboxFrom(x, r)
  {
    TakeAckOk(x, p, ts, log);
    var x1 := TakeAck(x, p, ts);
    TakeNumberedHolds(x1, p, ts, log);
    TakeNumberedOk(x1, p, ts, log);
    OutboxOnward(x, x1, TakeNumbered(x1, p, ts));
  }

  lemma TimersHold(x: State, ts: int)
    requires SenderOk(x) && |x.log| < MAX_PACKETS
    ensures var r := HandleResendTimer(x, ts); HoldsMore(x, r) && OutboxFrom(x, r)
    ensures x.posted != [] ==> HoldsMore(x, RunPosted(x)) && OutboxFrom(x, RunPosted(x))
  {
    HandleResendTimerOk(x, ts);
    DueOk(x.sent, ts, x.rate.rto, x.log);
    if x.posted != [] {
      assert x.posted[0] in x.log;
    }
  }

  lemma AckTimerHolds(x: State)
    requires SenderOk(x)
    ensures var r := HandleAckSendTimer(x); HoldsMore(x, r) && OutboxFrom(x, r)
  {
    if x.ackScheduled && x.last >= 0 && x.status.Open? {
      QuickAckOutbox(x, x);
      assert HandleAckSendTimer(x) == SendQuickAck(x).(ackScheduled := false);
      assert QuickAck(HandleAckSendTimer(x)) == QuickAck(SendQuickAck(x));
    }
  }

  lemma OtherStepHolds(x: State, net: seq<Packet>, act: Action)
    requires SenderOk(x) && |x.log| < MAX_PACKETS && !act.Deliver?
    ensures var r := StreamStep(x, net, act); HoldsMore(x, r) && OutboxFrom(x, r)
  {
    match act
    case ResendTimer(ts) =>
      TimersHold(x, ts);
      assert StreamStep(x, net, act) == HandleResendTimer(x, ts);
    case AckTimer =>
      AckTimerHolds(x);
      assert StreamStep(x, net, act) == HandleAckSendTimer(x);
    case Posted =>
      TimersHold(x, 0);
      assert StreamStep(x, net, act) == if x.posted != [] then RunPosted(x) else x;
    case Pump(ts) => assert StreamStep(x, net, act) == SendBuffer(x, ts);
    case DoClose => assert StreamStep(x, net, act) == Close(x);
    case DoRead(size) => assert StreamStep(x, net, act) == ReadSome(x, size);
    case DoWrite(data) => assert StreamStep(x, net, act) == Write(x, data);
  }

  lemma StreamStepHolds(x: State, net: seq<Packet>, act: Action, log: seq<Packet>)
    requires SenderOk(x) && ReceiverOk(x, log) && LogOk(log) && |x.log| < MAX_PACKETS && |log| < MAX_PACKETS
    requires forall i :: 0 <= i < |net| ==> Genuine(net[i], log)
    requires act.Deliver? && act.index < |net| && Routed(x, net[act.index]) ==> SynAllowed(x, net[act.index])
    ensures var r := StreamStep(x, net, act); HoldsMore(x, r) && OutboxFrom(x, r)
  {
    if act.Deliver? {
      if act.index < |net| && Routed(x, net[act.index]) {
        DeliverHolds(x, net[act.index], act.ts, log);
        assert StreamStep(x, net, act) == HandleNextPacket(x, net[act.index], act.ts);
      } else {
        assert StreamStep(x, net, act) == x;
      }
    } else {
      OtherStepHolds(x, net, act);
    }
  }
}
