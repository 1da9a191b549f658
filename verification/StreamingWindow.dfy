/**
 The window and the round-trip time: how acknowledgements open the window and timeouts close it, over single handlers and
 over runs, in numbers.
 */
module StreamingWindow {
  import opened Bytes
  import opened StreamingSpec
  import opened StreamingInvariants
  import opened StreamingProtocol

  // ---------------------------------------------------------------- only acks and timeouts change the rate

  lemma SendBufferRate(s: State, ts: int)
    ensures SendBuffer(s, ts).rate == s.rate
  {
  }

  lemma CloseRate(s: State)
    ensures Close(s).rate == s.rate
  {
  }

  lemma {:induction false} DrainRate(s: State)
    ensures Drain(s).rate == s.rate
    decreases |s.saved|
  {
    if s.saved != [] && s.saved[0].seqn == AsUint32(s.last + 1) {
      var s1 := s.(saved := s.saved[1..]);
      ProcessPacketRate(s1, s.saved[0]);
      DrainRate(ProcessPacket(s1, s.saved[0]));
    }
  }

  lemma ProcessPacketRate(s: State, p: Packet)
    ensures ProcessPacket(s, p).rate == s.rate && |ProcessPacket(s, p).saved| == |s.saved|
  {
  }

  lemma TakeNumberedRate(s: State, p: Packet, ts: int)
    ensures TakeNumbered(s, p, ts).rate == s.rate
  {
    var s1 := ProcessPacket(s, p);
    ProcessPacketRate(s, p);
    DrainRate(s1);
    SendBufferRate(Drain(s1), ts);
  }

  lemma ProcessAckRate(s: State, p: Packet, ts: int)
    ensures ProcessAck(s, p, ts).rate == AckAll(s.rate, Acked(s.sent, p), ts)
  {
    var s1 := DropAcked(s, p, ts);
    SendBufferRate(s1.(numResends := 0), ts);
  }

  lemma {:induction false} HandleRate(s: State, p: Packet, ts: int)
    ensures HandleNextPacket(s, p, ts).rate == if p.noAck then s.rate else ProcessAck(s, p, ts).rate
  {
    TakeNumberedRate(TakeAck(s, p, ts), p, ts);
    ProcessAckRate(s, p, ts);
    ProcessAckRate(s.(sendID := p.recvID), p, ts);
  }

  /** How many outstanding packets the ack takes out. */
  function Taken(s: State, p: Packet): int {
    |s.sent| - |Unacked(s.sent, p)|
  }

  lemma {:induction false} TakenIsAcked(es: seq<SentPacket>, p: Packet)
    ensures |es| == |Unacked(es, p)| + |Acked(es, p)|
    ensures forall e :: e in Acked(es, p) <==> e in es && Claims(p, e.packet.seqn)
  {
    if es != [] {
      TakenIsAcked(es[1..], p);
      assert es == [es[0]] + es[1..];
    }
  }

  // ---------------------------------------------------------------- the round-trip time

  lemma AverageBounds(rtt: int, seqn: nat, sample: int, lo: int, hi: int)
    requires lo <= rtt <= hi && lo <= sample <= hi
    ensures lo <= Average(rtt, seqn, sample) <= hi
  {
    var sum := rtt * seqn + sample;
    Between(rtt, seqn, lo, hi);
    FloorBounds(sum, seqn + 1, lo, hi);
  }

  lemma Between(rtt: int, n: nat, lo: int, hi: int)
    requires lo <= rtt <= hi
    ensures lo * n <= rtt * n <= hi * n
  {
  }

  lemma FloorBounds(sum: int, n: int, lo: int, hi: int)
    requires n > 0 && lo * n <= sum <= hi * n
    ensures lo <= sum / n <= hi
  {
    var q := sum / n;
    assert q * n <= sum < (q + 1) * n;
    Times(q + 1, lo, n);
    Times(hi + 1, q, n);
  }

  lemma Times(a: int, b: int, n: int)
    requires n > 0
    ensures a <= b ==> a * n <= b * n
  {
  }

  /** Every sample of the packets `es` at time `ts` lies in between. */
  predicate Samples(es: seq<SentPacket>, ts: int, lo: int, hi: int) {
    forall i :: 0 <= i < |es| ==> lo <= ts - es[i].sendTime <= hi
  }

  lemma {:induction false} AckAllRtt(r: Rate, es: seq<SentPacket>, ts: int, lo: int, hi: int)
    requires lo <= r.rtt <= hi && Samples(es, ts, lo, hi)
    ensures var r' := AckAll(r, es, ts); lo <= r'.rtt <= hi && (es != [] ==> r'.rto == r'.rtt * 3 / 2)
    decreases |es|
  {
    if es != [] {
      AverageBounds(r.rtt, es[0].packet.seqn, ts - es[0].sendTime, lo, hi);
      var r1 := AckOne(r, es[0], ts);
      AckAllRtt(r1, es[1..], ts, lo, hi);
      assert es[1..] == [] ==> AckAll(r1, es[1..], ts) == r1;
    }
  }

  // ---------------------------------------------------------------- one ack

  /** Every packet taken out adds one as long as the window is below six. */
  lemma {:induction false} AckAllSlow(r: Rate, es: seq<SentPacket>, ts: int)
    ensures var w := AckAll(r, es, ts).window;
            && (r.window + |es| <= 6 ==> w == r.window + |es|)
            && (r.window <= 6 <= r.window + |es| ==> w >= 6)
            && (6 <= r.window <= 128 ==> w >= r.window)
    decreases |es|
  {
    if es != [] {
      AckAllSlow(AckOne(r, es[0], ts), es[1..], ts);
    }
  }

  /** Slow start: an ack that takes out k packets adds k to the window up to six; from six on no ack narrows it. */
  lemma SlowStart(s: State, p: Packet, ts: int)
    ensures var w, w', k := s.rate.window, ProcessAck(s, p, ts).rate.window, Taken(s, p);
            && (w + k <= 6 ==> w' == w + k) && (w <= 6 <= w + k ==> w' >= 6) && (6 <= w <= 128 ==> w' >= w)
  {
    ProcessAckRate(s, p, ts);
    TakenIsAcked(s.sent, p);
    AckAllSlow(s.rate, Acked(s.sent, p), ts);
  }

  lemma {:induction false} AckAllSteady(r: Rate, es: seq<SentPacket>, ts: int, lo: int, hi: int)
    requires 6 <= r.window <= 128 && lo <= r.rtt <= hi && Samples(es, ts, lo, hi)
    requires ts <= r.lastIncrease + lo
    ensures AckAll(r, es, ts).window == r.window && AckAll(r, es, ts).lastIncrease == r.lastIncrease
    decreases |es|
  {
    if es != [] {
      AverageBounds(r.rtt, es[0].packet.seqn, ts - es[0].sendTime, lo, hi);
      AckAllSteady(AckOne(r, es[0], ts), es[1..], ts, lo, hi);
    }
  }

  lemma AckAllGrows(r: Rate, es: seq<SentPacket>, ts: int, hi: int)
    requires es != [] && 6 <= r.window <= 128 && 0 <= r.rtt <= hi && Samples(es, ts, 0, hi) && ts > r.lastIncrease + hi
    ensures var r' := AckAll(r, es, ts);
            r'.window == (if r.window < 128 then r.window + 1 else 128) && r'.lastIncrease == ts
  {
    AverageBounds(r.rtt, es[0].packet.seqn, ts - es[0].sendTime, 0, hi);
    AckAllSteady(AckOne(r, es[0], ts), es[1..], ts, 0, hi);
  }

  /** The samples of the packets the ack takes out lie in between. */
  predicate AckSamples(s: State, p: Packet, ts: int, lo: int, hi: int) {
    forall i :: 0 <= i < |s.sent| && Claims(p, s.sent[i].packet.seqn) ==> lo <= ts - s.sent[i].sendTime <= hi
  }

  lemma AckedSamples(s: State, p: Packet, ts: int, lo: int, hi: int)
    requires AckSamples(s, p, ts, lo, hi)
    ensures Samples(Acked(s.sent, p), ts, lo, hi)
  {
    TakenIsAcked(s.sent, p);
    var es := Acked(s.sent, p);
    forall i | 0 <= i < |es| ensures lo <= ts - es[i].sendTime <= hi {
      assert es[i] in es;
    }
  }

  /**
   From six on an ack adds one, up to 128, if it comes more than a round trip after the last time it did, and nothing if
   it comes sooner. `lo` and `hi` bound the round trips measured.
   */
  lemma LinearGrowth(s: State, p: Packet, ts: int, lo: int, hi: int)
    requires 6 <= s.rate.window <= 128 && Taken(s, p) > 0
    requires 0 <= lo <= s.rate.rtt <= hi && AckSamples(s, p, ts, lo, hi)
    ensures var r := ProcessAck(s, p, ts).rate;
            && (ts > s.rate.lastIncrease + hi ==>
                  r.window == (if s.rate.window < 128 then s.rate.window + 1 else 128) && r.lastIncrease == ts)
            && (ts <= s.rate.lastIncrease + lo ==> r.window == s.rate.window && r.lastIncrease == s.rate.lastIncrease)
  {
    ProcessAckRate(s, p, ts);
    TakenIsAcked(s.sent, p);
    AckedSamples(s, p, ts, lo, hi);
    if ts > s.rate.lastIncrease + hi {
      AckAllGrows(s.rate, Acked(s.sent, p), ts, hi);
    }
    if ts <= s.rate.lastIncrease + lo {
      AckAllSteady(s.rate, Acked(s.sent, p), ts, lo, hi);
    }
  }

  /** The round-trip time stays between the samples and the one before, and a packet is resent after one and a half of it. */
  lemma RoundTripTime(s: State, p: Packet, ts: int, lo: int, hi: int)
    requires lo <= s.rate.rtt <= hi && AckSamples(s, p, ts, lo, hi)
    ensures var r := ProcessAck(s, p, ts).rate;
            lo <= r.rtt <= hi && (if Taken(s, p) > 0 then r.rto == r.rtt * 3 / 2 else r == s.rate)
  {
    ProcessAckRate(s, p, ts);
    TakenIsAcked(s.sent, p);
    AckedSamples(s, p, ts, lo, hi);
    AckAllRtt(s.rate, Acked(s.sent, p), ts, lo, hi);
  }

  lemma {:induction false} NoneAcked(es: seq<SentPacket>, p: Packet)
    requires forall j :: 0 <= j < |es| ==> !Claims(p, es[j].packet.seqn)
    ensures Acked(es, p) == []
  {
    if es != [] {
      NoneAcked(es[1..], p);
    }
  }

  lemma {:induction false} OnlyOneAcked(es: seq<SentPacket>, p: Packet, i: nat)
    requires i < |es| && Claims(p, es[i].packet.seqn)
    requires forall j :: 0 <= j < |es| && j != i ==> !Claims(p, es[j].packet.seqn)
    ensures Acked(es, p) == [es[i]]
    decreases |es|
  {
    if i == 0 {
      NoneAcked(es[1..], p);
    } else {
      OnlyOneAcked(es[1..], p, i - 1);
    }
  }

  /**
   One packet is acknowledged: packet n, whose old round-trip time counts n times against the sample, rounded down. So
   the sample of packet 0 stands for itself. The window opens as the exact time since its last increase says.
   */
  lemma OneAck(s: State, p: Packet, ts: int, i: nat)
    requires i < |s.sent| && Claims(p, s.sent[i].packet.seqn)
    requires forall j :: 0 <= j < |s.sent| && j != i ==> !Claims(p, s.sent[j].packet.seqn)
    ensures var r, r', n := s.rate, ProcessAck(s, p, ts).rate, s.sent[i].packet.seqn;
            var total := r.rtt * n + (ts - s.sent[i].sendTime);
            && r'.rtt * (n + 1) <= total < (r'.rtt + 1) * (n + 1) && r'.rto == r'.rtt * 3 / 2
            && r'.window == (if r.window < 6 then r.window + 1
                             else if ts <= r.lastIncrease + r'.rtt then r.window
                             else if r.window + 1 > 128 then 128
                             else r.window + 1)
  {
    ProcessAckRate(s, p, ts);
    OnlyOneAcked(s.sent, p, i);
    assert [s.sent[i]][1..] == [];
    assert AckAll(s.rate, [s.sent[i]], ts) == AckOne(s.rate, s.sent[i], ts);
    Floor(s.rate.rtt * s.sent[i].packet.seqn + (ts - s.sent[i].sendTime), s.sent[i].packet.seqn + 1);
  }

  lemma Floor(total: int, n: int)
    requires n > 0
    ensures (total / n) * n <= total < (total / n + 1) * n
  {
  }

  // ---------------------------------------------------------------- runs of acks

  function Play(x: State, net: seq<Packet>, acts: seq<Action>): State
    decreases |acts|
  {
    if acts == [] then x else Play(StreamStep(x, net, acts[0]), net, acts[1..])
  }

  /** The packet delivered is for the stream and acknowledges something outstanding. */
  predicate Acks(x: State, net: seq<Packet>, act: Action) {
    && act.Deliver? && act.index < |net| && Routed(x, net[act.index]) && !net[act.index].noAck
    && Taken(x, net[act.index]) > 0
  }

  predicate TimesOut(x: State, act: Action) {
    act.ResendTimer? && x.numResends < 6 && DuePackets(x.sent, act.ts, x.rate.rto) != []
  }

  /** Nothing but an ack or a timeout touches the window or the round-trip time. */
  lemma {:induction false} QuietRate(x: State, net: seq<Packet>, act: Action)
    requires !Acks(x, net, act) && !TimesOut(x, act)
    ensures StreamStep(x, net, act).rate == x.rate
  {
    match act
    case Deliver(i, ts) =>
      if i < |net| && Routed(x, net[i]) {
        HandleRate(x, net[i], ts);
        ProcessAckRate(x, net[i], ts);
        TakenIsAcked(x.sent, net[i]);
      }
    case Pump(ts) => SendBufferRate(x, ts);
    case _ =>
  }

  /**
   No timeouts, every round trip measured takes at most `hi`, and acks that take something out come more than `hi` apart,
   `last` being the time of the one before; in between anything else may happen.
   */
  predicate Spaced(x: State, net: seq<Packet>, acts: seq<Action>, last: int, hi: int)
    decreases |acts|
  {
    acts == [] ||
    (if Acks(x, net, acts[0]) then
       && acts[0].ts > last + hi && AckSamples(x, net[acts[0].index], acts[0].ts, 0, hi)
       && Spaced(StreamStep(x, net, acts[0]), net, acts[1..], acts[0].ts, hi)
     else
       !TimesOut(x, acts[0]) && Spaced(StreamStep(x, net, acts[0]), net, acts[1..], last, hi))
  }

  function AckCount(x: State, net: seq<Packet>, acts: seq<Action>): nat
    decreases |acts|
  {
    if acts == [] then 0
    else (if Acks(x, net, acts[0]) then 1 else 0) + AckCount(StreamStep(x, net, acts[0]), net, acts[1..])
  }

  lemma {:induction false} AckStep(x: State, net: seq<Packet>, act: Action, hi: int)
    requires Acks(x, net, act) && 6 <= x.rate.window <= 128 && 0 <= x.rate.rtt <= hi
    requires AckSamples(x, net[act.index], act.ts, 0, hi) && act.ts > x.rate.lastIncrease + hi
    ensures var r := StreamStep(x, net, act).rate;
            && r.window == (if x.rate.window < 128 then x.rate.window + 1 else 128) && r.lastIncrease == act.ts && 0 <= r.rtt <= hi
  {
    var p := net[act.index];
    HandleRate(x, p, act.ts);
    LinearGrowth(x, p, act.ts, 0, hi);
    RoundTripTime(x, p, act.ts, 0, hi);
  }

  /**
   Over every run in which n such acks arrive, whatever else the stream does in between, a window of six ends at six plus
   n, and never above 128.
   */
  lemma {:induction false} WindowAfterAcks(x: State, net: seq<Packet>, acts: seq<Action>, hi: int)
    requires 6 <= x.rate.window <= 128 && 0 <= x.rate.rtt <= hi && Spaced(x, net, acts, x.rate.lastIncrease, hi)
    ensures var w := x.rate.window + AckCount(x, net, acts);
            Play(x, net, acts).rate.window == if w < 128 then w else 128
    decreases |acts|
  {
    if acts != [] {
      var x1 := StreamStep(x, net, acts[0]);
      if Acks(x, net, acts[0]) {
        AckStep(x, net, acts[0], hi);
      } else {
        QuietRate(x, net, acts[0]);
      }
      WindowAfterAcks(x1, net, acts[1..], hi);
    }
  }

  // ---------------------------------------------------------------- packets

  /** A packet built for a known peer carries 1708 bytes, or all that was left, which ends the buffer. */
  lemma {:induction false} FillSizes(s: State, numMsgs: int, isNoAck: bool, i: nat)
    requires !s.status.New? && |s.log| <= i < |Fill(s, numMsgs, isNoAck).log|
    ensures var r := Fill(s, numMsgs, isNoAck);
            |r.log[i].payload| == 1708 || (|r.log[i].payload| < 1708 && i == |r.log| - 1 && r.eof && r.buffer == [])
    decreases if numMsgs > 0 then numMsgs else 0
  {
    if CanSend(s, numMsgs) {
      var s1 := AfterPacket(s, NextPacket(s, isNoAck));
      FillPrefix(s1, numMsgs - 1, isNoAck);
      if i > |s.log| {
        FillSizes(s1, numMsgs - 1, isNoAck, i);
      }
    }
  }

  lemma {:induction false} FillPrefix(s: State, numMsgs: int, isNoAck: bool)
    requires !s.status.New?
    ensures var r := Fill(s, numMsgs, isNoAck); s.log <= r.log && r.status == s.status && (s.eof || numMsgs <= 0 ==> r == s)
    decreases if numMsgs > 0 then numMsgs else 0
  {
    if CanSend(s, numMsgs) {
      FillPrefix(AfterPacket(s, NextPacket(s, isNoAck)), numMsgs - 1, isNoAck);
    }
  }

  /** An open stream sends full packets of 1708 bytes as long as the window and the buffer allow; only the last may be shorter. */
  lemma FullPackets(s: State, ts: int, i: nat)
    requires s.status.Open? && |s.log| <= i < |SendBuffer(s, ts).log|
    ensures var r := SendBuffer(s, ts);
            |r.log[i].payload| == 1708 || (|r.log[i].payload| < 1708 && i == |r.log| - 1 && r.eof && r.buffer == [])
  {
    var numMsgs := s.rate.window - |s.sent|;
    if numMsgs > 0 {
      FillPrefix(s, numMsgs, s.last < 0);
      OpenDispatch(s, Fill(s, numMsgs, s.last < 0), ts);
      FillSizes(s, numMsgs, s.last < 0, i);
    }
  }

  lemma OpenDispatch(s: State, s1: State, ts: int)
    requires SendsNumbered(s, s1) && s1.status.Open?
    ensures var r := Dispatch(s, s1, ts); r.log == s1.log && r.eof == s1.eof && r.buffer == s1.buffer
  {
  }

  // ---------------------------------------------------------------- timeouts

  lemma {:induction false} TouchedAt(es: seq<SentPacket>, ts: int, rto: int, i: nat)
    requires i < |es|
    ensures |Touched(es, ts, rto)| == |es| && Touched(es, ts, rto)[i].packet == es[i].packet
    ensures Touched(es, ts, rto)[i].sendTime == if ts >= es[i].sendTime + rto then ts else es[i].sendTime
    ensures ts >= es[i].sendTime + rto <==> Due(es[i], ts, rto)
    ensures Due(es[i], ts, rto) ==> es[i].packet in DuePackets(es, ts, rto)
    decreases |es|
  {
    TouchedLength(es, ts, rto);
    if i > 0 {
      TouchedAt(es[1..], ts, rto, i - 1);
    }
  }

  lemma {:induction false} TouchedLength(es: seq<SentPacket>, ts: int, rto: int)
    ensures |Touched(es, ts, rto)| == |es|
    decreases |es|
  {
    if es != [] {
      TouchedLength(es[1..], ts, rto);
    }
  }

  /**
   A packet that is due goes out again and is not due before the new resend time has passed from now; one that is not due
   stays as it is.
   */
  lemma ResentLater(x: State, ts: int, i: nat, later: int)
    requires TimesOut(x, ResendTimer(ts)) && i < |x.sent|
    ensures var r := HandleResendTimer(x, ts);
            && |r.sent| == |x.sent| && r.sent[i].packet == x.sent[i].packet && x.outbox <= r.outbox
            && (if ts >= x.sent[i].sendTime + x.rate.rto then
                  r.sent[i].packet in r.outbox[|x.outbox|..] && (Due(r.sent[i], later, r.rate.rto) <==> later >= ts + r.rate.rto)
                else r.sent[i] == x.sent[i])
  {
    TouchedAt(x.sent, ts, x.rate.rto, i);
    var r := HandleResendTimer(x, ts);
    assert r.outbox[|x.outbox|..] == DuePackets(x.sent, ts, x.rate.rto);
  }

  /** One timeout after the other, at `times`, with no ack in between. */
  predicate Timeouts(x: State, times: seq<int>)
    decreases |times|
  {
    times == [] || (TimesOut(x, ResendTimer(times[0])) && Timeouts(HandleResendTimer(x, times[0]), times[1..]))
  }

  function AfterTimeouts(x: State, times: seq<int>): State
    decreases |times|
  {
    if times == [] then x else AfterTimeouts(HandleResendTimer(x, times[0]), times[1..])
  }

  /** The resend time after the n-th timeout in a row, if it was `rto` before the first: twice that, 9 s, 18 s, 36 s, ... */
  function RtoAfter(rto: int, n: nat): int {
    if n == 0 then rto
    else if n == 1 then 2 * rto
    else if n == 2 then 9000
    else 2 * RtoAfter(rto, n - 1)
  }

  lemma TimeoutStep(x: State, ts: int, rto: int, window: int)
    requires TimesOut(x, ResendTimer(ts)) && x.rate.rto == RtoAfter(rto, x.numResends)
    requires x.rate.window == (if x.numResends == 0 then window else if window < 2 then 1 else window / 2)
    ensures var r := HandleResendTimer(x, ts);
            && r.numResends == x.numResends + 1 && r.rate.rto == RtoAfter(rto, r.numResends)
            && r.rate.window == (if window < 2 then 1 else window / 2) && r.rate.rtt == x.rate.rtt
  {
  }

  lemma {:induction false} TimeoutsFrom(x: State, times: seq<int>, rto: int, window: int)
    requires Timeouts(x, times) && x.rate.rto == RtoAfter(rto, x.numResends)
    requires x.rate.window == (if x.numResends == 0 then window else if window < 2 then 1 else window / 2)
    ensures var r := AfterTimeouts(x, times);
            && r.numResends == x.numResends + |times| && r.rate.rto == RtoAfter(rto, r.numResends)
            && r.rate.window == (if r.numResends == 0 then window else if window < 2 then 1 else window / 2)
            && (times != [] ==> r.numResends <= 6)
    decreases |times|
  {
    if times != [] {
      TimeoutStep(x, times[0], rto, window);
      TimeoutsFrom(HandleResendTimer(x, times[0]), times[1..], rto, window);
    }
  }

  /**
   Over every run of n timeouts in a row: there are at most six; the first halves the window, to no less than one, and
   the later ones leave it; the resend time doubles, is 9 s after the second, and doubles again from there. One more
   timer resets the stream.
   */
  lemma BackingOff(x: State, times: seq<int>)
    requires Timeouts(x, times) && x.numResends == 0
    ensures var n, r := |times|, AfterTimeouts(x, times);
            && n <= 6 && r.numResends == n
            && (n >= 1 ==> r.rate.window == if x.rate.window < 2 then 1 else x.rate.window / 2)
            && (n == 1 ==> r.rate.rto == 2 * x.rate.rto) && (n == 2 ==> r.rate.rto == 9000) && (n == 3 ==> r.rate.rto == 18000)
            && (n == 4 ==> r.rate.rto == 36000) && (n == 5 ==> r.rate.rto == 72000)
            && (n == 6 ==> r.rate.rto == 144000 && forall ts :: HandleResendTimer(r, ts).status == Reset)
  {
    TimeoutsFrom(x, times, x.rate.rto, x.rate.window);
    var r := AfterTimeouts(x, times);
    assert RtoAfter(x.rate.rto, 2) == 9000 && RtoAfter(x.rate.rto, 3) == 18000 && RtoAfter(x.rate.rto, 4) == 36000;
    assert RtoAfter(x.rate.rto, 5) == 72000 && RtoAfter(x.rate.rto, 6) == 144000;
  }
}
