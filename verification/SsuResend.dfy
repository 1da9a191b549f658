/**
 The sending side of SSU data: when unacknowledged fragments are sent again and when a message is given up, and
 what an acknowledgement of single fragments does to it.
 */
module SsuResend {
  import opened Wrappers
  import opened Bytes
  import opened SsuSpec

  const RESEND_INTERVAL: nat := 3
  const MAX_NUM_RESENDS: nat := 5

  /**
   A message not yet acknowledged. A fragment that is acknowledged is gone from `fragments`. When the message was
   sent, and how often each fragment has been, is history.
   */
  datatype SentMessage = SentMessage(
    fragments: seq<Option<seq<byte>>>, nextResendTime: nat, numResends: nat, at: nat, counts: seq<nat>)

  datatype Why = Acknowledged | GivenUp

  datatype Removed = Removed(id: MsgID, msg: SentMessage, why: Why, ts: nat)

  datatype Sender = Sender(sent: map<MsgID, SentMessage>, removed: seq<Removed>)

  // ---------------------------------------------------------------- operations

  function Unacked(pieces: seq<seq<byte>>): (r: seq<Option<seq<byte>>>)
    ensures |r| == |pieces| && forall i :: 0 <= i < |r| ==> r[i] == Some(pieces[i])
  {
    seq(|pieces|, i requires 0 <= i < |pieces| => Some(pieces[i]))
  }

  function NewMessage(pieces: seq<seq<byte>>, ts: nat): SentMessage {
    SentMessage(Unacked(pieces), ts + RESEND_INTERVAL, 0, ts, seq(|pieces|, i => 1))
  }

  /** A message number still in use is not sent again. */
  function Send(y: Sender, id: MsgID, pieces: seq<seq<byte>>, ts: nat): Sender {
    if id in y.sent then y
    else y.(sent := y.sent[id := NewMessage(pieces, ts)])
  }

  function AckMessage(y: Sender, id: MsgID, ts: nat): Sender {
    if id in y.sent then Sender(y.sent - {id}, y.removed + [Removed(id, y.sent[id], Acknowledged, ts)]) else y
  }

  function Due(m: SentMessage, ts: nat): bool {
    ts >= m.nextResendTime
  }

  /** Every fragment not acknowledged goes out once more. */
  function Resent(m: SentMessage): SentMessage
  {
    m.(numResends := m.numResends + 1, nextResendTime := m.nextResendTime + (m.numResends + 1) * RESEND_INTERVAL,
       counts := seq(|m.counts|, i requires 0 <= i < |m.counts| =>
                       if i < |m.fragments| && m.fragments[i].Some? then m.counts[i] + 1 else m.counts[i]))
  }

  function TickMessage(m: SentMessage, ts: nat): Option<SentMessage> {
    if !Due(m, ts) then Some(m) else if m.numResends < MAX_NUM_RESENDS then Some(Resent(m)) else None
  }

  /** One message of the sweep over all sent messages. */
  function TickOne(y: Sender, id: MsgID, ts: nat): Sender
    requires id in y.sent
  {
    var r := TickMessage(y.sent[id], ts);
    if r.Some? then y.(sent := y.sent[id := r.value])
    else Sender(y.sent - {id}, y.removed + [Removed(id, y.sent[id], GivenUp, ts)])
  }

  // ---------------------------------------------------------------- acknowledging fragments

  function Bit(v: nat, j: nat): bool {
    if j == 0 then v % 2 == 1 else Bit(v / 2, j - 1)
  }

  /** Clears the fragments `from + j` whose bit `j` is set. */
  function ClearBits(fragments: seq<Option<seq<byte>>>, from: nat, bits: nat, j: nat): (r: seq<Option<seq<byte>>>)
    requires j <= 7
    ensures |r| == |fragments|
    decreases 7 - j
  {
    if j == 7 then fragments
    else ClearBits(if Bit(bits, j) && from + j < |fragments| then fragments[from + j := None] else fragments, from, bits, j + 1)
  }

  /** Reads one ack bitfield: the top bit says that another byte follows; a byte without other bits is passed over. */
  function ReadBitfield(bytes: seq<byte>, fragments: seq<Option<seq<byte>>>, from: nat): (r: seq<Option<seq<byte>>>)
    ensures |r| == |fragments|
    decreases |bytes|
  {
    if bytes == [] then fragments
    else
      var bits := bytes[0] % 128;
      var cleared := if bits != 0 then ClearBits(fragments, from, bits, 0) else fragments;
      if bytes[0] >= 128 then ReadBitfield(bytes[1..], cleared, if bits != 0 then from + 7 else from) else cleared
  }

  function AckFragments(y: Sender, id: MsgID, bytes: seq<byte>): Sender {
    if id in y.sent then y.(sent := y.sent[id := y.sent[id].(fragments := ReadBitfield(bytes, y.sent[id].fragments, 0))])
    else y
  }

  /** The bitfield a receiver sends for fragment `n`; none above 64. */
  function WriteBitfield(n: nat): seq<byte>
    requires n <= 64
  {
    BitPower(n % 7);
    Skips(n / 7) + [Pow(2, n % 7)]
  }

  function Skips(k: nat): seq<byte> {
    if k == 0 then [] else [0x80] + Skips(k - 1)
  }

  lemma {:induction false} BitPower(r: nat)
    requires r < 7
    ensures Pow(2, r) < 128
  {
    if r > 0 {
      PowMonotone(r, 6);
    }
    assert Pow(2, 6) == 64;
  }

  lemma {:induction false} PowMonotone(r: nat, k: nat)
    requires r <= k
    ensures Pow(2, r) <= Pow(2, k)
  {
    if r < k {
      PowMonotone(r, k - 1);
    }
  }

  lemma {:induction false} BitOfPower(r: nat, j: nat)
    ensures Bit(Pow(2, r), j) <==> r == j
  {
    if r > 0 && j > 0 {
      assert Pow(2, r) / 2 == Pow(2, r - 1);
      BitOfPower(r - 1, j - 1);
    } else if r == 0 && j > 0 {
      ZeroBits(j - 1);
    }
  }

  lemma {:induction false} ZeroBits(j: nat)
    ensures !Bit(0, j)
  {
    if j > 0 {
      ZeroBits(j - 1);
    }
  }

  lemma {:induction false} ClearOneBit(fragments: seq<Option<seq<byte>>>, from: nat, r: nat, j: nat)
    requires j <= 7 && r < 7
    ensures ClearBits(fragments, from, Pow(2, r), j) ==
            if j <= r && from + r < |fragments| then fragments[from + r := None] else fragments
    decreases 7 - j
  {
    if j < 7 {
      BitOfPower(r, j);
      ClearOneBit(if j == r && from + j < |fragments| then fragments[from + j := None] else fragments, from, r, j + 1);
    }
  }

  lemma {:induction false} SkipEmptyBytes(k: nat, last: byte, fragments: seq<Option<seq<byte>>>, from: nat)
    ensures ReadBitfield(Skips(k) + [last], fragments, from) == ReadBitfield([last], fragments, from)
  {
    var bytes := Skips(k) + [last];
    if k == 0 {
      assert bytes == [last];
    } else {
      assert bytes[0] == 0x80 && bytes[1..] == Skips(k - 1) + [last];
      SkipEmptyBytes(k - 1, last, fragments, from);
    }
  }

  lemma ReadOneByte(b: byte, fragments: seq<Option<seq<byte>>>)
    requires 0 < b < 128
    ensures ReadBitfield([b], fragments, 0) == ClearBits(fragments, 0, b, 0)
  {
    assert b % 128 == b;
  }

  /** An acknowledgement of fragment `n` clears slot `n` modulo 7. */
  lemma AckClears(n: nat, fragments: seq<Option<seq<byte>>>)
    requires n <= 64
    ensures ReadBitfield(WriteBitfield(n), fragments, 0) ==
            if n % 7 < |fragments| then fragments[n % 7 := None] else fragments
  {
    var r := n % 7;
    BitPower(r);
    PowPositive(2, r);
    var last: byte := Pow(2, r);
    SkipEmptyBytes(n / 7, last, fragments, 0);
    ReadOneByte(last, fragments);
    ClearOneBit(fragments, 0, r, 0);
  }

  /** So it clears the slot it is meant for exactly if that is one of the first seven. */
  lemma AckExact(n: nat, fragments: seq<Option<seq<byte>>>)
    requires n <= 64 && n < |fragments| && forall i :: 0 <= i < |fragments| ==> fragments[i].Some?
    ensures ReadBitfield(WriteBitfield(n), fragments, 0) == fragments[n := None] <==> n < 7
  {
    AckClears(n, fragments);
    if n >= 7 {
      assert fragments[n % 7 := None][n].Some? && fragments[n := None][n].None?;
    }
  }

  // ---------------------------------------------------------------- the schedule over whole runs

  datatype Action =
    | Post(id: MsgID, pieces: seq<seq<byte>>, ts: nat)
    | Ack(id: MsgID, ts: nat)
    | AckBits(id: MsgID, bytes: seq<byte>)
    | Tick(id: MsgID, ts: nat)

  function Step(y: Sender, a: Action): Sender {
    match a
    case Post(id, pieces, ts) => Send(y, id, pieces, ts)
    case Ack(id, ts) => AckMessage(y, id, ts)
    case AckBits(id, bytes) => AckFragments(y, id, bytes)
    case Tick(id, ts) => if id in y.sent then TickOne(y, id, ts) else y
  }

  function Run(y: Sender, run: seq<Action>): Sender
    decreases |run|
  {
    if run == [] then y else Run(Step(y, run[0]), run[1..])
  }

  function Triangle(k: nat): nat {
    if k == 0 then 0 else Triangle(k - 1) + k
  }

  lemma {:induction false} TriangleIs(k: nat)
    ensures 2 * Triangle(k) == k * (k + 1)
  {
    if k > 0 {
      TriangleIs(k - 1);
    }
  }

  ghost predicate OnSchedule(m: SentMessage) {
    && m.numResends <= MAX_NUM_RESENDS && m.nextResendTime == m.at + 3 + 3 * Triangle(m.numResends)
    && |m.counts| == |m.fragments|
    && forall i :: 0 <= i < |m.counts| ==>
         1 <= m.counts[i] <= m.numResends + 1 && (m.fragments[i].Some? ==> m.counts[i] == m.numResends + 1)
  }

  ghost predicate Inv(y: Sender) {
    && (forall id :: id in y.sent ==> OnSchedule(y.sent[id]))
    && (forall r :: r in y.removed ==> OnSchedule(r.msg) && (r.why == GivenUp ==> r.ts >= r.msg.at + 48 && r.msg.numResends == 5))
  }

  lemma ResentOk(m: SentMessage)
    requires OnSchedule(m) && m.numResends < MAX_NUM_RESENDS
    ensures OnSchedule(Resent(m))
  {
    assert Triangle(m.numResends + 1) == Triangle(m.numResends) + m.numResends + 1;
  }

  /** Fragments, once acknowledged, stay so. */
  lemma {:induction false} ClearOnlyClears(fragments: seq<Option<seq<byte>>>, from: nat, bits: nat, j: nat, i: nat)
    requires j <= 7 && i < |fragments|
    ensures var r := ClearBits(fragments, from, bits, j); r[i] == fragments[i] || r[i] == None
    decreases 7 - j
  {
    if j < 7 {
      ClearOnlyClears(if Bit(bits, j) && from + j < |fragments| then fragments[from + j := None] else fragments,
                      from, bits, j + 1, i);
    }
  }

  lemma {:induction false} ReadOnlyClears(bytes: seq<byte>, fragments: seq<Option<seq<byte>>>, from: nat, i: nat)
    requires i < |fragments|
    ensures var r := ReadBitfield(bytes, fragments, from); r[i] == fragments[i] || r[i] == None
    decreases |bytes|
  {
    if bytes != [] {
      var bits := bytes[0] % 128;
      var cleared := if bits != 0 then ClearBits(fragments, from, bits, 0) else fragments;
      ClearOnlyClears(fragments, from, bits, 0, i);
      if bytes[0] >= 128 {
        ReadOnlyClears(bytes[1..], cleared, if bits != 0 then from + 7 else from, i);
      }
    }
  }

  lemma TickOneOk(y: Sender, id: MsgID, ts: nat)
    requires Inv(y) && id in y.sent
    ensures Inv(TickOne(y, id, ts))
  {
    var m := y.sent[id];
    if Due(m, ts) && m.numResends < MAX_NUM_RESENDS {
      ResentOk(m);
    } else if Due(m, ts) {
      TriangleIs(5);
      assert m.nextResendTime == m.at + 48;
    }
  }

  lemma StepOk(y: Sender, a: Action)
    requires Inv(y)
    ensures Inv(Step(y, a))
  {
    match a
    case Post(id, pieces, ts) =>
    case Ack(id, ts) =>
    case AckBits(id, bytes) =>
      if id in y.sent {
        var m := y.sent[id];
        forall i | 0 <= i < |m.fragments|
          ensures var r := ReadBitfield(bytes, m.fragments, 0); r[i] == m.fragments[i] || r[i] == None
        {
          ReadOnlyClears(bytes, m.fragments, 0, i);
        }
      }
    case Tick(id, ts) =>
      if id in y.sent {
        TickOneOk(y, id, ts);
      }
  }

  lemma {:induction false} RunOk(y: Sender, run: seq<Action>)
    requires Inv(y)
    ensures Inv(Run(y, run))
    decreases |run|
  {
    if run != [] {
      StepOk(y, run[0]);
      RunOk(Step(y, run[0]), run[1..]);
    }
  }

  /**
   Over every run, a message sent at time t is, after k <= 5 resends, due at t + 3 + 3k(k+1)/2; a fragment not
   acknowledged has been sent k + 1 times and none more often.
   */
  lemma ResendSchedule(run: seq<Action>, id: MsgID)
    requires id in Run(Sender(map[], []), run).sent
    ensures var m := Run(Sender(map[], []), run).sent[id];
            && m.numResends <= 5 && 2 * (m.nextResendTime - m.at - 3) == 3 * m.numResends * (m.numResends + 1)
            && |m.counts| == |m.fragments|
            && forall i :: 0 <= i < |m.counts| ==>
                 1 <= m.counts[i] <= m.numResends + 1 && (m.fragments[i].Some? ==> m.counts[i] == m.numResends + 1)
  {
    RunOk(Sender(map[], []), run);
    TriangleIs(Run(Sender(map[], []), run).sent[id].numResends);
  }

  /** A message whose number is still in use when it is sent again goes on as it is: what was acknowledged stays so. */
  lemma InUseGoesOn(run: seq<Action>, id: MsgID, pieces: seq<seq<byte>>, ts: nat)
    requires id in Run(Sender(map[], []), run).sent
    ensures Run(Sender(map[], []), run + [Post(id, pieces, ts)]) == Run(Sender(map[], []), run)
  {
    RunLast(Sender(map[], []), run, Post(id, pieces, ts));
  }

  lemma {:induction false} RunLast(y: Sender, run: seq<Action>, a: Action)
    ensures Run(y, run + [a]) == Step(Run(y, run), a)
    decreases |run|
  {
    if run == [] {
      assert run + [a] == [a] && [a][1..] == [];
      assert Run(Step(y, a), []) == Step(y, a);
    } else {
      assert (run + [a])[1..] == run[1..] + [a];
      RunLast(Step(y, run[0]), run[1..], a);
    }
  }

  /** A message is given up only at t + 48 or later, and no fragment was sent more than six times. */
  lemma NotGivenUpEarly(run: seq<Action>, r: Removed)
    requires r in Run(Sender(map[], []), run).removed
    ensures r.why == GivenUp ==> r.ts >= r.msg.at + 48 && r.msg.numResends == 5
    ensures forall i :: 0 <= i < |r.msg.counts| ==> r.msg.counts[i] <= 6
  {
    RunOk(Sender(map[], []), run);
  }
}
