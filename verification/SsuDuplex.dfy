/**
 Both ends of SSU data: fragments one way, acknowledgements the other, over a network that loses, repeats and
 reorders either. What an acknowledgement is worth, over whole runs.
 */
module SsuDuplex {
  import opened Wrappers
  import opened Bytes
  import opened SsuSpec
  import Receiving = SsuProtocol
  import Sending = SsuResend

  /** A fragment by message and number. */
  datatype Slot = Slot(id: MsgID, n: nat)

  /**
   `bits` are the fragment acknowledgements ever sent back, message acknowledgements being `rcv.acked`; `arrived` is
   history: the fragments that have reached the receiver.
   */
  datatype System = System(
    posted: map<MsgID, Receiving.Outgoing>, snd: Sending.Sender, rcv: Receiver, bits: set<Slot>, arrived: set<Slot>)

  datatype Action =
    | Post(msg: Message, size: nat, ts: nat)
    | Arrive(id: MsgID, n: nat, ts: nat)
    | AckArrives(id: MsgID, ts: nat)
    | BitsArrive(slot: Slot)
    | Resend(id: MsgID, ts: nat)
    | CleanupTick(ts: nat)
    | DecayTick

  function Start(established: bool): System {
    System(map[], Sending.Sender(map[], []), Receiving.Start(established).rcv, {}, {})
  }

  function End(y: System): Receiving.System {
    Receiving.System(y.posted, y.rcv)
  }

  predicate Allowed(y: System, a: Action) {
    match a
    case Post(m, size, ts) => Receiving.Allowed(End(y), Receiving.Post(m, size))
    case Arrive(id, n, ts) => Receiving.Allowed(End(y), Receiving.Arrive(id, n, ts))
    case AckArrives(id, ts) => id in y.rcv.acked
    case BitsArrive(slot) => slot in y.bits
    case Resend(id, ts) => true
    case CleanupTick(ts) => true
    case DecayTick => true
  }

  /** A fragment that does not complete its message is acknowledged by itself, up to number 64. */
  function DoArrive(y: System, id: MsgID, n: nat, ts: nat): System
    requires Allowed(y, Arrive(id, n, ts))
  {
    var r := Receiving.Step(End(y), Receiving.Arrive(id, n, ts)).rcv;
    y.(rcv := r, arrived := y.arrived + {Slot(id, n)},
       bits := if r.acked == y.rcv.acked && n <= 64 then y.bits + {Slot(id, n)} else y.bits)
  }

  function Step(y: System, a: Action): System
    requires Allowed(y, a)
  {
    match a
    case Post(m, size, ts) =>
      var y' := Receiving.Step(End(y), Receiving.Post(m, size));
      y.(posted := y'.sent, snd := Sending.Send(y.snd, m.id, y'.sent[m.id].frags, ts))
    case Arrive(id, n, ts) => DoArrive(y, id, n, ts)
    case AckArrives(id, ts) => y.(snd := Sending.AckMessage(y.snd, id, ts))
    case BitsArrive(slot) =>
      if slot.n <= 64 then y.(snd := Sending.AckFragments(y.snd, slot.id, Sending.WriteBitfield(slot.n))) else y
    case Resend(id, ts) => y.(snd := Sending.Step(y.snd, Sending.Tick(id, ts)))
    case CleanupTick(ts) => y.(rcv := Cleanup(y.rcv, ts))
    case DecayTick => y.(rcv := Decay(y.rcv))
  }

  predicate AllowedRun(y: System, run: seq<Action>)
    decreases |run|
  {
    run == [] || (Allowed(y, run[0]) && AllowedRun(Step(y, run[0]), run[1..]))
  }

  function Run(y: System, run: seq<Action>): System
    requires AllowedRun(y, run)
    decreases |run|
  {
    if run == [] then y else Run(Step(y, run[0]), run[1..])
  }

  // ---------------------------------------------------------------- the invariant

  /** Slot `k` was cleared for a fragment that arrived, whose number is `k` modulo 7. */
  ghost predicate Excused(y: System, id: MsgID, k: nat) {
    exists n: nat :: Slot(id, n) in y.arrived && n % 7 == k
  }

  ghost predicate MessageOk(y: System, id: MsgID, m: Sending.SentMessage) {
    && id in y.posted && |m.fragments| == |y.posted[id].frags|
    && forall k :: 0 <= k < |m.fragments| ==> m.fragments[k] == Some(y.posted[id].frags[k]) || (m.fragments[k] == None && Excused(y, id, k))
  }

  ghost predicate SenderOk(y: System) {
    && (forall id :: id in y.snd.sent ==> MessageOk(y, id, y.snd.sent[id]))
    && (forall r :: r in y.snd.removed && r.why == Sending.Acknowledged ==> r.id in y.rcv.acked)
  }

  ghost predicate ArrivedOk(y: System) {
    && y.bits <= y.arrived
    && (forall s :: s in y.arrived ==> s.id in y.posted && s.n < |y.posted[s.id].frags|)
  }

  ghost predicate Inv(y: System) {
    Receiving.Inv(End(y)) && SenderOk(y) && ArrivedOk(y)
  }

  lemma PostOk(y: System, m: Message, size: nat, ts: nat)
    requires Inv(y) && Allowed(y, Post(m, size, ts))
    ensures Inv(Step(y, Post(m, size, ts)))
  {
    var y' := Step(y, Post(m, size, ts));
    Receiving.StepOk(End(y), Receiving.Post(m, size));
    assert m.id !in y.snd.sent;
    forall id | id in y'.snd.sent ensures MessageOk(y', id, y'.snd.sent[id]) {
      if id != m.id {
        KeepsMessage(y, y', id, y.snd.sent[id]);
      }
    }
  }

  /** More arrivals and postings change nothing about a message. */
  lemma KeepsMessage(y: System, y': System, id: MsgID, m: Sending.SentMessage)
    requires MessageOk(y, id, m) && y.arrived <= y'.arrived && id in y'.posted && y'.posted[id] == y.posted[id]
    ensures MessageOk(y', id, m)
  {
    forall k | 0 <= k < |m.fragments| && Excused(y, id, k) ensures Excused(y', id, k) {
      var n: nat :| Slot(id, n) in y.arrived && n % 7 == k;
      assert Slot(id, n) in y'.arrived;
    }
  }

  lemma ArriveOk(y: System, id: MsgID, n: nat, ts: nat)
    requires Inv(y) && Allowed(y, Arrive(id, n, ts))
    ensures Inv(Step(y, Arrive(id, n, ts)))
  {
    var y' := Step(y, Arrive(id, n, ts));
    Receiving.StepOk(End(y), Receiving.Arrive(id, n, ts));
    Receiving.ArriveProgress(End(y), id, n, ts, id);
    forall k | k in y'.snd.sent ensures MessageOk(y', k, y'.snd.sent[k]) {
      KeepsMessage(y, y', k, y.snd.sent[k]);
    }
  }

  lemma BitsOk(y: System, slot: Slot)
    requires Inv(y) && slot in y.bits
    ensures Inv(Step(y, BitsArrive(slot)))
  {
    var y' := Step(y, BitsArrive(slot));
    if slot.n <= 64 && slot.id in y.snd.sent {
      var m := y.snd.sent[slot.id];
      Sending.AckClears(slot.n, m.fragments);
      var m' := m.(fragments := if slot.n % 7 < |m.fragments| then m.fragments[slot.n % 7 := None] else m.fragments);
      assert y'.snd == y.snd.(sent := y.snd.sent[slot.id := m']);
      assert Excused(y, slot.id, slot.n % 7);
      forall id | id in y'.snd.sent ensures MessageOk(y', id, y'.snd.sent[id]) {
        KeepsMessage(y, y', id, y.snd.sent[id]);
      }
    }
  }

  lemma SenderStepOk(y: System, a: Action)
    requires Inv(y) && Allowed(y, a) && (a.AckArrives? || a.Resend?)
    ensures Inv(Step(y, a))
  {
    var y' := Step(y, a);
    forall id | id in y'.snd.sent ensures MessageOk(y', id, y'.snd.sent[id]) {
      KeepsMessage(y, y', id, y.snd.sent[id]);
    }
  }

  lemma ReceiverStepOk(y: System, a: Action)
    requires Inv(y) && Allowed(y, a) && (a.CleanupTick? || a.DecayTick?)
    ensures Inv(Step(y, a))
  {
    var y' := Step(y, a);
    if a.CleanupTick? {
      Receiving.StepOk(End(y), Receiving.CleanupTick(a.ts));
    } else {
      Receiving.StepOk(End(y), Receiving.DecayTick);
    }
    forall id | id in y'.snd.sent ensures MessageOk(y', id, y'.snd.sent[id]) {
      KeepsMessage(y, y', id, y.snd.sent[id]);
    }
  }

  lemma StepOk(y: System, a: Action)
    requires Inv(y) && Allowed(y, a)
    ensures Inv(Step(y, a))
  {
    match a
    case Post(m, size, ts) => PostOk(y, m, size, ts);
    case Arrive(id, n, ts) => ArriveOk(y, id, n, ts);
    case BitsArrive(slot) => BitsOk(y, slot);
    case AckArrives(_, _) => SenderStepOk(y, a);
    case Resend(_, _) => SenderStepOk(y, a);
    case CleanupTick(_) => ReceiverStepOk(y, a);
    case DecayTick => ReceiverStepOk(y, a);
  }

  lemma {:induction false} RunOk(y: System, run: seq<Action>)
    requires AllowedRun(y, run) && Inv(y)
    ensures Inv(Run(y, run))
    decreases |run|
  {
    if run != [] {
      StepOk(y, run[0]);
      RunOk(Step(y, run[0]), run[1..]);
    }
  }

  // ---------------------------------------------------------------- message acknowledgements

  /** With an established session, what is acknowledged has been handed on. */
  ghost predicate AckedDelivered(y: System) {
    y.rcv.established && forall id :: id in y.rcv.acked ==> Receiving.EverDelivered(y.rcv, id)
  }

  lemma StepDelivered(y: System, a: Action)
    requires Inv(y) && AckedDelivered(y) && Allowed(y, a)
    ensures AckedDelivered(Step(y, a))
  {
    if a.Arrive? {
      ArriveDelivered(y, a.id, a.n, a.ts);
    }
  }

  lemma ArriveDelivered(y: System, id: MsgID, n: nat, ts: nat)
    requires Inv(y) && AckedDelivered(y) && Allowed(y, Arrive(id, n, ts))
    ensures AckedDelivered(Step(y, Arrive(id, n, ts)))
  {
    var y' := Step(y, Arrive(id, n, ts));
    Receiving.ArriveProgress(End(y), id, n, ts, id);
    AckedAtMost(y.rcv, Receiving.Piece(id, y.posted[id].frags, n), ts);
    forall k | k in y'.rcv.acked ensures Receiving.EverDelivered(y'.rcv, k) {
      if k in y.rcv.acked {
        var d :| d in y.rcv.delivered && d.msg.id == k;
        assert d in y'.rcv.delivered;
      }
    }
  }

  /** A fragment acknowledges its own message or none. */
  lemma AckedAtMost(r: Receiver, f: Fragment, ts: nat)
    ensures HandleFragment(r, f, ts).acked == r.acked || HandleFragment(r, f, ts).acked == r.acked + [f.id]
  {
  }

  lemma {:induction false} RunDelivered(y: System, run: seq<Action>)
    requires AllowedRun(y, run) && Inv(y) && AckedDelivered(y)
    ensures AckedDelivered(Run(y, run))
    decreases |run|
  {
    if run != [] {
      StepOk(y, run[0]);
      StepDelivered(y, run[0]);
      RunDelivered(Step(y, run[0]), run[1..]);
    }
  }

  /**
   Over every run of both ends, a message the sender drops as acknowledged was completed by the receiver and handed on
   as it was posted.
   */
  lemma AcknowledgedWasDelivered(run: seq<Action>, r: Sending.Removed)
    requires AllowedRun(Start(true), run) && r in Run(Start(true), run).snd.removed && r.why == Sending.Acknowledged
    ensures var y := Run(Start(true), run);
            && r.id in y.rcv.acked && r.id in y.posted
            && exists d :: d in y.rcv.delivered && d.msg == Rounded(y.posted[r.id].msg)
  {
    RunOk(Start(true), run);
    RunDelivered(Start(true), run);
    var y := Run(Start(true), run);
    var d :| d in y.rcv.delivered && d.msg.id == r.id;
    assert d.msg == Rounded(y.posted[r.id].msg);
  }

  // ---------------------------------------------------------------- fragment acknowledgements

  /** A slot is cleared only for a fragment that has arrived. */
  ghost predicate Honest(y: System, id: MsgID)
    requires id in y.snd.sent
  {
    forall k :: 0 <= k < |y.snd.sent[id].fragments| && y.snd.sent[id].fragments[k] == None ==> Slot(id, k) in y.arrived
  }

  /** Over every run, a fragment of a message of at most seven stops being sent only once it has arrived. */
  lemma FewFragmentsHonest(established: bool, run: seq<Action>, id: MsgID)
    requires AllowedRun(Start(established), run) && id in Run(Start(established), run).snd.sent
    requires |Run(Start(established), run).snd.sent[id].fragments| <= 7
    ensures Honest(Run(Start(established), run), id)
  {
    RunOk(Start(established), run);
    var y := Run(Start(established), run);
    var m := y.snd.sent[id];
    assert MessageOk(y, id, m);
    forall k | 0 <= k < |m.fragments| && m.fragments[k] == None ensures Slot(id, k) in y.arrived {
      var n: nat :| Slot(id, n) in y.arrived && n % 7 == k;
      assert n < 7;
    }
  }

  /** What arrived is still there, or its message has been completed. */
  ghost predicate Kept(y: System) {
    forall s :: s in y.arrived ==> Receiving.Has(Lookup(y.rcv, s.id), s.n) || s.id in y.rcv.acked
  }

  lemma StepKept(y: System, a: Action)
    requires Inv(y) && Kept(y) && Allowed(y, a) && !a.CleanupTick?
    ensures Kept(Step(y, a))
  {
    var y' := Step(y, a);
    if a.Arrive? {
      forall s | s in y'.arrived ensures Receiving.Has(Lookup(y'.rcv, s.id), s.n) || s.id in y'.rcv.acked {
        ArriveKeeps(y, a.id, a.n, a.ts, s);
      }
    }
  }

  lemma ArriveKeeps(y: System, id: MsgID, n: nat, ts: nat, s: Slot)
    requires Inv(y) && Kept(y) && Allowed(y, Arrive(id, n, ts)) && (s in y.arrived || s == Slot(id, n))
    ensures var r := Step(y, Arrive(id, n, ts)).rcv; Receiving.Has(Lookup(r, s.id), s.n) || s.id in r.acked
  {
    Receiving.ArriveProgress(End(y), id, n, ts, s.id);
    var r := Step(y, Arrive(id, n, ts)).rcv;
    if s.id in y.rcv.acked {
      assert s.id in r.acked;
    } else if Receiving.CompletedSince(y.rcv, r, s.id) {
      assert r.acked == y.rcv.acked + r.acked[|y.rcv.acked|..];
    }
  }

  lemma {:induction false} RunKept(y: System, run: seq<Action>)
    requires AllowedRun(y, run) && Inv(y) && Kept(y) && forall a :: a in run ==> !a.CleanupTick?
    ensures Inv(Run(y, run)) && Kept(Run(y, run))
    decreases |run|
  {
    if run != [] {
      assert run[0] in run;
      StepOk(y, run[0]);
      StepKept(y, run[0]);
      RunKept(Step(y, run[0]), run[1..]);
    }
  }

  /**
   So over every run without a cleanup, with at most seven fragments, no fragment acknowledgement ever stops the
   resending of a fragment the receiver lacks.
   */
  lemma NeverStopsMissing(established: bool, run: seq<Action>, id: MsgID, k: nat)
    requires AllowedRun(Start(established), run) && (forall a :: a in run ==> !a.CleanupTick?)
    requires var y := Run(Start(established), run);
             && id in y.snd.sent && k < |y.snd.sent[id].fragments| <= 7 && y.snd.sent[id].fragments[k] == None
    ensures var y := Run(Start(established), run); Receiving.Has(Lookup(y.rcv, id), k) || id in y.rcv.acked
  {
    RunKept(Start(established), run);
    FewFragmentsHonest(established, run, id);
    assert Slot(id, k) in Run(Start(established), run).arrived;
  }

  // ---------------------------------------------------------------- and with more fragments

  /** One message posted, its fragment `n` arrived, and the acknowledgement of that fragment came back. */
  function OneAck(m: Message, size: nat, n: nat, ts: nat): seq<Action> {
    [Post(m, size, ts), Arrive(m.id, n, ts), BitsArrive(Slot(m.id, n))]
  }

  lemma RunThree(y: System, a: Action, b: Action, c: Action)
    requires Allowed(y, a) && Allowed(Step(y, a), b) && Allowed(Step(Step(y, a), b), c)
    ensures AllowedRun(y, [a, b, c]) && Run(y, [a, b, c]) == Step(Step(Step(y, a), b), c)
  {
    var y1 := Step(y, a);
    var y2 := Step(y1, b);
    assert [a, b, c][1..] == [b, c] && [b, c][1..] == [c] && [c][1..] == [];
    assert AllowedRun(y2, [c]) && Run(y2, [c]) == Step(y2, c);
    assert AllowedRun(y1, [b, c]) && Run(y1, [b, c]) == Run(y2, [c]);
  }

  /** A first fragment that does not complete its message. */
  lemma FirstArrival(y: System, id: MsgID, n: nat, ts: nat)
    requires id in y.posted && n < |y.posted[id].frags| && |y.posted[id].frags| >= 2 && id !in y.rcv.incomplete
    ensures Allowed(y, Arrive(id, n, ts))
    ensures Step(y, Arrive(id, n, ts)).rcv.acked == y.rcv.acked
  {
    var f := Receiving.Piece(id, y.posted[id].frags, n);
    if n == 0 {
      var inc := Attach(Incomplete([], 0, map[], 0), f.bytes);
      assert AttachSaved(inc, false) == Attached(inc, false);
    }
  }

  /** Exactly for the first seven fragments the acknowledgement of one fragment is honest. */
  lemma BitsExact(m: Message, size: nat, n: nat, ts: nat)
    requires Receiving.Postable(m, size) && n < |Chop(ShortForm(m), size)| && |Chop(ShortForm(m), size)| >= 2 && n <= 64
    ensures AllowedRun(Start(true), OneAck(m, size, n, ts))
    ensures var y := Run(Start(true), OneAck(m, size, n, ts));
            && m.id in y.snd.sent && y.arrived == {Slot(m.id, n)}
            && n % 7 < |y.snd.sent[m.id].fragments| && y.snd.sent[m.id].fragments[n % 7] == None
            && (Honest(y, m.id) <==> n < 7)
  {
    var frags := Chop(ShortForm(m), size);
    var y1 := Step(Start(true), Post(m, size, ts));
    FirstArrival(y1, m.id, n, ts);
    var y2 := Step(y1, Arrive(m.id, n, ts));
    RunThree(Start(true), Post(m, size, ts), Arrive(m.id, n, ts), BitsArrive(Slot(m.id, n)));
    var y3 := Step(y2, BitsArrive(Slot(m.id, n)));
    var before := Sending.Unacked(frags);
    assert y2.snd.sent[m.id].fragments == before;
    Sending.AckClears(n, before);
    assert y3.snd.sent[m.id].fragments == before[n % 7 := None];
    assert y3.arrived == {Slot(m.id, n)};
  }

  lemma StepGone(y: System, a: Action, id: MsgID)
    requires Allowed(y, a) && id in y.posted && id !in y.snd.sent
    ensures id in Step(y, a).posted && id !in Step(y, a).snd.sent
  {
  }

  lemma {:induction false} RunGone(y: System, run: seq<Action>, id: MsgID)
    requires AllowedRun(y, run) && id in y.posted && id !in y.snd.sent
    ensures id !in Run(y, run).snd.sent
    decreases |run|
  {
    if run != [] {
      StepGone(y, run[0], id);
      RunGone(Step(y, run[0]), run[1..], id);
    }
  }

  ghost predicate Cleared(y: System, id: MsgID, k: nat, sends: nat) {
    && id in y.posted && id in y.snd.sent && k < |y.snd.sent[id].fragments| && k < |y.snd.sent[id].counts|
    && y.snd.sent[id].fragments[k] == None && y.snd.sent[id].counts[k] == sends
  }

  lemma StepCleared(y: System, a: Action, id: MsgID, k: nat, sends: nat)
    requires Allowed(y, a) && Cleared(y, id, k, sends) && id in Step(y, a).snd.sent
    ensures Cleared(Step(y, a), id, k, sends)
  {
    if a.BitsArrive? && a.slot.id == id && a.slot.n <= 64 {
      Sending.ReadOnlyClears(Sending.WriteBitfield(a.slot.n), y.snd.sent[id].fragments, 0, k);
    }
  }

  /** A slot that was cleared is never sent again, however the run goes on, honest or not. */
  lemma {:induction false} NeverResent(y: System, run: seq<Action>, id: MsgID, k: nat, sends: nat)
    requires AllowedRun(y, run) && Cleared(y, id, k, sends) && id in Run(y, run).snd.sent
    ensures Cleared(Run(y, run), id, k, sends)
    decreases |run|
  {
    if run != [] {
      var y1 := Step(y, run[0]);
      if id !in y1.snd.sent {
        assert id in y1.posted;
        RunGone(y1, run[1..], id);
      } else {
        StepCleared(y, run[0], id, k, sends);
        NeverResent(y1, run[1..], id, k, sends);
      }
    }
  }

  // ---------------------------------------------------------------- late fragments

  lemma {:induction false} BitsFrom(y: System, run: seq<Action>)
    requires AllowedRun(y, run) && forall s :: s in y.bits ==> s.n <= 64
    ensures forall s :: s in Run(y, run).bits ==> s.n <= 64
    decreases |run|
  {
    if run != [] {
      BitsFrom(Step(y, run[0]), run[1..]);
    }
  }

  /** A fragment above number 64 is never acknowledged by itself, over every run; any other is if it completes nothing. */
  lemma OnlyUpTo64(established: bool, run: seq<Action>, id: MsgID, n: nat, ts: nat)
    requires AllowedRun(Start(established), run) && Allowed(Run(Start(established), run), Arrive(id, n, ts))
    ensures var y := Run(Start(established), run);
            var y' := Step(y, Arrive(id, n, ts));
            && (forall s :: s in y'.bits ==> s.n <= 64)
            && (n <= 64 && y'.rcv.acked == y.rcv.acked ==> Slot(id, n) in y'.bits)
  {
    BitsFrom(Start(established), run);
  }
}
