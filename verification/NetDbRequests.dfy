/**
 Lookups in the network database: each request asks one floodfill after another, and tells whoever started it how
 it ended.
 */
module NetDbRequests {
  import opened Wrappers
  import opened NetDbClosest

  /** Callbacks are numbered; what they are called with is a router, also numbered, or nothing. */
  type Callback = nat
  type RouterId = nat

  const MAX_FLOODFILLS: nat := 7

  /** `contacted` are the floodfills asked so far, in order. */
  datatype Request = Request(
    exploratory: bool, excluded: set<Ident>, created: nat, callback: Option<Callback>, contacted: seq<Ident>)

  datatype Fired = Fired(callback: Callback, result: Option<RouterId>)

  /** `given` are all callbacks ever handed over, `fired` all calls made. */
  datatype System = System(requests: map<Ident, Request>, fired: seq<Fired>, given: set<Callback>)

  // ---------------------------------------------------------------- operations

  function Fire(fired: seq<Fired>, cb: Option<Callback>, r: Option<RouterId>): seq<Fired> {
    if cb.Some? then fired + [Fired(cb.value, r)] else fired
  }

  /** A request for something already requested is destroyed at once, and its callback is called. */
  function CreateRequest(y: System, dest: Ident, exploratory: bool, cb: Option<Callback>): System {
    var given := if cb.Some? then y.given + {cb.value} else y.given;
    if dest in y.requests then y.(fired := Fire(y.fired, cb, None), given := given)
    else y.(requests := y.requests[dest := Request(exploratory, {}, 0, cb, [])], given := given)
  }

  function Contacted(r: Request, floodfill: Ident, ts: nat): Request {
    r.(excluded := r.excluded + {floodfill}, created := ts, contacted := r.contacted + [floodfill])
  }

  /** The callback is called and the request destroyed; a request that is just destroyed calls back with nothing. */
  function RequestComplete(y: System, dest: Ident, r: Option<RouterId>): System {
    if dest in y.requests then
      y.(requests := y.requests - {dest}, fired := Fire(y.fired, y.requests[dest].callback, r))
    else y
  }

  /** `next` is the closest floodfill not excluded, if any. */
  function RequestDestination(y: System, dest: Ident, exploratory: bool, cb: Option<Callback>, next: Option<Ident>, ts: nat): System {
    var y1 := CreateRequest(y, dest, exploratory, cb);
    if dest in y.requests then y1
    else if next.Some? then y1.(requests := y1.requests[dest := Contacted(y1.requests[dest], next.value, ts)])
    else RequestComplete(y1, dest, None)
  }

  /** What becomes of a request when a floodfill answers with other routers, or not at all for a while. */
  function TryNext(r: Request, tunnels: bool, next: Option<Ident>, ts: nat): Option<Request> {
    if !r.exploratory && tunnels && |r.excluded| < MAX_FLOODFILLS && next.Some? then Some(Contacted(r, next.value, ts))
    else None
  }

  function HandleSearchReply(y: System, dest: Ident, num: nat, tunnels: bool, next: Option<Ident>, ts: nat): System {
    if dest !in y.requests then y
    else
      var r := if num > 0 then TryNext(y.requests[dest], tunnels, next, ts) else None;
      if r.Some? then y.(requests := y.requests[dest := r.value]) else RequestComplete(y, dest, None)
  }

  /** One request in the periodic sweep. */
  function Managed(r: Request, tunnels: bool, next: Option<Ident>, ts: nat): Option<Request> {
    if ts >= r.created + 60 then None
    else if ts > r.created + 5 then TryNext(r, tunnels, next, ts)
    else Some(r)
  }

  function ManageOne(y: System, dest: Ident, tunnels: bool, next: Option<Ident>, ts: nat): System {
    if dest !in y.requests then y
    else
      var r := Managed(y.requests[dest], tunnels, next, ts);
      if r.Some? then y.(requests := y.requests[dest := r.value]) else RequestComplete(y, dest, None)
  }

  // ---------------------------------------------------------------- runs

  datatype Action =
    | Ask(dest: Ident, exploratory: bool, cb: Option<Callback>, next: Option<Ident>, ts: nat)
    | Reply(dest: Ident, num: nat, tunnels: bool, next: Option<Ident>, ts: nat)
    | Manage(dest: Ident, tunnels: bool, next: Option<Ident>, ts: nat)
    | Found(dest: Ident, router: RouterId)
    | Destroy(dest: Ident)

  /** A callback is handed over once, and the floodfill found for a request is not among those excluded. */
  predicate Allowed(y: System, a: Action) {
    match a
    case Ask(dest, exploratory, cb, next, ts) => cb.Some? ==> cb.value !in y.given
    case Reply(dest, num, tunnels, next, ts) => dest in y.requests && next.Some? ==> next.value !in y.requests[dest].excluded
    case Manage(dest, tunnels, next, ts) => dest in y.requests && next.Some? ==> next.value !in y.requests[dest].excluded
    case Found(dest, router) => true
    case Destroy(dest) => true
  }

  function Step(y: System, a: Action): System {
    match a
    case Ask(dest, exploratory, cb, next, ts) => RequestDestination(y, dest, exploratory, cb, next, ts)
    case Reply(dest, num, tunnels, next, ts) => HandleSearchReply(y, dest, num, tunnels, next, ts)
    case Manage(dest, tunnels, next, ts) => ManageOne(y, dest, tunnels, next, ts)
    case Found(dest, router) => RequestComplete(y, dest, Some(router))
    case Destroy(dest) => RequestComplete(y, dest, None)
  }

  predicate AllowedRun(y: System, run: seq<Action>)
    decreases |run|
  {
    run == [] || (Allowed(y, run[0]) && AllowedRun(Step(y, run[0]), run[1..]))
  }

  function Run(y: System, run: seq<Action>): System
    decreases |run|
  {
    if run == [] then y else Run(Step(y, run[0]), run[1..])
  }

  /** One more action at the end. */
  lemma {:induction false} RunAppend(y: System, run: seq<Action>, a: Action)
    ensures Run(y, run + [a]) == Step(Run(y, run), a)
    ensures AllowedRun(y, run + [a]) <==> AllowedRun(y, run) && Allowed(Run(y, run), a)
    decreases |run|
  {
    if run == [] {
      assert run + [a] == [a];
      assert Run(Step(y, a), []) == Step(y, a);
    } else {
      assert (run + [a])[1..] == run[1..] + [a];
      RunAppend(Step(y, run[0]), run[1..], a);
    }
  }

  // ---------------------------------------------------------------- the invariant

  /** No floodfill was asked twice, all that were asked are excluded, and there are at most seven. */
  ghost predicate RequestOk(r: Request) {
    && (forall i, j :: 0 <= i < j < |r.contacted| ==> r.contacted[i] != r.contacted[j])
    && (forall f :: f in r.excluded <==> f in r.contacted)
    && |r.contacted| == |r.excluded| <= MAX_FLOODFILLS
  }

  ghost predicate Waiting(y: System, cb: Callback) {
    exists d :: d in y.requests && y.requests[d].callback == Some(cb)
  }

  ghost predicate HasFired(fired: seq<Fired>, cb: Callback) {
    exists i :: 0 <= i < |fired| && fired[i].callback == cb
  }

  /** Every callback either waits in one request or was called once. */
  ghost predicate CallbacksOk(y: System) {
    && (forall d :: d in y.requests && y.requests[d].callback.Some? ==>
          y.requests[d].callback.value in y.given && !HasFired(y.fired, y.requests[d].callback.value))
    && (forall d, d' :: d in y.requests && d' in y.requests && y.requests[d].callback.Some? && d != d' ==>
          y.requests[d].callback != y.requests[d'].callback)
    && (forall i, j :: 0 <= i < j < |y.fired| ==> y.fired[i].callback != y.fired[j].callback)
    && (forall f :: f in y.fired ==> f.callback in y.given)
    && (forall cb :: cb in y.given ==> Waiting(y, cb) || HasFired(y.fired, cb))
  }

  ghost predicate Inv(y: System) {
    (forall d :: d in y.requests ==> RequestOk(y.requests[d])) && CallbacksOk(y)
  }

  lemma ContactOk(r: Request, f: Ident, ts: nat)
    requires RequestOk(r) && f !in r.excluded && |r.excluded| < MAX_FLOODFILLS
    ensures RequestOk(Contacted(r, f, ts))
  {
  }

  lemma FireAdds(fired: seq<Fired>, cb: Callback, r: Option<RouterId>, other: Callback)
    ensures HasFired(Fire(fired, Some(cb), r), other) <==> HasFired(fired, other) || other == cb
  {
    var now := Fire(fired, Some(cb), r);
    if HasFired(fired, other) {
      var i :| 0 <= i < |fired| && fired[i].callback == other;
      assert now[i].callback == other;
    }
    assert now[|fired|].callback == cb;
  }

  lemma CompleteOk(y: System, dest: Ident, r: Option<RouterId>)
    requires Inv(y)
    ensures Inv(RequestComplete(y, dest, r))
  {
    var y' := RequestComplete(y, dest, r);
    if dest in y.requests {
      var cb := y.requests[dest].callback;
      forall c | cb.Some? ensures HasFired(y'.fired, c) <==> HasFired(y.fired, c) || c == cb.value {
        FireAdds(y.fired, cb.value, r, c);
      }
      forall c | c in y'.given ensures Waiting(y', c) || HasFired(y'.fired, c) {
        if Waiting(y, c) {
          var d :| d in y.requests && y.requests[d].callback == Some(c);
          if d != dest {
            assert d in y'.requests && y'.requests[d].callback == Some(c);
          }
        }
      }
      assert forall i :: 0 <= i < |y.fired| ==> y.fired[i] in y.fired;
    }
  }

  /** Changing a request without touching its callback. */
  lemma UpdateOk(y: System, dest: Ident, r: Request)
    requires Inv(y) && dest in y.requests && RequestOk(r) && r.callback == y.requests[dest].callback
    ensures Inv(y.(requests := y.requests[dest := r]))
  {
    var y' := y.(requests := y.requests[dest := r]);
    forall c | c in y'.given ensures Waiting(y', c) || HasFired(y'.fired, c) {
      if Waiting(y, c) {
        var d :| d in y.requests && y.requests[d].callback == Some(c);
        assert d in y'.requests && y'.requests[d].callback == Some(c);
      }
    }
  }

  lemma CreateOk(y: System, dest: Ident, exploratory: bool, cb: Option<Callback>)
    requires Inv(y) && (cb.Some? ==> cb.value !in y.given)
    ensures Inv(CreateRequest(y, dest, exploratory, cb))
  {
    var y' := CreateRequest(y, dest, exploratory, cb);
    assert forall i :: 0 <= i < |y.fired| ==> y.fired[i] in y.fired;
    forall c | c in y'.given ensures Waiting(y', c) || HasFired(y'.fired, c) {
      if Waiting(y, c) {
        var d :| d in y.requests && y.requests[d].callback == Some(c);
        assert d in y'.requests && y'.requests[d].callback == Some(c);
      }
      if dest in y.requests && cb.Some? {
        FireAdds(y.fired, cb.value, None, c);
      } else if cb.Some? {
        assert y'.requests[dest].callback == cb;
      }
    }
    if dest in y.requests && cb.Some? {
      forall c ensures HasFired(y'.fired, c) <==> HasFired(y.fired, c) || c == cb.value {
        FireAdds(y.fired, cb.value, None, c);
      }
    }
  }

  lemma AskOk(y: System, dest: Ident, exploratory: bool, cb: Option<Callback>, next: Option<Ident>, ts: nat)
    requires Inv(y) && (cb.Some? ==> cb.value !in y.given)
    ensures Inv(RequestDestination(y, dest, exploratory, cb, next, ts))
  {
    var y1 := CreateRequest(y, dest, exploratory, cb);
    CreateOk(y, dest, exploratory, cb);
    if dest !in y.requests {
      if next.Some? {
        ContactOk(y1.requests[dest], next.value, ts);
        UpdateOk(y1, dest, Contacted(y1.requests[dest], next.value, ts));
      } else {
        CompleteOk(y1, dest, None);
      }
    }
  }

  lemma TryNextOk(r: Request, tunnels: bool, next: Option<Ident>, ts: nat)
    requires RequestOk(r) && (next.Some? ==> next.value !in r.excluded)
    ensures var t := TryNext(r, tunnels, next, ts); t.Some? ==> RequestOk(t.value) && t.value.callback == r.callback
  {
    if TryNext(r, tunnels, next, ts).Some? {
      ContactOk(r, next.value, ts);
    }
  }

  lemma StepOk(y: System, a: Action)
    requires Inv(y) && Allowed(y, a)
    ensures Inv(Step(y, a))
  {
    match a
    case Ask(dest, exploratory, cb, next, ts) => AskOk(y, dest, exploratory, cb, next, ts);
    case Reply(dest, num, tunnels, next, ts) =>
      if dest in y.requests {
        TryNextOk(y.requests[dest], tunnels, next, ts);
        var r := if num > 0 then TryNext(y.requests[dest], tunnels, next, ts) else None;
        CompleteOk(y, dest, None);
        if r.Some? {
          UpdateOk(y, dest, r.value);
        }
      }
    case Manage(dest, tunnels, next, ts) =>
      if dest in y.requests {
        TryNextOk(y.requests[dest], tunnels, next, ts);
        var r := Managed(y.requests[dest], tunnels, next, ts);
        CompleteOk(y, dest, None);
        if r.Some? {
          UpdateOk(y, dest, r.value);
        }
      }
    case Found(dest, router) => CompleteOk(y, dest, Some(router));
    case Destroy(dest) => CompleteOk(y, dest, None);
  }

  lemma {:induction false} RunOk(y: System, run: seq<Action>)
    requires Inv(y) && AllowedRun(y, run)
    ensures Inv(Run(y, run))
    decreases |run|
  {
    if run != [] {
      StepOk(y, run[0]);
      RunOk(Step(y, run[0]), run[1..]);
    }
  }

  // ---------------------------------------------------------------- main results

  /** Over every run, a request asks at most seven floodfills, and none of them twice. */
  lemma AtMostSeven(run: seq<Action>, dest: Ident)
    requires AllowedRun(Empty(), run) && dest in Run(Empty(), run).requests
    ensures var c := Run(Empty(), run).requests[dest].contacted;
            |c| <= 7 && forall i, j :: 0 <= i < j < |c| ==> c[i] != c[j]
  {
    RunOk(Empty(), run);
  }

  /** Over every run, every callback handed over is called exactly once as soon as its request is gone, and not before. */
  lemma CalledExactlyOnce(run: seq<Action>, cb: Callback)
    requires AllowedRun(Empty(), run) && cb in Run(Empty(), run).given
    ensures var y := Run(Empty(), run);
            && (Waiting(y, cb) <==> !HasFired(y.fired, cb))
            && forall i, j :: 0 <= i < j < |y.fired| ==> !(y.fired[i].callback == cb && y.fired[j].callback == cb)
  {
    RunOk(Empty(), run);
  }

  // ---------------------------------------------------------------- what callbacks are called with

  function Empty(): System {
    System(map[], [], {})
  }

  /** Action `i` of the run finds router `r` while `cb` waits for it. */
  ghost predicate FoundFor(run: seq<Action>, i: nat, cb: Callback, r: RouterId) {
    && i < |run| && run[i].Found? && run[i].router == r
    && var y := Run(Empty(), run[..i]); run[i].dest in y.requests && y.requests[run[i].dest].callback == Some(cb)
  }

  /** What one action adds to the calls: a router only if it was found for the callback, which then is told at once. */
  lemma StepFires(y: System, a: Action, cb: Callback, r: RouterId)
    ensures y.fired <= Step(y, a).fired
    ensures Fired(cb, Some(r)) in Step(y, a).fired <==>
            Fired(cb, Some(r)) in y.fired ||
            (a.Found? && a.router == r && a.dest in y.requests && y.requests[a.dest].callback == Some(cb))
  {
    var fired, fired' := y.fired, Step(y, a).fired;
    assert fired' == fired || fired'[..|fired|] == fired;
    if a.Found? && a.dest in y.requests && y.requests[a.dest].callback == Some(cb) {
      assert fired'[|fired|] == Fired(cb, Some(a.router));
    }
  }

  /**
   Over every run a callback is called with router `r` if and only if `r` was found for the destination in whose
   request the callback was waiting at that moment.
   */
  lemma {:induction false} CalledWithFound(run: seq<Action>, cb: Callback, r: RouterId)
    requires AllowedRun(Empty(), run)
    ensures Fired(cb, Some(r)) in Run(Empty(), run).fired <==> exists i :: FoundFor(run, i, cb, r)
    decreases |run|
  {
    if run != [] {
      var n := |run| - 1;
      var before, a := run[..n], run[n];
      assert run == before + [a];
      RunAppend(Empty(), before, a);
      CalledWithFound(before, cb, r);
      StepFires(Run(Empty(), before), a, cb, r);
      forall i: nat | i < n ensures FoundFor(run, i, cb, r) <==> FoundFor(before, i, cb, r) {
        assert run[..i] == before[..i];
      }
      assert run[..n] == before;
      assert (exists i :: FoundFor(run, i, cb, r)) <==> (exists i :: FoundFor(before, i, cb, r)) || FoundFor(run, n, cb, r);
    }
  }

  /** A callback whose request ended in any other way, or was rejected, is called with nothing. */
  lemma FailsOtherwise(run: seq<Action>, cb: Callback)
    requires AllowedRun(Empty(), run)
    ensures var y := Run(Empty(), run);
            Fired(cb, None) in y.fired <==>
            cb in y.given && !Waiting(y, cb) && !exists i, r :: FoundFor(run, i, cb, r)
  {
    RunOk(Empty(), run);
    var y := Run(Empty(), run);
    if exists i, r :: FoundFor(run, i, cb, r) {
      var i, r :| FoundFor(run, i, cb, r);
      CalledWithFound(run, cb, r);
    }
    if Fired(cb, None) in y.fired {
      var k :| 0 <= k < |y.fired| && y.fired[k] == Fired(cb, None);
      assert y.fired[k].callback == cb;
      CalledOnce(run, cb);
    } else if HasFired(y.fired, cb) {
      var k :| 0 <= k < |y.fired| && y.fired[k].callback == cb;
      var r := y.fired[k].result.value;
      assert y.fired[k] == Fired(cb, Some(r));
      CalledWithFound(run, cb, r);
    }
  }

  /** So is the callback of a request for something that is already requested. */
  lemma RejectedFails(run: seq<Action>, i: nat, cb: Callback)
    requires AllowedRun(Empty(), run) && i < |run| && run[i].Ask? && run[i].cb == Some(cb)
    requires run[i].dest in Run(Empty(), run[..i]).requests
    ensures Fired(cb, None) in Run(Empty(), run).fired
    decreases |run|
  {
    var n := |run| - 1;
    var before, a := run[..n], run[n];
    assert run == before + [a];
    RunAppend(Empty(), before, a);
    if i < n {
      assert run[..i] == before[..i];
      RejectedFails(before, i, cb);
      StepFires(Run(Empty(), before), a, cb, 0);
    } else {
      var y := Run(Empty(), before);
      assert Step(y, a).fired[|y.fired|] == Fired(cb, None);
    }
  }

  lemma CalledOnce(run: seq<Action>, cb: Callback)
    requires AllowedRun(Empty(), run)
    ensures var y := Run(Empty(), run);
            forall r, r' :: Fired(cb, r) in y.fired && Fired(cb, r') in y.fired ==> r == r'
  {
    RunOk(Empty(), run);
  }

  // ---------------------------------------------------------------- how long a request goes on

  /**
   Nobody answers the request for `dest`: after each of `fs` was asked, a floodfill that names other routers, or a sweep
   more than five and less than sixty seconds later, finds the next one. Sweeps before that, and what happens to other
   requests, come in between. `at` is when a floodfill was asked last.
   */
  predicate Unanswered(run: seq<Action>, dest: Ident, at: nat, fs: seq<Ident>)
    decreases |run|
  {
    if run == [] then fs == []
    else if run[0].dest != dest then Unanswered(run[1..], dest, at, fs)
    else if run[0].Manage? && run[0].ts <= at + 5 then Unanswered(run[1..], dest, at, fs)
    else
      && fs != []
      && ((run[0].Reply? && run[0].num > 0) || (run[0].Manage? && at + 5 < run[0].ts < at + 60))
      && run[0].tunnels && run[0].next == Some(fs[0])
      && Unanswered(run[1..], dest, run[0].ts, fs[1..])
  }

  /** What happens to other requests. */
  lemma StepElsewhere(y: System, a: Action, dest: Ident)
    requires a.dest != dest && dest in y.requests
    ensures dest in Step(y, a).requests && Step(y, a).requests[dest] == y.requests[dest]
  {
  }

  lemma NextAsked(y: System, a: Action, dest: Ident, f: Ident)
    requires dest in y.requests && !y.requests[dest].exploratory && RequestOk(y.requests[dest]) && |y.requests[dest].contacted| < 7
    requires a.dest == dest && Allowed(y, a) && Unanswered([a], dest, y.requests[dest].created, [f])
    ensures var y1 := Step(y, a);
            && dest in y1.requests && y1.requests[dest] == Contacted(y.requests[dest], f, a.ts) && RequestOk(y1.requests[dest])
  {
    ContactOk(y.requests[dest], f, a.ts);
  }

  /** Between `r` and `r'` the floodfills `fs` were asked. */
  ghost predicate GoesOn(r: Request, r': Request, fs: seq<Ident>) {
    r'.contacted == r.contacted + fs && r'.callback == r.callback && !r'.exploratory && RequestOk(r')
  }

  lemma GoesFurther(r: Request, f: Ident, ts: nat, r': Request, fs: seq<Ident>)
    requires fs != [] && f == fs[0] && GoesOn(Contacted(r, f, ts), r', fs[1..])
    ensures GoesOn(r, r', fs)
  {
    assert r.contacted + [f] + fs[1..] == r.contacted + fs;
  }

  /** A request goes on from one floodfill to the next, up to seven, for as long as there is one. */
  lemma {:induction false} AsksOn(y: System, run: seq<Action>, dest: Ident, fs: seq<Ident>)
    requires dest in y.requests && !y.requests[dest].exploratory && RequestOk(y.requests[dest])
    requires AllowedRun(y, run) && Unanswered(run, dest, y.requests[dest].created, fs)
    requires |y.requests[dest].contacted| + |fs| <= 7
    ensures dest in Run(y, run).requests && GoesOn(y.requests[dest], Run(y, run).requests[dest], fs)
    ensures Run(y, run).requests[dest].created == Latest(run, dest, y.requests[dest].created)
    decreases |run|
  {
    var r := y.requests[dest];
    if run == [] {
      assert r.contacted + fs == r.contacted;
    } else {
      var a, y1 := run[0], Step(y, run[0]);
      if a.dest != dest {
        StepElsewhere(y, a, dest);
        AsksOn(y1, run[1..], dest, fs);
      } else if a.Manage? && a.ts <= r.created + 5 {
        assert y1.requests[dest] == r;
        AsksOn(y1, run[1..], dest, fs);
      } else {
        NextAsked(y, a, dest, fs[0]);
        AsksOn(y1, run[1..], dest, fs[1..]);
        GoesFurther(r, fs[0], a.ts, Run(y1, run[1..]).requests[dest], fs);
      }
    }
  }

  /** No floodfill can be asked any more: the request is exploratory, seven were asked, none is left, or there are no tunnels. */
  predicate Exhausted(r: Request, tunnels: bool, next: Option<Ident>) {
    r.exploratory || |r.contacted| == 7 || next.None? || !tunnels
  }

  /** A request ends when there is nobody else to ask, and at the latest sixty seconds after the last one was asked. */
  lemma GivesUp(y: System, a: Action, dest: Ident)
    requires dest in y.requests && RequestOk(y.requests[dest]) && a.dest == dest && (a.Reply? || a.Manage?)
    ensures var r := y.requests[dest];
            dest !in Step(y, a).requests <==>
              || (a.Reply? && (a.num == 0 || Exhausted(r, a.tunnels, a.next)))
              || (a.Manage? && (a.ts >= r.created + 60 || (a.ts > r.created + 5 && Exhausted(r, a.tunnels, a.next))))
    ensures dest !in Step(y, a).requests && y.requests[dest].callback.Some? ==>
              Fired(y.requests[dest].callback.value, None) in Step(y, a).fired
  {
    var r := y.requests[dest];
    if dest !in Step(y, a).requests && r.callback.Some? {
      assert Step(y, a).fired[|y.fired|] == Fired(r.callback.value, None);
    }
  }

  /**
   Over every run: a request that nobody answers asks its first floodfill and six more, in the order found, and then
   fails at the next answer or sweep.
   */
  lemma SevenThenFails(before: seq<Action>, dest: Ident, cb: Callback, first: Ident, at: nat, run: seq<Action>, fs: seq<Ident>, last: Action)
    requires AllowedRun(Empty(), before) && dest !in Run(Empty(), before).requests
    requires var y := Run(Empty(), before); var ask := Ask(dest, false, Some(cb), Some(first), at);
             && Allowed(y, ask) && AllowedRun(Step(y, ask), run) && Unanswered(run, dest, at, fs) && |fs| == 6
    requires last.dest == dest && (last.Reply? || (last.Manage? && last.ts > Latest(run, dest, at) + 5))
    ensures var y1 := Run(Step(Run(Empty(), before), Ask(dest, false, Some(cb), Some(first), at)), run);
            && dest in y1.requests && y1.requests[dest].contacted == [first] + fs && y1.requests[dest].callback == Some(cb)
            && dest !in Step(y1, last).requests && Fired(cb, None) in Step(y1, last).fired
  {
    var y := Run(Empty(), before);
    var ask := Ask(dest, false, Some(cb), Some(first), at);
    RunOk(Empty(), before);
    StepOk(y, ask);
    var y1 := Step(y, ask);
    assert y1.requests[dest].contacted == [first];
    AsksOn(y1, run, dest, fs);
    GivesUp(Run(y1, run), last, dest);
  }

  /** An exploratory request asks one floodfill and no other, for as long as it lasts. */
  lemma ExploratoryOnce(before: seq<Action>, dest: Ident, cb: Option<Callback>, first: Ident, at: nat, run: seq<Action>)
    requires AllowedRun(Empty(), before) && dest !in Run(Empty(), before).requests
    requires forall a :: a in run ==> !(a.Ask? && a.dest == dest)
    ensures var y := Run(Step(Run(Empty(), before), Ask(dest, true, cb, Some(first), at)), run);
            dest in y.requests ==> y.requests[dest].contacted == [first] && y.requests[dest].callback == cb
  {
    var y := Step(Run(Empty(), before), Ask(dest, true, cb, Some(first), at));
    StaysExploratory(y, run, dest, y.requests[dest]);
  }

  lemma {:induction false} StaysExploratory(y: System, run: seq<Action>, dest: Ident, r: Request)
    requires r.exploratory && (dest in y.requests ==> y.requests[dest] == r)
    requires forall a :: a in run ==> !(a.Ask? && a.dest == dest)
    ensures dest in Run(y, run).requests ==> Run(y, run).requests[dest] == r
    decreases |run|
  {
    if run != [] {
      assert run[0] in run && forall a :: a in run[1..] ==> a in run;
      StaysExploratory(Step(y, run[0]), run[1..], dest, r);
    }
  }

  /** When a floodfill was asked last. */
  function Latest(run: seq<Action>, dest: Ident, at: nat): nat
    decreases |run|
  {
    if run == [] then at
    else if run[0].dest == dest && (run[0].Reply? || (run[0].Manage? && run[0].ts > at + 5)) then Latest(run[1..], dest, run[0].ts)
    else Latest(run[1..], dest, at)
  }

  // ---------------------------------------------------------------- one sweep

  /** As many different destinations as there are: all of them. */
  lemma {:induction false} AllThere(sweep: seq<Action>, dests: set<Ident>)
    requires |sweep| == |dests| && forall i :: 0 <= i < |sweep| ==> sweep[i].dest in dests
    requires forall i, j :: 0 <= i < j < |sweep| ==> sweep[i].dest != sweep[j].dest
    ensures forall d :: d in dests ==> exists i :: 0 <= i < |sweep| && sweep[i].dest == d
  {
    if sweep != [] {
      var n := |sweep| - 1;
      var rest := sweep[..n];
      AllThere(rest, dests - {sweep[n].dest});
      forall d | d in dests ensures exists i :: 0 <= i < |sweep| && sweep[i].dest == d {
        if d != sweep[n].dest {
          assert d in dests - {sweep[n].dest};
          var i :| 0 <= i < |rest| && rest[i].dest == d;
          assert sweep[i].dest == d;
        } else {
          assert sweep[n].dest == d;
        }
      }
    }
  }

  /** Actions for other destinations leave a request alone. */
  lemma {:induction false} RunElsewhere(y: System, run: seq<Action>, dest: Ident)
    requires forall i :: 0 <= i < |run| ==> run[i].dest != dest && run[i].Manage?
    ensures dest in Run(y, run).requests <==> dest in y.requests
    ensures dest in y.requests ==> Run(y, run).requests[dest] == y.requests[dest]
    decreases |run|
  {
    if run != [] {
      RunElsewhere(Step(y, run[0]), run[1..], dest);
    }
  }

  /** In a sweep over different destinations each request is kept, moved on or dropped by its own age. */
  lemma {:induction false} SweptOnce(y: System, sweep: seq<Action>, i: nat)
    requires i < |sweep| && sweep[i].dest in y.requests
    requires forall k :: 0 <= k < |sweep| ==> sweep[k].Manage?
    requires forall j, k :: 0 <= j < k < |sweep| ==> sweep[j].dest != sweep[k].dest
    ensures var d, r := sweep[i].dest, Run(y, sweep).requests;
            (if d in r then Some(r[d]) else None) == Managed(y.requests[d], sweep[i].tunnels, sweep[i].next, sweep[i].ts)
    decreases |sweep|
  {
    if i == 0 {
      RunElsewhere(Step(y, sweep[0]), sweep[1..], sweep[0].dest);
    } else {
      SweptOnce(Step(y, sweep[0]), sweep[1..], i - 1);
    }
  }
}
