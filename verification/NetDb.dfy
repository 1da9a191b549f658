/**
 The part of the network database that runs lookups: the table of requests and the handlers that change it.
 */
module NetDb {
  import opened Wrappers
  import opened NetDbClosest
  import opened Spec = NetDbRequests

  class Lookups {
    /** Turns an ident into the key of the day. */
    const createRoutingKey: Ident -> Ident
    var floodfills: seq<Router>
    /** When the routers known were published, in milliseconds. */
    var routerTimes: map<Ident, nat>
    var requestedDestinations: map<Ident, Request>
    /** Callbacks called and callbacks handed over so far. */
    ghost var fired: seq<Fired>
    ghost var given: set<Callback>

    ghost function View(): System
      reads this`requestedDestinations, this`fired, this`given
    {
      System(requestedDestinations, fired, given)
    }

    ghost predicate Valid()
      reads this`requestedDestinations, this`fired, this`given
    {
      Inv(View())
    }

    /** What a search for the next floodfill to ask would return. */
    ghost predicate IsNext(dest: Ident, excluded: set<Ident>, next: Option<Ident>)
      reads this`floodfills
    {
      IsClosest(Reachable(floodfills) - excluded, createRoutingKey(dest), MaxDistance(), next)
    }

    constructor (createRoutingKey: Ident -> Ident, floodfills: seq<Router>)
      ensures Valid() && View() == System(map[], [], {}) && this.floodfills == floodfills && routerTimes == map[]
      ensures this.createRoutingKey == createRoutingKey
    {
      this.createRoutingKey, this.floodfills := createRoutingKey, floodfills;
      routerTimes, requestedDestinations, fired, given := map[], map[], [], {};
    }

    method RequestComplete(dest: Ident, r: Option<RouterId>)
      requires Valid()
      modifies this`requestedDestinations, this`fired
      ensures Valid() && View() == Spec.RequestComplete(old(View()), dest, r)
    {
      CompleteOk(View(), dest, r);
      if dest in requestedDestinations {
        fired := Fire(fired, requestedDestinations[dest].callback, r);
        requestedDestinations := requestedDestinations - {dest};
      }
    }

    /** True if a new request was made; a request that exists already makes the callback fail at once. */
    method CreateRequest(dest: Ident, exploratory: bool, cb: Option<Callback>) returns (created: bool)
      requires Valid() && (cb.Some? ==> cb.value !in given)
      modifies this`requestedDestinations, this`fired, this`given
      ensures Valid() && View() == Spec.CreateRequest(old(View()), dest, exploratory, cb)
      ensures created == (dest !in old(requestedDestinations))
    {
      CreateOk(View(), dest, exploratory, cb);
      given := if cb.Some? then given + {cb.value} else given;
      created := dest !in requestedDestinations;
      if created {
        requestedDestinations := requestedDestinations[dest := Request(exploratory, {}, 0, cb, [])];
      } else {
        fired := Fire(fired, cb, None);
      }
    }

    method RequestDestination(dest: Ident, cb: Option<Callback>, ts: nat)
      requires Valid() && (cb.Some? ==> cb.value !in given)
      modifies this`requestedDestinations, this`fired, this`given
      ensures Valid()
      ensures exists next :: IsNext(dest, {}, next) &&
                             View() == Spec.RequestDestination(old(View()), dest, false, cb, next, ts)
    {
      var next := GetClosestFloodfill(floodfills, createRoutingKey(dest), {});
      assert IsNext(dest, {}, next);
      AskOk(View(), dest, false, cb, next, ts);
      var created := CreateRequest(dest, false, cb);
      if created {
        if next.Some? {
          requestedDestinations := requestedDestinations[dest := Contacted(requestedDestinations[dest], next.value, ts)];
        } else {
          RequestComplete(dest, None);
        }
      }
    }

    /** Not known, or published more than an hour before. */
    predicate Wanted(router: Ident, now: nat)
      reads this`routerTimes
    {
      router !in routerTimes || now > routerTimes[router] + 3600 * 1000
    }

    function AllWanted(routers: seq<Ident>, now: nat): seq<Ident>
      reads this`routerTimes
    {
      if routers == [] then []
      else AllWanted(routers[..|routers| - 1], now) +
           if Wanted(routers[|routers| - 1], now) then [routers[|routers| - 1]] else []
    }

    /** A new request for `dest` to the closest floodfill. */
    ghost predicate IsAsk(a: Action, dest: Ident, ts: nat)
      reads this`floodfills
    {
      a.Ask? && a == Ask(dest, false, None, a.next, ts) && IsNext(dest, {}, a.next)
    }

    ghost predicate AreAsks(asks: seq<Action>, dests: seq<Ident>, ts: nat)
      reads this`floodfills
    {
      |asks| == |dests| && forall i :: 0 <= i < |dests| ==> IsAsk(asks[i], dests[i], ts)
    }

    /** The answer about `dest`, with the next floodfill for it. */
    ghost predicate IsReply(a: Action, dest: Ident, num: nat, tunnels: bool, ts: nat, requests: map<Ident, Request>)
      reads this`floodfills
    {
      && a.Reply? && a == Reply(dest, num, tunnels, a.next, ts)
      && (dest in requests ==> IsNext(dest, requests[dest].excluded, a.next))
    }

    /** The request itself moves on or ends. */
    method ContinueRequest(dest: Ident, num: nat, tunnels: bool, ts: nat) returns (ghost reply: Action)
      requires Valid()
      modifies this`requestedDestinations, this`fired
      ensures Valid() && IsReply(reply, dest, num, tunnels, ts, old(requestedDestinations))
      ensures Allowed(old(View()), reply) && View() == Step(old(View()), reply)
    {
      reply := Reply(dest, num, tunnels, None, ts);
      if dest in requestedDestinations {
        var r := requestedDestinations[dest];
        var next := GetClosestFloodfill(floodfills, createRoutingKey(dest), r.excluded);
        reply := Reply(dest, num, tunnels, next, ts);
        StepOk(View(), reply);
        if num > 0 && !r.exploratory && tunnels && |r.excluded| < MAX_FLOODFILLS && next.Some? {
          requestedDestinations := requestedDestinations[dest := Contacted(r, next.value, ts)];
        } else {
          RequestComplete(dest, None);
        }
      }
    }

    /** A request nobody waits for. */
    method RequestNamed(router: Ident, ts: nat) returns (ghost ask: Action)
      requires Valid()
      modifies this`requestedDestinations, this`fired, this`given
      ensures Valid() && IsAsk(ask, router, ts)
      ensures Allowed(old(View()), ask) && View() == Step(old(View()), ask)
    {
      ghost var y := View();
      RequestDestination(router, None, ts);
      ghost var next :| IsNext(router, {}, next) && View() == Spec.RequestDestination(y, router, false, None, next, ts);
      ask := Ask(router, false, None, next, ts);
    }

    /**
     A floodfill names other routers instead of the one asked for: the request moves on or ends, and every router
     named that is not known, or outdated, is requested in turn.
     */
    method HandleDatabaseSearchReplyMsg(dest: Ident, routers: seq<Ident>, tunnels: bool, ts: nat, now: nat)
      requires Valid()
      modifies this`requestedDestinations, this`fired, this`given
      ensures Valid()
      ensures exists reply, asks ::
                && IsReply(reply, dest, |routers|, tunnels, ts, old(requestedDestinations))
                && AreAsks(asks, AllWanted(routers, now), ts)
                && AllowedRun(old(View()), [reply] + asks) && View() == Run(old(View()), [reply] + asks)
    {
      ghost var before := View();
      ghost var reply := ContinueRequest(dest, |routers|, tunnels, ts);
      ghost var asks: seq<Action> := [];
      RunAppend(before, [], reply);
      for i := 0 to |routers|
        invariant Valid() && AreAsks(asks, AllWanted(routers[..i], now), ts)
        invariant AllowedRun(before, [reply] + asks) && View() == Run(before, [reply] + asks)
      {
        var router := routers[i];
        assert routers[..i + 1][..i] == routers[..i];
        if Wanted(router, now) {
          ghost var ask := RequestNamed(router, ts);
          RunAppend(before, [reply] + asks, ask);
          assert [reply] + asks + [ask] == [reply] + (asks + [ask]);
          asks := asks + [ask];
        }
      }
      assert routers[..|routers|] == routers;
    }

    /** The sweep over `dests`, one request after the other, each with the next floodfill for it. */
    ghost predicate IsSweep(sweep: seq<Action>, dests: set<Ident>, requests: map<Ident, Request>, tunnels: bool, ts: nat)
      reads this`floodfills
    {
      && |sweep| == |dests| && (forall i :: 0 <= i < |sweep| ==> sweep[i].dest in dests)
      && (forall i, j :: 0 <= i < j < |sweep| ==> sweep[i].dest != sweep[j].dest)
      && forall i :: 0 <= i < |sweep| ==>
           IsManage(sweep[i], requests, tunnels, ts)
    }

    ghost predicate IsManage(one: Action, requests: map<Ident, Request>, tunnels: bool, ts: nat)
      reads this`floodfills
    {
      && one.Manage? && one.tunnels == tunnels && one.ts == ts
      && one.dest in requests && IsNext(one.dest, requests[one.dest].excluded, one.next)
    }

    lemma SweepGrows(sweep: seq<Action>, one: Action, left: set<Ident>, requests: map<Ident, Request>, tunnels: bool, ts: nat)
      requires IsSweep(sweep, requests.Keys - left, requests, tunnels, ts) && IsManage(one, requests, tunnels, ts)
      requires one.dest in left && left <= requests.Keys
      ensures IsSweep(sweep + [one], requests.Keys - (left - {one.dest}), requests, tunnels, ts)
    {
      assert requests.Keys - (left - {one.dest}) == (requests.Keys - left) + {one.dest};
    }

    /** The sweep that began in `y` has done all but `left`. */
    ghost predicate Sweeping(y: System, sweep: seq<Action>, left: set<Ident>, tunnels: bool, ts: nat)
      reads this`floodfills, this`requestedDestinations, this`fired, this`given
    {
      && Valid() && left <= requestedDestinations.Keys <= y.requests.Keys
      && (forall d :: d in left ==> requestedDestinations[d] == y.requests[d])
      && IsSweep(sweep, y.requests.Keys - left, y.requests, tunnels, ts)
      && AllowedRun(y, sweep) && View() == Run(y, sweep)
    }

    method SweepOne(d: Ident, tunnels: bool, ts: nat, ghost y: System, ghost sweep: seq<Action>, ghost left: set<Ident>)
      returns (ghost more: seq<Action>)
      requires Sweeping(y, sweep, left, tunnels, ts) && d in left
      modifies this`requestedDestinations, this`fired
      ensures Sweeping(y, more, left - {d}, tunnels, ts)
    {
      ghost var one := ManageOne(d, tunnels, ts);
      RunAppend(y, sweep, one);
      SweepGrows(sweep, one, left, y.requests, tunnels, ts);
      more := sweep + [one];
    }

    /** The sweep: requests without an answer move on to the next floodfill or are dropped. */
    method ManageRequests(tunnels: bool, ts: nat) returns (ghost sweep: seq<Action>)
      requires Valid()
      modifies this`requestedDestinations, this`fired
      ensures Valid() && requestedDestinations.Keys <= old(requestedDestinations).Keys
      ensures forall d :: d in old(requestedDestinations) ==> Swept(old(requestedDestinations)[d], d, tunnels, ts, Outcome(d))
      ensures IsSweep(sweep, old(requestedDestinations).Keys, old(requestedDestinations), tunnels, ts)
      ensures AllowedRun(old(View()), sweep) && View() == Run(old(View()), sweep)
    {
      ghost var y := View();
      sweep := SweepAll(tunnels, ts);
      assert y.requests.Keys - {} == y.requests.Keys;
      SweepMeans(y, sweep, tunnels, ts);
    }

    method SweepAll(tunnels: bool, ts: nat) returns (ghost sweep: seq<Action>)
      requires Valid()
      modifies this`requestedDestinations, this`fired
      ensures Sweeping(old(View()), sweep, {}, tunnels, ts)
    {
      ghost var y := View();
      var left := requestedDestinations.Keys;
      sweep := [];
      while left != {}
        invariant Sweeping(y, sweep, left, tunnels, ts)
        decreases |left|
      {
        var d :| d in left;
        sweep := SweepOne(d, tunnels, ts, y, sweep, left);
        left := left - {d};
      }
    }

    /** What the sweep leaves of each request. */
    lemma SweepMeans(y: System, sweep: seq<Action>, tunnels: bool, ts: nat)
      requires IsSweep(sweep, y.requests.Keys, y.requests, tunnels, ts) && AllowedRun(y, sweep) && View() == Run(y, sweep)
      ensures forall d :: d in y.requests ==> Swept(y.requests[d], d, tunnels, ts, Outcome(d))
    {
      forall d | d in y.requests ensures Swept(y.requests[d], d, tunnels, ts, Outcome(d)) {
        var i := Sweeps(sweep, y.requests.Keys, y.requests, tunnels, ts, d);
        SweptOnce(y, sweep, i);
      }
    }

    lemma Sweeps(sweep: seq<Action>, dests: set<Ident>, requests: map<Ident, Request>, tunnels: bool, ts: nat, d: Ident) returns (i: nat)
      requires IsSweep(sweep, dests, requests, tunnels, ts) && d in dests
      ensures i < |sweep| && sweep[i].dest == d
    {
      AllThere(sweep, dests);
      i :| 0 <= i < |sweep| && sweep[i].dest == d;
    }

    /** What is left of the request for `d`. */
    ghost function Outcome(d: Ident): Option<Request>
      reads this`requestedDestinations
    {
      if d in requestedDestinations then Some(requestedDestinations[d]) else None
    }

    /** The sweep turns the request `r` for `d` into `outcome`. */
    ghost predicate Swept(r: Request, d: Ident, tunnels: bool, ts: nat, outcome: Option<Request>)
      reads this`floodfills
    {
      exists next :: IsNext(d, r.excluded, next) && outcome == Managed(r, tunnels, next, ts)
    }

    method ManageOne(d: Ident, tunnels: bool, ts: nat) returns (ghost one: Action)
      requires Valid() && d in requestedDestinations
      modifies this`requestedDestinations, this`fired
      ensures one.Manage? && one == Manage(d, tunnels, one.next, ts) && IsNext(d, old(requestedDestinations)[d].excluded, one.next)
      ensures Allowed(old(View()), one) && View() == Step(old(View()), one)
      ensures Valid() && Swept(old(requestedDestinations)[d], d, tunnels, ts, Outcome(d))
      ensures forall x :: x != d ==> (x in requestedDestinations <==> x in old(requestedDestinations))
      ensures forall x :: x != d && x in requestedDestinations ==> requestedDestinations[x] == old(requestedDestinations)[x]
    {
      var r := requestedDestinations[d];
      var next := GetClosestFloodfill(floodfills, createRoutingKey(d), r.excluded);
      assert IsNext(d, r.excluded, next);
      one := Manage(d, tunnels, next, ts);
      StepOk(View(), one);
      var done := false;
      if ts < r.created + 60 {
        if ts > r.created + 5 {
          if !r.exploratory && |r.excluded| < MAX_FLOODFILLS && next.Some? && tunnels {
            requestedDestinations := requestedDestinations[d := Contacted(r, next.value, ts)];
          } else {
            done := true;
          }
        }
      } else {
        done := true;
      }
      if done {
        RequestComplete(d, None);
      }
    }
  }
}
