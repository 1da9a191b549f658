/**
 Kademlia search: the distance between two idents is their exclusive or, read as a number. The searches go over
 the known routers once and keep the best so far.
 */
module NetDbClosest {
  import opened Wrappers
  import opened Bytes
  import opened Cbc

  type Ident = s: seq<byte> | |s| == 32 witness seq(32, i => 0)

  datatype Router = Router(ident: Ident, floodfill: bool, unreachable: bool)

  // ---------------------------------------------------------------- the metric

  function Metric(a: Ident, b: Ident): Ident {
    seq(32, i requires 0 <= i < 32 => XorByte(a[i], b[i]))
  }

  function Distance(key: Ident, a: Ident): nat {
    FromBigEndian(Metric(key, a))
  }

  /** The order of memory comparison: the first byte that differs decides. */
  ghost predicate ComesBefore(s: seq<byte>, t: seq<byte>)
    requires |s| == |t|
  {
    exists i :: 0 <= i < |s| && s[..i] == t[..i] && s[i] < t[i]
  }

  lemma SameNumber(s: seq<byte>, t: seq<byte>)
    requires |s| == |t| && FromBigEndian(s) == FromBigEndian(t)
    ensures s == t
  {
    FromBigEndianRoundTrip(s);
    FromBigEndianRoundTrip(t);
  }

  /** Comparing metrics byte by byte is comparing distances. */
  lemma {:induction false} OrderIsNumeric(s: seq<byte>, t: seq<byte>)
    requires |s| == |t|
    ensures ComesBefore(s, t) <==> FromBigEndian(s) < FromBigEndian(t)
    decreases |s|
  {
    if s != [] {
      var n := |s| - 1;
      var s', t' := s[..n], t[..n];
      OrderIsNumeric(s', t');
      if ComesBefore(s', t') {
        var i :| 0 <= i < n && s'[..i] == t'[..i] && s'[i] < t'[i];
        assert s[..i] == s'[..i] && t[..i] == t'[..i];
      }
      if ComesBefore(s, t) {
        var i :| 0 <= i < |s| && s[..i] == t[..i] && s[i] < t[i];
        if i < n {
          assert s'[..i] == s[..i] && t'[..i] == t[..i] && s'[i] < t'[i];
        }
      }
      if FromBigEndian(s') == FromBigEndian(t') {
        SameNumber(s', t');
      }
    }
  }

  lemma XorByteInjective(k: byte, a: byte, b: byte)
    requires XorByte(k, a) == XorByte(k, b)
    ensures a == b
  {
    XorBitsCommutes(k, a, 8);
    XorBitsCommutes(k, b, 8);
    XorByteTwice(a, k);
    XorByteTwice(b, k);
  }

  /** Distance to a fixed key tells idents apart. */
  lemma DistanceInjective(key: Ident, a: Ident, b: Ident)
    requires Distance(key, a) == Distance(key, b)
    ensures a == b
  {
    SameNumber(Metric(key, a), Metric(key, b));
    forall i | 0 <= i < 32 ensures a[i] == b[i] {
      assert Metric(key, a)[i] == Metric(key, b)[i];
      XorByteInjective(key[i], a[i], b[i]);
    }
  }

  /** The metric of all one bits, from which the searches start. */
  function MaxDistance(): nat {
    FromBigEndian(seq(32, i => 255))
  }

  /** No ident is further away than that, and only the complement of the key is that far. */
  lemma FurthestIsComplement(key: Ident, a: Ident)
    ensures Distance(key, a) <= MaxDistance()
    ensures Distance(key, a) == MaxDistance() <==> Metric(key, a) == seq(32, i => 255)
  {
    var m, ones: seq<byte> := Metric(key, a), seq(32, i => 255);
    assert !ComesBefore(ones, m);
    OrderIsNumeric(ones, m);
    if Distance(key, a) == MaxDistance() {
      SameNumber(m, ones);
    }
  }

  // ---------------------------------------------------------------- the nearest one

  /** `r` is the one member of `s` nearest to the key, among those nearer than `max`. */
  ghost predicate IsClosest(s: set<Ident>, key: Ident, max: nat, r: Option<Ident>) {
    if r.None? then forall a :: a in s ==> Distance(key, a) >= max
    else
      && r.value in s && Distance(key, r.value) < max
      && forall a :: a in s && a != r.value ==> Distance(key, r.value) < Distance(key, a)
  }

  /** There is only one such. */
  lemma ClosestUnique(s: set<Ident>, key: Ident, max: nat, r: Option<Ident>, r': Option<Ident>)
    requires IsClosest(s, key, max, r) && IsClosest(s, key, max, r')
    ensures r == r'
  {
  }

  function Reachable(routers: seq<Router>): set<Ident> {
    set r | r in routers && !r.unreachable :: r.ident
  }

  function NonFloodfills(routers: seq<Router>): set<Ident> {
    set r | r in routers && !r.floodfill :: r.ident
  }

  lemma ReachableNext(routers: seq<Router>, i: nat)
    requires i < |routers|
    ensures Reachable(routers[..i + 1]) ==
            Reachable(routers[..i]) + if routers[i].unreachable then {} else {routers[i].ident}
    ensures NonFloodfills(routers[..i + 1]) ==
            NonFloodfills(routers[..i]) + if routers[i].floodfill then {} else {routers[i].ident}
  {
    assert routers[..i + 1] == routers[..i] + [routers[i]];
  }

  /** One more candidate: it replaces the best so far if it is nearer. */
  lemma Better(s: set<Ident>, key: Ident, max: nat, r: Option<Ident>, a: Ident)
    requires IsClosest(s, key, max, r)
    ensures var best := if r.None? then max else Distance(key, r.value);
            IsClosest(s + {a}, key, max, if Distance(key, a) < best then Some(a) else r)
  {
    if r.Some? && Distance(key, a) == Distance(key, r.value) {
      DistanceInjective(key, a, r.value);
    }
  }

  method GetClosestFloodfill(floodfills: seq<Router>, key: Ident, excluded: set<Ident>) returns (r: Option<Ident>)
    ensures IsClosest(Reachable(floodfills) - excluded, key, MaxDistance(), r)
  {
    r := None;
    var max := MaxDistance();
    var minMetric := max;
    for i := 0 to |floodfills|
      invariant IsClosest(Reachable(floodfills[..i]) - excluded, key, max, r)
      invariant minMetric == if r.None? then max else Distance(key, r.value)
    {
      var it := floodfills[i];
      ReachableNext(floodfills, i);
      ghost var s := Reachable(floodfills[..i]) - excluded;
      if !it.unreachable {
        Better(s, key, max, r, it.ident);
        var m := Distance(key, it.ident);
        if it.ident !in excluded {
          assert Reachable(floodfills[..i + 1]) - excluded == s + {it.ident};
          if m < minMetric {
            minMetric, r := m, Some(it.ident);
          }
        } else {
          assert Reachable(floodfills[..i + 1]) - excluded == s;
        }
      } else {
        assert Reachable(floodfills[..i + 1]) - excluded == s;
      }
    }
    assert floodfills[..|floodfills|] == floodfills;
  }

  method GetClosestNonFloodfill(routers: seq<Router>, key: Ident, excluded: set<Ident>) returns (r: Option<Ident>)
    ensures IsClosest(NonFloodfills(routers) - excluded, key, MaxDistance(), r)
  {
    r := None;
    var max := MaxDistance();
    var minMetric := max;
    for i := 0 to |routers|
      invariant IsClosest(NonFloodfills(routers[..i]) - excluded, key, max, r)
      invariant minMetric == if r.None? then max else Distance(key, r.value)
    {
      var it := routers[i];
      ReachableNext(routers, i);
      ghost var s := NonFloodfills(routers[..i]) - excluded;
      if !it.floodfill && it.ident !in excluded {
        Better(s, key, max, r, it.ident);
        assert NonFloodfills(routers[..i + 1]) - excluded == s + {it.ident};
        var m := Distance(key, it.ident);
        if m < minMetric {
          minMetric, r := m, Some(it.ident);
        }
      } else {
        assert NonFloodfills(routers[..i + 1]) - excluded == s;
      }
    }
    assert routers[..|routers|] == routers;
  }

  // ---------------------------------------------------------------- the nearest few

  ghost predicate Ascending(key: Ident, s: seq<Ident>) {
    forall i, j :: 0 <= i < j < |s| ==> Distance(key, s[i]) < Distance(key, s[j])
  }

  /** `top` are the `num` members of `s` nearest to the key, or all of them if there are fewer, nearest first. */
  ghost predicate IsNearest(s: set<Ident>, key: Ident, num: nat, top: seq<Ident>) {
    && Ascending(key, top) && |top| <= num && (forall a :: a in top ==> a in s)
    && (forall a :: a in s && a !in top ==> |top| == num && forall b :: b in top ==> Distance(key, b) < Distance(key, a))
  }

  /** There is only one such list. */
  lemma {:induction false} NearestUnique(s: set<Ident>, key: Ident, num: nat, top: seq<Ident>, top': seq<Ident>)
    requires IsNearest(s, key, num, top) && IsNearest(s, key, num, top')
    ensures top == top'
    decreases num
  {
    assert top != [] ==> top[0] in top;
    assert top' != [] ==> top'[0] in top';
    if top != [] && top' != [] {
      FirstIsClosest(s, key, num, top);
      FirstIsClosest(s, key, num, top');
      assert top[0] in top && top'[0] in top';
      var a := top[0];
      assert top'[0] == a;
      WithoutFirst(s, key, num, top);
      WithoutFirst(s, key, num, top');
      NearestUnique(s - {a}, key, num - 1, top[1..], top'[1..]);
      assert top == [a] + top[1..] && top' == [a] + top'[1..];
    }
  }

  lemma FirstIsClosest(s: set<Ident>, key: Ident, num: nat, top: seq<Ident>)
    requires IsNearest(s, key, num, top) && top != []
    ensures forall a :: a in s && a != top[0] ==> Distance(key, top[0]) < Distance(key, a)
  {
    assert top[0] in top;
  }

  lemma WithoutFirst(s: set<Ident>, key: Ident, num: nat, top: seq<Ident>)
    requires IsNearest(s, key, num, top) && top != []
    ensures IsNearest(s - {top[0]}, key, num - 1, top[1..])
  {
    var rest := top[1..];
    forall i, j | 0 <= i < j < |rest| ensures Distance(key, rest[i]) < Distance(key, rest[j]) {
      assert rest[i] == top[i + 1] && rest[j] == top[j + 1];
    }
    forall a | a in rest ensures a in top && a != top[0] {
    }
    forall a | a in s - {top[0]} && a !in rest ensures a !in top {
    }
  }

  /** Ordered insertion. */
  function Insert(key: Ident, s: seq<Ident>, a: Ident): (r: seq<Ident>)
    ensures |r| == |s| + 1
  {
    if s == [] || Distance(key, a) < Distance(key, s[0]) then [a] + s else [s[0]] + Insert(key, s[1..], a)
  }

  lemma {:induction false} InsertMembers(key: Ident, s: seq<Ident>, a: Ident, b: Ident)
    ensures b in Insert(key, s, a) <==> b in s || b == a
    decreases |s|
  {
    if s != [] && Distance(key, a) >= Distance(key, s[0]) {
      InsertMembers(key, s[1..], a, b);
    }
  }

  lemma {:induction false} InsertAscends(key: Ident, s: seq<Ident>, a: Ident)
    requires Ascending(key, s) && a !in s
    ensures Ascending(key, Insert(key, s, a))
    decreases |s|
  {
    if s != [] && Distance(key, a) >= Distance(key, s[0]) {
      var rest := Insert(key, s[1..], a);
      InsertAscends(key, s[1..], a);
      if Distance(key, a) == Distance(key, s[0]) {
        DistanceInjective(key, a, s[0]);
      }
      forall b | b in rest ensures Distance(key, s[0]) < Distance(key, b) {
        InsertMembers(key, s[1..], a, b);
      }
      AscendingCons(key, s[0], rest);
    }
  }

  lemma AscendingCons(key: Ident, a: Ident, rest: seq<Ident>)
    requires Ascending(key, rest) && forall b :: b in rest ==> Distance(key, a) < Distance(key, b)
    ensures Ascending(key, [a] + rest)
  {
    assert forall j :: 0 <= j < |rest| ==> rest[j] in rest;
  }

  /** A list not yet full takes any new candidate. */
  lemma NearestGrows(s: set<Ident>, key: Ident, num: nat, top: seq<Ident>, a: Ident)
    requires IsNearest(s, key, num, top) && a !in s && |top| < num
    ensures IsNearest(s + {a}, key, num, Insert(key, top, a))
  {
    InsertAscends(key, top, a);
    forall b ensures b in Insert(key, top, a) <==> b in top || b == a {
      InsertMembers(key, top, a, b);
    }
  }

  /** Into a full list, a nearer candidate comes in and the last one drops out. */
  lemma NearestReplaces(s: set<Ident>, key: Ident, num: nat, top: seq<Ident>, a: Ident)
    requires IsNearest(s, key, num, top) && a !in s && |top| == num > 0
    requires Distance(key, a) < Distance(key, top[num - 1])
    ensures IsNearest(s + {a}, key, num, Insert(key, top, a)[..num])
  {
    var all := Insert(key, top, a);
    InsertAscends(key, top, a);
    forall b ensures b in all <==> b in top || b == a {
      InsertMembers(key, top, a, b);
    }
    var z, kept := all[num], all[..num];
    assert all == kept + [z];
    assert top[num - 1] in top && top[num - 1] in all;
    forall b | b in s + {a} && b !in kept ensures forall c :: c in kept ==> Distance(key, c) < Distance(key, b) {
      if b == z {
        LastIsFurthest(key, all);
      } else {
        NotDropped(s, key, num, top, a, all, b);
      }
    }
    assert forall b :: b in kept ==> b in all;
  }

  lemma LastIsFurthest(key: Ident, s: seq<Ident>)
    requires Ascending(key, s) && s != []
    ensures forall c :: c in s[..|s| - 1] ==> Distance(key, c) < Distance(key, s[|s| - 1])
  {
    forall c | c in s[..|s| - 1] ensures Distance(key, c) < Distance(key, s[|s| - 1]) {
      var i :| 0 <= i < |s| - 1 && s[..|s| - 1][i] == c;
      assert s[i] == c;
    }
  }

  /** A candidate outside the list before and after is further away than everything inside. */
  lemma NotDropped(s: set<Ident>, key: Ident, num: nat, top: seq<Ident>, a: Ident, all: seq<Ident>, b: Ident)
    requires IsNearest(s, key, num, top) && |top| == num > 0 && Distance(key, a) < Distance(key, top[num - 1])
    requires |all| == num + 1 && (forall c :: c in all <==> c in top || c == a)
    requires b in s + {a} && b !in all[..num] && b != all[num]
    ensures forall c :: c in all[..num] ==> Distance(key, c) < Distance(key, b)
  {
    assert all == all[..num] + [all[num]];
    assert b !in all && b in s && b !in top;
    assert top[num - 1] in top;
  }

  lemma NearestStays(s: set<Ident>, key: Ident, num: nat, top: seq<Ident>, a: Ident)
    requires IsNearest(s, key, num, top) && a !in s && |top| == num > 0
    requires Distance(key, a) >= Distance(key, top[num - 1])
    ensures IsNearest(s + {a}, key, num, top)
  {
    var last := top[num - 1];
    assert last in top;
    if Distance(key, a) == Distance(key, last) {
      DistanceInjective(key, a, last);
    }
    forall b | b in top ensures Distance(key, b) < Distance(key, a) {
      var i :| 0 <= i < num && top[i] == b;
    }
  }

  function NotExcluded(s: seq<Ident>, excluded: set<Ident>): seq<Ident> {
    if s == [] then [] else (if s[0] in excluded then [] else [s[0]]) + NotExcluded(s[1..], excluded)
  }

  /** An ordered set: a member is not taken in again. */
  function SetInsert(key: Ident, s: seq<Ident>, a: Ident): seq<Ident> {
    if a in s then s else Insert(key, s, a)
  }

  /** One candidate: a full set that may take it loses its last member, whether the candidate was new or not. */
  function TakeIn(key: Ident, num: nat, s: seq<Ident>, a: Ident): seq<Ident>
    requires num > 0
  {
    if |s| < num then SetInsert(key, s, a)
    else if Distance(key, a) < Distance(key, s[|s| - 1]) then
      var t := SetInsert(key, s, a);
      t[..|t| - 1]
    else s
  }

  /** All candidates in turn. */
  function Collected(key: Ident, num: nat, idents: seq<Ident>): seq<Ident>
    requires num > 0 || idents == []
  {
    if idents == [] then []
    else TakeIn(key, num, Collected(key, num, idents[..|idents| - 1]), idents[|idents| - 1])
  }

  /** A candidate that is in a full list already, but not at its end. */
  predicate Repeats(num: nat, s: seq<Ident>, a: Ident) {
    |s| == num && a in s && a != s[|s| - 1]
  }

  /** The list stays the nearest candidates exactly if the new one is not such a repetition. */
  lemma TakeInExact(s: set<Ident>, key: Ident, num: nat, top: seq<Ident>, a: Ident)
    requires IsNearest(s, key, num, top) && num > 0
    ensures IsNearest(s + {a}, key, num, TakeIn(key, num, top, a)) <==> !Repeats(num, top, a)
  {
    if a in s {
      assert s + {a} == s;
      if Repeats(num, top, a) {
        LosesLast(s, key, num, top, a);
      } else if |top| == num {
        NotNearer(s, key, num, top, a);
      }
    } else if |top| < num {
      NearestGrows(s, key, num, top, a);
    } else if Distance(key, a) < Distance(key, top[num - 1]) {
      NearestReplaces(s, key, num, top, a);
    } else {
      NearestStays(s, key, num, top, a);
    }
  }

  lemma LosesLast(s: set<Ident>, key: Ident, num: nat, top: seq<Ident>, a: Ident)
    requires IsNearest(s, key, num, top) && num > 0 && Repeats(num, top, a)
    ensures !IsNearest(s, key, num, TakeIn(key, num, top, a))
  {
    var i :| 0 <= i < num && top[i] == a;
    assert i < num - 1;
    assert TakeIn(key, num, top, a) == top[..num - 1];
    assert top[num - 1] in top;
    LastIsFurthest(key, top);
    assert top[num - 1] !in top[..num - 1];
  }

  lemma NotNearer(s: set<Ident>, key: Ident, num: nat, top: seq<Ident>, a: Ident)
    requires IsNearest(s, key, num, top) && |top| == num > 0 && a in s && !Repeats(num, top, a)
    ensures TakeIn(key, num, top, a) == top
  {
    assert top[num - 1] in top;
  }

  /** Whatever the candidates: nearest first, no more than `num`, all of them candidates. */
  lemma {:induction false} CollectedFacts(key: Ident, num: nat, idents: seq<Ident>)
    requires num > 0 || idents == []
    ensures var s := Collected(key, num, idents);
            Ascending(key, s) && |s| <= num && forall a :: a in s ==> a in idents
    decreases |idents|
  {
    if idents != [] {
      var before, a := idents[..|idents| - 1], idents[|idents| - 1];
      CollectedFacts(key, num, before);
      var s := Collected(key, num, before);
      if a !in s {
        InsertAscends(key, s, a);
      }
      forall b | b in SetInsert(key, s, a) ensures b in idents {
        InsertMembers(key, s, a, b);
      }
    }
  }

  /** No candidate repeats one that a full list holds, other than its last. */
  ghost predicate NoRepeats(key: Ident, num: nat, idents: seq<Ident>)
    requires num > 0 || idents == []
  {
    forall i :: 0 <= i < |idents| ==> !Repeats(num, Collected(key, num, idents[..i]), idents[i])
  }

  function AsSet(idents: seq<Ident>): set<Ident> {
    set a | a in idents
  }

  lemma NoRepeatsBefore(key: Ident, num: nat, idents: seq<Ident>)
    requires num > 0 && NoRepeats(key, num, idents) && idents != []
    ensures NoRepeats(key, num, idents[..|idents| - 1])
  {
    var before := idents[..|idents| - 1];
    forall i | 0 <= i < |before| ensures !Repeats(num, Collected(key, num, before[..i]), before[i]) {
      assert before[..i] == idents[..i];
    }
  }

  lemma LastJoins(idents: seq<Ident>)
    requires idents != []
    ensures AsSet(idents) == AsSet(idents[..|idents| - 1]) + {idents[|idents| - 1]}
  {
    assert idents == idents[..|idents| - 1] + [idents[|idents| - 1]];
  }

  lemma {:induction false} CollectedNearest(key: Ident, num: nat, idents: seq<Ident>)
    requires (num > 0 || idents == []) && NoRepeats(key, num, idents)
    ensures IsNearest(AsSet(idents), key, num, Collected(key, num, idents))
    decreases |idents|
  {
    if idents != [] {
      var before, a := idents[..|idents| - 1], idents[|idents| - 1];
      NoRepeatsBefore(key, num, idents);
      CollectedNearest(key, num, before);
      LastJoins(idents);
      TakeInExact(AsSet(before), key, num, Collected(key, num, before), a);
    }
  }

  /** Different candidates never repeat. */
  lemma DifferentIsEnough(key: Ident, num: nat, idents: seq<Ident>)
    requires num > 0 || idents == []
    requires forall i, j :: 0 <= i < j < |idents| ==> idents[i] != idents[j]
    ensures NoRepeats(key, num, idents)
  {
    forall i | 0 <= i < |idents| ensures !Repeats(num, Collected(key, num, idents[..i]), idents[i]) {
      CollectedFacts(key, num, idents[..i]);
    }
  }

  /** Seeing the nearer of two twice loses the other one. */
  lemma RepeatLoses(key: Ident, a: Ident, b: Ident)
    requires Distance(key, a) < Distance(key, b)
    ensures Collected(key, 2, [a, b, a]) == [a] && !IsNearest(AsSet([a, b, a]), key, 2, [a])
  {
    var three, two, one := [a, b, a], [a, b], [a];
    assert three[..2] == two && two[..1] == one && one[..0] == [];
    assert Collected(key, 2, []) == [];
    assert Collected(key, 2, one) == [a];
    assert Insert(key, [a], b) == [a] + Insert(key, [], b);
    assert Collected(key, 2, two) == [a, b];
    assert Collected(key, 2, three) == [a, b][..1];
    assert b in AsSet(three) && b !in [a];
  }

  /** The idents of the reachable routers, in order. */
  function ReachableIdents(routers: seq<Router>): seq<Ident> {
    if routers == [] then []
    else
      var last := routers[|routers| - 1];
      ReachableIdents(routers[..|routers| - 1]) + if last.unreachable then [] else [last.ident]
  }

  lemma {:induction false} SameReachable(routers: seq<Router>)
    ensures AsSet(ReachableIdents(routers)) == Reachable(routers)
    decreases |routers|
  {
    if routers != [] {
      var n := |routers| - 1;
      SameReachable(routers[..n]);
      assert routers[..n + 1] == routers;
      ReachableNext(routers, n);
    }
  }

  /** One more router on both sides. */
  lemma NextCollected(routers: seq<Router>, key: Ident, num: nat, i: nat)
    requires i < |routers| && (num > 0 || Reachable(routers) == {})
    requires num > 0 || ReachableIdents(routers[..i]) == []
    ensures num > 0 || ReachableIdents(routers[..i + 1]) == []
    ensures var now := Collected(key, num, ReachableIdents(routers[..i]));
            && (!routers[i].unreachable ==> num > 0)
            && Collected(key, num, ReachableIdents(routers[..i + 1])) ==
               if routers[i].unreachable then now else TakeIn(key, num, now, routers[i].ident)
  {
    var now, next := ReachableIdents(routers[..i]), ReachableIdents(routers[..i + 1]);
    assert routers[..i + 1][..i] == routers[..i];
    if routers[i].unreachable {
      assert next == now;
    } else {
      assert routers[i].ident in Reachable(routers);
      assert next[..|next| - 1] == now;
    }
  }

  /** The bounded search: never more than `num` candidates are kept. */
  method CollectNearest(floodfills: seq<Router>, key: Ident, num: nat) returns (sorted: seq<Ident>)
    requires num > 0 || Reachable(floodfills) == {}
    ensures num > 0 || ReachableIdents(floodfills) == []
    ensures sorted == Collected(key, num, ReachableIdents(floodfills))
    ensures Ascending(key, sorted) && |sorted| <= num && forall a :: a in sorted ==> a in Reachable(floodfills)
    ensures NoRepeats(key, num, ReachableIdents(floodfills)) ==> IsNearest(Reachable(floodfills), key, num, sorted)
  {
    ghost var idents := ReachableIdents(floodfills);
    SameReachable(floodfills);
    assert num == 0 && idents != [] ==> idents[0] in AsSet(idents);
    sorted := [];
    for i := 0 to |floodfills|
      invariant num > 0 || ReachableIdents(floodfills[..i]) == []
      invariant sorted == Collected(key, num, ReachableIdents(floodfills[..i]))
    {
      var it := floodfills[i];
      NextCollected(floodfills, key, num, i);
      if !it.unreachable {
        if |sorted| < num {
          sorted := SetInsert(key, sorted, it.ident);
        } else if Distance(key, it.ident) < Distance(key, sorted[|sorted| - 1]) {
          sorted := SetInsert(key, sorted, it.ident);
          sorted := sorted[..|sorted| - 1];
        }
      }
    }
    assert floodfills[..|floodfills|] == floodfills;
    CollectedFacts(key, num, idents);
    if NoRepeats(key, num, idents) {
      CollectedNearest(key, num, idents);
    }
  }

  /** Those kept by the search that are not excluded, nearest first. */
  method GetClosestFloodfills(floodfills: seq<Router>, key: Ident, num: nat, excluded: set<Ident>) returns (res: seq<Ident>)
    requires num > 0 || Reachable(floodfills) == {}
    ensures num > 0 || ReachableIdents(floodfills) == []
    ensures var idents := ReachableIdents(floodfills);
            var top := Collected(key, num, idents);
            && res == NotExcluded(top, excluded)
            && (NoRepeats(key, num, idents) ==> IsNearest(Reachable(floodfills), key, num, top))
  {
    var sorted := CollectNearest(floodfills, key, num);
    res := [];
    var rest := sorted;
    while rest != []
      invariant |res| + |rest| <= num
      invariant res + NotExcluded(rest, excluded) == NotExcluded(sorted, excluded)
      decreases |rest|
    {
      if |res| < num {
        ConcatAssociates(res, if rest[0] in excluded then [] else [rest[0]], NotExcluded(rest[1..], excluded));
        if rest[0] !in excluded {
          res := res + [rest[0]];
        } else {
          assert res + [] == res;
        }
        rest := rest[1..];
      } else {
        break;
      }
    }
    assert res + [] == res;
  }

  // ---------------------------------------------------------------- exploration

  /** The candidates nearer than the furthest possible distance. */
  ghost function Candidates(s: set<Ident>, key: Ident): set<Ident> {
    set a | a in s && Distance(key, a) < MaxDistance()
  }

  /** Taking the closest, then the closest of the rest, three times, gives the three nearest. */
  method ExploratoryReply(routers: seq<Router>, key: Ident, excluded: set<Ident>) returns (res: seq<Ident>)
    ensures IsNearest(Candidates(NonFloodfills(routers) - excluded, key), key, 3, res)
  {
    res := [];
    var excludedRouters := excluded;
    ghost var all := Candidates(NonFloodfills(routers) - excluded, key);
    for i := 0 to 3
      invariant |res| <= i && IsNearest(all, key, |res|, res) && (|res| < i ==> IsNearest(all, key, 3, res))
      invariant forall a :: a in excludedRouters <==> a in excluded || a in res
    {
      var r := GetClosestNonFloodfill(routers, key, excludedRouters);
      NextNearest(NonFloodfills(routers), key, excluded, excludedRouters, res, r);
      if r.Some? {
        res, excludedRouters := res + [r.value], excludedRouters + {r.value};
      }
    }
  }

  /** The closest of the rest is the next in the list; if there is none, the list has everything. */
  lemma NextNearest(s: set<Ident>, key: Ident, excluded: set<Ident>, now: set<Ident>, res: seq<Ident>, r: Option<Ident>)
    requires var all := Candidates(s - excluded, key); IsNearest(all, key, |res|, res)
    requires (forall a :: a in now <==> a in excluded || a in res) && IsClosest(s - now, key, MaxDistance(), r)
    ensures var all := Candidates(s - excluded, key);
            if r.Some? then IsNearest(all, key, |res| + 1, res + [r.value])
            else forall num :: num >= |res| ==> IsNearest(all, key, num, res)
  {
    var all := Candidates(s - excluded, key);
    if r.Some? {
      assert r.value in all && r.value !in res;
      forall i | 0 <= i < |res| ensures Distance(key, res[i]) < Distance(key, r.value) {
        assert res[i] in res;
      }
      forall a | a in all && a !in res + [r.value] ensures Distance(key, r.value) < Distance(key, a) {
        assert a in s - now;
      }
    }
  }

  // ---------------------------------------------------------------- flooding

  /** Whom a floodfill passes a stored entry on to: the list of those excluded is never added to. */
  method FloodTargets(floodfills: seq<Router>, key: Ident) returns (targets: seq<Ident>)
    ensures targets == [] <==> IsClosest(Reachable(floodfills), key, MaxDistance(), None)
    ensures targets != [] ==>
              IsClosest(Reachable(floodfills), key, MaxDistance(), Some(targets[0])) && targets == seq(3, i => targets[0])
  {
    targets := [];
    var excluded: set<Ident> := {};
    var first := GetClosestFloodfill(floodfills, key, excluded);
    var s := Reachable(floodfills);
    assert s - excluded == s;
    for i := 0 to 3
      invariant targets == if first.Some? then seq(i, k => first.value) else []
    {
      var floodfill := GetClosestFloodfill(floodfills, key, excluded);
      ClosestUnique(s, key, MaxDistance(), first, floodfill);
      if floodfill.Some? {
        targets := targets + [floodfill.value];
      }
    }
  }
}
