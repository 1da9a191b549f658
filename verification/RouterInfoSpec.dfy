/**
 RouterInfo on the wire: addresses and properties as mappings of short strings, written by one function and
 read back by another.
 */
module RouterInfoSpec {
  import opened Wrappers
  import opened Bytes

  type Text = seq<byte>

  // ---------------------------------------------------------------- strings and mappings

  datatype Entry = Entry(key: Text, value: Text)

  /** Length in one byte, then that many characters. */
  function WriteString(t: Text): seq<byte> {
    [|t| % 256] + t[..|t| % 256]
  }

  datatype Read<T> = Read(value: T, rest: seq<byte>)

  function ReadString(s: seq<byte>): Option<Read<Text>> {
    if s == [] then None
    else
      var end := s[0] as int + 1;
      if |s| < end then None else Some(Read(s[1..end], s[end..]))
  }

  lemma StringRoundTrip(t: Text, tail: seq<byte>)
    requires |t| < 256
    ensures ReadString(WriteString(t) + tail) == Some(Read(t, tail)) && |WriteString(t)| == |t| + 1
  {
    var s := WriteString(t) + tail;
    assert t[..|t|] == t;
    assert s[1..1 + |t|] == t && s[1 + |t|..] == tail;
  }

  /** key=value; */
  function WriteEntry(e: Entry): seq<byte> {
    WriteString(e.key) + ([61] + (WriteString(e.value) + [59]))
  }

  function WriteEntries(es: seq<Entry>): seq<byte> {
    if es == [] then [] else WriteEntry(es[0]) + WriteEntries(es[1..])
  }

  /** The characters between are skipped, whatever they are. */
  function ReadEntry(s: seq<byte>): Option<Read<Entry>> {
    var k := ReadString(s);
    if k.None? || k.value.rest == [] then None
    else
      var v := ReadString(k.value.rest[1..]);
      if v.None? || v.value.rest == [] then None
      else Some(Read(Entry(k.value.value, v.value.value), v.value.rest[1..]))
  }

  /** Reads entries, one at a time, until `size` bytes are used up. */
  function ReadAll(read: seq<byte> -> Option<Read<Entry>>, s: seq<byte>, size: int): Option<Read<seq<Entry>>>
    decreases |s|
  {
    if size <= 0 then Some(Read([], s))
    else
      var e := read(s);
      if e.None? || |e.value.rest| >= |s| then None
      else Prefixed([e.value.value], ReadAll(read, e.value.rest, size - (|s| - |e.value.rest|)))
  }

  function ReadEntries(s: seq<byte>, size: int): Option<Read<seq<Entry>>> {
    ReadAll(ReadEntry, s, size)
  }

  predicate Short(e: Entry) {
    |e.key| < 256 && |e.value| < 256
  }

  lemma EntryRoundTrip(e: Entry, tail: seq<byte>)
    requires Short(e)
    ensures ReadEntry(WriteEntry(e) + tail) == Some(Read(e, tail)) && |WriteEntry(e)| == |e.key| + |e.value| + 4
  {
    var v := WriteString(e.value) + ([59] + tail);
    EntryParts(WriteString(e.key), WriteString(e.value), tail);
    StringRoundTrip(e.key, [61] + v);
    StringRoundTrip(e.value, [59] + tail);
    assert ([61] + v)[1..] == v && ([59] + tail)[1..] == tail;
  }

  lemma EntryParts(k: seq<byte>, v: seq<byte>, tail: seq<byte>)
    ensures k + ([61] + (v + [59])) + tail == k + ([61] + (v + ([59] + tail)))
  {
  }

  /** A mapping is read back entry by entry and used up exactly. */
  lemma {:induction false} EntriesRoundTrip(es: seq<Entry>, tail: seq<byte>)
    requires forall e :: e in es ==> Short(e)
    ensures ReadEntries(WriteEntries(es) + tail, |WriteEntries(es)|) == Some(Read(es, tail))
    decreases |es|
  {
    if es == [] {
      assert WriteEntries(es) + tail == tail;
    } else {
      var e, more := es[0], es[1..];
      var w, rest := WriteEntry(e), WriteEntries(more);
      EntryRoundTrip(e, rest + tail);
      EntriesRoundTrip(more, tail);
      ReadOneEntry(ReadEntry, w, e, rest, more, tail);
      assert WriteEntries(es) == w + rest;
      assert es == [e] + more;
    }
  }

  lemma ReadOneEntry(read: seq<byte> -> Option<Read<Entry>>, w: seq<byte>, e: Entry, rest: seq<byte>, more: seq<Entry>, tail: seq<byte>)
    requires |w| > 0 && read(w + (rest + tail)) == Some(Read(e, rest + tail))
    requires ReadAll(read, rest + tail, |rest|) == Some(Read(more, tail))
    ensures ReadAll(read, w + rest + tail, |w + rest|) == Some(Read([e] + more, tail))
  {
    ConcatAssociates(w, rest, tail);
  }

  /** The loop of the writer. */
  method PutEntries(es: seq<Entry>) returns (s: seq<byte>)
    ensures s == WriteEntries(es)
  {
    s := [];
    for i := 0 to |es|
      invariant s + WriteEntries(es[i..]) == WriteEntries(es)
    {
      assert es[i..][0] == es[i] && es[i..][1..] == es[i + 1..];
      ConcatAssociates(s, WriteEntry(es[i]), WriteEntries(es[i + 1..]));
      s := s + WriteEntry(es[i]);
    }
  }

  /** The loop of the reader, for any way of reading one entry: `left` counts the bytes not used yet. */
  method GetAll(read: seq<byte> -> Option<Read<Entry>>, input: seq<byte>, size: nat) returns (res: Option<Read<seq<Entry>>>)
    ensures res == ReadAll(read, input, size)
  {
    var left: int, s := size, input;
    var es: seq<Entry> := [];
    ghost var goal := ReadAll(read, input, size);
    PrefixedNothing(goal);
    while left > 0
      invariant goal == Prefixed(es, ReadAll(read, s, left))
      decreases |s|
    {
      var e := read(s);
      if e.None? || |e.value.rest| >= |s| {
        return None;
      }
      var entry, rest := e.value.value, e.value.rest;
      left := left - (|s| - |rest|);
      PrefixedTwice(es, entry, ReadAll(read, rest, left));
      es, s := es + [entry], rest;
    }
    assert es + [] == es;
    return Some(Read(es, s));
  }

  method GetEntries(input: seq<byte>, size: nat) returns (res: Option<Read<seq<Entry>>>)
    ensures res == ReadEntries(input, size)
  {
    res := GetAll(ReadEntry, input, size);
  }

  function Prefixed(es: seq<Entry>, r: Option<Read<seq<Entry>>>): Option<Read<seq<Entry>>> {
    if r.None? then None else Some(Read(es + r.value.value, r.value.rest))
  }

  lemma PrefixedNothing(r: Option<Read<seq<Entry>>>)
    ensures Prefixed([], r) == r
  {
    if r.Some? {
      assert [] + r.value.value == r.value.value;
    }
  }

  lemma PrefixedTwice(es: seq<Entry>, e: Entry, r: Option<Read<seq<Entry>>>)
    ensures Prefixed(es, Prefixed([e], r)) == Prefixed(es + [e], r)
  {
    if r.Some? {
      ConcatAssociates(es, [e], r.value.value);
    }
  }

  /** A mapping after its size in two bytes. */
  function WriteMapping(es: seq<Entry>): seq<byte> {
    BigEndian(|WriteEntries(es)|, 2) + WriteEntries(es)
  }

  function ReadMapping(s: seq<byte>): Option<Read<seq<Entry>>> {
    if |s| < 2 then None else ReadEntries(s[2..], FromBigEndian(s[..2]))
  }

  lemma MappingRoundTrip(es: seq<Entry>, tail: seq<byte>)
    requires (forall e :: e in es ==> Short(e)) && |WriteEntries(es)| < 65536
    ensures ReadMapping(WriteMapping(es) + tail) == Some(Read(es, tail))
  {
    var n := BigEndian(|WriteEntries(es)|, 2);
    assert Pow(256, 2) == 65536;
    BigEndianRoundTrip(|WriteEntries(es)|, 2);
    SizeThenBody(n, WriteEntries(es), tail);
    EntriesRoundTrip(es, tail);
  }

  lemma SizeThenBody(n: seq<byte>, body: seq<byte>, tail: seq<byte>)
    requires |n| == 2
    ensures (n + body + tail)[..2] == n && (n + body + tail)[2..] == body + tail
  {
  }

  // ---------------------------------------------------------------- lists

  /** Some items, and what has been learnt from them. */
  datatype Parsed<A, S> = Parsed(items: seq<A>, state: S)

  function WriteMany<A>(write: A -> seq<byte>, list: seq<A>): seq<byte> {
    if list == [] then [] else write(list[0]) + WriteMany(write, list[1..])
  }

  /** Reads `n` items one after the other, each of which may turn out not to count. */
  function ReadMany<A, S>(read: (seq<byte>, S) -> Option<Read<Parsed<A, S>>>, s: seq<byte>, n: nat, st: S): Option<Read<Parsed<A, S>>>
    decreases n
  {
    if n == 0 then Some(Read(Parsed([], st), s))
    else
      var a := read(s, st);
      if a.None? then None
      else
        var more := ReadMany(read, a.value.rest, n - 1, a.value.value.state);
        if more.None? then None
        else Some(Read(Parsed(a.value.value.items + more.value.value.items, more.value.value.state), more.value.rest))
  }

  function LearnAll<A, S>(learn: (S, A) -> S, st: S, list: seq<A>): S
    decreases |list|
  {
    if list == [] then st else LearnAll(learn, learn(st, list[0]), list[1..])
  }

  /** If each item is read back, so is a list. */
  lemma {:induction false} ManyRoundTrip<A, S>(write: A -> seq<byte>, read: (seq<byte>, S) -> Option<Read<Parsed<A, S>>>,
                                               learn: (S, A) -> S, list: seq<A>, st: S, tail: seq<byte>)
    requires forall a, x, y :: a in list ==> read(write(a) + y, x) == Some(Read(Parsed([a], learn(x, a)), y))
    ensures ReadMany(read, WriteMany(write, list) + tail, |list|, st) == Some(Read(Parsed(list, LearnAll(learn, st, list)), tail))
    decreases |list|
  {
    if list == [] {
      assert WriteMany(write, list) + tail == tail;
    } else {
      var a, more := list[0], list[1..];
      assert a in list && list == [a] + more;
      ConcatAssociates(write(a), WriteMany(write, more), tail);
      ManyRoundTrip(write, read, learn, more, learn(st, a), tail);
    }
  }

  // ---------------------------------------------------------------- decimal numbers

  function Digits(n: nat): (t: Text)
    ensures t != []
  {
    if n < 10 then [48 + n] else Digits(n / 10) + [48 + n % 10]
  }

  function ParseDigits(t: Text): Option<nat> {
    if t == [] then Some(0)
    else
      var c, front := t[|t| - 1], ParseDigits(t[..|t| - 1]);
      if front.None? || c < 48 || c > 57 then None else Some(front.value * 10 + (c - 48))
  }

  /** An empty string is not a number. */
  function ParseNumber(t: Text): Option<nat> {
    if t == [] then None else ParseDigits(t)
  }

  lemma {:induction false} NumberRoundTrip(n: nat)
    ensures ParseNumber(Digits(n)) == Some(n)
  {
    DigitsRoundTrip(n);
  }

  lemma {:induction false} DigitsRoundTrip(n: nat)
    ensures ParseDigits(Digits(n)) == Some(n)
  {
    var t := Digits(n);
    if n < 10 {
      assert t[..0] == [];
      assert ParseDigits(t[..0]) == Some(0);
    } else {
      DigitsRoundTrip(n / 10);
      assert t[..|t| - 1] == Digits(n / 10);
    }
  }

  lemma {:induction false} DigitsShort(n: nat, k: nat)
    requires 0 < k && n < Pow(10, k)
    ensures |Digits(n)| <= k
    decreases k
  {
    if n >= 10 {
      assert k > 1;
      assert n / 10 < Pow(10, k - 1);
      DigitsShort(n / 10, k - 1);
    }
  }
}
