/**
 A resumable automaton over bytes.
 */
module Automaton {
  import opened Bytes

  datatype Automaton<!S> = Automaton(step: (S, byte) -> S, live: S -> bool)

  /** Where the automaton stopped, and what it did not read. */
  datatype Scanned<S> = Scanned(state: S, rest: seq<byte>)

  function Scan<S>(m: Automaton<S>, s: S, bytes: seq<byte>): Scanned<S>
    decreases |bytes|
  {
    if bytes == [] || !m.live(s) then Scanned(s, bytes) else Scan(m, m.step(s, bytes[0]), bytes[1..])
  }

  /** One call per chunk; once the automaton has stopped, later chunks are left alone. */
  function ScanAll<S>(m: Automaton<S>, s: S, chunks: seq<seq<byte>>): Scanned<S>
    decreases |chunks|
  {
    if chunks == [] then Scanned(s, [])
    else
      var r := Scan(m, s, chunks[0]);
      if m.live(r.state) then ScanAll(m, r.state, chunks[1..]) else Scanned(r.state, r.rest + Flatten(chunks[1..]))
  }

  lemma {:induction false} ScanAppend<S>(m: Automaton<S>, s: S, x: seq<byte>, y: seq<byte>)
    ensures var r := Scan(m, s, x);
            Scan(m, s, x + y) == if m.live(r.state) then Scan(m, r.state, y) else Scanned(r.state, r.rest + y)
    decreases |x|
  {
    if x == [] {
      assert x + y == y;
    } else if m.live(s) {
      assert (x + y)[0] == x[0] && (x + y)[1..] == x[1..] + y;
      ScanAppend(m, m.step(s, x[0]), x[1..], y);
    }
  }

  /** However the input is cut, the automaton stops in the same state with the same bytes unread. */
  lemma {:induction false} AnyChunks<S>(m: Automaton<S>, s: S, chunks: seq<seq<byte>>)
    requires m.live(s)
    ensures ScanAll(m, s, chunks) == Scan(m, s, Flatten(chunks))
    decreases |chunks|
  {
    if chunks != [] {
      var r := Scan(m, s, chunks[0]);
      ScanAppend(m, s, chunks[0], Flatten(chunks[1..]));
      if m.live(r.state) {
        AnyChunks(m, r.state, chunks[1..]);
      }
    }
  }

  lemma ScanOne<S>(m: Automaton<S>, s: S, b: byte, tail: seq<byte>)
    requires m.live(s)
    ensures Scan(m, s, [b] + tail) == Scan(m, m.step(s, b), tail)
  {
    assert ([b] + tail)[1..] == tail;
  }

  /** A few steps in a row. */
  lemma ScanTwo<S>(m: Automaton<S>, s: S, a: byte, s1: S, b: byte, s2: S, tail: seq<byte>)
    requires m.live(s) && m.step(s, a) == s1 && m.live(s1) && m.step(s1, b) == s2
    ensures Scan(m, s, [a] + ([b] + tail)) == Scan(m, s2, tail)
  {
    ScanOne(m, s, a, [b] + tail);
    ScanOne(m, s1, b, tail);
  }

  lemma ScanFour<S>(m: Automaton<S>, s: S, a: byte, s1: S, b: byte, s2: S, c: byte, s3: S, d: byte, s4: S, tail: seq<byte>)
    requires m.live(s) && m.step(s, a) == s1 && m.live(s1) && m.step(s1, b) == s2
    requires m.live(s2) && m.step(s2, c) == s3 && m.live(s3) && m.step(s3, d) == s4
    ensures Scan(m, s, [a] + ([b] + ([c] + ([d] + tail)))) == Scan(m, s4, tail)
  {
    ScanTwo(m, s, a, s1, b, s2, [c] + ([d] + tail));
    ScanTwo(m, s2, c, s3, d, s4, tail);
  }
}
