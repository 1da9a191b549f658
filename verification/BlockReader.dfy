/**
 A consumer of 16-byte blocks behind a socket that delivers bytes cut anywhere, and the producer at its other end.
 */
module BlockReader {
  import opened Bytes
  import opened Cbc

  /** `take` is the step on one block; a consumer that is not `live` has stopped for good. */
  datatype Consumer<!S> = Consumer(take: (S, Block) -> S, live: S -> bool)

  datatype Reader<S> = Reader(state: S, pending: seq<byte>)

  /** Uses up all whole blocks received so far. */
  function Drain<S>(m: Consumer<S>, s: S, pending: seq<byte>): Reader<S>
    decreases |pending|
  {
    if !m.live(s) then Reader(s, [])
    else if |pending| < 16 then Reader(s, pending)
    else Drain(m, m.take(s, pending[..16]), pending[16..])
  }

  /** One read from the socket. */
  function Feed<S>(m: Consumer<S>, r: Reader<S>, data: seq<byte>): Reader<S> {
    Drain(m, r.state, r.pending + data)
  }

  function FeedAll<S>(m: Consumer<S>, r: Reader<S>, chunks: seq<seq<byte>>): Reader<S>
    decreases |chunks|
  {
    if chunks == [] then r else FeedAll(m, Feed(m, r, chunks[0]), chunks[1..])
  }

  function Fold<S>(m: Consumer<S>, s: S, bs: seq<Block>): S
    decreases |bs|
  {
    if bs == [] || !m.live(s) then s else Fold(m, m.take(s, bs[0]), bs[1..])
  }

  function Blocks(s: seq<byte>): seq<Block>
    requires |s| % 16 == 0
  {
    if s == [] then [] else [s[..16]] + Blocks(s[16..])
  }

  /** Nothing is left that could be used. */
  predicate Settled<S>(m: Consumer<S>, r: Reader<S>) {
    if m.live(r.state) then |r.pending| < 16 else r.pending == []
  }

  lemma {:induction false} DrainSettles<S>(m: Consumer<S>, s: S, pending: seq<byte>)
    ensures Settled(m, Drain(m, s, pending))
    decreases |pending|
  {
    if m.live(s) && |pending| >= 16 {
      DrainSettles(m, m.take(s, pending[..16]), pending[16..]);
    }
  }

  lemma {:induction false} DrainAppend<S>(m: Consumer<S>, s: S, x: seq<byte>, y: seq<byte>)
    ensures Drain(m, s, x + y) == Feed(m, Drain(m, s, x), y)
    decreases |x|
  {
    if m.live(s) && |x| >= 16 {
      assert (x + y)[..16] == x[..16] && (x + y)[16..] == x[16..] + y;
      DrainAppend(m, m.take(s, x[..16]), x[16..], y);
    }
  }

  /** One read of some bytes or two reads. */
  lemma FeedJoin<S>(m: Consumer<S>, r: Reader<S>, x: seq<byte>, y: seq<byte>)
    ensures Feed(m, r, x + y) == Feed(m, Feed(m, r, x), y)
  {
    DrainAppend(m, r.state, r.pending + x, y);
    ConcatAssociates(r.pending, x, y);
  }

  /** However the stream is cut into reads, the consumer ends in the same state with the same bytes left over. */
  lemma {:induction false} AnyCuts<S>(m: Consumer<S>, r: Reader<S>, chunks: seq<seq<byte>>)
    requires Settled(m, r)
    ensures FeedAll(m, r, chunks) == Feed(m, r, Flatten(chunks))
    decreases |chunks|
  {
    if chunks == [] {
      assert r.pending + [] == r.pending;
    } else {
      var r1 := Feed(m, r, chunks[0]);
      DrainSettles(m, r.state, r.pending + chunks[0]);
      AnyCuts(m, r1, chunks[1..]);
      FeedJoin(m, r, chunks[0], Flatten(chunks[1..]));
    }
  }

  /** After part of a stream, the rest of it leads where the whole stream leads. */
  lemma FeedRest<S>(m: Consumer<S>, r: Reader<S>, chunks: seq<seq<byte>>, all: seq<byte>)
    requires Settled(m, r) && Flatten(chunks) <= all
    ensures Feed(m, FeedAll(m, r, chunks), all[|Flatten(chunks)|..]) == Feed(m, r, all)
  {
    var sofar := Flatten(chunks);
    assert all == sofar + all[|sofar|..];
    AnyCuts(m, r, chunks);
    FeedJoin(m, r, sofar, all[|sofar|..]);
  }

  lemma {:induction false} DrainIsFold<S>(m: Consumer<S>, s: S, bs: seq<Block>)
    ensures Drain(m, s, Flatten(bs)) == Reader(Fold(m, s, bs), [])
    decreases |bs|
  {
    if bs != [] && m.live(s) {
      var first: seq<byte>, rest: seq<byte> := bs[0], Flatten(bs[1..]);
      assert (first + rest)[..16] == first && (first + rest)[16..] == rest;
      DrainIsFold(m, m.take(s, bs[0]), bs[1..]);
    }
  }

  lemma {:induction false} FlattenBlocks(s: seq<byte>)
    requires |s| % 16 == 0
    ensures Flatten(Blocks(s)) == s
    decreases |s|
  {
    if s != [] {
      FlattenBlocks(s[16..]);
      var bs := Blocks(s);
      assert bs[0] == s[..16] && bs[1..] == Blocks(s[16..]);
    }
  }

  lemma {:induction false} FoldAppend<S>(m: Consumer<S>, s: S, xs: seq<Block>, ys: seq<Block>)
    ensures Fold(m, s, xs + ys) == Fold(m, Fold(m, s, xs), ys)
    decreases |xs|
  {
    if xs == [] {
      assert xs + ys == ys;
    } else if m.live(s) {
      assert (xs + ys)[0] == xs[0] && (xs + ys)[1..] == xs[1..] + ys;
      FoldAppend(m, m.take(s, xs[0]), xs[1..], ys);
    }
  }

  /** A reader of ciphertext blocks that decrypts each block for a consumer of plaintext blocks. */
  function Deciphering<S>(c: Cipher, m: Consumer<S>): Consumer<(Block, S)> {
    Consumer((s: (Block, S), b: Block) => (b, m.take(s.1, DecryptBlock(c, s.0, b))), (s: (Block, S)) => m.live(s.1))
  }

  /** As long as the consumer lives, what it gets is the plaintext. */
  lemma {:induction false} FoldCipher<S>(c: Cipher, m: Consumer<S>, iv: Block, s: S, bs: seq<Block>)
    requires Invertible(c) && m.live(Fold(m, s, bs))
    ensures var e := EncryptAll(c, iv, bs);
            Fold(Deciphering(c, m), (iv, s), e) == (LastOf(iv, e), Fold(m, s, bs))
    decreases |bs|
  {
    if bs != [] && m.live(s) {
      var x := EncryptBlock(c, iv, bs[0]);
      BlockRoundTrip(c, iv, bs[0]);
      FoldCipher(c, m, x, m.take(s, bs[0]), bs[1..]);
      var tail := EncryptAll(c, x, bs[1..]);
      var e := EncryptAll(c, iv, bs);
      assert e == [x] + tail && e[0] == x && e[1..] == tail;
      assert LastOf(iv, e) == LastOf(x, tail);
    }
  }

  /** The sending side: `put` turns one item into bytes for the socket. */
  datatype Producer<!S, !T> = Producer(put: (S, T) -> (S, seq<byte>))

  /** The state behind a list of items, and their bytes. */
  function Produce<S, T>(p: Producer<S, T>, s: S, items: seq<T>): (S, seq<byte>)
    decreases |items|
  {
    if items == [] then (s, [])
    else
      var first := p.put(s, items[0]);
      var rest := Produce(p, first.0, items[1..]);
      (rest.0, first.1 + rest.1)
  }

  lemma {:induction false} ProduceAppend<S, T>(p: Producer<S, T>, s: S, items: seq<T>, it: T)
    ensures var before := Produce(p, s, items);
            var last := p.put(before.0, it);
            Produce(p, s, items + [it]) == (last.0, before.1 + last.1)
    decreases |items|
  {
    if items == [] {
      assert items + [it] == [it] && [it][1..] == [];
      var last := p.put(s, it);
      assert Produce(p, last.0, []) == (last.0, []);
      assert last.1 + [] == [] + last.1;
    } else {
      assert (items + [it])[0] == items[0] && (items + [it])[1..] == items[1..] + [it];
      var first := p.put(s, items[0]);
      ProduceAppend(p, first.0, items[1..], it);
      var rest := Produce(p, first.0, items[1..]);
      ConcatAssociates(first.1, rest.1, p.put(rest.0, it).1);
    }
  }
}
