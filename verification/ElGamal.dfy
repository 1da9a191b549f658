/**
 ElGamal encryption of one block. Numbers are big-endian byte strings of `size` bytes (256 in the router);
 a plaintext block is one byte shorter, so that as a number it is below the prime.
 */
module ElGamal {
  import opened Wrappers
  import opened Bytes
  import opened NumberTheory

  /** SHA-256, of which only the length of the digest matters. */
  type Digest = h: seq<byte> -> seq<byte> | forall s :: |h(s)| == 32 witness s => seq(32, i => 0)

  datatype Group = Group(p: nat, g: nat, size: nat)

  /** The prime needs all `size` bytes, the generator is not a multiple of it, and a block holds
      a marker byte, a digest and the data. */
  ghost predicate Proper(q: Group) {
    q.size >= 34 && Prime(q.p) && Pow(256, q.size - 1) <= q.p < Pow(256, q.size) && q.g % q.p != 0
  }

  function PowMod(a: nat, e: nat, p: nat): nat
    requires p > 0
  {
    Pow(a, e) % p
  }

  /** The block to encrypt: marker, digest, data. */
  function Block(h: Digest, data: seq<byte>): seq<byte> {
    [0xFF] + h(data) + data
  }

  /** Both halves of a ciphertext, each optionally after a zero byte. */
  function Join(a: seq<byte>, b: seq<byte>, zeroPadding: bool): seq<byte> {
    if zeroPadding then [0] + a + [0] + b else a + b
  }

  function Encrypted(q: Group, h: Digest, y: nat, k: nat, data: seq<byte>, zeroPadding: bool): seq<byte>
    requires q.p > 0
  {
    var b := (PowMod(y, k, q.p) * FromBigEndian(Block(h, data))) % q.p;
    Join(BigEndian(PowMod(q.g, k, q.p), q.size), BigEndian(b, q.size), zeroPadding)
  }

  /** `x` is the number the private key stands for. */
  function Decrypt(q: Group, h: Digest, x: nat, encrypted: seq<byte>, zeroPadding: bool): Option<seq<byte>>
    requires q.size >= 34 && x < q.p
    requires |encrypted| == if zeroPadding then 2 * q.size + 2 else 2 * q.size
  {
    var (first, second) := Halves(encrypted, q.size, zeroPadding);
    OpenPair(q, h, x, FromBigEndian(first), FromBigEndian(second))
  }

  function Halves(encrypted: seq<byte>, n: nat, zeroPadding: bool): (seq<byte>, seq<byte>)
    requires |encrypted| == if zeroPadding then 2 * n + 2 else 2 * n
  {
    if zeroPadding then (encrypted[1..n + 1], encrypted[n + 2..]) else (encrypted[..n], encrypted[n..])
  }

  function OpenPair(q: Group, h: Digest, x: nat, a: nat, b: nat): Option<seq<byte>>
    requires q.size >= 34 && x < q.p
  {
    Open(q, h, (b * PowMod(a, q.p - x - 1, q.p)) % q.p)
  }

  /** The data of block number `m`, if its digest matches. */
  function Open(q: Group, h: Digest, m: nat): Option<seq<byte>>
    requires q.size >= 34
  {
    var block := BigEndian(m, q.size - 1);
    if h(block[33..]) == block[1..33] then Some(block[33..]) else None
  }

  class ElGamalEncryption {
    const group: Group
    ghost const y: nat
    ghost const k: nat
    var a: nat
    var b1: nat

    ghost predicate Valid()
      reads this
    {
      group.p > 0 && a == PowMod(group.g, k, group.p) && b1 == PowMod(y, k, group.p)
    }

    /** `k` is the random exponent. */
    constructor (q: Group, key: seq<byte>, k: nat)
      requires q.p > 0
      ensures Valid() && group == q && y == FromBigEndian(key) && this.k == k
    {
      group, y, this.k := q, FromBigEndian(key), k;
      a := PowMod(q.g, k, q.p);
      b1 := PowMod(FromBigEndian(key), k, q.p);
    }

    /** `data` followed by `tail`, the part of the block the caller leaves unset, fills the block. */
    method Encrypt(h: Digest, data: seq<byte>, tail: seq<byte>, zeroPadding: bool) returns (encrypted: seq<byte>)
      requires Valid()
      ensures encrypted == Encrypted(group, h, y, k, data + tail, zeroPadding)
    {
      var m := [0xFF] + h(data + tail) + (data + tail);
      var b := (b1 * FromBigEndian(m)) % group.p;
      if zeroPadding {
        encrypted := [0] + BigEndian(a, group.size) + [0] + BigEndian(b, group.size);
      } else {
        encrypted := BigEndian(a, group.size) + BigEndian(b, group.size);
      }
    }
  }

  // ---------------------------------------------------------------- the algebra

  /** m y^k (g^k)^(p-1-x) = m (g^k)^(p-1) modulo p, where y = g^x. */
  lemma Recombine(q: Group, x: nat, k: nat)
    requires Prime(q.p) && x < q.p
    ensures var y, a := PowMod(q.g, x, q.p), PowMod(q.g, k, q.p);
            Cong(PowMod(y, k, q.p) * PowMod(a, q.p - x - 1, q.p), Pow(Pow(q.g, k), q.p - 1), q.p)
  {
    var p := q.p;
    var y, a := PowMod(q.g, x, p), PowMod(q.g, k, p);
    CongRemainder(Pow(q.g, x), p);
    CongPow(y, Pow(q.g, x), k, p);
    PowPow(q.g, x, k);
    PowPow(q.g, k, x);
    assert x * k == k * x;
    CongRemainder(Pow(q.g, k), p);
    CongPow(a, Pow(q.g, k), p - x - 1, p);
    CongRemainder(Pow(y, k), p);
    CongRemainder(Pow(a, p - x - 1), p);
    CongMul(PowMod(y, k, p), Pow(Pow(q.g, k), x), PowMod(a, p - x - 1, p), Pow(Pow(q.g, k), p - x - 1), p);
    PowAdd(Pow(q.g, k), x, p - x - 1);
  }

  lemma CancelFactor(u: nat, v: nat, m: nat, p: nat)
    requires p > 0 && Cong(u * v, 1, p) && m < p
    ensures ((u * m) % p * v) % p == m
  {
    CongRemainder(u * m, p);
    CongMul((u * m) % p, u * m, v, v, p);
    Commute(m, u, v);
    assert u * m * v == m * (u * v) by {
      assert u * m * v == u * (m * v);
    }
    CongMul(m, m, u * v, 1, p);
    RemainderUnique(m, 0, m, p);
  }

  /** The decryption factor cancels the encryption factor: (g^k)^(p-1) = 1. */
  lemma Cancels(q: Group, x: nat, k: nat)
    requires Proper(q) && x < q.p
    ensures var y, a := PowMod(q.g, x, q.p), PowMod(q.g, k, q.p);
            Cong(PowMod(y, k, q.p) * PowMod(a, q.p - x - 1, q.p), 1, q.p)
  {
    Recombine(q, x, k);
    PowPow(q.g, k, q.p - 1);
    PowPow(q.g, q.p - 1, k);
    assert k * (q.p - 1) == (q.p - 1) * k;
    Fermat(q.p, q.g);
    CongPow(Pow(q.g, q.p - 1), 1, k, q.p);
    PowOne(k);
  }

  lemma Fits(q: Group, v: nat)
    requires q.size >= 1 && q.p < Pow(256, q.size) && v < q.p
    ensures FromBigEndian(BigEndian(v, q.size)) == v
  {
    BigEndianRoundTrip(v, q.size);
  }

  /** What decryption sees of the two halves. */
  lemma Splits(a: seq<byte>, b: seq<byte>, n: nat, zeroPadding: bool)
    requires |a| == |b| == n
    ensures var e := Join(a, b, zeroPadding);
            && |e| == (if zeroPadding then 2 * n + 2 else 2 * n)
            && Halves(e, n, zeroPadding) == (a, b)
  {
    var e := Join(a, b, zeroPadding);
    if zeroPadding {
      assert e[1..n + 1] == a && e[n + 2..] == b;
    } else {
      assert e[..n] == a && e[n..] == b;
    }
  }

  /** Decryption works on the two numbers that were written. */
  lemma DecryptsPair(q: Group, h: Digest, x: nat, a: nat, b: nat, zeroPadding: bool)
    requires Proper(q) && x < q.p && a < q.p && b < q.p
    ensures var e := Join(BigEndian(a, q.size), BigEndian(b, q.size), zeroPadding);
            && |e| == (if zeroPadding then 2 * q.size + 2 else 2 * q.size)
            && Decrypt(q, h, x, e, zeroPadding) == OpenPair(q, h, x, a, b)
  {
    Fits(q, a);
    Fits(q, b);
    var first, second := BigEndian(a, q.size), BigEndian(b, q.size);
    Splits(first, second, q.size, zeroPadding);
    var e := Join(first, second, zeroPadding);
    assert Decrypt(q, h, x, e, zeroPadding) == OpenPair(q, h, x, FromBigEndian(first), FromBigEndian(second));
  }

  lemma BlockBelowPrime(q: Group, h: Digest, data: seq<byte>)
    requires Proper(q) && |data| == q.size - 34
    ensures FromBigEndian(Block(h, data)) < q.p
  {
    FromBigEndianRoundTrip(Block(h, data));
    assert |Block(h, data)| == q.size - 1;
  }

  lemma OpensBlock(q: Group, h: Digest, data: seq<byte>)
    requires q.size >= 34 && |data| == q.size - 34
    ensures Open(q, h, FromBigEndian(Block(h, data))) == Some(data)
  {
    var block := Block(h, data);
    FromBigEndianRoundTrip(block);
    assert block[33..] == data && block[1..33] == h(data);
  }

  /** The second number of the ciphertext of block `m`. */
  function Masked(q: Group, x: nat, k: nat, m: nat): (b: nat)
    requires q.p > 0
    ensures b < q.p
  {
    (PowMod(PowMod(q.g, x, q.p), k, q.p) * m) % q.p
  }

  lemma Unmasks(q: Group, h: Digest, x: nat, k: nat, m: nat)
    requires Proper(q) && x < q.p && m < q.p
    ensures OpenPair(q, h, x, PowMod(q.g, k, q.p), Masked(q, x, k, m)) == Open(q, h, m)
  {
    var a := PowMod(q.g, k, q.p);
    Cancels(q, x, k);
    OpensMasked(q, h, x, k, m, PowMod(PowMod(q.g, x, q.p), k, q.p), PowMod(a, q.p - x - 1, q.p));
  }

  lemma OpensMasked(q: Group, h: Digest, x: nat, k: nat, m: nat, u: nat, v: nat)
    requires q.size >= 34 && x < q.p && m < q.p
    requires u == PowMod(PowMod(q.g, x, q.p), k, q.p) && v == PowMod(PowMod(q.g, k, q.p), q.p - x - 1, q.p)
    requires Cong(u * v, 1, q.p)
    ensures OpenPair(q, h, x, PowMod(q.g, k, q.p), Masked(q, x, k, m)) == Open(q, h, m)
  {
    CancelFactor(u, v, m, q.p);
  }

  /** Decryption undoes encryption, in both layouts, for every prime of full size, generator, exponent and secret. */
  lemma RoundTrip(q: Group, h: Digest, x: nat, k: nat, data: seq<byte>, zeroPadding: bool)
    requires Proper(q) && x < q.p && |data| == q.size - 34
    ensures var e := Encrypted(q, h, PowMod(q.g, x, q.p), k, data, zeroPadding);
            && |e| == (if zeroPadding then 2 * q.size + 2 else 2 * q.size)
            && Decrypt(q, h, x, e, zeroPadding) == Some(data)
  {
    var m := FromBigEndian(Block(h, data));
    BlockBelowPrime(q, h, data);
    Unmasks(q, h, x, k, m);
    DecryptsPair(q, h, x, PowMod(q.g, k, q.p), Masked(q, x, k, m), zeroPadding);
    OpensBlock(q, h, data);
  }

  /** Whatever block was encrypted, it opens to its data if and only if it holds their digest. */
  lemma OpensExactly(q: Group, h: Digest, x: nat, k: nat, block: seq<byte>, zeroPadding: bool)
    requires Proper(q) && x < q.p && |block| == q.size - 1
    ensures var m := FromBigEndian(block);
            var e := Join(BigEndian(PowMod(q.g, k, q.p), q.size), BigEndian(Masked(q, x, k, m), q.size), zeroPadding);
            && |e| == (if zeroPadding then 2 * q.size + 2 else 2 * q.size)
            && Decrypt(q, h, x, e, zeroPadding) == if h(block[33..]) == block[1..33] then Some(block[33..]) else None
  {
    var m := FromBigEndian(block);
    FromBigEndianRoundTrip(block);
    Unmasks(q, h, x, k, m);
    DecryptsPair(q, h, x, PowMod(q.g, k, q.p), Masked(q, x, k, m), zeroPadding);
  }

  /** The key files hold what they should: a secret and its public key are read back as the numbers written. */
  lemma KeysRoundTrip(q: Group, x: nat)
    requires Proper(q) && x < q.p
    ensures FromBigEndian(BigEndian(x, q.size)) == x
    ensures FromBigEndian(BigEndian(PowMod(q.g, x, q.p), q.size)) == PowMod(q.g, x, q.p)
  {
    Fits(q, x);
    Fits(q, PowMod(q.g, x, q.p));
  }
}
