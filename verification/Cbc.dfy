/**
 Cipher block chaining (section 6.2 of NIST SP 800-38A) over an abstract invertible 16-byte block cipher.
 */
module Cbc {
  import opened Bytes

  type Block = b: seq<byte> | |b| == 16 witness seq(16, i => 0)

  datatype Cipher = Cipher(enc: Block -> Block, dec: Block -> Block)

  ghost predicate Invertible(c: Cipher) {
    forall b :: c.dec(c.enc(b)) == b
  }

  /** Exclusive or of the low `n` bits. */
  function XorBits(a: nat, b: nat, n: nat): (r: nat) {
    if n == 0 then 0 else 2 * XorBits(a / 2, b / 2, n - 1) + (a + b) % 2
  }

  lemma {:induction false} XorBound(a: nat, b: nat, n: nat)
    ensures XorBits(a, b, n) < Pow(2, n)
  {
    if n > 0 {
      XorBound(a / 2, b / 2, n - 1);
    }
  }

  lemma HalfAndBit(h: nat, bit: nat)
    requires bit < 2
    ensures (2 * h + bit) / 2 == h && (2 * h + bit) % 2 == bit
  {
  }

  lemma BitTwice(a: nat, b: nat, r: nat)
    requires r % 2 == (a + b) % 2
    ensures (r + b) % 2 == a % 2
  {
  }

  lemma {:induction false} XorBitsTwice(a: nat, b: nat, n: nat)
    requires a < Pow(2, n)
    ensures XorBits(XorBits(a, b, n), b, n) == a
  {
    if n > 0 {
      XorBitsTwice(a / 2, b / 2, n - 1);
      var h := XorBits(a / 2, b / 2, n - 1);
      HalfAndBit(h, (a + b) % 2);
      BitTwice(a, b, 2 * h + (a + b) % 2);
    }
  }

  function XorByte(a: byte, b: byte): byte {
    XorByteBound(a, b);
    XorBits(a, b, 8)
  }

  lemma XorByteBound(a: byte, b: byte)
    ensures XorBits(a, b, 8) < 256
  {
    XorBound(a, b, 8);
    assert Pow(2, 8) == 256;
  }

  lemma XorByteTwice(a: byte, b: byte)
    ensures XorByte(XorByte(a, b), b) == a
  {
    assert Pow(2, 8) == 256;
    XorBitsTwice(a, b, 8);
  }

  function Xor(a: Block, b: Block): Block {
    seq(16, i requires 0 <= i < 16 => XorByte(a[i], b[i]))
  }

  lemma XorTwice(a: Block, b: Block)
    ensures Xor(Xor(a, b), b) == a
  {
    forall i | 0 <= i < 16 ensures Xor(Xor(a, b), b)[i] == a[i] {
      XorByteTwice(a[i], b[i]);
    }
  }

  lemma XorCommutes(a: Block, b: Block)
    ensures Xor(a, b) == Xor(b, a)
  {
    forall i | 0 <= i < 16 ensures Xor(a, b)[i] == Xor(b, a)[i] {
      XorBitsCommutes(a[i], b[i], 8);
    }
  }

  lemma {:induction false} XorBitsCommutes(a: nat, b: nat, n: nat)
    ensures XorBits(a, b, n) == XorBits(b, a, n)
  {
    if n > 0 {
      XorBitsCommutes(a / 2, b / 2, n - 1);
    }
  }

  function EncryptBlock(c: Cipher, iv: Block, b: Block): Block {
    c.enc(Xor(iv, b))
  }

  function DecryptBlock(c: Cipher, iv: Block, b: Block): Block {
    Xor(c.dec(b), iv)
  }

  lemma BlockRoundTrip(c: Cipher, iv: Block, b: Block)
    requires Invertible(c)
    ensures DecryptBlock(c, iv, EncryptBlock(c, iv, b)) == b
  {
    XorCommutes(iv, b);
    XorTwice(b, iv);
  }

  /** Each plaintext block is chained to the ciphertext before it. */
  function EncryptAll(c: Cipher, iv: Block, bs: seq<Block>): (r: seq<Block>)
    ensures |r| == |bs|
    decreases |bs|
  {
    if bs == [] then []
    else var x := EncryptBlock(c, iv, bs[0]); [x] + EncryptAll(c, x, bs[1..])
  }

  function DecryptAll(c: Cipher, iv: Block, bs: seq<Block>): (r: seq<Block>)
    ensures |r| == |bs|
    decreases |bs|
  {
    if bs == [] then [] else [DecryptBlock(c, iv, bs[0])] + DecryptAll(c, bs[0], bs[1..])
  }

  /** The chaining state after the ciphertext `bs`. */
  function LastOf(iv: Block, bs: seq<Block>): Block {
    if bs == [] then iv else bs[|bs| - 1]
  }

  /** Block by block: what is enciphered is the plaintext xor the ciphertext before it, the first one xor the initial vector. */
  lemma {:induction false} Chained(c: Cipher, iv: Block, bs: seq<Block>, i: nat)
    requires i < |bs|
    ensures var r := EncryptAll(c, iv, bs); r[i] == c.enc(Xor(if i == 0 then iv else r[i - 1], bs[i]))
    decreases |bs|
  {
    if i > 0 {
      Chained(c, EncryptBlock(c, iv, bs[0]), bs[1..], i - 1);
    }
  }

  function BitAt(v: nat, j: nat): nat {
    if j == 0 then v % 2 else BitAt(v / 2, j - 1)
  }

  /** A bit of the exclusive or is set exactly if one of the two is. */
  lemma {:induction false} XorBitAt(a: nat, b: nat, n: nat, j: nat)
    requires j < n
    ensures BitAt(XorBits(a, b, n), j) == (BitAt(a, j) + BitAt(b, j)) % 2
  {
    HalfAndBit(XorBits(a / 2, b / 2, n - 1), (a + b) % 2);
    if j > 0 {
      XorBitAt(a / 2, b / 2, n - 1, j - 1);
    }
  }

  /** Decryption undoes encryption, for any number of blocks. */
  lemma {:induction false} RoundTrip(c: Cipher, iv: Block, bs: seq<Block>)
    requires Invertible(c)
    ensures DecryptAll(c, iv, EncryptAll(c, iv, bs)) == bs
    decreases |bs|
  {
    if bs != [] {
      var x := EncryptBlock(c, iv, bs[0]);
      BlockRoundTrip(c, iv, bs[0]);
      RoundTrip(c, x, bs[1..]);
      assert EncryptAll(c, iv, bs)[1..] == EncryptAll(c, x, bs[1..]);
    }
  }

  /** One call or two calls: the chaining state carries over. */
  lemma {:induction false} EncryptSplit(c: Cipher, iv: Block, xs: seq<Block>, ys: seq<Block>)
    ensures EncryptAll(c, iv, xs + ys) ==
            EncryptAll(c, iv, xs) + EncryptAll(c, LastOf(iv, EncryptAll(c, iv, xs)), ys)
    decreases |xs|
  {
    if xs == [] {
      assert xs + ys == ys;
    } else {
      var x := EncryptBlock(c, iv, xs[0]);
      EncryptSplit(c, x, xs[1..], ys);
      assert (xs + ys)[1..] == xs[1..] + ys;
      assert LastOf(iv, EncryptAll(c, iv, xs)) == LastOf(x, EncryptAll(c, x, xs[1..]));
    }
  }

  lemma {:induction false} DecryptSplit(c: Cipher, iv: Block, xs: seq<Block>, ys: seq<Block>)
    ensures DecryptAll(c, iv, xs + ys) == DecryptAll(c, iv, xs) + DecryptAll(c, LastOf(iv, xs), ys)
    decreases |xs|
  {
    if xs == [] {
      assert xs + ys == ys;
    } else {
      DecryptSplit(c, xs[0], xs[1..], ys);
      assert (xs + ys)[1..] == xs[1..] + ys;
    }
  }

  function Joined(pieces: seq<seq<Block>>): seq<Block> {
    if pieces == [] then [] else pieces[0] + Joined(pieces[1..])
  }

  /** A sequence of `Encrypt` calls. */
  function EncryptCalls(c: Cipher, iv: Block, pieces: seq<seq<Block>>): seq<Block>
    decreases |pieces|
  {
    if pieces == [] then []
    else var e := EncryptAll(c, iv, pieces[0]); e + EncryptCalls(c, LastOf(iv, e), pieces[1..])
  }

  /** A sequence of `Decrypt` calls. */
  function DecryptCalls(c: Cipher, iv: Block, pieces: seq<seq<Block>>): seq<Block>
    decreases |pieces|
  {
    if pieces == [] then []
    else DecryptAll(c, iv, pieces[0]) + DecryptCalls(c, LastOf(iv, pieces[0]), pieces[1..])
  }

  lemma {:induction false} EncryptCallsJoin(c: Cipher, iv: Block, pieces: seq<seq<Block>>)
    ensures EncryptCalls(c, iv, pieces) == EncryptAll(c, iv, Joined(pieces))
    decreases |pieces|
  {
    if pieces != [] {
      EncryptCallsJoin(c, LastOf(iv, EncryptAll(c, iv, pieces[0])), pieces[1..]);
      EncryptSplit(c, iv, pieces[0], Joined(pieces[1..]));
    }
  }

  lemma {:induction false} DecryptCallsJoin(c: Cipher, iv: Block, pieces: seq<seq<Block>>)
    ensures DecryptCalls(c, iv, pieces) == DecryptAll(c, iv, Joined(pieces))
    decreases |pieces|
  {
    if pieces != [] {
      DecryptCallsJoin(c, LastOf(iv, pieces[0]), pieces[1..]);
      DecryptSplit(c, iv, pieces[0], Joined(pieces[1..]));
    }
  }

  /** Encrypting in any sequence of calls and decrypting the ciphertext in any other gives the plaintext back. */
  lemma AnySplits(c: Cipher, iv: Block, sent: seq<seq<Block>>, received: seq<seq<Block>>)
    requires Invertible(c) && Joined(received) == EncryptCalls(c, iv, sent)
    ensures DecryptCalls(c, iv, received) == Joined(sent)
  {
    EncryptCallsJoin(c, iv, sent);
    DecryptCallsJoin(c, iv, received);
    RoundTrip(c, iv, Joined(sent));
  }

  class CBCEncryption {
    const cipher: Cipher
    var lastBlock: Block

    constructor (cipher: Cipher, iv: Block)
      ensures this.cipher == cipher && lastBlock == iv
    {
      this.cipher, lastBlock := cipher, iv;
    }

    /** `output` may be `input`. */
    method Encrypt(numBlocks: nat, input: array<Block>, output: array<Block>)
      requires numBlocks <= input.Length && numBlocks <= output.Length
      modifies this`lastBlock, output
      ensures output[..numBlocks] == EncryptAll(cipher, old(lastBlock), old(input[..numBlocks]))
      ensures output[numBlocks..] == old(output[numBlocks..])
      ensures lastBlock == LastOf(old(lastBlock), output[..numBlocks])
    {
      ghost var bs := input[..numBlocks];
      var i := 0;
      while i < numBlocks
        invariant 0 <= i <= numBlocks && input[i..numBlocks] == bs[i..]
        invariant output[..i] + EncryptAll(cipher, lastBlock, bs[i..]) == EncryptAll(cipher, old(lastBlock), bs)
        invariant output[numBlocks..] == old(output[numBlocks..])
        invariant lastBlock == LastOf(old(lastBlock), output[..i])
      {
        assert input[i] == bs[i..][0] && bs[i..][1..] == bs[i + 1..];
        ghost var done, iv := output[..i], lastBlock;
        lastBlock := EncryptBlock(cipher, lastBlock, input[i]);
        output[i] := lastBlock;
        assert output[..i + 1] == done + [lastBlock];
        ConcatAssociates(done, [lastBlock], EncryptAll(cipher, lastBlock, bs[i + 1..]));
        i := i + 1;
      }
    }
  }

  class CBCDecryption {
    const cipher: Cipher
    var iv: Block

    constructor (cipher: Cipher, iv: Block)
      ensures this.cipher == cipher && this.iv == iv
    {
      this.cipher, this.iv := cipher, iv;
    }

    /** `output` may be `input`. */
    method Decrypt(numBlocks: nat, input: array<Block>, output: array<Block>)
      requires numBlocks <= input.Length && numBlocks <= output.Length
      modifies this`iv, output
      ensures output[..numBlocks] == DecryptAll(cipher, old(iv), old(input[..numBlocks]))
      ensures output[numBlocks..] == old(output[numBlocks..])
      ensures iv == LastOf(old(iv), old(input[..numBlocks]))
    {
      ghost var bs := input[..numBlocks];
      var i := 0;
      while i < numBlocks
        invariant 0 <= i <= numBlocks && input[i..numBlocks] == bs[i..]
        invariant output[..i] + DecryptAll(cipher, iv, bs[i..]) == DecryptAll(cipher, old(iv), bs)
        invariant output[numBlocks..] == old(output[numBlocks..])
        invariant iv == LastOf(old(iv), bs[..i])
      {
        assert input[i] == bs[i..][0] && bs[i..][1..] == bs[i + 1..];
        ghost var done := output[..i];
        var tmp := input[i];
        var plain := DecryptBlock(cipher, iv, tmp);
        output[i] := plain;
        assert output[..i + 1] == done + [plain];
        ConcatAssociates(done, [plain], DecryptAll(cipher, tmp, bs[i + 1..]));
        iv := tmp;
        i := i + 1;
      }
    }
  }
}
