/**
 The two ends of an NTCP session: the send queue with its running encryption, and the receive buffer whose
 whole blocks are decrypted into a message buffer chosen by size.
 */
module Ntcp {
  import opened Wrappers
  import opened Bytes
  import opened Cbc
  import opened BlockReader
  import opened NtcpSpec

  const NTCP_BUFFER_SIZE: nat := 4160

  /** A frame of which `offset` bytes are written is incomplete, and `left` more blocks complete it and fit the buffer. */
  predicate Fits(offset: nat, left: nat, len: nat, size: nat) {
    16 <= offset && len + 4 <= offset + 16 * left < len + 20 && 1 <= left && offset + 16 * left <= size
  }

  /** The size chosen for a message of `dataSize` bytes. */
  function BufferSize(dataSize: nat): nat {
    if dataSize <= I2NP_MAX_SHORT_MESSAGE_SIZE - 2 then I2NP_MAX_SHORT_MESSAGE_SIZE else I2NP_MAX_MESSAGE_SIZE
  }

  /** The blocks of any acceptable message fit the buffer chosen for it; the largest short one fills its buffer. */
  lemma BufferFits(dataSize: nat) returns (blocks: nat)
    requires dataSize <= NTCP_MAX_MESSAGE_SIZE
    ensures dataSize + 6 <= 16 * blocks < dataSize + 22 && 16 * blocks <= BufferSize(dataSize) + 16
    ensures dataSize == I2NP_MAX_SHORT_MESSAGE_SIZE - 2 ==> 16 * blocks == BufferSize(dataSize) + 16
  {
    blocks := (dataSize + 21) / 16;
  }

  class ReceivingSession {
    const cipher: Cipher
    const checksum: Checksum
    /** The session's step on a block of ciphertext. */
    ghost const spec: Consumer<(Block, Session)>
    var iv: Block
    const receiveBuffer: array<byte>
    var receiveBufferOffset: nat
    var isTerminated: bool
    /** The buffer and length of the message under way, if any. */
    var nextMessage: array?<byte>
    var nextMessageLen: nat
    var nextMessageOffset: nat
    /** How many blocks of the message under way are still to come. */
    ghost var blocksLeft: nat
    var delivered: seq<seq<byte>>

    /** A message under way is not complete, and its last block will still fit its buffer. */
    ghost predicate MessageOk()
      reads this`nextMessage, this`nextMessageLen, this`nextMessageOffset, this`blocksLeft
    {
      && nextMessage != receiveBuffer
      && (nextMessage != null ==> nextMessageLen > 2 && Fits(nextMessageOffset, blocksLeft, nextMessageLen, nextMessage.Length))
    }

    ghost predicate Implements() {
      && (forall s: Session, b: Block, iv: Block {:trigger TakePlain(checksum, s, DecryptBlock(cipher, iv, b))} ::
            spec.take((iv, s), b) == (b, TakePlain(checksum, s, DecryptBlock(cipher, iv, b))))
      && (forall s: Session, iv: Block {:trigger spec.live((iv, s))} :: spec.live((iv, s)) == !s.stopped)
    }

    ghost predicate Valid()
      reads this
    {
      Implements() && MessageOk() && receiveBuffer.Length == NTCP_BUFFER_SIZE + 16 && receiveBufferOffset <= NTCP_BUFFER_SIZE
    }

    ghost function Cur(): Reading
      requires nextMessage != null ==> nextMessageOffset <= nextMessage.Length
      reads this`nextMessage, this`nextMessageLen, this`nextMessageOffset, nextMessage
    {
      if nextMessage == null then Idle else Partial(nextMessage[..nextMessageOffset], nextMessageLen)
    }

    /** The session as a consumer of plaintext blocks. */
    ghost function Parsed(): Session
      requires nextMessage != null ==> nextMessageOffset <= nextMessage.Length
      reads this`isTerminated, this`delivered, this`nextMessage, this`nextMessageLen, this`nextMessageOffset, nextMessage
    {
      Session(isTerminated, Cur(), delivered)
    }

    /** The session as a reader of the ciphertext. */
    ghost function View(): Reader<(Block, Session)>
      requires Valid()
      reads this, receiveBuffer, nextMessage
    {
      Reader((iv, Parsed()), if isTerminated then [] else receiveBuffer[..receiveBufferOffset])
    }

    constructor (cipher: Cipher, checksum: Checksum, iv: Block)
      ensures Valid() && fresh(receiveBuffer) && nextMessage == null && View() == Start(iv)
      ensures this.cipher == cipher && this.checksum == checksum && spec == Receiver(cipher, checksum)
    {
      this.cipher, this.checksum, spec, this.iv := cipher, checksum, Receiver(cipher, checksum), iv;
      receiveBuffer := new byte[NTCP_BUFFER_SIZE + 16](i => 0);
      receiveBufferOffset, isTerminated, nextMessage := 0, false, null;
      nextMessageLen, nextMessageOffset, delivered := 0, 0, [];
    }

    /** Decrypts one block into the message under way, or opens a new one; false when the length is too big. */
    method DecryptNextBlock(encrypted: Block) returns (ok: bool)
      requires Valid() && !isTerminated
      modifies this`iv, this`nextMessage, this`nextMessageLen, this`nextMessageOffset, this`blocksLeft, this`delivered, nextMessage
      ensures Valid() && iv == encrypted
      ensures nextMessage != null ==> nextMessage == old(nextMessage) || fresh(nextMessage)
      ensures var r := TakePlain(checksum, old(Parsed()), DecryptBlock(cipher, old(iv), encrypted));
              r == if ok then Parsed() else Parsed().(stopped := true)
      ensures !ok ==> nextMessage == null
    {
      var plain := DecryptBlock(cipher, iv, encrypted);
      iv := encrypted;
      if nextMessage == null {
        ok := OpenMessage(plain);
      } else {
        ContinueMessage(plain);
        ok := true;
      }
    }

    method OpenMessage(plain: Block) returns (ok: bool)
      requires Valid() && !isTerminated && nextMessage == null
      modifies this`nextMessage, this`nextMessageLen, this`nextMessageOffset, this`blocksLeft, this`delivered
      ensures Valid() && (nextMessage != null ==> fresh(nextMessage))
      ensures TakePlain(checksum, old(Parsed()), plain) == if ok then Parsed() else Parsed().(stopped := true)
      ensures !ok ==> nextMessage == null
    {
      var dataSize := FromBigEndian(plain[..2]);
      ok := dataSize <= NTCP_MAX_MESSAGE_SIZE;
      if 0 < dataSize <= NTCP_MAX_MESSAGE_SIZE {
        TakeFirst(checksum, Parsed(), plain);
        NewMessage(plain, dataSize);
        CompleteMessage();
      }
    }

    /** Chooses a buffer by size and puts the first block into it. */
    method NewMessage(plain: Block, dataSize: nat)
      requires Valid() && nextMessage == null && 0 < dataSize <= NTCP_MAX_MESSAGE_SIZE
      modifies this`nextMessage, this`nextMessageLen, this`nextMessageOffset, this`blocksLeft
      ensures nextMessage != null && fresh(nextMessage) && nextMessageOffset == 16 <= nextMessage.Length
      ensures Cur() == Partial(plain, dataSize + 2) && nextMessageLen == dataSize + 2
      ensures 16 < nextMessageLen + 4 ==> MessageOk()
    {
      ghost var blocks := BufferFits(dataSize);
      nextMessage, nextMessageLen := new byte[BufferSize(dataSize) + 16](i => 0), dataSize + 2;
      nextMessageOffset, blocksLeft := 16, blocks - 1;
      CopyInto(nextMessage, 0, plain);
      assert nextMessage[..16] == plain;
    }

    method ContinueMessage(plain: Block)
      requires Valid() && !isTerminated && nextMessage != null
      modifies this`nextMessage, this`nextMessageOffset, this`blocksLeft, this`delivered, nextMessage
      ensures Valid() && (nextMessage == null || nextMessage == old(nextMessage))
      ensures Parsed() == TakePlain(checksum, old(Parsed()), plain)
    {
      TakeMore(checksum, Parsed(), plain, nextMessage[..nextMessageOffset], nextMessageLen);
      CopyInto(nextMessage, nextMessageOffset, plain);
      nextMessageOffset, blocksLeft := nextMessageOffset + 16, blocksLeft - 1;
      assert Cur() == Partial(old(nextMessage[..nextMessageOffset]) + plain, nextMessageLen);
      CompleteMessage();
    }

    /** Hands the message on once its checksum has arrived. */
    method CompleteMessage()
      requires Implements() && receiveBuffer.Length == NTCP_BUFFER_SIZE + 16 && receiveBufferOffset <= NTCP_BUFFER_SIZE
      requires nextMessage != null && nextMessage != receiveBuffer && 16 <= nextMessageOffset <= nextMessage.Length
      requires nextMessageLen > 2 && (nextMessageOffset < nextMessageLen + 4 ==> MessageOk())
      modifies this`nextMessage, this`delivered
      ensures Valid() && (nextMessage == null || nextMessage == old(nextMessage))
      ensures Parsed() == Finish(checksum, old(Parsed()))
    {
      ghost var s, f := Parsed(), Finish(checksum, Parsed());
      var bytes := nextMessage[..nextMessageOffset];
      if nextMessageOffset >= nextMessageLen + 4 {
        FinishComplete(checksum, s, bytes, nextMessageLen);
        if Verifies(checksum, bytes) {
          delivered := delivered + [bytes[2..nextMessageLen]];
        }
        nextMessage := null;
        assert Parsed() == s.(cur := Idle, delivered := delivered);
        assert Parsed() == f;
      } else {
        FinishLater(checksum, s, bytes, nextMessageLen);
        assert Parsed() == f;
      }
    }

    /** A block of malformed length ends the session. */
    method TakeOrTerminate(encrypted: Block)
      requires Valid() && !isTerminated && receiveBufferOffset >= 16
      modifies this`iv, this`nextMessage, this`nextMessageLen, this`nextMessageOffset, this`blocksLeft, this`delivered, nextMessage
      modifies this`isTerminated, this`receiveBufferOffset
      ensures Valid() && (nextMessage != null ==> nextMessage == old(nextMessage) || fresh(nextMessage))
      ensures receiveBufferOffset == old(receiveBufferOffset) - 16 && iv == encrypted
      ensures Parsed() == TakePlain(checksum, old(Parsed()), DecryptBlock(cipher, old(iv), encrypted))
    {
      var ok := DecryptNextBlock(encrypted);
      receiveBufferOffset, isTerminated := receiveBufferOffset - 16, !ok;
    }

    /** Uses up the whole blocks in the buffer, the last of which ends at `nextBlock`; stops on a malformed length. */
    method DecryptBlocks(ghost all: seq<byte>) returns (nextBlock: nat)
      requires Valid() && !isTerminated && all == receiveBuffer[..receiveBufferOffset]
      modifies this`iv, this`nextMessage, this`nextMessageLen, this`nextMessageOffset, this`blocksLeft, this`delivered, nextMessage
      modifies this`isTerminated, this`receiveBufferOffset
      ensures Valid() && (nextMessage != null ==> nextMessage == old(nextMessage) || fresh(nextMessage))
      ensures nextBlock + receiveBufferOffset == |all| && (isTerminated || receiveBufferOffset < 16)
      ensures var end := Drain(spec, old((iv, Parsed())), all);
              end.state == (iv, Parsed()) && end.pending == if isTerminated then [] else all[nextBlock..]
    {
      ghost var m := spec;
      ghost var end := Drain(m, (iv, Parsed()), all);
      nextBlock := 0;
      assert all[0..] == all;
      while receiveBufferOffset >= 16
        invariant Valid() && !isTerminated && nextBlock + receiveBufferOffset == |all|
        invariant nextMessage != null ==> nextMessage == old(nextMessage) || fresh(nextMessage)
        invariant Drain(m, (iv, Parsed()), all[nextBlock..]) == end
      {
        var encrypted := receiveBuffer[nextBlock..nextBlock + 16];
        DrainNext(m, (iv, Parsed()), all, nextBlock, encrypted);
        TakeOrTerminate(encrypted);
        nextBlock := nextBlock + 16;
        if isTerminated {
          return;
        }
      }
    }

    /** Uses up the whole blocks in the buffer and moves what is left to its front. */
    method ProcessBlocks(ghost start: Reader<(Block, Session)>, ghost incoming: seq<byte>, ghost n: nat)
      requires Valid() && !isTerminated && n <= |incoming| && Owes(start, incoming, n)
      modifies this, receiveBuffer, nextMessage
      ensures Valid() && (nextMessage != null ==> nextMessage == old(nextMessage) || fresh(nextMessage))
      ensures isTerminated || receiveBufferOffset < 16
      ensures View() == Feed(spec, start, incoming[..n])
    {
      var nextBlock := DecryptBlocks(receiveBuffer[..receiveBufferOffset]);
      if !isTerminated {
        CopyInto(receiveBuffer, 0, receiveBuffer[nextBlock..nextBlock + receiveBufferOffset]);
      }
    }

    /** One completed read: `data` has been put behind the bytes left over; more may be read at once from `incoming`. */
    method HandleReceived(data: seq<byte>, incoming: seq<byte>) returns (n: nat)
      requires Valid() && !isTerminated && receiveBufferOffset < 16 && |data| <= NTCP_BUFFER_SIZE - receiveBufferOffset
      modifies this, receiveBuffer, nextMessage
      ensures Valid() && (nextMessage != null ==> nextMessage == old(nextMessage) || fresh(nextMessage))
      ensures n <= |incoming| && (isTerminated || receiveBufferOffset < 16)
      ensures View() == Feed(spec, old(View()), data + incoming[..n])
    {
      Append(data);
      ghost var before := View();
      n := DecryptAndReload(incoming);
      ConcatAssociates(old(View().pending), data, incoming[..n]);
    }

    /** Once the whole blocks in the buffer are used up, the session will have taken `n` bytes since `start`. */
    ghost predicate Owes(start: Reader<(Block, Session)>, incoming: seq<byte>, n: nat)
      requires Valid() && n <= |incoming|
      reads this, receiveBuffer, nextMessage
    {
      Drain(spec, View().state, View().pending) == Feed(spec, start, incoming[..n])
    }

    lemma OwesAtFirst(incoming: seq<byte>)
      requires Valid()
      ensures Owes(View(), incoming, 0)
    {
      assert View().pending + incoming[..0] == View().pending;
    }

    lemma OwesNothing(start: Reader<(Block, Session)>, incoming: seq<byte>, n: nat)
      requires Valid() && n <= |incoming| && Owes(start, incoming, n) && (isTerminated || receiveBufferOffset < 16)
      ensures View() == Feed(spec, start, incoming[..n])
    {
      DrainNothing(spec, View().state, View().pending);
    }

    /** The nested loop: use up whole blocks, then read at most five times more while more is there. */
    method DecryptAndReload(incoming: seq<byte>) returns (n: nat)
      requires Valid() && !isTerminated
      modifies this, receiveBuffer, nextMessage
      ensures Valid() && (nextMessage != null ==> nextMessage == old(nextMessage) || fresh(nextMessage))
      ensures n <= |incoming| && (isTerminated || receiveBufferOffset < 16)
      ensures View() == Feed(spec, old(View()), incoming[..n])
    {
      n := 0;
      ghost var start := View();
      OwesAtFirst(incoming);
      var numReloads := 0;
      while !isTerminated && receiveBufferOffset >= 16
        invariant Valid() && n <= |incoming| && numReloads <= 5
        invariant nextMessage != null ==> nextMessage == old(nextMessage) || fresh(nextMessage)
        invariant Owes(start, incoming, n)
        decreases 5 - numReloads
      {
        var more := ProcessAndReload(incoming, n, numReloads < 5, start);
        if more == 0 {
          break;
        }
        n, numReloads := n + more, numReloads + 1;
      }
      OwesNothing(start, incoming, n);
    }

    method ProcessAndReload(incoming: seq<byte>, n: nat, mayReload: bool, ghost start: Reader<(Block, Session)>) returns (more: nat)
      requires Valid() && !isTerminated && n <= |incoming| && Owes(start, incoming, n)
      modifies this, receiveBuffer, nextMessage
      ensures Valid() && (nextMessage != null ==> nextMessage == old(nextMessage) || fresh(nextMessage))
      ensures n + more <= |incoming| && Owes(start, incoming, n + more)
      ensures isTerminated || !mayReload ==> more == 0
      ensures more == 0 ==> isTerminated || receiveBufferOffset < 16
    {
      ProcessBlocks(start, incoming, n);
      more := Reload(incoming, n, mayReload, start);
    }

    lemma OwesBack(start: Reader<(Block, Session)>, incoming: seq<byte>, n: nat)
      requires Valid() && n <= |incoming| && View() == Feed(spec, start, incoming[..n]) && (isTerminated || receiveBufferOffset < 16)
      ensures Owes(start, incoming, n)
    {
      DrainNothing(spec, View().state, View().pending);
    }

    /** Reads some of the bytes that are available by now and for which there is room. */
    method Reload(incoming: seq<byte>, n: nat, mayReload: bool, ghost start: Reader<(Block, Session)>) returns (more: nat)
      requires Valid() && n <= |incoming| && (isTerminated || receiveBufferOffset < 16)
      requires View() == Feed(spec, start, incoming[..n])
      modifies this`receiveBufferOffset, receiveBuffer
      ensures Valid() && n + more <= |incoming| && Owes(start, incoming, n + more)
      ensures isTerminated || !mayReload ==> more == 0
      ensures more == 0 ==> isTerminated || receiveBufferOffset < 16
    {
      if isTerminated || !mayReload {
        OwesBack(start, incoming, n);
        return 0;
      }
      more :| more <= |incoming| - n && more <= NTCP_BUFFER_SIZE - receiveBufferOffset;
      ReadMore(spec, start, View(), incoming, n, n + more);
      Append(incoming[n..n + more]);
    }

    /** A read from the socket lands behind the bytes not used yet. */
    method Append(data: seq<byte>)
      requires Valid() && !isTerminated && |data| <= NTCP_BUFFER_SIZE - receiveBufferOffset
      modifies this`receiveBufferOffset, receiveBuffer
      ensures Valid() && View().state == old(View().state) && View().pending == old(View().pending) + data
      ensures receiveBufferOffset == old(receiveBufferOffset) + |data|
    {
      CopyInto(receiveBuffer, receiveBufferOffset, data);
      receiveBufferOffset := receiveBufferOffset + |data|;
    }
  }

  /** The sending end: one write at a time is under way, what is posted meanwhile waits in the queue. */
  class SendingSession {
    const cipher: Cipher
    const checksum: Checksum
    /** The session's step on an item. */
    ghost const spec: Producer<Block, Outgoing>
    var iv: Block
    var isTerminated: bool
    var isSending: bool
    var sendQueue: seq<Outgoing>
    /** What has been handed to the socket. */
    var wire: seq<byte>
    ghost const firstIv: Block
    ghost var sent: seq<Outgoing>
    /** No write has failed so far. */
    ghost var healthy: bool

    /** The ciphertext is that of the items sent, and the chaining state stands behind it. */
    ghost predicate Framed()
      reads this`wire, this`iv, this`sent
    {
      Produce(spec, firstIv, sent) == (iv, wire)
    }

    ghost predicate Implements() {
      forall iv: Block, it: Outgoing {:trigger Encrypted(cipher, checksum, iv, it)} ::
        spec.put(iv, it) == Encrypted(cipher, checksum, iv, it)
    }

    ghost predicate Valid()
      reads this
    {
      Implements() && Framed() && (healthy && !isSending ==> sendQueue == [])
    }

    /** Everything accepted for sending, oldest first. */
    ghost function Accepted(): seq<Outgoing>
      reads this
    {
      sent + sendQueue
    }

    /** Whatever part of the ciphertext has arrived, and however cut, the other end has handed on the first messages sent. */
    lemma ArrivesInOrder(chunks: seq<seq<byte>>)
      requires Valid() && Invertible(cipher) && spec == Sender(cipher, checksum) && Flatten(chunks) <= wire
      ensures FeedAll(Receiver(cipher, checksum), Start(firstIv), chunks).state.1.delivered <= Bodies(sent)
      ensures Flatten(chunks) == wire ==>
                FeedAll(Receiver(cipher, checksum), Start(firstIv), chunks).state.1.delivered == Bodies(sent)
    {
      FramingPrefix(cipher, checksum, firstIv, sent, chunks);
      if Flatten(chunks) == wire {
        FramingCorrect(cipher, checksum, firstIv, sent, chunks);
      }
    }

    /** Once established, a session tells the time and then who it is. */
    constructor (cipher: Cipher, checksum: Checksum, iv: Block, timeSync: Outgoing, databaseStore: Outgoing)
      requires timeSync.TimeSync? && databaseStore.Message?
      ensures Valid() && Accepted() == [timeSync, databaseStore] && healthy && isSending && !isTerminated
      ensures this.cipher == cipher && this.checksum == checksum && firstIv == iv && spec == Sender(cipher, checksum)
    {
      this.cipher, this.checksum, spec, this.iv, firstIv := cipher, checksum, Sender(cipher, checksum), iv, iv;
      isTerminated, isSending, sendQueue, wire, sent, healthy := false, false, [], [], [], true;
      new;
      Send([timeSync]);
      sendQueue := [databaseStore];
    }

    /** Frames and encrypts one message; the chaining state moves on. */
    method CreateMsgBuffer(it: Outgoing) returns (buffer: seq<byte>)
      requires Implements()
      modifies this`iv
      ensures (iv, buffer) == spec.put(old(iv), it)
    {
      assert spec.put(iv, it) == Encrypted(cipher, checksum, iv, it);
      FrameSize(checksum, it);
      var blocks := EncryptAll(cipher, iv, Blocks(Frame(checksum, it)));
      buffer, iv := Flatten(blocks), LastOf(iv, blocks);
    }

    method Send(msgs: seq<Outgoing>)
      requires Valid()
      modifies this`iv, this`isSending, this`wire, this`sent
      ensures sent == old(sent) + msgs && isSending && Valid()
    {
      isSending := true;
      for i := 0 to |msgs|
        invariant isSending && Framed() && sent == old(sent) + msgs[..i]
      {
        ProduceAppend(spec, firstIv, sent, msgs[i]);
        var buffer := CreateMsgBuffer(msgs[i]);
        wire, sent := wire + buffer, sent + [msgs[i]];
        assert old(sent) + msgs[..i] + [msgs[i]] == old(sent) + msgs[..i + 1];
      }
      assert msgs[..|msgs|] == msgs;
    }

    method PostI2NPMessages(msgs: seq<Outgoing>)
      requires Valid()
      modifies this`iv, this`isSending, this`wire, this`sent, this`sendQueue
      ensures Valid()
      ensures isTerminated ==> Accepted() == old(Accepted()) && sent == old(sent)
      ensures !isTerminated && healthy ==> Accepted() == old(Accepted()) + msgs
    {
      if isTerminated {
        return;
      }
      if isSending {
        sendQueue := sendQueue + msgs;
        ConcatAssociates(sent, old(sendQueue), msgs);
      } else {
        Send(msgs);
      }
    }

    /** A write has ended; if it went well, all that is waiting goes out next. */
    method HandleSent(ok: bool)
      requires Valid()
      modifies this
      ensures Valid() && healthy == (old(healthy) && ok) && isTerminated == old(isTerminated)
      ensures Accepted() == old(Accepted())
      ensures ok ==> sendQueue == [] && sent == old(Accepted()) && isSending == (old(sendQueue) != [])
      ensures !ok ==> sent == old(sent) && !isSending
    {
      isSending, healthy := false, healthy && ok;
      if ok && sendQueue != [] {
        var msgs := sendQueue;
        sendQueue := [];
        Send(msgs);
      }
    }
  }

  lemma FinishComplete(ck: Checksum, s: Session, buf: seq<byte>, len: nat)
    requires s.cur == Partial(buf, len) && 2 <= len && len + 4 <= |buf|
    ensures var added := if Verifies(ck, buf) then s.delivered + [buf[2..len]] else s.delivered;
            Finish(ck, s) == s.(cur := Idle, delivered := added)
  {
  }

  lemma FinishLater(ck: Checksum, s: Session, buf: seq<byte>, len: nat)
    requires s.cur == Partial(buf, len) && len + 4 > |buf|
    ensures Finish(ck, s) == s
  {
  }

  lemma TakeFirst(ck: Checksum, s: Session, b: Block)
    requires s.cur == Idle && 0 < FromBigEndian(b[..2]) <= NTCP_MAX_MESSAGE_SIZE
    ensures TakePlain(ck, s, b) == Finish(ck, s.(cur := Partial(b, FromBigEndian(b[..2]) + 2)))
  {
  }

  lemma TakeMore(ck: Checksum, s: Session, b: Block, buf: seq<byte>, len: nat)
    requires s.cur == Partial(buf, len)
    ensures TakePlain(ck, s, b) == Finish(ck, s.(cur := Partial(buf + b, len)))
  {
  }

  lemma DrainNext<S>(m: Consumer<S>, s: S, all: seq<byte>, i: nat, b: Block)
    requires m.live(s) && i + 16 <= |all| && b == all[i..i + 16]
    ensures Drain(m, s, all[i..]) == Drain(m, m.take(s, b), all[i + 16..])
  {
    assert all[i..][..16] == b && all[i..][16..] == all[i + 16..];
  }

  lemma DrainNothing<S>(m: Consumer<S>, s: S, pending: seq<byte>)
    requires Settled(m, Reader(s, pending))
    ensures Drain(m, s, pending) == Reader(s, pending)
  {
  }

  lemma ReadMore<S>(m: Consumer<S>, start: Reader<S>, now: Reader<S>, incoming: seq<byte>, n: nat, k: nat)
    requires n <= k <= |incoming| && now == Feed(m, start, incoming[..n])
    ensures Drain(m, now.state, now.pending + incoming[n..k]) == Feed(m, start, incoming[..k])
  {
    FeedJoin(m, start, incoming[..n], incoming[n..k]);
    assert incoming[..n] + incoming[n..k] == incoming[..k];
  }
}
