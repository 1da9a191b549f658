# Verified model of the i2pd core protocols

i2pd is an I2P router. This project models, in Dafny, the state machines and codecs at its centre and proves what they
are for: streams that deliver bytes in order over a lossy network, acknowledgements that can be trusted, session tags
that sender and receiver agree on, fragments that come back as the message they were cut from, frames that survive any
cutting by TCP, encryption that decryption undoes, searches that find the nearest routers, lookups that end once.

Check everything with `dafny verify dfyconfig.toml`.

## How it is laid out

| files | component |
|---|---|
| `StreamingSpec`, `StreamingInvariants`, `StreamingForeign`, `StreamingProtocol`, `StreamingAcks`, `StreamingReliability`, `StreamingClose`, `StreamingLimits`, `StreamingSecond`, `StreamingGuard`, `StreamingProgress`, `StreamingWindow`, `StreamingEnd`, `Streaming` | the streaming library: one stream's handlers as functions, packets that come from another stream than the peer, the system of an opener and every stream its SYN opens, its invariants, closing, the limits of the code and the conditions that avoid them, progress, the window and the resend times, how streams end, and the imperative `Stream` |
| `GarlicTags`, `GarlicProtocol`, `GarlicLeaseSet`, `GarlicSupply`, `Garlic`, `GarlicCodec`, `GarlicWire` | session tags on both sides, runs of the two, which messages carry the LeaseSet or new tags, the two objects, the layers of a garlic message, and runs joined with its bytes |
| `SsuSpec`, `SsuProtocol`, `SsuEstablish`, `SsuResend`, `SsuDuplex`, `SsuPacket`, `Ssu`, `I2np` | SSU fragments and reassembly, runs, how a session is established, the resend schedule and ack bitfields, runs of both ends with their acknowledgements, data packets, the data object, and message buffers with their two headers |
| `BlockReader`, `NtcpSpec`, `Ntcp`, `Cbc` | block consumers behind a byte stream, NTCP frames, the two ends of a session, cipher block chaining |
| `NumberTheory`, `ElGamal` | Fermat's little theorem from Euclid and the binomial theorem; ElGamal |
| `NetDbClosest`, `NetDbRequests`, `NetDb` | XOR-closest search, the life cycle of lookups, the handlers |
| `PeerTest`, `PeerTestNetwork` | the SSU peer test at one router, and among three of them |
| `Automaton`, `Socks` | resumable byte automata and the SOCKS parser |
| `RouterInfoSpec`, `RouterInfo` | the RouterInfo printer and parser |
| `Bytes`, `Wrappers` | bytes, big-endian numbers, concatenation; options and the sizes of message buffers |

Where the source updates an object, the model has a class whose methods are proved equal to functions on its abstract
value (`View()`), and the protocol theorems are about those functions, over runs of any length. A handler is one atomic
step. Networks keep every packet ever sent and may deliver any of them at any time, any number of times, or never.
Hashes, the block cipher, random numbers and the clock are parameters; the only laws assumed are that a digest has its
length and that the block cipher is invertible.

## What the code does not do, and exactly when

These follow from the code and are stated with their exact conditions.

- A stream takes every SYN as next in sequence. A SYN of the peer is harmless if and only if it is the first packet, or
  repeats an empty one with nothing after it (`StreamingLimits.DuplicateSynExact`); otherwise the reader can get bytes
  twice in an ordinary run (`StreamingLimits.RepeatedSynRepeatsBytes`).
- Every copy of the opener's SYN that arrives opens a new stream (`StreamingProtocol.NoSecondSyn`), and the opener sends
  its SYN again whenever the answer is late. What the second stream sends carries the opener's number, and the opener
  takes it as sent by its peer. Its answering SYN can make the opener read bytes twice
  (`StreamingSecond.SecondStreamRepeatsBytes`), and its close packet, when nobody acknowledges it, can make bytes go
  missing (`StreamingSecond.SecondStreamSkipsBytes`). Such a packet keeps what was received if and only if
  `StreamingForeign.Harmless` holds of it (`StreamingSecond.HarmlessExact`), and its acknowledgement loses nothing if and
  only if it is `Justified` (`StreamingSecond.JustifiedExact`). The theorems over runs are for any number of streams
  under these two conditions; both hold if the opener's SYN is let in only while no stream is open
  (`StreamingProtocol.SingleIsAllowed`, `StreamingGuard.SingleIsGuarded`).
- A numbered packet built before the peer's SYN is recorded acknowledges everything. It is truthful if and only if it is
  the SYN or the peer's SYN has arrived (`StreamingLimits.BuiltAckExact`); `SendBuffer` builds such packets exactly under
  the condition of `StreamingLimits.LateExact`. This happens in an ordinary run, because an ack carried by the answering SYN
  releases the send buffer before that SYN is recorded, and it can lose data for good (`StreamingLimits.SilentLoss`).
  Runs that meet a condition checked before each event, the conditions above included, lose nothing
  (`StreamingGuard.GuardedRunReliable`) and can always be continued to the end (`StreamingProgress.CanFinish`).
- A quick ack is truthful if and only if at most 255 numbers are missing (`StreamingAcks.QuickAckExact`).
- Acknowledging SSU fragment n clears slot n modulo 7, hence the right slot if and only if n < 7 (`SsuResend.AckExact`).
  Over runs of both ends, with up to seven fragments nothing the receiver lacks stops being resent
  (`SsuDuplex.NeverStopsMissing`); a single acknowledgement of a later fragment already breaks this
  (`SsuDuplex.BitsExact`).
- A session tag is understood for 241 s after it was picked, and 242 s can be too late (`GarlicProtocol.TagAgreement`,
  `GarlicProtocol.BoundIsSharp`).
- A floodfill passes an entry on to one and the same floodfill three times (`NetDbClosest.FloodTargets`).
- A confirmation counts for the LeaseSet if it is for the message that carried it last. So a LeaseSet that changes while
  the old one is unconfirmed is sent if and only if that confirmation does not come first (`GarlicLeaseSet.ChangeExact`).
- The number of that message is not initialised. A session opened without the LeaseSet sends it after all if and only if
  one of its messages happens to have that number, is confirmed, and the LeaseSet changes afterwards
  (`GarlicLeaseSet.NeverUnlessGarbage`, with a run in `GarlicLeaseSet.SentAfterAll`).
- Tags sent while no inbound tunnel is there for the DeliveryStatus are never used (`GarlicSupply.UnaskedAreLost`).
- An SSU message whose fragments all came in their turn so far is given up by the next cleanup, however recent it is
  (`SsuProtocol.InTurnIsGivenUp`).
- In a peer test Alice's answer to Charlie names his port but no address, and such a packet is not looked at. Alice still
  ends as she should, but Charlie keeps the test until a sweep, if and only if the port is not zero
  (`PeerTestNetwork.EveryOrder`, `PeerTestNetwork.CharlieForgetsExactly`).
- A SOCKS5 name size of zero takes the next 256 bytes, after which the one-byte host length has wrapped: the host is
  empty and the request is refused (`Socks.Socks5SizeZero`).
- The bounded search for the nearest floodfills keeps them exactly as long as no candidate repeats one already in a
  full list, its last excepted (`NetDbClosest.TakeInExact`); seeing the nearer of two twice loses the other
  (`NetDbClosest.RepeatLoses`).
- A completed SSU message of fewer than five bytes gets a size field that has wrapped (`I2np.I2NPMessage.FromSSU`).
- An MTU that leaves an SSU packet of 32 bytes or fewer makes the payload size wrap, so that a message goes out as one
  fragment whatever its length (`Ssu.SSUData.Send`).
- The number of an introducer is read back if and only if it is below ten (`RouterInfo.IntroducerNumberExact`).

## Model

| member | source | states |
|---|---|---|
| StreamingProtocol.EndToEnd | core/Streaming.cpp:72-232 | in every allowed run of an opener and every stream its SYN opens, over a network that loses, repeats and reorders, what the opener has read, with any read sizes, is a prefix of what its peer wrote, and what any of the streams has read is a prefix of what the opener wrote |
| StreamingProtocol.SenderBounds | core/Streaming.cpp:317-408 | over every allowed run, at the opener and at every stream, the window stays in 1..128, at most 128 packets are outstanding, their numbers are distinct and below the next sequence number |
| StreamingProtocol.NeverReopened | core/Streaming.cpp:479-511 | a stream, the opener or any other, that left Open never returns to it however the run goes on |
| StreamingProtocol.NoSecondSyn | core/Streaming.cpp:801-844 | no copy of the opener's SYN is routed to a stream that exists; it opens another one |
| StreamingProtocol.StepInv | core/Streaming.cpp:801-844 | every allowed event, the opening of one more stream by a repeated SYN and the arrival of that stream's packets at the opener included, keeps the sender and receiver invariants of all streams |
| StreamingForeign.HandleHarmlessOk | core/Streaming.cpp:72-165 | a harmless packet of a stream that is not the peer keeps what was received from the peer, and the sending half |
| StreamingProtocol.SingleIsAllowed | core/Streaming.cpp:801-844 | if the opener's SYN is let in only while no stream is open, only the peer's own SYN carries a condition, and one stream is all there is |
| StreamingInvariants.HandleNextPacketOk | core/Streaming.cpp:72-165 | any genuine packet, early, late, repeated or next, keeps received data equal to the peer's first packets and the saved set sorted above them |
| StreamingInvariants.DrainOk | core/Streaming.cpp:97-109 | the saved packets that became next are delivered as the longest consecutive run, stopping at the first gap |
| StreamingInvariants.UnackedNumbers | core/Streaming.cpp:240-284 | an ack drops exactly the outstanding numbers up to ackThrough that are not NACKed |
| StreamingInvariants.ProcessAckOk | core/Streaming.cpp:234-294 | handling an ack keeps numbering, window bounds and what may be in flight |
| StreamingInvariants.SendBufferOk | core/Streaming.cpp:317-408 | cutting the buffer into packets numbers them consecutively, loses no byte and keeps the window |
| StreamingInvariants.ReadSomeOk | core/Streaming.cpp:544-561 | a read of any size takes the next received bytes, in order |
| StreamingInvariants.HandleResendTimerOk | core/Streaming.cpp:639-693 | resending changes neither the packets outstanding nor their numbers, builds nothing unless the stream is reset, and keeps the window in bounds |
| StreamingInvariants.CloseOk | core/Streaming.cpp:479-542 | closing keeps the sender's invariant in every status |
| StreamingAcks.QuickAckExact | core/Streaming.cpp:410-477 | a quick ack claims exactly the numbers held, if and only if at most 255 are missing |
| StreamingAcks.NackScanAll | core/Streaming.cpp:435-467 | with fewer than 256 missing, all are listed and ackThrough stays |
| StreamingAcks.NackScanOverflow | core/Streaming.cpp:441-449 | with more, ackThrough ends on a missing number that is not NACKed |
| StreamingReliability.RunReliable | core/Streaming.cpp:234-477 | after every careful run of an opener and every stream its SYN opened, all acks in flight are truthful and every packet built at either end is a close packet, outstanding, or held by the other end |
| StreamingReliability.AckDropsOnlyHeld | core/Streaming.cpp:234-294 | whatever ack arrives at either end, however old, a packet it takes out is held by the peer |
| StreamingReliability.AckedMeansDelivered | core/Streaming.cpp:234-294 | once nothing is outstanding, every packet before the first close packet has been delivered |
| StreamingReliability.AllAckedAllDelivered | core/Streaming.cpp:234-306 | at either end, with nothing outstanding, nothing buffered and no payload behind a close packet, the peer's reader has or can read exactly the bytes written |
| StreamingReliability.GracefulClose | core/Streaming.cpp:479-511 | at either end, closing an Open or Closing stream makes it Closed only when all it wrote has reached the peer, a close packet built earlier behind the last byte included |
| StreamingClose.ClosedMeansDelivered | core/Streaming.cpp:479-511 | over every careful run, repeated SYNs and the streams they open included, in which no application writes behind its close packet: whenever the opener or its peer is Closed, the other has, or can read, exactly the bytes it wrote, whether or not data was buffered when it was closed |
| StreamingClose.OpenHasNoClose | core/Streaming.cpp:387-542 | over every allowed run a stream that is still open has built no close packet |
| StreamingClose.SendBufferTidy | core/Streaming.cpp:387-405 | a close packet is built only behind the last buffered byte of a closing stream |
| StreamingGuard.GuardedRunReliable | core/Streaming.cpp:317-477 | a run whose every event meets a condition on the state before it, what other streams than the peer send included, has truthful acks throughout and loses nothing |
| StreamingGuard.GuardedIsCareful | core/Streaming.cpp:317-477 | in such a run no stream builds a packet that acknowledges everything or ever has more than 255 numbers missing |
| StreamingGuard.SingleIsGuarded | core/Streaming.cpp:801-844 | letting the opener's SYN in only while no stream is open makes the conditions on other streams hold, which leaves conditions on one stream and the packet it takes |
| StreamingGuard.SingleRunReliable | core/Streaming.cpp:801-844 | so over such runs acks are truthful, nothing is lost and there is one stream at most |
| StreamingProgress.CanFinish | core/Streaming.cpp:234-477 | after every guarded run, whatever was lost: while the two open streams know each other, this side's SYN is acknowledged and resends are left, there is a guarded continuation after which nothing of this side is outstanding or buffered and the other side has read, or can read, exactly the bytes written |
| StreamingProgress.CanClose | core/Streaming.cpp:479-511 | and the run can be continued until that side is Closed with its close packet waiting to be sent, everything it wrote having been delivered |
| StreamingProgress.Round | core/Streaming.cpp:639-693 | resending everything outstanding, delivering it in order, repeating one packet and taking the quick ack it causes frees the whole window, and then either nothing is left or more has been sent |
| StreamingProgress.HandshakeTalks | core/Streaming.cpp:72-160 | a guarded run through the handshake and a write of any size ends in such a state |
| StreamingWindow.SlowStart | core/Streaming.cpp:262-284 | an ack that takes out k packets opens a window below six by k, up to six at least, and never narrows it |
| StreamingWindow.LinearGrowth | core/Streaming.cpp:262-284 | from six on an ack adds one, up to 128, if it comes more than a round trip after the last time, and nothing if sooner, for any bounds on the round trips measured |
| StreamingWindow.OneAck | core/Streaming.cpp:262-284 | an ack for one packet: the exact round-trip time, resend time and window, by the inequalities of rounding down |
| StreamingWindow.RoundTripTime | core/Streaming.cpp:262-264 | after any ack the round-trip time lies between the old one and the samples, and the resend time is one and a half of it |
| StreamingWindow.WindowAfterAcks | core/Streaming.cpp:234-294 | over every run with n acks more than a round trip apart and no timeout, whatever else happens in between, a window of six ends at six plus n, at most 128 |
| StreamingWindow.BackingOff | core/Streaming.cpp:639-693 | over every run of n timeouts in a row there are at most six, the first alone halves the window, the resend time is doubled, then 9, 18, 36, 72 and 144 s, and one more timer resets the stream |
| StreamingWindow.ResentLater | core/Streaming.cpp:654-664 | a packet that went out again is not due before the new resend time has passed, and no packet that was not due is touched |
| StreamingWindow.FullPackets | core/Streaming.cpp:346-386 | an open stream sends packets of 1708 bytes; only the last, which empties the buffer, may be shorter |
| StreamingEnd.ClosesBehindTheLast | core/Streaming.cpp:387-408 | a closing stream posts its close packet when the last of its buffer goes out, and not before |
| StreamingEnd.ClosedByTheLastAck | core/Streaming.cpp:281-294 | with its buffer empty it becomes Closed, and posts a close packet, by exactly the ack that leaves nothing outstanding |
| StreamingEnd.ClosedAtOnce | core/Streaming.cpp:479-511 | closing an open stream makes it Closed at once exactly if everything was sent and acknowledged |
| StreamingEnd.CloseIsNotResent | core/Streaming.cpp:513-542 | a close packet goes out once and is never outstanding |
| StreamingEnd.ResetBy | core/Streaming.cpp:167-232 | a packet in sequence that closes, or whose signature is wrong, resets the stream whatever its status and whatever is saved behind it |
| StreamingEnd.EarlyCloseArrives | core/Streaming.cpp:801-844 | a close packet of a stream that knows no peer yet finds the stream that sends to it, and ends it if it comes in sequence |
| StreamingEnd.NoAckAfterSending | core/Streaming.cpp:563-605 | once a packet has gone out the ack scheduled before is not sent by itself |
| StreamingLimits.DuplicateSynExact | core/Streaming.cpp:92-109 | a SYN keeps what was received if and only if it is the first packet or repeats an empty one with nothing after it |
| StreamingLimits.BuiltAckExact | core/Streaming.cpp:322-345 | a numbered packet or close packet is truthful if and only if the peer's SYN has arrived (or it is the SYN) |
| StreamingLimits.LateExact | core/Streaming.cpp:317-408 | exactly when sending builds packets that acknowledge everything |
| StreamingLimits.SilentLoss | core/Streaming.cpp:72-95 | for any rooms in the SYNs and any data that overflow the opener's, a run from the start, with one SYN each way and one stream opened, in which a packet of the stream is acknowledged though the opener never held it |
| StreamingLimits.RepeatedSynRepeatsBytes | core/Streaming.cpp:92-109 | a run from the start, allowed until the network repeats the peer's SYN and data, after which the opener has read the peer's bytes twice, no prefix of what was written |
| StreamingSecond.HarmlessExact | core/Streaming.cpp:72-160 | a packet of another stream keeps the bytes received in order and everything held if and only if it is a plain ack, is held already, brings the very bytes the peer sent as next, is the peer's own, or is a SYN that comes first with the peer's bytes or empty with nothing after it |
| StreamingSecond.JustifiedExact | core/Streaming.cpp:240-284 | its acknowledgement loses nothing if and only if the peer holds all that it takes out |
| StreamingSecond.SecondStreamRepeatsBytes | core/Streaming.cpp:801-844 | a run from the start, allowed until the answer of a second stream, opened by a repeat of the opener's SYN, reaches the opener, which then reads the peer's bytes twice |
| StreamingSecond.SecondStreamSkipsBytes | core/Streaming.cpp:639-693 | a run from the start with one SYN at every stream, allowed until the close packet of a second stream that gave up resending reaches the opener, which then reads the peer's second packet without the first |
| Streaming.Stream.HandleNextPacket | core/Streaming.cpp:72-160 | the object's new state is that of the specified handler, saved packets drained while iterating |
| Streaming.Stream.ProcessPacket | core/Streaming.cpp:167-232 | payload queued, peer ID and close flag handled as specified |
| Streaming.Stream.ProcessAck | core/Streaming.cpp:234-294 | acknowledged packets erased, round-trip time, window and sending resumed as specified; what that makes of window and times is said by SlowStart, LinearGrowth and OneAck |
| Streaming.Stream.RemoveAcknowledged | core/Streaming.cpp:240-284 | the erase-while-iterating loop with early exit leaves exactly the unacknowledged packets |
| Streaming.Stream.SendBuffer | core/Streaming.cpp:317-408 | the loop builds packets while the window allows and makes them outstanding |
| Streaming.Stream.SendQuickAck | core/Streaming.cpp:410-477 | the packet built lists the gaps between saved packets |
| Streaming.Stream.ConcatenatePackets | core/Streaming.cpp:544-561 | the bytes returned are the first of the queue, across packet boundaries |
| Streaming.Stream.Close | core/Streaming.cpp:479-511 | each status moves as specified |
| Streaming.Stream.SendClose | core/Streaming.cpp:513-542 | the close packet is built and sent as specified |
| Streaming.Stream.HandleResendTimer | core/Streaming.cpp:639-693 | due packets are resent, the window is halved at the first attempt, and the stream is reset after too many |
| Streaming.Stream.HandleAckSendTimer | core/Streaming.cpp:695-710 | a pending ack goes out, or the stream is reset if the SYN has not arrived by then |
| NumberTheory.Fermat | core/crypto/ElGamal.h:64-64 | a^(p-1) = 1 modulo a prime p that does not divide a, on which decryption rests |
| NumberTheory.Euclid | core/crypto/ElGamal.h:64-64 | a prime that divides a product but not one factor divides the other |
| ElGamal.RoundTrip | core/crypto/ElGamal.h:21-72 | for every prime of full size, generator, secret below p, exponent and 222-byte data, decryption returns the data, in both layouts |
| ElGamal.OpensExactly | core/crypto/ElGamal.h:58-72 | whatever block was encrypted opens to its data if and only if it holds their digest |
| ElGamal.KeysRoundTrip | core/crypto/ElGamal.h:74-83 | a secret below p and its public key are read back from their 256 bytes |
| ElGamal.BlockBelowPrime | core/crypto/ElGamal.h:32-36 | the 255-byte block is a number below p |
| ElGamal.ElGamalEncryption.Encrypt | core/crypto/ElGamal.h:29-51 | the object's ciphertext is the specified one for its key and exponent |
| Cbc.RoundTrip | core/crypto/aes.cpp:120-125 | decryption undoes encryption for any number of blocks |
| Cbc.AnySplits | core/crypto/aes.cpp:182-188 | encrypting in any sequence of calls and decrypting in any other gives the plaintext back |
| Cbc.Chained | core/crypto/aes.cpp:120-125 | each block enciphered is the plaintext xor the ciphertext before it, the first one xor the initial vector |
| Cbc.XorBitAt | core/crypto/aes.cpp:120-125 | a bit of the exclusive or is set exactly if one of the two is |
| Cbc.CBCEncryption.Encrypt | core/crypto/aes.cpp:120-125 | the loop produces the chained ciphertext, in place or not, and leaves the chaining state at its last block |
| Cbc.CBCDecryption.Decrypt | core/crypto/aes.cpp:182-188 | the same for decryption, over its own input if asked |
| BlockReader.AnyCuts | core/transport/NTCPSession.cpp:482-543 | however a stream is cut into reads, the consumer of its blocks ends in the same state with the same bytes left |
| BlockReader.FoldCipher | core/transport/NTCPSession.cpp:547-593 | decrypting block by block hands the consumer the plaintext |
| NtcpSpec.FramingCorrect | core/transport/NTCPSession.cpp:547-634 | for every list of messages of 1 to 16384 bytes with time-sync frames between and every way TCP cuts the ciphertext, exactly those messages are handed on, in order |
| NtcpSpec.FramingPrefix | core/transport/NTCPSession.cpp:482-593 | at every moment what was handed on are the first messages posted |
| NtcpSpec.FoldFrame | core/transport/NTCPSession.cpp:547-593 | one frame yields its body if it is a message whose checksum is right, and nothing otherwise |
| NtcpSpec.DamagedAreDropped | core/transport/NTCPSession.cpp:583-592 | whatever stands in the place of the checksums and however TCP cuts the ciphertext, exactly the messages whose checksum is right are handed on, in order |
| NtcpSpec.OversizedStops | core/transport/NTCPSession.cpp:554-562 | exactly a block that announces more than 16384 bytes stops the session, and nothing behind it is looked at |
| Ntcp.BufferFits | core/I2NPProtocol.h:193-198 | the blocks of any acceptable message fit the buffer chosen by size, 4094 bytes filling 4112 exactly |
| Ntcp.ReceivingSession.DecryptNextBlock | core/transport/NTCPSession.cpp:547-593 | one block opens, extends or completes a message as specified, within its buffer |
| Ntcp.ReceivingSession.HandleReceived | core/transport/NTCPSession.cpp:482-543 | a read, with up to five more at once, equals feeding those bytes to the specified reader |
| Ntcp.SendingSession.PostI2NPMessages | core/transport/NTCPSession.cpp:682-692 | without write errors everything accepted is sent or queued in posted order |
| Ntcp.SendingSession.ArrivesInOrder | core/transport/NTCPSession.cpp:636-692 | whatever part of a session's ciphertext has arrived, however cut, the other end has handed on the first messages sent, and all of them once all of it has arrived |
| Ntcp.SendingSession.HandleSent | core/transport/NTCPSession.cpp:646-669 | a finished write sends all that waited, keeping the order |
| Ntcp.SendingSession.Send | core/transport/NTCPSession.cpp:636-644 | the ciphertext handed to the socket is that of all items sent, with one running chaining state |
| GarlicProtocol.TagConservation | core/Garlic.cpp:43-135 | after every run a tag is waiting in one place, or ready once, or spent, never two of these, and no two messages use the same tag |
| GarlicProtocol.SpentInTime | core/Garlic.cpp:67-135 | a tag is used only after its own message was confirmed by the receiver, and less than 720 s after its creation |
| GarlicProtocol.TagAgreement | core/Garlic.cpp:361-443 | every tag picked is, until the first copy of its message arrives and for 241 s at least, in the receiver's table under the sender's key |
| GarlicProtocol.FirstCopyIsRead | core/Garlic.cpp:361-443 | so that copy is read, its new tags are stored under the key, its DeliveryStatus goes back, and its tag is used up |
| GarlicProtocol.BoundIsSharp | core/Garlic.cpp:405-425 | a run in which a copy arriving 242 s after its tag was picked finds the tag gone |
| GarlicProtocol.StepOk | core/Garlic.cpp:43-135 | wrapping, confirming, expiring, receiving and cleanup all keep the invariant of sessions, table and history |
| GarlicProtocol.PickFacts | core/Garlic.cpp:117-135 | the search returns the first live tag and drops those before it |
| GarlicLeaseSet.FirstCarries | core/Garlic.cpp:237-248 | over every run the first message of a session opened with the LeaseSet carries it |
| GarlicLeaseSet.AgainAfterFourSeconds | core/Garlic.cpp:215-248 | while the message that carried it last is not confirmed and it has not changed, a message carries it again exactly if sent more than 4000 ms later |
| GarlicLeaseSet.NotAfterConfirmation | core/Garlic.cpp:55-65 | once that message is confirmed no message carries it until it changes |
| GarlicLeaseSet.ChangeExact | core/Garlic.cpp:55-65 | the first message after a change carries the new one if and only if the old one is not confirmed in between |
| GarlicLeaseSet.StatusSettles | core/Garlic.cpp:585-597 | the first DeliveryStatus for a message that asked for one confirms it, unless its tags are 720 s old |
| GarlicLeaseSet.CarrierAsks | core/Garlic.cpp:220-248 | a message that carries the LeaseSet asks for a DeliveryStatus exactly if an inbound tunnel is there |
| GarlicLeaseSet.NeverUnlessGarbage | core/Garlic.cpp:18-36 | a session opened without the LeaseSet sends it if and only if a message of its own has the uninitialised number and is confirmed, then it changes, then something is sent |
| GarlicLeaseSet.SentAfterAll | core/Garlic.cpp:18-36 | a run on which that happens |
| GarlicSupply.BringsTagsExactly | core/Garlic.cpp:174-236 | a message brings new tags exactly when at most two thirds are left, and asks for a DeliveryStatus exactly when it brings tags or the LeaseSet and a tunnel is there |
| GarlicSupply.UnaskedAreLost | core/Garlic.cpp:220-236 | over every run tags whose message asked for no DeliveryStatus are never ready, awaited or used |
| GarlicSupply.SweepLeaves | core/Garlic.cpp:84-108 | a sweep leaves exactly the tags and unconfirmed messages younger than 720 s, and nobody waits for the others |
| GarlicSupply.LateConfirmation | core/Garlic.cpp:67-82 | over every run a confirmation 720 s after its tags were made, or later, makes none of them ready |
| GarlicSupply.UnreadBringsNothing | core/Garlic.cpp:361-426 | a message that cannot be read stores no tag and returns no DeliveryStatus |
| Garlic.GarlicRoutingSession.TagsConfirmed | core/Garlic.cpp:67-82 | a confirmed batch joins the ready tags unless it is too old |
| Garlic.GarlicRoutingSession.CleanupExpiredTags | core/Garlic.cpp:84-108 | both sweeps drop exactly what has expired, and its messages are forgotten by the owner |
| Garlic.GarlicRoutingSession.MessageConfirmed | core/Garlic.cpp:55-65 | a confirmation confirms tags and either the LeaseSet or a cleanup; what a confirmed LeaseSet means for later messages is said by NotAfterConfirmation |
| Garlic.GarlicRoutingSession.SetLeaseSetUpdated | core/Garlic.h:87-90 | the LeaseSet is to be sent again, unless the session never sends it |
| Garlic.GarlicRoutingSession.WrapSingleMessage | core/Garlic.cpp:110-249 | the tag used, new tags, DeliveryStatus and LeaseSet status of a message are as specified |
| Garlic.GarlicDestination.HandleGarlicMessage | core/Garlic.cpp:361-426 | the table after a message: new tags stored, the tag used up, expired ones swept at most every 960 s |
| Garlic.GarlicDestination.HandleDeliveryStatusMessage | core/Garlic.cpp:585-597 | a DeliveryStatus confirms its message in the session that sent it, once |
| Garlic.GarlicDestination.AddSessionKey | core/Garlic.cpp:344-353 | one tag is stored under a key |
| GarlicCodec.GarlicRoundTrip | core/Garlic.cpp:110-534 | a message written for tags and cloves, opened by tag or by ElGamal, yields the session key, exactly those tags and exactly those cloves in order |
| GarlicCodec.BlockRoundTrip | core/Garlic.cpp:428-466 | parsing an AES block recovers tags and payload through count, size, hash and padding |
| GarlicCodec.PayloadRoundTrip | core/Garlic.cpp:468-534 | every clove is handed on once, in order, with its delivery type, whatever stands behind the payload in its buffer |
| GarlicCodec.CloveRoundTrip | core/Garlic.cpp:265-338 | one clove, local, to a destination or to a tunnel, is read back with its exact length |
| GarlicCodec.MessageRoundTrip | core/Garlic.cpp:361-403 | the encrypted block is found and decrypted by tag or by ElGamal |
| GarlicCodec.CreateAESBlock | core/Garlic.cpp:174-204 | the block built field by field is the specified one, padded to whole cipher blocks |
| GarlicCodec.AnyBlock | core/Garlic.cpp:428-466 | any block gives its tags, and its payload if and only if the hash is right, a session key in front of it passed over if the flag says so |
| GarlicCodec.AnyClove | core/Garlic.cpp:476-524 | a clove under any flag is read with its exact length: a key passed over, a message for a router handed to nobody, the others handed on |
| GarlicCodec.PayloadIsSound | core/Garlic.cpp:441-465 | whatever is taken for a payload stands in the block as announced and has the hash given |
| GarlicCodec.HandleGarlicPayload | core/Garlic.cpp:468-534 | the walk hands on clove after clove, the one that runs past the payload included, and stops there |
| GarlicWire.WireOpens | core/Garlic.cpp:361-466 | opening the bytes of a message the receiver can read gives its key, tags and cloves, and changes the table of byte strings exactly as the message changes the protocol's table |
| GarlicWire.FirstCopyOpens | core/Garlic.cpp:361-466 | over every run of senders and receiver, the first copy of a message under a tag, within 241 s, is opened from its bytes to its key, tags and cloves, and the table is then the protocol's |
| SsuProtocol.DeliveredWasSent | core/transport/SSUData.cpp:149-264 | under every order, loss and repetition of fragments of many messages that fit the largest buffer and every cleanup, what is handed on is a posted message with its expiration rounded down to the second |
| SsuProtocol.HandedOnOnce | core/transport/SSUData.cpp:234-247 | between two clears of the received list no message is handed on twice |
| SsuProtocol.Reassembled | core/transport/SSUData.cpp:149-264 | if all fragments arrive without a cleanup in between, the message is completed and an established session has handed it on |
| SsuProtocol.AttachSavedOk | core/transport/SSUData.cpp:188-205 | adding saved fragments completes the message or stops at a gap and forgets none |
| SsuProtocol.StepOk | core/transport/SSUData.cpp:149-264 | every step keeps incomplete messages equal to the first fragments of what was posted |
| SsuProtocol.ArriveIsPacket | core/transport/SSUData.cpp:149-171 | taking a fragment in a run is reading the packet its sender made of it, whatever padding follows |
| SsuProtocol.NeverOverruns | core/transport/SSUData.cpp:13-38 | over every run what is put together, and any next fragment of it, fits the largest message buffer |
| SsuProtocol.SavedIsKept | core/transport/SSUData.cpp:487-504 | a fragment that had to be saved keeps its message through every cleanup of the next 30 s |
| SsuProtocol.RepeatChangesNothing | core/transport/SSUData.cpp:203-223 | over every run a fragment of an incomplete message that is there already changes nothing |
| SsuProtocol.InTurnIsGivenUp | core/transport/SSUData.cpp:487-504 | a message whose fragments came in their turn so far is given up by any cleanup later than 30 s on the clock |
| SsuEstablish.EstablishedExactly | core/transport/SSUData.cpp:225-259 | over every run from an unestablished session it is established if and only if a message posted with type 10 has been completed |
| SsuEstablish.HandedOnExactly | core/transport/SSUData.cpp:225-259 | and what is handed on are exactly the messages completed behind one of type 10, as posted |
| SsuSpec.ShortFormRoundTrip | core/I2NPProtocol.h:167-187 | the short header read back gives the message with its expiration rounded to seconds |
| SsuSpec.ChopFlattens | core/transport/SSUData.cpp:310-364 | the fragments joined are the message |
| SsuSpec.ChopSizes | core/transport/SSUData.cpp:328-329 | no fragment is empty or too big and only the last may be shorter |
| SsuSpec.FragmentRoundTrip | core/transport/SSUData.cpp:149-170 | a packet gives back exactly its one fragment, with number, last flag and bytes, whatever padding follows, for up to 128 fragments |
| SsuResend.ResendSchedule | core/transport/SSUData.cpp:422-461 | over every run a message sent at t is after k <= 5 resends due at t + 3 + 3k(k+1)/2, and an unacknowledged fragment has been sent k + 1 times |
| SsuResend.NotGivenUpEarly | core/transport/SSUData.cpp:450-454 | a message is given up only at t + 48 or later, and no fragment was sent more than six times |
| SsuResend.InUseGoesOn | core/transport/SSUData.cpp:292-300 | over every run a message whose number is still in use goes on as it is when it is sent again |
| SsuResend.AckClears | core/transport/SSUData.cpp:384-411 | an acknowledgement of fragment n clears exactly slot n modulo 7 |
| SsuResend.AckExact | core/transport/SSUData.cpp:108-146 | it clears the slot it is meant for if and only if n < 7 |
| SsuDuplex.AcknowledgedWasDelivered | core/transport/SSUData.cpp:89-147 | over every run of both ends of an established session, a message the sender drops as acknowledged was completed by the receiver and handed on as posted |
| SsuDuplex.FewFragmentsHonest | core/transport/SSUData.cpp:108-146 | over every run, a fragment of a message of at most seven stops being sent only once it has arrived |
| SsuDuplex.NeverStopsMissing | core/transport/SSUData.cpp:108-146 | over every run without a cleanup, with at most seven fragments, no fragment the receiver lacks stops being resent |
| SsuDuplex.BitsExact | core/transport/SSUData.cpp:384-411 | one fragment arrived and acknowledged: the acknowledgement is honest if and only if its number is below seven |
| SsuDuplex.NeverResent | core/transport/SSUData.cpp:422-461 | a fragment once cleared, honestly or not, is never sent again however the run goes on |
| SsuDuplex.OnlyUpTo64 | core/transport/SSUData.cpp:384-411 | over every run no fragment above number 64 is acknowledged by itself, and any other that completes nothing is |
| SsuPacket.PacketRoundTrip | core/transport/SSUData.cpp:108-170 | message acknowledgements, bitfields, extended data and fragments, each there as the flag says, are read back whatever padding follows |
| SsuPacket.OversizedEnds | core/transport/SSUData.cpp:149-170 | a fragment that announces 1456 bytes or more ends its packet; those before it count |
| SsuPacket.MessageAckIsStep | core/transport/SSUData.cpp:366-382 | taking the packet that acknowledges a message is the step of a run of both ends |
| SsuPacket.FragmentAckIsStep | core/transport/SSUData.cpp:384-411 | so is taking the packet that acknowledges a fragment |
| SsuPacket.FragmentIsStep | core/transport/SSUData.cpp:149-264 | and taking the packet of a fragment |
| Ssu.SSUData.ProcessFragment | core/transport/SSUData.cpp:171-261 | the tables after a fragment are those specified, saved fragments tried smallest first |
| Ssu.SSUData.ProcessFragments | core/transport/SSUData.cpp:149-264 | the loop over a packet's fragments takes each as specified and stops at one of 1456 bytes or more |
| Ssu.SSUData.ProcessMessage | core/transport/SSUData.cpp:271-290 | the loops over a data packet do to both tables what the packet read as specified says |
| Ssu.SSUData.MessageComplete | core/transport/SSUData.cpp:225-259 | duplicate suppression, clearing above 1000 entries and session establishment as specified; what establishes a session is said by EstablishedExactly |
| Ssu.SSUData.Send | core/transport/SSUData.cpp:292-365 | the packets are the numbered fragments of the message, one fragment if a small packet size makes the payload size wrap, and nothing is sent while its number is in use |
| Ssu.SSUData.AdjustPacketSize | core/transport/SSUData.cpp:53-76 | the packet size is the largest whole number of cipher blocks the MTU leaves, up to the maximum, which also replaces an MTU too small for the headers |
| Ssu.SSUData.ReadAckBitfield | core/transport/SSUData.cpp:118-144 | the nested loops clear the fragments the specified reader clears |
| Ssu.SSUData.HandleResendTimer | core/transport/SSUData.cpp:422-461 | the sweep ticks every sent message once |
| Ssu.SweepIsTicks | core/transport/SSUData.cpp:427-458 | a sweep is a run of single ticks in whatever order |
| Ssu.SSUData.HandleIncompleteMessagesCleanupTimer | core/transport/SSUData.cpp:487-504 | the sweep drops exactly the messages nothing was saved for lately |
| I2np.I2NPMessage.ToSSU | core/I2NPProtocol.h:178-187 | in place, the short header and payload are those of the message, and nothing else changes |
| I2np.I2NPMessage.FromSSU | core/I2NPProtocol.h:169-177 | in place over overlapping bytes, the long header and payload are those of the message received, and nothing else changes; for fewer than five bytes the size field wraps |
| I2np.I2NPMessage.Assign | core/I2NPProtocol.h:158-165 | the contents are copied, and the nominal size comes along |
| I2np.HeaderRoundTrip | core/I2NPProtocol.h:167-187 | long header to short and back loses only milliseconds and checksum |
| I2np.LongFormRoundTrip | core/I2NPProtocol.h:119-145 | the fields of the long header are read back |
| I2np.IncompleteMessage.AttachNextFragment | core/transport/SSUData.cpp:13-25 | a fragment is appended, in a bigger buffer when needed, for messages that fit the largest buffer |
| NetDbClosest.DistanceInjective | core/Identity.cpp:562-571 | XOR distance to a fixed key tells idents apart |
| NetDbClosest.OrderIsNumeric | core/Identity.h:219-230 | comparing metrics byte by byte is comparing them as numbers |
| NetDbClosest.FurthestIsComplement | core/Identity.h:226-227 | no ident is further than all ones, and only the complement of the key is that far |
| NetDbClosest.GetClosestFloodfill | core/NetworkDatabase.cpp:898-919 | the result is the one nearest reachable floodfill not excluded, none exactly if none lies below the all-ones distance |
| NetDbClosest.GetClosestNonFloodfill | core/NetworkDatabase.cpp:970-991 | the same among routers that are not floodfills |
| NetDbClosest.ClosestUnique | core/NetworkDatabase.cpp:898-919 | that result is unique |
| NetDbClosest.CollectNearest | core/NetworkDatabase.cpp:931-949 | for any floodfills the bounded search ends with at most num reachable ones, nearest first, and with the num nearest if no candidate repeats one in a full list other than its last |
| NetDbClosest.TakeInExact | core/NetworkDatabase.cpp:938-946 | one more candidate leaves the num nearest if and only if it does not repeat one in a full list other than its last |
| NetDbClosest.CollectedNearest | core/NetworkDatabase.cpp:931-949 | so without such a repetition the list is that of the num nearest candidates |
| NetDbClosest.DifferentIsEnough | core/NetworkDatabase.cpp:931-949 | different candidates never repeat in that way |
| NetDbClosest.RepeatLoses | core/NetworkDatabase.cpp:938-946 | of two candidates, seeing the nearer one again drops the other |
| NetDbClosest.GetClosestFloodfills | core/NetworkDatabase.cpp:921-968 | the result is the non-excluded members of what the bounded search keeps, nearest first |
| NetDbClosest.NearestUnique | core/NetworkDatabase.cpp:921-968 | there is only one list of the num nearest |
| NetDbClosest.ExploratoryReply | core/NetworkDatabase.cpp:663-683 | taking the closest three times gives the three nearest candidates, nearest first |
| NetDbClosest.FloodTargets | core/NetworkDatabase.cpp:496-502 | flooding names the nearest floodfill three times |
| NetDbRequests.AtMostSeven | core/NetworkDatabase.cpp:561-598 | over every run a request asks at most seven floodfills and none twice |
| NetDbRequests.CalledExactlyOnce | core/NetDbRequests.h:20-22 | over every run every callback handed over, a rejected duplicate's included, is called exactly once when its request is gone and not before |
| NetDbRequests.StepOk | core/NetDbRequests.cpp:11-146 | creating, contacting, completing, sweeping and destroying keep both properties |
| NetDbRequests.CalledWithFound | core/NetDbRequests.cpp:36-43 | over every run a callback is called with a router if and only if that router was found for the request it was waiting in |
| NetDbRequests.FailsOtherwise | core/NetDbRequests.cpp:45-52 | over every run it is called with nothing if and only if its request is gone and nothing was found for it |
| NetDbRequests.RejectedFails | core/NetDbRequests.cpp:64-76 | the callback of a rejected duplicate is called with nothing |
| NetDbRequests.SevenThenFails | core/NetworkDatabase.cpp:561-607 | over every run a request that nobody answers asks seven floodfills in the order found, by answers or by sweeps more than 5 and less than 60 s after the last, and then fails |
| NetDbRequests.GivesUp | core/NetDbRequests.cpp:100-146 | a request ends at an answer or sweep exactly if nobody is left to ask or 60 s have passed, and then its callback is called with nothing |
| NetDbRequests.ExploratoryOnce | core/NetDbRequests.cpp:109-135 | over every run an exploratory request asks one floodfill and no other |
| NetDb.Lookups.RequestDestination | core/NetworkDatabase.cpp:437-454 | a new request contacts the closest floodfill or fails at once |
| NetDb.Lookups.HandleDatabaseSearchReplyMsg | core/NetworkDatabase.cpp:543-630 | a reply moves its request to the next closest floodfill or completes it, and then requests, in order, every router it names that is unknown or older than an hour; all of it is an allowed run |
| NetDb.Lookups.CreateRequest | core/NetDbRequests.cpp:64-76 | a request that exists already makes the new callback fail at once |
| NetDb.Lookups.RequestComplete | core/NetDbRequests.cpp:78-90 | the callback is called with what was found and the request removed; over whole runs CalledWithFound says with what |
| NetDb.Lookups.ManageRequests | core/NetDbRequests.cpp:100-146 | the sweep is a run over every request once, each kept, moved on or dropped by its age, with the callbacks of those dropped |
| PeerTest.RunStatus | core/transport/SSUSession.cpp:862-954 | over every run of packets, tests and cleanups the router ends OK exactly if it was or Charlie was heard of a live test, else Firewalled exactly if it was or was Testing and Bob was heard |
| PeerTest.StatusMoves | core/transport/SSUSession.cpp:876-907 | one event moves the status to OK or from Testing to Firewalled and in no other way |
| PeerTest.OrderIndependent | core/transport/SSUSession.cpp:862-954 | the same packets in any order and any number of times lead to the same status |
| PeerTest.PacketsDecide | core/transport/SSUSession.cpp:876-907 | that status can be read off the packets and the tests under way at the start |
| PeerTest.GivenUpAfterAMinute | core/transport/SSU.cpp:541-561 | a test of ours that nothing was heard of is given up by exactly a sweep more than 60 s after its start, and then Charlie's packet changes nothing |
| PeerTest.OverEstablished | core/transport/SSUSession.cpp:862-954 | whatever is sent over a session goes over one that is established |
| PeerTestNetwork.EveryOrder | core/transport/SSUSession.cpp:862-1027 | three routers, none of which knows the nonce, for every order in which what they send arrives: it ends after six arrivals, with Alice OK and Bob's table as before, or after four with Alice Firewalled if she cannot be reached; Charlie's entry stays |
| PeerTestNetwork.CharlieForgetsExactly | core/transport/SSUSession.cpp:862-1027 | in the order sent Charlie's entry goes too if and only if the port Alice answers to is zero |
| PeerTest.SSUServer.ProcessPacket | core/transport/SSUSession.cpp:862-954 | table, status and packets sent are as specified for each role; what those packets bring about is said by EveryOrder |
| PeerTest.SSUServer.HandlePeerTestsCleanupTimer | core/transport/SSU.cpp:541-561 | the sweep removes exactly the tests older than 60 s |
| PeerTest.SSUServer.SendPeerTest | core/transport/SSUSession.cpp:1012-1027 | a test of our own is entered as Alice's, and Bob is asked over his session without an address |
| Socks.ChunksDoNotMatter | client/SOCKS.cpp:325-486 | any chunking of the input gives the same final state and the same bytes unread |
| Socks.Socks5 | client/SOCKS.cpp:325-486 | every SOCKS5 request for a name of 1 to 255 bytes yields exactly the encoded host and port and the unread tail, and is accepted exactly as validation says |
| Socks.Socks5SizeZero | client/SOCKS.cpp:20-31 | with a size of zero 256 bytes are taken, the host is empty and the request is refused |
| Socks.Socks4a | client/SOCKS.cpp:325-486 | the same for every SOCKS4a request |
| Socks.Socks5Address | client/SOCKS.cpp:325-486 | every SOCKS5 request for an IPv4 or IPv6 address is read to its end, with its port, and refused |
| Socks.Socks4Address | client/SOCKS.cpp:325-486 | so is every SOCKS4 request for an address that is not 0.0.0.x |
| Socks.WrongStart | client/SOCKS.cpp:325-486 | any other version, and any command the version does not have, is refused at once |
| Socks.WrongRequest | client/SOCKS.cpp:325-486 | so is a wrong request version, reserved byte or address type |
| Socks.Host4aTooLong | client/SOCKS.cpp:325-486 | a SOCKS4a name is refused at its 256th byte |
| Socks.ReadHost | client/SOCKS.cpp:463-470 | exactly the announced number of bytes is taken, each put behind a host whose length is one byte |
| Socks.ReadPort | client/SOCKS.cpp:381-392 | two bytes make the port whatever it held before |
| Socks.SOCKSHandler.HandleData | client/SOCKS.cpp:325-486 | the object reads as the specified automaton does |
| Socks.SOCKSHandler.HandleByte | client/SOCKS.cpp:330-475 | one byte changes the fields as specified for each state |
| Socks.SOCKSHandler.EnterState | client/SOCKS.cpp:276-289 | entering a state resets its counter and address |
| RouterInfo.InfoRoundTrip | core/RouterInfo.cpp:113-238 | reading undoes writing: timestamp, addresses with up to ten introducers and properties come back, and exactly the bytes written are used |
| RouterInfo.CapsRoundTrip | core/RouterInfo.cpp:240-291 | a router with an SSU address and a current caps property gets its capabilities back, a floodfill always with high bandwidth |
| RouterInfo.SimpleRouterRoundTrip | core/RouterInfo.cpp:301-397 | every router with one SSU address and a current caps property meets the conditions of the round trips and comes back from its bytes |
| RouterInfo.HexTextsFaithful | core/RouterInfo.cpp:301-397 | texts for hosts and keys without a zero byte that are read back, as the round trips assume, exist: hexadecimal digits |
| RouterInfo.AddressRoundTrip | core/RouterInfo.cpp:301-397 | one address comes back with its style, host, port, MTU, key and introducers |
| RouterInfo.IntroducersRead | core/RouterInfo.cpp:182-203 | four passes over the introducers rebuild them |
| RouterInfo.IntroducerNumberExact | core/RouterInfo.cpp:186-190 | an introducer's number is read back if and only if it is below ten |
| RouterInfo.CapsRecovered | core/RouterInfo.cpp:276-291 | the two caps texts together tell all capabilities |
| RouterInfo.LettersMean | core/RouterInfo.cpp:240-274 | in any text, the letters of other routers included, exactly f, M to O, H, R, U, B and C stand for capabilities |
| RouterInfo.ReadableExactly | core/RouterInfo.cpp:140-204 | an address is read to its end if and only if every number in it is one |
| RouterInfo.KeptExactly | core/RouterInfo.cpp:147-168 | it is kept if and only if it is for NTCP or every host in it can be read |
| RouterInfo.AnyIntroducerNumber | core/RouterInfo.cpp:182-190 | any last character of an introducer's key counts as its number, one byte wide |
| RouterInfo.ExtractCaps | core/RouterInfo.cpp:240-274 | the loop adds exactly the capabilities its letters stand for |
| RouterInfoSpec.MappingRoundTrip | core/RouterInfo.cpp:403-414 | a mapping is read back entry by entry and used up to its declared size |
| RouterInfoSpec.GetEntries | core/RouterInfo.cpp:140-204 | the reading loop yields the specified entries |
| RouterInfoSpec.StringRoundTrip | core/RouterInfo.cpp:459-473 | a string of up to 255 bytes is read back |
| RouterInfoSpec.NumberRoundTrip | core/RouterInfo.cpp:391-391 | a decimal number is read back |

## Left out

- Streaming: leases, routing paths, send handlers, signatures and gzip; timers are nondeterministic ticks; round-trip times are unbounded integers; fewer than 2^31 packets per stream.
- StreamingReliability.RunReliable: for runs in which numbered packets are built only once the peer's SYN is recorded, at most 255 numbers are missing, and packets of a stream that is not the peer are harmless and justified, because the code breaks the property otherwise, as StreamingLimits and StreamingSecond show; StreamingGuard gives a condition to check before each event.
- StreamingProgress.CanFinish: not while a side's own SYN is outstanding, since the peer takes a repeated SYN that carries data as next in sequence.
- ElGamal.RoundTrip: for secrets below the prime; a key file may hold a larger number, for which the exponent p - x - 1 is negative.
- Ntcp: the handshake, write errors after which queued messages may be overtaken, and the termination timer.
- GarlicProtocol: 32-byte tags and keys are numbers, random draws do not repeat, and time does not wrap at 2^32 seconds; one-time sessions appear only as tags submitted to the table.
- GarlicCodec.HandleGarlicPayload: a clove that runs past the end of the whole buffer ends the walk, where the source reads whatever stands there; whether a tunnel is at hand for a clove is not modelled.
- SsuPacket: a packet that ends within its acknowledgements or extended data does nothing, where the source reads whatever stands behind it.
- SsuProtocol: message numbers of different messages differ, messages fit the largest buffer, and a message shorter than its header is read as if followed by zeros; fragments are taken one packet at a time.
- Ssu.SSUData.ProcessFragment: incomplete messages are values in a map; their buffers, which the source updates in place, are modelled by I2np.IncompleteMessage, and SsuProtocol.NeverOverruns gives its size bound over every run.
- Ssu.SSUData.Send: with a packet size of 32 or less, only messages that fit the fragment buffer whole; longer ones do not fit the buffer the source builds the fragment in.
- NetDbClosest.CollectNearest: for num > 0 unless no floodfill is reachable, outside of which the source reads the last element of an empty set.
- NetDbRequests: callbacks that start or end requests themselves while being called.
- PeerTestNetwork: three routers with one session between Alice and Bob and one between Bob and Charlie; packets lost or repeated are not part of it.
- PeerTest: setting the status back to Testing when a new detection starts, IPv6 endpoints and encryption of the packets.
- Socks: replies, IPv6 contents, and that with a host size of zero the last of the 256 bytes is written one past the source's host buffer; the wrapping of its length is modelled.
- RouterInfo: supported transports, the unreachable mark, host names in place of addresses, the signature and the file; host and key texts are abstract with the law that they are read back, none holding a zero byte, which RouterInfo.HexTextsFaithful shows can be met.
- Tunnels, transports selection, LeaseSets, the tunnel gateway message builders, reseeding, client applications and everything that is sockets, threads, logging or files.
