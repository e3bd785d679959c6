# A Dafny model of the consensus protocol

The repository runs referendums between one server and any number of clients: a client proposes a question, the
server asks every eligible client, the clients answer, and the server announces a result. All of it travels over a
selective-repeat ARQ on top of UDP. This project models the protocol stack from the bits of a frame up to the
agreement of all nodes, and proves what the stack guarantees. Where a promise fails, it states exactly when it holds.

## How the model is built

| file | what it models |
|---|---|
| `Bytes`, `Crc32`, `Packet`, `Frame` | widths and byte order, CRC-32 (section 8 of RFC 1952), headers, the sealed frame |
| `Pip`, `Messages` | the bodies inside packets and which handler each one reaches |
| `WireFormat` | a second account of frames and bodies, byte by byte and number by number |
| `SlidingWindow` | the sender's and the receiver's half of a conversation, as classes that update their fields |
| `Arq`, `ArqTheorems`, `ArqRepeats`, `ArqOrder` | two such endpoints and a network that loses, duplicates and reorders: all runs, what they deliver, how often and in which order |
| `FrameLink` | the same endpoints over a network of frames, some of them damaged: they reach the same states as over packets |
| `Addressing` | whose ID a packet carries and which conversation it reaches |
| `Referendum`, `EarlyCall`, `Tolerance` | the referendum manager, as classes; the arithmetic of calling a vote early; how many wrong answers a result survives |
| `Consensus`, `Agreement`, `ConsensusTheorems`, `Disagreement` | server and clients over at-least-once, unordered channels: all runs |
| `Histories`, `Progress` | what a node's state says about the messages it has handled; how every referendum can still be brought to its end |
| `Deployment` | the same handlers on top of the ARQ links, and the refinement that carries states and runs up to the protocol |
| `Delivery`, `Realization`, `Exhaustion` | the converse: what the protocol can do, the deployed system can do from every state it can be in, exactly as long as packet numbers last |
| `EndToEnd`, `Processed`, `Completion` | the guarantees and their limits, stated of the deployed system |
| `Locks` | what every handler does to shared state and under which locks, for any number of goroutines |
| `Listener`, `ConversationIds` | verification and dispatch of incoming frames; how nodes come by their IDs, in all runs |
| `Runs`, `Wrappers` | reachability and induction over runs; option and result types |

A class method is proved against a function on values (`MoveWindow` against `Slide`, `HandleResponse` against
`Respond`, `Dispatch` against `Handle`, and so on). The state machines are built from those same functions, so what is
proved of all runs is about what the methods do. Each critical section is one atomic step. The network of a link is
the set of packets ever put on it, and any of them may arrive any number of times or never. A DATA handler sends its
ACK before it takes the receiver's lock (udp/conversation.go:125-143), so a link also holds the handlers that are in
between, in `pending`.

The packets on a link carry no checksum. `SameLinks` is why they need none: over a network of frames, in which any
frame may also arrive damaged, endpoints reach exactly the states they reach over packets. The damage in question lies within 32
consecutive bits behind byte 7, or anywhere in bytes 0 to 7 alone (`BurstRejected`, `FourByteDamageRejected`,
`PrefixDamageRejected`). Damage on both sides of that boundary, or spread over more than 32 bits, is not covered: a
CRC detects it only with high probability, and the model takes it as lost. `KnownAnswer` ties the checksum to a
published value of CRC-32.

Handlers may be taken as atomic steps because of `BodiesExclude`: all that a handler does to the referendums and to the
queues lies in one critical section, and no two such sections of the same kind are ever entered at once.

## Where the code and its description differ

The model follows the code.

- README.md:9 promises that an early call cannot be reversed by the votes still missing. The test in the code is
  weaker (udp/vote_manager.go:281). `ReversibleCall` is a stream of answers after which 4 to 2 with 3 votes missing
  closes the vote although the missing votes could have reversed it. `IrreversibleExactly` gives the exact condition
  on the votes, and `AnnouncedDecidedExactly` what it comes to for the code's closing answer.
- When more than one option passes the test, the option iterated last is announced (udp/vote_manager.go:280-285). With
  3 voters and 2 to 1, the minority may be announced (`MinorityAnnounced`). `PluralityExactly` says exactly when every
  possible announcement is a plurality.
- A node may defect and turn its answer around (udp/vote_manager.go:198-205). `ToleranceExactly` shows how many wrong
  answers the early call survives: fewer than a third of the participants, although a majority would seem enough.
- A request with a known VoteID replaces the referendum, because the duplicate branch does not return
  (udp/vote_manager.go:124-131), and the ARQ may hand the same request over twice (`ProcessedTwice`).
  `AtMostOnceExactly` says when it does not: exactly when no step of the run buffers a packet number again that has
  already been processed. `TwoSetUpsDisagree` is a run of three clients, all of them eligible throughout, in which one
  request, handled twice, leaves two of them with different final results. `AgreementExactly` shows that one set-up is
  the limit, over the lossy links as well. The two limits meet in `SetUpsExactly`, which counts the set-ups, and
  `AgreementWithoutRepeats`: one request, and no packet processed twice by the server, is enough for agreement.
- Not every participant gets to the result. Processing is unordered, and a result that is processed before its
  question is dropped although it has been acknowledged (udp/vote_manager.go:307-313). `CompleteExactly`: a client is
  complete if and only if it has processed a result after a question. `ResultBeforeQuestion` is a run with one set-up
  in which a participant stays behind with an answer of its own that contradicts the result, while both packets are
  acknowledged. `TooEarlyForGood` shows that nothing but a repeated packet or another set-up can help it then, and
  `CanBeCompleted` that repetition can: from every reachable state with room for one more packet on each queue, every referendum with
  participants can still be closed and taken over by all of them.
- Packets are processed in arbitrary order (udp/conversation.go:720-724). `OrderExactly` shows that order is
  guaranteed for one packet and no more, and `StepInOrderExactly` which step breaks it.
- Packet numbers are reused after 2^32 packets. `DeliveryExactly` shows that the guarantee of delivery ends exactly
  there. From window start 2^32 - 5 on the window is empty and never moves again (`StuckForever`).
- The map of conversations has a lock, but the user's commands and the cleaner range over it without taking it
  (udp/Brainloop.go:83, udp/global.go:151). `RacesExactly` shows that this map is the only state under a lock on which
  two goroutines can race, and `RacesAreUnlocked` that one of these two is always involved. The participants of a
  hosted referendum are read without the referendum's own lock when its question is queued (udp/vote_manager.go:135),
  which is safe only because the lock on the map of hosted referendums is held.
- No NAK is ever sent: `lastPcktReceived` is set to the packet's number just before the gap test
  (udp/conversation.go:144, 153). `BoundedSending` uses this.

## Model

| member | source | states |
|---|---|---|
| Bytes.GetPutU32 | udp/packet.go:62 | reading a big-endian 32-bit field gives back what was written, whatever follows it |
| Bytes.PutGetU32 | udp/packet.go:92 | writing what was read gives back the four bytes |
| Crc32.FeedBits | udp/packet.go:143 | taking bytes into the register one by one is taking in their bits one by one |
| Crc32.BurstDetected | udp/packet.go:143 | two strings of the same length, at least 4 bytes, that differ only within 32 consecutive bits, at any bit offset, and have the same checksum are equal |
| Crc32.FourBytesAreABurst | udp/packet.go:143 | a change within four consecutive bytes is such a burst |
| Crc32.PutWordInjective | udp/packet.go:145-153 | different checksums have different big-endian bytes |
| Crc32.PutWordBigEndian | udp/packet.go:145-153 | the four checksum bytes, read as a big-endian number, are the checksum as a number |
| Crc32.KnownBytes | udp/packet.go:145-153 | the checksum of "a" (`KnownAnswer`) goes out as E8 B7 BE 43 |
| Packet.SerializeHeader | udp/packet.go:59-85 | the field-by-field writer builds the 24 bytes of the header |
| Packet.DeserializeHeader | udp/packet.go:88-115 | the field-by-field reader succeeds exactly on at least 24 bytes and gives the header at their front |
| Packet.ParsePrintHeader | udp/packet.go:59-115 | reading a written header gives it back |
| Packet.PrintParseHeader | udp/packet.go:59-115 | writing a header that was read gives back its 24 bytes |
| Packet.PacketBijection | udp/packet.go:38-56 | a byte string deserializes to a packet if and only if it is that packet's serialization |
| Packet.ByteSliceEqual | udp/packet.go:118-133 | the loop answers true if and only if the slices are equal |
| Frame.SealInPlace | udp/global.go:100-120 | copying the checksum into bytes 4 to 7 of the array gives the sealed frame |
| Frame.SendUDP | udp/global.go:122-144 | nothing is written when the packet is lost; otherwise one frame more than the number of duplicates, cut short by the first failing write; an error is returned only then |
| Frame.SealedVerifies | udp/packet.go:136-179 | a sealed frame always passes the checksum test, and sealing leaves the outcome of the magic test alone |
| Frame.FrameRoundTrip | udp/packet.go:182-202 | a sent frame verifies if and only if its magic is right, and parses to the packet that was sent except for the checksum field |
| Frame.ChecksumField | udp/global.go:112-120 | the checksum field that the receiver parses is the CRC of everything behind it, as a number |
| Frame.BurstRejected | udp/packet.go:182-202 | any damage behind the checksum field that lies within 32 consecutive bits makes verification answer false |
| Frame.FourByteDamageRejected | udp/packet.go:182-202 | any change within four consecutive bytes from index 8 on is rejected, for every frame length |
| Frame.PrefixDamageRejected | udp/packet.go:182-202 | any damage to the magic or the checksum field alone is rejected |
| FrameLink.DoRefines | udp/listener.go:34-57 | the arrival of any frame, intact or damaged in one of these ways, is the arrival of a packet that was sent, or nothing |
| FrameLink.FramesRefinePackets | udp/listener.go:34-57 | every state that endpoints reach over a network that loses, duplicates, reorders and damages frames is one they reach over a network of packets |
| FrameLink.SameLinks | udp/listener.go:34-57 | and the other way round: both networks lead endpoints to exactly the same states |
| Pip.HelloReadBack | udp/pip.go:60-112 | whatever follows, a written hello is read back with its feature list cut to the 16-bit count |
| Pip.SerializeHello | udp/pip.go:88-112 | the appended bytes, with anything behind them, are read back as the hello, its list cut to the 16-bit count; there are 8 bytes and 2 for each feature |
| Pip.DeserializeHello | udp/pip.go:60-85 | a hello is returned if and only if its count is right and the input starts with its serialization; an error if and only if the input is shorter than its own count says |
| Pip.HelloParses | udp/pip.go:60-112 | input parses to a hello if and only if it starts with that hello's serialization and its count is right |
| Pip.HelloSelfDelimiting | udp/pip.go:60-112 | with any trailing bytes, a serialized hello parses to itself if and only if its feature count is its list's length |
| Pip.HelloCutShort | udp/pip.go:60-85 | every strict prefix of a serialization is rejected |
| Pip.HelloPrefixFree | udp/pip.go:88-112 | no serialization is a strict prefix of another |
| Pip.VoteRequestReadBack | udp/pip.go:115-175 | whatever follows, a written request is read back with its question cut to the 32-bit length |
| Pip.SerializeVoteRequest | udp/pip.go:150-175 | the appended bytes, with anything behind them, are read back as the request, its question cut to the 32-bit length; there are 22 bytes and the question |
| Pip.DeserializeVoteRequest | udp/pip.go:115-147 | a request is returned if and only if its length is right and the input starts with its serialization; an error if and only if the input is shorter than its own length says |
| Pip.VoteRequestParses | udp/pip.go:115-175 | input parses to a request if and only if it starts with that request's serialization and its length is right |
| Pip.VoteRequestSelfDelimiting | udp/pip.go:115-175 | with any trailing bytes, a serialized request parses to itself if and only if its stated length is the question's |
| Pip.VoteRequestCutShort | udp/pip.go:115-147 | every strict prefix of a serialization is rejected |
| Pip.VoteRequestPrefixFree | udp/pip.go:150-175 | no serialization is a strict prefix of another |
| Pip.SerializeVoteResponse | udp/pip.go:202-219 | the 20 appended bytes, with anything behind them, are read back as the response |
| Pip.DeserializeVoteResponse | udp/pip.go:178-199 | a response is returned if and only if the input starts with its serialization; an error if and only if the input is under 20 bytes |
| Pip.VoteResponseParses | udp/pip.go:178-219 | input parses to a response if and only if it starts with that response's serialization |
| Messages.DecodeEncode | udp/conversation.go:737-859 | each of the six bodies, if it is queued at all, reaches its own handler with the values it was built from |
| Messages.WhatFits | udp/conversation.go:281-291 | votes and results always fit into a packet; a question fits exactly up to 228 bytes, and then its broadcast fits too |
| Messages.EncodeBody | udp/conversation.go:248-262 | the body each enqueue function serializes decodes to the message it was built from, if it fits |
| Messages.DecodeBody | udp/conversation.go:737-859 | the switch on the data ID gives back the message of every body that an enqueue function built |
| WireFormat.FrameLayout | udp/packet.go:59-85 | magic, checksum, conversation, packet number, sequence number, final flag and type stand in this order at bytes 0, 4, 8, 12, 16, 20 and 22 of a frame, most significant byte first, and the body behind them |
| WireFormat.VerifiesExactly | udp/packet.go:136-202 | a frame verifies if and only if it starts with 1, 5, 17, 23 and bytes 4 to 7 are the number of the checksum of the rest |
| WireFormat.DecodeExactly | udp/conversation.go:737-859 | the processor gets a message out of a body if and only if the body says so: type 0 to 5 in the first two bytes, then the message's own fields, each at its place |
| WireFormat.EncodeSays | udp/conversation.go:248-291 | a message is queued if and only if its body has at most 250 bytes; then the body says exactly that message, with version 0 in a hello |
| SlidingWindow.SlideMeaning | udp/conversation.go:653-679 | the new window start is the one and only number that ends the acknowledged run at the window's front |
| SlidingWindow.SenderWindow.Enqueue | udp/conversation.go:262-291 | the body is dropped when it is over 250 bytes, otherwise stored under the next packet number in a DATA packet with the node's own ID, and the number then advances on uint32; no other entry changes and the numbering stays without holes |
| SlidingWindow.SenderWindow.MoveWindow | udp/conversation.go:653-679 | the loop moves the start to the end of the longest acknowledged run within the window, never past an unacknowledged packet, and changes nothing else |
| SlidingWindow.SenderWindow.SendPacket | udp/conversation.go:606-621 | the packet goes out, and its AckReceived flag is cleared unless the write failed |
| SlidingWindow.SenderWindow.SendWindowPackets | udp/conversation.go:624-650 | the window slides, exactly its unacknowledged packets go out, once each and in order, and no flag changes |
| SlidingWindow.SenderWindow.SendUnacked | udp/conversation.go:629-647 | stopping at the first number that is not in use misses no packet of the window |
| SlidingWindow.SenderWindow.CheckForRetransmissions | udp/conversation.go:683-709 | exactly the due unacknowledged packets of the window go out, once each and in order, and the state stays as it was |
| SlidingWindow.SenderWindow.HandleAck | udp/conversation.go:173-186 | an ACK marks its packet, if there is one, and nothing else |
| SlidingWindow.SenderWindow.HandleNak | udp/conversation.go:195-216 | a NAK sends its packet again only if it is known and unacknowledged, and leaves the state as it was |
| SlidingWindow.ReceivingWindow.BufferData | udp/conversation.go:127-164 | a fragment is dropped, a packet whose number is still buffered is dropped, any other is buffered; no NAK is produced |
| SlidingWindow.ReceivingWindow.CheckGap | udp/conversation.go:152-164 | on its own the gap test sends one NAK for each number strictly between the last one received and this one |
| SlidingWindow.ReceivingWindow.TakeIncoming | udp/conversation.go:711-744 | some buffered packet is taken, decoded, and deleted whether or not it decodes |
| SlidingWindow.Conversation.ArqReceive | udp/conversation.go:108-245 | for every packet type, the new state of both windows and what goes back on the wire: a SYN gets a SYN_ACK, DATA and unknown types an ACK with their numbers, a NAK at most its packet, all under the node's own ID |
| SlidingWindow.Conversation.Send | udp/conversation.go:248-531 | every enqueue function stores its serialized body in the same way |
| Arq.StepInv | udp/conversation.go:108-245 | every atomic step of either side keeps the invariant of the link in both directions |
| Arq.ReachableInv | udp/conversation.go:89-98 | the invariant holds in every state of every run |
| Arq.ReachableNumbering | udp/conversation.go:286-290 | in every run the outgoing packets are numbered without holes and entry i carries packet number i, which is what the sender's methods require |
| ArqTheorems.ReachableFlip | udp/conversation.go:108-245 | links have no preferred side, so each row below that speaks of one direction holds of both |
| ArqTheorems.NothingInvented | udp/conversation.go:122-150 | whatever has been accepted or processed was queued by the other side under that number |
| ArqTheorems.WindowPassesOnlyDelivered | udp/conversation.go:653-679 | every packet the window has passed has been taken in with exactly the body queued at that position, and accepted once no handler is still running |
| ArqTheorems.DeliveryExactly | udp/conversation.go:653-679 | that holds in all runs of up to n packets if and only if n <= 2^32 |
| ArqTheorems.NumberReuse | udp/conversation.go:290 | for any two different messages that fit, a run of 2^32 + 1 packets, the first and the last of them these two, in which the window passes the first body although it was never delivered |
| ArqTheorems.BoundedSending | udp/conversation.go:141-164 | no NAK and no fragment is ever on the wire, and no DATA number at or past the window's end ever is |
| ArqTheorems.AckStability | udp/conversation.go:612-618 | in every run a step leaves an acknowledged packet acknowledged if and only if it does not hand out its number again, which takes 2^32 packets |
| ArqTheorems.WindowBounds | udp/conversation.go:629-656 | up to start 2^32 - 6 the window's end is its start plus 5; above, the window is empty and does not slide |
| ArqTheorems.StuckForever | udp/conversation.go:656 | once past 2^32 - 6 the window start never changes again in any run |
| ArqTheorems.SlideAtMostWindow | udp/conversation.go:653-679 | one slide advances by at most the window size |
| ArqTheorems.SlideOverAckedWindow | udp/conversation.go:653-679 | with the window acknowledged, one slide advances by exactly min(5, outstanding) |
| ArqTheorems.RoundAdvances | udp/conversation.go:624-679 | every run in which all window packets and their ACKs get through, and then one slide, advances the window by exactly min(5, outstanding) |
| ArqTheorems.RoundExists | udp/conversation.go:683-709 | such a run exists from every reachable state whose window has not reached the end of the number space |
| ArqTheorems.OutstandingClears | udp/conversation.go:624-679 | from every reachable state with at most 2^32 - 5 packets, n such rounds are possible, and however they go they clear everything outstanding if and only if 5n is at least that many |
| ArqRepeats.StepRepeatsExactly | udp/conversation.go:141-150 | a step keeps processing at most once if and only if it does not buffer a number that has already been processed, which the duplicate test lets through once the first copy is deleted |
| ArqRepeats.AtMostOnceExactly | udp/conversation.go:141-150 | in every run nothing has been, or waits to be, processed twice if and only if no step of it buffered a processed number again |
| ArqRepeats.ProcessedOnceMeans | udp/conversation.go:711-735 | without repetition, and up to 2^32 packets, the processed packets are pairwise different queued ones |
| ArqRepeats.RepeatFollows | udp/conversation.go:720-735 | once a processed number waits again, it can be processed again in the next step |
| ArqRepeats.ProcessedTwice | udp/conversation.go:142-150 | for any message that fits, a run that queues it once and processes it twice |
| ArqOrder.StepInOrderExactly | udp/conversation.go:720-735 | a step keeps processing in order if and only if it does not pick a number below one that has been processed |
| ArqOrder.ProcessedInReverse | udp/conversation.go:720-735 | any two messages that fit can be queued in one order and processed in the other |
| ArqOrder.OrderExactly | udp/conversation.go:720-735 | processing in order is guaranteed in all runs of up to n packets if and only if n <= 1 |
| ArqTheorems.LinkRefinesChannel | udp/conversation.go:711-735 | every step of a link is a step of an at-least-once, unordered channel, in both directions |
| Addressing.SentHeaders | udp/conversation.go:265-279 | in every run each packet on the wire, of whatever type, carries the magic number and its sender's own ID, is final, and is DATA, ACK, SYN or SYN_ACK |
| Addressing.SentBytes | udp/conversation.go:265-279 | its frame starts with 1, 5, 17, 23 and has the sender's ID in bytes 8 to 11 |
| Addressing.SentFrameArrives | udp/listener.go:95-108 | the frame of whatever a node puts on the wire reaches the conversation with that node's ID, which is created if need be |
| Addressing.ReactionIsListening | udp/listener.go:34-108 | the endpoint behind a network of frames acts on exactly those bytes that the listener hands to a conversation, and on the packet they parse to |
| Addressing.PacketsFindTheirWay | udp/listener.go:95-108 | in every run of the deployed system client c's packets reach the server's conversation c, and the server's reach the client's conversation with the server |
| Addressing.SynIsAnswered | udp/conversation.go:219-226 | from every reachable state a SYN can be sent and answered with a SYN_ACK, without any other effect |
| Referendum.ComputeQuestion | udp/vote_manager.go:172-211 | once the expression library has answered: an error is answered with 2, a truth value with 1 or 0, the other way round by a node that defects |
| Referendum.Broadcast | udp/vote_manager.go:135-137 | the loop over participants queues the message for each of them once |
| Referendum.HostReferendum.CopyConversationsMap | udp/vote_manager.go:40-60 | a conversation is added to the participants if and only if it is online and the evaluation feature is among its features |
| Referendum.HostReferendum.BroadcastResult | udp/vote_manager.go:274-301 | if some option has more votes than are missing, one such option is announced to every participant and the vote closes; otherwise nothing changes |
| Referendum.HostReferendum.HandleResponse | udp/vote_manager.go:225-271 | only a participant's first answer to an open referendum counts; a closing answer announces an option that passes the test |
| Referendum.ReferendumManager.CreateReferendumFromClientRequest | udp/vote_manager.go:118-138 | a fresh referendum replaces any with the same ID, and exactly the conversations that are online and offer the feature are asked |
| Referendum.ReferendumManager.HandleNewQuestionFromServer | udp/vote_manager.go:141-170 | a known VoteID is ignored; a new one is stored with the computed answer, which is sent to the asker |
| Referendum.ReferendumManager.HandleResponseFromClient | udp/vote_manager.go:213-272 | the answer goes to its referendum, if there is one, and no other referendum changes |
| Referendum.ReferendumManager.HandleResultFromServer | udp/vote_manager.go:303-337 | the first result for a known referendum overwrites the answer and completes it; later ones change nothing |
| Referendum.ReferendumManager.Dispatch | udp/conversation.go:746-859 | the handler run for each message takes the node from one abstract state to the next and queues exactly the messages of the abstract step; a hello is answered to its sender, a hello back is not |
| EarlyCall.RespondKeeps | udp/vote_manager.go:229-301 | every answer keeps: voters are participants, the votes sum to the number of voters, no option of an open vote exceeds what is missing, a closed vote's result passes the test |
| EarlyCall.AnswersKeep | udp/vote_manager.go:229-301 | the same through any stream of repeated, late or outsiders' answers; no vote is withdrawn and a closed referendum never changes |
| EarlyCall.FirstAnswersCount | udp/vote_manager.go:245-267 | while it is open, each option's count is the number of participants whose first answer in the stream is that option |
| EarlyCall.EveryoneAnswered | udp/vote_manager.go:274-301 | a referendum with participants is closed once each of them has answered, whatever else arrived |
| EarlyCall.OpenBound | udp/vote_manager.go:276-285 | while it is open, (k + 1) times the voters is at most k times the participants, for k different answers |
| EarlyCall.ClosingShare | udp/vote_manager.go:276-285 | at closing more than half have voted, and the announced option has at least 1/(k + 1) of the participants |
| EarlyCall.ClosingPlurality | udp/vote_manager.go:276-285 | at closing no option is more than one vote ahead of the announced one, and only the option just voted for can be ahead |
| EarlyCall.PluralityExactly | udp/vote_manager.go:279-285 | every option that may be announced is a plurality if and only if the closing answer does not push its option past a tie at exactly the number missing |
| EarlyCall.LastVoteCloses | udp/vote_manager.go:274-301 | the last participant's first answer always closes |
| EarlyCall.IrreversibleExactly | README.md:9 | an option stays strictly ahead under all ways to cast the missing votes if and only if it leads every other option by more than what is missing |
| EarlyCall.DecidedStays | README.md:9 | an option decided in that sense stays decided through every continuation |
| EarlyCall.ClosesNoLater | udp/vote_manager.go:276-285 | the answer that decides an option closes the referendum, and no open referendum has a decided option |
| EarlyCall.CallableDecided | udp/vote_manager.go:276-285 | an option that passes the code's test is decided if and only if it leads every other option voted for by more than what is missing, hence when it is the only one |
| EarlyCall.AnnouncedDecidedExactly | udp/vote_manager.go:276-285 | what a closing answer announces is out of reach of the missing votes if and only if it is the only option voted for, or it is the option just voted for, that answer took it from equal to what was missing to one above, and every other option has one vote |
| EarlyCall.ReversibleCall | udp/vote_manager.go:281-283 | nine voters, six answers: the vote closes for an option that the three missing votes could still overturn |
| EarlyCall.MinorityAnnounced | udp/vote_manager.go:280-285 | three voters, three answers: the option with one vote of three may be announced |
| Tolerance.RightResult | udp/vote_manager.go:229-301 | a closed referendum's result is any option that fewer than a third of its participants were counted against |
| Tolerance.ToleranceExactly | udp/vote_manager.go:229-301 | whatever the order, the repetitions and the outsiders, a referendum with participants that closes announces r as long as at most d of them answer otherwise, if and only if 3d is less than their number |
| Agreement.StepInv | udp/vote_manager.go:118-337 | every handler, on any message queued before, keeps the invariant of server, clients and channels |
| Agreement.ReachableInv | udp/vote_manager.go:118-337 | that invariant holds in every state of every run |
| ConsensusTheorems.TallyFidelity | udp/vote_manager.go:213-267 | in every run, with any repetition and any restart, each count is the number of counted clients whose own computed answer it is |
| ConsensusTheorems.ParticipantsExactly | udp/vote_manager.go:40-60 | in every run the participants of a hosted referendum are exactly the conversations that were online and offered the evaluation feature when its VoteID was last set up |
| ConsensusTheorems.VotesAnswerTheQuestion | udp/vote_manager.go:141-170 | if a VoteID is not shared by different questions, every counted vote answers the question the host holds |
| ConsensusTheorems.BallotsAreFinal | udp/vote_manager.go:145-168 | in no run does what a client once computed for a VoteID change, so it never votes differently later |
| ConsensusTheorems.RightResult | udp/vote_manager.go:213-301 | in every run a closed referendum's result is r if fewer than a third of its participants were counted as having computed something else |
| ConsensusTheorems.ResultIsTheHosts | udp/vote_manager.go:319-333 | for a VoteID set up once, a complete client holds the result of the closed host referendum, and some counted voter cast it |
| ConsensusTheorems.ClientsAgree | udp/vote_manager.go:319-333 | for a VoteID set up once, all complete clients hold the same result |
| ConsensusTheorems.OneResultEach | udp/vote_manager.go:291-299 | over a whole run with one set-up each participant is queued exactly one result once it is closed, and nobody else any |
| ConsensusTheorems.ResultsBounded | udp/vote_manager.go:291-299 | in every run a client is queued at most one result per set-up |
| ConsensusTheorems.HostFinal | udp/vote_manager.go:229-235 | whatever arrives late, a closed host stays as it is for the rest of every run up to the next set-up of its VoteID |
| ConsensusTheorems.ClientFinal | udp/vote_manager.go:319-333 | a complete client keeps its result for the rest of every run, however often the VoteID is set up again |
| ConsensusTheorems.CountedVoterCompletes | udp/vote_manager.go:307-333 | a counted voter knows the referendum, so a result completes it instead of being dropped |
| ConsensusTheorems.ClosedByTheLastVote | udp/vote_manager.go:274-301 | in every run, a referendum all of whose participants have been counted is closed |
| Histories.CompleteExactly | udp/vote_manager.go:303-337 | in every run a client is complete for a VoteID if and only if it has handled a result for it after a question for it |
| Histories.SetUpsExactly | udp/vote_manager.go:118-138 | in every run a VoteID has been set up exactly as often as the server has handled a request for it |
| Progress.ReachableSupplied | udp/vote_manager.go:118-301 | in every run nothing that is still needed is missing: each participant's question, each computed answer and each closed host's result have been queued |
| Progress.CanBeCompleted | udp/vote_manager.go:118-337 | from every reachable state, each referendum with participants can be closed without another set-up and brought to all of them, with at most one more message each way per client |
| Progress.ClientHello | udp/conversation.go:747-765 | from every reachable state a client can send its hello and the server answer it to that client, without any other effect |
| Progress.ServerHello | udp/conversation.go:747-765 | the same with server and client exchanged |
| Disagreement.TwoSetUpsDisagree | udp/vote_manager.go:124-131 | for any question that fits, a run of three clients, all asked both times, in which one request, handled twice, leaves two complete clients with different results; nothing else but one vote of each client was queued to the server |
| Disagreement.AgreementExactly | udp/vote_manager.go:124-131 | agreement holds in all runs that set a VoteID up at most n times if and only if n <= 1 |
| Deployment.Simulate | udp/conversation.go:711-859 | every step of nodes on ARQ links is a step, or none, of the protocol over abstract channels |
| Deployment.DeploymentRefinesConsensus | udp/conversation.go:711-859 | every reachable state of the deployed system is, from above, a reachable state of the protocol |
| Deployment.DeployedRun | udp/conversation.go:711-859 | every run of the deployed system is, from above, a run of the protocol |
| Delivery.OntoWire | udp/conversation.go:624-709 | from every link state each queued packet, up to 2^32 - 5 of them, can be brought onto the wire by sending, acknowledging and sliding alone |
| Delivery.Deliver | udp/conversation.go:122-150 | and from there into the receive buffer, first time or again; into an empty one with its ACK delivered and no handler left over |
| Realization.RealizeRun | udp/conversation.go:711-859 | from every reachable state of the deployed system, whatever is lost, buffered or still running, every run of the protocol with at most 2^32 - 5 messages each way per client can be followed |
| Realization.SameRuns | udp/conversation.go:711-859 | so from every such state both have the same runs of that size, seen from above |
| Realization.DeploymentRealizesConsensus | udp/conversation.go:711-859 | every state the protocol reaches with at most that many messages is, from above, a state the deployed system reaches with both receive buffers of every link empty |
| Realization.SameStates | udp/conversation.go:711-859 | so both reach exactly the same states of that size |
| Exhaustion.RunsExactly | udp/conversation.go:653-679 | all runs of the protocol with at most k messages each way per client can be followed over the links from every state if and only if k <= 2^32 - 5 |
| EndToEnd.FaithfulTally | udp/vote_manager.go:213-267 | the faithful tally, over links that lose, duplicate and reorder |
| EndToEnd.ParticipantsExactly | udp/vote_manager.go:40-60 | who takes part, over such links |
| EndToEnd.VotesAnswerTheQuestion | udp/vote_manager.go:141-170 | over such links too, if a VoteID is not shared by different questions, every counted vote answers the question the host holds |
| EndToEnd.RightResult | udp/vote_manager.go:213-301 | the same over such links, and after one set-up it is what every complete client holds |
| EndToEnd.ClosedOnceAllVoted | udp/vote_manager.go:274-301 | over such links, a referendum all of whose participants have been counted is closed |
| EndToEnd.ClientsAgree | udp/vote_manager.go:319-333 | for a VoteID set up once, all complete clients hold the closed host's result, which a counted voter cast, over such links |
| EndToEnd.OneResultEach | udp/vote_manager.go:291-299 | over such links with one set-up, each participant of the closed referendum is queued exactly one result, and nobody else any |
| EndToEnd.ResultsBounded | udp/vote_manager.go:291-299 | over such links a client is queued at most one result per set-up |
| EndToEnd.CountedVoterCompletes | udp/conversation.go:836-850 | a counted voter that processes the packet with the result is complete afterwards, with that result unless it was complete before |
| EndToEnd.HostFinal | udp/vote_manager.go:229-235 | in every run over such links a closed host stays as it is up to the next set-up |
| EndToEnd.ClientFinal | udp/vote_manager.go:319-333 | in every run over such links a complete client keeps its result |
| EndToEnd.TwoSetUpsDisagree | udp/conversation.go:141-150 | for any question that fits, a run over such links in which one request, processed twice, leaves two complete clients with different results, each client having queued one vote |
| EndToEnd.AgreementExactly | udp/vote_manager.go:124-131 | over such links agreement holds in all runs that set a VoteID up at most k times if and only if k <= 1 |
| Completion.CompleteExactly | udp/conversation.go:711-735 | over such links a client is complete for a VoteID if and only if it has processed a packet with a result for it after a packet with a question for it |
| Completion.TooEarlyForGood | udp/vote_manager.go:307-313 | with at most one set-up, a client that has processed a result before any question stays incomplete for the rest of every run in which it processes no packet twice |
| Completion.ResultBeforeQuestion | udp/vote_manager.go:307-313 | a run with one set-up in which the others' votes close the referendum and a participant processes result and then question, once each, and stays incomplete with a contrary answer, both packets being acknowledged and nothing waiting |
| Completion.CanBeCompleted | udp/vote_manager.go:118-337 | from every reachable state with room for one more packet on each queue, whatever was lost or came too early, each referendum with participants can be closed without another set-up, and all of them be completed |
| Completion.SetUpsExactly | udp/vote_manager.go:118-138 | a VoteID has been set up exactly once for each packet with a request for it that the server has processed |
| Completion.AgreementWithoutRepeats | udp/conversation.go:141-150 | if a VoteID was requested once and the server has processed no packet twice, every complete client holds the closed host's result |
| Locks.AccessesExactly | udp/conversation.go:624-709 | every handler accesses exactly the shared state that its method reads or writes |
| Locks.LocksTakenOnce | udp/conversation.go:711-859 | it takes each lock which that state needs exactly once, and no other; the user's commands and the cleaner do without the lock on the conversations |
| Locks.HandlersOrdered | udp/conversation.go:711-859 | every handler takes its locks in strictly increasing rank, and makes each access under the lock that guards it, but for the two that use the conversations unlocked |
| Locks.ProcessingCovered | udp/conversation.go:711-859 | the processor holds its buffer's lock at every access, and one lock on referendums at every access its body makes |
| Locks.MutualExclusion | udp/conversation.go:174-196 | in every run of any number of goroutines no lock is held by two of them |
| Locks.GuardHeld | udp/conversation.go:624-709 | in every run, whoever is about to access guarded state holds its guard, with the same two exceptions |
| Locks.RacesExactly | udp/global.go:151 | two goroutines, one of them writing, can be about to access the same state in some run if and only if it is the map of conversations |
| Locks.RacesAreUnlocked | udp/Brainloop.go:83-86 | in every such race one of the two runs a user's command or the cleaner |
| Locks.BodiesExclude | udp/vote_manager.go:118-337 | in every run no two goroutines are in the middle of handlers for hosted referendums, or for the client's, or of one conversation: each is one critical section as a whole |
| Locks.DeadlockFreedom | udp/vote_manager.go:41-42 | in every reachable state with an unfinished goroutine some goroutine can take its next step |
| Locks.CanFinish | udp/listener.go:95-108 | from every such state all goroutines can be run to completion without starting new ones |
| Locks.AdvanceShrinks | udp/listener.go:95-108 | every step that starts nothing new leaves exactly one operation less to do |
| Listener.Node.GenerateConversationId | udp/global.go:82-97 | the loop returns a non-zero number that was never given out before, and remembers it |
| Listener.Node.HandleIncomingPacket | udp/listener.go:24-57 | a frame is acted on only if it verifies, and then as the packet it parses to |
| Listener.Node.DispatchPacket | udp/listener.go:59-108 | a ping gets a new ID; a ping reply sets the own ID if there is none; any other packet reaches the conversation its header names, which is created if need be, but only after the own ID is known |
| Listener.DamagedFrameIgnored | udp/listener.go:34-48 | a frame hit by a burst of at most 32 bits behind the checksum field changes nothing |
| Listener.IntactFrameArrives | udp/listener.go:50-108 | an undamaged frame reaches the conversation its header names, as the packet that was sent, and that conversation exists from then on |
| Listener.PingReplyArrives | udp/listener.go:63-86 | the frame of a ping reply gives its ID to a node that has none, and changes nothing at any other |
| ConversationIds.DistinctIds | udp/listener.go:59-88 | in every run in which server and clients dispatch packets in any order, and replies are lost, late or repeated, the IDs clients have taken on differ from each other, from the server's and from zero |
| ConversationIds.ClientExactly | udp/listener.go:81-108 | in every run a client has an ID if and only if it has dispatched a ping reply, and then that of the first; it has exactly the conversations of the packets it has dispatched since |
| ConversationIds.ServerExactly | udp/listener.go:59-108 | in every run the server has exactly the conversations of the packets it has dispatched, and has answered each ping with a number of its own |
| ConversationIds.ReplyCanArrive | udp/listener.go:81-88 | in every reachable state a reply sent to a client without an ID can give it that ID in the next step |
| ConversationIds.PingCanBeAnswered | udp/listener.go:59-78 | and a ping can be answered with any number not given out yet |
| ConversationIds.IdsStay | udp/listener.go:81-88 | in no run does an ID once taken on change, nor the server's |

## Left out

- Sockets, goroutine start-up, sleeps and clocks: a step happens or does not; "last sent more than a second ago" is an arbitrary set of due packets.
- The loss and defection probabilities: every outcome is possible.
- Expression evaluation: an external library; its outcome is a parameter of `ComputeQuestion`, and the state machines allow any computed answer.
- UUID generation: a VoteID is any 16 bytes, and the theorems that need distinct ones say so.
- SYN keep-alive, the online flag, address updates and the cleaner: eligibility is an arbitrary snapshot of the conversations, restricted to peers the node knows.
- Sharing of packet objects between maps and callers: `outgoing` and `incoming` hold packets as values in maps that the methods reassign.
- Routing by conversation ID inside the state machines: there is one link per client, `PacketsFindTheirWay` is why a packet gets to its link's other end, and `DistinctIds` why IDs do not collide.
- Data races on state that has no lock at all: the features, the online flag and the times of a conversation, and the own ID.
- Wrap-around of the vote counters: they are at most the number of participants, which conversation IDs bound by 2^32.
- Multi-fragment packets: the rejecting branch is modelled; no sender produces them (`BoundedSending`).
- Memory exhaustion when a request states a very long question.
- Guaranteed completion: `CanBeCompleted` shows that it stays possible; that the network repeats the right packet is not promised by anyone.
- Damage across the end of the checksum field or longer than 32 bits: taken as lost, not proved to be detected.
- The command line, the boot sequences, udp/client_UDP_ARQ_2.go and tcp_test.
- GenerateConversationId: needs a fresh number among the draws to come; without one the loop in the code does not end.
- HandleIncomingPacket: the same condition, for intact pings only.
- DispatchPacket: the same condition, for pings only.
- DeploymentRealizesConsensus: for runs from the beginning the bound 2^32 - 5 is sufficient and not shown to be the limit, because a window that advances one packet at a time still passes a few numbers more; for runs from every state it is the limit (`RunsExactly`).
- WindowPassesOnlyDelivered: the acceptance of packets whose handler has sent the ACK but has not yet taken the lock is promised only after that handler is done, because the code acknowledges first.
- RoundExists: progress is shown to be possible, and exact in every good round; that good rounds happen depends on the network.
