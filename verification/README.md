# Verified models of the Linko transfer core

Dafny models of the parts of Linko whose correctness depends on more than one function or one
step, with proofs of what they promise. The project is self-contained; every theorem is stated for all
inputs, all runs or all interleavings.

    dafny verify dfyconfig.toml

## What is modelled

**The WebRTC transfer protocol** (`packages/core/src/webrtc/webrtc.rs`). `Framing` is the data channel:
text and binary messages, the 16 KiB chunking loop and the string reader. `Wire` names the JSON messages;
a `Codec` turns them into bytes and back, and `Faithful` is all that is assumed of it. `Pins` is the PIN
challenge, as the two loops (`VerifyPin`, `HandlePin`) and as functions on the messages they read;
`PinGuards` is what each loop does with any messages at all.
`Handshake` is both tasks up to the file tokens, as step machines over two FIFO wires in which every send
and every read is a step of its own; `HandshakeSafety`, `HandshakeRuns` and `HandshakeLimits` prove what all
interleavings keep, where runs end, that they end, and for which PIN settings exactly, as long as the
receiver's signature verifies; `HandshakeTrust` has the runs in which a signature or a nonce is refused, and
`HandshakeGuards` each task against whatever arrives, from whomever. `FileStream`, `FileRoundTrip` and
`FileStreamSafety` are the send loop, the receive loop, their composition, and the receive loop on arbitrary
input; `TransferEnd` joins handshake and files.

**The signaling servers.** `SignalingRooms` has the critical sections of the Rust server as methods on the
shared maps, and the handlers as an interleaving machine in which messages go out after the lock is
released. `SignalingSafety` and `SignalingMembership` prove its invariants, `SignalingDelivery` what exactly is
delivered: the Hello, and every relayed message once and in order; `SignalingDrain` that the handlers can always
finish their sends. `IpGroup` (with `Numerals`) is the grouping of
addresses. `SignalingWorker`, `WorkerViews` and `WorkerDelivery` are the single-threaded Cloudflare worker, where
the order of messages is fixed, the clients' views are exact at every point, and each socket's messages can be
read off the events.

**File names.** `Utf8` is a string stored as bytes with cuts at character boundaries, `Filename` the
sanitizer and its validity test, `FilenameResult` what a sanitized name looks like character by character,
`UniquePath` the search for a free name.

**The device store.** `Discovery` (in `DeviceStore.dfy`) and `ChannelRanking` compare the store and its
capped log with the complete confirmation history.

**Matchers and codecs.** `InterfaceFilter` is the backtracking wildcard matcher against what a pattern
means; `ScopedHost` the host-name form of scoped IPv6 addresses.

**Transfer accounting.** `ReceiveSession` and `ReceiveAccounting` are the receiving app and the books it
keeps while uploads, results, ends and cancels race, `ReceiveSteps` when a request waits, a session is active
and a summary is written, `EarlySummaries` when the end summary can come too early; `SendTask` is the upload
loop and its progress counter.

Where the source changes state in place, the model does too: classes with `modifies` clauses and methods
with loops, each proved against a function, about which the lemmas then speak. Automatic induction is switched
off for every lemma, so nothing is proved but by what is written.

### Assumptions and parameters

- JSON and base64 are a codec whose decoding undoes its encoding and whose encodings are longer than the
  one-byte delimiter (`Wire.Faithful`). Reading a status message ignores the fields the reader does not know,
  as the source's decoder does (`Wire.StatusOf`).
- Signatures are opaque; `HandshakeLimits.Verifies` says that what was signed verifies. Nonces, random
  tokens, session ids and the users' answers are parameters.
- The data channel is ordered and reliable. In the send loop it may also break, after any number of messages.
- IPv6 text is an abstract pair of functions: reading undoes writing, and the written form holds hex digits,
  colons and dots only (section 4 of RFC 5952). Interface addresses are given in their printed form, and
  whether a host parses as IPv6 is a parameter of the channel ranking.

### Findings

- A delimiter that arrives while no file is open is parsed as a header and ends the receive loop with an error
  (`webrtc.rs:911-924`). A transfer therefore ends cleanly exactly when a file was streamed and the last one
  was offered and kept its declared size: `FileRoundTrip.StreamOutcome`.
- After the delimiter the sender reads one message and closes (`webrtc.rs:557-561`). With two or more files that
  message can be the reply to an earlier file, while the receiver is still reading: it means the end exactly when
  no streamed file before the last one is answered (`TransferEnd.OneReplyMeansFinished`).
- The two PIN loops stay in step exactly when the configured PIN is not empty and at least one try is allowed
  (`Pins.LockstepNeedsUsablePin`). In the whole handshake an empty PIN on the sending side is harmless, because
  no notice is sent then; everything else is needed (`HandshakeLimits.AgreementNeedsUsablePins`).
- Two channels of a class are ordered by their true recency exactly when the capped log still has one of them
  (`ChannelRanking.RecencyNeedsOneLogged`); `ChannelRanking.RankingMayContradictRecency` gives a history of
  102 confirmations for which a valid ranking does not follow it.
- The receiving app's end summary is complete, however ends and results come in, exactly when the files in
  progress are the outstanding results (`EarlySummaries.SummaryCompleteExactly`). That holds until a file is
  uploaded again while a result of it is outstanding, and such an upload always breaks it
  (`ReceiveAccounting.BalanceNeedsSingleUploads`, `EarlySummaries.DoubleUploadIsSummarisedEarly`). The source
  gets there after a checksum mismatch: `finalize_file` sets the file back to pending
  (`packages/core/src/http/server/v2.rs:653-672`), the retry's upload event comes over the server's channel, and
  the first result over the app's own one (`receive.rs:280-295`), so the two race. In
  `EarlySummaries.RetryIsCountedAsFailed` the first result removes the file from those in progress, the end
  follows, and the file is summarised as failed; the retry's result is dropped, even if it is a success.
- The progress counter of a send never decreases exactly when every completed upload streamed at most its
  declared size (`SendTask.ProgressNeverDecreases`).

## Model

| member | source | states |
|---|---|---|
| Framing.ProcessInChunks | packages/core/src/webrtc/webrtc.rs:1293-1321 | Whatever the piece boundaries, the canonical split of the whole content goes out; on a link that breaks, exactly its first chunks do. |
| Framing.SendString | packages/core/src/webrtc/webrtc.rs:1272-1276 | A string and its delimiter go out as one frame, or the send fails. |
| Framing.ReceiveStringFromChunks | packages/core/src/webrtc/webrtc.rs:1343-1354 | Reads everything up to the next text message, which is consumed with it, and leaves the rest. |
| Framing.ChunksAreCanonical | packages/core/src/webrtc/webrtc.rs:1302-1318 | The split is full 16 KiB blocks and then one non-empty remainder, and joins to the content. |
| Framing.FrameShape | packages/core/src/webrtc/webrtc.rs:1272-1321 | A framed string is binaries of 16384 bytes, a last one that may be shorter but not empty, and the text "0"; how many there are follows from the length. |
| Framing.CanonicalSplitIsUnique | packages/core/src/webrtc/webrtc.rs:1302-1318 | No other split of the content has that shape. |
| Framing.FramingRoundTrip | packages/core/src/webrtc/webrtc.rs:1323-1354 | Any number of strings sent back to back are read back in order, and what follows is untouched. |
| Pins.VerifyPin | packages/core/src/webrtc/webrtc.rs:1196-1248 | The verifying loop with its byte counter, which never wraps, equals the verdict function on the messages read. |
| Pins.HandlePin | packages/core/src/webrtc/webrtc.rs:1132-1188 | The answering loop equals its function on the replies read, in chunks or as single messages. |
| Pins.ReceiveReply | packages/core/src/webrtc/webrtc.rs:1156-1169 | One reply is read as a chunked string or as one text message; a binary message is an error. |
| Pins.MissedMeansNone | packages/core/src/webrtc/webrtc.rs:1213-1216 | Missing k tries means that none of the first k PINs is the configured one. |
| Pins.ChallengeSettles | packages/core/src/webrtc/webrtc.rs:1213-1247 | Every usable challenge is settled by some number of PINs, at most the limit. |
| Pins.PinLockstep | packages/core/src/webrtc/webrtc.rs:1132-1248 | Fed with each other's messages both loops reach the same verdict, acceptance exactly when one of the first max_tries PINs is right, and neither leaves a PIN or a reply unread. |
| Pins.NoticeIsOneMorePrompt | packages/core/src/webrtc/webrtc.rs:1231-1234 | The initial notice adds one prompt ahead of everything and changes nothing else. |
| Pins.LockstepNeedsUsablePin | packages/core/src/webrtc/webrtc.rs:1213-1229 | A verdict that consumes exactly the PINs sent exists if and only if the PIN is not empty and a try is allowed. |
| PinGuards.VerifyOnAnyInput | packages/core/src/webrtc/webrtc.rs:1196-1248 | On any messages: with n wrong PINs in front the loop refuses if those are all tries, accepts if the right PIN follows, and else breaks off; the prompts it has sent, and what is left unread, are given. |
| PinGuards.HandleOnAnyInput | packages/core/src/webrtc/webrtc.rs:1132-1188 | On any messages: each prompt is answered with the next PIN of the user; the first reply that is no prompt decides between entered, refused and lost, by its kind. |
| HandshakeSafety.FrameCarries | packages/core/src/webrtc/webrtc.rs:1323-1354 | A framed string is read back chunk by chunk through the receiver's buffer. |
| HandshakeSafety.ReceiverKeepsGood | packages/core/src/webrtc/webrtc.rs:677-881 | Every message the receiving task reads keeps the invariant on both tasks and all messages under way. |
| HandshakeSafety.SenderKeepsGood | packages/core/src/webrtc/webrtc.rs:233-497 | Every message the sending task reads keeps that invariant, where the receiver's signature verifies. |
| HandshakeRuns.Progress | packages/core/src/webrtc/webrtc.rs:233-497 | While a task is unfinished one of the two can step. |
| HandshakeRuns.HandshakeAgreement | packages/core/src/webrtc/webrtc.rs:677-881 | Between peers with valid nonces whose receiver signs as the sender expects: in every interleaving no message of an unexpected kind is read, and a run is stuck exactly where both tasks ended with the one outcome the session calls for, wires empty and tries respected. |
| HandshakeRuns.StepDescends | packages/core/src/webrtc/webrtc.rs:233-497 | Every step descends a well-founded rank, so no run goes on forever. |
| HandshakeRuns.RunToEnd | packages/core/src/webrtc/webrtc.rs:677-881 | Any scheduler whatsoever drives both tasks to the agreed end. |
| HandshakeLimits.AgreementNeedsUsablePins | packages/core/src/webrtc/webrtc.rs:1213-1229 | All runs agree, whatever the users type, if and only if the configured PINs are usable. |
| HandshakeLimits.EmptyReceiverPinFails | packages/core/src/webrtc/webrtc.rs:736-771 | An empty PIN on the receiving side leads to a read of the wrong kind. |
| HandshakeLimits.ZeroReceiverTriesStrandAPin | packages/core/src/webrtc/webrtc.rs:736-761 | With no tries on the receiving side a PIN is left unread. |
| HandshakeLimits.ZeroSenderTriesFail | packages/core/src/webrtc/webrtc.rs:819-826 | With no tries on the sending side the receiver reads an unexpected refusal. |
| HandshakeLimits.ThreeOutcomes | packages/core/src/webrtc/webrtc.rs:233-497 | With matching keys both peers end alike: refused over the PIN, declined, or holding the same joint nonce, file list and token map. |
| HandshakeTrust.BadSignatureEndsTheRun | packages/core/src/webrtc/webrtc.rs:276-294 | If the signature of one peer does not verify under the key the other expects, in every interleaving the sender sends its nonce and token and nothing else, reaches no later state than waiting for the answer, and is refusing wherever the run is stuck; so is the receiver, if it is the one who refuses. |
| HandshakeTrust.UntrustedExactly | packages/core/src/webrtc/webrtc.rs:276-294 | With usable PINs a stuck run ended over a signature if and only if one of the two does not verify. |
| HandshakeTrust.BadNonceEndsTheRun | packages/core/src/webrtc/webrtc.rs:1098-1117 | With a nonce of fewer than 16 or more than 128 bytes every stuck run has the peer that reads it refusing it, and no token is ever answered. |
| HandshakeGuards.SenderOnAnyInput | packages/core/src/webrtc/webrtc.rs:233-497 | Whatever arrives: the sender offers its files, or waits for PINs, only after a nonce of legal size and a token that verifies under the key it expects, and past its own challenge only after its PIN within the tries; it agrees only on tokens it was sent. |
| HandshakeGuards.ReceiverOnAnyInput | packages/core/src/webrtc/webrtc.rs:677-881 | Whatever arrives: the receiver takes a file list, answers it and agrees only after a legal nonce, a token that verifies and, if set, its PIN within the tries; the list is the one sent, the tokens are for the files its user selected. |
| HandshakeGuards.SenderSends | packages/core/src/webrtc/webrtc.rs:233-497 | What the sender sends on a message, case by case. |
| HandshakeGuards.ReceiverSends | packages/core/src/webrtc/webrtc.rs:677-881 | What the receiver sends on a message, case by case; its token asks for a PIN exactly when one is set. |
| FileStream.ReceiveFiles | packages/core/src/webrtc/webrtc.rs:884-1015 | The receive loop with its file state equals the fold of its message function, about which the rows below speak. |
| FileStream.ReplyFor | packages/core/src/webrtc/webrtc.rs:891-907 | The reply names the file; it is a success exactly if the app reported one, then without an error, and else carries the app's text, "Unknown error" where it gave none, and "Failed to receive file result" where no result came. |
| FileRoundTrip.SendFile | packages/core/src/webrtc/webrtc.rs:516-542 | Header and chunks of one file, or the prefix of them that the link carried. |
| FileRoundTrip.SendIfSelected | packages/core/src/webrtc/webrtc.rs:501-553 | A selected file is streamed; exactly an unselected file, or one of which a message did not get through, is reported. |
| FileRoundTrip.SendFiles | packages/core/src/webrtc/webrtc.rs:501-557 | The send loop puts a prefix of the stream on the link, all of it when the link holds, and reports exactly the unselected files and those the broken link cut off. |
| FileRoundTrip.ReceivesFile | packages/core/src/webrtc/webrtc.rs:884-1015 | One streamed file, read from any running state, is opened if it was offered and gets the chunks that fit. |
| FileRoundTrip.StreamOutcome | packages/core/src/webrtc/webrtc.rs:884-1015 | For every selection and content, unoffered and oversized files included: which files open, what each is handed, that exactly those that fit are answered, each with its result, and that the loop ends cleanly if and only if a file was streamed and the last one was offered and fits. |
| FileRoundTrip.FileStreamRoundTrip | packages/core/src/webrtc/webrtc.rs:501-557 | Files within their sizes arrive with exactly their ids and bytes, in order; the i-th is answered with the i-th result of the app, and the loop stops cleanly. |
| TransferEnd.TransferArrives | packages/core/src/webrtc/webrtc.rs:233-557 | From the first nonce to the last byte: after any interleaving of the handshake in which the users enter the PINs and accept, the files streamed with the sender's tokens arrive whole at a receiver working with its own file list and tokens. |
| TransferEnd.OneReplyMeansFinished | packages/core/src/webrtc/webrtc.rs:555-561 | The one message the sender reads before it closes means that the receiver has finished if and only if no streamed file before the last one is answered. |
| FileStreamSafety.ReceiverOnAnyInput | packages/core/src/webrtc/webrtc.rs:884-1015 | On any message sequence: the files opened are exactly the valid headers read, each gets its payload up to the declared size, and exactly those closed within it are answered, in order, the k-th with the k-th result. |
| FileStreamSafety.EndOnAnyInput | packages/core/src/webrtc/webrtc.rs:884-1015 | On any message sequence: which errors are reported, of which kind and in which order, and nothing else; the loop ends cleanly at a delimiter behind an open file, with an error at any other text that is no header, and else reads everything. |
| FileStreamSafety.OnlySelectedWithinSize | packages/core/src/webrtc/webrtc.rs:924-1003 | No file opens that was not selected or came with another token, and none is handed more than its size or anything but the binaries right behind its header. |
| FileStreamSafety.RunIsBinary | packages/core/src/webrtc/webrtc.rs:979-1013 | The payload of a header is the run of binaries up to the next text message. |
| FileStreamSafety.EarlierClosed | packages/core/src/webrtc/webrtc.rs:886-912 | Only the file opened last can still be open. |
| SignalingRooms.SignalingServer.ProtectRequestCount | server/src/controller/ws_controller.rs:358-369 | The counter grows by one and the request passes exactly while it is below the limit. |
| SignalingRooms.SignalingServer.EnterRoom | server/src/controller/ws_controller.rs:108-143 | A joining peer is admitted within both limits and gets everyone who was in the room before; a refused one still leaves its room created. |
| SignalingRooms.SignalingServer.LeaveRoom | server/src/controller/ws_controller.rs:251-268 | The peer is removed from its room and no other room changes, an emptied room is dropped, and the remaining peers are returned. |
| SignalingRooms.SignalingServer.UpdateInfo | server/src/controller/ws_controller.rs:284-297 | Only a present peer is updated; the others of its room are to be told. |
| SignalingRooms.SignalingServer.FindTarget | server/src/controller/ws_controller.rs:325-332 | A target is found only in the sender's own room. |
| SignalingSafety.StepWithinLimits | server/src/controller/ws_controller.rs:108-143 | No step takes a room or a request count over its limit. |
| SignalingSafety.StepRoomsMatch | server/src/controller/ws_controller.rs:88-273 | A peer is in its group's room exactly between its joining and its leaving section. |
| SignalingSafety.StepLegal | server/src/controller/ws_controller.rs:88-356 | Every step keeps queued and owed messages legal: own group, true sender, truly requested, Join before Left. |
| SignalingSafety.NewMessagesWereOwed | server/src/controller/ws_controller.rs:152-163 | A step queues at most one message, and one some handler owed. |
| SignalingMembership.StepBalances | server/src/controller/ws_controller.rs:97-164 | Every step of every handler keeps the membership balance of every peer. |
| SignalingMembership.MembershipAddsUp | server/src/controller/ws_controller.rs:97-164 | In every interleaving: Hello snapshot and Joins, less Lefts, delivered or pending, are the peer's room without itself. |
| SignalingMembership.JoinBeforeLeft | server/src/controller/ws_controller.rs:249-272 | Every queued Left is about a peer of the snapshot or comes after its Join, no Join of it follows, and a queued Hello carries the snapshot counted from. |
| SignalingMembership.OnlyToldAreGone | server/src/controller/ws_controller.rs:249-272 | An open queue is never told, nor going to be told, that someone left who it was not told of. |
| SignalingMembership.RoomsAreIsolated | server/src/controller/ws_controller.rs:275-356 | Everything queued to a peer comes from its own group; offers and answers reach only the addressed target, unchanged and with the true sender. |
| SignalingMembership.LimitsHold | server/src/controller/ws_controller.rs:358-369 | In every run rooms and request counts stay within their limits. |
| SignalingDelivery.HelloIsTheRoom | server/src/controller/ws_controller.rs:88-163 | In every run a connecting peer is let in exactly below both limits; if so, once it is done announcing itself it has been sent exactly one Hello, with its own data and everyone who was in the room at that moment, each with what it published last; a refused peer is sent nothing. |
| SignalingDelivery.RelaysInOrder | server/src/controller/ws_controller.rs:185-356 | In every run and for every two peers: what the one's handler has put on the other's open queue, with what it is still sending, is what its accepted requests asked for, one for one and in order: updates to the others of its room, offers and answers to a present target, the error 429 to itself over the limit. |
| SignalingDelivery.StepRelays | server/src/controller/ws_controller.rs:185-356 | No step loses or makes up a relayed message: it adds what it asks for, and a delivery takes off what it puts on. |
| SignalingDelivery.StepGreets | server/src/controller/ws_controller.rs:152-163 | Every step keeps it that a running or leaving peer has exactly one Hello, a joining one none yet. |
| SignalingDrain.EveryRunCanSettle | server/src/controller/ws_controller.rs:88-356 | From every reachable state the handlers can finish what they are sending, without anyone joining, leaving or asking for more; then every member with an open queue has its one Hello, its snapshot and Joins less its Lefts are exactly its room, and it has been passed on exactly what its peers asked for. |
| IpGroup.GroupIsNetwork | server/src/util/ip.rs:3-18 | Two addresses share a group if and only if they are the same IPv4 address or IPv6 addresses with the same first 64 bits. |
| IpGroup.GroupText | server/src/util/ip.rs:3-18 | A group is the decimal octets between dots or the first four hex segments between colons. |
| Numerals.ValueOfPrint | server/src/util/ip.rs:12-15 | Reading a printed numeral returns the number, and no other number than 0 starts with a zero. |
| Numerals.PrintIsInjective | server/src/util/ip.rs:12-15 | Unpadded numerals are injective. |
| Numerals.JoinIsInjective | server/src/util/ip.rs:12-15 | Parts without the separator are determined by their joined text. |
| SignalingWorker.Worker.Broadcast | server/cloudflare_worker/linko_signaling_worker.js:168-174 | Every session is sent the message once. |
| SignalingWorker.Worker.BroadcastExcept | server/cloudflare_worker/linko_signaling_worker.js:176-184 | Every session but the excluded one is sent the message. |
| SignalingWorker.Worker.FindSocketById | server/cloudflare_worker/linko_signaling_worker.js:186-193 | The socket of the first session with the id, or none. |
| SignalingWorker.Worker.OnConnect | server/cloudflare_worker/linko_signaling_worker.js:53-85 | HELLO with the sessions so far, JOIN to each of them, then the session is stored. |
| SignalingWorker.Worker.OnMessage | server/cloudflare_worker/linko_signaling_worker.js:88-140 | UPDATE merges into the stored data and goes to all others; OFFER and ANSWER go to the target alone; a socket without a session is ignored. |
| SignalingWorker.Worker.OnClose | server/cloudflare_worker/linko_signaling_worker.js:143-156 | A session still present is removed and LEFT goes to the remaining ones. |
| WorkerViews.BroadcastAt | server/cloudflare_worker/linko_signaling_worker.js:168-184 | A broadcast adds exactly one message to every session's socket but the excluded one, and none elsewhere. |
| WorkerViews.StepKeepsViews | server/cloudflare_worker/linko_signaling_worker.js:63-156 | Every event keeps all views exact. |
| WorkerViews.ViewsAreExact | server/cloudflare_worker/linko_signaling_worker.js:63-156 | At every point of every run each connected client, folding its messages in order, knows exactly the other sessions and their latest data. |
| WorkerViews.OneLeftPerConnection | server/cloudflare_worker/linko_signaling_worker.js:143-156 | However often close and error fire, no client is told more often that an id left than that id connected. |
| WorkerViews.NoSessionNoMessages | server/cloudflare_worker/linko_signaling_worker.js:143-156 | A socket without a session is sent nothing until it connects. |
| WorkerViews.UpdatesReplaceWhatTheyCarry | server/cloudflare_worker/linko_signaling_worker.js:44-99 | Registering is updating the defaults, but for the version; an update replaces exactly the parts it carries, and an empty one counts as missing. |
| WorkerDelivery.SessionsAreCurrent | server/cloudflare_worker/linko_signaling_worker.js:88-156 | In every run a socket has a session from its connecting to its closing, with what it registered and updated since. |
| WorkerDelivery.InboxIsWhatWasSent | server/cloudflare_worker/linko_signaling_worker.js:63-156 | In every run each socket has been sent exactly what the events call for, in order; an offer or answer reaches the session with the target id and nobody else, as what it is, with sender, session id and description as given. |
| Utf8.EncodeShape | packages/core/src/util/filename.rs:207-217 | In the encoding of a character only the first byte is not a continuation byte. |
| Utf8.EncodeKeepsCodePoint | packages/core/src/util/filename.rs:207-217 | All bits of a character are in its bytes, so the encoding loses nothing. |
| Utf8.BytesAreInjective | packages/core/src/util/filename.rs:207-217 | Two strings with the same bytes are the same: cuts counted in bytes are cuts of characters. |
| Utf8.BoundaryEndsCharacters | packages/core/src/util/filename.rs:213-215 | The byte test for a boundary holds exactly where whole characters end. |
| Utf8.LongestIsGreatest | packages/core/src/util/filename.rs:206-217 | No longer run of whole characters fits in the limit. |
| Utf8.Text.Truncate | packages/core/src/util/filename.rs:216 | Cutting at a boundary keeps a prefix of exactly that many bytes. |
| Utf8.Text.TruncateBytes | packages/core/src/util/filename.rs:206-217 | The loop that steps back to a boundary keeps the longest run of whole characters within the limit. |
| Filename.CollapseTrailingRun | packages/core/src/util/filename.rs:147-154 | The trailing run of dots and spaces becomes one replacement. |
| Filename.ReplaceIllegal | packages/core/src/util/filename.rs:113-120 | The first pass, growing its result character by character, gives the replaced name. |
| Filename.GuardReserved | packages/core/src/util/filename.rs:122-128 | Under Windows-like rules the trailing run is collapsed and a reserved stem replaced. |
| Filename.Shorten | packages/core/src/util/filename.rs:130-137 | The cut to 255 bytes, with the run it may expose collapsed again. |
| Filename.SanitizeWith | packages/core/src/util/filename.rs:112-145 | All passes in place, for any replacement and placeholder, give the sanitized name. |
| FilenameResult.IllegalExactly | packages/core/src/util/filename.rs:4-11 | Which characters are illegal under which rules, by name; control characters always. |
| FilenameResult.ReplacedAround | packages/core/src/util/filename.rs:113-120 | For any replacement, each illegal character, and no other, is replaced where it stands. |
| FilenameResult.ReplacedIsMasked | packages/core/src/util/filename.rs:113-120 | With the default replacement the replaced name has the length of the name and '_' exactly where a character is illegal. |
| FilenameResult.ReservedExactly | packages/core/src/util/filename.rs:14-17 | The reserved stems are the 22 device names, up to the case of ASCII letters. |
| FilenameResult.WindowsPasses | packages/core/src/util/filename.rs:112-145 | For any replacement and placeholder, under Windows rules the result is related to the replaced name by five steps: collapse the trailing run, free the reserved stem, cut to the most whole characters within 255 bytes, collapse, cut; the placeholder stands for an unusable rest. |
| FilenameResult.OtherPasses | packages/core/src/util/filename.rs:112-145 | Under the other rules by the cut and the placeholder alone. |
| FilenameResult.OtherKeepsName | packages/core/src/util/filename.rs:112-145 | Under the other rules a usable name of at most 255 bytes keeps its length and every character that is not illegal. |
| FilenameResult.WindowsKeepsName | packages/core/src/util/filename.rs:112-145 | Under Windows rules a name of at most 255 bytes keeps them too, but for a trailing run of dots and spaces and a reserved stem, each of which becomes one '_'. |
| Filename.CutHasNoReserved | packages/core/src/util/filename.rs:130 | Cutting at 255 bytes does not bring back a reserved stem. |
| Filename.CollapseHasNoReserved | packages/core/src/util/filename.rs:132-137 | Neither does the second collapse. |
| Filename.SanitizeIsValid | packages/core/src/util/filename.rs:107-175 | For every string and all rules the sanitized name is valid. |
| Filename.SanitizeFixesValid | packages/core/src/util/filename.rs:156-175 | A name is valid if and only if sanitizing leaves it untouched. |
| Filename.SanitizeIsIdempotent | packages/core/src/util/filename.rs:107-145 | Sanitizing twice is sanitizing once. |
| Filename.PathGivesValidName | packages/core/src/util/filename.rs:183-190 | A sanitized path is a valid name and a single path segment. |
| Filename.LastUsableSegmentWins | packages/core/src/util/filename.rs:183-190 | Nothing before the last segment matters when that one names something. |
| Filename.UnusableSegmentIsSkipped | packages/core/src/util/filename.rs:183-190 | Empty and relative segments at the end are skipped. |
| UniquePath.ExtensionSplitsAtLastDot | cli/src/util.rs:103-106 | Stem and extension recompose to the name, the stem is not empty, and the extension holds only its leading dot. |
| UniquePath.CandidatesAreNumbering | cli/src/util.rs:107-109 | Numbered candidates are pairwise different and none is the name itself. |
| UniquePath.TakenIsBounded | cli/src/util.rs:107-110 | The existing names run out before the search does: the pigeonhole argument for its end. |
| UniquePath.FirstFree | cli/src/util.rs:107-110 | The search ends at a free number, all smaller ones taken, that is at most the number of existing names. |
| UniquePath.UniquePathStaysInside | cli/src/util.rs:95-111 | The result is a single segment: it cannot leave the directory. |
| UniquePath.UniquePathIsLeast | cli/src/util.rs:95-111 | The result is the sanitized name if that is free, or else the free candidate with the least number. |
| UniquePath.TakenNameIsNumbered | cli/src/util.rs:103-110 | A taken name is saved as its stem, a space and a number in parentheses, and its extension, stem and extension being the halves at the last dot; the number is the least from 1 on that is free. |
| Discovery.DeviceStore.Upsert | packages/core/src/discovery/store.rs:196-244 | After any sequence of calls the devices are what the whole history of calls says, in first-seen order, with the right event returned. |
| Discovery.DeviceStore.Confirm | packages/core/src/discovery/store.rs:206-229 | A known device is merged: described as confirmed, the channels of its host replaced by the one used, which is available, the others with the status they had, the log longer by this confirmation and cut to the last hundred. |
| Discovery.DeviceStore.ByFingerprint | packages/core/src/discovery/store.rs:251-258 | Finds a device exactly when the history has it, in the state its history gives. |
| Discovery.KeptChannels | packages/core/src/discovery/store.rs:207-212 | A channel is kept if and only if some confirmation used it and no later one came over the same host. |
| Discovery.StateIsRecent | packages/core/src/discovery/store.rs:196-244 | A device is what it last confirmed itself as, its channels are available, and its log is the one of the row below. |
| Discovery.LogIsRecent | packages/core/src/discovery/store.rs:213-229 | The log is the last hundred confirmations in order, with time, kind and channel. |
| Discovery.FingerprintsUnique | packages/core/src/discovery/store.rs:202-205 | No fingerprint is stored twice. |
| Discovery.MergeIsOneMore | packages/core/src/discovery/store.rs:206-229 | Merging a confirmation is appending it to the device's uncapped history. |
| ChannelRanking.GetRankedChannels | packages/core/src/discovery/store.rs:97-107 | From any order of the map, a permutation of the channels in which each may precede those after it: available ones first, then IPv6 ones, then those logged later. |
| ChannelRanking.GetBestChannel | packages/core/src/discovery/store.rs:93-95 | The channel returned may precede every other one; there is none exactly when the device has no channel. |
| ChannelRanking.RankingExactly | packages/core/src/discovery/store.rs:97-113 | Sorting by the tuple of the source is that order, pair by pair, and conversely. |
| ChannelRanking.CappedPosition | packages/core/src/discovery/store.rs:111-113 | The position in the capped log is the position in the whole history moved by the cut, or forgotten. |
| ChannelRanking.RankingIsRecency | packages/core/src/discovery/store.rs:97-113 | Within a class, with one of two channels still logged, the key orders them as the uncapped history does. |
| ChannelRanking.TieMeansForgotten | packages/core/src/discovery/store.rs:109-113 | Two channels of a class tie if and only if the log has forgotten both. |
| ChannelRanking.RecencyNeedsOneLogged | packages/core/src/discovery/store.rs:97-113 | Two channels of a class are ordered exactly as the whole history orders them if and only if the capped log still has one of them. |
| ChannelRanking.RankingMayContradictRecency | packages/core/src/discovery/store.rs:97-113 | After a history longer than the log a valid ranking can put a channel before one that was confirmed later. |
| ChannelRanking.RankedByTrueRecency | packages/core/src/discovery/store.rs:97-113 | In any ranking of two channels the first is available if their status differs, is IPv6 if else their family differs, and else, if the log still has either, was confirmed after the last confirmation of the other in the whole history. |
| Texts.SplitOnce | packages/core/src/util/interface.rs:50 | The cut at the first separator, or none when the text has none. |
| InterfaceFilter.MatchesExactly | packages/core/src/util/interface.rs:49-66 | The matcher accepts an address if and only if every star can be given a non-empty dotless text so that the filled pattern is the address. |
| InterfaceFilter.FilledAtSplit | packages/core/src/util/interface.rs:50-64 | Filling a pattern splits at its first star. |
| InterfaceFilter.IgnoredExactly | packages/core/src/util/interface.rs:21-46 | An interface is ignored if and only if the whitelist covers none of its addresses or the blacklist one of them. |
| ScopedHost.ParsePrinted | packages/core/src/http/client/scoped_host.rs:29 | Reading a printed 32-bit scope gives it back. |
| ScopedHost.DecodeReversesEncode | packages/core/src/http/client/scoped_host.rs:23-51 | A host is encoded exactly when it is an address and a scope and the address is written without dots; the name is the address with dashes, "s", the scope and the suffix, and decoding gives both back. |
| ScopedHost.EncodeIsInjective | packages/core/src/http/client/scoped_host.rs:23-39 | Two encoded hosts share a name if and only if they mean the same address and scope. |
| ReceiveSession.App.HandlePrepareUpload | cli/src/app/receive.rs:122-199 | A message request starts nothing, a paired sender's request a session, any other one waits for an answer. |
| ReceiveSession.App.AnswerPending | cli/src/app/receive.rs:433-495 | The waiting request is taken; accepting it starts a session if the decision still reached the server. |
| ReceiveSession.App.HandlePrepareUploadAborted | cli/src/app/receive.rs:220-230 | Only the request of that session is dropped. |
| ReceiveSession.App.HandleFileUpload | cli/src/app/receive.rs:249-302 | A target is handed out, and the file is in progress, only for the active session. |
| ReceiveSession.App.ReceiveFileResult | cli/src/app/receive.rs:304-342 | A result of the active session moves its file from in progress to finished or failed; results of other sessions change nothing. |
| ReceiveSession.App.HandleSessionEnd | cli/src/app/receive.rs:206-219 | The end is recorded, and the session summarised once nothing is in progress. |
| ReceiveSession.App.FinishReceiveIfDone | cli/src/app/receive.rs:344-383 | The session goes on or is replaced by its summary. |
| ReceiveSession.App.CancelReceive | cli/src/app/receive.rs:385-431 | The active session ends with its own summary. |
| ReceiveAccounting.ResultBalances | cli/src/app/receive.rs:304-342 | A result keeps the books: finished, failed and outstanding results are the uploads handed out. |
| ReceiveAccounting.StepKeeps | cli/src/app/receive.rs:206-431 | Every event keeps every session consistent, and accounted for unless it is a second upload of a file at once. |
| ReceiveAccounting.RunsAreConsistent | cli/src/app/receive.rs:206-431 | In every run, double uploads included: the active session's counts and bytes are those of the results delivered, every upload handed out is finished, failed or outstanding, and no session has two summaries. |
| ReceiveAccounting.RunsAreAccounted | cli/src/app/receive.rs:206-431 | In every run without double uploads finished, failed and in-progress files are the uploads handed out, and an end summary comes only after the reported end with no result outstanding, gives its reason and accounts for every upload. |
| ReceiveAccounting.BalanceNeedsSingleUploads | cli/src/app/receive.rs:264-270 | An upload keeps the shown counts equal to the uploads handed out if and only if no result of the same file is outstanding. |
| ReceiveSteps.WaitsUntilAnswered | cli/src/app/receive.rs:122-230 | In every run a request is waiting if and only if it was made to be answered and since then neither answered nor aborted by its sender nor replaced by another one. |
| ReceiveSteps.MessageExactly | cli/src/app/receive.rs:91-103 | A request is a bare message if and only if it is for a single file of a text type that carries its content along. |
| ReceiveSteps.ActiveUntilClosed | cli/src/app/receive.rs:122-431 | A session is active after an event exactly if the event starts it, or it was active and the event neither starts another one nor cancels nor closes it. |
| ReceiveSteps.StartsWithRequest | cli/src/app/receive.rs:152-169 | A session starts with the files of its request and nothing received. |
| ReceiveSteps.LogGrowsExactly | cli/src/app/receive.rs:304-431 | In every run, double uploads included: exactly cancelling and closing write a summary; the one has the number of successes reported, the other the last reported end, successes, failures and bytes. |
| EarlySummaries.SummaryCompleteExactly | cli/src/app/receive.rs:344-383 | In every reachable world: however the ends and results come in, the session's end summary is complete, if and only if the files in progress are exactly the outstanding results. |
| EarlySummaries.DoubleUploadIsSummarisedEarly | cli/src/app/receive.rs:264-270 | A second upload of a file whose result is outstanding always makes an early summary possible. |
| EarlySummaries.RetryIsCountedAsFailed | cli/src/app/receive.rs:304-383 | A run from the start in which a retried file is summarised as failed while the retry's result is still to come, and is then dropped. |
| SendTask.AcceptedBytes | cli/src/send_task.rs:158-163 | The sum over the response map does not depend on its iteration order and passes over unknown ids. |
| SendTask.UploadBody | cli/src/send_task.rs:268-276 | Every chunk stores the bytes of the file so far on top of the base. |
| SendTask.ReportedAt | cli/src/send_task.rs:268-276 | One value per chunk: the base and what is sent of the file up to that chunk. |
| SendTask.SendFiles | cli/src/send_task.rs:178-266 | The upload loop stores exactly the specified sequence of values, and ends with the specified counts and cancel notice. |
| SendTask.CounterDuringUpload | cli/src/send_task.rs:190-216 | While a file is sent the counter shows the declared sizes of the files before it and what is sent of this one. |
| SendTask.StopsAtFirstFailure | cli/src/send_task.rs:215-256 | The loop stops at the first upload that does not complete, with the files before it counted; the receiver is told to cancel unless it cancelled itself. |
| SendTask.ProgressNeverDecreases | cli/src/send_task.rs:190-216 | The counter never decreases if and only if every completed upload streamed at most its declared size. |
| SendTask.SuccessReportsAccepted | cli/src/send_task.rs:158-216 | After success the counter and the sent bytes are the accepted bytes: the sum in upload order is the sum over the map. |

## Left out

- The Pair answer to a file list (`webrtc.rs:409-471`): the receiver of the same file never sends it.
- The receiving user dropping the selection or a PIN prompt, status events, and the app dropping a file's
  receiver in the middle of a transfer: each ends the task with an error at once.
- A link that breaks during the handshake; `FileRoundTrip.SendFiles` covers it for the file stream.
- SDP exchange, ICE, compression of descriptions, buffer waits and timeouts: library behaviour and timing.
- Cryptography and JSON: opaque functions with the assumptions named above.
- Handshake.SenderOn and Handshake.ReceiverOn model the two task bodies as step functions rather than methods,
  because it is their interleaving that is proved about; the loops inside them are also modelled as methods.
- Queue capacities and fairness of the Rust signaling server: queues are unbounded, and that the handlers can
  finish their sends is proved, not that they get to. "Limit reached" is sent to a refused socket that has no queue,
  and is not modelled.
- An ordered view, and the order of messages of different peers, for the Rust signaling server: sends happen
  outside the lock. `SignalingDelivery.RelaysInOrder` has the order for every two peers.
- Failed sends of the worker, which swallows them, and client data whose fields are not strings.
- SignalingWorker.Worker.OnConnect: the socket and the id are taken to be new, as a fresh pair and a random UUID are.
- Filename.SanitizeIsValid: default replacement and placeholder only; an empty replacement can bring back a
  reserved stem in the second collapse. `Filename.SanitizeWith` itself takes any.
- The choice of rules for the running platform is a parameter.
- UniquePath.FirstFree: the counter is unbounded, where the source counts in 32 bits; the names in the
  directory are a fixed set, and two names are the same only if they are equal.
- ScopedHost.DecodeReversesEncode: rests on an abstract IPv6 text form, not on a parser for it.
- 64-bit overflow of byte sums: sizes are unbounded.
- The HTTP server's upload handler: its events may come in any order, as long as session ids are new and every
  upload handed out reports once.
- ReceiveSession: the bytes shown for files in progress, speed, logging, pairing storage, and the cancel request
  that goes back to the sender.
- SendTask.SendFiles: that the upload order is by file name; the results hold for every order. An accepted id that
  was never offered stops the source, and is a precondition here; a body is not polled after its upload returned.
- HTTP servers and clients, multicast discovery, the Flutter bridge, the Windows runner and the terminal UI.
