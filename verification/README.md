# A verified model of the Obby IRC engine

The engine is sans-I/O: every operation takes bytes, a time or a line and updates state. This project models its
hard parts in Dafny and proves what they promise. Code that the engine writes as methods over fields is a class here,
and its loops are loops with invariants; each such method leaves exactly what a specification function says, and the
theorems are about those functions over every input and every run.

`dafny verify dfyconfig.toml` checks everything.

## The parts

- **End-to-end encryption** (`Padding`, `Crypto`, `Ratchet`, `RatchetRuns`, `RatchetTheorems`, `ForwardSecrecy`, `Handshake`,
  `Session`, `SessionTheorems`, `Conversations`, `Fragments`). Cryptography is a free term algebra: a secret is a fresh
  name, a Diffie-Hellman value is an unordered pair of secrets, key derivation and sealing are constructors. The
  conversation is a transition system of two parties and a network. A step is a send or a delivery; the network may deliver any genuine message at any time, any
  number of times, in any order or never, and may make up any message except one sealed under a key of the session.
  `NetworkCannotForge` shows why that exception is fair: what is not given away cannot be derived. The invariant says
  that each party's ratchet is a function of the conversation: sending epochs alternate, a party is at most one step ahead of
  its peer, a receiving chain is the sender's chain advanced as many times as counters were passed, and every stored key
  is the key of a message passed over. From it follow an exact delivery theorem, at-most-once acceptance, and forward
  secrecy: which message keys a party's state still leads to, exactly. The handshake of two honest sessions is shown to
  start such a conversation, and what one session's user says there is what the other's hears, once.
- **Codecs** (`Text`, `Numbers`, `Tags`, `Message`, `LineGrammar`, `Json`, `JsonGrammar`, `JsonCursor`, `Signals`). Four
  printers and parsers that undo each other, one inside the other, up to the voice frame that survives being written as
  JSON, escaped into a tag, printed as a line, parsed and read again. Where a printed line does not read back, the exact
  condition is proved. The two grammars say exactly which texts are read, and as what: lines with any spacing, and JSON with
  any white space and any spelling.
- **Session descriptions** (`Sdp`). Cutting at character boundaries is shown to be the one greedy cutting, and the bounded
  reassembler gives the text back from any order, with repeats, among other traffic.
- **Calendar** (`Calendar`, `ServerTime`). The two civil-date algorithms against the plain Gregorian rules and a walk of the
  calendar one day at a time.
- **Client model** (`MessageLog`, `Mentions`, `Casemap`, `Names`, `Orders`, `Model`, `ModelIntegrity`, `ModelMessages`,
  `Membership`, `ModelMethods`). The bounded message log with its index, what every line keeps true across channels, people,
  conversations and logs, and what the lines themselves say of where a message goes and who is where.
- **Connection** (`Capabilities`, `Sasl`, `Negotiation`, `NegotiationRuns`, `CapabilityRuns`, `Framing`, `Scram`).
  Negotiation interlocked with authentication, read off the words of the lines; cutting the byte stream into lines; and
  SCRAM-SHA-256 after section 3 of RFC 5802.
- **Correlation** (`Batches`, `Multiline`, `Labels`, `Timers`). Interleaved and nested batches, labelled requests and the
  deadline drain.
- `Integers`, `Maps` and `Wrappers` hold what the others share.

## Where the code falls short of what one might expect

Each of these is proved, with the exact condition.

- A line buffer outlives its connection. The next connection's lines come out right if and only if the stream of the last
  one ended just after a newline, or was empty (`Framing.NextConnectionIsCleanIff`, `Framing.NextConnectionIsCleanAfter`).
- A printed message reads back if and only if it is well formed: for example a tag with an empty value does not
  (`Messages.ReadsBackIffWellFormed`).
- A held `sasl` is tried before negotiation ends if and only if the server did not cut the exchange short before it was
  opened (`CapabilityRuns.HeldSaslIsTriedIff`); a verdict nobody asked for does that
  (`CapabilityRuns.EarlyVerdictSkipsTheExchange`).
- An instant reads back up to the last millisecond of the year 9999 and not after (`ServerTime.FormatReadsBackIff`); a time
  that is read is written back as it came if and only if its month has its day, since a later day counts into the next
  month (`ServerTime.ReadTextIsWrittenBackIff`).
- A mention is found in every text if and only if the folded nick cannot overlap itself where a word ends
  (`Mentions.SearchIsExactIff`).
- A multiline message keeps its text if and only if its first line has a text parameter, or there is no text
  (`Multiline.OneMessageKeepsItsText`).
- A message stored under a key already in use leaves the index agreeing if and only if the one it replaces had no id
  (`MessageLogs.OverwritingKeepsAgreementIff`).

## Model

| member | source | states |
|---|---|---|
| Padding.UnpadUndoesPad | crates/obby-client/src/e2ee.rs:934-957 | unpadding gives back every plaintext, also an empty one and one that ends in the marker or in zeros |
| Padding.UnpaddedShape | crates/obby-client/src/e2ee.rs:945-957 | padded text is accepted as a plaintext exactly when it is that plaintext, one marker and only zeros |
| Padding.Unpad | crates/obby-client/src/e2ee.rs:945-957 | the backward scan finds the last byte that is not zero and refuses text without a marker there |
| Crypto.AdvanceInjective | crates/obby-client/src/e2ee.rs:886-890 | two chains advanced to one value started from chains a number of steps apart: message keys never repeat |
| SkippedKeyStore.InsertKeepsTheNewest | crates/obby-client/src/e2ee.rs:674-684 | the order lists the stored ids without repeats, the bound holds, and what falls out is what was inserted first |
| SkippedKeyStore.SkippedKeys.Insert | crates/obby-client/src/e2ee.rs:674-684 | the map and the queue after an insertion, with eviction of the oldest |
| Ratchets.Ratchet.Encrypt | crates/obby-client/src/e2ee.rs:758-776 | the sealed message and every field afterwards, or the error; at the last counter the chain moves on even so |
| Ratchets.Ratchet.Decrypt | crates/obby-client/src/e2ee.rs:782-811 | the plaintext and every field afterwards, or an error that leaves the ratchet as it was |
| Ratchets.Ratchet.SkipCurrentReceivingChain | crates/obby-client/src/e2ee.rs:816-839 | the loop stores the key of every counter passed over and refuses more than the bound |
| Ratchets.Ratchet.DhRatchetReceive | crates/obby-client/src/e2ee.rs:844-868 | both halves of the step, towards the peer's key and with the new one |
| RatchetRuns.AcceptsOnlyDeliverable | crates/obby-client/src/e2ee.rs:782-811 | whatever the network sends, what is accepted is a genuine, deliverable, not yet accepted message of the peer's, and yields what its sender encrypted |
| RatchetRuns.DeliverableIsAccepted | crates/obby-client/src/e2ee.rs:782-811 | every deliverable message is accepted and yields the plaintext sent |
| RatchetRuns.SendKeepsInv | crates/obby-client/src/e2ee.rs:758-776 | a send by either party keeps both ratchets aligned with the conversation |
| RatchetRuns.DeliverKeepsInv | crates/obby-client/src/e2ee.rs:782-868 | any delivery, accepted or refused, keeps both ratchets aligned with the conversation |
| RatchetTheorems.RunKeepsInv | crates/obby-client/src/e2ee.rs:757-868 | the invariant holds after every run of sends and deliveries, and nothing once sent or accepted is forgotten |
| RatchetTheorems.ChainsStayAligned | crates/obby-client/src/e2ee.rs:697-868 | after every run the parties are one step apart, share the root at the common step, and the receiving chain is the sending chain at the receiver's counter |
| RatchetTheorems.AcceptedIffDeliverable | crates/obby-client/src/e2ee.rs:782-839 | after every run a message is accepted if and only if its skipped key is held or it lies ahead within the skip bound |
| RatchetTheorems.AcceptedIsWhatWasSent | crates/obby-client/src/e2ee.rs:782-811 | after every run, what is accepted yields exactly the plaintext its sender encrypted and had not been accepted before |
| RatchetTheorems.AcceptedAtMostOnce | crates/obby-client/src/e2ee.rs:782-811 | once accepted, a message is refused by both parties in every continuation of any length |
| RatchetTheorems.UnacceptedIsDeliverable | crates/obby-client/src/e2ee.rs:782-839 | while the store had room, every message not yet accepted and within the skip bound is accepted, in any order of delivery |
| RatchetTheorems.StoreIsExactlyTheGaps | crates/obby-client/src/e2ee.rs:816-839 | without eviction the store holds exactly the keys of counters passed over and not yet accepted |
| Conversations.RunTalks | crates/obby-client/src/e2ee.rs:1156-1174 | over every run of sends and deliveries two established sessions keep the ratchets of their conversation |
| Conversations.WhatIsSaidIsHeard | crates/obby-client/src/e2ee.rs:1156-1174 | after any run, a session takes what the other's user said if and only if it is deliverable to it, and hands its user exactly that; saying fails only when the counter is exhausted |
| Conversations.NothingIsHeardTwice | crates/obby-client/src/e2ee.rs:1165-1174 | once a session has taken a message neither session takes it again, whatever happens in between |
| Conversations.HonestPartiesTalk | crates/obby-client/src/e2ee.rs:1066-1153 | two parties fed only each other's handshake frames are two such sessions |
| ForwardSecrecy.StateGivesAwayIff | crates/obby-client/src/e2ee.rs:697-868 | whoever takes a party's state and any secrets that do not give the handshake secret derives exactly the message keys ahead on its two chains and the skipped keys still held |
| ForwardSecrecy.SentAndAcceptedKeysAreGone | crates/obby-client/src/e2ee.rs:758-811 | the key of a message the party has sent or accepted cannot be derived from its state |
| ForwardSecrecy.EveryRunForgetsItsKeys | crates/obby-client/src/e2ee.rs:758-811 | so after every run of an honest conversation, for all secrets but the responder's identity and signed prekey |
| Handshake.FingerprintsTellKeysApart | crates/obby-client/src/e2ee.rs:229-240 | two signing keys with one fingerprint are one key |
| Handshake.ExactlyOneKeepsItsOffer | crates/obby-client/src/e2ee.rs:329-334 | of two crossing offers exactly one side keeps its own |
| Handshake.SecretsAgreeIffKeysMatch | crates/obby-client/src/e2ee.rs:544-590 | both computations of the handshake give one secret exactly when each side used the other's keys |
| Handshake.SecretDerivableIffPairsLeak | crates/obby-client/src/e2ee.rs:544-590 | the handshake secret can be computed exactly by who knows one secret of each of its four pairs |
| Handshake.AcceptOffer | crates/obby-client/src/e2ee.rs:593-629 | the response and ratchet of an answered offer, or the error of the check that failed |
| Handshake.CompleteHandshake | crates/obby-client/src/e2ee.rs:634-655 | the initiator's ratchet once the signature and the boot message check, or the error |
| Sessions.PeerTrust.Observe | crates/obby-client/src/e2ee.rs:289-300 | trust on first use: pin when nothing is pinned, report a match or a change otherwise, and never move the pin |
| Sessions.Session.ReceiveAck | crates/obby-client/src/e2ee.rs:1137-1153 | a session waiting for the ack becomes established by an ack that decrypts and by nothing else |
| Sessions.Session.ReceiveAccept | crates/obby-client/src/e2ee.rs:1104-1127 | the initiator's side of the handshake, refused with nothing changed when the signature or the pin does not fit |
| SessionTheorems.EveryEntryIsVerifiedAndPinned | crates/obby-client/src/e2ee.rs:1066-1127 | every entry to waiting or established has a verified signature by the very key whose fingerprint is pinned |
| SessionTheorems.EstablishedOnlyByAckOrAccept | crates/obby-client/src/e2ee.rs:1034-1211 | a session becomes established only by a decrypted ack or a verified accept |
| SessionTheorems.PinMovesOnlyByConfirmation | crates/obby-client/src/e2ee.rs:277-320 | over every run of calls a set pin moves only through an explicit confirmation |
| SessionTheorems.OnePeerWithoutConfirmation | crates/obby-client/src/e2ee.rs:1034-1211 | without a confirmation all peers ever let in over a run have one and the same key |
| SessionTheorems.LiveMeansPinned | crates/obby-client/src/e2ee.rs:1034-1211 | after every run a live session's peer is the one last let in |
| SessionTheorems.ConfirmedRetrySucceeds | crates/obby-client/src/e2ee.rs:1066-1088 | a call refused because the peer's key changed leaves the session as it was, and succeeds once that key is confirmed |
| SessionTheorems.StartIsAligned | crates/obby-client/src/e2ee.rs:593-655 | the ratchets the handshake leaves satisfy the invariant every run keeps, with no key lost |
| SessionTheorems.HonestHandshakeEstablishesBoth | crates/obby-client/src/e2ee.rs:593-655 | two parties fed only each other's frames are both established, each pinned to the other, with the ratchets of a conversation that satisfies the invariant |
| SessionTheorems.NetworkCannotForge | crates/obby-client/src/e2ee.rs:544-590 | a network without the parties' secrets derives no key of their session |
| Fragments.Reassemble | crates/obby-client/src/e2ee.rs:457-484 | a set of fragments is put together if and only if it has one id, one total that is its size, and every index once |
| Fragments.AnyOrderOfTheFragments | crates/obby-client/src/e2ee.rs:451-484 | the fragments of a payload in any order form such a set, and only the payload's own pieces fit |
| Tags.UnescapeUndoesEscape | crates/obby-proto/src/tags.rs:154-195 | unescaping gives back every escaped value |
| Tags.EscapedIsSafe | crates/obby-proto/src/tags.rs:180-195 | an escaped value holds no space, semicolon or line end |
| Tags.TagsReadBack | crates/obby-proto/src/tags.rs:57-67 | a printed tag section reads back for every list of tags with plain keys and values that are absent or not empty |
| Tags.Unescape | crates/obby-proto/src/tags.rs:154-178 | the escape loop, with the lone backslash dropped |
| Tags.UnescapedIff | crates/obby-proto/src/tags.rs:154-178 | unescaping gives a value for exactly the texts that spell it out, characters without an escape of their own and a backslash left over included |
| Tags.SectionIsReadByParts | crates/obby-proto/src/tags.rs:57-67 | a section is read part by part, empty parts skipped, each as exactly the tag it says |
| Tags.GetIff | crates/obby-proto/src/tags.rs:73-80 | the value of a key is that of the last tag with it |
| Messages.PrintingUndoesReading | crates/obby-proto/src/message.rs:37-60 | printing a source that was read gives the raw text back, for every text |
| Messages.ReadingUndoesPrintingIff | crates/obby-proto/src/message.rs:37-90 | reading a printed source gives it back exactly when its parts split where they were joined |
| Messages.ReadsBackIffWellFormed | crates/obby-proto/src/message.rs:118-209 | parsing a printed message returns it if and only if it is well formed |
| Messages.WellFormedReadsBack | crates/obby-proto/src/message.rs:118-209 | and with any line ending after it |
| LineGrammar.ParamsIff | crates/obby-proto/src/message.rs:118-164 | parameters are read from exactly their texts, with any number of spaces and a last one marked or not |
| LineGrammar.ParsedIff | crates/obby-proto/src/message.rs:118-164 | a line is read as a message if and only if it is one of its texts, whatever the spaces between sections and the line ending |
| Messages.PrintMessage | crates/obby-proto/src/message.rs:188-209 | the printer's sections and loops |
| Messages.ParseMessage | crates/obby-proto/src/message.rs:118-164 | the parser's sections and loops |
| Numbers.IntReadsBack | crates/obby-client/src/voice.rs:34-46 | every 64-bit number reads back from its decimal text |
| Numbers.UnsignedIsReadIff | crates/obby-proto/src/servertime.rs:22-44 | an unsigned number is read from exactly its numerals in range, bare or after a plus |
| Numbers.SignedIsReadIff | crates/obby-client/src/json.rs:134-163 | a 64-bit number is read from exactly its numerals in range, after its sign |
| JsonGrammar.ParseUndoesWrite | crates/obby-client/src/voice.rs:34-96 | parsing the written text of any JSON value returns that value |
| JsonGrammar.EveryLayoutIsRead | crates/obby-client/src/json.rs:22-253 | the text of a document gives its value, whatever white space stands between the tokens and however each character and number is spelt |
| JsonGrammar.ParsedIff | crates/obby-client/src/json.rs:22-253 | a text gives a value if and only if it is the text of a document of that value |
| JsonGrammar.CompactIsWritten | crates/obby-client/src/voice.rs:34-96 | every value has a document, and what the writer writes is its compact text |
| JsonGrammar.WrittenIsPrintable | crates/obby-client/src/voice.rs:34-96 | no control character is ever written bare |
| JsonText.Write | crates/obby-client/src/voice.rs:34-96 | the mutually recursive writer with its comma loops |
| JsonCursor.Parse | crates/obby-client/src/json.rs:22-35 | the cursor parser reads the whole text and returns a value exactly for the texts of documents of that value |
| JsonCursor.Parser.ParseValue | crates/obby-client/src/json.rs:105-117 | what the cursor yields and where it stands afterwards, for any text left |
| JsonCursor.Parser.ParseObject | crates/obby-client/src/json.rs:176-198 | the field loop, with its comma and brace |
| JsonCursor.Parser.ParseString | crates/obby-client/src/json.rs:200-221 | the string loop, escapes included |
| JsonCursor.Parser.ParseUnicodeEscape | crates/obby-client/src/json.rs:239-253 | what the cursor makes of an escape with one unit or two, and where it stands afterwards |
| JsonGrammar.UnitReadsBack | crates/obby-client/src/json.rs:239-253 | every character of the basic plane is read from its four digits, of either case |
| JsonGrammar.PairReadsBack | crates/obby-client/src/json.rs:239-253 | every character beyond it is read from its surrogate pair |
| JsonGrammar.SurrogateIsRefusedIff | crates/obby-client/src/json.rs:239-253 | a surrogate is refused if and only if it is not the high half of a pair |
| Signals.ValueIsTheFrame | crates/obby-client/src/voice.rs:617-922 | every one of the nineteen frames is read back from its own JSON object, every optional field included |
| Signals.JsonIsTheFrame | crates/obby-client/src/voice.rs:603-615 | every frame reads back from its JSON text |
| Signals.AnySpellingIsTheFrame | crates/obby-client/src/voice.rs:603-922 | any JSON text of any object with a frame's fields, in any order and among others, is read as that frame |
| Signals.SignalLineIsOneLine | crates/obby-client/src/client.rs:835-840 | whatever text a frame holds, the printed line holds no line end |
| Signals.CarriedFrameArrives | crates/obby-client/src/client.rs:1544-1568 | any well-formed line that carries a frame, such as one a server put a source in front of, is read as that frame |
| Signals.FrameSurvivesTheWire | crates/obby-client/src/client.rs:835-840 | for every frame and every channel without line ends the printed line is parsed to the same channel and frame |
| Calendar.NextDayIsOneMore | crates/obby-proto/src/servertime.rs:92-102 | the count of the next calendar day is one more, under the rule of 4, 100 and 400, for every year |
| Calendar.LaterDateCountsMore | crates/obby-proto/src/servertime.rs:92-102 | later dates have larger counts |
| Calendar.CountOfComputedDate | crates/obby-proto/src/servertime.rs:107-123 | the date computed from a count is a valid date with that count |
| Calendar.ComputedDateOfCount | crates/obby-proto/src/servertime.rs:92-123 | the date computed from the count of a valid date is that date |
| Calendar.AgreesWithTheWalk | crates/obby-proto/src/servertime.rs:92-123 | both algorithms agree with walking the calendar from 1970-01-01 one day at a time |
| ServerTime.FormatReadsBackIff | crates/obby-proto/src/servertime.rs:17-72 | a formatted instant reads back up to the end of the year 9999 and is refused after it |
| ServerTime.WholeSecondsAreRead | crates/obby-proto/src/servertime.rs:17-53 | a text without a fraction is read if and only if each number is in its range and the instant is not before 1970, as the instant they make |
| ServerTime.FractionsAreRead | crates/obby-proto/src/servertime.rs:17-88 | and with a fraction of any number of digits, cut to whole milliseconds; anything else for a fraction is refused |
| ServerTime.LaterInstantLaterDate | crates/obby-proto/src/servertime.rs:107-123 | a later day has a later date |
| ServerTime.LateDayRollsOver | crates/obby-proto/src/servertime.rs:22-37 | a day past the end of its month counts into the next |
| ServerTime.CountLeadsBackIff | crates/obby-proto/src/servertime.rs:92-123 | from 1970 on, the date computed from the count of any day 1 to 31 of a month is that day if and only if the month has it |
| ServerTime.ReadTextIsWrittenBackIff | crates/obby-proto/src/servertime.rs:17-72 | a text with any such day is read, and formatting what was read gives the text back if and only if the month has that day |
| ServerTime.ParsedFits | crates/obby-proto/src/servertime.rs:48-53 | whatever is read is an instant in range |
| ServerTime.SumsStayInRange | crates/obby-proto/src/servertime.rs:48-53 | no checked operation can overflow once the year is limited |
| Sdp.CharChunks | crates/obby-client/src/voice.rs:978-997 | the pieces join to the input, are whole characters, fit the budget unless a single wider character, and none had room for the next character |
| Sdp.ChunkingIsUnique | crates/obby-client/src/voice.rs:978-997 | there is only one such cutting |
| Sdp.SplitSdp | crates/obby-client/src/voice.rs:951-971 | text is left whole exactly when it fits or the budget is zero; otherwise the numbered pieces of that cutting |
| Sdp.SdpReassembler.Push | crates/obby-client/src/voice.rs:1046-1074 | the state after a chunk, the joined text with the last missing one, and the bounds |
| Sdp.ChunkIsTakenDown | crates/obby-client/src/voice.rs:1046-1074 | an ill-fitting chunk changes nothing, and any other is taken down in its place and touches no other text |
| Sdp.AnyOrderGivesTheTextBack | crates/obby-client/src/voice.rs:951-1074 | in any order, with repeats, among other texts, the last missing piece answers the original and every other nothing |
| Sdp.AlwaysBounded | crates/obby-client/src/voice.rs:1046-1074 | whatever is fed, no more texts and parts are held than allowed |
| Framing.Framer.HandleBytes | crates/obby-client/src/client.rs:1016-1040 | the buffer, the discard mark and the lines handed on after a read |
| Framing.OnlyWholeLinesInOrder | crates/obby-client/src/client.rs:1016-1040 | for every cutting of a stream, the lines handed on are whole lines in order with none missing but too long ones, and the buffer holds no newline and no more than the limit |
| Framing.ShortLinesAreSelected | crates/obby-client/src/client.rs:1016-1040 | every line of legal length is handed on |
| Framing.CuttingDoesNotMatter | crates/obby-client/src/client.rs:1016-1040 | when all lines are of legal length, two cuttings hand on the same lines |
| Framing.NextConnectionIsCleanIff | crates/obby-client/src/client.rs:366-392 | the next connection is cut correctly if and only if nothing was left over |
| Framing.NextConnectionIsCleanAfter | crates/obby-client/src/client.rs:366-392 | which, after any reads, is if and only if nothing of their stream came after its last newline |
| MessageLogs.MessageLog.Insert | crates/obby-client/src/model.rs:201-241 | whether a message is new, and the log afterwards, trimmed from the least key |
| MessageLogs.InsertKeepsAgreement | crates/obby-client/src/model.rs:201-241 | index and messages agree both ways and the limit holds after every insertion under a fresh key |
| MessageLogs.OverwritingKeepsAgreementIff | crates/obby-client/src/model.rs:201-215 | under a key in use they still agree exactly when the replaced message had no id |
| MessageLogs.TheGreatestStay | crates/obby-client/src/model.rs:201-241 | after distinct messages in any order the log holds exactly those with the greatest keys |
| MessageLogs.DroppedIffRepeated | crates/obby-client/src/model.rs:201-241 | a message is dropped if and only if a held one says the same: by its id, or without one by instant, sender, kind and text |
| MessageLogs.RepeatsAreDropped | crates/obby-client/src/model.rs:201-241 | while there is room, after any arrivals the log holds exactly those that do not repeat an earlier one that stayed |
| MessageLogs.ArrivalOrderDoesNotMatter | crates/obby-client/src/model.rs:201-241 | two orders of arrival give the same messages and the same index |
| Mentions.Mentions | crates/obby-client/src/session.rs:121-141 | the search loop over the folded text |
| Mentions.SearchIsExactIff | crates/obby-client/src/session.rs:121-141 | the search for the folded nick in the folded text is right about every text if and only if the folded nick cannot hide itself |
| Mentions.OrdinaryNicksAreFound | crates/obby-client/src/session.rs:108-114 | a nick of nick characters alone cannot hide itself |
| Casemap.SameNameIff | crates/obby-proto/src/casemap.rs:37-53 | two names are one exactly when they are alike at every place, by the letters and each mapping's own pairs |
| ModelMessages.ChannelMessageIsFiled | crates/obby-client/src/session.rs:221-320 | a message to a channel of ours goes into its log alone, with the line's own sender and text, and counts exactly if it is new, not ours and not history |
| ModelMessages.PrivateMessageIsFiled | crates/obby-client/src/session.rs:221-320 | a private message from another goes into the conversation with its sender, and counts likewise |
| ModelMessages.OwnMessageIsFiled | crates/obby-client/src/session.rs:221-320 | one of our own goes into the conversation with the one it was sent to, and never counts |
| ModelMessages.StrangeChannelIsIgnored | crates/obby-client/src/session.rs:221-320 | a message to a channel we are not in is kept nowhere |
| ModelMessages.EveryTargetIsOne | crates/obby-client/src/session.rs:272-284 | every target is a name with STATUSMSG characters in front, so one of these four holds of every line |
| ModelMessages.ReactionIff | crates/obby-client/src/session.rs:581-623 | a TAGMSG is taken for a reaction exactly when it reacts to a message its target's log holds |
| ModelMessages.ReactionIsNoMessage | crates/obby-client/src/session.rs:221-243 | a reaction or a link preview changes no log, no count and not the clock |
| ModelMessages.MarkReadResetsCounts | crates/obby-client/src/session.rs:770-793 | MARKREAD takes down the marker and clears the counts of exactly the place it names |
| Membership.EntryNickIs | crates/obby-client/src/session.rs:552-558 | every NAMES entry names exactly one nick, after any prefixes and before any hostmask |
| Membership.OurNickIs | crates/obby-client/src/session.rs:399-410 | our nick is the last one settled on or given by a NICK line of ours |
| Membership.RollIsAsSaid | crates/obby-client/src/session.rs:323-433 | after every run we are in exactly the channels its lines left us in, and in each is exactly who they left there |
| Membership.KnownAsSaid | crates/obby-client/src/model.rs:712-722 | after every line there are records of exactly those it makes or leaves known |
| Membership.WhoisLineIsFiled | crates/obby-client/src/model.rs:626-648 | a WHOIS line goes on with the record under way or starts one, and a full table gives up exactly one record for it |
| Membership.WhoisEndCompletes | crates/obby-client/src/session.rs:451-465 | the closing line completes that record and touches no other |
| Membership.LostConnectionForgets | crates/obby-client/src/client.rs:366-382 | a lost connection empties the channels and the WHOIS table, and nothing else |
| ModelMethods.Model.Apply | crates/obby-client/src/session.rs:187-218 | the dispatcher leaves the model as the line's own rule says |
| ModelMethods.Model.HandleMessage | crates/obby-client/src/session.rs:221-320 | which log a message goes to, and what is counted |
| ModelMethods.Model.Rename | crates/obby-client/src/model.rs:675-693 | every membership, the conversation, the person and our own nick move together |
| ModelMethods.Model.ForgetStrangers | crates/obby-client/src/model.rs:712-722 | exactly those we share nothing with are forgotten |
| ModelMethods.Model.WhoisRecord | crates/obby-client/src/model.rs:626-648 | a full table makes room for a new record by dropping the first complete one in key order, or the first |
| ModelIntegrity.LineKeepsMembers | crates/obby-client/src/session.rs:187-433 | whatever line arrives, every channel member still has a person record |
| ModelIntegrity.LineKeepsLogs | crates/obby-client/src/model.rs:521-525 | whatever line arrives, the messages of all logs have numbers of their own below the next, in logs whose index agrees |
| ModelIntegrity.LineKeepsCounts | crates/obby-client/src/session.rs:295-312 | whatever line arrives, mentions do not outnumber unread |
| ModelIntegrity.LineKeepsWhoisBounded | crates/obby-client/src/model.rs:626-648 | whatever line arrives, at most 64 WHOIS records are held |
| ModelIntegrity.ChannelsComeFromUs | crates/obby-client/src/session.rs:323-433 | a channel becomes known only by our own JOIN or by RENAME of one we are in |
| ModelIntegrity.EveryChannelIsOurs | crates/obby-client/src/session.rs:323-433 | after every run each channel goes back to our own JOIN, through RENAMEs of channels of ours |
| ModelIntegrity.FilingGrowsOneLog | crates/obby-client/src/session.rs:288-312 | a message goes into exactly one log, and every other log stays as it was |
| ModelIntegrity.NickChangeIsUndone | crates/obby-client/src/model.rs:675-693 | a change to a nick nobody has loses nothing: changing back restores every membership, record and log |
| ModelIntegrity.ChannelRenameIsUndone | crates/obby-client/src/model.rs:699-706 | a channel renamed to a free name and back is as it was, but for the spelling of its name |
| ModelIntegrity.EveryRunIsSound | crates/obby-client/src/session.rs:187-930 | members, logs, counts, WHOIS records and the origin of channels together, after every run of lines, nick changes and lost connections, until the counter would wrap; what the server advertises may change before every line |
| Caps.Capabilities.Acknowledge | crates/obby-client/src/caps.rs:129-149 | what is held and what is still waited for after an acknowledgement, token by token |
| Caps.WaitingUntilAnswered | crates/obby-client/src/caps.rs:95-157 | a name stays on the waiting list exactly while no answer names it, and no reply puts one on |
| Caps.HeldOnlyByAck | crates/obby-client/src/caps.rs:129-149 | only an acknowledgement makes us hold a capability, and only one it names without a minus |
| Caps.TokensAreTheWords | crates/obby-client/src/caps.rs:95-157 | whatever white space there is before, between and after them, the words of a list come out |
| CapabilityRuns.CapabilitiesAreAsSaid | crates/obby-client/src/caps.rs:95-157 | after every run what is on offer, held and waited for is what the words of the lines say, values included, and an event asks for a capability exactly if it completes a list and the capability is wanted, on offer, not held and not waited for |
| CapabilityRuns.WantedIsAskedFor | crates/obby-client/src/client.rs:1381-1393 | every wanted capability shown since the connection was last lost has been asked for, or has been held |
| CapabilityRuns.OnlyWantedIsAskedFor | crates/obby-client/src/client.rs:1381-1393 | and nothing else is ever asked for |
| CapabilityRuns.GrantedIsHeld | crates/obby-client/src/caps.rs:129-149 | an acknowledgement whose last word about a capability has no minus makes it held |
| CapabilityRuns.HeldSaslIsTriedIff | crates/obby-client/src/client.rs:1395-1424 | when `CAP END` goes out while `sasl` is held, and was never held without our mechanism, the exchange has been opened if and only if the server did not cut it short first |
| CapabilityRuns.SettledListOpensTheExchange | crates/obby-client/src/client.rs:1395-1424 | the answer that leaves nothing to wait for opens the exchange and nothing else, when `sasl` is held with our mechanism |
| CapabilityRuns.OpeningIsSent | crates/obby-client/src/client.rs:1427-1475 | the first challenge gets the whole opening payload |
| CapabilityRuns.ExchangeIsCarriedThrough | crates/obby-client/src/client.rs:1427-1513 | an exchange carried through sends opening, answer and closing plus, each readable line by line |
| CapabilityRuns.FailureSettles | crates/obby-client/src/client.rs:1427-1513 | a challenge that cannot be answered or verified settles the exchange and sends no payload more |
| Sasl.LinesAreReceived | crates/obby-client/src/sasl.rs:107-121 | a receiver that reads until a line is not full gets exactly the payload and stops at its end, whatever follows |
| Sasl.EncodeResponse | crates/obby-client/src/sasl.rs:107-121 | the chunks and the closing plus |
| Text.LowerIff | crates/obby-client/src/sasl.rs:131-139 | two texts compare equal without regard to case exactly when they have the same letters at every place |
| Sasl.OffersWhatIsListed | crates/obby-client/src/sasl.rs:131-139 | a list offers exactly the mechanisms in it, whatever their case, and no list offers any |
| Negotiation.Client.HandleCap | crates/obby-client/src/client.rs:1344-1379 | phase, capabilities, authentication and outbox after any CAP line |
| Negotiation.Client.HandleAuthenticate | crates/obby-client/src/client.rs:1427-1513 | the same after any AUTHENTICATE line |
| NegotiationRuns.CapEndAtMostOnce | crates/obby-client/src/client.rs:1395-1404 | over every run `CAP END` is sent at most once a connection: none while negotiating, exactly one when waiting for the welcome |
| NegotiationRuns.CapEndOnlyWhenReady | crates/obby-client/src/client.rs:1395-1424 | and only with no request pending, no exchange in flight, and the exchange settled if we hold `sasl` and have credentials |
| NegotiationRuns.NeverStuckOnceListed | crates/obby-client/src/client.rs:1344-1424 | after the final list, a negotiating client has a request pending or an exchange in flight |
| NegotiationRuns.EveryWaitWasAskedFor | crates/obby-client/src/client.rs:1381-1424 | every pending capability was asked for, and the exchange was opened once if in flight and never twice |
| NegotiationRuns.AnsweredMeansEnded | crates/obby-client/src/client.rs:1395-1404 | a server that lists and answers everything is enough: negotiation is over, with one `CAP END` if the welcome is still to come |
| NegotiationRuns.HeldIsNeverPending | crates/obby-client/src/caps.rs:113-149 | what is held is never still waited for |
| Scram.Stretch | crates/obby-client/src/scram.rs:167-177 | the loop computes Hi of section 2.2 of RFC 5802 |
| Scram.ConstantTimeEq | crates/obby-client/src/scram.rs:211-219 | the gathered difference is zero exactly for equal values |
| Scram.UsernameReadsBack | crates/obby-client/src/scram.rs:206-208 | no username can end its field early, and every one reads back |
| Scram.FirstMessageReadsBack | crates/obby-client/src/scram.rs:73-88 | the server reads the username and the nonce out of the first message unchanged |
| Scram.NonceIsKept | crates/obby-client/src/scram.rs:187-203 | a nonce of letters and digits is kept up to its first 24, and an empty one becomes `0` |
| Scram.OthersAreDropped | crates/obby-client/src/scram.rs:187-203 | any other character might as well not be there |
| Scram.AnsweredIff | crates/obby-client/src/scram.rs:91-134 | a challenge of three fields is answered if and only if its nonce goes on from ours, its count is from 1 to a million and its salt is base64, with the error of the first to fail |
| Scram.ForeignNonceIsRefused | crates/obby-client/src/scram.rs:100-104 | a server is told `NonceMismatch` exactly when its nonce does not go on from ours, whatever its salt and count |
| Scram.CountIsRefusedIff | crates/obby-client/src/scram.rs:105-107 | a server that goes on from our nonce is refused exactly for a count of zero or above the maximum |
| Scram.Exchange.ClientFinal | crates/obby-client/src/scram.rs:91-134 | the proof and what is kept to check the server, or the error of the field that failed |
| Scram.Exchange.Verify | crates/obby-client/src/scram.rs:140-154 | the closing message is accepted exactly when its signature is the server's over this exchange |
| Scram.HonestRunSucceeds | crates/obby-client/src/scram.rs:73-154 | the server of RFC 5802 recovers the client key and accepts, and the client accepts that server |
| Batches.Tracker.Route | crates/obby-client/src/batch.rs:166-179 | where a line goes, or that it is handed back |
| Batches.MarkedIff | crates/obby-client/src/batch.rs:121-160 | a first parameter is marked exactly when it is the marker and then the reference |
| Batches.Tracker.IsWithin | crates/obby-client/src/batch.rs:188-208 | true exactly when an open batch reachable through parents has the kind, cycles included |
| Batches.CycleHidesNothing | crates/obby-client/src/batch.rs:188-208 | past as many steps as there are open batches no new ancestor can follow, so the counter cuts no answer |
| Batches.EveryBatchTellsItsOwnStory | crates/obby-client/src/batch.rs:57-179 | after any interleaving each open batch holds what its own lines since its accepted open say, and no more are open than allowed |
| Batches.CloseReturnsItsOwnLines | crates/obby-client/src/batch.rs:155-160 | closing returns the first distinct lines routed to that reference, marked exactly when there were more |
| Batches.HandedBackIffNotHeld | crates/obby-client/src/batch.rs:166-179 | a line is handed back exactly when its tag names no open reference |
| Batches.DistinctKeepsEachIdOnce | crates/obby-client/src/batch.rs:57-75 | dropping repeats keeps every id exactly once |
| Batches.DistinctKeepsTheFirst | crates/obby-client/src/batch.rs:57-75 | the line kept for an id is the first that had it |
| Batches.DistinctKeepsTheRest | crates/obby-client/src/batch.rs:57-75 | lines without an id all stay, in order |
| Multiline.JoinMultiline | crates/obby-client/src/client.rs:1792-1822 | the joining loop |
| Multiline.OneMessageKeepsItsText | crates/obby-client/src/client.rs:1792-1822 | the lines of one message become one, and keep their whole text exactly when the first has a text parameter or there is none |
| Multiline.NextLineJoins | crates/obby-client/src/client.rs:1792-1822 | one more line goes on where the text ended if it carries the tag that says so, and on a new line if it does not |
| Multiline.BreaksSplit | crates/obby-client/src/client.rs:1792-1822 | a line that does not go on from the one just before it, by kind, command or target, starts a message of its own and settles all before it |
| Timers.DrainDue | crates/obby-client/src/timer.rs:167-184 | exactly the due entries leave, by deadline and then by key |
| Timers.DrainIsUnique | crates/obby-client/src/timer.rs:167-184 | there is only one such list |
| Timers.TwoDrainsAreOne | crates/obby-client/src/timer.rs:167-184 | draining at one instant and then at a later one is draining once at the later one |
| Timers.TimerSet.Next | crates/obby-client/src/timer.rs:90-92 | nothing falls due before the instant given, and something does then |
| Timers.ReconnectBackoff.NextDelay | crates/obby-client/src/timer.rs:132-142 | the delay is the base doubled for every attempt, up to the cap, in spite of the saturating shift and product |
| Timers.DelaysDouble | crates/obby-client/src/timer.rs:132-142 | delays double until the cap and never shrink |
| Labels.LabelTable.Resolve | crates/obby-client/src/label.rs:80-102 | which request a line answers, and both tables afterwards |
| Labels.LabelTable.Expire | crates/obby-client/src/label.rs:106-118 | the requests that are due, earliest first, and both tables afterwards |
| Labels.LabelsDiffer | crates/obby-client/src/label.rs:57-60 | no label is generated twice |
| Labels.EveryRequestIsAccountedFor | crates/obby-client/src/label.rs:57-118 | after every run outstanding, resolved and expired requests are disjoint and together are those registered, each with its own data |
| Labels.LineAnswersItsOwnRequest | crates/obby-client/src/label.rs:80-102 | a line reports the request whose label it carries, or for a closed batch the one its last accepted opening carried, and no other |
| Labels.DeadlinesAreKept | crates/obby-client/src/label.rs:57-118 | a request keeps the deadline it was registered with for as long as it is outstanding |
| Labels.ExpiresOnTime | crates/obby-client/src/label.rs:106-118 | time running out reports exactly the outstanding requests with a deadline by then, and leaves the others |
| Labels.ReportedAtMostOnce | crates/obby-client/src/label.rs:80-118 | no request is reported twice, whatever the server sends |

## Left out

- Byte encodings of keys, headers and signatures, base64 and the sealing primitive: they are terms, or functions given from
  outside. The internal errors that only a misused primitive could raise do not occur.
- Randomness: fresh secrets are parameters of the step that draws them, and a step may not draw one that is in use.
- The room a voice frame is applied to, and the checks for typing, monitor, bots and tokens.
- `Handshake.FingerprintsTellKeysApart`: the fingerprint is taken to be free of collisions, where the source cuts a SHA-256
  digest to 16 bytes; `SessionTheorems.OnePeerWithoutConfirmation` rests on it.
- `ForwardSecrecy.StateGivesAwayIff`: is about epochs up to the party's own and a sending counter below its maximum.
- `Framing.Framer.HandleBytes`: the lossy decoding of a line to text and the count of dropped lines are not modelled.
- `Batches.Tracker.Route`: a batch in the table is a value that is put back, where the source changes it through a reference.
- `ModelMethods.Model.Apply`: topics, modes, membership prefixes, metadata values, reactions, redaction, typing and the
  fields of a person or WHOIS record other than the nick and completeness are not part of the state. A CTCP body, a link
  preview and which characters are letters are decided by functions given from outside.
- `ModelMethods.Model.HandleMessage`: a log is a value inside its channel, where the source changes it through a reference.
- `ModelIntegrity.EveryRunIsSound`: stops before the 64-bit message counter wraps, since numbers repeat after that.
- `Negotiation.Client.HandleAuthenticate`: whether a challenge decodes, what SCRAM answers and whether the server verifies
  are inputs here; `Scram` models how they come about. Events to the host are not recorded.
- `Sdp.CharChunks`: characters are taken apart by the width their first byte announces; overlong and surrogate encodings are
  not told apart from others.
- `Sdp.SplitSdp`: saturates its 32-bit numbers as the source does; reading back is proved for texts of no more pieces.
- `Labels.EveryRequestIsAccountedFor`: takes labels from the generator only and does not let its counter overflow.
- `Scram.HonestRunSucceeds`: messages are text; refusing bytes that are not UTF-8 is not modelled.
- Serialisation of the model, debug output, bindings, and the parsers of ISUPPORT, modes and formatting.
