# The GSPro Connect server core, modelled and proved

The library under `src/` speaks the server's side of GSPro Connect without a socket of its own: a host
hands it bytes and times and polls three rings. This project models that library, with the transport and the
recorder built on it, and proves what its documentation and its tests promise.

How the model is laid out:

- **Specification functions** give the meaning of each operation on values: sequences of octets,
  sequences of events, records of counters. They take the branches the C code takes.
- **Classes** do the same work in place, with the loops, arrays and counters of the C code:
  `Frame.Framer`, `Reader.Cursor`, `Encode.Out`, `Redact.Redactor`, `Rings.Ring`, `EventLog.EventRing`,
  `WireLog.WireRing`, `Core.Core`, `Connection.Connection`, `Host.Host`, `Record.Recorder`,
  `Record.Reader`, `Replay.Replay`, `Net.Slot` and `Net.Net`. Each method's `ensures` equates the new
  state with its specification function of the old one.
- **Lemmas** about the specification functions state what a host, a client or a reader of a capture
  may rely on: for every JSON text, for every cutting of a stream, for every run of calls.

| files | what they cover |
|---|---|
| `Bytes`, `Json`, `Text`, `Numbers`, `Message`, `Protocol`, `Events` | octets, JSON as it is spelled, UTF-8, numbers, the protocol's names, the server's vocabulary |
| `Frame`, `FrameJson` | the brace-depth automaton and the stateless scan; printed JSON objects are framed whole |
| `Reader`, `Decode`, `Decoder`, `SkipJson`, `DecodeJson`, `LastWins` | the bounded cursor reader, what it makes of any printed JSON object |
| `Grammar`, `Accepted` | which texts decode at all, JSON or not |
| `Classify` | what kind a message is and which findings are noted on it, in the words of its members |
| `Encode`, `RoundTrip`, `Sizes` | the two-pass writer, responses read back, which of them fit a request |
| `EncodeMessage`, `MessageRoundTrip` | the client's messages written compact or indented, and read back |
| `Layouts`, `MessageLayout` | how strings, responses, messages, records and masks are spelled, octet by octet |
| `Redact`, `RedactJson`, `RedactDecode`, `MaskedFields` | the streaming redactor, and what masking does to JSON and to a decoded message |
| `Rings`, `EventLog`, `WireLog`, `Logs`, `Lives`, `Mails`, `Accounts`, `Captures` | rings in place; what the logs, the connections' lives, their accounts of their messages, the write queues and the capture of what was sent keep |
| `Hub`, `Conns`, `Server` | the server's calls as functions |
| `Core`, `Connection`, `Host` | the server in place |
| `Serving`, `Streams`, `Delivery`, `Replies`, `Leading`, `Sending` | what one call does to streams, replies and queues |
| `Answers`, `Failures`, `Opening` | what a message or an error is answered with, reported and taken down as; what opening and closing do |
| `Dates` | when events and chunks are dated, and how messages are numbered |
| `Fates` | what a call will do, told from the state before it |
| `Runs`, `Promises`, `EndOfTime` | what every run keeps, what follows for a host, and the one tick that breaks it |
| `Record`, `Playback`, `Replay`, `Playing`, `Exchange` | the `.gswire` record area; a capture replayed into a server, as a fold over its chunks and in place, and what of it arrives |
| `Resuming`, `Stalls`, `TwoRounds`, `Endless` | when a replay ends |
| `Witnesses` | runs from a new server on which the code departs from its comments |
| `Linking`, `Net` | the transport over sockets that do as they please |

Conventions. A byte is an integer below 256. 32-bit counters wrap (`Inc32`); `int64_t` times and
the sentinels for "never", "unknown" and "no shot yet" are integers with the same values. The C
library's `strtod` and `printf("%.*g")` are parameters, and `Numbers.Sound` is the one thing assumed
of them: seventeen digits read back, the text is a number token of at most 24 octets, small integers
are read as themselves. Three results ask for one thing more, and name it: that no run of mask text
is a number (`MaskedFields.MaskIsNoNumber`), that 64-bit integers are read whole and rounded
(`MessageRoundTrip.RoundsIntegers`), and that `strtod` answers doubles (`MessageRoundTrip.YieldsDoubles`). The text of a connection's line in the wire log is a parameter too.
Fields named in a comment as *history* (what was ever emitted, offered, delivered, queued) are
never read by the modelled code: they exist to be talked about.

## Where the code and its comments differ

The model follows the code, and the theorems say what is true of it.

- "A slot free now is still free when the object closes" (`src/gs_server.c:921`) holds within a call,
  not between calls. `Delivery.RepliesForetold` gives the exact condition for one reply per message,
  on the state before the call, and `Witnesses.StraddlingReached` is a run of five calls that delivers
  a message without one.
- The bound on an object is tested behind its closing brace, so an object of `max_message_bytes + 1`
  octets is delivered (`Streams.Deliverable`, and as a run `Witnesses.OverlongReached`).
- "THE ONE PLACE BYTES CAN BE LOST" (`src/gs_server.c:1260`) is not the only one: bytes handed over
  while the receive buffer is full go missing without a report if framing then makes room, a state that
  the comment at `src/gs_server.c:1239` rules out and that a refusal leaves when it retains exactly a
  buffer's worth (`Witnesses.MissingReached`). And in the one place more is lost than the bytes it
  names: `reset_rx` takes what was pending in the buffer with them (`Witnesses.LostReached`).
  `Delivery.MissingExactly` gives both, with their number and their conditions on the state before the
  call.
- A tick at the very end of time (`INT64_MAX`) repeats an idle event, because the deadline that
  means "never" has then passed. `EndOfTime.TickExactly` says when a tick keeps the invariant, both
  ways, and `EndOfTime.IdleTwiceReached` is a run of three calls that says idle twice;
  `Runs.EveryRun` asks for earlier ticks.
- An acknowledgement text whose escaped form is longer than 230 octets is never sent
  (`Replies.AnswersFitExactly`): 39 control octets, of the 63 its field holds, are enough
  (`Witnesses.AckNeverSent`).
- Replaying into a server with write spacing on need not end: a held reply keeps the ring full at the
  recorded time, and draining and resuming changes nothing about that. `TwoRounds.EndsExactly` tells
  from the drained server whether the loop ends, both ways, and that two rounds decide it;
  `Endless.StallReached` is one chunk of three messages on which it does not. The totals of a replay
  balance whether it ends or not (`Playback.PlayedBalanced`).
- The redactor compares a key as it is spelled, the decoder as it reads: a device id under a key
  spelled with an escape is not masked (`RedactDecode.EscapedKeyIsMissed`). `RedactDecode.DeviceIdHidden`
  says of any message when its device id is hidden, both ways.
- A message that arrived with an infinity spelled in a string, encoded again, says zero there
  (`MessageRoundTrip.EncodedDecodesExactly`).

## Model

| member | source | states |
|---|---|---|
| Frame.Framer.Feed | src/gs_frame.h:62-99 | one byte moves depth, string and escape exactly as the automaton says, and reports the step |
| Frame.CutConcat | src/gs_frame.h:62-99 | what a stream is cut into does not depend on how it is split into reads |
| Frame.FrameFind | src/gs_frame.c:15-57 | the loop over the buffer finds what scanning with the automaton finds |
| Frame.FindMeaning | src/gs_frame.c:15-57 | complete, pending and malformed are each reported exactly when the stream's cut says so, and a complete object ends at the first byte where one is complete |
| Frame.FoundIsClean | src/gs_frame.c:15-57 | up to the end of a found object the stream is cut into that object and nothing else |
| Frame.FindAllIsCut | src/gs_frame.c:15-57 | finding objects one after the other agrees with the incremental automaton on every stream |
| Frame.WeaveIsCut | src/gs_frame.h:22-38 | whole objects are cut back into themselves whatever whitespace is between them |
| Frame.ObjectPrefixPending | src/gs_frame.c:15-57 | no proper prefix of a whole object is ever reported complete or malformed |
| FrameJson.PrintedObject | src/gs_frame.h:62-99 | every printed JSON object nested less than 2^32 deep is one whole object, whatever its strings contain |
| Text.EscapedScalarsMean | src/gs_decode.c:119-164 | Unicode scalar values written as escapes and surrogate pairs mean their UTF-8 encoding |
| Text.Utf8ReadsBack | src/gs_decode.c:119-136 | the encoding is the one a decoder written from RFC 3629's table reads |
| Numbers.FormatReadsBack | src/gs_encode.c:112-132 | a finite double survives being printed and read; anything else comes back as zero |
| Reader.Put | src/gs_decode.c:104-117 | the bounded output holds what fits of what was put, and the flag says whether something did not |
| Reader.PutUtf8 | src/gs_decode.c:119-136 | the same for one encoded code point |
| Reader.Cursor.TakeString | src/gs_decode.c:166-232 | a string literal is read to its closing quote, and the field holds as a C string what fits of its meaning, truncation being flagged exactly when something was cut |
| Reader.Cursor.TakeNumber | src/gs_decode.c:234-266 | a number token is read exactly when `strtod` takes all of it and it is short enough |
| Reader.Cursor.TakeLiteral | src/gs_decode.c:268-292 | true, false and null are read exactly when spelled out |
| Reader.Cursor.SkipStructure | src/gs_decode.c:299-336 | the nesting counter skips exactly what its byte-wise specification skips |
| Reader.Cursor.SkipAny | src/gs_decode.c:338-357 | any value is skipped or refused as specified |
| Reader.Cursor.TakeMember | src/gs_decode.c:535-554 | the next member, the end of the object, or malformed, as specified |
| Reader.SpaceIgnored | src/gs_decode.c:44-49 | leading whitespace changes no reading |
| Message.LookupKey | src/gs_decode.c:476-527 | an exact match anywhere in the table comes before a match but for case |
| Decoder.TakeNumberMember | src/gs_decode.c:564-597 | numbers, numbers in strings, and absence |
| Decoder.TakeBoolMember | src/gs_decode.c:599-641 | booleans, their spellings, numbers as booleans, and absence |
| Decoder.TakeStringMember | src/gs_decode.c:643-663 | strings cut to their field |
| Decoder.TakeNumericSection | src/gs_decode.c:669-714 | a section's members read in order, unknown ones skipped and counted |
| Decoder.TakeOptions | src/gs_decode.c:716-759 | the same for the options |
| Decoder.MessageDecode | src/gs_decode.c:781-989 | the cursor loop, its classification and its flag pass decode what the specification decodes; what that is, the rows of `Accepted`, `LastWins` and `Classify` say |
| Decoder.ResponseDecode | src/gs_decode.c:1050-1124 | the same for responses, with `Accepted.ResponseExactly` and `LastWins.ResponseLastWins` |
| SkipJson.StructureSkipped | src/gs_decode.c:299-336 | a printed value is skipped whole exactly when it is nested at most 32 deep |
| Grammar.StructureSeen | src/gs_decode.c:299-336 | whatever octets the nesting counter passes over as a structure are one: brackets of either kind balanced outside strings, at most 32 deep |
| Grammar.StructureTaken | src/gs_decode.c:299-336 | and every such structure is passed over whole, whatever follows |
| Grammar.ValuePassed | src/gs_decode.c:338-357 | whatever is passed over as a value is a word, a number `strtod` takes whole, a string literal or such a structure |
| Grammar.ValueTaken | src/gs_decode.c:338-357 | and every one of these is passed over, whatever whitespace is before it |
| Accepted.MessageExactly | src/gs_decode.c:781-917 | of all octet sequences exactly those decode that are an object with whitespace around it: members with commas between them, each a string, a colon and a value, where a known section that is an object is one of the same kind |
| Accepted.ResponseExactly | src/gs_decode.c:1050-1124 | the same for responses, with the player for a section |
| DecodeJson.StringMemberPrinted | src/gs_decode.c:643-663 | a printed value is read as the string it is, cut to the field, or is absent |
| DecodeJson.NumberMemberPrinted | src/gs_decode.c:564-597 | a printed value is read as the number it is or spells, or is absent |
| DecodeJson.MessagePrinted | src/gs_decode.c:781-989 | a printed JSON object, whitespace around it, decodes into the fold of its members exactly when every value is one the reader can get past |
| DecodeJson.ResponsePrinted | src/gs_decode.c:1050-1124 | the same for responses |
| LastWins.LookupPrefersExact | src/gs_decode.c:476-491 | an entry is found exactly if one is spelled like the key, and a case mismatch is noted only without an exact one |
| LastWins.SectionLastWins | src/gs_decode.c:669-714 | a section's field is the last number given for it, or what was there |
| LastWins.OptionsLastWin | src/gs_decode.c:716-759 | an option is the last truth value given for it |
| LastWins.RootLastWins | src/gs_decode.c:838-905 | device id, units, version and shot number are the last values given; a later null changes nothing |
| LastWins.SectionsLastWin | src/gs_decode.c:838-905 | a field of a section is the last value given for it in any object known as that section |
| LastWins.ResponseLastWins | src/gs_decode.c:1050-1124 | a response's code, message and player fields are the last values given for them, and there is a player exactly if some object is known as one |
| Classify.MessageKind | src/gs_decode.c:943-949 | a printed object that decodes is a shot exactly if the last truth value given for ball data or for club data is true, a heartbeat exactly if neither is and the last one given for a heartbeat is, a status otherwise |
| Classify.MessageFlags | src/gs_decode.c:920-988 | each of the findings, one if-and-only-if each, in terms of the members that are there, the option values, the numbers measured and the names spelled |
| Classify.RootNamed | src/gs_decode.c:445-455 | a member is known as a message's field exactly if its key is that name, but for case |
| Classify.BallNamed | src/gs_decode.c:388-399 | the same for the ball's fields |
| Classify.ClubNamed | src/gs_decode.c:401-420 | for the club's |
| Classify.OptionNamed | src/gs_decode.c:422-433 | and for the options |
| Classify.TruthsMean | src/gs_decode.c:599-641 | which values are true, which are false and which say nothing, and which were converted |
| Classify.NumbersMean | src/gs_decode.c:564-597 | which values are a number, and which one |
| Classify.StringsMean | src/gs_decode.c:643-663 | which values are a text, what of it is kept and when that is noted |
| Numbers.ClampMeans | src/gs_decode.c:761-775 | a double as a 64-bit integer: cut toward zero, clamped at both ends, zero for no number |
| Encode.ResponseEncode | src/gs_encode.c:217-250 | the measuring pass decides, the writing pass stores exactly the response and a terminator, and a buffer too small is untouched |
| Encode.Out.JsonString | src/gs_encode.c:65-97 | a string literal escaped as JSON demands, measured or stored alike |
| Layouts.EscapeSpelled | src/gs_encode.c:65-97 | every octet of a string, as RFC 8259 has it: by its letter, by four hex digits, or as it is |
| Layouts.EscapeRead | src/gs_decode.c:166-232 | the escapes of one letter, both ways |
| Layouts.ResponseSpelled | src/gs_encode.c:201-215 | code, message and player in this order with nothing between them but commas, names and texts quoted |
| Layouts.PlayerSpelled | src/gs_encode.c:158-199 | hand, club, distance and surface in this order, each exactly if it says anything |
| RoundTrip.ResponseTextIsJson | src/gs_encode.c:201-215 | every response is a printed JSON object |
| RoundTrip.ResponseRoundTrip | src/gs_encode.c:201-215 | decoding an encoded response always succeeds and gives code, message and known player members back, strings cut to their fields |
| RoundTrip.ResponseRoundTripExact | src/gs_encode.c:158-215 | it gives exactly what was encoded if and only if nothing had to be cut or left out |
| RoundTrip.ClubsRoundTrip | src/gs_encode.c:158-199 | every club and hand is read back from its code on the wire |
| RoundTrip.RepliesAreCut | src/gs_encode.c:65-97 | responses written one after another are cut into the originals and no beginning of one is taken for the whole |
| EncodeMessage.WriteNumbers | src/gs_encode.c:288-313 | the fields that are present, and only they, in the table's order, with or without line breaks |
| EncodeMessage.WriteOptions | src/gs_encode.c:315-345 | the two required options always, the others if present |
| EncodeMessage.MessageEncode | src/gs_encode.c:347-448 | the measuring pass decides, the writing pass stores the message as JSON and a terminator, and a buffer too small is untouched |
| MessageLayout.MessageSpelled | src/gs_encode.c:347-418 | which members are written in which order, compact or each on a line of its own with two spaces a level |
| MessageRoundTrip.EncodedDecodes | src/gs_encode.c:347-418 | whatever message is encoded, compact or indented, decoding it succeeds and gives its fields back, strings cut to the decoder's, numbers JSON cannot spell as zero |
| MessageRoundTrip.EncodedDecodesExactly | src/gs_encode.c:347-418 | it gives the message's content back if and only if strings fit, units are given as they arrived, the required options are there, numbers are finite and the shot number is a double or the largest of all |
| MessageRoundTrip.DecodedAgain | src/gs_encode.c:253-260 | a message decoded from any bytes, encoded and decoded again, is of the same kind, in the same units, with the same strings; its shot number comes back exactly if it is a double or the largest |
| MessageRoundTrip.MessageIsObject | src/gs_encode.c:347-418 | an encoded message is one whole object to the framer |
| Sizes.TextFitsExactly | src/gs_server.c:565-571 | a response text fits a write request exactly when its escaped form is at most 230 octets |
| Sizes.PlayerInfoFits | src/gs_server.c:617-633 | every 201 fits a write request, whatever the player, an unterminated surface of 16 octets included |
| Redact.Redactor.Next | src/gs_server.c:303-354 | the next value to mask is found, and nothing between the last one and it is to be masked |
| Redact.Redactor.Apply | src/gs_server.c:366-397 | each chunk is masked as the whole buffer would be there, and the answer says whether anything in it was masked |
| Layouts.MaskSpelled | src/gs_server.c:250-251 | masked octets repeat the word <redacted> |
| RedactJson.MaskCommutes | src/gs_server.c:303-397 | masking the printed text of any JSON object is printing it with the named members' strings masked |
| RedactDecode.NamedIsDeviceId | src/gs_server.c:258-272 | of keys spelled without escapes the scan recognises exactly those the decoder takes for the device id |
| RedactDecode.PlainIsClean | src/gs_server.c:258-272 | on a message whose keys have no escapes and no NULs nothing is masked that the decoder takes a value from but device ids |
| RedactDecode.PlainIsHidden | src/gs_server.c:258-272 | on such a message the scan recognises every device id, so none is left |
| RedactDecode.MaskedDecodes | src/gs_server.c:303-397 | a masked message, any JSON object, keeps its length and its frame and is refused exactly if it was; where nothing but device ids is masked it decodes as before but for the device id and the truncation flag |
| RedactDecode.DeviceIdHidden | src/gs_server.c:303-397 | the device id a masked message decodes to is mask text if and only if no member read as the device id holds a string, or the scan recognises the last that does, or its text was mask text |
| MaskedFields.FieldsAfter | src/gs_server.c:303-397 | units and version change exactly when the last text given for them is masked; every number and truth value of a masked message is the last one given by a member that is not masked |
| RedactDecode.EscapedKeyIsMissed | src/gs_server.c:258-272 | a key spelled with an escape reads as the device id and is not recognised by the scan: the text, and so the decoded id, stay as they were |
| Rings.Ring.Push | src/gs_server.c:145-158 | the element goes behind those held, wherever the ring's head is |
| Rings.Ring.RemoveAt | src/gs_server.c:1537-1547 | moving the entries before it up one slot takes out exactly that entry |
| Rings.Ring.Filter | src/gs_server.c:581-597 | moving entries down in place keeps exactly those that satisfy the test, in order |
| EventLog.EventRing.EmitIn | src/gs_server.c:160-182 | an event, and once per overflow run a warning behind it |
| EventLog.EmitIsAccounted | src/gs_server.c:145-182 | the event ring's account is kept: sequence, drops, order, at most one complaint since it was emptied |
| EventLog.PollIsAccounted | src/gs_server.c:1553-1569 | a poll returns the oldest events and keeps the account |
| WireLog.WireRing.PushIn | src/gs_server.c:406-439 | a chunk in, the oldest out when full, the survivor or the newcomer marked |
| WireLog.PushIsTraced | src/gs_server.c:406-439 | every held chunk is marked exactly if its predecessor is neither held nor the last one polled |
| WireLog.PollIsTraced | src/gs_server.c:1571-1590 | polling hands out the chunks as pushed, each with the mark it must carry |
| WireLog.LostBySequence | src/gs_server.c:400-439 | LOST exactly when a chunk's sequence is not one after the previously polled one's |
| Logs.ChunksJoin | src/gs_server.c:441-478 | chunks of at most 512 joined are the run; REDACTED exactly where a byte was masked, CONTINUES on each that another follows |
| Logs.WireClientRecords | src/gs_server.c:481-489 | the wire log takes down all of a client's bytes, with device ids masked unless policy says otherwise |
| Core.Core.WireBytesIn | src/gs_server.c:441-478 | the chunk loop with its carried redactor pushes the specified chunks |
| Core.Core.QueueWriteIn | src/gs_server.c:555-577 | a write is queued exactly if the ring has room and the response fits |
| Core.Core.DropWritesForIn | src/gs_server.c:581-597 | writes for a connection leave the ring, the others stay in order |
| Core.Core.SendPlayerIn | src/gs_server.c:617-633 | a 201 queued is reported, one refused is not |
| Core.Core.SendSessionIn | src/gs_server.c:635-666 | the same for 202 and 203 |
| Connection.Connection.CompactIn | src/gs_server.c:878-888 | what the framer has not seen moves to the front |
| Connection.Connection.RefuseIn | src/gs_server.c:672-726 | recorded, counted, answered, reported, and at the threshold a request to close; `Failures.RefuseReports` and `Answers.RefuseAnswers` say which |
| Connection.Connection.AcceptIn | src/gs_server.c:802-870 | a decoded message is recorded, counted, answered and then reported; `Answers.AcceptAnswers` says what with |
| Answers.ReplyAnswers | src/gs_server.c:845-855 | with room in the ring a message gets one request: 501 and "Incomplete ball data" exactly if policy rejects incomplete shots and this is one, else 200 with policy's text or, without one, "Shot received successfully", unless that text does not fit; without room, none |
| Answers.AcceptAnswers | src/gs_server.c:802-870 | the same of a message with all that it sets off |
| Answers.RefuseAnswers | src/gs_server.c:687-693 | an error gets 501, "Payload too large" if that is what is wrong, else "Bad JSON data" |
| Answers.CallAnswers | src/gs_server.c:1192-1277 | behind what was waiting, a call queues the answer of each message heard, in order, and last that of an error if there was one; nothing if the ring is full and a message was in progress |
| Answers.RetainSays | src/gs_server.c:1246-1275 | bytes not taken are kept if they fit, else everything pending goes, and the warning says which and how many |
| Failures.RefuseReports | src/gs_server.c:695-725 | an error event's reason, discarded count, place in the run and snippet of 32 octets, and a close request with the same content exactly at policy's threshold; nothing else but warnings |
| Failures.ByteFaults | src/gs_server.c:943-980 | a byte leads to an error in exactly three cases, each reported as what it is: no opening brace, an object that does not decode, an object still open past the bound |
| Failures.AcceptTakesDown | src/gs_server.c:810-832 | an accepted object is in the wire log, masked unless policy says otherwise, and nothing else with it |
| Failures.RefuseTakesDown | src/gs_server.c:680-685 | and so is what an error is about |
| Failures.LineTaken | src/gs_server.c:500-544 | an opening and a closing put one line of at most 255 octets into the wire log, marked redacted unless identifiers are recorded, and other events none |
| Connection.Connection.FramePendingIn | src/gs_server.c:907-989 | the framing loop over the receive buffer does what its specification does |
| Connection.Connection.TakeBytesIn | src/gs_server.c:1192-1277 | the loop that takes bytes, frames, resumes and retains, with its termination |
| Serving.AcceptServed | src/gs_server.c:802-870 | a message changes nothing for other connections, keeps the logs, the write order and the capture, and keeps the connection's information what its messages say and its events told |
| Serving.RefuseServed | src/gs_server.c:672-726 | so does an error, close request included |
| Serving.TakeBytesKept | src/gs_server.c:1192-1277 | so does a whole call |
| Streams.FrameByteStepped | src/gs_server.c:943-980 | one byte keeps buffer, framer and stream in step, and the buffer is thrown away only if the stream gave reason |
| Streams.FramePendingTurned | src/gs_server.c:907-989 | framing leaves at most a started object within the bound, or refuses with everything pending kept |
| Streams.AbsorbTold | src/gs_server.c:1211-1244 | however many rounds a call takes, what was offered and what was taken agree |
| Delivery.TakeBytesFollowed | src/gs_server.c:1192-1277 | every call leaves the framer where a fresh run over the scanned bytes would be; after OK at most the bound is left |
| Delivery.MissingExactly | src/gs_server.c:1219-1273 | exactly when, and how many, bytes go missing, pending ones included, and when the call is refused or reports an error, all told from the state before it; none when they fit the buffer as it stands |
| Witnesses.MissingReached | src/gs_server.c:1228-1244 | from a new server with a write ring of one: two messages and blanks, the reply polled, and a third message is taken with an Ok, without an error, and is missing |
| Witnesses.LostReached | src/gs_server.c:1253-1273 | from a new server: a first call with more than a buffer behind its first message is refused, no error is reported, and all of it behind that message is missing |
| Delivery.FedExactly | src/gs_server.c:1192-1277 | what the framer has been fed since its buffer was last emptied, after a call: what it was and the new bytes, or nothing new without room, or nothing at all after an error or a loss |
| Delivery.BytesAccounted | src/gs_server.c:907-1277 | every byte offered is whitespace between messages, part of a delivered object, gone with a reported error, missing, or pending |
| Delivery.DeliveredExactly | src/gs_server.c:907-989 | how many messages a call delivers, told before it: the objects completed in the part of the stream that will be framed |
| Fates.FramePendingFate | src/gs_server.c:907-989 | framing ends as the stream, the framer's place in it and the number of waiting writes foretell, at the byte they foretell |
| Fates.BlockedExactly | src/gs_server.c:929-932 | blocked at a byte exactly if a message begins there with the ring full and no byte before it stops framing or is an error |
| Fates.ThroughExactly | src/gs_server.c:907-989 | all of a stream is framed exactly if no message in it finds the ring full and nothing in it is an error |
| Delivery.StreamDelivered | src/gs_server.c:907-989 | errors were reported exactly if the stream gave reason, and otherwise exactly the objects repeated frame finding cuts were delivered |
| Delivery.StreamPending | src/gs_server.c:929-932 | behind a full write ring, what was delivered is the beginning of that |
| Delivery.ObjectsDelivered | src/gs_server.c:907-989 | decodable objects within the bound with whitespace between them are all delivered, in order, and nothing else |
| Witnesses.OverlongReached | src/gs_server.c:943-980 | from a new server: an object one octet longer than the bound is delivered and no error reported |
| Replies.AnswersFitExactly | src/gs_server.c:845-848 | an acknowledgement is sent at all exactly when its escaped text is at most 230 octets |
| Witnesses.AckNeverSent | src/gs_server.c:565-571 | a text of 39 octets in a field for 63 that no acknowledgement is ever sent with |
| Replies.RepliesExactly | src/gs_server.c:802-989 | a call queues as many replies as it delivers messages and reports errors exactly if a slot was free for the message in progress, or it completed none |
| Delivery.RepliesForetold | src/gs_server.c:802-989 | the same told before the call: exactly if a slot is free for the message in progress, or the bytes handed over do not complete it |
| Replies.StraddlingMessageUnanswered | src/gs_server.c:845-848 | on any server whose ring is full, the second half of an empty object completes a message that is delivered without a reply |
| Witnesses.StraddlingReached | src/gs_server.c:845-848 | from a new server with a write ring of one: a message cut in two around another connection's is delivered, and no reply to it is ever queued |
| Replies.ReplyBeforeEvent | src/gs_server.c:833-868 | a message's reply is queued before its event and before any other but warnings |
| Leading.RepliesLead | src/gs_server.c:672-870 | at every moment of a call that comes with a slot free, as many replies have been queued as messages and errors reported, or more |
| Runs.OnBytesKeeps | src/gs_server.c:1192-1277 | bytes keep the server's invariant |
| Runs.OpenKeeps | src/gs_server.c:1127-1190 | so does opening a connection |
| Runs.ShutKeeps | src/gs_server.c:1279-1299 | so does closing one; its writes go and no other slot changes |
| Runs.TickKeeps | src/gs_server.c:1353-1374 | so does a tick before the end of time, or with no connection called idle |
| Runs.PollWritesKeeps | src/gs_server.c:1504-1551 | so does polling writes with held ones skipped |
| Runs.EveryRun | src/gs_server.c:1-27 | whatever a host calls, in whatever order, the invariant holds |
| Dates.CallDated | src/gs_server.c:145-182 | whatever is called, events and chunks are only added, every one with the time of the call |
| Dates.MessagesNumbered | src/gs_server.c:833-868 | over every run the message events of all connections are numbered through from zero, modulo 2^32 |
| EndOfTime.TickExactly | src/gs_server.c:1306-1374 | a tick keeps every open connection's life orderly, and the whole invariant, if and only if it is before the end of time or no open connection has been called idle |
| EndOfTime.IdleExactly | src/gs_server.c:1353-1374 | a tick calls an open connection idle exactly if an alarm is set, none is outstanding, and the last message, or else the opening, is that long ago |
| EndOfTime.IdleTwiceReached | src/gs_server.c:1306-1374 | opened, silent for the length of the alarm and ticked at the end of time, a connection is called idle twice |
| Promises.PolledAsTraced | src/gs_server.c:1504-1551 | what a poll returns is what is recorded as polled, and no more than asked for |
| Promises.PollTakesDown | src/gs_server.c:1525-1536 | with the wire log on, the chunks a poll pushes are those of the writes it returns, one run for each in order: server to client, of the write's connection, at the server's time, unmasked, all but the last of 512 octets, joined the write's data |
| Promises.SentIsCaptured | src/gs_server.c:1525-1536 | over every run the chunks that ever went from server to client are those of the writes ever handed out, in order |
| Promises.PollLeavesHeld | src/gs_server.c:1504-1524 | a poll that returns less than it was asked for leaves only writes that are held back |
| Promises.HeldIsRecent | src/gs_server.c:1504-1551 | held back are exactly the writes whose connection was polled for less than the spacing ago |
| Promises.WritesInOrder | src/gs_server.c:1504-1551 | over every run polled writes are the queued ones in order, none lost or twice, spaced as the policy says, and queued ones name open connections |
| Promises.LivesAreOrderly | src/gs_server.c:711-725 | over every run, of every connection: an opening, then events, then a closing; idle and active alternate; one name, and changes of it complained of; states told as changes; errors numbered in their run, and a close requested exactly when that run is at the threshold |
| Promises.EventsAccounted | src/gs_server.c:145-182 | over every run sequence is polled plus dropped plus held, and there is at most one complaint between emptying polls |
| Promises.ChunksAccounted | src/gs_server.c:406-439 | over every run the same for the wire log, and LOST exactly at gaps, in a ring of one as well |
| Promises.ConnectionsFollow | src/gs_server.c:907-989 | over every run the stream theorem for every open connection, and a half-received object at the front of its buffer |
| Promises.ObjectsFollow | src/gs_server.c:907-989 | over every run, losses and errors or not: what a connection delivered since its buffer was last emptied is what frame finding cuts from the bytes fed since, of which the last wait in the buffer |
| Promises.MessagesHeard | src/gs_server.c:802-870 | over every run the message events of an open connection are what its delivered objects decode to, in order, with a repeated shot number noted exactly on a shot whose predecessor had it too; without loss or error, what the objects decode to that frame finding cuts from everything handed over |
| Promises.InfoFollows | src/gs_server.c:732-868 | over every run a connection's counters, last shot, name, readiness and ball are what its messages and errors say, and its events told them |
| Promises.OpenFollows | src/gs_server.c:1127-1299 | over every run an id is open in the table exactly if its last opening was reported and no closing since |
| Promises.NextDueIsNext | src/gs_server.c:1318-1351 | next_due is never later than a held write's release, nor than the last message or the opening plus the alarm of a connection not yet called idle; and it is one of those or never |
| Promises.HeldWriteReleased | src/gs_server.c:1504-1551 | a tick at a held write's release time and a poll of everything hand it out |
| Host.Host.Create | src/gs_server.c:1001-1086 | a server is made exactly for the usable configurations, with everything empty |
| Opening.UsableSays | src/gs_server.c:1001-1086 | which configurations are taken and what their zeros stand for |
| Host.Host.OpenIn | src/gs_server.c:1127-1190 | the statuses, the slot, the event, then the 201 and the 202 |
| Opening.OpenAnswers | src/gs_server.c:1127-1150 | each status exactly when it is given, and nothing changed unless Ok |
| Opening.OpenDoes | src/gs_server.c:1150-1190 | the first free slot holds a connection of which nothing is known yet, its opening is the first new event, and behind what waits come the 201 and the 202, each exactly if called for and with room; nobody else is sent anything |
| Host.Host.ClosedIn | src/gs_server.c:1279-1299 | the event, the writes dropped, the slot freed |
| Opening.ClosedDoes | src/gs_server.c:1279-1299 | each status exactly when it is given; the closing is reported with its cause, the connection's writes are gone, nobody else's, and its slot is free |
| Host.Host.CloseIn | src/gs_server.c:1088-1107 | every open connection reported closed, then sealed |
| Opening.CloseDoes | src/gs_server.c:1088-1107 | every open connection is reported closed by the server, no slot is in use any more and the server is down |
| Host.Host.OnBytesIn | src/gs_server.c:1192-1277 | the statuses and the bytes of an open connection |
| Host.Host.TickIn | src/gs_server.c:1353-1374 | idle reported once per silence |
| Host.Host.NextDueIn | src/gs_server.c:1318-1351 | the loop over connections and writes computes the earliest due time |
| Host.Host.SetPlayerIn | src/gs_server.c:1380-1414 | a changed player is stored and sent to the open connections slot by slot, an identical one to none |
| Sending.PlayerSetSends | src/gs_server.c:1380-1414 | exactly the open connections the ring has room for in slot order get a player that differs from the stored one in some field and says anything, with its event; it is stored in any case |
| Sending.AllReached | src/gs_server.c:1380-1414 | with room for all of them, those are the open connections |
| Host.Host.SendPlayerInfoIn | src/gs_server.c:1428-1459 | to one connection or to all, the stored player by default |
| Sending.PlayerInfoSends | src/gs_server.c:1428-1459 | exactly the open connection asked for, or of all exactly those the ring has room for in slot order, get the 201 behind what waits for them, with its event; the stored player stays |
| Host.Host.SetSessionIn | src/gs_server.c:1461-1490 | a changed session state is announced, a repeated one is not |
| Sending.SessionSetSends | src/gs_server.c:1461-1490 | the same of a session state other than the present one, as 202 or 203; it is then the present one |
| Host.Host.PollWritesIn | src/gs_server.c:1504-1551 | the loop that skips held writes, records, and removes in place does what its specification does; what that takes down, `Promises.PollTakesDown` says |
| Host.Host.PollEventsIn | src/gs_server.c:1553-1569 | the oldest events |
| Host.Host.PollWireIn | src/gs_server.c:1571-1590 | the oldest chunks, none when the log is off |
| Record.LeReadsBack | record/gs_record.c:27-69 | little-endian octets read back as the number they spell |
| Record.RecordReadsBack | record/gs_record.c:405-451 | a record written is the record read, every field and the payload, whatever follows |
| Layouts.RecordSpelled | record/gs_record.c:185-238 | a record octet by octet: length, direction, flags, two zeros, sequence, connection and time, each least significant octet first, and the data |
| Record.ReadExactly | record/gs_record.c:405-451 | of any octets: the clean end, a refused length, a cut record, each exactly when; and a record read is what writing it gives but for the two reserved octets |
| Record.AllReadBack | record/gs_record.c:405-451 | any list of chunks is read back unchanged, with a clean end |
| Record.AnyPrefixReads | record/gs_record.c:405-451 | a file cut anywhere gives exactly the records complete in it, and a clean end exactly between records |
| Record.BatchesAreWhole | record/gs_record.c:405-451 | reading in batches of any size is reading the whole |
| Record.Recorder.Write | record/gs_record.c:185-238 | all of a batch is appended or, if any chunk is too long, none of it |
| Record.Reader.Read | record/gs_record.c:405-451 | records in order until the batch is full or the reader stops, and then it stays stopped |
| Resuming.FramePendingMoves | src/gs_server.c:907-989 | framing never adds pending bytes, and refuses with a slot free at entry only after consuming some |
| Resuming.ResumeMoves | src/gs_server.c:1192-1277 | a call resumed with a slot free and refused again has fewer bytes pending |
| Resuming.PollPrompt | src/gs_server.c:1504-1551 | with spacing off a poll that returns nothing has found nothing |
| Stalls.ResumeExactly | src/gs_server.c:1192-1277 | a resumed call refused again consumed nothing exactly if it found a message at the front and the write ring full |
| Stalls.RoundExactly | record/gs_record.c:725-733 | a drain and a resume consume nothing exactly if the drain left the ring full of held writes |
| Stalls.EndsUnlessStalled | record/gs_record.c:725-733 | the loop of drains and resumes ends if and only if no drain on its way leaves the server so |
| TwoRounds.EndsExactly | record/gs_record.c:725-733 | the loop ends if and only if, the server drained once, nothing pending stops at a full ring, or a slot is free, the connection may be written to and, with spacing on, one write less in the ring lets the rest through; with spacing on two rounds end it or nothing does |
| TwoRounds.InvIsSighted | src/gs_server.c:1-27 | every server a run reaches is one the last row speaks of |
| Stalls.PromptEnds | record/gs_record.c:725-733 | with spacing off it ends within as many rounds as bytes are pending |
| Endless.StallReached | record/gs_record.c:725-733 | three messages in one chunk, a write ring of one and spacing on: the loop never ends |
| Resuming.StalledForGood | record/gs_record.c:725-733 | with every write of a full ring held back, polling hands out nothing and a resume is refused again with as much pending: without a later time the loop does not end |
| Replay.Replay.Drain | record/gs_record.c:547-597 | the server is polled dry; the replies that came are kept in order up to 32 and the rest are extra; messages, shots, errors and flags are those of the events that came |
| Replay.Replay.MatchReply | record/gs_record.c:631-679 | the first identical reply claims a recorded one, then the first of its code, then it is the host's own or missing; the claimed one is taken out |
| Replay.Replay.FeedAll | record/gs_record.c:721-728 | the server after the bytes and the resume loop, the replies kept and counted on the way, and whether the loop has ended, after any number of rounds; with spacing off and times in order it has ended after as many as the receive buffer holds |
| Replay.Replay.Run | record/gs_record.c:681-768 | server, open ids, pending replies and report are the fold of the recorded chunks, whatever the server, the clock and the capture; with spacing off and times in order it is never stopped |
| Replay.Replay.OpenLazily | record/gs_record.c:705-720 | a connection not held open is opened at the chunk's time, listed and counted if the server takes it and there is room, and the server drained |
| Replay.Replay.ClientChunk | record/gs_record.c:703-730 | opened if need be, then the chunk's bytes fed for its connection at its time and resumed, then drained |
| Replay.Replay.MetaChunk | record/gs_record.c:736-754 | a line that begins with the word for a closing closes a connection held open, forgets its id and drains; any other only counts |
| Playback.PlayedBalanced | record/gs_record.c:681-768 | produced is matched plus differing plus extra (plus what is still unmatched if it was stopped), recorded is matched plus differing plus missing plus unsolicited, and every chunk is counted as what it is |
| Playback.StepBalanced | record/gs_record.c:698-757 | one chunk is counted once, as lost if it is marked so, and keeps the account of replies |
| Playback.OneJudgement | record/gs_record.c:631-679 | of a recorded reply there is exactly one verdict |
| Playing.VerdictSays | record/gs_record.c:638-678 | that verdict in terms of connection, octets and codes |
| Playing.DrainBrings | record/gs_record.c:547-597 | a drain brings exactly the writes the server then hands out and the events it held, counted by kind |
| Playing.ClientBytesArrive | record/gs_record.c:703-730 | from when a connection is held open to its closing line, over any chunks: the bytes the server has been handed for it are those it had and the recorded ones, in order, each once however often resumed; and the server keeps its invariant |
| Playing.FirstBytesArrive | record/gs_record.c:705-728 | the first chunk of a connection opens it and hands exactly its bytes over |
| Playing.ClosingCloses | record/gs_record.c:736-754 | a closing line leaves the connection neither open nor held |
| Playing.ClientChunkDated | record/gs_record.c:721-729 | a client chunk of an open connection leaves the server at the recorded time |
| Exchange.ExchangeReplayed | record/gs_record.c:681-768 | one message and its recorded 200 replayed into a new server: one message, one reply produced, matched, none missing |
| Linking.NothingLostNothingTwice | net/gs_net.c:178-220 | whatever a socket did, bytes accepted followed by bytes unsent are all requests polled for it, end to end |
| Linking.AcceptedFlows | net/gs_net.c:178-220 | a full or a short send keeps that |
| Linking.PollLinked | net/gs_net.c:231-261 | the request polled has a live slot, and putting it there keeps table and server in agreement |
| Linking.CloseLinked | net/gs_net.c:149-166 | a slot given back and a connection reported closed keep the agreement |
| Linking.OpenLinked | net/gs_net.c:341-433 | so do a slot filled and a connection opened |
| Linking.BytesLinked | net/gs_net.c:271-295 | so do bytes fed |
| Net.Slot.SendSome | net/gs_net.c:178-198 | one send offers what is left of one request and never bytes of two, and its answer is kept |
| Net.Slot.Flush | net/gs_net.c:178-220 | told by the socket's answers, one per send: failed exactly if the last is an error; to be flushed again exactly if the last would block or took less than offered; every earlier one took a whole request and took it off the queue; and without such a last one the queue is empty and nothing is wanted |
| Net.Net.Flush | net/gs_net.c:178-220 | a slot flushed so; a failed one is closed with the transport's error and given back; the server and all other slots are as they were |
| Net.Net.PumpOne | net/gs_net.c:231-261 | one request: put behind those of its own slot, and that slot flushed so; none, and nothing changed, only if some live queue is full or there is none to hand out |
| Net.Net.Pump | net/gs_net.c:231-261 | slots are handed only what was polled for their own connection, behind what they had, and flushed as their sockets answer; at the end some live queue is full or the server has nothing more to hand out |
| Net.Net.Feed | net/gs_net.c:271-295 | the bytes are handed over once; if that is refused, at most four rounds of pumping and resuming follow, and the slot is to be resumed exactly if the last was refused as well; no slot changes hands |
| Net.Net.Read | net/gs_net.c:297-319 | what was received is fed, an end or an error drops the slot with its cause, and nothing received changes nothing |
| Net.Net.Drop | net/gs_net.c:149-166 | the server is told with the cause given, the slot is free and its id open no longer, and every other slot is as it was |
| Net.Net.Accept | net/gs_net.c:341-433 | exactly if there is a free slot and the server takes the connection, one free slot becomes the connection's, under an id the server now holds open and did not before; otherwise nothing but the id to come changes |

## Left out

- Sockets, `select`, name resolution and the clock: a send, a receive and the time are whatever they are; the transport's statistics are not kept.
- File handles, flushing and disk errors of the recorder and the text header of a capture: the record area is a sequence of octets.
- Allocation, struct layout, the binding in `python/` and the tables in `tools/`: foreign layout and wrappers.
- EncodeMessage.MessageEncode: a message's strings are sequences, which their C arrays bound at 64, 16 and 8 octets; presence bits outside the tables, which would give an empty section, are not representable.
- `strtod`, `snprintf` and IEEE rounding: parameters, under the assumption stated in `Numbers.Sound`.
- The event formatter, warning texts and default values of `src/gs_misc.c`: display only; the line of a connection's opening or closing is a parameter.
- Null pointers and enumerators out of range passed by a host: not representable here.
- Overflow of signed 64-bit sums of times, 64-bit counters of the recorder and the replay: unbounded integers.
- When a resumed reply actually leaves the transport: that depends on `select` timeouts.
- Replay.Replay.FeedAll: takes the number of rounds after which it is stopped, which the loop it models does not have; what it does for every such number says what the loop does, ending or not.
- Replay.Replay.Run: the two small tables of a replay (open ids, pending replies) are sequences; moving their entries with `memmove` is not modelled.
- Host.Host.PollWritesIn: returns the writes as a sequence instead of filling the caller's array.
- Delivery.StreamDelivered: speaks of connections from which nothing went missing; for the others `Promises.ObjectsFollow` and `Delivery.FedExactly` say what follows a loss.
