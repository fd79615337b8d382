# A verified model of the ORTC client

The ORTC client is a C library for a publish/subscribe messaging service. It carries its own
regular-expression compiler and matcher (SLRE), its own escaping of messages, a protocol that
cuts messages into parts and puts them together again, hand-written linked lists, scanners for
the permissions frame and the presence reply, a connection state machine and throttled
outbound queues. This project models these pieces in Dafny and proves what they are for. Text
is a `string` with one character per byte of the C string.

How the files build on each other:

| files | what they hold |
|---|---|
| `Basics` | optional values, `isspace` and `isdigit`, a text at a place, the associativity of concatenation |
| `SlreProgram`, `SlreSyntax`, `SlreCodegen`, `SlreProgress` | bytecode as a tree (`Prog`) with its byte layout (`Gen`) and its meaning (`Run`); patterns as trees with their text (`PrintAlt`), their language (`MAlt`) and their translation (`Lower`); the state of the one-pass compiler in the middle of a pattern |
| `Slre` | the class `Engine`: the compiler that emits, shifts and patches bytes in two arrays, and the interpreter of those bytes, each proved against the above |
| `SlreLanguage`, `SlreExact` | soundness for every pattern, exactness on the fragment the client uses and for alternatives of it |
| `Patterns`, `Validation`, `Captures`, `Frames`, `CaptureRange` | the client's own patterns: they compile, what they accept, what they capture |
| `DList` | the linked list on the heap, as a class that refines a sequence |
| `Text`, `WireEscape`, `Json`, `WireDecode`, `Decimals` | substring replacement, the two chains of ten replacements, JSON strings (RFC 8259, section 7) |
| `Commands` | commands to the server: a text in quotes that semicolons cut into fields |
| `Sender`, `Reassembly`, `PartRuns`, `Receiver`, `Delivery`, `ReceiverRuns` | the message path from the sender to the callback |
| `PermissionScan`, `Permissions`, `Channels` | permissions, subscriptions, the filter after a reconnection |
| `OperationPatterns`, `OperationFrames`, `Exceptions`, `Operations` | the frames that are no messages: validated, subscribed, unsubscribed, error |
| `Presence` | the presence reply |
| `StateMachine`, `Outbound` | the connection and the outbound queues, over whole runs |

The main results:

- **Compiler and matcher.** The one-pass compiler, which shifts emitted code to make room for
  headers, produces exactly the layout of the program that a structural translation gives
  (`Engine.SlreCompile`); that program has the language of the pattern (`LowerPreservesLanguage`);
  the interpreter terminates on every input and computes `Run` (`Engine.Match`), which is sound
  for every pattern (`RunSound`) and exact where loop bodies are single bytes (`MatchExact`), for
  alternatives of such patterns, too (`AlternativesExact`). Where an alternative or an optional part
  has something behind it, the choice is made for good, and exactly which one is stated
  (`BranchTakes`, `QuestTakes`); a loop over any body ends behind its last turn from which the rest
  of the program matches (`GreedyIsLast`).
- **Delivery.** A part is written if and only if its frame fits the 1800 bytes of the write buffer,
  which a caller can compute from the keys, the id, the numbers and the escaped part (`HasRoom`).
  Of the messages whose parts all fit, in whatever order the parts arrive, each is handed over
  exactly once, and the callback gets the original bytes if and only if the message is `Clean`,
  that is, contains none of the seven lookalikes `\a`, `\v`, `\\b`, `\\f`, `\\n`, `\\r`, `\\t`
  (backslashes written as they stand in the message). Messages without backslashes are clean. That
  delivery fails for the others are facts about the code: `ApostrophesHaveNoRoom` names a message
  that is clean and does not fit, `BackslashA` one that fits and is not clean. `ReceiveAll` states
  this of the receiver itself, over any run of frames. A text that holds no header, for which it
  suffices that it holds no underscore, goes to the callback of its channel at once and leaves the
  stored parts alone (`ReceiveFrame`, `TextReceived`).
- **Parsers.** The permissions scan, whose offset lags behind the separators, stores every pair of
  the frame in order, some of them several times over, and every later lookup answers as on the
  frame itself, for nonempty names without quotes and backslashes and if and only if no state that
  the scan reaches is misread. A state with entry `t` next and a lag of `lag` bytes is misread
  when the channel of `t` is a single colon and `lag >= 3`, or the hash of the entry before it is
  one and `lag >= 9`; whether one is reached can be computed from the names (`ReadsRight`).
  Without a name that is a single colon none is. When one is, a pair is stored that was read at a
  wrong place, which frames may hold anyway (`RightExactly`); `FourEntries` is one that does not.
  The operation branch takes the permissions out of a validated frame, through two more patterns,
  saves them and asks for CONNECTED (`ReceiveOperation`); it does so for a frame of any type and any
  parameters if and only if the type begins with `ortc-validated`, so that an error frame never
  connects; it cancels the connection that is being made if and only if its parameters hold an
  exception. The presence scanner returns exactly what was written, with any bytes behind the
  backslashes of its quoted texts (`ParseWritten`).
- **State machine and queues.** Over every run: one transition per request, CONNECTED only after a
  validated frame, onConnected once and onReconnected afterwards. From DISCONNECTED the client gets
  to CONNECTED, and from CONNECTED, its heartbeat lost, back to CONNECTED, whatever came before
  (`Connects`, `ComesBack`). Between two clearings of the
  queues nothing is doubled or reordered, and nothing is lost if and only if the items taken off fit
  the write buffer; commands first, at most 2000 writes between resets.

Assumptions about the server (it is not part of the repository): it reads a command as a JSON
string, cuts it at its semicolons, and sends the text on inside a JSON string inside a JSON string.
The client cuts at 800 bytes, also inside a multi-byte character, so that a part need not be valid
UTF-8; the server is assumed to accept such frames and to pass their bytes on.
Random numbers, clocks and whether a thread or a socket could be started are parameters.

## Model

| member | source | states |
|---|---|---|
| `SlreProgram.RelocationKeepsBlock` | lib/slre/slre.c:246-252 | inserting any header at or in front of a finished block leaves the block standing, byte for byte, at its new place |
| `Slre.MatchMoved` | lib/slre/slre.c:246-252 | matching the block at its new place, on any text, gives the result, the offset and the captures of matching it where it was |
| `SlreProgram.GenIsWfBlock` | lib/slre/slre.c:254-285 | wherever a program stands in the code, every jump goes forward to an instruction boundary or the end of its block, every operand range lies in the data, and every block ends in END |
| `SlreCodegen.PatternBytesAreGen` | lib/slre/slre.c:287-402 | the bytes that the compiler lays down for a pattern are the layout of the program that the structural translation gives it |
| `SlreCodegen.CompiledOk` | lib/slre/slre.c:379-402 | the code of a pattern that fits is well formed, refers only to its own data, and numbers its captures below the number of groups plus one |
| `Slre.Engine.SetJumpOffset` | lib/slre/slre.c:147-157 | patches one byte with the distance to the end, or reports an error and changes nothing when it exceeds 255 |
| `Slre.Engine.Emit` | lib/slre/slre.c:159-166 | appends one byte, or reports an error and changes nothing when the buffer is full |
| `Slre.Engine.StoreCharInData` | lib/slre/slre.c:168-175 | the same for the data buffer |
| `Slre.Engine.Exact` | lib/slre/slre.c:177-188 | stores the longest run of plain bytes and emits one instruction that refers to it |
| `Slre.Engine.GetEscapeChar` | lib/slre/slre.c:190-207 | the value of each escape, signed for bytes from 128 on |
| `Slre.Engine.AnyOfSet` | lib/slre/slre.c:209-244 | the members of a set go to the data in order, with one instruction; without a closing bracket there is an error and no instruction |
| `Slre.Engine.Relocate` | lib/slre/slre.c:246-252 | ends the block at `begin` and moves it up; what lies below is untouched |
| `Slre.Engine.Quantifier` | lib/slre/slre.c:254-267 | takes the last byte off a longer literal and puts the loop header in front of the atom |
| `Slre.Engine.ExactOneChar` | lib/slre/slre.c:269-276 | one byte in the data and one instruction for it |
| `Slre.Engine.FixupBranch` | lib/slre/slre.c:278-285 | closes the alternative that awaits its end, if there is one |
| `Slre.Engine.Compile` | lib/slre/slre.c:287-377 | one bracket level: whatever its pieces, quantifiers and alternatives, the code grows by the layout of the level, the data by its bytes, and the number of groups accordingly; a bracket closing at level 0 is an error |
| `Slre.Engine.SlreCompile` | lib/slre/slre.c:379-402 | every well-formed pattern that fits compiles without error to the layout of its program, ready for the interpreter; the engine is anchored if and only if the pattern begins with `^` |
| `Slre.Engine.LoopGreedy` | lib/slre/slre.c:407-422 | ends at the boundary that `Greedy` gives, and terminates |
| `Slre.Engine.Match` | lib/slre/slre.c:469-608 | on the bytes of a program standing anywhere in the code, result, offset and captures are those of `Run`; terminates on every input, by the rest of the program and the rest of the text |
| `Slre.Engine.SlreMatch` | lib/slre/slre.c:610-626 | one attempt when anchored, otherwise the first position that matches |
| `SlreProgram.Run` | lib/slre/slre.c:469-608 | a match never reads past the text and consumes at least the least width of the program, which is what makes loops end |
| `SlreLanguage.RunSound` | lib/slre/slre.c:469-608 | for every program (loops, branches and optional parts nested in any way), what a successful match consumes is in the program's language, anchors included |
| `SlreLanguage.LowerPreservesLanguage` | lib/slre/slre.c:287-377 | the program of a pattern accepts exactly the pattern's language, in both directions |
| `SlreLanguage.MatchSound` | lib/slre/slre.c:379-402 | what a compiled pattern matches is in the language of the pattern |
| `SlreSyntax.AtomsMean` | lib/slre/slre.c:438-577 | the bytes that the dot, a set, a complemented set and each escape match; a byte from 128 on is in no set |
| `SlreExact.GreedyIsBest` | lib/slre/slre.c:407-422 | with one-byte bodies, the loop ends at the largest boundary from which the rest of the program matches, and at its beginning if there is none |
| `SlreExact.RunExact` | lib/slre/slre.c:469-608 | where loop bodies are one byte, and alternatives and optional parts have only brackets behind them, a match succeeds if and only if some match in the language begins there |
| `SlreExact.GreedyIsLast` | lib/slre/slre.c:407-422 | whatever the body: the loop ends behind a number of turns from which the rest of the program matches, and behind no greater number does it match; without such a number it ends where it began |
| `SlreExact.BranchTakes` | lib/slre/slre.c:481-490 | the program goes on behind a match of the left alternative if one begins here, and only otherwise behind one of the right; what follows does not change the choice |
| `SlreExact.QuestTakes` | lib/slre/slre.c:501-507 | an optional part is taken if and only if a match of it begins here, whatever follows |
| `SlreExact.CapsDoNotMatter` | lib/slre/slre.c:411-418 | for every program whose loop bodies consume a byte, recording captures or not, as in the loop's look-ahead, changes neither result nor offset |
| `SlreExact.MatchExact` | lib/slre/slre.c:610-626 | on the fragment of one-byte loop bodies the search succeeds if and only if the language has a match beginning at an admitted position |
| `SlreExact.AlternativesExact` | lib/slre/slre.c:610-626 | the same for alternatives of such patterns; when the first one begins with `^`, the only admitted position is the beginning, for the others as well |
| `SlreExact.AnchorHoldsForAll` | lib/slre/slre.c:385-386 | the pattern of the alternatives `^a` and `b` does not find the `b` in `xb`, although the second one matches there |
| `SlreExact.EmptySuffixIsNotTried` | lib/slre/slre.c:619-622 | an unanchored search does not try the position behind the last byte: `$` is not found in `a` although it matches there |
| `Patterns.MultipartCompilable` | lib/libortc.h:95 | the pattern of the part header is the text of a well-formed tree that fits the buffers |
| `Patterns.MessageCompilable` | lib/libortc.h:94 | the same for the message pattern |
| `Patterns.PermissionCompilable` | lib/channel.c:17 | the same for the pattern of a permission |
| `Patterns.InputCompilable` | lib/libortc.h:98 | the same for the input pattern |
| `Patterns.UrlCompilable` | lib/libortc.h:97 | the same for the URL pattern |
| `Validation.InputExact` | lib/libortc.h:98 | a search with the input pattern succeeds if and only if every byte is in the alphabet |
| `Validation.IsValidInput` | lib/common.c:22-28 | the validator accepts exactly the texts over the alphabet, the empty one included |
| `Validation.UrlExact` | lib/libortc.h:97 | a search with the URL pattern succeeds if and only if the text is `http`, any number of `s`, `://` and a nonempty text over the alphabet |
| `Validation.IsValidUrl` | lib/common.c:14-20 | the validator accepts exactly these URLs |
| `Validation.Alphabets` | lib/libortc.h:97-98 | the two alphabets, as ranges of letters and digits and four or five signs |
| `Captures.FieldEnds` | lib/slre/slre.c:407-422 | a captured field of the form `(.[^x]*)` ends at the last boundary from which the rest of the pattern matches |
| `Captures.HeaderIsLaidOut` | lib/connection.c:187 | the header made of a nonempty id without underscore, two numbers and any payload has its first separators where the pattern needs them |
| `Captures.MultipartCaptures` | lib/message.c:82-86 | on a text laid out so, the multipart pattern matches and captures the four ranges, whatever underscores and dashes the payload holds |
| `Captures.SpansCapture` | lib/message.c:83-86 | the four captured ranges of a header are id, number, total and payload |
| `Frames.MessageProg` | lib/libortc.h:94 | the message pattern compiles to the program whose runs are studied here, its leading optional `a` included |
| `Frames.MessageCaptures` | lib/message.c:79-81 | on a frame with its last separator at `m`, the message pattern matches and captures channel and text around it |
| `Frames.FrameIsLaidOut` | lib/message.c:79-81 | in a frame made of a channel and a text, the separator between the two is the last one, if the text does not hold it |
| `CaptureRange.ClosedInText` | lib/slre/slre.c:586-596 | for programs without optional parts, alternatives and loops over more than one byte: after a successful run every group that was closed delimits a piece of the text |
| `CaptureRange.MessageInText` | lib/common.c:118-127 | whenever the message pattern matches, on any input, all captures can be copied |
| `CaptureRange.MultipartInText` | lib/common.c:118-127 | the same for the multipart pattern |
| `CaptureRange.HeaderNeedsUnderscore` | lib/libortc.h:95 | the multipart pattern matches no text without an underscore |
| `DList.List.Insert` | lib/dlist.c:58-68 | appends an entry; the list stays linked without cycles, `last` its final node, `count` its length |
| `DList.List.TakeFirst` | lib/dlist.c:145-155 | takes the first node off, or nothing from an empty list |
| `DList.List.Clear` | lib/dlist.c:190-201 | empties the list |
| `DList.List.Search` | lib/dlist.c:78-86 | the first node with the id, or none |
| `DList.List.SearchEx` | lib/dlist.c:88-96 | the first node with id and number, or none |
| `DList.List.SearchWild` | lib/dlist.c:98-116 | the first node that has the id or whose id ends in `:*` and is a prefix up to the star, or none |
| `DList.CoversWhat` | lib/dlist.c:98-116 | a stored `p*` with `p` longer than one byte and ending in a colon is found for exactly the channels that begin with `p`; an id of any other form for itself only |
| `DList.List.Delete` | lib/dlist.c:119-143 | on every list: if and only if no two neighbours behind the first node have the id, or the first node has it, the list stays in order; then exactly the first node goes if it has the id, and otherwise every node that has it. In the other lists a node that is counted as deleted stays in the chain |
| `DList.DeleteDistinct` | lib/dlist.c:119-143 | distinct ids are such lists, and exactly the entry with the id is removed |
| `DList.List.DeleteEx` | lib/dlist.c:162-188 | removes exactly the first node with id and number |
| `Text.ReplacedLength` | lib/common.c:54-86 | the size counted in the first pass is the number of bytes that the second pass writes |
| `Text.AllocSizeIsExact` | lib/common.c:68 | the size in unsigned 64-bit arithmetic is that number plus one, also when the replacement is shorter and the difference wraps around |
| `Text.Replace` | lib/common.c:54-86 | both passes together give the leftmost non-overlapping substitution, within the allocated buffer |
| `Text.Remove` | lib/common.c:88-116 | equals substitution by the empty text |
| `WireEscape.EscapeIsPerByte` | lib/common.c:166-188 | the ten passes of the escape chain amount to one substitution per byte |
| `WireEscape.EscapedConcat` | lib/common.c:166-188 | escaping parts separately equals escaping the whole |
| `WireEscape.EscapeSequencesBefore` | lib/common.c:166-188 | the chain of replacements computes that per-byte substitution |
| `Json.DecodeEncoded` | lib/connection.c:187 | the model of a JSON string as RFC 8259 section 7 has it: decoding undoes encoding, for every text of one-byte characters |
| `Json.EscapedIsLegal` | lib/common.c:166-188 | the escaped text is a legal JSON string if and only if the seven handled control bytes are the only ones; then it decodes to the message with BEL, VT and the apostrophe written as a backslash and a character |
| `Json.EncodedTwice` | lib/common.c:190-212 | encoding that twice gives the tokens that arrive at the client, one per byte |
| `WireDecode.Passes` | lib/common.c:190-212 | after any number of passes, for every message, the text is that of its bytes with the tokens of the later passes still in place; bytes next to each other that look like a token have been misread, and nothing else |
| `WireDecode.Arrives` | lib/common.c:190-212 | the whole chain gives the message with its lookalikes misread in the order of the passes |
| `WireDecode.ArrivesExactly` | lib/common.c:190-212 | the chain gives back the message if and only if it contains none of the seven lookalikes |
| `WireDecode.NoBackslashIsClean` | lib/common.c:190-212 | messages without backslash contain none of them |
| `WireDecode.NothingToUnescape` | lib/common.c:190-212 | the chain leaves a text without backslash as it is |
| `WireDecode.BackslashA` | lib/common.c:193 | the message of a backslash and an `a` does not come back |
| `WireDecode.EscapeSequencesAfter` | lib/common.c:190-212 | the chain of replacements computes `Unescape` |
| `Decimals.AtoiDecimal` | lib/connection.c:156-167 | `atoi` reads back every number that was printed |
| `Decimals.AtoiReads` | lib/message.c:87-89 | behind blanks, a number with or without a sign is read up to the first byte that is no digit; a text with no number in front is 0 |
| `Sender.PartsCover` | lib/connection.c:151-163 | the parts lie one behind the other, none longer than 800 bytes, and cover the message |
| `Sender.FrameFits` | lib/connection.c:179-187 | the size given to `snprintf` cuts nothing off |
| `Sender.Send` | lib/connection.c:144-192 | queues exactly the frames of the parts, in order, behind what was queued |
| `Sender.ServerReadsFrame` | lib/connection.c:187 | the server, as assumed above, takes channel and header out of a queued frame |
| `Sender.ServerWritesFrame` | lib/libortc.h:94 | what the server sends on is the frame that the message pattern expects, with the escaped text twice encoded |
| `Reassembly.CollectParts` | lib/message.c:41-49 | finds all parts or notices that one is missing, if and only if it is |
| `Reassembly.JoinedSize` | lib/message.c:50-54 | the bytes counted for the buffer plus those of the parts left in the list are those of the list before |
| `Reassembly.JoinParts` | lib/message.c:57-63 | the text is that of the parts in order, and exactly these parts leave the list |
| `Reassembly.CheckIfGotAllParts` | lib/message.c:30-68 | both together: a message if it is complete, and an unchanged list if it is not |
| `PartRuns.ReceiveIsRight` | lib/message.c:87-93 | one arrival: the list then holds the parts of incomplete messages in order of arrival, and a message is handed over if and only if it has become complete |
| `PartRuns.RunIsRight` | lib/message.c:30-93 | the same over every arrival order of the parts of any number of messages with distinct ids |
| `PartRuns.HandedOnce` | lib/message.c:30-93 | no message is handed over twice |
| `PartRuns.HandedAtLast` | lib/message.c:30-93 | a message whose parts all arrive is handed over, at the last of them |
| `Receiver.TakeMessage` | lib/message.c:79-81 | gets channel and text back from a frame made of them, through the compiled pattern |
| `Receiver.TakeHeader` | lib/message.c:82-86 | finds a header if and only if the multipart pattern matches, and copies the four captured fields |
| `Receiver.HeaderRead` | lib/message.c:82-86 | a text made of four fields is a header, and the fields found in it are these and no others |
| `Receiver.NoUnderscore` | lib/message.c:82 | a text without underscore is no header |
| `Receiver.FireOnMessage` | lib/message.c:19-28 | the callback of the first channel with that name is called with the unescaped text, or none is |
| `Receiver.CallbackIsStored` | lib/channel.c:72-73 | the callback given when a new channel is subscribed is the one that its messages call |
| `Receiver.StorePart` | lib/message.c:87-93 | for any fields: with a total above one the part is stored and the message fired when complete; otherwise the payload is fired at once and nothing is stored |
| `Receiver.ReceiveFrame` | lib/message.c:78-102 | takes a frame if and only if it begins with `a` and the message pattern matches, and leaves the others as they are to the branches that follow. On the frame of a channel and a text: with a header in the text, its fields are stored or fired; without one, the stored parts stay as they are and the callback of the channel gets the text |
| `Receiver.PartReceived` | lib/message.c:82-93 | on the frame of a part this is the arrival of the part |
| `Receiver.TextReceived` | lib/message.c:98-99 | a text without underscore reaches the first entry of its channel unescaped, if that has a callback, and no part is stored or joined; without backslashes it comes as it is |
| `Receiver.WholeReceived` | lib/message.c:87-93 | behind a header whose total is at most one, the payload is fired in the same way |
| `Delivery.WrittenIfRoom` | lib/connection.c:36-63 | the frame of a part is written if and only if keys, id, numbers and escaped part leave it room in the write buffer |
| `Delivery.ApostrophesHaveNoRoom` | lib/connection.c:59 | 800 apostrophes are a clean message of one part and have no room, whatever the keys |
| `Delivery.ServedPart` | lib/connection.c:158-191 | for every part of a message that fits, what is written comes out of the server as the frame that carries this part to `ReceiveFrame` |
| `Delivery.QueuedFrame` | lib/connection.c:158-191 | the frame at each place of the queue is that of the part with this number |
| `Delivery.DeliverIsRight` | lib/message.c:78-102 | over whole runs of the receiver, messages of a single part included, list and messages handed over are those of the specification |
| `Delivery.MessageDelivered` | lib/message.c:30-68 | from any number of messages that fit, with distinct ids, parts arriving once each in any order: a message whose parts all arrive is handed over at the last of them, as the wire form of the whole text, and at no other arrival |
| `Delivery.CallbackGets` | lib/message.c:19-28 | the callback of the channel then gets the original bytes of a message that fits if and only if the message is clean |
| `ReceiverRuns.ServedCarry` | lib/connection.c:187 | the frames that the server makes of what the sender has written carry the parts they were made of |
| `ReceiverRuns.ReceiveNext` | lib/message.c:78-102 | one frame more: the list is what the run of arrivals gives, and the callback is called as this arrival says |
| `ReceiverRuns.ReceiveAll` | lib/message.c:30-102 | from an empty list, whatever frames with parts of the messages come in whatever order: for every message whose parts are all among them exactly one callback is called, at the last of its parts, with its channel, and with its bytes if and only if it is clean; for a message with a part missing none is called, and its parts are what is left in the list |
| `PermissionScan.EntryEnds` | lib/channel.c:17-23 | where an entry begins, the compiled pattern matches it and captures both names |
| `PermissionScan.InsideFails` | lib/channel.c:17-23 | at no other place of an entry, nor at the comma behind it, does the pattern match, but for two: the closing quote of the channel when the hash is a single colon and the frame goes on, and the closing quote of the hash when the next channel is a single colon |
| `Permissions.SearchMatch` | lib/channel.c:22-27 | on every input, a match has its two groups inside the text, one behind the other, and is not empty, so that the loop advances and ends |
| `Permissions.Advance` | lib/channel.c:27 | the offset advances by the length of the match and so stays behind: what is left begins inside the same entry, or inside the next one, or holds none any more |
| `Permissions.PendingFound` | lib/channel.c:22-26 | a search from inside the frame finds the next entry, unless the state is misread; then it finds the text at one of those two quotes, which is no entry of the frame |
| `Permissions.SavePermissions` | lib/channel.c:7-35 | terminates on every text; `null` empties the list; for a frame of nonempty names without quotes and backslashes, if no reached state is misread, the list is the frame's pairs in order, each once or several times in a row, and otherwise it holds a pair that was read at such a quote |
| `Permissions.RightExactly` | lib/channel.c:22-33 | the list is right if and only if no reached state is misread, for frames without an entry that is itself such a pair |
| `Permissions.FourEntries` | lib/channel.c:22-33 | a frame of four entries, the last one for the channel `:`, is misread there: its list holds a pair that the frame does not |
| `Permissions.ColonFirst` | lib/channel.c:22-33 | with that entry in front of the others the frame is read right |
| `Permissions.NoColonsReadRight` | lib/channel.c:22-33 | no frame without a name that is a single colon is misread |
| `Permissions.StutterElements` | lib/channel.c:22-33 | such a list has the same pairs as the frame |
| `Permissions.StutterSearch` | lib/dlist.c:78-116 | every first-match search finds the same pair in it as in the frame |
| `Permissions.PermissionFromFrame` | lib/channel.c:53-60 | the permission of a channel is the hash of the first entry of the frame that covers it, wildcards included, or the empty text if none does |
| `OperationPatterns.OperationCompilable` | lib/libortc.h:91 | the operation pattern is the text of a well-formed tree that fits the buffers |
| `OperationPatterns.PermissionsCompilable` | lib/libortc.h:92 | the same for the permissions pattern |
| `OperationPatterns.ChannelCompilable` | lib/libortc.h:93 | the same for the channel pattern |
| `OperationFrames.OperationCaptures` | lib/message.c:103-105 | on a frame laid out as an operation the pattern matches and captures the type up to its closing quote and the parameters up to the end of the frame, whatever they hold |
| `OperationFrames.PermissionsCaptures` | lib/message.c:107-108 | the permissions are captured up to the last key `set` that stands behind them |
| `OperationFrames.LastKeyIs` | lib/libortc.h:92 | the key behind the permissions is the last one if and only if it does not occur in what follows |
| `OperationFrames.ChannelCaptures` | lib/message.c:115-116 | the channel is captured up to the last quote, whatever it holds |
| `OperationFrames.OperationInText` | lib/common.c:118-127 | whenever the operation pattern matches, on any input, its captures can be copied |
| `OperationFrames.PermissionsInText` | lib/common.c:118-127 | the same for the first group of the permissions pattern |
| `OperationFrames.ChannelInText` | lib/common.c:118-127 | the same for the channel pattern |
| `Exceptions.ExceptionCompilable` | lib/libortc.h:96 | the exception pattern is the text of a well-formed tree that fits the buffers |
| `Exceptions.ExceptionCaptures` | lib/message.c:133-135 | the search, which is not anchored, stops at the first key behind which the parameters end as an exception does, and captures up to that end |
| `Exceptions.TakeException` | lib/message.c:133-135 | an exception is found if and only if the key stands somewhere and the parameters end with its last three bytes behind it; it is the text between the first such key and these bytes |
| `Exceptions.ExceptionRead` | lib/libortc.h:96 | from parameters made of a text in front, the key, an exception and the end, the exception comes back if and only if the key does not occur before its place |
| `Operations.WhatMatches` | lib/libortc.h:92-93 | the parameters that the permissions pattern and the channel pattern match: by their first bytes, the key `set` somewhere behind, and the last two bytes |
| `Operations.TakeOperation` | lib/message.c:103-105 | gets type and parameters back from a frame made of them, through the compiled pattern |
| `Operations.TakePermissions` | lib/message.c:107-108 | from parameters made of permissions and a rest, gets the permissions back if and only if the key between the two does not occur in the rest |
| `Operations.TakeChannel` | lib/message.c:115-116 | gets the channel back |
| `Operations.ReadOperation` | lib/message.c:103-133 | a frame of any type and any parameters is read as validated, subscribed, unsubscribed or error if and only if its type begins with these very bytes, and otherwise as none of them; without permissions or channel if and only if the parameters do not match; the permissions of a report are read as they were written if and only if the key behind them does not occur again. A frame is left alone if and only if the pattern does not match |
| `Operations.HandleValidated` | lib/message.c:106-112 | saves the permissions if there are any, and requests CONNECTED in either case |
| `Operations.HandleError` | lib/message.c:132-138 | cancels the connection if and only if the parameters hold an exception, and returns it |
| `Operations.ReceiveOperation` | lib/message.c:103-143 | whatever the frame: CONNECTED is requested if and only if it is read as validated, and the connection is cancelled if and only if it is read as an error with an exception; for a frame of any type and parameters this means that the type begins with `ortc-validated`, or with `ortc-error` while the parameters hold an exception. The permissions change only if it brings some, a confirmation and an end of subscription change the list of channels. The frame of a validated connection, when the key behind its permissions does not occur again, leaves the list that `SavePermissions` promises for its entries |
| `Operations.ChannelsThen` | lib/message.c:114-131 | a confirmation adds 2 to the number of the first entry of its channel and leaves the others alone; the end of the subscription of the only such entry takes exactly that one out |
| `Operations.ReportIsNoMessage` | lib/message.c:79-103 | the message branch leaves these frames to the operation branch |
| `Channels.GetChannelPermission` | lib/channel.c:53-60 | the hash of the first entry that covers the channel, or the empty text |
| `Channels.PermissionIs` | lib/channel.c:53-60 | the hash stored with the first covering entry, whatever stands behind it; without one, the empty text |
| `Channels.WildPermission` | lib/dlist.c:98-116 | a hash stored under `p*` is the permission of every channel beginning with `p`, unless an entry before it covers the channel |
| `Channels.Subscribe` | lib/channel.c:62-76 | remembers the channel if wanted, and queues one command with its permission |
| `Channels.SubscribeFields` | lib/channel.c:74 | the command is a text in quotes that its semicolons cut into `subscribe`, the application key, the token, the channel and the permission |
| `Channels.SubscribeFits` | lib/channel.c:64-74 | the size given to `snprintf` cuts nothing off the command |
| `Channels.Unsubscribe` | lib/channel.c:78-93 | marks the first entry of the channel, keeps the others, and queues one command |
| `Channels.UnsubscribeFields` | lib/channel.c:90 | the command is cut into `unsubscribe`, the application key and the channel |
| `Channels.UnsubscribeFits` | lib/channel.c:79-90 | the size given to `snprintf` cuts nothing off the command |
| `Channels.OnSubscribed` | lib/message.c:117-119 | adds two to the first entry of the channel |
| `Channels.IsSubscribing` | lib/channel.c:95-103 | true if and only if the first entry of the channel has the number 0 or 1 |
| `Channels.Survivors` | lib/channel.c:42-47 | in every list, the first entry of a channel, once confirmed, survives a reconnection if and only if it was to be subscribed again; unconfirmed it does not, nor when it was being unsubscribed as the confirmation arrived |
| `Channels.SubscribeOnReconnected` | lib/channel.c:37-51 | deleting while it walks, with distinct ids: terminates, keeps exactly the entries with a number of 3 or more, in order, and queues exactly one command for each of them, in that order |
| `Channels.KeptConcat` | lib/channel.c:42-47 | which entries are kept: each by its own number, those of 3 or more |
| `Channels.CommandAt` | lib/channel.c:46-47 | the command at each place is the subscription of the entry at that place |
| `Presence.UnquoteQuote` | lib/presence.c:351-354 | the two replacements undo the escaping of backslash and quote, for every text |
| `Presence.UnquoteReads` | lib/presence.c:351-354 | on any quoted text they read a pair of a backslash and a backslash or quote as its second byte, and leave every other pair and byte as it is |
| `Presence.ScanPair` | lib/presence.c:364-365 | inside quotes, a backslash and whatever byte follows it leave the scanner in the state it was in |
| `Presence.ScanRecords` | lib/presence.c:326-368 | the flag-driven loop with its growing array finds the records of the scanner that only marks positions |
| `Presence.ParsePresence` | lib/presence.c:308-370 | the parser as a whole; it reports an error if and only if the reply has fewer than 19 bytes or no colon at place 16 |
| `Presence.ParseWritten` | lib/presence.c:255-370 | a reply whose quoted texts hold any plain bytes and any pairs of a backslash and a byte gives back its count and its records in order, each text after the two replacements; a count of 0 in the last record drops that record |
| `Presence.ParsePrinted` | lib/presence.c:255-370 | so printing any count and any records (any metadata, counts of 1 or more) and parsing gives back the count and the records in order |
| `StateMachine.Context.ChangeState` | lib/loops.c:166-173 | overwrites the mailbox and nothing else |
| `StateMachine.Context.OrtcConnect` | lib/ortc.c:212-241 | only a disconnected context is connected, and the next connection counts as the first |
| `StateMachine.Context.OrtcDisconnect` | lib/ortc.c:243-247 | a request, unless disconnected already |
| `StateMachine.Context.CancelConnecting` | lib/loops.c:486-490 | an error frame disconnects only while the handshake is awaited |
| `StateMachine.Context.MainTurn` | lib/loops.c:26-145 | one turn of the main thread takes the state where the transition relation leads, and fires the callback of that step |
| `StateMachine.Context.Switch` | lib/loops.c:44-144 | the switch goes to the requested state if and only if there is such an edge and the helper thread, where one is needed, could be started |
| `StateMachine.MoveFacts` | lib/loops.c:42-144 | over every run, the state moves only when the main thread wakes, along an edge, and then the mailbox holds the new state |
| `StateMachine.RequestBetween` | lib/loops.c:42-144 | between two transitions there is a request: none causes two |
| `StateMachine.ConnectedIsValidated` | lib/message.c:106-112 | CONNECTED is entered only from OPENED and only when a validated frame has arrived since OPENED was last entered, and nothing else has been requested since that frame |
| `StateMachine.FirstThenAgain` | lib/loops.c:79-88 | within a session the first entry to CONNECTED fires onConnected, every later one onReconnected |
| `StateMachine.NoOtherCalls` | lib/loops.c:79-122 | these calls, and onDisconnected, are fired at those entries and at no other time |
| `StateMachine.Connects` | lib/loops.c:45-88 | after any run that ends in DISCONNECTED: connecting, an open socket and a validated frame, each seen by the main thread in time, lead to CONNECTED, and onConnected is fired last and nothing before it |
| `StateMachine.ComesBack` | lib/loops.c:79-139 | after any run that ends in CONNECTED: a lost heartbeat, an open socket and a validated frame lead back to CONNECTED, and onReconnected is fired |
| `StateMachine.Disconnects` | lib/loops.c:57-135 | from every state but DISCONNECTED and QUITTING a request to disconnect and the end of clearing up lead to DISCONNECTED and fire onDisconnected |
| `StateMachine.Opens` | lib/loops.c:65-139 | from CONNECTING and from RECONNECTING a socket that opens leads to OPENED, even when the helper thread could not be started |
| `StateMachine.TimesOut` | lib/loops.c:27-37 | the timeout of the handshake leads to RECONNECTING, whatever has been requested |
| `StateMachine.ErrorDisconnects` | lib/loops.c:486-490 | an error frame leads from OPENED to DISCONNECTING and has no effect in any other state |
| `StateMachine.Quits` | lib/loops.c:161-164 | a request to quit is carried out from every state |
| `StateMachine.InVain` | lib/ortc.c:212-247 | connecting when not disconnected or not prepared, and disconnecting when disconnected, change nothing |
| `StateMachine.NotStarted` | lib/loops.c:49-94 | a step whose helper thread could not be started is not taken, and its request stays in the mailbox |
| `StateMachine.EnteredFrom` | lib/loops.c:44-144 | the states from which each state is entered, over every run; QUITTING is not left |
| `Outbound.Context.SendCommand` | lib/connection.c:128-134 | one more command behind the others |
| `Outbound.Context.SendMessage` | lib/connection.c:136-142 | one more message behind the others |
| `Outbound.Context.ResetThrottle` | lib/loops.c:284-287 | only the counter changes |
| `Outbound.Context.ClearQueues` | lib/loops.c:467-468 | disconnecting empties both queues and leaves the counter |
| `Outbound.Context.OnWriteable` | lib/connection.c:39-69 | one callback takes off what the specification of the two queues says, writes it if it has at most 1800 bytes, and asks to be called again if and only if the cap was not reached before and a command, or below the cap a message, is left |
| `Outbound.TakenInOrder` | lib/connection.c:39-69 | over every run, for both queues, what has been taken off and what is queued make up, in order, what was enqueued since the last clearing |
| `Outbound.Conserved` | lib/connection.c:36-69 | what has been written and what is queued make it up if and only if every item taken off has at most 1800 bytes |
| `Outbound.CommandsFirst` | lib/connection.c:43-54 | a message is taken off only when connected and when every command enqueued since the last clearing has been taken off |
| `Outbound.Throttled` | lib/connection.c:40-62 | the counter is the number of items taken off since the last reset, and never exceeds 2000 |
| `Outbound.NotStuck` | lib/connection.c:39-69 | with something queued and the cap not reached, a callback in CONNECTED takes an item off |

## Left out

- Non-greedy loops (`*?`, `+?`): the loop does not restore the offset after a failed continuation, so what is consumed need not be in the language; no pattern of the client uses them.
- Ill-formed patterns (a quantifier with nothing in front of it, brackets that do not match): patterns are the texts of well-formed trees. The errors for a missing `]` and for a `)` at level 0 are in the contracts of the methods that report them.
- Patterns that do not fit: `SlreCompile` is stated for patterns whose code fits 256 bytes and whose data fits 255; what happens beyond is in the contracts of `Emit`, `StoreCharInData` and `SetJumpOffset` only.
- Class escapes and `\0` inside sets: stored as the compiler stores them, and never interpreted as classes by the matcher, as in the code. Bytes from 128 on are never members of a set, because signed and unsigned bytes are compared.
- Patterns whose loop body may match the empty text: the interpreter need not terminate on them; `Match` requires every body to consume a byte.
- The empty pattern, which `SlreCompile` excludes: for it the code tests a byte of the code buffer that it has not written (lib/slre/slre.c:394).
- Completeness where something that can fail stands behind an alternative or an optional part, and for loops over more than one byte: these are not tried again, so the language may have a match that is not found; `BranchTakes`, `QuestTakes` and `GreedyIsLast` state which choice is made. The optional `a` of the message pattern is dealt with by a direct study of its runs.
- `slre_dump`. The calls of onSubscribed, onUnsubscribed and onException by the operation branch are the event and the exception that `ReceiveOperation` returns. The frames `o` and `c[1000` are not part of this model.
- Operations.ReceiveOperation: what is promised of the list of channels after an unsubscription is promised for the lists that `DList.List.Delete` keeps in order.
- Operations.ReadOperation: the frames of the reports are those that the patterns ask for; the repository has no other description of them.
- DList.List.Delete: the code goes on through the link of the node it has just freed, and the reconnect filter passes an id that belongs to that node; the theorems about both suppose that a freed node stays readable until the call is over.
- DList.List.DeleteEx: requires a nonempty list, which the code dereferences without a test; its only caller has found a node before.
- Freeing and duplicating memory: entries hold values, nodes taken off the list are forgotten, and allocation does not fail.
- Text.Replace: requires a nonempty text to look for, a length of at most `INT_MAX` and a result whose size fits an unsigned 64-bit number; the empty text is never looked for by the client.
- Decimals.AtoiDecimal: numbers are unbounded, so overflow of `int` is not modelled; `Reassembly` likewise takes totals as unbounded.
- Json.DecodeEncoded: characters are single bytes, so that `\u` escapes above `\u007F` and surrogates are refused rather than decoded.
- Delivery.MessageDelivered: the server is an assumption, keys and channel names hold no semicolon, quote, backslash or control byte, and ids are alphanumeric and distinct; that ids are random and could collide is not modelled.
- Delivery.CallbackGets: an empty message is queued as no part at all and never arrives; the property is about nonempty messages.
- Permissions.SavePermissions: for texts that are not frames of nonempty names without quotes and backslashes only termination is stated, and of a frame that is misread only that a pair read at a wrong place is stored, not what follows it.
- Channels.SubscribeOnReconnected: requires distinct ids, which the API does not guarantee when a channel is subscribed again while an unsubscription is pending.
- Presence.ParseWritten: replies are those of the printer in the model, with its fixed first key and without blanks; indices and counts are unbounded integers.
- StateMachine: liveness beyond the runs named in the table. The mailbox has one slot, so that a request can be overwritten before the main thread wakes. The mailbox begins with the state DISCONNECTED. The helper threads, their `loop_active` flags, joins and sleeps are inputs of a run; that a context quits is an input, too.
- Outbound.Context.OnWriteable: an item of more than 1800 bytes does not fit the write buffer; it is reported as unfit, and what the code does from there on is undefined and not modelled. The websocket write itself and partial writes are not modelled either.
- REST calls, balancer, authentication, heartbeats, public argument checks, version strings, debug output: input and output, or easy.
