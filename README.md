# LW3 protocol core in Dafny

This project models the core of lwnoodle. lwnoodle is a TypeScript library that speaks LW3, a line-based text protocol for device control. In LW3, a client talks to a tree of nodes. Each node has properties, methods and child nodes.

- The client sends `GET`, `SET`, `CALL`, `MAN`, `OPEN` and `CLOSE` commands.
- Each command is wrapped in a signed block: a `XXXX#` prefix on the request, and a reply between `{XXXX` and `}`.
- The server answers each command and pushes `CHG` lines to subscribed sockets when a property changes.

The model follows the source file by file.

- **Escaping** (`escaping.dfy`): `escape` as a map over characters, and `unescape` as the ten successive global replacements the source makes. The round trip is proved whenever no backslash is directly followed by `t`, `n` or `r`, in particular for text without backslashes. A backslash followed by `t` comes back as a TAB.
- **Common** (`common.dfy`, `strings.dfy`): value conversion (`convertValue`) into a `Value` datatype, plus the JavaScript string operations the protocol code relies on: `indexOf`, `substring`, `split`, `trim`, the upper-case comparison with `TRUE` and `FALSE`, and the sorted listing of keys.
- **Errors** (`noodle.dfy`, `lw3server.dfy`):
  - the LW3 error-code enumeration and its texts;
  - the `%Ennn:` error header;
  - the minimal line server of `src/lw3server.ts`.
- **Client engine**:
  - `lwclient_spec.dfy` holds pure functions for each step: the request queue, block reception, `CHG` handling, subscriptions and the property cache.
  - `lwclient.dfy` holds the `LwClient` class. Its methods update the same fields as the source, and each method is proved against those functions.
- **Transport** (`framing.dfy`, `tcpclient.dfy`, `tcpserver.dfy`, `wsclient.dfy`, `wsserver.dfy`): the four connection classes, with their output buffering, drain handling, reconnection scheduling and frame cutting at the delimiter.
- **Server node tree**:
  - `server_spec.dfy` and `server_tree.dfy` model the proxy traps (`get`, `set`, `deleteProperty`, `ownKeys`), `toJSON`/`fromJSON`, and the `on`/`once`/`off` subscriptions with their callback sweep. Each works over a heap of nodes addressed by identity.
  - `server.dfy` holds the `NoodleTree` class, which changes that heap in place.
- **LW3 server** (`lwserver_spec.dfy`, `lwserver.dfy`, `lwserver_props.dfy`): the command dispatcher. It covers path lookup, the reply text for each command, signed blocks, sessions, and `CHG` delivery. The `LwServer` class is proved against the dispatcher functions.

Everything outside the program is a parameter or a log, not a call.

- **Socket writes.** What `socket.write` returns is a parameter. The calls made on a socket are kept in a log.
- **User code.** Property setters and method bodies are oracle functions.
- **Callbacks and events.** User listeners are identified by number. The calls they receive are kept in a notification log. Emitted events are kept in an event log.
- **Timers.** Timer expiry and the retry timer are event methods that the environment calls.
- **Promises.** A settled promise is an `Outcome` value.

Some behaviour of the source differs from what its documentation suggests. The model follows the code. These points are stated and proved as written:

- a reply block that ends is taken off the wait list by two successive `splice` calls;
- `*` is not a wildcard on the server side;
- registering a close listener on a node creates a method on it;
- a cached value that was converted from a `GET` reply makes a later cache hit reject;
- a listener removed during a callback sweep makes the sweep skip the next listener.

## Model

| member | source | states |
|---|---|---|
| Strings.IndexOf | src/lwserver.ts:100 | the result is -1 exactly when the pattern occurs nowhere, and otherwise the first position where it occurs |
| Strings.Substring | src/lwserver.ts:104-105 | `substring` with bounds in order and inside the text is exactly that slice, and never longer than the text |
| Strings.SubstringClamps | src/lwserver.ts:104-105 | `substring` clamps a negative bound to 0 and one past the end to the length, and swaps bounds given in the wrong order |
| Strings.Split | src/lwserver.ts:204-205 | `split` on a non-empty separator gives pieces that join back to the text and hold no separator |
| Strings.SplitOnJoin | src/common.ts:22 | splitting undoes joining for pieces that do not hold the separator |
| Strings.SortedKeys | src/lwserver.ts:140-141 | `Object.keys(...).sort()` lists each key once, in increasing code-point order |
| Strings.NatToDecimal | src/lw3server.ts:89 | `toString()` of a count is a non-empty run of digits, a single digit exactly when the count is below 10, ending in the count's last digit |
| Strings.DecimalRoundTrip | src/lw3server.ts:89 | reading back the decimal form of `n` gives `n` |
| Strings.DecimalNoLeadingZero | src/lw3server.ts:89 | a decimal form has a leading zero only when it is `0` itself |
| Strings.LastThreeDigits | src/lw3server.ts:89 | `('00' + n.toString()).substr(-3)` is three digits reading as `n` modulo 1000, so `n` itself when `n < 1000` |
| Strings.ThreeDigitsTail | src/lw3server.ts:89 | the last three digits of a decimal text read as its value modulo 1000 |
| Strings.Hex4 | src/lwclient.ts:114 | the signature of a counter below 0x10000 is exactly four characters long |
| Strings.Hex4Digits | src/lwclient.ts:114 | each of the four characters is an upper-case hexadecimal digit |
| Strings.Hex4RoundTrip | src/lwclient.ts:114 | a signature reads back as the counter it was made from |
| Strings.Hex4Injective | src/lwclient.ts:114 | distinct counters give distinct signatures |
| Strings.IndexOfChar | src/lwclient.ts:340 | the result is -1 exactly when the character does not occur, and otherwise its first position |
| Strings.SplitOn | src/common.ts:22 | splitting at a character gives at least one piece; the pieces join back to the text and none holds the character |
| Escaping.SpecialIndex | src/escaping.ts:8-18 | every special character has a pass among the ten, and that pass handles exactly it |
| Escaping.EscapeIsEach | src/escaping.ts:8-18 | the ten chained `replace` passes of `escape` equal the per-character map: each special character becomes a backslash and its code, every other character stays |
| Escaping.EscapeConcat | src/escaping.ts:8-18 | the per-character map distributes over concatenation |
| Escaping.EscapeLength | src/escaping.ts:8-18 | the escaped length is the original length plus the number of special characters |
| Escaping.EscapeNoLineBreaks | src/escaping.ts:10-12 | an escaped value holds no TAB, LF or CR, so it cannot break a newline-framed line |
| Escaping.EscapeFixedPoint | src/escaping.ts:8-18 | a value with none of the ten special characters is its own escape |
| Escaping.UnescapeFixedPoint | src/escaping.ts:27-37 | a value with no backslash is its own unescape |
| Escaping.ReplacePassSplit | src/escaping.ts:28-37 | one global `replace` pass over `x + y` is the pass over `x` followed by the pass over `y` when `x` does not end in a lone backslash |
| Escaping.UnescapeSplit | src/escaping.ts:27-37 | unescaping `x + y` unescapes `x` and `y` apart under the same condition |
| Escaping.PassesOnPair | src/escaping.ts:28-37 | of the ten passes, only the one for code `j` rewrites the escaped pair `\<code j>` |
| Escaping.UnescapeEscapeChar | src/escaping.ts:5-39 | unescape undoes the escape of any single character other than a backslash |
| Escaping.FirstPass | src/escaping.ts:28 | the backslash pass over an escaped string halves every doubled backslash and keeps every other pair |
| Escaping.RoundTrip | src/escaping.ts:5-39 | `unescape(escape(s)) == s` whenever no backslash of `s` is followed by `t`, `n` or `r` |
| Escaping.RoundTripNoBackslash | src/escaping.ts:5-39 | `unescape(escape(s)) == s` for every `s` without a backslash |
| Escaping.RoundTripFailsOnBackslash | src/escaping.ts:28-29 | a backslash followed by `t` escapes to `\\t` and comes back as a single TAB: the backslash pass runs before the `\t` pass |
| Escaping.DoubleRoundTrip | src/__tests__/escaping.test.ts:14 | escaping twice and unescaping twice gives back any string without a backslash |
| Escaping.AccentedVector | src/__tests__/escaping.test.ts:6 | the accented test value is its own escape and unescape, and survives the double round trip |
| Escaping.ControlVector | src/__tests__/escaping.test.ts:7 | the value with LF and TAB escapes to the expected text and survives both round trips |
| Escaping.BracketEscape | src/__tests__/escaping.test.ts:8 | `hello{}\()` escapes to the expected text |
| Escaping.BracketUnescape | src/__tests__/escaping.test.ts:8 | the expected text unescapes back to `hello{}\()` although the value holds a backslash |
| Escaping.BracketDoubleRoundTrip | src/__tests__/escaping.test.ts:14 | `hello{}\()` survives the double round trip |
| Escaping.HashPercentEscape | src/__tests__/escaping.test.ts:9 | `#` and `%` are escaped in `test#dfs%dfsd` |
| Escaping.HashPercentUnescape | src/__tests__/escaping.test.ts:9 | the escaped text unescapes back, and the double round trip holds |
| Common.ConvertScalar | src/common.ts:25-28 | a `;`-free value never converts to a list |
| Common.TrimStart | src/common.ts:20 | `trim` drops exactly the leading run of JavaScript white space |
| Common.TrimEnd | src/common.ts:20 | `trim` drops exactly the trailing run of JavaScript white space |
| Common.ListPieces | src/common.ts:22-23 | no piece of a list holds a `;` |
| Common.ConvertAll | src/common.ts:24 | converting the pieces keeps their number, and no element is itself a list |
| Common.ConvertScalarCases | src/common.ts:20-28 | a `;`-free value is a number exactly when its trimmed form is non-empty and numeric, and then carries the trimmed text; otherwise it is `false`/`true` exactly when the untrimmed text spells it in any letter case; anything else comes back unchanged |
| Common.ListPiecesJoin | src/common.ts:21-23 | a value with a `;` has at least one piece, and the pieces, with the dropped empty piece put back when there was one, join to the value |
| Common.ConvertList | src/common.ts:21-24 | a value with a `;` becomes a non-empty list, one element per piece, each the conversion of its piece and none a list |
| Common.ConvertAllAt | src/common.ts:24 | element `i` of the list is the conversion of piece `i` |
| Common.ConvertNeverNested | src/common.ts:21-24 | a converted list never holds a list |
| Common.TrailingSeparatorExample | src/common.ts:21-23 | `"1;"` converts to the one-element list `[1]` |
| Common.LoneSeparatorExample | src/common.ts:21-23 | `";"` converts to `[""]`: only one of its two empty pieces is dropped |
| Common.JoinedPieces | src/common.ts:21-23 | two or more `;`-free pieces, the last non-empty, joined with `;` split back into exactly those pieces |
| Common.ConvertJoined | src/common.ts:21-24 | such a joined text converts to the list of its pieces' conversions |
| Common.ConvertJoinedAs | src/common.ts:21-24 | once each piece's conversion is known, the joined text converts to exactly the list of those values |
| Common.TrueIsBool | src/common.ts:27 | `true` converts to the boolean `true` |
| Common.FalseIsBool | src/common.ts:26 | `false` converts to the boolean `false` |
| Common.DigitIsNumber | src/common.ts:25 | a single digit converts to a number |
| Common.LetterOIsString | src/common.ts:28 | `O1` is neither numeric nor a boolean and comes back unchanged |
| Common.MixedListExample | src/__tests__/LwClient.test.ts:52 | `true;false;1;2;3;O1` converts to the list `[true, false, 1, 2, 3, "O1"]` |
| Common.SixPieces | src/common.ts:21-24 | six `;`-free pieces, the last non-empty, joined with `;` convert piece by piece |
| Common.ConvertCons | src/common.ts:21-24 | a `;`-free piece in front of a list puts its conversion in front of the list's elements |
| Common.PiecesCons | src/common.ts:22-23 | the pieces of `p;rest` are `p` followed by the pieces of `rest` |
| Noodle.Number | src/noodle.ts:70-84 | every member of the enumeration stands for a number from 0 to 12 |
| Noodle.MemberOf | src/noodle.ts:70-84 | a number names a member exactly when it lies in 0..12, and that member stands for the number |
| Noodle.NumberingConsecutive | src/noodle.ts:70-84 | the members are numbered 0..12 without gaps or repeats: each member is the one its number names |
| Noodle.NumberInjective | src/noodle.ts:70-84 | two members with the same number are the same member |
| Noodle.ErrorCodeString | src/noodle.ts:93-122 | every code has a non-empty text, and the text is "Unknown error" exactly for the codes outside 1..12, 0 included |
| Noodle.TextIdentifiesCode | src/noodle.ts:93-122 | the text of a code in 1..12 is read back as that code and every other code's text as 0, so the twelve texts are distinct from each other and from "Unknown error" |
| Noodle.ErrorCodeStringInjective | src/noodle.ts:93-122 | two different known codes have different texts |
| Noodle.NewLw3Error | src/noodle.ts:86-91 | the error stores the code it was made with, and its message is that code's error text, which reads back as the code (0 outside 1..12) |
| Lw3Server.ErrorCodeString | src/lw3server.ts:57-86 | every code has a non-empty text |
| Lw3Server.ErrorTablesAgree | src/lw3server.ts:57-86 | the server's text table and the one in src/noodle.ts agree on every number |
| Lw3Server.HeaderFormat | src/lw3server.ts:88-90 | a header for a non-negative code is `%E`, three digits reading as the code modulo 1000, `:` and the code's text |
| Lw3Server.HeaderPadded | src/lw3server.ts:89 | a code below 1000 appears in full, zero-padded to three digits |
| Lw3Server.HeaderTruncated | src/lw3server.ts:89 | a code of 1000 or more keeps only its last three digits |
| Lw3Server.SyntaxHeader | src/lw3server.ts:142 | the syntax-error header is `%E001:Syntax error` |
| Lw3Server.ErrorLine | src/lw3server.ts:142 | the error line for a command text is `-E <text> %E001:Syntax error` |
| Lw3Server.StubReplyLines | src/lw3server.ts:136-145 | read back line by line, a signed line's reply is `{` with the signature, the syntax error for the text after `#`, and `}`; any other line's reply is the syntax error for the whole line; both end with a newline |
| Lw3Server.Reply | src/lw3server.ts:132-145 | the reply built by the handler's appends is the reply `StubReplyLines` describes |
| Lw3Server.Lw3Server.constructor | src/lw3server.ts:92-95 | a new server has no sessions and has written nothing |
| Lw3Server.Lw3Server.Connect | src/lw3server.ts:109-117 | `connect` files a fresh, empty, unauthenticated session under the socket id and leaves the other sessions alone |
| Lw3Server.Lw3Server.Close | src/lw3server.ts:118-122 | `close` deletes exactly that socket's session |
| Lw3Server.Lw3Server.LineRcv | src/lw3server.ts:132-147 | one line makes exactly one write, of that line's reply, to the socket it came from |
| LwClientSpec.Frames | src/lwclient.ts:112-119 | a run of commands produces one framed line per command |
| LwClientSpec.Waits | src/lwclient.ts:112-119 | a run of commands leaves one wait-list entry per command |
| LwClientSpec.FramesSnoc | src/lwclient.ts:112-119 | one more command adds exactly its own line and wait entry, under the signature of the counter advanced by the commands before it, wrapped at 0x10000 |
| LwClientSpec.FramesAt | src/lwclient.ts:112-119 | command i of a run goes out, and waits, under the 4-digit hex signature of counter value start + i modulo 0x10000, carrying its own command text and callback |
| LwClientSpec.WaitSignaturesDistinct | src/lwclient.ts:114-119 | commands sent in one run of at most 0x10000 wait under pairwise distinct signatures |
| LwClientSpec.FirstWaiting | src/lwclient.ts:226-227 | the index found is the first entry waiting under the signature, and -1 exactly when none does |
| LwClientSpec.SpliceTwiceDropsNext | src/lwclient.ts:229-238 | splicing the answered index twice removes the answered entry and the one after it (only the answered one when it was last) |
| LwClientSpec.SpliceTwiceLosesFollower | src/lwclient.ts:229-238 | with distinct signatures, after the double splice neither the answered signature nor the following entry's signature is waited for any more |
| LwClientSpec.AfterEq | src/lwclient.ts:293-296 | the text after the first `=`, and the empty text when the line has no `=` |
| LwClientSpec.SetOutcome | src/lwclient.ts:257-273 | the SET callback throws on an empty reply, resolves exactly when the first line's second character is not `E`, and otherwise rejects with "Error received: " and the lines joined by commas |
| LwClientSpec.CallOutcome | src/lwclient.ts:281-306 | the CALL callback resolves exactly on a single line starting with `mO `, with the text after its first `=`; a single `mE ` line rejects with the text after its `=`; every other reply rejects and fails pending syncs |
| LwClientSpec.GetOutcome | src/lwclient.ts:331-348 | the GET callback resolves exactly on a single non-empty line starting with `p` and holding a `=`, with the converted unescaped text after the first `=`; otherwise it rejects |
| LwClientSpec.FirstMalformed | src/lwclient.ts:364-368 | there is no result exactly when every property line has a `=`; a result is a property line of the reply without one |
| LwClientSpec.FetchedSound | src/lwclient.ts:364-373 | every (property, text) pair FETCHALL takes comes from a well-formed property line of the reply naming that property |
| LwClientSpec.FetchedComplete | src/lwclient.ts:364-373 | every well-formed property line of the reply contributes its pair |
| LwClientSpec.StoreAllKeys | src/lwclient.ts:370-372 | storing the fetched pairs keeps every cached property, adds exactly the fetched names, and a name fetched twice keeps its last value |
| LwClientSpec.FetchNotifiedNames | src/lwclient.ts:373 | each listener call names the fetched node and the pair's property |
| LwClientSpec.FetchedSnoc | src/lwclient.ts:364-368 | one more reply line adds at most its own pair, and changes the malformed-line search only when it is the first property line without `=` |
| LwClientSpec.FetchLineStep | src/lwclient.ts:364-375 | a well-formed property line adds one pair, one cache store and one listener call with the converted value; any other line adds nothing |
| LwClientSpec.FetchRunSpec | src/lwclient.ts:363-378 | handling the lines one by one finds the first malformed line, stores every well-formed pair in order and calls the listener once per pair, in order |
| LwClientSpec.FetchRunStep | src/lwclient.ts:364-376 | one more reply line moves the malformed-line search, the cache and the listener calls of FetchRunSpec along together |
| LwClientSpec.FetchPairStep | src/lwclient.ts:369-373 | a well-formed property line adds exactly one cache store and one listener call and leaves the malformed-line search alone |
| LwClientSpec.FetchAllOutcome | src/lwclient.ts:359-383 | FETCHALL resolves exactly when every property line holds a `=`; otherwise it rejects |
| LwClientSpec.CacheHit | src/lwclient.ts:319-327 | a cache hit resolves with the converted value exactly when the cached entry is text a CHG stored or a converted string; any other cached value rejects with a TypeError |
| LwClientSpec.NumericCacheBreaksGet | src/lwclient.ts:323-345 | once a GET reply cached a numeric value, the entry counts as a hit and the next GET of that property rejects with a TypeError |
| LwClientSpec.SplitCount | src/lwclient.ts:314 | splitting at a character yields one more piece than the text has occurrences of it |
| LwClientSpec.PathParts | src/lwclient.ts:314-316 | GET accepts a property as node.property exactly when it holds one `.` |
| LwClientSpec.StripSlash | src/lwclient.ts:395 | a path ending in `/` loses exactly that `/`; any other path is kept |
| LwClientSpec.RuleParts | src/lwclient.ts:397-405 | the empty rule and `*` filter on nothing |
| LwClientSpec.RulePartsProperty | src/lwclient.ts:401-405 | a rule without `=` filters on that property and on no value |
| LwClientSpec.RulePartsPair | src/lwclient.ts:401-405 | a rule property=value with no other `=` filters on exactly that property and that value |
| LwClientSpec.ChgParts | src/lwclient.ts:189-198 | a change line is ignored exactly when it has no `=` after the keyword |
| LwClientSpec.ParseChg | src/lwclient.ts:189-199 | a change line is ignored exactly when it has no `=` after the keyword, and the value handed to subscribers is the converted text |
| LwClientSpec.ParseChgLine | src/lwclient.ts:189-198 | the line CHG node.property=text parses back into that node, that property and the unescaped text |
| LwClientSpec.ChgUpdated | src/lwclient.ts:207-220 | every subscriber is kept in place, each charged for the change as it fires |
| LwClientSpec.Counted | src/lwclient.ts:214-217 | charging a subscriber keeps its id, path and callback |
| LwClientSpec.ChgUpdatedValid | src/lwclient.ts:207-220 | charging the subscribers keeps their ids increasing and below the counter |
| LwClientSpec.ChgNotifiedIff | src/lwclient.ts:207-213 | a change reaches a listener exactly when one of its subscriptions watches the node, the property (directly, by `*` or by the empty rule) and the value (or none) |
| LwClientSpec.ChgNotifiedShape | src/lwclient.ts:213 | every notification carries the change's node, property and converted value |
| LwClientSpec.ChgToCloseFired | src/lwclient.ts:214-221 | a subscription is closed by a change exactly when it fires with one call left |
| LwClientSpec.FindSub | src/lwclient.ts:435-438 | the index found is the first subscription matching the id or callback, and -1 exactly when none does |
| LwClientSpec.CloseStep | src/lwclient.ts:439-446 | an unknown reference changes nothing; otherwise the first match is removed, and its path is to be closed exactly when no remaining subscription watches it |
| LwClientSpec.RemoveKeepsIncreasing | src/lwclient.ts:444 | removing a subscription keeps the ids increasing |
| LwClientSpec.CloseRequests | src/lwclient.ts:447-455 | one CLOSE command per path, each answered by the CLOSE reply check for that path |
| LwClientSpec.CloseRequestsSnoc | src/lwclient.ts:447 | one more closed path adds one more CLOSE command at the end |
| LwClientSpec.CloseAll | src/lwclient.ts:221 | closing a run of ids never adds subscriptions |
| LwClientSpec.OpenRequests | src/lwclient.ts:94-109 | one OPEN command per path, none with a reply callback |
| LwClientSpec.FirstPathsExact | src/lwclient.ts:100-105 | the paths reopened after a reconnect are exactly the subscribed paths, each once |
| LwClientSpec.FirstPathsOrdered | src/lwclient.ts:100-105 | the reopened paths come in order of their first appearance among the subscribers |
| LwClientSpec.HandlerEffect | src/lwclient.ts:257-461 | a reply callback is pending exactly when there is none, throws exactly when a SET or OPEN callback gets no lines, keeps the subscribers' ids valid, only adds notes, and changes the subscribers only when an OPEN succeeds, by appending the new subscription under the current counter, which it resolves with |
| LwClientSpec.ShiftQueue | src/lwclient.ts:230-236 | shifting leaves the wait-list and sync waiters alone and moves lines from the queue to the wire without losing or adding any |
| LwClientSpec.AnswerEffect | src/lwclient.ts:225-243 | a reply removes the answered entry and, unless its callback throws, the entry after it too; a thrown callback rejects the syncs and empties nothing else; the callback's outcome and store are those of HandlerEffect |
| LwClientSpec.ChgEffect | src/lwclient.ts:187-222 | a change keeps the subscription counter and appends exactly the notifications of the subscriptions it reaches |
| LwClientSpec.ChgEffectCache | src/lwclient.ts:200-205 | a change caches its unescaped text under its node and property, creating the node's entry if needed, and leaves every other node's entry alone |
| LwClientSpec.SendOne | src/lwclient.ts:112-119 | while connected a command extends the written lines and the wait-list and the counter stays below 0x10000; while disconnected nothing changes |
| LwClientSpec.SendAll | src/lwclient.ts:112-119 | a run of commands keeps the connection flag and the counter below 0x10000 |
| LwClientSpec.SendAllSnoc | src/lwclient.ts:112-119 | one more command is one more cmdSend on the state the run left |
| LwClientSpec.SendAllFrames | src/lwclient.ts:112-119 | while connected a run appends exactly its framed lines and wait entries under consecutive signatures from the counter, which advances by the run's length modulo 0x10000; while disconnected nothing changes |
| LwClientSpec.ChgStep | src/lwclient.ts:187-222 | a change line without `=` changes nothing; every change keeps the connection flag and the counter below 0x10000 |
| LwClient.LwClient.constructor | src/lwclient.ts:64-82 | a new client is disconnected, with no subscriptions, no pending or queued commands, counters at 0, no block open and an empty cache |
| LwClient.LwClient.SocketClosed | src/lwclient.ts:89-92 | after the connection reports a close, the client counts as disconnected |
| LwClient.LwClient.SocketConnected | src/lwclient.ts:94-110 | a connect clears the request state, the block and the cache, keeps the subscriptions, and sends one OPEN per subscribed path, once each, in order of first appearance, from signature 0000 |
| LwClient.LwClient.ReopenAll | src/lwclient.ts:103-109 | the reopening loop sends exactly the OPEN commands for the subscribed paths, each once |
| LwClient.LwClient.CmdSend | src/lwclient.ts:112-119 | while connected a command is written as SSSS#cmd under the counter's signature, waits under that signature, and the counter advances modulo 0x10000; while disconnected nothing changes |
| LwClient.LwClient.CheckSyncPromises | src/lwclient.ts:143-152 | the sync waiters are all resolved exactly when nothing is queued and nothing is pending, and kept otherwise |
| LwClient.LwClient.FindWaiting | src/lwclient.ts:123-124 | the loop finds the first pending entry waiting under the signature, or -1 |
| LwClient.LwClient.Timeout | src/lwclient.ts:120-140 | a timer fired for a signature that is no longer waited for changes nothing; otherwise the first entry under it is dropped, rejected with "no answer, timeout" when it has a timeout callback, the next queued line goes out and the sync waiters are settled |
| LwClient.LwClient.Expire | src/lwclient.ts:124-135 | the expired entry is removed, the next queued line is written, and the sync waiters are rejected when the timeout callback rejects, otherwise resolved when nothing is left |
| LwClient.LwClient.LineRcv | src/lwclient.ts:166-184 | an empty line changes nothing; a CHG line is handled as a change at once; outside a block `{` opens one under the four characters after it and anything else is ignored; inside a block `}` answers the block and closes it unless the callback threw, and any other line is collected |
| LwClient.LwClient.FrameLine | src/lwclient.ts:170-183 | a line opens a block, is collected into the open block, or is ignored, and nothing else changes |
| LwClient.LwClient.BlockEnd | src/lwclient.ts:177-180 | the collected block is answered as BlockRcv says; the block is emptied and closed unless the callback threw, in which case both stay as they were |
| LwClient.LwClient.ChgRcv | src/lwclient.ts:187-222 | a change line without `=` changes nothing; otherwise the cache, subscribers and notifications change as ChgEffect says and one CLOSE goes out for each path it reports |
| LwClient.LwClient.ApplyChg | src/lwclient.ts:199-221 | the store after a parsed change is ChgEffect's, and the wire carries exactly the CLOSE commands for the paths it closes |
| LwClient.LwClient.Notify | src/lwclient.ts:207-220 | the subscriber loop charges each subscriber, appends exactly the notifications of those the change fires, and collects the ids that run out |
| LwClient.LwClient.NotifyOne | src/lwclient.ts:208-219 | one subscriber is charged; it is notified exactly when the change fires it, and its id is collected exactly when its limited count reaches zero |
| LwClient.LwClient.CloseEach | src/lwclient.ts:221 | closing the collected ids leaves the subscribers as CloseAll says and sends exactly the CLOSE commands for the paths it reports |
| LwClient.LwClient.CloseOne | src/lwclient.ts:431-447 | one CLOSE of the loop removes the subscription as CloseStep says and adds its path to the closed paths exactly when the node goes out on the wire |
| LwClient.LwClient.BlockRcv | src/lwclient.ts:225-243 | a block whose signature nothing waits for changes nothing; otherwise the first entry waiting under it is answered as AnswerEffect says |
| LwClient.LwClient.Answer | src/lwclient.ts:228-240 | the answered entry's removal, the queue shift, the callback's store and outcome, and the second splice are those of AnswerEffect |
| LwClient.LwClient.Settle | src/lwclient.ts:238-239 | the second splice removes whatever entry now sits at the answered index, if any, and the sync waiters are resolved when nothing is left |
| LwClient.LwClient.Dequeue | src/lwclient.ts:229-236 | the entry is taken off the wait list and, when replies are awaited and a line is queued, the first queued line is written |
| LwClient.LwClient.RunHandler | src/lwclient.ts:257-461 | running a callback gives the outcome and store HandlerEffect says, and a rejection that fails syncs drops every sync waiter |
| LwClient.LwClient.GetRun | src/lwclient.ts:333-348 | the GET callback's outcome and cache are GetEffect's, and a rejection drops the sync waiters |
| LwClientSpec.OpenAccepted | src/lwclient.ts:408 | the OPEN reply is accepted exactly when its first line starts with `o` and the path occurs in it |
| LwClient.LwClient.OpenRun | src/lwclient.ts:407-416 | the OPEN callback's outcome, subscribers and cache are OpenEffect's |
| LwClient.LwClient.FetchAllLines | src/lwclient.ts:363-378 | the FETCHALL callback's outcome is FetchAllOutcome, it notifies the listener once per well-formed property line in order, and stores those values in the node's cache only when the node is cached |
| LwClient.LwClient.FetchLine | src/lwclient.ts:364-375 | a property line with `=` stores its converted value under its name and notifies the listener; a property line without `=` is malformed; any other line changes nothing |
| LwClient.LwClient.Set | src/lwclient.ts:257-273 | SET sends exactly "SET property=" followed by the escaped value, with the SET reply callback, and the promise stays pending |
| LwClient.LwClient.Call | src/lwclient.ts:281-306 | CALL sends exactly "CALL property(" followed by the escaped parameter and ")", with the CALL reply callback |
| LwClient.LwClient.Get | src/lwclient.ts:313-353 | a property without exactly one `.` is rejected and fails the syncs without sending; a cached property answers from the cache without sending; otherwise one GET goes out whose callback stores into that node and property |
| LwClient.LwClient.FetchAll | src/lwclient.ts:359-383 | FETCHALL sends exactly "GET path.*" with the FETCHALL callback for that path and listener |
| LwClient.LwClient.Open | src/lwclient.ts:393-423 | the first subscription to a path (after dropping one trailing `/`) sends OPEN and subscribes nothing yet; a further one subscribes at once under the next id with the rule's filters and sends nothing |
| LwClient.LwClient.Close | src/lwclient.ts:431-461 | an unknown id or callback is rejected and nothing changes; otherwise the first match is removed, and CLOSE goes out exactly when no other subscription watches its path, else the promise resolves at once |
| LwClient.LwClient.Unsubscribe | src/lwclient.ts:444 | exactly the subscription at the index is removed, keeping the ids valid |
| LwClient.LwClient.Sync | src/lwclient.ts:473-484 | sync resolves at once exactly when nothing is queued or pending, and otherwise adds one waiter |
| Framing.Cut | src/tcpclientconnection.ts:96-101 | the frames and the remainder joined by the delimiter give back the whole text, and neither the remainder nor any frame holds the delimiter |
| Framing.Receive | src/tcpclientconnection.ts:94-109 | the kept buffer never holds the delimiter nor exceeds 1e6 characters; it is dropped, with an error, exactly when the remainder exceeds that; frames and remainder give back buffer plus data |
| Framing.FirstFull | src/tcpclientconnection.ts:83-91 | the first write from the given one that the socket reports full: every earlier one was accepted |
| Framing.Flushed | src/tcpclientconnection.ts:80-92 | a drain writes every queued message, or stops right after the first write the socket reports full, every earlier one having been accepted |
| Framing.FrameEvents | src/tcpclientconnection.ts:97-100 | one frame event per frame, in order |
| Framing.FrameEventsAppend | src/wsclientconnection.ts:58 | one more frame at the end adds its event at the end |
| Framing.SplitFirstStep | src/wsclientconnection.ts:54-60 | cutting the text before the first delimiter off the buffer keeps "frames taken, then the buffer's pieces, are the pieces of the whole input" |
| Framing.SplitAtFirst | src/wsclientconnection.ts:54-57 | splitting at a delimiter gives the text before its first occurrence, then the pieces of the rest |
| Framing.SplitDone | src/wsclientconnection.ts:55-60 | once the buffer holds no delimiter, the frames emitted are the complete frames of the whole input and the buffer is its remainder |
| TcpClient.Writes | src/tcpclientconnection.ts:83-86 | one write call per message, in order |
| TcpClient.TcpClientConnection.constructor | src/tcpclientconnection.ts:31-55 | a new connection is connecting with one connect call made, not connected, not shut down, with empty buffers and the newline delimiter |
| TcpClient.TcpClientConnection.OnSocketError | src/tcpclientconnection.ts:57-60 | an error is passed on exactly while connected |
| TcpClient.TcpClientConnection.OnSocketClosed | src/tcpclientconnection.ts:62-69 | a close disconnects, drops both buffers, emits close and schedules one reconnect exactly when not shut down |
| TcpClient.TcpClientConnection.OnSocketConnected | src/tcpclientconnection.ts:71-78 | a connect makes the socket connected and writable, no longer connecting, with nothing delayed, and emits connect |
| TcpClient.TcpClientConnection.OnSocketDrained | src/tcpclientconnection.ts:80-92 | a drain writes the delayed messages first in, first out, up to and including the first write reported full; the rest stay queued in order, and the socket counts as drained exactly when every write was accepted |
| TcpClient.TcpClientConnection.OnSocketData | src/tcpclientconnection.ts:94-109 | every complete frame of buffer plus data is emitted in order, the buffer becomes the remainder, and a remainder over 1e6 characters is dropped with an error |
| TcpClient.TcpClientConnection.StartConnect | src/tcpclientconnection.ts:111-118 | a connect call is made exactly when neither connected nor shut down |
| TcpClient.TcpClientConnection.OnRetryTimer | src/tcpclientconnection.ts:67 | a scheduled reconnect runs StartConnect once |
| TcpClient.TcpClientConnection.Write | src/tcpclientconnection.ts:125-135 | a message is dropped while disconnected, written at once while drained (drained becoming the write's result), delayed while fewer than 1024 wait, and otherwise dropped with an error |
| TcpClient.TcpClientConnection.SetFrameDelimiter | src/tcpclientconnection.ts:149-151 | the delimiter becomes the one given |
| TcpClient.TcpClientConnection.Close | src/tcpclientconnection.ts:163-166 | closing shuts the connection down and ends the socket exactly when connected |
| TcpClient.TcpClientConnection.Reopen | src/tcpclientconnection.ts:171-176 | reopening clears the shutdown and schedules one connection attempt exactly when it was shut down |
| TcpServer.Writes | src/tcpserverconnection.ts:56-59 | one write call on the socket per message, in order |
| TcpServer.TcpServerConnection.constructor | src/tcpserverconnection.ts:19-28 | a new server has no sockets, a socket count of 0 and the newline delimiter |
| TcpServer.TcpServerConnection.OnConnection | src/tcpserverconnection.ts:34-43 | an accepted socket gets the next id, which no open socket had, as a drained socket with empty buffers; the open count grows by one and connect is emitted |
| TcpServer.TcpServerConnection.OnClose | src/tcpserverconnection.ts:44-48 | a closed socket's entry, and only it, is removed, and close is emitted with its id |
| TcpServer.TcpServerConnection.OnSocketError | src/tcpserverconnection.ts:49-52 | a socket error is passed on with the socket's id |
| TcpServer.TcpServerConnection.OnDrain | src/tcpserverconnection.ts:53-65 | a drain writes the socket's delayed messages first in, first out, up to and including the first write reported full; the rest stay queued in order and the socket is drained exactly when every write was accepted |
| TcpServer.TcpServerConnection.OnData | src/tcpserverconnection.ts:66-83 | every complete frame of the socket's buffer plus data is emitted with its id, in order, the buffer becomes the remainder, and a remainder over 1e6 characters is dropped with an error |
| TcpServer.TcpServerConnection.Write | src/tcpserverconnection.ts:93-107 | a write to an unknown id changes nothing; otherwise the message is written at once while drained, delayed while fewer than 1024 wait, and otherwise dropped with an error |
| TcpServer.TcpServerConnection.GetConnectionCount | src/tcpserverconnection.ts:113-115 | the count is the number of open sockets |
| WsClient.WsClientConnection.constructor | src/wsclientconnection.ts:17-29 | a new connection opens a WebSocket at once and is connecting, not connected, not shut down, with an empty buffer and the newline delimiter |
| WsClient.WsClientConnection.StartConnect | src/wsclientconnection.ts:31-38 | a new WebSocket is opened and the connection is connecting |
| WsClient.WsClientConnection.OnOpen | src/wsclientconnection.ts:40-46 | an open makes the connection connected, no longer connecting, with an empty buffer, and emits connect |
| WsClient.WsClientConnection.OnMessage | src/wsclientconnection.ts:48-61 | binary data changes nothing; text emits every complete frame of buffer plus text in order and keeps the remainder |
| WsClient.WsClientConnection.CutFrames | src/wsclientconnection.ts:54-60 | the loop emits exactly the complete frames of the buffer, in order, and leaves the remainder |
| WsClient.WsClientConnection.OnClose | src/wsclientconnection.ts:63-69 | a close leaves the connection neither connected nor connecting, emits close and schedules one reconnect exactly when not shut down |
| WsClient.WsClientConnection.OnRetryTimer | src/wsclientconnection.ts:68 | a scheduled reconnect opens a new WebSocket |
| WsClient.WsClientConnection.Write | src/wsclientconnection.ts:82-88 | a message is sent exactly while connected |
| WsClient.WsClientConnection.Close | src/wsclientconnection.ts:76-80 | closing shuts the connection down and closes the WebSocket exactly when connected |
| WsClient.WsClientConnection.SetFrameDelimiter | src/wsclientconnection.ts:94-96 | the delimiter becomes the one given |
| WsClient.WsClientConnection.Reopen | src/wsclientconnection.ts:102-106 | reopening clears the shutdown and opens a new WebSocket exactly when it was shut down |
| WsServer.WsServerConnection.constructor | src/wsserverconnection.ts:41-73 | a new server has no sockets and a socket count of 0 |
| WsServer.WsServerConnection.OnConnection | src/wsserverconnection.ts:75-79 | an accepted WebSocket gets the next id, which no open socket had, with an empty buffer; the open count grows by one and connect is emitted |
| WsServer.WsServerConnection.OnClose | src/wsserverconnection.ts:84-88 | a closed socket's entry, and only it, is removed, and close is emitted with its id |
| WsServer.WsServerConnection.OnError | src/wsserverconnection.ts:91-94 | a server error is passed on with its message |
| WsServer.WsServerConnection.OnMessage | src/wsserverconnection.ts:106-121 | for an open socket and text data, the complete newline-delimited frames of buffer plus data are emitted with the socket's id in order and the remainder is kept; otherwise nothing changes |
| WsServer.WsServerConnection.Write | src/wsserverconnection.ts:126-132 | a message is sent exactly when the socket is open |
| WsServer.WsServerConnection.GetConnectionCount | src/wsserverconnection.ts:139-141 | the count is the number of open sockets |
| ServerSpec.Field | src/server.ts:279-283 | a field is absent exactly when no entry carries its name; a found field is one of the object's entries |
| ServerSpec.Entries | src/server.ts:70-71 | an object's keys are its own entries; a string's are its characters, each a string; a number, boolean or function has none |
| ServerSpec.StringEntries | src/server.ts:70-71 | a string has one key per character, the decimal index, holding that one character |
| ServerSpec.NewNode | src/server.ts:43-53 | a new node has the given path, no children, properties, methods or subscribers, and a subscription counter of 0 |
| ServerSpec.ParseKey | src/server.ts:202-213 | a leading `$` is noted and dropped; the main part and modifier hold no `__`; `man` and `rw` never remain as modifiers |
| ServerSpec.GetPlanOf | src/server.ts:202-259 | a read that does not find the key creates something only under the key's main part, without a `$`, and only when no node, property or method has that name |
| ServerSpec.DollarNeverCreates | src/server.ts:236 | reading a `$` key never creates anything |
| ServerSpec.AutoCreation | src/server.ts:238-259 | reading an unknown plain key creates a method when its first character is lower case (or not a letter), else a node when it has no lower-case letter, else a property |
| ServerSpec.CloseListenerCreatesMethod | src/lwserver.ts:75-77 | reading `closeListener` on a node that has nothing by that name creates an empty method of that name |
| ServerSpec.AfterGet | src/server.ts:214-259 | a read keeps the node's children, path and subscribers; a found key changes nothing; a new method or property is added empty, touching nothing else |
| ServerSpec.OwnKeys | src/server.ts:404-406 | the listing names every node, property and method, and nothing else, counting each container's keys once |
| ServerSpec.DeleteReportsListed | src/server.ts:388-402 | deleting reports true exactly when the key is listed, and otherwise changes nothing |
| ServerSpec.DeleteShrinksKeys | src/server.ts:388-402 | a successful delete shortens the listing by one, and the key disappears unless a later container also holds it |
| ServerSpec.Sweep | src/server.ts:109-123 | a sweep never lengthens the subscriber list |
| ServerSpec.Firing | src/server.ts:111 | the entries that fire are entries of the list that match the property and value |
| ServerSpec.SweepWithoutOnce | src/server.ts:109-123 | without `once` entries the sweep calls exactly the entries that fire, in order, and leaves the list unchanged |
| ServerSpec.OnceSkipsNext | src/server.ts:114-119 | when a `once` entry fires and is spliced out, the entry after it moves into its place and is not called, although it fires |
| ServerSpec.Calls | src/server.ts:113 | one call per firing entry, with the node's path joined by `/`, the property and the value |
| ServerSpec.ParseCondition | src/server.ts:164-170 | no condition filters nothing, and a condition without `=` filters on that property only |
| ServerSpec.FindSub | src/server.ts:196-198 | the index found is the first entry selected by the id or callback, and -1 exactly when none is |
| ServerSpec.Off | src/server.ts:193-200 | an unknown id or callback leaves the list as it is; otherwise exactly one entry goes |
| ServerSpec.Subscribe | src/server.ts:155-183 | `on`/`once` increments the counter, returns the new value as the id, and appends one entry, keeping the earlier ones and the rest of the node |
| ServerSpec.SubscribeThenOff | src/server.ts:171-199 | removing by the id `on` just returned gives back the list as it was before |
| ServerSpec.FirstIdIsOne | src/server.ts:171 | the first subscription on a fresh node gets id 1 |
| ServerSpec.WithFields | src/server.ts:279-282 | copying an object's fields onto a property keeps its value |
| ServerSpec.SetProperty | src/server.ts:274-306 | assigning to an existing property changes only the node's properties |
| ServerSpec.SetMethod | src/server.ts:311-326 | assigning to an existing method changes only the node's methods |
| ServerSpec.CreateMethod | src/server.ts:337-359 | creating a method by assignment changes only the node's methods |
| ServerSpec.CreateProperty | src/server.ts:360-384 | creating a property by assignment changes only the node's properties |
| ServerSpec.SetPlanOf | src/server.ts:262-386 | a local assignment keeps the node's children, path and subscribers; a merge into a child goes to the existing child named by the key's main part |
| ServerSpec.SetNewKey | src/server.ts:327-386 | assigning to a key the node does not have never merges into an existing child |
| ServerSpec.MergeFunction | src/server.ts:96-103 | merging a function makes the name a method with a body, keeping an existing method's manual or starting with an empty one, and nothing else changes |
| ServerSpec.MergePrimitiveCases | src/server.ts:72-85 | merging a primitive into a missing property creates it read-only with the value's text and announces it; into an existing property without a setter it stores the text, keeps manual and flag, and announces exactly when the value changed |
| ServerSpec.ModifierKey | src/server.ts:202-213 | a key x__m__ parses to main part x, with `man` and `rw` as markers and any other m as the modifier |
| ServerSpec.SplitThree | src/server.ts:207 | splitting x__m__ at `__` gives x, m and the empty string |
| ServerSpec.ManualOnly | src/server.ts:292 | assigning a primitive to x__man__ of an existing property changes only its manual, announces nothing and reports true |
| ServerSpec.RwOnly | src/server.ts:293 | assigning a primitive to x__rw__ of an existing property sets only its flag to the value's truthiness, announces nothing and reports true |
| ServerSpec.SetExisting | src/server.ts:274 | a key whose main part is a property and whose modifier is empty or `prop` assigns that property |
| ServerSpec.AssignNotifiesOnChange | src/server.ts:294-306 | assigning a primitive to an existing property stores its text, or what its setter leaves, reports true and announces the new value exactly when it differs from the old |
| ServerSpec.DollarAssignRefused | src/server.ts:327 | assigning to an unknown `$` key reports false and changes nothing |
| ServerSpec.AssignCreation | src/server.ts:328-384 | assigning to an unknown plain key creates a node when it has no lower-case letter; else a method when its first character is lower case, which for a plain value stays empty and reports false; else a writable property holding the text, announced |
| ServerTree.Initial | src/server.ts:43-53 | a server starts with a linked tree holding just its root and no calls made |
| ServerTree.Put | src/server.ts:274-306 | replacing a node that keeps its links leaves the tree linked, changes only that node and keeps the identities |
| ServerTree.Spawn | src/server.ts:252-335 | a new empty node with the given path is made at a fresh identity and linked from its parent under the name, as both the read trap (line 252) and the assignment of an object (line 335) do; every other node is kept |
| ServerTree.Notify | src/server.ts:109-123 | announcing at a node logs exactly the sweep's calls with the node's path, replaces only that node's subscriber list with the swept one, and keeps the tree linked |
| ServerTree.NotifyIf | src/server.ts:79-84 | no change announced means the tree is unchanged |
| ServerTree.MergeScalar | src/server.ts:72-85 | merging a primitive keeps the tree linked and creates no node |
| ServerTree.MergeJson | src/server.ts:69-106 | merging a value keeps the tree linked and only adds nodes |
| ServerTree.MergeFold | src/server.ts:70-105 | merging the first k keys keeps the tree linked and only adds nodes |
| ServerTree.MergeJsonFolds | src/server.ts:70 | fromJSON merges all of the value's keys, in order |
| ServerTree.MergeKeyless | src/server.ts:70 | merging a number, boolean or function changes nothing |
| ServerTree.MergeCreatesReadOnly | src/server.ts:80-85 | merging {name: value} into a node without that property creates it read-only with the value's text and announces it to the node's subscribers |
| ServerTree.MergeUnchangedIsSilent | src/server.ts:74-79 | merging a value a setter-less property already holds changes nothing and calls nothing |
| ServerTree.GetEffect | src/server.ts:202-259 | a read keeps the tree linked, only adds nodes and calls nothing |
| ServerTree.GetKeepsChildren | src/server.ts:210-259 | a read never replaces or forgets a child link |
| ServerTree.SetEffect | src/server.ts:262-386 | an assignment keeps the tree linked and only adds nodes; one that throws changes nothing |
| ServerTree.DeleteEffect | src/server.ts:388-402 | a delete keeps the tree linked, reports true exactly when the key is listed and otherwise changes nothing |
| ServerTree.OnEffect | src/server.ts:155-183 | `on` returns the node's counter plus one and keeps the tree linked, calling nothing |
| ServerTree.OffEffect | src/server.ts:193-200 | `off` leaves the node's subscriber list as Off says |
| ServerTree.OnThenOff | src/server.ts:155-200 | `on` followed by `off` with the returned id leaves the node's subscribers as they were |
| ServerTree.ToJson | src/server.ts:56-66 | toJSON holds every property's value and every child's JSON, a child replacing a property of the same name |
| ServerTree.ToJsonOmitsMethods | src/server.ts:56-66 | a method that shares its name with no property or node is absent from toJSON |
| Server.NoodleTree.constructor | src/server.ts:43-53 | a new tree is the initial one |
| Server.NoodleTree.HandleCallbacks | src/server.ts:109-123 | the forEach with its in-place splice leaves the tree as Notify says |
| Server.NoodleTree.Get | src/server.ts:202-259 | the get trap's result and new tree are GetEffect's |
| Server.NoodleTree.FromJson | src/server.ts:69-106 | fromJSON leaves the tree as MergeJson says |
| Server.NoodleTree.MergeEntry | src/server.ts:71-104 | one more key merged moves the tree from MergeFold of k keys to k + 1 |
| Server.NoodleTree.MergeScalar | src/server.ts:72-85 | merging a primitive leaves the tree as ServerTree.MergeScalar says |
| Server.NoodleTree.SetNode | src/server.ts:286-303 | the node is replaced, then the change, if any, is announced |
| Server.NoodleTree.Spawn | src/server.ts:252-335 | the new node gets the next identity and the tree is ServerTree.Spawn's (node creation on read at line 252 and on object assignment at line 335) |
| Server.NoodleTree.Set | src/server.ts:262-386 | the set trap's result and new tree are SetEffect's |
| Server.NoodleTree.DeleteProperty | src/server.ts:388-402 | the deleteProperty trap's result and new tree are DeleteEffect's |
| Server.NoodleTree.On | src/server.ts:155-183 | `on`/`once` returns OnEffect's id and leaves its tree |
| Server.NoodleTree.Off | src/server.ts:193-200 | `off` leaves the tree as OffEffect says |
| LwServerSpec.DollarNotSpecial | src/lwserver.ts:347 | a `$` key is never one the get trap answers itself |
| LwServerSpec.Lookup | src/lwserver.ts:347 | a `$` lookup that reaches a node reaches one of the tree |
| LwServerSpec.DollarReadKeeps | src/lwserver.ts:347 | reading a `$` key changes nothing in the tree, and answers what Lookup says |
| LwServerSpec.Step | src/lwserver.ts:346-348 | one step of the walk reaches only nodes of the tree |
| LwServerSpec.Walk | src/lwserver.ts:345-349 | the walk over the remaining segments reaches only nodes of the tree |
| LwServerSpec.GetNode | src/lwserver.ts:341-351 | getNode names only nodes of the tree |
| LwServerSpec.StoreValue | src/lwserver.ts:184-186 | storing a value through the proxy keeps the tree linked, with its root, and only adds nodes |
| LwServerSpec.Assign | src/lwserver.ts:171-186 | the SET checks and assignment keep the tree linked, with its root, and only add nodes |
| LwServerSpec.SetReply | src/lwserver.ts:158-186 | SET keeps the tree linked, with its root, and only adds nodes |
| LwServerSpec.Arguments | src/lwserver.ts:203-206 | one argument per comma-separated piece |
| LwServerSpec.Invoke | src/lwserver.ts:202-223 | reading and calling the method keeps the tree linked, with its root, and only adds nodes |
| LwServerSpec.CallReply | src/lwserver.ts:187-223 | CALL keeps the tree linked, with its root, and only adds nodes |
| LwServerSpec.MethodManual | src/lwserver.ts:251 | reading one method manual keeps the tree linked, with its root, and only adds nodes |
| LwServerSpec.MethodManuals | src/lwserver.ts:268-271 | reading the method manuals one after the other keeps the tree linked and only adds nodes |
| LwServerSpec.MethodManualsStop | src/lwserver.ts:268-271 | once a manual read throws, the later methods are not read: the result is that of the methods up to the throw |
| LwServerSpec.MethodManualsLast | src/lwserver.ts:268-271 | after a throw, one more method changes nothing |
| LwServerSpec.Manuals | src/lwserver.ts:252-281 | MAN path.* and MAN path.prop keep the tree linked and only add nodes |
| LwServerSpec.ManReply | src/lwserver.ts:224-282 | MAN keeps the tree linked, with its root, and only adds nodes |
| LwServerSpec.OpenReply | src/lwserver.ts:283-312 | OPEN keeps the tree linked and the session's entries on nodes of the tree |
| LwServerSpec.Unsubscribe | src/lwserver.ts:318-321 | removing the listeners keeps the tree linked and its nodes |
| LwServerSpec.Without | src/lwserver.ts:318-321 | the entries kept are entries of the session not opened by the path |
| LwServerSpec.CloseReply | src/lwserver.ts:313-326 | CLOSE keeps the tree linked and the session's entries on nodes of the tree |
| LwServerSpec.Command | src/lwserver.ts:100-106 | a line with a space is the command word, which holds none, a space and the arguments; a line without one is all command |
| LwServerSpec.Dispatch | src/lwserver.ts:107-331 | every command keeps the tree linked, with its root, and the session's entries on nodes of the tree |
| LwServerSpec.LineEffect | src/lwserver.ts:91-334 | a received line keeps the world well formed, keeps the set of sessions and only adds nodes |
| LwServerSpec.ConnectEffect | src/lwserver.ts:65-73 | a connect adds exactly one session, with nothing opened, and changes neither the tree nor the output |
| LwServerSpec.CloseListeners | src/lwserver.ts:75-77 | calling the close listeners keeps the tree linked and only adds nodes |
| LwServerSpec.CloseListenersLastCall | src/lwserver.ts:75-77 | while no call has thrown, the last entry's listener is read on the tree the earlier calls left, and the walk succeeds exactly when it is callable |
| LwServerSpec.CloseListenersStop | src/lwserver.ts:75-77 | once a listener call throws, the later entries are not reached |
| LwServerSpec.CloseListenersLast | src/lwserver.ts:75-77 | after a throw, one more entry changes nothing |
| LwServerSpec.DisconnectEffect | src/lwserver.ts:74-81 | a disconnect keeps the world well formed, only adds nodes and writes nothing |
| LwServer.JoinLines | src/lwserver.ts:289-291 | appending each line and a newline to an empty response gives their concatenation |
| LwServer.LwServer.constructor | src/lwserver.ts:48-89 | a new server has the initial tree, no sessions and no output |
| LwServer.LwServer.Connect | src/lwserver.ts:65-73 | the connect handler does what ConnectEffect says |
| LwServer.LwServer.Disconnect | src/lwserver.ts:74-81 | the close handler does what DisconnectEffect says |
| LwServer.LwServer.CallCloseListeners | src/lwserver.ts:75-77 | the forEach over the entries leaves the tree and the flag CloseListeners gives |
| LwServer.LwServer.ResolveNode | src/lwserver.ts:341-351 | getNode changes nothing and returns what GetNode says |
| LwServer.LwServer.GetCommand | src/lwserver.ts:108-157 | GET changes nothing and replies what GetReply says |
| LwServer.LwServer.PropertyCommand | src/lwserver.ts:128-156 | GET path.* and GET path.prop reply what GetProperty says |
| LwServer.LwServer.SetCommand | src/lwserver.ts:158-186 | SET leaves the tree and the reply SetReply gives |
| LwServer.LwServer.AssignCommand | src/lwserver.ts:171-186 | the checks and assignment leave the tree and the reply Assign gives |
| LwServer.LwServer.CallCommand | src/lwserver.ts:187-223 | CALL leaves the tree and the reply CallReply gives |
| LwServer.LwServer.CallPath | src/lwserver.ts:197-223 | CALL with well-formed arguments leaves the tree and the reply CallReply gives |
| LwServer.LwServer.InvokeCommand | src/lwserver.ts:202-223 | the method call leaves the tree and the reply Invoke gives |
| LwServer.LwServer.ManCommand | src/lwserver.ts:224-282 | MAN leaves the tree and the reply ManReply gives |
| LwServer.LwServer.MethodManCommand | src/lwserver.ts:236-251 | MAN path:method leaves the tree and the reply ManReply gives |
| LwServer.LwServer.MethodManualCommand | src/lwserver.ts:251 | one method manual read leaves the tree and the line MethodManual gives |
| LwServer.LwServer.ManualsCommand | src/lwserver.ts:252-281 | MAN path.* and MAN path.prop leave the tree and the reply Manuals gives |
| LwServer.LwServer.MethodManualsCommand | src/lwserver.ts:268-271 | the method manual loop leaves the tree and the lines MethodManuals gives |
| LwServer.LwServer.OpenCommand | src/lwserver.ts:283-312 | OPEN leaves the tree, the session's entries and the reply OpenReply gives |
| LwServer.LwServer.CloseCommand | src/lwserver.ts:313-326 | CLOSE leaves the tree, the session's entries and the reply CloseReply gives |
| LwServer.LwServer.Execute | src/lwserver.ts:107-331 | the command block leaves the tree, the session's entries and the reply Dispatch gives |
| LwServer.LwServer.LineRcv | src/lwserver.ts:91-334 | lineRcv leaves the world as LineEffect says |
| LwServerProps.GetNodeEmpty | src/lwserver.ts:341-351 | getNode of the empty path is the root |
| LwServerProps.GetNodeSlash | src/lwserver.ts:341-351 | getNode of `/` is undefined |
| LwServerProps.GetNodeRelative | src/lwserver.ts:343 | a path not starting with `/` names nothing |
| LwServerProps.WalkEmptySegment | src/lwserver.ts:346 | an empty segment anywhere on the way means no node is reached |
| LwServerProps.GetNodeTrailingSlash | src/lwserver.ts:346 | a path ending in `/` never names a node |
| LwServerProps.WalkSnoc | src/lwserver.ts:345-349 | one more non-empty segment after a node is the `$` lookup of it on that node |
| LwServerProps.LookupChild | src/lwserver.ts:347 | `$name` on a node with a child `name` (without `__`) reaches that child |
| LwServerProps.GetNodeChild | src/lwserver.ts:341-351 | getNode of s/name is the child `name` of the node getNode(s) names |
| LwServerProps.WalkShape | src/lwserver.ts:345-349 | trees that differ only in subscribers and method bodies are walked alike |
| LwServerProps.GetNodeShape | src/lwserver.ts:341-351 | getNode depends only on children, properties and methods |
| LwServerProps.OnShape | src/lwserver.ts:307-309 | subscribing changes only subscribers |
| LwServerProps.UnsubscribeShape | src/lwserver.ts:318-321 | removing listeners changes only subscribers |
| LwServerProps.UnsubscribeNone | src/lwserver.ts:318-321 | with no entry for the path nothing is removed |
| LwServerProps.WithoutNone | src/lwserver.ts:318-321 | with no entry for the path every entry stays |
| LwServerProps.WithoutKeeps | src/lwserver.ts:318-321 | every entry not opened by the path stays |
| LwServerProps.OpenSubscribes | src/lwserver.ts:298-311 | OPEN of a node not yet open replies `o-`, appends a change writer for the socket to the node's subscribers under the next id, and records the entry |
| LwServerProps.OpenTwice | src/lwserver.ts:303-305 | a second OPEN of the same path is refused with %E003 and changes nothing |
| LwServerProps.OpenThenClose | src/lwserver.ts:283-326 | OPEN then CLOSE of the same path replies `o-` then `c-` and gives back the session's entries and the node's subscribers as they were |
| LwServerProps.CloseForgets | src/lwserver.ts:313-326 | CLOSE drops every entry of the path, keeps every other and changes only subscribers, replying `c-`; CLOSE of a path not open replies %E002 and changes nothing |
| LwServerProps.SyntaxErrors | src/lwserver.ts:115-329 | each syntax check of `lineRcv` replies exactly `-E <line> %E001:Syntax error` and changes nothing: a GET path without leading `/` (115-117), a SET without `.` or `=` (164-166), a CALL without `:`, a `(` after it and a final `)` (193-196), a MAN path without `/` or with neither `.` nor `:` (232-242), an OPEN argument without leading `/` (294-297), and an unknown command (327-329) |
| LwServerProps.SyntaxLine | src/lwserver.ts:45 | the syntax error line is `-E`, the line, and %E001:Syntax error |
| LwServerProps.GetListsChildren | src/lwserver.ts:119-127 | GET of a node lists its children, sorted, one `n- path/child` line each |
| LwServerProps.GetPropertyAt | src/lwserver.ts:128-133 | GET path.rest on a node goes on to the node's properties |
| LwServerProps.GetReadsProperty | src/lwserver.ts:148-156 | GET of a property replies one line, `pw` or `pr` after its flag, with the property and its escaped value |
| LwServerProps.ReadProperty | src/lwserver.ts:148-156 | the reply for an existing property is its one line, starting `pw` or `pr` after its flag |
| LwServerProps.GetMissingProperty | src/lwserver.ts:150-153 | GET of a name that is not a property is %E002 |
| LwServerProps.GetListsMembers | src/lwserver.ts:135-147 | GET path.* lists the properties sorted by name, then the methods sorted by name |
| LwServerProps.SetRefused | src/lwserver.ts:175-183 | SET of a missing property is %E002, of a read-only one %E007, and neither changes anything |
| LwServerProps.SetReplyAt | src/lwserver.ts:162-170 | SET path.prop=value on a node goes on to that node's property |
| LwServerProps.SetStores | src/lwserver.ts:184-186 | SET of a writable property stores the unescaped value, or what its setter makes of it, replies `pw` with the stored value escaped, and storing the value already there changes nothing |
| LwServerProps.StoreStores | src/lwserver.ts:184-186 | storing into a writable property keeps the new value and replies it escaped |
| LwServerProps.StoreEffect | src/lwserver.ts:184 | assigning prop__prop__ of a property keeps the new value, reports true, and changes nothing when the value is the same |
| LwServerProps.CallMethod | src/lwserver.ts:202-215 | CALL of a method invokes it with the unescaped, converted arguments (a method without a body gives undefined), replies with the outcome and changes nothing |
| LwServerProps.CallNotMethod | src/lwserver.ts:207-210 | CALL of a name that is not a method is %E002 and changes nothing |
| LwServerProps.CallAt | src/lwserver.ts:191-206 | CALL path:name(params) on a node goes on to that node's method with those parameters |
| LwServerProps.InvokeMissing | src/lwserver.ts:207-210 | a name that is not a method is not found and nothing changes |
| LwServerProps.InvokeMethod | src/lwserver.ts:211-223 | a method of the node is read and called, and the tree is unchanged |
| LwServerProps.ReadMethod | src/lwserver.ts:213 | reading name__method__ of a method gives something callable and changes nothing |
| LwServerProps.MethodKey | src/lwserver.ts:213 | name__method__ parses to main part name with the modifier `method` |
| LwServerProps.LineWrites | src/lwserver.ts:91-334 | a line only appends: change lines, then at most one reply to the socket it came from, which for a signed line opens with `{` and the signature and closes with `}` |
| LwServerProps.FramedSigned | src/lwserver.ts:95-332 | a signed line's reply opens with `{`, the signature and a newline (lines 95-99), and closes with `}` and a newline (line 332) |
| LwServerProps.GetKeepsSubscribers | src/server.ts:202-259 | a read through the get trap leaves every subscriber list as it was |
| LwServerProps.CloseListenersKeep | src/lwserver.ts:75-77 | the close listener calls leave every subscriber list as it was |
| LwServerProps.DisconnectKeepsSubscribers | src/lwserver.ts:74-81 | closing a socket cancels none of its subscriptions: its change writers stay on their nodes |
| LwServerProps.ConnectThenDisconnect | src/lwserver.ts:65-81 | a socket that connects and closes without opening anything leaves everything as it was |
| LwServerProps.CloseListenerKeyParses | src/lwserver.ts:76 | the key closeListener parses as a plain key |
| LwServerProps.CloseListenerRead | src/lwserver.ts:76 | on a node with no child or property called closeListener, the read gives something callable and changes no node's children, properties or subscribers |
| LwServerProps.CloseListenersAllCalled | src/lwserver.ts:75-77 | when every listener read is callable, every call succeeds and no node's children, properties or subscribers change |
| LwServerProps.DisconnectDeletes | src/lwserver.ts:74-81 | when every call succeeds the session is deleted and the tree keeps its nodes, children, properties and subscribers |

## Left out

- Sockets, TLS, the `net` and `ws` libraries and real time are not modelled. Connecting, data arriving, a socket draining or closing, and a timer firing are event methods the environment calls. What a `write` returns is a parameter.
- The retry delay, the 1000 ms request timeout and `setRetryTimeout` are not modelled as durations. A timeout is the event that it fired.
- Promises are settled values (`Outcome`), and `await` interleaving is not modelled. Each event method runs to completion, as one turn of the JavaScript event loop does.
- The EventEmitter wiring is not modelled: which handler is registered on which emitter, and `removeAllListeners`. Emitted events are appended to a log.
- `isConnected` on the client reads the connection object in the source. The model keeps a `connected` field, which the connect and close event methods set.
- JavaScript `Number()` and floating point are not modelled. `Common.IsNumeric` approximates the syntax `Number()` accepts: decimal, exponent, `Infinity`, and `0x`/`0o`/`0b` literals. A number is kept as its text. The whitespace `trim` removes is a finite set of characters.
- Upper-case comparison (`Common.UpperIs`) matches each ASCII letter, its lower-case form and, for `S`, the long s U+017F, the only other code point whose upper-case form is one of the letters of `TRUE` or `FALSE`. General Unicode case mapping is not modelled.
- `null` and `undefined` values, keys inherited from `Object.prototype`, and the ordering of integer-like keys in `Object.keys` are not modelled. Keys are listed in ascending string order.
- Lw3Server.Signed, LwServerSpec.LineEffect, Framing.Receive and ServerSpec.Entries: a `string` here is a sequence of Unicode code points, while JavaScript's `length`, indexing and `substring` count UTF-16 code units. For text with characters above U+FFFF the two differ: the signature test `msg[4] === '#'` looks at a different character (a line such as two such characters followed by `#GET /` is signed in the source and unsigned here), the 1e6 cap on the frame buffer is reached later here than in the source, and a string value yields one key per code point here where JavaScript yields one key per code unit, each astral character giving two keys that hold lone surrogates.
- Strings.SortedKeys: sorts by Unicode code point, while JavaScript's `sort()` compares UTF-16 code units; the two orders differ only for keys that mix characters above U+FFFF with characters in U+E000..U+FFFF.
- LwClientSpec.OpenAccepted, and with it LwClient.LwClient.OpenRun, which follows OpenEffect: `data[0].search(path)` is read as a literal substring search. JavaScript compiles the path into a regular expression, so a path holding `.`, `$`, `(` or another metacharacter can be accepted or rejected differently, and a path that is not a valid pattern (such as `/V(1`) throws inside the callback instead of rejecting.
- Property getters are not modelled: `getter` fields in `fromJSON`/`set`, and the getter calls in `toJSON` and `get`. A property always answers with its stored value.
- Server.NoodleTree.Get: requires a key that the `get` trap does not answer itself. Most of those keys are modelled as members of their own: `toJSON`, `fromJSON`, `__nodes__`, `__methods__`, `__properties__`, `on`, `once`, `off` and `removeListener`. The `server`, `__close__` and `waitFor` keys are left out: the server object, closing it, and the `waitFor` promise.
- ServerTree.GetEffect: carries the same requirement as `Server.NoodleTree.Get`, for the same reason.
- The test `keymodifier === '__method__'` in the server tree's `get` trap can never hold, so it is left out. A piece of a split at `__` never contains `__`.
- User code is not modelled: listeners, property setters and method bodies. Setters and methods are oracle functions. Listeners are numbered, and the calls they receive are logged. A callback that itself changes a subscriber list is not modelled, apart from the removal during a sweep that the source's `forEach` with `splice` shows.
- Removing subscriptions when a socket disconnects is not modelled, because the source does not do it. `LwServerProps.DisconnectKeepsSubscribers` states that the subscriptions stay.
- The text of the `CHG` value, which `src/lwserver.ts:308` builds from the property value, stays abstract. A `CHG` output carries the path, the property and the converted value.
- The `TypeError` message that a converted cache hit raises is not modelled. The model records that the request rejects.
- LwServerSpec.Invoke, and with it LwServer.LwServer.InvokeCommand: when CALL finds a value that is not a function, or reading `name__method__` throws, the reply carries the stand-in message "is not a function" in place of the engine's own `e.message`. This covers a property and a method sharing a name (calling the converted property value) and a node and a method sharing a name (the `Proxy` over an undefined target at `src/server.ts:210`, whose message is "Cannot create proxy with a non-object as target or handler"). The reply's shape, `mE <path>:<method>=<escaped message> %E010:Internal error`, is modelled.
- TcpClient.TcpClientConnection.SetFrameDelimiter: requires a non-empty delimiter. With the empty one, `split('')` would cut every character into its own frame; this case is left out.
- WsClient.WsClientConnection.Write stands for both `write(msg)` and `send(data)` of `src/wsclientconnection.ts:71-88`: both forward to the WebSocket exactly while connected and otherwise discard the message; `send` has no member of its own.
- WsClient.WsClientConnection.SetFrameDelimiter: requires a non-empty delimiter. With the empty one, the source's framing loop would never end.
- TcpServer.TcpServerConnection.OnDrain: requires the socket to be open. The source registers this handler only on a socket it has accepted.
- TcpServer.TcpServerConnection.OnData: requires the socket to be open, for the same reason.
- `src/client.ts` is not part of this model. It holds the client-side proxy over `LwClient` and `live()`. `obj2fun` in `src/common.ts` is left out too.
- `src/lw3client.ts` and `src/index.ts` are not part of this model. The first is an earlier client that repeats the logic of `src/lwclient.ts`. The second is the package entry point.
- `src/clientconnection.ts` and `src/serverconnection.ts` are not part of this model. They only declare the interfaces the transport classes implement.
- The error codes are used as plain numbers. The enumeration in `src/noodle.ts` is modelled once, by `Noodle.Number`.
