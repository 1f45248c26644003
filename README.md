# filter-rspamd, modelled in Dafny

filter-rspamd is an OpenSMTPD filter. It reads the daemon's event stream
on standard input, one `|`-separated line per event. It keeps one session
record per SMTP connection and collects the message of each transaction.
When the data ends, it asks Rspamd for a verdict. It then writes the
message back to the daemon: rewritten (DKIM signatures, spam headers,
headers to add or remove, a new subject) or unchanged. At commit it
reports the disposition as a `filter-result` line: `proceed`, or a
rejection with code 421, 550 or 451.

The project models this core of `filter-rspamd.go`:

- `text.dfy` (`Text`): the parts of Go's `strings` and `sort` packages
  that the filter uses. This covers splitting on one character, joining,
  prefix tests, Go's bytewise string `<`, and `sort.Strings`.
- `wrappers.dfy` (`Wrappers`): `Option` and `Result`.
- `codec.dfy` (`Codec`): the line protocol.
  - Egress framing: before 0.5 the token comes ahead of the session id.
  - The `tx-mail`/`tx-rcpt` layout: before 0.6 the status is the last field.
  - The verbatim re-joining of `|`-split payloads.
  - SMTP dot-stuffing, the transparency rule of section 4.5.2 of RFC 5321.
- `events.dfy` (`Events`): what each event does to a session, as
  functions on a `SessionView` value. It also covers the dispatch of one
  input line (`Route`, `Trigger`) with its fatal cases, and the
  properties of both.
- `translator.dfy` (`Translator`): the verdict as an already-decoded
  datatype, and the exact `filter-dataline` payloads sent back for it.
  - DKIM signatures.
  - The spam headers, with the `tests=[…]` folding loop.
  - The plain and the structured added headers.
  - The header-section replay, with removal and `Subject:` substitution.
  - The terminator.
  - The commit disposition.
- `filter.dfy` (`Filter`): the imperative filter.
  - `Session` is a class whose handler methods update its fields in place.
  - `Filter` holds the session table and the output stream, an
    append-only `seq<string>`.
  - Every `Filter` method is proved to update this state as the functions
    of `Events`, `Codec` and `Translator` say. This covers the folding
    and replay loops, `trigger` and the dispatch of one line.
  - `skipConfig` and `filterInit` are module-level methods that change no
    `Filter` state. Each is proved against its own contract.
- `client.dfy` (`Client`): the header fields of the request to Rspamd,
  including the `Ip` derivation from the session's source address.

Go's map iteration order is unspecified. The order in which a map's keys
were visited is therefore a parameter:
- `MapOrder` for the verdict's symbols and added headers;
- `reports`/`filters` for the registration lines.

A predicate (`Enumerates`) requires that the order lists each key exactly
once. Nothing is claimed about which order Go picks. Where the order
cannot matter, it is proved not to (`SymbolOrderIrrelevant`).

Some behaviour of the code is easy to misread; the model follows the
code:
- `greylist` is not a rejecting verdict. The filter rewrites the message
  and the commit proceeds.
- `X-Spam-Score` renders the scores with `%v`. X-Spam-Status and the
  symbols use three decimals.
- Every `Subject: ` line of the header section is replaced, not only the
  first.
- The `, ` separator does not count towards the 68-character budget of a
  `tests=` line. Such a line can reach 70 characters (`FoldLineWidth`).
- Re-escaping an unescaped line gives it back only when the line was
  properly stuffed (`UnescapeRoundTrip`).
- `writeHeader` does not dot-stuff header values. A value with a line
  holding only `.` puts the terminator in the middle of the answer
  (`DotInHeaderEndsMessage`).
- The `Subject: ` replacement is sent as one string and not split at its
  newlines. The printer writes every line followed by a newline, so a
  subject holding `\n.` prints `filter-dataline|…|Subject: …` and then
  a bare `.` line without a frame, which the daemon cannot read as a
  data line (`SubjectNewlinePrintsDot`, `SubjectNewlineUnframedDot`).
  With newline-free message lines and subject, every replayed line is
  printed as it is framed, and none is the terminator's frame
  (`ReplayWireNoDot`, `ReplayFramedNoDot`).

## Model

| member | source | states |
|---|---|---|
| Text.JoinSplit | filter-rspamd.go:214 | re-joining the pieces of a split string with the separator gives the string back |
| Text.SortStrings | filter-rspamd.go:444 | the sorted symbol names are in ascending Go string order and are a permutation of the input |
| Text.SortedUnique | filter-rspamd.go:444 | two ordered sequences with the same elements are equal, so the sort's result does not depend on the input order |
| Codec.FramesIndex | filter-rspamd.go:227-238 | a run of emitted payloads gives one egress line per payload, in order |
| Codec.FrameFields | filter-rspamd.go:227-238 | splitting an egress line on `\|` gives the kind, then the token and the session id (below 0.5) or the session id and the token (otherwise); the remaining fields re-join to the payload even when it holds `\|` |
| Codec.VersionOrder | filter-rspamd.go:230 | the thresholds compare as Go strings: 0.4 uses the old framing, 0.5 and 0.6 do not; 0.5 uses the old envelope layout, 0.6 does not; "0.10" counts as older than 0.5 |
| Codec.EnvelopeLegacy | filter-rspamd.go:166-169 | below 0.6, the status is the last field and the address between is recovered verbatim, whatever `\|` it holds |
| Codec.EnvelopeCurrent | filter-rspamd.go:170-174 | from 0.6 on, the status is the second field and the address is the rest re-joined verbatim |
| Codec.DataLineVerbatim | filter-rspamd.go:213-214 | a data-line event split into atoms yields its seven header fields, and the text re-joined from the remaining atoms is the exact line |
| Codec.EscapeRoundTrip | filter-rspamd.go:288-296 | unescaping an escaped line gives it back; an escaped line is never the lone `.` and is always properly stuffed |
| Codec.UnescapeRoundTrip | filter-rspamd.go:222 | escaping an unescaped line gives it back exactly when the line was properly stuffed |
| Codec.UnstuffedLineChanges | filter-rspamd.go:222 | a line `.x` does not survive unescaping followed by escaping |
| Codec.FlushReceive | filter-rspamd.go:281-286 | a flushed message (escaped lines and the terminator) is received as exactly the same message |
| Codec.ReceiveFlush | filter-rspamd.go:216-224 | stuffed texts up to a `.` are exactly the flush of the message they are received as |
| Codec.PrintedOneLine | filter-rspamd.go:636-640 | strings without a newline reach the reader one printed line each, unchanged |
| Codec.FrameNewline | filter-rspamd.go:227-238 | a framed line holds a newline exactly when its payload does, for newline-free kind, id and token |
| Codec.FramedOneLine | filter-rspamd.go:636-640 | the frames of newline-free payloads are printed one line each, unchanged |
| Codec.FramePayload | filter-rspamd.go:227-238 | two frames of one kind, session and token are equal exactly when their payloads are |
| Codec.PrintedFrameSplit | filter-rspamd.go:636-640 | a payload `a\nb` prints as the frame of `a` followed by the unframed pieces of `b` |
| Events.ConnectRecordsPeer | filter-rspamd.go:99-106 | link-connect succeeds exactly with four parameters; it records the reverse name and the source address and nothing else |
| Events.AuthRecordedOnPass | filter-rspamd.go:131-140 | link-auth changes the session only when the result is `pass`, and then records only the user |
| Events.ResetForgets | filter-rspamd.go:142-148 | tx-reset empties every transaction field and keeps the session's own fields |
| Events.MailFromRoundTrip | filter-rspamd.go:158-181 | an accepted sender is recorded verbatim in either layout, and nothing else changes |
| Events.RejectedMailIgnored | filter-rspamd.go:176-178 | a sender or recipient whose status is not `ok` leaves the session unchanged |
| Events.RcptAppends | filter-rspamd.go:183-206 | an accepted recipient is appended after the earlier ones, and nothing else changes |
| Events.DataLineVerbatimText | filter-rspamd.go:208-225 | a data line other than `.` appends its exact text, unescaped, even when it holds `\|` |
| Events.EndOfDataKeeps | filter-rspamd.go:216-219 | the `.` line leaves the session as it was |
| Events.FeedMessage | filter-rspamd.go:208-225 | feeding the dot-stuffed lines of a message appends exactly that message to the transaction |
| Events.MalformedLineFatal | filter-rspamd.go:652-666 | whatever sessions exist, a line fails with MissingAtoms exactly when it has fewer than six atoms, and with InvalidStream exactly when its stream is neither report nor filter |
| Events.UnknownSessionFatal | filter-rspamd.go:561-564 | an event for an unregistered session is fatal, unless it is link-connect |
| Events.HandlerArity | filter-rspamd.go:566-570 | for a known session, a line fails with InvalidPhase exactly when its stream has no such phase; it succeeds exactly when the phase is the stream's and the parameter count is the handler's |
| Events.ConnectInstallsFresh | filter-rspamd.go:554-559 | link-connect replaces the id's entry with a fresh session that holds the peer's names, and writes nothing |
| Events.DisconnectRemoves | filter-rspamd.go:108-113 | link-disconnect removes the id from the table and changes nothing else |
| Events.OthersUntouched | filter-rspamd.go:553-571 | an accepted line changes at most the named session; only link-connect adds an id and only link-disconnect removes one |
| Events.Replies | filter-rspamd.go:240-269 | only commit writes, and then exactly one framed `filter-result` line; only the `.` data line starts an analysis, under its own token |
| Client.Ip | filter-rspamd.go:351-361 | for a non-unix source not in brackets, the address is the prefix before the first `:`; for a bracketed one, it holds no `[` |
| Client.IpUnix | filter-rspamd.go:359-361 | every `unix:` source is reported as 127.0.0.1 |
| Client.IpBracketed | filter-rspamd.go:352-354 | `[host]` followed by anything is reported as `host` |
| Client.IpHostPort | filter-rspamd.go:355-358 | `host:port` is reported as `host` when the host has no `:`, is not bracketed and is not `unix` |
| Client.RequestContents | filter-rspamd.go:350-379 | under each field name the request carries: the fixed session fields once each, the derived Ip, the settings id and user exactly when set, and the recipients in order |
| Translator.HeaderLinesJoin | filter-rspamd.go:298-308 | the physical lines written for a header re-join with `\n` to `Name: value` |
| Translator.FoldFlatten | filter-rspamd.go:448-462 | the folded `tests=` lines list every symbol exactly once, in the given order |
| Translator.FoldShape | filter-rspamd.go:451-461 | every continuation line holds a symbol; a line ends only because the next symbol would take it over 68; a symbol that opens no new line fitted |
| Translator.FoldLineWidth | filter-rspamd.go:451-461 | a line of two or more symbols is at most 70 characters, because the separator is not counted |
| Translator.PushBuffer | filter-rspamd.go:448-462 | one turn of the folding loop: flush when the buffer is non-empty and too long, write `, ` only after a symbol on the same line, then append the symbol |
| Translator.FoldTurn | filter-rspamd.go:448-462 | the loop's turn for symbol i, stated on the symbols: the next buffer and the lines flushed so far |
| Translator.TwoSymbolsOneLine | filter-rspamd.go:446-465 | two symbols that fit the budget together give the single line `\ttests=[a, b]` |
| Translator.SortedNamesEnumerate | filter-rspamd.go:439-444 | the sorted names are ascending and list every symbol of the verdict exactly once |
| Translator.SymbolOrderIrrelevant | filter-rspamd.go:439-444 | the order in which the symbols map was visited does not change anything that is sent |
| Translator.ReplayPrefix | filter-rspamd.go:523-549 | one more turn of the replay loop extends the lines sent and the (inhdr, rmhdr) state by one step |
| Translator.ReplayBody | filter-rspamd.go:524-527 | after the header section, every line is sent escaped and unchanged |
| Translator.ReplayUnmodified | filter-rspamd.go:521-549 | with nothing to remove and no subject to rewrite, the replay is the escaped message |
| Translator.ReplaySections | filter-rspamd.go:524-527 | the first empty line ends the header section: it and the whole body are sent unchanged, whatever the verdict |
| Translator.ReplayHeaderLines | filter-rspamd.go:529-548 | every header line sent is a kept (not removed) original line, escaped, or the substituted subject, and never `.` |
| Translator.ReplaySubject | filter-rspamd.go:544-545 | with `rewrite subject`, every `Subject: ` line sent from the header section carries the verdict's subject |
| Translator.ReplayLength | filter-rspamd.go:521-549 | the replay sends at most one line per original line |
| Translator.RemoveFoldedHeader | filter-rspamd.go:529-543 | a removed header is dropped together with its tab-indented continuation line (concrete instance) |
| Translator.RemovedWithContinuations | filter-rspamd.go:529-543 | a removed header is dropped together with all its continuation lines, however many |
| Translator.KeptLine | filter-rspamd.go:529-548 | a line that starts no removed header and continues no dropped one is kept, and ends the dropping |
| Translator.ReplayKeptHeaders | filter-rspamd.go:521-548 | on a header section, the replay sends exactly the lines the removal rule keeps, each escaped or (Subject rewrite) replaced |
| Translator.ReplayRemovesHeaders | filter-rspamd.go:521-549 | without a Subject rewrite, a message replays as its kept headers escaped, the separator, then its body escaped |
| Translator.SendEscaped | filter-rspamd.go:544-548 | without a Subject rewrite, every kept header line is sent dot-stuffed |
| Translator.UnrewrittenAnswer | filter-rspamd.go:395-403 | after a local failure or a reject-class verdict, the daemon receives exactly the original message back |
| Translator.NothingToDo | filter-rspamd.go:405-550 | a verdict that asks for nothing sends the message back unchanged, and it is received as the same message |
| Translator.AddHeaderWithoutSymbols | filter-rspamd.go:422-428 | `add header` without symbols adds exactly X-Spam and X-Spam-Score ahead of the unchanged message |
| Translator.SpamWithoutSymbols | filter-rspamd.go:429 | without symbols, there is no X-Spam-Status and no `tests=` list |
| Translator.NoAddedHeaders | filter-rspamd.go:471 | a verdict without headers to add makes the filter add none |
| Translator.NoAuthLines | filter-rspamd.go:503-515 | without structured values, no structured header is sent |
| Translator.SpamLinesNoDot | filter-rspamd.go:422-468 | no spam header line is the lone `.` |
| Translator.AddedLinesNoDot | filter-rspamd.go:405-516 | when no header value has a lone `.` segment, no added header line is the terminator |
| Translator.ReplayNoDot | filter-rspamd.go:518-549 | the replay of any message, with or without a header/body separator, never sends the lone `.` as a string |
| Translator.ReplayOneLine | filter-rspamd.go:521-548 | with newline-free message lines and subject, no replayed string holds a newline |
| Translator.ReplayWireNoDot | filter-rspamd.go:518-549 | with newline-free message lines and subject, the replay prints exactly its strings, and no printed line is the lone `.` |
| Translator.SubjectNewlinePrintsDot | filter-rspamd.go:544-545 | a subject ending in a `.` line is sent unsplit, and prints a lone `.` line |
| Translator.ReplayFramedNoDot | filter-rspamd.go:518-549 | with newline-free message lines, subject, id and token, the framed replay prints line for line, and no printed line is the terminator's frame |
| Translator.SubjectNewlineUnframedDot | filter-rspamd.go:544-545 | on the wire, a subject `a\n.` prints as the frame of `Subject: a` followed by a bare, unframed `.` line |
| Translator.RewriteTerminator | filter-rspamd.go:395-550 | for every message, with safe header values, the rewritten message carries exactly one terminator, at its end |
| Translator.DotInHeaderEndsMessage | filter-rspamd.go:298-308 | a plain added header whose value has a `.` line puts the terminator second, ahead of the message |
| Translator.CommitReplyShape | filter-rspamd.go:240-269 | the reply proceeds exactly for actions other than the three rejecting ones; a rejection always has a non-empty text, the transaction's own when it has one |
| Translator.FailureDefers | filter-rspamd.go:310-315 | a failed analysis makes the commit answer `reject\|421 server internal error` |
| Translator.VerdictDecides | filter-rspamd.go:395-403 | reject gives 550 and soft reject gives 451, with the engine's text or the default |
| Translator.OtherVerdictsProceed | filter-rspamd.go:266-267 | any other verdict, greylist included, lets a fresh transaction proceed |
| Filter.Session.constructor | filter-rspamd.go:556-557 | a new session holds only its id |
| Filter.Session.LinkConnect | filter-rspamd.go:99-106 | the session afterwards is OnLinkConnect of the one before, or unchanged on a fatal count |
| Filter.Session.LinkGreeting | filter-rspamd.go:115-121 | the session afterwards is OnLinkGreeting of the one before, or unchanged on a fatal count |
| Filter.Session.LinkIdentify | filter-rspamd.go:123-129 | the session afterwards is OnLinkIdentify of the one before, or unchanged on a fatal count |
| Filter.Session.LinkAuth | filter-rspamd.go:131-140 | the session afterwards is OnLinkAuth of the one before, or unchanged on a fatal count |
| Filter.Session.TxReset | filter-rspamd.go:142-148 | the session afterwards is OnTxReset of the one before, or unchanged on a fatal count |
| Filter.Session.TxBegin | filter-rspamd.go:150-156 | the session afterwards is OnTxBegin of the one before, or unchanged on a fatal count |
| Filter.Session.TxMail | filter-rspamd.go:158-181 | the session afterwards is OnTxMail of the one before, or unchanged on a fatal count |
| Filter.Session.TxRcpt | filter-rspamd.go:183-206 | the session afterwards is OnTxRcpt of the one before, or unchanged on a fatal count |
| Filter.Session.DataLine | filter-rspamd.go:208-225 | the session afterwards is OnDataLine of the one before; an analysis starts, under the line's token, exactly for the `.` line |
| Filter.Filter.constructor | filter-rspamd.go:80 | the filter starts with no session and no output |
| Filter.Filter.Produce | filter-rspamd.go:227-238 | appends exactly one framed line |
| Filter.Filter.WriteLine | filter-rspamd.go:288-296 | appends the framed, dot-stuffed line |
| Filter.Filter.WriteHeader | filter-rspamd.go:298-308 | appends one framed line per `\n` segment, with the name on the first |
| Filter.Filter.FlushMessage | filter-rspamd.go:281-286 | appends the escaped message and the terminator |
| Filter.Filter.TempFail | filter-rspamd.go:310-315 | sets the action to tempfail with the fixed response, and flushes the message unchanged |
| Filter.Filter.WriteDkim | filter-rspamd.go:405-420 | appends the header lines of each non-empty string signature, in order |
| Filter.Filter.WriteSpam | filter-rspamd.go:422-469 | appends the spam headers of an `add header` verdict, and nothing for other actions |
| Filter.Filter.WriteStatus | filter-rspamd.go:429-468 | appends X-Spam-Status and the folded list exactly when there are symbols |
| Filter.Filter.WriteTests | filter-rspamd.go:439-465 | collects and sorts the symbol names, then appends the folded list |
| Filter.Filter.WriteFolded | filter-rspamd.go:446-465 | the folding loop appends exactly the flushed lines and the final `]` line of the folded list |
| Filter.Filter.WritePlain | filter-rspamd.go:474-498 | appends the plain headers in map order, and collects exactly the structured values with a string value under a non-empty name |
| Filter.AuthSeen | filter-rspamd.go:483-489 | the collected map agrees with the verdict on every structured header name |
| Filter.Filter.WriteAuth | filter-rspamd.go:503-515 | appends the structured headers in the fixed order, skipping the empty ones |
| Filter.Filter.WriteAddedHeaders | filter-rspamd.go:471-516 | appends the plain headers, then the structured ones |
| Filter.Filter.MatchesRemoved | filter-rspamd.go:536-543 | reports whether the line starts with `Name:` for some name of the remove set, whatever order the set is visited in |
| Filter.Filter.Replay | filter-rspamd.go:518-550 | the replay loop appends exactly the replayed message |
| Filter.Filter.WriteRewrite | filter-rspamd.go:405-550 | appends the full rewritten answer of a pass-class verdict |
| Filter.Filter.Query | filter-rspamd.go:395-550 | sets the transaction's action and response as the outcome decides, and appends the answer for the outcome |
| Filter.Filter.Commit | filter-rspamd.go:240-269 | with two parameters, appends the one `filter-result` line and keeps the defaulted response; otherwise changes nothing and fails |
| Filter.Filter.LinkDisconnect | filter-rspamd.go:108-113 | removes the session from the table exactly when there are no parameters |
| Filter.Filter.Report | filter-rspamd.go:82-92 | runs the report handler for the phase: the session becomes OnReport of itself |
| Filter.Filter.Install | filter-rspamd.go:554-559 | files a fresh session under the id, replacing any earlier one, and keeps the table consistent |
| Filter.Filter.RunReport | filter-rspamd.go:566-570 | the report handlers do to the table and the output exactly what ReportStep says; the table keeps its session objects, losing at most the session's own id |
| Filter.Filter.RunFilter | filter-rspamd.go:566-570 | the filter handlers do to the table and the output exactly what FilterStep says; the table of session objects is unchanged |
| Filter.Filter.Trigger | filter-rspamd.go:553-571 | fails exactly when Events.Trigger does, with the same error; otherwise it does what the step says to the sessions and the output, and any analysis it starts is for the session named by the line; every session object stays filed under its id, and link-connect files a fresh one |
| Filter.Filter.Dispatch | filter-rspamd.go:651-666 | records the line's version, and fails exactly when Route does, with the same error; otherwise it performs the routed step, and any analysis it starts is for the session the line names (filed under that id) with the line's token; every session object stays filed under its id, a link-connect line files a fresh one, and a short line leaves the table as it was |
| Filter.SkipConfig | filter-rspamd.go:573-584 | stops right after the first `config\|ready`, and reports running out of input when there is none |
| Filter.FilterInit | filter-rspamd.go:271-279 | writes 12 lines: one registration per report and filter event, each naming a phase of its own stream, then `register\|ready` last |
| Filter.RegistrationsListed | filter-rspamd.go:271-279 | a registration line for a stream appears exactly for the phases of that stream |
| Filter.RegisterParts | filter-rspamd.go:273-276 | a registration line determines its stream and its phase |

## Left out

- Building and sending the HTTP request, and dialing the unix socket (filter-rspamd.go:318-349, 381-387): network plumbing. The analysis comes in as an `Outcome`: a decoded verdict, or a local failure that takes the tempfail path.
- Decoding the JSON answer into the verdict: the verdict is a datatype. Its variants cover the untyped members: `DkimField` (absent, string or list) and `AddValue` (plain, structured or unusable).
- Scores: floating-point values and their `%v` and `%.3f` renderings are opaque pre-rendered strings in the verdict.
- Concurrency: the analysis goroutine and the output channel and its printer. Output is one appended `seq<string>`. `Dispatch` returns the analysis to start (`Pending`), and the caller runs `Query` for it.
- Go's map iteration order is a parameter (see above), and nothing is claimed about it.
- Flag parsing, pledge/unveil, the socket checks and stderr/log output in `main`: startup and I/O. The `url` and `settings-id` flags become plain parameters (`settingsId`).
- pledge_openbsd.go is not part of this model: it only wraps system calls.
- Filter.Filter.Dispatch: `log.Fatal` and `os.Exit` are a `Failure` result or a `found == false` answer, not process termination. After a failure, the sessions' fields are not specified, while the session objects stay filed under their ids as on success.
- Filter.Filter.TempFail: the unix-socket resolve error path calls `rspamdTempFail` and then fails the request, which calls it again and flushes the message twice. This path is not modelled, and `TempFail` is run once per failure.
- Translator.Fold: lengths in the 68-character budget are counted in characters, while Go counts bytes. The two agree for ASCII symbol names and scores only.
- Client.Ip: for a bracketed source, the contract states only that the address holds no `[`. The exact value is stated by `Client.IpBracketed` for sources of the form `[host]…`.
- Translator.RewriteTerminator: the single terminator is stated over the strings the filter sends. A string holding `'\n'` is printed as several lines, and a lone `.` among them is not excluded. That string can be the `Subject: ` replacement (`SubjectNewlinePrintsDot`), a symbol name or a score. The added headers are split at their newlines and covered by `HeadersSafe`.
- Translator.ReplayNoDot: stated over the replayed strings. `ReplayWireNoDot` and `ReplayFramedNoDot` state the printed form when the subject and the message lines hold no newline, and a subject holding a newline is not covered.
- Translator.CommitReply: the reply text of `reject|550 …` and `reject|451 …` is one string in the model. A reply text holding `'\n'` is printed as several lines, which is not modelled.
- Reading lines from standard input: the input is a `seq<string>` (`SkipConfig`) or one line at a time (`Dispatch`).
