# tinyirc: a Dafny model of its own decisions

tinyirc is a small command-line IRC client. It connects to a server, waits until
the server has welcomed it, joins the configured channels, and then sends every
line from standard input as an IRC message. Every message the server sends it
is printed to standard output, except numeric replies. The protocol work
(parsing, rendering, registration, pacing) is done by the go-irc library. This
model covers what tinyirc decides for itself in `main.go`:

- **Configuration check and nick choice** (`connect`, module `Configuration`).
  An empty server or user is rejected before any dial, with
  `missing configuration: <field>`. When both are empty, which field is named
  depends on Go's map iteration order, so it is a parameter. A dial failure is
  reported wrapped as `creating tcp connection: <cause>`. Otherwise the client
  gets the configured nick, or the user when the nick is empty, together with
  the user, the server password and the pacing settings, all unchanged.
- **The inbound handler** (`printMessage`, module `Inbound`). A `sync.Once`
  guards the `Done` of a `sync.WaitGroup` that `main` armed with `Add(1)`. The
  first `001` reply releases `main`, and later ones do nothing. The counter
  never goes below zero, so `Done` cannot panic. A command that
  `strconv.Atoi` accepts is never printed, and neither is anything when the
  quiet flag is set. Any other message is printed as one line: its rendering
  with the white space trimmed. The latch and standard output are the fields
  of class `Inbound.Handler`. The pure functions `Observe`, `Printed` and
  `Transcript` specify the handler.
- **The outbound sequence** (`main`, module `Outbound`). Once released, `main`
  writes one `JOIN <channel>` per configured channel, in configured order.
  It then sends every stdin line that parses after trimming, in input order.
  Lines that do not parse are logged and skipped, and failed writes are only
  logged. Last comes the deferred `QUIT`, and then the deferred close of the
  connection: Go runs deferred calls last-in, first-out. The loops are
  methods proved equal to filter-map specifications.
- **Supporting library behaviour**, modelled from its documented semantics:
  `strconv.Atoi` on a 64-bit platform (module `Numeric`: an optional sign,
  one or more ASCII digits, a value in the int64 range) and
  `strings.TrimSpace` with `unicode.IsSpace` (module `Text`).

go-irc's `ParseMessage` and `Message.String` are not part of this model. They
appear as function parameters `parse: string -> Option<Message>` and
`render: Message -> string`, so every result holds for any parser and
renderer. The network is also a parameter. The dial outcome is
`dialError: Option<string>`. Whether the write for channel `i` or stdin line
`j` fails is given by `joinFails(i)` and `sendFails(j)`.

Two behaviours of the code worth knowing:
- Every command that `strconv.Atoi` accepts is kept off the output. This
  covers every three-digit reply, and also commands such as `+5` and `-1`.
- Only a `001` reply releases the ready latch. If the connection ends before
  one arrives, `main` keeps waiting. It stops only when the client
  goroutine's error ends the process through `log.Fatal` (main.go:72-74).

## Model

| member | source | states |
|---|---|---|
| Configuration.FirstMissing | main.go:118-125 | None exactly when every required field is set; otherwise the name of the first unset field in visiting order |
| Configuration.Connect | main.go:118-151 | an empty server or user gives `missing configuration: <field>`, naming the empty one, and the iteration order decides when both are empty; a dial error gives `creating tcp connection: <cause>`; success exactly when both are set and the dial succeeds; the nick is the configured one or else the user, and is never empty; user, password, burst and limit pass through unchanged |
| Configuration.ValidationPrecedesDial | main.go:118-134 | a missing server or user fails whatever the dial would have done: validation happens before any dial |
| Text.LeadingSpaces | main.go:94 | the length of the longest all-space prefix, as `strings.TrimSpace` strips it |
| Text.TrailingSpaces | main.go:94 | the length of the longest all-space suffix |
| Text.TrimSpace | main.go:94 | the result is no longer than the input and, when non-empty, neither starts nor ends with a space |
| Text.TrimSpaceSlice | main.go:94 | the result is the slice of the input right after its leading spaces, followed only by spaces; it is empty exactly when the input is all space |
| Text.TrimSpaceSplit | main.go:94 | a string that is not all space is exactly its leading spaces, its trimmed form and its trailing spaces |
| Text.TrimSpaceUnique | main.go:168 | any split into spaces, a core with non-space ends, and spaces determines TrimSpace's result |
| Text.TrimSpaceIdempotent | main.go:168 | trimming twice is trimming once |
| Text.TrimSpacePadded | main.go:94 | white space added around a string does not change its trimmed form |
| Numeric.DigitsValueBound | main.go:159 | a digit string of length k has a value below 10^k |
| Numeric.Atoi | main.go:159 | success only for an optional sign followed by at least one ASCII digit, with a value in the int64 range; the value is the digits' value, negated after `-` |
| Numeric.AtoiAccepts | main.go:159 | an optionally signed digit string whose value is in the int64 range is accepted with that value |
| Numeric.ShortDigitStringAccepted | main.go:159 | every optionally signed string of 1 to 18 digits is accepted, with its value: at most 18 digits always fit in an int64 |
| Numeric.ThreeDigitReplyIsNumeric | main.go:159-161 | every three-digit reply code is numeric |
| Numeric.NatDigits | main.go:159 | the decimal rendering of a natural number is a non-empty digit string |
| Numeric.NatDigitsValue | main.go:159 | reading back the decimal rendering of a natural number gives the number |
| Numeric.AtoiItoa | main.go:159 | Atoi inverts Itoa exactly on the int64 range and rejects the rendering of every other integer |
| Numeric.WordIsNotNumeric | main.go:159-162 | a command starting with neither a sign nor a digit (PRIVMSG, JOIN) is not numeric |
| Numeric.AtoiReplyExamples | main.go:159-162 | `001`, `433` and `+5` are numeric |
| Numeric.AtoiRejectExamples | main.go:159 | the empty string, a lone sign and `12a` are not numeric |
| Inbound.Observe | main.go:155-157 | only a `001` acts on the latch, and only the first; the once-flag and the counter stay consistent and the counter never drops below zero; the latch releases exactly on the first `001` |
| Inbound.ReleasedIffWelcome | main.go:155-157 | from the armed latch, a message stream releases `main` exactly when it contains a `001`, and the counter stays 0 or 1 |
| Inbound.ReleasedIsFinal | main.go:155-157 | once released, no later message (a second `001` included) changes the latch |
| Inbound.Printed | main.go:159-168 | a numeric command is never printed, nothing is printed when quiet, any other message is printed as its trimmed rendering |
| Inbound.Transcript | main.go:154-169 | a message stream prints at most one line per message |
| Inbound.QuietTranscriptEmpty | main.go:164-166 | with the quiet flag, nothing is printed for any stream |
| Inbound.TranscriptTrimmed | main.go:168 | every printed line is already trimmed |
| Inbound.TranscriptNotQuiet | main.go:159-168 | without the quiet flag, a stream of non-numeric messages prints exactly one trimmed rendering per message, in order (mixed streams: NumericMessageSilent and NonNumericMessagePrinted) |
| Inbound.TranscriptAppend | main.go:154-169 | the output for a stream `a + b` is the output for `a` followed by that for `b` |
| Inbound.TranscriptSingle | main.go:159-168 | a single message prints what Printed decides for it |
| Inbound.NumericMessageSilent | main.go:159-162 | a numeric message anywhere in a stream leaves standard output as if it had not arrived, quiet or not |
| Inbound.NonNumericMessagePrinted | main.go:159-168 | without the quiet flag, a non-numeric message anywhere in a stream prints its trimmed rendering exactly in its place |
| Inbound.ThreeDigitReplySilent | main.go:159-162 | a three-digit reply is never printed, quiet or not |
| Inbound.WelcomeReleasesSilently | main.go:155-162 | a `001` both releases the armed latch and is not printed |
| Inbound.Handler.constructor | main.go:37-38 | the handler starts with the latch armed (once not run, counter one) and nothing printed |
| Inbound.Handler.PrintMessage | main.go:154-169 | the latch moves as Observe says and stays consistent; standard output grows by exactly what Printed decides |
| Inbound.Handler.Established | main.go:77 | `Wait` would return exactly when the once-guarded `Done` has run |
| Outbound.SentFor | main.go:94-106 | one stdin line yields at most one message |
| Outbound.LineWrites | main.go:92-107 | no more messages are sent than there are stdin lines |
| Outbound.Unwind | main.go:69-79 | deferred calls run in reverse order of registration |
| Outbound.JoinChannels | main.go:81-90 | one `JOIN c` write per channel, in order; a failed write adds a log entry for its channel and nothing else |
| Outbound.ForwardStdin | main.go:92-107 | the writes are exactly the parsed, trimmed lines in input order; unparseable lines and failed writes are logged and do not stop the loop |
| Outbound.RunOutbound | main.go:79-110 | in a run the client goroutine does not end, the events are the JOINs, then the forwarded lines, then `QUIT`, then the close, whatever writes fail; the log is the join log followed by the line log |
| Outbound.OutboundOrder | main.go:79-107 | position by position: JOINs first in configured order, forwarded messages next in input order, `QUIT` second to last, close last |
| Outbound.EventsLayout | main.go:79-110 | for any forwarded messages, the writes of the JOINs and those messages come in that order, followed by `QUIT` and then the close |
| Outbound.LineWritesAppend | main.go:92-107 | the messages for `a + b` are those for `a` followed by those for `b` |
| Outbound.LineWritesSingle | main.go:94-106 | a single line sends what SentFor decides for it |
| Outbound.UnparseableLineSkipped | main.go:98-102 | a line that does not parse leaves the sent messages as if it were absent |
| Outbound.ParsedLineSent | main.go:98-106 | a line that parses is sent exactly once, between the messages of the lines before and after it |
| Outbound.LineWritesFromInput | main.go:92-107 | every sent message is what some stdin line parsed to after trimming |
| Outbound.AllLinesSent | main.go:92-107 | when every line parses, each line is sent, one message per line, in order |
| Outbound.AllPrefixLinesSent | main.go:92-107 | the same for every prefix of the input: after k lines that all parse, exactly k messages were sent, in order |
| Outbound.PaddedLineSame | main.go:94 | white space around a stdin line does not change what is sent for it |
| Outbound.JoinLogEmpty | main.go:84-89 | when no JOIN write fails, nothing is logged while joining |
| Outbound.LineLogEmpty | main.go:98-106 | when every line parses and no write fails, nothing is logged while forwarding |
| Outbound.QuietRunLogsNothing | main.go:81-107 | without parse errors or failed writes, the whole run logs nothing |

## Left out

- Dialling TCP or TLS, the `host:port` address, and closing the socket (main.go:127-134): network I/O. The dial outcome is a parameter of `Connect`, and the close is an event.
- go-irc's message parser, renderer, `Client.Run`, `WriteMessage`, the registration messages (PASS, NICK, USER) and burst/limit pacing (main.go:98, main.go:104, main.go:142-151): that library is not part of this model. Parse and render are parameters. The pacing settings are only checked to be passed through.
- The `bufio.Scanner` over stdin (main.go:92-93): stdin is a sequence of lines already split. This leaves out the scanner's stop on a line over 64 KiB; its error is never checked, so such a line would end the loop early.
- Goroutines and waiting: `go client.Run()`, the `done` flag and `log.Fatal` on a client error (main.go:63, main.go:71-77, main.go:109). `RunOutbound` models `main` from the point where `Wait` has returned, and `Handler.Established` says when it would return. A client error while `main` is still running ends the process through `log.Fatal` (main.go:72-73). `os.Exit` then skips the deferred `QUIT` and the deferred close, so that trace is cut short at any point. The modelled trace is the run in which this does not happen.
- Flag and environment parsing, the log level and the version exit in `init` (main.go:44-60): configuration arrives as a `Config` value.
- The text of log messages and of console output beyond the printed line: the log is a list of `LogEntry` values naming the channel or line, as the logger fields do.
- Numeric.Atoi: models whether `strconv.Atoi` succeeds and the value it yields, not which error (syntax or range) it returns on failure; tinyirc only tests the error against nil.
- Text.TrimSpace: works on Unicode scalar values. Go strings are bytes and may hold invalid UTF-8, which cannot be written as a Dafny string.
