# mccat in Dafny

A model of `mccat`, a small command-line tool for UDP multicast groups. It has three
modes: `listen` joins a group, logs every datagram and answers `PING` probes with `PONG`;
`send` forwards standard input to the group; `ping` sends numbered `PING` probes to the group.

The socket calls are operating-system I/O, so the model does not perform them. It keeps the
byte-level protocol logic inside the program's loops and writes it as pure functions over
byte sequences (`seq<bv8>`):

- `Cmdline` covers the command word, the argument count and the multicast gate. Together
  they decide which session runs, or which error ends the program. `Net` defines addresses
  and the multicast test. `Errors` defines the error taxonomy.
- `Sockets` lists the setup calls each session makes (bind, group join, connect, clone).
  The calls are data, so the family and port choices can be stated.
- `Listen`, `Send` and `Ping` each model one loop as a function from an input trace to an
  `Outcome`. The input trace is what the system hands the loop: receive results, standard
  input reads, and whether each send was accepted. An `Outcome` (`Trace`) is the events the
  loop produces (datagrams sent, log lines) plus how the loop stands at the end of its input.
  Each of these modules also has a method that follows the Rust loop statement by statement:
  the mutable `reply` buffer in `Listen`, the in-place chomp in `Send`, and in `Ping` the
  `seqnum` counter, kept unbounded there (the intended numbering; see Findings). Each method is
  proved equal to its function.
- `Decimal` renders naturals as ASCII digits and reads them back. The probe numbers use it.

A malformed address or port ends the program with the standard library's parse error
(`AddrParseError`, `ParseIntError`), not with an `InvalidInput` I/O error (`Errors.KindOf`).
Those errors carry only their kind, not the rejected text. Of the errors the program
creates itself, only a wrong argument count, an unknown command word or a non-multicast
address give `InvalidInput`.

## Model

| member | source | states |
|---|---|---|
| Bytes.Truncate | src/main.rs:64 | `truncate(n)` keeps a prefix of length `min(len, n)` and leaves a shorter vector alone |
| Decimal.Digits | src/main.rs:109 | the rendering of a counter is non-empty, all ASCII digits, has no leading zero, and is one digit exactly for values below 10 |
| Decimal.ValueOfDigits | src/main.rs:109 | reading the digits of `n` back gives `n` |
| Decimal.DigitsOfValue | src/main.rs:109 | every canonical digit string is the rendering of the number it denotes |
| Decimal.DigitsInjective | src/main.rs:109 | distinct counter values give distinct renderings |
| Net.MulticastIsReservedBlock | src/main.rs:26 | `is_multicast` (first IPv4 octet 224..=239, first IPv6 segment masked by 0xff00) holds exactly for 224.0.0.0/4 and ff00::/8 |
| Net.V4MulticastRange | src/main.rs:26 | an IPv4 address is multicast exactly when its value lies in 224.0.0.0..=239.255.255.255 |
| Net.Wildcard | src/main.rs:41 | the bind address is the all-zero address of the group's own family and is never multicast |
| Errors.KindOf | src/main.rs:27 | of the errors the program creates itself, exactly the usage error and the non-multicast error are of kind `InvalidInput` |
| Cmdline.CommandWordRoundTrip | src/main.rs:122-127 | `listen`, `send` and `ping` are the only accepted words, one per command, and every other word is refused |
| Cmdline.ParseCmdline | src/main.rs:114-136 | success exactly when there are three arguments after the program name, a known command word, and parsable address and port text; otherwise a usage error, an address parse error or a port parse error, each exactly in its own case and in that order of checks |
| Cmdline.Run | src/main.rs:23-35 | a session is dispatched exactly when the command line parses and the address is multicast, and it is the parsed command, address and port; a parse error passes through unchanged; the `InvalidInput` errors are exactly the bad count or word and a parsed non-multicast address |
| Cmdline.UsageBeforeParsing | src/main.rs:117-127 | with a wrong argument count or command word the result is the usage error, whatever the address and port parsers would say |
| Cmdline.NonMulticastRejected | src/main.rs:26-29 | a parsed non-multicast address ends the run with `InvalidInput` naming that address, before any session starts |
| Sockets.Setup | src/main.rs:39-97 | every session binds the wildcard address of the group's family; only `listen` binds the group's port and joins the group; `send` binds port 0 and connects to the group endpoint; `ping` binds port 0 and clones the handle, and only `ping` clones |
| Sockets.SetupMatchesFamily | src/main.rs:39-54 | every bound address has the group's family and is not multicast |
| Listen.Receive | src/main.rs:55-59 | received data is a prefix of the datagram, at most 16384 bytes, and all of it when the datagram fits |
| Listen.ReplyFor | src/main.rs:60-63 | a reply is due exactly when the payload starts with `PING`; it has the payload's length, starts with `PONG` and keeps every byte after the marker |
| Listen.ReplyRestoresProbe | src/main.rs:60-62 | putting `PING` back in front of a reply's tail gives back the received payload |
| Listen.ShortPayloadUnanswered | src/main.rs:60 | payloads shorter than four bytes get no reply |
| Listen.ReplyNotAnswered | src/main.rs:60-63 | a `PONG` reply is never itself answered |
| Listen.ReplyBufferPassRestores | src/main.rs:56-64 | with the buffer at `PONG`, extend, send and `truncate(4)` send exactly `ReplyFor`'s reply and leave the buffer at `PONG` |
| Listen.ListenStep | src/main.rs:58-66 | one iteration either keeps the loop going and logs the datagram, or stops it with an I/O error and no event; a failed receive always stops it |
| Listen.RefusedReplyStops | src/main.rs:60-63 | a probe whose reply `send_to` fails ends the loop with an I/O error and no log line |
| Listen.FailureIsFinal | src/main.rs:58-63 | once a receive or a reply has failed, datagrams arriving later change nothing |
| Listen.ListenRun | src/main.rs:57-67 | the listen loop never returns `Ok`, and each datagram produces at most two events |
| Listen.ListenRunPayloads | src/main.rs:57-67 | every event of the listen loop is a `PONG` reply on the unconnected socket or a log line, and none carries more than 16384 bytes |
| Listen.RunListen | src/main.rs:55-67 | the loop with its mutable `reply` buffer, kept equal to `PONG` between iterations, behaves exactly as `ListenRun` |
| Listen.ListenIteration | src/main.rs:58-66 | one pass of the loop body with the buffer at `PONG`, using the extend-and-truncate pass of `ReplyBufferPass`, produces exactly `ListenStep`'s events and leaves the buffer at `PONG` whenever the loop goes on |
| Listen.ListenRunAppend | src/main.rs:57-67 | while the loop runs, each new datagram adds exactly the events it would produce alone, so no reply depends on earlier datagrams |
| Listen.ProbeAnswered | src/main.rs:60-63 | a received probe, of any length on the wire, gets `PONG` plus its received bytes after the marker, sent to its source, then its log line |
| Listen.NonProbeOnlyLogged | src/main.rs:60-66 | a received payload not starting with `PING` produces only its log line |
| Send.Chomp | src/main.rs:84-87 | the result is the chunk or the chunk minus one trailing newline, and it is one byte shorter exactly when the chunk ends with a newline |
| Send.ChompAppendedNewline | src/main.rs:84-87 | chomping undoes one appended newline, even on text that already ends with one |
| Send.ChompKeepsUnterminated | src/main.rs:84-87 | a chunk without a trailing newline is forwarded unchanged |
| Send.SendRun | src/main.rs:78-89 | the send loop only sends on the connected socket, and each datagram is at most 16384 bytes |
| Send.SendRunShape | src/main.rs:78-89 | one datagram per non-empty read, in order, each the chomped chunk; then end of input gives `Ok`, a failed read or send gives an error, and a trace that runs out leaves the session waiting |
| Send.EndOfInputStops | src/main.rs:79-82 | a zero-length read ends the session with `Ok` and nothing read after it is sent |
| Send.RunSend | src/main.rs:76-89 | the loop as written, with the in-place chomp, sends exactly what `SendRun` describes |
| Ping.ProbeRoundTrip | src/main.rs:109 | the sequence number is read back from every probe |
| Ping.ParseProbeExact | src/main.rs:109 | any payload read as number `n` is exactly probe `n` |
| Ping.Probes | src/main.rs:106-109 | the first `k` payloads are `k` probes, the `i`-th carrying `i + 1` |
| Ping.ProbesCountUp | src/main.rs:106-109 | sequence numbers start at 1 and rise by exactly one per probe |
| Ping.PingFrom | src/main.rs:106-111 | the sender never returns `Ok`, sends at most one probe per send attempt, and is still running exactly when every attempt was accepted (the probes themselves: `PingFromProbes`; the stop: `PingStopsAtFirstRefusal`) |
| Ping.PingStopsAtFirstRefusal | src/main.rs:107-111 | when send `j` is the first refused one, exactly `j` probes go out and the session ends with an I/O error |
| Ping.PingFromProbes | src/main.rs:106-109 | the sends of the loop started from counter value `last` are the probes numbered `last + 1`, `last + 2`, … in order, each to the loop's one destination |
| Ping.PingRunProbeAt | src/main.rs:106-109 | the `i`-th send of the ping loop for group `group` and port `port` is probe `i + 1`, sent to that group and port |
| Ping.PingRunSendsProbes | src/main.rs:106-109 | while every send is accepted, the probes sent are `Probes(k)`, in order, each to the session's group and port |
| Ping.PingRunNumbered | src/main.rs:106-109 | the `i`-th probe sent carries sequence number `i + 1` |
| Ping.PongEchoesSequence | src/main.rs:60-63 | a listener answers probe `n` with `PONG`, a space and the digits of `n` |
| Ping.RunPing | src/main.rs:106-111 | the loop with its counter starting at 0 and incremented before each send behaves as `PingRun` for the same group and port, and its `i`-th probe carries `i + 1` |
| Ping.WrappingIncrement | src/main.rs:108 | `seqnum += 1` on an `i32` stays in range and adds one below the maximum |
| Ping.SeqnumAsWritten | src/main.rs:106-108 | the `i32` counter always holds an `i32` value |
| Ping.AsWrittenAgreesBelowLimit | src/main.rs:106-109 | up to 2147483647 probes, the `i32` counter and its probes equal the unbounded ones |
| Ping.SeqnumWrapsAtLimit | src/main.rs:106-109 | probe 2147483648 of the `i32` counter carries a negative number, smaller than the previous one, and is not of the `PING <n>` form |

## Findings

| source | as written | input that shows it | evidently intended | confidence | as-written member | corrected member |
|---|---|---|---|---|---|---|
| src/main.rs:106-109 | `let mut seqnum = 0` takes Rust's default type `i32`, so `seqnum += 1` overflows after 2147483647 probes; a debug build panics and a release build wraps to `PING -2147483648` | the 2147483648th iteration of the sender loop, about 17 years at one probe per 250 ms | sequence numbers 1, 2, 3, … that keep rising | medium; not executed | Ping.SeqnumWrapsAtLimit | Ping.RunPing |

## Left out

- Socket calls are OS I/O: creation, `bind`, `join_multicast_v4/v6`, `connect`, `send_to`, `send` and `recv_from`. Setup appears only as the list of calls in `Sockets.Setup`. A failure during setup is not modelled; each such failure ends the run with an I/O error before the loop starts. Receive and send results come in as trace inputs.
- The ping receiver thread, `try_clone` failure and the `unwrap` on its receive (src/main.rs:97-105): that is concurrency. Only the sender's probes are modelled. A panic there ends only that thread.
- The 250 ms `thread::sleep` between probes: wall-clock timing.
- `String::from_utf8_lossy` and the `println!`/`eprintln!` lines: library formatting and console output. A log line is modelled as the source address plus the raw bytes received.
- Textual parsing of the address and port (`str::parse`): standard-library code. `Cmdline.ParseCmdline` takes the two parsers as function parameters.
- The panic of `env::args()` on an argument that is not valid Unicode: arguments are modelled as strings.
- The text of the non-multicast error message: it needs the standard library's address formatting. The error carries the address itself.
- Errors.KindOf: gives every failed system call the one kind `OsError`. The real kind comes from the OS error number: EINVAL, for one, becomes `InvalidInput`. The model does not track error numbers.
- The usage message text (src/main.rs:12) and the printing of the final error (src/main.rs:18): console output.
- Process exit codes (src/main.rs:16-21): command-line glue.
- Listen.Receive: follows the Unix behaviour, where a datagram longer than the buffer loses its tail. On Windows such a receive fails instead.
- How the system splits standard input into reads: each trace element is one `read` result of at most 16384 bytes, taken as given.
- Listen and ping sessions run forever. The model covers every finite prefix of their input; a loop still running at the end of that prefix has status `Pending`.
- Ping.PingFrom: numbers probes with an unbounded counter rather than the program's `i32`. See Findings; the `i32` behaviour is `Ping.SeqnumAsWritten`.
