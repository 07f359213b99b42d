# discv5 node supervisor — Dafny model

This project models the supervisor binary of a discv5 peer-discovery node
(`src/bin/server/`). The supervisor loads the node key, builds and reports the
node record (ENR), and decides the trusted source range (`--cidr`) from an
outbound UDP probe of its own local address. It then configures, creates and
starts the discovery engine, launches the statistics, event-observer and
ENR-echo services, and waits for SIGTERM or SIGINT. The model has three parts:

- **Supervisor** (`mod.rs`). `Supervisor.Run` is the imperative `run`. It
  builds the engine configuration in place in a `ConfigBuilder` object and
  returns a trace of steps and an outcome. It is proved equal to the
  functional description `BootSpec`, and the lemmas about `run` are stated on
  `BootSpec`. The trusted-range decision is `Decide`/`Admit`. Containment in
  the range is the range test `network <= ip <= broadcast`, proved equal to
  the prefix match of section 3.1 of RFC 4632 (`Ipv4.ContainsIffPrefixMatch`).
- **ENR echo responder** (`echo.rs`). `Http.Response` is the fixed HTTP/1.1
  response. `Http.ParseHead`/`Http.ReadBody` read it the way a client frames
  it: head lines, an empty line, then `Content-Length` bytes of body. The
  framing is proved to give back exactly the record text. `Echo.Run` is the
  accept loop over a sequence of accept outcomes.
- **Event observer** (`events.rs`). `Events.Observe` maps one received item
  to at most one log record. `Events.Run` is the receive loop over a sequence
  of items.

I/O becomes input. The key load, record build, UDP probe, engine creation
and start, and signal-handler installation are `Supervisor.Environment`
fields, and so is the first signal to arrive. TCP bind and accept/write
results are `Echo.Run` parameters. The subscription outcome and the received
items are `Events.Run` parameters. Log records are a level plus a message
that names the log site and carries the values it reports (`Logging`).

The event observer's loop has no `break` (`events.rs:9-43`): after `recv`
returns `None` it keeps polling. `Events.IgnoredItemTransparent` states this:
a `None` item produces no record, and the items after it are still observed.

The echo responder and the event observer each run inside a spawned task
(`echo.rs:7`, `events.rs:7`), so their panics (a failed bind, a failed
subscription) end only that task and not `run`; `Supervisor` therefore
treats their launches as steps that always succeed.

## Model

| member | source | states |
|---|---|---|
| Ipv4.ContainsIffPrefixMatch | src/bin/server/mod.rs:51 | the range test `cidr.contains(ip)` (network <= ip <= broadcast) holds exactly when the first prefix-length bits of `ip` equal those of the range, for every range and address |
| Supervisor.Decide | src/bin/server/mod.rs:49-64 | the range is allowed iff the local address is IPv4 and inside it, and then it is exactly the given range; one record is logged, info when allowed and a warning otherwise; an IPv6 address gives the "only compatible with ipv4" warning |
| Supervisor.DecideIffPrefixMatch | src/bin/server/mod.rs:49-64 | the decision allows the range exactly when the local IPv4 address matches its prefix (RFC 4632) |
| Supervisor.MismatchScenario | src/bin/server/mod.rs:54-59 | range 10.0.0.0/8 with local address 192.168.1.5: filter stays off and a warning is logged |
| Supervisor.MismatchBoot | src/bin/server/mod.rs:44-107 | for the range 10.0.0.0/8 and the local address 192.168.1.5 the whole `run` creates the engine with no range filter and shuts down normally on the first signal |
| Supervisor.Admit | src/bin/server/mod.rs:44-65 | no range: no steps and no allowed range; a failed probe stage ends with a probe error naming that stage and carrying its I/O error; the block completes (`Ok`) iff no range is given or the probe succeeded, so a mismatch or an IPv6 address only warns; the result is `Ok(Some(c))` iff the range is `c`, the probe succeeded with an IPv4 address and `c` contains it |
| Supervisor.AdmitSteps | src/bin/server/mod.rs:44-65 | the block never starts or launches anything and never creates the engine; it opens a probe socket iff a range is given; `AllowCidr(c)` is among its steps iff its result is `Ok(Some(c))`; when the local address was probed it emits exactly one record, the decision's (info when allowed, warning otherwise), and otherwise none |
| Supervisor.ApplyTrustedRange | src/bin/server/mod.rs:44-65 | the imperative block produces exactly `Admit`'s steps and result, sets the builder's allowed range only when a range is allowed, and leaves the builder's other fields unchanged |
| Supervisor.EnrReport | src/bin/server/mod.rs:27-37 | the node id is logged first; then either the base64 form and the ip/udp port (all info) when there is a udp4 socket, or exactly one warning when there is not |
| Supervisor.ReportRecord | src/bin/server/mod.rs:27-37 | the imperative report emits exactly the records of `EnrReport` |
| Supervisor.ConfigBuilder.constructor | src/bin/server/mod.rs:39-42 | a new builder has the IPv4 listen config with the given ip and port, and nothing else set |
| Supervisor.ConfigBuilder.SetAllowedCidr | src/bin/server/mod.rs:53 | sets the allowed range to the given one; the other settings are unchanged |
| Supervisor.ConfigBuilder.SetRequestTimeout | src/bin/server/mod.rs:75 | sets the request timeout; the other settings are unchanged |
| Supervisor.ConfigBuilder.SetVoteDuration | src/bin/server/mod.rs:76 | sets the vote duration; the other settings are unchanged |
| Supervisor.WaitForShutdown | src/bin/server/mod.rs:91-105 | installs the SIGTERM handler, then the SIGINT handler (a failure returns that error), logs the wait, and reports and returns on the first signal |
| Supervisor.StartEngineAndServices | src/bin/server/mod.rs:71-89 | creates the engine (a failure returns an error) and starts it (a failure panics with "Should be able to start the server"); only then launches stats, events and echo, in that order |
| Supervisor.BootSpec | src/bin/server/mod.rs:21-108 | the step-by-step description of `run` (key, record, report, trusted range, engine, services, signals, each with its early exit); `Supervisor.Run` is proved equal to it and the lemmas below state its properties |
| Supervisor.EngineConfig | src/bin/server/mod.rs:39-78 | the configuration the engine is created with: IPv4 listen address and port, the admitted range, 3 s request timeout, 120 s vote duration; `Supervisor.Run` builds it in place and `Supervisor.EngineConfigured` states which range it carries |
| Supervisor.Run | src/bin/server/mod.rs:21-108 | the imperative `run`, which mutates the configuration builder, produces exactly the trace and outcome of `BootSpec` |
| Supervisor.EngineConfigured | src/bin/server/mod.rs:39-78 | every engine creation uses the IPv4 listen config with the given ip and port, timeouts 3 s and 120 s, and an allowed range equal to the given range when the probed local address is IPv4 and matches its prefix, and unset otherwise, in particular when no range is given |
| Supervisor.EngineCreatedIff | src/bin/server/mod.rs:44-78 | the engine is created with that configuration iff the record was built and either no range was given or the probe succeeded: a mismatch or an IPv6 address does not stop it |
| Supervisor.AllowedIffPrefixMatch | src/bin/server/mod.rs:44-65 | the builder's allowed range is set to `c` iff the record was built, `c` is the given range, and the probed IPv4 address matches its prefix |
| Supervisor.ProbeOnlyWithRange | src/bin/server/mod.rs:44-47 | a probe socket is opened iff a range is given (and key and record loading succeeded) |
| Supervisor.ProbeFailureIsFatal | src/bin/server/mod.rs:45-47 | a failed bind, connect or local_addr ends `run` with a probe error naming the failed stage and carrying its I/O error, and the engine is never created nor anything launched |
| Supervisor.StartPrecedesLaunches | src/bin/server/mod.rs:80-89 | every service launch in the trace comes after the engine start |
| Supervisor.ServicesLaunchedIff | src/bin/server/mod.rs:71-89 | each service of `Launches` (statistics, event observer, and the echo service with the given address and the record's text) is launched iff the probe succeeded or no range was given, and the engine was created and started; without key or record nothing is launched |
| Supervisor.OutcomeOfRun | src/bin/server/mod.rs:71-107 | `run` returns normally iff the record is built, the probe succeeds or no range is given, the engine is created and started and both handlers install, and then with the first signal, which is logged last; it panics iff the engine is created but cannot start |
| Decimal.ParseNatToString | src/bin/server/echo.rs:17-21 | the decimal `Content-Length` value and port read back as the number written |
| AddrText.ParseFormatIpv4 | src/bin/server/echo.rs:8 | the dotted-quad text of an address reads back as that address |
| AddrText.ParseFormatSocketAddrV4 | src/bin/server/echo.rs:8 | the `ip:port` text reads back as the address and the port |
| Echo.BindAddress | src/bin/server/echo.rs:8 | the listener's address string `<ipv4>:<port>` reads back as the given address and port |
| Http.ResponseIsHeadAndBody | src/bin/server/echo.rs:14-23 | the response is the status line and three header lines, each ended by CRLF, then an empty line, then the record text |
| Http.ResponseHeadRoundTrip | src/bin/server/echo.rs:14-23 | reading the head up to the first empty line gives the four fixed lines back, and the rest is exactly the record text |
| Http.ResponseContentLength | src/bin/server/echo.rs:17-21 | the `Content-Length` header of the head carries the decimal body length |
| Http.ResponseFraming | src/bin/server/echo.rs:14-23 | header/body round trip: the head reads back, `Content-Length` reads as the byte length of the record text, and a client framing by it gets exactly the record text |
| Http.Response | src/bin/server/echo.rs:14-23 | the response text sent to every connection; `Http.ResponseIsHeadAndBody`, `Http.ResponseContentLength` and `Http.ResponseFraming` state its layout and that a client reads the record text back from it |
| Echo.Handle | src/bin/server/echo.rs:25-34 | one accept outcome: an accepted connection is written the response; at most two actions; writes only on accept; every log is at error level, and a log occurs iff the accept or the write failed |
| Echo.Run | src/bin/server/echo.rs:6-38 | a bind failure panics before any accept; otherwise the bind is logged, and each accept outcome in turn gets exactly the actions of `Handle`, so the loop never stops on an error |
| Echo.ServedWritesResponse | src/bin/server/echo.rs:14-29 | every write sends the one response built before the loop |
| Echo.ServedCounts | src/bin/server/echo.rs:24-34 | exactly one write per accepted connection, and exactly one error log per accept error or failed write |
| Echo.ServedConnections | src/bin/server/echo.rs:26-29 | a connection is written to iff it was accepted |
| Echo.ServedAppend | src/bin/server/echo.rs:24-36 | the handling of later accepts does not depend on earlier outcomes: the actions for `xs + ys` are those for `xs` then those for `ys` |
| Events.Observe | src/bin/server/events.rs:10-42 | an item yields a record iff it is one of the six handled events, and every such record is at info level |
| Events.ObserveCarries | src/bin/server/events.rs:11-40 | each handled event's record carries that event's data: the new socket address, the discovered or inserted node id, the record text, the session peer's record and address, the talk requester |
| Events.Run | src/bin/server/events.rs:6-45 | a failed subscription panics; otherwise the log is the records of the received items, in order |
| Events.ObservedCount | src/bin/server/events.rs:9-43 | the number of records equals the number of handled events among the received items |
| Events.ObservedAt | src/bin/server/events.rs:9-43 | the record of a handled item sits at the position given by the number of handled items before it, so records are in input order |
| Events.ObservedAppend | src/bin/server/events.rs:9-43 | the records for two stretches of the stream are those of the first followed by those of the second |
| Events.IgnoredItemTransparent | src/bin/server/events.rs:41 | an unhandled event or the end-of-stream `None` yields no record and does not end the loop: later items are still observed |

## Left out

- Signal delivery and `select!` (`mod.rs:91-105`): which signal arrives first is an input; the other signal is not modelled.
- The discovery engine (`Discv5::new`, `start`, `event_stream`) is opaque. Only whether each call succeeds is an input. The engine's own use of the configuration is not modelled.
- `ConfigBuilder` defaults: durations the supervisor does not set are `None`, meaning the engine's default.
- Key loading and record building (`mod.rs:22-23`): `key.rs` and `enr.rs` are not part of this model. The record is an opaque value with a node id, optional IPv4 address and UDP port, and two text renderings.
- The statistics service (`mod.rs:87`): `stats.rs` is not part of this model. Its launch is a single step.
- `Box::leak` and `Arc` sharing (`mod.rs:25, 85`): memory management, with no observable effect in the model.
- The exact text of log lines: records are a level and a structured message.
- Socket I/O (the UDP probe to 8.8.8.8:80, TCP bind, accept and write) is replaced by input outcomes.
- Echo.Run: each connection's write runs in its own spawned task (`echo.rs:28`). The model performs the writes in accept order, so interleaving between connections is not modelled.
- Echo.Run, Http.Response, Http.ResponseContentLength, Http.ResponseFraming: the ENR text is a `seq<char>` and its length is taken as the byte length Rust's `len()` returns. This holds because the record text is base64 (ASCII). Non-ASCII text is not modelled.
- Echo.Run and Events.Run: the source loops never end. The model runs them over a finite prefix of accept outcomes or received items, and the lemmas hold for every prefix.
- NodeRecord.Udp4Socket: the record library's `udp4_socket` is assumed to be present exactly when the record has both an IPv4 address and a UDP port; that assumption is what makes the two `unwrap`s at `mod.rs:32-33` safe.
- BootError: the key, record, engine-creation and signal-installation errors `run` returns (`mod.rs:22-23, 78, 91-92`) are kept only as their kind; their contents are not modelled. The probe error keeps its I/O error.
- Events.Event: discv5 event kinds that the observer has no arm for are one `Unhandled` variant.
