# node_crunch coordinator core, modelled in Dafny

node_crunch is a framework for distributing work. A coordinator hands out chunks of
work to worker nodes over TCP, collects what they send back, and stops once the
application says the job is finished. This project models three parts of it:

- **The coordinator step logic** of `src/nc_server.rs`, with each mutex-guarded region
  read as one atomic step. This covers reading one frame (a big-endian `u64`
  length, then a zeroed buffer of that size, into which one read copies at most one
  chunk of the bytes that follow), the `decode` stub,
  the dispatch of `handle_node` on a `NodeMessage`, the `quit` latch, and the accept
  loop of `start_server`.
  - The `NC_Server` trait is the record `Ops<S>` of its three operations over an
    application state `S` that the coordinator does not look into.
  - The two shared mutexes live in the class `Coordinator`. That class also keeps
    each mutex's poison flag and a ghost log of every call into the application.
  - `nc_server.rs` uses error variants (`TcpBind`, `QuitLock`, `SocketAccept`,
    `ReadU64`, `ReadBuffer`, `ServerLock`) that `src/nc_error.rs` does not declare.
    The server module therefore declares its own `ServerError` with those variants.
- **The error vocabulary** of `src/nc_error.rs`: `NCError`, its display text, its
  `source()` and the two `From` conversions. The foreign errors it wraps are opaque
  values that carry only their display text.
- **The worker transform** of `examples/simple1/src/node.rs`. It keeps the chunk id
  and adds 100 to every value, in order. The element type is not shown in that file,
  so it is fixed here as `u64`. A debug build panics on overflow, so every value must
  leave room for the addition.

Files: `wrappers.dfy` (Option, Result), `machine_ints.dfy` (`byte`, `u32`, `u64`),
`nc_error.dfy` (module `NcError`), `nc_server.dfy` (module `NcServer`),
`simple1_node.dfy` (module `Simple1Node`).

Behaviour of the code worth knowing:

- A failed `accept` ends `start_server` with `Err(SocketAccept(..))` because of the
  `?` at src/nc_server.rs:33.
- The handler never replies: `ServerMessage` is declared but never built, and the
  writer half of the stream is unused. `prepare_data_for_node` is never called.
- `decode` ignores its buffer and always yields `NodeNeedsData`. As written,
  therefore, no connection ever changes the application state or `quit`, and the
  server never returns `Ok(())` (`NcServer.StartServer`,
  `NcServer.Coordinator.HandleNode`). The dispatch of a `NodeHasData` message is
  still modelled and proved on its own (`NcServer.Coordinator.Dispatch` and the
  `Run…` lemmas).

## Model

| member | source | states |
|---|---|---|
| NcError.Decimal | src/nc_error.rs:25 | the decimal text `{}` writes for a number: at least one digit, only digits, a leading `0` only for zero |
| NcError.DecimalRoundTrip | src/nc_error.rs:25 | reading the decimal text back gives the number |
| NcError.DecimalInjective | src/nc_error.rs:25 | different `Custom` codes have different decimal text |
| NcError.DisplayStartsWithPrefix | src/nc_error.rs:18-26 | every error's `Display` text starts with its variant's fixed prefix (the full fixed text for the two mismatch variants) |
| NcError.DisplayNamesItsVariant | src/nc_error.rs:18-26 | the `Display` text alone determines which of the seven variants was displayed |
| NcError.DisplayDistinguishesVariants | src/nc_error.rs:19-25 | errors of different variants never have the same `Display` text |
| NcError.DisplayInjective | src/nc_error.rs:19-25 | equal `Display` text means equal errors: same variant, same wrapped error text, same custom code |
| NcError.SourceAbsentExactlyForMismatch | src/nc_error.rs:31-41 | `Source` (the model of `source()`) is `None` exactly for `ServerMsgMismatch` and `NodeMsgMismatch` |
| NcError.SourceIsWrappedError | src/nc_error.rs:33-39 | by `Source`, the four wrapping variants' source is the wrapped foreign error; `Custom`'s source is the error itself |
| NcError.CustomSourceWalkNeverEnds | src/nc_error.rs:39 | as written (`Source`), following `source()` from `Custom(n)` any number of times still yields `Custom(n)` |
| NcError.CorrectedSourceWalkEnds | src/nc_error.rs:31-41 | with `SourceCorrected`, where `Custom`'s source is `None`, following `source()` ends within two steps for every error |
| NcError.FromIoErrorRoundTrip | src/nc_error.rs:44-48 | `From<io::Error>` gives `IOError` holding that same error as its source, displayed as `IO error: ` plus its text |
| NcError.FromAddrParseErrorRoundTrip | src/nc_error.rs:50-54 | `From<AddrParseError>` gives `IPAddrParse` holding that same error as its source, displayed with its prefix |
| NcServer.BigEndian | src/nc_server.rs:45 | eight header bytes always spell a number below 2^64, so the length fits a `u64` |
| NcServer.BigEndianOfEncode | src/nc_server.rs:45 | big-endian decoding inverts big-endian encoding at any width |
| NcServer.EncodeOfBigEndian | src/nc_server.rs:45 | big-endian encoding inverts big-endian decoding |
| NcServer.ReadLength | src/nc_server.rs:45 | `read_u64` fails exactly when fewer than 8 bytes arrive, with the stream's end as the `ReadU64` error; otherwise its length re-encodes to the first 8 bytes, and the rest of the stream is left |
| NcServer.ReadLengthOfEncode | src/nc_server.rs:45 | a header written as 8 big-endian bytes is read back as the same length, leaving the rest of the stream |
| NcServer.FrameOf | src/nc_server.rs:45-47 | the read fails with `ReadU64` (the stream's end as its error) exactly when fewer than 8 bytes arrive, and with `ReadBuffer` exactly when a non-zero header is followed by nothing on a broken stream; otherwise `length` is the header's big-endian value, `bytesRead` is `ReadCount` of the rest of the stream, and the buffer has exactly the announced length, and no more bytes are read than fit in it; the count `ReadCount` is at most one chunk, and at least one byte when bytes remain and the buffer is not empty |
| NcServer.FrameRoundTrip | src/nc_server.rs:45-47 | by `FrameOf`, header plus payload (plus anything after it) is read with the payload's length, the first `k` payload bytes then zeros, and count `k`, where `k` is the smaller of the payload size and what one read delivers; when one read can deliver the whole payload, the buffer is exactly the payload |
| NcServer.ShortReadIsNotAnError | src/nc_server.rs:46-49 | by `FrameOf`, fewer bytes than announced is not an error, whether the stream holds fewer or one read delivers fewer (nothing at all after the header on a closed stream included): the buffer keeps its size, holds the bytes that came, then zeros, and the count is the bytes that came |
| NcServer.ReadFrame | src/nc_server.rs:45-47 | allocating the zeroed buffer and filling its front gives the frame `FrameOf` describes, errors included |
| NcServer.DecodeIgnoresBuffer | src/nc_server.rs:68-70 | `Decode` gives `Ok(NodeNeedsData)` whatever the buffer holds |
| NcServer.RunKeepsQuit | src/nc_server.rs:58-61 | once `quit` is set it stays set through any further dispatches (`DispatchStep` folded by `Run`) |
| NcServer.RunOfNeedsDataIsIdle | src/nc_server.rs:52-54 | by `DispatchStep`, dispatching only `NodeNeedsData` leaves state, `quit` and poison flags unchanged |
| NcServer.RunProcessesEachPayloadOnce | src/nc_server.rs:55-57 | by `DispatchStep`, with the state mutex sound, the application state is exactly the result of processing every `NodeHasData` payload once, in order; no mutex is poisoned meanwhile |
| NcServer.RunQuitIffFinished | src/nc_server.rs:58-61 | by `DispatchStep`, with both mutexes sound, `quit` ends up set exactly when it was set before or `finished()` held right after some `process_data_from_node` call |
| NcServer.LoopNeverOkWhileQuitFalse | src/nc_server.rs:32-38 | by `LoopOutcome`, while `quit` stays false the accept loop never returns `Ok(())` |
| NcServer.LoopStopsAtFirstAcceptFailure | src/nc_server.rs:33 | by `LoopOutcome`, the first failed accept ends the loop with `SocketAccept` of that accept's error |
| NcServer.LoopAcceptsAll | src/nc_server.rs:32-36 | by `LoopOutcome`, if every accept succeeds, the loop is still waiting for the next connection |
| NcServer.Coordinator.constructor | src/nc_server.rs:29-30 | `quit` starts false, the server state is the one given, no mutex is poisoned, no call was made, no connection was handled |
| NcServer.Coordinator.Dispatch | src/nc_server.rs:51-63 | the new shared values and result are those of `DispatchStep`. `NodeNeedsData` changes nothing. `NodeHasData(d)` with a poisoned state mutex is `Err(ServerLock)` and changes nothing. Otherwise it calls `process_data_from_node(d)` once, then `finished()`, and `quit` becomes true exactly when it was true or `finished()` holds on the new state, or `Err(QuitLock)` if that mutex is poisoned. `quit` never goes back to false, and `prepare_data_for_node` is never called |
| NcServer.Coordinator.HandleNode | src/nc_server.rs:41-66 | the connection is appended to `handledConns`; as written, it changes neither state, `quit` nor the call log; its result is the read error of `FrameOf`, else `Ok(())` |
| NcServer.Coordinator.AcceptLoop | src/nc_server.rs:32-38 | the outcome is `LoopOutcome`: the loop head's lock and flag, then the first failed accept, decide it; it returns `Ok(())` only having read `quit` as true, and the ghost log `handledConns` of connections handed to `HandleNode` grows by exactly the accepted connections among the accepts it consumed, in order, and not at all if `quit` was already set |
| NcServer.StartServer | src/nc_server.rs:23-39 | a failed bind is returned as `TcpBind` before anything is accepted; otherwise the loop's outcome, which as written is never `Ok(())` |
| Simple1Node.ShiftedAt | examples/simple1/src/node.rs:31-32 | `Shifted` (the reference map) keeps the input's length, and each value is the input value at the same index plus 100 |
| Simple1Node.ProcessNewDataFromServer | examples/simple1/src/node.rs:26-33 | the chunk id is kept, the output has the input's length (so empty input gives empty output), and value `i` is input value `i` plus 100, in order; the output values equal `Shifted` of the input |

## Findings

| source | as written | input that shows it | evidently intended | confidence | as-written member | corrected member |
|---|---|---|---|---|---|---|
| src/nc_error.rs:39 | `Custom(_) => Some(self)`: the error names itself as its own cause | `Custom(0)`: a reporter that follows `source()` until `None` (an error-chain printer) never stops | `None`, because a user-defined code has no lower-level cause | medium, not executed | NcError.CustomSourceWalkNeverEnds | NcError.CorrectedSourceWalkEnds |

## Left out

- Networking and the async runtime: `TcpListener::bind`, `accept`, `tokio::spawn` and `await`. A bind result and a sequence of accept results are parameters instead. The accept loop runs out of modelled connections in the state `StillAccepting`, where the real program would block in `accept`.
- Concurrency: each mutex-guarded region is one atomic step. Spawned handlers are not interleaved with each other or with the loop.
- NcServer.Coordinator.AcceptLoop: each spawned handler runs to completion inside its loop iteration, before the loop head reads `quit` again. Other schedules are not modelled.
- Mutex poisoning: it is two flags that the methods check. Nothing in the model sets them, since panics in application code are not modelled.
- NcServer.FrameOf: how many bytes one `read` delivers is a property of the stream (`chunk`), not derived from `BufReader`'s buffer size or the socket's timing. A read into an empty buffer is taken to read nothing and never fail.
- NcServer.FrameRoundTrip: the payload comes back whole only when one read can deliver all of it; otherwise the promise is only its first `k` bytes followed by zeros.
- NcServer.ReadLength: a stream that closes before 8 bytes is reported as the I/O error with the text `unexpected end of file`, which is assumed to be what tokio's `read_u64` produces (the library is not part of this model). Error kinds are not modelled; a foreign error is only its text.
- `message_length as usize` (src/nc_server.rs:46) is taken as the identity, which assumes a 64-bit target; on a 32-bit target a large length would be cut short.
- The allocation failure of `vec![0; n]` for a huge announced length is not modelled.
- Foreign errors (`io::Error`, `AddrParseError`, `bincode::Error`) are opaque values holding their display text. Their own `source()` is not modelled: a source walk stops at them.
- `fmt::Formatter` plumbing and the `Debug` derive are out. Display is modelled as the string that `write!` produces.
- Logging (`debug!`, `info!`, `error!`) is out.
- The fixed bind address `127.0.0.1:9000` is out, since the bind outcome is a parameter.
- Simple1Node.ProcessNewDataFromServer: the element type is fixed as `u64`. Each value is required to be at most 2^64 - 101, because a debug build panics on overflow. Release-build wrap-around is not modelled.
- The random sleep of examples/simple1/src/node.rs:35-42 (randomness and timing) and `run_node` (configuration glue) are out.
- examples/ray_tracer/src/node.rs is not part of this model. Its computation is an empty loop.
- `nc_node`: only the two `NodeMessage` variants that `handle_node` matches on are modelled. The rest of that module is not part of this model.
