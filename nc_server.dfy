/**
 * The coordinator of src/nc_server.rs, with every mutex-guarded region read
 * as one atomic step: reading one length-prefixed frame from a connection,
 * the `decode` stub, the dispatch of `handle_node` on a `NodeMessage`, the
 * `quit` latch, and the accept loop of `start_server`.
 *
 * The `NC_Server` trait is the record `Ops<S>` of its three operations over
 * an application state `S` the coordinator knows nothing about.
 */
module NcServer {
  import opened Wrappers
  import opened MachineInts
  import NcError

  /** The coordinator's replies. nc_server.rs declares them and never builds one. */
  datatype ServerMessage = ServerHasData(data: seq<byte>) | ServerFinished

  /** The two variants of `nc_node::NodeMessage` that `handle_node` matches on. */
  datatype NodeMessage = NodeNeedsData | NodeHasData(data: seq<byte>)

  /** The error variants nc_server.rs uses; each wraps what the failing call returned. */
  datatype ServerError =
    | TcpBind(bindError: NcError.IoError)
    | QuitLock
    | SocketAccept(acceptError: NcError.IoError)
    | ReadU64(readError: NcError.IoError)
    | ReadBuffer(bufferError: NcError.IoError)
    | ServerLock

  // ---------------------------------------------------------------------
  // A connection's incoming bytes and the frame header
  // ---------------------------------------------------------------------

  /** How a connection's byte stream ends: closed by the peer, or failing. */
  datatype StreamEnd = Eof | Broken(error: NcError.IoError)

  /** A count of at least one. */
  type Positive = x: nat | x >= 1 witness 1

  /**
   * What a node sends on one connection: its bytes, the most bytes a single
   * `read` delivers at once (what the reader has buffered, or what one socket
   * read brings), then how the stream ends.
   */
  datatype Stream = Stream(bytes: seq<byte>, chunk: Positive, end: StreamEnd)

  /** The error `read_u64` reports when the stream closes before eight bytes: `UnexpectedEof`'s text. */
  const UNEXPECTED_EOF: NcError.IoError := NcError.IoError("unexpected end of file")

  function EndError(e: StreamEnd): NcError.IoError {
    match e
    case Eof => UNEXPECTED_EOF
    case Broken(err) => err
  }

  function Pow256(k: nat): (p: nat)
    ensures p >= 1
  {
    if k == 0 then 1 else 256 * Pow256(k - 1)
  }

  lemma Pow256Eight()
    ensures Pow256(8) == U64_LIMIT
  {
  }

  /** `n < 256 * p` leaves `n / 256 < p` and splits `n` into its quotient and last digit. */
  lemma DivideByBase(n: nat, p: nat)
    requires n < 256 * p
    ensures n / 256 < p && n == n / 256 * 256 + n % 256
  {
  }

  /** `q < p` and a digit `x` keep `q * 256 + x` below `256 * p`. */
  lemma AppendDigitBound(q: nat, x: nat, p: nat)
    requires q < p && x < 256
    ensures q * 256 + x < 256 * p
  {
  }

  /** The number the bytes `b` spell, most significant first. */
  function BigEndian(b: seq<byte>): (n: nat)
    ensures n < Pow256(|b|)
  {
    if b == [] then 0
    else
      var q := BigEndian(b[..|b| - 1]);
      AppendDigitBound(q, b[|b| - 1] as nat, Pow256(|b| - 1));
      q * 256 + b[|b| - 1] as nat
  }

  /** The `width` bytes that spell `n`, most significant first. */
  function EncodeBigEndian(n: nat, width: nat): (b: seq<byte>)
    requires n < Pow256(width)
    ensures |b| == width
    decreases width
  {
    if width == 0 then []
    else
      DivideByBase(n, Pow256(width - 1));
      EncodeBigEndian(n / 256, width - 1) + [(n % 256) as byte]
  }

  lemma {:induction false} BigEndianOfEncode(n: nat, width: nat)
    requires n < Pow256(width)
    ensures BigEndian(EncodeBigEndian(n, width)) == n
    decreases width
  {
    if width > 0 {
      DivideByBase(n, Pow256(width - 1));
      var b := EncodeBigEndian(n, width);
      assert b[..|b| - 1] == EncodeBigEndian(n / 256, width - 1);
      BigEndianOfEncode(n / 256, width - 1);
    }
  }

  lemma {:induction false} EncodeOfBigEndian(b: seq<byte>)
    ensures EncodeBigEndian(BigEndian(b), |b|) == b
  {
    if b != [] {
      var init := b[..|b| - 1];
      var n := BigEndian(b);
      assert n / 256 == BigEndian(init) && n % 256 == b[|b| - 1] as nat;
      EncodeOfBigEndian(init);
      assert b == init + [b[|b| - 1]];
    }
  }

  /** The eight bytes a writer sends ahead of a payload of `n` bytes. */
  function EncodeU64(n: u64): (b: seq<byte>)
    ensures |b| == 8
  {
    Pow256Eight();
    EncodeBigEndian(n as nat, 8)
  }

  /**
   * `read_u64` (line 45): the first eight bytes as a big-endian number. With
   * fewer than eight bytes the stream's end is the error.
   */
  function ReadLength(s: Stream): (r: Result<(u64, Stream), ServerError>)
    ensures r.Err? <==> |s.bytes| < 8
    ensures r.Err? ==> r.error == ReadU64(EndError(s.end))
    ensures r.Ok? ==> EncodeU64(r.value.0) == s.bytes[..8]
    ensures r.Ok? ==> r.value.1 == s.(bytes := s.bytes[8..])
  {
    if |s.bytes| < 8 then Err(ReadU64(EndError(s.end)))
    else
      Pow256Eight();
      EncodeOfBigEndian(s.bytes[..8]);
      Ok((BigEndian(s.bytes[..8]) as u64, s.(bytes := s.bytes[8..])))
  }

  /** Reading back a header written by `EncodeU64` gives the same length. */
  lemma ReadLengthOfEncode(n: u64, rest: Stream)
    ensures ReadLength(rest.(bytes := EncodeU64(n) + rest.bytes)) == Ok((n, rest))
  {
    var s := rest.(bytes := EncodeU64(n) + rest.bytes);
    assert s.bytes[..8] == EncodeU64(n) && s.bytes[8..] == rest.bytes;
    Pow256Eight();
    BigEndianOfEncode(n as nat, 8);
  }

  // ---------------------------------------------------------------------
  // One frame: the header, then a zeroed buffer of that size, then one read
  // ---------------------------------------------------------------------

  /** `length` from the header, the buffer after the read, and the count of bytes read. */
  datatype Frame = Frame(length: u64, buffer: seq<byte>, bytesRead: nat)

  function Min(a: nat, b: nat): nat {
    if a < b then a else b
  }

  function Zeros(n: nat): (z: seq<byte>)
    ensures |z| == n && forall i :: 0 <= i < n ==> z[i] == 0
  {
    seq(n, _ => 0)
  }

  /** How many bytes the one `read` of line 47 copies into a buffer of `n` bytes. */
  function ReadCount(n: nat, rest: Stream): (k: nat)
    ensures k <= n && k <= |rest.bytes| && k <= rest.chunk
    ensures n > 0 && rest.bytes != [] ==> k >= 1
  {
    Min(n, Min(|rest.bytes|, rest.chunk))
  }

  /**
   * Lines 45-47. One `read` into the buffer copies at most one chunk of the
   * rest of the stream, and no more than fits; it fails only when the buffer
   * is not empty, no byte is left and the stream is broken. A read into an
   * empty buffer reads nothing.
   */
  function FrameOf(s: Stream): (r: Result<Frame, ServerError>)
    ensures r.Err? <==> |s.bytes| < 8 || (|s.bytes| == 8 && s.end.Broken? && BigEndian(s.bytes[..8]) > 0)
    ensures |s.bytes| < 8 ==> r == Err(ReadU64(EndError(s.end)))
    ensures |s.bytes| == 8 && s.end.Broken? && BigEndian(s.bytes[..8]) > 0 ==> r == Err(ReadBuffer(s.end.error))
    ensures r.Ok? ==> r.value.length as nat == BigEndian(s.bytes[..8])
    ensures r.Ok? ==> r.value.bytesRead == ReadCount(BigEndian(s.bytes[..8]), s.(bytes := s.bytes[8..]))
    ensures r.Ok? ==> |r.value.buffer| == r.value.length as nat
    ensures r.Ok? ==> r.value.bytesRead <= |r.value.buffer|
  {
    Pow256Eight();
    match ReadLength(s)
    case Err(e) => Err(e)
    case Ok((n, rest)) =>
      if n > 0 && rest.bytes == [] && rest.end.Broken? then Err(ReadBuffer(rest.end.error))
      else
        var k := ReadCount(n as nat, rest);
        Ok(Frame(n, rest.bytes[..k] + Zeros(n as nat - k), k))
  }

  /** What a writer sends for one payload: its length as a `u64` header, then the payload. */
  function FrameBytes(payload: seq<byte>): (b: seq<byte>)
    requires |payload| < U64_LIMIT
    ensures |b| == 8 + |payload| && b[8..] == payload
  {
    EncodeU64(|payload| as u64) + payload
  }

  /**
   * A frame written as header plus payload is read back with the payload's
   * length, the payload's first `k` bytes and zeros after them, where `k` is
   * what one read delivers. When one read can deliver the whole payload the
   * buffer is exactly the payload.
   */
  lemma FrameRoundTrip(payload: seq<byte>, rest: Stream)
    requires |payload| < U64_LIMIT
    ensures FrameOf(rest.(bytes := FrameBytes(payload) + rest.bytes))
         == Ok(Frame(|payload| as u64, payload[..Min(|payload|, rest.chunk)] + Zeros(|payload| - Min(|payload|, rest.chunk)), Min(|payload|, rest.chunk)))
    ensures rest.chunk >= |payload| ==> FrameOf(rest.(bytes := FrameBytes(payload) + rest.bytes)) == Ok(Frame(|payload| as u64, payload, |payload|))
  {
    var n := |payload| as u64;
    var s := rest.(bytes := FrameBytes(payload) + rest.bytes);
    var body := rest.(bytes := payload + rest.bytes);
    assert s.bytes == EncodeU64(n) + body.bytes;
    assert s == body.(bytes := EncodeU64(n) + body.bytes);
    ReadLengthOfEncode(n, body);
    var k := Min(|payload|, rest.chunk);
    assert ReadCount(n as nat, body) == k;
    assert body.bytes[..k] == payload[..k];
    assert payload[..|payload|] + Zeros(0) == payload;
  }

  /**
   * Fewer bytes than the header announces is not an error, whether the
   * stream holds fewer or one read delivers fewer: the buffer keeps its
   * announced size, holds the bytes that came, then zeros, and the count says
   * how many came. With nothing left after the header, on a stream that
   * closed, the buffer is all zeros.
   */
  lemma ShortReadIsNotAnError(s: Stream)
    requires |s.bytes| >= 8
    requires |s.bytes| == 8 ==> s.end.Eof?
    ensures FrameOf(s).Ok?
    ensures |FrameOf(s).value.buffer| == BigEndian(s.bytes[..8])
    ensures var k := Min(BigEndian(s.bytes[..8]), Min(|s.bytes| - 8, s.chunk));
            FrameOf(s).value.bytesRead == k &&
            FrameOf(s).value.buffer[..k] == s.bytes[8..8 + k] &&
            forall i :: k <= i < |FrameOf(s).value.buffer| ==> FrameOf(s).value.buffer[i] == 0
  {
  }

  /**
   * The buffer of line 46 is allocated zeroed at the announced length and the
   * read of line 47 fills its front.
   */
  method ReadFrame(s: Stream) returns (r: Result<Frame, ServerError>)
    ensures r == FrameOf(s)
  {
    var header := ReadLength(s);
    if header.Err? {
      return Err(header.error);
    }
    var (n, rest) := header.value;
    var buffer := new byte[n as nat](_ => 0);
    var k: nat := 0;
    if n > 0 {
      if rest.bytes == [] {
        if rest.end.Broken? {
          return Err(ReadBuffer(rest.end.error));
        }
      } else {
        k := ReadCount(n as nat, rest);
        forall i | 0 <= i < k {
          buffer[i] := rest.bytes[i];
        }
      }
    }
    assert buffer[..] == rest.bytes[..k] + Zeros(n as nat - k);
    r := Ok(Frame(n, buffer[..], k));
  }

  /** `decode` (lines 68-70), as written: a stub that ignores its buffer. */
  function Decode(buffer: seq<byte>): Result<NodeMessage, ServerError> {
    Ok(NodeNeedsData)
  }

  /** Whatever the buffer holds, `decode` reports a request for data. */
  lemma DecodeIgnoresBuffer(a: seq<byte>, b: seq<byte>)
    ensures Decode(a) == Decode(b) == Ok(NodeNeedsData)
  {
  }

  // ---------------------------------------------------------------------
  // The NC_Server trait and the shared values
  // ---------------------------------------------------------------------

  /** `trait NC_Server` (lines 17-21) as its three operations on application state `S`. */
  datatype Ops<!S> = Ops(
    finished: S -> bool,
    process: (S, seq<byte>) -> S,
    prepare: S -> (S, seq<byte>))

  /** A call the coordinator makes into the application. */
  datatype Call = FinishedCall | PrepareDataForNode | ProcessDataFromNode(data: seq<byte>)

  /** The two mutex-guarded values (lines 29-30) and whether each mutex is poisoned. */
  datatype Shared<S> = Shared(state: S, quit: bool, stateLockPoisoned: bool, quitLockPoisoned: bool)

  /** The match of lines 51-63 as one atomic step on the shared values. */
  function DispatchStep<S>(ops: Ops<S>, sh: Shared<S>, msg: NodeMessage): (Shared<S>, Result<(), ServerError>) {
    match msg
    case NodeNeedsData => (sh, Ok(()))
    case NodeHasData(d) =>
      if sh.stateLockPoisoned then (sh, Err(ServerLock))
      else
        var st := ops.process(sh.state, d);
        if !ops.finished(st) then (sh.(state := st), Ok(()))
        else if sh.quitLockPoisoned then (sh.(state := st), Err(QuitLock))
        else (sh.(state := st, quit := true), Ok(()))
  }

  /** The shared values after the handlers dispatch `msgs` one after another. */
  function Run<S>(ops: Ops<S>, sh: Shared<S>, msgs: seq<NodeMessage>): Shared<S>
    decreases |msgs|
  {
    if msgs == [] then sh else Run(ops, DispatchStep(ops, sh, msgs[0]).0, msgs[1..])
  }

  /** The payloads of the `NodeHasData` messages among `msgs`, in order. */
  function Payloads(msgs: seq<NodeMessage>): seq<seq<byte>>
    decreases |msgs|
  {
    if msgs == [] then []
    else (if msgs[0].NodeHasData? then [msgs[0].data] else []) + Payloads(msgs[1..])
  }

  /** The application state after `process` has consumed `ds` in order. */
  function ProcessAll<S>(process: (S, seq<byte>) -> S, st: S, ds: seq<seq<byte>>): S
    decreases |ds|
  {
    if ds == [] then st else ProcessAll(process, process(st, ds[0]), ds[1..])
  }

  /** Whether `finished` holds right after one of the `process` calls that `msgs` cause. */
  function FinishedAtSomeStep<S>(ops: Ops<S>, st: S, msgs: seq<NodeMessage>): bool
    decreases |msgs|
  {
    if msgs == [] then false
    else match msgs[0]
      case NodeNeedsData => FinishedAtSomeStep(ops, st, msgs[1..])
      case NodeHasData(d) =>
        var st' := ops.process(st, d);
        ops.finished(st') || FinishedAtSomeStep(ops, st', msgs[1..])
  }

  /** Once set, `quit` stays set whatever the handlers dispatch afterwards. */
  lemma {:induction false} RunKeepsQuit<S>(ops: Ops<S>, sh: Shared<S>, msgs: seq<NodeMessage>)
    requires sh.quit
    ensures Run(ops, sh, msgs).quit
    decreases |msgs|
  {
    if msgs != [] {
      RunKeepsQuit(ops, DispatchStep(ops, sh, msgs[0]).0, msgs[1..]);
    }
  }

  /** Requests for data leave the shared values as they were. */
  lemma {:induction false} RunOfNeedsDataIsIdle<S>(ops: Ops<S>, sh: Shared<S>, msgs: seq<NodeMessage>)
    requires forall i :: 0 <= i < |msgs| ==> msgs[i] == NodeNeedsData
    ensures Run(ops, sh, msgs) == sh
    decreases |msgs|
  {
    if msgs != [] {
      RunOfNeedsDataIsIdle(ops, sh, msgs[1..]);
    }
  }

  /**
   * With the state mutex sound, the application has consumed exactly the
   * payloads of the `NodeHasData` messages, once each and in order, and no
   * step poisons a mutex.
   */
  lemma {:induction false} RunProcessesEachPayloadOnce<S>(ops: Ops<S>, sh: Shared<S>, msgs: seq<NodeMessage>)
    requires !sh.stateLockPoisoned
    ensures Run(ops, sh, msgs).state == ProcessAll(ops.process, sh.state, Payloads(msgs))
    ensures Run(ops, sh, msgs).stateLockPoisoned == sh.stateLockPoisoned
    ensures Run(ops, sh, msgs).quitLockPoisoned == sh.quitLockPoisoned
    decreases |msgs|
  {
    if msgs != [] {
      var sh' := DispatchStep(ops, sh, msgs[0]).0;
      RunProcessesEachPayloadOnce(ops, sh', msgs[1..]);
      if msgs[0].NodeHasData? {
        var ds := [msgs[0].data] + Payloads(msgs[1..]);
        assert ds[1..] == Payloads(msgs[1..]);
      } else {
        assert Payloads(msgs) == [] + Payloads(msgs[1..]) == Payloads(msgs[1..]);
      }
    }
  }

  /**
   * With both mutexes sound, `quit` ends up set exactly when it was set
   * before or `finished` held right after one of the `process` calls.
   */
  lemma {:induction false} RunQuitIffFinished<S>(ops: Ops<S>, sh: Shared<S>, msgs: seq<NodeMessage>)
    requires !sh.stateLockPoisoned && !sh.quitLockPoisoned
    ensures Run(ops, sh, msgs).quit <==> sh.quit || FinishedAtSomeStep(ops, sh.state, msgs)
    decreases |msgs|
  {
    if msgs != [] {
      var sh' := DispatchStep(ops, sh, msgs[0]).0;
      RunQuitIffFinished(ops, sh', msgs[1..]);
      if sh'.quit {
        RunKeepsQuit(ops, sh', msgs[1..]);
      }
    }
  }

  // ---------------------------------------------------------------------
  // The accept loop's view of the incoming connections
  // ---------------------------------------------------------------------

  /** What one `socket.accept()` returns. */
  datatype Accept = Accepted(conn: Stream) | AcceptFailed(error: NcError.IoError)

  /** The connections among `accepts`, in order. */
  function ConnsOf(accepts: seq<Accept>): seq<Stream>
    decreases |accepts|
  {
    if accepts == [] then []
    else
      var last := accepts[|accepts| - 1];
      ConnsOf(accepts[..|accepts| - 1]) + (if last.Accepted? then [last.conn] else [])
  }

  /**
   * How `start_server` ends: it returns a result, or it is still waiting in
   * `accept` when the modelled connections run out.
   */
  datatype ServeOutcome = Returned(result: Result<(), ServerError>) | StillAccepting

  /**
   * The outcome of the loop of lines 32-38 when no handler changes `quit`:
   * the loop head's lock and flag, then the first failed accept.
   */
  function LoopOutcome(quitLockPoisoned: bool, quit: bool, incoming: seq<Accept>): ServeOutcome
    decreases |incoming|
  {
    if quitLockPoisoned then Returned(Err(QuitLock))
    else if quit then Returned(Ok(()))
    else if incoming == [] then StillAccepting
    else match incoming[0]
      case AcceptFailed(e) => Returned(Err(SocketAccept(e)))
      case Accepted(_) => LoopOutcome(quitLockPoisoned, quit, incoming[1..])
  }

  /** While `quit` stays false the loop never returns `Ok(())`. */
  lemma {:induction false} LoopNeverOkWhileQuitFalse(quitLockPoisoned: bool, incoming: seq<Accept>)
    ensures LoopOutcome(quitLockPoisoned, false, incoming) != Returned(Ok(()))
    decreases |incoming|
  {
    if !quitLockPoisoned && incoming != [] && incoming[0].Accepted? {
      LoopNeverOkWhileQuitFalse(quitLockPoisoned, incoming[1..]);
    }
  }

  /** The first failed accept ends the loop with that accept's error. */
  lemma {:induction false} LoopStopsAtFirstAcceptFailure(incoming: seq<Accept>, i: nat)
    requires i < |incoming| && incoming[i].AcceptFailed?
    requires forall j :: 0 <= j < i ==> incoming[j].Accepted?
    ensures LoopOutcome(false, false, incoming) == Returned(Err(SocketAccept(incoming[i].error)))
    decreases i
  {
    if i > 0 {
      LoopStopsAtFirstAcceptFailure(incoming[1..], i - 1);
    }
  }

  /** When every accept succeeds the loop is still waiting for the next connection. */
  lemma {:induction false} LoopAcceptsAll(incoming: seq<Accept>)
    requires forall j :: 0 <= j < |incoming| ==> incoming[j].Accepted?
    ensures LoopOutcome(false, false, incoming) == StillAccepting
    decreases |incoming|
  {
    if incoming != [] {
      LoopAcceptsAll(incoming[1..]);
    }
  }

  // ---------------------------------------------------------------------
  // The coordinator
  // ---------------------------------------------------------------------

  /**
   * The values `start_server` shares between its accept loop and every
   * handler: the application state behind one mutex, `quit` behind another.
   * `calls` records every call into the application, in order, and
   * `handledConns` every connection handed to a handler.
   */
  class Coordinator<S> {
    const ops: Ops<S>
    var state: S
    var quit: bool
    var stateLockPoisoned: bool
    var quitLockPoisoned: bool
    ghost var calls: seq<Call>
    ghost var handledConns: seq<Stream>

    function Snapshot(): Shared<S>
      reads this
    {
      Shared(state, quit, stateLockPoisoned, quitLockPoisoned)
    }

    /** Lines 29-30: `quit` starts false and the server moves behind its mutex. */
    constructor (server: S, ops: Ops<S>)
      ensures this.ops == ops
      ensures Snapshot() == Shared(server, false, false, false)
      ensures calls == [] && handledConns == []
    {
      this.ops := ops;
      state := server;
      quit := false;
      stateLockPoisoned := false;
      quitLockPoisoned := false;
      calls := [];
      handledConns := [];
    }

    /**
     * Lines 51-63: a request for data does nothing; data from a node is
     * handed to `process_data_from_node` once, then `finished` is asked and,
     * if it holds, `quit` is set. `prepare_data_for_node` is never called.
     */
    method Dispatch(msg: NodeMessage) returns (r: Result<(), ServerError>)
      modifies this
      ensures handledConns == old(handledConns)
      ensures (Snapshot(), r) == DispatchStep(ops, old(Snapshot()), msg)
      ensures old(quit) ==> quit
      ensures stateLockPoisoned == old(stateLockPoisoned) && quitLockPoisoned == old(quitLockPoisoned)
      ensures msg.NodeNeedsData? ==> Snapshot() == old(Snapshot()) && calls == old(calls) && r == Ok(())
      ensures msg.NodeHasData? && old(stateLockPoisoned) ==>
                Snapshot() == old(Snapshot()) && calls == old(calls) && r == Err(ServerLock)
      ensures msg.NodeHasData? && !old(stateLockPoisoned) ==>
                state == ops.process(old(state), msg.data) &&
                calls == old(calls) + [ProcessDataFromNode(msg.data), FinishedCall]
      ensures msg.NodeHasData? && !old(stateLockPoisoned) && !old(quitLockPoisoned) ==>
                (quit <==> old(quit) || ops.finished(state)) && r == Ok(())
    {
      match msg
      case NodeNeedsData =>
        r := Ok(());
      case NodeHasData(newData) =>
        if stateLockPoisoned {
          return Err(ServerLock);
        }
        state := ops.process(state, newData);
        calls := calls + [ProcessDataFromNode(newData)];
        var done := ops.finished(state);
        calls := calls + [FinishedCall];
        if done {
          if quitLockPoisoned {
            return Err(QuitLock);
          }
          quit := true;
        }
        r := Ok(());
    }

    /**
     * `handle_node` (lines 41-66) on one connection: read a frame, decode it,
     * dispatch. It writes nothing back. With `decode` as written the shared
     * values and the calls stay as they were; only a failed read is an error.
     */
    method HandleNode(conn: Stream) returns (r: Result<(), ServerError>)
      modifies this
      ensures handledConns == old(handledConns) + [conn]
      ensures Snapshot() == old(Snapshot()) && calls == old(calls)
      ensures FrameOf(conn).Err? ==> r == Err(FrameOf(conn).error)
      ensures FrameOf(conn).Ok? ==> r == Ok(())
    {
      handledConns := handledConns + [conn];
      var frame := ReadFrame(conn);
      if frame.Err? {
        return Err(frame.error);
      }
      match Decode(frame.value.buffer)
      case Err(e) =>
        r := Err(e);
      case Ok(msg) =>
        r := Dispatch(msg);
    }

    /**
     * The loop of lines 32-38 over the connections `incoming` delivers. Each
     * accepted connection is handled to completion before the loop head reads
     * `quit` again; the handler's result is dropped. `handledConns` logs every
     * connection handed to `HandleNode`: exactly the accepted connections among
     * the first `handled` accepts, and none when the loop head first reads
     * `quit` as set.
     */
    method AcceptLoop(incoming: seq<Accept>) returns (outcome: ServeOutcome, ghost handled: nat)
      modifies this
      ensures Snapshot() == old(Snapshot()) && calls == old(calls)
      ensures outcome == LoopOutcome(old(quitLockPoisoned), old(quit), incoming)
      ensures outcome == Returned(Ok(())) ==> quit
      ensures handled <= |incoming|
      ensures forall j :: 0 <= j < handled ==> incoming[j].Accepted?
      ensures old(quit) || old(quitLockPoisoned) ==> handled == 0
      ensures outcome.StillAccepting? ==> handled == |incoming|
      ensures handledConns == old(handledConns) + ConnsOf(incoming[..handled])
      ensures old(quit) || old(quitLockPoisoned) ==> handledConns == old(handledConns)
      ensures outcome.Returned? && outcome.result.Err? && outcome.result.error.SocketAccept? ==>
                handled < |incoming| && incoming[handled] == AcceptFailed(outcome.result.error.acceptError)
    {
      var i := 0;
      assert incoming[i..] == incoming;
      while true
        invariant 0 <= i <= |incoming|
        invariant Snapshot() == old(Snapshot()) && calls == old(calls)
        invariant forall j :: 0 <= j < i ==> incoming[j].Accepted?
        invariant handledConns == old(handledConns) + ConnsOf(incoming[..i])
        invariant old(quit) || old(quitLockPoisoned) ==> i == 0
        invariant LoopOutcome(quitLockPoisoned, quit, incoming[i..]) == LoopOutcome(old(quitLockPoisoned), old(quit), incoming)
        decreases |incoming| - i
      {
        if quitLockPoisoned {
          return Returned(Err(QuitLock)), i;
        }
        if quit {
          return Returned(Ok(())), i;
        }
        if i == |incoming| {
          return StillAccepting, i;
        }
        match incoming[i]
        case AcceptFailed(e) =>
          return Returned(Err(SocketAccept(e))), i;
        case Accepted(conn) =>
          var handlerResult := HandleNode(conn);
          assert incoming[..i + 1][..i] == incoming[..i];
          assert incoming[i..][1..] == incoming[i + 1..];
          i := i + 1;
      }
    }
  }

  /**
   * `start_server` (lines 23-39): a failed bind is returned at once;
   * otherwise the shared values are created and the accept loop runs. With
   * `decode` as written no handler ever sets `quit`, so the server never
   * returns `Ok(())`: it ends only at the first failed accept.
   */
  method StartServer<S>(server: S, ops: Ops<S>, bind: Option<NcError.IoError>, incoming: seq<Accept>)
    returns (outcome: ServeOutcome)
    ensures bind.Some? ==> outcome == Returned(Err(TcpBind(bind.value)))
    ensures bind.None? ==> outcome == LoopOutcome(false, false, incoming)
    ensures outcome != Returned(Ok(()))
  {
    if bind.Some? {
      return Returned(Err(TcpBind(bind.value)));
    }
    var coordinator := new Coordinator(server, ops);
    ghost var handled;
    outcome, handled := coordinator.AcceptLoop(incoming);
    LoopNeverOkWhileQuitFalse(false, incoming);
  }
}
