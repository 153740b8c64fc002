/**
 The binary pool as a step system: any number of requests share a vector of idle upstream
 connections and a semaphore whose permits live inside the connections. A request can be
 cancelled at any await and every I/O operation can fail; bytes travel in arbitrary chunks.

 Environment: upstream answers each complete request frame it has received on a stream with
 exactly one response frame, in order, whenever it likes; otherwise it may fail at any moment.
 */
module PoolProtocol {
  import opened Prelude
  import opened Framing

  datatype IoErrorKind = UnexpectedEof | ConnectionReset | ConnectionAborted | BrokenPipe | OtherKind

  predicate Retryable(kind: IoErrorKind) {
    kind.UnexpectedEof? || kind.ConnectionReset? || kind.ConnectionAborted? || kind.BrokenPipe?
  }

  datatype Stream = Stream(
    sent: Bytes,              // every byte the proxy has written
    requests: seq<Bytes>,     // history: the payloads of the frames written whole
    authors: seq<nat>,        // history: which request wrote each of them
    partial: Bytes,           // history: the bytes of a frame not written whole
    responses: seq<Bytes>,    // what upstream has decided to answer
    emitted: nat,             // how many bytes of those frames it has sent
    consumed: nat             // how many of them the proxy has read
  )

  const NewStream := Stream([], [], [], [], [], 0, 0)

  datatype Failure = Failure(stream: nat, kind: IoErrorKind)

  datatype Outcome =
    | RateLimited
    | RefusedLocally
    | Failed
    | Replied(stream: nat, slot: nat, response: Bytes)
    | Lost                    // cancelled, or its error reply could not be encoded: counted nowhere

  /** Where one request is; `slot` is the number of whole frames on its stream before its own. */
  datatype Task =
    | Counted(payload: Bytes)
    | Limited(payload: Bytes)
    | Entering(payload: Bytes)
    | Waiting(payload: Bytes)
    | Connecting(payload: Bytes)
    | Writing(payload: Bytes, stream: nat, slot: nat, written: nat, failures: seq<Failure>)
    | Reading(payload: Bytes, stream: nat, slot: nat, got: Bytes, failures: seq<Failure>)
    | Reconnecting(payload: Bytes, stream: nat, failures: seq<Failure>)
    | Answered(payload: Bytes, stream: nat, slot: nat, response: Bytes, failures: seq<Failure>)
    | Returning(payload: Bytes, stream: nat, slot: nat, response: Bytes, failures: seq<Failure>)
    | Finished(payload: Bytes, outcome: Outcome, failures: seq<Failure>)

  predicate HoldsConnection(k: Task) {
    k.Writing? || k.Reading? || k.Reconnecting? || k.Answered? || k.Returning?
  }

  predicate IsConnecting(k: Task) {
    k.Connecting?
  }

  predicate HoldsPermit(k: Task) {
    HoldsConnection(k) || IsConnecting(k)
  }

  /** The attempts of this request that have failed so far. */
  function FailuresOf(k: Task): seq<Failure> {
    if HoldsConnection(k) || k.Finished? then k.failures else []
  }

  predicate InHandling(k: Task) {
    !k.Finished?
  }

  datatype Metrics = Metrics(requests: nat, ok: nat, errors: nat, limited: nat, lost: nat)

  datatype Pool = Pool(
    capacity: nat,
    free: nat,
    idle: seq<nat>,
    tasks: map<nat, Task>,
    streams: seq<Stream>,
    metrics: Metrics
  )

  /** What decoding the request gave. */
  datatype Parse = Malformed | Parsed(isPeers: bool)

  /** Decodable, not too large, and not a request for the peers list. */
  predicate Admissible(parse: Parse, payload: Bytes) {
    parse.Parsed? && |payload| <= MAX_MESSAGE_SIZE_BYTES && !parse.isPeers
  }

  datatype Step =
    | Arrive(who: nat, payload: Bytes)
    | Limit(who: nat)
    | LimitReplied(who: nat)
    | Admit(who: nat, parse: Parse)
    | TakeIdle(who: nat)
    | Acquire(who: nat)
    | ConnectOk(who: nat)
    | ConnectErr(who: nat)
    | Write(who: nat, n: nat)
    | Read(who: nat, n: nat)
    | Fault(who: nat, kind: IoErrorKind)
    | ReconnectOk(who: nat)
    | ReconnectErr(who: nat)
    | Rewrite(who: nat, encodes: bool)
    | Return(who: nat)
    | Cancel(who: nat)
    | Respond(stream: nat, response: Bytes)
    | Emit(stream: nat, n: nat)

  function Initial(maxConnections: nat): Pool {
    var n := Max(maxConnections, 1);
    Pool(n, n, [], map[], [], Metrics(0, 0, 0, 0, 0))
  }

  /** How many more bytes `read_exact` wants: the rest of the prefix, then the rest of the frame. */
  function Wanted(got: Bytes): nat {
    if |got| < LENGTH_BYTES then LENGTH_BYTES - |got|
    else if |got| < FrameLength(got) then FrameLength(got) - |got|
    else 0
  }

  predicate Enabled(s: Pool, step: Step) {
    match step
    case Arrive(t, _) => t !in s.tasks
    case Limit(t) => t in s.tasks && s.tasks[t].Counted?
    case LimitReplied(t) => t in s.tasks && s.tasks[t].Limited?
    case Admit(t, _) => t in s.tasks && s.tasks[t].Counted?
    case TakeIdle(t) => t in s.tasks && s.tasks[t].Entering? && (s.idle != [] ==> s.idle[|s.idle| - 1] < |s.streams|)
    case Acquire(t) => t in s.tasks && s.tasks[t].Waiting? && s.free > 0
    case ConnectOk(t) => t in s.tasks && s.tasks[t].Connecting?
    case ConnectErr(t) => t in s.tasks && s.tasks[t].Connecting?
    case Write(t, n) =>
      && t in s.tasks && s.tasks[t].Writing? && s.tasks[t].stream < |s.streams|
      && 1 <= n && s.tasks[t].written + n <= |Frame(s.tasks[t].payload)|
    case Read(t, n) =>
      && t in s.tasks && s.tasks[t].Reading? && s.tasks[t].stream < |s.streams|
      && var st := s.streams[s.tasks[t].stream];
         1 <= n <= Wanted(s.tasks[t].got) && st.consumed + n <= st.emitted <= |FrameAll(st.responses)|
    case Fault(t, _) => t in s.tasks && (s.tasks[t].Writing? || s.tasks[t].Reading?)
    case ReconnectOk(t) => t in s.tasks && s.tasks[t].Reconnecting?
    case ReconnectErr(t) => t in s.tasks && s.tasks[t].Reconnecting?
    case Rewrite(t, _) => t in s.tasks && s.tasks[t].Answered?
    case Return(t) => t in s.tasks && s.tasks[t].Returning?
    case Cancel(t) => t in s.tasks && !s.tasks[t].Finished?
    case Respond(x, response) =>
      && x < |s.streams| && Fits(response)
      && |s.streams[x].responses| < |Frames(s.streams[x].sent)|
    case Emit(x, n) =>
      && x < |s.streams| && 1 <= n && s.streams[x].emitted + n <= |FrameAll(s.streams[x].responses)|
  }

  function Put(s: Pool, t: nat, k: Task): Pool {
    s.(tasks := s.tasks[t := k])
  }

  /** The request ends with an error after dropping its connection or permit. */
  function DropAndFail(s: Pool, t: nat, k: Task, failures: seq<Failure>): Pool {
    Put(s, t, Finished(k.payload, Failed, failures))
      .(free := s.free + 1, metrics := s.metrics.(errors := s.metrics.errors + 1))
  }

  /** `n` more bytes of the frame go out; after the last of them the request waits for its response. */
  function WriteChunk(t: nat, k: Task, st: Stream, n: nat): (Task, Stream)
    requires k.Writing? && 1 <= n && k.written + n <= |Frame(k.payload)|
  {
    var frame, w := Frame(k.payload), k.written + n;
    var chunk := frame[k.written..w];
    if w < |frame| then
      (k.(written := w), st.(sent := st.sent + chunk, partial := st.partial + chunk))
    else
      (Reading(k.payload, k.stream, k.slot, [], k.failures),
       st.(sent := st.sent + chunk, partial := [],
           requests := st.requests + [k.payload], authors := st.authors + [t]))
  }

  /** What has been read of the response once `n` more bytes have come in. */
  function GotAfter(k: Task, st: Stream, n: nat): Bytes
    requires k.Reading? && st.consumed + n <= |FrameAll(st.responses)|
  {
    k.got + FrameAll(st.responses)[st.consumed..st.consumed + n]
  }

  /** Once the frame is whole the request is answered. */
  function AfterRead(k: Task, got: Bytes): Task
    requires k.Reading?
  {
    if Wanted(got) == 0 then Answered(k.payload, k.stream, k.slot, got[LENGTH_BYTES..], k.failures)
    else k.(got := got)
  }

  function Apply(s: Pool, step: Step): Pool
    requires Enabled(s, step)
  {
    match step
    case Arrive(t, payload) =>
      Put(s, t, Counted(payload)).(metrics := s.metrics.(requests := s.metrics.requests + 1))
    case Limit(t) => Put(s, t, Limited(s.tasks[t].payload))
    case LimitReplied(t) =>
      Put(s, t, Finished(s.tasks[t].payload, RateLimited, []))
        .(metrics := s.metrics.(limited := s.metrics.limited + 1))
    case Admit(t, parse) =>
      var payload := s.tasks[t].payload;
      if Admissible(parse, payload) then Put(s, t, Entering(payload))
      else Put(s, t, Finished(payload, RefusedLocally, []))
             .(metrics := s.metrics.(errors := s.metrics.errors + 1))
    case TakeIdle(t) =>
      if s.idle == [] then Put(s, t, Waiting(s.tasks[t].payload))
      else
        var x := s.idle[|s.idle| - 1];
        Put(s, t, Writing(s.tasks[t].payload, x, |s.streams[x].requests|, 0, []))
          .(idle := s.idle[..|s.idle| - 1])
    case Acquire(t) => Put(s, t, Connecting(s.tasks[t].payload)).(free := s.free - 1)
    case ConnectOk(t) =>
      Put(s, t, Writing(s.tasks[t].payload, |s.streams|, 0, 0, [])).(streams := s.streams + [NewStream])
    case ConnectErr(t) => DropAndFail(s, t, s.tasks[t], [])
    case Write(t, n) =>
      var k := s.tasks[t];
      var (k', st) := WriteChunk(t, k, s.streams[k.stream], n);
      Put(s, t, k').(streams := s.streams[k.stream := st])
    case Read(t, n) =>
      var k := s.tasks[t];
      var st := s.streams[k.stream];
      Put(s, t, AfterRead(k, GotAfter(k, st, n)))
        .(streams := s.streams[k.stream := st.(consumed := st.consumed + n)])
    case Fault(t, kind) =>
      var k := s.tasks[t];
      var failures := k.failures + [Failure(k.stream, kind)];
      if k.failures == [] && Retryable(kind) then Put(s, t, Reconnecting(k.payload, k.stream, failures))
      else DropAndFail(s, t, k, failures)
    case ReconnectOk(t) =>
      Put(s, t, Writing(s.tasks[t].payload, |s.streams|, 0, 0, s.tasks[t].failures))
        .(streams := s.streams + [NewStream])
    case ReconnectErr(t) => DropAndFail(s, t, s.tasks[t], s.tasks[t].failures)
    case Rewrite(t, encodes) =>
      var k := s.tasks[t];
      if encodes then Put(s, t, Returning(k.payload, k.stream, k.slot, k.response, k.failures))
      else Put(s, t, Finished(k.payload, Lost, k.failures))
             .(free := s.free + 1, metrics := s.metrics.(lost := s.metrics.lost + 1))
    case Return(t) =>
      var k := s.tasks[t];
      Put(s, t, Finished(k.payload, Replied(k.stream, k.slot, k.response), k.failures))
        .(idle := s.idle + [k.stream], metrics := s.metrics.(ok := s.metrics.ok + 1))
    case Cancel(t) =>
      var k := s.tasks[t];
      Put(s, t, Finished(k.payload, Lost, FailuresOf(k)))
        .(free := s.free + (if HoldsPermit(k) then 1 else 0), metrics := s.metrics.(lost := s.metrics.lost + 1))
    case Respond(x, response) =>
      var st := s.streams[x];
      s.(streams := s.streams[x := st.(responses := st.responses + [response])])
    case Emit(x, n) =>
      var st := s.streams[x];
      s.(streams := s.streams[x := st.(emitted := st.emitted + n)])
  }

  ghost predicate Runs(s: Pool, steps: seq<Step>, t: Pool)
    decreases |steps|
  {
    if steps == [] then s == t
    else Enabled(s, steps[0]) && Runs(Apply(s, steps[0]), steps[1..], t)
  }

  /** Runs can be put end to end. */
  lemma {:induction false} RunsThen(s: Pool, steps: seq<Step>, t: Pool, more: seq<Step>, u: Pool)
    requires Runs(s, steps, t) && Runs(t, more, u)
    ensures Runs(s, steps + more, u)
    decreases |steps|
  {
    if steps == [] {
      assert steps + more == more;
    } else {
      assert (steps + more)[1..] == steps[1..] + more;
      RunsThen(Apply(s, steps[0]), steps[1..], t, more, u);
    }
  }

  lemma {:induction false} RunsOne(s: Pool, step: Step, t: Pool)
    requires Enabled(s, step) && t == Apply(s, step)
    ensures Runs(s, [step], t)
  {
  }

  lemma {:induction false} RunsTwo(s: Pool, first: Step, t: Pool, second: Step, u: Pool)
    requires Enabled(s, first) && t == Apply(s, first) && Enabled(t, second) && u == Apply(t, second)
    ensures Runs(s, [first, second], u)
  {
  }
}
