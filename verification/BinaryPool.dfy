/**
 The binary pool object: `send` and its helpers as the sequential code each request runs, over the
 pool's shared fields. At every await anything else may happen first, as `world` decides: other requests
 and upstream take any number of steps, this request is cancelled, its I/O fails. The trace field records
 the protocol steps performed, by this request and by everyone else, so `Valid` says that the object is a
 run of the protocol and every theorem about runs is a theorem about the object.
 */
module BinaryPoolObject {
  import opened Prelude
  import opened Framing
  import opened PoolProtocol
  import opened PoolAccounting
  import opened PoolOwnership
  import opened PoolPairing
  import Codecs = Rewrite
  import opened RewriteTheorems

  datatype BinaryError = Io(kind: IoErrorKind) | RequestTooLarge(allowed: nat, got: nat) | ResponseEncoding

  datatype RequestParseError = UnsupportedVersion | InvalidRequest

  function ErrorCodeOf(error: RequestParseError): Codecs.ErrorCode {
    if error.UnsupportedVersion? then Codecs.UnsupportedRequest else Codecs.BadRequest
  }

  /**
   What comes to pass while a request is suspended: what the others do, whether the request is cancelled,
   and whether its I/O fails; if not, how many bytes the socket takes or gives.
   */
  datatype Happening = Happening(steps: seq<Step>, cancelled: bool, failure: Option<IoErrorKind>, chunk: nat)

  /** At least one byte, at most `most`. */
  function ChunkOf(h: Happening, most: nat): (n: nat)
    requires most >= 1
    ensures 1 <= n <= most
  {
    if h.chunk == 0 then 1 else if h.chunk > most then most else h.chunk
  }

  /** A step somebody other than request `t` takes. */
  predicate Foreign(t: nat, step: Step) {
    step.Respond? || step.Emit? || step.who != t
  }

  lemma {:induction false} ForeignKeeps(s: Pool, step: Step, t: nat)
    requires Enabled(s, step) && Foreign(t, step) && t in s.tasks
    ensures t in Apply(s, step).tasks && Apply(s, step).tasks[t] == s.tasks[t]
  {
  }

  lemma {:induction false} RunsSnoc(start: Pool, trace: seq<Step>, s: Pool, step: Step)
    requires Runs(start, trace, s) && Enabled(s, step)
    ensures Runs(start, trace + [step], Apply(s, step))
  {
    RunsOne(s, step, Apply(s, step));
    RunsThen(start, trace, s, [step], Apply(s, step));
  }

  /** What a request may rely on while it holds a connection, whatever the others have done. */
  lemma {:induction false} HolderMayRely(maxConnections: nat, trace: seq<Step>, s: Pool, t: nat)
    requires Runs(Initial(maxConnections), trace, s)
    requires t in s.tasks && HoldsConnection(s.tasks[t])
    ensures s.tasks[t].stream < |s.streams|
    ensures var st := s.streams[s.tasks[t].stream]; st.consumed <= st.emitted <= |FrameAll(st.responses)|
  {
    AlignedHolds(Initial(maxConnections), trace, s);
    assert TaskInv(t, s.tasks[t], s.streams);
  }

  /** Giving up is one step of the protocol, whatever the request was doing. */
  lemma {:induction false} FailureIsAStep(s: Pool, t: nat, kind: IoErrorKind) returns (step: Step)
    requires t in s.tasks && (s.tasks[t].Connecting? || GivesUp(s.tasks[t], kind))
    ensures Enabled(s, step)
    ensures var k := s.tasks[t];
            Apply(s, step) == DropAndFail(s, t, k,
              if k.Writing? || k.Reading? then k.failures + [Failure(k.stream, kind)] else FailuresOf(k))
  {
    var k := s.tasks[t];
    step := if k.Connecting? then ConnectErr(t) else if k.Reconnecting? then ReconnectErr(t) else Fault(t, kind);
  }

  /** The response a request holds answers its own frame. */
  lemma {:induction false} AnswerIsOwn(maxConnections: nat, trace: seq<Step>, s: Pool, t: nat)
    requires Runs(Initial(maxConnections), trace, s) && t in s.tasks && s.tasks[t].Answered?
    ensures var k := s.tasks[t];
            && k.stream < |s.streams| && Own(t, k.payload, k.slot, s.streams[k.stream])
            && k.slot < |s.streams[k.stream].responses| && s.streams[k.stream].responses[k.slot] == k.response
  {
    AlignedHolds(Initial(maxConnections), trace, s);
    assert TaskInv(t, s.tasks[t], s.streams);
  }

  lemma {:induction false} LastIdleExists(maxConnections: nat, trace: seq<Step>, s: Pool)
    requires Runs(Initial(maxConnections), trace, s) && s.idle != []
    ensures s.idle[|s.idle| - 1] < |s.streams|
  {
    ExclusiveHolds(Initial(maxConnections), trace, s);
  }

  /** The request was cancelled, or waits for a permit or for bytes that are not there. */
  predicate NoAnswer(s: Pool, t: nat) {
    t in s.tasks &&
    match s.tasks[t]
    case Finished(_, outcome, _) => outcome == Lost
    case Waiting(_) => s.free == 0
    case Reading(_, x, _, _, _) => x < |s.streams| && s.streams[x].emitted == s.streams[x].consumed
    case _ => false
  }

  /** Nothing has been written yet, after these failures. */
  predicate Unwritten(k: Task, failures: seq<Failure>) {
    k.Writing? && k.written == 0 && k.failures == failures
  }

  /** In the middle of an exchange with upstream, nothing of the response read yet. */
  predicate InExchange(k: Task) {
    (k.Writing? && k.written < |Frame(k.payload)|) || (k.Reading? && k.got == [])
  }

  function HasWritten(k: Task): nat
    requires InExchange(k)
  {
    if k.Writing? then k.written else |Frame(k.payload)|
  }

  /** Still the same attempt of the same request on the same stream. */
  predicate SameAttempt(k: Task, k': Task)
    requires k.Writing? || k.Reading?
  {
    && k'.payload == k.payload
    && (k'.Writing? || k'.Reading? || k'.Answered?)
    && k'.stream == k.stream && k'.slot == k.slot && k'.failures == k.failures
  }

  lemma {:induction false} WantedShrinks(got: Bytes, more: Bytes)
    ensures |more| < Wanted(got) ==> Wanted(got + more) == Wanted(got) - |more|
  {
    if |got| >= LENGTH_BYTES {
      assert (got + more)[..LENGTH_BYTES] == got[..LENGTH_BYTES];
    }
  }

  /** A failure there is no second attempt for: already the second, not retryable, or of reconnecting. */
  predicate GivesUp(k: Task, kind: IoErrorKind) {
    k.Reconnecting? || ((k.Writing? || k.Reading?) && (k.failures != [] || !Retryable(kind)))
  }

  function ErrorReply<V, S>(c: Codecs.Codecs<V, S>, code: Codecs.ErrorCode, request: Bytes): Result<Bytes, BinaryError> {
    match Codecs.BuildErrorResponse(c, code, request)
    case Ok(bytes) => Ok(bytes)
    case Err(_) => Err(ResponseEncoding)
  }

  /** How an admitted request ended, and what its caller was told. */
  predicate ForwardedAs<V, S>(c: Codecs.Codecs<V, S>, k: Task, r: Result<Bytes, BinaryError>) {
    k.Finished? &&
    match r
    case Ok(reply) => k.outcome.Replied? && Codecs.Forwarded(c, k.payload, k.outcome.response) == Ok(reply)
    case Err(Io(_)) => k.outcome.Failed?
    case Err(ResponseEncoding) => k.outcome.Lost?
    case Err(RequestTooLarge(_, _)) => false
  }

  /** Turned away, and told so: the error with this code and the request echoed, if that can be encoded. */
  predicate RefusedWith<V, S>(c: Codecs.Codecs<V, S>, code: Codecs.ErrorCode, k: Task, r: Result<Bytes, BinaryError>) {
    && k.Finished? && k.outcome.RefusedLocally?
    && match c.withRequest.encode((Codecs.Response(code, None, []), k.payload))
       case Some(bytes) => r == Ok(bytes)
       case None => r == Err(ResponseEncoding)
  }

  predicate Explained<V, S>(
    c: Codecs.Codecs<V, S>, parse: Result<bool, RequestParseError>, k: Task, r: Result<Bytes, BinaryError>)
  {
    if parse == Err(UnsupportedVersion) then RefusedWith(c, Codecs.UnsupportedRequest, k, r)
    else if parse == Err(InvalidRequest) then RefusedWith(c, Codecs.BadRequest, k, r)
    else if |k.payload| > 4 * 1024 * 1024 then
      k.Finished? && k.outcome.RefusedLocally? && r == Err(RequestTooLarge(4 * 1024 * 1024, |k.payload|))
    else if parse == Ok(true) then RefusedWith(c, Codecs.FunctionDisabled, k, r)
    else ForwardedAs(c, k, r)
  }

  class BinaryPool<V(!new), S(!new)> {
    const maxConnections: nat
    const codecs: Codecs.Codecs<V, S>
    const world: nat -> Happening
    var clock: nat
    var free: nat
    var idle: seq<nat>
    var streams: seq<Stream>
    var tasks: map<nat, Task>
    var metrics: Metrics
    ghost var trace: seq<Step>

    function State(): Pool
      reads this
    {
      Pool(Max(maxConnections, 1), free, idle, tasks, streams, metrics)
    }

    ghost predicate Valid()
      reads this
    {
      Runs(Initial(maxConnections), trace, State())
    }

    /** The world cancelled something in this stretch of time... */
    ghost predicate Cancelled(from: nat, to: nat) {
      exists i: nat :: from <= i < to && world(i).cancelled
    }

    /** ... or made I/O fail in this way. */
    ghost predicate Failing(from: nat, to: nat, kind: IoErrorKind) {
      exists i: nat :: from <= i < to && world(i).failure == Some(kind)
    }

    /** The request was cancelled by the world since `from`, or waits for a permit or bytes that are not there. */
    ghost predicate Suspended(t: nat, from: nat)
      reads this
    {
      NoAnswer(State(), t) && (tasks[t].Finished? ==> Cancelled(from, clock))
    }

    constructor (maxConnections: nat, codecs: Codecs.Codecs<V, S>, world: nat -> Happening)
      ensures Valid() && trace == [] && State() == Initial(maxConnections) && free == Max(maxConnections, 1)
      ensures this.maxConnections == maxConnections && this.codecs == codecs && this.world == world && clock == 0
    {
      this.maxConnections := maxConnections;
      this.codecs := codecs;
      this.world := world;
      clock := 0;
      free := Max(maxConnections, 1);
      idle, streams, tasks, metrics, trace := [], [], map[], Metrics(0, 0, 0, 0, 0), [];
    }

    /** One protocol step, by anybody. */
    method Perform(step: Step)
      requires Valid() && Enabled(State(), step)
      modifies this
      ensures Valid() && clock == old(clock) && trace == old(trace) + [step] && State() == Apply(old(State()), step)
    {
      RunsSnoc(Initial(maxConnections), trace, State(), step);
      var s := Apply(State(), step);
      assert s.capacity == Max(maxConnections, 1) by {
        OneTaskChanges(State(), step);
      }
      free, idle, streams, tasks, metrics := s.free, s.idle, s.streams, s.tasks, s.metrics;
      trace := trace + [step];
    }

    /** Everything that happens while request `t` is suspended. */
    method Await(t: nat) returns (h: Happening)
      requires Valid() && t in tasks && !tasks[t].Finished?
      modifies this
      ensures Valid() && old(trace) <= trace && t in tasks
      ensures h == world(old(clock)) && clock == old(clock) + 1
      ensures !h.cancelled ==> tasks[t] == old(tasks[t])
      ensures h.cancelled ==> tasks[t].payload == old(tasks[t].payload) && tasks[t].Finished? && Suspended(t, old(clock))
    {
      h := world(clock);
      var i: nat := 0;
      while i < |h.steps|
        invariant i <= |h.steps| && clock == old(clock)
        invariant Valid() && old(trace) <= trace && t in tasks && tasks[t] == old(tasks[t])
      {
        if Enabled(State(), h.steps[i]) && Foreign(t, h.steps[i]) {
          ForeignKeeps(State(), h.steps[i], t);
          Perform(h.steps[i]);
        }
        i := i + 1;
      }
      if h.cancelled {
        Perform(Cancel(t));
      }
      clock := clock + 1;
    }

    /** Everything that happens while nothing is asked of the pool. */
    method Meanwhile()
      requires Valid()
      modifies this
      ensures Valid() && old(trace) <= trace && clock == old(clock) + 1
    {
      var h := world(clock);
      var i: nat := 0;
      while i < |h.steps|
        invariant i <= |h.steps| && Valid() && old(trace) <= trace && clock == old(clock)
      {
        if Enabled(State(), h.steps[i]) {
          Perform(h.steps[i]);
        }
        i := i + 1;
      }
      clock := clock + 1;
    }

    /**
     A pooled connection if there is one; otherwise a permit, then a new connection. On failure the
     permit is still counted as held: the caller drops it before anything else can run.
     */
    method GetConnection(t: nat) returns (r: Option<Result<nat, IoErrorKind>>)
      requires Valid() && t in tasks && tasks[t].Entering?
      modifies this
      ensures Valid() && old(trace) <= trace && t in tasks && tasks[t].payload == old(tasks[t].payload)
      ensures old(clock) <= clock && (r.None? ==> Suspended(t, old(clock)))
      ensures r.Some? && r.value.Ok? ==> tasks[t].Writing? && tasks[t].stream == r.value.value && Unwritten(tasks[t], [])
      ensures r.Some? && r.value.Err? ==> tasks[t].Connecting? && Failing(old(clock), clock, r.value.error)
    {
      r := None;
      var h := Await(t);
      if h.cancelled {
        return;
      }
      if |idle| > 0 {
        var x := Pop(t);
        return Some(Ok(x));
      }
      Queue(t);
      h := Await(t);
      if h.cancelled || free == 0 {
        return;
      }
      AcquirePermit(t);
      r := Connect(t);
    }

    /** The connection put back last is taken, permit and all. */
    method Pop(t: nat) returns (x: nat)
      requires Valid() && t in tasks && tasks[t].Entering? && |idle| > 0
      modifies this
      ensures Valid() && clock == old(clock) && old(trace) <= trace && t in tasks && tasks[t].payload == old(tasks[t].payload)
      ensures tasks[t].Writing? && tasks[t].stream == x && Unwritten(tasks[t], [])
      ensures old(idle) == idle + [x] && free == old(free)
    {
      ghost var s := State();
      LastIdleExists(maxConnections, trace, s);
      x := idle[|idle| - 1];
      idle := idle[..|idle| - 1];
      tasks := tasks[t := Writing(tasks[t].payload, x, |streams[x].requests|, 0, [])];
      RunsSnoc(Initial(maxConnections), trace, s, TakeIdle(t));
      trace := trace + [TakeIdle(t)];
    }

    /** The pool is empty: the request queues for a permit. */
    method Queue(t: nat)
      requires Valid() && t in tasks && tasks[t].Entering? && idle == []
      modifies this
      ensures Valid() && clock == old(clock) && old(trace) <= trace && tasks == old(tasks)[t := Waiting(old(tasks[t].payload))]
    {
      ghost var s := State();
      tasks := tasks[t := Waiting(tasks[t].payload)];
      RunsSnoc(Initial(maxConnections), trace, s, TakeIdle(t));
      trace := trace + [TakeIdle(t)];
    }

    /** The queue for permits has reached this request. */
    method AcquirePermit(t: nat)
      requires Valid() && t in tasks && tasks[t].Waiting? && free > 0
      modifies this
      ensures Valid() && clock == old(clock) && old(trace) <= trace
      ensures free == old(free) - 1 && tasks == old(tasks)[t := Connecting(old(tasks[t].payload))]
    {
      ghost var s := State();
      free := free - 1;
      tasks := tasks[t := Connecting(tasks[t].payload)];
      RunsSnoc(Initial(maxConnections), trace, s, Acquire(t));
      trace := trace + [Acquire(t)];
    }

    /** `TcpStream::connect`, with a permit in hand. */
    method Connect(t: nat) returns (r: Option<Result<nat, IoErrorKind>>)
      requires Valid() && t in tasks && tasks[t].Connecting?
      modifies this
      ensures Valid() && old(trace) <= trace && t in tasks && tasks[t].payload == old(tasks[t].payload)
      ensures old(clock) <= clock && (r.None? ==> Suspended(t, old(clock)))
      ensures r.Some? && r.value.Ok? ==> tasks[t].Writing? && tasks[t].stream == r.value.value && Unwritten(tasks[t], [])
      ensures r.Some? && r.value.Err? ==> tasks[t].Connecting? && Failing(old(clock), clock, r.value.error)
    {
      var h := Await(t);
      if h.cancelled {
        return None;
      }
      if h.failure.Some? {
        return Some(Err(h.failure.value));
      }
      ghost var s := State();
      var x := |streams|;
      streams := streams + [NewStream];
      tasks := tasks[t := Writing(tasks[t].payload, x, 0, 0, [])];
      RunsSnoc(Initial(maxConnections), trace, s, ConnectOk(t));
      trace := trace + [ConnectOk(t)];
      r := Some(Ok(x));
    }

    /** The connection goes back, permit and all, and the request is counted as answered. */
    method ReturnConnection(t: nat) returns (done: bool)
      requires Valid() && t in tasks && tasks[t].Returning?
      modifies this
      ensures Valid() && old(trace) <= trace && t in tasks && old(clock) <= clock
      ensures done ==>
                var k := old(tasks[t]);
                && tasks[t] == Finished(k.payload, Replied(k.stream, k.slot, k.response), k.failures)
                && idle != [] && idle[|idle| - 1] == k.stream && metrics.ok > 0
      ensures !done ==> tasks[t].payload == old(tasks[t].payload) && Suspended(t, old(clock)) && tasks[t].Finished?
    {
      var k := tasks[t];
      var h := Await(t);
      done := !h.cancelled;
      if done {
        ghost var s := State();
        idle := idle + [k.stream];
        metrics := metrics.(ok := metrics.ok + 1);
        tasks := tasks[t := Finished(k.payload, Replied(k.stream, k.slot, k.response), k.failures)];
        RunsSnoc(Initial(maxConnections), trace, s, Return(t));
        trace := trace + [Return(t)];
      }
    }

    /** `write_all`, up to byte `end` of the frame, in chunks of any size. */
    method WriteAll(t: nat, end: nat) returns (r: Option<Result<(), IoErrorKind>>)
      requires Valid() && t in tasks && InExchange(tasks[t])
      requires HasWritten(tasks[t]) <= end <= |Frame(tasks[t].payload)|
      modifies this
      ensures Valid() && old(trace) <= trace && t in tasks && tasks[t].payload == old(tasks[t].payload)
      ensures old(clock) <= clock && (r.None? ==> Suspended(t, old(clock)))
      ensures r.Some? ==> InExchange(tasks[t]) && SameAttempt(old(tasks[t]), tasks[t])
      ensures r.Some? && r.value.Ok? ==> HasWritten(tasks[t]) == end
      ensures r.Some? && r.value.Err? ==> Failing(old(clock), clock, r.value.error)
    {
      ghost var first := tasks[t];
      while HasWritten(tasks[t]) < end
        invariant Valid() && old(trace) <= trace && t in tasks
        invariant InExchange(tasks[t]) && SameAttempt(first, tasks[t]) && HasWritten(tasks[t]) <= end
        invariant old(clock) <= clock
        decreases end - HasWritten(tasks[t])
      {
        var h := Await(t);
        if h.cancelled {
          return None;
        }
        if h.failure.Some? {
          return Some(Err(h.failure.value));
        }
        WriteSome(t, ChunkOf(h, end - HasWritten(tasks[t])));
      }
      r := Some(Ok(()));
    }

    /** The socket takes `n` more bytes of the frame. */
    method WriteSome(t: nat, n: nat)
      requires Valid() && t in tasks && tasks[t].Writing?
      requires 1 <= n && tasks[t].written + n <= |Frame(tasks[t].payload)|
      modifies this
      ensures Valid() && clock == old(clock) && old(trace) <= trace && t in tasks
      ensures InExchange(tasks[t]) && SameAttempt(old(tasks[t]), tasks[t])
      ensures HasWritten(tasks[t]) == old(HasWritten(tasks[t])) + n
      ensures tasks[t].stream < |streams| && tasks[t].stream < |old(streams)|
      ensures streams[tasks[t].stream].sent ==
              old(streams[tasks[t].stream].sent) + Frame(tasks[t].payload)[old(HasWritten(tasks[t]))..HasWritten(tasks[t])]
    {
      ghost var s := State();
      HolderMayRely(maxConnections, trace, s, t);
      var x := tasks[t].stream;
      var (k, st) := WriteChunk(t, tasks[t], streams[x], n);
      streams := streams[x := st];
      tasks := tasks[t := k];
      RunsSnoc(Initial(maxConnections), trace, s, Write(t, n));
      trace := trace + [Write(t, n)];
    }

    /** `read_exact`, until `end` bytes of the response frame are there. */
    method ReadExact(t: nat, end: nat) returns (r: Option<Result<Bytes, IoErrorKind>>)
      requires Valid() && t in tasks && tasks[t].Reading? && |tasks[t].got| < end == |tasks[t].got| + Wanted(tasks[t].got)
      modifies this
      ensures Valid() && old(trace) <= trace && t in tasks && tasks[t].payload == old(tasks[t].payload)
      ensures old(clock) <= clock && (r.None? ==> Suspended(t, old(clock)))
      ensures r.Some? ==> SameAttempt(old(tasks[t]), tasks[t])
      ensures r.Some? && r.value.Err? ==> tasks[t].Reading? && Failing(old(clock), clock, r.value.error)
      ensures r.Some? && r.value.Ok? ==>
                && |r.value.value| == end && old(tasks[t].got) <= r.value.value
                && tasks[t] == AfterRead(old(tasks[t]), r.value.value)
    {
      ghost var first := tasks[t];
      var got := tasks[t].got;
      while |got| < end
        invariant Valid() && old(trace) <= trace && t in tasks
        invariant |got| < end ==> end == |got| + Wanted(got)
        invariant |got| <= end && first.got <= got && tasks[t] == AfterRead(first, got)
        invariant old(clock) <= clock
      {
        var h := Await(t);
        if h.cancelled {
          return None;
        }
        if h.failure.Some? {
          return Some(Err(h.failure.value));
        }
        HolderMayRely(maxConnections, trace, State(), t);
        var st := streams[tasks[t].stream];
        if st.emitted == st.consumed {
          return None;
        }
        var there: nat := st.emitted - st.consumed;
        got := ReadSome(t, ChunkOf(h, if there < end - |got| then there else end - |got|));
      }
      r := Some(Ok(got));
    }

    /** The socket has `n` more bytes of the response. */
    method ReadSome(t: nat, n: nat) returns (got: Bytes)
      requires Valid() && t in tasks && tasks[t].Reading?
      requires tasks[t].stream < |streams|
      requires var st := streams[tasks[t].stream];
               1 <= n <= Wanted(tasks[t].got) && st.consumed + n <= st.emitted <= |FrameAll(st.responses)|
      modifies this
      ensures Valid() && clock == old(clock) && old(trace) <= trace && t in tasks
      ensures |got| == |old(tasks[t].got)| + n && old(tasks[t].got) <= got && tasks[t] == AfterRead(old(tasks[t]), got)
      ensures n < Wanted(old(tasks[t].got)) ==> Wanted(got) == Wanted(old(tasks[t].got)) - n
    {
      ghost var s := State();
      var x := tasks[t].stream;
      var st := streams[x];
      got := GotAfter(tasks[t], st, n);
      var more := FrameAll(st.responses)[st.consumed..st.consumed + n];
      assert got == tasks[t].got + more;
      WantedShrinks(tasks[t].got, more);
      streams := streams[x := st.(consumed := st.consumed + n)];
      tasks := tasks[t := AfterRead(tasks[t], got)];
      RunsSnoc(Initial(maxConnections), trace, s, Read(t, n));
      trace := trace + [Read(t, n)];
    }

    /** The frame goes out, the length comes back, and then that many bytes. */
    method SendAndReceive(t: nat) returns (r: Option<Result<Bytes, IoErrorKind>>)
      requires Valid() && t in tasks && tasks[t].Writing? && tasks[t].written == 0
      modifies this
      ensures Valid() && old(trace) <= trace && t in tasks && tasks[t].payload == old(tasks[t].payload)
      ensures old(clock) <= clock && (r.None? ==> Suspended(t, old(clock)))
      ensures r.Some? ==> SameAttempt(old(tasks[t]), tasks[t])
      ensures r.Some? && r.value.Ok? ==> tasks[t].Answered? && tasks[t].response == r.value.value
      ensures r.Some? && r.value.Err? ==> (tasks[t].Writing? || tasks[t].Reading?) && Failing(old(clock), clock, r.value.error)
    {
      var sent := WriteAll(t, LENGTH_BYTES);
      if sent.Some? && sent.value.Ok? {
        sent := WriteAll(t, |Frame(tasks[t].payload)|);
      }
      if sent.None? {
        return None;
      }
      if sent.value.Err? {
        return Some(Err(sent.value.error));
      }
      r := Receive(t);
    }

    /** The length prefix, and then as many bytes as it says. */
    method Receive(t: nat) returns (r: Option<Result<Bytes, IoErrorKind>>)
      requires Valid() && t in tasks && tasks[t].Reading? && tasks[t].got == []
      modifies this
      ensures Valid() && old(trace) <= trace && t in tasks && tasks[t].payload == old(tasks[t].payload)
      ensures old(clock) <= clock && (r.None? ==> Suspended(t, old(clock)))
      ensures r.Some? ==> SameAttempt(old(tasks[t]), tasks[t])
      ensures r.Some? && r.value.Ok? ==> tasks[t].Answered? && tasks[t].response == r.value.value
      ensures r.Some? && r.value.Err? ==> tasks[t].Reading? && Failing(old(clock), clock, r.value.error)
    {
      r := ReadExact(t, LENGTH_BYTES);
      if r.None? || r.value.Err? {
        return;
      }
      var prefix := r.value.value;
      var length := FromLittleEndian(prefix);
      Whole(prefix);
      assert FrameLength(prefix) == LENGTH_BYTES + length;
      if length > 0 {
        r := ReadExact(t, LENGTH_BYTES + length);
        if r.None? || r.value.Err? {
          return;
        }
        assert r.value.value[..LENGTH_BYTES] == prefix;
      }
      r := Some(Ok(r.value.value[LENGTH_BYTES..]));
    }

    /** A new stream in place of the failed one, under the same permit. */
    method Reconnect(t: nat) returns (r: Option<Result<(), IoErrorKind>>)
      requires Valid() && t in tasks && tasks[t].Reconnecting?
      modifies this
      ensures Valid() && old(trace) <= trace && t in tasks && tasks[t].payload == old(tasks[t].payload)
      ensures old(clock) <= clock && (r.None? ==> Suspended(t, old(clock)))
      ensures r.Some? && r.value.Ok? ==> Unwritten(tasks[t], old(tasks[t].failures))
      ensures r.Some? && r.value.Err? ==> tasks[t] == old(tasks[t]) && Failing(old(clock), clock, r.value.error)
    {
      var h := Await(t);
      if h.cancelled {
        return None;
      }
      if h.failure.Some? {
        return Some(Err(h.failure.value));
      }
      ghost var s := State();
      var k := tasks[t];
      tasks := tasks[t := Writing(k.payload, |streams|, 0, 0, k.failures)];
      streams := streams + [NewStream];
      RunsSnoc(Initial(maxConnections), trace, s, ReconnectOk(t));
      trace := trace + [ReconnectOk(t)];
      r := Some(Ok(()));
    }

    /** A retryable failure of the first attempt: the connection is kept for reconnecting. */
    method Retry(t: nat, kind: IoErrorKind)
      requires Valid() && t in tasks && (tasks[t].Writing? || tasks[t].Reading?)
      requires tasks[t].failures == [] && Retryable(kind)
      modifies this
      ensures Valid() && clock == old(clock) && old(trace) <= trace && t in tasks && tasks[t].Reconnecting?
      ensures tasks[t].payload == old(tasks[t].payload) && tasks[t].failures == [Failure(old(tasks[t].stream), kind)]
    {
      ghost var s := State();
      var k := tasks[t];
      tasks := tasks[t := Reconnecting(k.payload, k.stream, [Failure(k.stream, kind)])];
      assert k.failures + [Failure(k.stream, kind)] == [Failure(k.stream, kind)];
      RunsSnoc(Initial(maxConnections), trace, s, Fault(t, kind));
      trace := trace + [Fault(t, kind)];
    }

    /** The request ends in an error: what it holds is dropped and its permit released. */
    method Fail(t: nat, kind: IoErrorKind)
      requires Valid() && t in tasks && (tasks[t].Connecting? || GivesUp(tasks[t], kind))
      modifies this
      ensures Valid() && clock == old(clock) && old(trace) <= trace && t in tasks
      ensures tasks[t].Finished? && tasks[t].payload == old(tasks[t].payload) && tasks[t].outcome == Failed
      ensures free == old(free) + 1 && idle == old(idle) && metrics == old(metrics).(errors := old(metrics).errors + 1)
    {
      ghost var s := State();
      var k := tasks[t];
      ghost var step := FailureIsAStep(s, t, kind);
      var failures := if k.Writing? || k.Reading? then k.failures + [Failure(k.stream, kind)] else FailuresOf(k);
      free := free + 1;
      metrics := metrics.(errors := metrics.errors + 1);
      tasks := tasks[t := Finished(k.payload, Failed, failures)];
      assert State() == DropAndFail(s, t, k, failures);
      RunsSnoc(Initial(maxConnections), trace, s, step);
      trace := trace + [step];
    }

    /** One attempt, and a second on a new stream if the first failed in one of the four retryable ways. */
    method Exchange(t: nat) returns (r: Option<Result<Bytes, IoErrorKind>>)
      requires Valid() && t in tasks && Unwritten(tasks[t], [])
      modifies this
      ensures Valid() && old(trace) <= trace && t in tasks && tasks[t].payload == old(tasks[t].payload)
      ensures old(clock) <= clock && (r.None? ==> Suspended(t, old(clock)))
      ensures r.Some? && r.value.Ok? ==> tasks[t].Answered? && tasks[t].response == r.value.value
      ensures r.Some? && r.value.Err? ==> GivesUp(tasks[t], r.value.error) && Failing(old(clock), clock, r.value.error)
    {
      r := SendAndReceive(t);
      if r.Some? && r.value.Err? && Retryable(r.value.error) {
        Retry(t, r.value.error);
        var again := Reconnect(t);
        if again.None? {
          return None;
        }
        match again.value {
          case Ok(_) => r := SendAndReceive(t);
          case Err(kind) => r := Some(Err(kind));
        }
      }
    }

    /** Not even an error reply can be encoded: the connection is dropped and no outcome counted. */
    method Lose(t: nat)
      requires Valid() && t in tasks && tasks[t].Answered?
      modifies this
      ensures Valid() && clock == old(clock) && old(trace) <= trace && t in tasks
      ensures tasks[t] == Finished(old(tasks[t].payload), Lost, old(tasks[t].failures)) && streams == old(streams)
    {
      ghost var s := State();
      free := free + 1;
      metrics := metrics.(lost := metrics.lost + 1);
      tasks := tasks[t := Finished(tasks[t].payload, Lost, tasks[t].failures)];
      RunsSnoc(Initial(maxConnections), trace, s, Step.Rewrite(t, false));
      trace := trace + [Step.Rewrite(t, false)];
    }

    /** There is something to reply: the connection is on its way back. */
    method Keep(t: nat)
      requires Valid() && t in tasks && tasks[t].Answered?
      modifies this
      ensures Valid() && clock == old(clock) && old(trace) <= trace && t in tasks
      ensures var k := old(tasks[t]); tasks[t] == Returning(k.payload, k.stream, k.slot, k.response, k.failures)
    {
      ghost var s := State();
      var k := tasks[t];
      tasks := tasks[t := Returning(k.payload, k.stream, k.slot, k.response, k.failures)];
      RunsSnoc(Initial(maxConnections), trace, s, Step.Rewrite(t, true));
      trace := trace + [Step.Rewrite(t, true)];
    }

    /** Upstream answered this request, but neither the rewritten answer nor an error reply can be encoded. */
    ghost predicate Unanswerable(t: nat)
      requires t in tasks
      reads this
    {
      exists x: nat, slot: nat ::
        && x < |streams| && Own(t, tasks[t].payload, slot, streams[x]) && slot < |streams[x].responses|
        && Codecs.Forwarded(codecs, tasks[t].payload, streams[x].responses[slot]).Err?
    }

    /** What the caller of an admitted request is told, and why. */
    ghost predicate Told(t: nat, from: nat, r: Option<Result<Bytes, BinaryError>>)
      requires t in tasks
      reads this
    {
      match r
      case None => Suspended(t, from)
      case Some(told) =>
        && ForwardedAs(codecs, tasks[t], told)
        && (told.Err? && told.error.Io? ==> Failing(from, clock, told.error.kind))
        && (told == Err(ResponseEncoding) ==> Unanswerable(t))
    }

    /** The response is rewritten, or replaced by an error; then the connection goes back. */
    method Reply(t: nat) returns (r: Option<Result<Bytes, BinaryError>>)
      requires Valid() && t in tasks && tasks[t].Answered?
      modifies this
      ensures Valid() && old(trace) <= trace && t in tasks && tasks[t].payload == old(tasks[t].payload)
      ensures old(clock) <= clock && Told(t, old(clock), r)
      ensures r.Some? && r.value.Ok? ==>
                var k := old(tasks[t]); tasks[t] == Finished(k.payload, Replied(k.stream, k.slot, k.response), k.failures)
      ensures r.Some? && r.value.Err? ==> Codecs.Forwarded(codecs, old(tasks[t].payload), old(tasks[t].response)).Err?
    {
      var k := tasks[t];
      var reply := Codecs.Forwarded(codecs, k.payload, k.response);
      if reply.Err? {
        AnswerIsOwn(maxConnections, trace, State(), t);
        Lose(t);
        assert Own(t, tasks[t].payload, k.slot, streams[k.stream]);
        return Some(Err(ResponseEncoding));
      }
      Keep(t);
      var done := ReturnConnection(t);
      r := if done then Some(Ok(reply.value)) else None;
    }

    /** The request is turned away without going upstream, and counted as an error. */
    method Refuse(t: nat, parse: Parse)
      requires Valid() && t in tasks && tasks[t].Counted? && !Admissible(parse, tasks[t].payload)
      modifies this
      ensures Valid() && clock == old(clock) && old(trace) <= trace && t in tasks
      ensures tasks[t] == Finished(old(tasks[t].payload), RefusedLocally, [])
      ensures free == old(free) && idle == old(idle) && streams == old(streams)
      ensures metrics == old(metrics).(errors := old(metrics).errors + 1)
    {
      ghost var s := State();
      metrics := metrics.(errors := metrics.errors + 1);
      tasks := tasks[t := Finished(tasks[t].payload, RefusedLocally, [])];
      RunsSnoc(Initial(maxConnections), trace, s, Admit(t, parse));
      trace := trace + [Admit(t, parse)];
    }

    method Enter(t: nat)
      requires Valid() && t in tasks && tasks[t].Counted? && Admissible(Parsed(false), tasks[t].payload)
      modifies this
      ensures Valid() && clock == old(clock) && old(trace) <= trace && t in tasks && tasks[t] == Entering(old(tasks[t].payload))
    {
      ghost var s := State();
      tasks := tasks[t := Entering(tasks[t].payload)];
      RunsSnoc(Initial(maxConnections), trace, s, Admit(t, Parsed(false)));
      trace := trace + [Admit(t, Parsed(false))];
    }

    /** An admitted request, from the queue for a connection to its reply. */
    method Forward(t: nat) returns (r: Option<Result<Bytes, BinaryError>>)
      requires Valid() && t in tasks && tasks[t].Entering?
      modifies this
      ensures Valid() && old(trace) <= trace && t in tasks && tasks[t].payload == old(tasks[t].payload)
      ensures old(clock) <= clock && Told(t, old(clock), r)
    {
      var connection := GetConnection(t);
      if connection.None? {
        return None;
      }
      if connection.value.Err? {
        Fail(t, connection.value.error);
        return Some(Err(Io(connection.value.error)));
      }
      var result := Exchange(t);
      if result.None? {
        return None;
      }
      if result.value.Err? {
        Fail(t, result.value.error);
        return Some(Err(Io(result.value.error)));
      }
      r := Reply(t);
    }

    /**
     Sends one request. What the caller gets back is explained by how the request ended: turned away
     with an error that echoes it, failed, or answered with the rewriting of the response recorded as
     its own.
     */
    method Send(t: nat, payload: Bytes, parse: Result<bool, RequestParseError>)
      returns (r: Option<Result<Bytes, BinaryError>>)
      requires Valid() && t in tasks && tasks[t] == Counted(payload)
      modifies this
      ensures Valid() && old(trace) <= trace && t in tasks && tasks[t].payload == payload
      ensures old(clock) <= clock
      ensures if r.None? then Suspended(t, old(clock)) else Explained(codecs, parse, tasks[t], r.value)
      ensures parse == Ok(false) && |payload| <= 4 * 1024 * 1024 ==> Told(t, old(clock), r)
    {
      if parse.Err? {
        Refuse(t, Malformed);
        return Some(ErrorReply(codecs, ErrorCodeOf(parse.error), payload));
      }
      var isPeers := parse.value;
      if |payload| > MAX_MESSAGE_SIZE_BYTES {
        Refuse(t, Parsed(isPeers));
        return Some(Err(RequestTooLarge(MAX_MESSAGE_SIZE_BYTES, |payload|)));
      }
      if isPeers {
        Refuse(t, Parsed(isPeers));
        return Some(ErrorReply(codecs, Codecs.FunctionDisabled, payload));
      }
      Enter(t);
      r := Forward(t);
    }
  }

  /**
   End to end: in every reachable state, a reply given to the caller hides the peers. A request turned
   away got the error for its fault, echoing it; any other got what is due for upstream's answer to the
   very frame this request wrote on its stream.
   */
  lemma {:induction false} RepliesAreOwnAndClean<V(!new), S(!new)>(
    c: Codecs.Codecs<V, S>, maxConnections: nat, trace: seq<Step>, s: Pool,
    t: nat, parse: Result<bool, RequestParseError>, reply: Bytes) returns (e: Codecs.Envelope)
    requires Codecs.AllLawful(c) && Runs(Initial(maxConnections), trace, s)
    requires t in s.tasks && Explained(c, parse, s.tasks[t], Ok(reply))
    ensures Reads(c, reply, e)
    ensures forall m: Codecs.Meaning<V, S> :: Codecs.Means(c, e.response, m) ==> PeersHidden(m)
    ensures
      var k := s.tasks[t];
      match parse
      case Err(UnsupportedVersion) => e == Codecs.WithRequest(k.payload, Codecs.Response(Codecs.UnsupportedRequest, None, []))
      case Err(InvalidRequest) => e == Codecs.WithRequest(k.payload, Codecs.Response(Codecs.BadRequest, None, []))
      case Ok(true) => e == Codecs.WithRequest(k.payload, Codecs.Response(Codecs.FunctionDisabled, None, []))
      case Ok(false) =>
        && k.outcome.Replied? && k.outcome.stream < |s.streams|
        && var st := s.streams[k.outcome.stream];
           && Own(t, k.payload, k.outcome.slot, st) && k.outcome.slot < |st.responses|
           && AnswerFor(c, k.payload, st.responses[k.outcome.slot], reply, e)
  {
    var k := s.tasks[t];
    if parse == Ok(false) {
      AlignedHolds(Initial(maxConnections), trace, s);
      assert TaskInv(t, k, s.streams);
      e := ForwardedIsDue(c, k.payload, k.outcome.response, reply);
    } else {
      var code := match parse
        case Err(UnsupportedVersion) => Codecs.UnsupportedRequest
        case Err(InvalidRequest) => Codecs.BadRequest
        case Ok(_) => Codecs.FunctionDisabled;
      assert RefusedWith(c, code, k, Ok(reply));
      ErrorReplyIsStable(c, code, k.payload, reply);
      e := Codecs.WithRequest(k.payload, Codecs.Response(code, None, []));
    }
  }
}
