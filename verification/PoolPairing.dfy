/** Stream alignment: what the next byte of every connection means, and whose response it carries. */
module PoolPairing {
  import opened Prelude
  import opened Framing
  import opened PoolProtocol
  import opened PoolAccounting
  import opened PoolOwnership

  /** What holds of every stream, held, idle or abandoned. */
  ghost predicate StreamInv(st: Stream) {
    && |st.authors| == |st.requests| && |st.responses| <= |st.requests|
    && AllFit(st.requests) && AllFit(st.responses)
    && !HasFrame(st.partial)
    && st.sent == FrameAll(st.requests) + st.partial
    && st.consumed <= st.emitted <= |FrameAll(st.responses)|
  }

  /** At a frame boundary with nothing unread and nothing to come. */
  predicate Quiet(st: Stream) {
    st.partial == [] && |st.responses| == |st.requests| && st.consumed == |FrameAll(st.responses)|
  }

  /** Frame number `slot` of the stream is the request of task `t`. */
  predicate Own(t: nat, payload: Bytes, slot: nat, st: Stream) {
    slot < |st.requests| && slot < |st.authors| && st.requests[slot] == payload && st.authors[slot] == t
  }

  /** What holds of the stream a request is using. */
  ghost predicate HoldInv(t: nat, k: Task, st: Stream)
    requires HoldsConnection(k)
  {
    match k
    case Writing(payload, _, slot, written, _) =>
      && |payload| <= MAX_MESSAGE_SIZE_BYTES
      && slot == |st.requests| == |st.responses| && st.consumed == |FrameAll(st.responses)|
      && written < |Frame(payload)| && st.partial == Frame(payload)[..written]
    case Reading(payload, _, slot, got, _) =>
      && |payload| <= MAX_MESSAGE_SIZE_BYTES
      && st.partial == [] && |st.requests| == slot + 1 && Own(t, payload, slot, st)
      && slot <= |st.responses| && st.consumed == |FrameAll(st.responses[..slot])| + |got|
      && (if |st.responses| == slot then got == []
          else |got| < |Frame(st.responses[slot])| && got == Frame(st.responses[slot])[..|got|])
    case Reconnecting(payload, _, _) => |payload| <= MAX_MESSAGE_SIZE_BYTES
    case Answered(payload, _, slot, response, _) =>
      Quiet(st) && |st.requests| == slot + 1 && Own(t, payload, slot, st) && st.responses[slot] == response
    case Returning(payload, _, slot, response, _) =>
      Quiet(st) && |st.requests| == slot + 1 && Own(t, payload, slot, st) && st.responses[slot] == response
  }

  ghost predicate TaskInv(t: nat, k: Task, streams: seq<Stream>) {
    && (k.Entering? || k.Waiting? || k.Connecting? ==> |k.payload| <= MAX_MESSAGE_SIZE_BYTES)
    && (HoldsConnection(k) ==> k.stream < |streams| && HoldInv(t, k, streams[k.stream]))
    && (k.Finished? && k.outcome.Replied? ==>
          && k.outcome.stream < |streams|
          && Own(t, k.payload, k.outcome.slot, streams[k.outcome.stream])
          && k.outcome.slot < |streams[k.outcome.stream].responses|
          && streams[k.outcome.stream].responses[k.outcome.slot] == k.outcome.response)
  }

  ghost predicate Aligned(s: Pool) {
    && (forall x :: 0 <= x < |s.streams| ==> StreamInv(s.streams[x]))
    && (forall x :: x in s.idle ==> x < |s.streams| && Quiet(s.streams[x]))
    && (forall t :: t in s.tasks ==> TaskInv(t, s.tasks[t], s.streams))
  }

  /** A stream's exchanges are only ever extended. */
  predicate Grows(a: Stream, b: Stream) {
    a.requests <= b.requests && a.authors <= b.authors && a.responses <= b.responses
  }

  predicate AllGrow(a: seq<Stream>, b: seq<Stream>) {
    |a| <= |b| && forall x :: 0 <= x < |a| ==> Grows(a[x], b[x])
  }

  lemma {:induction false} TaskInvFrame(t: nat, k: Task, a: seq<Stream>, b: seq<Stream>)
    requires TaskInv(t, k, a) && AllGrow(a, b)
    requires HoldsConnection(k) ==> b[k.stream] == a[k.stream]
    ensures TaskInv(t, k, b)
  {
  }

  // ---------------------------------------------------------------- one request, one stream

  lemma {:induction false} FrameAllSnoc(payloads: seq<Bytes>, last: Bytes)
    ensures FrameAll(payloads + [last]) == FrameAll(payloads) + Frame(last)
  {
  }

  /** Part of the frame goes out: still no whole frame, still this request's bytes. */
  lemma {:induction false} WritePart(st: Stream, payload: Bytes, written: nat, w: nat)
    requires StreamInv(st) && |payload| <= MAX_MESSAGE_SIZE_BYTES
    requires written < w < |Frame(payload)| && st.partial == Frame(payload)[..written]
    ensures var chunk := Frame(payload)[written..w];
            var st' := st.(sent := st.sent + chunk, partial := st.partial + chunk);
            StreamInv(st') && st'.partial == Frame(payload)[..w]
  {
    var chunk := Frame(payload)[written..w];
    assert st.partial + chunk == Frame(payload)[..w];
    Assoc(FrameAll(st.requests), st.partial, chunk);
    PartialFrameHasNone(payload, w);
  }

  /** The last of it goes out: one more whole frame on the stream. */
  lemma {:induction false} WriteRest(st: Stream, payload: Bytes, written: nat, t: nat)
    requires StreamInv(st) && |payload| <= MAX_MESSAGE_SIZE_BYTES
    requires written < |Frame(payload)| && st.partial == Frame(payload)[..written]
    ensures var chunk := Frame(payload)[written..|Frame(payload)|];
            StreamInv(st.(sent := st.sent + chunk, partial := [],
                          requests := st.requests + [payload], authors := st.authors + [t]))
  {
  }

  lemma {:induction false} WriteKeeps(t: nat, was: Task, on: Stream, n: nat) returns (k: Task, st: Stream)
    requires was.Writing? && StreamInv(on) && HoldInv(t, was, on) && 1 <= n && was.written + n <= |Frame(was.payload)|
    ensures (k, st) == WriteChunk(t, was, on, n)
    ensures HoldsConnection(k) && k.stream == was.stream && HoldInv(t, k, st)
    ensures StreamInv(st) && Grows(on, st)
  {
    var w := was.written + n;
    var (k', st') := WriteChunk(t, was, on, n);
    k, st := k', st';
    if w < |Frame(was.payload)| {
      assert StreamInv(st) && st.partial == Frame(was.payload)[..w] by {
        WritePart(on, was.payload, was.written, w);
      }
    } else {
      assert StreamInv(st) by {
        WriteRest(on, was.payload, was.written, t);
      }
      Whole(on.responses);
      assert st.requests[was.slot] == was.payload && st.authors[was.slot] == t;
    }
  }

  /** How much of a frame is still wanted once its first bytes are there. */
  lemma {:induction false} WantedOfFrame(response: Bytes, n: nat)
    requires Fits(response) && n <= |Frame(response)|
    ensures var got := Frame(response)[..n];
            && (n >= LENGTH_BYTES ==> Wanted(got) == |Frame(response)| - n)
            && (n < LENGTH_BYTES ==> Wanted(got) == LENGTH_BYTES - n)
  {
    var got := Frame(response)[..n];
    if n >= LENGTH_BYTES {
      assert got[..LENGTH_BYTES] == Frame(response)[..LENGTH_BYTES];
      LengthPrefixIsExactIff(response, got);
    }
  }

  /** Something can only be read once upstream has answered this request. */
  lemma {:induction false} ReadIsDue(t: nat, k: Task, st: Stream)
    requires k.Reading? && StreamInv(st) && HoldInv(t, k, st) && st.consumed < st.emitted
    ensures |st.responses| == k.slot + 1 && Fits(st.responses[k.slot])
    ensures st.responses == st.responses[..k.slot] + [st.responses[k.slot]]
  {
    Whole(st.responses);
  }

  lemma {:induction false} SliceBehind<T>(front: seq<T>, frame: seq<T>, m: nat, n: nat)
    requires m + n <= |frame|
    ensures (front + frame)[|front| + m..|front| + m + n] == frame[m..m + n]
    ensures frame[..m] + frame[m..m + n] == frame[..m + n]
  {
  }

  /** What a read brings in is the next stretch of the one response that is due. */
  lemma {:induction false} ReadBrings(before: seq<Bytes>, response: Bytes, m: nat, n: nat)
    requires Fits(response) && m < |Frame(response)| && 1 <= n <= Wanted(Frame(response)[..m])
    ensures var frame, base := Frame(response), |FrameAll(before)|;
            && m + n <= |frame| && base + m + n <= |FrameAll(before + [response])|
            && frame[..m] + FrameAll(before + [response])[base + m..base + m + n] == frame[..m + n]
            && (Wanted(frame[..m + n]) == 0 <==> m + n == |frame|)
  {
    var frame := Frame(response);
    FrameAllSnoc(before, response);
    WantedOfFrame(response, m);
    WantedOfFrame(response, m + n);
    SliceBehind(FrameAll(before), frame, m, n);
  }

  lemma {:induction false} ReadGot(t: nat, k: Task, st: Stream, n: nat)
    requires k.Reading? && StreamInv(st) && HoldInv(t, k, st)
    requires 1 <= n <= Wanted(k.got) && st.consumed + n <= st.emitted
    ensures |st.responses| == k.slot + 1
    ensures var frame := Frame(st.responses[k.slot]);
            && |k.got| + n <= |frame| && GotAfter(k, st, n) == frame[..|k.got| + n]
            && (Wanted(GotAfter(k, st, n)) == 0 <==> |k.got| + n == |frame|)
            && |FrameAll(st.responses)| == |FrameAll(st.responses[..k.slot])| + |frame|
  {
    ReadIsDue(t, k, st);
    var before, response := st.responses[..k.slot], st.responses[k.slot];
    ReadBrings(before, response, |k.got|, n);
    FrameAllSnoc(before, response);
  }

  lemma {:induction false} ReadKeepsStream(st: Stream, n: nat)
    requires StreamInv(st) && st.consumed + n <= st.emitted
    ensures StreamInv(st.(consumed := st.consumed + n)) && Grows(st, st.(consumed := st.consumed + n))
  {
  }

  lemma {:induction false} ReadKeepsHold(t: nat, k: Task, st: Stream, n: nat, got: Bytes)
    requires k.Reading? && HoldInv(t, k, st) && |st.responses| == k.slot + 1
    requires var frame := Frame(st.responses[k.slot]);
             && |k.got| + n <= |frame| && got == frame[..|k.got| + n]
             && (Wanted(got) == 0 <==> |k.got| + n == |frame|)
             && |FrameAll(st.responses)| == |FrameAll(st.responses[..k.slot])| + |frame|
    ensures var k' := AfterRead(k, got);
            HoldsConnection(k') && k'.stream == k.stream && HoldInv(t, k', st.(consumed := st.consumed + n))
  {
  }

  lemma {:induction false} ReadKeeps(t: nat, was: Task, on: Stream, n: nat) returns (k: Task, st: Stream)
    requires was.Reading? && StreamInv(on) && HoldInv(t, was, on)
    requires 1 <= n <= Wanted(was.got) && on.consumed + n <= on.emitted
    ensures k == AfterRead(was, GotAfter(was, on, n)) && st == on.(consumed := on.consumed + n)
    ensures HoldsConnection(k) && k.stream == was.stream && HoldInv(t, k, st)
    ensures StreamInv(st) && Grows(on, st)
  {
    k, st := AfterRead(was, GotAfter(was, on, n)), on.(consumed := on.consumed + n);
    assert HoldsConnection(k) && k.stream == was.stream && HoldInv(t, k, st) by {
      ReadGot(t, was, on, n);
      ReadKeepsHold(t, was, on, n, GotAfter(was, on, n));
    }
    ReadKeepsStream(on, n);
  }

  /** Upstream sees exactly the requests written whole, so it answers no more than those. */
  lemma {:induction false} UpstreamSeesRequests(st: Stream)
    requires StreamInv(st)
    ensures Frames(st.sent) == st.requests
  {
    FramesRoundTrip(st.requests, st.partial);
  }

  lemma {:induction false} RespondKeepsStream(st: Stream, response: Bytes)
    requires StreamInv(st) && Fits(response) && |st.responses| < |st.requests|
    ensures StreamInv(st.(responses := st.responses + [response]))
  {
  }

  lemma {:induction false} RespondKeepsHold(t: nat, k: Task, st: Stream, response: Bytes)
    requires HoldsConnection(k) && StreamInv(st) && HoldInv(t, k, st) && |st.responses| < |st.requests|
    ensures HoldInv(t, k, st.(responses := st.responses + [response]))
  {
    if k.Reading? {
      assert (st.responses + [response])[..k.slot] == st.responses[..k.slot];
    }
  }

  // ---------------------------------------------------------------- all of them

  /** A step of request `t` changes its own state and, at most, the stream it holds. */
  ghost predicate StepOf(s: Pool, t: nat, s': Pool) {
    && t in s'.tasks && s'.tasks == s.tasks[t := s'.tasks[t]]
    && AllGrow(s.streams, s'.streams)
    && forall x :: 0 <= x < |s.streams| ==>
         s'.streams[x] == s.streams[x] || (t in s.tasks && HoldsConnection(s.tasks[t]) && s.tasks[t].stream == x)
  }

  lemma {:induction false} OthersKeep(s: Pool, t: nat, s': Pool, u: nat)
    requires Exclusive(s) && Aligned(s) && StepOf(s, t, s') && u in s'.tasks && u != t
    ensures TaskInv(u, s'.tasks[u], s'.streams)
  {
  }

  lemma {:induction false} TaskStepAligned(s: Pool, t: nat, s': Pool)
    requires Exclusive(s) && Aligned(s) && StepOf(s, t, s')
    requires TaskInv(t, s'.tasks[t], s'.streams)
    requires forall x :: 0 <= x < |s'.streams| ==>
               (x < |s.streams| && s'.streams[x] == s.streams[x]) || StreamInv(s'.streams[x])
    requires forall x :: x in s'.idle ==> x in s.idle || (x < |s'.streams| && Quiet(s'.streams[x]))
    ensures Aligned(s')
  {
    forall u | u in s'.tasks ensures TaskInv(u, s'.tasks[u], s'.streams) {
      if u != t {
        OthersKeep(s, t, s', u);
      }
    }
  }

  /** A request moving bytes on the stream it holds. */
  lemma {:induction false} ByteStepAligned(s: Pool, t: nat, k: Task, st: Stream, s': Pool)
    requires Exclusive(s) && Aligned(s) && t in s.tasks && HoldsConnection(s.tasks[t])
    requires HoldsConnection(k) && k.stream == s.tasks[t].stream < |s.streams|
    requires StreamInv(st) && Grows(s.streams[k.stream], st) && HoldInv(t, k, st)
    requires s' == Put(s, t, k).(streams := s.streams[k.stream := st])
    ensures Aligned(s')
  {
    assert StepOf(s, t, s');
    TaskStepAligned(s, t, s');
  }

  lemma {:induction false} HolderInv(s: Pool, t: nat)
    requires Aligned(s) && t in s.tasks && HoldsConnection(s.tasks[t])
    ensures var x := s.tasks[t].stream;
            x < |s.streams| && HoldInv(t, s.tasks[t], s.streams[x]) && StreamInv(s.streams[x])
  {
  }

  lemma {:induction false} WriteAligned(s: Pool, t: nat, n: nat)
    requires Exclusive(s) && Aligned(s) && Enabled(s, Write(t, n))
    ensures Aligned(Apply(s, Write(t, n)))
  {
    HolderInv(s, t);
    var k, st := WriteKeeps(t, s.tasks[t], s.streams[s.tasks[t].stream], n);
    ByteStepAligned(s, t, k, st, Apply(s, Write(t, n)));
  }

  lemma {:induction false} ReadAligned(s: Pool, t: nat, n: nat)
    requires Exclusive(s) && Aligned(s) && Enabled(s, Read(t, n))
    ensures Aligned(Apply(s, Read(t, n)))
  {
    var x := s.tasks[t].stream;
    HolderInv(s, t);
    var k, st := ReadKeeps(t, s.tasks[t], s.streams[x], n);
    var s' := Put(s, t, k).(streams := s.streams[x := st]);
    ByteStepAligned(s, t, k, st, s');
    ReadApplied(s, t, n, k, st);
  }

  lemma {:induction false} ReadApplied(s: Pool, t: nat, n: nat, k: Task, st: Stream)
    requires Enabled(s, Read(t, n))
    requires var on := s.streams[s.tasks[t].stream];
             k == AfterRead(s.tasks[t], GotAfter(s.tasks[t], on, n)) && st == on.(consumed := on.consumed + n)
    ensures Apply(s, Read(t, n)) == Put(s, t, k).(streams := s.streams[s.tasks[t].stream := st])
  {
  }

  lemma {:induction false} ConnectAligned(s: Pool, step: Step)
    requires Exclusive(s) && Aligned(s) && Enabled(s, step) && (step.ConnectOk? || step.ReconnectOk?)
    ensures Aligned(Apply(s, step))
  {
    var t, s' := step.who, Apply(s, step);
    assert TaskInv(t, s.tasks[t], s.streams);
    assert s'.streams[|s.streams|] == NewStream;
    assert StreamInv(NewStream) && Frame(s.tasks[t].payload)[..0] == [] by {
      assert FrameAll([]) == [];
    }
    assert StepOf(s, t, s');
    TaskStepAligned(s, t, s');
  }

  lemma {:induction false} TakeIdleAligned(s: Pool, t: nat)
    requires Exclusive(s) && Aligned(s) && Enabled(s, TakeIdle(t))
    ensures Aligned(Apply(s, TakeIdle(t)))
  {
  }

  /** The steps of a request that move no bytes and take no connection. */
  predicate IsBookkeeping(step: Step) {
    !ByUpstream(step) && !step.Write? && !step.Read? && !step.ConnectOk? && !step.ReconnectOk? && !step.TakeIdle?
  }

  lemma {:induction false} BookkeepingFrame(s: Pool, step: Step)
    requires Enabled(s, step) && IsBookkeeping(step)
    ensures StepOf(s, step.who, Apply(s, step)) && Apply(s, step).streams == s.streams
    ensures Apply(s, step).idle == if step.Return? then s.idle + [s.tasks[step.who].stream] else s.idle
  {
  }

  lemma {:induction false} FaultKeepsTask(t: nat, k: Task, streams: seq<Stream>, failures: seq<Failure>)
    requires TaskInv(t, k, streams) && (k.Writing? || k.Reading?)
    ensures TaskInv(t, Reconnecting(k.payload, k.stream, failures), streams)
    ensures TaskInv(t, Finished(k.payload, Failed, failures), streams)
  {
  }

  lemma {:induction false} RewriteKeepsTask(s: Pool, t: nat, encodes: bool)
    requires Enabled(s, Rewrite(t, encodes)) && TaskInv(t, s.tasks[t], s.streams)
    ensures TaskInv(t, Apply(s, Rewrite(t, encodes)).tasks[t], s.streams)
  {
  }

  lemma {:induction false} ReturnKeepsTask(s: Pool, t: nat)
    requires Enabled(s, Return(t)) && TaskInv(t, s.tasks[t], s.streams)
    ensures TaskInv(t, Apply(s, Return(t)).tasks[t], s.streams)
  {
  }

  lemma {:induction false} EarlyKeepsTask(s: Pool, step: Step)
    requires Enabled(s, step) && IsBookkeeping(step)
    requires step.who in s.tasks ==> TaskInv(step.who, s.tasks[step.who], s.streams)
    requires !step.Fault? && !step.Rewrite? && !step.Return?
    ensures TaskInv(step.who, Apply(s, step).tasks[step.who], s.streams)
  {
  }

  lemma {:induction false} BookkeepingKeepsTask(s: Pool, step: Step)
    requires Enabled(s, step) && IsBookkeeping(step)
    requires step.who in s.tasks ==> TaskInv(step.who, s.tasks[step.who], s.streams)
    ensures TaskInv(step.who, Apply(s, step).tasks[step.who], s.streams)
  {
    match step {
      case Fault(t, kind) =>
        var k := s.tasks[t];
        FaultKeepsTask(t, k, s.streams, k.failures + [Failure(k.stream, kind)]);
      case Rewrite(t, encodes) => RewriteKeepsTask(s, t, encodes);
      case Return(t) => ReturnKeepsTask(s, t);
      case _ => EarlyKeepsTask(s, step);
    }
  }

  lemma {:induction false} BookkeepingAligned(s: Pool, step: Step)
    requires Exclusive(s) && Aligned(s) && Enabled(s, step) && IsBookkeeping(step)
    ensures Aligned(Apply(s, step))
  {
    var t, s' := step.who, Apply(s, step);
    BookkeepingFrame(s, step);
    BookkeepingKeepsTask(s, step);
    if step.Return? {
      assert TaskInv(t, s.tasks[t], s.streams);
      assert forall x :: x in s'.idle <==> x in s.idle || x == s.tasks[t].stream;
    }
    TaskStepAligned(s, t, s');
  }

  lemma {:induction false} RespondKeepsTask(s: Pool, x: nat, response: Bytes, t: nat)
    requires Aligned(s) && t in s.tasks && x < |s.streams| && |s.streams[x].responses| < |s.streams[x].requests|
    ensures var st := s.streams[x];
            TaskInv(t, s.tasks[t], s.streams[x := st.(responses := st.responses + [response])])
  {
    var k, st := s.tasks[t], s.streams[x];
    assert TaskInv(t, k, s.streams);
    if HoldsConnection(k) && k.stream == x {
      RespondKeepsHold(t, k, st, response);
    } else {
      TaskInvFrame(t, k, s.streams, s.streams[x := st.(responses := st.responses + [response])]);
    }
  }

  lemma {:induction false} RespondAligned(s: Pool, x: nat, response: Bytes)
    requires Aligned(s) && Enabled(s, Respond(x, response))
    ensures Aligned(Apply(s, Respond(x, response)))
  {
    UpstreamSeesRequests(s.streams[x]);
    RespondKeepsStream(s.streams[x], response);
    assert x !in s.idle;
    var s' := Apply(s, Respond(x, response));
    forall t | t in s.tasks ensures TaskInv(t, s.tasks[t], s'.streams) {
      RespondKeepsTask(s, x, response, t);
    }
  }

  lemma {:induction false} EmitKeepsTask(t: nat, k: Task, streams: seq<Stream>, x: nat, emitted: nat)
    requires TaskInv(t, k, streams) && x < |streams|
    ensures TaskInv(t, k, streams[x := streams[x].(emitted := emitted)])
  {
  }

  lemma {:induction false} EmitAligned(s: Pool, x: nat, n: nat)
    requires Aligned(s) && Enabled(s, Emit(x, n))
    ensures Aligned(Apply(s, Emit(x, n)))
  {
    var emitted := s.streams[x].emitted + n;
    var t := s.(streams := s.streams[x := s.streams[x].(emitted := emitted)]);
    assert Aligned(t) by {
      EmitKeepsAligned(s, x, emitted);
    }
    assert Apply(s, Emit(x, n)) == t;
  }

  lemma {:induction false} EmitKeepsAligned(s: Pool, x: nat, emitted: nat)
    requires Aligned(s) && x < |s.streams| && s.streams[x].emitted <= emitted <= |FrameAll(s.streams[x].responses)|
    ensures Aligned(s.(streams := s.streams[x := s.streams[x].(emitted := emitted)]))
  {
    forall t | t in s.tasks ensures TaskInv(t, s.tasks[t], s.streams[x := s.streams[x].(emitted := emitted)]) {
      EmitKeepsTask(t, s.tasks[t], s.streams, x, emitted);
    }
  }

  lemma {:induction false} UpstreamAligned(s: Pool, step: Step)
    requires Aligned(s) && Enabled(s, step) && ByUpstream(step)
    ensures Aligned(Apply(s, step))
  {
    if step.Respond? {
      RespondAligned(s, step.stream, step.response);
    } else {
      EmitAligned(s, step.stream, step.n);
    }
  }

  lemma {:induction false} RequestAligned(s: Pool, step: Step)
    requires Exclusive(s) && Aligned(s) && Enabled(s, step) && !ByUpstream(step)
    ensures Aligned(Apply(s, step))
  {
    if step.Write? {
      WriteAligned(s, step.who, step.n);
    } else if step.Read? {
      ReadAligned(s, step.who, step.n);
    } else if step.ConnectOk? || step.ReconnectOk? {
      ConnectAligned(s, step);
    } else if step.TakeIdle? {
      TakeIdleAligned(s, step.who);
    } else {
      BookkeepingAligned(s, step);
    }
  }

  lemma {:induction false} AlignedStep(s: Pool, step: Step)
    requires Exclusive(s) && Aligned(s) && Enabled(s, step)
    ensures Aligned(Apply(s, step))
  {
    if ByUpstream(step) {
      UpstreamAligned(s, step);
    } else {
      RequestAligned(s, step);
    }
  }

  lemma {:induction false} AlignedHolds(s: Pool, steps: seq<Step>, t: Pool)
    requires Exclusive(s) && Aligned(s) && Runs(s, steps, t)
    ensures Exclusive(t) && Aligned(t)
    decreases |steps|
  {
    if steps != [] {
      ExclusiveStep(s, steps[0]);
      AlignedStep(s, steps[0]);
      AlignedHolds(Apply(s, steps[0]), steps[1..], t);
    }
  }

  /** Every idle pooled stream is at a frame boundary, with everything it was asked answered and read. */
  lemma {:induction false} IdleStreamsAreQuiet(maxConnections: nat, steps: seq<Step>, s: Pool, x: nat)
    requires Runs(Initial(maxConnections), steps, s) && x in s.idle
    ensures x < |s.streams|
    ensures var st := s.streams[x];
            && Frames(st.sent) == st.requests && LeftOver(st.sent) == []
            && |st.responses| == |st.requests|
            && st.consumed == st.emitted == |FrameAll(st.responses)|
  {
    AlignedHolds(Initial(maxConnections), steps, s);
    var st := s.streams[x];
    FramesRoundTrip(st.requests, st.partial);
  }

  /**
   Pairing: across unbounded reuse, reconnects and dropped connections, the response a successful
   request was given is upstream's answer, on that stream, to the very frame this request wrote.
   */
  lemma {:induction false} ResponsesArePaired(maxConnections: nat, steps: seq<Step>, s: Pool, t: nat)
    requires Runs(Initial(maxConnections), steps, s)
    requires t in s.tasks && s.tasks[t].Finished? && s.tasks[t].outcome.Replied?
    ensures var k := s.tasks[t];
            var x, slot := k.outcome.stream, k.outcome.slot;
            && x < |s.streams|
            && slot < |Frames(s.streams[x].sent)| && Frames(s.streams[x].sent)[slot] == k.payload
            && slot < |s.streams[x].authors| && s.streams[x].authors[slot] == t
            && slot < |s.streams[x].responses| && k.outcome.response == s.streams[x].responses[slot]
  {
    AlignedHolds(Initial(maxConnections), steps, s);
    assert TaskInv(t, s.tasks[t], s.streams);
    UpstreamSeesRequests(s.streams[s.tasks[t].outcome.stream]);
  }
}
