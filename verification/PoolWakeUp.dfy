/** When a request queued on the semaphore can go on, and when it cannot. */
module PoolWakeUp {
  import opened Prelude
  import opened Framing
  import opened PoolProtocol

  /** The steps that drop a connection or a permit. */
  predicate Drops(s: Pool, step: Step)
    requires Enabled(s, step)
  {
    match step
    case ConnectErr(_) => true
    case ReconnectErr(_) => true
    case Fault(t, kind) => s.tasks[t].failures != [] || !Retryable(kind)
    case Rewrite(_, encodes) => !encodes
    case Cancel(t) => HoldsPermit(s.tasks[t])
    case _ => false
  }

  /** A step releases a permit iff it drops a connection or permit; putting a connection back does not. */
  lemma {:induction false} FreeRisesIffDropped(s: Pool, step: Step)
    requires Enabled(s, step)
    ensures Apply(s, step).free > s.free <==> Drops(s, step)
    ensures Drops(s, step) ==> Apply(s, step).free == s.free + 1
    ensures Apply(s, step).free < s.free <==> step.Acquire?
  {
  }

  ghost predicate NothingDropped(s: Pool, steps: seq<Step>)
    decreases |steps|
  {
    steps == [] ||
    (Enabled(s, steps[0]) && !Drops(s, steps[0]) && NothingDropped(Apply(s, steps[0]), steps[1..]))
  }

  predicate Blocked(s: Pool, t: nat) {
    t in s.tasks && s.tasks[t].Waiting? && s.free == 0
  }

  /** Over a stretch of a run in which nothing is dropped the number of free permits never rises. */
  lemma {:induction false} FreeNeverRises(s: Pool, steps: seq<Step>, u: Pool)
    requires Runs(s, steps, u) && NothingDropped(s, steps)
    ensures u.free <= s.free
    decreases |steps|
  {
    if steps != [] {
      FreeRisesIffDropped(s, steps[0]);
      FreeNeverRises(Apply(s, steps[0]), steps[1..], u);
    }
  }

  /**
   A request that found the pool empty and no permit free stays blocked for as long as nothing is
   dropped, whatever connections become idle meanwhile (unless it is itself cancelled).
   */
  lemma {:induction false} StaysBlocked(s: Pool, steps: seq<Step>, u: Pool, t: nat)
    requires Blocked(s, t) && Runs(s, steps, u) && NothingDropped(s, steps)
    requires forall i :: 0 <= i < |steps| ==> steps[i] != Cancel(t)
    ensures Blocked(u, t)
    decreases |steps|
  {
    if steps != [] {
      var step := steps[0];
      FreeRisesIffDropped(s, step);
      assert step != Cancel(t);
      var v := Apply(s, step);
      assert t in v.tasks && v.tasks[t].Waiting? && v.free == 0;
      assert forall i :: 0 <= i < |steps[1..]| ==> steps[1..][i] == steps[i + 1];
      StaysBlocked(v, steps[1..], u, t);
    }
  }

  /** Conversely, dropping a connection is what lets a blocked request acquire a permit. */
  lemma {:induction false} DropUnblocks(s: Pool, step: Step, t: nat)
    requires Blocked(s, t) && Enabled(s, step) && step != Cancel(t)
    ensures Enabled(Apply(s, step), Acquire(t)) <==> Drops(s, step)
  {
  }

  /** An idle connection is reused, the one put back last, and no permit is taken for it... */
  lemma {:induction false} IdleIsReused(s: Pool, t: nat)
    requires Enabled(s, TakeIdle(t)) && s.idle != []
    ensures var u := Apply(s, TakeIdle(t));
            && u.tasks[t].Writing? && u.tasks[t].stream == s.idle[|s.idle| - 1] && u.tasks[t].written == 0
            && u.idle == s.idle[..|s.idle| - 1] && u.free == s.free
  {
  }

  /** ... and only a request that found the pool empty queues for a permit, or gets one. */
  lemma {:induction false} QueuesOnlyWhenEmpty(s: Pool, step: Step, t: nat)
    requires Enabled(s, step) && t in Apply(s, step).tasks
    ensures Apply(s, step).tasks[t].Waiting? && !(t in s.tasks && s.tasks[t].Waiting?) ==>
              step == TakeIdle(t) && s.idle == []
    ensures Apply(s, step).tasks[t].Connecting? && !(t in s.tasks && s.tasks[t].Connecting?) ==>
              step == Acquire(t) && t in s.tasks && s.tasks[t].Waiting? && Apply(s, step).free == s.free - 1
  {
  }

  /** The steps a request could take next. */
  ghost predicate CanMove(s: Pool, t: nat) {
    exists step: Step :: !step.Respond? && !step.Emit? && step.who == t && !step.Cancel? && Enabled(s, step)
  }

  // ---------------------------------------------------------------- such a state is reachable

  /** `s` once request `t` is at `k` and its stream `x` looks like `st`. */
  function At(s: Pool, t: nat, k: Task, x: nat, st: Stream): Pool
    requires x < |s.streams|
  {
    Put(s, t, k).(streams := s.streams[x := st])
  }

  /** What upstream has seen and done of the first exchange on a stream. */
  function Exchange(t: nat, p: Bytes, responses: seq<Bytes>, emitted: nat, consumed: nat): Stream {
    Stream(Frame(p), [p], [t], [], responses, emitted, consumed)
  }

  /** A request comes in, is admitted, and finds the pool empty. */
  lemma {:induction false} ComesAndQueues(s: Pool, t: nat, p: Bytes) returns (steps: seq<Step>)
    requires t !in s.tasks && s.idle == [] && |p| <= MAX_MESSAGE_SIZE_BYTES
    ensures Runs(s, steps, Put(s, t, Waiting(p)).(metrics := s.metrics.(requests := s.metrics.requests + 1)))
  {
    var arrived := Apply(s, Arrive(t, p));
    var admitted := Apply(arrived, Admit(t, Parsed(false)));
    var queued := Apply(admitted, TakeIdle(t));
    RunsTwo(s, Arrive(t, p), arrived, Admit(t, Parsed(false)), admitted);
    RunsOne(admitted, TakeIdle(t), queued);
    steps := [Arrive(t, p), Admit(t, Parsed(false))] + [TakeIdle(t)];
    RunsThen(s, [Arrive(t, p), Admit(t, Parsed(false))], admitted, [TakeIdle(t)], queued);
    assert queued.tasks == s.tasks[t := Waiting(p)];
  }

  /** With a permit to spare it gets a connection of its own. */
  lemma {:induction false} GetsConnection(s: Pool, t: nat)
    requires t in s.tasks && s.tasks[t].Waiting? && s.free > 0
    ensures Runs(s, [Acquire(t), ConnectOk(t)],
                 Put(s, t, Writing(s.tasks[t].payload, |s.streams|, 0, 0, []))
                   .(free := s.free - 1, streams := s.streams + [NewStream]))
  {
    var acquired := Apply(s, Acquire(t));
    var connected := Apply(acquired, ConnectOk(t));
    assert connected.tasks == s.tasks[t := Writing(s.tasks[t].payload, |s.streams|, 0, 0, [])];
    RunsTwo(s, Acquire(t), acquired, ConnectOk(t), connected);
  }

  /** Requests 0 to n-1 each hold a new connection, request 0 the first. */
  predicate Crowded(s: Pool, n: nat, p: Bytes) {
    && s.free == s.capacity - n && s.idle == [] && |s.streams| == n
    && (forall t :: n <= t ==> t !in s.tasks)
    && (n > 0 ==> 0 in s.tasks && s.tasks[0] == Writing(p, 0, 0, 0, []) && s.streams[0] == NewStream)
  }

  lemma {:induction false} FillsUp(maxConnections: nat, n: nat, p: Bytes) returns (steps: seq<Step>, s: Pool)
    requires n <= Max(maxConnections, 1) && |p| <= MAX_MESSAGE_SIZE_BYTES
    ensures Runs(Initial(maxConnections), steps, s) && s.capacity == Max(maxConnections, 1) && Crowded(s, n, p)
  {
    if n == 0 {
      steps, s := [], Initial(maxConnections);
    } else {
      var before, r := FillsUp(maxConnections, n - 1, p);
      var more, u := OneMore(r, n - 1, p);
      RunsThen(Initial(maxConnections), before, r, more, u);
      steps, s := before + more, u;
    }
  }

  lemma {:induction false} OneMore(s: Pool, n: nat, p: Bytes) returns (steps: seq<Step>, u: Pool)
    requires Crowded(s, n, p) && s.free > 0 && |p| <= MAX_MESSAGE_SIZE_BYTES
    ensures Runs(s, steps, u) && u.capacity == s.capacity && Crowded(u, n + 1, p)
  {
    steps := ComesAndQueues(s, n, p);
    var q := Put(s, n, Waiting(p)).(metrics := s.metrics.(requests := s.metrics.requests + 1));
    GetsConnection(q, n);
    u := Put(q, n, Writing(p, n, 0, 0, [])).(free := s.free - 1, streams := s.streams + [NewStream]);
    RunsThen(s, steps, q, [Acquire(n), ConnectOk(n)], u);
    steps := steps + [Acquire(n), ConnectOk(n)];
    CrowdGrows(s, n, p, u);
  }

  lemma {:induction false} CrowdGrows(s: Pool, n: nat, p: Bytes, u: Pool)
    requires Crowded(s, n, p) && s.free > 0
    requires u.tasks == s.tasks[n := Waiting(p)][n := Writing(p, n, 0, 0, [])]
    requires u.streams == s.streams + [NewStream]
    requires u.free == s.free - 1 && u.idle == s.idle && u.capacity == s.capacity
    ensures Crowded(u, n + 1, p)
  {
  }

  lemma {:induction false} WritesWhole(s: Pool, t: nat, p: Bytes, x: nat)
    requires x < |s.streams| && t in s.tasks
    requires s.tasks[t] == Writing(p, x, 0, 0, []) && s.streams[x] == NewStream
    ensures Runs(s, [Write(t, |Frame(p)|)], At(s, t, Reading(p, x, 0, [], []), x, Exchange(t, p, [], 0, 0)))
  {
    var n := |Frame(p)|;
    assert Frame(p)[0..n] == Frame(p) && [] + Frame(p) == Frame(p);
    assert NewStream.requests + [p] == [p] && NewStream.authors + [t] == [t];
    assert WriteChunk(t, s.tasks[t], s.streams[x], n) == (Reading(p, x, 0, [], []), Exchange(t, p, [], 0, 0));
    RunsOne(s, Write(t, n), At(s, t, Reading(p, x, 0, [], []), x, Exchange(t, p, [], 0, 0)));
  }

  lemma {:induction false} IsAnswered(s: Pool, t: nat, p: Bytes, x: nat)
    requires x < |s.streams| && s.streams[x] == Exchange(t, p, [], 0, 0) && |p| <= MAX_MESSAGE_SIZE_BYTES
    ensures Runs(s, [Respond(x, []), Emit(x, LENGTH_BYTES)],
                 s.(streams := s.streams[x := Exchange(t, p, [[]], LENGTH_BYTES, 0)]))
  {
    var answered := s.(streams := s.streams[x := Exchange(t, p, [[]], 0, 0)]);
    var emitted := s.(streams := s.streams[x := Exchange(t, p, [[]], LENGTH_BYTES, 0)]);
    OneFrame(p);
    EmptyReply();
    assert s.streams[x].responses + [[]] == [[]];
    assert answered.streams[x := Exchange(t, p, [[]], LENGTH_BYTES, 0)] == emitted.streams;
    RunsTwo(s, Respond(x, []), answered, Emit(x, LENGTH_BYTES), emitted);
  }

  lemma {:induction false} ReadsWhole(s: Pool, t: nat, p: Bytes, x: nat)
    requires x < |s.streams| && t in s.tasks
    requires s.tasks[t] == Reading(p, x, 0, [], []) && s.streams[x] == Exchange(t, p, [[]], LENGTH_BYTES, 0)
    ensures Runs(s, [Read(t, LENGTH_BYTES)],
                 At(s, t, Answered(p, x, 0, [], []), x, Exchange(t, p, [[]], LENGTH_BYTES, LENGTH_BYTES)))
  {
    EmptyReply();
    assert AfterRead(s.tasks[t], GotAfter(s.tasks[t], s.streams[x], LENGTH_BYTES)) == Answered(p, x, 0, [], []);
    RunsOne(s, Read(t, LENGTH_BYTES),
            At(s, t, Answered(p, x, 0, [], []), x, Exchange(t, p, [[]], LENGTH_BYTES, LENGTH_BYTES)));
  }

  lemma {:induction false} PutsBack(s: Pool, t: nat, p: Bytes, x: nat)
    requires t in s.tasks && s.tasks[t] == Answered(p, x, 0, [], [])
    ensures Runs(s, [Rewrite(t, true), Return(t)],
                 Put(s, t, Finished(p, Replied(x, 0, []), []))
                   .(idle := s.idle + [x], metrics := s.metrics.(ok := s.metrics.ok + 1)))
  {
    var kept := Apply(s, Rewrite(t, true));
    var back := Apply(kept, Return(t));
    assert back.tasks == s.tasks[t := Finished(p, Replied(x, 0, []), [])];
    RunsTwo(s, Rewrite(t, true), kept, Return(t), back);
  }

  lemma {:induction false} IsExchanged(s: Pool, t: nat, p: Bytes, x: nat) returns (steps: seq<Step>)
    requires x < |s.streams| && t in s.tasks && |p| <= MAX_MESSAGE_SIZE_BYTES
    requires s.tasks[t] == Writing(p, x, 0, 0, []) && s.streams[x] == NewStream
    ensures Runs(s, steps, At(s, t, Answered(p, x, 0, [], []), x, Exchange(t, p, [[]], LENGTH_BYTES, LENGTH_BYTES)))
  {
    var written := At(s, t, Reading(p, x, 0, [], []), x, Exchange(t, p, [], 0, 0));
    var answered := At(s, t, Reading(p, x, 0, [], []), x, Exchange(t, p, [[]], LENGTH_BYTES, 0));
    var got := At(s, t, Answered(p, x, 0, [], []), x, Exchange(t, p, [[]], LENGTH_BYTES, LENGTH_BYTES));
    WritesWhole(s, t, p, x);
    IsAnswered(written, t, p, x);
    assert written.(streams := written.streams[x := Exchange(t, p, [[]], LENGTH_BYTES, 0)]) == answered;
    ReadsWhole(answered, t, p, x);
    assert At(answered, t, Answered(p, x, 0, [], []), x, Exchange(t, p, [[]], LENGTH_BYTES, LENGTH_BYTES)) == got;
    RunsThen(written, [Respond(x, []), Emit(x, LENGTH_BYTES)], answered, [Read(t, LENGTH_BYTES)], got);
    steps := [Respond(x, []), Emit(x, LENGTH_BYTES)] + [Read(t, LENGTH_BYTES)];
    RunsThen(s, [Write(t, |Frame(p)|)], written, steps, got);
    steps := [Write(t, |Frame(p)|)] + steps;
  }

  /** A request about to write on a new connection can be answered, and its connection comes back. */
  lemma {:induction false} IsServed(s: Pool, t: nat, p: Bytes, x: nat) returns (steps: seq<Step>, u: Pool)
    requires x < |s.streams| && t in s.tasks && |p| <= MAX_MESSAGE_SIZE_BYTES
    requires s.tasks[t] == Writing(p, x, 0, 0, []) && s.streams[x] == NewStream
    ensures Runs(s, steps, u) && u.free == s.free && u.idle == s.idle + [x]
    ensures forall r :: r in s.tasks && r != t ==> r in u.tasks && u.tasks[r] == s.tasks[r]
  {
    var got := At(s, t, Answered(p, x, 0, [], []), x, Exchange(t, p, [[]], LENGTH_BYTES, LENGTH_BYTES));
    u := Put(got, t, Finished(p, Replied(x, 0, []), [])).(idle := s.idle + [x], metrics := s.metrics.(ok := s.metrics.ok + 1));
    steps := IsExchanged(s, t, p, x);
    PutsBack(got, t, p, x);
    RunsThen(s, steps, got, [Rewrite(t, true), Return(t)], u);
    steps := steps + [Rewrite(t, true), Return(t)];
  }

  lemma {:induction false} OneFrame(p: Bytes)
    requires |p| <= MAX_MESSAGE_SIZE_BYTES
    ensures |Frames(Frame(p))| == 1
  {
    FramesOfFrame(p, []);
    assert Frame(p) + [] == Frame(p);
  }

  lemma {:induction false} EmptyReply()
    ensures FrameAll([[]]) == Frame([]) && |FrameAll([[]])| == LENGTH_BYTES
    ensures Wanted(FrameAll([[]])) == 0
    ensures ([] + FrameAll([[]])[0..LENGTH_BYTES]) == FrameAll([[]]) && FrameAll([[]])[LENGTH_BYTES..] == []
  {
    var none: seq<Bytes> := [];
    assert [[]][..0] == none;
    assert FrameAll([]) + Frame([]) == Frame([]);
    SizeCheckPreventsTruncation([]);
  }

  lemma {:induction false} ReachBlocked(maxConnections: nat, p: Bytes, q: Bytes) returns (steps: seq<Step>, u: Pool, t: nat)
    requires |p| <= MAX_MESSAGE_SIZE_BYTES && |q| <= MAX_MESSAGE_SIZE_BYTES
    ensures Runs(Initial(maxConnections), steps, u) && Blocked(u, t) && u.idle != []
  {
    t := Max(maxConnections, 1);
    var filling, full := FillsUp(maxConnections, t, p);
    var queueing := ComesAndQueues(full, t, q);
    var queued := Put(full, t, Waiting(q)).(metrics := full.metrics.(requests := full.metrics.requests + 1));
    var serving;
    serving, u := IsServed(queued, 0, p, 0);
    RunsThen(Initial(maxConnections), filling, full, queueing, queued);
    steps := filling + queueing;
    RunsThen(Initial(maxConnections), steps, queued, serving, u);
    steps := steps + serving;
  }

  lemma {:induction false} BlockedCannotMove(s: Pool, t: nat)
    requires Blocked(s, t)
    ensures !CanMove(s, t)
  {
  }

  /**
   A blocked request next to an idle connection is a reachable state of every pool, whatever its size: all
   permits are taken by connections in use, one more request finds the pool empty and queues, and a
   connection comes back. The queued request can then only be cancelled, although a newcomer would be
   served at once.
   */
  lemma {:induction false} BlockedBesideIdle(maxConnections: nat, p: Bytes, q: Bytes)
    requires |p| <= MAX_MESSAGE_SIZE_BYTES && |q| <= MAX_MESSAGE_SIZE_BYTES
    ensures exists steps, u, t ::
              Runs(Initial(maxConnections), steps, u) && Blocked(u, t) && u.idle != [] && !CanMove(u, t)
  {
    var steps, u, t := ReachBlocked(maxConnections, p, q);
    BlockedCannotMove(u, t);
  }
}
