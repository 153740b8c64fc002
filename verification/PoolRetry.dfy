/** A request is written upstream at most twice, and the second time only for the right reason. */
module PoolRetry {
  import opened Prelude
  import opened PoolProtocol
  import opened PoolAccounting
  import opened PoolOwnership
  import opened PoolPairing

  /** At most one failed attempt lies behind, on another stream, and it was retryable. */
  predicate OneRetryBehind(failures: seq<Failure>, stream: nat, streams: nat) {
    failures != [] ==>
      |failures| == 1 && Retryable(failures[0].kind) && failures[0].stream != stream && failures[0].stream < streams
  }

  predicate RetryInv(k: Task, streams: nat) {
    match k
    case Writing(_, x, _, _, failures) => x < streams && OneRetryBehind(failures, x, streams)
    case Reading(_, x, _, _, failures) => x < streams && OneRetryBehind(failures, x, streams)
    case Answered(_, x, _, _, failures) => x < streams && OneRetryBehind(failures, x, streams)
    case Returning(_, x, _, _, failures) => x < streams && OneRetryBehind(failures, x, streams)
    case Reconnecting(_, x, failures) =>
      x < streams && |failures| == 1 && Retryable(failures[0].kind) && failures[0].stream == x
    case Finished(_, outcome, failures) =>
      && |failures| <= 2
      && (|failures| == 2 ==> Retryable(failures[0].kind) && failures[0].stream != failures[1].stream && outcome.Failed?)
      && (outcome.Replied? ==> OneRetryBehind(failures, outcome.stream, streams))
    case _ => true
  }

  ghost predicate RetriesBounded(s: Pool) {
    forall t :: t in s.tasks ==> RetryInv(s.tasks[t], |s.streams|)
  }

  /** The steps that start an attempt. */
  predicate IsStart(step: Step) {
    step.TakeIdle? || step.ConnectOk? || step.ReconnectOk?
  }

  lemma {:induction false} StartKeepsRetry(s: Pool, step: Step)
    requires Exclusive(s) && RetriesBounded(s) && Enabled(s, step) && IsStart(step)
    ensures |s.streams| <= |Apply(s, step).streams|
    ensures RetryInv(Apply(s, step).tasks[step.who], |Apply(s, step).streams|)
  {
    assert RetryInv(s.tasks[step.who], |s.streams|);
  }

  lemma {:induction false} BytesKeepRetry(s: Pool, step: Step)
    requires RetriesBounded(s) && Enabled(s, step) && (step.Write? || step.Read?)
    ensures |s.streams| == |Apply(s, step).streams|
    ensures RetryInv(Apply(s, step).tasks[step.who], |Apply(s, step).streams|)
  {
    assert RetryInv(s.tasks[step.who], |s.streams|);
  }

  lemma {:induction false} FaultKeepsRetry(s: Pool, t: nat, kind: IoErrorKind)
    requires RetriesBounded(s) && Enabled(s, Fault(t, kind))
    ensures |s.streams| == |Apply(s, Fault(t, kind)).streams|
    ensures RetryInv(Apply(s, Fault(t, kind)).tasks[t], |s.streams|)
  {
    assert RetryInv(s.tasks[t], |s.streams|);
  }

  lemma {:induction false} OtherStepKeepsRetry(s: Pool, step: Step)
    requires RetriesBounded(s) && Enabled(s, step) && !ByUpstream(step)
    requires !IsStart(step) && !step.Write? && !step.Read? && !step.Fault?
    ensures |s.streams| == |Apply(s, step).streams|
    ensures RetryInv(Apply(s, step).tasks[step.who], |s.streams|)
  {
    if step.who in s.tasks {
      assert RetryInv(s.tasks[step.who], |s.streams|);
    }
  }

  lemma {:induction false} RetryOwnStep(s: Pool, step: Step)
    requires Exclusive(s) && RetriesBounded(s) && Enabled(s, step) && !ByUpstream(step)
    requires step.who in Apply(s, step).tasks
    ensures |s.streams| <= |Apply(s, step).streams|
    ensures RetryInv(Apply(s, step).tasks[step.who], |Apply(s, step).streams|)
  {
    if IsStart(step) {
      StartKeepsRetry(s, step);
    } else if step.Write? || step.Read? {
      BytesKeepRetry(s, step);
    } else if step.Fault? {
      FaultKeepsRetry(s, step.who, step.kind);
    } else {
      OtherStepKeepsRetry(s, step);
    }
  }

  lemma {:induction false} RetryStep(s: Pool, step: Step)
    requires Exclusive(s) && RetriesBounded(s) && Enabled(s, step)
    ensures RetriesBounded(Apply(s, step))
  {
    OneTaskChanges(s, step);
    if !ByUpstream(step) {
      RetryOwnStep(s, step);
    }
  }

  lemma {:induction false} RetriesHold(s: Pool, steps: seq<Step>, t: Pool)
    requires Exclusive(s) && RetriesBounded(s) && Runs(s, steps, t)
    ensures RetriesBounded(t)
    decreases |steps|
  {
    if steps != [] {
      ExclusiveStep(s, steps[0]);
      RetryStep(s, steps[0]);
      RetriesHold(Apply(s, steps[0]), steps[1..], t);
    }
  }

  /** Does this step make request `t` start writing its frame? */
  predicate Begins(s: Pool, step: Step, t: nat) {
    match step
    case TakeIdle(u) => u == t && s.idle != []
    case ConnectOk(u) => u == t
    case ReconnectOk(u) => u == t
    case _ => false
  }

  /** That is: when the step puts it at the beginning of a frame it was not writing before. */
  lemma {:induction false} BeginsIff(s: Pool, step: Step, t: nat)
    requires Enabled(s, step)
    ensures Begins(s, step, t) <==>
            && !(t in s.tasks && s.tasks[t].Writing?)
            && t in Apply(s, step).tasks && Apply(s, step).tasks[t].Writing?
    ensures Begins(s, step, t) ==> Apply(s, step).tasks[t].written == 0
  {
  }

  ghost function Beginnings(s: Pool, steps: seq<Step>, t: nat): nat
    decreases |steps|
  {
    if steps == [] || !Enabled(s, steps[0]) then 0
    else (if Begins(s, steps[0], t) then 1 else 0) + Beginnings(Apply(s, steps[0]), steps[1..], t)
  }

  /** How many of its two chances a request has used up. */
  function Used(s: Pool, t: nat): nat {
    if t !in s.tasks then 0
    else
      match s.tasks[t]
      case Writing(_, _, _, _, failures) => |failures| + 1
      case Reading(_, _, _, _, failures) => |failures| + 1
      case Answered(_, _, _, _, failures) => |failures| + 1
      case Returning(_, _, _, _, failures) => |failures| + 1
      case Reconnecting(_, _, failures) => |failures|
      case Finished(_, _, _) => 2
      case _ => 0
  }

  lemma {:induction false} UsedStep(s: Pool, step: Step, t: nat)
    requires RetriesBounded(s) && Enabled(s, step)
    ensures Used(s, t) + (if Begins(s, step, t) then 1 else 0) <= Used(Apply(s, step), t)
  {
    OneTaskChanges(s, step);
    if t in s.tasks {
      assert RetryInv(s.tasks[t], |s.streams|);
    }
  }

  lemma {:induction false} UsedGrows(s: Pool, steps: seq<Step>, u: Pool, t: nat)
    requires Exclusive(s) && RetriesBounded(s) && Runs(s, steps, u)
    ensures Used(s, t) + Beginnings(s, steps, t) <= Used(u, t) <= 2
    decreases |steps|
  {
    if steps == [] {
      assert t in u.tasks ==> RetryInv(u.tasks[t], |u.streams|);
    } else {
      UsedStep(s, steps[0], t);
      ExclusiveStep(s, steps[0]);
      RetryStep(s, steps[0]);
      UsedGrows(Apply(s, steps[0]), steps[1..], u, t);
    }
  }

  /** Over every run, a request begins writing its payload upstream at most twice. */
  lemma {:induction false} AtMostTwoAttempts(maxConnections: nat, steps: seq<Step>, u: Pool, t: nat)
    requires Runs(Initial(maxConnections), steps, u)
    ensures Beginnings(Initial(maxConnections), steps, t) <= 2
  {
    UsedGrows(Initial(maxConnections), steps, u, t);
  }

  /**
   A request that has begun once begins again only by reconnecting after a failed first attempt
   that was retryable, and on a stream different from the first.
   */
  lemma {:induction false} RetryOnlyForCause(maxConnections: nat, steps: seq<Step>, s: Pool, step: Step, t: nat)
    requires Runs(Initial(maxConnections), steps, s) && Enabled(s, step)
    requires Beginnings(Initial(maxConnections), steps, t) > 0 && Begins(s, step, t)
    ensures step == ReconnectOk(t)
    ensures
      var k, k' := s.tasks[t], Apply(s, step).tasks[t];
      && |k.failures| == 1 && Retryable(k.failures[0].kind) && k.failures[0].stream == k.stream
      && k'.Writing? && k'.stream != k.stream && k'.failures == k.failures
  {
    UsedGrows(Initial(maxConnections), steps, s, t);
    RetriesHold(Initial(maxConnections), steps, s);
    assert RetryInv(s.tasks[t], |s.streams|);
  }

  /** A failure of the first attempt leads to reconnecting iff it is of one of these four kinds, else to an error. */
  lemma {:induction false} RetriedIff(s: Pool, t: nat, kind: IoErrorKind)
    requires Enabled(s, Fault(t, kind)) && FailuresOf(s.tasks[t]) == []
    ensures var k := Apply(s, Fault(t, kind)).tasks[t];
            if kind == UnexpectedEof || kind == ConnectionReset || kind == ConnectionAborted || kind == BrokenPipe
            then k == Reconnecting(s.tasks[t].payload, s.tasks[t].stream, [Failure(s.tasks[t].stream, kind)])
            else k == Finished(s.tasks[t].payload, Failed, [Failure(s.tasks[t].stream, kind)])
  {
    assert [] + [Failure(s.tasks[t].stream, kind)] == [Failure(s.tasks[t].stream, kind)];
  }

  /** A second failure, of any kind, is final. */
  lemma {:induction false} SecondFailureIsFinal(s: Pool, t: nat, kind: IoErrorKind)
    requires Enabled(s, Fault(t, kind)) && FailuresOf(s.tasks[t]) != []
    ensures Apply(s, Fault(t, kind)).tasks[t].Finished? && Apply(s, Fault(t, kind)).tasks[t].outcome == Failed
  {
  }

  /** Only handing back makes a connection idle. */
  lemma {:induction false} OnlyReturnAddsIdle(s: Pool, step: Step, x: nat)
    requires Enabled(s, step) && x in Apply(s, step).idle && x !in s.idle
    ensures step.Return? && x == s.tasks[step.who].stream
  {
  }

  /**
   A connection enters the idle vector only when the attempt on it succeeded: the last frame
   written on it is this request's, its whole response has been read and nothing else is pending.
   */
  lemma {:induction false} IdleOnlyAfterSuccess(maxConnections: nat, steps: seq<Step>, s: Pool, step: Step, x: nat)
    requires Runs(Initial(maxConnections), steps, s) && Enabled(s, step)
    requires x in Apply(s, step).idle && x !in s.idle
    ensures step.Return? && x == s.tasks[step.who].stream < |s.streams|
    ensures Quiet(s.streams[x]) && |s.streams[x].authors| > 0
    ensures s.streams[x].authors[|s.streams[x].authors| - 1] == step.who
  {
    OnlyReturnAddsIdle(s, step, x);
    AlignedHolds(Initial(maxConnections), steps, s);
    assert TaskInv(step.who, s.tasks[step.who], s.streams);
  }
}
