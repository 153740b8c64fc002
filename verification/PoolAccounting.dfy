/** Permits and outcomes are conserved by every step of the pool, and so over every run. */
module PoolAccounting {
  import opened Prelude
  import opened PoolProtocol

  /** The requests in a state satisfying `p`, and how many they are. */
  ghost function Those(tasks: map<nat, Task>, p: Task -> bool): set<nat> {
    set t | t in tasks && p(tasks[t])
  }

  ghost function Count(tasks: map<nat, Task>, p: Task -> bool): nat {
    |Those(tasks, p)|
  }

  lemma {:induction false} CountAfterPut(tasks: map<nat, Task>, t: nat, k: Task, p: Task -> bool)
    ensures Count(tasks[t := k], p) ==
            Count(tasks, p) - (if t in tasks && p(tasks[t]) then 1 else 0) + (if p(k) then 1 else 0)
  {
    var tasks' := tasks[t := k];
    var before, after := Those(tasks, p), Those(tasks', p);
    if p(k) {
      assert after == before + {t};
    } else {
      assert after == before - {t};
    }
  }

  lemma {:induction false} CountNone(tasks: map<nat, Task>, p: Task -> bool)
    requires forall t :: t in tasks ==> !p(tasks[t])
    ensures Count(tasks, p) == 0
  {
  }

  predicate ByUpstream(step: Step) {
    step.Respond? || step.Emit?
  }

  /** A step of a request changes that request only. */
  lemma {:induction false} OneTaskChanges(s: Pool, step: Step)
    requires Enabled(s, step)
    ensures ByUpstream(step) ==> Apply(s, step).tasks == s.tasks
    ensures !ByUpstream(step) ==>
              && step.who in Apply(s, step).tasks
              && Apply(s, step).tasks == s.tasks[step.who := Apply(s, step).tasks[step.who]]
    ensures Apply(s, step).capacity == s.capacity
  {
  }

  // ---------------------------------------------------------------- permits

  /** Every permit is free, inside an idle connection, inside a held one, or held while connecting. */
  ghost predicate PermitsConserved(s: Pool) {
    s.free + |s.idle| + Count(s.tasks, HoldsConnection) + Count(s.tasks, IsConnecting) == s.capacity
  }

  /** The permits a request accounts for. */
  function PermitsOf(tasks: map<nat, Task>, t: nat): nat {
    if t in tasks && HoldsPermit(tasks[t]) then 1 else 0
  }

  /** What a request accounts for together with the semaphore and the idle connections. */
  function PermitsWith(s: Pool, t: nat): nat {
    s.free + |s.idle| + PermitsOf(s.tasks, t)
  }

  /** The steps at which a request gives up what it holds, or may. */
  predicate MayRelease(step: Step) {
    step.ConnectErr? || step.ReconnectErr? || step.Fault? || step.Rewrite? || step.Cancel?
  }

  lemma {:induction false} ReleasesMove(s: Pool, step: Step)
    requires Enabled(s, step) && MayRelease(step)
    ensures PermitsWith(Apply(s, step), step.who) == PermitsWith(s, step.who)
  {
  }

  lemma {:induction false} OthersMove(s: Pool, step: Step)
    requires Enabled(s, step) && !ByUpstream(step) && !MayRelease(step)
    ensures PermitsWith(Apply(s, step), step.who) == PermitsWith(s, step.who)
  {
  }

  /** A step moves permits between its request, the idle connections and the semaphore. */
  lemma {:induction false} PermitsMove(s: Pool, step: Step)
    requires Enabled(s, step) && !ByUpstream(step)
    ensures PermitsWith(Apply(s, step), step.who) == PermitsWith(s, step.who)
  {
    if MayRelease(step) {
      ReleasesMove(s, step);
    } else {
      OthersMove(s, step);
    }
  }

  lemma {:induction false} PermitStep(s: Pool, step: Step)
    requires PermitsConserved(s) && Enabled(s, step)
    ensures PermitsConserved(Apply(s, step))
  {
    OneTaskChanges(s, step);
    if ByUpstream(step) {
      UpstreamMovesNothing(s, step);
    } else {
      PermitsMove(s, step);
      CountAfterStep(s, step, HoldsConnection);
      CountAfterStep(s, step, IsConnecting);
    }
  }

  lemma {:induction false} UpstreamMovesNothing(s: Pool, step: Step)
    requires Enabled(s, step) && ByUpstream(step)
    ensures Apply(s, step) == s.(streams := Apply(s, step).streams)
  {
  }

  lemma {:induction false} CountAfterStep(s: Pool, step: Step, p: Task -> bool)
    requires Enabled(s, step) && !ByUpstream(step) && step.who in Apply(s, step).tasks
    ensures Count(Apply(s, step).tasks, p) ==
            Count(s.tasks, p) - (if step.who in s.tasks && p(s.tasks[step.who]) then 1 else 0)
              + (if p(Apply(s, step).tasks[step.who]) then 1 else 0)
  {
    OneTaskChanges(s, step);
    CountAfterPut(s.tasks, step.who, Apply(s, step).tasks[step.who], p);
  }

  lemma {:induction false} PermitsHold(s: Pool, steps: seq<Step>, t: Pool)
    requires PermitsConserved(s) && Runs(s, steps, t)
    ensures PermitsConserved(t) && t.capacity == s.capacity
    decreases |steps|
  {
    if steps != [] {
      PermitStep(s, steps[0]);
      OneTaskChanges(s, steps[0]);
      PermitsHold(Apply(s, steps[0]), steps[1..], t);
    }
  }

  /**
   Permit conservation: over every interleaving of arbitrarily many requests, with failure or
   cancellation at any await, all permits are accounted for; so at most max(1, maxConnections)
   permit-holding connections exist at any time.
   */
  lemma {:induction false} PermitConservation(maxConnections: nat, steps: seq<Step>, t: Pool)
    requires Runs(Initial(maxConnections), steps, t)
    ensures t.free + |t.idle| + Count(t.tasks, HoldsConnection) + Count(t.tasks, IsConnecting) == Max(1, maxConnections)
  {
    var s := Initial(maxConnections);
    CountNone(s.tasks, HoldsConnection);
    CountNone(s.tasks, IsConnecting);
    PermitsHold(s, steps, t);
  }

  // ---------------------------------------------------------------- outcomes

  ghost predicate OutcomesConserved(s: Pool) {
    s.metrics.requests ==
    s.metrics.ok + s.metrics.errors + s.metrics.limited + s.metrics.lost + Count(s.tasks, InHandling)
  }

  function HandlingOf(tasks: map<nat, Task>, t: nat): nat {
    if t in tasks && InHandling(tasks[t]) then 1 else 0
  }

  /** A step counts a request when it comes into handling, and an outcome when it leaves it. */
  lemma {:induction false} OutcomesMove(s: Pool, step: Step)
    requires Enabled(s, step) && !ByUpstream(step)
    ensures var m, n := s.metrics, Apply(s, step).metrics;
            n.requests + m.ok + m.errors + m.limited + m.lost + HandlingOf(s.tasks, step.who) ==
            m.requests + n.ok + n.errors + n.limited + n.lost + HandlingOf(Apply(s, step).tasks, step.who)
  {
  }

  lemma {:induction false} OutcomeStep(s: Pool, step: Step)
    requires OutcomesConserved(s) && Enabled(s, step)
    ensures OutcomesConserved(Apply(s, step))
  {
    OneTaskChanges(s, step);
    if ByUpstream(step) {
      UpstreamMovesNothing(s, step);
    } else {
      OutcomesMove(s, step);
      CountAfterStep(s, step, InHandling);
    }
  }

  /** The two ways a request ends without being counted under any outcome. */
  predicate LosesOutcome(step: Step) {
    step.Cancel? || (step.Rewrite? && !step.encodes)
  }

  predicate NoneLost(steps: seq<Step>) {
    forall i :: 0 <= i < |steps| ==> !LosesOutcome(steps[i])
  }

  lemma {:induction false} OutcomesHold(s: Pool, steps: seq<Step>, t: Pool)
    requires OutcomesConserved(s) && Runs(s, steps, t)
    ensures OutcomesConserved(t) && s.metrics.lost <= t.metrics.lost
    ensures t.metrics.lost == s.metrics.lost <==> NoneLost(steps)
    decreases |steps|
  {
    if steps != [] {
      var u := Apply(s, steps[0]);
      OutcomeStep(s, steps[0]);
      OutcomesHold(u, steps[1..], t);
      assert u.metrics.lost == s.metrics.lost + (if LosesOutcome(steps[0]) then 1 else 0);
      assert NoneLost(steps) <==> !LosesOutcome(steps[0]) && NoneLost(steps[1..]) by {
        assert steps == [steps[0]] + steps[1..];
        assert NoneLost(steps) ==> forall i :: 0 <= i < |steps[1..]| ==> steps[1..][i] == steps[i + 1];
      }
    }
  }

  /**
   Outcome conservation: counted requests = ok + error + rate-limited outcomes + requests still being
   handled, exactly in the runs where no request is cancelled and every error reply can be encoded.
   */
  lemma {:induction false} OutcomeConservation(maxConnections: nat, steps: seq<Step>, t: Pool)
    requires Runs(Initial(maxConnections), steps, t)
    ensures t.metrics.requests == t.metrics.ok + t.metrics.errors + t.metrics.limited + Count(t.tasks, InHandling)
            <==> NoneLost(steps)
  {
    var s := Initial(maxConnections);
    CountNone(s.tasks, InHandling);
    OutcomesHold(s, steps, t);
  }

  // ---------------------------------------------------------------- which counter counts what

  predicate EndedOk(k: Task) {
    k.Finished? && k.outcome.Replied?
  }

  predicate EndedInError(k: Task) {
    k.Finished? && (k.outcome.Failed? || k.outcome.RefusedLocally?)
  }

  predicate EndedLimited(k: Task) {
    k.Finished? && k.outcome.RateLimited?
  }

  predicate Any(k: Task) {
    true
  }

  /** One for a request in such a state, nothing otherwise. */
  function OneIf(tasks: map<nat, Task>, t: nat, p: Task -> bool): nat {
    if t in tasks && p(tasks[t]) then 1 else 0
  }

  /** A step moves each counter by what it does to its request. */
  lemma {:induction false} CountersMove(s: Pool, step: Step)
    requires Enabled(s, step) && !ByUpstream(step)
    ensures var m, n, was, becomes, t := s.metrics, Apply(s, step).metrics, s.tasks, Apply(s, step).tasks, step.who;
            && n.ok - m.ok == OneIf(becomes, t, EndedOk) - OneIf(was, t, EndedOk)
            && n.errors - m.errors == OneIf(becomes, t, EndedInError) - OneIf(was, t, EndedInError)
            && n.limited - m.limited == OneIf(becomes, t, EndedLimited) - OneIf(was, t, EndedLimited)
            && n.requests - m.requests == OneIf(becomes, t, Any) - OneIf(was, t, Any)
  {
  }

  ghost predicate CountersRight(s: Pool) {
    && s.metrics.requests == Count(s.tasks, Any)
    && s.metrics.ok == Count(s.tasks, EndedOk)
    && s.metrics.errors == Count(s.tasks, EndedInError)
    && s.metrics.limited == Count(s.tasks, EndedLimited)
  }

  lemma {:induction false} CountersStep(s: Pool, step: Step)
    requires CountersRight(s) && Enabled(s, step)
    ensures CountersRight(Apply(s, step))
  {
    OneTaskChanges(s, step);
    if ByUpstream(step) {
      UpstreamMovesNothing(s, step);
    } else {
      CountersMove(s, step);
      CountAfterStep(s, step, Any);
      CountAfterStep(s, step, EndedOk);
      CountAfterStep(s, step, EndedInError);
      CountAfterStep(s, step, EndedLimited);
    }
  }

  lemma {:induction false} CountersHold(s: Pool, steps: seq<Step>, t: Pool)
    requires CountersRight(s) && Runs(s, steps, t)
    ensures CountersRight(t)
    decreases |steps|
  {
    if steps != [] {
      CountersStep(s, steps[0]);
      CountersHold(Apply(s, steps[0]), steps[1..], t);
    }
  }

  /**
   What each counter says, in every reachable state: how many requests there have been, how many were
   replied to, how many ended in an error here or upstream, and how many were rate-limited.
   */
  lemma {:induction false} CountersTellOutcomes(maxConnections: nat, steps: seq<Step>, t: Pool)
    requires Runs(Initial(maxConnections), steps, t)
    ensures t.metrics.requests == |t.tasks|
    ensures t.metrics.ok == |set r | r in t.tasks && t.tasks[r].Finished? && t.tasks[r].outcome.Replied?|
    ensures t.metrics.errors ==
            |set r | r in t.tasks && t.tasks[r].Finished? && (t.tasks[r].outcome.Failed? || t.tasks[r].outcome.RefusedLocally?)|
    ensures t.metrics.limited == |set r | r in t.tasks && t.tasks[r].Finished? && t.tasks[r].outcome.RateLimited?|
  {
    var s := Initial(maxConnections);
    assert Those(s.tasks, Any) == {};
    CountNone(s.tasks, EndedOk);
    CountNone(s.tasks, EndedInError);
    CountNone(s.tasks, EndedLimited);
    CountersHold(s, steps, t);
    assert Those(t.tasks, Any) == t.tasks.Keys;
    assert Those(t.tasks, EndedOk) == set r | r in t.tasks && t.tasks[r].Finished? && t.tasks[r].outcome.Replied?;
    assert Those(t.tasks, EndedInError) ==
           set r | r in t.tasks && t.tasks[r].Finished? && (t.tasks[r].outcome.Failed? || t.tasks[r].outcome.RefusedLocally?);
    assert Those(t.tasks, EndedLimited) == set r | r in t.tasks && t.tasks[r].Finished? && t.tasks[r].outcome.RateLimited?;
  }
}
