/** No connection is both idle and held, or held by two requests, or idle twice. */
module PoolOwnership {
  import opened Prelude
  import opened PoolProtocol
  import opened PoolAccounting

  ghost predicate IdleOwned(s: Pool) {
    && (forall i :: 0 <= i < |s.idle| ==> s.idle[i] < |s.streams|)
    && (forall i, j :: 0 <= i < j < |s.idle| ==> s.idle[i] != s.idle[j])
  }

  /** The streams requests hold exist, are not idle, and are held once. */
  ghost predicate HeldOwned(s: Pool) {
    && (forall t :: t in s.tasks && HoldsConnection(s.tasks[t]) ==>
          s.tasks[t].stream < |s.streams| && s.tasks[t].stream !in s.idle)
    && (forall t, u :: t in s.tasks && u in s.tasks && t != u && HoldsConnection(s.tasks[t]) && HoldsConnection(s.tasks[u]) ==>
          s.tasks[t].stream != s.tasks[u].stream)
  }

  ghost predicate Exclusive(s: Pool) {
    IdleOwned(s) && HeldOwned(s)
  }

  /** A request that keeps its stream, or holds none afterwards, disturbs nobody. */
  predicate KeepsStream(s: Pool, t: nat, k: Task) {
    HoldsConnection(k) ==> t in s.tasks && HoldsConnection(s.tasks[t]) && k.stream == s.tasks[t].stream
  }

  lemma {:induction false} KeepingIsExclusive(s: Pool, t: nat, k: Task, s': Pool)
    requires Exclusive(s) && KeepsStream(s, t, k)
    requires s'.tasks == s.tasks[t := k] && s'.idle == s.idle && |s.streams| <= |s'.streams|
    ensures Exclusive(s')
  {
  }

  /** A new connection, or one taken from the idle vector, belongs to nobody else. */
  lemma {:induction false} GainingIsExclusive(s: Pool, t: nat, k: Task, s': Pool)
    requires Exclusive(s) && HoldsConnection(k) && k.stream < |s'.streams|
    requires s'.tasks == s.tasks[t := k] && |s.streams| <= |s'.streams|
    requires || (s'.idle == s.idle && k.stream >= |s.streams|)
             || (s.idle != [] && s'.idle == s.idle[..|s.idle| - 1] && k.stream == s.idle[|s.idle| - 1])
    ensures Exclusive(s')
  {
  }

  lemma {:induction false} ReturningIsExclusive(s: Pool, t: nat)
    requires Exclusive(s) && Enabled(s, Return(t))
    ensures Exclusive(Apply(s, Return(t)))
  {
  }

  lemma {:induction false} ExclusiveStep(s: Pool, step: Step)
    requires Exclusive(s) && Enabled(s, step)
    ensures Exclusive(Apply(s, step))
  {
    var s' := Apply(s, step);
    OneTaskChanges(s, step);
    if step.Return? {
      ReturningIsExclusive(s, step.who);
    } else if !ByUpstream(step) {
      var k := s'.tasks[step.who];
      if step.ConnectOk? || step.ReconnectOk? || (step.TakeIdle? && s.idle != []) {
        GainingIsExclusive(s, step.who, k, s');
      } else {
        KeepingIsExclusive(s, step.who, k, s');
      }
    }
  }

  lemma {:induction false} ExclusiveHolds(s: Pool, steps: seq<Step>, t: Pool)
    requires Exclusive(s) && Runs(s, steps, t)
    ensures Exclusive(t)
    decreases |steps|
  {
    if steps != [] {
      ExclusiveStep(s, steps[0]);
      ExclusiveHolds(Apply(s, steps[0]), steps[1..], t);
    }
  }

  /** Over every run: no stream is idle twice, idle and held, or held by two requests. */
  lemma {:induction false} ConnectionsAreExclusive(maxConnections: nat, steps: seq<Step>, s: Pool)
    requires Runs(Initial(maxConnections), steps, s)
    ensures forall i, j :: 0 <= i < j < |s.idle| ==> s.idle[i] != s.idle[j]
    ensures forall t :: t in s.tasks && HoldsConnection(s.tasks[t]) ==> s.tasks[t].stream !in s.idle
    ensures forall t, u :: t in s.tasks && u in s.tasks && t != u && HoldsConnection(s.tasks[t]) && HoldsConnection(s.tasks[u]) ==>
              s.tasks[t].stream != s.tasks[u].stream
  {
    ExclusiveHolds(Initial(maxConnections), steps, s);
  }
}
