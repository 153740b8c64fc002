/** What the persisted cursor guarantees when the process stops and starts again. */
module RestartSafety {
  import opened Prelude
  import opened Ingest

  // ---------------------------------------------------------------- what the store can hold

  ghost predicate StoreInv(log: Log, initial: Option<nat>, s: Listener) {
    && (!s.hand.Empty? ==> s.hand.index in s.seen)
    && (forall k :: k in s.seen ==> k < |log|)
    && (s.store == initial || exists k :: k in s.seen && s.store == Some(log[k].id))
  }

  /**
   Whatever writes fail, connections break and processes die: the persisted cursor is the value
   it had to begin with, or the id of an event that was received.
   */
  lemma {:induction false} StoreIsInitialOrReceived(
    log: Log, initial: Option<nat>, s: Listener, steps: seq<Step>, t: Listener)
    requires StoreInv(log, initial, s) && Runs(log, s, steps, t)
    ensures StoreInv(log, initial, t)
    decreases |steps|
  {
    if steps != [] {
      var step, u := steps[0], Apply(log, s, steps[0]);
      if step.Persist? && step.written {
        assert s.hand.index in u.seen && u.store == Some(log[s.hand.index].id);
      } else if s.store != initial {
        var k :| k in s.seen && s.store == Some(log[k].id);
        assert k in u.seen;
      }
      StoreIsInitialOrReceived(log, initial, u, steps[1..], t);
    }
  }

  // ---------------------------------------------------------------- the store never runs ahead

  /** Every restart of the run finds the stored cursor, if there is one. */
  ghost predicate AlwaysLoads(log: Log, s: Listener, steps: seq<Step>)
    decreases |steps|
  {
    steps == [] ||
    (Enabled(log, s, steps[0]) &&
     (steps[0].Restart? ==> steps[0].loads || s.store.None?) &&
     AlwaysLoads(log, Apply(log, s, steps[0]), steps[1..]))
  }

  predicate NotAhead(s: Listener) {
    s.store.Some? ==> s.cursor.Some? && s.store.value <= s.cursor.value
  }

  predicate CursorInv(log: Log, s: Listener) {
    && NotAhead(s)
    && (!s.hand.Empty? ==> s.hand.index < |log| && s.cursor == Some(log[s.hand.index].id))
    && (s.connection.Some? && s.connection.value < |log| && s.cursor.Some? ==>
          s.cursor.value <= log[s.connection.value].id)
    && (!s.hand.Empty? ==> s.connection == Some(s.hand.index + 1))
  }

  lemma {:induction false} CursorInvStep(log: Log, s: Listener, step: Step)
    requires Increasing(log) && CursorInv(log, s) && Enabled(log, s, step)
    requires step.Restart? ==> step.loads || s.store.None?
    ensures CursorInv(log, Apply(log, s, step))
    ensures s.cursor.Some? && !step.Restart? ==>
              Apply(log, s, step).cursor.Some? && s.cursor.value <= Apply(log, s, step).cursor.value
  {
  }

  lemma {:induction false} StoreNeverAhead(log: Log, s: Listener, steps: seq<Step>, t: Listener)
    requires Increasing(log) && CursorInv(log, s) && Runs(log, s, steps, t) && AlwaysLoads(log, s, steps)
    ensures CursorInv(log, t)
    decreases |steps|
  {
    if steps != [] {
      CursorInvStep(log, s, steps[0]);
      StoreNeverAhead(log, Apply(log, s, steps[0]), steps[1..], t);
    }
  }

  /** In every run that loads what it stored, the persisted cursor never exceeds the one in memory. */
  lemma {:induction false} PersistedCursorIsBehind(log: Log, store: Option<nat>, steps: seq<Step>, t: Listener)
    requires Increasing(log) && Runs(log, Initial(store), steps, t) && AlwaysLoads(log, Initial(store), steps)
    ensures NotAhead(t)
    ensures t.store == store || exists k :: k in t.seen && k < |log| && t.store == Some(log[k].id)
  {
    StoreNeverAhead(log, Initial(store), steps, t);
    StoreIsInitialOrReceived(log, store, Initial(store), steps, t);
  }

  /** The persisted cursor is behind the one in memory in every state along the run. */
  ghost predicate NeverAhead(log: Log, s: Listener, steps: seq<Step>)
    decreases |steps|
  {
    NotAhead(s) &&
    (steps != [] ==> Enabled(log, s, steps[0]) && NeverAhead(log, Apply(log, s, steps[0]), steps[1..]))
  }

  lemma {:induction false} NeverAheadIff(log: Log, s: Listener, steps: seq<Step>, t: Listener)
    requires Increasing(log) && CursorInv(log, s) && Runs(log, s, steps, t)
    ensures NeverAhead(log, s, steps) <==> AlwaysLoads(log, s, steps)
    decreases |steps|
  {
    if steps != [] {
      var step, u := steps[0], Apply(log, s, steps[0]);
      if step.Restart? && !step.loads && s.store.Some? {
        assert !NotAhead(u);
      } else {
        CursorInvStep(log, s, step);
        NeverAheadIff(log, u, steps[1..], t);
      }
    }
  }

  /** That condition is exact: the store is behind all along a run iff every restart loads it, if it holds anything. */
  lemma {:induction false} NeverAheadIffAlwaysLoads(log: Log, store: Option<nat>, steps: seq<Step>, t: Listener)
    requires Increasing(log) && Runs(log, Initial(store), steps, t)
    ensures NeverAhead(log, Initial(store), steps) <==> AlwaysLoads(log, Initial(store), steps)
  {
    NeverAheadIff(log, Initial(store), steps, t);
  }

  // ---------------------------------------------------------------- no event is skipped

  /** The indices from `lo` up to, not including, `hi`. */
  function Interval(lo: nat, hi: nat): (r: set<nat>)
    ensures forall i :: i in r <==> lo <= i < hi
  {
    if hi <= lo then {} else Interval(lo, hi - 1) + {hi - 1}
  }

  predicate Within(log: Log, id: nat, lo: nat, hi: nat) {
    lo <= ReplayIndex(log, id) <= hi
  }

  /** Nothing received yet: whatever comes first is what the stored cursor points to. */
  predicate Fresh(log: Log, s: Listener) {
    && s.seen == {} && s.handled == {} && s.hand.Empty? && s.cursor == s.store
    && (s.connection.Some? && s.cursor.Some? ==> s.connection.value == ReplayIndex(log, s.cursor.value))
  }

  /**
   Everything from `lo` up to `hi` has been handled, and neither the open connection nor a cursor,
   in memory or stored, points beyond `hi`.
   */
  predicate Covers(log: Log, s: Listener, lo: nat, hi: nat) {
    && lo <= hi <= |log|
    && s.handled == Interval(lo, hi)
    && (if s.hand.Empty? then s.connection.Some? ==> lo <= s.connection.value <= hi
        else lo <= s.hand.index <= hi && s.hand.index < |log| && s.connection == Some(s.hand.index + 1))
    && s.cursor.Some? && Within(log, s.cursor.value, lo, hi)
    && (s.store.Some? ==> Within(log, s.store.value, lo, hi))
  }

  /** Every restart of the run resumes from a stored cursor, unless nothing has happened yet. */
  ghost predicate AlwaysResumes(log: Log, s: Listener, steps: seq<Step>)
    decreases |steps|
  {
    steps == [] ||
    (Enabled(log, s, steps[0]) &&
     (steps[0].Restart? ==> steps[0].loads && (s.store.Some? || s.seen == {})) &&
     AlwaysResumes(log, Apply(log, s, steps[0]), steps[1..]))
  }

  lemma {:induction false} FirstReceive(log: Log, s: Listener)
    requires Increasing(log) && Fresh(log, s) && Enabled(log, s, Receive)
    ensures Covers(log, Apply(log, s, Receive), s.connection.value, s.connection.value)
  {
  }

  /** How far everything is handled after a step. */
  function Frontier(s: Listener, step: Step, hi: nat): nat {
    if step.Deliver? && !s.hand.Empty? && s.hand.index == hi then hi + 1 else hi
  }

  lemma {:induction false} DeliverCovers(log: Log, s: Listener, lo: nat, hi: nat)
    requires Covers(log, s, lo, hi) && Enabled(log, s, Deliver)
    ensures Covers(log, Apply(log, s, Deliver), lo, Frontier(s, Deliver, hi))
  {
  }

  lemma {:induction false} ReceiveCovers(log: Log, s: Listener, lo: nat, hi: nat)
    requires Increasing(log) && Covers(log, s, lo, hi) && Enabled(log, s, Receive)
    ensures Covers(log, Apply(log, s, Receive), lo, hi)
  {
  }

  lemma {:induction false} PersistCovers(log: Log, s: Listener, written: bool, lo: nat, hi: nat)
    requires Increasing(log) && Covers(log, s, lo, hi) && Enabled(log, s, Persist(written))
    ensures Covers(log, Apply(log, s, Persist(written)), lo, hi)
  {
  }

  lemma {:induction false} CoversStep(log: Log, s: Listener, step: Step, lo: nat, hi: nat)
    requires Increasing(log) && Covers(log, s, lo, hi) && Enabled(log, s, step)
    requires step.Restart? ==> step.loads && s.store.Some?
    ensures Covers(log, Apply(log, s, step), lo, Frontier(s, step, hi))
  {
    match step {
      case Receive => ReceiveCovers(log, s, lo, hi);
      case Persist(written) => PersistCovers(log, s, written, lo, hi);
      case Deliver => DeliverCovers(log, s, lo, hi);
      case _ =>
    }
  }

  lemma {:induction false} CoversHolds(log: Log, s: Listener, steps: seq<Step>, t: Listener, lo: nat, hi: nat)
    returns (hi': nat)
    requires Increasing(log) && Covers(log, s, lo, hi) && s.seen != {}
    requires Runs(log, s, steps, t) && AlwaysResumes(log, s, steps)
    ensures hi <= hi' && Covers(log, t, lo, hi')
    decreases |steps|
  {
    hi' := hi;
    if steps != [] {
      CoversStep(log, s, steps[0], lo, hi);
      hi' := CoversHolds(log, Apply(log, s, steps[0]), steps[1..], t, lo, Frontier(s, steps[0], hi));
    }
  }

  lemma {:induction false} FreshOrCovers(log: Log, s: Listener, steps: seq<Step>, t: Listener)
    returns (lo: nat, hi: nat)
    requires Increasing(log) && Fresh(log, s)
    requires Runs(log, s, steps, t) && AlwaysResumes(log, s, steps)
    ensures Fresh(log, t) || Covers(log, t, lo, hi)
    decreases |steps|
  {
    lo, hi := 0, 0;
    if steps != [] {
      var u := Apply(log, s, steps[0]);
      if steps[0].Receive? {
        FirstReceive(log, s);
        lo := s.connection.value;
        assert lo in u.seen;
        hi := CoversHolds(log, u, steps[1..], t, lo, lo);
      } else {
        lo, hi := FreshOrCovers(log, u, steps[1..], t);
      }
    }
  }

  ghost predicate NoHoles(indices: set<nat>) {
    forall a, b, m :: a in indices && b in indices && a <= m <= b ==> m in indices
  }

  /**
   Restart safety: over any number of processes, each resuming from the stored cursor, and wherever
   each of them stopped (also between writing the cursor and pushing the event), the events handled
   leave no hole in the upstream log, and what the open connection brings next is no further than
   the first event not handled yet.
   */
  lemma {:induction false} RestartsSkipNothing(log: Log, store: Option<nat>, steps: seq<Step>, t: Listener)
    requires Increasing(log) && Runs(log, Initial(store), steps, t) && AlwaysResumes(log, Initial(store), steps)
    ensures NoHoles(t.handled)
    ensures t.handled != {} && t.hand.Empty? && t.connection.Some? ==>
              t.connection.value in t.handled || (t.connection.value > 0 && t.connection.value - 1 in t.handled)
  {
    var lo, hi := FreshOrCovers(log, Initial(store), steps, t);
    if t.handled != {} {
      var some :| some in t.handled;
      assert Covers(log, t, lo, hi) && lo <= some < hi;
    }
  }

  /**
   And exactly when: with everything before `hi` handled, a restart is sure to bring event `hi` next or
   something before it iff it resumes from a stored cursor, or the log ends there.
   */
  lemma {:induction false} RestartIsSureIff(log: Log, s: Listener, loads: bool, lo: nat, hi: nat)
    requires Covers(log, s, lo, hi)
    ensures (forall start: nat :: Enabled(log, Apply(log, s, Restart(loads)), Connect(start)) ==> start <= hi)
            <==> (loads && s.store.Some?) || hi == |log|
  {
    var u := Apply(log, s, Restart(loads));
    if !(loads && s.store.Some?) && hi < |log| {
      assert Enabled(log, u, Connect(|log|));
    }
  }

  /** The run in which the store cannot be read after a crash, and an event is never seen. */
  lemma {:induction false} UnreadableStoreCanSkip(log: Log, a: nat, b: nat, c: nat)
    requires Increasing(log) && |log| == 3 && log[0].id == a && log[1].id == b && log[2].id == c
    ensures exists steps, t :: Runs(log, Initial(None), steps, t) && !NoHoles(t.handled)
  {
    var once := [Receive, Persist(true), Deliver];
    var s0 := Initial(None);
    var s1 := Apply(log, s0, Connect(0));
    var s2 := Handle(log, s1);
    var s3 := Apply(log, s2, Restart(false));
    var s4 := Apply(log, s3, Connect(2));
    var t := Handle(log, s4);
    RunHandle(log, s4, [], t, t);
    assert Runs(log, s3, [Connect(2)] + (once + []), t) by { Prepend(log, s3, Connect(2), once + [], t); }
    Prepend(log, s2, Restart(false), [Connect(2)] + (once + []), t);
    RunHandle(log, s1, [Restart(false)] + ([Connect(2)] + (once + [])), s2, t);
    Prepend(log, s0, Connect(0), once + ([Restart(false)] + ([Connect(2)] + (once + []))), t);
    assert 0 in t.handled && 2 in t.handled && 1 !in t.handled;
  }

  /** Receive, persist, deliver. */
  function Handle(log: Log, s: Listener): Listener
    requires Enabled(log, s, Receive)
  {
    Apply(log, Apply(log, Apply(log, s, Receive), Persist(true)), Deliver)
  }

  lemma {:induction false} Prepend(log: Log, s: Listener, step: Step, steps: seq<Step>, t: Listener)
    requires Enabled(log, s, step) && Runs(log, Apply(log, s, step), steps, t)
    ensures Runs(log, s, [step] + steps, t)
  {
  }

  lemma {:induction false} RunHandle(log: Log, s: Listener, steps: seq<Step>, u: Listener, t: Listener)
    requires Enabled(log, s, Receive) && u == Handle(log, s) && Runs(log, u, steps, t)
    ensures Runs(log, s, [Receive, Persist(true), Deliver] + steps, t)
  {
  }
}
