/**
 The ApiVersion latch: a value stored once, then announced to whoever waits.

 Any number of waiters run the check-then-wait loop concurrently with any number of
 attempts to store. A step is one atomic action: creating the `Notified` future,
 checking the cell, resuming after a wake-up, storing, announcing. `Notify` is taken
 at its documented word: `notify_waiters` wakes every future that exists, polled or not,
 and leaves nothing behind for futures created later.
 */
module ApiVersionLatch {
  import opened Prelude
  import opened Events

  datatype Waiter =
    | Looping                 // at the head of the loop
    | Armed(woken: bool)      // holds a Notified future, has not checked the cell yet
    | Parked(woken: bool)     // saw an empty cell, awaits its future
    | Returned(value: Value)

  datatype Latch = Latch(
    cell: Option<Value>,
    announcing: bool,         // a successful store whose notify_waiters is still to come
    announced: bool,          // history: notify_waiters has run
    waiters: map<nat, Waiter>
  )

  datatype Step =
    | Join(who: nat)
    | Arm(who: nat)
    | Check(who: nat)
    | Resume(who: nat)
    | Store(value: Value)     // OnceLock::set: keeps the first value
    | Announce                // notify_waiters

  const Initial := Latch(None, false, false, map[])

  predicate Enabled(s: Latch, step: Step) {
    match step
    case Join(w) => w !in s.waiters
    case Arm(w) => w in s.waiters && s.waiters[w].Looping?
    case Check(w) => w in s.waiters && s.waiters[w].Armed?
    case Resume(w) => w in s.waiters && s.waiters[w].Parked? && s.waiters[w].woken
    case Store(_) => true
    case Announce => s.announcing
  }

  function Wake(w: Waiter): Waiter {
    match w
    case Armed(_) => Armed(true)
    case Parked(_) => Parked(true)
    case other => other
  }

  function Apply(s: Latch, step: Step): Latch
    requires Enabled(s, step)
  {
    match step
    case Join(w) => s.(waiters := s.waiters[w := Looping])
    case Arm(w) => s.(waiters := s.waiters[w := Armed(false)])
    case Check(w) =>
      s.(waiters := s.waiters[w := if s.cell.Some? then Returned(s.cell.value) else Parked(s.waiters[w].woken)])
    case Resume(w) => s.(waiters := s.waiters[w := Looping])
    case Store(v) => if s.cell.None? then s.(cell := Some(v), announcing := true) else s
    case Announce =>
      s.(announcing := false, announced := true, waiters := map w | w in s.waiters :: Wake(s.waiters[w]))
  }

  /** `t` is reached from `s` by taking `steps` in order. */
  ghost predicate Runs(s: Latch, steps: seq<Step>, t: Latch)
    decreases |steps|
  {
    if steps == [] then s == t
    else Enabled(s, steps[0]) && Runs(Apply(s, steps[0]), steps[1..], t)
  }

  /** A waiter that no future announcement is going to wake. */
  predicate Stranded(s: Latch, w: nat) {
    w in s.waiters && s.waiters[w] == Parked(false) && s.cell.Some? && !s.announcing
  }

  ghost predicate Inv(s: Latch) {
    && (s.cell.None? ==> !s.announcing && !s.announced)
    && (s.cell.Some? ==> s.announcing != s.announced)
    && forall w :: w in s.waiters ==>
         && (s.waiters[w] == Parked(false) ==> !s.announced)
         && (s.waiters[w] == Armed(true) || s.waiters[w] == Parked(true) ==> s.announced)
         && (s.waiters[w].Returned? ==> s.cell == Some(s.waiters[w].value))
  }

  lemma {:induction false} InvHolds(s: Latch, steps: seq<Step>, t: Latch)
    requires Inv(s) && Runs(s, steps, t)
    ensures Inv(t)
    ensures s.cell.Some? ==> t.cell == s.cell
    ensures s.announced ==> t.announced
    decreases |steps|
  {
    if steps != [] {
      InvHolds(Apply(s, steps[0]), steps[1..], t);
    }
  }

  /** In no reachable state is a waiter parked with the value there and nothing left to wake it. */
  lemma {:induction false} NoLostWakeUp(steps: seq<Step>, t: Latch, w: nat)
    requires Runs(Initial, steps, t)
    ensures !Stranded(t, w)
  {
    InvHolds(Initial, steps, t);
  }

  /** Every waiter of a run, whenever it returns, returns the value that was stored first. */
  lemma {:induction false} AllReturnTheFirstValue(before: seq<Step>, s: Latch, v: Value, after: seq<Step>, t: Latch, w: nat)
    requires Runs(Initial, before, s) && s.cell.None?
    requires Runs(Apply(s, Store(v)), after, t)
    requires w in t.waiters && t.waiters[w].Returned?
    ensures t.waiters[w].value == v
  {
    InvHolds(Initial, before, s);
    InvHolds(Apply(s, Store(v)), after, t);
  }

  /** How many more of its own steps a waiter needs once the announcement has been made. */
  function StepsToReturn(w: Waiter): nat {
    match w
    case Parked(_) => 3
    case Looping => 2
    case Armed(_) => 1
    case Returned(_) => 0
  }

  /** The waiter a step belongs to. */
  predicate TakenBy(step: Step, w: nat) {
    match step
    case Arm(x) => x == w
    case Check(x) => x == w
    case Resume(x) => x == w
    case _ => false
  }

  /** The next step of a waiter that has not returned. */
  function Turn(s: Latch, w: nat): Step
    requires w in s.waiters && !s.waiters[w].Returned?
  {
    match s.waiters[w]
    case Looping => Arm(w)
    case Armed(_) => Check(w)
    case Parked(_) => Resume(w)
  }

  /**
   After the announcement every waiter can always move, each move brings it strictly
   closer to returning, and nothing the others do sets it back.
   */
  lemma {:induction false} WaitersReturn(steps: seq<Step>, s: Latch, step: Step, w: nat)
    requires Runs(Initial, steps, s) && s.announced
    requires w in s.waiters && Enabled(s, step)
    ensures !s.waiters[w].Returned? ==> Enabled(s, Turn(s, w))
    ensures w in Apply(s, step).waiters && Apply(s, step).announced
    ensures TakenBy(step, w) ==>
              StepsToReturn(Apply(s, step).waiters[w]) < StepsToReturn(s.waiters[w])
    ensures !TakenBy(step, w) ==>
              StepsToReturn(Apply(s, step).waiters[w]) == StepsToReturn(s.waiters[w])
  {
    InvHolds(Initial, steps, s);
  }

  /** So a run in which the waiter gets three turns after the announcement ends with it returned. */
  lemma {:induction false} ThreeTurnsSuffice(steps: seq<Step>, s: Latch, more: seq<Step>, t: Latch, w: nat)
    requires Runs(Initial, steps, s) && s.announced && w in s.waiters
    requires Runs(s, more, t)
    ensures w in t.waiters && StepsToReturn(t.waiters[w]) + TurnsOf(more, w) == StepsToReturn(s.waiters[w])
    decreases |more|
  {
    if more != [] {
      var u := Apply(s, more[0]);
      WaitersReturn(steps, s, more[0], w);
      RunsExtend(Initial, steps, s, more[0]);
      TurnCost(steps, s, more[0], w);
      ThreeTurnsSuffice(steps + [more[0]], u, more[1..], t, w);
    }
  }

  function TurnsOf(steps: seq<Step>, w: nat): nat {
    if steps == [] then 0 else (if TakenBy(steps[0], w) then 1 else 0) + TurnsOf(steps[1..], w)
  }

  /** Each own step counts for exactly one. */
  lemma {:induction false} TurnCost(steps: seq<Step>, s: Latch, step: Step, w: nat)
    requires Runs(Initial, steps, s) && s.announced && w in s.waiters && Enabled(s, step)
    ensures w in Apply(s, step).waiters
    ensures StepsToReturn(Apply(s, step).waiters[w]) ==
            StepsToReturn(s.waiters[w]) - (if TakenBy(step, w) then 1 else 0)
  {
    InvHolds(Initial, steps, s);
  }

  lemma {:induction false} RunsExtend(s: Latch, steps: seq<Step>, t: Latch, step: Step)
    requires Runs(s, steps, t) && Enabled(t, step)
    ensures Runs(s, steps + [step], Apply(t, step))
    decreases |steps|
  {
    var all := steps + [step];
    if steps == [] {
      assert all[1..] == [];
    } else {
      assert all[1..] == steps[1..] + [step];
      RunsExtend(Apply(s, steps[0]), steps[1..], t, step);
    }
  }
}
