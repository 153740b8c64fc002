/**
 The ApiVersion cell as an object: storing with its notification, and the loop that waits for it. Between
 any two atomic actions everybody else may take steps of the latch protocol; the trace records them all.
 */
module ApiVersionObject {
  import opened Prelude
  import opened Events
  import opened ApiVersionLatch

  /** A step somebody other than waiter `w` takes. */
  predicate Foreign(step: Step, w: nat) {
    !TakenBy(step, w) && step != Join(w)
  }

  /** Others cannot move a waiter, only wake it; and a stored value stays. */
  lemma {:induction false} ForeignOnlyWakes(s: Latch, step: Step, w: nat)
    requires Enabled(s, step) && Foreign(step, w) && w in s.waiters
    ensures w in Apply(s, step).waiters
    ensures Apply(s, step).waiters[w] == s.waiters[w] || Apply(s, step).waiters[w] == Wake(s.waiters[w])
    ensures s.cell.Some? ==> Apply(s, step).cell == s.cell
  {
  }

  class ApiVersionCell {
    var latch: Latch
    ghost var trace: seq<Step>

    ghost predicate Valid()
      reads this
    {
      Runs(Initial, trace, latch)
    }

    constructor ()
      ensures Valid() && trace == []
    {
      latch, trace := Initial, [];
    }

    /** One step, by anybody. */
    method Perform(step: Step)
      requires Valid() && Enabled(latch, step)
      modifies this
      ensures Valid() && trace == old(trace) + [step] && latch == Apply(old(latch), step)
    {
      RunsExtend(Initial, trace, latch, step);
      latch := Apply(latch, step);
      trace := trace + [step];
    }

    /** What others may do before waiter `w` goes on. */
    method Await(w: nat)
      requires Valid() && w in latch.waiters
      modifies this
      ensures Valid() && old(trace) <= trace && w in latch.waiters
      ensures latch.waiters[w] == old(latch.waiters[w]) || latch.waiters[w] == Wake(old(latch.waiters[w]))
      ensures old(latch.cell).Some? ==> latch.cell == old(latch.cell)
    {
      var n: nat := *;
      while n > 0
        invariant Valid() && old(trace) <= trace && w in latch.waiters
        invariant latch.waiters[w] == old(latch.waiters[w]) || latch.waiters[w] == Wake(old(latch.waiters[w]))
        invariant old(latch.cell).Some? ==> latch.cell == old(latch.cell)
      {
        var step: Step := *;
        if Enabled(latch, step) && Foreign(step, w) {
          ForeignOnlyWakes(latch, step, w);
          Perform(step);
        }
        n := n - 1;
      }
    }

    /** Stores the value unless there is one, and then wakes everybody who waits. */
    method Remember(data: Value) returns (stored: bool)
      requires Valid()
      modifies this
      ensures Valid() && old(trace) <= trace
      ensures stored <==> old(latch.cell).None?
      ensures latch.cell == if stored then Some(data) else old(latch.cell)
      ensures stored ==> latch.announced
      ensures stored ==> forall w :: w in latch.waiters ==> latch.waiters[w] != Parked(false)
    {
      stored := latch.cell.None?;
      InvHolds(Initial, trace, latch);
      Perform(Store(data));
      if stored {
        Perform(Announce);
      }
    }

    /**
     Waits for the value. The loop goes round at most twice, because a waiter is woken only once the value
     is there; it ends with the value in the cell, or is still parked and then not because it was missed.
     */
    method Wait(w: nat) returns (r: Option<Value>)
      requires Valid() && w !in latch.waiters
      modifies this
      ensures Valid() && old(trace) <= trace && w in latch.waiters
      ensures r.Some? ==> latch.waiters[w] == Returned(r.value) && latch.cell == r
      ensures r.None? ==> latch.waiters[w] == Parked(false) && !latch.announced
      ensures old(latch.cell).Some? ==> r == old(latch.cell)
    {
      Perform(Join(w));
      while true
        invariant Valid() && old(trace) <= trace && w in latch.waiters && latch.waiters[w] == Looping
        invariant old(latch.cell).Some? ==> latch.cell == old(latch.cell)
        decreases if latch.cell.None? then 1 else 0
      {
        Await(w);
        Perform(Arm(w));
        Await(w);
        Perform(Check(w));
        if latch.waiters[w].Returned? {
          return Some(latch.waiters[w].value);
        }
        Await(w);
        InvHolds(Initial, trace, latch);
        if !latch.waiters[w].woken {
          return None;
        }
        Perform(Resume(w));
      }
    }
  }
}
