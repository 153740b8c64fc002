/**
 The upstream listener as a step system: it receives events from the upstream log, moves its
 in-memory cursor, tries to persist the cursor, pushes the event to the bus; its connection can
 end at any time, and so can the whole process.

 Environment: upstream keeps its log, whose events carry strictly increasing ids, and a connection
 opened with `start_from` replays inclusively from that id; one opened without starts anywhere.
 Writing the cursor to the store may fail.
 */
module Ingest {
  import opened Prelude
  import opened Events

  /** An upstream event; `json` is None when it does not serialise. */
  datatype Item = Item(id: nat, isApiVersion: bool, json: Option<Value>) {
    predicate Pushable() {
      !isApiVersion && json.Some?
    }
  }

  type Log = seq<Item>

  predicate Increasing(log: Log) {
    forall i, j :: 0 <= i < j < |log| ==> log[i].id < log[j].id
  }

  /** Where inclusive replay from `id` starts: at the first event numbered `id` or higher. */
  function ReplayIndex(log: Log, id: nat): (i: nat)
    ensures i <= |log|
    ensures forall j :: 0 <= j < i ==> log[j].id < id
    ensures i < |log| ==> log[i].id >= id
  {
    if log == [] || log[0].id >= id then 0 else 1 + ReplayIndex(log[1..], id)
  }

  /** The event being handled: just received, or past the attempt to persist the cursor. */
  datatype Hand = Empty | Received(index: nat) | Persisted(index: nat)

  datatype Listener = Listener(
    cursor: Option<nat>,      // start_from, in memory
    store: Option<nat>,       // the persisted id
    connection: Option<nat>,  // index of the next event the open connection will bring
    hand: Hand,
    connects: nat,            // iterations of the reconnect loop since the process started
    completed: seq<nat>,      // history: log indices handled to the end since the process started
    pushed: seq<nat>,         // history: log indices pushed to the bus since the process started
    handled: set<nat>,        // history: log indices handled to the end, over all processes
    seen: set<nat>            // history: log indices ever received, over all processes
  )

  datatype Step =
    | Connect(start: nat)
    | ConnectFails
    | Receive
    | Persist(written: bool)
    | Deliver
    | Disconnect
    | Restart(loads: bool)

  /** A process that started by loading the stored cursor. */
  function Initial(store: Option<nat>): Listener {
    Listener(store, store, None, Empty, 0, [], [], {}, {})
  }

  predicate Enabled(log: Log, s: Listener, step: Step) {
    match step
    case Connect(start) =>
      && s.connection.None? && s.hand.Empty?
      && (if s.cursor.Some? then start == ReplayIndex(log, s.cursor.value) else start <= |log|)
    case ConnectFails => s.connection.None? && s.hand.Empty?
    case Receive => s.connection.Some? && s.hand.Empty? && s.connection.value < |log|
    case Persist(_) => s.hand.Received? && s.hand.index < |log|
    case Deliver => s.hand.Persisted? && s.hand.index < |log|
    case Disconnect => s.connection.Some? && s.hand.Empty?
    case Restart(_) => true
  }

  function Apply(log: Log, s: Listener, step: Step): Listener
    requires Enabled(log, s, step)
  {
    match step
    case Connect(start) => s.(connection := Some(start), connects := s.connects + 1)
    case ConnectFails => s.(connects := s.connects + 1)
    case Receive =>
      var i := s.connection.value;
      s.(cursor := Some(log[i].id), connection := Some(i + 1), hand := Received(i), seen := s.seen + {i})
    case Persist(written) =>
      s.(hand := Persisted(s.hand.index), store := if written then Some(log[s.hand.index].id) else s.store)
    case Deliver =>
      var i := s.hand.index;
      s.(hand := Empty, completed := s.completed + [i], handled := s.handled + {i},
         pushed := if log[i].Pushable() then s.pushed + [i] else s.pushed)
    case Disconnect => s.(connection := None)
    case Restart(loads) =>
      Listener(if loads then s.store else None, s.store, None, Empty, 0, [], [], s.handled, s.seen)
  }

  ghost predicate Runs(log: Log, s: Listener, steps: seq<Step>, t: Listener)
    decreases |steps|
  {
    if steps == [] then s == t
    else Enabled(log, s, steps[0]) && Runs(log, Apply(log, s, steps[0]), steps[1..], t)
  }

  // ---------------------------------------------------------------- one process: reconnects

  /** Each index is the previous one again, or the next. */
  predicate Chain(indices: seq<nat>) {
    |indices| <= 1 ||
    var init := indices[..|indices| - 1];
    Chain(init) && Follows(init, Last(indices))
  }

  predicate Follows(indices: seq<nat>, i: nat) {
    indices != [] ==> i == Last(indices) || i == Last(indices) + 1
  }

  function Last(indices: seq<nat>): nat
    requires indices != []
  {
    indices[|indices| - 1]
  }

  /** Adjacent repeats collapsed. */
  function Collapse(indices: seq<nat>): seq<nat> {
    if |indices| <= 1 then indices
    else
      var init := indices[..|indices| - 1];
      if Last(indices) == Last(init) then Collapse(init) else Collapse(init) + [Last(indices)]
  }

  /** How many elements collapsing removes. */
  function Repeats(indices: seq<nat>): nat {
    if |indices| <= 1 then 0
    else
      var init := indices[..|indices| - 1];
      Repeats(init) + (if Last(indices) == Last(init) then 1 else 0)
  }

  lemma {:induction false} CollapseRemovesRepeats(indices: seq<nat>)
    ensures |indices| == |Collapse(indices)| + Repeats(indices)
    decreases |indices|
  {
    if |indices| > 1 {
      CollapseRemovesRepeats(indices[..|indices| - 1]);
    }
  }

  /** The log indices from `lo` up to, not including, `hi`. */
  function Span(lo: nat, hi: nat): seq<nat> {
    if hi <= lo then [] else Span(lo, hi - 1) + [hi - 1]
  }

  /** A chain of indices collapses to a contiguous span. */
  lemma {:induction false} ChainCollapsesToSpan(indices: seq<nat>)
    requires Chain(indices) && indices != []
    ensures indices[0] <= Last(indices)
    ensures Collapse(indices) == Span(indices[0], Last(indices) + 1)
    decreases |indices|
  {
    if |indices| == 1 {
      assert Span(indices[0], indices[0]) == [];
    } else {
      var init := indices[..|indices| - 1];
      ChainCollapsesToSpan(init);
    }
  }

  predicate Good(log: Log, i: nat) {
    i < |log| && log[i].Pushable()
  }

  /** The indices whose events are pushed, rather than remembered or dropped. */
  function PushableOnly(log: Log, indices: seq<nat>): seq<nat> {
    if indices == [] then []
    else PushableOnly(log, indices[..|indices| - 1]) + (if Good(log, Last(indices)) then [Last(indices)] else [])
  }

  lemma {:induction false} CollapseSnoc(indices: seq<nat>, i: nat)
    ensures Collapse(indices + [i]) ==
            if indices != [] && Last(indices) == i then Collapse(indices) else Collapse(indices) + [i]
    ensures Repeats(indices + [i]) == Repeats(indices) + (if indices != [] && Last(indices) == i then 1 else 0)
  {
  }

  lemma {:induction false} PushableSnoc(log: Log, indices: seq<nat>, i: nat)
    ensures PushableOnly(log, indices + [i]) == PushableOnly(log, indices) + (if Good(log, i) then [i] else [])
  {
  }

  lemma {:induction false} ChainSnoc(indices: seq<nat>, i: nat)
    ensures Chain(indices + [i]) <==> Chain(indices) && Follows(indices, i)
  {
  }

  /** The pushable part of a chain never runs past it, and ends where it ends iff that event is pushable. */
  lemma {:induction false} PushableEnd(log: Log, indices: seq<nat>)
    requires Chain(indices) && indices != []
    ensures var p, i := PushableOnly(log, indices), Last(indices);
            && (Good(log, i) ==> p != [] && Last(p) == i)
            && (!Good(log, i) && p != [] ==> Last(p) < i)
    decreases |indices|
  {
    var n := |indices| - 1;
    var init, i := indices[..n], indices[n];
    assert indices == init + [i];
    ChainSnoc(init, i);
    PushableSnoc(log, init, i);
    if init != [] {
      PushableEnd(log, init);
    }
  }

  /** Collapsing and filtering a chain commute, and filtering adds no repeats. */
  lemma {:induction false} CollapsePushable(log: Log, indices: seq<nat>)
    requires Chain(indices)
    ensures Collapse(PushableOnly(log, indices)) == PushableOnly(log, Collapse(indices))
    ensures Repeats(PushableOnly(log, indices)) <= Repeats(indices)
    decreases |indices|
  {
    if indices != [] {
      var n := |indices| - 1;
      var init, i := indices[..n], indices[n];
      assert indices == init + [i];
      ChainSnoc(init, i);
      CollapsePushable(log, init);
      CollapsePushableSnoc(log, init, i);
    }
  }

  lemma {:induction false} CollapsePushableSnoc(log: Log, init: seq<nat>, i: nat)
    requires Chain(init) && Follows(init, i)
    requires Collapse(PushableOnly(log, init)) == PushableOnly(log, Collapse(init))
    requires Repeats(PushableOnly(log, init)) <= Repeats(init)
    ensures Collapse(PushableOnly(log, init + [i])) == PushableOnly(log, Collapse(init + [i]))
    ensures Repeats(PushableOnly(log, init + [i])) <= Repeats(init + [i])
  {
    var p := PushableOnly(log, init);
    CollapseSnoc(init, i);
    PushableSnoc(log, init, i);
    if init != [] {
      PushableEnd(log, init);
    }
    if Good(log, i) {
      CollapseSnoc(p, i);
    } else {
      assert p + [] == p;
    }
    if init == [] || Last(init) != i {
      PushableSnoc(log, Collapse(init), i);
    }
  }

  /** All of a span is pushable when all of the log is. */
  lemma {:induction false} SpanAllPushable(log: Log, lo: nat, hi: nat)
    requires hi <= |log| && forall i :: 0 <= i < |log| ==> log[i].Pushable()
    ensures PushableOnly(log, Span(lo, hi)) == Span(lo, hi)
    decreases hi
  {
    if lo < hi {
      SpanAllPushable(log, lo, hi - 1);
      PushableSnoc(log, Span(lo, hi - 1), hi - 1);
    }
  }

  /** What holds while one process runs, however often its connection breaks. */
  ghost predicate ProcessInv(log: Log, s: Listener) {
    && Chain(s.completed)
    && s.pushed == PushableOnly(log, s.completed)
    && (s.connection.Some? || s.completed != [] ==> s.connects >= 1)
    && (!s.hand.Empty? ==>
          && s.hand.index < |log| && Follows(s.completed, s.hand.index)
          && s.connection == Some(s.hand.index + 1)
          && s.cursor == Some(log[s.hand.index].id))
    && (s.hand.Empty? && s.connection.Some? ==> Follows(s.completed, s.connection.value))
    && (s.completed != [] ==>
          && Last(s.completed) < |log|
          && (s.hand.Empty? ==> s.cursor == Some(log[Last(s.completed)].id))
          && Repeats(s.completed) + RepeatDue(s) <= s.connects - 1)
  }

  /** One if the event coming in, or about to, is the last completed one again. */
  function RepeatDue(s: Listener): nat {
    if s.completed == [] then 0
    else
      var last := Last(s.completed);
      if (if s.hand.Empty? then s.connection == Some(last) else s.hand.index == last) then 1 else 0
  }

  lemma {:induction false} ConnectKeepsProcessInv(log: Log, s: Listener, start: nat)
    requires Increasing(log) && ProcessInv(log, s) && Enabled(log, s, Connect(start))
    ensures ProcessInv(log, Apply(log, s, Connect(start)))
  {
  }

  lemma {:induction false} DeliverKeepsProcessInv(log: Log, s: Listener)
    requires ProcessInv(log, s) && Enabled(log, s, Deliver)
    ensures ProcessInv(log, Apply(log, s, Deliver))
  {
  }

  lemma {:induction false} ProcessInvStep(log: Log, s: Listener, step: Step)
    requires Increasing(log) && ProcessInv(log, s) && Enabled(log, s, step)
    ensures ProcessInv(log, Apply(log, s, step))
  {
    match step {
      case Connect(start) => ConnectKeepsProcessInv(log, s, start);
      case Deliver => DeliverKeepsProcessInv(log, s);
      case _ =>
    }
  }

  lemma {:induction false} ProcessInvHolds(log: Log, s: Listener, steps: seq<Step>, t: Listener)
    requires Increasing(log) && ProcessInv(log, s) && Runs(log, s, steps, t)
    ensures ProcessInv(log, t)
    decreases |steps|
  {
    if steps != [] {
      ProcessInvStep(log, s, steps[0]);
      ProcessInvHolds(log, Apply(log, s, steps[0]), steps[1..], t);
    }
  }

  /**
   Ingestion across reconnects. In every run, once adjacent repeats are collapsed, what the current
   process pushed to the bus is the pushable part of one contiguous stretch of the upstream log,
   and the repeats number at most the reconnects.
   */
  lemma {:induction false} PushedIsContiguous(log: Log, store: Option<nat>, steps: seq<Step>, t: Listener)
    requires Increasing(log) && Runs(log, Initial(store), steps, t)
    ensures t.completed == [] ==> t.pushed == []
    ensures t.completed != [] ==>
              && t.completed[0] <= Last(t.completed) < |log|
              && Collapse(t.pushed) == PushableOnly(log, Span(t.completed[0], Last(t.completed) + 1))
              && Repeats(t.pushed) <= t.connects - 1
  {
    ProcessInvHolds(log, Initial(store), steps, t);
    if t.completed != [] {
      CollapsePushable(log, t.completed);
      ChainCollapsesToSpan(t.completed);
    }
  }

  /** When every upstream event serialises and none is an ApiVersion, that stretch is pushed whole. */
  lemma {:induction false} PushedIsSegmentOfLog(log: Log, store: Option<nat>, steps: seq<Step>, t: Listener)
    requires Increasing(log) && (forall i :: 0 <= i < |log| ==> log[i].Pushable())
    requires Runs(log, Initial(store), steps, t) && t.completed != []
    ensures Collapse(t.pushed) == Span(t.completed[0], Last(t.completed) + 1)
    ensures |t.pushed| <= Last(t.completed) + 1 - t.completed[0] + (t.connects - 1)
  {
    PushedIsContiguous(log, store, steps, t);
    var lo, hi := t.completed[0], Last(t.completed) + 1;
    SpanAllPushable(log, lo, hi);
    CollapseRemovesRepeats(t.pushed);
    SpanLength(lo, hi);
  }

  lemma {:induction false} SpanLength(lo: nat, hi: nat)
    ensures |Span(lo, hi)| == if hi <= lo then 0 else hi - lo
    decreases hi
  {
    if lo < hi {
      SpanLength(lo, hi - 1);
    }
  }
}
