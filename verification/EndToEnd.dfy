/**
 From the upstream log to a client: whatever the reconnects of the listener and the interleavings of
 the bus, a client that does not lag at a cost is sent a contiguous stretch of the upstream log.
 */
module EndToEnd {
  import opened Prelude
  import opened Events
  import opened Ingest
  import opened ListenerSpec
  import Bus = BusProtocol
  import BusTheorems

  // ---------------------------------------------------------------- stretches of a chain

  lemma {:induction false} ChainPrefix(chain: seq<nat>, j: nat)
    requires Chain(chain) && j <= |chain|
    ensures Chain(chain[..j]) && Repeats(chain[..j]) <= Repeats(chain)
    decreases |chain|
  {
    var n := |chain| - 1;
    if j <= n {
      assert chain[..n][..j] == chain[..j];
      if |chain| > 1 {
        ChainPrefix(chain[..n], j);
      }
    } else {
      Whole(chain);
    }
  }

  lemma {:induction false} ChainSuffix(chain: seq<nat>, i: nat)
    requires Chain(chain) && i <= |chain|
    ensures Chain(chain[i..]) && Repeats(chain[i..]) <= Repeats(chain)
    decreases |chain|
  {
    var n := |chain| - 1;
    if i < n {
      var init := chain[..n];
      ChainSuffix(init, i);
      assert chain[i..] == init[i..] + [chain[n]];
      ChainSnoc(init[i..], chain[n]);
      CollapseSnoc(init[i..], chain[n]);
    }
  }

  /** A beginning of what was pushed comes from a beginning of what was handled... */
  lemma {:induction false} CutBack(log: Log, chain: seq<nat>, b: nat) returns (j: nat)
    requires b <= |PushableOnly(log, chain)|
    ensures j <= |chain| && PushableOnly(log, chain[..j]) == PushableOnly(log, chain)[..b]
    decreases |chain|
  {
    if b == |PushableOnly(log, chain)| {
      j := |chain|;
      Whole(chain);
      Whole(PushableOnly(log, chain));
    } else {
      var n := |chain| - 1;
      j := CutBack(log, chain[..n], b);
      assert chain[..n][..j] == chain[..j];
    }
  }

  /** ... and an end of it from an end. */
  lemma {:induction false} CutFront(log: Log, chain: seq<nat>, a: nat) returns (i: nat)
    requires a <= |PushableOnly(log, chain)|
    ensures i <= |chain| && PushableOnly(log, chain[i..]) == PushableOnly(log, chain)[a..]
    decreases |chain|
  {
    if a == |PushableOnly(log, chain)| {
      i := |chain|;
    } else {
      var n := |chain| - 1;
      var init, last := chain[..n], chain[n];
      var p, more := PushableOnly(log, init), if Good(log, last) then [last] else [];
      i := CutFront(log, init, a);
      assert chain[i..] == init[i..] + [last];
      PushableSnoc(log, init[i..], last);
      assert (p + more)[a..] == p[a..] + more;
    }
  }

  lemma {:induction false} CutBoth(log: Log, chain: seq<nat>, a: nat, b: nat) returns (stretch: seq<nat>)
    requires Chain(chain) && a <= b <= |PushableOnly(log, chain)|
    ensures PushableOnly(log, stretch) == PushableOnly(log, chain)[a..b]
    ensures Chain(stretch) && Repeats(stretch) <= Repeats(chain)
    ensures stretch != [] ==> chain != [] && Last(stretch) <= Last(chain)
  {
    var all := PushableOnly(log, chain);
    var j := CutBack(log, chain, b);
    var front := chain[..j];
    ChainPrefix(chain, j);
    var i := CutFront(log, front, a);
    stretch := front[i..];
    ChainSuffix(front, i);
    assert all[..b][a..] == all[a..b];
    if stretch != [] {
      ChainStays(chain, j - 1);
    }
  }

  /** Any stretch of a process's pushes, with repeats collapsed, is the pushable part of a stretch of the log. */
  lemma {:induction false} StretchOfPushes(log: Log, s: Listener, a: nat, b: nat) returns (lo: nat, hi: nat)
    requires ProcessInv(log, s) && a <= b <= |s.pushed|
    ensures lo <= hi <= |log|
    ensures Collapse(s.pushed[a..b]) == PushableOnly(log, Span(lo, hi))
    ensures a < b ==> Repeats(s.pushed[a..b]) <= s.connects - 1
  {
    var stretch := CutBoth(log, s.completed, a, b);
    CollapsePushable(log, stretch);
    lo, hi := 0, 0;
    if stretch != [] {
      ChainCollapsesToSpan(stretch);
      lo, hi := stretch[0], Last(stretch) + 1;
    }
  }

  /** A chain does not go beyond its last index. */
  lemma {:induction false} ChainStays(chain: seq<nat>, k: nat)
    requires Chain(chain) && k < |chain|
    ensures chain[k] <= Last(chain)
    decreases |chain|
  {
    var n := |chain| - 1;
    if k < n {
      ChainStays(chain[..n], k);
    }
  }

  // ---------------------------------------------------------------- the whole process

  /** The listener and the bus it feeds. */
  datatype Process = Process(listener: Listener, bus: Bus.Bus)

  datatype Move = Listens(listening: Step) | Serves(serving: Bus.Step)

  /** A process that has just started, with this id in the store. */
  function Start(store: Option<nat>, backlogLimit: nat, capacity: nat): Process {
    Process(Initial(store), Bus.Initial(backlogLimit, capacity))
  }

  /** The listener is past persisting the cursor and has an event to push. */
  predicate Pushing(log: Log, l: Listener) {
    l.hand.Persisted? && Good(log, l.hand.index)
  }

  /** Has the push of the event in hand been done? (Its three steps are the bus's.) */
  predicate PushDone(d: Process) {
    d.bus.producer.Idle? && |d.bus.history| == |d.listener.pushed| + 1
  }

  /** Log entry `i` is an ApiVersion that can be remembered. */
  predicate IsVersionEntry(log: Log, i: nat) {
    i < |log| && log[i].isApiVersion && log[i].json.Some?
  }

  /**
   The listener is the bus's only source: it numbers the event in hand, once, or has its ApiVersion
   remembered, and finishes delivering it when that is done. Everything else interleaves freely.
   */
  predicate CanMove(log: Log, d: Process, m: Move) {
    match m
    case Listens(step) =>
      && Enabled(log, d.listener, step)
      && (step.Deliver? && Pushing(log, d.listener) ==> PushDone(d))
      && (step.Deliver? && IsVersionEntry(log, d.listener.hand.index) ==> d.bus.apiVersion.Some?)
    case Serves(step) =>
      && Bus.Enabled(d.bus, step)
      && (step.TakeId? ==>
            && Pushing(log, d.listener) && |d.bus.history| == |d.listener.pushed|
            && step.data == JsonOf(log, d.listener.hand.index))
      && (step.SetVersion? ==>
            && d.listener.hand.Persisted? && IsVersionEntry(log, d.listener.hand.index)
            && log[d.listener.hand.index].json == Some(step.version))
  }

  /** A restart loses the bus with its clients. */
  function Moved(log: Log, d: Process, m: Move): Process
    requires CanMove(log, d, m)
  {
    match m
    case Listens(step) =>
      Process(Apply(log, d.listener, step), if step.Restart? then Bus.Initial(d.bus.limit, d.bus.capacity) else d.bus)
    case Serves(step) => d.(bus := Bus.Apply(d.bus, step))
  }

  ghost predicate Plays(log: Log, d: Process, moves: seq<Move>, e: Process)
    decreases |moves|
  {
    if moves == [] then d == e else CanMove(log, d, moves[0]) && Plays(log, Moved(log, d, moves[0]), moves[1..], e)
  }

  /** What the bus has been given, or is being given. */
  function Offered(log: Log, l: Listener): seq<Value> {
    Jsons(log, l.pushed) + if Pushing(log, l) then [JsonOf(log, l.hand.index)] else []
  }

  /** The bus's history is what the listener has pushed, or that and the event in hand. */
  predicate Tied(log: Log, d: Process) {
    var h, pushed, offered := d.bus.history, Jsons(log, d.listener.pushed), Offered(log, d.listener);
    && (h == pushed || h == offered)
    && (d.bus.producer.Numbered? ==> h == pushed && offered == pushed + [d.bus.producer.event.data])
    && (d.bus.producer.Appended? ==> h == offered && offered != pushed)
  }

  /** What a step of the bus does to history and producer. */
  lemma {:induction false} ServingKeepsTied(log: Log, d: Process, step: Bus.Step)
    requires Tied(log, d) && CanMove(log, d, Serves(step))
    ensures Tied(log, Moved(log, d, Serves(step)))
  {
  }

  lemma {:induction false} ListeningKeepsTied(log: Log, d: Process, step: Step)
    requires Tied(log, d) && CanMove(log, d, Listens(step))
    ensures Tied(log, Moved(log, d, Listens(step)))
  {
    if step.Deliver? {
      JsonsSnoc(log, d.listener.pushed, d.listener.hand.index);
    }
    assert forall s: seq<Value> :: s + [] == s;
  }

  /** The ApiVersion among these entries that came first. */
  function VersionAmong(log: Log, indices: seq<nat>): Option<Value> {
    if indices == [] then None
    else
      var before := VersionAmong(log, indices[..|indices| - 1]);
      var last := indices[|indices| - 1];
      if before.None? && IsVersionEntry(log, last) then log[last].json else before
  }

  lemma {:induction false} VersionAmongSnoc(log: Log, indices: seq<nat>, i: nat)
    ensures VersionAmong(log, indices + [i]) ==
            if VersionAmong(log, indices).None? && IsVersionEntry(log, i) then log[i].json else VersionAmong(log, indices)
  {
    Cut(indices, [i]);
  }

  lemma {:induction false} VersionAmongIsFirst(log: Log, indices: seq<nat>) returns (k: nat)
    requires VersionAmong(log, indices).Some?
    ensures k < |indices| && IsVersionEntry(log, indices[k]) && VersionAmong(log, indices) == log[indices[k]].json
    ensures forall j :: 0 <= j < k ==> !IsVersionEntry(log, indices[j])
    decreases |indices|
  {
    var n := |indices| - 1;
    if VersionAmong(log, indices[..n]).Some? {
      k := VersionAmongIsFirst(log, indices[..n]);
    } else {
      k := n;
      NoVersionAmong(log, indices[..n]);
    }
  }

  lemma {:induction false} NoVersionAmong(log: Log, indices: seq<nat>)
    requires VersionAmong(log, indices).None?
    ensures forall j :: 0 <= j < |indices| ==> !IsVersionEntry(log, indices[j])
    decreases |indices|
  {
    if indices != [] {
      NoVersionAmong(log, indices[..|indices| - 1]);
    }
  }

  /** The entries this process has handled, and the one whose delivery is under way. */
  function Reaching(l: Listener): seq<nat> {
    l.completed + if l.hand.Persisted? then [l.hand.index] else []
  }

  /** The bus holds the first ApiVersion handled, or the one being delivered. */
  predicate VersionTied(log: Log, d: Process) {
    || d.bus.apiVersion == VersionAmong(log, d.listener.completed)
    || d.bus.apiVersion == VersionAmong(log, Reaching(d.listener))
  }

  lemma {:induction false} ServingKeepsVersion(log: Log, d: Process, step: Bus.Step)
    requires VersionTied(log, d) && CanMove(log, d, Serves(step))
    ensures VersionTied(log, Moved(log, d, Serves(step)))
  {
    if step.SetVersion? {
      VersionAmongSnoc(log, d.listener.completed, d.listener.hand.index);
    }
  }

  lemma {:induction false} ListeningKeepsVersion(log: Log, d: Process, step: Step)
    requires VersionTied(log, d) && CanMove(log, d, Listens(step))
    ensures VersionTied(log, Moved(log, d, Listens(step)))
  {
    if step.Deliver? {
      VersionAmongSnoc(log, d.listener.completed, d.listener.hand.index);
    }
    assert d.listener.completed + [] == d.listener.completed;
  }

  ghost predicate SystemInv(log: Log, d: Process) {
    ProcessInv(log, d.listener) && Bus.Inv(d.bus) && Tied(log, d) && VersionTied(log, d)
  }

  lemma {:induction false} SystemInvStep(log: Log, d: Process, m: Move)
    requires Increasing(log) && SystemInv(log, d) && CanMove(log, d, m)
    ensures SystemInv(log, Moved(log, d, m))
  {
    match m {
      case Listens(step) =>
        ProcessInvStep(log, d.listener, step);
        ListeningKeepsTied(log, d, step);
        ListeningKeepsVersion(log, d, step);
      case Serves(step) =>
        Bus.InvStep(d.bus, step);
        ServingKeepsTied(log, d, step);
        ServingKeepsVersion(log, d, step);
    }
  }

  lemma {:induction false} SystemInvHolds(log: Log, d: Process, moves: seq<Move>, e: Process)
    requires Increasing(log) && SystemInv(log, d) && Plays(log, d, moves, e)
    ensures SystemInv(log, e)
    decreases |moves|
  {
    if moves != [] {
      SystemInvStep(log, d, moves[0]);
      SystemInvHolds(log, Moved(log, d, moves[0]), moves[1..], e);
    }
  }

  /** The listener as it will be once the push under way is delivered. */
  lemma {:induction false} HistoryIsPushed(log: Log, d: Process) returns (l: Listener)
    requires Increasing(log) && SystemInv(log, d)
    ensures ProcessInv(log, l) && l.connects == d.listener.connects && d.bus.history == Jsons(log, l.pushed)
  {
    l := d.listener;
    if d.bus.history != Jsons(log, l.pushed) {
      ProcessInvStep(log, l, Deliver);
      JsonsSnoc(log, l.pushed, l.hand.index);
      l := Apply(log, l, Deliver);
    }
  }

  /** The event in hand can always be pushed, broadcast and delivered, in these four moves. */
  lemma {:induction false} EventInHandGoesOut(log: Log, d: Process) returns (moves: seq<Move>, e: Process)
    requires SystemInv(log, d) && Pushing(log, d.listener)
    requires d.bus.producer.Idle? && |d.bus.history| == |d.listener.pushed|
    ensures Plays(log, d, moves, e)
    ensures e.listener.hand.Empty? && e.listener.pushed == d.listener.pushed + [d.listener.hand.index]
    ensures e.bus.log == d.bus.log + [Envelope(|d.bus.history| + 1, JsonOf(log, d.listener.hand.index))]
    ensures e.bus.clients == d.bus.clients
  {
    var data := JsonOf(log, d.listener.hand.index);
    var d1 := Moved(log, d, Serves(Bus.TakeId(data)));
    var d2 := Moved(log, d1, Serves(Bus.Append));
    var d3 := Moved(log, d2, Serves(Bus.Broadcast));
    e := Moved(log, d3, Listens(Deliver));
    moves := [Serves(Bus.TakeId(data)), Serves(Bus.Append), Serves(Bus.Broadcast), Listens(Deliver)];
    assert moves[1..] == [Serves(Bus.Append), Serves(Bus.Broadcast), Listens(Deliver)];
    assert moves[1..][1..] == [Serves(Bus.Broadcast), Listens(Deliver)];
    assert moves[1..][1..][1..] == [Listens(Deliver)];
    assert Plays(log, e, [], e);
    assert Plays(log, d3, [Listens(Deliver)], e);
    assert Plays(log, d2, [Serves(Bus.Broadcast), Listens(Deliver)], e);
    assert Plays(log, d1, [Serves(Bus.Append), Serves(Bus.Broadcast), Listens(Deliver)], e);
  }

  // ---------------------------------------------------------------- the client

  function DataOf(events: seq<Envelope>): seq<Value> {
    seq(|events|, i requires 0 <= i < |events| => events[i].data)
  }

  /** Consecutive events carry a stretch of the history. */
  lemma {:induction false} DataOfConsecutive(events: seq<Envelope>, history: seq<Value>, lo: nat)
    requires Consecutive(events, history, lo)
    ensures DataOf(events) == history[lo - 1..lo - 1 + |events|]
  {
  }

  /** Events that are consecutive, if there are any, carry some stretch of the history. */
  lemma {:induction false} StretchOfHistory(events: seq<Envelope>, history: seq<Value>, first: nat) returns (a: nat, b: nat)
    requires events != [] ==> Consecutive(events, history, first)
    ensures a <= b <= |history| && DataOf(events) == history[a..b]
  {
    a, b := 0, 0;
    if events != [] {
      DataOfConsecutive(events, history, first);
      a, b := first - 1, first - 1 + |events|;
    }
  }

  lemma {:induction false} SentFromHistory(t: Bus.Bus, c: nat) returns (a: nat, b: nat)
    requires Bus.Inv(t) && c in t.clients && t.clients[c].live && t.clients[c].missed == {}
    ensures a <= b <= |t.history| && DataOf(BusTheorems.EventsOf(t.clients[c].output)) == t.history[a..b]
  {
    var events, first := BusTheorems.EventsOf(t.clients[c].output), BusTheorems.FirstDue(t.clients[c]);
    assert events != [] ==> Consecutive(events, t.history, first) by {
      BusTheorems.StreamWithoutMisses(t, c);
    }
    a, b := StretchOfHistory(events, t.history, first);
  }

  /** A stretch of what was pushed, as log entries. */
  lemma {:induction false} StretchOfLog(log: Log, l: Listener, history: seq<Value>, a: nat, b: nat)
      returns (indices: seq<nat>, lo: nat, hi: nat)
    requires ProcessInv(log, l) && history == Jsons(log, l.pushed) && a <= b <= |history|
    ensures history[a..b] == Jsons(log, indices)
    ensures lo <= hi <= |log| && Collapse(indices) == PushableOnly(log, Span(lo, hi))
    ensures indices != [] ==> Repeats(indices) <= l.connects - 1
  {
    indices := l.pushed[a..b];
    JsonsSlice(log, l.pushed, a, b);
    lo, hi := StretchOfPushes(log, l, a, b);
  }

  lemma {:induction false} JsonsSlice(log: Log, indices: seq<nat>, a: nat, b: nat)
    requires a <= b <= |indices|
    ensures Jsons(log, indices)[a..b] == Jsons(log, indices[a..b])
  {
  }

  /**
   End to end: upstream has a log with increasing ids; the process listens, pushes and serves, through any
   reconnects, restarts and interleavings. Then the payloads sent to a live client that missed nothing (by
   `MissedIffCostlyLag`, one that never lagged at a cost) are those of a sequence of log entries which, with
   adjacent repeats collapsed, is the pushable part of one contiguous stretch of the log; and the
   repeats number at most the reconnects of the process.
   */
  lemma {:induction false} ClientSeesStretchOfLog(
    log: Log, store: Option<nat>, backlogLimit: nat, capacity: nat, moves: seq<Move>, d: Process, c: nat)
      returns (indices: seq<nat>, lo: nat, hi: nat)
    requires Increasing(log) && Plays(log, Start(store, backlogLimit, capacity), moves, d)
    requires c in d.bus.clients && d.bus.clients[c].live && d.bus.clients[c].missed == {}
    ensures DataOf(BusTheorems.EventsOf(d.bus.clients[c].output)) == Jsons(log, indices)
    ensures lo <= hi <= |log| && Collapse(indices) == PushableOnly(log, Span(lo, hi))
    ensures indices != [] ==> Repeats(indices) <= d.listener.connects - 1
  {
    SystemInvHolds(log, Start(store, backlogLimit, capacity), moves, d);
    var a, b := SentFromHistory(d.bus, c);
    var l := HistoryIsPushed(log, d);
    indices, lo, hi := StretchOfLog(log, l, d.bus.history, a, b);
  }

  /**
   And what it was greeted with: a client that has been sent anything was first sent the ApiVersion that
   came first among the log entries this process has handled or is delivering.
   */
  lemma {:induction false} GreetedWithFirstVersion(
    log: Log, store: Option<nat>, backlogLimit: nat, capacity: nat, moves: seq<Move>, d: Process, c: nat)
      returns (k: nat)
    requires Increasing(log) && Plays(log, Start(store, backlogLimit, capacity), moves, d)
    requires c in d.bus.clients && d.bus.clients[c].output != []
    ensures var reached := Reaching(d.listener);
            && k < |reached| && IsVersionEntry(log, reached[k])
            && (forall j :: 0 <= j < k ==> !IsVersionEntry(log, reached[j]))
            && d.bus.clients[c].output[0] == ApiVersion(log[reached[k]].json.value)
  {
    SystemInvHolds(log, Start(store, backlogLimit, capacity), moves, d);
    GreetingComesFirst(d.bus, c);
    var reached := Reaching(d.listener);
    if d.listener.hand.Persisted? {
      VersionAmongSnoc(log, d.listener.completed, d.listener.hand.index);
    } else {
      assert reached == d.listener.completed;
    }
    k := VersionAmongIsFirst(log, reached);
  }

  lemma {:induction false} GreetingComesFirst(t: Bus.Bus, c: nat)
    requires Bus.Inv(t) && c in t.clients && t.clients[c].output != []
    ensures t.apiVersion.Some? && t.clients[c].output[0] == ApiVersion(t.apiVersion.value)
  {
    assert Bus.ClientInv(t, t.clients[c]);
  }
}
