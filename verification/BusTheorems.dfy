/** What every run of the event bus guarantees to its clients. */
module BusTheorems {
  import opened Prelude
  import opened Events
  import opened BusProtocol

  /** The events among the frames a client was sent. */
  function EventsOf(frames: seq<Frame>): seq<Envelope> {
    if frames == [] then []
    else
      var last := frames[|frames| - 1];
      EventsOf(frames[..|frames| - 1]) + (if last.Event? then [last.envelope] else [])
  }

  lemma {:induction false} EventsOfGreeted(greeting: seq<Frame>, events: seq<Envelope>)
    requires forall f :: f in greeting ==> f.ApiVersion?
    ensures EventsOf(greeting + AsFrames(events)) == events
    decreases |greeting| + |events|
  {
    var all := greeting + AsFrames(events);
    var n := |all| - 1;
    if events != [] {
      assert all[..n] == greeting + AsFrames(events[..|events| - 1]);
      assert all[n] == Event(events[|events| - 1]);
      EventsOfGreeted(greeting, events[..|events| - 1]);
    } else if greeting != [] {
      assert all[..n] == greeting[..n] + AsFrames([]);
      assert all[n] == greeting[n] && greeting[n] in greeting;
      EventsOfGreeted(greeting[..n], []);
    }
  }

  lemma {:induction false} RunKeepsInv(backlogLimit: nat, capacity: nat, steps: seq<Step>, t: Bus)
    requires Runs(Initial(backlogLimit, capacity), steps, t)
    ensures Inv(t)
  {
    InvHolds(Initial(backlogLimit, capacity), steps, t);
  }

  // ---------------------------------------------------------------- backlog

  /**
   The backlog is the last min(pushes, limit) events of the whole history, numbered consecutively;
   a snapshot is the suffix of it from `startFrom`; and every event ever appended is either
   still there or counted as dropped.
   */
  lemma {:induction false} BacklogRefinesHistory(backlogLimit: nat, capacity: nat, steps: seq<Step>, t: Bus, startFrom: nat)
    requires Runs(Initial(backlogLimit, capacity), steps, t)
    ensures var n, limit := |t.history|, Max(backlogLimit, 1);
            && |t.backlog| == (if n < limit then n else limit)
            && n == |t.backlog| + t.dropped
            && Consecutive(t.backlog, t.history, t.dropped + 1)
            && SnapshotFrom(t.backlog, startFrom) == Segment(t.history, Max(startFrom, t.dropped + 1), n, {})
    ensures t.producer.Idle? ==> t.nextId == |t.history| == |t.log|
  {
    assert BusInv(t) && t.limit == Max(backlogLimit, 1) by {
      RunKeepsInv(backlogLimit, capacity, steps, t);
      LimitsAreFixed(Initial(backlogLimit, capacity), steps, t);
    }
    BacklogOf(t, startFrom);
  }

  lemma {:induction false} BacklogOf(t: Bus, startFrom: nat)
    requires BusInv(t)
    ensures |t.backlog| == (if |t.history| < t.limit then |t.history| else t.limit)
    ensures |t.history| == |t.backlog| + t.dropped
    ensures Consecutive(t.backlog, t.history, t.dropped + 1)
    ensures SnapshotFrom(t.backlog, startFrom) == Segment(t.history, Max(startFrom, t.dropped + 1), |t.history|, {})
    ensures t.producer.Idle? ==> t.nextId == |t.history| == |t.log|
  {
    SnapshotOfBacklog(t, startFrom);
    BacklogShape(t.history, t.backlog, t.limit, t.dropped);
  }

  lemma {:induction false} SnapshotOfBacklog(t: Bus, startFrom: nat)
    requires BusInv(t)
    ensures t.dropped + 1 == OldestRetained(|t.history|, t.limit)
    ensures SnapshotFrom(t.backlog, startFrom) == Segment(t.history, Max(startFrom, t.dropped + 1), |t.history|, {})
  {
    SegmentLength(t.history, OldestRetained(|t.history|, t.limit), |t.history|);
    assert t.dropped + 1 == OldestRetained(|t.history|, t.limit);
    SnapshotShape(t, startFrom);
  }

  lemma {:induction false} BacklogShape(history: seq<Value>, backlog: seq<Envelope>, limit: nat, dropped: nat)
    requires limit >= 1 && |history| == |backlog| + dropped
    requires backlog == Segment(history, OldestRetained(|history|, limit), |history|, {})
    ensures |backlog| == (if |history| < limit then |history| else limit)
    ensures Consecutive(backlog, history, dropped + 1)
  {
    SegmentIsConsecutive(history, OldestRetained(|history|, limit), |history|);
  }

  lemma {:induction false} LimitsAreFixed(s: Bus, steps: seq<Step>, t: Bus)
    requires Runs(s, steps, t)
    ensures t.limit == s.limit && t.capacity == s.capacity
    decreases |steps|
  {
    if steps != [] {
      LimitsAreFixed(Apply(s, steps[0]), steps[1..], t);
    }
  }

  // ---------------------------------------------------------------- one specification for two streams

  /** A live client has been sent exactly the script of its snapshot and of what its receiver returned. */
  lemma {:induction false} LiveOutputIsScript(t: Bus, c: nat)
    requires c in t.clients && ClientInv(t, t.clients[c]) && t.clients[c].live
    ensures t.apiVersion.Some?
    ensures t.clients[c].output == Script(t.apiVersion.value, t.clients[c].snapshot, t.clients[c].inbox)
  {
    assert ClientInv(t, t.clients[c]);
  }

  /** Over either transport a client is sent a beginning of the same script, and once live all of it. */
  lemma {:induction false} BothTransportsFollowTheScript(backlogLimit: nat, capacity: nat, steps: seq<Step>, t: Bus, c: nat)
    requires Runs(Initial(backlogLimit, capacity), steps, t) && c in t.clients
    ensures var k := t.clients[c];
            if k.greeted then
              && t.apiVersion.Some?
              && var script := Script(t.apiVersion.value, k.snapshot, k.inbox);
                 k.output <= script && (k.live ==> k.output == script)
            else k.output == []
  {
    RunKeepsInv(backlogLimit, capacity, steps, t);
    var k := t.clients[c];
    assert ClientInv(t, k);
    if k.greeted && !k.live {
      var v := t.apiVersion.value;
      assert k.snapshot + Fresh(LastId(k.snapshot), []) == k.snapshot;
      assert AsFrames(k.snapshot[..k.replayed]) == AsFrames(k.snapshot)[..k.replayed];
      assert [ApiVersion(v)] + AsFrames(k.snapshot)[..k.replayed] <= [ApiVersion(v)] + AsFrames(k.snapshot);
    } else if !k.greeted {
      assert Sent(k) == [];
    }
  }

  /** How far along its life a client can be. */
  predicate LifeInv(k: Client) {
    && k.replayed <= |k.snapshot|
    && (k.startFrom.None? ==> !k.snapped) && (!k.snapped ==> k.snapshot == []) && (!k.greeted ==> k.replayed == 0)
    && (if k.transport.Sse? then k.greeted && k.startFrom.Some? ==> k.snapped else k.snapped ==> k.greeted)
  }

  /** What a client can do next. */
  predicate HasOneThingToDo(s: Bus, c: nat)
    requires c in s.clients
  {
    var k := s.clients[c];
    if k.live then Enabled(s, Receive(c)) <==> k.position < |s.log|
    else if k.startFrom.Some? && !k.snapped && k.transport.Sse? then
      && Enabled(s, Snapshot(c)) && !Enabled(s, Greet(c)) && !Enabled(s, Replay(c)) && !Enabled(s, GoLive(c))
    else if !k.greeted then
      && Enabled(s, Greet(c)) && !Enabled(s, Snapshot(c)) && !Enabled(s, Replay(c)) && !Enabled(s, GoLive(c))
    else if k.startFrom.Some? && !k.snapped then
      && Enabled(s, Snapshot(c)) && !Enabled(s, Greet(c)) && !Enabled(s, Replay(c)) && !Enabled(s, GoLive(c))
    else
      && !Enabled(s, Greet(c)) && !Enabled(s, Snapshot(c))
      && (Enabled(s, Replay(c)) <==> k.replayed < |k.snapshot|)
      && (Enabled(s, GoLive(c)) <==> k.replayed == |k.snapshot|)
  }

  lemma {:induction false} LifeGoesOn(s: Bus, c: nat)
    requires Present(s, c) && LifeInv(s.clients[c]) && s.apiVersion.Some?
    ensures HasOneThingToDo(s, c)
  {
  }

  /**
   A client is never stuck once there is an ApiVersion: until it is live it has exactly one thing to do
   next, and then it can receive whenever something is there. The websocket greets before it takes its
   snapshot, the SSE stream after.
   */
  lemma {:induction false} ClientCanProceed(backlogLimit: nat, capacity: nat, steps: seq<Step>, s: Bus, c: nat)
    requires Runs(Initial(backlogLimit, capacity), steps, s) && Present(s, c) && s.apiVersion.Some?
    ensures HasOneThingToDo(s, c)
  {
    assert LifeInv(s.clients[c]) by {
      RunKeepsInv(backlogLimit, capacity, steps, s);
      assert ClientInv(s, s.clients[c]);
    }
    LifeGoesOn(s, c);
  }

  // ---------------------------------------------------------------- what has been delivered

  /** The first id a client is due. */
  function FirstDue(k: Client): nat {
    if k.snapshot != [] then k.snapshot[0].id else k.subscribedAt + 1
  }

  /** The last id settled for it: sent, or lost. */
  function SettledUpTo(k: Client): nat
    requires k.replayed <= |k.snapshot|
  {
    if k.live then Reached(k)
    else if k.replayed == 0 then 0
    else k.snapshot[k.replayed - 1].id
  }

  lemma {:induction false} SentIsSegment(s: Bus, k: Client)
    requires BusInv(s) && ClientInv(s, k)
    ensures 1 <= FirstDue(k) && SettledUpTo(k) <= |s.history|
    ensures Sent(k) == Segment(s.history, FirstDue(k), SettledUpTo(k), k.missed)
  {
    if k.live {
      if k.snapshot == [] {
        assert [] + Fresh(0, k.inbox) == Fresh(0, k.inbox);
      } else {
        ReplayThenLive(s.history, k);
      }
    } else if k.replayed > 0 {
      PrefixOfSegment(s.history, FirstDue(k), LastId(k.snapshot), k.replayed);
    }
  }

  /** Snapshot and live part join up: the live part starts right after the snapshot. */
  lemma {:induction false} ReplayThenLive(history: seq<Value>, k: Client)
    requires SnapshotInv(history, k) && LiveInv(history, k) && k.snapshot != []
    ensures k.snapshot + Fresh(LastId(k.snapshot), k.inbox) ==
            Segment(history, k.snapshot[0].id, Reached(k), k.missed)
  {
    var lo, hi := k.snapshot[0].id, LastId(k.snapshot);
    SegmentLength(history, lo, hi);
    SegmentStable(history, history, lo, hi, {}, k.missed);
    SegmentJoin(history, lo, hi, Reached(k), k.missed);
  }

  lemma {:induction false} PrefixOfSegment(history: seq<Value>, lo: nat, hi: nat, n: nat)
    requires 1 <= lo && hi <= |history| && 0 < n <= |Segment(history, lo, hi, {})|
    ensures Segment(history, lo, hi, {})[n - 1].id == lo + n - 1 <= |history|
    ensures Segment(history, lo, hi, {})[..n] == Segment(history, lo, lo + n - 1, {})
  {
    SegmentIsConsecutive(history, lo, hi);
    SegmentJoin(history, lo, lo + n - 1, hi, {});
    SegmentLength(history, lo, lo + n - 1);
    Cut(Segment(history, lo, lo + n - 1, {}), Segment(history, lo + n, hi, {}));
  }

  lemma {:induction false} OutputIsSegment(t: Bus, c: nat)
    requires c in t.clients && BusInv(t) && ClientInv(t, t.clients[c])
    ensures var k := t.clients[c];
            && k.replayed <= |k.snapshot|
            && 1 <= FirstDue(k) && SettledUpTo(k) <= |t.history|
            && EventsOf(k.output) == Segment(t.history, FirstDue(k), SettledUpTo(k), k.missed)
  {
    var k := t.clients[c];
    assert ClientInv(t, k);
    SentIsSegment(t, k);
    EventsOfGreeted(if k.greeted then [ApiVersion(t.apiVersion.value)] else [], Sent(k));
  }

  /** What a client has been sent, exactly: the history from its first due id on, minus what it missed. */
  lemma {:induction false} DeliveredIsSegment(backlogLimit: nat, capacity: nat, steps: seq<Step>, t: Bus, c: nat)
    requires Runs(Initial(backlogLimit, capacity), steps, t) && c in t.clients
    ensures var k := t.clients[c];
            && k.replayed <= |k.snapshot|
            && 1 <= FirstDue(k) && SettledUpTo(k) <= |t.history|
            && EventsOf(k.output) == Segment(t.history, FirstDue(k), SettledUpTo(k), k.missed)
  {
    RunKeepsInv(backlogLimit, capacity, steps, t);
    OutputIsSegment(t, c);
  }

  /**
   In every run, whatever the ring's capacity and however far clients lag: ids are delivered in
   strictly increasing order, each with the payload pushed under it, and every id skipped between
   two deliveries had been evicted from the ring before this client came to read it.
   */
  lemma {:induction false} LagSafety(backlogLimit: nat, capacity: nat, steps: seq<Step>, t: Bus, c: nat)
    requires Runs(Initial(backlogLimit, capacity), steps, t) && c in t.clients
    ensures var k := t.clients[c];
            var events := EventsOf(k.output);
            && StrictlyIncreasing(events)
            && (forall e :: e in events ==> 1 <= e.id <= |t.history| && e.data == t.history[e.id - 1])
            && (forall i, id :: 0 <= i < |events| - 1 && events[i].id < id < events[i + 1].id ==> id in k.missed)
            && (forall id :: id in k.missed ==> id <= t.Oldest())
  {
    DeliveredIsSegment(backlogLimit, capacity, steps, t, c);
    RunKeepsInv(backlogLimit, capacity, steps, t);
    var k := t.clients[c];
    assert ClientInv(t, k);
    var h, lo, hi := t.history, FirstDue(k), SettledUpTo(k);
    SegmentContents(h, lo, hi, k.missed);
    var events := Segment(h, lo, hi, k.missed);
    forall i, id | 0 <= i < |events| - 1 && events[i].id < id < events[i + 1].id ensures id in k.missed {
      SegmentGap(h, lo, hi, k.missed, i, id);
    }
  }

  /**
   What a receive returns, by the configured capacity. A live client at most that many broadcasts behind
   is given the next one and loses nothing; one further behind is moved to exactly that far behind the
   newest and told how many it skipped.
   */
  lemma {:induction false} RingKeeps(backlogLimit: nat, capacity: nat, steps: seq<Step>, s: Bus, c: nat)
    requires Runs(Initial(backlogLimit, capacity), steps, s) && Enabled(s, Receive(c))
    ensures var k, k' := s.clients[c], Apply(s, Receive(c)).clients[c];
            var kept := Max(capacity, 1);
            if |s.log| - k.position <= kept then
              && k'.inbox == k.inbox + [Delivered(s.log[k.position])]
              && k'.position == k.position + 1 && k'.missed == k.missed
              && k'.output == k.output + (if s.log[k.position].id > k.lastSent then [Event(s.log[k.position])] else [])
            else
              && k'.position == |s.log| - kept
              && k'.inbox == k.inbox + [Lagged(|s.log| - kept - k.position)]
              && k'.output == k.output
  {
    LimitsAreFixed(Initial(backlogLimit, capacity), steps, s);
  }

  /** A lag that makes the client lose something: it lands beyond the id after the last one sent. */
  predicate CostlyLag(s: Bus, k: Client) {
    k.position < s.Oldest() && k.lastSent + 1 < s.Oldest() + 1
  }

  /**
   One lag, exactly: nothing is sent; what is newly missed are ids the ring had already evicted and
   the client had neither read nor been sent; and there are such ids iff the jump lands beyond `lastSent + 1`.
   */
  lemma {:induction false} LagCostsExactly(s: Bus, c: nat)
    requires Enabled(s, Receive(c)) && BusInv(s) && ClientInv(s, s.clients[c]) && s.clients[c].position < s.Oldest()
    ensures var k, k' := s.clients[c], Apply(s, Receive(c)).clients[c];
            && k'.output == k.output && k'.position == s.Oldest()
            && (forall id :: id in k'.missed && id !in k.missed ==>
                  k.position <= id - 1 < s.Oldest() && k.lastSent < id)
            && (k'.missed != k.missed <==> CostlyLag(s, k))
  {
  }

  /** No `recv` of this client along the run is a costly lag. */
  ghost predicate NoCostlyLag(s: Bus, steps: seq<Step>, c: nat)
    decreases |steps|
  {
    steps == [] ||
    (Enabled(s, steps[0]) &&
     !(steps[0] == Receive(c) && CostlyLag(s, s.clients[c])) &&
     NoCostlyLag(Apply(s, steps[0]), steps[1..], c))
  }

  function MissedBy(s: Bus, c: nat): set<nat> {
    if c in s.clients then s.clients[c].missed else {}
  }

  /** Nothing but its own receives makes a client miss anything... */
  lemma {:induction false} OthersCostNothing(s: Bus, step: Step, c: nat)
    requires Enabled(s, step) && step != Receive(c)
    ensures MissedBy(Apply(s, step), c) == MissedBy(s, c)
  {
  }

  /** ... and of those only a costly lag. */
  lemma {:induction false} ReceiveCosts(s: Bus, c: nat)
    requires Enabled(s, Receive(c)) && BusInv(s) && ClientInv(s, s.clients[c])
    ensures MissedBy(s, c) <= MissedBy(Apply(s, Receive(c)), c)
    ensures MissedBy(Apply(s, Receive(c)), c) != MissedBy(s, c) <==> CostlyLag(s, s.clients[c])
  {
    if s.clients[c].position < s.Oldest() {
      LagCostsExactly(s, c);
    }
  }

  lemma {:induction false} MissedIffCostlyLag(s: Bus, steps: seq<Step>, t: Bus, c: nat)
    requires Inv(s) && Runs(s, steps, t)
    ensures MissedBy(s, c) <= MissedBy(t, c)
    ensures MissedBy(t, c) == MissedBy(s, c) <==> NoCostlyLag(s, steps, c)
    decreases |steps|
  {
    if steps != [] {
      var u := Apply(s, steps[0]);
      if steps[0] == Receive(c) {
        ReceiveCosts(s, c);
      } else {
        OthersCostNothing(s, steps[0], c);
      }
      InvStep(s, steps[0]);
      MissedIffCostlyLag(u, steps[1..], t, c);
    }
  }

  /** A live client has been sent every event from its first due one on iff it never lagged at a cost. */
  lemma {:induction false} GaplessIffNoCostlyLag(backlogLimit: nat, capacity: nat, steps: seq<Step>, t: Bus, c: nat)
    requires Runs(Initial(backlogLimit, capacity), steps, t) && c in t.clients && t.clients[c].live
    ensures 1 <= FirstDue(t.clients[c]) && Reached(t.clients[c]) <= |t.history|
    ensures EventsOf(t.clients[c].output) == Segment(t.history, FirstDue(t.clients[c]), Reached(t.clients[c]), {})
            <==> NoCostlyLag(Initial(backlogLimit, capacity), steps, c)
  {
    var k := t.clients[c];
    DeliveredIsSegment(backlogLimit, capacity, steps, t, c);
    MissedIffCostlyLag(Initial(backlogLimit, capacity), steps, t, c);
    assert forall m :: m in k.missed ==> FirstDue(k) <= m <= Reached(k) by {
      RunKeepsInv(backlogLimit, capacity, steps, t);
      MissedWithinDue(t, k);
    }
    SegmentFullIff(t.history, FirstDue(k), Reached(k), k.missed);
  }

  lemma {:induction false} MissedWithinDue(s: Bus, k: Client)
    requires ClientInv(s, k)
    ensures forall m :: m in k.missed ==> FirstDue(k) <= m <= Reached(k)
  {
  }

  // ---------------------------------------------------------------- the handoff from replay to live

  /** What a client fixed when it subscribed and when it took its snapshot. */
  predicate SameFixtures(k: Client, k': Client) {
    && k'.subscribedAt == k.subscribedAt && k'.startFrom == k.startFrom
    && (k.snapped ==> k'.snapped && k'.snapshot == k.snapshot)
  }

  lemma {:induction false} FixturesStep(s: Bus, step: Step, c: nat)
    requires Enabled(s, step) && c in s.clients
    ensures c in Apply(s, step).clients && SameFixtures(s.clients[c], Apply(s, step).clients[c])
  {
  }

  lemma {:induction false} ClientFixtures(s: Bus, steps: seq<Step>, t: Bus, c: nat)
    requires Runs(s, steps, t) && c in s.clients
    ensures c in t.clients && SameFixtures(s.clients[c], t.clients[c])
    decreases |steps|
  {
    if steps != [] {
      FixturesStep(s, steps[0], c);
      ClientFixtures(Apply(s, steps[0]), steps[1..], t, c);
    }
  }

  /** Where a client that subscribed at `a` and took its snapshot at `b` starts. */
  function HandoffStart(a: Bus, b: Bus, startFrom: nat): nat {
    var lo := Max(startFrom, OldestRetained(|b.history|, b.limit));
    if lo <= |b.history| then lo else |a.log| + 1
  }

  /**
   The handoff: a client subscribes, waits, snapshots from `startFrom` and follows the ring, with
   the three steps of every push interleaved anywhere, also between its snapshot and a broadcast.
   Unless it lags at a cost, the ids it is sent are consecutive, without gap or duplicate, from
   max(startFrom, oldest retained id) if the snapshot has anything and otherwise from the first id
   broadcast after subscribing; and a client that has caught up has been sent every event broadcast from there on.
   */
  lemma {:induction false} Handoff(
    backlogLimit: nat, capacity: nat, c: nat, transport: Transport, startFrom: nat,
    before: seq<Step>, a: Bus, between: seq<Step>, b: Bus, after: seq<Step>, t: Bus)
    requires Runs(Initial(backlogLimit, capacity), before, a)
    requires Enabled(a, Connect(c, transport, Some(startFrom)))
    requires Runs(Apply(a, Connect(c, transport, Some(startFrom))), between, b)
    requires Enabled(b, Snapshot(c))
    requires Runs(Apply(b, Snapshot(c)), after, t) && NoCostlyLag(Apply(b, Snapshot(c)), after, c)
    requires c in t.clients && t.clients[c].live
    ensures var k, first := t.clients[c], HandoffStart(a, b, startFrom);
            var events := EventsOf(k.output);
            && (events != [] ==> Consecutive(events, t.history, first))
            && |events| == (if Reached(k) < first then 0 else Reached(k) - first + 1)
            && (k.position == |t.log| ==> forall i :: first - 1 <= i < |t.log| ==> t.log[i] in events)
  {
    HandoffFixes(backlogLimit, capacity, c, transport, startFrom, before, a, between, b, after, t);
    StreamWithoutMisses(t, c);
    CaughtUp(t, c);
  }

  /** A live client that missed nothing has been sent consecutive events from its first due one on... */
  lemma {:induction false} StreamWithoutMisses(t: Bus, c: nat)
    requires c in t.clients && BusInv(t) && ClientInv(t, t.clients[c]) && t.clients[c].live && t.clients[c].missed == {}
    ensures var k := t.clients[c];
            var first, events := FirstDue(k), EventsOf(k.output);
            && (events != [] ==> Consecutive(events, t.history, first))
            && |events| == (if Reached(k) < first then 0 else Reached(k) - first + 1)
  {
    var k := t.clients[c];
    OutputIsSegment(t, c);
    if FirstDue(k) <= Reached(k) {
      SegmentIsConsecutive(t.history, FirstDue(k), Reached(k));
    }
  }

  /** ... and, once it has read everything, every event broadcast from there on. */
  lemma {:induction false} CaughtUp(t: Bus, c: nat)
    requires c in t.clients && BusInv(t) && ClientInv(t, t.clients[c]) && t.clients[c].live && t.clients[c].missed == {}
    ensures var k := t.clients[c];
            k.position == |t.log| ==>
              forall i :: FirstDue(k) - 1 <= i < |t.log| ==> t.log[i] in EventsOf(k.output)
  {
    var k := t.clients[c];
    OutputIsSegment(t, c);
    if k.position == |t.log| {
      SegmentHasBroadcasts(t.history, t.log, FirstDue(k), Reached(k));
    }
  }

  lemma {:induction false} SegmentHasBroadcasts(history: seq<Value>, log: seq<Envelope>, lo: nat, hi: nat)
    requires 1 <= lo && |log| <= hi <= |history|
    requires forall i :: 0 <= i < |log| ==> log[i] == Envelope(i + 1, history[i])
    ensures forall i :: lo - 1 <= i < |log| ==> log[i] in Segment(history, lo, hi, {})
  {
    forall i | lo - 1 <= i < |log| ensures log[i] in Segment(history, lo, hi, {}) {
      SegmentHas(history, lo, hi, {}, i + 1);
    }
  }

  lemma {:induction false} HandoffFixes(
    backlogLimit: nat, capacity: nat, c: nat, transport: Transport, startFrom: nat,
    before: seq<Step>, a: Bus, between: seq<Step>, b: Bus, after: seq<Step>, t: Bus)
    requires Runs(Initial(backlogLimit, capacity), before, a)
    requires Enabled(a, Connect(c, transport, Some(startFrom)))
    requires Runs(Apply(a, Connect(c, transport, Some(startFrom))), between, b)
    requires Enabled(b, Snapshot(c))
    requires Runs(Apply(b, Snapshot(c)), after, t) && NoCostlyLag(Apply(b, Snapshot(c)), after, c)
    ensures Inv(t) && c in t.clients && t.clients[c].missed == {}
    ensures FirstDue(t.clients[c]) == HandoffStart(a, b, startFrom)
  {
    var connect := Connect(c, transport, Some(startFrom));
    assert Inv(b) && b.clients[c].subscribedAt == |a.log| && b.clients[c].startFrom == Some(startFrom) by {
      RunKeepsInv(backlogLimit, capacity, before, a);
      InvStep(a, connect);
      InvHolds(Apply(a, connect), between, b);
      ClientFixtures(Apply(a, connect), between, b, c);
    }
    SnapshotFixes(b, c, after, t);
  }

  lemma {:induction false} SnapshotFixes(b: Bus, c: nat, after: seq<Step>, t: Bus)
    requires Inv(b) && Enabled(b, Snapshot(c))
    requires Runs(Apply(b, Snapshot(c)), after, t) && NoCostlyLag(Apply(b, Snapshot(c)), after, c)
    ensures Inv(t) && c in t.clients && t.clients[c].missed == {}
    ensures var lo := Max(b.clients[c].startFrom.value, OldestRetained(|b.history|, b.limit));
            FirstDue(t.clients[c]) == if lo <= |b.history| then lo else b.clients[c].subscribedAt + 1
  {
    SnapshotFirstDue(b, c);
    ClientFixtures(Apply(b, Snapshot(c)), after, t, c);
    InvStep(b, Snapshot(c));
    KeepsUp(Apply(b, Snapshot(c)), after, t, c);
  }

  /** Without a costly lag nothing is missed. */
  lemma {:induction false} KeepsUp(s: Bus, steps: seq<Step>, t: Bus, c: nat)
    requires Inv(s) && MissedBy(s, c) == {} && Runs(s, steps, t) && NoCostlyLag(s, steps, c)
    ensures Inv(t) && MissedBy(t, c) == {}
  {
    InvHolds(s, steps, t);
    MissedIffCostlyLag(s, steps, t, c);
  }

  lemma {:induction false} SnapshotFirstDue(b: Bus, c: nat)
    requires Inv(b) && Enabled(b, Snapshot(c))
    ensures MissedBy(Apply(b, Snapshot(c)), c) == {}
    ensures var k := Apply(b, Snapshot(c)).clients[c];
            var lo := Max(b.clients[c].startFrom.value, OldestRetained(|b.history|, b.limit));
            && k.snapped
            && FirstDue(k) == if lo <= |b.history| then lo else b.clients[c].subscribedAt + 1
  {
    SnapshotShape(b, b.clients[c].startFrom.value);
    assert ClientInv(b, b.clients[c]);
  }

  /** Without `startFrom` the stream starts with the first event broadcast after subscribing. */
  lemma {:induction false} LiveOnly(
    backlogLimit: nat, capacity: nat, c: nat, transport: Transport,
    before: seq<Step>, a: Bus, after: seq<Step>, t: Bus)
    requires Runs(Initial(backlogLimit, capacity), before, a)
    requires Enabled(a, Connect(c, transport, None))
    requires Runs(Apply(a, Connect(c, transport, None)), after, t)
    requires NoCostlyLag(Apply(a, Connect(c, transport, None)), after, c)
    requires c in t.clients && t.clients[c].live
    ensures var k, first := t.clients[c], |a.log| + 1;
            && 1 <= first && Reached(k) == k.position <= |t.history|
            && EventsOf(k.output) == Segment(t.history, first, k.position, {})
  {
    assert Inv(a) by {
      RunKeepsInv(backlogLimit, capacity, before, a);
    }
    LiveOnlyFixes(a, c, transport, after, t);
    LiveOnlyCursor(t, t.clients[c]);
    OutputIsSegment(t, c);
  }

  lemma {:induction false} LiveOnlyFixes(a: Bus, c: nat, transport: Transport, after: seq<Step>, t: Bus)
    requires Inv(a) && Enabled(a, Connect(c, transport, None))
    requires Runs(Apply(a, Connect(c, transport, None)), after, t)
    requires NoCostlyLag(Apply(a, Connect(c, transport, None)), after, c)
    ensures Inv(t) && c in t.clients && t.clients[c].missed == {}
    ensures t.clients[c].subscribedAt == |a.log| && t.clients[c].startFrom == None
  {
    var connected := Apply(a, Connect(c, transport, None));
    assert c in connected.clients && MissedBy(connected, c) == {};
    ClientFixtures(connected, after, t, c);
    InvStep(a, Connect(c, transport, None));
    KeepsUp(connected, after, t, c);
  }

  lemma {:induction false} LiveOnlyCursor(s: Bus, k: Client)
    requires ClientInv(s, k) && k.live && k.startFrom.None?
    ensures k.snapshot == [] && k.lastSent <= k.position
  {
  }
}
