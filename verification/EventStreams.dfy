/**
 The two event streams as the sequential code they are, given what they observe: the ApiVersion
 they waited for, the snapshot they took, the arrivals that woke their live loop, and how many
 frames the client takes before it goes away. Both produce the same `Script`.
 */
module EventStreams {
  import opened Prelude
  import opened Events
  import Bus = BusProtocol
  import BusTheorems

  lemma {:induction false} TakeFull<T>(done: seq<T>, rest: seq<T>, accepts: nat)
    requires |done| == accepts
    ensures Take(done + rest, accepts) == done
  {
  }

  lemma {:induction false} AsFramesCons(e: Envelope, rest: seq<Envelope>)
    ensures AsFrames([e] + rest) == [Event(e)] + AsFrames(rest)
  {
  }

  lemma {:induction false} AsFramesConcat(a: seq<Envelope>, b: seq<Envelope>)
    ensures AsFrames(a + b) == AsFrames(a) + AsFrames(b)
  {
  }

  /** The ApiVersion and the replay, event by event, until the client stops taking frames. */
  method SendReplay(version: Value, replay: seq<Envelope>, accepts: nat)
    returns (sent: seq<Frame>, lastSentId: nat, gone: bool)
    requires accepts > 0
    ensures gone <==> accepts < |replay| + 1
    ensures gone ==> sent == [ApiVersion(version)] + AsFrames(replay[..accepts - 1])
    ensures !gone ==> sent == [ApiVersion(version)] + AsFrames(replay) && lastSentId == LastId(replay)
  {
    sent, lastSentId := [ApiVersion(version)], 0;
    var i := 0;
    while i < |replay|
      invariant 0 <= i <= |replay| && |sent| == i + 1 <= accepts
      invariant sent == [ApiVersion(version)] + AsFrames(replay[..i])
      invariant lastSentId == LastId(replay[..i])
    {
      if |sent| == accepts {
        return sent, lastSentId, true;
      }
      assert replay[..i + 1] == replay[..i] + [replay[i]];
      AsFramesConcat(replay[..i], [replay[i]]);
      sent := sent + [Event(replay[i])];
      lastSentId := replay[i].id;
      i := i + 1;
    }
    assert replay[..i] == replay;
    gone := false;
  }

  /** The live loop, from `last` on, with some frames sent already. */
  method SendLive(already: seq<Frame>, last: nat, arrivals: seq<Arrival>, accepts: nat) returns (sent: seq<Frame>)
    requires |already| <= accepts
    ensures sent == Take(already + AsFrames(Fresh(last, arrivals)), accepts)
  {
    ghost var all := already + AsFrames(Fresh(last, arrivals));
    sent := already;
    var lastSentId := last;
    var i := 0;
    assert arrivals[0..] == arrivals;
    while i < |arrivals|
      invariant 0 <= i <= |arrivals| && |sent| <= accepts
      invariant all == sent + AsFrames(Fresh(lastSentId, arrivals[i..]))
    {
      var arrival := arrivals[i];
      assert arrivals[i..][1..] == arrivals[i + 1..];
      match arrival {
        case ClientGone => break;
        case ChannelClosed => break;
        case ClientMessage =>
        case Lagged(_) =>
        case Delivered(event) =>
          if event.id > lastSentId {
            AsFramesCons(event, Fresh(event.id, arrivals[i + 1..]));
            lastSentId := event.id;
            if |sent| == accepts {
              TakeFull(sent, [Event(event)] + AsFrames(Fresh(event.id, arrivals[i + 1..])), accepts);
              return;
            }
            sent := sent + [Event(event)];
          }
      }
      i := i + 1;
    }
    assert all == sent;
  }

  /**
   The websocket handler: the first `accepts` sends succeed, the next one fails and ends it.
   What reaches the client is the script, cut off there.
   */
  method HandleEventsSocket(
    version: Value, startFrom: Option<nat>, backlog: seq<Envelope>, arrivals: seq<Arrival>, accepts: nat)
    returns (sent: seq<Frame>)
    ensures var replay := if startFrom.Some? then SnapshotFrom(backlog, startFrom.value) else [];
            sent == Take(Script(version, replay, arrivals), accepts)
  {
    if accepts == 0 {
      return [];
    }
    var replay := [];
    if startFrom.Some? {
      replay := SnapshotFrom(backlog, startFrom.value);
    }
    var lastSentId, gone;
    sent, lastSentId, gone := SendReplay(version, replay, accepts);
    if gone {
      PrefixOfScript(version, replay, accepts - 1, arrivals);
      return;
    }
    AsFramesConcat(replay, Fresh(LastId(replay), arrivals));
    Assoc([ApiVersion(version)], AsFrames(replay), AsFrames(Fresh(LastId(replay), arrivals)));
    sent := SendLive(sent, lastSentId, arrivals, accepts);
  }

  lemma {:induction false} PrefixOfScript(version: Value, replay: seq<Envelope>, i: nat, arrivals: seq<Arrival>)
    requires i <= |replay|
    ensures Take(Script(version, replay, arrivals), i + 1) == [ApiVersion(version)] + AsFrames(replay[..i])
  {
  }

  /** Pulling the first two links of the chain: the ApiVersion, then the backlog items. */
  method PollReplay(version: Value, replay: seq<Envelope>, polls: nat) returns (items: seq<Frame>)
    ensures items == Take([ApiVersion(version)] + AsFrames(replay), polls)
  {
    ghost var all := [ApiVersion(version)] + AsFrames(replay);
    items := [];
    while |items| < polls && |items| < |replay| + 1
      invariant |items| <= |all| && |items| <= polls
      invariant items == all[..|items|]
      decreases |all| - |items|
    {
      var i := |items|;
      assert all[..i + 1] == all[..i] + [all[i]];
      items := items + [if i == 0 then ApiVersion(version) else Event(replay[i - 1])];
    }
  }

  /** Pulling the live link, with some items pulled already. */
  method PollLive(already: seq<Frame>, last: nat, arrivals: seq<BusArrival>, polls: nat) returns (items: seq<Frame>)
    requires |already| <= polls
    ensures items == Take(already + AsFrames(Fresh(last, arrivals)), polls)
  {
    ghost var all := already + AsFrames(Fresh(last, arrivals));
    items := already;
    var reached, next := last, 0;
    assert arrivals[0..] == arrivals;
    while |items| < polls
      invariant |items| <= polls && next <= |arrivals|
      invariant all == items + AsFrames(Fresh(reached, arrivals[next..]))
      decreases polls - |items|
    {
      var event, more;
      event, reached, next, more := NextLive(reached, arrivals, next);
      if !more {
        assert all == items;
        return;
      }
      AsFramesCons(event, Fresh(event.id, arrivals[next..]));
      items := items + [Event(event)];
    }
    TakeFull(items, AsFrames(Fresh(reached, arrivals[next..])), polls);
  }

  /**
   The SSE response: the snapshot is taken up front, before the ApiVersion is waited for, and the
   high-water mark starts at its end; the body is then pulled item by item, `polls` times.
   */
  method SseStream(
    version: Value, startFrom: Option<nat>, backlog: seq<Envelope>, arrivals: seq<BusArrival>, polls: nat)
    returns (items: seq<Frame>)
    ensures var replay := if startFrom.Some? then SnapshotFrom(backlog, startFrom.value) else [];
            items == Take(Script(version, replay, arrivals), polls)
  {
    var lastSentId := 0;
    var replay := [];
    if startFrom.Some? {
      replay := SnapshotFrom(backlog, startFrom.value);
      if replay != [] {
        lastSentId := replay[|replay| - 1].id;
      }
    }
    items := PollReplay(version, replay, polls);
    if polls <= |replay| {
      CutScript(version, replay, polls, arrivals);
      return;
    }
    AsFramesConcat(replay, Fresh(LastId(replay), arrivals));
    Assoc([ApiVersion(version)], AsFrames(replay), AsFrames(Fresh(LastId(replay), arrivals)));
    items := PollLive(items, lastSentId, arrivals, polls);
  }

  lemma {:induction false} CutScript(version: Value, replay: seq<Envelope>, n: nat, arrivals: seq<Arrival>)
    requires n <= |replay|
    ensures Take([ApiVersion(version)] + AsFrames(replay), n) == Take(Script(version, replay, arrivals), n)
  {
    AsFramesConcat(replay, Fresh(LastId(replay), arrivals));
  }

  /** One pull of the live part: skip what is stale or a lag, stop at the first fresh event. */
  method NextLive(last: nat, arrivals: seq<BusArrival>, from: nat)
    returns (event: Envelope, reached: nat, next: nat, more: bool)
    requires from <= |arrivals|
    ensures next <= |arrivals|
    ensures more ==> event.id == reached && Fresh(last, arrivals[from..]) == [event] + Fresh(reached, arrivals[next..])
    ensures !more ==> Fresh(last, arrivals[from..]) == []
  {
    event, reached, next, more := Envelope(0, ""), last, from, false;
    while next < |arrivals|
      invariant from <= next <= |arrivals|
      invariant Fresh(last, arrivals[from..]) == Fresh(last, arrivals[next..])
    {
      assert arrivals[next..][1..] == arrivals[next + 1..];
      var arrival: Arrival := arrivals[next];
      if arrival.ChannelClosed? {
        return;
      }
      next := next + 1;
      if arrival.Delivered? && arrival.event.id > last {
        event, reached, more := arrival.event, arrival.event.id, true;
        return;
      }
    }
  }

  // ---------------------------------------------------------------- the handlers and the protocol

  /** The replay is the consecutive events from where the client asked, or from the oldest retained, to the newest. */
  predicate ReplaysFrom(replay: seq<Envelope>, history: seq<Value>, limit: nat, startFrom: nat) {
    var n := |history|;
    var first := Max(startFrom, if n <= limit then 1 else n - limit + 1);
    if n < first then replay == [] else |replay| == n - first + 1 && Consecutive(replay, history, first)
  }

  lemma {:induction false} SuffixReplays(history: seq<Value>, limit: nat, startFrom: nat)
    requires limit >= 1
    ensures ReplaysFrom(SnapshotFrom(Segment(history, OldestRetained(|history|, limit), |history|, {}), startFrom),
                        history, limit, startFrom)
  {
    SnapshotIsSuffix(history, OldestRetained(|history|, limit), |history|, startFrom);
    SegmentToTheEnd(history, Max(startFrom, OldestRetained(|history|, limit)));
  }

  lemma {:induction false} SegmentToTheEnd(history: seq<Value>, first: nat)
    requires first >= 1
    ensures var events := Segment(history, first, |history|, {});
            if |history| < first then events == []
            else |events| == |history| - first + 1 && Consecutive(events, history, first)
  {
    if first <= |history| {
      SegmentIsConsecutive(history, first, |history|);
    }
  }

  /** So it is on the backlog of any bus that can be reached. */
  lemma {:induction false} ReplayStartsWhereAsked(
    backlogLimit: nat, capacity: nat, steps: seq<Bus.Step>, t: Bus.Bus, startFrom: nat)
    requires Bus.Runs(Bus.Initial(backlogLimit, capacity), steps, t)
    ensures ReplaysFrom(SnapshotFrom(t.backlog, startFrom), t.history, Max(backlogLimit, 1), startFrom)
  {
    var limit := Max(backlogLimit, 1);
    assert t.backlog == Segment(t.history, OldestRetained(|t.history|, limit), |t.history|, {}) by {
      BusTheorems.RunKeepsInv(backlogLimit, capacity, steps, t);
      BusTheorems.LimitsAreFixed(Bus.Initial(backlogLimit, capacity), steps, t);
    }
    SuffixReplays(t.history, limit, startFrom);
  }

  /** The script opens with the ApiVersion and then the replay, event by event. */
  lemma {:induction false} ScriptOpens(version: Value, replay: seq<Envelope>, arrivals: seq<Arrival>)
    ensures var script := Script(version, replay, arrivals);
            && |script| > |replay| && script[0] == ApiVersion(version)
            && forall i :: 0 <= i < |replay| ==> script[1 + i] == Event(replay[i])
  {
  }

  /**
   What a client of the protocol has been sent, once live, is what either handler sends that is given its
   `start_from`, the backlog it took its snapshot of, and what its receiver returned.
   */
  lemma {:induction false} ClientsRunTheHandlers(
    backlogLimit: nat, capacity: nat, before: seq<Bus.Step>, b: Bus.Bus, c: nat, after: seq<Bus.Step>, t: Bus.Bus)
    requires Bus.Runs(Bus.Initial(backlogLimit, capacity), before, b) && Bus.Enabled(b, Bus.Snapshot(c))
    requires Bus.Runs(Bus.Apply(b, Bus.Snapshot(c)), after, t) && c in t.clients && t.clients[c].live
    ensures t.apiVersion.Some?
    ensures t.clients[c].output ==
            Script(t.apiVersion.value, SnapshotFrom(b.backlog, b.clients[c].startFrom.value), t.clients[c].inbox)
  {
    BusTheorems.RunKeepsInv(backlogLimit, capacity, before, b);
    Bus.InvStep(b, Bus.Snapshot(c));
    Bus.InvHolds(Bus.Apply(b, Bus.Snapshot(c)), after, t);
    BusTheorems.ClientFixtures(Bus.Apply(b, Bus.Snapshot(c)), after, t, c);
    BusTheorems.LiveOutputIsScript(t, c);
  }

  /** Without `start_from` nothing is replayed. */
  lemma {:induction false} LiveClientsRunTheHandlers(
    backlogLimit: nat, capacity: nat, steps: seq<Bus.Step>, t: Bus.Bus, c: nat)
    requires Bus.Runs(Bus.Initial(backlogLimit, capacity), steps, t)
    requires c in t.clients && t.clients[c].live && t.clients[c].startFrom.None?
    ensures t.apiVersion.Some?
    ensures t.clients[c].output == Script(t.apiVersion.value, [], t.clients[c].inbox)
  {
    BusTheorems.RunKeepsInv(backlogLimit, capacity, steps, t);
    assert Bus.ClientInv(t, t.clients[c]);
    BusTheorems.LiveOutputIsScript(t, c);
  }
}
