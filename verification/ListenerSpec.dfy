/**
 What the listener does, said on values: what a sequence of upstream events amounts to, whichever Redis
 calls fail, and that attempts which replay the upstream log are a run of the ingestion protocol.
 */
module ListenerSpec {
  import opened Prelude
  import opened Events
  import opened Ingest

  /** An event as the upstream stream yields it. */
  datatype Incoming = Incoming(id: Option<nat>, isApiVersion: bool, json: Option<Value>)

  datatype StreamItem = Yield(event: Incoming) | StreamError

  /** One iteration of the outer loop. */
  datatype Attempt = StartFails | Streams(items: seq<StreamItem>) | ConfigFails

  /** Would connecting to Redis work at this point, and would the write? */
  datatype Luck = Luck(connects: bool, writes: bool)

  // ---------------------------------------------------------------- what a sequence of events amounts to

  function CursorAfter(cursor: Option<nat>, e: Incoming): Option<nat> {
    if e.id.Some? then e.id else cursor
  }

  function StoreAfter(store: Option<nat>, e: Incoming, written: bool): Option<nat> {
    if e.id.Some? && written then e.id else store
  }

  function PushedBy(e: Incoming): seq<Value> {
    if !e.isApiVersion && e.json.Some? then [e.json.value] else []
  }

  function VersionAfter(version: Option<Value>, e: Incoming): Option<Value> {
    if version.None? && e.isApiVersion then e.json else version
  }

  function LastCursor(cursor: Option<nat>, events: seq<Incoming>): Option<nat> {
    if events == [] then cursor
    else CursorAfter(LastCursor(cursor, events[..|events| - 1]), events[|events| - 1])
  }

  function AllPushed(events: seq<Incoming>): seq<Value> {
    if events == [] then [] else AllPushed(events[..|events| - 1]) + PushedBy(events[|events| - 1])
  }

  function FirstVersion(version: Option<Value>, events: seq<Incoming>): Option<Value> {
    if events == [] then version
    else VersionAfter(FirstVersion(version, events[..|events| - 1]), events[|events| - 1])
  }

  /** What is persisted in the end, when `written` tells which writes went through. */
  function LastStore(store: Option<nat>, events: seq<Incoming>, written: seq<bool>): Option<nat>
    requires |written| == |events|
  {
    var n := |events| - 1;
    if events == [] then store
    else StoreAfter(LastStore(store, events[..n], written[..n]), events[n], written[n])
  }

  /** The events of a stream before its first error. */
  function BeforeError(items: seq<StreamItem>): seq<Incoming> {
    if items == [] || items[0].StreamError? then [] else [items[0].event] + BeforeError(items[1..])
  }

  /** The attempts that are made: a configuration that cannot be built is the last. */
  function Made(attempts: seq<Attempt>): seq<Attempt> {
    if attempts == [] then []
    else if attempts[0].ConfigFails? then [attempts[0]]
    else [attempts[0]] + Made(attempts[1..])
  }

  function TakenBy(attempt: Attempt): seq<Incoming> {
    if attempt.Streams? then BeforeError(attempt.items) else []
  }

  /** The events taken over all these attempts. */
  function Taken(made: seq<Attempt>): seq<Incoming> {
    if made == [] then [] else Taken(made[..|made| - 1]) + TakenBy(made[|made| - 1])
  }

  /** What the listener changes: the bus it feeds, its cursor, the persisted id. */
  datatype Progress = Progress(history: seq<Value>, version: Option<Value>, cursor: Option<nat>, store: Option<nat>)

  /** Taking `events` leads from `p` to `q` when `written` tells which writes of the id went through. */
  predicate Fed(p: Progress, events: seq<Incoming>, written: seq<bool>, q: Progress) {
    && |written| == |events|
    && q.history == p.history + AllPushed(events)
    && q.version == FirstVersion(p.version, events)
    && q.cursor == LastCursor(p.cursor, events)
    && q.store == LastStore(p.store, events, written)
  }

  lemma {:induction false} FedNext(
    p: Progress, events: seq<Incoming>, written: seq<bool>, q: Progress, e: Incoming, w: bool, r: Progress)
    requires Fed(p, events, written, q)
    requires r == Progress(q.history + PushedBy(e), VersionAfter(q.version, e),
                           CursorAfter(q.cursor, e), StoreAfter(q.store, e, w))
    ensures Fed(p, events + [e], written + [w], r)
  {
    SnocFacts(p.cursor, p.version, events, e);
    Assoc(p.history, AllPushed(events), PushedBy(e));
    Cut(events, [e]);
    Cut(written, [w]);
  }

  lemma {:induction false} FedThen(
    p: Progress, events: seq<Incoming>, written: seq<bool>, q: Progress,
    more: seq<Incoming>, later: seq<bool>, r: Progress)
    requires Fed(p, events, written, q) && Fed(q, more, later, r)
    ensures Fed(p, events + more, written + later, r)
  {
    FedTwice(p.cursor, p.version, events, more);
    Assoc(p.history, AllPushed(events), AllPushed(more));
    StoreTwice(p.store, events, written, more, later);
  }

  lemma {:induction false} StoreTwice(
    store: Option<nat>, events: seq<Incoming>, written: seq<bool>, more: seq<Incoming>, later: seq<bool>)
    requires |written| == |events| && |later| == |more|
    ensures LastStore(store, events + more, written + later) == LastStore(LastStore(store, events, written), more, later)
    decreases |more|
  {
    if more == [] {
      assert events + more == events && written + later == written;
    } else {
      var n := |more| - 1;
      assert (events + more)[..|events + more| - 1] == events + more[..n];
      assert (written + later)[..|events + more| - 1] == written + later[..n];
      StoreTwice(store, events, written, more[..n], later[..n]);
    }
  }

  /** The persisted id is the old one or that of an event taken. */
  lemma {:induction false} StoreIsOldOrTaken(store: Option<nat>, events: seq<Incoming>, written: seq<bool>)
    requires |written| == |events|
    ensures var last := LastStore(store, events, written);
            last == store || exists e :: e in events && e.id.Some? && last == e.id
    decreases |events|
  {
    if events != [] {
      var n := |events| - 1;
      StoreIsOldOrTaken(store, events[..n], written[..n]);
      assert events[n] in events;
      assert forall e :: e in events[..n] ==> e in events;
    }
  }

  lemma {:induction false} SnocFacts(cursor: Option<nat>, version: Option<Value>, events: seq<Incoming>, e: Incoming)
    ensures LastCursor(cursor, events + [e]) == CursorAfter(LastCursor(cursor, events), e)
    ensures AllPushed(events + [e]) == AllPushed(events) + PushedBy(e)
    ensures FirstVersion(version, events + [e]) == VersionAfter(FirstVersion(version, events), e)
  {
  }

  /** The attempts made are a beginning of all, and end early only at a configuration that cannot be built. */
  lemma {:induction false} MadeShape(attempts: seq<Attempt>)
    ensures var made := Made(attempts);
            && |made| <= |attempts|
            && (forall i :: 0 <= i < |made| ==> made[i] == attempts[i])
            && (forall i :: 0 <= i < |made| ==> (made[i].ConfigFails? ==> i + 1 == |made|))
            && (|made| < |attempts| ==> made != [] && made[|made| - 1].ConfigFails?)
  {
    if attempts != [] && !attempts[0].ConfigFails? {
      MadeShape(attempts[1..]);
    }
  }

  /** The loop has made the first `i` attempts, and goes on or not. */
  predicate Makes(attempts: seq<Attempt>, i: nat, goesOn: bool) {
    && i <= |Made(attempts)| <= |attempts| && (i == 0 ==> goesOn)
    && (if goesOn then i == |attempts| || i < |Made(attempts)| else i == |Made(attempts)|)
  }

  lemma {:induction false} MakesNone(attempts: seq<Attempt>)
    ensures Makes(attempts, 0, true) && attempts[..0] == []
  {
    MadeShape(attempts);
  }

  lemma {:induction false} MakesNext(attempts: seq<Attempt>, i: nat)
    requires Makes(attempts, i, true) && i < |attempts|
    ensures Makes(attempts, i + 1, !attempts[i].ConfigFails?)
  {
    MadeShape(attempts);
  }

  lemma {:induction false} MakesAll(attempts: seq<Attempt>, i: nat, goesOn: bool)
    requires Makes(attempts, i, goesOn) && (goesOn ==> i == |attempts|)
    ensures attempts[..i] == Made(attempts) && (i > 0 <==> attempts != [])
  {
    MadeShape(attempts);
  }

  lemma {:induction false} TakenNext(made: seq<Attempt>, i: nat)
    requires i < |made|
    ensures Taken(made[..i + 1]) == Taken(made[..i]) + TakenBy(made[i])
  {
    assert made[..i + 1][..i] == made[..i];
  }

  lemma {:induction false} FedTwice(
    cursor: Option<nat>, version: Option<Value>, events: seq<Incoming>, more: seq<Incoming>)
    ensures LastCursor(cursor, events + more) == LastCursor(LastCursor(cursor, events), more)
    ensures AllPushed(events + more) == AllPushed(events) + AllPushed(more)
    ensures FirstVersion(version, events + more) == FirstVersion(FirstVersion(version, events), more)
    decreases |more|
  {
    if more == [] {
      assert events + more == events;
    } else {
      var n := |more| - 1;
      assert events + more == (events + more[..n]) + [more[n]];
      FedTwice(cursor, version, events, more[..n]);
      SnocFacts(cursor, version, events + more[..n], more[n]);
      Assoc(AllPushed(events), AllPushed(more[..n]), PushedBy(more[n]));
    }
  }

  // ---------------------------------------------------------------- what those functions say

  /** The events taken from a stream are its first `n` items, if the first error, or the end, is at `n`. */
  lemma {:induction false} TakenUntilError(items: seq<StreamItem>, n: nat)
    requires n <= |items| && (forall i :: 0 <= i < n ==> items[i].Yield?) && (n < |items| ==> items[n].StreamError?)
    ensures |BeforeError(items)| == n && forall i :: 0 <= i < n ==> BeforeError(items)[i] == items[i].event
    decreases n
  {
    if n > 0 {
      TakenUntilError(items[1..], n - 1);
    }
  }

  /** The cursor ends at the last id received; events without one leave it where it was. */
  lemma {:induction false} CursorIsLastId(cursor: Option<nat>, events: seq<Incoming>, k: nat)
    requires k <= |events| && forall i :: k <= i < |events| ==> events[i].id.None?
    requires k > 0 ==> events[k - 1].id.Some?
    ensures LastCursor(cursor, events) == if k > 0 then events[k - 1].id else cursor
    decreases |events|
  {
    if k < |events| {
      CursorIsLastId(cursor, events[..|events| - 1], k);
    }
  }

  /** An ApiVersion event that can be remembered. */
  predicate IsVersion(e: Incoming) {
    e.isApiVersion && e.json.Some?
  }

  /** What a bus that held `version` holds after `events`: that, or else the first version among them, or nothing. */
  predicate HoldsFirst(version: Option<Value>, events: seq<Incoming>, held: Option<Value>) {
    if version.Some? then held == version
    else
      && (held.None? <==> forall i :: 0 <= i < |events| ==> !IsVersion(events[i]))
      && (forall k :: 0 <= k < |events| && IsVersion(events[k]) && (forall i :: 0 <= i < k ==> !IsVersion(events[i])) ==>
            held == events[k].json)
  }

  lemma {:induction false} FirstVersionHolds(version: Option<Value>, events: seq<Incoming>)
    ensures HoldsFirst(version, events, FirstVersion(version, events))
    decreases |events|
  {
    if events != [] {
      var n := |events| - 1;
      var init := events[..n];
      FirstVersionHolds(version, init);
      var held := FirstVersion(version, init);
      if version.None? && held.Some? {
        var k := FirstAt(init);
        assert IsVersion(events[k]);
      }
    }
  }

  /** Where the first version is. */
  lemma {:induction false} FirstAt(events: seq<Incoming>) returns (k: nat)
    requires exists i :: 0 <= i < |events| && IsVersion(events[i])
    ensures k < |events| && IsVersion(events[k]) && forall i :: 0 <= i < k ==> !IsVersion(events[i])
    decreases |events|
  {
    if IsVersion(events[0]) {
      k := 0;
    } else {
      var i :| 0 <= i < |events| && IsVersion(events[i]);
      assert events[1..][i - 1] == events[i];
      k := FirstAt(events[1..]);
      k := k + 1;
    }
  }

  // ---------------------------------------------------------------- attempts that replay the upstream log

  /** An event of the log as it comes over the stream. */
  function OfItem(item: Item): Incoming {
    Incoming(Some(item.id), item.isApiVersion, item.json)
  }

  function FromLog(log: Log, lo: nat, hi: nat): seq<Incoming>
    requires hi <= |log|
  {
    if hi <= lo then [] else FromLog(log, lo, hi - 1) + [OfItem(log[hi - 1])]
  }

  /** The stream brings log entries `lo` up to `hi`, starting where upstream replays from. */
  predicate Brings(log: Log, cursor: Option<nat>, items: seq<StreamItem>, lo: nat, hi: nat) {
    && lo <= hi <= |log|
    && (cursor.Some? ==> lo == ReplayIndex(log, cursor.value))
    && BeforeError(items) == FromLog(log, lo, hi)
  }

  /** Every stream of these attempts replays the log inclusively from the cursor reached by then. */
  ghost predicate Replays(log: Log, cursor: Option<nat>, made: seq<Attempt>) {
    made != [] ==>
      var init, last := made[..|made| - 1], made[|made| - 1];
      && Replays(log, cursor, init)
      && (last.Streams? ==> exists lo, hi :: Brings(log, LastCursor(cursor, Taken(init)), last.items, lo, hi))
  }

  /** The payload pushed for log entry `i`. */
  function JsonOf(log: Log, i: nat): Value {
    if Good(log, i) then log[i].json.value else ""
  }

  function Jsons(log: Log, indices: seq<nat>): seq<Value> {
    seq(|indices|, k requires 0 <= k < |indices| => JsonOf(log, indices[k]))
  }

  /** The protocol's listener, between two connections, is where the object is. */
  predicate Represents(log: Log, s: Ingest.Listener, p: Progress) {
    && s.connection.None? && s.hand.Empty?
    && s.cursor == p.cursor && s.store == p.store
    && p.history == Jsons(log, s.pushed)
  }

  function Connects(made: seq<Attempt>): nat {
    if made == [] then 0
    else Connects(made[..|made| - 1]) + if made[|made| - 1].ConfigFails? then 0 else 1
  }

  lemma {:induction false} JsonsSnoc(log: Log, indices: seq<nat>, i: nat)
    ensures Jsons(log, indices + [i]) == Jsons(log, indices) + [JsonOf(log, i)]
  {
  }

  /** A numbered event handled by the object is the receive, persist and deliver steps of the protocol. */
  lemma {:induction false} HandleIsThreeSteps(log: Log, s: Ingest.Listener, written: bool)
      returns (steps: seq<Step>, t: Ingest.Listener)
    requires Enabled(log, s, Receive)
    ensures Runs(log, s, steps, t)
    ensures var i := s.connection.value;
            var e := OfItem(log[i]);
            && t.connection == Some(i + 1) && t.hand.Empty? && t.connects == s.connects
            && t.cursor == CursorAfter(s.cursor, e)
            && t.store == StoreAfter(s.store, e, written)
            && Jsons(log, t.pushed) == Jsons(log, s.pushed) + PushedBy(e)
  {
    var r := Apply(log, s, Receive);
    var p := Apply(log, r, Persist(written));
    t := Apply(log, p, Deliver);
    steps := [Receive, Persist(written), Deliver];
    assert steps[1..] == [Persist(written), Deliver] && [Persist(written), Deliver][1..] == [Deliver];
    assert Runs(log, t, [], t);
    assert Runs(log, p, [Deliver], t) && Runs(log, r, [Persist(written), Deliver], t);
    JsonsSnoc(log, s.pushed, s.connection.value);
    assert Jsons(log, s.pushed) + [] == Jsons(log, s.pushed);
  }

  lemma {:induction false} IngestThen(
    log: Log, s: Ingest.Listener, steps: seq<Step>, t: Ingest.Listener, more: seq<Step>, u: Ingest.Listener)
    requires Runs(log, s, steps, t) && Runs(log, t, more, u)
    ensures Runs(log, s, steps + more, u)
    decreases |steps|
  {
    if steps == [] {
      assert steps + more == more;
    } else {
      assert (steps + more)[1..] == steps[1..] + more;
      IngestThen(log, Apply(log, s, steps[0]), steps[1..], t, more, u);
    }
  }

  /** The events of one connection, one after the other. */
  lemma {:induction false} StreamIsRun(log: Log, s: Ingest.Listener, lo: nat, hi: nat, written: seq<bool>)
      returns (steps: seq<Step>, t: Ingest.Listener)
    requires lo <= hi <= |log| && |written| == |FromLog(log, lo, hi)|
    requires s.connection == Some(lo) && s.hand.Empty?
    ensures Runs(log, s, steps, t)
    ensures t.connection == Some(hi) && t.hand.Empty? && t.connects == s.connects
    ensures t.cursor == LastCursor(s.cursor, FromLog(log, lo, hi))
    ensures t.store == LastStore(s.store, FromLog(log, lo, hi), written)
    ensures Jsons(log, t.pushed) == Jsons(log, s.pushed) + AllPushed(FromLog(log, lo, hi))
    decreases hi
  {
    if lo == hi {
      steps, t := [], s;
      assert Jsons(log, s.pushed) + [] == Jsons(log, s.pushed);
    } else {
      var events, e, n := FromLog(log, lo, hi - 1), OfItem(log[hi - 1]), |written| - 1;
      var before, u := StreamIsRun(log, s, lo, hi - 1, written[..n]);
      var more;
      more, t := HandleIsThreeSteps(log, u, written[n]);
      IngestThen(log, s, before, u, more, t);
      steps := before + more;
      SnocFacts(s.cursor, None, events, e);
      assert FromLog(log, lo, hi)[..n] == events;
      Assoc(Jsons(log, s.pushed), AllPushed(events), PushedBy(e));
    }
  }

  /** One attempt: connect, follow, disconnect; or fail to connect. */
  lemma {:induction false} AttemptIsRun(
    log: Log, s: Ingest.Listener, attempt: Attempt, lo: nat, hi: nat, p: Progress, written: seq<bool>, q: Progress)
      returns (steps: seq<Step>, t: Ingest.Listener)
    requires Represents(log, s, p) && Fed(p, TakenBy(attempt), written, q)
    requires attempt.Streams? ==> Brings(log, p.cursor, attempt.items, lo, hi)
    ensures Runs(log, s, steps, t) && Represents(log, t, q)
    ensures t.connects == s.connects + if attempt.ConfigFails? then 0 else 1
  {
    match attempt {
      case ConfigFails =>
        steps, t := [], s;
      case StartFails =>
        steps, t := [ConnectFails], Apply(log, s, ConnectFails);
        assert Runs(log, t, [], t);
      case Streams(items) =>
        var connected := Apply(log, s, Connect(lo));
        var follow, u := StreamIsRun(log, connected, lo, hi, written);
        t := Apply(log, u, Disconnect);
        assert Runs(log, t, [], t) && [Disconnect][1..] == [] && [Connect(lo)][1..] == [];
        assert Runs(log, connected, [], connected);
        IngestThen(log, connected, follow, u, [Disconnect], t);
        IngestThen(log, s, [Connect(lo)], connected, follow + [Disconnect], t);
        steps := [Connect(lo)] + (follow + [Disconnect]);
    }
  }

  lemma {:induction false} FedSplit(p: Progress, a: seq<Incoming>, b: seq<Incoming>, written: seq<bool>, q: Progress)
      returns (m: Progress)
    requires Fed(p, a + b, written, q)
    ensures Fed(p, a, written[..|a|], m) && Fed(m, b, written[|a|..], q)
  {
    var first, rest := written[..|a|], written[|a|..];
    assert written == first + rest;
    m := Progress(p.history + AllPushed(a), FirstVersion(p.version, a), LastCursor(p.cursor, a), LastStore(p.store, a, first));
    FedTwice(p.cursor, p.version, a, b);
    StoreTwice(p.store, a, first, b, rest);
    Assoc(p.history, AllPushed(a), AllPushed(b));
  }

  /** Attempts that replay the log are a run of the protocol, step for step with what the bus is fed. */
  lemma {:induction false} ListeningIsRun(
    log: Log, s: Ingest.Listener, made: seq<Attempt>, p: Progress, written: seq<bool>, q: Progress)
      returns (steps: seq<Step>, t: Ingest.Listener)
    requires Represents(log, s, p) && Fed(p, Taken(made), written, q) && Replays(log, p.cursor, made)
    ensures Runs(log, s, steps, t) && Represents(log, t, q) && t.connects == s.connects + Connects(made)
    decreases |made|
  {
    if made == [] {
      steps, t := [], s;
      assert p.history + [] == p.history;
    } else {
      var init, last := made[..|made| - 1], made[|made| - 1];
      var m := FedSplit(p, Taken(init), TakenBy(last), written, q);
      var before, u := ListeningIsRun(log, s, init, p, written[..|Taken(init)|], m);
      var lo: nat, hi: nat := 0, 0;
      if last.Streams? {
        lo, hi :| Brings(log, m.cursor, last.items, lo, hi);
      }
      var more;
      more, t := AttemptIsRun(log, u, last, lo, hi, m, written[|Taken(init)|..], q);
      IngestThen(log, s, before, u, more, t);
      steps := before + more;
    }
  }
}
