/**
 The event bus as a step system: one producer and any number of clients.

 A push is three separate steps (take an id, append under the backlog lock, broadcast) and
 a client's life is a sequence of steps (subscribe, greet, snapshot, replay, go live, receive);
 they interleave freely. The two transports differ only in when they take the snapshot.

 Environment: the broadcast channel is a log of which a ring keeps the last `capacity` entries;
 a receiver that has fallen behind is moved to the oldest kept entry. (A send while nobody is
 subscribed is discarded by the channel; no receiver could ever have read it, so the log keeps it.)
 Exactly one producer feeds a bus.
 */
module BusProtocol {
  import opened Prelude
  import opened Events

  datatype Transport = WebSocket | Sse

  datatype Producer = Idle | Numbered(event: Envelope) | Appended(event: Envelope)

  datatype Client = Client(
    transport: Transport,
    startFrom: Option<nat>,
    open: bool,
    subscribedAt: nat,        // history: how many broadcasts preceded the subscription
    position: nat,            // the receiver's place in the broadcast log
    greeted: bool,
    snapped: bool,
    live: bool,
    snapshot: seq<Envelope>,
    replayed: nat,
    lastSent: nat,
    inbox: seq<Arrival>,      // history: what the receiver has returned
    missed: set<nat>,         // history: ids lost to lagging
    output: seq<Frame>
  )

  datatype Bus = Bus(
    limit: nat,
    capacity: nat,
    nextId: nat,
    producer: Producer,
    backlog: seq<Envelope>,
    dropped: nat,
    log: seq<Envelope>,
    apiVersion: Option<Value>,
    history: seq<Value>,      // history: the payloads appended so far, in order
    clients: map<nat, Client>
  ) {
    /** Index of the oldest broadcast the ring still holds. */
    function Oldest(): nat {
      if |log| <= capacity then 0 else |log| - capacity
    }
  }

  datatype Step =
    | TakeId(data: Value)
    | Append
    | Broadcast
    | SetVersion(version: Value)
    | Connect(who: nat, transport: Transport, startFrom: Option<nat>)
    | Greet(who: nat)
    | Snapshot(who: nat)
    | Replay(who: nat)
    | GoLive(who: nat)
    | Receive(who: nat)
    | HangUp(who: nat)

  /** `EventBus::new` raises both bounds to at least one. */
  function Initial(backlogLimit: nat, broadcastCapacity: nat): Bus {
    Bus(Max(backlogLimit, 1), Max(broadcastCapacity, 1), 0, Idle, [], 0, [], None, [], map[])
  }

  predicate Present(s: Bus, c: nat) {
    c in s.clients && s.clients[c].open
  }

  predicate Enabled(s: Bus, step: Step) {
    match step
    case TakeId(_) => s.producer.Idle?
    case Append => s.producer.Numbered?
    case Broadcast => s.producer.Appended?
    case SetVersion(_) => true
    case Connect(c, _, _) => c !in s.clients
    case Greet(c) => Present(s, c) && CanGreet(s.clients[c]) && s.apiVersion.Some?
    case Snapshot(c) => Present(s, c) && CanSnapshot(s.clients[c])
    case Replay(c) => Present(s, c) && CanReplay(s.clients[c])
    case GoLive(c) => Present(s, c) && CanGoLive(s.clients[c])
    case Receive(c) => Present(s, c) && s.clients[c].live && s.clients[c].position < |s.log|
    case HangUp(c) => Present(s, c)
  }

  /** The websocket greets right away, the SSE stream only once its snapshot is taken. */
  predicate CanGreet(k: Client) {
    !k.greeted && (k.transport.Sse? && k.startFrom.Some? ==> k.snapped)
  }

  /** The websocket takes its snapshot after greeting, the SSE stream before. */
  predicate CanSnapshot(k: Client) {
    k.startFrom.Some? && !k.snapped && (k.transport.WebSocket? <==> k.greeted)
  }

  predicate CanReplay(k: Client) {
    k.greeted && !k.live && k.replayed < |k.snapshot|
  }

  predicate CanGoLive(k: Client) {
    k.greeted && !k.live && k.replayed == |k.snapshot| && (k.startFrom.Some? ==> k.snapped)
  }

  function Apply(s: Bus, step: Step): Bus
    requires Enabled(s, step)
  {
    match step
    case TakeId(data) =>
      s.(nextId := s.nextId + 1, producer := Numbered(Envelope(s.nextId + 1, data)))
    case Append =>
      var e := s.producer.event;
      s.(producer := Appended(e),
         backlog := Remember(s.backlog, e, s.limit),
         dropped := s.dropped + (if |s.backlog| + 1 > s.limit then 1 else 0),
         history := s.history + [e.data])
    case Broadcast => s.(producer := Idle, log := s.log + [s.producer.event])
    case SetVersion(v) => if s.apiVersion.None? then s.(apiVersion := Some(v)) else s
    case Connect(c, transport, startFrom) =>
      Set(s, c, Client(transport, startFrom, true, |s.log|, |s.log|, false, false, false, [], 0, 0, [], {}, []))
    case Greet(c) =>
      var k := s.clients[c];
      Set(s, c, k.(greeted := true, output := k.output + [ApiVersion(s.apiVersion.value)]))
    case Snapshot(c) => Set(s, c, TakeSnapshot(s.clients[c], s.backlog))
    case Replay(c) => Set(s, c, ReplayOne(s.clients[c]))
    case GoLive(c) => Set(s, c, s.clients[c].(live := true))
    case Receive(c) => Set(s, c, ReceiveOne(s.clients[c], s.log, s.Oldest()))
    case HangUp(c) => Set(s, c, s.clients[c].(open := false))
  }

  function Set(s: Bus, c: nat, k: Client): Bus {
    s.(clients := s.clients[c := k])
  }

  /** The SSE stream already counts the snapshot as sent; the websocket counts event by event. */
  function TakeSnapshot(k: Client, backlog: seq<Envelope>): Client
    requires k.startFrom.Some?
  {
    var items := SnapshotFrom(backlog, k.startFrom.value);
    k.(snapped := true, snapshot := items,
       lastSent := if k.transport.Sse? && items != [] then LastId(items) else k.lastSent)
  }

  function ReplayOne(k: Client): Client
    requires k.replayed < |k.snapshot|
  {
    var e := k.snapshot[k.replayed];
    k.(replayed := k.replayed + 1,
       output := k.output + [Event(e)],
       lastSent := if k.transport.WebSocket? then e.id else k.lastSent)
  }

  /** One `recv`: either the news of a lag, or the next event, passed on if it is above `lastSent`. */
  function ReceiveOne(k: Client, log: seq<Envelope>, oldest: nat): Client
    requires k.position < |log|
  {
    if k.position < oldest then FallBehind(k, oldest) else Deliver(k, log[k.position])
  }

  function FallBehind(k: Client, oldest: nat): Client
    requires k.position < oldest
  {
    k.(position := oldest,
       inbox := k.inbox + [Lagged(oldest - k.position)],
       missed := k.missed + LostByLag(k, oldest))
  }

  function Deliver(k: Client, e: Envelope): Client {
    var k' := k.(position := k.position + 1, inbox := k.inbox + [Delivered(e)]);
    if e.id > k.lastSent then k'.(lastSent := e.id, output := k.output + [Event(e)]) else k'
  }

  /** The ids a lag costs the client: those it jumps over that it had not been sent already. */
  function LostByLag(k: Client, oldest: nat): set<nat> {
    IdsBetween(Reached(k), oldest)
  }

  /** The ids above `lo`, up to `hi`. */
  function IdsBetween(lo: nat, hi: nat): (ids: set<nat>)
    ensures forall id :: id in ids <==> lo < id <= hi
  {
    if hi <= lo then {} else IdsBetween(lo, hi - 1) + {hi}
  }

  /** Everything up to this id has been sent to a live client or is lost to it. */
  function Reached(k: Client): nat {
    Max(k.lastSent, k.position)
  }

  ghost predicate Runs(s: Bus, steps: seq<Step>, t: Bus)
    decreases |steps|
  {
    if steps == [] then s == t
    else Enabled(s, steps[0]) && Runs(Apply(s, steps[0]), steps[1..], t)
  }

  // ---------------------------------------------------------------- invariants

  /** The shared part: one producer keeps ids, history, backlog and broadcast log in step. */
  ghost predicate BusInv(s: Bus) {
    && s.limit >= 1 && s.capacity >= 1
    && s.nextId == |s.history| + (if s.producer.Numbered? then 1 else 0)
    && (s.producer.Numbered? ==> s.producer.event.id == s.nextId)
    && |s.history| == |s.log| + (if s.producer.Appended? then 1 else 0)
    && (s.producer.Appended? ==> s.producer.event == Envelope(|s.history|, s.history[|s.history| - 1]))
    && (forall i :: 0 <= i < |s.log| ==> s.log[i] == Envelope(i + 1, s.history[i]))
    && s.backlog == Segment(s.history, OldestRetained(|s.history|, s.limit), |s.history|, {})
    && |s.history| == |s.backlog| + s.dropped
  }

  /** The first live id: above the snapshot and above what preceded the subscription. */
  function LiveFrom(k: Client): nat {
    Max(LastId(k.snapshot), k.subscribedAt) + 1
  }

  ghost predicate SnapshotInv(history: seq<Value>, k: Client) {
    && (k.startFrom.None? ==> !k.snapped)
    && (!k.snapped ==> k.snapshot == [])
    && (k.snapshot != [] ==>
          var lo, hi := k.snapshot[0].id, LastId(k.snapshot);
          && 1 <= lo && k.subscribedAt <= hi <= |history|
          && k.snapshot == Segment(history, lo, hi, {}))
  }

  predicate CursorInv(k: Client) {
    && k.replayed <= |k.snapshot|
    && (k.transport.WebSocket? ==> k.lastSent == if k.replayed == 0 then 0 else k.snapshot[k.replayed - 1].id)
    && (k.transport.Sse? ==> k.lastSent == LastId(k.snapshot))
    && k.position == k.subscribedAt
    && k.missed == {} && k.inbox == []
  }

  ghost predicate LiveInv(history: seq<Value>, k: Client) {
    && k.greeted && k.replayed == |k.snapshot|
    && k.subscribedAt <= k.position
    && LastId(k.snapshot) <= k.lastSent <= Max(LastId(k.snapshot), k.position)
    && Reached(k) <= |history|
    && (forall a :: a in k.inbox ==> a.Delivered? || a.Lagged?)
    && HighWater(LastId(k.snapshot), k.inbox) == k.lastSent
    && Fresh(LastId(k.snapshot), k.inbox) == Segment(history, LiveFrom(k), Reached(k), k.missed)
    && forall m :: m in k.missed ==> LiveFrom(k) <= m <= Reached(k)
  }

  /** The events among what a client has been sent. */
  function Sent(k: Client): seq<Envelope>
    requires k.replayed <= |k.snapshot|
  {
    if k.live then k.snapshot + Fresh(LastId(k.snapshot), k.inbox) else k.snapshot[..k.replayed]
  }

  ghost predicate ClientInv(s: Bus, k: Client) {
    && k.position <= |s.log|
    && k.replayed <= |k.snapshot|
    && SnapshotInv(s.history, k)
    && (if k.live then LiveInv(s.history, k) else CursorInv(k))
    && (forall m :: m in k.missed ==> m <= s.Oldest())
    && (!k.greeted ==> k.replayed == 0)
    && (k.live && k.startFrom.Some? ==> k.snapped)
    && (if k.transport.Sse? then k.greeted && k.startFrom.Some? ==> k.snapped else k.snapped ==> k.greeted)
    && OutputInv(s.apiVersion, k)
  }

  /** What a client has been sent: the ApiVersion first, then events. */
  predicate OutputInv(version: Option<Value>, k: Client)
    requires k.replayed <= |k.snapshot|
  {
    && (k.greeted ==> version.Some?)
    && k.output == (if k.greeted then [ApiVersion(version.value)] else []) + AsFrames(Sent(k))
  }

  ghost predicate Inv(s: Bus) {
    BusInv(s) && forall c :: c in s.clients ==> ClientInv(s, s.clients[c])
  }

  lemma {:induction false} AppendKeepsBusInv(s: Bus)
    requires BusInv(s) && s.producer.Numbered?
    ensures BusInv(Apply(s, Append))
  {
    RememberKeepsTheLast(s.history, s.producer.event.data, s.limit, s.backlog);
    SegmentLength(s.history, OldestRetained(|s.history|, s.limit), |s.history|);
  }

  lemma {:induction false} BusInvStep(s: Bus, step: Step)
    requires BusInv(s) && Enabled(s, step)
    ensures BusInv(Apply(s, step))
  {
    if step.Append? {
      AppendKeepsBusInv(s);
    }
  }

  /** What the producer does never disturbs what holds of a client. */
  predicate Grows(s: Bus, t: Bus) {
    && s.history <= t.history && s.log <= t.log && s.capacity == t.capacity
    && (s.apiVersion.Some? ==> t.apiVersion == s.apiVersion)
  }

  lemma {:induction false} ClientInvFrame(s: Bus, t: Bus, k: Client)
    requires ClientInv(s, k) && Grows(s, t)
    ensures ClientInv(t, k)
  {
    if k.snapshot != [] {
      SegmentStable(s.history, t.history, k.snapshot[0].id, LastId(k.snapshot), {}, {});
    }
    if k.live {
      SegmentStable(s.history, t.history, LiveFrom(k), Reached(k), k.missed, k.missed);
    }
    assert s.Oldest() <= t.Oldest();
  }

  /** A snapshot is the retained suffix of the history from `startFrom` on. */
  lemma {:induction false} SnapshotShape(s: Bus, startFrom: nat)
    requires BusInv(s)
    ensures var n := |s.history|;
            var lo := Max(startFrom, OldestRetained(n, s.limit));
            var items := SnapshotFrom(s.backlog, startFrom);
            && items == Segment(s.history, lo, n, {})
            && (items == [] <==> n < lo)
            && (items != [] ==> items[0].id == lo && LastId(items) == n)
  {
    var n := |s.history|;
    var lo := Max(startFrom, OldestRetained(n, s.limit));
    SnapshotIsSuffix(s.history, OldestRetained(n, s.limit), n, startFrom);
    if lo <= n {
      SegmentIsConsecutive(s.history, lo, n);
    }
  }

  lemma {:induction false} SnapshotKeepsInv(s: Bus, k: Client)
    requires BusInv(s) && ClientInv(s, k) && CanSnapshot(k)
    ensures ClientInv(s, TakeSnapshot(k, s.backlog))
  {
    SnapshotShape(s, k.startFrom.value);
    var k' := TakeSnapshot(k, s.backlog);
    assert !k.live && k.replayed == 0;
    assert SnapshotInv(s.history, k');
    assert CursorInv(k');
    assert Sent(k') == Sent(k) == [];
  }

  lemma {:induction false} ReplayKeepsInv(s: Bus, k: Client)
    requires ClientInv(s, k) && CanReplay(k)
    ensures ClientInv(s, ReplayOne(k))
  {
  }

  lemma {:induction false} GoLiveKeepsInv(s: Bus, k: Client)
    requires BusInv(s) && ClientInv(s, k) && CanGoLive(k)
    ensures ClientInv(s, k.(live := true))
  {
  }

  lemma {:induction false} LagKeepsLiveInv(history: seq<Value>, k: Client, oldest: nat)
    requires LiveInv(history, k) && k.position < oldest <= |history|
    ensures LiveInv(history, FallBehind(k, oldest))
  {
    var k' := FallBehind(k, oldest);
    var next := Lagged(oldest - k.position);
    assert Fresh(LastId(k.snapshot), k'.inbox) == Fresh(LastId(k.snapshot), k.inbox)
           && HighWater(LastId(k.snapshot), k'.inbox) == k.lastSent by {
      FreshSnoc(LastId(k.snapshot), k.inbox, next);
      Cut(k.inbox, [next]);
      assert Fresh(LastId(k.snapshot), k.inbox) + [] == Fresh(LastId(k.snapshot), k.inbox);
    }
    LagSegment(history, LiveFrom(k), Reached(k), Reached(k'), k.missed);
  }

  /** What a lag jumps over contributes nothing to what was sent. */
  lemma {:induction false} LagSegment(history: seq<Value>, lo: nat, mid: nat, hi: nat, missed: set<nat>)
    requires 1 <= lo <= mid + 1 && mid <= hi <= |history|
    ensures Segment(history, lo, hi, missed + IdsBetween(mid, hi)) == Segment(history, lo, mid, missed)
  {
    var more := missed + IdsBetween(mid, hi);
    SegmentStable(history, history, lo, mid, missed, more);
    SegmentSkips(history, lo, mid, hi, more);
  }

  lemma {:induction false} DeliveryKeepsLiveInv(history: seq<Value>, k: Client, e: Envelope)
    requires LiveInv(history, k) && k.position < |history|
    requires e == Envelope(k.position + 1, history[k.position])
    ensures LiveInv(history, Deliver(k, e))
  {
    FreshSnoc(LastId(k.snapshot), k.inbox, Delivered(e));
    assert (k.inbox + [Delivered(e)])[..|k.inbox|] == k.inbox;
  }

  lemma {:induction false} LagOutput(version: Option<Value>, k: Client, oldest: nat)
    requires k.live && k.replayed <= |k.snapshot| && k.position < oldest
    requires forall a :: a in k.inbox ==> a.Delivered? || a.Lagged?
    requires OutputInv(version, k)
    ensures OutputInv(version, FallBehind(k, oldest))
  {
    FreshSnoc(LastId(k.snapshot), k.inbox, Lagged(oldest - k.position));
    assert Fresh(LastId(k.snapshot), k.inbox) + [] == Fresh(LastId(k.snapshot), k.inbox);
    assert Sent(FallBehind(k, oldest)) == Sent(k);
  }

  lemma {:induction false} LagKeepsInv(s: Bus, k: Client)
    requires BusInv(s) && ClientInv(s, k) && k.live && k.position < s.Oldest()
    ensures ClientInv(s, FallBehind(k, s.Oldest()))
  {
    LagKeepsLiveInv(s.history, k, s.Oldest());
    LagOutput(s.apiVersion, k, s.Oldest());
  }

  lemma {:induction false} DeliveryKeepsInv(s: Bus, k: Client)
    requires BusInv(s) && ClientInv(s, k) && k.live && s.Oldest() <= k.position < |s.log|
    ensures ClientInv(s, ReceiveOne(k, s.log, s.Oldest()))
  {
    var e := s.log[k.position];
    var k' := ReceiveOne(k, s.log, s.Oldest());
    assert e == Envelope(k.position + 1, s.history[k.position]);
    assert LiveInv(s.history, k') by {
      DeliveryKeepsLiveInv(s.history, k, e);
    }
    assert OutputInv(s.apiVersion, k') by {
      DeliveryOutput(s.apiVersion, k, e);
    }
  }

  lemma {:induction false} DeliveryOutput(version: Option<Value>, k: Client, e: Envelope)
    requires k.live && k.replayed <= |k.snapshot|
    requires forall a :: a in k.inbox ==> a.Delivered? || a.Lagged?
    requires HighWater(LastId(k.snapshot), k.inbox) == k.lastSent
    requires OutputInv(version, k)
    ensures OutputInv(version, Deliver(k, e))
  {
    var passed := Fresh(LastId(k.snapshot), k.inbox);
    FreshSnoc(LastId(k.snapshot), k.inbox, Delivered(e));
    if e.id > k.lastSent {
      Assoc(k.snapshot, passed, [e]);
      assert Sent(Deliver(k, e)) == Sent(k) + [e];
      assert AsFrames(Sent(k) + [e]) == AsFrames(Sent(k)) + [Event(e)];
    } else {
      assert passed + [] == passed;
      assert Sent(Deliver(k, e)) == Sent(k);
    }
  }

  lemma {:induction false} GreetKeepsInv(s: Bus, k: Client)
    requires ClientInv(s, k) && CanGreet(k) && s.apiVersion.Some?
    ensures ClientInv(s, k.(greeted := true, output := k.output + [ApiVersion(s.apiVersion.value)]))
  {
  }

  lemma {:induction false} OwnStepKeepsInv(s: Bus, c: nat, step: Step)
    requires Inv(s) && Enabled(s, step) && c in s.clients && OwnStep(step, c) && c in Apply(s, step).clients
    ensures ClientInv(s, Apply(s, step).clients[c])
  {
    var k := s.clients[c];
    match step {
      case Greet(_) => GreetKeepsInv(s, k);
      case Snapshot(_) => SnapshotKeepsInv(s, k);
      case Replay(_) => ReplayKeepsInv(s, k);
      case GoLive(_) => GoLiveKeepsInv(s, k);
      case Receive(_) =>
        if k.position < s.Oldest() { LagKeepsInv(s, k); } else { DeliveryKeepsInv(s, k); }
      case HangUp(_) => HangUpKeepsInv(s, k);
    }
  }

  lemma {:induction false} HangUpKeepsInv(s: Bus, k: Client)
    requires ClientInv(s, k)
    ensures ClientInv(s, k.(open := false))
  {
  }

  predicate OwnStep(step: Step, c: nat) {
    (step.Greet? || step.Snapshot? || step.Replay? || step.GoLive? || step.Receive? || step.HangUp?) && step.who == c
  }

  /** Which parts of the state a step touches. */
  lemma {:induction false} StepFrame(s: Bus, step: Step)
    requires Enabled(s, step)
    ensures Grows(s, Apply(s, step))
    ensures step.Connect? ==> Apply(s, step).clients.Keys == s.clients.Keys + {step.who}
    ensures !step.Connect? ==> Apply(s, step).clients.Keys == s.clients.Keys
    ensures forall c :: c in s.clients && !OwnStep(step, c) ==> Apply(s, step).clients[c] == s.clients[c]
  {
  }

  lemma {:induction false} ConnectEstablishesInv(s: Bus, step: Step)
    requires BusInv(s) && Enabled(s, step) && step.Connect?
    ensures ClientInv(s, Apply(s, step).clients[step.who])
  {
  }

  lemma {:induction false} ClientInvStep(s: Bus, step: Step, c: nat)
    requires Inv(s) && Enabled(s, step) && c in Apply(s, step).clients
    ensures ClientInv(Apply(s, step), Apply(s, step).clients[c])
  {
    var t := Apply(s, step);
    var k := t.clients[c];
    StepFrame(s, step);
    assert ClientInv(s, k) by {
      if c !in s.clients {
        ConnectEstablishesInv(s, step);
      } else if OwnStep(step, c) {
        OwnStepKeepsInv(s, c, step);
      }
    }
    ClientInvFrame(s, t, k);
  }

  lemma {:induction false} InvStep(s: Bus, step: Step)
    requires Inv(s) && Enabled(s, step)
    ensures Inv(Apply(s, step))
  {
    BusInvStep(s, step);
    forall c | c in Apply(s, step).clients
      ensures ClientInv(Apply(s, step), Apply(s, step).clients[c])
    {
      ClientInvStep(s, step, c);
    }
  }

  lemma {:induction false} InvHolds(s: Bus, steps: seq<Step>, t: Bus)
    requires Inv(s) && Runs(s, steps, t)
    ensures Inv(t)
    decreases |steps|
  {
    if steps != [] {
      InvStep(s, steps[0]);
      InvHolds(Apply(s, steps[0]), steps[1..], t);
    }
  }
}
