/**
 The event bus object: an id counter, a bounded backlog, a broadcast channel and a once-cell,
 updated in place. Each method is the run of protocol steps it performs, and says outright
 what the bus holds afterwards.
 */
module EventBusObject {
  import opened Prelude
  import opened Events
  import BusProtocol
  import BusTheorems

  class EventBus {
    const backlogLimit: nat
    const broadcastCapacity: nat
    var nextId: nat
    var backlog: seq<Envelope>
    var dropped: nat
    var broadcasts: seq<Envelope>
    var apiVersion: Option<Value>
    ghost var history: seq<Value>

    /** The shared state as the protocol sees it between two pushes. */
    ghost function View(): BusProtocol.Bus
      reads this
    {
      BusProtocol.Bus(backlogLimit, broadcastCapacity, nextId, BusProtocol.Idle, backlog, dropped,
                      broadcasts, apiVersion, history, map[])
    }

    ghost predicate Valid()
      reads this
    {
      BusProtocol.BusInv(View())
    }

    constructor (limit: nat, capacity: nat)
      ensures Valid()
      ensures View() == BusProtocol.Initial(limit, capacity)
      ensures backlogLimit == Max(limit, 1) && broadcastCapacity == Max(capacity, 1)
      ensures nextId == 0 && history == [] && apiVersion == None
    {
      backlogLimit := Max(limit, 1);
      broadcastCapacity := Max(capacity, 1);
      nextId, backlog, dropped, broadcasts, apiVersion, history := 0, [], 0, [], None, [];
    }

    /** Numbers the event, keeps it in the backlog, broadcasts it. */
    method Push(data: Value) returns (envelope: Envelope)
      requires Valid()
      modifies this
      ensures Valid()
      ensures envelope == Envelope(|old(history)| + 1, data)
      ensures history == old(history) + [data]
      ensures broadcasts == old(broadcasts) + [envelope]
      ensures backlog == Segment(history, OldestRetained(|history|, backlogLimit), |history|, {})
      ensures |history| == |backlog| + dropped
      ensures apiVersion == old(apiVersion)
      ensures BusProtocol.Runs(old(View()), [BusProtocol.TakeId(data), BusProtocol.Append, BusProtocol.Broadcast], View())
    {
      ghost var start := View();
      ghost var s1, s2, s3 := ThreeSteps(start, data);
      nextId := nextId + 1;
      envelope := Envelope(nextId, data);
      backlog := backlog + [envelope];
      history := history + [data];
      if |backlog| > backlogLimit {
        backlog := backlog[1..];
        dropped := dropped + 1;
      }
      broadcasts := broadcasts + [envelope];
      assert View() == s3;
    }

    /** Stores the first ApiVersion only. */
    method RememberApiVersion(data: Value) returns (stored: bool)
      modifies this`apiVersion
      ensures stored <==> old(apiVersion).None?
      ensures apiVersion == if stored then Some(data) else old(apiVersion)
      ensures View() == BusProtocol.Apply(old(View()), BusProtocol.SetVersion(data))
    {
      stored := apiVersion.None?;
      if stored {
        apiVersion := Some(data);
      }
    }

    /** The retained events from `startFrom` on: consecutive, and all that there are. */
    method Snapshot(startFrom: nat) returns (items: seq<Envelope>)
      requires Valid()
      ensures items == Segment(history, Max(startFrom, OldestRetained(|history|, backlogLimit)), |history|, {})
      ensures forall e :: e in backlog && e.id >= startFrom ==> e in items
    {
      items := SnapshotFrom(backlog, startFrom);
      BusProtocol.SnapshotShape(View(), startFrom);
      SnapshotKeeps(backlog, startFrom);
    }

    /**
     A new receiver starts after everything pushed so far: at the place the protocol gives a client that
     connects now, whatever its transport, and due the next id to be pushed.
     */
    method Subscribe() returns (position: nat)
      requires Valid()
      ensures forall transport, startFrom ::
                var connect := BusProtocol.Connect(0, transport, startFrom);
                var client := BusProtocol.Apply(View(), connect).clients[0];
                client.position == client.subscribedAt == position && BusTheorems.FirstDue(client) == nextId + 1
    {
      position := |broadcasts|;
    }
  }

  lemma {:induction false} SnapshotKeeps(backlog: seq<Envelope>, startFrom: nat)
    ensures forall e :: e in SnapshotFrom(backlog, startFrom) <==> e in backlog && e.id >= startFrom
    decreases |backlog|
  {
    if backlog != [] {
      var n := |backlog| - 1;
      SnapshotKeeps(backlog[..n], startFrom);
      assert backlog == backlog[..n] + [backlog[n]];
    }
  }

  /** The three steps of a push, one after the other. */
  lemma {:induction false} ThreeSteps(s: BusProtocol.Bus, data: Value)
    returns (s1: BusProtocol.Bus, s2: BusProtocol.Bus, s3: BusProtocol.Bus)
    requires BusProtocol.BusInv(s) && s.producer.Idle?
    ensures s1 == BusProtocol.Apply(s, BusProtocol.TakeId(data))
    ensures s1.producer.Numbered? && s2 == BusProtocol.Apply(s1, BusProtocol.Append)
    ensures s2.producer.Appended? && s3 == BusProtocol.Apply(s2, BusProtocol.Broadcast)
    ensures BusProtocol.BusInv(s3)
    ensures BusProtocol.Runs(s, [BusProtocol.TakeId(data), BusProtocol.Append, BusProtocol.Broadcast], s3)
  {
    s1 := BusProtocol.Apply(s, BusProtocol.TakeId(data));
    s2 := BusProtocol.Apply(s1, BusProtocol.Append);
    s3 := BusProtocol.Apply(s2, BusProtocol.Broadcast);
    BusProtocol.BusInvStep(s, BusProtocol.TakeId(data));
    BusProtocol.BusInvStep(s1, BusProtocol.Append);
    BusProtocol.BusInvStep(s2, BusProtocol.Broadcast);
    var steps := [BusProtocol.TakeId(data), BusProtocol.Append, BusProtocol.Broadcast];
    assert steps[1..] == [BusProtocol.Append, BusProtocol.Broadcast];
    assert steps[1..][1..] == [BusProtocol.Broadcast];
    assert steps[1..][1..][1..] == [];
    assert BusProtocol.Runs(s3, [], s3);
    assert BusProtocol.Runs(s2, [BusProtocol.Broadcast], s3);
    assert BusProtocol.Runs(s1, [BusProtocol.Append, BusProtocol.Broadcast], s3);
  }
}
