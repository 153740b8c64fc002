/**
 The SSE listener as the nested loop it is: connect, take events until the stream ends or errs,
 reconnect from the last id; for each event move the cursor, try to persist it, feed the bus.
 What upstream sends, and which Redis calls succeed, are inputs.
 */
module SseListener {
  import opened Prelude
  import opened Events
  import opened EventBusObject
  import opened ListenerSpec
  import Ingest

  class Listener {
    const bus: EventBus
    const redisConfigured: bool
    var redisConnected: bool
    var store: Option<nat>
    var startFrom: Option<nat>
    var firstConnect: bool
    var reconnects: nat
    var ingested: nat

    ghost function State(): Progress
      reads this, bus
    {
      Progress(bus.history, bus.apiVersion, startFrom, store)
    }

    /**
     Connects to Redis if it is configured, and resumes from the stored id if that can be read. With a new
     bus that is the state of the protocol after a restart, from any state that left this id in the store.
     */
    constructor (bus: EventBus, redisConfigured: bool, store: Option<nat>, connects: bool, readable: bool)
      ensures this.bus == bus && this.redisConfigured == redisConfigured
      ensures firstConnect && reconnects == 0 && ingested == 0 && redisConnected == (redisConfigured && connects)
      ensures var loads := redisConfigured && connects && readable;
              bus.history == [] ==>
                forall log, s: Ingest.Listener :: s.store == store ==>
                  Represents(log, Ingest.Apply(log, s, Ingest.Restart(loads)), State())
    {
      this.bus := bus;
      this.redisConfigured := redisConfigured;
      this.store := store;
      redisConnected := redisConfigured && connects;
      startFrom := if redisConfigured && connects && readable then store else None;
      firstConnect, reconnects, ingested := true, 0, 0;
    }

    /** Would a write at this point go through? */
    predicate Writes(luck: Luck)
      reads this
    {
      redisConfigured && (redisConnected || luck.connects) && luck.writes
    }

    /** Writes the id if Redis is there, connecting first if need be; a failed write drops the connection. */
    method Persist(id: nat, luck: Luck)
      modifies this`redisConnected, this`store
      ensures var written := redisConfigured && (old(redisConnected) || luck.connects) && luck.writes;
              && store == (if written then Some(id) else old(store))
              && redisConnected == if redisConfigured then written else old(redisConnected)
    {
      if redisConfigured {
        if !redisConnected {
          redisConnected := luck.connects;
        }
        if redisConnected {
          if luck.writes {
            store := Some(id);
          } else {
            redisConnected := false;
          }
        }
      }
    }

    /** One event: cursor, then store, then bus. */
    method Handle(e: Incoming, luck: Luck)
      requires bus.Valid()
      modifies this`redisConnected, this`store, this`startFrom, this`ingested, bus
      ensures startFrom == if e.id.Some? then e.id else old(startFrom)
      ensures var written := redisConfigured && (old(redisConnected) || luck.connects) && luck.writes;
              && store == (if e.id.Some? && written then e.id else old(store))
              && redisConnected == if e.id.Some? && redisConfigured then written else old(redisConnected)
      ensures ingested == old(ingested) + 1
      ensures bus.Valid()
      ensures bus.history == old(bus.history) + if e.isApiVersion || e.json.None? then [] else [e.json.value]
      ensures bus.apiVersion == if e.isApiVersion && e.json.Some? && old(bus.apiVersion).None? then e.json else old(bus.apiVersion)
    {
      ingested := ingested + 1;
      if e.id.Some? {
        startFrom := e.id;
        Persist(e.id.value, luck);
      }
      if e.isApiVersion {
        if e.json.Some? {
          var _ := bus.RememberApiVersion(e.json.value);
        }
        return;
      }
      if e.json.Some? {
        var _ := bus.Push(e.json.value);
      }
    }

    /** The next event of a stream that has brought `taken` already. */
    method Take(e: Incoming, luck: Luck, ghost start: Progress, ghost taken: seq<Incoming>, ghost soFar: seq<bool>)
      returns (ghost written: seq<bool>)
      requires bus.Valid() && Fed(start, taken, soFar, State())
      modifies this`redisConnected, this`store, this`startFrom, this`ingested, bus
      ensures bus.Valid() && Fed(start, taken + [e], written, State())
    {
      ghost var before, w := State(), Writes(luck);
      Handle(e, luck);
      FedNext(start, taken, soFar, before, e, w, State());
      written := soFar + [w];
    }

    /** One stream, until it ends or errs. */
    method Follow(items: seq<StreamItem>, luck: nat -> Luck) returns (ghost written: seq<bool>)
      requires bus.Valid()
      modifies this`redisConnected, this`store, this`startFrom, this`ingested, bus
      ensures bus.Valid()
      ensures Fed(old(State()), BeforeError(items), written, State())
    {
      ghost var taken: seq<Incoming> := [];
      ghost var start := State();
      written := [];
      var i: nat := 0;
      while i < |items|
        invariant i <= |items| && bus.Valid()
        invariant BeforeError(items) == taken + BeforeError(items[i..])
        invariant Fed(start, taken, written, State())
      {
        assert items[i..][1..] == items[i + 1..];
        if items[i].StreamError? {
          assert BeforeError(items) == taken;
          return;
        }
        ghost var e := items[i].event;
        written := Take(items[i].event, luck(i), start, taken, written);
        Assoc(taken, [e], BeforeError(items[i + 1..]));
        taken := taken + [e];
        i := i + 1;
      }
      assert BeforeError(items) == taken;
    }

    /** One iteration of the reconnect loop, the `i`-th; it goes on unless the configuration cannot be built. */
    method Try(made: seq<Attempt>, i: nat, luck: nat -> Luck, ghost start: Progress, ghost soFar: seq<bool>)
      returns (goesOn: bool, ghost written: seq<bool>)
      requires bus.Valid() && i < |made| && Fed(start, Taken(made[..i]), soFar, State())
      modifies this, bus
      ensures bus.Valid() && Fed(start, Taken(made[..i + 1]), written, State())
      ensures !firstConnect && reconnects == old(reconnects) + (if old(firstConnect) then 0 else 1)
      ensures goesOn <==> !made[i].ConfigFails?
    {
      ghost var before, more := State(), [];
      if !firstConnect {
        reconnects := reconnects + 1;
      }
      firstConnect := false;
      goesOn := true;
      match made[i] {
        case ConfigFails => goesOn := false;
        case StartFails =>
        case Streams(items) => more := Follow(items, luck);
      }
      written := soFar + more;
      FedThen(start, Taken(made[..i]), soFar, before, TakenBy(made[i]), more, State());
      TakenNext(made, i);
    }

    /**
     The reconnect loop over any finite stretch of attempts: the bus has been fed everything taken, in
     order and once per arrival, and holds the first ApiVersion there was; the next connection would resume from the last id received; the
     persisted id is what the writes that went through left; and all iterations but the very first count
     as reconnects. If each stream replays the upstream log from where the listener had got to, the whole
     is a run of the ingestion protocol, from any state that represents the object to one that does again.
     */
    method Listen(attempts: seq<Attempt>, luck: nat -> nat -> Luck, ghost log: Ingest.Log, ghost s: Ingest.Listener)
      returns (ghost written: seq<bool>, ghost steps: seq<Ingest.Step>, ghost t: Ingest.Listener)
      requires bus.Valid()
      modifies this, bus
      ensures bus.Valid()
      ensures Fed(old(State()), Taken(Made(attempts)), written, State())
      ensures HoldsFirst(old(bus.apiVersion), Taken(Made(attempts)), bus.apiVersion)
      ensures reconnects == old(reconnects) + |Made(attempts)| -
                            (if old(firstConnect) && attempts != [] then 1 else 0)
      ensures Represents(log, s, old(State())) && Replays(log, old(startFrom), Made(attempts)) ==>
                && Ingest.Runs(log, s, steps, t) && Represents(log, t, State())
                && t.connects == s.connects + Connects(Made(attempts))
    {
      ghost var start := State();
      written := Iterate(attempts, luck);
      FirstVersionHolds(start.version, Taken(Made(attempts)));
      steps, t := [], s;
      if Represents(log, s, start) && Replays(log, start.cursor, Made(attempts)) {
        steps, t := ListeningIsRun(log, s, Made(attempts), start, written, State());
      }
    }

    /** The loop itself. */
    method Iterate(attempts: seq<Attempt>, luck: nat -> nat -> Luck) returns (ghost written: seq<bool>)
      requires bus.Valid()
      modifies this, bus
      ensures bus.Valid()
      ensures Fed(old(State()), Taken(Made(attempts)), written, State())
      ensures reconnects == old(reconnects) + |Made(attempts)| -
                            (if old(firstConnect) && attempts != [] then 1 else 0)
    {
      ghost var start := State();
      written := [];
      var i: nat := 0;
      var goesOn := true;
      MakesNone(attempts);
      while goesOn && i < |attempts|
        invariant Makes(attempts, i, goesOn)
        invariant bus.Valid() && Fed(start, Taken(attempts[..i]), written, State())
        invariant firstConnect == (old(firstConnect) && i == 0)
        invariant reconnects == old(reconnects) + i - (if old(firstConnect) && i > 0 then 1 else 0)
        decreases |attempts| - i
      {
        MakesNext(attempts, i);
        goesOn, written := Try(attempts, i, luck(i), start, written);
        i := i + 1;
      }
      MakesAll(attempts, i, goesOn);
    }
  }
}
