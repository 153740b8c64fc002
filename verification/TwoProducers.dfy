/**
 Why one producer: ids are taken outside the backlog lock, so a second producer on the same bus could
 append and broadcast its event between the first one's taking of an id and its append.
 */
module TwoProducers {
  import opened Prelude
  import opened Events
  import opened BusProtocol
  import opened BusTheorems

  /** The bus with a second producer beside its own. */
  datatype Duo = Duo(bus: Bus, second: Producer)

  /** A step of the bus as before, or one that the second producer takes. */
  datatype Move = First(step: Step) | Second(step: Step)

  /** The bus as the second producer uses it. */
  function Swapped(d: Duo): Bus {
    d.bus.(producer := d.second)
  }

  predicate CanMove(d: Duo, m: Move) {
    match m
    case First(step) => Enabled(d.bus, step)
    case Second(step) => (step.TakeId? || step.Append? || step.Broadcast?) && Enabled(Swapped(d), step)
  }

  function Moved(d: Duo, m: Move): Duo
    requires CanMove(d, m)
  {
    match m
    case First(step) => Duo(Apply(d.bus, step), d.second)
    case Second(step) =>
      var s := Apply(Swapped(d), step);
      Duo(s.(producer := d.bus.producer), s.producer)
  }

  ghost predicate Plays(d: Duo, moves: seq<Move>, e: Duo)
    decreases |moves|
  {
    if moves == [] then d == e else CanMove(d, moves[0]) && Plays(Moved(d, moves[0]), moves[1..], e)
  }

  lemma {:induction false} PlaysThen(d: Duo, moves: seq<Move>, e: Duo, more: seq<Move>, f: Duo)
    requires Plays(d, moves, e) && Plays(e, more, f)
    ensures Plays(d, moves + more, f)
    decreases |moves|
  {
    if moves == [] {
      assert moves + more == more;
    } else {
      assert (moves + more)[1..] == moves[1..] + more;
      PlaysThen(Moved(d, moves[0]), moves[1..], e, more, f);
    }
  }

  /** One more move at the end. */
  lemma {:induction false} PlaysSnoc(d: Duo, moves: seq<Move>, e: Duo, m: Move)
    requires Plays(d, moves, e) && CanMove(e, m)
    ensures Plays(d, moves + [m], Moved(e, m))
  {
    assert [m][1..] == [] && Plays(Moved(e, m), [], Moved(e, m));
    PlaysThen(d, moves, e, [m], Moved(e, m));
  }

  /** A client that has gone live, with nothing broadcast yet. */
  function Listening(transport: Transport, version: Value): Client {
    Client(transport, None, true, 0, 0, true, false, true, [], 0, 0, [], {}, [ApiVersion(version)])
  }

  lemma {:induction false} GoesLive(backlogLimit: nat, capacity: nat, transport: Transport, version: Value)
      returns (moves: seq<Move>, d: Duo)
    ensures Plays(Duo(Initial(backlogLimit, capacity), Idle), moves, d)
    ensures d == Duo(Initial(backlogLimit, capacity).(apiVersion := Some(version),
                                                     clients := map[0 := Listening(transport, version)]), Idle)
  {
    var start := Duo(Initial(backlogLimit, capacity), Idle);
    moves, d := [], start;
    var next := [First(Connect(0, transport, None)), First(SetVersion(version)), First(Greet(0)), First(GoLive(0))];
    PlaysSnoc(start, moves, d, next[0]);
    moves, d := moves + [next[0]], Moved(d, next[0]);
    PlaysSnoc(start, moves, d, next[1]);
    moves, d := moves + [next[1]], Moved(d, next[1]);
    PlaysSnoc(start, moves, d, next[2]);
    moves, d := moves + [next[2]], Moved(d, next[2]);
    assert d.bus.clients[0].output == [ApiVersion(version)];
    PlaysSnoc(start, moves, d, next[3]);
    moves, d := moves + [next[3]], Moved(d, next[3]);
    assert d.bus.clients == map[0 := Listening(transport, version)];
  }

  /** A live client that nothing has been sent to, and nothing numbered, appended or broadcast. */
  predicate Quiet(d: Duo, transport: Transport) {
    && d.bus.producer == d.second == Idle && d.bus.nextId == 0 && d.bus.log == [] && d.bus.capacity >= 1
    && 0 in d.bus.clients
    && var k := d.bus.clients[0];
       && k.transport == transport && k.open && k.live
       && k.position == 0 && k.lastSent == 0 && k.missed == {} && EventsOf(k.output) == []
  }

  /** The first producer has taken id 1, but the second has broadcast id 2 and the client has it. */
  predicate Overtaken(d: Duo, transport: Transport, x: Value, y: Value) {
    && d.bus.producer == Numbered(Envelope(1, x)) && d.second == Idle
    && d.bus.log == [Envelope(2, y)] && d.bus.capacity >= 1
    && 0 in d.bus.clients
    && var k := d.bus.clients[0];
       && k.transport == transport && k.open && k.live
       && k.position == 1 && k.lastSent == 2 && k.missed == {} && EventsOf(k.output) == [Envelope(2, y)]
  }

  lemma {:induction false} EventsOfSnoc(frames: seq<Frame>, e: Envelope)
    ensures EventsOf(frames + [Event(e)]) == EventsOf(frames) + [e]
  {
    Cut(frames, [Event(e)]);
  }

  lemma {:induction false} Overtakes(start: Duo, transport: Transport, x: Value, y: Value) returns (moves: seq<Move>, d: Duo)
    requires Quiet(start, transport)
    ensures Plays(start, moves, d) && Overtaken(d, transport, x, y)
  {
    var k := start.bus.clients[0];
    moves, d := [], start;
    PlaysSnoc(start, moves, d, First(TakeId(x)));
    moves, d := moves + [First(TakeId(x))], Moved(d, First(TakeId(x)));
    PlaysSnoc(start, moves, d, Second(TakeId(y)));
    moves, d := moves + [Second(TakeId(y))], Moved(d, Second(TakeId(y)));
    PlaysSnoc(start, moves, d, Second(Append));
    moves, d := moves + [Second(Append)], Moved(d, Second(Append));
    PlaysSnoc(start, moves, d, Second(Broadcast));
    moves, d := moves + [Second(Broadcast)], Moved(d, Second(Broadcast));
    assert d.bus.log == [Envelope(2, y)] && d.bus.clients[0] == k;
    PlaysSnoc(start, moves, d, First(Receive(0)));
    moves, d := moves + [First(Receive(0))], Moved(d, First(Receive(0)));
    EventsOfSnoc(k.output, Envelope(2, y));
  }

  lemma {:induction false} ComesTooLate(start: Duo, transport: Transport, x: Value, y: Value) returns (moves: seq<Move>, d: Duo)
    requires Overtaken(start, transport, x, y)
    ensures Plays(start, moves, d) && NeverSentTheFirst(d, transport, x, y)
  {
    var k := start.bus.clients[0];
    moves, d := [], start;
    PlaysSnoc(start, moves, d, First(Append));
    moves, d := moves + [First(Append)], Moved(d, First(Append));
    PlaysSnoc(start, moves, d, First(Broadcast));
    moves, d := moves + [First(Broadcast)], Moved(d, First(Broadcast));
    assert d.bus.log == [Envelope(2, y), Envelope(1, x)] && d.bus.clients[0] == k;
    PlaysSnoc(start, moves, d, First(Receive(0)));
    moves, d := moves + [First(Receive(0))], Moved(d, First(Receive(0)));
  }

  /** The client has read both broadcasts, lost nothing to lagging, and was sent only the second. */
  predicate NeverSentTheFirst(d: Duo, transport: Transport, x: Value, y: Value) {
    && d.bus.log == [Envelope(2, y), Envelope(1, x)]
    && 0 in d.bus.clients
    && var k := d.bus.clients[0];
       && k.transport == transport && k.live
       && k.position == |d.bus.log| && k.missed == {} && EventsOf(k.output) == [Envelope(2, y)]
  }

  /**
   With two producers there is, for any bounds and either transport, a run in which a client that keeps
   up perfectly is never sent event 1. With one there is none, by `GaplessIffNoCostlyLag`.
   */
  lemma {:induction false} TwoProducersLoseAnEvent(
    backlogLimit: nat, capacity: nat, transport: Transport, version: Value, x: Value, y: Value)
    ensures exists moves, d ::
              Plays(Duo(Initial(backlogLimit, capacity), Idle), moves, d) && NeverSentTheFirst(d, transport, x, y)
  {
    var start := Duo(Initial(backlogLimit, capacity), Idle);
    var moves, d := GoesLive(backlogLimit, capacity, transport, version);
    EventsOfGreeted([ApiVersion(version)], []);
    assert [ApiVersion(version)] + AsFrames([]) == [ApiVersion(version)];
    var more, e := Overtakes(d, transport, x, y);
    PlaysThen(start, moves, d, more, e);
    var last, f := ComesTooLate(e, transport, x, y);
    PlaysThen(start, moves + more, e, last, f);
  }
}
