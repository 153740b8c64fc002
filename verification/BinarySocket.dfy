/** One client's binary websocket: each message is counted, checked against the limiter, and answered. */
module BinarySocket {
  import opened Prelude
  import opened PoolProtocol
  import opened BinaryPoolObject
  import opened RateLimit
  import PoolAccounting
  import Codecs = Rewrite

  /** One request of the client; `taken` tells whether it takes the reply. */
  datatype Request = Request(payload: Bytes, now: int, parse: Result<bool, RequestParseError>, taken: bool)

  datatype Message = Binary(request: Request) | Closing | Failing | OtherMessage

  /** What the client is told; `Response` goes out as binary, the others as text. */
  datatype Told = SlowDown | Said(result: Result<Bytes, BinaryError>)

  datatype Served = Served(request: Request, task: nat, told: Option<Told>)

  /** The requests among the messages up to the one that ends the loop. */
  function Requests(messages: seq<Message>): seq<Request> {
    if messages == [] || messages[0].Closing? || messages[0].Failing? then []
    else (if messages[0].Binary? then [messages[0].request] else []) + Requests(messages[1..])
  }

  function RequestsOf(served: seq<Served>): seq<Request> {
    seq(|served|, i requires 0 <= i < |served| => served[i].request)
  }

  function Times(served: seq<Served>): seq<int> {
    seq(|served|, i requires 0 <= i < |served| => served[i].request.now)
  }

  /** Whether the limiter lets request `i` of this socket through, given the ones before it. */
  predicate Passes(quota: Quota, tat: int, served: seq<Served>, i: nat)
    requires i < |served|
  {
    Conforms(quota, RunLimiter(quota, tat, Times(served[..i])).0, served[i].request.now)
  }

  /** The request ended in the pool in the way the client was told. */
  ghost predicate ServedAt<V(!new), S(!new)>(
    c: Codecs.Codecs<V, S>, quota: Quota, tat: int, s: Pool, served: seq<Served>, i: nat)
    requires i < |served|
  {
    var Served(request, t, told) := served[i];
    && t in s.tasks && s.tasks[t].payload == request.payload
    && match told
       case None => i == |served| - 1 && NoAnswer(s, t)
       case Some(SlowDown) => !Passes(quota, tat, served, i) && s.tasks[t].Finished? && s.tasks[t].outcome == RateLimited
       case Some(Said(r)) => Passes(quota, tat, served, i) && Explained(c, request.parse, s.tasks[t], r)
  }

  ghost predicate AllServed<V(!new), S(!new)>(
    c: Codecs.Codecs<V, S>, quota: Quota, tat: int, s: Pool, served: seq<Served>)
  {
    && (forall i: nat :: i < |served| ==> ServedAt(c, quota, tat, s, served, i))
    && (forall i, j :: 0 <= i < j < |served| ==> served[i].task != served[j].task)
  }

  predicate AllTold(served: seq<Served>) {
    forall i :: 0 <= i < |served| ==> served[i].told.Some?
  }

  // ---------------------------------------------------------------- finished requests stay as they are

  predicate FinishedStay(s: Pool, s': Pool) {
    forall t :: t in s.tasks ==> t in s'.tasks && (s.tasks[t].Finished? ==> s'.tasks[t] == s.tasks[t])
  }

  lemma {:induction false} FinishedStayStep(s: Pool, step: Step)
    requires Enabled(s, step)
    ensures FinishedStay(s, Apply(s, step))
  {
    PoolAccounting.OneTaskChanges(s, step);
  }

  lemma {:induction false} FinishedStayRun(s: Pool, steps: seq<Step>, s': Pool)
    requires Runs(s, steps, s')
    ensures FinishedStay(s, s')
    decreases |steps|
  {
    if steps != [] {
      FinishedStayStep(s, steps[0]);
      FinishedStayRun(Apply(s, steps[0]), steps[1..], s');
    }
  }

  /** Two states of one history, the second later. */
  lemma {:induction false} LaterRuns(start: Pool, trace: seq<Step>, s: Pool, trace': seq<Step>, s': Pool)
    requires Runs(start, trace, s) && Runs(start, trace', s') && trace <= trace'
    ensures FinishedStay(s, s')
    decreases |trace|
  {
    if trace == [] {
      FinishedStayRun(s, trace', s');
    } else {
      LaterRuns(Apply(start, trace[0]), trace[1..], s, trace'[1..], s');
    }
  }

  lemma {:induction false} ServedStay<V(!new), S(!new)>(
    c: Codecs.Codecs<V, S>, quota: Quota, tat: int, s: Pool, served: seq<Served>, s': Pool)
    requires AllServed(c, quota, tat, s, served) && AllTold(served) && FinishedStay(s, s')
    ensures AllServed(c, quota, tat, s', served)
  {
    forall i: nat | i < |served| ensures ServedAt(c, quota, tat, s', served, i) {
      assert ServedAt(c, quota, tat, s, served, i);
      assert served[i].told.Some?;
    }
  }

  lemma {:induction false} ServedSnoc<V(!new), S(!new)>(
    c: Codecs.Codecs<V, S>, quota: Quota, tat: int, s: Pool, served: seq<Served>, next: Served)
    requires AllServed(c, quota, tat, s, served) && AllTold(served)
    requires forall i :: 0 <= i < |served| ==> served[i].task != next.task
    requires ServedAt(c, quota, tat, s, served + [next], |served|)
    ensures AllServed(c, quota, tat, s, served + [next])
  {
    var all := served + [next];
    forall i: nat | i < |all| ensures ServedAt(c, quota, tat, s, all, i) {
      if i < |served| {
        assert ServedAt(c, quota, tat, s, served, i);
        assert all[..i] == served[..i];
        assert served[i].told.Some?;
      }
    }
  }

  /** Task numbers do not run out. */
  lemma {:induction false} UnusedTask(tasks: map<nat, Task>, n: nat) returns (t: nat)
    requires |tasks| <= n
    ensures t <= n && t !in tasks
    decreases n
  {
    if n in tasks {
      t := UnusedTask(tasks - {n}, n - 1);
    } else {
      t := n;
    }
  }

  /** The limiter's arrival time once one more request has been checked. */
  lemma {:induction false} LimiterSnoc(quota: Quota, tat: int, served: seq<Served>, next: Served)
    ensures (served + [next])[..|served|] == served
    ensures var before := RunLimiter(quota, tat, Times(served)).0;
            RunLimiter(quota, tat, Times(served + [next])).0 ==
            if Conforms(quota, before, next.request.now) then NextArrival(quota, before, next.request.now) else before
  {
    var times := Times(served + [next]);
    assert times[..|times| - 1] == Times(served);
  }

  /** The requests among the first `i` messages have been served, and no other. */
  predicate Progress(messages: seq<Message>, i: nat, served: seq<Served>) {
    i <= |messages| && RequestsOf(served) + Requests(messages[i..]) == Requests(messages)
  }

  lemma {:induction false} Ends(messages: seq<Message>, i: nat, served: seq<Served>)
    requires Progress(messages, i, served)
    requires i < |messages| ==> messages[i].Closing? || messages[i].Failing?
    ensures RequestsOf(served) == Requests(messages)
  {
  }

  lemma {:induction false} Skips(messages: seq<Message>, i: nat, served: seq<Served>)
    requires Progress(messages, i, served) && i < |messages| && messages[i].OtherMessage?
    ensures Progress(messages, i + 1, served)
  {
    assert messages[i..][1..] == messages[i + 1..];
    assert Requests(messages[i..]) == Requests(messages[i + 1..]);
  }

  lemma {:induction false} Advances(messages: seq<Message>, i: nat, served: seq<Served>, next: Served)
    requires Progress(messages, i, served) && i < |messages| && messages[i] == Binary(next.request)
    ensures Progress(messages, i + 1, served + [next])
    ensures RequestsOf(served + [next]) <= Requests(messages)
  {
    assert messages[i..][1..] == messages[i + 1..];
    assert RequestsOf(served + [next]) == RequestsOf(served) + [next.request];
    Assoc(RequestsOf(served), [next.request], Requests(messages[i + 1..]));
  }

  /** A request too early for the limiter is told so and counted as limited, unless it is cancelled first. */
  method TurnAway<V(!new), S(!new)>(pool: BinaryPool<V, S>, t: nat) returns (told: Option<Told>)
    requires pool.Valid() && t in pool.tasks && pool.tasks[t].Counted?
    modifies pool
    ensures pool.Valid() && old(pool.trace) <= pool.trace && t in pool.tasks
    ensures pool.tasks[t].payload == old(pool.tasks[t].payload) && pool.tasks[t].Finished?
    ensures told.Some? ==> told.value == SlowDown && pool.tasks[t].outcome == RateLimited
    ensures old(pool.clock) <= pool.clock && (told.None? ==> pool.Suspended(t, old(pool.clock)))
  {
    pool.Perform(Limit(t));
    var h := pool.Await(t);
    if h.cancelled {
      return None;
    }
    pool.Perform(LimitReplied(t));
    told := Some(SlowDown);
  }

  /** One request: counted, then limited or sent. */
  method Serve<V(!new), S(!new)>(pool: BinaryPool<V, S>, quota: Quota, tat: int, request: Request)
    returns (served: Served)
    requires pool.Valid()
    modifies pool
    ensures pool.Valid() && old(pool.trace) <= pool.trace && old(pool.clock) <= pool.clock
    ensures served.request == request && served.task !in old(pool.tasks)
    ensures served.task in pool.tasks && pool.tasks[served.task].payload == request.payload
    ensures var k := pool.tasks[served.task];
            match served.told
            case None => pool.Suspended(served.task, old(pool.clock))
            case Some(SlowDown) => !Conforms(quota, tat, request.now) && k.Finished? && k.outcome == RateLimited
            case Some(Said(r)) => Conforms(quota, tat, request.now) && Explained(pool.codecs, request.parse, k, r)
  {
    var _ := UnusedTask(pool.tasks, |pool.tasks|);
    var t: nat :| t !in pool.tasks;
    pool.Perform(Arrive(t, request.payload));
    if !Conforms(quota, tat, request.now) {
      var told := TurnAway(pool, t);
      return Served(request, t, told);
    }
    var r := pool.Send(t, request.payload, request.parse);
    served := Served(request, t, if r.Some? then Some(Said(r.value)) else None);
  }

  /** The next request of a socket that has served some already; while it was awaited the rest went on. */
  method ServeNext<V(!new), S(!new)>(
    pool: BinaryPool<V, S>, quota: Quota, start: int, tat: int, served: seq<Served>, request: Request)
    returns (next: Served)
    requires pool.Valid() && AllServed(pool.codecs, quota, start, pool.State(), served) && AllTold(served)
    requires RunLimiter(quota, start, Times(served)).0 == tat
    modifies pool
    ensures pool.Valid() && old(pool.trace) <= pool.trace && old(pool.tasks.Keys) <= pool.tasks.Keys
    ensures old(pool.clock) <= pool.clock && (next.told.None? ==> pool.Suspended(next.task, old(pool.clock)))
    ensures next.request == request && next.task !in old(pool.tasks.Keys)
    ensures AllServed(pool.codecs, quota, start, pool.State(), served + [next])
    ensures RunLimiter(quota, start, Times(served + [next])).0 ==
            if Conforms(quota, tat, request.now) then NextArrival(quota, tat, request.now) else tat
  {
    ghost var trace, s := pool.trace, pool.State();
    forall i: nat | i < |served| ensures served[i].task in s.tasks {
      assert ServedAt(pool.codecs, quota, start, s, served, i);
    }
    pool.Meanwhile();
    LaterRuns(Initial(pool.maxConnections), trace, s, pool.trace, pool.State());
    next := Serve(pool, quota, tat, request);
    LaterRuns(Initial(pool.maxConnections), trace, s, pool.trace, pool.State());
    ServedStay(pool.codecs, quota, start, s, served, pool.State());
    LimiterSnoc(quota, start, served, next);
    assert ServedAt(pool.codecs, quota, start, pool.State(), served + [next], |served|);
    ServedSnoc(pool.codecs, quota, start, pool.State(), served, next);
  }

  /** After this request the handler goes no further: it is suspended, or the client did not take the reply. */
  predicate EndsHere(served: Served) {
    served.told.None? ||
    (served.told.value.Said? && served.told.value.result.Ok? && !served.request.taken)
  }

  /**
   The whole socket. The client's requests are served in order, each under a task number of its own;
   each was let through or turned away as the limiter, run over their times, says; and each ended in the
   pool in the way the client was told. They are all the requests up to the closing message, or those up to
   the first after which the handler is suspended or the client does not take its reply.
   */
  method HandleBinarySocket<V(!new), S(!new)>(
    pool: BinaryPool<V, S>, quota: Quota, start: int, messages: seq<Message>)
    returns (served: seq<Served>, cutShort: bool)
    requires pool.Valid()
    modifies pool
    ensures pool.Valid() && old(pool.trace) <= pool.trace
    ensures AllServed(pool.codecs, quota, start, pool.State(), served)
    ensures forall i :: 0 <= i < |served| ==> served[i].task !in old(pool.tasks.Keys)
    ensures RequestsOf(served) <= Requests(messages)
    ensures !cutShort ==> RequestsOf(served) == Requests(messages)
    ensures forall i :: 0 <= i < |served| ==> (EndsHere(served[i]) <==> cutShort && i == |served| - 1)
    ensures cutShort ==> served != []
    ensures forall i :: 0 <= i < |served| && served[i].told.None? ==> pool.Suspended(served[i].task, old(pool.clock))
  {
    var tat := start;
    var i: nat := 0;
    served, cutShort := [], false;
    assert messages[0..] == messages;
    while i < |messages|
      invariant i <= |messages| && pool.Valid() && old(pool.trace) <= pool.trace && old(pool.clock) <= pool.clock
      invariant AllServed(pool.codecs, quota, start, pool.State(), served) && AllTold(served)
      invariant old(pool.tasks.Keys) <= pool.tasks.Keys
      invariant forall j :: 0 <= j < |served| ==> served[j].task !in old(pool.tasks.Keys)
      invariant forall j :: 0 <= j < |served| ==> !EndsHere(served[j])
      invariant RunLimiter(quota, start, Times(served)).0 == tat
      invariant Progress(messages, i, served)
    {
      match messages[i] {
        case Closing =>
          Ends(messages, i, served);
          return;
        case Failing =>
          Ends(messages, i, served);
          return;
        case OtherMessage =>
          Skips(messages, i, served);
        case Binary(request) =>
          var next := ServeNext(pool, quota, start, tat, served, request);
          Advances(messages, i, served, next);
          served := served + [next];
          tat := if Conforms(quota, tat, request.now) then NextArrival(quota, tat, request.now) else tat;
          if EndsHere(next) {
            return served, true;
          }
      }
      i := i + 1;
    }
    Ends(messages, i, served);
  }

  /** Which messages those are: all binary ones before the first that closes or fails, others being passed over. */
  lemma {:induction false} RequestsAre(messages: seq<Message>, n: nat)
    requires n <= |messages|
    requires forall i :: 0 <= i < n ==> !messages[i].Closing? && !messages[i].Failing?
    requires n < |messages| ==> messages[n].Closing? || messages[n].Failing?
    ensures Requests(messages) == BinaryAmong(messages[..n])
    decreases n
  {
    if n > 0 {
      RequestsAre(messages[1..], n - 1);
      assert messages[1..][..n - 1] == messages[..n][1..];
      BinaryAmongFront(messages[..n]);
    }
  }

  /** The requests carried by binary messages, in order. */
  function BinaryAmong(messages: seq<Message>): seq<Request> {
    var n := |messages| - 1;
    if messages == [] then []
    else BinaryAmong(messages[..n]) + if messages[n].Binary? then [messages[n].request] else []
  }

  lemma {:induction false} BinaryAmongFront(messages: seq<Message>)
    requires messages != []
    ensures BinaryAmong(messages) ==
            (if messages[0].Binary? then [messages[0].request] else []) + BinaryAmong(messages[1..])
    decreases |messages|
  {
    var n := |messages| - 1;
    if n > 0 {
      BinaryAmongFront(messages[..n]);
      assert messages[..n][1..] == messages[1..][..n - 1];
    }
  }

  // ---------------------------------------------------------------- what one socket can put on the pool

  /** How many of the first `n` requests went on to the pool. */
  function PassCount(quota: Quota, start: int, served: seq<Served>, n: nat): nat
    requires n <= |served|
  {
    if n == 0 then 0
    else PassCount(quota, start, served, n - 1) + if Passes(quota, start, served, n - 1) then 1 else 0
  }

  /** They are as many as the limiter admits... */
  lemma {:induction false} PassCountIs(quota: Quota, start: int, served: seq<Served>, n: nat)
    requires n <= |served|
    ensures |Admitted(quota, start, Times(served[..n]))| == PassCount(quota, start, served, n)
    decreases n
  {
    if n > 0 {
      PassCountIs(quota, start, served, n - 1);
      AdmittedNext(quota, start, served, n);
    }
  }

  lemma {:induction false} AdmittedNext(quota: Quota, start: int, served: seq<Served>, n: nat)
    requires 0 < n <= |served|
    ensures Admitted(quota, start, Times(served[..n])) ==
            Admitted(quota, start, Times(served[..n - 1])) +
            if Passes(quota, start, served, n - 1) then [served[n - 1].request.now] else []
  {
    var times := Times(served[..n]);
    assert times[..n - 1] == Times(served[..n - 1]);
    assert times[n - 1] == served[n - 1].request.now;
  }

  /** ... and the ones it admits, in order. */
  lemma {:induction false} PassedAreAdmitted(quota: Quota, start: int, served: seq<Served>, n: nat, a: nat)
    requires a < n <= |served| && Passes(quota, start, served, a)
    ensures var admitted := Admitted(quota, start, Times(served[..n]));
            && PassCount(quota, start, served, a) < |admitted|
            && admitted[PassCount(quota, start, served, a)] == served[a].request.now
    decreases n
  {
    AdmittedNext(quota, start, served, n);
    if a == n - 1 {
      PassCountIs(quota, start, served, a);
    } else {
      PassedAreAdmitted(quota, start, served, n - 1, a);
    }
  }

  /**
   Between any two requests of one socket that were let through no more than `window` apart, at most
   `burst + window / period` requests of that socket went on to the pool.
   */
  lemma {:induction false} SocketWindowBound(
    quota: Quota, start: int, served: seq<Served>, a: nat, b: nat, window: nat)
    requires quota.Valid() && a <= b < |served|
    requires Passes(quota, start, served, a) && Passes(quota, start, served, b)
    requires served[b].request.now - served[a].request.now <= window
    ensures PassCount(quota, start, served, b + 1) - PassCount(quota, start, served, a)
            <= quota.burst + window / quota.period
  {
    PassedAreAdmitted(quota, start, served, b + 1, a);
    PassedAreAdmitted(quota, start, served, b + 1, b);
    PassCountGrows(quota, start, served, a, b);
    WindowBound(quota, start, Times(served[..b + 1]),
                PassCount(quota, start, served, a), PassCount(quota, start, served, b), window);
  }

  lemma {:induction false} PassCountGrows(quota: Quota, start: int, served: seq<Served>, a: nat, b: nat)
    requires a <= b <= |served|
    ensures PassCount(quota, start, served, a) <= PassCount(quota, start, served, b)
    decreases b
  {
    if a < b {
      PassCountGrows(quota, start, served, a, b - 1);
    }
  }
}
