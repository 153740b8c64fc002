/**
 Events, the bounded backlog, and the two ways a client's stream is put together
 from them: the replayed snapshot and the filtered live arrivals.
 */
module Events {
  import opened Prelude

  /** A JSON document, by its text. */
  type Value = string

  datatype Envelope = Envelope(id: nat, data: Value)

  /** What a client is sent, over either transport. */
  datatype Frame = ApiVersion(version: Value) | Event(envelope: Envelope)

  function AsFrames(events: seq<Envelope>): seq<Frame> {
    seq(|events|, i requires 0 <= i < |events| => Event(events[i]))
  }

  // ---------------------------------------------------------------- history

  /**
   The events numbered `lo` to `hi` of a history whose k-th event has id k,
   leaving out those whose id is in `missed`.
   */
  function Segment(history: seq<Value>, lo: nat, hi: nat, missed: set<nat>): seq<Envelope>
    requires 1 <= lo && hi <= |history|
    decreases hi
  {
    if hi < lo then []
    else Segment(history, lo, hi - 1, missed) + (if hi in missed then [] else [Envelope(hi, history[hi - 1])])
  }

  /** The events lo, lo+1, lo+2, ... of the history, one after the other. */
  predicate Consecutive(events: seq<Envelope>, history: seq<Value>, lo: nat) {
    1 <= lo && lo - 1 + |events| <= |history| &&
    forall i :: 0 <= i < |events| ==> events[i] == Envelope(lo + i, history[lo + i - 1])
  }

  /** Without omissions a segment is the consecutive events lo, lo+1, ..., hi. */
  lemma {:induction false} SegmentIsConsecutive(history: seq<Value>, lo: nat, hi: nat)
    requires 1 <= lo <= |history| + 1 && hi <= |history|
    ensures |Segment(history, lo, hi, {})| == if hi < lo then 0 else hi - lo + 1
    ensures Consecutive(Segment(history, lo, hi, {}), history, lo)
    decreases hi
  {
    if lo <= hi {
      SegmentIsConsecutive(history, lo, hi - 1);
    }
  }

  /** Later events do not change a segment, nor do omissions above it. */
  lemma {:induction false} SegmentStable(
    history: seq<Value>, longer: seq<Value>, lo: nat, hi: nat, missed: set<nat>, more: set<nat>)
    requires 1 <= lo && hi <= |history| && history <= longer
    requires missed <= more && forall m :: m in more && m !in missed ==> hi < m
    ensures Segment(longer, lo, hi, more) == Segment(history, lo, hi, missed)
    decreases hi
  {
    if lo <= hi {
      SegmentStable(history, longer, lo, hi - 1, missed, more);
    }
  }

  /** A stretch that is omitted altogether contributes nothing. */
  lemma {:induction false} SegmentSkips(history: seq<Value>, lo: nat, mid: nat, hi: nat, missed: set<nat>)
    requires 1 <= lo <= mid + 1 && mid <= hi <= |history|
    requires forall m :: mid < m <= hi ==> m in missed
    ensures Segment(history, lo, hi, missed) == Segment(history, lo, mid, missed)
    decreases hi
  {
    if mid < hi {
      SegmentSkips(history, lo, mid, hi - 1, missed);
    }
  }

  /** Adjacent segments join up. */
  lemma {:induction false} SegmentJoin(history: seq<Value>, lo: nat, mid: nat, hi: nat, missed: set<nat>)
    requires 1 <= lo <= mid + 1 && mid <= hi <= |history|
    ensures Segment(history, lo, hi, missed) ==
            Segment(history, lo, mid, missed) + Segment(history, mid + 1, hi, missed)
    decreases hi
  {
    if mid < hi {
      SegmentJoin(history, lo, mid, hi - 1, missed);
    }
  }

  /** A segment is strictly increasing, carries the right payloads, and nothing that is left out. */
  lemma {:induction false} SegmentContents(history: seq<Value>, lo: nat, hi: nat, missed: set<nat>)
    requires 1 <= lo && hi <= |history|
    ensures forall e :: e in Segment(history, lo, hi, missed) ==>
              lo <= e.id <= hi && e.id !in missed && e.data == history[e.id - 1]
    ensures StrictlyIncreasing(Segment(history, lo, hi, missed))
    decreases hi
  {
    forall e | e in Segment(history, lo, hi, missed)
      ensures lo <= e.id <= hi && e.id !in missed && e.data == history[e.id - 1]
    {
      SegmentMember(history, lo, hi, missed, e);
    }
    if lo <= hi {
      SegmentContents(history, lo, hi - 1, missed);
      var init := Segment(history, lo, hi - 1, missed);
      if hi in missed {
        assert init + [] == init;
      } else {
        IncreasingSnoc(init, Envelope(hi, history[hi - 1]));
      }
    }
  }

  lemma {:induction false} SegmentMember(history: seq<Value>, lo: nat, hi: nat, missed: set<nat>, e: Envelope)
    requires 1 <= lo && hi <= |history| && e in Segment(history, lo, hi, missed)
    ensures lo <= e.id <= hi && e.id !in missed && e.data == history[e.id - 1]
    decreases hi
  {
    if e in Segment(history, lo, hi - 1, missed) {
      SegmentMember(history, lo, hi - 1, missed, e);
    }
  }

  lemma {:induction false} IncreasingSnoc(events: seq<Envelope>, e: Envelope)
    requires StrictlyIncreasing(events) && forall x :: x in events ==> x.id < e.id
    ensures StrictlyIncreasing(events + [e])
  {
  }

  /** And it holds everything that is not. */
  lemma {:induction false} SegmentHas(history: seq<Value>, lo: nat, hi: nat, missed: set<nat>, id: nat)
    requires 1 <= lo <= id <= hi <= |history| && id !in missed
    ensures Envelope(id, history[id - 1]) in Segment(history, lo, hi, missed)
    decreases hi
  {
    if id < hi {
      SegmentHas(history, lo, hi - 1, missed, id);
    }
  }

  /** An id strictly between two neighbours of a segment is one of those left out. */
  lemma {:induction false} SegmentGap(history: seq<Value>, lo: nat, hi: nat, missed: set<nat>, i: nat, id: nat)
    requires 1 <= lo && hi <= |history|
    requires i + 1 < |Segment(history, lo, hi, missed)|
    requires Segment(history, lo, hi, missed)[i].id < id < Segment(history, lo, hi, missed)[i + 1].id
    ensures id in missed
  {
    var events := Segment(history, lo, hi, missed);
    SegmentContents(history, lo, hi, missed);
    assert events[i] in events && events[i + 1] in events;
    forall j | 0 <= j < |events| ensures events[j].id != id {
      assert j <= i || i + 1 <= j;
    }
    if id !in missed {
      SegmentHas(history, lo, hi, missed, id);
    }
  }

  /** Leaving out something from within changes a segment. */
  lemma {:induction false} SegmentFullIff(history: seq<Value>, lo: nat, hi: nat, missed: set<nat>)
    requires 1 <= lo && hi <= |history|
    requires forall m :: m in missed ==> lo <= m <= hi
    ensures Segment(history, lo, hi, missed) == Segment(history, lo, hi, {}) <==> missed == {}
  {
    if missed != {} {
      var m :| m in missed;
      SegmentHas(history, lo, hi, {}, m);
      SegmentContents(history, lo, hi, missed);
    }
  }

  predicate StrictlyIncreasing(events: seq<Envelope>) {
    forall i, j :: 0 <= i < j < |events| ==> events[i].id < events[j].id
  }

  // ---------------------------------------------------------------- backlog

  /** Append, then drop the oldest entry if that made the backlog too long. */
  function Remember(backlog: seq<Envelope>, event: Envelope, limit: nat): seq<Envelope> {
    var grown := backlog + [event];
    if |grown| > limit then grown[1..] else grown
  }

  /** The id of the oldest event a backlog of this limit still holds after `pushes` pushes. */
  function OldestRetained(pushes: nat, limit: nat): nat {
    if pushes <= limit then 1 else pushes - limit + 1
  }

  lemma {:induction false} SegmentLength(history: seq<Value>, lo: nat, hi: nat)
    requires 1 <= lo && hi <= |history|
    ensures |Segment(history, lo, hi, {})| == if hi < lo then 0 else hi - lo + 1
  {
    if lo <= hi {
      SegmentIsConsecutive(history, lo, hi);
    }
  }

  /** A backlog holding the last `limit` events holds the last `limit` events after one more. */
  lemma {:induction false} RememberKeepsTheLast(history: seq<Value>, data: Value, limit: nat, backlog: seq<Envelope>)
    requires limit >= 1
    requires backlog == Segment(history, OldestRetained(|history|, limit), |history|, {})
    ensures Remember(backlog, Envelope(|history| + 1, data), limit) ==
            Segment(history + [data], OldestRetained(|history| + 1, limit), |history| + 1, {})
  {
    var n, longer := |history|, history + [data];
    var lo := OldestRetained(n, limit);
    SegmentSnoc(history, data, lo);
    SegmentLength(history, lo, n);
    var grown := backlog + [Envelope(n + 1, data)];
    assert grown == Segment(longer, lo, n + 1, {});
    if n >= limit {
      SegmentDropFirst(longer, lo, n + 1);
    }
  }

  lemma {:induction false} SegmentSnoc(history: seq<Value>, data: Value, lo: nat)
    requires 1 <= lo <= |history| + 1
    ensures Segment(history + [data], lo, |history| + 1, {}) ==
            Segment(history, lo, |history|, {}) + [Envelope(|history| + 1, data)]
  {
    SegmentStable(history, history + [data], lo, |history|, {}, {});
  }

  lemma {:induction false} SegmentDropFirst(history: seq<Value>, lo: nat, hi: nat)
    requires 1 <= lo <= hi <= |history|
    ensures |Segment(history, lo, hi, {})| >= 1
    ensures Segment(history, lo, hi, {})[1..] == Segment(history, lo + 1, hi, {})
  {
    SegmentJoin(history, lo, lo, hi, {});
    SegmentIsConsecutive(history, lo, lo);
  }

  /** The entries with an id of at least `startFrom`, in order. */
  function SnapshotFrom(backlog: seq<Envelope>, startFrom: nat): seq<Envelope> {
    if backlog == [] then []
    else
      var last := backlog[|backlog| - 1];
      SnapshotFrom(backlog[..|backlog| - 1], startFrom) + (if last.id >= startFrom then [last] else [])
  }

  /** Filtering the retained suffix of the history gives a suffix of the history. */
  lemma {:induction false} SnapshotIsSuffix(history: seq<Value>, lo: nat, hi: nat, startFrom: nat)
    requires 1 <= lo && hi <= |history|
    ensures SnapshotFrom(Segment(history, lo, hi, {}), startFrom) ==
            Segment(history, Max(startFrom, lo), hi, {})
    decreases hi
  {
    if lo <= hi {
      var all := Segment(history, lo, hi, {});
      assert all[..|all| - 1] == Segment(history, lo, hi - 1, {});
      SnapshotIsSuffix(history, lo, hi - 1, startFrom);
    }
  }

  // ---------------------------------------------------------------- live arrivals

  /** What wakes a stream's live loop: the broadcast receiver, or (websocket only) the client. */
  datatype Arrival =
    | Delivered(event: Envelope)
    | Lagged(skipped: nat)
    | ChannelClosed
    | ClientMessage
    | ClientGone            // close frame, end of stream or socket error

  type BusArrival = a: Arrival | !a.ClientMessage? && !a.ClientGone? witness ChannelClosed

  /** The arrivals passed on: those with an id above everything sent so far, until the stream ends. */
  function Fresh(last: nat, arrivals: seq<Arrival>): seq<Envelope>
    decreases |arrivals|
  {
    if arrivals == [] then []
    else
      match arrivals[0]
      case Delivered(e) => if e.id > last then [e] + Fresh(e.id, arrivals[1..]) else Fresh(last, arrivals[1..])
      case Lagged(_) => Fresh(last, arrivals[1..])
      case ClientMessage => Fresh(last, arrivals[1..])
      case ChannelClosed => []
      case ClientGone => []
  }

  function LastId(events: seq<Envelope>): nat {
    if events == [] then 0 else events[|events| - 1].id
  }

  /**
   The stream a client is owed: the ApiVersion, the replayed snapshot (if it asked for one),
   then the live events above the last replayed id.
   */
  function Script(version: Value, replay: seq<Envelope>, arrivals: seq<Arrival>): seq<Frame> {
    [ApiVersion(version)] + AsFrames(replay + Fresh(LastId(replay), arrivals))
  }

  /** A message from the client, or the news of a lag, neither ends nor changes the stream... */
  lemma {:induction false} NoiseChangesNothing(last: nat, before: seq<Arrival>, noise: Arrival, after: seq<Arrival>)
    requires noise.ClientMessage? || noise.Lagged?
    ensures Fresh(last, before + [noise] + after) == Fresh(last, before + after)
    decreases |before|
  {
    if before == [] {
      assert ([noise] + after)[1..] == after;
      assert before + [noise] + after == [noise] + after && before + after == after;
    } else {
      var a, rest := before[0], before[1..];
      assert (before + [noise] + after)[1..] == rest + [noise] + after;
      assert (before + after)[1..] == rest + after;
      NoiseChangesNothing(if a.Delivered? && a.event.id > last then a.event.id else last, rest, noise, after);
    }
  }

  /** ... whereas nothing is sent after the channel closes or the client goes. */
  lemma {:induction false} EndIsFinal(last: nat, before: seq<Arrival>, end: Arrival, after: seq<Arrival>)
    requires end.ChannelClosed? || end.ClientGone?
    ensures Fresh(last, before + [end] + after) == Fresh(last, before)
    decreases |before|
  {
    if before == [] {
      assert before + [end] + after == [end] + after;
    } else {
      var a, rest := before[0], before[1..];
      assert (before + [end] + after)[1..] == rest + [end] + after;
      EndIsFinal(if a.Delivered? && a.event.id > last then a.event.id else last, rest, end, after);
    }
  }

  /** The filter passes on every broadcast event exactly when they arrive in increasing order. */
  lemma {:induction false} FreshIsLosslessIff(last: nat, events: seq<Envelope>)
    ensures Fresh(last, AsArrivals(events)) == events <==>
            StrictlyIncreasing(events) && (events != [] ==> last < events[0].id)
    decreases |events|
  {
    if events != [] {
      var first, rest := events[0], events[1..];
      assert AsArrivals(events)[1..] == AsArrivals(rest);
      if first.id > last {
        FreshIsLosslessIff(first.id, rest);
        IncreasingFromFront(first, rest);
        assert events == [first] + rest;
        assert Fresh(last, AsArrivals(events)) == events <==> Fresh(first.id, AsArrivals(rest)) == rest by {
          Cut([first], Fresh(first.id, AsArrivals(rest)));
        }
      } else {
        FreshIsShorter(last, AsArrivals(rest));
      }
    }
  }

  lemma {:induction false} IncreasingFromFront(first: Envelope, rest: seq<Envelope>)
    ensures StrictlyIncreasing([first] + rest) <==>
            StrictlyIncreasing(rest) && (rest != [] ==> first.id < rest[0].id)
  {
    var all := [first] + rest;
    if StrictlyIncreasing(all) {
      forall i, j | 0 <= i < j < |rest| ensures rest[i].id < rest[j].id {
        assert rest[i] == all[i + 1] && rest[j] == all[j + 1];
      }
      assert rest != [] ==> all[0].id < all[1].id;
    }
    if StrictlyIncreasing(rest) && (rest != [] ==> first.id < rest[0].id) {
      forall i, j | 0 <= i < j < |all| ensures all[i].id < all[j].id {
        assert all[j] == rest[j - 1];
        assert j > 1 ==> rest[0].id < rest[j - 1].id;
        assert i > 0 ==> all[i] == rest[i - 1];
      }
    }
  }

  function AsArrivals(events: seq<Envelope>): seq<Arrival> {
    seq(|events|, i requires 0 <= i < |events| => Delivered(events[i]))
  }

  lemma {:induction false} FreshIsShorter(last: nat, arrivals: seq<Arrival>)
    ensures |Fresh(last, arrivals)| <= |arrivals|
    decreases |arrivals|
  {
    if arrivals != [] {
      FreshIsShorter(last, arrivals[1..]);
      if arrivals[0].Delivered? {
        FreshIsShorter(arrivals[0].event.id, arrivals[1..]);
      }
    }
  }

  /** The id a live loop that started at `last` has reached. */
  function HighWater(last: nat, arrivals: seq<Arrival>): nat {
    if arrivals == [] then last
    else
      var before := HighWater(last, arrivals[..|arrivals| - 1]);
      match arrivals[|arrivals| - 1]
      case Delivered(e) => Max(before, e.id)
      case _ => before
  }

  /** One more arrival from the bus. */
  lemma {:induction false} FreshSnoc(last: nat, arrivals: seq<Arrival>, next: Arrival)
    requires forall a :: a in arrivals ==> a.Delivered? || a.Lagged?
    requires next.Delivered? || next.Lagged?
    ensures Fresh(last, arrivals + [next]) ==
            Fresh(last, arrivals) +
            (if next.Delivered? && next.event.id > HighWater(last, arrivals) then [next.event] else [])
    decreases |arrivals|
  {
    var all := arrivals + [next];
    if arrivals == [] {
      assert all[1..] == [];
    } else {
      var first := arrivals[0];
      var last' := if first.Delivered? then Max(last, first.event.id) else last;
      assert all[1..] == arrivals[1..] + [next];
      FreshSnoc(last', arrivals[1..], next);
      HighWaterFromFront(last, arrivals);
    }
  }

  lemma {:induction false} HighWaterFromFront(last: nat, arrivals: seq<Arrival>)
    requires arrivals != []
    ensures var last' := if arrivals[0].Delivered? then Max(last, arrivals[0].event.id) else last;
            HighWater(last, arrivals) == HighWater(last', arrivals[1..])
    decreases |arrivals|
  {
    var n := |arrivals| - 1;
    if n > 0 {
      HighWaterFromFront(last, arrivals[..n]);
      assert arrivals[..n][1..] == arrivals[1..][..n - 1];
    }
  }
}
