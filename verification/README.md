# Verified model of the event and binary-port proxy

A Dafny model of the hard parts of a multi-network blockchain proxy: the event bus that replays a
backlog and then follows a live broadcast, the pool of upstream binary-port connections, the listener
that feeds the bus across reconnects and restarts, the rewriting of binary responses, and the two small
protocols beside them (the ApiVersion latch and the rate arithmetic). `dafny verify dfyconfig.toml`
checks everything.

## How it is put together

Concurrent code appears twice, and the two forms are tied together.

* As a **step system**: a state, an `Enabled` predicate, an `Apply` function and `Runs(s, steps, t)`. A step
  is what happens between two awaits, atomics or lock operations. Theorems quantify over every sequence of
  steps, so over every interleaving, failure and cancellation.
* As the **sequential code** it is: classes whose methods update their fields, and methods with loops. Their
  contracts tie them to the step system or to a specification function.

| Files | What they hold |
|---|---|
| `Prelude` | options, results, bytes |
| `Framing` | the length-prefixed wire format, and reading it back |
| `Events`, `BusProtocol`, `BusTheorems` | backlog, broadcast ring, clients on both transports; what every run guarantees |
| `TwoProducers` | the same bus with a second producer, and what goes wrong |
| `EventBus`, `EventStreams` | the bus as an object; the websocket loop and the SSE stream as loops |
| `ApiVersionLatch`, `ApiVersionCell` | store-then-notify against check-then-wait, as a protocol and as an object with its wait loop |
| `Ingest`, `RestartSafety` | the listener against the upstream log: reconnects and restarts |
| `ListenerSpec`, `SseListener` | what the listener does to bus, cursor and store; the nested loop itself, and that it is a run of the protocol |
| `EndToEnd` | listener, bus and clients as one system: from the upstream log to a client |
| `PoolProtocol`, `PoolAccounting`, `PoolOwnership`, `PoolPairing`, `PoolRetry`, `PoolWakeUp` | the connection pool, its permits, bytes and requests |
| `BinaryPool` | `send` and its helpers over the shared pool, with every await open to everybody else |
| `Rewrite`, `RewriteTheorems` | rewriting of responses over arbitrary lawful codecs |
| `RateLimit`, `BinarySocket` | the limiter, and the loop of one binary websocket |

`BinaryPoolObject.BinaryPool` deserves a remark (and `ApiVersionObject.ApiVersionCell` works the same way). Its `Await` method lets other requests and upstream take any
number of protocol steps, cancels the request or fails its I/O, as the arbitrary function `world` decides; the ghost
field `trace` records everything. `Valid()`
says that the object's fields are the end of a run of the protocol with that trace, so each method that
keeps `Valid()` has been shown to take only steps of the protocol, and every theorem about runs holds of the
object. A result of `None` means that the world cancelled the request or that it waits for a permit or for bytes
that are not there, and an I/O error is one the world brought; the methods themselves choose nothing.

## Assumptions about the surroundings

* Exactly one listener feeds a bus (`src/lib.rs:82-87`). `TwoProducersLoseAnEvent` is a run of two producers that
  shows why it matters: the id is taken before the lock.
* The broadcast channel keeps the last `capacity >= 1` entries, and a receiver that fell behind is moved to the
  oldest one kept. `Notify::notify_waiters` wakes every future that exists at that moment. A semaphore permit is
  released when its owner is dropped.
* Upstream's event log keeps its events under increasing ids and replays inclusively from `start_from`; without
  `start_from` it may begin anywhere.
* On a binary-port stream upstream answers each complete request frame with one frame, in order, at any time,
  in pieces of any size, or fails.
* Encoding followed by decoding is the identity for the node's codecs; nothing is assumed about decoding
  followed by encoding. `ResponseType` tags decode to the type they were made from.
* The limiter is the generic cell rate algorithm. Ids stay below the u64 limit.

## What the proofs turned up

* The handoff is exact, but `start_from` does not bound the live part: when the snapshot is empty, the stream
  starts at the first id broadcast after subscribing, also if that is below `start_from` (`Handoff`).
* A lag costs a client events iff the jump lands beyond `last_sent_id + 1` (`LagCostsExactly`).
* The persisted cursor stays behind the one in memory all along a run iff every restart loads it
  (`NeverAheadIffAlwaysLoads`), and a restart is safe iff it can be loaded. A Redis read that fails at startup makes the listener
  begin anywhere, and events can be skipped (`RestartIsSureIff`, `UnreadableStoreCanSkip`).
* A request queued on the semaphore is not woken by a connection coming back, and can wait forever beside
  an idle one, in a pool of any size (`StaysBlocked`, `BlockedBesideIdle`).
* Requests and outcomes balance iff no request is cancelled and no error reply fails to encode. In the latter case the
  connection is dropped and neither outcome is counted (`OutcomeConservation`).
* The limiter admits fewer than twice the configured rate, and at least the configured rate iff that is at most one
  per millisecond (`PeriodTracksPerMinute`).
* Rewriting is idempotent for with-request envelopes. For plain ones it needs the two envelope formats not to
  overlap, and `OverlapBreaksIdempotence` shows that lawful codecs alone do not give that.

## Model

| member | source | states |
|---|---|---|
| `BusTheorems.Handoff` | src/handlers.rs:153-211 | for every interleaving of subscribe, wait, snapshot and receive with the three sub-steps of every push, a client that never lags at a cost is sent consecutive ids, without gap or duplicate and with their payloads, from max(start_from, oldest retained) if the snapshot has anything and else from the first id broadcast after subscribing; how many, exactly; and a caught-up client has been sent every broadcast from there on |
| `BusTheorems.LiveOnly` | src/handlers.rs:181-210 | without start_from the events sent are exactly those broadcast since subscribing, up to the receiver's position |
| `BusTheorems.LagSafety` | src/handlers.rs:193-208 | in every run, with any capacity and any lag: strictly increasing ids, each with the payload pushed under it, and every id skipped between two deliveries is a missed one, evicted from the ring |
| `BusTheorems.LagCostsExactly` | src/handlers.rs:203-205 | one lag sends nothing; what is newly missed was evicted unread and unsent; something is missed iff the jump lands beyond last_sent_id + 1 |
| `BusTheorems.RingKeeps` | src/state.rs:43-43 | over every run, a client at most max(capacity, 1) broadcasts behind is given the next one by its receive and loses nothing; one further behind is moved to exactly that far behind the newest and told how many it skipped |
| `BusTheorems.MissedIffCostlyLag` | src/handlers.rs:193-208 | over a stretch of a run the missed set grows iff one of the client's receives was a costly lag |
| `BusTheorems.GaplessIffNoCostlyLag` | src/handlers.rs:193-208 | a live client has been sent all of the history from its first due id up to where it has got iff none of its lags was costly |
| `BusTheorems.DeliveredIsSegment` | src/handlers.rs:153-211 | what a client has been sent is exactly the history from its first due id on, minus the missed ids |
| `BusTheorems.BothTransportsFollowTheScript` | src/handlers.rs:286-334 | over either transport the output is a beginning of ApiVersion, replay, then live events above the last replayed id, and all of it once live, although one snapshots before and the other after the ApiVersion wait |
| `BusTheorems.ClientCanProceed` | src/handlers.rs:160-179 | in every reachable state with an ApiVersion a client that is not live has exactly one thing to do, in the order of its transport, and a live one can receive iff something is there |
| `BusTheorems.BacklogRefinesHistory` | src/state.rs:61-81 | in every reachable state the backlog is the last min(pushes, limit) events of the history with consecutive ids, a snapshot is that suffix cut at start_from, and pushes = backlog length + dropped |
| `TwoProducers.TwoProducersLoseAnEvent` | src/state.rs:62-66 | with a second producer, for any bounds and either transport, there is a run in which a client that reads every broadcast and never lags is not sent event 1 |
| `BusProtocol.InvStep` | src/state.rs:61-81 | every step of the producer, of any client and of the environment keeps ids, history, backlog, ring and every client's cursor consistent |
| `BusProtocol.SnapshotShape` | src/state.rs:109-116 | in a consistent bus the snapshot is the consecutive events from max(start_from, oldest retained) to the newest |
| `Events.RememberKeepsTheLast` | src/state.rs:64-75 | append-then-evict on a backlog holding the last `limit` events again holds the last `limit` events |
| `Events.FreshIsLosslessIff` | src/handlers.rs:195-202 | the last_sent_id filter passes everything it is shown iff the ids are increasing and start above it |
| `EventBusObject.EventBus.constructor` | src/state.rs:37-58 | the backlog limit is max(limit, 1) and the channel's capacity max(capacity, 1), nothing numbered, kept or remembered; the protocol's initial state |
| `EventBusObject.EventBus.Push` | src/state.rs:61-81 | the returned envelope has the next id, the history grows by its payload, the ring by the envelope, the backlog is the last `limit` of the history, and the whole call is the run of its three steps |
| `EventBusObject.EventBus.RememberApiVersion` | src/state.rs:84-90 | stores iff nothing was stored, and never replaces the first value |
| `EventBusObject.EventBus.Snapshot` | src/state.rs:109-116 | returns the consecutive retained events from start_from on, and omits none |
| `EventBusObject.EventBus.Subscribe` | src/state.rs:119-121 | the position returned is the one the protocol gives a client that connects now, over either transport and with any start_from, and its first due id is the next one to be pushed |
| `EventStreams.HandleEventsSocket` | src/handlers.rs:162-210 | the loop sends exactly the script of ApiVersion, the backlog's events from start_from on (none without it) and the fresh arrivals, cut where the client stops taking frames |
| `EventStreams.SseStream` | src/handlers.rs:292-334 | pulled any number of times, the chained stream yields exactly the same script from the same backlog and start_from |
| `EventStreams.SendReplay` | src/handlers.rs:165-179 | ApiVersion and replay go out in order, cut exactly where the client stops taking frames, leaving last_sent_id at the end of the replay |
| `EventStreams.SendLive` | src/handlers.rs:181-210 | the live loop sends exactly the fresh arrivals after what was sent already, cut where the client stops |
| `EventStreams.PollReplay` | src/handlers.rs:305-310 | pulling the first two links of the chain yields ApiVersion and backlog, cut at the number of pulls |
| `EventStreams.PollLive` | src/handlers.rs:312-330 | pulling the live link yields exactly the fresh arrivals, cut at the number of pulls |
| `EventStreams.NextLive` | src/handlers.rs:312-330 | one pull returns the next fresh event and leaves the rest, or ends because there is none |
| `EventStreams.ReplayStartsWhereAsked` | src/handlers.rs:170-179 | on the backlog of every reachable bus the replay is the consecutive events from max(start_from, oldest retained) to the newest, or nothing if that is beyond it |
| `EventStreams.ScriptOpens` | src/handlers.rs:165-179 | the script opens with the ApiVersion and then the replay, event by event |
| `EventStreams.ClientsRunTheHandlers` | src/handlers.rs:153-211 | what a live client of the protocol has been sent is what the handlers send, given its start_from, the backlog it took its snapshot of and what its receiver returned |
| `EventStreams.LiveClientsRunTheHandlers` | src/handlers.rs:181-210 | without start_from nothing is replayed |
| `Events.NoiseChangesNothing` | src/handlers.rs:186-205 | a client's message or a lag, anywhere among the arrivals, neither ends nor changes the stream |
| `Events.EndIsFinal` | src/handlers.rs:185-206 | nothing is sent after the client goes or the channel closes |
| `ApiVersionLatch.NoLostWakeUp` | src/state.rs:84-106 | in no reachable state, with any number of waiters, is one parked un-notified with the value stored and the notification done |
| `ApiVersionLatch.AllReturnTheFirstValue` | src/state.rs:84-106 | every waiter of every run that returns, returns the value stored first |
| `ApiVersionLatch.WaitersReturn` | src/state.rs:98-106 | after the notification every waiter can always move, each own move brings it closer to returning, nothing else sets it back |
| `ApiVersionLatch.ThreeTurnsSuffice` | src/state.rs:98-106 | over any later stretch of the run, turns still needed + own turns taken is constant, so three turns end the wait |
| `ApiVersionObject.ApiVersionCell.Remember` | src/state.rs:84-90 | stores iff empty, never replaces, and after a store no waiter is left parked un-notified |
| `ApiVersionObject.ApiVersionCell.Wait` | src/state.rs:98-106 | with everybody else free to act between its actions, the loop goes round at most twice and ends with the stored value, the one there at the start if there was one; else it is parked and the notification is still to come |
| `Ingest.PushedIsContiguous` | src/sse.rs:52-130 | in every run, what the current process pushed, with adjacent repeats collapsed, is the pushable part of one contiguous stretch of the upstream log, and the repeats number at most the reconnects |
| `Ingest.PushedIsSegmentOfLog` | src/sse.rs:52-130 | if every event serialises and none is an ApiVersion, it is the whole stretch, and the pushes number at most its length plus the reconnects |
| `RestartSafety.StoreIsInitialOrReceived` | src/sse.rs:81-98 | whatever writes fail and however often it reconnects or restarts, the persisted cursor is its initial value or the id of a received event |
| `RestartSafety.PersistedCursorIsBehind` | src/sse.rs:81-98 | it never exceeds the cursor in memory in runs whose restarts load it |
| `RestartSafety.NeverAheadIffAlwaysLoads` | src/sse.rs:46-98 | for every run, the persisted cursor is behind the one in memory in every state along it iff each of its restarts loads the stored id or finds none stored |
| `RestartSafety.RestartsSkipNothing` | src/sse.rs:46-114 | over any number of processes that resume from the store, stopped anywhere, the events handled have no hole in the upstream log, and the open connection is no further than the first unhandled one |
| `RestartSafety.RestartIsSureIff` | src/sse.rs:147-159 | with everything before an event handled, a restart is sure not to pass it iff it resumes from a stored id, or the log ends there |
| `RestartSafety.UnreadableStoreCanSkip` | src/sse.rs:147-159 | a run in which the stored id cannot be read and an event is skipped |
| `SseListener.Listener.constructor` | src/sse.rs:25-51 | with a new bus, the object is where the protocol is after a restart that loads iff Redis is configured, reachable and readable, from any earlier state with this id in the store |
| `SseListener.Listener.Persist` | src/sse.rs:83-97 | the id is stored iff Redis is configured, connected or connecting, and the write succeeds; a failed write or connect leaves no connection |
| `SseListener.Listener.Handle` | src/sse.rs:79-115 | for every event and every pattern of Redis failures: the cursor moves to its id if it has one, the id is stored iff the write can be made, the json is pushed iff it serialises and is no ApiVersion, and a serialising ApiVersion is remembered iff it is the first |
| `SseListener.Listener.Follow` | src/sse.rs:77-121 | one stream feeds the bus exactly its events before the first error, in order |
| `ListenerSpec.TakenUntilError` | src/sse.rs:77-120 | the events taken from a stream are its items before the first error, in order |
| `ListenerSpec.CursorIsLastId` | src/sse.rs:81-82 | the cursor ends at the last id received; events without one leave it alone |
| `ListenerSpec.FirstVersionHolds` | src/sse.rs:99-111 | after any events the bus holds what it held, or else the first serialising ApiVersion among them, and nothing iff there was none |
| `SseListener.Listener.Try` | src/sse.rs:52-129 | one iteration adds what its stream brought, counts a reconnect unless it is the first, and ends the loop iff the configuration cannot be built |
| `SseListener.Listener.Listen` | src/sse.rs:51-130 | over any attempts: the bus got everything taken, in order, and holds the first ApiVersion; cursor and store are those the events and successful writes leave; iterations but the first are reconnects; and if each stream replays an upstream log from where the listener had got to, the whole is a run of the ingestion protocol whose pushes are the bus's history |
| `ListenerSpec.HandleIsThreeSteps` | src/sse.rs:79-115 | handling a numbered event is the receive, persist and deliver steps: same cursor, same store, same payload pushed or none |
| `ListenerSpec.StreamIsRun` | src/sse.rs:77-121 | the events of one connection are a run from its first log entry to its last |
| `ListenerSpec.ListeningIsRun` | src/sse.rs:52-130 | any attempts that replay the log are a run with the same cursor, store and pushed payloads, one connect per attempt |
| `ListenerSpec.StoreIsOldOrTaken` | src/sse.rs:81-98 | whichever writes succeed, the persisted id is the old one or that of an event taken |
| `EndToEnd.ClientSeesStretchOfLog` | src/handlers.rs:153-211 | for every run of listener, bus and clients together, through any reconnects, restarts and interleavings: the payloads sent to a live client that missed nothing are those of log entries which, repeats collapsed, are the pushable part of one contiguous stretch of the upstream log, with at most as many repeats as reconnects |
| `EndToEnd.GreetedWithFirstVersion` | src/sse.rs:107-109 | for every such run, the first frame any client was sent is the ApiVersion that came first among the log entries the process has handled or is delivering |
| `EndToEnd.EventInHandGoesOut` | src/sse.rs:112-114 | the event in hand can always be numbered, appended, broadcast and delivered |
| `EndToEnd.SystemInvStep` | src/sse.rs:107-114 | every move of listener or bus keeps the bus's history equal to what the listener pushed, or that and the event under way, and its ApiVersion the first among what it handled |
| `EndToEnd.StretchOfPushes` | src/sse.rs:52-130 | any stretch of what a process pushed, repeats collapsed, is the pushable part of a contiguous stretch of the log |
| `PoolAccounting.PermitConservation` | src/binary_proxy.rs:137-218 | over every interleaving, with failure or cancellation at any await: free + idle + held + connecting = max(1, max_connections) |
| `PoolAccounting.OutcomeConservation` | src/handlers.rs:223-259 | counted requests = ok + error + rate-limited + still in handling iff no request of the run was cancelled or lost its error reply |
| `PoolAccounting.CountersTellOutcomes` | src/handlers.rs:226-238 | in every reachable state each counter is the number of requests with its outcome: all, replied, failed or refused, rate-limited |
| `PoolOwnership.ConnectionsAreExclusive` | src/binary_proxy.rs:199-218 | in every reachable state no stream is idle twice, idle and held, or held by two requests |
| `PoolPairing.IdleStreamsAreQuiet` | src/binary_proxy.rs:148-196 | every idle stream is at a frame boundary in both directions: what upstream can parse from it is what was asked, all answered, all answers read |
| `PoolPairing.ResponsesArePaired` | src/binary_proxy.rs:148-196 | across reuse, reconnects and dropped connections, the response of a successful request is upstream's answer to the very frame that request wrote |
| `PoolPairing.AlignedStep` | src/binary_proxy.rs:221-236 | every step, of any request or of upstream, keeps every stream's bytes meaning what its holder believes |
| `PoolRetry.AtMostTwoAttempts` | src/binary_proxy.rs:148-164 | over every run a request begins writing at most twice |
| `PoolRetry.RetryOnlyForCause` | src/binary_proxy.rs:149-164 | it begins again only by reconnecting, after one failure of the four retryable kinds, on a different stream |
| `PoolRetry.RetriedIff` | src/binary_proxy.rs:238-249 | a first failure leads to reconnecting iff its kind is UnexpectedEof, ConnectionReset, ConnectionAborted or BrokenPipe, else to an error |
| `PoolRetry.SecondFailureIsFinal` | src/binary_proxy.rs:156-163 | a second failure of any kind ends the request in an error |
| `PoolRetry.BeginsIff` | src/binary_proxy.rs:148-158 | an attempt begins exactly when a step puts the request at the start of a frame it was not writing |
| `PoolRetry.IdleOnlyAfterSuccess` | src/binary_proxy.rs:166-184 | a connection becomes idle only by the return of the request whose frame was the last on it and whose response has been read whole |
| `PoolWakeUp.IdleIsReused` | src/binary_proxy.rs:200-202 | an idle connection is taken before any permit, the one put back last |
| `PoolWakeUp.QueuesOnlyWhenEmpty` | src/binary_proxy.rs:200-208 | only a request that found the pool empty queues for a permit, and only a queued one gets one |
| `PoolWakeUp.FreeRisesIffDropped` | src/binary_proxy.rs:199-218 | a step frees a permit iff it drops a connection or permit |
| `PoolWakeUp.FreeNeverRises` | src/binary_proxy.rs:199-218 | over a stretch in which nothing is dropped the free permits never rise |
| `PoolWakeUp.StaysBlocked` | src/binary_proxy.rs:199-218 | over such a stretch a blocked request stays blocked, whatever becomes idle |
| `PoolWakeUp.DropUnblocks` | src/binary_proxy.rs:203-208 | a step lets a blocked request acquire a permit iff it drops something |
| `PoolWakeUp.IsServed` | src/binary_proxy.rs:148-184 | from any state, a request about to write on a new connection has a run in which it is answered and its connection comes back, with no permit freed and no other request touched |
| `PoolWakeUp.BlockedBesideIdle` | src/binary_proxy.rs:199-218 | for every pool size a state with a blocked request that cannot move beside an idle connection is reachable |
| `BinaryPoolObject.BinaryPool.constructor` | src/binary_proxy.rs:83-96 | the protocol's initial state with max(1, max_connections) permits |
| `BinaryPoolObject.BinaryPool.GetConnection` | src/binary_proxy.rs:199-214 | ends with a stream nothing has been written to for this request, with a connect that the world made fail, cancelled by the world, or queued with no free permit; only protocol steps are taken |
| `BinaryPoolObject.BinaryPool.Pop` | src/binary_proxy.rs:200-202 | takes exactly the connection put back last, and no permit |
| `BinaryPoolObject.BinaryPool.Queue` | src/binary_proxy.rs:203-208 | an empty pool leaves the request queued, and nothing else changed |
| `BinaryPoolObject.BinaryPool.Connect` | src/binary_proxy.rs:209-213 | a new stream under the permit in hand, or a failed connect still holding it |
| `BinaryPoolObject.BinaryPool.AcquirePermit` | src/binary_proxy.rs:203-208 | takes one free permit for the request, and changes nothing else |
| `BinaryPoolObject.BinaryPool.ReturnConnection` | src/binary_proxy.rs:216-218 | the request finishes as replied with its own stream, slot and response and its stream is the last of the idle ones, or the world cancelled it meanwhile |
| `BinaryPoolObject.BinaryPool.WriteAll` | src/binary_proxy.rs:226-227 | whatever the chunks and whoever else runs, on success exactly the frame up to `end` is out, on the same stream |
| `BinaryPoolObject.BinaryPool.WriteSome` | src/binary_proxy.rs:226-227 | appends exactly the next bytes of this request's frame to its stream |
| `BinaryPoolObject.BinaryPool.ReadExact` | src/binary_proxy.rs:230-234 | on success `end` bytes of the response are there, continuing those read before |
| `BinaryPoolObject.BinaryPool.Receive` | src/binary_proxy.rs:230-235 | reads the prefix and as many bytes as it says; the result is the body of the whole response frame |
| `BinaryPoolObject.BinaryPool.SendAndReceive` | src/binary_proxy.rs:221-236 | success leaves the request answered with the returned bytes, a failure is one the world brought and leaves it in the same attempt on the same stream |
| `BinaryPoolObject.BinaryPool.Reconnect` | src/binary_proxy.rs:251-254 | a new stream under the same permit with the failure remembered, or no change |
| `BinaryPoolObject.BinaryPool.Exchange` | src/binary_proxy.rs:148-164 | an answer, or a failure for which there is no second attempt: second already, not retryable, or of reconnecting |
| `BinaryPoolObject.BinaryPool.Fail` | src/binary_proxy.rs:186-196 | exactly one permit is released, one error counted, and nothing put back |
| `BinaryPoolObject.BinaryPool.Reply` | src/binary_proxy.rs:166-185 | the caller gets the rewritten response or the echoing error, and the request is recorded as replied; it is lost iff neither encodes for upstream's answer to its own frame |
| `BinaryPoolObject.BinaryPool.Refuse` | src/binary_proxy.rs:102-134 | turned away locally: one error counted, no permit, connection or stream touched |
| `BinaryPoolObject.BinaryPool.Forward` | src/binary_proxy.rs:136-196 | what an admitted request's caller is told matches how the request ended, an I/O error only if the world brought it |
| `BinaryPoolObject.BinaryPool.Send` | src/binary_proxy.rs:99-197 | in the order of the source's checks: an unsupported version, an invalid request, more than 4 MiB and a request for peers each get the error they are due, echoing the request where the source does; any other is forwarded, and its result explained by how it ended |
| `BinaryPoolObject.RepliesAreOwnAndClean` | src/binary_proxy.rs:99-197 | in every reachable state a reply hides the peers; a refused request got the error for its fault, echoing it; any other got the cleaned version of upstream's answer to the frame this request wrote, in that answer's envelope, or the error for an answer that cannot be cleaned |
| `Framing.FramingRoundTrip` | src/binary_proxy.rs:221-236 | any sequence of payloads within the size check, framed back to back, is read back exactly with nothing left over |
| `Framing.FramesRoundTrip` | src/binary_proxy.rs:221-236 | and also in the middle of a frame: the unfinished tail is what is left over |
| `Framing.FrameOnTheWire` | src/binary_proxy.rs:224-227 | the four bytes of the prefix are the length's base-256 digits, lowest first, and then comes the payload |
| `Framing.LengthFromTheWire` | src/binary_proxy.rs:230-232 | the length read from four bytes is b0 + 256 b1 + 65536 b2 + 16777216 b3 |
| `Framing.WrittenPlaceValue` | src/binary_proxy.rs:225-225 | byte i of a written number is its digit of place value 256^i, for any width |
| `Framing.ReadPlaceValues` | src/binary_proxy.rs:232-232 | a number read is the sum of its bytes times 256^i, for any width |
| `Framing.LengthPrefixIsExactIff` | src/binary_proxy.rs:224-225 | after the cast to u32 the prefix announces the true length iff the payload is shorter than 4 GiB |
| `Framing.SizeCheckPreventsTruncation` | src/binary_proxy.rs:112-126 | the 4 MiB check makes the cast exact |
| `Framing.PartialFrameHasNone` | src/binary_proxy.rs:221-236 | no proper prefix of a frame parses as a frame |
| `RewriteTheorems.RewriteIsCleaning` | src/binary_proxy.rs:452-573 | bytes are rewritten to given bytes iff they are read as an envelope with a meaning whose cleaned version the codecs write as them in that envelope |
| `RewriteTheorems.RewriteKeepsMeaning` | src/binary_proxy.rs:452-650 | under lawful codecs the output has the same shape and echoed request; a peers list has become the error FunctionDisabled, a status has no peers and the rest unchanged, anything else carries the same type and value; it parses back to that envelope iff with-request or not ambiguous |
| `RewriteTheorems.RewriteTwice` | src/binary_proxy.rs:452-650 | rewriting rewritten bytes succeeds and returns the same bytes, for all with-request envelopes and for unambiguous plain ones |
| `RewriteTheorems.OverlapBreaksIdempotence` | src/binary_proxy.rs:575-599 | lawful codecs with overlapping envelope formats for which rewriting twice differs |
| `RewriteTheorems.EnvelopeRoundTrip` | src/binary_proxy.rs:575-614 | a serialised envelope is read back; parsing returns it iff with-request or not decodable as such |
| `RewriteTheorems.ErrorReplyIsStable` | src/binary_proxy.rs:445-450 | an error reply is the codec's encoding of that code with the echoed request, is read as that, and rewriting leaves it alone |
| `RewriteTheorems.ForwardedIsDue` | src/binary_proxy.rs:166-184 | what is sent on is the cleaned answer, in its own envelope with everything kept, if there is one; else the error with the right code and the client's request echoed; and it hides the peers |
| `RewriteTheorems.ForwardedFailsIff` | src/binary_proxy.rs:166-184 | nothing is sent on iff the answer cannot be rewritten and the error for it cannot be encoded |
| `RewriteTheorems.FailureCode` | src/binary_proxy.rs:418-428 | the code is UnsupportedRequest iff the answer is a success of an unknown type, else InternalError |
| `RewriteTheorems.CopiedTypes` | src/binary_proxy.rs:470-570 | the payloads of exactly four types are copied whatever they are; of the others an undecodable one is refused, a peers list disabled |
| `RewriteTheorems.ParseIsReading` | src/binary_proxy.rs:575-599 | bytes are taken as a with-request envelope if they decode as one, else as a plain one, with nothing left over |
| `RewriteTheorems.SerializeIsWriting` | src/binary_proxy.rs:601-614 | each shape is written by its own codec |
| `RewriteTheorems.OpaqueIsLawful` | src/binary_proxy.rs:386-408 | the opaque codec obeys the codec law and copies every payload |
| `Rewrite.RewriteByMeaning` | src/binary_proxy.rs:452-573 | the result for every response that means something, case by case, and that only an encoding can fail |
| `Rewrite.RewriteOfMeaning` | src/binary_proxy.rs:470-571 | a response with a meaning is rewritten iff the cleaned meaning encodes, and to that |
| `Rewrite.ExpressedMeans` | src/binary_proxy.rs:616-650 | a cleaned meaning survives being encoded, in every branch |
| `Rewrite.RewriteResponseTwice` | src/binary_proxy.rs:452-573 | a rewritten response is rewritten to itself |
| `RateLimit.PeriodTracksPerMinute` | src/rate_limit.rs:31-37 | for every rate >= 1 the resulting rate is below twice it, and at least it iff it is at most 60000; rate 0 means one a minute |
| `RateLimit.BinaryConnectionQuota` | src/rate_limit.rs:42-52 | period and burst are both at least one for every configuration |
| `RateLimit.WindowBound` | src/rate_limit.rs:42-52 | any run of the limiter admits at most burst + floor(window / period) requests in a window |
| `RateLimit.AdmitsAfterPeriod` | src/rate_limit.rs:42-52 | the limiter admits a request whenever a period has passed since its last admission, and its first |
| `RateLimit.BurstIsExact` | src/rate_limit.rs:42-52 | of requests at one instant a new limiter admits exactly the first burst |
| `RateLimit.BinarySocketBurst` | src/rate_limit.rs:47-50 | which is the first max(burst_size, 1) for a socket |
| `RateLimit.RateIsGranted` | src/rate_limit.rs:31-52 | a client that keeps to the configured rate is never limited |
| `RateLimit.BinarySocketMinuteBound` | src/rate_limit.rs:42-52 | in any minute fewer than burst + 2 * per_minute requests pass |
| `BinarySocket.TurnAway` | src/handlers.rs:227-240 | counted as rate-limited once the client was told, unless cancelled first |
| `BinarySocket.Serve` | src/handlers.rs:225-260 | one message: limited iff the limiter says so, otherwise sent, and the client told what became of it |
| `BinarySocket.HandleBinarySocket` | src/handlers.rs:213-269 | the requests are served in order under distinct tasks, each limited or let through as the limiter run over their times says, and each ended in the pool as its client was told; they are all up to the closing message, or exactly those up to the first after which the handler is suspended or a reply is not taken |
| `BinarySocket.RequestsAre` | src/handlers.rs:223-267 | those are the binary messages before the first that closes or fails, others being passed over |
| `BinarySocket.SocketWindowBound` | src/handlers.rs:227-241 | at most burst + floor(window / period) requests of one socket go on to the pool in a window |

## Left out

- Internals of the broadcast channel, `Notify`, the semaphore, the limiter crate, Redis and the upstream servers: environment assumptions, stated above.
- Layouts of the node's types, of `BinaryResponse`, `BinaryResponseAndRequest` and `CommandHeader`: abstract codecs; header fields of a response beyond error code, type tag and payload are not represented.
- `parse_request`: only its outcome (one of two errors, or whether it asks for the peers) is an input.
- `BinaryError::ChannelClosed` and `ConnectionUnavailable`: the first is never constructed, the second needs a closed semaphore, which nothing closes.
- Streams as objects: the pool model keeps them in a table by number, so a socket is never shared by aliasing; closing and the bound on raw sockets during a reconnect are not modelled, only permit-holding connections are bounded.
- A write that blocks forever: each write makes progress, fails or is cancelled; waiting for response bytes and for permits is modelled.
- u64 wrap-around of event ids: ids are unbounded.
- Broadcasts while nobody is subscribed: the ring keeps them in the model; no receiver could tell.
- More than one producer on a bus: only the run above.
- EventBusObject.EventBus.RememberApiVersion: says what is stored; waking the waiters is in `ApiVersionObject.ApiVersionCell.Remember`, so the bus object has no waiters.
- Upstream events without an id other than the ApiVersion: handled by `Listener.Handle`, but the theorems about the upstream log take every event to carry one.
- Prometheus registration and rendering: only the counters that conservation needs; `lost` is a counter of the model, not of the program.
- JSON-RPC proxying, configuration, database, routing, websocket upgrade, keep-alive, JSON text, logging and delays: single-branch facts or plumbing.
