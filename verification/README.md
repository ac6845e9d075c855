# Verified model of the websocket server

The server accepts websocket connections under several limits, relays messages within tenants, and encodes what
it sends as MessagePack, which its web client decodes. This project models the stateful parts in Dafny 4.11 and
proves what they keep over every run. `dafny verify dfyconfig.toml` checks it.

| file | what it models |
|---|---|
| `TokenBuckets.dfy` | the lazily refilled bucket and its twin, against a limiter that keeps the whole history |
| `IpLimiter.dfy` | per-IP admission, permits and the two-phase reaper, as one object and as many threads' steps |
| `Handshake.dfy` | any number of handshakes between IP permit, global slot, authentication, tenant slot and close |
| `Handler.dfy` | one handshake undisturbed: `ws_handler` as one of those runs |
| `Topics.dfy` | tenant-prefixed keys and topic normalization |
| `Registry.dfy` | who is reachable under (tenant, client id), with the two-step unregistration |
| `Connection.dfy` | one connection: bounded queue, topic receiver, three tasks, teardown |
| `Hub.dfy` | all connections with the topics and the registry they share, and both entries |
| `Reader.dfy` | the frame pipeline: a bucket per connection inside a bucket per tenant |
| `MsgpackFormat.dfy`, `MsgpackDecoder.dfy` | the part of MessagePack that the client reads, and the decoder |
| `Doubles.dfy` | what a 64-bit integer becomes in JavaScript: the nearest double |
| `AppState.dfy` | the shared state and the reader task as objects, specified by the modules above |
| `Options.dfy` | the option type |

Concurrency is modelled as runs: a sequence of steps of any threads in any order, each step what the source does
under one lock or in one atomic operation; where a step takes in more, "Left out" says so. A clock reading is a parameter; times in a run do not go backwards.
Tokens are real numbers. Code that changes an object in place is a method of a class, and its postcondition ties
the new state to the functions that the runs are made of.

## What the proofs found

- **The reaper can be noticed.** `IpLimiters.InvisibleExactly`: forgetting idle addresses changes no answer
  exactly when no connection rate is set, or the burst is at most 300 times the rate and the concurrency cap is
  not 0. With a larger burst, an address that has spent it gets a full bucket back after five minutes of silence,
  earlier than it would have earned it. With a cap of 0 only the reason of a refusal changes.
- **A late unregistration can remove its successor.** `unregister_client` looks and removes in two operations.
  `Registry.FaithfulExactly` says when that does no harm, `Registry.StaleRemoval` gives the interleaving in which
  a client is online and not reachable. Done in one step it is always right (`AtomicRegistryIsExact`).
- **One way out does not unregister.** If Ready could not be encoded, `connection_loop` would return from
  `src/server.rs:265-272` with its entry still in the registry, until another connection of the same client comes or
  goes (`Hubs.AbandonedForever`). No topic or client id is known for which encoding fails. The entry would be dead
  weight only: `Hubs.AbandonedChangesNoDelivery` shows that every direct message is delivered or reported as not
  delivered as it would be without it.
- **Tenant isolation depends on the tenant ids.** The repository's README promises that routing isolates tenants.
  `Hubs.TenantsMeetExactly`: a message of one tenant can reach a client of another exactly when the ids are equal
  or one continues the other by a ':' and what can begin a topic name. Ids without ':' are isolated
  (`TenantsAreIsolated`).
- **The HTTP entry names the topic as it was asked for**, not as it was routed (`src/api.rs:87-94`), so the two
  differ exactly when the requested name was not a clean one (`Hubs.MessageNamesTopic`). `Hubs.HttpNamesAsAsked` is
  a run in which a client subscribed to "a" is sent a message that names " a".
- **Normalization is not idempotent**: "/ a" becomes " a", which becomes "a" (`Topics.NormalizedTwice`).
  `Topics.IdempotentExactly` says for which inputs once is enough.
- **64-bit integers above 2^53 can come back as neighbours**: `MsgpackDecoder.RoundTrip` holds exactly when every
  64-bit payload is a double. `MsgpackDecoder.FirstLoss`: 2^53 + 1 comes back as 2^53. Floats, signed 64-bit integers, binary and extension markers are refused.

## Model

| member | source | states |
|---|---|---|
| TokenBuckets.NewBucket | src/ip_limiter.rs:30-38 | a new bucket is full and within its bounds, whatever the configured numbers |
| TokenBuckets.TokenBucket.constructor | src/ip_limiter.rs:30-38 | the object starts as that bucket |
| TokenBuckets.TokenBucket.TryConsume | src/ip_limiter.rs:40-48 | the answer and all four fields are those of `Consume`, the function the history results are about |
| TokenBuckets.TokenBucket.RefillTo | src/ip_limiter.rs:50-56 | a refill earns the elapsed time at the rate, up to the capacity, and moves the clock |
| TokenBuckets.RateLimiter.constructor | src/server.rs:647-655 | integer settings give the same bucket as the real-valued one |
| TokenBuckets.RateLimiter.Allow | src/server.rs:657-665 | refines the same `Consume` |
| TokenBuckets.RateLimiter.RefillTo | src/server.rs:667-674 | the twin refill is the same refill |
| TokenBuckets.DrawScansHistory | src/ip_limiter.rs:40-56 | one call answers as a scan of all earlier admissions does; a refusal leaves the history as it was |
| TokenBuckets.BucketIsHistoryScan | src/ip_limiter.rs:29-57 | for every non-decreasing call sequence the bucket and the history scan give the same answers |
| TokenBuckets.FitsInSeconds | src/ip_limiter.rs:50-56 | the scan in seconds: at most capacity + rate * (now - s) admissions since each earlier one at s |
| TokenBuckets.AdmissionsInWindow | src/ip_limiter.rs:29-57 | in every run no time window holds more admissions than the capacity and what it earned |
| TokenBuckets.GreedyIsOptimal | src/ip_limiter.rs:40-56 | no other choice among the same arrivals within the window bound is ahead after any prefix |
| IpLimiters.ConfiguredExactly | src/ip_limiter.rs:74-97 | what capacity, rate and cap the three settings come to, and when there is no limiter |
| IpLimiters.VerdictExactly | src/ip_limiter.rs:104-136 | which verdict when, by the tokens and slots to spare, and what a grant changes |
| IpLimiters.StaleExactly | src/ip_limiter.rs:59-152 | stale: idle, and last seen more than five minutes ago |
| IpLimiters.RateRefusalLeavesNoTrace | src/ip_limiter.rs:115-121 | an attempt refused for its rate changes no later answer and no later entry |
| IpLimiters.ConcurrencyRefusalCosts | src/ip_limiter.rs:104-128 | one refused for its concurrency has spent exactly one token of the entry found, or made under a cap of 0, and changed nothing else |
| IpLimiters.IpLimiter.TryAcquire | src/ip_limiter.rs:101-137 | undisturbed, a reap and then the decision on what it left |
| IpLimiters.IpLimiter.DecideGuarded | src/ip_limiter.rs:104-136 | entries and verdict are those of `Decide`, the critical section that the runs are made of |
| IpLimiters.IpLimiter.ReapIdle | src/ip_limiter.rs:139-155 | undisturbed, removes stale entries only, exactly min(64, how many there are) |
| IpLimiters.IpLimiter.ScanIdle | src/ip_limiter.rs:141-149 | distinct stale addresses, 64 of them or all |
| IpLimiters.IpLimiter.Release | src/ip_limiter.rs:157-164 | takes one off the count and marks the entry as seen, if it is there |
| IpLimiters.IpPermit.Drop | src/ip_limiter.rs:174-180 | a permit gives back once, however often it is dropped |
| IpLimiters.StepConserves | src/ip_limiter.rs:101-165 | every step of any thread keeps the counts equal to the live permits, within the cap |
| IpLimiters.PermitsConserved | src/ip_limiter.rs:101-165 | so in every reachable state, with scans, removals, attempts and drops interleaved |
| IpLimiters.GuardsNeverFire | src/ip_limiter.rs:150-164 | a live permit's entry is there with a positive count, and no reaper's next removal removes it |
| IpLimiters.InvisibleExactly | src/ip_limiter.rs:59-155 | for every configuration: all verdicts as without the reaper, if and only if no rate is set, or the burst is at most 300 times the rate and the cap is not 0 |
| IpLimiters.GrantsAgreeExactly | src/ip_limiter.rs:59-155 | the same for grants alone |
| IpLimiters.BurstOutlastsTtl | src/ip_limiter.rs:139-155 | the failing family: a run in which a burst above 300 times the rate makes the reaper visible |
| IpLimiters.ZeroCapShows | src/ip_limiter.rs:116-128 | with a cap of 0 and a rate, a run in which the reason of a refusal changes |
| IpLimiters.DecisionStales | src/ip_limiter.rs:104-136 | a decision adds no stale entry, but for one it made itself more than the TTL ago |
| IpLimiters.SeriesProgress | src/ip_limiter.rs:101-155 | each of successive acquisitions, granted or refused, removes 64 of the entries stale by the end of the series, or leaves none that was stale at its start |
| IpLimiters.AcquisitionsClear | src/ip_limiter.rs:101-155 | ceil(n / 64) acquisitions, granted or refused, clear n stale entries |
| Handshakes.InvStep | src/server.rs:93-244 | every step of every handshake keeps slots, permits and counters in balance |
| Handshakes.RunKeepsInv | src/server.rs:93-244 | in every reachable state free slots plus holders is the cap, globally, per tenant and per IP |
| Handshakes.CapsHold | src/server.rs:119-182 | open connections and the holders of each tenant and address stay within their caps |
| Handshakes.RejectionsAddUp | src/metrics.rs:28-62 | rejections are the sum over the four causes, but for refusals still between their two counters |
| Handshakes.EverythingComesBack | src/server.rs:119-193 | when all handshakes have gone, refused, failed or served, every slot on every level is free again |
| Handshakes.RefusedExactlyWhenFull | src/state.rs:103-119 | a slot is refused if and only if all are held, a tenant's only by that tenant's own connections |
| Handlers.ReapRuns | src/ip_limiter.rs:139-155 | an undisturbed reap, as the object does it, is a run of its thread's scan and removals |
| Handlers.HandlerRuns | src/server.rs:93-193 | an undisturbed `ws_handler` is a run of its handshake's steps, and what it leaves is determined: the checks in their order, one slot held on each level or none, the counters |
| Handlers.AdmittedLeaves | src/server.rs:184-244 | an admitted handshake, failed or served, can always go and has then dropped everything |
| Topics.KeyRoundTrip | src/server.rs:625-629 | a key gives its topic back if and only if the tenant id has no ':' |
| Topics.NormalizeExactly | src/server.rs:680-687 | however an input falls into spaces, slashes, name and spaces, the result is the name's first 128 characters, or "public" |
| Topics.EveryInputHasParts | src/server.rs:680-687 | and every input does |
| Topics.SpacesAre | src/server.rs:681 | which characters are trimmed |
| Topics.NormalizedIsTopic | src/server.rs:680-687 | every result is non-empty, at most 128 characters and starts with no '/' |
| Topics.EveryTopicArises | src/server.rs:680-687 | and every such name is the result for some input |
| Topics.FixedExactly | src/server.rs:680-687 | which names another application leaves alone |
| Topics.IdempotentExactly | src/server.rs:680-687 | for which inputs once is enough |
| Topics.NormalizedTwice | src/server.rs:680-687 | an input for which it is not |
| Topics.NormalizeShrinks | src/server.rs:680-687 | another application keeps a name, shortens it or gives the default, which stays |
| Topics.NormalizeConverges | src/server.rs:680-687 | repeated application settles |
| Topics.SharedKeyExactly | src/state.rs:208-210 | two tenants can be given one key if and only if their ids collide |
| Topics.PlainTenantsApart | src/state.rs:206-210 | ids without ':' collide only with themselves |
| Registry.FaithfulExactly | src/state.rs:149-174 | the map is the registry of owners at every point if and only if no removal takes another's entry |
| Registry.QuietIsFaithful | src/state.rs:165-174 | so it is when nobody registers under a key between a look and its removal there |
| Registry.AtomicRegistryIsExact | src/state.rs:149-174 | with unregistering in one step: mapped to c if and only if c registered last and has not unregistered |
| Registry.StaleRemoval | src/state.rs:165-174 | the interleaving that shows the condition is needed |
| Connections.BoxStep | src/server.rs:596-612 | every step keeps the queue bounded, attempts accounted for, and the output a prefix of what was accepted |
| Connections.QueueTakesExactly | src/server.rs:596-612 | the queue takes exactly what a step offers it while there is room and its receiving end is there |
| Connections.EachAttemptCounts | src/server.rs:596-612 | each attempt counts once, as enqueued or as dropped |
| Connections.TasksStopExactly | src/server.rs:274-426 | what stops each task, and that nothing else does |
| Connections.RunningTasksAct | src/server.rs:274-395 | what each task can do, for exactly as long as it runs |
| Connections.StageStep | src/server.rs:397-429 | every step keeps the tasks as the stage says, and a stopped writer stopped |
| Connections.FeedStep | src/server.rs:303-319 | every position the receiver passed was queued once and in order, reported as lag after the channel had dropped it, or is the one it was refused at |
| Connections.LagLeavesOldest | src/server.rs:311-314 | after lag the receiver goes on with the oldest message still kept |
| Connections.ConnStep | src/server.rs:246-430 | all of it at once |
| Connections.RefusedCloses | src/server.rs:303-309 | a message refused to the fanout, like any stopped task, closes the connection |
| Connections.ClosingStays | src/server.rs:397-429 | no step of anything keeps or puts off a closing connection's end; each step of its teardown brings it nearer |
| Connections.ClosingMoves | src/server.rs:401-429 | until it has finished, a step of its teardown is possible |
| Connections.EndsByItself | src/server.rs:401-429 | left to itself it gets to its end in as many steps as remained |
| Connections.AbandonedIsDead | src/server.rs:265-272 | after the early return it accepts nothing and does nothing |
| Hubs.RunKeepsInv | src/state.rs:149-204 | every run of any connections and HTTP requests keeps topics, registry and connections consistent |
| Hubs.QueueAccounts | src/server.rs:596-612 | in every run: attempts = enqueued + dropped, the queue within capacity, the output a prefix |
| Hubs.OnlyLagLoses | src/server.rs:301-319 | in every run: a connection misses topic messages only by reported lag, up to the one whose refusal ended it |
| Hubs.LagIsOverwritten | src/server.rs:311-314 | in every run: nothing is reported as lag that is among the last `ring` messages |
| Hubs.ReadersAct | src/server.rs:496-557 | a client can publish and address others for exactly as long as its reader runs |
| Hubs.ConnectionsAreKnown | src/server.rs:225-263 | in every run: each connection is who it said it was, on the topic it asked for, made clean, under its tenant |
| Hubs.LogsAreThePosts | src/server.rs:505-526 | in every run: each key's log is exactly what was published to it by either entry, in order |
| Hubs.PostsAreHeard | src/server.rs:510-521 | who was connected on the topic of a message has it queued once its receiver has come past it, but for lag and refusal |
| Hubs.NothingOldIsHeard | src/state.rs:194-203 | in every run: nobody is sent a topic message published before they connected |
| Hubs.TenantsMeetExactly | src/state.rs:178-210 | something of one tenant can be queued for another's client if and only if the ids collide |
| Hubs.TenantsAreIsolated | src/server.rs:496-566 | without ':' in the ids never, and a direct message only ever reaches the client it names |
| Hubs.ReadyNamesTopic | src/server.rs:265-272 | Ready names the subscribed topic if and only if the tenant id has no ':' |
| Hubs.MessageNamesTopic | src/api.rs:87-97 | when a message names the topic it was routed on, by either entry |
| Hubs.ClosingInRun | src/server.rs:397-429 | in every run, whatever is interleaved: a closing connection stays one, and its teardown has no more steps than remained |
| Hubs.ClosingGoesOn | src/server.rs:401-429 | and until it has finished another one is possible |
| Hubs.AlwaysEnds | src/server.rs:303-309 | in every fair execution a connection whose fanout was refused, or any of whose tasks has stopped, finishes and is unregistered |
| Hubs.HttpNamesAsAsked | src/api.rs:87-97 | a run in which a delivered message names another topic than it was routed on |
| Hubs.TeardownCloses | src/server.rs:397-429 | all tasks stopped before unregistering, which happens once, and no entry of the connection left |
| Hubs.DirectReachesOwner | src/server.rs:537-557 | while no removal has taken another's entry, a direct message by either entry is queued once for the owner of (sender's tenant, name), if there is room, and nothing else changes |
| Hubs.SendersAreKnown | src/server.rs:548 | whoever sends one by websocket does it under its own tenant |
| Hubs.AbandonedStaysRegistered | src/server.rs:258-272 | if encoding Ready fails, the connection is gone and registered; whether it can fail is left open |
| Hubs.AbandonedChangesNoDelivery | src/state.rs:178-187 | the entry left then changes the delivery of no direct message |
| Hubs.AbandonedStays | src/server.rs:265-272 | exactly which steps end that |
| Hubs.AbandonedForever | src/server.rs:265-272 | no stretch of a run without those ends it |
| Readers.ReceiveJudges | src/server.rs:327-395 | one turn of the reader loop decides as the history does |
| Readers.HistoryDecides | src/server.rs:327-395 | so in every run of any connections and tenants |
| Readers.CheckTenantScans | src/state.rs:129-147 | the shared bucket, created when first asked, answers as the tenant's history does |
| Readers.TenantBudget | src/state.rs:121-147 | no window has more of a tenant's frames handled than its burst and what its rate earns, over all its connections |
| Readers.ConnectionBudget | src/server.rs:336-347 | the same for each connection's own bucket |
| Readers.ReaderStopsExactly | src/server.rs:338-375 | a reader stops exactly at a refusal of its own bucket or the end of its input, and looks at nothing after it |
| Readers.EveryFrameOnce | src/server.rs:336-376 | every frame counted in is exactly one of handled, connection-limited, too large, tenant-limited |
| Readers.NeighboursDontMatter | src/state.rs:32-34 | what other tenants do changes nothing for a tenant's frames |
| Readers.ServeIsRun | src/server.rs:332-393 | the loop of one reader is one of the runs |
| MsgpackFormat.HeadRoundTrip | examples/web-client/index.html:426-464 | a marker and its big-endian or two's-complement payload read back as they were written |
| MsgpackFormat.SignedExactly | examples/web-client/index.html:452-464 | two's complement: the same number modulo the modulus, in the signed range |
| MsgpackFormat.ParseMany | examples/web-client/index.html:519-533 | n announced values take at least n bytes and no more than there are |
| MsgpackFormat.ParsesSerialized | examples/web-client/index.html:470-539 | reading stops exactly where an encoding ends, whatever follows |
| MsgpackFormat.ParseSound | examples/web-client/index.html:470-539 | whatever is read is a word of the grammar, byte for byte |
| MsgpackFormat.PrefixFree | examples/web-client/index.html:535-539 | no encoding begins another |
| MsgpackDecoder.DecodeMsgpack | examples/web-client/index.html:409-540 | the cursor-moving decoder returns what `Decode` says of the whole frame, in at most one call more than there are bytes |
| MsgpackDecoder.Decoder.DecodeValue | examples/web-client/index.html:470-517 | moves the cursor over exactly one value, or throws |
| MsgpackDecoder.Decoder.DecodeArray | examples/web-client/index.html:519-525 | collects as many values as announced |
| MsgpackDecoder.Decoder.DecodeMap | examples/web-client/index.html:527-533 | later entries overwrite earlier ones |
| MsgpackDecoder.Decoder.Read | examples/web-client/index.html:413-424 | a slice of the length asked for, or nothing |
| MsgpackDecoder.Decoder.ReadU64 | examples/web-client/index.html:446-450 | the big-endian number, rounded to a double |
| MsgpackDecoder.Decoder.ReadI32 | examples/web-client/index.html:462-464 | the two's complement of the word |
| MsgpackDecoder.DecodeExactly | examples/web-client/index.html:409-540 | a value comes back if and only if the input is a word of the grammar denoting it |
| MsgpackDecoder.OnlyWholeFrames | examples/web-client/index.html:535-539 | an encoding cut short or followed by anything is refused |
| MsgpackDecoder.RoundTrip | src/protocol.rs:61-63 | every legal encoding of a value decodes to it, if and only if its 64-bit payloads are doubles |
| MsgpackDecoder.FirstLoss | examples/web-client/index.html:446-450 | the smallest number that is lost: 2^53 + 1 decodes to 2^53 |
| MsgpackDecoder.SafeNumbersHold | src/protocol.rs:61-63 | which they are when no number is above 2^53 |
| MsgpackDecoder.EncodingOf | src/protocol.rs:61-63 | every value in the formats' range has an encoding |
| Doubles.IsDoubleExactly | examples/web-client/index.html:446-450 | the doubles are the numbers of at most 53 binary digits, scaled by a power of two |
| Doubles.ToDoubleIsDouble | examples/web-client/index.html:446-450 | rounding gives a double |
| Doubles.ToDoubleIsNearest | examples/web-client/index.html:446-450 | and none is nearer |
| Doubles.TiesGoToEven | examples/web-client/index.html:446-450 | of two equally near ones the even |
| Doubles.ToDoubleExactly | examples/web-client/index.html:446-450 | rounding keeps a number if and only if it is a double |
| AppStates.Queue.TrySend | src/state.rs:180-185 | a bounded queue takes an item if it is open and not full |
| AppStates.AppState.NextConnectionId | src/state.rs:91-93 | a number that no registered connection has |
| AppStates.AppState.AcquireTenantPermit | src/state.rs:103-119 | one permit of that tenant's semaphore, created full, and nobody else's: the handshake runs' `TakePermit` |
| AppStates.AppState.CheckTenantRate | src/state.rs:129-147 | answer and buckets are those the frame pipeline is proved with |
| AppStates.AppState.RegisterClient | src/state.rs:149-163 | the registering step of the registry protocol |
| AppStates.AppState.FindsItself | src/state.rs:167-171 | the look, as a step of the registry protocol |
| AppStates.AppState.RemoveClient | src/state.rs:172 | the removal that trusts it, as another |
| AppStates.AppState.UnregisterClient | src/state.rs:165-174 | both in turn when nobody comes between; no other entry changes |
| AppStates.AppState.SendToClient | src/state.rs:178-187 | only the queue registered under the sender's tenant can change |
| AppStates.AppState.SendEncoded | src/server.rs:596-612 | queued, or counted as dropped |
| AppStates.AppState.Subscribe | src/state.rs:194-196 | a subscriber hears what is published from then on |
| AppStates.AppState.DropReceiver | src/server.rs:303-319 | a receiver that has gone counts no more |
| AppStates.AppState.Publish | src/state.rs:189-203 | appends to the log of that key alone and returns its receivers |
| AppStates.AppState.ApiPublish | src/api.rs:76-115 | unauthorized, not encoded, or routed by the clean name, named as asked, and counted once per receiver or as dropped |
| AppStates.AppState.ApiDirect | src/api.rs:117-158 | unauthorized, not encoded, put into the queue registered under the caller's tenant, or counted as dropped |
| AppStates.AppState.WsHandler | src/server.rs:93-193 | the checks in their order; admitted holds one slot on each level, refused holds none and moves its counters; some run of that handshake's steps leads to the same state |
| AppStates.ReaderTask.Receive | src/server.rs:333-392 | one turn of the loop is one turn of the pipeline |
| AppStates.ReaderTask.Serve | src/server.rs:332-393 | the loop is that turn until it stops or the input ends |

## Left out

- Rounding of `f64` tokens and the resolution of `Instant`: tokens and times are real numbers. A critical section reads the clock once here, where the source may read it two or three times in a row.
- Widths of counters and ids: they do not wrap, and `ip_max_concurrent` is taken to fit in 32 bits (`src/ip_limiter.rs:75`).
- Map entries are values inside a map, not shared objects with guards; what a guard protects is one step.
- Tokens, keys and signatures: authentication is whatever identity or refusal comes out, for the websocket and the HTTP entry alike.
- `resolve_client_ip`, HTTP routing, TLS, CORS, logging, signals, environment parsing and the Prometheus text.
- JSON and MessagePack parsing of client events: after a frame is admitted, any event may follow. The server's encoder is a relation given by the MessagePack specification, section "Formats", not the library that implements it.
- Message payloads, request ids and the texts of errors; `messages_out`, which the HTTP entry counts when queueing and the writer again when sending (`src/server.rs:291`, `src/api.rs:101-104`).
- Strings are sequences of bytes in the decoder: replacement of invalid UTF-8 and of a byte order mark by the text decoder is not modelled, nor are prototypes of JavaScript objects. Shifts and bit-wise or are their arithmetic equivalents.
- The broadcast channel's rounding of its capacity to a power of two: the model's `ring` is the capacity after it. Messages published while nobody listens stay in the model's log, where no later subscriber can see them.
- Scheduling: that a step which stays possible is taken in the end. `Hubs.AlwaysEnds` has this as its hypothesis, for the teardown of the one connection it speaks of.
- Readers.ReceiveJudges: one turn of the loop is one step with one reading of the clock, where the source checks the connection's own bucket and then, under the lock of the tenant's entry and with a reading of its own, the shared one.
- The depth of the JavaScript call stack, which deeply nested input can exhaust.
- AppStates.AppState.WsHandler: is one thread's turn, so its reap and its checks are undisturbed; the interleaved case is in `Handshake.dfy`.
- `Handshake.dfy` and `Hub.dfy` are separate runs: an open handshake there is a connection here.
- Ready as the first frame of a connection: a direct message can be queued before it (`src/server.rs:258-272`).
- AppStates.AppState.UnregisterClient: is the undisturbed case; other threads' steps between its two are in `Registry.dfy`.
