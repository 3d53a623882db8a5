# TeamChat in Dafny

A model of the TeamChat backend and proofs of what it guarantees. MySQL, Redis, the broker, the network
and every clock are explicit state or explicit inputs, so that failures, delays and interleavings are
part of each statement. `dafny verify dfyconfig.toml` checks the whole project.

Each protocol is a total function from a state and an event to a state. A run is any finite sequence of
events, events that cannot happen yet are ignored, and the main results hold for every run.

| file | what it models |
|---|---|
| `Bits.dfy`, `Snowflake.dfy` | bit operators on naturals, the 64-bit word, the generator reading by reading and as a class |
| `Fleet.dfy`, `Config.dfy` | several servers drawing IDs concurrently; the worker ID from the environment |
| `MessageTable.dfy`, `DeltaSync.dfy` | the messages table, the keyset page, the delta map, the catch-up loop |
| `SendPipeline.dfy`, `Answers.dfy`, `Verdicts.dfy`, `PrimaryKey.dfy`, `MessageService.dfy` | the five-step send protocol, interleaved; the reason for each answer and what exactly decides it; unique keys through it; the code as written, as one schedule of it |
| `ClientCursor.dfy`, `LostMessages.dfy` | a client mixing live frames and syncs against the send protocol; two runs that lose a message |
| `LiveStream.dfy`, `Delivery.dfy`, `Heartbeat.dfy` | one session's buffer and goroutines; what they deliver; the read deadline |
| `Hub.dfy`, `Sessions.dfy`, `SessionLife.dfy` | the hub as a class and as a history; session start, teardown and shutdown; a session from its first event to its last |
| `Channels.dfy`, `Connection.dfy` | channel creation and membership; how a session gets its listeners from it |

## Assumptions

- Redis pub/sub is a lossy FIFO for each room and subscriber; the client of `ClientCursor` is allowed even
  more (any stored publication of its room, any number of times, in any order).
- An idempotency key lives exactly its TTL.
- MySQL enforces the primary and foreign keys of scripts/migrations. A call that returns an error may or may
  not have taken effect (`Outcome`), which holds for SETNX, INSERT, DELETE and PUBLISH alike.
- `time.Now` is a sequence of readings. Statements about IDs take readings within the documented 41 bits;
  `PackIsSum` says what happens outside.
- Shutdown holds the hub's lock throughout, so it is one step of the worker.

## Where the code and its documentation differ

- snowflake.go says that a clock that goes backwards stalls the generator. It does not: the code resets the
  sequence and moves its stamp back, and an ID can be issued twice (`RewindRepeats`). IDs rise exactly when no
  call reads below the last stamp (`StreamIncreasingIff`) and are distinct exactly when no reading opens a
  stamp that was used before (`StreamDistinctIff`).
- message_handler.go and the data-flow document let the client sync from the highest ID it holds. With that
  cursor a dropped frame is lost to sync as soon as a later frame arrives (`DroppedFrameIsLost`), unless a
  request or an answer that covers it is still on its way (`LiveJumpLoses`). Even with a cursor that only sync
  answers move, a message whose INSERT is overtaken by a later ID can be lost (`LateCommitIsLost`,
  `LateCommitLoses`). `NoGapRunIff` gives the exact steps that break the promise; `SyncOnlyNoLoss` and `Drain`
  give the conditions under which nothing is lost.
- channel_service.go says that a DM has exactly two members. An accepted one has one to three
  (`DirectMessageSize`).
- The guarantees document says that Shutdown closes the open WebSockets. It closes the registered ones; a
  session superseded by a reconnection stays open (`ShutdownClosesIff`, `SupersededSurvives`).
- client.go closes a session through a shared context, but ServeWS keeps spawning the goroutines it has left
  even after the connection was closed (`SpawnsIff`); they then end as the others do.

## Model

| member | source | states |
|---|---|---|
| Snowflake.PackIsSum | shared/snowflake/snowflake.go:33-40 | shifts and ORs give stamp * 2^22 + worker * 2^12 + sequence for every reading, reduced modulo 2^42 outside the field |
| Snowflake.PackRoundTrip | shared/snowflake/snowflake.go:4-15 | within 41 bits the word decodes to its three fields and its sign bit is 0 |
| Snowflake.PackOrder | shared/snowflake/snowflake.go:11-15 | words compare as (stamp, worker, sequence) does |
| Snowflake.Generator.constructor | shared/snowflake/snowflake.go:56-61 | a worker ID in 0..1023 is kept, any other becomes 0; counters start at 0 |
| Snowflake.Generator.Next | shared/snowflake/snowflake.go:67-91 | one call on any clock trace has the state and result of the reading-by-reading semantics, or is still in the wait loop when the trace ends |
| Snowflake.CallOutcome | shared/snowflake/snowflake.go:71-87 | the first reading decides a call; only an exhausted stamp reads on, up to the first later reading |
| Snowflake.SpinOutcome | shared/snowflake/snowflake.go:76-81 | the wait goes on exactly while no reading exceeds the last stamp, and then issues sequence 0 of a later stamp |
| Snowflake.NextAboveIff | shared/snowflake/snowflake.go:63-91 | a call returns an ID above the previous one if and only if its first reading is not below lastStamp |
| Snowflake.StreamIncreasingIff | shared/snowflake/snowflake.go:63-91 | over any trace the ID stream is strictly increasing if and only if no call reads below the last stamp |
| Snowflake.SteadyClock | shared/snowflake/snowflake.go:63-91 | a clock that never runs backwards never rewinds the generator |
| Snowflake.SteadyClockIncreases | shared/snowflake/snowflake.go:63-91 | a clock that never runs backwards gives a strictly increasing ID stream |
| Snowflake.StampShare | shared/snowflake/snowflake.go:13-14 | without a rewind at most 4096 IDs share a millisecond |
| Snowflake.StreamDistinctIff | shared/snowflake/snowflake.go:63-66 | a new generator whose clock is past the epoch never repeats an ID if and only if no reading opens a stamp in which an ID was already issued, a condition on the readings and the state before each of them |
| Snowflake.RewindRepeats | shared/snowflake/snowflake.go:65-85 | the readings t, t-1, t issue the same ID twice |
| Fleet.FleetUnique | shared/snowflake/snowflake.go:56-91 | for any interleaving of servers with distinct effective workers and forward clocks all IDs are distinct |
| Fleet.OwnGeneratorOnly | shared/snowflake/snowflake.go:67-91 | among any readings of other servers a generator goes through what it would alone on its own readings |
| Fleet.IssuesOwnIds | shared/snowflake/snowflake.go:67-91 | a server's readings hand out exactly the IDs of its generator on that clock trace |
| Fleet.SteadyClocks | shared/snowflake/snowflake.go:71-87 | per-server forward clocks start every call at or above that server's last stamp |
| Fleet.SharedWorkerCollides | shared/snowflake/snowflake.go:52-59 | two servers with the same effective worker issue the same ID in the same millisecond |
| Fleet.RestartRepeats | shared/snowflake/snowflake.go:60-60 | a restarted server repeats its first ID when the clock still shows that millisecond |
| Config.GetEnvInt64 | shared/config/config.go:68-81 | fallback for a missing or non-numeric value, else the decimal value wrapped to int64 |
| Config.ParsePrinted | shared/config/config.go:68-81 | the decimal value of a printed number is that number |
| Config.WorkerFromEnv | shared/config/config.go:54-54 | for every environment string: 1 when it is missing or not all digits, else its value modulo 2^64 where that is below 1024 and 0 where it is not |
| MessageTable.InsertRowMeaning | scripts/migrations/000001_init.sql:7-15 | inserting a free key adds that row only and keeps primary-key order |
| MessageTable.HistoryMeaning | shared/repository/msg_repo.go:33-37 | the query without its limit returns exactly the matching rows, ascending |
| MessageTable.PageMeaning | shared/repository/msg_repo.go:33-38 | a page has at most 100 rows, ascending, and skips none below its last row |
| MessageTable.PageMemberIff | shared/repository/msg_repo.go:33-38 | a stored row is on the page exactly when it matches and fewer than 100 matching rows precede it |
| MessageTable.PageOnlyRecedes | shared/repository/msg_repo.go:33-38 | a later INSERT can push a stored row off a page and never brings one onto it |
| MessageTable.PageThenRest | shared/repository/msg_repo.go:21-32 | a page followed by the history above its last row is the history above the cursor |
| MessageTable.GetMessagesSince | shared/repository/msg_repo.go:32-55 | the page, or an error exactly when the query, a scan or the row stream fails |
| DeltaSync.SyncDeltas | services/api-server/internal/service/sync_service.go:35-51 | exactly the requested channels with news, each with its page, in any iteration order; one failing query fails the answer |
| DeltaSync.RoundShrinks | services/api-server/internal/service/sync_service.go:35-51 | a non-empty answer leaves fewer rows to fetch |
| DeltaSync.CatchUpIsHistory | services/api-server/internal/service/sync_service.go:11-18 | on a quiet table of any size the repeated requests end and their pages concatenate to the full history, no gap and no repeat |
| DeltaSync.ClientsConverge | document/08_guarantees.md:41-44 | two clients starting from 0 end with the same sequence for every shared channel |
| SendPipeline.StoreKept | services/api-server/internal/service/message_service.go:59-98 | every step of every request keeps rows sorted, attributed to one request, and in agreement with its stage |
| SendPipeline.ApplyGrows | services/api-server/internal/service/message_service.go:83-97 | rows, publications, claims and settled answers are never undone by any step |
| SendPipeline.PersistBeforePublish | services/api-server/internal/service/message_service.go:87-97 | in every reachable state each published message is a stored row with the same fields, in that channel's room |
| SendPipeline.ResponseAgreesWithStore | services/api-server/internal/handler/http/message_handler.go:75-102 | 202: exactly one row has the returned ID and is the message; 400, 403, 409: nothing stored; any row stored despite a 500 is the message and reachable by sync |
| SendPipeline.AcceptedIsDurable | document/08_guarantees.md:15-15 | a message answered 202 is in the table in every later state |
| SendPipeline.StoredStaysReachable | services/api-server/internal/service/message_service.go:87-97 | a row once stored, whatever was answered, is returned by the unlimited query from below its ID in every later state |
| SendPipeline.PublishFailureKeepsRow | services/api-server/internal/service/message_service.go:93-97 | a failed publish after the INSERT answers 500 and keeps the row |
| SendPipeline.ClaimsThirtySecondsApart | shared/repository/cache_repo.go:22-38 | two claims of one key are by different requests at least 30 s apart |
| SendPipeline.SameKeyThirtySecondsApart | services/api-server/internal/service/message_service.go:60-71 | two stored messages with the same non-empty key were claimed at least 30 s apart |
| SendPipeline.OneRowPerRequest | services/api-server/internal/service/message_service.go:83-91 | a request stores at most one row |
| SendPipeline.KeyHeldThroughFailure | document/08_guarantees.md:54-54 | for 30 s after a claim any other request with the key is answered 409 (500 if Redis fails), however its holder ended |
| Answers.StoredOnlyByMembers | services/api-server/internal/service/message_service.go:73-81 | every stored row's sender was a member of its channel when the request was checked |
| Answers.ForbiddenMeansNonMember | services/api-server/internal/handler/http/message_handler.go:90-91 | 403 only for a sender who was not a member when checked |
| Answers.ConflictMeansRecentClaim | services/api-server/internal/handler/http/message_handler.go:88-89 | 409 only while another request's claim of the same key is under 30 s old |
| Answers.AcceptedWasPublished | services/api-server/internal/handler/http/message_handler.go:49-49 | 202 only after the message was published to its channel's room |
| Verdicts.AcceptedIff | services/api-server/internal/service/message_service.go:59-98 | in any interleaving a request is answered 202 if and only if it takes all its steps and none fails: key free and Redis working, sender a member, ID free and database working, broker working, no crash |
| Verdicts.RefusedIff | services/api-server/internal/service/message_service.go:59-98 | 403, 409 and 500 are the answer if and only if the first of the request's own steps to fail fails that way, whatever other requests do |
| Verdicts.BadRequestIff | services/api-server/internal/handler/http/message_handler.go:75-78 | 400 if and only if a field is missing, in every reachable state |
| Verdicts.KeyFreeIff | shared/repository/cache_repo.go:22-38 | in every reachable state a key is free if and only if every claim of it is at least 30 s old |
| Verdicts.KeyFreesItself | shared/repository/cache_repo.go:22-38 | 30 s without a new claim of its key let a request through the guard, whatever became of the last holder |
| Verdicts.TimePasses | shared/repository/cache_repo.go:22-38 | time at Redis is what has elapsed, whatever else happened |
| Verdicts.MembersIff | shared/repository/channel_repo.go:103-132 | who is a member is decided by the last change of that membership and by nothing else |
| PrimaryKey.NoKeyViolation | services/api-server/internal/service/message_service.go:83-91 | with distinct workers and forward clocks the ID of a request about to be stored is free in every interleaving |
| MessageService.Backend.AcquireIdempotencyLock | shared/repository/cache_repo.go:35-38 | SETNX: sets the key with its expiry exactly when it is free, and reports whether it did |
| MessageService.Backend.SendMessage | services/api-server/internal/service/message_service.go:59-98 | the stores, the answer and the filled-in ID are those of the protocol run on that request's five events; and, without the protocol, the exact condition of each answer and the exact contents of every store |
| MessageService.Backend.HandleSendMessage | services/api-server/internal/handler/http/message_handler.go:55-102 | 400 exactly for a missing field, with no store touched; 409, 403 and 202 each under its exact condition, and 202 with exactly that row and that publication added |
| ClientCursor.ClientKept | services/api-server/internal/handler/http/message_handler.go:119-131 | whatever happens, requests and answers of any age included, the client holds only stored messages of its channel, its cursor is its start or the ID of a message it holds, and no request was asked from above it |
| ClientCursor.HeldIff | services/api-server/internal/handler/http/message_handler.go:119-131 | over any run the client holds exactly what it held at the start, the frames of other users' messages of its channel, its own 202s and the messages of the sync answers that arrived |
| ClientCursor.CursorIsHighestHeld | services/api-server/internal/handler/http/message_handler.go:125-125 | the documented cursor is the highest ID held in every state of every run |
| ClientCursor.StepKeepsNoGapIff | services/api-server/internal/handler/http/message_handler.go:119-131 | a step keeps the no-gap property if and only if it is none of the three listed breaking steps |
| ClientCursor.NoGapRunIff | services/api-server/internal/handler/http/message_handler.go:119-131 | over a whole run, with requests served and answers delivered late, out of order or repeatedly, the property holds in every state if and only if no breaking step is taken, for either cursor |
| ClientCursor.SyncOnlyNoLoss | shared/repository/msg_repo.go:21-55 | with a sync-driven cursor and commits in ID order the client holds every message between its cursors in every interleaving, overlapping and delayed requests included, each once |
| ClientCursor.LostForever | shared/repository/msg_repo.go:33-38 | a message in a gap that no outstanding request or answer covers is never returned by any later sync |
| ClientCursor.NotLostIsRecoverable | shared/repository/msg_repo.go:33-38 | the converse: any other message in a gap is obtained by serving at most one outstanding request and delivering an answer |
| ClientCursor.LiveJumpLoses | services/api-server/internal/handler/http/message_handler.go:125-125 | with the documented cursor, a frame above a stored message not held makes that message lost if and only if no outstanding request or answer covers it |
| ClientCursor.LateCommitLoses | services/api-server/internal/service/message_service.go:83-91 | a row stored at or below the cursor is lost if and only if every outstanding request was asked from its ID or above or has 100 rows before it, whatever the cursor policy |
| ClientCursor.Drain | document/08_guarantees.md:29-31 | without a gap, syncing on a quiet server ends with every message above the start held |
| ClientCursor.ViewsConverge | document/08_guarantees.md:41-44 | caught-up clients without gaps show the same sequence, the stored history, whatever live frames each received |
| LostMessages.DroppedFrameIsLost | services/api-server/internal/handler/http/message_handler.go:125-125 | a complete run from empty stores in which the documented cursor loses a message |
| LostMessages.LateCommitIsLost | services/api-server/internal/service/message_service.go:83-91 | a complete run in which an overtaken INSERT is lost to a sync-driven cursor |
| LiveStream.OfferAllKeepsEarliest | services/ws-worker/internal/handler/ws/client.go:151-167 | with the writer idle the buffer takes exactly the earliest of the user's messages that fit |
| LiveStream.Client.ListenToRedis | services/ws-worker/internal/handler/ws/client.go:142-169 | the loop leaves that buffer, never above 256, and never removes a message |
| LiveStream.Client.WritePump | services/ws-worker/internal/handler/ws/client.go:98-112 | messages are written in order until the buffer is empty or a write fails |
| LiveStream.LivePathAtMostOnce | services/ws-worker/internal/handler/ws/client.go:123-170 | for any scheduling, frames written for a room are a subsequence of its publications, none twice, none by the user, none of a room without a listener |
| LiveStream.DuplicateRoomDeliversTwice | scripts/migrations/000002_multi_channel.sql:16-20 | two listeners of one room would buffer a publication twice |
| LiveStream.NothingUnaccounted | services/ws-worker/internal/handler/ws/client.go:98-168 | at most 256 are buffered, and each publication was received as often as it was unparsable, suppressed, dropped, buffered or taken, with only junk, own and foreign messages in those classes |
| LiveStream.ReceiveIsOffer | services/ws-worker/internal/handler/ws/client.go:147-167 | the interleaved listener step changes the buffer as one iteration of the loop does |
| LiveStream.WriterNeverDelays | services/ws-worker/internal/handler/ws/client.go:161-167 | two runs that differ only in when and how successfully the writer ran and in what was buffered leave the listeners at the same places with the same payloads handled |
| LiveStream.ListenerKeepsPace | services/ws-worker/internal/handler/ws/client.go:142-169 | in any run, n turns take a listener n publications on or to the end of its room's log, whatever the buffer holds |
| LiveStream.StuckWriterKeepsEarliest | services/ws-worker/internal/handler/ws/client.go:161-167 | while the writer takes nothing, the listeners' interleaved messages fill the buffer earliest first up to 256 and exactly the later ones are dropped |
| Delivery.WriterDrains | services/ws-worker/internal/handler/ws/client.go:98-112 | n turns of a working writer write the first n buffered messages in order and change nothing else |
| Delivery.WriteIsPump | services/ws-worker/internal/handler/ws/client.go:98-112 | the writer's turns in the interleaved session write, leave and lose the same messages as the loop of the code, with or without a failing write |
| Delivery.FailedWriterStops | services/ws-worker/internal/handler/ws/client.go:109-111 | after a failed write nothing more is written or taken from the buffer |
| Delivery.RoomForAll | services/ws-worker/internal/handler/ws/client.go:161-167 | nothing is dropped while the buffer has room for all that is offered, the writer idle or not |
| Delivery.DeliversInOrder | services/ws-worker/internal/handler/ws/client.go:98-168 | after any run without a failed write or a drop, draining the buffer has written exactly what was under way followed by everything the listeners offered, in order |
| Delivery.PublishedIsWritten | services/ws-worker/internal/handler/ws/client.go:123-170 | a subscribed listener that Redis loses nothing of gets to the wire exactly the other users' publications of its room since it subscribed, in order, each once, and all those it had turns for |
| Delivery.SilentUntilSubscribed | services/ws-worker/internal/handler/ws/client.go:133-141 | a listener that has not subscribed yet hands over nothing |
| Heartbeat.ReadPump | services/ws-worker/internal/handler/ws/client.go:64-81 | still reading exactly when no frame was fatal and no 60 s passed without a Pong; a timeout comes at the first such moment |
| Heartbeat.SilenceEndsLoop | services/ws-worker/internal/handler/ws/client.go:27-35 | after 60 s without a Pong the read loop has ended, whatever other frames arrive before, during or after |
| Heartbeat.HeartbeatNeverExpires | services/ws-worker/internal/handler/ws/client.go:27-35 | Pongs within less than 6 s of each tick keep the deadline from expiring for any number of rounds |
| Heartbeat.HeartbeatBoundExact | services/ws-worker/internal/handler/ws/client.go:27-35 | every connection whose ticks are answered within a delay is still reading if and only if that delay, and the ticker's start lag with it, are below 6 s |
| HubRegistry.ReplayIffCurrent | services/ws-worker/internal/handler/ws/hub.go:34-56 | after any calls, the entry of a user is c exactly when c is the latest registration with no later Unregister(c) or Shutdown |
| HubRegistry.Hub.Register | services/ws-worker/internal/handler/ws/hub.go:37-42 | the entry becomes the new client and the registry is that of the longer history |
| HubRegistry.Hub.Unregister | services/ws-worker/internal/handler/ws/hub.go:47-56 | only the entry of that very instance is removed, and no entry is that instance afterwards |
| HubRegistry.Hub.ActiveCount | services/ws-worker/internal/handler/ws/hub.go:60-64 | the number of users with an entry in the replayed history |
| HubRegistry.Hub.Shutdown | services/ws-worker/internal/handler/ws/hub.go:69-77 | every registered connection is closed, the registry is empty, no other connection is touched |
| Sessions.HubTracksSessions | services/ws-worker/internal/handler/ws/ws_handler.go:83-96 | in every reachable state the hub holds exactly the current registrations, all registered and not unregistered |
| Sessions.NeverReappears | services/ws-worker/internal/handler/ws/client.go:55-62 | a session that has unregistered is in no later hub |
| Sessions.ShutdownLeaves | services/ws-worker/internal/handler/ws/hub.go:66-77 | after Shutdown an open session had not registered, was superseded, or had unregistered itself |
| Sessions.ShutdownClosesIff | services/ws-worker/internal/handler/ws/hub.go:66-77 | Shutdown closes an open session if and only if it is its user's current registration |
| Sessions.SupersededSurvives | services/ws-worker/internal/handler/ws/hub.go:34-42 | after any run, an older open session stays open when a newer one registers and the hub then shuts down |
| Sessions.NoRevival | services/ws-worker/internal/handler/ws/client.go:48-62 | once ServeWS has returned no step spawns or revives a goroutine, and closing and cancelling are final |
| Sessions.SpawnsIff | services/ws-worker/internal/handler/ws/ws_handler.go:86-96 | a goroutine is spawned if and only if ServeWS runs one of its remaining statements, closed connection or not |
| Sessions.TurnInRun | services/ws-worker/internal/handler/ws/client.go:54-121 | a turn of a goroutine advances its exit whatever other steps surround it |
| Sessions.TeardownCompletes | document/08_guarantees.md:76-76 | after a close, four rounds with a turn for each of the N+2 goroutines leave all gone, the context cancelled and the hub without the session |
| Sessions.AnyFailureEndsSession | services/ws-worker/internal/handler/ws/client.go:54-121 | seven such rounds end the session after any first read or write failure |
| Sessions.StartFinishes | services/ws-worker/internal/handler/ws/ws_handler.go:83-96 | after at most N+4 turns of ServeWS, among any other steps and closed or not, all goroutines are spawned and the teardown results apply |
| SessionLife.ConnectStartsAll | services/ws-worker/internal/handler/ws/ws_handler.go:83-96 | N + 4 turns of ServeWS after a connection with N channels leave it registered, both pumps and exactly N listeners spawned, among any other steps |
| SessionLife.LoadFailureIsFinal | services/ws-worker/internal/handler/ws/ws_handler.go:74-81 | a failed channel lookup closes the connection and never spawns or registers anything |
| SessionLife.HealthyStays | services/ws-worker/internal/handler/ws/client.go:48-121 | without a read or write error, an ended subscription or a shutdown no goroutine of the session ends, and the hub keeps it until a newer session of the user registers |
| SessionLife.FailureEndsSession | services/ws-worker/internal/handler/ws/client.go:54-121 | any run with a read or write error of the session, followed by seven fair rounds, leaves no goroutine, the context cancelled, the connection closed, the hub without it |
| SessionLife.SubscriptionEndsListener | services/ws-worker/internal/handler/ws/client.go:147-150 | a subscription that Redis ends ends its listener for good |
| Channels.ContainsString | services/api-server/internal/service/channel_service.go:103-110 | true exactly when the target is in the list |
| Channels.Directory.AddMember | shared/repository/channel_repo.go:103-111 | INSERT IGNORE: adds the pair once, ignores unknown users and channels; an error leaves it added or not, as the database's outcome says |
| Channels.Directory.RemoveMember | shared/repository/channel_repo.go:113-121 | removes exactly that pair, or on an error nothing or that pair, as the outcome says |
| Channels.Directory.IsMember | shared/repository/channel_repo.go:125-132 | true exactly for members, an error when the query fails |
| Channels.Directory.GetChannelIDsByUser | shared/repository/channel_repo.go:83-101 | each of the user's channels exactly once, or an error when the query fails |
| Channels.Directory.CreateChannel | services/api-server/internal/service/channel_service.go:40-78 | a GROUP is accepted with every list, a DM exactly with two members, no other kind; success exactly when accepted and no call failed, then with exactly the existing users among the list and the creator; the channel row exactly when its INSERT took effect; after a failed enrolment exactly those that took effect; refusals change nothing; other channels keep their members |
| Channels.PrintedInjective | services/api-server/internal/service/channel_service.go:61-61 | different generated IDs give different channel IDs |
| Channels.DirectMessageSize | services/api-server/internal/service/channel_service.go:50-58 | an accepted DM whose users all exist has 1 to 3 members, and 2 exactly in the stated cases |
| Connection.Connect | services/ws-worker/internal/handler/ws/ws_handler.go:46-96 | refused without user, upgrade or channel list; otherwise one listener for each channel of the user, so that under every schedule each publication is written at most once, and only those of channels the user was in when connecting; its buffer is empty, its writer ready and no listener subscribed yet |

## Left out

- User registration and lookup, channel listing, and string settings: only easy members.
- JSON, HTTP routing, method checks, logging, process start-up and signals.
- Authentication and read-side authorisation, which the system declares it does not provide.
- Creation times: they are neither compared nor used as keys.
- Roadmap features: acknowledgement frames, presence, replicas, sharding.
- Gorilla, go-redis and database/sql internals; their calls are steps with explicit outcomes.
- Snowflake.Generator.Next: takes a finite recorded clock trace, and a call that never returns appears as one still waiting at its end.
- MessageService.Backend.SendMessage: assumes that the generator's call completes; a call stuck in its wait loop is a request that takes no further step in the protocol.
- Sessions.TeardownCompletes: is for sessions whose ServeWS has returned; one still spawning reaches that point by Sessions.StartFinishes.
- Sessions.TurnInRun: a turn of a cancelled listener means that its `select` takes the `ctx.Done` case (client.go:143-147); a payload it takes instead is a step of LiveStream.
- Sessions: goroutines are steps over values, so the aliasing of the connection object is modelled only in the hub class.
- LiveStream: Pings are not among its events; a Ping that fails ends the writer, as `WriteError` of `Sessions` does, without taking a message.
- MessageService.Backend.HandleSendMessage: starts from the decoded fields; a wrong method (405) and a body that does not decode (400) are part of HTTP and JSON.
- LiveStream.Client.ListenToRedis: is one listener running alone; the interleaving of several is LivePathAtMostOnce.
- Heartbeat: the writer's side is represented by when Pongs are handled; a write that blocks delays them.
