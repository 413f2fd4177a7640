# OpenServe: proofs about the hard parts

OpenServe serves language models. A gateway checks API keys, limits rates and streams responses; a
control API handles logins, keys and documents; an operator deploys models and enforces budgets; a
relay forwards requests to agents on users' own machines. This project models the parts of these
programs whose guarantees no finite set of examples settles, and proves what they guarantee over
every run. `dafny verify dfyconfig.toml` checks all of it.

| Files | Subject |
|---|---|
| `Relay`, `RelaySafety`, `RelayPromises`, `RelayProgress`, `RelayPanics`, `RelayOvertaking` | one peer connection: requests multiplexed by id, the reader, the queues, the callers, the agent |
| `Hub`, `HubLaws`, `HubRuns` | the relay's objects, and connections that come, evict each other and go |
| `Agent`, `AgentLaws`, `Utf8`, `Utf8Laws` | the agent's handler, and what is left of a model server's response; UTF-8 and white space |
| `RedisLimiter`, `RedisLimiterHistory`, `RedisLimiterRetry`, `RedisLimiterBursts`, `RedisLimiterLoss` | the Lua sliding-window limiter against the whole history of a key, and two gaps in it |
| `MemoryLimiter` | the in-memory limiter and its filter through an aliased slice |
| `SseSniffer` | the streaming proxy's line splitter and usage sniffer |
| `Reconciler`, `ReconcilerSafety`, `ReconcilerProgress`, `ReconcilerRoutes`, `Routes`, `WeightDigest` | the ModelDeployment reconciler, the shared route table, the weight check |
| `Budget` | the budget pass, pause and resume |
| `Chunker`, `ChunkerLaws`, `ChunkerRunes`, `Documents` | paragraph packing, the runes it cuts, and all-or-nothing publication |
| `Keys`, `KeysLaws`, `Base64`, `Base64Bits`, `Text`, `Bytes` | the PHC string printed by one service and parsed by another, key prefixes |
| `Login`, `LoginProgress` | the "first user becomes admin" transaction |

Concurrency is modelled as a state machine over steps, each as small as the code's atomic action: a
table lookup and the channel operation after it are separate steps, and so are the read and the
write of a ConfigMap, or two statements of a transaction. Every run is a sequence of steps in any
order. Code that works in place is a class or a method with a loop, proved against functions on
values, and the laws are proved about those functions. Beside what no run may do, the project proves
what an undisturbed one does (`EveryoneIsServed`, `ReconcileDeploys`, `LoginIsStored`): safety alone
would hold of a program that does nothing. What an operation computes is stated in literal terms (bytes,
characters, prices, texts) rather than by the functions that compute it.

## Where the code does less than it says

Each of these is a property one would expect that is false of the code. The project states the exact
condition under which it holds, or a run in which it fails.

- `select` may take the done signal while chunks are still queued, so a caller can be told the
  response is complete without having it (`DoneMayOvertake`; `CompleteIff` is exact). A full queue
  drops chunks silently (`QueueKeepsFirst`).
- The agent's handlers and its pong write to one connection without a lock, so a frame may be
  spoilt. Without a lost chunk the caller has a prefix of the chunks that arrived, and the whole
  response exactly if, besides, no chunk frame was spoilt (`CallerGetsItsChunks`, `CompleteIff`). A
  caller whose last frame is spoilt waits for ever (`SpoiltEndHangs`).
- Forward has no timeout and does not watch its connection: once that is gone, a waiting Forward never
  returns exactly if its channels are empty (`HangsIff`).
- The relay panics on a second done frame for a request (`PanicsIff` is exact; `TwoDonesPanic` is
  such a run), which its own agent never sends (`NeverClosesTwice`).
- An evicted connection's deferred `Unregister` removes its successor: online means connected
  exactly if no connected peer's last registration or exit was an exit (`AccurateIff`). A further
  connection then leaves two sockets open (`EvictionForgets`).
- A line too long for the agent's scanner ends the scan, and so does a failed read of the model
  server's body, and the response still ends as done: the scanner's error is never looked at
  (`TruncatedIff` is exact; `FailedReadTruncates` is such a body). A frame's JSON replaces invalid
  bytes (`WholeReadIff` is exact; `InvalidByteIsReplaced`). A JSON `null` body panics the agent
  (`HandleRequest`).
- The 65-second expiry never changes an answer (`ExpiryNeverMatters`), but ZADD and EXPIRE are
  pipelined, not atomic: if EXPIRE is lost, the record is missing at some time of its minute exactly
  if the key existed, the deadline of its last renewal has passed by then, and no later call or
  record renewed the key by that deadline (`LostRecordIff`). If nothing touches the key again, that
  is exactly if its last renewal was more than 5001 ms old (`LostUntouchedIff`). A call at the limit
  then passes (`LostRecordOvershoots`).
- Requests of one millisecond count once against the request limit, so any number of them is
  admitted together (`BurstIff` is exact; `TwoAMinute` is such a run).
- The reconciler compares the catalog's digest with the stored one before it verifies; an empty
  catalog digest equals the empty status of a new object, so nothing is verified
  (`UnverifiedOnlyIfEmpty` is exact).
- Routes are keyed by name alone: cleaning up a deployment takes the route of a live one of the same
  name in another namespace (`SameNameLosesRoute` is such a run; `LosesIff` and `RouteTakenIff` are
  exact). Where no two deployments share a name this cannot happen (`UniqueNamesKeepRoutes`).
- A route file that does not parse loses everything on the first write (`PreservedIff` is exact), and
  a null document panics (`SyncRoute`).
- A stored hash without rounds, threads or bytes makes the gateway panic (`VerifyArgon2idPHC` is
  exact; `AnyHash` says which parameters do, 256 threads among them).
- A chunk's carried tail is cut by bytes, so a valid text may give a chunk that starts inside a rune,
  which a PostgreSQL TEXT column refuses (`ChunksUtf8Iff` is exact; `AccentIsCut` is such a text,
  `DefaultCutsRunes` a family for the default overlap). A document is then never published
  (`ReadyNeedsWholeRunes`).
- The login comment speaks of a serializable transaction; the code begins one at the default
  isolation and relies on a row lock. The result holds all the same (`ExactlyOneAdmin`). The error
  of the member count is ignored, which is harmless: the aborted transaction fails at the insert.
- The key generator's comment speaks of 32 random bytes; the code draws 16, printed as 32 hex digits.
  Two keys share a lookup prefix exactly if their first four bytes agree (`GeneratedPrefix`).

## Model

| member | source | states |
|---|---|---|
| RelayPromises.CallerGetsItsChunks | apps/peer-relay/internal/relay/hub.go:87-168 | In every interleaving of any number of requests on a connection, with frames spoilt by concurrent writes, what a caller was sent is an in-order subsequence of the chunks that arrived for that id, and those of the chunks the agent sent for it; a prefix of what arrived if no chunk found the queue full, and of what was sent if, besides, no frame of that id was spoilt |
| RelayPromises.MarkerEndsResponse | apps/peer-relay/internal/relay/hub.go:134-139 | The end marker is written at most once, last, and only after a done frame for that id; all that arrived for it has been dispatched by then |
| RelayPromises.ErrorsComeAlone | apps/peer-relay/internal/relay/hub.go:112-143 | A request that ends in a peer error or a send error has sent its caller nothing; for a peer error the agent sent that one error and nothing else |
| RelayPromises.CompleteIff | apps/peer-relay/internal/relay/hub.go:126-144 | Taking the done signal leaves the caller with the whole response if and only if its queue is empty, no chunk was lost to a full queue, and no chunk frame was spoilt |
| RelayProgress.EveryoneIsServed | apps/peer-relay/internal/relay/hub.go:87-168 | For any number of scripts of the agent, one a request, there is a run in which each caller is sent every chunk of its own script in order and then the end marker, or its one error, and every request is removed |
| RelayProgress.ServesWholly | apps/peer-relay/internal/relay/hub.go:87-168 | On a quiet connection a request whose frames arrive one by one ends so, whatever happened before; nothing else on the connection changes and it is quiet again |
| RelayProgress.DrainsItsQueue | apps/peer-relay/internal/relay/hub.go:126-134 | In any state, a selecting request whose writes succeed hands its queue to the caller chunk by chunk, in order, and goes on selecting; nothing else changes |
| RelayProgress.FailuresLeave | apps/peer-relay/internal/relay/hub.go:106-131 | A failed send or write ends the request without another word, and takes it out of the table |
| RelayProgress.HangsIff | apps/peer-relay/internal/relay/hub.go:126-144 | Once the connection is gone and the reader has nothing in hand, no run ever ends a waiting Forward if and only if its channels are empty |
| RelayProgress.SpoiltEndHangs | apps/peer-relay/internal/relay/hub.go:126-144 | A selecting request of which nothing is in its channels, in hand or in flight, and whose handler has nothing more to send, goes on waiting in every further run of the repository's agent |
| RelayOvertaking.DoneMayOvertake | apps/peer-relay/internal/relay/hub.go:126-144 | A run in which the agent sends one chunk and the caller gets the end marker alone |
| RelayPromises.PendingIsForwards | apps/peer-relay/internal/relay/hub.go:102-110 | In every reachable state the table's ids are exactly the Forward calls between their insert and their deferred delete |
| RelayPromises.NeverClosesTwice | apps/peer-relay/internal/relay/hub.go:160-161 | With the repository's agent at the other end no done channel is ever closed twice |
| RelayPanics.PanicsIff | apps/peer-relay/internal/relay/hub.go:147-168 | Whatever the other end sends, the relay panics if and only if it dispatches two done frames to one request |
| RelayPanics.TwoDonesPanic | apps/peer-relay/internal/relay/hub.go:160-161 | A run in which two done frames for one request make it panic |
| RelaySafety.AlwaysSafe | apps/peer-relay/internal/relay/hub.go:87-168 | The invariant of a connection, one request at a time: nothing the agent sent overtakes, is repeated, is invented or crosses ids on its way to the request; channels and caller hold what was delivered |
| RelaySafety.NextKeeps | apps/peer-relay/internal/relay/hub.go:87-168 | Every step of caller, reader and agent keeps that invariant |
| RelaySafety.FinishOnce | apps/peer-agent/cmd/main.go:150-159 | In what one handler sends, nothing dispatched before a done frame is a done frame |
| RelaySafety.OfferKeeps | apps/peer-relay/internal/relay/hub.go:154-167 | Dispatching a frame that does not end a request twice keeps the account of chunks queued, written and lost |
| Hub.PendingReq.Put | apps/peer-relay/internal/relay/hub.go:154-167 | A chunk is queued or, past 256, lost; done closes once and panics again; the first error is kept |
| Hub.PeerConn.Insert | apps/peer-relay/internal/relay/hub.go:95-104 | A fresh request with empty channels under a new id; every other entry unchanged |
| Hub.PeerConn.Remove | apps/peer-relay/internal/relay/hub.go:106-110 | Exactly that id leaves the table |
| Hub.PeerConn.Dispatch | apps/peer-relay/internal/relay/hub.go:147-168 | Only the frame's own request changes, as the transition the runs are made of; a frame for an unknown id changes nothing |
| Hub.PeerConn.ReadLoop | apps/peer-relay/internal/relay/handler.go:127-145 | The loop's effect on table and models is the replay of the messages, ended by a panic if there is one; malformed and other messages do nothing |
| HubLaws.ReplayById | apps/peer-relay/internal/relay/hub.go:147-168 | The read loop leaves in each request exactly what that request's own frames alone would, in order |
| HubLaws.QueueKeepsFirst | apps/peer-relay/internal/relay/hub.go:155-167 | Undrained, a queue holds the first 256 chunks and the rest are lost; the error slot holds the first error; done is closed if and only if a done frame came |
| HubLaws.LastHelloCounts | apps/peer-relay/internal/relay/handler.go:136-141 | Over any messages, the peer's models are those of its last hello, or as they were without one |
| Hub.Hub.Register | apps/peer-relay/internal/relay/hub.go:64-72 | The newest connection serves the peer and the one it replaces is closed, its table untouched |
| Hub.Hub.Unregister | apps/peer-relay/internal/relay/hub.go:74-78 | Whatever connection serves the peer stops doing so |
| HubRuns.OnlineIsConnected | apps/peer-relay/internal/relay/handler.go:104-115 | In every run an online peer is connected and served by its newest connection, never an evicted one |
| HubRuns.ComesAndGoes | apps/peer-relay/internal/relay/handler.go:104-127 | In every run, a new connection serves its peer and the one it replaces is closed; once it breaks and its handler ends, the peer is offline and the connection gone, others left alone |
| HubRuns.StaysAccurateIff | apps/peer-relay/internal/relay/handler.go:110-115 | From any reachable state in which online means connected, a step keeps that if and only if it is not the exit of a connection whose peer has another live one |
| HubRuns.AccurateIff | apps/peer-relay/internal/relay/handler.go:104-115 | After any run, online means connected if and only if no peer with a live connection has an exit as the last of its registrations and exits |
| HubRuns.NoEvictionIsAccurate | apps/peer-relay/internal/relay/hub.go:64-85 | In runs without evictions online means connected and every peer has one connection at most |
| HubRuns.EvictionForgets | apps/peer-relay/internal/relay/handler.go:110-111 | A run in which the evicted connection's exit makes a connected peer offline, and the next connection leaves two sockets open |
| Agent.HandleRequest | apps/peer-agent/cmd/main.go:110-160 | One run of the handler sends chunks and one done, or exactly one error with its message; it panics having sent nothing if and only if the body is JSON null for a model it has |
| Agent.SendLines | apps/peer-agent/cmd/main.go:150-158 | The scanner loop sends one chunk per line, as the frame's JSON leaves it, up to the first line too long for the scanner; a read error and the end of the body are treated alike |
| Agent.LineChunk | apps/peer-agent/cmd/main.go:152-157 | A line loses a carriage return at its end, a blank one everything but its newline, and invalid bytes are replaced |
| AgentLaws.UnchangedIff | apps/peer-agent/cmd/main.go:150-159 | Of a body read to its end or until an error, the chunks spell the whole body if and only if every line read fits the scanner, is not white space alone and has no carriage return at its end, and the body is what was read with invalid bytes replaced and the last line ended |
| AgentLaws.WholeReadIff | apps/peer-agent/cmd/main.go:150-159 | A body read to its end is passed on byte for byte if and only if it consists of such lines, each ended by a newline, and is valid UTF-8 |
| AgentLaws.InvalidByteIsReplaced | apps/peer-agent/cmd/main.go:111-115 | A body of one short line that is not passed on |
| Utf8.CoerceIff | apps/peer-agent/cmd/main.go:111-115 | The frame's JSON leaves a text as it is if and only if it is valid UTF-8 |
| Utf8Laws.CoercesOne | apps/peer-agent/cmd/main.go:111-115 | Character by character, the frame's JSON keeps what starts with an encoded character and puts U+FFFD for a byte that starts none |
| Utf8Laws.CoerceIsUtf8 | apps/peer-agent/cmd/main.go:111-115 | What the frame's JSON makes of any bytes is valid UTF-8 |
| Utf8Laws.Utf8Iff | apps/control-api/internal/rag/chunk.go:32 | A text is valid if and only if it is a sequence of characters encoded as in section 3 of RFC 3629, and then its runes are counted by those |
| Utf8Laws.TrimSpaceIs | apps/control-api/internal/rag/chunk.go:28 | Trimming takes encoded white-space characters off both ends, all of them and nothing else |
| AgentLaws.TruncatedIff | apps/peer-agent/cmd/main.go:150-159 | The response ends as done with lines missing if and only if a line that was read is too long for the scanner or a line of the body starts where the reading had failed |
| AgentLaws.FailedReadTruncates | apps/peer-agent/cmd/main.go:150-159 | A body of two short lines of which the caller gets one, and done |
| AgentLaws.LinesAreSent | apps/peer-agent/cmd/main.go:150-158 | For any lines, each ended by a newline with or without a carriage return, the caller is sent one chunk a line: the line with invalid bytes replaced and a newline, or the newline alone for a blank one |
| AgentLaws.ErrorsTell | apps/peer-agent/cmd/main.go:110-148 | A request is refused if and only if the model is missing, the body does not decode, the server is unreachable or its status is not 200, and the message of each says so, with the status in decimal |
| AgentLaws.EndToEnd | apps/peer-relay/internal/relay/hub.go:126-144 | Through agent and relay together: with an empty queue, nothing lost and nothing spoilt, the caller has the model server's body byte for byte if and only if the body is intact in the sense of UnchangedIff |
| AgentLaws.SomeRunDelivers | apps/peer-relay/internal/relay/hub.go:87-168 | For any body there is a run of agent and relay in which the caller is sent the end marker, and before it the body byte for byte if and only if it is intact |
| RedisLimiter.Limiter.Allow | apps/gateway/internal/ratelimit/redis.go:44-143 | The script's effect on the two sorted sets and its answer, as the transition the history proofs are about |
| RedisLimiter.Limiter.RecordTokens | apps/gateway/internal/ratelimit/redis.go:148-163 | A positive count adds one timestamped member and renews the expiry; others change nothing |
| RedisLimiter.SumTokens | apps/gateway/internal/ratelimit/redis.go:70-82 | The script's loop sums what the live members print |
| RedisLimiterHistory.DecisionIsExact | apps/gateway/internal/ratelimit/redis.go:52-102 | After any run under a non-decreasing clock, with or without expiry, a call is admitted if and only if the distinct admitted milliseconds of the last minute of the whole history are fewer than rpm and its distinct token records sum to less than tpm |
| RedisLimiterHistory.ExpiryNeverMatters | apps/gateway/internal/ratelimit/redis.go:98-100 | Every run gives the same answers and history with whole-key expiry as with keys that never expire |
| RedisLimiterHistory.RunKeeps | apps/gateway/internal/ratelimit/redis.go:52-100 | In every run the evicting, expiring keys show, from now on, the window of the sets that forget nothing |
| RedisLimiterHistory.LiveCount | apps/gateway/internal/ratelimit/redis.go:56-57 | Counting live members counts distinct admitted milliseconds |
| RedisLimiterHistory.LiveTokens | apps/gateway/internal/ratelimit/redis.go:70-82 | Summing live members sums the distinct records of the window |
| RedisLimiterHistory.MemberReadsBack | apps/gateway/internal/ratelimit/redis.go:74-79 | The script reads from every printed member the tokens that were recorded |
| RedisLimiterHistory.MemberInjective | apps/gateway/internal/ratelimit/redis.go:154-157 | Two records print alike if and only if they agree in time, tokens and nonce |
| RedisLimiterRetry.RetryAfterIsTight | apps/gateway/internal/ratelimit/redis.go:60-93 | Over runs with constant limits of at least 1: a denial names 1 to 60000 ms; every sooner retry is denied whatever else happened; a retry right then passes the request limit if nothing was admitted meanwhile, or finds strictly fewer tokens if nothing was recorded |
| RedisLimiterRetry.RetryInRange | apps/gateway/internal/ratelimit/redis.go:61-67 | The delay is at least 1 and at most 60000 ms |
| RedisLimiterRetry.SoonerRetryDenied | apps/gateway/internal/ratelimit/redis.go:60-93 | Whatever the history gains, a retry before the delay is over is denied |
| RedisLimiterRetry.RequestRetryPasses | apps/gateway/internal/ratelimit/redis.go:59-68 | After a request denial a retry right then is under the request limit if nothing was admitted |
| RedisLimiterRetry.TokenRetryDrops | apps/gateway/internal/ratelimit/redis.go:84-93 | After a token denial the window's total has strictly dropped by then if nothing was recorded |
| RedisLimiterRetry.RateIsBounded | apps/gateway/internal/ratelimit/redis.go:56-96 | With constant limits, no half-open minute of any run holds more than rpm admitted milliseconds |
| RedisLimiterBursts.BurstIff | apps/gateway/internal/ratelimit/redis.go:56-96 | After any run, any number of calls in one millisecond, from two on, are all admitted if and only if there is room for a request of that millisecond beside one already counted |
| RedisLimiterBursts.TwoAMinute | apps/gateway/internal/ratelimit/redis.go:95-96 | A fresh key limited to two requests a minute admits any number of calls in one millisecond |
| RedisLimiterRetry.ExpiryHarmlessIff | apps/gateway/internal/ratelimit/redis.go:158-160 | A deadline hides nothing from any later window if and only if every live member has left its window by the first millisecond after it |
| RedisLimiterLoss.LostRecordIff | apps/gateway/internal/ratelimit/redis.go:158-161 | After any run, a record whose EXPIRE is lost, and any further run of calls and records: at any later time of its minute the record is missing if and only if the key existed when it was made, the deadline set by the last renewal before it has passed, and nothing in the further run renewed the key by that deadline |
| RedisLimiterLoss.LostUntouchedIff | apps/gateway/internal/ratelimit/redis.go:158-161 | If nothing touches the key again, the record goes missing within its minute if and only if the key existed and its last renewal was more than 5001 ms earlier |
| RedisLimiterLoss.LostRecordOvershoots | apps/gateway/internal/ratelimit/redis.go:158-161 | Runs in which a lost record goes missing within its minute and a call then passes although the history is at the token limit |
| RedisLimiterLoss.AlwaysRenewed | apps/gateway/internal/ratelimit/redis.go:98-100 | In every run a key with entries expires 65 seconds after the last admitted call or record |
| MemoryLimiter.Entry.Admit | apps/control-api/internal/middleware/middleware.go:119-138 | A request is admitted if and only if fewer than n of all earlier admissions fell in the last minute; no half-open minute of the history ever holds more than n; the stored list never exceeds n |
| MemoryLimiter.Entry.Evict | apps/control-api/internal/middleware/middleware.go:121-129 | The filter through the alias of the slice it reads equals the mathematical filter of the old contents |
| MemoryLimiter.Entry.Append | apps/control-api/internal/middleware/middleware.go:137 | Appending keeps the contents and adds the time, in place or in a fresh array |
| MemoryLimiter.RateLimit.Handle | apps/control-api/internal/middleware/middleware.go:113-142 | A request is judged by its own address's history and touches no other's |
| MemoryLimiter.RateLimit.LoadOrStore | apps/control-api/internal/middleware/middleware.go:116-117 | An entry once stored for an address stays that address's entry |
| MemoryLimiter.AdmitKeepsBounded | apps/control-api/internal/middleware/middleware.go:131-137 | Admitting below the limit keeps every half-open minute within it |
| MemoryLimiter.RecentRecent | apps/control-api/internal/middleware/middleware.go:121-129 | Evicting step by step loses nothing a later window would still show |
| SseSniffer.Forward | apps/gateway/internal/proxy/proxy.go:199-252 | However the body is cut into reads, the client gets the body, and the counts are those of the last newline-terminated line with a usage object; the int32 total is recorded if it is positive |
| SseSniffer.Scan | apps/gateway/internal/proxy/proxy.go:206-231 | One read's lines are sniffed in order and the unfinished line is carried over |
| SseSniffer.SniffLine | apps/gateway/internal/proxy/proxy.go:215-230 | A line changes the counts if and only if it is a data line, not the end marker, that decodes with a usage object |
| SseSniffer.ReadCompletes | apps/gateway/internal/proxy/proxy.go:206-214 | Completed lines and leftover of a body read in two parts are those of the whole |
| SseSniffer.LastUsageIs | apps/gateway/internal/proxy/proxy.go:225-228 | The counts of any lines are those of the line that tells them and after which no line does, told in bytes |
| SseSniffer.LastUsageNone | apps/gateway/internal/proxy/proxy.go:199 | Without a usage line the counts are zero |
| SseSniffer.BodyTells | apps/gateway/internal/proxy/proxy.go:206-231 | If a line of a body is an event that decodes with a usage object and no later complete line is, the counts are that usage's prompt and completion tokens, whatever comes before and after |
| SseSniffer.SilentIff | apps/gateway/internal/proxy/proxy.go:215-225 | A line leaves the counts as they were if and only if it does not start with the event prefix, or its trimmed text is blank, the end marker, or decodes with no usage object |
| SseSniffer.EndsWithNewline | apps/gateway/internal/proxy/proxy.go:211 | Nothing is left over if and only if the read is empty or ends in a newline |
| SseSniffer.ToInt32 | apps/gateway/internal/proxy/proxy.go:246 | The conversion is congruent modulo 2 to the 32 and in range |
| Routes.NoUpdateIsLost | operator/internal/gateway/sync.go:44-112 | For every interleaving of calls, failures and foreign edits the ConfigMap is the sequential effect of the successful changes in commit order |
| Routes.SyncRoute | operator/internal/gateway/sync.go:44-112 | A call that succeeds has its sequential effect; one that fails or panics leaves the ConfigMap as it was; it panics if and only if the stored file is a null document |
| Routes.LastCallDecides | operator/internal/gateway/sync.go:90-97 | A deployment's route is what its last successful call left, and no other call's doing |
| Routes.OthersUntouched | operator/internal/gateway/sync.go:66-105 | Calls leave every other file and every other top-level key, such as podRoutes, as they were |
| Routes.PreservedIff | operator/internal/gateway/sync.go:71-97 | An edit preserves everything but its own route if and only if the file parsed to a mapping whose routes are a mapping |
| Routes.CommittedIff | operator/internal/gateway/sync.go:107-111 | In every interleaving, a call that has read the ConfigMap commits if and only if the ConfigMap is still what it read and its file is not a null document; otherwise nothing changes |
| Routes.UndisturbedCommits | operator/internal/gateway/sync.go:44-112 | A call that nobody interferes with commits, unless the file is a null document |
| Routes.WriteBack | operator/internal/gateway/sync.go:107-111 | A refused write changes nothing |
| Routes.ApiServer.CreateOrUpdate | operator/internal/gateway/sync.go:107-111 | Create needs absence and update the version that was read; a failed write leaves the store as it was |
| Reconciler.ContainsString | operator/internal/controller/modeldeployment_controller.go:432-439 | Membership |
| Reconciler.RemoveString | operator/internal/controller/modeldeployment_controller.go:440-448 | The list without every occurrence, in order |
| Reconciler.Without | operator/internal/controller/modeldeployment_controller.go:440-448 | What is left is exactly the other elements |
| ReconcilerProgress.WithoutInOrder | operator/internal/controller/modeldeployment_controller.go:440-448 | Taking a string off a list leaves the others in their order |
| ReconcilerSafety.NoRouteOutlivesItsObject | operator/internal/controller/modeldeployment_controller.go:89-107 | Over every run of reconciles, failures, crashes and user actions, a gateway route means a ModelDeployment of that name exists and carries the cleanup finalizer |
| ReconcilerSafety.VerifiedBeforeDeployed | operator/internal/controller/modeldeployment_controller.go:111-132 | A workload is written only after an earlier check for the same deployment read an object whose whole-content digest equals the catalog's, if that is not empty |
| ReconcilerSafety.RoutedAfterDeployed | operator/internal/controller/modeldeployment_controller.go:130-157 | Behind every route is an object that carries the finalizer and whose own workload has been written |
| ReconcilerSafety.ReconcileTouchesItsOwn | operator/internal/controller/modeldeployment_controller.go:89-107 | In every run a reconcile's step changes no other object, and of its own only the cleanup finalizer and the status; the object disappears only if it was being deleted and nobody else's finalizer was left |
| ReconcilerSafety.StoredDigestIsVerified | operator/internal/controller/modeldeployment_controller.go:126 | A non-empty digest in a status was verified for that object |
| ReconcilerSafety.UnverifiedOnlyIfEmpty | operator/internal/controller/modeldeployment_controller.go:450-452 | Some run writes a workload of a digest never verified for it if and only if the digest is empty |
| ReconcilerSafety.EmptyDigestIsDeployed | operator/internal/controller/modeldeployment_controller.go:119 | A run that deploys without verifying anything |
| ReconcilerProgress.ReconcileDeploys | operator/internal/controller/modeldeployment_controller.go:102-176 | From any state, the undisturbed reconcile of a live object adds its finalizer last if it is missing, verifies weights whose digest is not the stored one, writes the workload, routes the name to its service, stores the digest, and changes nothing else |
| ReconcilerProgress.VerifiesOnce | operator/internal/controller/modeldeployment_controller.go:118-128 | The reconcile after it, with the same catalog digest, writes the workload again and verifies nothing |
| ReconcilerProgress.BadWeightsStop | operator/internal/controller/modeldeployment_controller.go:118-124 | Weights whose digest is not the catalog's stop the reconcile with no workload written and the stored digest as it was |
| ReconcilerProgress.StillReports | operator/internal/controller/modeldeployment_controller.go:153-173 | A route write that fails does not keep the digest from being stored, nor do adapters that report |
| ReconcilerProgress.ReconcileCleansUp | operator/internal/controller/modeldeployment_controller.go:89-98 | From any state, the undisturbed reconcile of an object being deleted takes its route away, then its finalizer, so that the object is gone if and only if nobody else holds it, and changes nothing else |
| ReconcilerProgress.NothingToDo | operator/internal/controller/modeldeployment_controller.go:75-100 | A reconcile does nothing if and only if the object is gone, its engine is unknown, or it is being deleted without the finalizer |
| ReconcilerRoutes.RouteTakenIff | operator/internal/controller/modeldeployment_controller.go:91-98 | In every run a reconcile's step takes a route if and only if it is the accepted write of the cleanup of a deployment of that name |
| ReconcilerRoutes.SameNameLosesRoute | operator/internal/controller/modeldeployment_controller.go:335-343 | A run of two deployments of one name, both created, reconciled with their workloads written, and routed, of which one is deleted and its cleanup takes the other's route |
| ReconcilerRoutes.LosesToAnother | operator/internal/controller/modeldeployment_controller.go:335-343 | The route of a live deployment is taken only by the cleanup of another one of the same name, which is being deleted |
| ReconcilerRoutes.LosesIff | operator/internal/controller/modeldeployment_controller.go:335-343 | Some run lets a deployment's cleanup take a live one's route if and only if they are two of one name |
| ReconcilerRoutes.UniqueNamesKeepRoutes | operator/internal/controller/modeldeployment_controller.go:335-343 | Where no two deployments of a run share a name, no reconcile takes the route of one that is not being deleted |
| ReconcilerSafety.AlwaysSafe | operator/internal/controller/modeldeployment_controller.go:72-176 | The reconciler's invariant in every reachable state |
| WeightDigest.VerifyWeights | operator/internal/catalog/client.go:102-141 | The check passes if and only if the object was read to its end and the digest of its whole content, however cut, is the expected one; progress is reported at least a gigabyte apart |
| WeightDigest.WholeObjectIsRead | operator/internal/catalog/client.go:102-131 | However an object is cut into reads, what is digested is the concatenation of the pieces, and its end is seen |
| WeightDigest.LogProgress | operator/internal/catalog/client.go:120-124 | A report comes exactly when a gigabyte was read since the last |
| Budget.Cluster.Reconcile | operator/internal/controller/budgetpolicy_controller.go:52-104 | A failed query changes nothing; otherwise exactly the listed deployments at the cap whose write succeeds are paused, the others are left alone, and the reported total is the sum over the list |
| Budget.Cluster.PauseDeployment | operator/internal/controller/budgetpolicy_controller.go:108-113 | The deployment is paused now if the write is accepted, and nothing changes otherwise |
| Budget.Cluster.ResumeModelDeployment | apps/control-api/internal/k8s/client.go:160-181 | The pause is cleared if the deployment exists and the patch is accepted, and nothing changes otherwise |
| Budget.QueryTodaySpend | operator/internal/budget/bigquery.go:64-92 | Every row priced, in order, or nothing at all if the iterator fails |
| Budget.PricedAt | operator/internal/budget/bigquery.go:80-89 | Each row keeps its deployment and token counts and costs 4 and 12 units of 1e-7 USD for an input and an output token |
| Budget.SpendMap | operator/internal/controller/budgetpolicy_controller.go:58-62 | The map gives each deployment its row's spend, and zero without one |
| Budget.PassIsExact | operator/internal/controller/budgetpolicy_controller.go:75-88 | A pass judges a deployment by the whole day's usage in literal prices: paused if it is listed, its cost reaches the cap and its write succeeds, as it was if not; none appears or disappears |
| Budget.ReportIsExact | operator/internal/controller/budgetpolicy_controller.go:68-101 | The report's total is the day's cost of the listed deployments, its paused ones are those the pass pauses in the order of the list, and the alert is raised if and only if the total is at the threshold |
| Budget.PausedAfterEveryPass | operator/internal/controller/budgetpolicy_controller.go:81-87 | Once at the cap, a deployment is paused after every later pass of the day, whatever was resumed, changed or recreated in between |
| Budget.SpendIsCost | operator/internal/budget/bigquery.go:80-89 | The spend found in the query's rows is the cost of the day's usage |
| Budget.CostGrows | operator/internal/budget/bigquery.go:41-50 | A deployment's cost never falls within a day |
| Chunker.Chunk | apps/control-api/internal/rag/chunk.go:14-50 | The output is the trimmed text of the greedy segments of the non-blank paragraphs |
| Chunker.Pack | apps/control-api/internal/rag/chunk.go:27-48 | The loop over the buffer computes those segments |
| ChunkerLaws.PackingIsUnique | apps/control-api/internal/rag/chunk.go:27-48 | A division of the paragraphs is the chunker's if and only if it keeps them all in order, has no empty segment, and cuts exactly when the next paragraph would push the buffer past the size |
| ChunkerLaws.GroupsIsPacking | apps/control-api/internal/rag/chunk.go:32 | The chunker's own division is such a packing |
| ChunkerLaws.ChunkPromises | apps/control-api/internal/rag/chunk.go:22-49 | For every text: nothing lost or invented, every chunk is a carried tail and then whole paragraphs joined by blank lines, never empty, no more chunks than paragraphs |
| ChunkerLaws.OverlapIsShared | apps/control-api/internal/rag/chunk.go:33-47 | Of any two neighbouring chunks, the second starts with the last overlap bytes of what the first was trimmed from and a space, trimmed on the left, and then its paragraphs |
| ChunkerLaws.FreshParts | apps/control-api/internal/rag/chunk.go:43-44 | Without the carried tails the raw segments concatenate to every paragraph once, each with a blank line |
| ChunkerLaws.SegmentText | apps/control-api/internal/rag/chunk.go:33-47 | Trimming a segment takes white space off its carried tail alone, and it ends with its last paragraph |
| ChunkerLaws.SegmentBound | apps/control-api/internal/rag/chunk.go:32-44 | In bytes, a raw segment is at most its last paragraph and 2, plus the larger of overlap + 1 and what the size leaves beside that paragraph's characters; for single-byte characters that is the larger of the size and overlap + 1 + paragraph, plus 2 |
| ChunkerLaws.GroupCount | apps/control-api/internal/rag/chunk.go:24-48 | There are no more segments than paragraphs |
| ChunkerLaws.NoChunksIff | apps/control-api/internal/rag/chunk.go:29-31 | There is no output if and only if every piece of the text is blank |
| ChunkerLaws.SplitBlankIsLossless | apps/control-api/internal/rag/chunk.go:23 | Joining the pieces by blank lines gives the text |
| ChunkerLaws.PiecesHoldNoBlank | apps/control-api/internal/rag/chunk.go:23 | No piece holds a blank line, and each but the last is ended by the first blank line after it |
| ChunkerLaws.ParagraphsCons | apps/control-api/internal/rag/chunk.go:23-31 | A text's paragraphs are the trimmed piece before its first blank line, unless that is blank, and the paragraphs of what follows it |
| ChunkerRunes.ChunkUtf8Iff | apps/control-api/internal/rag/chunk.go:34-41 | A chunk of a valid text is valid UTF-8 if and only if it carries nothing or a tail that was cut between two runes |
| ChunkerRunes.ChunksUtf8Iff | apps/control-api/internal/rag/chunk.go:34-41 | All chunks of a valid text are valid if and only if all carries are cut between two runes |
| ChunkerRunes.DefaultCutsRunes | apps/control-api/internal/rag/chunk.go:34-41 | With the default overlap, every carry from a last paragraph of at least 85 three-byte runes is cut inside one |
| ChunkerRunes.AccentIsCut | apps/control-api/internal/rag/chunk.go:34-41 | A valid text of two accented letters whose second chunk is not valid |
| Documents.ProcessDocument | apps/control-api/internal/handler/handler.go:2082-2139 | At every statement of the job and at every point of failure, whoever looks sees the document ready with rows exactly the chunks of its text at indices 0 to chunk_count - 1, or not ready without a row; at the end it is ready if and only if every step succeeded, and marked as failed if and only if a step failed and the mark was written |
| Documents.Publish | apps/control-api/internal/handler/handler.go:2107-2138 | While the transaction is open its rows and status are its own; every committed state on the way is the uploaded document, the marked one or the published one |
| Documents.Finish | apps/control-api/internal/handler/handler.go:2124-2138 | The same for the status update and the commit, each of which may fail or be the last thing the process does |
| Documents.GiveUp | apps/control-api/internal/handler/handler.go:2116-2121 | A failed step is marked on a connection of its own, a crash marks nothing, and the transaction is rolled back either way |
| Documents.Database.CommitTx | apps/control-api/internal/handler/handler.go:2134 | A commit makes the transaction's view the committed one; a failed commit commits nothing |
| Documents.Database.Rollback | apps/control-api/internal/handler/handler.go:2105 | The open transaction is gone and what is committed stays |
| Documents.Database.MarkError | apps/control-api/internal/handler/handler.go:2089-2093 | The mark is visible at once and leaves the open transaction alone |
| Documents.PublishedWhole | apps/control-api/internal/handler/handler.go:2107-2126 | A ready document's rows hold every paragraph of its text, packed by the default size and overlap, in order, each row with its index and the embedder's vector of that index, if there is one |
| Documents.EndsIff | apps/control-api/internal/handler/handler.go:2082-2139 | A document ends as ready if and only if every step of its job succeeds, and as failed if and only if the step at which the job stops fails, rather than crashes, and the mark is written |
| Documents.ReadyNeedsWholeRunes | apps/control-api/internal/handler/handler.go:2112-2121 | Where the database refuses invalid text, a valid text becomes ready only if every carry was cut between two runes |
| Login.ExactlyOneAdmin | apps/control-api/internal/handler/handler.go:191-247 | In every interleaving of logins, commits and rollbacks, an org with a committed member has exactly one administrator: the first login of its domain to commit |
| LoginProgress.LoginIsStored | apps/control-api/internal/handler/handler.go:191-247 | After any run, a login of a domain nobody holds stores its member: with the stored role if there is one, as administrator of an empty org, as developer otherwise; nothing else changes |
| LoginProgress.MembersAreLogins | apps/control-api/internal/handler/handler.go:229-247 | In every run the members of an org are exactly those who committed a login of its domain |
| LoginProgress.NobodyIsStuck | apps/control-api/internal/handler/handler.go:191-247 | In every reachable state every open transaction whose count has not failed can still commit and be stored, after at most one other has gone |
| LoginProgress.LocksAreHeld | apps/control-api/internal/handler/handler.go:204-217 | In every run a locked org is locked by an open transaction of its domain |
| LoginProgress.FailedCountIsHarmless | apps/control-api/internal/handler/handler.go:219-222 | After a failed count nothing but a rollback ends the transaction, whatever else happens: it is never stored |
| Login.RolesNeverChange | apps/control-api/internal/handler/handler.go:229-238 | No later step of any run changes a committed member's role |
| Login.LoginsAreSerial | apps/control-api/internal/handler/handler.go:201-217 | Two open transactions past the upsert never belong to the same org |
| Login.AlwaysOneAdmin | apps/control-api/internal/handler/handler.go:191-247 | What each open transaction has counted and chosen stays true until it commits |
| Keys.PrintedHashVerifies | apps/gateway/internal/auth/validator.go:138-182 | The gateway accepts a key against a printed hash if and only if the two keys derive the same bytes; in particular the key that was hashed |
| Keys.VerifyArgon2idPHC | apps/gateway/internal/auth/validator.go:138-182 | Every verdict exactly: which part of a string does not parse, a panic for a hash without rounds, threads or bytes, and accepted or a mismatch by whether the derived bytes equal the stored ones |
| KeysLaws.AnyHash | apps/gateway/internal/auth/validator.go:138-182 | Whatever version and 32-bit parameters a hash was printed with: the verifier panics if and only if it asks for no round, for a number of threads that is zero in a byte, or for no bytes, and else accepts exactly the keys that derive the same bytes |
| KeysLaws.FormatIff | apps/gateway/internal/auth/validator.go:140-143 | A string has the right format if and only if it is the algorithm's name and four more fields between dollar signs |
| KeysLaws.FieldIff | apps/gateway/internal/auth/validator.go:147-155 | A parameter reads as a name and a value if and only if it is the name, an equals sign, the first, and a decimal numeral of that value below 2 to the 32 |
| KeysLaws.LastValueIs | apps/gateway/internal/auth/validator.go:156-163 | The value of a name is that of its last field, and zero without one |
| KeysLaws.PrintedText | apps/control-api/internal/keygen/keygen.go:52-84 | The hash of a key is printed with the parameters 65536, 1 and 4 and the 32 bytes derived with them |
| KeysLaws.KeyText | apps/control-api/internal/keygen/keygen.go:33-40 | A key is its prefix and two lower-case hexadecimal digits for each random byte |
| Keys.ConstantTimeCompare | apps/gateway/internal/auth/validator.go:185-194 | Accumulating xors by or says equal if and only if the slices are equal |
| Bits.XorIsZero | apps/gateway/internal/auth/validator.go:189-193 | The xor of two bytes is zero if and only if they are equal |
| Keys.ParseParams | apps/gateway/internal/auth/validator.go:146-164 | The last value of each name counts, absent ones are zero, and any field that does not parse fails the whole |
| Keys.ParseField | apps/gateway/internal/auth/validator.go:148-155 | A field is cut at its first equals sign and its number fits 32 bits |
| Keys.ParamsReadBack | apps/control-api/internal/keygen/keygen.go:74-81 | Printed parameters of any 32-bit size are read back |
| Keys.GeneratedPrefix | apps/control-api/internal/keygen/keygen.go:33-48 | The gateway looks every generated key up under its stored prefix; two share one if and only if their first four random bytes agree |
| Keys.Validate | apps/gateway/internal/auth/validator.go:64-125 | A key is accepted if and only if its prefix has a row whose hash verifies and whose deployment list is empty or names the deployment |
| Keys.IssuedKeyIsFound | apps/control-api/internal/keygen/keygen.go:33-84 | Every issued key verifies against the row stored for it, whatever its bytes and salt |
| Base64.DecodeEncode | apps/control-api/internal/keygen/keygen.go:69-71 | Unpadded base64 as in sections 3.2 and 4 of RFC 4648 decodes to what was encoded, for every byte string |
| Base64.EncodedText | apps/control-api/internal/keygen/keygen.go:69-71 | Encoded text holds no dollar sign and nothing the decoder skips |
| Base64Bits.EncodesBits | apps/control-api/internal/keygen/keygen.go:69-71 | The text is the bytes' bits, six to a letter of table 1 of RFC 4648, the highest first, the last letter filled up with zeros |
| Decimal.PrintValue | apps/control-api/internal/keygen/keygen.go:74-81 | Printing a number in decimal and reading it gives the number |
| Text.SplitJoin | apps/gateway/internal/auth/validator.go:140 | Splitting separator-free pieces joined by a separator gives the pieces |
| Text.JoinSplit | apps/gateway/internal/proxy/proxy.go:209 | Joining what was split gives the text |

## Left out

- The user interface, Helm charts and catalog files: presentation and configuration without an algorithm.
- The other handlers, prefix resolution, slugs, engine arguments, the autoscaler's specification and reconnect backoff: a single statement or a straight-line mapping each, with nothing to state that its text does not say.
- The hash parsers built on Sscanf: their `%s` reads past the dollar sign, so there is no round trip to prove; the gateway's parser is the one modelled. The body peek of the `/v1/` shorthand: it keeps 8192 bytes of the body and promises no more.
- Goroutines, reconciles and database transactions are transitions on values, not classes: a method of one object cannot express that other steps come in between. The objects they work on (`Hub`, `PeerConn`, `PendingReq`, `Limiter`, `Entry`, `ApiServer`, `Cluster`, `Hash`, `Database`) are classes. Forward's select loop and Reconcile appear as transitions only.
- Fairness: what an undisturbed run achieves is proved, not that every run is given the chance.
- Request ids are fresh: 16 random bytes are taken not to repeat on a connection.
- Ping and pong frames are not modelled. What an unlocked write spoils is lost (`Spoil`) or arrives as some other frame (`Stray`); the promises that speak of what the agent sent are for runs without the latter.
- Hub.PeerConn.ReadLoop: a method runs alone, so no request is added, removed or drained while the loop runs; that is the subject of `Relay`, where each frame is a step among others.
- Agent.HandleRequest: Go's quoting of unusual characters in a model name, and invalid bytes in an error message, are not modelled.
- The in-memory limiter's client address and both limiters' clocks are inputs; clocks do not run backwards.
- RedisLimiter.Limiter.Allow: a member's token field counts as zero unless it is all digits, where Lua also accepts other numerals; only RecordTokens writes members, and it prints digits. Ties in a sorted set keep insertion order, on which no answer depends. Errors of the Redis client are not modelled.
- The JSON decoder, YAML parser, SHA-256 and Argon2id are parameters. For YAML, writing a mapping and reading it back is taken to give the mapping.
- SseSniffer.Forward: the writes to the client are taken to succeed; their errors are ignored by the code.
- Reconciler: reads see the API server's state (no client cache), each object has one reconcile at a time, only the reconciler takes its finalizer off, adds routes or writes the digest. Conditions other than the digest, the service, the autoscaler and the LoRA calls are steps without content.
- WeightDigest.VerifyWeights: parsing the bucket path is left out; the object's stream is taken to end or fail.
- Budget.Cluster.Reconcile: money is counted in units of 1e-7 USD instead of floating point; a missing table reads as no rows; a failed list of deployments is not modelled; the cap is fixed during a day.
- Documents.ProcessDocument: an error from Commit is taken to mean that nothing was committed, and nobody else writes the document meanwhile.
- Login.ExactlyOneAdmin: runs consist of logins; invitations and role edits elsewhere are not modelled.
- Keys.Validate: a prefix names one active row, and expired or inactive rows are taken to be absent. The version field of the PHC string is not checked by the code either.
