# EV charging status service: a verified model

The service keeps, for every user with stored credentials, a loop that fetches the user's charging
stations, subscribes to status events of the charging backend, and pushes the station list as JSON to the
user's WebSocket clients. This project models the stateful middle of it and proves what its parts keep over
all runs. `dafny verify dfyconfig.toml` checks everything.

| file | what it models |
|---|---|
| `Stations.dfy` | the station list, the sorted inventory of its UUIDs, and when a change of inventory is reported |
| `Events.dfy` | a status event on the list, and the fingerprint cache that drops repeated events |
| `StationHeap.dfy` | station lists in mutable storage: cloning, and writing an event in place |
| `Subscriber.dfy` | the per-user loop, its sessions and its inventory pollers as a machine whose atomic steps are the critical sections; every interleaving is a run |
| `Coherence.dfy`, `EventDelivery.dfy` | the fingerprint cache within that machine; what becomes of one event, one fetched and one polled list |
| `SubscriberObject.dfy` | the same critical sections as methods on shared mutable lists and a mutable cache |
| `Reconciler.dfy` | the supervisor that starts and cancels one loop for every listed user |
| `Json.dfy`, `Payload.dfy` | a JSON decoder (sections 2 to 7 of RFC 8259), the payload printer, and the round trip between them |
| `Hub.dfy`, `HubHistory.dfy`, `HubRace.dfy` | the hub of WebSocket clients: sets of clients, bounded queues, counters; what it owes each client, told by the actions alone; and the publish in its single steps |
| `Delivery.dfy` | subscriber, connect snapshots, deletion, printer and hub as one system |
| `Session.dfy`, `SessionLaws.dfy`, `SessionObject.dfy` | token sessions: last activity in the database and on each connection, expiry, invalidation, deletion |
| `RateLimit.dfy`, `RateLimitExact.dfy` | the per-IP token buckets that are forgotten when idle; every answer told by the times of the requests admitted before |
| `StatusStore.dfy`, `PublisherObject.dfy` | the last published connector statuses, and the publish that depends on them |
| `Stomp.dfy` | SockJS messages and STOMP frames |
| `Migrations.dfy` | the migration runner |
| `Text.dfy` | strings: trimming, case, order, decimal numbers |

Components are modelled twice where the source updates state in place: as a machine on values, about which
the theorems are, and as classes whose methods are proved to do exactly the machine's steps. In the
machines an action that is not possible in a state leaves it unchanged, so that every sequence of actions is a
run. Fetched lists, received frames, clock readings and failures are inputs of the steps.

## What was found

These are properties one might expect of the code that do not hold without a condition. Each is stated with the
exact condition, and with an input on which it fails.

- The first station added to an empty inventory is not reported: copying an empty list gives nil, which
  reads as "no baseline yet" (`Stations.ChangeReportedIff`).
- The fingerprint cache outlives a refetch of the list. Dropping repeated events is harmless exactly while
  the cache agrees with the list (`Events.CacheHarmlessIff`); in the running subscriber it stops agreeing exactly
  when a list it disagrees with is taken over (`Coherence.CoherentStepIff`), after which some event that would
  change the list is dropped (`Coherence.DisagreementIsHarmful`, `Events.RefetchThenRepeatIsLost`).
- A poller whose session has ended can still commit a list it had already fetched, and then the running
  session is subscribed to other stations than the stored inventory (`Subscriber.FollowsThroughoutIff`,
  `Subscriber.StalePollerMisleads`).
- A publish sends after releasing the lock. A send meets a closed channel, and the program panics, exactly when
  its client was removed since the publish copied it (`HubRace.SendPanicsIff`, `HubRace.RemovalPanics`).
- A session is checked in one database operation and cleared in another. A touch in between is undone, and the
  database follows the touches throughout a run exactly when no clear races with a recent touch
  (`Session.FollowedThroughoutIff`, `Session.ClearEndsLiveSessionIff`, `Session.RaceEndsActiveSession`).
- Forgetting idle rate-limit entries is harmless, and the bound on admitted requests holds, exactly when five
  minutes refill a bucket; the configured limits satisfy this (`RateLimit.ForgettingHarmlessIff`,
  `RateLimit.AdmittedBoundIff`, `RateLimit.ConfiguredLimits`).
- The comparison of status maps reads a missing key as an empty status. It is exact against a stored list
  exactly when that list has no empty status (`StatusStore.ComparisonExactIff`), although its comment
  promises to notice new and removed keys.
- A STOMP body that ends in what is trimmed is cut (`Stomp.ExtractIffRecoverable`). Line ends after the NUL, and
  blank lines with a carriage return, both allowed by STOMP 1.2, lose all but the empty body
  (`Stomp.GrammarFrameIff`).
- The baseline of a legacy database is not atomic. Legacy files are applied again, which the baseline is there to
  prevent, exactly when it was interrupted midway and a later run reached a file not yet marked
  (`Migrations.LegacyAppliedAgainIff`, `Migrations.LegacyFileAppliedAgain`).

## Model

| member | source | states |
|---|---|---|
| Text.TrimSpaceMeaning | internal/service/csms_status_subscriber.go:302 | trimming takes white space off both ends and nothing else |
| Text.EqualFoldMeaning | internal/service/csms_status_subscriber.go:390 | two strings are equal up to case if they agree, character by character, or in the letter |
| Text.LessMeaning | internal/service/csms_status_subscriber.go:312 | strings are ordered by their first difference, a proper prefix before |
| Stations.ChargeBoxUuidsFromStations | internal/service/csms_status_subscriber.go:298-314 | the one-pass collection gives the strictly ascending list of exactly the trimmed, non-blank UUIDs |
| Stations.InventoryMeaning | internal/service/csms_status_subscriber.go:298-314 | the inventory is strictly sorted and has the UUID set of the list |
| Stations.InventoryCanonical | internal/service/csms_status_subscriber.go:298-314 | two lists have the same inventory exactly when their UUID sets are equal, whatever the order and repetitions |
| Stations.ReportsChange | internal/service/csms_status_subscriber.go:328-334 | nothing is reported without a baseline, otherwise a difference |
| Stations.ChangeReportedIff | internal/service/csms_status_subscriber.go:155-160 | against a stored inventory a change is reported exactly when the UUID sets differ and the earlier one was not empty |
| Events.ApplyEventMeaning | internal/service/csms_status_subscriber.go:379-405 | an event matches exactly if some station has its UUID up to case and space and the first such station its connector id; the first such connector, and nothing else, gets its status, error code and error text |
| Events.ApplyEventKeepsShape | internal/service/csms_status_subscriber.go:379-405 | an event changes no station data, no connector ids and no lengths, hence not the inventory |
| Events.KeyIdentifiesConnector | internal/service/csms_status_subscriber.go:353-354 | equal cache keys mean equal UUIDs up to case and space, and equal connector ids, whatever characters the UUID has |
| Events.FingerprintInjective | internal/service/csms_status_subscriber.go:345-351 | without NUL in status and error code a fingerprint determines all three fields |
| Events.DuplicateAfterRemember | internal/service/csms_status_subscriber.go:353-368 | after an event is remembered, an event is a duplicate if it means the same connector up to case and white space and has the same status, error code and error text, nil and empty text being one; for all other connectors nothing changes |
| Events.HandleShows | internal/service/csms_status_subscriber.go:190-208 | the handler shows and remembers exactly the events that are no duplicates and match |
| Events.HandleRefinesApply | internal/service/csms_status_subscriber.go:190-208 | with an agreeing cache the handler leaves the list that applying the event would leave |
| Events.HandleKeepsAgreement | internal/service/csms_status_subscriber.go:190-208 | handling an event keeps cache and list in agreement |
| Events.RunsAgree | internal/service/csms_status_subscriber.go:190-208 | so over any stream of events the cached and the plain handler leave the same list |
| Events.DisagreementLosesAnEvent | internal/service/csms_status_subscriber.go:195-197 | where the cache disagrees, some event that would change the list is dropped |
| Events.CacheHarmlessIff | internal/service/csms_status_subscriber.go:190-208 | dropping duplicates is harmless for every stream exactly when the cache agrees with the list at the start |
| Events.FreshCacheHarmless | internal/service/csms_status_subscriber.go:137 | a fresh cache is harmless for every list and stream |
| Events.RefetchThenRepeatIsLost | internal/service/csms_status_subscriber.go:161 | an event repeated after a refetch of the older list is lost, for every such event and list |
| StationHeap.CloneFlattenedStations | internal/service/csms_status_subscriber.go:370-377 | the copy has the same value and only fresh, unshared connector storage |
| StationHeap.ApplyCsmsEventToFlattened | internal/service/csms_status_subscriber.go:379-405 | writing in place has exactly the effect of the event on the list's value, and says whether it matched |
| Subscriber.EventKeepsInventory | internal/service/csms_status_subscriber.go:198-201 | an event commit leaves the inventory as it is |
| Subscriber.EveryReachableState | internal/service/csms_status_subscriber.go:136-271 | in every interleaving of loop, event handler and pollers, those of ended sessions included: the stored inventory is that of the live list, nil exactly when it is empty; every published list was live at the end of a critical section; a poller commits at most one change and then ends its session; the loop exits only when cancelled |
| Subscriber.AlignedStepIff | internal/service/csms_status_subscriber.go:254-268 | the session keeps subscribing the stored inventory, except between its own poller's commit and cancel, through a step exactly when that is not a commit by a poller of an ended session that matters |
| Subscriber.FollowsThroughoutIff | internal/service/csms_status_subscriber.go:155-268 | this holds after every step of a run exactly when no step is such a commit |
| Subscriber.SubscriptionFollowsInventory | internal/service/csms_status_subscriber.go:155-189 | so in every run without such commits the subscription follows the inventory |
| Subscriber.StalePollerMisleads | internal/service/csms_status_subscriber.go:249-268 | with one, for any two lists with different UUIDs, the running session is subscribed to the wrong stations |
| Coherence.CommitHandles | internal/service/csms_status_subscriber.go:195-207 | check, update and remembering, with pollers in between, leave what handling the event in one step at its commit leaves |
| Coherence.CoherentStepIff | internal/service/csms_status_subscriber.go:136-271 | the cache agrees with the live list after a step exactly unless the step takes over a list it does not agree with |
| Coherence.DroppingIsHarmless | internal/service/csms_status_subscriber.go:136-271 | in every interleaving without such a step the live list is that of a reference that follows the event in hand by the actions alone and loses no event |
| Coherence.DisagreementIsHarmful | internal/service/csms_status_subscriber.go:195-197 | in every reachable state of a session in which the cache disagrees, some event that would change the list is dropped |
| EventDelivery.EventGoesThrough | internal/service/csms_status_subscriber.go:190-208 | an event that arrives in a session with none in hand, not blank and no duplicate, is applied at the next commit to whatever is live then, and a match shown at the value of that commit, whatever pollers do in between |
| EventDelivery.EventIsDropped | internal/service/csms_status_subscriber.go:191-197 | a blank or repeated event changes nothing |
| EventDelivery.FetchGoesThrough | internal/service/csms_status_subscriber.go:155-189 | a fetched list becomes the live one, is shown exactly if a client watches, the UUIDs changed and there were some, and opens a session that subscribes its UUIDs exactly if it has some |
| EventDelivery.PollGoesThrough | internal/service/csms_status_subscriber.go:254-268 | a polled list becomes the live one exactly if the UUIDs changed and there were some; then it is shown and its session ended, whatever others do in between |
| EventDelivery.SessionEnds | internal/service/csms_status_subscriber.go:210-217 | a session ends by itself or by its timeout, and the loop fetches again unless cancelled |
| SubscriberObject.UserLoop.LoopCommit | internal/service/csms_status_subscriber.go:155-162 | the loop's commit does the machine's step; the list is shown exactly on a reported change while a client watches |
| SubscriberObject.UserLoop.CommitPoll | internal/service/csms_status_subscriber.go:254-265 | the poller's commit does the machine's step; without a change nothing is written |
| SubscriberObject.UserLoop.OnEvent | internal/service/csms_status_subscriber.go:190-208 | with no poller in between, the handler handles the event in place, and every list handed out before keeps its value |
| SubscriberObject.UserLoop.CheckEvent | internal/service/csms_status_subscriber.go:190-197 | the handler's first step goes on exactly with events that are not blank and not duplicates |
| SubscriberObject.UserLoop.CommitEvent | internal/service/csms_status_subscriber.go:198-206 | its second step changes live in place and hands out a snapshot of a matched list in storage of its own, which keeps its value through all later steps |
| SubscriberObject.UserLoop.RememberEvent | internal/service/csms_status_subscriber.go:207 | its third step enters the event into the cache and leaves every list alone |
| SubscriberObject.UserLoop.PublishStationsSnapshot | internal/service/csms_status_subscriber.go:274-287 | after any further steps a published frame still decodes to the value the list had when it was handed out |
| Reconciler.StartMissingExact | internal/service/csms_status_subscriber.go:108-116 | starting missing users adds one new uncancelled loop for each, and touches no other |
| Reconciler.ReconciledMeaning | internal/service/csms_status_subscriber.go:90-118 | after a reconciliation the table has exactly the listed users; kept users keep their loop, exactly the loops of unlisted users are cancelled |
| Reconciler.AtMostOneLoop | internal/service/csms_status_subscriber.go:108-116 | no user has two uncancelled loops |
| Reconciler.EveryRun | internal/service/csms_status_subscriber.go:84-134 | in every run, until shutdown, each entry is a loop of its own user and the entries are exactly the uncancelled loops; none has returned before the supervisor itself is cancelled; after shutdown every loop ever started is cancelled |
| Reconciler.ListedInEveryRun | internal/service/csms_status_subscriber.go:90-118 | in every run, right after a listing the table has exactly the listed users; kept users keep their loop, new ones get a new one, and exactly the loops of users no longer listed are cancelled |
| Reconciler.ShutDownInEveryRun | internal/service/csms_status_subscriber.go:122-129 | in every run shutdown cancels every loop ever started and starts none afterwards |
| Reconciler.LoopReturnsIff | internal/service/csms_status_subscriber.go:143 | a loop returns only once it or the supervisor is cancelled |
| Reconciler.Supervisor.Reconcile | internal/service/csms_status_subscriber.go:90-118 | the critical section is the specified reconciliation of the listed users |
| Reconciler.Supervisor.ShutDownAll | internal/service/csms_status_subscriber.go:123-129 | every remaining loop is cancelled, and no table entry changes |
| Json.EscapesWritten | internal/service/stations_push_payload.go:10-13 | the escapes of quotation mark, backslash and control characters, as they stand in the text |
| Json.UnicodeEscapesWritten | internal/service/stations_push_payload.go:10-13 | the escapes of other control characters and of the characters that encoding/json escapes for HTML |
| Json.PlainCharacters | internal/service/stations_push_payload.go:10-13 | every other character stands for itself |
| Json.ObjectText | internal/service/stations_push_payload.go:51-89 | the punctuation of objects |
| Json.ArrayText | internal/service/stations_push_payload.go:55-62 | the punctuation of arrays |
| Json.CharsRoundTrip | internal/service/stations_push_payload.go:10-13 | the decoder reads an escaped string back, whatever characters it has, and stops at its closing quotation mark |
| Json.ValueRoundTrip | internal/service/stations_push_payload.go:51-89 | the decoder reads any compact value back and leaves the text after it |
| Json.RoundTrip | internal/service/stations_push_payload.go:51-89 | decoding undoes encoding for every value |
| Payload.StationRoundTrip | internal/service/stations_push_payload.go:22-32 | a station is read back, with nil and empty connector lists kept apart |
| Payload.PayloadRoundTrip | internal/service/stations_push_payload.go:15-20 | the decoder gets exactly the payload back, for any number of stations and connectors and any text |
| Payload.BuildStationsPushStationJson | internal/service/stations_push_payload.go:68-89 | the text written piece by piece is the compact JSON object of the station |
| Payload.BuildStationsPushPayloadJson | internal/service/stations_push_payload.go:51-66 | decoding the text written by the loop gives the payload back |
| Payload.FlattenToStationsPushStations | internal/service/stations_push_payload.go:91-118 | each of the seven text fields of a station and of the seven fields of a connector is the one of that name in the list, in order, and no connector list is nil |
| Payload.FrameText | internal/service/csms_status_subscriber.go:274-287 | the text is a JSON object with the fixed member names in the fixed order; its values, and the payload decoded from it, are the user, the time and every field of the list, name by name |
| Payload.FrameShows | internal/service/stations_push_payload.go:51-118 | the same of the specified text |
| Payload.PushStationsInjective | internal/service/stations_push_payload.go:91-118 | the payload stations determine the list |
| Payload.FrameShowsList | internal/service/stations_push_payload.go:46-48 | two frames decode alike exactly when the lists are equal |
| HubHistory.PublishMeaning | internal/api/ws_hub.go:102-116 | a registered client of the user with fewer than 32 queued frames gets the payload queued, one with 32 loses it, and nobody else is touched |
| HubHistory.ConnectMeaning | internal/api/ws_hub.go:59-68 | a new client is stored under its user with an open, empty channel |
| HubHistory.RemoveMeaning | internal/api/ws_hub.go:70-86 | a removed client is stored no more and its channel closed once; nobody else is touched |
| HubHistory.TurnsDrain | internal/api/ws_handler.go:218-228 | as many turns of the writer as frames are queued deliver them all, in order, also from a closed channel |
| HubHistory.ClientsInEveryRun | internal/api/ws_hub.go:59-117 | told by the actions alone: a client is stored exactly from its connection to its removal, and has received, queued or lost exactly the payloads published to its user in between, in order, at most 32 queued |
| HubHistory.NothingDroppedIff | internal/api/ws_hub.go:102-116 | a client has lost no frame exactly if its writer was never more than 32 frames behind |
| HubHistory.FailuresCounted | internal/api/ws_hub.go:144-148 | the failed writes are counted |
| Hub.ConnectionsInEveryRun | internal/api/ws_hub.go:59-86 | in every run the connection counter is the sum of the set sizes, no stored set is empty, clients are stored under their own user only, and a channel is closed exactly when its client has been removed, never twice |
| Hub.DeliveryInEveryRun | internal/api/ws_hub.go:88-117 | what a client's writer took and what is queued are payloads published to its own user while it was registered, in order; nothing is missing but what was counted as dropped; the queue never exceeds 32 |
| Hub.CountsInEveryRun | internal/api/ws_hub.go:102-116 | the counters are the frames received and lost by all clients, and together count every payload due to every client exactly once |
| Hub.TotalsMeaning | internal/api/ws_hub.go:158-168 | the reported totals are the open channels and the users that have one |
| Hub.WsHub.HandleConnect | internal/api/ws_handler.go:113-123 | a connection gets a client of its own, registered once |
| Hub.WsHub.Register | internal/api/ws_hub.go:59-68 | does the machine's registration |
| Hub.WsHub.Unregister | internal/api/ws_hub.go:70-86 | removes a stored client, closes its channel and drops an empty set; a second call changes nothing |
| Hub.WsHub.PublishToUser | internal/api/ws_hub.go:88-117 | as one step: offers the payload once to every client of the user and to no other, in whatever order the set is iterated, and on no closed channel |
| Hub.WsHub.ActiveConnections | internal/api/ws_hub.go:119-123 | the number of the user's clients whose channel is open |
| Hub.WsHub.Stats | internal/api/ws_hub.go:158-168 | the open channels, the users that have one, the frames received and lost, and the failed writes |
| Hub.WsHub.WriteNext | internal/api/ws_handler.go:218-228 | the writer takes the oldest frame |
| HubRace.EveryInterleaving | internal/api/ws_hub.go:59-117 | with the copy and each send as steps of their own, in every interleaving: counters and sets stay right, no channel is closed twice, no queue exceeds 32, and copied clients belong to the user |
| HubRace.OtherOperations | internal/api/ws_hub.go:59-86 | publishes under way change nothing about the other operations |
| HubRace.SendPanicsIff | internal/api/ws_hub.go:95-104 | a pending send panics exactly if its client was removed after the copy |
| HubRace.RemovalPanics | internal/api/ws_hub.go:85 | for every client and payload some run does |
| HubRace.UndisturbedIsAtomic | internal/api/ws_hub.go:88-117 | with nothing in between, copying and sending in whatever order is the one-step publish |
| Delivery.ClientsSeeLiveLists | internal/service/csms_status_subscriber.go:274-287 | in every run of subscriber, connect snapshots, deletion and hub together, the frames a client has received stand at ascending places of the log, and each decodes by its source: to a list that was live at the end of a critical section, a list fetched for a connection, or the empty list |
| Delivery.ShownListsAreSentOnce | internal/service/csms_status_subscriber.go:157-159 | in every run the subscriber's published frames are those of the lists it showed, each once and in order |
| Delivery.ShownIsQueued | internal/service/csms_status_subscriber.go:274-287 | every list the subscriber shows is queued for each registered client of the user that is not 32 frames behind |
| Delivery.SnapshotIsQueued | internal/api/ws_handler.go:129-136 | so is the list of a new connection |
| Delivery.FarewellIsQueued | internal/api/config_handler.go:182-194 | and the empty list of a deletion |
| Session.UntouchedClearIsHarmless | internal/api/ws_handler.go:154-177 | in every interleaving a clear that ends a session without a touch since its check finds each connection of the user idle past the timeout or with its last activity not yet recorded |
| Session.ClearEndsLiveSessionIff | internal/api/ws_handler.go:162-171 | a pending clear is about to end a live session exactly when the last touch since its check is still recent and no other clear came first |
| Session.RaceEndsActiveSession | internal/service/ws_auth_service.go:112-122 | for every timeout some run clears a session whose connection has just been active and recorded |
| Session.FollowedThroughoutIff | internal/service/ws_auth_service.go:112-122 | in every interleaving the database follows the touches throughout exactly if no clear lands on a session touched recently since its check |
| Session.AcceptedUnlessRaced | internal/service/ws_auth_service.go:79-124 | in every interleaving without such a clear, touches late or failing, a token is accepted exactly while user and credentials exist and the last touch is recent |
| Session.RecordedActivityKeepsSession | internal/api/ws_handler.go:154-177 | and a connection whose recent activity is recorded keeps its user's session |
| Session.QuietUserExpires | internal/service/ws_auth_service.go:112-122 | in every interleaving a user without a touch for longer than the timeout is not accepted, until the next touch; pings and everything else are irrelevant |
| Session.ClearedStaysEnded | internal/repository/user_repo.go:112-118 | a cleared session stays ended until the next touch |
| Session.DeletedStaysGone | internal/repository/user_repo.go:29-59 | a deleted user is never accepted again, also when its name is configured again |
| Session.AcceptedIff | internal/service/ws_auth_service.go:79-124 | when touches land at once and clears follow their checks at once: a token is accepted exactly while user and credentials exist and the last token issue, connection or traffic is recent, whatever was cleared in between |
| Session.ActiveConnectionKeepsSession | internal/api/ws_handler.go:154-177 | under the same hypothesis the session of a user with a recently active open connection is never ended |
| Session.IdleTickIs | internal/api/ws_handler.go:239-259 | an idle connection is closed; with no recent activity in the database the session is cleared and all connections of the user closed |
| SessionLaws.OpenUnlessEnded | internal/api/ws_handler.go:154-177 | a connection is open after an event exactly if it was and the event is not its closing, its idle check when idle, or the idle check of an idle connection of the same user whose session is stale; its last activity changes only by its own traffic |
| SessionLaws.OthersUntouched | internal/repository/user_repo.go:94-118 | no event touches the row or the credentials of another user |
| SessionLaws.UsersComeAndGo | internal/repository/user_repo.go:29-59 | a new name makes a new user, a known one none; credentials go with their user |
| SessionLaws.ActivitySetsLast | internal/service/ws_auth_service.go:57-124 | token issues, connections and traffic set the last activity to now; checking a stale token unsets it |
| SessionObject.UserRepository.UpsertByUsername | internal/repository/user_repo.go:29-54 | the user of that name, new exactly if there was none, with names kept unique |
| SessionObject.WsAuthService.GenerateToken | internal/service/ws_auth_service.go:56-77 | touches the user, whose token would be accepted at once; errors without secret, without user, and on a failing statement |
| SessionObject.WsAuthService.ValidateToken | internal/service/ws_auth_service.go:79-124 | every outcome, in the order of the checks and for every failing statement; only an expired session is cleared |
| SessionObject.WsHandler.HandleConnect | internal/api/ws_handler.go:112-125 | registers the connection, and records its activity unless the statement fails |
| SessionObject.WsHandler.MarkAppActivity | internal/api/ws_hub.go:29-34 | renews the connection's last activity, and the user's unless the statement fails |
| SessionObject.WsHandler.IdleCheck | internal/api/ws_handler.go:239-259 | closes exactly an idle connection; without a failing statement it is the event of the machine |
| SessionObject.WsHandler.InvalidateOnIdle | internal/api/ws_handler.go:154-177 | clears the session and closes the user's connections exactly if the database shows no recent activity and no statement fails |
| SessionObject.WsHandler.CloseUserConnections | internal/api/ws_hub.go:126-142 | exactly the connections of the user are closed |
| RateLimit.ForgettingHarmless | internal/api/ratelimit.go:24-50 | from matching states the limiter that forgets answers every run like one that never does |
| RateLimit.ForgettingShows | internal/api/ratelimit.go:24-36 | when five minutes do not refill a bucket, some run is answered differently |
| RateLimit.ForgettingHarmlessIff | internal/api/ratelimit.go:24-50 | forgetting is harmless in every run exactly when five minutes refill a bucket |
| RateLimit.WindowBound | internal/api/ratelimit.go:38-56 | no more requests are admitted than the window has room for |
| RateLimit.AdmittedInWindow | internal/api/ratelimit.go:14-56 | one address is admitted at most burst + rate x length times in any window of any run, however often it is forgotten |
| RateLimit.AdmittedBoundIff | internal/api/ratelimit.go:14-56 | that bound holds in every run exactly when five minutes refill a bucket |
| RateLimit.ConfiguredLimits | internal/api/routes.go:62 | both hold for 0.25 per second and burst 10 |
| RateLimit.EntriesKept | internal/api/ratelimit.go:24-46 | exactly the entries without a request for more than 300 seconds go, and a request renews its own entry only |
| RateLimitExact.AnsweredIff | internal/api/ratelimit.go:14-56 | in every run a request is admitted exactly if in every window that ends with it the requests admitted before and itself are at most burst + rate x length, if five minutes refill a bucket |
| RateLimitExact.ConfiguredAnswers | internal/api/routes.go:62 | with the configured limits: ten at once, and one more every four seconds |
| RateLimit.RateLimiter.Handle | internal/api/ratelimit.go:38-50 | as one step, a request finds or makes its entry, renews its time and asks its bucket |
| RateLimit.RateLimiter.CleanUp | internal/api/ratelimit.go:24-36 | the loop deletes exactly the entries idle for more than five minutes |
| StatusStore.KeyInjective | internal/service/connector_status.go:64-67 | a key stands for one pair only, even if the station id contains the separator |
| StatusStore.KeyedMeaning | internal/service/connector_status.go:69-78 | the map holds exactly the statuses of the pairs |
| StatusStore.RelationMeaning | internal/service/connector_status.go:69-78 | a pair of station id and connector id has a status exactly if it occurs in the list, and then the one at its last place |
| StatusStore.StatusesDetermineRelation | internal/service/connector_status.go:69-78 | two lists have equal maps exactly when they give every pair the same status |
| StatusStore.MapsEqualIsEquality | internal/service/connector_status.go:80-91 | without empty statuses on the left the one-sided comparison is equality |
| StatusStore.MapsEqualIff | internal/service/connector_status.go:80-91 | it is equality against every map exactly then |
| StatusStore.EmptyStatusGoesUnnoticed | internal/service/connector_status.go:80-91 | against every list with an empty status some different list is taken for the same |
| StatusStore.ComparisonExactIff | internal/service/connector_status.go:69-91 | the comparison tells all different relations apart exactly when the last list has no empty status |
| StatusStore.CurrentInEveryRun | internal/service/ws_station_publisher.go:79-94 | in every run the store holds, for each user, the statuses of the list last published to that user |
| StatusStore.PublishedInEveryRun | internal/service/ws_station_publisher.go:48-77 | in every run a new connection's list is published whatever the store holds, a conditional one if it fires, and a failed fetch publishes nothing |
| StatusStore.FiresIffRelationDiffers | internal/service/ws_station_publisher.go:48-61 | the conditional publish fires exactly when some pair's status differs from the last published list |
| StatusStore.FirstAlwaysFires | internal/service/ws_station_publisher.go:56-60 | a user without stored statuses is always published to |
| PublisherObject.ConnectorStatusMapsEqual | internal/service/connector_status.go:80-91 | the loop decides the one-sided comparison |
| PublisherObject.ConnectorStatusMapFromFlattened | internal/service/connector_status.go:69-78 | the loops build the status map of the list's value |
| PublisherObject.InMemoryConnectorStatusStore.Lookup | internal/service/connector_status.go:31-40 | the caller gets a copy of its user's map |
| PublisherObject.InMemoryConnectorStatusStore.Store | internal/service/connector_status.go:42-51 | the user's entry, and only that, becomes a copy of the map |
| PublisherObject.StoredMapIsACopy | internal/service/connector_status.go:49 | changing the map afterwards does not change the store |
| PublisherObject.StationPublisher.PublishPayloadAndPersistStatus | internal/service/ws_station_publisher.go:79-94 | publishes a frame that decodes to the list, then stores its statuses |
| PublisherObject.StationPublisher.PublishForUserIfStatusChanged | internal/service/ws_station_publisher.go:48-61 | does the machine's conditional publish |
| PublisherObject.StationPublisher.OnWebSocketConnected | internal/service/ws_station_publisher.go:63-77 | publishes the fetched list in any case |
| Stomp.ExtractIffRecoverable | internal/clients/csmsstomp/consumer.go:233-242 | the body of a frame, blank lines and all, is extracted exactly if and only if it does not end in what is trimmed |
| Stomp.LineEndAfterNul | internal/clients/csmsstomp/consumer.go:239-240 | with line ends after the NUL the NUL stays in the body |
| Stomp.GrammarFrameIff | internal/clients/csmsstomp/consumer.go:233-242 | over blank lines of either kind, any body, a NUL and any number of line ends, all of one kind or all of the other: the body is extracted exactly if the blank line is plain, no line end follows and it is not trimmed, or the blank line has a carriage return and it is empty |
| Stomp.MixedEndsIff | internal/clients/csmsstomp/consumer.go:233-242 | with line ends of mixed kinds and a body without NUL: behind a blank line with a carriage return the body is extracted exactly if it holds no blank line and is what the line ends alone would yield |
| Stomp.MixedEndsMakeUp | internal/clients/csmsstomp/consumer.go:238-240 | for instance an empty body comes back as a carriage return |
| Stomp.CarriageReturnsLoseBody | internal/clients/csmsstomp/consumer.go:234-237 | a frame in which every line feed follows a carriage return, in head and body alike, yields the empty body |
| Stomp.ProcessStomp | internal/clients/csmsstomp/consumer.go:174-198 | one event for a readable MESSAGE frame, none for any other |
| Stomp.ProcessSockJs | internal/clients/csmsstomp/consumer.go:153-172 | the calls made are the events of the frames, in order |
| Stomp.FramesRoundTrip | internal/clients/csmsstomp/consumer.go:200-205 | frames packed into a message are read back, whatever characters they contain |
| Stomp.MessageDelivers | internal/clients/csmsstomp/consumer.go:185-196 | a well-formed MESSAGE frame delivers its readable body, once |
| Stomp.DeliversBodiesInOrder | internal/clients/csmsstomp/consumer.go:153-198 | a message packed from such frames and any others delivers exactly the readable bodies of the former, in order |
| Stomp.OtherDeliversNothing | internal/clients/csmsstomp/consumer.go:174-184 | a frame that does not begin with the line MESSAGE delivers nothing |
| Stomp.OtherMessagesDeliverNothing | internal/clients/csmsstomp/consumer.go:153-167 | neither does a message of another kind or an array that is not one of strings |
| Migrations.MigrationFilesMeaning | internal/database/migrate.go:48-59 | the files are those entries that are no directory, end in .sql and are not clear_data.sql, both up to case, with their own trimmed text, in ascending order |
| Migrations.OnlyMigrationsCommit | internal/database/migrate.go:48-97 | no run on any database commits anything else |
| Migrations.ClearDataNeverCommits | internal/database/migrate.go:54-56 | in particular none commits clear_data.sql |
| Migrations.RunReportsIff | internal/database/migrate.go:25-99 | a run reports success exactly if nothing failed that it got to |
| Migrations.BaselineMarks | internal/database/migrate.go:15-20 | on a legacy database the baseline records its four files |
| Migrations.LoopExtendsPrefix | internal/database/migrate.go:61-97 | from a prefix of the non-empty files the loop leaves a longer or equal prefix, and all of them if it succeeds |
| Migrations.EveryRunLeavesPrefix | internal/database/migrate.go:48-98 | from an empty database, over any runs failing anywhere: recorded names and schema are those of a prefix of the sorted non-empty files, each committed once, and the baseline rule does not apply |
| Migrations.SuccessIsAsIfUninterrupted | internal/database/migrate.go:61-98 | the first successful run leaves what one uninterrupted run leaves |
| Migrations.LegacyAppliedAgainIff | internal/database/migrate.go:101-131 | over any runs on a legacy database, a legacy file is applied again exactly when the baseline was interrupted midway and a later run reached a file it had not marked |
| Migrations.LegacyFileAppliedAgain | internal/database/migrate.go:124-128 | for instance with the last insert failing: the next run succeeds, applies the last legacy file, and leaves a full record |
| Migrations.Database.BaselineExistingDatabase | internal/database/migrate.go:101-131 | the inserts made, and whether they were all made |
| Migrations.Database.RunMigrations | internal/database/migrate.go:25-99 | one run, failing anywhere, is the specified one |
| Migrations.Database.ApplyFiles | internal/database/migrate.go:61-98 | the loop applies each pending file with its record, in order, and stops at the first error |

## Hypotheses

- `Events.RunsAgree` and what rests on it suppose that statuses and error codes contain no NUL; the error
  information may.
- `Session`: all times come from one clock. `Session.AcceptedIff` and `Session.ActiveConnectionKeepsSession` suppose
  that touches succeed and land at once and that nothing comes between a check and its clear; the theorems of the
  interleaved machine do not.
- `Hub`: a publish is one step; `HubRace` has its single steps.
- `Migrations`: a file's statements and its record are committed together or not at all, what a file does depends
  only on its text and the schema, and the names in a directory are different.
- `Reconciler.EveryRun` supposes that a loop returns only after cancellation, which is what
  `Subscriber.EveryReachableState` proves of the loop.

## Left out

- Hub.WsHub.PublishToUser: as one step, no removal comes between the copy of the set and the sends, which in the code
  happen after the lock is released; `HubRace` says when that matters. The order of delivery is proved for one-step
  publishes only, since two publishes under way may send to a client in either order.
- SubscriberObject.UserLoop.OnEvent: no poller comes between its three steps; the steps are proved one by one too.
- RateLimit.RateLimiter.Handle: a request asks its bucket in the same step in which it finds its entry, although the
  code asks after releasing the lock.
- Sockets, HTTP handlers, dialling, pings and deadlines: fetched lists and received frames are inputs.
- JWT signing and the encryption of credentials: a token with a right signature is the user id in it.
- PostgreSQL: the users table is a map, a migration an abstract function of the schema.
- The decoding of a status event from a message body: `Stomp` takes it as a parameter.
- JSON numbers with a fraction or an exponent: the service writes none, and the decoder rejects them.
- Strings that are not valid UTF-8: text is a sequence of Unicode characters.
- Letters outside ASCII in case-insensitive comparisons: `Text.ToLower` and `Text.EqualFold` change ASCII letters only.
- `golang.org/x/time/rate`: buckets are real numbers, without rounding, and refill linearly up to the burst.
- The limiter on calls of the stations API, whose waiting and reservations are those of that library.
- The order in which the poller's and the event handler's publishes reach the hub: both publish outside the lock, and
  the code promises no order.
- The frames the consumer sends (CONNECT, SUBSCRIBE, heartbeats) and the wait for the opening frame: formatting of
  constant text.
- Growing or reordering a list in place: only the connectors of a station are overwritten, as in the source, so the
  list itself is a value.
- Configuration, login retries, upstream error mapping, Kafka and Redis stubs, the station worker, scripts.
