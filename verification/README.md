# Luna Edge, verified

Luna Edge is a control plane: a *master* keeps DNS records, domain endpoints, routes and backends, and streams
them to *slave* edge nodes, which answer DNS, terminate TLS and route requests. This project models its hard core
in Dafny 4.11 and proves what the parts promise, over every input, every run or every reachable state.
`dafny verify dfyconfig.toml` checks the whole project.

| part | files | main results |
|---|---|---|
| Replication | `Replication`, `SlaveStore`, `SnapshotServer`, `Subscriber`, `Hub`, `Protocol`, `Freshness`, `Convergence`, `Deletions`, `ProtocolLimits` | cursor discipline in every run, convergence of the slave's cache field by field, if and only if every deletion arrives as a notice or meets no row, lossless chunking, resumable catch-up, the hub's fan-out |
| Plans | `PlanDiff`, `Repository`, `Planning`, `PlanRounds`, `PlanRuns`, `PlanRepeats`, `PlanApply`, `PlanLimits` | every query-build-apply round shows exactly the wish, if and only if the plan does not clash; a plan is empty if and only if the wish is already shown |
| Ingress synchronisation | `IngressModel`, `IngressContent`, `IngressRows`, `IngressSync`, `IngressRepo`, `IngressBridge`, `IngressRuns`, `IngressHandlers`, `IngressLimits` | incremental maintenance equals full materialisation, if and only if no event orphans a ruled host or passes over one whose rows must change |
| SNI parser | `ClientHello` | total on every byte string, with the meaning of every outcome and the place of every returned name; right on the encoding of every well-formed ClientHello |
| DNS | `DnsNames`, `DnsIndex`, `DnsText`, `DnsLists` | the question index answers exactly the enabled records; printing and parsing invert each other, if and only if the data is printable; a stored list gives one answer for each value |
| Certificates | `Lru`, `CertPaths`, `CertCache` | the LRU holds exactly the most recently touched keys; cached loading is transparent but for overtaken loads |
| Route tables | `RouteChoice`, `RouteTables`, `RouteBridge` | a lookup succeeds exactly when the Kubernetes resources serve the request, with a maximal route |
| Helpers | `Options`, `Text`, `Sorting` | strings, splitting, sorting |

Objects that the source updates in place are classes (`LocalStore`, `Hub`, `Builder`, `Tables`, `Repo`, `Bridge`,
`MemoryStore`, `CertLRU`, `K8sBridge`), loops are methods with invariants, and each method is tied to a
specification function whose properties are then proved. Runs of the replication protocol, of plan rounds, of
ingress events, of the hub and of the certificate cache are step systems over those functions.

## Premises

- Replication: log ids ascend; the slave's database does not fail; each publish reads its row and appends its record,
  with any other steps in between, so records of one key may append against the order of their reads. Values are
  compared as they come off the wire, which carries neither `NeedCert` nor timestamps.
- Plans: the tables change only by plan application, from an empty repository; certificates may change freely.
- Ingress: the endpoint, route and backend tables are written by this bridge alone and start empty (`Inv`,
  `NoRows`); object names are non-empty. Corollaries for rule hosts that a second normalisation leaves alone
  (`Stable`), as the Kubernetes API requires of them, say so.
- Certificates: paths handed to the watcher are clean and absolute below the root; the cache lookups and disk reads of
  one load see one state, and any steps may come between them and the load's entry into the cache.

## Where code and documentation or intent differ

- A builder route whose path sanitises to `l4`, such as `/l4`, shares its backend id with the L4 backend. Switching
  such a host between L4 and L7 loses the backend. `PlanRuns.RoundShowsWish` gives the exact condition,
  `PlanLimits.SlashL4Misses` the runs.
- Removing a host from one ingress deletes its rows even when another ingress still rules it, and a rule host that a
  second normalisation changes, such as `h..`, is not synchronised by the event that stores it.
  `IngressRuns.EventKeepsAgreement` gives the exact condition, `IngressLimits.SharedHLosesRows` and
  `IngressLimits.DoubleDottedDisagrees` the inputs.
- `managedDomainUnchanged` reports a change for an unchanged host whose item repeats a route id
  (`IngressSync.UnchangedIff`), as two rules of one ingress for one host make it do (`IngressLimits.TwoRulesForH`).
- A publish that is overtaken by a later-read publish of the same key leaves the older value cached at the last id
  (`ProtocolLimits.OvertakenPublishGoesStale`). `Convergence.NoticesAgreeIff` gives the exact condition.
- A deletion met only through catch-up leaves the row cached (`ProtocolLimits.CatchUpMissesDeletion`).
  `Deletions.DeletionArrivesIff` gives the exact condition for one deletion in any run, `Deletions.MirrorIff` for the
  whole cache.
- A certificate change whose invalidation is delivered between a load's disk read and its entry into the cache leaves
  the old certificate cached with nothing pending (`CertCache.OvertakenLoadGoesStale`). `CertCache.RememberIff` gives
  the exact condition.
- Plan application announces an upserted row under its trimmed id, so a row with the id `" x"` is stored but not
  announced (`PlanApply.BlankIdIsMissed`). `PlanApply.AnnouncedIff` gives the exact condition.
- The server name list of a ClientHello is bounded by the frame and not by its extension, so a returned name may lie
  behind the extension (`ClientHello.OverlongNameIsReturned`). `ClientHello.ParsedNameLies` gives the exact condition.
- A refused `Modify` of a DNS record has already removed the record (`DnsIndex.MemoryStore.Modify`).
- A ClientHello without an extension block reads as truncated input, not as "not found"
  (`ClientHello.ServerNameOfEncoding`).
- A DNS answer whose target is the root, holds a comma, or starts with a quote or bracket does not survive printing
  and parsing; `DnsText.RoundTripIff` gives the exact condition.
- An empty notice would let the subscriber's own cursor run ahead of the stored one
  (`Subscriber.EmptyNoticeLeadsToReject`); the master never sends one. `Subscriber.SubscribeRejectsIff` gives the exact
  condition.

## Model

| member | source | states |
|---|---|---|
| `Replication.Skip` | repository/functions/gorm_snapshot_record_repository.go:17-23 | the listing after an id starts behind exactly the records at or below it |
| `Replication.WireConveys` | replication/proto_shim.go:73-156 | what comes off the wire is the entry with its kind, id or host, deletion mark and every other field, and without a domain's need for a certificate |
| `Replication.MirrorsAgreeIff` | replication/proto_shim.go:137-156 | two tables arrive alike if and only if they have the same keys and agree on every field but that need |
| `SlaveStore.PutCursor` | engine/slave/store_metadata.go:207-248 | storing entries under a stamp moves the cursor, the maximum of the sync table, to the stamp or leaves it if the stamp is older or nothing is stored |
| `SlaveStore.SnapshotCursor` | engine/slave/store_metadata.go:48-81 | a chunk moves the stored cursor to its stamp, except an empty or older chunk, which leaves it |
| `SlaveStore.StampsAre` | engine/slave/store_metadata.go:207-219 | the sync rows of a stamp name the last stored entry of each table, and no other sync row changes |
| `SlaveStore.LocalStore.DealEntry` | engine/slave/store_metadata.go:124-205 | a deleted entry removes its cache row, any other overwrites it, and no other row changes |
| `SlaveStore.LocalStore.UpdateSnapshotRecordID` | engine/slave/store_metadata.go:207-219 | the sync table gains or overwrites the one row of that id and table |
| `SlaveStore.LocalStore.GetSnapshotRecordID` | engine/slave/store_metadata.go:239-248 | the scan returns the largest stored id, 0 for an empty table |
| `SlaveStore.LocalStore.ApplyList` | engine/slave/store_metadata.go:64-72 | the per-entry loop equals storing the list under the stamp |
| `SlaveStore.LocalStore.ApplySnapshotChunk` | engine/slave/store_metadata.go:48-81 | DNS records, then domain entries, all under the chunk's stamp |
| `SlaveStore.LocalStore.ApplyNotice` | engine/slave/store_metadata.go:83-122 | old ids are skipped, a gap is the out-of-order error and changes nothing, the next id is stored |
| `SnapshotServer.HandleGetSnapshot` | engine/master/engine.go:188-238 | the chunking loop sends the specified chunk list for every answer of every table read |
| `SnapshotServer.ChunkingIsLossless` | engine/master/engine.go:188-238 | per kind the chunks concatenate to the live values in log order; all but the last hold exactly 1000 entries; only the last is marked; stamps never decrease and end at the last listed id or the starting cursor |
| `SnapshotServer.ResumeEqualsUninterrupted` | engine/slave/engine_subscriber.go:19-46 | against an unchanging master, cutting the stream after any prefix and resuming from the stored cursor gives the same store; with the whole stream as prefix, repeating catch-up changes nothing |
| `Subscriber.CatchUpSnapshots` | engine/slave/engine_subscriber.go:19-46 | the receive loop applies chunks up to the last one, or fails with the prefix received before the stream broke |
| `Subscriber.Subscribe` | engine/slave/engine_subscriber.go:49-111 | initial catch-up, then skip, gap catch-up or apply per notice, for every sequence of notices and catch-up streams |
| `Subscriber.FollowLaws` | engine/slave/engine_subscriber.go:86-109 | by its id the first notice does nothing, or starts a catch-up from which the loop goes on without it, or is stored and moves both cursors |
| `Subscriber.SubscribeNeverRejects` | engine/slave/engine_subscriber.go:59-110 | if notices carry entries, no subscription meets the out-of-order error or moves the stored cursor back |
| `Subscriber.SubscribeRejectsIff` | engine/slave/engine_subscriber.go:49-111 | whatever the streams deliver: a subscription meets the out-of-order error if and only if, after its first catch-up, an empty notice next to the stored cursor comes and then its successor before any gap |
| `Subscriber.EmptyNoticeLeadsToReject` | engine/slave/engine_subscriber.go:102-109 | without that premise two notices suffice to meet it |
| `Protocol.ReactionKeepsCursor` | engine/slave/store_metadata.go:83-122 | from equal cursors a notice is ignored, starts a catch-up or is applied exactly by comparison of its id, never refused, and leaves the cursors equal |
| `Protocol.Delivered` | engine/slave/engine_subscriber.go:86-110 | delivering any logged notice leaves the state, starts a catch-up, or moves both cursors to the notice's id |
| `Protocol.CursorInEveryRun` | engine/slave/engine_subscriber.go:59-111 | in every run of writes, publishes, catch-ups, deliveries, losses and crashes: the stored cursor never decreases, equals the loop's cursor while it waits for notices, and the out-of-order error is unreachable |
| `Protocol.LiveAfterWholeListing` | engine/master/engine.go:188-238 | in every run a slave leaves a catch-up only when every listed record has been served, with the last chunk |
| `Freshness.FreshInEveryRun` | engine/slave/engine_subscriber.go:19-111 | in every run, whatever the append order: the latest record of each key at or below the cursor is covered by the cache, by a value the master held at or after that record's read, or by the key having been absent since |
| `Convergence.LiveKeysConverge` | engine/slave/store_metadata.go:48-122 | in every run, deletions and overtaking publishes included: at the last log id every live key whose latest record is up to date is cached with the present id or host, deletion mark and body |
| `Convergence.CachedValueWasHeld` | engine/master/hub.go:94-151 | in every deletion-free run, at every moment: a key with a record at or below the cursor is cached, field by field, with a value the master held at or after the read of the latest such record |
| `Convergence.DeletionFreeMirror` | engine/master/engine.go:188-238 | in every deletion-free run, with the cursor at the last id and every key's latest record up to date, the cache has exactly the master's keys, each with the master's fields |
| `Convergence.InOrderPublished` | engine/master/hub.go:94-151 | if publishes of one key append in the order of their reads, any up-to-date record of the key makes its latest one up to date |
| `Convergence.CacheReplaysLog` | engine/slave/engine_subscriber.go:86-109 | if all records arrive as gap-free notices, the cache is the replay of the log up to the cursor |
| `Convergence.ReplayIsLatest` | engine/master/api_manage.go:234-295 | the replay holds each key's latest payload, and no row for a key whose latest record deletes it |
| `Convergence.NoticesAgreeIff` | engine/slave/store_metadata.go:83-160 | in every run whose records all arrive as notices, deletions and overtaking publishes included: the cache at the last id agrees with the master about a key if and only if the key's latest record says what the master holds |
| `Convergence.NoticesMirror` | engine/slave/store_metadata.go:108-160 | so with every key's latest record up to date the cache has exactly the master's keys and fields |
| `Deletions.QuietStep` | engine/master/engine.go:188-238 | a catch-up that lists the latest record of a removed key never carries an entry for it |
| `Deletions.RowAfter` | engine/slave/store_metadata.go:48-122 | once the cursor is at or beyond that record, no step changes whether the key is cached, except the notice that brings the cursor there, which removes it |
| `Deletions.DeletionArrivesIff` | engine/slave/engine_subscriber.go:19-111 | in every run, whatever it mixes: a published deletion that the cursor has passed has reached the cache if and only if the step that passed it delivered a notice, or the row was not cached just before |
| `Deletions.CrossingExists` | engine/slave/store_metadata.go:239-248 | in every run exactly one step takes the cursor to or beyond an id it has reached |
| `Deletions.MirrorIff` | engine/slave/store_metadata.go:48-160 | in every run, with every key's latest record up to date and the cursor at the last id: the cache has exactly the master's keys and fields if and only if every deletion arrived as a notice or met no row |
| `ProtocolLimits.OvertakenPublishGoesStale` | engine/master/hub.go:94-120 | a run in which two publishes of one key append against their read order: the present value has been published and nothing is under way, the slave at the last id holds the older value, and the log's last word is not the master's value |
| `ProtocolLimits.CatchUpMissesDeletion` | engine/master/engine.go:219-228 | a run in which a deletion is met only through catch-up leaves the deleted row cached |
| `HubFanOut.SubscribersGetSubsequences` | engine/master/hub.go:26-82 | every interleaving: no channel is closed twice or sent to after close, buffers stay within capacity, each subscriber has received or buffered an order-preserving subsequence of what was offered while it was registered, short by exactly the offers that met a full buffer |
| `HubFanOut.IdsAreNeverReused` | engine/master/hub.go:26-37 | ids only grow, a channel once issued stays known, and a closed one stays closed |
| `HubFanOut.ChannelStep` | engine/master/hub.go:39-82 | an event that reaches a channel appends its notice if there is room and drops it otherwise; a receive takes the first; only its own unsubscription closes it |
| `HubFanOut.ReachesIff` | engine/master/hub.go:57-82 | a broadcast reaches every registered channel, a publish exactly those registered under its node |
| `HubFanOut.RegistrationStep` | engine/master/hub.go:26-55 | a subscription registers the next id under its node, an unsubscription ends exactly that registration, and nothing else changes one |
| `HubFanOut.Hub.SubscribeNode` | engine/master/hub.go:26-37 | registers a fresh id with an empty open channel and returns it |
| `HubFanOut.Hub.UnsubscribeNode` | engine/master/hub.go:39-55 | closes and drops exactly that registration, and an emptied node entry |
| `HubFanOut.Hub.PublishTo` | engine/master/hub.go:57-68 | offers the notice to that node's channels only, in any order |
| `HubFanOut.Hub.BroadcastToAll` | engine/master/hub.go:70-82 | offers the notice once to every registered channel, in any order of the two maps |
| `PlanDiff.IndexById` | lnctl/builder.go:319-328 | the index keeps the last item of each id |
| `PlanDiff.ByIdLast` | lnctl/builder.go:371-380 | last wins |
| `PlanDiff.DiffById` | lnctl/builder.go:371-441 | the two walks and the sort give the diff: one change per differing id, strictly sorted by id |
| `PlanDiff.DiffIsExact` | lnctl/builder.go:319-353 | folding the diff over the current items gives the desired ones, and it is empty exactly when they agree |
| `PlanDiff.ChangesSay` | lnctl/builder.go:407-441 | each change holds what is there and what is wanted, and is a creation, update or deletion accordingly |
| `PlanDiff.DiffIsUnique` | lnctl/builder.go:407-441 | the diff does not depend on map iteration order |
| `PlanDiff.DiffExists` | lnctl/builder.go:407-441 | any two tables have a diff |
| `PlanDiff.DiffReplays` | engine/master/api_manage.go:127-232 | replayed on a table, a diff replaces exactly the current items by the desired ones |
| `PlanDiff.ApplyAt` | engine/master/api_manage.go:127-232 | ids named by the changes get their desired value, all others stay |
| `Repository.UpsertLive` | repository/functions/gorm_generic_repository.go:22-24 | an upsert makes the row live with that value and changes no other live row |
| `Repository.SoftDeleteLive` | repository/functions/gorm_generic_repository.go:26-28 | a soft delete takes exactly that row out of the live ones |
| `Repository.GetDomainEntryProjection` | repository/functions/gorm_repository.go:60-220 | over every join result: found exactly when the endpoint is live, showing its bound backend and each live route once with its backend, in priority, length and id order |
| `Repository.ReadRoutes` | repository/functions/gorm_repository.go:191-217 | the row loop with its seen set lists each route once, in order |
| `Repository.ListOrderIs` | repository/functions/gorm_repository.go:142 | the row order is by falling priority, then falling path length, then rising id |
| `Repository.ShownIs` | repository/functions/gorm_repository.go:178-217 | a joined backend is shown with its own fields, a missing type as SVC, an unnamed one not at all |
| `Repository.ProjectionIsDetermined` | repository/functions/gorm_repository.go:60-220 | tables and certificate determine the projection |
| `Planning.SanitizePart` | lnctl/builder.go:451-460 | the sanitised key is non-empty and free of colons |
| `Planning.SanitizePartIs` | lnctl/builder.go:451-460 | the key is the lower-case text with its separators replaced, without the underscores around it, or "root" if nothing is left |
| `Planning.DesiredDnsIs` | lnctl/builder.go:224-234 | a wished record is planned with its own fields, under its own id or one made of name, type and routing key |
| `Planning.Builder.WithExisting` | lnctl/builder.go:82-90 | sets what the builder compares with and nothing else |
| `Planning.Builder.AsL4` | lnctl/builder.go:92-106 | selects the L4 kind, certificate need and target, and drops the routes |
| `Planning.Builder.AsL7` | lnctl/builder.go:108-127 | selects the L7 kind and certificate need, drops the L4 target and keeps the routes |
| `Planning.Builder.AddRoute` | lnctl/builder.go:129-135 | appends the normalised path and its target |
| `Planning.Builder.WantDns` | lnctl/builder.go:137-140 | appends the record |
| `Planning.Builder.Build` | lnctl/builder.go:142-178 | every refusal with its error, success exactly for the accepted wishes, and then a plan whose parts are the diffs of current and desired resources |
| `PlanRounds.IdsAreInjective` | lnctl/builder.go:295-301 | ids are injective in host and sanitised key together |
| `PlanRuns.TargetIs` | lnctl/builder.go:209-222 | a planned backend has the target's type or SVC, its trimmed endpoint, namespace and name, and its port |
| `PlanRounds.CurrentRoutesAre` | lnctl/builder.go:275-293 | what the builder takes for current routes are the host's live routes |
| `PlanRounds.CurrentBackendsAre` | lnctl/builder.go:256-273 | what it takes for current L7 backends are the live backends of an L7 host |
| `PlanRounds.CurrentL4Is` | lnctl/builder.go:249-254 | what it takes for the current L4 backend is the only live backend of an L4 host |
| `PlanRounds.BackendEffect` | lnctl/builder.go:142-178 | applying a plan makes the host's backends the wanted ones, short of the L4 backend when the plan clashes |
| `PlanRounds.PlanRewrites` | engine/master/api_manage.go:127-232 | applying a plan rewrites endpoint, routes and backends of its host and nothing else |
| `PlanRounds.RewriteKeepsInv` | engine/master/api_manage.go:127-232 | the invariant on ids, ownership and kinds survives every application |
| `PlanRuns.RunKeepsInv` | engine/master/api_manage.go:127-232 | it holds in every state of every run from an empty repository |
| `PlanRuns.RoundShowsWish` | lnctl/builder.go:142-301 | every round of every run: the next projection shows the wished kind, certificate need, paths, priorities and target fields, in list order, if and only if the plan did not clash |
| `PlanRuns.AvoidingRunsAlwaysFulfil` | lnctl/builder.go:451-460 | if no route path of the run sanitises to the L4 key, every round makes the projection the wish |
| `PlanRuns.RoundLeavesNothingElse` | engine/master/api_manage.go:127-232 | the host keeps exactly the wanted live routes and no unwanted live backend |
| `PlanRuns.RoundTouchesOneHost` | repository/functions/gorm_repository.go:60-220 | a round changes no answer about another host |
| `PlanRuns.DnsEffect` | lnctl/builder.go:224-234 | the plan replaces exactly the handed-in DNS records by the wished ones |
| `PlanRepeats.EmptyPlanIff` | lnctl/builder.go:142-178 | a plan changes nothing if and only if the projection already shows the wish |
| `PlanRepeats.RepeatedWishChangesNothing` | lnctl/builder.go:142-178 | in every run, repeating a wish changes nothing if and only if its first round did not clash |
| `PlanRepeats.WishedRecordsStored` | lnctl/builder.go:224-234 | the plan stores the last wished record of each id with its own fields |
| `PlanApply.ReplayOnTable` | engine/master/api_manage.go:147-223 | the loop over one change list equals the replay on the live rows, keeps soft-deleted rows, and collects what to announce |
| `PlanApply.ReplayEndpoints` | engine/master/api_manage.go:181-202 | the endpoint loop equals the replay on the live rows and collects the projection of every endpoint it deletes, as queried just before |
| `PlanApply.Tables.ApplyPlan` | engine/master/api_manage.go:127-232 | the five tables afterwards show the plan's effect; announced are the trimmed upserted ids, the plan's host, the deleted records and what was shown of each deleted endpoint once routes and backends were replayed |
| `PlanApply.DeletedEntriesWereShown` | engine/master/api_manage.go:181-202 | every entry announced as deleted is what the tables showed of an endpoint the plan deletes, at that point of the replay |
| `PlanApply.ShownEntriesAreDeleted` | engine/master/api_manage.go:181-202 | every endpoint the plan deletes is announced, if the query still shows it just before |
| `PlanApply.DeletedAre` | engine/master/api_manage.go:204-223 | the deleted records are announced in the order of their changes, each once |
| `PlanApply.AnnouncedIff` | engine/master/api_manage.go:142-265 | an upserted row is announced under its id if and only if trimming leaves the id alone and it is not empty |
| `PlanApply.BlankIdIsMissed` | engine/master/api_manage.go:142-265 | an upserted row whose id starts with a blank is not announced |
| `PlanApply.ChangesAreAnnounced` | engine/master/api_manage.go:142-265 | every row a plan changes is announced as deleted, or is upserted and announced if and only if its id is trimmed and not empty |
| `PlanLimits.L4ToL7Fails` | lnctl/builder.go:142-178 | every L7 round with a colliding path after an L4 round misses the wish |
| `PlanLimits.L7ToL4Fails` | lnctl/builder.go:142-178 | every L4 round after an L7 round with a colliding path misses the wish |
| `PlanLimits.SlashKeyCollides` | lnctl/builder.go:451-460 | a plain key and a slash before it sanitise alike, so the path "/l4" collides |
| `PlanLimits.RunExists` | engine/master/api_manage.go:127-232 | every list of wishes the builder accepts has a run of rounds from the empty repository |
| `PlanLimits.L4ThenL7Misses` | lnctl/builder.go:142-178 | for every host and colliding path there is a run asking for L4 and then for that route, and it misses the second wish |
| `PlanLimits.L7ThenL4Misses` | lnctl/builder.go:142-178 | and one asking for that route and then for L4 |
| `PlanLimits.SlashL4Misses` | lnctl/builder.go:451-460 | the path "/l4" is such a path on every host |
| `IngressModel.NormalizeHostIs` | engine/master/k8s_bridge/gateway.go:564-572 | a lower-case name stays but for one closing dot, and loses a scheme before it and a port behind it |
| `IngressModel.ClassIs` | engine/master/k8s_bridge/ingress.go:344-359 | the class name counts if there is one, the annotation only if there is none, and no class takes nothing in |
| `IngressModel.DeclaredAre` | engine/master/k8s_bridge/ingress.go:361-393 | an ingress declares the non-empty normal forms of its rules' hosts and of its TLS hosts |
| `IngressModel.MaterializeIsFor` | engine/master/k8s_bridge/ingress.go:269-342 | a host is materialised exactly when some ingress has a rule for it, into rows that belong to it |
| `IngressContent.MaterializedEndpoint` | engine/master/k8s_bridge/ingress.go:288-299 | for every order and host the endpoint is HTTPS and needs a certificate if and only if the last ingress of the walk that rules the host names it under TLS, and is plain HTTP otherwise |
| `IngressContent.MaterializedRows` | engine/master/k8s_bridge/ingress.go:300-331 | for every order and host the rows are one route and one backend for each path with a service of a rule for the host, in walking order, with the path, priority, service, port or external name that path asks for |
| `IngressRows.ReplaceHolds` | engine/master/k8s_bridge/bridge_materialized.go:85-177 | replacing a host's rows makes it hold the item, or nothing |
| `IngressRows.ReplaceKeepsInv` | engine/master/k8s_bridge/bridge_materialized.go:85-177 | the invariant on ids and ownership survives every replacement |
| `IngressRows.OtherHostHolds` | engine/master/k8s_bridge/bridge_materialized.go:85-177 | and no answer about another host changes |
| `IngressSync.ManagedDomainUnchanged` | engine/master/k8s_bridge/bridge_materialized.go:179-215 | the comparison loops decide the stated condition on endpoint, counts and members |
| `IngressSync.UnchangedIff` | engine/master/k8s_bridge/bridge_materialized.go:179-215 | that condition holds exactly when the stored rows are the item's and its route ids are distinct |
| `IngressSync.ByIdSize` | engine/master/k8s_bridge/bridge_materialized.go:186-202 | comparing sizes detects repeated ids exactly |
| `IngressRepo.Repo.ListRoutesByHostname` | repository/functions/gorm_http_route_repository.go:13-20 | lists exactly the live routes of the host, each once |
| `IngressRepo.Repo.ListBackendsByRoutes` | repository/functions/gorm_service_binding_repository.go:13-24 | lists the live backends the routes point to, in route order |
| `IngressRepo.Repo.Prune` | engine/master/k8s_bridge/bridge_materialized.go:122-136 | deletes exactly the routes outside the kept ids, and of their backends the managed ones that are not kept |
| `IngressRepo.DisposableIs` | engine/master/k8s_bridge/bridge_materialized.go:128-143 | only backends whose id starts with "k8s:backend:" are disposed of |
| `IngressRepo.Repo.Rewrite` | engine/master/k8s_bridge/bridge_materialized.go:101-143 | the item's rows are written, the current ones outside it deleted, and a managed bound service that is not kept goes too |
| `IngressRepo.Repo.Erase` | engine/master/k8s_bridge/bridge_materialized.go:155-175 | the endpoint, its current routes, their managed backends and a managed bound service are deleted |
| `IngressRepo.Repo.UpsertManagedDomain` | engine/master/k8s_bridge/bridge_materialized.go:85-145 | afterwards the host has exactly the item's rows and other rows stay; it reports no change exactly if the host had them and the item's route ids are distinct |
| `IngressRepo.Repo.DeleteManagedDomain` | engine/master/k8s_bridge/bridge_materialized.go:147-177 | afterwards the host has no rows and other rows stay; it reports a change exactly if there was an endpoint |
| `IngressBridge.SyncOne` | engine/master/k8s_bridge/bridge_materialized.go:30-83 | one host's replacement extends the synchronised set by that host |
| `IngressBridge.ResyncChangesNothing` | engine/master/k8s_bridge/bridge_materialized.go:85-100 | synchronising the same goals again changes no row, and reports only hosts whose item repeats a route id |
| `IngressBridge.AnnounceBoth` | engine/master/k8s_bridge/ingress.go:250-267 | written and deleted hosts together are each host whose sync changed something, once |
| `IngressBridge.UsersAre` | engine/master/k8s_bridge/ingress.go:432-447 | a service concerns a host if and only if an ingress of its namespace names it in some path and declares the host |
| `IngressHandlers.PathRows` | engine/master/k8s_bridge/ingress.go:301-331 | the path loop makes the specified rows |
| `IngressHandlers.AddIngressRules` | engine/master/k8s_bridge/ingress.go:277-335 | the rule loop updates the items of exactly the wanted hosts |
| `IngressHandlers.DedupBackends` | engine/master/k8s_bridge/ingress.go:449-462 | same rows, each backend id once, last wins, sorted by id |
| `IngressHandlers.MaterializeByHost` | engine/master/k8s_bridge/ingress.go:269-342 | for some order of the ingress map, the wanted hosts carry exactly their full materialisation in that order, whose fields the two results above give |
| `IngressHandlers.SyncDomainSet` | engine/master/k8s_bridge/bridge_materialized.go:19-83 | for any hosts, normal or not: each affected host holds its materialisation or nothing, each removed-only host nothing, all others what they held; each host whose sync changed something is reported once |
| `IngressHandlers.SyncHosts` | engine/master/k8s_bridge/ingress.go:250-267 | materialising and synchronising leaves exactly the named hosts, normalised once more, at their goals, and passes on each host whose sync changed something, once |
| `IngressHandlers.Bridge.HandleStoreIngress` | engine/master/k8s_bridge/ingress.go:161-185 | the handler performs the store step of the event system, for any ingress, and announces each host whose sync changed something, once |
| `IngressHandlers.Bridge.HandleDeleteIngress` | engine/master/k8s_bridge/ingress.go:187-199 | the handler performs the delete step and announces likewise |
| `IngressHandlers.Bridge.HandleStoreService` | engine/master/k8s_bridge/ingress.go:201-221 | the handler performs the service step on the hosts that use it and announces likewise |
| `IngressHandlers.Bridge.HandleDeleteService` | engine/master/k8s_bridge/ingress.go:223-241 | likewise for a deleted service |
| `IngressRuns.ServiceIrrelevant` | engine/master/k8s_bridge/ingress.go:432-447 | a service change leaves every host alone that no referring ingress has a rule for |
| `IngressRuns.RemovedHost` | engine/master/k8s_bridge/bridge_materialized.go:65-81 | a removed host agrees with full materialisation exactly if nothing rules it any more |
| `IngressRuns.UnreachedHost` | engine/master/k8s_bridge/bridge_materialized.go:30-83 | a host the event does not synchronise agrees afterwards exactly if its rows are what the new resources make of it |
| `IngressRuns.UntouchedHost` | engine/master/k8s_bridge/ingress.go:161-241 | and they are, unless the event changes rules for the host or a service used by an ingress with such rules |
| `IngressRuns.MissedHost` | engine/master/k8s_bridge/ingress.go:161-185 | a rule host that nothing ruled before and the handler does not reach does not agree with full materialisation |
| `IngressRuns.EventKeepsAgreement` | engine/master/k8s_bridge/ingress.go:161-241 | an event keeps all hosts equal to full materialisation if and only if it removes no host that is still ruled and synchronises every host whose rules or services it changes, unless the rows need no change |
| `IngressRuns.StableReached` | engine/master/k8s_bridge/ingress.go:250-267 | rule hosts that a second normalisation leaves alone are synchronised whenever the event touches them |
| `IngressRuns.StableKeepsAgreement` | engine/master/k8s_bridge/ingress.go:161-241 | from a state with such rule hosts an event keeps agreement if and only if it removes no host that is still ruled and reaches every rule host it stores |
| `IngressRuns.IncrementalEqualsFull` | engine/master/k8s_bridge/ingress.go:161-342 | in every run, every host's rows equal a full materialisation throughout if and only if every event meets that condition |
| `IngressRuns.StableRunsEqualFull` | engine/master/k8s_bridge/ingress.go:161-342 | so over stable rule hosts it is enough that no event orphans a ruled host |
| `IngressRuns.SoleRunsEqualFull` | engine/master/k8s_bridge/ingress.go:161-342 | in every run in which no host is ruled by two ingresses at a time, the rows equal the full materialisation in every map order throughout if and only if every event meets the condition |
| `IngressRuns.DisjointRunsEqualFull` | engine/master/k8s_bridge/ingress.go:161-342 | so with host-disjoint ingresses of stable hosts every event sequence keeps every host's rows equal to the full materialisation in every map order |
| `IngressLimits.StepExists` | engine/master/k8s_bridge/ingress.go:161-241 | every event can happen in every state, and keeps the row invariant |
| `IngressLimits.RunExists` | engine/master/k8s_bridge/ingress.go:161-241 | every event sequence has a run from empty tables |
| `IngressLimits.DeletionOrphans` | engine/master/k8s_bridge/ingress.go:187-199 | whenever two ingresses rule a host, deleting one of them orphans it |
| `IngressLimits.SharedHostLosesRows` | engine/master/k8s_bridge/ingress.go:161-199 | for any two ingresses that rule a common host there is a run that stores both, agrees with full materialisation, and no longer agrees once one is deleted |
| `IngressLimits.SharedHLosesRows` | engine/master/k8s_bridge/ingress.go:161-199 | such a run for two ingresses ruling the host "h" |
| `IngressLimits.TwoRulesRepeatId` | engine/master/k8s_bridge/ingress.go:277-335 | an ingress with two rules for one host, of one path each, materialises to an item that repeats a route id |
| `IngressLimits.TwoRulesForH` | engine/master/k8s_bridge/ingress.go:277-335 | and so for the host "h" |
| `IngressLimits.DoubleDottedIsMissed` | engine/master/k8s_bridge/ingress.go:161-185 | a rule host with two closing dots is not reached by the handler that stores it |
| `IngressLimits.DoubleDottedDisagrees` | engine/master/k8s_bridge/ingress.go:161-185 | and storing it where nothing rules its host loses agreement |
| `ClientHello.ParseNames` | ingress/engine_tls.go:320-334 | the inner loop equals the scan of the name list, for any start and end, and reads only inside the frame |
| `ClientHello.ParseExtensions` | ingress/engine_tls.go:309-338 | the outer loop equals the scan of the extensions, and reads only inside the frame |
| `ClientHello.ParseTLSClientHelloServerName` | ingress/engine_tls.go:272-339 | on every byte string: terminates, indexes in range, equals the scan, and returns only a name that stands behind its host_name header in the name list of a server_name extension |
| `ClientHello.ParsedNameLies` | ingress/engine_tls.go:316-335 | on every byte string a returned name stands in the list of a server_name extension; it lies within that extension if and only if the list, ended with the extension, still yields a name, and so whenever the list's length fits the extension's |
| `ClientHello.NameWithin` | ingress/engine_tls.go:320-334 | under another end of the list a name is found if and only if it ends at or before that end, and then it is the same |
| `ClientHello.OverlongNameIsReturned` | ingress/engine_tls.go:316-335 | a frame whose list is longer than its extension: the parser returns a name that stands behind the extension |
| `ClientHello.HeaderOutcome` | ingress/engine_tls.go:272-280 | a frame is invalid exactly if it is shorter than 43 bytes or no handshake record, and not a ClientHello exactly if its sixth byte says so |
| `ClientHello.NotLaidOutcome` | ingress/engine_tls.go:281-308 | a ClientHello without room for its own lengths ends early |
| `ClientHello.LaidOutcome` | ingress/engine_tls.go:281-308 | any other is decided by its extension block, which stands where the big-endian lengths before it say |
| `ClientHello.ExtensionsOutcome` | ingress/engine_tls.go:309-338 | behind all extensions passed over, the block ends without a name, or an extension does not fit and is an error, or a server_name list decides |
| `ClientHello.NamesOutcome` | ingress/engine_tls.go:320-334 | behind all entries of other kinds stands a host name that fits and is returned, or an entry that does not fit and is an error, or no entry |
| `ClientHello.NamesRoundTrip` | ingress/engine_tls.go:320-334 | scanning an encoded server name list (section 3 of RFC 6066) gives its first host_name entry |
| `ClientHello.ExtensionsRoundTrip` | ingress/engine_tls.go:303-338 | scanning encoded extensions gives the first host name in extension order, "not found" exactly if there is none |
| `ClientHello.ServerNameOfEncoding` | ingress/engine_tls.go:272-339 | so does the parser on the encoding of every well-formed single-record ClientHello (section 4.1.2 of RFC 8446) |
| `DnsNames.FqdnIdempotent` | dns/types.go:59-66 | a normalised name is its own normal form |
| `DnsNames.FqdnIs` | dns/types.go:59-66 | a name is lowered, freed of blanks and closed by one dot; the root becomes empty |
| `DnsNames.NormalizedIsClosed` | dns/types.go:59-66 | the normal names are the empty one and the lower-case, unblanked, dot-terminated ones |
| `DnsNames.TypeIdempotent` | dns/types.go:68-77 | a normalised type is its own normal form |
| `DnsNames.TypeIs` | dns/types.go:68-77 | a type name is known in any case and with any blanks around it |
| `DnsNames.KeyInjective` | dns/cache.go:186-195 | a cache key determines its normalised question |
| `DnsIndex.RebuildFixes` | dns/cache.go:129-154 | rebuilding one question repairs an index that was wrong at most there |
| `DnsIndex.PutStores` | dns/cache.go:117-127 | a stored record takes the place of the one with its name and id, and of no other |
| `DnsIndex.DropRemoves` | dns/cache.go:82-101 | a removal takes exactly that record, and tidying takes no record and leaves no empty domain |
| `DnsIndex.EffectIs` | dns/cache.go:42-127 | after each operation exactly the new record in normal form and the old ones it does not replace are stored |
| `DnsIndex.Collect` | dns/cache.go:129-146 | the nested walk lists exactly the enabled records of a question, each once |
| `DnsIndex.MemoryStore.Lookup` | dns/cache.go:23-40 | the enabled stored records with the normalised name and type, each once; a hit exactly when there is one |
| `DnsIndex.MemoryStore.Restore` | dns/cache.go:42-51 | the store holds exactly the given records, the last of each id |
| `DnsIndex.MemoryStore.Add` | dns/cache.go:53-58 | the record is stored under its normalised name, and the present answer to its question is returned with its found flag |
| `DnsIndex.MemoryStore.Modify` | dns/cache.go:60-80 | unknown domain, unknown record, refused change (record gone) and accepted change, each with its new state; on success with the present answer to the new record's question |
| `DnsIndex.MemoryStore.Delete` | dns/cache.go:82-101 | both error cases and the removal, which takes an emptied domain entry along; on success with the present answer to the gone record's question |
| `DnsIndex.MemoryStore.RefreshQuestion` | dns/cache.go:103-108 | changes no record and keeps the index right |
| `DnsIndex.MemoryStore.Clear` | dns/cache.go:110-115 | nothing stored, nothing indexed |
| `DnsIndex.MemoryStore.Upsert` | dns/cache.go:117-127 | replaces the record wherever its old version was indexed |
| `DnsIndex.LookupAfter` | dns/cache.go:23-154 | after any sequence of operations a lookup returns exactly the enabled stored records of the question, each once, and no key exists for an empty answer |
| `DnsText.SplitText` | dns/engine.go:372-391 | the splitting loop equals its specification |
| `DnsText.ToRR` | dns/engine.go:284-370 | the rendering loop equals its specification, stopping at the first bad value |
| `DnsText.DecimalValue` | dns/forward.go:103-133 | printed numbers are digits and parse to themselves |
| `DnsText.PrintableRecovered` | dns/forward.go:103-133 | printable MX, SRV, CNAME and NS data is recovered exactly (section 3.3.9 of RFC 1035, RFC 2782) |
| `DnsText.OnlyPrintable` | dns/engine.go:284-391 | data that is recovered was printable |
| `DnsText.RoundTripIff` | dns/engine.go:284-391 | an answer comes back from its record, and alone, if and only if its name is normal and its data printable |
| `DnsLists.JsonListSplits` | dns/engine.go:372-391 | a JSON array of values without commas, outer blanks or outer quotes splits into the values, in order |
| `DnsLists.CommaListSplits` | dns/engine.go:372-391 | each part of a comma list counts without the blanks around it, and not at all if nothing is left |
| `DnsLists.ListIsAnswered` | dns/engine.go:284-391 | a record that keeps any number of printable values gives one answer for each, in order, with the record's normal name and time to live |
| `DnsLists.RowIsNormal` | dns/forward.go:103-133 | what is stored of an answer is its normal form, and that is what reading it back gives whenever it is printable |
| `DnsLists.BadValueSpoils` | dns/engine.go:284-370 | one value that does not parse spoils the whole record |
| `DnsLists.AtoiReads` | dns/engine.go:284-370 | digits with or without a sign are read as their number exactly if it fits in 64 bits |
| `DnsLists.MailParses` | dns/engine.go:316-336 | a mail exchange is a number, a blank and a name |
| `DnsLists.ServiceParses` | dns/engine.go:337-364 | a service is three numbers and a name with any blanks between them, and nothing more |
| `Lru.CacheIsFront` | ingress/tls_cert_resolver.go:304-335 | at every point of every Add/Get history the cache is the front of an unbounded recency list |
| `Lru.RecencyRanks` | ingress/tls_cert_resolver.go:304-335 | that list orders the touched keys by last touch, with their last added values |
| `Lru.CacheKeepsMostRecent` | ingress/tls_cert_resolver.go:284-353 | the cache holds exactly the `capacity` most recently touched distinct keys with their last added values |
| `Lru.CertLRU.Get` | ingress/tls_cert_resolver.go:304-313 | returns the cached value and moves its key to the front; list and map stay a bijection within capacity |
| `Lru.CertLRU.Add` | ingress/tls_cert_resolver.go:315-335 | the key leads with the new value; beyond capacity the oldest falls out |
| `Lru.CertLRU.Delete` | ingress/tls_cert_resolver.go:337-346 | removes exactly that key |
| `Lru.CertLRU.Clear` | ingress/tls_cert_resolver.go:348-353 | empties the cache |
| `CertPaths.SanitizeFixed` | ingress/utils.go:28-54 | sanitised names are fixed, and every result is sanitised or empty |
| `CertPaths.SanitizeIs` | ingress/utils.go:28-54 | sanitising lowers case and trims, and gives up exactly if what is left is no name |
| `CertPaths.PlainIff` | ingress/utils.go:16-54 | a name, character by character: lower-case letters, digits, hyphens and dots, no hyphen or dot at an end or beside a dot, at most 63 characters between dots |
| `CertPaths.PathInvertsDirectory` | ingress/tls_cert_resolver.go:143-175 | a change anywhere at or below a host's directory leads back to exactly that host, plain or wildcard |
| `CertPaths.DirectoryIs` | ingress/tls_cert_resolver.go:143-149 | a plain name's directory has its name, a wildcard's lies below ".wildcard" |
| `CertPaths.NobodysPath` | ingress/tls_cert_resolver.go:156-175 | the root, the wildcard directory itself and everything not below the root belong to no host |
| `CertPaths.PathsLeadToNames` | ingress/tls_cert_resolver.go:156-175 | whatever the path, it leads to a sanitised name or to nobody |
| `CertPaths.DirectoriesAreDistinct` | ingress/tls_cert_resolver.go:143-149 | two sanitised hosts never share a directory |
| `CertPaths.CertificateCandidates` | ingress/tls_cert_resolver.go:131-141 | the loop lists the specified candidates, whose members and order the next two results give |
| `CertPaths.CandidatesIff` | ingress/tls_cert_resolver.go:131-141 | the candidates are the name, and a wildcard for every part of it that stands behind a dot and contains one |
| `CertPaths.CandidatesInOrder` | ingress/tls_cert_resolver.go:131-141 | the name comes first and the wildcards follow from the longest to the shortest; a bad name has none |
| `CertPaths.CandidatesSanitized` | ingress/tls_cert_resolver.go:131-141 | every candidate is a sanitised name |
| `CertCache.LoadCertificate` | ingress/tls_cert_resolver.go:94-116 | the first candidate cached or on disk wins, an unreadable pair ends the search, and a disk hit is cached |
| `CertCache.FirstPairDecides` | ingress/tls_cert_resolver.go:99-116 | candidates without a pair are passed over, the first with one decides, and none is "not found" |
| `CertCache.TwoHalves` | ingress/tls_cert_resolver.go:94-116 | a load is the walk over cache and disk followed by entering what it read |
| `CertCache.InvalidateCacheForPaths` | ingress/tls_cert_resolver.go:209-223 | drops exactly the hosts the paths belong to |
| `CertCache.RunCoherent` | ingress/tls_cert_resolver.go:94-223 | in every run of loads in two halves, changes, invalidations and evictions: each cached entry is on disk as cached, or has an undelivered change, or comes from a load overtaken by an invalidation of its host between the halves |
| `CertCache.LoadIsTransparent` | ingress/tls_cert_resolver.go:94-129 | in every such run a load none of whose candidates has an undelivered change or an entry from an overtaken load returns what an uncached lookup would |
| `CertCache.RememberIff` | ingress/tls_cert_resolver.go:107-113 | entering what a load has read leaves no wrong entry if and only if the directory still holds it or its change is undelivered |
| `CertCache.OvertakenLoadGoesStale` | ingress/tls_cert_resolver.go:94-116 | for every host a run with read, change, invalidation and entry in that order: nothing is pending, and a load returns the old certificate while the disk holds the new one |
| `Text.NormalizePath` | ingress/k8s_bridge.go:304-310 | the result starts with a slash, does not end in a blank, and a normal path is left alone |
| `Text.NormalizePathIs` | ingress/k8s_bridge.go:304-310 | blanks around a path do not count, and what starts with no slash is the root |
| `Text.BareHostIs` | ingress/utils.go:18-26 | a name stays, and loses a scheme before it and a port behind it |
| `RouteChoice.CoversIff` | ingress/k8s_bridge.go:362-383 | an exact route covers its own path; any other covers it and what continues it at a slash, and "/" covers all |
| `RouteChoice.RankIs` | ingress/k8s_bridge.go:332-360 | the comparison puts exact routes first, then longer paths, then lower orders, then greater ids |
| `RouteChoice.PathsCountNormal` | ingress/k8s_bridge.go:362-366 | route and request paths count in their normal form |
| `RouteChoice.CompareIsOrder` | ingress/k8s_bridge.go:332-360 | the priority comparison is a total preorder whose ties are equal kind of match, path length, order and id |
| `RouteChoice.SelectRoute` | ingress/k8s_bridge.go:312-330 | the loop finds a route exactly when one matches; no matching route is exact while it is a prefix, or equal so far and longer, or lower in order, or greater in id |
| `RouteChoice.EqualRankSamePath` | ingress/k8s_bridge.go:332-383 | equally ranked matches of one request have the same path |
| `RouteChoice.ChoiceIsOrderIndependent` | ingress/k8s_bridge.go:312-383 | any permutation of the table gives an equally ranked choice with the same path |
| `RouteTables.RouteHostIs` | ingress/utils.go:18-54 | a sanitised name stays, and loses a scheme before it and a port behind it |
| `RouteTables.EmittedForNames` | ingress/k8s_bridge_gateway.go:319-333 | the hosts a gateway route is emitted for are exactly the names it goes by on the listener |
| `RouteTables.EmittedIff` | ingress/k8s_bridge_gateway.go:140-301 | a route is emitted if and only if some ingress path with a service, or some gateway route through a parent's section, an admitting listener, one of its names and one of its rules, asks for its kind, host, port, path, order, id and backend fields |
| `RouteBridge.AddPaths` | ingress/k8s_bridge_ingress.go:157-214 | the path loop adds exactly the routes of the paths with a service |
| `RouteBridge.AddRules` | ingress/k8s_bridge_ingress.go:152-216 | the rule loop skips rules without a valid host and adds the others' routes |
| `RouteBridge.AddHosts` | ingress/k8s_bridge_gateway.go:171-189 | the host and rule loops add exactly their routes, each in its table |
| `RouteBridge.AddListeners` | ingress/k8s_bridge_gateway.go:164-190 | the listener loop, in any order, adds exactly the routes of listeners that admit the family in the named section |
| `RouteBridge.AddParents` | ingress/k8s_bridge_gateway.go:220-257 | the parent loop skips unknown gateways |
| `RouteBridge.K8sBridge.Rebuild` | ingress/k8s_bridge.go:292-302 | the tables hold exactly the emitted routes of the present resources, each in its slot |
| `RouteBridge.K8sBridge.StoreIngress` | ingress/k8s_bridge_ingress.go:86-101 | an ingress of the class is stored, another dropped, and the tables are right again |
| `RouteBridge.K8sBridge.DeleteIngress` | ingress/k8s_bridge_ingress.go:114-121 | the ingress is gone and the tables are right again |
| `RouteBridge.K8sBridge.StoreService` | ingress/k8s_bridge_ingress.go:103-112 | the service, and with it any external address, is updated and the tables are right again |
| `RouteBridge.K8sBridge.DeleteService` | ingress/k8s_bridge_ingress.go:123-130 | the service is gone and the tables are right again |
| `RouteBridge.K8sBridge.StoreGateway` | ingress/k8s_bridge_gateway.go:381-393 | the gateway is stored and the tables are right again |
| `RouteBridge.K8sBridge.DeleteGateway` | ingress/k8s_bridge_gateway.go:363-370 | the gateway is gone and the tables are right again |
| `RouteBridge.K8sBridge.StoreRoute` | ingress/k8s_bridge_gateway.go:395-438 | the route is stored in its family and the tables are right again |
| `RouteBridge.K8sBridge.DeleteRoute` | ingress/k8s_bridge_gateway.go:372-379 | the route is gone and the tables are right again |
| `RouteBridge.K8sBridge.ResolveHostPath` | ingress/k8s_bridge.go:232-261 | succeeds exactly when the host is valid and the resources ask for a route of this kind and host that covers the path; returns one, with its rule's backend, that stands behind no other in exactness, path length, order and id |
| `RouteBridge.K8sBridge.ResolvePort` | ingress/k8s_bridge.go:263-280 | succeeds exactly when the resources ask for a route on the port, and returns one of them with its backend |
| `RouteBridge.RebuildsAgree` | ingress/k8s_bridge.go:292-330 | two rebuilds of the same resources, in any map order, answer every request with equal rank and the same path |

## Left out

- gRPC, HTTP handlers, informers, sockets and proxying: streams are sequences and the wire is a function that erases what it does not carry.
- GORM, SQL and JSON: tables are maps by id with a soft-delete flag, payloads are values; transactions are atomic and neither fail nor roll back.
- ACME issuance, the S3 bundle store and the asynchronous fetch of certificate bundles: foreign calls.
- The hand-off of DNS records into the running DNS engine: each message replaces the whole base set, so it does not mirror the slave's cache.
- Deletions made by the Kubernetes bridges and their broadcast: the broadcast finds no row and sends nothing.
- The master's Gateway API bridge: it does not re-materialise hosts a route dropped while another resource names them, so it does not refine a full rebuild.
- The ingress memory store: its selection does not require the path to match, so it does not agree with route selection.
- The note to the certificate reconciler for each synchronised HTTPS host: it changes no table.
- GeoIP distance: floating point over an external database.
- CLI, configuration, logging and health checks.
- DnsText.ToRR: does not model A, AAAA, TXT and CAA values, because their text forms are parsed by the DNS library.
- Path lengths in route priority count characters where Go counts bytes, in `RouteChoice.Compare`, `Planning.RouteFor` and `Repository.Precedes`: the two differ only for paths outside ASCII.
- Non-ASCII case mapping and the 64-bit wrap-around of log ids and subscription ids.
- Certificate pre-heating by `Put`, and the file pair test, which is one `Broken` or `Missing` answer of the disk.
- Parsing of unstructured Gateway API objects: routes, listeners and references are given as parsed; a rule's path is normalised when its route is emitted instead of when it is stored.
- IngressRepo.Repo.ListRoutesByHostname: does not model the order of the list, because its callers use only its members and length.
- IngressRepo.Repo.ListBackendsByRoutes: lists in route order instead of by id, for the same reason.
- CertPaths.PathInvertsDirectory: assumes a clean root other than "/" and clean paths, because cleaning paths is the file library's part.
- Lru.CertLRU.Get: a list element is named by its key instead of being a heap node, so element identity is not captured.
- RouteBridge.K8sBridge.ResolvePort: which of several routes for one port comes first depends on map order, so only membership is stated.
