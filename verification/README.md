# Verified model of the API proxy's stateful cores

The proxy keeps long-lived state that several parts of the program edit in place: a registry of the models its
clients can serve, a watcher that keeps credentials in step with files and configuration, usage statistics, a
signature cache, and a configuration file that is rewritten without losing the user's layout. It also has a few
small transformations with many branches: a scanner that repairs single-quoted JSON, the normalisation of
thinking configurations, and the escaping of keys in JSON paths. This project models these cores in Dafny and
proves what they promise. `dafny verify dfyconfig.toml` checks everything.

Code that works by changing state is modelled by classes and loops (`Registry`, `Watcher`, `Usage`,
`SignatureCache`, and the loops of `ConfigMerge`, `FixJson`, `Thinking` and `GjsonPath`). Each method's contract
gives the whole new state as a function of the old one, and the properties are proved about those functions. Where
the program ranges over a Go map the model picks any remaining key, so the results hold for every order. Clocks
are parameters.

- **Shared** (`Collections`, `Text`, `MapSums`). Optional values and maps, Go's string helpers, finite sums.
- **Registry** (`RegistryState`, `RegistryInvariant`, `RegistryReconcile`, `RegistrySteps`, `RegistryListing`,
  `RegistryRuns`, `RegistryQueries`, `RegistryMarks`, `RegistryBindings`, `Registry`). The counters are always sums
  over the clients; re-registering a client in place is a rebuild, exactly when no quota or suspension mark stands
  in the way; no listing served from the cache is ever stale; and every mark and binding is the one that the calls
  ask for.
- **Configuration merge** (`Yaml`, `YamlDefaults`, `YamlMerge`, `YamlElements`, `ConfigMerge`). Whatever the old
  file held, the merged tree agrees with the new configuration, exactly when blank keys inside sequence elements
  hold only defaults; the old keys keep their order, and no mapping entry added under a new key, at any depth, is a
  default or an empty collection.
- **Watcher** (`AuthUpdates`, `AuthOrder`, `AuthSources`, `AuthDiff`, `AuthRuns`, `WatcherRuns`, `Watcher`).
  Handling one file at a time ends where a full refresh would; coalescing pending updates is invisible, exactly when
  every update fits; and in every run the consumer ends with what a full refresh would make.
- **Usage statistics** (`UsageState`, `UsageMerge`, `UsageRecords`, `UsagePrinting`, `Usage`, `UsageRuns`). Every
  total is conserved in every run, and merging a snapshot is a set union on deduplication keys.
- **FixJSON** (`FixJson`). Idempotent, the identity exactly on texts that need no repair, and meaning-preserving for
  the string syntax of section 7 of RFC 8259.
- **Signature cache** (`SignatureCache`, `SignatureLife`). Buckets with expiry answer as one flat table, swept or
  not.
- **Thinking configuration** (`Thinking`, `ThinkingTables`). A validated configuration is accepted by the model and
  stays as it is when validated again, each except in exactly stated cases.
- **JSON paths** (`GjsonPath`). Escaping and splitting are inverse on exactly stated keys.

Several promises turn out to hold only under a condition. Each is proved as an if-and-only-if, and a lemma names an
input that fails:

| result | holds exactly when | fails for |
|---|---|---|
| re-registering equals unregistering and registering afresh | `MarksSafe`: a client joining a model has no mark on it, and a model it alone holds has no marks of others | `StrayMarkDiverges` |
| a model is listed whenever a listing is left over or only quotas stand in the way | no client is suspended otherwise, nothing is left over, or the clients marked twice are fewer than the listings left over | `MarkedTwiceHides` |
| the per-provider recount equals the stored counts | no client of the provider lists an ID with surrounding blanks | `BlankIDUncounted` |
| the merged configuration agrees with the new one | `BlanksDefault`: blank keys of sequence elements hold only defaults | `BlankKeyHappens` |
| coalescing is invisible at every step of a run | `AllFit`: each update that replaces a waiting one neither hides what that one leaves nor is hidden by a later one | `MislabelledUpdateLost` |
| a run-time deletion keeps the entries in step | no other source offers the ID | `FileAuthDeleted` |
| file content that is not taken in keeps the entries in step | the file offers what it did before | `EmptiedFileStale` |
| the two readings of a list of auths agree | no ID is blank without being empty | `BlankIDDiffers` |
| a snapshot brings the same keys whenever it is merged | every detail under a name that is not blank has a time | `DatedExactly` |
| a printed deduplication key stands for one request | API, model, source and auth index contain no bar | `UsagePrinting.Shifted` of any other |
| token totals agree across all levels | no merge brings a new key with a negative token total | `NegativeImportHappens` |
| FixJSON changes nothing | all apostrophes lie inside double-quoted strings | any other text |
| a path splits into its escaped keys | the first key is not empty and no key leaves a lone backslash before a dot | `BackslashBeforeDot` |
| a validated configuration is accepted | automatic thinking was not turned into an unlisted "medium", and -1 was not given as a budget | `MediumUnlistedHappens`, `AutoAsBudgetHappens` |
| validation is a normaliser | none of three listed cases | `MediumUnlistedHappens`, `BecomesZeroBudgetHappens`, `AutoRejectedLaterHappens` |

Where the code and its comments differ, the model follows the code:

- `internal/config/config.go:1224-1226` says that sequences are updated by index; the code first reorders the old
  elements by identity (`internal/config/config.go:1253`).
- `internal/config/config.go:1676-1705` is meant to delete keys the new mapping lacks; it also deletes blank keys the
  new mapping has.
- `internal/registry/model_registry.go:392-394` says that re-registering starts a fresh snapshot of a binding; marks
  left by clients that never held the model survive it.
- `internal/registry/model_registry.go:1237-1246` promises an available model of any handler type, newest first;
  listings for "gemini" carry no ID, so none is found for it, and listings for "claude" name the creation time
  otherwise, so they are not sorted by it.

## Model

| member | source | states |
|---|---|---|
| Registry.CollectModels | internal/registry/model_registry.go:238-253 | the raw IDs with repetitions, each ID once, the first metadata given for each, and the multiplicities |
| Registry.ModelRegistry.RegisterClient | internal/registry/model_registry.go:232-445 | binding a client, anew or in place, with or without models, is one step of the registry that keeps every counter right and clears the cache |
| Registry.ModelRegistry.ReconcileModels | internal/registry/model_registry.go:296-418 | the five passes over old and new models, in any order, give up the old references and take the new ones |
| Registry.ModelRegistry.AddModelRegistration | internal/registry/model_registry.go:447-486 | one more reference to one model, created if missing |
| Registry.ModelRegistry.RemoveModelRegistration | internal/registry/model_registry.go:488-521 | one reference less, with its marks, provider count and, at zero, the registration itself |
| Registry.ModelRegistry.RefreshMetadata | internal/registry/model_registry.go:376-418 | the metadata pass clears the client's marks and credits a changed provider with the references carried over |
| Registry.ModelRegistry.UnregisterClient | internal/registry/model_registry.go:572-634 | takes back exactly the client's references and marks, and keeps the counters and the cache right |
| Registry.ModelRegistry.SetModelQuotaExceeded | internal/registry/model_registry.go:640-651 | sets a mark at the current time, clears the cache, keeps the invariant |
| Registry.ModelRegistry.ClearModelQuotaExceeded | internal/registry/model_registry.go:657-667 | removes a mark, clears the cache, keeps the invariant |
| Registry.ModelRegistry.SuspendClientModel | internal/registry/model_registry.go:674-700 | suspends once: a second suspension changes neither reason nor cache |
| Registry.ModelRegistry.ResumeClientModel | internal/registry/model_registry.go:706-725 | lifts a suspension; without one, nothing changes |
| Registry.ModelRegistry.CleanupExpiredQuotas | internal/registry/model_registry.go:1216-1235 | removes exactly the marks older than the window and clears the cache only if there were any |
| Registry.ModelRegistry.GetAvailableModels | internal/registry/model_registry.go:758-784 | from the cache or not, every visible model once, as a fresh build at this moment would show |
| RegistryQueries.CheckVisible | internal/registry/model_registry.go:791-824 | whether a model is shown, and the earliest recovery among its live marks |
| RegistryQueries.BuildAvailableModels | internal/registry/model_registry.go:786-833 | the listing holds exactly the visible models, and expires at the first moment a live mark stops being live |
| RegistryQueries.SortNewestFirst | internal/registry/model_registry.go:1255-1264 | the same listings, newest first if all have a creation time |
| Registry.ModelRegistry.GetModelCount | internal/registry/model_registry.go:1002-1027 | the references left after quota marks and other suspensions, never negative |
| Registry.ModelRegistry.GetFirstAvailableModel | internal/registry/model_registry.go:1247-1276 | a model that can be served, found whenever there is one unless the handler is "gemini"; where every model shown has a creation time, none that can be served is newer |
| RegistryQueries.GetAvailableModelsByProvider | internal/registry/model_registry.go:878-994 | exactly the registered models that the recount and the marks of the provider's clients make available, each once and as one of those clients describes it; without blank-padded IDs these are the models the stored counts make available |
| Registry.ModelRegistry.ListByProvider | internal/registry/model_registry.go:878-994 | the same read from the registry's own tables, for the trimmed and lower-cased provider name |
| RegistryReconcile.ReconcileIsRebuild | internal/registry/model_registry.go:268-434 | re-registering in place leaves the registry exactly as unregistering and registering afresh would, if and only if the marks are safe |
| RegistryReconcile.ReconcileIsRebuildUpToMarks | internal/registry/model_registry.go:268-434 | counts, providers, metadata and client tables always agree with a rebuild, marks or not |
| RegistryReconcile.HeldMarksAreSafe | internal/registry/model_registry.go:580-634 | with marks only on clients that hold the model, re-registering is always a rebuild |
| RegistryReconcile.StrayMarkDiverges | internal/registry/model_registry.go:674-700 | a suspension of a client without the model makes the two differ |
| RegistrySteps.PassesReconcile | internal/registry/model_registry.go:296-418 | the incremental passes of a re-registration compose to the closed form, for a changed provider too |
| RegistryReconcile.RegisterKeepsInv | internal/registry/model_registry.go:232-445 | every registration keeps counters, provider counts and metadata equal to what the clients list |
| RegistryInvariant.UnregisterKeepsInv | internal/registry/model_registry.go:580-634 | so does unregistering |
| RegistryListing.ListingLasts | internal/registry/model_registry.go:786-833 | until the earliest recovery time, time alone changes no listing |
| RegistryRuns.StepSafe | internal/registry/model_registry.go:154-159 | every operation keeps counters and cache right, and every listing read is a fresh build's |
| RegistryRuns.RunSafe | internal/registry/model_registry.go:232-833 | in every state of every run with a non-decreasing clock the counters are the sums over the clients and no listing is stale |
| RegistryRuns.RunRebuilds | internal/registry/model_registry.go:268-434 | in every run that marks only holders, each re-registration equals a rebuild |
| RegistryQueries.RecountAgrees | internal/registry/model_registry.go:878-927 | the recount from client lists equals the stored provider counts if and only if no ID of the provider has surrounding blanks |
| RegistryQueries.BlankIDUncounted | internal/registry/model_registry.go:903-913 | an ID with a leading blank is stored with count 1 and recounted as 0 |
| RegistryQueries.AvailableIsVisible | internal/registry/model_registry.go:1002-1027 | a model with a positive count is always visible in listings |
| RegistryQueries.AvailableIsListed | internal/registry/model_registry.go:1247-1276 | and stands in the listing however it is sorted |
| RegistryBindings.RegisterBinds | internal/registry/model_registry.go:232-445 | every entry with an ID counts once for the client, under the given provider and with the first metadata given; a client that lists nothing is unknown |
| RegistryBindings.RegisterDescribes | internal/registry/model_registry.go:376-418 | each listed model, and its provider's copy, carries the first metadata given |
| RegistryBindings.RegisterSpares | internal/registry/model_registry.go:232-445 | other clients keep all bindings, and their marks on models that stay |
| RegistryBindings.RegisterUnmarks | internal/registry/model_registry.go:392-394 | a known client loses its marks on models it gives up or lists again |
| RegistryBindings.RegisterElsewhere | internal/registry/model_registry.go:296-418 | models listed neither before nor now are untouched |
| RegistryMarks.MarksExactly | internal/registry/model_registry.go:640-725 | each call about marks sets or lifts exactly the mark it names, cleanup exactly those five minutes old, and nothing else changes |
| RegistryMarks.QuotaMarkLasts | internal/registry/model_registry.go:190 | a quota mark counts for exactly five minutes |
| RegistryMarks.AvailableExactly | internal/registry/model_registry.go:1002-1027 | the count is what marked clients leave over, less the clients marked twice, or zero |
| RegistryMarks.VisibleExactly | internal/registry/model_registry.go:791-824 | with no suspension but for quotas a registered model is shown; otherwise it must have listings left over after marked clients, less those marked twice |
| RegistryMarks.ShownByExactly | internal/registry/model_registry.go:940-975 | the same for one provider, with the marks of its clients alone |
| RegistryMarks.PromiseKept | internal/registry/model_registry.go:820-823 | a model is shown whenever a listing is left over or only quotas stand in the way, if and only if clients marked twice do not outnumber what is left over |
| RegistryMarks.MarkedTwiceHides | internal/registry/model_registry.go:820-823 | one client over quota and suspended hides a model that a second client could serve |
| RegistryMarks.LeftOver | internal/registry/model_registry.go:1002-1027 | where clients list a model once each, something is left over if and only if an unmarked client lists it |
| RegistryMarks.ListingExactly | internal/registry/model_registry.go:786-833 | a listing shows each visible model once, as it is described |
| RegistryQueries.ShownAsDescribed | internal/registry/model_registry.go:903-927 | a provider's model is shown as one of its clients lists it |
| ConfigMerge.FindMapKeyIndex | internal/config/config.go:1294-1304 | the first entry with the key, or -1 |
| ConfigMerge.PruneMissingMapKeys | internal/config/config.go:1676-1705 | deletes in place exactly the entries whose trimmed key is blank or missing in the new mapping |
| ConfigMerge.PruneKnownDefaultsInNewNode | internal/config/config.go:1358-1392 | filters default-valued and emptied entries at every depth |
| ConfigMerge.MatchSequenceElement | internal/config/config.go:1496-1537 | the first unused element with the same identity or value, else the first that is structurally equal |
| ConfigMerge.ReorderSequenceForMerge | internal/config/config.go:1474-1494 | each new element gets the old one it continues, or a gap |
| ConfigMerge.MergeMappingPreserve | internal/config/config.go:1188-1222 | the fold over the new entries: merge under a known key, append a pruned value that is no default; a node that is no mapping is copied over the old one |
| ConfigMerge.MergeNodePreserve | internal/config/config.go:1227-1290 | the merge of scalars, mappings and sequences, with a null kept for an empty sequence |
| Yaml.PicksDistinct | internal/config/config.go:1484-1493 | no old element is put in two places |
| Yaml.PicksGreedy | internal/config/config.go:1496-1537 | an element continues an old one that it matches, and none only if all that it matches are taken by earlier elements |
| YamlMerge.DroppedIsDefault | internal/config/config.go:1212-1218 | a new value that is dropped has only zero or known default leaves |
| YamlMerge.MergeAgrees | internal/config/config.go:1188-1290 | every new entry has an agreeing value in the result or is absent because all of it is default, whatever the old tree |
| YamlMerge.MergeAgreesExactly | internal/config/config.go:1188-1290 | this holds for all old trees if and only if blank keys in mappings that are sequence elements hold only defaults |
| YamlMerge.BlankKeyHappens | internal/config/config.go:1265-1268 | a blank key holding the number 1 in a sequence element is lost when a tree is merged with itself |
| YamlMerge.OldOrderKept | internal/config/config.go:1185-1222 | old keys keep their places, unmentioned entries their values, and exactly the new keys with non-default values follow in order |
| YamlMerge.PrunedFree | internal/config/config.go:1356-1392 | no mapping entry of what is added under a new key, at any depth, is a default or an empty collection |
| YamlMerge.EmptyElementStays | internal/config/config.go:1387-1391 | elements of sequences are not removed: one of which pruning leaves nothing stays as an empty mapping |
| YamlDefaults.LeafExactly | internal/config/config.go:1323-1405 | a scalar is a default if and only if it is one of the written-out zeros or one of the four settings at its path |
| YamlMerge.NewScalarKept | internal/config/config.go:1208-1219 | a scalar under a key that the old mapping lacks is written if and only if it is none of these |
| YamlMerge.NewZeroDropped | internal/config/config.go:1212-1218 | a new value with only zero leaves is not written |
| YamlMerge.NullKept | internal/config/config.go:1242-1252 | an old null stays for an empty new sequence |
| YamlElements.IdentityExactly | internal/config/config.go:1539-1575 | a mapping is identified by its foremost identifying key that has a value, else by its first entry that says anything |
| YamlElements.SameIdentity | internal/config/config.go:1501-1512 | identified mappings are the same element if and only if key and value are, provided no key contains "=" |
| YamlElements.EqualsConfuses | internal/config/config.go:1544-1548 | with such keys different mappings pass for the same |
| YamlElements.StructureExactly | internal/config/config.go:1596-1637 | trees are structurally equal if and only if they are equal without tags and surrounding blanks |
| YamlElements.PicksChosen | internal/config/config.go:1474-1537 | a new element continues the first open old one with its value or identity, else the first open one of its structure, else none |
| YamlElements.ElementKeysExactly | internal/config/config.go:1265-1268 | an element built on an old one keeps no key that the new one lacks |
| AuthUpdates.ReplaceExactly | internal/watcher/dispatcher.go:152-158 | replacing a waiting update has the effect of appending the new one if and only if nothing behind it changes what the new one leaves and what the old one leaves is overwritten or was so before |
| AuthUpdates.RunDeliversExactly | internal/watcher/dispatcher.go:139-215 | in any run, with any updates, delivered, then batch, then pending updates have at every step the effect of all dispatched ones uncoalesced if and only if every update fits when it is queued |
| AuthUpdates.RunDelivers | internal/watcher/dispatcher.go:139-215 | updates that name their entry always fit, so every run of them delivers; the order lists exactly the pending keys once each |
| AuthUpdates.CoalescedPair | internal/watcher/dispatcher.go:165-170 | of two updates alone the first may be dropped if and only if the consumer ignores it or both concern the same entry |
| AuthUpdates.MislabelledUpdateLost | internal/watcher/dispatcher.go:152-170 | an auth whose ID is not its update's is replaced while it waits and never delivered |
| AuthUpdates.ApplyExactly | internal/watcher/dispatcher.go:42-78 | an addition needs an auth with an ID, a deletion an ID of its own or of its auth; anything else is ignored |
| AuthOrder.RunWaitsLatest | internal/watcher/dispatcher.go:139-163 | in every run what waits under an ID is the latest update sent with it |
| AuthOrder.OneWaits | internal/watcher/dispatcher.go:152-158 | no two updates wait with the same ID |
| AuthOrder.RunInOrder | internal/watcher/dispatcher.go:139-215 | in every run in which no ID is sent twice, updates are delivered in the order in which they were sent, and none is lost |
| AuthOrder.AnonymousWait | internal/watcher/dispatcher.go:165-170 | updates without an ID are not coalesced unless action and time are the same |
| AuthSources.ReadingsAgree | internal/watcher/clients.go:283-292 | the per-file and the refresh reading of a list agree if and only if no ID is blank without being empty |
| AuthSources.BlankIDDiffers | internal/watcher/clients.go:285-288 | an ID that is one blank is kept by the refresh and dropped for a single file |
| AuthSources.RefreshReflects | internal/watcher/dispatcher.go:80-97 | a full refresh yields exactly the entries that configuration, files and running program offer |
| AuthSources.ContentsExactly | internal/watcher/clients.go:73-127 | a scan takes exactly the files that can be read and are not empty |
| AuthSources.RuntimeDeletion | internal/watcher/dispatcher.go:60-71 | a run-time deletion stays in step if and only if no other source offers the ID |
| AuthRuns.FileAuthDeleted | internal/watcher/dispatcher.go:60-71 | deleting the ID of a file's auth at run time removes an entry that a refresh would bring back |
| AuthDiff.DiffMinimal | internal/watcher/dispatcher.go:122-134 | each update is the one its entry needs, and without force none concerns an unchanged entry |
| AuthDiff.DiffExactly | internal/watcher/dispatcher.go:119-136 | an update is sent if and only if its entry is new, has another body or is forced, or is to go and not offered; each once |
| AuthDiff.DiffLeads | internal/watcher/clients.go:256-281 | a consumer with entries authEqual to the old ones ends with entries authEqual to the new ones |
| AuthDiff.RefreshLeads | internal/watcher/dispatcher.go:99-137 | the updates of a refresh turn the old entries into the new state, up to authEqual |
| AuthRuns.RunIsRefresh | internal/watcher/clients.go:149-281 | after any run of file and run-time changes between disjoint sources, the index holds exactly what each file contributes and the entries are those of a full refresh, up to authEqual |
| AuthRuns.WriteIsRead | internal/watcher/clients.go:149-236 | readable, well-formed content that is not empty is known afterwards; if it is new, the file is indexed with what it offers and that stands for what it offered |
| AuthRuns.RemovalForgets | internal/watcher/clients.go:238-254 | a removed file is forgotten with all it offered |
| WatcherRuns.RunKnows | internal/watcher/clients.go:149-254 | at every moment the watcher knows the usable contents last written and the auths announced and not deleted |
| AuthRuns.IgnoredWrite | internal/watcher/clients.go:149-184 | content that is unreadable, empty, malformed or known changes nothing, and leaves the entries where a refresh of the changed files would if and only if the file offers what it did |
| AuthRuns.EmptiedFileStale | internal/watcher/clients.go:155-158 | a file emptied after offering an auth leaves an entry that a refresh would drop |
| AuthRuns.ConsumerCatchesUp | internal/watcher/dispatcher.go:172-194 | a consumer starting from nothing ends with the watcher's current entries |
| AuthRuns.NoNews | internal/watcher/dispatcher.go:122-134 | an unforced refresh that finds nothing new sends nothing |
| WatcherRuns.StepGood | internal/watcher/dispatcher.go:42-215 | every change, refresh, reload, drain and delivery between disjoint sources keeps index, entries and consumer right |
| WatcherRuns.RunReachesConsumer | internal/watcher/dispatcher.go:42-215 | at every moment of every run of these, interleaved, a consumer that started from nothing ends with what a full refresh of the known files and run-time auths would make, and has it once nothing waits |
| Watcher.AuthSliceToMap | internal/watcher/clients.go:283-292 | the last auth for each ID that is not blank, keyed by its own ID |
| Watcher.ListAuths | internal/watcher/dispatcher.go:87-93 | all run-time auths, in any order |
| Watcher.Diff | internal/watcher/dispatcher.go:122-134 | exactly the needed updates, each entry at most once, in any order of both maps |
| Watcher.AuthWatcher.DispatchAuthUpdates | internal/watcher/dispatcher.go:139-163 | queues the updates in turn, replacing those already waiting under an ID; nothing without a queue |
| Watcher.AuthWatcher.NextPendingBatch | internal/watcher/dispatcher.go:196-215 | drains all pending updates in order and leaves none |
| Watcher.AuthWatcher.DeliverOne | internal/watcher/dispatcher.go:186-192 | delivers the next update of the batch |
| Watcher.AuthWatcher.PrepareAuthUpdates | internal/watcher/dispatcher.go:99-137 | the new entries, and exactly the updates that lead to them, or none without a queue |
| Watcher.AuthWatcher.ComputePerPathUpdates | internal/watcher/clients.go:256-281 | takes out what a file no longer contributes, puts in what it does, and returns exactly the needed updates |
| Watcher.AuthWatcher.AddOrUpdateClient | internal/watcher/clients.go:149-236 | takes new content into hashes, index and entries and feeds the consumer; unreadable, empty, malformed or known content changes nothing |
| Watcher.AuthWatcher.RemoveClient | internal/watcher/clients.go:238-254 | forgets a file and all it contributed, and feeds the consumer |
| Watcher.AuthWatcher.DispatchRuntimeAuthUpdate | internal/watcher/dispatcher.go:42-78 | does to run-time auths and entries what the consumer will do |
| Watcher.AuthWatcher.RefreshAuthState | internal/watcher/dispatcher.go:80-97 | leaves the entries in step with what it reads; where they were already, nothing changes up to authEqual and, unforced, nothing is sent |
| Watcher.AuthWatcher.RescanAuthFiles | internal/watcher/clients.go:73-127 | hashes and index become exactly those of the files read |
| Watcher.AuthWatcher.ReloadClients | internal/watcher/clients.go:62-136 | a reload refreshes the entries and feeds the consumer; with a rescan it brings hashes, index and entries in step, without one hashes and index stay |
| UsageState.AddConserves | internal/usage/logger_plugin.go:155-226 | one more detail keeps requests, failures, tokens, day and hour buckets conserved at every level |
| Usage.RequestStatistics.Record | internal/usage/logger_plugin.go:155-213 | stores one detail under its API and model and counts it in every total, if statistics are enabled |
| Usage.RequestStatistics.RecordImported | internal/usage/logger_plugin.go:358-381 | the same for an imported detail, whose negative token total is counted as zero above the API |
| Usage.RequestStatistics.CollectSeen | internal/usage/logger_plugin.go:303-316 | the keys of exactly the stored details |
| Usage.RequestStatistics.MergeSnapshot | internal/usage/logger_plugin.go:294-356 | in any order of its maps, with a clock reading for each detail without a time, a union on keys: one detail of the snapshot stored for each new key, old details kept as prefixes, added plus skipped the details under non-blank names |
| UsageMerge.ReplayIsMerge | internal/usage/logger_plugin.go:318-353 | storing first occurrences step by step is such a union and conserves every sum |
| UsageMerge.MergeTotals | internal/usage/logger_plugin.go:358-381 | the totals grow by exactly the new keys, their failures and non-negative token amounts |
| UsageMerge.MergeTwice | internal/usage/logger_plugin.go:292-356 | the same snapshot with non-zero timestamps, merged again at any time, adds nothing and changes no total |
| UsageMerge.MergeCommutes | internal/usage/logger_plugin.go:294-356 | two snapshots with non-zero timestamps, merged in either order and each at its own time, give the same keys, totals and number added |
| UsageMerge.MergeCommutesUndated | internal/usage/logger_plugin.go:340-342 | so do any two snapshots whose details get the same times in both orders |
| UsageMerge.DatedExactly | internal/usage/logger_plugin.go:340-343 | a snapshot brings the same keys at whatever time it is merged if and only if every detail under a name that is not blank has a timestamp |
| UsageMerge.ExportRestores | internal/usage/logger_plugin.go:229-285 | an export of a tidy store, imported into an empty one, restores exactly its keys, each counted once in requests, successes, failures and tokens |
| UsageMerge.ExportBack | internal/usage/logger_plugin.go:229-285 | imported back into the same store it adds nothing |
| UsageRuns.RunConserved | internal/usage/logger_plugin.go:155-381 | in every run of records and step-by-step merges all sums agree, the token sums across levels if and only if no merge brings a new key with a negative total |
| UsageRuns.NegativeImportHappens | internal/usage/logger_plugin.go:358-370 | a merged detail with total -5 counts no token overall but -5 under its API |
| UsageRecords.DedupExactly | internal/usage/logger_plugin.go:383-400 | keys agree if and only if API, model, instant, source, auth index, failure and all token counts do |
| UsageRecords.TwoMerged | internal/usage/logger_plugin.go:294-356 | two dated details merged into empty statistics are both stored and counted if and only if they differ in one of these |
| UsageRecords.MergeKnows | internal/usage/logger_plugin.go:294-356 | after a merge every request of the snapshot under a named API is stored |
| UsageRecords.MergeKnowsOnly | internal/usage/logger_plugin.go:294-356 | and none that was neither stored before nor in the snapshot |
| UsageRecords.NormaliseExactly | internal/usage/logger_plugin.go:461-469 | a missing token total is what was read, written and thought, and the cached tokens if that is zero |
| UsageRecords.AddStoresOnce | internal/usage/logger_plugin.go:179-226 | a request is counted once in the totals, its day and its hour, and appended under its API and model; the rest stays |
| UsageRecords.ShownExactly | internal/usage/logger_plugin.go:177-178 | day and hour are those that the wall clock of the time's zone shows |
| UsagePrinting.PrintedExactly | internal/usage/logger_plugin.go:386-399 | a printed key stands for one key if and only if none of its names contains a bar |
| FixJson.FixJSON | internal/util/translator.go:109-223 | the scanner with its output buffer computes the specified text |
| FixJson.FixIdempotent | internal/util/translator.go:91-108 | repairing twice is repairing once, for every text |
| FixJson.FixIdentity | internal/util/translator.go:91-108 | a text is unchanged if and only if all its apostrophes lie inside double-quoted strings, as they do in every output |
| FixJson.FixPreservesMeaning | internal/util/translator.go:109-223 | the output has the tokens of the input, with each single-quoted literal as a double-quoted one denoting the same characters |
| SignatureCache.SignatureStore.CacheSignature | internal/cache/signature_cache.go:101-119 | stores a signature of enough bytes under group and hash, and nothing otherwise |
| SignatureCache.SignatureStore.GetCachedSignature | internal/cache/signature_cache.go:123-169 | answers as the flat table with a sliding time to live; a non-empty answer is valid for the same model |
| SignatureCache.SignatureStore.PurgeExpiredCaches | internal/cache/signature_cache.go:78-97 | removes exactly the expired entries and leaves the flat table unchanged |
| SignatureCache.SignatureStore.ClearSignatureCache | internal/cache/signature_cache.go:172-182 | clears one model group, or all |
| SignatureCache.SweepRefines | internal/cache/signature_cache.go:78-97 | buckets swept at any time hold exactly the unexpired entries of the flat table |
| SignatureCache.RunRefines | internal/cache/signature_cache.go:78-198 | in every run the buckets answer as the flat table they refine |
| SignatureCache.PurgesInvisible | internal/cache/signature_cache.go:67-97 | two caches holding the unexpired part of the same entries, one swept at any times and one never, answer every read of a run alike |
| SignatureCache.Run | internal/cache/signature_cache.go:78-198 | any sequence of calls on the buckets answers as the flat table does |
| SignatureLife.SharingExactly | internal/cache/signature_cache.go:189-198 | models share signatures if and only if they are the same or of one family: those that mention "gpt", else "claude", else "gemini" |
| SignatureLife.BytesExactly | internal/cache/signature_cache.go:105-107 | the length that counts is that of the UTF-8 encoding |
| SignatureLife.ReadAfterStore | internal/cache/signature_cache.go:101-169 | for three hours all models that share it get a signature of fifty bytes or more for its text, then none; other answers stay |
| SignatureLife.ReadAfterRead | internal/cache/signature_cache.go:153-168 | a read gives three more hours, or ends what is too old |
| SignatureLife.ReadElsewhere | internal/cache/signature_cache.go:123-169 | and changes no other answer |
| SignatureLife.ReadAfterClear | internal/cache/signature_cache.go:172-182 | clearing takes exactly the answers of models that share, or all |
| SignatureLife.ValidExactly | internal/cache/signature_cache.go:185-187 | valid are fifty bytes, or the skip marker for "gemini" models |
| Thinking.ClampLevel | internal/thinking/validate.go:218-259 | a supported level as it is, an unsupported standard one as the nearest supported |
| Thinking.NearestIsNearest | internal/thinking/validate.go:218-259 | the chosen level is among the supported ones and none is nearer, ties going lower |
| Thinking.ClampedSupported | internal/thinking/validate.go:218-259 | clamping yields a supported level if and only if the level was one or it and some supported level are standard |
| Thinking.ValidateConfig | internal/thinking/validate.go:38-165 | the stages of the validation, field by field, compute the specified result or error |
| Thinking.ValidatedIsAccepted | internal/thinking/validate.go:38-165 | a successful result is accepted by the model if and only if neither exception applies |
| Thinking.ValidationIsNormalising | internal/thinking/validate.go:56-211 | validating the result again for the same formats returns it unchanged if and only if none of three exceptions applies |
| Thinking.ValidateAccepted | internal/thinking/validate.go:38-165 | both results for the public function with its provider formats |
| ThinkingTables.LevelBecomesBudget | internal/thinking/validate.go:71-88 | on a model with budgets only each level becomes its written-out budget, fitted into the range |
| ThinkingTables.HigherIsMore | internal/thinking/convert.go:11-22 | a higher level is worth more |
| ThinkingTables.BudgetReads | internal/thinking/convert.go:77-98 | a budget reads as a level if and only if that is the lowest of the first five worth as much, or the fifth |
| ThinkingTables.LevelSurvives | internal/thinking/convert.go:42-98 | the first five levels survive the way to a budget and back |
| ThinkingTables.BudgetBecomesLevel | internal/thinking/validate.go:89-103 | on a model with levels only a budget becomes the level it reads as, or the nearest listed one |
| ThinkingTables.UnlimitedBudgetStays | internal/thinking/validate.go:262-310 | without range and levels any positive budget stays |
| ThinkingTables.BudgetFits | internal/thinking/validate.go:130-138 | on a model with a range, with or without levels, a budget out of range is an error from a body of the same provider family, otherwise fitted |
| ThinkingTables.ListedLevelStays | internal/thinking/validate.go:114-128 | a listed level stays |
| ThinkingTables.UnlistedLevel | internal/thinking/validate.go:114-128 | an unlisted level is an error within a family, across families the nearest listed one |
| ThinkingTables.FamilyExactly | internal/thinking/validate.go:349-373 | the two families of three formats each |
| ThinkingTables.NoneGranted | internal/thinking/validate.go:145-162 | no thinking is granted for "claude" and where the range allows zero, otherwise the least |
| ThinkingTables.AutoBecomesMiddle | internal/thinking/validate.go:177-211 | automatic thinking that is not allowed becomes the middle of the range, or "medium" |
| Thinking.MediumUnlistedHappens | internal/thinking/validate.go:177-211 | a level-only model without "medium" is given "medium" |
| Thinking.AutoAsBudgetHappens | internal/thinking/validate.go:262-310 | the budget -1 passes through and is in no range |
| Thinking.BecomesZeroBudgetHappens | internal/thinking/validate.go:262-310 | the budget -2 is raised to 0, which a second validation turns into no thinking |
| Thinking.AutoRejectedLaterHappens | internal/thinking/convert.go:42-45 | the level "AUTO" becomes the budget -1, which a second validation rejects |
| GjsonPath.UnescapeGJSONPathKey | internal/util/gemini_schema.go:745-760 | the loop over bytes computes the specified unescaping |
| GjsonPath.SplitGJSONPath | internal/util/gemini_schema.go:762-788 | the loop over bytes splits at exactly the unescaped dots |
| GjsonPath.UnescapeEscape | internal/util/gemini_schema.go:738-760 | unescaping gives a key back if and only if each of its backslashes is last or stands before an escaped character |
| GjsonPath.SplitPath | internal/util/translator.go:36-44 | the path built by walking a document splits into the escapes of its keys if and only if the first key is not empty and no key is broken |
| GjsonPath.BackslashBeforeDot | internal/util/gemini_schema.go:762-788 | a key ending in a backslash swallows the dot before the next key |
| GjsonPath.RoundTrip | internal/util/gemini_schema.go:662-788 | for keys without backslashes the path splits into the escapes and each unescapes to its key |
| GjsonPath.EscapeGuards | internal/util/gemini_schema.go:738-743 | the escape of a key without backslashes has no bare dot, star or question mark |

## Left out

Registry:

- Registry.ModelRegistry.GetFirstAvailableModel: where a creation time is missing from a listing any order is allowed, because the comparison is then no order.
- Registry.ModelRegistry.GetAvailableModels: lists pairs of handler and metadata; how a handler renders them as JSON maps, and the deep copies made of them, are not modelled.
- Registry.ModelRegistry.RegisterClient: holds registrations as values in the `models` field, so sharing of one registration object is not captured; the time of the last update is not kept.
- RegistryQueries.GetAvailableModelsByProvider: says that some client of the provider describes a model as shown, not which one, which depends on the order of a map.
- Hooks, logging, the provider ranking of GetModelProviders, and lookups that only read one table.
- A nil map or a nil quota pointer counts as an empty map or no entry.
- Each locked method is one atomic step; interleavings inside a method are not modelled. The same holds for every other core.

Configuration:

- ConfigMerge.MergeNodePreserve: works on tree values and returns the new tree, because nodes rewritten in place through recursive calls would need a footprint for every subtree; update in place is modelled only for the lists of entries and elements.
- Comments, styles, anchors, aliases, and fields a node keeps but its kind does not use. Mapping keys are scalars and come in pairs with their values, as every parsed document has them.
- YamlMerge.MergeAgrees: needs unique keys in the new configuration, which the encoder of a struct always produces; the old tree is arbitrary.
- Loading a configuration, its validation and migration, and the steps before the merge that remove legacy keys and stale OAuth mappings. Saving and loading is not the identity: a zero under a new key is dropped even where the default on loading is not zero.
- Keys the new configuration lacks stay in mappings outside sequences, as in the code.

Watcher:

- Synthesis of auths from configuration and files is a function parameter that may use the time only in the stamps which authEqual ignores, and that yields no blank IDs. Contents stand for their own hashes.
- The consumer is a map updated by upsert and delete.
- WatcherRuns.RunReachesConsumer: is for run-time updates that name the entry they concern; `RunDeliversExactly` says what happens to others. A refresh without a rescan is one that finds the files as known.
- Watcher.AuthWatcher.ReloadClients: does not model the filter by OAuth providers, which drops entries without telling the consumer.
- Switching or stopping the queue, persistence, path normalisation and the reload callback.
- A missing configuration, under which file changes are ignored.
- A reload reads the auth directory twice; the model takes both readings to be the same.

Usage:

- Details, API and model statistics are values inside the class's maps; integer overflow is not modelled.
- UsageMerge.KeysMerged: takes a deduplication key to be the fields that it is printed from; `UsagePrinting.PrintedExactly` says for which keys that is so.
- Resolving API key and success from a request context is a parameter of Record.

Other cores:

- Lower-casing knows ASCII letters only; strings are valid UTF-8.
- SignatureCache: the hash of a text is a function parameter. The race between a sweep and a writer on a detached bucket is outside the sequential claim.
- Thinking: extraction from request bodies, the provider appliers and the logging of clamps.
- GjsonPath: the schema passes built on JSON path queries, whose meaning lies in a library that is not part of this model.
- Servers, storage back ends, login flows, the terminal interface and the WebSocket relay are not part of this model.
