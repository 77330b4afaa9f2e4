# Verified model of atlas-core

A Dafny model of the core of `atlas-core`: the object-file write protocol over database rows, disk bytes and
a health flag; the service over its in-memory store, with delete rules, cascades, task lifecycle and catalog
pinning; the event hub, and the replica a subscriber can keep; and the checker and validator of command
parameter schemas. `dafny verify dfyconfig.toml` checks all of it.

## How it is organised

Code that updates state in place is a class with the same fields, whose methods follow the source step by
step: `ObjectFiles.FileStore`, `PostgresStore.Store`, `UploadHandler.Handler`, `EventHub.Hub`,
`MemoryStores.MemoryStore`, `Service.Services`, `ActiveCatalog.Active`. Each method is proved against a
specification on values, and the properties over whole runs are lemmas about that specification:

- `FileProtocol` says what one call may do to database, disk and flag for each way it can end. The store's
  methods end in one of these outcomes, and `EveryRun` is about all sequences of them. Every fallible step has
  a fault flag that decides whether it fails.
- `FileContents` says what every file holds after any such sequence.
- `ConcurrentAppends` interleaves the steps of appends to one file under the row lock, down to the single
  write, and tells committed calls from successful ones. `AppendRefinement` ties its steps to the outcomes.
- `ServiceSpec` gives, for each of eighteen calls, when it is accepted, what it leaves and what it publishes.
  `Services.Serve` shows that the methods do just that; `Integrity`, `TaskLife`, `CatalogFiles` and `Replica`
  are about all runs.
- `EventHub` interleaves sends, evictions, subscriptions, cancels and receives. The mutex keeps the others
  apart; a receive does not take it and may fall inside a publish.
- `AppendWitnesses` and `TakeOver` have the calls behind the findings. `ActiveRefinement` ties the holder of
  shared maps and slices to the holder of values that the service runs on.
- `CallMeaning` says of each call what it asks for, stores and announces in the terms of its arguments and the
  stored JSON, with `Requirements` for the records and `TaskCommands` for a task's command. `BodyLimits` says
  the same of the size of a body.
- `Schema` has the two validators as methods over a declarative acceptance and satisfaction; `SchemaShape` says
  place by place what acceptance is, `SchemaMeaning` relates satisfaction to what the keywords mean, and
  `NumericBounds` and `Float64` settle the mixed numbers.

Maps are walked in no fixed order, as in Go: every such loop picks an arbitrary remaining key.

## Findings

- An append can end with bytes left behind and the health flag up: exactly when the copy lands some byte and
  then a roll-back truncation that is due fails, or none is due and the close fails (`AppendEndsSilently`,
  `Perform`; interleaved, `ConcurrentAppendsAreSequential`). `SilentAppend` has the calls.
- The refused bytes are then committed by the next append to the file (`RefusedBytesAreAdopted`,
  `RefusedBytesAreCommitted`).
- An append that commits reports an error exactly when reading its row back fails; the bytes are there although
  the caller was told otherwise (`AppendObjectFile`, `LogIsCommits`). `FailedReread` has the calls.
- `maximum` and `minimum` misjudge a float beyond 2^53 that equals an int64 bound as rounded and lies beyond
  it as written; each keyword is exact otherwise (`BoundIsExactIff`). Decoded catalogs hold no int64, so only
  a bound passed from Go code can do that (`ExactMeaning`).
- A schema whose type is the empty string is accepted together with any keywords, and then lets every value
  through (`LetsAllThroughIff`, `BlankTypeCounterexample`).
- An object ID ending in two dots passes validation, but its paths never resolve (`AbsolutePathIff`), so an
  upload under it commits its row, fails to be promoted and drops the flag (`UploadWithoutPromotionFaults`).
- If an observation already owns an object under a catalog's ID, activating that catalog succeeds, and
  deleting the observation then takes the active catalog's object away (`ActiveObjectOutlivesRunsIff`,
  `TakeOverIsReachable`). A task created in between is left with a pin that names nothing
  (`DanglingPinIsReachable`). The dangling pin is the in-memory store's alone: the database refuses a cascade
  over a pinned object (`PostgresStore.Store.DeleteObservation`), and lets it pass while no task pins it.
- Object events miss the cascade of an observation and the creation of a catalog's object (`ObjectsToldIff`,
  `UntoldChangesAreReachable`).

## Model

| member | source | states |
|---|---|---|
| FileProtocol.EveryRun | atlas-core/internal/postgres/store.go:57-586 | Over any run of uploads, appends, reads, deletes and record calls with any step failing: promoted content survives as a prefix of the recorded length, a dropped health flag stays down, and if no call ended silently the media agree whenever the store still reports ready |
| FileProtocol.SettledIff | atlas-core/internal/postgres/store.go:493-535 | From a ready, agreeing state a call leaves one exactly when it did not strand bytes without dropping the flag; `PostgresStore.Perform` says for which inputs and faults that is |
| FileProtocol.PrefixIsKept | atlas-core/internal/postgres/store.go:493-556 | No outcome at all, failed roll-backs and closes included, damages the last committed content of a promoted file |
| FileProtocol.AgreementAfterRemoval | atlas-core/internal/postgres/store.go:558-586 | Removing rows and then all their bytes keeps disk and rows in agreement, because distinct rows never share a path |
| PostgresStore.Perform | atlas-core/internal/postgres/store.go:493-535 | A call on a ready store whose media agree leaves them so exactly unless it is an append that reaches the copy, lands some byte, and whose roll-back truncation fails when one is due, or whose close fails when none is |
| AppendWitnesses.SilentAppend | atlas-core/internal/objectfiles/store.go:272-327 | Under every root and with any bodies, an upload and an append whose only fault is the close: the store reports ready and disk and rows disagree |
| AppendWitnesses.RefusedBytesAreCommitted | atlas-core/internal/postgres/store.go:508-534 | The next append then goes through and commits the refused bytes in front of its own |
| AppendWitnesses.FailedReread | atlas-core/internal/postgres/store.go:529-535 | An append in which only reading the row back fails reports an error, and its body is committed |
| FileContents.RunTells | atlas-core/internal/postgres/store.go:394-586 | Over any run, of a ready store or not, what every promoted file holds on disk and as committed is told by the outcomes: uploads, appended chunks and stranded bytes, an append committing all that is there |
| FileContents.RunAccepts | atlas-core/internal/postgres/store.go:394-586 | Over any run at whose end the store is ready, without silent ends every file is its upload followed by its committed chunks, on disk and as committed |
| FileContents.RefusedBytesAreAdopted | atlas-core/internal/postgres/store.go:504-521 | Bytes stranded silently become committed content with the next append to the file, and the media agree again |
| PostgresStore.ChooseLimit | atlas-core/internal/postgres/store.go:944-955 | The smaller of the two limits that is there, and 16 MiB exactly when neither is |
| BodyLimits.UploadAtEase | atlas-core/internal/postgres/store.go:394-479 | With nothing failing, an upload under a plain new key goes through exactly for a body of 1 to L bytes, L being the smaller limit set of the two, or 16 MiB if none is |
| BodyLimits.UploadStagedAtEase | atlas-core/internal/postgres/store.go:403-428 | The same of a staged file, which is taken out of the staging area either way |
| BodyLimits.AppendAtEase | atlas-core/internal/postgres/store.go:493-535 | The same of an append to a file that is there |
| PostgresStore.Store.AcceptPreStaged | atlas-core/internal/postgres/store.go:405-428 | A pre-staged file is taken over exactly when it is there, resolves, and has the announced non-zero size within the limit |
| PostgresStore.Store.CheckInsert | atlas-core/internal/postgres/store.go:452-468 | The row is committed exactly when the object exists, the key is free and no step fails |
| PostgresStore.Store.CommitAndPromote | atlas-core/internal/postgres/store.go:466-478 | After the commit the staged bytes are published under the row, or they stay staged and the flag drops |
| PostgresStore.Store.CreateObjectFile | atlas-core/internal/postgres/store.go:394-479 | Succeeds, and fails in its promotion after a committed row, each exactly under the stated conditions; a promotion failure keeps the staged bytes, the row and drops the flag; any other failure changes nothing and leaves no staged file it owned |
| PostgresStore.Store.Compensate | atlas-core/internal/postgres/store.go:513-533 | The roll-back restores the size the file really had; a failed roll-back or a failed commit drops the flag |
| PostgresStore.Store.AppendObjectFile | atlas-core/internal/postgres/store.go:493-535 | Committed exactly under the stated conditions, adding the whole body to file and row, and reported as a success exactly if reading the row back works too; leaves bytes behind with the flag up exactly when the copy lands some byte and the truncate due, or else the close, fails, and then exactly what landed; otherwise one of the compensated outcomes |
| PostgresStore.Store.OpenObjectFile | atlas-core/internal/postgres/store.go:537-556 | Hands out exactly the committed content of a promoted file or fails; missing or surplus bytes also drop the flag |
| PostgresStore.Store.DeleteObjectFile | atlas-core/internal/postgres/store.go:558-586 | The row goes exactly when it exists and no step fails; success also means the bytes are gone, and a failed unlink drops the flag |
| PostgresStore.Store.PostCommitDelete | atlas-core/internal/postgres/store.go:377-393 | Every path that can be removed is removed, whatever happened to the others; the flag drops exactly if one was left |
| PostgresStore.Store.DeleteObject | atlas-core/internal/postgres/store.go:344-366 | Succeeds exactly for an existing, unpinned object when no step fails; takes its file rows and bytes along |
| PostgresStore.Store.DeleteObservation | atlas-core/internal/postgres/store.go:182-207 | Succeeds exactly when the observation exists and none of its objects is pinned; cascades to those objects and their files |
| PostgresStore.Store.CreateEntity | atlas-core/internal/postgres/store.go:57-59 | A row is added exactly under a new ID of 1 to 50 characters |
| PostgresStore.Store.DeleteEntity | atlas-core/internal/postgres/store.go:101-110 | The row goes exactly when no observation and no task refers to it |
| PostgresStore.Store.CreateObservation | atlas-core/internal/postgres/store.go:132-134 | Added exactly under a new such ID with an asset that is there |
| PostgresStore.Store.CreateTask | atlas-core/internal/postgres/store.go:209-211 | Added exactly under a new such ID with an asset and a pinned object that are there |
| PostgresStore.Store.DeleteTask | atlas-core/internal/postgres/store.go:259-268 | Removes exactly that task |
| PostgresStore.Store.CreateObject | atlas-core/internal/postgres/store.go:278-294 | Added exactly under a new such ID, with an allowed kind of owner that is found |
| PostgresStore.UploadsNeedPlainIds | atlas-core/internal/objectfiles/store.go:95-112 | An upload that commits goes on to succeed, when the promotion itself does not fail, exactly unless its object ID ends in two dots |
| PostgresStore.UploadWithoutPromotionFaults | atlas-core/internal/postgres/store.go:466-478 | When nothing fails but the resolution of such an ID, the row is committed, the bytes are not promoted and the flag drops; under any other ID the upload succeeds and the flag stays |
| PostgresStore.PerformAll | atlas-core/internal/postgres/store.go:57-586 | The class runs any sequence of faulty calls, record calls included, within the protocol, so without the silent faults a ready store is one whose media agree |
| ObjectFiles.Copy | atlas-core/internal/objectfiles/store.go:124-146 | Independently of the chunking, all of the limited content lands and success is reported, or a prefix lands and an error is; how much lands is exact |
| ObjectFiles.FileStore.Stage | atlas-core/internal/objectfiles/store.go:114-158 | Succeeds exactly for valid IDs and a non-empty body within the limit when no step fails; then the body is under a fresh name; an error removes the temporary file again |
| ObjectFiles.FileStore.CleanupStagedPath | atlas-core/internal/objectfiles/store.go:203-212 | Removes that staged file and no other; a missing one is no error |
| ObjectFiles.FileStore.Promote | atlas-core/internal/objectfiles/store.go:160-173 | The staged file becomes the published one, or nothing moves |
| ObjectFiles.FileStore.Delete | atlas-core/internal/objectfiles/store.go:175-184 | Removes exactly that path; missing bytes are no error |
| ObjectFiles.FileStore.Open | atlas-core/internal/objectfiles/store.go:186-201 | Yields the file's bytes; reports a missing file apart from other errors |
| ObjectFiles.FileStore.TruncateBack | atlas-core/internal/objectfiles/store.go:253-262 | Cuts the file to the size, or pads it with zeros when it is shorter |
| ObjectFiles.FileStore.Append | atlas-core/internal/objectfiles/store.go:272-327 | Succeeds exactly under the stated conditions with the whole body added and both sizes reported; an error leaves the file grown exactly when bytes landed and the truncate due, or else the close, fails, and otherwise as it was |
| ObjectFiles.FileStore.MarkMismatch | atlas-core/internal/objectfiles/store.go:49-54 | Drops the flag with a message |
| ConcurrentAppends.ConcurrentAppendsAreSequential | atlas-core/internal/postgres/store.go:493-535 | Every interleaving, whatever fails: once all calls returned and the store is ready, the file is the starting content followed by the whole bodies of exactly the committed calls, in commit order, if and only if no step stranded bytes, and the row records its size if and only if each stranding was followed by a commit; every successful call is committed, and the callers told of a failure after a commit are exactly those whose last read failed |
| ConcurrentAppends.LogIsCommits | atlas-core/internal/postgres/store.go:521-535 | In every interleaving the log is who committed, and a logged call reports an error exactly if it took the failing read |
| ConcurrentAppends.StepKeepsBytes | atlas-core/internal/objectfiles/store.go:264-327 | Every step of every caller keeps the bytes beyond the committed ones accounted for by the lock holder's progress |
| ConcurrentAppends.StepKeepsExclusive | atlas-core/internal/postgres/store.go:494-503 | Only the holder of the row lock is past it, through every step |
| AppendRefinement.UninterruptedIsACall | atlas-core/internal/postgres/store.go:493-535 | The steps of one caller with nobody else's in between are one call of the protocol: they end in one of its outcomes, silently exactly when a step stranded bytes |
| UploadHandler.Handler.HandleUpload | atlas-core/internal/httpapi/router.go:672-797 | For every list of parts and every fault: success, and a promotion that fails after the commit, each exactly for one readable body shape the store takes; on return the staging area is unchanged, unless promotion failed, and then exactly the staged body is left and the flag is down |
| BodyLimits.RequestAtEase | atlas-core/internal/httpapi/router.go:672-797 | With nothing failing, a request with one file part goes through exactly for a body within the handler's and the store's limits; the staging area is as before |
| UploadHandler.Handler.TakeParts | atlas-core/internal/httpapi/router.go:695-768 | The loop succeeds exactly on bodies with one stageable file part followed only by form fields; it then owns one new staged file, and on an error none |
| UploadHandler.Handler.TakePart | atlas-core/internal/httpapi/router.go:705-763 | Each part is taken exactly when it may stand where it does; an error gives the staged file back |
| UploadHandler.Handler.Submit | atlas-core/internal/httpapi/router.go:780-797 | The store's call takes the staged file over; it is removed unless the error says it was kept for recovery |
| UploadHandler.ReadFormField | atlas-core/internal/httpapi/router.go:653-662 | A form field is read exactly when it arrives whole and within 64 KiB |
| Paths.LogicalPathInjective | atlas-core/internal/objectfiles/store.go:73-93 | Distinct pairs of valid IDs never share a path |
| Paths.JoinedPathIsLiteral | atlas-core/internal/objectfiles/store.go:88-93 | Joining and cleaning the three segments changes none of them |
| Paths.AbsolutePathIff | atlas-core/internal/objectfiles/store.go:95-112 | A stored path resolves to the file below the root exactly when the object ID does not end in two dots |
| Paths.DottedIdIsRefused | atlas-core/internal/model/types.go:161-175 | There are IDs that validation accepts and path resolution refuses |
| Integrity.PathScanNeverFires | atlas-core/internal/service/servicetest/stores.go:382-390 | In a store with consistent files the path-conflict scan finds nothing once the key is free |
| Float64.FromInt64Nearest | atlas-core/internal/catalog/schema.go:32-49 | The int64 to float64 conversion rounds to a nearest double (section 4.3.1 of IEEE 754-2019) |
| Float64.FromInt64TiesToEven | atlas-core/internal/catalog/schema.go:32-49 | When another double is as near, the one with the even significand is picked |
| Float64.FromInt64IsDouble | atlas-core/internal/catalog/schema.go:32-49 | Its result is a double |
| Float64.FromInt64Monotone | atlas-core/internal/catalog/schema.go:32-49 | It preserves order |
| Float64.FromInt64Exact | atlas-core/internal/catalog/schema.go:197-214 | It is exact up to 2^53 in magnitude |
| Float64.FractionsAreSmall | atlas-core/internal/catalog/schema.go:32-49 | A double with a fraction lies below 2^52 in magnitude |
| NumericBounds.BoundIsExactIff | atlas-core/internal/catalog/schema.go:55-99 | Per keyword: an accepted bound is decided as over the mathematical numbers exactly unless the value is a float beyond 2^53 that equals the rounded int64 bound and lies beyond the bound itself |
| NumericBounds.HugeFloatCounterexample | atlas-core/internal/catalog/schema.go:372-392 | That wrong verdict occurs: 2^53+4 passes a maximum of 2^53+3 |
| Schema.ValidateSchema | atlas-core/internal/catalog/schema.go:216-295 | Returns no field error, in any map order, exactly if each subschema that a value can lead to is well formed: supported keywords with readable values, and one of the seven types or the empty string unless it is empty |
| Schema.AcceptedIff | atlas-core/internal/catalog/schema.go:216-295 | The recursive acceptance predicate and the place-by-place one agree |
| SchemaMeaning.FlatSchemaIsAccepted | atlas-core/internal/catalog/schema.go:248-283 | Every well-formed object schema over well-formed scalar properties is accepted |
| SchemaMeaning.LetsAllThroughIff | atlas-core/internal/catalog/schema.go:232-289 | An accepted schema lets every value through exactly if it is empty or its type is the empty string |
| SchemaMeaning.BlankTypeCounterexample | atlas-core/internal/catalog/schema.go:244-289 | Such a schema with a minimum is accepted, and every value passes under it |
| Schema.CheckKeywordValues | atlas-core/internal/catalog/schema.go:131-195 | Keyword values pass exactly when each has the type and range its keyword needs |
| Schema.ValidateValue | atlas-core/internal/catalog/schema.go:297-407 | Accepts exactly the values that satisfy the schema, in any map order; an accepted schema is blamed only for a pattern that does not compile |
| Schema.ValidateMembers | atlas-core/internal/catalog/schema.go:300-328 | An object's members pass exactly when each conforms to its property or additional ones are allowed |
| Schema.ValidateItems | atlas-core/internal/catalog/schema.go:340-347 | An array's items pass exactly when all do |
| Schema.ValidateString | atlas-core/internal/catalog/schema.go:348-371 | A string passes exactly within its length, pattern and enum |
| Schema.ValidateNumber | atlas-core/internal/catalog/schema.go:372-392 | A number passes exactly within the bounds as compared, and integers must be whole |
| SchemaMeaning.AcceptedMeaning | atlas-core/internal/catalog/schema.go:297-447 | On an accepted schema, for any value at any depth, the validator obeys every keyword the type consults, as section 6 of JSON Schema Validation (draft 2020-12) means it, pattern and the one rounded bound aside |
| SchemaMeaning.ExactMeaning | atlas-core/internal/catalog/schema.go:297-447 | The rounding plays no part for a schema decoded from JSON, whatever the value, nor for a value without floats beyond 2^53, whatever the schema |
| Json.ToStringSlice | atlas-core/internal/catalog/schema.go:409-426 | Reads string arrays and nothing else, keeping the order |
| CustomComponents.ValidateCustomComponent | atlas-core/internal/model/types.go:328-371 | Accepts exactly the objects within the size, depth, member-count and key-length limits, stated on the paths of the tree, keys measured in UTF-8 bytes |
| CustomComponents.JsonDepth | atlas-core/internal/model/types.go:303-326 | One more than the length of a longest path, in any map order |
| CustomComponents.CountJsonFields | atlas-core/internal/model/types.go:282-301 | The number of distinct paths that lead to an object member, in any map order |
| CustomComponents.FieldCountIsUnique | atlas-core/internal/model/types.go:282-301 | There is only one such number |
| CustomComponents.WalkKeys | atlas-core/internal/model/types.go:344-370 | Passes exactly when no key at any depth is over 100 bytes long |
| CustomComponents.FieldsAreKeyedNodes | atlas-core/internal/model/types.go:282-301 | The counted members are the nodes reached by a key |
| EventHub.EveryInterleaving | atlas-core/internal/events/publisher.go:39-75 | In every interleaving of sends, evictions, receives, subscriptions and cancels a subscriber's consumed plus buffered events are a gap-free, in-order run of what was published since it subscribed; delivered events are never lost and a closed channel stays closed |
| EventHub.IdleMeansDelivered | atlas-core/internal/events/publisher.go:39-57 | While no publish is under way a registered subscriber has been handed exactly what was published since it subscribed |
| EventHub.PublishedIsARun | atlas-core/internal/events/publisher.go:39-57 | A publish taken as one step is what its sends and evictions lead to when nothing is received in between |
| EventHub.LeavesOnlyWhenFull | atlas-core/internal/events/publisher.go:39-75 | A subscriber leaves in a step exactly by its own cancel or by its eviction, and is picked for that exactly by a send that finds 32 undelivered events |
| EventHub.StepKeepsInv | atlas-core/internal/events/publisher.go:39-75 | Every step, inside a publish too, keeps each channel in step with what was published, and closed exactly when not registered |
| EventHub.Hub.Publish | atlas-core/internal/events/publisher.go:39-57 | The loops send to every subscriber with room and close and drop the full ones, in any order |
| EventHub.Hub.FanOut | atlas-core/internal/events/publisher.go:45-52 | Exactly the full subscribers are collected, the others get the event |
| EventHub.Hub.Evict | atlas-core/internal/events/publisher.go:53-56 | The collected ones are closed once and dropped |
| EventHub.Hub.Subscribe | atlas-core/internal/events/publisher.go:59-63 | A new, empty, open channel is registered |
| EventHub.Hub.Cancel | atlas-core/internal/events/publisher.go:64-74 | Closes and drops the channel if it is still registered, and is harmless otherwise |
| EventHub.Hub.Receive | atlas-core/internal/httpapi/router.go:918-929 | The stream loop takes the oldest event, and ends only when the channel is closed and drained |
| Service.Services.Serve | atlas-core/internal/service/service.go:82-473 | Each call does exactly what the machine accepts, with its effect and its one event or none, sent to the hub as a whole publish |
| Service.Services.ServeAll | atlas-core/internal/service/service.go:82-450 | Any sequence of calls on the class is a run of the machine |
| Service.Services.CreateEntity | atlas-core/internal/service/service.go:82-96 | Accepted exactly for valid input under a new valid ID; stores and announces it |
| Service.Services.PatchEntity | atlas-core/internal/service/service.go:106-128 | Accepted exactly when the merged record is valid; type and creation time stay |
| Service.Services.DeleteEntity | atlas-core/internal/service/service.go:130-143 | Accepted exactly without dependents; dependents are reported before absence |
| Service.Services.CreateObservation | atlas-core/internal/service/service.go:156-177 | Accepted exactly for an existing asset and valid JSON under a new valid ID |
| Service.Services.PatchObservation | atlas-core/internal/service/service.go:187-203 | Accepted exactly when the merged JSON is valid |
| Service.Services.DeleteObservation | atlas-core/internal/service/service.go:205-211 | Deletes it with its objects and their files |
| Service.Services.CheckNewTask | atlas-core/internal/service/service.go:217-230 | Passes exactly for an existing asset, a ready catalog that defines the command, and an asset that supports it |
| Service.Services.CreateTask | atlas-core/internal/service/service.go:213-238 | A new task is pending and pins the active catalog |
| Service.Services.LoadPinnedCatalog | atlas-core/internal/service/service.go:485-541 | Resolves an ID to the active catalog or to the stored one, checked against its hash, size and the 8 MiB limit |
| Service.Services.CheckTaskPatch | atlas-core/internal/service/service.go:253-288 | A patch passes exactly when the merge is allowed for the status and the result still satisfies the pinned catalog |
| Service.Services.PatchTask | atlas-core/internal/service/service.go:248-297 | Stores the merged JSON and nothing else of the task but its update time |
| Service.Services.CheckTransition | atlas-core/internal/service/service.go:307-323 | A transition passes exactly along the allowed edges with a reports-only merge valid for the pinned catalog |
| Service.Services.TransitionTaskStatus | atlas-core/internal/service/service.go:299-333 | A transition to the current status does nothing; others follow the allowed edges |
| Service.Services.DeleteTask | atlas-core/internal/service/service.go:335-348 | Accepted exactly for an existing task that owns no object |
| Service.Services.CreateObject | atlas-core/internal/service/service.go:350-365 | Accepted exactly for a valid owner and type under a new ID |
| Service.Services.PatchObject | atlas-core/internal/service/service.go:375-394 | Accepted exactly when the patched record is valid; the owner stays |
| Service.Services.DeleteObject | atlas-core/internal/service/service.go:396-404 | Refused for the active catalog's object and for pinned ones; takes the files along |
| Service.Services.UploadObjectFile | atlas-core/internal/service/service.go:406-419 | Stores the whole body under a new key and announces the object |
| Service.Services.AppendObjectFile | atlas-core/internal/service/service.go:425-435 | Adds the whole body and records the new size |
| Service.Services.DeleteObjectFile | atlas-core/internal/service/service.go:441-450 | Removes row and bytes |
| Service.Services.Activate | atlas-core/internal/app/app.go:68-80 | Loads, materialises and sets the catalog; only success makes it active |
| Service.Services.Materialize | atlas-core/internal/catalog/catalog.go:224-268 | The object is created if missing and its file verified or written, as the specification function says |
| Service.Services.VerifyCatalogFile | atlas-core/internal/catalog/catalog.go:270-287 | True exactly when row size and read bytes equal the raw catalog |
| Service.Active.Set | atlas-core/internal/catalog/catalog.go:183-188 | The catalog becomes the active one |
| Service.Active.Clear | atlas-core/internal/catalog/catalog.go:190-195 | No catalog is active |
| Records.ValidateEntityInput | atlas-core/internal/service/service.go:566-635 | Accepts exactly the entities the component rules allow, in any order of the components |
| Requirements.EntityIff | atlas-core/internal/service/service.go:554-635 | Those are the entities of a known type, without promoted fields, whose components are each allowed for the type and sound, and for an asset include supported_commands |
| Requirements.ObservationIff | atlas-core/internal/service/service.go:637-661 | An observation needs one of three states, a sighting that is valid, and a history object of its own if it names one |
| Requirements.ObjectIff | atlas-core/internal/service/service.go:722-771 | An object needs a valid ID, a type that is not blank, an owner that is there, and the owner its type asks for |
| Requirements.TrimSpaceIs | atlas-core/internal/service/service.go:722-727 | Trimming takes the spaces at both ends and nothing else |
| Records.ValidateTaskCommandCatalog | atlas-core/internal/service/service.go:671-707 | Passes exactly when the check of the task's command does, and returns the command's type |
| TaskCommands.TaskCommandOkIff | atlas-core/internal/service/service.go:671-707 | Over checked commands that check passes exactly if some command has the type at components.command.type, and the value at components.parameters, or an empty object, conforms to its schema |
| Requirements.SupportsIff | atlas-core/internal/service/service.go:709-720 | An asset supports a command exactly if its components list the type in supported_commands.commands |
| Records.ValidateCatalog | atlas-core/internal/catalog/catalog.go:140-181 | Accepts exactly catalogs with named, distinct, described commands and accepted schemas |
| Records.Load | atlas-core/internal/catalog/catalog.go:102-122 | Returns the catalog with its hash and object ID exactly for bytes that parse and validate |
| TaskCommands.LoadsIff | atlas-core/internal/catalog/catalog.go:102-181 | A file loads exactly if it parses, has an ID and a version, and its commands have distinct snake_case types, names, descriptions and well-formed schemas |
| Records.ObjectIdInjective | atlas-core/internal/catalog/catalog.go:131-133 | Different content hashes give different object IDs |
| MemoryStores.MemoryStore.CreateEntity | atlas-core/internal/service/servicetest/stores.go:53-61 | Inserts under a new ID, refuses a taken one |
| MemoryStores.MemoryStore.UpdateEntity | atlas-core/internal/service/servicetest/stores.go:88-96 | Overwrites an existing entity only |
| MemoryStores.MemoryStore.DeleteEntity | atlas-core/internal/service/servicetest/stores.go:97-105 | Removes exactly that entity |
| MemoryStores.MemoryStore.CountEntityDependents | atlas-core/internal/service/servicetest/stores.go:106-126 | The three counts are the sizes of the sets of dependents |
| MemoryStores.MemoryStore.CreateObservation | atlas-core/internal/service/servicetest/stores.go:127-135 | Inserts under a new ID, refuses a taken one |
| MemoryStores.MemoryStore.UpdateObservation | atlas-core/internal/service/servicetest/stores.go:176-184 | Overwrites an existing observation only |
| MemoryStores.MemoryStore.DeleteObservation | atlas-core/internal/service/servicetest/stores.go:185-204 | The nested loops remove exactly the observation, the objects it owns and their files |
| MemoryStores.MemoryStore.DropFiles | atlas-core/internal/service/servicetest/stores.go:195-200 | The inner loop removes exactly the files of one object, rows and bytes |
| MemoryStores.MemoryStore.CreateTask | atlas-core/internal/service/servicetest/stores.go:205-213 | Inserts under a new ID, refuses a taken one |
| MemoryStores.MemoryStore.UpdateTask | atlas-core/internal/service/servicetest/stores.go:244-252 | Overwrites an existing task only |
| MemoryStores.MemoryStore.DeleteTask | atlas-core/internal/service/servicetest/stores.go:253-261 | Removes exactly that task |
| MemoryStores.MemoryStore.CountTaskOwnedObjects | atlas-core/internal/service/servicetest/stores.go:265-275 | The count is the size of the set of owned objects |
| MemoryStores.MemoryStore.CreateObject | atlas-core/internal/service/servicetest/stores.go:276-298 | Inserts exactly under a new ID with an owner that is found |
| MemoryStores.MemoryStore.UpdateObject | atlas-core/internal/service/servicetest/stores.go:336-344 | Overwrites an existing object only |
| MemoryStores.MemoryStore.DeleteObject | atlas-core/internal/service/servicetest/stores.go:345-364 | Refused exactly when missing or pinned; otherwise removes the object with its files |
| MemoryStores.MemoryStore.CreateObjectFile | atlas-core/internal/service/servicetest/stores.go:365-466 | From a reader: stores the whole body exactly under the stated conditions, whatever the chunking; a conflict is reported exactly for a taken key or path |
| MemoryStores.MemoryStore.CreateObjectFileFromStaged | atlas-core/internal/service/servicetest/stores.go:393-433 | From a staged file: stores it exactly when it is there with the announced non-zero size within the limit; once taken over it is removed on every path |
| MemoryStores.MemoryStore.AppendObjectFile | atlas-core/internal/service/servicetest/stores.go:477-502 | Adds the whole body and records the new length |
| MemoryStores.MemoryStore.OpenObjectFile | atlas-core/internal/service/servicetest/stores.go:503-512 | Row and bytes of an existing file |
| MemoryStores.MemoryStore.DeleteObjectFile | atlas-core/internal/service/servicetest/stores.go:513-524 | Removes exactly that row and its bytes |
| MemoryStores.MemoryStore.ListObjectFilesForObject | atlas-core/internal/service/servicetest/stores.go:525-536 | Exactly the object's rows, by file ID |
| MemoryStores.MemoryStore.ListEntities | atlas-core/internal/service/servicetest/stores.go:71-87 | A page of the one sorted listing of the matching entities, and their number; newest first, ties by ID, and every match left out comes before the page or after it |
| MemoryStores.MemoryStore.ListObservations | atlas-core/internal/service/servicetest/stores.go:145-175 | The same for observations; refused exactly for a cutoff that does not parse |
| MemoryStores.MemoryStore.ListTasks | atlas-core/internal/service/servicetest/stores.go:223-243 | The same for tasks |
| MemoryStores.MemoryStore.ListObjects | atlas-core/internal/service/servicetest/stores.go:308-328 | The same for objects |
| Integrity.RunKeepsIntegrity | atlas-core/internal/service/servicetest/stores.go:97-524 | Over any run: tasks have an existing asset and pinned object, observations an asset, objects an owner, fusion_provenance objects a track, files an object with bytes of the recorded size, and the active catalog's object is there |
| Integrity.StepKeepsIntegrity | atlas-core/internal/service/service.go:82-450 | Each call keeps all of it, unless it activates a catalog whose object an observation owns |
| Integrity.ActiveObjectOutlivesRunsIff | atlas-core/internal/catalog/catalog.go:212-268 | After an activation the active catalog's object outlives every run of calls exactly when no observation owned it before |
| Integrity.StepKeepsWell | atlas-core/internal/service/servicetest/stores.go:365-524 | With no condition at all, each call keeps file rows, bytes and keys matched |
| Integrity.Cascading | atlas-core/internal/service/servicetest/stores.go:185-204 | The cascade leaves no dangling reference |
| TakeOver.TakeOverIsReachable | atlas-core/internal/catalog/catalog.go:224-268 | For every catalog with a valid ID, accepted calls lead from the empty store to an activation over an observation's object, which the next call then removes |
| TakeOver.PinDangles | atlas-core/internal/service/service.go:213-238 | A task created after such an activation pins an object that goes with the observation |
| TakeOver.DanglingPinIsReachable | atlas-core/internal/service/servicetest/stores.go:185-204 | For every catalog and every task it allows there is a run that ends with a task whose pinned object is gone |
| TaskLife.RunContinues | atlas-core/internal/service/service.go:248-333 | Over any run that does not delete it a task's status never moves back in the order pending, acknowledged, completed or failed, its asset, pin and creation time never change, and out of pending only progress, result and error do |
| TaskLife.AcknowledgedInBetween | atlas-core/internal/service/service.go:299-333 | No run takes a task from pending to completed or failed without a time at which it is acknowledged |
| TaskLife.FrozenOnLeavingPending | atlas-core/internal/service/service.go:299-333 | Command and parameters are for ever those the task had when it left pending |
| TaskLife.RunKeepsCommanded | atlas-core/internal/service/service.go:485-541 | In every reachable state each task passes the command check of a catalog with the pinned ID |
| TaskLife.EveryTaskAsks | atlas-core/internal/service/service.go:485-541 | From the empty store on, each task of every run asks for a command of a catalog with its pinned ID, and its parameters conform to that command's schema |
| TaskLife.PinnedCatalogDefinesTask | atlas-core/internal/service/service.go:213-333 | With a collision-free hash that is the catalog the task was created under, whatever has been activated since: one of its commands has the type the task names, and the parameters conform to its schema |
| TaskLife.GuardNeverFires | atlas-core/internal/service/task_json.go:99-121 | On reachable tasks the equality guard behind a restricted merge never fires |
| TaskLife.RepeatedTaskPatch | atlas-core/internal/service/service.go:248-297 | An accepted patch is accepted again at once, whatever the clock then says, and the repeat leaves what the patch alone would have left at that time |
| TaskLife.SuccessiveTaskPatches | atlas-core/internal/service/service.go:248-297 | Two accepted patches in a row equal their right-biased override |
| TaskJson.MergeNamedSections | atlas-core/internal/model/types.go:220-230 | Key by key: a patched key has the patch's value, a nulled one is gone, the others are as they were, in any order |
| TaskJson.MergeReportable | atlas-core/internal/service/task_json.go:30-73 | Accepts exactly patches confined to progress, result and error; then each patched report has the patch's value and all else is as it was |
| TaskJson.SectionsCompose | atlas-core/internal/model/types.go:220-230 | A later patch overrides an earlier one, deletions included |
| TaskJson.RestrictedIsConfined | atlas-core/internal/service/task_json.go:37-73 | A restricted merge changes nothing but progress, result and error |
| TaskJson.GuardFiresIff | atlas-core/internal/service/task_json.go:99-121 | On arbitrary JSON the guard fires exactly for a non-empty patch of a task without components |
| TaskJson.RestrictedCompose | atlas-core/internal/service/task_json.go:37-73 | Restricted patches go through one after the other exactly when each would alone, and then compose |
| CallMeaning.EntityCreated | atlas-core/internal/service/service.go:82-96 | Accepted exactly for a sound entity under a new valid ID; stored as the arguments say, announced as created |
| CallMeaning.EntityPatched | atlas-core/internal/service/service.go:106-128 | Subtype, alias and sections are patched field by field and key by key, all else stays; announced as changed |
| CallMeaning.EntityPatchIsAccepted | atlas-core/internal/service/service.go:106-128 | A patch is accepted exactly if what it makes of the entity is sound |
| CallMeaning.EntityDeletedMeans | atlas-core/internal/service/service.go:130-143 | Accepted exactly if no task, observation or object refers to it; nothing else goes |
| CallMeaning.ObservationCreated | atlas-core/internal/service/service.go:156-177 | Accepted exactly for a sound observation of an asset under a new valid ID; stored and announced as created |
| CallMeaning.ObservationPatched | atlas-core/internal/service/service.go:187-203 | Its sections are patched key by key, all else stays; announced as changed |
| CallMeaning.ObservationPatchIsAccepted | atlas-core/internal/service/service.go:187-203 | A patch is accepted exactly if what it makes of the observation is sound |
| CallMeaning.ObservationDeletedMeans | atlas-core/internal/service/service.go:205-211 | Exactly the observation, the objects it owns and their files go |
| CallMeaning.TaskCreated | atlas-core/internal/service/service.go:213-238 | Accepted exactly if the active catalog has a command the task asks for, with conforming parameters, that the asset supports; stored pending and pinned, announced as created |
| CallMeaning.PendingPatchIsAccepted | atlas-core/internal/service/service.go:248-288 | While pending a patch is accepted exactly if the merged task asks for a supported command of the pinned catalog, with conforming parameters |
| CallMeaning.LaterPatchIsAccepted | atlas-core/internal/service/service.go:248-288 | Later it is accepted exactly if it names reports only and the task asks for a command of the pinned catalog |
| CallMeaning.TaskPatched | atlas-core/internal/service/service.go:248-297 | The stored task has the patch's sections while pending, and the patch's reports and nothing else after that |
| CallMeaning.TransitionIsAccepted | atlas-core/internal/service/service.go:299-323 | Accepted exactly for the current status, or along an edge with a patch that names reports only and a task that asks for a command of the pinned catalog |
| CallMeaning.TaskMoved | atlas-core/internal/service/service.go:299-333 | The moved task has the new status and the patch's reports; a transition to the current status does nothing |
| CallMeaning.TaskDeletedMeans | atlas-core/internal/service/service.go:335-348 | Accepted exactly if the task owns no object |
| CallMeaning.ObjectCreated | atlas-core/internal/service/service.go:350-365 | Accepted exactly for a sound object under a new ID; stored with the trimmed type, announced as created |
| CallMeaning.ObjectPatched | atlas-core/internal/service/service.go:375-394 | Type and sections are patched, the result is sound, the owner stays |
| CallMeaning.ObjectDeletedMeans | atlas-core/internal/service/service.go:396-404 | Accepted exactly if no task pins it and it is not the active catalog's; it goes with its files |
| CallMeaning.FileUploaded | atlas-core/internal/service/service.go:406-419 | Accepted exactly for a free key of an object that is there and a body of 1 byte to the limit; the body is what is stored |
| CallMeaning.FileAppended | atlas-core/internal/service/service.go:425-435 | Accepted exactly for a file that is there and such a body, which goes behind the stored bytes |
| CallMeaning.FileDeleted | atlas-core/internal/service/service.go:441-450 | Row and bytes of that file go |
| CallMeaning.CatalogActivated | atlas-core/internal/catalog/catalog.go:224-268 | The activated catalog has an object, made for it if there was none, and a file that holds its bytes |
| CallMeaning.FirstAppearance | atlas-core/internal/service/service.go:82-238 | Over any run, an entity, observation or task that was not there before was told by a created event when it appeared, as it was then |
| CallMeaning.Appears | atlas-core/internal/service/service.go:82-348 | In one call, a record that appears is told as created and one that changes as changed |
| Replica.ReplicaIsCurrent | atlas-core/internal/service/service.go:464-473 | Whatever happened since it subscribed, receives inside a publish included, a registered subscriber that absorbs what it consumed and what is buffered holds exactly the current entities, observations and tasks, unless the latest event is just on its way to it |
| Replica.ReplicaIsNeverTorn | atlas-core/internal/events/publisher.go:33-57 | Any number of delivered events, also to a dropped subscriber, absorbed in order gives a state the service did pass through |
| Replica.ServedIsARun | atlas-core/internal/service/service.go:464-473 | A served call is a run of the machine: the call, then its sends and evictions |
| Replica.EventsTell | atlas-core/internal/service/service.go:82-348 | Absorbing what a call publishes is what the call did to the view |
| Replica.QuietCallsChangeNothing | atlas-core/internal/service/service.go:299-306 | Refused calls and transitions to the current status publish nothing and change nothing |
| Replica.ObjectsToldIff | atlas-core/internal/service/service.go:205-211 | Object events tell the whole change of the objects exactly outside a cascade and the creation of a catalog's object |
| TakeOver.UntoldChangesAreReachable | atlas-core/internal/catalog/catalog.go:224-236 | Both exceptions occur: a cascade after three calls, and the first activation of a catalog |
| CatalogFiles.MaterializedIff | atlas-core/internal/catalog/catalog.go:224-287 | From any consistent state materialising succeeds exactly when the file already equals the raw catalog, or is missing and can be stored; then the file equals it |
| CatalogFiles.MaterializingAgain | atlas-core/internal/catalog/catalog.go:224-287 | Running it again changes nothing |
| CatalogFiles.PinnedResolvesIff | atlas-core/internal/service/cappedread.go:15-24 | While the stored bytes are intact the ID resolves to the catalog exactly when it is the active one or at most 8 MiB |
| CatalogFiles.MaterializedThenLoaded | atlas-core/internal/service/service.go:485-541 | After materialising and any calls that leave the file alone, other activations included, the ID still loads the same catalog |
| CatalogFiles.StepKeepsFile | atlas-core/internal/service/servicetest/stores.go:185-204 | Only an append to it, its deletion or its object's deletion can change the file |
| ActiveCatalog.CloneValue | atlas-core/internal/catalog/catalog.go:40-53 | The same tree out of new objects |
| ActiveCatalog.CloneMap | atlas-core/internal/catalog/catalog.go:55-64 | The loop copies every member, in any order |
| ActiveCatalog.Clone | atlas-core/internal/catalog/catalog.go:66-94 | The same content, sharing no map and no slice with the original |
| ActiveCatalog.Active.Set | atlas-core/internal/catalog/catalog.go:183-188 | Keeps a copy of its own |
| ActiveCatalog.Active.Get | atlas-core/internal/catalog/catalog.go:203-210 | Hands out a new copy with the content that was set |
| ActiveCatalog.Active.Clear | atlas-core/internal/catalog/catalog.go:190-195 | Nothing is active and nothing is held |
| ActiveRefinement.Set | atlas-core/internal/catalog/catalog.go:183-188 | The copying holder, type index included, and the one on values that the service runs on stay agreed, whatever the owner of the catalog writes afterwards |
| ActiveRefinement.Get | atlas-core/internal/catalog/catalog.go:203-210 | What the copying holder hands out is what the one on values has, with the type index of its commands, whatever a former receiver wrote to its copy |
| ActiveRefinement.Clear | atlas-core/internal/catalog/catalog.go:190-195 | Clearing keeps them agreed |
| ActiveCatalog.WritesAfterSetStayOut | atlas-core/internal/catalog/catalog.go:183-210 | Arbitrary writes by the owner after Set do not show in a later Get |
| ActiveCatalog.WritesAfterGetStayOut | atlas-core/internal/catalog/catalog.go:203-210 | Arbitrary writes by one caller of Get show in no other copy, earlier or later |
| ActiveCatalog.TreeIsUnique | atlas-core/internal/catalog/catalog.go:40-64 | A graph represents one tree only, so equal trees are structurally equal graphs |
| Listing.BeforeIsStrictTotal | atlas-core/internal/service/servicetest/stores.go:80-85 | The comparison is a strict total order |
| Listing.BeforeIff | atlas-core/internal/service/servicetest/stores.go:80-85 | It puts the newer first, and of equally new records the one whose ID is ahead |
| Listing.PageIsUnique | atlas-core/internal/service/servicetest/stores.go:71-87 | A listing's result is determined by the contents, however the map was walked and sorted |
| Listing.ListMatching | atlas-core/internal/service/servicetest/stores.go:308-328 | The loop yields a page of the sorted matches, and the total is their number |
| Listing.PageIsCut | atlas-core/internal/service/servicetest/stores.go:572-581 | A page holds matches only, in order; all others come before its first or after its last, as many before as the offset says |
| Listing.PagesConcatenate | atlas-core/internal/service/servicetest/stores.go:572-581 | Pages at offsets 0, L, 2L and so on concatenate to a prefix of the listing, and to all of it once they reach its end |
| Listing.ParsePagination | atlas-core/internal/model/pagination.go:18-35 | Accepts exactly limits from 1 to 100 and offsets from 0, and yields such a page |

## Left out

- HTTP routing, headers, status codes, logging and configuration: no deep state.
- SQL text and drivers: tables are maps and a transaction is atomic. A commit that reports an error although
  it took effect, and locks lost with a connection, are not modelled.
- Process crash and restart: the health flag lives in memory, and the code itself claims nothing across one.
- Concurrent service calls, and a delete that overlaps a re-upload of the same file: each call is one atomic
  step here; concurrency is modelled among appends to one file and in the hub.
- Regular expressions, the content hash, JSON parsing and encoding, RFC 3339 and snake_case matching, media
  types and sighting validation are uninterpreted functions; where it matters the hash is assumed to be
  collision-free.
- Times are integers, and a call reads the clock once.
- Strings are sequences of characters; byte lengths are modelled for component keys only.
- NaN and infinities, and the overflow of a byte limit at the top of int64.
- Content types, usage hints, event IDs, and the file list inside object events.
- Directories: creating them can fail, but they are not part of the state, and `pruneEmptyStagingParents`
  is not modelled.
- The path and symbolic-link checks on a pre-staged file are one fault flag, a staged path is its own canonical
  form, and a staged file does not change size while it is read.
- The older form of a retained path, carried in an error's details, and a handler without a file store.
- `model.JSONMap` and `map[string]any` are one type, a nil map reads as an empty one, and cloning JSON through
  its encoding is the identity on decoded values.
- `GetFullQueryState` and the plain getters of the service: they only read.
- `sort.Slice` is a stand-in insertion sort; any correct sort gives the same listing by `PageIsUnique`.
- Service.Services.Serve: publishing is the last act of each method; it is modelled as the method's
  out-parameter, sent to the hub by `Serve`.
- PostgresStore.PerformAll: its last clause asks that no append has the two faults at all; `Perform` has the
  exact condition for one call. Updates and listings of the database store change no file, owner or pin.
- TaskLife.EveryTaskAsks: assumes that the numbers of parameters and schemas are ones Go can hold, as all
  decoded ones are; likewise where parameters are said to conform.
- Integrity.RunKeepsIntegrity: `sightings_object_id` is checked when it is written but is no lasting reference.
- PostgresStore.Store.CreateObjectFile: errors of the database are one kind; only those the callers tell apart
  are distinguished.
