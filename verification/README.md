# docz-api: the ingest pipeline and the protocol that triggers it

docz-api mirrors GitHub repositories into Postgres and a Meilisearch index. A webhook (or an onboard run) enqueues
one ingest job per repository; a worker fetches HEAD, classifies the files, reconciles the rows in one transaction
behind a content-hash gate, and mirrors what changed into the index. This project models that pipeline in Dafny and
proves what it guarantees over every input, every interleaving and every run.

The code that works step by step is modelled as classes and loops, each proved equal to a function of its inputs or of
the old state; the protocols (queue, index mirror, deliveries) are state machines over lists of events, so that a
statement about `Run(INITIAL, events)` is a statement about every interleaving.

| files | part of the system |
|---|---|
| `Text`, `RepoPath`, `Seqs` | Go's string and path helpers, the two docs_dir normalisers |
| `Config`, `Pages`, `PageLaws`, `Publishing`, `Documents`, `DocumentLaws` | the classifier, the page and document builders, and which files become what |
| `Fetch`, `FetchLaws`, `Prefilter`, `Probe`, `Heads` | what is fetched from a tree, exactly when fetching less changes nothing, and what a head asks to be stored |
| `Gate`, `Tables`, `Store`, `Replacement` | the hash-gated reconcile, transactions, foreign keys |
| `IndexKeys`, `Mirror`, `Scope`, `MirrorLaws`, `SyncSteps`, `Index`, `Service` | the search mirror as a state machine and one ingest run as code |
| `SearchFilter`, `SearchLaws`, `Authorize` | the search filter text, what a search finds, its scope, type lookup |
| `Queue`, `Conflicts`, `QueueLaws` | EnqueueIngest against asynq's task table, and what a taken task id may lead to |
| `Push`, `PushBounds`, `Deliveries`, `Webhook`, `Routing` | the push relevance filter and exactly when it is sound, delivery dedup, the handlers, what each event asks for |

`dafny verify dfyconfig.toml` checks the whole project.

## What the environment is assumed to do

- asynq refuses a task id that exists in any state, refuses to delete an active task, and gives one task to one worker
  at a time. Finished tasks may disappear at any moment.
- One repository has one run at a time. That is what the queue guarantees (`QueueLaws.OneRunPerRepo`), and why the
  mirror's machine holds a second run of the same repository back.
- Postgres transactions are atomic, foreign keys cascade, and the repo id serial never repeats a value.
- A search index call takes effect and returns, or is lost, or takes effect and returns an error. Index tasks apply in
  the order they were accepted.
- SHA-256, YAML and frontmatter parsing, `Title`, `IsDoczFile` and docz's own Load and Validate are parameters: any
  functions will do. Where a collision-free hash matters it is required only of the values in use.
- In a loaded config every type directory lies inside the directory docs_dir cleans to (`Documents.TypesInside`; plain
  type directories do whenever docs_dir has no outer blanks and cleans to a plain path, `Documents.PlainTypesInside`)
  and additional_docs lie outside it (`Documents.ExtrasOutside`). docs_dir itself is validated by nobody. The fetch and
  page theorems are therefore stated over what it cleans to, with the agreement of the two normalisers as a condition
  where they can differ (`RepoPath.HintAgreement` says exactly when they agree), and the push theorems are paired with
  the exact spelling they need (`PushBounds.FilterSoundIff`).
- GitHub lists a tree's paths in one fixed order.
- A push to the default branch is a fast-forward from the head that was ingested, and its commits' lists name every
  path that differs between the two heads (`Push.Pushed`). A force push that rewinds the branch breaks this:
  `PushBounds.RewindGoesStale`.

## Where the code and its comments differ

- The comment at `internal/ingest/service.go:178-182` says that the next reconcile re-indexes what a failed sync
  missed. The hash gate skips unchanged rows, so it does not: wherever the sync failed, at its delete, a read or its
  add, any number of faultless runs of the same HEAD leave the index as the failure left it
  (`MirrorLaws.SameHeadNeverRepairs`), and it is wrong there: a new document stays missing, a removed one stays served
  (`MirrorLaws.MissedSyncStaysWrong`). `MirrorLaws.RepairedExactlyWhenReported` and
  `MirrorLaws.PageRepairedExactlyWhenReported` say, from the stored and the desired hashes, which keys a later run of
  any other HEAD does repair.
- `internal/queue/client.go:139-142` speaks of completed tasks kept for a retention time. The enqueue sets none, so both
  outcomes of a success, kept and removed, are modelled.
- The comment at `internal/githubapp/client.go:205-207` says that the fetch's docs_dir stays aligned with the
  classifier's. It does exactly when the hint is already a clean path, and only then does the fetch lose no page
  (`Probe.PrefilterSoundIff`): "docs/" and "./docs" are fine, "docs//" loses pages (`PushBounds.TwoSlashesLosePages`).
- The filter in `internal/webhook/events.go:218-235` compares with the stored docs_dir as it is, while the
  classifier cleans it first. Where docs_dir cleans to a plain path and the fetch agrees, a skipped push leaves nothing
  stale if and only if docs_dir is stored in clean form (`PushBounds.FilterSoundIff`). "docs/" is not
  (`PushBounds.OneSlashGoesStale`), and "." is clean and still unsound (`PushBounds.RootDocsDirUnsound`).
- The comment at `internal/webhook/events.go:210-213` says that the changed paths of all commits cover a force push.
  A force push back to an earlier head lists no commit and is skipped while the head wants other rows
  (`PushBounds.RewindGoesStale`).

## Model

| member | source | states |
|---|---|---|
| RepoPath.HintAgreement | internal/githubapp/client.go:200-211 | the fetch's docs_dir and the classifier's are the same directory exactly when what the hint computes is already a clean path |
| RepoPath.HintAgreementPlain | internal/ingest/pages.go:241-247 | in particular on every docs_dir that, once trimmed, has no empty, "." or ".." segment |
| RepoPath.HintPath | internal/githubapp/client.go:286-292 | the loop ends with what stands between the outer blanks once every leading "./" is gone |
| RepoPath.CleanRepoDirLoop | internal/ingest/pages.go:241-247 | the classifier's loop ends with the clean form of exactly that |
| RepoPath.CleanDrops | internal/ingest/pages.go:241-247 | cleaning drops an empty or "." segment wherever it stands |
| RepoPath.CleanCancels | internal/ingest/pages.go:241-247 | and cancels a plain segment against the ".." that follows it |
| RepoPath.CleanIsNormal | internal/ingest/pages.go:241-247 | and what is left has no empty or "." segment, and ".." only in front of a relative path |
| Pages.PageClassifier.constructor | internal/ingest/pages.go:117-133 | the classifier holds the rules of the config, templates always excluded |
| Pages.PageClassifier.ClaimReadmeDirs | internal/ingest/pages.go:140-151 | exactly the directories with an open README.md are claimed, the landing page included |
| Pages.BuildPages | internal/ingest/pages.go:28-84 | the two passes build the page list that `Publishing.PagesAre` describes |
| Publishing.PagesAre | internal/ingest/pages.go:28-227 | from the config and the files alone: in order, one page for each markdown file of docs_dir that is not the landing file, neither at nor below templates or an excluded entry, in no type directory and printably addressed, at its directory if it is that directory's README.md or its index.md with no offered README.md and at its own relative path otherwise; then one for each markdown additional_docs file there at a free address; nothing else |
| PageLaws.PublishedInjective | internal/ingest/pages.go:156-205 | two plain paths, neither a directory of the other, never publish at one address |
| PageLaws.PublishedPathsDistinct | internal/ingest/pages.go:38-84 | published paths are pairwise distinct across docs_dir and additional_docs exactly when no publishable additional_docs entry is repeated; docs_dir pages come first and always win |
| PageLaws.DotSegmentCollides | internal/ingest/pages.go:156-205 | under any config's rules, a "." segment, which no git tree has, would let two open blobs publish at one path |
| PageLaws.OrderIndependent | internal/ingest/pages.go:135-205 | permuting the blobs permutes the pages and changes none |
| PageLaws.ClaimedIff | internal/ingest/pages.go:135-151 | a directory is claimed exactly by its own README.md, judged after exclusion, even when that file is the landing page |
| PageLaws.DirectoryPage | internal/ingest/pages.go:186-205 | which of README.md and index.md serves a directory, or that none does |
| PageLaws.NeverPublished | internal/ingest/pages.go:156-227 | no docs_dir page comes from the landing file, templates, an excluded prefix or an enabled type directory |
| Documents.BuildDocTypes | internal/ingest/service.go:278-290 | one row per enabled type, in order; `DocumentLaws.TypeRows` says which columns |
| DocumentLaws.TypeRows | internal/ingest/mapper.go:20-38 | after a commit the doc_types rows are exactly the enabled types by name, column by column, the last of a repeated name |
| Documents.BuildDocuments | internal/ingest/service.go:299-335 | the loop builds the documents, or the error, that `DocumentLaws.OneDocumentPerFile` describes |
| DocumentLaws.OneDocumentPerFile | internal/ingest/service.go:299-335 | exactly one document for each file directly in an enabled type's directory that has frontmatter, in order, every column from its bytes, its path, its sha and the last type with that directory; it fails exactly when some such file's frontmatter is malformed or its non-empty date does not parse, with the first such error |
| DocumentLaws.DirectlyIn | internal/ingest/service.go:305-310 | for plain paths, sitting directly in a directory is being that directory, a slash and a name without one |
| Documents.PlainTypesInside | internal/ingest/service.go:299-335 | plain type directories lie inside the cleaned docs_dir for every spelling without outer blanks that cleans to a plain path, "docs/", "./docs" and "docs//" among them |
| Documents.DocumentsAndPagesDisjoint | internal/ingest/service.go:299-335 | no file becomes both a document and a page |
| Fetch.ApiHint | internal/githubapp/client.go:255-282 | the method computes the hints that `FetchLaws.HintsAre` describes |
| FetchLaws.HintsAre | internal/githubapp/client.go:195-282 | each hint from its own decoded key: docs_dir normalised less one slash, the api switch, landing page, and the two lists, each entry normalised, empty ones left out, in order; docz's defaults when nothing decodes |
| FetchLaws.ChangelogIs | internal/githubapp/client.go:213-236 | the changelog hint is its switch and its path less outer blanks and one leading "./", or the default when that is empty |
| Fetch.Client.ClassifyTree | internal/githubapp/client.go:312-326 | exactly the docz-named files, and with the api block enabled the markdown below docs_dir |
| Fetch.Client.FetchAdditionalDocs | internal/githubapp/client.go:174-193 | the additional_docs blobs that are in the tree, or the first failed request |
| Fetch.Client.FetchSnapshot | internal/githubapp/client.go:71-124 | success means the head resolved, the tree is whole and .docz.yaml was read from it; the rest is `FetchLaws.SucceedsIff` and `HoldsTheFiles` |
| FetchLaws.SucceedsIff | internal/githubapp/client.go:71-158 | the fetch succeeds if and only if the head resolves, the tree is not truncated, .docz.yaml is in it and every file it requests can be read |
| FetchLaws.HoldsTheFiles | internal/githubapp/client.go:71-124 | and then holds the head, the config, the changelog when its block is on, the repo home, and as blobs the selected files in listing order followed by the additional_docs files that are there |
| Prefilter.FetchedBlobs | internal/githubapp/client.go:110-122 | on a whole readable tree, for any docs_dir, nothing fails and the fetched blobs are those the hint keeps followed by the extras |
| Prefilter.PrefilterKeepsPages | internal/githubapp/client.go:312-326 | when the hint is the classifier's directory: buildPages over the fetched blobs is buildPages over every blob of the tree, page for page and in order |
| Prefilter.PrefilterDocuments | internal/githubapp/client.go:110-122 | for any docs_dir, the documents are those of the tree's docz-named files, widened to markdown under the hinted directory when the api block is on |
| Probe.PrefilterSoundIff | internal/githubapp/client.go:200-211 | no whole tree loses a page to the filter if and only if the hint is a clean path |
| Probe.TrailingSlashes | internal/githubapp/client.go:284-292 | after one trailing slash hint and classifier agree, after two the hint keeps one slash |
| Heads.DesiredOf | internal/ingest/service.go:84-131 | what an ingest of a whole head stores, or the error it stops with, in terms of the whole tree: documents, pages, landing page, changelog and columns |
| Gate.RefinesReplacement | internal/store/reconcile.go:117-167 | with distinct ids: exactly the desired keys, the stored row and stamp wherever the hash is the same and the desired row with the new stamp elsewhere, each upsert reported once, exactly the removed keys deleted |
| Gate.LastWriteWins | internal/store/reconcile.go:117-167 | with repeated ids: the last entry whose hash differs from the one stored before the run is what is left |
| Gate.NoWriteKeeps | internal/store/reconcile.go:117-167 | and a key none of whose entries differs keeps its row and its stamp |
| Gate.IdempotentIff | internal/store/reconcile.go:117-167 | a second identical run writes and deletes nothing exactly when no id is desired under two hashes |
| Gate.NothingToDo | internal/store/reconcile.go:117-167 | a run that reports nothing leaves the table as it was, stamps included |
| Gate.DuplicateKeyFlips | internal/store/reconcile.go:124-154 | one id desired under h1 then h2 is h2 after every odd run and h1 after every even run |
| Tables.GatedEqualsReplacement | internal/store/reconcile.go:117-167 | documents: the gate ends where replacing everything would, except on type, path and sha of files that moved without changing |
| Replacement.GatedPagesEqualReplacement | internal/store/reconcile.go:174-220 | the same for pages, except on source path and sha |
| Replacement.DocumentsMadeFrom | internal/ingest/mapper.go:44-68 | every built document's id, hash and frontmatter columns come from its own bytes |
| Replacement.BuiltPagesMadeFrom | internal/ingest/pages.go:255-269 | every built page's hash and title come from its bytes and published path |
| Replacement.DesiredPathsDistinct | internal/ingest/pages.go:38-84 | from fetch to desired state: page paths are pairwise distinct exactly when no publishable additional_docs entry is repeated |
| Replacement.IngestReplacesEverything | internal/ingest/service.go:104-135 | from fetch to commit, with no publishable additional_docs entry repeated: the rows after one ingest are the replaced ones, keys exactly the desired keys, and the premise holds again |
| Tables.CommitKeepsIntegrity | internal/store/reconcile.go:15-72 | foreign keys and unique ids survive a commit |
| Tables.UninstallKeepsIntegrity | internal/store/store.go:51-60 | and an uninstall, after which no repo of the installation is left |
| Store.Store.ReconcileRepo | internal/store/reconcile.go:15-72 | all of the desired state is committed and reported, or no row changes, whichever statement fails; without faults it fails only for a missing installation |
| Store.ReconcileDocTypes | internal/store/reconcile.go:76-112 | the types become exactly the desired ones, with the counts |
| Store.ReconcileDocuments | internal/store/reconcile.go:117-167 | the upsert and delete loops leave the gated table and the exact report |
| Store.ReconcileRepoPages | internal/store/reconcile.go:174-220 | the same for pages |
| Store.Store.RecordDelivery | internal/store/store.go:85-99 | new exactly when the id was not there, and there afterwards |
| Store.Store.UpsertInstallation | internal/store/store.go:39-49 | only that installation row is written |
| Store.Store.DeleteInstallation | internal/store/store.go:51-60 | the installation, exactly its repos and exactly their rows are gone, everything else is there row for row |
| Store.Store.DeleteRepo | internal/store/store.go:73-83 | exactly one repo and the rows under its id are gone, and the id it had is returned |
| IndexKeys.PrimaryKeyInjective | internal/ingest/indexmap.go:14-21 | the first underscore splits the key, so repo id and doc id are determined by it |
| IndexKeys.PageKeyInjective | internal/ingest/indexmap.go:23-36 | page keys coincide exactly when the repo and the first sixteen characters of the path's hash do |
| IndexKeys.FamiliesMeet | internal/ingest/indexmap.go:23-36 | a document key is a page key exactly when the doc id is spelled p_ plus that page's hash |
| IndexKeys.OwnsOnce | internal/ingest/indexmap.go:14-21 | no key belongs to two repos |
| Mirror.RecordsAreImage | internal/ingest/service.go:238-261 | the records of the upserted rows are exactly the image of those rows |
| Mirror.CommitLocal | internal/store/reconcile.go:117-220 | a key the report does not name has the same row before and after the commit |
| Mirror.SyncedAgrees | internal/ingest/service.go:197-232 | once the records are written, every reported key agrees with the rows |
| Mirror.RunKeeps | internal/ingest/service.go:183-261 | every step of every interleaving keeps the mirror invariant |
| MirrorLaws.TableIndexAgreement | internal/ingest/service.go:183-261 | over any run of ingests, failing syncs, crashes, uninstalls and purges, table and index agree on every key of every live repo that is neither dirty nor being synced, and foreign keys hold |
| Scope.RunScoped | internal/ingest/service.go:183-261 | in every run, whatever page keys hash to, each record, sync and row carries an id handed out for its own repo |
| Scope.IdsNeverReused | internal/store/repos.sql.go:137-201 | an id keeps its label forever and never has rows again once they are gone |
| Scope.HitsAreAllowed | internal/search/search.go:195-217 | a search filtered by the allowed ids returns only records of repos that existed when they were read, in every run, whatever happens in between and even if page keys collide, and nothing when there are none |
| MirrorLaws.UninstallStays | internal/webhook/events.go:122-135 | in any run that contains an uninstall, whatever comes between its listing and its delete and whatever late ingests follow, no repo of the installation is there until it is added again, and each late ingest for it changes no row |
| MirrorLaws.SameHeadChangesNothing | internal/ingest/service.go:178-191 | after a commit and whatever index calls, reads, crashes and purges follow, re-running the same HEAD any number of times changes nothing but the serial |
| MirrorLaws.SameHeadNeverRepairs | internal/ingest/service.go:178-232 | wherever a sync fails its reported keys are dirty, and no number of faultless re-runs of the same HEAD changes the index or the dirty set |
| MirrorLaws.MissedSyncStaysWrong | internal/ingest/service.go:178-232 | after all of them the index still lacks the document never added, or still serves the one never deleted |
| MirrorLaws.RepairedExactlyWhenReported | internal/ingest/service.go:193-232 | a later run of any input repairs a document's key exactly when, before it, the key is stored and not desired or desired under another hash than the stored one |
| MirrorLaws.PageRepairedExactlyWhenReported | internal/ingest/service.go:193-232 | the same for a page's key |
| SyncSteps.SyncedIs | internal/ingest/service.go:197-232 | for every combination of answers, the index a sync leaves and whether its keys end clean or dirty |
| Index.Client.IndexDocuments | internal/search/index.go:9-22 | under each record's id the last record with that id, other keys as they were; an empty list is no call |
| Index.Client.DeleteDocuments | internal/search/index.go:24-35 | exactly those keys go, and an empty list is no call |
| Index.Client.DeleteRepoDocuments | internal/search/index.go:37-50 | exactly the records with that repo id go |
| Service.IngestService.UpsertedIndexRecords | internal/ingest/service.go:234-261 | the list written is the image of the upserted rows, or a failed read |
| Service.IngestService.SyncIndex | internal/ingest/service.go:197-232 | the code leaves the index of the machine's four steps |
| Service.IngestService.Run | internal/ingest/service.go:67-141 | a head that cannot be fetched, a truncated tree included, and any other error before the transaction touches nothing, a failed transaction no row, and success is the machine's commit and sync of the desired state |
| SearchFilter.SequentialIsSinglePass | internal/search/search.go:228-234 | the two replacements are one escape |
| SearchFilter.BuildFilter | internal/search/search.go:195-226 | the printed filter, whose reading follows |
| SearchFilter.FilterRoundTrips | internal/search/search.go:191-234 | reading the printed filter gives back exactly the repo ids and clauses, for every value |
| SearchLaws.SearchFindsExactlyTheRows | internal/search/search.go:191-234 | in every reachable state, under each clean key of an allowed repo a search serves a record exactly when a stored document or page has that key and the facets asked for |
| SearchLaws.ServedShowsTheRow | internal/ingest/indexmap.go:38-87 | a served record shows that row's own title, path, body, date and stamp |
| Authorize.AllReposAuthorizer.Allowed | internal/authorize/allrepos.go:31-42 | exactly the ids of the repos there are |
| Authorize.ResolvesToFirst | internal/httpapi/typeresolver.go:10-36 | the first row that answers wins, and some row is found whenever one answers |
| Authorize.FindType | internal/httpapi/typeresolver.go:16-36 | the loop finds nothing exactly when no row has the name, folds to the prefix or folds to an alias |
| Authorize.NameReachesItself | internal/httpapi/typeresolver.go:10-36 | a type's own name reaches it exactly when no earlier prefix or alias takes it |
| QueueLaws.TaskIDInjective | internal/queue/client.go:74-78 | repos with slash-free owners never share a task id |
| QueueLaws.OwnerNameIff | internal/webhook/events.go:277-283 | a full name is taken apart exactly when it is a slash-free owner, a slash and a name |
| Queue.StepKeeps | internal/queue/client.go:93-227 | every step of every caller and worker keeps every promise made |
| Conflicts.InspectionIs | internal/queue/client.go:209-227 | one inspection touches no task, coalesces into a scheduled, pending, retrying or active one naming its state, coalesces when it cannot read, and goes on to clear only an archived or completed one |
| Conflicts.LiveTaskIsLeftAlone | internal/queue/client.go:141-165 | over any run, a call that reads a live task leaves every task alone, answers with that state for good and never takes a delete or re-enqueue step |
| Conflicts.UnreadIsLeftAlone | internal/queue/client.go:144-165 | the same for a call whose inspection fails or finds nothing |
| Conflicts.OnlyFinishedIsCleared | internal/queue/client.go:167-227 | over any run, a call gets to its delete, or past it, only after reading an archived or completed task |
| Conflicts.CallTouchesItsOwn | internal/queue/client.go:167-190 | a call's step adds no task but its own, scheduled, and removes none but its own, from its delete and not active |
| Conflicts.FailsIff | internal/queue/client.go:93-190 | over any run, a call returns an error exactly when one of its steps met a Redis error or its delete an active task; a task gone already and a second conflict are none |
| QueueLaws.NoTriggerLost | internal/queue/client.go:80-190 | from its nil return on, a trigger is covered by a run to come, a run started after it, or a caller about to enqueue again, unless the call saw an active task or read no state |
| QueueLaws.NoTriggerLostFaultless | internal/queue/client.go:80-190 | without Redis errors, by nothing weaker |
| QueueLaws.OneRunPerRepo | internal/queue/client.go:119-190 | two workers never run one repo |
| QueueLaws.ActiveTriggerDropped | internal/queue/client.go:89-92 | the active-window drop is real |
| QueueLaws.VanishedTaskDropped | internal/queue/client.go:204-217 | so is the drop when the conflicting task is gone by the inspection |
| QueueLaws.SlowCallerClears | internal/queue/client.go:167-190 | a slow caller may clear a task just scheduled by another, and then puts one back |
| QueueLaws.FailuresArchive | internal/queue/worker.go:84-131 | a failing task is retried five times and then archived |
| QueueLaws.Client.ResolveTaskIDConflict | internal/queue/client.go:144-190 | the conflict code with anything running between its steps: an unfinished or unread task ends the call at once, untouched, with nil; only a finished one is deleted |
| QueueLaws.Client.EnqueueIngest | internal/queue/client.go:93-115 | the whole call: what nil means for the trigger, that it clears only finished tasks, and that it fails exactly on an error |
| Push.CollectWatchedFiles | internal/webhook/events.go:237-250 | a path is watched exactly when it is the row's non-empty changelog or landing path or one of its additional_docs |
| Push.CheckShouldIngest | internal/webhook/events.go:207-235 | true exactly for a default-branch push one of whose commits names .docz.yaml, a path below the stored docs_dir or a watched one |
| Push.DiffersOnlyWhereTouched | internal/webhook/events.go:207-213 | a path that differs after the commits is named by one of them |
| Push.FastForwardPushes | internal/webhook/events.go:207-213 | so a fast-forward with complete lists is a push as assumed, whatever its intermediate trees |
| Push.IngestedRow | internal/ingest/service.go:108-130 | the repo row after an ingest holds that head's changelog and landing files, null when absent or off, and the columns the filter reads |
| Push.SkippedPushChangesNothing | internal/webhook/events.go:214-235 | for a clean docs_dir, a skipped push leaves the desired state, or its error, exactly as it was but for the head sha, and the config in force |
| Push.SkippedPushesChangeNothing | internal/webhook/events.go:214-235 | and so does any sequence of skipped pushes |
| Push.SkippedIngestMovesOnlyHead | internal/webhook/events.go:97-105 | the ingest it saves would have written the head sha and nothing else |
| Push.SkippedPushesServeNothingStale | internal/webhook/events.go:80-116 | ingest a head, skip any sequence of pushes, ingest after all: one column of one row changes |
| PushBounds.FilterSoundIff | internal/webhook/events.go:214-235 | where docs_dir cleans to a plain path and the hints agree: every skipped push leaves the desired state unchanged but for the head if and only if docs_dir is stored in clean form |
| PushBounds.RewindGoesStale | internal/webhook/events.go:207-213 | a force push that lists no commit is skipped while the desired state differs, whatever docs_dir is |
| PushBounds.OneSlashGoesStale | internal/webhook/events.go:222-228 | a config with "docs/" loses no page in the fetch and yet a skipped push leaves a page stale |
| PushBounds.TwoSlashesLosePages | internal/githubapp/client.go:200-211 | a config with "docs//" loses pages in the fetch |
| PushBounds.RootDocsDirUnsound | internal/webhook/events.go:222-228 | with docs_dir "." a push that rewrites the landing page is skipped and leaves it stale |
| Deliveries.RoutedAtMostOnce | internal/webhook/webhook.go:108-149 | each delivery id is routed at most once, over any interleaving and any failure, and only when signed |
| Deliveries.SpentForever | internal/webhook/webhook.go:117-130 | once recorded and its request over, an id is never routed again |
| Webhook.JobsForIff | internal/webhook/events.go:159-181 | one job for exactly the repos whose names can be taken apart |
| Webhook.PurgesWhatItDrops | internal/webhook/events.go:118-157 | an event purges exactly the repos whose rows it drops and touches no other |
| Webhook.RoutingKeepsIntegrity | internal/webhook/events.go:22-37 | every event keeps the foreign keys |
| Routing.EventAsks | internal/webhook/events.go:22-181 | from the event alone: onboarding writes the installation and enqueues one job per parseable repository in order, offboarding removes exactly the installation's or the listed repositories, a push enqueues its repository exactly when it triggers, nothing else does anything |
| Webhook.OffboardIsMachine | internal/webhook/events.go:118-135 | the uninstall handler's rows and index are those of the mirror machine's list, delete and purge steps |
| Webhook.RemoveIsMachine | internal/webhook/events.go:137-157 | one removed repo's are those of its remove and purge steps |
| Webhook.Handler.PurgeIndex | internal/webhook/events.go:183-195 | a failed purge changes nothing else |
| Webhook.Handler.EnqueueRepos | internal/webhook/events.go:162-181 | the jobs in order, stopping at the first rejected one |
| Webhook.Handler.OffboardInstallation | internal/webhook/events.go:118-135 | the cascade, and the purge of every repo it took |
| Webhook.Handler.OffboardRepos | internal/webhook/events.go:137-157 | the repos up to the first failing delete are gone with their records |
| Webhook.Handler.HandlePush | internal/webhook/events.go:80-116 | a job exactly for a known repo with a relevant push |
| Webhook.Handler.HandleInstallation | internal/webhook/events.go:39-57 | created onboards, deleted offboards; on failure nothing, or the effect of the same event cut to its first n repositories |
| Webhook.Handler.HandleInstallationRepos | internal/webhook/events.go:59-78 | the same for added and removed repositories |
| Webhook.Handler.Route | internal/webhook/events.go:22-37 | the rows, jobs and purges one event asks for, in full or cut to the first n repositories when something fails |
| Webhook.Handler.ServeHTTP | internal/webhook/webhook.go:90-150 | one call is the delivery machine's verify, record, parse and route steps in any state; which status for which request, what is recorded, that nothing else moves before routing, and what a failed routing leaves |

## Left out

- Network and driver code (go-github, pgx, asynq, Meilisearch, Redis): only the step semantics listed above.
- A worker whose lease expires while its handler still runs: a crash is modelled, a lost heartbeat is not.
- Index tasks that apply after their waiting caller has given up and another sync has finished; tasks apply in order.
- The reconcile loops over documents and pages are two methods each (upserts, then deletes) with the same statements.
- Rows are kept under their repo id instead of one table per kind, and `updated_at` is the time passed to the upsert.
- A nil indexer or purger, which turns the mirror off; store errors other than the modelled statement faults.
- Store.Store.ReconcileRepo: does not model a commit whose acknowledgement is lost; the mirror machine covers that outcome as an ingest followed by a crash.
- Rendering dates and stamps as text in index records; the record holds the row's own values.
- JSON encoding of the config snapshot, statuses and aliases; the columns hold the values themselves.
- Slugs and fallback titles, warnings, logs, spans, metrics and the trace context of a job.
- Ranking, facets, cropping, sort tokens and the rendering of hits; HTTP DTOs, sessions, login and configuration.
- The body size limit and HMAC computation: a request is signed or not.
- Liveness: that a waiting task is eventually run, or a purge eventually called.
