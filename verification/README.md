# csaf-trove processing model

csaf-trove keeps one Git history per advisory provider and derives everything else from it: validation rows,
version history, a cached summary and CVE search. It does so incrementally, from a checkpoint, in many separately
committed transactions, any of which can be the last one before the process dies. This project models that pipeline
and the caches around it, and proves that the fast, resumable form ends where recomputing everything would.

`dafny verify dfyconfig.toml` checks the project.

## How the model is built

**The pass.** `History` is an append-only chain of snapshots, each a map from Git path to blob identity. `Store` holds
the stored results of one provider (rows, versions, checkpoint, summary) and one function per transaction. `Pass` strings
the transactions together as `process_snapshot` does; a pass carries a budget, and dies at its first transaction beyond it,
so a statement about every budget is a statement about every interruption point. Validation is an uninterpreted function of
the fingerprint, the advisory's blob and its three sidecars. A report also carries the inputs it was computed from; no
column stores them, they only let proofs follow a row back to its inputs, and refinement (`Refinement.Refines`) compares
what is stored, without them. `Invariant`, `Phases`, `Theorems` and `Completion` show what each phase keeps; `Runs` adds
commits and passes in any order; `Refinement` states the main results; `Marks` follows failure marks through passes into
later syncs; `Outcome` says what a completed pass
leaves in terms of paths, blobs and stored columns alone; `Mirror` puts remote changes, syncs, commits and passes into one run; `Legacy` covers databases older than version
recording; `Limits` and `Witnesses` show where the main results
stop, in general and on concrete runs.

**The code's own form.** The parts that change things step by step are classes and loops: `PathSets.PathSet` (paged path
table), `Selection` (scan and paged resolve), `Provider.ProviderStore` (the document tables with auto-increment ids and child
tables, proved against `Store` through `Tables.RowsOf`), `Runner.Worker` (the pass, proved equal to
`Pass.ProcessSnapshot` for every budget), `DiffCache.TreeDiffCache`, `Staging.Stager`, `Membership.MembershipTable`,
`SummaryIndexes.SummaryIndex`, `Progress.BlockingProgress`, `Progress.Job`, `Sync.MembershipSource`.

**Interleavings.** `Publication`, `Overview`, `SummaryIndexes`, `Progress` and `Sync` are state machines over atomic steps;
their main lemmas hold for every sequence of steps.

## Hypotheses

They are explicit predicates. Each is proved of the code elsewhere in the project, made part of an exact condition, shown to be
needed by a run, or speaks of the outside world only.

- `World.Separated`: no two different URLs ever carry colliding tracking ids. `Limits.OneRowEachIff` gives the exact condition
  for one validation run.
- `Runs.NoReturn`: while a pass under another fingerprint is unfinished, the checkpointed fingerprint does not come back.
  `Refinement.PassRefinesIff` gives the exact condition for one pass, on the state it starts from;
  `Witnesses.EarlyReturnBreaksRefinement` is a run that meets every other hypothesis and ends with visibly wrong checks.
- `Runs.Unshadowed`: when a pass starts, no directory of the head stands in the place of an unmarked row's advisory. The code
  asks libgit2 whether the path resolves, which a directory does. `Refinement.PassRefinesIffNoDirectory` makes it, too, part of
  an exact condition; `Witnesses.DirectoryBreaksRefinement` is a run that meets every other hypothesis and ends with the row of
  a vanished advisory. Only the refinement results need it: the invariant, `Runs.PassSpec`, `Refinement.BaselineIsRebuilt`
  and `Refinement.CrashSafeUpToFingerprint` hold whatever directories there are.
- `History.Enumerates`: a comparison reports every changed path once. `TreeDiff.ComparisonIsEnumeration` proves it of the
  pruned comparison.
- `TreeDiff.ContentAddressed`: equal object identities mean equal content.
- `Sync`: listed documents stay listed, and a change is stamped no earlier than it happens.

## Findings

- A pass clears failure marks while it validates old copies and writes them again only at the end. A pass that dies in between
  can lose a mark for good. `Marks.MarksAfterPass` says which marks any pass leaves, `Marks.PassForgetsExactly` which documents
  are then forgotten, `Sync.AMarkCanBeLost` and `Witnesses.RevalidationLosesMark` that it happens in runs from an empty start,
  and `Sync.ForgottenForever` that only a change, a full sync or another mark brings the document back.
- A feed that is not public and fails to load is skipped, and the token advances all the same. What changed there since the
  last token is never fetched (`Sync.AFailedFeedIsForgotten`), and a marked document of that feed is not tried again, so that a full
  pass of the same sync clears its mark (`Sync.ASkippedFeedLosesAMark`). `Sync.SaveTokenValidIff` and `Sync.StepValidIff` give the
  exact conditions on the skipped documents; `Sync.OnlyUnseenAreLost` says that no others are concerned unless a pass dies.
- A file replaced by a directory of the same name is never removed as an advisory: its row survives full passes
  (`Limits.GoneRowSurvivesIff`, `Witnesses.DirectoryBreaksRefinement`), and every incremental pass that selects it fails
  (`Limits.DirectoryBlocksRun`).
- When the last document of a database without recorded versions is removed, versions are recorded from the checkpoint on
  only, and older ones stay missing (`Legacy.LegacyRebuiltIff`).
- The fingerprint is compared only between checkpoint and head, so a key that changes and changes back can leave rows
  validated under the key in between.

## Model

| member | source | states |
|---|---|---|
| Paths.AdvisoryPathExact | server/src/storage/git_processing.rs:45-54 | A path selects an advisory if and only if that is a JSON file outside `metadata/` and the path is the file, its `.asc`, its `.sha256` or its `.sha512`. |
| Paths.PathUrlInjective | server/src/storage/git_processing.rs:57-59 | Different advisories have different URLs. |
| PathSets.PageAdvances | server/src/storage/path_set.rs:81-90 | A cursor read returns the next rows in order, a full page unless the table ends, and moves the cursor past exactly them. |
| PathSets.InsertAllSpec | server/src/storage/path_set.rs:53-63 | Inserting keeps key order, adds exactly the given paths and ignores duplicates. |
| PathSets.PathSet.InsertBatch | server/src/storage/path_set.rs:53-63 | Chunked insertion is set union, and `len` stays the number of distinct paths. |
| PathSets.PathSet.Drain | server/src/storage/path_set.rs:81-90 | Reading page by page visits every non-empty path exactly once, in order, and terminates. |
| History.UnchangedOutside | server/src/storage/git_processing.rs:219-257 | A path no commit after the checkpoint changed has the same blob in every snapshot from there to the head. |
| History.DifferenceIsSelected | server/src/storage/git_processing.rs:219-257 | A path that differs between checkpoint and head is among the collected changes. |
| History.ChangesGrow | server/src/storage/git_processing.rs:218-257 | A new commit adds its own changes and forgets none, so reverted edits stay selected. |
| Selection.SendDeltas | server/src/storage/git_processing.rs:234-243 | Messages of at most 256 paths together carry exactly the paths on either side of the deltas. |
| Selection.ScanChanges | server/src/storage/git_processing.rs:219-257 | The walk delivers exactly the union of per-commit changes since the checkpoint, and reports incompatibility if and only if the checkpoint is not in the history. |
| Selection.ResolvePage | server/src/storage/git_processing.rs:140-160 | One page contributes exactly its selected advisories, changed advisories and removed URLs. |
| Selection.ResolveChanges | server/src/storage/git_processing.rs:129-178 | Paging through all changes yields the three set comprehensions over the whole change set. |
| Selection.SelectProcessing | server/src/storage/git_processing.rs:82-216 | The selection has exactly the advisories, history, deletions, baseline and full flags defined from chain, checkpoint, fingerprint and force. |
| Versions.CommitVersionsSpec | server/src/storage/git_repo.rs:554-584 | A commit records exactly the advisories it adds or modifies, each once, under its own id. |
| Versions.CommitVersionsExact | server/src/storage/git_repo.rs:554-584 | A version is recorded for a commit if and only if it is the blob, under that commit's id, of an advisory the commit added or modified. |
| Versions.VersionsExact | server/src/storage/git_repo.rs:532-586 | The rebuilt table holds exactly the advisory blobs some commit added or modified. |
| Versions.VersionsOnce | server/src/storage/versions.rs:70-93 | No document is recorded twice for one commit. |
| Versions.CountStep | server/src/storage/versions.rs:110-129 | One commit raises a document's count by one exactly when it adds or modifies it. |
| Versions.PresentIsCounted | server/src/storage/versions.rs:107-129 | Every advisory of a snapshot has at least one recorded version by then. |
| Versions.IncrementalIsRebuild | server/src/storage/versions.rs:42-105 | Replaying recorded commits and then new ones gives the rebuilt table, row for row and in id order. |
| Versions.NothingRecordedSince | server/src/scheduler/runner.rs:643-644 | When no advisory's content changed, skipping the recording leaves the rebuilt table. |
| Invariant.CommitKeepsInv | server/src/storage/git_repo.rs:284-296 | A new commit keeps the invariant: nothing already pending is forgotten. |
| Phases.DeletePagesSpec | server/src/scheduler/runner.rs:614-629 | Paged deletion removes some of the URLs when interrupted and exactly all of them when not, marking the summary dirty whenever a report went. |
| Phases.ValidateAllSpec | server/src/pipeline/validate.rs:409-412 | Interrupted or not, exactly the visited documents carry what the validator says of their bytes at the head, their `.asc`, their `.sha256` and their `.sha512`; counts are kept, and nothing else changed. |
| Phases.RecordedIsRebuild | server/src/storage/versions.rs:42-105 | From the checkpoint or from scratch, recording leaves the rebuilt table. |
| Phases.RecordedCounts | server/src/storage/versions.rs:96-129 | After recording, every head advisory's row counts its recorded versions, also when only touched URLs are refreshed. |
| Phases.SaveFailuresSpec | server/src/storage/documents.rs:1036-1099 | Exactly the failed URLs are marked or stubbed; when nothing is reported as changed, nothing changed. |
| Phases.LastErrorIsKept | server/src/storage/documents.rs:1043-1092 | A failed URL ends with the error and outcome of its last failure. |
| Phases.StubsHoldNothing | server/src/storage/documents.rs:1074-1089 | A failed URL without a row gets one that holds its name and failure and nothing else. |
| World.NeverRetrievedId | server/src/storage/documents.rs:68-76 | A document that was never retrieved is known by its file name without the extension. |
| Theorems.KeptRowIsFresh | server/src/storage/git_processing.rs:113-178 | A row the pass does not validate already equals validating the head's inputs, if its advisory is still there. |
| Theorems.MidRecord | server/src/scheduler/runner.rs:642-659 | Recording, or the decision to skip it, ends with the rebuilt versions and right counts. |
| Completion.ValidatedSpec | server/src/scheduler/runner.rs:631-641 | Validation that visits as many documents as were extracted leaves every unmarked row right at the head and every head advisory with a row. |
| Completion.SkippedSummaryIsFresh | server/src/scheduler/runner.rs:606-607 | When the rebuild is skipped, the published summary is still that of the current rows; `Outcome.SummaryShowsRows` says what that is. |
| Completion.ProcessSpec | server/src/scheduler/runner.rs:606-684 | Dying anywhere keeps what the next pass needs; completing settles rows, versions, counts, summary and checkpoint, and changes exactly the rows it should. |
| Runs.PassSpec | server/src/scheduler/runner.rs:489-693 | From every reachable state, every pass keeps the invariant wherever it dies, and completes only into settled results. |
| Refinement.PassRefinesIff | server/src/storage/git_processing.rs:130 | A completed pass stores what recomputation would if and only if, for every row it keeps, the advisory is at the head and validates there the same under the row's fingerprint and the current one. |
| Refinement.KeptGoneIffDirectory | server/src/storage/git_processing.rs:146-158 | The advisory of a row that a pass keeps is gone from the head if and only if a directory answers for its path. |
| Refinement.PassRefinesIffNoDirectory | server/src/storage/git_processing.rs:130-158 | Where no row was gone already at the checkpoint, a completed pass stores what recomputation would if and only if no directory stands in a kept row's place and each kept row validates the same under both fingerprints. |
| Refinement.RunKeepsInv | server/src/scheduler/runner.rs:489-693 | Every state of every run of commits and interrupted passes satisfies the invariant. |
| Refinement.RunKeepsDiscipline | server/src/scheduler/runner.rs:489-693 | Over a run that meets both run hypotheses, rows carry the checkpoint's fingerprint unless a pass under another one is unfinished, and no unmarked row's advisory was gone at the checkpoint. |
| Refinement.CrashSafeRefinement | server/src/scheduler/runner.rs:489-693 | After any run, a completed pass leaves one row per head advisory, marked or exactly the recomputed one, marked rows only elsewhere, right counts, rebuilt versions and a fresh summary; `Outcome` says so in terms of files and stored columns. |
| Refinement.CrashSafeUpToFingerprint | server/src/scheduler/runner.rs:489-693 | Without the hypotheses on fingerprints and directories, versions, counts, presence and summary are still right, and every unmarked row of a head advisory is its validation there under some fingerprint. |
| Outcome.RowsShowFiles | server/src/storage/git_processing.rs:372-383 | After any run that meets the run hypotheses, a completed pass has a row for every advisory file of the head, which counts the commits that gave the file a content; an unmarked one stores what the validator says of its bytes, its `.asc`, its `.sha256` and its `.sha512`, each found under its own name. |
| Outcome.NoOtherRows | server/src/storage/git_processing.rs:140-160 | After such a pass, every row that is not a failure belongs to an advisory file of the head. |
| Outcome.VersionsShowHistory | server/src/storage/versions.rs:42-129 | After any run, a completed pass has recorded exactly one version for each commit that gave an advisory a content, with that content, and each head row counts those commits. |
| Outcome.CountIsWrites | server/src/storage/versions.rs:110-129 | A document's version count is the number of commits that gave it a content. |
| Outcome.SummaryShowsRows | server/src/storage/documents.rs:660-682 | After any run, the summary of a completed pass has an entry for every stored document, failed ones included, with its own report, and no other; it has as many entries as there are rows, and the failed entries are those of the failed rows. |
| Outcome.SummariesTellReports | server/src/storage/documents.rs:660-682 | Two completed passes publish the same summary if and only if they stored the same reports for the same documents. |
| Outcome.SelectionShowsChanges | server/src/storage/git_processing.rs:82-178 | From a known checkpoint, a pass is full if and only if it is forced or the fingerprint changed; it selects exactly the advisories found at the head of which a later commit changed the file, the signature or a digest, removes exactly the changed ones not found, and records versions for exactly the changed ones. |
| Outcome.ExtractionShowsFiles | server/src/storage/git_processing.rs:313-396 | A full pass extracts every advisory file of the head; another one the selected files, and fails if and only if one is no file or has a directory for a sidecar. |
| Refinement.BaselineIsRebuilt | server/src/scheduler/runner.rs:611-612 | A pass without a checkpoint ends in the recomputed results, whatever rows it found. |
| Refinement.IncrementalEqualsRebuild | server/src/scheduler/runner.rs:488-693 | With nothing left unretrieved, a completed pass after any run equals a pass over an empty database, results and all. |
| Refinement.MarkedExactly | server/src/scheduler/runner.rs:660-665 | After a completed pass a row is marked if and only if it failed now, was validated into a failure, or was marked and neither removed nor validated. |
| Refinement.RecoveredIsValidated | server/src/storage/git_processing.rs:279-297 | A failed document that was downloaded again is validated, even when its bytes did not change. |
| Refinement.ForcedPassIsRetried | server/src/storage/processing.rs:58-66 | A forced pass that dies after it began makes the next pass a full baseline. |
| Refinement.PassCompletes | server/src/scheduler/runner.rs:489-693 | From any state, a pass whose inputs can be read and that is not killed completes. |
| Legacy.LegacyPass | server/src/scheduler/runner.rs:642-659 | A pass over a database without recorded versions keeps it repairable when it dies, and settles versions, counts and everything else when it completes with a document left. |
| Legacy.LegacyRebuiltIff | server/src/scheduler/runner.rs:642-659 | After a completed pass over such a database the version table is the rebuilt one if and only if a document was left to backfill for or nothing had to be recorded before the checkpoint. |
| Marks.MarksAfterPass | server/src/scheduler/runner.rs:608-665 | Wherever a pass dies, exactly those URLs are marked that were marked before, without the rows it removed and the documents it found readable, with those it found unreadable, and with its failures once they are written. |
| Marks.FinishedMeetsAll | server/src/pipeline/validate.rs:438-442 | A pass that gets beyond validation has validated every extracted document. |
| Marks.PassIsStep | server/src/scheduler/runner.rs:385-449 | Read as a step of a sync or as a revalidation, a pass leaves the sync's set of failures equal to the marked rows. |
| Marks.PassForgetsExactly | server/src/scheduler/runner.rs:608-665 | A pass forgets exactly the listed documents that the head of its history lacks, that are older than the token, and whose row it removed or whose old copy it found readable, unless it found them unreadable or wrote their failure. |
| Marks.WrittenForgetsNothing | server/src/scheduler/runner.rs:660-693 | A pass of a sync that skipped no index, or a revalidation, forgets nothing when it completes, or once its failures are written. |
| Mirror.NothingIsMissed | server/src/scheduler/runner.rs:322-449 | Over any run of a new mirror with remote changes, syncs, commits, passes and revalidations, as long as every index loads and no pass stops between clearing a mark and writing its failures, once a sync has succeeded every listed document is at the head as the provider has it, recent enough for the next sync, or has a marked row. |
| Mirror.StagedMirrorsIff | server/src/storage/git_repo.rs:169-262 | A staged commit is the head with the downloads laid over it if and only if no download displaces another committed advisory. |
| Limits.SurvivesIff | server/src/storage/documents.rs:199-242 | A saved document keeps its row if and only if no later save claims it by tracking id. |
| Limits.OneRowEachIff | server/src/storage/documents.rs:199-242 | A validation run leaves one row per document if and only if no save claims an earlier one. |
| Limits.DirectoryBlocksRun | server/src/storage/git_processing.rs:372-383 | Once an advisory changed since the checkpoint has become a directory, no stored result and not even the checkpoint changes, whatever is committed, until a full pass or until the directory goes. |
| Limits.GoneRowSurvivesIff | server/src/storage/git_processing.rs:146-158 | After a completed pass the row of an advisory that changed and is gone is still there, untouched, if and only if a directory answers for its path. |
| Witnesses.EarlyReturnBreaksRefinement | server/src/storage/git_processing.rs:130 | A concrete run with every other hypothesis met ends with checks made under the wrong key. |
| Witnesses.DirectoryBreaksRefinement | server/src/storage/git_processing.rs:146-158 | A concrete run with every other hypothesis met ends, after a completed full pass, with the row of an advisory that became a directory. |
| Witnesses.InterruptedPassIsResumed | server/src/scheduler/runner.rs:489-693 | A concrete run that meets every hypothesis of the main result, with an interrupted pass, ends in the recomputed results. |
| Witnesses.RevalidationLosesMark | server/src/scheduler/runner.rs:429-449 | In a concrete run a failed document is marked, and a revalidation that is given this failure and dies leaves no mark. |
| Witnesses.FirstSyncMirrors | server/src/scheduler/runner.rs:322-423 | A concrete first sync of the whole mirror meets the hypotheses of the end-to-end result and advances the token. |
| Tables.PurgeRows | server/src/storage/documents.rs:221-242 | Deleting documents with their children removes exactly their rows and leaves every other row whole. |
| Tables.SaveIntoRows | server/src/storage/documents.rs:192-366 | A save on the tables is the save on rows, children included, and keeps integrity. |
| Tables.SavedIsAlone | server/src/storage/documents.rs:199-242 | Right after a save, the saved document is the only one with its URL, its tracking id or the filename form of it. |
| Tables.SavedReplacesOnly | server/src/storage/documents.rs:199-242 | A save removes no document but those with its URL, its tracking id or the filename form of it. |
| World.ClaimsIs | server/src/storage/documents.rs:52-66 | A stored id is replaced if and only if it is the saved one or its filename form: lower case, with every character but a letter, digit, plus or minus turned into an underscore. |
| Tables.FailIntoRows | server/src/storage/documents.rs:1063-1090 | Marking or stubbing on the tables is marking or stubbing the row. |
| Tables.PurgeUrlRows | server/src/storage/processing.rs:91-131 | Deleting one URL on the tables removes exactly its row. |
| Tables.AlwaysIntegrity | server/src/storage/documents.rs:79-366 | Over any sequence of saves, failure marks, deletions, part-way deletions and recounts, URLs stay unique and no child row is orphaned. |
| Provider.ProviderStore.SaveDocuments | server/src/storage/documents.rs:192-366 | The statement-by-statement upsert is the row-level save of every document in order, and marks the summary dirty if there was one. |
| Provider.ProviderStore.SaveRetrievalErrors | server/src/storage/documents.rs:1036-1099 | The loop is the row-level failure transaction, and its result says whether any row changed. |
| Provider.ProviderStore.DeleteDocumentUrls | server/src/storage/processing.rs:91-131 | The per-URL loop removes exactly the given rows and marks the summary dirty only if one existed. |
| Provider.ProviderStore.DeleteDocuments | server/src/storage/documents.rs:79-87 | The last of the four statements empties the documents once no child is left. |
| Provider.CommitsSince | server/src/storage/git_repo.rs:541-551 | The backward walk visits exactly the commits after the checkpoint, or all when it is not met. |
| Provider.ProviderStore.InsertCommit | server/src/storage/versions.rs:70-93 | Chunked insertion of one commit's versions is their insertion at once, and notes exactly their URLs. |
| Provider.RefreshTwice | server/src/storage/versions.rs:98-103 | Refreshing counts in chunks is refreshing them together. |
| Provider.ProviderStore.RecordVersions | server/src/storage/versions.rs:42-105 | The loop over scanned commits and chunks is the recording transaction. |
| Provider.FailedUrlRowsSpec | server/src/storage/processing.rs:134-146 | The failure cursor ranges over exactly the URLs of marked rows, in order. |
| Runner.Worker.DeleteAllDocuments | server/src/scheduler/runner.rs:611-612 | The four deletions, dying between any two. |
| Runner.Worker.DeleteRemoved | server/src/scheduler/runner.rs:613-630 | The cursor loop is paged deletion of all removed URLs, dying between any two pages. |
| Runner.Worker.ValidateProvider | server/src/pipeline/validate.rs:141-171 | The walk saves each extracted document once, from its own bytes, signature and digests, leaves every other row alone, and reports which were met. |
| Runner.Worker.IncludeRecovered | server/src/scheduler/runner.rs:550-565 | The cursor loop adds exactly the downloaded paths of failed URLs, and fails if and only if a stored URL is malformed. |
| Runner.Worker.Materialize | server/src/storage/git_processing.rs:313-396 | The paged extraction yields exactly the readable selected advisories, or fails if and only if one cannot be read. |
| Runner.Worker.ProcessSnapshot | server/src/scheduler/runner.rs:489-693 | The imperative pass, with any budget, ends with the results of the modelled pass for a choice the history allows. |
| TreeDiff.FlattenAt | server/src/storage/git_changes.rs:152-168 | The flattened value at a path is decided by the entry its next component names. |
| TreeDiff.ChangedNamesSpec | server/src/storage/git_changes.rs:136-169 | Exactly the names that are on one side only, of different kinds, or of different identity are descended into, each once. |
| TreeDiff.SameEntryUnchanged | server/src/storage/git_changes.rs:155-157 | Skipping a directory with equal identities hides no change. |
| TreeDiff.NativeEmits | server/src/storage/git_changes.rs:185-208 | A delegated level reports its flat differences under their full paths. |
| TreeDiff.ComparisonEmits | server/src/storage/git_changes.rs:123-182 | The pruned comparison reports each difference of the flattened trees exactly once, for any mixture of files, directories and replacements. |
| TreeDiff.ComparisonTells | server/src/storage/git_changes.rs:123-208 | Every delta is right about its path: added, deleted or modified, with the blob now there; no path has two, and a path with none is the same in both trees. |
| TreeDiff.ComparisonIsEnumeration | server/src/storage/git_changes.rs:52-67 | Enumerating the flat difference in the comparison's order reproduces it delta for delta. |
| DiffCache.RequestsKeepValid | server/src/storage/git_changes.rs:41-120 | Over any requests, failing ones included, the cache has at most 32 entries, distinct keys, at most 1024 deltas each, and every entry is the comparison of its trees. |
| DiffCache.RecentIsCached | server/src/storage/git_changes.rs:41-120 | A comparison of at most 1024 deltas is still cached after 31 further requests, whatever they are. |
| DiffCache.ChangedDirectories | server/src/storage/git_changes.rs:134-169 | The scan of one level stops at a file if and only if there is one, and otherwise finds the changed directories. |
| DiffCache.TreeDiffCache.Compare | server/src/storage/git_changes.rs:123-182 | The recursive loop computes the pruned comparison. |
| DiffCache.TreeDiffCache.Cached | server/src/storage/git_changes.rs:110-120 | A hit returns the kept deltas and moves their entry to the recently used end. |
| DiffCache.TreeDiffCache.Visit | server/src/storage/git_changes.rs:70-107 | The visitor sees the uncached comparison up to its own failure; a hit moves its entry to the recent end even then, and a miss is kept only when it is complete and small. |
| DiffCache.TreeDiffCache.Diff | server/src/storage/git_changes.rs:52-67 | Whatever was asked before, the answer is the uncached comparison. |
| Staging.StageOne | server/src/storage/git_repo.rs:197-242 | Staging one more file keeps the index the overlay of the files staged so far. |
| Staging.DroppedIsNotStaged | server/src/storage/git_repo.rs:204-213 | A removed sidecar is never the path of a staged file, so no order can undo a staging. |
| Staging.AllStaged | server/src/storage/git_repo.rs:169-257 | After all files, in any order, each path holds its download; nothing if it is an old key, an absent sidecar, or on the wrong side of a file replaced by a directory; and its base content otherwise. |
| Staging.OverlayIsLaid | server/src/storage/git_repo.rs:169-257 | An overlay holds the decompressed bytes of every `.json.zst` file under its name without `.zst`, every other file as it is, and of the base what no download takes away. |
| Staging.StageableIs | server/src/storage/git_repo.rs:214-221 | Staging is possible if and only if every compressed advisory can be decompressed and is not there a second time. |
| Staging.CompressionDoesNotShow | server/src/storage/scratch.rs:19-64 | An advisory staged from its compressed form gives the index it gives as it is. |
| Staging.OverlayUnique | server/src/storage/git_repo.rs:169-257 | The overlay is determined by base and scratch alone. |
| Staging.OverlayIsTree | server/src/storage/git_repo.rs:169-262 | No path of the staged index is also a directory of it, so it can be written as a tree. |
| Staging.FlushBuffer | server/src/storage/git_repo.rs:250-254 | A flush at the threshold conserves the staged objects, reaches the threshold, and would not have without its last file. |
| Staging.LastFlush | server/src/storage/git_repo.rs:257 | After the last flush every staged blob is packed in order and only the last batch may be short. |
| Staging.PacksAreBounded | server/src/storage/git_repo.rs:250-257 | Every pack but the last reaches the threshold, and none would have without its last file. |
| Staging.Stager.FlushMempack | server/src/storage/git_repo.rs:302-334 | Everything held in memory is in the written pack before memory is reset. |
| Staging.Stager.StageAll | server/src/storage/git_repo.rs:141-259 | For any walk order and threshold, staging fails if and only if a compressed advisory is corrupt or is there a second time as a file or a directory; otherwise the index holds the decompressed bytes of every compressed advisory, every other file as it is and what is left of the base, and every blob is packed. |
| Publication.SwapMeansParent | server/src/storage/git_repo.rs:284-296 | When the branch still has its prepared tip, the commit was staged over the very tree it replaces. |
| Publication.HistoryOnlyGrows | server/src/storage/git_repo.rs:154-296 | However syncs interleave, history only grows, and each commit is a proper tree and the overlay of one sync over its immediate parent. |
| Publication.CommitsAreLaid | server/src/storage/git_repo.rs:154-296 | In a repository that starts empty, every commit holds the decompressed downloads of one sync and what they leave of its immediate parent, and no path of it is also a directory of it. |
| Publication.FirstPublishWins | server/src/storage/git_repo.rs:262-296 | Of two syncs prepared from one tip the first to publish becomes the new tip and the second is refused; a sync that changed nothing publishes nothing. |
| Search.BeforeIsTotal | server/src/storage/mod.rs:198-204 | The hit order is total. |
| Search.NotBeforeIs | server/src/storage/mod.rs:198-204 | A hit may stand before another if and only if it is newer or the other is undated, or the dates are equal and domain, tracking id and CVE ascend. |
| Search.MergeTake | server/src/storage/mod.rs:180-207 | The first k of a merge depend only on the first k of each side. |
| Search.SortSameOrder | server/src/storage/documents.rs:153-161 | Within one provider the query's order is the global one. |
| Search.TopOfAnswers | server/src/storage/mod.rs:180-207 | Truncating every provider's answer loses nothing among the first k of all. |
| Search.AnswersTellTruncation | server/src/storage/mod.rs:182-205 | One hit more than asked for tells exactly whether anything was cut. |
| Search.SearchCve | server/src/storage/mod.rs:180-207 | The hits are the first of what was asked for in all providers: newest first, undated last, equal dates by domain, tracking id and CVE; hits and cut keys together are exactly the matches, no cut key belongs before a hit, and `truncated` holds if and only if something was cut. |
| Search.ArrivalOrderIsIrrelevant | server/src/storage/mod.rs:187-196 | The order in which databases answer does not show in the result. |
| Search.PrefixScanExact | server/src/storage/documents.rs:142-150 | The range scan finds an id if and only if it starts with the prefix and does not continue with U+10FFFF. |
| Search.MatchesIsAsked | server/src/storage/documents.rs:142-150 | The query condition holds of exactly the asked id, or of exactly the ids the range scan finds. |
| Overview.AnswersAreFresh | server/src/storage/overview.rs:41-127 | For every interleaving, every answer was listed and read from disk after each invalidation completed before its request took the lock, and holds every file its listing met. |
| Overview.AnswersTellDisk | server/src/storage/overview.rs:41-127 | Every answer is of the day asked for, and gives for each file it listed the content at some moment after every invalidation acknowledged before the request took the lock. |
| Overview.AcknowledgedWriteIsSeen | server/src/storage/overview.rs:41-127 | A file as it was at an acknowledged invalidation, and is since, shows so in every later answer: with that content if it is there, not at all if not. |
| Overview.WriteShows | server/src/storage/overview.rs:41-127 | A write or a removal followed by an invalidation shows in every answer to a later request, whatever else happens, until the file is written again. |
| Overview.CachedIsReused | server/src/storage/overview.rs:52-60 | A snapshot of the current generation and day is answered from the cache, without reading a file. |
| Overview.StaleIsRecomputed | server/src/storage/overview.rs:52-75 | A request that finds a snapshot of another generation or day answers nothing yet and starts computing anew. |
| Overview.InvalidationCounts | server/src/storage/overview.rs:77-80 | An invalidation makes every kept snapshot one of an earlier generation. |
| SummaryIndexes.IndexAgreesWithDisk | server/src/storage/cache.rs:86-153 | With per-provider writers serialised, a loaded index equals the files for every provider with no operation in flight, also when loads and reloads fail. |
| SummaryIndexes.QuiescentIndexIsDisk | server/src/storage/mod.rs:444-450 | With nothing in flight at all, a loaded index is the directory. |
| SummaryIndexes.SaveShows | server/src/storage/cache.rs:119-124 | A save that meets no other operation of its provider shows in a loaded index, and changes nothing else. |
| SummaryIndexes.DeletionShows | server/src/storage/cache.rs:126-131 | A deletion likewise. |
| SummaryIndexes.ReloadShows | server/src/storage/cache.rs:133-143 | A reload takes what the file holds, or that there is none. |
| SummaryIndexes.LoadShowsFiles | server/src/storage/cache.rs:95-106 | The first load, with nothing in flight, ends with exactly the files. |
| SummaryIndexes.SummaryIndex.All | server/src/storage/cache.rs:95-106 | The first use loads every file, or nothing when one cannot be read; later uses return what is loaded. |
| SummaryIndexes.SummaryIndex.Reload | server/src/storage/cache.rs:133-143 | After a reload the entry equals the file and no other entry moved; a read that fails leaves the index as it was. |
| Membership.MembershipTable.SaveDistributionMembership | server/src/storage/membership.rs:11-56 | The chunked delete-then-insert loops are replacement, no insert meets an existing key, and a row is there afterwards if and only if a given distribution lists it, or it was there and its distribution was not given. |
| Membership.ReplacedAllExactly | server/src/storage/membership.rs:11-56 | Every given distribution ends with exactly its new documents, every other one as it was. |
| Membership.ListedExactly | server/src/storage/membership.rs:11-56 | A row is there afterwards if and only if a given distribution lists it, or it was there and its distribution was not given. |
| Membership.DifferenceIsReplacement | server/src/storage/membership.rs:33-50 | Deleting the difference one way and inserting it the other way is replacement, and the inserted rows are new. |
| Sync.NoMissedUpdate | server/src/pipeline/sync.rs:170-207 | Over any complete, failed and aborted syncs, revalidations and remote changes, as long as every index loads and no pass dies between clearing a mark and writing its failures, whatever Git lacks is recent enough for the next filter or among the failures it retries. |
| Sync.NeverMissesIff | server/src/pipeline/sync.rs:170-278 | With skipped indexes and dying passes allowed, at no point of a run is anything missed if and only if no step of it loses a document. |
| Sync.SaveTokenValidIff | server/src/scheduler/runner.rs:411-416 | Advancing the token misses nothing if and only if every document whose indexes were all skipped is as Git has it, changed since the sync began, or is marked. |
| Sync.StepValidIff | server/src/scheduler/runner.rs:385-449 | A step keeps every remote change remembered if and only if it loses none: a skipped document by moving the token or by clearing its mark, one this sync failed to get by dying after clearing its mark, or any by a dying revalidation. |
| Sync.OnlyUnseenAreLost | server/src/pipeline/sync.rs:258-278 | A document can become forgotten only by a pass that dies, or by results or a token written by a sync that skipped all its indexes. |
| Sync.MissingIsSelected | server/src/pipeline/membership.rs:53-55 | The next sync selects every document Git lacks. |
| Sync.ForgetsExactly | server/src/scheduler/runner.rs:608-665 | Writing results, complete or dying, or advancing the token forgets exactly the documents the step loses. |
| Sync.ForgottenForever | server/src/pipeline/membership.rs:53-55 | A forgotten document stays forgotten until it changes, a full sync runs or a validation marks it. |
| Sync.AMarkCanBeLost | server/src/scheduler/runner.rs:631-665 | In a run from an empty mirror a document is fetched, changes, fails and is marked; a sync or a revalidation clears the mark and dies; and every later sync skips it. |
| Sync.AFailedFeedIsForgotten | server/src/pipeline/sync.rs:258-278 | In a run from an empty mirror a restricted feed fails to load once; the sync succeeds, and the feed's document is never fetched, by this sync or any later one. |
| Sync.ASkippedFeedLosesAMark | server/src/pipeline/sync.rs:258-278 | In a run from an empty mirror a document is fetched, changes, fails and is marked; the next sync skips its feed, and its completed full pass clears the mark for good. |
| Sync.MembershipSource.constructor | server/src/pipeline/sync.rs:179-207 | An empty database drops the token; a kept token brings the persisted failures. |
| Sync.MembershipSource.LoadIndex | server/src/pipeline/membership.rs:44-57 | A URL is recorded if and only if some entry of the index has it, and exactly the changed or failed advisories are kept, in order. |
| Progress.RecordIsInvisible | server/src/scheduler/runner.rs:99-106 | The coalesced queue publishes what every report one by one would have. |
| Progress.NoPhaseIsLost | server/src/scheduler/runner.rs:98-135 | For every interleaving, once all is published the phase history is the earlier one followed by every reported phase without repetitions, the progress is the last reported, and the counters are zero if a new phase began and as they were otherwise. |
| Progress.PublishedCounters | server/src/main.rs:281-305 | Counters of an earlier phase never show in a later one: they are all zero once a new phase began, and untouched otherwise. |
| Progress.RunCoalesces | server/src/scheduler/runner.rs:98-106 | However many reports a phase makes in a row, they take one place in the queue, and the last report is the last in it. |
| Progress.EverythingIsPublished | server/src/scheduler/runner.rs:109-135 | From any state, publishing what was drained, draining and publishing that leaves nothing unpublished. |
| Progress.StutterFreeSpec | server/src/main.rs:281-303 | That history never repeats a phase immediately, loses none and ends with the last. |
| Progress.Job.SetWork | server/src/main.rs:273-319 | A new phase completes the old one and sets all five counters to zero; otherwise only the progress moves and the counters stay. |
| Progress.BlockingProgress.Publish | server/src/scheduler/runner.rs:109-116 | Draining publishes the whole queue in order. |
| DiffView.AssignLineNumbers | dashboard/src/components/diff_view.rs:19-48 | Every line keeps its text and is numbered by its place in each document that has it. |
| DiffView.NumbersPointAtLines | dashboard/src/components/diff_view.rs:19-48 | A line number points at that very line of its document. |
| DiffView.NumbersAreConsecutive | dashboard/src/components/diff_view.rs:19-48 | Each side is numbered 1, 2, 3, ... without gap or repetition. |
| DiffView.MarkVisible | dashboard/src/components/diff_view.rs:58-67 | A line is visible if and only if a change is within the context. |
| DiffView.ComputeSections | dashboard/src/components/diff_view.rs:50-89 | Sections concatenate to the input, are not empty, alternate, and show exactly the lines near a change. |
| DiffView.SectionsUnique | dashboard/src/components/diff_view.rs:73-89 | Those properties admit only one list of sections. |

## Left out

- CSAF rule checking, signatures, digests, JSON, compression and the text diff: external libraries. Validation is an uninterpreted function; decompression is a function that may fail.
- That the fingerprint determines every shared input of validation is taken as given: `World.Inputs` has no other trace of them.
- SQL text, pooling and migrations. Tables are sequences of rows with auto-increment ids, and a transaction is one atomic step; the four deletions of all documents are four steps, as in the code.
- The report and download files a pass writes besides the summary, and the job status it updates on the way.
- libgit2 internals, `git gc`, HEAD repair, merge commits, non-UTF-8 names and symlink type changes. History is a linear chain; a file's mode is part of its blob identity.
- A malformed commit id in a checkpoint, which the code treats as no checkpoint without scanning; in the model an unknown id is scanned for.
- Sync.NoMissedUpdate: assumes that every index loads and that no pass dies between clearing a mark and writing its failures; Sync.NeverMissesIff drops both, but says nothing of a run that loses a document and finds it again.
- Mirror.NothingIsMissed: takes a sync's commit to be the head with the downloads laid over it; Mirror.StagedMirrorsIff says exactly when staging gives that.
- Limits.OneRowEachIff: is about rows present after one validation run, not about which of several colliding documents a provider meant.
- Overview.AnswersAreFresh: a file that appears or vanishes while the directory is listed may be in the answer or not, as a directory listing allows.
- SummaryIndexes.IndexAgreesWithDisk: a summary file is assumed to name the provider whose directory it is in, and a save is assumed not to be cancelled between file and index.
- Search.SearchCve: compares keys; which of several rows with the same key comes first is not fixed.
- DiffView.ComputeSections: line indices are unbounded, so an overflowing context is not modelled.
- `list_versions`, `next_newer_version`, `document_check_summary`, `filtered_documents` and the metrics code: queries and sums that would only add easy members.
- The CVE result cache and the rate limiter, whose semantics are in libraries; HTTP, routes, web hooks, the startup gate and the user interface.
- Section 5.1 of CSAF 2.0 speaks of character sequences where `lossy_tracking_id` replaces characters one by one; `World.Lossy` follows the code.
