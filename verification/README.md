# Mishkan: verified models of the durable core

Mishkan is a daemon that lets software agents work on a repository under recorded authority. The
files here model the parts of it whose correctness depends on more than one function, and prove
what those parts promise: over every interleaving and every crash where several callers share
state, over every input where one function transforms another's output.

`dafny verify dfyconfig.toml` checks everything.

## What is modelled

* **Durable artifacts** (`ArtifactRoots`, `ArtifactStore`, `ArtifactCalls`, `ArtifactService`).
  Uploads with a durable cursor, commit into a content-addressed body store, references, holds,
  pins, collections, and reachability-based garbage collection. `ArtifactStore` has one function for
  each transaction or file operation; the class `DurableArtifactService` runs the same calls with
  their loops, in place, and each method is proved against those functions. `ArtifactOutcomes` says
  field by field what each call answers and leaves, and `ArtifactRetention` what keeps an artifact
  from being collected, both in terms of the rows alone.
* **The commit/collect protocol** (`CasProtocol`, `CasSafety`, `CasResults`). The same operations
  cut into their atomic pieces, run by any number of threads under the striped lock, with a crash
  possible between any two pieces. `CasSchedule` ties the pieces back to the call; `CasStrays`
  follows the hidden copy of a crashed publication; `CasInspection`, `CasTornPublication` and
  `CasInspector` say which bodies the content inspector has passed; `CasReads` is about readers
  beside all this; `CasUploads` has the runs that upload content; `CasCollection` ties collections
  and reads back to the calls; `CasRetention` follows holds, pins, sources and prior targets through
  runs.
* **Reconciliation** (`Reconciliation`, `ReconciliationReplay`, `ReconciliationOutcomes`). Planning,
  validating and applying a repair plan, with crashes inside each phase; what it repairs, and what
  no plan, however stale, can harm.
* **Browser sessions** (`BrowserSessions`, `BrowserProtocol`, `BrowserFrames`, `BrowserSafety`,
  `BrowserResults`, `BrowserEffects`, `BrowserSupervisor`, `BrowserOutcomes`, `BrowserCauses`,
  `BrowserSchedule`). The revision compare-and-swap, the action journal written before dispatch,
  observations bound to a revision, and reconciliation after a restart; both as interleaved steps
  and as a class, and tied to each other.
* **Diagnostics, profiles and uploads** (`DiagnosticLog`, `ProfileArchive`, `ProfileRestores`,
  `UploadPayloads`). The bounded diagnostic buffer with absolute cursors against the unbounded log;
  profile snapshot and restore; the bounded read loops.
* **Plan execution** (`PlanGraph`, `PlanExecution`, `PlanRetries`, `PlanCycles`). The validator's
  cycle test and the execution loop with its nested review retries, for any answers of the agents.
* **Conversations** (`Interventions`, `InterventionRuns`, `InterventionOutcomes`, `Decisions`,
  `DecisionOutcomes`, `ConversationRepository`). The guards over a mission's history of
  interventions and the languages of histories that they admit, interleaved with the mission
  service's own writes; decision records and their lineage.
* **Configuration** (`ConfigMerge`, `ConfigObjects`, `ConfigAliases`, `ConfigSharing`,
  `ConfigLoading`, `ConfigOutcomes`). Deep merge of layers and the source recorded for each
  effective value. `ConfigMerge` is about the contents of documents; the others are about the
  mapping objects that the loader updates in place and that an alias in a file makes two positions
  share.
* **Context packs** (`ContextPack`, `ContextResults`, `ContextOutcomes`, `ContextMaterializer`).
  Manifest validation, materialisation into a fresh tree, and verification of such a tree.

Outside the model, and present as parameters or arguments: SHA-256 (any digest function, with
the shape of its output where that matters), the lock-striping hash, secret inspection, JSON and tar
encodings, Unicode normalisation and case folding, clocks, fresh identities, agents and the
browser driver. A transaction is one atomic step; a file creation, link, replacement or removal is
another.

## Where the code does less than its documentation, tests or names suggest

Each of these is a lemma, with the exact condition under which the promise does hold.

* Reconciliation can be blocked for ever. A crash inside a publication leaves a hidden copy beside its
  destination. No later step removes it; every later plan orders its deletion, the validator agrees, and
  the body store refuses its name (`CasStrays.CrashedPublicationBlocksReconciliation`). The upload of any
  content that can be stored can end so (`AnyUploadCanBlockReconciliation`). A plan completes if and only if
  no such file is listed (`ReplanFindsOnlyExpired`).
* A commit inspects its staged file before it publishes it, and an append can land in between. Rejected
  content can then become available, if and only if some content that the inspector passes has an extension,
  within the size limit, that it rejects (`AvailablePassesExactly`). The run that shows it needs an append
  between inspection and publication and an abort cut off between its unlink and its transaction
  (`RejectedContentCanBecomeAvailable`); without the first, or with a collision-free digest without the second,
  it cannot happen with any inspector (`UntornBodiesAreInspected`, `RowsStandForInspectedContent`).
* One observation can support two actions that the driver carried out. If an artifact of the first cannot be
  stored, its journal row stays open and its session unchanged, and a second key passes every check
  (`OneObservationActedOnTwice`). That is the only way: another action can follow if and only if the first
  could not be recorded (`AnotherCanFollowExactly`).
* A browser action reports that its observation was invalidated even when the driver raised, which leaves the
  observation usable. The claim is wrong exactly then (`InvalidationClaimIsFalseForFailures`,
  `ObservationAfterCall`).
* The diagnostics result is flagged as truncated whenever the request exceeds the configured limit, even
  if nothing was left out. The flag is exact if and only if the request is within that limit
  (`ReportedFlagIsExactWithinTheLimit`).
* The source recorded for a configuration value can be wrong. The merge updates mapping objects in place, and
  an alias in a file makes two positions share one: an overlay that sets a value by one of two paths changes
  it at the other too, whose recorded source still is the base file with the old value (`AliasMisreports`).
  A file is safe, whatever files without aliases follow, if and only if no mapping object in it is at a key path
  and anywhere else (`SafeFilesExactly`). A key with a dot, which some sections of the configuration allow, can
  also make the loader name a file that does not hold the value (`DottedKeyMisreports`). With dot-free keys and
  no aliases the sources are right for every load that returns (`LoadedProvenanceIsRight`). Without aliases, the
  layer loop by itself is right for all documents if and only if no two key paths share a dotted name
  (`ProvenanceExactly`).
* A manifest must list the content of every loaded skill, but the listed entry may be optional and then be
  omitted from the pack. The content is sure to be there if and only if a required entry has its digest
  (`SkillContentIsSureExactly`).
* The manifest's check that paths are portable across case rules folds whole paths. A file `Docs` beside
  `docs/a` passes it, and a valid manifest of the two is refused where case does not matter
  (`FoldedDirectoryCollides`). On
  any file system a pack can be written if and only if the places of its readable entries are apart
  (`MaterializesExactly`); where case matters, they always are (`ValidPacksNeverCollide`).
* Verifying a pack does not notice extra files (`VerifiesExactly`).

## Model

| member | source | states |
|---|---|---|
| ArtifactRoots.RootedIds | src/mishkan/artifacts/service.py:1356-1363 | the worklist stops on every finite edge map, cycles included, with exactly the ids that a provenance path from a root leads to |
| ArtifactRoots.AddSources | src/mishkan/artifacts/service.py:1359-1362 | the inner loop roots all sources of one artifact and queues exactly the newly rooted ones |
| ArtifactRoots.RootedIsClosed | src/mishkan/artifacts/service.py:1346-1364 | the rooted set holds the roots and is closed under provenance |
| ArtifactRoots.RootedIsLeast | src/mishkan/artifacts/service.py:1346-1364 | no smaller set holds the roots and is closed |
| ArtifactRoots.RootedMonotone | src/mishkan/artifacts/service.py:1305-1364 | adding roots never exposes an artifact to collection |
| ArtifactStore.StorageRefInjective | src/mishkan/artifacts/service.py:251-254 | two artifacts share a body reference exactly when their digests are equal |
| ArtifactStore.SetLifecycle | src/mishkan/artifacts/service.py:1177-1208 | after every lifecycle change the manifest's availability and integrity facts agree with the row |
| ArtifactCalls.CommitIsIdempotent | src/mishkan/artifacts/service.py:263-268 | committing again returns the same artifact and changes nothing |
| ArtifactCalls.InterruptedCommitRecovers | src/mishkan/artifacts/service.py:371-387 | a commit cut off after unlinking its staged file is completed by the next one to the same state, or refused once the body is gone |
| ArtifactCalls.ChunkIsAccepted | src/mishkan/artifacts/service.py:197-243 | a chunk at the cursor that fits is accepted and moves the cursor behind exactly the bytes staged |
| ArtifactCalls.PutSucceedsExactlyWhenStorable | src/mishkan/artifacts/service.py:165-195 | storing succeeds exactly when the size, the sources, the inspector and any body already at the reference permit it |
| ArtifactCalls.StoredContentReadsBack | src/mishkan/artifacts/service.py:428-453 | stored content reads back as itself exactly when no colliding content was there first |
| ArtifactCalls.LiveAfterTombstone | src/mishkan/artifacts/service.py:788-800 | after tombstoning, a reference is unclaimed exactly when the tombstoned rows were its last live ones |
| ArtifactCalls.SharedBodySurvives | src/mishkan/artifacts/service.py:755-811 | a collection deletes a shared body exactly when it takes the last live row of it |
| ArtifactCalls.SweptUnion | src/mishkan/artifacts/service.py:785-811 | the order in which the freed references are swept does not matter |
| ArtifactRetention.PlansSpareExactly | src/mishkan/artifacts/service.py:731-753 | a plan lists exactly the available artifacts older than its watermark from which no derivation leads back to an artifact that a reference, hold, pin, collection entry or piece of evidence names |
| ArtifactRetention.TombstoneSparesExactly | src/mishkan/artifacts/service.py:755-784 | a plan is refused exactly when it lists an artifact that such a derivation leads to by now; otherwise its available candidates, and no other row, are tombstoned |
| ArtifactRetention.SparedIsRooted | src/mishkan/artifacts/service.py:1305-1364 | the worklist roots exactly the artifacts that such a row names and everything that they were derived from |
| ArtifactRetention.SourcesAreSpared | src/mishkan/artifacts/service.py:1346-1364 | whatever keeps an artifact keeps all its sources |
| ArtifactRetention.CollectedExactly | src/mishkan/artifacts/service.py:755-811 | each row that a plan collects is deleted once no other row keeps its body, and tombstoned until then; every other row that was not tombstoned before stays as it was |
| ArtifactRetention.BodiesGoExactly | src/mishkan/artifacts/service.py:785-811 | a body goes exactly when the plan collects a row of it and no other row keeps it |
| ArtifactOutcomes.OpenExactly | src/mishkan/artifacts/service.py:107-163 | which uploads are opened, with which code others are refused, and the row that is left, sources included |
| ArtifactOutcomes.AppendRefusedExactly | src/mishkan/artifacts/service.py:197-224 | which chunks are accepted, and which refusals are revision mismatches |
| ArtifactOutcomes.AppendExactly | src/mishkan/artifacts/service.py:224-243 | an accepted chunk extends the staged file by itself and moves the cursor behind it; a refused one does nothing |
| ArtifactOutcomes.AbortExactly | src/mishkan/artifacts/service.py:459-469 | only a committed or unknown upload cannot be aborted; the row and the staged file afterwards |
| ArtifactOutcomes.CommitSucceedsExactly | src/mishkan/artifacts/service.py:257-395 | a commit succeeds exactly for an upload committed before, or one with a matching body staged or in place and no different one in its way, which the inspector does not reject; else its code |
| ArtifactOutcomes.CommitLeavesExactly | src/mishkan/artifacts/service.py:313-369 | the new row has the digest, size and sources of its upload and the body of the staged file; a rejected upload is aborted and unstaged; nothing else changes |
| ArtifactOutcomes.PutLeavesExactly | src/mishkan/artifacts/service.py:165-195 | stored content is an available artifact of its own digest and size with exactly the given sources, and no other row changes |
| ArtifactOutcomes.StoredSourcesAreSpared | src/mishkan/artifacts/service.py:336-345 | once content is stored, whatever keeps it keeps each of its sources, and no plan lists them |
| ArtifactOutcomes.ReadExactly | src/mishkan/artifacts/service.py:428-453 | a read answers with the body exactly when it is intact; else it marks the row, and only that, missing or corrupt |
| ArtifactOutcomes.ReferenceMovesExactly | src/mishkan/artifacts/service.py:590-648 | a reference moves exactly onto an available artifact from the revision seen, and remembers its last target with that revision |
| ArtifactService.DurableArtifactService.OpenUpload | src/mishkan/artifacts/service.py:107-163 | the new upload row and empty staged file, or the refusal with nothing changed |
| ArtifactService.DurableArtifactService.AppendChunk | src/mishkan/artifacts/service.py:197-243 | bytes and cursor move together, or the refusal of the first failing check with nothing changed |
| ArtifactService.DurableArtifactService.CommitUpload | src/mishkan/artifacts/service.py:257-395 | the state and answer of a commit in every case: replay, refusal, secret, publication, recovery |
| ArtifactService.DurableArtifactService.AbortUpload | src/mishkan/artifacts/service.py:459-469 | the upload aborted and its staged file gone, unless committed |
| ArtifactService.DurableArtifactService.PutBytes | src/mishkan/artifacts/service.py:165-195 | for every content and positive chunk size the chunk loop is never refused, and ends as one upload of the whole content |
| ArtifactService.DurableArtifactService.ReadBytes | src/mishkan/artifacts/service.py:428-453 | the whole body chunk by chunk, or the row marked missing or corrupt before the refusal |
| ArtifactService.DurableArtifactService.UpdateReference | src/mishkan/artifacts/service.py:590-648 | compare-and-swap on the revision, only onto an available artifact, remembering the prior target |
| ArtifactService.DurableArtifactService.PlanGc | src/mishkan/artifacts/service.py:731-753 | the candidates are exactly the available and unreachable artifacts created before the watermark's own clock reading |
| ArtifactService.DurableArtifactService.TombstoneCandidates | src/mishkan/artifacts/service.py:756-784 | all available candidates are tombstoned, or one is rooted and nothing changes |
| ArtifactService.DurableArtifactService.SweepRef | src/mishkan/artifacts/service.py:785-811 | one reference: unclaimed, its body goes and its tombstoned rows become deleted; claimed, nothing |
| ArtifactService.DurableArtifactService.ApplyGc | src/mishkan/artifacts/service.py:755-817 | the complete effect of applying a plan; absent and already applied plans change nothing |
| ArtifactService.DurableArtifactService.BodyIssues | src/mishkan/artifacts/service.py:851-879 | exactly the missing and corrupt bodies are listed, and the artifacts that they make unavailable |
| ArtifactService.DurableArtifactService.OrphanIssues | src/mishkan/artifacts/service.py:880-887 | exactly the listed bodies that no row claims |
| ArtifactService.DurableArtifactService.PlanReconciliation | src/mishkan/artifacts/service.py:819-922 | the recorded plan lists exactly what is diagnosed |
| ArtifactService.DurableArtifactService.ValidatePlan | src/mishkan/artifacts/service.py:1010-1107 | accepts exactly the plans all of whose issues still hold |
| ArtifactService.DurableArtifactService.ApplyReconciliation | src/mishkan/artifacts/service.py:924-1008 | the complete effect and answer of applying a plan |
| CasSafety.StepKeeps | src/mishkan/artifacts/service.py:245-369 | every atomic step keeps the protocol invariant, revives no row and keeps reachable artifacts uncollected |
| CasResults.AvailableHasItsBody | src/mishkan/artifacts/service.py:785-811 | in every interleaving with crashes an available artifact has a body of exactly its digest and size |
| CasResults.CommittedContentIsTheUploads | src/mishkan/artifacts/service.py:197-243 | chunks cut off from their cursor by a crash never surface in a committed body |
| CasResults.OneArtifactPerUpload | src/mishkan/artifacts/service.py:312-369 | no upload ever yields two artifacts |
| CasResults.RetriesReturnTheSameArtifact | src/mishkan/artifacts/service.py:263-268 | all commits of an upload that return, over any crashes and retries, return one artifact |
| CasResults.NothingIsRevived | src/mishkan/artifacts/service.py:1177-1208 | rows outlive every run with their identity, and no step makes an artifact available again |
| CasResults.RootedIsNeverCollected | src/mishkan/artifacts/service.py:755-784 | what stays reachable is collected by no plan, however old |
| CasResults.ReferencesNeverDangle | src/mishkan/artifacts/service.py:590-648 | in every reachable state a working reference targets no tombstoned or deleted artifact |
| CasResults.CollectionIsAllOrNothing | src/mishkan/artifacts/service.py:769-784 | a plan with a reachable candidate is refused as a whole; otherwise all its available candidates go and nothing reachable changes |
| CasRetention.HeldIsNeverCollected | src/mishkan/artifacts/service.py:650-681 | in every continuation of every run until its release, a held artifact and everything it was derived from is never tombstoned or deleted |
| CasRetention.PinnedIsNeverCollected | src/mishkan/artifacts/service.py:694-718 | the same for a pinned artifact |
| CasRetention.HoldsMoveExactly | src/mishkan/artifacts/service.py:650-681 | a hold takes an artifact that exists and keeps its first reason; only its release takes it back |
| CasRetention.PinsMoveExactly | src/mishkan/artifacts/service.py:694-718 | a pin takes an artifact that exists; only its release takes it back |
| CasRetention.SourcesAreThoseOfTheUpload | src/mishkan/artifacts/service.py:313-345 | in every run each artifact has the digest, size and sources with which its upload was opened |
| CasRetention.PriorIsThePreviousTarget | src/mishkan/artifacts/service.py:590-648 | in every run the prior target of a reference is the one that it had at the revision before |
| CasSchedule.CommitIsASchedule | src/mishkan/artifacts/service.py:245-395 | run alone, the atomic pieces of a commit are the commit in every case: replay, refusal, secret rejection, publication, collision and recovery |
| CasCollection.CollectionIsASchedule | src/mishkan/artifacts/service.py:755-817 | run alone, the atomic pieces of a collection, in whatever order the references are visited, are the collection |
| CasCollection.ReadIsASchedule | src/mishkan/artifacts/service.py:431-453 | run alone, the atomic pieces of a read are the read |
| CasStrays.TemporaryIsListedAndRefused | src/mishkan/artifacts/bodies.py:82-91 | the hidden name of every publication is shown by the blob listing and refused by the body store |
| CasStrays.StorableUploadCarries | src/mishkan/artifacts/service.py:298-314 | every upload that can be stored passes through a state in which its hidden copy is written |
| CasStrays.CrashedPublicationBlocksReconciliation | src/mishkan/artifacts/bodies.py:155-172 | if a run crashes there, the copy stays in every continuation, and every reconciliation plan made then is accepted by its validator and refused |
| CasStrays.AnyUploadCanBlockReconciliation | src/mishkan/artifacts/service.py:298-314 | the upload, from the start, of any content that can be stored, with a crash after its hidden copy was written, blocks reconciliation so |
| CasInspection.UntornBodiesAreInspected | src/mishkan/artifacts/service.py:298-328 | in every run in which no append lands between an inspection and its publication, the inspector passes the body of every available artifact |
| CasInspection.RowsStandForInspectedContent | src/mishkan/artifacts/service.py:315-332 | in every run in which no abort is cut off after its unlink, every artifact has the digest and size of content that passed the inspector, which is its body if the digest is collision-free |
| CasTornPublication.RejectedContentCanBecomeAvailable | src/mishkan/artifacts/service.py:459-469 | for any content that is rejected though a first part of it passes, a run from the start with both ends with it as the body of an available artifact |
| CasInspector.AvailablePassesExactly | src/mishkan/artifacts/service.py:281-369 | in every interleaving with crashes the inspector passes the body of every available artifact, if and only if none of its passing contents has an extension, within the size limit, that it rejects |
| CasReads.ReadersGetTheRecordedDigest | src/mishkan/artifacts/service.py:432-453 | a reader that opens the body again, however long after it read the manifest and whatever commits, collections and crashes came in between, gets bytes of the recorded digest or finds none |
| Reconciliation.RowsOfPlan | src/mishkan/artifacts/service.py:959-1001 | the row transaction has one effect whatever the order of its issues |
| Reconciliation.OrphansOfPlan | src/mishkan/artifacts/service.py:934-955 | the orphan loop deletes all orphans exactly when every one has a well-formed name |
| ReconciliationReplay.IssueSurvives | src/mishkan/artifacts/service.py:1010-1107 | every planned issue passes its re-check however much of the plan was already applied |
| ReconciliationReplay.ResumeEndsTheSame | src/mishkan/artifacts/service.py:924-1008 | from any partly applied state the plan completes exactly when no stray file is listed, and then ends in the uninterrupted state |
| ReconciliationReplay.CrashIdempotent | src/mishkan/artifacts/service.py:924-1008 | however often and wherever it crashes, the plan is accepted again and the next run ends as an uninterrupted one |
| ReconciliationReplay.ReplanFindsOnlyExpired | src/mishkan/artifacts/service.py:819-922 | a fresh plan is never refused by its validator, completes exactly without stray files, and leaves nothing but expired uploads to diagnose |
| ReconciliationOutcomes.DiagnosedExactly | src/mishkan/artifacts/service.py:819-922 | what is diagnosed, in terms of broken rows, unnamed listed bodies, references and collections that name something unusable, and uploads untouched for longer than the limit |
| ReconciliationOutcomes.RepairsExactly | src/mishkan/artifacts/service.py:924-1008 | a plan that completes where it was made marks exactly the broken rows, deletes exactly what names something unusable and the listed bodies that no row names, and aborts exactly the stale uploads |
| ReconciliationOutcomes.NoPlanHarms | src/mishkan/artifacts/service.py:924-1107 | whatever plan is applied in whatever state, no intact row is marked, no usable reference or collection and no named body is deleted, and no upload is aborted that is not stale |
| ReconciliationOutcomes.StillHoldsExactly | src/mishkan/artifacts/service.py:1010-1107 | when an issue of a plan still holds |
| ReconciliationOutcomes.AnsweredExactly | src/mishkan/artifacts/service.py:924-1008 | the answer of every application, and what it leaves of the plan |
| BrowserSessions.ActRefusal | src/mishkan/browser/service.py:313-325 | an action passes exactly when session, owner, state, revision, observation and verdict permit it |
| BrowserSessions.InvalidationClaimIsFalseForFailures | src/mishkan/browser/service.py:419-471 | the reported invalidation is wrong exactly when the driver raised; the same checks then pass again, as after a cancellation |
| BrowserResults.StepKeeps | src/mishkan/browser/service.py:302-471 | every step of every call keeps the journal, session and effect invariants |
| BrowserResults.DispatchedAtMostOnce | src/mishkan/browser/service.py:400-415 | over all retries, crashes and restarts the driver acts at most once per idempotency key, and only after the journal row |
| BrowserResults.RevisionsCountUpdates | src/mishkan/browser/service.py:729-737 | each change of a session row raises its revision by one and starts from a live state |
| BrowserResults.TerminalSessionsStay | src/mishkan/browser/service.py:523-636 | closed, lost, failed and uncertain sessions are never touched again |
| BrowserResults.OneEffectPerObservation | src/mishkan/browser/service.py:313-322 | no observation supports two actions recorded as completed or uncertain |
| BrowserResults.CompletedActionsReplay | src/mishkan/browser/service.py:1092-1121 | a completed request returns its stored result for ever, and its key refuses any other request |
| BrowserResults.InFlightActionsAreUnresolved | src/mishkan/browser/service.py:400-415 | an action past its journal row is unresolved, so a restart that interrupts it finds it |
| BrowserEffects.OneRecordedActPerObservation | src/mishkan/browser/service.py:400-471 | in every run, of two dispatches on one observation in which the driver acted, or may have, at least one could not be recorded |
| BrowserEffects.AnotherCanFollowExactly | src/mishkan/browser/service.py:454-471 | after a dispatch in which the driver acted, or may have, some continuation dispatches another key on the observation if and only if an artifact of the first could not be stored |
| BrowserEffects.OneObservationActedOnTwice | src/mishkan/browser/service.py:454-471 | a run from the start in which the driver acts twice on one observation |
| BrowserSupervisor.RepeatedActHasNoEffect | src/mishkan/browser/service.py:302-312 | repeating a call returns its result or refuses, and has no further effect |
| BrowserSupervisor.ObservationAfterCall | src/mishkan/browser/service.py:412-471 | after a call the same request passes under a fresh key exactly when the driver raised, was cancelled, or acted without its artifacts being stored |
| BrowserOutcomes.ActionPassesExactly | src/mishkan/browser/service.py:313-325 | which actions pass, and the code of the first check that fails |
| BrowserOutcomes.ClosePassesExactly | src/mishkan/browser/service.py:523-548 | only the owner closes; a session that is closed already, or active with a live handle |
| BrowserOutcomes.UsedKeysReplayExactly | src/mishkan/browser/service.py:302-312 | a used key answers its own request with the stored result, and refuses every other |
| BrowserOutcomes.ActionsLeaveExactly | src/mishkan/browser/service.py:400-471 | the journal row, the session and the result, field by field, for every driver outcome |
| BrowserOutcomes.RefusedActionsLeaveNothing | src/mishkan/browser/service.py:313-399 | an action that fails a check leaves no trace |
| BrowserCauses.StatesHaveCauses | src/mishkan/browser/service.py:89-636 | in every run each state of a session was brought about by an event that calls for it; in particular a session is closed only by a close whose driver closed |
| BrowserCauses.OwnersStay | src/mishkan/browser/service.py:89-636 | in every run a session keeps its owner |
| BrowserCauses.StrangersBeginNothing | src/mishkan/browser/service.py:683-701 | nobody but its owner begins an observation, action or close of a session |
| BrowserSchedule.ActIsASchedule | src/mishkan/browser/service.py:302-471 | run alone, the events of an action leave the rows of the call, whatever the driver does |
| BrowserSchedule.OpenIsASchedule | src/mishkan/browser/service.py:89-187 | run alone, the events of an open leave the session that its outcome calls for |
| BrowserSchedule.CloseIsASchedule | src/mishkan/browser/service.py:523-581 | run alone, the events of a close change exactly the owner's active session with a live handle |
| BrowserSchedule.RestartIsASchedule | src/mishkan/browser/service.py:583-636 | run alone, the events of a restart, in whatever order, leave every live session reconciled and no other changed |
| BrowserSupervisor.Supervisor.Open | src/mishkan/browser/service.py:89-187 | state, effect, pages, persistence and handle of an opened session for every driver outcome |
| BrowserSupervisor.Supervisor.Act | src/mishkan/browser/service.py:302-471 | rows and answer of an action for every driver outcome |
| BrowserSupervisor.Supervisor.Close | src/mishkan/browser/service.py:523-581 | closed exactly if the driver closed and uncertain otherwise with the effect that its persistence calls for, two revisions on, and the handle gone; otherwise refused without change |
| BrowserSupervisor.Supervisor.ReplaceSession | src/mishkan/browser/service.py:729-737 | compare-and-swap of one row |
| BrowserSupervisor.Supervisor.IncompleteEffects | src/mishkan/browser/service.py:597-602 | exactly the sessions with an unresolved action, each with the effect of one of them |
| BrowserSupervisor.Supervisor.ReconcileAll | src/mishkan/browser/service.py:583-636 | no live session is left; each was made uncertain exactly when an action or lifecycle effect was in flight, and lost otherwise |
| DiagnosticLog.LiveDiagnostics.Record | src/mishkan/browser/playwright.py:723-735 | the buffer stays the newest part of the log, with absolute cursors |
| DiagnosticLog.LiveDiagnostics.Diagnostics | src/mishkan/browser/playwright.py:430-463 | the one page that the whole log owes the reader, or a gap exactly when entries from the cursor on were dropped |
| DiagnosticLog.LiveDiagnostics.Take | src/mishkan/browser/playwright.py:447-458 | the matching entries in order up to the limit |
| DiagnosticLog.LiveDiagnostics.Remaining | src/mishkan/browser/playwright.py:459-462 | whether a matching entry is left |
| DiagnosticLog.PageIsUnique | src/mishkan/browser/playwright.py:430-463 | log, cursor, channels and limit determine the page |
| DiagnosticLog.PagesExactly | src/mishkan/browser/playwright.py:430-463 | a page holds, in order, exactly the entries on its channels from the cursor up to the next one, is full or reaches the end, and is truncated exactly when such an entry follows |
| DiagnosticLog.ChainedReadsRefineTheLog | src/mishkan/browser/playwright.py:430-463 | chained pages are exactly the matching log entries in order, without loss or repetition, however records interleave |
| DiagnosticLog.UntruncatedReaderHasEverything | src/mishkan/browser/playwright.py:459-463 | a page is not truncated exactly when the reader then has every matching entry |
| DiagnosticLog.ReportedFlagIsExactWithinTheLimit | src/mishkan/browser/service.py:473-517 | the supervisor's flag is exact for every log if and only if the request is within the configured limit |
| ProfileArchive.ReadBounded | src/mishkan/browser/service.py:938-953 | the whole file whatever the chunking, or nothing once it exceeds the budget |
| ProfileArchive.Visit | src/mishkan/browser/service.py:912-971 | succeeds exactly on trees of files and directories within the bound, and lists every entry |
| ProfileArchive.ArchiveDirectory | src/mishkan/browser/service.py:907-983 | archives exactly the supported trees whose contents and whose encoding are within the bound |
| ProfileArchive.Restore | src/mishkan/browser/service.py:816-904 | the restored tree, or the refusal for an existing working directory, an oversized archive or the first bad member, with nothing left behind |
| ProfileArchive.SnapshotRestores | src/mishkan/browser/service.py:816-983 | every tree that the snapshot accepts is restored under the same bound with the same names, directories and contents |
| ProfileRestores.SnapshotsExactly | src/mishkan/browser/service.py:907-983 | a tree is archived exactly when nothing in it, at whatever depth, is neither a file nor a directory, and its bytes and their encoding are within the bound |
| ProfileRestores.RestoresExactly | src/mishkan/browser/service.py:816-904 | which archives are restored, however they were made: within the bound, at admissible paths, with no file at or above another member's path |
| ProfileRestores.RestoresStayInside | src/mishkan/browser/service.py:840-899 | the restored tree holds the members and the directories that lead to them and nothing else, and no path leads upwards |
| UploadPayloads.Read | src/mishkan/browser/playwright.py:815-874 | all files, whole and in order, exactly when each is readable in scope and together they fit the bound; otherwise the first bad one decides |
| UploadPayloads.ReadableExactly | src/mishkan/browser/playwright.py:815-874 | what is readable: a relative path without an upward part that names a file of the workspace |
| PlanGraph.AcyclicMeansSomeTaskIsReady | src/mishkan/planning/validator.py:433-442 | a graph has no cycle exactly when every non-empty set of tasks has one that waits for none of them |
| PlanGraph.HasCycle | src/mishkan/planning/validator.py:433-442 | reports a cycle exactly when there is one |
| PlanExecution.SomeTaskIsReady | src/mishkan/crewai/flow.py:123-129 | an unfinished executable plan always has a ready task |
| PlanExecution.AcceptedOnce | src/mishkan/crewai/flow.py:226-234 | no task is accepted twice, nor again after a resume |
| PlanExecution.ProposalsAreLegal | src/mishkan/crewai/flow.py:150-206 | the nested retries review only verified results of the claimed task, within rounds times rounds reviews |
| PlanRetries.ProposalsFinish | src/mishkan/crewai/flow.py:150-206 | work on a claimed task goes on review by review, from the same result after a futile one and from a new proposal after a rejection, until the trace decides it or something stops it |
| PlanRetries.AcceptedExactly | src/mishkan/crewai/flow.py:150-224 | a task is accepted with a result exactly when this work leads to a review that approves it: one of the first retries + 1 proposals, after only rejected ones, within its retries + 1 reviews |
| PlanRetries.FailedExactly | src/mishkan/crewai/flow.py:150-216 | a task fails exactly when the work leads to retries + 1 rejecting reviews since its claim, or to retries + 1 futile ones in a row |
| PlanRetries.InterruptedExactly | src/mishkan/crewai/flow.py:129-206 | it is interrupted exactly where the flow is stopped or a proposal does not answer the task |
| PlanRetries.UnstoppedTasksAreDecided | src/mishkan/crewai/flow.py:150-216 | if nothing stops the flow and every proposal verifies, a task is accepted unless it was refused that often |
| PlanRetries.RunsFailOnlyThen | src/mishkan/crewai/flow.py:116-234 | a whole run fails on a task only after it was refused that often |
| PlanRetries.AcceptedResultsAreEarned | src/mishkan/crewai/flow.py:150-224 | an accepted result cites only evidence of its task, all of it checked by the accepting review just before |
| PlanRetries.PassesClaimInOrder | src/mishkan/crewai/flow.py:129-149 | a pass claims its tasks in the order in which they are ready |
| PlanRetries.ReadyTasksKeepPlanOrder | src/mishkan/crewai/flow.py:123-128 | the ready tasks are in plan order |
| PlanExecution.ExecutionIsSound | src/mishkan/crewai/flow.py:116-234 | for any answers the run claims tasks only after their dependencies, accepts only reviewed results by their own review, bounds reviews by (retries + 1) squared, and ends with every task accepted or a reason why not |
| PlanExecution.WillingAgentsFinish | src/mishkan/crewai/flow.py:116-234 | if nothing stops the flow, proposals verify and reviews authorize, every executable plan is completed from any resumed set |
| PlanCycles.LoopSpinsExactlyOnCycles | src/mishkan/crewai/flow.py:121-129 | from the start, with agents that accept everything, the loop comes to spin without a ready task exactly when the dependencies have a cycle, and otherwise completes the plan |
| PlanExecution.ReviewResult | src/mishkan/crewai/flow.py:170-203 | the inner review loop, answer for answer |
| PlanExecution.SettleTask | src/mishkan/crewai/flow.py:150-206 | the outer proposal loop, answer for answer |
| PlanExecution.ReadyTasks | src/mishkan/crewai/flow.py:124-128 | exactly the pending tasks with completed dependencies, in plan order |
| PlanExecution.RunReady | src/mishkan/crewai/flow.py:129-234 | one pass over the ready tasks and what it accepts |
| PlanExecution.ExecutePlan | src/mishkan/crewai/flow.py:116-240 | the whole loop ends on every executable plan with the trace and report of the specification |
| Interventions.ByTimeKinds | src/mishkan/conversations/repository.py:614-632 | with strictly increasing times per target, reading by time gives the order of application |
| InterventionRuns.ControlLanguageExactly | src/mishkan/conversations/repository.py:602-639 | the task guard admits exactly the words of (suspend resume)* suspend? stop? |
| InterventionRuns.ReassignmentLanguageExactly | src/mishkan/conversations/repository.py:676-702 | the sequence guard admits exactly the words of (request confirm)* request? |
| InterventionOutcomes.AdmittedExactly | src/mishkan/conversations/repository.py:247-345 | which new interventions a reachable repository admits: mission, revision and conversation agree, the target is there, nothing on it is later, its history stays a word of its language, and escalation and mission allow it |
| InterventionOutcomes.AppliedExactly | src/mishkan/conversations/repository.py:296-345 | what an admitted one changes: history, mission state and revision, and the answer of its escalation |
| InterventionOutcomes.RefusedExactly | src/mishkan/conversations/repository.py:247-345 | the code of every refusal on a known mission at the revision seen, in the order of the guards |
| InterventionOutcomes.EarlyRefusals | src/mishkan/conversations/repository.py:247-275 | the codes before any guard |
| InterventionOutcomes.RecordedSayWhatTheyDo | src/mishkan/conversations/models.py:536-603 | in every run the recorded interventions are of kinds that fit their targets, and carry exactly the answer or mission state that goes with them |
| InterventionRuns.HistoriesStayInTheirLanguages | src/mishkan/conversations/repository.py:602-702 | in every run the controls of each task and the reassignments of each target are such words, and each proposal and risk is settled at most once |
| InterventionRuns.EscalationsAreAnsweredOnce | src/mishkan/conversations/repository.py:274-305 | an escalation has at most one answer, by an intervention of its own mission, with one of its own options |
| InterventionRuns.RevisionsCountInterventions | src/mishkan/conversations/repository.py:306-328 | a mission's revision counts its interventions and the mission service's own writes, one each |
| InterventionRuns.InterventionsAreDistinct | src/mishkan/conversations/repository.py:260-263 | no identity is recorded twice |
| InterventionRuns.TerminalMissionsStay | src/mishkan/conversations/repository.py:528-544 | completed, failed and cancelled missions keep that state in every continuation |
| InterventionRuns.StoppedMissionsStayStopped | src/mishkan/conversations/repository.py:528-544 | after a stop a mission takes no further lifecycle control and is in a terminal state |
| InterventionRuns.AppliedOnce | src/mishkan/conversations/repository.py:782-789 | an applied record is answered without effect at any later time, and its identity refuses any other record |
| ConversationRepository.SQLiteConversationRepository.FindIntervention | src/mishkan/conversations/repository.py:261-261 | the stored record of an identity, if there is one |
| ConversationRepository.SQLiteConversationRepository.NewestOn | src/mishkan/conversations/repository.py:643-658 | the maximum time on a target |
| ConversationRepository.SQLiteConversationRepository.ApplyIntervention | src/mishkan/conversations/repository.py:247-345 | escalation, mission and history rows together, or the first failing guard's code with nothing changed |
| ConversationRepository.SQLiteConversationRepository.RequireDecisionLineage | src/mishkan/conversations/repository.py:467-526 | refuses exactly the settlements that do not continue an unsettled staged recommendation |
| ConversationRepository.SQLiteConversationRepository.RecordDecision | src/mishkan/conversations/repository.py:427-465 | the decision recorded, answered idempotently, or refused with nothing changed |
| Decisions.OnlySettlementsSupersede | src/mishkan/conversations/models.py:366-375 | a valid decision names a superseded one exactly when it is an accepted or rejected one |
| Decisions.NoSettlementElsewhere | src/mishkan/conversations/repository.py:510-526 | searching rivals within the mission is enough |
| Decisions.EverySettlementHasItsOwnProposal | src/mishkan/conversations/repository.py:467-526 | in every run a settlement equals its staged proposal in mission, conversation, producer, subject, scope, authority, context, evidence, criteria, alternatives, search and recommendation, and drops no reference; no other decision settles it; lineage depth is one |
| Decisions.AcceptedOptionsAreEarned | src/mishkan/conversations/models.py:337-442 | an accepted option is the credible one that its proposal recommended, compared with another after a documented search, and passed by someone other than its producer |
| DecisionOutcomes.RecordedDecisionsCompare | src/mishkan/conversations/models.py:395-431 | in every run the alternatives of a structured decision differ, are assessed by all its criteria alike, and stand against others after a search; it is inconclusive exactly when it recommends none |
| DecisionOutcomes.RecordedDecisionsAreGrounded | src/mishkan/conversations/models.py:421-442 | in every run the criteria come from the declared context or evidence, and verified claims from referenced sources |
| DecisionOutcomes.RecordedActorsAreApart | src/mishkan/conversations/models.py:337-394 | in every run producer, deciding actor and evaluator play their parts; the evaluator is never the producer |
| DecisionOutcomes.RefusedExactly | src/mishkan/conversations/repository.py:427-526 | the code of every refusal |
| Decisions.VerifiedEvidenceSurvives | src/mishkan/conversations/models.py:431-437 | verified evidence of a proposal stays referenced by its settlement |
| Decisions.AdmittedExactly | src/mishkan/conversations/repository.py:427-526 | which new decisions a reachable table admits, if and only if: a settlement needs an open proposal with the same thirteen fields and all its references |
| Decisions.DecisionsAreImmutable | src/mishkan/conversations/repository.py:782-789 | recorded decisions never change; the same record is answered without effect and another one under its identity refused |
| ConfigMerge.LeafPathsExactly | src/mishkan/config/loader.py:171-180 | the recorded names are exactly those of the leaves: scalars, sequences and empty mappings |
| ConfigMerge.MergedLeaf | src/mishkan/config/loader.py:162-169 | every leaf of a merge of contents comes from the overlay, or from the target where the overlay has no leaf |
| ConfigMerge.OverlayWins | src/mishkan/config/loader.py:162-169 | in a merge of contents the overlay's scalars and sequences win, and keys that it does not mention keep their subtree |
| ConfigMerge.ProvenanceIsRight | src/mishkan/config/loader.py:65-98 | for contents of documents without aliases: with distinct leaf names every effective leaf has a recorded source that holds the same value there |
| ConfigMerge.ProvenanceExactly | src/mishkan/config/loader.py:88-91 | without aliases the layer loop by itself is right for all documents over a vocabulary of key paths if and only if no two of them share a dotted name |
| ConfigMerge.DotFreeProvenanceExactly | src/mishkan/config/loader.py:171-180 | without aliases and over dot-free keys the layer loop by itself is always right if and only if the empty key is not among them |
| ConfigMerge.NoEmptyTopLevelKeyIsEnough | src/mishkan/config/loader.py:171-180 | without aliases and without an empty top-level key dot-free documents always have right sources, whatever keys are nested |
| ConfigObjects.UnaliasedMerge | src/mishkan/config/loader.py:162-169 | merging mapping objects in place, in whatever order keys come, leaves in the target the merge of what both held, changes no object but the target's own, and stops only at the recursion limit, if what the merge may update is at one place only |
| ConfigObjects.LeafNamesRead | src/mishkan/config/loader.py:171-180 | the names read from mapping objects are those of the content they hold |
| ConfigAliases.UnaliasedIsTree | src/mishkan/config/loader.py:145-160 | a file none of whose mapping objects is at a key path and anywhere else is one that can be merged so |
| ConfigAliases.UnaliasedLayers | src/mishkan/config/loader.py:65-98 | without aliases the layer loop in place has, after every layer, the merged content and the sources of the loop on contents, unless the recursion limit stops it |
| ConfigAliases.UnaliasedIsRight | src/mishkan/config/loader.py:65-98 | without aliases, with dot-free keys and no empty top-level key, every value in the merged object has a recorded source that holds it at the same path |
| ConfigSharing.ChainMerge | src/mishkan/config/loader.py:162-169 | merging a document with one value in place sets it in the one mapping object that its path leads to, shared or not |
| ConfigSharing.SharingMisleads | src/mishkan/config/loader.py:162-169 | when a mapping object is at a key path and anywhere else, in another mapping or in a sequence, a later file that sets one value in it by that path ends in a wrong source |
| ConfigSharing.SafeFilesExactly | src/mishkan/config/loader.py:65-98 | whatever files without aliases follow a file, every value is reported rightly, if and only if none of its mapping objects is at a key path and anywhere else |
| ConfigLoading.ConfigLoader.DeepMerge | src/mishkan/config/loader.py:162-169 | the recursive loop updates the mapping objects as specified, or is stopped by the recursion limit or by an overlay that grows while it is visited |
| ConfigLoading.ConfigLoader.LeafPathsOf | src/mishkan/config/loader.py:171-180 | the recursive loop collects the leaf names of the objects as they are |
| ConfigLoading.ConfigLoader.AddLayer | src/mishkan/config/loader.py:88-91 | one layer: merged in place, and then all its leaves recorded as its own |
| ConfigLoading.ConfigLoader.Load | src/mishkan/config/loader.py:57-120 | accepts exactly one or more readable files of one supported version whose merge ends and has only declared fields and a valid content; otherwise the first problem decides the code |
| ConfigLoading.ConfigLoader.LoadLayers | src/mishkan/config/loader.py:70-98 | the layer loop, stopped by the first file that is unreadable, unsupported, of another version, or beyond the interpreter's limits |
| ConfigLoading.TopLevelKeysSurvive | src/mishkan/config/loader.py:162-169 | a merge never drops a top-level key, so the validator sees all of them |
| ConfigOutcomes.LoadsExactly | src/mishkan/config/loader.py:57-120 | files without aliases are loaded exactly when there is one, all are readable and of one supported version, all top-level keys of their merged contents are declared, and the values are valid |
| ConfigOutcomes.StopsExactly | src/mishkan/config/loader.py:70-98 | the loop stops at the first file that is not of one kind with those before it, with the code of its problem |
| ConfigLoading.UnsharedFilesLoadAsContents | src/mishkan/config/loader.py:65-98 | files without aliases are loaded as their contents, whatever the key order, and get through unless the recursion limit stops them |
| ConfigLoading.LoadedProvenanceIsRight | src/mishkan/config/loader.py:57-131 | for every load that returns, with dot-free keys and no aliases, every value has a recorded source whose own document holds the same at the same path |
| ConfigLoading.AliasMisreports | src/mishkan/config/loader.py:147-169 | whenever the validator accepts the outcome, an overlay that sets a value by one of two key paths to a shared mapping makes the load return the new value at the other path too, with the base file, which holds the old one, as its source |
| ConfigLoading.DottedKeyMisreports | src/mishkan/config/loader.py:171-180 | whenever the validator accepts two plain agent routes, a three-file load without aliases and with one dotted key returns a source that does not hold the value |
| ContextPack.SafePathExactly | src/mishkan/context/models.py:41-56 | a logical path is accepted exactly when each of its components is a proper name and the first is not reserved |
| ContextPack.RoomExactly | src/mishkan/context/materializer.py:61-63 | a file can be created exactly where nothing written so far is at, above or below its place |
| ContextOutcomes.ValidManifestsExactly | src/mishkan/context/models.py:87-138 | which manifests are valid, entry by entry |
| ContextOutcomes.ReadExactly | src/mishkan/context/materializer.py:169-202 | an entry is read exactly from a usable artifact whose record and bytes both agree with it |
| ContextPack.ValidPacksNeverCollide | src/mishkan/context/models.py:87-102 | where case matters, a valid manifest never collides: no path written twice, no file needed as a directory, nothing touching the metadata file; it is refused exactly when a required entry cannot be read |
| ContextPack.FoldedDirectoryCollides | src/mishkan/context/models.py:92-102 | a manifest of a file and another below a directory of the same folded name is valid, and refused with a conflict where case does not matter |
| ContextPack.MaterializesExactly | src/mishkan/context/materializer.py:39-85 | on any file system a valid manifest materialises exactly when its required entries can be read and the places of its readable entries and of the metadata are apart; its tree then holds exactly those |
| ContextResults.PackIsComplete | src/mishkan/context/materializer.py:247-262 | written and omitted entries partition the manifest, no required entry or contract is omitted, and the total stays within the bound |
| ContextResults.FreshPackVerifies | src/mishkan/context/materializer.py:87-113 | verification accepts what materialisation built |
| ContextOutcomes.PackedFilesExactly | src/mishkan/context/materializer.py:49-70 | the file of every written entry holds the bytes of its artifact, with the entry's digest and size |
| ContextOutcomes.PacksKeepOrder | src/mishkan/context/materializer.py:49-70 | entries are written in the manifest's order |
| ContextOutcomes.RecordsVerifyExactly | src/mishkan/context/materializer.py:83-113 | what verification compares, for any record and any tree |
| ContextResults.VerifiesExactly | src/mishkan/context/materializer.py:87-113 | with a collision-free digest it accepts exactly the trees that hold every file of the pack unchanged |
| ContextResults.SkillContentIsSureExactly | src/mishkan/context/models.py:117-135 | loaded skill content is sure to be in the pack if and only if a required entry has its digest |
| ContextMaterializer.ContextPackMaterializer.Stage | src/mishkan/context/materializer.py:49-70 | the entry loop fills the staging tree, or refuses at the first required entry that cannot be read |
| ContextMaterializer.ContextPackMaterializer.Materialize | src/mishkan/context/materializer.py:39-85 | a new destination receives the whole pack, or nothing changes |
| ContextMaterializer.ContextPackMaterializer.Verify | src/mishkan/context/materializer.py:87-113 | the verification loop decides the specification of a verified tree |

## Left out

- HTTP, CLI and daemon wrappers, composition, credentials and environment plumbing: no property of their own.
- Authorization tables (src/mishkan/application/authorization.py): finite agreement facts.
- The S3 body store, boto3 and the artifact store of src/mishkan/artifacts/store.py: foreign semantics, or easier members of the same kind.
- import_legacy_manifests: takes no lock and stands outside the commit and collection protocol.
- Browser engine calls, network mediation, DOM evidence, origin and URL parsing: seen as one verdict on the action, or as the driver's outcome.
- Observation artifacts and session secrets: not part of the session model.
- Legacy or malformed collection payloads, and the check of a collection's members outside its own transaction: any collection may be created at any time.
- The order of reconciliation issues is that of an unmodelled sort key; the theorems hold for every order.
- Setting an upload to "uncertain" and raising in the same transaction: the transaction rolls it back, so it has no effect.
- Short writes and failing file operations other than crashes: a chunk may be cut off at any byte, other operations succeed or did not happen.
- Uploads are not roots: a source may be collected between open and commit, as in the code.
- CasProtocol.RootStep: collections and evidence appear as arbitrary transactions on the roots.
- CasResults.AvailableHasItsBody: row transactions of reconciliation plans, however stale, are steps of the protocol; creation of bodies from outside the service is not.
- CasProtocol.CopyStep: verifying and copying the staged file is one step, so the hidden copy is complete whenever it is there.
- ReconciliationReplay.CrashIdempotent: nothing else runs between the crashes; concurrent operations can make a plan stale, and the validator then refuses it.
- Modes, owners and times of restored profile files; directories are always made private by the code.
- ProfileArchive.SnapshotRestores: the tar encoding of a member list is taken to be faithful; its size is any function of the list.
- ProfileRestores.RestoresExactly: a member whose path is taken, or that cannot be opened, raises an error of the operating system in the code; here it is a refusal with the browser code.
- DiagnosticLog.LiveDiagnostics.Record: payload keys named like the entry's own fields would overwrite them in the code; here payloads are separate. The cursor gap's error envelope is one code.
- PlanExecution.ExecutePlan: persistence of claims, interruptions and failures, and the result validator's own rules beyond cited and checked evidence, are behind the agents' answers.
- Conversation channels, messages and their authority: one verdict on the channel.
- InterventionRuns.RevisionsCountInterventions: the mission service's preconditions on briefs, crews and plans are dropped, so its writes are a superset of the real ones.
- Risk statements of a mission: an arbitrary set that may change at any time.
- The unique index behind concurrent settlements of one recommendation: transactions are atomic here, so the lineage check suffices.
- Bounds on text lengths and the numeric confidence of a recommendation.
- ArtifactService.DurableArtifactService.PlanGc: the code compares times as text, so a watermark with an offset counts by its own clock reading and not as an instant; the model's watermark is that reading, and ages are true ages for UTC watermarks only.
- ConfigLoading.ConfigLoader.Load: documents are parsed before the loop starts and not one by one; an exception of the interpreter, at its recursion limit or for a mapping that grows while it is visited, is one code.
- ConfigSharing.SafeFilesExactly: files with a mapping that contains itself, whose content is infinite, are not covered.
- ConfigMerge.ProvenanceExactly: keys are strings; non-string nested keys can collide with their text.
- ConfigLoading.AliasMisreports: schema versions are the registry's verdict, and the validator's verdict on the values of the declared fields is a parameter.
- BrowserSupervisor.Supervisor.Open: starts at the opening row; the checks of profile, workspace and origins, and the restore of a profile, are not part of it.
- ContextPack.MaterializesExactly: a component longer than the file system's name limit passes the manifest's path rule and cannot be created.
- ContextMaterializer.ContextPackMaterializer.Verify: refusals of symbolic links and of unsafe destinations are not modelled.
- ContextMaterializer.ContextPackMaterializer.Materialize: the destination's own path rule and symbolic links below the root are not modelled; a destination is a name that exists or not.
- Path "." as a logical path: the code fails on it with an index error instead of a validation error; here it is not a valid path.
- Model projections of context packs, and field validation of configuration models.
