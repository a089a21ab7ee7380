# CreditLock: a verified model of the release gate

CreditLock decides whether the credits of a film may be released. A deterministic checker compares contractual
obligations with the credit manifest and the rendered evidence; humans may confirm ambiguous identities and uncertain
observations, two persons at a time; an export evaluates the gate, assembles a self-contained package and replays it
offline; and release checkpoints are projected, in order, through an at-least-once event bus. This project models that
logic in Dafny and proves what it promises.

Run `dafny verify dfyconfig.toml` in this directory.

## What is modelled

* **Checker and gate** (`Gate`, `Checker`, `CheckerProofs`): the evaluation loops, proved against a declarative
  reading of every rule.
* **Human authority** (`Authority`, `AuthorityProofs`, `AuthorityLimits`, `Resolutions`): identity bindings, the two-pass
  evaluation, the authorization overlay, the exact limit of what authorizations can close, and the endpoints that record
  and confirm proposals.
* **Release evidence** (`Documents`, `DocumentProofs`, `Release`, `Delivery`, `Replay`, `ReleaseProofs`, `Export`):
  validation, the package, the offline verifier, and the whole export from evidence through the release event to the
  released package.
* **PNG audit** (`Crc`, `Png`, `PngProofs`): CRC-32 over 32-bit words, the chunk walk, the synthetic encoder.
* **Events** (`Projection`, `ProjectionProofs`, `ProjectionStore`, `ProjectionStoreProofs`, `Checkpoint`,
  `CheckpointProofs`, `Synchronize`, `SynchronizeProofs`, `Ingestion`): the reducer, the Firestore store that re-hydrates
  it for every event, the checkpoint protocol as a state machine, the imperative call against an environment that
  interferes at every access, with a proof that it follows that machine, and the worker.
* **Stores** (`ProductionStore`, `ProductionStoreProofs`, `FirestoreProposals`, `EvidenceStore`, `EvidenceStoreProofs`):
  proposals, confirmations with rollback, write-once export results, and production documents over content-addressed
  frame bytes.
* **Canonical JSON, benchmark matching, span reconciliation** (`Canonical`, `Matching`, `Extractor`).

`Domain` and `Records` hold the shared values and records.

## How the world is modelled

* SHA-256 is a free constructor: equal digests have equal preimages. A digest-valued field is the digest of some
  contents, the same digits in another letter case, or any other text. A UUID5 stands for its name.
* A Unicode string that may be spelled in several ways is a normal form together with the number of a spelling; NFC
  chooses spelling 0. Identifiers are plain strings, taken to be in normal form already. `Canonical` takes NFC as any
  idempotent function on the strings of raw JSON values; `Documents` applies the same normalisation to the typed records.
* File contents are the canonical JSON text of a document, another text that parses to one, or plain bytes. A zip
  archive is a map from entry names to contents.
* The production lock and Firestore transactions make each store operation one atomic step. Failures and interference
  are parameters: a fault at any mutation of a confirmation, reads that raise, steps of others between any two accesses,
  messages delivered again in any order.
* The number of polls stands for a deadline; the current time and fresh ids are parameters. A font size or a metric is a
  real number, so floating-point rounding is not modelled.

## Where the code differs from its documentation

* Only a party's first manifest entry on a surface is checked, RELATIVE card positions and CRAWL cards are not
  enforced (`src/creditlock/domain/checker.py:472`). `CheckerProofs.ObligationCleanIffMet` says what is.
* `_build_identity_bindings` describes a map from obligation ids; it returns one keyed by issue ids
  (`src/creditlock/api/export.py:214-249`).
* Replay drops an empty obligation id and folds with default flags, export does neither
  (`src/creditlock/evidence/replay.py:338`, `src/creditlock/evidence/replay.py:370`). `ReleaseProofs.ExportReplays` gives
  the exact condition under which the two agree.
* The Firestore projection store skips a duplicate or stale event before looking at its envelope, where the reducer
  rejects a bad envelope first. `ProjectionStoreProofs.AnswersAgree` gives the exact condition under which they agree.
* `register` stores frames of zero width or height, and `get` then refuses the whole production.
  `EvidenceStoreProofs.RegisteredReadsBack` gives the exact condition.
* The release digest does not cover the contributor registry: the release evidence holds no hash of it.
* The docstring promises that findings other than ambiguities and flagged observations are never cleared by an
  authorization. A choice for an ambiguous obligation also rebinds every other ACTIVE obligation that has the same id and
  a free-text party, and takes a field finding of it, or a MISSING_CREDIT when the chosen contributor is credited on the
  surface (`AuthorityLimits.SharedIdsLoseFindings`). `AuthorityLimits.LimitIff` gives the exact condition on the input;
  distinct obligation ids are enough.
* The in-memory `save_proposal` replaces by id, so that a confirmed proposal could be re-saved as pending and confirmed
  again (`ProductionStoreProofs.ResavingConfirmsTwice`), and takes a proposal that is confirmed already.
  `ProductionStoreProofs.SaveKeepsIff` says exactly which saves keep confirmations and authorizations in correspondence. The
  Firestore store refuses changed data; what remains there is in `FirestoreProposals.CommitKeepsIff`: a new proposal must
  not be saved as confirmed, and a confirmation needs a fresh authorization id, which `confirm_proposal` generates.
* Object keys are sorted before they are normalised, so encoding decoded canonical bytes again may reorder keys:
  `Canonical.StableIffKeysStable` gives the exact condition on the raw keys.
* A versioned event from outside the allocator can make a checkpoint stale for good
  (`CheckpointProofs.OvertakenCheckpointStaysStale`); `CheckpointProofs.AppliedUnlessOvertaken` says exactly when.

## Model

| member | source | states |
|---|---|---|
| `Gate.FoldGate` | src/creditlock/domain/gate.py:23-41 | the gate is the highest-precedence contribution of the open issues and flags, READY_TO_EXPORT when there is none |
| `Gate.FoldedMeaning` | src/creditlock/domain/models.py:88-113 | the fold ranks at or above every contribution and is one of them |
| `Gate.ReadyIffNothingOpen` | src/creditlock/domain/gate.py:23-41 | READY_TO_EXPORT exactly when no issue is open and no flag is set |
| `Gate.FoldMonotone` | src/creditlock/domain/models.py:106-113 | more open issues never improve the gate |
| `Gate.FoldIgnoresOrder` | src/creditlock/domain/gate.py:23-41 | the gate does not depend on the order or repetition of issues |
| `Checker.ResolveObligeeText` | src/creditlock/domain/checker.py:134-162 | exactly the contributors whose canonical name or an alias equals the text up to normal form, each once |
| `Checker.CheckEvidence` | src/creditlock/domain/checker.py:169-252 | integrity and pending issues exactly for stray or repeated and for missing evidence ids |
| `Checker.GroupByContributor` | src/creditlock/domain/checker.py:254-272 | the index by contributor keeps each contributor's entries in manifest order |
| `Checker.CheckFields` | src/creditlock/domain/checker.py:494-671 | the field checks raise the issues of the field rules, in order |
| `Checker.CheckParty` | src/creditlock/domain/checker.py:349-492 | resolution of the credited party and of its entry on the surface raises the issues of the identity rules |
| `Checker.EvaluateFindings` | src/creditlock/domain/checker.py:165-691 | the loops compute the findings function, evidence first |
| `CheckerProofs.ObligationCleanIffMet` | src/creditlock/domain/checker.py:274-671 | an obligation raises nothing exactly when it is WAIVED or SUPERSEDED, or ACTIVE without duration and met by the first entry of its resolved party on its surface |
| `CheckerProofs.EvidenceGate` | src/creditlock/domain/checker.py:169-252 | evidence passes exactly when layout and observations cover each manifest element once and nothing else |
| `CheckerProofs.InVisualIssues` | src/creditlock/domain/checker.py:673-689 | an uncertainty issue exactly for each flagged observation |
| `CheckerProofs.FirstEntryMeaning` | src/creditlock/domain/checker.py:451-492 | the checked entry is the earliest one of the contributor on the surface |
| `AuthorityProofs.ReadyIffReleasable` | src/creditlock/domain/checker.py:165-691 | the gate is READY_TO_EXPORT exactly when evidence is covered, every obligation met, every flagged observation confirmed under the current hashes, and no flag set |
| `AuthorityProofs.ExportReadyIffReleasable` | src/creditlock/api/export.py:376-433 | the same for the two-pass evaluation with bindings |
| `Authority.BuildIdentityBindings` | src/creditlock/api/export.py:207-249 | the choices of hash-matching CONFIRM_IDENTITY records, or none at all when two of them contradict each other |
| `Authority.BindObligations` | src/creditlock/api/export.py:395-411 | each ambiguous obligation with a chosen issue is bound to that choice; the conflict test cannot fire |
| `Authority.ResolveOpenIssues` | src/creditlock/api/export.py:252-286 | only uncertainty issues with a hash-matching CONFIRM_VISUAL record are removed |
| `Authority.ExportEvaluation` | src/creditlock/api/export.py:376-433 | bindings, open issues and gate of the two passes |
| `Authority.FindingsIdsAreStable` | src/creditlock/domain/checker.py:71-105 | an ambiguity issue carries the stable id of its own obligation |
| `AuthorityLimits.LimitIff` | src/creditlock/api/export.py:252-286 | the findings that humans may not clear stay open under all authorizations exactly when no obligation that shares an ambiguous one's id has a party finding that a binding can take |
| `AuthorityLimits.WhatHumansClear` | src/creditlock/api/export.py:252-286 | when bindings take nothing, a first-pass finding is closed at export exactly when it is a confirmed flagged observation or an ambiguity with an uncontradicted choice |
| `AuthorityLimits.ClearableClosesIffCleared` | src/creditlock/api/export.py:207-286 | on every input, an ambiguity or flagged observation is closed exactly by its own uncontradicted choice or confirmation |
| `AuthorityLimits.ChoiceTakes` | src/creditlock/api/export.py:395-411 | one choice for the shared id closes a takeable finding of an exposed obligation |
| `AuthorityLimits.DistinctIdsKeepTheLimit` | src/creditlock/api/export.py:252-286 | with distinct obligation ids, bindings take nothing |
| `AuthorityProofs.OnlyValidRecordsMatter` | src/creditlock/api/export.py:207-286 | the outcome depends only on the set of hash-matching records, not on their order or on other records |
| `AuthorityProofs.BoundAsIfCredited` | src/creditlock/domain/checker.py:356-449 | a bound obligation has the codes and issue ids it would have with credited_party_id set to that contributor |
| `AuthorityLimits.SharedIdsLoseFindings` | src/creditlock/api/export.py:395-411 | a concrete input on which a choice for one obligation closes a MISSING_CREDIT of another with its id |
| `AuthorityProofs.IssueIdDetermines` | src/creditlock/domain/checker.py:71-105 | for colon-free obligation ids, an issue id determines obligation, code and discriminator |
| `Resolutions.RecordProposal` | src/creditlock/api/resolutions.py:106-234 | recorded exactly for a REVIEWER with access whose well-formed request answers an open finding of valid evidence with a fitting action and a qualified contributor; otherwise the error of the first guard that fails, and the store is left alone |
| `Resolutions.ConfirmProposal` | src/creditlock/api/resolutions.py:242-314 | confirmed exactly for a RELEASE_APPROVER with access, other than the proposer, of a pending proposal under current hashes that still answers an open finding of valid evidence; otherwise the error of the first guard that fails, and the store is left alone |
| `Resolutions.ConfirmedIdentityBinds` | src/creditlock/api/resolutions.py:157-231 | a confirmed answer to an ambiguity binds the obligation at export to the selected contributor, one that its text names |
| `Resolutions.ConfirmedVisualCloses` | src/creditlock/api/export.py:252-286 | a confirmed answer to a flagged observation closes it |
| `Documents.ReadBackIsCanonical` | src/creditlock/domain/canonical.py:20-40 | a document read back from its canonical bytes has those same canonical bytes |
| `DocumentProofs.FindingsNormalised` | src/creditlock/domain/checker.py:165-691 | checking normalised inputs gives the normalised findings |
| `DocumentProofs.EvaluationNormalised` | src/creditlock/evidence/replay.py:312-368 | the two passes over documents as read back give the same bindings, the normalised open issues and the same codes |
| `Release.ValidateFrame` | src/creditlock/evidence/validation.py:128-201 | a frame passes exactly when ids, index, audited positive size and both recorded digests agree |
| `Release.ValidateFrames` | src/creditlock/evidence/validation.py:125-201 | all frames pass exactly when each does and no id repeats; evidence is missing exactly when the first failing frame lacks its image |
| `Release.ValidateArtifactEvidence` | src/creditlock/evidence/validation.py:15-206 | succeeds exactly on complete, mutually consistent evidence, with its four hashes; missing parts are told from broken ones |
| `Release.BuildArtifactIndex` | src/creditlock/evidence/release.py:14-32 | the index lists each frame's id and image hash in order |
| `Release.ValidIffOwnIndex` | src/creditlock/evidence/validation.py:46-206 | evidence is valid exactly when its parts are about one manifest and profile, its frames are rendered under distinct ids, and its index is the one that would be built from them |
| `Delivery.AssembleDeliveryPackage` | src/creditlock/evidence/delivery.py:32-252 | on valid evidence, and only then, exactly the package of the snapshot and the digest of its release evidence |
| `Delivery.HoldsDocument` | src/creditlock/evidence/delivery.py:181-234 | each JSON member is the canonical bytes of its document |
| `Delivery.HoldsFrame` | src/creditlock/evidence/delivery.py:163-179 | each frame's bytes are the member under its path |
| `Delivery.HoldsNothingElse` | src/creditlock/evidence/delivery.py:221-236 | the package has no other members |
| `Replay.VerifyFiles` | src/creditlock/evidence/replay.py:154-190 | no reasons exactly when every declared file has its digest and no required file is missing |
| `Replay.VerifyFrames` | src/creditlock/evidence/replay.py:252-265 | no reasons exactly when every indexed frame is present with its digest and passes the audit |
| `Replay.VerifyRoot` | src/creditlock/evidence/replay.py:267-310 | no reasons exactly when the release evidence carries the hashes of the package |
| `Replay.BindReplayed` | src/creditlock/evidence/replay.py:334-339 | export's bindings without the empty obligation id |
| `Replay.ReEvaluate` | src/creditlock/evidence/replay.py:312-370 | bindings, open issues and gate of the replayed documents |
| `Replay.ReplayBundle` | src/creditlock/evidence/replay.py:43-405 | MATCH exactly when names are safe, files intact, digest, roots, frames, bindings, findings and gate all agree; the reported gates are then the package's own |
| `ReleaseProofs.ExportReplays` | src/creditlock/evidence/replay.py:239-405 | the assembled package replays to MATCH exactly when frame paths are safe names, no bound obligation id is empty and the gate does not rest on the flags |
| `ReleaseProofs.ReadyReplays` | src/creditlock/api/export.py:523-546 | a READY_TO_EXPORT snapshot with safe frame paths and no empty bound obligation id replays to MATCH as READY_TO_EXPORT |
| `ReleaseProofs.DigestBindsRelease` | src/creditlock/evidence/replay.py:192-393 | packages that match under one digest have the same canonical documents, index, frame bytes, bindings, open findings and gate |
| `Export.EvaluateRelease` | src/creditlock/api/export.py:329-454 | goes on exactly with valid evidence and an open gate, with the evaluated snapshot; the refusal tells missing from broken evidence, or carries the gate and the open issues |
| `Export.ExportProduction` | src/creditlock/api/export.py:329-546 | refused as evaluated; otherwise unavailable exactly when events are enabled and the release event does not synchronize, released exactly when packable, with the package of this production's own snapshot, which replays, and failed otherwise |
| `Export.SynchronizeRelease` | src/creditlock/api/export.py:456-515 | with events enabled the call goes ahead exactly when some record is under the current hashes and the checkpoint of the chosen one synchronizes |
| `Export.TargetAuthorization` | src/creditlock/api/export.py:463-479 | the first identity confirmation under the current hashes, or the first record under them when there is none |
| `Export.ReleasedIsProjected` | src/creditlock/api/export.py:456-515 | a release with events enabled has its checkpoint projected and applied |
| `Crc.Step4Injective` | src/creditlock/renderer/audit.py:67-70 | from one CRC register, different words lead to different registers |
| `Crc.BurstDetected` | src/creditlock/renderer/audit.py:67-70 | any change within four consecutive bytes changes the CRC-32 |
| `Png.AuditPng` | src/creditlock/renderer/audit.py:25-111 | valid exactly when the bytes decode and have the expected size; sizes and reasons of the other outcomes |
| `Png.WalkChunks` | src/creditlock/renderer/audit.py:39-82 | the walk either reads a sound chunk list up to IEND or the end, or shows that the bytes do not decode |
| `Png.DecodeIff` | src/creditlock/renderer/audit.py:36-94 | decoding succeeds exactly on the magic and the encoding of a sound chunk list that starts with IHDR and ends at its first IEND |
| `PngProofs.AcceptedIsPrefixFree` | src/creditlock/renderer/audit.py:84-94 | every proper prefix and every proper extension of an accepted file is rejected |
| `PngProofs.ByteChangeRejected` | src/creditlock/renderer/audit.py:36-70 | any one-byte change of the magic or of a chunk's type, data or CRC is rejected |
| `PngProofs.BurstRejected` | src/creditlock/renderer/audit.py:67-70 | any change within four consecutive bytes of a chunk's type and data is rejected |
| `PngProofs.CrcChangeRejected` | src/creditlock/renderer/audit.py:64-70 | any change of a CRC field is rejected |
| `PngProofs.CreateSyntheticPng` | src/creditlock/renderer/render.py:19-51 | the three chunks of the image, or failure exactly when a number does not fit its field |
| `PngProofs.SyntheticAccepted` | src/creditlock/renderer/render.py:19-51 | a synthetic image is accepted with exactly its width and height |
| `Projection.RecomputeGate` | src/creditlock/events/projection.py:161-200 | the state is the fold of the open issues, DEGRADED when one is not recognised |
| `Projection.Projector.Apply` | src/creditlock/events/projection.py:438-560 | answer and new state of one event; anything but an accepted event leaves no trace |
| `Projection.Projector.Replay` | src/creditlock/events/projection.py:562-568 | the events are folded in order up to the first that is rejected |
| `Projection.Projector.TakeCheckpoint` | src/creditlock/events/projection.py:570-577 | the projection and version of a known production |
| `Projection.Projector.Restore` | src/creditlock/events/projection.py:579-584 | projection and version are replaced, seen ids and other productions kept |
| `ProjectionProofs.NeverProjectsReady` | src/creditlock/events/projection.py:206-415 | no event sequence projects READY_TO_EXPORT; a current manifest has ARTIFACT_PENDING open; at most one issue of each type |
| `ProjectionProofs.DigestIsLastRender` | src/creditlock/events/projection.py:277-415 | the digest is d exactly when the last accepted anchoring event is a render carrying d |
| `ProjectionProofs.RunIsRunOfAccepted` | src/creditlock/events/projection.py:438-560 | folding any deliveries equals folding only the accepted events |
| `ProjectionProofs.AcceptedInOrder` | src/creditlock/events/projection.py:438-560 | accepted events have distinct ids and increasing versions |
| `ProjectionProofs.RedeliveryIsNoop` | src/creditlock/events/projection.py:438-560 | an applied event delivered again, after anything, changes nothing |
| `ProjectionProofs.LogIsAcceptedResolutions` | src/creditlock/events/projection.py:314-336 | the authorization log is the accepted resolutions in order |
| `ProjectionStore.FirestoreProjectionStore.Apply` | src/creditlock/events/firestore_store.py:86-189 | the transaction, with its hydrated reducer, does one step of the store function |
| `ProjectionStore.FirestoreProjectionStore.Allocate` | src/creditlock/events/firestore_store.py:252-304 | the processed or reserved version of the id, or the next free one |
| `ProjectionStore.FirestoreProjectionStore.HasProcessedEvent` | src/creditlock/events/firestore_store.py:221-235 | whether the processed-event document exists |
| `ProjectionStore.FirestoreProjectionStore.GetLastAggregateVersion` | src/creditlock/events/firestore_store.py:237-250 | the last applied version, 0 for an unknown production |
| `ProjectionStoreProofs.StoreRefinesProjector` | src/creditlock/events/firestore_store.py:96-186 | after any interleaving of deliveries and allocations the documents are those of one long-lived reducer |
| `ProjectionStoreProofs.AnswersAgree` | src/creditlock/events/firestore_store.py:96-186 | store and reducer answer alike exactly for consistent envelopes or events that are neither duplicate nor stale |
| `ProjectionStoreProofs.AuthorizationDocsMatchLog` | src/creditlock/events/firestore_store.py:150-186 | the authorization documents match the reducer's log entry for entry |
| `ProjectionStoreProofs.AllocatorStaysSafe` | src/creditlock/events/firestore_store.py:263-301 | the counter covers applied and reserved versions, reserved versions are distinct and never change |
| `ProjectionStoreProofs.AllocationIsStable` | src/creditlock/events/firestore_store.py:263-301 | an unprocessed id gets the same version back after anything, later ids a larger one |
| `CheckpointProofs.RunKeepsInv` | src/creditlock/events/release_checkpoint.py:116-299 | the protocol invariant holds after every step of clients, bus and worker |
| `CheckpointProofs.ProcessedIsAllocatedPrefix` | src/creditlock/events/release_checkpoint.py:160-242 | the processed ids are exactly those allocated up to the last applied version, and no message in flight is further ahead than the next |
| `CheckpointProofs.AppliedExactlyOnceInOrder` | src/creditlock/events/release_checkpoint.py:143-299 | published checkpoints are applied once each, in allocation order without a gap, and never dropped as stale |
| `CheckpointProofs.ReportsAreTrue` | src/creditlock/events/release_checkpoint.py:258-299 | a call that reports SYNCHRONIZED and a committed message were projected |
| `CheckpointProofs.SmallestUnprojectedPasses` | src/creditlock/events/release_checkpoint.py:183-242 | the holder of the smallest unprojected version always passes the ordering gate |
| `CheckpointProofs.RetryGetsThrough` | src/creditlock/events/release_checkpoint.py:116-299 | an undisturbed retry of that holder gets its checkpoint applied, committed and reported |
| `CheckpointProofs.OvertakenCheckpointStaysStale` | src/creditlock/events/firestore_store.py:96-186 | a checkpoint overtaken by a version from elsewhere stays stale |
| `CheckpointProofs.AppliedUnlessOvertaken` | src/creditlock/events/firestore_store.py:96-186 | after any other deliveries an unprocessed checkpoint is applied exactly when its version was ahead at first and no applied delivery has reached it since, and is stale otherwise |
| `Synchronize.WaitRound` | src/creditlock/events/release_checkpoint.py:189-212 | a round of the ordering gate ends the call exactly when its read did not raise and found the id, opens the gate exactly when the next read did not raise and found every earlier version applied, and waits on otherwise |
| `Synchronize.AwaitPrior` | src/creditlock/events/release_checkpoint.py:183-242 | the first round that ends the wait decides; after the deadline there is one final round, and only when none decides a timeout |
| `Synchronize.AwaitProjection` | src/creditlock/events/release_checkpoint.py:258-299 | synchronized at the first poll that finds the id, timed out only when no poll up to the final one does |
| `Synchronize.PublishOnce` | src/creditlock/events/release_checkpoint.py:244-256 | the event is on the bus exactly when the publish did not raise or was delivered all the same; a publish that raises ends the call |
| `Synchronize.SynchronizeReleaseCheckpoint` | src/creditlock/events/release_checkpoint.py:116-299 | the call is its check, allocation, gate, publication and polling, each only when the one before leads there, and returns where the last of them ends |
| `SynchronizeProofs.CallFollowsProtocol` | src/creditlock/events/release_checkpoint.py:116-299 | every call in every environment is a run of the state machine in which the steps of others are exactly the interference it met, its own steps are in program order, it publishes at most once and only after it saw every earlier version applied, and it reports SYNCHRONIZED exactly when a read that did not raise found the event |
| `SynchronizeProofs.SynchronizedCallIsProjected` | src/creditlock/events/release_checkpoint.py:116-299 | from a reachable state a call ends in a reachable one, and a call that reports SYNCHRONIZED has its event applied |
| `Ingestion.EventIngestionWorker.ProcessSingleMessage` | src/creditlock/events/consumer.py:62-122 | committed exactly when the message carries an event, the store did not reject it and the commit succeeded; a committed event is settled |
| `Ingestion.EventIngestionWorker.RunOnce` | src/creditlock/events/consumer.py:124-136 | the store folds exactly the polled messages and everything committed is settled |
| `Ingestion.SettledForever` | src/creditlock/events/consumer.py:62-122 | a settled event stays a no-op after any further deliveries and allocations |
| `Ingestion.AppliedOrSkippedIsSettled` | src/creditlock/events/consumer.py:62-122 | an event that the store applied or skipped is settled |
| `ProductionStore.InMemoryProductionStore.Register` | src/creditlock/domain/store.py:97-143 | the entry is replaced, keeping proposals and, unless some are supplied, authorizations, and erasing export metadata |
| `ProductionStore.InMemoryProductionStore.SaveProposal` | src/creditlock/domain/store.py:150-168 | the first proposal with the id is replaced, or the proposal appended |
| `ProductionStore.InMemoryProductionStore.ConfirmProposal` | src/creditlock/domain/store.py:177-248 | new state and outcome for every guard and every fault; a confirmation that fails changes nothing |
| `ProductionStore.InMemoryProductionStore.Rollback` | src/creditlock/domain/store.py:242-248 | from any point among the mutations, status, authorizations and audit log are restored |
| `ProductionStore.InMemoryProductionStore.SaveExportResult` | src/creditlock/domain/store.py:257-287 | recorded once, confirmed when equal, refused when different or malformed |
| `ProductionStoreProofs.StepKeepsIff` | src/creditlock/domain/store.py:97-287 | an operation keeps the correspondence exactly when it is permitted: every confirmation, export and clear, the saves of `SaveKeepsIff`, and a register that supplies no authorizations or such as fit the proposals it keeps |
| `ProductionStoreProofs.TwoPersonAuthority` | src/creditlock/domain/store.py:97-287 | in every run, confirmed proposals and authorizations correspond one to one all along, with the proposal's issue, action, contributor and hashes and another person's approval, exactly when every operation is permitted |
| `ProductionStoreProofs.SaveKeepsIff` | src/creditlock/domain/store.py:150-168 | saving keeps the one-to-one correspondence exactly when a confirmed proposal is replaced by the same request, confirmed, and any other save is of a proposal that is not confirmed |
| `ProductionStoreProofs.ResavingConfirmsTwice` | src/creditlock/domain/store.py:150-168 | a confirmed proposal re-saved as pending can be confirmed a second time |
| `ProductionStoreProofs.AuthorizationsOnlyGrow` | src/creditlock/domain/store.py:97-248 | authorizations are only added, until the store is cleared or a register supplies others |
| `ProductionStoreProofs.ExportIsWriteOnce` | src/creditlock/domain/store.py:257-287 | a recorded export result never changes until the production is registered again |
| `FirestoreProposals.FirestoreProposalStore.SaveProposal` | src/creditlock/domain/store.py:888-908 | a changed proposal is refused, an equal one ignored, a new one stored |
| `FirestoreProposals.FirestoreProposalStore.ConfirmProposal` | src/creditlock/domain/store.py:927-992 | the transaction stores the confirmed proposal and its authorization, or nothing |
| `FirestoreProposals.CommitKeepsIff` | src/creditlock/domain/store.py:888-992 | a transaction keeps the correspondence exactly when it saves no new proposal as confirmed and confirms under no authorization id in use |
| `FirestoreProposals.TwoPersonInFirestore` | src/creditlock/domain/store.py:888-992 | in every run the one-to-one correspondence holds all along exactly when every transaction does so; proposal ids need not be fresh |
| `EvidenceStore.EvidenceStorage.Put` | src/creditlock/evidence/storage.py:130-148 | create-only: equal bytes are accepted, different bytes refused |
| `EvidenceStore.EvidenceStorage.PutVerified` | src/creditlock/evidence/storage.py:82-120 | the checked write and its refusals |
| `EvidenceStore.FirestoreProductionStore.StoreFrames` | src/creditlock/domain/store.py:441-533 | bytes and metadata of exactly the frames before the first that fails a check |
| `EvidenceStore.FirestoreProductionStore.Register` | src/creditlock/domain/store.py:366-560 | the document and the supplied authorizations are written exactly when every check passes; stored bytes of a failed registration stay |
| `EvidenceStore.FirestoreProductionStore.Get` | src/creditlock/domain/store.py:562-882 | absent, malformed or the stored production with its proposals and authorizations, by exactly its integrity checks |
| `EvidenceStore.FirestoreProductionStore.SaveExportResult` | src/creditlock/domain/store.py:1033-1076 | the write-once transaction |
| `EvidenceStoreProofs.RegisteredReadsBack` | src/creditlock/domain/store.py:366-882 | after any run, a production reads back as last registered, with what its sub-collections hold, exactly when its frames have positive sizes, and is malformed otherwise |
| `EvidenceStoreProofs.SuppliedMeaning` | src/creditlock/domain/store.py:551-560 | supplied authorizations replace those with the same id, the last of them counting, and keep every other one |
| `EvidenceStoreProofs.RecordsStay` | src/creditlock/domain/store.py:366-992 | no run of registrations, exports, proposals and confirmations loses a recorded proposal or authorization |
| `EvidenceStoreProofs.BlobsAreWriteOnce` | src/creditlock/evidence/storage.py:202-227 | stored objects are never changed or lost and always have the digest of their path |
| `Canonical.CanonicalIffEquivalent` | src/creditlock/domain/canonical.py:20-40 | for keys in normal form, canonical forms are equal exactly when the values are, up to key order and spelling; array order counts |
| `Canonical.StableIffKeysStable` | src/creditlock/domain/canonical.py:20-40 | encoding what was decoded from canonical bytes gives the same bytes exactly when, in every object that is kept, the first keys of each normal form keep their order under normalisation |
| `Canonical.NormalKeysAreStable` | src/creditlock/domain/canonical.py:20-40 | values with normal keys meet that condition |
| `Canonical.NormalizedIsEquivalent` | src/creditlock/domain/canonical.py:20-40 | for normal keys the canonical form keeps them normal and equals the value up to key order and spelling |
| `Canonical.SortedIsUnique` | src/creditlock/domain/canonical.py:24-25 | there is one sorted order of given members |
| `Canonical.ReversedKeysAreUnstable` | src/creditlock/domain/canonical.py:24-25 | two keys that normalisation reverses do not meet it |
| `Matching.MatchFields` | src/creditlock/eval/v2_runner.py:728-819 | true positives are the size of the multiset intersection; with false positives and negatives they add up to the two list lengths |
| `Matching.FirstFitIsOptimal` | src/creditlock/eval/v2_runner.py:745-757 | no matching of equal fields is larger |
| `Matching.Accumulate` | src/creditlock/eval/v2_runner.py:716-819 | the totals over scored binding cases, non-binding ones apart |
| `Matching.CalcMetrics` | src/creditlock/eval/v2_runner.py:1095-1109 | F1 is defined exactly when something matched, is 2tp / (2tp + fp + fn), at most 1, and 1 exactly without errors |
| `Extractor.Extract` | src/creditlock/agents/extractor.py:157-274 | accepted and rejected candidates in order, together as many as there were |
| `Extractor.ReportedSpan` | src/creditlock/agents/extractor.py:170-188 | a reported span is kept when right, and otherwise moved by at most five characters to an occurrence that all others overlap |
| `Extractor.UnreportedSpan` | src/creditlock/agents/extractor.py:189-203 | a quote without a span is located exactly when all its occurrences overlap the first |
| `Extractor.AcceptedAreGrounded` | src/creditlock/agents/extractor.py:242-265 | every extracted obligation is a CANDIDATE whose quote is the text of its span |
| `Extractor.CountIsLargest` | src/creditlock/agents/extractor.py:179-190 | counting from the left finds as many disjoint occurrences as there are |
| `Extractor.CountOneIff` | src/creditlock/agents/extractor.py:179-190 | the count is one exactly when the quote occurs and every occurrence overlaps the first |

## Left out

- HTTP routing, tokens, settings, the demo and worker programs: roles, actors and the token's production check are plain values.
- Model calls, prompts, provider fallback, the resolver and steward agents and their benchmark accounting: calls into code that cannot be seen.
- Kafka, Firestore, Cloud Storage, zip and Chrome clients: a set of published messages, atomic transactions, a write-once map, a name-to-contents map and arbitrary bytes; commits are stated per call, not by cumulative offsets.
- zlib compression is any function; IDAT is not required by the audit and full PNG conformance is not claimed.
- Liveness: nothing is claimed beyond the ordering gate being open for the smallest unprojected version and an undisturbed retry getting through.
- Timestamps, `updated_at` fields and the package's `assembled_at`: dropped. The obligations section of the projection is never changed by an event and is dropped too.
- Issue detail messages: dropped from issues, so the findings hash covers code, ids, references and source only.
- Obligation, manifest and proposal fields that no modelled component reads are one value, or are dropped.
- The assembler's own evaluation, which keys bindings by issue id when a snapshot lacks them (src/creditlock/evidence/delivery.py:99-136): export always supplies them.
- Replay parses contributor registry and proposals without a schema; here they are typed documents. A bundle index that is JSON but not an object raises in the original and is malformed here.
- `audit_artifact_package`, fixture validation, report rendering and smoke scripts: easy members.
- Aliasing of live dictionaries returned by the in-memory store, and its `get`: entries are values.
- The order in which Firestore's proposals and authorizations are read, the rewording of a lost confirmation race and raw documents that do not parse: sub-collections are maps of typed records. A production store without configured evidence storage is not modelled.
- The upload of a released package to a bucket and the recording of its path (src/creditlock/api/export.py:548-590): the stores' write-once methods are modelled, their call from the endpoint is not.
- Gold-span and invented-field counters of the extractor benchmark, and its per-case report.
- Python's upper-casing is any function on strings in `Extractor`.
