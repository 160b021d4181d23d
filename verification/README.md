# Models of gh-address-cr

gh-address-cr resolves pull-request review threads with the help of agents, and ships itself
through a plugin marketplace branch, PyPI and a Homebrew tap. This project models the parts whose
correctness depends on interleaving, crashes or text that must survive a round trip, and proves
what they keep.

**Agent protocol.** A session holds items, leases and an append-only ledger. Agents classify,
claim, re-enter, submit, batch and give up work. Most commands decide on a loaded copy and save it
by compare-and-swap on the revision; claims and releases decide inside the write transaction. After
every commit the store derives the claim fields of each item from the leases.

- `Protocol` is the data; `Leases`, `Submission`, `BatchClaim` and `BatchSubmit` say what each
  operation does to a session value and prove its contract.
- `ProtocolRuns` collects the operations, `ProtocolSteps` shows that each change is calm, a grant,
  an acceptance or a removal, `ProtocolSafety` sorts the operations into these kinds, and
  `ProtocolWorld` runs them from any number of processes over one store.
- `LeaseRules`, `SessionEffects`, `AnswerEffects`, `BatchTargets`, `BatchChecks` and `BatchVerdicts`
  say what these operations mean in plain terms: what two live leases never share and which claims
  are refused, what each operation leaves on items, leases and ledger field by field, which responses
  are accepted, which threads a batch takes, and which batches pass.
- `OutsideWrites` adds what the publisher, the gate refresh, the producer sync and the evidence
  reconciliation write, and says when the ledger still replays an item; `ProtocolWitness` gives runs
  from a new session to the states that the findings are about.
- `SessionStore` is the session as a mutable object: loops over leases, items and rows, each method
  proved equal to the value it must produce.
- `RequestFiles` follows one lease's request file through crashes between the file and its hash.
- `EvidenceProfile` and `FindingSync` cover the response filler and the producer sync.

**Release.** `GitBranch` has the fact everything rests on: a plain push onto a grow-only branch is
a compare-and-swap. `Versions`, `PluginBundle` and `Marketplace` are the plugin publishers, `Tap`
the tap writers, `Bottles` the sealed bottle builds, `PypiReconcile` the upload rounds. `Formula`
is the formula printer and parser over `TextLines`; `FormulaRoundTrip` proves that printing inverts
parsing, `FormulaSections` and `FormulaPrinting` that parsing inverts printing and which texts are
accepted at all; `FormulaTemplate` gives the printed text line by line and `FormulaFields` the shape
of each value in it. `SkillTree` is the payload copy, `MarkerBlock` the owned block in a
pull-request description. `Sequences` and `Wrappers` are small tools.

## Findings

Where a property one would expect does not hold of the code, the code is modelled as it is and the
exact condition is proved.

- Compensating a failed batch removes every lease the batch created, also one that was accepted
  meanwhile; the ledger then names a lease that is gone. Every acceptance keeps its lease exactly
  when no removed lease is accepted (`ProtocolSafety.CompensationKeepsAccounts`; a run that loses one
  is `ProtocolWitness.CompensationTakesAccepted`). Runs hold such compensations:
  `ProtocolWorld.AcceptanceIsExactlyOnce` counts them.
- A comment beside the acceptance event says that items can be rebuilt from the ledger. The answer on
  an item always can, but publishing, a refresh of a resolved thread, a sync and a reconciliation
  also write the handled mark or the validation, and no accepted response records them. An item is
  replayed in full exactly when both are still those of its last recorded answer
  (`OutsideWrites.FullReplayExactly`, `WriteKeepsReplay`, `PublishEndsReplay`; a run in
  `ProtocolWitness.PublishingHappens`).
- Single re-entry writes the rebuilt request file before it saves the hash. A stop in between, or a
  refused save, leaves a usable file that disagrees with the lease unless the rebuilt hash is the
  old one; later re-entry keeps such a file, and the response is refused as stale
  (`RequestFiles.OnlyStrandingHurts`, `StrandedStays`, `StrandedResponseIsRefused`). Batch re-entry
  commits first and is safe (`BatchReentryNeverStrands`).
- The lease contract says a one-shot composition rolls back only a lease its own call created. Its
  check compares with an earlier load, so a lease granted to the same agent between that load and
  the call is rolled back too (`ProtocolWorld.OneShotRollback` gives the exact condition,
  `ProtocolWitness.RollbackReleasesAnothersGrant` a run).
- The claim transaction looks for leases in its way and not at the item's state, so a claim decided
  on an old load can reopen a thread answered since (`ProtocolWorld.ClaimIgnoresPhase`,
  `LateClaimReopensAnswer`, and the run `ProtocolWitness.LateClaimHappens`). The next refresh of the
  thread makes the answer ready to publish again (`OutsideWrites.RefreshRestoresAnswer`).
- A comment in the batch code says a later row can fail after earlier rows were accepted. The lease
  checks cannot cause that: once every row is checked, every row is accepted
  (`BatchSubmit.BatchIsAllOrNothing`). The model follows the code.
- When a row with a stale request context stops a batch, the leases of the rows before it are
  released and the stale row keeps its own (`BatchSubmit.StoppedBatchReleases`).
- An empty value in an agent's reply hides the profile's value of that field
  (`EvidenceProfile.EmptyAnswerHidesProfile`).
- Blocks printed by the resource renderer alone do not parse back, because the last line is not
  ended (`FormulaRoundTrip.UnterminatedResourcesAreRefused`). A URL or version that ends like a
  resource heading, or holds `RESOURCE-ERROR`, is printed but then refused: this is the
  only way a printed formula is not accepted (`FormulaPrinting.PrintedSnapshotIsAccepted`).
- The receipt file on the marketplace branch is not compared byte for byte
  (`PluginBundle.ReceiptLayoutIsNotChecked`), and a tap update is ordered by its announced version
  (`Tap.AnnouncedVersionIsTrusted`).
- A directory whose name carries an excluded suffix is pruned from the skill copy while its files
  are still expected (`SkillTree.WalkMatchesFilter`, `SuffixedDirectoryIsLost`).

## Model

| member | source | states |
|---|---|---|
| ProtocolWorld.EveryRunIsSound | src/gh_address_cr/core/runtime_store.py:484-660 | In every run of any number of processes, outside writes and compensations included, every stored session has no submitted lease at rest, records each acceptance once, rebuilds every answer from the ledger, holds only compatible live leases, issued each lease once, and marks each item with exactly its holder |
| ProtocolWorld.AcceptanceIsExactlyOnce | src/gh_address_cr/core/agent_protocol_submission.py:563-667 | At every moment of every run each acceptance or verifier-rejection event names an accepted lease of its own agent and item, unless a compensation took that lease; accepted leases and events are equal in number exactly when no compensation took an accepted one |
| ProtocolWorld.AcceptedExactlyOnce | src/gh_address_cr/core/agent_protocol_submission.py:626-667 | The acceptance events name exactly the accepted leases and the ones that are gone, each once |
| ProtocolWorld.OnlyCompensationTakes | src/gh_address_cr/core/agent_batch.py:505-524 | A lease with an acceptance on record is missing exactly when a compensation took it after it was accepted |
| ProtocolWorld.AcceptedUntilCompensated | src/gh_address_cr/core/leases.py:31-32 | A lease accepted at one moment of a run is there, unchanged, at every later moment before a compensation takes it, and never comes back after |
| ProtocolWorld.EffectKeepsSound | src/gh_address_cr/core/agent_protocol.py:120-210 | Classify, claim, re-enter, batch claim, submit, batch submit, release, reclaim, compensate and every outside write each keep a sound session sound |
| ProtocolWorld.EffectIsSteady | docs/rfcs/033-lease-state-machine/contracts/lease-transitions.md:30-55 | No operation revives an ended lease, changes the terms of a live one or shortens the ledger, and exactly the compensations that name an accepted lease take it away |
| ProtocolWorld.StoringKeepsSound | src/gh_address_cr/core/runtime_store.py:2496-2528 | Storing an operation's result never finds an item held twice, so the store never refuses it, and the stored session is sound and marked |
| ProtocolWorld.StepKeepsWorldSound | src/gh_address_cr/core/runtime_store.py:595-640 | A load, a write transaction or a save guarded by the revision keeps the store sound and every up-to-date view equal to it |
| ProtocolWorld.LeaseIsTheSame | src/gh_address_cr/core/agent_protocol.py:473-483 | A lease id seen at two moments of a run is one lease: same terms, live later only if live before |
| ProtocolWorld.OneShotRollback | src/gh_address_cr/core/agent_protocol.py:640-666 | A one-shot call that is handed an existing lease rolls it back exactly when that lease was granted after the call's first look |
| ProtocolWorld.ClaimIgnoresPhase | src/gh_address_cr/core/agent_protocol.py:522-549 | The claim transaction succeeds exactly when the item exists and no lease that is still valid stands in its way, whatever state the item is in |
| ProtocolWorld.LateClaimReopensAnswer | src/gh_address_cr/core/agent_protocol.py:522-549 | A claim that lands on an answered thread and is given up leaves the thread open with its accepted response still on it |
| ProtocolWorld.NewSessionIsSound | src/gh_address_cr/core/session.py:188-198 | A new session with unclaimed items, no leases and an empty ledger is sound, so runs start somewhere |
| LeaseRules.LiveLeasesAreSeparated | src/gh_address_cr/core/leases.py:78-101 | In every stored session of every run two live leases are on different items and share no key, no line of a path and no file beside a hunk of it, unless both are read-only or both are one fixer's and only files and hunks are shared |
| LeaseRules.ClaimIsRefusedExactly | src/gh_address_cr/core/leases.py:78-101 | A claim is refused exactly when an unexpired live lease is on its item, or has a key, a meeting hunk or a file beside a hunk in common that no exception allows |
| LeaseRules.OverlapIsCollision | src/gh_address_cr/core/leases.py:628-658 | The overlap of two key sets is a common key, a file beside a hunk of it, or two hunks of one path whose ranges meet |
| LeaseRules.OrderedHunksShareALine | src/gh_address_cr/core/leases.py:649-657 | Hunks whose ends are in order meet exactly when some line lies in both |
| SessionEffects.ExpiryShows | src/gh_address_cr/core/leases.py:344-351 | Exactly the live leases past their end expire, exactly the items they mark are freed, and nothing else changes |
| SessionEffects.ClaimShows | src/gh_address_cr/core/agent_protocol.py:522-574 | A claim adds one active lease with its own ids, keys and one hour to live, marks its item, restores a missing classification and records one request |
| SessionEffects.ClassifyShows | src/gh_address_cr/core/agent_protocol.py:120-210 | A classification is written and recorded; answering a triage lease releases it and reopens the item, blocking unless it is a stale thread |
| SessionEffects.ReentryShows | src/gh_address_cr/core/agent_protocol.py:258-299 | Re-entry moves only the hash of the agent's own active fixer lease and records the rebuilt request |
| SessionEffects.TurningAwayShows | src/gh_address_cr/core/agent_protocol.py:440-471 | A request that is turned away keeps the expiries it noticed and records its rejection if there is one |
| SessionEffects.ReleaseShows | src/gh_address_cr/core/leases.py:304-341 | Giving up a live lease releases it and frees the item it marks, and changes nothing else |
| SessionEffects.IrrecoverableShows | src/gh_address_cr/core/agent_protocol_leases.py:79-97 | Giving up an irrecoverable lease releases it and frees the item unless another lease marks it |
| SessionEffects.SelfStaleShows | src/gh_address_cr/core/leases.py:270-301 | Giving up a stale thread releases the agent's own fixer leases on it and marks it stale |
| SessionEffects.CommitShows | src/gh_address_cr/core/runtime_store.py:2496-2528 | A held item is stored as claimed by its holder, any other without a claim, and no other field changes |
| AnswerEffects.AcceptedAnswerShows | src/gh_address_cr/core/agent_protocol_submission.py:857-900 | An accepted response shows field by field on its thread or finding and on the ledger, with phase, status and blocking of each resolution; a rejecting verifier leaves the item open, blocking and with the note |
| AnswerEffects.PreparesExactly | src/gh_address_cr/core/agent_protocol_submission.py:425-560 | A response is prepared exactly when it is complete and answers the request of its lease, or its lease is gone and another replaced it |
| AnswerEffects.PreparationRefusals | src/gh_address_cr/core/agent_protocol_submission.py:425-560 | A response that cannot be prepared is refused for its first fault: no lease, another item, an item that is gone, a missing field, the content, or its request file |
| AnswerEffects.RefusalsMeanWhatTheySay | src/gh_address_cr/core/leases.py:123-250 | Each refusal of a lease is given exactly for its own reason |
| AnswerEffects.AcceptedExactly | src/gh_address_cr/core/agent_protocol_submission.py:563-609 | A prepared response is accepted exactly when its lease can be taken, or is gone or ended and an unexpired one replaced it |
| AnswerEffects.RefusalShows | src/gh_address_cr/core/leases.py:708-722 | A refused submission changes nothing, unless its lease is overdue: then that lease expires and its item is left open |
| BatchTargets.BatchTakesOnlyTargets | src/gh_address_cr/core/agent_batch.py:98-113 | Every entry is for a thread on a file that was asked for, held by the agent or free and for fixing |
| BatchTargets.BatchServesEveryTarget | src/gh_address_cr/core/agent_batch.py:444-475 | Every held thread that was asked for is re-entered, and every free one for fixing gets a lease while the agent holds fewer than two |
| BatchTargets.BatchEntriesShow | src/gh_address_cr/core/agent_batch.py:175-317 | Each entry of a committed batch is a new lease in full on a thread marked with it and recorded as a fix, or the agent's old lease with its hash moved only when the file on disk is not its own |
| BatchTargets.NewLeaseConflictsExactly | src/gh_address_cr/core/agent_batch.py:246-317 | A new lease of the batch is refused exactly when an unexpired live lease stands in its way, files and hunks of the agent's own aside |
| BatchChecks.BatchStopsAtFirstFailure | src/gh_address_cr/core/agent_batch.py:659-744 | A batch passes exactly when every row is a takeable fix of a thread with its own lease and item, and otherwise stops at the first row that is not |
| BatchVerdicts.BatchIsAcceptedExactly | src/gh_address_cr/core/agent_batch.py:659-787 | A batch is accepted exactly when it is not empty and every row is filled in, passes its checks and keeps its revision |
| BatchVerdicts.RefusedBatchShows | src/gh_address_cr/core/agent_batch.py:659-803 | A refused batch records one rejection: the first fault of the first row that does not pass, or else the first refused revision, with that row's agent and item |
| BatchChecks.AcceptedBatchShows | src/gh_address_cr/core/agent_batch.py:771-787 | Every row of an accepted batch is held for publishing on its thread, with the binding recorded for it |
| BatchChecks.MalformedExactly | src/gh_address_cr/core/agent_batch.py:845-900 | A batch is malformed exactly when it is empty or a row lacks an id, an agent or a note, and then changes nothing |
| BatchChecks.UnboundBatchReleases | src/gh_address_cr/core/agent_batch.py:788-803 | A refused revision or commit releases the live leases of all prepared rows for an irrecoverable reason and of none for another |
| BatchChecks.RowRefusalsMeanWhatTheySay | src/gh_address_cr/core/agent_protocol_leases.py:100-125 | Each refusal of a checked row is given exactly for its own reason |
| BatchChecks.RefusedSingleShows | src/gh_address_cr/core/agent_protocol.py:694-764 | A refused response is recorded with its reason, answers nothing, and releases its lease only for an irrecoverable request |
| BatchChecks.ContextRefusals | src/gh_address_cr/core/agent_protocol_submission.py:822-854 | The request file decides: missing, superseded, unreadable, another request, or the hash of what is stored |
| BatchChecks.GoneLeaseIsNotFound | src/gh_address_cr/core/agent_protocol_submission.py:425-560 | A response on a lease that is gone is not found unless another lease of its agent replaced it |
| BatchChecks.ReclaimRecords | src/gh_address_cr/core/leases.py:364-383 | Reclaiming records one expiry with its item for each lease visited, in order |
| ProtocolSteps.CalmKeepsSound | src/gh_address_cr/core/leases.py:254-351 | A change that only ends live leases, reissues requests, or touches items outside their answers keeps the session sound |
| ProtocolSteps.AcceptKeepsSound | src/gh_address_cr/core/agent_protocol_submission.py:577-667 | Accepting one active lease with its event and its evidence keeps the session sound |
| ProtocolSteps.RemovalKeepsSound | src/gh_address_cr/core/agent_batch.py:320-331 | Taking leases away, accepted or not, keeps the session sound |
| ProtocolSteps.CommitIsCalm | src/gh_address_cr/core/runtime_store.py:2496-2528 | Deriving the claim fields always succeeds when live leases are compatible, writes no answer and marks every item with its holder |
| ProtocolSteps.GrantKeepsPeace | src/gh_address_cr/core/leases.py:78-101 | A granted lease leaves all live leases pairwise compatible |
| ProtocolSafety.ClaimOneKeepsSound | src/gh_address_cr/core/agent_protocol.py:522-574 | The single claim, with its lease and its request event, keeps the session sound |
| ProtocolSafety.ClaimBatchKeepsSound | src/gh_address_cr/core/agent_batch.py:414-502 | The batch claim keeps the session sound, whatever order items are visited in |
| ProtocolSafety.SubmitSingleKeepsSound | src/gh_address_cr/core/agent_protocol.py:694-818 | A single submission keeps the session sound whether it is accepted, refused, rejected by a verifier or fails its revision check |
| ProtocolSafety.SubmitBatchKeepsSound | src/gh_address_cr/core/agent_batch.py:629-814 | A batch submission keeps the session sound whether it is accepted or rejected |
| ProtocolSafety.SubmissionAccepts | src/gh_address_cr/core/agent_protocol_submission.py:577-667 | Every submission that closes a lease, rebound or not, accepts that one lease with an event of the right agent and item and evidence that the ledger replays |
| ProtocolSafety.UndoRemovesExactlyCreated | src/gh_address_cr/core/agent_batch.py:505-524 | Compensation removes exactly the leases the batch created and reopens exactly their items, blocking unless a stale thread kept its mark and otherwise as they were; re-entered and foreign leases stay |
| ProtocolSafety.CompensationKeepsAccounts | src/gh_address_cr/core/agent_batch.py:505-524 | Compensation leaves every acceptance its lease if and only if no lease it removes was accepted |
| ProtocolSafety.SubmitOneIsSingle | src/gh_address_cr/core/agent_protocol.py:694-818 | What a batch does for one row is the single submission of the runs, with the recorded binding and no verdict against it |
| ProtocolSafety.AcceptedBatchIsSingles | src/gh_address_cr/core/agent_batch.py:629-787 | An accepted batch leaves exactly the session that its single submissions leave one after the other |
| OutsideWrites.WritesAreObservations | src/gh_address_cr/core/publisher.py:279-289 | Publishing, refresh, ingestion, sync and reconciliation keep the answer on every item, so runs hold them anywhere |
| OutsideWrites.WritesSettleOrReopen | src/gh_address_cr/core/publisher.py:279-289 | Publishing, sync and a resolved refresh leave an item settled, ingestion and an unresolved refresh leave it blocking, and claimable exactly when no answer waits |
| OutsideWrites.FullReplayExactly | src/gh_address_cr/core/agent_protocol_submission.py:653-681 | In every run, at every moment, the ledger replays an item in full exactly when its handled mark and validation are those its last recorded answer left |
| OutsideWrites.WriteKeepsReplay | src/gh_address_cr/core/workflow.py:770-779 | A write ends the full replay of an item exactly when it changes the handled mark or the validation |
| OutsideWrites.PublishEndsReplay | src/gh_address_cr/core/publisher.py:279-289 | A published thread is never replayed in full |
| OutsideWrites.AnswerRestoresReplay | src/gh_address_cr/core/agent_protocol_submission.py:857-900 | An accepted answer brings a local finding back to full replay whatever was written before; a thread is replayed after it exactly if it was before |
| OutsideWrites.RefreshRestoresAnswer | src/gh_address_cr/core/gate.py:347-371 | Refreshing an unresolved thread that carries an answer makes it ready to publish with that answer |
| ProtocolWitness.CompensationTakesAccepted | src/gh_address_cr/core/agent_batch.py:505-524 | A run from a new session in which compensation takes away a lease that was accepted |
| ProtocolWitness.RollbackReleasesAnothersGrant | src/gh_address_cr/core/agent_protocol.py:640-666 | A run in which a one-shot call rolls back a lease granted to its agent after the first look |
| ProtocolWitness.LateClaimHappens | src/gh_address_cr/core/agent_protocol.py:522-549 | A run in which a claim decided on an old look reopens a thread whose answer was accepted |
| ProtocolWitness.PublishingHappens | src/gh_address_cr/core/publisher.py:279-289 | A run in which publishing an accepted answer ends the full replay of its thread |
| ProtocolSafety.ReclaimIsCalm | src/gh_address_cr/core/leases.py:364-383 | Reclaiming ends leases by expiry only: nothing is granted, accepted or removed, and no evidence changes |
| Leases.TransitionTable | docs/rfcs/033-lease-state-machine/contracts/lease-transitions.md:30-55 | Submission succeeds exactly for an active, unexpired lease of that role, agent, item and hash; accepting needs submitted, releasing needs a live lease, and no ended status changes |
| Leases.ClaimedItemHasOneLease | src/gh_address_cr/core/leases.py:78-119 | A claim never makes a second live lease on an item, and never succeeds beside one that is still valid |
| Leases.GrantIsCompatible | src/gh_address_cr/core/leases.py:78-101 | A granted lease shares keys with another live lease only if both are read-only, or both are one fixer's and overlap in files and hunks alone |
| Leases.ClashIsSymmetric | src/gh_address_cr/core/leases.py:628-665 | Compatibility of two leases does not depend on which was there first |
| Leases.FreedItemIsClaimable | src/gh_address_cr/core/github_thread_state.py:59-71 | A freed item can be claimed again exactly unless it is a resolved thread or a stale local finding |
| Leases.ClaimableExactly | src/gh_address_cr/core/github_thread_state.py:59-71 | A finding can be claimed while it is open; a thread also while it is stale, until GitHub has it resolved |
| Leases.ReleaseSparesOthers | src/gh_address_cr/core/agent_protocol_leases.py:79-97 | Giving up an irrecoverable lease changes no item that another lease holds and no other lease |
| Submission.PreCheckIsExact | src/gh_address_cr/core/agent_protocol_leases.py:100-125 | The batch's read-only lease check passes exactly when submitting and accepting the lease would succeed |
| Submission.PreparedIsConsistent | src/gh_address_cr/core/agent_protocol_submission.py:425-560 | A prepared submission names a lease on its item; its hash is that of the request file answered, or for a rebound response the lease's own under the responding agent |
| Submission.AcceptanceTakesOneLease | src/gh_address_cr/core/agent_protocol_submission.py:563-667 | An acceptance turns exactly one unexpired active lease of the responding agent on that item to accepted, adds one event saying so and touches no other item |
| Submission.RefusalTakesNothing | src/gh_address_cr/core/agent_protocol_submission.py:588-609 | A refused submission records one rejection, expires at most the lease it named and writes no evidence |
| Submission.AnsweredIsNotClaimable | src/gh_address_cr/core/agent_protocol_submission.py:857-900 | An answered item is not claimable; a thread stays blocking until published, a local finding does not |
| Submission.SnapshotReplaysEvidence | src/gh_address_cr/core/agent_protocol_submission.py:670-681 | An answer replayed from its ledger snapshot leaves the same evidence as the live update, timestamps and bindings aside |
| Submission.LedgerRebuildsItems | src/gh_address_cr/core/agent_protocol_submission.py:653-681 | For any sequence of accepted responses, replaying the ledger rebuilds every item on all fields but the timestamp and the revision binding |
| BatchClaim.BatchClaimIsBounded | src/gh_address_cr/core/agent_batch.py:414-502 | After a batch claim the agent holds at most the larger of the limit and what it held; entries are its own old leases under their own terms or fresh ones on threads classified fix, no item twice, one first issue per new lease, every other lease as it was |
| BatchClaim.BatchKeeps | src/gh_address_cr/core/agent_batch.py:444-475 | What any visited part of a batch has done: quota plus created leases is constant, old leases keep their terms, unvisited items are untouched |
| BatchClaim.IssuedOncePerCreation | src/gh_address_cr/core/agent_batch.py:481-497 | The recorded issues name each created lease once and no re-entered one |
| BatchClaim.BatchIssues | src/gh_address_cr/core/agent_batch.py:481-497 | A committed batch adds exactly one first issue for each created lease to the whole ledger |
| BatchSubmit.BatchIsAllOrNothing | src/gh_address_cr/core/agent_batch.py:629-814 | A malformed batch changes nothing; otherwise every row's lease is accepted with one event each in order, or no lease is accepted and one rejection is recorded; the accepting phase never fails |
| BatchSubmit.ReadyRowsAreAllAccepted | src/gh_address_cr/core/agent_batch.py:771-787 | Checked rows are all accepted: exactly their leases become accepted, exactly their items carry their answers, and the events follow the rows |
| BatchSubmit.RowOrderIsIrrelevant | src/gh_address_cr/core/agent_batch.py:771-787 | Accepting the same rows in any order gives the same items, the same leases and the same events up to order |
| BatchSubmit.BatchRefinesSingleSubmits | src/gh_address_cr/core/agent_batch.py:629-787 | A batch that passes its checks gives the session that submitting its responses one by one gives, each prepared afresh, and none of those can fail |
| BatchSubmit.CheckedRowsAreReady | src/gh_address_cr/core/agent_batch.py:659-744 | Rows that pass the checks are takeable fixes of review threads and no two share an item, rebound leases included |
| BatchSubmit.PrepareIsLocal | src/gh_address_cr/core/agent_protocol_submission.py:425-560 | Preparing a response depends only on its own item and that item's leases |
| BatchSubmit.StoppedBatchReleases | src/gh_address_cr/core/agent_batch.py:788-803 | A stale request context releases exactly the live leases of the rows before it; any other stop of a well-formed batch releases nothing |
| BatchSubmit.ReleaseRowsIsExact | src/gh_address_cr/core/agent_batch.py:793-794 | Releasing prepared rows ends exactly their own live leases |
| SessionStore.Session.DeriveClaims | src/gh_address_cr/core/runtime_store.py:2496-2528 | Succeeds exactly when no item is held twice, and then every item carries the claim fields of its holder |
| SessionStore.Session.IndexHolders | src/gh_address_cr/core/runtime_store.py:2499-2510 | Finds the live lease of every held item, or reports that an item is held twice |
| SessionStore.Session.ExpireLeases | src/gh_address_cr/core/leases.py:344-351 | Visiting the leases in any order ends exactly the overdue ones and frees exactly the items they mark |
| SessionStore.Session.ClaimLease | src/gh_address_cr/core/leases.py:58-120 | Grants the lease exactly when no live lease blocks it, and otherwise leaves the session merely expired |
| SessionStore.Session.TakeLease | src/gh_address_cr/core/leases.py:123-250 | Submits and accepts in one go, or returns the first failed check and at most the expiry |
| SessionStore.Session.FindRebound | src/gh_address_cr/core/agent_protocol_leases.py:43-76 | Finds the agent's replacement lease on the thread exactly when there is one |
| SessionStore.Session.PrepareResponse | src/gh_address_cr/core/agent_protocol_submission.py:425-560 | Accepts or refuses a response with the same verdict, lease and hash as the specification, changing nothing |
| SessionStore.Session.AcceptResponse | src/gh_address_cr/core/agent_protocol_submission.py:563-667 | The in-place acceptance reaches the specified outcome and state, rebinding included |
| SessionStore.Session.FindOwn | src/gh_address_cr/core/agent_protocol_leases.py:25-40 | Finds the agent's active fixer lease on an item exactly when it has one |
| SessionStore.Session.CountOwn | src/gh_address_cr/core/agent_batch.py:428-435 | Counts the agent's active fixer leases |
| SessionStore.Session.SelectTargets | src/gh_address_cr/core/agent_batch.py:98-113 | Keeps, in order, the threads that are re-enterable or batch-claimable and pass the file filter |
| SessionStore.Session.LeaseThread | src/gh_address_cr/core/agent_batch.py:246-317 | Claims a thread classified fix, passes over one classified otherwise, and reports a conflict |
| SessionStore.Session.VisitThreads | src/gh_address_cr/core/agent_batch.py:444-475 | The claim loop does what the specification does for the visited threads, and stops at the first conflict |
| SessionStore.Session.ClaimThreads | src/gh_address_cr/core/agent_batch.py:414-502 | The whole batch claim equals the specification, and an abort changes nothing |
| SessionStore.Session.CheckResponse | src/gh_address_cr/core/agent_batch.py:660-744 | One row is passed or stopped as the specification says, from the sets of seen leases and items |
| SessionStore.Session.CheckResponses | src/gh_address_cr/core/agent_batch.py:659-744 | The checking loop stops at the first bad row with the rows that passed, and changes nothing |
| SessionStore.Session.BindRows | src/gh_address_cr/core/agent_batch.py:746-769 | Finds the first row whose revision is refused, or binds every row |
| SessionStore.Session.AcceptResponses | src/gh_address_cr/core/agent_batch.py:771-787 | Accepts ready rows one after another without a failure |
| SessionStore.Session.SubmitResponses | src/gh_address_cr/core/agent_batch.py:629-814 | The three loops of a batch submission together reach the specified result and state |
| SessionStore.Session.ReleaseLostRows | src/gh_address_cr/core/agent_batch.py:793-794 | Releases the leases of all prepared rows |
| SessionStore.Session.Compensate | src/gh_address_cr/core/agent_batch.py:505-524 | Removes the created leases that are still there and reopens their items |
| SessionStore.Session.RecordIssues | src/gh_address_cr/core/agent_batch.py:481-497 | Appends one request event per created plan, in order |
| RequestFiles.OnlyStrandingHurts | src/gh_address_cr/core/agent_protocol.py:258-291 | A step keeps request file and lease hash in step exactly when it is not a stop between writing a differently hashed file and saving its hash |
| RequestFiles.FileAndHashAgree | src/gh_address_cr/core/agent_batch.py:527-554 | In every run without such a stop, a usable file hashes to the lease's hash whenever nothing is pending |
| RequestFiles.BatchReentryNeverStrands | src/gh_address_cr/core/agent_batch.py:214-243 | Runs that re-enter through the batch path only can stop anywhere and stay in step |
| RequestFiles.StrandedStays | src/gh_address_cr/core/agent_protocol.py:258-259 | A stranded file is handed back unchanged by every later re-entry until it is damaged |
| RequestFiles.CrashStrands | src/gh_address_cr/core/agent_protocol.py:263-291 | A stop right after the file write leaves a usable file that agrees with the lease only if the hash did not change |
| RequestFiles.EarlierResponseStillPasses | src/gh_address_cr/core/agent_protocol_submission.py:822-840 | After a finished claim or re-entry the file is usable under the original ids and an earlier response passes the request and hash checks |
| RequestFiles.StrandedResponseIsRefused | src/gh_address_cr/core/agent_protocol_leases.py:123-124 | With a stranded file a response to the original request is refused as stale |
| RequestFiles.RequestSlot.ReenterSingle | src/gh_address_cr/core/agent_protocol.py:258-299 | Always leaves a usable file; file and hash that agreed still agree exactly when the save succeeded, the file was kept, or the hash did not change |
| RequestFiles.RequestSlot.ReenterBatch | src/gh_address_cr/core/agent_batch.py:214-227 | File and hash that agreed always agree afterwards, and the file is usable exactly when it was written or kept |
| EvidenceProfile.ExpandingTwice | src/gh_address_cr/core/agent_protocol_submission.py:383-422 | Expanding a second time changes neither the response nor the verdict, errors included |
| EvidenceProfile.AgentWins | src/gh_address_cr/core/agent_protocol_submission.py:394-421 | Files, validation and reply fields that the agent supplied survive; only an empty commit or file list in its reply is filled |
| EvidenceProfile.ProfileFillsTheRest | src/gh_address_cr/core/agent_protocol_submission.py:394-421 | Files, validation and reply fields that the agent left out take the profile's values |
| EvidenceProfile.CommitAndFilesAreFilled | src/gh_address_cr/core/agent_protocol_submission.py:404-419 | A fix reply without a commit takes the profile's, and one without files the response's |
| EvidenceProfile.ReferencesFailExactly | src/gh_address_cr/core/agent_protocol_submission.py:383-413 | A reference fails exactly for a missing profile or a reply that is no object |
| EvidenceProfile.SplitCutsAtCommas | src/gh_address_cr/core/utils.py:98-103 | Splitting a list text cuts at every comma and loses nothing |
| EvidenceProfile.TidyKeepsEveryText | src/gh_address_cr/core/utils.py:98-103 | Exactly the non-blank texts are kept, stripped, in order |
| EvidenceProfile.EmptyAnswerHidesProfile | src/gh_address_cr/core/agent_protocol_submission.py:414-415 | An empty reply field of the agent still hides the profile's value |
| EvidenceProfile.ListReadsBack | src/gh_address_cr/core/utils.py:98-103 | A text or list read as tidy texts reads back as itself |
| EvidenceProfile.ResponseDraft.ExpandReference | src/gh_address_cr/core/agent_protocol_submission.py:383-422 | Fills the response in place as specified, also when it ends in an error |
| FindingSync.SyncLeavesExactlyIncoming | src/gh_address_cr/commands/high_level.py:248-288 | After a sync the producer's blocking findings are exactly the incoming ids |
| FindingSync.ReportedIsOpen | src/gh_address_cr/commands/high_level.py:248-277 | A reported item is the producer's open, blocking, unhandled finding; it keeps its creation time and its history |
| FindingSync.LastWordCounts | src/gh_address_cr/commands/high_level.py:248-262 | Each field and the severity of a reported item are those of the last finding that gives one |
| FindingSync.UnspokenStays | src/gh_address_cr/commands/high_level.py:248-262 | What no finding speaks of keeps its value |
| FindingSync.OthersAreUntouched | src/gh_address_cr/commands/high_level.py:278-288 | Items the input does not name keep their value, except the producer's own findings under sync, which are closed |
| FindingSync.SecondIngestChangesTimesOnly | src/gh_address_cr/commands/high_level.py:248-288 | Taking in the same findings again changes nothing but timestamps |
| FindingSync.OpenAllPatches | src/gh_address_cr/commands/high_level.py:248-277 | An item depends on its own findings only, merged in input order |
| FindingSync.FindingSession.TakeIn | src/gh_address_cr/commands/high_level.py:248-288 | The two in-place loops do the specified ingestion |
| FindingSync.FindingSession.Recalculate | src/gh_address_cr/commands/high_level.py:192-206 | The metrics become the true counts, whatever they were |
| FindingSync.FindingSession.CountItems | src/gh_address_cr/commands/high_level.py:192-206 | Counts exactly the items that satisfy a test |
| GitBranch.PushIsCompareAndSwap | scripts/release/plugin_release.py:200-212 | A commit made on the head that was read is accepted by a plain push exactly when the branch is still at that head or already at this commit |
| GitBranch.HistoryIsLinear | scripts/release/plugin_release.py:203-207 | Two commits of one single-parent history are ordered |
| Versions.VersionOrder | scripts/release/plugin_release.py:81 | Final releases with three components are strictly and totally ordered |
| PluginBundle.SnapshotReadsBack | scripts/release/plugin_bundle.py:90-95 | A published bundle validates and gives back its own receipt |
| PluginBundle.ReceiptDeterminesTree | scripts/release/plugin_release.py:143-161 | A tree that validates with a bundle's receipt is its snapshot exactly when its receipt file is canonically encoded |
| PluginBundle.ReceiptLayoutIsNotChecked | scripts/release/plugin_release.py:143-161 | A tree with another layout of the same receipt validates although it is not the snapshot |
| PluginBundle.FirstPublicationExactly | scripts/release/plugin_bundle.py:55-86 | A first publication goes ahead exactly for a receipt of one version throughout with a full commit, both texts within bounds and one to a thousand files |
| PluginBundle.PolicyExactly | scripts/release/plugin_release.py:76-88 | Between two such receipts the newer version wins, and equal versions are one receipt or an error |
| Marketplace.EveryRunIsSound | scripts/release/plugin_release.py:175-213 | In every interleaving with crashes and lost push responses the branch only grows, every head is the snapshot of a valid bundle, versions strictly increase, and every reported outcome stays true |
| Marketplace.DecisionIsExact | scripts/release/plugin_release.py:76-88 | On a lawful head a publisher writes exactly for a newer version, finds itself unchanged exactly on its own tree, and fails exactly on an equal version with another tree |
| Marketplace.DecisionIsSound | scripts/release/plugin_release.py:182-213 | Whatever is decided on a lawful head is sound: the commit to push continues the law, and the outcome reported is true |
| Marketplace.UncontestedPublishSucceeds | scripts/release/plugin_release.py:175-213 | Left alone, a publisher with a newer version puts its exact snapshot on the branch and confirms it |
| Marketplace.PublishedByThirdAttempt | scripts/release/plugin_release.py:175-213 | From joining on, a newer bundle that loses at most two pushes is on the branch and confirmed after its next attempt |
| Marketplace.GivesUpAfterThree | scripts/release/plugin_release.py:175-213 | After three refused pushes the publisher fails and the branch is as it was |
| Marketplace.StepPreservesInv | scripts/release/plugin_release.py:175-213 | Each fetch, push, read-back, join and crash keeps the branch lawful and what every publisher knows true |
| Marketplace.VersionsIncrease | scripts/release/plugin_release.py:76-88 | Along a lawful history each commit has a strictly newer version than its ancestors |
| Marketplace.VersionIsPublishedOnce | scripts/release/plugin_release.py:76-88 | No version is on the branch twice, so never with two receipts |
| Marketplace.LostPushIsNotRepeated | scripts/release/plugin_release.py:208-213 | After a push that took effect a re-read finds the bundle unchanged at the head or superseded, never a second commit |
| Marketplace.GainedCommitsWereHeads | scripts/release/plugin_release.py:203-211 | Every commit the branch gained in a run was its head at some moment |
| Marketplace.RemoteBranch.PublishGit | scripts/release/plugin_release.py:175-213 | The loop of three attempts, with rivals before every access, keeps the branch lawful and reports a true outcome, published or unchanged only at the head it confirmed; where nobody interferes the outcome and the branch are exactly the decision's |
| Tap.EveryRunKeepsOrder | scripts/release/homebrew_support.py:320-361 | In every run of stable, development and foreign writers main only grows, each commit changes at most one formula file, the stable pair never goes down, and a normal return means the bytes were there |
| Tap.WriteKeepsOrder | scripts/release/homebrew_support.py:341-361 | An honest update changes only its own file and never lowers the stable version and rebuild |
| Tap.RefusesExactlyLowering | scripts/release/homebrew_support.py:345-354 | On a readable tap an honest stable update is refused exactly when it would lower the pair, and is idle exactly on equal bytes |
| Tap.DevelopmentIsNeverRefused | scripts/release/homebrew_support.py:341-356 | A development update is never refused and writes exactly when its bytes are not there |
| Tap.StableIsRefusedExactly | scripts/release/homebrew_support.py:341-356 | A stable update with new bytes is refused exactly for an unparsable version, a newer one, or an equal one rebuilt later |
| Tap.UncontestedUpdateSucceeds | scripts/release/homebrew_support.py:320-361 | Left alone, an update that is not refused returns with its bytes on main and every other file as it was |
| Tap.AnnouncedVersionIsTrusted | scripts/release/homebrew_support.py:348-354 | An update announced as newer is written whatever its content shows, and keeps the order exactly when that content is not older |
| Tap.PairNeverGoesDown | scripts/release/homebrew_support.py:341-361 | Along a lawful history the stable pair never goes down |
| Tap.RepeatedUpdateIsIdle | scripts/release/homebrew_support.py:343-344 | An update run again changes nothing on its own commit and on every later one that left its file alone |
| Tap.Repository.UpdateTap | scripts/release/homebrew_support.py:320-338 | The update loop under rivals keeps the order, and a normal return means main held the requested bytes at the last read or push; where nobody interferes it fails exactly when the first decision refuses |
| Bottles.EveryRunIsSound | scripts/release/homebrew_release.py:177-220 | For builders that race, crash and retry, every bottle and record agrees with its target's one sealed bundle, no record stands without its bundle, and the missing-bundle error is never reached |
| Bottles.SingleWinner | scripts/release/homebrew_release.py:278-301 | Two jobs that finish for one target published the same build |
| Bottles.RestoreInvertsSeal | scripts/release/homebrew_release.py:143-166 | Restoring gives a build back exactly when the bundle seals that build |
| Bottles.RestoresExactly | scripts/release/homebrew_release.py:153-166 | A bundle restores exactly the build it seals, and only for its own target and snapshot with the digest on record |
| Bottles.RetryNeverConflicts | scripts/release/homebrew_release.py:185-187 | A retry restores the sealed build and none of its uploads can meet different bytes |
| Bottles.FirstBuildIsUploaded | scripts/release/homebrew_release.py:177-189 | A first build uploads itself; a sealed bundle of the same snapshot is restored, one of another stops the job |
| Bottles.UncontestedBuildFinishes | scripts/release/homebrew_release.py:278-301 | Left alone, a job on a target without assets finishes with its own build published |
| Bottles.LaunchedBuildFinishes | scripts/release/homebrew_release.py:177-220 | The same from the launch of the job on |
| Bottles.CreateKeepsStoreSound | scripts/release/homebrew_support.py:298-307 | Creating the next planned asset keeps the store in agreement with its bundles |
| Bottles.StepPreservesInv | scripts/release/homebrew_release.py:278-301 | Each start, upload, check and crash keeps the store sound and only adds to it |
| Bottles.ReleaseAssets.Upload | scripts/release/homebrew_support.py:298-307 | Creates an asset only when absent, never replaces one, and succeeds only when its bytes are there |
| Bottles.ReleaseAssets.PublishBottles | scripts/release/homebrew_release.py:278-301 | Success means every planned asset of every target has exactly its bytes, and where nobody interferes comes exactly when no asset is there with other bytes |
| FormulaRoundTrip.SnapshotRoundTrip | scripts/release/homebrew_support.py:105-138 | For every accepted formula the canonical text has the same non-blank lines, is accepted, and gives the same snapshot and digest |
| FormulaRoundTrip.SnapshotDeterminesLines | scripts/release/homebrew_support.py:131-137 | Two accepted formulas with one snapshot differ in blank lines only |
| FormulaPrinting.PrintedSnapshotIsAccepted | scripts/release/homebrew_support.py:93-138 | The formula printed from a snapshot with formed fields is accepted exactly when no printed value looks like formula syntax to the whole-text checks, and then gives back that snapshot and the digest of the text |
| FormulaPrinting.AcceptedTexts | scripts/release/homebrew_support.py:105-138 | The accepted texts are exactly the printed forms of such snapshots, up to blank lines that break no resource block |
| FormulaTemplate.TopReads | scripts/release/render_homebrew_formula.py:185-195 | The lines above the resources in order, with the version only when the URL does not tell it and the conflict only in the development formula |
| FormulaTemplate.BottomReads | scripts/release/render_homebrew_formula.py:195-202 | The lines below the resources in order, the install line naming python without its at sign |
| FormulaFields.SlugExactly | scripts/release/homebrew_support.py:43-49 | A resource name is one or more words of small letters and digits joined by single hyphens |
| FormulaFields.PythonExactly | scripts/release/homebrew_support.py:122-124 | A Python dependency is the name, an at sign, and two numbers around one point |
| FormulaFields.BetweenExactly | scripts/release/homebrew_support.py:77-81 | A value is read from a line exactly when the line is the fixed start, the value and the fixed end |
| FormulaFields.ResourcesParseExactly | scripts/release/homebrew_support.py:84-90 | Resources are accepted exactly when there are some, none shares a name, every heading opens a block, no error is marked and every URL is allowed |
| FormulaPrinting.PrintedMatches | scripts/release/render_homebrew_formula.py:149-202 | In a printed formula each field is found once with its value, and the version exactly when the URL does not tell it |
| FormulaPrinting.ChecksPass | scripts/release/homebrew_support.py:87-88 | The heading count and the error check pass on a printed formula exactly when its URL, its printed version and its resource URLs are neutral |
| FormulaPrinting.PrintedResourcesAreFound | scripts/release/homebrew_support.py:84-86 | The resources found in a printed formula are the printed ones, in order, whatever the other fields hold |
| FormulaRoundTrip.RenderedResourcesParse | scripts/release/homebrew_support.py:84-90 | Well-formed, distinctly named resources, printed and ended by a newline, parse back in order exactly when no URL ends like a heading or holds the error marker |
| FormulaRoundTrip.RenderedBlocksAreFound | scripts/release/render_homebrew_formula.py:137-146 | Printed blocks before ordinary lines are found again, all and in order |
| FormulaRoundTrip.CanonicalResourcesParse | scripts/release/homebrew_support.py:84-90 | The canonical text of an accepted formula parses to the same resources |
| FormulaRoundTrip.MatchesIgnoreBlanks | scripts/release/homebrew_support.py:77-81 | Searching for a field sees the non-blank lines only |
| FormulaRoundTrip.FoundBlocksAreWellFormed | scripts/release/homebrew_support.py:43-49 | Every resource found in any text is well formed |
| FormulaRoundTrip.FieldLineCount | scripts/release/homebrew_support.py:87 | A quoted field is counted as a heading exactly when its value ends like one |
| FormulaRoundTrip.AmbiguousUrlIsRefused | scripts/release/homebrew_support.py:87-88 | A well-formed resource whose URL ends like a heading is refused |
| FormulaRoundTrip.UnterminatedBlocksLoseTheLast | scripts/release/render_homebrew_formula.py:137-146 | Blocks printed without a final newline parse to all but the last |
| FormulaRoundTrip.UnterminatedResourcesAreRefused | scripts/release/homebrew_support.py:84-90 | Blocks printed without a final newline are refused as a whole |
| SkillTree.WalkMatchesFilter | scripts/release/plugin_bundle.py:155-160 | The pruning copy keeps what verification expects exactly when no expected file lies below a directory whose name carries an excluded suffix |
| SkillTree.WalkIsReached | scripts/build_plugin_payload.py:148-161 | The copy keeps exactly the files whose every step is not excluded |
| SkillTree.PlainTreesMatch | scripts/build_plugin_payload.py:144-161 | Trees whose directory names carry no excluded suffix are copied exactly as expected |
| SkillTree.ExpectedExactly | scripts/release/plugin_bundle.py:155-160 | A file is expected unless a step of its path is an excluded directory name or its own name carries an excluded suffix |
| SkillTree.SuffixedDirectoryIsLost | scripts/build_plugin_payload.py:144-161 | A good file in a directory with an excluded suffix is expected but not copied |
| SkillTree.LogDirectoryIsLost | scripts/build_plugin_payload.py:144-161 | A directory named notes.log is such a case |
| SkillTree.Ignored | scripts/build_plugin_payload.py:151-159 | The ignore callback returns exactly the excluded names of a directory |
| MarkerBlock.RefreshKeepsOutside | scripts/release/branch_control.py:335-346 | A refresh leaves one ordered pair of markers around the new text and everything outside unchanged |
| MarkerBlock.LastWriterWins | scripts/release/branch_control.py:335-346 | Refreshing twice gives what refreshing with the second text alone gives, failures included |
| MarkerBlock.HumanTextSurvives | scripts/release/branch_control.py:335-346 | Any run of refreshes and outside edits ends with the last human text around the last refresh |
| MarkerBlock.ReplaceKeepsOutside | scripts/release/branch_control.py:335-346 | Replacing succeeds exactly for clean content and a body with no or one ordered pair of markers, and then frames the block by the text outside |
| MarkerBlock.FirstBlockIsAppended | scripts/release/branch_control.py:339-340 | A body without markers gets the block at its end, after a blank line unless it is empty |
| MarkerBlock.SeamSplits | scripts/release/branch_control.py:340-346 | No marker straddles a join of the pieces a refresh puts together |
| MarkerBlock.BlockShows | scripts/release/branch_control.py:340-346 | A block between clean texts shows each marker once, in order |
| MarkerBlock.CountedOnce | scripts/release/branch_control.py:338 | A marker is counted once exactly when it occurs at one place only |
| MarkerBlock.MarkersAreMarkers | scripts/release/branch_control.py:25-26 | Both markers open and close with their only angle brackets and fit on one line |
| PypiReconcile.PublishedFiles | scripts/release/pypi_reconcile.py:38-55 | A listing is accepted exactly when it is for the version, well formed and free of repeated names, and then read without loss |
| PypiReconcile.Reconcile | scripts/release/pypi_reconcile.py:58-98 | Stops exactly on a conflict when staging into a new directory; confirms exactly when both archives are published with their digests; hands back exactly the absent ones |
| PypiReconcile.Compare | scripts/release/pypi_reconcile.py:75-86 | Gives each archive its status, the absent names and whether any digest differs |
| PypiReconcile.OneFullRoundConfirms | scripts/release/pypi_reconcile.py:58-98 | After any interrupted rounds of one handoff, one complete round publishes everything and confirms |
| PypiReconcile.RoundsNeverConflict | scripts/release/pypi_reconcile.py:75-89 | Rounds of one handoff never conflict with themselves while nobody else takes its names |
| PypiReconcile.StageSelectsAbsent | scripts/release/pypi_reconcile.py:75-97 | After any interrupted rounds the next stage selects exactly the files still absent, and every file it passes over is published with its digest |
| PypiReconcile.VerdictsLast | scripts/release/pypi_reconcile.py:75-92 | A confirmation or a conflict holds for good, whatever is added next |
| PypiReconcile.RemoteOnlyGrows | scripts/release/pypi_reconcile.py:58-98 | No run replaces or removes a published file |

## Left out

- GitHub, git, Homebrew, PyPI and SQLite: atomic steps or arbitrary outcomes; a busy or failing store is an action that does not happen.
- Hashing, JSON and zip encodings: taken as injective; SHA-256 as collision free.
- Strings: ids are taken as already stripped; letter case of states and the numerals and line separators of Unicode beyond newline are not modelled.
- Revision bindings and cited commits: their comparison with GitHub is an arbitrary verdict on each response, and the content checks on fix evidence are an arbitrary function of response and item.
- Lease events, recovery advice, resume tokens, telemetry, metadata and stack context: they take no part in the modelled decisions.
- Timestamps of claims (`claimed_at`, `lease_expires_at`, `updated_at`): copies of lease fields or display only.
- Evidence record ids: two equal events in one second are deduplicated by the store; the ledger here keeps both.
- Bounded working sets: every operation works on the whole session; the rows a bounded load brings are the ones its decision reads.
- Leases without a request path or request id: no modelled operation grants one.
- Building batch rows from a batch file and the skeleton files beside requests: rows arrive built, a row without ids, agent or note is refused before any check, and request paths are read as given.
- The `--publish` shortcut, the publisher and the final gate: their GitHub calls and verdicts are left out; what they write on items is in the runs as an observation that keeps answers.
- Ledger events of publishing, refresh, sync and reconciliation: no replay of an accepted response reads them.
- Fast-fix chunks, the orchestrator's shadow leases and `reclaim_lease`: callers of the modelled operations.
- ProtocolWorld.EveryRunIsSound: assumes that a granted lease gets an id used nowhere before, and that a batch visits each item once.
- ProtocolSafety.SubmitOneIsSingle: the content checks do not read the revision binding that is recorded after them.
- RequestFiles.FileAndHashAgree: one re-entry at a time per lease, and a damaged file never keeps this lease's ids, as the protocol promises its callers.
- Marketplace.RemoteBranch.PublishGit: beside rivals a failed outcome promises nothing about the branch beyond its law; the run model gives the attempts step by step.
- Bottles.EveryRunIsSound: bottle names of different targets are distinct, and the final formula and publication files of a release are not modelled.
- Tap.EveryRunKeepsOrder: the version announced for a stable formula matches its content, outside writers leave the two formula files alone, and nothing is claimed while the old version cannot be read.
- PypiReconcile.OneFullRoundConfirms: nobody else publishes a name of the handoff; checking the handoff itself and reading PyPI are outside.
- FormulaPrinting.PrintedSnapshotIsAccepted: URL and version rules are arbitrary functions, and Homebrew's own rewriting of a formula is outside.
- SkillTree.WalkMatchesFilter: symbolic links, empty directories and the text checks of the payload are left out.
- Other branch control, doctor, active pull request, feedback and reporting commands, and the evaluation scripts: checks and formatting that would only add easy members.
