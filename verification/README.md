# A verified model of the story engine's protocol, codecs and session log

A player's command travels from the turn coordinator through a host facade, a host adapter and a message lease to a
worker that runs the story interpreter and keeps a journal of receipts. This project models that path, the two binary
formats that a save is made of, and the event log with the views derived from it, and proves what the design promises of
them. `dafny verify dfyconfig.toml` checks everything.

How the parts fit together:

- **Worker.** `Session` is the interpreter's queue of prints, reads and turns; `Runtime` gives every request as a pure
  step, `WorkerRuntime` runs the same steps on fields that change in place. `RuntimeSafety` holds the invariant,
  `RuntimeReplay` linear history and at-most-once execution, `RuntimeRestore` that snapshot and restore preserve
  behaviour; `RuntimeTells` says what every answer tells. The interpreter is an arbitrary deterministic machine
  (`Machine.Story`); `CheckpointStory` proves that the checkpoint codec gives the runtime what it asks of such a machine.
- **Host.** `Adapter` and `WorkerAdapter` are the recovery state machine; `Protocol` puts adapter, channel and worker
  together, with each `await` a step of its own and every loss, late reply and give-up an event. `ProtocolInvariant`,
  `ProtocolSafety` and `ProtocolSteps` carry the invariant; `ExactlyOnce` draws the conclusions, `ExecuteRecovery` says
  when an uncertain execute can be resolved, `ChannelInDoubt` what is under way until then. `Lease` is the map of pending
  exchanges, `Engine`, `EngineSafety` and `WorkerEngine` the facade that swaps a whole worker on restore, `JointRuns`
  the facade over the protocols of its workers. `AdapterTells` and `EngineTells` are about any worker, honest or not.
- **Codecs.** `Bytes`, `Utf8` and `Binary` are the number and text layer; `SnapshotFormat` and `SnapshotCodec` the worker
  snapshot with its nested journal; the `Checkpoint...` modules the machine checkpoint with its two-pass reader. Each
  format is a pair of pure functions, and the reading and writing methods are proved against them. `ByteLayout`, the two
  `...Layout` and the two `...Meaning` modules say which bytes these are without either: bytes decode to a value exactly
  if the value is sound and its fields stand at their offsets. `Journal` says what makes a journal coherent, which is both
  what the decoder checks and what the runtime keeps.
- **Session log.** `EventLog` allocates sequence numbers; `Coordinator` and `TurnCoordinator` run turns, openings and
  introductions; `CoordinatorEvents`, `CoordinatorLedger` and `CommittedTwice` hold what their events add up to,
  `Exclusion` that only one of them runs at a time, `TurnTells` which events each stimulus adds, `CoordinatorNarration` that
  every sentence is asked for in order. `Projection` folds the log into a bounded window and `TranscriptMarks` says what
  each event does to it, `Paging` and `PagedView` page through it, `Narration` cuts text into sentences and `Sentences`
  says which, in words. The `Scene...` modules are the memory of the opening scene with its separate validator
  (`SceneShowing` goes through the reviewed texts one by one, `SceneTrust` through what an accepted scene can be relied on
  for), `OpeningScene` both of them step by step.

What the proofs assume, and where it is written: message ids are fresh (`Protocol.Next`), the channel keeps order but may
lose anything (`Protocol`), the digest is an arbitrary function, SHA-256 in the program (`Runtime.Config`), the machine's
captured state decides its behaviour (`CheckpointStory.CaptureDecides`, `Relaunches`), game text is a sequence of Unicode
scalar values.

## Where the code and its promises part

- An uncertain execute is not always resolved by asking again. The adapter takes an error reply for a lost one, and two
  kinds of request only ever get errors: those with an id over 128 bytes or with control characters, which the adapter
  takes and every runtime refuses, and those whose turn breaks the interpreter. `ExecuteRecovery.ResolvableIff` gives the
  exact condition over all runs, with the continuation that recovers where one does; `AcceptedButRefused` and
  `CrashedForGood` are the witnesses. For the caller it means a locked facade: `JointRuns.FacadeLocked`, `FreeableIff`.
- Finishing an engine result happens inside the handler that guards the execute
  (packages/session/src/semantic-turn-coordinator.ts:1421-1458), so a bad narration id after a commit is recorded as an
  uncertain turn, and its recovery commits in the log once more: `CommittedTwice.CommitsTwice` is such a run,
  `CoordinatorLedger.CommitsAreAccounted` counts the commits in excess, `AccountedIffUnspoilt` gives the exact condition.
- The paged view looks for the first transcript line only when it is opened; opened before there is one, it offers no
  older page until it is closed and opened again: `PagedView.StuckIffOpenedEmpty`, `FirstLineOutOfReach`,
  `ReopenedIsFree`.
- The scene's validator bounds identities to 160 characters, the event allocator only asks for nonempty ones:
  `SceneValidator.AcceptedIffIdentified` says when a scene is refused for it, `LongIdRefused` is the witness.
- Over a transport that can lose messages without dying, a lost inspection is awaited for good, since it has neither
  signal nor time limit (`Lease.AwaitedToTheEnd`), and an uncertain execute cannot be asked again before it ends: the last
  condition of `ExecuteRecovery.ResolvableIff`. Such a transport has to time out by itself.
- Some guards never fire: the exhausted revision (`RuntimeSafety.RevisionBounded`), both total-size guards
  (`SnapshotFormat.CapsCompose`, `CheckpointFormat.CapsCompose`), and the capacity error after a commit
  (`RuntimeSafety.CommitRecords`).

## Model

| member | source | states |
|---|---|---|
| `ExactlyOnce.RunsAreDistinct` | spikes/dork-worker/dork-worker-runtime.ts:412-603 | In every run of host and worker over a channel that loses requests and replies, gives up on exchanges, and delivers late replies, the interpreter runs at most once for each request id on the branch being played. |
| `ExactlyOnce.AdapterSimulatesWorker` | packages/game-engine/src/worker-engine-adapter.ts:332-397 | In every run, a ready and idle adapter has the worker's revision and boundary; while an execute is uncertain the worker is at that revision, or exactly one ahead with that very request as its newest committed receipt. |
| `ExactlyOnce.DeliveredOnce` | packages/game-engine/src/worker-engine-adapter.ts:369-397 | In every run, any two results delivered for one request id on a branch agree: two of the same request are equal, and so are two commits; besides these there are only rejections for lack of room, or for an id that another request has taken. |
| `ExactlyOnce.DeliveredIsJournaled` | spikes/dork-worker/dork-worker-runtime.ts:436-461 | In every run, what is delivered in answer to the exact request (id, revision, command) of a receipt in the worker's journal, rejections included, is that receipt's result. |
| `ExactlyOnce.HonestAnswerAccepted` | packages/game-engine/src/worker-engine-adapter.ts:700-749 | In every run, a non-error answer of the worker to the pending request passes every check of the adapter, except exactly that of a boot of another engine than the adapter was bound to; a boot or execute so answered leaves it ready. |
| `ExactlyOnce.OnlyTheRetry` | packages/game-engine/src/worker-engine-adapter.ts:662-698 | While an execute is uncertain the adapter submits nothing but that exact request and inspections. |
| `ChannelInDoubt.NothingElseUnderWay` | packages/game-engine/src/worker-engine-adapter.ts:332-411 | In every run in which no snapshot is given up while it is under way (the lease cannot do that: a snapshot has no signal), from the submission of an execute until it is resolved nothing is on its way to the worker but that execute and inspections: no other execute, no snapshot, no restore. |
| `ChannelInDoubt.SnapshotInDoubtIff` | packages/game-engine/src/worker-engine-adapter.ts:662-698 | Over any transport, in every run: once an execute is submitted, a continuation in doubt of it can lead to an uncertain execute with a snapshot on its way exactly if a snapshot was on its way at the submission. |
| `ExactlyOnce.OnlyTheRetryUnderWay` | packages/game-engine/src/worker-engine-adapter.ts:675-698 | In every run over any transport, while an execute is uncertain nothing is on its way to the worker but that execute, inspections and snapshots. |
| `ChannelInDoubt.SnapshotStillUnderWay` | packages/game-engine/src/worker-engine-adapter.ts:399-411 | Witness, for a transport that abandons exchanges unasked: from any idle, ready state, a snapshot and then an execute given up leave the snapshot on its way while the execute is uncertain. |
| `ExactlyOnce.PlayKeeps` | packages/game-engine/src/worker-engine-adapter.ts:234-600 | The system invariant (worker, mail, adapter, runs and deliveries) is kept by any number of sends, losses, deliveries, completions, receipts and give-ups. |
| `ExactlyOnce.CommittedRequestsDistinct` | spikes/dork-worker/dork-worker-runtime.ts:436-461 | The requests that a reachable journal records as committed have pairwise different ids. |
| `ProtocolInvariant.InitialHolds` | packages/game-engine/src/worker-engine-adapter.ts:234-265 | The system invariant holds before boot. |
| `ProtocolSafety.CommittedAccepted` | packages/game-engine/src/worker-engine-adapter.ts:700-749 | A committed answer to the pending request at the worker's revision passes the adapter's validation of execute results. |
| `ProtocolSafety.ExecuteKeepsNear` | spikes/dork-worker/dork-worker-runtime.ts:412-603 | Handling the pending execute keeps the worker at, or one commit of that request ahead of, the revision that the adapter confirmed. |
| `ExecuteRecovery.ResolvableIff` | packages/game-engine/src/worker-engine-adapter.ts:332-397 | In every run, an uncertain execute can be resolved by some continuation if and only if its id is bounded and its turn does not break the interpreter (nor did an earlier one, without leaving it a receipt); if so, one that loses nothing does it. Over a transport that gives up only executes, whose signal can ask for it, one condition more is exact: no inspection still awaited was lost. |
| `ExecuteRecovery.AnswerableIff` | spikes/dork-worker/dork-worker-runtime.ts:412-603 | Of all executes that the adapter submits, a booted worker answers with an error exactly those with an unbounded id (unchanged, as invalid) and those that reach the interpreter and break it. |
| `ExecuteRecovery.DoubtForever` | packages/game-engine/src/worker-engine-adapter.ts:675-698 | An execute without an answer, once submitted, is in doubt for good: no continuation of any run makes the adapter ready again. |
| `JointRuns.FacadeLocked` | spikes/dork-worker/dork-worker-engine.ts:309-341 | In every run of the facade joined to the protocols of its workers, through first boots, restores and replacements: after an execute without an answer was submitted, whatever follows, until dispose the worker is the same and the facade takes no other execute, no snapshot, no restore and no boot. |
| `JointRuns.FreeableIff` | spikes/dork-worker/dork-worker-engine.ts:309-341 | In every such run, a facade that is uncertain of an execute can come out of it with the same worker if and only if the execute's id is bounded and its turn does not break the interpreter. |
| `JointRuns.FacadeAgreesWithWorker` | spikes/dork-worker/dork-worker-engine.ts:309-463 | In every such run, a facade with no operation and no doubt shows the whole public state of its worker: revision, last output and boundary. |
| `JointRuns.NextLinked` | spikes/dork-worker/dork-worker-engine.ts:230-525 | Every event of facade, channels and workers keeps each adapter in step with its protocol, for the active worker and for a restore's candidate. |
| `ExecuteRecovery.AskedInVain` | packages/game-engine/src/worker-engine-adapter.ts:369-397 | From any idle state, one undisturbed exchange of a request without an answer leaves the adapter uncertain with no continuation that resolves it. |
| `ExecuteRecovery.CrashedForGood` | spikes/dork-worker/dork-worker-runtime.ts:534-602 | Witness: from the start, boot and one command with a good id whose turn crashes leave the adapter uncertain for good. |
| `ExecuteRecovery.AcceptedButRefused` | packages/game-engine/src/worker-engine-adapter.ts:332-344 | Witness: an id holding a control character is submitted by the adapter, and every booted runtime answers it with an error and stays as it was. |
| `RuntimeSafety.HandleKeeps` | spikes/dork-worker/dork-worker-runtime.ts:265-346 | Every request, valid or not, keeps the runtime invariant: measured byte count, caps, valid receipts, and a journal coherent with the session. |
| `RuntimeSafety.CommitRecords` | spikes/dork-worker/dork-worker-runtime.ts:534-602 | Once the worst case is reserved, a turn that commits or meets the story limit always gets exactly the receipt of its answer; a broken turn leaves journal and public state alone; the capacity error cannot happen after the interpreter ran. |
| `RuntimeSafety.WorstCaseCovers` | spikes/dork-worker/dork-worker-runtime.ts:805-828 | The receipt of any turn of the request, with any output a turn can have, is no larger than the receipt that the preflight reserves. |
| `RuntimeSafety.WorstCaseValid` | spikes/dork-worker/dork-worker-runtime.ts:805-828 | The worst-case receipt of an admissible request is itself a valid receipt, so it can be measured. |
| `RuntimeSafety.CoherentCommit` | spikes/dork-worker/worker-snapshot-envelope.ts:509-572 | Recording a commit of the next revision on a coherent journal leaves it coherent with the next public state. |
| `RuntimeSafety.CoherentRejection` | spikes/dork-worker/worker-snapshot-envelope.ts:509-572 | Recording a rejection of the current public state leaves a coherent journal coherent. |
| `RuntimeSafety.RevisionBounded` | spikes/dork-worker/dork-worker-runtime.ts:531-533 | The revision of a reachable runtime is at most its number of receipts, hence at most 32; the guard against exhausted revisions never fires. |
| `RuntimeSafety.RestoreKeeps` | spikes/dork-worker/dork-worker-runtime.ts:647-760 | A restore, accepted or not, keeps the runtime invariant. |
| `RuntimeReplay.AtMostOnce` | spikes/dork-worker/dork-worker-runtime.ts:436-461 | On one branch, whatever requests arrive, the interpreter runs at most once for an id and never for an id already in the journal. |
| `RuntimeReplay.RunStep` | spikes/dork-worker/dork-worker-runtime.ts:539-602 | A message that runs the interpreter carries an id new to the journal, and either journals exactly the commit of its request or breaks the session. |
| `RuntimeReplay.QuietStep` | spikes/dork-worker/dork-worker-runtime.ts:412-532 | A message that does not run the interpreter leaves the session alone and journals at most one rejection. |
| `RuntimeReplay.NoRunOnceBroken` | spikes/dork-worker/dork-worker-runtime.ts:539-602 | Once a turn broke the interpreter, no request runs it again, so an unjournaled run is never repeated. |
| `RuntimeReplay.JournalIsHistory` | spikes/dork-worker/dork-worker-runtime.ts:539-602 | From boot, replaying the journal's commits from the booted session reproduces every journaled result and the session itself. |
| `RuntimeReplay.ServeExplained` | spikes/dork-worker/dork-worker-runtime.ts:265-346 | The same from any state: the session stays what the receipts recorded since make of the base session. |
| `RuntimeReplay.RetryReplays` | spikes/dork-worker/dork-worker-runtime.ts:436-461 | After any further requests other than restores, the exact request of a receipt is answered with the journaled result and changes nothing. |
| `RuntimeReplay.RetryIsIdempotent` | spikes/dork-worker/dork-worker-runtime.ts:412-603 | Handling any request twice in a row gives the same answer twice and changes nothing the second time, whatever the first did: commit, rejection with or without a receipt, or a broken turn. |
| `RuntimeReplay.ReceiptsGrow` | spikes/dork-worker/dork-worker-runtime.ts:788-796 | Without restores the journal only grows at its end. |
| `RuntimeRestore.SnapshotSucceeds` | spikes/dork-worker/dork-worker-runtime.ts:605-645 | A snapshot succeeds exactly if the session can be checkpointed; the envelope is then valid, its bytes are its encoding, and they decode to exactly the runtime's state and journal. |
| `RuntimeRestore.ReachableSnapshotSucceeds` | spikes/dork-worker/dork-worker-runtime.ts:605-645 | In every state that requests lead to, the journal never makes a snapshot fail. |
| `RuntimeRestore.HandleSame` | spikes/dork-worker/dork-worker-runtime.ts:265-346 | Runtimes with alike sessions and equal journals answer each request alike and stay so. |
| `RuntimeRestore.RestoreOwnSnapshot` | spikes/dork-worker/dork-worker-runtime.ts:647-760 | Every booted runtime of the same story and limits accepts a runtime's own snapshot and becomes the same runtime. |
| `RuntimeRestore.SnapshotThenRestore` | spikes/dork-worker/dork-worker-runtime.ts:605-760 | A runtime that restored the snapshot answers every later sequence of requests, retries included, as the one that made it. |
| `RuntimeRestore.RestoreAllOrNothing` | spikes/dork-worker/dork-worker-runtime.ts:647-760 | A restore succeeds exactly if the snapshot has the right shape and compatibility and its bytes stage; otherwise session, receipts and byte count are untouched. |
| `WorkerRuntime.DorkWorkerRuntime.Begin` | spikes/dork-worker/dork-worker-runtime.ts:265-286 | One request at a time: a second one is refused at once and leaves the first in hand. |
| `WorkerRuntime.DorkWorkerRuntime.Complete` | spikes/dork-worker/dork-worker-runtime.ts:265-346 | Finishing the request in hand answers as the runtime step does, reaches its state, and keeps the invariant. |
| `WorkerRuntime.DorkWorkerRuntime.Boot` | spikes/dork-worker/dork-worker-runtime.ts:359-410 | A second boot, a malformed or other story, or a boot that breaks is answered with its error and leaves the runtime as it was; otherwise the booted session answers as the boot step, whose output and boundary are those of `RuntimeTells.BootAnswers`. |
| `WorkerRuntime.DorkWorkerRuntime.Execute` | spikes/dork-worker/dork-worker-runtime.ts:412-603 | Receipt replay, duplicate, terminated, stale, capacity and commit branches, in the source's order, reach exactly the state and answer of the execute step. |
| `WorkerRuntime.DorkWorkerRuntime.CommitCommand` | spikes/dork-worker/dork-worker-runtime.ts:534-602 | With the worst case reserved, the session's turn, story limit or breakage is turned into state, receipt and answer as the commit step says. |
| `WorkerRuntime.DorkWorkerRuntime.Snapshot` | spikes/dork-worker/dork-worker-runtime.ts:605-645 | A snapshot leaves the runtime as it was and answers as the snapshot step. |
| `WorkerRuntime.DorkWorkerRuntime.Stage` | spikes/dork-worker/dork-worker-runtime.ts:676-736 | Staging builds a session off to the side and succeeds exactly if the snapshot's bytes, digest, revisions, boundary and journal limits all agree. |
| `WorkerRuntime.DorkWorkerRuntime.Restore` | spikes/dork-worker/dork-worker-runtime.ts:647-760 | The staged session takes over only when every check passed. |
| `WorkerRuntime.DorkWorkerRuntime.Inspect` | spikes/dork-worker/dork-worker-runtime.ts:762-777 | Inspection reports the public state and changes nothing. |
| `WorkerRuntime.DorkWorkerRuntime.RecordReceipt` | spikes/dork-worker/dork-worker-runtime.ts:788-796 | A receipt is appended and counted, or refused at a cap with nothing changed. |
| `WorkerRuntime.DorkWorkerRuntime.CanRecordReceipt` | spikes/dork-worker/dork-worker-runtime.ts:797-803 | The preflight is the same two caps that recording checks. |
| `WorkerRuntime.DorkWorkerRuntime.ValidateRestored` | spikes/dork-worker/dork-worker-runtime.ts:830-851 | The restored journal is accepted exactly within both caps, with the sum of its receipts as its byte count. |
| `Session.ExecuteRevision` | spikes/dork-worker/dork-candidate-session.ts:442-463 | A turn advances the revision by one with its output and boundary; anything else leaves the public state alone. |
| `Session.ExecuteSame` | spikes/dork-worker/dork-candidate-session.ts:442-463 | Alike sessions give alike turns and stay alike. |
| `Session.TurnFits` | spikes/dork-worker/dork-candidate-session.ts:165-189 | No turn's output is longer than the output cap. |
| `Session.RestoreSnapshot` | spikes/dork-worker/dork-candidate-session.ts:372-418 | Restoring a session's own checkpoint gives a session that is alike. |
| `Session.DorkCandidateIo.Print` | spikes/dork-worker/dork-candidate-session.ts:165-189 | Output is taken up to the byte cap; beyond it the turn fails. |
| `Session.DorkCandidateIo.Submit` | spikes/dork-worker/dork-candidate-session.ts:221-246 | A command is taken exactly at a waiting read and within its length. |
| `Session.DorkCandidateSession.Boot` | spikes/dork-worker/dork-candidate-session.ts:420-440 | Boot drives the queue of prints and reads to the first turn, or breaks, as the boot step says. |
| `Session.DorkCandidateSession.Execute` | spikes/dork-worker/dork-candidate-session.ts:442-463 | The queues of turns and waiters, driven by a command, end in the state and result of the execute step. |
| `Session.DorkCandidateSession.Snapshot` | spikes/dork-worker/dork-candidate-session.ts:465-484 | A checkpoint is given exactly at an input boundary and changes nothing. |
| `Session.DorkCandidateSession.InspectPublicState` | spikes/dork-worker/dork-candidate-session.ts:528-535 | The reported public state is the session's. |
| `Session.RestoreFromSnapshot` | spikes/dork-worker/dork-candidate-session.ts:372-418 | A fresh session is built exactly if the checkpoint loads and comes back silently to its input. |
| `Adapter.FinishCoherent` | packages/game-engine/src/worker-engine-adapter.ts:234-600 | Every operation of the adapter ends in a coherent state. |
| `Adapter.BeginCoherent` | packages/game-engine/src/worker-engine-adapter.ts:592-608 | Every operation the adapter begins leaves it coherent. |
| `WorkerAdapter.WorkerEngineAdapter.AssertExecuteAllowed` | packages/game-engine/src/worker-engine-adapter.ts:675-698 | While an execute is uncertain only the equal request passes, as the resolving retry; a quarantined restore lets none pass; otherwise all pass as new. |
| `WorkerAdapter.WorkerEngineAdapter.BeginBoot` | packages/game-engine/src/worker-engine-adapter.ts:267-287 | Throws and changes nothing if boot is quarantined, done or malformed or an operation is under way; otherwise only marks the boot as under way. |
| `WorkerAdapter.WorkerEngineAdapter.FinishBoot` | packages/game-engine/src/worker-engine-adapter.ts:287-330 | A matching answer at revision zero confirms the state and makes the adapter ready; every other outcome quarantines boot. |
| `WorkerAdapter.WorkerEngineAdapter.BeginExecute` | packages/game-engine/src/worker-engine-adapter.ts:332-368 | Throws and changes nothing for an empty id, an unsafe revision, a noncanonical command, a doubt about another request, a terminated game or an operation under way; otherwise only marks the execute as under way. |
| `WorkerAdapter.WorkerEngineAdapter.FinishExecute` | packages/game-engine/src/worker-engine-adapter.ts:368-397 | A result that passes validation confirms the new revision and boundary and ends any doubt; every other outcome leaves the request uncertain. |
| `WorkerAdapter.WorkerEngineAdapter.FinishSnapshot` | packages/game-engine/src/worker-engine-adapter.ts:399-440 | The snapshot is delivered exactly if shape, digest, revision and compatibility agree; either way only the operation ends. |
| `WorkerAdapter.WorkerEngineAdapter.BeginRestore` | packages/game-engine/src/worker-engine-adapter.ts:442-484 | Throws, or answers a mismatch of compatibility or digest without asking the worker, or submits; only the last changes the adapter. |
| `WorkerAdapter.WorkerEngineAdapter.FinishRestore` | packages/game-engine/src/worker-engine-adapter.ts:484-539 | A restored answer at the snapshot's revision without output is confirmed, an honest rejection changes nothing, and everything else quarantines restore. |
| `WorkerAdapter.WorkerEngineAdapter.FinishInspect` | packages/game-engine/src/worker-engine-adapter.ts:541-590 | While ready, an answer that differs from the confirmed state throws; while an execute is uncertain, an answer at most one revision ahead is taken over. |
| `Lease.SettledOnce` | spikes/dork-worker/browser-worker-transport.ts:154-295 | Over any run of sends, replies, aborts, failures and terminations, the pending map is exactly the unsettled exchanges and no settlement ever changes. |
| `Lease.ResolvedByOwnReply` | spikes/dork-worker/browser-worker-transport.ts:219-258 | An exchange only resolves by a reply of its own id and of the kind it expects. |
| `Lease.AwaitedToTheEnd` | spikes/dork-worker/browser-worker-transport.ts:163-289 | Over any run, an exchange without signal or time limit stays pending while no reply of its own id comes and the lease lives. |
| `Lease.DeadForGood` | spikes/dork-worker/browser-worker-transport.ts:260-289 | After a failure or termination nothing is pending, everything is settled, and no later event changes it. |
| `Lease.StepKeeps` | spikes/dork-worker/browser-worker-transport.ts:163-295 | Each event keeps the pending map exact and every earlier settlement as it was. |
| `Lease.BrowserDorkWorkerLease.Send` | spikes/dork-worker/browser-worker-transport.ts:163-217 | Posting adds the exchange to the pending map, or throws, or settles it at once. |
| `Lease.BrowserDorkWorkerLease.Receive` | spikes/dork-worker/browser-worker-transport.ts:219-247 | A reply takes its exchange out of the map and settles it by its kind. |
| `Lease.BrowserDorkWorkerLease.RejectPending` | spikes/dork-worker/browser-worker-transport.ts:291-295 | The loop over the pending map rejects all of it. |
| `Lease.BrowserDorkWorkerLease.Terminate` | spikes/dork-worker/browser-worker-transport.ts:154-161 | Termination rejects what is pending and refuses all that follows. |
| `EngineSafety.NoLeaseLeaks` | spikes/dork-worker/dork-worker-engine.ts:268-472 | In every run with aborts, failures and disposes, whenever no operation is under way the live leases are just the active worker's, and none after dispose. |
| `EngineSafety.DoubtMatchesAdapter` | spikes/dork-worker/dork-worker-engine.ts:309-341 | In every run the facade's uncertain execute is set exactly when its active adapter is in doubt, and is the same request. |
| `EngineSafety.RestoreIsAtomic` | spikes/dork-worker/dork-worker-engine.ts:353-452 | Each step of a restore leaves the active worker, drops it by a dispose, or replaces it whole by the last check; then only the new lease is live. |
| `EngineSafety.FailedRestoreLeavesNothing` | spikes/dork-worker/dork-worker-engine.ts:353-452 | A restore that ends without a replacement leaves the facade as before and the candidate's lease terminated. |
| `EngineSafety.PlayKeeps` | spikes/dork-worker/dork-worker-engine.ts:230-525 | Every event keeps the facade invariant. |
| `WorkerEngine.DorkWorkerEngine.ExecuteDone` | spikes/dork-worker/dork-worker-engine.ts:309-341 | While the worker is active, the caller gets a result exactly if the reply is one that answers the request, and it is that very reply; a commit that is not older is then the public state and the doubt is cleared. Otherwise the request is the uncertain one. |
| `WorkerEngine.DorkWorkerEngine.FirstBootDone` | spikes/dork-worker/dork-worker-engine.ts:280-305 | The caller of boot gets an answer exactly if it is a boot of the bound engine that no dispose overtook; the facade then shows the very state that it told. |
| `WorkerEngine.DorkWorkerEngine.SnapshotDone` | spikes/dork-worker/dork-worker-engine.ts:343-351 | The caller gets the very snapshot that came, exactly if it is whole and of the confirmed revision and engine. |
| `WorkerEngine.DorkWorkerEngine.InspectDone` | spikes/dork-worker/dork-worker-engine.ts:454-464 | The caller gets the very state that came, exactly if the adapter takes it, and the facade shows it from then on. |
| `WorkerEngine.DorkWorkerEngine.Digested` | spikes/dork-worker/dork-worker-engine.ts:378-385 | Bytes without their digest are answered as corrupt, with the state of the worker that stays, and end the restore. |
| `WorkerEngine.DorkWorkerEngine.BeginRestore` | spikes/dork-worker/dork-worker-engine.ts:353-377 | Throws without change when not booted, in doubt, disposed or busy; rejects an incompatible snapshot without a worker; otherwise the restore is under way. |
| `WorkerEngine.DorkWorkerEngine.CandidateCreated` | spikes/dork-worker/dork-worker-engine.ts:386-396 | A new lease becomes the candidate of the restore and starts its boot, or the restore ends; an aborted or late lease is terminated. |
| `WorkerEngine.DorkWorkerEngine.CandidateRestoreDone` | spikes/dork-worker/dork-worker-engine.ts:398-411 | A candidate restored without output goes on to its inspection; a rejection is passed on with the state of the worker that stays; it, a failure or an abort terminates the candidate's lease and ends the restore. |
| `WorkerEngine.DorkWorkerEngine.CandidateInspectDone` | spikes/dork-worker/dork-worker-engine.ts:408-451 | The active worker is replaced exactly if the candidate's state matches and neither abort nor dispose came between, and the answer then tells that state; otherwise the candidate's lease is terminated. |
| `WorkerEngine.DorkWorkerEngine.Dispose` | spikes/dork-worker/dork-worker-engine.ts:466-472 | The first dispose terminates the active lease, drops the worker and outdates every operation under way; later ones change nothing. |
| `SnapshotFormat.Canonical` | spikes/dork-worker/worker-snapshot-envelope.ts:1041-1191 | A byte string decodes to an envelope exactly if the envelope is valid and the bytes are its encoding. |
| `SnapshotFormat.ParseSound` | spikes/dork-worker/worker-snapshot-envelope.ts:1041-1191 | Accepted bytes are the encoding of the valid envelope they decode to; reserved bytes, markers, lengths and trailing bytes included. |
| `SnapshotFormat.EnvelopeInverse` | spikes/dork-worker/worker-snapshot-envelope.ts:751-796 | Decoding an encoded valid envelope gives it back. |
| `SnapshotFormat.RecordInverse` | spikes/dork-worker/worker-snapshot-envelope.ts:950-1039 | One receipt record round-trips through its nested reader. |
| `SnapshotFormat.RecordSound` | spikes/dork-worker/worker-snapshot-envelope.ts:950-1039 | An accepted receipt record is the encoding of the valid receipt it decodes to. |
| `SnapshotFormat.JournalInverse` | spikes/dork-worker/worker-snapshot-envelope.ts:1137-1177 | The journal round-trips, with nothing behind its last record. |
| `SnapshotFormat.JournalSound` | spikes/dork-worker/worker-snapshot-envelope.ts:1137-1177 | An accepted journal is the encoding of its receipts. |
| `SnapshotFormat.MarkersInverse` | spikes/dork-worker/worker-snapshot-envelope.ts:912-948 | Boundary, status and rejection markers round-trip. |
| `SnapshotFormat.WireLength` | spikes/dork-worker/worker-snapshot-envelope.ts:632-651 | The precomputed total is the number of bytes written and is below the total limit. |
| `SnapshotFormat.CapsCompose` | spikes/dork-worker/worker-snapshot-envelope.ts:643-651 | The per-field limits keep every envelope under 4 MiB, so the total guard never fires. |
| `SnapshotCodec.PrepareReceipt` | spikes/dork-worker/worker-snapshot-envelope.ts:418-507 | A receipt is prepared exactly if it is valid, with the encoded texts and the record's exact size. |
| `SnapshotCodec.PrepareCommand` | spikes/dork-worker/worker-snapshot-envelope.ts:247-277 | A command is prepared exactly if it is canonical. |
| `SnapshotCodec.CollectCommitted` | spikes/dork-worker/worker-snapshot-envelope.ts:509-560 | The first loop of journal validation gives the set of committed revisions exactly of a consistent journal. |
| `SnapshotCodec.Covers` | spikes/dork-worker/worker-snapshot-envelope.ts:560-572 | The coverage loop accepts exactly full coverage and stops within one more step than there are committed revisions. |
| `SnapshotCodec.ValidateReceipts` | spikes/dork-worker/worker-snapshot-envelope.ts:509-572 | Journal validation accepts exactly the coherent journals, within one probe more than there are receipts. |
| `SnapshotCodec.PrepareEnvelope` | spikes/dork-worker/worker-snapshot-envelope.ts:574-670 | An envelope is prepared exactly if it is valid. |
| `SnapshotCodec.Encode` | spikes/dork-worker/worker-snapshot-envelope.ts:751-796 | The writer encodes exactly the valid envelopes, fills the presized buffer to its last byte, and puts every field at its offset. |
| `SnapshotCodec.DecodeReceipt` | spikes/dork-worker/worker-snapshot-envelope.ts:950-1039 | The record reader accepts exactly the records of valid receipts. |
| `SnapshotCodec.DecodeJournal` | spikes/dork-worker/worker-snapshot-envelope.ts:1137-1177 | The journal loop reads exactly the records that the format has. |
| `SnapshotCodec.Decode` | spikes/dork-worker/worker-snapshot-envelope.ts:1041-1191 | The decoder accepts exactly the encodings of valid envelopes and returns the one encoded. |
| `Journal.Pigeonhole` | spikes/dork-worker/worker-snapshot-envelope.ts:509-572 | A coherent journal of valid receipts has exactly the committed revisions 1 to the current one, so the revision is at most the number of receipts. |
| `Journal.CommittedAtMostReceipts` | spikes/dork-worker/worker-snapshot-envelope.ts:509-572 | There are no more committed revisions than receipts. |
| `Journal.ReceiptBytesBounded` | spikes/dork-worker/worker-snapshot-envelope.ts:455-491 | The field limits alone keep one receipt under the journal limit. |
| `CheckpointParse.Canonical` | spikes/dork-worker/checkpoint-envelope.ts:891-1416 | A byte string decodes to a checkpoint exactly if the checkpoint is valid and the bytes are its encoding. |
| `CheckpointParse.ParseSound` | spikes/dork-worker/checkpoint-envelope.ts:891-1385 | Accepted bytes are the encoding of the valid checkpoint they decode to. |
| `CheckpointParse.EnvelopeInverse` | spikes/dork-worker/checkpoint-envelope.ts:660-738 | Decoding an encoded valid checkpoint gives it back. |
| `CheckpointParse.TotalIsLength` | spikes/dork-worker/checkpoint-envelope.ts:566-599 | The presized total is the number of bytes of the parts. |
| `CheckpointParse.PendingInverse` | spikes/dork-worker/checkpoint-envelope.ts:1230-1325 | The pending-read block, with its buffer addresses and ranges, round-trips. |
| `CheckpointParse.PendingSound` | spikes/dork-worker/checkpoint-envelope.ts:1230-1325 | An accepted pending-read block is the encoding of the block it decodes to. |
| `CheckpointStacks.FramesInverse` | spikes/dork-worker/checkpoint-envelope.ts:1086-1159 | The call frames round-trip, with the aggregate limit on stack words. |
| `CheckpointStacks.FramesSound` | spikes/dork-worker/checkpoint-envelope.ts:1086-1159 | Accepted call frames are the encoding of the frames they decode to. |
| `CheckpointStacks.StreamListInverse` | spikes/dork-worker/checkpoint-envelope.ts:1181-1207 | The output-stream table stack round-trips. |
| `CheckpointStacks.MemoryInverse` | spikes/dork-worker/checkpoint-envelope.ts:1052-1070 | Dynamic memory round-trips. |
| `CheckpointWire.StoryInverse` | spikes/dork-worker/checkpoint-envelope.ts:969-1016 | The story block round-trips. |
| `CheckpointWire.ConfigInverse` | spikes/dork-worker/checkpoint-envelope.ts:1018-1050 | The configuration block round-trips. |
| `CheckpointWire.IdentitiesInverse` | spikes/dork-worker/checkpoint-envelope.ts:916-949 | The runtime, adapter and story identities round-trip. |
| `CheckpointWire.DorkIdentities` | spikes/dork-worker/checkpoint-envelope.ts:3-8 | The program's own runtime and adapter identities fit their length bytes. |
| `CheckpointFormat.CapsCompose` | spikes/dork-worker/checkpoint-envelope.ts:566-599 | The per-field limits keep every checkpoint under 1 MiB, so the total guard never fires. |
| `CheckpointFormat.FramesBytesByWords` | spikes/dork-worker/checkpoint-envelope.ts:378-429 | The bytes of the call stack are determined by its number of frames and stack words. |
| `CheckpointFormat.BytesToHexInjective` | spikes/dork-worker/checkpoint-envelope.ts:221-236 | Different digests have different hexadecimal texts. |
| `CheckpointFormat.HexToBytes` | spikes/dork-worker/checkpoint-envelope.ts:221-230 | Reading hexadecimal and writing it again gives back the text. |
| `CheckpointCodec.CheckMachine` | spikes/dork-worker/checkpoint-envelope.ts:295-560 | The validation loops accept exactly the valid machine states. |
| `CheckpointCodec.CheckFrames` | spikes/dork-worker/checkpoint-envelope.ts:378-429 | The frame loop accepts exactly valid frames whose words stay within the aggregate limit. |
| `CheckpointCodec.CheckStreams` | spikes/dork-worker/checkpoint-envelope.ts:449-468 | The stream loop accepts exactly valid stream tables. |
| `CheckpointCodec.SizeFrames` | spikes/dork-worker/checkpoint-envelope.ts:566-599 | The guarded running sum is the exact size, or nothing. |
| `CheckpointCodec.PrepareEnvelope` | spikes/dork-worker/checkpoint-envelope.ts:260-599 | An envelope is prepared exactly if it is valid, with its exact size. |
| `CheckpointCodec.Encode` | spikes/dork-worker/checkpoint-envelope.ts:660-738 | The writer encodes exactly the valid checkpoints, fills the presized buffer, and puts every field at its offset. |
| `CheckpointDecode.ParsePass` | spikes/dork-worker/checkpoint-envelope.ts:891-1385 | The validating pass and the materializing pass accept the same inputs. |
| `CheckpointDecode.Decode` | spikes/dork-worker/checkpoint-envelope.ts:1387-1416 | The two-pass decoder accepts exactly the encodings of valid checkpoints and returns the one encoded. |
| `CheckpointStory.SaveLoads` | spikes/dork-worker/dork-candidate-session.ts:372-418 | What is saved is loaded again whole, and the checkpoint fits the worker snapshot. |
| `CheckpointStory.CodecIsFaithful` | spikes/dork-worker/dork-candidate-session.ts:465-484 | With the checkpoint codec, an interpreter whose captured state decides its behaviour meets everything the runtime relies on. |
| `Bytes.U64Inverse` | spikes/dork-worker/worker-snapshot-envelope.ts:736-741 | A 64-bit number split over 2^32 and joined again is itself, up to 2^53 - 1. |
| `Bytes.GetU64` | spikes/dork-worker/worker-snapshot-envelope.ts:859-867 | A joined 64-bit number is accepted exactly below 2^53, and only from its own encoding. |
| `Utf8.DecodeEncode` | spikes/dork-worker/worker-snapshot-envelope.ts:230-236 | Fatal UTF-8 decoding inverts encoding. |
| `Utf8.Decode` | spikes/dork-worker/worker-snapshot-envelope.ts:230-236 | What the fatal decoder accepts is the encoding of its result. |
| `Utf8.GetScalar` | spikes/dork-worker/checkpoint-envelope.ts:213-219 | One scalar value is accepted only in its shortest form, and never as a surrogate. |
| `Utf8.EncodeInjective` | spikes/dork-worker/worker-snapshot-envelope.ts:203-228 | Different texts have different bytes. |
| `Utf8.Utf16NeverLonger` | spikes/dork-worker/worker-snapshot-envelope.ts:203-228 | Refusing a text early by its UTF-16 length refuses none whose bytes would fit. |
| `Binary.BinaryWriter.Bytes` | spikes/dork-worker/worker-snapshot-envelope.ts:716-719 | Writing appends to what was written. |
| `Binary.BinaryWriter.Finish` | spikes/dork-worker/worker-snapshot-envelope.ts:743-749 | Finishing succeeds exactly if the buffer is full, and returns what was written. |
| `Binary.BinaryReader.Bytes` | spikes/dork-worker/worker-snapshot-envelope.ts:816-836 | Reading takes the next bytes, or fails at the end and takes none. |
| `Binary.BinaryReader.SafeU64` | spikes/dork-worker/worker-snapshot-envelope.ts:859-867 | The safe 64-bit reader is its parser. |
| `CanonicalCommand.CanonicalizeIdempotent` | packages/contracts/src/canonical-command.ts:32-70 | Canonicalizing a canonical command changes nothing. |
| `CanonicalCommand.CanonicalShape` | packages/contracts/src/canonical-command.ts:32-70 | A text is canonical exactly if it is nonempty, at most 160 units, trimmed, single-spaced, and without control characters and separators. |
| `CanonicalCommand.CanonicalBytes` | spikes/dork-worker/worker-snapshot-envelope.ts:247-277 | A canonical command always fits the bytes its record has for it. |
| `CoordinatorLedger.OneRequestEach` | packages/session/src/semantic-turn-coordinator.ts:1122-1462 | In every run, whatever the generators hand out, an interaction is allocated at most one engine request, and every request sent, at first or on recovery, is the one allocated. |
| `Exclusion.OneAtATime` | packages/session/src/semantic-turn-coordinator.ts:602-939 | With active id, pending states and running bodies kept apart, and other calls coming in between a body's end and the settling of what it left pending: at most one turn, recovery, opening or introduction runs, under the active id, and no turn runs while an opening is pending. |
| `Exclusion.CoordinatorSimulated` | packages/session/src/semantic-turn-coordinator.ts:602-939 | Every run of the coordinator, whose state has room for one activity, is a run of those guards. |
| `Exclusion.IntroductionInTheGap` | packages/session/src/semantic-turn-coordinator.ts:733-772 | Witness: an introduction, which does not test the opening, can run while an opening that has ended is still pending. |
| `CoordinatorLedger.CommitsAreAccounted` | packages/session/src/semantic-turn-coordinator.ts:1518-1650 | In every run, the log holds for each interaction as many commits as its outcome tells of, plus one for each time that a bad narration id was brought after a commit; without such an id the events of a committed turn hold exactly one commit with its output, and those of any other turn none. |
| `CoordinatorLedger.AccountedIffUnspoilt` | packages/session/src/semantic-turn-coordinator.ts:1421-1516 | In every run, log and journal agree on every interaction if and only if no checkpoint of a committed turn, new or recovered, was followed by a bad narration id where one is asked for (cancelled, or output not blank). |
| `CoordinatorLedger.CommittedButUncertain` | packages/session/src/semantic-turn-coordinator.ts:1421-1516 | After a commit, a turn, new or recovered, ends as uncertain exactly if an id is asked for and it is bad. |
| `CommittedTwice.CommitsTwice` | packages/session/src/semantic-turn-coordinator.ts:1421-1516 | Witness: a run from the start after which a committed turn is uncertain, and its continuation after which the turn is complete and committed with two commits among its events. |
| `CoordinatorLedger.CompletedReplays` | packages/session/src/semantic-turn-coordinator.ts:602-655 | Once a turn is complete in a run, every continuation keeps it with the same result, and submitting it again at any later point, with the same input or other, changes nothing and emits nothing. |
| `CoordinatorLedger.NextLedger` | packages/session/src/semantic-turn-coordinator.ts:602-1516 | Each step keeps the ledger of turns, requests and events. |
| `CoordinatorEvents.EventsAreCausal` | packages/session/src/semantic-turn-coordinator.ts:1122-1462 | In every run the sequence numbers are contiguous from 1, every event names an earlier event of its own interaction as its cause or is of a kind that begins something, and the projection's ordering check never fires. |
| `CoordinatorLedger.RootsAreKnown` | packages/session/src/semantic-turn-coordinator.ts:1122-1462 | In every run, of the events of a turn only its transcript lacks a cause (a recorded failure is one event alone), of those of an opening only its output, of those of an introduction only the messages. |
| `CoordinatorEvents.LogIsAllocated` | packages/session/src/semantic-turn-coordinator.ts:1773-1818 | In every run with nonempty event ids, the log is exactly what the sequence allocator gives for its events, one append after another. |
| `CoordinatorEvents.NextSound` | packages/session/src/semantic-turn-coordinator.ts:1773-1818 | Each step keeps the causal order. |
| `TurnCoordinator.SemanticTurnCoordinator.SubmitTurn` | packages/session/src/semantic-turn-coordinator.ts:602-655 | A completed turn answers with its result whatever goes on; other input, a busy or full coordinator each throw their error; an uncertain turn sends its recorded request again, or answers with what it has when aborted; a new turn is entered as pending with its transcript event. |
| `TurnCoordinator.SemanticTurnCoordinator.Recover` | packages/session/src/semantic-turn-coordinator.ts:1464-1516 | Recovery throws without change while another interaction is active or when aborted; otherwise it sends the recorded request again and allocates none. |
| `TurnCoordinator.SemanticTurnCoordinator.GuideAnswered` | packages/session/src/semantic-turn-coordinator.ts:1145-1345 | A rejected, clarifying, explaining or declining decision ends in its event and narration; an accepted command goes on to the inspection; a failure or abort ends the turn. |
| `TurnCoordinator.SemanticTurnCoordinator.EngineInspected` | packages/session/src/semantic-turn-coordinator.ts:1356-1422 | A good request id is allocated once, its request event emitted and the request sent; a failed inspection, an abort or a bad id ends the turn without a request. |
| `TurnCoordinator.SemanticTurnCoordinator.EngineAnswered` | packages/session/src/semantic-turn-coordinator.ts:1421-1458 | A result is finished, a refusal before submission cancels the turn, and every other error records it as uncertain with its request. |
| `TurnCoordinator.SemanticTurnCoordinator.FinishEngineResult` | packages/session/src/semantic-turn-coordinator.ts:1518-1576 | A rejection ends the turn with its event; a commit emits the committed event and, caused by it, the output event, and asks for the checkpoint. |
| `TurnCoordinator.SemanticTurnCoordinator.CheckpointDone` | packages/session/src/semantic-turn-coordinator.ts:1574-1649 | The save or its failure is recorded, then the output is narrated, or its narration cancelled after an abort. |
| `TurnCoordinator.SemanticTurnCoordinator.NarratorAnswered` | packages/session/src/semantic-turn-coordinator.ts:1652-1771 | Segments are requested one after another, each with its text, until one fails, is cancelled, or the last is ready; then the turn, opening or introduction ends. |
| `TurnCoordinator.SemanticTurnCoordinator.PrepareOpening` | packages/session/src/semantic-turn-coordinator.ts:657-729 | With the opening done, another activity under way, or another boot or text for an opening that may be retried, nothing changes; a retried opening narrates again; a new one asks the engine for its state. |
| `TurnCoordinator.SemanticTurnCoordinator.OpeningInspected` | packages/session/src/semantic-turn-coordinator.ts:826-894 | An opening whose engine state matches emits its output and narrates it; otherwise it ends without an event. |
| `TurnCoordinator.SemanticTurnCoordinator.PrepareRoleIntroduction` | packages/session/src/semantic-turn-coordinator.ts:731-773 | Introductions run once and only while nothing else is active; each emits its event and narrates it. |
| `TurnCoordinator.SemanticTurnCoordinator.RecordFailure` | packages/session/src/semantic-turn-coordinator.ts:775-824 | A failure is recorded as a finished turn of its own with one error event, beside whatever is under way. |
| `TurnCoordinator.SemanticTurnCoordinator.Emit` | packages/session/src/semantic-turn-coordinator.ts:1773-1818 | An event is appended to the log and to the activity, and its id returned. |
| `Narration.SegmentsConserve` | packages/session/src/semantic-turn-coordinator.ts:287-335 | Apart from white space and the characters . ! ?, the segments put together are the text. |
| `Narration.SegmentsAreSentences` | packages/session/src/semantic-turn-coordinator.ts:287-335 | Every segment is trimmed, single-spaced, holds other text and no sentence end inside, and segments into itself. |
| `Narration.SegmentNarrationLine` | packages/session/src/semantic-turn-coordinator.ts:291-322 | The index loop terminates and computes the segments of the line. |
| `EventLog.GapFree` | packages/events/src/event-sequence.ts:50-116 | Whatever appends fail, the events appended carry consecutive numbers. |
| `EventLog.EventSequence.Append` | packages/events/src/event-sequence.ts:50-116 | An append gives the next number and moves on, or fails and uses up none. |
| `Projection.ProjectWindow` | packages/experience/src/projection.ts:256-598 | On an ordered log the reducer never throws, and its transcript window is exactly the latest 128 lines, in order, each with the id, place, speaker and text of its event. |
| `Projection.AppendIsLatest` | packages/experience/src/projection.ts:150-157 | A bounded append drops just the oldest value. |
| `Projection.TranscriptStandsFor` | packages/experience/src/projection.ts:173-254 | Each event appends its line, or changes delivery marks only. |
| `Projection.AppendSource` | packages/experience/src/projection.ts:159-171 | The first and the latest references stay, within 256. |
| `Paging.PagesTile` | apps/web/src/optional-event-log-presentation.ts:182-236 | The pages read from the oldest are all lines of the log, once each, in order; each has at most 128 and ends where the next newer begins. |
| `Paging.NewestPage` | apps/web/src/optional-event-log-presentation.ts:224-229 | The latest projection shows the newest page, its speakers and texts. |
| `Paging.OlderPage` | apps/web/src/optional-event-log-presentation.ts:89-100 | Projecting what is in front of a page's first line shows the page before it, its speakers and texts. |
| `Paging.OlderPageStays` | apps/web/src/optional-event-log-presentation.ts:89-100 | An older page is unchanged as the log grows. |
| `PagedView.StuckIffOpenedEmpty` | apps/web/src/optional-event-log-presentation.ts:157-195 | In any run of the view from its opening on, once the log has more lines than a page holds: pressing for older pages, any number of times, leaves the newest page shown exactly if the log had no line at the opening; the button is then disabled and changes nothing. |
| `PagedView.ReopenedIsFree` | apps/web/src/optional-event-log-presentation.ts:157-195 | Closed and opened again, such a view shows the page in front of the newest on the first press. |
| `PagedView.FirstLineOutOfReach` | apps/web/src/optional-event-log-presentation.ts:157-195 | Witness: opened on an empty log that then gets one line more than a page, the view keeps the first line out of reach. |
| `PagedView.ShowsCurrent` | apps/web/src/optional-event-log-presentation.ts:89-229 | In every state that clicks lead to, what is shown is the page that the cutoffs stand for, and the older button is disabled exactly if it is the first page or no first line was found. |
| `PagedView.OptionalEventLogPresentation.ProjectionBefore` | apps/web/src/optional-event-log-presentation.ts:89-100 | The loop folds exactly the events in front of the cutoff. |
| `PagedView.OptionalEventLogPresentation.TranscriptProjection` | apps/web/src/optional-event-log-presentation.ts:224-229 | What is rendered is the page on top of the cutoff stack. |
| `PagedView.OptionalEventLogPresentation.Update` | apps/web/src/optional-event-log-presentation.ts:147-155 | A longer log re-renders the newest page and leaves an older one alone; whatever projection is passed in is what the newest page shows. |
| `PagedView.OptionalEventLogPresentation.SetTranscriptOpen` | apps/web/src/optional-event-log-presentation.ts:157-168 | Opening starts at the newest page and looks for the first line once. |
| `PagedView.OptionalEventLogPresentation.ShowOlder` | apps/web/src/optional-event-log-presentation.ts:182-195 | One page back, if there is one that can be reached. |
| `PagedView.OptionalEventLogPresentation.ShowNewer` | apps/web/src/optional-event-log-presentation.ts:197-201 | One page forward. |
| `SceneValidator.AcceptedIffIdentified` | packages/command-knowledge/src/opening-scene.ts:594-783 | For any scene the validator accepts, what the reducer makes of the next event is accepted exactly if the identities the event brings in are bounded. |
| `SceneValidator.AcceptedThroughout` | packages/command-knowledge/src/opening-scene.ts:594-783 | Over whole logs of the reviewed story: the validator accepts the scene at every point exactly if every event that is taken in brings bounded identities. |
| `SceneValidator.LongIdRefused` | packages/command-knowledge/src/opening-scene.ts:594-783 | Witness: an event with an id of 161 characters is one that the allocator takes, and the scene that the reducer makes of it is refused. |
| `SceneValidator.CreatedAcceptedIffReviewed` | packages/command-knowledge/src/opening-scene.ts:480-511 | A new scene is accepted exactly if it is of the reviewed story, id and artifact hash both. |
| `SceneValidator.FreezeAccepted` | packages/command-knowledge/src/opening-scene.ts:393-478 | Freezing what the reducer remembers gives a scene that the validator accepts, with recomputed affordances, distinct bounded sources and paired directions. |
| `SceneValidator.AdvanceHolds` | packages/command-knowledge/src/opening-scene.ts:800-1110 | Taking in an event keeps current relations over current objects, the paired directions, the revisions and the pending command in order. |
| `SceneHistory.SourceBacked` | packages/command-knowledge/src/opening-scene.ts:800-1110 | Every object and relation of a scene names the first and the last output of the log that showed it, each one of the reviewed texts word for word, with their revisions. |
| `SceneHistory.CurrentIffShownSince` | packages/command-knowledge/src/opening-scene.ts:848-881 | An object is current exactly if some output of the log showed it and no later one unsettled it. |
| `SceneHistory.ReplayChangesNothing` | packages/command-knowledge/src/opening-scene.ts:807-820 | An event of the log that arrives again, at any time, leaves the scene as it is. |
| `SceneAffordances.OffersAreCurrent` | packages/command-knowledge/src/opening-scene.ts:317-391 | In an accepted scene the offers are in priority order, the cut at twelve takes none away, each names a current object, and opening the mailbox is offered exactly while it is there and not known to be open. |
| `OpeningScene.ProjectOpeningScene` | packages/command-knowledge/src/opening-scene.ts:800-1110 | The reducer's upserts and deletions, one after another, give the projection that is specified by what the text shows and unsettles. |
| `OpeningScene.IsOpeningSceneProjection` | packages/command-knowledge/src/opening-scene.ts:594-783 | The validator's loops accept exactly the scenes that meet the declared conditions. |
| `OpeningScene.ForgetRelations` | packages/command-knowledge/src/opening-scene.ts:871-881 | The loop over the relations forgets exactly those about the moved object. |
| `AdapterTells.BootTaken` | packages/game-engine/src/worker-engine-adapter.ts:287-330 | Against any worker: a boot is taken exactly at revision zero, from the bound engine with every field of its compatibility; any other outcome closes the adapter. |
| `AdapterTells.ClosedForGood` | packages/game-engine/src/worker-engine-adapter.ts:267-287 | Against any worker, over any further calls and outcomes, an adapter whose boot was not taken stays as it is. |
| `AdapterTells.ExecuteGoesOut` | packages/game-engine/src/worker-engine-adapter.ts:332-368 | An execute is submitted exactly if it is well formed, nothing is under way, and it is the one in doubt or, without doubt, the story has not ended; everything else throws. |
| `AdapterTells.ExecuteTaken` | packages/game-engine/src/worker-engine-adapter.ts:368-397 | Against any worker: a result is taken exactly if it answers this request and is possible at the confirmed revision; the confirmed revision then goes on by one for the commit right after it and stays otherwise; any other outcome leaves the request in doubt. |
| `AdapterTells.SnapshotTaken` | packages/game-engine/src/worker-engine-adapter.ts:399-440 | Against any worker: a snapshot is taken exactly if its bytes have its digest and it is of the confirmed revision and engine. |
| `AdapterTells.RestoreGoesOut` | packages/game-engine/src/worker-engine-adapter.ts:442-484 | A restore is submitted exactly with a snapshot of this engine whose bytes have their digest; other engine or other bytes are answered as rejected without the worker. |
| `AdapterTells.RestoreTaken` | packages/game-engine/src/worker-engine-adapter.ts:484-539 | Against any worker: a restore is believed when silent and at the snapshot's revision, a rejection when it changes nothing that is confirmed; after anything else the worker is not known any more. |
| `AdapterTells.RestoreInDoubtForGood` | packages/game-engine/src/worker-engine-adapter.ts:662-698 | Against any worker, over any further calls and outcomes: after a restore of unknown outcome only inspections are submitted, and what is confirmed never changes. |
| `AdapterTells.InspectTakenInDoubt` | packages/game-engine/src/worker-engine-adapter.ts:541-590 | In doubt of an execute, an inspection is taken exactly at the confirmed or the next revision; the next one is then confirmed, and the doubt stays. |
| `AdapterTells.ConfirmedMovesOn` | packages/game-engine/src/worker-engine-adapter.ts:234-600 | Against any worker, each call and outcome keeps the confirmed engine and moves the confirmed revision by at most one, unless a restore ends at its snapshot's revision. |
| `RuntimeTells.BootAnswers` | spikes/dork-worker/dork-worker-runtime.ts:359-410 | Boot succeeds exactly for the configured story, once; its answer carries the texts that the story prints from its start, in order, and where it stops, and this is the public state afterwards. |
| `RuntimeTells.InspectedAfterBoot` | spikes/dork-worker/dork-worker-runtime.ts:389-405 | An inspection straight after boot reports what boot answered. |
| `RuntimeTells.CommitTells` | spikes/dork-worker/dork-worker-runtime.ts:534-602 | A commit answers its own request with the next revision, the texts that the machine printed on its command and where it stopped, and this is the public state afterwards. |
| `RuntimeTells.ExecuteAnswers` | spikes/dork-worker/dork-worker-runtime.ts:412-532 | A new, well-formed execute is turned down for the story's end, for another revision, or for want of room for 256 KiB of output, in this order; else it reaches the interpreter, where only a command too long for the story is turned down. A rejection is silent, journaled if there is room, and changes nothing else. |
| `RuntimeTells.KnownIsReplayed` | spikes/dork-worker/dork-worker-runtime.ts:436-461 | A journaled id is answered from the journal: its very request with its result, any other as a duplicate; nothing changes. |
| `RuntimeTells.SnapshotTells` | spikes/dork-worker/dork-worker-runtime.ts:605-645 | A snapshot carries, at the offsets of the format, the public state, the machine's checkpoint and the journal, under the digest of its bytes. |
| `RuntimeTells.RestoreTells` | spikes/dork-worker/dork-worker-runtime.ts:647-760 | An accepted restore takes over exactly what the snapshot's bytes hold, with a machine that its checkpoint relaunches silently; a refused one tells the state that stays, and whether it was of another engine. |
| `Session.TurnTells` | spikes/dork-worker/dork-candidate-session.ts:165-219 | A run of the machine is a turn exactly if it does not crash, prints at most 256 KiB and asks for a read of an allowed length; the turn carries all texts printed and where it stopped. |
| `EngineTells.CallsBegin` | spikes/dork-worker/dork-worker-engine.ts:309-351 | An idle, booted facade calls its worker: in doubt of an execute with that one or an inspection only, else with any canonical command before the story's end, a snapshot or an inspection; all else leaves it as it was. |
| `EngineTells.BootStage` | spikes/dork-worker/dork-worker-engine.ts:396-400 | A candidate's boot goes on to the restore exactly if it is of the bound engine at revision zero and the snapshot's bytes have their digest; the snapshot submitted is the one given. |
| `EngineTells.RestoreStage` | spikes/dork-worker/dork-worker-engine.ts:401-409 | Only a silent restore at the snapshot's revision goes on to the last check; everything else terminates the candidate and leaves the facade as it was. |
| `EngineTells.InspectStage` | spikes/dork-worker/dork-worker-engine.ts:410-452 | The candidate takes over exactly if it tells the revision and the boundary that it restored and nothing was aborted or disposed; it is then the only live lease, in the state that it told, at the snapshot's revision. |
| `EngineTells.FirstStages` | spikes/dork-worker/dork-worker-engine.ts:268-307 | The first worker becomes the active one exactly after a boot of the bound engine that nothing overtook, in the very state that its boot told; otherwise its lease is terminated. |
| `JointRuns.HandedIsJournaled` | spikes/dork-worker/dork-worker-engine.ts:309-341 | In every run of the facade joined to its workers, what it hands its caller for the exact request of a journaled receipt is that receipt's result. |
| `JointRuns.ExecuteEnding` | spikes/dork-worker/dork-worker-engine.ts:309-341 | In every such run, an execute ends with the very reply that its adapter takes, handed to the caller, or with the request in doubt. |
| `Lease.SentIff` | spikes/dork-worker/browser-worker-transport.ts:163-217 | A message goes out exactly on a live lease, under an id of 1 to 128 bytes that no unsettled exchange has, while its signal is not aborted. |
| `Lease.SettledExactlyBy` | spikes/dork-worker/browser-worker-transport.ts:219-295 | A pending exchange is settled exactly by a reply of its id, its own signal, or the end of the lease: resolved by the kind it expects, rejected for the reason of each other case. |
| `SnapshotMeaning.DecodesIff` | spikes/dork-worker/worker-snapshot-envelope.ts:1041-1191 | Bytes decode to an envelope exactly if the envelope is sound and every field of it, header, journal and texts, stands in them at its offset with its big-endian value; said without writer or parser. |
| `SnapshotMeaning.SoundIff` | spikes/dork-worker/worker-snapshot-envelope.ts:418-670 | What encoder and decoder ask of an envelope is exactly its soundness, spelled out: the limits in numbers, receipts that answer their own request, distinct ids, and each revision up to the current one made exactly once. |
| `SnapshotLayout.WireLaid` | spikes/dork-worker/worker-snapshot-envelope.ts:751-796 | The encoding of a valid envelope has every field at its offset, in bytes: magic, version 0 1, total, revision at 16, boundary byte at 24, sizes at 28 to 44, and each record's lengths, revisions and marker bytes. |
| `CheckpointMeaning.DecodesIff` | spikes/dork-worker/checkpoint-envelope.ts:891-1416 | Bytes decode to a checkpoint exactly if it is sound and every field of it stands in them at its offset with its value, with nothing between and nothing behind; said without writer or parser. |
| `CheckpointMeaning.SoundIff` | spikes/dork-worker/checkpoint-envelope.ts:260-599 | What encoder and decoder ask of a checkpoint is exactly its soundness, spelled out in numbers: story, limits, stacks, flags word in memory, streams, and the pending read with its buffers. |
| `CheckpointLayout.WireLaid` | spikes/dork-worker/checkpoint-envelope.ts:660-738 | The encoding of a valid checkpoint has every field at its offset, in bytes: magic, version 0 2, identities with their lengths, digest in pairs of digits, machine schema and story version, memory, stacks, registers, streams, counts and pending read. |
| `CheckpointStory.LoadsIff` | spikes/dork-worker/dork-candidate-session.ts:372-418 | Bytes load exactly if they hold a sound checkpoint of this very story with an admissible turn limit; the machine is then relaunched from what they hold. |
| `ByteLayout.U16IsBigEndian` | spikes/dork-worker/worker-snapshot-envelope.ts:726-729 | A 16-bit number is written high byte first. |
| `ByteLayout.U32IsBigEndian` | spikes/dork-worker/worker-snapshot-envelope.ts:731-734 | A 32-bit number is written in four bytes, the first counting most. |
| `ByteLayout.U64IsBigEndian` | spikes/dork-worker/worker-snapshot-envelope.ts:736-741 | A 64-bit number is written as its high and its low half, both big-endian. |
| `Utf8.ScalarForm` | spikes/dork-worker/worker-snapshot-envelope.ts:203-228 | The bytes of a scalar value are the one to four bytes of its UTF-8 form, bit by bit. |
| `CanonicalCommand.SeparatorIff` | packages/contracts/src/canonical-command.ts:58-66 | A command is refused as more than one exactly for a full stop, a semicolon, or "then", in any case, as a word of its own. |
| `TurnTells.SubmitTells` | packages/session/src/semantic-turn-coordinator.ts:602-655 | What a submitted turn begins: its transcript event under a new id while there is room, its recorded request again for an uncertain turn of the same input, and else nothing. |
| `TurnTells.GuideTells` | packages/session/src/semantic-turn-coordinator.ts:1145-1345 | The very events that each answer of the guide adds, with their causes: proposed, accepted or rejected, what is said and the request to narrate it, or the error; and the outcome stored. |
| `TurnTells.InspectionTells` | packages/session/src/semantic-turn-coordinator.ts:1356-1422 | A command is requested at the revision just inspected and recorded before it is sent; a failed inspection, an abort or a bad id ends the turn in its own way. |
| `TurnTells.EngineTells` | packages/session/src/semantic-turn-coordinator.ts:1421-1576 | The very events that each answer of the engine adds, at first and on recovery: rejected, or committed and then its output word for word; a lost answer keeps the request with the turn. |
| `TurnTells.CheckpointTells` | packages/session/src/semantic-turn-coordinator.ts:1574-1649 | After a commit the turn stays committed with the engine's result, saved or not; its output is narrated whole, or recorded as a cancelled narration. |
| `TurnTells.SpoiltTells` | packages/session/src/semantic-turn-coordinator.ts:1421-1458 | A bad narration id that is asked for after a commit makes a new turn uncertain of its first request, with the events it has and the error, and leaves a recovered one as it was. |
| `TurnTells.NarratorTells` | packages/session/src/semantic-turn-coordinator.ts:1652-1771 | However its narration ends, the turn ends with the outcome that was decided before, and the events say how it ended. |
| `TurnTells.OpeningTells` | packages/session/src/semantic-turn-coordinator.ts:657-729 | An opening begins with a look at the engine, or, tried again with the same id and input, with the narration of the output recorded first; else nothing changes. |
| `TurnTells.OpeningInspectionTells` | packages/session/src/semantic-turn-coordinator.ts:826-894 | Only an engine that is just where the boot left it is told of: its output is recorded and its first sentence asked for. |
| `CoordinatorNarration.OpenedIsTold` | packages/session/src/semantic-turn-coordinator.ts:1652-1680 | In every run, when an opening becomes opened, its events are one request for each segment of its text, in order, each followed by its own answer. |
| `CoordinatorNarration.OpeningAsksInOrder` | packages/session/src/semantic-turn-coordinator.ts:1652-1680 | In every run, an opening that awaits the narrator has asked for exactly the first segments of its text, up to the one awaited. |
| `CoordinatorNarration.IntroductionAsksInOrder` | packages/session/src/semantic-turn-coordinator.ts:896-939 | In every run, an introduction that awaits the narrator has asked for all segments of its messages before, and for exactly the first ones of the current message. |
| `CoordinatorNarration.IntroducedIsTold` | packages/session/src/semantic-turn-coordinator.ts:896-939 | In every run, an introduction that ends ready has said every message and asked for each of its segments in order, up to a message without a sentence, if there is one. |
| `CoordinatorNarration.TurnAsksOnce` | packages/session/src/semantic-turn-coordinator.ts:1652-1680 | In every run, a turn asks the narrator once: for what the guide said, or for the whole output of the engine. |
| `CoordinatorNarration.FailureAsksNothing` | packages/session/src/semantic-turn-coordinator.ts:1681-1771 | In every run, a narration that fails or is cancelled ends at once and asks for nothing more; an opening can then be retried. |
| `Sentences.SegmentsAreSentencesOfWords` | packages/session/src/semantic-turn-coordinator.ts:287-335 | The segments of a text are, line by line, its sentences: words one space apart, ended by a word that ends in . ! or ?, and left out only if they are nothing but these. |
| `EventLog.AppendsIff` | packages/events/src/event-sequence.ts:50-116 | An append succeeds exactly with a number left, an id, a time, and an interaction and a cause that are not blank; the event is the draft under the next number. |
| `TranscriptMarks.AddsLine` | packages/experience/src/projection.ts:301-435 | Whose line each event adds and what it says, kind by kind; it comes last, complete, and the window of 128 drops its first for it. |
| `TranscriptMarks.MarksLines` | packages/experience/src/projection.ts:238-254 | A narration or playback event marks exactly the lines that refer to its source, as pending, speaking, complete, interrupted or failed, and leaves their words. |
| `TranscriptMarks.OthersMarkNothing` | packages/experience/src/projection.ts:256-598 | Every other event leaves all lines as they are. |
| `TranscriptMarks.StartsWithBoot` | packages/experience/src/projection.ts:397-407 | Over any log, the start of the story is under way or over exactly from the first output of the boot on, and is that output's. |
| `TranscriptMarks.StartEnds` | packages/experience/src/projection.ts:436-482 | The start of the story is over exactly when its own narration is cancelled, fails, or has been played. |
| `TranscriptMarks.RefersToLatest` | packages/experience/src/projection.ts:150-157 | Over any log, the projection refers to exactly the latest 256 events. |
| `SceneShowing.BootShows` | packages/command-knowledge/src/opening-scene.ts:885-897 | The opening text, in answer to nothing, shows house, door and mailbox, the place and its four relations, and takes nothing away. |
| `SceneShowing.RoomShows` | packages/command-knowledge/src/opening-scene.ts:885-897 | The room text shows the same in answer to "look", and afresh in answer to a movement. |
| `SceneShowing.RevelationShows` | packages/command-knowledge/src/opening-scene.ts:898-1050 | "open mailbox", answered with the revelation, shows leaflet and mailbox, and the mailbox open. |
| `SceneShowing.RefusalShows` | packages/command-knowledge/src/opening-scene.ts:898-1050 | "read mailbox", answered with the refusal, keeps the mailbox and everything else. |
| `SceneShowing.OthersShowNothing` | packages/command-knowledge/src/opening-scene.ts:848-1050 | Any other text shows nothing; what is not an answer clears the scene, and so does a movement. |
| `SceneShowing.OthersKeep` | packages/command-knowledge/src/opening-scene.ts:848-881 | Any other answer keeps everything but the object that is read or taken, and what was known of it. |
| `SceneShowing.CommitPends` | packages/command-knowledge/src/opening-scene.ts:821-846 | The commit of the next revision is what a later output can answer, and shows nothing itself. |
| `SceneShowing.FocusTells` | packages/command-knowledge/src/opening-scene.ts:1050-1110 | The object in focus is the one that the answered command names, and only if it is known. |
| `SceneShowing.MovesOn` | packages/command-knowledge/src/opening-scene.ts:807-846 | An event of another session or an earlier one changes nothing; every other moves the scene on in the log, and an output that is not later does nothing else. |
| `SceneShowing.FirstScene` | packages/command-knowledge/src/opening-scene.ts:800-1110 | The first screen, word for word: objects, place, relations with their statements, sources, and the six offers in their order. |
| `SceneTrust.ObjectsAreKnown` | packages/command-knowledge/src/opening-scene.ts:594-783 | In an accepted scene every current object, and the place, is on record with distinct bounded references and revisions up to the engine's. |
| `SceneTrust.RelationsAreKnown` | packages/command-knowledge/src/opening-scene.ts:594-783 | In an accepted scene every relation that holds is on record in its own words, its objects are there, and east is read off west. |
| `SceneTrust.RestIsKnown` | packages/command-knowledge/src/opening-scene.ts:594-783 | In an accepted scene the place in the log, the command waited for and the focus are bounded and in order with the engine's revision. |
| `SceneTrust.OffersExactly` | packages/command-knowledge/src/opening-scene.ts:317-391 | An accepted scene makes exactly the offers of its current objects, in spoken form, risk and priority; opening the mailbox only while it is not known to be open. |
| `PagedView.NewerIsNext` | apps/web/src/optional-event-log-presentation.ts:197-229 | One page forward leads to the page that begins where the older one ends, and from the first older page back to the latest projection. |
| `PagedView.NewerUndoesOlder` | apps/web/src/optional-event-log-presentation.ts:182-201 | The button for newer pages takes back the one for older pages, exactly. |

## Left out

- The interpreter itself: it is any deterministic machine whose captured state decides its behaviour.
- SHA-256: an arbitrary function from bytes to texts; what needs it to give a well-formed digest says so.
- Error messages and error codes beyond accept, reject and the codes that a caller branches on; JavaScript object-shape checks, cloning and freezing.
- Real workers, timers, structured cloning and the endpoint's initialization handshake: messages are values, and an initialization that fails is a factory that fails.
- Reordering within one direction of the channel: a worker's port delivers in order.
- `DorkWorkerRuntime.dispose`, and a disposal that overtakes a boot or restore inside the worker: the host terminates the worker instead, which is the loss of everything under way.
- `DorkCandidateSession.restore` in place: the runtime only uses the static restore, which builds a new session.
- Repeated message ids: a reused id could match a late reply, so `Protocol.Next` ignores a send with a used one.
- Unpaired surrogates: a Dafny character is a Unicode scalar value, so a text that UTF-8 cannot carry does not occur.
- Bad event ids and an exhausted event sequence inside the coordinator: `EventLog` has them, the coordinator's runs assume that its appends succeed; narration and request ids may be bad.
- In the coordinator: capture, playback and pause records, audio failures, pending object intents, the observed world, validation of roles and opening texts, and subscribers that call back.
- The wording of the four reviewed texts of the opening scene: a parameter, so that the theorems hold of any texts.
- In the projection: display state, the action log, command cues and status texts; the debug pages, which use the same code as the transcript pages.
- In the scene: identifiers outside the closed lists of objects and relations, which the reducer never makes; the registry of trusted objects; the guidance and suggestions drawn from a scene; sorting with equal priorities, which do not occur.
- `SceneHistory.SourceBacked`: needs event ids to be unique, as the generator promises.
- `ExactlyOnce.RunsAreDistinct`: is about one branch of play; a restore goes back to the branch that the restored journal records.
- `WorkerEngine.DorkWorkerEngine.ExecuteDone`: an execute that ends after dispose does not update the facade's uncertain execute or the dropped worker, which nothing can read any more.
- `RuntimeSafety.CommitRecords`: a turn that breaks the interpreter leaves no receipt; what becomes of such requests is `ExecuteRecovery.ResolvableIff`.
