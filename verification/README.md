# Crash-safety and routing proofs for rill-xray-agent

The agent keeps small durable stores (a journal, a write-ahead log, an audit chain, a tombstone
ledger, root transactions, an activation tree) and compiles typed routing plans. This project
models those stores and protocols in Dafny and proves what they promise over every run, with a
crash possible between any two durable writes.

| files | what they model |
|---|---|
| `Events`, `JournalFormat`, `JournalHistory`, `JournalAcceptance`, `EventJournal`, `Observer` | observations diffed into events, the segmented ring journal down to its bytes, and the exactly-once transition commit |
| `AuditLog`, `ClosedLedger`, `OperationLog`, `Decisions` | the hash-chained audit log, the tombstone ledger, the write-ahead log over both, and the decision life cycle on top |
| `AutoPolicy`, `RootPolicy`, `RootTransaction` | cooldowns, rate window and fuse; the execution epoch and the gate; the transaction on the managed file with its automatic ledger |
| `RouteContract`, `RouteCompiler`, `RouteIntent` | routing rules and typed operations, their compilation, and the intent-restore pipeline (project, analyse, plan) |
| `RouteExecutor` | one request after another through gate, recovery, reconciliation, intent proof, compiler and transaction |
| `RuntimeActivation` | the three-file transaction of runtime activation and rollback |
| `LittleEndian`, `Congruence`, `PointGroup`, `Ed25519` | Ed25519 signatures, section 5.1 of RFC 8032 |

How it is modelled:

- A durable write is one assignment to a field. A crash is a nondeterministic early return after
  any of them; ghost fields keep what the disk can no longer tell (everything ever committed,
  every anchor, the unpruned history), and each class invariant ties the disk to them. A journal
  line may be torn at any byte.
- Digests (`SHA-256` over canonical JSON) are free datatype constructors over the digested value,
  hence injective; the truncated managed tag is the identity behind its prefix. The canonical
  encoding is a parameter with one law: decoding inverts encoding, and no encoding holds a newline.
- Clocks, restarts of the service, tests of a candidate configuration and SHA-512 are parameters.

Where the code does less than its documentation promises, the limit is proved:

- A transition whose ids are still in the journal can lose its events in a crash
  (`Observer.RepeatedTransitionIsLost`; exactly when: `Observer.ExactlyOnceIffUnseen`).
- An operation whose tombstones the ledger refuses writes its state and then blocks the log for
  good (`OperationLog.FullLedgerStrandsOperation`; exactly when: `OperationLog.AllOrNothingIffAccepted`).
- A second trip of the fuse does not raise the epoch (`RootPolicy.SecondTripKeepsTheEpoch`, reached
  by `RootPolicy.SecondTripHappens`), yet no automatic request from before it ever passes (`RootPolicy.NoAutomaticApplyAcrossATrip`).
- Recovery can stop on a finished operation (`OperationLog.TerminalHealCanBeRefused`; exactly when:
  `OperationLog.TerminalHealsIffMetadataAgree`).
- Eviction shows for decisions with an empty capability (`Decisions.EvictedEmptyCapabilityConflicts`,
  reached by `Decisions.EvictionHappens`; exactly when: `Decisions.EvictionIsInvisibleIff`).
- Recovering several root transactions keeps the generation only if no directory behind the last one
  visited committed (`RootTransaction.RematerializeAll`, `RouteExecutor.GenerationAfterRecovery`). A
  request that the gates let on can then find another generation than its own, and the directory it
  leaves stops every later request (`RouteExecutor.RecoveryCanStrandRequests`).
- A request with the id of a finished one is not executed again, but puts the generation back
  (`RouteExecutor.ReplayMovesGeneration`).
- The recovery gate stops a request exactly if an earlier directory has no bundle and either never
  came to `prepared` or the service does not restart (`RouteExecutor.Executor.RecoveryGate`).
- A request can run under a policy that denies it, because the gate comes before the recovery that
  books a rollback (`RouteExecutor.ExecutedAlthoughDenied`; exactly when:
  `RouteExecutor.StillPermittedIff`).
- An admitted replacement without a value loses its selector (`RouteCompiler.SelectorTypeSurvivesIff`).
- An intent with a plain string value or a source selector is refused as a mismatch
  (`RouteIntent.UnplainIntentIsRefused`; exactly when: `RouteIntent.AdmittedIff`), one with more
  than 32 differences cannot be restored (`RouteIntent.RestorableIff`), and one step of the pipeline
  leaves something to restore when entries with one identity disagree (exactly when:
  `RouteIntent.ConvergesIff`); for two with different selectors every step does
  (`RouteIntent.SharedIdentityNeverConverges`).
- One entry with only a legacy tag that no rule meets keeps all of its intent from being restored
  (`RouteIntent.LegacyEntryBlocksAll`), and an identity with a newline at its end passes as valid but
  is never planned (`RouteIntent.NewlineIdentityIsNeverPlanned`; exactly when: `RouteContract.ValidIdIsSafeIff`).
- An interrupted directory removal can block the recovery of an activation, with the files already
  back in their old state (`RuntimeActivation.RecoveryCanBeBlocked`; exactly when:
  `RuntimeActivation.RemovalOrderDecides`).

## Model

| member | source | states |
|---|---|---|
| Events.DeriveEvents | python/rill_xray_agent/events.py:76-134 | the first observation gives the baseline alone; between two, every event is news, names its component and carries the facts of the two documents, no two stand at one place of the fixed order, and for observer-shaped documents replaying them on the state before gives the state after, with an unsafe-path event exactly when there is a change of that |
| Events.ReplayReaches | python/rill_xray_agent/events.py:76-161 | replaying the events of a transition takes the fingerprint before it to the fingerprint after it |
| Events.SilentIffSameFingerprint | python/rill_xray_agent/events.py:76-161 | for observer-shaped documents, a transition has no events if and only if the two fingerprints are equal |
| Events.MissingSafeKeySplitsFingerprintAndEvents | python/rill_xray_agent/events.py:37-67 | without the `safe` key on a present entry the two disagree: an event is derived although the fingerprint stayed |
| Events.TransitionIdsDistinct | python/rill_xray_agent/events.py:164-181 | the ids of one transition are pairwise distinct, and there are at most eight |
| JournalFormat.SplitTailOf | python/rill_xray_agent/event_journal.py:310-323 | complete lines followed by a newline-free tail are split exactly between the two |
| JournalFormat.LinesOfEncodings | python/rill_xray_agent/event_journal.py:222-243 | splitting the bytes of encoded records at newlines gives back exactly their encodings |
| JournalFormat.AbsorbEncodings | python/rill_xray_agent/event_journal.py:222-243 | reading the lines of consecutively numbered records appends exactly those records, and no fault fires |
| JournalFormat.RepairIsInvisible | python/rill_xray_agent/event_journal.py:194-221 | for any files at all, a reader that skips a torn tail and a writer that cuts it recover the same result or the same fault |
| JournalHistory.LegalDiskIsAccepted | python/rill_xray_agent/event_journal.py:162-308 | every legal disk, torn tail included, is accepted; the recovered events are the committed records that were not rotated away, without a gap, and numbering resumes after the last one |
| JournalAcceptance.AcceptedIff | python/rill_xray_agent/event_journal.py:162-308 | any directory, whatever it holds, is accepted if and only if its files hold an unbroken run of records, each line whole but for a torn tail of the newest segment, over unbroken segment numbers, with a meta that claims no more than that; that run is what recovery returns |
| JournalHistory.RepairKeepsLegal | python/rill_xray_agent/event_journal.py:212-221 | cutting the torn tail keeps the disk legal and loses no committed record |
| JournalHistory.ActiveKeepsLegal | python/rill_xray_agent/event_journal.py:357-367 | appending to the newest segment while the line fits, and to the next number otherwise, keeps the disk legal and every segment within its bound |
| JournalHistory.TornWriteKeepsLegal | python/rill_xray_agent/event_journal.py:369-374 | a line write interrupted after any strict prefix of its bytes leaves a legal disk with the same committed records |
| JournalHistory.CommitKeepsLegal | python/rill_xray_agent/event_journal.py:369-374 | a complete line write leaves a legal disk with one more committed record |
| JournalHistory.RotateKeepsLegal | python/rill_xray_agent/event_journal.py:379-384 | deleting the oldest segment over the bound keeps the disk legal, and deletes only records with more than total minus segment bytes of newer records |
| JournalHistory.TotalSizeIsSurvivingSize | python/rill_xray_agent/event_journal.py:122-130 | the size of the segments is the size of the surviving records' lines |
| EventJournal.Journal.ScanFiles | python/rill_xray_agent/event_journal.py:188-243 | the scanning loop returns the events, highest sequence and fault of the specified scan for any directory contents, and cuts only the newest segment's tail |
| EventJournal.StartsUp | python/rill_xray_agent/event_journal.py:245-308 | what recovery answers on a legal disk, and exactly when it rewrites meta |
| EventJournal.Journal.CutTail | python/rill_xray_agent/event_journal.py:199-221 | a writer cuts the torn tail of the newest segment and of no other; a reader cuts nothing |
| EventJournal.ParseLines | python/rill_xray_agent/event_journal.py:222-243 | the line loop finds the same events, highest sequence and first fault as the specified scan |
| EventJournal.Journal.RecoverFiles | python/rill_xray_agent/event_journal.py:162-308 | recovery refuses exactly what the specification refuses and rewrites meta exactly when it was stale |
| EventJournal.Journal.RecoverJournal | python/rill_xray_agent/event_journal.py:325-332 | on a legal disk the start-up recovery never fails closed and returns the surviving records, the next sequence and the next segment, and meta is exact afterwards |
| EventJournal.Journal.HasTransition | python/rill_xray_agent/event_journal.py:420-432 | never refused on a legal disk; true if and only if a surviving record carries the id |
| EventJournal.Journal.ChooseSegment | python/rill_xray_agent/event_journal.py:357-367 | a new segment is created exactly when the newest has no room, and the one written to has room |
| EventJournal.Journal.WriteLine | python/rill_xray_agent/event_journal.py:369-374 | the record is committed, or it is not and the disk is legal with a torn prefix at most |
| EventJournal.Journal.Rotate | python/rill_xray_agent/event_journal.py:379-384 | the eviction loop ends within the total bound or with one segment, keeps the segment just written, and evicts only records far behind |
| EventJournal.Journal.CommitRecord | python/rill_xray_agent/event_journal.py:368-387 | line, evictions, meta: committed once or not at all, and when completed within the bounds with meta exact |
| EventJournal.Journal.AppendEvent | python/rill_xray_agent/event_journal.py:335-388 | a crash anywhere leaves the record out or committed once with the next number; only an oversized line is refused; a completed append is within the bounds |
| Observer.PlannedCheckpointIsAccepted | python/rill_xray_agent/observer_transition.py:64-119 | every checkpoint that is written is accepted when read, with the ids derived again from the anchor |
| Observer.CheckpointIsTrustedIff | python/rill_xray_agent/observer_transition.py:64-119 | exactly which checkpoint files are trusted, and that only no file means no transition |
| Observer.TimelineTells | python/rill_xray_agent/observer_transition.py:217-234 | whoever follows the ids between consecutive documents ends with the state of the last one |
| Observer.ExactlyOnceIffUnseen | python/rill_xray_agent/observer_transition.py:217-229 | resuming completes a transition to exactly its ids from every crash point if and only if none of them was still in the journal |
| Observer.TellAllResumes | python/rill_xray_agent/observer_transition.py:223-229 | the skip-or-append loop appends exactly the ids that readers do not see |
| Observer.RepeatedTransitionIsLost | python/rill_xray_agent/observer_transition.py:223-226 | in every run that has recorded A, B, A and lost nothing, the next A to B cannot be resumed: a crash behind its checkpoint loses all of its events, and the journal no longer tells the anchors' story |
| Observer.StoryExists | python/rill_xray_agent/observer_transition.py:223-226 | such a run exists for every list of anchors |
| Observer.StartIsExact | python/rill_xray_agent/observer_transition.py:304-307 | the checkpoint of a resumable transition keeps the journal consistent with the anchors |
| Observer.ReplaceIsExact | python/rill_xray_agent/observer_transition.py:314-317 | once every planned event is in, replacing the anchor and clearing the checkpoint keep journal and anchors telling the same story |
| Observer.SilentReplaceIsExact | python/rill_xray_agent/observer_transition.py:264-277 | refreshing the anchor without events keeps the story, also over a converged checkpoint |
| Observer.PendingIffPrevious | python/rill_xray_agent/observer_transition.py:199-214 | comparing the anchor's fingerprint tells a pending checkpoint from a converged one |
| Observer.ResumeAppends | python/rill_xray_agent/observer_transition.py:222-229 | completed without rotation, the resuming loop leaves the journal with the missing ids appended; interrupted, still in flight |
| Observer.ObserverState.FinishConverged | python/rill_xray_agent/observer_transition.py:201-210 | a converged checkpoint is cleared, and on a safe run no planned event is ever missing |
| Observer.ObserverState.ResumeTransition | python/rill_xray_agent/observer_transition.py:222-234 | completes exactly the transition of the checkpoint, with the ids appended that the journal did not show, and never fails closed on a safe run |
| Observer.ObserverState.RecoverPending | python/rill_xray_agent/observer_transition.py:176-234 | recovery finishes the checkpoint's own transition and never fails closed on a safe run |
| Observer.ObserverState.StartTransition | python/rill_xray_agent/observer_transition.py:304-318 | checkpoint, events, anchor, clear: any interruption leaves a state that recovery completes; a hazard arises only when an unresumable transition is interrupted, and its checkpoint is then in place |
| Observer.ObserverState.CommitTransition | python/rill_xray_agent/observer_transition.py:237-318 | the anchor becomes the current observation and the invariant holds after any interruption; over a checkpoint of another transition it is refused with nothing changed |
| Observer.ObserverState.CommitBehindCheckpoint | python/rill_xray_agent/observer_transition.py:279-302 | with a checkpoint present, `RecoveryRequired` is answered, and nothing changes, if and only if it is not the checkpoint of this very transition nor, when there are no events, shown by the anchor |
| Observer.ObserverState.Observe | integrations/xray_bash_onekey/repository_files/scripts/rill_xray_agent_observe.py:225-246 | nothing committed or anchored is taken back; a new anchor is the pending checkpoint's document or the live one; the hazard count rises only in a run that stops with the checkpoint in place of a transition that could not be resumed from the journal as it was then (what had been rotated away stays away); and after a completed run on a safe history the ids ever committed are those between consecutive anchors, each once and in order |
| Observer.ObserverState.ObserveAll | integrations/xray_bash_onekey/repository_files/scripts/rill_xray_agent_observe.py:225-246 | over any number of runs that may each stop anywhere: committed records, evictions and anchors only grow, from run to run and at every start of a transition, the new anchors are observed documents in order, at most one hazard arises for each run of a transition that could not be resumed; while there is none no run fails closed, no event is lost or doubled, and whoever follows the committed ids ends with the state of the anchor |
| AuditLog.NextIsNew | python/rill_xray_agent/audit.py:84-102 | the next event of a valid chain has a hash that no line of the chain has |
| AuditLog.ChainExtends | python/rill_xray_agent/audit.py:96-102 | appending it gives a valid chain that ends in it |
| AuditLog.ChainIff | python/rill_xray_agent/audit.py:40-57 | a chain is valid if and only if its lines are numbered from one, each holds the hash of the one before, and each hash is the digest of what the line says |
| AuditLog.CommitStaysSound | python/rill_xray_agent/audit.py:126-142 | every intermediate state of a commit is sound and extends the chain; the last one has no reservation and an agreeing head |
| AuditLog.Log.Verify | python/rill_xray_agent/audit.py:40-57 | accepts if and only if every line is intact and the head file agrees, reports the first line that is not, and otherwise gives the number and the hash of the last one |
| AuditLog.Log.AppendAndSeal | python/rill_xray_agent/audit.py:62-82 | passes through the commit's states in order; refused only for capacity, with nothing changed |
| AuditLog.Log.Reconcile | python/rill_xray_agent/audit.py:62-72 | from any sound state: the reserved event is in the log, the chain verifies and extends the earlier one |
| AuditLog.Log.BuildEvent | python/rill_xray_agent/audit.py:96-102 | the event built extends the verified chain, as finishing an interrupted append leaves it |
| AuditLog.Log.Reserve | python/rill_xray_agent/audit.py:104-113 | a reservation is made only if the line fits, and then room for it is guaranteed |
| AuditLog.Log.DismissPending | python/rill_xray_agent/audit.py:115-124 | drops the reservation of that event only |
| AuditLog.Log.CommitEvent | python/rill_xray_agent/audit.py:126-142 | drops a foreign reservation, then passes through the commit's states |
| ClosedLedger.PutAllGrows | python/rill_xray_agent/state.py:91-143 | puts never change a stored tombstone, add only what was asked, and without a fault everything asked is applied |
| ClosedLedger.PutAllAgain | python/rill_xray_agent/state.py:96-123 | putting applied tombstones again never changes the ledger, and is accepted if and only if the optional metadata agree |
| ClosedLedger.PutAllOverPrefix | python/rill_xray_agent/state.py:91-143 | putting a list again over any accepted prefix of it accepts the prefix unchanged and continues as the first time |
| ClosedLedger.PrefixKeepsVerdict | python/rill_xray_agent/state.py:91-143 | so whether the ledger accepts a list is settled before the first put, whatever part of it was put already |
| ClosedLedger.GrowthDeterminesLedger | python/rill_xray_agent/state.py:91-143 | a ledger that grew by new tombstones and has them all applied is the one that putting them produces |
| ClosedLedger.Ledger.PutHashed | python/rill_xray_agent/state.py:91-143 | the write-once put: a corrupt entry, a full ledger and a conflict are answered exactly when there is one, whatever else would be wrong; otherwise idempotent for the same tombstone |
| OperationLog.DecisionIsSafe | python/rill_xray_agent/operation.py:208-270 | the undeterminable branch is unreachable, and recovery cancels only when nothing of the operation has happened |
| OperationLog.IntentStarts | python/rill_xray_agent/operation.py:127-146 | with its audit event reserved, a durable intent puts the operation in flight |
| OperationLog.StateAdvances | python/rill_xray_agent/operation.py:148-149 | the state write keeps the operation in flight |
| OperationLog.LedgerAdvances | python/rill_xray_agent/operation.py:79-81 | so does any part of the ledger writes |
| OperationLog.AuditAdvances | python/rill_xray_agent/operation.py:153-155 | so does any step of the audit commit, after state and ledger |
| OperationLog.DismissalKeepsCancelling | python/rill_xray_agent/operation.py:251-268 | a cancellation interrupted after the dismissal is cancelled again |
| OperationLog.SerialAppends | python/rill_xray_agent/operation.py:96-161 | a completed operation extends the serial history: its state follows the last one's, its tombstones are stored, its audit line comes after all earlier ones |
| OperationLog.TerminalHealCanBeRefused | python/rill_xray_agent/operation.py:208-229 | a terminal operation can be refused by the ledger although it has happened in full |
| OperationLog.TerminalHealsIffMetadataAgree | python/rill_xray_agent/operation.py:208-218 | it heals if and only if no stored tombstone contradicts its metadata |
| OperationLog.AllOrNothingIffAccepted | python/rill_xray_agent/operation.py:96-187 | over every state that crashes can leave, no recovery is ever refused by the ledger if and only if the ledger accepts the declared mutations when the intent is made |
| OperationLog.FullLedgerStrandsOperation | python/rill_xray_agent/operation.py:148-151 | with a full ledger the state write is durable and its tombstone never is: every recovery stays unresolved from the state write on |
| OperationLog.OperationLog.HealLedger | python/rill_xray_agent/operation.py:79-81 | applies every mutation or reports the first refusal; in flight at every stop |
| OperationLog.OperationLog.CommitAudit | python/rill_xray_agent/operation.py:223-226 | the event is in the log afterwards; capacity never refuses it |
| OperationLog.OperationLog.Finish | python/rill_xray_agent/operation.py:203-206 | terminal marker and removal of the intent conclude the operation, or it stays in flight |
| OperationLog.OperationLog.CancelOne | python/rill_xray_agent/operation.py:251-268 | cancelling leaves state, ledger and audit log as before the operation |
| OperationLog.OperationLog.RecoverOne | python/rill_xray_agent/operation.py:189-270 | recovery ends with everything (state, every tombstone, audit event) or with nothing; it is unresolved exactly when the state is written and the ledger refuses what it must be healed with |
| OperationLog.OperationLog.Recover | python/rill_xray_agent/operation.py:180-187 | the same for the whole log, in which at most one intent exists; never unresolved when the ledger accepted the mutations at the time of the intent |
| OperationLog.OperationLog.CarryOut | python/rill_xray_agent/operation.py:148-161 | from the durable intent: completed in full, refused by the ledger with the fault it had before, or stopped in a state that recovery decides |
| OperationLog.OperationLog.Execute | python/rill_xray_agent/operation.py:96-161 | fenced if and only if an intent is pending, invalid if and only if a mutation is malformed, refused by the audit log only when it has no room for the line, and then nothing else can happen; otherwise nothing happened, all of it happened, or its intent is durable |
| OperationLog.OperationLog.ExecuteThroughCrashes | python/rill_xray_agent/operation.py:96-187 | one operation through any number of crashes and recoveries: accepted by the ledger beforehand, it ends with all of it or none of it |
| OperationLog.OperationLog.Prepare | python/rill_xray_agent/operation.py:128-130 | before the intent only the audit trail may grow, and the event is reserved with room, or refused when there is none |
| Decisions.AcceptedFeedbackIsFinal | python/rill_xray_agent/runtime_service.py:286-338 | after accepted feedback and any further calls, the same feedback is idempotent and any other conflicts |
| Decisions.DecisionsPersist | python/rill_xray_agent/runtime_service.py:194-220 | no decision is forgotten or renamed, and a settled one never changes |
| Decisions.Provenance | python/rill_xray_agent/runtime_service.py:187-367 | in every run a known decision was registered by one of the calls; a root result it holds was committed since; settled, its payload is that of a later feedback which the payload policy allows, and for a route a result was reported between the two |
| Decisions.UnregisteredIsUnknown | python/rill_xray_agent/runtime_service.py:271-302 | in every run that never registered it, a decision can neither be given a result nor feedback |
| Decisions.RegistrationIsFinal | python/rill_xray_agent/runtime_service.py:187-220 | after a registration and any further calls the same identity is idempotent and any other is refused |
| Decisions.ResultIsFinal | python/rill_xray_agent/runtime_service.py:271-285 | a root result stays as it is until the decision is settled: the same one is idempotent, any other conflicts |
| Decisions.ExactlyOneStore | python/rill_xray_agent/runtime_service.py:295-319 | each decision is in exactly one of pending, completed and closed |
| Decisions.EvictionRepresents | python/rill_xray_agent/runtime_service.py:351-365 | moving a completed decision to a ledger with room keeps what the stores represent |
| Decisions.AcceptanceRepresents | python/rill_xray_agent/runtime_service.py:347-350 | moving a pending decision to completed is the step of the unbounded map |
| Decisions.EvictionIsInvisibleIff | python/rill_xray_agent/runtime_service.py:316-338 | feedback compares as before the eviction, except exactly when the capability is empty and the client does not repeat it |
| Decisions.EvictedEmptyCapabilityConflicts | python/rill_xray_agent/runtime_service.py:316-338 | in any run that registers it, accepts feedback and has evicted it since, the same feedback conflicts |
| Decisions.EvictionHappens | python/rill_xray_agent/runtime_service.py:347-365 | the two operations from the empty store that lead there when no completed decision is kept: register, then feedback with its own eviction |
| Decisions.NewTombstonesFit | python/rill_xray_agent/runtime_service.py:351-365 | the ledger accepts the tombstones of new decisions if and only if there is room for all of them |
| Decisions.LexLeqIff | python/rill_xray_agent/runtime_service.py:351-353 | the order in which decisions are evicted is that of strings: a prefix first, otherwise by the first character that differs |
| Decisions.Evict | python/rill_xray_agent/runtime_service.py:351-365 | the loop ends within the bound, evicts the smallest ids, no more than needed, and declares one new tombstone for each |
| Decisions.TryRegister | python/rill_xray_agent/runtime_service.py:194-220 | the callback replies as the unbounded decision map and computes a state that represents its next step |
| Decisions.TryRootResult | python/rill_xray_agent/runtime_service.py:271-285 | the callback replies as the unbounded decision map and computes a state that represents its next step |
| Decisions.TryFeedback | python/rill_xray_agent/runtime_service.py:286-367 | the callback replies as the unbounded decision map, save where an eviction shows, and declares as many evictions as overflow; for a pending decision it says that a route has no root result yet, that the payload is prohibited, or accepts, in this order |
| Decisions.AllOrNothing | python/rill_xray_agent/runtime_service.py:286-367 | an operation on the decisions that was interrupted anywhere and recovered leaves the decisions before it or after it |
| Decisions.Store.Handle | python/rill_xray_agent/runtime_service.py:187-367 | over the operation log: fenced exactly while an intent is pending; a reply is the unbounded map's, save where an eviction shows, and is the one that the stored decision grants: registered only when unknown, a result or feedback taken only for a pending decision, feedback only when allowed and for a route only behind a result; accepted only with room for what it evicts; an audit refusal means that the line has no room, and without that room no call changes anything; otherwise nothing moved or the call is pending |
| Decisions.RepliesAreGranted | python/rill_xray_agent/runtime_service.py:187-367 | what the unbounded map replies, in terms of the stored pending, completed and closed decisions before and after the call |
| Decisions.Store.Recover | python/rill_xray_agent/operation.py:180-270 | the pending call took effect or never happened; undecided only if the ledger had no room for it from the start |
| Decisions.Store.HandleThroughCrashes | python/rill_xray_agent/runtime_service.py:187-367 | one call through any number of crashes: with room in the ledger it never gets stuck, and once a recovery ends it took effect once or not at all |
| AutoPolicy.PruningIsInvisible | python/rill_xray_agent/auto_policy.py:191-223 | dropping times that are an hour old never changes the window at any later time |
| AutoPolicy.DecisionsSeeTheFullHistory | python/rill_xray_agent/auto_policy.py:171-196 | every decision is the one the full, unpruned history of applies gives |
| AutoPolicy.ReasonsAre | python/rill_xray_agent/auto_policy.py:171-196 | each reason is given if and only if there is one over everything that was ever applied: the fuse, an apply within the global cooldown, one of the same recommendation within its own, the maximum-per-hour latest applies within an hour |
| AutoPolicy.AllowedIff | python/rill_xray_agent/auto_policy.py:171-196 | exactly when an apply is allowed, over everything that was ever applied |
| AutoPolicy.FuseCountsFromTheLastApply | python/rill_xray_agent/auto_policy.py:203-256 | an apply while the fuse is closed starts the count again: the fuse then opens with the rollback that reaches the limit and with none before; an apply neither closes an open fuse nor clears its count |
| AutoPolicy.AllowedApplyKeepsPace | python/rill_xray_agent/auto_policy.py:171-231 | an apply behind an allowing evaluation keeps every pair apart by the global cooldown, same recommendations by theirs, and any maximum-per-hour plus one applies spread over at least an hour |
| AutoPolicy.MarkKeepsOnce | python/rill_xray_agent/auto_policy.py:216-252 | an outcome id is recorded at most once |
| AutoPolicy.FreshIsSound | python/rill_xray_agent/auto_policy.py:46-53 | a missing file is a sound start |
| AutoPolicy.Policy.Evaluate | python/rill_xray_agent/auto_policy.py:171-196 | answers from the pruned window as the full history would, changes nothing but that window, and would answer the same again |
| AutoPolicy.Policy.RecordApply | python/rill_xray_agent/auto_policy.py:203-231 | adds one apply per outcome id, counts those that no evaluation allowed, keeps the pace while there are none, and never clears an open fuse |
| AutoPolicy.Policy.RecordRollback | python/rill_xray_agent/auto_policy.py:233-256 | counts one rollback per outcome id and opens the fuse at the limit |
| AutoPolicy.Policy.AcknowledgeFuse | python/rill_xray_agent/auto_policy.py:258-268 | only an acknowledgment re-arms an open fuse |
| AutoPolicy.Policy.Restart | python/rill_xray_agent/auto_policy.py:82-136 | reloading the file changes no later answer |
| RootPolicy.EpochRisesIff | python/rill_xray_agent/root_policy.py:198-297 | a call raises the epoch by one exactly when it changes mode, stage, confirmation or fuse (a second trip excepted) or is a safe-disable, a reset or a bump |
| RootPolicy.CallsTakeEffect | python/rill_xray_agent/root_policy.py:206-297 | what each call sets, and that it leaves mode, stage, confirmation and ledger alone otherwise |
| RootPolicy.SafeDisableHolds | python/rill_xray_agent/root_policy.py:228-240 | after a safe-disable no request passes over any calls until the mode is set again |
| RootPolicy.SecondTripKeepsTheEpoch | python/rill_xray_agent/root_policy.py:277-287 | closing an acknowledged fuse again changes the authority without raising the epoch |
| RootPolicy.SecondTripHappens | python/rill_xray_agent/root_policy.py:277-297 | from a fresh install and for every limit of the fuse: rollbacks up to the limit, an acknowledgment, and rollbacks up to the limit again |
| RootPolicy.EpochNeverDecreases | python/rill_xray_agent/root_policy.py:198-297 | over every run of completed calls |
| RootPolicy.GateAllows | python/rill_xray_agent/route_executor.py:510-546 | a request passes only with the current epoch, normal mode and the right stage, and automatically only when confirmed, low-risk, allowlisted and with an untripped fuse |
| RootPolicy.GatePassesIff | python/rill_xray_agent/route_executor.py:510-546 | exactly what it takes to pass the gate |
| RootPolicy.DenialsAre | python/rill_xray_agent/route_executor.py:510-546 | each denial is given if and only if its own reason is there |
| RootPolicy.StaleRequestNeverPasses | python/rill_xray_agent/route_executor.py:510-546 | a request bound to an older epoch never passes the gate again |
| RootPolicy.ChangeInvalidatesRequests | python/rill_xray_agent/root_policy.py:206-297 | a change of authority invalidates every request made before it, for good |
| RootPolicy.FuseDeniesUntilAcknowledged | python/rill_xray_agent/root_policy.py:309-335 | once tripped, the fuse denies in every later state until it is acknowledged |
| RootPolicy.NoAutomaticApplyAcrossATrip | python/rill_xray_agent/root_policy.py:277-335 | an automatic request from before any trip never passes, also after the acknowledgment |
| RootPolicy.GateAfterRollback | python/rill_xray_agent/route_executor.py:510-546 | a request that passed the gate still passes after a rollback is recorded if and only if the rollback was known, leaves the fuse below its limit, or the request is manual and the fuse was open already |
| RootPolicy.Policy.SetModeTo | python/rill_xray_agent/root_policy.py:206-215 | takes the step of the run model and reports whether the mode changed |
| RootPolicy.Policy.SetStageTo | python/rill_xray_agent/root_policy.py:217-226 | takes the step of the run model and reports whether the stage changed |
| RootPolicy.Policy.Disable | python/rill_xray_agent/root_policy.py:228-240 | takes the step of the run model, which always raises the epoch |
| RootPolicy.Policy.Confirm | python/rill_xray_agent/root_policy.py:242-255 | takes the step of the run model and reports whether the confirmation changed |
| RootPolicy.Policy.Reset | python/rill_xray_agent/root_policy.py:257-267 | takes the step of the run model; the ledger is kept |
| RootPolicy.Policy.RecordApplyOf | python/rill_xray_agent/root_policy.py:270-275 | takes the step of the run model; a replay adds nothing |
| RootPolicy.Policy.RecordRollbackOf | python/rill_xray_agent/root_policy.py:277-287 | takes the step of the run model; a replay adds nothing |
| RootPolicy.Policy.Acknowledge | python/rill_xray_agent/root_policy.py:289-297 | takes the step of the run model |
| RootPolicy.Policy.Evaluate | python/rill_xray_agent/root_policy.py:309-335 | reports every reason to deny, in order, and changes neither policy nor history |
| RootTransaction.RootTransaction.Prepare | python/rill_xray_agent/root_txn.py:185-229 | stops before the managed file is touched, also on a directory left from an earlier attempt; a failed pre-validation removes the directory |
| RootTransaction.RootTransaction.Mutate | python/rill_xray_agent/root_txn.py:230-257 | ready exactly when the service restarts, the candidate verifies and, if automatic, the ledger hook succeeds; then the candidate is in place and booked |
| RootTransaction.RootTransaction.SealCommit | python/rill_xray_agent/root_txn.py:258-263 | the commit bundle is written only over the candidate and after the ledger record, and says the request, both generations, the outcome id of an automatic request and the time |
| RootTransaction.RootTransaction.Materialize | python/rill_xray_agent/root_txn.py:316-324 | from a durable bundle alone, completed: artifacts, generation and terminal state agree with it |
| RootTransaction.RootTransaction.Restore | python/rill_xray_agent/root_txn.py:278-293 | the original bytes, or their absence, are back; short of a crash it fails if and only if the restart fails |
| RootTransaction.RootTransaction.Rollback | python/rill_xray_agent/root_txn.py:265-314 | ends rolled back with the original file and old generation and the rollback in the ledger; unverified only if the restart or the ledger hook of an automatic request fails |
| RootTransaction.RootTransaction.Recover | python/rill_xray_agent/root_txn.py:391-446 | from any crash after `prepared`: committed with the candidate and generation plus one, or rolled back with the original and the old generation, provided the service restarts |
| RootTransaction.RootTransaction.Apply | python/rill_xray_agent/root_txn.py:176-263 | commits exactly when restart, verification and ledger hook succeed; otherwise ends rolled back, unverified, or rejected with the host unchanged; from an empty directory, a leftover one or one with its bundle |
| RootTransaction.RootTransaction.Rewrite | python/rill_xray_agent/root_txn.py:182-184 | a finished directory, replayed or come by in recovery: nothing is executed again; its artifacts are rewritten, and the generation is put back to the one of that directory |
| RootTransaction.RootTransaction.CarryOut | python/rill_xray_agent/root_txn.py:230-263 | once prepared: committed exactly when restart, verification and hook succeed, otherwise rolled back, with the outcome in the ledger |
| RootTransaction.RootTransaction.ReconcileLedger | python/rill_xray_agent/route_executor.py:594-638 | afterwards the ledger knows every automatic outcome; where every commit was booked already, no apply is added |
| RootTransaction.ReplayChangesNothing | python/rill_xray_agent/route_executor.py:594-638 | replaying outcomes that the ledger knows changes nothing, so each counts once |
| RootTransaction.DirectoryIsBooked | python/rill_xray_agent/root_txn.py:250-259 | a directory in the committed state has its automatic apply in the ledger |
| RootTransaction.RematerializeAll | python/rill_xray_agent/root_txn.py:326-336 | visiting every finished directory once, in any order, leaves the generation of the last one visited; that is the newest one if and only if no later directory committed |
| RootTransaction.GenerationSurvivesIff | python/rill_xray_agent/root_txn.py:159-164 | over every order: the newest generation survives if and only if nothing behind the oldest directory committed |
| RouteContract.OverallRiskIsTheWorst | python/rill_xray_agent/route_contract.py:218-222 | the overall risk is that of an operation, and no operation's is higher |
| RouteContract.LowIffAllLow | python/rill_xray_agent/route_contract.py:218-222 | the overall risk is low if and only if every operation's risk is low |
| RouteContract.AutoAdmitsIff | python/rill_xray_agent/route_contract.py:170-222 | the automatic gate lets through exactly insertions behind all rules and replacements that keep what the rule first selects by |
| RouteContract.SelectorTypeIff | python/rill_xray_agent/route_contract.py:145-167 | a rule is of a selector type if and only if it selects by that and by nothing before it in the fixed order |
| RouteContract.ValidIdIsSafeIff | python/rill_xray_agent/route_contract.py:85-89 | a valid identity is fit for an operation unless it ends in a newline, which the pattern lets pass |
| RouteCompiler.Compile | python/rill_xray_agent/route_executor.py:209-353 | compiles all of a valid list in order, or rejects it with the first fault |
| RouteCompiler.Mutate | python/rill_xray_agent/route_executor.py:302-352 | one operation on the rule list, with its range, ownership, identity and selector checks |
| RouteCompiler.CompilesIff | python/rill_xray_agent/route_executor.py:302-352 | exactly when an operation compiles: a replacement needs the rule of its own identity at its index, a removal or a move a managed rule |
| RouteCompiler.HighRiskIff | python/rill_xray_agent/route_contract.py:170-215 | of high risk is exactly what the compiler turns down for its position, and an insertion that leaves its position open |
| RouteCompiler.ReplacedRule | python/rill_xray_agent/route_executor.py:318-340 | a replaced rule keeps its tag and what Rill never looks at, has the given one alone of the fields that an operation may set, and no other rule changes |
| RouteCompiler.InsertedRule | python/rill_xray_agent/route_executor.py:305-313 | an inserted rule stands between the rules before and behind its position, with the tag of its identity and its one selector |
| RouteCompiler.EveryReplacementIsOwn | python/rill_xray_agent/route_executor.py:318-329 | in every list that compiles, each replacement finds the rule of its own identity where it points |
| RouteCompiler.RemoveUndoesInsert | python/rill_xray_agent/route_executor.py:305-317 | removing at the position of an insertion gives back the list |
| RouteCompiler.MoveUndoesMove | python/rill_xray_agent/route_executor.py:341-350 | a moved rule lands at its clamped target, and moving it back gives back the list |
| RouteCompiler.UserRulesArePreserved | python/rill_xray_agent/route_executor.py:296-353 | for every list that compiles, the rules that are not managed keep content and order |
| RouteCompiler.UnmanagedTrafficIsUntouched | python/rill_xray_agent/route_executor.py:209-215 | under first-match routing, traffic that no managed rule selects before or after goes the same way |
| RouteCompiler.AutoAdmittedShape | python/rill_xray_agent/route_contract.py:170-222 | what the automatic gate admits leaves every position as it is or replaces a managed rule in place under its tag, and adds exactly the inserted rules behind, last first |
| RouteCompiler.SelectorTypeSurvivesIff | python/rill_xray_agent/route_contract.py:195-203 | a position keeps its selector type if and only if its last replacement brought a value |
| RouteCompiler.InsertionsNeverReroute | python/rill_xray_agent/route_contract.py:185-192 | admitted insertions never change the first match of traffic that some rule already matched |
| RouteIntent.ProjectedRiskIsLiveRisk | python/rill_xray_agent/route_contract.py:145-222 | the risk computed from the projection equals the risk computed from the live rules, for every operation list |
| RouteIntent.SanitizedIntentRules | python/rill_xray_agent/route_topology.py:185-236 | keeps exactly the allowlisted entries, in order and normalised |
| RouteIntent.SanitizedEntryIs | python/rill_xray_agent/route_topology.py:185-236 | exactly which entries are kept, and what of them |
| RouteIntent.SanitizeIsIdempotent | python/rill_xray_agent/route_topology.py:185-236 | sanitising a sanitised intent changes nothing |
| RouteIntent.SanitisedIffEveryEntryIs | python/rill_xray_agent/route_topology.py:185-236 | an intent is a fixpoint of sanitising if and only if each of its entries is |
| RouteIntent.IntentRestoreAnalysis | python/rill_xray_agent/route_analyzer.py:180-266 | reports each missing or drifted entry against the first live rule with its identity, in intent order |
| RouteIntent.ComparisonOfGoodEntry | python/rill_xray_agent/route_analyzer.py:232-265 | an entry is missing, met or drifted according to the first live rule that carries its tag |
| RouteIntent.OpsFromIntent | python/rill_xray_agent/route_planner.py:112-165 | one operation for each finding that is safe, in order; unsafe ones are dropped |
| RouteIntent.CanonicalFormIs | python/rill_xray_agent/route_planner.py:167-195 | canonicalising a list refuses it, if any parameter is unsafe, or gives the same operations marked as managed |
| RouteIntent.CanonicalFormIsAFixpoint | python/rill_xray_agent/route_planner.py:71-77 | canonicalising twice equals canonicalising once |
| RouteIntent.AutoProduce | python/rill_xray_agent/runtime_service.py:1026-1077 | the Runtime plans from nothing but the projected rules and the projected intent, and its plan holds the very operations that it spools |
| RouteIntent.RootIntentProof | python/rill_xray_agent/route_executor.py:701-733 | recomputes from the live rules and the intent itself and compares the two canonical lists |
| RouteIntent.AdmittedAreTheRootsOwn | python/rill_xray_agent/route_executor.py:719-733 | what is admitted are exactly the operations that the root plans |
| RouteIntent.ProducerMeetsProof | python/rill_xray_agent/runtime_service.py:1026-1060 | what the Runtime spools from its projection is admitted by the root's own recomputation if and only if sanitising the intent changes nothing the root plans; for an intent in sanitised form always |
| RouteIntent.AlwaysAdmittedIff | python/rill_xray_agent/route_executor.py:701-733 | for an intent of valid entries the Runtime's request is admitted for every list of rules if and only if no entry selects a source and every value is written as a list |
| RouteIntent.AdmittedIff | python/rill_xray_agent/route_executor.py:701-733 | over given rules it is admitted if and only if they meet every other entry, as it stands and as sanitising leaves it |
| RouteIntent.UnplainIntentIsRefused | python/rill_xray_agent/route_executor.py:701-733 | one such entry that the rules do not meet has the request refused, whatever the other entries and rules are |
| RouteIntent.LegacyEntryBlocksAll | python/rill_xray_agent/route_planner.py:123-165 | with an entry that has only a legacy tag and that no rule meets, nothing that the root admits is a valid request |
| RouteIntent.NewlineIdentityIsNeverPlanned | python/rill_xray_agent/route_planner.py:123-165 | for an identity that ends in a newline no operation is ever planned |
| RouteIntent.RestoreConvergesInOneStep | python/rill_xray_agent/route_executor.py:666-733 | for valid entries of which those with one identity agree, the planned operations always compile, and afterwards the analysis finds nothing to restore |
| RouteIntent.ConvergesIff | python/rill_xray_agent/route_executor.py:666-733 | one step of the pipeline leaves nothing to restore from every list of rules if and only if any two entries with one identity have the same selector, the same outbound and equal value digests |
| RouteIntent.RestorableIff | python/rill_xray_agent/route_executor.py:152-158 | a request that validation accepts and the root admits exists if and only if the root plans between 1 and 32 operations |
| RouteIntent.SettlesIffNoConflict | python/rill_xray_agent/route_analyzer.py:209-266 | some list of rules leaves nothing to restore if and only if no two entries of one identity want different outbounds or different values of one selector |
| RouteIntent.SharedIdentityNeverConverges | python/rill_xray_agent/route_analyzer.py:209-266 | two entries with different selectors for one identity: from every list of rules that does not meet both, every step of the pipeline leaves something to restore |
| RouteExecutor.Executor.RootGate | python/rill_xray_agent/route_executor.py:510-546 | denies for exactly the reasons that the root policy has now, in order, whatever the request says; what it prunes does not change its answer |
| RouteExecutor.Executor.RecoveryGate | python/rill_xray_agent/route_executor.py:560-592 | not interrupted, it stops a request if and only if an earlier directory has no bundle and either never came to `prepared` or the service does not restart; let on, every directory is finished and known to the ledger, the managed file is the old candidate, if its bundle was durable, or the original, the generation is that of the directory listed last, and the policy is as before but for the rollback it booked |
| RouteExecutor.Executor.RecoverAll | python/rill_xray_agent/root_txn.py:326-336 | over a listing of all directories: the unfinished one is finished if and only if its bundle is durable or it was prepared and the service restarts, and the generation is the one that the directories listed last give |
| RouteExecutor.GenerationAfterRecovery | python/rill_xray_agent/root_txn.py:326-336 | after such a recovery the generation of the newest directory survives if and only if no commit is later than the directory listed last |
| RouteExecutor.RecoveryCanStrandRequests | python/rill_xray_agent/root_txn.py:182-192 | a listing under which a request that every gate lets on finds an older generation than its own; the directory it leaves can never be recovered |
| RouteExecutor.ReplayMovesGeneration | python/rill_xray_agent/root_txn.py:182-184 | one id committed, another, then the first again: it passes gates and intent proof, and its replay can only write the older generation |
| RouteExecutor.Executor.SettleClaim | python/rill_xray_agent/route_executor.py:735-781 | a claim left by an interrupted call: its transaction is recovered and reconciled, a durable decision is kept, everything else is rolled back if the service restarts and left held otherwise, and nothing is executed |
| RouteExecutor.Executor.Admit | python/rill_xray_agent/route_executor.py:862-897 | not interrupted, it answers exactly as the gates do in order: valid operations, the policy's denials, managed file and generation that the request was planned from, unrecoverable directories; and it lets on every other request. A request that it lets on was planned from the very file and generation that it found; planned from others, nothing changes but the pruned window |
| RouteExecutor.StillPermittedIff | python/rill_xray_agent/route_executor.py:873-896 | a request runs on after the recovery gate booked a rollback; it would still pass the gate if and only if that rollback was booked before, leaves the fuse below its limit, or the request is manual and the fuse was open |
| RouteExecutor.ExecutedAlthoughDenied | python/rill_xray_agent/route_executor.py:873-896 | it happens with a rollback whose restart failed: the request passes every gate and the intent proof on that host, and is denied by the policy under which it runs |
| RouteExecutor.CompileProved | python/rill_xray_agent/route_executor.py:666-733 | answers exactly as the intent proof, the bound on rules and the compiler do in order; what compiles keeps the user's rules, and for an automatic request and a good intent leaves nothing to restore |
| RouteExecutor.GoodRequestCompiles | python/rill_xray_agent/route_executor.py:666-733 | the root's own operations for an intent whose entries agree are never turned down, on any live rules within the bound |
| RouteExecutor.AutomaticChangeIsConfined | python/rill_xray_agent/route_executor.py:510-546 | an admitted and proved change has the automatic shape |
| RouteExecutor.Executor.Handle | python/rill_xray_agent/route_executor.py:793-988 | one call, not interrupted: refused with exactly the first gate's answer and nothing changed but what recovery tried, or let on and answered as proof and compiler say; executed, it ends as restart, check and hooks decide: committed with the compiled rules, which for an automatic request and a good intent leave nothing to restore, or rolled back to the file as it was; what is executed or replayed was planned from the file and the generation that the call found and is authorised by the policy, a generation mismatch needs a recovery that moved the generation, and with another file or generation nothing changes but the pruned window; an id that was used before is replayed and no other, and every request that the gates let on with the root's own operations for a good intent is executed or was before |
| RouteExecutor.Executor.HandleAll | python/rill_xray_agent/route_executor.py:793-988 | over any run of calls, each of which may be interrupted anywhere: the user's rules and the rest of the managed file never change, and automatic applies keep every limit of the policy |
| RuntimeActivation.RollbackUndoesActivation | python/rill_xray_agent/rillml_artifact.py:1161-1238 | activating over a verified runtime and rolling back restores its bytes, record, version and id, verified |
| RuntimeActivation.ActivationKeepsAWayBackIff | python/rill_xray_agent/rillml_artifact.py:1170-1204 | after an activation a rollback is possible if and only if the old current or the old rollback verified |
| RuntimeActivation.RollbackIsOneWay | python/rill_xray_agent/rillml_artifact.py:1217-1238 | after a rollback the runtime verifies and no second rollback is possible |
| RuntimeActivation.RemovalOrderDecides | python/rill_xray_agent/rillml_artifact.py:918-949 | over any number of interrupted removals of the directory, recovery can go on if and only if the journal is removed before every snapshot that it lists (or all at once) |
| RuntimeActivation.RecoveryCanBeBlocked | python/rill_xray_agent/rillml_artifact.py:918-949 | a run that gets stuck: the files are back, a listed snapshot is gone, the journal is not |
| RuntimeActivation.Manager.RemoveTree | python/rill_xray_agent/rillml_artifact.py:918-949 | some entries are gone, in the order of the listing; with the journal first the directory stays fit for recovery |
| RuntimeActivation.Manager.RestoreTransaction | python/rill_xray_agent/rillml_artifact.py:918-949 | an uncommitted journal gives back the old triple, a committed one keeps the new; blocked only on a directory that is not whole, with the old triple in place |
| RuntimeActivation.Manager.Recover | python/rill_xray_agent/rillml_artifact.py:951-960 | from every crash point, crashes in recovery and in directory removal included, a completed recovery leaves exactly the old or the new triple; it is blocked exactly on a directory that is not whole |
| RuntimeActivation.Manager.RecoverThroughCrashes | python/rill_xray_agent/rillml_artifact.py:951-960 | with the journal first in every removal, recovery after recovery ends in the old or the new triple and is never blocked |
| RuntimeActivation.Manager.Activate | python/rill_xray_agent/rillml_artifact.py:1156-1210 | completed: the staged binary is the current one with its record, version, id and probe, running if and only if the record has its digest; the rollback side is the old current one if that verified and the old rollback otherwise; interrupted: recoverable to the old or the new triple, with everything that recovery needs in place |
| RuntimeActivation.Manager.Rollback | python/rill_xray_agent/rillml_artifact.py:1217-1238 | refused exactly when no rollback target verifies; completed, the rollback binary is the current one, verified, under its own record, version and id; interrupted, as activation |
| LittleEndian.BytesRoundTrip | python/rill_xray_agent/rillml_ed25519.py:131-131 | a number that fits is read back from its little-endian bytes |
| LittleEndian.SignedBytes | python/rill_xray_agent/rillml_ed25519.py:55-62 | 255 bits and a sign bit, packed into 32 bytes, are told apart again |
| PointGroup.DoubleAndAddIsTimes | python/rill_xray_agent/rillml_ed25519.py:45-52 | double-and-add is n-fold addition in any commutative group |
| PointGroup.TimesReduces | python/rill_xray_agent/rillml_ed25519.py:72-77 | scalars count modulo the order of the point |
| Ed25519.EdwardsMul | python/rill_xray_agent/rillml_ed25519.py:45-52 | the loop computes the double-and-add of its arguments |
| Ed25519.MulIsTimes | python/rill_xray_agent/rillml_ed25519.py:45-52 | on the curve that is n-fold addition, and stays on the curve |
| Ed25519.AddSolvesTheLaw | python/rill_xray_agent/rillml_ed25519.py:37-42 | a point is the sum of two if and only if it solves the addition law of the curve (section 5.1.4 of RFC 8032), wherever that defines one |
| Ed25519.RecoverBySign | python/rill_xray_agent/rillml_ed25519.py:22-29 | on the curve, the square root formula and the sign bit give the x coordinate |
| Congruence.SquareRootSquares | python/rill_xray_agent/rillml_ed25519.py:22-29 | modulo a prime that is 5 modulo 8 the formula finds a root of every square |
| Congruence.QuotientIs | python/rill_xray_agent/rillml_ed25519.py:23-41 | multiplying with the power q - 2 divides: it gives the one remainder whose product with the divisor is the dividend |
| Ed25519.PointRoundTrip | python/rill_xray_agent/rillml_ed25519.py:55-69 | decoding the encoding of a point of the group gives the point |
| Ed25519.DecodedPoint | python/rill_xray_agent/rillml_ed25519.py:61-69 | what is decoded is annihilated by L and has no other encoding |
| Ed25519.ClampedScalars | python/rill_xray_agent/rillml_ed25519.py:112-114 | a secret scalar is a multiple of eight between 2^254 and 2^255, and differs from the low 254 bits by nothing but that |
| Ed25519.SignatureEquation | python/rill_xray_agent/rillml_ed25519.py:119-131 | the signature scalar, reduced modulo L, satisfies the verification equation |
| Ed25519.VerifyAcceptsSign | python/rill_xray_agent/rillml_ed25519.py:79-131 | every signature that is produced is accepted, for every seed and message |
| Ed25519.PublicKeyIs | python/rill_xray_agent/rillml_ed25519.py:110-116 | the public key stands for the multiple of the base point by the clamped first half of the hashed seed |
| Ed25519.SecondHalfIsUnique | python/rill_xray_agent/rillml_ed25519.py:79-98 | for one key, one message and one first half at most one second half is accepted |
| Ed25519.OtherMessageIff | python/rill_xray_agent/rillml_ed25519.py:79-131 | a signature is accepted for another message if and only if L divides the difference of the two challenges times the secret scalar |
| Ed25519.OtherMessageNeedsCollision | python/rill_xray_agent/rillml_ed25519.py:79-131 | with L a prime and a scalar that it does not divide: if and only if the two challenges are equal |
| Ed25519.SameFirstHalfIff | python/rill_xray_agent/rillml_ed25519.py:124-127 | two signatures share their first half if and only if the nonces hashed from prefix and message are equal |
| Ed25519.UnreducedScalarIsRefused | python/rill_xray_agent/rillml_ed25519.py:91-93 | a scalar of L or more is refused |
| Ed25519.StandardConstants | python/rill_xray_agent/rillml_ed25519.py:16-34 | the constants have the values that they are computed from: q, L, d, i and the base point, which is on the curve |

## Left out

- File modes, owners, symlink and JSON type checks: a file is trusted or not; the locks are taken to exclude.
- Segment names: numbers stay below 10^6, so that name order is number order.
- EventJournal.Journal.AppendEvent: an `eventId` supplied by the caller is not modelled; the id is always the digest.
- The reading calls `read` and `verify` of the journal, which add filters to the same recovery.
- Events.SilentIffSameFingerprint: documents that the observer does not write are excluded; of those only the missing `safe` key is looked at.
- AuditLog.Log.AppendAndSeal: the segment files are one list of lines, and one line and one reservation are written at once; audit lines are not torn-safe in the code.
- An audit event that was reserved before its operation's intent became durable is appended by a later reconciliation without an operation.
- OperationLog.OperationLog.Execute: audit log and ledger are always configured, and no audit event is written outside an operation.
- ClosedLedger.Ledger.PutHashed: the byte limit of the ledger is not modelled, only the limit on entries.
- Decisions.Store.Handle: tombstones without metadata, from before they had any, are not among the runs; operations on other parts of the runtime state share the same log and are left out.
- Decisions: the stored copy of a payload is left out, its policy is a predicate.
- AutoPolicy and RootPolicy: a corrupt file blocks everything and is not modelled; calls complete, so a crash between the ledger write and the epoch write is not among the runs.
- RootTransaction.RootTransaction.Apply: removing a rejected directory is one step.
- RouteExecutor.Executor.Handle: ownership and modes in the spool, quarantine of bad entries, release gates and the receipt are plumbing around it; nobody else writes the managed file. Reconciling the ledger is one step.
- RouteCompiler.Compile: rules are objects, and keys that Rill never reads are carried along as text.
- RouteIntent: shadowing analysis, plan documents, their digests and the semantic fingerprint would add only bookkeeping.
- RuntimeActivation: staging, download and probing of the artifact; an exception inside the transaction runs the same restoration as recovery.
- Ed25519.VerifyAcceptsSign: hypotheses are that q is a prime (as Euclid's and Fermat's theorems say it), that -1/d is no square, that addition keeps to the curve and is associative there, and that L times the base point is the unit; for what is refused or unique also that no other multiple is but those of L (`ExactOrder`), and for collisions that L is a prime. The constants that the module computes at load time are given by their values.
- Sockets, peer credentials, doctor, health, backups, route history, release manifests and the installer.
