# Crash-safe protocols of the deployment code, in Dafny

A model of the repository's one-use deployment protocols and of the comparison and parsing code of
the fleet window, with proofs of what they are for. `dafny verify dfyconfig.toml` checks everything.

## What is modelled

**Receipts, journal and lifecycle** (`Receipts`, `Journal`, `Lifecycle`, `LaunchSafety`,
`LaunchPossible`, `ReceiptChain`, `Progress`, `LifecycleFacts`, `JournalFacts`, `CustodyCalls`).
Write-once receipt files, the volatile fresh-claim list and the calls that seal, claim and record. A
call is a function of the custody it finds and of what the operating system does to each write: the
file is not created, is left torn, is complete, or is complete but reported as failed. A crash
inside a call is that call with such an outcome followed by `Restart`, which keeps the files and
drops the list. The class `Custody` holds the same state in fields, and each of its methods is
proved equal to the function that the theorems are about. The list `_fresh_claim` is called `tokens`
here.

**Two-record disposal** (`Disposal`, `DisposalFacts`, `DisposalEngine`). Visible and durable
directory entries, the cache that says which records are known durable, publication by exclusive
rename and sync, crashes that drop any unsynced entries, and changes from outside that move a file's
pin so that a cached fact goes stale. Both closures share the protocol; e31 has a preserved stage
first.

**Send fence** (`SendLedger`, `SendCrash`, `SendFence`, `SendRounds`, `SendBudget`, `SendTables`).
The append-only ledger as text of tokens, one brace group per record, with torn and glued lines; its
fold; how much of it is synced; rounds that query, decide, claim, send and report, interleaved
arbitrarily, with operator clears, and power losses that keep the synced text and any part of the
rest.

**Installations** (`Tree`, `TreePaths`, `TreePlan`, `TreeFlat`, `Maintenance`, `MaintenanceSafety`,
`MaintenanceProgress`, `MaintenanceCalls`, `MaintenancePhase`, `Bootstrap`, `BootstrapSafety`). One
tree datatype serves the walked manifest, the manifest computed from captured names, planning and
applying. An installation is a sequence of small effects that may stop before or inside any of them.

**Qualification** (`Qualification`, `QualificationEnv`, `QualificationDriver`). The driver is a
class whose every outside interaction is a parameter with an arbitrary value. A ghost history of
effects is accepted by an automaton at all times, and the theorems are about accepted histories;
since every prefix of one is accepted, they hold at every moment, crashes included. The two
procedures have the same shape and share one method.

**Handoff** (`Handoff`). Open file descriptions with their offsets, and both sides of the challenge
as programs over byte streams that the environment may cut anywhere.

**Comparison and parsing** (`Strings`, `Order`, `StateDiff`, `StatePatch`, `StateRows`, `Inventory`,
`Hardlinks`, `InventoryDiff`, `InventoryFacts`, `InventoryLines`, `Xattrs`, `XattrListing`,
`XattrRefusals`, `Reconcile`, `OldWorkers`).

SHA-256 and canonical JSON are symbolic throughout: a digest is a constructor applied to what it
digests, so equal digests mean equal contents.

## What the proofs found

- The comment on `ledger_start` says that overlapping rounds can never both see NOT_SENT and both
  send. Between operator clears, claims obey this for all runs. Sends do not: a round that holds a
  claim across an operator clear can still send after it, and a new round can claim and send too.
  `UnsafeClearSendsTwice` reaches this from the start. `OneSendExactly` gives the exact condition on
  a state, and `ClearExactly` and `CleanClearExactly` give it at a clear.
- Corruption of the ledger is permanent exactly when it is in the synced part (`SpoiledForGood`).
- `ledger_start` answers `claimed` even when its line was glued to a tail without a newline, which
  spoils the ledger. `ClaimReadsBack` gives the exact condition, and such a tail is reachable.
- The maintenance plan checks parents but neither directory targets nor the tree bounds of the
  manifest it predicts, so an accepted plan can reserve UNKNOWN and then fail for good: there is a
  payload for each case. `InstallCompletes` says exactly when it does not.
- Neither a restart nor a terminal call by itself forbids a launch: before the bundle has been
  sealed, a process may still seal and claim afterwards, also after a terminal call that raised.
  `LaunchAfterRestart` and `LaunchAfterTerminalCall` say exactly when no launch can follow: the
  bundle name is taken, or the intent or the authorization is torn or leaves no room in time.
- The counter of known ditto omissions in `diff` is never increased: every classified attribute is a
  real difference.

## Model

| member | source | states |
|---|---|---|
| `LaunchSafety.AtMostOneLaunch` | deployment-artifacts/hr-s256-trusted-cut-v1/journal.py:475-530 | over every run of calls, failures and restarts, at most one `claim_one_launch` returns a launch |
| `LaunchPossible.LaunchAfterRestart` | deployment-artifacts/hr-s256-trusted-cut-v1/journal.py:516-530 | in every reachable state: no run that starts with a restart launches if and only if the bundle name is taken, or no authorization that leaves room to seal and claim stands or can still be given |
| `LaunchPossible.LaunchAfterTerminalCall` | deployment-artifacts/hr-s256-trusted-cut-v1/lifecycle.py:241-265 | the same if and only if for runs that start with an abandon, close or unknown call, whether it returned or raised |
| `LaunchPossible.LaunchFollowsRaisedUnknown` | deployment-artifacts/hr-s256-trusted-cut-v1/lifecycle.py:259-265 | a reachable witness: with intent and authorization on record and no bundle, an unknown call raises and a launch follows |
| `LaunchPossible.LaunchFollowsRestart` | deployment-artifacts/hr-s256-trusted-cut-v1/journal.py:475-530 | the same witness after a restart |
| `LaunchSafety.NoLaunchAfterRestart` | deployment-artifacts/hr-s256-trusted-cut-v1/journal.py:516-530 | the part a later step uses: with the bundle name taken, no claim succeeds in any run that starts with a restart |
| `LaunchSafety.LaunchIsOnRecord` | deployment-artifacts/hr-s256-trusted-cut-v1/journal.py:516-530 | when a claim returns, the attempt and the claim receipts read back valid, now and in every later state |
| `LaunchSafety.NoLaunchAfterTerminalCall` | deployment-artifacts/hr-s256-trusted-cut-v1/lifecycle.py:241-265 | with the bundle name taken, no claim succeeds in any run that starts with an abandon, close or unknown call, even one that raised, although the claim itself never looks for terminals |
| `LaunchSafety.AbandonedExcludesAttempt` | deployment-artifacts/hr-s256-trusted-cut-v1/lifecycle.py:249-252 | in every reachable state an ABANDONED tombstone or record and a launch attempt never coexist, torn files included |
| `LaunchSafety.TerminalsExclude` | deployment-artifacts/hr-s256-trusted-cut-v1/lifecycle.py:116-139 | UNKNOWN and the tombstone exclude each other, and a terminal record is the one that the tombstone beside it names |
| `LifecycleFacts.TombstoneNamesRecord` | deployment-artifacts/hr-s256-trusted-cut-v1/lifecycle.py:134-139 | in every reachable state a whole terminal record stands beside a whole tombstone that stores the record's own digest, phase, host, nonce, commitment and time |
| `LifecycleFacts.OneRecordPerTombstone` | deployment-artifacts/hr-s256-trusted-cut-v1/lifecycle.py:189-193 | one tombstone admits at most one record, in any directory and under either name |
| `LifecycleFacts.RecordSpelledOut` | deployment-artifacts/hr-s256-trusted-cut-v1/lifecycle.py:122-131 | a lifecycle record that reads back holds, field by field, its phase, the commitment on disk, the digest of the record it hangs off, a later time, and the observation its phase demands |
| `LifecycleFacts.CustodyUnbroken` | deployment-artifacts/hr-s256-trusted-cut-v1/lifecycle.py:53-99 | from startup to close the same child, window, lock and inhibited sources are observed |
| `LifecycleFacts.UnknownKeepsWindow` | deployment-artifacts/hr-s256-trusted-cut-v1/lifecycle.py:53-99 | an UNKNOWN after a startup names the same window and lock and no other child |
| `LifecycleFacts.SnapshotExact` | deployment-artifacts/hr-s256-trusted-cut-v1/lifecycle.py:268-291 | in every reachable state the snapshot is exactly one of four answers, told apart by which receipt reads back |
| `JournalFacts.AuthorizationSpelledOut` | deployment-artifacts/hr-s256-trusted-cut-v1/journal.py:65-108 | an authorization that reads back answers the intent on disk, with its fixed identities and ordered times |
| `JournalFacts.CommitmentSpelledOut` | deployment-artifacts/hr-s256-trusted-cut-v1/journal.py:193-322 | a commitment that reads back names the authorization and bundle on disk by their digests and copies the subject |
| `JournalFacts.SealedSpelledOut` | deployment-artifacts/hr-s256-trusted-cut-v1/journal.py:507-513 | the sealed phase is the one record of its commitment, at its time |
| `JournalFacts.AttemptSpelledOut` | deployment-artifacts/hr-s256-trusted-cut-v1/journal.py:507-530 | the attempt names commitment and sealed phase by digest and is later |
| `JournalFacts.ClaimSpelledOut` | deployment-artifacts/hr-s256-trusted-cut-v1/journal.py:516-530 | the claim names authorization and commitment by digest, at the time of the attempt |
| `JournalFacts.SealedBundleAgrees` | deployment-artifacts/hr-s256-trusted-cut-v1/journal.py:385-468 | a seal that returned found the bundle to agree with the authorization in everything they share, in time order |
| `JournalFacts.ClaimSpendsToken` | deployment-artifacts/hr-s256-trusted-cut-v1/journal.py:516-520 | in reachable states every claim, admitted or not, leaves no token |
| `JournalFacts.SealLeavesToken` | deployment-artifacts/hr-s256-trusted-cut-v1/journal.py:475-504 | only a seal that returns leaves a token: the digest of the commitment it wrote |
| `LaunchSafety.FrozenForever` | deployment-artifacts/hr-s256-trusted-cut-v1/lifecycle.py:116-119 | after UNKNOWN or a tombstone no later call, in any run, adds or changes any file |
| `LaunchSafety.UnknownReadsForever` | deployment-artifacts/hr-s256-trusted-cut-v1/lifecycle.py:180-188 | a recorded UNKNOWN reads back unchanged in every later state, although its parent is recomputed from the phases present |
| `LaunchSafety.NoLaunchIsTruthful` | deployment-artifacts/hr-s256-trusted-cut-v1/lifecycle.py:268-291 | when `snapshot` denies a launch, none succeeded or was attempted before and none can be in any continuation |
| `Lifecycle.ReadStable` | deployment-artifacts/hr-s256-trusted-cut-v1/lifecycle.py:142-198 | a lifecycle receipt that reads back keeps its value as files are added; the readbacks recurse on a rank over receipt kinds |
| `Journal.ReadbackStable` | deployment-artifacts/hr-s256-trusted-cut-v1/journal.py:193-322 | the same for the journal receipts |
| `ReceiptChain.ClosedChainReads` | deployment-artifacts/hr-s256-trusted-cut-v1/lifecycle.py:142-198 | if CLOSED reads back, every ancestor receipt down to the intent reads back |
| `ReceiptChain.ClosedChainIsOrdered` | deployment-artifacts/hr-s256-trusted-cut-v1/journal.py:193-322 | and the times along the chain are ordered as the protocol requires |
| `ReceiptChain.ClosedDigestDeterminesChain` | deployment-artifacts/hr-s256-trusted-cut-v1/lifecycle.py:122-198 | two directories with the same CLOSED digest hold the same receipts back to the intent and the bundle bytes |
| `Progress.SealReturns` | deployment-artifacts/hr-s256-trusted-cut-v1/journal.py:475-504 | sealing returns exactly when its checks pass, the four names are free and the four writes complete |
| `Progress.ClaimReturns` | deployment-artifacts/hr-s256-trusted-cut-v1/journal.py:516-530 | claiming returns exactly when the token and receipts admit it and both writes complete |
| `Progress.StartupReturns` | deployment-artifacts/hr-s256-trusted-cut-v1/lifecycle.py:228-232 | exactly when a startup record is written |
| `Progress.ConsumptionReturns` | deployment-artifacts/hr-s256-trusted-cut-v1/lifecycle.py:235-238 | exactly when a consumption record is written |
| `Progress.AbandonedReturns` | deployment-artifacts/hr-s256-trusted-cut-v1/lifecycle.py:249-252 | exactly when an abandonment is recorded |
| `Progress.ClosedReturns` | deployment-artifacts/hr-s256-trusted-cut-v1/lifecycle.py:255-256 | exactly when a close is recorded |
| `Progress.UnknownReturns` | deployment-artifacts/hr-s256-trusted-cut-v1/lifecycle.py:259-265 | exactly when an UNKNOWN is recorded |
| `CustodyCalls.WriteLoop` | deployment-artifacts/hr-s256-trusted-cut-v1/journal.py:325-358 | the partial-write loop leaves a prefix of the bytes, all of them exactly when it succeeds |
| `CustodyCalls.WriteNew` | deployment-artifacts/hr-s256-trusted-cut-v1/journal.py:325-358 | one exclusive create with its loop and sync yields the outcome the calls are told: torn exactly when a proper part of the bytes is on disk |
| `CustodyCalls.Custody.PutBytes` | deployment-artifacts/hr-s256-trusted-cut-v1/journal.py:325-358 | from the bytes up, the name holds the whole receipt exactly when the loop wrote every byte, and the call raises unless the sync passed too |
| `CustodyCalls.Custody.SealLaunchIntent` | deployment-artifacts/hr-s256-trusted-cut-v1/journal.py:361-370 | on the mutable directory and token list, the call is the transition that the run theorems quantify over: at most one new file, tokens untouched |
| `CustodyCalls.Custody.SealLaunchAuthorization` | deployment-artifacts/hr-s256-trusted-cut-v1/journal.py:373-382 | the transition for the authorization: written only under a valid intent that binds it |
| `CustodyCalls.Custody.SealBundleCommitment` | deployment-artifacts/hr-s256-trusted-cut-v1/journal.py:475-504 | four exclusive writes in order under a valid authorization, each read back, and the fresh token only after the last |
| `CustodyCalls.Custody.ClaimOneLaunch` | deployment-artifacts/hr-s256-trusted-cut-v1/journal.py:516-530 | the token is popped before anything can fail, and attempt and claim are written only under the commitment it names |
| `CustodyCalls.Custody.Startup` | deployment-artifacts/hr-s256-trusted-cut-v1/lifecycle.py:228-232 | refused beside a terminal or a consumption record; otherwise one record bound to the attempt |
| `CustodyCalls.Custody.Consumption` | deployment-artifacts/hr-s256-trusted-cut-v1/lifecycle.py:235-238 | refused beside a terminal; otherwise one record bound to the startup |
| `CustodyCalls.Custody.Abandon` | deployment-artifacts/hr-s256-trusted-cut-v1/lifecycle.py:249-252 | tokens are cleared before the first check; refused beside an attempt; the tombstone that binds the record comes before the record |
| `CustodyCalls.Custody.Close` | deployment-artifacts/hr-s256-trusted-cut-v1/lifecycle.py:255-256 | tokens are cleared first; tombstone before record, bound to the consumption |
| `CustodyCalls.Custody.Contain` | deployment-artifacts/hr-s256-trusted-cut-v1/lifecycle.py:259-265 | tokens are cleared first; refused beside a terminal; the record is bound to the last phase present |
| `Disposal.TerminalSurvivesWithAuthorization` | deployment-artifacts/b7-e32-pre-tx-closure-v1/src/v51_e32_closure_source.py:123-148 | at every crash point of every run, a surviving terminal record implies the surviving authorization record whose digest it names |
| `Disposal.StatusIsDurable` | deployment-artifacts/b7-e32-pre-tx-closure-v1/src/v51_e32_closure_source.py:254-260 | status shows a terminal disposal only when both records survive every continuation and every crash |
| `Disposal.RepeatIsSilent` | deployment-artifacts/b7-e31-partial-stage-closure-v1/src/v50_e31_closure_source.py:270-297 | after completion a repeat renames and syncs nothing, in both closures |
| `Disposal.DisposalCompletes` | deployment-artifacts/b7-e31-partial-stage-closure-v1/src/v50_e31_closure_source.py:177-184 | from every reachable state an undisturbed disposal completes and status then shows it |
| `DisposalFacts.ViewExact` | deployment-artifacts/b7-e32-pre-tx-closure-v1/src/v51_e32_closure_source.py:254-260 | in every reachable state, status shows the disposal exactly when it is admitted and the cached pin of each record is the pin of the entry that stands there; both records are then the exact ones |
| `DisposalFacts.ViewDropsStale` | deployment-artifacts/b7-e32-pre-tx-closure-v1/src/v51_e32_closure_source.py:204-207 | asking drops the first stale pin and nothing else |
| `DisposalFacts.CrashHidesStatus` | deployment-artifacts/b7-e31-partial-stage-closure-v1/src/v50_e31_closure_source.py:312-321 | after a crash status shows nothing until a disposal has established both records |
| `DisposalFacts.WrongRecordStops` | deployment-artifacts/b7-e32-pre-tx-closure-v1/src/v51_e32_closure_source.py:193-202 | a record with other bytes, or a terminal without its authorization, stops every call before a rename or sync, and status shows nothing |
| `DisposalFacts.DisposeE32Exactly` | deployment-artifacts/b7-e32-pre-tx-closure-v1/src/v51_e32_closure_source.py:214-237 | in every reachable state: exactly when an e32 disposal returns, and that it has then renamed exactly what was missing and synced exactly what was not known |
| `DisposalFacts.DisposeE31Exactly` | deployment-artifacts/b7-e31-partial-stage-closure-v1/src/v50_e31_closure_source.py:270-297 | the same for e31, where a preserved stage needs both records to stand |
| `DisposalEngine.ClosureEngine.PublishRecord` | deployment-artifacts/b7-e31-partial-stage-closure-v1/src/v50_e31_closure_source.py:243-268 | exclusive rename, sync and cache update are the specified transition of the engine |
| `DisposalEngine.ClosureEngine.EstablishRecord` | deployment-artifacts/b7-e32-pre-tx-closure-v1/src/v51_e32_closure_source.py:214-220 | publish if absent, otherwise make a found record durable once |
| `DisposalEngine.ClosureEngine.ViewStatus` | deployment-artifacts/b7-e32-pre-tx-closure-v1/src/v51_e32_closure_source.py:204-207 | asking for status drops stale pins, stops at the first unknown record, and shows the disposal only when both are known |
| `DisposalEngine.ClosureEngine.ClosureDisposeE32` | deployment-artifacts/b7-e32-pre-tx-closure-v1/src/v51_e32_closure_source.py:222-237 | the whole e32 disposal as a method over mutable state |
| `DisposalEngine.ClosureEngine.ClosureDisposeE31` | deployment-artifacts/b7-e31-partial-stage-closure-v1/src/v50_e31_closure_source.py:270-297 | the whole e31 disposal, with its preserved stage |
| `SendFence.AtMostOneClaim` | deployment-artifacts/workflow-dispatch-recovery-v1/dispatch_round_tools.py:127-145 | for any interleaving of rounds with stale queries, with torn appends and power losses that take any unsynced text, a node visit gets at most one successful claim between operator clears |
| `SendRounds.SendAnswersDurableClaim` | deployment-artifacts/workflow-dispatch-recovery-v1/dispatch_round_tools.py:98-103 | every send answers its own claim, one send a claim, whose SEND_STARTED line lies within what was synced when it was sent, and is still in the text after every later power loss |
| `SendRounds.SendsBoundedByClears` | deployment-artifacts/workflow-dispatch-recovery-v1/dispatch_round_tools.py:186-205 | over any run, the sends of a visit are at most its operator clears plus one |
| `SendBudget.OneSendExactly` | deployment-artifacts/workflow-dispatch-recovery-v1/dispatch_round_tools.py:127-205 | from any state: every continuation without an unsafe clear sends a visit at most once between clears, if and only if the sends since the last clear, the claims still held, and one more if the visit can be claimed, are at most one |
| `SendBudget.OneSendBetweenSafeClears` | deployment-artifacts/workflow-dispatch-recovery-v1/dispatch_round_tools.py:127-145 | so from the start at most one send between clears, in every run where no clear completes, even in part, while a round holds a claim; refused clears do not matter |
| `SendBudget.ClearExactly` | deployment-artifacts/workflow-dispatch-recovery-v1/dispatch_round_tools.py:186-205 | for every clear that changes the file, in every reachable state: what follows is sent at most once before the next clear if and only if held claims, with one more if the visit can now be claimed, are at most one |
| `SendBudget.CleanClearExactly` | deployment-artifacts/workflow-dispatch-recovery-v1/dispatch_round_tools.py:186-205 | for a clear that returns over a ledger whose last line has ended: if and only if no round holds a claim of the visit |
| `SendBudget.UnsafeClearSendsTwice` | deployment-artifacts/workflow-dispatch-recovery-v1/dispatch_round_tools.py:186-205 | a witness from the start: one round claims, the operator clears, and two sends follow with no clear between them |
| `SendBudget.RefusedClearIsSafe` | deployment-artifacts/workflow-dispatch-recovery-v1/dispatch_round_tools.py:189-195 | a clear refused for its euid or a missing reason is safe whoever holds a claim |
| `SendFence.FoldRefinesMachine` | deployment-artifacts/workflow-dispatch-recovery-v1/dispatch_round_tools.py:148-205 | without a power loss the folded ledger moves each visit only along the allowed transitions; confirmed and unknown leave only by a root clear with a reason |
| `SendFence.OutcomeStands` | deployment-artifacts/workflow-dispatch-recovery-v1/dispatch_round_tools.py:148-183 | a durable confirmed or unknown outcome leaves only by an operator clear, over every run and every power loss |
| `SendFence.RecordedStands` | deployment-artifacts/workflow-dispatch-recovery-v1/dispatch_round_tools.py:148-183 | a record call that returned its outcome has made it durable in that sense |
| `SendFence.UntrustedForever` | deployment-artifacts/workflow-dispatch-recovery-v1/dispatch_round_tools.py:74-108 | an unparseable line is absorbing until power is lost: no later start, record or clear changes the text or claims anything |
| `SendFence.SpoiledForGood` | deployment-artifacts/workflow-dispatch-recovery-v1/dispatch_round_tools.py:74-108 | in every reachable state: the ledger can never be trusted again if and only if the corruption is in its synced part; unsynced corruption can vanish with the power |
| `SendFence.ClaimReadsBack` | deployment-artifacts/workflow-dispatch-recovery-v1/dispatch_round_tools.py:98-103 | a claim reads back if and only if the text it was appended to ended in a newline; otherwise it spoils the ledger |
| `SendFence.TailWithoutNewline` | deployment-artifacts/workflow-dispatch-recovery-v1/dispatch_round_tools.py:98-103 | a trusted ledger without its last newline is reachable |
| `SendCrash.SurvivorReads` | deployment-artifacts/workflow-dispatch-recovery-v1/dispatch_round_tools.py:98-103 | what a power loss during or after an append leaves, if it can be read, reads like something older or like the old text with at most the new record on top |
| `SendLedger.ParseAppend` | deployment-artifacts/workflow-dispatch-recovery-v1/dispatch_round_tools.py:74-103 | appending a whole line puts the record on top, or spoils the ledger when the tail had lost its newline |
| `SendLedger.ParseTorn` | deployment-artifacts/workflow-dispatch-recovery-v1/dispatch_round_tools.py:98-103 | an append torn anywhere leaves the old table, the record on top, or a spoiled ledger |
| `SendTables.StartTable` | deployment-artifacts/workflow-dispatch-recovery-v1/dispatch_round_tools.py:127-145 | a readable visit that was not sent is claimed and reads SEND_STARTED; every other one is told its state and nothing is written |
| `SendTables.RecordTable` | deployment-artifacts/workflow-dispatch-recovery-v1/dispatch_round_tools.py:148-183 | an outcome after a start is appended and answered as given, one without a start as UNKNOWN; a final outcome changes nothing and is answered as it is |
| `SendTables.RecordReads` | deployment-artifacts/workflow-dispatch-recovery-v1/dispatch_round_tools.py:148-183 | over a ledger whose last line has ended, the recorded outcome reads back and no other visit changes |
| `SendTables.ClearTable` | deployment-artifacts/workflow-dispatch-recovery-v1/dispatch_round_tools.py:186-205 | for root with a reason every fenced visit goes back to NOT_SENT; each refusal in its case |
| `SendTables.QueryTable` | deployment-artifacts/workflow-dispatch-recovery-v1/dispatch_round_tools.py:111-124 | the query answers the folded state, or that the ledger is not trusted |
| `SendTables.FailedWrites` | deployment-artifacts/workflow-dispatch-recovery-v1/dispatch_round_tools.py:98-103 | a write that does not return leaves a longer text and no call answers success |
| `SendTables.ClaimNeedsDecision` | deployment-artifacts/workflow-dispatch-recovery-v1/dispatch_round_tools.py:256-281 | a round claims only what it saw as not sent, within capacity, resolved, neither quarantined nor sent in this round |
| `SendTables.RoundCompletes` | deployment-artifacts/workflow-dispatch-recovery-v1/dispatch_round_tools.py:111-183 | an undisturbed round of a visit that was never sent claims it, sends it once and leaves its outcome readable |
| `SendLedger.Ledger.ParseUnlocked` | deployment-artifacts/workflow-dispatch-recovery-v1/dispatch_round_tools.py:74-95 | the parsing loop computes the fold of the lines |
| `SendLedger.Ledger.LedgerStart` | deployment-artifacts/workflow-dispatch-recovery-v1/dispatch_round_tools.py:127-145 | claims only over a trusted fold where the visit is not sent, and appends before it answers |
| `SendLedger.Ledger.LedgerRecord` | deployment-artifacts/workflow-dispatch-recovery-v1/dispatch_round_tools.py:148-183 | appends an outcome only after a start, UNKNOWN where there is none, and nothing over a final state |
| `SendLedger.Ledger.LedgerClear` | deployment-artifacts/workflow-dispatch-recovery-v1/dispatch_round_tools.py:186-205 | appends only for euid 0 with a reason, over a trusted fold |
| `Tree.Walker.Walk` | deployment-artifacts/hr-s256-trusted-cut-v1/maintenance.py:77-103 | the recursive walk computes exactly the manifest of the tree, and refuses only trees above a bound |
| `Tree.TotalIsSum` | deployment-artifacts/hr-s256-trusted-cut-v1/maintenance.py:73-103 | the running total is the sum over the manifest, and the list has no duplicate path |
| `TreePaths.EntriesLookup` | deployment-artifacts/hr-s256-trusted-cut-v1/maintenance.py:73-103 | the manifest lists exactly the paths where a file can be read, with the entry of its bytes |
| `TreePaths.ReplaceSucceeds` | deployment-artifacts/hr-s256-trusted-cut-v1/maintenance.py:184-200 | a replacement succeeds exactly when the parent is a directory and the target is not one |
| `TreePaths.ReplaceReads` | deployment-artifacts/hr-s256-trusted-cut-v1/maintenance.py:184-200 | a replacement changes what is read at its own path and nothing else |
| `TreePlan.Plan` | deployment-artifacts/hr-s256-trusted-cut-v1/maintenance.py:110-120 | the dictionary loop predicts the planned manifest exactly when the walk is within bounds and every parent exists |
| `TreePlan.PlanCommutes` | deployment-artifacts/hr-s256-trusted-cut-v1/maintenance.py:110-120 | for every tree and delta, applying succeeds exactly when parents exist and no target is a directory, and then the walked manifest is the predicted one |
| `TreePlan.VerifyAgreesWithPlan` | deployment-artifacts/hr-s256-trusted-cut-v1/maintenance.py:213-219 | after applying, the walk gives the predicted manifest exactly when the prediction is within the file and byte bounds, which the plan itself does not check |
| `TreePlan.ApplyReads` | deployment-artifacts/hr-s256-trusted-cut-v1/maintenance.py:258-265 | after applying, each path of the delta holds its last bytes and every other path what it held |
| `TreeFlat.FlatIsWalked` | deployment-artifacts/original-router-proof-executor/compile_admin_fixed_shim.py:144-161 | the manifest computed from captured names equals the walked one exactly when every directory has a file beneath it |
| `TreeFlat.DirPathsCount` | deployment-artifacts/original-router-proof-executor/admin_package.py:114-133 | the walk counts each directory path once |
| `TreeFlat.SplitJoin` | deployment-artifacts/original-router-proof-executor/compile_admin_fixed_shim.py:144-161 | splitting a manifest name gives back the path it was joined from |
| `MaintenanceSafety.ReservedBeforeApplied` | deployment-artifacts/hr-s256-trusted-cut-v1/maintenance.py:222-286 | in every crash state a changed byte implies a receipt, and INSTALLED_WAITING implies that the tree is the base with the whole delta applied, with the app digest and the sealed routes |
| `MaintenanceSafety.ReceiptBlocks` | deployment-artifacts/hr-s256-trusted-cut-v1/maintenance.py:241-257 | any receipt freezes the disk over all later runs, so the delta is applied by at most one call; an uncommitted receipt refuses every later promotion and handoff |
| `MaintenanceSafety.ManifestFixesBytes` | deployment-artifacts/hr-s256-trusted-cut-v1/maintenance.py:213-219 | a tree whose walk gives the planned manifest holds the sealed bytes at every path of the delta |
| `MaintenanceSafety.HandoffSeesExactTargets` | deployment-artifacts/hr-s256-trusted-cut-v1/maintenance.py:301-315 | a granted handoff saw the committed receipt and exact targets |
| `MaintenanceSafety.OneHandoffPerLife` | deployment-artifacts/hr-s256-trusted-cut-v1/maintenance.py:301-315 | a run grants at most one handoff per process life |
| `MaintenanceSafety.FileCycle` | deployment-artifacts/hr-s256-trusted-cut-v1/maintenance.py:184-200 | a staged and renamed temporary is the plain replacement and leaves nothing behind |
| `MaintenanceProgress.InstallCompletes` | deployment-artifacts/hr-s256-trusted-cut-v1/maintenance.py:247-278 | an accepted plan reaches its committed receipt exactly when nothing stops it, no target is a directory, no temporary name is taken and the predicted tree is within bounds |
| `MaintenanceProgress.PlanAcceptsDirectoryTarget` | deployment-artifacts/hr-s256-trusted-cut-v1/maintenance.py:110-141 | a payload that passes every check, over a tree where its target is a directory: UNKNOWN is reserved and the installation never completes |
| `MaintenanceProgress.PlanAcceptsTooLarge` | deployment-artifacts/hr-s256-trusted-cut-v1/maintenance.py:99-120 | the same over a tree that is exactly as large as the walk allows |
| `MaintenanceCalls.PromoteReturns` | deployment-artifacts/hr-s256-trusted-cut-v1/maintenance.py:222-286 | in every reachable state: exactly when a promotion returns, over a committed receipt and over none, and that it then waits over a committed receipt |
| `MaintenanceCalls.PromoteFailsClosed` | deployment-artifacts/hr-s256-trusted-cut-v1/maintenance.py:225-283 | one attempt per process; a failure past the package check holds custody and grants nothing |
| `MaintenanceCalls.OnlySealedPackages` | deployment-artifacts/hr-s256-trusted-cut-v1/maintenance.py:123-141 | every call that returns or changes the disk was given a package within the stated bounds, scope and distinct paths, written out |
| `MaintenanceCalls.HandoffReturns` | deployment-artifacts/hr-s256-trusted-cut-v1/maintenance.py:301-315 | exactly when a handoff is granted; it is spent either way and writes nothing |
| `MaintenancePhase.Phase.Apply` | deployment-artifacts/hr-s256-trusted-cut-v1/maintenance.py:257-275 | the loops over files and routes perform exactly the specified sequence of effects, stopped where the environment stops it |
| `MaintenancePhase.Phase.PromoteWaiting` | deployment-artifacts/hr-s256-trusted-cut-v1/maintenance.py:222-286 | one attempt per process; readonly over a committed receipt, otherwise plan, reserve, apply; any failure holds custody |
| `MaintenancePhase.Phase.HandoffWaiting` | deployment-artifacts/hr-s256-trusted-cut-v1/maintenance.py:301-315 | eligibility is spent by every call, and granted only over the committed receipt and exact targets |
| `BootstrapSafety.InstallationIsExact` | deployment-artifacts/hr-s256-trusted-cut-v1/bootstrap.py:146-222 | in every crash state a changed artifact implies a receipt, COMMITTED implies all four exact, an authority the run published implies the other three exact, and a file found in place is never touched |
| `BootstrapSafety.ReceiptBlocks` | deployment-artifacts/hr-s256-trusted-cut-v1/bootstrap.py:169-180 | any receipt freezes the disk, and an UNKNOWN or torn one refuses every later call |
| `BootstrapSafety.PinsAreTruthful` | deployment-artifacts/hr-s256-trusted-cut-v1/bootstrap.py:214-222 | activation pins are set only over a committed, exact installation, to the digests of the authority file and the scope file in place |
| `BootstrapSafety.ReturnSetsPins` | deployment-artifacts/hr-s256-trusted-cut-v1/bootstrap.py:214-222 | a call that returns has set both pins, a failure inside clears them |
| `BootstrapSafety.OneCallPerProcess` | deployment-artifacts/hr-s256-trusted-cut-v1/bootstrap.py:151-153 | a second call in a process is refused and changes nothing |
| `BootstrapSafety.ReturnsExactly` | deployment-artifacts/hr-s256-trusted-cut-v1/bootstrap.py:146-222 | exactly when a call returns |
| `BootstrapSafety.PublishKeepsOrder` | deployment-artifacts/hr-s256-trusted-cut-v1/bootstrap.py:204-206 | publication in order, cut anywhere, leaves an artifact present only if all earlier ones are exact |
| `Bootstrap.Installer.PublishInOrder` | deployment-artifacts/hr-s256-trusted-cut-v1/bootstrap.py:126-140 | the publication loop is the specified sequence |
| `Bootstrap.Installer.InstallationBootstrap` | deployment-artifacts/hr-s256-trusted-cut-v1/bootstrap.py:146-222 | one attempt per process; the pins are set on return and cleared by every failure inside |
| `Qualification.PhasesInOrderOneChild` | deployment-artifacts/original-router-proof-executor/driver.py:331-361 | at every moment of an allowed history the launches are the first phases in order and at most one owned child has not exited |
| `Qualification.UnknownIsLast` | deployment-artifacts/original-router-proof-executor/driver.py:382-405 | nothing follows UNKNOWN in an allowed history: no launch, stop or seal |
| `Qualification.SealedHistory` | deployment-artifacts/original-router-proof-executor/procedure.py:119-180 | once a proof name is claimed the whole history is one script: three phases in order, one turn and one completed stop each, then the outputs in order; generations and turn numbers strictly increase and runtimes are distinct |
| `QualificationDriver.Driver.NextContext` | deployment-artifacts/original-router-proof-executor/driver.py:331-360 | succeeds exactly for the next of the three phases, unknown unset and checks passed; the phase is consumed before its launch can fail |
| `QualificationDriver.Driver.Continuity` | deployment-artifacts/original-router-proof-executor/driver.py:362-380 | passes exactly when unknown is unset and the check passes; every failure leaves UNKNOWN |
| `QualificationDriver.Driver.StopOwnedChild` | deployment-artifacts/original-router-proof-executor/driver.py:382-405 | succeeds exactly for a running owned child whose checks pass; the history stays allowed |
| `QualificationDriver.Driver.LaunchPhase` | deployment-artifacts/original-router-proof-executor/driver.py:556-608 | succeeds exactly for the next phase with no child running and every check passed; the history stays allowed |
| `QualificationDriver.Driver.QualificationStart` | deployment-artifacts/original-router-proof-executor/deployment.py:77-99 | a start callback that fails early touches nothing; any other one launches or leaves UNKNOWN |
| `QualificationDriver.Driver.DeployOriginal` | deployment-artifacts/original-router-proof-executor/deployment.py:77-124 | from an untouched driver it succeeds exactly when the deployment passes and no start callback leaves UNKNOWN, however many there are and whatever is swallowed |
| `QualificationEnv.ExactlyOneStart` | deployment-artifacts/original-router-proof-executor/deployment.py:77-99 | the deployment launches once exactly when one callback passes and every other one is harmless |
| `QualificationDriver.Driver.ObservedTurn` | deployment-artifacts/original-router-proof-executor/procedure.py:183-190 | a turn is observed once, of the running child |
| `QualificationDriver.Driver.AcceptTurn` | deployment-artifacts/original-router-proof-executor/procedure.py:93-116 | a turn is added exactly when healthy, of a new runtime, and checked against the previous one |
| `QualificationEnv.TurnChecked` | deployment-artifacts/original-router-proof-executor/procedure.py:93-116 | that check spelled out: positive and matching generation, not before the start, digests well formed, and later than and different from the turn before |
| `QualificationDriver.Driver.SealOwned` | deployment-artifacts/original-router-proof-executor/procedure.py:119-151 | succeeds exactly with three turns, a wall clock not behind them, both names free and both writes complete; then four outputs in order |
| `QualificationDriver.Driver.SequenceOwned` | deployment-artifacts/original-router-proof-executor/procedure.py:154-180 | from an untouched driver it succeeds exactly when everything passes, and its history is then the full script |
| `QualificationDriver.Driver.Run` | deployment-artifacts/original-router-proof-executor/driver.py:638-676 | a run seals exactly when the driver is admitted and unclaimed and every check, start, turn and write passes; its history is then the three phases and four outputs written out; otherwise UNKNOWN, parked in the admin branch once an effect has started |
| `Handoff.Kernel.SameOpenFileDescription` | deployment-artifacts/hr-s256-trusted-cut-v1/handoff.py:51-66 | true exactly when both descriptors share one description, and both offsets are restored |
| `Handoff.ApprovedExactly` | deployment-artifacts/hr-s256-trusted-cut-v1/handoff.py:101-151 | the root approves exactly when the first 64 bytes that arrived are the response to its binding and exactly one descriptor came, of the window's file and description, the frame fits and both sends complete |
| `Handoff.WrongAnswerRefused` | deployment-artifacts/hr-s256-trusted-cut-v1/handoff.py:131-140 | any other answer or descriptors: the root has written its frame and nothing else |
| `Handoff.ChildAcceptsOnlyVerified` | deployment-artifacts/hr-s256-trusted-cut-v1/handoff.py:159-196 | whatever part of the root's bytes arrives, a child accepts only the root's own binding, and only if the bytes and the descriptor that the root received proved the peer |
| `Handoff.ChallengedAtMostOnce` | deployment-artifacts/hr-s256-trusted-cut-v1/handoff.py:88-107 | over any calls on one object, everything written is the output of at most one challenge |
| `Handoff.OneLaunchAgreement` | deployment-artifacts/hr-s256-trusted-cut-v1/handoff.py:69-196 | both together, over any calls on one object |
| `Handoff.HonestExchange` | deployment-artifacts/hr-s256-trusted-cut-v1/handoff.py:101-151 | an honest answer, however it is cut into receives, is approved and accepted |
| `Handoff.OneLaunchHandoff.TakeChildFds` | deployment-artifacts/hr-s256-trusted-cut-v1/handoff.py:88-91 | the launch is claimed once |
| `Handoff.OneLaunchHandoff.Challenge` | deployment-artifacts/hr-s256-trusted-cut-v1/handoff.py:101-151 | the challenge on mutable flags writes exactly the specified bytes and restores the offsets |
| `Handoff.ChildProve` | deployment-artifacts/hr-s256-trusted-cut-v1/handoff.py:159-196 | the reading loop accepts exactly what the specification accepts |
| `StatePatch.DiffRebuilds` | scripts/fleet-window/window_helper_core.py:157-175 | for all documents, the rows read as addresses into the one before rebuild the one after, and the flipped rows lead back |
| `StatePatch.EmptyIffEqual` | scripts/fleet-window/window_helper_core.py:157-175 | the diff is empty exactly when the typed documents are equal |
| `StatePatch.RowsApart` | scripts/fleet-window/window_helper_core.py:157-175 | no row's pointer equals or extends another's |
| `StatePatch.DiffReversed` | scripts/fleet-window/window_helper_core.py:157-175 | exchanging the documents flips every row, in the same order |
| `StatePatch.UnescapeEscape` | scripts/fleet-window/window_helper_core.py:160-160 | token decoding as in section 3 of RFC 6901 inverts the escapes, and an escaped token holds no slash |
| `StateRows.RowsAreDeep` | scripts/fleet-window/window_helper_core.py:161-175 | a replacement is of unequal values that are not both lists and not both objects: the rows go as deep as the shapes agree |
| `StateRows.RowsInOrder` | scripts/fleet-window/window_helper_core.py:163-174 | at every container the rows come in the order of its keys or indices |
| `Order.LessSpelledOut` | scripts/fleet-window/window_helper_core.py:163-163 | the order of keys is by the first differing character |
| `StateDiff.StateDiff` | scripts/fleet-window/window_helper_core.py:157-175 | the recursive method with its loops produces exactly the specified rows |
| `Inventory.Export` | scripts/fleet-window/stage_06_v2.py:318-349 | the chunks concatenate to the rows, are bounded and of one first component, and end only when full or when the component changes |
| `Inventory.FirstComponentIs` | scripts/fleet-window/stage_06_v2.py:337-337 | the first component is the part before the first slash |
| `Inventory.ChunkingUnique` | scripts/fleet-window/stage_06_v2.py:334-346 | these rules determine the chunks |
| `Inventory.IterRows` | scripts/fleet-window/stage_06_v2.py:515-520 | reading back yields the concatenation |
| `Inventory.SelectRows` | scripts/fleet-window/stage_06_v2.py:334-334 | the selected rows are strictly sorted and are exactly those of the table |
| `Inventory.NormalizeInjective` | scripts/fleet-window/stage_06_v2.py:523-527 | normalization loses nothing: equal normal forms mean equal raw values |
| `Hardlinks.ExportGroups` | scripts/fleet-window/stage_06_v2.py:351-364 | the groups written are exactly the partition of paths by inode, for inodes with more than one file, each sorted and once |
| `Hardlinks.PartitionIs` | scripts/fleet-window/stage_06_v2.py:354-357 | a group is all the paths of one device and inode that at least two files share |
| `Hardlinks.FileLines` | scripts/fleet-window/stage_06_v2.py:352-366 | the written file splits back into exactly the encoded groups |
| `Hardlinks.ReadLines` | scripts/fleet-window/stage_06_v2.py:632-645 | blocks of any size yield the lines of the whole file and what follows its last newline |
| `Hardlinks.Topology` | scripts/fleet-window/stage_06_v2.py:623-648 | the sorted digests of the lines; refused exactly for a repeated digest or an unterminated last line |
| `Hardlinks.SamePartition` | scripts/fleet-window/stage_06_v2.py:623-648 | two exported tables have the same sorted digests if and only if they partition the same paths in the same way, whatever the inode numbers |
| `InventoryDiff.Comparison.MergeRows` | scripts/fleet-window/stage_06_v2.py:668-693 | the merge loop with its counters writes exactly the specified lines, and is rejected exactly when the specification is |
| `InventoryDiff.Comparison.Compare` | scripts/fleet-window/stage_06_v2.py:651-719 | passes exactly when no line is written; rejected exactly for unreadable attributes, a repeated group or an unterminated group file |
| `InventoryLines.LinesExact` | scripts/fleet-window/stage_06_v2.py:671-691 | a line is written if and only if it is due: missing or added with the row on its own side, its ACL line, or one line per differing field with the value before and the value after |
| `InventoryLines.LinesOfOneSide` | scripts/fleet-window/stage_06_v2.py:671-680 | a path that only one side has gives exactly two lines, the row first |
| `InventoryLines.LinesOfBothSides` | scripts/fleet-window/stage_06_v2.py:682-691 | the lines of a path that both sides have come in field order, each field at most once |
| `InventoryLines.ClassesAre` | scripts/fleet-window/stage_06_v2.py:530-542 | an attribute is classified if and only if its values differ, with both of them |
| `InventoryLines.ClassLinesExact` | scripts/fleet-window/stage_06_v2.py:684-688 | and only for paths that both sides have |
| `InventoryLines.AclCounted` | scripts/fleet-window/stage_06_v2.py:663-667 | `acl_differences` is the number of lines about an ACL |
| `InventoryFacts.MergeIsExact` | scripts/fleet-window/stage_06_v2.py:668-693 | for every path, the lines about it are exactly those due for its two rows: missing, added, or one per differing field |
| `InventoryFacts.MergeAscends` | scripts/fleet-window/stage_06_v2.py:668-693 | the lines come in ascending order of path, which with the lines of each path fixes the whole artifact |
| `InventoryFacts.MergeRejects` | scripts/fleet-window/stage_06_v2.py:530-542 | the merge is rejected exactly when a common path has attributes that were not read as OK |
| `InventoryFacts.ChangedCountsPaths` | scripts/fleet-window/stage_06_v2.py:668-693 | `diff_paths` is the number of distinct paths with a line |
| `InventoryFacts.ClassesTellAttributes` | scripts/fleet-window/stage_06_v2.py:530-542 | a path has classified attributes exactly when raw, and exactly when normalized, attributes differ |
| `InventoryFacts.NoKnownOmissions` | scripts/fleet-window/stage_06_v2.py:530-542 | the counter of known ditto omissions is always zero: every classified attribute counts as a real difference |
| `InventoryFacts.GroupsAreDifference` | scripts/fleet-window/stage_06_v2.py:694-709 | the group lines are the symmetric difference of the two group sets |
| `InventoryFacts.GroupsCount` | scripts/fleet-window/stage_06_v2.py:694-709 | and `hardlink_differences` is its size |
| `InventoryFacts.ZeroIffAgree` | scripts/fleet-window/stage_06_v2.py:651-719 | for two sorted row lists and group digests: zero is reported exactly when rows and digests agree |
| `InventoryFacts.TablesAgree` | scripts/fleet-window/stage_06_v2.py:318-366 | for two entry tables, exported, chunked, written out and read back: zero exactly when they have the same paths with the same compared fields and the same partition into hardlink groups |
| `XattrListing.ParsePrint` | scripts/fleet-window/window_preimage_xattr.py:16-42 | parsing inverts the canonical printer for every list of attributes of known paths, empty values included |
| `XattrListing.EveryMapRoundTrips` | scripts/fleet-window/window_preimage_xattr.py:16-42 | every map of known paths to attributes has a listing, and it parses back to exactly that map |
| `XattrListing.ParsePrintMap` | scripts/fleet-window/window_preimage_xattr.py:16-42 | so does any listing of the map, whatever its order |
| `XattrListing.Collected` | scripts/fleet-window/window_preimage_xattr.py:16-42 | what is parsed holds every printed attribute under its key, and nothing else |
| `XattrListing.TamperedListing` | scripts/fleet-window/window_preimage_xattr.py:29-41 | of all lists made of one value's rows only the printed one is accepted: dropping, repeating or moving rows is rejected |
| `XattrRefusals.ParsePrintExactly` | scripts/fleet-window/window_preimage_xattr.py:20-28 | a printed listing of known paths is accepted exactly when no attribute is listed twice |
| `XattrRefusals.UnterminatedRefused` | scripts/fleet-window/window_preimage_xattr.py:20-41 | a value without its length line is refused, at the end and before another header |
| `XattrRefusals.UnknownPathRefused` | scripts/fleet-window/window_preimage_xattr.py:22-24 | an attribute of an unknown path is refused |
| `XattrRefusals.RowTooLong` | scripts/fleet-window/window_preimage_xattr.py:37-39 | a row of more than sixteen octets is refused |
| `XattrListing.ReadsRow` | scripts/fleet-window/window_preimage_xattr.py:34-40 | a row reads back as its offset and octets, whatever its text column says |
| `XattrListing.ReadsHeader` | scripts/fleet-window/window_preimage_xattr.py:20-28 | a header reads back as its path and name |
| `Xattrs.ParseXattrs` | scripts/fleet-window/window_preimage_xattr.py:16-42 | the loop over current, value and ended is the specified parser |
| `XattrListing.ParsedHasNoEmpty` | scripts/fleet-window/window_preimage_xattr.py:29-33 | a parsed listing never holds a path without attributes |
| `Reconcile.XattrMapInjective` | scripts/fleet-window/window_preimage_xattr.py:65-68 | the digest map of a tree determines its attributes |
| `Reconcile.Compare` | scripts/fleet-window/window_preimage_xattr.py:93-99 | the nested loops list, in order, exactly the empty attributes that the target lacks, and notice every other difference |
| `Reconcile.Target.ReconcileXattrs` | scripts/fleet-window/window_preimage_xattr.py:90-111 | returns exactly when the source matches, only empty attributes are missing, their paths can be written and the writes succeed; then the target equals the source; any other difference means that nothing was written |
| `OldWorkers.Family` | scripts/fleet-window/window_helper_core.py:124-130 | the fixpoint loop ends for every table and yields the least set with the root that is closed under children |
| `OldWorkers.LeastIsDescent` | scripts/fleet-window/window_helper_core.py:124-130 | which is the root with its descendants, cycles or not |
| `OldWorkers.Workers` | scripts/fleet-window/window_helper_core.py:124-132 | exactly the listed descendants and detached trusted-tree processes, each once, by ascending pid |

## Left out

- Ownership, mode, inode, link and no-follow checks: a read succeeds with its bytes or the call rejects.
- Journal and lifecycle files, once visible, persist over a crash; a loss of unsynced entries is modelled for the disposal records only.
- `TEST_MODE` branches, fixtures and self-tests of all files.
- Journal: the JSON text of receipts; a whole file is its record, and a torn one reads as nothing.
- Maintenance and bootstrap: writers other than these calls; the package that is not compiled in, which returns at once; the plist grammar of `_route`, which is a boolean of the call; the proof container directory.
- Maintenance: `qualify_installation_base`, which only reads.
- `atomic_write`, `mutation_lock`, `deploy` and the daemon's base view are not part of this model: an atomic replacement, a serial order of calls, and an arbitrary number of start callbacks stand for them.
- Disposal: evidence, identity and lease checks are booleans of the environment; thread-local permission and the replaced engine methods are not modelled.
- Send fence: the UUID checks of arguments, the backlog and the summary; JSON syntax below the level of tokens; the directory entry of a ledger created just before a power loss, which is assumed to survive with its synced bytes; garbage in place of unsynced bytes, other than a part of a token.
- Driver: admission, descriptor and clock checks are answers of the environment; the list-typed fields of an observation; the bytes of the proof files and of the UNKNOWN record.
- QualificationDriver.Driver.SequenceOwned: the waiting loop for a completed turn and the socket exchange are one answer of the environment, because they only decide whether a turn arrives.
- Handoff: other processes that move the shared offset during the probe; JSON escapes in the length of a frame; the later runtime admission service.
- Handoff.ChildAcceptsOnlyVerified: rests on the socket pair being private, so that the root alone writes to the child.
- State diff: floating point is `real`, so signed zeros and infinities are not told apart or represented.
- Inventory: collection, ACL reading and the re-application of empty attributes. The JSON text of a hardlink group and the digest of a line are injective functions.
- Inventory.Export: the side files for names and ACLs, because they repeat columns of the rows.
- Attribute listings: UTF-8 decoding and line splitting, so the parser takes lines; changes to the target from outside while it is reconciled.
- OldWorkers.Workers: takes the parsed table; the process-table grammar is not modelled.
- External commands, the window helper's operation dispatch, the owner command line, source pinning and text splicing, and the JavaScript mapping and schema files.
