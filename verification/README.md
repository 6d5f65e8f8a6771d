# A verified model of the governance, editing and delegation cores

The repository lets a Brain conversation direct work on a local machine. This project models the parts
of it whose correctness is hard to see, and proves what they promise over every input, every run and
every interleaving.

* **Visible-text replacement in DOCX paragraphs** (`src/local/docx-mutation.js`). Text is spread over
  many encoded `<w:t>` nodes; an edit goes through an offset map and is spliced in from right to left.
  The main result is that editing the raw paragraph means replacing in the visible text. It holds for
  every replacement text exactly when no ampersand is left open in front of an edit, and a search text is
  safe on every well-formed paragraph exactly when it consists of whole characters. The edit loop over
  equal paragraphs is exact too: it succeeds if and only if no group produces a paragraph that a later
  group looks for, and then the document is the paragraph-by-paragraph transformation.
* **The one-writer guard** (`src/governance/writer-guard.js`), one file-system call at a time, with any
  number of writers, any interleaving, and crashes anywhere.
* **The task store** (`src/governance/store.js`), with writes that stop or fail at any point, and the
  encoding of task ids into file names.
* **The lifecycle** (`src/governance/index.js`) with its acceptance gate (`src/direct-governance.js`), and
  the **durable runtime** over it (`src/governance/durable.js`): fenced Parent authority, fenced execution
  claims, takeovers, restarts, failing writes and failing reads. The objects are classes whose methods
  are proved equal to functions on values; the run theorems are about those functions.
* **The context capsule** (`src/governance/capsule.js`): its size in UTF-8 bytes.
* **The direct control/RESULT protocol** (`src/protocol-integrity.js`, `src/legacy/direct-run-controller.js`),
  **the step engine** (`src/legacy/task-manager.js`), **turns and units of a delegated execution**
  (`src/executor/app-server-executor.js`), and **the ZIP container check** (`src/local/structured-read.js`).

## Where the code does not do what it says

Each of these is a lemma with a concrete witness or with the exact condition.

* The comment at `src/governance/writer-guard.js:14-15` says that the slot of a dead owner is reclaimed
  at once. A process that dies between the exclusive create of the slot file and the write into it leaves
  a file that no reader can parse, and the namespace never gets a writer again (`CrashAfterCreate`,
  `StuckForever`). `AcquireAloneIff` gives the exact condition under which a lone writer gets the slot.
* The comment at `src/governance/store.js:106-107` says that the backup always equals the last good
  state. A copy that fails is swallowed, and an older backup stays (`FailedCopyLeavesOldBackup`);
  `BackupCurrentIff` says exactly when the backup is current.
* The comment at `src/governance/capsule.js:6-14` calls the limit of 16384 bytes unconditional. The flag
  `hardTrimmed` and grown counts are written after the measurement, so the bound that holds is the limit
  plus 22 bytes (`BuildContextCapsule`). After one TASK and a RESULT with forty evidence items the capsule
  can have 16395 bytes (`TooLongCapsule`); `LimitKeptIff` says exactly when a capsule of either tier,
  trimmed or not, keeps the limit.
* `src/governance/index.js:347` binds the task id before it can throw. On an unbound runtime a RESULT for
  a task that is not persisted leaves the binding behind, and the next PLAN for that id skips the scan for
  tasks in progress. At most one task is in progress over all runs without such a RESULT
  (`AtMostOneInProgress`), and every such RESULT breaks it (`UnpersistedBindBreaks`).
* The empty task id passes the schema and shares the component `_` (`ComponentsDistinct`). A call that names
  it either changes nothing (`EmptyCallQuiet`) or throws behind every check and leaves the runtime bound to
  it; which one can be told before the call, and the invariant of all runs is kept exactly by the calls that
  do not bind it (`StepInvIff`). They exist on every fresh runtime, without a token, and on every runtime
  bound to a task that is DONE, with that task's token (`EmptyPlanBinds`). After each of them a RESULT that
  throws and a PLAN overwrite any persisted task, DONE or not, without presenting a token of that task
  (`EmptyIdOverwrites`), and a second task can be in progress (`EmptyBindBreaks`). The durable theorems hold
  over all runs without such a call.
* A restarted direct controller that accepts a reply before `resume` forgets every accepted step, in the
  ledger file as well; `AcceptancesSurviveIff` says exactly when they survive a restart.
* A process that dies between the two writes of an accepted reply has recorded the control and not the
  acceptance that came with it, and the reply is refused when it comes again (`InterruptedReplyLoses`).
* Without a plan the step id is made from the round. `OpenedStepRunsIff` shows, for every run, that the
  opened step is executed if and only if no step has that id yet; otherwise no later run ever calls the
  executor (`StalledForever`). `ReachesStall` leads every new task there.
* A reconciling observation that works on an old job record writes back the whole record of bindings. It
  loses a binding or binds wrongly exactly when a check fails that the executor could make before it
  writes, and does not make (`BindingsStayIff`). The end of an old turn can then release the writer of a
  newer unit (`StaleRunReleases`); it takes a report of the turns that is acted on after a later turn has
  been bound.
* A reconciliation that overtakes a pending turn/start gives the job up as never materialized and releases
  the writer, although the turn may still come; every started job has such a run (`OvertakenStartReleases`).
  `ReleaseRightIff` says that this is the only wrong release apart from lost bindings: in runs with neither,
  a writer is released only when the unit's turn is over or never comes (`ReleasedWhenOver`).
* The gate judges items that share an id by the first of them, while the report judges each by itself
  (`FirstItemDecides`). A passing verdict means that every required item passes at its own level, on all
  evidence, if and only if the first item with each id is the strictest one (`VerdictImpliesItemsIff`);
  `VerdictMatchesReportIff` says exactly when the two agree.

## Model

| member | source | states |
|---|---|---|
| XmlText.EscapeXmlNoMarkup | src/local/docx-mutation.js:54-61 | escaped text holds no `<`, `>` or quote, on every string |
| XmlText.EscapeRoundTrip | src/local/docx-mutation.js:54-73 | decoding undoes escaping on every string, and escaped text leaves no ampersand open |
| XmlText.DecodeConcat | src/local/docx-mutation.js:63-73 | decoding a concatenation is concatenating the decodings, whenever the first part leaves no ampersand open |
| TextOffsets.DecodeTextWithRawOffsets | src/local/docx-mutation.js:75-101 | the loop yields the text of decodeXml and one raw offset for each text position and the end; it throws exactly when decodeXml does |
| TextOffsets.OffsetsMonotone | src/local/docx-mutation.js:75-101 | raw offsets never decrease along the text |
| TextOffsets.LastOffset | src/local/docx-mutation.js:75-101 | the last offset is the end of the encoded text |
| TextOffsets.SliceDecodes | src/local/docx-mutation.js:75-101 | the raw slice between two positions that split no surrogate pair decodes to the text between them, and the rest to the rest |
| FindReplace.FindVisibleOccurrences | src/local/docx-mutation.js:164-180 | the search loop returns exactly the left-to-right non-overlapping occurrences |
| FindReplace.OccurrencesAreMatches | src/local/docx-mutation.js:164-180 | those occurrences are matches of the search text, in order and disjoint |
| FindReplace.OccurrencesCoverMatches | src/local/docx-mutation.js:164-180 | no match is missed: every position where the text matches lies inside an occurrence that was found |
| FindReplace.ReplaceVisibleText | src/local/docx-mutation.js:182-192 | the loop returns the text with every found occurrence replaced and all else unchanged |
| ParagraphText.ScanRender | src/local/docx-mutation.js:103-118 | cutting a raw paragraph into text nodes and other units loses nothing |
| ParagraphText.ParagraphContainer | src/local/docx-mutation.js:120-154 | the nodes carry the right raw and visible positions and the text is their visible text; it throws exactly when a numeric reference is out of range |
| NodeEdits.SortedIsBackward | src/local/docx-mutation.js:226-237 | sorting the edits by descending start applies them from the last one to the first |
| NodeEdits.NodeMeaning | src/local/docx-mutation.js:201-237 | the spliced raw text of a node decodes to the edited stretch of the visible text, also where an occurrence starts or ends outside the node |
| NodeEdits.WellFormedPieces | src/local/docx-mutation.js:201-237 | on well-formed raw text the condition of NodeMeaning always holds |
| DocxTransform.TransformMeaning | src/local/docx-mutation.js:201-253 | the transformed pieces show the visible text with all occurrences edited, for occurrences spanning any number of nodes |
| DocxReadback.EditedKeepsOut | src/local/docx-mutation.js:226-245 | no `<` enters a text node through an edit |
| DocxReadback.TransformReadsBack | src/local/docx-mutation.js:103-154 | cutting the edited raw paragraph again finds exactly the edited nodes and the unchanged markup |
| DocxEdit.SplicesRender | src/local/docx-mutation.js:238-253 | splicing the node replacements into the raw paragraph from right to left renders the transformed pieces, markup unchanged |
| DocxEdit.EditsByNode | src/local/docx-mutation.js:201-225 | every node gets the edits of the occurrences that touch it, and only the first touched node gets the replacement |
| DocxEdit.NodeReplacements | src/local/docx-mutation.js:226-245 | the second loop yields one replacement for each edited node, or throws when an edited node does not decode |
| DocxEdit.TransformParagraph | src/local/docx-mutation.js:201-253 | the method returns the rendering of the transformed pieces, or throws when decoding an edited node throws |
| DocxEdit.WellFormedEditable | src/local/docx-mutation.js:201-253 | well-formed text nodes are editable for every search text of whole characters |
| DocxEdit.EditMeansReplace | src/local/docx-mutation.js:164-253 | reading the edited raw paragraph back gives the visible text with every occurrence replaced |
| DocxEdit.EditText | src/local/docx-mutation.js:343-388 | success means that the edited paragraph was read back and shows exactly the replaced text; the mismatch error comes exactly when it shows something else, and never on an editable paragraph |
| DocxExactness.UnsettledBreaks | src/local/docx-mutation.js:63-73 | every text with an open ampersand has a continuation that changes its meaning |
| DocxExactness.ExactIffEditable | src/local/docx-mutation.js:201-253 | replacement is exact for every replacement text if and only if no ampersand is left open in front of an edit |
| DocxExactness.SafeIffWholeCharacters | src/local/docx-mutation.js:164-253 | a search text is replaced exactly in every well-formed paragraph if and only if it starts and ends between characters |
| DocxEditGroups.BuildParagraphEditGroups | src/local/docx-mutation.js:255-278 | equal paragraphs are grouped with their count; the ambiguity error cannot happen, and failure means that some touched paragraph does not transform |
| DocxEditGroups.ApplyEdits | src/local/docx-mutation.js:367-374 | the loop applies the counted edits one after another and fails when a count is off |
| DocxEditGroups.ApplyGroupsIff | src/local/docx-mutation.js:255-278 | the counted edits all succeed exactly when no group produces a paragraph that a later one looks for |
| DocxEditGroups.GroupsArePointwise | src/local/docx-mutation.js:255-278 | when they succeed the document is the pointwise transformed list, even where one group's output is another group's input |
| DocxEditGroups.DocumentReadsBack | src/local/docx-mutation.js:343-388 | every paragraph of an edited document reads back as its visible text with every occurrence replaced |
| WriterExclusion.InvRun | src/governance/writer-guard.js:113-287 | the protocol invariant holds over every interleaving, with crashes and failing calls anywhere |
| WriterExclusion.OneCommitter | src/governance/writer-guard.js:246-258 | two live writers are never both between a passing assertOwned and the end of the durable write it guards |
| WriterExclusion.HolderKeepsSlot | src/governance/writer-guard.js:171-218 | a slot record of a live writer is never removed or replaced by a step of another writer |
| WriterExclusion.HolderStaysOwner | src/governance/writer-guard.js:246-275 | a live holder keeps the slot through any run of the others, and its next assertOwned passes |
| WriterExclusion.CommitUnderSlot | src/governance/durable.js:208-228 | every durable write is made by the live writer that the slot names at that moment |
| WriterExclusion.TokenKept | src/governance/writer-guard.js:171-218 | an election token is removed by its creator and by nobody else |
| WriterRecovery.StepsRunOut | src/governance/writer-guard.js:113-218 | every step of a guard call brings it closer to its end, at most 38 steps, whatever the files hold: no call waits for another writer |
| WriterRecovery.AcquireAloneIff | src/governance/writer-guard.js:113-169 | an acquire that runs alone gets the slot if and only if the slot is missing, or holds the record of another writer that died and no third writer's election token exists; otherwise the files stay as they were |
| WriterRecovery.HandOver | src/governance/writer-guard.js:277-287 | after a clean release the next writer that acquires gets the slot |
| WriterRecovery.StuckForever | src/governance/writer-guard.js:171-218 | with a blank slot or a dead elector's token in the way nobody takes the slot or commits in any run |
| WriterRecovery.CrashAfterCreate | src/governance/writer-guard.js:113-130 | a crash between the exclusive create of the slot and its contents leaves the namespace without a writer for good |
| ComponentNames.ComponentReadsBack | src/governance/store.js:62-85 | an accepted non-empty id is read back from its file-name component (section 2.1 of RFC 3986) |
| ComponentNames.ComponentsDistinct | src/governance/store.js:62-85 | distinct accepted ids have distinct components, except that the empty id and `_` share one |
| ComponentNames.ComponentContained | src/governance/store.js:62-101 | a component is never `.`, `..`, never holds a separator or a control character, and is no file name of the guard |
| GovernanceStore.SaveIsAtomic | src/governance/store.js:111-117 | a save that stops or fails at any point leaves its task with the old or the new envelope and every other task with its own |
| GovernanceStore.StoreIsMap | src/governance/store.js:216-282 | after any saves, each stopping anywhere, loading a task gives its last committed envelope, and hasTask tells whether there is one |
| GovernanceStore.BackupWasCommitted | src/governance/store.js:111-117 | a readable backup is an envelope whose save of this task ran through |
| GovernanceStore.LoadAfterLoss | src/governance/store.js:233-282 | after the primary is destroyed, loading gives an envelope once committed for this very task or fails as corrupt |
| GovernanceStore.BackupCurrentIff | src/governance/store.js:111-117 | after a committed save, destroying the primary loses nothing if and only if the copy to the backup ran through, or never started while the same envelope was already there |
| GovernanceStore.FailedCopyLeavesOldBackup | src/governance/store.js:111-117 | a swallowed copy failure leaves the backup at the envelope before |
| GovernanceStore.Store.SaveTask | src/governance/store.js:223-231 | temporary file, rename, copy, stopped where fate says; a refused id writes nothing; an error may still have committed only where the rename was reached |
| GovernanceStore.Store.ScanStrict | src/governance/store.js:284-304 | on files that the store keeps nothing counts as corrupt, every stored task is listed with its envelope, and none twice |
| AcceptanceGate.LookupIsLast | src/direct-governance.js:21-22 | the evidence that counts for an id is the last one given for it |
| AcceptanceGate.GateOkIff | src/direct-governance.js:19-44 | the gate passes if and only if every required id has passing last evidence at the level its first item asks for |
| AcceptanceGate.GateNeedsEvidence | src/direct-governance.js:19-44 | a required id without evidence fails the gate |
| AcceptanceGate.EvaluateDirectAcceptanceGate | src/direct-governance.js:19-44 | the loop's verdict is the meaning of the gate, and every required item is reported exactly once: missing without evidence, failed when its last evidence does not pass, below its level, or passed |
| GateAgreement.CleanReportIff | src/direct-governance.js:28-36 | nothing is reported missing, failed or below its level exactly when every required item passes |
| GateAgreement.VerdictImpliesItemsIff | src/direct-governance.js:37-43 | a passing verdict means that each required item passes at its own level, on all evidence, if and only if the first item with each id is the strictest |
| GateAgreement.VerdictMatchesReportIff | src/direct-governance.js:28-43 | verdict and report agree on all evidence if and only if, in addition, the first item asks for no more than the required ones |
| GateAgreement.FirstItemDecides | src/direct-governance.js:37-43 | with two items for one id the gate can pass while the report lists the id below its level |
| Lifecycle.RunSound | src/governance/index.js:143-402 | in every reachable state, throwing calls included: an accepted step has a successful executor and a passing gate, a passing gate has its evidence, and DONE stands on an accepted step and a verified publication if one was required |
| Lifecycle.DoneIsTerminal | src/governance/index.js:172-187 | after DONE no call changes anything until a PLAN names another task |
| Lifecycle.ReviseReopens | src/governance/index.js:255-285 | REVISE removes the evidence of every id it reopens and withdraws the verdict of the step |
| Lifecycle.ReopenedStaysOpen | src/governance/index.js:343-402 | until a RESULT supplies the reopened id, its step passes no gate, is not accepted, and does not carry DONE |
| GovernanceServiceObject.GovernanceService.Transition | src/governance/index.js:170-340 | the method's assignments, also those made in front of a throw, yield exactly the state of the lifecycle function |
| GovernanceServiceObject.GovernanceService.RecordResult | src/governance/index.js:343-402 | likewise for RESULT |
| DurableInvariant.InitialInv | src/governance/durable.js:99-122 | a fresh runtime over an empty namespace satisfies the invariant of all runs |
| DurableInvariant.EmptyCallQuiet | src/governance/durable.js:342-599 | a call that names the empty task id and does not bind the runtime to it is refused and changes nothing |
| DurableInvariant.StepInvIff | src/governance/index.js:170-187 | in every state of a run, a call keeps the invariant of store, memory and tokens if and only if it does not bind the runtime to the empty task id |
| DurableInvariant.RunInv | src/governance/durable.js:342-651 | the invariant of store, memory and tokens holds over every run with restarts and failures in which no call binds the empty task id |
| DurableWrites.StepAllowed | src/governance/durable.js:208-228 | every call writes nothing or one task, in the way its kind allows, and a mutating call that returns has committed |
| DurableTheorems.TasksMoveForward | src/governance/durable.js:342-599 | no task is lost, Parent and claim generations never decrease, and a task persisted as DONE keeps its lifecycle state in every later store |
| DurableTheorems.WritesAreAuthorized | src/governance/durable.js:262-330 | every committed write of a task carried the token the store held before it; a takeover mints a new one and raises the generation; a claim leaves the Parent authority as it was |
| DurableTheorems.ReturnedIsCommitted | src/governance/durable.js:208-228 | after a mutating call that returns, store and memory agree on the task |
| DurableTheorems.RetiredStaysRetired | src/governance/durable.js:262-330 | a token that no task holds any more passes no gate in any later state |
| DurableTheorems.TakeoverRetires | src/governance/durable.js:491-535 | a committed takeover retires the Parent token it replaces |
| DurableTheorems.WritesRetireClaims | src/governance/durable.js:51-65 | every committed write of a task retires the execution token the task had |
| DurableTheorems.ExecutionTokenIsLatest | src/governance/durable.js:301-330 | an execution token that passes was minted by the most recent committed write of its task, and that write is a claim |
| DurableTheorems.OtherTokensRejected | src/governance/durable.js:605-651 | a token of another task passes no gate, and Parent and execution tokens never stand in for one another |
| DurableTheorems.AtMostOneInProgress | src/governance/durable.js:659-670 | over every run without a RESULT that binds an unbound runtime to an unpersisted task, at most one persisted task is not DONE |
| DurableTheorems.UnpersistedBindBreaks | src/governance/index.js:343-351 | after every such RESULT a PLAN for its task puts a second task in progress |
| DurableTheorems.EmptyIdOverwrites | src/governance/durable.js:333-381 | after every call that binds the empty task id, two more calls overwrite any persisted task with a PLAN without steps, and present no token of the overwritten task |
| DurableTheorems.EmptyBindBreaks | src/governance/durable.js:659-670 | after every such call they put any task in progress beside those that already are |
| DurableTheorems.EmptyPlanBinds | src/governance/index.js:172-187 | such calls exist on every fresh runtime without a token, and on every runtime bound to a DONE task with that task's token |
| DurableRuntime.DurableGovernance.Transition | src/governance/durable.js:342-381 | the method leaves store and memory as the transition function says, roll-back after a failed write included |
| DurableRuntime.DurableGovernance.RecordResult | src/governance/durable.js:383-408 | likewise for RESULT |
| DurableRuntime.DurableGovernance.Takeover | src/governance/durable.js:491-535 | likewise for takeover |
| DurableRuntime.DurableGovernance.ClaimExecution | src/governance/durable.js:542-599 | likewise for execution claims |
| DurableRuntime.DurableGovernance.LoadTask | src/governance/durable.js:469-489 | likewise for loading |
| CapsuleBytes.MinimalFits | src/governance/capsule.js:245-276 | the smallest form of a capsule is within the limit, whatever its texts are (section 7 of RFC 8259 for the escapes) |
| ContextCapsule.ContextCapsule.FinalizeSerializedBytes | src/governance/capsule.js:215-224 | the recorded size is the capsule's own exact length, reached within the eight rounds |
| ContextCapsule.TrimLoop | src/governance/capsule.js:245-276 | the loop ends because the capsule fits, never because of its guard or for want of things to drop, and leaves what dropping one thing after another leaves |
| ContextCapsule.FinishTrimmed | src/governance/capsule.js:226-280 | after trimming the counts tell what is missing and the size is at most the limit plus 22 bytes |
| ContextCapsule.BuildContextCapsule | src/governance/capsule.js:283-308 | every capsule shows the durable state and nothing else, records its own exact length, and has at most 16384 + 22 bytes |
| ContextCapsule.RefreshGrowth | src/governance/capsule.js:226-238 | refreshing the counts after trimming adds at most one digit for each list |
| ContextCapsule.LimitKeptIff | src/governance/capsule.js:245-308 | a capsule of either tier keeps the limit if and only if it measured below the limit by what the flag costs: twenty bytes when nothing was trimmed, nineteen when something was |
| CapsuleOverrun.WitnessMeasures | src/governance/capsule.js:128-205 | the capsule of a task after one TASK and a RESULT with forty evidence items measures 16375 bytes before the flag is added |
| CapsuleOverrun.LimitExceeded | src/governance/capsule.js:283-290 | with the flag it has 16395 bytes, eleven more than the limit |
| CapsuleOverrun.TooLongCapsule | src/governance/capsule.js:283-308 | building the capsule of that state returns those 16395 bytes |
| ZipContainer.ReadDirectory | src/local/structured-read.js:415-457 | the loop accepts exactly the directories whose records are all right, tile it, repeat no name and stay within the budget |
| ZipContainer.InspectZip | src/local/structured-read.js:395-459 | the check never reads outside the buffer and returns the entries, names and expanded size of exactly the acceptable containers |
| ZipContainer.AcceptanceMeans | src/local/structured-read.js:395-459 | acceptance means: the records tile the declared directory, names are unique, safe and those of the local headers, all data lies in the buffer, expansion is bounded |
| ZipRoundTrip.PrintedArchiveReadsBack | src/local/structured-read.js:395-459 | an archive printed from entries within the budgets reads back as those entries if and only if the end signature does not turn up inside its end record |
| DirectRun.ControlsInOrder | src/protocol-integrity.js:174-222 | in every run accepted sequences strictly increase, each control gets at most one RESULT, and every control but the last got one that was acknowledged |
| DirectRun.AcceptedIsEarned | src/legacy/direct-run-controller.js:72-111 | a step is accepted, in memory or in the ledger file, only if a RESULT of success and pass for it was recorded and acknowledged |
| DirectRun.FailureBlocks | src/legacy/direct-run-controller.js:72-111 | behind a failed or unacknowledged RESULT no TASK, PUBLISH or DONE is accepted |
| DirectRun.RepeatsChangeNothing | src/protocol-integrity.js:174-222 | processed controls, stale sequences and repeated RESULT ids change nothing |
| DirectResume.RunSettled | src/legacy/direct-run-controller.js:203-255 | over every run without a reply cut short and with resume after each restart, the controller holds what its ledger file holds |
| DirectResume.ResumeRestores | src/legacy/direct-run-controller.js:302-331 | after every such run, a restart followed by resume gives back the controller as it was |
| DirectResume.AcceptancesSurviveIff | src/legacy/direct-run-controller.js:203-331 | after a restart, and whatever else arrives, acceptances survive if and only if resume comes before the next accepted reply, which otherwise wipes them in the file as well |
| DirectResume.InterruptedReplyLoses | src/legacy/direct-run-controller.js:225-254 | a crash between the two writes of an accepted reply loses the acceptance that came with it, and the reply is refused when repeated |
| DirectRun.DirectRunController.CoordinatorAccepts | src/protocol-integrity.js:174-195 | acceptControl check by check: refused controls change nothing, accepted ones leave the ledger of the protocol function |
| DirectRun.DirectRunController.AcceptBrainReply | src/legacy/direct-run-controller.js:203-255 | the controller after a reply is the one of the protocol function |
| DirectRun.DirectRunController.ReceiveResult | src/protocol-integrity.js:198-222 | the controller after a RESULT is the one of the protocol function |
| DirectRun.DirectRunController.Resume | src/legacy/direct-run-controller.js:302-331 | acceptance and last step are taken over from the ledger |
| TaskManager.ExecutedAtMostOnce | src/legacy/task-manager.js:334-453 | over all resumes, with a crash at any point, each opening of a step reaches the executor at most once |
| TaskManager.InterruptedStaysStopped | src/legacy/task-manager.js:43-91 | a step whose execution was cut short is never executed again, and its task can only be cancelled |
| TaskCompletion.RunTracked | src/legacy/task-manager.js:102-178 | over every run: each completed id finds a step that is reviewed or in flight, the step in flight is the one that the pending control asks for, and steps past execution were handed to the executor |
| TaskCompletion.CompletedMeans | src/legacy/task-manager.js:144-178 | over every run, a completed task has every required acceptance passed, and every plan step of a mandatory milestone was executed and reviewed |
| TaskCompletion.CallsAreAnnounced | src/legacy/task-manager.js:349-362 | a process that dies right behind a call of the executor leaves a task that asks for recovery, and no later run, with any resumes, calls the executor again |
| TaskCompletion.OpenedStepRunsIff | src/legacy/task-manager.js:238-246 | in every run without a plan, the opened step is executed in the next round if no step has its id, and if one has, the executor is never called again |
| TaskCompletion.StalledForever | src/legacy/task-manager.js:334-347 | in every later run, with any resumes and crashes, a stalled task stays stalled and its executor is not called |
| TaskCompletion.ReachesStall | src/legacy/task-manager.js:182-246 | from every new task a plan, one round on it, and a plan without steps lead to a stalled task |
| TaskManager.Engine.ExecuteStep | src/legacy/task-manager.js:334-400 | write, call, write: the engine after each crash point is the one of the action function |
| TaskManager.Engine.Plan | src/legacy/task-manager.js:182-208 | likewise for PLAN and REPLAN |
| TaskManager.Engine.SendGoal | src/legacy/task-manager.js:114-130 | the engine after the first send is the one of the action function, for every crash point |
| TaskManager.Engine.Done | src/legacy/task-manager.js:144-162 | likewise for DONE |
| TaskManager.Engine.StartOrReopenStep | src/legacy/task-manager.js:402-453 | likewise for opening and re-opening a step |
| TaskManager.Engine.RecordStep | src/legacy/task-manager.js:365-384 | likewise for recording evidence |
| TaskManager.Engine.ReviewStep | src/legacy/task-manager.js:385-400 | likewise for sending the RESULT and reviewing the step |
| TaskManager.Engine.HandleTaskControl | src/legacy/task-manager.js:334-400 | one TASK or REVISE round does the one thing that the step's status asks for |
| TaskManager.Engine.Round | src/legacy/task-manager.js:102-142 | one round of the loop is one action of the model |
| TaskManager.Engine.ResumeTask | src/legacy/task-manager.js:43-56 | a step left executing stops the task instead of running it again |
| WriterRelease.RunKeeps | src/executor/app-server-executor.js:315-395 | over runs in which no observation loses a binding and no job is given up while its turn is being started, every binding tells the unit its turn was started for |
| WriterRelease.ReleasedWhenOver | src/executor/app-server-executor.js:380-395 | over those runs the writer of a unit is released only when that unit's own turn ended or the unit never gets a turn |
| WriterRelease.ReleaseRightIff | src/executor/app-server-executor.js:616-701 | in their states, a step that loses no binding and releases a unit's writer does so rightly if and only if it does not give the job up while the unit's turn is being started |
| WriterRelease.OvertakenStartReleases | src/executor/app-server-executor.js:616-701 | on every started job a reconciliation that overtakes the pending turn/start releases the writer, and the unit's turn may still come |
| WriterRelease.BindingsStayIff | src/executor/app-server-executor.js:528-532 | a step keeps all bindings right if and only if the record it writes back holds every other binding and the unit is the one the turn has now |
| WriterRelease.BindingsStay | src/executor/app-server-executor.js:528-532 | over those runs a bound turn stays bound to its unit |
| WriterRelease.StaleBindingLoses | src/executor/app-server-executor.js:476-536 | a binding from a stale record drops every newer binding |
| WriterRelease.LostBindingReleases | src/executor/app-server-executor.js:554-564 | with a binding lost, the end of an older unit's turn releases the writer before the current unit's turn exists |
| WriterRelease.StaleRunReleases | src/executor/app-server-executor.js:476-536 | a concrete run in which this happens |
| WriterRelease.AppServerExecutor.TurnNotified | src/executor/app-server-executor.js:315-371 | the executor after a turn notification is the one of the model: older units are ignored, new turns are bound, ended ones release |
| WriterRelease.AppServerExecutor.ReleaseUnitOnTerminal | src/executor/app-server-executor.js:380-395 | only the unit's own writer is released |
| WriterRelease.AppServerExecutor.TerminalizePreTurn | src/executor/app-server-executor.js:659-701 | a job given up before its turn is closed, and only the writer of the unit it read is released |
| WriterRelease.AppServerExecutor.StartUnit | src/executor/app-server-executor.js:1083-1110 | a new unit starts only on a free workspace |
| WriterRelease.AppServerExecutor.TurnsReported | src/executor/app-server-executor.js:554-785 | the executor after a report of the turns is the one of the model, for get and for both reconciliations |

## Left out

Visible-text replacement

* Strings are sequences of UTF-16 code units, as in the source; a numeric reference past U+10FFFF throws.
* Cutting the document into `<w:p>` paragraphs, file input and output, hashes, and the check of
  `expectedOccurrences` are not modelled. A counted edit works on the list of paragraphs, not on
  substrings of the document text.
- EditMeansReplace: asks that behind a text node no second closing tag follows plain text; this holds in
  well-formed XML and is not a necessary condition on other input.

Writer guard and store

* The guard is a transition system and not a class, because its point is the interleaving. Process ids
  are not reused, every record carries one (the branch for records without a pid is left out), and real
  file systems, links and path casing on Windows are not modelled.
* The store keeps parsed envelopes: that JSON text reads back is taken for granted, and the save time is
  left out. A write or copy stops or fails as a parameter says.

Lifecycle and durable runtime

* History, handoff packets, question texts, the displayed acceptance status (which takes the first
  evidence for an id), the proof ledger and metrics, keys named like prototype members, and aliases for
  evidence statuses.
* Tokens are fresh numbers and callers present only tokens they were given; workspace roots are canonical
  values; timestamps and the calls that only read (status, semantic recovery, capsule) are left out, and
  so are `reconcileDelegatedExecution` and `performContinuityTakeover`.
* One runtime at a time works on a namespace; that is what the writer guard provides (`OneCommitter`,
  `CommitUnderSlot`), and the two models are not composed into one.
- AtMostOneInProgress: the source asks for it over all runs; it holds under the condition that is shown to be exact.
- TasksMoveForward: for runs without a call that binds the empty task id; StepInvIff shows that the condition is
  the one under which the invariant is kept, and EmptyIdOverwrites what every other call leads to.

Capsule

- BuildContextCapsule: the execution summary is the default one, an execution object supplied by the
  caller is not modelled, nor is the order of the truncation marks; numbers and lengths are those that the
  source's numbers can hold.

ZIP

* Names are UTF-8 bytes; decompression is not modelled.
- PrintedArchiveReadsBack: printed archives have zero times and check sums, no extra fields and no comment.

Direct protocol and step engine

* Sending to a provider and the format-repair exchange (the envelope is the one settled on), evidence
  registry and proofs, the contents of a RESULT beyond its outcome (its hash is taken as its contents),
  failing ledger writes, and metrics.
* Prompts, verification commands and tiers of the step engine. A call or state write that fails stops an
  action as a crash in front of it does.
- AcceptedIsEarned: leaves out the raw `setBrainAcceptance` hook, which can set any acceptance.

Delegated execution

* One writing job in the life of one process. Paging through the turn history is the list of turns it
  returns; permissions, approvals and the job's `state` field are left out. Calls that wait are split at the
  wait: what they read, and what they do with the answer.
- ReleasedWhenOver: for runs in which no observation loses a binding and no job is given up while its turn is
  being started; BindingsStayIff and ReleaseRightIff say exactly when a step does, StaleRunReleases and
  OvertakenStartReleases that such runs exist.

Not modelled at all: the mutation owner's internals, HTTP and MCP registration, browser transport, Git and
tunnel commands, installers, the publication transaction, and verification tiers.
