# Proofs about the build, capture and release tools

This project models the parts of the repository whose correctness is a property of
whole runs, and proves those properties with Dafny. `dafny verify dfyconfig.toml`
checks all of it.

Each module follows one component.

**Patched checkouts.** `Patches` has trees of files, hunks at fixed positions, and their
inverses. `StackPlan` finds the applied prefix of a patch stack in one index that is rewritten for
every candidate; `PatchAdvance` plans the change of one file, and `AdvanceMeaning` says what such a
plan means. `AdvanceTransaction` is the advance
as single writes between which a crash or an edit by somebody else may fall, and each of
which may raise before or behind its effect;
`AdvanceSafety` says what every such history keeps, `AdvanceAdmission` which disks an attempt
refuses, resumes and finishes, and `AdvanceCommand` is the command as a program over a mutable disk.
`SyncChain` is the sync with its recorded intent, across any number of interruptions, and
`SyncResumption` shows that an interrupted sync can be taken up again and brought to its end.
`Instances` shows that the premises of these theorems can be met.

**The guarded helper.** `OwnedVm` and `NativeRecorder` are the interpreter and its recorder, with
`ProgramTrace` writing out the two programs and `StepFlaws` what the recorder refuses,
`LittleEndian`, `Decimals` and `HelperProtocol` the wire, `HelperText` the bounded printer,
`HelperControl` the session over a stream of frames and any clock, and `HelperProcess` the
process that serves it. `HelperAnswers` says what each frame is answered, in numbers on the
wire; `Json`, `HelperReadings` and `PayloadReadings` say what a reader of the printed payloads
finds.

**Publication.** `ReleaseRemote` is the remote: tags, annotated tag objects, releases, and calls
that may raise before or after taking effect while others act in between.
`ReleasePublication` is the publisher; its record of calls is a proof that no call was made
without its evidence. `ReleaseEvidence` says what that evidence is, and when an undisturbed
run succeeds, in terms of the calls and of the remote alone.

**Bounded traversals and texts.** `AnalystText`, `ObjectGraph`, `AnalystRunner` and
`ObjectFreezing` are the serializer and the deep freeze over arbitrary object graphs, and
`SerializerCases` where the serializer cuts and throws; `Unicode` and
`InvocationSite` go from a UTF-8 offset to a UTF-16 anchor; `StoredZip` is the archive
writer and reader with its CRC-32, `ZipLayout` its headers by offset, and `CrcResidue` the law
that makes it that checksum.

**Smaller algorithms.** `BuildArgs`, `GnComments` with `GnPieces`, `SourceCoverage` and
`DocumentStart`.
`Outcomes` and `Sequences` are shared definitions.

Where the source is imperative the model is: classes with the source's fields, loops with
the source's variables, one array written in place. Each such method is proved against
a function of its inputs or of the old state, and the lemmas are about that function.

## What does not hold as promised

- `stack_plan` takes a patch whose effect is already there as applied. A stack of one insertion is
  skipped when the file already holds that line (`StackPlan.AmbiguousPrefixIsSkipped`).
  The planned tree is the real one exactly when the patches wrongly taken as applied would
  change nothing (`StackPlan.PlanAimsAtTheStack`), and the same decides whether a resumed sync keeps
  its goal (`SyncChain.ReplanKeepsTheGoal`).
- The advance writes its receipt inside the block whose handler rolls back. An error behind that
  write puts the old content back under the receipt, and every rerun then refuses
  (`AdvanceTransaction.ReceiptOverRestoredSource`); reruns recover exactly when this did
  not happen (`AdvanceTransaction.AdvanceRecovers`).
- An edit between the advance's last verification and the capture of the source state is written into
  the receipt as if it had been verified (`AdvanceSafety.EditInTheWindowIsRecorded`). A receipt
  is right exactly when the edits in between leave everything as it was
  (`AdvanceSafety.ReceiptsAreRightExactly`).
- The printer's asserted 5306 bytes are exact for records the recorder accepts. A record
  that merely fits its slots can take 5342 (`HelperText.EntryBoundsAreAttained`); the payload
  buffer holds either.
- While nobody else touches releases, an error leaves a release published exactly when
  the publishing call took effect and the cleanup call did not. Such a release makes every rerun refuse.
  A draft counts as the run's own when it is the only listed draft of the tag after the run
  created one; if others add and remove drafts of the same tag in between, that may be theirs.
- A failure between creating the draft and finding exactly that draft publishes nothing and
  leaves the draft, which the next run deletes (`ReleasePublication.RecoverableStays`).
- `clone` assigns into one object. Of two keys that show alike the later value stays, a key
  `__proto__` vanishes (`AnalystRunner.AlikeKeysLoseAValue`, `AnalystRunner.ProtoIsLost`), and
  neither is reported as truncation, nor are cut keys, symbols and function names
  (`AnalystRunner.KeysAreCutSilently`). A copy is whole exactly when truncation is not reported and
  no object in reach collides in its keys, and complete in these texts too exactly when, besides, none
  in reach is over its limit (`AnalystRunner.WholeExactly`).
- Stripping GN comments can move lines: a comment runs to the next newline, while `splitlines` also
  ends lines at form feeds and other separators (`GnComments.FormFeedMovesLines`). Numbers stay right
  exactly for undisturbed text (`GnComments.NumbersStayExactly`).
- `covered_source_bytes` subtracts an inverted range that reaches past everything before it
  (`SourceCoverage.InvertedRangeIsSubtracted`); it is exact otherwise.
- After `dispatch` of the second highest request ID a live helper has no admissible next ID: the highest
  one only retires it (`HelperControl.LiveHelpersHaveANextId`).

## Model

| member | source | states |
|---|---|---|
| `Patches.InvertedHunksUndo` | tools/brave_patch_contract.py:101-103 | Applying a file's hunks and then the same hunks with old and new lines exchanged gives the text back, wherever the hunks are. |
| `Patches.ReverseUndoesApply` | tools/brave_patch_contract.py:101-103 | A patch turns one tree into another exactly when its reverse turns the second into the first. |
| `Patches.UndoIsInverse` | tools/brave_patch_contract.py:123-131 | A stack leads from one tree to another exactly when reversing it newest-first leads back. |
| `Patches.ApplyAllIsInjective` | tools/brave_patch_contract.py:123-131 | Two trees that one stack takes to the same result were the same tree. |
| `Patches.ApplyAllFrame` | tools/brave_patch_contract.py:15-33 | A stack reads and writes only its patch paths: applied to those paths alone it gives the same result there and leaves the rest. |
| `Patches.EditIsExact` | tools/brave_patch_contract.py:101-103 | The hunks of a file fit exactly when each one's removed lines stand at its place, in order and without overlap; in the result every hunk's added lines stand at its place moved by what the hunks before it added and removed, and every line between hunks is kept. |
| `Patches.PatchMakesItsChanges` | tools/brave_patch_contract.py:101-103 | A patch fits exactly when each change can be made: an edit's hunks are placed, an added path is absent, a deleted one holds exactly the named file. Then an added path holds exactly its file, a deleted one nothing, an edited one the edited lines with the old mode, and every other path what it held. |
| `StackPlan.PrivateIndex.LoadWorktree` | tools/brave_patch_contract.py:73-88 | The index then holds the working tree's entries for the given paths and nothing from HEAD in their place. |
| `StackPlan.PrivateIndex.Applies` | tools/brave_patch_contract.py:101-103 | True exactly when the patch (or its reverse) applies; the index then holds the result, and is unchanged otherwise. |
| `StackPlan.PlanStack` | tools/brave_patch_contract.py:114-142 | Refuses exactly when no prefix explains the checkout; otherwise returns the largest explained prefix and the entries the whole stack ends with, although one index is reused for every candidate. |
| `StackPlan.PlanIsUnique` | tools/brave_patch_contract.py:114-142 | A tree and a stack have at most one plan. |
| `StackPlan.AppliedPrefixIsAccepted` | tools/brave_patch_contract.py:114-142 | A genuinely applied prefix is never refused: it is explained, and some plan at least as long exists. |
| `StackPlan.ReplanningIsStable` | tools/brave_patch_contract.py:114-142 | Planning the planned tree reports the whole stack applied and the same tree. |
| `StackPlan.FullyAppliedPlan` | tools/brave_patch_contract.py:114-142 | A tree reached by the whole stack is reported fully applied. |
| `StackPlan.PlanAimsAtTheStack` | tools/brave_patch_contract.py:114-142 | For a tree that holds the first k patches, the planned tree is the stack's real result exactly when the patches wrongly taken as applied change nothing. |
| `StackPlan.AmbiguousPrefixIsSkipped` | tools/brave_patch_contract.py:123-131 | A concrete stack and tree whose plan differs from the stack's result. |
| `PatchAdvance.PrepareSingleFile` | tools/brave_patch_advance.py:27-84 | Returns a plan exactly when one checkout's stack changes, exactly one existing regular file changes with it within the size limit, and that file still holds the old bytes; the plan names it and both contents. |
| `PatchAdvance.AdvancePlanIsUnique` | tools/brave_patch_advance.py:27-84 | At most one such plan exists. |
| `AdvanceMeaning.AdvancesExactly` | tools/brave_patch_advance.py:27-84 | A plan is accepted exactly when both stacks name the same patches and paths and differ in one checkout, and from some base the old stack leads to that checkout and the new one to a tree that differs in one regular file of at most 16 MiB with its mode kept, which still holds the old content when it is read again; and the plan names that file, its mode and both contents. |
| `PatchAdvance.RebuiltFrame` | tools/brave_patch_advance.py:52-66 | Reversing the old stack and applying the new one changes nothing outside the old stack's paths and is decided by those paths. |
| `PatchAdvance.AdvanceIsAWholeStackChange` | tools/brave_patch_advance.py:58-84 | Writing the planned bytes into the one file gives the tree got by reversing the old stack and applying the new one, and planning the new stack there reports it fully applied. |
| `AdvanceTransaction.FinishIsARun` | tools/check-integrated-brave-state.py:380-527 | An attempt with chosen failing steps is a run of the single-write machine. |
| `AdvanceTransaction.AdvanceRecovers` | tools/check-integrated-brave-state.py:430-527 | Whatever attempts ran, each crashed between any two steps or raising before or behind the effect of any of them: one uninterrupted rerun leaves the disk an undisturbed first run leaves (target advanced, audit complete, receipt written), and a further rerun changes nothing, if and only if no handler put the old content back while a receipt existed, which is to say unless the disk holds a receipt for sources other than its own. On such a disk every attempt refuses and changes nothing. |
| `AdvanceTransaction.ReceiptOverRestoredSource` | tools/check-integrated-brave-state.py:503-524 | On every ready workspace, one error behind the receipt write leaves the receipt over the old content, and every later attempt refuses and changes nothing. |
| `Instances.AnAdvanceIsReady` | tools/brave_patch_advance.py:27-84 | The premises of the recovery theorem and of its failing input are met by a concrete pair of one-patch stacks. |
| `AdvanceTransaction.OnCourseRun` | tools/check-integrated-brave-state.py:430-527 | What every such history keeps: the target is old or new, the audit is ours, and a receipt stands on the completed disk alone; once a handler restores under a receipt, the history stays at that receipt over the old content. |
| `AdvanceSafety.SourceWritesFollowThePlan` | tools/check-integrated-brave-state.py:503-524 | After any history with crashes and foreign edits, the only source write is old to new on the recorded target, or exactly new back to old. |
| `AdvanceSafety.UnknownBytesSurvive` | tools/check-integrated-brave-state.py:488-524 | Unknown bytes at the target are never overwritten, and unless they arrive in the final window no receipt is written over them. |
| `AdvanceSafety.UnknownBytesNeedReview` | tools/check-integrated-brave-state.py:514-524 | A run that meets unknown bytes in its guarded part ends in review, changing neither sources nor receipt. |
| `AdvanceSafety.BackupsPrecedeWrites` | tools/check-integrated-brave-state.py:462-466 | While nobody edits the backups, both contents are on disk before any source write. |
| `AdvanceSafety.ReviewIsFinal` | tools/check-integrated-brave-state.py:433-437 | Once the audit asks for review no later run changes the disk. |
| `AdvanceSafety.ReceiptsAreCertified` | tools/check-integrated-brave-state.py:506-513 | With no source edit in the final window, every receipt names exactly the recorded surroundings with the target advanced. |
| `AdvanceSafety.ReceiptsAreRightExactly` | tools/check-integrated-brave-state.py:503-513 | After any history at all, a receipt that appeared names the sources of the capture; they are the recorded surroundings with the target advanced if and only if the edits since the final verification left everything as it was, and they are what the disk holds as the receipt is written if and only if the edits since the capture did. |
| `AdvanceSafety.EditInTheWindowIsRecorded` | tools/check-integrated-brave-state.py:506-513 | A concrete schedule with one edit between the final verification and the capture: that edit is recorded as verified, and the receipt is right exactly when it changed nothing. |
| `AdvanceAdmission.ForeclosedIsRefused` | tools/check-integrated-brave-state.py:420-501 | Over an audit of another operation or one that needs review, over a receipt that is not of a finished advance, with surroundings, sources or backups other than recorded, or without a plan, every attempt raises and changes nothing, whichever steps would raise. |
| `AdvanceAdmission.CleanAttemptsExactly` | tools/check-integrated-brave-state.py:415-527 | On any disk at all an attempt without failures reports a finished advance exactly when there is one, goes through exactly when a recorded advance can go on or a fresh one start, writing that advance's content, audit and receipt, and raises on every other disk. |
| `AdvanceAdmission.WrittenForTheOperation` | tools/check-integrated-brave-state.py:427-513 | Over every history, with crashes, failures and any edits: a receipt that appears names the integration and upstream of the job and of the audit beneath it, and a fresh audit plans an advance of the job from the sources the previous receipt names. |
| `AdvanceAdmission.VerifiesExactly` | tools/check-integrated-brave-state.py:488-507 | The last verification passes exactly when everything but the target is as recorded and the target holds the new content with its mode; otherwise the handler runs. |
| `AdvanceAdmission.AdvancedIsReported` | tools/check-integrated-brave-state.py:525-527 | An invocation reports the advance exactly when, at its end, the previous receipt is the one its audit names. |
| `AdvanceCommand.Workspace.Admit` | tools/check-integrated-brave-state.py:420-461 | The checks before any write admit, resume, report done or refuse exactly as the machine's start does. |
| `AdvanceCommand.Workspace.Prepare` | tools/brave_patch_advance.py:100-121 | Publishes both backups and then the audit, stopping at a backup that holds other bytes. |
| `AdvanceCommand.Workspace.Commit` | tools/check-integrated-brave-state.py:503-513 | The guarded part either completes or hands the handler exactly the state the machine has at that step, whichever steps raise before or behind their effect. |
| `AdvanceCommand.Workspace.Recover` | tools/check-integrated-brave-state.py:514-524 | The handler restores only exact new bytes, records rolled back or needs review, and raises. |
| `AdvanceCommand.Workspace.AdvanceKnownPatch` | tools/check-integrated-brave-state.py:380-527 | For every disk and every choice of steps that raise before or behind their effect, the command leaves the disk and the outcome of the machine's attempt. |
| `SyncChain.Upstream.SyncIntent` | tools/check-integrated-brave-state.py:246-260 | The intent records the unaffected state, the planned content of every patched path and the overlay targets, or a stack refuses. |
| `SyncChain.Upstream.Reusable` | tools/check-integrated-brave-state.py:542-564 | Admits the checkouts as committed, the tree the receipt names, or one whose unaffected part is the intent's and whose overlay destinations hold old or new content. |
| `SyncChain.Upstream.BeginSync` | tools/check-integrated-brave-state.py:625-657 | Begins exactly when admitted and plannable, and then the pending intent is that of the present tree. |
| `SyncChain.Upstream.ApplyRemaining` | scripts/sync-browser-integration.sh:190-214 | Applies the rest of a stack in order and stops, keeping the prefix reached, exactly at the first patch that does not fit. |
| `SyncChain.Upstream.VerifySync` | tools/check-integrated-brave-state.py:274-286 | Accepts exactly when unaffected state, every planned path and every overlay are as the intent says. |
| `SyncChain.Upstream.RecordSync` | tools/check-integrated-brave-state.py:629-642 | Writes the receipt and removes the intent exactly when the verification accepts. |
| `SyncChain.ChainKeepsTheIntent` | tools/check-integrated-brave-state.py:629-657 | However often a sync is interrupted and resumed, with an unambiguous prefix every resumption arrives at the intent of the first begin. |
| `Instances.AChainStarts` | tools/check-integrated-brave-state.py:629-657 | So are the premises of the chain theorems, with an unambiguous one-patch stack. |
| `SyncChain.ChainRecordsTheIntended` | tools/check-integrated-brave-state.py:274-286 | Whatever such a chain records holds at every path except the Siso copy what its first begin intended: the planned entry, the overlay, or the content of that time. |
| `SyncChain.RecordedTreesAgree` | tools/check-integrated-brave-state.py:274-286 | Any two results such chains record agree on every path except the Siso copy. |
| `SyncChain.ResumptionsKeepUnaffected` | tools/check-integrated-brave-state.py:263-271 | Whatever others edit, resumptions never change the unaffected record or the overlay targets. |
| `SyncChain.OutsideEditsAreRefused` | tools/check-integrated-brave-state.py:263-286 | An edit outside sync-owned paths makes the record refuse, and a further begin too unless the whole tree became clean or the recorded one. |
| `SyncChain.CleanTreesRestartTheChain` | tools/check-integrated-brave-state.py:542-547 | An accepted begin keeps the unaffected record exactly when nothing outside changed; a clean tree restarts from HEAD. |
| `SyncChain.ReplanKeepsTheGoal` | tools/brave_patch_contract.py:114-142 | Without unambiguity a resumed plan keeps the goal exactly when the patches it skips change nothing. |
| `SyncResumption.FirstBegin` | tools/check-integrated-brave-state.py:542-564 | On a clean tree, or the one the receipt names, whose stacks can be planned, the first begin is accepted. |
| `SyncResumption.NothingToBegin` | tools/check-integrated-brave-state.py:246-260 | A stack none of whose prefixes explains the checkout stops every begin, whatever else holds. |
| `SyncResumption.OtherIntentsCountForNothing` | tools/check-integrated-brave-state.py:590-592 | An intent for other commits of the integration or of Brave neither admits a begin nor is compared by a record: tree and receipt alone decide, and a begin replaces it. |
| `SyncResumption.InterruptedSyncsResume` | tools/check-integrated-brave-state.py:263-271 | From such a start with unambiguous stacks, after any of the sync's own steps and a crash another begin is accepted, changes nothing but the phase and arrives at the first intent. |
| `SyncResumption.FinishedSyncsAreRecorded` | tools/check-integrated-brave-state.py:274-286 | Once every overlay is copied and every patch applied, however often the sync was interrupted before, the record writes the receipt of the tree and clears the intent. |
| `SyncResumption.InterruptedSyncsFinish` | scripts/sync-browser-integration.sh:190-260 | After any interruption and one more begin there is a run of planning, copies and patches alone at whose end the record is accepted. |
| `LittleEndian.ReadOfWrite` | apps/reb-native-vm-fixture/owned_vm_helper_protocol.hpp:42-56 | Reading what was written gives the value reduced to the width. |
| `LittleEndian.WriteOfRead` | apps/reb-native-vm-fixture/owned_vm_helper_protocol.hpp:42-56 | Writing what was read gives the bytes back. |
| `LittleEndian.ReadLe` | apps/reb-native-vm-fixture/owned_vm_helper_protocol.hpp:42-49 | Returns the number whose least significant byte stands first. |
| `LittleEndian.WriteLe` | apps/reb-native-vm-fixture/owned_vm_helper_protocol.hpp:50-56 | Fills exactly the field; every other byte of the buffer keeps its value. |
| `Decimals.ParseOfPrint` | apps/reb-native-vm-fixture/owned_vm_helper_protocol.hpp:80-89 | Parsing inverts printing. |
| `Decimals.PrintIsShortest` | apps/reb-native-vm-fixture/owned_vm_helper_protocol.hpp:80-89 | Printing gives the shortest decimal, and only canonical text has that length. |
| `Decimals.U64Length` | apps/reb-native-vm-fixture/owned_vm_helper_protocol.hpp:81 | The 20-character cap loses no 64-bit value. |
| `Decimals.FromChars` | apps/reb-native-vm-fixture/owned_vm_helper_protocol.hpp:87-88 | The digit loop with overflow detection accepts exactly the values below 2^64. |
| `Decimals.CanonicalU64` | apps/reb-native-vm-fixture/owned_vm_helper_protocol.hpp:80-89 | Accepts text exactly when it prints some 64-bit number, and returns that number. |
| `Decimals.GatesAgree` | tools/native-js-invocation-site.py:46-50 | On ASCII text the helper's, the site tool's and the evidence validator's gates accept the same texts. |
| `Decimals.NegativesAreRefused` | tools/validate-evidence-store.py:127-136 | The evidence parser reads negative integers, and the 64-bit range check then refuses them. |
| `OwnedVm.RunIsExpected` | src/analysis/owned_vm_fixture.cpp:76-169 | Both programs take the nine listed steps and then report halted for ever, changing nothing. |
| `OwnedVm.ProgramsStoreTwelve` | tools/check-owned-vm-fixture.cpp:29-95 | Both architectures end halted after nine steps with twelve in memory. |
| `ProgramTrace.RunTraces` | src/analysis/owned_vm_fixture.cpp:76-170 | Each of the nine committed instructions has the code, operands and effects of the written-out program, in order, and joins the states before and after it. |
| `ProgramTrace.RunHolds` | src/analysis/owned_vm_fixture.cpp:37-75 | After any number of steps the machine holds what the table of states says in every slot, counter and flag. |
| `OwnedVm.OwnedVmFixture.ExecuteOne` | src/analysis/owned_vm_fixture.cpp:76-169 | One call commits one whole step or changes nothing, with the status and transition of that step. |
| `NativeRecorder.ProgramStepsAreValid` | src/analysis/native_vm_recorder.cpp:60-86 | Every committed step of both programs passes the recorder's validation, is complete, and joins its neighbours' states. |
| `StepFlaws.MalformedExactly` | src/analysis/native_vm_recorder.cpp:22-86 | Of the admissions that reach the check those with a flaw are refused as malformed, and no others: a count or index past its storage, an immediate effect, a word without evidence, an address twice, or anything left in unused storage. |
| `NativeRecorder.RunsKeepBooks` | src/analysis/native_vm_recorder.cpp:92-154 | After any calls: attempted is recorded plus full plus malformed, recorded is the number of entries and at most the capacity, entries are valid steps with increasing sequences and ticks that never go back or reach the deadline, and the partial ones are counted. |
| `NativeRecorder.FirstValidAdmissionsAreKept` | src/analysis/native_vm_recorder.cpp:92-154 | After any calls the entries are exactly the first valid recordings admitted since the latest enabling, as many as there is room for; an admitted recording that is not kept is counted as full when its step is valid and as malformed when it is not. |
| `NativeRecorder.EntriesBelongToTheScope` | src/analysis/native_vm_recorder.cpp:92-154 | After any calls every entry is, in order, a recording made since the latest enabling, for that scope's document and with its generation, and a generation that records is the number of enablings so far, so no other scope had it. |
| `HelperText.PayloadBuffer.Put` | apps/reb-native-vm-fixture/owned_vm_helper_protocol.hpp:93-104 | Appends what fits and fails for good on overflow, never writing past the array. |
| `HelperText.PrintSnapshot` | apps/reb-native-vm-fixture/main.cpp:216-238 | Printing a snapshot appends exactly its text. |
| `HelperText.PrintEntry` | apps/reb-native-vm-fixture/main.cpp:239-271 | Printing a record appends exactly its text. |
| `HelperText.SnapshotBound` | apps/reb-native-vm-fixture/main.cpp:272-310 | Every snapshot within its slots prints in at most 1808 bytes. |
| `HelperText.SnapshotBoundIsAttained` | apps/reb-native-vm-fixture/main.cpp:272-310 | Some valid snapshot takes 1808. |
| `HelperText.EntryBound` | apps/reb-native-vm-fixture/main.cpp:239-271 | Every record within its slots prints in at most 5342 bytes, whatever its locations. |
| `HelperText.RetainedEntryBound` | apps/reb-native-vm-fixture/main.cpp:272-310 | Every record the recorder accepts prints in at most 5306. |
| `HelperText.EntryBoundsAreAttained` | apps/reb-native-vm-fixture/main.cpp:289-309 | Both bounds are attained, the larger one only by a record the recorder refuses. |
| `HelperReadings.SnapshotIsReadable` | apps/reb-native-vm-fixture/main.cpp:212-238 | A printed snapshot is one JSON value whose fields say program counter, evidence, flags and exactly the active slots in order, each with its number and evidence. |
| `HelperReadings.EntryIsReadable` | apps/reb-native-vm-fixture/main.cpp:239-271 | So is a printed record: sequence, tick, opcode, exactly its operands and effects in order, and the snapshots before and after. |
| `HelperProtocol.DecodeRequest` | apps/reb-native-vm-fixture/owned_vm_helper_protocol.hpp:57-68 | Reads the fixed fields and accepts exactly the framed operations. |
| `HelperProtocol.DecodeOfFrame` | apps/reb-native-vm-fixture/owned_vm_helper_protocol.hpp:57-68 | A frame decodes to the fields it was made of, and is accepted exactly for the magic, version, zero reserve and a known operation. |
| `HelperProtocol.FrameOfBytes` | apps/reb-native-vm-fixture/owned_vm_helper_protocol.hpp:57-68 | Any forty bytes are the frame of their fields. |
| `HelperProtocol.ResponseHeader` | apps/reb-native-vm-fixture/owned_vm_helper_protocol.hpp:69-79 | Fills the header with the status, ID and payload size. |
| `HelperProtocol.HeaderReadsBack` | apps/reb-native-vm-fixture/owned_vm_helper_protocol.hpp:69-79 | The fields of a response header read back, and the rest is zero. |
| `HelperControl.StartupTracks` | apps/reb-native-vm-fixture/main.cpp:530-541 | The helper starts exactly when the clock works and the deadline fits 64 bits, with nothing executed. |
| `HelperControl.HandleTracks` | apps/reb-native-vm-fixture/main.cpp:550-601 | Any frame at any time commits at most one step; refused and replayed frames leave machine and records, an admitted step is recorded at a tick inside the deadline and not before the last. |
| `HelperControl.SessionRefinesInterpreter` | apps/reb-native-vm-fixture/main.cpp:542-607 | For every stream, clock and failing pipe, the machine behind the i-th reply is exactly as many interpreter steps as replies have committed, each complete frame has one reply until the first terminal one, and the session ends as it should. |
| `HelperControl.SessionEnds` | apps/reb-native-vm-fixture/main.cpp:542-607 | One reply a frame, none after a terminal one, and the exit code says how the stream ended. |
| `HelperControl.CountsAreConsumedOnce` | apps/reb-native-vm-fixture/main.cpp:566-567 | Committing requests carry strictly increasing executed counts. |
| `HelperControl.IdsAreConsumedOnce` | apps/reb-native-vm-fixture/main.cpp:553-558 | Requests that pass framing and order consume strictly increasing IDs. |
| `HelperControl.LiveHelpersHaveANextId` | apps/reb-native-vm-fixture/main.cpp:559-563 | While the helper lives a later request ID exists, and one that can be dispatched exactly while the last is not the second highest. |
| `HelperAnswers.FrameIsAnswered` | apps/reb-native-vm-fixture/main.cpp:550-602 | The status on the wire of every well-formed frame, by the first guard that fails: identifier not above the last, highest identifier, other generation, other count of commits, a clock that stopped, went back or reached the deadline, close, a step of a halted machine, and success otherwise; a step is recorded and counted exactly on success. |
| `HelperAnswers.MalformedIsAnswered` | apps/reb-native-vm-fixture/main.cpp:555-556 | A frame with another magic, version, operation or anything in its reserved field is answered malformed, and the process is as it was. |
| `HelperAnswers.AnswerDecidesTheSession` | apps/reb-native-vm-fixture/main.cpp:484-501 | The state text, the exit code and whether another frame is read follow from that status alone, and the clock is read once exactly for the answers that go on behind the guards. |
| `HelperAnswers.StartsExactly` | apps/reb-native-vm-fixture/main.cpp:529-537 | The process starts exactly when the clock reads above zero and the lifetime in nanoseconds still fits 64 bits behind it; the deadline is that far off. |
| `HelperProcess.PayloadBound` | apps/reb-native-vm-fixture/main.cpp:414-446 | Every control payload is at most 8004 bytes, far below the 32 KiB buffer. |
| `PayloadReadings.PayloadIsReadable` | apps/reb-native-vm-fixture/main.cpp:414-450 | Every payload is one JSON value that says whose session it is, the state of the reply, counts, the machine, the recorder's counters and result, and the recorded step exactly when the result is a recording. |
| `HelperProcess.Respond` | apps/reb-native-vm-fixture/main.cpp:459-476 | A reply is never refused for its size, and carries the header and text of the helper's state. |
| `HelperProcess.Process.HandleRequest` | apps/reb-native-vm-fixture/main.cpp:550-601 | Updates last ID, last time, machine and recorder in place exactly as the session function says. |
| `HelperProcess.ServeRequests` | apps/reb-native-vm-fixture/main.cpp:542-607 | The loop writes exactly the messages of the session's replies and exits with its code. |
| `HelperProcess.ControlMain` | apps/reb-native-vm-fixture/main.cpp:519-608 | The wire is the greeting and the session's messages; without a start or a writable pipe nothing is written. |
| `ReleaseRemote.VerifyAssets` | tools/publish-release-pair.py:31-42 | Accepts exactly when the release has the asked draft state and its assets are the expected names one-to-one, uploaded, with expected sizes and digests. |
| `ReleaseRemote.CountAndSetAreOneToOne` | tools/publish-release-pair.py:35-36 | Comparing the count and the set of names is enough for one-to-one. |
| `ReleaseRemote.ChainIsResolved` | tools/publish-release-pair.py:68-79 | A reference resolves to the commit its chain ends in exactly when the chain has at most eight links, so at most seven tag objects. |
| `ReleaseRemote.ResolvedHasAChain` | tools/publish-release-pair.py:68-79 | Every resolved commit is the end of such a chain. |
| `ReleasePublication.TagNamesSource` | tools/publish-release-pair.py:68-79 | A tag whose links end in a commit names the source exactly when they are at most eight and end in the source. |
| `ReleasePublication.TagNamesNothing` | tools/publish-release-pair.py:68-79 | A tag that is absent, or whose links end in no commit, names nothing. |
| `ReleaseEvidence.AcceptedExactly` | tools/publish-release-pair.py:31-42 | Assets are accepted exactly when they are the expected ones in some order: as many, and each expected name there with its size and digest, uploaded. |
| `ReleasePublication.Publisher.TagCommit` | tools/publish-release-pair.py:68-79 | Reports the commit the tag named when the reference was read, or none, and changes nothing. |
| `ReleasePublication.Publisher.Drafts` | tools/publish-release-pair.py:103-106 | Reports the drafts of the tag on the first page. |
| `ReleasePublication.Publisher.EstablishTag` | tools/publish-release-pair.py:82-100 | Passes only after reading the tag as naming the source; undisturbed it passes exactly when no release exists and the tag is absent (dispatch) or already names the source. |
| `ReleasePublication.Publisher.ClearStale` | tools/publish-release-pair.py:111-115 | Deletes only listed drafts of exactly this publication, and refuses at the first other draft. |
| `ReleasePublication.Publisher.OpenDraft` | tools/publish-release-pair.py:116-124 | Passes only with exactly one listed draft after creating one, and returns it. |
| `ReleasePublication.Publisher.PublishOrDelete` | tools/publish-release-pair.py:125-132 | Publishes only a verified draft under a tag just read; on an error the last call deletes the draft, which stays published exactly when stranded. |
| `ReleasePublication.Publisher.ConfirmOrWithdraw` | tools/publish-release-pair.py:133-141 | Passes only when tag and published assets are confirmed afterwards; otherwise withdraws to a draft, or stays published exactly when stranded. |
| `ReleasePublication.Publisher.PublishVerified` | tools/publish-release-pair.py:109-141 | Leaves the list without its stale drafts and on top nothing, its draft, or its release, the last exactly on success or when stranded; undisturbed it succeeds exactly when tag, assets and drafts allow it. |
| `ReleasePublication.Publisher.Publish` | tools/publish-release-pair.py:82-141 | While others move only tags, what is published changes exactly on success or when stranded, by its own verified release; a failed attempt not stranded can be rerun, and an undisturbed rerun succeeds. |
| `ReleasePublication.PublicationHasEvidence` | tools/publish-release-pair.py:125-129 | In every run a release is made public only after a listing in which exactly that draft stood with verified assets and a later tag read that found the source. |
| `ReleaseEvidence.PublishedOnEvidence` | tools/publish-release-pair.py:109-129 | Every publishing call is on a draft that this run created and then found as the only listed one of the tag, after a listing that showed exactly the expected assets in it and a later read of the tag from which at most eight links led to the source. |
| `ReleaseEvidence.DeletedOnEvidence` | tools/publish-release-pair.py:109-141 | Every deleted release is the run's own draft, or was listed before as a draft of this tag, source and title. |
| `ReleaseEvidence.TaggedOnEvidence` | tools/publish-release-pair.py:86-92 | A tag is created only for the source, after the remote answered that there is none. |
| `ReleaseEvidence.OwnCallsOnly` | tools/publish-release-pair.py:115-141 | A draft is created for this tag, source and title alone, and a release is withdrawn only if this run published it. |
| `ReleaseEvidence.SuccessIsConfirmed` | tools/publish-release-pair.py:125-141 | A run that reports success published, then found the source behind the tag, and then a published release of the tag with exactly the expected assets. |
| `ReleaseEvidence.SucceedsExactly` | tools/publish-release-pair.py:82-141 | An undisturbed run succeeds exactly when nothing is published under the tag, the tag leads to the source in at most eight links or is absent in a dispatched run, the first hundred releases hold no draft of the tag but earlier attempts at this publication and none comes into them by the removals, and the delivered assets are the expected ones. |
| `ReleasePublication.ChangeHasEvidence` | tools/publish-release-pair.py:111-141 | A release disappears or changes only by a call naming it whose evidence is already in the record. |
| `ReleasePublication.TagsAreNeverReplaced` | tools/publish-release-pair.py:86-92 | No call of any run replaces a tag; the one it may create names the source. |
| `ReleasePublication.LeavesPublished` | tools/publish-release-pair.py:109-141 | Where an attempt leaves the list, at most its own release was added to what is published. |
| `ReleasePublication.RecoverableIsReady` | tools/publish-release-pair.py:109-123 | A usable tag and only own drafts on the first page satisfy every guard of a run. |
| `ReleasePublication.RecoverableStays` | tools/publish-release-pair.py:124-141 | A failed attempt that left nothing published keeps that state. |
| `ReleasePublication.StrandedReleaseBlocks` | tools/publish-release-pair.py:82-84 | A release left published makes every rerun refuse. |
| `AnalystText.CountUtf8` | apps/research-ui/analyst_runner_core.js:5-13 | Counts the UTF-8 size of any UTF-16 text. |
| `AnalystText.CountIsTheEncodedLength` | apps/research-ui/analyst_runner_core.js:5-13 | For text without lone surrogates the count is the length of its UTF-8 encoding. |
| `AnalystText.CountIsTheMendedLength` | apps/research-ui/analyst_runner_core.js:5-13 | Any text counts as many bytes as its UTF-8 encoding has once every unit that belongs to no character is replaced by U+FFFD. |
| `AnalystText.BoundedIsTheLongestPrefix` | apps/research-ui/analyst_runner_core.js:14-30 | The kept text is the longest prefix that splits no surrogate pair and fits the limit; text that fits is kept whole. |
| `AnalystText.BoundingTwice` | apps/research-ui/analyst_runner_core.js:14-30 | Bounding is idempotent. |
| `AnalystText.Cut` | apps/research-ui/analyst_runner_core.js:18-29 | The loop over points, widths and bytes computes that prefix. |
| `AnalystText.BoundedText` | apps/research-ui/analyst_runner_core.js:14-30 | So does the whole function, with a fixed text for a value that does not convert. |
| `AnalystRunner.CloneIsBounded` | apps/research-ui/analyst_runner_core.js:35-61 | On every graph each object is entered at most once and expanded only when entered, every entry of the copy is among the at most 512 counted, the depth is at most 8, and copied texts and keys fit their limits; an exception leaves the counters within the same bounds. |
| `AnalystRunner.LastAssignmentWins` | apps/research-ui/analyst_runner_core.js:51-60 | What assignments into one object leave under a key is the last value assigned to it, and nothing under `__proto__`. |
| `AnalystRunner.LostExactlyOnClash` | apps/research-ui/analyst_runner_core.js:51-60 | Fewer properties than assignments are left exactly when two keys coincide or one is `__proto__`. |
| `AnalystRunner.WholeExactly` | apps/research-ui/analyst_runner_core.js:31-61 | A copy made without an exception is whole, with "[Circular]" exactly at objects already entered, if and only if it is not reported truncated and no object reachable from the value shows two equal keys or a key `__proto__`; and it is whole with no text cut if and only if, besides, no key, symbol or function name in reach is over its limit. |
| `AnalystRunner.AlikeKeysLoseAValue` | apps/research-ui/analyst_runner_core.js:52-60 | Two own keys that show alike leave the later value alone, without a report. |
| `AnalystRunner.ProtoIsLost` | apps/research-ui/analyst_runner_core.js:52-60 | An own property `__proto__` vanishes without a report. |
| `AnalystRunner.KeysAreCutSilently` | apps/research-ui/analyst_runner_core.js:52-56 | Every key over 256 bytes is cut without that report. |
| `SerializerCases.StringsAreCut` | apps/research-ui/analyst_runner_core.js:36-40 | A string keeps the longest prefix within the limit and 8192 bytes, and is reported exactly when that is not all of it. |
| `SerializerCases.NamesAreCut` | apps/research-ui/analyst_runner_core.js:43-44 | Symbols keep 256 bytes and function names 128, unreported; a name that throws ends the copy. |
| `SerializerCases.FitsExactly` | apps/research-ui/analyst_runner_core.js:43-53 | A text of an object is uncut exactly when keys and symbols are within 256 bytes and function names within 128. |
| `SerializerCases.EightDeep` | apps/research-ui/analyst_runner_core.js:45 | Of n nested objects min(n, 8) are copied, and truncation is reported exactly when n is more than 8. |
| `SerializerCases.KeysAreCounted` | apps/research-ui/analyst_runner_core.js:51-53 | Of n keys those that fit into 512 over the whole graph are copied, in order, and truncation is reported exactly when some do not. |
| `SerializerCases.OrdinaryIsCopied` | apps/research-ui/analyst_runner_core.js:35-63 | A graph without throwing function names, whose arrays show a length as their length, is always copied. |
| `SerializerCases.StrangeLengthsThrow` | apps/research-ui/analyst_runner_core.js:50-60 | An array whose own length is a text is not copied: the assignment throws. |
| `SerializerCases.FixedTexts` | apps/research-ui/analyst_runner_core.js:64-66 | What stands for a copy that threw and for a value without JSON text, spelled out. |
| `AnalystRunner.Serializer.CloneOwn` | apps/research-ui/analyst_runner_core.js:51-61 | The loop over own keys, assigning into one object with the shared variables, leaves what the listed assignments leave, or the exception. |
| `AnalystRunner.Serializer.CloneValue` | apps/research-ui/analyst_runner_core.js:35-63 | One call copies one value and advances seen, entries and truncated as defined. |
| `AnalystRunner.Serializer.Serialize` | apps/research-ui/analyst_runner_core.js:31-69 | The text is the longest fitting prefix of the rendered copy; a result not reported truncated, of a value with nothing spoiled in reach, is the whole text of a whole copy, and the other way round, also when cut keys, symbols and names count; an exception gives the fixed text. |
| `ObjectGraph.ClosedSetHoldsReach` | apps/research-ui/analyst_runner_core.js:70-88 | A set with the root and all links of its members holds everything reachable. |
| `ObjectFreezing.Realm.DeepFreeze` | apps/research-ui/analyst_runner_core.js:70-88 | Ends on every graph; returns normally exactly when all reachable objects can be listed and frozen and are at most 50001, having frozen exactly those; otherwise it froze only reachable ones, at most that many. |
| `Unicode.DecodeIsTheInverse` | tools/native-js-invocation-site.py:56-59 | Bytes decode strictly to a text exactly when they are its encoding (section 3 of RFC 3629). |
| `Unicode.AsciiStartsACharacter` | tools/native-js-invocation-site.py:65-68 | The bytes before an ASCII byte of valid text are valid text. |
| `InvocationSite.BomIsThreeBytes` | tools/native-js-invocation-site.py:60-62 | Dropping the mark from the text is dropping its three bytes. |
| `InvocationSite.AcceptedExactlyAtParens` | tools/native-js-invocation-site.py:53-73 | For valid text and a canonical ID an offset is accepted exactly when the byte there, behind any mark, is 0x28. |
| `InvocationSite.RefusedForTheFirstReason` | tools/native-js-invocation-site.py:53-73 | Every refusal by the first reason there is: a non-canonical ID, bytes that are not UTF-8, an offset outside the text behind its mark, one whose byte continues a character, or any other byte than the parenthesis. |
| `InvocationSite.AnchorIsAParen` | tools/native-js-invocation-site.py:69-82 | The UTF-16 unit at the anchor is the parenthesis and lies inside the source. |
| `InvocationSite.AnchorsIncrease` | tools/native-js-invocation-site.py:69-82 | A later accepted offset has a later anchor. |
| `InvocationSite.SitesOfOneArtifactAreApart` | tools/native-js-invocation-site.py:92-97 | Two sites of one artifact share a key only at the same offset. |
| `InvocationSite.ByteOrderMarkKeepsTheKey` | tools/native-js-invocation-site.py:60-62 | A mark in front moves the byte offset by three and leaves the key. |
| `InvocationSite.SitesAreDistinctFunctions` | tools/native-js-invocation-site.py:92-101 | A file is written exactly for one to eight sites, no two of one function, whose text fits. |
| `StoredZip.ShiftIsABijection` | tools/check-client-project-export.swift:45-50 | One shift of the CRC register is undone by another function, both ways. |
| `StoredZip.OneByteChangesTheChecksum` | tools/check-client-project-export.swift:45-50 | Changing any one byte of a body changes its CRC. |
| `CrcResidue.ChecksumIsTheResidue` | tools/check-client-project-export.swift:45-50 | The checksum of every body is the one word that, written behind it in little-endian order, makes the whole, with its first and last four bytes complemented, a multiple of the CRC-32 generator over one bit. |
| `StoredZip.Checksum` | tools/check-client-project-export.swift:45-50 | The two nested loops compute that CRC. |
| `StoredZip.SlotOf` | tools/check-client-project-export.swift:18-24 | Every field of a table of separate fields reads back where it was put. |
| `ZipLayout.LocalHeaderSays` | tools/check-client-project-export.swift:51-58 | Every field of a local header, by its offset: signature, version, flags, method, time, date, checksum, both sizes, name length and no extra field. |
| `ZipLayout.CentralHeaderSays` | tools/check-client-project-export.swift:59-66 | Every field of a central header, with the offset of the local one; what is not written is zero. |
| `ZipLayout.EndRecordSays` | tools/check-client-project-export.swift:67-73 | Every field of the end record: one disk, the entry count twice, size and offset of the directory, and no comment. |
| `StoredZip.Zip` | tools/check-client-project-export.swift:41-74 | The loop builds locals, central directory and end record of the archive. |
| `StoredZip.Entries` | tools/check-client-project-export.swift:26-37 | The reader's loop over the counted entries, or a stop at an index outside the data. |
| `StoredZip.RoundTrip` | tools/check-client-project-export.swift:26-74 | Reading a written archive gives the entries back exactly when there are fewer than 2^16 and every name and body fits its field. |
| `StoredZip.CentralOffsetsNameLocals` | tools/check-client-project-export.swift:58-65 | Each central record's offset is where its entry's local header and data are. |
| `StoredZip.EndRecordNamesDirectory` | tools/check-client-project-export.swift:67-72 | The end record's offset and size delimit the central directory. |
| `BuildArgs.Build` | tools/write-brave-provenance.py:76-107 | The recursion ends on every import graph, and files read only accumulate. |
| `BuildArgs.ReadsExactlyTheInlinings` | tools/write-brave-provenance.py:83-107 | A reading succeeds exactly when the `//out/` imports unfold into a finite tree of well-formed regular files that opens each file once, and that tree is unique. |
| `BuildArgs.LastWriteWins` | tools/write-brave-provenance.py:97-106 | The value of a name is that of the last assignment in the inlined statements. |
| `BuildArgs.DottedExactly` | tools/write-brave-provenance.py:93-95 | An import is refused for its path exactly when two dots stand in it between slashes or its ends. |
| `BuildArgs.NestedExactly` | tools/write-brave-provenance.py:96-97 | Exactly the imports that begin with `//out/` are read in place, from below `out/` of the source root. |
| `BuildArgs.Reader.ReadBuildArgs` | tools/write-brave-provenance.py:76-107 | With one set shared by the recursion, strips and splits each file's text and returns the effective values and other imports of the inlined statements, or the error at its file and line. |
| `BuildArgs.ReportedLineIsRefused` | tools/write-brave-provenance.py:90-106 | The number an error reports belongs to a line of that file's text which the patterns refuse, with at most a comment cut off it; in undisturbed text it is the number of that very line. |
| `GnComments.StripGnComments` | tools/check-brave-services.py:58-85 | The loop over index and open quote computes the stripped text. |
| `GnComments.StripsExactlyComments` | tools/check-brave-services.py:58-85 | No `#` outside quotes is left, and text without one is left as it is. |
| `GnPieces.CommentsGo` | tools/check-brave-services.py:58-85 | Of a text made of characters, quoted strings with their escapes and comments, exactly the comments go. |
| `GnPieces.HasPieces` | tools/check-brave-services.py:58-85 | Every text is made of such pieces. |
| `GnComments.StrippingTwice` | tools/check-brave-services.py:58-85 | Stripping is idempotent. |
| `GnComments.StrippedLinesAreTrimmed` | tools/check-brave-services.py:58-92 | Every line `splitlines` gives of the stripped text is a line of the text with at most a comment cut off its end. |
| `GnComments.NumbersStayExactly` | tools/check-brave-services.py:58-92 | These lines keep their numbers if and only if no comment with anything kept behind the newline that ends it has another line end in it or begins right behind a carriage return. |
| `GnComments.HiddenLinesAreLost` | tools/check-brave-services.py:58-92 | The number of lines, counting what stands behind the last line end, falls by exactly the line ends inside comments and the newlines a carriage return takes up. |
| `GnComments.FormFeedMovesLines` | tools/check-brave-services.py:81-92 | A concrete text with a form feed in a comment whose last line is reported by a smaller number. |
| `SourceCoverage.CoveredSourceBytes` | tools/run-deobfuscation-benchmark.py:182-194 | The number of bytes in the union of the ranges, less start minus end for every inverted range that reaches past everything sorted before it; the union exactly when there is none. |
| `SourceCoverage.OrderedRangesCountTheUnion` | tools/run-deobfuscation-benchmark.py:182-194 | Ranges with start at most end always count the union. |
| `SourceCoverage.SameRangesSameBytes` | tools/run-deobfuscation-benchmark.py:183-186 | The union does not depend on the order. |
| `SourceCoverage.CoverageIsMonotone` | tools/run-deobfuscation-benchmark.py:182-194 | More ranges never cover less. |
| `SourceCoverage.CoverageFitsTheSource` | tools/run-deobfuscation-benchmark.py:182-194 | A length that bounds all ends bounds the count. |
| `SourceCoverage.InvertedRangeIsSubtracted` | tools/run-deobfuscation-benchmark.py:189-193 | The range from 3 to 1 covers nothing and takes 2 away. |
| `DocumentStart.Registry.Accounted` | tools/check-native-console.py:79-103 | Retained sequences are consecutive and end before the next one, at most 128 are retained, and dropped plus retained records are the records since the last arm or clear and the sum of the script counters. |
| `DocumentStart.Registry.Emit` | tools/check-native-console.py:88-103 | One record is appended with the next sequence, the oldest is dropped from a full ring, and one script's counters advance. |
| `DocumentStart.ArmableMeans` | tools/check-native-console.py:114-125 | What can be armed: one to four entries for the top or a child frame, each of 1 to 4096 bytes and of 8192 together. |
| `DocumentStart.BurstMeans` | tools/check-native-console.py:137-144 | A script records one injection and then 200 numbered reports or a single one. |
| `DocumentStart.CountsOfBursts` | tools/check-native-console.py:99-103 | Among the bursts of scripts with different ids each script's own records number 201 or 2, one of them an injection and none a refusal. |
| `DocumentStart.Registry.ArmScripts` | tools/check-native-console.py:114-145 | Succeeds exactly for an armable list, numbering and running the scripts in order, with 201 or 2 records, one injection and no refusal counted for each; a refusal names the first entry at fault, or the number of entries, and only moves the script numbering past the entries before it. |
| `DocumentStart.Registry.ClearScripts` | tools/check-native-console.py:147-156 | Empties set, output and drops, keeping the sequence, unless a script resists, when nothing changes. |
| `DocumentStart.Registry.Obey` | tools/check-native-console.py:174-194 | Each command does exactly what its operation does, or is refused with its text; every refused or unavailable command leaves armed set, generation, output and drops, and reading the state changes nothing. |
| `DocumentStart.Registry.StateShows` | tools/check-native-console.py:158-172 | The reply to a state command over all records since the last arm or clear: of the last 128 the first 32 behind the cursor, the number of the oldest kept, how many are kept and how many are lost. |
| `DocumentStart.PageOfHistory` | tools/check-native-console.py:158-172 | A page starts at the first retained record behind the cursor and has no gap. |
| `DocumentStart.PagingReadsEverythingOnce` | tools/check-native-console.py:158-172 | Paging by the last sequence returns each retained later record exactly once, in order. |
| `DocumentStart.ReadingContinues` | tools/check-native-console.py:158-172 | A reader that returns after more was recorded sees nothing twice and misses only dropped records. |

## Left out

- Git as such: patches apply at fixed positions (no fuzzy offsets, renames or mode-only changes), `git apply` and an overlay copy are atomic, and hook and configuration probing is not modelled.
- Checkout ownership, nested checkouts, symlinked ancestors and malformed audit or receipt files: path checks before the modelled logic.
- The unaffected check and an accepted `begin` read the disk in one step; the checks and the replacement of the target are one step, and bytes are compared without the mode on the way forward, as in the source.
- The sync script plans its three stacks before `begin`, the model behind it. Without edits between the two the plans are the same, and the theorems about chains do not turn on it.
- The init, prepare and adopt phases: they follow the same record-then-act shape with fewer guards.
- Pipe reads and writes in parts, the helper's command-line parsing, and its diagnostics on standard error.
- ReleasePublication.Publisher.Publish: HTTP and authentication; a signal between two calls of the publisher; the checks of local files before the tag is established.
- AnalystRunner.Serializer.Serialize: `JSON.stringify` is a parameter; of arrays it prints the elements alone. A proxy of an array that names a smaller length deletes elements, which the model keeps.
- InvocationSite.SitesAreDistinctFunctions: the rendering of a site file is a parameter (its length), and digests stand for the texts they are of.
- StoredZip.RoundTrip: names are their UTF-8 bytes; the conversion to strings is not modelled.
- BuildArgs.Reader.ReadBuildArgs: the two line patterns and the reading of literals are one function parameter, and files arrive as decoded text.
- Surrogates in armed sources and the wire transport of the console.
- The registry, event broker and origin-trace builder: the code that decides their properties is not part of this model.
- Field-by-field payload predicates, scope classification, release-note text and golden files: finite case tables.
