# Models and proofs for the WarpFusion tool chain

This project models, in Dafny 4.11, the parts of the WarpFusion workspace where a mistake would lose
data or leave a project half updated, and proves what those parts promise. `dafny verify dfyconfig.toml`
checks all of it.

What is modelled, by component:

* **Updating a project from its remote repository** (`crates/wf-project-remote`). The work root is a
  finite tree of directories, files and links. An update compares the managed directories with a
  checkout, backs them up, replaces them, records the new version and validates the result; any single
  file operation may fail at any moment, with any partial effect the operation allows, and the update
  then rolls back. In a work root marked reliable no operation fails, and the
  results say when an update then goes through. Two repository groups share one backup area and one state file.
  (`FileTree`, `TreeCompare`, `TreeCopy`, `ManagedDirs`, `RemoteState`, `RemoteUpdate`)
* **The daemon's reload protocol over it** (`crates/wfusion`). Requests, background monitors and
  command-line updaters interleave in any order as steps of a state machine with a gate, a flag and a
  file lock. Beside it stands the handler of one request, updating the shared application state and
  the project's files in sequence. (`ReloadProtocol`, `AdminReload`)
* **Frame files** (`crates/wfgen`). The length-prefixed codec with its writer and two independent
  readers, and the splitting of a frame file by key into shard files. (`FrameCodec`, `FrameScan`,
  `KeySharding`, `ShardFrames`; `ArrowCodes` shows that what is asked of the Arrow library can be met)
* **NEXMark generation and its checks.** Ids and references in closed form, every random draw left
  open within the range asked for; an independent checker that recounts them; the range check; the
  time buckets. (`Nexmark`, `NexmarkCheck`, `TimeBuckets`)
* **Verification plumbing.** Rule grouping by union-find with path halving in an array, and the two
  multiset comparisons of output lines. (`RuleGroups`, `LineDiff`)
* **Event and text transformations.** Budgets, spacing and heap merge of a scenario's events, the
  two-pass fault injector, the WFL source formatter. (`ChunkMerge`, `FaultInjection`, `SourceFormat`;
  `StableSort` is the reference the merge, the buckets and the deferred list are compared with)

What the program updates in place is updated in place here: the work root and the daemon's state are
classes, the union-find runs on an array, loops over buffers and counters are loops with invariants.
Each of these is proved against a function or a property of the values involved, and the lemmas are
about those.

## Where the code and its own description differ

* `paths_equal` treats two dangling links as equal whatever their targets, and a managed root that is
  a dangling link is not saved by the backup. `DanglingLinksHideADifference` and `DanglingRootIsLost`
  show the consequences; the rollback is exact if and only if no managed root dangles (`RestoreUndoes`;
  over all interleavings `FailureRestoresExactly`).
* In the other direction `paths_equal` takes the same contents for different if a link resolves on one
  side only, as a relative link out of the tree does. Such a link makes every update report a change
  and replace the directory again (`ContentsAreSeenExactly`, `QuietAfterInstallExactly`,
  `OutwardLinkLooksChanged`).
* After a success that reports a change, the directory is the checkout's unless the checkout's own root
  is a dangling link, which is the only thing lost; after one that reports none, exactly if the dangling
  links agreed already (`InstalledExactly`).
* `scan_frames` accepts more length prefixes than `read_frame`: surrounding white space, a plus sign, more
  than sixteen digits. `ScannedFilesReadBack` says exactly when the two agree. Neither takes a cut file.
* Events are merged by 64-bit nanoseconds, with one fallback for every time outside, so `generate` does
  not always yield a sorted stream. With only background events it does, whatever the streams, if and
  only if the duration, read as a signed 64-bit number w of nanoseconds, is -1, 0 or 1, or it is not
  negative and the start and the start plus w - 1 lie within 64 bits. Two streams that start in the year
  3000 are an example, and so is one stream of two events over 300 years. `GeneratesInTimeExactly` has the
  condition with injected events; for arbitrary chunks see `MergesInTimeExactly`.
* The comment on the rule grouping says every yield-bind chain stays in one group. Two rules that yield
  to one window break it, since the map keeps the last of them; `PairsStayTogether` gives the condition.
* The range check's bound is the floor of two percent of the count, so a run that stops inside an epoch
  can have a legal reference flagged. It never does if and only if the count is 0 or 1 modulo 50
  (`NeverFlagsExactly`).
* A late event is described as arriving noticeably later. It does so if and only if a later event that is
  not itself late arrives at all (`LateIsOvertaken`); `LateBeforeADropIsInPlace` is the small
  counterexample.
* `next_string` documents lengths up to its maximum; the code stops one short of it (`DrawnLengths`).
* The absolute value of a bit-reversed channel number is said to overflow once in 2^32. It does for
  channel 1 and no other (`NegativeIdExactly`), which is one of the ten thousand channels drawn from.
* That absolute value also makes channels share an id, 2 and 3 for example (`ChannelIdsExactly`,
  `ChannelsShareAnId`).
* A repeated request id can make the status show no current request while a reload is under way
  (`RepeatedIdHidesTheReload`); it names it in every run if and only if the ids are distinct
  (`StatusExactly`).

## Model

| member | source | states |
|---|---|---|
| FileTree.Workspace.CreateDirAll | crates/wf-project-remote/src/managed.rs:37-38 | creates the missing directories up to the path and nothing else; on failure some of them |
| FileTree.Workspace.RemoveDirAll | crates/wf-project-remote/src/managed.rs:316-336 | success leaves nothing at or below the path; failure removes any part of it and touches nothing outside |
| TreeCompare.PathsEqual | crates/wf-project-remote/src/managed.rs:112-181 | answers true exactly when both sides show the same names, bytes and link targets through link-following existence; an unreadable node is an error; without I/O errors and special files there is an answer |
| TreeCompare.ChildrenEqual | crates/wf-project-remote/src/managed.rs:147-157 | the loop over entry names decides the view of all children |
| TreeCompare.ViewIsContents | crates/wf-project-remote/src/managed.rs:112-158 | where no link dangles, what is compared is exactly the contents of the two trees |
| TreeCompare.ChildrenMakeTheView | crates/wf-project-remote/src/managed.rs:147-157 | the view of a directory is the view of each child and the same names |
| TreeCopy.RemovePath | crates/wf-project-remote/src/managed.rs:316-335 | success leaves nothing at the path, whatever stood there; nothing outside it changes |
| TreeCopy.CopySymlink | crates/wf-project-remote/src/managed.rs:261-315 | the link arrives with its target in place of whatever was there, with the directories on the way made; nothing else changes |
| TreeCopy.CopyDir | crates/wf-project-remote/src/managed.rs:186-235 | success merges the source tree over the destination: every node of the source stands at its place, modes included, and what only the destination had is kept, except below a link that has replaced it |
| TreeCopy.CopyPath | crates/wf-project-remote/src/managed.rs:183-259 | the same for a file, a link or a directory; whatever happens, only the destination and missing directories on the way to it are touched |
| TreeCopy.MergedIsCopied | crates/wf-project-remote/src/managed.rs:183-259 | a merge onto nothing, or onto a part of the copy, is an exact copy |
| ManagedDirs.ManagedDirsFor | crates/wf-project-remote/src/managed.rs:9-19 | each group's directory names are distinct and never the runtime area |
| ManagedDirs.GroupsDivideTheDirs | crates/wf-project-remote/src/managed.rs:9-19 | the two groups divide the four managed directories between them, models alone in its group |
| ManagedDirs.ManifestRoundTrip | crates/wf-project-remote/src/managed.rs:50-55 | a written backup manifest reads back as the same list, however it is laid out |
| ManagedDirs.ManagedDirsDiffer | crates/wf-project-remote/src/managed.rs:21-32 | false exactly when every directory in scope shows the same as the checkout's |
| ManagedDirs.BackupManagedDirs | crates/wf-project-remote/src/managed.rs:34-57 | success leaves a copy of every existing directory in scope and a manifest naming exactly those; the directories themselves are untouched either way; it succeeds wherever no step breaks, the area is free and the directories hold no special files |
| ManagedDirs.SyncManagedDirs | crates/wf-project-remote/src/managed.rs:59-73 | success makes every directory in scope the checkout's, or absent with it; nothing outside the scope changes even on failure |
| ManagedDirs.RestoreManagedDirs | crates/wf-project-remote/src/managed.rs:75-110 | success puts back what the manifest names and removes the rest of the scope; a manifest naming other directories is refused untouched |
| ManagedDirs.RestoreUndoes | crates/wf-project-remote/src/managed.rs:34-110 | backup, any changes that leave the backup alone, restore: the scope is unchanged if and only if no managed root was a dangling link |
| ManagedDirs.RestoreIsIdempotent | crates/wf-project-remote/src/managed.rs:100-110 | restoring twice from one backup is restoring once |
| RemoteState.StateRoundTrip | crates/wf-project-remote/src/lib.rs:104-126 | every state written parses back as itself, the two untagged forms never confused |
| RemoteState.LoadState | crates/wf-project-remote/src/state.rs:113-128 | no file is no state, a file that does not parse is an error |
| RemoteState.AtomicWriteFile | crates/wf-project-remote/src/state.rs:149-164 | the file is afterwards either the new bytes or what it was before |
| RemoteState.ReadOptionalFile | crates/wf-project-remote/src/state.rs:184-193 | what is captured is what the file holds, or that there is none |
| RemoteState.RestoreOptionalFile | crates/wf-project-remote/src/state.rs:166-182 | success gives the captured bytes, or no file where there was none, and touches only the file, its temporary name and the runtime directory |
| RemoteState.RestoreStateFile | crates/wf-project-remote/src/state.rs:144-181 | success gives the captured bytes, or no file where there was none |
| RemoteState.RestoreParsedState | crates/wf-project-remote/src/state.rs:130-142 | success gives a file that parses to the previous state |
| RemoteState.NextStateRecords | crates/wf-project-remote/src/state.rs:240-293 | the recorded state names the new revision for the updated group and keeps the other group's entry; refused only for a single-repository update over a dual state |
| RemoteState.PersistState | crates/wf-project-remote/src/state.rs:240-298 | success loads back as the next state; failure keeps the state file |
| RemoteUpdate.PrepareCheckout | crates/wf-project-remote/src/lib.rs:463-508 | whatever git does stays inside the group's cache; what it answers is what the cache then has checked out, and where nothing goes wrong it answers |
| RemoteUpdate.CachesApart | crates/wf-project-remote/src/lib.rs:434-440 | each group has its own cache beside the one of a project updated as a whole, none inside another |
| RemoteUpdate.RollbackPartialUpdate | crates/wf-project-remote/src/lib.rs:601-611 | success gives back the directories of the backup and the previous parsed state |
| RemoteUpdate.ApplyOrRollBack | crates/wf-project-remote/src/lib.rs:547-586 | either the checkout is installed and recorded, or an error whose successful rollback restored directories and state |
| RemoteUpdate.Sync | crates/wf-project-remote/src/lib.rs:442-599 | the same for the whole synchronisation, whichever step fails; the state file is compared after parsing; a success records and reports the version, tag and revision that are checked out, with the revision on record before, and says changed only where a directory differed; where nothing stands in the way and no step breaks it is a success, if and only if the state on record may be written over |
| RemoteUpdate.RevisionForExactly | crates/wf-project-remote/src/lib.rs:511-520 | the revision reported as the one before is that of the group's entry, except that a single state's counts for either group |
| RemoteUpdate.RestoreUpdate | crates/wf-project-remote/src/state.rs:71-83 | success undoes an update: scope rolled back, state file byte for byte |
| RemoteUpdate.RunRemoteUpdateLocked | crates/wf-project-remote/src/lib.rs:294-362 | after success the scope is the checkout's and the state records it, changed or not; after an error whose rollback succeeded scope and state are what they were; never touches anything outside the update's zone; what is on record and reported is what is checked out; a success is one whose configuration loads, and a failed check one whose did not; where nothing stands in the way and no step breaks, only the check or the state on record can make it fail, and then the rollback goes through |
| RemoteUpdate.RunRemoteUpdate | crates/wf-project-remote/src/lib.rs:252-288 | the same from the capture of the snapshot on |
| RemoteUpdate.RolledBackIsUnchanged | crates/wf-project-remote/src/lib.rs:574-586 | with no dangling managed root, rolled back means unchanged path by path |
| RemoteUpdate.ViewIsContentsExactly | crates/wf-project-remote/src/managed.rs:112-158 | two sides that compare equal have the same contents if and only if the links that lead nowhere on both are the same |
| RemoteUpdate.ContentsAreSeenExactly | crates/wf-project-remote/src/managed.rs:112-158 | two sides with the same contents compare equal if and only if no link leads somewhere on one of them and nowhere on the other |
| RemoteUpdate.ViewAgainstContents | crates/wf-project-remote/src/managed.rs:112-158 | both halves in one, for any two paths: what is compared, with what leads nowhere alike, is the contents, with what leads somewhere alike |
| RemoteUpdate.InstalledExactly | crates/wf-project-remote/src/lib.rs:510-562 | after a success the directory is the checkout's, names, bytes and link targets: with a change, if and only if the checkout's own root is no dangling link; without one, if and only if the dangling links were the same on both sides already |
| RemoteUpdate.InstalledIsTheCheckout | crates/wf-project-remote/src/lib.rs:510-562 | so where no link dangles, in the checkout and, if no change was reported, in the directory, the two have the same names, bytes and link targets |
| RemoteUpdate.QuietAfterInstallExactly | crates/wf-project-remote/src/lib.rs:510-562 | compared again after a success the two sides look the same if and only if no link leads somewhere in one place only; otherwise each update reports a change again |
| RemoteUpdate.UpdateStaysInScope | crates/wf-project-remote/src/lib.rs:434-449 | other groups' directories and the runtime's other files are outside what an update may touch |
| RemoteUpdate.GroupsStayApart | crates/wf-project-remote/src/lib.rs:434-449 | an update of one group touches neither the directories nor the checkout of the other |
| RemoteUpdate.DanglingLinksHideADifference | crates/wf-project-remote/src/managed.rs:113-117 | witness: two dangling links with different targets compare equal |
| RemoteUpdate.OutwardLinkLooksChanged | crates/wf-project-remote/src/managed.rs:113-120 | witness: one link to the outside, the same on both sides, that resolves from the work root only and compares as a change |
| RemoteUpdate.DanglingRootIsLost | crates/wf-project-remote/src/managed.rs:43-45 | witness: a managed root that is a dangling link is deleted by a rollback |
| ReloadProtocol.StepKeepsInv | crates/wfusion/src/admin_api.rs:594-1048 | every step of every actor keeps the protocol's invariant |
| ReloadProtocol.RunKeepsInv | crates/wfusion/src/admin_api.rs:594-1048 | and so does every run |
| ReloadProtocol.MutualExclusion | crates/wf-project-remote/src/state.rs:195-231 | in every reachable world at most one actor is between taking the file lock and dropping it, and at most one past the gate |
| ReloadProtocol.OnlyTheHolderWrites | crates/wf-project-remote/src/lib.rs:290-301 | only the lock's holder changes project, backup or runtime artifacts |
| ReloadProtocol.OutcomeByEvents | crates/wfusion/src/admin_api.rs:794-1230 | an actor that has taken the lock ends by what happened until it drops it: broken if and only if an undo failed, failed if and only if some step failed and none of the undo, kept if and only if its reload task ended well, or for an update alone its check |
| ReloadProtocol.FailureRestoresTheProject | crates/wfusion/src/admin_api.rs:794-902 | in every interleaving: if between taking and dropping the lock some step of the actor's update or reload fails and no undo does, the project is left as it was when the lock was taken, an update at most without the scoped roots that led nowhere, and for an update the runtime artifacts as they were |
| ReloadProtocol.FailureRestoresExactly | crates/wfusion/src/admin_api.rs:794-902 | every such run leaves the project as it was, if and only if the actor does not update or no root in its scope is a dangling link |
| ReloadProtocol.SuccessKeepsTheProject | crates/wfusion/src/admin_api.rs:1133-1192 | from a good check until the lock is dropped, with the reload task ended well where there is one, the project stays the validated one |
| ReloadProtocol.SuccessInstallsTheCheckout | crates/wf-project-remote/src/lib.rs:528-562 | so a kept update has put the checkout's directories in place of the scoped ones, and the new state, and has left the other directories as they were |
| ReloadProtocol.SuccessRecordsTheState | crates/wf-project-remote/src/lib.rs:528-562 | and one without a difference has changed the state only |
| ReloadProtocol.WithoutUpdateNothingChanges | crates/wfusion/src/admin_api.rs:816-1048 | a reload that does not update leaves the project alone, however it ends |
| ReloadProtocol.RefusedByEvents | crates/wfusion/src/admin_api.rs:594-815 | an actor that is done was refused if and only if it never got the lock, and otherwise is failed, broken or kept |
| ReloadProtocol.ReloadingMeansOneActive | crates/wfusion/src/admin_api.rs:760-791 | the flag is up exactly while one request, and only one, is between raising and lowering it |
| ReloadProtocol.QuietIsClean | crates/wfusion/src/admin_api.rs:1404-1423 | with nobody between start and finish the flag is down and no request is on record |
| ReloadProtocol.NobodyIsStuck | crates/wfusion/src/admin_api.rs:594-1048 | an unfinished actor always has a step, whatever the others do |
| ReloadProtocol.FinishesOnce | crates/wfusion/src/admin_api.rs:791-1048 | an actor takes a bounded number of steps and lowers the flag as often as it raised it |
| ReloadProtocol.DoneIsBalanced | crates/wfusion/src/admin_api.rs:1414-1423 | a finished request raised and lowered the flag equally often, at most once |
| ReloadProtocol.StatusNamesTheActive | crates/wfusion/src/admin_api.rs:1404-1423 | with distinct ids the status names the request under way in every reachable world |
| ReloadProtocol.RepeatedIdHidesTheReload | crates/wfusion/src/admin_api.rs:1414-1419 | for any two requests with one id, in any initial world, a run that shows no current request while a reload is under way |
| ReloadProtocol.StatusExactly | crates/wfusion/src/admin_api.rs:1404-1423 | the status names the request under way in every run if and only if no two requests share an id |
| AdminReload.AppState.MarkReloadStarted | crates/wfusion/src/admin_api.rs:1404-1412 | every field after the start of a reload |
| AdminReload.AppState.MarkReloadFinished | crates/wfusion/src/admin_api.rs:1414-1423 | every field after its end; another request's id is left on record |
| AdminReload.ProtocolStarts | crates/wfusion/src/admin_api.rs:1404-1412 | the protocol's two start steps do to the shared flags what the method does to the fields |
| AdminReload.ProtocolFinishes | crates/wfusion/src/admin_api.rs:1414-1423 | and its two end steps likewise |
| AdminReload.GroupNamesExactly | crates/wf-project-remote/src/lib.rs:88-102 | each group is asked for by its own label and by no other string |
| AdminReload.CaptureArtifacts | crates/wf-project-remote/src/state.rs:86-95 | what is kept for the rollback is what the two artifact files hold, or that they are not there |
| AdminReload.RestoreArtifacts | crates/wf-project-remote/src/state.rs:97-111 | success puts both files back as captured; nothing else is touched; it succeeds where no step breaks and files can stand there |
| AdminReload.RollBackUpdatedProject | crates/wfusion/src/admin_api.rs:1281-1329 | no warning means scope, state file and runtime artifacts are those of before the update; nothing to undo means nothing touched; there is none where no step breaks and nothing stands in the way |
| AdminReload.MapReloadResult | crates/wfusion/src/admin_api.rs:1073-1230 | the end is recorded under the request's id and named done, restart required or failed as the task ended; applied and blocked keep the files, a failure without a warning restores them |
| AdminReload.FinishReload | crates/wfusion/src/admin_api.rs:1073-1230 | a reload under way, whatever the engine writes meanwhile, ends on record with the files as its result says: kept when applied or blocked, restored on a failure without a warning; the result is the engine's, or failed where the configuration did not load |
| AdminReload.ReloadLocked | crates/wfusion/src/admin_api.rs:816-1048 | by result reported: what is installed, rolled back or untouched, and always within the group's zone; or, if the answer is that the reload is running, that everything to finish it is at hand; the answer is what the loader and the engine say; where nothing stands in the way and no step breaks, every undo goes through and an update fails only over a state it may not overwrite or a configuration that does not load |
| AdminReload.CheckRequest | crates/wfusion/src/admin_api.rs:622-777 | which refusal is given, and that there is none, exactly, in terms of the request, the remote's configuration, the runtime and the flag |
| AdminReload.HandleReload | crates/wfusion/src/admin_api.rs:594-1048 | refused if and only if the gate is held, the request may not start or a reload is under way, and then nothing changes; one that is answered at its end leaves it on record with the flag down and the files as the result says; one that is answered while it runs leaves the flag up under its id and the reload ready to be finished |
| FrameCodec.ValueOfDigits | crates/wfgen/src/cmd_frames/shard.rs:242-247 | a written length reads back as the length |
| FrameCodec.DigitCount | crates/wfgen/src/cmd_frames/shard.rs:471-501 | a length has at most k digits exactly when it is below 10^k |
| FrameCodec.Reader.ReadExact | crates/wfgen/src/cmd_frames/shard.rs:507-508 | all the bytes asked for, or an error with the input used up |
| FrameCodec.Reader.ReadPrefix | crates/wfgen/src/cmd_frames/shard.rs:475-501 | the digits up to the space; end of file only before the first byte |
| FrameCodec.Reader.ReadFrame | crates/wfgen/src/cmd_frames/shard.rs:472-510 | returns what the remaining bytes parse to and moves just past it |
| FrameCodec.ReadAfterWrite | crates/wfgen/src/cmd_frames/shard.rs:242-247 | reading written frames followed by anything gives the payloads and then what follows |
| FrameCodec.RoundTrip | crates/wfgen/src/cmd_frames/shard.rs:242-247 | reading a written file gives exactly its payloads and then the end |
| FrameCodec.FramesSpelledOut | crates/wfgen/src/cmd_frames/shard.rs:242-247 | two frames byte for byte |
| FrameCodec.PrefixExactly | crates/wfgen/src/cmd_frames/shard.rs:471-510 | digits and a space start a frame if and only if there are at most sixteen digits and as many bytes follow as they say; the frame is those bytes |
| FrameCodec.OnlyASpaceEndsAPrefix | crates/wfgen/src/cmd_frames/shard.rs:478-501 | digits and any other byte are an error, and so is a space without digits |
| FrameCodec.CutFrameIsBad | crates/wfgen/src/cmd_frames/shard.rs:478-508 | a frame cut anywhere is an error, never a clean end |
| FrameCodec.CutFileIsRefused | crates/wfgen/src/cmd_frames/shard.rs:478-508 | so a file that ends inside a frame is refused |
| FrameScan.ScanFrames | crates/wfgen/src/cmd_perf_diag/frames.rs:64-110 | lists offset, length and rows of every frame, or fails as a whole |
| FrameScan.SpaceAheadExactly | crates/wfgen/src/cmd_perf_diag/frames.rs:86-91 | a white-space character in UTF-8 at the front of a prefix is found with its length |
| FrameScan.SpaceAheadIsOne | crates/wfgen/src/cmd_perf_diag/frames.rs:86-91 | and nothing else is taken for one |
| FrameScan.SpaceBehindExactly | crates/wfgen/src/cmd_perf_diag/frames.rs:86-91 | the same at the end of a prefix |
| FrameScan.SpaceBehindIsOne | crates/wfgen/src/cmd_perf_diag/frames.rs:86-91 | and nothing else is taken for one there |
| FrameScan.ScanCovers | crates/wfgen/src/cmd_perf_diag/frames.rs:103-108 | the listed frames follow one another without gaps and cover the file |
| FrameScan.ReadersOnOneFrame | crates/wfgen/src/cmd_perf_diag/frames.rs:64-110 | on one frame the two readers agree exactly where the scanned prefix is plain digits and a space, sixteen at most |
| FrameScan.ScannedFilesReadBack | crates/wfgen/src/cmd_perf_diag/frames.rs:64-110 | a scanned file reads back to the same payloads if and only if every prefix is plain |
| FrameScan.ReadableFilesAreScanned | crates/wfgen/src/cmd_perf_diag/frames.rs:64-110 | whatever the streaming reader accepts is scanned, rows permitting |
| FrameScan.WrittenFilesAreScanned | crates/wfgen/src/cmd_perf_diag/frames.rs:64-110 | and so is whatever was written |
| FrameScan.ScanTakesASign | crates/wfgen/src/cmd_perf_diag/frames.rs:86-91 | for any payload that decodes: its frame behind a plus sign is scanned and not read |
| FrameScan.ScannedPrefixHasItsSpace | crates/wfgen/src/cmd_perf_diag/frames.rs:74-91 | where an empty payload does not decode, as for every tagged frame, a scanned prefix ends with its space |
| FrameScan.CutFrameNotScanned | crates/wfgen/src/cmd_perf_diag/frames.rs:64-110 | a frame cut anywhere is not scanned either |
| FrameScan.CutFileIsNotScanned | crates/wfgen/src/cmd_perf_diag/frames.rs:64-110 | so a file that ends inside a frame is refused as a whole by the scanner too, never taken for a clean end |
| FrameScan.PrefixRangeForN | crates/wfgen/src/cmd_perf_diag/frames.rs:115-134 | the shortest non-empty prefix whose rows reach the target, or all frames, with its end and its row sum |
| FrameScan.PrefixIsWholeFrames | crates/wfgen/src/cmd_perf_diag/frames.rs:115-134 | the bytes up to that end are exactly those frames |
| KeySharding.OneByteChangesTheHash | crates/wfgen/src/cmd_frames/shard.rs:549-556 | two byte strings that differ in exactly one byte never have the same hash |
| KeySharding.KeyBytesReadBack | crates/wfgen/src/cmd_frames/shard.rs:513-546 | what is hashed reads back as the key: eight or four bytes, least first, of a signed number, or the text itself |
| KeySharding.PublishedValues | crates/wfgen/src/cmd_frames/shard.rs:549-556 | the published 64-bit FNV-1a values of no byte, of one and of two, and a shard that follows |
| KeySharding.HashParity | crates/wfgen/src/cmd_frames/shard.rs:549-556 | the hash is even or odd as the sum of the bytes is odd or even |
| KeySharding.TwoShards | crates/wfgen/src/cmd_frames/shard.rs:513-556 | so with two shards a row goes by the parity of its key's bytes |
| KeySharding.TextsPart | crates/wfgen/src/cmd_frames/shard.rs:513-556 | texts that differ in one byte and there by an odd number part over two shards |
| KeySharding.NumbersPart | crates/wfgen/src/cmd_frames/shard.rs:513-556 | and so do 64-bit and 32-bit numbers that differ only in their last byte and there by an odd number |
| KeySharding.FillMasks | crates/wfgen/src/cmd_frames/shard.rs:58-61 | the masks say for every row and shard whether the row hashes there |
| KeySharding.ShardBatch | crates/wfgen/src/cmd_frames/shard.rs:43-74 | each shard gets its rows in order, an empty share is left out, a missing key column is an error |
| KeySharding.PartsAreTheBatch | crates/wfgen/src/cmd_frames/shard.rs:58-73 | the shards' parts together are the batch: no row lost, none sent twice |
| KeySharding.PartFollowsTheKey | crates/wfgen/src/cmd_frames/shard.rs:513-547 | a row with a key of a hashed type goes where its key says, wherever in its batch it stands |
| KeySharding.KeyAloneDecides | crates/wfgen/src/cmd_frames/shard.rs:513-547 | the shard depends on the key alone, for every row position and number of shards, if and only if the key is of one of the four hashed types |
| ShardFrames.TagExactly | crates/wfgen/src/cmd_frames/shard.rs:459-469 | a payload has a tag if and only if it starts with the tag's four-byte length and the tag, which is UTF-8 |
| ShardFrames.Utf8Exactly | crates/wfgen/src/cmd_frames/shard.rs:459-469 | the bytes of a tag are UTF-8 if and only if they are the form of some text |
| ArrowCodes.LawfulArrowExists | crates/wfgen/src/cmd_frames/shard.rs:459-469 | the laws that the sharding results ask of the Arrow library can be met: a pair of functions that meets them |
| ShardFrames.FlushPending | crates/wfgen/src/cmd_frames/shard.rs:218-239 | what was pending becomes one frame under its own tag, or stays nothing; fails only for mixed schemas |
| ShardFrames.Open | crates/wfgen/src/cmd_frames/mod.rs:394-412 | changing streams first writes out the other stream's rows, so none changes its tag |
| ShardFrames.Push | crates/wfgen/src/cmd_frames/mod.rs:413-418 | the rows join the accumulator, which never holds a full frame's worth afterwards; a full one is written out at once, and one that is not full is not |
| ShardFrames.AddSub | crates/wfgen/src/cmd_frames/mod.rs:391-418 | one shard's turn adds exactly its rows under exactly that tag |
| ShardFrames.AddParts | crates/wfgen/src/cmd_frames/mod.rs:388-419 | after a listed frame every shard has its share of all frames so far |
| ShardFrames.RawStep | crates/wfgen/src/cmd_frames/mod.rs:420-424 | an unlisted frame goes to shard 0 byte for byte and to no other |
| ShardFrames.Finish | crates/wfgen/src/cmd_frames/mod.rs:426-432 | after the final flush nothing is pending and the file holds the whole share |
| ShardFrames.FramesAreFull | crates/wfgen/src/cmd_frames/mod.rs:350-418 | of two listed frames of one stream in a shard file with no listed frame between them, the first has at least 100000 rows: rows are written early only where the stream changes |
| ShardFrames.FrameSizes | crates/wfgen/src/cmd_frames/mod.rs:350-418 | no listed frame in a shard file is empty or reaches 100000 rows and the largest input frame together |
| ShardFrames.ShardFile | crates/wfgen/src/cmd_frames/mod.rs:334-436 | on success every shard file is the encoding of frames whose rows under each listed tag are that shard's share in input order, shard 0 also the unlisted frames in order, each listed frame non-empty and below 100000 plus the largest input frame; succeeds for every readable input with one schema per stream and its key columns present |
| ShardFrames.SharesAreTheInput | crates/wfgen/src/cmd_frames/mod.rs:374-424 | all shares of a listed stream together are its input rows: nothing lost, duplicated or retagged |
| ShardFrames.KeyClosure | crates/wfgen/src/cmd_frames/shard.rs:512-547 | equal keys of one stream are in one shard, whichever frames they came in |
| RuleGroups.Find | crates/wfgen/src/cmd_verify_nexmark.rs:218-224 | terminates, returns the root and changes nobody's root |
| RuleGroups.HalvingKeepsRoots | crates/wfgen/src/cmd_verify_nexmark.rs:219-222 | pointing a node at its grandparent keeps the forest and every root |
| RuleGroups.MergedRoot | crates/wfgen/src/cmd_verify_nexmark.rs:234-236 | hanging one root below another gives exactly that tree's nodes the other root |
| RuleGroups.TreesAreComponents | crates/wfgen/src/cmd_verify_nexmark.rs:231-239 | two rules share a root if and only if a path of bind edges connects them |
| RuleGroups.Union | crates/wfgen/src/cmd_verify_nexmark.rs:234-236 | one bind edge joins the two components and no others |
| RuleGroups.YieldIndex | crates/wfgen/src/cmd_verify_nexmark.rs:226-230 | every yielded window leads to the last rule that yields it |
| RuleGroups.GroupRules | crates/wfgen/src/cmd_verify_nexmark.rs:218-246 | the groups divide all rules among themselves in rule order, two rules together exactly when bind edges connect them |
| RuleGroups.PairsStayTogether | crates/wfgen/src/cmd_verify_nexmark.rs:213-239 | every yield-bind pair runs together, whatever the binds, if and only if no window is yielded twice |
| RuleGroups.DuplicateTargetLosesAPair | crates/wfgen/src/cmd_verify_nexmark.rs:226-230 | for any two rules yielding one window there are binds that part a binder from the earlier one |
| Nexmark.DrawFor | crates/wfgen/src/nexmark/mod.rs:424-536 | every draw lies in the range asked for at its event |
| Nexmark.GenerateEvents | crates/wfgen/src/nexmark/mod.rs:405-541 | as many events as asked for, each one its draws can give |
| Nexmark.EventTimes | crates/wfgen/src/nexmark/mod.rs:421-423 | the first event stands at the start of 2026 and the next ones 100 microseconds apart |
| Nexmark.PersonsExactly | crates/wfgen/src/nexmark/mod.rs:424-458 | which cities and states a person event can have, and at which numbers there is one |
| Nexmark.AuctionsExactly | crates/wfgen/src/nexmark/mod.rs:459-486 | which first bids, reserves, durations and categories an auction event can have together, and at which numbers there is one |
| Nexmark.BidsExactly | crates/wfgen/src/nexmark/mod.rs:487-537 | which prices, channels and channel ids a bid event can have together, and at which numbers there is one |
| Nexmark.HorizonIsExact | crates/wfgen/src/nexmark/mod.rs:391-396 | the horizon is 167 ms where the event number ends in 4 or more, otherwise 166 ms |
| Nexmark.ExpiryBounds | crates/wfgen/src/nexmark/mod.rs:400-403 | an auction expires 1 ms to 334 ms after it opens |
| Nexmark.LastIdsCountTheStream | crates/wfgen/src/nexmark/mod.rs:348-377 | the closed forms equal the number of persons and auctions emitted so far, less one, at every event |
| Nexmark.IdsAreConsecutive | crates/wfgen/src/nexmark/mod.rs:424-477 | each person and auction takes the next number of its kind |
| Nexmark.NegativeIdExactly | crates/wfgen/src/nexmark/mod.rs:514-518 | of all 32-bit channel numbers exactly channel 1 gets a negative id: its reversed bits are the number without an absolute value |
| Nexmark.ReversedTwice | crates/wfgen/src/nexmark/mod.rs:514-516 | reversing the bits of a channel number twice gives it back |
| Nexmark.ChannelIdsExactly | crates/wfgen/src/nexmark/mod.rs:514-516 | ids fit in 32 bits, and two channels share one if and only if their reversed numbers add up to 2^32 |
| Nexmark.ChannelsShareAnId | crates/wfgen/src/nexmark/mod.rs:514-516 | witness: channels 2 and 3 |
| Nexmark.DrawnLengths | crates/wfgen/src/nexmark/mod.rs:287-297 | before its trim a string has three characters, or any number up to one less than the maximum, and no other |
| Nexmark.SegmentsExactly | crates/wfgen/src/nexmark/mod.rs:270-298 | a path segment of a URL is three or four small letters or underscores |
| Nexmark.DecimalReadsBack | crates/wfgen/src/nexmark/mod.rs:270-282 | a channel id as written into a URL reads back as the number |
| NexmarkCheck.CheckReferences | crates/wfgen/src/cmd_gen_nexmark.rs:240-304 | the counters and id sets find every reference violation of the stream |
| NexmarkCheck.GeneratedStreamsPass | crates/wfgen/src/cmd_gen_nexmark.rs:257-302 | whatever is drawn, a generated stream has no duplicate id and no reference out of its window or missing |
| NexmarkCheck.PassesExactly | crates/wfgen/src/cmd_gen_nexmark.rs:257-302 | the check counts no violation in a stream, generated or not, if and only if every event has a new id and only references within the window, to an entity that is there or still to come |
| NexmarkCheck.PersonIdIsNew | crates/wfgen/src/cmd_gen_nexmark.rs:264-269 | no person id is emitted twice |
| NexmarkCheck.AuctionIdIsNew | crates/wfgen/src/cmd_gen_nexmark.rs:270-273 | no auction id is emitted twice |
| NexmarkCheck.PersonRefRange | crates/wfgen/src/nexmark/mod.rs:356-361 | sellers and bidders, hot or cold, lie in the recent window plus lead |
| NexmarkCheck.HotPersons | crates/wfgen/src/nexmark/mod.rs:462-500 | a hot seller is the first of the last person's batch of a hundred, a hot bidder the second |
| NexmarkCheck.ColdPersons | crates/wfgen/src/nexmark/mod.rs:356-361 | a cold one is any of the last thousand persons or of the next ten, and no other |
| NexmarkCheck.AuctionRefRange | crates/wfgen/src/nexmark/mod.rs:381-386 | and so do the auctions of bids |
| NexmarkCheck.HotAuctions | crates/wfgen/src/nexmark/mod.rs:490-495 | a hot auction is the first of the last auction's batch of a hundred |
| NexmarkCheck.ColdAuctions | crates/wfgen/src/nexmark/mod.rs:381-386 | a cold one is any of the last hundred and one auctions or of the next ten, and no other |
| NexmarkCheck.UrlsAreGood | crates/wfgen/src/nexmark/mod.rs:270-298 | a generated URL has its seven parts and carries the channel id parameter exactly when the event has one |
| NexmarkCheck.NeverFlagsExactly | crates/wfgen/src/nexmark/mod.rs:545-604 | the range check flags no event of a run, whatever is drawn, if and only if the count is 0 or 1 modulo 50 |
| NexmarkCheck.OnePastTheBound | crates/wfgen/src/nexmark/mod.rs:546-551 | witness for every other count: the first auction of the broken epoch at full lead |
| TimeBuckets.Route | crates/wfgen/src/cmd_verify_nexmark.rs:51-77 | each bucket holds its events in order |
| TimeBuckets.BucketOf | crates/wfgen/src/cmd_gen_nexmark.rs:67-69 | every bucket index is in range, for any time |
| TimeBuckets.BucketsAreTheStableSort | crates/wfgen/src/cmd_gen_nexmark.rs:313-334 | the buckets one after the other are the stable sort of any events by bucket |
| TimeBuckets.BucketOfNumber | crates/wfgen/src/cmd_verify_nexmark.rs:38-40 | 300000 events to a bucket, the last one taking the remainder |
| TimeBuckets.GeneratedOrderSurvives | crates/wfgen/src/cmd_verify_nexmark.rs:51-77 | a generated stream comes back from the buckets in its own order |
| ChunkMerge.Least | crates/wfgen/src/datagen/mod.rs:164-170 | the heap's least item: by key, then by chunk |
| ChunkMerge.PopTakesTheFirst | crates/wfgen/src/datagen/mod.rs:189-195 | popping it takes the first element of the stable sort of what is left |
| ChunkMerge.MergeIsTheSort | crates/wfgen/src/datagen/mod.rs:172-198 | popping the least head by key and chunk until nothing is left is the stable sort, for chunks in the order of their keys |
| ChunkMerge.MergeSortedChunks | crates/wfgen/src/datagen/mod.rs:172-198 | computes the merge as defined by popping, for any chunks; loses and adds nothing; for sorted ones it is the stable sort of their concatenation |
| ChunkMerge.KeysTellTimeMerges | crates/wfgen/src/datagen/mod.rs:140-198 | the merge is in time order if chunks are and no event is popped before an earlier one of another chunk, with no demand on keys within a chunk |
| ChunkMerge.StreamEvents | crates/wfgen/src/datagen/stream_gen.rs:24-88 | as many events as asked for, evenly spaced from the start |
| ChunkMerge.StreamIsSorted | crates/wfgen/src/datagen/stream_gen.rs:48-56 | a stream's times do not fall if and only if its interval is not negative |
| ChunkMerge.OrdinaryDuration | crates/wfgen/src/datagen/stream_gen.rs:48-53 | which every duration below 2^63 nanoseconds gives, ending within the duration |
| ChunkMerge.MergesInTimeExactly | crates/wfgen/src/datagen/mod.rs:140-198 | the merge is in time order for all time-sorted chunks with times in a range if and only if the range is a single time or lies within 64-bit nanoseconds |
| ChunkMerge.MergedOutOfOrder | crates/wfgen/src/datagen/mod.rs:140-198 | witness for every other range: two time-sorted chunks of one event each that are merged out of time order |
| ChunkMerge.BudgetsAddUp | crates/wfgen/src/datagen/mod.rs:90-101 | the streams' budgets add up to the total, however the shares were rounded |
| ChunkMerge.BackgroundIsTheRest | crates/wfgen/src/datagen/mod.rs:103-105 | background and injected events make up the budgets exactly when no stream injects more than its budget |
| ChunkMerge.BuildChunks | crates/wfgen/src/datagen/mod.rs:92-125 | the injected events sorted, then one evenly spaced chunk under its name for each stream with anything left, in the order of the streams; refused if and only if such a stream has no schema |
| ChunkMerge.GeneratesInTimeExactly | crates/wfgen/src/datagen/mod.rs:34-198 | a run comes out in time order, whatever its streams and budgets, if and only if its start, duration and injected events fit: `TimesFit` says so outright |
| ChunkMerge.BackgroundOccurs | crates/wfgen/src/datagen/mod.rs:88-125 | and every list of spaced chunks is the background of some streams |
| ChunkMerge.Generate | crates/wfgen/src/datagen/mod.rs:34-130 | the merge of the injected chunk and the streams' chunks, in time order exactly where `TimesFit` promises it for all runs |
| StableSort.SortSorts | crates/wfgen/src/datagen/fault_gen.rs:176 | the reference sort gives a sorted permutation |
| StableSort.SortKeepsTies | crates/wfgen/src/datagen/mod.rs:70 | and keeps the order of equal keys |
| FaultInjection.TwoPassTransform | crates/wfgen/src/datagen/fault_gen.rs:99-186 | output and statistics for any assignment and any offsets drawn |
| FaultInjection.ArrivalCounts | crates/wfgen/src/datagen/fault_gen.rs:120-168 | every event arrives as often as its assignment says, a swap partner once whatever its own |
| FaultInjection.EventsAreConserved | crates/wfgen/src/datagen/fault_gen.rs:113-180 | output and dropped events are the input and one more of each duplicated event |
| FaultInjection.StatsAddUp | crates/wfgen/src/datagen/fault_gen.rs:105-168 | the five statistics account for every input event once |
| FaultInjection.OutcomesExactly | crates/wfgen/src/datagen/fault_gen.rs:113-168 | an event is counted as out of order, late, dropped or duplicate if and only if it changes places, is put back, never arrives or arrives twice |
| FaultInjection.OnTimeIsTheFirstPass | crates/wfgen/src/datagen/fault_gen.rs:173-180 | without the late arrivals the output is the first pass's |
| FaultInjection.ArrivalsInOrder | crates/wfgen/src/datagen/fault_gen.rs:133-149 | of two on-time arrivals the later one in the input comes first if and only if the two are an out-of-order event and its successor, side by side |
| FaultInjection.SwappedChangePlaces | crates/wfgen/src/datagen/fault_gen.rs:133-149 | and every out-of-order event that has a successor does change places with it |
| FaultInjection.LateCutsTheFirstPass | crates/wfgen/src/datagen/fault_gen.rs:176-180 | before a late arrival stand exactly as many on-time ones as its target says, or all |
| FaultInjection.LateDelayExactly | crates/wfgen/src/datagen/fault_gen.rs:148-180 | a late event is overtaken by as many of the on-time events after it as its offset says, or by all of them |
| FaultInjection.LateDelayBounds | crates/wfgen/src/datagen/fault_gen.rs:154-162 | so by 1 to 120 of them, where there are any |
| FaultInjection.EachOffsetIsDrawn | crates/wfgen/src/datagen/fault_gen.rs:154-162 | and every number from 1 to 120 with so many events to come can be drawn |
| FaultInjection.LateArrivalsInOrder | crates/wfgen/src/datagen/fault_gen.rs:173-180 | late events arrive in the order of their targets, and with one target inside the first pass in the opposite order of the input |
| FaultInjection.LateFollowsItsPredecessors | crates/wfgen/src/datagen/fault_gen.rs:148-162 | a late event arrives after every on-time event that came before it |
| FaultInjection.LateIsOvertaken | crates/wfgen/src/datagen/fault_gen.rs:148-162 | and is really overtaken if and only if some later event that is not late arrives at all |
| FaultInjection.LateBeforeADropIsInPlace | crates/wfgen/src/datagen/fault_gen.rs:149-152 | witness: before a dropped last event a late one keeps its place |
| LineDiff.MergeCount | crates/wfgen/src/cmd_diff.rs:158-183 | counts the two multiset differences of its unsorted inputs |
| LineDiff.CompareMultiset | crates/wfgen/src/cmd_verify_nexmark.rs:510-537 | true exactly for equal multisets; lists each differing line on its side as often as it differs |
| LineDiff.CompareBothWays | crates/wfgen/src/cmd_verify_nexmark.rs:510-537 | the two comparisons agree: missing plus extra is the number of lines listed |
| LineDiff.JoinLines | crates/wfgen/src/cmd_diff.rs:128-135 | every line and a newline after it |
| LineDiff.SplitUndoesJoin | crates/wfgen/src/cmd_diff.rs:139-145 | splitting undoes joining if and only if no line contains a newline |
| SourceFormat.CountDelimiters | crates/wfl/src/cmd_fmt.rs:142-176 | counts the delimiters outside strings and comments |
| SourceFormat.PlainCounts | crates/wfl/src/cmd_fmt.rs:142-176 | in a line without quotes and comments every brace and parenthesis counts |
| SourceFormat.QuotedDoesNotCount | crates/wfl/src/cmd_fmt.rs:152-161 | a quotation counts for nothing, closed or not |
| SourceFormat.CommentDoesNotCount | crates/wfl/src/cmd_fmt.rs:150-151 | nor does anything from a comment sign on |
| SourceFormat.TrimTakesSpaceOff | crates/wfl/src/cmd_fmt.rs:95-96 | trimming takes all white space off both ends of a line and nothing else |
| SourceFormat.WhiteSpaceIs | crates/wfl/src/cmd_fmt.rs:95-96 | white space is twenty-five characters, named one by one |
| SourceFormat.FormatSource | crates/wfl/src/cmd_fmt.rs:89-138 | the line loop and its clean-up give the formatted text |
| SourceFormat.LinesAreIndented | crates/wfl/src/cmd_fmt.rs:111-127 | each line of the output has four blanks for every bracket open before it, one bracket fewer if it starts by closing, and never less than none |
| SourceFormat.NextLineMoves | crates/wfl/src/cmd_fmt.rs:111-127 | in a well-nested text consecutive non-blank lines move by four blanks for each bracket between them, and the first line is flush |
| SourceFormat.ClosingLineStandsWithItsOpener | crates/wfl/src/cmd_fmt.rs:111-127 | so a closing line stands in the column of the line whose bracket it closes, and the lines within stand deeper |
| SourceFormat.FormattingIsIdempotent | crates/wfl/src/cmd_fmt.rs:89-138 | formatting a formatted text changes nothing, for every text |
| SourceFormat.FormattingKeepsTheLines | crates/wfl/src/cmd_fmt.rs:95-135 | trimmed non-blank lines survive in order, no two blank lines in a row, exactly one newline at the end |
| SourceFormat.RenderReadsBack | crates/wfl/src/cmd_fmt.rs:118-123 | the written lines, trimmed, are the lines kept |

## Left out

- The engine, rule compilation and execution, configuration loading and validity: their sources are not part of this model. Which trees' configuration loads is any function of the tree, and what the engine makes of a reload any of its three answers; the results say what follows from each.
- `cmd_replay`, sending over TCP or TLS, HTTP, JSON and TOML parsing, Arrow encoding, git: libraries and input or output. Arrow is any lawful pair of functions, git any change inside the cache. Which version git resolves is left to it; what it has checked out is read from one file of its repository, where git keeps it in several.
- Link resolution: a link resolves or not by an arbitrary function of its place and target that stays fixed during one update. In the code a checkout's directory that is a link into the work root can stop resolving once an earlier directory has been removed or replaced, and is then not installed; that case is not modelled.
- `.run`, the state file, the manifest and the lock file are taken to be plain files and directories, never links; directory modes, names that are not UTF-8, repeated JSON keys and structs written as JSON arrays do not occur.
- TreeCopy.CopyPath: assumes that no link at the destination stands where the source has a file or a directory, since the copy would go through it to a place that this model does not know, and that neither path lies inside the other; every caller removes the destination first.
- TreeCopy.CopyDir: assumes the same.
- A crash or a cancelled request in the middle of an update, and the lock on systems without `flock`, which always succeeds.
- ReloadProtocol.FailureRestoresTheProject: promises nothing after a rollback step that failed itself, and takes a directory's contents as one value; what is inside is in `RemoteUpdate`.
- AdminReload.HandleReload: ends where the handler answers; that the monitor goes on from there while other requests come is in the protocol, and `AdminReload.FinishReload` is its part.
- Failed writes of the shard files and allocation for absurd frame lengths: errors without further effect.
- ShardFrames.ShardFile: ignores nulls in key columns, and identifies a schema by its column names and a number.
- KeySharding.PartFollowsTheKey: promises nothing for a key column of any other type, which is spread by row position; `KeySharding.KeyAloneDecides` says that nothing can be promised there.
- Floating point: rates, shares and the log-uniform price are any integers in their range; the range check's two products are exact, which is what the doubles give for every count below 2^47.
- Integer overflow for counts beyond 7 * 10^13 events and for indentation depths beyond 32 bits.
- Names, e-mail addresses, descriptions and filler text of NEXMark events: drawn, but read by no check; progress bars and output statistics.
- Myers diff, the hash shortcut in front of the comparisons, and the printed detail.
- FaultInjection.TwoPassTransform: starts from any assignment; rolling it against the percentages and the early return for an empty list are left out.
- ChunkMerge.MergeSortedChunks: the library's binary heap is a place for one item a chunk from which the least is taken.
- Token files, templates, intent classification, mode selection, version comparison and the other command-line programs: single branches or plain input and output.
