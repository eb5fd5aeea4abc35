# Verification of the maccluster sync engine and its neighbours

maccluster keeps the home directories of Macs on a Thunderbolt bridge in step and maintains
their configuration and package. This project models its decision logic in Dafny and proves
what it is relied on for.

**Sync.** Two trees, `rel -> (mtime, size)`, and a conflict policy become a push and a pull
list (`Planning`), seen three ways (`Delta`). A run may be capped by files and bytes
(`Batching`) and repeated (`Convergence`, `RdmaConvergence`). The lists go out as single large files and next-fit
archives (`Chunking`, `Transfer`) over a ladder of transports that may each die after moving
any part (`Ladder`), with a re-plan in between (`Replan`, `ReplanLoss`); `SyncPeer` puts one peer
together, from the walk of the home to the final trees. Every
outcome of an external tool is chosen by an adversary: a total function from step numbers to
outcomes, so the statements hold for all of them.

**Looking at the disk.** `Walk` is the local inventory walk with its time budget and `partial`
flag, `Scandir` the killable helper it asks, `LineReader` the bounded reader of arep's events,
`Wire`, `Readback` and `Paths` the inventory text format and the path check.

**Neighbours.** `Updater` (package update with rollback), `Lock` (kernel-backed lock),
`Rollout` (unattended maintenance), `SafetyNet` (backups under aliasing of inodes), `Splice`, `LineForms`,
`TextSplice` and `TextFrame` (the text edit of `cluster.toml`), `Identity`, `UidForms` and `Numerals` (Thunderbolt UIDs and GUIDs).

Code that updates state is modelled by methods with loops, and by classes where the source has
an object that changes: the pair of trees, the rung record, the walk, the helper process and
its worker, the stream, the installed machine, the report, the file system. Each is tied to a
specification function, and the lemmas are about those functions.

## What the model assumes

- Copying one file is atomic and keeps its time stamp and size; a step that exits 0 copied all
  it was given. The scp path for large files runs without `-p`, and staging can skip files
  that vanish, so both are contracts of the steps, not facts about the tools.
- Nobody else edits the two trees; one peer per plan; no quick mode.
- The peer's listing script prints whole lines for files it holds. A call that is killed in the
  middle of a line, or a backslash in a name on the peer, is outside `SyncPeer.Faithful`.
- `arep`'s deny list is an arbitrary predicate on paths.
- Clock readings do not decrease. A directory answers a listing in one way during a walk.
- File systems hold no name with a slash and no two equal names in a directory.
- A wheel's digest determines its content and version. Installers do not touch the store.

## Findings

- `Replan.ReplanIsExactIff`, `Replan.UncopiedFileIsDropped`: the peer's re-stat is text, split at
  U+0085, U+2028 and U+2029 as well. With such a character in a planned path a re-plan can drop a
  file that never went out, and the run ends 0/0 without it; or it raises out of the ladder.
  `ReplanLoss.ReplanLosesNothingIff` says for which plans that cannot happen: a pulled path must not
  hold one, and a pushed path must not read as another planned path. Otherwise a path is sent again.
- `Wire.WireRoundTripIff`: the path check admits these characters, for listings too.
- `Walk.InventoryIsExactIff`: backslashes in names become slashes, so a file is recorded under a
  path that names no file or another file, and the inventory does not say so.
- `Planning.SidesAgreeAfterApplyIff`: under `newer`, two copies with equal time stamps and
  different sizes stay different for ever.
- `Convergence.ProgressIff`: a file cap below one makes no progress. The command line refuses such
  a cap (`src/maccluster/commands/sync_cmd.py:138-139`); that check is what makes runs converge.
- `Convergence.StuckForEver`: denied files never leave the plan and the smallest go first, so
  capped runs over rdma stop for ever once all files within the caps are denied. Then a file that
  is not denied can stay behind (`RdmaConvergence.SmallDeniedFileBlocks`);
  `RdmaConvergence.RdmaRunsCompleteIff` says when none does.
- `Updater.AnotherBuildIsRecorded`: after an install only the version is checked, so a receipt
  can name a digest that is not live; `Updater.WhatAnswersMean` says when.
- `Identity.CanonicalUnlessNegative`: a `0x-` text is accepted and gets a text that is no UID; so is
  a number of more than 64 bits (`UidForms.NormalizeIff`, `Identity.CanonicalFormIff`).
- `Transfer.MovedUnreportedIff`: a driver that fails at a large file, or in its first archive, can
  have copied files and report no bytes (`Transfer.ArchiveMovedUnreported`,
  `Transfer.LargeFileMovedUnreported`). The ladder then keeps its plan and sends them again, so
  "nothing is sent twice" is not claimed; the ladder's result does not need it.
- `TextFrame.TextFrameIff`: `refresh_tb.py` promises to keep every other line byte for byte
  (`src/maccluster/mapping/refresh_tb.py:103` and `112-115`). Text before or behind the block is kept
  exactly if its only line break is the newline, and so is any run of lines inside the block
  (`TextFrame.RunIsKeptIff`), for the lines are cut at ten characters and joined
  with newlines; a last break of another kind is dropped (`TextFrame.SplicedTextIs`). The command
  reads the file in text mode, which turns carriage returns into newlines before this; U+0085,
  U+2028 and U+2029, which TOML allows inside comments and strings, remain. A comment that holds
  one is cut there, and what stood behind it is live (`TextFrame.CutLineIsSplit`,
  `TextFrame.CommentBecomesLive`): the check in
  `src/maccluster/commands/config_refresh_tb.py:60-61` refuses only texts that no longer load.

## Model

| member | source | states |
|---|---|---|
| Planning.Judge | src/maccluster/services/sync_plan.py:51-127 | a file both sides have is pushed or pulled exactly when the policy's winner is the local or the remote copy; a file only one side has follows the listing flag; conflicts are skipped exactly when two copies differ under `skip` |
| Planning.PolicyFavours | src/maccluster/services/sync_plan.py:51-127 | which copy each policy favours, by time, size and side |
| Planning.PlanTransfers | src/maccluster/services/sync_plan.py:17-127 | whatever order the set of paths is visited in, the two lists are the sorted, duplicate-free lists of the files to push and to pull, and each of the seven counters is the number of files with that verdict |
| Planning.NoFileBothWays | src/maccluster/services/sync_plan.py:42-127 | no path is planned in both directions, under any policy and any listing |
| Planning.CountersPartitionTheFiles | src/maccluster/services/sync_plan.py:42-127 | the seven counters add up to the number of files on either side; two of them make up the push list and two the pull list |
| Planning.PlanningIsSymmetric | src/maccluster/services/sync_plan.py:51-127 | exchanging the two sides (and the two `prefer-` policies) exchanges the two lists, so both peers plan the same transfers |
| Planning.PlanAfterPartialApply | src/maccluster/services/sync_plan.py:51-127 | after any part of a plan was copied, planning again gives exactly the rest: nothing twice, nothing new, no change of direction; for every policy and both listing modes |
| Planning.NothingLeftAfterApply | src/maccluster/services/sync_plan.py:51-127 | planning is a fixed point of carrying a plan out |
| Planning.ApplyTwice | src/maccluster/services/sync_plan.py:17-127 | two transfers one after the other equal their union carried out at once, overlaps included, as long as no file goes both ways: sending a file again changes nothing |
| Planning.NewerEndsAtTheLaterTime | src/maccluster/services/sync_plan.py:51-127 | after a full `newer` plan both sides hold every file, with the maximum of the two time stamps |
| Planning.WinnerEndsOnBothSides | src/maccluster/services/sync_plan.py:51-127 | after a full plan both sides hold the local copy under `prefer-local`, the remote one under `prefer-remote`, the larger under `larger` and the newer under `newer` |
| Planning.SidesAgreeAfterApplyIff | src/maccluster/services/sync_plan.py:51-127 | one full run makes both trees equal if and only if no file is stuck (two different copies under `skip`, or equal time stamps and different sizes under `newer`) |
| Planning.TruncatedListingIsSafe | src/maccluster/services/sync_plan.py:51-76 | planning against any part of the peer's tree, flagged incomplete, gives exactly the full plan cut to the listed paths; nothing is planned that a full listing would not plan |
| Planning.TruncatedListingUnflaggedOverwrites | src/maccluster/services/sync_plan.py:51-76 | without the flag the same listing pushes an old copy over a newer one, for every such pair of copies |
| Delta.ClassifyCompare | src/maccluster/services/sync_plan.py:170-199 | the five comparison buckets, in sorted order, are the planner's verdicts under `newer`, although this loop never looks at a size |
| Delta.BucketFrom | src/maccluster/services/sync_plan.py:249-261 | a bucket counts its paths and sums their sizes, negative or unknown sizes as zero |
| Delta.PreciseDelta | src/maccluster/services/sync_plan.py:264-296 | under `newer` push bytes are only-local plus local-newer bytes and dually for pull, the same for the counts, and the five counts cover the union of both inventories; each bucket counts and weighs its own files; the report says "in sync" exactly when both sides hold the same files and every differing pair is stuck |
| Delta.ThreeViewsAgree | src/maccluster/services/sync_plan.py:170-296 | planner, comparison and report describe one delta: equal as lists up to order, in number and in bytes of any inventory |
| Delta.InSyncIff | src/maccluster/services/sync_plan.py:244-247 | a report with the planned lists says "in sync" if and only if both sides hold the same files and every differing pair is stuck under its policy |
| Batching.ApplyBatchLimits | src/maccluster/services/sync_plan.py:130-167 | the capped lists are the longest admissible prefix of the candidates in (size, direction, path) order, sorted per direction, and `truncated` holds exactly when a candidate was dropped; without caps nothing changes |
| Batching.CandLeMeans | src/maccluster/services/sync_plan.py:143-151 | smaller files go first, among files of one size pulls, and then the smaller path |
| Base.RelLeIff | src/maccluster/services/sync_plan.py:143-151 | paths are compared at the first character that differs, and a front of a path comes before it |
| Batching.AllAccounted | src/maccluster/services/sync_plan.py:143-151 | the candidates are the two lists and nothing else, each path once and in its own direction |
| Batching.CandidatesWeigh | src/maccluster/services/sync_plan.py:143-151 | each candidate weighs what its list says, and nothing when its size is not known |
| Batching.GreedyTakesTheMost | src/maccluster/services/sync_plan.py:143-167 | no selection of the candidates that meets both caps has more files than a run takes |
| Batching.PrefixIsLightest | src/maccluster/services/sync_plan.py:143-167 | no selection of as many files weighs less than the prefix taken |
| Batching.SmallestFirst | src/maccluster/services/sync_plan.py:143-167 | nothing taken is larger than anything put off |
| Batching.WithinCaps | src/maccluster/services/sync_plan.py:152-167 | a run that takes anything keeps the file cap, and exceeds the byte cap only with a single file |
| Convergence.RunTakesPartOfThePlan | src/maccluster/services/sync_service.py:575-604 | one capped run carries out part of the plan, as many files as the limiter took, no path twice |
| Convergence.RunShrinksThePlan | src/maccluster/services/sync_service.py:575-604 | the next plan is smaller by exactly the files the run took |
| Convergence.ProgressIff | src/maccluster/services/sync_service.py:575-604 | a run with work to do in its scope makes progress if and only if the file cap is absent or at least one, and reports truncation if and only if work is left |
| Convergence.BoundedRunsEqualOneUnlimitedRun | src/maccluster/services/sync_service.py:575-604 | repeated capped runs end, with nothing left to plan, in the trees one unlimited run makes; for every policy, all admissible caps, and any scope: one direction or both, all paths or those an incomplete listing names |
| Convergence.RunThenTheRest | src/maccluster/services/sync_service.py:575-604 | one capped run and then everything still planned is the whole plan |
| Convergence.FileCapRunCount | src/maccluster/services/sync_service.py:575-604 | with a file cap k alone, n planned files take exactly n/k runs, rounded up |
| Convergence.RdmaRunShrinksThePlan | src/maccluster/services/sync_rdma.py:352-358 | a capped run that arep carries out shrinks the plan by exactly the files it takes that are not denied |
| Convergence.RdmaProgressIff | src/maccluster/services/sync_rdma.py:352-358 | such a run makes progress if and only if some file within its caps is not denied |
| Convergence.StuckForEver | src/maccluster/services/sync_rdma.py:352-358 | once every file within the caps is denied, no number of further runs changes either tree, although each ends well |
| RdmaConvergence.CandidatesAfterRun | src/maccluster/services/sync_plan.py:143-167 | what the limiter sees after such a run: the same candidates in the same order without those taken and not denied |
| RdmaConvergence.RdmaRunsCompleteIff | src/maccluster/services/sync_rdma.py:352-358 | repeated capped runs over rdma end with exactly the denied files left, in the trees one uncapped run makes, if and only if the last planned file that is not denied fits within the caps behind all denied files that sort before it |
| RdmaConvergence.FileCapCompletesIff | src/maccluster/services/sync_rdma.py:352-358 | with a file cap k alone: if and only if fewer than k denied files sort before the last planned file that is not denied |
| RdmaConvergence.SmallDeniedFileBlocks | src/maccluster/services/sync_rdma.py:352-358 | one input: an empty denied `.env`, a file `b` of one byte, a file cap of one; `b` is planned and not denied, and no number of runs carries it over |
| Chunking.ChunkRels | src/maccluster/services/sync_plan.py:355-378 | the batches concatenate to the list, each is within both caps or a single file, and every new batch was forced by a cap |
| Chunking.NextFitIsUnique | src/maccluster/services/sync_plan.py:355-378 | for non-negative sizes that contract leaves exactly one possible result |
| Chunking.PackingBound | src/maccluster/services/sync_plan.py:355-378 | for b byte-forced and f count-forced splits: batches = 1 + b + f, b times the byte cap is at most twice the total bytes, f times the file cap at most the number of files |
| Chunking.SplitLargeFiles | src/maccluster/services/sync_plan.py:391-400 | normal and large files in list order, together exactly the list |
| Chunking.KeptAreOfOneKind | src/maccluster/services/sync_plan.py:391-400 | a path is in the large half if and only if its size reaches the 3 GiB limit |
| Chunking.BatchesStaySmall | src/maccluster/services/sync_plan.py:349-400 | no batch of normal files, cut by their sizes alone, reaches 3 GiB or exceeds 120 files |
| Transfer.SyncPair.TransferLargeFiles | src/maccluster/services/sync_push.py:80-135 | one step per large file; the steps before the first failure succeeded and none runs after it; the trees are the start trees with exactly the moved files copied |
| Transfer.SyncPair.TransferArchives | src/maccluster/services/sync_push.py:376-413 | the archive steps after the large files, with the same stop at the first failure |
| Transfer.SyncPair.TransferList | src/maccluster/services/sync_push.py:315-414 | for every outcome of every external step: the steps are each large file alone and then next-fit archives, they stop at the first failure, an exception is passed on, the bytes reported are those of the large files once all of them went out plus what the successful archives claim; a dry run moves nothing |
| Transfer.SyncPair.TransferParts | src/maccluster/services/sync_pull.py:274-337 | the same for a list already split by size: where the steps stopped, what moved, and what is reported |
| Transfer.UnitsCoverTheListOnce | src/maccluster/services/sync_pull.py:241-337 | every file of the list belongs to exactly one scp or archive step |
| Transfer.DriverContract | src/maccluster/services/sync_push.py:340-414 | exit code 0 means the whole list arrived; in any case only files of the list moved |
| Transfer.ArchiveStepsStaySmall | src/maccluster/services/sync_push.py:340-408 | no archive step carries 3 GiB or more, or over 120 files |
| Transfer.MovedUnreportedIff | src/maccluster/services/sync_push.py:365-405 | a driver reports no bytes if and only if it stopped at a large file, or had none and no archive that went out was claimed to hold a byte; something moved if and only if a step had succeeded or the failing first one had copied some of its files |
| Transfer.ArchiveMovedUnreported | src/maccluster/services/sync_push.py:404-408 | one run: the only archive fails behind its first file, which moved, and no byte is reported |
| Transfer.LargeFileMovedUnreported | src/maccluster/services/sync_push.py:340-372 | another: the second of two large files fails, the first moved, and no byte is reported |
| Ladder.RunSshRung | src/maccluster/services/sync_transport.py:169-250 | a tool that is not found raises before anything is sent; otherwise push exit code 0 means every enabled file was pushed, a push that raised ends the rung, one that failed with an exit code ends it unless the rung may go on, and then the pull is made and either complete or blamed; every failure told is that of the step that failed; the rung reports no data moved if and only if no driver raised and both were silent in the sense of MovedUnreportedIff |
| Ladder.Stage | src/maccluster/services/sync_transport.py:204-249 | one direction of a rung: what is recorded of its transfer, and which failure is blamed |
| Ladder.SshTransfer | src/maccluster/services/sync_push.py:315-414 | the contract the ladder takes for an ssh transfer, met by the driver: exit code 0 means the whole list arrived, in any case nothing else moved, and no bytes are reported exactly when the driver was silent |
| Ladder.RunArep | src/maccluster/services/sync_rdma.py:326-386 | success copies exactly the paths arep does not deny; a failure moves a part of them and says so by `partial`; an unwritable manifest moves nothing; when it fails and when it says that data moved, exactly |
| Ladder.RunRdmaRung | src/maccluster/services/sync_transport.py:253-313 | exactly what a rung through arep records, moves and blames: the first direction that fails ends it by an exception, and a rung without a reason copied every enabled path that is not denied |
| Replan.StatSide | src/maccluster/services/sync_replan.py:50-63 | the local re-stat gives what the tree holds under the asked paths that do not climb |
| Replan.StatRemote | src/maccluster/services/sync_replan.py:31-113 | the peer's answer is the text its script prints for the asked paths it holds, read back as an inventory |
| Replan.AnswerIsExactIff | src/maccluster/services/sync_replan.py:31-113 | that answer tells what the peer holds if and only if every asked path it holds stays on one line |
| Replan.ReplanRemaining | src/maccluster/services/sync_replan.py:116-163 | each path of the current plan is planned again as often as it was there if a plan of the two re-stats holds it in its direction, and no other path is; a list without repeats in path order is the sorted list of those paths; each kept path has its planned size, or else its present one; no answer keeps the plan as it is; a refused path or a call that raises is passed on |
| Base.KeepOnlyCounts | src/maccluster/services/sync_replan.py:146-163 | narrowing a list keeps each wanted element as often as it was there and nothing else |
| Base.KeepOnlySorted | src/maccluster/services/sync_replan.py:146-163 | a sorted list without repeats narrows to the sorted list of its wanted elements |
| Replan.PlanOfThePlanned | src/maccluster/services/sync_replan.py:132-163 | planning only the re-stat'ed paths decides each of them as planning both whole trees would |
| Replan.ReplanDropsExactlyTheCopied | src/maccluster/services/sync_replan.py:146-163 | after any part of the full plan was copied, re-planning a list of one-line paths cut from that plan gives the list minus what was copied: nothing added, no direction flipped; every policy |
| Replan.ReplanIsExactIff | src/maccluster/services/sync_replan.py:146-163 | a re-plan is exact for every part of the plan that may have been copied if and only if every planned path stays on one line of the peer's answer |
| Replan.UncopiedFileIsDropped | src/maccluster/services/sync_replan.py:146-163 | for every pair of paths where one is the other behind a line separator: the first copied, the re-plan drops the second, which never went out, and a rung that then delivers all it is given leaves the peer without it |
| Replan.ReplanRaises | src/maccluster/services/sync_replan.py:113-163 | where the part behind the separator is no acceptable path, the re-plan raises |
| Replan.DroppedInput | src/maccluster/services/sync_replan.py:146-163 | one such pair: `a<U+2028>b` and `b` |
| Replan.RaisingInput | src/maccluster/services/sync_replan.py:113-163 | one such path: `a<U+2028>/b` |
| Readback.PrintedReadsAs | src/maccluster/services/sync_inventory.py:418-432 | printed lines of files with acceptable paths read back as the part of each path behind its last break, later lines on top of earlier ones, and are refused if one such part is no acceptable path |
| ReplanLoss.LosslessKeepsAll | src/maccluster/services/sync_replan.py:146-163 | after any part of the full plan was copied, a re-plan keeps all that did not arrive, if no pulled path breaks a line of the answer and no pushed path hides another planned one |
| ReplanLoss.ReplanLosesNothingIff | src/maccluster/services/sync_replan.py:146-163 | for a plan's lists and policy: no re-plan loses a file, whatever the two trees and whatever was copied, if and only if that is so, or every answer is refused; a pushed path hides another when it reads as one to be pushed, or as one to be pulled that both sides may have and whose own line comes no later |
| Ladder.RunTransferLadder | src/maccluster/services/sync_transport.py:344-428 | for every plan and rung list, every partial failure of every rung, every missing tool and every way a re-stat can end: the trees are one atomic application of a part of the original plan, also when the run raises; when no re-plan can lose a file in the sense of ReplanLosesNothingIff, or no rung was given up, a push that ends 0 sent all of the plan, and a pull fetched all of it when the run ends 0/0, or when the last rung pulls without an error behind a push that failed with an exit code (a last rdma rung: all that is not denied); the trail is exact: each rung did what a rung in its place does, each failed rung is one downgrade, the next rung gets the same plan or what the re-plan makes of it, the climb ends at the first rung that works or at the last, the outcome tells its exit codes and bytes, and a run raises only at a missing tool or in a re-plan that was due |
| Ladder.PullAfterFailedPush | src/maccluster/services/sync_transport.py:217-249 | after a push that failed with an exit code an earlier rung fetches nothing, and the last rung of all fetches everything it was given when its pull steps succeed |
| Ladder.SmoothRungWorks | src/maccluster/services/sync_transport.py:169-313 | a rung in which no external step fails works, so the climb ends there |
| Ladder.EveryFileOldOrPlanned | src/maccluster/services/sync_transport.py:388-427 | after any such run a path outside the plan is untouched, a planned path is at its old or its planned value, and what was sent or fetched is on the receiving side |
| SyncPeer.PlanRun | src/maccluster/services/sync_service.py:575-604 | planner, direction flags and limiter together, for all flags and any listing: the lists are exactly what the bounded run of Convergence takes in its scope; they are sorted parts of the lists asked for, cut short if and only if `truncated`, never empty while those are not and the file cap is one or more, and no selection from those within both caps has more files |
| SyncPeer.FaithfulIsRead | src/maccluster/services/sync_inventory.py:418-432 | a listing whose whole lines are files the peer holds, each under its own one-line path, is read as part of what the peer holds, and as all of it when it lists all |
| SyncPeer.SyncOnePeer | src/maccluster/services/sync_service.py:528-754 | one peer end to end, from any text the peer printed and any local inventory: the plan is what PlanRun promises and the ladder ran it; the trees become one application of part of what was planned from the inventories; a refused text changes nothing; when the inventory is the local tree and the text is faithful, that is part of the full plan and the next full plan is the old one minus that part; when no local path that breaks a line reads as a path of either side as well, or no re-plan was needed, a successful ssh run is, for all flags and any listing, the bounded run the convergence results are about, which leaves less to plan and can be finished to the same trees, and a successful first rdma rung the run without the denied files |
| SyncPeer.SyncWalkedHome | src/maccluster/services/sync_service.py:489-754 | from the walk of the home to the final trees: it stops before anything is sent if and only if the listing is refused, a path cannot be put on one line, a directory hung or the time ran out; otherwise the walked inventory is complete and the run is that of SyncOnePeer, and unless an eligible name holds a backslash its results hold of the local tree itself |
| Walk.InventoryWalk.EmitPath | src/maccluster/services/sync_inventory.py:208-226 | a path whose text, backslashes made slashes, cannot be put on one line aborts the walk; otherwise it is recorded under that text exactly when it is a present regular file or symlink that no rule excludes |
| Walk.InventoryWalk.WalkEntries | src/maccluster/services/sync_inventory.py:283-298 | one listing's rows, with the budget read before each: every file and directory it comes by is handled unless the budget ran out |
| Walk.InventoryWalk.WalkRow | src/maccluster/services/sync_inventory.py:282-298 | one row: what is entered goes on the stack, a file is offered, all else is passed over |
| Walk.InventoryWalk.SafeWalk | src/maccluster/services/sync_inventory.py:274-299 | the stack loop ends (by the nodes not yet visited), every record is an offered file's, a hung directory is behind every count, and within the budget everything the walk comes by is handled |
| Walk.InventoryLocal | src/maccluster/services/sync_inventory.py:149-372 | for every tree and every non-decreasing clock: every record is an eligible file's under its text; the inventory is marked partial if and only if one of its clock readings was over budget or a directory it comes by was killed or failed; if it is not, every eligible file left a record; the walk aborts only at a path that cannot be put on one line, and within the budget always at one; eligible is said path by path, without the walk's own rules |
| Walk.FilesOfJobIff | src/maccluster/services/sync_inventory.py:274-369 | a file is eligible if and only if it is a regular file or symlink whose data is present, no name above it or its own is skipped, no directory name on the way starts with a dot but `.ssh` and `.config`, no directory above it is excluded with or without its slash, it is not excluded itself, and no directory above it is unreadable |
| Walk.ItemsOfJobIff | src/maccluster/services/sync_inventory.py:274-369 | the walk comes by a path if and only if that path is clear in this sense and every directory above it is listed |
| Walk.OneTreeIsFunctional | src/maccluster/services/sync_inventory.py:274-369 | a walk of one tree with distinct names per directory meets each path once |
| Walk.InventoryIsExactIff | src/maccluster/services/sync_inventory.py:288-298 | a complete inventory is the eligible files, each under its own path, if and only if no name on an eligible path holds a backslash |
| Walk.BackslashRenames | src/maccluster/services/sync_inventory.py:288-298 | a file `a\b` is recorded as `a/b`, the path of a file `b` in a directory `a`, never under its own |
| Walk.TwoFilesOneRecord | src/maccluster/services/sync_inventory.py:288-298 | a tree with both of them: two eligible files, one record, and the inventory is not partial |
| Walk.ClimbingNameIsRefused | src/maccluster/services/sync_inventory.py:208-209 | a file `..\x` is refused, so the walk aborts |
| Walk.GuardPartial | src/maccluster/services/sync_inventory.py:387-415 | a partial inventory is refused exactly in a real run without the waiver |
| Walk.GuardedHomeInventory | src/maccluster/services/sync_inventory.py:149-415 | walk and guard together: a real run is refused if and only if a directory hung or a reading was over budget; whatever is not refused is complete, with a record for every eligible file and nothing else |
| Walk.MissedLocalFileIsOverwritten | src/maccluster/services/sync_inventory.py:387-415 | why the guard exists: a newer local file the walk missed is pulled over, for every such pair of copies |
| Scandir.ScandirWorker.Spawn | src/maccluster/services/sync_scandir.py:118-132 | a new helper starts with an empty pipe and an empty buffer |
| Scandir.ScandirWorker.Discard | src/maccluster/services/sync_scandir.py:134-154 | a discarded helper leaves neither process nor bytes behind |
| Scandir.ScandirWorker.ReadLine | src/maccluster/services/sync_scandir.py:200-227 | for every chunking of the stream: a line is returned if and only if a healthy read sequence delivers all of the one outstanding answer in time, and then it is that answer, whole, and the stream is empty behind it |
| Scandir.ArrivesIff | src/maccluster/services/sync_scandir.py:200-227 | the bytes of an answer arrive if and only if the reads before the first that fails or is empty can carry them |
| Scandir.ScandirWorker.Listdir | src/maccluster/services/sync_scandir.py:156-198 | for every interleaving of answers, hangs, deaths and failed spawns, exactly which answer the call gets: rows if and only if the helper answers this very path in time, then decoded from that answer; a killed helper is gone, a helper that ran out of time counts as one restart, and the next call starts with an empty buffer |
| Scandir.Session | src/maccluster/services/sync_scandir.py:76-227 | over a whole session every call gets the answer its own events give, whatever happened before it, and every list handed out is the answer to its own call |
| LineReader.ReadLines | src/maccluster/services/sync_rdma.py:242-259 | the delivered lines are the reference: split the stream, keep in order the lines one capped read returns whole, drop every other line entirely |
| LineReader.StrippedIs | src/maccluster/services/sync_rdma.py:242-259 | what is delivered of a line is its front, up to the last byte that is no line end |
| LineReader.DrainLine | src/maccluster/services/sync_rdma.py:249-256 | draining an overlong line ends exactly behind its newline |
| LineReader.LinesPartitionTheStream | src/maccluster/services/sync_rdma.py:242-259 | the reference split loses nothing: joined it is the stream, newlines occur only at line ends, only the last line may lack one |
| LineReader.DroppingIsLocal | src/maccluster/services/sync_rdma.py:242-259 | a dropped line takes no neighbour with it |
| Updater.Machine.RetainWheel | src/maccluster/services/package_update.py:366-381 | the store changes only by a copy with the wheel's own digest and version, under that digest |
| Updater.Machine.RollbackCandidate | src/maccluster/services/package_update.py:384-408 | there is a candidate if and only if the receipt points at this installation and at a whole wheel of its own digest and version in the store, and the program answers both probes as that wheel; a damaged one is reported if and only if there is one |
| Updater.Machine.InstallWheel | src/maccluster/services/package_update.py:289-359 | for every failure and timeout of every external step, exactly: the answer, the installer runs, what is live afterwards, the receipt and the store; the receipt changes on a normal return only, and the wheel it names stays in the store |
| Updater.OneAnswer | src/maccluster/services/package_update.py:289-359 | no two answers go together |
| Updater.WhatAnswersMean | src/maccluster/services/package_update.py:289-359 | "restored and verified" means that two installers ran and the program that is live is the one before the call, no rollback follows an installer that ran out of time, no rollback was possible when none is reported as possible, a change reported is to the version asked for, and the receipt's digest is the live one if and only if nothing was installed or the installer left that very build |
| Updater.Machine.Reinstall | src/maccluster/services/package_update.py:316-359 | once the wheel is kept: the installer runs unless the retained wheel is damaged, and a rollback runs if and only if it failed without a timeout, or left another version, and a candidate exists |
| Updater.Machine.RollBack | src/maccluster/services/package_update.py:340-353 | a rollback runs if and only if the retained wheel is still whole, and "restored" is reported if and only if it then ends well and version and digest read back are that wheel's |
| Updater.UpdateAll | src/maccluster/services/package_update.py:289-408 | over any sequence of updates each answers by what those before it left, the store backs the receipt, and the receipt is that of the last update that returned normally |
| Updater.AnotherBuildIsRecorded | src/maccluster/services/package_update.py:318-330 | a normal return after a change checks the version only: another build of that version is recorded under the digest asked for; a concrete run |
| Lock.EveryRunIsExclusive | src/maccluster/adapters/lock_file.py:29-61 | over every interleaving of any number of processes with timeouts, crashes and forks: at most one acquisition is in the critical section and every open descriptor names the one lock file |
| Lock.NobodyInsideMeansFree | src/maccluster/adapters/lock_file.py:29-61 | a dead holder blocks nobody: with nobody inside, every waiter gets the lock at its next try |
| Lock.SomebodyInsideMeansTaken | src/maccluster/services/remote_install_script.py:7-34 | while any process is inside, even only a child of an execed bootstrap, nobody else can acquire |
| Lock.FileShowsTheLastWriter | src/maccluster/adapters/lock_file.py:44-61 | after every run lock files show what they showed before it, except that the one the path names shows the pid of the last process that wrote; a holder that has written is that process |
| Lock.UnlinkBreaksExclusion | src/maccluster/adapters/lock_file.py:56-61 | why the file is never removed: with one removal two processes hold the lock; a concrete run |
| Rollout.Report.Plan | src/maccluster/services/automation_service.py:312-328 | what a dry run lists after configuration: the planned steps with their targets |
| Rollout.Report.RolloutPeers | src/maccluster/services/automation_service.py:213-252 | every peer has its step in order: healed without an update; with one installed up to the first that is not installed well, and skipped behind it or without a wheel |
| Rollout.Report.Execute | src/maccluster/services/automation_service.py:180-304 | a real run records exactly its steps in order, each with its target and the status its own outcome gives; only a missing work directory cuts it short; it raises if and only if its work directory could not be made or removed |
| Rollout.Report.RealRun | src/maccluster/services/automation_service.py:136-148 | behind these steps the record holds one more when the run raised and one more when the receipt was not written, and the exit code is that of the whole record |
| Rollout.Report.Finish | src/maccluster/services/automation_service.py:69-88 | exit code 1 if and only if a step failed, else 3 if and only if one degraded, else 0; an unwritten receipt is one more failed step |
| Rollout.RunAutomation | src/maccluster/services/automation_service.py:151-304 | the whole record of every run: a held lock is all of it and exits 1, an unreadable configuration is all but for the receipt, a dry run lists the planned steps, and a real run its own |
| Rollout.RecordIsAsPlanned | src/maccluster/services/automation_service.py:180-328 | whatever fails, a real run records the names a dry run lists, in order |
| Rollout.RecordIsDisciplined | src/maccluster/services/automation_service.py:180-304 | in every updating run at most one peer install fails and none is attempted behind it; sync is skipped if and only if the rollout stopped; local replacement is last and attempted if and only if the build and all peers went well |
| Rollout.StatusesMean | src/maccluster/services/automation_service.py:91-128 | which endings make a step good, degraded or failed |
| SafetyNet.FileSystem.BackUpOne | src/maccluster/services/sync_safetynet.py:64-88 | one backup makes a file of its own with the current content, leaves the tree as it is, and touches no other backup, whichever way of copying worked |
| SafetyNet.FileSystem.BackupBeforeOverwrite | src/maccluster/services/sync_safetynet.py:49-88 | after success every listed file that existed is saved with its content and the count is right; the tree is unchanged in any case |
| SafetyNet.FileSystem.PullUnderSafetyNet | src/maccluster/services/sync_service.py:710-739 | a failed backup stops before any write; otherwise, whatever the pull writes, in place or not, the run directory holds the content from before of every pulled file the local inventory knows |
| SafetyNet.HardLinkIsNoBackup | src/maccluster/services/sync_safetynet.py:57-63 | why copies own their data: a hard link would be overwritten together with the original |
| SafetyNet.PruneOldRuns | src/maccluster/services/sync_safetynet.py:27-46 | only stamped directories go or stay, as many stay as asked for, and none that goes is newer than one that stays |
| SafetyNet.IsStampIff | src/maccluster/services/sync_safetynet.py:13 | a run directory is named by eight digits, T, six digits and Z |
| SafetyNet.NewestRunIsKept | src/maccluster/services/sync_safetynet.py:27-46 | the run in use survives pruning |
| Splice.NodeBlock | src/maccluster/mapping/refresh_tb.py:135-145 | the block found is the first `[[nodes]]` table that holds the node's id line, up to the next table header |
| Splice.DropIdArrays | src/maccluster/mapping/refresh_tb.py:148-161 | the lines left are those outside the `tb_*` assignments, by bracket depth |
| Splice.SpliceNodeTbIds | src/maccluster/mapping/refresh_tb.py:106-127 | the spliced file, or nothing when the node has no block or its id line is lost |
| LineForms.IsNodesHeaderIff | src/maccluster/mapping/refresh_tb.py:25-26 | a node table starts with `[[nodes]]`, blanks before it and blanks or a comment behind it |
| LineForms.IsTableIff | src/maccluster/mapping/refresh_tb.py:25 | any table starts with a bracket behind blanks |
| LineForms.IsIdLineIff | src/maccluster/mapping/refresh_tb.py:130-132 | an id line is `id`, `=` and the quoted id, blanks between them and blanks or a comment behind it |
| LineForms.KeyOfIff | src/maccluster/mapping/refresh_tb.py:156 | the key of an assignment is the word before the equals sign, blanks around it |
| LineForms.NetIs | src/maccluster/mapping/refresh_tb.py:148-161 | the depth of a line is its opening less its closing brackets |
| Splice.DroppingKeepsPlainLines | src/maccluster/mapping/refresh_tb.py:148-161 | for blocks of plain lines and bracket-closed assignments, dropping takes out exactly the assignments |
| Splice.LaterSpliceOverrides | src/maccluster/mapping/refresh_tb.py:106-161 | a later splice gives the file it would have given without the earlier one |
| Splice.SpliceIsIdempotent | src/maccluster/mapping/refresh_tb.py:106-161 | splicing the same ids again changes nothing |
| Splice.SpliceKeepsTheRest | src/maccluster/mapping/refresh_tb.py:106-161 | every line before and after the block keeps its text and place, and in the block every line outside a `tb_*` assignment |
| Splice.SplicedIdsReadBack | src/maccluster/mapping/refresh_tb.py:93-127 | reading the two arrays of the spliced block gives back the values written, quotes and backslashes included |
| Splice.EscapeRoundTrip | src/maccluster/mapping/refresh_tb.py:99-103 | an escaped value ends at its own closing quote and unescapes to itself |
| TextFrame.SpliceText | src/maccluster/mapping/refresh_tb.py:106-127 | the text the file is replaced by; what stands before the block opens it literally if and only if that part has no line break but newlines, and what stands behind the block closes it literally under the same condition |
| TextFrame.RejoinedIff | src/maccluster/mapping/refresh_tb.py:116-127 | splitting a text into lines and joining them gives it back if and only if it is not empty and has no line break but newlines |
| TextFrame.SplicedTextIs | src/maccluster/mapping/refresh_tb.py:116-127 | the whole new text for every file: the lines before the block each with a newline, the new block, and the rest rejoined; behind the last line of the file a newline exactly if the file ended with one, and nothing for any other break |
| TextFrame.TextFrameIff | src/maccluster/mapping/refresh_tb.py:103-127 | the byte-for-byte promise: text before the block is kept if and only if it has no break but newlines, text behind it if and only if it has none |
| TextFrame.FramedText | src/maccluster/mapping/refresh_tb.py:103-127 | when both parts are kept, the new text is the one before, the new block, and the one behind |
| TextFrame.LinesAreLiteralIff | src/maccluster/mapping/refresh_tb.py:103-127 | a file is its lines with a newline behind each if and only if it has no other break and ends in one; then the new file is its spliced lines with a newline behind each |
| TextFrame.RunIsKeptIff | src/maccluster/mapping/refresh_tb.py:116-127 | any run of lines but the last, inside the block too, is literally its text, written with a newline behind each, if and only if it has no other break |
| TextFrame.CutLineIsSplit | src/maccluster/mapping/refresh_tb.py:112-127 | two pieces in front of the block with any break between them become two lines with a newline each |
| TextFrame.CommentBecomesLive | src/maccluster/mapping/refresh_tb.py:112-127 | one input: in `# a<U+2028>b = 1` before a block the assignment is commented out, and afterwards `b = 1` is a line of its own |
| TextSplice.JoinedSplits | src/maccluster/mapping/refresh_tb.py:116-127 | joined lines split into the same lines again, except that an empty last line without a newline behind it is lost |
| TextSplice.LaterTextSpliceOverrides | src/maccluster/mapping/refresh_tb.py:106-127 | for one-line values, a later splice of the stored text gives the text it would have given without the earlier one, whatever the line ends were |
| TextSplice.TextSpliceIsIdempotent | src/maccluster/mapping/refresh_tb.py:106-127 | splicing the same ids again leaves the text as it is |
| Identity.FormsAgree | src/maccluster/mapping/tb_identity.py:43-68 | a natural number, its decimal text of up to 4300 digits and its `0x` text in either case and any zero padding have one canonical form; a longer decimal text has none |
| Identity.CanonicalFormIff | src/maccluster/mapping/tb_identity.py:43-68 | the canonical form of a number is the only text of `0x` and upper-case hexadecimal digits, sixteen of them or more without a zero in front, that has its value |
| Identity.CanonicalIsInjective | src/maccluster/mapping/tb_identity.py:43-68 | different numbers have different canonical forms |
| Identity.NormalizeIsIdempotent | src/maccluster/mapping/tb_identity.py:43-68 | normalising twice is normalising once, for every value accepted |
| UidForms.NormalizeIff | src/maccluster/mapping/tb_identity.py:43-68 | a text is accepted if and only if, blanks around it aside, it is hexadecimal behind a prefix (a sign, blanks, a second prefix and single underscores allowed), up to 4300 decimal digits, or up to sixteen hexadecimal ones; it becomes the canonical form of the number it stands for |
| Identity.CanonicalUnlessNegative | src/maccluster/mapping/tb_identity.py:43-68 | with signs, a repeated prefix and underscores as `int` reads them: the result is the canonical form of a number if and only if there is no minus sign behind the prefix with a digit other than zero |
| Identity.MinusFiveIsAccepted | src/maccluster/mapping/tb_identity.py:43-68 | `0x-5` is accepted although it names no UID |
| Identity.ByteSwapIsAnInvolution | src/maccluster/mapping/tb_identity.py:79-89 | reversing the byte order twice gives back every 64-bit value |
| Identity.GuidLeadsToItsUid | src/maccluster/mapping/tb_identity.py:79-89 | the node GUID that shows a controller's 64-bit UID leads back to that UID's canonical form |
| UidForms.GuidIff | src/maccluster/mapping/tb_identity.py:79-89 | a GUID is taken if and only if it is four groups of four hexadecimal digits with colons between them, and leads to the UID with its bytes the other way round |
| UidForms.ByteSwapReverses | src/maccluster/mapping/tb_identity.py:79-89 | byte i of the one is byte 7 - i of the other |
| Paths.ValidRelpathIff | src/maccluster/services/sync_paths.py:6-17 | the accepted paths are exactly the non-empty sequences of proper names, joined by slashes |
| Paths.ControlCharIs | src/maccluster/services/sync_paths.py:6-17 | the control characters refused are those below 32, and 127 |
| Paths.SplitJoin | src/maccluster/services/sync_paths.py:6-17 | splitting undoes joining for separator-free parts |
| Wire.ParseInventoryText | src/maccluster/services/sync_inventory.py:418-432 | the parsed inventory is the fold of the text's lines, refused as a whole when a path is not acceptable |
| Wire.LineBreakIs | src/maccluster/services/sync_inventory.py:418-432 | the ten characters at which the text is cut into lines |
| Base.SpaceIs | src/maccluster/services/sync_inventory.py:418-432 | the characters of a line that is skipped, and of the margins a UID or a TOML line may have: Unicode white space |
| Wire.PrintIntIff | src/maccluster/services/sync_inventory.py:418-432 | a number is printed as the only text of decimal digits without a needless zero in front, a minus sign before them exactly below zero, that has its value |
| Wire.NoBadPathGetsThrough | src/maccluster/services/sync_inventory.py:418-432 | a text is refused if and only if one of its lines that is not blank has three fields or more and a bad path first, and every path of an accepted text passes the path check |
| Wire.WireRoundTripIff | src/maccluster/services/sync_inventory.py:418-432 | the inventory survives printing and parsing if and only if no path contains a line separator that is no control character |
| Wire.LineSeparatorIsAccepted | src/maccluster/services/sync_paths.py:6-17 | such a path exists: U+2028 passes the path check |
| Wire.SplitPathReadsAs | src/maccluster/services/sync_inventory.py:418-432 | a file whose path holds such a separator is read as a file of the part behind it, or refuses the text |

## Left out

- RunTransferLadder: the progress and note callbacks and the texts of reasons are not modelled; unknown transport or policy names cannot be expressed.
- RunArep: the deny list is any predicate, so `is_denied_rel` itself and Unicode lower-casing are not modelled; the event lines are delivered by LineReader, but the fold of their JSON into counters is an outcome of the step.
- InventoryLocal: the safe walk only; the fast walk, the include patterns' own start directories and `fnmatch` are not modelled (excludes are a predicate on texts), and neither are rows whose stat fails.
- SyncOnePeer: quick mode, several peers in one run, include filters on inventories, a listing call that fails, and the waiver for partial inventories change what is planned before this model starts.
- TransferList: the ditto, ssh and scp calls, staging, verification of archives and their clean-up are steps with an outcome.
- InstallWheel: building a wheel, finding the installation, validating sources and the lock around the call are parameters or absent; digests stand for contents.
- EveryRunIsExclusive: a step system over descriptors and inodes; the retry sleep is the choice of a later step, and the refusal of symlinks and foreign files is a step that gives up.
- RunAutomation: messages, details and the content of receipts; `run_update` is the same report with fewer steps.
- BackupBeforeOverwrite: directory creation and the containment check of paths; removal of an old copy always succeeds.
- PruneOldRuns: removing a directory always succeeds, and a trailing newline in a name, which the source's pattern admits, is not modelled.
- SpliceNodeTbIds: words are of ASCII letters, digits and underscores.
- LaterSpliceOverrides: values whose brackets do not balance are excluded, because the source counts brackets inside quotes as well; on text, values with a line break are too.
- NormalizeIff: Unicode digits are not modelled; the digit limit is Python's default, which a process can change.
- ReadLines: delivers bytes; decoding them as UTF-8 is not modelled.
- ParseInventoryText: numbers are digits with an optional minus sign; other forms Python's `int` accepts are not modelled.
- RdmaRunsCompleteIff: under a byte cap sizes are not negative, as the inventories give them.
- NextFitIsUnique: sizes are not negative, as the inventories give them; the same holds for PackingBound and GreedyTakesTheMost.
- Choosing the rungs (`select_transports`, `choose_transports`) and probing them: filters over three names.
- Sample lists, formatting, progress rates and renderers: texts.
- Equality of the local and the remote inventory rules: the remote script skips other names than the local walk.
- TOML, JSON and zip libraries, hashing, regular expressions beyond the lines above, bridge and IP set-up, cable grading, doctor checks, keychain, launchd and the command line.
