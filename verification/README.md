# The machine-side workspace synchroniser, modelled and proved in Dafny

A machine keeps a Git checkout in step with a workspace's checkpoint in the cloud. It captures the
checkout as layered commits (index, tracked worktree, portable worktree) over HEAD, decides which
Git LFS changes may leave the machine, journals the snapshot, pushes it to Artifacts (a Git remote
that refuses large blobs, large packs and some sound packs), and applies other machines'
checkpoints over files people are editing. This project models that code and proves what it keeps
over every input, every run and every interleaving.

## How it is modelled

- Hashes are injective, so an object is its own identifier: a blob is its content, a pointer blob
  contains the payload it names, a commit contains its tree and its parents (`Objects`). A commit
  therefore cannot reach itself, which is proved, not assumed (`CommitGraph.Acyclic`).
- Each Git command is specified once as a function on maps from paths (`GitCommands`) or on commit
  sets with shallow boundaries (`CommitGraph`, `ArtifactsPush`); the programs are methods over them.
  The two-tree merge is the table of git-read-tree(1), section "Two Tree Merge", with an index that does
  not exist taking the new tree, as Git does it; of an executable bit `git apply` only warns; what the
  checkout's attributes and filters make of a file's content is an arbitrary function.
- Code that several callers interleave is a transition system: `Next` is one step between two awaits,
  `IsRun` and `After` are its runs, and a class with the source's own variables makes the same steps,
  each change proved to be `Next` of the state before it. Every theorem about the runs is then about
  the class.
- What the source cannot see or decide (whether the remote accepts a push, whether a write arrives,
  whether a fetch works, when a file is written) is an arbitrary choice, recorded or passed in, so that
  a contract says what the program makes of each choice.

| file | source it models |
|---|---|
| `CommitGraph.dfy`, `ArtifactsPush.dfy`, `SteppedPush.dfy`, `SizeGate.dfy`, `FetchAnchor.dfy`, `AnchorReturns.dfy` | `packages/account-machine/src/artifacts-git-remote.ts`, `packages/protocol-workspace/src/artifacts-push.ts` |
| `GitCommands.dfy`, `Checkouts.dfy`, `CacheApply.dfy`, `CacheRecovery.dfy`, `CacheInstall.dfy`, `CacheCases.dfy`, `CaptureRestore.dfy`, `StampedCapture.dfy`, `SnapshotProtocol.dfy`, `SnapshotPins.dfy`, `SnapshotShortcut.dfy`, `SnapshotStream.dfy`, `AbandonedStream.dfy` | `packages/account-machine/src/git-checkpoint.ts`, with the callbacks of `runtime-executor.ts` |
| `LfsCapture.dfy`, `LfsHydration.dfy`, `LfsPins.dfy`, `LfsInventory.dfy` | `git-lfs.ts`, `cloud-lfs-store.ts`, `git-lfs-inventory.ts` |
| `Rechunking.dfy`, `WorktreeWatch.dfy`, `DeviceRegistry.dfy`, `Coalesced.dfy` | `cloud-space-authority.ts`, `git-worktree-watch.ts`, `device-registry.ts`, `coalesced.ts` |

## What the proofs found

Where a property the code or its documentation suggests does not hold of the code as it is, the code
is modelled as it is, the failure is a lemma with a concrete input, and the condition under which the
property holds is proved, as an if-and-only-if.

1. After a pack is refused and sent again under the remote's boundaries, the stepped push can count
   listed commits as sent that the remote never receives, and end accepted without them
   (`SteppedPush.StepSkipsListed`, `SteppedPush.SkippedStaysMissing`). The tips of a step, or of the
   whole push, deliver what was listed whatever is refused if and only if no remote boundary hides a
   listed parent from them (`SteppedPush.DeliveredIff`).
2. A retry can carry more than its step, in two ways. It carries a commit already counted as sent
   exactly where earlier tips did not deliver it (`SteppedPush.RetriesKeepToStep`,
   `SteppedPush.StepCarriesOwed`), and an older, unlisted commit exactly where the remote lacks some of
   the pushed history that the checkout counts as the remote's (`SteppedPush.RetriesCarryListedOnly`,
   `SteppedPush.StepCarriesOlder`).
3. The size check reads every layer of a checkpoint if and only if the checkout's shallow file marks
   no layer above the lowest (`SizeGate.CurrentLayersChecked`, `SizeGate.MarkedLayerUnchecked`). A push
   under the checkout's own boundaries is safe all the same; one from HEAD is if and only if no layer
   the check missed holds an oversized blob (`SizeGate.OpenGateHolds`, `SizeGate.GateHoldsIff`).
4. A pack cut at the push's own boundaries connects for every tip if and only if the remote holds all
   the walk counts as its own (`ArtifactsPush.OwnBoundariesConnect`,
   `ArtifactsPush.MergedParentBelowBoundary`); with the remote's boundaries joined it always does.
5. A fetch can fail although no ref is locked if and only if the fetched commits let the anchor leave
   a value and come back to it while another's commit is not reached (`AnchorReturns.FailsIffReturns`,
   `AnchorReturns.MovedAwayAndBackFails`); on one ancestry line they never do.
6. Hydrating a pointer file re-adds it to the index, meant to refresh its stat only. The entry is kept
   unless it is still that pointer and the payload cleans to another blob, as where no attribute puts
   the path under LFS, or the file has another mode (`CaptureRestore.EntryKept`,
   `CaptureRestore.EntriesMoved`, `CacheRecovery.RefreshKeeps`, `CacheCases.EntryMovedCases`). A
   restored index, a merged backup's and an applied checkpoint's are the intended ones exactly up to
   that.
7. An apply stopped before it hydrates files and run again ends as if it had not stopped. Stopped
   later it does if and only if no file hydrated so far is one whose re-adding moves its entry, since
   what was written is forgotten, or was turned from a symlink into the pointer of the same text, which
   makes the patch conflict (`CacheRecovery.RunAgainAfterCrash`, `CacheCases.EntryNotReAdded`,
   `CacheCases.TurnedFails`). Run again after it completed, it changes nothing if and only if every
   moved entry is one the two indexes agree on and nothing was so turned
   (`CacheRecovery.RunAgainWhenDone`, `CacheCases.AgainConflicts`).
8. `git apply` only warns of a changed executable bit, so such an edit does not refuse an apply. It is
   lost exactly where the patch applies over it and deletes the file or makes it a symlink
   (`CacheInstall.ModeEditKept`, `CacheCases.ModeEditDeleted`). For the same reason a delta found
   already installed may lack its mode changes: they are installed if and only if the patch applied or
   they were there (`CacheInstall.ModesInstalledIff`, `CacheCases.ModeSkipped`).
9. `resetGitWorktree` promises to remove files the current snapshot added; LFS files held back from
   that snapshot stay, and nothing else does (`CaptureRestore.ResetReproduces`,
   `CaptureRestore.HeldBackStays`). A reset refused for a missing LFS object leaves the index at the
   snapshot (`CaptureRestore.ResetWorktree`).
10. The last stage of applying a checkpoint fails if and only if a wanted pointer has no payload or
   its file was deleted locally (`CacheInstall.HydrationSucceeds`); index and HEAD have moved by then
   (`CacheInstall.MissingFileIsLate`, `CacheInstall.DeletedPointerFails`).
11. Hydration collects what it requires by object id alone. Every pointer of the tree is collected, so
   the checkout after it fails if and only if a pointer claims another size than was collected for its
   object (`LfsHydration.CheckoutFindsAll`, `LfsHydration.TwoSizes`).
12. The saved LFS inventory goes stale when a shallow checkout is deepened, exactly when the fetched
   commits hold a pointer it lacks (`LfsInventory.DeepenedInventory`,
   `LfsInventory.DeletedBelowBoundary`).
13. Pins cover publication in every run of one stream whose base is never moved over a snapshot stored
   against an older one, which is how its caller moves it (`AbandonedStream.PinsCoverOneStream`). A
   caller that moved it at any moment would break this if and only if a base recurs after a different
   one, since a stale snapshot's pins are released before its journal row is cleared
   (`SnapshotPins.PinsCoverPublication`, `SnapshotPins.ReturnedBaseUnpins`).
14. What breaks it in the repository is a stream abandoned in the middle of a capture: the next one
   shares its publication id and its journal row. The next stream's snapshot stays pinned in every run
   of both if and only if the abandoned capture can release no more, and its journal row stays if and
   only if that capture can clear no more (`AbandonedStream.AbandonedPins`,
   `AbandonedStream.LateDiscardUnpins`, `AbandonedStream.AbandonedRow`, `AbandonedStream.LateClear`).
15. Answering early from an unchanged stamp is sound if and only if equal worktree commits mean equal
    content among the snapshots that can be committed (`SnapshotShortcut.ShortcutIsSound`,
    `SnapshotShortcut.SameCommitOtherContent`).
16. One stamp read before a capture would not be enough to rule out a torn capture, even with stamps
    that never repeat; the code's two equal ones are (`StampedCapture.OneStampIsNotEnough`,
    `StampedCapture.CaptureIsOneState`).
17. A hydrated LFS file whose mode alone changed is put back to HEAD's pointer with HEAD's mode and is
    not held back, so the change is lost unreported (`CaptureRestore.ModeChangeLost`). A file survives
    capture and restore if and only if it is no change under LFS, a pointer whose object any capture can
    place, or what HEAD's pointer hydrates to, or it is another pointer text the layer carries
    (`CaptureRestore.RestoreUndoesCapture`).
18. Capturing what was restored gives a file again if and only if it is no LFS pointer other than
    HEAD's own entry (`CaptureRestore.CaptureUndoesRestore`,
    `CaptureRestore.NewPointerHydrated`, `CaptureRestore.HydratedHeldBack`).
19. A snapshot rejected by the size check, whose journal row could not be cleared, is rejected again by
    every later capture and never dropped until another base is committed
    (`SnapshotProtocol.RejectedStays`, `SnapshotProtocol.RejectedStored`).
20. A lookup that waited for a refresh is answered from a current listing if and only if no
    invalidation came since that is still to be fetched (`DeviceRegistry.AnswerIsCurrent`,
    `DeviceRegistry.InvalidatedBeforeAnswer`).
21. A watch handler may return before its path is decided, when another event starts the next
    classification between the end of one and the moment its waiters resume
    (`WorktreeWatch.ReturnsEarly`); its path is being asked about then and is not lost. Over any run one
    can do so if and only if a batch that asks git takes the path of a handler that is due to resume
    and not decided (`WorktreeWatch.ReturnsDecided`).

## Model

| member | source | states |
|---|---|---|
| CommitGraph.AncestorsClosed | packages/account-machine/src/artifacts-git-remote.ts:66-73 | what a commit reaches under shallow boundaries contains every parent the walk follows |
| CommitGraph.AncestorsLeast | packages/account-machine/src/artifacts-git-remote.ts:66-73 | and it is the least such set: any ancestor-closed set that holds the commit holds all it reaches |
| CommitGraph.MoreCut | packages/account-machine/src/artifacts-git-remote.ts:143-149 | adding boundaries never makes a walk reach more |
| CommitGraph.Acyclic | packages/account-machine/src/artifacts-git-remote.ts:169-170 | no commit is reached from below itself, whatever the boundaries |
| ArtifactsPush.ArtifactsRemote.Receive | packages/account-machine/src/artifacts-git-remote.ts:116-128 | a push that is applied was connected, adds exactly its pack, moves exactly its ref and records the boundaries it was told; an accepted one was applied, one refused for its size was not, and any other failure may hide either; the held commits stay ancestor-closed |
| ArtifactsPush.JoinedBoundariesConnect | packages/account-machine/src/artifacts-git-remote.ts:142-150 | for every DAG, boundaries and tip, a pack cut at the push's own and the remote's boundaries leaves no sent or held commit with a missing parent |
| ArtifactsPush.OwnBoundariesConnect | packages/account-machine/src/artifacts-git-remote.ts:121-126 | cut at its own boundaries alone, the pack connects for every tip if and only if the remote holds everything the walk counts as the remote's |
| ArtifactsPush.MergedParentBelowBoundary | packages/account-machine/src/artifacts-git-remote.ts:121-126 | the refusal the source reports: a merged parent held only as a boundary's parent is left out, and is sent once the remote's boundaries are joined |
| SteppedPush.SmallerPush | packages/protocol-workspace/src/artifacts-push.ts:34-36 | none exactly for at most one commit; otherwise a positive number below its argument, the quarter rounded up |
| SteppedPush.ListedReach | packages/account-machine/src/artifacts-git-remote.ts:168-170 | in a listing with parents first, a listed commit reaches only earlier listed commits and what the remote's tips reach |
| SteppedPush.TipsCover | packages/account-machine/src/artifacts-git-remote.ts:177-180 | every commit of a step is reached by a commit of that step that no other commit of it has as parent, so pushing the tips pushes the step |
| SteppedPush.CutKeepsListed | packages/account-machine/src/artifacts-git-remote.ts:142-150 | boundaries that cut no listed commit lose no listed commit from any push of the target's history |
| SteppedPush.PushPack | packages/account-machine/src/artifacts-git-remote.ts:137-153 | a push makes one attempt, and a second exactly if the first was refused for a reason other than its size; the first pack is cut at its own boundaries; the second, once the remote's boundaries were fetched, at both and then cannot lack a parent; the answer is the last attempt's, accepted means the remote has the tip at the ref, and nothing else moves |
| SteppedPush.PushRefused | packages/account-machine/src/artifacts-git-remote.ts:137-153 | the retry of a refused pack: nothing is left to send if that had landed all the same; otherwise the pack of the tip cut at its own boundaries and, if they could be fetched, the remote's, which then cannot lack a parent |
| SteppedPush.RetryDeliversListed | packages/account-machine/src/artifacts-git-remote.ts:142-150 | a retry under the joined boundaries brings the remote everything listed for its tip, for every tip of the pushed history, if and only if the remote's boundaries there hide no commit it may lack |
| SteppedPush.AcceptedHeld | packages/account-machine/src/artifacts-git-remote.ts:155-162 | under that condition a connected remote that holds a tip holds all of the tip's history that its own refs do not account for |
| SteppedPush.PushBounded | packages/account-machine/src/artifacts-git-remote.ts:155-162 | no attempt of a step is for a tip outside the target's history; a first attempt carries only listed commits, at most the step size; of the listed commits the remote lacks a retry carries at most that many beside those the steps before it owe, which are among those their tips do not reach past all boundaries; at most that many listed ones at all when no boundary is listed, and no older commit the remote lacks when it holds all of this history the checkout counts as its own |
| SteppedPush.RetriesCarryListedOnly | packages/account-machine/src/artifacts-git-remote.ts:142-150 | no retry of any tip of the target's history carries an older commit the remote lacks if and only if the remote holds all of that history the checkout counts as its own |
| SteppedPush.RetriesKeepToStep | packages/account-machine/src/artifacts-git-remote.ts:155-162 | after a run of retries no later one carries a commit already counted as sent if and only if the remote's boundaries hid none of those from their tips |
| SteppedPush.StepCarriesOlder | packages/account-machine/src/artifacts-git-remote.ts:116-128 | a step of one commit whose retry carries two the remote lacks, one of them not listed |
| SteppedPush.StepCarriesOwed | packages/account-machine/src/artifacts-git-remote.ts:176-185 | a second step of two commits whose retry carries three the remote lacks, one of them counted as sent by the first |
| SteppedPush.ForkedListed | packages/account-machine/src/artifacts-git-remote.ts:168-174 | the listing of that push: five commits, two at a time, the remote's boundary at the tip of the first two |
| SteppedPush.LackedBounded | packages/account-machine/src/artifacts-git-remote.ts:155-162 | whatever a pack is cut at, the listed commits it carries that the remote lacks are those of its step or ones counted as sent before it |
| SteppedPush.StepHeld | packages/account-machine/src/artifacts-git-remote.ts:177-185 | once the tips of a step are at the remote the whole step counts as the remote's, and is held there when the remote's boundaries hide nothing |
| SteppedPush.PushTip | packages/account-machine/src/artifacts-git-remote.ts:180-184 | a tip goes to the next staging ref, over whatever a failed push left there; every ref and tip counted on is kept |
| SteppedPush.PushStep | packages/account-machine/src/artifacts-git-remote.ts:176-191 | an accepted step leaves every commit of it counted as the remote's, its tips held there and covering it; a refused one leaves the earlier steps so |
| SteppedPush.PushAll | packages/account-machine/src/artifacts-git-remote.ts:175-192 | the loop ends because the pair of step size and commits left falls lexicographically; the sent prefix is always counted as the remote's; limits never grow; it gives up as too large only at a single commit |
| SteppedPush.PushInSteps | packages/account-machine/src/artifacts-git-remote.ts:163-198 | the complete push: each attempt bounded by its step and what earlier steps owe, the push that moves the ref by that alone; a refused pack is sent again at once, a refusal for size calls for a quarter of the step, the ref is pushed exactly once every step was accepted, and the answer is the last attempt's; every accepted staging ref is asked to be deleted at the end; accepted means the ref is at the target, the pushed tips cover the list, the remote holds all they reach under all boundaries, and every listed commit when none is hidden from them; otherwise no published ref moves but this one, by a last push whose answer was lost |
| SteppedPush.PushToArtifacts | packages/account-machine/src/artifacts-git-remote.ts:129-135 | the whole target is pushed first, and in steps exactly after an answer of too large; an accepted push has moved the ref to the target, whether whole or in steps, and no other published ref ever moves |
| SteppedPush.DeliveredIff | packages/account-machine/src/artifacts-git-remote.ts:176-185 | for a step or the whole list: what its tips reach under all boundaries, with what the remote held, is all that was listed if and only if each listed parent of a listed remote boundary was held or is reached by a tip past all boundaries |
| SteppedPush.DeliversAtLeast | packages/account-machine/src/artifacts-git-remote.ts:176-193 | whatever is refused and retried, a remote that holds the tips holds at least that |
| SteppedPush.RetriedIs | packages/account-machine/src/artifacts-git-remote.ts:142-150 | a run in which every tip is retried brings the remote no more than that |
| SteppedPush.StepSkipsListed | packages/account-machine/src/artifacts-git-remote.ts:176-185 | the counterexample of finding 1: a step of two commits whose only tip is a remote boundary; its retry is connected, the step counts as sent, and the other commit is not at the remote |
| SteppedPush.SkippedStaysMissing | packages/account-machine/src/artifacts-git-remote.ts:176-193 | and the rest of that push ends with the target at the remote and that commit still missing |
| SizeGate.CheckCurrentLayers | packages/account-machine/src/artifacts-git-remote.ts:77-93 | it reports exactly the oversized blob and path pairs of the listed commits, each distinct tree read once |
| SizeGate.LayeredReach | packages/account-machine/src/git-checkpoint.ts:62-68 | single-parent layers reach exactly themselves and what HEAD reaches |
| SizeGate.CurrentLayersChecked | packages/account-machine/src/artifacts-git-remote.ts:75-80 | the listing covers HEAD and all three layers if and only if the shallow file marks none above the lowest |
| SizeGate.MarkedLayerUnchecked | packages/account-machine/src/artifacts-git-remote.ts:75-93 | a checkout whose shallow file marks the tracked layer: the oversized blob below it is in no listed layer and in the pack pushed from HEAD |
| SizeGate.PublishCheckpoint | packages/account-machine/src/artifacts-git-remote.ts:220-238 | rejection before any credential exactly for an oversized blob in a listed layer, reporting exactly those; otherwise pushed under the checkout's own boundaries if and only if there is no HEAD, or it descends from the remote's and nothing listed since is oversized; what is pushed so and not at the remote's head fits, and what is pushed from HEAD does if and only if no layer the check missed holds an oversized blob |
| SizeGate.OpenGateHolds | packages/account-machine/src/artifacts-git-remote.ts:225-233 | pushed under the checkout's own boundaries, a checkpoint that passed the checks carries no oversized blob, whatever they mark |
| SizeGate.GateHoldsIff | packages/account-machine/src/artifacts-git-remote.ts:225-233 | pushed from HEAD it carries none if and only if no layer the check missed holds one, and it misses none where no layer above the lowest is marked |
| FetchAnchor.AnchorNeverRewinds | packages/account-machine/src/artifacts-git-remote.ts:262-266 | in any run of any fetches, a step that moves the anchor moves it to a fetched commit it did not reach |
| FetchAnchor.FetchedStayReachable | packages/account-machine/src/artifacts-git-remote.ts:262-297 | on one ancestry line, over every interleaving, the first anchor and each completed fetch's commit stay reachable from the anchor |
| FetchAnchor.AnchorEndsAtNewest | packages/account-machine/src/artifacts-git-remote.ts:262-297 | once all fetches have completed the anchor is the newest commit |
| FetchAnchor.RetriesBounded | packages/account-machine/src/artifacts-git-remote.ts:282-293 | over every interleaving no fetch retries more often than the anchor advanced |
| FetchAnchor.FetchesFinish | packages/account-machine/src/artifacts-git-remote.ts:275-295 | whatever the commits and the interleaving, n fetches run at most 3n(n + 1) git commands in all and move the anchor at most n times, and one that has not completed or failed has a next command |
| FetchAnchor.FailsOnlyWhenLocked | packages/account-machine/src/artifacts-git-remote.ts:289-292 | on one line, in every run, a fetch fails only when its swap was refused while the anchor had not moved since it was read |
| AnchorReturns.FailsIffReturns | packages/account-machine/src/artifacts-git-remote.ts:286-292 | a run without locks in which a fetch fails exists if and only if different fetches could move the anchor, each to a commit it does not reach, away from a value and back to it while the commit of another is not reached |
| AnchorReturns.OneLineNeverReturns | packages/account-machine/src/artifacts-git-remote.ts:262-266 | commits of one ancestry line never allow that |
| AnchorReturns.MovedAwayAndBackFails | packages/account-machine/src/artifacts-git-remote.ts:289-292 | such a run, over three unrelated commits |
| FetchAnchor.Checkout.SwapAnchor | packages/account-machine/src/artifacts-git-remote.ts:286-288 | the compare-and-swap is the transition system's step |
| FetchAnchor.Checkout.ReadAnchor | packages/account-machine/src/artifacts-git-remote.ts:279-285 | reading the anchor is the transition system's step |
| FetchAnchor.Checkout.CheckAnchor | packages/account-machine/src/artifacts-git-remote.ts:289-292 | deciding again is the transition system's step |
| GitCommands.MergeIsThreeWay | packages/account-machine/src/git-checkpoint.ts:313-314 | the two-tree merge table, read as a three-way merge: a change is made where the index holds the old or already the new entry, what the trees agree on stays as staged, all else conflicts; an index that does not exist becomes the new tree |
| GitCommands.MergeAgain | packages/account-machine/src/git-checkpoint.ts:313-314 | merging again changes nothing, and staged entries the two trees agree on are unchanged |
| GitCommands.Apply | packages/account-machine/src/git-checkpoint.ts:303-305 | an all-or-nothing patch: every named path takes its postimage, every other path is as it was |
| GitCommands.Patched | packages/account-machine/src/git-checkpoint.ts:303-311 | a patched file fits the reverse patch, and the patch again exactly if that changes no more than the executable bit; a changed mode is set, and content or mode the patch does not name is kept |
| Checkouts.FetchAll | packages/account-machine/src/git-lfs.ts:200-229 | hydration succeeds if and only if each required object is genuine and cached or can be downloaded, and then adds exactly those to the cache; stopped at one that cannot be had, it has added only required ones |
| LfsHydration.Collect | packages/account-machine/src/git-lfs.ts:197-200 | what hydration requires: one pointer of the commit's whole history for each oid, the snapshot's own objects over them, each listed once |
| LfsHydration.PointersCollected | packages/account-machine/src/git-lfs.ts:90-102 | every pointer in the tree of the commit has its oid among them |
| LfsHydration.CheckoutFindsAll | packages/account-machine/src/git-lfs.ts:195-201 | once everything that was required could be had, a checkout of the tree meets a missing object if and only if a pointer claims another size than was collected for its oid |
| LfsHydration.TwoSizes | packages/account-machine/src/git-lfs.ts:197-201 | a tree in which two pointers name one object with two sizes, so that one of them always fails |
| Checkouts.Checkout.HydrateObjects | packages/account-machine/src/git-lfs.ts:200-229 | the loop over the required objects computes that, changing nothing but the cache |
| Checkouts.Checkout.RefreshIndex | packages/account-machine/src/git-lfs.ts:283-294 | of the written files exactly those whose index entry still has the tree's blob are re-added, as what they clean to in their own mode |
| CacheApply.ApplyCacheCheckpoint | packages/account-machine/src/git-checkpoint.ts:289-333 | the program collects what each checkpoint requires and lists the incoming tree, and is the run of its commands and the refresh that ends it, to the same state and the same error |
| CacheApply.MoveHead | packages/account-machine/src/git-checkpoint.ts:315-331 | moving branch and HEAD by compare-and-swap, with its four refusals, is the run of its two commands |
| CacheInstall.HeadMovesOnlyFromPrevious | packages/account-machine/src/git-checkpoint.ts:315-331 | over every apply, completed or failed, HEAD and branches are as they were unless the checkpoint moves HEAD and the checkout is still exactly where the last applied one left it, its new branch absent or already there; then just the checkpoint's branch and HEAD are moved to it. A commit made meanwhile, another branch, a detached HEAD or a taken branch fail the apply, and a checkpoint that moves nothing changes neither |
| CacheInstall.HeadCommands | packages/account-machine/src/git-checkpoint.ts:315-331 | from any checkout the two commands do nothing, move branch and HEAD to the checkpoint, or refuse with everything as it was, and which of the three errors that is |
| CacheInstall.LocalCommitKept | packages/account-machine/src/git-checkpoint.ts:315-323 | a commit made on the branch since the last apply fails it and stays the tip of its branch |
| CacheApply.CheckoutLfs | packages/account-machine/src/git-lfs.ts:258-294 | hydrating the files, one by one, is the run of one command a file, and re-adds exactly the files that changed |
| CacheRecovery.RunAgainAfterCrash | packages/account-machine/src/git-checkpoint.ts:304-332 | stopped after any number of commands before the hydration of files and run again from the start, the apply ends in the very state and with the very error of the uninterrupted run; stopped later, before the refresh, it does if and only if no file hydrated so far was turned from a symlink or, where the run completes, is one whose re-adding moves its entry |
| CacheRecovery.RunAgainWhenDone | packages/account-machine/src/git-checkpoint.ts:288-333 | run again from a completed apply it changes nothing if and only if no file was so turned and every entry the refresh moved is one the two indexes agree on |
| CacheRecovery.RefreshKeeps | packages/account-machine/src/git-lfs.ts:280-294 | the refresh keeps an entry if and only if it is not the pointer of a written file whose payload cleans to another blob or whose mode differs |
| CacheRecovery.WrittenAre | packages/account-machine/src/git-lfs.ts:260-276 | the written files are the listed ones that were the wanted pointer |
| CacheRecovery.SmudgesFill | packages/account-machine/src/git-lfs.ts:260-276 | hydration turns wanted pointers into their payloads, changes nothing else, and fails only for a missing file or object |
| CacheRecovery.StaysSettled | packages/account-machine/src/git-checkpoint.ts:306-331 | what a command has done, later commands do not undo: it would still change nothing, but for the patch once a file turned from a symlink is hydrated |
| CacheInstall.LocalWorkPreserved | packages/account-machine/src/git-checkpoint.ts:287-333 | completed or failed, in every apply: held-back paths, every other branch and files whose hydrated content the two checkpoints agree on are unchanged, except that the incoming pointer itself is hydrated; a staged entry the two indexes agree on is unchanged if and only if it is not one the refresh moves |
| CacheInstall.DeltaIs | packages/account-machine/src/git-lfs.ts:238-256 | the patch names exactly the paths neither checkpoint holds back whose hydrated files differ between the two, from and to those files, or between the entries themselves where the blob is the same |
| CacheInstall.ExpandStage | packages/account-machine/src/git-lfs.ts:243-252 | it can be built if and only if the payload of every pointer it replaces or installs is cached |
| CacheInstall.OverlappingEditRefused | packages/account-machine/src/git-checkpoint.ts:304-311 | a changed path that holds neither preimage nor postimage, in existence, type or content, fails the apply with nothing but the object cache changed |
| CacheInstall.ModeEditKept | packages/account-machine/src/git-checkpoint.ts:304-311 | a local change of the executable bit survives a completed apply if and only if the patch did not apply over it or left a regular file |
| CacheInstall.CompletedApplyInstalls | packages/account-machine/src/git-checkpoint.ts:295-333 | a completed apply has every changed path at its postimage or at the payload it was turned into, HEAD at the checkpoint's, no wanted pointer of the incoming tree left, and the index at the two-tree merge in every entry the refresh does not move, and in no other |
| CacheInstall.FilesInstalled | packages/account-machine/src/git-checkpoint.ts:295-333 | in the checkpoints' own terms: after a completed apply, at every path neither holds back and where they differ, a file is there exactly if the incoming checkpoint has one, of its type, and with its hydrated content where they differ in more than the executable bit; and no pointer of the incoming one is left |
| CacheInstall.ModesInstalledIff | packages/account-machine/src/git-checkpoint.ts:304-311 | it has installed the executable bits if and only if the patch applied or they were already there |
| CacheCases.EntryReAdded | packages/account-machine/src/git-lfs.ts:280-294 | an apply that only hydrates a staged pointer stages what the payload cleans to, in the file's mode |
| CacheCases.EntryNotReAdded | packages/account-machine/src/git-lfs.ts:258-294 | stopped before it does, and run again, it leaves the entry as it was |
| CacheCases.EntryMovedCases | packages/account-machine/src/git-lfs.ts:280-294 | a pointer under no attribute is staged as its payload, a staged executable bit the file lacks is lost, and otherwise the entry is kept |
| CacheCases.AgainConflicts | packages/account-machine/src/git-checkpoint.ts:313-332 | an apply that newly stages such a pointer completes, and run again fails for an index conflict |
| CacheCases.TurnedFails | packages/account-machine/src/git-checkpoint.ts:304-312 | a symlink turned into the pointer of the same text is hydrated, and stopped there and run again the apply fails for a conflict |
| CacheCases.ModeEditDeleted | packages/account-machine/src/git-checkpoint.ts:304-305 | a file made executable here and deleted there is deleted |
| CacheCases.ModeSkipped | packages/account-machine/src/git-checkpoint.ts:306-311 | a delta of one content and one mode change passes for installed where only the content is |
| CacheInstall.HydrationSucceeds | packages/account-machine/src/git-lfs.ts:261-274 | the last stage succeeds if and only if no wanted pointer's file is missing and no pointer still to hydrate lacks its payload |
| CacheInstall.MissingFileIsLate | packages/account-machine/src/git-checkpoint.ts:313-332 | a run of the whole apply that fails for a missing file has the index merged and HEAD moved |
| CacheInstall.DeletedPointerFails | packages/account-machine/src/git-checkpoint.ts:313-332 | such a run: a pointer file deleted locally, and a checkpoint that only commits the index |
| CacheInstall.FetchedAreCached | packages/account-machine/src/git-lfs.ts:195-201 | once hydration has succeeded every required object is cached and genuine |
| CacheInstall.FetchStage | packages/account-machine/src/git-checkpoint.ts:296-297 | the first stage of an apply succeeds if and only if every required object is genuine and cached or can be downloaded, and then caches exactly those; an apply it fails has changed nothing but the cache |
| CacheInstall.HydratedPointerCached | packages/account-machine/src/git-lfs.ts:197-201 | after the apply's hydration a pointer of the incoming tree finds its payload if and only if it claims the size that was collected for its oid |
| LfsPins.Publisher.Protect | packages/account-machine/src/cloud-lfs-store.ts:66-73 | every requested object is pinned, in order, and exactly the genuine ones the account holds are reported |
| LfsPins.Publisher.Has | packages/account-machine/src/cloud-lfs-store.ts:74 | the object is pinned unless it is, and then probed once, under that pin; the whole log stays covered by pins |
| LfsPins.Publisher.Put | packages/account-machine/src/cloud-lfs-store.ts:75-93 | it succeeds if and only if the source is the object and the account has it or the upload arrives, reported or not; nothing else is ever stored; exactly one pin if there is none, one probe, one upload if the object is not there, and one more probe if a verified upload was reported failed, all under that pin |
| LfsPins.Publisher.ReleasePublication | packages/account-machine/src/cloud-lfs-store.ts:94-97 | a release forgets every pin it gives up |
| LfsPins.CoveredLater | packages/account-machine/src/cloud-lfs-store.ts:57-97 | a log in which every probe and upload was pinned by its publication stays one |
| LfsCapture.PassCloses | packages/account-machine/src/git-lfs.ts:145-189 | whatever index a pass is given, each path under LFS is left absent, unchanged from HEAD, HEAD's own pointer, or a pointer the snapshot places |
| LfsCapture.PassGrows | packages/account-machine/src/git-lfs.ts:145-189 | later passes, which only place and hold back more, keep what an earlier pass established |
| LfsCapture.LfsSnapshot.Sanitize | packages/account-machine/src/git-lfs.ts:145-191 | the pass over a temporary index does exactly that on every path, so a modified or added pointer file whose object is placed, at the origin or in account storage is carried and not held back; it holds back, with its kind, exactly each other governed change that is more than HEAD's own payload and not held back before, and fails if and only if ordinary content staged as a pointer cannot be recovered |
| LfsCapture.LfsSnapshot.Decide | packages/account-machine/src/git-lfs.ts:171-187 | one governed, changed path: it is carried as it is if and only if the pass is not the staged one and it is a pointer whose object is placed already, at the origin, or genuine in account storage; otherwise it is dropped or put back to HEAD's pointer, and held back unless it is HEAD's payload; no other path changes |
| LfsCapture.LfsSnapshot.PlaceHistory | packages/account-machine/src/git-lfs.ts:110-135 | exactly the objects of history are placed, each as history names it: where the committed snapshot has it, at the origin, or in account storage under this publication's pin; it succeeds if and only if each is confirmed, or genuine and in account storage or in the local cache with an upload that arrives |
| LfsCapture.LfsSnapshot.PlaceCommitted | packages/account-machine/src/git-lfs.ts:122-135 | one object is placed where the committed snapshot has it, else at the origin, else in account storage, if and only if it is confirmed, found there, or can be stored from the local cache |
| CaptureRestore.CreateIntermediateCheckpoint | packages/account-machine/src/git-checkpoint.ts:131-172 | a capture places the objects of HEAD's whole history and makes the layers, each what its pass makes of the one below, without changing the checkout; a file that is a pointer to an object of that history, of the origin or of account storage is in the last layer as it stands, unless a staged change had its path dropped; it fails if and only if HEAD is detached, an object of history cannot be placed, or staged content cannot be recovered |
| CaptureRestore.CaptureLayers | packages/account-machine/src/git-checkpoint.ts:144-170 | a capture has the single-parent layers the size gate relies on, and each of its layers is closed under LFS |
| CaptureRestore.LayersPlaced | packages/account-machine/src/git-lfs.ts:110-135 | every pointer under LFS in every layer, HEAD's own included, has its object placed by the snapshot |
| CaptureRestore.RestoreCheckpoint | packages/account-machine/src/git-checkpoint.ts:212-232 | it fails for the branch if and only if that is invalid, with nothing changed, and for an object that cannot be had before HEAD, index or files change; success leaves exactly the restored state with exactly the required objects cached; it succeeds if and only if the branch is valid, every required object can be had, and no pointer claims another size than was collected; a pointer that does leaves the checkpoint checked out but partly hydrated |
| CaptureRestore.ValidBranchIs | packages/account-machine/src/git-checkpoint.ts:218 | a branch is valid if and only if it is not empty, holds only ASCII letters, digits, dot, underscore, slash and hyphen, does not start with a slash and has no two dots together |
| CaptureRestore.CheckoutPayloads | packages/account-machine/src/git-lfs.ts:258-294 | every pointer of the tree is replaced by its payload and re-added, and no other file or entry changes; it fails if and only if one is not cached, with no entry changed and no file but some of those pointers |
| CaptureRestore.EntryKept | packages/account-machine/src/git-lfs.ts:280-294 | re-adding keeps an index entry unless it is the pointer hydrated there and the payload cleans to another blob or the modes differ |
| CaptureRestore.PointerReAdded | packages/account-machine/src/git-lfs.ts:280-294 | a checkout whose HEAD, index and file are a pointer under no attribute: captured and restored, its index holds what the payload cleans to |
| CaptureRestore.EntriesMoved | packages/account-machine/src/git-lfs.ts:280-294 | with no LFS filter that is the payload itself, and a staged executable bit is lost even with one |
| CaptureRestore.RestoreReproduces | packages/account-machine/src/git-checkpoint.ts:222-232 | from any checkout, a restore leaves exactly the checkpoint's files, ignored ones aside, if and only if there were no stray untracked files |
| CaptureRestore.RestoreUndoesCapture | packages/account-machine/src/git-checkpoint.ts:119-232 | capturing any checkout, LFS files or not, and restoring into another reproduces branch and HEAD (unborn included) and, path by path, a file if and only if it is no change under LFS, an available pointer, or what HEAD's pointer hydrates to, or it is another placed pointer text the layer carries; of the paths not held back exactly the hydrated LFS files whose mode alone changed are not reproduced |
| CaptureRestore.IndexRoundTrip | packages/account-machine/src/git-checkpoint.ts:144-232 | the capture keeps an index entry if and only if it is neither a staged LFS change nor content to recover, and one that is dropped is held back; the restore keeps it if and only if re-adding the hydrated file does not move it; together they keep one if and only if neither changes it, or re-adding gives it again |
| CaptureRestore.ModeChangeLost | packages/account-machine/src/git-lfs.ts:182-186 | a hydrated LFS file made executable: nothing is held back, and it is restored without the mode |
| CaptureRestore.LayerIs | packages/account-machine/src/git-lfs.ts:156-187 | what a capture's last layer holds of any file, from the checkout and the authority alone: the file unless it is a change under LFS other than an available pointer, else HEAD's pointer, else nothing; a pointer text that is not available but placed for another path may be carried instead |
| CaptureRestore.CaptureUndoesRestore | packages/account-machine/src/git-checkpoint.ts:119-232 | capturing what was restored gives HEAD and branch again and, path by path, the same file if and only if it is no LFS pointer other than HEAD's own entry |
| CaptureRestore.NewPointerHydrated | packages/account-machine/src/git-checkpoint.ts:119-232 | a pointer made of a new large file is captured, and restored hydrated |
| CaptureRestore.HydratedHeldBack | packages/account-machine/src/git-lfs.ts:171-187 | a capture of that checkout holds the file back |
| CaptureRestore.UntrackedFilesUntouched | packages/account-machine/src/git-checkpoint.ts:228-231 | a file that neither index, HEAD nor checkpoint tracks is as it was |
| CaptureRestore.ResetWorktree | packages/account-machine/src/git-checkpoint.ts:262-268 | a reset is a restore after indexing the whole current snapshot; refused before restoring, it leaves only that index; refused later, the base checked out but partly hydrated; it succeeds if and only if the base's branch is valid, every required object can be had and no pointer claims another size |
| CaptureRestore.ResetReproduces | packages/account-machine/src/git-checkpoint.ts:260-268 | from any dirty checkout the reset reaches branch and HEAD of the base, each entry of its index unless re-adding moves it, and its files, ignored ones aside, if and only if no held-back file is left |
| CaptureRestore.HeldBackStays | packages/account-machine/src/git-checkpoint.ts:260-268 | a new large file nobody made a pointer of is held back from the snapshot and survives a reset to an empty base |
| CaptureRestore.ResetKeepsIgnored | packages/account-machine/src/git-checkpoint.ts:260-261 | an ignored file that index, base and its HEAD do not track survives a reset untouched |
| CaptureRestore.CaptureMissesOnlyHeldBack | packages/account-machine/src/git-checkpoint.ts:144-163 | a file that is tracked or not ignored is missing from a capture only if the capture reports it held back |
| CaptureRestore.MergeBackup | packages/account-machine/src/git-checkpoint.ts:272-285 | the merged tree becomes the files and the snapshot's index the index, its hydrated pointers re-added; it succeeds if and only if the merged pointers' payloads are cached |
| CaptureRestore.MergeKeepsIndex | packages/account-machine/src/git-checkpoint.ts:270-284 | merging a backup leaves HEAD and branches as they were, an index entry if and only if it is neither a staged LFS change nor content to recover and re-adding the merged file does not move it, or gives it again, and the files, ignored ones aside, as merged if and only if no held-back file is left |
| SnapshotProtocol.UncertainSnapshotKept | packages/account-machine/src/git-checkpoint.ts:342-484 | over every run with failures and crashes at any await, a snapshot that may have reached the remote keeps its journal row and nothing else reaches the remote until its base moves, an equal one is found, or it is accepted |
| SnapshotProtocol.DeliveredSnapshotKept | packages/account-machine/src/git-checkpoint.ts:462-484 | so it is with every snapshot a push delivered, acknowledged or not, while its base is the committed one: whatever fails or crashes afterwards it keeps its row, it alone has been added to the remote, and an idle stream takes it up again |
| SnapshotProtocol.NextCapturePublishesSame | packages/account-machine/src/git-checkpoint.ts:389-403 | the next capture after any such run takes up that identical snapshot: it finds the committed one equal or journals and publishes it again |
| SnapshotProtocol.RowDroppedOnlyFor | packages/account-machine/src/git-checkpoint.ts:392-475 | in every run the row is dropped only for a moved base, equal content, a rejection of a snapshot that never reached the remote, or acceptance, also when the clearing itself fails |
| SnapshotProtocol.UncertainStep | packages/account-machine/src/git-checkpoint.ts:389-483 | while a snapshot is uncertain nothing new is captured and only it is written or committed |
| SnapshotProtocol.RejectedStays | packages/account-machine/src/git-checkpoint.ts:465-475 | a rejected snapshot whose journal row stayed is taken up and rejected again by every later capture, nothing else is captured or written, and it is not dropped until another base is committed |
| SnapshotProtocol.RejectedStored | packages/account-machine/src/git-checkpoint.ts:465-475 | a run that gets there |
| SnapshotPins.PinsCoverPublication | packages/account-machine/src/git-checkpoint.ts:392-400 | under a caller that moves the base at any moment, along a sequence of committed bases, whatever may still be published or committed is pinned at every moment of every run if and only if no base recurs after a different one; snapshots share their publication id, so a release gives up the pins of them all |
| SnapshotPins.ReturnedBaseUnpins | packages/account-machine/src/git-checkpoint.ts:392-400 | a run in which the base returns and a snapshot is about to be journalled and published unpinned |
| SnapshotPins.ReturnUnpins | packages/account-machine/src/git-checkpoint.ts:392-400 | such a run along any sequence of bases in which one returns |
| AbandonedStream.PinsCoverOneStream | packages/account-machine/src/runtime-executor.ts:203-235 | of one stream whose base is never moved over a snapshot stored against an older one, whatever may still be published or committed is pinned at every moment of every run, whichever bases return |
| AbandonedStream.AbandonedPins | packages/account-machine/src/runtime-executor.ts:94-104 | abandoned at any moment of such a run, a stream leaves the next one's snapshot pinned in every run of both if and only if its capture is past the point where it may release the publication they share |
| AbandonedStream.LateDiscardUnpins | packages/account-machine/src/git-checkpoint.ts:423-442 | such a run: the abandoned capture is discarded as captured across a write while the next one is about to publish, unpinned |
| AbandonedStream.AbandonedRow | packages/account-machine/src/runtime-executor.ts:94-104 | abandoned at any moment of any run, a stream never takes the next one's journal row away if and only if its capture is past the point where it may clear it |
| AbandonedStream.LateClear | packages/account-machine/src/git-checkpoint.ts:392-475 | from any state in which an abandoned capture clears next, a run in which it takes the row of a journalled snapshot away |
| SnapshotShortcut.QuietForever | packages/account-machine/src/git-checkpoint.ts:449-461 | once nothing is pending and the checkout equals what is committed and stops changing, every later capture answers the committed snapshot and writes nothing, whatever fails |
| SnapshotShortcut.QuietTakesNothing | packages/account-machine/src/git-checkpoint.ts:405-409 | once a capture has found the checkout equal, later ones take no snapshot, pin and write nothing and answer the committed one, until an edit, another base or a crash |
| SnapshotShortcut.AcceptedEqualIsQuiet | packages/account-machine/src/git-checkpoint.ts:478-483 | accepting a snapshot equal to the checkout leads there |
| SnapshotShortcut.ShortcutIsSound | packages/account-machine/src/git-checkpoint.ts:405-409 | in every run that commits only snapshots of a given set, every early answer is what capturing would have answered, and leaves the same stamp, if and only if equal worktree commits mean equal content in that set |
| SnapshotShortcut.SameCommitOtherContent | packages/account-machine/src/git-checkpoint.ts:346-349 | a run from the start in which a capture is answered early that would have published |
| SnapshotStream.IncrementalGitSnapshots.CaptureNext | packages/account-machine/src/git-checkpoint.ts:386-484 | one capture, with anything happening at its awaits, is a run of the transition system; it answers what that run returned and writes at most one snapshot: the stored one while its base stands, else its own under the stream's ref. It answers unless something failed; and with nothing happening at its awaits, what it answers, what is committed, what the journal row holds, what has reached the remote and which pins are left is exactly one of the outcomes: equal, early, accepted, accepted without being installed, rejected, unsaved, unacknowledged, unknown, or not cleared |
| SnapshotStream.IncrementalGitSnapshots.TakeSnapshot | packages/account-machine/src/git-checkpoint.ts:406-447 | the capture loop answers early, discards candidates captured across a write, or keeps one under the stream's ref, and writes nothing to the remote; with nothing else happening it keeps the first stable candidate, taken of the present files |
| SnapshotStream.IncrementalGitSnapshots.PublishPending | packages/account-machine/src/git-checkpoint.ts:462-477 | from the journal row on, at most this snapshot reaches the remote, and it has when an answer comes back; a failure or rejection on the way leaves row, field, remote and pins exactly as the failure has it, and a capture stopped meanwhile writes nothing |
| SnapshotStream.IncrementalGitSnapshots.DropStale | packages/account-machine/src/git-checkpoint.ts:389-400 | a snapshot against another base is dropped, pins and then row, without touching the remote, and the capture goes on if and only if nothing stops or fails |
| SnapshotStream.IncrementalGitSnapshots.CommitPending | packages/account-machine/src/runtime-executor.ts:170-184 | the authority's three outcomes: accepted, it is committed, its row and pins are gone and it is the answer; accepted without being installed, the uploaded one is committed; failed, the row is kept |
| StampedCapture.CaptureIsOneState | packages/account-machine/src/git-checkpoint.ts:405-448 | with a write possible between any two reads, of one listing too, a capture between two equal stamps and a third has all its layers equal to those of one single state, given stamps that do not repeat |
| StampedCapture.EqualStampsStill | packages/account-machine/src/git-checkpoint.ts:423-442 | under equal stamps nothing a capture reads changes from the end of the second to the start of the third |
| StampedCapture.OneStampIsNotEnough | packages/account-machine/src/git-checkpoint.ts:423-427 | with one stamp before the capture, equal stamps on both sides of it can enclose layers of no state the checkout was ever in |
| StampedCapture.Reader.CaptureStable | packages/account-machine/src/git-checkpoint.ts:405-448 | the capture loop: whatever it keeps are the layers of one state since it began, captured between two stamps equal to the stable one, which with a settle window was read twice in a row; and it keeps one if nothing is written any more |
| StampedCapture.Reader.Settle | packages/account-machine/src/git-checkpoint.ts:410-419 | settling ends with two stamps read one after the other and equal, which it does if nothing is written any more, or not at all |
| LfsInventory.IncrementalIsFull | packages/account-machine/src/git-lfs-inventory.ts:22-27 | the saved ancestor's objects and a scan of what is newer are exactly the objects of all history |
| LfsInventory.Inventory.Committed | packages/account-machine/src/git-lfs-inventory.ts:11-33 | for any head and any saved file that is valid or missing, the answer holds exactly the pointer oids of the full scan, and is saved; it lists nothing for a saved head, and of a saved ancestor's history only what Git lists anyway |
| LfsInventory.Scan | packages/account-machine/src/git-lfs.ts:90-102 | exactly the oids of the pointers among the listed blobs are added, each with a pointer that is listed |
| LfsInventory.Inventory.Follow | packages/account-machine/src/git-lfs-inventory.ts:11-33 | over any sequence of heads, forward or rewritten, with the file lost before any of them, every answer is the full scan's |
| LfsInventory.DeepenedInventory | packages/account-machine/src/git-lfs-inventory.ts:21 | an inventory saved before a shallow checkout was deepened is complete if and only if the fetched commits hold no pointer it lacks |
| LfsInventory.DeletedBelowBoundary | packages/account-machine/src/git-lfs-inventory.ts:21 | a history whose deleted pointer is below the boundary it was scanned at |
| Rechunking.PartUpload.PutStream | packages/account-machine/src/cloud-space-authority.ts:240-269 | it completes if and only if the source is the declared content of the declared size and every request works; then the uploaded parts concatenate to the source, all but the last of exactly the part size, the last not empty, in as many parts as the size calls for; too long, too short and different are told apart by the bytes alone |
| Rechunking.PartUpload.TakeChunk | packages/account-machine/src/cloud-space-authority.ts:250-261 | whatever the chunk, empty included, it is appended to what was taken, and the buffer's length stays the smaller of the part size and what is not yet uploaded |
| Rechunking.PartUpload.UploadPart | packages/account-machine/src/cloud-space-authority.ts:255-260 | uploading a full buffer loses and adds no byte and adds one part; a failed request changes nothing |
| Rechunking.UniformCount | packages/account-machine/src/cloud-space-authority.ts:256-258 | uniform parts of a size are numbered 1 to that size over the part size, rounded up |
| Rechunking.PartsUnique | packages/account-machine/src/cloud-space-authority.ts:256 | the bytes alone decide the parts: sources chunked differently upload the same ones |
| Rechunking.WithUploadRetries | packages/account-machine/src/cloud-space-authority.ts:378-396 | at most ten attempts, only the first expired signature renewed and without a wait, every other repeat of a transient failure after a wait that doubles from 250 ms to at most five seconds, and no earlier giving up |
| WorktreeWatch.NoEditLost | packages/account-machine/src/git-worktree-watch.ts:176-228 | over every interleaving, each waiter resuming at its own moment, an event of an open watch was decided, or its path is still to be, or git failed on a batch with it; the decision is what git, asked in the very generation of the decision, said of the path, and unless git said there that it is ignored a change was reported after the event |
| WorktreeWatch.CacheIsWhatGitSaid | packages/account-machine/src/git-worktree-watch.ts:183-192 | over every run each cached answer is what git said of that path, asked in the present generation |
| WorktreeWatch.OnlyEditsReported | packages/account-machine/src/git-worktree-watch.ts:183-194 | no step reports more than one change, and each has a cause: a path git said is not ignored, asked in the present generation |
| WorktreeWatch.ComesToRest | packages/account-machine/src/git-worktree-watch.ts:177-227 | whatever happened before, a watch left alone comes to rest within a bound on its steps that is linear in the handlers; while a classification is in progress or a handler waits there is a next step, and at rest neither is |
| WorktreeWatch.ClosedIsQuiet | packages/account-machine/src/git-worktree-watch.ts:186-229 | a closed watch stays closed and empty, starts no classification and reports no change, whatever git still answers |
| WorktreeWatch.OneClassification | packages/account-machine/src/git-worktree-watch.ts:177-225 | at most one classification is in progress at any moment, one fails exactly when git failed in it and has a handler that fails with it, and the cache keeps its limit |
| WorktreeWatch.ReturnsDecided | packages/account-machine/src/git-worktree-watch.ts:221-227 | over any run, a handler could at some moment return from an open watch with its path not decided if and only if some batch that asks git takes the path of a handler that is due to resume from a classification that ended well, undecided and pending again; without one, whoever has returned was decided |
| WorktreeWatch.ReturnsEarly | packages/account-machine/src/git-worktree-watch.ts:221-227 | otherwise one can return while git is still being asked about its path |
| WorktreeWatch.BatchRelevance | packages/account-machine/src/git-worktree-watch.ts:183-194 | a batch decided under invalidations is decided by current answers for all its paths, and reports a change if and only if one of them is not ignored |
| WorktreeWatch.RememberedBounded | packages/account-machine/src/git-worktree-watch.ts:190-192 | the cache never exceeds 4096 entries, whatever a batch adds, and within that forgets nothing and remembers every answer |
| WorktreeWatch.StepKeepsInv | packages/account-machine/src/git-worktree-watch.ts:176-230 | no step of handlers, classifier, invalidation or closing breaks the invariant behind it |
| WorktreeWatch.Watcher.FileEvent | packages/account-machine/src/git-worktree-watch.ts:220-226 | an event joins the one classification or starts it |
| WorktreeWatch.Watcher.TakePending | packages/account-machine/src/git-worktree-watch.ts:179-185 | the head of the loop takes every pending path and asks git exactly about those without an answer |
| WorktreeWatch.Watcher.Answered | packages/account-machine/src/git-worktree-watch.ts:186-194 | answers from before an invalidation decide nothing and their paths are pending again; current ones decide the batch |
| WorktreeWatch.Watcher.ResumeHandler | packages/account-machine/src/git-worktree-watch.ts:221-227 | a handler that resumes fails with its classification, waits for another, started if need be, while its path is pending again, or returns |
| DeviceRegistry.ViewIsFresh | packages/account-machine/src/device-registry.ts:39-74 | over every interleaving, a fetch time means the installed listing was requested after the last invalidation, one listing at most is being fetched, and no lookup waits without one |
| DeviceRegistry.AnswerIsCurrent | packages/account-machine/src/device-registry.ts:39-43 | a lookup that waited for a listing is answered from one requested after every invalidation before its refresh ended, and from a current one if and only if no invalidation is still to be fetched |
| DeviceRegistry.AnswerAtOnceIsCurrent | packages/account-machine/src/device-registry.ts:39-41 | a lookup answered at once is answered from a listing requested after every invalidation so far, which came back less than five seconds ago if it does not name the device |
| DeviceRegistry.ListingsLimited | packages/account-machine/src/device-registry.ts:38-74 | over any run, however many devices are looked up: one listing is asked for at the start, one for each invalidation and each failed listing, and otherwise at most one every five seconds |
| DeviceRegistry.LookupsKept | packages/account-machine/src/device-registry.ts:39-43 | every lookup is kept in order, an answer is final, and one that is due stays so until it is answered and can be |
| DeviceRegistry.InvalidatedBeforeAnswer | packages/account-machine/src/device-registry.ts:39-43 | a run in which an invalidation falls between the end of the refresh and the answer |
| DeviceRegistry.NeverGoesBack | packages/account-machine/src/device-registry.ts:59-61 | over every run in which no listing leaves a known device out, it never goes back a generation |
| DeviceRegistry.GenerationsMoveForward | packages/account-machine/src/device-registry.ts:59-61 | no single step takes a device known before and after it back a generation |
| DeviceRegistry.InstalledIsListed | packages/account-machine/src/device-registry.ts:54-64 | after a listing exactly the devices of its valid rows are known |
| DeviceRegistry.LastRowWins | packages/account-machine/src/device-registry.ts:54-62 | a listed device then has the grant of its last row, if and only if the one known of it is not newer, and else keeps that |
| DeviceRegistry.VanishedMayReturnOlder | packages/account-machine/src/device-registry.ts:51-65 | a run in which one refresh, whose listing is read three times, takes a device back a generation |
| DeviceRegistry.Registry.LookUp | packages/account-machine/src/device-registry.ts:39-48 | a lookup answers at once, joins the fetch in flight, or starts the only one |
| DeviceRegistry.Registry.ListingArrives | packages/account-machine/src/device-registry.ts:51-71 | a listing overtaken by an invalidation is read again before any waiter is due |
| DeviceRegistry.Registry.Answer | packages/account-machine/src/device-registry.ts:41-43 | a waiter reads whatever is installed when it resumes |
| DeviceRegistry.Registry.Install | packages/account-machine/src/device-registry.ts:54-64 | installing row by row keeps of each device the last row, or a known newer grant |
| Coalesced.NoRequestAnsweredStale | packages/account-machine/src/coalesced.ts:4-20 | for any interleaving of requests, completions and failures, no request is answered by a run that began before it, and a queued successor can start exactly when the run before it has settled |
| Coalesced.RequestsShareOneSuccessor | packages/account-machine/src/coalesced.ts:12-19 | requests that come while a run is active and before its successor starts share that one successor |
| Coalesced.StartsOnlyWhenIdle | packages/account-machine/src/coalesced.ts:9-19 | over any run a request starts a run exactly when the newest run is not in flight, and otherwise queues a successor exactly when none is queued; there are never more runs than requests |
| Coalesced.RunsCanOverlap | packages/account-machine/src/coalesced.ts:7-17 | two runs can be in flight at once |
| Coalesced.Coalescer.Ask | packages/account-machine/src/coalesced.ts:12-19 | a request starts a run, queues the successor or joins it |
| Coalesced.Coalescer.SuccessorStarts | packages/account-machine/src/coalesced.ts:14-17 | the successor clears its place in the queue and becomes the active run |

## Left out

- SteppedPush.PushInSteps: `rev-list`'s output is a parameter that satisfies `IsListing`, the staging refs' unique prefix is assumed unused, and other pushers do not change the remote between two of its steps.
- SteppedPush.PushBounded: how many older commits a retry carries is not bounded when the remote lacks some of the pushed history the checkout counts as its own, as in `SteppedPush.StepCarriesOlder`.
- SizeGate.PublishCheckpoint: bounds the first push, not the whole-object retry, which may send older commits the check never listed; `publishRef` and leases are not modelled.
- SizeGate.MarkedLayerUnchecked: how a shallow file would come to mark a freshly made layer is not modelled; fetches and publications only mark commits that were some checkpoint's HEAD.
- FetchAnchor.FetchedStayReachable: the fetch itself, its owned ref, and the fetch without a commit are not modelled; the checkout's shallow boundaries do not change during a run, although a fetch may change them.
- CacheInstall.OverlappingEditRefused: patches are whole-path; line offsets, file and directory conflicts, and rename detection in `git diff` are not modelled, and a patch compares only the parts of a file it changes.
- GitCommands.Patched: `core.fileMode` is taken to be on.
- CacheApply.CheckoutLfs: a symlink someone put in place of a wanted pointer file is read as its own text, where the source would follow it.
- Checkouts.Checkout.RefreshIndex: a filter that fails, and entries flagged as assumed unchanged or outside a sparse checkout, are not modelled; the attributes it cleans by are one parameter for a whole run.
- CacheRecovery.RunAgainAfterCrash: a crash falls between two commands; a command that stops halfway through writing several files is not modelled.
- CacheApply.ApplyCacheCheckpoint: what the account and the origin hold is a parameter; routing through `.lfsconfig` is not modelled.
- CaptureRestore.CreateIntermediateCheckpoint: the override of the untracked paths and its refusal of ignored ones are not modelled, nor are submodules, the checkpoint ref, the restore receipt and the saved cache base; which paths the attributes put under LFS, and which are ignored, are parameters.
- CaptureRestore.CaptureUndoesRestore: an entry that is a symlink to a pointer text, or a pointer to one, is left aside.
- CaptureRestore.MergeBackup: the text merge is Git's; its result is a parameter.
- LfsCapture.LfsSnapshot.PlaceHistory: a store without `protect`, which asks object by object, is not modelled.
- LfsPins.Publisher.Has: a stored object of another size raises an error in the source and counts as not found here; hashes and streamed verification are equality of content.
- LfsPins.Publisher.Protect: a request that fails, or returns what was not asked for, ends the capture in the source and is not modelled.
- LfsPins.Publisher.ReleasePublication: one publisher an id; what the account pins under one id across the publishers of a stream, and of an abandoned one, is followed in `SnapshotPins` and `AbandonedStream`, snapshot by snapshot and not object by object.
- SnapshotProtocol.RowDroppedOnlyFor: of one stream; `abandonCapture` also forgets the row, and `AbandonedStream.AbandonedRow` says when the abandoned stream takes the next one's.
- AbandonedStream.AbandonedPins: of one abandoned stream at a time; what it still writes to the remote is not followed.
- StampedCapture.CaptureIsOneState: assumes that stamps do not repeat and that no file is changed and put back between two reads, which a stamp cannot see; which paths are ignored does not change meanwhile.
- LfsInventory.Inventory.Committed: of two pointers with one oid either may be kept; the origin's inventory is not modelled.
- Rechunking.PartUpload.PutStream: sources of at most one request's size, the single upload and downloads are not modelled; parts are uploaded or fail as a whole.
- WorktreeWatch.ReturnsDecided: events under `.git`, ignore files and metadata polling only appear as invalidations, and the folder watches of Linux are not modelled.
- DeviceRegistry.AnswerIsCurrent: verification of a grant against the root key is not modelled.
- Spawning git, HTTP, signing, hashing and file I/O are not modelled; packs, deltas and the text of refusals appear only as a remote's arbitrary answer.
- The rest of the package (control wrappers, diagnostics, relays, drives, service views, deployment launcher, blob stores) is not part of this model: it would add only easy members.
