/** What an apply installs and what it leaves alone (`applyGitCacheCheckpoint` in
    `git-checkpoint.ts`). */
module CacheInstall {
  import opened Objects
  import opened GitCommands
  import opened Checkouts
  import opened CacheApply
  import opened CacheRecovery
  import H = LfsHydration

  // ------------------------------------------------------------------ what an apply is to change

  /** Neither checkpoint holds the path back. */
  predicate Free(input: Input, p: Path) {
    p !in input.previous.heldBack && p !in input.checkpoint.heldBack
  }

  /** The file at `p` as the previous checkpoint has it, hydrated. */
  function Was(input: Input, p: Path): Option<Entry> {
    H.SmudgedFile(At(input.previous.worktree.tree, p))
  }

  /** The file at `p` as the incoming checkpoint has it, hydrated. */
  function Becomes(input: Input, p: Path): Option<Entry> {
    H.SmudgedFile(At(input.checkpoint.worktree.tree, p))
  }

  /** Both checkpoints have the same blob at `p`. */
  predicate SameBlob(input: Input, p: Path) {
    var before, after := input.previous.worktree.tree, input.checkpoint.worktree.tree;
    p in before && p in after && before[p].blob == after[p].blob
  }

  /** The patch names exactly the paths neither checkpoint holds back whose hydrated files differ, and its
      images are those files; where the blob is the same they are the entries themselves. */
  lemma DeltaIs(input: Input, p: Path)
    ensures p in input.Changes() <==> Free(input, p) && Was(input, p) != Becomes(input, p)
    ensures Free(input, p) && !SameBlob(input, p) ==> At(input.Before(), p) == Was(input, p) && At(input.After(), p) == Becomes(input, p)
    ensures SameBlob(input, p) ==>
              input.Before()[p] == input.previous.worktree.tree[p] && input.After()[p] == input.checkpoint.worktree.tree[p]
  {
    assert p in input.Before() <==> p in input.previous.worktree.tree;
    assert p in input.After() <==> p in input.checkpoint.worktree.tree;
  }

  /** The payload of a pointer `tree` has where `other` has another blob. */
  predicate Loadable(tree: Tree, other: Tree, p: Path, r: Repo) {
    H.Hydrates(tree, p) && !(p in other && other[p].blob == tree[p].blob) ==> Cached(r, ParsePointer(tree[p].blob).value)
  }

  /** The patch is built if and only if the payload of every pointer it replaces or installs is cached. */
  lemma ExpandStage(input: Input, r: Repo)
    ensures var before, after := input.previous.worktree.tree, input.checkpoint.worktree.tree;
            Exec(input, Expand, r).Ok? <==> forall p :: Free(input, p) ==> Loadable(before, after, p, r) && Loadable(after, before, p, r)
  {
    var before, after := input.previous.worktree.tree, input.checkpoint.worktree.tree;
    if Exec(input, Expand, r).Ok? {
      forall p | Free(input, p) ensures Loadable(before, after, p, r) && Loadable(after, before, p, r) {
        if Expands(before, after, input.Protected(), p) { assert ParsePointer(before[p].blob).value in input.Payloads(); }
        if Expands(after, before, input.Protected(), p) { assert ParsePointer(after[p].blob).value in input.Payloads(); }
      }
    } else {
      var o :| o in input.Payloads() && !Cached(r, o);
      if o in Pointers(before, after, input.Protected()) {
        var p :| p in before && Expands(before, after, input.Protected(), p) && ParsePointer(before[p].blob).value == o;
        assert Free(input, p) && !Loadable(before, after, p, r);
      } else {
        var p :| p in after && Expands(after, before, input.Protected(), p) && ParsePointer(after[p].blob).value == o;
        assert Free(input, p) && !Loadable(after, before, p, r);
      }
    }
  }

  // ------------------------------------------------------------------ what an apply leaves alone

  ghost predicate Preserves(input: Input, before: Repo, after: Repo) {
    && (forall p :: p !in input.Changes() ==> Filled(input, before.worktree, after.worktree, p))
    && (forall p :: before.index.Some? && At(input.previous.index.tree, p) == At(input.checkpoint.index.tree, p) ==>
          after.index.Some? && At(after.index.value, p) == At(before.index.value, p))
    && (forall b :: b != input.checkpoint.branch ==> Tip(after.heads, b) == Tip(before.heads, b))
    && before.cache <= after.cache
  }

  lemma ExecPreserves(input: Input, step: Step, r: Repo)
    requires Exec(input, step, r).Ok?
    ensures Preserves(input, r, Exec(input, step, r).repo)
  {
    if step.MergeIndex? {
      MergeAgain(r.index, input.previous.index.tree, input.checkpoint.index.tree);
    }
  }

  lemma PreservesTransitive(input: Input, a: Repo, b: Repo, c: Repo)
    requires Preserves(input, a, b) && Preserves(input, b, c)
    ensures Preserves(input, a, c)
  {
    forall p | p !in input.Changes() ensures Filled(input, a.worktree, c.worktree, p) {
      assert Filled(input, a.worktree, b.worktree, p) && Filled(input, b.worktree, c.worktree, p);
      if Wanted(input, p).Some? { PayloadIsNoSuchPointer(Wanted(input, p).value); }
    }
  }

  lemma {:induction false} RunPreserves(input: Input, steps: seq<Step>, r: Repo)
    ensures Preserves(input, r, Run(input, steps, r).repo)
    decreases |steps|
  {
    if steps != [] && Exec(input, steps[0], r).Ok? {
      var next := Exec(input, steps[0], r).repo;
      ExecPreserves(input, steps[0], r);
      RunPreserves(input, steps[1..], next);
      PreservesTransitive(input, r, next, Run(input, steps, r).repo);
    }
  }

  /** In every apply, completed or failed, every other branch, held-back paths and, but for hydrating the
      checkpoint's own pointer, files that are the same in both checkpoints are as they were; and an entry the two indexes agree on is as it was if and
      only if it is not one the final refresh moves. */
  lemma LocalWorkPreserved(input: Input, r: Repo)
    ensures var done := Applied(input, r).repo;
            && (forall p :: Was(input, p) == Becomes(input, p) ==> Filled(input, r.worktree, done.worktree, p))
            && (forall p :: !Free(input, p) ==> At(done.worktree, p) == At(r.worktree, p))
            && (forall b :: b != input.checkpoint.branch ==> Tip(done.heads, b) == Tip(r.heads, b))
            && r.cache <= done.cache
    ensures forall p :: r.index.Some? && At(input.previous.index.tree, p) == At(input.checkpoint.index.tree, p) ==>
              var outcome := Applied(input, r);
              && outcome.repo.index.Some?
              && (At(outcome.repo.index.value, p) == At(r.index.value, p) <==>
                    !(outcome.error == None && p in Written(Installed(input, r).worktree, outcome.repo.worktree)
                      && ReAddMoves(input, outcome.repo.(index := r.index), p)))
  {
    var outcome, installed := Applied(input, r), Installed(input, r);
    var hydrated := Run(input, Smudges(input.files), installed);
    RunPreserves(input, Install(input), r);
    RunPreserves(input, Smudges(input.files), installed);
    PreservesTransitive(input, r, installed, hydrated.repo);
    forall p
      ensures Was(input, p) == Becomes(input, p) ==> Filled(input, r.worktree, outcome.repo.worktree, p)
      ensures !Free(input, p) ==> At(outcome.repo.worktree, p) == At(r.worktree, p)
    {
      DeltaIs(input, p);
      assert p !in input.Changes() ==> Filled(input, r.worktree, installed.worktree, p) && Filled(input, r.worktree, hydrated.repo.worktree, p);
    }
    forall p | r.index.Some? && At(input.previous.index.tree, p) == At(input.checkpoint.index.tree, p)
      ensures outcome.repo.index.Some?
      ensures At(outcome.repo.index.value, p) == At(r.index.value, p) <==>
                !(outcome.error == None && p in Written(installed.worktree, outcome.repo.worktree)
                  && ReAddMoves(input, outcome.repo.(index := r.index), p))
    {
      RefreshKeeps(input, hydrated.repo, Written(installed.worktree, hydrated.repo.worktree), p);
      assert At(hydrated.repo.index.value, p) == At(r.index.value, p) == At(installed.index.value, p);
    }
  }

  lemma {:induction false} FetchingChangesOnlyCache(input: Input, steps: seq<Step>, r: Repo)
    requires forall step :: step in steps ==> step.Fetch? || step.Expand?
    ensures Run(input, steps, r).repo == r.(cache := Run(input, steps, r).repo.cache)
    decreases |steps|
  {
    if steps != [] && Exec(input, steps[0], r).Ok? {
      FetchingChangesOnlyCache(input, steps[1..], Exec(input, steps[0], r).repo);
    }
  }

  /** A changed path that holds neither its preimage nor its postimage, in existence, type or content,
      refuses the apply before anything but the object cache has changed. */
  lemma OverlappingEditRefused(input: Input, r: Repo, p: Path)
    requires p in input.Changes()
    requires !Holds(At(r.worktree, p), At(input.Before(), p), At(input.After(), p))
    requires !Holds(At(r.worktree, p), At(input.After(), p), At(input.Before(), p))
    ensures var outcome := Applied(input, r);
            outcome.error.Some? && outcome.repo == r.(cache := outcome.repo.cache)
  {
    var first, rest := Fetches(input.needed) + [Expand], [ApplyPatch, MergeIndex, MoveBranch, SwitchHead];
    assert Install(input) == first + rest;
    RunAppend(input, first, rest, r);
    FetchingChangesOnlyCache(input, first, r);
  }

  /** What the commands before the last stage do to the files: the patch, or nothing. */
  lemma InstalledFiles(input: Input, r: Repo)
    requires Run(input, Install(input), r).error == None
    ensures var delta, installed := input.Changes(), Installed(input, r).worktree;
            if delta != {} && Applies(r.worktree, input.Before(), input.After(), delta)
            then installed == Apply(r.worktree, input.Before(), input.After(), delta)
            else installed == r.worktree && Applies(r.worktree, input.After(), input.Before(), delta)
  {
    var first, rest := Fetches(input.needed) + [Expand], [MergeIndex, MoveBranch, SwitchHead];
    assert Install(input) == first + ([ApplyPatch] + rest);
    RunAppend(input, first, [ApplyPatch] + rest, r);
    FetchingChangesOnlyCache(input, first, r);
    var fetched := Run(input, first, r).repo;
    RunAppend(input, [ApplyPatch], rest, fetched);
    RunOne(input, ApplyPatch, fetched);
    OnlyPatchMovesFiles(input, rest, Run(input, [ApplyPatch], fetched).repo);
  }

  lemma {:induction false} OnlyPatchMovesFiles(input: Input, steps: seq<Step>, r: Repo)
    requires forall step :: step in steps ==> !step.ApplyPatch? && !step.Smudge?
    ensures Run(input, steps, r).repo.worktree == r.worktree
    decreases |steps|
  {
    if steps != [] && Exec(input, steps[0], r).Ok? {
      assert steps[0] in steps;
      OnlyPatchMovesFiles(input, steps[1..], Exec(input, steps[0], r).repo);
    }
  }

  /** Making a file executable, or no longer so, overlaps nothing.  After a completed apply the edit is
      still there if and only if the patch did not apply over it, or applied and left a regular file. */
  lemma ModeEditKept(input: Input, r: Repo, p: Path)
    requires Applied(input, r).error == None && p in input.Changes() && p in r.worktree && p in input.Before()
    requires var file, from := r.worktree[p], input.Before()[p];
             file.blob == from.blob && SameType(file.mode, from.mode) && file.mode != from.mode
    ensures var done := Applied(input, r).repo.worktree;
            p in done && done[p].mode == r.worktree[p].mode <==>
              !(Applies(r.worktree, input.Before(), input.After(), input.Changes()) && (p in input.After() ==> input.After()[p].mode == Symlink))
  {
    InstalledFiles(input, r);
    SmudgesFill(input, Smudges(input.files), Installed(input, r));
    assert Filled(input, Installed(input, r).worktree, Applied(input, r).repo.worktree, p);
  }

  // ------------------------------------------------------------------ moving HEAD

  /** HEAD and its branch are where the last applied checkpoint left them, and the branch the incoming
      one is on is free: the same one, new, or already where it is to be. */
  predicate MayMove(input: Input, r: Repo) {
    var branch := input.checkpoint.branch;
    && HeadAt(r, input.previous)
    && (branch == input.previous.branch || branch !in r.heads || Some(r.heads[branch]) == input.checkpoint.head)
  }

  /** Every branch but `branch` is as it was, and that one is at `commit`. */
  ghost predicate OnlyBranch(before: map<Branch, Commit>, after: map<Branch, Commit>, branch: Branch, commit: Option<Commit>) {
    Tip(after, branch) == commit && forall b :: b != branch ==> Tip(after, b) == Tip(before, b)
  }

  lemma {:induction false} HeadStays(input: Input, steps: seq<Step>, r: Repo)
    requires forall step :: step in steps ==> !step.MoveBranch? && !step.SwitchHead?
    ensures var done := Run(input, steps, r).repo; done.head == r.head && done.heads == r.heads
    decreases |steps|
  {
    if steps != [] && Exec(input, steps[0], r).Ok? {
      assert steps[0] in steps;
      HeadStays(input, steps[1..], Exec(input, steps[0], r).repo);
    }
  }

  /** What the two commands on HEAD do from any checkout. */
  lemma HeadCommands(input: Input, r: Repo)
    ensures var done := Run(input, [MoveBranch, SwitchHead], r);
            if !MovesHead(input) || HeadAt(r, input.checkpoint) then done == Outcome(r, None)
            else if !MayMove(input, r) then done.error.Some? && done.repo == r
            else done.error == None && HeadAt(done.repo, input.checkpoint) && OnlyBranch(r.heads, done.repo.heads, input.checkpoint.branch, input.checkpoint.head)
    ensures MovesHead(input) && !HeadAt(r, input.checkpoint) && !MayMove(input, r) ==>
              Run(input, [MoveBranch, SwitchHead], r).error ==
                Some(if r.head.Detached? then DetachedHead else if HeadAt(r, input.previous) then BranchMoved else HeadMoved)
  {
    RunPair(input, MoveBranch, SwitchHead, r);
  }

  /** HEAD and branches after any apply.  They are as they were unless the checkpoint moves HEAD and the
      checkout is still where the last applied one left it; then a completed apply has moved just the
      checkpoint's branch and HEAD to it, and one that failed has done so or left them alone.  A commit made
      meanwhile, another branch checked out, a detached HEAD or a taken branch fail the apply. */
  lemma HeadMovesOnlyFromPrevious(input: Input, r: Repo)
    ensures var outcome := Applied(input, r);
            var done := outcome.repo;
            && ((done.head == r.head && done.heads == r.heads)
                || (MovesHead(input) && !HeadAt(r, input.checkpoint) && MayMove(input, r) && HeadAt(done, input.checkpoint)
                    && OnlyBranch(r.heads, done.heads, input.checkpoint.branch, input.checkpoint.head)))
            && (MovesHead(input) && !HeadAt(r, input.checkpoint) && !MayMove(input, r) ==> outcome.error.Some?)
            && (outcome.error == None && (input.checkpoint.head != input.previous.head || input.checkpoint.branch != input.previous.branch) ==>
                  done.head == OnBranch(input.checkpoint.branch) && Tip(done.heads, input.checkpoint.branch) == input.checkpoint.head)
            && (input.checkpoint.head == input.previous.head && input.checkpoint.branch == input.previous.branch ==>
                  done.head == r.head && done.heads == r.heads)
  {
    var first := Fetches(input.needed) + [Expand, ApplyPatch, MergeIndex];
    assert Install(input) == first + [MoveBranch, SwitchHead];
    RunAppend(input, first, [MoveBranch, SwitchHead], r);
    HeadStays(input, first, r);
    var before := Run(input, first, r).repo;
    HeadCommands(input, before);
    SmudgesFill(input, Smudges(input.files), Installed(input, r));
  }

  /** Such a checkout: a commit made on the branch since.  The apply fails and the commit keeps its
      branch. */
  lemma LocalCommitKept(input: Input, r: Repo, mine: Commit)
    requires r.head == OnBranch(input.previous.branch) && Tip(r.heads, input.previous.branch) == Some(mine)
    requires Some(mine) != input.previous.head && Some(mine) != input.checkpoint.head && MovesHead(input)
    ensures Applied(input, r).error.Some? && Applied(input, r).repo.head == r.head && Tip(Applied(input, r).repo.heads, input.previous.branch) == Some(mine)
  {
    HeadMovesOnlyFromPrevious(input, r);
  }

  // ------------------------------------------------------------------ what a completed apply installs

  lemma EveryFile(input: Input, p: Path)
    requires Paths(input.files) == input.checkpoint.worktree.tree.Keys && Wanted(input, p).Some?
    ensures p in input.files
  {
    assert p in Paths(input.files);
  }

  /** Every file the patch creates, or whose mode it changes, has its new mode. */
  ghost predicate ModesInstalled(input: Input, worktree: Tree) {
    forall p :: p in input.Changes() && p in input.After() && !(p in input.Before() && input.Before()[p].mode == input.After()[p].mode) ==>
      p in worktree && worktree[p].mode == input.After()[p].mode
  }

  /** A completed apply installed the delta: every changed path holds its postimage, or the payload of
      the pointer it was turned into; HEAD is the checkpoint's; no wanted pointer is left; and the index
      is the two-tree merge but for the entries the refresh moves. */
  lemma CompletedApplyInstalls(input: Input, r: Repo)
    requires Paths(input.files) == input.checkpoint.worktree.tree.Keys
    requires Applied(input, r).error == None
    ensures var done, written := Applied(input, r).repo, Written(Installed(input, r).worktree, Applied(input, r).repo.worktree);
            && (forall p :: p in input.Changes() && !Turned(input, p) ==> Holds(At(done.worktree, p), At(input.After(), p), At(input.Before(), p)))
            && (forall p :: Turned(input, p) ==> p in done.worktree && done.worktree[p].blob == Wanted(input, p).value.oid && done.worktree[p].mode != Symlink)
            && (MovesHead(input) ==> HeadAt(done, input.checkpoint))
            && (forall p :: Wanted(input, p).Some? ==> p in done.worktree && ParsePointer(done.worktree[p].blob) != Wanted(input, p))
    ensures var done, written := Applied(input, r).repo, Written(Installed(input, r).worktree, Applied(input, r).repo.worktree);
            var merged := TwoTreeMerge(r.index, input.previous.index.tree, input.checkpoint.index.tree);
            && merged.Some? && done.index == Some(Refreshed(merged.value, done.worktree, written, input.checkpoint.worktree.tree, input.clean))
            && (forall p :: At(done.index.value, p) == At(merged.value, p) <==> !(p in written && ReAddMoves(input, done.(index := merged), p)))
  {
    var installed, done := Installed(input, r), Applied(input, r).repo;
    var hydrated := Run(input, Smudges(input.files), installed).repo;
    MergedBefore(input, r);
    SmudgesFill(input, Smudges(input.files), installed);
    forall p | Wanted(input, p).Some? ensures p in done.worktree && ParsePointer(done.worktree[p].blob) != Wanted(input, p) {
      EveryFile(input, p);
      AllFilled(input, input.files, installed, p);
    }
    PatchInstalled(input, r);
    HeadInstalled(input, r);
    forall p ensures At(done.index.value, p) == At(installed.index.value, p)
                <==> !(p in Written(installed.worktree, done.worktree) && ReAddMoves(input, done.(index := installed.index), p))
    {
      RefreshKeeps(input, hydrated, Written(installed.worktree, done.worktree), p);
    }
  }

  lemma HeadInstalled(input: Input, r: Repo)
    requires Run(input, Install(input), r).error == None
    ensures MovesHead(input) ==> HeadAt(Installed(input, r), input.checkpoint)
  {
    var steps, n := Install(input), |input.needed|;
    ProgramOrdered(input);
    RunSettles(input, steps, r);
    assert steps[n + 4] == SwitchHead && Settled(input, steps[n + 4], Installed(input, r));
  }

  lemma PatchInstalled(input: Input, r: Repo)
    requires Applied(input, r).error == None && Paths(input.files) == input.checkpoint.worktree.tree.Keys
    ensures var done := Applied(input, r).repo.worktree;
            && (forall p :: p in input.Changes() && !Turned(input, p) ==> Holds(At(done, p), At(input.After(), p), At(input.Before(), p)))
            && (forall p :: Turned(input, p) ==> p in done && done[p].blob == Wanted(input, p).value.oid && done[p].mode != Symlink)
  {
    var steps, n, installed, done := Install(input), |input.needed|, Installed(input, r), Applied(input, r).repo.worktree;
    ProgramOrdered(input);
    RunSettles(input, steps, r);
    assert steps[n + 1] == ApplyPatch && Settled(input, steps[n + 1], installed);
    SmudgesFill(input, Smudges(input.files), installed);
    forall p | Turned(input, p) ensures p in done && done[p].blob == Wanted(input, p).value.oid && done[p].mode != Symlink {
      TurnedIsRewritten(input, p);
      PatchHolds(input, installed, p);
      EveryFile(input, p);
      TurnedIsWritten(input, input.files, installed, p);
      assert Filled(input, installed.worktree, done, p);
    }
    forall p | p in input.Changes() && !Turned(input, p) ensures Holds(At(done, p), At(input.After(), p), At(input.Before(), p)) {
      PatchHolds(input, installed, p);
      assert Filled(input, installed.worktree, done, p);
      if At(done, p) != At(installed.worktree, p) { SmudgedPathIsModeOnly(input, p, installed); }
    }
  }

  /** In the checkpoints' own terms: after a completed apply, of every path neither holds back, the file
      is there exactly if the incoming checkpoint has it and the two checkpoints' hydrated files differ;
      where they differ in more than the executable bit it has the incoming one's content and type; and no
      pointer of the incoming checkpoint is left that a file still holds. */
  lemma FilesInstalled(input: Input, r: Repo, p: Path)
    requires Paths(input.files) == input.checkpoint.worktree.tree.Keys
    requires Applied(input, r).error == None && Free(input, p)
    ensures var done, becomes := At(Applied(input, r).repo.worktree, p), Becomes(input, p);
            && (Was(input, p) != becomes ==> (done.Some? <==> becomes.Some?) && (becomes.Some? ==> SameType(done.value.mode, becomes.value.mode)))
            && (becomes.Some? && (Rewrites(Was(input, p), becomes) || Was(input, p).value.blob != becomes.value.blob) ==>
                  done.value.blob == becomes.value.blob)
            && (H.Hydrates(input.checkpoint.worktree.tree, p) ==>
                  done.Some? && ParsePointer(done.value.blob) != ParsePointer(input.checkpoint.worktree.tree[p].blob))
  {
    DeltaIs(input, p);
    CompletedApplyInstalls(input, r);
  }

  /** The executable bits are installed if and only if the patch applied or they were already there: a
      delta found already installed is checked for contents and types only. */
  lemma ModesInstalledIff(input: Input, r: Repo)
    requires Applied(input, r).error == None
    ensures ModesInstalled(input, Applied(input, r).repo.worktree) <==>
              Applies(r.worktree, input.Before(), input.After(), input.Changes()) || ModesInstalled(input, r.worktree)
  {
    var installed, done, delta := Installed(input, r), Applied(input, r).repo.worktree, input.Changes();
    InstalledFiles(input, r);
    SmudgesFill(input, Smudges(input.files), installed);
    forall p
      ensures p in done <==> p in installed.worktree
      ensures p in done ==> done[p].mode == installed.worktree[p].mode
    {
      assert Filled(input, installed.worktree, done, p);
    }
    if delta != {} && Applies(r.worktree, input.Before(), input.After(), delta) {
      forall p | p in delta && p in input.After() && !(p in input.Before() && input.Before()[p].mode == input.After()[p].mode)
        ensures p in installed.worktree && installed.worktree[p].mode == input.After()[p].mode
      {
        assert At(installed.worktree, p) == Patched(At(r.worktree, p), At(input.Before(), p), At(input.After(), p));
      }
    }
  }

  // ------------------------------------------------------------------ hydration

  /** What makes hydrating the file at `p` fail: the file is gone, or it is the wanted pointer and
      its payload is not in the cache. */
  predicate Blocked(input: Input, p: Path, r: Repo) {
    var wanted := Wanted(input, p);
    wanted.Some? && (p !in r.worktree || (ParsePointer(r.worktree[p].blob) == wanted && !Cached(r, wanted.value)))
  }

  /** The last stage succeeds exactly when nothing is blocked.  A file someone deleted whose
      pointer the checkpoint holds blocks it, with the index and HEAD already moved. */
  lemma {:induction false} HydrationSucceeds(input: Input, files: seq<Path>, r: Repo)
    ensures Run(input, Smudges(files), r).error == None <==> forall p :: p in files ==> !Blocked(input, p, r)
    decreases |files|
  {
    if files != [] {
      assert Smudges(files)[1..] == Smudges(files[1..]);
      var p := files[0];
      assert Exec(input, Smudge(p), r).Ok? <==> !Blocked(input, p, r);
      if !Blocked(input, p, r) {
        var next := Exec(input, Smudge(p), r).repo;
        HydrationSucceeds(input, files[1..], next);
        if Wanted(input, p).Some? { PayloadIsNoSuchPointer(Wanted(input, p).value); }
        forall q | q in files ensures Blocked(input, q, next) <==> Blocked(input, q, r) {
        }
        assert files == [p] + files[1..];
      } else {
        assert p in files;
      }
    }
  }

  /** The first stage succeeds exactly when every required object is genuine and cached or to be had, and
      then caches exactly those; an apply it fails changes nothing else. */
  lemma FetchStage(input: Input, r: Repo)
    ensures var fetched := Run(input, Fetches(input.needed), r);
            if AllObtainable(r.cache, input.needed, input.store)
            then fetched == Outcome(r.(cache := r.cache + ObjectIds(input.needed)), None)
            else && fetched.error == Some(MissingObject) && Applied(input, r) == fetched
                 && r.cache <= fetched.repo.cache <= r.cache + ObjectIds(input.needed) && fetched.repo == r.(cache := fetched.repo.cache)
  {
    FetchesAre(input, input.needed, r);
    SplitInstall(input, r);
  }

  /** Hydration leaves every required object cached and genuine. */
  lemma {:induction false} FetchedAreCached(input: Input, needed: seq<LfsObject>, r: Repo)
    requires Run(input, Fetches(needed), r).error == None
    ensures forall o :: o in needed ==> Cached(Run(input, Fetches(needed), r).repo, o)
    decreases |needed|
  {
    if needed != [] {
      assert Fetches(needed)[1..] == Fetches(needed[1..]);
      var next := Exec(input, Fetch(needed[0]), r).repo;
      FetchedAreCached(input, needed[1..], next);
      RunPreserves(input, Fetches(needed[1..]), next);
      assert needed == [needed[0]] + needed[1..];
    }
  }

  /** Hydration collects what is required by oid.  Once it has succeeded, a pointer of the incoming tree
      finds its payload exactly when it claims a size that was collected for its oid. */
  lemma HydratedPointerCached(input: Input, cut: set<Commit>, previous: map<Content, LfsObject>, checkpoint: map<Content, LfsObject>,
                              required: map<Content, LfsObject>, wanted: map<Content, LfsObject>, r: Repo, p: Path)
    requires Collected(input, cut, previous, checkpoint, required, wanted)
    requires Run(input, Fetches(input.needed), r).error == None
    requires p in input.checkpoint.worktree.tree && ParsePointer(input.checkpoint.worktree.tree[p].blob).Some?
    ensures var pointer := ParsePointer(input.checkpoint.worktree.tree[p].blob).value;
            Cached(Run(input, Fetches(input.needed), r).repo, pointer) <==> H.Collected(pointer, wanted)
  {
    var pointer := ParsePointer(input.checkpoint.worktree.tree[p].blob).value;
    FetchedAreCached(input, input.needed, r);
    H.PointersCollected(input.checkpoint.worktree, cut, checkpoint, wanted, p);
    assert wanted[pointer.oid] in input.needed;
  }

  lemma {:induction false} OnlySmudgingMisses(input: Input, steps: seq<Step>, r: Repo)
    requires forall step :: step in steps ==> !step.Smudge?
    ensures Run(input, steps, r).error != Some(MissingFile)
    decreases |steps|
  {
    if steps != [] {
      assert steps[0] in steps;
      if Exec(input, steps[0], r).Ok? { OnlySmudgingMisses(input, steps[1..], Exec(input, steps[0], r).repo); }
    }
  }

  /** An apply that fails for a missing file has already installed the index and moved HEAD. */
  lemma MissingFileIsLate(input: Input, r: Repo)
    requires Applied(input, r).error == Some(MissingFile)
    ensures var done := Applied(input, r).repo;
            && done.index == TwoTreeMerge(r.index, input.previous.index.tree, input.checkpoint.index.tree)
            && (MovesHead(input) ==> HeadAt(done, input.checkpoint))
  {
    OnlySmudgingMisses(input, Install(input), r);
    SmudgesFill(input, Smudges(input.files), Installed(input, r));
    MergedBefore(input, r);
    HeadInstalled(input, r);
  }

  /** A checkout that holds what was last applied but for a pointer file someone deleted, and an incoming
      checkpoint that only commits the index. */
  function DeletedInput(payload: Content): Input {
    var files: Tree := map["f" := Entry(Regular, Pointer(payload, payload.Size(), 130))];
    var layer, next := Commit(files, [], ""), Commit(Staged(), [], "");
    Input(Checkpoint(None, "m", Commit(map[], [], ""), layer, {}), Checkpoint(Some(next), "m", next, layer, {}),
          [LfsObject(payload, payload.Size())], ["f"], {}, (p, blob) => blob)
  }

  function Staged(): Tree {
    map["g" := Entry(Regular, Raw(0, 1))]
  }

  lemma DeletedChangesNothing(payload: Content)
    ensures DeletedInput(payload).Changes() == {} && DeletedInput(payload).Payloads() == {}
    ensures Wanted(DeletedInput(payload), "f") == Some(LfsObject(payload, payload.Size()))
    ensures TwoTreeMerge(Some(map[]), map[], Staged()) == Some(Staged())
  {
    var input := DeletedInput(payload);
    var files := input.checkpoint.worktree.tree;
    assert input.Before() == files == input.After();
    assert Pointers(files, files, {}) == {};
    var merged := TwoTreeMerge(Some(map[]), map[], Staged());
    forall p ensures MergeAt(Some(map[]), map[], Staged(), p) == Take(At(Staged(), p)) {
    }
    assert merged.Some?;
    forall p ensures At(merged.value, p) == At(Staged(), p) {
      MergedAt(Some(map[]), map[], Staged(), p);
    }
    SameTree(merged.value, Staged());
  }

  /** Such an apply fails with the index and HEAD moved. */
  lemma DeletedPointerFails(payload: Content)
    ensures var input, r := DeletedInput(payload), Repo(map[], Some(map[]), OnBranch("m"), map[], {payload});
            var done := Applied(input, r);
            && done.error == Some(MissingFile) && done.repo.index == Some(Staged()) && Staged() != map[]
            && !HeadAt(r, input.checkpoint) && HeadAt(done.repo, input.checkpoint)
  {
    var input, r := DeletedInput(payload), Repo(map[], Some(map[]), OnBranch("m"), map[], {payload});
    var after := Repo(map[], Some(Staged()), OnBranch("m"), map["m" := input.checkpoint.head.value], {payload});
    var fetch := Fetch(LfsObject(payload, payload.Size()));
    DeletedChangesNothing(payload);
    assert "g" in Staged();
    assert Install(input) == [fetch, Expand, ApplyPatch, MergeIndex, MoveBranch, SwitchHead];
    SixSteps(input, r, after, fetch);
    assert Smudges(input.files) == [Smudge(input.files[0])];
    RunOne(input, Smudge("f"), after);
  }

  lemma SixSteps(input: Input, r: Repo, after: Repo, fetch: Step)
    requires Exec(input, fetch, r) == Ok(r) && Exec(input, Expand, r) == Ok(r) && Exec(input, ApplyPatch, r) == Ok(r)
    requires var merged := Exec(input, MergeIndex, r);
             && merged.Ok? && var moved := Exec(input, MoveBranch, merged.repo);
             moved.Ok? && Exec(input, SwitchHead, moved.repo) == Ok(after)
    ensures Run(input, [fetch, Expand, ApplyPatch, MergeIndex, MoveBranch, SwitchHead], r) == Outcome(after, None)
  {
    var merged := Exec(input, MergeIndex, r).repo;
    RunPair(input, fetch, Expand, r);
    RunPair(input, ApplyPatch, MergeIndex, r);
    RunPair(input, MoveBranch, SwitchHead, merged);
    RunAppend(input, [fetch, Expand], [ApplyPatch, MergeIndex] + [MoveBranch, SwitchHead], r);
    RunAppend(input, [ApplyPatch, MergeIndex], [MoveBranch, SwitchHead], r);
    assert [fetch, Expand] + ([ApplyPatch, MergeIndex] + [MoveBranch, SwitchHead]) == [fetch, Expand, ApplyPatch, MergeIndex, MoveBranch, SwitchHead];
  }
}
