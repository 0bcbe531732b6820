/** Running an apply again after it stopped anywhere (`applyGitCacheCheckpoint` in
    `git-checkpoint.ts`): the commands already run find their work done, but for two things. */
module CacheRecovery {
  import opened Objects
  import opened GitCommands
  import opened Checkouts
  import opened CacheApply

  function Rank(step: Step): nat {
    match step
    case Fetch(_) => 0 case Expand => 1 case ApplyPatch => 2 case MergeIndex => 3
    case MoveBranch => 4 case SwitchHead => 5 case Smudge(_) => 6
  }

  ghost predicate Ordered(steps: seq<Step>) {
    forall i, j :: 0 <= i < j < |steps| ==> Rank(steps[i]) <= Rank(steps[j])
  }

  /** A step that would change nothing. */
  predicate Settled(input: Input, step: Step, r: Repo) {
    Exec(input, step, r) == Ok(r)
  }

  /** A path that turns from a symlink into the pointer file of the same text.  Neither tree of the
      patch expands it, and once it is hydrated it holds neither image. */
  predicate Turned(input: Input, p: Path) {
    var before, after := input.previous.worktree.tree, input.checkpoint.worktree.tree;
    Wanted(input, p).Some? && p in before && before[p].mode == Symlink && before[p].blob == after[p].blob
  }

  lemma TurnedIsRewritten(input: Input, p: Path)
    requires Turned(input, p)
    ensures p in input.Changes() && input.Before()[p] == input.previous.worktree.tree[p] && input.After()[p] == input.checkpoint.worktree.tree[p]
    ensures Rewrites(At(input.Before(), p), At(input.After(), p))
  {
    assert At(input.Before(), p) != At(input.After(), p);
  }

  lemma PatchSettles(input: Input, r: Repo)
    requires input.Changes() != {} && Applies(r.worktree, input.Before(), input.After(), input.Changes())
    ensures var patched := r.(worktree := Apply(r.worktree, input.Before(), input.After(), input.Changes()));
            Settled(input, ApplyPatch, patched)
  {
    var before, after, delta := input.Before(), input.After(), input.Changes();
    var patched := Apply(r.worktree, before, after, delta);
    forall p | p in delta
      ensures At(patched, p) == Patched(At(r.worktree, p), At(before, p), At(after, p))
      ensures Holds(At(patched, p), At(after, p), At(before, p))
      ensures Holds(At(patched, p), At(before, p), At(after, p)) <==> ModeOnly(At(before, p), At(after, p))
    {
      assert At(before, p) != At(after, p);
    }
    assert Applies(patched, after, before, delta);
    if Applies(patched, before, after, delta) {
      forall p ensures At(Apply(patched, before, after, delta), p) == At(patched, p) {
        if p in delta { assert Holds(At(patched, p), At(before, p), At(after, p)); }
      }
      SameTree(Apply(patched, before, after, delta), patched);
    }
  }

  /** A step that has run would change nothing if run again. */
  lemma ExecSettles(input: Input, step: Step, r: Repo)
    requires Exec(input, step, r).Ok?
    ensures Settled(input, step, Exec(input, step, r).repo)
  {
    var next := Exec(input, step, r).repo;
    match step
    case Fetch(payload) =>
    case Expand =>
    case ApplyPatch =>
      if next != r { PatchSettles(input, r); }
    case MergeIndex =>
      MergeAgain(r.index, input.previous.index.tree, input.checkpoint.index.tree);
    case MoveBranch =>
    case SwitchHead =>
    case Smudge(p) =>
      if next != r { PayloadIsNoSuchPointer(Wanted(input, p).value); }
  }

  /** Hydrating a pointer changes nothing the patch names, but for a symlink turned into it. */
  lemma SmudgeKeepsPatch(input: Input, p: Path, r: Repo)
    requires Settled(input, ApplyPatch, r) && Exec(input, Smudge(p), r).Ok? && !Turned(input, p)
    ensures Settled(input, ApplyPatch, Exec(input, Smudge(p), r).repo)
  {
    var next := Exec(input, Smudge(p), r).repo;
    var before, after, delta := input.Before(), input.After(), input.Changes();
    if next != r && delta != {} {
      assert p in r.worktree && next.worktree == r.worktree[p := next.worktree[p]];
      if Applies(r.worktree, before, after, delta) {
        ForwardIsModeOnly(input, r);
        forall q | q in delta ensures Holds(At(next.worktree, q), At(before, q), At(after, q)) {
          assert Holds(At(r.worktree, q), At(before, q), At(after, q));
        }
        var again := Apply(next.worktree, before, after, delta);
        forall q ensures At(again, q) == At(next.worktree, q) {
          assert At(Apply(r.worktree, before, after, delta), q) == At(r.worktree, q);
        }
        SameTree(again, next.worktree);
      } else {
        assert Applies(r.worktree, after, before, delta);
        forall q | q in delta
          ensures Holds(At(next.worktree, q), At(after, q), At(before, q))
          ensures Holds(At(next.worktree, q), At(before, q), At(after, q)) ==> Holds(At(r.worktree, q), At(before, q), At(after, q))
        {
          assert Holds(At(r.worktree, q), At(after, q), At(before, q));
          if q == p { SmudgedPathIsModeOnly(input, p, r); }
        }
      }
    }
  }

  /** Where the patch applies and changes nothing, it changes executable bits only. */
  lemma ForwardIsModeOnly(input: Input, r: Repo)
    requires Applies(r.worktree, input.Before(), input.After(), input.Changes())
    requires Apply(r.worktree, input.Before(), input.After(), input.Changes()) == r.worktree
    ensures forall p :: p in input.Changes() ==> ModeOnly(At(input.Before(), p), At(input.After(), p))
  {
    var before, after := input.Before(), input.After();
    forall p | p in input.Changes() ensures ModeOnly(At(before, p), At(after, p)) {
      assert At(before, p) != At(after, p);
      assert At(r.worktree, p) == Patched(At(r.worktree, p), At(before, p), At(after, p));
    }
  }

  /** A path still holding the checkpoint's pointer after the patch changes its executable bit only. */
  lemma SmudgedPathIsModeOnly(input: Input, p: Path, r: Repo)
    requires p in input.Changes() && p in r.worktree && !Turned(input, p)
    requires Wanted(input, p).Some? && ParsePointer(r.worktree[p].blob) == Wanted(input, p)
    requires Holds(At(r.worktree, p), At(input.After(), p), At(input.Before(), p))
    ensures ModeOnly(At(input.Before(), p), At(input.After(), p))
  {
    var payload := Wanted(input, p).value;
    var tree, other := input.checkpoint.worktree.tree, input.previous.worktree.tree;
    PayloadIsNoSuchPointer(payload);
    assert r.worktree[p].blob != payload.oid;
    assert Expands(tree, other, input.Protected(), p) ==> input.After()[p].blob == payload.oid;
  }

  /** The one step that undoes another's work. */
  predicate Turns(input: Input, step: Step) {
    step.Smudge? && Turned(input, step.path)
  }

  /** What has run stays done while later steps run, unless a turned path is hydrated. */
  lemma StaysSettled(input: Input, earlier: Step, later: Step, r: Repo)
    requires Settled(input, earlier, r) && Exec(input, later, r).Ok? && Rank(earlier) <= Rank(later)
    requires earlier.ApplyPatch? ==> !Turns(input, later)
    ensures Settled(input, earlier, Exec(input, later, r).repo)
  {
    var next := Exec(input, later, r).repo;
    if earlier == later {
      ExecSettles(input, later, r);
    } else {
      match earlier
      case Fetch(payload) => assert r.cache <= next.cache;
      case Expand => assert r.cache <= next.cache;
      case ApplyPatch =>
        if later.Smudge? { SmudgeKeepsPatch(input, later.path, r); }
      case MergeIndex =>
      case MoveBranch =>
      case SwitchHead =>
      case Smudge(p) => assert later.Smudge? && later.path != p;
    }
  }

  ghost predicate AllSettled(input: Input, steps: seq<Step>, r: Repo) {
    forall i :: 0 <= i < |steps| ==> Settled(input, steps[i], r)
  }

  /** Whether a run of `steps` hydrates a turned path. */
  ghost predicate TurnsNone(input: Input, steps: seq<Step>) {
    forall i :: 0 <= i < |steps| ==> !Turns(input, steps[i])
  }

  /** Where a run is after its first `k` steps, if they all succeed. */
  ghost predicate Reached(input: Input, steps: seq<Step>, k: nat, r: Repo, at: Repo) {
    k <= |steps| && Run(input, steps[..k], r) == Outcome(at, None)
  }

  /** Steps that have run in order are all settled; the patch itself unless a turned path is hydrated. */
  lemma {:induction false} RunSettles(input: Input, steps: seq<Step>, r: Repo)
    requires Ordered(steps) && Run(input, steps, r).error == None
    ensures forall i :: 0 <= i < |steps| && (steps[i].ApplyPatch? ==> TurnsNone(input, steps)) ==> Settled(input, steps[i], Run(input, steps, r).repo)
    decreases |steps|
  {
    if steps != [] {
      var n := |steps| - 1;
      var init, last := steps[..n], steps[n];
      assert steps == init + [last];
      RunAppend(input, init, [last], r);
      var before := Run(input, init, r).repo;
      RunSettles(input, init, r);
      RunOne(input, last, before);
      ExecSettles(input, last, before);
      forall i | 0 <= i < n && (steps[i].ApplyPatch? ==> TurnsNone(input, steps)) ensures Settled(input, steps[i], Exec(input, last, before).repo) {
        assert steps[i] == init[i];
        assert steps[i].ApplyPatch? ==> TurnsNone(input, init);
        StaysSettled(input, steps[i], last, before);
      }
    }
  }

  lemma {:induction false} SettledRun(input: Input, steps: seq<Step>, r: Repo)
    requires AllSettled(input, steps, r)
    ensures Run(input, steps, r) == Outcome(r, None)
    decreases |steps|
  {
    if steps != [] {
      assert Settled(input, steps[0], r);
      SettledRun(input, steps[1..], r);
    }
  }

  lemma ProgramOrdered(input: Input)
    ensures Ordered(Program(input)) && Ordered(Install(input))
  {
    var n := |input.needed|;
    var steps := Program(input);
    forall i | 0 <= i < |steps|
      ensures Rank(steps[i]) == if i < n then 0 else if i < n + 5 then i - n + 1 else 6
    {
    }
    forall i | 0 <= i < n + 5 ensures Install(input)[i] == steps[i] {
    }
  }

  // ------------------------------------------------------------------ the last stage

  /** The file at `p` is as it was, or was the checkpoint's own pointer and is hydrated. */
  ghost predicate Filled(input: Input, before: Tree, after: Tree, p: Path) {
    || At(after, p) == At(before, p)
    || (&& Wanted(input, p).Some? && p in before && p in after
        && ParsePointer(before[p].blob) == Wanted(input, p)
        && after[p] == before[p].(blob := Wanted(input, p).value.oid))
  }

  /** Hydrating files changes nothing else, and fails only for a file or an object that is missing. */
  lemma {:induction false} SmudgesFill(input: Input, steps: seq<Step>, r: Repo)
    requires forall step :: step in steps ==> step.Smudge?
    ensures var done := Run(input, steps, r);
            && done.repo == r.(worktree := done.repo.worktree)
            && (forall p :: Filled(input, r.worktree, done.repo.worktree, p))
            && done.error in {None, Some(MissingFile), Some(MissingObject)}
    decreases |steps|
  {
    if steps != [] {
      assert steps[0] in steps;
      var next := Exec(input, steps[0], r);
      if next.Ok? {
        SmudgesFill(input, steps[1..], next.repo);
        var done := Run(input, steps, r).repo;
        forall p ensures Filled(input, r.worktree, done.worktree, p) {
          assert Filled(input, next.repo.worktree, done.worktree, p);
          if Wanted(input, p).Some? { PayloadIsNoSuchPointer(Wanted(input, p).value); }
        }
      }
    }
  }

  /** Re-adding the hydrated file at `p` changes its index entry: the entry is still the checkpoint's
      pointer, and the payload cleans to something else or the file has another mode. */
  predicate ReAddMoves(input: Input, r: Repo, p: Path) {
    && r.index.Some? && p in r.index.value && p in r.worktree && p in input.checkpoint.worktree.tree
    && r.index.value[p].blob == input.checkpoint.worktree.tree[p].blob
    && (input.clean(p, r.worktree[p].blob) != r.index.value[p].blob || r.worktree[p].mode != r.index.value[p].mode)
  }

  /** The refresh keeps an entry if and only if no written file's re-adding moves it. */
  lemma RefreshKeeps(input: Input, r: Repo, written: set<Path>, p: Path)
    ensures At(Entries(RefreshedIn(input, r, written).index), p) == At(Entries(r.index), p) <==> !(p in written && ReAddMoves(input, r, p))
  {
  }

  /** Two refreshes of one state agree if and only if the files only one of them re-adds do not move. */
  lemma SameRefresh(input: Input, r: Repo, fewer: set<Path>, more: set<Path>)
    requires fewer <= more
    ensures RefreshedIn(input, r, fewer) == RefreshedIn(input, r, more) <==> forall p :: p in more - fewer ==> !ReAddMoves(input, r, p)
  {
    var some, all := RefreshedIn(input, r, fewer), RefreshedIn(input, r, more);
    forall p | p in more - fewer ensures ReAddMoves(input, r, p) <==> At(Entries(some.index), p) != At(Entries(all.index), p) {
      RefreshKeeps(input, r, fewer, p);
      RefreshKeeps(input, r, more, p);
    }
    if r.index.Some? && forall p :: p in more - fewer ==> !ReAddMoves(input, r, p) {
      forall p ensures At(some.index.value, p) == At(all.index.value, p) {
        if p in more - fewer { assert !ReAddMoves(input, r, p); }
      }
      SameTree(some.index.value, all.index.value);
    }
  }

  lemma RefreshNone(input: Input, r: Repo)
    ensures RefreshedIn(input, r, {}) == r
  {
    if r.index.Some? { SameTree(RefreshedIn(input, r, {}).index.value, r.index.value); }
  }

  // ------------------------------------------------------------------ the patch, run again

  /** After the patch every changed path holds its postimage. */
  lemma PatchHolds(input: Input, r: Repo, p: Path)
    requires Settled(input, ApplyPatch, r) && p in input.Changes()
    ensures Holds(At(r.worktree, p), At(input.After(), p), At(input.Before(), p))
  {
    if Applies(r.worktree, input.Before(), input.After(), input.Changes()) {
      assert At(r.worktree, p) == Patched(At(r.worktree, p), At(input.Before(), p), At(input.After(), p));
    }
  }

  /** Once a turned path has been hydrated the patch fits in neither direction. */
  lemma TurnedConflicts(input: Input, installed: Repo, r: Repo, p: Path)
    requires Settled(input, ApplyPatch, installed) && Turned(input, p) && p in Written(installed.worktree, r.worktree)
    requires Filled(input, installed.worktree, r.worktree, p)
    ensures Exec(input, ApplyPatch, r) == Fail(PatchConflict)
  {
    TurnedIsRewritten(input, p);
    PatchHolds(input, installed, p);
    PayloadIsNoSuchPointer(Wanted(input, p).value);
    assert !Holds(At(r.worktree, p), At(input.Before(), p), At(input.After(), p));
    assert !Holds(At(r.worktree, p), At(input.After(), p), At(input.Before(), p));
  }

  /** A turned path is the wanted pointer after the patch, so hydrating it writes it. */
  lemma TurnedIsWritten(input: Input, files: seq<Path>, installed: Repo, p: Path)
    requires Settled(input, ApplyPatch, installed) && Turned(input, p) && p in files
    requires Run(input, Smudges(files), installed).error == None
    ensures p in Written(installed.worktree, Run(input, Smudges(files), installed).repo.worktree)
  {
    TurnedIsRewritten(input, p);
    PatchHolds(input, installed, p);
    AllFilled(input, files, installed, p);
    SmudgesFill(input, Smudges(files), installed);
    assert Filled(input, installed.worktree, Run(input, Smudges(files), installed).repo.worktree, p);
  }

  /** No listed path is left as the wanted pointer. */
  lemma {:induction false} AllFilled(input: Input, files: seq<Path>, r: Repo, p: Path)
    requires Run(input, Smudges(files), r).error == None && p in files && Wanted(input, p).Some?
    ensures var done := Run(input, Smudges(files), r).repo.worktree; p in done && ParsePointer(done[p].blob) != Wanted(input, p)
    decreases |files|
  {
    assert Smudges(files)[1..] == Smudges(files[1..]);
    var next := Exec(input, Smudge(files[0]), r).repo;
    PayloadIsNoSuchPointer(Wanted(input, p).value);
    if p in files[1..] {
      AllFilled(input, files[1..], next, p);
    } else {
      SmudgesFill(input, Smudges(files[1..]), next);
      assert Filled(input, next.worktree, Run(input, Smudges(files), r).repo.worktree, p);
    }
  }

  /** The files a completed last stage wrote: those listed that were the wanted pointer. */
  lemma WrittenAre(input: Input, files: seq<Path>, r: Repo, p: Path)
    requires Run(input, Smudges(files), r).error == None
    ensures p in Written(r.worktree, Run(input, Smudges(files), r).repo.worktree) <==>
              (p in files && Wanted(input, p).Some? && p in r.worktree && ParsePointer(r.worktree[p].blob) == Wanted(input, p))
  {
    var done := Run(input, Smudges(files), r).repo.worktree;
    SmudgesFill(input, Smudges(files), r);
    assert Filled(input, r.worktree, done, p);
    if Wanted(input, p).Some? {
      PayloadIsNoSuchPointer(Wanted(input, p).value);
      if p in files { AllFilled(input, files, r, p); } else { NotListed(input, files, r, p); }
    }
  }

  lemma {:induction false} NotListed(input: Input, files: seq<Path>, r: Repo, p: Path)
    requires p !in files
    ensures At(Run(input, Smudges(files), r).repo.worktree, p) == At(r.worktree, p)
    decreases |files|
  {
    if files != [] {
      assert Smudges(files)[1..] == Smudges(files[1..]) && files[0] in files;
      var next := Exec(input, Smudge(files[0]), r);
      if next.Ok? { NotListed(input, files[1..], next.repo, p); }
    }
  }

  // ------------------------------------------------------------------ crash recovery

  /** Where the commands before the last stage leave the checkout. */
  ghost function Installed(input: Input, r: Repo): Repo {
    Run(input, Install(input), r).repo
  }

  /** Those commands find their work done, unless a turned path was hydrated since. */
  lemma InstallAgain(input: Input, files: seq<Path>, r: Repo, at: Repo)
    requires Run(input, Install(input), r).error == None
    requires Run(input, Smudges(files), Installed(input, r)) == Outcome(at, None)
    ensures var again := Run(input, Install(input), at);
            if forall p :: p in files ==> !Turned(input, p) then again == Outcome(at, None) else again.error == Some(PatchConflict)
  {
    var first := Install(input);
    SettledSince(input, files, r, at);
    if forall p :: p in files ==> !Turned(input, p) {
      SettledRun(input, first, at);
    } else {
      var before, rest := Fetches(input.needed) + [Expand], [MergeIndex, MoveBranch, SwitchHead];
      assert first == before + ([ApplyPatch] + rest);
      forall i | 0 <= i < |before| ensures Settled(input, before[i], at) {
        assert before[i] == first[i];
      }
      SettledRun(input, before, at);
      RunAppend(input, before, [ApplyPatch] + rest, at);
      PatchAgain(input, files, r, at, at);
      assert ([ApplyPatch] + rest)[0] == ApplyPatch;
    }
  }

  /** Each of them is still settled, the patch itself unless a turned path was hydrated. */
  lemma SettledSince(input: Input, files: seq<Path>, r: Repo, at: Repo)
    requires Run(input, Install(input), r).error == None
    requires Run(input, Smudges(files), Installed(input, r)) == Outcome(at, None)
    ensures forall i :: 0 <= i < |Install(input)| && (Install(input)[i].ApplyPatch? ==> forall p :: p in files ==> !Turned(input, p)) ==>
              Settled(input, Install(input)[i], at)
  {
    var first, steps := Install(input), Install(input) + Smudges(files);
    RunAppend(input, first, Smudges(files), r);
    SameInstall(input, files);
    ProgramOrdered(input.(files := files));
    RunSettles(input, steps, r);
    forall i | 0 <= i < |first| && (first[i].ApplyPatch? ==> forall p :: p in files ==> !Turned(input, p)) ensures Settled(input, first[i], at) {
      assert steps[i] == first[i];
      if first[i].ApplyPatch? { assert TurnsNone(input, steps); }
    }
  }

  /** With a turned path hydrated the patch conflicts, whatever the index. */
  lemma PatchAgain(input: Input, files: seq<Path>, r: Repo, at: Repo, done: Repo)
    requires Run(input, Install(input), r).error == None && exists p :: p in files && Turned(input, p)
    requires Run(input, Smudges(files), Installed(input, r)) == Outcome(at, None) && done.worktree == at.worktree
    ensures Exec(input, ApplyPatch, done) == Fail(PatchConflict)
  {
    var n, first, installed := |input.needed|, Install(input), Installed(input, r);
    var p :| p in files && Turned(input, p);
    ProgramOrdered(input);
    RunSettles(input, first, r);
    assert first[n + 1] == ApplyPatch && Settled(input, first[n + 1], installed);
    TurnedIsWritten(input, files, installed, p);
    SmudgesFill(input, Smudges(files), installed);
    TurnedConflicts(input, installed, done, p);
  }

  lemma SameInstall(input: Input, files: seq<Path>)
    ensures Install(input) + Smudges(files) == Program(input.(files := files))
  {
  }

  /** Crash recovery.  Stopped before any file is hydrated and run again from the start, the apply ends
      where the uninterrupted run would have, whether that run completes or fails.  Stopped later it
      does if and only if none of the files hydrated so far was turned from a symlink and, where the
      uninterrupted run completes, none is one whose re-adding moves its index entry: the files written
      are only remembered while the apply runs. */
  lemma RunAgainAfterCrash(input: Input, k: nat, r: Repo, crashed: Repo)
    requires Reached(input, Program(input), k, r, crashed)
    ensures k <= |Install(input)| ==> Applied(input, crashed) == Applied(input, r)
    ensures k > |Install(input)| ==>
              (Applied(input, crashed) == Applied(input, r) <==>
                && (forall p :: p in input.files[..k - |Install(input)|] ==> !Turned(input, p))
                && (Applied(input, r).error == None ==>
                      forall p :: p in Written(Installed(input, r).worktree, crashed.worktree) ==> !ReAddMoves(input, crashed, p)))
  {
    if k <= |Install(input)| { StoppedBefore(input, k, r, crashed); } else { StoppedAfter(input, k - |Install(input)|, r, crashed); }
  }

  lemma StoppedBefore(input: Input, k: nat, r: Repo, crashed: Repo)
    requires k <= |Install(input)| && Reached(input, Program(input), k, r, crashed)
    ensures Applied(input, crashed) == Applied(input, r)
  {
    var done, rest := Install(input)[..k], Install(input)[k..];
    assert Program(input)[..k] == done && Install(input) == done + rest;
    ProgramOrdered(input);
    RunSettles(input, done, r);
    SettledRun(input, done, crashed);
    RunAppend(input, done, rest, r);
    RunAppend(input, done, rest, crashed);
  }

  lemma StoppedAfter(input: Input, j: nat, r: Repo, crashed: Repo)
    requires 0 < j <= |input.files| && Reached(input, Program(input), |Install(input)| + j, r, crashed)
    ensures Applied(input, crashed) == Applied(input, r) <==>
              (&& (forall p :: p in input.files[..j] ==> !Turned(input, p))
               && (Applied(input, r).error == None ==>
                     forall p :: p in Written(Installed(input, r).worktree, crashed.worktree) ==> !ReAddMoves(input, crashed, p)))
  {
    var first, installed := Install(input), Installed(input, r);
    var some, rest := Smudges(input.files[..j]), Smudges(input.files[j..]);
    assert Program(input)[..|first| + j] == first + some && Smudges(input.files) == some + rest;
    RunAppend(input, first, some, r);
    RunAppend(input, some, rest, installed);
    SmudgesFill(input, Smudges(input.files), installed);
    InstallAgain(input, input.files[..j], r, crashed);
    if forall p :: p in input.files[..j] ==> !Turned(input, p) {
      SmudgesAgain(input, some, installed, crashed);
      RunAppend(input, some, rest, crashed);
      var done := Run(input, Smudges(input.files), installed);
      assert Run(input, Smudges(input.files), crashed) == done;
      if done.error == None { HydratedTwice(input, installed, crashed, done.repo, some, rest); }
    }
  }

  lemma SmudgesAgain(input: Input, steps: seq<Step>, r: Repo, at: Repo)
    requires (forall step :: step in steps ==> step.Smudge?) && Run(input, steps, r) == Outcome(at, None)
    ensures Run(input, steps, at) == Outcome(at, None)
  {
    forall i | 0 <= i < |steps| ensures steps[i].Smudge? {
      assert steps[i] in steps;
    }
    RunSettles(input, steps, r);
    SettledRun(input, steps, at);
  }

  /** What two runs of the last stage write, the second from where the first stopped, is what one
      writes; the second only re-adds its own. */
  lemma HydratedTwice(input: Input, installed: Repo, crashed: Repo, done: Repo, some: seq<Step>, rest: seq<Step>)
    requires (forall step :: step in some + rest ==> step.Smudge?)
    requires Run(input, some, installed) == Outcome(crashed, None) && Run(input, rest, crashed) == Outcome(done, None)
    ensures RefreshedIn(input, done, Written(crashed.worktree, done.worktree)) == RefreshedIn(input, done, Written(installed.worktree, done.worktree))
       <==> forall p :: p in Written(installed.worktree, crashed.worktree) ==> !ReAddMoves(input, crashed, p)
  {
    var early, late, all := Written(installed.worktree, crashed.worktree), Written(crashed.worktree, done.worktree), Written(installed.worktree, done.worktree);
    SmudgesFill(input, some, installed);
    SmudgesFill(input, rest, crashed);
    forall p
      ensures p in all <==> p in early || p in late
      ensures !(p in early && p in late)
      ensures p in early ==> At(done.worktree, p) == At(crashed.worktree, p)
    {
      assert Filled(input, installed.worktree, crashed.worktree, p) && Filled(input, crashed.worktree, done.worktree, p);
      if Wanted(input, p).Some? { PayloadIsNoSuchPointer(Wanted(input, p).value); }
    }
    assert all - late == early;
    SameRefresh(input, done, late, all);
    forall p | p in early ensures ReAddMoves(input, done, p) <==> ReAddMoves(input, crashed, p) {
      assert At(done.worktree, p) == At(crashed.worktree, p);
    }
  }

  // ------------------------------------------------------------------ run again when done

  /** But for the merge no command looks at the index. */
  lemma IndexUnseen(input: Input, step: Step, r: Repo, index: Option<Tree>)
    requires Settled(input, step, r) && !step.MergeIndex?
    ensures Settled(input, step, r.(index := index))
  {
  }

  /** An index in which some entries moved after the merge merges to itself if and only if the two trees
      agree on every moved entry; otherwise the merge takes an entry back or conflicts. */
  lemma MergeMoved(before: Option<Tree>, h: Tree, m: Tree, moved: Tree)
    requires TwoTreeMerge(before, h, m).Some?
    ensures TwoTreeMerge(Some(moved), h, m) == Some(moved)
       <==> forall p :: At(moved, p) != At(TwoTreeMerge(before, h, m).value, p) ==> At(h, p) == At(m, p)
  {
    var merged := TwoTreeMerge(before, h, m);
    MergeAgain(before, h, m);
    forall p
      ensures MergeAt(Some(moved), h, m, p) == Take(At(moved, p)) <==> (At(moved, p) != At(merged.value, p) ==> At(h, p) == At(m, p))
    {
      MergedAt(before, h, m, p);
      MergedAt(merged, h, m, p);
      MergeIsThreeWay(At(Entries(before), p), At(h, p), At(m, p));
      MergeIsThreeWay(At(moved, p), At(h, p), At(m, p));
    }
    var again := TwoTreeMerge(Some(moved), h, m);
    if again == Some(moved) {
      forall p | At(moved, p) != At(merged.value, p) ensures At(h, p) == At(m, p) {
        MergedAt(Some(moved), h, m, p);
      }
    } else if forall p :: At(moved, p) != At(merged.value, p) ==> At(h, p) == At(m, p) {
      assert again.Some?;
      forall p ensures At(again.value, p) == At(moved, p) {
        MergedAt(Some(moved), h, m, p);
      }
      SameTree(again.value, moved);
    }
  }

  /** An apply that completed and is run again, because it stopped before that was recorded, finds
      everything done if and only if no file was turned from a symlink and every entry the refresh moved
      is one the two indexes agree on. */
  lemma RunAgainWhenDone(input: Input, r: Repo)
    requires Applied(input, r).error == None
    ensures var installed, done := Installed(input, r), Applied(input, r).repo;
            Applied(input, done) == Outcome(done, None) <==>
              (&& (forall p :: p in input.files ==> !Turned(input, p))
               && forall p :: p in Written(installed.worktree, done.worktree) && ReAddMoves(input, done.(index := installed.index), p) ==>
                    At(input.previous.index.tree, p) == At(input.checkpoint.index.tree, p))
  {
    var installed, done := Installed(input, r), Applied(input, r).repo;
    var hydrated := Run(input, Smudges(input.files), installed).repo;
    SmudgesFill(input, Smudges(input.files), installed);
    DoneSettled(input, r, hydrated, done);
    if forall p :: p in input.files ==> !Turned(input, p) {
      var merged := TwoTreeMerge(done.index, input.previous.index.tree, input.checkpoint.index.tree);
      assert Applied(input, done) == if merged.Some? then Outcome(done.(index := merged), None) else Outcome(done, Some(IndexConflict));
      MergedBefore(input, r);
      MergeMoved(r.index, input.previous.index.tree, input.checkpoint.index.tree, done.index.value);
      forall p ensures At(done.index.value, p) != At(installed.index.value, p)
                  <==> (p in Written(installed.worktree, done.worktree) && ReAddMoves(input, done.(index := installed.index), p))
      {
        RefreshKeeps(input, hydrated, Written(installed.worktree, done.worktree), p);
      }
    }
  }

  /** The index the last stage starts from is the merge. */
  lemma MergedBefore(input: Input, r: Repo)
    requires Run(input, Install(input), r).error == None
    ensures Installed(input, r).index == TwoTreeMerge(r.index, input.previous.index.tree, input.checkpoint.index.tree)
    ensures Installed(input, r).index.Some?
  {
    var first, rest := Fetches(input.needed) + [Expand, ApplyPatch], [MoveBranch, SwitchHead];
    assert Install(input) == first + ([MergeIndex] + rest);
    RunAppend(input, first, [MergeIndex] + rest, r);
    OnlyMergeMovesIndex(input, first, r);
    var patched := Run(input, first, r).repo;
    RunAppend(input, [MergeIndex], rest, patched);
    RunOne(input, MergeIndex, patched);
    OnlyMergeMovesIndex(input, rest, Run(input, [MergeIndex], patched).repo);
  }

  lemma {:induction false} OnlyMergeMovesIndex(input: Input, steps: seq<Step>, r: Repo)
    requires MergeIndex !in steps
    ensures Run(input, steps, r).repo.index == r.index
    decreases |steps|
  {
    if steps != [] && Exec(input, steps[0], r).Ok? {
      assert steps[0] in steps;
      OnlyMergeMovesIndex(input, steps[1..], Exec(input, steps[0], r).repo);
    }
  }

  /** Run again from a completed apply, the commands before the merge find their work done, but for a
      turned path; the rest ends where the merge does. */
  lemma DoneSettled(input: Input, r: Repo, hydrated: Repo, done: Repo)
    requires Run(input, Install(input), r).error == None
    requires Run(input, Smudges(input.files), Installed(input, r)) == Outcome(hydrated, None)
    requires done == hydrated.(index := done.index)
    ensures var merged := TwoTreeMerge(done.index, input.previous.index.tree, input.checkpoint.index.tree);
            if exists p :: p in input.files && Turned(input, p) then Applied(input, done).error == Some(PatchConflict)
            else Applied(input, done) == if merged.Some? then Outcome(done.(index := merged), None) else Outcome(done, Some(IndexConflict))
  {
    var before, rest := Fetches(input.needed) + [Expand], [MergeIndex, MoveBranch, SwitchHead];
    assert Install(input) == before + ([ApplyPatch] + rest);
    SettledSince(input, input.files, r, hydrated);
    forall i | 0 <= i < |before| ensures Settled(input, before[i], done) {
      assert before[i] == Install(input)[i];
      IndexUnseen(input, before[i], hydrated, done.index);
    }
    SettledRun(input, before, done);
    RunAppend(input, before, [ApplyPatch] + rest, done);
    assert ([ApplyPatch] + rest)[0] == ApplyPatch && ([ApplyPatch] + rest)[1..] == rest;
    if exists p :: p in input.files && Turned(input, p) {
      PatchAgain(input, input.files, r, hydrated, done);
    } else {
      assert Install(input)[|input.needed| + 1] == ApplyPatch;
      IndexUnseen(input, ApplyPatch, hydrated, done.index);
      MergeOn(input, r, hydrated, done);
    }
  }

  /** From the merge on. */
  lemma MergeOn(input: Input, r: Repo, hydrated: Repo, done: Repo)
    requires Run(input, Install(input), r).error == None
    requires Run(input, Smudges(input.files), Installed(input, r)) == Outcome(hydrated, None)
    requires done == hydrated.(index := done.index)
    ensures var merged := TwoTreeMerge(done.index, input.previous.index.tree, input.checkpoint.index.tree);
            var again := Run(input, [MergeIndex, MoveBranch, SwitchHead], done);
            if merged.None? then again == Outcome(done, Some(IndexConflict))
            else again == Outcome(done.(index := merged), None) && Hydrate(input, again.repo) == again
  {
    var merged := TwoTreeMerge(done.index, input.previous.index.tree, input.checkpoint.index.tree);
    assert [MergeIndex, MoveBranch, SwitchHead][1..] == [MoveBranch, SwitchHead];
    if merged.Some? { AfterMerge(input, r, hydrated, merged); }
  }

  /** Behind the merge nothing is left to do, whatever the index. */
  lemma AfterMerge(input: Input, r: Repo, hydrated: Repo, index: Option<Tree>)
    requires Run(input, Install(input), r).error == None
    requires Run(input, Smudges(input.files), Installed(input, r)) == Outcome(hydrated, None)
    ensures var after := hydrated.(index := index);
            Run(input, [MoveBranch, SwitchHead], after) == Outcome(after, None) == Hydrate(input, after)
  {
    var n, after := |input.needed|, hydrated.(index := index);
    SettledSince(input, input.files, r, hydrated);
    assert Install(input)[n + 3] == MoveBranch && Install(input)[n + 4] == SwitchHead;
    IndexUnseen(input, MoveBranch, hydrated, index);
    IndexUnseen(input, SwitchHead, hydrated, index);
    RunPair(input, MoveBranch, SwitchHead, after);
    RunSettles(input, Smudges(input.files), Installed(input, r));
    SmudgesUnseen(input, Smudges(input.files), hydrated, index);
    assert Written(after.worktree, after.worktree) == {};
    RefreshNone(input, after);
  }

  lemma SmudgesUnseen(input: Input, steps: seq<Step>, r: Repo, index: Option<Tree>)
    requires (forall step :: step in steps ==> step.Smudge?) && AllSettled(input, steps, r)
    ensures Run(input, steps, r.(index := index)) == Outcome(r.(index := index), None)
  {
    forall i | 0 <= i < |steps| ensures Settled(input, steps[i], r.(index := index)) {
      assert steps[i] in steps;
      IndexUnseen(input, steps[i], r, index);
    }
    SettledRun(input, steps, r.(index := index));
  }
}
