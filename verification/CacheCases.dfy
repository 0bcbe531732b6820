/** Inputs at which an apply does not do what one would expect of it; `CacheRecovery` and
    `CacheInstall` say exactly when. */
module CacheCases {
  import opened Objects
  import opened GitCommands
  import opened Checkouts
  import opened CacheApply
  import opened CacheRecovery
  import opened CacheInstall

  /** An incoming checkpoint that changes the files from `before` to `after` and nothing else. */
  function FilesInput(before: Tree, after: Tree, index: Tree, needed: seq<LfsObject>, files: seq<Path>, clean: (Path, Content) -> Content): Input {
    Input(Checkpoint(None, "m", Commit(index, [], ""), Commit(before, [], ""), {}),
          Checkpoint(None, "m", Commit(index, [], ""), Commit(after, [], ""), {}), needed, files, {}, clean)
  }

  function File(path: Path, mode: Mode, content: Content): Tree {
    map[path := Entry(mode, content)]
  }

  function On(files: Tree, index: Tree, cache: set<Content>): Repo {
    Repo(files, Some(index), OnBranch("m"), map[], cache)
  }

  /** With everything cached and HEAD where it is, only the patch, the merge and the last stage do
      anything. */
  lemma OnlyFiles(input: Input, r: Repo, patched: Tree, merged: Tree)
    requires !MovesHead(input) && TwoTreeMerge(r.index, input.previous.index.tree, input.checkpoint.index.tree) == Some(merged)
    requires forall o :: o in input.needed ==> Cached(r, o)
    requires forall o :: o in input.Payloads() ==> Cached(r, o)
    requires Exec(input, ApplyPatch, r) == Ok(r.(worktree := patched))
    ensures var installed := r.(worktree := patched, index := Some(merged));
            Run(input, Install(input), r) == Outcome(installed, None) && Applied(input, r) == Hydrate(input, installed)
  {
    AllCached(r.cache, input.needed, input.store);
    FetchesAre(input, input.needed, r);
    RunPair(input, Expand, ApplyPatch, r);
    RunOne(input, MergeIndex, r.(worktree := patched));
    RunPair(input, MoveBranch, SwitchHead, r.(worktree := patched, index := Some(merged)));
    SplitInstall(input, r);
  }

  /** Two equal trees keep any index. */
  lemma SameTreesMerge(index: Tree, tree: Tree)
    ensures TwoTreeMerge(Some(index), tree, tree) == Some(index)
  {
    forall p ensures MergeAt(Some(index), tree, tree, p) == Take(At(index, p)) {
    }
    forall p ensures At(TwoTreeMerge(Some(index), tree, tree).value, p) == At(index, p) {
      MergedAt(Some(index), tree, tree, p);
    }
    SameTree(TwoTreeMerge(Some(index), tree, tree).value, index);
  }

  lemma {:induction false} AllCached(cache: set<Content>, needed: seq<LfsObject>, store: set<LfsObject>)
    requires forall o :: o in needed ==> o.oid in cache && o.Genuine()
    ensures FetchAll(cache, needed, store) == (cache, true)
    decreases |needed|
  {
    if needed != [] {
      assert needed[0] in needed && cache + {needed[0].oid} == cache;
      AllCached(cache, needed[1..], store);
    }
  }

  // ------------------------------------------------------------------ the refresh of the index

  function Pointed(mode: Mode, payload: Content): Tree {
    map["f" := Entry(mode, Pointer(payload, payload.Size(), 130))]
  }

  /** Nothing to install but a pointer file still to be hydrated, staged with mode `mode`. */
  function PointerInput(payload: Content, mode: Mode, clean: (Path, Content) -> Content): Input {
    FilesInput(Pointed(Regular, payload), Pointed(Regular, payload), Pointed(mode, payload), [LfsObject(payload, payload.Size())], ["f"], clean)
  }

  /** Such an apply re-adds the staged pointer as what the payload cleans to, in the file's mode. */
  lemma EntryReAdded(payload: Content, mode: Mode, clean: (Path, Content) -> Content)
    ensures var input, r := PointerInput(payload, mode, clean), On(Pointed(Regular, payload), Pointed(mode, payload), {payload});
            var hydrated := On(File("f", Regular, payload), Pointed(mode, payload), {payload});
            && Applied(input, r) == Outcome(hydrated.(index := Some(File("f", Regular, clean("f", payload)))), None)
            && Reached(input, Program(input), |Program(input)|, r, hydrated)
  {
    var input, r := PointerInput(payload, mode, clean), On(Pointed(Regular, payload), Pointed(mode, payload), {payload});
    var hydrated := On(File("f", Regular, payload), Pointed(mode, payload), {payload});
    PointerIdle(payload, mode, clean, r);
    assert Smudges(input.files) == [Smudge(input.files[0])];
    RunOne(input, Smudge("f"), r);
    assert Exec(input, Smudge("f"), r).repo.worktree == hydrated.worktree;
    assert Written(r.worktree, hydrated.worktree) == {"f"};
    assert RefreshedIn(input, hydrated, {"f"}).index.value == File("f", Regular, clean("f", payload));
    RunAppend(input, Install(input), Smudges(input.files), r);
    assert Program(input)[..|Program(input)|] == Program(input);
  }

  /** Stopped before it does, and run again, it leaves the entry as it was staged. */
  lemma EntryNotReAdded(payload: Content, mode: Mode, clean: (Path, Content) -> Content)
    ensures var input, hydrated := PointerInput(payload, mode, clean), On(File("f", Regular, payload), Pointed(mode, payload), {payload});
            Applied(input, hydrated) == Outcome(hydrated, None)
  {
    var input, hydrated := PointerInput(payload, mode, clean), On(File("f", Regular, payload), Pointed(mode, payload), {payload});
    PointerIdle(payload, mode, clean, hydrated);
    assert Smudges(input.files) == [Smudge(input.files[0])];
    RunOne(input, Smudge("f"), hydrated);
    assert Written(hydrated.worktree, hydrated.worktree) == {};
    RefreshNone(input, hydrated);
  }

  lemma PointerIdle(payload: Content, mode: Mode, clean: (Path, Content) -> Content, r: Repo)
    requires r == On(r.worktree, Pointed(mode, payload), {payload})
    ensures var input := PointerInput(payload, mode, clean);
            Run(input, Install(input), r) == Outcome(r, None) && Wanted(input, "f") == Some(LfsObject(payload, payload.Size()))
            && ParsePointer(payload) != Wanted(input, "f")
  {
    var input, files := PointerInput(payload, mode, clean), Pointed(Regular, payload);
    assert input.Before() == files == input.After();
    assert Pointers(files, files, {}) == {};
    PayloadIsNoSuchPointer(LfsObject(payload, payload.Size()));
    SameTreesMerge(r.index.value, r.index.value);
    OnlyFiles(input, r, r.worktree, r.index.value);
  }

  /** A pointer no attribute puts under LFS is staged as its payload; a pointer file whose mode differs
      from the staged one takes the file's mode; otherwise the entry is kept. */
  lemma EntryMovedCases(payload: Content)
    ensures var pointer := Pointer(payload, payload.Size(), 130);
            var plain, lfs := (p: Path, blob: Content) => blob, (p: Path, blob: Content) => pointer;
            var r, staged := On(Pointed(Regular, payload), Pointed(Regular, payload), {payload}), On(Pointed(Regular, payload), Pointed(Executable, payload), {payload});
            && Applied(PointerInput(payload, Regular, plain), r).repo.index == Some(File("f", Regular, payload)) != r.index
            && Applied(PointerInput(payload, Executable, lfs), staged).repo.index == Some(Pointed(Regular, payload)) != staged.index
            && Applied(PointerInput(payload, Regular, lfs), r).repo.index == r.index
  {
    var pointer := Pointer(payload, payload.Size(), 130);
    PayloadIsNoSuchPointer(LfsObject(payload, payload.Size()));
    EntryReAdded(payload, Regular, (p, blob) => blob);
    EntryReAdded(payload, Executable, (p, blob) => pointer);
    EntryReAdded(payload, Regular, (p, blob) => pointer);
    assert Pointed(Regular, payload)["f"] != Entry(Regular, payload);
    assert Pointed(Executable, payload)["f"] != Pointed(Regular, payload)["f"];
  }

  /** An apply that newly stages such a pointer completes; run again because that was not recorded, it
      fails for an index conflict. */
  lemma AgainConflicts(payload: Content)
    ensures var input := PointerInput(payload, Regular, (p, blob) => blob).(previous := Checkpoint(None, "m", Commit(map[], [], ""), Commit(Pointed(Regular, payload), [], ""), {}));
            var r := On(Pointed(Regular, payload), map[], {payload});
            Applied(input, r).error == None && Applied(input, Applied(input, r).repo).error == Some(IndexConflict)
  {
    var files := Pointed(Regular, payload);
    var input := PointerInput(payload, Regular, (p, blob) => blob).(previous := Checkpoint(None, "m", Commit(map[], [], ""), Commit(files, [], ""), {}));
    var r := On(files, map[], {payload});
    var installed := On(files, files, {payload});
    var hydrated := On(File("f", Regular, payload), files, {payload});
    var done := On(File("f", Regular, payload), File("f", Regular, payload), {payload});
    PayloadIsNoSuchPointer(LfsObject(payload, payload.Size()));
    assert input.Before() == files == input.After();
    assert Pointers(files, files, {}) == {};
    assert Wanted(input, "f") == Some(LfsObject(payload, payload.Size()));
    NewTreeMerge(files);
    OnlyFiles(input, r, files, files);
    assert Smudges(input.files) == [Smudge(input.files[0])];
    RunOne(input, Smudge("f"), installed);
    assert Exec(input, Smudge("f"), installed).repo.worktree == hydrated.worktree;
    assert Written(files, hydrated.worktree) == {"f"};
    assert Refreshed(files, hydrated.worktree, {"f"}, files, input.clean) == done.index.value;
    assert Applied(input, r) == Outcome(done, None);
    assert "f" in Entries(done.index).Keys + {} + files.Keys && MergeAt(done.index, map[], files, "f").Conflict?;
    DoneSettled(input, r, hydrated, done);
  }

  /** An empty index takes every entry of a tree that is new. */
  lemma NewTreeMerge(tree: Tree)
    ensures TwoTreeMerge(Some(map[]), map[], tree) == Some(tree)
  {
    forall p ensures MergeAt(Some(map[]), map[], tree, p) == Take(At(tree, p)) {
    }
    forall p ensures At(TwoTreeMerge(Some(map[]), map[], tree).value, p) == At(tree, p) {
      MergedAt(Some(map[]), map[], tree, p);
    }
    SameTree(TwoTreeMerge(Some(map[]), map[], tree).value, tree);
  }

  // ------------------------------------------------------------------ what a patch overlooks

  /** A file made executable here and deleted there is deleted: `git apply` only warns. */
  lemma ModeEditDeleted(clean: (Path, Content) -> Content)
    ensures var input := FilesInput(File("f", Regular, Raw(0, 1)), map[], map[], [], [], clean);
            var r := On(File("f", Executable, Raw(0, 1)), map[], {});
            Applied(input, r) == Outcome(On(map[], map[], {}), None)
  {
    var before, after: Tree := File("f", Regular, Raw(0, 1)), map[];
    var input := FilesInput(before, after, map[], [], [], clean);
    var r := On(File("f", Executable, Raw(0, 1)), map[], {});
    assert input.Before() == before && input.After() == after;
    assert input.Changes() == {"f"};
    assert Apply(r.worktree, before, after, {"f"}) == map[];
    LastStageIdle(input, r, map[]);
  }

  function Two(f: Content, mode: Mode): Tree {
    map["f" := Entry(Regular, f), "g" := Entry(mode, Raw(1, 1))]
  }

  /** A delta that changes one file's content and another's mode passes for installed where only the
      content is. */
  lemma ModeSkipped(clean: (Path, Content) -> Content)
    ensures var input, r := FilesInput(Two(Raw(0, 1), Regular), Two(Raw(2, 1), Executable), map[], [], [], clean), On(Two(Raw(2, 1), Regular), map[], {});
            Applied(input, r) == Outcome(r, None) && !ModesInstalled(input, r.worktree)
  {
    var before, after := Two(Raw(0, 1), Regular), Two(Raw(2, 1), Executable);
    var input, r := FilesInput(before, after, map[], [], [], clean), On(Two(Raw(2, 1), Regular), map[], {});
    TwoChanged(input);
    assert !Holds(At(r.worktree, "f"), At(before, "f"), At(after, "f"));
    LastStageIdle(input, r, r.worktree);
  }

  lemma TwoChanged(input: Input)
    requires input.previous.worktree.tree == Two(Raw(0, 1), Regular) && input.checkpoint.worktree.tree == Two(Raw(2, 1), Executable)
    requires input.Protected() == {}
    ensures input.Before() == Two(Raw(0, 1), Regular) && input.After() == Two(Raw(2, 1), Executable)
    ensures input.Changes() == {"f", "g"} && input.Payloads() == {}
  {
    var before, after := input.previous.worktree.tree, input.checkpoint.worktree.tree;
    forall p ensures !Expands(before, after, {}, p) && !Expands(after, before, {}, p) {
    }
    assert before["f"] != after["f"] && before["g"] != after["g"];
  }

  lemma LastStageIdle(input: Input, r: Repo, patched: Tree)
    requires input.needed == [] && input.files == [] && input.Payloads() == {} && r.index.Some?
    requires !MovesHead(input) && input.previous.index == input.checkpoint.index
    requires Exec(input, ApplyPatch, r) == Ok(r.(worktree := patched))
    ensures Applied(input, r) == Outcome(r.(worktree := patched), None)
  {
    SameTreesMerge(r.index.value, input.previous.index.tree);
    OnlyFiles(input, r, patched, r.index.value);
    assert Smudges([]) == [] && Written(patched, patched) == {};
    RefreshNone(input, r.(worktree := patched));
  }

  /** A symlink turned into the pointer file of the same text is hydrated; stopped there and run again
      the apply fails for a conflict. */
  lemma TurnedFails(payload: Content, clean: (Path, Content) -> Content)
    ensures var before, after := Pointed(Symlink, payload), Pointed(Regular, payload);
            var input, r := FilesInput(before, after, map[], [LfsObject(payload, payload.Size())], ["f"], clean), On(before, map[], {payload});
            var hydrated := On(File("f", Regular, payload), map[], {payload});
            Applied(input, r) == Outcome(hydrated, None) && Applied(input, hydrated).error == Some(PatchConflict)
  {
    var before, after := Pointed(Symlink, payload), Pointed(Regular, payload);
    var input, r := FilesInput(before, after, map[], [LfsObject(payload, payload.Size())], ["f"], clean), On(before, map[], {payload});
    var hydrated := On(File("f", Regular, payload), map[], {payload});
    var installed := r.(worktree := after);
    PayloadIsNoSuchPointer(LfsObject(payload, payload.Size()));
    assert input.Before() == before && input.After() == after;
    assert before["f"] != after["f"];
    assert input.Changes() == {"f"};
    assert Pointers(before, after, {}) == {} == Pointers(after, before, {});
    assert Apply(r.worktree, before, after, {"f"}) == after;
    SameTreesMerge(map[], map[]);
    OnlyFiles(input, r, after, map[]);
    assert Smudges(input.files) == [Smudge(input.files[0])];
    assert Wanted(input, "f") == Some(LfsObject(payload, payload.Size()));
    RunOne(input, Smudge("f"), installed);
    assert Exec(input, Smudge("f"), installed).repo.worktree == hydrated.worktree;
    assert Refreshed(map[], hydrated.worktree, Written(after, hydrated.worktree), after, clean) == map[];
    assert Turned(input, "f");
    InstallAgain(input, input.files, r, hydrated);
  }
}
