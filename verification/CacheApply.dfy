/** Applying a cache checkpoint over a checkout people may be editing
    (`applyGitCacheCheckpoint` in `git-checkpoint.ts`, and its LFS helpers in `git-lfs.ts`). */
module CacheApply {
  import opened Objects
  import opened GitCommands
  import opened Checkouts
  import H = LfsHydration

  datatype Checkpoint = Checkpoint(head: Option<Commit>, branch: Branch, index: Commit, worktree: Commit, heldBack: set<Path>)

  /** `needed` lists the LFS objects hydration requires, `files` the paths of the checkpoint's tree,
      both in the order they are visited; `store` holds what can be downloaded, and `clean` is what the
      checkout's attributes and filters make of a file's content when it is added. */
  datatype Input = Input(previous: Checkpoint, checkpoint: Checkpoint, needed: seq<LfsObject>, files: seq<Path>,
                         store: set<LfsObject>, clean: (Path, Content) -> Content)
  {
    function Protected(): set<Path> {
      previous.heldBack + checkpoint.heldBack
    }

    function Before(): Tree {
      Hydrated(previous.worktree.tree, checkpoint.worktree.tree, Protected())
    }

    function After(): Tree {
      Hydrated(checkpoint.worktree.tree, previous.worktree.tree, Protected())
    }

    function Changes(): set<Path> {
      Delta(Before(), After(), Protected())
    }

    /** The payloads both trees of the patch are built from. */
    function Payloads(): set<LfsObject> {
      Pointers(previous.worktree.tree, checkpoint.worktree.tree, Protected())
      + Pointers(checkpoint.worktree.tree, previous.worktree.tree, Protected())
    }
  }

  /** Whether `gitLfsWorktreeTree` replaces the pointer at `p` by its payload. */
  predicate Expands(tree: Tree, other: Tree, protectedPaths: set<Path>, p: Path) {
    && p in tree && p !in protectedPaths
    && !(p in other && other[p].blob == tree[p].blob)
    && tree[p].mode != Symlink
    && ParsePointer(tree[p].blob).Some?
  }

  function Hydrated(tree: Tree, other: Tree, protectedPaths: set<Path>): Tree {
    map p | p in tree :: if Expands(tree, other, protectedPaths, p) then tree[p].(blob := ParsePointer(tree[p].blob).value.oid) else tree[p]
  }

  function Pointers(tree: Tree, other: Tree, protectedPaths: set<Path>): set<LfsObject> {
    set p | p in tree && Expands(tree, other, protectedPaths, p) :: ParsePointer(tree[p].blob).value
  }

  datatype Error = MissingObject | PatchConflict | IndexConflict | HeadMoved | BranchMoved | DetachedHead | MissingFile

  /** One step of the program; a crash falls between two of them. */
  datatype Step = Fetch(payload: LfsObject) | Expand | ApplyPatch | MergeIndex | MoveBranch | SwitchHead | Smudge(path: Path)

  datatype Result = Ok(repo: Repo) | Fail(error: Error)

  /** The pointer the checkpoint wants hydrated at `p`, if it wants one. */
  function Wanted(input: Input, p: Path): Option<LfsObject> {
    var tree := input.checkpoint.worktree.tree;
    if p in tree && p !in input.Protected() && tree[p].mode != Symlink then ParsePointer(tree[p].blob) else None
  }

  /** Whether HEAD is where `c` has it. */
  predicate HeadAt(r: Repo, c: Checkpoint) {
    r.head == OnBranch(c.branch) && Tip(r.heads, c.branch) == c.head
  }

  predicate MovesHead(input: Input) {
    input.checkpoint.head != input.previous.head || input.checkpoint.branch != input.previous.branch
  }

  function BranchMovedTo(r: Repo, branch: Branch, commit: Option<Commit>): Repo {
    r.(heads := if commit.None? then r.heads - {branch} else r.heads[branch := commit.value])
  }

  function Exec(input: Input, step: Step, r: Repo): Result {
    var checkpoint, previous := input.checkpoint, input.previous;
    match step
    case Fetch(payload) =>
      if payload.oid in r.cache then if payload.Genuine() then Ok(r) else Fail(MissingObject)
      else if payload in input.store && payload.Genuine() then Ok(r.(cache := r.cache + {payload.oid}))
      else Fail(MissingObject)
    case Expand =>
      if forall o :: o in input.Payloads() ==> Cached(r, o) then Ok(r) else Fail(MissingObject)
    case ApplyPatch =>
      if input.Changes() == {} then Ok(r)
      else if Applies(r.worktree, input.Before(), input.After(), input.Changes()) then
        Ok(r.(worktree := Apply(r.worktree, input.Before(), input.After(), input.Changes())))
      else if Applies(r.worktree, input.After(), input.Before(), input.Changes()) then Ok(r)
      else Fail(PatchConflict)
    case MergeIndex =>
      var merged := TwoTreeMerge(r.index, previous.index.tree, checkpoint.index.tree);
      if merged.Some? then Ok(r.(index := merged)) else Fail(IndexConflict)
    case MoveBranch =>
      if !MovesHead(input) then Ok(r)
      else if r.head.Detached? then Fail(DetachedHead)
      else if HeadAt(r, checkpoint) then Ok(r)
      else if !HeadAt(r, previous) then Fail(HeadMoved)
      else if checkpoint.branch == previous.branch then Ok(BranchMovedTo(r, checkpoint.branch, checkpoint.head))
      else if Tip(r.heads, checkpoint.branch) == checkpoint.head then Ok(r)
      else if checkpoint.branch in r.heads then Fail(BranchMoved)
      else Ok(BranchMovedTo(r, checkpoint.branch, checkpoint.head))
    case SwitchHead =>
      if !MovesHead(input) then Ok(r)
      else if r.head.Detached? then Fail(DetachedHead)
      else if HeadAt(r, checkpoint) then Ok(r)
      else if !HeadAt(r, previous) then Fail(HeadMoved)
      else if Tip(r.heads, checkpoint.branch) != checkpoint.head then Fail(BranchMoved)
      else Ok(r.(head := OnBranch(checkpoint.branch)))
    case Smudge(p) =>
      var wanted := Wanted(input, p);
      if wanted.None? then Ok(r)
      else if p !in r.worktree then Fail(MissingFile)
      else if ParsePointer(r.worktree[p].blob) != wanted then Ok(r)
      else if !Cached(r, wanted.value) then Fail(MissingObject)
      else Ok(r.(worktree := r.worktree[p := r.worktree[p].(blob := wanted.value.oid)]))
  }

  datatype Outcome = Outcome(repo: Repo, error: Option<Error>)

  /** The steps in order, up to the first that fails. */
  function Run(input: Input, steps: seq<Step>, r: Repo): Outcome {
    if steps == [] then Outcome(r, None)
    else match Exec(input, steps[0], r)
      case Fail(error) => Outcome(r, Some(error))
      case Ok(next) => Run(input, steps[1..], next)
  }

  function Fetches(needed: seq<LfsObject>): seq<Step> {
    seq(|needed|, i requires 0 <= i < |needed| => Fetch(needed[i]))
  }

  function Smudges(files: seq<Path>): seq<Step> {
    seq(|files|, i requires 0 <= i < |files| => Smudge(files[i]))
  }

  /** Everything before the last stage. */
  function Install(input: Input): seq<Step> {
    Fetches(input.needed) + [Expand, ApplyPatch, MergeIndex, MoveBranch, SwitchHead]
  }

  /** `applyGitCacheCheckpoint`, command by command, up to the refresh of the index that ends it. */
  function Program(input: Input): seq<Step> {
    Install(input) + Smudges(input.files)
  }

  /** The files one run of the last stage wrote: a payload is never the pointer it replaces. */
  function Written(before: Tree, after: Tree): set<Path> {
    set p | p in after && At(before, p) != At(after, p)
  }

  /** `refreshIndexStat`: re-adds the written files whose entry is still the checkpoint's pointer. */
  function RefreshedIn(input: Input, r: Repo, written: set<Path>): Repo {
    if r.index.None? then r
    else r.(index := Some(Refreshed(r.index.value, r.worktree, written, input.checkpoint.worktree.tree, input.clean)))
  }

  /** The last stage: `checkoutGitLfs`.  What it has written is only remembered while it runs. */
  function Hydrate(input: Input, r: Repo): Outcome {
    var done := Run(input, Smudges(input.files), r);
    if done.error.Some? then done else Outcome(RefreshedIn(input, done.repo, Written(r.worktree, done.repo.worktree)), None)
  }

  /** The whole apply. */
  function Applied(input: Input, r: Repo): Outcome {
    var installed := Run(input, Install(input), r);
    if installed.error.Some? then installed else Hydrate(input, installed.repo)
  }

  lemma {:induction false} RunAppend(input: Input, a: seq<Step>, b: seq<Step>, r: Repo)
    ensures Run(input, a + b, r) == var first := Run(input, a, r); if first.error.Some? then first else Run(input, b, first.repo)
    decreases |a|
  {
    if a == [] {
      assert a + b == b;
    } else {
      assert (a + b)[1..] == a[1..] + b;
      match Exec(input, a[0], r)
      case Fail(_) =>
      case Ok(next) => RunAppend(input, a[1..], b, next);
    }
  }

  /** An LFS payload is not the pointer that names it. */
  lemma PayloadIsNoSuchPointer(payload: LfsObject)
    ensures ParsePointer(payload.oid) != Some(payload)
  {
    if payload.oid.Pointer? {
      assert payload.oid.target < payload.oid;
    }
  }

  /** How a step that ran from `r` ends. */
  function Ended(result: Result, r: Repo): Outcome {
    if result.Ok? then Outcome(result.repo, None) else Outcome(r, Some(result.error))
  }

  lemma RunOne(input: Input, a: Step, r: Repo)
    ensures Run(input, [a], r) == Ended(Exec(input, a, r), r)
  {
    assert [a][1..] == [];
  }

  lemma RunPair(input: Input, a: Step, b: Step, r: Repo)
    ensures var first := Exec(input, a, r);
            Run(input, [a, b], r) == if first.Fail? then Ended(first, r) else Ended(Exec(input, b, first.repo), first.repo)
  {
    assert [a, b][1..] == [b];
    var first := Exec(input, a, r);
    if first.Ok? { RunOne(input, b, first.repo); }
  }

  ghost function Then(input: Input, first: Outcome, steps: seq<Step>): Outcome {
    if first.error.Some? then first else Run(input, steps, first.repo)
  }

  lemma SplitInstall(input: Input, r: Repo)
    ensures Run(input, Install(input), r) ==
              Then(input, Then(input, Then(input, Run(input, Fetches(input.needed), r), [Expand, ApplyPatch]), [MergeIndex]), [MoveBranch, SwitchHead])
  {
    var a, b, c, d := Fetches(input.needed), [Expand, ApplyPatch], [MergeIndex], [MoveBranch, SwitchHead];
    assert Install(input) == a + b + c + d;
    RunAppend(input, a + b + c, d, r);
    RunAppend(input, a + b, c, r);
    RunAppend(input, a, b, r);
  }

  // ------------------------------------------------------------------ the program itself

  /** The fetch steps are `hydrateGitLfs`. */
  lemma {:induction false} FetchesAre(input: Input, needed: seq<LfsObject>, r: Repo)
    ensures var (cache, ok) := FetchAll(r.cache, needed, input.store);
            Run(input, Fetches(needed), r) == Outcome(r.(cache := cache), if ok then None else Some(MissingObject))
    decreases |needed|
  {
    if needed != [] {
      assert Fetches(needed)[1..] == Fetches(needed[1..]);
      var next := Exec(input, Fetch(needed[0]), r);
      assert needed[0].oid in r.cache ==> r.cache + {needed[0].oid} == r.cache;
      if next.Ok? { FetchesAre(input, needed[1..], next.repo); }
    }
  }

  /** Builds both trees and applies their difference, or finds it already applied. */
  method ApplyDelta(c: Checkout, input: Input) returns (error: Option<Error>)
    modifies c`worktree
    ensures Outcome(c.State(), error) == Run(input, [Expand, ApplyPatch], old(c.State()))
  {
    RunPair(input, Expand, ApplyPatch, c.State());
    if exists o :: o in input.Payloads() && !(o.oid in c.cache && o.Genuine()) { return Some(MissingObject); }
    var before, after, delta := input.Before(), input.After(), input.Changes();
    if delta != {} {
      if Applies(c.worktree, before, after, delta) {
        c.worktree := Apply(c.worktree, before, after, delta);
      } else if !Applies(c.worktree, after, before, delta) {
        return Some(PatchConflict);
      }
    }
    error := None;
  }

  /** `read-tree -i -m previous checkpoint`. */
  method MergeIndexes(c: Checkout, input: Input) returns (error: Option<Error>)
    modifies c`index
    ensures Outcome(c.State(), error) == Run(input, [MergeIndex], old(c.State()))
  {
    RunOne(input, MergeIndex, c.State());
    var merged := TwoTreeMerge(c.index, input.previous.index.tree, input.checkpoint.index.tree);
    if merged.None? { return Some(IndexConflict); }
    c.index := merged;
    error := None;
  }

  /** Moves the branch and HEAD by compare-and-swap, unless they are there already. */
  method MoveHead(c: Checkout, input: Input) returns (error: Option<Error>)
    modifies c`head, c`heads
    ensures Outcome(c.State(), error) == Run(input, [MoveBranch, SwitchHead], old(c.State()))
  {
    RunPair(input, MoveBranch, SwitchHead, c.State());
    var checkpoint, previous := input.checkpoint, input.previous;
    if checkpoint.head == previous.head && checkpoint.branch == previous.branch { return None; }
    if c.head.Detached? { return Some(DetachedHead); }
    var branch, commit := c.head.name, Tip(c.heads, c.head.name);
    if commit == checkpoint.head && branch == checkpoint.branch { return None; }
    if commit != previous.head || branch != previous.branch { return Some(HeadMoved); }
    var target := checkpoint.branch;
    if target == previous.branch {
      if checkpoint.head.Some? {
        c.heads := c.heads[target := checkpoint.head.value];
      } else {
        c.heads := c.heads - {target};
      }
    } else {
      if target in c.heads && checkpoint.head != Some(c.heads[target]) { return Some(BranchMoved); }
      if target !in c.heads && checkpoint.head.Some? { c.heads := c.heads[target := checkpoint.head.value]; }
      c.head := OnBranch(target);
    }
    error := None;
  }

  /** `checkoutGitLfs` with protected paths: only the exact incoming pointer is hydrated, and what was
      hydrated is re-added to the index. */
  method CheckoutLfs(c: Checkout, input: Input) returns (error: Option<Error>)
    modifies c`worktree, c`index
    ensures Outcome(c.State(), error) == Hydrate(input, old(c.State()))
  {
    ghost var steps := Smudges(input.files);
    var tree := input.checkpoint.worktree.tree;
    var written: set<Path> := {};
    var i := 0;
    while i < |input.files|
      invariant 0 <= i <= |input.files|
      invariant c.index == old(c.index)
      invariant Run(input, steps[i..], c.State()) == Run(input, steps, old(c.State()))
      invariant written == Written(old(c.worktree), c.worktree)
      invariant forall p :: p in written ==> Wanted(input, p).Some? && c.worktree[p].blob == Wanted(input, p).value.oid
    {
      var path := input.files[i];
      assert steps[i..][0] == Smudge(path) && steps[i..][1..] == steps[i + 1..];
      i := i + 1;
      if path !in tree || path in input.Protected() || tree[path].mode == Symlink { continue; }
      var wanted := ParsePointer(tree[path].blob);
      if wanted.None? { continue; }
      if path !in c.worktree { return Some(MissingFile); }
      if ParsePointer(c.worktree[path].blob) != wanted { continue; }
      if !(wanted.value.oid in c.cache && wanted.value.Genuine()) { return Some(MissingObject); }
      PayloadIsNoSuchPointer(wanted.value);
      c.worktree := c.worktree[path := c.worktree[path].(blob := wanted.value.oid)];
      written := written + {path};
    }
    c.RefreshIndex(tree, written, input.clean);
    error := None;
  }

  /** `needed` and `files` are what the program collects and lists: the objects each checkpoint requires
      by oid, and every path of the incoming tree. */
  ghost predicate Collected(input: Input, cut: set<Commit>, previous: map<Content, LfsObject>, checkpoint: map<Content, LfsObject>,
                            required: map<Content, LfsObject>, wanted: map<Content, LfsObject>)
  {
    && H.Requires(input.previous.worktree, cut, previous, required) && H.Keyed(required)
    && H.Requires(input.checkpoint.worktree, cut, checkpoint, wanted) && H.Keyed(wanted)
    && (forall o :: o in input.needed <==> H.Collected(o, required) || H.Collected(o, wanted))
    && Paths(input.files) == input.checkpoint.worktree.tree.Keys
  }

  /** The whole apply: it collects what the two checkpoints require and lists the incoming tree, and runs
      the commands.  `placed` and `incoming` are the two snapshots' own objects. */
  method ApplyCacheCheckpoint(c: Checkout, previous: Checkpoint, checkpoint: Checkpoint, cut: set<Commit>,
                              placed: map<Content, LfsObject>, incoming: map<Content, LfsObject>, store: set<LfsObject>,
                              clean: (Path, Content) -> Content)
    returns (error: Option<Error>, input: Input, ghost required: map<Content, LfsObject>, ghost wanted: map<Content, LfsObject>)
    requires H.Keyed(placed) && H.Keyed(incoming)
    modifies c
    ensures input.previous == previous && input.checkpoint == checkpoint && input.store == store && input.clean == clean
    ensures Collected(input, cut, placed, incoming, required, wanted)
    ensures Outcome(c.State(), error) == Applied(input, old(c.State()))
  {
    var first, second;
    first, required := H.Collect(previous.worktree, cut, placed);
    second, wanted := H.Collect(checkpoint.worktree, cut, incoming);
    var files := ListTree(checkpoint.worktree.tree);
    input := Input(previous, checkpoint, first + second, files, store, clean);
    error := ApplyCollected(c, input);
  }

  method ApplyCollected(c: Checkout, input: Input) returns (error: Option<Error>)
    modifies c
    ensures Outcome(c.State(), error) == Applied(input, old(c.State()))
  {
    SplitInstall(input, c.State());
    FetchesAre(input, input.needed, c.State());
    var hydrated := c.HydrateObjects(input.needed, input.store);
    if !hydrated { return Some(MissingObject); }
    error := ApplyDelta(c, input);
    if error.Some? { return; }
    error := MergeIndexes(c, input);
    if error.Some? { return; }
    error := MoveHead(c, input);
    if error.Some? { return; }
    error := CheckoutLfs(c, input);
  }
}
