/** The git commands the checkpoint programs are made of, as functions on trees, indexes and
    worktrees by path. */
module GitCommands {
  import opened Objects

  // ------------------------------------------------------------------ read-tree, reset, add

  /** `read-tree --reset -u tree`: tracked files not in `tree` go, every file of `tree` is written. */
  function CheckedOut(worktree: Tree, index: Tree, tree: Tree): Tree {
    (worktree - index.Keys) + tree
  }

  /** `add -u`: every tracked path takes the worktree's file, or goes. */
  function Updated(index: Tree, worktree: Tree): Tree {
    map p | p in index && p in worktree :: worktree[p]
  }

  /** `add -- paths`. */
  function AddedPaths(index: Tree, worktree: Tree, paths: set<Path>): Tree {
    index + map p | p in paths && p in worktree :: worktree[p]
  }

  /** `ls-files --others --exclude-standard`. */
  function Others(index: Tree, worktree: Tree, ignored: iset<Path>): set<Path> {
    set p | p in worktree && p !in index && p !in ignored
  }

  function Paths(files: seq<Path>): set<Path> {
    set p | p in files
  }

  /** `ls-tree -r`: every path of a tree. */
  method ListTree(tree: Tree) returns (files: seq<Path>)
    ensures Paths(files) == tree.Keys
  {
    files := [];
    var todo := tree.Keys;
    while todo != {}
      invariant todo <= tree.Keys && Paths(files) == tree.Keys - todo
    {
      var path: Path :| path in todo;
      ghost var before := files;
      files := files + [path];
      assert Paths(files) == Paths(before) + {path};
      todo := todo - {path};
    }
  }

  // ------------------------------------------------------------------ two-tree merge

  datatype Merged = Take(entry: Option<Entry>) | Conflict

  /** One path of `read-tree -i -m H M` (git-read-tree(1), "Two Tree Merge").  `-i` never looks at
      the worktree, so every entry counts as clean.  `initial` is an index that does not exist: it
      takes the new tree's entry, where the manual's case 3 speaks of equal trees only. */
  function MergePath(i: Option<Entry>, h: Option<Entry>, m: Option<Entry>, initial: bool): Merged {
    if i.None? then
      if h.None? then Take(m)                                               // cases 0 and 1
      else if m.None? then Take(None)                                       // case 2
      else if initial then Take(m)                                          // case 3
      else if h == m then Take(None) else Conflict
    else if h.None? then
      if m.None? || i == m then Take(i) else Conflict                       // cases 4 to 9
    else if m.None? then
      if i == h then Take(None) else Conflict                               // cases 10 to 13
    else if h == m || i == m then Take(i)                                   // cases 14, 15, 18, 19
    else if i == h then Take(m)                                             // case 20
    else Conflict                                                           // cases 16, 17, 21
  }

  /** Read as a three-way merge: what the trees agree on stays as staged, a change is made where the
      index still holds the old entry or already the new one, and anything else is a conflict.  An
      index that does not exist becomes the new tree. */
  lemma MergeIsThreeWay(i: Option<Entry>, h: Option<Entry>, m: Option<Entry>)
    ensures MergePath(i, h, m, false) == if h == m then Take(i) else if i == h || i == m then Take(m) else Conflict
    ensures MergePath(None, h, m, true) == Take(m)
  {
  }

  function Entries(index: Option<Tree>): Tree {
    if index.None? then map[] else index.value
  }

  function MergeAt(index: Option<Tree>, h: Tree, m: Tree, p: Path): Merged {
    MergePath(At(Entries(index), p), At(h, p), At(m, p), index.None?)
  }

  /** The whole merge, or none of it. */
  function TwoTreeMerge(index: Option<Tree>, h: Tree, m: Tree): Option<Tree> {
    var paths := Entries(index).Keys + h.Keys + m.Keys;
    if exists p :: p in paths && MergeAt(index, h, m, p).Conflict? then None
    else Some(map p | p in paths && MergeAt(index, h, m, p).entry.Some? :: MergeAt(index, h, m, p).entry.value)
  }

  lemma MergedAt(index: Option<Tree>, h: Tree, m: Tree, p: Path)
    requires TwoTreeMerge(index, h, m).Some?
    ensures MergeAt(index, h, m, p) == Take(At(TwoTreeMerge(index, h, m).value, p))
  {
  }

  /** Merging twice is merging once, and entries the two trees agree on stay as they were. */
  lemma MergeAgain(index: Option<Tree>, h: Tree, m: Tree)
    requires TwoTreeMerge(index, h, m).Some?
    ensures var after := TwoTreeMerge(index, h, m);
            && TwoTreeMerge(after, h, m) == after
            && forall p :: At(h, p) == At(m, p) && index.Some? ==> At(after.value, p) == At(index.value, p)
  {
    var after := TwoTreeMerge(index, h, m);
    forall p ensures MergeAt(after, h, m, p) == Take(At(after.value, p)) {
      MergedAt(index, h, m, p);
    }
    var again := TwoTreeMerge(after, h, m);
    assert again.Some?;
    forall p ensures At(again.value, p) == At(after.value, p) {
      MergedAt(after, h, m, p);
    }
    SameTree(again.value, after.value);
    forall p | At(h, p) == At(m, p) && index.Some? ensures At(after.value, p) == At(index.value, p) {
      MergedAt(index, h, m, p);
    }
  }

  lemma SameTree(a: Tree, b: Tree)
    requires forall p :: At(a, p) == At(b, p)
    ensures a == b
  {
    forall p ensures p in a <==> p in b {
      assert At(a, p) == At(b, p);
    }
    forall p | p in a ensures a[p] == b[p] {
      assert At(a, p) == At(b, p);
    }
  }

  // ------------------------------------------------------------------ update-index

  /** `update-index --stdin` re-adds the file at `p`: what its content cleans to, in the file's own
      mode. */
  function ReAdded(file: Entry, p: Path, clean: (Path, Content) -> Content): Entry {
    Entry(file.mode, clean(p, file.blob))
  }

  /** The index after re-adding those of `paths` whose entry still has `tree`'s blob. */
  function Refreshed(index: Tree, worktree: Tree, paths: set<Path>, tree: Tree, clean: (Path, Content) -> Content): Tree {
    map p | p in index :: if ReAdds(index, worktree, paths, tree, p) then ReAdded(worktree[p], p, clean) else index[p]
  }

  predicate ReAdds(index: Tree, worktree: Tree, paths: set<Path>, tree: Tree, p: Path) {
    p in paths && p in worktree && p in tree && p in index && index[p].blob == tree[p].blob
  }

  // ------------------------------------------------------------------ apply

  /** A patch that changes a path's existence or its type rewrites all of it. */
  predicate Rewrites(from: Option<Entry>, other: Option<Entry>) {
    from.None? || other.None? || !SameType(from.value.mode, other.value.mode)
  }

  /** Executable or not is no type: only a symlink is another type than a regular file. */
  predicate SameType(a: Mode, b: Mode) {
    a.Symlink? == b.Symlink?
  }

  /** A patch names what it changes of a path.  It fits a file of the type of `from` that holds the
      changed content as `from` has it.  Of the executable bit `git apply` only warns. */
  predicate Holds(file: Option<Entry>, from: Option<Entry>, other: Option<Entry>) {
    if from.None? then file.None?
    else
      && file.Some? && SameType(file.value.mode, from.value.mode)
      && (Rewrites(from, other) || from.value.blob != other.value.blob ==> file.value.blob == from.value.blob)
  }

  /** The patch changes no more than the executable bit. */
  predicate ModeOnly(from: Option<Entry>, other: Option<Entry>) {
    !Rewrites(from, other) && from.value.blob == other.value.blob
  }

  function Patched(file: Option<Entry>, from: Option<Entry>, other: Option<Entry>): (after: Option<Entry>)
    requires Holds(file, from, other)
    ensures Holds(after, other, from)
    ensures from != other ==> (Holds(after, from, other) <==> ModeOnly(from, other))
    ensures other.None? ==> after.None?
    ensures other.Some? && from.Some? && from.value.mode == other.value.mode ==>
              after.value.mode == file.value.mode
    ensures other.Some? && (from.None? || from.value.mode != other.value.mode) ==> after.value.mode == other.value.mode
    ensures ModeOnly(from, other) ==> after.value.blob == file.value.blob
  {
    if Rewrites(from, other) then other
    else Some(Entry(if from.value.mode != other.value.mode then other.value.mode else file.value.mode,
                    if from.value.blob != other.value.blob then other.value.blob else file.value.blob))
  }

  /** The paths a patch from `before` to `after` names. */
  function Delta(before: Tree, after: Tree, excluded: set<Path>): set<Path> {
    set p | p in before.Keys + after.Keys - excluded && At(before, p) != At(after, p)
  }

  predicate Applies(worktree: Tree, before: Tree, after: Tree, delta: set<Path>) {
    forall p :: p in delta ==> Holds(At(worktree, p), At(before, p), At(after, p))
  }

  /** `git apply`: every named path holds its preimage, and the whole patch is applied. */
  function Apply(worktree: Tree, before: Tree, after: Tree, delta: set<Path>): (patched: Tree)
    requires Applies(worktree, before, after, delta)
    ensures forall p :: At(patched, p) == if p in delta then Patched(At(worktree, p), At(before, p), At(after, p)) else At(worktree, p)
  {
    map p | p in worktree.Keys + after.Keys &&
            (if p in delta then Patched(At(worktree, p), At(before, p), At(after, p)) else At(worktree, p)).Some?
         :: (if p in delta then Patched(At(worktree, p), At(before, p), At(after, p)) else At(worktree, p)).value
  }
}
