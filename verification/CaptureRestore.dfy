/** Capturing a checkout as layered commits, and putting a checkout back to what was captured
    (`createGitIntermediateCheckpoint`, `restoreGitIntermediateCheckpoint`, `resetGitWorktree` and
    `mergeGitBackupIntoWorktree` in `git-checkpoint.ts`). */
module CaptureRestore {
  import opened Objects
  import opened CommitGraph
  import opened GitCommands
  import opened Checkouts
  import opened LfsCapture
  import opened LfsHydration
  import LfsInventory
  import LfsPins
  import SizeGate

  /** A captured checkpoint: HEAD, and one commit a layer. */
  datatype Captured = Captured(head: Option<Commit>, branch: Branch, index: Commit, tracked: Commit, worktree: Commit)

  function HeadTree(head: Option<Commit>): Tree {
    if head.None? then map[] else head.value.tree
  }

  function ParentOf(head: Option<Commit>): seq<Commit> {
    if head.None? then [] else [head.value]
  }

  // ------------------------------------------------------------------ capture

  /** What a capture of `r` may be: each layer is what its pass made of the one below, updated
      from the worktree. */
  ghost predicate Captures(a: Authority, r: Repo, ignored: iset<Path>, k: Captured, objects: map<Content, Placed>, held: map<Path, HeldKind>) {
    var index := Entries(r.index);
    && r.head == OnBranch(k.branch) && k.head == Tip(r.heads, k.branch) && a.head == HeadTree(k.head)
    && PassDone(a, index, StagedPass, k.index.tree, objects, held)
    && PassDone(a, Updated(k.index.tree, r.worktree), ModifiedPass, k.tracked.tree, objects, held)
    && PassDone(a, AddedPaths(k.tracked.tree, r.worktree, Others(index, r.worktree, ignored)), AddedPass, k.worktree.tree, objects, held)
    && k.index.parents == ParentOf(k.head) && k.tracked.parents == [k.index] && k.worktree.parents == [k.tracked]
  }

  /** A capture's commits are the single-parent layers the size gate relies on, and no layer
      carries an LFS change whose object the snapshot does not place. */
  lemma CaptureLayers(a: Authority, r: Repo, ignored: iset<Path>, k: Captured, objects: map<Content, Placed>, held: map<Path, HeldKind>)
    requires Captures(a, r, ignored, k, objects, held)
    ensures SizeGate.Layered(k.worktree, k.head)
    ensures LayerClosed(a, k.index.tree, objects.Keys) && LayerClosed(a, k.tracked.tree, objects.Keys) && LayerClosed(a, k.worktree.tree, objects.Keys)
  {
    PassCloses(a, Entries(r.index), StagedPass, k.index.tree, objects, held);
    PassCloses(a, Updated(k.index.tree, r.worktree), ModifiedPass, k.tracked.tree, objects, held);
    PassCloses(a, AddedPaths(k.tracked.tree, r.worktree, Others(Entries(r.index), r.worktree, ignored)), AddedPass, k.worktree.tree, objects, held);
  }

  /** The objects HEAD's history needs are placed. */
  ghost predicate HistoryPlaced(head: Option<Commit>, cut: set<Commit>, objects: map<Content, Placed>) {
    head.Some? ==> LfsInventory.FullScan(head.value, cut) <= objects.Keys
  }

  /** Every pointer under LFS in a layer, HEAD's own included, has its object placed. */
  ghost predicate PointersPlaced(a: Authority, layer: Tree, placed: set<Content>) {
    forall p :: p in layer && a.Governs(p) && ParsePointer(layer[p].blob).Some? ==> ParsePointer(layer[p].blob).value.oid in placed
  }

  /** So a snapshot that places HEAD's history lists an object for every pointer of every layer. */
  lemma LayersPlaced(a: Authority, r: Repo, ignored: iset<Path>, k: Captured, objects: map<Content, Placed>, held: map<Path, HeldKind>, cut: set<Commit>)
    requires Captures(a, r, ignored, k, objects, held) && HistoryPlaced(k.head, cut, objects)
    ensures PointersPlaced(a, k.index.tree, objects.Keys) && PointersPlaced(a, k.tracked.tree, objects.Keys) && PointersPlaced(a, k.worktree.tree, objects.Keys)
  {
    CaptureLayers(a, r, ignored, k, objects, held);
    LayerPlaced(a, k.head, k.index.tree, objects, cut);
    LayerPlaced(a, k.head, k.tracked.tree, objects, cut);
    LayerPlaced(a, k.head, k.worktree.tree, objects, cut);
  }

  lemma LayerPlaced(a: Authority, head: Option<Commit>, layer: Tree, objects: map<Content, Placed>, cut: set<Commit>)
    requires a.head == HeadTree(head) && HistoryPlaced(head, cut, objects) && LayerClosed(a, layer, objects.Keys)
    ensures PointersPlaced(a, layer, objects.Keys)
  {
    forall p | p in layer && a.Governs(p) && ParsePointer(layer[p].blob).Some? ensures ParsePointer(layer[p].blob).value.oid in objects {
      if !a.Changed(layer, p) {
        assert head.value in Ancestors(head.value, cut);
        assert layer[p].blob in Blobs(Ancestors(head.value, cut));
        assert ParsePointer(layer[p].blob).value.oid in LfsInventory.FullScan(head.value, cut);
      }
    }
  }

  /** The paths HEAD's attributes put under LFS, and those only edited ones do. */
  datatype Attributes = Attributes(governed: set<Path>, edited: set<Path>)

  method ListObjects(objects: map<Content, LfsObject>) returns (listed: seq<LfsObject>)
    requires Keyed(objects)
    ensures ObjectIds(listed) == objects.Keys && forall o :: o in listed ==> objects[o.oid] == o
  {
    listed := [];
    var todo := objects.Keys;
    while todo != {}
      invariant todo <= objects.Keys && ObjectIds(listed) == objects.Keys - todo
      invariant forall o :: o in listed ==> o.oid in objects && objects[o.oid] == o
    {
      var oid: Content :| oid in todo;
      ghost var before := listed;
      listed := listed + [objects[oid]];
      assert ObjectIds(listed) == ObjectIds(before) + {oid};
      todo := todo - {oid};
    }
  }

  /** The three passes over a temporary index. */
  method CaptureLayered(c: Checkout, lfs: LfsSnapshot, head: Option<Commit>, branch: Branch, ignored: iset<Path>, message: string)
    returns (k: Captured, ok: bool)
    requires lfs.Valid() && lfs.authority.history <= lfs.objects.Keys && lfs.authority.head == HeadTree(head)
    requires c.head == OnBranch(branch) && head == Tip(c.heads, branch)
    modifies lfs`objects, lfs`heldBack, lfs.publisher`pinned, lfs.publisher.account`log
    ensures lfs.Valid() && lfs.Grown(old(lfs.objects), old(lfs.heldBack))
    ensures ok ==> Captures(lfs.authority, c.State(), ignored, k, lfs.objects, lfs.heldBack) && k.head == head
    ensures ok <==> forall p :: p in Entries(c.index) ==> !lfs.authority.Unrecoverable(Entries(c.index), p, StagedPass)
    ensures c.State() == old(c.State())
  {
    var a := lfs.authority;
    var none := Commit(map[], [], message);
    k := Captured(None, "", none, none, none);
    var temporary := Entries(c.index);
    var staged, tracked, portable;
    staged, ok := lfs.Sanitize(temporary, StagedPass);
    if !ok { return; }
    label Staged:
    var index := Commit(staged, ParentOf(head), message);
    tracked, ok := lfs.Sanitize(Updated(staged, c.worktree), ModifiedPass);
    if !ok { return; }
    PassGrows(a, temporary, StagedPass, staged, old@Staged(lfs.objects), old@Staged(lfs.heldBack), lfs.objects, lfs.heldBack);
    label Modified:
    var discovered := Others(Entries(c.index), c.worktree, ignored);
    portable, ok := lfs.Sanitize(AddedPaths(tracked, c.worktree, discovered), AddedPass);
    if !ok { return; }
    PassGrows(a, temporary, StagedPass, staged, old@Modified(lfs.objects), old@Modified(lfs.heldBack), lfs.objects, lfs.heldBack);
    PassGrows(a, Updated(staged, c.worktree), ModifiedPass, tracked, old@Modified(lfs.objects), old@Modified(lfs.heldBack), lfs.objects, lfs.heldBack);
    var trackedCommit := Commit(tracked, [index], message);
    k := Captured(head, branch, index, trackedCommit, Commit(portable, [trackedCommit], message));
  }

  /** Captures the checkout: places HEAD's history, then makes the layers.  It reads the real index and
      worktree and changes neither.  `extra` are older blobs Git may list, `uploads` the oids whose upload
      arrives, `reported` those it also reports. */
  method CreateIntermediateCheckpoint(c: Checkout, inventory: LfsInventory.Inventory, publisher: LfsPins.Publisher, committed: map<Content, Placed>,
                                      attributes: Attributes, origin: set<LfsObject>, uploads: set<Content>, reported: set<Content>, extra: set<Content>,
                                      ignored: iset<Path>, message: string)
    returns (k: Captured, ghost a: Authority, objects: map<Content, Placed>, held: map<Path, HeldKind>,
             ghost history: map<Content, LfsObject>, ok: bool)
    requires inventory.Valid() && publisher.Valid() && forall oid :: oid in committed ==> committed[oid].lfs.oid == oid
    modifies inventory`saved, publisher`pinned, publisher.account
    ensures inventory.Valid() && publisher.Valid()
    ensures ok ==> Captures(a, c.State(), ignored, k, objects, held) && HistoryPlaced(k.head, inventory.cut, objects)
    ensures ok ==> a.governed == attributes.governed && a.edited == attributes.edited && a.origin == origin && a.cache == c.cache
    ensures c.head.OnBranch? ==> a.stored == old(publisher.account.held) && a.history == history.Keys
    ensures ok && k.head.Some? ==>
              history.Keys == LfsInventory.FullScan(k.head.value, inventory.cut) && LfsInventory.Scanned(Blobs(Ancestors(k.head.value, inventory.cut)), history)
    ensures ok && k.head.None? ==> history == map[]
    ensures ok ==> forall p :: p in c.worktree && Portable(c.State(), ignored, p) && !StagedOut(a, c.State(), p) && a.Available(c.worktree[p].blob) ==>
              At(k.worktree.tree, p) == At(c.worktree, p)
    ensures ok <==> && c.head.OnBranch? && (forall oid :: oid in history ==> a.Placeable(history[oid], committed, uploads))
                    && forall p :: p in Entries(c.index) ==> !a.Unrecoverable(Entries(c.index), p, StagedPass)
    ensures c.State() == old(c.State())
  {
    var none := Commit(map[], [], message);
    k, objects, held, history, ok := Captured(None, "", none, none, none), map[], map[], map[], false;
    var head := if c.head.OnBranch? then Tip(c.heads, c.head.name) else None;
    a := *;
    if c.head.Detached? { return; }
    var pointers, _ := inventory.Committed(head, extra);
    history := pointers;
    var authority := Authority(HeadTree(head), attributes.governed, attributes.edited, origin, c.cache, pointers.Keys, publisher.account.held);
    a := authority;
    var listed := ListObjects(pointers);
    var lfs := new LfsSnapshot(authority, publisher, committed);
    ok := lfs.PlaceHistory(listed, uploads, reported);
    if !ok { return; }
    k, ok := CaptureLayered(c, lfs, head, c.head.name, ignored, message);
    objects, held := lfs.objects, lfs.heldBack;
    if ok {
      forall p | p in c.worktree && Portable(c.State(), ignored, p) && !StagedOut(a, c.State(), p) && a.Available(c.worktree[p].blob)
        ensures At(k.worktree.tree, p) == At(c.worktree, p)
      {
        LayerIs(a, c.State(), ignored, k, objects, held, p);
      }
    }
  }

  // ------------------------------------------------------------------ restore

  predicate BranchChar(c: char) {
    'A' <= c <= 'Z' || 'a' <= c <= 'z' || '0' <= c <= '9' || c in "._/-"
  }

  predicate ValidBranch(branch: Branch) {
    && branch != "" && branch[0] != '/'
    && (forall i :: 0 <= i < |branch| ==> BranchChar(branch[i]))
    && (forall i :: 0 <= i < |branch| - 1 ==> !(branch[i] == '.' && branch[i + 1] == '.'))
  }

  /** The ASCII codes of digits, letters and the four signs a branch name may have. */
  predicate BranchCode(n: int) {
    48 <= n <= 57 || 65 <= n <= 90 || 97 <= n <= 122 || n in {45, 46, 47, 95}
  }

  lemma TwoDots(branch: Branch)
    ensures (exists i :: 0 <= i < |branch| - 1 && branch[i] == '.' && branch[i + 1] == '.') <==> exists before, after :: branch == before + ".." + after
  {
    if i :| 0 <= i < |branch| - 1 && branch[i] == '.' && branch[i + 1] == '.' {
      assert branch == branch[..i] + ".." + branch[i + 2..];
    }
    forall before, after | branch == before + ".." + after
      ensures exists i :: 0 <= i < |branch| - 1 && branch[i] == '.' && branch[i + 1] == '.'
    {
      assert branch[|before|] == '.' && branch[|before| + 1] == '.';
    }
  }

  /** A branch is valid if and only if it is written in these codes, at least one of them, does not
      start with a slash and has no two dots together. */
  lemma ValidBranchIs(branch: Branch)
    ensures ValidBranch(branch) <==>
              && |branch| > 0 && (forall c :: c in branch ==> BranchCode(c as int))
              && (forall rest :: branch != "/" + rest) && forall before, after :: branch != before + ".." + after
  {
    forall i | 0 <= i < |branch| ensures branch[i] in branch && (BranchChar(branch[i]) <==> BranchCode(branch[i] as int)) {
    }
    if |branch| > 0 && branch[0] == '/' { assert branch == "/" + branch[1..]; }
    TwoDots(branch);
  }

  /** The files `checkoutGitLfs` leaves for a tree. */
  function Smudged(tree: Tree): Tree {
    map p | p in tree :: Smudge(tree[p])
  }

  /** The files `checkoutGitLfs` writes for a tree. */
  function HydratedPaths(tree: Tree): set<Path> {
    set p | p in tree && Hydrates(tree, p)
  }

  /** The index after the files of `tree` are hydrated and re-added.  `clean` is what the checkout's
      attributes and filters make of a file's content. */
  function ReAddedIndex(index: Tree, tree: Tree, clean: (Path, Content) -> Content): Tree {
    Refreshed(index, Smudged(tree), HydratedPaths(tree), tree, clean)
  }

  /** Re-adding moves the entry at `p`: it is the pointer hydrated there, and the payload cleans to
      something else or the file has another mode. */
  predicate Moves(entry: Option<Entry>, layer: Option<Entry>, p: Path, clean: (Path, Content) -> Content) {
    && entry.Some? && layer.Some? && entry.value.blob == layer.value.blob
    && layer.value.mode != Symlink && ParsePointer(layer.value.blob).Some?
    && (clean(p, ParsePointer(layer.value.blob).value.oid) != entry.value.blob || entry.value.mode != layer.value.mode)
  }

  /** An index entry is kept if and only if re-adding does not move it. */
  lemma EntryKept(index: Tree, tree: Tree, clean: (Path, Content) -> Content, p: Path)
    ensures At(ReAddedIndex(index, tree, clean), p) == At(index, p) <==> !Moves(At(index, p), At(tree, p), p, clean)
    ensures p in ReAddedIndex(index, tree, clean) <==> p in index
  {
  }

  /** The checkpoint's layers checked out, pointers and all: files the index or HEAD tracked are gone. */
  function LaidOut(r: Repo, k: Captured, branch: Branch): Repo {
    r.(worktree := (r.worktree - Entries(r.index).Keys - HeadTree(k.head).Keys) + k.worktree.tree,
       index := Some(k.index.tree),
       head := OnBranch(branch),
       heads := if k.head.None? then r.heads - {branch} else r.heads[branch := k.head.value])
  }

  /** Where a restore that succeeds leaves the checkout. */
  function Restored(r: Repo, k: Captured, branch: Branch, clean: (Path, Content) -> Content): Repo {
    LaidOut(r, k, branch).(worktree := LaidOut(r, k, branch).worktree + Smudged(k.worktree.tree),
                           index := Some(ReAddedIndex(k.index.tree, k.worktree.tree, clean)))
  }

  /** Some of the pointers of `tree` are hydrated, and nothing else has changed. */
  predicate PartlyHydrated(tree: Tree, before: Repo, after: Repo) {
    && after == before.(worktree := after.worktree) && after.worktree.Keys == before.worktree.Keys
    && forall p :: p in before.worktree ==>
         after.worktree[p] == before.worktree[p] || (Hydrates(tree, p) && after.worktree[p] == Smudge(before.worktree[p]))
  }

  datatype Failure = InvalidBranch | MissingObject

  /** Replaces the pointers of `tree` in the worktree by their payloads; it fails exactly when one of
      them is not cached. */
  method WritePayloads(c: Checkout, tree: Tree) returns (written: set<Path>, ok: bool)
    requires forall p :: p in tree ==> p in c.worktree && c.worktree[p] == tree[p]
    modifies c`worktree
    ensures ok ==> c.worktree == old(c.worktree) + Smudged(tree) && written == HydratedPaths(tree)
    ensures !ok ==> PartlyHydrated(tree, old(c.State()), c.State())
    ensures ok <==> forall p :: Hydrates(tree, p) ==> InCache(c.cache, ParsePointer(tree[p].blob).value)
  {
    var files := ListTree(tree);
    written, ok := {}, true;
    var i := 0;
    while i < |files|
      invariant 0 <= i <= |files| && ok
      invariant forall p :: p in old(c.worktree) + Smudged(tree) <==> p in c.worktree
      invariant forall p :: p in c.worktree && p !in tree ==> c.worktree[p] == old(c.worktree)[p]
      invariant forall p :: p in tree ==> c.worktree[p] == if p in files[..i] then Smudged(tree)[p] else tree[p]
      invariant forall p :: p in files[..i] && Hydrates(tree, p) ==> InCache(c.cache, ParsePointer(tree[p].blob).value)
      invariant forall p :: p in written <==> p in files[..i] && Hydrates(tree, p)
    {
      var path := files[i];
      assert path in Paths(files);
      assert files[..i + 1] == files[..i] + [path];
      i := i + 1;
      if tree[path].mode == Symlink { continue; }
      var wanted := ParsePointer(tree[path].blob);
      if wanted.None? { continue; }
      if !(wanted.value.oid in c.cache && wanted.value.Genuine()) {
        assert Hydrates(tree, path);
        ok := false;
        return;
      }
      c.worktree := c.worktree[path := tree[path].(blob := wanted.value.oid)];
      written := written + {path};
    }
    assert files[..i] == files;
    forall p | p in tree ensures p in files {
      assert p in Paths(files);
    }
    assert written == HydratedPaths(tree);
  }

  /** Replaces the pointers of `tree` in the worktree by their payloads and re-adds them; it fails
      exactly when one of them is not cached. */
  method CheckoutPayloads(c: Checkout, tree: Tree, clean: (Path, Content) -> Content) returns (ok: bool)
    requires c.index.Some? && forall p :: p in tree ==> p in c.worktree && c.worktree[p] == tree[p]
    modifies c`worktree, c`index
    ensures ok ==> c.worktree == old(c.worktree) + Smudged(tree) && c.index == Some(ReAddedIndex(old(c.index).value, tree, clean))
    ensures !ok ==> PartlyHydrated(tree, old(c.State()), c.State())
    ensures ok <==> forall p :: Hydrates(tree, p) ==> InCache(c.cache, ParsePointer(tree[p].blob).value)
  {
    var written;
    written, ok := WritePayloads(c, tree);
    if !ok { return; }
    c.RefreshIndex(tree, written, clean);
    assert c.index.value == ReAddedIndex(old(c.index).value, tree, clean);
  }

  lemma CheckedOutTwice(worktree: Tree, index: Tree, head: Tree, tree: Tree)
    ensures CheckedOut(CheckedOut(worktree, index, head), head, tree) == (worktree - index.Keys - head.Keys) + tree
  {
  }

  /** Moves HEAD, the branch, the files and the index, pointers and all. */
  method CheckOutLayers(c: Checkout, k: Captured, branch: Branch)
    modifies c`head, c`heads, c`worktree, c`index
    ensures c.State() == LaidOut(old(c.State()), k, branch)
  {
    c.head := OnBranch(branch);
    if k.head.None? {
      c.heads := c.heads - {branch};
    } else {
      c.heads := c.heads[branch := k.head.value];
      CheckedOutTwice(c.worktree, Entries(c.index), k.head.value.tree, k.worktree.tree);
      c.worktree := CheckedOut(c.worktree, Entries(c.index), k.head.value.tree);
      c.index := Some(k.head.value.tree);
    }
    c.worktree := CheckedOut(c.worktree, Entries(c.index), k.worktree.tree);
    c.index := Some(k.index.tree);
  }

  /** Restores `k` on `branch`.  `placed` are the snapshot's own objects, `cut` the checkout's
      boundaries, `store` what can be downloaded. */
  method RestoreCheckpoint(c: Checkout, k: Captured, branch: Branch, cut: set<Commit>, placed: map<Content, LfsObject>, store: set<LfsObject>,
                           clean: (Path, Content) -> Content)
    returns (failure: Option<Failure>, needed: seq<LfsObject>, ghost required: map<Content, LfsObject>)
    requires Keyed(placed)
    modifies c
    ensures Requires(k.worktree, cut, placed, required) && Keyed(required) && Lists(needed, required)
    ensures failure == None ==>
              c.State() == Restored(old(c.State()), k, branch, clean).(cache := old(c.cache) + ObjectIds(needed))
    // A bad branch is found before anything changes, a missing object before HEAD, index or worktree do.
    ensures failure == Some(InvalidBranch) <==> !ValidBranch(branch)
    ensures !ValidBranch(branch) ==> c.State() == old(c.State())
    ensures !AllObtainable(old(c.cache), needed, store) ==> failure.Some? && c.State() == old(c.State()).(cache := c.cache)
    ensures old(c.cache) <= c.cache <= old(c.cache) + ObjectIds(needed)
    // After that it fails exactly when a pointer claims another size than was collected, checked out but
    // for what was still to be hydrated and re-added.
    ensures failure == None <==> ValidBranch(branch) && AllObtainable(old(c.cache), needed, store) && SizesAgree(k.worktree.tree, required)
    ensures ValidBranch(branch) && AllObtainable(old(c.cache), needed, store) && failure.Some? ==>
              PartlyHydrated(k.worktree.tree, LaidOut(old(c.State()), k, branch).(cache := c.cache), c.State())
  {
    needed, required := Collect(k.worktree, cut, placed);
    if !ValidBranch(branch) { return Some(InvalidBranch), needed, required; }
    var hydrated := c.HydrateObjects(needed, store);
    if !hydrated { return Some(MissingObject), needed, required; }
    CheckoutFindsAll(k.worktree, cut, placed, needed, required, old(c.cache), store);
    CheckOutLayers(c, k, branch);
    ghost var laid := LaidOut(old(c.State()), k, branch).(cache := old(c.cache) + ObjectIds(needed));
    assert c.State() == laid;
    var ok := CheckoutPayloads(c, k.worktree.tree, clean);
    failure := if ok then None else Some(MissingObject);
  }

  /** Puts the checkout back to `base`, whatever its files and index are now. */
  method ResetWorktree(c: Checkout, current: Captured, base: Captured, cut: set<Commit>, placed: map<Content, LfsObject>, store: set<LfsObject>,
                           clean: (Path, Content) -> Content)
    returns (failure: Option<Failure>, needed: seq<LfsObject>, ghost required: map<Content, LfsObject>)
    requires Keyed(placed)
    modifies c
    ensures Requires(base.worktree, cut, placed, required) && Keyed(required) && Lists(needed, required)
    ensures failure == None ==>
              c.State() == Restored(old(c.State()).(index := Some(current.worktree.tree)), base, base.branch, clean)
                             .(cache := old(c.cache) + ObjectIds(needed))
    // Refused before anything is restored, it leaves the index at the snapshot; refused later, the base
    // checked out but for what was still to be hydrated and re-added.
    ensures !ValidBranch(base.branch) || !AllObtainable(old(c.cache), needed, store) ==>
              failure.Some? && c.State() == old(c.State()).(index := Some(current.worktree.tree), cache := c.cache)
    ensures ValidBranch(base.branch) && AllObtainable(old(c.cache), needed, store) && failure.Some? ==>
              PartlyHydrated(base.worktree.tree, LaidOut(old(c.State()).(index := Some(current.worktree.tree)), base, base.branch).(cache := c.cache), c.State())
    ensures old(c.cache) <= c.cache <= old(c.cache) + ObjectIds(needed)
    ensures failure == None <==> ValidBranch(base.branch) && AllObtainable(old(c.cache), needed, store) && SizesAgree(base.worktree.tree, required)
  {
    c.index := Some(current.worktree.tree);
    failure, needed, required := RestoreCheckpoint(c, base, base.branch, cut, placed, store, clean);
  }

  /** Re-applies a merged tree as unsent changes: HEAD and branches stay, the index becomes the
      snapshot's, its hydrated pointers re-added. */
  method MergeBackup(c: Checkout, current: Captured, merged: Tree, clean: (Path, Content) -> Content) returns (ok: bool)
    modifies c`worktree, c`index
    ensures ok ==> c.State() == BackupMerged(old(c.State()), current, merged, clean)
    ensures !ok ==>
              var laid := old(c.State()).(worktree := (old(c.worktree) - current.worktree.tree.Keys) + merged, index := Some(current.index.tree));
              PartlyHydrated(merged, laid, c.State())
    ensures ok <==> forall p :: Hydrates(merged, p) ==> InCache(c.cache, ParsePointer(merged[p].blob).value)
  {
    c.index := Some(current.worktree.tree);
    c.worktree := CheckedOut(c.worktree, Entries(c.index), merged);
    c.index := Some(current.index.tree);
    ok := CheckoutPayloads(c, merged, clean);
  }

  // ------------------------------------------------------------------ what restore reproduces

  lemma RestoredAt(r: Repo, k: Captured, branch: Branch, clean: (Path, Content) -> Content, p: Path)
    ensures At(Restored(r, k, branch, clean).worktree, p) ==
            if p in k.worktree.tree then SmudgedFile(At(k.worktree.tree, p))
            else if p in Entries(r.index) || p in HeadTree(k.head) then None
            else At(r.worktree, p)
  {
  }

  /** No file would be left over: each is ignored or one that restore replaces or removes. */
  ghost predicate NoStrays(r: Repo, k: Captured, ignored: iset<Path>) {
    forall p :: p in r.worktree && p !in ignored ==> p in k.worktree.tree || p in Entries(r.index) || p in HeadTree(k.head)
  }

  /** A restore leaves exactly the checkpoint's files, ignored ones aside, if and only if the
      checkout has no stray untracked files. */
  lemma RestoreReproduces(r: Repo, k: Captured, branch: Branch, clean: (Path, Content) -> Content, ignored: iset<Path>)
    ensures (forall p :: p !in ignored ==> At(Restored(r, k, branch, clean).worktree, p) == At(Smudged(k.worktree.tree), p))
       <==> NoStrays(r, k, ignored)
  {
    forall p ensures p in Smudged(k.worktree.tree) <==> p in k.worktree.tree {
    }
    if NoStrays(r, k, ignored) {
      forall p | p !in ignored ensures At(Restored(r, k, branch, clean).worktree, p) == At(Smudged(k.worktree.tree), p) {
        RestoredAt(r, k, branch, clean, p);
      }
    } else {
      var p :| p in r.worktree && p !in ignored && p !in k.worktree.tree && p !in Entries(r.index) && p !in HeadTree(k.head);
      RestoredAt(r, k, branch, clean, p);
      assert At(Smudged(k.worktree.tree), p) == None;
    }
  }

  /** Files neither the checkpoint, its HEAD nor the index tracks are never touched. */
  lemma UntrackedFilesUntouched(r: Repo, k: Captured, branch: Branch, clean: (Path, Content) -> Content, p: Path)
    requires p !in k.worktree.tree && p !in Entries(r.index) && p !in HeadTree(k.head)
    ensures At(Restored(r, k, branch, clean).worktree, p) == At(r.worktree, p)
  {
    RestoredAt(r, k, branch, clean, p);
  }

  // ------------------------------------------------------------------ capture and restore

  /** A path a capture looks at. */
  ghost predicate Portable(r: Repo, ignored: iset<Path>, p: Path) {
    p in Entries(r.index) || p !in ignored
  }

  /** A staged LFS change that no pointer of HEAD can stand for: the first pass drops the path. */
  ghost predicate StagedOut(a: Authority, r: Repo, p: Path) {
    a.Changed(Entries(r.index), p) && a.Governs(p) && a.HeadPointer(p).None?
  }

  /** A pointer text in the worktree that is not available and whose object the snapshot places all the
      same, for another path's pointer.  Such a file is carried if that path was decided before it. */
  ghost predicate PlacedText(a: Authority, r: Repo, objects: map<Content, Placed>, p: Path) {
    && p in r.worktree && ParsePointer(r.worktree[p].blob).Some? && ParsePointer(r.worktree[p].blob).value.oid in objects
    && !a.Available(r.worktree[p].blob)
  }

  /** What the last layer holds of any other file: the file, also if it is an available pointer, HEAD's
      pointer in place of another change under LFS, or nothing. */
  ghost function LastLayer(a: Authority, r: Repo, p: Path): Option<Entry> {
    if p !in r.worktree || StagedOut(a, r, p) then None
    else if !(a.Changed(r.worktree, p) && a.Governs(p)) || a.Available(r.worktree[p].blob) then At(r.worktree, p)
    else if a.HeadPointer(p).Some? then At(a.head, p)
    else None
  }

  /** The last layer, from the checkout and the authority alone but for such pointer texts. */
  lemma LayerIs(a: Authority, r: Repo, ignored: iset<Path>, k: Captured, objects: map<Content, Placed>, held: map<Path, HeldKind>, p: Path)
    requires Captures(a, r, ignored, k, objects, held) && Portable(r, ignored, p)
    ensures At(k.worktree.tree, p) == LastLayer(a, r, p) || (PlacedText(a, r, objects, p) && At(k.worktree.tree, p) == At(r.worktree, p))
    ensures p !in held && p in r.worktree && At(k.worktree.tree, p) != At(r.worktree, p) ==> a.HeadPayload(r.worktree[p].blob, p)
  {
    var index := Entries(r.index);
    assert PassAt(a, index, StagedPass, k.index.tree, objects, held, p);
    assert PassAt(a, Updated(k.index.tree, r.worktree), ModifiedPass, k.tracked.tree, objects, held, p);
    assert PassAt(a, AddedPaths(k.tracked.tree, r.worktree, Others(index, r.worktree, ignored)), AddedPass, k.worktree.tree, objects, held, p);
  }

  /** A restored file is the captured one, as it was or with its pointer hydrated. */
  predicate Reproduced(restored: Option<Entry>, file: Option<Entry>) {
    restored == file || restored == SmudgedFile(file)
  }

  /** What LFS makes of the file survives: it is no change under LFS, an available pointer, or what HEAD's
      pointer hydrates to. */
  ghost predicate Survives(a: Authority, r: Repo, p: Path) {
    || p !in r.worktree
    || (&& !StagedOut(a, r, p)
        && (!(a.Changed(r.worktree, p) && a.Governs(p)) || a.Available(r.worktree[p].blob)
            || (a.HeadPointer(p).Some? && Reproduced(SmudgedFile(At(a.head, p)), At(r.worktree, p)))))
  }

  /** The file holds HEAD's payload with another mode than HEAD's (or as a symlink): a change the
      capture neither carries nor holds back. */
  ghost predicate ModeLost(a: Authority, r: Repo, p: Path) {
    p in r.worktree && a.HeadPayload(r.worktree[p].blob, p) && !a.Available(r.worktree[p].blob) && (a.head[p].mode != r.worktree[p].mode || r.worktree[p].mode == Symlink)
  }

  /** Capturing on one machine and restoring on another reproduces HEAD, the branch and, path by path,
      the files: a file survives if and only if it is no change under LFS, an available pointer, or what
      HEAD's pointer hydrates to.  Another placed pointer text survives where the layer carries it.  Of the paths not held back
      exactly the hydrated files whose mode alone changed do not. */
  lemma RestoreUndoesCapture(a: Authority, source: Repo, ignored: iset<Path>, k: Captured, objects: map<Content, Placed>,
                             held: map<Path, HeldKind>, target: Repo, clean: (Path, Content) -> Content, p: Path)
    requires Captures(a, source, ignored, k, objects, held) && NoStrays(target, k, ignored)
    requires p !in ignored || (p in Entries(source.index) && p in k.worktree.tree)
    ensures var done := Restored(target, k, k.branch, clean);
            && done.head == source.head && Tip(done.heads, k.branch) == Tip(source.heads, k.branch)
            && (Reproduced(At(done.worktree, p), At(source.worktree, p)) <==>
                  Survives(a, source, p) || (PlacedText(a, source, objects, p) && At(k.worktree.tree, p) == At(source.worktree, p)))
    ensures p !in held && !PlacedText(a, source, objects, p) ==> (Survives(a, source, p) <==> !ModeLost(a, source, p))
    ensures p !in held && !Survives(a, source, p) && At(k.worktree.tree, p) != At(source.worktree, p) ==> ModeLost(a, source, p)
  {
    RestoredAt(target, k, k.branch, clean, p);
    LayerIs(a, source, ignored, k, objects, held, p);
    var done, file := At(Restored(target, k, k.branch, clean).worktree, p), At(source.worktree, p);
    assert done == SmudgedFile(At(k.worktree.tree, p));
    if a.HeadPointer(p).Some? { PointerIsNoPayload(a.HeadPointer(p).value, a.head[p].blob); }
  }

  lemma PointerIsNoPayload(payload: LfsObject, pointer: Content)
    requires ParsePointer(pointer) == Some(payload)
    ensures pointer != payload.oid
  {
    assert pointer.target < pointer;
  }

  /** A staged LFS change, or ordinary content an attribute edit staged as a pointer, which is recovered. */
  ghost predicate Restaged(a: Authority, index: Tree, p: Path) {
    a.Changed(index, p) && (a.Governs(p) || a.Recovers(index, p, StagedPass))
  }

  /** What becomes of the index.  The capture keeps an entry if and only if it is neither a staged LFS
      change nor content to recover.  The restore keeps what was captured if and only if re-adding the
      hydrated file does not move it, and together they keep an entry if and only if neither changes it,
      or re-adding gives it again. */
  lemma IndexRoundTrip(a: Authority, source: Repo, ignored: iset<Path>, k: Captured, objects: map<Content, Placed>,
                       held: map<Path, HeldKind>, target: Repo, clean: (Path, Content) -> Content, p: Path)
    requires Captures(a, source, ignored, k, objects, held)
    ensures At(k.index.tree, p) == At(Entries(source.index), p) <==> !Restaged(a, Entries(source.index), p)
    ensures p in Entries(source.index) && p !in k.index.tree ==> p in held
    ensures var index, done := Entries(source.index), Entries(Restored(target, k, k.branch, clean).index);
            && (At(done, p) == At(k.index.tree, p) <==> !Moves(At(k.index.tree, p), At(k.worktree.tree, p), p, clean))
            && (At(done, p) == At(index, p) <==>
                  if Moves(At(k.index.tree, p), At(k.worktree.tree, p), p, clean)
                  then At(index, p) == Some(ReAdded(Smudge(k.worktree.tree[p]), p, clean))
                  else !Restaged(a, index, p))
  {
    var index := Entries(source.index);
    assert PassAt(a, index, StagedPass, k.index.tree, objects, held, p);
    if a.Changed(index, p) && !a.Governs(p) && a.Recovers(index, p, StagedPass) {
      PointerIsNoPayload(ParsePointer(index[p].blob).value, index[p].blob);
    }
    EntryKept(k.index.tree, k.worktree.tree, clean, p);
  }

  /** A capture over a HEAD whose history names one object, which is at the origin. */
  function PayloadAuthority(head: Tree, governed: set<Path>): Authority {
    Authority(head, governed, {}, {LfsObject(Raw(0, 5), 5)}, {}, {Raw(0, 5)}, {})
  }

  function PayloadPlaced(): map<Content, Placed> {
    map[Raw(0, 5) := Placed(LfsObject(Raw(0, 5), 5), Origin)]
  }

  function PointerTree(mode: Mode): Tree {
    map["f" := Entry(mode, Pointer(Raw(0, 5), 5, 130))]
  }

  /** A checkout whose HEAD, index and file are a pointer no attribute puts under LFS, staged in mode
      `staged`: the restored index holds what its payload cleans to, in the file's mode. */
  lemma PointerReAdded(staged: Mode, clean: (Path, Content) -> Content)
    requires staged != Symlink
    ensures var head := Commit(PointerTree(Regular), [], "");
            var source := Repo(PointerTree(Regular), Some(PointerTree(staged)), OnBranch("m"), map["m" := head], {});
            var index := Commit(PointerTree(staged), [head], "");
            var tracked := Commit(PointerTree(Regular), [index], "");
            var k := Captured(Some(head), "m", index, tracked, Commit(PointerTree(Regular), [tracked], ""));
            && Captures(PayloadAuthority(head.tree, {}), source, iset{}, k, PayloadPlaced(), map[])
            && Restored(source, k, "m", clean).index == Some(map["f" := Entry(Regular, clean("f", Raw(0, 5)))])
  {
    var head := Commit(PointerTree(Regular), [], "");
    var source := Repo(PointerTree(Regular), Some(PointerTree(staged)), OnBranch("m"), map["m" := head], {});
    var a := PayloadAuthority(head.tree, {});
    assert Updated(PointerTree(staged), source.worktree) == PointerTree(Regular);
    assert AddedPaths(PointerTree(Regular), source.worktree, Others(PointerTree(staged), source.worktree, iset{})) == PointerTree(Regular);
    assert ReAddedIndex(PointerTree(staged), PointerTree(Regular), clean) == map["f" := Entry(Regular, clean("f", Raw(0, 5)))];
  }

  /** So a pointer no attribute governs comes back staged as its payload, and a staged executable bit is
      lost where the file has none. */
  lemma EntriesMoved()
    ensures var plain, lfs := (p: Path, blob: Content) => blob, (p: Path, blob: Content) => Pointer(Raw(0, 5), 5, 130);
            && ReAddedIndex(PointerTree(Regular), PointerTree(Regular), plain) == map["f" := Entry(Regular, Raw(0, 5))] != PointerTree(Regular)
            && ReAddedIndex(PointerTree(Executable), PointerTree(Regular), lfs) == PointerTree(Regular) != PointerTree(Executable)
  {
    assert PointerTree(Regular)["f"] != Entry(Regular, Raw(0, 5)) && PointerTree(Executable)["f"] != PointerTree(Regular)["f"];
  }

  /** The lost mode: HEAD's pointer was hydrated and then made executable.  Nothing is held back, and
      the restored file is not executable. */
  lemma ModeChangeLost()
    ensures var payload := Raw(0, 5);
            var head := Commit(map["f" := Entry(Regular, Pointer(payload, 5, 130))], [], "");
            var source := Repo(map["f" := Entry(Executable, payload)], Some(head.tree), OnBranch("m"), map["m" := head], {});
            var index := Commit(head.tree, [head], "");
            var tracked := Commit(head.tree, [index], "");
            var k := Captured(Some(head), "m", index, tracked, Commit(head.tree, [tracked], ""));
            && Captures(PayloadAuthority(head.tree, {"f"}), source, iset{}, k, PayloadPlaced(), map[])
            && forall clean: (Path, Content) -> Content :: At(Restored(source, k, "m", clean).worktree, "f") == Some(Entry(Regular, payload))
  {
    var payload := Raw(0, 5);
    var head := Commit(map["f" := Entry(Regular, Pointer(payload, 5, 130))], [], "");
    var source := Repo(map["f" := Entry(Executable, payload)], Some(head.tree), OnBranch("m"), map["m" := head], {});
    var a := PayloadAuthority(head.tree, {"f"});
    assert a.HeadPointer("f") == Some(LfsObject(payload, 5));
    var worktree := Updated(head.tree, source.worktree);
    assert worktree == map["f" := Entry(Executable, payload)];
    forall p ensures PassAt(a, worktree, ModifiedPass, head.tree, PayloadPlaced(), map[], p) {
    }
    assert AddedPaths(head.tree, source.worktree, Others(head.tree, source.worktree, iset{})) == head.tree;
  }

  // ------------------------------------------------------------------ capturing what was restored

  /** The entry is neither a symlink to a pointer text nor a pointer to one. */
  ghost predicate Plain(file: Option<Entry>) {
    file.Some? && ParsePointer(file.value.blob).Some? ==>
      file.value.mode != Symlink && ParsePointer(ParsePointer(file.value.blob).value.oid).None?
  }

  /** No ignored file of the target is one the checkpoint tracks without holding it. */
  ghost predicate NoHiddenStrays(target: Repo, k: Captured) {
    forall p :: p in target.worktree && p in k.index.tree ==> p in k.worktree.tree || p in Entries(target.index) || p in HeadTree(k.head)
  }

  /** Capturing what was restored gives HEAD and the branch again and, path by path, the same file: if
      and only if it is no LFS pointer other than HEAD's own entry. */
  lemma CaptureUndoesRestore(a: Authority, source: Repo, ignored: iset<Path>, k: Captured, objects: map<Content, Placed>, held: map<Path, HeldKind>,
                             target: Repo, clean: (Path, Content) -> Content, again: Captured, objects': map<Content, Placed>,
                             held': map<Path, HeldKind>, p: Path)
    requires Captures(a, source, ignored, k, objects, held) && NoStrays(target, k, ignored) && NoHiddenStrays(target, k)
    requires Captures(a, Restored(target, k, k.branch, clean), ignored, again, objects', held')
    ensures again.head == k.head && again.branch == k.branch
    ensures Plain(At(k.worktree.tree, p)) ==>
              (At(again.worktree.tree, p) == At(k.worktree.tree, p) <==> !(Hydrates(k.worktree.tree, p) && At(k.worktree.tree, p) != At(a.head, p)))
  {
    var done := Restored(target, k, k.branch, clean);
    var file := At(k.worktree.tree, p);
    RestoredAt(target, k, k.branch, clean, p);
    LayerPaths(a, source, ignored, k, objects, held, p);
    EntryKept(k.index.tree, k.worktree.tree, clean, p);
    if !Portable(done, ignored, p) {
      NotPortable(a, done, ignored, again, objects', held', p);
    } else {
      LayerIs(a, done, ignored, again, objects', held', p);
      if Hydrates(k.worktree.tree, p) { PointerIsNoPayload(ParsePointer(file.value.blob).value, file.value.blob); }
      NothingStagedOut(a, source, ignored, k, objects, held, target, clean, p);
      CaptureLayers(a, source, ignored, k, objects, held);
    }
  }

  /** A branch without commits, one file under LFS. */
  function NewFile(blob: Content, index: Option<Tree>): Repo {
    Repo(map["f" := Entry(Regular, blob)], index, OnBranch("m"), map[], {Raw(0, 5)})
  }

  function NewFileLayers(worktree: Tree): Captured {
    var tracked := Commit(map[], [Commit(map[], [], "")], "");
    Captured(None, "m", tracked.parents[0], tracked, Commit(worktree, [tracked], ""))
  }

  function NewFileAuthority(): Authority {
    Authority(map[], {"f"}, {}, {LfsObject(Raw(0, 5), 5)}, {Raw(0, 5)}, {}, {})
  }

  /** A pointer someone made of a new large file is captured, and restored hydrated. */
  lemma NewPointerHydrated(clean: (Path, Content) -> Content)
    ensures var pointer := Pointer(Raw(0, 5), 5, 130);
            var k := NewFileLayers(map["f" := Entry(Regular, pointer)]);
            && Captures(NewFileAuthority(), NewFile(pointer, None), iset{}, k, PayloadPlaced(), map[])
            && Restored(NewFile(pointer, None).(worktree := map[]), k, "m", clean) == NewFile(Raw(0, 5), Some(map[]))
  {
    var pointer := Pointer(Raw(0, 5), 5, 130);
    var files: Tree := map["f" := Entry(Regular, pointer)];
    assert Updated(map[], files) == map[];
    assert Others(map[], files, iset{}) == {"f"};
    assert AddedPaths(map[], files, {"f"}) == files;
    forall p ensures PassAt(NewFileAuthority(), files, AddedPass, files, PayloadPlaced(), map[], p) {
    }
    assert ReAddedIndex(map[], files, clean) == map[];
    var done := Restored(NewFile(pointer, None).(worktree := map[]), NewFileLayers(files), "m", clean);
    SameTree(done.worktree, NewFile(Raw(0, 5), None).worktree);
  }

  /** Capturing that holds the file back. */
  lemma HydratedHeldBack()
    ensures Captures(NewFileAuthority(), NewFile(Raw(0, 5), Some(map[])), iset{}, NewFileLayers(map[]), PayloadPlaced(), map["f" := Added])
  {
    var files: Tree := map["f" := Entry(Regular, Raw(0, 5))];
    assert Updated(map[], files) == map[];
    assert Others(map[], files, iset{}) == {"f"};
    assert AddedPaths(map[], files, {"f"}) == files;
    forall p ensures PassAt(NewFileAuthority(), files, AddedPass, map[], PayloadPlaced(), map["f" := Added], p) {
    }
  }

  /** What a capture's last layer holds was in its index layer or is not ignored. */
  lemma LayerPaths(a: Authority, r: Repo, ignored: iset<Path>, k: Captured, objects: map<Content, Placed>, held: map<Path, HeldKind>, p: Path)
    requires Captures(a, r, ignored, k, objects, held)
    ensures p in k.worktree.tree ==> p in k.index.tree || (p !in Entries(r.index) && p !in ignored)
  {
    var index := Entries(r.index);
    assert PassAt(a, index, StagedPass, k.index.tree, objects, held, p);
    assert PassAt(a, Updated(k.index.tree, r.worktree), ModifiedPass, k.tracked.tree, objects, held, p);
    assert PassAt(a, AddedPaths(k.tracked.tree, r.worktree, Others(index, r.worktree, ignored)), AddedPass, k.worktree.tree, objects, held, p);
  }

  /** A path that is ignored and not tracked is in no layer. */
  lemma NotPortable(a: Authority, r: Repo, ignored: iset<Path>, k: Captured, objects: map<Content, Placed>, held: map<Path, HeldKind>, p: Path)
    requires Captures(a, r, ignored, k, objects, held) && !Portable(r, ignored, p)
    ensures p !in k.worktree.tree
  {
    var index := Entries(r.index);
    assert PassAt(a, index, StagedPass, k.index.tree, objects, held, p);
    assert PassAt(a, Updated(k.index.tree, r.worktree), ModifiedPass, k.tracked.tree, objects, held, p);
    assert PassAt(a, AddedPaths(k.tracked.tree, r.worktree, Others(index, r.worktree, ignored)), AddedPass, k.worktree.tree, objects, held, p);
  }

  /** The restored index has no staged change under LFS left to drop. */
  lemma NothingStagedOut(a: Authority, source: Repo, ignored: iset<Path>, k: Captured, objects: map<Content, Placed>,
                         held: map<Path, HeldKind>, target: Repo, clean: (Path, Content) -> Content, p: Path)
    requires Captures(a, source, ignored, k, objects, held)
    ensures !StagedOut(a, Restored(target, k, k.branch, clean), p)
  {
    assert PassAt(a, Entries(source.index), StagedPass, k.index.tree, objects, held, p);
    EntryKept(k.index.tree, k.worktree.tree, clean, p);
  }

  // ------------------------------------------------------------------ reset

  /** What a pass drops it has held back. */
  lemma DroppedIsHeld(a: Authority, index: Tree, pass: Pass, layer: Tree, objects: map<Content, Placed>, held: map<Path, HeldKind>, p: Path)
    requires PassDone(a, index, pass, layer, objects, held) && p in index && p !in layer
    ensures p in held
  {
    assert PassAt(a, index, pass, layer, objects, held, p);
  }

  /** A capture misses no file that is not ignored, except those it reports as held back. */
  lemma CaptureMissesOnlyHeldBack(a: Authority, r: Repo, ignored: iset<Path>, k: Captured, objects: map<Content, Placed>,
                                  held: map<Path, HeldKind>, p: Path)
    requires Captures(a, r, ignored, k, objects, held)
    requires p in r.worktree && (p in Entries(r.index) || p !in ignored) && p !in k.worktree.tree
    ensures p in held
  {
    var index := Entries(r.index);
    var others := Others(index, r.worktree, ignored);
    if p in AddedPaths(k.tracked.tree, r.worktree, others) {
      DroppedIsHeld(a, AddedPaths(k.tracked.tree, r.worktree, others), AddedPass, k.worktree.tree, objects, held, p);
    } else if p in k.index.tree {
      assert p in Updated(k.index.tree, r.worktree);
      DroppedIsHeld(a, Updated(k.index.tree, r.worktree), ModifiedPass, k.tracked.tree, objects, held, p);
    } else {
      assert p in index by { assert p !in others; }
      DroppedIsHeld(a, index, StagedPass, k.index.tree, objects, held, p);
    }
  }

  /** From any dirty checkout, a reset leaves exactly the base's files, ignored ones aside, if and
      only if no file its snapshot misses is left; what is left is held back from the snapshot. */
  lemma ResetReproduces(a: Authority, r: Repo, ignored: iset<Path>, current: Captured, objects: map<Content, Placed>,
                        held: map<Path, HeldKind>, base: Captured, clean: (Path, Content) -> Content)
    requires Captures(a, r, ignored, current, objects, held)
    ensures var done := Restored(r.(index := Some(current.worktree.tree)), base, base.branch, clean);
            && done.head == OnBranch(base.branch) && Tip(done.heads, base.branch) == base.head
            && (forall p :: At(Entries(done.index), p) == At(base.index.tree, p) <==> !Moves(At(base.index.tree, p), At(base.worktree.tree, p), p, clean))
            && ((forall p :: p !in ignored ==> At(done.worktree, p) == At(Smudged(base.worktree.tree), p))
                <==> forall p :: p in r.worktree && p !in ignored && p in held ==>
                       p in current.worktree.tree || p in base.worktree.tree || p in HeadTree(base.head))
  {
    var start := r.(index := Some(current.worktree.tree));
    RestoreReproduces(start, base, base.branch, clean, ignored);
    forall p ensures At(ReAddedIndex(base.index.tree, base.worktree.tree, clean), p) == At(base.index.tree, p)
                     <==> !Moves(At(base.index.tree, p), At(base.worktree.tree, p), p, clean)
    {
      EntryKept(base.index.tree, base.worktree.tree, clean, p);
    }
    forall p | p in r.worktree && p !in ignored && p !in current.worktree.tree ensures p in held {
      CaptureMissesOnlyHeldBack(a, r, ignored, current, objects, held, p);
    }
  }

  /** Such a file: a new large file under LFS that nobody made a pointer of is held back from the
      snapshot, and a reset to an empty base leaves it. */
  lemma HeldBackStays()
    ensures var r := Repo(map["f" := Entry(Regular, Raw(0, 5))], None, OnBranch("m"), map[], {});
            var index := Commit(map[], [], "");
            var tracked := Commit(map[], [index], "");
            var k := Captured(None, "m", index, tracked, Commit(map[], [tracked], ""));
            && Captures(Authority(map[], {"f"}, {}, {}, {}, {}, {}), r, iset{}, k, map[], map["f" := Added])
            && "f" !in k.worktree.tree
            && forall clean: (Path, Content) -> Content :: "f" in Restored(r.(index := Some(k.worktree.tree)), k, "m", clean).worktree
  {
    var r := Repo(map["f" := Entry(Regular, Raw(0, 5))], None, OnBranch("m"), map[], {});
    var a := Authority(map[], {"f"}, {}, {}, {}, {}, {});
    assert Updated(map[], r.worktree) == map[];
    assert Others(map[], r.worktree, iset{}) == {"f"};
    var added := AddedPaths(map[], r.worktree, {"f"});
    assert added == map["f" := Entry(Regular, Raw(0, 5))];
    forall p ensures PassAt(a, added, AddedPass, map[], map[], map["f" := Added], p) {
    }
  }

  /** An ignored file that neither the index nor the base nor its HEAD tracks survives a reset. */
  lemma ResetKeepsIgnored(a: Authority, r: Repo, ignored: iset<Path>, current: Captured, objects: map<Content, Placed>,
                          held: map<Path, HeldKind>, base: Captured, clean: (Path, Content) -> Content, p: Path)
    requires Captures(a, r, ignored, current, objects, held)
    requires p in ignored && p !in Entries(r.index) && p !in base.worktree.tree && p !in HeadTree(base.head)
    ensures At(Restored(r.(index := Some(current.worktree.tree)), base, base.branch, clean).worktree, p) == At(r.worktree, p)
  {
    NotPortable(a, r, ignored, current, objects, held, p);
    UntrackedFilesUntouched(r.(index := Some(current.worktree.tree)), base, base.branch, clean, p);
  }

  // ------------------------------------------------------------------ merging a backup

  /** Where `MergeBackup` leaves the checkout. */
  function BackupMerged(r: Repo, current: Captured, merged: Tree, clean: (Path, Content) -> Content): Repo {
    r.(worktree := (r.worktree - current.worktree.tree.Keys) + Smudged(merged), index := Some(ReAddedIndex(current.index.tree, merged, clean)))
  }

  /** Merging a backup leaves HEAD and the branches as they were; an index entry if and only if it is
      neither a staged LFS change nor content to recover, and re-adding the merged file does not move it,
      or re-adding gives it again; and the files, ignored ones aside, exactly as merged, if and only if no
      held-back file is left. */
  lemma MergeKeepsIndex(a: Authority, r: Repo, ignored: iset<Path>, current: Captured, objects: map<Content, Placed>,
                        held: map<Path, HeldKind>, merged: Tree, clean: (Path, Content) -> Content)
    requires Captures(a, r, ignored, current, objects, held)
    ensures var index, done := Entries(r.index), BackupMerged(r, current, merged, clean);
            && done.head == r.head && done.heads == r.heads
            && (forall p :: At(Entries(done.index), p) == At(index, p) <==>
                  if Moves(At(current.index.tree, p), At(merged, p), p, clean) then At(index, p) == Some(ReAdded(Smudge(merged[p]), p, clean))
                  else !Restaged(a, index, p))
            && ((forall p :: p !in ignored ==> At(done.worktree, p) == At(Smudged(merged), p))
                <==> forall p :: p in r.worktree && p !in ignored && p in held ==> p in current.worktree.tree || p in merged)
  {
    var index, done := Entries(r.index), BackupMerged(r, current, merged, clean);
    forall p ensures At(Entries(done.index), p) == At(index, p) <==>
                       if Moves(At(current.index.tree, p), At(merged, p), p, clean) then At(index, p) == Some(ReAdded(Smudge(merged[p]), p, clean))
                       else !Restaged(a, index, p)
    {
      IndexRoundTrip(a, r, ignored, current, objects, held, r, clean, p);
      EntryKept(current.index.tree, merged, clean, p);
    }
    forall p | p !in ignored
      ensures At(done.worktree, p) == At(Smudged(merged), p) <==> !(p in r.worktree && p in held && p !in current.worktree.tree && p !in merged)
    {
      assert p in Smudged(merged) <==> p in merged;
      if p in r.worktree && p !in current.worktree.tree {
        CaptureMissesOnlyHeldBack(a, r, ignored, current, objects, held, p);
      }
    }
  }
}
