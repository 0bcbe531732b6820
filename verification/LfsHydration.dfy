/** What hydration requires before it touches a checkout, and what a checkout then finds
    (`readGitLfsPointers`, `hydrateGitLfs` and `checkoutGitLfs` in `git-lfs.ts`). */
module LfsHydration {
  import opened Objects
  import opened CommitGraph
  import opened Checkouts
  import LfsInventory

  /** The pointers of a commit's whole history by oid, the snapshot's own objects over them. */
  ghost predicate Requires(commit: Commit, cut: set<Commit>, placed: map<Content, LfsObject>, required: map<Content, LfsObject>) {
    exists found :: LfsInventory.Scanned(Blobs(Ancestors(commit, cut)), found) && required == found + placed
  }

  ghost predicate Keyed(objects: map<Content, LfsObject>) {
    forall oid :: oid in objects ==> objects[oid].oid == oid
  }

  /** `needed` lists the required objects. */
  ghost predicate Lists(needed: seq<LfsObject>, required: map<Content, LfsObject>) {
    forall o :: o in needed <==> o.oid in required && required[o.oid] == o
  }

  /** Collects what `commit` requires. */
  method Collect(commit: Commit, cut: set<Commit>, placed: map<Content, LfsObject>)
    returns (needed: seq<LfsObject>, ghost required: map<Content, LfsObject>)
    requires Keyed(placed)
    ensures Requires(commit, cut, placed, required) && Keyed(required) && Lists(needed, required)
  {
    var found := LfsInventory.Scan(Blobs(Ancestors(commit, cut)), map[]);
    assert LfsInventory.Scanned(Blobs(Ancestors(commit, cut)), found);
    var all := found + placed;
    required := all;
    needed := [];
    var todo := all.Keys;
    while todo != {}
      invariant todo <= all.Keys
      invariant forall o :: o in needed <==> o.oid in all && o.oid !in todo && all[o.oid] == o
    {
      var oid: Content :| oid in todo;
      todo := todo - {oid};
      needed := needed + [all[oid]];
    }
  }

  /** Every pointer in the tree of `commit` has its oid collected. */
  lemma PointersCollected(commit: Commit, cut: set<Commit>, placed: map<Content, LfsObject>, required: map<Content, LfsObject>, p: Path)
    requires Requires(commit, cut, placed, required)
    requires p in commit.tree && ParsePointer(commit.tree[p].blob).Some?
    ensures ParsePointer(commit.tree[p].blob).value.oid in required
  {
    var found :| LfsInventory.Scanned(Blobs(Ancestors(commit, cut)), found) && required == found + placed;
    var blob := commit.tree[p].blob;
    assert commit in Ancestors(commit, cut);
    assert blob in Blobs(Ancestors(commit, cut));
    assert ParsePointer(blob).value.oid in LfsInventory.Oids(Blobs(Ancestors(commit, cut)));
  }

  /** A pointer file becomes its payload. */
  function Smudge(entry: Entry): Entry {
    if entry.mode != Symlink && ParsePointer(entry.blob).Some? then entry.(blob := ParsePointer(entry.blob).value.oid) else entry
  }

  function SmudgedFile(file: Option<Entry>): Option<Entry> {
    if file.None? then None else Some(Smudge(file.value))
  }

  /** A pointer of `tree` whose payload a checkout writes. */
  predicate Hydrates(tree: Tree, p: Path) {
    p in tree && tree[p].mode != Symlink && ParsePointer(tree[p].blob).Some?
  }

  /** Every such pointer claims the size that was collected for its oid. */
  ghost predicate SizesAgree(tree: Tree, required: map<Content, LfsObject>) {
    forall p :: Hydrates(tree, p) ==> Collected(ParsePointer(tree[p].blob).value, required)
  }

  predicate Collected(pointer: LfsObject, required: map<Content, LfsObject>) {
    pointer.oid in required && required[pointer.oid] == pointer
  }

  /** What is cached, by oid and size. */
  ghost predicate InCache(cache: set<Content>, pointer: LfsObject) {
    pointer.oid in cache && pointer.Genuine()
  }

  /** Once everything required is cached, a pointer finds its payload exactly when it claims the size
      that was collected. */
  lemma FoundIffCollected(cache: set<Content>, needed: seq<LfsObject>, required: map<Content, LfsObject>, pointer: LfsObject)
    requires Lists(needed, required) && Keyed(required) && pointer.oid in required
    requires forall o :: o in needed ==> InCache(cache, o)
    ensures InCache(cache, pointer) <==> Collected(pointer, required)
  {
    assert required[pointer.oid] in needed;
  }

  /** Hydrating a commit and then checking its tree out meets a missing object if and only if a
      pointer of the tree claims another size than was collected for its oid. */
  lemma CheckoutFindsAll(commit: Commit, cut: set<Commit>, placed: map<Content, LfsObject>, needed: seq<LfsObject>,
                         required: map<Content, LfsObject>, cache: set<Content>, store: set<LfsObject>)
    requires Requires(commit, cut, placed, required) && Keyed(required) && Lists(needed, required)
    requires AllObtainable(cache, needed, store)
    ensures var after := cache + ObjectIds(needed);
            (forall p :: Hydrates(commit.tree, p) ==> InCache(after, ParsePointer(commit.tree[p].blob).value)) <==> SizesAgree(commit.tree, required)
  {
    var after := cache + ObjectIds(needed);
    forall p | Hydrates(commit.tree, p)
      ensures InCache(after, ParsePointer(commit.tree[p].blob).value) <==> Collected(ParsePointer(commit.tree[p].blob).value, required)
    {
      PointersCollected(commit, cut, placed, required, p);
      FoundIffCollected(after, needed, required, ParsePointer(commit.tree[p].blob).value);
    }
  }

  /** Such a tree: two pointers name one payload with two sizes, so whichever was collected, the
      checkout of the other fails. */
  lemma TwoSizes(payload: Content, cut: set<Commit>, placed: map<Content, LfsObject>, required: map<Content, LfsObject>)
    requires var size := payload.Size();
             Requires(Commit(map["a" := Entry(Regular, Pointer(payload, size, 130)), "b" := Entry(Regular, Pointer(payload, size + 1, 130))], [], ""),
                      cut, placed, required)
    ensures var size := payload.Size();
            !SizesAgree(map["a" := Entry(Regular, Pointer(payload, size, 130)), "b" := Entry(Regular, Pointer(payload, size + 1, 130))], required)
  {
    var size := payload.Size();
    var tree: Tree := map["a" := Entry(Regular, Pointer(payload, size, 130)), "b" := Entry(Regular, Pointer(payload, size + 1, 130))];
    assert Hydrates(tree, "a") && Hydrates(tree, "b");
    assert ParsePointer(tree["a"].blob) == Some(LfsObject(payload, size)) && ParsePointer(tree["b"].blob) == Some(LfsObject(payload, size + 1));
  }
}
