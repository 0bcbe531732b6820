/** A checkout on disk. */
module Checkouts {
  import opened Objects
  import opened GitCommands

  datatype Head = OnBranch(name: Branch) | Detached(at: Commit)

  /** A checkout: its files, index, HEAD, branches and local LFS objects. */
  datatype Repo = Repo(worktree: Tree, index: Option<Tree>, head: Head, heads: map<Branch, Commit>, cache: set<Content>)

  function Tip(heads: map<Branch, Commit>, branch: Branch): Option<Commit> {
    if branch in heads then Some(heads[branch]) else None
  }

  predicate Cached(r: Repo, payload: LfsObject) {
    payload.oid in r.cache && payload.Genuine()
  }

  /** The object is what its oid names, and is cached or can be downloaded. */
  predicate Obtainable(cache: set<Content>, store: set<LfsObject>, required: LfsObject) {
    required.Genuine() && (required.oid in cache || required in store)
  }

  ghost predicate AllObtainable(cache: set<Content>, needed: seq<LfsObject>, store: set<LfsObject>) {
    forall o :: o in needed ==> Obtainable(cache, store, o)
  }

  /** Having one object makes no other obtainable: what is genuine is all its oid names. */
  lemma ObtainableNext(cache: set<Content>, needed: seq<LfsObject>, store: set<LfsObject>)
    requires needed != [] && Obtainable(cache, store, needed[0])
    ensures AllObtainable(cache, needed, store) <==> AllObtainable(cache + {needed[0].oid}, needed[1..], store)
  {
    assert needed == [needed[0]] + needed[1..];
    forall o | o in needed[1..] ensures Obtainable(cache, store, o) <==> Obtainable(cache + {needed[0].oid}, store, o) {
      if o.Genuine() && o.oid == needed[0].oid { assert o == needed[0]; }
    }
    assert needed[0] in needed;
  }

  /** Caches the required objects in order from what can be downloaded, up to the first that is
      missing or fails its integrity check.  It succeeds exactly when each can be had, and then caches
      exactly those. */
  function FetchAll(cache: set<Content>, needed: seq<LfsObject>, store: set<LfsObject>): (result: (set<Content>, bool))
    ensures cache <= result.0 <= cache + ObjectIds(needed)
    ensures result.1 <==> AllObtainable(cache, needed, store)
    ensures result.1 ==> result.0 == cache + ObjectIds(needed)
    decreases |needed|
  {
    if needed == [] then (cache, true)
    else
      var required := needed[0];
      assert needed == [required] + needed[1..] && required in needed;
      if !required.Genuine() || (required.oid !in cache && required !in store) then (cache, false)
      else
        ObtainableNext(cache, needed, store);
        FetchAll(cache + {required.oid}, needed[1..], store)
  }

  /** The checkout, changed command by command. */
  class Checkout {
    var worktree: Tree
    var index: Option<Tree>
    var head: Head
    var heads: map<Branch, Commit>
    var cache: set<Content>

    function State(): Repo
      reads this
    {
      Repo(worktree, index, head, heads, cache)
    }

    constructor (r: Repo)
      ensures State() == r
    {
      worktree, index, head, heads, cache := r.worktree, r.index, r.head, r.heads, r.cache;
    }

    /** `hydrateGitLfs`: every required object is cached before anything else changes, or one cannot be had. */
    method HydrateObjects(needed: seq<LfsObject>, store: set<LfsObject>) returns (ok: bool)
      modifies this`cache
      ensures (cache, ok) == FetchAll(old(cache), needed, store)
      ensures ok <==> AllObtainable(old(cache), needed, store)
      ensures old(cache) <= cache <= old(cache) + ObjectIds(needed) && (ok ==> cache == old(cache) + ObjectIds(needed))
    {
      var i := 0;
      while i < |needed|
        invariant 0 <= i <= |needed|
        invariant FetchAll(cache, needed[i..], store) == FetchAll(old(cache), needed, store)
      {
        var required := needed[i];
        if required.oid in cache {
          if !required.Genuine() { return false; }
          assert cache + {required.oid} == cache;
        } else if required in store && required.Genuine() {
          cache := cache + {required.oid};
        } else {
          return false;
        }
        i := i + 1;
      }
      ok := true;
    }

    /** `refreshIndexStat`: re-adds the written files whose entry still has `tree`'s blob. */
    method RefreshIndex(tree: Tree, written: set<Path>, clean: (Path, Content) -> Content)
      modifies this`index
      ensures index == if old(index).None? then None else Some(Refreshed(old(index).value, worktree, written, tree, clean))
    {
      if index.None? { return; }
      var entries, todo, paths := index.value, written, {};
      while todo != {}
        invariant todo <= written && paths == set p | p in written - todo && p in entries && p in tree && entries[p].blob == tree[p].blob
      {
        var path: Path :| path in todo;
        todo := todo - {path};
        if path in entries && path in tree && entries[path].blob == tree[path].blob { paths := paths + {path}; }
      }
      index := Some(map p | p in entries :: if p in paths && p in worktree then ReAdded(worktree[p], p, clean) else entries[p]);
      assert index.value == Refreshed(entries, worktree, written, tree, clean);
    }
  }
}
