/** Deciding which large-file changes of a checkpoint may leave the machine
    (`captureGitLfs` in `git-lfs.ts`). */
module LfsCapture {
  import opened Objects
  import opened LfsPins

  datatype Pass = StagedPass | ModifiedPass | AddedPass

  datatype HeldKind = Staged | Modified | Added

  datatype Place = Origin | AccountStorage

  /** An object a snapshot places, by oid. */
  datatype Placed = Placed(lfs: LfsObject, place: Place)

  /** What is fixed for a capture: HEAD's entries, the paths HEAD's attributes put under LFS, the
      paths only edited attributes do, what the origin holds, the local LFS cache, and, from when the
      capture starts, the oids HEAD's history names and those account storage holds. */
  datatype Authority = Authority(head: Tree, governed: set<Path>, edited: set<Path>, origin: set<LfsObject>, cache: set<Content>,
                                 history: set<Content>, stored: set<Content>)
  {
    function HeadPointer(p: Path): Option<LfsObject> {
      if p in head then ParsePointer(head[p].blob) else None
    }

    /** Paths whose changes this capture decides about. */
    predicate Governs(p: Path) {
      p in governed || HeadPointer(p).Some?
    }

    predicate Changed(tree: Tree, p: Path) {
      p in tree && !(p in head && head[p].blob == tree[p].blob)
    }

    /** The bytes of HEAD's own pointer: a hydrated file nobody edited. */
    predicate HeadPayload(blob: Content, p: Path) {
      HeadPointer(p).Some? && HeadPointer(p).value.Genuine() && blob == HeadPointer(p).value.oid
    }

    /** A staged pointer an attribute edit produced: ordinary content to recover. */
    predicate Recovers(tree: Tree, p: Path, pass: Pass) {
      pass == StagedPass && p in tree && ParsePointer(tree[p].blob).Some? && p in edited
    }

    /** Such content that the local cache does not have. */
    predicate Unrecoverable(tree: Tree, p: Path, pass: Pass) {
      && Changed(tree, p) && !Governs(p) && Recovers(tree, p, pass)
      && var pointer := ParsePointer(tree[p].blob).value; !(pointer.oid in cache && pointer.Genuine())
    }

    /** Neither placed by the committed snapshot nor confirmed at the origin. */
    predicate Unconfirmed(o: LfsObject, committed: map<Content, Placed>) {
      !(o.oid in committed && committed[o.oid].lfs.size == o.size) && o !in origin
    }

    /** An object of history that can be placed: confirmed, in account storage, or in the local cache and
        its upload arrives. */
    predicate Placeable(o: LfsObject, committed: map<Content, Placed>, uploads: set<Content>) {
      !Unconfirmed(o, committed) || (o.Genuine() && (o.oid in stored || (o.oid in cache && o.oid in uploads)))
    }

    /** A pointer text whose object is placed, at the origin, or in account storage. */
    predicate Found(blob: Content, placed: set<Content>, held: set<Content>) {
      && ParsePointer(blob).Some?
      && var pointer := ParsePointer(blob).value;
         pointer.oid in placed || pointer in origin || (pointer.oid in held && pointer.Genuine())
    }

    /** A pointer text whose object any capture can place, whatever it decided before. */
    predicate Available(blob: Content) {
      Found(blob, history, stored)
    }
  }

  /** A layer may leave the machine: each governed path is unchanged from HEAD or a pointer whose
      object the snapshot places. */
  ghost predicate LayerClosed(a: Authority, layer: Tree, placed: set<Content>) {
    forall p :: p in layer && a.Governs(p) && a.Changed(layer, p) ==>
      ParsePointer(layer[p].blob).Some? && ParsePointer(layer[p].blob).value.oid in placed
  }

  /** What a pass made of the path `p` of `index`, `objects` placed and `held` held back.  It carries
      every available pointer; of the others only one whose object is placed all the same. */
  ghost predicate PassAt(a: Authority, index: Tree, pass: Pass, layer: Tree, objects: map<Content, Placed>,
                         held: map<Path, HeldKind>, p: Path)
  {
    if !a.Changed(index, p) then At(layer, p) == At(index, p)
    else if !a.Governs(p) then
      if a.Recovers(index, p, pass) then
        At(layer, p) == Some(index[p].(blob := ParsePointer(index[p].blob).value.oid))
      else At(layer, p) == At(index, p)
    else
      && (pass != StagedPass && a.Available(index[p].blob) ==> At(layer, p) == At(index, p))
      && ((a.HeadPointer(p).None? && At(layer, p) == None)
          || (a.HeadPointer(p).Some? && At(layer, p) == At(a.head, p))
          || (pass != StagedPass && At(layer, p) == At(index, p) && ParsePointer(index[p].blob).Some?
              && ParsePointer(index[p].blob).value.oid in objects))
      && (At(layer, p) != At(index, p) ==> a.HeadPayload(index[p].blob, p) || p in held)
  }

  ghost predicate PassDone(a: Authority, index: Tree, pass: Pass, layer: Tree, objects: map<Content, Placed>, held: map<Path, HeldKind>) {
    forall p :: PassAt(a, index, pass, layer, objects, held, p)
  }

  /** Why a pass holds `p` back: a governed change it did not carry that is more than HEAD's payload. */
  ghost predicate HeldFor(a: Authority, index: Tree, pass: Pass, layer: Tree, p: Path, kind: HeldKind) {
    && a.Changed(index, p) && a.Governs(p) && !a.HeadPayload(index[p].blob, p)
    && At(layer, p) != At(index, p)
    && kind == if pass == StagedPass then Staged else if p in a.head then Modified else Added
  }

  /** Every layer a pass leaves is closed: whatever it was given, governed changes are dropped,
      put back to HEAD's pointer, or carried as placed pointers. */
  lemma PassCloses(a: Authority, index: Tree, pass: Pass, layer: Tree, objects: map<Content, Placed>, held: map<Path, HeldKind>)
    requires PassDone(a, index, pass, layer, objects, held)
    ensures LayerClosed(a, layer, objects.Keys)
  {
    forall p | p in layer && a.Governs(p) && a.Changed(layer, p)
      ensures ParsePointer(layer[p].blob).Some? && ParsePointer(layer[p].blob).value.oid in objects
    {
      assert PassAt(a, index, pass, layer, objects, held, p);
    }
  }

  /** What a pass decided stays so while later passes place more objects and hold more back. */
  lemma PassGrows(a: Authority, index: Tree, pass: Pass, layer: Tree, objects: map<Content, Placed>, held: map<Path, HeldKind>,
                  moreObjects: map<Content, Placed>, moreHeld: map<Path, HeldKind>)
    requires PassDone(a, index, pass, layer, objects, held)
    requires objects.Keys <= moreObjects.Keys && held.Keys <= moreHeld.Keys
    ensures PassDone(a, index, pass, layer, moreObjects, moreHeld)
  {
    forall p ensures PassAt(a, index, pass, layer, moreObjects, moreHeld, p) {
      assert PassAt(a, index, pass, layer, objects, held, p);
    }
  }

  lemma ObjectIdsNext(objects: seq<LfsObject>, i: nat)
    requires i < |objects|
    ensures ObjectIds(objects[..i + 1]) == ObjectIds(objects[..i]) + {objects[i].oid}
    ensures forall o :: o in objects[..i + 1] <==> o in objects[..i] || o == objects[i]
  {
    assert objects[..i + 1] == objects[..i] + [objects[i]];
  }

  /** A capture in progress: the objects its snapshot places and the paths it holds back. */
  class LfsSnapshot {
    const authority: Authority
    const publisher: Publisher
    const committed: map<Content, Placed>
    var objects: map<Content, Placed>
    var heldBack: map<Path, HeldKind>

    /** Each object is where the snapshot places it: where the committed one has it, at the origin, or
        in account storage and pinned for this publication. */
    ghost predicate Valid()
      reads this, publisher, publisher.account
    {
      && publisher.Valid() && authority.stored <= publisher.account.held
      && forall oid :: oid in objects ==>
           && objects[oid].lfs.oid == oid
           && ((oid in committed && committed[oid] == objects[oid])
               || (objects[oid].place == Origin && objects[oid].lfs in authority.origin)
               || (objects[oid].place == AccountStorage && oid in publisher.pinned && oid in publisher.account.held))
    }

    constructor (authority: Authority, publisher: Publisher, committed: map<Content, Placed>)
      requires publisher.Valid() && authority.stored <= publisher.account.held
      ensures Valid() && this.authority == authority && this.publisher == publisher && this.committed == committed
      ensures objects == map[] && heldBack == map[]
    {
      this.authority, this.publisher, this.committed := authority, publisher, committed;
      objects, heldBack := map[], map[];
    }

    /** Where the snapshot places an object of history. */
    function PlaceOf(o: LfsObject): Placed {
      if authority.Unconfirmed(o, committed) then Placed(o, AccountStorage)
      else if o.oid in committed && committed[o.oid].lfs.size == o.size then committed[o.oid]
      else Placed(o, Origin)
    }

    /** Places one object of history: where the committed snapshot has it, at the origin, or in
        account storage, stored there now from the local cache if it must be.  `found` is what account
        storage was found to hold, `uploads` the oids whose upload arrives, `reported` those of them whose
        upload also reports it. */
    method PlaceCommitted(o: LfsObject, found: set<LfsObject>, uploads: set<Content>, reported: set<Content>) returns (ok: bool)
      requires Valid() && (authority.Unconfirmed(o, committed) ==> o.oid in publisher.pinned)
      requires forall f :: f in found ==> f.oid in publisher.account.held
      requires forall oid :: oid in committed ==> committed[oid].lfs.oid == oid
      modifies this`objects, publisher`pinned, publisher.account
      ensures Valid() && old(publisher.pinned) <= publisher.pinned && old(publisher.account.held) <= publisher.account.held
      ensures ok ==> objects == old(objects)[o.oid := PlaceOf(o)] && objects[o.oid].lfs == o
      ensures ok <==> || !authority.Unconfirmed(o, committed) || o in found
                      || (o.Genuine() && o.oid in authority.cache && (o.oid in old(publisher.account.held) || o.oid in uploads))
      ensures !ok ==> objects == old(objects)
      ensures publisher.account.held <= old(publisher.account.held) + uploads
    {
      ok := true;
      if o.oid in committed && committed[o.oid].lfs.size == o.size {
        objects := objects[o.oid := committed[o.oid]];
        return;
      }
      if o in authority.origin {
        objects := objects[o.oid := Placed(o, Origin)];
        return;
      }
      if o !in found {
        if !(o.oid in authority.cache && o.Genuine()) { return false; }
        ok := publisher.Put(o, o.oid, o.oid in uploads, o.oid in reported);
        if !ok { return; }
      }
      objects := objects[o.oid := Placed(o, AccountStorage)];
    }

    method ListUnconfirmed(history: seq<LfsObject>) returns (unconfirmed: seq<LfsObject>)
      ensures forall o :: o in unconfirmed <==> o in history && authority.Unconfirmed(o, committed)
    {
      unconfirmed := [];
      for i := 0 to |history|
        invariant forall o :: o in unconfirmed <==> o in history[..i] && authority.Unconfirmed(o, committed)
      {
        assert history[..i + 1] == history[..i] + [history[i]];
        if authority.Unconfirmed(history[i], committed) { unconfirmed := unconfirmed + [history[i]]; }
      }
      assert history[..|history|] == history;
    }

    /** Places every object of the committed history, if and only if each can be; whatever may be stored
        is pinned first. */
    method PlaceHistory(history: seq<LfsObject>, uploads: set<Content>, reported: set<Content>) returns (ok: bool)
      requires Valid() && objects == map[] && publisher.account.held == authority.stored
      requires forall oid :: oid in committed ==> committed[oid].lfs.oid == oid
      modifies this`objects, publisher`pinned, publisher.account
      ensures Valid()
      ensures ok ==> objects.Keys == ObjectIds(history) && forall oid :: oid in objects ==> objects[oid].lfs in history && objects[oid] == PlaceOf(objects[oid].lfs)
      ensures ok <==> forall o :: o in history ==> authority.Placeable(o, committed, uploads)
      ensures heldBack == old(heldBack)
    {
      var unconfirmed := ListUnconfirmed(history);
      var found := publisher.Protect(unconfirmed);
      var i := 0;
      ok := true;
      while i < |history|
        invariant 0 <= i <= |history|
        invariant Valid() && forall o :: o in unconfirmed ==> o.oid in publisher.pinned
        invariant publisher.account.held <= authority.stored + uploads
        invariant ok && forall o :: o in history[..i] ==> authority.Placeable(o, committed, uploads)
        invariant objects.Keys == ObjectIds(history[..i])
        invariant forall oid :: oid in objects ==> objects[oid].lfs in history[..i] && objects[oid] == PlaceOf(objects[oid].lfs)
      {
        ObjectIdsNext(history, i);
        ok := PlaceCommitted(history[i], found, uploads, reported);
        assert authority.Placeable(history[i], committed, uploads) <==> ok;
        if !ok { return; }
        i := i + 1;
      }
      assert history[..i] == history;
    }

    /** Looks a changed pointer's object up, at the origin and then in account storage, and places it
        exactly if it is there. */
    method Place(pointer: LfsObject)
      requires Valid() && pointer.oid !in objects
      modifies this`objects, publisher`pinned, publisher.account`log
      ensures Valid() && old(publisher.pinned) <= publisher.pinned
      ensures objects == old(objects) || objects.Keys == old(objects.Keys) + {pointer.oid}
      ensures forall oid :: oid in old(objects) ==> oid in objects && objects[oid] == old(objects[oid])
      ensures pointer.oid in objects <==> pointer in authority.origin || (pointer.oid in publisher.account.held && pointer.Genuine())
      ensures pointer.oid in objects ==> objects[pointer.oid] == Placed(pointer, if pointer in authority.origin then Origin else AccountStorage)
      ensures pointer in authority.origin ==> publisher.account.log == old(publisher.account.log)
    {
      if pointer in authority.origin {
        objects := objects[pointer.oid := Placed(pointer, Origin)];
        return;
      }
      var found := publisher.Has(pointer);
      if found { objects := objects[pointer.oid := Placed(pointer, AccountStorage)]; }
    }

    /** One governed, changed path of a pass: carried if and only if it is a pointer whose object is
        placed already or found now. */
    method Decide(index: Tree, layer: Tree, pass: Pass, path: Path) returns (after: Tree)
      requires Valid() && authority.history <= objects.Keys && authority.Changed(index, path) && authority.Governs(path)
      modifies this`objects, this`heldBack, publisher`pinned, publisher.account`log
      ensures Valid() && Grown(old(objects), old(heldBack))
      ensures PassAt(authority, index, pass, after, objects, heldBack, path)
      ensures At(after, path) == At(index, path) <==>
                pass != StagedPass && authority.Found(index[path].blob, old(objects.Keys), publisher.account.held)
      ensures forall q :: q != path ==> At(after, q) == At(layer, q)
      ensures forall q :: q in heldBack && q !in old(heldBack) ==>
                q == path && HeldFor(authority, index, pass, after, path, heldBack[path])
    {
      var entry := index[path];
      var original := At(authority.head, path);
      var oldPointer := authority.HeadPointer(path);
      var pointer := ParsePointer(entry.blob);
      if pass != StagedPass && pointer.Some? && pointer.value.oid !in objects { Place(pointer.value); }
      var unchangedPayload := oldPointer.Some? && entry.blob.Size() == oldPointer.value.size && entry.blob == oldPointer.value.oid;
      var carried := pass != StagedPass && pointer.Some? && pointer.value.oid in objects;
      if !unchangedPayload && !carried && path !in heldBack {
        heldBack := heldBack[path := if pass == StagedPass then Staged else if original.Some? then Modified else Added];
      }
      if carried {
        after := layer[path := entry];
      } else if oldPointer.Some? {
        after := layer[path := original.value];
      } else {
        after := layer - {path};
      }
    }

    twostate predicate Grown(placed: map<Content, Placed>, held: map<Path, HeldKind>)
      reads this
    {
      && (forall oid :: oid in placed ==> oid in objects && objects[oid] == placed[oid])
      && (forall p :: p in held ==> p in heldBack && heldBack[p] == held[p])
    }

    /** One path of a pass. */
    method Visit(index: Tree, layer: Tree, pass: Pass, path: Path) returns (after: Tree, ok: bool)
      requires Valid() && authority.history <= objects.Keys && path in index && At(layer, path) == At(index, path)
      modifies this`objects, this`heldBack, publisher`pinned, publisher.account`log
      ensures Valid() && Grown(old(objects), old(heldBack))
      ensures ok <==> !authority.Unrecoverable(index, path, pass)
      ensures ok ==> PassAt(authority, index, pass, after, objects, heldBack, path)
      ensures ok && pass != StagedPass && authority.Found(index[path].blob, old(objects.Keys), publisher.account.held) ==>
                At(after, path) == At(index, path)
      ensures forall q :: q != path ==> At(after, q) == At(layer, q)
      ensures forall q :: q in heldBack && q !in old(heldBack) ==>
                q == path && HeldFor(authority, index, pass, after, path, heldBack[path])
    {
      after, ok := layer, true;
      if authority.Changed(index, path) {
        if authority.Governs(path) {
          after := Decide(index, layer, pass, path);
        } else if pass == StagedPass {
          var pointer := ParsePointer(index[path].blob);
          if pointer.None? || path !in authority.edited { return; }
          if !(pointer.value.oid in authority.cache && pointer.value.Genuine()) { return layer, false; }
          after := layer[path := index[path].(blob := pointer.value.oid)];
        }
      }
    }

    /** One pass over a temporary index.  A modified or added pointer file whose object is placed or found
        is carried as it is, and so not held back.  The pass fails exactly when ordinary content an
        attribute edit staged as a pointer is not in the local cache. */
    method Sanitize(index: Tree, pass: Pass) returns (layer: Tree, ok: bool)
      requires Valid() && authority.history <= objects.Keys
      modifies this`objects, this`heldBack, publisher`pinned, publisher.account`log
      ensures Valid() && Grown(old(objects), old(heldBack))
      ensures ok && pass != StagedPass ==>
                forall p :: p in index && authority.Found(index[p].blob, old(objects.Keys), publisher.account.held) ==> At(layer, p) == At(index, p)
      ensures ok ==> PassDone(authority, index, pass, layer, objects, heldBack) && LayerClosed(authority, layer, objects.Keys)
      ensures ok <==> forall p :: p in index ==> !authority.Unrecoverable(index, p, pass)
      ensures forall p :: p in heldBack && p !in old(heldBack) ==> HeldFor(authority, index, pass, layer, p, heldBack[p])
    {
      var a := authority;
      layer, ok := index, true;
      var todo := index.Keys;
      while todo != {}
        invariant todo <= index.Keys
        invariant Valid() && Grown(old(objects), old(heldBack))
        invariant forall p :: p !in todo ==> PassAt(a, index, pass, layer, objects, heldBack, p)
        invariant forall p :: p in todo ==> At(layer, p) == At(index, p)
        invariant pass != StagedPass ==> forall p :: p in index && p !in todo && a.Found(index[p].blob, old(objects.Keys), publisher.account.held) ==>
                    At(layer, p) == At(index, p)
        invariant forall p :: p in heldBack && p !in old(heldBack) ==> p !in todo && HeldFor(a, index, pass, layer, p, heldBack[p])
        invariant ok && forall p :: p in index && p !in todo ==> !a.Unrecoverable(index, p, pass)
      {
        var path: Path :| path in todo;
        todo := todo - {path};
        ghost var before := layer;
        label Before:
        layer, ok := Visit(index, layer, pass, path);
        if !ok { return; }
        assert Grown@Before(old@Before(objects), old@Before(heldBack));
        forall p | p !in todo ensures PassAt(a, index, pass, layer, objects, heldBack, p) {
          if p != path { assert PassAt(a, index, pass, before, old@Before(objects), old@Before(heldBack), p); }
        }
      }
      PassCloses(a, index, pass, layer, objects, heldBack);
    }
  }
}
