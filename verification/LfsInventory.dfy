/** The committed LFS objects of a history, scanned incrementally from a saved ancestor
    (`committedLfsInventory` in `git-lfs-inventory.ts`). */
module LfsInventory {
  import opened Objects
  import opened CommitGraph

  /** The oids of the pointers among `blobs`. */
  function Oids(blobs: set<Content>): set<Content> {
    set b | b in blobs && ParsePointer(b).Some? :: ParsePointer(b).value.oid
  }

  /** What one complete scan of `head` finds. */
  function FullScan(head: Commit, cut: set<Commit>): set<Content> {
    Oids(Blobs(Ancestors(head, cut)))
  }

  /** What `rev-list --objects head ^previous` may list: every blob of the history of `head` that
      the history of `previous` lacks, and possibly some that it has. */
  ghost predicate Lists(blobs: set<Content>, head: Commit, previous: Commit, cut: set<Commit>) {
    Blobs(Ancestors(head, cut)) - Blobs(Ancestors(previous, cut)) <= blobs <= Blobs(Ancestors(head, cut))
  }

  /** The saved ancestor's objects and the new ones are all of history's, whatever was deleted. */
  lemma IncrementalIsFull(head: Commit, previous: Commit, cut: set<Commit>, blobs: set<Content>)
    requires previous in Ancestors(head, cut) && Lists(blobs, head, previous, cut)
    ensures FullScan(previous, cut) + Oids(blobs) == FullScan(head, cut)
  {
    AncestorsTransitive(head, previous, cut);
    var all, before := Blobs(Ancestors(head, cut)), Blobs(Ancestors(previous, cut));
    assert before <= all;
    assert before + blobs == all;
    forall oid ensures oid in Oids(before) + Oids(blobs) <==> oid in Oids(all) {
      if oid in Oids(all) {
        var b :| b in all && ParsePointer(b).Some? && ParsePointer(b).value.oid == oid;
        assert b in before || b in blobs;
      }
    }
  }

  /** `objects` are pointers found among `blobs`, one for each oid. */
  ghost predicate Scanned(blobs: set<Content>, objects: map<Content, LfsObject>) {
    objects.Keys == Oids(blobs) && forall oid :: oid in objects ==> objects[oid].oid == oid && Names(blobs, objects[oid])
  }

  ghost predicate Names(blobs: set<Content>, pointer: LfsObject) {
    exists b :: b in blobs && ParsePointer(b) == Some(pointer)
  }

  /** The scan: every listed blob that is a pointer is recorded, a later one of the same oid over an
      earlier. */
  method Scan(blobs: set<Content>, known: map<Content, LfsObject>) returns (objects: map<Content, LfsObject>)
    ensures objects.Keys == known.Keys + Oids(blobs)
    ensures forall oid :: oid in Oids(blobs) ==> objects[oid].oid == oid && Names(blobs, objects[oid])
    ensures forall oid :: oid in objects && oid !in Oids(blobs) ==> objects[oid] == known[oid]
  {
    objects := known;
    var todo := blobs;
    while todo != {}
      invariant todo <= blobs
      invariant objects.Keys == known.Keys + Oids(blobs - todo)
      invariant forall oid :: oid in Oids(blobs - todo) ==> objects[oid].oid == oid && Names(blobs, objects[oid])
      invariant forall oid :: oid in objects && oid !in Oids(blobs - todo) ==> oid in known && objects[oid] == known[oid]
    {
      var blob: Content :| blob in todo;
      ghost var left := todo;
      todo := todo - {blob};
      assert blobs - todo == (blobs - left) + {blob};
      OidsWith(blobs - left, blob);
      var pointer := ParsePointer(blob);
      if pointer.Some? {
        assert Names(blobs, pointer.value);
        objects := objects[pointer.value.oid := pointer.value];
      }
    }
    assert blobs - todo == blobs;
  }

  lemma OidsWith(blobs: set<Content>, blob: Content)
    ensures Oids(blobs + {blob}) == Oids(blobs) + if ParsePointer(blob).Some? then {ParsePointer(blob).value.oid} else {}
  {
    forall oid ensures oid in Oids(blobs + {blob}) <==> oid in Oids(blobs) || (ParsePointer(blob).Some? && oid == ParsePointer(blob).value.oid) {
      if oid in Oids(blobs + {blob}) {
        var b :| b in blobs + {blob} && ParsePointer(b).Some? && ParsePointer(b).value.oid == oid;
      } else if ParsePointer(blob).Some? && oid == ParsePointer(blob).value.oid {
        assert blob in blobs + {blob};
      }
    }
  }

  datatype Saved = Saved(head: Commit, objects: map<Content, LfsObject>)

  /** What was saved and what was listed since name pointers of all of history. */
  lemma ScannedFurther(head: Commit, previous: Commit, cut: set<Commit>, listed: set<Content>, known: map<Content, LfsObject>, objects: map<Content, LfsObject>)
    requires previous in Ancestors(head, cut) && listed <= Blobs(Ancestors(head, cut))
    requires Scanned(Blobs(Ancestors(previous, cut)), known)
    requires objects.Keys == known.Keys + Oids(listed) == FullScan(head, cut)
    requires forall oid :: oid in Oids(listed) ==> objects[oid].oid == oid && Names(listed, objects[oid])
    requires forall oid :: oid in objects && oid !in Oids(listed) ==> objects[oid] == known[oid]
    ensures Scanned(Blobs(Ancestors(head, cut)), objects)
  {
    AncestorsTransitive(head, previous, cut);
    var all, before := Blobs(Ancestors(head, cut)), Blobs(Ancestors(previous, cut));
    assert before <= all;
    forall oid | oid in objects ensures objects[oid].oid == oid && Names(all, objects[oid]) {
      if oid in Oids(listed) {
        var b :| b in listed && ParsePointer(b) == Some(objects[oid]);
        assert b in all;
      } else {
        var b :| b in before && ParsePointer(b) == Some(known[oid]);
        assert b in all;
      }
    }
  }

  /** A checkout's history, cut at its shallow boundaries, and the saved inventory; a missing or
      unreadable file is none. */
  class Inventory {
    const cut: set<Commit>
    var saved: Option<Saved>

    ghost predicate Valid()
      reads this
    {
      saved.Some? ==> Scanned(Blobs(Ancestors(saved.value.head, cut)), saved.value.objects)
    }

    constructor (cut: set<Commit>)
      ensures Valid() && this.cut == cut && saved == None
    {
      this.cut, saved := cut, None;
    }

    /** The objects of the history of `head`, saved for the next scan.  It lists nothing if they are saved,
        and only what is newer if those of an ancestor are; of older blobs Git may list some (`extra`). */
    method Committed(head: Option<Commit>, extra: set<Content>) returns (objects: map<Content, LfsObject>, listed: set<Content>)
      requires Valid()
      modifies this`saved
      ensures Valid()
      ensures head.None? ==> objects == map[] && saved == old(saved)
      ensures head.Some? ==> objects.Keys == FullScan(head.value, cut) && saved == Some(Saved(head.value, objects))
      ensures head.Some? ==> Scanned(Blobs(Ancestors(head.value, cut)), objects)
      ensures head.None? || (old(saved).Some? && old(saved).value.head == head.value) ==> listed == {}
      ensures head.Some? && old(saved).Some? && old(saved).value.head in Ancestors(head.value, cut) ==>
                listed * Blobs(Ancestors(old(saved).value.head, cut)) <= extra
    {
      if head.None? { return map[], {}; }
      var previous := saved;
      if previous.Some? && previous.value.head == head.value { return previous.value.objects, {}; }
      var all := Blobs(Ancestors(head.value, cut));
      if previous.Some? && previous.value.head in Ancestors(head.value, cut) {
        listed := (all - Blobs(Ancestors(previous.value.head, cut))) + all * extra;
        IncrementalIsFull(head.value, previous.value.head, cut, listed);
        objects := Scan(listed, previous.value.objects);
        ScannedFurther(head.value, previous.value.head, cut, listed, previous.value.objects, objects);
      } else {
        listed := all;
        objects := Scan(all, map[]);
      }
      saved := Some(Saved(head.value, objects));
    }

    /** Over any sequence of heads, forward or rewritten, the file lost before any of them, each
        answer is the complete scan's. */
    method Follow(heads: seq<Commit>, lost: set<nat>, extra: set<Content>) returns (answers: seq<map<Content, LfsObject>>)
      requires Valid()
      modifies this`saved
      ensures Valid() && |answers| == |heads|
      ensures forall i :: 0 <= i < |heads| ==> answers[i].Keys == FullScan(heads[i], cut)
    {
      answers := [];
      var i := 0;
      while i < |heads|
        invariant 0 <= i <= |heads| && |answers| == i && Valid()
        invariant forall j :: 0 <= j < i ==> answers[j].Keys == FullScan(heads[j], cut)
      {
        if i in lost { saved := None; }
        var answer, listed := Committed(Some(heads[i]), extra);
        answers := answers + [answer];
        i := i + 1;
      }
    }
  }

  /** An inventory saved while history was cut shorter stays complete after the checkout is deepened
      exactly when the fetched commits hold no pointer it lacks; the saved file cannot tell. */
  lemma DeepenedInventory(head: Commit, cut: set<Commit>, deeper: set<Commit>)
    requires deeper <= cut
    ensures FullScan(head, cut) == FullScan(head, deeper)
       <==> Oids(Blobs(Ancestors(head, deeper) - Ancestors(head, cut))) <= FullScan(head, cut)
  {
    MoreCut(head, deeper, cut);
    var short, long := Ancestors(head, cut), Ancestors(head, deeper);
    assert Blobs(long) == Blobs(short) + Blobs(long - short);
    forall oid ensures oid in Oids(Blobs(long)) <==> oid in Oids(Blobs(short)) + Oids(Blobs(long - short)) {
      if oid in Oids(Blobs(long)) {
        var b :| b in Blobs(long) && ParsePointer(b).Some? && ParsePointer(b).value.oid == oid;
        assert b in Blobs(short) || b in Blobs(long - short);
      }
    }
  }

  /** Such a history: `head` deleted the pointer its parent held, and was scanned while the checkout
      was cut at it. */
  lemma DeletedBelowBoundary(payload: Content)
    ensures var parent := Commit(map["f" := Entry(Regular, Pointer(payload, payload.Size(), 130))], [], "");
            var head := Commit(map[], [parent], "");
            FullScan(head, {head}) == {} && payload in FullScan(head, {})
  {
    var pointer := Pointer(payload, payload.Size(), 130);
    var parent := Commit(map["f" := Entry(Regular, pointer)], [], "");
    var head := Commit(map[], [parent], "");
    NoParent(head, {head});
    assert Blobs({head}) == {};
    SingleParent(head, {});
    assert parent in Ancestors(parent, {});
    assert "f" in parent.tree && parent.tree["f"].blob == pointer;
    assert pointer in Blobs(Ancestors(head, {}));
    assert ParsePointer(pointer).Some?;
  }
}
