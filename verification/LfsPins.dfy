/** Account storage for LFS objects, and the pins that hold a publication's objects there
    (`createCloudGitLfsPublisher` in `cloud-lfs-store.ts`). */
module LfsPins {
  import opened Objects

  datatype Operation = Pinned(id: nat, oid: Content) | Probed(id: nat, oid: Content) | Uploaded(id: nat, oid: Content) | Released(id: nat)

  /** Whether `id` pinned `oid` and has not released it since, `n` operations into the log. */
  ghost predicate PinnedBy(log: seq<Operation>, n: nat, id: nat, oid: Content)
    requires n <= |log|
  {
    exists k :: 0 <= k < n && log[k] == Pinned(id, oid) && forall j :: k < j < n ==> log[j] != Released(id)
  }

  /** Every probe and upload was made under a pin of its own publication. */
  ghost predicate Covered(log: seq<Operation>) {
    forall n :: 0 <= n < |log| && (log[n].Probed? || log[n].Uploaded?) ==> PinnedBy(log, n, log[n].id, log[n].oid)
  }

  lemma PinnedLater(log: seq<Operation>, more: Operation, id: nat, oid: Content)
    requires PinnedBy(log, |log|, id, oid) && more != Released(id)
    ensures PinnedBy(log + [more], |log + [more]|, id, oid)
  {
    var k :| 0 <= k < |log| && log[k] == Pinned(id, oid) && forall j :: k < j < |log| ==> log[j] != Released(id);
    assert (log + [more])[k] == Pinned(id, oid);
  }

  lemma CoveredLater(log: seq<Operation>, more: Operation)
    requires Covered(log)
    requires more.Probed? || more.Uploaded? ==> PinnedBy(log, |log|, more.id, more.oid)
    ensures Covered(log + [more])
  {
    var after := log + [more];
    forall n | 0 <= n < |after| && (after[n].Probed? || after[n].Uploaded?) ensures PinnedBy(after, n, after[n].id, after[n].oid) {
      if n < |log| { assert PinnedBy(log, n, log[n].id, log[n].oid); }
      var k :| 0 <= k < n && log[k] == Pinned(after[n].id, after[n].oid) && forall j :: k < j < n ==> log[j] != Released(after[n].id);
      assert after[k] == log[k];
    }
  }

  /** What the account holds, with everything publishers asked of it. */
  class Account {
    var held: set<Content>
    var log: seq<Operation>

    constructor (held: set<Content>)
      ensures this.held == held && log == []
    {
      this.held, log := held, [];
    }
  }

  /** One publication's access.  `pinned` remembers what need not be pinned again. */
  class Publisher {
    const account: Account
    const id: nat
    var pinned: set<Content>

    ghost predicate Valid()
      reads this, account
    {
      && Covered(account.log)
      && forall oid :: oid in pinned ==> PinnedBy(account.log, |account.log|, id, oid)
    }

    constructor (account: Account, id: nat)
      requires Covered(account.log)
      ensures Valid() && this.account == account && this.id == id && pinned == {}
    {
      this.account, this.id, pinned := account, id, {};
    }

    method Record(operation: Operation)
      requires Valid() && operation.id == id && !operation.Released?
      requires operation.Probed? || operation.Uploaded? ==> operation.oid in pinned
      modifies account`log
      ensures Valid() && account.log == old(account.log) + [operation]
      ensures operation.Pinned? ==> PinnedBy(account.log, |account.log|, id, operation.oid)
    {
      ghost var log := account.log;
      CoveredLater(log, operation);
      account.log := account.log + [operation];
      forall oid | oid in pinned ensures PinnedBy(account.log, |account.log|, id, oid) {
        PinnedLater(log, operation, id, oid);
      }
      assert account.log[|log|] == operation;
    }

    /** An object is pinned once. */
    function PinFor(oid: Content): seq<Operation>
      reads this
    {
      if oid in pinned then [] else [Operation.Pinned(id, oid)]
    }

    method Pin(lfs: LfsObject)
      requires Valid()
      modifies this`pinned, account`log
      ensures Valid() && pinned == old(pinned) + {lfs.oid} && account.log == old(account.log + PinFor(lfs.oid))
    {
      if lfs.oid in pinned { return; }
      Record(Operation.Pinned(id, lfs.oid));
      pinned := pinned + {lfs.oid};
    }

    method ReaderHas(lfs: LfsObject) returns (found: bool)
      requires Valid() && lfs.oid in pinned
      modifies account`log
      ensures Valid() && found == (lfs.oid in account.held && lfs.Genuine())
      ensures account.log == old(account.log) + [Probed(id, lfs.oid)]
    {
      Record(Probed(id, lfs.oid));
      found := lfs.oid in account.held && lfs.Genuine();
    }

    /** Pins every requested object before it learns which exist. */
    method Protect(objects: seq<LfsObject>) returns (found: set<LfsObject>)
      requires Valid()
      modifies this`pinned, account`log
      ensures Valid() && pinned == old(pinned) + set o | o in objects :: o.oid
      ensures found == set o | o in objects && o.oid in account.held && o.Genuine()
      ensures account.log == old(account.log) + seq(|objects|, i requires 0 <= i < |objects| => Operation.Pinned(id, objects[i].oid))
    {
      found := {};
      var i := 0;
      while i < |objects|
        invariant 0 <= i <= |objects| && Valid()
        invariant pinned == old(pinned) + set o | o in objects[..i] :: o.oid
        invariant found == set o | o in objects[..i] && o.oid in account.held && o.Genuine()
        invariant account.log == old(account.log) + seq(i, k requires 0 <= k < i => Operation.Pinned(id, objects[k].oid))
      {
        Record(Operation.Pinned(id, objects[i].oid));
        pinned := pinned + {objects[i].oid};
        if objects[i].oid in account.held && objects[i].Genuine() { found := found + {objects[i]}; }
        assert objects[..i + 1] == objects[..i] + [objects[i]];
        i := i + 1;
      }
      assert objects[..i] == objects;
    }

    method Has(lfs: LfsObject) returns (found: bool)
      requires Valid()
      modifies this`pinned, account`log
      ensures Valid() && pinned == old(pinned) + {lfs.oid}
      ensures found == (lfs.oid in account.held && lfs.Genuine())
      ensures account.log == old(account.log + PinFor(lfs.oid)) + [Probed(id, lfs.oid)]
    {
      Pin(lfs);
      found := ReaderHas(lfs);
    }

    /** Stores an object from `source`, whatever bytes that turns out to have.  An upload may end up
        stored or not (`arrives`), and one that does may be reported as failed.  It succeeds exactly when
        the source was the object and the account then holds it. */
    method Put(lfs: LfsObject, source: Content, arrives: bool, reported: bool) returns (ok: bool)
      requires Valid()
      modifies this`pinned, account
      ensures Valid() && pinned == old(pinned) + {lfs.oid}
      ensures ok <==> source == lfs.oid && lfs.Genuine() && (lfs.oid in old(account.held) || arrives)
      ensures account.held == old(account.held) + if ok then {lfs.oid} else {}
      // It pins, probes, uploads what is not there, and probes again when a verified upload failed.
      ensures var started := old(account.log + PinFor(lfs.oid)) + [Probed(id, lfs.oid)];
              account.log == if lfs.oid in old(account.held) && lfs.Genuine() then started
                             else started + [Uploaded(id, lfs.oid)]
                                  + if source != lfs.oid || !lfs.Genuine() || (arrives && reported) then [] else [Probed(id, lfs.oid)]
    {
      Pin(lfs);
      var verifies := source == lfs.oid && lfs.Genuine();
      var there := ReaderHas(lfs);
      if there { return verifies; }
      // Nothing unverified is ever stored.
      Record(Uploaded(id, lfs.oid));
      if verifies && arrives { account.held := account.held + {lfs.oid}; }
      if verifies && arrives && reported { return true; }
      if !verifies { return false; }
      ok := ReaderHas(lfs);
    }

    method ReleasePublication()
      requires Valid()
      modifies this`pinned, account`log
      ensures Valid() && pinned == {} && account.log == old(account.log) + [Released(id)]
    {
      CoveredLater(account.log, Released(id));
      account.log := account.log + [Released(id)];
      pinned := {};
    }
  }
}
