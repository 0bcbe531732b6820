/** Pushing a checkpoint's history to Artifacts, a remote that refuses some packs and every
    pack over its size limit (`artifacts-git-remote.ts`, `artifacts-push.ts`). */
module ArtifactsPush {
  import opened Objects
  import opened CommitGraph

  /** Staging refs live under a prefix no other push uses. */
  datatype RefName = Named(name: string) | Staging(index: nat)

  datatype Answer = Accepted | TooLarge | PackRefused | OtherFailure

  /** One attempt at a push, with what became of it.  `cut` are the boundaries its pack was cut at,
      `lacked` is what of the pack the remote did not hold yet, `limit` how many listed commits the
      attempt was meant to carry, `owed` the commits counted as sent before it that the remote did not
      hold.  `landed` says that the remote applied it, `missing` that it refused it for a missing parent. */
  datatype Attempt = Attempt(tip: Commit, ref: RefName, cut: set<Commit>, pack: set<Commit>, lacked: set<Commit>, owed: set<Commit>,
                             limit: nat, retry: bool, answer: Answer, landed: bool, missing: bool)

  /** The commits `git push` sends for `tip`: what it reaches, less what the advertised tips
      this checkout knows reach, both walked under the shallow boundaries `cut`. */
  function Pack(tip: Commit, known: set<Commit>, cut: set<Commit>): set<Commit> {
    Ancestors(tip, cut) - History(known, cut)
  }

  /** What the receiving side checks before it moves a ref to `tip`. */
  ghost predicate Connected(commits: set<Commit>, tip: Commit, boundaries: set<Commit>) {
    tip in commits && Closed(commits, boundaries)
  }

  /** The boundaries a push tells the remote about. */
  function Told(tip: Commit, cut: set<Commit>): set<Commit> {
    cut * Ancestors(tip, cut)
  }

  /** Artifacts' repository: the commits it holds, its refs and the commits it holds without
      their parents.  The rest records what it was asked: the pushes, whether fetching its boundaries
      worked, and the refs to delete. */
  class ArtifactsRemote {
    var commits: set<Commit>
    var refs: map<RefName, Commit>
    var shallow: set<Commit>
    ghost var log: seq<Attempt>
    ghost var fetches: seq<bool>
    ghost var deletions: seq<set<RefName>>

    ghost predicate Valid()
      reads this
    {
      Closed(commits, shallow) && refs.Values <= commits
    }

    constructor (commits: set<Commit>, refs: map<RefName, Commit>, shallow: set<Commit>)
      requires Closed(commits, shallow) && refs.Values <= commits
      ensures Valid() && this.commits == commits && this.refs == refs && this.shallow == shallow && log == [] && fetches == [] && deletions == []
    {
      this.commits, this.refs, this.shallow := commits, refs, shallow;
      log, fetches, deletions := [], [], [];
    }

    /** Receive-pack.  It may refuse any pack, and applies only a connected one.  A push it applied
        may still fail on the way back; one refused for its size was never read. */
    method Receive(tip: Commit, ref: RefName, cut: set<Commit>, pack: set<Commit>, owed: set<Commit>, limit: nat, retry: bool)
      returns (a: Attempt)
      requires Valid()
      modifies this`commits, this`refs, this`shallow, this`log
      ensures Valid() && log == old(log) + [a]
      ensures a == Attempt(tip, ref, cut, pack, pack - old(commits), owed, limit, retry, a.answer, a.landed, a.missing)
      ensures (a.answer == Accepted ==> a.landed) && (a.answer == TooLarge ==> !a.landed)
      ensures a.landed ==>
                && Connected(old(commits) + pack, tip, old(shallow) + Told(tip, cut))
                && commits == old(commits) + pack
                && refs == old(refs)[ref := tip]
                && shallow == old(shallow) + Told(tip, cut)
      ensures !a.landed ==> unchanged(`commits) && unchanged(`refs) && unchanged(`shallow)
      ensures a.missing ==> a.answer == PackRefused && !Connected(old(commits) + pack, tip, old(shallow) + Told(tip, cut))
    {
      var lost: bool, answer: Answer := *, *;
      var after, boundaries := commits + pack, shallow + Told(tip, cut);
      a := Attempt(tip, ref, cut, pack, pack - commits, owed, limit, retry, answer, false, false);
      if answer == Accepted || (lost && answer != TooLarge) {
        if tip in after && forall c | c in after :: forall p | p in Parents(c, boundaries) :: p in after {
          commits, shallow, refs := after, boundaries, refs[ref := tip];
          a := a.(landed := true);
        } else if answer == Accepted {
          a := a.(answer := PackRefused, missing := true);
        }
      }
      log := log + [a];
    }

    /** Fetches every ref to learn the boundaries, which are not advertised.  It may fail. */
    method FetchBoundaries() returns (boundaries: Option<set<Commit>>)
      modifies this`fetches
      ensures fetches == old(fetches) + [boundaries.Some?]
      ensures boundaries.Some? ==> boundaries.value == shallow
    {
      var reached: bool := *;
      boundaries := if reached then Some(shallow) else None;
      fetches := fetches + [reached];
    }

    /** Removes refs, unless the remote cannot be reached; the commits stay. */
    method DeleteRefs(names: set<RefName>)
      requires Valid()
      modifies this`refs, this`deletions
      ensures Valid() && (refs == old(refs) - names || refs == old(refs))
      ensures deletions == old(deletions) + [names]
    {
      var reached: bool := *;
      if reached { refs := refs - names; }
      deletions := deletions + [names];
    }
  }

  // ------------------------------------------------------------------ packs and boundaries

  /** Cutting at the remote's boundaries as well as the push's own always gives a pack the
      remote can connect: every parent of a sent commit is sent or held. */
  lemma JoinedBoundariesConnect(commits: set<Commit>, shallow: set<Commit>, known: set<Commit>, own: set<Commit>, tip: Commit)
    requires Closed(commits, shallow) && known <= commits
    ensures var cut := own + shallow;
            Connected(commits + Pack(tip, known, cut), tip, shallow + Told(tip, cut))
  {
    var cut := own + shallow;
    var pack := Pack(tip, known, cut);
    forall a, p | a in commits && p in Parents(a, cut) ensures p in commits {
      assert p in Parents(a, shallow);
    }
    HistoryLeast(known, cut, commits);
    AncestorsClosed(tip, cut);
    forall c, p | c in commits + pack && p in Parents(c, shallow + Told(tip, cut)) ensures p in commits + pack {
      if c in commits {
        assert p in Parents(c, shallow);
      } else {
        assert c in cut <==> c in Told(tip, cut);
        assert p in Parents(c, cut);
      }
    }
  }

  ghost function Largest(commits: set<Commit>): (n: nat)
    ensures forall c :: c in commits ==> |c.message| < n
  {
    if commits == {} then 0
    else
      var c :| c in commits;
      var n := Largest(commits - {c});
      if |c.message| < n then n else |c.message| + 1
  }

  lemma Fresh(commits: set<Commit>, parent: Commit) returns (c: Commit)
    ensures c.parents == [parent] && c !in commits
  {
    c := Commit(map[], [parent], seq(Largest(commits), _ => 'm'));
  }

  /** Cutting at the push's own boundaries alone connects for every tip exactly when nothing
      the walk counts as the remote's is missing there. */
  lemma OwnBoundariesConnect(commits: set<Commit>, shallow: set<Commit>, known: set<Commit>, own: set<Commit>)
    requires Closed(commits, shallow) && known <= commits
    ensures (forall tip :: Connected(commits + Pack(tip, known, own), tip, shallow + Told(tip, own)))
       <==> History(known, own) <= commits
  {
    if History(known, own) <= commits {
      forall tip ensures Connected(commits + Pack(tip, known, own), tip, shallow + Told(tip, own)) {
        OwnConnects(commits, shallow, known, own, tip);
      }
    } else {
      var lost :| lost in History(known, own) && lost !in commits;
      var tip := Fresh(commits + own + shallow + History(known, own), lost);
      assert lost in Parents(tip, shallow + Told(tip, own));
      var after := commits + Pack(tip, known, own);
      assert tip in after && lost !in after;
      assert !Closed(after, shallow + Told(tip, own));
      assert !Connected(commits + Pack(tip, known, own), tip, shallow + Told(tip, own));
    }
  }

  lemma OwnConnects(commits: set<Commit>, shallow: set<Commit>, known: set<Commit>, own: set<Commit>, tip: Commit)
    requires Closed(commits, shallow) && History(known, own) <= commits
    ensures Connected(commits + Pack(tip, known, own), tip, shallow + Told(tip, own))
  {
    AncestorsClosed(tip, own);
    forall c, p | c in commits + Pack(tip, known, own) && p in Parents(c, shallow + Told(tip, own))
      ensures p in commits + Pack(tip, known, own)
    {
      if c in commits {
        assert p in Parents(c, shallow);
      } else {
        assert c in own <==> c in Told(tip, own);
        assert p in Parents(c, own);
      }
    }
  }

  /** Such a refusal: a merged parent the remote held only as the parent of a
      boundary is left out by the push's own boundaries and sent with the remote's. */
  lemma MergedParentBelowBoundary(root: Commit, boundary: Commit, merge: Commit)
    requires root.parents == [] && boundary.parents == [root] && merge.parents == [boundary, root]
    ensures Closed({boundary}, {boundary})
    ensures !Connected({boundary} + Pack(merge, {boundary}, {}), merge, {boundary} + Told(merge, {}))
    ensures Pack(merge, {boundary}, {boundary}) == {merge, root}
    // The older commit the retry sends is none the push would list.
    ensures Ancestors(merge, {}) - History({boundary}, {}) == {merge}
  {
    assert Ancestors(root, {}) == {root} == Ancestors(root, {boundary});
    assert root in boundary.parents;
    assert Ancestors(boundary, {}) == {boundary, root};
    assert boundary in merge.parents && root in merge.parents;
    assert root in Ancestors(boundary, {}) && boundary in Ancestors(boundary, {boundary});
    assert History({boundary}, {}) == {boundary, root};
    assert root < boundary < merge;
    assert Pack(merge, {boundary}, {}) == {merge} by {
      assert Ancestors(merge, {}) == {merge, boundary, root};
    }
    assert root in Parents(merge, {boundary} + Told(merge, {}));
    assert Ancestors(boundary, {boundary}) == {boundary};
    assert History({boundary}, {boundary}) == {boundary};
    assert Ancestors(merge, {boundary}) == {merge, boundary, root};
  }
}
