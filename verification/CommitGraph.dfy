/** Reachability over commits whose parents may be cut off at shallow boundaries. */
module CommitGraph {
  import opened Objects

  /** The parents Git follows from `c` when `cut` is the shallow file: a boundary has none. */
  function Parents(c: Commit, cut: set<Commit>): seq<Commit> {
    if c in cut then [] else c.parents
  }

  /** Every commit reachable from `c`, itself included. */
  function Ancestors(c: Commit, cut: set<Commit>): set<Commit>
    decreases c
  {
    {c} + if c in cut then {} else set p, a | p in c.parents && a in Ancestors(p, cut) :: a
  }

  /** Every commit reachable from one of `tips`. */
  function History(tips: set<Commit>, cut: set<Commit>): set<Commit> {
    set t, a | t in tips && a in Ancestors(t, cut) :: a
  }

  /** Every parent of a member that is not a boundary is a member. */
  ghost predicate Closed(commits: set<Commit>, cut: set<Commit>) {
    forall c, p :: c in commits && p in Parents(c, cut) ==> p in commits
  }

  lemma {:induction false} AncestorsLeast(c: Commit, cut: set<Commit>, commits: set<Commit>)
    requires Closed(commits, cut) && c in commits
    ensures Ancestors(c, cut) <= commits
    decreases c
  {
    if c !in cut {
      forall p | p in c.parents ensures Ancestors(p, cut) <= commits {
        assert p in Parents(c, cut);
        AncestorsLeast(p, cut, commits);
      }
    }
  }

  lemma {:induction false} AncestorsClosed(c: Commit, cut: set<Commit>)
    ensures Closed(Ancestors(c, cut), cut)
    decreases c
  {
    forall a, q | a in Ancestors(c, cut) && q in Parents(a, cut) ensures q in Ancestors(c, cut) {
      if a == c {
        assert q in Ancestors(q, cut);
      } else {
        var p :| p in c.parents && a in Ancestors(p, cut);
        AncestorsClosed(p, cut);
        assert q in Ancestors(p, cut);
      }
    }
  }

  lemma AncestorsTransitive(c: Commit, a: Commit, cut: set<Commit>)
    requires a in Ancestors(c, cut)
    ensures Ancestors(a, cut) <= Ancestors(c, cut)
  {
    AncestorsClosed(c, cut);
    AncestorsLeast(a, cut, Ancestors(c, cut));
  }

  lemma HistoryClosed(tips: set<Commit>, cut: set<Commit>)
    ensures Closed(History(tips, cut), cut)
  {
    forall a, q | a in History(tips, cut) && q in Parents(a, cut) ensures q in History(tips, cut) {
      var t :| t in tips && a in Ancestors(t, cut);
      AncestorsClosed(t, cut);
      assert q in Ancestors(t, cut);
    }
  }

  lemma HistoryLeast(tips: set<Commit>, cut: set<Commit>, commits: set<Commit>)
    requires Closed(commits, cut) && tips <= commits
    ensures History(tips, cut) <= commits
  {
    forall t | t in tips ensures Ancestors(t, cut) <= commits {
      AncestorsLeast(t, cut, commits);
    }
  }

  /** Cutting at more boundaries never reaches more. */
  lemma MoreCut(c: Commit, less: set<Commit>, more: set<Commit>)
    requires less <= more
    ensures Ancestors(c, more) <= Ancestors(c, less)
  {
    AncestorsClosed(c, less);
    forall a, p | a in Ancestors(c, less) && p in Parents(a, more) ensures p in Ancestors(c, less) {
      assert p in Parents(a, less);
    }
    AncestorsLeast(c, more, Ancestors(c, less));
  }

  /** The graph is acyclic: nothing reachable through a parent of `c` reaches `c`. */
  lemma {:induction false} Acyclic(c: Commit, d: Commit, cut: set<Commit>)
    requires d < c
    ensures c !in Ancestors(d, cut)
    decreases d
  {
    if c in Ancestors(d, cut) {
      var p :| p in d.parents && c in Ancestors(p, cut);
      assert p < d < c;
      Acyclic(c, p, cut);
    }
  }

  /** Every blob in the trees of `commits`. */
  function Blobs(commits: set<Commit>): set<Content> {
    set c, p | c in commits && p in c.tree :: c.tree[p].blob
  }

  lemma NoParent(c: Commit, cut: set<Commit>)
    requires Parents(c, cut) == []
    ensures Ancestors(c, cut) == {c}
  {
  }

  lemma SingleParent(c: Commit, cut: set<Commit>)
    requires |c.parents| == 1 && c !in cut
    ensures Ancestors(c, cut) == {c} + Ancestors(c.parents[0], cut)
  {
    var parent := c.parents[0];
    forall a ensures a in Ancestors(c, cut) <==> a == c || a in Ancestors(parent, cut) {
      if a in Ancestors(c, cut) && a != c {
        var p :| p in c.parents && a in Ancestors(p, cut);
        assert p == parent;
      } else if a in Ancestors(parent, cut) {
        assert parent in c.parents;
      }
    }
  }
}
