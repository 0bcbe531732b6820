/** What a publication checks before it asks for credentials, and which boundary it then pushes
    under (`artifacts-git-remote.ts`). */
module SizeGate {
  import opened Objects
  import opened CommitGraph

  const MAX_BLOB_BYTES := 32_000_000

  datatype Issue = Issue(blob: Content, path: Path)

  /** Commits `log commit --not head^@` lists: everything reachable that no parent of `head` reaches. */
  function CurrentLayers(commit: Commit, head: Option<Commit>, cut: set<Commit>): set<Commit> {
    Ancestors(commit, cut) -
    if head.None? then {} else History((set p | p in Parents(head.value, cut)), cut)
  }

  ghost predicate Fits(blob: Content) {
    blob.Size() <= MAX_BLOB_BYTES
  }

  /** Reads each distinct tree once and collects every oversized path. */
  method CheckCurrentLayers(commit: Commit, head: Option<Commit>, cut: set<Commit>) returns (issues: set<Issue>)
    ensures forall i: Issue :: i in issues <==>
              !Fits(i.blob) && exists c: Commit :: c in CurrentLayers(commit, head, cut) && i.path in c.tree && c.tree[i.path].blob == i.blob
    ensures issues == {} <==> forall b :: b in Blobs(CurrentLayers(commit, head, cut)) ==> Fits(b)
  {
    ghost var layers := CurrentLayers(commit, head, cut);
    ghost var every: set<Tree> := set c: Commit | c in layers :: c.tree;
    var trees: set<Tree> := set c: Commit | c in CurrentLayers(commit, head, cut) :: c.tree;
    issues := {};
    while trees != {}
      invariant trees <= every
      invariant forall i: Issue :: i in issues <==>
                  !Fits(i.blob) && exists t: Tree :: t in every - trees && i.path in t && t[i.path].blob == i.blob
    {
      var tree: Tree :| tree in trees;
      ghost var before, left := issues, trees;
      issues := issues + set p | p in tree && tree[p].blob.Size() > MAX_BLOB_BYTES :: Issue(tree[p].blob, p);
      trees := trees - {tree};
      assert every - trees == (every - left) + {tree};
    }
    forall b | b in Blobs(layers) && !Fits(b) ensures issues != {} {
      var c, p :| c in layers && p in c.tree && c.tree[p].blob == b;
      assert Issue(b, p) in issues;
    }
  }

  datatype Decision = Rejected(issues: set<Issue>) | Push(boundary: Option<Commit>)

  /** The shallow boundaries the push runs under: the boundary alone, or the checkout's own. */
  function PushCut(boundary: Option<Commit>, cut: set<Commit>): set<Commit> {
    if boundary.None? then cut else {boundary.value}
  }

  /** A checkpoint's commits: each layer has the one below it as its only parent. */
  ghost predicate Layered(portable: Commit, head: Option<Commit>) {
    && |portable.parents| == 1
    && var tracked := portable.parents[0];
    && |tracked.parents| == 1
    && var index := tracked.parents[0];
    && index.parents == if head.None? then [] else [head.value]
  }

  /** The three layers of a checkpoint. */
  function Layers(portable: Commit): set<Commit>
    requires |portable.parents| == 1 && |portable.parents[0].parents| == 1
  {
    {portable, portable.parents[0], portable.parents[0].parents[0]}
  }

  /** The layers whose parent is part of the checkpoint too. */
  ghost function Upper(portable: Commit, head: Option<Commit>): set<Commit>
    requires Layered(portable, head)
  {
    if head.None? then {portable, portable.parents[0]} else Layers(portable)
  }

  function Current(portable: Commit, head: Option<Commit>): set<Commit>
    requires |portable.parents| == 1 && |portable.parents[0].parents| == 1
  {
    Layers(portable) + if head.None? then {} else {head.value}
  }

  /** Under `cut`, a checkpoint reaches its layers and what its HEAD reaches, if `cut` marks none
      of them. */
  lemma LayeredReach(portable: Commit, head: Option<Commit>, cut: set<Commit>)
    requires Layered(portable, head) && cut !! Upper(portable, head)
    ensures Ancestors(portable, cut) == Layers(portable) + if head.None? then {} else Ancestors(head.value, cut)
  {
    var tracked := portable.parents[0];
    var index := tracked.parents[0];
    var below := if head.None? then {} else Ancestors(head.value, cut);
    assert Ancestors(index, cut) == {index} + below by {
      if head.Some? { SingleParent(index, cut); } else { NoParent(index, cut); }
    }
    TwoParents(portable, tracked, index, cut, below);
  }

  lemma TwoParents(portable: Commit, tracked: Commit, index: Commit, cut: set<Commit>, below: set<Commit>)
    requires portable.parents == [tracked] && tracked.parents == [index] && portable !in cut && tracked !in cut
    requires Ancestors(index, cut) == {index} + below
    ensures Ancestors(portable, cut) == {portable, tracked, index} + below
  {
    assert Ancestors(tracked, cut) == {tracked} + Ancestors(index, cut) by { SingleParent(tracked, cut); }
    assert Ancestors(portable, cut) == {portable} + Ancestors(tracked, cut) by { SingleParent(portable, cut); }
  }

  /** Every current layer is checked exactly when the checkout's shallow file marks none above
      the lowest. */
  lemma CurrentLayersChecked(portable: Commit, head: Option<Commit>, cut: set<Commit>)
    requires Layered(portable, head)
    ensures Current(portable, head) <= CurrentLayers(portable, head, cut) <==> cut !! Upper(portable, head)
  {
    var tracked := portable.parents[0];
    var index := tracked.parents[0];
    assert index < tracked < portable;
    if cut !! Upper(portable, head) {
      LayeredReach(portable, head, cut);
      if head.Some? {
        assert head.value in index.parents;
        NotBelowHead(portable, head.value, cut);
        NotBelowHead(tracked, head.value, cut);
        NotBelowHead(index, head.value, cut);
        NotBelowHead(head.value, head.value, cut);
      }
    } else if portable in cut {
      assert tracked !in Ancestors(portable, cut);
    } else if tracked in cut {
      assert Ancestors(tracked, cut) == {tracked};
      assert Ancestors(portable, cut) == {portable, tracked};
    } else {
      assert head.Some? && head.value in index.parents;
      assert Ancestors(index, cut) == {index};
      assert Ancestors(tracked, cut) == {tracked, index};
      assert Ancestors(portable, cut) == {portable, tracked, index};
    }
  }

  /** Such a checkout: its shallow file marks the tracked layer, so the oversized blob of the index layer
      is in no layer the check lists, and in the pack pushed from HEAD. */
  lemma MarkedLayerUnchecked(head: Commit, index: Commit, tracked: Commit, portable: Commit)
    requires head == Commit(map[], [], "") && index == Commit(map["f" := Entry(Regular, Raw(0, MAX_BLOB_BYTES + 1))], [head], "")
    requires tracked == Commit(map[], [index], "") && portable == Commit(map[], [tracked], "")
    ensures Layered(portable, Some(head)) && Blobs(CurrentLayers(portable, Some(head), {tracked})) == {}
    ensures Raw(0, MAX_BLOB_BYTES + 1) in Carried(portable, Some(head), None, {tracked}) && !Fits(Raw(0, MAX_BLOB_BYTES + 1))
  {
    assert head in index.parents && index in tracked.parents && tracked in portable.parents;
    assert head < index < tracked < portable;
    NoParent(tracked, {tracked});
    SingleParent(portable, {tracked});
    assert Ancestors(portable, {tracked}) == {portable, tracked};
    LayeredReach(portable, Some(head), {head});
    assert index in Ancestors(portable, {head}) && "f" in index.tree;
    assert index.tree["f"].blob in Blobs(Ancestors(portable, {head}));
  }

  lemma NotBelowHead(c: Commit, head: Commit, cut: set<Commit>)
    requires c == head || head < c
    ensures c !in History((set p | p in Parents(head, cut)), cut)
  {
    forall p | p in Parents(head, cut) ensures c !in Ancestors(p, cut) {
      Acyclic(c, p, cut);
    }
  }

  /** Blobs the push can carry: those of the pushed commits the remote's head does not reach. */
  ghost function Carried(portable: Commit, boundary: Option<Commit>, remoteHead: Option<Commit>, cut: set<Commit>): set<Content> {
    Blobs(Ancestors(portable, PushCut(boundary, cut))) -
    if remoteHead.None? then {} else Blobs(Ancestors(remoteHead.value, cut))
  }

  /** The new commits of HEAD since `remoteHead`. */
  function NewCommits(head: Commit, remoteHead: Commit, cut: set<Commit>): set<Commit> {
    Ancestors(head, cut) - Ancestors(remoteHead, cut)
  }

  /** The remote's head is an ancestor of `head`, and every blob listed for the commits since fits. */
  ghost predicate NothingLargeSince(head: Commit, remoteHead: Option<Commit>, cut: set<Commit>, alsoListed: set<Content>) {
    && remoteHead.Some? && remoteHead.value in Ancestors(head, cut)
    && forall b :: b in Blobs(NewCommits(head, remoteHead.value, cut)) && (b !in Blobs(Ancestors(remoteHead.value, cut)) || b in alsoListed) ==> Fits(b)
  }

  /** The gate of `publishCheckpoint`, up to the push itself.  It rejects exactly when a listed layer holds
      an oversized blob, and otherwise pushes under the checkout's own boundaries exactly when there is no
      HEAD or nothing large has come since the remote's.  Git may list blobs that commits of `remoteHead`
      below its tip also hold (`alsoListed`); it lists every other blob of the new commits. */
  method PublishCheckpoint(portable: Commit, head: Option<Commit>, remoteHead: Option<Commit>, cut: set<Commit>, alsoListed: set<Content>)
    returns (decision: Decision)
    ensures decision.Rejected? <==> exists b :: b in Blobs(CurrentLayers(portable, head, cut)) && !Fits(b)
    ensures decision.Rejected? ==>
              forall i: Issue :: i in decision.issues <==>
                !Fits(i.blob) && exists c: Commit :: c in CurrentLayers(portable, head, cut) && i.path in c.tree && c.tree[i.path].blob == i.blob
    ensures decision.Push? ==>
              decision.boundary == if head.None? || NothingLargeSince(head.value, remoteHead, cut, alsoListed) then None else head
    // The gate: nothing over the limit is pushed under the checkout's own boundaries, nor from HEAD if no
    // layer the check missed holds any.
    ensures decision == Push(None) ==> forall b :: b in Carried(portable, None, remoteHead, cut) ==> Fits(b)
    ensures decision.Push? && decision.boundary.Some? && Layered(portable, head) ==>
              ((forall b :: b in Carried(portable, head, remoteHead, cut) ==> Fits(b)) <==>
               (forall b :: b in Missed(portable, head, remoteHead, cut) ==> Fits(b)))
  {
    var issues := CheckCurrentLayers(portable, head, cut);
    if issues != {} { return Rejected(issues); }
    var boundary := head;
    if boundary.Some? && remoteHead.Some? && remoteHead.value in Ancestors(boundary.value, cut) {
      var every := Blobs(NewCommits(boundary.value, remoteHead.value, cut));
      var old' := Blobs(Ancestors(remoteHead.value, cut));
      var listed := (every - old') + every * alsoListed;
      if forall b | b in listed :: b.Size() <= MAX_BLOB_BYTES { boundary := None; }
    }
    decision := Push(boundary);
    if boundary.None? {
      OpenGateHolds(portable, head, remoteHead, cut);
    } else if Layered(portable, head) {
      GateHoldsIff(portable, head.value, remoteHead, cut);
    }
  }

  /** Pushed under the checkout's own boundaries, a checkpoint that passed the checks carries no oversized
      blob, whatever they mark: what they hide from the check they hide from the push. */
  lemma OpenGateHolds(portable: Commit, head: Option<Commit>, remoteHead: Option<Commit>, cut: set<Commit>)
    requires forall b :: b in Blobs(CurrentLayers(portable, head, cut)) ==> Fits(b)
    requires head.None? || (remoteHead.Some?
               && forall b :: b in Blobs(NewCommits(head.value, remoteHead.value, cut)) - Blobs(Ancestors(remoteHead.value, cut)) ==> Fits(b))
    ensures forall b :: b in Carried(portable, None, remoteHead, cut) ==> Fits(b)
  {
    forall b | b in Carried(portable, None, remoteHead, cut) ensures Fits(b) {
      var c, p :| c in Ancestors(portable, cut) && p in c.tree && c.tree[p].blob == b;
      if c in CurrentLayers(portable, head, cut) {
        assert b in Blobs(CurrentLayers(portable, head, cut));
      } else if head.Some? {
        var q :| q in Parents(head.value, cut) && c in Ancestors(q, cut);
        AncestorsClosed(head.value, cut);
        AncestorsTransitive(head.value, q, cut);
        assert c in NewCommits(head.value, remoteHead.value, cut);
        assert b in Blobs(NewCommits(head.value, remoteHead.value, cut));
      }
    }
  }

  /** Blobs of the layers the check does not list, beside those the remote's head reaches. */
  ghost function Missed(portable: Commit, head: Option<Commit>, remoteHead: Option<Commit>, cut: set<Commit>): set<Content>
    requires |portable.parents| == 1 && |portable.parents[0].parents| == 1
  {
    Blobs(Current(portable, head) - CurrentLayers(portable, head, cut)) - if remoteHead.None? then {} else Blobs(Ancestors(remoteHead.value, cut))
  }

  /** Pushed from HEAD, one that passed the checks carries no oversized blob if and only if no layer the
      check missed holds one; it misses none where the shallow file marks none above the lowest. */
  lemma GateHoldsIff(portable: Commit, head: Commit, remoteHead: Option<Commit>, cut: set<Commit>)
    requires Layered(portable, Some(head))
    requires forall b :: b in Blobs(CurrentLayers(portable, Some(head), cut)) ==> Fits(b)
    ensures (forall b :: b in Carried(portable, Some(head), remoteHead, cut) ==> Fits(b))
       <==> forall b :: b in Missed(portable, Some(head), remoteHead, cut) ==> Fits(b)
    ensures cut !! Upper(portable, Some(head)) ==> Missed(portable, Some(head), remoteHead, cut) == {}
  {
    Distinct(portable, head);
    LayeredReach(portable, Some(head), {head});
    CurrentLayersChecked(portable, Some(head), cut);
    assert Ancestors(portable, {head}) == Current(portable, Some(head));
    forall b ensures b in Carried(portable, Some(head), remoteHead, cut) && !Fits(b) <==> b in Missed(portable, Some(head), remoteHead, cut) && !Fits(b) {
      if b in Carried(portable, Some(head), remoteHead, cut) && !Fits(b) {
        var c, p :| c in Current(portable, Some(head)) && p in c.tree && c.tree[p].blob == b;
        assert c in CurrentLayers(portable, Some(head), cut) ==> b in Blobs(CurrentLayers(portable, Some(head), cut));
      }
    }
  }

  lemma Distinct(portable: Commit, head: Commit)
    requires Layered(portable, Some(head))
    ensures head !in Layers(portable)
  {
    var index := portable.parents[0].parents[0];
    assert head in index.parents;
    assert head < index < portable.parents[0] < portable;
  }
}
