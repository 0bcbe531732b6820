/** A push Artifacts refused as too large, sent as several (`artifacts-git-remote.ts`). */
module SteppedPush {
  import opened Objects
  import opened CommitGraph
  import opened ArtifactsPush

  function Elements(commits: seq<Commit>): set<Commit> {
    set c | c in commits
  }

  lemma {:induction false} AtMost(some: set<Commit>, commits: seq<Commit>)
    requires some <= Elements(commits)
    ensures |some| <= |commits|
  {
    if commits == [] {
      assert some == {};
    } else {
      var rest := some - {commits[0]};
      assert rest <= Elements(commits[1..]);
      AtMost(rest, commits[1..]);
    }
  }

  lemma IndexOf(commits: seq<Commit>, c: Commit) returns (i: nat)
    requires c in Elements(commits)
    ensures i < |commits| && commits[i] == c
  {
    i :| 0 <= i < |commits| && commits[i] == c;
  }

  lemma FirstElements(commits: seq<Commit>, sent: nat, end: nat)
    requires sent <= end <= |commits|
    ensures Elements(commits[..end]) == Elements(commits[..sent]) + Elements(commits[sent..end])
    ensures Elements(commits[..end]) <= Elements(commits)
    ensures Elements(commits[..0]) == {} && Elements(commits[..|commits|]) == Elements(commits)
  {
    assert commits[..end] == commits[..sent] + commits[sent..end];
    assert commits[..|commits|] == commits;
  }

  lemma FirstWithin(commits: seq<Commit>, some: nat, more: nat)
    requires some <= more <= |commits|
    ensures Elements(commits[..some]) <= Elements(commits[..more])
  {
    assert commits[..more][..some] == commits[..some];
  }

  lemma Joined(log: seq<Attempt>, steps: seq<Attempt>, attempts: seq<Attempt>)
    ensures log + steps + attempts == log + (steps + attempts)
  {
  }

  // ------------------------------------------------------------------ the listing

  ghost predicate ParentsFirst(commits: seq<Commit>, own: set<Commit>, j: nat)
    requires j < |commits|
  {
    forall i :: 0 <= i < |commits| && commits[i] in Parents(commits[j], own) ==> i < j
  }

  /** What `rev-list --topo-order --reverse --parents target --not held` prints: the commits
      `held` lacks, parents before children. */
  ghost predicate IsListing(commits: seq<Commit>, target: Commit, held: set<Commit>, own: set<Commit>) {
    && Elements(commits) == Ancestors(target, own) - History(held, own)
    && forall j :: 0 <= j < |commits| ==> ParentsFirst(commits, own, j)
  }

  /** Listed commits reach only earlier listed commits and what is held. */
  lemma ListedReach(commits: seq<Commit>, target: Commit, held: set<Commit>, own: set<Commit>, i: nat)
    requires IsListing(commits, target, held, own) && i < |commits|
    ensures Ancestors(commits[i], own) <= Ancestors(target, own)
    ensures Ancestors(commits[i], own) - History(held, own) <= Elements(commits[..i + 1])
  {
    assert commits[i] in Elements(commits);
    AncestorsTransitive(target, commits[i], own);
    HistoryClosed(held, own);
    AncestorsClosed(target, own);
    var reached := Elements(commits[..i + 1]) + History(held, own);
    forall c, p | c in reached && p in Parents(c, own) ensures p in reached {
      if c !in History(held, own) {
        var j := IndexOf(commits[..i + 1], c);
        assert c in Elements(commits) && ParentsFirst(commits, own, j);
        if p !in History(held, own) {
          var k := IndexOf(commits, p);
          assert k < j;
          assert p == commits[..i + 1][k];
        }
      }
    }
    assert commits[i] == commits[..i + 1][i];
    AncestorsLeast(commits[i], own, reached);
  }

  /** Joining boundaries that cut no listed commit loses no listed commit. */
  lemma CutKeepsListed(commits: seq<Commit>, target: Commit, held: set<Commit>, own: set<Commit>, cut: set<Commit>, tip: Commit)
    requires IsListing(commits, target, held, own) && own <= cut
    requires cut * Elements(commits) <= own
    requires tip in Ancestors(target, own)
    ensures Ancestors(tip, own) - History(held, own) <= Ancestors(tip, cut)
  {
    AncestorsTransitive(target, tip, own);
    AncestorsClosed(tip, cut);
    HistoryClosed(held, own);
    MoreCut(tip, own, cut);
    var reached := Ancestors(tip, cut) + History(held, own);
    forall c, p | c in reached && p in Parents(c, own) ensures p in reached {
      if c !in History(held, own) {
        assert c in Elements(commits);
        assert p in Parents(c, cut);
      }
    }
    AncestorsLeast(tip, own, reached);
  }

  /** The commits of a step that are no listed parent of another of its commits. */
  ghost predicate IsTip(step: seq<Commit>, own: set<Commit>, c: Commit) {
    c in step && forall d :: d in step ==> c !in Parents(d, own)
  }

  /** A listed commit that has `commits[i]` as parent comes after it. */
  lemma ChildLater(commits: seq<Commit>, target: Commit, held: set<Commit>, own: set<Commit>,
                   first: int, last: int, i: int, child: Commit) returns (j: int)
    requires IsListing(commits, target, held, own)
    requires 0 <= first <= i < last <= |commits|
    requires child in commits[first..last] && commits[i] in Parents(child, own)
    ensures i < j < last && commits[j] == child
  {
    var k := IndexOf(commits[first..last], child);
    j := first + k;
    assert ParentsFirst(commits, own, j);
  }

  /** What reaches a commit reaches its parents. */
  lemma ReachesParent(tip: Commit, child: Commit, parent: Commit, own: set<Commit>)
    requires child in Ancestors(tip, own) && parent in Parents(child, own)
    ensures parent in Ancestors(tip, own)
  {
    AncestorsClosed(tip, own);
  }

  /** Every commit of a step is reached by one of its tips. */
  lemma {:induction false} TipsCover(commits: seq<Commit>, target: Commit, held: set<Commit>, own: set<Commit>,
                                     first: int, last: int, i: int) returns (tip: Commit)
    requires IsListing(commits, target, held, own)
    requires 0 <= first <= i < last <= |commits|
    ensures IsTip(commits[first..last], own, tip) && commits[i] in Ancestors(tip, own)
    decreases last - i
  {
    var step := commits[first..last];
    if child :| child in step && commits[i] in Parents(child, own) {
      var j := ChildLater(commits, target, held, own, first, last, i, child);
      tip := TipsCover(commits, target, held, own, first, last, j);
      ReachesParent(tip, child, commits[i], own);
    } else {
      tip := commits[i];
      assert tip == step[i - first];
    }
  }

  // ------------------------------------------------------------------ one push

  /** What of a remote a push can change. */
  datatype Held = Held(commits: set<Commit>, refs: map<RefName, Commit>, shallow: set<Commit>)

  function HeldBy(remote: ArtifactsRemote): Held
    reads remote
  {
    Held(remote.commits, remote.refs, remote.shallow)
  }

  /** A push that reached the remote, whatever it answered. */
  predicate LandedAt(before: Held, after: Held, own: set<Commit>, tip: Commit, ref: RefName, pack: set<Commit>) {
    && after.refs == before.refs[ref := tip]
    && tip in after.commits && before.commits <= after.commits <= before.commits + pack
    && before.shallow <= after.shallow <= before.shallow + own
  }

  twostate predicate Landed(remote: ArtifactsRemote, own: set<Commit>, tip: Commit, ref: RefName, pack: set<Commit>)
    reads remote
  {
    LandedAt(old(HeldBy(remote)), HeldBy(remote), own, tip, ref, pack)
  }

  /** A push that did not reach the remote. */
  twostate predicate Missed(remote: ArtifactsRemote)
    reads remote
  {
    HeldBy(remote) == old(HeldBy(remote))
  }

  /** An attempt at a push of `tip`: its pack is cut at the push's own boundaries, or at the remote's too,
      or nothing was left to send. */
  ghost predicate Fits(a: Attempt, tip: Commit, ref: RefName, first: set<Commit>, again: set<Commit>, there: set<Commit>, before: set<Commit>, limit: nat) {
    && a.tip == tip && a.ref == ref && a.limit == limit && a.lacked == a.pack - there && a.owed == before - there
    && (!a.retry ==> a.pack == first)
    && (a.pack == first || a.pack == again || a.pack == {})
  }

  /** What one push sends: a pack cut at its own boundaries and, exactly if that is refused as a pack, one
      more, cut at the remote's boundaries too if they could be fetched.  That retry is never refused for
      a missing parent, and carries nothing if the first had landed all the same. */
  ghost predicate SentAgain(attempts: seq<Attempt>, answer: Answer, fetches: seq<bool>, own: set<Commit>, shallow: set<Commit>,
                            first: set<Commit>, again: set<Commit>)
  {
    && attempts != [] && |attempts| == (if attempts[0].answer == PackRefused then 2 else 1) && |fetches| == |attempts| - 1
    && !attempts[0].retry && attempts[0].cut == own && attempts[0].pack == first
    && answer == attempts[|attempts| - 1].answer
    && (|attempts| == 2 ==>
          var retry, fetched := attempts[1], fetches[0];
          && retry.retry
          && retry.pack == (if attempts[0].landed then {} else if fetched then again else first)
          && (!attempts[0].landed ==> retry.cut == if fetched then own + shallow else own)
          && (!attempts[0].landed && fetched ==> !retry.missing))
  }

  /** What one push may send and what it leaves behind. */
  twostate predicate Pushed(remote: ArtifactsRemote, new attempts: seq<Attempt>, local: set<Commit>, own: set<Commit>,
                            tip: Commit, ref: RefName, before: set<Commit>, limit: nat, answer: Answer)
    reads remote
  {
    var known := old(remote.refs.Values) * local;
    var first, again := Pack(tip, known, own), Pack(tip, known, own + old(remote.shallow));
    && attempts != [] && remote.log == old(remote.log) + attempts && old(remote.fetches) <= remote.fetches
    && SentAgain(attempts, answer, remote.fetches[|old(remote.fetches)|..], own, old(remote.shallow), first, again)
    && (forall a :: a in attempts ==> Fits(a, tip, ref, first, again, old(remote.commits), before, limit))
    && (Landed(remote, own, tip, ref, first + again) || (answer != Accepted && Missed(remote)))
    && (answer == Accepted ==> Landed(remote, own, tip, ref, first + again))
    && ((forall a :: a in attempts ==> !a.landed) ==> Missed(remote))
    && remote.deletions == old(remote.deletions)
  }

  /** The same push as whole objects, with the remote's boundaries added to the push's own when they
      can be fetched. */
  method PushAgain(remote: ArtifactsRemote, local: set<Commit>, own: set<Commit>, tip: Commit, ref: RefName, owed: set<Commit>, limit: nat)
    returns (again: Attempt)
    requires remote.Valid()
    modifies remote`commits, remote`refs, remote`shallow, remote`log, remote`fetches
    ensures remote.Valid() && remote.log == old(remote.log) + [again]
    ensures |remote.fetches| == |old(remote.fetches)| + 1 && old(remote.fetches) <= remote.fetches
    ensures var known, cut := old(remote.refs.Values) * local, if remote.fetches[|old(remote.fetches)|] then own + old(remote.shallow) else own;
            && again == Attempt(tip, ref, cut, Pack(tip, known, cut), Pack(tip, known, cut) - old(remote.commits), owed, limit, true,
                                again.answer, again.landed, again.missing)
            && (again.missing ==> !Connected(old(remote.commits) + again.pack, tip, old(remote.shallow) + Told(tip, cut)))
    ensures (again.landed && Landed(remote, own, tip, ref, again.pack)) || (!again.landed && again.answer != Accepted && Missed(remote))
  {
    var boundaries := remote.FetchBoundaries();
    var cut, known := if boundaries.Some? then own + boundaries.value else own, remote.refs.Values * local;
    again := remote.Receive(tip, ref, cut, Pack(tip, known, cut), owed, limit, true);
  }

  /** A push; a refused pack is sent once more.  If it had landed all the same, nothing is left to
      send.  `before` are the commits counted as sent. */
  method PushPack(remote: ArtifactsRemote, local: set<Commit>, own: set<Commit>, tip: Commit, ref: RefName, before: set<Commit>, limit: nat)
    returns (answer: Answer, attempts: seq<Attempt>)
    requires remote.Valid() && tip in local
    modifies remote`commits, remote`refs, remote`shallow, remote`log, remote`fetches
    ensures remote.Valid()
    ensures Pushed(remote, attempts, local, own, tip, ref, before, limit, answer)
  {
    var known, owed := remote.refs.Values * local, before - remote.commits;
    ghost var held := HeldBy(remote);
    JoinedBoundariesConnect(remote.commits, remote.shallow, known, own, tip);
    var first := remote.Receive(tip, ref, own, Pack(tip, known, own), owed, limit, false);
    answer, attempts := first.answer, [first];
    if answer == PackRefused {
      var again := PushRefused(remote, local, own, tip, ref, owed, limit, first, held);
      answer, attempts := again.answer, [first, again];
    }
  }

  /** The retry of the refused pack `first`, which may have landed; `held` is what the remote was before
      it. */
  method PushRefused(remote: ArtifactsRemote, local: set<Commit>, own: set<Commit>, tip: Commit, ref: RefName, owed: set<Commit>, limit: nat,
                     first: Attempt, ghost held: Held)
    returns (again: Attempt)
    requires remote.Valid() && tip in local && first.answer == PackRefused && !first.retry && first.cut == own
    requires if first.landed then LandedAt(held, HeldBy(remote), own, tip, ref, first.pack) else HeldBy(remote) == held
    requires var known := held.refs.Values * local;
             first.pack == Pack(tip, known, own)
             && Connected(held.commits + Pack(tip, known, own + held.shallow), tip, held.shallow + Told(tip, own + held.shallow))
    modifies remote`commits, remote`refs, remote`shallow, remote`log, remote`fetches
    ensures remote.Valid() && remote.log == old(remote.log) + [again] && old(remote.fetches) <= remote.fetches
    ensures var whole := Pack(tip, held.refs.Values * local, own + held.shallow);
            && SentAgain([first, again], again.answer, remote.fetches[|old(remote.fetches)|..], own, held.shallow, first.pack, whole)
            && again.tip == tip && again.ref == ref && again.limit == limit && again.owed == owed && again.lacked == again.pack - held.commits
            && (again.landed ==> LandedAt(held, HeldBy(remote), own, tip, ref, first.pack + whole))
            && (!again.landed ==> again.answer != Accepted && HeldBy(remote) == old(HeldBy(remote)))
  {
    if first.landed { NothingLeft(remote.refs, local, ref, tip, own, remote.shallow); }
    again := PushAgain(remote, local, own, tip, ref, owed, limit);
    ghost var fetched := remote.fetches[|old(remote.fetches)|];
    Twice(first, again, fetched, own, held.shallow, Pack(tip, held.refs.Values * local, own + held.shallow));
    assert remote.fetches[|old(remote.fetches)|..] == [fetched];
  }

  lemma Twice(first: Attempt, again: Attempt, fetched: bool, own: set<Commit>, shallow: set<Commit>, whole: set<Commit>)
    requires first.answer == PackRefused && !first.retry && first.cut == own && again.retry
    requires again.pack == (if first.landed then {} else if fetched then whole else first.pack)
    requires !first.landed ==> again.cut == if fetched then own + shallow else own
    requires !first.landed && fetched ==> !again.missing
    ensures SentAgain([first, again], again.answer, [fetched], own, shallow, first.pack, whole)
  {
    assert [first, again][0] == first && [first, again][1] == again && [fetched][0] == fetched;
  }

  /** Once the ref is at the tip a push of it carries nothing. */
  lemma NothingLeft(refs: map<RefName, Commit>, local: set<Commit>, ref: RefName, tip: Commit, own: set<Commit>, shallow: set<Commit>)
    requires ref in refs && refs[ref] == tip && tip in local
    ensures Pack(tip, refs.Values * local, own) == {} == Pack(tip, refs.Values * local, own + shallow)
  {
    PackKnown(tip, refs.Values * local, own);
    PackKnown(tip, refs.Values * local, own + shallow);
  }

  lemma PackKnown(tip: Commit, known: set<Commit>, cut: set<Commit>)
    requires tip in known
    ensures Pack(tip, known, cut) == {}
  {
    assert Ancestors(tip, cut) <= History(known, cut);
  }

  // ------------------------------------------------------------------ the steps

  /** How many commits the next push carries after one carrying `size` was refused: a quarter,
      rounded up; none once a single commit was refused. */
  function SmallerPush(size: nat): (smaller: Option<nat>)
    ensures smaller.None? <==> size <= 1
    ensures smaller.Some? ==> 0 < smaller.value < size && 4 * smaller.value - 4 < size <= 4 * smaller.value
  {
    if size <= 1 then None else Some((size + 3) / 4)
  }

  /** What the remote was when the commits were listed, and what that promises: `plain` that none of
      its boundaries is listed, `whole` that it holds all of the pushed history the checkout counts as
      its own. */
  datatype Outset = Outset(held: set<Commit>, there: set<Commit>, shallow: set<Commit>, plain: bool, whole: bool)

  ghost predicate Right(o: Outset, commits: seq<Commit>, own: set<Commit>, target: Commit) {
    && (o.plain ==> o.shallow !! Elements(commits))
    && (o.whole ==> Ancestors(target, own) * History(o.held, own) <= o.there)
  }

  /** What steps counted as sent may still owe the remote: of the first `sent` listed commits those the
      tips pushed for them do not reach past all boundaries. */
  ghost predicate Behind(owed: set<Commit>, commits: seq<Commit>, sent: nat, own: set<Commit>, tips: set<Commit>, o: Outset) {
    && sent <= |commits| && Covered(commits, 0, sent, own, tips)
    && owed <= Elements(commits[..sent]) - (o.there + History(tips, own + o.shallow))
  }

  /** No attempt is for a tip outside the pushed history.  A first attempt carries at most `limit`
      commits, all of them listed.  Of the listed commits the remote lacks a retry carries at most
      `limit` beside those the steps before it owe; it carries at most `limit` listed ones at all when no
      boundary of the remote is listed; and it carries no older commit the remote lacks when the remote
      holds all of this history the checkout counts as its own. */
  ghost predicate Bounded(a: Attempt, target: Commit, own: set<Commit>, commits: seq<Commit>, o: Outset) {
    var listed := Elements(commits);
    && a.tip in Ancestors(target, own)
    && (!a.retry ==> a.pack <= listed && |a.pack| <= a.limit)
    && |a.lacked * listed - a.owed| <= a.limit
    && (exists sent: nat, tips :: Behind(a.owed, commits, sent, own, tips, o))
    && (o.plain ==> |a.pack * listed| <= a.limit)
    && (o.whole ==> a.lacked <= listed)
  }

  ghost predicate AllBounded(attempts: seq<Attempt>, target: Commit, own: set<Commit>, commits: seq<Commit>, o: Outset) {
    forall a :: a in attempts ==> Bounded(a, target, own, commits, o)
  }

  /** The refs a stepped push counts on: not the staging refs from `count` on, one of which a push
      that failed may have left behind. */
  function Kept(refs: map<RefName, Commit>, count: nat): map<RefName, Commit> {
    map r | r in refs && (r.Staging? ==> r.index < count) :: refs[r]
  }

  /** What holds between steps, `sentCommits` being the first of the list. */
  ghost predicate Underway(refs: map<RefName, Commit>, o: Outset, shallow: set<Commit>, local: set<Commit>,
                           own: set<Commit>, target: Commit, sentCommits: set<Commit>, count: nat)
  {
    var kept := Kept(refs, count).Values * local;
    && o.held <= kept
    && (forall s :: s in refs.Values * local ==> s in o.held || s in Ancestors(target, own))
    && o.shallow <= shallow <= o.shallow + own
    && sentCommits <= History(kept, own)
  }

  /** What was sent is still counted as the remote's under more boundaries. */
  lemma SentStaysKnown(commits: seq<Commit>, target: Commit, held: set<Commit>, own: set<Commit>, known: set<Commit>,
                       cut: set<Commit>, sent: nat)
    requires IsListing(commits, target, held, own) && sent <= |commits|
    requires forall s :: s in known ==> s in held || s in Ancestors(target, own)
    requires Elements(commits[..sent]) <= History(known, own)
    requires own <= cut && cut * Elements(commits) <= own
    ensures Elements(commits[..sent]) <= History(known, cut)
  {
    forall c | c in Elements(commits[..sent]) ensures c in History(known, cut) {
      assert c in Elements(commits);
      var s :| s in known && c in Ancestors(s, own);
      assert s in held ==> c in History(held, own);
      CutKeepsListed(commits, target, held, own, cut, s);
    }
  }

  lemma PackWithinStep(commits: seq<Commit>, target: Commit, held: set<Commit>, own: set<Commit>, known: set<Commit>,
                       cut: set<Commit>, tip: Commit, sent: nat, end: nat)
    requires IsListing(commits, target, held, own) && sent <= end <= |commits|
    requires held <= known && forall s :: s in known ==> s in held || s in Ancestors(target, own)
    requires Elements(commits[..sent]) <= History(known, own)
    requires tip in Ancestors(target, own) && Ancestors(tip, own) - History(held, own) <= Elements(commits[..end])
    requires own <= cut && cut * Elements(commits) <= own
    ensures Pack(tip, known, cut) * Elements(commits) <= Elements(commits[sent..end])
  {
    MoreCut(tip, own, cut);
    SentStaysKnown(commits, target, held, own, known, cut, sent);
    forall c | c in Pack(tip, known, cut) * Elements(commits) ensures c in Elements(commits[sent..end]) {
      assert c in Ancestors(tip, own) && c !in History(held, own);
      assert c in Elements(commits[..end]);
      assert commits[..end] == commits[..sent] + commits[sent..end];
      assert c !in commits[..sent];
    }
  }

  /** A first attempt sends nothing but listed commits. */
  lemma OwnPackListed(commits: seq<Commit>, target: Commit, held: set<Commit>, own: set<Commit>, known: set<Commit>, tip: Commit)
    requires IsListing(commits, target, held, own) && held <= known && tip in Ancestors(target, own)
    ensures Pack(tip, known, own) <= Elements(commits)
  {
    AncestorsTransitive(target, tip, own);
    assert History(held, own) <= History(known, own);
  }

  /** The remote's boundaries hide nothing of the target's history that the remote may lack: their
      parents are held, or counted as the remote's. */
  ghost predicate Anchored(there: set<Commit>, shallow: set<Commit>, held: set<Commit>, own: set<Commit>, target: Commit) {
    forall b, p :: b in shallow && b in Ancestors(target, own) && p in Parents(b, own) ==> p in there || p in History(held, own)
  }

  /** Then, and only then, a retry under the joined boundaries brings the remote everything listed
      for its tip, whichever tip of the target's history that is. */
  lemma RetryDeliversListed(there: set<Commit>, shallow: set<Commit>, held: set<Commit>, own: set<Commit>, target: Commit)
    requires Closed(there, shallow)
    ensures (forall tip :: tip in Ancestors(target, own) ==>
               Ancestors(tip, own) - History(held, own) <= there + Pack(tip, held, own + shallow))
       <==> Anchored(there, shallow, held, own, target)
  {
    if Anchored(there, shallow, held, own, target) {
      forall tip | tip in Ancestors(target, own)
        ensures Ancestors(tip, own) - History(held, own) <= there + Pack(tip, held, own + shallow)
      {
        AnchoredDelivers(there, shallow, held, own, target, tip);
      }
    } else {
      var b, p :| b in shallow && b in Ancestors(target, own) && p in Parents(b, own) && p !in there && p !in History(held, own);
      ReachesParent(b, b, p, own);
      assert Ancestors(b, own + shallow) == {b};
      Acyclic(b, p, own);
      assert p !in there + Pack(b, held, own + shallow);
      assert p in Ancestors(b, own) - History(held, own);
    }
  }

  lemma AnchoredDelivers(there: set<Commit>, shallow: set<Commit>, held: set<Commit>, own: set<Commit>, target: Commit, tip: Commit)
    requires Closed(there, shallow) && Anchored(there, shallow, held, own, target) && tip in Ancestors(target, own)
    ensures Ancestors(tip, own) - History(held, own) <= there + Pack(tip, held, own + shallow)
  {
    var cut := own + shallow;
    var after := there + Ancestors(tip, cut);
    AncestorsClosed(tip, cut);
    forall c, p | c in after && p in Parents(c, shallow + Told(tip, cut)) ensures p in after {
      if c in there {
        assert p in Parents(c, shallow);
      } else {
        assert c in cut <==> c in Told(tip, cut);
        assert p in Parents(c, cut);
      }
    }
    AcceptedHeld(target, held, own, tip, after, shallow + Told(tip, cut), there, shallow);
    forall c | c in History(held, cut) ensures c in History(held, own) {
      var t :| t in held && c in Ancestors(t, cut);
      MoreCut(t, own, cut);
    }
  }

  /** What an accepted push leaves at the remote: the history of its tip, whole. */
  lemma AcceptedHeld(target: Commit, held: set<Commit>, own: set<Commit>, tip: Commit, there: set<Commit>, shallow: set<Commit>,
                     there0: set<Commit>, shallow0: set<Commit>)
    requires Anchored(there0, shallow0, held, own, target) && tip in Ancestors(target, own)
    requires Closed(there, shallow) && tip in there && there0 <= there && shallow <= shallow0 + own
    ensures Ancestors(tip, own) - History(held, own) <= there
  {
    AncestorsTransitive(target, tip, own);
    AncestorsClosed(tip, own);
    HistoryClosed(held, own);
    var reached := (there + History(held, own)) * Ancestors(tip, own);
    forall c, p | c in reached && p in Parents(c, own) ensures p in reached {
      if c !in History(held, own) && c !in shallow {
        assert p in Parents(c, shallow);
      }
    }
    AncestorsLeast(tip, own, reached);
  }

  /** What `sent..end` is to the listing, the remote's refs and a push of `tip`. */
  ghost predicate InStep(commits: seq<Commit>, target: Commit, held: set<Commit>, own: set<Commit>, known: set<Commit>,
                         tip: Commit, sent: nat, end: nat)
  {
    && IsListing(commits, target, held, own) && sent <= end <= |commits|
    && held <= known && (forall s :: s in known ==> s in held || s in Ancestors(target, own))
    && Elements(commits[..sent]) <= History(known, own)
    && tip in Ancestors(target, own) && Ancestors(tip, own) - History(held, own) <= Elements(commits[..end])
  }

  lemma AttemptBounded(commits: seq<Commit>, target: Commit, held: set<Commit>, own: set<Commit>, known: set<Commit>,
                       cut: set<Commit>, tip: Commit, sent: nat, end: nat, size: nat)
    requires InStep(commits, target, held, own, known, tip, sent, end) && end - sent <= size
    requires own <= cut && cut * Elements(commits) <= own
    ensures |Pack(tip, known, cut) * Elements(commits)| <= size
    ensures cut == own ==> Pack(tip, known, cut) <= Elements(commits) && |Pack(tip, known, cut)| <= size
  {
    PackWithinStep(commits, target, held, own, known, cut, tip, sent, end);
    AtMost(Pack(tip, known, cut) * Elements(commits), commits[sent..end]);
    if cut == own {
      OwnPackListed(commits, target, held, own, known, tip);
      assert Pack(tip, known, own) * Elements(commits) == Pack(tip, known, own);
    }
  }

  /** Of the listed commits a pack may carry, whatever it is cut at, those the remote lacks are of the
      step or owed from before it. */
  lemma LackedBounded(commits: seq<Commit>, target: Commit, held: set<Commit>, own: set<Commit>, known: set<Commit>,
                      cut: set<Commit>, there: set<Commit>, tip: Commit, sent: nat, end: nat, size: nat)
    requires InStep(commits, target, held, own, known, tip, sent, end) && end - sent <= size && own <= cut
    ensures var lacked, owed := (Pack(tip, known, cut) - there) * Elements(commits), Elements(commits[..sent]) - there;
            lacked - owed <= Elements(commits[sent..end]) && |lacked - owed| <= size
  {
    MoreCut(tip, own, cut);
    FirstElements(commits, sent, end);
    var late := (Pack(tip, known, cut) - there) * Elements(commits) - (Elements(commits[..sent]) - there);
    forall c | c in late ensures c in Elements(commits[sent..end]) {
      assert c !in History(held, own) && c in Ancestors(tip, own) - History(held, own);
    }
    AtMost(late, commits[sent..end]);
  }

  /** One attempt, its pack cut at the push's own boundaries or also at the remote's. */
  lemma OneBounded(commits: seq<Commit>, target: Commit, own: set<Commit>, known: set<Commit>, there: set<Commit>, o: Outset,
                   sent: nat, end: nat, tips: set<Commit>, a: Attempt, cut: set<Commit>)
    requires InStep(commits, target, o.held, own, known, a.tip, sent, end) && end - sent <= a.limit
    requires Right(o, commits, own, target) && o.there <= there && Behind(a.owed, commits, sent, own, tips, o)
    requires own <= cut <= o.shallow + own && (!a.retry ==> cut == own)
    requires a.pack == Pack(a.tip, known, cut) && a.lacked == a.pack - there && a.owed == Elements(commits[..sent]) - there
    ensures Bounded(a, target, own, commits, o)
  {
    LackedBounded(commits, target, o.held, own, known, cut, there, a.tip, sent, end, a.limit);
    if o.whole { LackedListed(commits, target, o.held, own, known, cut, there, a.tip); }
    if o.plain || !a.retry { AttemptBounded(commits, target, o.held, own, known, cut, a.tip, sent, end, a.limit); }
  }

  /** No attempt of one push carries more than the step it belongs to and what is owed. */
  lemma PushBounded(commits: seq<Commit>, target: Commit, own: set<Commit>, known: set<Commit>, shallow: set<Commit>, there: set<Commit>,
                    o: Outset, tip: Commit, ref: RefName, sent: nat, end: nat, tips: set<Commit>, size: nat, attempts: seq<Attempt>)
    requires InStep(commits, target, o.held, own, known, tip, sent, end) && end - sent <= size
    requires Right(o, commits, own, target) && shallow <= o.shallow + own && o.there <= there
    requires Behind(Elements(commits[..sent]) - there, commits, sent, own, tips, o)
    requires forall a :: a in attempts ==> Fits(a, tip, ref, Pack(tip, known, own), Pack(tip, known, own + shallow), there, Elements(commits[..sent]), size)
    ensures AllBounded(attempts, target, own, commits, o)
  {
    forall a | a in attempts ensures Bounded(a, target, own, commits, o) {
      if a.pack == Pack(tip, known, own) {
        OneBounded(commits, target, own, known, there, o, sent, end, tips, a, own);
      } else if a.pack == Pack(tip, known, own + shallow) {
        OneBounded(commits, target, own, known, there, o, sent, end, tips, a, own + shallow);
      } else {
        assert a.pack * Elements(commits) == {} == a.lacked * Elements(commits) - a.owed;
      }
    }
  }

  /** A remote that holds all of this history the checkout counts as its own lacks only listed commits. */
  lemma LackedListed(commits: seq<Commit>, target: Commit, held: set<Commit>, own: set<Commit>, known: set<Commit>,
                     cut: set<Commit>, there: set<Commit>, tip: Commit)
    requires IsListing(commits, target, held, own) && tip in Ancestors(target, own)
    requires own <= cut && Ancestors(target, own) * History(held, own) <= there
    ensures Pack(tip, known, cut) - there <= Elements(commits)
  {
    MoreCut(tip, own, cut);
    AncestorsTransitive(target, tip, own);
  }

  /** Then, and only then, no retry of any tip of this history carries an older commit the remote lacks. */
  lemma RetriesCarryListedOnly(commits: seq<Commit>, target: Commit, held: set<Commit>, own: set<Commit>, there: set<Commit>, shallow: set<Commit>)
    requires IsListing(commits, target, held, own) && Closed(there, shallow) && held <= there
    ensures (forall tip :: tip in Ancestors(target, own) ==> Pack(tip, held, own + shallow) - there <= Elements(commits))
       <==> Ancestors(target, own) * History(held, own) <= there
  {
    if c :| c in Ancestors(target, own) * History(held, own) && c !in there {
      CutClosed(there, shallow, own);
      OwnRetry(there, shallow, own, held, c);
      assert c !in Elements(commits);
    } else {
      forall tip | tip in Ancestors(target, own) ensures Pack(tip, held, own + shallow) - there <= Elements(commits) {
        LackedListed(commits, target, held, own, held, own + shallow, there, tip);
      }
    }
  }

  /** A commit the remote lacks is in its own retry. */
  lemma OwnRetry(there: set<Commit>, shallow: set<Commit>, own: set<Commit>, known: set<Commit>, c: Commit)
    requires Closed(there, own + shallow) && known <= there && c !in there
    ensures c in Pack(c, known, own + shallow) - there
  {
    HistoryLeast(known, own + shallow, there);
    assert c in Ancestors(c, own + shallow);
  }

  lemma CutClosed(there: set<Commit>, shallow: set<Commit>, own: set<Commit>)
    requires Closed(there, shallow)
    ensures Closed(there, own + shallow)
  {
    forall a, p | a in there && p in Parents(a, own + shallow) ensures p in there {
      assert p in Parents(a, shallow);
    }
  }

  /** Once a step's tips are at the remote, so is the step. */
  lemma StepHeld(commits: seq<Commit>, target: Commit, held: set<Commit>, own: set<Commit>, known: set<Commit>,
                 there0: set<Commit>, shallow0: set<Commit>, there: set<Commit>, shallow: set<Commit>, sent: nat, end: nat)
    requires IsListing(commits, target, held, own) && sent <= end <= |commits|
    requires forall c :: IsTip(commits[sent..end], own, c) ==> c in known && c in there
    requires Closed(there, shallow) && there0 <= there && shallow <= shallow0 + own
    ensures Elements(commits[sent..end]) <= History(known, own)
    ensures Anchored(there0, shallow0, held, own, target) ==> Elements(commits[sent..end]) <= there
  {
    forall c | c in Elements(commits[sent..end])
      ensures c in History(known, own) && (Anchored(there0, shallow0, held, own, target) ==> c in there)
    {
      var tip := TipOf(commits, target, held, own, sent, end, c);
      if Anchored(there0, shallow0, held, own, target) {
        AcceptedHeld(target, held, own, tip, there, shallow, there0, shallow0);
      }
    }
  }

  /** The tip of a step that reaches `c`. */
  lemma TipOf(commits: seq<Commit>, target: Commit, held: set<Commit>, own: set<Commit>, sent: nat, end: nat, c: Commit) returns (tip: Commit)
    requires IsListing(commits, target, held, own) && sent <= end <= |commits| && c in Elements(commits[sent..end])
    ensures c in Ancestors(tip, own) - History(held, own) && tip in Ancestors(target, own)
    ensures IsTip(commits[sent..end], own, tip)
  {
    var i := IndexOf(commits[sent..end], c);
    tip := TipsCover(commits, target, held, own, sent, end, sent + i);
    var k := IndexOf(commits[sent..end], tip);
    assert tip == commits[sent + k];
    assert tip in Elements(commits) && c in Elements(commits);
  }

  /** The refs other than staging refs. */
  function Published(refs: map<RefName, Commit>): map<RefName, Commit> {
    map r | r in refs && r.Named? :: refs[r]
  }

  lemma NamedRef(refs: map<RefName, Commit>, name: RefName, tip: Commit)
    requires name.Named?
    ensures Published(refs[name := tip]) == Published(refs)[name := tip]
  {
  }

  /** A push to the next staging ref, over whatever a failed one left there, keeps every ref counted
      on. */
  lemma StagedRefs(refs: map<RefName, Commit>, n: nat, tip: Commit)
    ensures var after := refs[Staging(n) := tip];
            && Published(after) == Published(refs) && after.Values <= refs.Values + {tip}
            && Kept(after, n) == Kept(refs, n) && Kept(after, n + 1).Values == Kept(refs, n).Values + {tip}
  {
    var after := refs[Staging(n) := tip];
    assert Kept(after, n + 1) == Kept(refs, n)[Staging(n) := tip];
    UpdatedValues(Kept(refs, n), Staging(n), tip);
    forall v | v in after.Values ensures v in refs.Values + {tip} {
      var r :| r in after && after[r] == v;
      assert r != Staging(n) ==> refs[r] == v;
    }
  }

  lemma UpdatedValues(refs: map<RefName, Commit>, name: RefName, tip: Commit)
    requires name !in refs
    ensures refs[name := tip].Values == refs.Values + {tip}
  {
    var after := refs[name := tip];
    forall v | v in refs.Values + {tip} ensures v in after.Values {
      if v == tip {
        assert after[name] == v;
      } else {
        var r :| r in refs && refs[r] == v;
        assert after[r] == v;
      }
    }
  }

  lemma HistoryMore(some: set<Commit>, more: set<Commit>, own: set<Commit>)
    requires some <= more
    ensures History(some, own) <= History(more, own)
  {
  }

  // ------------------------------------------------------------------ what a push completes

  /** A listed commit is a pushed tip or the parent of a later one before `last`. */
  ghost predicate CoveredAt(commits: seq<Commit>, last: nat, own: set<Commit>, tips: set<Commit>, i: nat)
    requires i < last <= |commits|
  {
    commits[i] in tips || exists j :: i < j < last && commits[i] in Parents(commits[j], own)
  }

  ghost predicate Covered(commits: seq<Commit>, first: nat, last: nat, own: set<Commit>, tips: set<Commit>)
    requires first <= last <= |commits|
  {
    forall i :: first <= i < last ==> CoveredAt(commits, last, own, tips, i)
  }

  lemma CoveredJoin(commits: seq<Commit>, sent: nat, end: nat, own: set<Commit>, tips: set<Commit>, more: set<Commit>)
    requires sent <= end <= |commits| && Covered(commits, 0, sent, own, tips) && Covered(commits, sent, end, own, more)
    ensures Covered(commits, 0, end, own, tips + more)
  {
    forall i | 0 <= i < end ensures CoveredAt(commits, end, own, tips + more, i) {
      if i < sent {
        assert CoveredAt(commits, sent, own, tips, i);
      } else {
        assert CoveredAt(commits, end, own, more, i);
      }
    }
  }

  /** The tips of a step cover it. */
  lemma StepCovered(commits: seq<Commit>, target: Commit, held: set<Commit>, own: set<Commit>, tips: set<Commit>, sent: nat, end: nat)
    requires IsListing(commits, target, held, own) && sent <= end <= |commits|
    requires forall c :: IsTip(commits[sent..end], own, c) ==> c in tips
    ensures Covered(commits, sent, end, own, tips)
  {
    forall i | sent <= i < end ensures CoveredAt(commits, end, own, tips, i) {
      var step := commits[sent..end];
      assert commits[i] == step[i - sent];
      if child :| child in step && commits[i] in Parents(child, own) {
        var j := ChildLater(commits, target, held, own, sent, end, i, child);
      }
    }
  }

  /** Whatever was answered, a remote that holds the tips holds what they reach under all boundaries. */
  lemma DeliversAtLeast(there0: set<Commit>, shallow0: set<Commit>, own: set<Commit>, tips: set<Commit>, there: set<Commit>, shallow: set<Commit>)
    requires Closed(there, shallow) && shallow <= shallow0 + own && there0 <= there && tips <= there
    ensures there0 + History(tips, own + shallow0) <= there
  {
    forall c, p | c in there && p in Parents(c, own + shallow0) ensures p in there {
      assert p in Parents(c, shallow);
    }
    HistoryLeast(tips, own + shallow0, there);
  }

  /** The remote after each tip in turn was refused and sent again under all boundaries. */
  ghost function Retried(there: set<Commit>, cut: set<Commit>, known: set<Commit>, tips: seq<Commit>): set<Commit>
    decreases |tips|
  {
    if tips == [] then there
    else Retried(there + Pack(tips[0], known, cut), cut, known + {tips[0]}, tips[1..])
  }

  /** Such a run brings the remote no more than that. */
  lemma {:induction false} RetriedIs(there: set<Commit>, cut: set<Commit>, known: set<Commit>, tips: seq<Commit>)
    requires Closed(there, cut) && known <= there
    ensures Retried(there, cut, known, tips) == there + History(Elements(tips), cut)
    decreases |tips|
  {
    if tips != [] {
      var tip, rest := tips[0], tips[1..];
      var next := there + Pack(tip, known, cut);
      HistoryLeast(known, cut, there);
      assert next == there + Ancestors(tip, cut);
      AncestorsClosed(tip, cut);
      assert tip in Ancestors(tip, cut);
      RetriedIs(next, cut, known + {tip}, rest);
      assert Elements(tips) == {tip} + Elements(rest);
    }
  }

  /** The parent at `i` of a remote boundary at `j` is not hidden by it. */
  ghost predicate Shown(commits: seq<Commit>, own: set<Commit>, shallow: set<Commit>, after: set<Commit>, i: nat, j: nat)
    requires i < |commits| && j < |commits|
  {
    commits[j] in shallow && commits[i] in Parents(commits[j], own) ==> commits[i] in after
  }

  /** Each listed parent of a listed remote boundary was at the remote already, or a pushed tip
      reaches it past all boundaries. */
  ghost predicate NothingHidden(commits: seq<Commit>, first: nat, last: nat, own: set<Commit>, there: set<Commit>, shallow: set<Commit>, tips: set<Commit>)
    requires first <= last <= |commits|
  {
    forall i, j :: first <= i < j < last ==> Shown(commits, own, shallow, there + History(tips, own + shallow), i, j)
  }

  lemma {:induction false} ShownDelivered(commits: seq<Commit>, first: nat, last: nat, own: set<Commit>, there: set<Commit>, shallow: set<Commit>,
                                          tips: set<Commit>, i: nat)
    requires Closed(there, shallow) && first <= i < last <= |commits|
    requires Covered(commits, first, last, own, tips) && NothingHidden(commits, first, last, own, there, shallow, tips)
    ensures commits[i] in there + History(tips, own + shallow)
    decreases last - i
  {
    var cut := own + shallow;
    assert CoveredAt(commits, last, own, tips, i);
    if commits[i] in tips {
      assert commits[i] in Ancestors(commits[i], cut);
    } else {
      var j :| i < j < last && commits[i] in Parents(commits[j], own);
      ShownDelivered(commits, first, last, own, there, shallow, tips, j);
      assert Shown(commits, own, shallow, there + History(tips, cut), i, j);
      if commits[j] !in shallow {
        HistoryClosed(tips, cut);
        assert commits[j] in there ==> commits[i] in Parents(commits[j], shallow);
        assert commits[i] in Parents(commits[j], cut);
      }
    }
  }

  /** The tips bring the remote all that was listed, whatever is refused, if and only if no remote
      boundary hides a listed parent from them. */
  lemma DeliveredIff(commits: seq<Commit>, first: nat, last: nat, own: set<Commit>, there: set<Commit>, shallow: set<Commit>, tips: set<Commit>)
    requires Closed(there, shallow) && first <= last <= |commits| && Covered(commits, first, last, own, tips)
    ensures Elements(commits[first..last]) <= there + History(tips, own + shallow)
       <==> NothingHidden(commits, first, last, own, there, shallow, tips)
  {
    if NothingHidden(commits, first, last, own, there, shallow, tips) {
      forall c | c in Elements(commits[first..last]) ensures c in there + History(tips, own + shallow) {
        var k := IndexOf(commits[first..last], c);
        ShownDelivered(commits, first, last, own, there, shallow, tips, first + k);
      }
    } else {
      var i, j :| first <= i < j < last && !Shown(commits, own, shallow, there + History(tips, own + shallow), i, j);
      assert commits[i] == commits[first..last][i - first];
    }
  }

  /** What a remote that holds the tips of the steps before lacks of them is owed. */
  lemma OwedBehind(commits: seq<Commit>, sent: nat, own: set<Commit>, tips: set<Commit>, o: Outset, there: set<Commit>, shallow: set<Commit>)
    requires sent <= |commits| && Covered(commits, 0, sent, own, tips)
    requires Closed(there, shallow) && shallow <= o.shallow + own && o.there <= there && tips <= there
    ensures Behind(Elements(commits[..sent]) - there, commits, sent, own, tips, o)
  {
    DeliversAtLeast(o.there, o.shallow, own, tips, there, shallow);
  }

  /** Where the boundaries hide nothing the remote may lack, they hide no listed parent from any tips. */
  lemma AnchoredShows(commits: seq<Commit>, target: Commit, held: set<Commit>, own: set<Commit>, there: set<Commit>, shallow: set<Commit>, tips: set<Commit>)
    requires IsListing(commits, target, held, own)
    ensures Anchored(there, shallow, held, own, target) ==> NothingHidden(commits, 0, |commits|, own, there, shallow, tips)
  {
    if Anchored(there, shallow, held, own, target) {
      forall i, j | 0 <= i < j < |commits| ensures Shown(commits, own, shallow, there + History(tips, own + shallow), i, j) {
        assert commits[i] in Elements(commits) && commits[j] in Elements(commits);
      }
    }
  }

  lemma Completed(commits: seq<Commit>, there0: set<Commit>, shallow0: set<Commit>, own: set<Commit>, tips: set<Commit>,
                  there: set<Commit>, shallow: set<Commit>)
    requires Closed(there0, shallow0) && Closed(there, shallow) && shallow <= shallow0 + own && there0 <= there && tips <= there
    requires Covered(commits, 0, |commits|, own, tips)
    ensures there0 + History(tips, own + shallow0) <= there
    ensures NothingHidden(commits, 0, |commits|, own, there0, shallow0, tips) ==> Elements(commits) <= there
  {
    DeliversAtLeast(there0, shallow0, own, tips, there, shallow);
    DeliveredIff(commits, 0, |commits|, own, there0, shallow0, tips);
    assert commits[0..|commits|] == commits;
  }

  /** After a run of retries no later one, of any tip of this history, carries a commit already counted
      as sent, if and only if the remote's boundaries hid none of those from the tips pushed for them. */
  lemma RetriesKeepToStep(commits: seq<Commit>, sent: nat, target: Commit, held: set<Commit>, own: set<Commit>, there: set<Commit>,
                          shallow: set<Commit>, tips: seq<Commit>)
    requires IsListing(commits, target, held, own) && Closed(there, shallow) && held <= there
    requires sent <= |commits| && Covered(commits, 0, sent, own, Elements(tips))
    ensures var cut, known := own + shallow, held + Elements(tips);
            var after := Retried(there, cut, held, tips);
            ((forall tip :: tip in Ancestors(target, own) ==> (Pack(tip, known, cut) - after) * Elements(commits[..sent]) == {})
              <==> NothingHidden(commits, 0, sent, own, there, shallow, Elements(tips)))
  {
    var cut, known := own + shallow, held + Elements(tips);
    var after := Retried(there, cut, held, tips);
    CutClosed(there, shallow, own);
    RetriedIs(there, cut, held, tips);
    HistoryClosed(Elements(tips), cut);
    DeliveredIff(commits, 0, sent, own, there, shallow, Elements(tips));
    forall t | t in Elements(tips) ensures t in after {
      assert t in Ancestors(t, cut);
    }
    if c :| c in Elements(commits[..sent]) && c !in after {
      FirstElements(commits, sent, sent);
      OwnRetry(after, shallow, own, known, c);
      assert c in Ancestors(target, own) && (Pack(c, known, cut) - after) * Elements(commits[..sent]) != {};
    }
  }

  // ------------------------------------------------------------------ the push, step by step

  lemma BothBounded(steps: seq<Attempt>, last: seq<Attempt>, target: Commit, own: set<Commit>, commits: seq<Commit>, o: Outset)
    requires AllBounded(steps, target, own, commits, o) && AllBounded(last, target, own, commits, o)
    ensures AllBounded(steps + last, target, own, commits, o)
  {
  }

  // ------------------------------------------------------------------ the attempts made

  /** How a run of attempts ends. */
  function LastAnswer(attempts: seq<Attempt>): Answer {
    if attempts == [] then Accepted else attempts[|attempts| - 1].answer
  }

  predicate Refused(a: Attempt) {
    !a.retry && a.answer == PackRefused
  }

  /** Exactly the refused packs are sent again, each at once. */
  ghost predicate RetryAt(attempts: seq<Attempt>, i: nat)
    requires i < |attempts|
  {
    && (attempts[i].retry <==> i > 0 && Refused(attempts[i - 1]))
    && (Refused(attempts[i]) ==> i + 1 < |attempts|)
  }

  ghost predicate RefusedRetried(attempts: seq<Attempt>) {
    forall i :: 0 <= i < |attempts| ==> RetryAt(attempts, i)
  }

  lemma RetriedJoin(a: seq<Attempt>, b: seq<Attempt>)
    requires RefusedRetried(a) && RefusedRetried(b)
    ensures RefusedRetried(a + b)
  {
    forall i | 0 <= i < |a + b| ensures RetryAt(a + b, i) {
      if i < |a| { assert RetryAt(a, i); } else { assert RetryAt(b, i - |a|); }
      if i == |a| && i > 0 { assert RetryAt(a, i - 1); }
    }
  }

  lemma PushRetried(attempts: seq<Attempt>, answer: Answer, fetches: seq<bool>, own: set<Commit>, shallow: set<Commit>, first: set<Commit>, again: set<Commit>)
    requires SentAgain(attempts, answer, fetches, own, shallow, first, again)
    ensures RefusedRetried(attempts) && answer == LastAnswer(attempts)
    ensures forall i :: 0 <= i < |attempts| - 1 ==> attempts[i].answer == PackRefused
  {
    forall i | 0 <= i < |attempts| ensures RetryAt(attempts, i) {
    }
  }

  /** The attempts of a step, none of them refused for its size but the last. */
  ghost predicate StepAttempts(attempts: seq<Attempt>, staged: nat) {
    && RefusedRetried(attempts)
    && (forall a :: a in attempts ==> StagedAt(a, staged))
    && forall i :: 0 <= i < |attempts| - 1 ==> attempts[i].answer != TooLarge
  }

  /** An accepted push is at one of the first `staged` staging refs. */
  predicate StagedAt(a: Attempt, staged: nat) {
    a.ref.Staging? && (a.answer == Accepted ==> a.ref.index < staged)
  }

  lemma StepFurther(attempts: seq<Attempt>, more: seq<Attempt>, staged: nat, answer: Answer)
    requires StepAttempts(attempts, staged) && LastAnswer(attempts) == Accepted
    requires RefusedRetried(more) && more != [] && answer == LastAnswer(more)
    requires forall a :: a in more ==> a.ref == Staging(staged)
    requires forall i :: 0 <= i < |more| - 1 ==> more[i].answer == PackRefused
    ensures StepAttempts(attempts + more, if answer == Accepted then staged + 1 else staged)
    ensures LastAnswer(attempts + more) == answer
  {
    RetriedJoin(attempts, more);
    forall a | a in more ensures StagedAt(a, if answer == Accepted then staged + 1 else staged) {
      var i :| 0 <= i < |more| && more[i] == a;
    }
  }

  /** What a push of one step's tips keeps. */
  twostate predicate Stepped(remote: ArtifactsRemote, new attempts: seq<Attempt>)
    reads remote
  {
    && remote.log == old(remote.log) + attempts
    && Published(remote.refs) == Published(old(remote.refs))
    && old(remote.commits) <= remote.commits
    && remote.deletions == old(remote.deletions)
  }

  /** What its attempts promise. */
  ghost predicate WithinStep(attempts: seq<Attempt>, target: Commit, own: set<Commit>, commits: seq<Commit>, o: Outset, size: nat) {
    AllBounded(attempts, target, own, commits, o) && forall a :: a in attempts ==> a.limit == size
  }

  lemma BothWithin(a: seq<Attempt>, b: seq<Attempt>, target: Commit, own: set<Commit>, commits: seq<Commit>, o: Outset, size: nat)
    requires WithinStep(a, target, own, commits, o, size) && WithinStep(b, target, own, commits, o, size)
    ensures WithinStep(a + b, target, own, commits, o, size)
  {
    BothBounded(a, b, target, own, commits, o);
  }

  /** A push that belongs to the step `commits[sent..end]`. */
  method PushWithin(remote: ArtifactsRemote, local: set<Commit>, own: set<Commit>, target: Commit, commits: seq<Commit>,
                    ghost o: Outset, ghost tips: set<Commit>, sent: nat, ghost end: nat, tip: Commit, ref: RefName, size: nat)
    returns (answer: Answer, attempts: seq<Attempt>)
    requires remote.Valid() && Right(o, commits, own, target) && o.there <= remote.commits && remote.shallow <= o.shallow + own
    requires InStep(commits, target, o.held, own, remote.refs.Values * local, tip, sent, end) && end - sent <= size && tip in local
    requires tips <= remote.commits && Covered(commits, 0, sent, own, tips)
    modifies remote`commits, remote`refs, remote`shallow, remote`log, remote`fetches
    ensures remote.Valid() && remote.log == old(remote.log) + attempts && attempts != []
    ensures Arrived(remote, own, tip, ref) || (answer != Accepted && Missed(remote))
    ensures answer == Accepted ==> Arrived(remote, own, tip, ref)
    ensures WithinStep(attempts, target, own, commits, o, size)
    ensures RefusedRetried(attempts) && answer == LastAnswer(attempts)
    ensures forall a :: a in attempts ==> a.tip == tip && a.ref == ref
    ensures forall j :: 0 <= j < |attempts| - 1 ==> attempts[j].answer == PackRefused
  {
    ghost var known, shallow, there := remote.refs.Values * local, remote.shallow, remote.commits;
    ghost var first, again := Pack(tip, known, own), Pack(tip, known, own + shallow);
    answer, attempts := PushPack(remote, local, own, tip, ref, Elements(commits[..sent]), size);
    PushRetried(attempts, answer, remote.fetches[|old(remote.fetches)|..], own, shallow, first, again);
    OwedBehind(commits, sent, own, tips, o, there, shallow);
    PushBounded(commits, target, own, known, shallow, there, o, tip, ref, sent, end, tips, size, attempts);
    AllFit(attempts, tip, ref, first, again, there, Elements(commits[..sent]), size);
  }

  lemma AllFit(attempts: seq<Attempt>, tip: Commit, ref: RefName, first: set<Commit>, again: set<Commit>, there: set<Commit>, before: set<Commit>, limit: nat)
    requires forall a :: a in attempts ==> Fits(a, tip, ref, first, again, there, before, limit)
    ensures forall a :: a in attempts ==> a.tip == tip && a.ref == ref && a.limit == limit
  {
  }

  /** The remote has the tip at the ref, and lost nothing. */
  twostate predicate Arrived(remote: ArtifactsRemote, own: set<Commit>, tip: Commit, ref: RefName)
    reads remote
  {
    && remote.refs == old(remote.refs)[ref := tip] && tip in remote.commits && old(remote.commits) <= remote.commits
    && old(remote.shallow) <= remote.shallow <= old(remote.shallow) + own
  }

  /** One tip of the step `commits[sent..end]` goes to the next staging ref, over whatever a failed
      push left there. */
  method PushTip(remote: ArtifactsRemote, local: set<Commit>, own: set<Commit>, target: Commit, commits: seq<Commit>,
                 ghost o: Outset, ghost tips: set<Commit>, sent: nat, ghost end: nat, i: nat, size: nat, staged: nat)
    returns (answer: Answer, attempts: seq<Attempt>)
    requires remote.Valid() && IsListing(commits, target, o.held, own) && Right(o, commits, own, target)
    requires Ancestors(target, own) <= local && o.there <= remote.commits
    requires sent <= i < end <= |commits| && end - sent <= size
    requires tips <= remote.commits && Covered(commits, 0, sent, own, tips)
    requires Underway(remote.refs, o, remote.shallow, local, own, target, Elements(commits[..sent]), staged)
    modifies remote
    ensures remote.Valid() && Stepped(remote, attempts) && attempts != [] && WithinStep(attempts, target, own, commits, o, size)
    ensures var count := if answer == Accepted then staged + 1 else staged;
            && Underway(remote.refs, o, remote.shallow, local, own, target, Elements(commits[..sent]), count)
            && Kept(old(remote.refs), staged).Values <= Kept(remote.refs, count).Values
    ensures answer == Accepted ==> commits[i] in Kept(remote.refs, staged + 1).Values * local && commits[i] in remote.commits
    ensures RefusedRetried(attempts) && answer == LastAnswer(attempts)
    ensures forall a :: a in attempts ==> a.tip == commits[i] && a.ref == Staging(staged)
    ensures forall j :: 0 <= j < |attempts| - 1 ==> attempts[j].answer == PackRefused
  {
    ghost var refs, kept := remote.refs, Kept(remote.refs, staged).Values * local;
    ListedReach(commits, target, o.held, own, i);
    assert commits[i] in Ancestors(commits[i], own);
    FirstElements(commits, i + 1, end);
    FirstWithin(commits, i + 1, end);
    HistoryMore(kept, refs.Values * local, own);
    answer, attempts := PushWithin(remote, local, own, target, commits, o, tips, sent, end, commits[i], Staging(staged), size);
    StagedRefs(refs, staged, commits[i]);
    if answer == Accepted { HistoryMore(kept, Kept(remote.refs, staged + 1).Values * local, own); }
  }

  /** The next tip of a step, `done` being the attempts at the tips before it. */
  method PushNext(remote: ArtifactsRemote, local: set<Commit>, own: set<Commit>, target: Commit, commits: seq<Commit>,
                  ghost o: Outset, ghost before: set<Commit>, sent: nat, ghost end: nat, i: nat, size: nat, staged: nat, done: seq<Attempt>,
                  ghost log: seq<Attempt>)
    returns (answer: Answer, attempts: seq<Attempt>)
    requires remote.Valid() && IsListing(commits, target, o.held, own) && Right(o, commits, own, target)
    requires Ancestors(target, own) <= local && o.there <= remote.commits
    requires sent <= i < end <= |commits| && end - sent <= size
    requires before <= remote.commits && Covered(commits, 0, sent, own, before)
    requires Underway(remote.refs, o, remote.shallow, local, own, target, Elements(commits[..sent]), staged)
    requires IsTip(commits[sent..end], own, commits[i]) && WithinStep(done, target, own, commits, o, size)
    requires StepAttempts(done, staged) && LastAnswer(done) == Accepted && remote.log == log + done
    modifies remote
    ensures remote.Valid() && attempts != [] && remote.log == log + attempts
    ensures Published(remote.refs) == Published(old(remote.refs)) && old(remote.commits) <= remote.commits && remote.deletions == old(remote.deletions)
    ensures WithinStep(attempts, target, own, commits, o, size) && answer == LastAnswer(attempts)
    ensures var count := if answer == Accepted then staged + 1 else staged;
            && StepAttempts(attempts, count)
            && Underway(remote.refs, o, remote.shallow, local, own, target, Elements(commits[..sent]), count)
            && Kept(old(remote.refs), staged).Values <= Kept(remote.refs, count).Values
    ensures answer == Accepted ==> commits[i] in Kept(remote.refs, staged + 1).Values * local && commits[i] in remote.commits
  {
    var pushed;
    answer, pushed := PushTip(remote, local, own, target, commits, o, before, sent, end, i, size, staged);
    StepFurther(done, pushed, staged, answer);
    BothWithin(done, pushed, target, own, commits, o, size);
    Joined(log, done, pushed);
    attempts := done + pushed;
  }

  /** One step: every tip of `commits[sent..end]` is pushed, until one is refused. */
  method PushStep(remote: ArtifactsRemote, local: set<Commit>, own: set<Commit>, target: Commit, commits: seq<Commit>,
                  ghost o: Outset, ghost before: set<Commit>, sent: nat, end: nat, size: nat, count: nat)
    returns (answer: Answer, attempts: seq<Attempt>, staged: nat, ghost tips: set<Commit>)
    requires remote.Valid() && IsListing(commits, target, o.held, own) && Right(o, commits, own, target)
    requires Ancestors(target, own) <= local && o.there <= remote.commits
    requires sent < end <= |commits| && end - sent <= size
    requires before <= remote.commits && Covered(commits, 0, sent, own, before)
    requires Underway(remote.refs, o, remote.shallow, local, own, target, Elements(commits[..sent]), count)
    modifies remote
    ensures remote.Valid() && Stepped(remote, attempts) && WithinStep(attempts, target, own, commits, o, size)
    ensures Underway(remote.refs, o, remote.shallow, local, own, target, Elements(commits[..if answer == Accepted then end else sent]), staged)
    ensures answer == Accepted ==> tips <= remote.commits && Covered(commits, sent, end, own, tips)
    ensures StepAttempts(attempts, staged) && count <= staged
    ensures answer == LastAnswer(attempts) && attempts != []
  {
    var found := StepTips(commits, own, sent, end);
    answer, attempts, staged, tips := Accepted, [], count, {};
    var n := 0;
    while n < |found|
      invariant 0 <= n <= |found| && answer == Accepted && count <= staged
      invariant remote.Valid() && Stepped(remote, attempts) && WithinStep(attempts, target, own, commits, o, size)
      invariant Underway(remote.refs, o, remote.shallow, local, own, target, Elements(commits[..sent]), staged)
      invariant StepAttempts(attempts, staged) && LastAnswer(attempts) == Accepted && (n > 0 ==> attempts != [])
      invariant tips <= Kept(remote.refs, staged).Values * local && tips <= remote.commits && (tips != {} ==> n > 0)
      invariant forall m :: 0 <= m < n ==> commits[found[m]] in tips
    {
      answer, attempts := PushNext(remote, local, own, target, commits, o, before, sent, end, found[n], size, staged, attempts, old(remote.log));
      if answer != Accepted { return; }
      staged, tips := staged + 1, tips + {commits[found[n]]};
      n := n + 1;
    }
    StepEnds(commits, target, own, remote.refs, o, remote.shallow, local, remote.commits, tips, sent, end, staged);
  }

  /** The commits of a step that no other of it has as parent, in order. */
  method StepTips(commits: seq<Commit>, own: set<Commit>, sent: nat, end: nat) returns (found: seq<nat>)
    requires sent <= end <= |commits|
    ensures forall m :: 0 <= m < |found| ==> sent <= found[m] < end && IsTip(commits[sent..end], own, commits[found[m]])
    ensures forall c :: IsTip(commits[sent..end], own, c) ==> FoundIn(commits, found, c)
  {
    var step := commits[sent..end];
    found := [];
    var i := sent;
    while i < end
      invariant sent <= i <= end
      invariant forall m :: 0 <= m < |found| ==> sent <= found[m] < end && IsTip(step, own, commits[found[m]])
      invariant FoundAll(commits, own, step, found, i, end)
    {
      var tip := commits[i];
      assert tip == step[i - sent];
      ghost var before := found;
      if forall d | d in step :: tip !in Parents(d, own) { found := found + [i]; }
      FoundFurther(commits, own, step, before, found, i, end);
      i := i + 1;
    }
  }

  /** Each tip of a step is found or still ahead. */
  ghost predicate FoundAll(commits: seq<Commit>, own: set<Commit>, step: seq<Commit>, found: seq<nat>, i: nat, end: nat)
    requires i <= end <= |commits|
  {
    forall c :: IsTip(step, own, c) ==> FoundIn(commits, found, c) || c in commits[i..end]
  }

  lemma FoundFurther(commits: seq<Commit>, own: set<Commit>, step: seq<Commit>, before: seq<nat>, found: seq<nat>, i: nat, end: nat)
    requires i < end <= |commits| && FoundAll(commits, own, step, before, i, end)
    requires found == if IsTip(step, own, commits[i]) then before + [i] else before
    ensures FoundAll(commits, own, step, found, i + 1, end)
  {
    assert commits[i..end] == [commits[i]] + commits[i + 1..end];
    FoundMore(commits, before, found);
    if IsTip(step, own, commits[i]) { assert found[|before|] == i; }
  }

  ghost predicate FoundIn(commits: seq<Commit>, found: seq<nat>, c: Commit) {
    exists m :: 0 <= m < |found| && found[m] < |commits| && commits[found[m]] == c
  }

  lemma FoundMore(commits: seq<Commit>, some: seq<nat>, more: seq<nat>)
    requires some <= more
    ensures forall c :: FoundIn(commits, some, c) ==> FoundIn(commits, more, c)
  {
    forall c | FoundIn(commits, some, c) ensures FoundIn(commits, more, c) {
      var m :| 0 <= m < |some| && some[m] < |commits| && commits[some[m]] == c;
      assert more[m] == some[m];
    }
  }

  /** With all its tips at the remote a step is covered, and counts as sent. */
  lemma StepEnds(commits: seq<Commit>, target: Commit, own: set<Commit>, refs: map<RefName, Commit>, o: Outset, shallow: set<Commit>,
                 local: set<Commit>, there: set<Commit>, tips: set<Commit>, sent: nat, end: nat, staged: nat)
    requires IsListing(commits, target, o.held, own) && sent <= end <= |commits| && Closed(there, shallow) && o.there <= there
    requires tips <= Kept(refs, staged).Values * local && tips <= there
    requires forall c :: IsTip(commits[sent..end], own, c) ==> c in tips
    requires Underway(refs, o, shallow, local, own, target, Elements(commits[..sent]), staged)
    ensures Underway(refs, o, shallow, local, own, target, Elements(commits[..end]), staged) && Covered(commits, sent, end, own, tips)
    ensures sent < end ==> tips != {}
  {
    StepCovered(commits, target, o.held, own, tips, sent, end);
    if sent < end { assert commits[sent] in commits[sent..end]; var tip := TipOf(commits, target, o.held, own, sent, end, commits[sent]); }
    StepHeld(commits, target, o.held, own, Kept(refs, staged).Values * local, o.there, o.shallow, there, shallow, sent, end);
    FirstElements(commits, sent, end);
  }

  /** The limit starts at `first` and never grows. */
  ghost predicate Shrinking(attempts: seq<Attempt>, first: nat) {
    && (forall a :: a in attempts ==> a.limit <= first)
    && forall i, j :: 0 <= i < j < |attempts| ==> attempts[j].limit <= attempts[i].limit
  }

  /** The limit of the attempt after `steps`: a quarter after a refusal for its size, else as it was. */
  function NextLimit(steps: seq<Attempt>, first: nat): nat {
    if steps == [] then first
    else
      var last := steps[|steps| - 1];
      if last.answer == TooLarge && SmallerPush(last.limit).Some? then SmallerPush(last.limit).value else last.limit
  }

  /** Every attempt has the limit the ones before it call for, and none follows one that was too large at
      a single commit. */
  ghost predicate Scheduled(steps: seq<Attempt>, first: nat) {
    forall i :: 0 <= i < |steps| ==> ScheduledAt(steps, first, i)
  }

  ghost predicate ScheduledAt(steps: seq<Attempt>, first: nat, i: nat)
    requires i < |steps|
  {
    && steps[i].limit == NextLimit(steps[..i], first)
    && (steps[i].answer == TooLarge && i + 1 < |steps| ==> steps[i].limit > 1)
  }

  lemma ScheduledFurther(steps: seq<Attempt>, attempts: seq<Attempt>, first: nat, size: nat)
    requires Scheduled(steps, first) && size == NextLimit(steps, first)
    requires steps != [] && steps[|steps| - 1].answer == TooLarge ==> steps[|steps| - 1].limit > 1
    requires forall i :: 0 <= i < |attempts| ==> attempts[i].limit == size && (i + 1 < |attempts| ==> attempts[i].answer != TooLarge)
    ensures Scheduled(steps + attempts, first)
  {
    forall i | 0 <= i < |steps + attempts| ensures ScheduledAt(steps + attempts, first, i) {
      if i < |steps| {
        assert ScheduledAt(steps, first, i) && (steps + attempts)[..i] == steps[..i];
      } else if i == |steps| {
        assert (steps + attempts)[..i] == steps;
      } else {
        assert (steps + attempts)[..i][i - 1] == attempts[i - 1 - |steps|];
      }
    }
  }

  /** The attempts made so far, `size` the limit of the next. */
  ghost predicate Attempted(steps: seq<Attempt>, first: nat, size: nat, target: Commit, own: set<Commit>,
                            commits: seq<Commit>, o: Outset)
  {
    && Shrinking(steps, first) && size <= first && (steps != [] ==> size <= steps[|steps| - 1].limit)
    && AllBounded(steps, target, own, commits, o)
  }

  lemma AttemptedFurther(steps: seq<Attempt>, attempts: seq<Attempt>, first: nat, size: nat, target: Commit, own: set<Commit>,
                         commits: seq<Commit>, o: Outset)
    requires Attempted(steps, first, size, target, own, commits, o) && WithinStep(attempts, target, own, commits, o, size)
    ensures Attempted(steps + attempts, first, size, target, own, commits, o)
    ensures attempts != [] ==> (steps + attempts)[|steps + attempts| - 1].limit == size
  {
    assert attempts != [] ==> (steps + attempts)[|steps + attempts| - 1] in attempts;
    BothBounded(steps, attempts, target, own, commits, o);
    ShrinkingFurther(steps, attempts, first, size);
  }

  /** Each attempt follows from the one before it, and `staged` staging refs were accepted. */
  ghost predicate InOrder(steps: seq<Attempt>, first: nat, staged: nat) {
    && RefusedRetried(steps) && Scheduled(steps, first)
    && (forall a :: a in steps ==> StagedAt(a, staged))
  }

  /** There is a next attempt to make. */
  predicate GoesOn(steps: seq<Attempt>) {
    steps != [] && steps[|steps| - 1].answer == TooLarge ==> steps[|steps| - 1].limit > 1
  }

  lemma InOrderFurther(steps: seq<Attempt>, attempts: seq<Attempt>, first: nat, size: nat, staged: nat, count: nat)
    requires InOrder(steps, first, staged) && GoesOn(steps) && size == NextLimit(steps, first) && staged <= count
    requires StepAttempts(attempts, count) && forall a :: a in attempts ==> a.limit == size
    ensures InOrder(steps + attempts, first, count)
    ensures attempts != [] ==> LastAnswer(steps + attempts) == LastAnswer(attempts)
    ensures attempts != [] && LastAnswer(attempts) != TooLarge ==> GoesOn(steps + attempts) && NextLimit(steps + attempts, first) == size
    ensures attempts != [] && LastAnswer(attempts) == TooLarge && size > 1 ==>
              GoesOn(steps + attempts) && NextLimit(steps + attempts, first) == SmallerPush(size).value
  {
    RetriedJoin(steps, attempts);
    ScheduledFurther(steps, attempts, first, size);
  }

  lemma ShrinkingFurther(steps: seq<Attempt>, attempts: seq<Attempt>, first: nat, size: nat)
    requires Shrinking(steps, first) && size <= first && (steps != [] ==> size <= steps[|steps| - 1].limit)
    requires forall a :: a in attempts ==> a.limit == size
    ensures Shrinking(steps + attempts, first)
  {
  }

  /** The steps: each carries fewer commits after a further refusal. */
  method PushAll(remote: ArtifactsRemote, local: set<Commit>, own: set<Commit>, target: Commit, commits: seq<Commit>,
                 ghost o: Outset, first: nat)
    returns (answer: Answer, steps: seq<Attempt>, staged: nat, ghost tips: set<Commit>)
    requires remote.Valid() && IsListing(commits, target, o.held, own) && Right(o, commits, own, target)
    requires Ancestors(target, own) <= local && 0 < first && o.there <= remote.commits
    requires Underway(remote.refs, o, remote.shallow, local, own, target, {}, 0)
    modifies remote
    ensures remote.Valid() && remote.log == old(remote.log) + steps
    ensures Published(remote.refs) == Published(old(remote.refs)) && old(remote.commits) <= remote.commits
    ensures AllBounded(steps, target, own, commits, o) && Shrinking(steps, first)
    ensures InOrder(steps, first, staged) && remote.deletions == old(remote.deletions) && (commits != [] ==> steps != [])
    ensures answer == Accepted ==>
              && Underway(remote.refs, o, remote.shallow, local, own, target, Elements(commits), staged)
              && tips <= remote.commits && Covered(commits, 0, |commits|, own, tips)
    ensures answer == LastAnswer(steps)
    ensures answer == TooLarge ==> steps[|steps| - 1].limit == 1
  {
    answer, steps, staged, tips := Accepted, [], 0, {};
    FirstElements(commits, 0, 0);
    var size: nat, sent: nat := first, 0;
    while sent < |commits|
      invariant 0 < size && sent <= |commits|
      invariant remote.Valid() && remote.log == old(remote.log) + steps
      invariant Published(remote.refs) == Published(old(remote.refs)) && old(remote.commits) <= remote.commits
      invariant Underway(remote.refs, o, remote.shallow, local, own, target, Elements(commits[..sent]), staged)
      invariant Attempted(steps, first, size, target, own, commits, o)
      invariant InOrder(steps, first, staged) && GoesOn(steps) && size == NextLimit(steps, first)
      invariant (sent == |commits| ==> LastAnswer(steps) == Accepted) && (sent > 0 ==> steps != [])
      invariant remote.deletions == old(remote.deletions)
      invariant tips <= remote.commits && Covered(commits, 0, sent, own, tips)
      decreases size, |commits| - sent
    {
      var end := if sent + size <= |commits| then sent + size else |commits|;
      var attempts;
      ghost var more;
      ghost var count := staged;
      answer, attempts, staged, more := PushStep(remote, local, own, target, commits, o, tips, sent, end, size, staged);
      Joined(old(remote.log), steps, attempts);
      AttemptedFurther(steps, attempts, first, size, target, own, commits, o);
      InOrderFurther(steps, attempts, first, size, count, staged);
      steps := steps + attempts;
      if answer == Accepted {
        FirstElements(commits, sent, end);
        CoveredJoin(commits, sent, end, own, tips, more);
        sent, tips := end, tips + more;
      } else if answer == TooLarge && size > 1 {
        size := SmallerPush(size).value;
      } else {
        return;
      }
    }
    answer := Accepted;
  }

  /** The outset of a push of `commits`. */
  ghost function Begun(held: set<Commit>, there: set<Commit>, shallow: set<Commit>, own: set<Commit>, target: Commit, commits: seq<Commit>): Outset {
    Outset(held, there, shallow, shallow !! Elements(commits), Ancestors(target, own) * History(held, own) <= there)
  }

  lemma BegunUnderway(refs: map<RefName, Commit>, there: set<Commit>, shallow: set<Commit>, local: set<Commit>, own: set<Commit>,
                      target: Commit, commits: seq<Commit>)
    requires forall n: nat :: Staging(n) !in refs
    ensures var o := Begun(refs.Values * local, there, shallow, own, target, commits);
            Right(o, commits, own, target) && Underway(refs, o, shallow, local, own, target, {}, 0)
  {
    assert Kept(refs, 0) == refs;
  }

  /** The whole push: the listed commits in steps, then the ref itself.  Every staging ref stays
      until the ref has moved. */
  method PushInSteps(remote: ArtifactsRemote, local: set<Commit>, own: set<Commit>, target: Commit, ref: RefName, commits: seq<Commit>)
    returns (answer: Answer, steps: seq<Attempt>, last: seq<Attempt>, ghost tips: set<Commit>)
    requires remote.Valid() && ref.Named? && forall n: nat :: Staging(n) !in remote.refs
    requires Ancestors(target, own) <= local
    requires IsListing(commits, target, remote.refs.Values * local, own)
    modifies remote
    ensures remote.Valid() && remote.log == old(remote.log) + (steps + last)
    ensures old(remote.commits) <= remote.commits
    // No push carries more than its step and what earlier steps owe; what moves the ref, only that.
    ensures AllBounded(steps + last, target, own, commits,
                       Begun(old(remote.refs).Values * local, old(remote.commits), old(remote.shallow), own, target, commits))
    ensures forall a :: a in last ==> a.tip == target && a.ref == ref && a.limit == 0
    ensures |commits| > 1 ==> Shrinking(steps, SmallerPush(|commits|).value)
    // Accepted: the ref moved, and the remote holds every listed commit, if its boundaries hide none
    // from the tips that were pushed.
    ensures answer == Accepted ==> last != [] && Published(remote.refs) == Published(old(remote.refs))[ref := target]
    ensures answer == Accepted ==>
              && Covered(commits, 0, |commits|, own, tips)
              && old(remote.commits) + History(tips, own + old(remote.shallow)) <= remote.commits
              && (NothingHidden(commits, 0, |commits|, own, old(remote.commits), old(remote.shallow), tips) ==> Elements(commits) <= remote.commits)
    ensures answer == Accepted && Anchored(old(remote.commits), old(remote.shallow), old(remote.refs).Values * local, own, target) ==>
              Elements(commits) <= remote.commits
    // Otherwise no ref but this one moved, and it only by a last push whose answer was lost.
    ensures answer != Accepted ==>
              || Published(remote.refs) == Published(old(remote.refs))
              || (last != [] && Published(remote.refs) == Published(old(remote.refs))[ref := target])
    // Each attempt follows from the answers before it: refused packs are sent again at once, a refusal for
    // its size calls for a quarter of the step, and once every step is accepted the ref itself is pushed.
    ensures RefusedRetried(steps) && RefusedRetried(last)
    ensures if |commits| <= 1 then steps == last == [] && answer == TooLarge
            else && Scheduled(steps, SmallerPush(|commits|).value) && steps != []
                 && (last == [] <==> LastAnswer(steps) != Accepted) && answer == if last == [] then LastAnswer(steps) else LastAnswer(last)
    // Only a single commit too large for one push is refused for its size.
    ensures answer == TooLarge && last == [] ==> |commits| <= 1 || steps[|steps| - 1].limit == 1
    // Every staging ref that was accepted is asked to be deleted, at the end.
    ensures exists staged: nat :: remote.deletions == old(remote.deletions) + Deletions(staged) && forall a :: a in steps ==> StagedAt(a, staged)
  {
    answer, steps, last, tips := TooLarge, [], [], {};
    var smaller := SmallerPush(|commits|);
    if smaller.None? {
      assert remote.deletions == old(remote.deletions) + Deletions(0);
      return;
    }
    ghost var o := Begun(remote.refs.Values * local, remote.commits, remote.shallow, own, target, commits);
    BegunUnderway(remote.refs, remote.commits, remote.shallow, local, own, target, commits);
    var staged;
    answer, steps, staged, tips := PushAll(remote, local, own, target, commits, o, smaller.value);
    if answer == Accepted {
      answer, last := PushTarget(remote, local, own, target, ref, commits, o, tips, staged);
      Joined(old(remote.log), steps, last);
      BothBounded(steps, last, target, own, commits, o);
      Completed(commits, o.there, o.shallow, own, tips, remote.commits, remote.shallow);
      AnchoredShows(commits, target, o.held, own, o.there, o.shallow, tips);
    }
    Unstage(remote, staged);
  }

  /** The push that moves the ref once every listed commit is the remote's. */
  method PushTarget(remote: ArtifactsRemote, local: set<Commit>, own: set<Commit>, target: Commit, ref: RefName, commits: seq<Commit>,
                    ghost o: Outset, ghost tips: set<Commit>, ghost staged: nat)
    returns (answer: Answer, last: seq<Attempt>)
    requires remote.Valid() && ref.Named? && IsListing(commits, target, o.held, own) && Right(o, commits, own, target)
    requires Ancestors(target, own) <= local && o.there <= remote.commits
    requires tips <= remote.commits && Covered(commits, 0, |commits|, own, tips)
    requires Underway(remote.refs, o, remote.shallow, local, own, target, Elements(commits), staged)
    modifies remote
    ensures remote.Valid() && remote.log == old(remote.log) + last && last != []
    ensures old(remote.commits) <= remote.commits && remote.shallow <= o.shallow + own
    ensures AllBounded(last, target, own, commits, o)
    ensures forall a :: a in last ==> a.tip == target && a.ref == ref && a.limit == 0
    ensures RefusedRetried(last) && answer == LastAnswer(last) && remote.deletions == old(remote.deletions)
    ensures var moved := Published(old(remote.refs))[ref := target];
            Published(remote.refs) == moved || (answer != Accepted && Published(remote.refs) == Published(old(remote.refs)))
  {
    ghost var refs, kept := remote.refs, Kept(remote.refs, staged).Values * local;
    assert target in Ancestors(target, own);
    assert commits[..|commits|] == commits;
    HistoryMore(kept, refs.Values * local, own);
    answer, last := PushWithin(remote, local, own, target, commits, o, tips, |commits|, |commits|, target, ref, 0);
    NamedRef(refs, ref, target);
  }

  /** A push, in steps when it is refused as too large.  `commits` is what `rev-list` prints while the
      remote has not received the target. */
  method PushToArtifacts(remote: ArtifactsRemote, local: set<Commit>, own: set<Commit>, target: Commit, ref: RefName, commits: seq<Commit>)
    returns (answer: Answer, attempts: seq<Attempt>, steps: seq<Attempt>, last: seq<Attempt>)
    requires remote.Valid() && ref.Named? && forall n: nat :: Staging(n) !in remote.refs
    requires Ancestors(target, own) <= local
    requires IsListing(commits, target, remote.refs.Values * local, own)
    modifies remote
    ensures remote.Valid() && old(remote.commits) <= remote.commits && remote.log == old(remote.log) + attempts + (steps + last)
    // No ref but this one ever moves, and an accepted push has moved it.
    ensures var moved := Published(old(remote.refs))[ref := target];
            Published(remote.refs) == moved || (answer != Accepted && Published(remote.refs) == Published(old(remote.refs)))
    // It goes in steps exactly when it is refused for its size, has not arrived, and more than one commit is
    // listed; otherwise its own answer stands.
    ensures RefusedRetried(attempts) && attempts != []
    ensures LastAnswer(attempts) == TooLarge && |commits| > 1 && (forall a :: a in attempts ==> !a.landed) ==>
              steps != [] && answer == (if last == [] then LastAnswer(steps) else LastAnswer(last)) && (last == [] <==> LastAnswer(steps) != Accepted)
    ensures LastAnswer(attempts) != TooLarge || |commits| <= 1 ==> steps == last == [] && answer == LastAnswer(attempts)
  {
    assert target in Ancestors(target, own);
    NamedRef(remote.refs, ref, target);
    steps, last := [], [];
    ghost var known, shallow := remote.refs.Values * local, remote.shallow;
    answer, attempts := PushPack(remote, local, own, target, ref, {}, |commits|);
    PushRetried(attempts, answer, remote.fetches[|old(remote.fetches)|..], own, shallow, Pack(target, known, own), Pack(target, known, own + shallow));
    if answer == TooLarge {
      // Nothing is listed, and the refusal stands, once the remote advertises the target.
      if ref in remote.refs && remote.refs[ref] == target {
        if target in known { ListedNothing(commits, target, known, own); }
        return;
      }
      ghost var tips;
      answer, steps, last, tips := PushInSteps(remote, local, own, target, ref, commits);
      Joined(old(remote.log), attempts, steps + last);
    }
  }

  lemma ListedNothing(commits: seq<Commit>, target: Commit, held: set<Commit>, own: set<Commit>)
    requires IsListing(commits, target, held, own) && target in held
    ensures commits == []
  {
    assert Ancestors(target, own) <= History(held, own);
    var first := if commits == [] then target else commits[0];
    assert commits == [] || first in Elements(commits);
  }

  /** Removes the staging refs, or leaves them when the remote cannot be reached. */
  method Unstage(remote: ArtifactsRemote, staged: nat)
    requires remote.Valid()
    modifies remote`refs, remote`deletions
    ensures remote.Valid() && Published(remote.refs) == Published(old(remote.refs))
    ensures remote.deletions == old(remote.deletions) + Deletions(staged)
  {
    if staged > 0 { remote.DeleteRefs(StagedNames(staged)); }
  }

  function Deletions(staged: nat): seq<set<RefName>> {
    if staged == 0 then [] else [StagedNames(staged)]
  }

  /** The first staging refs. */
  function StagedNames(staged: nat): set<RefName> {
    set n: nat | n < staged :: Staging(n)
  }

  /** A history in one line above `root`, whose second commit is a boundary of the remote. */
  ghost predicate InLine(root: Commit, boundary: Commit, c: Commit, d: Commit, target: Commit) {
    root.parents == [] && boundary.parents == [root] && c.parents == [boundary] && d.parents == [c] && target.parents == [d]
  }

  lemma Above(c: Commit, parent: Commit, cut: set<Commit>, below: set<Commit>)
    requires c.parents == [parent] && c !in cut && Ancestors(parent, cut) == below
    ensures Ancestors(c, cut) == {c} + below && parent < c
  {
    SingleParent(c, cut);
    assert parent in c.parents;
  }

  lemma LineDistinct(root: Commit, boundary: Commit, c: Commit, d: Commit, target: Commit)
    requires InLine(root, boundary, c, d, target)
    ensures root < boundary < c < d < target && |{root, boundary, c, d, target}| == 5
  {
    assert root in boundary.parents && boundary in c.parents && c in d.parents && d in target.parents;
  }

  lemma LineAll(root: Commit, boundary: Commit, c: Commit, d: Commit, target: Commit)
    requires InLine(root, boundary, c, d, target)
    ensures Ancestors(target, {}) == {target, d, c, boundary, root}
  {
    NoParent(root, {});
    Above(boundary, root, {}, {root});
    Above(c, boundary, {}, {boundary, root});
    Above(d, c, {}, {c, boundary, root});
    Above(target, d, {}, {d, c, boundary, root});
  }

  lemma LineCut(root: Commit, boundary: Commit, c: Commit, d: Commit, target: Commit)
    requires InLine(root, boundary, c, d, target)
    ensures Ancestors(target, {boundary}) == {target, d, c, boundary}
  {
    LineDistinct(root, boundary, c, d, target);
    NoParent(boundary, {boundary});
    Above(c, boundary, {boundary}, {boundary});
    Above(d, c, {boundary}, {c, boundary});
    Above(target, d, {boundary}, {d, c, boundary});
  }

  lemma LineListed(root: Commit, boundary: Commit, c: Commit, d: Commit, target: Commit)
    requires InLine(root, boundary, c, d, target)
    ensures IsListing([root, boundary, c, d, target], target, {}, {})
    ensures Covered([root, boundary, c, d, target], 0, 5, {}, {boundary, d, target})
  {
    LineAll(root, boundary, c, d, target);
    LineDistinct(root, boundary, c, d, target);
    var listed := [root, boundary, c, d, target];
    assert listed[0] == root && listed[1] == boundary && listed[2] == c && listed[3] == d && listed[4] == target;
    assert Elements(listed) == {root, boundary, c, d, target};
    assert History({}, {}) == {};
    forall j | 0 <= j < |listed| ensures ParentsFirst(listed, {}, j) {
    }
    forall i | 0 <= i < 5 ensures CoveredAt(listed, 5, {}, {boundary, d, target}, i) {
      assert listed[0] in Parents(listed[1], {}) && listed[2] in Parents(listed[3], {});
    }
  }

  lemma HistoryOf(tips: set<Commit>, target: Commit, cut: set<Commit>)
    requires target in tips && tips <= Ancestors(target, cut)
    ensures History(tips, cut) == Ancestors(target, cut)
  {
    AncestorsClosed(target, cut);
    HistoryLeast(tips, cut, Ancestors(target, cut));
  }

  lemma FirstStepSkips(root: Commit, boundary: Commit, other: Commit)
    requires root.parents == [] && boundary.parents == [root] && other.parents == [boundary]
    ensures IsTip([root, boundary], {}, boundary) && !IsTip([root, boundary], {}, root)
    ensures Closed({other, boundary}, {boundary}) && Pack(boundary, {}, {boundary}) == {boundary}
    ensures Connected({other, boundary} + Pack(boundary, {}, {boundary}), boundary, {boundary} + Told(boundary, {boundary}))
    ensures root in History({boundary}, {}) && root !in {other, boundary}
  {
    assert root in boundary.parents && boundary in other.parents;
    assert root < boundary < other;
    NoParent(boundary, {boundary});
    assert root in Parents(boundary, {});
    NoParent(root, {});
    Above(boundary, root, {}, {root});
    assert boundary !in Parents(root, {}) && boundary !in Parents(boundary, {});
  }

  lemma HeldClosed(boundary: Commit, other: Commit)
    requires other.parents == [boundary]
    ensures Closed({other, boundary}, {boundary})
  {
    forall x, p | x in {other, boundary} && p in Parents(x, {boundary}) ensures p in {other, boundary} {
      assert x == other && p == boundary;
    }
  }

  lemma RestSkips(root: Commit, boundary: Commit, c: Commit, d: Commit, target: Commit, other: Commit, tips: seq<Commit>)
    requires InLine(root, boundary, c, d, target) && other.parents == [boundary]
    requires Elements(tips) == {boundary, d, target}
    ensures Retried({other, boundary}, {boundary}, {}, tips) == {other, boundary} + {target, d, c, boundary}
    ensures History({boundary, d, target}, {boundary}) == {target, d, c, boundary}
  {
    LineDistinct(root, boundary, c, d, target);
    LineCut(root, boundary, c, d, target);
    HistoryOf({boundary, d, target}, target, {boundary});
    HeldClosed(boundary, other);
    RetriedIs({other, boundary}, {boundary}, {}, tips);
  }

  lemma RootHidden(root: Commit, boundary: Commit, c: Commit, d: Commit, target: Commit, there: set<Commit>, tips: set<Commit>)
    requires InLine(root, boundary, c, d, target) && root !in there + History(tips, {boundary})
    ensures !NothingHidden([root, boundary, c, d, target], 0, 5, {}, there, {boundary}, tips)
  {
    var listed := [root, boundary, c, d, target];
    assert {} + {boundary} == {boundary};
    assert listed[0] == root && listed[1] == boundary;
    assert !Shown(listed, {}, {boundary}, there + History(tips, {} + {boundary}), 0, 1);
  }

  /** A step of a stepped push that is accepted, and counted as sent, without being delivered.  The
      checkout does not know the remote's ref `other`, so it lists `root`.  Five commits go two at a
      time, so `root` is in one step with the remote's boundary, its only tip; and the retry of that
      tip, cut at the boundary, is connected and leaves `root` out. */
  lemma StepSkipsListed(root: Commit, boundary: Commit, c: Commit, d: Commit, target: Commit, other: Commit)
    requires InLine(root, boundary, c, d, target) && other.parents == [boundary]
    ensures IsListing([root, boundary, c, d, target], target, {}, {}) && SmallerPush(5) == Some(2)
    ensures IsTip([root, boundary], {}, boundary) && !IsTip([root, boundary], {}, root)
    ensures Connected({other, boundary} + Pack(boundary, {}, {boundary}), boundary, {boundary} + Told(boundary, {boundary}))
    ensures root in History({boundary}, {}) && root !in {other, boundary} + Pack(boundary, {}, {boundary})
  {
    FirstStepSkips(root, boundary, other);
    LineListed(root, boundary, c, d, target);
  }

  /** Nor does the rest of that push deliver it: once every tip has been retried, the target with
      them, the remote still lacks `root`. */
  lemma SkippedStaysMissing(root: Commit, boundary: Commit, c: Commit, d: Commit, target: Commit, other: Commit, tips: seq<Commit>)
    requires InLine(root, boundary, c, d, target) && other.parents == [boundary]
    requires Elements(tips) == {boundary, d, target}
    ensures Covered([root, boundary, c, d, target], 0, 5, {}, Elements(tips))
    ensures root !in Retried({other, boundary}, {boundary}, {}, tips) && target in Retried({other, boundary}, {boundary}, {}, tips)
    ensures !NothingHidden([root, boundary, c, d, target], 0, 5, {}, {other, boundary}, {boundary}, Elements(tips))
  {
    RestSkips(root, boundary, c, d, target, other, tips);
    LineDistinct(root, boundary, c, d, target);
    assert boundary in other.parents;
    RootHidden(root, boundary, c, d, target, {other, boundary}, Elements(tips));
    LineListed(root, boundary, c, d, target);
  }

  // ------------------------------------------------------------------ steps that carry more

  lemma MergeReach(merge: Commit, boundary: Commit, root: Commit, cut: set<Commit>)
    requires root.parents == [] && boundary.parents == [root] && merge.parents == [boundary, root] && merge !in cut
    ensures root < boundary < merge && Ancestors(merge, cut) == {merge, boundary, root}
    ensures Ancestors(boundary, {boundary}) == {boundary} && Ancestors(boundary, {}) == {boundary, root}
  {
    assert root in boundary.parents && boundary in merge.parents && root in merge.parents;
    NoParent(root, cut);
    NoParent(root, {});
    NoParent(boundary, {boundary});
    Above(boundary, root, {}, {root});
    forall a ensures a in Ancestors(merge, cut) <==> a in {merge, boundary, root} {
      if a == boundary { assert boundary in Ancestors(boundary, cut); }
      if a == root { assert root in Ancestors(root, cut); }
      if a in Ancestors(merge, cut) && a != merge {
        var p :| p in merge.parents && a in Ancestors(p, cut);
        MoreCut(boundary, {}, cut);
      }
    }
  }

  /** A step of one commit whose retry carries two the remote lacks: it advertises `boundary`, which this
      checkout takes to include `root`, and holds it without. */
  lemma StepCarriesOlder(root: Commit, boundary: Commit, merge: Commit, child: Commit)
    requires root.parents == [] && boundary.parents == [root] && merge.parents == [boundary, root] && child.parents == [merge]
    ensures Closed({boundary}, {boundary}) && SmallerPush(2) == Some(1)
    ensures IsListing([merge, child], child, {boundary}, {})
    ensures Pack(merge, {boundary}, {boundary}) - {boundary} == {merge, root} && |{merge, root}| == 2
  {
    MergeReach(merge, boundary, root, {});
    MergeReach(merge, boundary, root, {boundary});
    Above(child, merge, {}, {merge, boundary, root});
    OneHistory(boundary, {});
    OneHistory(boundary, {boundary});
    var listed := [merge, child];
    assert listed[0] == merge && listed[1] == child;
    assert Elements(listed) == {merge, child};
    forall j | 0 <= j < |listed| ensures ParentsFirst(listed, {}, j) {
    }
  }

  lemma OneHistory(tip: Commit, cut: set<Commit>)
    ensures History({tip}, cut) == Ancestors(tip, cut)
  {
  }

  /** A listing that goes two at a time, `root` and the remote's boundary first. */
  ghost predicate Forked(root: Commit, boundary: Commit, merge: Commit, child: Commit, target: Commit, other: Commit) {
    && root.parents == [] && boundary.parents == [root] && merge.parents == [boundary, root]
    && child.parents == [merge] && target.parents == [child] && other.parents == [boundary]
  }

  lemma ForkedListed(root: Commit, boundary: Commit, merge: Commit, child: Commit, target: Commit, other: Commit)
    requires Forked(root, boundary, merge, child, target, other)
    ensures IsListing([root, boundary, merge, child, target], target, {}, {}) && SmallerPush(5) == Some(2)
    ensures Elements([root, boundary, merge, child, target]) == {root, boundary, merge, child, target}
  {
    OwedReach(root, boundary, merge, child, target, other);
    OwedListed(root, boundary, merge, child, target);
  }

  /** The second step of two commits, whose retry carries three listed ones the remote lacks: `root`, which
      the step before counted as sent, is hidden by the boundary at its tip. */
  lemma StepCarriesOwed(root: Commit, boundary: Commit, merge: Commit, child: Commit, target: Commit, other: Commit)
    requires Forked(root, boundary, merge, child, target, other)
    ensures Closed({other, boundary}, {boundary}) && Retried({other, boundary}, {boundary}, {}, [boundary]) == {other, boundary}
    ensures Pack(child, {boundary}, {boundary}) - {other, boundary} == {child, merge, root} && |{child, merge, root}| == 3
  {
    OwedReach(root, boundary, merge, child, target, other);
    OwedRetry(root, boundary, merge, child, other);
    OwedStep(boundary, other);
  }

  lemma OwedReach(root: Commit, boundary: Commit, merge: Commit, child: Commit, target: Commit, other: Commit)
    requires Forked(root, boundary, merge, child, target, other)
    ensures root < boundary < merge < child < target && other !in {root, merge, child}
    ensures Ancestors(target, {}) == {target, child, merge, boundary, root}
    ensures Ancestors(child, {boundary}) == {child, merge, boundary, root} && Ancestors(boundary, {boundary}) == {boundary}
  {
    MergeReach(merge, boundary, root, {});
    MergeReach(merge, boundary, root, {boundary});
    Above(child, merge, {}, {merge, boundary, root});
    Above(target, child, {}, {child, merge, boundary, root});
    Above(child, merge, {boundary}, {merge, boundary, root});
    NotAbove(root, boundary, merge, child, other);
  }

  lemma OwedRetry(root: Commit, boundary: Commit, merge: Commit, child: Commit, other: Commit)
    requires root < boundary < merge < child && other !in {root, merge, child}
    requires Ancestors(child, {boundary}) == {child, merge, boundary, root} && Ancestors(boundary, {boundary}) == {boundary}
    ensures Pack(child, {boundary}, {boundary}) - {other, boundary} == {child, merge, root} && |{child, merge, root}| == 3
  {
    OneHistory(boundary, {boundary});
  }

  lemma OwedStep(boundary: Commit, other: Commit)
    requires other.parents == [boundary]
    ensures Closed({other, boundary}, {boundary})
    ensures Retried({other, boundary}, {boundary}, {}, [boundary]) == {other, boundary}
  {
    HeldClosed(boundary, other);
    assert boundary in other.parents;
    RetriedIs({other, boundary}, {boundary}, {}, [boundary]);
    assert Elements([boundary]) == {boundary};
    OneHistory(boundary, {boundary});
    NoParent(boundary, {boundary});
  }

  lemma NotAbove(root: Commit, boundary: Commit, merge: Commit, child: Commit, other: Commit)
    requires root < boundary < merge < child && other.parents == [boundary] && child.parents == [merge]
    requires merge.parents == [boundary, root] && root.parents == []
    ensures other !in {root, merge, child}
  {
  }

  lemma OwedListed(root: Commit, boundary: Commit, merge: Commit, child: Commit, target: Commit)
    requires root.parents == [] && boundary.parents == [root] && merge.parents == [boundary, root] && root < boundary < merge < child < target
    requires child.parents == [merge] && target.parents == [child]
    requires Ancestors(target, {}) == {target, child, merge, boundary, root}
    ensures IsListing([root, boundary, merge, child, target], target, {}, {})
    ensures Elements([root, boundary, merge, child, target]) == {root, boundary, merge, child, target}
  {
    var listed := [root, boundary, merge, child, target];
    assert listed[0] == root && listed[1] == boundary && listed[2] == merge && listed[3] == child && listed[4] == target;
    assert Elements(listed) == {root, boundary, merge, child, target};
    assert History({}, {}) == {};
    forall j | 0 <= j < |listed| ensures ParentsFirst(listed, {}, j) {
    }
  }
}
