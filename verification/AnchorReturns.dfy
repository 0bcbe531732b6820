/** When a fetch fails although nothing was locked: the anchor moved away from the value it read, and
    back (`ArtifactsGitRemote.fetchCheckpoint`). */
module AnchorReturns {
  import opened Objects
  import opened CommitGraph
  import opened FetchAnchor

  /** The anchor once the first `t` fetches of `path` have moved it, one after the other. */
  function Moved(anchor: Option<Commit>, commits: seq<Commit>, path: seq<nat>, t: nat): Option<Commit>
    requires t <= |path|
  {
    if t == 0 then anchor else if path[t - 1] < |commits| then Some(commits[path[t - 1]]) else None
  }

  ghost predicate MovesTo(anchor: Option<Commit>, commits: seq<Commit>, path: seq<nat>, t: nat, cut: set<Commit>)
    requires t < |path|
  {
    path[t] < |commits| && !Reaches(Moved(anchor, commits, path, t), commits[path[t]], cut)
  }

  ghost predicate Without(path: seq<nat>, i: nat) {
    forall t :: 0 <= t < |path| ==> path[t] != i
  }

  /** Different fetches that could move the anchor in this order, each to a commit it does not reach. */
  ghost predicate Advancing(anchor: Option<Commit>, commits: seq<Commit>, path: seq<nat>, cut: set<Commit>) {
    && (forall t, u :: 0 <= t < u < |path| ==> path[t] != path[u])
    && forall t :: 0 <= t < |path| ==> MovesTo(anchor, commits, path, t, cut)
  }

  /** They bring the anchor back to what it was after `s` of them, while the commit of yet another fetch
      is not reached. */
  ghost predicate Returns(anchor: Option<Commit>, commits: seq<Commit>, path: seq<nat>, s: nat, i: nat, cut: set<Commit>) {
    && Advancing(anchor, commits, path, cut) && s < |path| && i < |commits| && Without(path, i)
    && Moved(anchor, commits, path, s) == Moved(anchor, commits, path, |path|)
    && !Reaches(Moved(anchor, commits, path, |path|), commits[i], cut)
  }

  ghost predicate CanReturn(anchor: Option<Commit>, commits: seq<Commit>, cut: set<Commit>) {
    exists path: seq<nat>, s: nat, i: nat :: Returns(anchor, commits, path, s, i, cut)
  }

  /** No swap was refused for a lock. */
  ghost predicate Unlocked(events: seq<Event>) {
    forall e :: e in events ==> !e.Swap? || !e.locked
  }

  ghost predicate AnyFailed(s: State) {
    exists i :: 0 <= i < |s.fetches| && s.fetches[i].phase == Failed
  }

  /** A run without locks in which a fetch fails. */
  ghost predicate Fails(anchor: Option<Commit>, commits: seq<Commit>, events: seq<Event>, cut: set<Commit>) {
    IsRun(Start(anchor, commits), events, cut) && Unlocked(events) && AnyFailed(After(Start(anchor, commits), events, cut))
  }

  /** What a fetch knows of the fetches that moved the anchor so far. */
  ghost predicate PastFetch(f: Fetch, anchor: Option<Commit>, commits: seq<Commit>, path: seq<nat>, i: nat, cut: set<Commit>)
    requires i < |commits|
  {
    && f.commit == commits[i]
    && (f.phase.Swapping? || f.phase.Checking? ==>
          && f.readAt <= |path| && f.phase.seen == Moved(anchor, commits, path, f.readAt)
          && !Reaches(f.phase.seen, commits[i], cut)
          && (f.phase.Checking? ==> f.readAt < |path|))
    && (f.phase.Completed? || Without(path, i))
  }

  ghost predicate Past(s: State, anchor: Option<Commit>, commits: seq<Commit>, path: seq<nat>, cut: set<Commit>) {
    && |s.fetches| == |commits| && Advancing(anchor, commits, path, cut)
    && s.anchor == Moved(anchor, commits, path, |path|) && s.advances == |path|
    && forall i :: 0 <= i < |commits| ==> PastFetch(s.fetches[i], anchor, commits, path, i, cut)
  }

  lemma MovedSame(anchor: Option<Commit>, commits: seq<Commit>, path: seq<nat>, i: nat, t: nat)
    requires t <= |path|
    ensures Moved(anchor, commits, path + [i], t) == Moved(anchor, commits, path, t)
  {
  }

  lemma AdvancedFurther(anchor: Option<Commit>, commits: seq<Commit>, path: seq<nat>, i: nat, cut: set<Commit>)
    requires Advancing(anchor, commits, path, cut) && i < |commits| && Without(path, i)
    requires !Reaches(Moved(anchor, commits, path, |path|), commits[i], cut)
    ensures Advancing(anchor, commits, path + [i], cut)
  {
    var after := path + [i];
    forall t | 0 <= t < |after| ensures MovesTo(anchor, commits, after, t, cut) {
      MovedSame(anchor, commits, path, i, t);
      assert t < |path| ==> MovesTo(anchor, commits, path, t, cut);
    }
  }

  lemma PastFurther(f: Fetch, anchor: Option<Commit>, commits: seq<Commit>, path: seq<nat>, i: nat, j: nat, cut: set<Commit>)
    requires j < |commits| && i != j && PastFetch(f, anchor, commits, path, j, cut)
    ensures PastFetch(f, anchor, commits, path + [i], j, cut)
  {
    if f.phase.Swapping? || f.phase.Checking? { MovedSame(anchor, commits, path, i, f.readAt); }
  }

  /** A step without locks keeps the past, and fails a fetch only once the anchor came back. */
  lemma StepKeepsPast(s: State, e: Event, anchor: Option<Commit>, commits: seq<Commit>, path: seq<nat>, cut: set<Commit>) returns (after: seq<nat>)
    requires Past(s, anchor, commits, path, cut) && Enabled(s, e) && (e.Swap? ==> !e.locked)
    ensures Past(Next(s, e, cut), anchor, commits, after, cut)
    ensures e.Check? && s.anchor == s.fetches[e.i].phase.seen ==> CanReturn(anchor, commits, cut)
  {
    var i := e.i;
    assert PastFetch(s.fetches[i], anchor, commits, path, i, cut);
    if e.Swap? && s.anchor == s.fetches[i].phase.seen {
      after := path + [i];
      AdvancedFurther(anchor, commits, path, i, cut);
      forall j | 0 <= j < |commits| ensures PastFetch(Next(s, e, cut).fetches[j], anchor, commits, after, j, cut) {
        if j != i { PastFurther(s.fetches[j], anchor, commits, path, i, j, cut); }
      }
    } else {
      after := path;
      forall j | 0 <= j < |commits| ensures PastFetch(Next(s, e, cut).fetches[j], anchor, commits, path, j, cut) {
        assert PastFetch(s.fetches[j], anchor, commits, path, j, cut);
      }
      if e.Check? && s.anchor == s.fetches[i].phase.seen {
        assert Returns(anchor, commits, path, s.fetches[i].readAt, i, cut);
      }
    }
  }

  lemma {:induction false} RunReturns(s: State, events: seq<Event>, anchor: Option<Commit>, commits: seq<Commit>, path: seq<nat>, cut: set<Commit>)
    requires Past(s, anchor, commits, path, cut) && !AnyFailed(s)
    requires IsRun(s, events, cut) && Unlocked(events) && AnyFailed(After(s, events, cut))
    ensures CanReturn(anchor, commits, cut)
    decreases |events|
  {
    if events != [] {
      assert events[0] in events;
      var e, next := events[0], Next(s, events[0], cut);
      var after := StepKeepsPast(s, e, anchor, commits, path, cut);
      if AnyFailed(next) {
        var i :| 0 <= i < |next.fetches| && next.fetches[i].phase == Failed;
        assert s.fetches[i].phase != Failed;
      } else {
        RunReturns(next, events[1..], anchor, commits, after, cut);
      }
    }
  }

  lemma {:induction false} AppendRun(s: State, a: seq<Event>, b: seq<Event>, cut: set<Commit>)
    requires IsRun(s, a, cut) && IsRun(After(s, a, cut), b, cut)
    ensures IsRun(s, a + b, cut) && After(s, a + b, cut) == After(After(s, a, cut), b, cut)
    decreases |a|
  {
    if a == [] {
      assert a + b == b;
    } else {
      assert (a + b)[1..] == a[1..] + b;
      AppendRun(Next(s, a[0], cut), a[1..], b, cut);
    }
  }

  /** The fetches of `path` from `t` on have not begun, the anchor is where the others left it, and the
      fetch `i` is in `phase`. */
  ghost predicate Midway(s: State, anchor: Option<Commit>, commits: seq<Commit>, path: seq<nat>, t: nat, i: nat, phase: Phase)
    requires t <= |path| && i < |commits| && forall x :: 0 <= x < |path| ==> path[x] < |commits|
  {
    && |s.fetches| == |commits| && (forall x :: 0 <= x < |commits| ==> s.fetches[x].commit == commits[x])
    && s.anchor == Moved(anchor, commits, path, t) && s.fetches[i].phase == phase
    && forall x :: t <= x < |path| ==> s.fetches[path[x]].phase == Reading
  }

  /** The next fetch of `path` moves the anchor in one go. */
  lemma MoveOn(s: State, anchor: Option<Commit>, commits: seq<Commit>, path: seq<nat>, t: nat, i: nat, phase: Phase, cut: set<Commit>)
    requires Advancing(anchor, commits, path, cut) && t < |path| && i < |commits| && Without(path, i)
    requires forall x :: 0 <= x < |path| ==> path[x] < |commits|
    requires Midway(s, anchor, commits, path, t, i, phase)
    ensures Enabled(s, Read(path[t])) && Enabled(Next(s, Read(path[t]), cut), Swap(path[t], false))
    ensures Midway(Next(Next(s, Read(path[t]), cut), Swap(path[t], false), cut), anchor, commits, path, t + 1, i, phase)
  {
    assert MovesTo(anchor, commits, path, t, cut);
    var s1 := Next(s, Read(path[t]), cut);
    assert s1.fetches[path[t]].phase == Swapping(s.anchor) && s1.anchor == s.anchor;
  }

  /** The fetches of `path` from `t` to `u` move the anchor. */
  lemma {:induction false} MoveAlong(s: State, anchor: Option<Commit>, commits: seq<Commit>, path: seq<nat>, t: nat, u: nat, i: nat, phase: Phase,
                                     cut: set<Commit>) returns (events: seq<Event>)
    requires Advancing(anchor, commits, path, cut) && t <= u <= |path| && i < |commits| && Without(path, i)
    requires forall x :: 0 <= x < |path| ==> path[x] < |commits|
    requires Midway(s, anchor, commits, path, t, i, phase)
    ensures IsRun(s, events, cut) && Unlocked(events) && Midway(After(s, events, cut), anchor, commits, path, u, i, phase)
    decreases u - t
  {
    if t == u {
      events := [];
    } else {
      var x := path[t];
      MoveOn(s, anchor, commits, path, t, i, phase, cut);
      var s1 := Next(s, Read(x), cut);
      var rest := MoveAlong(Next(s1, Swap(x, false), cut), anchor, commits, path, t + 1, u, i, phase, cut);
      RunsTo(s1, Swap(x, false), rest, cut);
      RunsTo(s, Read(x), [Swap(x, false)] + rest, cut);
      events := [Read(x)] + ([Swap(x, false)] + rest);
    }
  }

  lemma OneStep(s: State, e: Event, cut: set<Commit>)
    requires Enabled(s, e)
    ensures IsRun(s, [e], cut) && After(s, [e], cut) == Next(s, e, cut)
  {
    RunsTo(s, e, [], cut);
    assert [e] + [] == [e];
  }

  /** From where the fetch `i` swaps in vain until it fails. */
  lemma FailsLater(s: State, anchor: Option<Commit>, commits: seq<Commit>, path: seq<nat>, t: nat, i: nat, seen: Option<Commit>, cut: set<Commit>)
    returns (events: seq<Event>)
    requires Advancing(anchor, commits, path, cut) && t <= |path| && i < |commits| && Without(path, i)
    requires forall x :: 0 <= x < |path| ==> path[x] < |commits|
    requires Midway(s, anchor, commits, path, t, i, Swapping(seen)) && s.anchor != seen && Moved(anchor, commits, path, |path|) == seen
    ensures IsRun(s, events, cut) && Unlocked(events) && AnyFailed(After(s, events, cut))
  {
    var s1 := Next(s, Swap(i, false), cut);
    assert Midway(s1, anchor, commits, path, t, i, Checking(seen));
    var rest := MoveAlong(s1, anchor, commits, path, t, |path|, i, Checking(seen), cut);
    var s2 := After(s1, rest, cut);
    assert Next(s2, Check(i), cut).fetches[i].phase == Failed;
    OneStep(s2, Check(i), cut);
    AppendRun(s1, rest, [Check(i)], cut);
    RunsTo(s, Swap(i, false), rest + [Check(i)], cut);
    events := [Swap(i, false)] + (rest + [Check(i)]);
  }

  /** From where the fetch `i` reads the anchor until it fails. */
  lemma ReadsAndFails(s2: State, anchor: Option<Commit>, commits: seq<Commit>, path: seq<nat>, s: nat, i: nat, cut: set<Commit>)
    returns (events: seq<Event>)
    requires Returns(anchor, commits, path, s, i, cut)
    requires forall x :: 0 <= x < |path| ==> path[x] < |commits|
    requires Midway(s2, anchor, commits, path, s, i, Reading)
    ensures IsRun(s2, events, cut) && Unlocked(events) && AnyFailed(After(s2, events, cut))
  {
    var seen, x := Moved(anchor, commits, path, s), path[s];
    var s3 := Next(s2, Read(i), cut);
    assert Midway(s3, anchor, commits, path, s, i, Swapping(seen));
    MoveOn(s3, anchor, commits, path, s, i, Swapping(seen), cut);
    var s4 := Next(s3, Read(x), cut);
    var s5 := Next(s4, Swap(x, false), cut);
    assert MovesTo(anchor, commits, path, s, cut);
    MovedElsewhere(seen, commits[x], cut);
    var rest := FailsLater(s5, anchor, commits, path, s + 1, i, seen, cut);
    RunsTo(s4, Swap(x, false), rest, cut);
    RunsTo(s3, Read(x), [Swap(x, false)] + rest, cut);
    RunsTo(s2, Read(i), [Read(x)] + ([Swap(x, false)] + rest), cut);
    events := [Read(i)] + ([Read(x)] + ([Swap(x, false)] + rest));
  }

  /** The fetch `i` reads the anchor, finds it moved when it swaps, and back when it checks. */
  lemma ReturnFails(anchor: Option<Commit>, commits: seq<Commit>, path: seq<nat>, s: nat, i: nat, cut: set<Commit>) returns (events: seq<Event>)
    requires Returns(anchor, commits, path, s, i, cut)
    ensures Fails(anchor, commits, events, cut)
  {
    var s0 := Start(anchor, commits);
    forall x | 0 <= x < |path| ensures path[x] < |commits| {
      assert MovesTo(anchor, commits, path, x, cut);
    }
    var a := MoveAlong(s0, anchor, commits, path, 0, s, i, Reading, cut);
    var b := ReadsAndFails(After(s0, a, cut), anchor, commits, path, s, i, cut);
    AppendRun(s0, a, b, cut);
    events := a + b;
  }

  lemma MovedElsewhere(seen: Option<Commit>, commit: Commit, cut: set<Commit>)
    requires !Reaches(seen, commit, cut)
    ensures seen != Some(commit)
  {
    assert commit in Ancestors(commit, cut);
  }

  /** Without locks, a fetch can fail if and only if the anchor can leave a value and come back to it
      while the commit of another fetch is not reached. */
  lemma FailsIffReturns(anchor: Option<Commit>, commits: seq<Commit>, cut: set<Commit>)
    ensures (exists events :: Fails(anchor, commits, events, cut)) <==> CanReturn(anchor, commits, cut)
  {
    if events :| Fails(anchor, commits, events, cut) {
      assert Past(Start(anchor, commits), anchor, commits, [], cut);
      RunReturns(Start(anchor, commits), events, anchor, commits, [], cut);
    }
    if CanReturn(anchor, commits, cut) {
      var path: seq<nat>, s: nat, i: nat :| Returns(anchor, commits, path, s, i, cut);
      var events := ReturnFails(anchor, commits, path, s, i, cut);
    }
  }

  /** On one ancestry line it cannot. */
  lemma OneLineNeverReturns(anchor: Option<Commit>, commits: seq<Commit>, cut: set<Commit>)
    requires OneLine((set c | c in commits) + if anchor.Some? then {anchor.value} else {}, cut)
    ensures !CanReturn(anchor, commits, cut)
  {
    forall path: seq<nat>, s: nat, i: nat ensures !Returns(anchor, commits, path, s, i, cut) {
      if Advancing(anchor, commits, path, cut) && s < |path| {
        OnlyUp(anchor, commits, path, s, |path|, cut);
      }
    }
  }

  lemma {:induction false} OnlyUp(anchor: Option<Commit>, commits: seq<Commit>, path: seq<nat>, t: nat, u: nat, cut: set<Commit>)
    requires OneLine((set c | c in commits) + if anchor.Some? then {anchor.value} else {}, cut)
    requires Advancing(anchor, commits, path, cut) && t < u <= |path|
    ensures var low, high := Moved(anchor, commits, path, t), Moved(anchor, commits, path, u);
            high.Some? && (low.Some? ==> low.value < high.value)
    decreases u - t
  {
    assert MovesTo(anchor, commits, path, u - 1, cut);
    var next, before := commits[path[u - 1]], Moved(anchor, commits, path, u - 1);
    assert next in commits;
    if before.Some? {
      assert u - 1 > 0 ==> before.value in commits;
      assert next !in Ancestors(before.value, cut);
      MovedElsewhere(before, next, cut);
      Below(before.value, next, cut);
    }
    if t < u - 1 { OnlyUp(anchor, commits, path, t, u - 1, cut); }
  }

  /** Such a run, over three unrelated commits. */
  lemma MovedAwayAndBackFails(a: Commit, b: Commit, c: Commit)
    requires a.parents == [] && b.parents == [] && c.parents == [] && a != b && b != c && a != c
    ensures var s := Start(Some(a), [c, b, a]);
            var events := [Read(0), Read(1), Swap(1, false), Swap(0, false), Read(2), Swap(2, false), Check(0)];
            && IsRun(s, events, {})
            && var t := After(s, events, {});
               t.fetches[0].phase == Failed && t.fetches[0].readAt < t.advances
  {
    assert Ancestors(a, {}) == {a} && Ancestors(b, {}) == {b} && Ancestors(c, {}) == {c};
    var s := Start(Some(a), [c, b, a]);
    var s1 := Next(s, Read(0), {});
    var s2 := Next(s1, Read(1), {});
    var s3 := Next(s2, Swap(1, false), {});
    var s4 := Next(s3, Swap(0, false), {});
    var s5 := Next(s4, Read(2), {});
    var s6 := Next(s5, Swap(2, false), {});
    var s7 := Next(s6, Check(0), {});
    assert s7.fetches[0].phase == Failed;
    RunsTo(s6, Check(0), [], {});
    RunsTo(s5, Swap(2, false), [Check(0)], {});
    RunsTo(s4, Read(2), [Swap(2, false), Check(0)], {});
    RunsTo(s3, Swap(0, false), [Read(2), Swap(2, false), Check(0)], {});
    RunsTo(s2, Swap(1, false), [Swap(0, false), Read(2), Swap(2, false), Check(0)], {});
    RunsTo(s1, Read(1), [Swap(1, false), Swap(0, false), Read(2), Swap(2, false), Check(0)], {});
    RunsTo(s, Read(0), [Read(1), Swap(1, false), Swap(0, false), Read(2), Swap(2, false), Check(0)], {});
  }
}
