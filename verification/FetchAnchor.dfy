/** Concurrent fetches moving one anchor ref by compare-and-swap
    (`ArtifactsGitRemote.fetchCheckpoint`). */
module FetchAnchor {
  import opened Objects
  import opened CommitGraph

  /** Where one fetch is: about to read the anchor, about to swap what it read for its commit,
      about to see whether a refused swap is worth deciding again, or finished. */
  datatype Phase = Reading | Swapping(seen: Option<Commit>) | Checking(seen: Option<Commit>) | Completed | Failed

  /** `readAt` counts the advances made before this fetch last read the anchor. */
  datatype Fetch = Fetch(commit: Commit, phase: Phase, readAt: nat, retries: nat)

  datatype State = State(anchor: Option<Commit>, advances: nat, fetches: seq<Fetch>)

  /** One git command of one fetch.  A swap may also be refused because the ref is locked. */
  datatype Event = Read(i: nat) | Swap(i: nat, locked: bool) | Check(i: nat)

  predicate Reaches(anchor: Option<Commit>, commit: Commit, cut: set<Commit>) {
    anchor.Some? && commit in Ancestors(anchor.value, cut)
  }

  predicate Enabled(s: State, e: Event) {
    && e.i < |s.fetches|
    && match s.fetches[e.i].phase
       case Reading => e.Read?
       case Swapping(_) => e.Swap?
       case Checking(_) => e.Check?
       case _ => false
  }

  function Next(s: State, e: Event, cut: set<Commit>): State
    requires Enabled(s, e)
  {
    var f := s.fetches[e.i];
    match e
    case Read(i) =>
      if Reaches(s.anchor, f.commit, cut) then s.(fetches := s.fetches[i := f.(phase := Completed)])
      else s.(fetches := s.fetches[i := f.(phase := Swapping(s.anchor), readAt := s.advances)])
    case Swap(i, locked) =>
      if !locked && s.anchor == f.phase.seen then
        State(Some(f.commit), s.advances + 1, s.fetches[i := f.(phase := Completed)])
      else s.(fetches := s.fetches[i := f.(phase := Checking(f.phase.seen))])
    case Check(i) =>
      if s.anchor == f.phase.seen then s.(fetches := s.fetches[i := f.(phase := Failed)])
      else s.(fetches := s.fetches[i := f.(phase := Reading, retries := f.retries + 1)])
  }

  /** The checkout whose anchor the fetches move. */
  class Checkout {
    const cut: set<Commit>
    var anchor: Option<Commit>
    var fetches: seq<Fetch>
    var advances: nat

    function Contents(): State
      reads this
    {
      State(anchor, advances, fetches)
    }

    constructor (anchor: Option<Commit>, commits: seq<Commit>, cut: set<Commit>)
      ensures Contents() == Start(anchor, commits) && this.cut == cut
    {
      this.anchor, this.cut, advances := anchor, cut, 0;
      fetches := seq(|commits|, i requires 0 <= i < |commits| => Fetch(commits[i], Reading, 0, 0));
    }

    /** `for-each-ref`, then `rev-list -n 1 commit --not current`. */
    method ReadAnchor(i: nat)
      requires Enabled(Contents(), Read(i))
      modifies this
      ensures Contents() == Next(old(Contents()), Read(i), cut)
    {
      var f := fetches[i];
      var current := anchor;
      if current.Some? && f.commit in Ancestors(current.value, cut) {
        fetches := fetches[i := f.(phase := Completed)];
      } else {
        fetches := fetches[i := f.(phase := Swapping(current), readAt := advances)];
      }
    }

    /** `update-ref checkpointRef commit current`. */
    method SwapAnchor(i: nat, locked: bool)
      requires Enabled(Contents(), Swap(i, locked))
      modifies this
      ensures Contents() == Next(old(Contents()), Swap(i, locked), cut)
    {
      var f := fetches[i];
      if locked || anchor != f.phase.seen {
        fetches := fetches[i := f.(phase := Checking(f.phase.seen))];
        return;
      }
      anchor, advances := Some(f.commit), advances + 1;
      fetches := fetches[i := f.(phase := Completed)];
    }

    /** After a refused swap: only an anchor that moved is decided again. */
    method CheckAnchor(i: nat)
      requires Enabled(Contents(), Check(i))
      modifies this
      ensures Contents() == Next(old(Contents()), Check(i), cut)
    {
      var f := fetches[i];
      fetches := fetches[i := if anchor == f.phase.seen then f.(phase := Failed)
                              else f.(phase := Reading, retries := f.retries + 1)];
    }
  }

  function Start(anchor: Option<Commit>, commits: seq<Commit>): State {
    State(anchor, 0, seq(|commits|, i requires 0 <= i < |commits| => Fetch(commits[i], Reading, 0, 0)))
  }

  // ------------------------------------------------------------------ every run

  ghost predicate IsRun(s: State, events: seq<Event>, cut: set<Commit>)
    decreases |events|
  {
    events != [] ==> Enabled(s, events[0]) && IsRun(Next(s, events[0], cut), events[1..], cut)
  }

  ghost function After(s: State, events: seq<Event>, cut: set<Commit>): State
    requires IsRun(s, events, cut)
    decreases |events|
  {
    if events == [] then s else After(Next(s, events[0], cut), events[1..], cut)
  }

  ghost predicate FetchInv(s: State, f: Fetch, cut: set<Commit>) {
    && f.retries <= s.advances
    && (f.phase.Swapping? || f.phase.Checking? ==>
          && !Reaches(f.phase.seen, f.commit, cut)
          && f.retries <= f.readAt <= s.advances
          && (f.readAt == s.advances ==> s.anchor == f.phase.seen))
  }

  ghost predicate Inv(s: State, cut: set<Commit>) {
    forall i :: 0 <= i < |s.fetches| ==> FetchInv(s, s.fetches[i], cut)
  }

  lemma StepKeepsInv(s: State, e: Event, cut: set<Commit>)
    requires Inv(s, cut) && Enabled(s, e)
    ensures Inv(Next(s, e, cut), cut)
  {
    var t := Next(s, e, cut);
    forall j | 0 <= j < |t.fetches| ensures FetchInv(t, t.fetches[j], cut) {
      assert FetchInv(s, s.fetches[j], cut);
    }
  }

  lemma MovesForward(s: State, e: Event, cut: set<Commit>)
    requires Inv(s, cut) && Enabled(s, e)
    ensures var t := Next(s, e, cut);
            t.anchor != s.anchor || t.advances != s.advances ==>
              && t.anchor == Some(s.fetches[e.i].commit) && !Reaches(s.anchor, t.anchor.value, cut)
              && t.advances == s.advances + 1
  {
    assert FetchInv(s, s.fetches[e.i], cut);
  }

  /** The anchor never rewinds: in any run, a step that moves it moves it to a fetched commit it did
      not reach. */
  lemma AnchorNeverRewinds(anchor: Option<Commit>, commits: seq<Commit>, events: seq<Event>, cut: set<Commit>, e: Event)
    requires IsRun(Start(anchor, commits), events, cut) && Enabled(After(Start(anchor, commits), events, cut), e)
    ensures var s := After(Start(anchor, commits), events, cut);
            var t := Next(s, e, cut);
            t.anchor != s.anchor || t.advances != s.advances ==>
              && e.i < |commits| && t.anchor == Some(commits[e.i]) && !Reaches(s.anchor, commits[e.i], cut)
              && t.advances == s.advances + 1
  {
    RunKeepsInv(Start(anchor, commits), events, cut);
    MovesForward(After(Start(anchor, commits), events, cut), e, cut);
  }

  // ------------------------------------------------------------------ one ancestry line

  /** Of any two of the commits and the first anchor, one reaches the other. */
  ghost predicate OneLine(commits: set<Commit>, cut: set<Commit>) {
    forall a, b :: a in commits && b in commits ==> a in Ancestors(b, cut) || b in Ancestors(a, cut)
  }

  ghost predicate LineFetch(s: State, f: Fetch, line: set<Commit>, cut: set<Commit>) {
    && f.commit in line
    && (f.phase.Completed? ==> Reaches(s.anchor, f.commit, cut))
    && (f.phase.Swapping? || f.phase.Checking? ==>
          && (f.phase.seen.Some? ==> Reaches(s.anchor, f.phase.seen.value, cut))
          && (f.readAt < s.advances ==> s.anchor != f.phase.seen))
  }

  ghost predicate LineInv(s: State, line: set<Commit>, first: Option<Commit>, cut: set<Commit>) {
    && Inv(s, cut)
    && (s.anchor.Some? ==> s.anchor.value in line)
    && (first.Some? ==> Reaches(s.anchor, first.value, cut))
    && forall i :: 0 <= i < |s.fetches| ==> LineFetch(s, s.fetches[i], line, cut)
  }

  lemma StepKeepsLine(s: State, e: Event, line: set<Commit>, first: Option<Commit>, cut: set<Commit>)
    requires OneLine(line, cut) && LineInv(s, line, first, cut) && Enabled(s, e)
    ensures LineInv(Next(s, e, cut), line, first, cut)
  {
    StepKeepsInv(s, e, cut);
    MovesForward(s, e, cut);
    var t := Next(s, e, cut);
    assert LineFetch(s, s.fetches[e.i], line, cut);
    assert t.anchor.Some? ==> t.anchor.value in Ancestors(t.anchor.value, cut);
    if t.advances != s.advances && s.anchor.Some? {
      assert s.anchor.value in Ancestors(t.anchor.value, cut);
      AncestorsTransitive(t.anchor.value, s.anchor.value, cut);
    }
    forall j | 0 <= j < |t.fetches| ensures LineFetch(t, t.fetches[j], line, cut) {
      assert LineFetch(s, s.fetches[j], line, cut) && FetchInv(s, s.fetches[j], cut);
    }
  }

  lemma {:induction false} RunKeepsLine(s: State, events: seq<Event>, line: set<Commit>, first: Option<Commit>, cut: set<Commit>)
    requires OneLine(line, cut) && LineInv(s, line, first, cut) && IsRun(s, events, cut)
    ensures LineInv(After(s, events, cut), line, first, cut)
    decreases |events|
  {
    if events != [] {
      StepKeepsLine(s, events[0], line, first, cut);
      RunKeepsLine(Next(s, events[0], cut), events[1..], line, first, cut);
    }
  }

  lemma {:induction false} RunKeepsInv(s: State, events: seq<Event>, cut: set<Commit>)
    requires Inv(s, cut) && IsRun(s, events, cut)
    ensures Inv(After(s, events, cut), cut)
    ensures forall i :: 0 <= i < |s.fetches| ==> i < |After(s, events, cut).fetches| && After(s, events, cut).fetches[i].commit == s.fetches[i].commit
    ensures |After(s, events, cut).fetches| == |s.fetches|
    decreases |events|
  {
    if events != [] {
      StepKeepsInv(s, events[0], cut);
      RunKeepsInv(Next(s, events[0], cut), events[1..], cut);
    }
  }

  /** In every run over any commits, a fetch retries at most once per advance of the anchor. */
  lemma RetriesBounded(anchor: Option<Commit>, commits: seq<Commit>, events: seq<Event>, cut: set<Commit>, i: nat)
    requires IsRun(Start(anchor, commits), events, cut) && i < |commits|
    ensures var t := After(Start(anchor, commits), events, cut);
            |t.fetches| == |commits| && t.fetches[i].retries <= t.advances
  {
    RunKeepsInv(Start(anchor, commits), events, cut);
    var t := After(Start(anchor, commits), events, cut);
    assert FetchInv(t, t.fetches[i], cut);
  }

  /** When the fetched commits and the first anchor form one ancestry line, then in every run
      each completed fetch's commit, and the first anchor, stay reachable from the anchor. */
  lemma FetchedStayReachable(anchor: Option<Commit>, commits: seq<Commit>, events: seq<Event>, cut: set<Commit>)
    requires OneLine((set c | c in commits) + if anchor.Some? then {anchor.value} else {}, cut)
    requires IsRun(Start(anchor, commits), events, cut)
    ensures var t := After(Start(anchor, commits), events, cut);
            && |t.fetches| == |commits|
            && (anchor.Some? ==> Reaches(t.anchor, anchor.value, cut))
            && (forall i :: 0 <= i < |commits| && t.fetches[i].phase == Completed ==> Reaches(t.anchor, commits[i], cut))
            && (t.anchor.Some? ==> t.anchor.value in commits || t.anchor == anchor)
  {
    var line := (set c | c in commits) + if anchor.Some? then {anchor.value} else {};
    var s := Start(anchor, commits);
    assert anchor.Some? ==> anchor.value in Ancestors(anchor.value, cut);
    RunKeepsLine(s, events, line, anchor, cut);
    RunKeepsInv(s, events, cut);
    var t := After(s, events, cut);
    forall i | 0 <= i < |commits| && t.fetches[i].phase == Completed ensures Reaches(t.anchor, commits[i], cut) {
      assert LineFetch(t, t.fetches[i], line, cut);
      assert t.fetches[i].commit == s.fetches[i].commit;
    }
  }

  /** On one line, once every fetch has completed the anchor is the newest commit of all. */
  lemma AnchorEndsAtNewest(anchor: Option<Commit>, commits: seq<Commit>, events: seq<Event>, cut: set<Commit>, newest: Commit)
    requires OneLine((set c | c in commits) + if anchor.Some? then {anchor.value} else {}, cut)
    requires IsRun(Start(anchor, commits), events, cut)
    requires newest in commits && (forall c :: c in commits ==> c in Ancestors(newest, cut))
    requires anchor.Some? ==> anchor.value in Ancestors(newest, cut)
    requires forall f :: f in After(Start(anchor, commits), events, cut).fetches ==> f.phase == Completed
    ensures After(Start(anchor, commits), events, cut).anchor == Some(newest)
  {
    FetchedStayReachable(anchor, commits, events, cut);
    var t := After(Start(anchor, commits), events, cut);
    var i :| 0 <= i < |commits| && commits[i] == newest;
    assert t.fetches[i] in t.fetches;
    assert t.anchor.value in Ancestors(newest, cut) && newest in Ancestors(t.anchor.value, cut);
    Antisymmetric(t.anchor.value, newest, cut);
  }

  lemma Antisymmetric(a: Commit, b: Commit, cut: set<Commit>)
    requires a in Ancestors(b, cut) && b in Ancestors(a, cut)
    ensures a == b
  {
    if a != b {
      Below(a, b, cut);
      Acyclic(b, a, cut);
    }
  }

  lemma {:induction false} Below(a: Commit, b: Commit, cut: set<Commit>)
    requires a in Ancestors(b, cut) && a != b
    ensures a < b
    decreases b
  {
    var p :| p in b.parents && a in Ancestors(p, cut);
    if a != p { Below(a, p, cut); }
  }

  /** On one line a fetch fails only when its swap was refused although the anchor stood still since it
      read it. */
  lemma FailsOnlyWhenLocked(anchor: Option<Commit>, commits: seq<Commit>, events: seq<Event>, cut: set<Commit>, e: Event)
    requires OneLine((set c | c in commits) + if anchor.Some? then {anchor.value} else {}, cut)
    requires IsRun(Start(anchor, commits), events, cut) && Enabled(After(Start(anchor, commits), events, cut), e) && e.Check?
    ensures var s := After(Start(anchor, commits), events, cut);
            Next(s, e, cut).fetches[e.i].phase == Failed ==> s.fetches[e.i].readAt == s.advances
  {
    var line := (set c | c in commits) + if anchor.Some? then {anchor.value} else {};
    var s0 := Start(anchor, commits);
    assert anchor.Some? ==> anchor.value in Ancestors(anchor.value, cut);
    RunKeepsLine(s0, events, line, anchor, cut);
    var s := After(s0, events, cut);
    assert LineFetch(s, s.fetches[e.i], line, cut) && FetchInv(s, s.fetches[e.i], cut);
  }

  // ------------------------------------------------------------------ every fetch finishes

  predicate Finished(f: Fetch) {
    f.phase.Completed? || f.phase.Failed?
  }

  /** The commands a fetch can still run when it retries at most `n` times in all. */
  function Commands(f: Fetch, n: nat): int {
    match f.phase
    case Reading => 3 * (n - f.retries) + 3
    case Swapping(_) => 3 * (n - f.retries) + 2
    case Checking(_) => 3 * (n - f.retries) + 1
    case _ => 0
  }

  function CommandsLeft(fetches: seq<Fetch>, n: nat): int {
    if fetches == [] then 0 else CommandsLeft(fetches[..|fetches| - 1], n) + Commands(fetches[|fetches| - 1], n)
  }

  function Unfinished(fetches: seq<Fetch>): nat {
    if fetches == [] then 0 else Unfinished(fetches[..|fetches| - 1]) + if Finished(fetches[|fetches| - 1]) then 0 else 1
  }

  lemma {:induction false} OneMoved(fetches: seq<Fetch>, i: nat, f: Fetch, n: nat)
    requires i < |fetches|
    ensures CommandsLeft(fetches[i := f], n) - Commands(f, n) == CommandsLeft(fetches, n) - Commands(fetches[i], n)
    ensures Unfinished(fetches[i := f]) + (if Finished(fetches[i]) then 0 else 1) == Unfinished(fetches) + if Finished(f) then 0 else 1
  {
    var k := |fetches| - 1;
    if i == k {
      assert fetches[i := f][..k] == fetches[..k];
    } else {
      assert fetches[i := f][..k] == fetches[..k][i := f];
      OneMoved(fetches[..k], i, f, n);
    }
  }

  lemma {:induction false} NoDebt(s: State, fetches: seq<Fetch>, n: nat)
    requires s.advances <= n && forall f :: f in fetches ==> f.retries <= s.advances
    ensures CommandsLeft(fetches, n) >= 0
  {
    if fetches != [] {
      assert fetches[|fetches| - 1] in fetches && forall f :: f in fetches[..|fetches| - 1] ==> f in fetches;
      NoDebt(s, fetches[..|fetches| - 1], n);
    }
  }

  lemma {:induction false} AllStarted(commits: seq<Commit>, n: nat)
    ensures CommandsLeft(Start(None, commits).fetches, n) == |commits| * (3 * n + 3) && Unfinished(Start(None, commits).fetches) == |commits|
  {
    if commits != [] {
      var k := |commits| - 1;
      assert Start(None, commits).fetches[..k] == Start(None, commits[..k]).fetches;
      AllStarted(commits[..k], n);
    }
  }

  lemma CommandRun(s: State, e: Event, cut: set<Commit>, n: nat)
    requires Inv(s, cut) && Enabled(s, e) && s.advances + Unfinished(s.fetches) <= n
    ensures CommandsLeft(Next(s, e, cut).fetches, n) < CommandsLeft(s.fetches, n)
    ensures Next(s, e, cut).advances + Unfinished(Next(s, e, cut).fetches) <= n
  {
    var t := Next(s, e, cut);
    assert FetchInv(s, s.fetches[e.i], cut);
    assert t.fetches == s.fetches[e.i := t.fetches[e.i]];
    OneMoved(s.fetches, e.i, t.fetches[e.i], n);
  }

  lemma {:induction false} RunFinishes(s: State, events: seq<Event>, cut: set<Commit>, n: nat)
    requires Inv(s, cut) && IsRun(s, events, cut) && s.advances + Unfinished(s.fetches) <= n
    ensures |events| <= CommandsLeft(s.fetches, n) && After(s, events, cut).advances <= n
    decreases |events|
  {
    if events == [] {
      forall f | f in s.fetches ensures f.retries <= s.advances {
        var i :| 0 <= i < |s.fetches| && s.fetches[i] == f;
        assert FetchInv(s, s.fetches[i], cut);
      }
      NoDebt(s, s.fetches, n);
    } else {
      StepKeepsInv(s, events[0], cut);
      CommandRun(s, events[0], cut, n);
      RunFinishes(Next(s, events[0], cut), events[1..], cut, n);
    }
  }

  /** Whatever the commits and however the fetches interleave, each finishes: `n` of them run at most
      3n(n + 1) git commands in all and move the anchor at most `n` times, and while one is not finished
      it has a next command. */
  lemma FetchesFinish(anchor: Option<Commit>, commits: seq<Commit>, events: seq<Event>, cut: set<Commit>)
    requires IsRun(Start(anchor, commits), events, cut)
    ensures |events| <= 3 * |commits| * (|commits| + 1)
    ensures var t := After(Start(anchor, commits), events, cut);
            && t.advances <= |commits|
            && forall i :: 0 <= i < |t.fetches| ==> (Finished(t.fetches[i]) <==> forall e: Event :: e.i == i ==> !Enabled(t, e))
  {
    var s, n := Start(anchor, commits), |commits|;
    AllStarted(commits, n);
    RunFinishes(s, events, cut, n);
    assert n * (3 * n + 3) == 3 * n * (n + 1);
    var t := After(s, events, cut);
    forall i | 0 <= i < |t.fetches| && !Finished(t.fetches[i]) ensures exists e: Event :: e.i == i && Enabled(t, e) {
      var e := if t.fetches[i].phase.Reading? then Read(i) else if t.fetches[i].phase.Swapping? then Swap(i, false) else Check(i);
      assert Enabled(t, e);
    }
  }

  lemma RunsTo(s: State, e: Event, events: seq<Event>, cut: set<Commit>)
    requires Enabled(s, e) && IsRun(Next(s, e, cut), events, cut)
    ensures IsRun(s, [e] + events, cut) && After(s, [e] + events, cut) == After(Next(s, e, cut), events, cut)
  {
    assert ([e] + events)[1..] == events;
  }
}
