/** When a capture has nothing to do: quiescence, and answering from an unchanged stamp
    (`IncrementalGitSnapshots` in `git-checkpoint.ts`). */
module SnapshotShortcut {
  import opened Objects
  import opened SnapshotProtocol

  // ------------------------------------------------------------------ quiescence

  /** Nothing is pending and the checkout is what is committed. */
  ghost predicate Quiet(s: State, content: Inputs -> nat, committed: Snapshot) {
    && s.committed == Some(committed) && content(s.inputs) == committed.content
    && s.row == None && s.unpublished == None
    && match s.phase
       case Idle => true
       case Capturing(seen) => seen == Some(committed)
       case Comparing(snapshot, seen, taken, _) => snapshot.content == committed.content && seen == Some(committed) && taken
       case ClearingEqual(_, same, taken, _) => same == committed && taken
       case ReleasingEqual(_, same) => same == committed
       case _ => false
  }

  /** Once the checkout stops changing and matches what is committed, every later capture answers
      the committed snapshot, and nothing is written or committed, whatever fails. */
  lemma {:induction false} QuietForever(s: State, events: seq<Event>, content: Inputs -> nat, committed: Snapshot)
    requires Quiet(s, content, committed) && IsRun(s, events, content)
    requires forall e :: e in events ==> !e.MoveBase? && !e.Edit?
    ensures var t := After(s, events, content);
            Quiet(t, content, committed) && t.remote == s.remote && (t.returned == s.returned || t.returned == Some(committed))
    decreases |events|
  {
    if events != [] {
      assert events[0] in events;
      QuietForever(Next(s, events[0], content), events[1..], content, committed);
    }
  }

  /** Once a capture has found the checkout equal, no later one takes a snapshot, pins or writes anything:
      each answers from the unchanged stamp, until an edit, another base or a crash. */
  lemma {:induction false} QuietTakesNothing(s: State, events: seq<Event>, content: Inputs -> nat, committed: Snapshot)
    requires Quiet(s, content, committed) && (s.phase.Idle? || s.phase.Capturing?) && s.steady == Some(Unchanged(s.inputs, committed.commit))
    requires IsRun(s, events, content) && forall e :: e in events ==> !e.MoveBase? && !e.Edit? && !e.Crash?
    ensures var t := After(s, events, content);
            && t == s.(phase := t.phase, returned := t.returned) && (t.phase.Idle? || t.phase.Capturing?)
            && (t.returned == s.returned || t.returned == Some(committed))
    decreases |events|
  {
    if events != [] {
      assert events[0] in events;
      QuietTakesNothing(Next(s, events[0], content), events[1..], content, committed);
    }
  }

  /** A run becomes quiet when the cloud accepts a snapshot equal to the checkout. */
  lemma AcceptedEqualIsQuiet(s: State, accepted: Snapshot, content: Inputs -> nat)
    requires Inv(s) && Enabled(s, Accept(accepted)) && content(s.inputs) == accepted.content
    ensures Quiet(Next(Next(s, Accept(accepted), content), ReleaseAccepted, content), content, accepted)
  {
  }

  // ------------------------------------------------------------------ the stamp shortcut

  /** A step commits only snapshots of `committable`. */
  ghost predicate Commits(s: State, e: Event, committable: iset<Snapshot>) {
    match e
    case MoveBase(moved) => moved in committable
    case Accept(accepted) => accepted in committable
    case AcceptNotInstalled => s.phase.Committing? ==> s.phase.pending.snapshot in committable
    case _ => true
  }

  /** The committed snapshot a capture loaded, while its answer may still be that one. */
  function Loaded(phase: Phase): Option<Snapshot> {
    match phase
    case ReleasingStale(_, seen) => seen
    case ClearingStale(_, seen) => seen
    case Capturing(seen) => seen
    case Comparing(_, seen, _, _) => seen
    case ClearingEqual(_, same, _, _) => Some(same)
    case _ => None
  }

  /** The remembered inputs were those of a committable snapshot with the remembered commit. */
  ghost predicate Remembers(steady: Unchanged, content: Inputs -> nat, committable: iset<Snapshot>) {
    exists c :: c in committable && c.commit == steady.commit && c.content == content(steady.inputs)
  }

  ghost predicate ShortcutInv(s: State, content: Inputs -> nat, committable: iset<Snapshot>) {
    && (s.committed.Some? ==> s.committed.value in committable)
    && (Loaded(s.phase).Some? ==> Loaded(s.phase).value in committable)
    && (s.steady.Some? ==> Remembers(s.steady.value, content, committable))
    && (s.phase.Comparing? && s.phase.captured.Some? ==> s.phase.snapshot.content == content(s.phase.captured.value))
    && (s.phase.ClearingEqual? && s.phase.captured.Some? ==> s.phase.same.content == content(s.phase.captured.value))
  }

  lemma StepKeepsShortcut(s: State, e: Event, content: Inputs -> nat, committable: iset<Snapshot>)
    requires ShortcutInv(s, content, committable) && Enabled(s, e) && Commits(s, e, committable)
    ensures ShortcutInv(Next(s, e, content), content, committable)
  {
    if e.ClearEqual? && s.phase.captured.Some? {
      assert s.phase.same in committable;
      assert Remembers(Unchanged(s.phase.captured.value, s.phase.same.commit), content, committable);
    }
  }

  ghost predicate AlwaysCommits(s: State, events: seq<Event>, content: Inputs -> nat, committable: iset<Snapshot>)
    requires IsRun(s, events, content)
    decreases |events|
  {
    events != [] ==> Commits(s, events[0], committable) && AlwaysCommits(Next(s, events[0], content), events[1..], content, committable)
  }

  lemma {:induction false} RunKeepsShortcut(s: State, events: seq<Event>, content: Inputs -> nat, committable: iset<Snapshot>)
    requires ShortcutInv(s, content, committable) && IsRun(s, events, content) && AlwaysCommits(s, events, content, committable)
    ensures ShortcutInv(After(s, events, content), content, committable)
    decreases |events|
  {
    if events != [] {
      StepKeepsShortcut(s, events[0], content, committable);
      RunKeepsShortcut(Next(s, events[0], content), events[1..], content, committable);
    }
  }

  /** A run from the start that commits only snapshots of `committable`. */
  ghost predicate Committing(committed: Option<Snapshot>, inputs: Inputs, events: seq<Event>, content: Inputs -> nat, committable: iset<Snapshot>) {
    && (committed.Some? ==> committed.value in committable)
    && IsRun(Initial(committed, inputs), events, content)
    && AlwaysCommits(Initial(committed, inputs), events, content, committable)
  }

  /** Skipping the capture gives what making it would: the same answer, and the same stamp for the
      next one. */
  ghost predicate SameAsCapturing(s: State, content: Inputs -> nat, commit: nat, ref: nat)
    requires Enabled(s, AnswerUnchanged) && commit !in s.used
  {
    var skipped := s.(steady := None);
    var compared := Next(Next(skipped, Capture(commit, ref), content), Compare, content);
    && compared.phase.ClearingEqual?
    && var captured := Next(Next(compared, ClearEqual, content), ReleaseEqual, content);
       captured.returned == Next(s, AnswerUnchanged, content).returned && captured.steady == s.steady
  }

  /** In every such run, every early answer is what capturing would have answered. */
  ghost predicate EarlyAnswersSound(committable: iset<Snapshot>) {
    forall committed: Option<Snapshot>, inputs: Inputs, events: seq<Event>, content: Inputs -> nat ::
      Committing(committed, inputs, events, content, committable) ==>
        SoundAt(After(Initial(committed, inputs), events, content), content)
  }

  ghost predicate SoundAt(s: State, content: Inputs -> nat) {
    Enabled(s, AnswerUnchanged) ==> forall commit: nat, ref: nat :: commit !in s.used ==> SameAsCapturing(s, content, commit, ref)
  }

  /** The worktree commit of a committable snapshot determines its content. */
  ghost predicate Determined(committable: iset<Snapshot>) {
    forall x, y :: x in committable && y in committable && x.commit == y.commit ==> x.content == y.content
  }

  /** The shortcut is sound if and only if equal worktree commits mean equal content. */
  lemma ShortcutIsSound(committable: iset<Snapshot>)
    ensures EarlyAnswersSound(committable) <==> Determined(committable)
  {
    if Determined(committable) {
      forall committed: Option<Snapshot>, inputs: Inputs, events: seq<Event>, content: Inputs -> nat |
        Committing(committed, inputs, events, content, committable)
        ensures SoundAt(After(Initial(committed, inputs), events, content), content)
      {
        RunKeepsShortcut(Initial(committed, inputs), events, content, committable);
        RememberedIsSound(After(Initial(committed, inputs), events, content), content, committable);
      }
    } else {
      var x, y :| x in committable && y in committable && x.commit == y.commit && x.content != y.content;
      var content: Inputs -> nat := _ => x.content;
      var commit: nat := 0;
      var events := SameCommitOtherContent(x, y, 0, content, commit, 0, committable);
      var s := After(Initial(Some(x), 0), events, content);
      assert Committing(Some(x), 0, events, content, committable);
      assert !SameAsCapturing(s, content, commit + 1, 0);
      assert commit + 1 !in s.used;
      assert !SoundAt(s, content);
    }
  }

  lemma RememberedIsSound(s: State, content: Inputs -> nat, committable: iset<Snapshot>)
    requires ShortcutInv(s, content, committable) && Determined(committable)
    ensures SoundAt(s, content)
  {
    if Enabled(s, AnswerUnchanged) {
      var c :| c in committable && c.commit == s.steady.value.commit && c.content == content(s.steady.value.inputs);
      assert c.content == s.phase.seen.value.content;
    }
  }

  /** A run answered wrongly: the checkout is found equal to `x`, then `y` is committed, with the same
      worktree commit and another content, and the next capture answers `y` early, where a capture
      would publish. */
  lemma SameCommitOtherContent(x: Snapshot, y: Snapshot, inputs: Inputs, content: Inputs -> nat, commit: nat, ref: nat, committable: iset<Snapshot>)
    returns (events: seq<Event>)
    requires x.commit == y.commit && x.content != y.content && content(inputs) == x.content
    requires x in committable && y in committable
    ensures IsRun(Initial(Some(x), inputs), events, content) && AlwaysCommits(Initial(Some(x), inputs), events, content, committable)
    ensures var s := After(Initial(Some(x), inputs), events, content);
            && s.used == {commit} && Enabled(s, AnswerUnchanged) && Next(s, AnswerUnchanged, content).returned == Some(y)
            && forall other: nat, otherRef: nat :: other !in s.used ==>
                 Next(Next(s.(steady := None), Capture(other, otherRef), content), Compare, content).phase.Saving?
  {
    var s0 := Initial(Some(x), inputs);
    var s1 := Next(s0, Start, content);
    var s2 := Next(s1, Capture(commit, ref), content);
    var s3 := Next(s2, Compare, content);
    var s4 := Next(s3, ClearEqual, content);
    var s5 := Next(s4, ReleaseEqual, content);
    var s6 := Next(s5, MoveBase(y), content);
    events := [];
    CommitsTo(s6, Start, events, content, committable); events := [Start] + events;
    CommitsTo(s5, MoveBase(y), events, content, committable); events := [MoveBase(y)] + events;
    CommitsTo(s4, ReleaseEqual, events, content, committable); events := [ReleaseEqual] + events;
    CommitsTo(s3, ClearEqual, events, content, committable); events := [ClearEqual] + events;
    CommitsTo(s2, Compare, events, content, committable); events := [Compare] + events;
    CommitsTo(s1, Capture(commit, ref), events, content, committable); events := [Capture(commit, ref)] + events;
    CommitsTo(s0, Start, events, content, committable); events := [Start] + events;
  }

  lemma CommitsTo(s: State, e: Event, events: seq<Event>, content: Inputs -> nat, committable: iset<Snapshot>)
    requires Enabled(s, e) && IsRun(Next(s, e, content), events, content)
    requires Commits(s, e, committable) && AlwaysCommits(Next(s, e, content), events, content, committable)
    ensures IsRun(s, [e] + events, content) && AlwaysCommits(s, [e] + events, content, committable)
    ensures After(s, [e] + events, content) == After(Next(s, e, content), events, content)
  {
    assert ([e] + events)[1..] == events;
  }
}
