/** The capture loop itself (`IncrementalGitSnapshots.captureNext` in `git-checkpoint.ts`), proved to be
    a run of the transition system whatever happens at its awaits, and to end as its surroundings have it. */
module SnapshotStream {
  import opened Objects
  import opened SnapshotProtocol

  // ------------------------------------------------------------------ what a capture meets

  /** How a change of the journal row ended; one that failed may have been made. */
  datatype Outcome = Done | Failed(made: bool)

  /** How the push ended; one that was not acknowledged may have been delivered. */
  datatype Delivery = Acknowledged | Lost(delivered: bool)

  /** What came of the commit: accepted and installed, accepted only, or a failure. */
  datatype Verdict = Accepts(accepted: Snapshot) | NotInstalled | Unknown

  /** The awaits of a capture. */
  datatype Point = Loaded | StaleReleased | StaleCleared | Tried(i: nat) | Compared | Forgotten | Saved | Checked | Sent | Dropped | Emptied | Installed

  /** What happens at an await: another base is installed, files are edited, the capture throws or the
      process ends (`stop` says which). */
  datatype Interruption = Interruption(moved: Option<Snapshot>, edited: Option<Inputs>, stop: Option<bool>)

  /** All that one capture meets.  `stable` says of each candidate that no write fell into its capture. */
  datatype Fate = Fate(at: Point -> Interruption, stable: nat -> bool, staleRow: Outcome, equalRow: Outcome, saved: Outcome,
                       rejected: bool, rejectedRow: Outcome, sent: Delivery, verdict: Verdict)

  /** Nothing happens at the awaits. */
  ghost predicate Still(fate: Fate) {
    forall p :: fate.at(p) == Interruption(None, None, None)
  }

  /** Bases may move and files may be edited, but nothing fails once the snapshot is taken. */
  ghost predicate Spared(fate: Fate) {
    && (forall p :: fate.at(p).stop == None)
    && fate.equalRow.Done? && fate.saved.Done? && !fate.rejected && fate.sent.Acknowledged? && fate.verdict.Accepts?
  }

  /** Nothing fails before either, and some candidate is stable. */
  ghost predicate Untroubled(fate: Fate, candidates: nat) {
    Spared(fate) && fate.staleRow.Done? && exists i :: 0 <= i < candidates && fate.stable(i)
  }

  /** The first stable one of the candidates from `i` on, if there is one. */
  function FirstStable(fate: Fate, i: nat, n: nat): (first: nat)
    requires i <= n
    ensures i <= first <= n && (first < n ==> fate.stable(first)) && forall k :: i <= k < first ==> !fate.stable(k)
    decreases n - i
  {
    if i == n || fate.stable(i) then i else FirstStable(fate, i + 1, n)
  }

  // ------------------------------------------------------------------ what it comes to

  /** What the authority's verdict on a delivered snapshot comes to. */
  ghost predicate Judged(before: State, after: State, p: Pending, verdict: Verdict, answer: Option<Snapshot>) {
    && after.unpublished == None && after.remote == before.remote
    && match verdict
       case Accepts(accepted) => answer == after.committed == Some(accepted) && after.row == None && after.pins == Released(before.pins, p.snapshot.ref)
       case NotInstalled => answer == None && after.committed == Some(p.snapshot) && after.row == None
       case Unknown => answer == None && after.committed == before.committed && after.row == before.row
  }

  /** What is left of a snapshot to be published, and where it has arrived. */
  ghost predicate Published(before: State, after: State, p: Pending, taken: bool, fate: Fate, answer: Option<Snapshot>) {
    var sent := before.(remote := before.remote + {p.snapshot}, row := Some(p));
    if fate.saved.Failed? then
      answer == None && after.committed == before.committed && after.remote == before.remote && after.row == if fate.saved.made then Some(p) else before.row
    else if fate.rejected then
      && answer == None && after.committed == before.committed && after.remote == before.remote
      && after.row == (if taken && fate.rejectedRow != Failed(false) then None else Some(p))
      && after.unpublished == (if taken then None else Some(p))
      && (taken && fate.rejectedRow.Done? ==> after.pins == Released(before.pins, p.snapshot.ref))
    else if fate.sent.Lost? then
      && answer == None && after.committed == before.committed && after.row == after.unpublished == Some(p)
      && after.remote == if fate.sent.delivered then sent.remote else before.remote
    else Judged(sent, after, p, fate.verdict, answer)
  }

  /** What becomes of a snapshot: it is found equal to the committed one, or published. */
  ghost predicate Concluded(before: State, after: State, snapshot: Snapshot, captured: Option<Inputs>, taken: bool, fate: Fate,
                            answer: Option<Snapshot>)
  {
    if before.committed.Some? && before.committed.value.content == snapshot.content then
      && after.committed == before.committed && after.remote == before.remote
      && if taken || fate.equalRow.Done? then
           && answer == before.committed && after.row == None && after.unpublished == None
           && after.pins == Released(before.pins, snapshot.ref)
           && after.steady == if captured.Some? then Some(Unchanged(captured.value, before.committed.value.commit)) else before.steady
         else answer == None && after.row == if fate.equalRow.made then None else before.row
    else Published(before, after, Pending(snapshot, BaseOf(before.committed)), taken, fate, answer)
  }

  /** What a capture without a stored snapshot comes to. */
  ghost predicate Taken(before: State, after: State, content: Inputs -> nat, ref: nat, commits: seq<nat>, fate: Fate, answer: Option<Snapshot>) {
    var first := FirstStable(fate, 0, |commits|);
    if commits != [] && Shortcut(before, before.committed) then
      after == before.(phase := Idle, returned := before.committed) && answer == before.committed
    else if first == |commits| then
      answer == None && after.committed == before.committed && after.row == None && after.remote == before.remote
    else Concluded(before, after, Snapshot(content(before.inputs), commits[first], ref), Some(before.inputs), true, fate, answer)
  }

  /** The snapshot the capture loop keeps, when nothing happens at its awaits. */
  ghost predicate KeptFirst(before: State, after: State, content: Inputs -> nat, ref: nat, commits: seq<nat>, fate: Fate,
                            alive: bool, answer: Option<Snapshot>)
  {
    var first := FirstStable(fate, 0, |commits|);
    if commits != [] && Shortcut(before, before.committed) then
      !alive && after == before.(phase := Idle, returned := before.committed) && answer == before.committed
    else if first == |commits| then
      !alive && answer == None && after == before.(phase := Idle, used := after.used, pins := after.pins)
    else
      && alive && answer == None
      && after.phase == Comparing(Snapshot(content(before.inputs), commits[first], ref), before.committed, true, Some(before.inputs))
      && after == before.(phase := after.phase, used := after.used, pins := after.pins)
      && forall c :: c in before.pins + after.pins && c.ref != ref ==> c in before.pins && c in after.pins
  }

  lemma SamePins(before: set<Snapshot>, after: set<Snapshot>, ref: nat)
    requires forall c :: c in before + after && c.ref != ref ==> c in before && c in after
    ensures Released(before, ref) == Released(after, ref)
  {
    forall c ensures c in Released(before, ref) <==> c in Released(after, ref) {
      assert c in before || c in after ==> c in before + after;
    }
  }

  /** The same, dropping a stale snapshot first. */
  ghost predicate TakenAnew(before: State, after: State, content: Inputs -> nat, ref: nat, commits: seq<nat>, fate: Fate, answer: Option<Snapshot>) {
    if !before.phase.ReleasingStale? then Taken(before, after, content, ref, commits, fate, answer)
    else if fate.staleRow.Failed? then
      answer == None && after.committed == before.committed && after.remote == before.remote && after.row == if fate.staleRow.made then None else before.row
    else
      Taken(before.(pins := Released(before.pins, before.phase.stale.snapshot.ref), row := None, unpublished := None), after, content, ref, commits, fate, answer)
  }

  /** What a whole capture comes to when nothing happens at its awaits. */
  ghost predicate CameTo(before: State, after: State, content: Inputs -> nat, ref: nat, commits: seq<nat>, fate: Fate, answer: Option<Snapshot>) {
    var stored := Stored(before);
    if stored.None? then Taken(before, after, content, ref, commits, fate, answer)
    else if stored.value.base == BaseOf(before.committed) then
      Concluded(before, after, stored.value.snapshot, None, false, fate, answer)
    else TakenAnew(before.(phase := ReleasingStale(stored.value, before.committed)), after, content, ref, commits, fate, answer)
  }

  /** The capture loop of one checkout.  `phase` says which await it is at; `trace` records every
      step, the surroundings' included. */
  class IncrementalGitSnapshots {
    const content: Inputs -> nat
    const ref: nat
    var committed: Option<Snapshot>
    var row: Option<Pending>
    var unpublished: Option<Pending>
    var steady: Option<Unchanged>
    var phase: Phase
    var inputs: Inputs
    var remote: set<Snapshot>
    var pins: set<Snapshot>
    var used: set<nat>
    var returned: Option<Snapshot>
    ghost var uncertain: Option<Pending>
    ghost var past: set<Option<nat>>
    ghost var origin: State
    ghost var trace: seq<Event>

    ghost function Contents(): State
      reads this
    {
      State(committed, row, unpublished, steady, phase, inputs, remote, uncertain, pins, used, past, returned)
    }

    ghost predicate Valid()
      reads this
    {
      IsRun(origin, trace, content) && Contents() == After(origin, trace, content) && origin == Initial(origin.committed, origin.inputs)
    }

    constructor (committed: Option<Snapshot>, inputs: Inputs, content: Inputs -> nat, ref: nat)
      ensures Valid() && this.content == content && this.ref == ref && origin == Initial(committed, inputs) && trace == []
      ensures Contents() == origin
    {
      this.content, this.ref, this.committed, this.inputs := content, ref, committed, inputs;
      row, unpublished, steady, phase, returned := None, None, None, Idle, None;
      remote, pins, used := {}, {}, {};
      uncertain, past, trace, origin := None, {}, [], Initial(committed, inputs);
    }

    /** What was just done since `before` is the step `e`. */
    ghost method Step(before: State, e: Event)
      requires IsRun(origin, trace, content) && before == After(origin, trace, content) && origin == Initial(origin.committed, origin.inputs)
      requires Enabled(before, e) && Contents() == Next(before, e, content)
      modifies this`trace
      ensures Valid() && trace == old(trace) + [e]
    {
      RunOne(before, e, content);
      RunAppend(origin, trace, [e], content);
      trace := trace + [e];
    }

    /** Another machine's snapshot is installed. */
    method BaseMoves(moved: Snapshot)
      requires Valid()
      modifies this`committed, this`past, this`uncertain, this`trace
      ensures Valid() && trace == old(trace) + [MoveBase(moved)] && committed == Some(moved)
    {
      ghost var before := Contents();
      Rebase(moved);
      Step(before, MoveBase(moved));
    }

    method FilesChange(edited: Inputs)
      requires Valid()
      modifies this`inputs, this`trace
      ensures Valid() && trace == old(trace) + [Edit(edited)] && inputs == edited
    {
      ghost var before := Contents();
      inputs := edited;
      Step(before, Edit(edited));
    }

    /** The capture throws, or the process ends. */
    method Stops(crash: bool)
      requires Valid() && phase != Idle
      modifies this`unpublished, this`steady, this`phase, this`trace
      ensures Valid()
      ensures Contents() == old(Contents()).(phase := Idle, unpublished := if crash then None else old(unpublished), steady := if crash then None else old(steady))
    {
      ghost var before := Contents();
      phase := Idle;
      if crash { unpublished, steady := None, None; }
      Step(before, if crash then Crash else Throw);
    }

    /** An await: the base may move and files may be edited; then the capture may be gone. */
    method Await(meanwhile: Interruption) returns (alive: bool)
      requires Valid() && phase != Idle
      modifies this
      ensures Valid() && origin == old(origin)
      ensures remote == old(remote) && used == old(used)
      ensures alive <==> meanwhile.stop == None
      ensures committed == if meanwhile.moved.Some? then meanwhile.moved else old(committed)
      ensures inputs == if meanwhile.edited.Some? then meanwhile.edited.value else old(inputs)
      ensures row == old(row) && (alive ==> phase == old(phase) && unpublished == old(unpublished))
      ensures meanwhile == Interruption(None, None, None) ==> Contents() == old(Contents())
      ensures !alive ==> phase == Idle
    {
      if meanwhile.moved.Some? { BaseMoves(meanwhile.moved.value); }
      if meanwhile.edited.Some? { FilesChange(meanwhile.edited.value); }
      alive := meanwhile.stop == None;
      if !alive { Stops(meanwhile.stop.value); }
    }

    /** The committed snapshot becomes `next`. */
    method Rebase(next: Snapshot)
      modifies this`committed, this`past, this`uncertain
      ensures Contents() == Rebased(old(Contents()), next)
    {
      past := if BaseOf(committed) == Some(next.commit) then past else past + {BaseOf(committed)};
      uncertain := if uncertain.Some? && uncertain.value.base == Some(next.commit) then uncertain else None;
      committed := Some(next);
    }

    /** Clears the journal row, or fails to, whether or not it is gone then. */
    method ClearRow(outcome: Outcome) returns (cleared: bool)
      modifies this`row
      ensures cleared == (outcome != Failed(false)) && row == if cleared then None else old(row)
    {
      cleared := outcome.Done? || outcome.made;
      if cleared { row := None; }
    }

    /** One capture, from an idle stream back to an idle stream.  It answers only what its run
        returned last, and writes at most one snapshot: the stored one while its base is the committed
        one, otherwise one it took.  It answers unless something fails, and if nothing happens at its
        awaits it comes to exactly what its fate makes of it.  `commits` are the worktree commits its
        attempts would make. */
    method CaptureNext(commits: seq<nat>, fate: Fate) returns (answer: Option<Snapshot>)
      requires Valid() && phase == Idle && New(commits, used)
      modifies this
      ensures Valid() && origin == old(origin) && phase == Idle
      ensures answer.Some? ==> returned == answer
      ensures forall c :: c in remote - old(remote) ==>
                if old(Stored(Contents())).Some? && old(Stored(Contents())).value.base == BaseOf(old(committed))
                then c == old(Stored(Contents())).value.snapshot else c.ref == ref && c.commit in commits
      ensures answer.Some? || remote != old(remote) ==> fate.at(Loaded).stop == None
      ensures Untroubled(fate, |commits|) ==> answer.Some?
      ensures Still(fate) ==> CameTo(old(Contents()), Contents(), content, ref, commits, fate, answer)
    {
      answer := None;
      LoadStored();
      var alive := Await(fate.at(Loaded));
      if !alive { return; }
      if phase.Comparing? {
        answer := Conclude(fate);
      } else {
        answer := CaptureAnew(commits, fate);
      }
    }

    /** A capture with nothing stored, or only what is dropped first. */
    method CaptureAnew(commits: seq<nat>, fate: Fate) returns (answer: Option<Snapshot>)
      requires Valid() && (phase.ReleasingStale? || phase.Capturing?) && New(commits, used)
      modifies this
      ensures Valid() && origin == old(origin) && phase == Idle
      ensures answer.Some? ==> returned == answer
      ensures forall c :: c in remote - old(remote) ==> c.ref == ref && c.commit in commits
      ensures Untroubled(fate, |commits|) ==> answer.Some?
      ensures Still(fate) && old(phase).seen == old(committed) ==> TakenAnew(old(Contents()), Contents(), content, ref, commits, fate, answer)
    {
      answer := None;
      if phase.ReleasingStale? {
        var alive := DropStale(fate);
        if !alive { return; }
      }
      answer := TakeAndConclude(commits, fate);
    }

    /** Loads the committed snapshot and what is stored, and what there is to do. */
    method LoadStored()
      requires Valid() && phase == Idle
      modifies this`phase, this`trace
      ensures Valid()
      ensures var stored := old(Stored(Contents()));
              phase == if stored.None? then Capturing(committed)
                       else if stored.value.base != BaseOf(committed) then ReleasingStale(stored.value, committed)
                       else Comparing(stored.value.snapshot, committed, false, None)
    {
      ghost var before := Contents();
      var stored := if unpublished.Some? then unpublished else row;
      if stored.None? {
        phase := Capturing(committed);
      } else if stored.value.base != BaseOf(committed) {
        phase := ReleasingStale(stored.value, committed);
      } else {
        phase := Comparing(stored.value.snapshot, committed, false, None);
      }
      Step(before, Start);
    }

    /** Drops a snapshot taken against another base: its pins, then its row. */
    method DropStale(fate: Fate) returns (alive: bool)
      requires Valid() && phase.ReleasingStale?
      modifies this
      ensures Valid() && origin == old(origin) && remote == old(remote) && used == old(used)
      ensures if alive then phase.Capturing? else phase.Idle?
      ensures Still(fate) ==> (alive <==> fate.staleRow.Done?) && committed == old(committed)
      ensures Still(fate) && alive ==>
                Contents() == old(Contents()).(pins := Released(old(pins), old(phase).stale.snapshot.ref), row := None, unpublished := None,
                                               phase := Capturing(old(phase).seen))
      ensures Still(fate) && !alive ==> row == if fate.staleRow.made then None else old(row)
      ensures alive <==> fate.at(StaleReleased).stop == None && fate.at(StaleCleared).stop == None && fate.staleRow.Done?
    {
      ReleaseStalePins();
      alive := Await(fate.at(StaleReleased));
      if !alive { return; }
      ClearStaleRow(fate.staleRow);
      alive := fate.staleRow.Done?;
      if alive { alive := Await(fate.at(StaleCleared)); }
    }

    method ReleaseStalePins()
      requires Valid() && phase.ReleasingStale?
      modifies this`pins, this`phase, this`trace
      ensures Valid() && pins == Released(old(pins), old(phase).stale.snapshot.ref) && phase == ClearingStale(old(phase).stale, old(phase).seen)
    {
      ghost var before := Contents();
      pins, phase := Released(pins, phase.stale.snapshot.ref), ClearingStale(phase.stale, phase.seen);
      Step(before, ReleaseStale);
    }

    method ClearStaleRow(outcome: Outcome)
      requires Valid() && phase.ClearingStale?
      modifies this`row, this`unpublished, this`phase, this`trace
      ensures Valid() && row == if outcome == Failed(false) then old(row) else None
      ensures if outcome.Done? then unpublished == None && phase == Capturing(old(phase).seen) else unpublished == old(unpublished) && phase == Idle
    {
      ghost var before := Contents();
      var cleared := ClearRow(outcome);
      if outcome.Failed? {
        phase := Idle;
        Step(before, ClearFails(cleared));
      } else {
        unpublished, phase := None, Capturing(phase.seen);
        Step(before, ClearStale);
      }
    }

    /** A capture with nothing stored. */
    method TakeAndConclude(commits: seq<nat>, fate: Fate) returns (answer: Option<Snapshot>)
      requires Valid() && phase.Capturing? && New(commits, used)
      modifies this
      ensures Valid() && origin == old(origin) && phase == Idle
      ensures answer.Some? ==> returned == answer
      ensures forall c :: c in remote - old(remote) ==> c.ref == ref && c.commit in commits
      ensures Untroubled(fate, |commits|) ==> answer.Some?
      ensures Still(fate) && old(phase).seen == old(committed) ==> Taken(old(Contents()), Contents(), content, ref, commits, fate, answer)
    {
      NothingStored();
      ghost var before := Contents();
      var alive;
      alive, answer := TakeSnapshot(commits, fate);
      if !alive { return; }
      ghost var taken := Contents();
      answer := Conclude(fate);
      if Still(fate) && before.phase.seen == before.committed {
        SamePins(before.pins, taken.pins, ref);
        assert Concluded(before, Contents(), taken.phase.snapshot, Some(before.inputs), true, fate, answer);
      }
    }

    /** The capture loop: answers early from an unchanged stamp, discards a candidate captured across a
        write and tries again, or keeps one. */
    method TakeSnapshot(commits: seq<nat>, fate: Fate) returns (alive: bool, answer: Option<Snapshot>)
      requires Valid() && phase.Capturing? && New(commits, used)
      modifies this
      ensures Valid() && origin == old(origin) && remote == old(remote)
      ensures if alive then phase.Comparing? && phase.snapshot.ref == ref && phase.snapshot.commit in commits else phase.Idle?
      ensures answer.Some? ==> !alive && returned == answer
      ensures Untroubled(fate, |commits|) ==> alive || answer.Some?
      ensures Still(fate) && old(phase).seen == old(committed) ==> KeptFirst(old(Contents()), Contents(), content, ref, commits, fate, alive, answer)
    {
      answer := None;
      ghost var before := Contents();
      var i := 0;
      while i < |commits|
        invariant i <= |commits| && Valid() && origin == old(origin) && remote == old(remote) && phase.Capturing?
        invariant New(commits[i..], used)
        invariant forall k :: 0 <= k < i ==> !fate.stable(k)
        invariant i == 0 ==> Contents() == before
        invariant Still(fate) ==> Contents() == before.(used := used, pins := pins) && (forall c :: c in pins <==> c in before.pins && (i == 0 || c.ref != ref))
        invariant Still(fate) && 0 < i && before.phase.seen == before.committed ==> !Shortcut(before, before.committed)
      {
        if phase.seen.Some? && steady == Some(Unchanged(inputs, phase.seen.value.commit)) {
          answer := AnswerEarly();
          return false, answer;
        }
        NewRest(commits, i, used);
        alive := TryCapture(commits[i], fate.stable(i), fate.at(Tried(i)));
        if !alive || phase.Comparing? { return; }
        i := i + 1;
      }
      Stops(false);
      alive := false;
    }

    method AnswerEarly() returns (answer: Option<Snapshot>)
      requires Valid() && phase.Capturing? && Shortcut(Contents(), phase.seen)
      modifies this`returned, this`phase, this`trace
      ensures Valid() && answer == old(phase).seen && Contents() == old(Contents()).(phase := Idle, returned := answer)
    {
      ghost var before := Contents();
      returned, phase := phase.seen, Idle;
      Step(before, AnswerUnchanged);
      answer := returned;
    }

    /** One candidate, kept if no write fell into its capture. */
    method TryCapture(commit: nat, stable: bool, meanwhile: Interruption) returns (alive: bool)
      requires Valid() && phase.Capturing? && !Shortcut(Contents(), phase.seen) && commit !in used
      modifies this
      ensures Valid() && origin == old(origin) && remote == old(remote) && used == old(used) + {commit}
      ensures alive <==> meanwhile.stop == None
      ensures !alive ==> phase.Idle?
      ensures alive ==> phase == (if stable then Comparing(Snapshot(content(old(inputs)), commit, ref), old(phase).seen, true, Some(old(inputs))) else old(phase))
      ensures meanwhile == Interruption(None, None, None) ==>
                Contents() == old(Contents()).(phase := phase, used := used,
                                               pins := if stable then old(pins) + {phase.snapshot} else Released(old(pins), ref))
    {
      ghost var before := Contents();
      used := used + {commit};
      if stable {
        var snapshot := Snapshot(content(inputs), commit, ref);
        pins, phase := pins + {snapshot}, Comparing(snapshot, phase.seen, true, Some(inputs));
        Step(before, Capture(commit, ref));
      } else {
        pins := Released(pins, ref);
        Step(before, Discard(commit, ref));
      }
      alive := Await(meanwhile);
    }

    lemma NothingStored()
      requires Valid() && (phase.Capturing? || (phase.Comparing? && phase.taken))
      ensures row == None && unpublished == None
    {
      RunKeepsInv(origin, trace, content);
    }

    /** What is done with the snapshot taken or taken up again. */
    method Conclude(fate: Fate) returns (answer: Option<Snapshot>)
      requires Valid() && phase.Comparing?
      modifies this
      ensures Valid() && origin == old(origin) && phase == Idle
      ensures answer.Some? ==> returned == answer
      ensures remote <= old(remote) + {old(phase).snapshot}
      ensures answer.Some? || remote != old(remote) ==> fate.at(Compared).stop == None
      ensures Spared(fate) ==> answer.Some?
      ensures Still(fate) && old(phase).seen == old(committed) ==>
                Concluded(old(Contents()), Contents(), old(phase).snapshot, old(phase).captured, old(phase).taken, fate, answer)
    {
      answer := None;
      if phase.taken { NothingStored(); }
      CompareSnapshots();
      var alive := Await(fate.at(Compared));
      if !alive { return; }
      if phase.ClearingEqual? {
        answer := AnswerEqual(fate);
      } else {
        answer := PublishPending(fate);
      }
    }

    /** Whether the snapshot is the committed one; otherwise it is to be published against the base it was
        taken against. */
    method CompareSnapshots()
      requires Valid() && phase.Comparing?
      modifies this`unpublished, this`phase, this`trace
      ensures Valid()
      ensures var p := old(phase);
              if p.seen.Some? && p.seen.value.content == p.snapshot.content then
                phase == ClearingEqual(p.snapshot, p.seen.value, p.taken, p.captured) && unpublished == old(unpublished)
              else unpublished == Some(Pending(p.snapshot, BaseOf(p.seen))) && phase == Saving(unpublished.value, p.taken)
    {
      ghost var before := Contents();
      if phase.seen.Some? && phase.seen.value.content == phase.snapshot.content {
        phase := ClearingEqual(phase.snapshot, phase.seen.value, phase.taken, phase.captured);
      } else {
        unpublished := Some(Pending(phase.snapshot, BaseOf(phase.seen)));
        phase := Saving(unpublished.value, phase.taken);
      }
      Step(before, Compare);
    }

    /** The committed snapshot is the same: a stored one is dropped, the stamp remembered, the pins
        released. */
    method AnswerEqual(fate: Fate) returns (answer: Option<Snapshot>)
      requires Valid() && phase.ClearingEqual?
      modifies this
      ensures Valid() && origin == old(origin) && phase == Idle && remote == old(remote)
      ensures answer.Some? ==> returned == answer
      ensures Spared(fate) ==> answer.Some?
      ensures Still(fate) ==> committed == old(committed)
      ensures Still(fate) ==>
                if old(phase).taken || fate.equalRow.Done? then
                  && answer == Some(old(phase).same)
                  && (if old(phase).taken then row == old(row) && unpublished == old(unpublished) else row == None && unpublished == None)
                  && pins == Released(old(pins), old(phase).snapshot.ref)
                  && steady == if old(phase).captured.Some? then Some(Unchanged(old(phase).captured.value, old(phase).same.commit)) else old(steady)
                else answer == None && row == if fate.equalRow.made then None else old(row)
    {
      answer := None;
      var alive := ForgetStored(fate);
      if !alive { return; }
      ghost var before := Contents();
      pins, returned, phase := Released(pins, phase.snapshot.ref), Some(phase.same), Idle;
      Step(before, ReleaseEqual);
      answer := returned;
    }

    method ForgetStored(fate: Fate) returns (alive: bool)
      requires Valid() && phase.ClearingEqual?
      modifies this
      ensures Valid() && origin == old(origin) && remote == old(remote)
      ensures if alive then phase == ReleasingEqual(old(phase).snapshot, old(phase).same) else phase.Idle?
      ensures alive <==> (old(phase).taken || fate.equalRow.Done?) && fate.at(Forgotten).stop == None
      ensures Still(fate) ==> committed == old(committed)
      ensures Still(fate) && alive ==>
                && pins == old(pins)
                && (if old(phase).taken then row == old(row) && unpublished == old(unpublished) else row == None && unpublished == None)
                && steady == if old(phase).captured.Some? then Some(Unchanged(old(phase).captured.value, old(phase).same.commit)) else old(steady)
      ensures Still(fate) && !alive ==> row == if fate.equalRow.made then None else old(row)
    {
      alive := phase.taken || fate.equalRow.Done?;
      if !alive {
        FailForgetting(fate.equalRow.made);
        return;
      }
      RememberEqual();
      alive := Await(fate.at(Forgotten));
    }

    method FailForgetting(made: bool)
      requires Valid() && phase.ClearingEqual? && !phase.taken
      modifies this`unpublished, this`row, this`uncertain, this`phase, this`trace
      ensures Valid() && phase == Idle && row == if made then None else old(row)
    {
      ghost var before := Contents();
      unpublished := None;
      var cleared := ClearRow(Failed(made));
      if cleared { uncertain := None; }
      phase := Idle;
      Step(before, ClearFails(cleared));
    }

    method RememberEqual()
      requires Valid() && phase.ClearingEqual?
      modifies this`unpublished, this`row, this`uncertain, this`steady, this`phase, this`trace
      ensures Valid() && phase == ReleasingEqual(old(phase).snapshot, old(phase).same)
      ensures if old(phase).taken then row == old(row) && unpublished == old(unpublished) else row == None && unpublished == None
      ensures steady == if old(phase).captured.Some? then Some(Unchanged(old(phase).captured.value, old(phase).same.commit)) else old(steady)
    {
      ghost var before := Contents();
      if !phase.taken {
        unpublished := None;
        var cleared := ClearRow(Done);
        uncertain := None;
      }
      if phase.captured.Some? { steady := Some(Unchanged(phase.captured.value, phase.same.commit)); }
      phase := ReleasingEqual(phase.snapshot, phase.same);
      Step(before, ClearEqual);
    }

    /** From a pending snapshot to the journal, the remote and the authority. */
    method PublishPending(fate: Fate) returns (answer: Option<Snapshot>)
      requires Valid() && phase.Saving?
      modifies this
      ensures Valid() && origin == old(origin) && phase == Idle
      ensures answer.Some? ==> returned == answer && remote == old(remote) + {old(phase).pending.snapshot}
      ensures remote <= old(remote) + {old(phase).pending.snapshot}
      ensures answer.Some? || remote != old(remote) ==> fate.at(Saved).stop == None && fate.at(Checked).stop == None
      ensures Spared(fate) ==> answer.Some?
      ensures Still(fate) && old(unpublished) == Some(old(phase).pending) ==>
                Published(old(Contents()), Contents(), old(phase).pending, old(phase).taken, fate, answer)
    {
      answer := None;
      SaveRow(fate.saved);
      if fate.saved.Failed? { return; }
      var alive := Await(fate.at(Saved));
      if !alive { return; }
      if fate.rejected {
        DropRejected(fate);
        return;
      }
      PassPreflight();
      alive := Await(fate.at(Checked));
      if alive { answer := WritePending(fate); }
    }

    method SaveRow(outcome: Outcome)
      requires Valid() && phase.Saving?
      modifies this`row, this`phase, this`trace
      ensures Valid() && row == if outcome == Failed(false) then old(row) else Some(old(phase).pending)
      ensures phase == if outcome.Done? then Checking(old(phase).pending, old(phase).taken) else Idle
    {
      ghost var before := Contents();
      if outcome != Failed(false) { row := Some(phase.pending); }
      phase := if outcome.Done? then Checking(phase.pending, phase.taken) else Idle;
      Step(before, if outcome.Done? then Save else SaveFails(outcome.made));
    }

    method PassPreflight()
      requires Valid() && phase.Checking?
      modifies this`phase, this`trace
      ensures Valid() && phase == Writing(old(phase).pending)
    {
      ghost var before := Contents();
      phase := Writing(phase.pending);
      Step(before, Preflight);
    }

    /** The push, which may deliver the snapshot without acknowledging it. */
    method WritePending(fate: Fate) returns (answer: Option<Snapshot>)
      requires Valid() && phase.Writing?
      modifies this
      ensures Valid() && origin == old(origin) && phase == Idle
      ensures answer.Some? ==> returned == answer && remote == old(remote) + {old(phase).pending.snapshot}
      ensures remote == if fate.sent == Lost(false) then old(remote) else old(remote) + {old(phase).pending.snapshot}
      // What stops after the push does not commit.
      ensures fate.sent.Lost? || fate.at(Sent).stop.Some? ==> answer == None && row == old(row)
      ensures Spared(fate) ==> answer.Some?
      ensures Still(fate) && fate.sent.Lost? ==> answer == None && committed == old(committed) && row == old(row) && unpublished == old(unpublished)
      ensures Still(fate) && fate.sent.Acknowledged? ==> Judged(old(Contents()).(remote := remote), Contents(), old(phase).pending, fate.verdict, answer)
    {
      answer := None;
      if fate.sent == Lost(false) {
        Stops(false);
        return;
      }
      Push(fate.sent.Acknowledged?);
      if !fate.sent.Acknowledged? { return; }
      var alive := Await(fate.at(Sent));
      if alive { answer := CommitPending(fate); }
    }

    method Push(acknowledged: bool)
      requires Valid() && phase.Writing?
      modifies this`remote, this`uncertain, this`phase, this`trace
      ensures Valid() && remote == old(remote) + {old(phase).pending.snapshot}
      ensures phase == if acknowledged then Committing(old(phase).pending) else Idle
    {
      ghost var before := Contents();
      remote := remote + {phase.pending.snapshot};
      if phase.pending.base == BaseOf(committed) { uncertain := Some(phase.pending); }
      phase := if acknowledged then Committing(phase.pending) else Idle;
      Step(before, Write(acknowledged));
    }

    /** A rejection before any remote write drops only a snapshot this capture took. */
    method DropRejected(fate: Fate)
      requires Valid() && phase.Checking?
      modifies this
      ensures Valid() && origin == old(origin) && phase == Idle && remote == old(remote)
      ensures Still(fate) ==> committed == old(committed)
      ensures Still(fate) ==> row == if old(phase).taken && fate.rejectedRow != Failed(false) then None else old(row)
      ensures Still(fate) ==> unpublished == if old(phase).taken then None else old(unpublished)
      ensures Still(fate) && old(phase).taken && fate.rejectedRow.Done? ==> pins == Released(old(pins), old(phase).pending.snapshot.ref)
    {
      ghost var before := Contents();
      if phase.taken {
        unpublished, phase := None, ClearingRejected(phase.pending);
        Step(before, Reject);
        var alive := Await(fate.at(Dropped));
        if alive { ForgetRejected(fate); }
      } else {
        phase := Idle;
        Step(before, Reject);
      }
    }

    method ForgetRejected(fate: Fate)
      requires Valid() && phase.ClearingRejected?
      modifies this
      ensures Valid() && origin == old(origin) && phase == Idle && remote == old(remote)
      ensures Still(fate) ==> committed == old(committed) && unpublished == old(unpublished)
      ensures Still(fate) ==> row == if fate.rejectedRow == Failed(false) then old(row) else None
      ensures Still(fate) && fate.rejectedRow.Done? ==> pins == Released(old(pins), old(phase).pending.snapshot.ref)
    {
      ClearRejectedRow(fate.rejectedRow);
      if fate.rejectedRow.Failed? { return; }
      var alive := Await(fate.at(Emptied));
      if alive { ReleaseRejectedPins(); }
    }

    method ClearRejectedRow(outcome: Outcome)
      requires Valid() && phase.ClearingRejected?
      modifies this`row, this`phase, this`trace
      ensures Valid() && row == if outcome == Failed(false) then old(row) else None
      ensures phase == if outcome.Done? then ReleasingRejected(old(phase).pending) else Idle
    {
      ghost var before := Contents();
      var cleared := ClearRow(outcome);
      phase := if outcome.Done? then ReleasingRejected(phase.pending) else Idle;
      Step(before, if outcome.Done? then ClearRejected else ClearFails(cleared));
    }

    method ReleaseRejectedPins()
      requires Valid() && phase.ReleasingRejected?
      modifies this`pins, this`phase, this`trace
      ensures Valid() && pins == Released(old(pins), old(phase).pending.snapshot.ref) && phase == Idle
    {
      ghost var before := Contents();
      pins, phase := Released(pins, phase.pending.snapshot.ref), Idle;
      Step(before, ReleaseRejected);
    }

    /** The authority fails with its outcome unknown, accepts what is then not installed, or accepts. */
    method CommitPending(fate: Fate) returns (answer: Option<Snapshot>)
      requires Valid() && phase.Committing?
      modifies this
      ensures Valid() && origin == old(origin) && phase == Idle && remote == old(remote)
      ensures answer.Some? ==> returned == answer
      ensures Spared(fate) ==> answer.Some?
      ensures Still(fate) ==> Judged(old(Contents()), Contents(), old(phase).pending, fate.verdict, answer)
    {
      answer := None;
      match fate.verdict
      case Unknown => FailCommit();
      case Accepts(accepted) => answer := AnswerAccepted(accepted, fate.at(Installed));
      case NotInstalled => KeepUploaded();
    }

    method FailCommit()
      requires Valid() && phase.Committing?
      modifies this`unpublished, this`phase, this`trace
      ensures Valid() && unpublished == None && phase == Idle
    {
      ghost var before := Contents();
      unpublished, phase := None, Idle;
      Step(before, CommitFails);
    }

    /** What was accepted could not be installed: the base is what was uploaded. */
    method KeepUploaded()
      requires Valid() && phase.Committing?
      modifies this
      ensures Valid() && origin == old(origin) && committed == Some(old(phase).pending.snapshot)
      ensures row == None && unpublished == None && phase == Idle && remote == old(remote)
    {
      ghost var before := Contents();
      Rebase(phase.pending.snapshot);
      row, unpublished, uncertain, phase := None, None, None, Idle;
      Step(before, AcceptNotInstalled);
    }

    method AnswerAccepted(accepted: Snapshot, meanwhile: Interruption) returns (answer: Option<Snapshot>)
      requires Valid() && phase.Committing?
      modifies this
      ensures Valid() && origin == old(origin) && phase == Idle && remote == old(remote)
      ensures answer == if meanwhile.stop == None then Some(accepted) else None
      ensures answer.Some? ==> returned == answer
      ensures meanwhile == Interruption(None, None, None) ==> Judged(old(Contents()), Contents(), old(phase).pending, Accepts(accepted), answer)
    {
      answer := None;
      Install(accepted);
      var alive := Await(meanwhile);
      if alive { answer := ReleaseInstalled(); }
    }

    method Install(accepted: Snapshot)
      requires Valid() && phase.Committing?
      modifies this
      ensures Valid() && origin == old(origin) && committed == Some(accepted)
      ensures row == None && unpublished == None && phase == ReleasingAccepted(old(phase).pending, accepted)
      ensures remote == old(remote) && pins == old(pins)
    {
      ghost var before := Contents();
      Rebase(accepted);
      row, unpublished, uncertain, phase := None, None, None, ReleasingAccepted(phase.pending, accepted);
      Step(before, Accept(accepted));
    }

    method ReleaseInstalled() returns (answer: Option<Snapshot>)
      requires Valid() && phase.ReleasingAccepted?
      modifies this`pins, this`returned, this`phase, this`trace
      ensures Valid() && phase == Idle && answer == returned == Some(old(phase).accepted)
      ensures pins == Released(old(pins), old(phase).pending.snapshot.ref)
    {
      ghost var before := Contents();
      pins, returned, phase := Released(pins, phase.pending.snapshot.ref), Some(phase.accepted), Idle;
      Step(before, ReleaseAccepted);
      answer := returned;
    }
  }

  /** Commits no capture has made. */
  ghost predicate New(commits: seq<nat>, used: set<nat>) {
    && (forall c :: c in commits ==> c !in used)
    && forall i, j :: 0 <= i < j < |commits| ==> commits[i] != commits[j]
  }

  lemma NewRest(commits: seq<nat>, i: nat, used: set<nat>)
    requires i < |commits| && New(commits[i..], used)
    ensures commits[i] !in used && commits[i] in commits && New(commits[i + 1..], used + {commits[i]})
  {
    var rest := commits[i..];
    assert rest[0] == commits[i] && rest[1..] == commits[i + 1..];
    forall c | c in rest[1..] ensures c != commits[i] && c in rest {
      var k :| 0 <= k < |rest| - 1 && rest[1..][k] == c;
      assert rest[k + 1] == c;
    }
  }
}
