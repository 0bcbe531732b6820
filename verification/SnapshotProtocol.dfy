/** The publication protocol of `IncrementalGitSnapshots` (`git-checkpoint.ts`): a journal row that
    survives crashes, a field that does not, and a remote that may or may not have received a write.
    Every await is a boundary between two steps. */
module SnapshotProtocol {
  import opened Objects

  /** Everything a capture reads, as one value. */
  type Inputs = nat

  /** A snapshot: what equality compares (HEAD, branch, trees and LFS objects), its worktree commit,
      which no other capture makes, since its message carries the revision, and its publication ref,
      which all snapshots of a stream share. */
  datatype Snapshot = Snapshot(content: nat, commit: nat, ref: nat)

  /** A snapshot and the committed worktree it was taken against. */
  datatype Pending = Pending(snapshot: Snapshot, base: Option<nat>)

  datatype Unchanged = Unchanged(inputs: Inputs, commit: nat)

  /** How far a capture is.  `seen` is the committed snapshot it loaded, `taken` that it took the
      snapshot itself. */
  datatype Phase =
    | Idle
    | ReleasingStale(stale: Pending, seen: Option<Snapshot>)
    | ClearingStale(stale: Pending, seen: Option<Snapshot>)
    | Capturing(seen: Option<Snapshot>)
    | Comparing(snapshot: Snapshot, seen: Option<Snapshot>, taken: bool, captured: Option<Inputs>)
    | ClearingEqual(snapshot: Snapshot, same: Snapshot, taken: bool, captured: Option<Inputs>)
    | ReleasingEqual(snapshot: Snapshot, same: Snapshot)
    | Saving(pending: Pending, taken: bool)
    | Checking(pending: Pending, taken: bool)
    | ClearingRejected(pending: Pending)
    | ReleasingRejected(pending: Pending)
    | Writing(pending: Pending)
    | Committing(pending: Pending)
    | ReleasingAccepted(pending: Pending, accepted: Snapshot)

  /** `committed` and `row` survive crashes, `unpublished` and `steady` do not.  The rest records
      what happened: `remote` holds what a write may have delivered, `uncertain` the delivered
      snapshot whose base is still the committed one and that was neither accepted nor found equal,
      `pins` the snapshots whose objects are pinned under their ref, `used` every worktree commit
      captured, `past` every base moved away from, `returned` what the last capture answered. */
  datatype State = State(
    committed: Option<Snapshot>, row: Option<Pending>, unpublished: Option<Pending>, steady: Option<Unchanged>,
    phase: Phase, inputs: Inputs, remote: set<Snapshot>, uncertain: Option<Pending>, pins: set<Snapshot>, used: set<nat>,
    past: set<Option<nat>>, returned: Option<Snapshot>)

  datatype Event =
    | Start
    | ReleaseStale
    | ClearStale
    | AnswerUnchanged
    | Discard(commit: nat, ref: nat)
    | Capture(commit: nat, ref: nat)
    | Compare
    | ClearEqual
    | ReleaseEqual
    | Save
    | SaveFails(written: bool)
    | Preflight
    | Reject
    | ClearRejected
    | ReleaseRejected
    | ClearFails(cleared: bool)
    | Write(acknowledged: bool)
    | Accept(accepted: Snapshot)
    | AcceptNotInstalled
    | CommitFails
    | ReleaseAccepted
    | Throw
    | Crash
    | MoveBase(moved: Snapshot)
    | Edit(edited: Inputs)

  function BaseOf(seen: Option<Snapshot>): Option<nat> {
    if seen.None? then None else Some(seen.value.commit)
  }

  function Stored(s: State): Option<Pending> {
    if s.unpublished.Some? then s.unpublished else s.row
  }

  /** Releasing a publication gives up every pin made under its ref. */
  function Released(pins: set<Snapshot>, ref: nat): set<Snapshot> {
    set c | c in pins && c.ref != ref
  }

  predicate Shortcut(s: State, seen: Option<Snapshot>) {
    seen.Some? && s.steady == Some(Unchanged(s.inputs, seen.value.commit))
  }

  /** The committed snapshot becomes `next`. */
  function Rebased(s: State, next: Snapshot): State {
    var before, after := BaseOf(s.committed), Some(next.commit);
    s.(committed := Some(next),
       past := if before == after then s.past else s.past + {before},
       uncertain := if s.uncertain.Some? && s.uncertain.value.base == after then s.uncertain else None)
  }

  /** Whether the capture is about to clear the journal row. */
  predicate ClearsRow(phase: Phase) {
    phase.ClearingStale? || phase.ClearingRejected? || (phase.ClearingEqual? && !phase.taken)
  }

  predicate Enabled(s: State, e: Event) {
    match e
    case Start => s.phase.Idle?
    case ReleaseStale => s.phase.ReleasingStale?
    case ClearStale => s.phase.ClearingStale?
    case AnswerUnchanged => s.phase.Capturing? && Shortcut(s, s.phase.seen)
    case Discard(commit, _) => s.phase.Capturing? && !Shortcut(s, s.phase.seen) && commit !in s.used
    case Capture(commit, _) => s.phase.Capturing? && !Shortcut(s, s.phase.seen) && commit !in s.used
    case Compare => s.phase.Comparing?
    case ClearEqual => s.phase.ClearingEqual?
    case ReleaseEqual => s.phase.ReleasingEqual?
    case Save => s.phase.Saving?
    case SaveFails(_) => s.phase.Saving?
    case Preflight => s.phase.Checking?
    case Reject => s.phase.Checking?
    case ClearRejected => s.phase.ClearingRejected?
    case ReleaseRejected => s.phase.ReleasingRejected?
    case ClearFails(_) => ClearsRow(s.phase)
    case Write(_) => s.phase.Writing?
    case Accept(_) => s.phase.Committing?
    case AcceptNotInstalled => s.phase.Committing?
    case CommitFails => s.phase.Committing?
    case ReleaseAccepted => s.phase.ReleasingAccepted?
    case Throw => !s.phase.Idle?
    case Crash => true
    case MoveBase(_) => true
    case Edit(_) => true
  }

  /** One step.  `content` is what a capture of given inputs contains. */
  function Next(s: State, e: Event, content: Inputs -> nat): State
    requires Enabled(s, e)
  {
    match e
    case Start =>
      var stored := Stored(s);
      s.(phase :=
          if stored.None? then Capturing(s.committed)
          else if stored.value.base != BaseOf(s.committed) then ReleasingStale(stored.value, s.committed)
          else Comparing(stored.value.snapshot, s.committed, false, None))
    case ReleaseStale => s.(pins := Released(s.pins, s.phase.stale.snapshot.ref), phase := ClearingStale(s.phase.stale, s.phase.seen))
    case ClearStale => s.(row := None, unpublished := None, phase := Capturing(s.phase.seen))
    case AnswerUnchanged => s.(phase := Idle, returned := s.phase.seen)
    case Discard(commit, ref) => s.(used := s.used + {commit}, pins := Released(s.pins, ref))
    case Capture(commit, ref) =>
      var snapshot := Snapshot(content(s.inputs), commit, ref);
      s.(used := s.used + {commit}, pins := s.pins + {snapshot}, phase := Comparing(snapshot, s.phase.seen, true, Some(s.inputs)))
    case Compare =>
      var p := s.phase;
      if p.seen.Some? && p.seen.value.content == p.snapshot.content then
        s.(phase := ClearingEqual(p.snapshot, p.seen.value, p.taken, p.captured))
      else
        var pending := Pending(p.snapshot, BaseOf(p.seen));
        s.(unpublished := Some(pending), phase := Saving(pending, p.taken))
    case ClearEqual =>
      var p := s.phase;
      s.(unpublished := if p.taken then s.unpublished else None,
         row := if p.taken then s.row else None,
         uncertain := if p.taken then s.uncertain else None,
         steady := if p.captured.Some? then Some(Unchanged(p.captured.value, p.same.commit)) else s.steady,
         phase := ReleasingEqual(p.snapshot, p.same))
    case ReleaseEqual => s.(pins := Released(s.pins, s.phase.snapshot.ref), phase := Idle, returned := Some(s.phase.same))
    case Save => s.(row := Some(s.phase.pending), phase := Checking(s.phase.pending, s.phase.taken))
    case SaveFails(written) => s.(row := if written then Some(s.phase.pending) else s.row, phase := Idle)
    case Preflight => s.(phase := Writing(s.phase.pending))
    case Reject =>
      if s.phase.taken then s.(unpublished := None, phase := ClearingRejected(s.phase.pending))
      else s.(phase := Idle)
    case ClearRejected => s.(row := None, phase := ReleasingRejected(s.phase.pending))
    case ReleaseRejected => s.(pins := Released(s.pins, s.phase.pending.snapshot.ref), phase := Idle)
    case ClearFails(cleared) =>
      s.(row := if cleared then None else s.row,
         unpublished := if s.phase.ClearingEqual? then None else s.unpublished,
         uncertain := if s.phase.ClearingEqual? && cleared then None else s.uncertain,
         phase := Idle)
    case Write(acknowledged) =>
      var p := s.phase.pending;
      s.(remote := s.remote + {p.snapshot},
         uncertain := if p.base == BaseOf(s.committed) then Some(p) else s.uncertain,
         phase := if acknowledged then Committing(p) else Idle)
    case Accept(accepted) =>
      Rebased(s, accepted).(row := None, unpublished := None, uncertain := None, phase := ReleasingAccepted(s.phase.pending, accepted))
    case AcceptNotInstalled =>
      Rebased(s, s.phase.pending.snapshot).(row := None, unpublished := None, uncertain := None, phase := Idle)
    case CommitFails => s.(unpublished := None, phase := Idle)
    case ReleaseAccepted => s.(pins := Released(s.pins, s.phase.pending.snapshot.ref), phase := Idle, returned := Some(s.phase.accepted))
    case Throw => s.(phase := Idle)
    case Crash => s.(unpublished := None, steady := None, phase := Idle)
    case MoveBase(moved) => Rebased(s, moved)
    case Edit(edited) => s.(inputs := edited)
  }

  function Initial(committed: Option<Snapshot>, inputs: Inputs): State {
    State(committed, None, None, None, Idle, inputs, {}, None, {}, {}, {}, None)
  }

  // ------------------------------------------------------------------ every run

  ghost predicate IsRun(s: State, events: seq<Event>, content: Inputs -> nat)
    decreases |events|
  {
    events != [] ==> Enabled(s, events[0]) && IsRun(Next(s, events[0], content), events[1..], content)
  }

  ghost function After(s: State, events: seq<Event>, content: Inputs -> nat): State
    requires IsRun(s, events, content)
    decreases |events|
  {
    if events == [] then s else After(Next(s, events[0], content), events[1..], content)
  }

  /** The journal row is `p` or empty. */
  predicate RowIs(s: State, p: Pending) {
    s.row == None || s.row == Some(p)
  }

  predicate StaleIs(s: State, p: Pending) {
    RowIs(s, p) && (s.unpublished == None || s.unpublished == Some(p)) && s.uncertain == None
  }

  /** What each phase knows of the row, the field and the remote. */
  ghost predicate PhaseInv(s: State) {
    match s.phase
    case Idle => true
    case ReleasingStale(stale, seen) => StaleIs(s, stale) && stale.base != BaseOf(seen)
    case ClearingStale(stale, seen) => StaleIs(s, stale) && stale.base != BaseOf(seen)
    case Capturing(_) => s.row == None && s.unpublished == None
    case Comparing(snapshot, seen, taken, _) =>
      var p := Pending(snapshot, BaseOf(seen));
      if taken then s.row == None && s.unpublished == None && snapshot !in s.remote
      else RowIs(s, p) && Stored(s) == Some(p)
    case ClearingEqual(snapshot, same, taken, _) =>
      && same.content == snapshot.content
      && if taken then s.row == None && s.unpublished == None
         else var p := Pending(snapshot, Some(same.commit)); RowIs(s, p) && Stored(s) == Some(p)
    case ReleasingEqual(_, _) => s.row == None && s.unpublished == None
    case Saving(p, taken) => RowIs(s, p) && s.unpublished == Some(p) && (taken ==> s.row == None && p.snapshot !in s.remote)
    case Checking(p, taken) =>
      s.row == Some(p) && s.unpublished == Some(p) && (taken ==> s.uncertain == None && p.snapshot !in s.remote)
    case ClearingRejected(p) => s.row == Some(p) && s.unpublished == None && s.uncertain == None && p.snapshot !in s.remote
    case ReleasingRejected(_) => s.row == None && s.unpublished == None
    case Writing(p) => s.row == Some(p) && s.unpublished == Some(p)
    case Committing(p) => s.row == Some(p) && s.unpublished == Some(p)
    case ReleasingAccepted(_, _) => s.row == None && s.unpublished == None
  }

  /** The snapshot a phase is about. */
  function Subject(phase: Phase): Option<Snapshot> {
    match phase
    case Comparing(snapshot, _, _, _) => Some(snapshot)
    case ClearingEqual(snapshot, _, _, _) => Some(snapshot)
    case ReleasingEqual(snapshot, _) => Some(snapshot)
    case Saving(p, _) => Some(p.snapshot)
    case Checking(p, _) => Some(p.snapshot)
    case ClearingRejected(p) => Some(p.snapshot)
    case ReleasingRejected(p) => Some(p.snapshot)
    case Writing(p) => Some(p.snapshot)
    case Committing(p) => Some(p.snapshot)
    case ReleasingAccepted(p, _) => Some(p.snapshot)
    case _ => None
  }

  ghost predicate Inv(s: State) {
    && PhaseInv(s)
    && (s.unpublished.Some? ==> RowIs(s, s.unpublished.value))
    && (s.uncertain.Some? ==> s.row == s.uncertain && s.uncertain.value.base == BaseOf(s.committed) && s.uncertain.value.snapshot in s.remote)
    && (forall c :: c in s.remote ==> c.commit in s.used)
    && (Subject(s.phase).Some? ==> Subject(s.phase).value.commit in s.used)
    && (s.row.Some? ==> s.row.value.snapshot.commit in s.used)
    && (s.unpublished.Some? ==> s.unpublished.value.snapshot.commit in s.used)
  }

  /** The events before anything is journalled, those from the journal row on, and what happens
      around a capture. */
  predicate Prepares(e: Event) {
    e.Start? || e.ReleaseStale? || e.ClearStale? || e.AnswerUnchanged? || e.Discard? || e.Capture? || e.Compare?
    || e.ClearEqual? || e.ReleaseEqual?
  }

  predicate Surrounds(e: Event) {
    e.Throw? || e.Crash? || e.MoveBase? || e.Edit?
  }

  lemma PrepareKeepsInv(s: State, e: Event, content: Inputs -> nat)
    requires Inv(s) && Enabled(s, e) && Prepares(e)
    ensures Inv(Next(s, e, content))
  {
  }

  lemma PublishKeepsInv(s: State, e: Event, content: Inputs -> nat)
    requires Inv(s) && Enabled(s, e) && !Prepares(e) && !Surrounds(e)
    ensures Inv(Next(s, e, content))
  {
  }

  lemma SurroundingKeepsInv(s: State, e: Event, content: Inputs -> nat)
    requires Inv(s) && Enabled(s, e) && Surrounds(e)
    ensures Inv(Next(s, e, content))
  {
  }

  lemma StepKeepsInv(s: State, e: Event, content: Inputs -> nat)
    requires Inv(s) && Enabled(s, e)
    ensures Inv(Next(s, e, content))
  {
    if Prepares(e) {
      PrepareKeepsInv(s, e, content);
    } else if Surrounds(e) {
      SurroundingKeepsInv(s, e, content);
    } else {
      PublishKeepsInv(s, e, content);
    }
  }

  lemma {:induction false} RunKeepsInv(s: State, events: seq<Event>, content: Inputs -> nat)
    requires Inv(s) && IsRun(s, events, content)
    ensures Inv(After(s, events, content))
    decreases |events|
  {
    if events != [] {
      StepKeepsInv(s, events[0], content);
      RunKeepsInv(Next(s, events[0], content), events[1..], content);
    }
  }

  // ------------------------------------------------------------------ uncertain publication

  /** What ends the uncertainty about `p`: another base, an equal committed snapshot, acceptance. */
  ghost predicate Settles(s: State, e: Event, p: Pending) {
    || (e.MoveBase? && p.base != Some(e.moved.commit))
    || (Clears(e) && s.phase.ClearingEqual? && s.phase.snapshot == p.snapshot && s.phase.same.content == p.snapshot.content)
    || ((e.Accept? || e.AcceptNotInstalled?) && s.phase.Committing? && s.phase.pending == p)
  }

  /** Nothing else ends it, and until then nothing but `p` is captured, written or committed. */
  lemma UncertainStep(s: State, e: Event, content: Inputs -> nat, p: Pending)
    requires Inv(s) && Enabled(s, e) && s.uncertain == Some(p)
    ensures Settles(s, e, p) || Next(s, e, content).uncertain == Some(p)
    ensures !e.Discard? && !e.Capture? && !e.ClearStale? && !e.ClearRejected? && (e.ClearFails? ==> s.phase.ClearingEqual?)
    ensures e.Write? || e.Accept? || e.AcceptNotInstalled? || e.CommitFails? ==> s.phase.pending == p
    ensures e.Start? ==> Next(s, e, content).phase == Comparing(p.snapshot, s.committed, false, None)
  {
  }

  ghost predicate NeverSettles(s: State, events: seq<Event>, content: Inputs -> nat, p: Pending)
    requires IsRun(s, events, content)
    decreases |events|
  {
    events != [] ==> !Settles(s, events[0], p) && NeverSettles(Next(s, events[0], content), events[1..], content, p)
  }

  /** Over every run with crashes and failures anywhere: a snapshot that may have reached the
      remote keeps its journal row, and nothing new reaches the remote, until it is settled. */
  lemma {:induction false} UncertainSnapshotKept(s: State, events: seq<Event>, content: Inputs -> nat, p: Pending)
    requires Inv(s) && s.uncertain == Some(p) && IsRun(s, events, content) && NeverSettles(s, events, content, p)
    ensures var t := After(s, events, content);
            t.uncertain == Some(p) && t.row == Some(p) && t.remote == s.remote && BaseOf(t.committed) == p.base
    decreases |events|
  {
    if events != [] {
      StepKeepsInv(s, events[0], content);
      UncertainStep(s, events[0], content, p);
      UncertainSnapshotKept(Next(s, events[0], content), events[1..], content, p);
    }
  }

  /** So it is with every snapshot a push delivered, acknowledged or not, while its base is the committed
      one: whatever fails or crashes afterwards, it keeps its journal row, nothing else reaches the
      remote, and an idle stream takes it up again, until it is settled. */
  lemma DeliveredSnapshotKept(committed: Option<Snapshot>, inputs: Inputs, before: seq<Event>, acknowledged: bool, events: seq<Event>,
                              content: Inputs -> nat, p: Pending)
    requires IsRun(Initial(committed, inputs), before, content)
    requires var s := After(Initial(committed, inputs), before, content); s.phase == Writing(p) && p.base == BaseOf(s.committed)
    requires var t := Next(After(Initial(committed, inputs), before, content), Write(acknowledged), content);
             IsRun(t, events, content) && NeverSettles(t, events, content, p)
    ensures var t := After(Next(After(Initial(committed, inputs), before, content), Write(acknowledged), content), events, content);
            && t.row == Some(p) && BaseOf(t.committed) == p.base
            && t.remote == After(Initial(committed, inputs), before, content).remote + {p.snapshot}
            && (t.phase == Idle ==> Next(t, Start, content).phase == Comparing(p.snapshot, t.committed, false, None))
  {
    var s := After(Initial(committed, inputs), before, content);
    RunKeepsInv(Initial(committed, inputs), before, content);
    StepKeepsInv(s, Write(acknowledged), content);
    var t := Next(s, Write(acknowledged), content);
    UncertainSnapshotKept(t, events, content, p);
    RunKeepsInv(t, events, content);
  }

  /** After any such run, the next capture takes that snapshot up again: it finds the committed
      snapshot equal, or saves and publishes the very same one. */
  lemma NextCapturePublishesSame(committed: Option<Snapshot>, inputs: Inputs, events: seq<Event>, content: Inputs -> nat, p: Pending)
    requires IsRun(Initial(committed, inputs), events, content)
    requires var s := After(Initial(committed, inputs), events, content); s.phase == Idle && s.uncertain == Some(p)
    ensures Next(After(Initial(committed, inputs), events, content), Start, content).phase
              == Comparing(p.snapshot, After(Initial(committed, inputs), events, content).committed, false, None)
    ensures var s := After(Initial(committed, inputs), events, content);
            var t := Next(Next(s, Start, content), Compare, content);
            if s.committed.Some? && s.committed.value.content == p.snapshot.content
            then t.phase == ClearingEqual(p.snapshot, s.committed.value, false, None)
            else t.phase == Saving(p, false)
                 && Next(t, Save, content).row == Some(p)
                 && Next(Next(t, Save, content), Preflight, content).phase == Writing(p)
  {
    RunKeepsInv(Initial(committed, inputs), events, content);
  }

  predicate Clears(e: Event) {
    e.ClearStale? || e.ClearEqual? || e.ClearRejected? || (e.ClearFails? && e.cleared)
  }

  /** The journal row is dropped only for a moved base, equal content, a rejection of a snapshot
      that never reached the remote, or acceptance, even by a clearing that fails afterwards. */
  lemma RowDroppedOnlyFor(committed: Option<Snapshot>, inputs: Inputs, events: seq<Event>, content: Inputs -> nat, e: Event, p: Pending)
    requires IsRun(Initial(committed, inputs), events, content)
    requires var s := After(Initial(committed, inputs), events, content); Enabled(s, e) && s.row == Some(p) && Next(s, e, content).row != Some(p)
    ensures var s := After(Initial(committed, inputs), events, content);
            || (Clears(e) && s.phase.ClearingStale? && p.base != BaseOf(s.phase.seen))
            || (Clears(e) && s.phase.ClearingEqual? && s.phase.snapshot == p.snapshot && s.phase.same.content == p.snapshot.content)
            || (Clears(e) && s.phase.ClearingRejected? && s.phase.pending == p && p.snapshot !in s.remote)
            || ((e.Accept? || e.AcceptNotInstalled?) && s.phase.pending == p)
  {
    RunKeepsInv(Initial(committed, inputs), events, content);
  }

  // ------------------------------------------------------------------ runs put together

  lemma RunsTo(s: State, e: Event, events: seq<Event>, content: Inputs -> nat)
    requires Enabled(s, e) && IsRun(Next(s, e, content), events, content)
    ensures IsRun(s, [e] + events, content) && After(s, [e] + events, content) == After(Next(s, e, content), events, content)
  {
    assert ([e] + events)[1..] == events;
  }

  lemma RunOne(s: State, e: Event, content: Inputs -> nat)
    requires Enabled(s, e)
    ensures IsRun(s, [e], content) && After(s, [e], content) == Next(s, e, content)
  {
    RunsTo(s, e, [], content);
    assert [e] + [] == [e];
  }

  lemma {:induction false} RunAppend(s: State, a: seq<Event>, b: seq<Event>, content: Inputs -> nat)
    requires IsRun(s, a, content) && IsRun(After(s, a, content), b, content)
    ensures IsRun(s, a + b, content) && After(s, a + b, content) == After(After(s, a, content), b, content)
    decreases |a|
  {
    if a == [] {
      assert a + b == b;
    } else {
      assert (a + b)[1..] == a[1..] + b;
      RunAppend(Next(s, a[0], content), a[1..], b, content);
    }
  }

  // ------------------------------------------------------------------ rejections

  /** The journal row is `p`, which is still to be published, and only a stored one. */
  ghost predicate StoredOnly(s: State, p: Pending) {
    && s.row == Some(p) && (s.unpublished == None || s.unpublished == Some(p)) && p.base == BaseOf(s.committed)
    && (s.committed.Some? ==> s.committed.value.content != p.snapshot.content)
    && match s.phase
       case Idle => true
       case Comparing(snapshot, seen, taken, _) => snapshot == p.snapshot && seen == s.committed && !taken
       case Saving(pending, taken) => pending == p && !taken
       case Checking(pending, taken) => pending == p && !taken
       case _ => false
  }

  /** A rejected snapshot whose journal row could not be cleared is taken up again by every later
      capture, rejected again and never dropped, until another base is committed. */
  lemma {:induction false} RejectedStays(s: State, events: seq<Event>, content: Inputs -> nat, p: Pending)
    requires StoredOnly(s, p) && IsRun(s, events, content)
    requires forall e :: e in events ==> !e.MoveBase? && !e.Preflight?
    ensures var t := After(s, events, content); StoredOnly(t, p) && t.remote == s.remote && t.used == s.used
    decreases |events|
  {
    if events != [] {
      assert events[0] in events;
      RejectedStays(Next(s, events[0], content), events[1..], content, p);
    }
  }

  /** How that comes about: the first capture of a checkout is rejected and stops before its row is
      cleared. */
  lemma RejectedStored(inputs: Inputs, content: Inputs -> nat, commit: nat, ref: nat) returns (events: seq<Event>)
    ensures IsRun(Initial(None, inputs), events, content)
    ensures StoredOnly(After(Initial(None, inputs), events, content), Pending(Snapshot(content(inputs), commit, ref), None))
  {
    var s0 := Initial(None, inputs);
    var s1 := Next(s0, Start, content);
    var s2 := Next(s1, Capture(commit, ref), content);
    var s3 := Next(s2, Compare, content);
    var s4 := Next(s3, Save, content);
    var s5 := Next(s4, Reject, content);
    events := [];
    RunsTo(s5, Throw, events, content); events := [Throw] + events;
    RunsTo(s4, Reject, events, content); events := [Reject] + events;
    RunsTo(s3, Save, events, content); events := [Save] + events;
    RunsTo(s2, Compare, events, content); events := [Compare] + events;
    RunsTo(s1, Capture(commit, ref), events, content); events := [Capture(commit, ref)] + events;
    RunsTo(s0, Start, events, content); events := [Start] + events;
  }
}
