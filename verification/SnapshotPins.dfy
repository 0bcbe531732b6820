/** Pins hold a snapshot's objects in account storage while it may still be committed
    (`IncrementalGitSnapshots` in `git-checkpoint.ts`). */
module SnapshotPins {
  import opened Objects
  import opened SnapshotProtocol

  /** Whatever may still be committed is pinned: the journal row and the field while their base
      stands, and the snapshot being compared, saved, checked, written or committed. */
  ghost predicate Held(s: State) {
    && (s.row.Some? && s.row.value.base == BaseOf(s.committed) ==> s.row.value.snapshot in s.pins)
    && (s.unpublished.Some? && s.unpublished.value.base == BaseOf(s.committed) ==> s.unpublished.value.snapshot in s.pins)
    && (Subject(s.phase).Some? ==> Subject(s.phase).value in s.pins)
  }

  // ------------------------------------------------------------------ a base that never returns

  /** The snapshot a step makes the committed one. */
  function Committed(s: State, e: Event): Option<Snapshot> {
    match e
    case MoveBase(moved) => Some(moved)
    case Accept(accepted) => Some(accepted)
    case AcceptNotInstalled => if s.phase.Committing? then Some(s.phase.pending.snapshot) else None
    case _ => None
  }

  /** The base does not return to one it moved away from. */
  predicate BaseAdvances(s: State, e: Event) {
    Committed(s, e).Some? ==> BaseOf(Committed(s, e)) !in s.past
  }

  /** `p` is pinned, or its base is gone for good, so that it is never committed. */
  predicate PinnedOrDead(s: State, p: Pending) {
    p.snapshot in s.pins || p.base in s.past
  }

  predicate BaseKnown(s: State, base: Option<nat>) {
    base == BaseOf(s.committed) || base in s.past
  }

  function SeenBy(phase: Phase): Option<Option<Snapshot>> {
    match phase
    case ReleasingStale(_, seen) => Some(seen)
    case ClearingStale(_, seen) => Some(seen)
    case Capturing(seen) => Some(seen)
    case Comparing(_, seen, _, _) => Some(seen)
    case ClearingEqual(_, same, _, _) => Some(Some(same))
    case _ => None
  }

  ghost predicate PinInv(s: State) {
    && Inv(s)
    && BaseOf(s.committed) !in s.past
    && (Subject(s.phase).Some? ==> Subject(s.phase).value in s.pins)
    && (s.phase.ReleasingStale? || s.phase.ClearingStale? ==> s.phase.stale.base in s.past)
    && (SeenBy(s.phase).Some? ==> BaseKnown(s, BaseOf(SeenBy(s.phase).value)))
    && (s.phase.Saving? ==> BaseKnown(s, s.phase.pending.base))
    && (s.row.Some? ==> PinnedOrDead(s, s.row.value) && BaseKnown(s, s.row.value.base))
    && (s.unpublished.Some? ==> PinnedOrDead(s, s.unpublished.value) && BaseKnown(s, s.unpublished.value.base))
  }

  lemma PrepareKeepsPins(s: State, e: Event, content: Inputs -> nat)
    requires PinInv(s) && Enabled(s, e) && Prepares(e)
    ensures PinInv(Next(s, e, content))
  {
    PrepareKeepsInv(s, e, content);
  }

  lemma PublishKeepsPins(s: State, e: Event, content: Inputs -> nat)
    requires PinInv(s) && Enabled(s, e) && BaseAdvances(s, e) && !Prepares(e) && !Surrounds(e)
    ensures PinInv(Next(s, e, content))
  {
    PublishKeepsInv(s, e, content);
  }

  lemma SurroundingKeepsPins(s: State, e: Event, content: Inputs -> nat)
    requires PinInv(s) && Enabled(s, e) && BaseAdvances(s, e) && Surrounds(e)
    ensures PinInv(Next(s, e, content))
  {
    SurroundingKeepsInv(s, e, content);
  }

  lemma StepKeepsPins(s: State, e: Event, content: Inputs -> nat)
    requires PinInv(s) && Enabled(s, e) && BaseAdvances(s, e)
    ensures PinInv(Next(s, e, content))
  {
    if Prepares(e) {
      PrepareKeepsPins(s, e, content);
    } else if Surrounds(e) {
      SurroundingKeepsPins(s, e, content);
    } else {
      PublishKeepsPins(s, e, content);
    }
  }

  // ------------------------------------------------------------------ the bases of a run

  /** The bases a run commits after its first, in order. */
  ghost function Bases(s: State, events: seq<Event>, content: Inputs -> nat): seq<Option<nat>>
    requires IsRun(s, events, content)
    decreases |events|
  {
    if events == [] then []
    else
      var next := Bases(Next(s, events[0], content), events[1..], content);
      if Committed(s, events[0]).Some? then [BaseOf(Committed(s, events[0]))] + next else next
  }

  /** No base recurs after a different one. */
  ghost predicate NoReturn(bases: seq<Option<nat>>) {
    forall i, j, k :: 0 <= i < j < k < |bases| && bases[i] == bases[k] ==> bases[j] == bases[i]
  }

  /** The bases so far: the last is the committed one, and each one moved away from is among them. */
  ghost predicate Behind(s: State, bases: seq<Option<nat>>) {
    && bases != [] && bases[|bases| - 1] == BaseOf(s.committed)
    && forall b :: b in s.past ==> exists i :: 0 <= i < |bases| - 1 && bases[i] == b && bases[i + 1] != b
  }

  lemma BehindNext(s: State, e: Event, content: Inputs -> nat, bases: seq<Option<nat>>)
    requires Enabled(s, e) && Behind(s, bases)
    ensures Behind(Next(s, e, content), if Committed(s, e).Some? then bases + [BaseOf(Committed(s, e))] else bases)
  {
    if Committed(s, e).Some? {
      var t, after := Next(s, e, content), bases + [BaseOf(Committed(s, e))];
      forall b | b in t.past ensures exists i :: 0 <= i < |after| - 1 && after[i] == b && after[i + 1] != b {
        if b in s.past {
          var i :| 0 <= i < |bases| - 1 && bases[i] == b && bases[i + 1] != b;
          assert after[i] == b && after[i + 1] != b;
        } else {
          assert after[|bases| - 1] == b && after[|bases| - 1 + 1] != b;
        }
      }
    }
  }

  lemma Advances(s: State, e: Event, bases: seq<Option<nat>>)
    requires Behind(s, bases) && Committed(s, e).Some?
    ensures NoReturn(bases + [BaseOf(Committed(s, e))]) ==> BaseAdvances(s, e)
  {
    var after := bases + [BaseOf(Committed(s, e))];
    if BaseOf(Committed(s, e)) in s.past {
      var i :| 0 <= i < |bases| - 1 && bases[i] == BaseOf(Committed(s, e)) && bases[i + 1] != bases[i];
      assert after[i] == after[|bases|] && after[i + 1] != after[i];
    }
  }

  lemma {:induction false} RunKeepsPins(s: State, events: seq<Event>, content: Inputs -> nat, bases: seq<Option<nat>>)
    requires PinInv(s) && Behind(s, bases) && IsRun(s, events, content) && NoReturn(bases + Bases(s, events, content))
    ensures PinInv(After(s, events, content))
    decreases |events|
  {
    if events != [] {
      var e, next := events[0], Next(s, events[0], content);
      var rest := Bases(next, events[1..], content);
      var after := if Committed(s, e).Some? then bases + [BaseOf(Committed(s, e))] else bases;
      assert bases + Bases(s, events, content) == after + rest;
      FirstsNoReturn(after, rest);
      if Committed(s, e).Some? { Advances(s, e, bases); }
      BehindNext(s, e, content, bases);
      StepKeepsPins(s, e, content);
      RunKeepsPins(next, events[1..], content, after);
    }
  }

  lemma FirstsNoReturn(bases: seq<Option<nat>>, more: seq<Option<nat>>)
    requires NoReturn(bases + more)
    ensures NoReturn(bases)
  {
    assert forall i :: 0 <= i < |bases| ==> (bases + more)[i] == bases[i];
  }

  // ------------------------------------------------------------------ a base that returns

  lemma {:induction false} BasesAppend(s: State, a: seq<Event>, b: seq<Event>, content: Inputs -> nat)
    requires IsRun(s, a, content) && IsRun(After(s, a, content), b, content)
    ensures IsRun(s, a + b, content) && After(s, a + b, content) == After(After(s, a, content), b, content)
    ensures Bases(s, a + b, content) == Bases(s, a, content) + Bases(After(s, a, content), b, content)
    decreases |a|
  {
    if a == [] {
      assert a + b == b;
    } else {
      assert (a + b)[1..] == a[1..] + b;
      BasesAppend(Next(s, a[0], content), a[1..], b, content);
    }
  }

  lemma BasesTo(s: State, e: Event, events: seq<Event>, content: Inputs -> nat)
    requires Enabled(s, e) && IsRun(Next(s, e, content), events, content)
    ensures IsRun(s, [e] + events, content) && After(s, [e] + events, content) == After(Next(s, e, content), events, content)
    ensures Bases(s, [e] + events, content) ==
            (if Committed(s, e).Some? then [BaseOf(Committed(s, e))] else []) + Bases(Next(s, e, content), events, content)
  {
    assert ([e] + events)[1..] == events;
  }

  /** A committed snapshot at a base, unlike anything captured of inputs whose content is 0. */
  function At(base: Option<nat>): Option<Snapshot> {
    if base.None? then None else Some(Snapshot(1, base.value, 0))
  }

  /** Idle between captures, with nothing uncertain. */
  ghost predicate Resting(s: State, base: Option<nat>, row: Option<Pending>, pins: set<Snapshot>) {
    && s.phase.Idle? && s.committed == At(base) && s.unpublished == None && s.uncertain == None
    && s.row == row && s.pins == pins && s.steady == None
  }

  /** Other machines' snapshots move the base along `bases`, from the one at `i` to the one at `k`. */
  lemma {:induction false} Moves(s: State, bases: seq<Option<nat>>, i: nat, k: nat, content: Inputs -> nat, row: Option<Pending>, pins: set<Snapshot>)
    returns (events: seq<Event>)
    requires i <= k < |bases| && forall x :: 0 < x < |bases| ==> bases[x].Some?
    requires Resting(s, bases[i], row, pins)
    ensures IsRun(s, events, content) && Bases(s, events, content) == bases[i + 1..k + 1]
    ensures Resting(After(s, events, content), bases[k], row, pins)
    ensures After(s, events, content).used == s.used && After(s, events, content).inputs == s.inputs
    decreases k - i
  {
    if i == k {
      events := [];
    } else {
      var e := MoveBase(Snapshot(1, bases[i + 1].value, 0));
      var rest := Moves(Next(s, e, content), bases, i + 1, k, content, row, pins);
      BasesTo(s, e, rest, content);
      events := [e] + rest;
      assert bases[i + 1..k + 1] == [bases[i + 1]] + bases[i + 2..k + 1];
    }
  }

  function Stale(base: Option<nat>): Pending {
    Pending(Snapshot(0, 0, 0), base)
  }

  /** A capture stops once its journal row is written. */
  lemma SavedAndStopped(s: State, base: Option<nat>, content: Inputs -> nat) returns (events: seq<Event>)
    requires Resting(s, base, None, {}) && s.used == {} && content(s.inputs) == 0
    ensures IsRun(s, events, content) && Bases(s, events, content) == []
    ensures Resting(After(s, events, content), base, Some(Stale(base)), {Stale(base).snapshot})
  {
    var s1 := Next(s, Start, content);
    var s2 := Next(s1, Capture(0, 0), content);
    var s3 := Next(s2, Compare, content);
    var s4 := Next(s3, Save, content);
    events := [];
    BasesTo(s4, Crash, events, content); events := [Crash] + events;
    BasesTo(s3, Save, events, content); events := [Save] + events;
    BasesTo(s2, Compare, events, content); events := [Compare] + events;
    BasesTo(s1, Capture(0, 0), events, content); events := [Capture(0, 0)] + events;
    BasesTo(s, Start, events, content); events := [Start] + events;
  }

  /** Under another base, the next capture stops between releasing the stale pins and clearing the
      row. */
  lemma ReleasedAndStopped(s: State, base: Option<nat>, stale: Option<nat>, content: Inputs -> nat) returns (events: seq<Event>)
    requires Resting(s, base, Some(Stale(stale)), {Stale(stale).snapshot}) && base != stale
    ensures IsRun(s, events, content) && Bases(s, events, content) == []
    ensures Resting(After(s, events, content), base, Some(Stale(stale)), {})
  {
    var s1 := Next(s, Start, content);
    var s2 := Next(s1, ReleaseStale, content);
    events := [];
    BasesTo(s2, Crash, events, content); events := [Crash] + events;
    BasesTo(s1, ReleaseStale, events, content); events := [ReleaseStale] + events;
    BasesTo(s, Start, events, content); events := [Start] + events;
  }

  /** A capture journalled at `bases[i]`. */
  lemma Journalled(bases: seq<Option<nat>>, i: nat, content: Inputs -> nat) returns (events: seq<Event>)
    requires i < |bases| && content(0) == 0 && forall x :: 0 < x < |bases| ==> bases[x].Some?
    ensures var s := Initial(At(bases[0]), 0);
            && IsRun(s, events, content) && Bases(s, events, content) == bases[1..i + 1]
            && Resting(After(s, events, content), bases[i], Some(Stale(bases[i])), {Stale(bases[i]).snapshot})
  {
    var s := Initial(At(bases[0]), 0);
    var a := Moves(s, bases, 0, i, content, None, {});
    var b := SavedAndStopped(After(s, a, content), bases[i], content);
    BasesAppend(s, a, b, content);
    events := a + b;
  }

  /** It is dropped halfway at `bases[j]`, and the base moves on to `bases[k]`. */
  lemma Dropped(s: State, bases: seq<Option<nat>>, i: nat, j: nat, k: nat, content: Inputs -> nat) returns (events: seq<Event>)
    requires i < j < k < |bases| && bases[j] != bases[i] && forall x :: 0 < x < |bases| ==> bases[x].Some?
    requires Resting(s, bases[i], Some(Stale(bases[i])), {Stale(bases[i]).snapshot})
    ensures IsRun(s, events, content) && Bases(s, events, content) == bases[i + 1..k + 1]
    ensures Resting(After(s, events, content), bases[k], Some(Stale(bases[i])), {})
  {
    var p := Stale(bases[i]);
    var c := Moves(s, bases, i, j, content, Some(p), {p.snapshot});
    var s3 := After(s, c, content);
    var d := ReleasedAndStopped(s3, bases[j], bases[i], content);
    var e := Moves(After(s3, d, content), bases, j, k, content, Some(p), {});
    BasesAppend(s3, d, e, content);
    BasesAppend(s, c, d + e, content);
    events := c + (d + e);
    assert bases[i + 1..j + 1] + bases[j + 1..k + 1] == bases[i + 1..k + 1];
  }

  /** A run along the bases up to `k`, where the base of `i` returns after another at `j`: a capture is
      journalled at `i`, dropped halfway at `j`, and about to be published again at `k`, unpinned. */
  lemma ReturnUnpins(bases: seq<Option<nat>>, i: nat, j: nat, k: nat, content: Inputs -> nat) returns (events: seq<Event>)
    requires i < j < k < |bases| && bases[i] == bases[k] && bases[j] != bases[i]
    requires content(0) == 0 && forall x :: 0 < x < |bases| ==> bases[x].Some?
    ensures IsRun(Initial(At(bases[0]), 0), events, content)
    ensures [bases[0]] + Bases(Initial(At(bases[0]), 0), events, content) == bases[..k + 1]
    ensures Resting(After(Initial(At(bases[0]), 0), events, content), bases[k], Some(Stale(bases[k])), {})
  {
    var s := Initial(At(bases[0]), 0);
    var a := Journalled(bases, i, content);
    var b := Dropped(After(s, a, content), bases, i, j, k, content);
    BasesAppend(s, a, b, content);
    events := a + b;
    assert [bases[0]] + (bases[1..i + 1] + bases[i + 1..k + 1]) == bases[..k + 1];
  }

  // ------------------------------------------------------------------ pins over every run

  /** The bases of a run from the start are the first of `bases`. */
  ghost predicate Along(committed: Option<Snapshot>, inputs: Inputs, events: seq<Event>, content: Inputs -> nat, bases: seq<Option<nat>>) {
    && IsRun(Initial(committed, inputs), events, content)
    && [BaseOf(committed)] + Bases(Initial(committed, inputs), events, content) <= bases
  }

  /** In every run along them, at every moment, whatever may still be committed is pinned. */
  ghost predicate AlwaysHeld(bases: seq<Option<nat>>) {
    forall committed: Option<Snapshot>, inputs: Inputs, events: seq<Event>, content: Inputs -> nat ::
      Along(committed, inputs, events, content, bases) ==> Held(After(Initial(committed, inputs), events, content))
  }

  /** Pins cover publication along a sequence of bases if and only if none recurs after a different
      one. */
  lemma PinsCoverPublication(bases: seq<Option<nat>>)
    requires bases != [] && forall x :: 0 < x < |bases| ==> bases[x].Some?
    ensures AlwaysHeld(bases) <==> NoReturn(bases)
  {
    if NoReturn(bases) {
      forall committed: Option<Snapshot>, inputs: Inputs, events: seq<Event>, content: Inputs -> nat |
        Along(committed, inputs, events, content, bases)
        ensures Held(After(Initial(committed, inputs), events, content))
      {
        var s := Initial(committed, inputs);
        var all := [BaseOf(committed)] + Bases(s, events, content);
        assert bases == all + bases[|all|..];
        FirstsNoReturn(all, bases[|all|..]);
        RunKeepsPins(s, events, content, [BaseOf(committed)]);
      }
    } else {
      var i, j, k :| 0 <= i < j < k < |bases| && bases[i] == bases[k] && bases[j] != bases[i];
      var content: Inputs -> nat := _ => 0;
      var events := ReturnUnpins(bases, i, j, k, content);
      assert Along(At(bases[0]), 0, events, content, bases);
    }
  }

  /** A concrete return: the base moves away from 1 and back, and the snapshot the next capture
      publishes is unpinned. */
  lemma ReturnedBaseUnpins(content: Inputs -> nat) returns (events: seq<Event>)
    requires content(0) == 0
    ensures IsRun(Initial(At(Some(1)), 0), events, content)
    ensures [Some(1)] + Bases(Initial(At(Some(1)), 0), events, content) == [Some(1), Some(2), Some(1)]
    ensures var s := After(Initial(At(Some(1)), 0), events, content);
            s.phase.Saving? && s.phase.pending.base == BaseOf(s.committed) && s.phase.pending.snapshot !in s.pins
  {
    var s := Initial(At(Some(1)), 0);
    var bases := [Some(1), Some(2), Some(1)];
    var a := ReturnUnpins(bases, 0, 1, 2, content);
    var b := TakenUpAgain(After(s, a, content), content);
    BasesAppend(s, a, b, content);
    events := a + b;
    assert bases[..3] == bases;
  }

  lemma TakenUpAgain(s: State, content: Inputs -> nat) returns (events: seq<Event>)
    requires Resting(s, Some(1), Some(Stale(Some(1))), {})
    ensures IsRun(s, events, content) && Bases(s, events, content) == []
    ensures var t := After(s, events, content);
            t.phase.Saving? && t.phase.pending.base == BaseOf(t.committed) && t.phase.pending.snapshot !in t.pins
  {
    var s1 := Next(s, Start, content);
    events := [];
    BasesTo(s1, Compare, events, content); events := [Compare] + events;
    BasesTo(s, Start, events, content); events := [Start] + events;
  }
}
