/** The caller of `IncrementalGitSnapshots` (`runtime-executor.ts`): it moves the base only after a
    capture of its own, and abandons a stream whose capture may still be in flight, starting another
    under the same publication id. */
module AbandonedStream {
  import opened Objects
  import opened SnapshotProtocol
  import opened SnapshotPins

  // ------------------------------------------------------------------ a base moved after a capture

  /** A stored snapshot against another base than the committed one. */
  predicate Outdated(s: State) {
    Stored(s).Some? && Stored(s).value.base != BaseOf(s.committed)
  }

  /** `reconcile` moves the base after its own capture, which left no snapshot against an older one. */
  predicate AfterCapture(s: State, e: Event) {
    e.MoveBase? ==> !Outdated(s)
  }

  ghost predicate Disciplined(s: State, events: seq<Event>, content: Inputs -> nat)
    requires IsRun(s, events, content)
    decreases |events|
  {
    events != [] ==> AfterCapture(s, events[0]) && Disciplined(Next(s, events[0], content), events[1..], content)
  }

  predicate StoredIs(s: State, p: Pending) {
    RowIs(s, p) && (s.unpublished == None || s.unpublished == Some(p))
  }

  predicate NothingStored(s: State) {
    s.row == None && s.unpublished == None
  }

  /** What each phase knows of what is stored. */
  ghost predicate StoredInv(s: State) {
    match s.phase
    case Idle => true
    case ReleasingStale(stale, _) => StoredIs(s, stale) && (NothingStored(s) || Outdated(s))
    case ClearingStale(stale, _) => StoredIs(s, stale) && (NothingStored(s) || Outdated(s))
    case Capturing(_) => NothingStored(s)
    case Comparing(snapshot, seen, taken, _) => if taken then NothingStored(s) else StoredIs(s, Pending(snapshot, BaseOf(seen)))
    case ClearingEqual(snapshot, same, taken, _) => if taken then NothingStored(s) else StoredIs(s, Pending(snapshot, Some(same.commit)))
    case ReleasingEqual(_, _) => NothingStored(s)
    case Saving(p, _) => StoredIs(s, p)
    case Checking(p, _) => StoredIs(s, p)
    case ClearingRejected(p) => RowIs(s, p) && s.unpublished == None
    case ReleasingRejected(_) => NothingStored(s)
    case Writing(p) => StoredIs(s, p)
    case Committing(p) => StoredIs(s, p)
    case ReleasingAccepted(_, _) => NothingStored(s)
  }

  ghost predicate HeldInv(s: State) {
    StoredInv(s) && Held(s) && (s.unpublished.Some? ==> RowIs(s, s.unpublished.value))
  }

  lemma PrepareKeepsHeld(s: State, e: Event, content: Inputs -> nat)
    requires HeldInv(s) && Enabled(s, e) && Prepares(e)
    ensures HeldInv(Next(s, e, content))
  {
  }

  lemma PublishKeepsHeld(s: State, e: Event, content: Inputs -> nat)
    requires HeldInv(s) && Enabled(s, e) && !Prepares(e) && !Surrounds(e)
    ensures HeldInv(Next(s, e, content))
  {
  }

  lemma SurroundingKeepsHeld(s: State, e: Event, content: Inputs -> nat)
    requires HeldInv(s) && Enabled(s, e) && Surrounds(e) && AfterCapture(s, e)
    ensures HeldInv(Next(s, e, content))
  {
  }

  lemma StepKeepsHeld(s: State, e: Event, content: Inputs -> nat)
    requires HeldInv(s) && Enabled(s, e) && AfterCapture(s, e)
    ensures HeldInv(Next(s, e, content))
  {
    if Prepares(e) {
      PrepareKeepsHeld(s, e, content);
    } else if Surrounds(e) {
      SurroundingKeepsHeld(s, e, content);
    } else {
      PublishKeepsHeld(s, e, content);
    }
  }

  lemma {:induction false} RunKeepsHeld(s: State, events: seq<Event>, content: Inputs -> nat)
    requires HeldInv(s) && IsRun(s, events, content) && Disciplined(s, events, content)
    ensures HeldInv(After(s, events, content))
    decreases |events|
  {
    if events != [] {
      StepKeepsHeld(s, events[0], content);
      RunKeepsHeld(Next(s, events[0], content), events[1..], content);
    }
  }

  /** Of one stream, with the base moved as its caller does: in every run whatever may still be committed
      is pinned, whichever bases return. */
  lemma {:induction false} PinsCoverOneStream(committed: Option<Snapshot>, inputs: Inputs, events: seq<Event>, content: Inputs -> nat)
    requires IsRun(Initial(committed, inputs), events, content) && Disciplined(Initial(committed, inputs), events, content)
    ensures Held(After(Initial(committed, inputs), events, content))
  {
    RunKeepsHeld(Initial(committed, inputs), events, content);
  }

  // ------------------------------------------------------------------ two streams

  /** A stream and the one abandoned before it: how far that one's capture still is, its own fields, and
      whether it was abandoned while committing.  The journal row, the committed snapshot and the pins
      under the one publication id are shared; what the abandoned one writes to the remote is not followed. */
  datatype Streams = Streams(current: State, late: Phase, unpublished: Option<Pending>, steady: Option<Unchanged>, committing: bool)

  /** A step of the current stream, or of the abandoned one. */
  datatype Joint = Own(event: Event) | Late(event: Event)

  /** `abandonCapture`: the stream's signal is aborted, the journal row is forgotten, and the next capture
      starts another stream. */
  function Abandoned(s: State): Streams {
    Streams(s.(row := None, unpublished := None, steady := None, phase := Idle), s.phase, s.unpublished, s.steady, s.phase.Committing?)
  }

  /** The abandoned stream with what it shares. */
  function LateView(t: Streams): State {
    t.current.(phase := t.late, unpublished := t.unpublished, steady := t.steady)
  }

  /** The aborted signal is checked before a capture starts over, journals, or commits; nothing else
      stops. */
  predicate LateEnabled(t: Streams, e: Event) {
    && !t.late.Idle? && Enabled(LateView(t), e)
    && match e
       case Compare => t.late.seen.Some? && t.late.seen.value.content == t.late.snapshot.content
       case Accept(_) => t.committing
       case AcceptNotInstalled => t.committing
       case CommitFails => t.committing
       case Capture(_, _) => false
       case Save => false
       case SaveFails(_) => false
       case Crash => false
       case MoveBase(_) => false
       case Edit(_) => false
       case _ => true
  }

  predicate JointEnabled(t: Streams, j: Joint) {
    match j
    case Own(e) => Enabled(t.current, e) && AfterCapture(t.current, e)
    case Late(e) => LateEnabled(t, e)
  }

  function JointNext(t: Streams, j: Joint, content: Inputs -> nat): Streams
    requires JointEnabled(t, j)
  {
    match j
    case Own(e) =>
      var next := t.(current := Next(t.current, e, content));
      if e.Crash? then next.(late := Idle) else next
    case Late(e) =>
      var next := Next(LateView(t), e, content);
      Streams(t.current.(row := next.row, pins := next.pins, committed := next.committed, past := next.past, used := next.used),
              if next.phase.Capturing? then Idle else next.phase, next.unpublished, next.steady, t.committing)
  }

  ghost predicate IsJointRun(t: Streams, events: seq<Joint>, content: Inputs -> nat)
    decreases |events|
  {
    events != [] ==> JointEnabled(t, events[0]) && IsJointRun(JointNext(t, events[0], content), events[1..], content)
  }

  ghost function JointAfter(t: Streams, events: seq<Joint>, content: Inputs -> nat): Streams
    requires IsJointRun(t, events, content)
    decreases |events|
  {
    if events == [] then t else JointAfter(JointNext(t, events[0], content), events[1..], content)
  }

  /** A capture aborted in `phase` may still release the publication. */
  predicate MayRelease(phase: Phase) {
    match phase
    case ReleasingStale(_, _) => true
    case Capturing(_) => true
    case Comparing(snapshot, seen, _, _) => seen.Some? && seen.value.content == snapshot.content
    case ClearingEqual(_, _, _, _) => true
    case ReleasingEqual(_, _) => true
    case Checking(_, taken) => taken
    case ClearingRejected(_) => true
    case ReleasingRejected(_) => true
    case Committing(_) => true
    case ReleasingAccepted(_, _) => true
    case _ => false
  }

  // ------------------------------------------------------------------ a late stream that cannot release

  ghost predicate Harmless(t: Streams) {
    HeldInv(t.current) && !t.committing && (MayRelease(t.late) ==> t.late.Committing?)
  }

  /** All such a stream still does to what is shared is to clear the journal row. */
  lemma LateClearsOnly(t: Streams, e: Event, content: Inputs -> nat)
    requires LateEnabled(t, e) && !t.committing && (MayRelease(t.late) ==> t.late.Committing?)
    ensures var next := JointNext(t, Late(e), content);
            && next.current == t.current.(row := next.current.row) && (next.current.row == t.current.row || next.current.row == None)
            && !next.committing && (MayRelease(next.late) ==> next.late.Committing?)
  {
  }

  lemma RowGoneKeepsHeld(s: State)
    requires HeldInv(s)
    ensures HeldInv(s.(row := None))
  {
  }

  lemma {:induction false} HarmlessHolds(t: Streams, events: seq<Joint>, content: Inputs -> nat)
    requires Harmless(t) && IsJointRun(t, events, content)
    ensures Held(JointAfter(t, events, content).current)
    decreases |events|
  {
    if events != [] {
      var j, next := events[0], JointNext(t, events[0], content);
      if j.Own? {
        StepKeepsHeld(t.current, j.event, content);
      } else {
        LateClearsOnly(t, j.event, content);
        RowGoneKeepsHeld(t.current);
      }
      HarmlessHolds(next, events[1..], content);
    }
  }

  // ------------------------------------------------------------------ a late release

  /** A commit no capture has made yet. */
  lemma NewCommit(used: set<nat>) returns (commit: nat)
    ensures commit !in used
  {
    commit := Bound(used);
  }

  ghost function Bound(used: set<nat>): (n: nat)
    ensures forall c :: c in used ==> c < n
  {
    if used == {} then 0
    else
      var x :| x in used;
      var n := Bound(used - {x});
      assert used == (used - {x}) + {x};
      if x < n then n else x + 1
  }

  lemma JointTo(t: Streams, j: Joint, events: seq<Joint>, content: Inputs -> nat)
    requires JointEnabled(t, j) && IsJointRun(JointNext(t, j, content), events, content)
    ensures IsJointRun(t, [j] + events, content) && JointAfter(t, [j] + events, content) == JointAfter(JointNext(t, j, content), events, content)
  {
    assert ([j] + events)[1..] == events;
  }

  lemma {:induction false} JointAppend(t: Streams, a: seq<Joint>, b: seq<Joint>, content: Inputs -> nat)
    requires IsJointRun(t, a, content) && IsJointRun(JointAfter(t, a, content), b, content)
    ensures IsJointRun(t, a + b, content) && JointAfter(t, a + b, content) == JointAfter(JointAfter(t, a, content), b, content)
    decreases |a|
  {
    if a == [] {
      assert a + b == b;
    } else {
      assert (a + b)[1..] == a[1..] + b;
      JointAppend(JointNext(t, a[0], content), a[1..], b, content);
    }
  }

  /** The current stream is idle with nothing stored, the abandoned one about to release. */
  ghost predicate Poised(t: Streams) {
    t.current.phase.Idle? && NothingStored(t.current) && t.current.steady == None
    && (t.late.Capturing? ==> !Shortcut(LateView(t), t.late.seen))
    && (t.late.ReleasingStale? || t.late.Capturing? || t.late.ReleasingEqual? || t.late.ReleasingRejected? || t.late.ReleasingAccepted?)
  }

  /** It gets there from every phase that may release. */
  lemma BecomesPoised(t: Streams, content: Inputs -> nat) returns (events: seq<Joint>)
    requires t.current.phase.Idle? && NothingStored(t.current) && t.current.steady == None
    requires MayRelease(t.late) && (t.late.Committing? ==> t.committing)
    ensures IsJointRun(t, events, content) && Poised(JointAfter(t, events, content))
  {
    events := [];
    if t.late.Capturing? && t.steady.Some? {
      var e := Edit(t.steady.value.inputs + 1);
      JointTo(t, Own(e), [], content); events := [Own(e)];
    } else if t.late.Comparing? {
      var next := JointNext(t, Late(Compare), content);
      events := [Late(ClearEqual)];
      JointTo(next, Late(ClearEqual), [], content);
      JointTo(t, Late(Compare), events, content); events := [Late(Compare)] + events;
    } else if t.late.ClearingEqual? {
      JointTo(t, Late(ClearEqual), [], content); events := [Late(ClearEqual)];
    } else if t.late.Checking? {
      var next := JointNext(t, Late(Reject), content);
      JointTo(next, Late(ClearRejected), [], content); events := [Late(ClearRejected)];
      JointTo(t, Late(Reject), events, content); events := [Late(Reject)] + events;
    } else if t.late.ClearingRejected? {
      JointTo(t, Late(ClearRejected), [], content); events := [Late(ClearRejected)];
    } else if t.late.Committing? {
      var e := Accept(t.late.pending.snapshot);
      JointTo(t, Late(e), [], content); events := [Late(e)];
    }
  }

  /** Its release drops the pins of a snapshot the current stream has just taken. */
  lemma LateRelease(t: Streams, content: Inputs -> nat) returns (events: seq<Joint>)
    requires Poised(t)
    ensures IsJointRun(t, events, content) && !Held(JointAfter(t, events, content).current)
  {
    var ref := ReleasedRef(t.late);
    var commit := NewCommit(t.current.used);
    var s1 := JointNext(t, Own(Start), content);
    var s2 := JointNext(s1, Own(Capture(commit, ref)), content);
    var more := NewCommit(s2.current.used);
    var e := ReleaseOf(t.late, more);
    JointTo(s2, Late(e), [], content); events := [Late(e)];
    JointTo(s1, Own(Capture(commit, ref)), events, content); events := [Own(Capture(commit, ref))] + events;
    JointTo(t, Own(Start), events, content); events := [Own(Start)] + events;
  }

  function ReleasedRef(phase: Phase): nat {
    match phase
    case ReleasingStale(stale, _) => stale.snapshot.ref
    case ReleasingEqual(snapshot, _) => snapshot.ref
    case ReleasingRejected(p) => p.snapshot.ref
    case ReleasingAccepted(p, _) => p.snapshot.ref
    case _ => 0
  }

  function ReleaseOf(phase: Phase, commit: nat): Event {
    match phase
    case ReleasingStale(_, _) => ReleaseStale
    case ReleasingEqual(_, _) => ReleaseEqual
    case ReleasingRejected(_) => ReleaseRejected
    case ReleasingAccepted(_, _) => ReleaseAccepted
    case _ => Discard(commit, 0)
  }

  /** From any state a run of one stream reaches, its caller moving the base as it does: once the stream is
      abandoned, whatever may still be committed stays pinned in every run of both if and only if the
      abandoned capture cannot release the publication any more. */
  lemma AbandonedPins(committed: Option<Snapshot>, inputs: Inputs, before: seq<Event>, content: Inputs -> nat)
    requires IsRun(Initial(committed, inputs), before, content) && Disciplined(Initial(committed, inputs), before, content)
    ensures var s := After(Initial(committed, inputs), before, content);
            ((forall events :: IsJointRun(Abandoned(s), events, content) ==> Held(JointAfter(Abandoned(s), events, content).current))
              <==> !MayRelease(s.phase))
  {
    var s := After(Initial(committed, inputs), before, content);
    var t := Abandoned(s);
    RunKeepsHeld(Initial(committed, inputs), before, content);
    if MayRelease(s.phase) {
      var a := BecomesPoised(t, content);
      var b := LateRelease(JointAfter(t, a, content), content);
      JointAppend(t, a, b, content);
    } else {
      forall events | IsJointRun(t, events, content) ensures Held(JointAfter(t, events, content).current) {
        HarmlessHolds(t, events, content);
      }
    }
  }

  /** Such a run: a stream is abandoned while its capture is being made, the next one is about to publish
      its own under the same id, and the first, captured across a write, is discarded. */
  lemma LateDiscardUnpins(content: Inputs -> nat) returns (before: seq<Event>, events: seq<Joint>)
    ensures IsRun(Initial(None, 0), before, content) && Disciplined(Initial(None, 0), before, content)
    ensures IsJointRun(Abandoned(After(Initial(None, 0), before, content)), events, content)
    ensures var t := JointAfter(Abandoned(After(Initial(None, 0), before, content)), events, content).current;
            t.phase.Writing? && t.row == Some(t.phase.pending) && t.phase.pending.base == BaseOf(t.committed) && t.pins == {}
  {
    before := [Start];
    RunOne(Initial(None, 0), Start, content);
    var t := Abandoned(After(Initial(None, 0), before, content));
    events := OwnToWriting(t, 0, content);
    var t5 := JointAfter(t, events, content);
    JointTo(t5, Late(Discard(1, 0)), [], content);
    JointAppend(t, events, [Late(Discard(1, 0))], content);
    events := events + [Late(Discard(1, 0))];
  }

  /** The current stream takes a snapshot and is about to publish it. */
  lemma OwnToWriting(t: Streams, commit: nat, content: Inputs -> nat) returns (events: seq<Joint>)
    requires t.current.phase.Idle? && NothingStored(t.current) && t.current.steady == None && commit !in t.current.used
    requires t.current.committed.Some? ==> t.current.committed.value.content != content(t.current.inputs)
    ensures IsJointRun(t, events, content)
    ensures var p := Pending(Snapshot(content(t.current.inputs), commit, 0), BaseOf(t.current.committed));
            var own := t.current.(used := t.current.used + {commit}, pins := t.current.pins + {p.snapshot}, row := Some(p), unpublished := Some(p), phase := Writing(p));
            JointAfter(t, events, content) == t.(current := own)
  {
    var t1 := JointNext(t, Own(Start), content);
    var t2 := JointNext(t1, Own(Capture(commit, 0)), content);
    var rest := OwnFromComparing(t2, content);
    JointTo(t1, Own(Capture(commit, 0)), rest, content); events := [Own(Capture(commit, 0))] + rest;
    JointTo(t, Own(Start), events, content); events := [Own(Start)] + events;
  }

  lemma OwnFromComparing(t: Streams, content: Inputs -> nat) returns (events: seq<Joint>)
    requires t.current.phase.Comparing? && var p := t.current.phase; p.seen.Some? ==> p.seen.value.content != p.snapshot.content
    ensures IsJointRun(t, events, content)
    ensures var p := Pending(t.current.phase.snapshot, BaseOf(t.current.phase.seen));
            JointAfter(t, events, content) == t.(current := t.current.(row := Some(p), unpublished := Some(p), phase := Writing(p)))
  {
    var t3 := JointNext(t, Own(Compare), content);
    var t4 := JointNext(t3, Own(Save), content);
    JointTo(t4, Own(Preflight), [], content); events := [Own(Preflight)];
    JointTo(t3, Own(Save), events, content); events := [Own(Save)] + events;
    JointTo(t, Own(Compare), events, content); events := [Own(Compare)] + events;
  }

  // ------------------------------------------------------------------ a late clearing

  /** A capture aborted in `phase` may still clear the journal row. */
  predicate MayClear(phase: Phase) {
    match phase
    case ReleasingStale(_, _) => true
    case ClearingStale(_, _) => true
    case Comparing(snapshot, seen, taken, _) => !taken && seen.Some? && seen.value.content == snapshot.content
    case ClearingEqual(_, _, taken, _) => !taken
    case Checking(_, taken) => taken
    case ClearingRejected(_) => true
    case Committing(_) => true
    case _ => false
  }

  /** No step of the abandoned capture takes the current stream's journal row away. */
  ghost predicate RowsKept(t: Streams, events: seq<Joint>, content: Inputs -> nat)
    requires IsJointRun(t, events, content)
    decreases |events|
  {
    events != [] ==>
      && (events[0].Late? ==> JointNext(t, events[0], content).current.row == t.current.row)
      && RowsKept(JointNext(t, events[0], content), events[1..], content)
  }

  lemma LateKeepsRow(t: Streams, e: Event, content: Inputs -> nat)
    requires LateEnabled(t, e) && !t.committing && (MayClear(t.late) ==> t.late.Committing?)
    ensures var next := JointNext(t, Late(e), content);
            next.current.row == t.current.row && !next.committing && (MayClear(next.late) ==> next.late.Committing?)
  {
  }

  lemma {:induction false} KeepsRows(t: Streams, events: seq<Joint>, content: Inputs -> nat)
    requires IsJointRun(t, events, content) && !t.committing && (MayClear(t.late) ==> t.late.Committing?)
    ensures RowsKept(t, events, content)
    decreases |events|
  {
    if events != [] {
      if events[0].Late? { LateKeepsRow(t, events[0].event, content); }
      KeepsRows(JointNext(t, events[0], content), events[1..], content);
    }
  }

  /** The step that clears the row, once it is next. */
  function ClearOf(phase: Phase): Event {
    match phase
    case ClearingStale(_, _) => ClearStale
    case ClearingEqual(_, _, _, _) => ClearEqual
    case ClearingRejected(_) => ClearRejected
    case _ => CommitOf(phase)
  }

  function CommitOf(phase: Phase): Event {
    if phase.Committing? then Accept(phase.pending.snapshot) else Throw
  }

  predicate ClearsNext(t: Streams) {
    t.late.ClearingStale? || (t.late.ClearingEqual? && !t.late.taken) || t.late.ClearingRejected? || (t.late.Committing? && t.committing)
  }

  /** From every phase that may clear it gets there without touching anything but the pins. */
  lemma BecomesClearing(t: Streams, content: Inputs -> nat) returns (events: seq<Joint>)
    requires MayClear(t.late) && (t.late.Committing? ==> t.committing)
    ensures IsJointRun(t, events, content)
    ensures var next := JointAfter(t, events, content);
            ClearsNext(next) && next.current == t.current.(pins := next.current.pins)
  {
    events := [];
    if t.late.ReleasingStale? {
      JointTo(t, Late(ReleaseStale), [], content); events := [Late(ReleaseStale)];
    } else if t.late.Comparing? {
      JointTo(t, Late(Compare), [], content); events := [Late(Compare)];
    } else if t.late.Checking? {
      JointTo(t, Late(Reject), [], content); events := [Late(Reject)];
    }
  }

  lemma ClearTakesRow(t: Streams, content: Inputs -> nat)
    requires ClearsNext(t) && t.current.row.Some?
    ensures IsJointRun(t, [Late(ClearOf(t.late))], content) && !RowsKept(t, [Late(ClearOf(t.late))], content)
  {
    JointTo(t, Late(ClearOf(t.late)), [], content);
  }

  /** The current stream journals a snapshot, and the abandoned one takes the row away. */
  lemma LateClear(t: Streams, content: Inputs -> nat) returns (events: seq<Joint>)
    requires t.current.phase.Idle? && NothingStored(t.current) && t.current.steady == None && ClearsNext(t)
    ensures IsJointRun(t, events, content) && !RowsKept(t, events, content)
  {
    var e := MoveBase(Snapshot(content(t.current.inputs) + 1, 0, 0));
    var t1 := JointNext(t, Own(e), content);
    var commit := NewCommit(t1.current.used);
    var journalled := OwnToWriting(t1, commit, content);
    var t2 := JointAfter(t1, journalled, content);
    var clear := Late(ClearOf(t2.late));
    ClearTakesRow(t2, content);
    JointAppend(t1, journalled, [clear], content);
    NotKept(t1, journalled, [clear], content);
    JointTo(t, Own(e), journalled + [clear], content);
    assert ([Own(e)] + (journalled + [clear]))[1..] == journalled + [clear];
    events := [Own(e)] + (journalled + [clear]);
  }

  lemma {:induction false} NotKept(t: Streams, a: seq<Joint>, b: seq<Joint>, content: Inputs -> nat)
    requires IsJointRun(t, a, content) && IsJointRun(JointAfter(t, a, content), b, content) && IsJointRun(t, a + b, content)
    requires !RowsKept(JointAfter(t, a, content), b, content)
    ensures !RowsKept(t, a + b, content)
    decreases |a|
  {
    if a == [] {
      assert a + b == b;
    } else {
      assert (a + b)[1..] == a[1..] + b;
      NotKept(JointNext(t, a[0], content), a[1..], b, content);
    }
  }

  /** The same of the journal row: the next stream's row is its own in every run of both if and only if the
      abandoned capture cannot clear it any more. */
  lemma AbandonedRow(committed: Option<Snapshot>, inputs: Inputs, before: seq<Event>, content: Inputs -> nat)
    requires IsRun(Initial(committed, inputs), before, content)
    ensures var s := After(Initial(committed, inputs), before, content);
            ((forall events :: IsJointRun(Abandoned(s), events, content) ==> RowsKept(Abandoned(s), events, content)) <==> !MayClear(s.phase))
  {
    var s := After(Initial(committed, inputs), before, content);
    var t := Abandoned(s);
    if MayClear(s.phase) {
      var a := BecomesClearing(t, content);
      var b := LateClear(JointAfter(t, a, content), content);
      JointAppend(t, a, b, content);
      NotKept(t, a, b, content);
    } else {
      forall events | IsJointRun(t, events, content) ensures RowsKept(t, events, content) {
        KeepsRows(t, events, content);
      }
    }
  }
}
