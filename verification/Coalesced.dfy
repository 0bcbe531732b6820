/** Requests sharing runs (`coalesced` in `coalesced.ts`): a request starts a run, or joins the one
    that will follow the run in flight. */
module Coalesced {
  import opened Objects

  datatype Run = Run(beganAt: nat, settled: bool)

  /** The successor queued behind the run `behind`, and the run it became. */
  datatype Successor = Successor(behind: nat, run: Option<nat>)

  /** What answers a request: a run it started, or a successor. */
  datatype Answer = ByRun(run: nat) | BySuccessor(successor: nat)

  datatype Request = Request(at: nat, answer: Answer)

  /** `active` and `next` are the closure's variables; the rest records what happened. */
  datatype State = State(active: Option<nat>, next: Option<nat>, runs: seq<Run>, successors: seq<Successor>, requests: seq<Request>, now: nat)

  /** `Settle` also stands for a run that fails: a successor starts either way. */
  datatype Event = Call | Settle(run: nat) | StartNext(successor: nat)

  predicate Enabled(s: State, e: Event) {
    match e
    case Call => true
    case Settle(run) => run < |s.runs| && !s.runs[run].settled
    case StartNext(i) =>
      && i < |s.successors| && s.successors[i].run.None?
      && s.successors[i].behind < |s.runs| && s.runs[s.successors[i].behind].settled
  }

  function Started(s: State): State {
    s.(active := Some(|s.runs|), runs := s.runs + [Run(s.now, false)])
  }

  function Next(s: State, e: Event): State
    requires Enabled(s, e)
  {
    var t := s.(now := s.now + 1);
    match e
    case Call =>
      if s.active.None? then
        Started(s).(requests := s.requests + [Request(s.now, ByRun(|s.runs|))], now := s.now + 1)
      else if s.next.None? then
        t.(next := Some(|s.successors|), successors := s.successors + [Successor(s.active.value, None)],
           requests := s.requests + [Request(s.now, BySuccessor(|s.successors|))])
      else t.(requests := s.requests + [Request(s.now, BySuccessor(s.next.value))])
    case Settle(run) =>
      t.(runs := s.runs[run := s.runs[run].(settled := true)], active := if s.active == Some(run) then None else s.active)
    case StartNext(i) =>
      Started(s).(next := None, successors := s.successors[i := s.successors[i].(run := Some(|s.runs|))], now := s.now + 1)
  }

  function Idle(): State {
    State(None, None, [], [], [], 0)
  }

  // ------------------------------------------------------------------ every sequence of events

  ghost predicate IsRun(s: State, events: seq<Event>)
    decreases |events|
  {
    events != [] ==> Enabled(s, events[0]) && IsRun(Next(s, events[0]), events[1..])
  }

  ghost function After(s: State, events: seq<Event>): State
    requires IsRun(s, events)
    decreases |events|
  {
    if events == [] then s else After(Next(s, events[0]), events[1..])
  }

  /** The newest run is in flight. */
  predicate Busy(s: State) {
    s.runs != [] && !s.runs[|s.runs| - 1].settled
  }

  /** Only the newest successor can be waiting, and it is `next`; `active` is the newest run while it is
      in flight. */
  ghost predicate QueueInv(s: State) {
    && (s.next.Some? ==> s.next.value < |s.successors| && s.successors[s.next.value].run.None?)
    && s.active == (if Busy(s) then Some(|s.runs| - 1) else None)
    && |s.runs| + (if s.next.Some? then 1 else 0) <= |s.requests|
    && (forall i :: 0 <= i < |s.successors| ==>
          && s.successors[i].behind < |s.runs|
          && (s.successors[i].run.None? ==> s.next == Some(i))
          && (s.successors[i].run.Some? ==> s.successors[i].run.value < |s.runs|))
    && (forall r :: 0 <= r < |s.runs| ==> s.runs[r].beganAt < s.now)
  }

  /** A request is answered by a run that began no earlier than it; a joined successor is newer
      than every run that began before the request. */
  ghost predicate RequestInv(s: State, q: Request) {
    && q.at < s.now
    && match q.answer
       case ByRun(r) => r < |s.runs| && s.runs[r].beganAt == q.at
       case BySuccessor(i) =>
         && i < |s.successors|
         && (s.successors[i].run.Some? ==> s.successors[i].run.value < |s.runs| && q.at < s.runs[s.successors[i].run.value].beganAt)
  }

  ghost predicate Inv(s: State) {
    QueueInv(s) && forall i :: 0 <= i < |s.requests| ==> RequestInv(s, s.requests[i])
  }

  /** Two requests that joined different successors: the first had started when the second came. */
  ghost predicate SharedInv(s: State) {
    forall i, j :: 0 <= i < j < |s.requests| && Apart(s.requests[i], s.requests[j]) ==>
      StartedBefore(s, s.requests[i].answer.successor, s.requests[j].at)
  }

  predicate Apart(a: Request, b: Request) {
    a.answer.BySuccessor? && b.answer.BySuccessor? && a.answer != b.answer
  }

  predicate StartedBefore(s: State, successor: nat, at: nat) {
    && successor < |s.successors| && s.successors[successor].run.Some?
    && s.successors[successor].run.value < |s.runs| && s.runs[s.successors[successor].run.value].beganAt < at
  }

  lemma StepKeepsQueue(s: State, e: Event)
    requires QueueInv(s) && Enabled(s, e)
    ensures QueueInv(Next(s, e))
  {
  }

  lemma StepKeepsRequest(s: State, e: Event, i: nat)
    requires QueueInv(s) && Enabled(s, e) && i < |Next(s, e).requests|
    requires i < |s.requests| ==> RequestInv(s, s.requests[i])
    ensures RequestInv(Next(s, e), Next(s, e).requests[i])
  {
  }

  lemma StepKeepsInv(s: State, e: Event)
    requires Inv(s) && Enabled(s, e)
    ensures Inv(Next(s, e))
  {
    StepKeepsQueue(s, e);
    forall i | 0 <= i < |Next(s, e).requests| ensures RequestInv(Next(s, e), Next(s, e).requests[i]) {
      StepKeepsRequest(s, e, i);
    }
  }

  lemma StepKeepsShared(s: State, e: Event)
    requires Inv(s) && SharedInv(s) && Enabled(s, e)
    ensures SharedInv(Next(s, e))
  {
    var t := Next(s, e);
    forall i, j | 0 <= i < j < |t.requests| && Apart(t.requests[i], t.requests[j])
      ensures StartedBefore(t, t.requests[i].answer.successor, t.requests[j].at)
    {
      var k := t.requests[i].answer.successor;
      assert RequestInv(s, s.requests[i]);
      if j < |s.requests| {
        assert StartedBefore(s, k, s.requests[j].at);
      } else {
        assert s.successors[k].run.Some? by {
          assert s.successors[k].run.None? ==> s.next == Some(k);
        }
      }
    }
  }

  lemma {:induction false} RunKeepsInv(s: State, events: seq<Event>)
    requires Inv(s) && SharedInv(s) && IsRun(s, events)
    ensures Inv(After(s, events)) && SharedInv(After(s, events))
    decreases |events|
  {
    if events != [] {
      StepKeepsInv(s, events[0]);
      StepKeepsShared(s, events[0]);
      RunKeepsInv(Next(s, events[0]), events[1..]);
    }
  }

  /** For any interleaving of requests, completions and failures, no request is answered by a run
      that began before it, and a request that waits for a successor waits for the only one queued,
      which starts as soon as the run before it settles. */
  lemma NoRequestAnsweredStale(events: seq<Event>, i: nat)
    requires IsRun(Idle(), events) && i < |After(Idle(), events).requests|
    ensures var s := After(Idle(), events);
            var q := s.requests[i];
            match q.answer
            case ByRun(r) => r < |s.runs| && q.at <= s.runs[r].beganAt
            case BySuccessor(k) =>
              && k < |s.successors|
              && (s.successors[k].run.Some? ==> s.successors[k].run.value < |s.runs| && q.at < s.runs[s.successors[k].run.value].beganAt)
              && (s.successors[k].run.None? ==>
                    s.next == Some(k) && s.successors[k].behind < |s.runs|
                    && (Enabled(s, StartNext(k)) <==> s.runs[s.successors[k].behind].settled))
  {
    RunKeepsInv(Idle(), events);
    var s := After(Idle(), events);
    assert RequestInv(s, s.requests[i]);
  }

  /** A request starts a run exactly when the newest run is not in flight; otherwise it queues a
      successor behind that run exactly when none is queued.  There are never more runs than requests. */
  lemma StartsOnlyWhenIdle(events: seq<Event>)
    requires IsRun(Idle(), events)
    ensures var s := After(Idle(), events);
            && (|Next(s, Call).runs| > |s.runs| <==> !Busy(s))
            && (|Next(s, Call).successors| > |s.successors| <==> Busy(s) && forall k :: 0 <= k < |s.successors| ==> s.successors[k].run.Some?)
            && |s.runs| <= |s.requests|
  {
    RunKeepsInv(Idle(), events);
    var s := After(Idle(), events);
    assert s.next.Some? ==> s.successors[s.next.value].run.None?;
  }

  /** All requests that join a successor before it starts join the same one. */
  lemma RequestsShareOneSuccessor(events: seq<Event>, i: nat, j: nat)
    requires IsRun(Idle(), events)
    requires var s := After(Idle(), events);
             && i < j < |s.requests| && s.requests[i].answer.BySuccessor? && s.requests[j].answer.BySuccessor?
             && !StartedBefore(s, s.requests[i].answer.successor, s.requests[j].at)
    ensures var s := After(Idle(), events); s.requests[i].answer == s.requests[j].answer
  {
    RunKeepsInv(Idle(), events);
  }

  lemma RunsTo(s: State, e: Event, events: seq<Event>)
    requires Enabled(s, e) && IsRun(Next(s, e), events)
    ensures IsRun(s, [e] + events) && After(s, [e] + events) == After(Next(s, e), events)
  {
    assert ([e] + events)[1..] == events;
  }

  /** Two runs can be in flight: a request between the end of one run and the start of its queued
      successor starts a run of its own. */
  lemma RunsCanOverlap() returns (events: seq<Event>)
    ensures IsRun(Idle(), events)
    ensures var s := After(Idle(), events); |s.runs| == 3 && !s.runs[1].settled && !s.runs[2].settled
  {
    var s0 := Idle();
    var s1 := Next(s0, Call);
    var s2 := Next(s1, Call);
    var s3 := Next(s2, Settle(0));
    var s4 := Next(s3, Call);
    events := [];
    RunsTo(s4, StartNext(0), events); events := [StartNext(0)] + events;
    RunsTo(s3, Call, events); events := [Call] + events;
    RunsTo(s2, Settle(0), events); events := [Settle(0)] + events;
    RunsTo(s1, Call, events); events := [Call] + events;
    RunsTo(s0, Call, events); events := [Call] + events;
  }

  // ------------------------------------------------------------------ the closure itself

  class Coalescer {
    var active: Option<nat>
    var next: Option<nat>
    var runs: seq<Run>
    var successors: seq<Successor>
    var requests: seq<Request>
    var now: nat

    function Contents(): State
      reads this
    {
      State(active, next, runs, successors, requests, now)
    }

    constructor ()
      ensures Contents() == Idle()
    {
      active, next, runs, successors, requests, now := None, None, [], [], [], 0;
    }

    method Start() returns (run: nat)
      modifies this`runs, this`active
      ensures run == |old(runs)| && runs == old(runs) + [Run(now, false)] && active == Some(run)
    {
      run := |runs|;
      runs := runs + [Run(now, false)];
      active := Some(run);
    }

    /** A request, answered by a run it starts or by the one successor. */
    method Ask() returns (answer: Answer)
      modifies this
      ensures Contents() == Next(old(Contents()), Call)
      ensures requests == old(requests) + [Request(old(now), answer)]
    {
      if active.None? {
        var run := Start();
        answer := ByRun(run);
      } else {
        if next.None? {
          next := Some(|successors|);
          successors := successors + [Successor(active.value, None)];
        }
        answer := BySuccessor(next.value);
      }
      requests, now := requests + [Request(now, answer)], now + 1;
    }

    /** A run settles; only the active one clears `active`. */
    method RunSettles(run: nat)
      requires Enabled(Contents(), Settle(run))
      modifies this
      ensures Contents() == Next(old(Contents()), Settle(run))
    {
      runs := runs[run := runs[run].(settled := true)];
      if active == Some(run) { active := None; }
      now := now + 1;
    }

    /** The successor's turn. */
    method SuccessorStarts(successor: nat)
      requires Enabled(Contents(), StartNext(successor))
      modifies this
      ensures Contents() == Next(old(Contents()), StartNext(successor))
    {
      next := None;
      var run := Start();
      successors := successors[successor := successors[successor].(run := Some(run))];
      now := now + 1;
    }
  }
}
