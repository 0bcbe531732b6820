/** Which file events start a capture (`watchGitWorktree` in `git-worktree-watch.ts`): events wait
    for a classification that asks git which paths are ignored, while the answers it may use are
    invalidated under it. */
module WorktreeWatch {
  import opened Objects

  const CACHE_LIMIT := 4096

  /** How an event's path was decided: the answer, the generation git was asked in, and the
      generation of the decision. */
  datatype Decision = Decision(ignored: bool, asked: nat, decidedIn: nat)

  /** A handler waits for a classification, or has returned from a watch that was open or not, or has
      failed with a classification. */
  datatype Progress = Waiting(on: nat) | Returned(open: bool) | Rejected(cause: nat)

  /** An event being handled.  `decision` is the first about its path since it arrived, `failed` that a
      classification that had its path failed, `since` the changes reported before it arrived. */
  datatype Handler = Handler(name: Path, progress: Progress, decision: Option<Decision>, failed: bool, since: nat)

  /** The paths a batch took, those it asks git about, the generation it asks in, and whether a
      cached answer already makes it relevant. */
  datatype Batch = Batch(paths: set<Path>, unknown: seq<Path>, version: nat, relevant: bool)

  /** A classification; `Settled` once `processing` no longer names it. */
  datatype Classification = Running | Asking(batch: Batch) | Ended(failed: bool) | Settled(failed: bool)

  /** A cached answer and the generation it was asked in. */
  datatype Answer = Answer(ignored: bool, asked: nat)

  /** `runs` are all classifications ever started; `processing` is the closure's variable. */
  datatype State = State(cache: map<Path, Answer>, generation: nat, closed: bool, pending: set<Path>, processing: Option<nat>,
                         runs: seq<Classification>, handlers: seq<Handler>, changes: nat)

  datatype Event =
    | Arrive(name: Path)
    | TakeBatch(run: nat, order: seq<Path>)
    | GitAnswers(run: nat, ignored: set<Path>)
    | GitFails(run: nat)
    | Settle(run: nat)
    | Resume(handler: nat)
    | Invalidate
    | Close

  function Elements(paths: seq<Path>): set<Path> {
    set p | p in paths
  }

  predicate Distinct(paths: seq<Path>) {
    forall i, j :: 0 <= i < j < |paths| ==> paths[i] != paths[j]
  }

  predicate Enabled(s: State, e: Event) {
    match e
    case TakeBatch(r, order) => r < |s.runs| && s.runs[r].Running? && Distinct(order) && Elements(order) == s.pending - s.cache.Keys
    case GitAnswers(r, _) => r < |s.runs| && s.runs[r].Asking?
    case GitFails(r) => r < |s.runs| && s.runs[r].Asking?
    case Settle(r) => r < |s.runs| && s.runs[r].Ended?
    case Resume(i) =>
      && i < |s.handlers| && s.handlers[i].progress.Waiting?
      && s.handlers[i].progress.on < |s.runs| && s.runs[s.handlers[i].progress.on].Settled?
    case _ => true
  }

  /** Every event not decided yet learns the answer for its path. */
  function Decided(handlers: seq<Handler>, answers: map<Path, Answer>, generation: nat): seq<Handler> {
    seq(|handlers|, i requires 0 <= i < |handlers| =>
      var h := handlers[i];
      if h.decision.None? && h.name in answers
      then h.(decision := Some(Decision(answers[h.name].ignored, answers[h.name].asked, generation)))
      else h)
  }

  /** The classification of `paths` failed. */
  function Lost(handlers: seq<Handler>, paths: set<Path>): seq<Handler> {
    seq(|handlers|, i requires 0 <= i < |handlers| => if handlers[i].name in paths then handlers[i].(failed := true) else handlers[i])
  }

  /** The last answers that fit; the rest is forgotten. */
  function Kept(unknown: seq<Path>): seq<Path> {
    if |unknown| <= CACHE_LIMIT then unknown else unknown[|unknown| - CACHE_LIMIT..]
  }

  function Noted(unknown: seq<Path>, ignored: set<Path>, generation: nat): map<Path, Answer> {
    map p | p in unknown :: Answer(p in ignored, generation)
  }

  function Remembered(cache: map<Path, Answer>, unknown: seq<Path>, ignored: set<Path>, generation: nat): map<Path, Answer> {
    (if |cache| + |unknown| > CACHE_LIMIT then map[] else cache) + Noted(Kept(unknown), ignored, generation)
  }

  lemma NotedNone(base: map<Path, Answer>, ignored: set<Path>, generation: nat)
    ensures base + Noted([], ignored, generation) == base
  {
  }

  lemma NotedNext(base: map<Path, Answer>, unknown: seq<Path>, i: nat, ignored: set<Path>, generation: nat)
    requires i < |unknown|
    ensures base + Noted(unknown[..i + 1], ignored, generation)
         == (base + Noted(unknown[..i], ignored, generation))[unknown[i] := Answer(unknown[i] in ignored, generation)]
  {
    assert unknown[..i + 1] == unknown[..i] + [unknown[i]];
  }

  /** The answers a batch is decided by. */
  function Answers(cache: map<Path, Answer>, paths: set<Path>, unknown: seq<Path>, ignored: set<Path>, version: nat): map<Path, Answer> {
    map p | p in paths && (p in unknown || p in cache) :: if p in unknown then Answer(p in ignored, version) else cache[p]
  }

  /** The handler of `name` waits for the classification in progress, or starts one. */
  function Awaiting(s: State): (nat, seq<Classification>) {
    if s.processing.Some? then (s.processing.value, s.runs) else (|s.runs|, s.runs + [Running])
  }

  function Next(s: State, e: Event): State
    requires Enabled(s, e)
  {
    match e
    case Arrive(name) =>
      if s.closed then s.(handlers := s.handlers + [Handler(name, Returned(false), None, false, s.changes)])
      else
        var (run, runs) := Awaiting(s);
        s.(pending := s.pending + {name}, processing := Some(run), runs := runs,
           handlers := s.handlers + [Handler(name, Waiting(run), None, false, s.changes)])
    case TakeBatch(r, order) =>
      if s.pending == {} || s.closed then s.(runs := s.runs[r := Ended(false)])
      else
        var relevant := exists p :: p in s.pending && p in s.cache && !s.cache[p].ignored;
        if order == [] then
          s.(pending := {}, changes := if relevant then s.changes + 1 else s.changes,
             handlers := Decided(s.handlers, Answers(s.cache, s.pending, [], {}, s.generation), s.generation))
        else s.(pending := {}, runs := s.runs[r := Asking(Batch(s.pending, order, s.generation, relevant))])
    case GitAnswers(r, ignored) =>
      var b := s.runs[r].batch;
      if s.closed then s.(runs := s.runs[r := Ended(false)])
      else if b.version != s.generation then s.(pending := s.pending + b.paths, runs := s.runs[r := Running])
      else
        var relevant := b.relevant || exists p :: p in b.unknown && p !in ignored;
        s.(cache := Remembered(s.cache, b.unknown, ignored, s.generation), runs := s.runs[r := Running],
           changes := if relevant then s.changes + 1 else s.changes,
           handlers := Decided(s.handlers, Answers(s.cache, b.paths, b.unknown, ignored, b.version), s.generation))
    case GitFails(r) => s.(runs := s.runs[r := Ended(true)], handlers := Lost(s.handlers, s.runs[r].batch.paths))
    case Settle(r) => s.(runs := s.runs[r := Settled(s.runs[r].failed)], processing := None)
    case Resume(i) =>
      var h := s.handlers[i];
      if s.runs[h.progress.on].failed then s.(handlers := s.handlers[i := h.(progress := Rejected(h.progress.on))])
      else if h.name in s.pending && !s.closed then
        var (run, runs) := Awaiting(s);
        s.(processing := Some(run), runs := runs, handlers := s.handlers[i := h.(progress := Waiting(run))])
      else s.(handlers := s.handlers[i := h.(progress := Returned(!s.closed))])
    case Invalidate => s.(generation := s.generation + 1, cache := map[])
    case Close => s.(closed := true, pending := {}, cache := map[])
  }

  function Started(): State {
    State(map[], 0, false, {}, None, [], [], 0)
  }

  // ------------------------------------------------------------------ every run

  ghost predicate IsRun(s: State, events: seq<Event>)
    decreases |events|
  {
    events != [] ==> Enabled(s, events[0]) && IsRun(Next(s, events[0]), events[1..])
  }

  ghost function After(s: State, events: seq<Event>): State
    requires IsRun(s, events)
    decreases |events|
  {
    if events == [] then s else After(Next(s, events[0]), events[1..])
  }

  /** The path is waiting to be taken, or git is being asked about it. */
  ghost predicate Covered(s: State, name: Path) {
    || name in s.pending
    || (s.processing.Some? && s.processing.value < |s.runs| && s.runs[s.processing.value].Asking? && name in s.runs[s.processing.value].batch.paths)
  }

  /** An open watch never loses a path: it is decided, covered, or its classification failed. */
  ghost predicate HandlerInv(s: State, h: Handler) {
    && h.since <= s.changes
    && (h.decision.Some? ==>
          && h.decision.value.asked == h.decision.value.decidedIn
          && (!h.decision.value.ignored ==> h.since < s.changes))
    && (h.progress.Waiting? ==> h.progress.on < |s.runs|)
    && (h.progress.Rejected? ==> h.progress.cause < |s.runs| && s.runs[h.progress.cause] == Settled(true))
    && (!s.closed && h.decision.None? && !h.failed ==> Covered(s, h.name))
  }

  ghost predicate BatchInv(s: State, b: Batch) {
    && Distinct(b.unknown) && Elements(b.unknown) <= b.paths && b.version <= s.generation
    && (b.version == s.generation && !s.closed ==>
          && b.paths <= Elements(b.unknown) + s.cache.Keys
          && (b.relevant <==> exists p :: p in b.paths && p !in b.unknown && p in s.cache && !s.cache[p].ignored))
  }

  /** Only the classification `processing` names is not settled. */
  ghost predicate OneAtATime(s: State) {
    && (s.processing.Some? ==> s.processing.value < |s.runs| && !s.runs[s.processing.value].Settled?)
    && forall r :: 0 <= r < |s.runs| && !s.runs[r].Settled? ==> s.processing == Some(r)
  }

  /** Some handler waits for a classification until it has settled, and fails with one that failed. */
  ghost predicate Waited(s: State, r: nat)
    requires r < |s.runs|
  {
    s.runs[r] == Settled(false) || exists i :: 0 <= i < |s.handlers| && (s.handlers[i].progress == Waiting(r) || s.handlers[i].progress == Rejected(r))
  }

  ghost predicate CacheInv(s: State) {
    |s.cache| <= CACHE_LIMIT && forall p :: p in s.cache ==> s.cache[p].asked == s.generation
  }

  ghost predicate Inv(s: State) {
    && CacheInv(s) && OneAtATime(s)
    && (forall r :: 0 <= r < |s.runs| && s.runs[r].Asking? ==> BatchInv(s, s.runs[r].batch))
    && (forall r :: 0 <= r < |s.runs| ==> Waited(s, r))
    && forall i :: 0 <= i < |s.handlers| ==> HandlerInv(s, s.handlers[i])
  }

  lemma {:induction false} SizeOfElements(paths: seq<Path>)
    ensures |Elements(paths)| <= |paths|
  {
    if paths != [] {
      SizeOfElements(paths[1..]);
      assert Elements(paths) == {paths[0]} + Elements(paths[1..]);
    }
  }

  /** The cache never grows past its limit, and within it remembers every answer, forgetting none. */
  lemma RememberedBounded(cache: map<Path, Answer>, unknown: seq<Path>, ignored: set<Path>, generation: nat)
    requires |cache| <= CACHE_LIMIT
    ensures |Remembered(cache, unknown, ignored, generation)| <= CACHE_LIMIT
    ensures |unknown| <= CACHE_LIMIT ==> Elements(unknown) <= Remembered(cache, unknown, ignored, generation).Keys
    ensures |cache| + |unknown| <= CACHE_LIMIT ==> cache.Keys <= Remembered(cache, unknown, ignored, generation).Keys
  {
    var base := if |cache| + |unknown| > CACHE_LIMIT then map[] else cache;
    var after := Remembered(cache, unknown, ignored, generation);
    assert after.Keys == base.Keys + Elements(Kept(unknown));
    SizeOfElements(Kept(unknown));
    UnionSize(base.Keys, Elements(Kept(unknown)));
  }

  lemma UnionSize(a: set<Path>, b: set<Path>)
    ensures |a + b| <= |a| + |b|
  {
    assert a + b == a + (b - a);
    assert b == (b - a) + (b * a);
  }

  // ------------------------------------------------------------------ decisions

  /** A batch whose answers are current has one for each of its paths. */
  lemma AnswersCurrent(s: State, b: Batch, ignored: set<Path>)
    requires CacheInv(s) && BatchInv(s, b) && !s.closed && b.version == s.generation
    ensures var answers := Answers(s.cache, b.paths, b.unknown, ignored, b.version);
            answers.Keys == b.paths && (forall p :: p in b.unknown ==> p in b.paths) && forall p :: p in answers ==> answers[p].asked == s.generation
  {
    forall p | p in b.paths ensures p in b.unknown || p in s.cache {
      assert p in Elements(b.unknown) || p in s.cache;
    }
    forall p | p in b.unknown ensures p in b.paths {
      assert p in Elements(b.unknown);
    }
  }

  /** A decided batch reports a change exactly when one of its paths is not ignored. */
  lemma BatchRelevance(s: State, r: nat, ignored: set<Path>)
    requires Inv(s) && r < |s.runs| && s.runs[r].Asking? && !s.closed && s.runs[r].batch.version == s.generation
    ensures var b := s.runs[r].batch;
            var answers := Answers(s.cache, b.paths, b.unknown, ignored, b.version);
            && answers.Keys == b.paths && (forall p :: p in answers ==> answers[p].asked == s.generation)
            && (Next(s, GitAnswers(r, ignored)).changes > s.changes <==> exists p :: p in b.paths && !answers[p].ignored)
  {
    var b := s.runs[r].batch;
    AnswersCurrent(s, b, ignored);
    var answers := Answers(s.cache, b.paths, b.unknown, ignored, b.version);
    if b.relevant {
      var p :| p in b.paths && p !in b.unknown && p in s.cache && !s.cache[p].ignored;
      assert !answers[p].ignored;
    } else if p :| p in b.unknown && p !in ignored {
      assert !answers[p].ignored;
    }
  }

  lemma DecidedKeeps(s: State, t: State, answers: map<Path, Answer>, i: nat)
    requires i < |s.handlers| && HandlerInv(s, s.handlers[i])
    requires t.handlers == Decided(s.handlers, answers, s.generation) && |t.runs| == |s.runs| && t.closed == s.closed
    requires forall r :: 0 <= r < |s.runs| && s.runs[r] == Settled(true) ==> t.runs[r] == Settled(true)
    requires s.changes <= t.changes && ((exists p :: p in answers && !answers[p].ignored) ==> s.changes < t.changes)
    requires forall p :: p in answers ==> answers[p].asked == s.generation
    requires !s.closed && Covered(s, s.handlers[i].name) ==> s.handlers[i].name in answers || Covered(t, s.handlers[i].name)
    ensures HandlerInv(t, t.handlers[i])
  {
  }

  // ------------------------------------------------------------------ every step

  lemma RememberedKeeps(s: State, unknown: seq<Path>, ignored: set<Path>)
    requires CacheInv(s)
    ensures var cache := Remembered(s.cache, unknown, ignored, s.generation);
            |cache| <= CACHE_LIMIT && forall p :: p in cache ==> cache[p].asked == s.generation
  {
    RememberedBounded(s.cache, unknown, ignored, s.generation);
  }

  lemma StepKeepsCache(s: State, e: Event)
    requires CacheInv(s) && Enabled(s, e)
    ensures CacheInv(Next(s, e))
  {
    if e.GitAnswers? {
      RememberedKeeps(s, s.runs[e.run].batch.unknown, e.ignored);
    } else {
      OnlyAnswersCached(s, e);
    }
  }

  lemma OnlyAnswersCached(s: State, e: Event)
    requires Enabled(s, e) && !e.GitAnswers?
    ensures Next(s, e).cache == map[] || (Next(s, e).cache == s.cache && Next(s, e).generation == s.generation)
  {
  }

  lemma StepKeepsOne(s: State, e: Event)
    requires OneAtATime(s) && Enabled(s, e)
    ensures OneAtATime(Next(s, e))
  {
  }

  lemma TakenKeepsBatch(s: State, r: nat, order: seq<Path>)
    requires Enabled(s, TakeBatch(r, order)) && s.pending != {} && !s.closed && order != []
    ensures BatchInv(Next(s, TakeBatch(r, order)), Next(s, TakeBatch(r, order)).runs[r].batch)
  {
    forall p ensures p in order <==> p in s.pending && p !in s.cache {
      assert p in Elements(order) <==> p in order;
    }
  }

  lemma StepKeepsBatch(s: State, e: Event, r: nat)
    requires OneAtATime(s) && Enabled(s, e) && r < |Next(s, e).runs| && Next(s, e).runs[r].Asking?
    requires r < |s.runs| && s.runs[r].Asking? ==> BatchInv(s, s.runs[r].batch)
    ensures BatchInv(Next(s, e), Next(s, e).runs[r].batch)
  {
    if e.TakeBatch? && e.run == r { TakenKeepsBatch(s, r, e.order); } else { AskingStays(s, e, r); }
  }

  /** A batch being asked about is the same after any other step, and so are the answers it may use
      while they are current. */
  lemma AskingStays(s: State, e: Event, r: nat)
    requires OneAtATime(s) && Enabled(s, e) && r < |Next(s, e).runs| && Next(s, e).runs[r].Asking? && !(e.TakeBatch? && e.run == r)
    ensures r < |s.runs| && s.runs[r] == Next(s, e).runs[r] && s.generation <= Next(s, e).generation
    ensures Next(s, e).closed || s.generation < Next(s, e).generation || (Next(s, e).cache == s.cache && !s.closed)
  {
  }

  /** A step leaves each handler waiting for `r` where it is, or fails it with `r`, unless `r` has
      settled well. */
  lemma HandlerStays(s: State, e: Event, r: nat, i: nat)
    requires Enabled(s, e) && r < |s.runs| && i < |s.handlers| && s.runs[r] != Settled(false)
    requires s.handlers[i].progress == Waiting(r) || s.handlers[i].progress == Rejected(r)
    ensures |s.handlers| <= |Next(s, e).handlers|
    ensures Next(s, e).handlers[i].progress == Waiting(r) || Next(s, e).handlers[i].progress == Rejected(r)
  {
  }

  lemma StepKeepsWaited(s: State, e: Event, r: nat)
    requires Enabled(s, e) && r < |Next(s, e).runs| && (r < |s.runs| ==> Waited(s, r))
    ensures Waited(Next(s, e), r)
  {
    if r < |s.runs| {
      if s.runs[r] != Settled(false) {
        var i :| 0 <= i < |s.handlers| && (s.handlers[i].progress == Waiting(r) || s.handlers[i].progress == Rejected(r));
        HandlerStays(s, e, r, i);
      }
    } else if e.Arrive? {
      assert Next(s, e).handlers[|s.handlers|].progress == Waiting(r);
    } else {
      assert Next(s, e).handlers[e.handler].progress == Waiting(r);
    }
  }

  lemma AllCached(s: State, r: nat)
    requires Enabled(s, TakeBatch(r, []))
    ensures forall p :: p in s.pending ==> p in s.cache
  {
    assert Elements([]) == {};
    forall p | p in s.pending ensures p in s.cache {
      assert p !in s.pending - s.cache.Keys;
    }
  }

  lemma TakingKeeps(s: State, r: nat, order: seq<Path>, i: nat)
    requires CacheInv(s) && OneAtATime(s) && Enabled(s, TakeBatch(r, order)) && i < |s.handlers| && HandlerInv(s, s.handlers[i])
    ensures i < |Next(s, TakeBatch(r, order)).handlers| && HandlerInv(Next(s, TakeBatch(r, order)), Next(s, TakeBatch(r, order)).handlers[i])
  {
    if s.pending != {} && !s.closed && order == [] {
      AllCached(s, r);
      DecidedKeeps(s, Next(s, TakeBatch(r, order)), Answers(s.cache, s.pending, [], {}, s.generation), i);
    }
  }

  lemma AnsweringKeeps(s: State, r: nat, ignored: set<Path>, i: nat)
    requires Inv(s) && Enabled(s, GitAnswers(r, ignored)) && i < |s.handlers|
    ensures i < |Next(s, GitAnswers(r, ignored)).handlers| && HandlerInv(Next(s, GitAnswers(r, ignored)), Next(s, GitAnswers(r, ignored)).handlers[i])
  {
    assert HandlerInv(s, s.handlers[i]);
    if s.closed || s.runs[r].batch.version != s.generation {
      OutdatedKeeps(s, r, ignored, i);
    } else {
      var b := s.runs[r].batch;
      BatchRelevance(s, r, ignored);
      DecidedKeeps(s, Next(s, GitAnswers(r, ignored)), Answers(s.cache, b.paths, b.unknown, ignored, b.version), i);
    }
  }

  lemma OutdatedKeeps(s: State, r: nat, ignored: set<Path>, i: nat)
    requires OneAtATime(s) && Enabled(s, GitAnswers(r, ignored)) && i < |s.handlers| && HandlerInv(s, s.handlers[i])
    requires s.closed || s.runs[r].batch.version != s.generation
    ensures i < |Next(s, GitAnswers(r, ignored)).handlers| && HandlerInv(Next(s, GitAnswers(r, ignored)), Next(s, GitAnswers(r, ignored)).handlers[i])
  {
  }

  lemma FailingKeeps(s: State, r: nat, i: nat)
    requires OneAtATime(s) && Enabled(s, GitFails(r)) && i < |s.handlers| && HandlerInv(s, s.handlers[i])
    ensures i < |Next(s, GitFails(r)).handlers| && HandlerInv(Next(s, GitFails(r)), Next(s, GitFails(r)).handlers[i])
  {
  }

  lemma SettlingKeeps(s: State, r: nat, i: nat)
    requires OneAtATime(s) && Enabled(s, Settle(r)) && i < |s.handlers| && HandlerInv(s, s.handlers[i])
    ensures HandlerInv(Next(s, Settle(r)), Next(s, Settle(r)).handlers[i])
  {
    assert s.processing == Some(r);
  }

  lemma ResumingKeeps(s: State, j: nat, i: nat)
    requires OneAtATime(s) && Enabled(s, Resume(j)) && i < |s.handlers| && HandlerInv(s, s.handlers[i])
    ensures i < |Next(s, Resume(j)).handlers| && HandlerInv(Next(s, Resume(j)), Next(s, Resume(j)).handlers[i])
  {
    var h := s.handlers[j];
    if !s.runs[h.progress.on].failed && h.name in s.pending && !s.closed {
      WaitingAgainKeeps(s, j, i);
    } else {
      assert Next(s, Resume(j)) == s.(handlers := Next(s, Resume(j)).handlers);
    }
  }

  lemma WaitingAgainKeeps(s: State, j: nat, i: nat)
    requires OneAtATime(s) && Enabled(s, Resume(j)) && i < |s.handlers| && HandlerInv(s, s.handlers[i])
    requires !s.runs[s.handlers[j].progress.on].failed && s.handlers[j].name in s.pending && !s.closed
    ensures i < |Next(s, Resume(j)).handlers| && HandlerInv(Next(s, Resume(j)), Next(s, Resume(j)).handlers[i])
  {
    var (run, runs) := Awaiting(s);
    assert forall r :: 0 <= r < |s.runs| ==> runs[r] == s.runs[r];
  }

  lemma SurroundingsKeep(s: State, e: Event, i: nat)
    requires OneAtATime(s) && Enabled(s, e) && (e.Arrive? || e.Invalidate? || e.Close?) && i < |Next(s, e).handlers|
    requires i < |s.handlers| ==> HandlerInv(s, s.handlers[i])
    ensures HandlerInv(Next(s, e), Next(s, e).handlers[i])
  {
  }

  lemma StepKeepsHandler(s: State, e: Event, i: nat)
    requires Inv(s) && Enabled(s, e) && i < |Next(s, e).handlers|
    ensures HandlerInv(Next(s, e), Next(s, e).handlers[i])
  {
    if e.TakeBatch? {
      TakingKeeps(s, e.run, e.order, i);
    } else if e.GitAnswers? {
      AnsweringKeeps(s, e.run, e.ignored, i);
    } else if e.Arrive? || e.Invalidate? || e.Close? {
      SurroundingsKeep(s, e, i);
    } else if e.GitFails? {
      FailingKeeps(s, e.run, i);
    } else if e.Settle? {
      SettlingKeeps(s, e.run, i);
    } else {
      ResumingKeeps(s, e.handler, i);
    }
  }

  lemma StepKeepsInv(s: State, e: Event)
    requires Inv(s) && Enabled(s, e)
    ensures Inv(Next(s, e))
  {
    var t := Next(s, e);
    StepKeepsCache(s, e);
    StepKeepsOne(s, e);
    forall r | 0 <= r < |t.runs| ensures Waited(t, r) && (t.runs[r].Asking? ==> BatchInv(t, t.runs[r].batch)) {
      StepKeepsWaited(s, e, r);
      if t.runs[r].Asking? { StepKeepsBatch(s, e, r); }
    }
    forall i | 0 <= i < |t.handlers| ensures HandlerInv(t, t.handlers[i]) {
      StepKeepsHandler(s, e, i);
    }
  }

  lemma {:induction false} RunKeepsInv(s: State, events: seq<Event>)
    requires Inv(s) && IsRun(s, events)
    ensures Inv(After(s, events))
    decreases |events|
  {
    if events != [] {
      StepKeepsInv(s, events[0]);
      RunKeepsInv(Next(s, events[0]), events[1..]);
    }
  }

  // ------------------------------------------------------------------ what git said

  /** Git, asked in a generation, said of a path whether it is ignored, or failed on a batch with it. */
  datatype Report = Report(name: Path, asked: nat, ignored: bool) | NoAnswer(name: Path)

  function Reports(b: Batch, ignored: set<Path>): set<Report> {
    set p | p in b.unknown :: Report(p, b.version, p in ignored)
  }

  function SaidIn(s: State, e: Event): set<Report>
    requires Enabled(s, e)
  {
    match e
    case GitAnswers(r, ignored) => Reports(s.runs[r].batch, ignored)
    case GitFails(r) => set p | p in s.runs[r].batch.paths :: NoAnswer(p)
    case _ => {}
  }

  /** Everything git said during a run, whether it was used or not. */
  ghost function Said(s: State, events: seq<Event>): set<Report>
    requires IsRun(s, events)
    decreases |events|
  {
    if events == [] then {} else SaidIn(s, events[0]) + Said(Next(s, events[0]), events[1..])
  }

  ghost predicate CacheTold(s: State, said: set<Report>) {
    forall p :: p in s.cache ==> Report(p, s.cache[p].asked, s.cache[p].ignored) in said
  }

  ghost predicate DecisionTold(h: Handler, said: set<Report>) {
    && (h.decision.Some? ==> Report(h.name, h.decision.value.asked, h.decision.value.ignored) in said)
    && (h.failed ==> NoAnswer(h.name) in said)
  }

  /** Every cached answer and every decision is what git said, and no handler counts as failed without
      git having failed on its path. */
  ghost predicate Told(s: State, said: set<Report>) {
    CacheTold(s, said) && forall i :: 0 <= i < |s.handlers| ==> DecisionTold(s.handlers[i], said)
  }

  lemma StepToldCache(s: State, e: Event, said: set<Report>)
    requires CacheTold(s, said) && Enabled(s, e)
    ensures CacheTold(Next(s, e), said + SaidIn(s, e))
  {
    if !e.GitAnswers? { OnlyAnswersCached(s, e); }
  }

  lemma StepToldDecision(s: State, e: Event, said: set<Report>, i: nat)
    requires Told(s, said) && Enabled(s, e) && i < |Next(s, e).handlers|
    ensures DecisionTold(Next(s, e).handlers[i], said + SaidIn(s, e))
  {
    if i < |s.handlers| { assert DecisionTold(s.handlers[i], said); }
    if !e.TakeBatch? && !e.GitAnswers? { UndecidedStays(s, e, i); }
  }

  /** Only a batch decides: otherwise a handler keeps its decision, and fails only with its path. */
  lemma UndecidedStays(s: State, e: Event, i: nat)
    requires Enabled(s, e) && !e.TakeBatch? && !e.GitAnswers? && i < |Next(s, e).handlers|
    ensures var h := Next(s, e).handlers[i];
            if i >= |s.handlers| then h.decision.None? && !h.failed
            else && h.decision == s.handlers[i].decision && h.name == s.handlers[i].name
                 && (h.failed && !s.handlers[i].failed ==> e.GitFails? && h.name in s.runs[e.run].batch.paths)
  {
  }

  lemma {:induction false} RunTold(s: State, events: seq<Event>, said: set<Report>)
    requires Told(s, said) && IsRun(s, events)
    ensures Told(After(s, events), said + Said(s, events))
    decreases |events|
  {
    if events == [] {
      assert said + {} == said;
    } else {
      var e, t := events[0], Next(s, events[0]);
      StepToldCache(s, e, said);
      forall i | 0 <= i < |t.handlers| ensures DecisionTold(t.handlers[i], said + SaidIn(s, e)) {
        StepToldDecision(s, e, said, i);
      }
      RunTold(t, events[1..], said + SaidIn(s, e));
      assert said + SaidIn(s, e) + Said(t, events[1..]) == said + Said(s, events);
    }
  }

  /** Over every run, each answer in the cache is what git said of that path, asked in the present
      generation. */
  lemma {:induction false} CacheIsWhatGitSaid(events: seq<Event>)
    requires IsRun(Started(), events)
    ensures var s := After(Started(), events);
            forall p :: p in s.cache ==> Report(p, s.generation, s.cache[p].ignored) in Said(Started(), events)
  {
    RunTold(Started(), events, {});
    RunKeepsInv(Started(), events);
    assert {} + Said(Started(), events) == Said(Started(), events);
  }

  /** Every change a run reports has a cause: a path that git, asked in the present generation, said is
      not ignored.  No step reports more than one. */
  lemma {:induction false} OnlyEditsReported(events: seq<Event>, e: Event)
    requires IsRun(Started(), events) && Enabled(After(Started(), events), e)
    ensures var s := After(Started(), events);
            && s.changes <= Next(s, e).changes <= s.changes + 1
            && (Next(s, e).changes > s.changes ==>
                  exists p :: Report(p, s.generation, false) in Said(Started(), events) + SaidIn(s, e))
  {
    var s := After(Started(), events);
    CacheIsWhatGitSaid(events);
    RunKeepsInv(Started(), events);
    OneChange(s, e);
    if Next(s, e).changes > s.changes { ChangeHasCause(s, e, Said(Started(), events)); }
  }

  lemma OneChange(s: State, e: Event)
    requires Enabled(s, e)
    ensures s.changes <= Next(s, e).changes <= s.changes + 1
  {
  }

  lemma ChangeHasCause(s: State, e: Event, said: set<Report>)
    requires Inv(s) && Enabled(s, e) && Next(s, e).changes > s.changes
    requires forall p :: p in s.cache ==> Report(p, s.generation, s.cache[p].ignored) in said
    ensures exists p :: Report(p, s.generation, false) in said + SaidIn(s, e)
  {
    if e.TakeBatch? {
      var p :| p in s.pending && p in s.cache && !s.cache[p].ignored;
      assert Report(p, s.generation, false) in said;
    } else {
      var b := s.runs[e.run].batch;
      if b.relevant {
        var p :| p in b.paths && p !in b.unknown && p in s.cache && !s.cache[p].ignored;
        assert Report(p, s.generation, false) in said;
      } else {
        var p :| p in b.unknown && p !in e.ignored;
        assert Report(p, s.generation, false) in SaidIn(s, e);
      }
    }
  }

  /** Over every interleaving, each waiter resuming at its own moment: while the watch is open every
      event was decided, or its path is still to be, or git failed on a batch with it.  The decision is what
      git, asked in the very generation of the decision, said of the path; and if git did not say there
      that the path is ignored, a change was reported after the event arrived. */
  lemma {:induction false} NoEditLost(events: seq<Event>, i: nat)
    requires IsRun(Started(), events) && i < |After(Started(), events).handlers|
    ensures var s := After(Started(), events);
            var h := s.handlers[i];
            && (h.decision.Some? ==>
                  var d := h.decision.value;
                  && d.asked == d.decidedIn && Report(h.name, d.decidedIn, d.ignored) in Said(Started(), events)
                  && (!d.ignored || Report(h.name, d.decidedIn, true) !in Said(Started(), events) ==> h.since < s.changes))
            && (!s.closed && h.decision.None? && !h.failed ==> Covered(s, h.name))
            && (h.failed ==> NoAnswer(h.name) in Said(Started(), events))
  {
    RunKeepsInv(Started(), events);
    assert HandlerInv(After(Started(), events), After(Started(), events).handlers[i]);
    RunTold(Started(), events, {});
    assert {} + Said(Started(), events) == Said(Started(), events);
    assert DecisionTold(After(Started(), events).handlers[i], Said(Started(), events));
  }

  ghost predicate ClosedFrom(s: State, t: State) {
    t.closed && t.pending == {} && t.cache == map[] && t.changes == s.changes && |t.runs| == |s.runs|
  }

  lemma {:induction false} StaysClosed(s: State, t: State, events: seq<Event>)
    requires ClosedFrom(s, t) && IsRun(t, events)
    ensures ClosedFrom(s, After(t, events))
    decreases |events|
  {
    if events != [] { StaysClosed(s, Next(t, events[0]), events[1..]); }
  }

  /** A watch that was closed stays closed and empty, starts no classification and reports no change
      any more, whatever git still answers. */
  lemma ClosedIsQuiet(s: State, events: seq<Event>)
    requires IsRun(Next(s, Close), events)
    ensures ClosedFrom(s, After(Next(s, Close), events))
  {
    StaysClosed(s, Next(s, Close), events);
  }

  predicate FailedRun(s: State, r: nat) {
    r < |s.runs| && (s.runs[r] == Ended(true) || s.runs[r] == Settled(true))
  }

  lemma FailsWithGit(s: State, e: Event, r: nat)
    requires Enabled(s, e)
    ensures FailedRun(Next(s, e), r) <==> FailedRun(s, r) || e == GitFails(r)
  {
  }

  lemma {:induction false} FailedByGit(s: State, events: seq<Event>, r: nat)
    requires IsRun(s, events)
    ensures FailedRun(After(s, events), r) <==> FailedRun(s, r) || GitFails(r) in events
    decreases |events|
  {
    if events != [] {
      assert events == [events[0]] + events[1..];
      FailsWithGit(s, events[0], r);
      FailedByGit(Next(s, events[0]), events[1..], r);
    }
  }

  /** At most one classification is in progress at any moment, one fails exactly when git failed in it
      and is then reported by a handler that fails with it, and the cache keeps its limit. */
  lemma {:induction false} OneClassification(events: seq<Event>, r: nat)
    requires IsRun(Started(), events) && r < |After(Started(), events).runs|
    ensures var s := After(Started(), events);
            && |s.cache| <= CACHE_LIMIT
            && (!s.runs[r].Settled? ==> s.processing == Some(r) && forall q :: 0 <= q < |s.runs| && q != r ==> s.runs[q].Settled?)
            && (s.runs[r] == Ended(true) || s.runs[r] == Settled(true) <==> GitFails(r) in events)
            && (GitFails(r) in events ==>
                  exists i :: 0 <= i < |s.handlers| && (s.handlers[i].progress == Waiting(r) || s.handlers[i].progress == Rejected(r)))
  {
    RunKeepsInv(Started(), events);
    FailedByGit(Started(), events, r);
    assert Waited(After(Started(), events), r);
  }

  // ------------------------------------------------------------------ returning decided

  /** A handler that can resume from a classification that ended well, its own path not decided yet and
      pending again. */
  ghost predicate Overdue(s: State, i: nat) {
    && Enabled(s, Resume(i)) && !s.runs[s.handlers[i].progress.on].failed
    && s.handlers[i].decision.None? && s.handlers[i].name in s.pending
  }

  /** No batch that asks git takes the path of an overdue handler. */
  ghost predicate Prompt(s: State, e: Event) {
    e.TakeBatch? && e.order != [] && !s.closed ==> forall i :: 0 <= i < |s.handlers| ==> !Overdue(s, i)
  }

  ghost predicate AlwaysPrompt(s: State, events: seq<Event>)
    requires IsRun(s, events)
    decreases |events|
  {
    events != [] ==> Prompt(s, events[0]) && AlwaysPrompt(Next(s, events[0]), events[1..])
  }

  /** A handler that has returned was decided, and one that waits for a classification that has ended
      well was decided or has its path pending. */
  ghost predicate PromptInv(s: State, h: Handler) {
    && (h.progress == Returned(true) ==> h.decision.Some?)
    && (h.progress.Waiting? && h.progress.on < |s.runs| && EndedWell(s.runs[h.progress.on]) && !s.closed ==> h.decision.Some? || h.name in s.pending)
    && (h.progress.Waiting? && h.progress.on < |s.runs| && !s.runs[h.progress.on].Ended? && !s.runs[h.progress.on].Settled? && !s.closed ==>
          h.decision.Some? || Covered(s, h.name))
  }

  predicate EndedWell(run: Classification) {
    run == Ended(false) || run == Settled(false)
  }

  ghost predicate PromptAll(s: State) {
    forall i :: 0 <= i < |s.handlers| ==> PromptInv(s, s.handlers[i])
  }

  lemma StepKeepsPrompt(s: State, e: Event, i: nat)
    requires Inv(s) && PromptAll(s) && Enabled(s, e) && Prompt(s, e) && i < |Next(s, e).handlers|
    ensures PromptInv(Next(s, e), Next(s, e).handlers[i])
  {
    if i < |s.handlers| {
      assert HandlerInv(s, s.handlers[i]) && PromptInv(s, s.handlers[i]);
      if e.TakeBatch? {
        PromptTakes(s, e.run, e.order, i);
      } else if e.GitAnswers? {
        PromptAnswers(s, e.run, e.ignored, i);
      } else {
        PromptOther(s, e, i);
      }
    }
  }

  lemma PromptTakes(s: State, r: nat, order: seq<Path>, i: nat)
    requires OneAtATime(s) && Enabled(s, TakeBatch(r, order)) && i < |s.handlers|
    requires HandlerInv(s, s.handlers[i]) && PromptInv(s, s.handlers[i]) && Prompt(s, TakeBatch(r, order))
    ensures i < |Next(s, TakeBatch(r, order)).handlers| && PromptInv(Next(s, TakeBatch(r, order)), Next(s, TakeBatch(r, order)).handlers[i])
  {
    if order == [] { AllCached(s, r); } else { assert !s.closed ==> !Overdue(s, i); }
  }

  lemma PromptAnswers(s: State, r: nat, ignored: set<Path>, i: nat)
    requires CacheInv(s) && OneAtATime(s) && Enabled(s, GitAnswers(r, ignored)) && i < |s.handlers|
    requires BatchInv(s, s.runs[r].batch) && HandlerInv(s, s.handlers[i]) && PromptInv(s, s.handlers[i])
    ensures i < |Next(s, GitAnswers(r, ignored)).handlers| && PromptInv(Next(s, GitAnswers(r, ignored)), Next(s, GitAnswers(r, ignored)).handlers[i])
  {
    if !s.closed && s.runs[r].batch.version == s.generation { AnswersCurrent(s, s.runs[r].batch, ignored); }
  }

  lemma PromptOther(s: State, e: Event, i: nat)
    requires OneAtATime(s) && Enabled(s, e) && !e.TakeBatch? && !e.GitAnswers? && i < |s.handlers|
    requires HandlerInv(s, s.handlers[i]) && PromptInv(s, s.handlers[i])
    ensures i < |Next(s, e).handlers| && PromptInv(Next(s, e), Next(s, e).handlers[i])
  {
  }

  lemma {:induction false} RunKeepsPrompt(s: State, events: seq<Event>)
    requires Inv(s) && PromptAll(s) && IsRun(s, events) && AlwaysPrompt(s, events)
    ensures PromptAll(After(s, events))
    decreases |events|
  {
    if events != [] {
      var t := Next(s, events[0]);
      StepKeepsInv(s, events[0]);
      forall i | 0 <= i < |t.handlers| ensures PromptInv(t, t.handlers[i]) {
        StepKeepsPrompt(s, events[0], i);
      }
      RunKeepsPrompt(t, events[1..]);
    }
  }

  /** Were it to resume now, the handler would return from an open watch with its path not decided. */
  ghost predicate EarlyAt(s: State, i: nat) {
    && Enabled(s, Resume(i)) && s.handlers[i].decision.None?
    && Next(s, Resume(i)).handlers[i].progress == Returned(true)
  }

  /** At no moment of the run could a handler return early. */
  ghost predicate NeverEarly(s: State, events: seq<Event>)
    requires IsRun(s, events)
    decreases |events|
  {
    (forall i :: 0 <= i < |s.handlers| ==> !EarlyAt(s, i)) && (events != [] ==> NeverEarly(Next(s, events[0]), events[1..]))
  }

  lemma PromptNotEarly(s: State, i: nat)
    requires Inv(s) && PromptAll(s) && i < |s.handlers|
    ensures !EarlyAt(s, i)
  {
    if Enabled(s, Resume(i)) {
      assert HandlerInv(s, s.handlers[i]) && PromptInv(s, s.handlers[i]);
    }
  }

  /** A batch that takes an overdue handler's path lets it return early. */
  lemma OverdueReturns(s: State, e: Event, i: nat)
    requires Enabled(s, e) && e.TakeBatch? && e.order != [] && !s.closed && i < |s.handlers| && Overdue(s, i)
    ensures i < |Next(s, e).handlers| && EarlyAt(Next(s, e), i)
  {
  }

  lemma {:induction false} PromptIffNeverEarly(s: State, events: seq<Event>)
    requires Inv(s) && PromptAll(s) && IsRun(s, events)
    ensures AlwaysPrompt(s, events) <==> NeverEarly(s, events)
    decreases |events|
  {
    forall i | 0 <= i < |s.handlers| ensures !EarlyAt(s, i) {
      PromptNotEarly(s, i);
    }
    if events != [] {
      var e, t := events[0], Next(s, events[0]);
      StepKeepsInv(s, e);
      if Prompt(s, e) {
        forall i | 0 <= i < |t.handlers| ensures PromptInv(t, t.handlers[i]) {
          StepKeepsPrompt(s, e, i);
        }
        PromptIffNeverEarly(t, events[1..]);
      } else {
        var i :| 0 <= i < |s.handlers| && Overdue(s, i);
        OverdueReturns(s, e, i);
      }
    }
  }

  /** Over any run: a handler can return from an open watch before its path is decided at some moment if
      and only if some batch that asks git takes the path of an overdue handler.  Without one, whoever has
      returned was decided. */
  lemma {:induction false} ReturnsDecided(events: seq<Event>)
    requires IsRun(Started(), events)
    ensures NeverEarly(Started(), events) <==> AlwaysPrompt(Started(), events)
    ensures NeverEarly(Started(), events) ==>
              forall h :: h in After(Started(), events).handlers && h.progress == Returned(true) ==> h.decision.Some?
  {
    PromptIffNeverEarly(Started(), events);
    if AlwaysPrompt(Started(), events) {
      RunKeepsPrompt(Started(), events);
      forall h | h in After(Started(), events).handlers && h.progress == Returned(true) ensures h.decision.Some? {
        assert PromptInv(After(Started(), events), h);
      }
    }
  }

  lemma RunsTo(s: State, e: Event, events: seq<Event>)
    requires Enabled(s, e) && IsRun(Next(s, e), events)
    ensures IsRun(s, [e] + events) && After(s, [e] + events) == After(Next(s, e), events)
  {
    assert ([e] + events)[1..] == events;
  }

  /** Otherwise it may return early: `b` arrives once the first classification has ended, `c` starts the
      next before `b` resumes, and that takes both paths; `b` no longer finds its own pending, and
      returns while git is being asked about it. */
  lemma ReturnsEarly() returns (events: seq<Event>)
    ensures IsRun(Started(), events)
    ensures var s := After(Started(), events);
            |s.handlers| == 3 && s.handlers[1].progress == Returned(true) && s.handlers[1].decision.None? && Covered(s, s.handlers[1].name)
  {
    var s0 := Started();
    var first := FirstClassified();
    var s := After(s0, first);
    var s1 := Next(s, Arrive("b"));
    var s2 := Next(s1, Settle(0));
    var s3 := Next(s2, Arrive("c"));
    var rest := EarlyReturn(s3);
    RunsTo(s2, Arrive("c"), rest); rest := [Arrive("c")] + rest;
    RunsTo(s1, Settle(0), rest); rest := [Settle(0)] + rest;
    RunsTo(s, Arrive("b"), rest); rest := [Arrive("b")] + rest;
    RunAppend(s0, first, rest);
    events := first + rest;
  }

  lemma {:induction false} RunAppend(s: State, a: seq<Event>, b: seq<Event>)
    requires IsRun(s, a) && IsRun(After(s, a), b)
    ensures IsRun(s, a + b) && After(s, a + b) == After(After(s, a), b)
    decreases |a|
  {
    if a == [] {
      assert a + b == b;
    } else {
      assert (a + b)[1..] == a[1..] + b;
      RunAppend(Next(s, a[0]), a[1..], b);
    }
  }

  /** The first classification ends, its only path ignored. */
  lemma FirstClassified() returns (events: seq<Event>)
    ensures IsRun(Started(), events)
    ensures var s := After(Started(), events);
            && s.pending == {} && s.cache.Keys == {"a"} && !s.closed && s.processing == Some(0) && s.runs == [Ended(false)] && |s.handlers| == 1
  {
    var s0 := Started();
    var s1 := Next(s0, Arrive("a"));
    assert Elements(["a"]) == {"a"} && Elements([]) == {};
    var s2 := Next(s1, TakeBatch(0, ["a"]));
    var s3 := Next(s2, GitAnswers(0, {"a"}));
    events := [];
    RunsTo(s3, TakeBatch(0, []), events); events := [TakeBatch(0, [])] + events;
    RunsTo(s2, GitAnswers(0, {"a"}), events); events := [GitAnswers(0, {"a"})] + events;
    RunsTo(s1, TakeBatch(0, ["a"]), events); events := [TakeBatch(0, ["a"])] + events;
    RunsTo(s0, Arrive("a"), events); events := [Arrive("a")] + events;
  }

  lemma EarlyReturn(s: State) returns (events: seq<Event>)
    requires s.pending == {"b", "c"} && s.cache.Keys == {"a"} && !s.closed && s.processing == Some(1) && s.runs == [Settled(false), Running]
    requires |s.handlers| == 3 && s.handlers[1].name == "b" && s.handlers[1].progress == Waiting(0) && s.handlers[1].decision.None?
    ensures IsRun(s, events)
    ensures var t := After(s, events);
            |t.handlers| == 3 && t.handlers[1].progress == Returned(true) && t.handlers[1].decision.None? && Covered(t, t.handlers[1].name)
  {
    var order := ["b", "c"];
    assert Elements(order) == {"b", "c"};
    var s1 := Next(s, TakeBatch(1, order));
    events := [];
    RunsTo(s1, Resume(1), events); events := [Resume(1)] + events;
    RunsTo(s, TakeBatch(1, order), events); events := [TakeBatch(1, order)] + events;
  }

  // ------------------------------------------------------------------ left alone

  /** What the watcher and git do by themselves. */
  predicate Inner(e: Event) {
    !e.Arrive? && !e.Invalidate? && !e.Close?
  }

  predicate ClosedEmpty(s: State) {
    s.closed ==> s.pending == {}
  }

  /** How often pending paths can still be taken. */
  function Rounds(s: State): nat {
    (if s.pending != {} then 1 else 0) + (if Outdated(s) then 1 else 0)
  }

  function Current(s: State): Option<Classification> {
    if s.processing.Some? && s.processing.value < |s.runs| then Some(s.runs[s.processing.value]) else None
  }

  predicate Outdated(s: State) {
    Current(s).Some? && Current(s).value.Asking? && Current(s).value.batch.version != s.generation
  }

  /** How far the classification in progress is from settling; one can still start while paths are
      pending. */
  function Phase(s: State): nat {
    match Current(s)
    case None => if s.pending != {} then 2 else 1
    case Some(Asking(_)) => if Outdated(s) then 5 else 4
    case Some(Running) => if s.pending != {} then 1 else 3
    case Some(_) => if s.pending != {} then 3 else 2
  }

  /** The handlers among the first `n` that wait, those that can resume counted twice. */
  function Waits(s: State, n: nat): nat
    requires n <= |s.handlers|
  {
    if n == 0 then 0
    else Waits(s, n - 1) + if Enabled(s, Resume(n - 1)) then 2 else if s.handlers[n - 1].progress.Waiting? then 1 else 0
  }

  function Rank(s: State): nat {
    6 * Rounds(s) + Phase(s)
  }

  function StepsLeft(s: State): nat {
    Rank(s) * (2 * |s.handlers| + 1) + Waits(s, |s.handlers|)
  }

  lemma {:induction false} WaitsBound(s: State, n: nat)
    requires n <= |s.handlers|
    ensures Waits(s, n) <= 2 * n
  {
    if n > 0 { WaitsBound(s, n - 1); }
  }

  /** A handler that resumes leaves less to wait for, if it starts no classification. */
  lemma {:induction false} WaitsLess(s: State, i: nat, n: nat)
    requires OneAtATime(s) && Enabled(s, Resume(i)) && n <= |s.handlers| && Next(s, Resume(i)).runs == s.runs
    ensures |Next(s, Resume(i)).handlers| == |s.handlers|
    ensures Waits(Next(s, Resume(i)), n) + (if i < n then 1 else 0) <= Waits(s, n)
  {
    if n > 0 { WaitsLess(s, i, n - 1); }
  }

  /** Every other inner step leaves fewer rounds, or as many in a later phase. */
  lemma PhaseLess(s: State, e: Event)
    requires Inv(s) && Enabled(s, e) && Inner(e) && (e.Resume? ==> Next(s, e).runs != s.runs)
    requires ClosedEmpty(s)
    ensures Rank(Next(s, e)) < Rank(s) && |Next(s, e).handlers| == |s.handlers|
  {
  }
  lemma FewerSteps(before: nat, after: nat, n: nat, waits: nat, waits': nat)
    requires after < before && waits' <= 2 * n
    ensures after * (2 * n + 1) + waits' < before * (2 * n + 1) + waits
  {
    var k := 2 * n + 1;
    TimesGrows(after + 1, before, k);
    assert (after + 1) * k == after * k + k;
  }

  lemma {:induction false} TimesGrows(a: nat, b: nat, k: nat)
    requires a <= b
    ensures a * k <= b * k
  {
    if a < b {
      TimesGrows(a, b - 1, k);
      assert b * k == (b - 1) * k + k;
    }
  }

  lemma FewerLeft(s: State, t: State)
    requires Rank(t) < Rank(s) && |t.handlers| == |s.handlers|
    ensures StepsLeft(t) < StepsLeft(s)
  {
    WaitsBound(t, |t.handlers|);
    FewerSteps(Rank(s), Rank(t), |s.handlers|, Waits(s, |s.handlers|), Waits(t, |t.handlers|));
  }

  lemma ResumingLeaves(s: State, i: nat)
    requires Inv(s) && Enabled(s, Resume(i)) && Next(s, Resume(i)).runs == s.runs
    ensures StepsLeft(Next(s, Resume(i))) < StepsLeft(s)
  {
    var t := Next(s, Resume(i));
    WaitsLess(s, i, |s.handlers|);
    assert t.pending == s.pending && Current(t) == Current(s) && t.generation == s.generation;
  }

  lemma StepLeaves(s: State, e: Event)
    requires Inv(s) && ClosedEmpty(s) && Enabled(s, e) && Inner(e)
    ensures StepsLeft(Next(s, e)) < StepsLeft(s)
  {
    var t := Next(s, e);
    if e.Resume? && t.runs == s.runs {
      ResumingLeaves(s, e.handler);
    } else {
      PhaseLess(s, e);
      FewerLeft(s, t);
    }
  }

  lemma StaysEmpty(s: State, e: Event)
    requires ClosedEmpty(s) && Enabled(s, e)
    ensures ClosedEmpty(Next(s, e))
  {
  }

  lemma {:induction false} LeftAlone(s: State, events: seq<Event>)
    requires Inv(s) && ClosedEmpty(s) && IsRun(s, events) && forall e :: e in events ==> Inner(e)
    ensures |events| <= StepsLeft(s)
    decreases |events|
  {
    if events != [] {
      assert events[0] in events && forall e :: e in events[1..] ==> e in events;
      StepKeepsInv(s, events[0]);
      StaysEmpty(s, events[0]);
      StepLeaves(s, events[0]);
      LeftAlone(Next(s, events[0]), events[1..]);
    }
  }

  lemma {:induction false} RunClosedEmpty(s: State, events: seq<Event>)
    requires ClosedEmpty(s) && IsRun(s, events)
    ensures ClosedEmpty(After(s, events))
    decreases |events|
  {
    if events != [] { RunClosedEmpty(Next(s, events[0]), events[1..]); }
  }

  lemma {:induction false} Listing(paths: set<Path>) returns (order: seq<Path>)
    ensures Distinct(order) && Elements(order) == paths
    decreases |paths|
  {
    if paths == {} {
      order := [];
    } else {
      var p :| p in paths;
      var rest := Listing(paths - {p});
      order := [p] + rest;
      forall j | 0 <= j < |rest| ensures rest[j] != p {
        assert rest[j] in Elements(rest);
      }
      assert Elements(order) == {p} + Elements(rest);
    }
  }

  lemma RunningSteps(s: State, r: nat)
    requires OneAtATime(s) && s.processing == Some(r)
    ensures exists e :: Inner(e) && Enabled(s, e)
  {
    match s.runs[r]
    case Running =>
      var order := Listing(s.pending - s.cache.Keys);
      assert Enabled(s, TakeBatch(r, order));
    case Asking(_) => assert Enabled(s, GitFails(r));
    case Ended(_) => assert Enabled(s, Settle(r));
  }

  /** Whatever happened before, a watch left alone comes to rest after a bounded number of steps: while a
      classification is in progress or a handler waits there is a next step, and at rest neither is. */
  lemma {:induction false} ComesToRest(before: seq<Event>, events: seq<Event>)
    requires IsRun(Started(), before) && IsRun(After(Started(), before), events) && forall e :: e in events ==> Inner(e)
    ensures |events| <= 18 * (2 * |After(Started(), before).handlers| + 1)
    ensures var s := After(Started(), before);
            (exists e :: Inner(e) && Enabled(s, e)) <==> s.processing.Some? || exists i :: 0 <= i < |s.handlers| && s.handlers[i].progress.Waiting?
  {
    var s := After(Started(), before);
    RunKeepsInv(Started(), before);
    RunClosedEmpty(Started(), before);
    LeftAlone(s, events);
    WaitsBound(s, |s.handlers|);
    FewerSteps(18, Rank(s), |s.handlers|, 0, Waits(s, |s.handlers|));
    if s.processing.Some? {
      RunningSteps(s, s.processing.value);
    } else if i :| 0 <= i < |s.handlers| && s.handlers[i].progress.Waiting? {
      assert HandlerInv(s, s.handlers[i]) && s.runs[s.handlers[i].progress.on].Settled?;
      assert Enabled(s, Resume(i));
    }
  }

  // ------------------------------------------------------------------ the watcher itself

  /** The watch of one checkout.  Each method is what runs between two awaits. */
  class Watcher {
    var cache: map<Path, Answer>
    var generation: nat
    var closed: bool
    var pending: set<Path>
    var processing: Option<nat>
    var runs: seq<Classification>
    var handlers: seq<Handler>
    var changes: nat

    function Contents(): State
      reads this
    {
      State(cache, generation, closed, pending, processing, runs, handlers, changes)
    }

    constructor ()
      ensures Contents() == Started()
    {
      cache, generation, closed, pending := map[], 0, false, {};
      processing, runs, handlers, changes := None, [], [], 0;
    }

    /** `processing`, started if there is none. */
    method Await() returns (run: nat)
      modifies this`processing, this`runs
      ensures (run, runs) == Awaiting(old(Contents())) && processing == Some(run)
    {
      if processing.None? {
        processing := Some(|runs|);
        runs := runs + [Running];
      }
      run := processing.value;
    }

    /** An event for a path outside `.git` and the ignore files. */
    method FileEvent(name: Path)
      modifies this
      ensures Contents() == Next(old(Contents()), Arrive(name))
    {
      if closed {
        handlers := handlers + [Handler(name, Returned(false), None, false, changes)];
        return;
      }
      pending := pending + {name};
      var run := Await();
      handlers := handlers + [Handler(name, Waiting(run), None, false, changes)];
    }

    /** The head of the classification loop: takes what is pending and sorts out what is known. */
    method TakePending(run: nat) returns (ghost order: seq<Path>)
      requires run < |runs| && runs[run].Running?
      modifies this
      ensures Enabled(old(Contents()), TakeBatch(run, order)) && Contents() == Next(old(Contents()), TakeBatch(run, order))
    {
      var unknown, relevant := Unanswered();
      order := unknown;
      if pending == {} || closed {
        runs := runs[run := Ended(false)];
        return;
      }
      var paths := pending;
      pending := {};
      if unknown != [] {
        runs := runs[run := Asking(Batch(paths, unknown, generation, relevant))];
        return;
      }
      handlers := Decided(handlers, Answers(cache, paths, [], {}, generation), generation);
      if relevant { changes := changes + 1; }
    }

    /** The pending paths without a cached answer, and whether a cached one is relevant. */
    method Unanswered() returns (unknown: seq<Path>, relevant: bool)
      ensures Distinct(unknown) && Elements(unknown) == pending - cache.Keys
      ensures relevant <==> exists p :: p in pending && p in cache && !cache[p].ignored
    {
      unknown, relevant := [], false;
      var todo := pending;
      while todo != {}
        invariant todo <= pending
        invariant Distinct(unknown) && Elements(unknown) == (pending - todo) - cache.Keys
        invariant relevant <==> exists p :: p in pending - todo && p in cache && !cache[p].ignored
      {
        var path: Path :| path in todo;
        assert path !in Elements(unknown);
        if path in cache {
          if !cache[path].ignored { relevant := true; }
        } else {
          assert Elements(unknown + [path]) == Elements(unknown) + {path};
          unknown := unknown + [path];
        }
        todo := todo - {path};
      }
    }

    /** Git's answer to a batch: discarded, its paths pending again, if the answers were invalidated
        meanwhile; otherwise it decides the batch. */
    method Answered(run: nat, ignored: set<Path>)
      requires run < |runs| && runs[run].Asking?
      modifies this
      ensures Contents() == Next(old(Contents()), GitAnswers(run, ignored))
    {
      var batch := runs[run].batch;
      if closed {
        runs := runs[run := Ended(false)];
        return;
      }
      runs := runs[run := Running];
      if batch.version != generation {
        pending := pending + batch.paths;
        return;
      }
      DecideBatch(batch, ignored);
    }

    /** Decides a batch whose answers are current. */
    method DecideBatch(batch: Batch, ignored: set<Path>)
      modifies this`handlers, this`changes, this`cache
      ensures handlers == Decided(old(handlers), Answers(old(cache), batch.paths, batch.unknown, ignored, batch.version), generation)
      ensures changes == old(changes) + if batch.relevant || exists p :: p in batch.unknown && p !in ignored then 1 else 0
      ensures cache == Remembered(old(cache), batch.unknown, ignored, generation)
    {
      var relevant := batch.relevant || exists p :: p in batch.unknown && p !in ignored;
      handlers := Decided(handlers, Answers(cache, batch.paths, batch.unknown, ignored, batch.version), generation);
      if relevant { changes := changes + 1; }
      Remember(batch.unknown, ignored);
    }

    /** Caches the answers without growing past the limit. */
    method Remember(unknown: seq<Path>, ignored: set<Path>)
      modifies this`cache
      ensures cache == Remembered(old(cache), unknown, ignored, generation)
    {
      if |cache| + |unknown| > CACHE_LIMIT { cache := map[]; }
      var kept := Kept(unknown);
      ghost var base := cache;
      NotedNone(base, ignored, generation);
      assert kept[..0] == [];
      var i := 0;
      while i < |kept|
        invariant 0 <= i <= |kept|
        invariant cache == base + Noted(kept[..i], ignored, generation)
      {
        NotedNext(base, kept, i, ignored, generation);
        cache := cache[kept[i] := Answer(kept[i] in ignored, generation)];
        i := i + 1;
      }
      assert kept[..i] == kept;
    }

    method AnswerFailed(run: nat)
      requires run < |runs| && runs[run].Asking?
      modifies this`runs, this`handlers
      ensures Contents() == Next(old(Contents()), GitFails(run))
    {
      handlers := Lost(handlers, runs[run].batch.paths);
      runs := runs[run := Ended(true)];
    }

    /** The end of a classification clears `processing`. */
    method Clear(run: nat)
      requires run < |runs| && runs[run].Ended?
      modifies this`runs, this`processing
      ensures Contents() == Next(old(Contents()), Settle(run))
    {
      runs, processing := runs[run := Settled(runs[run].failed)], None;
    }

    /** A handler resumes after its classification: it fails with it, waits for another while its path is
        pending again, or returns. */
    method ResumeHandler(i: nat)
      requires Enabled(Contents(), Resume(i))
      modifies this`handlers, this`processing, this`runs
      ensures Contents() == Next(old(Contents()), Resume(i))
    {
      var h := handlers[i];
      if runs[h.progress.on].failed {
        handlers := handlers[i := h.(progress := Rejected(h.progress.on))];
      } else if h.name in pending && !closed {
        var run := Await();
        handlers := handlers[i := h.(progress := Waiting(run))];
      } else {
        handlers := handlers[i := h.(progress := Returned(!closed))];
      }
    }

    method InvalidateAnswers()
      modifies this`generation, this`cache
      ensures Contents() == Next(old(Contents()), Invalidate)
    {
      generation, cache := generation + 1, map[];
    }

    method CloseWatch()
      modifies this`closed, this`pending, this`cache
      ensures Contents() == Next(old(Contents()), Close)
    {
      closed, pending, cache := true, {}, map[];
    }
  }
}
