/** The in-memory view of a user's device grants (`DeviceRegistry` in `device-registry.ts`). */
module DeviceRegistry {
  import opened Objects

  const UNKNOWN_DEVICE_REFRESH_MS := 5_000

  type Device = nat

  datatype Grant = Grant(device: Device, generation: nat, issued: nat)

  type Grants = map<Device, Grant>

  /** A refresh in flight: the invalidations it counted when it asked, and when it asked. */
  datatype Refresh = Refresh(invalidations: nat, requestedAt: nat)

  /** A lookup waits for the refresh; is due to be answered once that has ended, `found` if it brought a
      listing, `invalidatedAt` the last invalidation then; or was answered. */
  datatype Progress = Waiting | Due(found: bool, invalidatedAt: Option<nat>) | Answered(grant: Option<Grant>)

  datatype Lookup = Lookup(device: Device, progress: Progress)

  /** `now` orders the events, `clock` is what `Date.now()` reads.  `installedAt` is when the
      installed listing was requested, `invalidatedAt` the last invalidation, `requests` how many
      listings were asked for and `replies` how many came back or failed. */
  datatype State = State(grants: Grants, fetchedAt: Option<nat>, invalidations: nat, inflight: Option<Refresh>, lookups: seq<Lookup>,
                         clock: nat, now: nat, installedAt: Option<nat>, invalidatedAt: Option<nat>, requests: nat, replies: nat)

  /** A listing row, or one that does not parse. */
  type Row = Option<Grant>

  datatype Event = Invalidate | Ask(device: Device) | Listed(rows: seq<Row>) | ListingFails | Resume(i: nat) | Tick(ms: nat)

  /** A listing never takes a known grant back a generation. */
  function Chosen(grants: Grants, row: Grant): Grant {
    if row.device in grants && grants[row.device].generation > row.generation then grants[row.device] else row
  }

  /** What installing a listing leaves: its devices, the last row of each. */
  function Installed(grants: Grants, rows: seq<Row>): Grants {
    if rows == [] then map[]
    else
      var n := |rows| - 1;
      var rest := Installed(grants, rows[..n]);
      if rows[n].None? then rest else rest[rows[n].value.device := Chosen(grants, rows[n].value)]
  }

  predicate NeedsRefresh(s: State, device: Device) {
    s.fetchedAt == None || (device !in s.grants && s.clock - s.fetchedAt.value >= UNKNOWN_DEVICE_REFRESH_MS)
  }

  function GrantOf(grants: Grants, device: Device): Option<Grant> {
    if device in grants then Some(grants[device]) else None
  }

  /** The refresh has ended: every lookup that waited for it is due. */
  function AllDue(lookups: seq<Lookup>, found: bool, invalidatedAt: Option<nat>): seq<Lookup> {
    seq(|lookups|, i requires 0 <= i < |lookups| =>
      if lookups[i].progress == Waiting then lookups[i].(progress := Due(found, invalidatedAt)) else lookups[i])
  }

  predicate Enabled(s: State, e: Event) {
    match e
    case Listed(_) => s.inflight.Some?
    case ListingFails => s.inflight.Some?
    case Resume(i) => i < |s.lookups| && s.lookups[i].progress.Due?
    case _ => true
  }

  function Next(s: State, e: Event): State
    requires Enabled(s, e)
  {
    var t := s.(now := s.now + 1);
    match e
    case Tick(ms) => t.(clock := s.clock + ms)
    case Invalidate => t.(fetchedAt := None, invalidations := s.invalidations + 1, invalidatedAt := Some(s.now))
    case Ask(device) =>
      if !NeedsRefresh(s, device) then t.(lookups := s.lookups + [Lookup(device, Answered(GrantOf(s.grants, device)))])
      else
        var waiting := t.(lookups := s.lookups + [Lookup(device, Waiting)]);
        if s.inflight.Some? then waiting
        else waiting.(inflight := Some(Refresh(s.invalidations, s.now)), requests := s.requests + 1)
    case Listed(rows) =>
      var installed := t.(grants := Installed(s.grants, rows), installedAt := Some(s.inflight.value.requestedAt), replies := s.replies + 1);
      if s.inflight.value.invalidations != s.invalidations then
        installed.(inflight := Some(Refresh(s.invalidations, s.now)), requests := s.requests + 1)
      else
        installed.(fetchedAt := Some(s.clock), inflight := None, lookups := AllDue(s.lookups, true, s.invalidatedAt))
    case ListingFails =>
      t.(inflight := None, replies := s.replies + 1, lookups := AllDue(s.lookups, false, s.invalidatedAt))
    case Resume(i) =>
      t.(lookups := s.lookups[i := s.lookups[i].(progress := Answered(GrantOf(s.grants, s.lookups[i].device)))])
  }

  function Empty(clock: nat): State {
    State(map[], None, 0, None, [], clock, 0, None, None, 0, 0)
  }

  // ------------------------------------------------------------------ every run

  ghost predicate IsRun(s: State, events: seq<Event>)
    decreases |events|
  {
    events != [] ==> Enabled(s, events[0]) && IsRun(Next(s, events[0]), events[1..])
  }

  ghost function After(s: State, events: seq<Event>): State
    requires IsRun(s, events)
    decreases |events|
  {
    if events == [] then s else After(Next(s, events[0]), events[1..])
  }

  predicate Later(at: nat, than: Option<nat>) {
    than.Some? ==> than.value < at
  }

  /** A lookup waits only while a listing is being fetched, and one due after a listing was found will be
      answered from one requested after every invalidation before then. */
  ghost predicate LookupInv(s: State, l: Lookup) {
    && (l.progress == Waiting ==> s.inflight.Some?)
    && (l.progress.Due? ==> l.progress.invalidatedAt.Some? ==> s.invalidatedAt.Some? && l.progress.invalidatedAt.value <= s.invalidatedAt.value)
    && (l.progress.Due? && l.progress.found ==>
          && s.installedAt.Some? && Later(s.installedAt.value, l.progress.invalidatedAt)
          && (s.inflight.Some? ==> Later(s.inflight.value.requestedAt, l.progress.invalidatedAt)))
  }

  ghost predicate ViewInv(s: State) {
    && (s.invalidatedAt.Some? ==> s.invalidatedAt.value < s.now)
    && (s.fetchedAt.Some? ==> s.installedAt.Some? && Later(s.installedAt.value, s.invalidatedAt) && s.fetchedAt.value <= s.clock)
    && (s.fetchedAt == None && s.installedAt.Some? ==> s.invalidatedAt.Some? && s.installedAt.value < s.invalidatedAt.value)
    && (s.inflight.Some? ==>
          && s.inflight.value.invalidations <= s.invalidations && s.inflight.value.requestedAt < s.now
          && (s.inflight.value.invalidations == s.invalidations ==> Later(s.inflight.value.requestedAt, s.invalidatedAt))
          && (s.inflight.value.invalidations < s.invalidations ==>
                s.fetchedAt == None && s.invalidatedAt.Some? && s.inflight.value.requestedAt < s.invalidatedAt.value))
    && (s.installedAt.Some? ==> s.installedAt.value < s.now)
    && s.requests == s.replies + (if s.inflight.Some? then 1 else 0)
  }

  ghost predicate Inv(s: State) {
    ViewInv(s) && forall i :: 0 <= i < |s.lookups| ==> LookupInv(s, s.lookups[i])
  }

  lemma StepKeepsView(s: State, e: Event)
    requires ViewInv(s) && Enabled(s, e)
    ensures ViewInv(Next(s, e))
  {
  }

  lemma StepKeepsInv(s: State, e: Event)
    requires Inv(s) && Enabled(s, e)
    ensures Inv(Next(s, e))
  {
    StepKeepsView(s, e);
    var t := Next(s, e);
    forall i | 0 <= i < |t.lookups| ensures LookupInv(t, t.lookups[i]) {
      if i < |s.lookups| { assert LookupInv(s, s.lookups[i]); }
    }
  }

  lemma {:induction false} RunKeepsInv(s: State, events: seq<Event>)
    requires Inv(s) && IsRun(s, events)
    ensures Inv(After(s, events))
    decreases |events|
  {
    if events != [] {
      StepKeepsInv(s, events[0]);
      RunKeepsInv(Next(s, events[0]), events[1..]);
    }
  }

  /** Over every interleaving: a fetch time means that the installed listing was requested after the
      last invalidation, at most one listing is being fetched, and no lookup waits without one. */
  lemma ViewIsFresh(clock: nat, events: seq<Event>)
    requires IsRun(Empty(clock), events)
    ensures var s := After(Empty(clock), events);
            && (s.fetchedAt.Some? ==> s.installedAt.Some? && Later(s.installedAt.value, s.invalidatedAt))
            && s.requests - s.replies == (if s.inflight.Some? then 1 else 0)
            && (forall l :: l in s.lookups && l.progress == Waiting ==> s.inflight.Some?)
  {
    RunKeepsInv(Empty(clock), events);
    var s := After(Empty(clock), events);
    forall l | l in s.lookups && l.progress == Waiting ensures s.inflight.Some? {
      var i :| 0 <= i < |s.lookups| && s.lookups[i] == l;
      assert LookupInv(s, s.lookups[i]);
    }
  }

  /** The installed listing was requested after every invalidation so far. */
  predicate Current(s: State) {
    s.installedAt.Some? && Later(s.installedAt.value, s.invalidatedAt)
  }

  /** A lookup answered at once is answered from a current listing, which came back less than five
      seconds ago if it does not name the device. */
  lemma AnswerAtOnceIsCurrent(clock: nat, events: seq<Event>, device: Device)
    requires IsRun(Empty(clock), events)
    requires var s := After(Empty(clock), events);
             |Next(s, Ask(device)).lookups| > |s.lookups| && Next(s, Ask(device)).lookups[|s.lookups|].progress.Answered?
    ensures var s := After(Empty(clock), events);
            && Current(s) && s.fetchedAt.Some? && s.fetchedAt.value <= s.clock
            && (device !in s.grants ==> s.clock < s.fetchedAt.value + 5_000)
            && Next(s, Ask(device)).lookups[|s.lookups|] == Lookup(device, Answered(GrantOf(s.grants, device)))
  {
    RunKeepsInv(Empty(clock), events);
  }

  // ------------------------------------------------------------------ how often it asks

  function Failures(events: seq<Event>): nat {
    if events == [] then 0 else (if events[0].ListingFails? then 1 else 0) + Failures(events[1..])
  }

  /** The listings asked for beyond the first, the invalidated and the failed ones, times five seconds,
      fit into the time that passed until the present listing came back, or until now. */
  ghost predicate RateInv(s: State, start: nat, failures: nat) {
    var extra := s.requests - s.invalidations - failures;
    && start <= s.clock && (s.fetchedAt.Some? ==> start <= s.fetchedAt.value <= s.clock)
    && match s.inflight
       case None =>
         if s.fetchedAt.Some? then 5_000 * (extra - 1) <= s.fetchedAt.value - start else 5_000 * extra <= s.clock - start
       case Some(r) =>
         && 5_000 * (if r.invalidations == s.invalidations then extra - 1 else extra) <= s.clock - start
         && (s.fetchedAt.Some? ==> r.invalidations == s.invalidations && 5_000 * (extra - 2) <= s.fetchedAt.value - start)
  }

  lemma StepKeepsRate(s: State, e: Event, start: nat, failures: nat)
    requires ViewInv(s) && RateInv(s, start, failures) && Enabled(s, e)
    ensures RateInv(Next(s, e), start, failures + if e.ListingFails? then 1 else 0)
  {
  }

  lemma {:induction false} RunKeepsRate(s: State, events: seq<Event>, start: nat, failures: nat)
    requires Inv(s) && RateInv(s, start, failures) && IsRun(s, events)
    ensures RateInv(After(s, events), start, failures + Failures(events))
    decreases |events|
  {
    if events != [] {
      StepKeepsInv(s, events[0]);
      StepKeepsRate(s, events[0], start, failures);
      RunKeepsRate(Next(s, events[0]), events[1..], start, failures + if events[0].ListingFails? then 1 else 0);
    }
  }

  /** Over any run, however many devices are asked about: one listing is asked for at the start, one for
      each invalidation and each failed listing, and otherwise at most one every five seconds. */
  lemma ListingsLimited(clock: nat, events: seq<Event>)
    requires IsRun(Empty(clock), events)
    ensures var s := After(Empty(clock), events);
            5_000 * (s.requests - 1 - s.invalidations - Failures(events)) <= s.clock - clock
  {
    RunKeepsRate(Empty(clock), events, clock, 0);
  }

  // ------------------------------------------------------------------ every lookup

  function Asked(events: seq<Event>): seq<Device> {
    if events == [] then [] else (if events[0].Ask? then [events[0].device] else []) + Asked(events[1..])
  }

  /** The same lookup later: an answer is final, and one that waits for no listing is due until it is
      answered. */
  predicate Follows(before: Lookup, after: Lookup) {
    && after.device == before.device
    && (before.progress.Answered? ==> after == before)
    && (before.progress.Due? ==> after == before || after.progress.Answered?)
  }

  lemma StepFollows(s: State, e: Event)
    requires Enabled(s, e)
    ensures |Next(s, e).lookups| == |s.lookups| + |Asked([e])|
    ensures forall i :: 0 <= i < |s.lookups| ==> Follows(s.lookups[i], Next(s, e).lookups[i])
    ensures e.Ask? ==> Next(s, e).lookups[|s.lookups|].device == e.device
  {
    assert [e][1..] == [];
  }

  /** Every lookup is kept, in the order they came, and follows what it was; while one is due, or a
      listing is being fetched for those that wait, there is a next step for it. */
  lemma {:induction false} LookupsKept(s: State, events: seq<Event>)
    requires IsRun(s, events)
    ensures var t := After(s, events);
            && |t.lookups| == |s.lookups| + |Asked(events)|
            && (forall i :: 0 <= i < |s.lookups| ==> Follows(s.lookups[i], t.lookups[i]))
            && (forall k :: 0 <= k < |Asked(events)| ==> t.lookups[|s.lookups| + k].device == Asked(events)[k])
            && (forall i :: 0 <= i < |t.lookups| ==> (t.lookups[i].progress.Due? <==> Enabled(t, Resume(i))))
    decreases |events|
  {
    if events != [] {
      StepFollows(s, events[0]);
      assert [events[0]][1..] == [];
      LookupsKept(Next(s, events[0]), events[1..]);
      var later := Next(s, events[0]).lookups;
      forall i | 0 <= i < |s.lookups| ensures Follows(s.lookups[i], After(s, events).lookups[i]) {
        assert Follows(s.lookups[i], later[i]) && Follows(later[i], After(s, events).lookups[i]);
      }
    }
  }

  /** A lookup that waited is answered from a listing requested after every invalidation before its
      refresh ended, so after every one before the lookup; and from a current one if and only if none
      came since that is still to be fetched. */
  lemma AnswerIsCurrent(clock: nat, events: seq<Event>, i: nat)
    requires IsRun(Empty(clock), events) && Enabled(After(Empty(clock), events), Resume(i))
    requires After(Empty(clock), events).lookups[i].progress.found
    ensures var s := After(Empty(clock), events);
            && s.installedAt.Some? && Later(s.installedAt.value, s.lookups[i].progress.invalidatedAt)
            && (Current(s) <==> s.fetchedAt.Some?)
            && (s.invalidatedAt == s.lookups[i].progress.invalidatedAt ==> Current(s))
            && Next(s, Resume(i)).lookups[i].progress == Answered(GrantOf(s.grants, s.lookups[i].device))
  {
    RunKeepsInv(Empty(clock), events);
    var s := After(Empty(clock), events);
    assert LookupInv(s, s.lookups[i]);
  }

  lemma RunsTo(s: State, e: Event, events: seq<Event>)
    requires Enabled(s, e) && IsRun(Next(s, e), events)
    ensures IsRun(s, [e] + events) && After(s, [e] + events) == After(Next(s, e), events)
  {
    assert ([e] + events)[1..] == events;
  }

  /** An invalidation that comes between the end of a refresh and the answer is not in it. */
  lemma InvalidatedBeforeAnswer(clock: nat, device: Device, grant: Grant) returns (events: seq<Event>)
    requires grant.device == device
    ensures IsRun(Empty(clock), events)
    ensures var s := After(Empty(clock), events);
            && Enabled(s, Resume(0)) && s.lookups[0].progress.found && !Current(s)
            && Next(s, Resume(0)).lookups[0].progress == Answered(Some(grant))
  {
    var s0 := Empty(clock);
    var s1 := Next(s0, Ask(device));
    var rows := [Some(grant)];
    var s2 := Next(s1, Listed(rows));
    OnlyRow(map[], grant);
    events := [];
    RunsTo(s2, Invalidate, events); events := [Invalidate] + events;
    RunsTo(s1, Listed(rows), events); events := [Listed(rows)] + events;
    RunsTo(s0, Ask(device), events); events := [Ask(device)] + events;
  }

  lemma OnlyRow(grants: Grants, grant: Grant)
    requires grant.device !in grants
    ensures Installed(grants, [Some(grant)]) == map[grant.device := grant] && Installed(grants, []) == map[]
  {
    var rows := [Some(grant)];
    assert rows[..0] == [];
  }

  // ------------------------------------------------------------------ generations

  lemma {:induction false} InstalledNeverOlder(grants: Grants, rows: seq<Row>)
    requires forall d :: d in grants ==> grants[d].device == d
    ensures forall d :: d in Installed(grants, rows) ==>
              Installed(grants, rows)[d].device == d && (d in grants ==> grants[d].generation <= Installed(grants, rows)[d].generation)
    decreases |rows|
  {
    if rows != [] { InstalledNeverOlder(grants, rows[..|rows| - 1]); }
  }

  /** Exactly the listed devices are known afterwards. */
  lemma {:induction false} InstalledIsListed(grants: Grants, rows: seq<Row>, d: Device)
    ensures d in Installed(grants, rows) <==> exists i :: 0 <= i < |rows| && rows[i].Some? && rows[i].value.device == d
    decreases |rows|
  {
    if rows != [] {
      var n := |rows| - 1;
      InstalledIsListed(grants, rows[..n], d);
      assert rows == rows[..n] + [rows[n]];
      assert forall i :: 0 <= i < n ==> rows[..n][i] == rows[i];
    }
  }

  /** A listed device has its last row, unless the grant known of it is newer, and then has that. */
  lemma {:induction false} LastRowWins(grants: Grants, rows: seq<Row>, i: nat)
    requires i < |rows| && rows[i].Some?
    requires forall j :: i < j < |rows| && rows[j].Some? ==> rows[j].value.device != rows[i].value.device
    ensures var row, d := rows[i].value, rows[i].value.device;
            && d in Installed(grants, rows)
            && (Installed(grants, rows)[d] == row || (d in grants && Installed(grants, rows)[d] == grants[d]))
            && (Installed(grants, rows)[d] != row ==> grants[d].generation > row.generation)
            && (d in grants && grants[d].generation > row.generation ==> Installed(grants, rows)[d] == grants[d])
    decreases |rows|
  {
    var n := |rows| - 1;
    if i < n { LastRowWins(grants, rows[..n], i); }
  }

  ghost predicate Keyed(s: State) {
    forall d :: d in s.grants ==> s.grants[d].device == d
  }

  /** A device known before and after a step never goes back a generation. */
  lemma GenerationsMoveForward(s: State, e: Event)
    requires Keyed(s) && Enabled(s, e)
    ensures Keyed(Next(s, e))
    ensures forall d :: d in s.grants && d in Next(s, e).grants ==> s.grants[d].generation <= Next(s, e).grants[d].generation
  {
    if e.Listed? { InstalledNeverOlder(s.grants, e.rows); }
  }

  /** Every listing of a run names the device. */
  ghost predicate Names(events: seq<Event>, d: Device) {
    forall e :: e in events && e.Listed? ==> exists i :: 0 <= i < |e.rows| && e.rows[i].Some? && e.rows[i].value.device == d
  }

  /** Over a whole run in which no listing leaves a known device out, it stays known and never goes back
      a generation. */
  lemma {:induction false} NeverGoesBack(s: State, events: seq<Event>, d: Device)
    requires Keyed(s) && d in s.grants && IsRun(s, events) && Names(events, d)
    ensures var t := After(s, events); Keyed(t) && d in t.grants && s.grants[d].generation <= t.grants[d].generation
    decreases |events|
  {
    if events != [] {
      assert events[0] in events;
      GenerationsMoveForward(s, events[0]);
      if events[0].Listed? { InstalledIsListed(s.grants, events[0].rows, d); }
      NeverGoesBack(Next(s, events[0]), events[1..], d);
    }
  }

  /** A device a listing leaves out is forgotten, and may return at any generation, even within one
      refresh: two invalidations have its listing read three times. */
  lemma VanishedMayReturnOlder(clock: nat, newer: Grant, older': Grant) returns (events: seq<Event>)
    requires newer.device == older'.device && older'.generation < newer.generation
    ensures |events| == 6 && IsRun(Empty(clock), events) && IsRun(Empty(clock), events[..3])
    ensures After(Empty(clock), events[..3]).grants == map[newer.device := newer]
    ensures After(Empty(clock), events).grants == map[newer.device := older'] && After(Empty(clock), events).replies == 3
  {
    var d := newer.device;
    var first: seq<Event> := [Ask(d), Invalidate, Listed([Some(newer)])];
    var s0 := Empty(clock);
    var s1 := Next(s0, Ask(d));
    var s2 := Next(s1, Invalidate);
    OnlyRow(map[], newer);
    var s3 := Next(s2, Listed([Some(newer)]));
    var s4 := Next(s3, Invalidate);
    var s5 := Next(s4, Listed([]));
    OnlyRow(map[], older');
    assert s5.grants == map[];
    var a, b: seq<Event> := [], [];
    RunsTo(s2, Listed([Some(newer)]), a); a := [Listed([Some(newer)])] + a;
    RunsTo(s1, Invalidate, a); a := [Invalidate] + a;
    RunsTo(s0, Ask(d), a); a := [Ask(d)] + a;
    RunsTo(s5, Listed([Some(older')]), b); b := [Listed([Some(older')])] + b;
    RunsTo(s4, Listed([]), b); b := [Listed([])] + b;
    RunsTo(s3, Invalidate, b); b := [Invalidate] + b;
    events := a + b;
    assert events[..3] == a;
    RunsTo(s2, Listed([Some(newer)]), b);
    RunsTo(s1, Invalidate, [Listed([Some(newer)])] + b);
    RunsTo(s0, Ask(d), [Invalidate] + ([Listed([Some(newer)])] + b));
    assert events == [Ask(d)] + ([Invalidate] + ([Listed([Some(newer)])] + b));
  }

  // ------------------------------------------------------------------ the registry itself

  class Registry {
    var grants: Grants
    var fetchedAt: Option<nat>
    var invalidations: nat
    var inflight: Option<Refresh>
    var lookups: seq<Lookup>
    var clock: nat
    var now: nat
    ghost var installedAt: Option<nat>
    var invalidatedAt: Option<nat>
    ghost var requests: nat
    ghost var replies: nat

    ghost function Contents(): State
      reads this
    {
      State(grants, fetchedAt, invalidations, inflight, lookups, clock, now, installedAt, invalidatedAt, requests, replies)
    }

    constructor (clock: nat)
      ensures Contents() == Empty(clock)
    {
      grants, fetchedAt, invalidations, inflight, lookups := map[], None, 0, None, [];
      this.clock := clock;
      now, installedAt, invalidatedAt, requests, replies := 0, None, None, 0, 0;
    }

    method InvalidateListing()
      modifies this
      ensures Contents() == Next(old(Contents()), Invalidate)
    {
      fetchedAt := None;
      invalidations := invalidations + 1;
      invalidatedAt, now := Some(now), now + 1;
    }

    /** Answers at once, or joins the refresh in flight, or starts one. */
    method LookUp(device: Device)
      modifies this
      ensures Contents() == Next(old(Contents()), Ask(device))
    {
      if fetchedAt == None || (device !in grants && clock - fetchedAt.value >= UNKNOWN_DEVICE_REFRESH_MS) {
        lookups := lookups + [Lookup(device, Waiting)];
        if inflight.None? {
          inflight, requests := Some(Refresh(invalidations, now)), requests + 1;
        }
      } else {
        lookups := lookups + [Lookup(device, Answered(GrantOf(grants, device)))];
      }
      now := now + 1;
    }

    /** Installs a listing, row by row. */
    method Install(rows: seq<Row>)
      modifies this`grants
      ensures grants == Installed(old(grants), rows)
    {
      var next: Grants := map[];
      var i := 0;
      while i < |rows|
        invariant 0 <= i <= |rows| && grants == old(grants)
        invariant next == Installed(grants, rows[..i])
      {
        assert rows[..i + 1][..i] == rows[..i];
        if rows[i].Some? {
          var row := rows[i].value;
          next := next[row.device := if row.device in grants && grants[row.device].generation > row.generation then grants[row.device] else row];
        }
        i := i + 1;
      }
      assert rows[..i] == rows;
      grants := next;
    }

    /** A listing arrives: read again if an invalidation came meanwhile, otherwise current. */
    method ListingArrives(rows: seq<Row>)
      requires inflight.Some?
      modifies this
      ensures Contents() == Next(old(Contents()), Listed(rows))
    {
      Install(rows);
      installedAt, replies := Some(inflight.value.requestedAt), replies + 1;
      if inflight.value.invalidations != invalidations {
        inflight, requests := Some(Refresh(invalidations, now)), requests + 1;
      } else {
        fetchedAt, inflight := Some(clock), None;
        lookups := AllDue(lookups, true, invalidatedAt);
      }
      now := now + 1;
    }

    /** A failed fetch keeps the last good listing. */
    method ListingFailed()
      requires inflight.Some?
      modifies this
      ensures Contents() == Next(old(Contents()), ListingFails)
    {
      inflight, replies := None, replies + 1;
      lookups := AllDue(lookups, false, invalidatedAt);
      now := now + 1;
    }

    /** A lookup resumes after its await and reads whatever is installed then. */
    method Answer(i: nat) returns (grant: Option<Grant>)
      requires i < |lookups| && lookups[i].progress.Due?
      modifies this
      ensures Contents() == Next(old(Contents()), Resume(i)) && lookups[i].progress == Answered(grant)
    {
      grant := if lookups[i].device in grants then Some(grants[lookups[i].device]) else None;
      lookups := lookups[i := lookups[i].(progress := Answered(grant))];
      now := now + 1;
    }
  }
}
