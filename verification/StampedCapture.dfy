/** Why a capture between equal stamps mixes no two worktree states: reading stamps, settling and
    capturing while people write (`readGitCheckpointInputStamp` and the capture loop of
    `IncrementalGitSnapshots` in `git-checkpoint.ts`). */
module StampedCapture {
  import opened Objects
  import opened GitCommands

  /** A file and what `lstat` says of it. */
  datatype File = File(stat: nat, entry: Entry)

  /** `branch` is what HEAD names, `tip` the commit there. */
  datatype World = World(branch: nat, tip: nat, indexStat: nat, index: Tree, files: map<Path, File>)

  /** Every state the checkout goes through, one write apart. */
  type Worlds = ws: seq<World> | |ws| > 0 witness [World(0, 0, 0, map[], map[])]

  function EntryAt(w: World, p: Path): Option<Entry> {
    if p in w.files then Some(w.files[p].entry) else None
  }

  function StatAt(w: World, p: Path): Option<nat> {
    if p in w.files then Some(w.files[p].stat) else None
  }

  /** An equal stat means an equal file, and a file found equal twice was so all along. */
  ghost predicate FileSteady(ws: Worlds, p: Path) {
    && (forall i, k :: 0 <= i <= k < |ws| && StatAt(ws[i], p) == StatAt(ws[k], p) ==> EntryAt(ws[i], p) == EntryAt(ws[k], p))
    && (forall i, j, k :: 0 <= i <= j <= k < |ws| && EntryAt(ws[i], p) == EntryAt(ws[k], p) ==> EntryAt(ws[j], p) == EntryAt(ws[i], p))
  }

  /** So with the index and HEAD, from the moment `i` on. */
  ghost predicate SteadyFrom(ws: Worlds, i: nat) {
    && (forall j, k :: i <= j <= k < |ws| && ws[i].indexStat == ws[k].indexStat ==> ws[j].index == ws[i].index)
    && (forall j, k :: i <= j <= k < |ws| && ws[i].branch == ws[k].branch ==> ws[j].branch == ws[i].branch)
    && (forall j, k :: i <= j <= k < |ws| && ws[i].tip == ws[k].tip ==> ws[j].tip == ws[i].tip)
  }

  /** Stamps do not repeat, and nothing is changed and put back. */
  ghost predicate NonRepeating(ws: Worlds) {
    (forall p :: FileSteady(ws, p)) && (forall i: nat :: SteadyFrom(ws, i))
  }

  lemma SteadyFile(ws: Worlds, p: Path, i: nat, j: nat, k: nat)
    requires NonRepeating(ws) && i <= j <= k < |ws|
    requires EntryAt(ws[i], p) == EntryAt(ws[k], p) || StatAt(ws[i], p) == StatAt(ws[k], p)
    ensures EntryAt(ws[j], p) == EntryAt(ws[i], p) == EntryAt(ws[k], p)
  {
    assert FileSteady(ws, p);
  }

  lemma SteadyIndex(ws: Worlds, i: nat, j: nat, k: nat)
    requires NonRepeating(ws) && i <= j <= k < |ws| && ws[i].indexStat == ws[k].indexStat
    ensures ws[j].index == ws[i].index
  {
    assert SteadyFrom(ws, i);
  }

  lemma SteadyHead(ws: Worlds, i: nat, j: nat, k: nat)
    requires NonRepeating(ws) && i <= j <= k < |ws|
    ensures ws[i].branch == ws[k].branch ==> ws[j].branch == ws[i].branch
    ensures ws[i].tip == ws[k].tip ==> ws[j].tip == ws[i].tip
  {
    assert SteadyFrom(ws, i);
  }

  // ------------------------------------------------------------------ stamps

  /** When each part of a stamp was read: for each listing the index and then every path, then the
      index's stat and each listed path's, then HEAD's branch and its tip. */
  datatype StampTimes = StampTimes(trackedIndex: nat, tracked: map<Path, nat>, untrackedIndex: nat, untracked: map<Path, nat>,
                                   index: nat, paths: map<Path, nat>, branch: nat, tip: nat)

  function TimeOf(times: map<Path, nat>, p: Path, otherwise: nat): nat {
    if p in times then times[p] else otherwise
  }

  predicate Between(times: map<Path, nat>, first: nat, last: nat) {
    forall p :: p in times ==> first <= times[p] <= last
  }

  predicate StampedWithin(t: StampTimes, first: nat, last: nat) {
    && first <= t.trackedIndex <= t.index && Between(t.tracked, t.trackedIndex, t.index)
    && first <= t.untrackedIndex <= t.index && Between(t.untracked, t.untrackedIndex, t.index)
    && t.index <= t.branch <= t.tip <= last && Between(t.paths, first, t.branch)
  }

  datatype Stamp = Stamp(branch: nat, tip: nat, indexStat: nat, stats: map<Path, Option<nat>>)

  /** `ls-files --modified --deleted`: the index, then every path in it. */
  function Dirty(ws: Worlds, index: nat, times: map<Path, nat>): set<Path>
    requires index < |ws| && Between(times, 0, |ws| - 1)
  {
    set p | p in ws[index].index && EntryAt(ws[TimeOf(times, p, index)], p) != Some(ws[index].index[p])
  }

  /** `ls-files --others --exclude-standard`: the index, then every file outside it. */
  function Untracked(ws: Worlds, index: nat, times: map<Path, nat>, ignored: iset<Path>): set<Path>
    requires index < |ws| && Between(times, 0, |ws| - 1)
  {
    set j, p | 0 <= j < |ws| && p in ws[j].files && j == TimeOf(times, p, index) && p !in ws[index].index && p !in ignored :: p
  }

  function ReadStamp(ws: Worlds, t: StampTimes, ignored: iset<Path>): Stamp
    requires StampedWithin(t, 0, |ws| - 1)
  {
    var paths := Dirty(ws, t.trackedIndex, t.tracked) + Untracked(ws, t.untrackedIndex, t.untracked, ignored);
    Stamp(ws[t.branch].branch, ws[t.tip].tip, ws[t.index].indexStat, map p | p in paths :: StatAt(ws[TimeOf(t.paths, p, t.index)], p))
  }

  // ------------------------------------------------------------------ layers

  /** When each part of a capture was read. */
  datatype CaptureTimes = CaptureTimes(branch: nat, tip: nat, index: nat, tracked: map<Path, nat>, listing: nat, listed: map<Path, nat>,
                                       added: map<Path, nat>)

  predicate CapturedWithin(t: CaptureTimes, first: nat, last: nat) {
    && first <= t.branch <= last && first <= t.tip <= last && first <= t.index <= last && first <= t.listing <= last
    && Between(t.tracked, first, last) && Between(t.listed, first, last) && Between(t.added, first, last)
  }

  datatype Layers = Layers(branch: nat, tip: nat, index: Tree, tracked: Tree, portable: Tree)

  /** What a capture reads: HEAD, the index, every file the index tracks, and every file that was
      listed as untracked, each at its own moment. */
  function ReadLayers(ws: Worlds, t: CaptureTimes, ignored: iset<Path>): Layers
    requires CapturedWithin(t, 0, |ws| - 1)
  {
    var index := ws[t.index].index;
    var tracked := map p | p in index && EntryAt(ws[TimeOf(t.tracked, p, t.index)], p).Some?
                     :: EntryAt(ws[TimeOf(t.tracked, p, t.index)], p).value;
    var listed := Untracked(ws, t.listing, t.listed, ignored);
    var portable := map p | p in listed && EntryAt(ws[TimeOf(t.added, p, t.listing)], p).Some?
                      :: EntryAt(ws[TimeOf(t.added, p, t.listing)], p).value;
    Layers(ws[t.branch].branch, ws[t.tip].tip, index, tracked, tracked + portable)
  }

  /** The layers of one state. */
  function LayersOf(w: World, ignored: iset<Path>): Layers {
    var files := map p | p in w.files :: w.files[p].entry;
    var tracked := Updated(w.index, files);
    Layers(w.branch, w.tip, w.index, tracked, AddedPaths(tracked, files, Others(w.index, files, ignored)))
  }

  /** Nothing a capture reads changes between `first` and `last`. */
  ghost predicate Still(ws: Worlds, ignored: iset<Path>, first: nat, last: nat)
    requires first <= last < |ws|
  {
    forall j :: first <= j <= last ==> SameInputs(ws[j], ws[first], ignored)
  }

  ghost predicate SameInputs(a: World, b: World, ignored: iset<Path>) {
    && a.branch == b.branch && a.tip == b.tip && a.index == b.index
    && forall p :: p in b.index || p !in ignored ==> EntryAt(a, p) == EntryAt(b, p)
  }

  lemma StillTracked(ws: Worlds, ignored: iset<Path>, t: CaptureTimes, first: nat, last: nat, p: Path)
    requires first <= last < |ws| && Still(ws, ignored, first, last) && CapturedWithin(t, first, last)
    ensures At(ReadLayers(ws, t, ignored).tracked, p) == At(LayersOf(ws[first], ignored).tracked, p)
  {
    assert SameInputs(ws[t.index], ws[first], ignored);
    assert SameInputs(ws[TimeOf(t.tracked, p, t.index)], ws[first], ignored);
  }

  /** The listing, read at its own moment, is the state's. */
  lemma StillListing(ws: Worlds, ignored: iset<Path>, t: CaptureTimes, first: nat, last: nat, p: Path)
    requires first <= last < |ws| && Still(ws, ignored, first, last) && CapturedWithin(t, first, last)
    ensures p in Untracked(ws, t.listing, t.listed, ignored) <==> p in ws[first].files && p !in ws[first].index && p !in ignored
    ensures p !in ignored ==> EntryAt(ws[TimeOf(t.added, p, t.listing)], p) == EntryAt(ws[first], p)
  {
    assert SameInputs(ws[t.listing], ws[first], ignored);
    assert SameInputs(ws[TimeOf(t.added, p, t.listing)], ws[first], ignored);
    assert SameInputs(ws[TimeOf(t.listed, p, t.listing)], ws[first], ignored);
    assert p !in ignored ==> EntryAt(ws[TimeOf(t.listed, p, t.listing)], p) == EntryAt(ws[first], p);
  }

  lemma StillPortable(ws: Worlds, ignored: iset<Path>, t: CaptureTimes, first: nat, last: nat, p: Path)
    requires first <= last < |ws| && Still(ws, ignored, first, last) && CapturedWithin(t, first, last)
    ensures At(ReadLayers(ws, t, ignored).portable, p) == At(LayersOf(ws[first], ignored).portable, p)
  {
    StillTracked(ws, ignored, t, first, last, p);
    StillListing(ws, ignored, t, first, last, p);
  }

  lemma StillLayers(ws: Worlds, ignored: iset<Path>, t: CaptureTimes, first: nat, last: nat)
    requires first <= last < |ws| && Still(ws, ignored, first, last) && CapturedWithin(t, first, last)
    ensures ReadLayers(ws, t, ignored) == LayersOf(ws[first], ignored)
  {
    var got, want := ReadLayers(ws, t, ignored), LayersOf(ws[first], ignored);
    assert SameInputs(ws[t.branch], ws[first], ignored) && SameInputs(ws[t.tip], ws[first], ignored) && SameInputs(ws[t.index], ws[first], ignored);
    forall p ensures At(got.tracked, p) == At(want.tracked, p) && At(got.portable, p) == At(want.portable, p) {
      StillTracked(ws, ignored, t, first, last, p);
      StillPortable(ws, ignored, t, first, last, p);
    }
    SameTree(got.tracked, want.tracked);
    SameTree(got.portable, want.portable);
  }

  /** Each path the layers hold was found equal at a moment before and a moment after. */
  lemma UnmovedPath(ws: Worlds, ignored: iset<Path>, b: StampTimes, d: StampTimes, index: Tree, first: nat, last: nat, p: Path) returns (i: nat, k: nat)
    requires first <= last < |ws|
    requires StampedWithin(b, 0, first) && StampedWithin(d, last, |ws| - 1)
    requires ReadStamp(ws, b, ignored) == ReadStamp(ws, d, ignored)
    requires ws[b.trackedIndex].index == ws[b.untrackedIndex].index == ws[d.trackedIndex].index == ws[d.untrackedIndex].index == index
    requires p in index || p !in ignored
    ensures i <= first && last <= k < |ws| && (EntryAt(ws[i], p) == EntryAt(ws[k], p) || StatAt(ws[i], p) == StatAt(ws[k], p))
  {
    var before, after := ReadStamp(ws, b, ignored), ReadStamp(ws, d, ignored);
    if p in before.stats {
      i, k := TimeOf(b.paths, p, b.index), TimeOf(d.paths, p, d.index);
      assert before.stats[p] == after.stats[p];
    } else {
      assert p !in after.stats;
      if p in index {
        i, k := TimeOf(b.tracked, p, b.trackedIndex), TimeOf(d.tracked, p, d.trackedIndex);
      } else {
        i, k := TimeOf(b.untracked, p, b.untrackedIndex), TimeOf(d.untracked, p, d.untrackedIndex);
        assert p !in ws[i].files && p !in ws[k].files;
      }
    }
  }

  /** Between the end of the second of two equal stamps and the start of a third, nothing moves. */
  lemma EqualStampsStill(ws: Worlds, ignored: iset<Path>, a: StampTimes, b: StampTimes, d: StampTimes, a1: nat, b0: nat, first: nat, last: nat)
    requires NonRepeating(ws) && a1 <= b0 && first <= last < |ws|
    requires StampedWithin(a, 0, a1) && StampedWithin(b, b0, first) && StampedWithin(d, last, |ws| - 1)
    requires ReadStamp(ws, a, ignored) == ReadStamp(ws, b, ignored) == ReadStamp(ws, d, ignored)
    ensures Still(ws, ignored, first, last)
  {
    var index := ws[a.index].index;
    assert ws[a.index].indexStat == ws[d.index].indexStat && ws[b.branch].branch == ws[d.branch].branch && ws[b.tip].tip == ws[d.tip].tip;
    forall j: nat | a.index <= j <= d.index ensures ws[j].index == index {
      SteadyIndex(ws, a.index, j, d.index);
    }
    forall j: nat | first <= j <= last ensures SameInputs(ws[j], ws[first], ignored) {
      SteadyHead(ws, b.branch, j, d.branch);
      SteadyHead(ws, b.branch, first, d.branch);
      SteadyHead(ws, b.tip, j, d.tip);
      SteadyHead(ws, b.tip, first, d.tip);
      forall p | p in index || p !in ignored ensures EntryAt(ws[j], p) == EntryAt(ws[first], p) {
        var i, k := UnmovedPath(ws, ignored, b, d, index, first, last, p);
        SteadyFile(ws, p, i, j, k);
        SteadyFile(ws, p, i, first, k);
      }
    }
  }

  /** A capture between two equal stamps and a third has the layers of one single state. */
  lemma CaptureIsOneState(ws: Worlds, ignored: iset<Path>, a: StampTimes, b: StampTimes, t: CaptureTimes, d: StampTimes,
                          a1: nat, b0: nat, first: nat, last: nat)
    requires NonRepeating(ws) && a1 <= b0 && first <= last < |ws|
    requires StampedWithin(a, 0, a1) && StampedWithin(b, b0, first) && CapturedWithin(t, first, last) && StampedWithin(d, last, |ws| - 1)
    requires ReadStamp(ws, a, ignored) == ReadStamp(ws, b, ignored) == ReadStamp(ws, d, ignored)
    ensures ReadLayers(ws, t, ignored) == LayersOf(ws[first], ignored)
  {
    EqualStampsStill(ws, ignored, a, b, d, a1, b0, first, last);
    StillLayers(ws, ignored, t, first, last);
  }

  /** A checkout of another commit that rewrites the index, then each of two files. */
  function Switching(x: Entry, y: Entry): Worlds {
    var before, after := map["p" := x, "q" := x], map["p" := y, "q" := y];
    [World(0, 0, 0, before, map["p" := File(0, x), "q" := File(0, x)]),
     World(0, 0, 1, after, map["p" := File(0, x), "q" := File(0, x)]),
     World(0, 0, 1, after, map["p" := File(1, y), "q" := File(0, x)]),
     World(0, 0, 1, after, map["p" := File(1, y), "q" := File(1, y)])]
  }

  lemma SwitchingSteady(x: Entry, y: Entry, p: Path)
    requires x != y
    ensures FileSteady(Switching(x, y), p)
  {
    var ws := Switching(x, y);
    if p != "p" && p != "q" {
      assert forall i :: 0 <= i < |ws| ==> EntryAt(ws[i], p) == None;
    } else if p == "p" {
      assert EntryAt(ws[0], p) == EntryAt(ws[1], p) == Some(x) && EntryAt(ws[2], p) == EntryAt(ws[3], p) == Some(y);
    } else {
      assert EntryAt(ws[0], p) == EntryAt(ws[1], p) == EntryAt(ws[2], p) == Some(x) && EntryAt(ws[3], p) == Some(y);
    }
  }

  lemma SwitchingNonRepeating(x: Entry, y: Entry)
    requires x != y
    ensures NonRepeating(Switching(x, y))
  {
    var ws := Switching(x, y);
    forall p ensures FileSteady(ws, p) { SwitchingSteady(x, y, p); }
    forall i: nat ensures SteadyFrom(ws, i) {
    }
  }

  /** A stamp whose listings see the old index and whose index stat is the new one's, a capture that
      reads one file before and one after it is rewritten, and a stamp when all is done. */
  function EarlyStamp(): StampTimes {
    StampTimes(0, map[], 0, map[], 1, map[], 1, 1)
  }

  function TornCapture(): CaptureTimes {
    CaptureTimes(1, 1, 1, map["p" := 1, "q" := 3], 1, map[], map[])
  }

  function LateStamp(): StampTimes {
    StampTimes(3, map[], 3, map[], 3, map[], 3, 3)
  }

  lemma SwitchingStamps(x: Entry, y: Entry)
    ensures ReadStamp(Switching(x, y), EarlyStamp(), iset{}) == ReadStamp(Switching(x, y), LateStamp(), iset{})
  {
    var ws := Switching(x, y);
    assert Dirty(ws, 0, map[]) + Untracked(ws, 0, map[], iset{}) == {} == Dirty(ws, 3, map[]) + Untracked(ws, 3, map[], iset{});
  }

  lemma SwitchingTorn(x: Entry, y: Entry)
    ensures var got := ReadLayers(Switching(x, y), TornCapture(), iset{}).tracked; At(got, "p") == Some(x) && At(got, "q") == Some(y)
  {
    var ws := Switching(x, y);
    assert EntryAt(ws[1], "p") == Some(x) && EntryAt(ws[3], "q") == Some(y);
  }

  lemma TrackedLayerAt(w: World, p: Path)
    requires p in w.index
    ensures At(LayersOf(w, iset{}).tracked, p) == EntryAt(w, p)
  {
  }

  lemma SwitchingTimes(x: Entry, y: Entry)
    ensures |Switching(x, y)| == 4
    ensures StampedWithin(EarlyStamp(), 0, 1) && CapturedWithin(TornCapture(), 1, 3) && StampedWithin(LateStamp(), 3, 3)
  {
  }

  /** The second file is never rewritten before the first. */
  lemma SwitchingOrder(x: Entry, y: Entry, m: nat)
    requires x != y && m < 4
    ensures "p" in Switching(x, y)[m].index && "q" in Switching(x, y)[m].index
    ensures EntryAt(Switching(x, y)[m], "p") != Some(x) || EntryAt(Switching(x, y)[m], "q") != Some(y)
  {
  }

  /** One stamp before the capture would not do: under equal stamps on both sides, the capture has
      the layers of no state the checkout was ever in. */
  lemma OneStampIsNotEnough(x: Entry, y: Entry, m: nat)
    requires x != y && m < 4
    ensures NonRepeating(Switching(x, y))
    ensures StampedWithin(EarlyStamp(), 0, 1) && CapturedWithin(TornCapture(), 1, 3) && StampedWithin(LateStamp(), 3, 3)
    ensures ReadStamp(Switching(x, y), EarlyStamp(), iset{}) == ReadStamp(Switching(x, y), LateStamp(), iset{})
    ensures ReadLayers(Switching(x, y), TornCapture(), iset{}) != LayersOf(Switching(x, y)[m], iset{})
  {
    SwitchingTimes(x, y);
    SwitchingNonRepeating(x, y);
    SwitchingStamps(x, y);
    TornIsNoState(x, y, m);
  }

  lemma TornIsNoState(x: Entry, y: Entry, m: nat)
    requires x != y && m < 4
    ensures ReadLayers(Switching(x, y), TornCapture(), iset{}) != LayersOf(Switching(x, y)[m], iset{})
  {
    SwitchingTorn(x, y);
    SwitchingOrder(x, y, m);
    TrackedLayerAt(Switching(x, y)[m], "p");
    TrackedLayerAt(Switching(x, y)[m], "q");
  }

  // ------------------------------------------------------------------ the loop

  /** Nothing is written from the moment `first` on. */
  ghost predicate Unwritten(ws: Worlds, first: nat) {
    first < |ws| && forall j :: first <= j < |ws| ==> ws[j] == ws[first]
  }

  /** Then all stamps are equal. */
  lemma UnwrittenStamps(ws: Worlds, ignored: iset<Path>, first: nat, a: StampTimes, b: StampTimes)
    requires Unwritten(ws, first) && StampedWithin(a, first, |ws| - 1) && StampedWithin(b, first, |ws| - 1)
    ensures ReadStamp(ws, a, ignored) == ReadStamp(ws, b, ignored)
  {
    var w := ws[first];
    UnwrittenDirty(ws, first, a.trackedIndex, a.tracked);
    UnwrittenDirty(ws, first, b.trackedIndex, b.tracked);
    UnwrittenListing(ws, ignored, first, a.untrackedIndex, a.untracked);
    UnwrittenListing(ws, ignored, first, b.untrackedIndex, b.untracked);
    var x, y := ReadStamp(ws, a, ignored), ReadStamp(ws, b, ignored);
    assert x.stats.Keys == y.stats.Keys;
    forall p | p in x.stats ensures x.stats[p] == y.stats[p] {
      assert x.stats[p] == StatAt(w, p) == y.stats[p];
    }
  }

  lemma UnwrittenDirty(ws: Worlds, first: nat, index: nat, times: map<Path, nat>)
    requires Unwritten(ws, first) && first <= index < |ws| && Between(times, first, |ws| - 1)
    ensures Dirty(ws, index, times) == set p | p in ws[first].index && EntryAt(ws[first], p) != Some(ws[first].index[p])
  {
  }

  lemma UnwrittenListing(ws: Worlds, ignored: iset<Path>, first: nat, index: nat, times: map<Path, nat>)
    requires Unwritten(ws, first) && first <= index < |ws| && Between(times, first, |ws| - 1)
    ensures Untracked(ws, index, times, ignored) == set p | p in ws[first].files && p !in ws[first].index && p !in ignored
  {
    var listed := Untracked(ws, index, times, ignored);
    forall p | p in ws[first].files && p !in ws[first].index && p !in ignored ensures p in listed {
      var j := TimeOf(times, p, index);
      assert p in ws[j].files;
    }
  }

  /** A checkout being read while it is written.  `now` moves on with every read; `stamps` are all stamps
      read. */
  class Reader {
    const worlds: Worlds
    const ignored: iset<Path>
    var now: nat
    ghost var stamps: seq<Stamp>

    ghost predicate Valid()
      reads this
    {
      now < |worlds|
    }

    constructor (worlds: Worlds, ignored: iset<Path>)
      ensures Valid() && this.worlds == worlds && this.ignored == ignored && now == 0 && stamps == []
    {
      this.worlds, this.ignored, now, stamps := worlds, ignored, 0, [];
    }

    /** Reads the stamp, each part whenever it happens to be read. */
    method Stamp() returns (stamp: Stamp, ghost times: StampTimes)
      requires Valid()
      modifies this`now, this`stamps
      ensures Valid() && old(now) <= now && stamps == old(stamps) + [stamp]
      ensures StampedWithin(times, old(now), now) && stamp == ReadStamp(worlds, times, ignored)
    {
      var t: StampTimes := *;
      if !StampedWithin(t, now, |worlds| - 1) { t := StampTimes(now, map[], now, map[], now, map[], now, now); }
      now := t.tip;
      times := t;
      stamp := ReadStamp(worlds, t, ignored);
      stamps := stamps + [stamp];
    }

    method Capture() returns (layers: Layers, ghost times: CaptureTimes)
      requires Valid()
      modifies this`now
      ensures Valid() && old(now) <= now
      ensures CapturedWithin(times, old(now), now) && layers == ReadLayers(worlds, times, ignored)
    {
      var t: CaptureTimes, end: nat := *, *;
      if !(now <= end < |worlds| && CapturedWithin(t, now, end)) {
        t, end := CaptureTimes(now, now, now, map[], now, map[], map[]), now;
      }
      now := end;
      times := t;
      layers := ReadLayers(worlds, t, ignored);
    }

    /** Reads another stamp: the same if nothing was written since `since`, before the one read at `times`. */
    method Again(ghost times: StampTimes, ghost since: nat) returns (stamp: Stamp, ghost later: StampTimes)
      requires Valid() && StampedWithin(times, 0, now)
      modifies this`now, this`stamps
      ensures Valid() && old(now) <= now && stamps == old(stamps) + [stamp]
      ensures StampedWithin(later, old(now), now) && stamp == ReadStamp(worlds, later, ignored)
      ensures since <= old(now) && Unwritten(worlds, since) && StampedWithin(times, since, old(now)) ==> stamp == ReadStamp(worlds, times, ignored)
    {
      ghost var at := now;
      stamp, later := Stamp();
      if since <= at && Unwritten(worlds, since) && StampedWithin(times, since, at) {
        UnwrittenStamps(worlds, ignored, since, times, later);
      }
    }

    /** Reads stamps until two in a row are equal, `before` and `times`.  `patience` is when the signal
        aborts. */
    method Settle(first: Stamp, ghost firstTimes: StampTimes, patience: nat)
      returns (settled: Option<Stamp>, left: nat, ghost before: StampTimes, ghost times: StampTimes)
      requires Valid() && StampedWithin(firstTimes, 0, now) && first == ReadStamp(worlds, firstTimes, ignored) && EndsEqual(stamps, 1, first)
      modifies this`now, this`stamps
      ensures Valid() && old(now) <= now && left <= patience
      ensures |old(stamps)| <= |stamps| && (settled.Some? ==> |stamps| > |old(stamps)| && EndsEqual(stamps, 2, settled.value))
      ensures Unwritten(worlds, old(now)) && patience > 1 ==> settled.Some? && left >= patience - 1
      ensures settled.Some? ==>
                && StampedWithin(before, 0, times.trackedIndex) && StampedWithin(before, 0, times.untrackedIndex) && StampedWithin(times, old(now), now)
                && settled.value == ReadStamp(worlds, before, ignored) == ReadStamp(worlds, times, ignored)
    {
      var stable := first;
      before, times := firstTimes, firstTimes;
      left := patience;
      while left > 0
        invariant Valid() && old(now) <= now && left <= patience
        invariant StampedWithin(times, if left < patience then old(now) else 0, now) && stable == ReadStamp(worlds, times, ignored)
        invariant |old(stamps)| <= |stamps| && EndsEqual(stamps, 1, stable)
        invariant Unwritten(worlds, old(now)) ==> left >= patience - 1
      {
        var next;
        ghost var at;
        next, at := Again(times, old(now));
        before, times := times, at;
        if next == stable { return Some(stable), left, before, times; }
        stable := next;
        left := left - 1;
      }
      settled := None;
    }

    /** The last `n` stamps read are all `stamp`. */
    static ghost predicate EndsEqual(stamps: seq<Stamp>, n: nat, stamp: Stamp) {
      n <= |stamps| && forall i :: |stamps| - n <= i < |stamps| ==> stamps[i] == stamp
    }

    /** A stable stamp: the one read now, or with a settle window one read twice in a row. */
    method ReadStable(settle: bool, patience: nat) returns (stable: Option<Stamp>, left: nat, ghost times: StampTimes)
      requires Valid() && patience > 0
      modifies this`now, this`stamps
      ensures Valid() && old(now) <= now && left < patience && |old(stamps)| <= |stamps|
      ensures Unwritten(worlds, old(now)) && patience > (if settle then 2 else 0) ==> stable.Some?
      ensures stable.Some? ==>
                && StampedWithin(times, old(now), now) && stable.value == ReadStamp(worlds, times, ignored)
                && |stamps| >= |old(stamps)| + (if settle then 2 else 1) && EndsEqual(stamps, if settle then 2 else 1, stable.value)
    {
      var first;
      first, times := Stamp();
      stable, left := Some(first), patience - 1;
      if settle {
        ghost var before;
        stable, left, before, times := Settle(first, times, left);
      }
    }

    /** One candidate between two stamps equal to the stable one, if they are. */
    method CaptureBetween(stable: Stamp, ghost times: StampTimes, ghost since: nat)
      returns (layers: Option<Layers>, ghost b: StampTimes, ghost t: CaptureTimes, ghost d: StampTimes, ghost start: nat, ghost end: nat)
      requires Valid() && StampedWithin(times, 0, now) && stable == ReadStamp(worlds, times, ignored)
      modifies this`now, this`stamps
      ensures Valid() && old(now) <= start <= end <= now && |old(stamps)| <= |stamps|
      ensures layers.Some? ==>
                && stamps == old(stamps) + [stable, stable]
                && StampedWithin(b, old(now), start) && CapturedWithin(t, start, end) && StampedWithin(d, end, |worlds| - 1)
                && stable == ReadStamp(worlds, b, ignored) == ReadStamp(worlds, d, ignored) && layers.value == ReadLayers(worlds, t, ignored)
      ensures since <= old(now) && Unwritten(worlds, since) && StampedWithin(times, since, old(now)) ==> layers.Some?
    {
      layers := None;
      t, d := *, *;
      var again;
      again, b := Again(times, since);
      start, end := now, now;
      if again != stable { return; }
      var candidate, after;
      candidate, t := Capture();
      end := now;
      after, d := Again(times, since);
      if after == stable { layers := Some(candidate); }
    }

    /** One candidate, kept only if the stamp read after allocating its revision and the stamp read after
        capturing it both equal the stable one. */
    method TryCandidate(stable: Stamp, ghost times: StampTimes, ghost since: nat) returns (layers: Option<Layers>, ghost m: nat)
      requires Valid() && NonRepeating(worlds) && StampedWithin(times, 0, now) && stable == ReadStamp(worlds, times, ignored)
      modifies this`now, this`stamps
      ensures Valid() && old(now) <= now && |old(stamps)| <= |stamps|
      ensures layers.Some? ==> stamps == old(stamps) + [stable, stable]
      ensures layers.Some? ==> old(now) <= m < |worlds| && layers.value == LayersOf(worlds[m], ignored)
      ensures since <= old(now) && Unwritten(worlds, since) && StampedWithin(times, since, old(now)) ==> layers.Some?
    {
      ghost var settledAt := now;
      ghost var b, t, d, end;
      layers, b, t, d, m, end := CaptureBetween(stable, times, since);
      if layers.Some? { CaptureIsOneState(worlds, ignored, times, b, t, d, settledAt, settledAt, m, end); }
    }

    /** The capture loop: each try reads a stable stamp and captures a candidate between two more of it.
        What it keeps are the layers of one state since it began, and it keeps one if nothing is written
        any more.  `patience` is when the signal aborts. */
    method CaptureStable(settle: bool, patience: nat) returns (layers: Option<Layers>, ghost m: nat)
      requires Valid() && NonRepeating(worlds)
      modifies this`now, this`stamps
      ensures Valid()
      ensures layers.Some? ==> old(now) <= m < |worlds| && layers.value == LayersOf(worlds[m], ignored)
      ensures layers.Some? ==>
                var n := if settle then 4 else 3; |stamps| >= |old(stamps)| + n && EndsEqual(stamps, n, stamps[|stamps| - 1])
      ensures Unwritten(worlds, old(now)) && patience > (if settle then 2 else 0) ==> layers.Some?
    {
      m, layers := 0, None;
      var left := patience;
      while left > 0
        invariant Valid() && left <= patience && old(now) <= now && |old(stamps)| <= |stamps| && layers == None
        invariant Unwritten(worlds, old(now)) && patience > (if settle then 2 else 0) ==> left == patience
      {
        var stable;
        ghost var times;
        stable, left, times := ReadStable(settle, left);
        if stable.None? { return; }
        layers, m := TryCandidate(stable.value, times, old(now));
        if layers.Some? { return; }
      }
    }
  }
}
