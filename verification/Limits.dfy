/**
 Where the whole-run invariant stops: rows a scan inserts without an event, and
 commands that share a second with what they act on; and what merging guarantees
 of the observations a scan folds.
 */
module Limits {
  import opened Wrappers
  import opened Events
  import opened Findings
  import opened LogOrder
  import opened Replay
  import opened AssignIds
  import opened Lookup
  import opened Delta
  import opened Refine
  import opened Commands
  import opened Agreement
  import opened Mutations
  import opened Storing
  import opened ScanSteps
  import Scans
  import Merge

  // ---------------------------------------------------------------------
  // Baseline rows
  // ---------------------------------------------------------------------

  /** The first place of the first observation of a fingerprint. */
  function FirstPlace(merged: seq<Merged>, fp: string, i: nat): Option<Location>
    requires i <= |merged|
  {
    if i == 0 then None
    else
      var before := FirstPlace(merged, fp, i - 1);
      if before.None? && merged[i - 1].fp == fp && merged[i - 1].locs != [] then Some(merged[i - 1].locs[0]) else before
  }

  /** No detection of the fingerprint at the place, or at any place. */
  ghost predicate NeverAt(evs: seq<Event>, fp: string, place: Option<Location>) {
    forall x :: x in evs && x.fp == fp && x.kind == Detected && x.payload.DetectedData? ==>
      place.Some? && Location(x.payload.path, x.payload.line) != place.value
  }

  lemma {:induction false} SightsAvoid(t: int, o: Options, m: Merged, locs: seq<Location>, i: nat, fp: string, place: Option<Location>)
    requires i <= |m.locs| && (m.fp == fp ==> place.Some? && place.value in locs)
    ensures NeverAt(NewSights(t, o, m, locs, i), fp, place)
  {
    if i > 0 {
      SightsAvoid(t, o, m, locs, i - 1, fp, place);
      Scans.LocsGrow(locs, m.locs, i - 1);
    }
  }

  lemma {:induction false} FirstSightsOf(t: int, o: Options, m: Merged, i: nat)
    requires i <= |m.locs|
    ensures forall x :: x in FirstSights(t, o, m, i) ==> x.fp == m.fp
  {
    if i > 0 {
      FirstSightsOf(t, o, m, i - 1);
    }
  }

  ghost predicate Located(merged: seq<Merged>) {
    forall i :: 0 <= i < |merged| ==> merged[i].locs != []
  }

  /** How a pass stands to a fingerprint that was unknown, and is in the baseline. */
  ghost predicate Hidden(p: Pass, fp: string, place: Option<Location>) {
    && NeverAt(p.evs, fp, place)
    && (place.None? <==> !Known(p.fs, fp))
    && (place.Some? ==> place.value in p.fs[Latest(p.fs, fp)].locs)
  }

  lemma OneHides(p: Pass, baseline: seq<string>, m: Merged, o: Options, t: int, fp: string, place: Option<Location>)
    requires Hidden(p, fp, place) && fp in baseline && m.locs != []
    ensures Hidden(MergeOne(p, baseline, m, o, t), fp, if place.None? && m.fp == fp then Some(m.locs[0]) else place)
  {
    var k := Latest(p.fs, m.fp);
    if k >= 0 {
      LatestUpdate(p.fs, k, Refreshed(p.fs[k], m, t), fp);
      Scans.LocsGrow(p.fs[k].locs, m.locs, |m.locs|);
      SightsAvoid(t, o, m, p.fs[k].locs, |m.locs|, fp, place);
    } else {
      LatestAppend(p.fs, Newborn(m, t, m.fp in baseline), fp);
      FirstSightsOf(t, o, m, |m.locs|);
    }
  }

  ghost predicate HiddenSoFar(merged: seq<Merged>, fp: string, i: nat, p: Pass) {
    i <= |merged| && Hidden(p, fp, FirstPlace(merged, fp, i))
  }

  lemma {:induction false} MergeHides(fs: seq<Finding>, baseline: seq<string>, merged: seq<Merged>, o: Options, t: int, n: nat, fp: string)
    requires n <= |merged| && Located(merged) && !Known(fs, fp) && fp in baseline
    ensures Hidden(MergeUpTo(fs, baseline, merged, o, t, n), fp, FirstPlace(merged, fp, n))
  {
    var good: (nat, Pass) -> bool := (i: nat, p: Pass) => HiddenSoFar(merged, fp, i, p);
    forall i: nat, j: nat, p: Pass | j == i + 1 && j <= n && good(i, p)
      ensures good(j, MergeOne(p, baseline, merged[i], o, t))
    {
      var place := FirstPlace(merged, fp, i);
      OneHides(p, baseline, merged[i], o, t, fp, place);
      assert FirstPlace(merged, fp, j) == if place.None? && merged[i].fp == fp then Some(merged[i].locs[0]) else place;
    }
    MergeInduction(fs, baseline, merged, o, t, good, n);
  }

  lemma {:induction false} NeverLivesThere(evs: seq<Event>, fp: string, place: Location, i: nat)
    requires i <= |evs| && NeverAt(evs, fp, Some(place))
    ensures var r := LivesUpTo(fp, None, evs, i); r.Some? ==> place !in r.value.places
  {
    if i > 0 {
      NeverLivesThere(evs, fp, place, i - 1);
      assert evs[i - 1] in evs;
    }
  }

  lemma {:induction false} SeenHasPlace(merged: seq<Merged>, fp: string, i: nat)
    requires i <= |merged| && Located(merged)
    ensures fp in SeenUpTo(merged, i) <==> FirstPlace(merged, fp, i).Some?
  {
    if i > 0 {
      SeenHasPlace(merged, fp, i - 1);
    }
  }

  /** None of the scan's events places the hidden row where the state has it. */
  lemma {:induction false} FoldHides(fs: seq<Finding>, baseline: seq<string>, merged: seq<Merged>, cov: Coverage, o: Options, t: int, fp: string)
    requires Unique(fs) && Located(merged) && !Known(fs, fp) && fp in baseline && fp in SeenUpTo(merged, |merged|)
    ensures var r, place := Folded(fs, baseline, merged, cov, o, t), FirstPlace(merged, fp, |merged|);
      && place.Some? && NeverAt(r.events, fp, place)
      && Look(r.findings, fp).Some? && place.value in Look(r.findings, fp).value.places
  {
    var p, seen := MergeUpTo(fs, baseline, merged, o, t, |merged|), SeenUpTo(merged, |merged|);
    SeenHasPlace(merged, fp, |merged|);
    MergeHides(fs, baseline, merged, o, t, |merged|, fp);
    GoneEvents(p.fs, seen, cov, o, t, |p.fs|);
    SurfacedEvents(p.fs, merged, o, t, |merged|);
    Scans.MergeUnique(fs, baseline, merged, o, t, |merged|);
    KeptLook(p.fs, seen, cov, |p.fs|, fp);
    assert FirstPlace(merged, fp, |merged|).value in Places(p.fs[Latest(p.fs, fp)].locs);
  }

  lemma PinnedNeverAt(evs: seq<Event>, x: seq<Event>, fp: string, place: Location)
    requires NeverAt(evs, fp, Some(place)) && forall e :: e in x <==> e in Pinned(evs)
    ensures NeverAt(x, fp, Some(place))
  {
    forall e | e in x && e.fp == fp && e.kind == Detected && e.payload.DetectedData?
      ensures Location(e.payload.path, e.payload.line) != place
    {
      var i :| 0 <= i < |evs| && Pinned(evs)[i] == e;
      assert evs[i] in evs;
    }
  }

  /** A row inserted without an event puts state and log out of step. */
  lemma SilentInsertBreaks(w: Codec, sys: System, c: Command, i: nat)
    requires Injective(w) && InStep(w, sys) && c.Scan? && ScanSortsLast(w, sys, c) && WholeFps(c.merged)
    requires Accepted(sys.disk.findings, sys.disk.baseline, c.merged, c.cov, c.o, c.at)
    requires Spared(Folded(sys.disk.findings, sys.disk.baseline, c.merged, c.cov, c.o, c.at).findings)
    requires Located(c.merged) && i < |c.merged| && !Logged(sys.disk.findings, sys.disk.baseline, c.merged[i])
    ensures !InStep(w, Scanning(w, sys, c))
  {
    var d, fp := sys.disk, c.merged[i].fp;
    var r := Folded(d.findings, d.baseline, c.merged, c.cov, c.o, c.at);
    var x := ScanEvents(w, c, d.findings, d.baseline);
    ScanLives(w, sys, c);
    SeenMeans(c.merged, |c.merged|, fp);
    FoldHides(d.findings, d.baseline, c.merged, c.cov, c.o, c.at, fp);
    var place := FirstPlace(c.merged, fp, |c.merged|).value;
    PinnedNeverAt(r.events, x, fp, place);
    NeverLivesThere(x, fp, place, |x|);
    Scans.FoldUnique(d.findings, d.baseline, c.merged, c.cov, c.o, c.at);
    StoredSame(r.findings);
    assert Look(Stored(r.findings), fp) == Look(r.findings, fp);
    var log' := Scanning(w, sys, c).log;
    assert Look(Replayed(w.idOf, log').value.findings, fp) == Lives(fp, None, x);
  }

  /** A scan whose ids spare the list keeps state and log in step exactly when it inserts no baseline row. */
  lemma ScanKeepsStepIffRecorded(w: Codec, sys: System, c: Command)
    requires Injective(w) && InStep(w, sys) && c.Scan? && ScanSortsLast(w, sys, c) && WholeFps(c.merged)
    requires Accepted(sys.disk.findings, sys.disk.baseline, c.merged, c.cov, c.o, c.at)
    requires Located(c.merged) && Uniform(c.merged)
    requires Spared(Folded(sys.disk.findings, sys.disk.baseline, c.merged, c.cov, c.o, c.at).findings)
    ensures InStep(w, Scanning(w, sys, c)) <==> Recorded(sys.disk.findings, sys.disk.baseline, c.merged)
  {
    if Recorded(sys.disk.findings, sys.disk.baseline, c.merged) {
      ScanKeepsStepIff(w, sys, c);
    } else {
      var i :| 0 <= i < |c.merged| && !Logged(sys.disk.findings, sys.disk.baseline, c.merged[i]);
      SilentInsertBreaks(w, sys, c, i);
    }
  }

  // ---------------------------------------------------------------------
  // One second
  // ---------------------------------------------------------------------

  /**
   A deferral in the second of the detection it defers, whose line sorts first: the
   replay meets it before the finding exists, and the finding comes back open.
   */
  lemma SameSecondBreaks(w: Codec, det: Event, c: Command, f: Finding)
    requires Injective(w) && Valid(det) && det.kind == Detected && c.Defer? && c.id == det.fp
    requires f == Fresh(Pin(det)) && Second(c.at) == Second(det.ts)
    requires Valid(MutationEvent(c, det.fp))
    requires LexLess(w.canon(Pin(MutationEvent(c, det.fp))), w.canon(Pin(det)))
    ensures var sys := System([Line(w, det)], Disk([f], [], []));
      InStep(w, sys) && !InStep(w, Mutate(w, sys, c))
  {
    var sys, ev := System([Line(w, det)], Disk([f], [], [])), MutationEvent(c, det.fp);
    var a, b := Line(w, det), Line(w, ev);
    OneDetectionInStep(w, det, f);
    OnlyOneFound(f);
    assert Resolve([f], c.id) == Found(0);
    OneEntryVisited(a);
    BeforeTotal(a, b);
    assert Ahead([a], b) == [];
    assert Earlier(w, sys.log, ev) == [];
    MutateKeepsStepIff(w, sys, c, 0);
  }

  lemma OneEntryVisited(a: Entry)
    ensures Visited([a]) == [a]
  {
    assert [a][..0] == [];
    assert Sorted([a]) == [a];
    assert RawsOf([]) == {};
    assert Collapsed([a]) == [a];
  }

  /** A store after its first detection. */
  lemma OneDetectionInStep(w: Codec, det: Event, f: Finding)
    requires Valid(det) && det.kind == Detected && f == Fresh(Pin(det))
    ensures InStep(w, System([Line(w, det)], Disk([f], [], [])))
  {
    OneLineVisited(w, det);
    BirthFolds(w, det);
    PinKeepsTheSecond(det);
    assert FingerprintsOf([f]) == [det.fp];
  }

  lemma OnlyOneFound(f: Finding)
    ensures Resolve([f], f.fp) == Found(0)
  {
    ResolveMeaning([f], f.fp, Found(0));
  }

  lemma BirthFolds(w: Codec, det: Event)
    requires Valid(det) && det.kind == Detected
    ensures FoldFrom(w.idOf, EMPTY, [Pin(det)]) == Success(State([Fresh(Pin(det))], []))
  {
    assert [Pin(det)][..0] == [];
    assert Latest([], det.fp) == -1;
    assert [] + [Fresh(Pin(det))] == [Fresh(Pin(det))];
  }

  // ---------------------------------------------------------------------
  // What merging hands to a scan
  // ---------------------------------------------------------------------

  ghost predicate WholeHashes(h: Merge.Hashes) {
    && (forall a, b :: |h.of(a, b)| == 64)
    && (forall a, b, c, d :: |h.image(a, b, c, d)| == 64)
  }

  /** Unless secret groups clash, merged observations are fit to be folded: located, whole and uniform. */
  lemma MergeFeedsScan(h: Merge.Hashes, fs: seq<Merge.Obs>)
    requires WholeHashes(h)
    ensures Located(Merge.AllMerged(h, fs)) && WholeFps(Merge.AllMerged(h, fs))
    ensures Merge.FpsDistinct(Merge.AllMerged(h, fs)) ==> Uniform(Merge.AllMerged(h, fs))
  {
    var out := Merge.AllMerged(h, fs);
    forall i | 0 <= i < |out| ensures out[i].locs != [] && |out[i].fp| == 64 {
      Merge.NothingInvented(h, fs, i);
      var ms :| Merge.MadeOf(h, fs, out[i], ms);
      MadeWhole(h, fs, out[i], ms);
    }
    DistinctUniform(out);
  }

  lemma MadeWhole(h: Merge.Hashes, fs: seq<Merge.Obs>, m: Merged, ms: seq<Merge.Obs>)
    requires WholeHashes(h) && Merge.MadeOf(h, fs, m, ms)
    ensures |m.fp| == 64
  {
  }

  lemma DistinctUniform(out: seq<Merged>)
    ensures Merge.FpsDistinct(out) ==> Uniform(out)
  {
    if Merge.FpsDistinct(out) {
      forall i, j | 0 <= i < |out| && 0 <= j < |out| && out[i].fp == out[j].fp
        ensures SameAttributes(out[i], out[j])
      {
        assert i <= j || j < i;
      }
    }
  }
}
