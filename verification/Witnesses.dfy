/**
 Runs from a new store, of planned scans and a baseline, after which state and log
 disagree: a finding the display ids lose, and one the baseline names.
 */
module Witnesses {
  import opened Events
  import opened Findings
  import opened LogOrder
  import opened Replay
  import opened DisplayIds
  import opened AssignIds
  import opened Delta
  import opened Refine
  import opened Commands
  import opened Agreement
  import opened Storing
  import opened ScanSteps
  import opened Runs
  import opened Plain
  import opened Counterexamples
  import opened Scope
  import Limits
  import Scans

  // ---------------------------------------------------------------------
  // Full scans of simple observations
  // ---------------------------------------------------------------------

  function Sighting(fp: string): Merged {
    Merged(fp, "rule", "rule", "", "high", "text", "trivy", [], [], false, false, false, [Location("file", 1)])
  }

  const DISPATCH := Options(Envelope("agent", "build", "engine"), "dispatch", "")

  /** What a planned scan of everything covers. */
  function Everything(): Coverage {
    Planned(Request(Full, false, false, []), []).cov
  }

  function Sightings(fps: seq<string>): (r: seq<Merged>)
    ensures |r| == |fps| && forall i :: 0 <= i < |fps| ==> r[i] == Sighting(fps[i])
  {
    seq(|fps|, i requires 0 <= i < |fps| => Sighting(fps[i]))
  }

  /** A planned scan of everything that sees these fingerprints. */
  function FullScan(at: int, fps: seq<string>): Command {
    Scan(at, Sightings(fps), Everything(), DISPATCH)
  }

  /** One that sees nothing. */
  function EmptyScan(at: int): Command {
    Scan(at, [], Everything(), DISPATCH)
  }

  ghost predicate ValidFps(fps: seq<string>) {
    forall i :: 0 <= i < |fps| ==> ValidFingerprint(fps[i])
  }

  ghost predicate Within(fs: seq<Finding>, fps: seq<string>) {
    forall k :: 0 <= k < |fs| ==> fs[k].fp in fps
  }

  function Merging(fs: seq<Finding>, baseline: seq<string>, at: int, fps: seq<string>, n: nat): Pass
    requires n <= |fps|
  {
    MergeUpTo(fs, baseline, Sightings(fps), DISPATCH, at, n)
  }

  function Folding(fs: seq<Finding>, baseline: seq<string>, at: int, fps: seq<string>): FoldResult {
    Folded(fs, baseline, Sightings(fps), Everything(), DISPATCH, at)
  }

  lemma MergingWithin(fs: seq<Finding>, baseline: seq<string>, at: int, fps: seq<string>, n: nat)
    requires n <= |fps| && Within(fs, fps)
    ensures Within(Merging(fs, baseline, at, fps, n).fs, fps)
  {
    var good: (nat, Pass) -> bool := (i: nat, p: Pass) => Within(p.fs, fps);
    forall i: nat, j: nat, p: Pass | j == i + 1 && j <= n && good(i, p)
      ensures good(j, MergeOne(p, baseline, Sightings(fps)[i], DISPATCH, at))
    {
    }
    MergeInduction(fs, baseline, Sightings(fps), DISPATCH, at, good, n);
  }

  lemma {:induction false} NoneGone(fs: seq<Finding>, at: int, fps: seq<string>, i: nat)
    requires i <= |fs| && Within(fs, fps)
    ensures var seen, cov := SeenUpTo(Sightings(fps), |fps|), Everything();
      KeptUpTo(fs, seen, cov, i) == fs[..i] && GoneUpTo(fs, seen, cov, DISPATCH, at, i) == []
  {
    if i > 0 {
      NoneGone(fs, at, fps, i - 1);
      var j :| 0 <= j < |fps| && fps[j] == fs[i - 1].fp;
      SeenMeans(Sightings(fps), |fps|, fps[j]);
      assert Sightings(fps)[j].fp == fps[j];
    }
  }

  lemma SightsValid(fps: seq<string>, at: int, x: Event)
    requires ValidFps(fps) && SightOf(x, Sightings(fps), DISPATCH, at)
    ensures Valid(x) && x.kind == Detected
  {
  }

  lemma {:induction false} ShownValid(fs: seq<Finding>, fps: seq<string>, at: int, i: nat)
    requires i <= |fps| && ValidFps(fps)
    ensures forall x :: x in SurfacedUpTo(fs, Sightings(fps), DISPATCH, at, i) ==> Valid(x) && x.kind == Surfaced
  {
    if i > 0 {
      ShownValid(fs, fps, at, i - 1);
      assert Valid(SurfacedEvent(at, DISPATCH, fps[i - 1]));
    }
  }

  /** A full scan that sees every row it finds is accepted, keeps them all and remediates none. */
  lemma SeesAll(fs: seq<Finding>, baseline: seq<string>, at: int, fps: seq<string>)
    requires ValidFps(fps) && Within(fs, fps)
    ensures Accepted(fs, baseline, Sightings(fps), Everything(), DISPATCH, at)
    ensures Folding(fs, baseline, at, fps).findings == Merging(fs, baseline, at, fps, |fps|).fs
    ensures forall x :: x in Folding(fs, baseline, at, fps).events ==> x.kind != Remediated
  {
    var p, evs := Merging(fs, baseline, at, fps, |fps|), Folding(fs, baseline, at, fps).events;
    MergingWithin(fs, baseline, at, fps, |fps|);
    NoneGone(p.fs, at, fps, |p.fs|);
    assert p.fs[..|p.fs|] == p.fs;
    MergeSights(fs, baseline, Sightings(fps), DISPATCH, at, |fps|);
    ShownValid(p.fs, fps, at, |fps|);
    forall x | x in evs ensures Valid(x) && x.kind != Remediated {
      if x in p.evs {
        SightsValid(fps, at, x);
      }
    }
  }

  lemma OneJoins(p: Pass, baseline: seq<string>, m: Merged, at: int)
    ensures FingerprintsOf(MergeOne(p, baseline, m, DISPATCH, at).fs) ==
            FingerprintsOf(p.fs) + if m.fp in FingerprintsOf(p.fs) then [] else [m.fp]
  {
    var fps, k := FingerprintsOf(p.fs), Latest(p.fs, m.fp);
    assert forall j :: 0 <= j < |fps| ==> fps[j] == p.fs[j].fp;
    if k >= 0 {
      assert fps[k] == m.fp;
      assert fps + [] == fps;
    }
  }

  lemma JoinNext(fps: seq<string>, have: seq<string>, n: nat, before: seq<string>)
    requires 0 < n <= |fps| && Distinct(fps) && have <= fps
    requires before == if n - 1 <= |have| then have else fps[..n - 1]
    ensures before + (if fps[n - 1] in before then [] else [fps[n - 1]]) == if n <= |have| then have else fps[..n]
  {
    if n <= |have| {
      assert have[n - 1] == fps[n - 1];
    } else {
      assert before == fps[..n - 1];
    }
  }

  /** A scan that sees the rows in their order, and then new ones, appends these. */
  lemma {:induction false} MergingJoins(fs: seq<Finding>, baseline: seq<string>, at: int, fps: seq<string>, n: nat)
    requires n <= |fps| && Distinct(fps) && FingerprintsOf(fs) <= fps
    ensures FingerprintsOf(Merging(fs, baseline, at, fps, n).fs) == if n <= |fs| then FingerprintsOf(fs) else fps[..n]
  {
    if n > 0 {
      MergingJoins(fs, baseline, at, fps, n - 1);
      var p := Merging(fs, baseline, at, fps, n - 1);
      OneJoins(p, baseline, Sightings(fps)[n - 1], at);
      JoinNext(fps, FingerprintsOf(fs), n, FingerprintsOf(p.fs));
    }
  }

  lemma FullScanFolds(fs: seq<Finding>, baseline: seq<string>, at: int, fps: seq<string>)
    requires ValidFps(fps) && Distinct(fps) && FingerprintsOf(fs) <= fps
    ensures Accepted(fs, baseline, Sightings(fps), Everything(), DISPATCH, at)
    ensures FingerprintsOf(Folding(fs, baseline, at, fps).findings) == fps
    ensures forall x :: x in Folding(fs, baseline, at, fps).events ==> x.kind != Remediated
  {
    forall k | 0 <= k < |fs| ensures fs[k].fp in fps {
      assert FingerprintsOf(fs)[k] == fps[k];
    }
    SeesAll(fs, baseline, at, fps);
    MergingJoins(fs, baseline, at, fps, |fps|);
    assert fps[..|fps|] == fps;
  }

  lemma SightingsFit(fs: seq<Finding>, fps: seq<string>)
    requires ValidFps(fps)
    ensures WholeFps(Sightings(fps)) && Uniform(Sightings(fps)) && Recorded(fs, [], Sightings(fps))
  {
  }

  // ---------------------------------------------------------------------
  // A finding the display ids lose
  // ---------------------------------------------------------------------

  ghost predicate NoRemediation(log: seq<Entry>) {
    forall x :: x in log ==> x.ev.kind != Remediated
  }

  /** A full scan on a store in step, without a baseline: what the log knows afterwards, and what is stored. */
  lemma FullScanReplays(w: Codec, sys: System, at: int, fps: seq<string>)
    requires Injective(w) && InStep(w, sys) && sys.disk.baseline == [] && Later(sys.log, at)
    requires ValidFps(fps) && Distinct(fps) && FingerprintsOf(sys.disk.findings) <= fps
    ensures var fs, after := Folding(sys.disk.findings, [], at, fps).findings, Exec(w, sys, FullScan(at, fps));
      && FingerprintsOf(fs) == fps && after.disk == sys.disk.(findings := Stored(fs))
      && (InStep(w, after) <==> Spared(fs))
      && Replayed(w.idOf, after.log).Success? && Agree(fs, Replayed(w.idOf, after.log).value.findings)
      && (NoRemediation(sys.log) ==> NoRemediation(after.log))
  {
    var d, c := sys.disk, FullScan(at, fps);
    FullScanFolds(d.findings, [], at, fps);
    SightingsFit(d.findings, fps);
    LaterScanSortsLast(w, sys, c);
    ScanKeepsStepIff(w, sys, c);
    ScanReplays(w, sys, c);
    LinesOfKinds(w, Folding(d.findings, [], at, fps).events);
  }

  lemma LinesOfKinds(w: Codec, evs: seq<Event>)
    requires forall x :: x in evs ==> x.kind != Remediated
    ensures forall x :: x in LinesOf(w, evs) ==> x.ev.kind != Remediated
  {
    forall i | 0 <= i < |evs| ensures LinesOf(w, evs)[i].ev.kind != Remediated {
      assert evs[i] in evs;
    }
  }

  lemma CrowdedNotSpared(fs: seq<Finding>, fps: seq<string>)
    requires FingerprintsOf(fs) == fps && Crowded(fps)
    ensures FingerprintsOf(Stored(fs)) == [fps[1], fps[2], fps[2]]
    ensures Known(fs, fps[0]) && !Known(Stored(fs), fps[0]) && !Spared(fs)
  {
    CrowdedLoses(fs);
    assert fs[0].fp == fps[0] && fs[1].fp == fps[1] && fs[2].fp == fps[2];
    UniqueDistinct(fs);
    StoredUniqueIff(fs);
  }

  /**
   The first scan of a new store can lose a finding it detects: the log knows it, the
   state never does. `CrowdedExists` names three such fingerprints.
   */
  lemma PlannedScanLoses(w: Codec, at: int, fps: seq<string>)
    requires Injective(w) && Crowded(fps) && ValidFps(fps)
    ensures var after := Exec(w, NewStore([]), FullScan(at, fps));
      && FingerprintsOf(after.disk.findings) == [fps[1], fps[2], fps[2]]
      && Replayed(w.idOf, after.log).Success? && Known(Replayed(w.idOf, after.log).value.findings, fps[0])
      && !Known(after.disk.findings, fps[0]) && NoRemediation(after.log) && !InStep(w, after)
  {
    var after := Exec(w, NewStore([]), FullScan(at, fps));
    NothingInStep(w, []);
    FullScanReplays(w, NewStore([]), at, fps);
    var fs := Folding([], [], at, fps).findings;
    CrowdedNotSpared(fs, fps);
    assert Look(fs, fps[0]) == Look(Replayed(w.idOf, after.log).value.findings, fps[0]);
  }

  lemma ExecLater(w: Codec, sys: System, c: Command, t: int)
    requires Later(sys.log, t) && Stamped(c) && Second(c.at) < Second(t)
    ensures Later(Exec(w, sys, c).log, t)
  {
    var after := Exec(w, sys, c);
    forall i | 0 <= i < |after.log| ensures after.log[i].ev.ts < Second(t) * NANOS_PER_SECOND {
      ExecTimes(w, sys, c, after.log[i]);
    }
  }

  lemma TwoSpared(fs: seq<Finding>, fps: seq<string>)
    requires Crowded(fps) && FingerprintsOf(fs) == fps[..2]
    ensures Spared(fs) && FingerprintsOf(Stored(fs)) == fps[..2] && Known(Stored(fs), fps[0])
  {
    SixDigitsSpare(fs);
    UniqueDistinct(fs);
    StoredSame(fs);
    assert Stored(fs)[0].fp == FingerprintsOf(Stored(fs))[0] == fps[0];
  }

  lemma FirstTwo(w: Codec, at: int, fps: seq<string>)
    requires Injective(w) && Crowded(fps) && ValidFps(fps)
    ensures var one := Exec(w, NewStore([]), FullScan(at, fps[..2]));
      && InStep(w, one) && FingerprintsOf(one.disk.findings) == fps[..2] && Known(one.disk.findings, fps[0])
      && one.disk.baseline == [] && NoRemediation(one.log)
  {
    NothingInStep(w, []);
    FullScanReplays(w, NewStore([]), at, fps[..2]);
    TwoSpared(Folding([], [], at, fps[..2]).findings, fps);
  }

  /** And the second scan can drop one the first had stored, without a remediated event. */
  lemma SecondScanDrops(w: Codec, first: int, second: int, fps: seq<string>)
    requires Injective(w) && Second(first) < Second(second) && Crowded(fps) && ValidFps(fps)
    ensures var one := Exec(w, NewStore([]), FullScan(first, fps[..2]));
      var two := Exec(w, one, FullScan(second, fps));
      && InStep(w, one) && Known(one.disk.findings, fps[0])
      && !Known(two.disk.findings, fps[0]) && NoRemediation(two.log) && !InStep(w, two)
  {
    var one := Exec(w, NewStore([]), FullScan(first, fps[..2]));
    FirstTwo(w, first, fps);
    ExecLater(w, NewStore([]), FullScan(first, fps[..2]), second);
    FullScanReplays(w, one, second, fps);
    CrowdedNotSpared(Folding(one.disk.findings, [], second, fps).findings, fps);
  }

  // ---------------------------------------------------------------------
  // A finding the baseline names
  // ---------------------------------------------------------------------

  lemma OneMerged(fp: string, at: int, baseline: seq<string>)
    ensures Merging([], baseline, at, [fp], 1).fs == [Newborn(Sighting(fp), at, fp in baseline)]
  {
    assert Merging([], baseline, at, [fp], 0) == Pass([], []);
    assert Latest([], fp) == -1;
    assert Sightings([fp])[0] == Sighting(fp);
    assert [] + [Newborn(Sighting(fp), at, fp in baseline)] == [Newborn(Sighting(fp), at, fp in baseline)];
  }

  lemma OneFolded(fp: string, at: int, baseline: seq<string>)
    requires ValidFingerprint(fp)
    ensures Accepted([], baseline, Sightings([fp]), Everything(), DISPATCH, at)
    ensures Folding([], baseline, at, [fp]).findings == [Newborn(Sighting(fp), at, fp in baseline)]
  {
    SeesAll([], baseline, at, [fp]);
    OneMerged(fp, at, baseline);
  }

  lemma OneSpared(fs: seq<Finding>)
    requires |fs| == 1 && |fs[0].fp| == 64
    ensures Spared(fs)
  {
  }

  /** The row a first sighting leaves, whatever its flag. */
  ghost predicate OneRow(fs: seq<Finding>, fp: string) {
    FingerprintsOf(fs) == [fp] && fs[0].scanner == "trivy"
  }

  lemma SeenOnce(w: Codec, fp: string, at: int)
    requires Injective(w) && ValidFingerprint(fp)
    ensures var one := Exec(w, NewStore([]), FullScan(at, [fp]));
      InStep(w, one) && OneRow(one.disk.findings, fp) && one.disk.baseline == []
  {
    var fs := Folding([], [], at, [fp]).findings;
    NothingInStep(w, []);
    OneFolded(fp, at, []);
    OneSpared(fs);
    FullScanReplays(w, NewStore([]), at, [fp]);
    UniqueDistinct(fs);
    StoredIsNamed(fs);
    StoredSame(fs);
  }

  lemma MadeBaseline(w: Codec, fp: string, sys: System, at: int)
    requires Injective(w) && ValidFingerprint(fp) && InStep(w, sys) && OneRow(sys.disk.findings, fp)
    ensures var after := Exec(w, sys, Rebaseline(at, "engine", true));
      InStep(w, after) && OneRow(after.disk.findings, fp) && after.disk.baseline == [fp]
  {
    RebaselineKeepsStep(w, sys, Rebaseline(at, "engine", true));
    assert FingerprintsOf(Debt(sys.disk.findings, true)) == FingerprintsOf(sys.disk.findings);
  }

  lemma NothingSeen(fp: string, fs: seq<Finding>, baseline: seq<string>, at: int)
    requires ValidFingerprint(fp) && OneRow(fs, fp)
    ensures Folded(fs, baseline, [], Everything(), DISPATCH, at) == FoldResult([RemediatedEvent(at, DISPATCH, fp)], [])
    ensures Accepted(fs, baseline, [], Everything(), DISPATCH, at)
  {
    var cov := Everything();
    assert fs[0].fp == FingerprintsOf(fs)[0];
    Scans.CoveredMeans(cov, fs[0].locs, |fs[0].locs|);
    assert Gone(fs[0], {}, cov);
    assert KeptUpTo(fs, {}, cov, 0) == [] && KeptUpTo(fs, {}, cov, 1) == [];
    assert GoneUpTo(fs, {}, cov, DISPATCH, at, 0) == [];
    assert GoneUpTo(fs, {}, cov, DISPATCH, at, 1) == [RemediatedEvent(at, DISPATCH, fp)];
    assert Valid(RemediatedEvent(at, DISPATCH, fp));
  }

  lemma Cleared(w: Codec, fp: string, sys: System, at: int)
    requires Injective(w) && ValidFingerprint(fp) && InStep(w, sys) && Later(sys.log, at) && OneRow(sys.disk.findings, fp)
    ensures var after := Exec(w, sys, EmptyScan(at));
      InStep(w, after) && after.disk.findings == [] && after.disk.baseline == sys.disk.baseline
  {
    var c := EmptyScan(at);
    NothingSeen(fp, sys.disk.findings, sys.disk.baseline, at);
    LaterScanSortsLast(w, sys, c);
    ScanKeepsStepIff(w, sys, c);
    UniqueDistinct([]);
    StoredIsNamed([]);
  }

  lemma SeenAgain(w: Codec, fp: string, sys: System, at: int)
    requires Injective(w) && ValidFingerprint(fp) && InStep(w, sys) && Later(sys.log, at)
    requires sys.disk.findings == [] && sys.disk.baseline == [fp]
    ensures var after := Exec(w, sys, FullScan(at, [fp]));
      Known(after.disk.findings, fp) && !InStep(w, after)
  {
    var c, fs := FullScan(at, [fp]), Folding([], [fp], at, [fp]).findings;
    OneFolded(fp, at, [fp]);
    OneSpared(fs);
    UniqueDistinct(fs);
    StoredSame(fs);
    LatestIsThe(fs, fp, 0);
    assert Look(Stored(fs), fp) == Look(fs, fp);
    LaterScanSortsLast(w, sys, c);
    SightingsFit([], [fp]);
    Limits.SilentInsertBreaks(w, sys, c, 0);
  }

  /**
   A finding is seen, made part of the baseline, remediated, and seen again: state and
   log are in step until the last scan, and then the log does not know the finding.
   */
  lemma BaselineRowBreaks(w: Codec, fp: string, a: int, b: int, c: int, d: int)
    requires Injective(w) && ValidFingerprint(fp)
    requires Second(a) < Second(b) < Second(c) < Second(d)
    ensures var one := Exec(w, NewStore([]), FullScan(a, [fp]));
      var two := Exec(w, one, Rebaseline(b, "engine", true));
      var three := Exec(w, two, EmptyScan(c));
      var four := Exec(w, three, FullScan(d, [fp]));
      InStep(w, one) && InStep(w, two) && InStep(w, three) && Known(four.disk.findings, fp) && !InStep(w, four)
  {
    var one := Exec(w, NewStore([]), FullScan(a, [fp]));
    SeenOnce(w, fp, a);
    ExecLater(w, NewStore([]), FullScan(a, [fp]), c);
    ExecLater(w, NewStore([]), FullScan(a, [fp]), d);
    MadeBaseline(w, fp, one, b);
    var two := Exec(w, one, Rebaseline(b, "engine", true));
    ExecLater(w, one, Rebaseline(b, "engine", true), c);
    ExecLater(w, one, Rebaseline(b, "engine", true), d);
    Cleared(w, fp, two, c);
    ExecLater(w, two, EmptyScan(c), d);
    SeenAgain(w, fp, Exec(w, two, EmptyScan(c)), d);
  }
}
