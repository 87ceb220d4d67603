/**
 What a scan of a scope runs and what its absence of a finding can prove
 (internal/scan/scope.go:39-51, pipeline.go:163-214 and :562-588).
 */
module Scope {
  import opened Findings
  import opened DisplayIds
  import opened AssignIds
  import opened Delta
  import opened Commands
  import opened Storing
  import opened Departures
  import opened Scans

  datatype Scope = Staged | Diff | Full | Image

  /** `images` are the configured Dockerfiles, by path. */
  datatype Request = Request(scope: Scope, deep: bool, checkov: bool, images: seq<string>)

  datatype Plan =
    | NothingStaged
    | NoImages
    | Plan(target: bool, scanners: seq<string>, cov: Coverage, images: seq<string>)

  const TRIVY_IMAGE := "trivy-image"

  // ---------------------------------------------------------------------
  // The choice
  // ---------------------------------------------------------------------

  function Tier(r: Request): seq<string> {
    if r.scope == Image then []
    else
      ["gitleaks", "trivy"] + (if r.checkov then ["checkov"] else []) +
      if r.scope == Full || r.deep then ["opengrep"] else []
  }

  method TierScanners(scope: Scope, deep: bool, checkov: bool) returns (scanners: seq<string>)
    ensures scanners == Tier(Request(scope, deep, checkov, []))
  {
    if scope == Image {
      return [];
    }
    scanners := ["gitleaks", "trivy"];
    if checkov {
      scanners := scanners + ["checkov"];
    }
    if scope == Full || deep {
      scanners := scanners + ["opengrep"];
    }
  }

  function SetOf(paths: seq<string>): set<string> {
    set p | p in paths
  }

  function IntersectUpTo(want: seq<string>, have: set<string>, i: nat): seq<string>
    requires i <= |want|
  {
    if i == 0 then []
    else
      var before := IntersectUpTo(want, have, i - 1);
      if want[i - 1] in have then before + [want[i - 1]] else before
  }

  /** The images whose phase joins the scan. `paths` is what git reports as staged or changed. */
  function Joined(r: Request, paths: seq<string>): seq<string> {
    match r.scope
    case Staged => IntersectUpTo(r.images, SetOf(paths), |r.images|)
    case Diff => []
    case Full => r.images
    case Image => r.images
  }

  function Planned(r: Request, paths: seq<string>): Plan {
    if r.scope == Staged && paths == [] then NothingStaged
    else if r.scope == Image && r.images == [] then NoImages
    else
      var images := Joined(r, paths);
      var scanners := if images == [] then Tier(r) else Tier(r) + [TRIVY_IMAGE];
      Plan(r.scope != Image, Tier(r),
           Coverage(scanners, r.scope == Full,
                    match r.scope case Staged => SetOf(paths) case Diff => SetOf(paths) case Full => {} case Image => SetOf(r.images)),
           images)
  }

  method ToSet(paths: seq<string>) returns (m: set<string>)
    ensures m == SetOf(paths)
  {
    m := {};
    for i := 0 to |paths|
      invariant m == SetOf(paths[..i])
    {
      assert paths[..i + 1] == paths[..i] + [paths[i]];
      m := m + {paths[i]};
    }
    assert paths[..|paths|] == paths;
  }

  method IntersectEntries(want: seq<string>, have: seq<string>) returns (out: seq<string>)
    ensures out == IntersectUpTo(want, SetOf(have), |want|)
  {
    var known := ToSet(have);
    out := [];
    for i := 0 to |want|
      invariant out == IntersectUpTo(want, known, i)
    {
      if want[i] in known {
        out := out + [want[i]];
      }
    }
  }

  /** The scope switch of `Run`. */
  method PlanScan(r: Request, paths: seq<string>) returns (plan: Plan)
    ensures plan == Planned(r, paths)
  {
    var tier := TierScanners(r.scope, r.deep, r.checkov);
    var target, allPaths := false, false;
    var covered: set<string>, images: seq<string> := {}, [];
    match r.scope {
      case Staged =>
        if |paths| == 0 {
          return NothingStaged;
        }
        target := true;
        covered := ToSet(paths);
        images := IntersectEntries(r.images, paths);
      case Diff =>
        target := true;
        covered := ToSet(paths);
      case Full =>
        target, allPaths := true, true;
        images := r.images;
      case Image =>
        if |r.images| == 0 {
          return NoImages;
        }
        covered := ToSet(r.images);
        images := r.images;
    }
    var scanners := tier;
    if |images| > 0 {
      scanners := scanners + [TRIVY_IMAGE];
    }
    return Plan(target, tier, Coverage(scanners, allPaths, covered), images);
  }

  // ---------------------------------------------------------------------
  // What it can prove
  // ---------------------------------------------------------------------

  lemma {:induction false} IntersectIs(want: seq<string>, have: set<string>, i: nat)
    requires i <= |want|
    ensures forall p :: p in IntersectUpTo(want, have, i) <==> p in want[..i] && p in have
  {
    if i > 0 {
      IntersectIs(want, have, i - 1);
      assert want[..i] == want[..i - 1] + [want[i - 1]];
    }
  }

  /** When the image phase takes part. */
  predicate ImagePhase(r: Request, paths: seq<string>) {
    match r.scope
    case Staged => exists p :: p in paths && p in r.images
    case Diff => false
    case Full => r.images != []
    case Image => r.images != []
  }

  lemma TierHasNoImages(r: Request)
    ensures TRIVY_IMAGE !in Tier(r)
  {
    assert |"gitleaks"| == 8 && |"trivy"| == 5 && |"checkov"| == 7 && |"opengrep"| == 8 && |TRIVY_IMAGE| == 11;
  }

  lemma JoinedIff(r: Request, paths: seq<string>)
    ensures Joined(r, paths) != [] <==> ImagePhase(r, paths)
  {
    IntersectIs(r.images, SetOf(paths), |r.images|);
    assert r.images[..|r.images|] == r.images;
    if r.scope == Staged {
      var out := Joined(r, paths);
      if out != [] {
        assert out[0] in r.images && out[0] in paths;
      }
      if p :| p in paths && p in r.images {
        assert p in out;
      }
    }
  }

  /** A scan is planned unless nothing is staged, or images alone are asked for and none is configured. */
  lemma PlannedIff(r: Request, paths: seq<string>)
    ensures Planned(r, paths).NothingStaged? <==> r.scope == Staged && paths == []
    ensures Planned(r, paths).NoImages? <==> r.scope == Image && r.images == []
  {
  }

  /** What a plan covers: everything, what git reports, or the configured Dockerfiles. */
  lemma CoversIff(r: Request, paths: seq<string>, path: string)
    requires Planned(r, paths).Plan?
    ensures var cov := Planned(r, paths).cov;
      cov.allPaths || path in cov.paths <==>
        || r.scope == Full
        || ((r.scope == Staged || r.scope == Diff) && path in paths)
        || (r.scope == Image && path in r.images)
  {
  }

  lemma ScannersApart()
    ensures "gitleaks" != "trivy" && "gitleaks" != "checkov" && "gitleaks" != "opengrep" && "trivy" != "checkov"
    ensures "trivy" != "opengrep" && "checkov" != "opengrep"
    ensures TRIVY_IMAGE !in ["gitleaks", "trivy", "checkov", "opengrep"]
  {
    assert |"gitleaks"| == 8 && |"trivy"| == 5 && |"checkov"| == 7 && |"opengrep"| == 8 && |TRIVY_IMAGE| == 11;
    assert "gitleaks"[0] != "opengrep"[0];
  }

  /** Which scanners a plan runs in its file-system tier. */
  lemma RunsIff(r: Request, paths: seq<string>, scanner: string)
    requires Planned(r, paths).Plan?
    ensures scanner in Planned(r, paths).scanners <==>
      && r.scope != Image
      && (|| scanner == "gitleaks" || scanner == "trivy"
          || (scanner == "checkov" && r.checkov)
          || (scanner == "opengrep" && (r.scope == Full || r.deep)))
    ensures Planned(r, paths).target <==> r.scope != Image
  {
    ScannersApart();
  }

  /** Which Dockerfiles' images join it. */
  lemma JoinsIff(r: Request, paths: seq<string>, dockerfile: string)
    requires Planned(r, paths).Plan?
    ensures dockerfile in Planned(r, paths).images <==>
      && dockerfile in r.images
      && (r.scope == Full || r.scope == Image || (r.scope == Staged && dockerfile in paths))
  {
    IntersectIs(r.images, SetOf(paths), |r.images|);
    assert r.images[..|r.images|] == r.images;
  }

  /** An absence is held against the scanners of the tier, and against trivy-image when images join. */
  lemma CountsAsRunIff(r: Request, paths: seq<string>)
    requires Planned(r, paths).Plan?
    ensures var p := Planned(r, paths);
      p.cov.scanners == if p.images == [] then p.scanners else p.scanners + ["trivy-image"]
  {
  }

  /** trivy-image counts as having run exactly when the image phase takes part. */
  lemma ImageScannerIff(r: Request, paths: seq<string>)
    requires Planned(r, paths).Plan?
    ensures TRIVY_IMAGE in Planned(r, paths).cov.scanners <==> ImagePhase(r, paths)
  {
    TierHasNoImages(r);
    JoinedIff(r, paths);
  }

  /**
   For a configured Dockerfile, coverage is honest: an absence at its path can be
   held against a trivy-image finding exactly when its own image was scanned.
   */
  lemma CoverageIsHonest(r: Request, paths: seq<string>, dockerfile: string)
    requires Planned(r, paths).Plan? && dockerfile in r.images
    ensures var p := Planned(r, paths);
      TRIVY_IMAGE in p.cov.scanners && Covers(p.cov, dockerfile) <==> dockerfile in p.images
  {
    ImageScannerIff(r, paths);
    IntersectIs(r.images, SetOf(paths), |r.images|);
    assert r.images[..|r.images|] == r.images;
  }

  /** An absence at the Dockerfile can be held against a trivy-image finding exactly when its image was scanned. */
  predicate Honest(p: Plan, dockerfile: string)
    requires p.Plan?
  {
    TRIVY_IMAGE in p.cov.scanners && Covers(p.cov, dockerfile) <==> dockerfile in p.images
  }

  /**
   For any Dockerfile, coverage is honest exactly when it is configured, or no image
   phase takes part, or the scope is the images alone, or it is not among the staged paths.
   */
  lemma HonestIff(r: Request, paths: seq<string>, dockerfile: string)
    requires Planned(r, paths).Plan?
    ensures Honest(Planned(r, paths), dockerfile) <==>
      || dockerfile in r.images
      || !ImagePhase(r, paths)
      || r.scope == Image
      || (r.scope == Staged && dockerfile !in paths)
  {
    ImageScannerIff(r, paths);
    IntersectIs(r.images, SetOf(paths), |r.images|);
    assert r.images[..|r.images|] == r.images;
    if dockerfile in r.images {
      CoverageIsHonest(r, paths, dockerfile);
    }
  }

  /** A full scan clears a Dockerfile no longer configured with another's image alone. */
  lemma FullScanClears()
    ensures var p := Planned(Request(Full, false, false, ["A"]), []);
      p.Plan? && TRIVY_IMAGE in p.cov.scanners && Covers(p.cov, "B") && "B" !in p.images
  {
    ImageScannerIff(Request(Full, false, false, ["A"]), []);
    assert "A"[0] != "B"[0];
  }

  /** So does a staged scan of both files. */
  lemma StagedScanClears()
    ensures var p := Planned(Request(Staged, false, false, ["A"]), ["A", "B"]);
      p.Plan? && TRIVY_IMAGE in p.cov.scanners && Covers(p.cov, "B") && "B" !in p.images
  {
    var r, paths := Request(Staged, false, false, ["A"]), ["A", "B"];
    assert "A" in paths && "B" in paths && "A" in r.images;
    ImageScannerIff(r, paths);
    IntersectIs(r.images, SetOf(paths), 1);
    assert "A"[0] != "B"[0];
  }

  // ---------------------------------------------------------------------
  // A finding whose scanner never ran
  // ---------------------------------------------------------------------

  /** Every row of the fingerprint is this scanner's, and there is one. */
  ghost predicate Owned(fs: seq<Finding>, fp: string, scanner: string) {
    Known(fs, fp) && forall k :: 0 <= k < |fs| && fs[k].fp == fp ==> fs[k].scanner == scanner
  }

  lemma OneKeepsOwner(p: Pass, baseline: seq<string>, m: Merged, o: Options, t: int, fp: string, scanner: string)
    requires Owned(p.fs, fp, scanner)
    ensures Owned(MergeOne(p, baseline, m, o, t).fs, fp, scanner)
  {
    var k := Latest(p.fs, m.fp);
    if k >= 0 {
      LatestUpdate(p.fs, k, Refreshed(p.fs[k], m, t), fp);
    } else {
      LatestAppend(p.fs, Newborn(m, t, m.fp in baseline), fp);
    }
  }

  lemma {:induction false} MergeKeepsOwner(fs: seq<Finding>, baseline: seq<string>, s: Input, fp: string, scanner: string)
    requires Owned(fs, fp, scanner)
    ensures Owned(MergeUpTo(fs, baseline, s.merged, s.o, s.at, |s.merged|).fs, fp, scanner)
  {
    var good: (nat, Pass) -> bool := (i: nat, p: Pass) => Owned(p.fs, fp, scanner);
    forall i: nat, j: nat, p: Pass | j == i + 1 && j <= |s.merged| && good(i, p)
      ensures good(j, MergeOne(p, baseline, s.merged[i], s.o, s.at))
    {
      OneKeepsOwner(p, baseline, s.merged[i], s.o, s.at, fp, scanner);
    }
    MergeInduction(fs, baseline, s.merged, s.o, s.at, good, |s.merged|);
  }

  /** The fold keeps an owned finding whose scanner did not run. */
  lemma FoldKeepsOwner(fs: seq<Finding>, baseline: seq<string>, s: Input, fp: string, scanner: string)
    requires Owned(fs, fp, scanner) && scanner !in s.cov.scanners
    ensures Owned(FoldInput(fs, baseline, s).findings, fp, scanner) && !ProvesGone(fs, baseline, s, fp)
  {
    var g, seen := MergeUpTo(fs, baseline, s.merged, s.o, s.at, |s.merged|).fs, SeenUpTo(s.merged, |s.merged|);
    var kept := KeptUpTo(g, seen, s.cov, |g|);
    MergeKeepsOwner(fs, baseline, s, fp, scanner);
    KeptAre(g, seen, s.cov, |g|);
    forall k | 0 <= k < |kept| && kept[k].fp == fp ensures kept[k].scanner == scanner {
      assert kept[k] in kept;
    }
    assert Unproved(fs, fp, s.cov) by {
      var k := Latest(fs, fp);
      assert fs[k].fp == fp && !RowProved(fs[k], s.cov);
    }
    FoldKnows(fs, baseline, s.merged, s.cov, s.o, s.at, fp);
  }

  lemma StoredKeepsOwner(fs: seq<Finding>, fp: string, scanner: string)
    requires Long(FingerprintsOf(fs)) && Owned(fs, fp, scanner) && Known(Stored(fs), fp)
    ensures Owned(Stored(fs), fp, scanner)
  {
    forall j | 0 <= j < |Stored(fs)| && Stored(fs)[j].fp == fp ensures Stored(fs)[j].scanner == scanner {
      StoredRow(fs, j);
    }
  }

  lemma LinkKeepsOwner(baseline: seq<string>, scans: seq<Input>, lists: seq<seq<Finding>>, i: nat, fp: string, scanner: string)
    requires Link(baseline, scans, lists, i) && Fit(lists[i], scans[i])
    requires Owned(lists[i], fp, scanner) && scanner !in scans[i].cov.scanners
    ensures !ProvesGone(lists[i], baseline, scans[i], fp)
    ensures LosesRow(lists[i], baseline, scans[i], fp) || Owned(lists[i + 1], fp, scanner)
  {
    var fs, s := lists[i], scans[i];
    FoldKeepsOwner(fs, baseline, s, fp, scanner);
    LeavesIff(fs, baseline, s, fp);
    FoldFits(fs, baseline, s);
    if Accepted(fs, baseline, s.merged, s.cov, s.o, s.at) && Known(lists[i + 1], fp) {
      StoredKeepsOwner(FoldInput(fs, baseline, s).findings, fp, scanner);
    }
  }

  lemma OwnedNext(baseline: seq<string>, scans: seq<Input>, lists: seq<seq<Finding>>, i: nat, fp: string, scanner: string)
    requires History(baseline, scans, lists) && AllFit(scans, lists) && i < |scans|
    requires Owned(lists[i], fp, scanner) && scanner !in scans[i].cov.scanners
    requires !Losses(baseline, scans, lists, fp)[i]
    ensures Owned(lists[i + 1], fp, scanner)
  {
    StaysFit(baseline, scans, lists, i);
    LinkKeepsOwner(baseline, scans, lists, i, fp, scanner);
  }

  ghost predicate OwnedAt(lists: seq<seq<Finding>>, fp: string, scanner: string, i: nat) {
    i < |lists| && Owned(lists[i], fp, scanner)
  }

  lemma {:induction false} StaysOwned(lists: seq<seq<Finding>>, losses: seq<bool>, fp: string, scanner: string, n: nat)
    requires n <= |losses| && OwnedAt(lists, fp, scanner, 0) && forall i :: 0 <= i < n ==> !losses[i]
    requires forall i: nat, j: nat :: j == i + 1 && j <= |losses| && OwnedAt(lists, fp, scanner, i) && !losses[i] ==>
      OwnedAt(lists, fp, scanner, j)
    ensures OwnedAt(lists, fp, scanner, n)
  {
    if n > 0 {
      StaysOwned(lists, losses, fp, scanner, n - 1);
    }
  }

  /** A finding survives a sequence of scans in which its scanner never runs exactly when no display ids lose its row. */
  lemma UnscannedSurvivesIff(baseline: seq<string>, scans: seq<Input>, lists: seq<seq<Finding>>, fp: string, scanner: string)
    requires History(baseline, scans, lists) && AllFit(scans, lists) && Owned(lists[0], fp, scanner)
    requires forall j :: 0 <= j < |scans| ==> scanner !in scans[j].cov.scanners
    ensures (forall i :: 0 <= i < |lists| ==> Known(lists[i], fp)) <==>
            (forall i :: 0 <= i < |scans| ==> !Losses(baseline, scans, lists, fp)[i])
  {
    var losses := Losses(baseline, scans, lists, fp);
    StaysIff(baseline, scans, lists, fp);
    forall i: nat, j: nat | j == i + 1 && j <= |losses| && OwnedAt(lists, fp, scanner, i) && !losses[i]
      ensures OwnedAt(lists, fp, scanner, j)
    {
      OwnedNext(baseline, scans, lists, i, fp, scanner);
    }
    if forall i :: 0 <= i < |losses| ==> !losses[i] {
      forall i | 0 <= i < |lists| ensures Known(lists[i], fp) {
        StaysOwned(lists, losses, fp, scanner, i);
      }
    }
  }

  /** A plan, and the coverage the scan records under it. */
  ghost predicate PlannedWithoutImages(s: Input, r: Request, paths: seq<string>) {
    Planned(r, paths).Plan? && s.cov == Planned(r, paths).cov && !ImagePhase(r, paths)
  }

  /** So it is for a trivy-image finding in every sequence of planned scans without an image phase. */
  lemma ImageFindingSurvivesIff(baseline: seq<string>, scans: seq<Input>, lists: seq<seq<Finding>>, fp: string,
                                rs: seq<Request>, pathss: seq<seq<string>>)
    requires History(baseline, scans, lists) && AllFit(scans, lists) && Owned(lists[0], fp, TRIVY_IMAGE)
    requires |rs| == |pathss| == |scans|
    requires forall j :: 0 <= j < |scans| ==> PlannedWithoutImages(scans[j], rs[j], pathss[j])
    ensures (forall i :: 0 <= i < |lists| ==> Known(lists[i], fp)) <==>
            (forall i :: 0 <= i < |scans| ==> !Losses(baseline, scans, lists, fp)[i])
  {
    forall j | 0 <= j < |scans| ensures TRIVY_IMAGE !in scans[j].cov.scanners {
      assert PlannedWithoutImages(scans[j], rs[j], pathss[j]);
      ImageScannerIff(rs[j], pathss[j]);
    }
    UnscannedSurvivesIff(baseline, scans, lists, fp, TRIVY_IMAGE);
  }

  // ---------------------------------------------------------------------
  // A finding outside the paths
  // ---------------------------------------------------------------------

  /** Every row of the fingerprint has a location outside the paths. */
  ghost predicate Outside(fs: seq<Finding>, fp: string, paths: seq<string>) {
    forall k :: 0 <= k < |fs| && fs[k].fp == fp ==> exists l :: l in fs[k].locs && l.path !in paths
  }

  lemma OutsideUnproved(fs: seq<Finding>, fp: string, s: Input, r: Request, paths: seq<string>, k: nat)
    requires Planned(r, paths).Plan? && s.cov == Planned(r, paths).cov && (r.scope == Staged || r.scope == Diff)
    requires Outside(fs, fp, paths) && k < |fs| && fs[k].fp == fp
    ensures !RowProved(fs[k], s.cov)
  {
    var l :| l in fs[k].locs && l.path !in paths;
    CoversIff(r, paths, l.path);
  }

  lemma {:induction false} OutsideNoCopies(fs: seq<Finding>, fp: string, s: Input, i: nat)
    requires i <= |fs| && forall k :: 0 <= k < |fs| && fs[k].fp == fp ==> !RowProved(fs[k], s.cov)
    ensures ProvedCopies(fs, fp, s.merged, s.cov, i) == 0
  {
    if i > 0 {
      OutsideNoCopies(fs, fp, s, i - 1);
    }
  }

  /** A staged or diff scan remediates no finding with a location outside its paths, and forgets none. */
  lemma PathScanSparesOutside(fs: seq<Finding>, baseline: seq<string>, s: Input, r: Request, paths: seq<string>, fp: string)
    requires Planned(r, paths).Plan? && s.cov == Planned(r, paths).cov && (r.scope == Staged || r.scope == Diff)
    requires Outside(fs, fp, paths)
    ensures CountAll(FoldInput(fs, baseline, s).events, fp) == 0
    ensures Known(fs, fp) ==> Known(FoldInput(fs, baseline, s).findings, fp)
  {
    forall k: nat | k < |fs| && fs[k].fp == fp ensures !RowProved(fs[k], s.cov) {
      OutsideUnproved(fs, fp, s, r, paths, k);
    }
    OutsideNoCopies(fs, fp, s, |fs|);
    RemediatedPerCopy(fs, baseline, s.merged, s.cov, s.o, s.at, fp);
    FoldKnows(fs, baseline, s.merged, s.cov, s.o, s.at, fp);
    if Known(fs, fp) {
      assert fs[Latest(fs, fp)].fp == fp;
    }
  }
}
