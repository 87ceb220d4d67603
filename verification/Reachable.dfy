/**
 The lists a run of commands leaves: every one went through the display ids before it
 was stored (rebuild.go:184-185, pipeline.go:259-261), or is such a list with the same
 fingerprints. So a loss needs a scan that inserts or removes a row.
 */
module Reachable {
  import opened Events
  import opened Findings
  import opened LogOrder
  import opened Replay
  import opened Compaction
  import opened DisplayIds
  import opened AssignIds
  import opened Delta
  import opened Refine
  import Lookup
  import opened Rebuild
  import opened Commands
  import opened Agreement
  import opened Storing
  import opened Runs

  /** Unless it holds copies, display ids never get longer along the list. */
  ghost predicate Tidy(fs: seq<Finding>) {
    Long(FingerprintsOf(fs)) && (Distinct(FingerprintsOf(fs)) ==> LengthsFall(FingerprintsOf(fs)))
  }

  lemma StoredSlots(fs: seq<Finding>)
    requires Long(FingerprintsOf(fs)) && Distinct(FingerprintsOf(Stored(fs)))
    ensures Slots(FingerprintsOf(fs)) == Identity(|fs|)
  {
    var out, s := Stored(fs), Slots(FingerprintsOf(fs));
    forall i, j | 0 <= i < j < |s| ensures s[i] != s[j] {
      StoredRow(fs, i);
      StoredRow(fs, j);
      assert FingerprintsOf(out)[i] != FingerprintsOf(out)[j];
    }
    DistinctSlots(FingerprintsOf(fs));
  }

  /** Whatever list is stored, what is stored of it is tidy. */
  lemma StoredTidy(fs: seq<Finding>)
    requires Long(FingerprintsOf(fs))
    ensures Tidy(Stored(fs))
  {
    var fps, out := FingerprintsOf(fs), Stored(fs);
    forall j | 0 <= j < |out| ensures |FingerprintsOf(out)[j]| == 64 {
      StoredRow(fs, j);
    }
    if Distinct(FingerprintsOf(out)) {
      StoredSlots(fs);
      forall j | 0 <= j < |out| ensures FingerprintsOf(out)[j] == fps[j] {
        StoredRow(fs, j);
      }
      assert FingerprintsOf(out) == fps;
      ListSurvivesIff(fps);
    }
  }

  /** What a command brings along is whole: fingerprints of 64 characters, and a log read from this store. */
  ghost predicate Whole(sys: System, c: Command) {
    match c
    case Scan(_, merged, _, _) => WholeFps(merged)
    case DoctorFix(log, _) => log <= sys.log
    case _ => true
  }

  ghost predicate WholeRun(w: Codec, sys: System, cs: seq<Command>) {
    forall k :: 0 <= k < |cs| ==> Whole(Along(w, sys, cs, k), cs[k])
  }

  ghost predicate Sound(w: Codec, sys: System) {
    Canonical(w, sys.log) && Tidy(sys.disk.findings)
  }

  lemma SameFpsTidy(a: seq<Finding>, b: seq<Finding>)
    requires Tidy(a) && FingerprintsOf(a) == FingerprintsOf(b)
    ensures Tidy(b)
  {
  }

  lemma OneLineSound(w: Codec, log: seq<Entry>, ev: Event)
    requires Canonical(w, log) && Valid(ev)
    ensures Canonical(w, log + [Line(w, ev)])
  {
    assert LinesOf(w, [ev]) == [Line(w, ev)];
    LinesCanonical(w, log, [ev]);
  }

  lemma MutateSound(w: Codec, sys: System, c: Command)
    requires Sound(w, sys) && (c.Triage? || c.Suppress? || c.Defer?)
    ensures Sound(w, Mutate(w, sys, c))
  {
    var after := Mutate(w, sys, c);
    if after != sys {
      var k := Lookup.Resolve(sys.disk.findings, c.id).k;
      OneLineSound(w, sys.log, MutationEvent(c, sys.disk.findings[k].fp));
      assert FingerprintsOf(after.disk.findings) == FingerprintsOf(sys.disk.findings);
      SameFpsTidy(sys.disk.findings, after.disk.findings);
    }
  }

  lemma ScanSound(w: Codec, sys: System, c: Command)
    requires Sound(w, sys) && c.Scan? && WholeFps(c.merged)
    ensures Sound(w, Scanning(w, sys, c))
  {
    var d := sys.disk;
    if Accepted(d.findings, d.baseline, c.merged, c.cov, c.o, c.at) {
      var r := Folded(d.findings, d.baseline, c.merged, c.cov, c.o, c.at);
      LinesCanonical(w, sys.log, r.events);
      FoldKeepsLong(d.findings, d.baseline, c.merged, c.cov, c.o, c.at);
      StoredTidy(r.findings);
    }
  }

  lemma RestoreSound(w: Codec, sys: System, log: seq<Entry>, baseline: seq<string>)
    requires Injective(w) && Sound(w, sys) && log <= sys.log
    ensures Sound(w, Restoring(w, sys, log, baseline))
  {
    if Replayed(w.idOf, log).Success? {
      var fs := Replayed(w.idOf, log).value.findings;
      assert Canonical(w, log);
      ReplayedLong(w, log);
      MarkedAgrees(fs, baseline);
      StoredTidy(Marked(fs, baseline));
    }
  }

  lemma RebaselineSound(w: Codec, sys: System, c: Command)
    requires Sound(w, sys) && c.Rebaseline?
    ensures Sound(w, Rebaselining(w, sys, c))
  {
    if Valid(RebaselineEvent(c)) {
      OneLineSound(w, sys.log, RebaselineEvent(c));
      DebtAgrees(sys.disk.findings, c.whole);
      SameFpsTidy(sys.disk.findings, Debt(sys.disk.findings, c.whole));
    }
  }

  lemma ExecSound(w: Codec, sys: System, c: Command)
    requires Injective(w) && Sound(w, sys) && Whole(sys, c)
    ensures Sound(w, Exec(w, sys, c))
  {
    match c
    case Scan(_, _, _, _) => ScanSound(w, sys, c);
    case Triage(_, _, _, _, _, _, _) => MutateSound(w, sys, c);
    case Suppress(_, _, _, _) => MutateSound(w, sys, c);
    case Defer(_, _, _, _) => MutateSound(w, sys, c);
    case OpenItem(_, _, _, _, _) =>
      if Raising(w, sys, c) != sys { OneLineSound(w, sys.log, RaiseEvent(c, About(sys, c).value)); }
    case CloseItem(_, _, _, _, _) => if Resolving(w, sys, c) != sys { OneLineSound(w, sys.log, ResolveEvent(c)); }
    case Rebaseline(_, _, _) => RebaselineSound(w, sys, c);
    case RecordUpdate(_, _, _, _, _) => if Valid(UpdateEvent(c)) { OneLineSound(w, sys.log, UpdateEvent(c)); }
    case DoctorFix(log, baseline) => RestoreSound(w, sys, log, baseline);
    case RebuildState => RestoreSound(w, sys, sys.log, sys.disk.baseline);
  }

  lemma {:induction false} StaysSound(w: Codec, sys: System, cs: seq<Command>, k: nat)
    requires Injective(w) && Sound(w, sys) && WholeRun(w, sys, cs) && k <= |cs|
    ensures Sound(w, Along(w, sys, cs, k))
  {
    if k == 0 {
      AlongAll(w, sys, cs);
    } else {
      StaysSound(w, sys, cs, k - 1);
      AlongNext(w, sys, cs, k - 1);
      ExecSound(w, Along(w, sys, cs, k - 1), cs[k - 1]);
    }
  }

  /** After any run from a new store, display ids never get longer along a stored list without copies. */
  lemma {:induction false} RunLeavesTidy(w: Codec, baseline: seq<string>, cs: seq<Command>)
    requires Injective(w) && WholeRun(w, NewStore(baseline), cs)
    ensures Tidy(Run(w, NewStore(baseline), cs).disk.findings)
  {
    StaysSound(w, NewStore(baseline), cs, |cs|);
    AlongAll(w, NewStore(baseline), cs);
  }

  /** A scan that sees only what is known, and proves none of the rest gone. */
  ghost predicate Steady(fs: seq<Finding>, merged: seq<Merged>, cov: Coverage) {
    && (forall i :: 0 <= i < |merged| ==> Known(fs, merged[i].fp))
    && forall k :: 0 <= k < |fs| ==> fs[k].fp in SeenUpTo(merged, |merged|) || !Gone(fs[k], SeenUpTo(merged, |merged|), cov)
  }

  /** Every row is where it was, and as it was unless it was seen. */
  ghost predicate SameRows(fs: seq<Finding>, g: seq<Finding>, seen: set<string>) {
    |g| == |fs| && forall k :: 0 <= k < |fs| ==> g[k].fp == fs[k].fp && (fs[k].fp !in seen ==> g[k] == fs[k])
  }

  lemma SameRowsKnown(fs: seq<Finding>, g: seq<Finding>, seen: set<string>, fp: string)
    requires SameRows(fs, g, seen)
    ensures Latest(g, fp) == Latest(fs, fp)
  {
    LatestIsThe(g, fp, Latest(fs, fp));
  }

  lemma OneSteady(fs: seq<Finding>, p: Pass, baseline: seq<string>, m: Merged, o: Options, t: int, seen: set<string>)
    requires SameRows(fs, p.fs, seen) && Known(fs, m.fp) && m.fp in seen
    ensures SameRows(fs, MergeOne(p, baseline, m, o, t).fs, seen)
  {
    SameRowsKnown(fs, p.fs, seen, m.fp);
  }

  lemma {:induction false} MergeSteady(fs: seq<Finding>, baseline: seq<string>, c: Command)
    requires c.Scan? && Steady(fs, c.merged, c.cov)
    ensures SameRows(fs, MergeUpTo(fs, baseline, c.merged, c.o, c.at, |c.merged|).fs, SeenUpTo(c.merged, |c.merged|))
  {
    var n, seen := |c.merged|, SeenUpTo(c.merged, |c.merged|);
    var good: (nat, Pass) -> bool := (i: nat, p: Pass) => SameRows(fs, p.fs, seen);
    forall i: nat, j: nat, p: Pass | j == i + 1 && j <= n && good(i, p)
      ensures good(j, MergeOne(p, baseline, c.merged[i], c.o, c.at))
    {
      SeenMeans(c.merged, n, c.merged[i].fp);
      OneSteady(fs, p, baseline, c.merged[i], c.o, c.at, seen);
    }
    MergeInduction(fs, baseline, c.merged, c.o, c.at, good, n);
  }

  lemma {:induction false} AllKept(fs: seq<Finding>, seen: set<string>, cov: Coverage, i: nat)
    requires i <= |fs| && forall k :: 0 <= k < |fs| ==> !Gone(fs[k], seen, cov)
    ensures KeptUpTo(fs, seen, cov, i) == fs[..i]
  {
    if i > 0 {
      AllKept(fs, seen, cov, i - 1);
    }
  }

  lemma SteadyFold(fs: seq<Finding>, baseline: seq<string>, c: Command)
    requires c.Scan? && Steady(fs, c.merged, c.cov)
    ensures FingerprintsOf(Folded(fs, baseline, c.merged, c.cov, c.o, c.at).findings) == FingerprintsOf(fs)
  {
    var g, seen := MergeUpTo(fs, baseline, c.merged, c.o, c.at, |c.merged|).fs, SeenUpTo(c.merged, |c.merged|);
    MergeSteady(fs, baseline, c);
    forall k | 0 <= k < |g| ensures !Gone(g[k], seen, c.cov) {
      assert g[k].fp == fs[k].fp;
    }
    AllKept(g, seen, c.cov, |g|);
    assert g[..|g|] == g;
  }

  /** So on such a store a scan that sees only known findings and proves none gone loses none. */
  lemma {:induction false} SteadyScanLosesNothing(w: Codec, baseline: seq<string>, cs: seq<Command>, c: Command)
    requires Injective(w) && WholeRun(w, NewStore(baseline), cs) && c.Scan?
    requires var d := Run(w, NewStore(baseline), cs).disk;
      Unique(d.findings) && Steady(d.findings, c.merged, c.cov)
    ensures var sys := Run(w, NewStore(baseline), cs);
      FingerprintsOf(Exec(w, sys, c).disk.findings) == FingerprintsOf(sys.disk.findings)
  {
    var sys := Run(w, NewStore(baseline), cs);
    var fs := Folded(sys.disk.findings, sys.disk.baseline, c.merged, c.cov, c.o, c.at).findings;
    RunLeavesTidy(w, baseline, cs);
    SteadyFold(sys.disk.findings, sys.disk.baseline, c);
    UniqueDistinct(sys.disk.findings);
    UniqueDistinct(fs);
    StoredSame(fs);
  }
}
