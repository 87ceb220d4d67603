/**
 Which findings leave the state, over any sequence of scans (delta.go:54-125,
 pipeline.go:246-261). Between two scans the list goes through the display ids and
 the state file, so a finding can leave in two ways: a scan proves it gone, or the
 display ids drop its row. From then on the list may hold copies of other rows, and
 every copy is judged on its own.
 */
module Departures {
  import opened Events
  import opened Findings
  import opened DisplayIds
  import opened AssignIds
  import opened Delta
  import opened Refine
  import opened Commands
  import opened Storing
  import opened Scans

  // ---------------------------------------------------------------------
  // One fold, of a list that may hold copies
  // ---------------------------------------------------------------------

  /** The row's scanner ran and every recorded location was covered. */
  predicate RowProved(f: Finding, cov: Coverage) {
    f.scanner in cov.scanners && forall l :: l in f.locs ==> cov.allPaths || l.path in cov.paths
  }

  predicate Unseen(merged: seq<Merged>, fp: string) {
    forall i :: 0 <= i < |merged| ==> merged[i].fp != fp
  }

  lemma {:induction false} GoneMeans(f: Finding, merged: seq<Merged>, cov: Coverage)
    ensures Gone(f, SeenUpTo(merged, |merged|), cov) <==> Unseen(merged, f.fp) && RowProved(f, cov)
  {
    SeenMeans(merged, |merged|, f.fp);
    CoveredMeans(cov, f.locs, |f.locs|);
    assert f.locs[..|f.locs|] == f.locs;
  }

  /** Every row of the fingerprint is where it was, as it was. */
  ghost predicate SameCopies(fs: seq<Finding>, g: seq<Finding>, fp: string) {
    && |fs| <= |g|
    && (forall k :: 0 <= k < |fs| ==> (fs[k].fp == fp || g[k].fp == fp ==> g[k] == fs[k]))
    && forall k :: |fs| <= k < |g| ==> g[k].fp != fp
  }

  lemma OtherKeepsCopies(fs: seq<Finding>, p: Pass, baseline: seq<string>, m: Merged, o: Options, t: int, fp: string)
    requires SameCopies(fs, p.fs, fp) && m.fp != fp
    ensures SameCopies(fs, MergeOne(p, baseline, m, o, t).fs, fp)
  {
  }

  lemma {:induction false} UnseenKeepsCopies(fs: seq<Finding>, baseline: seq<string>, merged: seq<Merged>, o: Options, t: int, fp: string)
    requires Unseen(merged, fp)
    ensures SameCopies(fs, MergeUpTo(fs, baseline, merged, o, t, |merged|).fs, fp)
  {
    var good: (nat, Pass) -> bool := (i: nat, p: Pass) => SameCopies(fs, p.fs, fp);
    forall i: nat, j: nat, p: Pass | j == i + 1 && j <= |merged| && good(i, p)
      ensures good(j, MergeOne(p, baseline, merged[i], o, t))
    {
      OtherKeepsCopies(fs, p, baseline, merged[i], o, t, fp);
    }
    MergeInduction(fs, baseline, merged, o, t, good, |merged|);
  }

  lemma {:induction false} KeptAre(fs: seq<Finding>, seen: set<string>, cov: Coverage, i: nat)
    requires i <= |fs|
    ensures forall x :: x in KeptUpTo(fs, seen, cov, i) <==> exists k :: 0 <= k < i && fs[k] == x && !Gone(x, seen, cov)
  {
    if i > 0 {
      KeptAre(fs, seen, cov, i - 1);
    }
  }

  lemma KnownMeans(fs: seq<Finding>, fp: string)
    ensures Known(fs, fp) <==> exists x :: x in fs && x.fp == fp
  {
    if Known(fs, fp) {
      assert fs[Latest(fs, fp)] in fs;
    }
  }

  /** Some row of the fingerprint is not proved gone. */
  predicate Unproved(fs: seq<Finding>, fp: string, cov: Coverage) {
    exists k :: 0 <= k < |fs| && fs[k].fp == fp && !RowProved(fs[k], cov)
  }

  /** A fold knows a fingerprint exactly when it was seen, or some row of it is not proved gone. */
  lemma FoldKnows(fs: seq<Finding>, baseline: seq<string>, merged: seq<Merged>, cov: Coverage, o: Options, t: int, fp: string)
    ensures Known(Folded(fs, baseline, merged, cov, o, t).findings, fp) <==>
            !Unseen(merged, fp) || Unproved(fs, fp, cov)
  {
    var g, seen := MergeUpTo(fs, baseline, merged, o, t, |merged|).fs, SeenUpTo(merged, |merged|);
    var kept := KeptUpTo(g, seen, cov, |g|);
    KeptAre(g, seen, cov, |g|);
    KnownMeans(kept, fp);
    SeenMeans(merged, |merged|, fp);
    if Unseen(merged, fp) {
      UnseenKeepsCopies(fs, baseline, merged, o, t, fp);
      CopiesKnown(fs, g, merged, cov, fp);
    } else {
      KnownUpTo(fs, baseline, merged, o, t, |merged|, fp);
      assert g[Latest(g, fp)] in kept;
    }
  }

  lemma {:induction false} CopiesKnown(fs: seq<Finding>, g: seq<Finding>, merged: seq<Merged>, cov: Coverage, fp: string)
    requires Unseen(merged, fp) && SameCopies(fs, g, fp)
    ensures (exists k :: 0 <= k < |g| && g[k].fp == fp && !Gone(g[k], SeenUpTo(merged, |merged|), cov)) <==> Unproved(fs, fp, cov)
  {
    var seen := SeenUpTo(merged, |merged|);
    if k :| 0 <= k < |g| && g[k].fp == fp && !Gone(g[k], seen, cov) {
      GoneMeans(g[k], merged, cov);
      assert fs[k].fp == fp && !RowProved(fs[k], cov);
    }
    if k :| 0 <= k < |fs| && fs[k].fp == fp && !RowProved(fs[k], cov) {
      GoneMeans(g[k], merged, cov);
      assert g[k].fp == fp && !Gone(g[k], seen, cov);
    }
  }

  // ---------------------------------------------------------------------
  // How many remediated events
  // ---------------------------------------------------------------------

  /** Rows of the fingerprint, among the first i, that the scan proves gone. */
  function ProvedCopies(fs: seq<Finding>, fp: string, merged: seq<Merged>, cov: Coverage, i: nat): nat
    requires i <= |fs|
  {
    if i == 0 then 0
    else
      ProvedCopies(fs, fp, merged, cov, i - 1) +
      if fs[i - 1].fp == fp && Unseen(merged, fp) && RowProved(fs[i - 1], cov) then 1 else 0
  }

  lemma {:induction false} GoneCopies(fs: seq<Finding>, merged: seq<Merged>, cov: Coverage, o: Options, t: int, i: nat, fp: string)
    requires i <= |fs|
    ensures CountAll(GoneUpTo(fs, SeenUpTo(merged, |merged|), cov, o, t, i), fp) == ProvedCopies(fs, fp, merged, cov, i)
  {
    if i > 0 {
      GoneCopies(fs, merged, cov, o, t, i - 1, fp);
      GoneMeans(fs[i - 1], merged, cov);
      OneRemediation(GoneUpTo(fs, SeenUpTo(merged, |merged|), cov, o, t, i - 1), RemediatedEvent(t, o, fs[i - 1].fp), fp);
    }
  }

  lemma {:induction false} SameProved(fs: seq<Finding>, g: seq<Finding>, fp: string, merged: seq<Merged>, cov: Coverage, i: nat)
    requires i <= |g| && SameCopies(fs, g, fp)
    ensures ProvedCopies(g, fp, merged, cov, i) == ProvedCopies(fs, fp, merged, cov, if i <= |fs| then i else |fs|)
  {
    if i > 0 {
      SameProved(fs, g, fp, merged, cov, i - 1);
    }
  }

  lemma {:induction false} SeenProvesNone(fs: seq<Finding>, fp: string, merged: seq<Merged>, cov: Coverage, i: nat)
    requires i <= |fs| && !Unseen(merged, fp)
    ensures ProvedCopies(fs, fp, merged, cov, i) == 0
  {
    if i > 0 {
      SeenProvesNone(fs, fp, merged, cov, i - 1);
    }
  }

  /** A fold emits one remediated event for every row of the fingerprint it proves gone. */
  lemma {:induction false} RemediatedPerCopy(fs: seq<Finding>, baseline: seq<string>, merged: seq<Merged>, cov: Coverage, o: Options, t: int, fp: string)
    ensures CountAll(Folded(fs, baseline, merged, cov, o, t).events, fp) == ProvedCopies(fs, fp, merged, cov, |fs|)
  {
    var p := MergeUpTo(fs, baseline, merged, o, t, |merged|);
    var gone := GoneUpTo(p.fs, SeenUpTo(merged, |merged|), cov, o, t, |p.fs|);
    var shown := SurfacedUpTo(p.fs, merged, o, t, |merged|);
    ThreeParts(p.evs, gone, shown, fp);
    MergeSights(fs, baseline, merged, o, t, |merged|);
    NoRemediations(p.evs, fp, |p.evs|);
    SurfacedEvents(p.fs, merged, o, t, |merged|);
    NoRemediations(shown, fp, |shown|);
    GoneCopies(p.fs, merged, cov, o, t, |p.fs|, fp);
    if Unseen(merged, fp) {
      UnseenKeepsCopies(fs, baseline, merged, o, t, fp);
      SameProved(fs, p.fs, fp, merged, cov, |p.fs|);
    } else {
      SeenProvesNone(p.fs, fp, merged, cov, |p.fs|);
      SeenProvesNone(fs, fp, merged, cov, |fs|);
    }
  }

  // ---------------------------------------------------------------------
  // What the display ids leave
  // ---------------------------------------------------------------------

  /** Some slot of the list still holds a row of the fingerprint. */
  predicate Slotted(fs: seq<Finding>, fp: string)
    requires Long(FingerprintsOf(fs))
  {
    exists k: nat :: k < |fs| && fs[k].fp == fp && k in Slots(FingerprintsOf(fs))
  }

  /** The stored list knows a fingerprint exactly when a slot holds a row of it. */
  lemma StoredKnows(fs: seq<Finding>, fp: string)
    requires Long(FingerprintsOf(fs))
    ensures Known(Stored(fs), fp) <==> Slotted(fs, fp)
  {
    var s, out := Slots(FingerprintsOf(fs)), Stored(fs);
    if Known(out, fp) {
      StoredRow(fs, Latest(out, fp));
      assert s[Latest(out, fp)] in s;
    }
    if Slotted(fs, fp) {
      var k: nat :| k < |fs| && fs[k].fp == fp && k in s;
      var j :| 0 <= j < |s| && s[j] == k;
      StoredRow(fs, j);
      assert out[j].fp == fp;
    }
  }

  lemma StoredLong(fs: seq<Finding>)
    requires Long(FingerprintsOf(fs))
    ensures Long(FingerprintsOf(Stored(fs)))
  {
    forall j | 0 <= j < |Stored(fs)| ensures |FingerprintsOf(Stored(fs))[j]| == 64 {
      StoredRow(fs, j);
    }
  }

  // ---------------------------------------------------------------------
  // One scan
  // ---------------------------------------------------------------------

  /** A completed scan, and when its result is folded. */
  datatype Input = Input(at: int, merged: seq<Merged>, cov: Coverage, o: Options)

  function FoldInput(fs: seq<Finding>, baseline: seq<string>, s: Input): FoldResult {
    Folded(fs, baseline, s.merged, s.cov, s.o, s.at)
  }

  /** What a scan writes: nothing when an event does not validate. */
  function ScanInput(fs: seq<Finding>, baseline: seq<string>, s: Input): FoldResult {
    if !Accepted(fs, baseline, s.merged, s.cov, s.o, s.at) then FoldResult([], fs)
    else
      var r := FoldInput(fs, baseline, s);
      FoldResult(r.events, Stored(r.findings))
  }

  /** The scan proves every row of the fingerprint gone. */
  predicate ProvesGone(fs: seq<Finding>, baseline: seq<string>, s: Input, fp: string) {
    && Accepted(fs, baseline, s.merged, s.cov, s.o, s.at)
    && Known(fs, fp) && Unseen(s.merged, fp) && !Unproved(fs, fp, s.cov)
  }

  ghost predicate Fit(fs: seq<Finding>, s: Input) {
    Long(FingerprintsOf(fs)) && WholeFps(s.merged)
  }

  lemma FoldFits(fs: seq<Finding>, baseline: seq<string>, s: Input)
    requires Fit(fs, s)
    ensures Long(FingerprintsOf(FoldInput(fs, baseline, s).findings))
    ensures Long(FingerprintsOf(ScanInput(fs, baseline, s).findings))
  {
    FoldKeepsLong(fs, baseline, s.merged, s.cov, s.o, s.at);
    StoredLong(FoldInput(fs, baseline, s).findings);
  }

  /** The fold still knows the fingerprint, and no slot holds a row of it any more. */
  predicate LosesRow(fs: seq<Finding>, baseline: seq<string>, s: Input, fp: string) {
    var folded := FoldInput(fs, baseline, s).findings;
    && Accepted(fs, baseline, s.merged, s.cov, s.o, s.at)
    && Known(fs, fp) && Known(folded, fp) && Long(FingerprintsOf(folded)) && !Slotted(folded, fp)
  }

  /** A known finding leaves by a scan exactly when the scan proves it gone or the display ids lose its row. */
  lemma LeavesIff(fs: seq<Finding>, baseline: seq<string>, s: Input, fp: string)
    requires Fit(fs, s) && Known(fs, fp)
    ensures !Known(ScanInput(fs, baseline, s).findings, fp) <==>
            ProvesGone(fs, baseline, s, fp) || LosesRow(fs, baseline, s, fp)
    ensures !(ProvesGone(fs, baseline, s, fp) && LosesRow(fs, baseline, s, fp))
  {
    var folded := FoldInput(fs, baseline, s).findings;
    FoldFits(fs, baseline, s);
    FoldKnows(fs, baseline, s.merged, s.cov, s.o, s.at, fp);
    StoredKnows(folded, fp);
    if Slotted(folded, fp) {
      KnownMeans(folded, fp);
    }
  }

  /** The remediated events a scan writes for a fingerprint. */
  function Remediates(fs: seq<Finding>, baseline: seq<string>, s: Input, fp: string): nat {
    CountAll(ScanInput(fs, baseline, s).events, fp)
  }

  lemma {:induction false} AtMostOneCopy(fs: seq<Finding>, fp: string, merged: seq<Merged>, cov: Coverage, i: nat)
    requires i <= |fs| && Unique(fs)
    ensures ProvedCopies(fs, fp, merged, cov, i) ==
            if 0 <= Latest(fs, fp) < i && Unseen(merged, fp) && RowProved(fs[Latest(fs, fp)], cov) then 1 else 0
  {
    if i > 0 {
      AtMostOneCopy(fs, fp, merged, cov, i - 1);
      LatestIs(fs, i - 1);
    }
  }

  /** While no row has a copy, a scan writes one remediated event for what it proves gone and none for the rest. */
  lemma UniqueRemediates(fs: seq<Finding>, baseline: seq<string>, s: Input, fp: string)
    requires Unique(fs)
    ensures Remediates(fs, baseline, s, fp) == if ProvesGone(fs, baseline, s, fp) then 1 else 0
  {
    RemediatedPerCopy(fs, baseline, s.merged, s.cov, s.o, s.at, fp);
    AtMostOneCopy(fs, fp, s.merged, s.cov, |fs|);
    var k := Latest(fs, fp);
    if k >= 0 {
      assert Unproved(fs, fp, s.cov) <==> !RowProved(fs[k], s.cov) by {
        if j :| 0 <= j < |fs| && fs[j].fp == fp && !RowProved(fs[j], s.cov) {
          LatestIs(fs, j);
        }
      }
    }
  }

  // ---------------------------------------------------------------------
  // Any sequence of scans
  // ---------------------------------------------------------------------

  /** The list on disk after scan number i is what the scan makes of the list before. */
  ghost predicate Link(baseline: seq<string>, scans: seq<Input>, lists: seq<seq<Finding>>, i: nat) {
    i < |scans| && i + 1 < |lists| && lists[i + 1] == ScanInput(lists[i], baseline, scans[i]).findings
  }

  /** The lists on disk before, between and after the scans. */
  ghost predicate History(baseline: seq<string>, scans: seq<Input>, lists: seq<seq<Finding>>) {
    |lists| == |scans| + 1 && forall i: nat :: i < |scans| ==> Link(baseline, scans, lists, i)
  }

  /** The events of each scan. */
  function EmittedBy(baseline: seq<string>, scans: seq<Input>, lists: seq<seq<Finding>>): (ess: seq<seq<Event>>)
    requires |lists| == |scans| + 1
    ensures |ess| == |scans|
    ensures forall i :: 0 <= i < |scans| ==> ess[i] == ScanInput(lists[i], baseline, scans[i]).events
  {
    seq(|scans|, i requires 0 <= i < |scans| => ScanInput(lists[i], baseline, scans[i]).events)
  }

  /** The events of the first i scans, in order. */
  function Flat(ess: seq<seq<Event>>, i: nat): seq<Event>
    requires i <= |ess|
  {
    if i == 0 then [] else Flat(ess, i - 1) + ess[i - 1]
  }

  function ScanOf(s: Input): Command {
    Scan(s.at, s.merged, s.cov, s.o)
  }

  function ScansOf(scans: seq<Input>): (cs: seq<Command>)
    ensures |cs| == |scans|
    ensures forall i :: 0 <= i < |scans| ==> cs[i] == ScanOf(scans[i])
  {
    seq(|scans|, i requires 0 <= i < |scans| => ScanOf(scans[i]))
  }

  /** The store along a run of scans. */
  function Stores(w: Codec, sys: System, scans: seq<Input>): (r: seq<System>)
    ensures |r| == |scans| + 1
    ensures forall i :: 0 <= i <= |scans| ==> r[i] == Run(w, sys, ScansOf(scans)[..i])
  {
    seq(|scans| + 1, i requires 0 <= i <= |scans| => Run(w, sys, ScansOf(scans)[..i]))
  }

  function ListsOf(stores: seq<System>): (r: seq<seq<Finding>>)
    ensures |r| == |stores| && forall i :: 0 <= i < |stores| ==> r[i] == stores[i].disk.findings
  {
    seq(|stores|, i requires 0 <= i < |stores| => stores[i].disk.findings)
  }

  ghost predicate Executes(w: Codec, a: System, s: Input, b: System) {
    b == Exec(w, a, ScanOf(s))
  }

  lemma ScanIsExec(w: Codec, a: System, s: Input, b: System)
    requires Executes(w, a, s, b)
    ensures b.disk == a.disk.(findings := ScanInput(a.disk.findings, a.disk.baseline, s).findings)
    ensures b.log == a.log + LinesOf(w, ScanInput(a.disk.findings, a.disk.baseline, s).events)
  {
    assert a.log + LinesOf(w, []) == a.log;
  }

  lemma StoresExecute(w: Codec, sys: System, scans: seq<Input>, i: nat)
    requires i < |scans|
    ensures Executes(w, Stores(w, sys, scans)[i], scans[i], Stores(w, sys, scans)[i + 1])
  {
    var cs := ScansOf(scans);
    assert cs[..i + 1][..i] == cs[..i];
  }

  lemma {:induction false} BaselineStays(w: Codec, stores: seq<System>, scans: seq<Input>, n: nat)
    requires n <= |scans| && |stores| == |scans| + 1
    requires forall i: nat :: i < |scans| ==> Executes(w, stores[i], scans[i], stores[i + 1])
    ensures stores[n].disk.baseline == stores[0].disk.baseline
  {
    if n > 0 {
      BaselineStays(w, stores, scans, n - 1);
      ScanIsExec(w, stores[n - 1], scans[n - 1], stores[n]);
    }
  }

  lemma LinesConcat(w: Codec, a: seq<Event>, b: seq<Event>)
    ensures LinesOf(w, a + b) == LinesOf(w, a) + LinesOf(w, b)
  {
  }

  lemma {:induction false} LogsGrow(w: Codec, stores: seq<System>, ess: seq<seq<Event>>, n: nat)
    requires n <= |ess| && |stores| == |ess| + 1
    requires forall i :: 0 <= i < |ess| ==> stores[i + 1].log == stores[i].log + LinesOf(w, ess[i])
    ensures stores[n].log == stores[0].log + LinesOf(w, Flat(ess, n))
  {
    if n > 0 {
      LogsGrow(w, stores, ess, n - 1);
      LinesConcat(w, Flat(ess, n - 1), ess[n - 1]);
    } else {
      assert stores[0].log + LinesOf(w, []) == stores[0].log;
    }
  }

  /** A run of scan commands has such a history, and appends the lines of its events. */
  lemma {:induction false} RunIsHistory(w: Codec, sys: System, scans: seq<Input>)
    ensures var lists := ListsOf(Stores(w, sys, scans));
      && lists[0] == sys.disk.findings && lists[|scans|] == Run(w, sys, ScansOf(scans)).disk.findings
      && History(sys.disk.baseline, scans, lists)
      && Run(w, sys, ScansOf(scans)).log ==
         sys.log + LinesOf(w, Flat(EmittedBy(sys.disk.baseline, scans, lists), |scans|))
  {
    var stores := Stores(w, sys, scans);
    var lists := ListsOf(stores);
    assert ScansOf(scans)[..0] == [] && ScansOf(scans)[..|scans|] == ScansOf(scans);
    forall i: nat | i < |scans| ensures Executes(w, stores[i], scans[i], stores[i + 1]) {
      StoresExecute(w, sys, scans, i);
    }
    var ess := EmittedBy(sys.disk.baseline, scans, lists);
    forall i: nat | i < |scans|
      ensures Link(sys.disk.baseline, scans, lists, i)
      ensures stores[i + 1].log == stores[i].log + LinesOf(w, ess[i])
    {
      BaselineStays(w, stores, scans, i);
      ScanIsExec(w, stores[i], scans[i], stores[i + 1]);
    }
    LogsGrow(w, stores, ess, |scans|);
  }

  // ---------------------------------------------------------------------
  // What leaves
  // ---------------------------------------------------------------------

  ghost predicate AllFit(scans: seq<Input>, lists: seq<seq<Finding>>) {
    |lists| > 0 && Long(FingerprintsOf(lists[0])) && forall i :: 0 <= i < |scans| ==> WholeFps(scans[i].merged)
  }

  lemma LinkFits(baseline: seq<string>, scans: seq<Input>, lists: seq<seq<Finding>>, i: nat)
    requires Link(baseline, scans, lists, i) && WholeFps(scans[i].merged) && Long(FingerprintsOf(lists[i]))
    ensures Long(FingerprintsOf(lists[i + 1]))
  {
    FoldFits(lists[i], baseline, scans[i]);
  }

  lemma {:induction false} StaysFit(baseline: seq<string>, scans: seq<Input>, lists: seq<seq<Finding>>, n: nat)
    requires n <= |scans| && History(baseline, scans, lists) && AllFit(scans, lists)
    ensures Long(FingerprintsOf(lists[n]))
  {
    if n > 0 {
      StaysFit(baseline, scans, lists, n - 1);
      LinkFits(baseline, scans, lists, n - 1);
    }
  }

  /** By which scans a known fingerprint became unknown. */
  function Exits(scans: seq<Input>, lists: seq<seq<Finding>>, fp: string): (r: seq<bool>)
    requires |lists| == |scans| + 1
    ensures |r| == |scans|
    ensures forall i :: 0 <= i < |scans| ==> r[i] == (Known(lists[i], fp) && !Known(lists[i + 1], fp))
  {
    seq(|scans|, i requires 0 <= i < |scans| => Known(lists[i], fp) && !Known(lists[i + 1], fp))
  }

  /** Which scans proved it gone. */
  function Proved(baseline: seq<string>, scans: seq<Input>, lists: seq<seq<Finding>>, fp: string): (r: seq<bool>)
    requires |lists| == |scans| + 1
    ensures |r| == |scans|
    ensures forall i :: 0 <= i < |scans| ==> r[i] == ProvesGone(lists[i], baseline, scans[i], fp)
  {
    seq(|scans|, i requires 0 <= i < |scans| => ProvesGone(lists[i], baseline, scans[i], fp))
  }

  /** By which scans the display ids lost its row. */
  function Losses(baseline: seq<string>, scans: seq<Input>, lists: seq<seq<Finding>>, fp: string): (r: seq<bool>)
    requires |lists| == |scans| + 1
    ensures |r| == |scans|
    ensures forall i :: 0 <= i < |scans| ==> r[i] == LosesRow(lists[i], baseline, scans[i], fp)
  {
    seq(|scans|, i requires 0 <= i < |scans| => LosesRow(lists[i], baseline, scans[i], fp))
  }

  /** Every exit is a proof or a loss, never both, and every proof and loss is an exit. */
  lemma ExitIff(baseline: seq<string>, scans: seq<Input>, lists: seq<seq<Finding>>, fp: string, i: nat)
    requires i < |scans| && History(baseline, scans, lists) && AllFit(scans, lists)
    ensures Exits(scans, lists, fp)[i] <==> Proved(baseline, scans, lists, fp)[i] || Losses(baseline, scans, lists, fp)[i]
    ensures !(Proved(baseline, scans, lists, fp)[i] && Losses(baseline, scans, lists, fp)[i])
  {
    StaysFit(baseline, scans, lists, i);
    assert Link(baseline, scans, lists, i);
    if Known(lists[i], fp) {
      LeavesIff(lists[i], baseline, scans[i], fp);
    }
  }

  lemma {:induction false} Chain(lists: seq<seq<Finding>>, exits: seq<bool>, fp: string, n: nat)
    requires n <= |exits| && |lists| == |exits| + 1 && Known(lists[0], fp)
    requires forall i :: 0 <= i < |exits| ==> exits[i] == (Known(lists[i], fp) && !Known(lists[i + 1], fp))
    ensures (forall i :: 0 <= i <= n ==> Known(lists[i], fp)) <==> (forall i :: 0 <= i < n ==> !exits[i])
  {
    if n > 0 {
      var last := exits[n - 1];
      var here, next := Known(lists[n - 1], fp), Known(lists[n], fp);
      Chain(lists, exits, fp, n - 1);
      assert last == (here && !next) by { assert lists[(n - 1) + 1] == lists[n]; }
      if forall i :: 0 <= i <= n ==> Known(lists[i], fp) {
        assert here && next;
        forall i | 0 <= i < n ensures !exits[i] {
          assert Known(lists[i], fp) && Known(lists[i + 1], fp);
        }
      }
      if forall i :: 0 <= i < n ==> !exits[i] {
        assert !exits[n - 1];
        forall i | 0 <= i <= n ensures Known(lists[i], fp) {
          assert here && next;
        }
      }
    }
  }

  /** A finding stays through a whole sequence exactly when no scan of it proves it gone or loses its row. */
  lemma StaysIff(baseline: seq<string>, scans: seq<Input>, lists: seq<seq<Finding>>, fp: string)
    requires History(baseline, scans, lists) && AllFit(scans, lists) && Known(lists[0], fp)
    ensures (forall i :: 0 <= i < |lists| ==> Known(lists[i], fp)) <==>
            (forall i :: 0 <= i < |scans| ==>
               !Proved(baseline, scans, lists, fp)[i] && !Losses(baseline, scans, lists, fp)[i])
  {
    var exits := Exits(scans, lists, fp);
    Chain(lists, exits, fp, |exits|);
    forall i | 0 <= i < |scans|
      ensures exits[i] <==> Proved(baseline, scans, lists, fp)[i] || Losses(baseline, scans, lists, fp)[i]
    {
      ExitIff(baseline, scans, lists, fp, i);
    }
  }

  // ---------------------------------------------------------------------
  // Remediated events over a sequence
  // ---------------------------------------------------------------------

  function Told(ess: seq<seq<Event>>, fp: string, i: nat): nat
    requires i <= |ess|
  {
    if i == 0 then 0 else Told(ess, fp, i - 1) + CountAll(ess[i - 1], fp)
  }

  lemma {:induction false} FlatTells(ess: seq<seq<Event>>, fp: string, i: nat)
    requires i <= |ess|
    ensures CountAll(Flat(ess, i), fp) == Told(ess, fp, i)
  {
    if i > 0 {
      FlatTells(ess, fp, i - 1);
      RemediationsAdd(Flat(ess, i - 1), ess[i - 1], fp);
    }
  }

  function CountUpTo(marks: seq<bool>, i: nat): nat
    requires i <= |marks|
  {
    if i == 0 then 0 else CountUpTo(marks, i - 1) + if marks[i - 1] then 1 else 0
  }

  function Sum(ns: seq<nat>, i: nat): nat
    requires i <= |ns|
  {
    if i == 0 then 0 else Sum(ns, i - 1) + ns[i - 1]
  }

  function ProofsOf(fs: seq<Finding>, baseline: seq<string>, s: Input, fp: string): nat {
    if Accepted(fs, baseline, s.merged, s.cov, s.o, s.at) then ProvedCopies(fs, fp, s.merged, s.cov, |fs|) else 0
  }

  /** The rows each scan proves gone, copies included. */
  function Proofs(baseline: seq<string>, scans: seq<Input>, lists: seq<seq<Finding>>, fp: string): (r: seq<nat>)
    requires |lists| == |scans| + 1
    ensures |r| == |scans|
    ensures forall i :: 0 <= i < |scans| ==> r[i] == ProofsOf(lists[i], baseline, scans[i], fp)
  {
    seq(|scans|, i requires 0 <= i < |scans| => ProofsOf(lists[i], baseline, scans[i], fp))
  }

  lemma ProofsAreRemediated(fs: seq<Finding>, baseline: seq<string>, s: Input, fp: string)
    ensures Remediates(fs, baseline, s, fp) == ProofsOf(fs, baseline, s, fp)
  {
    RemediatedPerCopy(fs, baseline, s.merged, s.cov, s.o, s.at, fp);
  }

  lemma {:induction false} ToldIsSum(ess: seq<seq<Event>>, ns: seq<nat>, fp: string, i: nat)
    requires i <= |ess| == |ns| && forall k :: 0 <= k < |ess| ==> CountAll(ess[k], fp) == ns[k]
    ensures Told(ess, fp, i) == Sum(ns, i)
  {
    if i > 0 {
      ToldIsSum(ess, ns, fp, i - 1);
    }
  }

  /** Over any sequence of scans the remediated events are the rows proved gone, one for one. */
  lemma {:induction false} RemediationsAreProofs(baseline: seq<string>, scans: seq<Input>, lists: seq<seq<Finding>>, fp: string)
    requires History(baseline, scans, lists)
    ensures CountAll(Flat(EmittedBy(baseline, scans, lists), |scans|), fp) == Sum(Proofs(baseline, scans, lists, fp), |scans|)
  {
    var ess, ns := EmittedBy(baseline, scans, lists), Proofs(baseline, scans, lists, fp);
    forall k | 0 <= k < |ess| ensures CountAll(ess[k], fp) == ns[k] {
      ProofsAreRemediated(lists[k], baseline, scans[k], fp);
    }
    FlatTells(ess, fp, |scans|);
    ToldIsSum(ess, ns, fp, |scans|);
  }

  lemma {:induction false} OneEach(ess: seq<seq<Event>>, exits: seq<bool>, losses: seq<bool>, fp: string, i: nat)
    requires i <= |ess| == |exits| == |losses|
    requires forall k :: 0 <= k < i ==> (losses[k] ==> exits[k]) && CountAll(ess[k], fp) == if exits[k] && !losses[k] then 1 else 0
    ensures Told(ess, fp, i) + CountUpTo(losses, i) == CountUpTo(exits, i)
  {
    if i > 0 {
      OneEach(ess, exits, losses, fp, i - 1);
    }
  }

  /** The display ids of the scan lose nothing. */
  ghost predicate SparedBy(fs: seq<Finding>, baseline: seq<string>, s: Input) {
    Accepted(fs, baseline, s.merged, s.cov, s.o, s.at) ==> Spared(FoldInput(fs, baseline, s).findings)
  }

  lemma SparedKeepsUnique(fs: seq<Finding>, baseline: seq<string>, s: Input)
    requires Unique(fs) && SparedBy(fs, baseline, s)
    ensures Unique(ScanInput(fs, baseline, s).findings)
  {
    FoldUnique(fs, baseline, s.merged, s.cov, s.o, s.at);
    if Accepted(fs, baseline, s.merged, s.cov, s.o, s.at) {
      StoredSame(FoldInput(fs, baseline, s).findings);
    }
  }

  ghost predicate SparedAt(baseline: seq<string>, scans: seq<Input>, lists: seq<seq<Finding>>, i: nat) {
    i < |scans| && i < |lists| && SparedBy(lists[i], baseline, scans[i])
  }

  /** The display ids of the first n scans lose nothing. */
  ghost predicate NothingLost(baseline: seq<string>, scans: seq<Input>, lists: seq<seq<Finding>>, n: int) {
    forall i: nat :: i < n ==> SparedAt(baseline, scans, lists, i)
  }

  lemma LinkUnique(baseline: seq<string>, scans: seq<Input>, lists: seq<seq<Finding>>, i: nat)
    requires Link(baseline, scans, lists, i) && SparedAt(baseline, scans, lists, i) && Unique(lists[i])
    ensures Unique(lists[i + 1])
  {
    SparedKeepsUnique(lists[i], baseline, scans[i]);
  }

  lemma {:induction false} StaysUnique(baseline: seq<string>, scans: seq<Input>, lists: seq<seq<Finding>>, n: nat)
    requires n <= |scans| && History(baseline, scans, lists) && Unique(lists[0])
    requires NothingLost(baseline, scans, lists, n)
    ensures Unique(lists[n])
  {
    if n > 0 {
      StaysUnique(baseline, scans, lists, n - 1);
      LinkUnique(baseline, scans, lists, n - 1);
    }
  }

  /**
   Up to and including the first scan whose display ids lose anything, exactly one
   remediated event records each departure that is not such a loss.
   */
  lemma {:induction false} DeparturesRecorded(baseline: seq<string>, scans: seq<Input>, lists: seq<seq<Finding>>, fp: string)
    requires History(baseline, scans, lists) && AllFit(scans, lists) && Unique(lists[0])
    requires NothingLost(baseline, scans, lists, |scans| - 1)
    ensures CountAll(Flat(EmittedBy(baseline, scans, lists), |scans|), fp) ==
            CountUpTo(Exits(scans, lists, fp), |scans|) - CountUpTo(Losses(baseline, scans, lists, fp), |scans|)
  {
    var ess, exits := EmittedBy(baseline, scans, lists), Exits(scans, lists, fp);
    var losses := Losses(baseline, scans, lists, fp);
    forall k | 0 <= k < |scans|
      ensures (losses[k] ==> exits[k]) && CountAll(ess[k], fp) == if exits[k] && !losses[k] then 1 else 0
    {
      ExitIff(baseline, scans, lists, fp, k);
      StaysUnique(baseline, scans, lists, k);
      UniqueRemediates(lists[k], baseline, scans[k], fp);
    }
    FlatTells(ess, fp, |scans|);
    OneEach(ess, exits, losses, fp, |scans|);
  }
}
