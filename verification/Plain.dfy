/**
 The whole-run claim in terms a caller can check: commands in strictly later seconds,
 no row inserted without an event, no clash of item ids, and display ids that spare
 each list that is written.
 */
module Plain {
  import opened Events
  import opened Findings
  import opened LogOrder
  import opened Replay
  import opened DisplayIds
  import opened AssignIds
  import opened Delta
  import opened Refine
  import opened Rebuild
  import opened Commands
  import opened Agreement
  import opened Mutations
  import opened Storing
  import opened ScanSteps
  import opened Runs
  import Scans

  // ---------------------------------------------------------------------
  // Instants
  // ---------------------------------------------------------------------

  /** Every command but a repair or a rebuild takes the time. */
  predicate Stamped(c: Command) {
    !c.DoctorFix? && !c.RebuildState?
  }

  /** The commands that take the time do so in strictly later seconds. */
  ghost predicate Timed(cs: seq<Command>) {
    forall i, j :: 0 <= i < j < |cs| && Stamped(cs[i]) && Stamped(cs[j]) ==> Second(cs[i].at) < Second(cs[j].at)
  }

  ghost predicate LineOf(x: Entry, c: Command) {
    Stamped(c) && x.ev.ts == Second(c.at) * NANOS_PER_SECOND
  }

  lemma LinesAt(w: Codec, evs: seq<Event>, t: int)
    requires forall i :: 0 <= i < |evs| ==> evs[i].ts == t
    ensures forall x :: x in LinesOf(w, evs) ==> x.ev.ts == Second(t) * NANOS_PER_SECOND
  {
  }

  lemma ScanTimes(w: Codec, sys: System, c: Command, x: Entry)
    requires c.Scan? && x in Scanning(w, sys, c).log
    ensures x in sys.log || LineOf(x, c)
  {
    var d := sys.disk;
    var evs := Folded(d.findings, d.baseline, c.merged, c.cov, c.o, c.at).events;
    FoldEmits(d.findings, d.baseline, c.merged, c.cov, c.o, c.at);
    forall i | 0 <= i < |evs| ensures evs[i].ts == c.at {
      assert evs[i] in evs;
      EmittedAt(c.merged, c.o, c.at, evs[i]);
    }
    LinesAt(w, evs, c.at);
  }

  lemma ExecTimes(w: Codec, sys: System, c: Command, x: Entry)
    requires x in Exec(w, sys, c).log
    ensures x in sys.log || LineOf(x, c)
  {
    if c.Scan? {
      ScanTimes(w, sys, c, x);
    }
  }

  /** Every line of the log a run leaves was written in the second of some command. */
  lemma {:induction false} RunTimes(w: Codec, baseline: seq<string>, cs: seq<Command>, x: Entry)
    requires x in Run(w, NewStore(baseline), cs).log
    ensures exists i :: 0 <= i < |cs| && LineOf(x, cs[i])
    decreases |cs|
  {
    if cs != [] {
      var front := cs[..|cs| - 1];
      ExecTimes(w, Run(w, NewStore(baseline), front), cs[|cs| - 1], x);
      if x in Run(w, NewStore(baseline), front).log {
        RunTimes(w, baseline, front, x);
        var i :| 0 <= i < |front| && LineOf(x, front[i]);
        assert cs[i] == front[i];
      }
    }
  }

  lemma TimedIsLater(w: Codec, baseline: seq<string>, cs: seq<Command>, k: nat)
    requires Timed(cs) && k < |cs| && Stamped(cs[k])
    ensures Later(Along(w, NewStore(baseline), cs, k).log, cs[k].at)
  {
    var log := Along(w, NewStore(baseline), cs, k).log;
    forall i | 0 <= i < |log| ensures log[i].ev.ts < Second(cs[k].at) * NANOS_PER_SECOND {
      RunTimes(w, baseline, cs[..k], log[i]);
      var j :| 0 <= j < k && LineOf(log[i], cs[..k][j]);
      assert cs[j] == cs[..k][j] && Second(cs[j].at) < Second(cs[k].at);
    }
  }

  // ---------------------------------------------------------------------
  // One command
  // ---------------------------------------------------------------------

  /** The display ids spare the list a log replays to. */
  ghost predicate Restorable(w: Codec, log: seq<Entry>) {
    Replayed(w.idOf, log).Success? ==> Spared(Replayed(w.idOf, log).value.findings)
  }

  /** What a command must not meet: a silent insert, clashing observations or ids, lists the display ids do not spare. */
  ghost predicate Plain(w: Codec, sys: System, c: Command) {
    var d := sys.disk;
    match c
    case Scan(at, merged, cov, o) =>
      && WholeFps(merged) && Uniform(merged)
      && Recorded(d.findings, d.baseline, merged)
      && Spared(Folded(d.findings, d.baseline, merged, cov, o, at).findings)
    case OpenItem(_, _, _, _, _) =>
      About(sys, c).Some? ==> w.idOf(Pin(RaiseEvent(c, About(sys, c).value))) !in IdsOf(d.items)
    case DoctorFix(log, _) => log == sys.log && Restorable(w, log)
    case RebuildState => Restorable(w, sys.log)
    case _ => true
  }

  lemma PlainScan(w: Codec, sys: System, c: Command)
    requires Injective(w) && InStep(w, sys) && c.Scan? && Plain(w, sys, c) && Later(sys.log, c.at)
    ensures Allowed(w, sys, c)
  {
    var d := sys.disk;
    LaterScanSortsLast(w, sys, c);
    if Accepted(d.findings, d.baseline, c.merged, c.cov, c.o, c.at) {
      ScanKeepsStepIff(w, sys, c);
      ScanKeepsStepIffFirsts(w, sys, c);
      LastScanFits(w, sys, c);
    }
  }

  lemma PlainMutation(w: Codec, sys: System, c: Command)
    requires Injective(w) && InStep(w, sys) && Mutates(c) && Later(sys.log, c.at)
    ensures Allowed(w, sys, c)
  {
    forall k: nat | Hits(sys, c, k) ensures Effective(w, sys, c, k) {
      LaterSortsLast(w, sys.log, [MutationEvent(c, sys.disk.findings[k].fp)], c.at);
      SortedLastTakesEffect(w, sys, c, k);
    }
  }

  lemma PlainItem(w: Codec, sys: System, c: Command)
    requires (c.OpenItem? || c.CloseItem?) && Plain(w, sys, c) && Later(sys.log, c.at)
    ensures Allowed(w, sys, c)
  {
    if c.CloseItem? {
      LaterSortsLast(w, sys.log, [ResolveEvent(c)], c.at);
    } else if About(sys, c).Some? {
      LaterSortsLast(w, sys.log, [RaiseEvent(c, About(sys, c).value)], c.at);
    }
  }

  /** Such a command, in a later second, meets the exact condition of its kind. */
  lemma PlainAllowed(w: Codec, sys: System, c: Command)
    requires Injective(w) && InStep(w, sys) && Plain(w, sys, c)
    requires Stamped(c) ==> Later(sys.log, c.at)
    ensures Allowed(w, sys, c)
  {
    if c.Scan? {
      PlainScan(w, sys, c);
    } else if Mutates(c) {
      PlainMutation(w, sys, c);
    } else if c.OpenItem? || c.CloseItem? {
      PlainItem(w, sys, c);
    }
  }

  // ---------------------------------------------------------------------
  // Whole runs
  // ---------------------------------------------------------------------

  ghost predicate PlainRun(w: Codec, baseline: seq<string>, cs: seq<Command>) {
    forall k :: 0 <= k < |cs| ==> Plain(w, Along(w, NewStore(baseline), cs, k), cs[k])
  }

  lemma PlainNext(w: Codec, baseline: seq<string>, cs: seq<Command>, k: nat)
    requires Injective(w) && Timed(cs) && PlainRun(w, baseline, cs) && k < |cs|
    requires InStep(w, Along(w, NewStore(baseline), cs, k))
    ensures Allowed(w, Along(w, NewStore(baseline), cs, k), cs[k]) && InStep(w, Along(w, NewStore(baseline), cs, k + 1))
  {
    var sys := Along(w, NewStore(baseline), cs, k);
    if Stamped(cs[k]) {
      TimedIsLater(w, baseline, cs, k);
    }
    assert Plain(w, sys, cs[k]);
    PlainAllowed(w, sys, cs[k]);
    StepKeepsStep(w, sys, cs[k]);
    AlongNext(w, NewStore(baseline), cs, k);
  }

  lemma {:induction false} PlainUpTo(w: Codec, baseline: seq<string>, cs: seq<Command>, k: nat)
    requires Injective(w) && Timed(cs) && PlainRun(w, baseline, cs) && k <= |cs|
    ensures InStep(w, Along(w, NewStore(baseline), cs, k))
  {
    if k == 0 {
      NothingInStep(w, baseline);
    } else {
      PlainUpTo(w, baseline, cs, k - 1);
      PlainNext(w, baseline, cs, k - 1);
    }
  }

  /**
   Commands in strictly later seconds, none of which meets a silent insert, clashing
   observations or ids, or a list the display ids do not spare, leave a state that is
   what the log replays to.
   */
  lemma {:induction false} PlainRunKeepsStep(w: Codec, baseline: seq<string>, cs: seq<Command>)
    requires Injective(w) && Timed(cs) && PlainRun(w, baseline, cs)
    ensures AllowedRun(w, NewStore(baseline), cs)
    ensures var end := Run(w, NewStore(baseline), cs);
      Replayed(w.idOf, end.log).Success? && Reproduced(end.disk, Replayed(w.idOf, end.log).value)
  {
    forall k | 0 <= k < |cs| ensures Allowed(w, Along(w, NewStore(baseline), cs, k), cs[k]) {
      PlainUpTo(w, baseline, cs, k);
      PlainNext(w, baseline, cs, k);
    }
    StateIsReplay(w, baseline, cs);
  }

  // ---------------------------------------------------------------------
  // When display ids spare a list
  // ---------------------------------------------------------------------

  /** No two fingerprints share their first six digits. */
  ghost predicate SixDigits(fps: seq<string>) {
    Long(fps) && forall i, j :: 0 <= i < j < |fps| ==> fps[i][..6] != fps[j][..6]
  }

  /** Then every id has six digits, and no list is harmed. */
  lemma SixDigitsSpare(fs: seq<Finding>)
    requires SixDigits(FingerprintsOf(fs))
    ensures Spared(fs)
  {
  }

  // ---------------------------------------------------------------------
  // Fingerprints apart in their first six digits
  // ---------------------------------------------------------------------

  /** Some scan of the run sees the fingerprint. */
  ghost predicate Observed(cs: seq<Command>, fp: string) {
    exists k :: 0 <= k < |cs| && cs[k].Scan? && SeenBy(cs[k].merged, fp)
  }

  predicate SeenBy(merged: seq<Merged>, fp: string) {
    exists i :: 0 <= i < |merged| && merged[i].fp == fp
  }

  ghost predicate SixApart(cs: seq<Command>) {
    forall a, b :: Observed(cs, a) && Observed(cs, b) && a != b && |a| == |b| == 64 ==> a[..6] != b[..6]
  }

  ghost predicate AllObserved(cs: seq<Command>, fs: seq<Finding>) {
    forall k :: 0 <= k < |fs| ==> Observed(cs, fs[k].fp)
  }

  lemma SparedWhenApart(cs: seq<Command>, fs: seq<Finding>)
    requires SixApart(cs) && AllObserved(cs, fs) && Unique(fs) && Long(FingerprintsOf(fs))
    ensures Spared(fs)
  {
    var fps := FingerprintsOf(fs);
    forall i, j | 0 <= i < j < |fps| ensures fps[i][..6] != fps[j][..6] {
      assert fs[i].fp != fs[j].fp;
    }
    SixDigitsSpare(fs);
  }

  /** What a command must not meet when no list can be harmed: a silent insert, clashing observations or ids. */
  ghost predicate Clear(w: Codec, sys: System, c: Command) {
    match c
    case Scan(_, merged, _, _) =>
      WholeFps(merged) && Uniform(merged) && Recorded(sys.disk.findings, sys.disk.baseline, merged)
    case OpenItem(_, _, _, _, _) =>
      About(sys, c).Some? ==> w.idOf(Pin(RaiseEvent(c, About(sys, c).value))) !in IdsOf(sys.disk.items)
    case DoctorFix(log, _) => log == sys.log
    case _ => true
  }

  lemma FoldObserved(cs: seq<Command>, fs: seq<Finding>, baseline: seq<string>, c: Command)
    requires c.Scan? && c in cs && AllObserved(cs, fs)
    ensures AllObserved(cs, Folded(fs, baseline, c.merged, c.cov, c.o, c.at).findings)
  {
    var good: (nat, Pass) -> bool := (i: nat, p: Pass) => AllObserved(cs, p.fs);
    forall i: nat, j: nat, p: Pass | j == i + 1 && j <= |c.merged| && good(i, p)
      ensures good(j, MergeOne(p, baseline, c.merged[i], c.o, c.at))
    {
      assert SeenBy(c.merged, c.merged[i].fp);
      assert Observed(cs, c.merged[i].fp);
    }
    MergeInduction(fs, baseline, c.merged, c.o, c.at, good, |c.merged|);
    var g := MergeUpTo(fs, baseline, c.merged, c.o, c.at, |c.merged|).fs;
    KeptFrom(g, SeenUpTo(c.merged, |c.merged|), c.cov, |g|);
    var kept := Folded(fs, baseline, c.merged, c.cov, c.o, c.at).findings;
    forall k | 0 <= k < |kept| ensures Observed(cs, kept[k].fp) {
      assert kept[k] in g;
    }
  }

  lemma SameFpsObserved(cs: seq<Command>, a: seq<Finding>, b: seq<Finding>)
    requires AllObserved(cs, a) && FingerprintsOf(a) == FingerprintsOf(b)
    ensures AllObserved(cs, b)
  {
    forall k | 0 <= k < |b| ensures Observed(cs, b[k].fp) {
      assert FingerprintsOf(a)[k] == FingerprintsOf(b)[k];
    }
  }

  /** What a store in step holds is what its log replays to. */
  lemma ReplayObserved(w: Codec, sys: System, cs: seq<Command>)
    requires Injective(w) && InStep(w, sys) && SixApart(cs) && AllObserved(cs, sys.disk.findings)
    ensures var fs := Replayed(w.idOf, sys.log).value.findings; AllObserved(cs, fs) && Unique(fs) && Spared(fs)
  {
    var fs := Replayed(w.idOf, sys.log).value.findings;
    ReplayedIndexed(w, sys.log);
    ReplayedLong(w, sys.log);
    forall k | 0 <= k < |fs| ensures Observed(cs, fs[k].fp) {
      LatestIs(fs, k);
      assert Look(sys.disk.findings, fs[k].fp) == Look(fs, fs[k].fp);
    }
    SparedWhenApart(cs, fs);
  }

  lemma ClearScan(w: Codec, sys: System, cs: seq<Command>, c: Command)
    requires InStep(w, sys) && SixApart(cs) && AllObserved(cs, sys.disk.findings)
    requires c.Scan? && c in cs && Clear(w, sys, c)
    ensures Plain(w, sys, c) && AllObserved(cs, Scanning(w, sys, c).disk.findings)
  {
    var d := sys.disk;
    var fs := Folded(d.findings, d.baseline, c.merged, c.cov, c.o, c.at).findings;
    FoldObserved(cs, d.findings, d.baseline, c);
    FoldKeepsLong(d.findings, d.baseline, c.merged, c.cov, c.o, c.at);
    Scans.FoldUnique(d.findings, d.baseline, c.merged, c.cov, c.o, c.at);
    SparedWhenApart(cs, fs);
    StoredSame(fs);
    SameFpsObserved(cs, fs, Stored(fs));
  }

  lemma ClearRestore(w: Codec, sys: System, cs: seq<Command>, baseline: seq<string>)
    requires Injective(w) && InStep(w, sys) && SixApart(cs) && AllObserved(cs, sys.disk.findings)
    ensures Restorable(w, sys.log) && AllObserved(cs, Restoring(w, sys, sys.log, baseline).disk.findings)
  {
    var fs := Replayed(w.idOf, sys.log).value.findings;
    var marked := Marked(fs, baseline);
    ReplayObserved(w, sys, cs);
    MarkedAgrees(fs, baseline);
    UniqueDistinct(fs);
    UniqueDistinct(marked);
    StoredSame(marked);
    SameFpsObserved(cs, fs, Stored(marked));
  }

  lemma ClearStep(w: Codec, sys: System, cs: seq<Command>, c: Command)
    requires Injective(w) && InStep(w, sys) && SixApart(cs) && AllObserved(cs, sys.disk.findings)
    requires c in cs && Clear(w, sys, c)
    ensures Plain(w, sys, c) && AllObserved(cs, Exec(w, sys, c).disk.findings)
  {
    if c.Scan? {
      ClearScan(w, sys, cs, c);
    } else if c.DoctorFix? {
      ClearRestore(w, sys, cs, c.baseline);
    } else if c.RebuildState? {
      ClearRestore(w, sys, cs, sys.disk.baseline);
    } else {
      assert FingerprintsOf(Exec(w, sys, c).disk.findings) == FingerprintsOf(sys.disk.findings);
      SameFpsObserved(cs, sys.disk.findings, Exec(w, sys, c).disk.findings);
    }
  }

  ghost predicate ClearRun(w: Codec, baseline: seq<string>, cs: seq<Command>) {
    forall k :: 0 <= k < |cs| ==> Clear(w, Along(w, NewStore(baseline), cs, k), cs[k])
  }

  ghost predicate ClearAt(w: Codec, baseline: seq<string>, cs: seq<Command>, k: nat)
    requires k <= |cs|
  {
    InStep(w, Along(w, NewStore(baseline), cs, k)) && AllObserved(cs, Along(w, NewStore(baseline), cs, k).disk.findings)
  }

  lemma ClearNext(w: Codec, baseline: seq<string>, cs: seq<Command>, k: nat)
    requires Injective(w) && Timed(cs) && SixApart(cs) && ClearRun(w, baseline, cs) && k < |cs| && ClearAt(w, baseline, cs, k)
    ensures Plain(w, Along(w, NewStore(baseline), cs, k), cs[k]) && ClearAt(w, baseline, cs, k + 1)
  {
    var sys := Along(w, NewStore(baseline), cs, k);
    ClearStep(w, sys, cs, cs[k]);
    if Stamped(cs[k]) {
      TimedIsLater(w, baseline, cs, k);
    }
    PlainAllowed(w, sys, cs[k]);
    StepKeepsStep(w, sys, cs[k]);
    AlongNext(w, NewStore(baseline), cs, k);
  }

  lemma {:induction false} ClearUpTo(w: Codec, baseline: seq<string>, cs: seq<Command>, k: nat)
    requires Injective(w) && Timed(cs) && SixApart(cs) && ClearRun(w, baseline, cs) && k <= |cs|
    ensures ClearAt(w, baseline, cs, k)
  {
    if k == 0 {
      NothingInStep(w, baseline);
      AlongAll(w, NewStore(baseline), cs);
    } else {
      ClearUpTo(w, baseline, cs, k - 1);
      ClearNext(w, baseline, cs, k - 1);
    }
  }

  /**
   Over fingerprints that differ in their first six digits, commands in strictly later
   seconds, none of which meets a silent insert or clashing observations or ids, leave
   a state that is what the log replays to.
   */
  lemma {:induction false} ClearRunKeepsStep(w: Codec, baseline: seq<string>, cs: seq<Command>)
    requires Injective(w) && Timed(cs) && SixApart(cs) && ClearRun(w, baseline, cs)
    ensures PlainRun(w, baseline, cs)
    ensures var end := Run(w, NewStore(baseline), cs);
      Replayed(w.idOf, end.log).Success? && Reproduced(end.disk, Replayed(w.idOf, end.log).value)
  {
    forall k | 0 <= k < |cs| ensures Plain(w, Along(w, NewStore(baseline), cs, k), cs[k]) {
      ClearUpTo(w, baseline, cs, k);
      ClearNext(w, baseline, cs, k);
    }
    PlainRunKeepsStep(w, baseline, cs);
  }
}
