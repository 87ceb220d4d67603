/**
 The whole-run claim: whatever sequence of commands ran, the state files are what
 a replay of the log regenerates.
 */
module Runs {
  import opened Events
  import opened Findings
  import opened LogOrder
  import opened Replay
  import opened DisplayIds
  import opened AssignIds
  import opened Delta
  import opened Orders
  import opened Refine
  import opened Rebuild
  import opened Commands
  import opened Agreement
  import opened Mutations
  import opened Items
  import opened ItemSteps
  import opened Storing
  import opened ScanSteps
  import opened Amid
  import opened Overlap

  // ---------------------------------------------------------------------
  // Rebuild
  // ---------------------------------------------------------------------

  lemma MarkedAgrees(fs: seq<Finding>, baseline: seq<string>)
    ensures FingerprintsOf(Marked(fs, baseline)) == FingerprintsOf(fs)
    ensures Agree(Marked(fs, baseline), fs)
  {
    forall fp ensures Look(Marked(fs, baseline), fp) == Look(fs, fp) {
      LatestIsThe(Marked(fs, baseline), fp, Latest(fs, fp));
    }
  }

  lemma ReplayedLong(w: Codec, log: seq<Entry>)
    requires Injective(w) && Canonical(w, log) && Replayed(w.idOf, log).Success?
    ensures Long(FingerprintsOf(Replayed(w.idOf, log).value.findings))
  {
    CanonicalCoherent(w, log);
    VisitedOrders(log);
    forall i | 0 <= i < |Visited(log)| ensures Decoded(EventsOf(Visited(log))[i]) {
      assert Visited(log)[i] in log;
    }
    WholeFingerprints(w.idOf, EventsOf(Visited(log)));
  }

  /** Two replays agree on what a command's effect on state is compared with. */
  ghost predicate SameReplay(a: State, b: State) {
    Agree(a.findings, b.findings) && ItemsSeen(a.items) == ItemsSeen(b.items)
  }

  lemma RegeneratedAgrees(fs: seq<Finding>, baseline: seq<string>, now: seq<Finding>)
    requires Unique(fs) && Long(FingerprintsOf(fs))
    ensures Unique(Stored(Marked(fs, baseline))) <==> Spared(fs)
    ensures Spared(fs) ==> Long(FingerprintsOf(Stored(Marked(fs, baseline))))
    ensures Spared(fs) ==> (Agree(Stored(Marked(fs, baseline)), now) <==> Agree(fs, now))
  {
    var marked := Marked(fs, baseline);
    MarkedAgrees(fs, baseline);
    UniqueDistinct(fs);
    UniqueDistinct(marked);
    StoredUniqueIff(marked);
    if Spared(fs) {
      StoredSame(marked);
      AgreeLeft(Stored(marked), marked, now);
      AgreeLeft(marked, fs, now);
    }
  }

  /**
   State written from a log read earlier is in step with the log as it is by then
   exactly when the display ids spare the list and the lines added since then make
   no difference to a replay.
   */
  lemma RestoreKeepsStepIff(w: Codec, sys: System, log: seq<Entry>, baseline: seq<string>)
    requires Injective(w) && Canonical(w, sys.log) && log <= sys.log
    requires Replayed(w.idOf, log).Success? && Replayed(w.idOf, sys.log).Success?
    ensures var was, now := Replayed(w.idOf, log).value, Replayed(w.idOf, sys.log).value;
      InStep(w, Restoring(w, sys, log, baseline)) <==> Spared(was.findings) && SameReplay(was, now)
  {
    var was, now := Replayed(w.idOf, log).value, Replayed(w.idOf, sys.log).value;
    ReplayedIndexed(w, log);
    ReplayedLong(w, log);
    RegeneratedAgrees(was.findings, baseline, now.findings);
  }

  /** A fingerprint is the same after the events as before. */
  ghost predicate Untouched(fs: seq<Finding>, since: seq<Event>) {
    forall fp :: Lives(fp, Look(fs, fp), since) == Look(fs, fp)
  }

  /**
   When the lines since sort after it: exactly when the ids spare the list, every
   fingerprint's life ends as it was, no open item is resolved and no new one left open.
   */
  lemma RestoreKeepsStepIffSince(w: Codec, sys: System, log: seq<Entry>, more: seq<Entry>, baseline: seq<string>)
    requires Injective(w) && Canonical(w, sys.log) && sys.log == log + more && Precedes(log, more)
    requires Replayed(w.idOf, log).Success? && Replayed(w.idOf, sys.log).Success? && LinesOwnIds(w.idOf, sys.log)
    ensures var was, since := Replayed(w.idOf, log).value, EventsOf(Visited(more));
      InStep(w, Restoring(w, sys, log, baseline)) <==>
        && Spared(was.findings) && Untouched(was.findings, since)
        && NoneSettled(was.items, since) && Settled(w.idOf, since)
  {
    var was, since := Replayed(w.idOf, log).value, EventsOf(Visited(more));
    RestoreKeepsStepIff(w, sys, log, baseline);
    SinceFindings(w, log, more);
    SinceItems(w, log, more);
  }

  lemma SinceFindings(w: Codec, log: seq<Entry>, more: seq<Entry>)
    requires Injective(w) && Canonical(w, log + more) && Precedes(log, more)
    requires Replayed(w.idOf, log).Success? && Replayed(w.idOf, log + more).Success?
    ensures var was, now := Replayed(w.idOf, log).value, Replayed(w.idOf, log + more).value;
      Agree(was.findings, now.findings) <==> Untouched(was.findings, EventsOf(Visited(more)))
  {
    var was, now, since := Replayed(w.idOf, log).value, Replayed(w.idOf, log + more).value, EventsOf(Visited(more));
    CanonicalCoherent(w, log + more);
    ReplayAppended(w, log, more);
    ReplayedIndexed(w, log);
    FoldActsPerFingerprint(w.idOf, was, since);
    if Agree(was.findings, now.findings) {
      forall fp ensures Lives(fp, Look(was.findings, fp), since) == Look(was.findings, fp) {
        assert Look(was.findings, fp) == Look(now.findings, fp);
      }
    }
  }

  lemma SinceItems(w: Codec, log: seq<Entry>, more: seq<Entry>)
    requires Injective(w) && Canonical(w, log + more) && Precedes(log, more) && LinesOwnIds(w.idOf, log + more)
    requires Replayed(w.idOf, log).Success? && Replayed(w.idOf, log + more).Success?
    ensures var was, now, since := Replayed(w.idOf, log).value, Replayed(w.idOf, log + more).value, EventsOf(Visited(more));
      ItemsSeen(was.items) == ItemsSeen(now.items) <==> NoneSettled(was.items, since) && Settled(w.idOf, since)
  {
    var a, b := EventsOf(Visited(log)), EventsOf(Visited(more));
    CanonicalCoherent(w, log + more);
    PartsCoherent(log, more);
    VisitedAppend(log, more);
    EventsOfConcat(Visited(log), Visited(more));
    VisitOwnsIds(w.idOf, log + more);
    assert LinesOwnIds(w.idOf, log);
    VisitOwnsIds(w.idOf, log);
    ItemsReplayed(w.idOf, a);
    ItemsReplayed(w.idOf, a + b);
    ItemsStayIff(w.idOf, a, b);
  }

  /** A rebuild brings state and log in step, whatever the state was, exactly when the display ids spare the list. */
  lemma RebuildKeepsStepIff(w: Codec, sys: System)
    requires Injective(w) && Canonical(w, sys.log) && Replayed(w.idOf, sys.log).Success?
    ensures InStep(w, Rebuilding(w, sys)) <==> Spared(Replayed(w.idOf, sys.log).value.findings)
  {
    RestoreKeepsStepIff(w, sys, sys.log, sys.disk.baseline);
  }

  // ---------------------------------------------------------------------
  // Baseline and advisory databases
  // ---------------------------------------------------------------------

  lemma DebtAgrees(fs: seq<Finding>, whole: bool)
    ensures FingerprintsOf(Debt(fs, whole)) == FingerprintsOf(fs)
    ensures Agree(Debt(fs, whole), fs)
  {
    forall fp ensures Look(Debt(fs, whole), fp) == Look(fs, fp) {
      LatestIsThe(Debt(fs, whole), fp, Latest(fs, fp));
    }
  }

  /** Recording the baseline keeps state and log in step, wherever its line sorts. */
  lemma RebaselineKeepsStep(w: Codec, sys: System, c: Command)
    requires Injective(w) && InStep(w, sys) && c.Rebaseline?
    ensures InStep(w, Rebaselining(w, sys, c))
  {
    if Valid(RebaselineEvent(c)) {
      ReplayIgnores(w, sys.log, RebaselineEvent(c));
      DebtAgrees(sys.disk.findings, c.whole);
      UniqueDistinct(sys.disk.findings);
      UniqueDistinct(Debt(sys.disk.findings, c.whole));
      AgreeLeft(Debt(sys.disk.findings, c.whole), sys.disk.findings, Replayed(w.idOf, sys.log).value.findings);
    }
  }

  lemma UpdateKeepsStep(w: Codec, sys: System, c: Command)
    requires Injective(w) && InStep(w, sys) && c.RecordUpdate?
    ensures InStep(w, Updating(w, sys, c))
  {
    if Valid(UpdateEvent(c)) {
      ReplayIgnores(w, sys.log, UpdateEvent(c));
    }
  }

  // ---------------------------------------------------------------------
  // Whole runs
  // ---------------------------------------------------------------------

  /** The scan's lines sort into gap k, and every fingerprint fits what sorts before and after them. */
  ghost predicate ScanFits(w: Codec, sys: System, c: Command, k: nat)
    requires c.Scan?
  {
    var d := sys.disk;
    var evs := Folded(d.findings, d.baseline, c.merged, c.cov, c.o, c.at).events;
    && ScanInGap(w, sys, c, k)
    && AllFit(UpToGap(sys.log, k), Pinned(evs), ScanEvents(w, c, d.findings, d.baseline), FromGap(sys.log, k))
  }

  /** So it is of a scan whose lines sort last and whose first detections agree. */
  lemma LastScanFits(w: Codec, sys: System, c: Command)
    requires Injective(w) && InStep(w, sys) && c.Scan? && ScanSortsLast(w, sys, c)
    requires Accepted(sys.disk.findings, sys.disk.baseline, c.merged, c.cov, c.o, c.at)
    requires var d := sys.disk;
      var evs := Folded(d.findings, d.baseline, c.merged, c.cov, c.o, c.at).events;
      FirstsAgree(d.findings, Pinned(evs), ScanEvents(w, c, d.findings, d.baseline))
    ensures ScanFits(w, sys, c, |Visited(sys.log)|)
  {
    var d, k := sys.disk, |Visited(sys.log)|;
    var evs := Folded(d.findings, d.baseline, c.merged, c.cov, c.o, c.at).events;
    var x := ScanEvents(w, c, d.findings, d.baseline);
    CanonicalCoherent(w, sys.log);
    LastIsGap(w, sys.log, evs);
    forall fp | !Known(d.findings, fp) ensures FirstHolds(fp, Pinned(evs), x, []) {
      assert FirstSight(fp, Pinned(evs), |evs|) == FirstSight(fp, x, |x|);
    }
    UndisturbedFitsIff(w, sys, c, k);
  }

  lemma ScanKeepsStep(w: Codec, sys: System, c: Command)
    requires Injective(w) && InStep(w, sys) && c.Scan? && Allowed(w, sys, c)
    ensures InStep(w, Scanning(w, sys, c))
  {
    var d := sys.disk;
    if Accepted(d.findings, d.baseline, c.merged, c.cov, c.o, c.at) {
      var k: nat :| ScanFits(w, sys, c, k);
      ScanOverlapKeepsStepIff(w, sys, c, k);
    }
  }

  /** A raise's line sorts last and its id is unused; or ids are lines' own, the line is new, and later items are settled. */
  ghost predicate RaiseFits(w: Codec, sys: System, ev: Event) {
    || (SortLast(w, sys.log, [ev]) && w.idOf(Pin(ev)) !in IdsOf(sys.disk.items))
    || (LinesOwnIds(w.idOf, sys.log + [Line(w, ev)]) && Line(w, ev) !in sys.log && Settled(w.idOf, Afterwards(w, sys.log, ev)))
  }

  /** A resolve's line sorts last; or ids are lines' own and it sorts after the line that raises the item. */
  ghost predicate ResolveFits(w: Codec, sys: System, ev: Event)
    requires Resolves(ev)
  {
    || SortLast(w, sys.log, [ev])
    || (LinesOwnIds(w.idOf, sys.log) && RaisedBefore(w.idOf, sys.log, ev.payload.item, Line(w, ev)))
  }

  /** What each command needs of the moment it runs in. */
  ghost predicate Allowed(w: Codec, sys: System, c: Command) {
    match c
    case Scan(at, merged, cov, o) =>
      && WholeFps(merged)
      && var d := sys.disk;
         Accepted(d.findings, d.baseline, merged, cov, o, at) ==>
           var r := Folded(d.findings, d.baseline, merged, cov, o, at);
           && Recorded(d.findings, d.baseline, merged)
           && Spared(r.findings)
           && exists k: nat :: ScanFits(w, sys, c, k)
    case OpenItem(_, _, _, _, _) =>
      About(sys, c).Some? && Valid(RaiseEvent(c, About(sys, c).value)) ==> RaiseFits(w, sys, RaiseEvent(c, About(sys, c).value))
    case CloseItem(_, _, item, _, _) =>
      item in IdsOf(sys.disk.items) && Valid(ResolveEvent(c)) ==> ResolveFits(w, sys, ResolveEvent(c))
    case DoctorFix(log, _) =>
      && log <= sys.log
      && (Replayed(w.idOf, log).Success? && Replayed(w.idOf, sys.log).Success? ==>
            && Spared(Replayed(w.idOf, log).value.findings)
            && SameReplay(Replayed(w.idOf, log).value, Replayed(w.idOf, sys.log).value))
    case RebuildState => Replayed(w.idOf, sys.log).Success? ==> Spared(Replayed(w.idOf, sys.log).value.findings)
    case Rebaseline(_, _, _) => true
    case RecordUpdate(_, _, _, _, _) => true
    case _ => forall k: nat :: Hits(sys, c, k) ==> Effective(w, sys, c, k)
  }

  lemma RaiseKeepsStep(w: Codec, sys: System, c: Command)
    requires Injective(w) && InStep(w, sys) && c.OpenItem?
    requires About(sys, c).Some? && Valid(RaiseEvent(c, About(sys, c).value))
    requires RaiseFits(w, sys, RaiseEvent(c, About(sys, c).value))
    ensures InStep(w, Raising(w, sys, c))
  {
    var ev := RaiseEvent(c, About(sys, c).value);
    if SortLast(w, sys.log, [ev]) && w.idOf(Pin(ev)) !in IdsOf(sys.disk.items) {
      LastRaiseKeepsStepIff(w, sys, c);
    } else {
      RaiseKeepsStepIff(w, sys, c);
    }
  }

  lemma ResolveKeepsStep(w: Codec, sys: System, c: Command)
    requires Injective(w) && InStep(w, sys) && c.CloseItem? && c.item in IdsOf(sys.disk.items)
    requires Valid(ResolveEvent(c)) && ResolveFits(w, sys, ResolveEvent(c))
    ensures InStep(w, Resolving(w, sys, c))
  {
    if SortLast(w, sys.log, [ResolveEvent(c)]) {
      LastResolveKeepsStep(w, sys, c);
    } else {
      ResolveKeepsStepIff(w, sys, c);
    }
  }

  lemma StepKeepsStep(w: Codec, sys: System, c: Command)
    requires Injective(w) && InStep(w, sys)
    requires Allowed(w, sys, c)
    ensures InStep(w, Exec(w, sys, c))
  {
    match c
    case Scan(_, _, _, _) => ScanKeepsStep(w, sys, c);
    case Triage(_, _, _, _, _, _, _) => MutateKeepsStep(w, sys, c);
    case Suppress(_, _, _, _) => MutateKeepsStep(w, sys, c);
    case Defer(_, _, _, _) => MutateKeepsStep(w, sys, c);
    case OpenItem(_, _, _, _, _) =>
      if About(sys, c).Some? && Valid(RaiseEvent(c, About(sys, c).value)) { RaiseKeepsStep(w, sys, c); }
    case CloseItem(_, _, _, _, _) =>
      if c.item in IdsOf(sys.disk.items) && Valid(ResolveEvent(c)) { ResolveKeepsStep(w, sys, c); }
    case Rebaseline(_, _, _) => RebaselineKeepsStep(w, sys, c);
    case RecordUpdate(_, _, _, _, _) => UpdateKeepsStep(w, sys, c);
    case DoctorFix(log, baseline) =>
      if Replayed(w.idOf, log).Success? { RestoreKeepsStepIff(w, sys, log, baseline); }
    case RebuildState => RebuildKeepsStepIff(w, sys);
  }

  lemma NothingInStep(w: Codec, baseline: seq<string>)
    ensures InStep(w, NewStore(baseline))
  {
    assert Visited([]) == [];
    assert EventsOf([]) == [];
  }

  ghost predicate AllowedRun(w: Codec, sys: System, cs: seq<Command>) {
    forall k :: 0 <= k < |cs| ==> Allowed(w, Along(w, sys, cs, k), cs[k])
  }

  lemma {:induction false} StaysInStep(w: Codec, sys: System, cs: seq<Command>, k: nat)
    requires Injective(w) && InStep(w, sys) && AllowedRun(w, sys, cs) && k <= |cs|
    ensures InStep(w, Along(w, sys, cs, k))
  {
    if k == 0 {
      AlongAll(w, sys, cs);
    } else {
      StaysInStep(w, sys, cs, k - 1);
      AlongNext(w, sys, cs, k - 1);
      StepKeepsStep(w, Along(w, sys, cs, k - 1), cs[k - 1]);
    }
  }

  /** After any run of commands the log replays without error to the state on disk. */
  lemma {:induction false} RunKeepsStep(w: Codec, sys: System, cs: seq<Command>)
    requires Injective(w) && InStep(w, sys) && AllowedRun(w, sys, cs)
    ensures InStep(w, Run(w, sys, cs))
  {
    StaysInStep(w, sys, cs, |cs|);
    AlongAll(w, sys, cs);
  }

  /** The same, from a store that was just initialised. */
  lemma {:induction false} StateIsReplay(w: Codec, baseline: seq<string>, cs: seq<Command>)
    requires Injective(w) && AllowedRun(w, NewStore(baseline), cs)
    ensures var end := Run(w, NewStore(baseline), cs);
      Replayed(w.idOf, end.log).Success? && Reproduced(end.disk, Replayed(w.idOf, end.log).value)
  {
    NothingInStep(w, baseline);
    RunKeepsStep(w, NewStore(baseline), cs);
  }
}
