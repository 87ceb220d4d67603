/**
 A scan as a step (pipeline.go:240-261): exactly when the rows it folds and the
 lines it appends say the same.
 */
module ScanSteps {
  import opened Events
  import opened Findings
  import opened LogOrder
  import opened Replay
  import opened Delta
  import opened Batch
  import opened Orders
  import opened Refine
  import opened Commands
  import opened Agreement
  import opened Storing

  // ---------------------------------------------------------------------
  // Scan
  // ---------------------------------------------------------------------

  /** The scan's events as a replay of its lines visits them. */
  function ScanEvents(w: Codec, c: Command, fs: seq<Finding>, baseline: seq<string>): seq<Event>
    requires c.Scan?
  {
    EventsOf(Visited(LinesOf(w, Folded(fs, baseline, c.merged, c.cov, c.o, c.at).events)))
  }

  /** The scan's lines sort after every line of the log. */
  ghost predicate ScanSortsLast(w: Codec, sys: System, c: Command)
    requires c.Scan?
  {
    SortLast(w, sys.log, Folded(sys.disk.findings, sys.disk.baseline, c.merged, c.cov, c.o, c.at).events)
  }

  /** So they do in a later second. */
  lemma LaterScanSortsLast(w: Codec, sys: System, c: Command)
    requires c.Scan? && Later(sys.log, c.at)
    ensures ScanSortsLast(w, sys, c)
  {
    var d := sys.disk;
    var evs := Folded(d.findings, d.baseline, c.merged, c.cov, c.o, c.at).events;
    FoldEmits(d.findings, d.baseline, c.merged, c.cov, c.o, c.at);
    forall i | 0 <= i < |evs| ensures evs[i].ts == c.at {
      assert evs[i] in evs;
      EmittedAt(c.merged, c.o, c.at, evs[i]);
    }
    LaterSortsLast(w, sys.log, evs, c.at);
  }

  /** Replaying a scan's lines is living its events, in some order. */
  lemma ScanLives(w: Codec, sys: System, c: Command)
    requires Injective(w) && InStep(w, sys) && c.Scan? && ScanSortsLast(w, sys, c)
    requires Accepted(sys.disk.findings, sys.disk.baseline, c.merged, c.cov, c.o, c.at)
    ensures var evs := Folded(sys.disk.findings, sys.disk.baseline, c.merged, c.cov, c.o, c.at).events;
      var log', x := sys.log + LinesOf(w, evs), ScanEvents(w, c, sys.disk.findings, sys.disk.baseline);
      && Canonical(w, log')
      && Replayed(w.idOf, log').Success?
      && Replayed(w.idOf, log').value.items == Replayed(w.idOf, sys.log).value.items
      && (forall e :: e in x <==> e in Pinned(evs))
      && (forall fp :: Look(Replayed(w.idOf, log').value.findings, fp) == Lives(fp, Look(sys.disk.findings, fp), x))
  {
    var d, st := sys.disk, Replayed(w.idOf, sys.log).value;
    var evs := Folded(d.findings, d.baseline, c.merged, c.cov, c.o, c.at).events;
    var lines := LinesOf(w, evs);
    LinesCanonical(w, sys.log, evs);
    CanonicalCoherent(w, sys.log + lines);
    ReplayAppended(w, sys.log, lines);
    PartsCoherent(sys.log, lines);
    LinesFit(w, c, d.findings, d.baseline);
    FindingEventsKeepItems(w.idOf, st, ScanEvents(w, c, d.findings, d.baseline));
    ReplayedIndexed(w, sys.log);
    FoldActsPerFingerprint(w.idOf, st, EventsOf(Visited(lines)));
  }

  /** What replay makes of a scan's lines: the rows of the fold, and the same items. */
  lemma ScanReplays(w: Codec, sys: System, c: Command)
    requires Injective(w) && InStep(w, sys) && c.Scan? && ScanSortsLast(w, sys, c)
    requires Accepted(sys.disk.findings, sys.disk.baseline, c.merged, c.cov, c.o, c.at)
    requires Recorded(sys.disk.findings, sys.disk.baseline, c.merged) && Uniform(c.merged)
    ensures var r := Folded(sys.disk.findings, sys.disk.baseline, c.merged, c.cov, c.o, c.at);
      var log' := sys.log + LinesOf(w, r.events);
      && Canonical(w, log')
      && Replayed(w.idOf, log').Success?
      && Agree(r.findings, Replayed(w.idOf, log').value.findings)
      && Replayed(w.idOf, log').value.items == Replayed(w.idOf, sys.log).value.items
  {
    var d := sys.disk;
    var r := Folded(d.findings, d.baseline, c.merged, c.cov, c.o, c.at);
    var log', x := sys.log + LinesOf(w, r.events), ScanEvents(w, c, d.findings, d.baseline);
    ScanLives(w, sys, c);
    forall fp ensures Look(r.findings, fp) == Look(Replayed(w.idOf, log').value.findings, fp) {
      FoldRefinesReplay(d.findings, d.baseline, c.merged, c.cov, c.o, c.at, x, fp);
    }
  }

  lemma LinesFit(w: Codec, c: Command, fs: seq<Finding>, baseline: seq<string>)
    requires c.Scan? && Coherent(LinesOf(w, Folded(fs, baseline, c.merged, c.cov, c.o, c.at).events))
    ensures var x, evs := ScanEvents(w, c, fs, baseline), Folded(fs, baseline, c.merged, c.cov, c.o, c.at).events;
      && (forall e :: e in x <==> e in Pinned(evs))
      && forall i :: 0 <= i < |x| ==> PayloadFits(x[i]) && x[i].kind != Raised && x[i].kind != Resolved
  {
    var evs := Folded(fs, baseline, c.merged, c.cov, c.o, c.at).events;
    var x := ScanEvents(w, c, fs, baseline);
    LinesVisited(w, evs);
    FoldEmits(fs, baseline, c.merged, c.cov, c.o, c.at);
    forall i | 0 <= i < |x| ensures PayloadFits(x[i]) && x[i].kind != Raised && x[i].kind != Resolved {
      assert x[i] in x;
      var j :| 0 <= j < |evs| && Pinned(evs)[j] == x[i];
      assert evs[j] in evs;
      EmittedAt(c.merged, c.o, c.at, evs[j]);
    }
  }

  /** A scan keeps state and log in step exactly when the display ids spare the list. */
  lemma ScanKeepsStepIff(w: Codec, sys: System, c: Command)
    requires Injective(w) && InStep(w, sys) && c.Scan? && ScanSortsLast(w, sys, c) && WholeFps(c.merged)
    requires Accepted(sys.disk.findings, sys.disk.baseline, c.merged, c.cov, c.o, c.at)
    requires Recorded(sys.disk.findings, sys.disk.baseline, c.merged) && Uniform(c.merged)
    ensures InStep(w, Scanning(w, sys, c)) <==>
            Spared(Folded(sys.disk.findings, sys.disk.baseline, c.merged, c.cov, c.o, c.at).findings)
  {
    var d := sys.disk;
    var fs := Folded(d.findings, d.baseline, c.merged, c.cov, c.o, c.at).findings;
    ScanReplays(w, sys, c);
    FoldFollows(d.findings, d.baseline, c.merged, c.cov, c.o, c.at);
    FoldKeepsLong(d.findings, d.baseline, c.merged, c.cov, c.o, c.at);
    var st' := Replayed(w.idOf, Scanning(w, sys, c).log).value;
    AgreeThrough(Stored(fs), fs, st'.findings);
    if Spared(fs) {
      StoredSame(fs);
    } else {
      StoredLoses(fs);
    }
  }

  // ---------------------------------------------------------------------
  // Observations that share a fingerprint and disagree
  // ---------------------------------------------------------------------

  /** Of a fingerprint new to the state, the first detection emitted and the first one replayed say the same. */
  ghost predicate FirstsAgree(fs: seq<Finding>, emitted: seq<Event>, replayed: seq<Event>) {
    forall fp :: !Known(fs, fp) ==> FirstSight(fp, emitted, |emitted|) == FirstSight(fp, replayed, |replayed|)
  }

  lemma EmittedExclusive(merged: seq<Merged>, o: Options, t: int, evs: seq<Event>)
    requires forall x :: x in evs ==> Emitted(x, merged, o, t)
    ensures Exclusive(Pinned(evs))
  {
    var x := Pinned(evs);
    forall i, j | 0 <= i < |x| && 0 <= j < |x|
      ensures ScanKind(x[i]) && !(x[i].fp == x[j].fp && x[i].kind == Detected && x[j].kind == Remediated)
    {
      assert evs[i] in evs && evs[j] in evs;
      if SightOf(evs[i], merged, o, t) {
        SightSeen(merged, o, t, evs[i]);
      }
      if SightOf(evs[j], merged, o, t) {
        SightSeen(merged, o, t, evs[j]);
      }
    }
  }

  lemma SameSetExclusive(a: seq<Event>, b: seq<Event>)
    requires Exclusive(a) && forall x :: x in b ==> x in a
    ensures Exclusive(b)
  {
    forall i, j | 0 <= i < |b| && 0 <= j < |b|
      ensures ScanKind(b[i]) && !(b[i].fp == b[j].fp && b[i].kind == Detected && b[j].kind == Remediated)
    {
      assert b[i] in a && b[j] in a;
    }
  }

  /** The rows of the fold are the rows of the replay exactly when first detections agree. */
  lemma FoldAgreesIff(fs: seq<Finding>, baseline: seq<string>, merged: seq<Merged>, cov: Coverage, o: Options, t: int,
                      replayed: seq<Event>, after: seq<Finding>)
    requires Unique(fs) && Recorded(fs, baseline, merged)
    requires var evs := Pinned(Folded(fs, baseline, merged, cov, o, t).events);
      forall x :: x in replayed <==> x in evs
    requires forall fp :: Look(after, fp) == Lives(fp, Look(fs, fp), replayed)
    ensures var r := Folded(fs, baseline, merged, cov, o, t);
      Agree(r.findings, after) <==> FirstsAgree(fs, Pinned(r.events), replayed)
  {
    var r := Folded(fs, baseline, merged, cov, o, t);
    var evs := Pinned(r.events);
    FoldFollows(fs, baseline, merged, cov, o, t);
    FoldEmits(fs, baseline, merged, cov, o, t);
    EmittedExclusive(merged, o, t, r.events);
    SameSetExclusive(evs, replayed);
    forall fp ensures Look(r.findings, fp) == Look(after, fp) <==>
      (!Known(fs, fp) ==> FirstSight(fp, evs, |evs|) == FirstSight(fp, replayed, |replayed|))
    {
      PinningKeepsLives(fp, Look(fs, fp), r.events, |r.events|);
      OrdersAgreeIff(fp, Look(fs, fp), evs, replayed);
      assert Look(r.findings, fp) == Lives(fp, Look(fs, fp), r.events);
      assert Lives(fp, Look(fs, fp), evs) == Lives(fp, Look(fs, fp), r.events);
    }
  }

  /**
   Whatever a scan observed: when it inserts no baseline row and its ids spare the
   list, state and log stay in step exactly when, of every new fingerprint, the line
   that sorts first says what the first observation said.
   */
  lemma ScanKeepsStepIffFirsts(w: Codec, sys: System, c: Command)
    requires Injective(w) && InStep(w, sys) && c.Scan? && ScanSortsLast(w, sys, c) && WholeFps(c.merged)
    requires Accepted(sys.disk.findings, sys.disk.baseline, c.merged, c.cov, c.o, c.at)
    requires Recorded(sys.disk.findings, sys.disk.baseline, c.merged)
    requires Spared(Folded(sys.disk.findings, sys.disk.baseline, c.merged, c.cov, c.o, c.at).findings)
    ensures var d := sys.disk;
      var evs := Folded(d.findings, d.baseline, c.merged, c.cov, c.o, c.at).events;
      InStep(w, Scanning(w, sys, c)) <==>
      FirstsAgree(d.findings, Pinned(evs), ScanEvents(w, c, d.findings, d.baseline))
  {
    var d := sys.disk;
    var r := Folded(d.findings, d.baseline, c.merged, c.cov, c.o, c.at);
    ScanLives(w, sys, c);
    var x, after := ScanEvents(w, c, d.findings, d.baseline), Replayed(w.idOf, Scanning(w, sys, c).log).value.findings;
    FoldAgreesIff(d.findings, d.baseline, c.merged, c.cov, c.o, c.at, x, after);
    FoldFollows(d.findings, d.baseline, c.merged, c.cov, c.o, c.at);
    FoldKeepsLong(d.findings, d.baseline, c.merged, c.cov, c.o, c.at);
    StoredSame(r.findings);
    AgreeLeft(Stored(r.findings), r.findings, after);
    InStepMeans(w, sys, Scanning(w, sys, c));
  }
}
