/**
 A scan takes its instant before its scanners run (pipeline.go:163), and appends
 only when they have finished: lines of commands that committed meanwhile sort after
 its own. What that does to a replay, and when commands other than scans are harmless.
 */
module Amid {
  import opened Wrappers
  import opened Events
  import opened Findings
  import opened LogOrder
  import opened Replay
  import opened Delta
  import opened Batch
  import opened Orders
  import opened Refine
  import opened Commands
  import opened Agreement
  import opened Mutations
  import opened Storing
  import opened ScanSteps
  import Scans

  // ---------------------------------------------------------------------
  // One fingerprint
  // ---------------------------------------------------------------------

  /** The fingerprint is neither detected nor remediated. */
  ghost predicate Calm(evs: seq<Event>, fp: string) {
    forall i :: 0 <= i < |evs| && evs[i].fp == fp ==> !Detects(evs[i], fp) && evs[i].kind != Remediated
  }

  lemma {:induction false} NothingBorn(fp: string, evs: seq<Event>, i: nat)
    requires i <= |evs| && Calm(evs, fp)
    ensures LivesUpTo(fp, None, evs, i) == None
  {
    if i > 0 {
      NothingBorn(fp, evs, i - 1);
    }
  }

  /** Such events leave a row alive and where it is, wherever that is. */
  lemma {:induction false} PlacesApart(fp: string, a: Row, places: set<Location>, evs: seq<Event>, i: nat)
    requires i <= |evs| && Calm(evs, fp)
    ensures LivesUpTo(fp, Some(a), evs, i).Some? && LivesUpTo(fp, Some(a), evs, i).value.places == a.places
    ensures LivesUpTo(fp, Some(a.(places := places)), evs, i) ==
            Some(LivesUpTo(fp, Some(a), evs, i).value.(places := places))
  {
    if i > 0 {
      PlacesApart(fp, a, places, evs, i - 1);
    }
  }

  ghost predicate StatusLastsUpTo(evs: seq<Event>, fp: string, n: nat)
    requires n <= |evs|
  {
    forall i :: 0 <= i < n && evs[i].fp == fp ==>
      !Judges(evs[i]) && evs[i].kind != Suppressed && evs[i].kind != Deferred
  }

  /** An open row stays open, and as it is, exactly when no event decides its status. */
  lemma {:induction false} OpenStays(fp: string, a: Row, evs: seq<Event>, i: nat)
    requires i <= |evs| && Calm(evs, fp) && a.status == Open
    ensures var r := LivesUpTo(fp, Some(a), evs, i);
      && r.Some? && (r.value.status == Open <==> StatusLastsUpTo(evs, fp, i))
      && (StatusLastsUpTo(evs, fp, i) ==> r.value == a)
  {
    if i > 0 {
      OpenStays(fp, a, evs, i - 1);
      var ev := evs[i - 1];
      var decides := ev.fp == fp && (Judges(ev) || ev.kind == Suppressed || ev.kind == Deferred);
      assert StatusLastsUpTo(evs, fp, i) <==> StatusLastsUpTo(evs, fp, i - 1) && !decides;
    }
  }

  lemma {:induction false} SightsAreOpen(fp: string, evs: seq<Event>, i: nat)
    requires i <= |evs|
    ensures FirstSight(fp, evs, i).Some? ==> FirstSight(fp, evs, i).value.status == Open
  {
    if i > 0 {
      SightsAreOpen(fp, evs, i - 1);
    }
  }

  /** Scan events that do not touch a fingerprint leave its row alone. */
  lemma {:induction false} CalmScanLives(fp: string, row: Option<Row>, evs: seq<Event>, i: nat)
    requires i <= |evs| && Exclusive(evs) && Calm(evs, fp)
    ensures LivesUpTo(fp, row, evs, i) == row && FirstSight(fp, evs, i).None?
  {
    if i > 0 {
      CalmScanLives(fp, row, evs, i - 1);
      assert ScanKind(evs[i - 1]);
    }
  }

  lemma SameCalm(fp: string, a: seq<Event>, b: seq<Event>)
    requires Calm(a, fp) && forall x :: x in b ==> x in a
    ensures Calm(b, fp)
  {
    forall i | 0 <= i < |b| && b[i].fp == fp ensures !Detects(b[i], fp) && b[i].kind != Remediated {
      assert b[i] in a;
    }
  }

  /** Two orders of the same scan events, one of them followed by what sorts after the scan. */
  ghost predicate SameOrders(fp: string, row: Option<Row>, emitted: seq<Event>, replayed: seq<Event>, later: seq<Event>) {
    Lives(fp, Lives(fp, row, later), emitted) == Lives(fp, Lives(fp, row, replayed), later)
  }

  lemma KnownAmid(fp: string, a: Row, emitted: seq<Event>, replayed: seq<Event>, later: seq<Event>)
    requires Exclusive(emitted) && Exclusive(replayed) && (forall x :: x in emitted <==> x in replayed) && Calm(later, fp)
    ensures SameOrders(fp, Some(a), emitted, replayed, later)
  {
    BatchLives(fp, Lives(fp, Some(a), later), emitted, |emitted|);
    BatchLives(fp, Some(a), replayed, |replayed|);
    SameEnds(fp, emitted, replayed);
    SameEnds(fp, replayed, emitted);
    assert PlacesOf(fp, emitted, |emitted|) == PlacesOf(fp, replayed, |replayed|);
    NothingBorn(fp, later, |later|);
    PlacesApart(fp, a, a.places + PlacesOf(fp, replayed, |replayed|), later, |later|);
  }

  lemma UnknownAmidIff(fp: string, emitted: seq<Event>, replayed: seq<Event>, later: seq<Event>)
    requires Exclusive(emitted) && Exclusive(replayed) && (forall x :: x in emitted <==> x in replayed) && Calm(later, fp)
    ensures SameOrders(fp, None, emitted, replayed, later) <==> FirstHolds(fp, emitted, replayed, later)
  {
    NothingBorn(fp, later, |later|);
    OrdersAgreeIff(fp, None, emitted, replayed);
    BatchLives(fp, None, emitted, |emitted|);
    BatchLives(fp, None, replayed, |replayed|);
    FirstSightIs(fp, emitted, |emitted|);
    FirstSightIs(fp, replayed, |replayed|);
    SameEnds(fp, emitted, replayed);
    SameEnds(fp, replayed, emitted);
    NotBoth(fp, replayed);
    SightsAreOpen(fp, emitted, |emitted|);
    SightsAreOpen(fp, replayed, |replayed|);
    var born := Lives(fp, None, replayed);
    if born.Some? {
      OpenStays(fp, born.value, later, |later|);
      assert StatusLastsUpTo(later, fp, |later|) <==> StatusLasts(later, fp);
    }
  }

  /** The line that sorts first says what the first observation said, and none that sorts later decides the status. */
  ghost predicate FirstHolds(fp: string, emitted: seq<Event>, replayed: seq<Event>, later: seq<Event>) {
    && FirstSight(fp, emitted, |emitted|) == FirstSight(fp, replayed, |replayed|)
    && (FirstSight(fp, replayed, |replayed|).Some? ==> StatusLasts(later, fp))
  }

  /** The two agree on a fingerprint exactly when it was known by then, or its first detection holds. */
  lemma AmidIff(fp: string, row: Option<Row>, emitted: seq<Event>, replayed: seq<Event>, later: seq<Event>)
    requires Exclusive(emitted) && Exclusive(replayed) && (forall x :: x in emitted <==> x in replayed)
    requires Calm(replayed, fp) || Calm(later, fp)
    ensures SameOrders(fp, row, emitted, replayed, later) <==>
            (Lives(fp, row, later).Some? || FirstHolds(fp, emitted, replayed, later))
  {
    if Calm(replayed, fp) {
      SameCalm(fp, replayed, emitted);
      CalmScanLives(fp, row, replayed, |replayed|);
      CalmScanLives(fp, Lives(fp, row, later), emitted, |emitted|);
    } else if row.Some? {
      KnownAmid(fp, row.value, emitted, replayed, later);
      PlacesApart(fp, row.value, {}, later, |later|);
    } else {
      UnknownAmidIff(fp, emitted, replayed, later);
      NothingBorn(fp, later, |later|);
    }
  }

  // ---------------------------------------------------------------------
  // The log
  // ---------------------------------------------------------------------

  /** The lines sort into one gap of the visit: after its first k entries and before the others. */
  ghost predicate InGap(w: Codec, log: seq<Entry>, evs: seq<Event>, k: nat) {
    && k <= |Visited(log)|
    && Precedes(Visited(log)[..k], LinesOf(w, evs))
    && Precedes(LinesOf(w, evs), Visited(log)[k..])
  }

  /** What a replay visits before the gap, and after it. */
  function UpToGap(log: seq<Entry>, k: nat): seq<Event>
    requires k <= |Visited(log)|
  {
    EventsOf(Visited(log)[..k])
  }

  function FromGap(log: seq<Entry>, k: nat): seq<Event>
    requires k <= |Visited(log)|
  {
    EventsOf(Visited(log)[k..])
  }

  /** Lines that sort last are in the gap at the end. */
  lemma LastIsGap(w: Codec, log: seq<Entry>, evs: seq<Event>)
    requires Coherent(log) && SortLast(w, log, evs)
    ensures InGap(w, log, evs, |Visited(log)|) && FromGap(log, |Visited(log)|) == []
  {
    VisitedOrders(log);
    var v := Visited(log);
    assert v[..|v|] == v && v[|v|..] == [];
  }

  lemma {:induction false} FoldInsertAll(idOf: ItemId, a: seq<Event>, x: seq<Event>, b: seq<Event>)
    requires forall i :: 0 <= i < |x| ==> PayloadFits(x[i]) && x[i].kind != Raised && x[i].kind != Resolved
    requires FoldFrom(idOf, EMPTY, a + b).Success?
    ensures var r := FoldFrom(idOf, EMPTY, a + x + b);
      r.Success? && r.value.items == FoldFrom(idOf, EMPTY, a + b).value.items
  {
    FoldConcat(idOf, EMPTY, a, b);
    FoldConcat(idOf, EMPTY, a, x);
    FoldConcat(idOf, EMPTY, a + x, b);
    var mid := FoldFrom(idOf, EMPTY, a).value;
    FindingEventsKeepItems(idOf, mid, x);
    ItemsAlong(idOf, mid, FoldFrom(idOf, mid, x).value, b);
  }

  lemma GapVisited(w: Codec, log: seq<Entry>, evs: seq<Event>, k: nat)
    requires Coherent(log + LinesOf(w, evs)) && InGap(w, log, evs, k)
    ensures EventsOf(Visited(log)) == UpToGap(log, k) + FromGap(log, k)
    ensures EventsOf(Visited(log + LinesOf(w, evs))) ==
            UpToGap(log, k) + EventsOf(Visited(LinesOf(w, evs))) + FromGap(log, k)
  {
    var v, lines := Visited(log), LinesOf(w, evs);
    assert v == v[..k] + v[k..];
    EventsOfConcat(v[..k], v[k..]);
    if evs == [] {
      assert log + lines == log && Visited(lines) == [];
      assert v[..k] + [] + v[k..] == v;
    } else {
      assert lines[0] in lines;
      VisitedGap(log, lines, k);
    }
    EventsOfConcat(v[..k], Visited(lines));
    EventsOfConcat(v[..k] + Visited(lines), v[k..]);
  }

  /** The scan's lines sort into gap k of the log. */
  ghost predicate ScanInGap(w: Codec, sys: System, c: Command, k: nat)
    requires c.Scan?
  {
    InGap(w, sys.log, Folded(sys.disk.findings, sys.disk.baseline, c.merged, c.cov, c.o, c.at).events, k)
  }

  lemma ReplayAmid(w: Codec, sys: System, c: Command, k: nat)
    requires Injective(w) && InStep(w, sys) && c.Scan? && ScanInGap(w, sys, c, k)
    requires Accepted(sys.disk.findings, sys.disk.baseline, c.merged, c.cov, c.o, c.at)
    ensures var evs := Folded(sys.disk.findings, sys.disk.baseline, c.merged, c.cov, c.o, c.at).events;
      var log', x := sys.log + LinesOf(w, evs), ScanEvents(w, c, sys.disk.findings, sys.disk.baseline);
      && Canonical(w, log')
      && Replayed(w.idOf, log').Success?
      && Replayed(w.idOf, log').value.items == Replayed(w.idOf, sys.log).value.items
      && (forall e :: e in x <==> e in Pinned(evs))
      && EventsOf(Visited(sys.log)) == UpToGap(sys.log, k) + FromGap(sys.log, k)
      && EventsOf(Visited(log')) == UpToGap(sys.log, k) + x + FromGap(sys.log, k)
  {
    var d := sys.disk;
    var evs := Folded(d.findings, d.baseline, c.merged, c.cov, c.o, c.at).events;
    LinesCanonical(w, sys.log, evs);
    CanonicalCoherent(w, sys.log + LinesOf(w, evs));
    GapVisited(w, sys.log, evs, k);
    PartsCoherent(sys.log, LinesOf(w, evs));
    LinesFit(w, c, d.findings, d.baseline);
    FoldInsertAll(w.idOf, UpToGap(sys.log, k), ScanEvents(w, c, d.findings, d.baseline), FromGap(sys.log, k));
  }

  // ---------------------------------------------------------------------
  // Another scan in between
  // ---------------------------------------------------------------------

  lemma {:induction false} EndForgets(fp: string, a: Option<Row>, b: Option<Row>, evs: seq<Event>, i: nat)
    requires i <= |evs|
    ensures Ends(fp, evs, i) ==> LivesUpTo(fp, a, evs, i) == LivesUpTo(fp, b, evs, i)
  {
    if i > 0 {
      EndForgets(fp, a, b, evs, i - 1);
    }
  }

  lemma SeenStays(fs: seq<Finding>, baseline: seq<string>, c: Command, fp: string, i: nat)
    requires c.Scan? && Unique(fs) && i < |c.merged| && c.merged[i].fp == fp
    ensures Look(Folded(fs, baseline, c.merged, c.cov, c.o, c.at).findings, fp).Some?
    ensures Unique(Folded(fs, baseline, c.merged, c.cov, c.o, c.at).findings)
  {
    var g, n := MergeUpTo(fs, baseline, c.merged, c.o, c.at, |c.merged|).fs, |c.merged|;
    Scans.MergeUnique(fs, baseline, c.merged, c.o, c.at, n);
    Scans.FoldUnique(fs, baseline, c.merged, c.cov, c.o, c.at);
    SeenMeans(c.merged, n, fp);
    KnownUpTo(fs, baseline, c.merged, c.o, c.at, n, fp);
    KeptLook(g, SeenUpTo(c.merged, n), c.cov, |g|, fp);
  }

  lemma EndedAmid(w: Codec, sys: System, c: Command, k: nat, fp: string)
    requires Injective(w) && InStep(w, sys) && c.Scan? && ScanInGap(w, sys, c, k)
    requires Accepted(sys.disk.findings, sys.disk.baseline, c.merged, c.cov, c.o, c.at)
    requires Ends(fp, FromGap(sys.log, k), |FromGap(sys.log, k)|)
    ensures Replayed(w.idOf, Scanning(w, sys, c).log).Success?
    ensures Look(Replayed(w.idOf, Scanning(w, sys, c).log).value.findings, fp) == Look(sys.disk.findings, fp)
  {
    var a, b := UpToGap(sys.log, k), FromGap(sys.log, k);
    var x := ScanEvents(w, c, sys.disk.findings, sys.disk.baseline);
    ReplayAmid(w, sys, c, k);
    FoldActsPerFingerprint(w.idOf, EMPTY, EventsOf(Visited(sys.log)));
    FoldActsPerFingerprint(w.idOf, EMPTY, EventsOf(Visited(Scanning(w, sys, c).log)));
    LivesConcat(fp, None, a, b);
    LivesConcat(fp, None, a + x, b);
    EndForgets(fp, Lives(fp, None, a), Lives(fp, None, a + x), b, |b|);
    assert Look(sys.disk.findings, fp) == Look(Replayed(w.idOf, sys.log).value.findings, fp);
  }

  /** A finding that a scan begun later remediated, and this one saw, is in the state and not in the replay. */
  lemma LateRemediationBreaks(w: Codec, sys: System, c: Command, k: nat, i: nat)
    requires Injective(w) && InStep(w, sys) && c.Scan? && ScanInGap(w, sys, c, k)
    requires Accepted(sys.disk.findings, sys.disk.baseline, c.merged, c.cov, c.o, c.at)
    requires Spared(Folded(sys.disk.findings, sys.disk.baseline, c.merged, c.cov, c.o, c.at).findings)
    requires i < |c.merged| && !Known(sys.disk.findings, c.merged[i].fp)
    requires Ends(c.merged[i].fp, FromGap(sys.log, k), |FromGap(sys.log, k)|)
    ensures !InStep(w, Scanning(w, sys, c))
  {
    var d, fp := sys.disk, c.merged[i].fp;
    var r := Folded(d.findings, d.baseline, c.merged, c.cov, c.o, c.at);
    EndedAmid(w, sys, c, k, fp);
    SeenStays(d.findings, d.baseline, c, fp, i);
    StoredSame(r.findings);
    assert Look(Stored(r.findings), fp) == Look(r.findings, fp);
    assert Look(Scanning(w, sys, c).disk.findings, fp) != Look(Replayed(w.idOf, Scanning(w, sys, c).log).value.findings, fp);
  }
}
