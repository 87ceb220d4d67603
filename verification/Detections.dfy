/**
 What a scan's events say (delta.go:54-139 and :163-182): every detection names an
 observation of the scan and carries its attributes, and the digest of the advisory
 database only when the observation came from it. So only such an observation is ever
 blamed on the database.
 */
module Detections {
  import opened Events
  import opened Findings
  import opened LogOrder
  import opened Replay
  import opened Delta
  import opened Refine
  import opened Commands
  import Files
  import Merge
  import Scans
  import Trend
  import Records

  // ---------------------------------------------------------------------
  // One scan
  // ---------------------------------------------------------------------

  /** The event is made of the observation, at one of its places, with the digest only if the database told of it. */
  predicate Reports(x: Event, m: Merged, digest: string) {
    && x.fp == m.fp && x.payload.DetectedData?
    && Location(x.payload.path, x.payload.line) in m.locs
    && x.payload.rule == m.ruleId && x.payload.severity == m.severity && x.payload.description == m.description
    && x.payload.scanner == m.scanner && x.payload.also == m.collapsedWith && x.payload.dev == m.dev
    && x.payload.db == if m.db then digest else ""
  }

  ghost predicate Reported(x: Event, merged: seq<Merged>, digest: string) {
    exists i :: 0 <= i < |merged| && Reports(x, merged[i], digest)
  }

  predicate SignedBy(x: Event, o: Options, t: int) {
    x.actor == o.env.actor && x.phase == o.env.phase && x.engine == o.env.engine && x.ts == t
  }

  lemma SightReports(x: Event, merged: seq<Merged>, o: Options, t: int)
    requires SightOf(x, merged, o, t)
    ensures x.kind == Detected && Reported(x, merged, o.dbDigest) && SignedBy(x, o, t)
  {
    var i, l :| 0 <= i < |merged| && l in merged[i].locs && x == DetectedEvent(t, o, merged[i], l);
    assert Reports(x, merged[i], o.dbDigest);
  }

  lemma {:induction false} GoneSigned(fs: seq<Finding>, seen: set<string>, cov: Coverage, o: Options, t: int, i: nat)
    requires i <= |fs|
    ensures forall x :: x in GoneUpTo(fs, seen, cov, o, t, i) ==>
      && x.kind == Remediated && SignedBy(x, o, t)
      && x.payload == ReasonedData("absent from a scan that ran the originating scanner and covered every location")
  {
    if i > 0 {
      GoneSigned(fs, seen, cov, o, t, i - 1);
    }
  }

  lemma {:induction false} ShownSigned(fs: seq<Finding>, merged: seq<Merged>, o: Options, t: int, i: nat)
    requires i <= |merged|
    ensures forall x :: x in SurfacedUpTo(fs, merged, o, t, i) ==>
      x.kind == Surfaced && SignedBy(x, o, t) && x.payload == SurfacedData(o.context)
  {
    if i > 0 {
      ShownSigned(fs, merged, o, t, i - 1);
    }
  }

  /** Every event of a scan: whose it is, and what it carries. */
  lemma FoldReports(fs: seq<Finding>, baseline: seq<string>, merged: seq<Merged>, cov: Coverage, o: Options, t: int, x: Event)
    requires x in Folded(fs, baseline, merged, cov, o, t).events
    ensures SignedBy(x, o, t) && (x.kind == Detected || x.kind == Remediated || x.kind == Surfaced)
    ensures x.kind == Detected ==> Reported(x, merged, o.dbDigest)
    ensures x.kind == Remediated ==>
      x.payload == ReasonedData("absent from a scan that ran the originating scanner and covered every location")
    ensures x.kind == Surfaced ==> x.payload == SurfacedData(o.context)
  {
    var p, seen := MergeUpTo(fs, baseline, merged, o, t, |merged|), SeenUpTo(merged, |merged|);
    MergeSights(fs, baseline, merged, o, t, |merged|);
    GoneSigned(p.fs, seen, cov, o, t, |p.fs|);
    ShownSigned(p.fs, merged, o, t, |merged|);
    if x in p.evs {
      SightReports(x, merged, o, t);
    }
  }

  // ---------------------------------------------------------------------
  // How often
  // ---------------------------------------------------------------------

  /** Observations list each of their places once. */
  ghost predicate PlacesOnce(merged: seq<Merged>) {
    forall i :: 0 <= i < |merged| ==> NoRepeats(merged[i].locs)
  }

  predicate SamePlace(x: Event, y: Event) {
    && x.fp == y.fp && x.payload.DetectedData? && y.payload.DetectedData?
    && x.payload.path == y.payload.path && x.payload.line == y.payload.line
  }

  /** No two of the events detect one finding at one place. */
  ghost predicate DetectOnce(evs: seq<Event>) {
    forall i, j :: 0 <= i < j < |evs| ==> !SamePlace(evs[i], evs[j])
  }

  /** Whatever was detected is by now a place of its row. */
  ghost predicate Placed(p: Pass) {
    forall x :: x in p.evs && x.payload.DetectedData? ==>
      Known(p.fs, x.fp) && Location(x.payload.path, x.payload.line) in p.fs[Latest(p.fs, x.fp)].locs
  }

  /** New events are of one finding, at places its row did not have, each once. */
  ghost predicate AllNew(evs: seq<Event>, fp: string, locs: seq<Location>) {
    DetectOnce(evs) && forall x :: x in evs ==> x.fp == fp && x.payload.DetectedData? && Location(x.payload.path, x.payload.line) !in locs
  }

  lemma {:induction false} NewSightsAllNew(t: int, o: Options, m: Merged, locs: seq<Location>, i: nat)
    requires i <= |m.locs|
    ensures AllNew(NewSights(t, o, m, locs, i), m.fp, locs)
    ensures forall x :: x in NewSights(t, o, m, locs, i) ==> Location(x.payload.path, x.payload.line) in LocsUpTo(locs, m.locs, i)
  {
    if i > 0 {
      NewSightsAllNew(t, o, m, locs, i - 1);
      Scans.LocsGrow(locs, m.locs, i - 1);
      var before, l := NewSights(t, o, m, locs, i - 1), m.locs[i - 1];
      var now := NewSights(t, o, m, locs, i);
      if !HasLoc(LocsUpTo(locs, m.locs, i - 1), l) {
        forall j | 0 <= j < |before| ensures !SamePlace(before[j], DetectedEvent(t, o, m, l)) {
          assert before[j] in before;
        }
        assert forall a, b :: 0 <= a < b < |now| ==> !SamePlace(now[a], now[b]);
      }
    }
  }

  lemma {:induction false} FirstSightsAllNew(t: int, o: Options, m: Merged, i: nat)
    requires i <= |m.locs| && NoRepeats(m.locs)
    ensures AllNew(FirstSights(t, o, m, i), m.fp, [])
    ensures forall x :: x in FirstSights(t, o, m, i) ==> Location(x.payload.path, x.payload.line) in m.locs[..i]
  {
    if i > 0 {
      FirstSightsAllNew(t, o, m, i - 1);
      assert m.locs[..i] == m.locs[..i - 1] + [m.locs[i - 1]];
      var before, now := FirstSights(t, o, m, i - 1), FirstSights(t, o, m, i);
      forall j | 0 <= j < |before| ensures !SamePlace(before[j], DetectedEvent(t, o, m, m.locs[i - 1])) {
        assert before[j] in before;
      }
      assert forall a, b :: 0 <= a < b < |now| ==> !SamePlace(now[a], now[b]);
    }
  }

  lemma NewJoins(evs: seq<Event>, more: seq<Event>, fp: string, locs: seq<Location>)
    requires DetectOnce(evs) && AllNew(more, fp, locs)
    requires forall x :: x in evs && x.payload.DetectedData? && x.fp == fp ==> Location(x.payload.path, x.payload.line) in locs
    ensures DetectOnce(evs + more)
  {
    var all := evs + more;
    forall i, j | 0 <= i < j < |all| ensures !SamePlace(all[i], all[j]) {
      if i < |evs| <= j {
        assert all[i] in evs && all[j] in more;
      }
    }
  }

  lemma OneOnce(p: Pass, baseline: seq<string>, m: Merged, o: Options, t: int)
    requires DetectOnce(p.evs) && Placed(p) && NoRepeats(m.locs)
    ensures var q := MergeOne(p, baseline, m, o, t); DetectOnce(q.evs) && Placed(q)
  {
    var k, q := Latest(p.fs, m.fp), MergeOne(p, baseline, m, o, t);
    if k >= 0 {
      var locs := p.fs[k].locs;
      NewSightsAllNew(t, o, m, locs, |m.locs|);
      NewJoins(p.evs, NewSights(t, o, m, locs, |m.locs|), m.fp, locs);
      Scans.LocsGrow(locs, m.locs, |m.locs|);
      forall fp ensures Latest(q.fs, fp) == Latest(p.fs, fp) {
        LatestUpdate(p.fs, k, Refreshed(p.fs[k], m, t), fp);
      }
    } else {
      FirstSightsAllNew(t, o, m, |m.locs|);
      assert m.locs[..|m.locs|] == m.locs;
      NewJoins(p.evs, FirstSights(t, o, m, |m.locs|), m.fp, []);
      assert p.evs + [] == p.evs;
      forall fp ensures Latest(q.fs, fp) == if fp == m.fp then |p.fs| else Latest(p.fs, fp) {
        LatestAppend(p.fs, Newborn(m, t, m.fp in baseline), fp);
      }
    }
  }

  lemma {:induction false} MergeDetectsOnce(fs: seq<Finding>, baseline: seq<string>, merged: seq<Merged>, o: Options, t: int)
    requires PlacesOnce(merged)
    ensures DetectOnce(MergeUpTo(fs, baseline, merged, o, t, |merged|).evs)
  {
    var good: (nat, Pass) -> bool := (i: nat, p: Pass) => DetectOnce(p.evs) && Placed(p);
    forall i: nat, j: nat, p: Pass | j == i + 1 && j <= |merged| && good(i, p)
      ensures good(j, MergeOne(p, baseline, merged[i], o, t))
    {
      OneOnce(p, baseline, merged[i], o, t);
    }
    MergeInduction(fs, baseline, merged, o, t, good, |merged|);
  }

  /** A scan writes one detected event for a finding and a place, and no more. */
  lemma FoldDetectsOnce(fs: seq<Finding>, baseline: seq<string>, merged: seq<Merged>, cov: Coverage, o: Options, t: int)
    requires PlacesOnce(merged)
    ensures DetectOnce(Folded(fs, baseline, merged, cov, o, t).events)
  {
    var p, seen := MergeUpTo(fs, baseline, merged, o, t, |merged|), SeenUpTo(merged, |merged|);
    var gone, shown := GoneUpTo(p.fs, seen, cov, o, t, |p.fs|), SurfacedUpTo(p.fs, merged, o, t, |merged|);
    MergeDetectsOnce(fs, baseline, merged, o, t);
    GoneSigned(p.fs, seen, cov, o, t, |p.fs|);
    ShownSigned(p.fs, merged, o, t, |merged|);
    OthersApart(p.evs, gone);
    OthersApart(p.evs + gone, shown);
  }

  lemma OthersApart(evs: seq<Event>, more: seq<Event>)
    requires DetectOnce(evs) && forall x :: x in more ==> !x.payload.DetectedData?
    ensures DetectOnce(evs + more)
  {
    var all := evs + more;
    forall i, j | 0 <= i < j < |all| ensures !SamePlace(all[i], all[j]) {
      if |evs| <= j {
        assert all[j] in more;
      }
    }
  }

  /** What merging yields lists each place of a finding once. */
  lemma MergedPlacesOnce(h: Merge.Hashes, fs: seq<Merge.Obs>)
    ensures PlacesOnce(Merge.AllMerged(h, fs))
  {
    var out := Merge.AllMerged(h, fs);
    forall i | 0 <= i < |out| ensures NoRepeats(out[i].locs) {
      Merge.NothingInvented(h, fs, i);
    }
  }

  function Shown(evs: seq<Event>, fp: string): nat {
    if evs == [] then 0
    else Shown(evs[..|evs| - 1], fp) + if evs[|evs| - 1].kind == Surfaced && evs[|evs| - 1].fp == fp then 1 else 0
  }

  function Sightings(merged: seq<Merged>, fp: string, i: nat): nat
    requires i <= |merged|
  {
    if i == 0 then 0 else Sightings(merged, fp, i - 1) + if merged[i - 1].fp == fp then 1 else 0
  }

  lemma {:induction false} ShownJoins(a: seq<Event>, b: seq<Event>, fp: string)
    ensures Shown(a + b, fp) == Shown(a, fp) + Shown(b, fp)
    decreases |b|
  {
    if b == [] {
      assert a + b == a;
    } else {
      assert (a + b)[..|a + b| - 1] == a + b[..|b| - 1];
      ShownJoins(a, b[..|b| - 1], fp);
    }
  }

  lemma {:induction false} ShownPlus(evs: seq<Event>, ev: Event, fp: string)
    ensures Shown(evs + [ev], fp) == Shown(evs, fp) + if ev.kind == Surfaced && ev.fp == fp then 1 else 0
  {
    assert (evs + [ev])[..|evs|] == evs;
  }

  lemma {:induction false} ShownNone(evs: seq<Event>, fp: string)
    requires forall x :: x in evs ==> x.kind != Surfaced
    ensures Shown(evs, fp) == 0
    decreases |evs|
  {
    if evs != [] {
      ShownNone(evs[..|evs| - 1], fp);
      assert evs[|evs| - 1] in evs;
    }
  }

  lemma {:induction false} ShownUpTo(fs: seq<Finding>, merged: seq<Merged>, o: Options, t: int, i: nat, fp: string)
    requires i <= |merged|
    ensures Shown(SurfacedUpTo(fs, merged, o, t, i), fp) == if Presented(fs, fp) then Sightings(merged, fp, i) else 0
  {
    if i > 0 {
      ShownUpTo(fs, merged, o, t, i - 1, fp);
      ShownPlus(SurfacedUpTo(fs, merged, o, t, i - 1), SurfacedEvent(t, o, merged[i - 1].fp), fp);
    }
  }

  /** And one presentation for every observation of a finding that ends open or confirmed. */
  lemma {:induction false} FoldShowsEach(fs: seq<Finding>, baseline: seq<string>, merged: seq<Merged>, cov: Coverage, o: Options, t: int, fp: string)
    requires Unique(fs)
    ensures var r := Folded(fs, baseline, merged, cov, o, t);
      Shown(r.events, fp) ==
      if Look(r.findings, fp).Some? && Look(r.findings, fp).value.status in {Open, Confirmed} then Sightings(merged, fp, |merged|) else 0
  {
    var p, seen := MergeUpTo(fs, baseline, merged, o, t, |merged|), SeenUpTo(merged, |merged|);
    var gone, shown := GoneUpTo(p.fs, seen, cov, o, t, |p.fs|), SurfacedUpTo(p.fs, merged, o, t, |merged|);
    ShownJoins(p.evs, gone, fp);
    ShownJoins(p.evs + gone, shown, fp);
    MergeSights(fs, baseline, merged, o, t, |merged|);
    forall x | x in p.evs ensures x.kind != Surfaced {
      SightReports(x, merged, o, t);
    }
    ShownNone(p.evs, fp);
    GoneSigned(p.fs, seen, cov, o, t, |p.fs|);
    ShownNone(gone, fp);
    ShownUpTo(p.fs, merged, o, t, |merged|, fp);
    Scans.MergeUnique(fs, baseline, merged, o, t, |merged|);
    KeptLook(p.fs, seen, cov, |p.fs|, fp);
    SightingsSeen(merged, fp, |merged|);
  }

  lemma {:induction false} SightingsSeen(merged: seq<Merged>, fp: string, i: nat)
    requires i <= |merged|
    ensures fp in SeenUpTo(merged, i) <==> Sightings(merged, fp, i) > 0
  {
    if i > 0 {
      SightingsSeen(merged, fp, i - 1);
    }
  }

  // ---------------------------------------------------------------------
  // Over whole runs
  // ---------------------------------------------------------------------

  /** A detection in the log comes from an observation of a scan of the run. */
  ghost predicate FromScan(x: Event, c: Command) {
    c.Scan? && Reported(x, c.merged, c.o.dbDigest)
  }

  lemma WritesReport(w: Codec, sys: System, c: Command, x: Event)
    requires x in Files.Writes(w, sys, c) && x.kind == Detected
    ensures FromScan(x, c)
  {
    if c.Scan? {
      FoldReports(sys.disk.findings, sys.disk.baseline, c.merged, c.cov, c.o, c.at, x);
    }
  }

  lemma {:induction false} WrittenReport(w: Codec, sys: System, cs: seq<Command>, k: nat, x: Event)
    requires k <= |cs| && x in Files.Written(w, sys, cs, k) && x.kind == Detected
    ensures exists i :: 0 <= i < k && FromScan(x, cs[i])
  {
    if x in Files.Written(w, sys, cs, k - 1) {
      WrittenReport(w, sys, cs, k - 1, x);
    } else {
      WritesReport(w, Along(w, sys, cs, k - 1), cs[k - 1], x);
    }
  }

  lemma PinReports(x: Event, merged: seq<Merged>, digest: string)
    requires Reported(x, merged, digest)
    ensures Reported(Pin(x), merged, digest)
  {
    var i :| 0 <= i < |merged| && Reports(x, merged[i], digest);
    assert Reports(Pin(x), merged[i], digest);
  }

  lemma {:induction false} LogReports(w: Codec, baseline: seq<string>, cs: seq<Command>, e: Entry)
    requires e in Run(w, NewStore(baseline), cs).log && e.ev.kind == Detected
    ensures exists i :: 0 <= i < |cs| && FromScan(e.ev, cs[i])
  {
    var evs := Files.Written(w, NewStore(baseline), cs, |cs|);
    Files.RunWrites(w, NewStore(baseline), cs, |cs|);
    AlongAll(w, NewStore(baseline), cs);
    assert [] + LinesOf(w, evs) == LinesOf(w, evs);
    Files.LinesAre(w, evs, e);
    var x :| x in evs && e == Line(w, x);
    WrittenReport(w, NewStore(baseline), cs, |cs|, x);
    var i :| 0 <= i < |cs| && FromScan(x, cs[i]);
    PinReports(x, cs[i].merged, cs[i].o.dbDigest);
  }

  /** The scan and the observation a blamed record comes from. */
  ghost predicate DatabaseTold(x: Event, c: Command) {
    c.Scan? && c.o.dbDigest != "" && exists i :: 0 <= i < |c.merged| && c.merged[i].fp == x.fp && c.merged[i].db
  }

  lemma DigestTells(x: Event, c: Command)
    requires FromScan(x, c) && x.payload.db != ""
    ensures DatabaseTold(x, c)
  {
    var i :| 0 <= i < |c.merged| && Reports(x, c.merged[i], c.o.dbDigest);
  }

  /** Over any run, the metrics blame a new finding on the database only when a scan saw it as the database's. */
  lemma {:induction false} OnlyDatabaseIsBlamed(w: Codec, baseline: seq<string>, cs: seq<Command>, k: nat)
    requires Coherent(Run(w, NewStore(baseline), cs).log) && Trend.Computed(Run(w, NewStore(baseline), cs).log).Success?
    requires var flow := Trend.Computed(Run(w, NewStore(baseline), cs).log).value.flow;
      k < |flow| && flow[k].cause == "db"
    ensures var evs := EventsOf(Visited(Run(w, NewStore(baseline), cs).log));
      var js := Records.Flowing(evs, |evs|);
      k < |js| && js[k] < |evs| && evs[js[k]].kind == Detected && exists i :: 0 <= i < |cs| && DatabaseTold(evs[js[k]], cs[i])
  {
    var log := Run(w, NewStore(baseline), cs).log;
    var evs := EventsOf(Visited(log));
    var js := Records.Flowing(evs, |evs|);
    Records.DocumentRecords(log);
    assert Records.FlowOf(Trend.Computed(log).value.flow[k], evs, js[k]);
    BlamedIsTold(w, baseline, cs, js[k]);
  }

  lemma {:induction false} BlamedIsTold(w: Codec, baseline: seq<string>, cs: seq<Command>, j: nat)
    requires Coherent(Run(w, NewStore(baseline), cs).log)
    requires j < |Visited(Run(w, NewStore(baseline), cs).log)|
    requires var ev := Visited(Run(w, NewStore(baseline), cs).log)[j].ev;
      ev.kind == Detected && ev.payload.DetectedData? && ev.payload.db != ""
    ensures exists i :: 0 <= i < |cs| && DatabaseTold(Visited(Run(w, NewStore(baseline), cs).log)[j].ev, cs[i])
  {
    var log := Run(w, NewStore(baseline), cs).log;
    VisitedOrders(log);
    var e := Visited(log)[j];
    assert e in log;
    LogReports(w, baseline, cs, e);
    var i :| 0 <= i < |cs| && FromScan(e.ev, cs[i]);
    DigestTells(e.ev, cs[i]);
  }
}
