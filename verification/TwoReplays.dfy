/**
 Where the two replays agree. The state replay keeps a suppressed finding, the
 metrics replay forgets it (rebuild.go:105-108, metrics.go:233-239), so they part
 exactly when a suppressed finding is detected or confirmed again before it is
 remediated.
 */
module TwoReplays {
  import opened Wrappers
  import opened Events
  import opened Findings
  import opened LogOrder
  import opened Replay
  import Tally
  import Trend

  // ---------------------------------------------------------------------
  // One fingerprint
  // ---------------------------------------------------------------------

  /** Detected, and not remediated since. */
  predicate Seen(fp: string, evs: seq<Event>, i: nat)
    requires i <= |evs|
  {
    i > 0 &&
    if evs[i - 1].fp == fp && evs[i - 1].kind == Detected && evs[i - 1].payload.DetectedData? then true
    else if evs[i - 1].fp == fp && evs[i - 1].kind == Remediated then false
    else Seen(fp, evs, i - 1)
  }

  /** Suppressed while seen, and not remediated since. */
  predicate Hushed(fp: string, evs: seq<Event>, i: nat)
    requires i <= |evs|
  {
    i > 0 &&
    if evs[i - 1].fp == fp && evs[i - 1].kind == Suppressed then Seen(fp, evs, i - 1)
    else if evs[i - 1].fp == fp && evs[i - 1].kind == Remediated then false
    else Hushed(fp, evs, i - 1)
  }

  /** A hushed finding is detected again, or confirmed. */
  predicate Revived(fp: string, evs: seq<Event>, i: nat)
    requires i < |evs|
  {
    var ev := evs[i];
    && ev.fp == fp && Hushed(fp, evs, i)
    && (|| (ev.kind == Detected && ev.payload.DetectedData?)
        || (ev.kind == Triaged && ev.payload.TriagedData? && ev.payload.verdict != "dismissed"))
  }

  function CourseUpTo(fp: string, evs: seq<Event>, i: nat): Option<Tally.Live>
    requires i <= |evs|
  {
    if i == 0 then None else Tally.Course(fp, CourseUpTo(fp, evs, i - 1), evs[i - 1])
  }

  predicate OpenRow(r: Option<Row>) {
    r.Some? && (r.value.status == Open || r.value.status == Confirmed)
  }

  predicate Twin(r: Row, l: Tally.Live) {
    && l.sev == r.severity && l.rule == r.ruleId && l.scanner == r.scanner
    && Second(l.first) == r.detected && Places(l.locs) == r.places
    && l.actionable == (r.status == Open || r.status == Confirmed)
  }

  /** How the two replays see one fingerprint. */
  predicate Parallel(r: Option<Row>, l: Option<Tally.Live>, seen: bool, hushed: bool) {
    && seen == r.Some?
    && if hushed then r.Some? && !OpenRow(r) && l.None?
       else if r.None? then l.None?
       else l.Some? && Twin(r.value, l.value)
  }

  lemma StaysParallel(fp: string, evs: seq<Event>, i: nat, r: Option<Row>, l: Option<Tally.Live>)
    requires i < |evs| && !Revived(fp, evs, i)
    requires Parallel(r, l, Seen(fp, evs, i), Hushed(fp, evs, i))
    ensures Parallel(Life(fp, r, evs[i]), Tally.Course(fp, l, evs[i]), Seen(fp, evs, i + 1), Hushed(fp, evs, i + 1))
  {
    var ev := evs[i];
    if ev.kind == Detected && ev.payload.DetectedData? && ev.fp == fp {
      var loc := Location(ev.payload.path, ev.payload.line);
      if r.Some? {
        AddLocPlaces(l.value.locs, loc);
      } else {
        assert Places([loc]) == {loc};
      }
    }
  }

  lemma {:induction false} ParallelUpTo(fp: string, evs: seq<Event>, i: nat)
    requires i <= |evs| && forall j :: 0 <= j < i ==> !Revived(fp, evs, j)
    ensures Parallel(LivesUpTo(fp, None, evs, i), CourseUpTo(fp, evs, i), Seen(fp, evs, i), Hushed(fp, evs, i))
  {
    if i > 0 {
      ParallelUpTo(fp, evs, i - 1);
      StaysParallel(fp, evs, i - 1, LivesUpTo(fp, None, evs, i - 1), CourseUpTo(fp, evs, i - 1));
    }
  }

  /** Both replays call the fingerprint open after i events, or neither does. */
  predicate SameVerdict(fp: string, evs: seq<Event>, i: nat)
    requires i <= |evs|
  {
    OpenRow(LivesUpTo(fp, None, evs, i)) <==> Tally.Actionable(CourseUpTo(fp, evs, i))
  }

  ghost predicate NeverRevived(fp: string, evs: seq<Event>) {
    forall j :: 0 <= j < |evs| ==> !Revived(fp, evs, j)
  }

  /** The first revival parts the replays at once. */
  lemma {:induction false} RevivalParts(fp: string, evs: seq<Event>, j: nat)
    requires j < |evs| && Revived(fp, evs, j)
    ensures exists i: nat :: i <= |evs| && !SameVerdict(fp, evs, i)
  {
    if k: nat :| k < j && Revived(fp, evs, k) {
      RevivalParts(fp, evs, k);
    } else {
      ParallelUpTo(fp, evs, j);
      assert !SameVerdict(fp, evs, j + 1);
    }
  }

  /** The replays agree on a fingerprint throughout exactly when it is never revived. */
  lemma SameThroughoutIff(fp: string, evs: seq<Event>)
    ensures (forall i: nat :: i <= |evs| ==> SameVerdict(fp, evs, i)) <==> NeverRevived(fp, evs)
  {
    if NeverRevived(fp, evs) {
      forall i: nat | i <= |evs| ensures SameVerdict(fp, evs, i) {
        ParallelUpTo(fp, evs, i);
      }
    } else {
      var j :| 0 <= j < |evs| && Revived(fp, evs, j);
      RevivalParts(fp, evs, j);
    }
  }

  // ---------------------------------------------------------------------
  // At the end of a log
  // ---------------------------------------------------------------------

  /** The metrics hold a record: detected, and neither suppressed nor remediated since. */
  predicate Held(fp: string, evs: seq<Event>, i: nat)
    requires i <= |evs|
  {
    i > 0 &&
    if evs[i - 1].fp == fp && evs[i - 1].kind == Detected && evs[i - 1].payload.DetectedData? then true
    else if evs[i - 1].fp == fp && (evs[i - 1].kind == Remediated || evs[i - 1].kind == Suppressed) then false
    else Held(fp, evs, i - 1)
  }

  /** Only one of the replays calls it open: a revival parts them, a closing event or a second revival joins them. */
  predicate Parted(fp: string, evs: seq<Event>, i: nat)
    requires i <= |evs|
  {
    i > 0 &&
    var ev, before, hushed := evs[i - 1], Parted(fp, evs, i - 1), Seen(fp, evs, i - 1) && !Held(fp, evs, i - 1);
    if ev.fp != fp then before
    else
      match ev.kind
      case Remediated => false
      case Suppressed => false
      case Deferred => false
      case Triaged => if !ev.payload.TriagedData? then before else ev.payload.verdict != "dismissed" && hushed
      case Detected => if !ev.payload.DetectedData? then before else if hushed then !before else before
      case _ => before
  }

  lemma {:induction false} Tracked(fp: string, evs: seq<Event>, i: nat)
    requires i <= |evs|
    ensures Seen(fp, evs, i) == LivesUpTo(fp, None, evs, i).Some?
    ensures Held(fp, evs, i) == CourseUpTo(fp, evs, i).Some?
    ensures Held(fp, evs, i) ==> Seen(fp, evs, i)
    ensures Parted(fp, evs, i) == !SameVerdict(fp, evs, i)
  {
    if i > 0 {
      Tracked(fp, evs, i - 1);
    }
  }

  /** After any events at all the replays agree on a fingerprint exactly when it is not parted. */
  lemma {:induction false} SameVerdictIff(fp: string, evs: seq<Event>)
    ensures SameVerdict(fp, evs, |evs|) <==> !Parted(fp, evs, |evs|)
  {
    Tracked(fp, evs, |evs|);
  }

  // ---------------------------------------------------------------------
  // The counts
  // ---------------------------------------------------------------------

  /** Open and confirmed rows of a severity, or of every severity. */
  function OpenCount(fs: seq<Finding>, sev: Option<string>, i: nat): nat
    requires i <= |fs|
  {
    if i == 0 then 0
    else OpenCount(fs, sev, i - 1) + if Wanted(fs[i - 1], sev) then 1 else 0
  }

  predicate Wanted(f: Finding, sev: Option<string>) {
    Actionable(f) && (sev.Some? ==> f.severity == sev.value)
  }

  function WantedFps(fs: seq<Finding>, sev: Option<string>, i: nat): set<string>
    requires i <= |fs|
  {
    set k | 0 <= k < i && Wanted(fs[k], sev) :: fs[k].fp
  }

  lemma WantedOne(fs: seq<Finding>, sev: Option<string>, i: nat)
    requires 0 < i <= |fs| && Unique(fs)
    ensures |WantedFps(fs, sev, i)| == |WantedFps(fs, sev, i - 1)| + if Wanted(fs[i - 1], sev) then 1 else 0
  {
    var before, last := WantedFps(fs, sev, i - 1), fs[i - 1];
    assert last.fp !in before;
    if Wanted(last, sev) {
      assert WantedFps(fs, sev, i) == before + {last.fp};
    } else {
      assert WantedFps(fs, sev, i) == before;
    }
  }

  lemma {:induction false} CountIsSize(fs: seq<Finding>, sev: Option<string>, i: nat)
    requires i <= |fs| && Unique(fs)
    ensures OpenCount(fs, sev, i) == |WantedFps(fs, sev, i)|
  {
    if i > 0 {
      CountIsSize(fs, sev, i - 1);
      WantedOne(fs, sev, i);
    }
  }

  lemma WantedLooks(fs: seq<Finding>, sev: Option<string>, fp: string)
    requires Unique(fs)
    ensures fp in WantedFps(fs, sev, |fs|) <==>
      OpenRow(Look(fs, fp)) && (sev.Some? ==> Look(fs, fp).value.severity == sev.value)
  {
    var k := Latest(fs, fp);
    if fp in WantedFps(fs, sev, |fs|) {
      var j :| 0 <= j < |fs| && Wanted(fs[j], sev) && fs[j].fp == fp;
      LatestIs(fs, j);
    }
  }

  lemma {:induction false} CoursesAre(evs: seq<Event>, i: nat, fp: string)
    requires i <= |evs| && Tally.CountUpTo(evs, i).Success?
    ensures Tally.Find(Tally.CountUpTo(evs, i).value.live, fp) == CourseUpTo(fp, evs, i)
  {
    if i > 0 {
      CoursesAre(evs, i - 1, fp);
      Tally.CountActsPerFingerprint(Tally.CountUpTo(evs, i - 1).value, evs[i - 1], fp);
    }
  }

  /** What stops a state replay stops it at a payload or an unknown item. */
  lemma {:induction false} AcceptedFits(idOf: ItemId, st: State, evs: seq<Event>)
    requires FoldFrom(idOf, st, evs).Success?
    ensures forall i :: 0 <= i < |evs| ==> PayloadFits(evs[i])
    decreases |evs|
  {
    if evs != [] {
      AcceptedFits(idOf, st, evs[..|evs| - 1]);
      assert forall i :: 0 <= i < |evs| - 1 ==> evs[..|evs| - 1][i] == evs[i];
    }
  }

  ghost predicate ReasonsDecode(evs: seq<Event>) {
    forall i :: 0 <= i < |evs| && evs[i].kind == Remediated ==> evs[i].payload.ReasonedData?
  }

  lemma {:induction false} FittingCounts(evs: seq<Event>, i: nat)
    requires i <= |evs| && ReasonsDecode(evs) && forall j :: 0 <= j < |evs| ==> PayloadFits(evs[j])
    ensures Tally.CountUpTo(evs, i).Success?
  {
    if i > 0 {
      FittingCounts(evs, i - 1);
    }
  }

  /** The two replays of a log that both accept: equal records, fingerprint by fingerprint. */
  lemma SetsAgree(fs: seq<Finding>, evs: seq<Event>, sev: Option<string>)
    requires Unique(fs) && forall fp :: Look(fs, fp) == Lives(fp, None, evs)
    requires Tally.Tallied(evs).Success? && forall fp :: NeverRevived(fp, evs)
    ensures var live := Tally.Tallied(evs).value.live;
      WantedFps(fs, sev, |fs|) == if sev.Some? then Tally.OpenOf(live, sev.value) else Tally.OpenAll(live)
  {
    var live := Tally.Tallied(evs).value.live;
    forall fp
      ensures fp in WantedFps(fs, sev, |fs|) <==>
        fp in if sev.Some? then Tally.OpenOf(live, sev.value) else Tally.OpenAll(live)
    {
      WantedLooks(fs, sev, fp);
      CoursesAre(evs, |evs|, fp);
      assert NeverRevived(fp, evs);
      assert Look(fs, fp) == Lives(fp, None, evs);
      ParallelUpTo(fp, evs, |evs|);
      assert Tally.Find(live, fp) == CourseUpTo(fp, evs, |evs|);
    }
  }

  ghost predicate NoneParted(evs: seq<Event>) {
    forall fp :: !Parted(fp, evs, |evs|)
  }

  lemma {:induction false} OpenInBothIff(fs: seq<Finding>, evs: seq<Event>, fp: string)
    requires Unique(fs) && Look(fs, fp) == Lives(fp, None, evs) && Tally.Tallied(evs).Success?
    ensures (fp in WantedFps(fs, None, |fs|) <==> fp in Tally.OpenAll(Tally.Tallied(evs).value.live)) <==>
            !Parted(fp, evs, |evs|)
  {
    WantedLooks(fs, None, fp);
    CoursesAre(evs, |evs|, fp);
    SameVerdictIff(fp, evs);
  }

  /** A rebuild and the metrics call the same findings open exactly when none is parted at the end of the log. */
  lemma OpenSetsAgreeIff(idOf: ItemId, log: seq<Entry>)
    requires Replayed(idOf, log).Success? && Tally.Tallied(EventsOf(Visited(log))).Success?
    ensures var evs, fs := EventsOf(Visited(log)), Replayed(idOf, log).value.findings;
      WantedFps(fs, None, |fs|) == Tally.OpenAll(Tally.Tallied(evs).value.live) <==> NoneParted(evs)
  {
    var evs, fs := EventsOf(Visited(log)), Replayed(idOf, log).value.findings;
    FoldActsPerFingerprint(idOf, EMPTY, evs);
    var a, b := WantedFps(fs, None, |fs|), Tally.OpenAll(Tally.Tallied(evs).value.live);
    forall fp ensures (fp in a <==> fp in b) <==> !Parted(fp, evs, |evs|) {
      assert Look(fs, fp) == Lives(fp, None, evs);
      OpenInBothIff(fs, evs, fp);
    }
    if a == b {
      forall fp ensures !Parted(fp, evs, |evs|) {
        assert fp in a <==> fp in b;
      }
    }
    if NoneParted(evs) {
      forall fp ensures fp in a <==> fp in b {
        assert !Parted(fp, evs, |evs|);
      }
      assert a == b;
    }
  }

  // ---------------------------------------------------------------------
  // Severity by severity
  // ---------------------------------------------------------------------

  /** The severity of the first detection since the finding was last forgotten; the metrics forget a suppressed one too. */
  function BornAs(fp: string, evs: seq<Event>, i: nat, hushing: bool): Option<string>
    requires i <= |evs|
  {
    if i == 0 then None
    else
      var before, ev := BornAs(fp, evs, i - 1, hushing), evs[i - 1];
      if ev.fp != fp then before
      else if ev.kind == Detected && ev.payload.DetectedData? then
        if before.None? then Some(ev.payload.severity) else before
      else if ev.kind == Remediated || (ev.kind == Suppressed && hushing) then None
      else before
  }

  lemma {:induction false} SeveritiesTracked(fp: string, evs: seq<Event>, i: nat)
    requires i <= |evs|
    ensures var r := LivesUpTo(fp, None, evs, i); BornAs(fp, evs, i, false) == if r.None? then None else Some(r.value.severity)
    ensures var l := CourseUpTo(fp, evs, i); BornAs(fp, evs, i, true) == if l.None? then None else Some(l.value.sev)
  {
    if i > 0 {
      SeveritiesTracked(fp, evs, i - 1);
    }
  }

  /** Both replays call it open under one severity, or neither calls it open. */
  ghost predicate SameStanding(fp: string, evs: seq<Event>) {
    && !Parted(fp, evs, |evs|)
    && (OpenRow(Lives(fp, None, evs)) ==> BornAs(fp, evs, |evs|, false) == BornAs(fp, evs, |evs|, true))
  }

  lemma StandingIff(fs: seq<Finding>, evs: seq<Event>, fp: string)
    requires Unique(fs) && Look(fs, fp) == Lives(fp, None, evs) && Tally.Tallied(evs).Success?
    ensures var live := Tally.Tallied(evs).value.live;
      SameStanding(fp, evs) <==>
      forall sev :: fp in WantedFps(fs, Some(sev), |fs|) <==> fp in Tally.OpenOf(live, sev)
  {
    var live, r, l := Tally.Tallied(evs).value.live, Lives(fp, None, evs), CourseUpTo(fp, evs, |evs|);
    CoursesAre(evs, |evs|, fp);
    SameVerdictIff(fp, evs);
    SeveritiesTracked(fp, evs, |evs|);
    forall sev ensures fp in WantedFps(fs, Some(sev), |fs|) <==> OpenRow(r) && r.value.severity == sev {
      WantedLooks(fs, Some(sev), fp);
    }
    assert forall sev :: fp in Tally.OpenOf(live, sev) <==> Tally.Actionable(l) && l.value.sev == sev;
    if OpenRow(r) {
      assert fp in WantedFps(fs, Some(r.value.severity), |fs|);
    }
    if Tally.Actionable(l) {
      assert fp in Tally.OpenOf(live, l.value.sev);
    }
  }

  /**
   A rebuild and the metrics hold the same open findings of every severity exactly when
   none is parted, and each open one was first detected with one severity in both.
   */
  lemma OpenSeveritiesAgreeIff(idOf: ItemId, log: seq<Entry>)
    requires Replayed(idOf, log).Success? && Tally.Tallied(EventsOf(Visited(log))).Success?
    ensures var evs, fs := EventsOf(Visited(log)), Replayed(idOf, log).value.findings;
      (forall sev :: WantedFps(fs, Some(sev), |fs|) == Tally.OpenOf(Tally.Tallied(evs).value.live, sev)) <==>
      (forall fp :: SameStanding(fp, evs))
  {
    var evs, fs := EventsOf(Visited(log)), Replayed(idOf, log).value.findings;
    var live := Tally.Tallied(evs).value.live;
    FoldActsPerFingerprint(idOf, EMPTY, evs);
    forall fp ensures SameStanding(fp, evs) <==>
      forall sev :: fp in WantedFps(fs, Some(sev), |fs|) <==> fp in Tally.OpenOf(live, sev)
    {
      assert Look(fs, fp) == Lives(fp, None, evs);
      StandingIff(fs, evs, fp);
    }
    if forall fp :: SameStanding(fp, evs) {
      forall sev ensures WantedFps(fs, Some(sev), |fs|) == Tally.OpenOf(live, sev) {
        forall fp ensures fp in WantedFps(fs, Some(sev), |fs|) <==> fp in Tally.OpenOf(live, sev) {
          assert SameStanding(fp, evs);
        }
      }
    }
  }

  /** The rows a counter stands for: those of its severity, and all of them for the total. */
  function Standing(fs: seq<Finding>, key: string): int {
    OpenCount(fs, Some(key), |fs|) + if key == Tally.TOTAL then OpenCount(fs, None, |fs|) else 0
  }

  /**
   On a log that a rebuild accepts, whose reasons decode and in which no suppressed
   finding is revived, the metrics are computed and every counter is the number of
   open or confirmed findings a rebuild restores.
   */
  lemma ReplaysAgree(idOf: ItemId, log: seq<Entry>)
    requires Coherent(log) && Replayed(idOf, log).Success?
    requires ReasonsDecode(EventsOf(Visited(log)))
    requires forall fp :: NeverRevived(fp, EventsOf(Visited(log)))
    ensures Trend.Computed(log).Success?
    ensures forall key :: Tally.Get(Trend.Computed(log).value.current, key) ==
                          Standing(Replayed(idOf, log).value.findings, key)
  {
    var evs, fs := EventsOf(Visited(log)), Replayed(idOf, log).value.findings;
    AcceptedFits(idOf, EMPTY, evs);
    FittingCounts(evs, |evs|);
    FoldActsPerFingerprint(idOf, EMPTY, evs);
    assert forall fp :: Look(EMPTY.findings, fp) == None;
    Tally.CountersAlwaysExact(evs, |evs|);
    var c := Tally.Tallied(evs).value;
    forall key ensures Tally.Get(c.open, key) == Standing(fs, key) {
      SetsAgree(fs, evs, Some(key));
      SetsAgree(fs, evs, None);
      CountIsSize(fs, Some(key), |fs|);
      CountIsSize(fs, None, |fs|);
      assert Tally.Get(c.open, key) == Tally.Actual(c.live, key);
    }
  }

  /** Detected, suppressed, detected again: the metrics count a finding the state calls suppressed. */
  lemma {:induction false} RevivedIsCounted(fp: string, d: Payload, why: string)
    requires d.DetectedData?
    ensures var seen := Event(0, Detected, fp, "agent", "build", "engine", d);
      var evs := [seen, Event(1, Suppressed, fp, "agent", "build", "engine", ReasonedData(why)), seen.(ts := 2)];
      && Revived(fp, evs, 2)
      && !OpenRow(LivesUpTo(fp, None, evs, 3)) && Tally.Actionable(CourseUpTo(fp, evs, 3))
  {
    var seen := Event(0, Detected, fp, "agent", "build", "engine", d);
    var hush, again := Event(1, Suppressed, fp, "agent", "build", "engine", ReasonedData(why)), seen.(ts := 2);
    var evs := [seen, hush, again];
    assert evs[0] == seen && evs[1] == hush && evs[2] == again;
    OneMoreEvent(fp, evs, 0);
    OneMoreEvent(fp, evs, 1);
    OneMoreEvent(fp, evs, 2);
    assert LivesUpTo(fp, None, evs, 1) == Some(Birth(seen));
    assert CourseUpTo(fp, evs, 1) == Some(Tally.Newborn(seen));
    assert LivesUpTo(fp, None, evs, 2).value.status == Silenced;
    assert CourseUpTo(fp, evs, 2) == None;
    assert Seen(fp, evs, 1);
    assert Hushed(fp, evs, 2);
  }

  lemma OneMoreEvent(fp: string, evs: seq<Event>, i: nat)
    requires i < |evs|
    ensures LivesUpTo(fp, None, evs, i + 1) == Life(fp, LivesUpTo(fp, None, evs, i), evs[i])
    ensures CourseUpTo(fp, evs, i + 1) == Tally.Course(fp, CourseUpTo(fp, evs, i), evs[i])
  {
  }

  /**
   Detected, suppressed, detected again with another severity, confirmed: both call it
   open, the state under its first severity and the metrics under its second.
   */
  lemma {:induction false} SeveritiesPart(fp: string, d: Payload, other: string, why: string, verdict: Payload)
    requires d.DetectedData? && verdict.TriagedData? && verdict.verdict == "confirmed"
    ensures var seen := Event(0, Detected, fp, "agent", "build", "engine", d);
      var again := Event(2, Detected, fp, "agent", "build", "engine", d.(severity := other));
      var evs := [seen, Event(1, Suppressed, fp, "agent", "build", "engine", ReasonedData(why)), again,
                  Event(3, Triaged, fp, "operator", "build", "engine", verdict)];
      var r, l := LivesUpTo(fp, None, evs, 4), CourseUpTo(fp, evs, 4);
      OpenRow(r) && r.value.severity == d.severity && Tally.Actionable(l) && l.value.sev == other
  {
    var seen := Event(0, Detected, fp, "agent", "build", "engine", d);
    var hush := Event(1, Suppressed, fp, "agent", "build", "engine", ReasonedData(why));
    var again := Event(2, Detected, fp, "agent", "build", "engine", d.(severity := other));
    var judged := Event(3, Triaged, fp, "operator", "build", "engine", verdict);
    var evs := [seen, hush, again, judged];
    assert evs[0] == seen && evs[1] == hush && evs[2] == again && evs[3] == judged;
    assert "confirmed"[0] != "dismissed"[0];
    OneMoreEvent(fp, evs, 0);
    OneMoreEvent(fp, evs, 1);
    OneMoreEvent(fp, evs, 2);
    OneMoreEvent(fp, evs, 3);
    assert LivesUpTo(fp, None, evs, 1) == Some(Birth(seen));
    assert CourseUpTo(fp, evs, 1) == Some(Tally.Newborn(seen));
    assert CourseUpTo(fp, evs, 2) == None;
    assert CourseUpTo(fp, evs, 3) == Some(Tally.Newborn(again));
    assert LivesUpTo(fp, None, evs, 3).value.severity == d.severity;
  }
}
