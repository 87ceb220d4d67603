/**
 `ComputeMetrics` (metrics.go:90-276): the loop over shared live records, running
 counters and record lists, with the boundary snapshot taken on the way.
 */
module Metrics {
  import opened Wrappers
  import opened Events
  import opened Findings
  import opened LogOrder
  import opened Tally
  import opened Trend
  import opened Rebuild

  /** A *liveRec. */
  class LiveRef {
    var val: Live

    constructor (v: Live)
      ensures val == v
    {
      val := v;
    }
  }

  ghost predicate Apart(live: map<string, LiveRef>) {
    forall a, b :: a in live && b in live && a != b ==> live[a] != live[b]
  }

  ghost function Rows(live: map<string, LiveRef>): (rows: map<string, Live>)
    reads live.Values
    ensures rows.Keys == live.Keys
    ensures forall fp :: fp in live ==> rows[fp] == live[fp].val
  {
    map fp | fp in live :: live[fp].val
  }

  /** One record's flag turned, and the counters with it. */
  function Acting(m: Counts, fp: string, val: bool): Counts
    requires fp in m.live
  {
    var l := m.live[fp];
    m.(live := m.live[fp := l.(actionable := val)], open := Turned(m.open, l.sev, l.actionable, val))
  }

  class Meter {
    var live: map<string, LiveRef>
    var openBySev: map<string, int>
    var flow: seq<FlowRec>
    var resolve: seq<ResolveRec>
    var triage: seq<LagRec>
    var remediated: seq<RemediatedRec>
    var prevDB: string
    var curDB: string
    var lastBoundary: int
    var previous: Option<map<string, int>>

    ghost function Model(): Counts
      reads this, live.Values
    {
      Counts(Rows(live), openBySev, flow, resolve, triage, remediated, prevDB, curDB, lastBoundary)
    }

    constructor ()
      ensures Model() == NOTHING && live == map[] && previous == None
    {
      live, openBySev := map[], map[];
      flow, resolve, triage, remediated := [], [], [], [];
      prevDB, curDB, lastBoundary, previous := "", "", 0, None;
    }

    /** Once, and only when there is a boundary. */
    method Snapshot(hasPrev: bool)
      modifies this`previous
      ensures Model() == old(Model())
      ensures Pass(Model(), previous) == Snapped(old(Pass(Model(), previous)), hasPrev)
    {
      if previous.Some? || !hasPrev {
        return;
      }
      previous := Some(openBySev);
    }

    method CrossBoundary(ev: Event)
      modifies this`prevDB, this`curDB, this`lastBoundary
      ensures Model() == Shift(old(Model()), ev)
    {
      if (ev.kind == Surfaced || ev.kind == Remediated) && ev.ts != lastBoundary {
        lastBoundary := ev.ts;
        prevDB, curDB := curDB, "";
      }
    }

    method Shrink(sev: string)
      modifies this`openBySev
      ensures openBySev == Bump(old(openBySev), sev, -1)
    {
      openBySev := openBySev[sev := (if sev in openBySev then openBySev[sev] else 0) - 1];
      openBySev := openBySev[TOTAL := (if TOTAL in openBySev then openBySev[TOTAL] else 0) - 1];
    }

    method Grow(sev: string)
      modifies this`openBySev
      ensures openBySev == Bump(old(openBySev), sev, 1)
    {
      openBySev := openBySev[sev := (if sev in openBySev then openBySev[sev] else 0) + 1];
      openBySev := openBySev[TOTAL := (if TOTAL in openBySev then openBySev[TOTAL] else 0) + 1];
    }

    method Turn(sev: string, was: bool, val: bool)
      modifies this`openBySev
      ensures openBySev == Turned(old(openBySev), sev, was, val)
    {
      if val && !was {
        Grow(sev);
      } else if !val && was {
        Shrink(sev);
      }
    }

    /** Writes through one record's pointer. */
    method Overwrite(fp: string, v: Live)
      requires fp in live && Apart(live)
      modifies live[fp]
      ensures Rows(live) == old(Rows(live))[fp := v]
    {
      live[fp].val := v;
      assert Rows(live) == old(Rows(live))[fp := v];
    }

    method SetActionable(fp: string, val: bool)
      requires fp in live && Apart(live)
      modifies this`openBySev, live[fp]
      ensures Model() == Acting(old(Model()), fp, val)
    {
      var l := live[fp].val;
      Turn(l.sev, l.actionable, val);
      Overwrite(fp, l.(actionable := val));
    }

    /** A detection that rode a freshly swapped advisory database is caused by it. */
    method Attribute(db: string) returns (cause: string)
      modifies this`curDB
      ensures cause == CauseOf(old(Model()), db)
      ensures Model() == if db != "" then old(Model()).(curDB := db) else old(Model())
    {
      cause := if db != "" && prevDB != "" && db != prevDB then "db" else "code";
      if db != "" {
        curDB := db;
      }
    }

    method Sight(ev: Event)
      requires Apart(live) && ev.payload.DetectedData?
      modifies this, live.Values
      ensures Model() == Sighted(old(Model()), ev) && previous == old(previous)
      ensures Apart(live) && forall fp :: fp in live ==> live[fp] in old(live.Values) || fresh(live[fp])
    {
      var cause := Attribute(ev.payload.db);
      if ev.fp in live {
        Widen(ev);
      } else {
        Arrive(ev, cause);
      }
    }

    method Widen(ev: Event)
      requires Apart(live) && ev.payload.DetectedData? && ev.fp in live
      modifies live[ev.fp]
      ensures Model() == var m := old(Model()); m.(live := m.live[ev.fp := Tally.Widened(m.live[ev.fp], ev)])
    {
      var l := live[ev.fp].val;
      var locs := AppendUniqueLoc(l.locs, Location(ev.payload.path, ev.payload.line));
      Overwrite(ev.fp, l.(locs := locs));
    }

    method Enter(ev: Event)
      requires Apart(live) && ev.payload.DetectedData? && ev.fp !in live
      modifies this`live, this`openBySev
      ensures Rows(live) == old(Rows(live))[ev.fp := Tally.Newborn(ev)]
      ensures openBySev == Bump(old(openBySev), ev.payload.severity, 1)
      ensures Apart(live) && forall fp :: fp in live ==> live[fp] in old(live.Values) || fresh(live[fp])
    {
      var lr := new LiveRef(Tally.Newborn(ev));
      live := live[ev.fp := lr];
      Grow(ev.payload.severity);
      assert Rows(live) == old(Rows(live))[ev.fp := Tally.Newborn(ev)];
    }

    /** A new record, counted, with its place in the flow. */
    method Arrive(ev: Event, cause: string)
      requires Apart(live) && ev.payload.DetectedData? && ev.fp !in live
      modifies this`live, this`openBySev, this`flow
      ensures Model() == var m := old(Model());
        m.(live := m.live[ev.fp := Tally.Newborn(ev)], open := Bump(m.open, ev.payload.severity, 1),
           flow := m.flow + [FlowRec(ev.ts, "new", cause)])
      ensures Apart(live) && forall fp :: fp in live ==> live[fp] in old(live.Values) || fresh(live[fp])
    {
      Enter(ev);
      flow := flow + [FlowRec(ev.ts, "new", cause)];
    }

    method Forget(fp: string)
      requires fp in live && Apart(live)
      modifies this`live
      ensures Rows(live) == old(Rows(live)) - {fp}
      ensures Apart(live) && forall g :: g in live ==> live[g] in old(live.Values)
    {
      live := live - {fp};
      assert Rows(live) == old(Rows(live)) - {fp};
    }

    method Judge(ev: Event)
      requires Apart(live) && ev.fp in live && ev.payload.TriagedData?
      modifies this`triage, this`flow, this`openBySev, live[ev.fp]
      ensures Model() == Tally.Judged(old(Model()), ev)
    {
      var l, keep := live[ev.fp].val, ev.payload.verdict != "dismissed";
      triage := triage + [LagRec(ev.ts, Hours(l.first, ev.ts))];
      SetActionable(ev.fp, keep);
      if !keep {
        flow := flow + [FlowRec(ev.ts, "dismissed", "")];
      }
    }

    method Suppress(ev: Event)
      requires Apart(live) && ev.fp in live
      modifies this`live, this`openBySev, live[ev.fp]
      ensures Model() == Muted(old(Model()), ev)
      ensures Apart(live) && forall fp :: fp in live ==> live[fp] in old(live.Values)
    {
      SetActionable(ev.fp, false);
      Forget(ev.fp);
      assert Rows(live) == old(Rows(live)) - {ev.fp};
    }

    method Defer(ev: Event)
      requires Apart(live) && ev.fp in live
      modifies this`flow, this`openBySev, live[ev.fp]
      ensures Model() == PutOff(old(Model()), ev)
    {
      SetActionable(ev.fp, false);
      flow := flow + [FlowRec(ev.ts, "deferred", "")];
    }

    method Remediate(ev: Event)
      requires Apart(live) && ev.fp in live && ev.payload.ReasonedData?
      modifies this`flow, this`resolve, this`remediated, this`live, this`openBySev, live[ev.fp]
      ensures Model() == Fixed(old(Model()), ev)
      ensures Apart(live) && forall fp :: fp in live ==> live[fp] in old(live.Values)
    {
      var l := live[ev.fp].val;
      Suppress(ev);
      flow := flow + [FlowRec(ev.ts, "fixed", "")];
      resolve := resolve + [ResolveRec(ev.ts, ev.actor, Hours(l.first, ev.ts))];
      remediated := remediated + [RemediatedRec(ev.fp, l.rule, l.sev, l.scanner, l.locs, ev.payload.why, ev.actor,
                                                l.first, ev.ts)];
    }

    /** The switch over the kinds. */
    method Count(ev: Event) returns (error: Option<MetricsError>)
      requires Apart(live)
      modifies this, live.Values
      ensures Apart(live) && forall fp :: fp in live ==> live[fp] in old(live.Values) || fresh(live[fp])
      ensures previous == old(previous)
      ensures error.None? ==> Tally.Count(old(Model()), ev) == Success(Model())
      ensures error.Some? ==> Tally.Count(old(Model()), ev) == Failure(error.value)
    {
      CrossBoundary(ev);
      error := Apply(ev);
    }

    method Apply(ev: Event) returns (error: Option<MetricsError>)
      requires Apart(live)
      modifies this, live.Values
      ensures Apart(live) && forall fp :: fp in live ==> live[fp] in old(live.Values) || fresh(live[fp])
      ensures previous == old(previous)
      ensures error.None? ==> Settled(old(Model()), ev) == Success(Model())
      ensures error.Some? ==> Settled(old(Model()), ev) == Failure(error.value)
    {
      match ev.kind {
      case Detected =>
        if !ev.payload.DetectedData? { return Some(Mismatch(Detected)); }
        Sight(ev);
      case Triaged =>
        if ev.fp !in live { return None; }
        if !ev.payload.TriagedData? { return Some(Mismatch(Triaged)); }
        Judge(ev);
      case Suppressed =>
        if ev.fp !in live { return None; }
        Suppress(ev);
      case Deferred =>
        if ev.fp !in live { return None; }
        Defer(ev);
      case Remediated =>
        if ev.fp !in live { return None; }
        if !ev.payload.ReasonedData? { return Some(Mismatch(Remediated)); }
        Remediate(ev);
      case _ =>
      }
      return None;
    }
  }

  // ---------------------------------------------------------------------
  // The loops
  // ---------------------------------------------------------------------

  /** Scan ends, each instant once. */
  method CollectScanTimes(s: seq<Entry>) returns (times: seq<int>)
    ensures times == TimesUpTo(s, |s|)
  {
    times := [];
    var seen: set<int> := {};
    for i := 0 to |s|
      invariant times == TimesUpTo(s, i)
      invariant forall t :: t in seen <==> t in times
    {
      var ev := s[i].ev;
      if (ev.kind == Surfaced || ev.kind == Remediated) && ev.ts !in seen {
        seen := seen + {ev.ts};
        times := times + [ev.ts];
      }
    }
  }

  ghost predicate Metering(past: Option<int>, s: seq<Entry>, i: nat, m: Meter, dup: set<Bytes>)
    requires i <= |s|
    reads m, m.live.Values
  {
    && Apart(m.live)
    && dup == RawsBelow(s, i)
    && var evs := EventsOf(CollapsedUpTo(s, i));
       PassUpTo(past, evs, |evs|) == Success(Pass(m.Model(), m.previous))
  }

  ghost predicate Stopped(past: Option<int>, s: seq<Entry>, i: nat, error: MetricsError)
    requires i <= |s|
  {
    var evs := EventsOf(CollapsedUpTo(s, i));
    PassUpTo(past, evs, |evs|) == Failure(error)
  }

  lemma CollapsedStep(past: Option<int>, s: seq<Entry>, i: nat)
    requires i < |s|
    ensures var before, after := EventsOf(CollapsedUpTo(s, i)), EventsOf(CollapsedUpTo(s, i + 1));
      PassUpTo(past, after, |after|) ==
      if s[i].raw in RawsBelow(s, i) then PassUpTo(past, before, |before|)
      else match PassUpTo(past, before, |before|)
           case Failure(e) => Failure(e)
           case Success(p) => Onward(p, past, s[i].ev)
  {
    var c := CollapsedUpTo(s, i);
    assert EventsOf(c + [s[i]]) == EventsOf(c) + [s[i].ev];
    PassPrefix(past, EventsOf(c), EventsOf(c) + [s[i].ev], |c|);
  }

  lemma StopNext(past: Option<int>, s: seq<Entry>, i: nat, error: MetricsError)
    requires i < |s| && Stopped(past, s, i, error)
    ensures Stopped(past, s, i + 1, error)
  {
    CollapsedStep(past, s, i);
  }

  lemma {:induction false} StopSticks(past: Option<int>, s: seq<Entry>, i: nat, j: nat, error: MetricsError)
    requires i <= j <= |s| && Stopped(past, s, i, error)
    ensures Stopped(past, s, j, error)
  {
    if i < j {
      StopSticks(past, s, i, j - 1, error);
      StopNext(past, s, j - 1, error);
    }
  }

  method MeterLine(past: Option<int>, s: seq<Entry>, i: nat, m: Meter, dup: set<Bytes>)
    returns (dup': set<Bytes>, error: Option<MetricsError>)
    requires i < |s| && Metering(past, s, i, m, dup)
    modifies m, m.live.Values
    ensures forall fp :: fp in m.live ==> m.live[fp] in old(m.live.Values) || fresh(m.live[fp])
    ensures error.None? ==> Metering(past, s, i + 1, m, dup')
    ensures error.Some? ==> Stopped(past, s, i + 1, error.value)
  {
    CollapsedStep(past, s, i);
    dup' := dup + {s[i].raw};
    if s[i].raw in dup {
      error := None;
    } else {
      m.Snapshot(past.Some? && s[i].ev.ts > past.value);
      error := m.Count(s[i].ev);
    }
  }

  method MeterAll(past: Option<int>, s: seq<Entry>) returns (m: Meter, error: Option<MetricsError>)
    ensures fresh(m) && fresh(m.live.Values)
    ensures error.None? ==> exists dup :: Metering(past, s, |s|, m, dup)
    ensures error.Some? ==> Stopped(past, s, |s|, error.value)
  {
    m := new Meter();
    var dup: set<Bytes> := {};
    var i := 0;
    error := None;
    while i < |s| && error.None?
      invariant 0 <= i <= |s|
      invariant fresh(m) && fresh(m.live.Values)
      invariant error.None? ==> Metering(past, s, i, m, dup)
      invariant error.Some? ==> Stopped(past, s, |s|, error.value)
      decreases |s| - i, error.None?
    {
      dup, error := MeterLine(past, s, i, m, dup);
      i := i + 1;
      if error.Some? {
        StopSticks(past, s, i, |s|, error.value);
      }
    }
  }

  lemma {:induction false} VisitIs(log: seq<Entry>)
    ensures CollapsedUpTo(Sorted(log), |Sorted(log)|) == Visited(log)
  {
    var s := Sorted(log);
    CollapsedUpToIs(s, |s|);
    assert s[..|s|] == s;
  }

  lemma {:induction false} StoppedFails(log: seq<Entry>, error: MetricsError)
    requires Coherent(log) && Stopped(Boundary(ScanTimes(log)), Sorted(log), |Sorted(log)|, error)
    ensures Computed(log) == Failure(error)
  {
    VisitIs(log);
    OnePassComputes(log);
  }

  /** The last chance for the snapshot, and the document. */
  method Conclude(log: seq<Entry>, times: seq<int>, past: Option<int>, m: Meter, ghost dup: set<Bytes>) returns (doc: Doc)
    requires Coherent(log) && times == ScanTimes(log) && past == Boundary(times)
    requires Metering(past, Sorted(log), |Sorted(log)|, m, dup)
    modifies m`previous
    ensures Computed(log) == Success(doc)
  {
    VisitIs(log);
    OnePassComputes(log);
    m.Snapshot(past.Some?);
    doc := Doc(m.flow, m.resolve, m.triage, m.remediated, times, m.openBySev, m.previous);
  }

  /** One pass: the snapshot equals a second computation over the earlier lines. */
  method ComputeMetrics(log: seq<Entry>) returns (r: Result<Doc, MetricsError>)
    requires Coherent(log)
    ensures r == Computed(log)
  {
    var s := Sorted(log);
    var times := CollectScanTimes(s);
    var past := if |times| >= 2 then Some(times[|times| - 2]) else None;
    var m, error := MeterAll(past, s);
    if error.Some? {
      StoppedFails(log, error.value);
      return Failure(error.value);
    }
    ghost var dup :| Metering(past, s, |s|, m, dup);
    var doc := Conclude(log, times, past, m, dup);
    return Success(doc);
  }
}
