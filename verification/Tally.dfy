/**
 The second replay (internal/store/metrics.go) as a function on the events in
 visiting order: live records, running counters, flow and lag records, and the
 snapshot taken on the way past the second-to-last scan.
 */
module Tally {
  import opened Wrappers
  import opened Events
  import opened Findings

  datatype Live = Live(first: int, sev: string, rule: string, scanner: string, locs: seq<Location>, actionable: bool)

  datatype FlowRec = FlowRec(ts: int, kind: string, cause: string)

  datatype ResolveRec = ResolveRec(ts: int, actor: string, hours: real)

  datatype LagRec = LagRec(ts: int, hours: real)

  datatype RemediatedRec = RemediatedRec(fp: string, rule: string, severity: string, scanner: string,
                                         locs: seq<Location>, reason: string, actor: string,
                                         detectedAt: int, remediatedAt: int)

  datatype Counts = Counts(
    live: map<string, Live>, open: map<string, int>, flow: seq<FlowRec>, resolve: seq<ResolveRec>,
    triage: seq<LagRec>, remediated: seq<RemediatedRec>, prevDB: string, curDB: string, boundary: int)

  /** The kind whose payload did not decode. */
  datatype MetricsError = Mismatch(kind: Kind)

  const NOTHING := Counts(map[], map[], [], [], [], [], "", "", 0)

  const TOTAL := "total"

  function Hours(from: int, to: int): real {
    (to - from) as real / 3600000000000.0
  }

  // ---------------------------------------------------------------------
  // Counters
  // ---------------------------------------------------------------------

  function Get(open: map<string, int>, key: string): int {
    if key in open then open[key] else 0
  }

  function Add(open: map<string, int>, key: string, d: int): map<string, int> {
    open[key := Get(open, key) + d]
  }

  function Bump(open: map<string, int>, sev: string, d: int): map<string, int> {
    Add(Add(open, sev, d), TOTAL, d)
  }

  function Weight(b: bool): int {
    if b then 1 else 0
  }

  /** The counters after a record's actionable flag went from `was` to `is`. */
  function Turned(open: map<string, int>, sev: string, was: bool, becomes: bool): map<string, int> {
    if was == becomes then open else Bump(open, sev, Weight(becomes) - Weight(was))
  }

  // ---------------------------------------------------------------------
  // One event
  // ---------------------------------------------------------------------

  predicate ScanEnd(ev: Event) {
    ev.kind == Surfaced || ev.kind == Remediated
  }

  function Shift(c: Counts, ev: Event): Counts {
    if ScanEnd(ev) && ev.ts != c.boundary then c.(boundary := ev.ts, prevDB := c.curDB, curDB := "") else c
  }

  function CauseOf(c: Counts, db: string): string {
    if db != "" && c.prevDB != "" && db != c.prevDB then "db" else "code"
  }

  function Newborn(ev: Event): Live
    requires ev.payload.DetectedData?
  {
    var d := ev.payload;
    Live(ev.ts, d.severity, d.rule, d.scanner, [Location(d.path, d.line)], true)
  }

  function Widened(l: Live, ev: Event): Live
    requires ev.payload.DetectedData?
  {
    l.(locs := AddLoc(l.locs, Location(ev.payload.path, ev.payload.line)))
  }

  function Sighted(c: Counts, ev: Event): Counts
    requires ev.payload.DetectedData?
  {
    var d := ev.payload;
    var s := if d.db != "" then c.(curDB := d.db) else c;
    if ev.fp in c.live then s.(live := c.live[ev.fp := Widened(c.live[ev.fp], ev)])
    else
      s.(live := c.live[ev.fp := Newborn(ev)], open := Bump(c.open, d.severity, 1),
         flow := c.flow + [FlowRec(ev.ts, "new", CauseOf(c, d.db))])
  }

  function Judged(c: Counts, ev: Event): Counts
    requires ev.fp in c.live && ev.payload.TriagedData?
  {
    var l, keep := c.live[ev.fp], ev.payload.verdict != "dismissed";
    c.(live := c.live[ev.fp := l.(actionable := keep)], open := Turned(c.open, l.sev, l.actionable, keep),
       triage := c.triage + [LagRec(ev.ts, Hours(l.first, ev.ts))],
       flow := if keep then c.flow else c.flow + [FlowRec(ev.ts, "dismissed", "")])
  }

  function Muted(c: Counts, ev: Event): Counts
    requires ev.fp in c.live
  {
    var l := c.live[ev.fp];
    c.(live := c.live - {ev.fp}, open := Turned(c.open, l.sev, l.actionable, false))
  }

  function PutOff(c: Counts, ev: Event): Counts
    requires ev.fp in c.live
  {
    var l := c.live[ev.fp];
    c.(live := c.live[ev.fp := l.(actionable := false)], open := Turned(c.open, l.sev, l.actionable, false),
       flow := c.flow + [FlowRec(ev.ts, "deferred", "")])
  }

  function Fixed(c: Counts, ev: Event): Counts
    requires ev.fp in c.live && ev.payload.ReasonedData?
  {
    var l := c.live[ev.fp];
    c.(live := c.live - {ev.fp}, open := Turned(c.open, l.sev, l.actionable, false),
       flow := c.flow + [FlowRec(ev.ts, "fixed", "")],
       resolve := c.resolve + [ResolveRec(ev.ts, ev.actor, Hours(l.first, ev.ts))],
       remediated := c.remediated + [RemediatedRec(ev.fp, l.rule, l.sev, l.scanner, l.locs, ev.payload.why, ev.actor,
                                                   l.first, ev.ts)])
  }

  /** A payload is only looked at when the event would change something. */
  predicate Refused(c: Counts, ev: Event) {
    match ev.kind
    case Detected => !ev.payload.DetectedData?
    case Triaged => ev.fp in c.live && !ev.payload.TriagedData?
    case Remediated => ev.fp in c.live && !ev.payload.ReasonedData?
    case _ => false
  }

  function Settled(s: Counts, ev: Event): Result<Counts, MetricsError> {
    if Refused(s, ev) then Failure(Mismatch(ev.kind))
    else
      match ev.kind
      case Detected => Success(Sighted(s, ev))
      case Triaged => Success(if ev.fp in s.live then Judged(s, ev) else s)
      case Suppressed => Success(if ev.fp in s.live then Muted(s, ev) else s)
      case Deferred => Success(if ev.fp in s.live then PutOff(s, ev) else s)
      case Remediated => Success(if ev.fp in s.live then Fixed(s, ev) else s)
      case _ => Success(s)
  }

  function Count(c: Counts, ev: Event): Result<Counts, MetricsError> {
    Settled(Shift(c, ev), ev)
  }

  function CountUpTo(evs: seq<Event>, i: nat): Result<Counts, MetricsError>
    requires i <= |evs|
  {
    if i == 0 then Success(NOTHING)
    else
      match CountUpTo(evs, i - 1)
      case Failure(e) => Failure(e)
      case Success(c) => Count(c, evs[i - 1])
  }

  function Tallied(evs: seq<Event>): Result<Counts, MetricsError> {
    CountUpTo(evs, |evs|)
  }

  lemma {:induction false} CountPrefix(a: seq<Event>, b: seq<Event>, i: nat)
    requires i <= |a| && a <= b
    ensures CountUpTo(b, i) == CountUpTo(a, i)
  {
    if i > 0 {
      CountPrefix(a, b, i - 1);
    }
  }

  lemma {:induction false} FailureStays(evs: seq<Event>, i: nat, j: nat)
    requires i <= j <= |evs| && CountUpTo(evs, i).Failure?
    ensures CountUpTo(evs, j) == CountUpTo(evs, i)
  {
    if i < j {
      FailureStays(evs, i, j - 1);
    }
  }

  // ---------------------------------------------------------------------
  // Each fingerprint on its own
  // ---------------------------------------------------------------------

  function Find(live: map<string, Live>, fp: string): Option<Live> {
    if fp in live then Some(live[fp]) else None
  }

  /** The life of one record under one event. */
  function Course(fp: string, l: Option<Live>, ev: Event): Option<Live> {
    if ev.fp != fp then l
    else
      match ev.kind
      case Detected =>
        if !ev.payload.DetectedData? then l
        else if l.None? then Some(Newborn(ev)) else Some(Widened(l.value, ev))
      case Triaged =>
        if l.None? || !ev.payload.TriagedData? then l
        else Some(l.value.(actionable := ev.payload.verdict != "dismissed"))
      case Deferred => if l.None? then None else Some(l.value.(actionable := false))
      case Suppressed => None
      case Remediated => None
      case _ => l
  }

  lemma CountActsPerFingerprint(c: Counts, ev: Event, fp: string)
    requires Count(c, ev).Success?
    ensures Find(Count(c, ev).value.live, fp) == Course(fp, Find(c.live, fp), ev)
  {
  }

  // ---------------------------------------------------------------------
  // The counters count
  // ---------------------------------------------------------------------

  function OpenOf(live: map<string, Live>, sev: string): set<string> {
    set fp | fp in live && live[fp].actionable && live[fp].sev == sev
  }

  function OpenAll(live: map<string, Live>): set<string> {
    set fp | fp in live && live[fp].actionable
  }

  /** Live actionable records of a severity; "total" also counts every one of them. */
  function Actual(live: map<string, Live>, key: string): int {
    |OpenOf(live, key)| + if key == TOTAL then |OpenAll(live)| else 0
  }

  ghost predicate CountersExact(c: Counts) {
    forall key :: Get(c.open, key) == Actual(c.live, key)
  }

  function Put(live: map<string, Live>, fp: string, l: Option<Live>): map<string, Live> {
    if l.None? then live - {fp} else live[fp := l.value]
  }

  predicate Weighs(l: Option<Live>, sev: string) {
    l.Some? && l.value.actionable && l.value.sev == sev
  }

  predicate Actionable(l: Option<Live>) {
    l.Some? && l.value.actionable
  }

  lemma MembersMove(a: set<string>, b: set<string>, fp: string)
    requires a - {fp} == b - {fp}
    ensures |b| == |a| - Weight(fp in a) + Weight(fp in b)
  {
    assert a == (a - {fp}) + if fp in a then {fp} else {};
    assert b == (b - {fp}) + if fp in b then {fp} else {};
  }

  lemma ActualMoves(live: map<string, Live>, fp: string, l: Option<Live>, key: string)
    ensures var old_ := Find(live, fp);
      Actual(Put(live, fp, l), key) == Actual(live, key)
        - Weight(Weighs(old_, key)) + Weight(Weighs(l, key))
        + if key == TOTAL then Weight(Actionable(l)) - Weight(Actionable(old_)) else 0
  {
    MembersMove(OpenOf(live, key), OpenOf(Put(live, fp, l), key), fp);
    MembersMove(OpenAll(live), OpenAll(Put(live, fp, l)), fp);
  }

  lemma TurnedMoves(open: map<string, int>, sev: string, was: bool, becomes: bool, key: string)
    ensures Get(Turned(open, sev, was, becomes), key) == Get(open, key)
      + (if key == sev then Weight(becomes) - Weight(was) else 0)
      + if key == TOTAL then Weight(becomes) - Weight(was) else 0
  {
  }

  /** A record is replaced and the counters turned with it: they stay exact. */
  lemma ExactMoves(c: Counts, fp: string, l: Option<Live>, sev: string, open: map<string, int>)
    requires CountersExact(c)
    requires l.Some? ==> l.value.sev == sev
    requires fp in c.live ==> c.live[fp].sev == sev
    requires open == Turned(c.open, sev, Actionable(Find(c.live, fp)), Actionable(l))
    ensures CountersExact(c.(live := Put(c.live, fp, l), open := open))
  {
    forall key ensures Get(open, key) == Actual(Put(c.live, fp, l), key) {
      ActualMoves(c.live, fp, l, key);
      TurnedMoves(c.open, sev, Actionable(Find(c.live, fp)), Actionable(l), key);
      assert Get(c.open, key) == Actual(c.live, key);
    }
  }

  /** The severity an event's record has before, or gets from, the event. */
  function SevOf(c: Counts, ev: Event): string {
    if ev.fp in c.live then c.live[ev.fp].sev
    else if ev.payload.DetectedData? then ev.payload.severity
    else ""
  }

  /** Counting an event replaces one record and turns the counters with it. */
  lemma CountTurns(c: Counts, ev: Event)
    requires Count(c, ev).Success?
    ensures var t, l := Count(c, ev).value, Course(ev.fp, Find(c.live, ev.fp), ev);
      && t.live == Put(c.live, ev.fp, l)
      && t.open == Turned(c.open, SevOf(c, ev), Actionable(Find(c.live, ev.fp)), Actionable(l))
      && (l.Some? ==> l.value.sev == SevOf(c, ev))
  {
    var s := Shift(c, ev);
    assert s.live == c.live && s.open == c.open;
  }

  lemma CountKeepsExact(c: Counts, ev: Event)
    requires CountersExact(c) && Count(c, ev).Success?
    ensures CountersExact(Count(c, ev).value)
  {
    CountTurns(c, ev);
    var t, l := Count(c, ev).value, Course(ev.fp, Find(c.live, ev.fp), ev);
    ExactMoves(c, ev.fp, l, SevOf(c, ev), t.open);
    assert CountersExact(c.(live := t.live, open := t.open));
    assert forall key :: Get(t.open, key) == Actual(t.live, key) by {
      assert c.(live := t.live, open := t.open).open == t.open;
    }
  }

  lemma {:induction false} NothingOpen(key: string)
    ensures Actual(map[], key) == 0
  {
    assert OpenOf(map[], key) == {} && OpenAll(map[]) == {};
  }

  /** At every step each counter is the number of live actionable records it stands for. */
  lemma {:induction false} CountersAlwaysExact(evs: seq<Event>, i: nat)
    requires i <= |evs| && CountUpTo(evs, i).Success?
    ensures CountersExact(CountUpTo(evs, i).value)
    ensures forall key :: Get(CountUpTo(evs, i).value.open, key) >= 0
  {
    if i == 0 {
      forall key ensures Get(NOTHING.open, key) == Actual(NOTHING.live, key) {
        NothingOpen(key);
      }
    } else {
      CountersAlwaysExact(evs, i - 1);
      CountKeepsExact(CountUpTo(evs, i - 1).value, evs[i - 1]);
    }
    var c := CountUpTo(evs, i).value;
    forall key ensures Get(c.open, key) >= 0 {
      assert Get(c.open, key) == Actual(c.live, key);
    }
  }

  function Sum(open: map<string, int>, sevs: seq<string>): int {
    if sevs == [] then 0 else Sum(open, sevs[..|sevs| - 1]) + Get(open, sevs[|sevs| - 1])
  }

  function OpenAmong(live: map<string, Live>, sevs: seq<string>): set<string> {
    set fp | fp in live && live[fp].actionable && live[fp].sev in sevs
  }

  lemma OpenAmongOne(live: map<string, Live>, front: seq<string>, last: string)
    requires last !in front
    ensures |OpenAmong(live, front + [last])| == |OpenAmong(live, front)| + |OpenOf(live, last)|
  {
    assert OpenAmong(live, front + [last]) == OpenAmong(live, front) + OpenOf(live, last);
    assert OpenAmong(live, front) !! OpenOf(live, last);
  }

  lemma {:induction false} SumCounts(c: Counts, sevs: seq<string>)
    requires CountersExact(c) && TOTAL !in sevs
    requires forall i, j :: 0 <= i < j < |sevs| ==> sevs[i] != sevs[j]
    ensures Sum(c.open, sevs) == |OpenAmong(c.live, sevs)|
  {
    if sevs == [] {
      assert OpenAmong(c.live, sevs) == {};
    } else {
      var front, last := sevs[..|sevs| - 1], sevs[|sevs| - 1];
      assert sevs == front + [last];
      SumCounts(c, front);
      assert last in sevs && last !in front;
      assert Get(c.open, last) == Actual(c.live, last);
      OpenAmongOne(c.live, front, last);
    }
  }

  /** The total is the sum of the severities' counters. */
  lemma {:induction false} TotalIsTheSum(evs: seq<Event>, i: nat, sevs: seq<string>)
    requires i <= |evs| && CountUpTo(evs, i).Success?
    requires "total" !in sevs && forall i, j :: 0 <= i < j < |sevs| ==> sevs[i] != sevs[j]
    requires forall fp :: fp in CountUpTo(evs, i).value.live ==> CountUpTo(evs, i).value.live[fp].sev in sevs
    ensures var open := CountUpTo(evs, i).value.open; Get(open, "total") == Sum(open, sevs)
  {
    var c := CountUpTo(evs, i).value;
    CountersAlwaysExact(evs, i);
    SumCounts(c, sevs);
    assert OpenAmong(c.live, sevs) == OpenAll(c.live);
    assert OpenOf(c.live, TOTAL) == {};
    assert Get(c.open, TOTAL) == Actual(c.live, TOTAL);
  }

  // ---------------------------------------------------------------------
  // Nothing is lost between the records
  // ---------------------------------------------------------------------

  function Flowed(flow: seq<FlowRec>, kind: string): seq<FlowRec> {
    if flow == [] then []
    else
      var before := Flowed(flow[..|flow| - 1], kind);
      if flow[|flow| - 1].kind == kind then before + [flow[|flow| - 1]] else before
  }

  lemma {:induction false} FlowedOne(flow: seq<FlowRec>, r: FlowRec, kind: string)
    ensures Flowed(flow + [r], kind) == if r.kind == kind then Flowed(flow, kind) + [r] else Flowed(flow, kind)
  {
    assert (flow + [r])[..|flow|] == flow;
  }

  /** How many suppressed events met a live record. */
  function Silencings(evs: seq<Event>, i: nat): nat
    requires i <= |evs|
  {
    if i == 0 then 0
    else
      Silencings(evs, i - 1) +
      if && CountUpTo(evs, i - 1).Success? && evs[i - 1].kind == Suppressed
         && evs[i - 1].fp in CountUpTo(evs, i - 1).value.live then 1 else 0
  }

  /** New records are the live ones, the remediated ones, and the ones suppressed while live. */
  lemma {:induction false} NewIsConserved(evs: seq<Event>, i: nat)
    requires i <= |evs| && CountUpTo(evs, i).Success?
    ensures var c := CountUpTo(evs, i).value;
      |Flowed(c.flow, "new")| == |c.live| + |c.remediated| + Silencings(evs, i)
  {
    if i > 0 {
      NewIsConserved(evs, i - 1);
      NewKept(CountUpTo(evs, i - 1).value, evs[i - 1]);
    }
  }

  lemma PutSize(live: map<string, Live>, fp: string, l: Option<Live>)
    ensures |Put(live, fp, l)| == |live| - Weight(fp in live) + Weight(l.Some?)
  {
    MembersMove(live.Keys, Put(live, fp, l).Keys, fp);
    assert |live| == |live.Keys| && |Put(live, fp, l)| == |Put(live, fp, l).Keys|;
  }

  /** The flow and remediated records an event adds. */
  lemma CountNews(c: Counts, ev: Event)
    requires Count(c, ev).Success?
    ensures |Flowed(Count(c, ev).value.flow, "new")| ==
            |Flowed(c.flow, "new")| + Weight(ev.kind == Detected && ev.fp !in c.live)
  {
    var t := Count(c, ev).value;
    if |t.flow| > |c.flow| {
      FlowedOne(c.flow, t.flow[|c.flow|], "new");
      assert t.flow == c.flow + [t.flow[|c.flow|]];
    } else {
      assert t.flow == c.flow;
    }
  }

  lemma CountRemediations(c: Counts, ev: Event)
    requires Count(c, ev).Success?
    ensures |Count(c, ev).value.remediated| == |c.remediated| + Weight(ev.kind == Remediated && ev.fp in c.live)
  {
  }

  lemma NewKept(c: Counts, ev: Event)
    requires Count(c, ev).Success?
    ensures var t := Count(c, ev).value;
      |Flowed(t.flow, "new")| - |t.live| - |t.remediated| ==
      |Flowed(c.flow, "new")| - |c.live| - |c.remediated| + Weight(ev.kind == Suppressed && ev.fp in c.live)
  {
    var l, t := Course(ev.fp, Find(c.live, ev.fp), ev), Count(c, ev).value;
    CountTurns(c, ev);
    PutSize(c.live, ev.fp, l);
    CountNews(c, ev);
    CountRemediations(c, ev);
    assert Weight(l.Some?) - Weight(ev.fp in c.live) ==
      Weight(ev.kind == Detected && ev.fp !in c.live) - Weight(ev.kind == Remediated && ev.fp in c.live)
      - Weight(ev.kind == Suppressed && ev.fp in c.live);
  }

  /** The k-th remediation in its three records. */
  predicate Matches(f: FlowRec, s: ResolveRec, r: RemediatedRec) {
    && f.ts == s.ts == r.remediatedAt
    && s.actor == r.actor
    && s.hours == Hours(r.detectedAt, r.remediatedAt)
  }

  ghost predicate Paired(c: Counts) {
    && |Flowed(c.flow, "fixed")| == |c.resolve| == |c.remediated|
    && forall k :: 0 <= k < |c.resolve| ==> Matches(Flowed(c.flow, "fixed")[k], c.resolve[k], c.remediated[k])
  }

  lemma CountFixes(c: Counts, ev: Event)
    requires Count(c, ev).Success?
    ensures Flowed(Count(c, ev).value.flow, "fixed") ==
      if ev.kind == Remediated && ev.fp in c.live then Flowed(c.flow, "fixed") + [FlowRec(ev.ts, "fixed", "")]
      else Flowed(c.flow, "fixed")
  {
    var t := Count(c, ev).value;
    if |t.flow| > |c.flow| {
      FlowedOne(c.flow, t.flow[|c.flow|], "fixed");
      assert t.flow == c.flow + [t.flow[|c.flow|]];
    } else {
      assert t.flow == c.flow;
    }
  }

  lemma PairedKept(c: Counts, ev: Event)
    requires Count(c, ev).Success? && Paired(c)
    ensures Paired(Count(c, ev).value)
  {
    CountFixes(c, ev);
    var t := Count(c, ev).value;
    if ev.kind == Remediated && ev.fp in c.live {
      var r := t.remediated[|c.remediated|];
      assert t.resolve == c.resolve + [ResolveRec(ev.ts, ev.actor, Hours(r.detectedAt, ev.ts))];
      assert t.remediated == c.remediated + [r];
    } else {
      assert t.resolve == c.resolve && t.remediated == c.remediated;
    }
  }

  /** Resolve, remediated and "fixed" records match one to one. */
  lemma {:induction false} RemediationsPair(evs: seq<Event>, i: nat)
    requires i <= |evs| && CountUpTo(evs, i).Success?
    ensures Paired(CountUpTo(evs, i).value)
  {
    if i > 0 {
      RemediationsPair(evs, i - 1);
      PairedKept(CountUpTo(evs, i - 1).value, evs[i - 1]);
    }
  }

  // ---------------------------------------------------------------------
  // Lags
  // ---------------------------------------------------------------------

  ghost predicate InTimeOrder(evs: seq<Event>) {
    forall i, j :: 0 <= i < j < |evs| ==> evs[i].ts <= evs[j].ts
  }

  ghost predicate NoLagNegative(c: Counts) {
    && (forall k :: 0 <= k < |c.resolve| ==> c.resolve[k].hours >= 0.0)
    && (forall k :: 0 <= k < |c.triage| ==> c.triage[k].hours >= 0.0)
  }

  ghost predicate BornBy(c: Counts, t: int) {
    forall fp :: fp in c.live ==> c.live[fp].first <= t
  }

  lemma LagsKept(c: Counts, ev: Event)
    requires Count(c, ev).Success? && NoLagNegative(c) && BornBy(c, ev.ts)
    ensures NoLagNegative(Count(c, ev).value) && BornBy(Count(c, ev).value, ev.ts)
  {
  }

  /** Every lag is at least zero. */
  lemma {:induction false} LagsNeverNegative(evs: seq<Event>, i: nat)
    requires i <= |evs| && CountUpTo(evs, i).Success? && InTimeOrder(evs)
    ensures NoLagNegative(CountUpTo(evs, i).value)
    ensures i > 0 ==> BornBy(CountUpTo(evs, i).value, evs[i - 1].ts)
  {
    if i > 0 {
      LagsNeverNegative(evs, i - 1);
      var c := CountUpTo(evs, i - 1).value;
      assert BornBy(c, evs[i - 1].ts) by {
        if i > 1 {
          assert evs[i - 2].ts <= evs[i - 1].ts;
        }
      }
      LagsKept(c, evs[i - 1]);
    }
  }

  // ---------------------------------------------------------------------
  // Advisory-database eras
  // ---------------------------------------------------------------------

  /** The instant of the last scan-end event, 0 before any. */
  function LastEnd(evs: seq<Event>, i: nat): int
    requires i <= |evs|
  {
    if i == 0 then 0 else if ScanEnd(evs[i - 1]) then evs[i - 1].ts else LastEnd(evs, i - 1)
  }

  /** How many scans ended: scan-end events of one instant count once. */
  function Era(evs: seq<Event>, i: nat): nat
    requires i <= |evs|
  {
    if i == 0 then 0
    else if ScanEnd(evs[i - 1]) && evs[i - 1].ts != LastEnd(evs, i - 1) then Era(evs, i - 1) + 1
    else Era(evs, i - 1)
  }

  /** The last digest a detection of an era carried, among the first i events. */
  function EraDigest(evs: seq<Event>, i: nat, e: int): string
    requires i <= |evs|
  {
    if i == 0 then ""
    else
      var ev := evs[i - 1];
      if ev.kind == Detected && ev.payload.DetectedData? && ev.payload.db != "" && Era(evs, i - 1) == e then ev.payload.db
      else EraDigest(evs, i - 1, e)
  }

  lemma {:induction false} NoLaterEra(evs: seq<Event>, i: nat, e: int)
    requires i <= |evs| && Era(evs, i) < e
    ensures EraDigest(evs, i, e) == ""
  {
    if i > 0 {
      NoLaterEra(evs, i - 1, e);
    }
  }

  lemma CountDigests(c: Counts, ev: Event)
    requires Count(c, ev).Success?
    ensures var t, ends := Count(c, ev).value, ScanEnd(ev) && ev.ts != c.boundary;
      && t.boundary == (if ScanEnd(ev) then ev.ts else c.boundary)
      && t.prevDB == (if ends then c.curDB else c.prevDB)
      && t.curDB == if ev.kind == Detected && ev.payload.db != "" then ev.payload.db else if ends then "" else c.curDB
  {
  }

  /** The two digests kept are those of the current and of the previous era. */
  lemma {:induction false} DigestsAreEras(evs: seq<Event>, i: nat)
    requires i <= |evs| && CountUpTo(evs, i).Success?
    ensures var c := CountUpTo(evs, i).value;
      && c.boundary == LastEnd(evs, i)
      && c.curDB == EraDigest(evs, i, Era(evs, i))
      && c.prevDB == EraDigest(evs, i, Era(evs, i) - 1)
  {
    if i > 0 {
      DigestsAreEras(evs, i - 1);
      CountDigests(CountUpTo(evs, i - 1).value, evs[i - 1]);
      NoLaterEra(evs, i - 1, Era(evs, i - 1) + 1);
    } else {
      assert EraDigest(evs, 0, -1) == "";
    }
  }

  /** A new record is blamed on the database exactly when its digest is not that of the previous scan. */
  lemma CauseIff(evs: seq<Event>, i: nat)
    requires i < |evs| && CountUpTo(evs, i + 1).Success?
    requires evs[i].kind == Detected && CountUpTo(evs, i).Success? && evs[i].fp !in CountUpTo(evs, i).value.live
    ensures var flow, before := CountUpTo(evs, i + 1).value.flow, EraDigest(evs, i, Era(evs, i) - 1);
      && evs[i].payload.DetectedData? && flow != []
      && flow[|flow| - 1].kind == "new" && flow[|flow| - 1].ts == evs[i].ts
      && (flow[|flow| - 1].cause == "db" <==> evs[i].payload.db != "" && before != "" && evs[i].payload.db != before)
  {
    DigestsAreEras(evs, i);
  }
}
