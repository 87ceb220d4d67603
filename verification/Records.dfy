/**
 What the metrics document says of each finding (metrics.go:131-133 and :182-272), in
 terms of the events themselves: every flow, triage, resolve and remediated record is
 that of one event, measured from the first detection since the finding was last
 remediated or suppressed.
 */
module Records {
  import opened Wrappers
  import opened Events
  import opened Findings
  import opened LogOrder
  import opened Replay
  import opened Tally
  import Trend

  /** Where a finding the metrics hold was first detected since they last forgot it, among the first i events. */
  function HeldFrom(fp: string, evs: seq<Event>, i: nat): (h: Option<nat>)
    requires i <= |evs|
    ensures h.Some? ==> h.value < i && evs[h.value].fp == fp && evs[h.value].kind == Detected
  {
    if i == 0 then None
    else
      var before, ev := HeldFrom(fp, evs, i - 1), evs[i - 1];
      if ev.fp != fp then before
      else if ev.kind == Detected then if before.None? then Some(i - 1) else before
      else if ev.kind == Remediated || ev.kind == Suppressed then None
      else before
  }

  /** Some event from h on, among the first i, detects the finding there. */
  ghost predicate SeenAt(fp: string, evs: seq<Event>, h: nat, i: nat, l: Location)
    requires i <= |evs|
  {
    exists j :: h <= j < i && DetectsAt(evs[j], fp, l)
  }

  predicate DetectsAt(ev: Event, fp: string, l: Location) {
    ev.fp == fp && ev.kind == Detected && ev.payload.DetectedData? && ev.payload.path == l.path && ev.payload.line == l.line
  }

  /** The locations detected from h on, each once. */
  ghost predicate PlacesSince(locs: seq<Location>, fp: string, evs: seq<Event>, h: nat, i: nat)
    requires i <= |evs|
  {
    NoRepeats(locs) && forall l :: l in locs <==> SeenAt(fp, evs, h, i, l)
  }

  /** A live record is that of the detection it is held from. */
  ghost predicate RecordOf(l: Live, fp: string, evs: seq<Event>, h: nat, i: nat)
    requires h < i <= |evs|
  {
    && evs[h].payload.DetectedData?
    && l.first == evs[h].ts && l.rule == evs[h].payload.rule && l.sev == evs[h].payload.severity
    && l.scanner == evs[h].payload.scanner
    && PlacesSince(l.locs, fp, evs, h, i)
  }

  lemma SeenOneMore(fp: string, evs: seq<Event>, h: nat, i: nat, l: Location)
    requires h <= i < |evs|
    ensures SeenAt(fp, evs, h, i + 1, l) <==> SeenAt(fp, evs, h, i, l) || DetectsAt(evs[i], fp, l)
  {
    if j :| h <= j < i + 1 && DetectsAt(evs[j], fp, l) {
      assert j == i || SeenAt(fp, evs, h, i, l);
    }
  }

  lemma PlacesOneMore(locs: seq<Location>, fp: string, evs: seq<Event>, h: nat, i: nat)
    requires h <= i < |evs| && PlacesSince(locs, fp, evs, h, i)
    ensures var ev := evs[i];
      if ev.fp == fp && ev.kind == Detected && ev.payload.DetectedData?
      then PlacesSince(AddLoc(locs, Location(ev.payload.path, ev.payload.line)), fp, evs, h, i + 1)
      else PlacesSince(locs, fp, evs, h, i + 1)
  {
    var ev := evs[i];
    forall l ensures SeenAt(fp, evs, h, i + 1, l) <==> SeenAt(fp, evs, h, i, l) || DetectsAt(ev, fp, l) {
      SeenOneMore(fp, evs, h, i, l);
    }
    if ev.fp == fp && ev.kind == Detected && ev.payload.DetectedData? {
      AddLocPlaces(locs, Location(ev.payload.path, ev.payload.line));
    }
  }

  lemma FirstPlace(fp: string, evs: seq<Event>, i: nat)
    requires i < |evs| && evs[i].fp == fp && evs[i].kind == Detected && evs[i].payload.DetectedData?
    ensures PlacesSince([Location(evs[i].payload.path, evs[i].payload.line)], fp, evs, i, i + 1)
  {
    forall l ensures SeenAt(fp, evs, i, i + 1, l) <==> DetectsAt(evs[i], fp, l) {
      SeenOneMore(fp, evs, i, i, l);
    }
  }

  /** A finding has a live record exactly when it is held, and it is that record. */
  lemma {:induction false} LiveIs(fp: string, evs: seq<Event>, i: nat)
    requires i <= |evs| && CountUpTo(evs, i).Success?
    ensures var live, h := CountUpTo(evs, i).value.live, HeldFrom(fp, evs, i);
      (fp in live <==> h.Some?) && (h.Some? ==> RecordOf(live[fp], fp, evs, h.value, i))
  {
    if i > 0 {
      LiveIs(fp, evs, i - 1);
      LiveNext(fp, evs, i - 1);
    }
  }

  lemma LiveNext(fp: string, evs: seq<Event>, i: nat)
    requires i < |evs| && CountUpTo(evs, i + 1).Success? && CountUpTo(evs, i).Success?
    requires var live, h := CountUpTo(evs, i).value.live, HeldFrom(fp, evs, i);
      (fp in live <==> h.Some?) && (h.Some? ==> RecordOf(live[fp], fp, evs, h.value, i))
    ensures var live, h := CountUpTo(evs, i + 1).value.live, HeldFrom(fp, evs, i + 1);
      (fp in live <==> h.Some?) && (h.Some? ==> RecordOf(live[fp], fp, evs, h.value, i + 1))
  {
    var c, ev, h := CountUpTo(evs, i).value, evs[i], HeldFrom(fp, evs, i);
    CountActsPerFingerprint(c, ev, fp);
    if h.Some? {
      PlacesOneMore(c.live[fp].locs, fp, evs, h.value, i);
    } else if ev.fp == fp && ev.kind == Detected {
      FirstPlace(fp, evs, i);
    }
  }

  /** An event the metrics can count: its payload decodes, or it is not looked at. */
  predicate Countable(evs: seq<Event>, j: nat)
    requires j < |evs|
  {
    var ev := evs[j];
    && (ev.kind == Detected ==> ev.payload.DetectedData?)
    && (ev.kind == Triaged && HeldFrom(ev.fp, evs, j).Some? ==> ev.payload.TriagedData?)
    && (ev.kind == Remediated && HeldFrom(ev.fp, evs, j).Some? ==> ev.payload.ReasonedData?)
  }

  ghost predicate AllCountable(evs: seq<Event>, i: nat)
    requires i <= |evs|
  {
    forall j :: 0 <= j < i ==> Countable(evs, j)
  }

  lemma CountableNext(evs: seq<Event>, i: nat)
    requires i < |evs| && CountUpTo(evs, i).Success?
    ensures CountUpTo(evs, i + 1).Success? <==> Countable(evs, i)
  {
    LiveIs(evs[i].fp, evs, i);
  }

  /** The metrics of some events are computed exactly when every event can be counted. */
  lemma {:induction false} CountedIff(evs: seq<Event>, i: nat)
    requires i <= |evs|
    ensures CountUpTo(evs, i).Success? <==> AllCountable(evs, i)
  {
    if i > 0 {
      CountedIff(evs, i - 1);
      assert AllCountable(evs, i) <==> AllCountable(evs, i - 1) && Countable(evs, i - 1);
      if CountUpTo(evs, i - 1).Success? {
        CountableNext(evs, i - 1);
      }
    }
  }

  // ---------------------------------------------------------------------
  // One record an event
  // ---------------------------------------------------------------------

  predicate Held(evs: seq<Event>, j: nat)
    requires j < |evs|
  {
    HeldFrom(evs[j].fp, evs, j).Some?
  }

  /** The word an event adds to the flow, if any. */
  function FlowWord(evs: seq<Event>, j: nat): string
    requires j < |evs|
  {
    match evs[j].kind
    case Detected => if Held(evs, j) then "" else "new"
    case Triaged =>
      if Held(evs, j) && evs[j].payload.TriagedData? && evs[j].payload.verdict == "dismissed" then "dismissed" else ""
    case Deferred => if Held(evs, j) then "deferred" else ""
    case Remediated => if Held(evs, j) then "fixed" else ""
    case _ => ""
  }

  function Flowing(evs: seq<Event>, i: nat): seq<nat>
    requires i <= |evs|
    ensures forall j :: j in Flowing(evs, i) ==> j < i
  {
    if i == 0 then [] else if FlowWord(evs, i - 1) != "" then Flowing(evs, i - 1) + [i - 1] else Flowing(evs, i - 1)
  }

  /** The events of a kind that met a held finding, in order. */
  function Meeting(kind: Kind, evs: seq<Event>, i: nat): (js: seq<nat>)
    requires i <= |evs|
    ensures forall j :: j in js ==> j < i && evs[j].kind == kind && Held(evs, j)
  {
    if i == 0 then []
    else if evs[i - 1].kind == kind && Held(evs, i - 1) then Meeting(kind, evs, i - 1) + [i - 1]
    else Meeting(kind, evs, i - 1)
  }

  /** So many hours passed between two instants. */
  ghost predicate Lasted(hours: real, from: int, to: int) {
    hours * 3600.0 * 1000000000.0 == (to - from) as real
  }

  /** When the finding of event j was first detected. */
  function FirstAt(evs: seq<Event>, j: nat): nat
    requires j < |evs| && Held(evs, j)
    ensures FirstAt(evs, j) < j
  {
    HeldFrom(evs[j].fp, evs, j).value
  }

  /** The digest of the detection differs from the last one of the previous scan's era, and both are known. */
  ghost predicate NewDigest(evs: seq<Event>, j: nat)
    requires j < |evs|
  {
    var before := EraDigest(evs, j, Era(evs, j) - 1);
    evs[j].payload.DetectedData? && evs[j].payload.db != "" && before != "" && evs[j].payload.db != before
  }

  ghost predicate FlowOf(r: FlowRec, evs: seq<Event>, j: nat)
    requires j < |evs|
  {
    && r.ts == evs[j].ts && r.kind == FlowWord(evs, j)
    && r.cause == if evs[j].kind != Detected then "" else if NewDigest(evs, j) then "db" else "code"
  }

  ghost predicate TriageOf(r: LagRec, evs: seq<Event>, j: nat)
    requires j < |evs| && Held(evs, j)
  {
    r.ts == evs[j].ts && Lasted(r.hours, evs[FirstAt(evs, j)].ts, evs[j].ts)
  }

  ghost predicate ResolveOf(r: ResolveRec, evs: seq<Event>, j: nat)
    requires j < |evs| && Held(evs, j)
  {
    r.ts == evs[j].ts && r.actor == evs[j].actor && Lasted(r.hours, evs[FirstAt(evs, j)].ts, evs[j].ts)
  }

  ghost predicate RemediatedOf(r: RemediatedRec, evs: seq<Event>, j: nat)
    requires j < |evs| && Held(evs, j)
  {
    var ev, first := evs[j], evs[FirstAt(evs, j)];
    && first.payload.DetectedData? && ev.payload.ReasonedData?
    && r.fp == ev.fp && r.reason == ev.payload.why && r.actor == ev.actor && r.remediatedAt == ev.ts
    && r.detectedAt == first.ts && r.rule == first.payload.rule && r.severity == first.payload.severity
    && r.scanner == first.payload.scanner
    && PlacesSince(r.locs, ev.fp, evs, FirstAt(evs, j), j)
  }

  ghost predicate FlowRecords(flow: seq<FlowRec>, evs: seq<Event>, js: seq<nat>) {
    |flow| == |js| && forall k :: 0 <= k < |js| ==> js[k] < |evs| && FlowOf(flow[k], evs, js[k])
  }

  ghost predicate TriageRecords(triage: seq<LagRec>, evs: seq<Event>, js: seq<nat>) {
    |triage| == |js| && forall k :: 0 <= k < |js| ==> js[k] < |evs| && Held(evs, js[k]) && TriageOf(triage[k], evs, js[k])
  }

  ghost predicate ResolveRecords(resolve: seq<ResolveRec>, evs: seq<Event>, js: seq<nat>) {
    |resolve| == |js| && forall k :: 0 <= k < |js| ==> js[k] < |evs| && Held(evs, js[k]) && ResolveOf(resolve[k], evs, js[k])
  }

  ghost predicate RemediatedRecords(remediated: seq<RemediatedRec>, evs: seq<Event>, js: seq<nat>) {
    |remediated| == |js| && forall k :: 0 <= k < |js| ==> js[k] < |evs| && Held(evs, js[k]) && RemediatedOf(remediated[k], evs, js[k])
  }

  lemma HoursLast(from: int, to: int)
    ensures Lasted(Hours(from, to), from, to)
  {
    var d := (to - from) as real;
    assert d / 3600000000000.0 * 3600000000000.0 == d;
  }

  lemma FlowNext(evs: seq<Event>, i: nat)
    requires i < |evs| && CountUpTo(evs, i + 1).Success? && CountUpTo(evs, i).Success?
    requires FlowRecords(CountUpTo(evs, i).value.flow, evs, Flowing(evs, i))
    ensures FlowRecords(CountUpTo(evs, i + 1).value.flow, evs, Flowing(evs, i + 1))
  {
    LiveIs(evs[i].fp, evs, i);
    DigestsAreEras(evs, i);
    OneFlow(evs, i, CountUpTo(evs, i).value, CountUpTo(evs, i + 1).value);
  }

  lemma {:induction false} OneFlow(evs: seq<Event>, i: nat, c: Counts, d: Counts)
    requires i < |evs| && Count(c, evs[i]) == Success(d) && (evs[i].fp in c.live <==> Held(evs, i))
    requires c.prevDB == EraDigest(evs, i, Era(evs, i) - 1)
    ensures if FlowWord(evs, i) == "" then d.flow == c.flow
            else |d.flow| == |c.flow| + 1 && d.flow[..|c.flow|] == c.flow && FlowOf(d.flow[|c.flow|], evs, i)
  {
  }

  lemma TriageNext(evs: seq<Event>, i: nat)
    requires i < |evs| && CountUpTo(evs, i + 1).Success? && CountUpTo(evs, i).Success?
    requires TriageRecords(CountUpTo(evs, i).value.triage, evs, Meeting(Triaged, evs, i))
    ensures TriageRecords(CountUpTo(evs, i + 1).value.triage, evs, Meeting(Triaged, evs, i + 1))
  {
    LiveIs(evs[i].fp, evs, i);
    if Held(evs, i) {
      HoursLast(evs[FirstAt(evs, i)].ts, evs[i].ts);
    }
  }

  lemma ResolveNext(evs: seq<Event>, i: nat)
    requires i < |evs| && CountUpTo(evs, i + 1).Success? && CountUpTo(evs, i).Success?
    requires ResolveRecords(CountUpTo(evs, i).value.resolve, evs, Meeting(Remediated, evs, i))
    ensures ResolveRecords(CountUpTo(evs, i + 1).value.resolve, evs, Meeting(Remediated, evs, i + 1))
  {
    LiveIs(evs[i].fp, evs, i);
    if Held(evs, i) {
      HoursLast(evs[FirstAt(evs, i)].ts, evs[i].ts);
    }
  }

  lemma RemediatedNext(evs: seq<Event>, i: nat)
    requires i < |evs| && CountUpTo(evs, i + 1).Success? && CountUpTo(evs, i).Success?
    requires RemediatedRecords(CountUpTo(evs, i).value.remediated, evs, Meeting(Remediated, evs, i))
    ensures RemediatedRecords(CountUpTo(evs, i + 1).value.remediated, evs, Meeting(Remediated, evs, i + 1))
  {
    LiveIs(evs[i].fp, evs, i);
  }

  lemma {:induction false} RecordsAre(evs: seq<Event>, i: nat)
    requires i <= |evs| && CountUpTo(evs, i).Success?
    ensures FlowRecords(CountUpTo(evs, i).value.flow, evs, Flowing(evs, i))
    ensures TriageRecords(CountUpTo(evs, i).value.triage, evs, Meeting(Triaged, evs, i))
    ensures ResolveRecords(CountUpTo(evs, i).value.resolve, evs, Meeting(Remediated, evs, i))
    ensures RemediatedRecords(CountUpTo(evs, i).value.remediated, evs, Meeting(Remediated, evs, i))
  {
    if i > 0 {
      RecordsAre(evs, i - 1);
      FlowNext(evs, i - 1);
      TriageNext(evs, i - 1);
      ResolveNext(evs, i - 1);
      RemediatedNext(evs, i - 1);
    }
  }

  /**
   The document of a log, record by record: one flow record for every new, dismissed,
   deferred or fixed finding, one lag for every verdict and every remediation that met a
   held finding, measured from its first detection, and one account of each remediation.
   */
  lemma DocumentRecords(log: seq<Entry>)
    requires Trend.Computed(log).Success?
    ensures var doc, evs := Trend.Computed(log).value, EventsOf(Visited(log));
      && FlowRecords(doc.flow, evs, Flowing(evs, |evs|))
      && TriageRecords(doc.triage, evs, Meeting(Triaged, evs, |evs|))
      && ResolveRecords(doc.resolve, evs, Meeting(Remediated, evs, |evs|))
      && RemediatedRecords(doc.remediated, evs, Meeting(Remediated, evs, |evs|))
  {
    RecordsAre(EventsOf(Visited(log)), |EventsOf(Visited(log))|);
  }
}
