/**
 Scan boundaries and the one-pass snapshot (metrics.go:99-114 and :147-181): the
 counters copied on the way past the second-to-last scan are those of a whole
 computation over the events up to that scan.
 */
module Trend {
  import opened Wrappers
  import opened Events
  import opened LogOrder
  import opened Tally

  datatype Doc = Doc(flow: seq<FlowRec>, resolve: seq<ResolveRec>, triage: seq<LagRec>,
                     remediated: seq<RemediatedRec>, scanTimes: seq<int>,
                     current: map<string, int>, previous: Option<map<string, int>>)

  // ---------------------------------------------------------------------
  // Scan times
  // ---------------------------------------------------------------------

  function TimesUpTo(s: seq<Entry>, i: nat): seq<int>
    requires i <= |s|
  {
    if i == 0 then []
    else
      var before := TimesUpTo(s, i - 1);
      if ScanEnd(s[i - 1].ev) && s[i - 1].ev.ts !in before then before + [s[i - 1].ev.ts] else before
  }

  /** The distinct instants of the scan-end events, taken from the sorted lines. */
  function ScanTimes(log: seq<Entry>): seq<int> {
    TimesUpTo(Sorted(log), |Sorted(log)|)
  }

  ghost predicate Increasing(ts: seq<int>) {
    forall i, j :: 0 <= i < j < |ts| ==> ts[i] < ts[j]
  }

  ghost predicate EndsAt(s: seq<Entry>, i: nat, t: int)
    requires i <= |s|
  {
    exists k :: 0 <= k < i && ScanEnd(s[k].ev) && s[k].ev.ts == t
  }

  lemma {:induction false} TimesAre(s: seq<Entry>, i: nat)
    requires i <= |s| && Ascending(s)
    ensures Increasing(TimesUpTo(s, i))
    ensures forall t :: t in TimesUpTo(s, i) <==> EndsAt(s, i, t)
  {
    if i > 0 {
      TimesAre(s, i - 1);
      var before, last := TimesUpTo(s, i - 1), s[i - 1];
      forall t ensures t in TimesUpTo(s, i) <==> EndsAt(s, i, t) {
        assert EndsAt(s, i, t) <==> EndsAt(s, i - 1, t) || (ScanEnd(last.ev) && last.ev.ts == t);
      }
      forall k | 0 <= k < |before| ensures before[k] <= last.ev.ts {
        assert EndsAt(s, i - 1, before[k]);
        var j :| 0 <= j < i - 1 && s[j].ev.ts == before[k];
        assert !Before(s[i - 1], s[j]);
      }
    }
  }

  /** Scan times are the instants at which some line surfaced or remediated, each once, in order. */
  lemma ScanTimesAre(log: seq<Entry>)
    ensures Increasing(ScanTimes(log))
    ensures forall t :: t in ScanTimes(log) <==> exists e :: e in log && (e.ev.kind == Surfaced || e.ev.kind == Remediated) && e.ev.ts == t
  {
    SortedSorts(log);
    var s := Sorted(log);
    TimesAre(s, |s|);
    forall t ensures t in ScanTimes(log) <==> exists e :: e in log && ScanEnd(e.ev) && e.ev.ts == t {
      assert forall e :: e in log <==> e in multiset(s);
      if EndsAt(s, |s|, t) {
        var k :| 0 <= k < |s| && ScanEnd(s[k].ev) && s[k].ev.ts == t;
        assert s[k] in log;
      }
      if exists e :: e in log && ScanEnd(e.ev) && e.ev.ts == t {
        var e :| e in log && ScanEnd(e.ev) && e.ev.ts == t;
        assert e in s;
      }
    }
  }

  lemma {:induction false} IncreasingUnique(a: seq<int>, b: seq<int>)
    requires Increasing(a) && Increasing(b) && forall t :: t in a <==> t in b
    ensures a == b
    decreases |a|
  {
    if b != [] {
      assert b[0] in b;
    }
    if a != [] {
      assert a[0] in a;
      assert a[0] == b[0];
      forall t ensures t in a[1..] <==> t in b[1..] {
        assert t in a <==> t == a[0] || t in a[1..];
        assert t in b <==> t == b[0] || t in b[1..];
      }
      IncreasingUnique(a[1..], b[1..]);
      assert a == [a[0]] + a[1..] && b == [b[0]] + b[1..];
    }
  }

  // ---------------------------------------------------------------------
  // What the document states
  // ---------------------------------------------------------------------

  function EarlierUpTo(log: seq<Entry>, t: int, i: nat): seq<Entry>
    requires i <= |log|
  {
    if i == 0 then []
    else
      var before := EarlierUpTo(log, t, i - 1);
      if log[i - 1].ev.ts <= t then before + [log[i - 1]] else before
  }

  /** The part of a log at or before an instant. */
  function Earlier(log: seq<Entry>, t: int): seq<Entry> {
    EarlierUpTo(log, t, |log|)
  }

  function Boundary(times: seq<int>): Option<int> {
    if |times| >= 2 then Some(times[|times| - 2]) else None
  }

  /** The counters at the end of a whole computation. */
  function OpenAfter(evs: seq<Event>): map<string, int> {
    match Tallied(evs)
    case Failure(_) => map[]
    case Success(c) => c.open
  }

  /** The document, with `previous` from a second computation over the earlier lines. */
  function Computed(log: seq<Entry>): Result<Doc, MetricsError> {
    match Tallied(EventsOf(Visited(log)))
    case Failure(e) => Failure(e)
    case Success(c) =>
      var past := Boundary(ScanTimes(log));
      Success(Doc(c.flow, c.resolve, c.triage, c.remediated, ScanTimes(log), c.open,
                  if past.None? then None else Some(OpenAfter(EventsOf(Visited(Earlier(log, past.value)))))))
  }

  // ---------------------------------------------------------------------
  // One pass
  // ---------------------------------------------------------------------

  datatype Pass = Pass(c: Counts, previous: Option<map<string, int>>)

  function Snapped(p: Pass, has: bool): Pass {
    if p.previous.Some? || !has then p else p.(previous := Some(p.c.open))
  }

  function Onward(p: Pass, past: Option<int>, ev: Event): Result<Pass, MetricsError> {
    var q := Snapped(p, past.Some? && ev.ts > past.value);
    match Count(q.c, ev)
    case Failure(e) => Failure(e)
    case Success(c) => Success(Pass(c, q.previous))
  }

  function PassUpTo(past: Option<int>, evs: seq<Event>, i: nat): Result<Pass, MetricsError>
    requires i <= |evs|
  {
    if i == 0 then Success(Pass(NOTHING, None))
    else
      match PassUpTo(past, evs, i - 1)
      case Failure(e) => Failure(e)
      case Success(p) => Onward(p, past, evs[i - 1])
  }

  lemma {:induction false} PassPrefix(past: Option<int>, a: seq<Event>, b: seq<Event>, i: nat)
    requires i <= |a| && a <= b
    ensures PassUpTo(past, b, i) == PassUpTo(past, a, i)
  {
    if i > 0 {
      PassPrefix(past, a, b, i - 1);
    }
  }

  /** How many leading events are at or before an instant. */
  function Cut(evs: seq<Event>, t: int, i: nat): (k: nat)
    requires i <= |evs|
    ensures k <= i
    ensures forall j :: 0 <= j < k ==> evs[j].ts <= t
    ensures k < i ==> evs[k].ts > t
  {
    if i == 0 then 0
    else
      var k := Cut(evs, t, i - 1);
      if k == i - 1 && evs[i - 1].ts <= t then i else k
  }

  ghost predicate Took(past: Option<int>, evs: seq<Event>, i: nat, previous: Option<map<string, int>>)
    requires i <= |evs|
  {
    if past.None? || Cut(evs, past.value, i) == i then previous == None
    else
      var k := Cut(evs, past.value, i);
      CountUpTo(evs, k).Success? && previous == Some(CountUpTo(evs, k).value.open)
  }

  /** The pass folds like the plain computation, and its snapshot is the cut's. */
  lemma {:induction false} PassIs(past: Option<int>, evs: seq<Event>, i: nat)
    requires i <= |evs| && InTimeOrder(evs)
    ensures match PassUpTo(past, evs, i)
      case Failure(e) => CountUpTo(evs, i) == Failure(e)
      case Success(p) => CountUpTo(evs, i) == Success(p.c) && Took(past, evs, i, p.previous)
  {
    if i > 0 {
      PassIs(past, evs, i - 1);
      if PassUpTo(past, evs, i - 1).Success? {
        PassNext(past, evs, i - 1, PassUpTo(past, evs, i - 1).value);
      }
    }
  }

  lemma PassNext(past: Option<int>, evs: seq<Event>, i: nat, p: Pass)
    requires i < |evs| && InTimeOrder(evs) && CountUpTo(evs, i) == Success(p.c) && Took(past, evs, i, p.previous)
    ensures match Onward(p, past, evs[i])
      case Failure(e) => CountUpTo(evs, i + 1) == Failure(e)
      case Success(q) => CountUpTo(evs, i + 1) == Success(q.c) && Took(past, evs, i + 1, q.previous)
  {
    if past.Some? {
      var k := Cut(evs, past.value, i);
      if k < i {
        assert evs[k].ts <= evs[i].ts;
      }
      assert Cut(evs, past.value, i + 1) == if k == i && evs[i].ts <= past.value then i + 1 else k;
    }
  }

  /** At the end the snapshot is the computation over the events up to the boundary. */
  lemma {:induction false} SnapshotIsPast(past: int, evs: seq<Event>)
    requires InTimeOrder(evs) && PassUpTo(Some(past), evs, |evs|).Success?
    ensures var p := PassUpTo(Some(past), evs, |evs|).value;
      Snapped(p, true).previous == Some(OpenAfter(evs[..Cut(evs, past, |evs|)]))
  {
    PassIs(Some(past), evs, |evs|);
    var k := Cut(evs, past, |evs|);
    CountPrefix(evs[..k], evs, k);
  }

  // ---------------------------------------------------------------------
  // The cut of the visited events is the visit of the earlier lines
  // ---------------------------------------------------------------------

  lemma {:induction false} EarlierMembers(log: seq<Entry>, t: int, i: nat)
    requires i <= |log|
    ensures forall e :: e in EarlierUpTo(log, t, i) <==> e in log[..i] && e.ev.ts <= t
  {
    if i > 0 {
      EarlierMembers(log, t, i - 1);
      assert log[..i] == log[..i - 1] + [log[i - 1]];
    }
  }

  lemma StrictInTimeOrder(s: seq<Entry>)
    requires StrictlyAscending(s)
    ensures InTimeOrder(EventsOf(s))
  {
    forall i, j | 0 <= i < j < |s| ensures s[i].ev.ts <= s[j].ev.ts {
      assert Before(s[i], s[j]);
    }
  }

  lemma EarlierCoherent(log: seq<Entry>, t: int)
    requires Coherent(log)
    ensures Coherent(Earlier(log, t))
  {
    EarlierMembers(log, t, |log|);
    var a := Earlier(log, t);
    assert log[..|log|] == log;
    forall i, j | 0 <= i < |a| && 0 <= j < |a| && a[i].raw == a[j].raw ensures a[i] == a[j] {
      assert a[i] in log && a[j] in log;
    }
  }

  lemma {:induction false} VisitedEarlier(log: seq<Entry>, t: int)
    requires Coherent(log)
    ensures var evs := EventsOf(Visited(log));
      EventsOf(Visited(Earlier(log, t))) == evs[..Cut(evs, t, |evs|)]
  {
    VisitedOrders(log);
    EarlierCoherent(log, t);
    VisitedOrders(Earlier(log, t));
    EarlierMembers(log, t, |log|);
    assert log[..|log|] == log;
    var v, evs := Visited(log), EventsOf(Visited(log));
    StrictInTimeOrder(v);
    var k := Cut(evs, t, |evs|);
    CutMembers(v, t, k);
    AscendingUnique(v[..k], Visited(Earlier(log, t)));
  }

  lemma {:induction false} CutMembers(v: seq<Entry>, t: int, k: nat)
    requires InTimeOrder(EventsOf(v)) && k == Cut(EventsOf(v), t, |v|)
    ensures forall e :: e in v[..k] <==> e in v && e.ev.ts <= t
  {
    var evs := EventsOf(v);
    forall j | 0 <= j < |v| ensures j < k <==> v[j].ev.ts <= t {
      if k <= j {
        assert evs[k].ts <= evs[j].ts;
      } else {
        assert evs[j].ts <= t;
      }
    }
  }

  /** One pass over the log computes the document, second computation included. */
  lemma OnePassComputes(log: seq<Entry>)
    requires Coherent(log)
    ensures var evs, past := EventsOf(Visited(log)), Boundary(ScanTimes(log));
      match PassUpTo(past, evs, |evs|)
      case Failure(e) => Computed(log) == Failure(e)
      case Success(p) =>
        Computed(log) == Success(Doc(p.c.flow, p.c.resolve, p.c.triage, p.c.remediated, ScanTimes(log), p.c.open,
                                     Snapped(p, past.Some?).previous))
  {
    var evs, past := EventsOf(Visited(log)), Boundary(ScanTimes(log));
    VisitedOrders(log);
    StrictInTimeOrder(Visited(log));
    PassIs(past, evs, |evs|);
    if past.Some? {
      VisitedEarlier(log, past.value);
      if PassUpTo(past, evs, |evs|).Success? {
        SnapshotIsPast(past.value, evs);
      }
    }
  }

  /** Every lag in the document is at least zero. */
  lemma DocumentLags(log: seq<Entry>)
    requires Coherent(log) && Computed(log).Success?
    ensures var doc := Computed(log).value;
      && (forall k :: 0 <= k < |doc.resolve| ==> doc.resolve[k].hours >= 0.0)
      && (forall k :: 0 <= k < |doc.triage| ==> doc.triage[k].hours >= 0.0)
  {
    var evs := EventsOf(Visited(log));
    VisitedOrders(log);
    StrictInTimeOrder(Visited(log));
    LagsNeverNegative(evs, |evs|);
  }

  /** The document depends on nothing but the set of lines. */
  lemma DocumentDependsOnLineSet(a: seq<Entry>, b: seq<Entry>)
    requires Coherent(a) && Coherent(b)
    requires forall e :: e in a <==> e in b
    ensures Computed(a) == Computed(b)
  {
    VisitedDependsOnLineSet(a, b);
    ScanTimesAre(a);
    ScanTimesAre(b);
    IncreasingUnique(ScanTimes(a), ScanTimes(b));
    var past := Boundary(ScanTimes(a));
    if past.Some? {
      EarlierMembers(a, past.value, |a|);
      EarlierMembers(b, past.value, |b|);
      assert a[..|a|] == a && b[..|b|] == b;
      EarlierCoherent(a, past.value);
      EarlierCoherent(b, past.value);
      VisitedDependsOnLineSet(Earlier(a, past.value), Earlier(b, past.value));
    }
  }

  lemma PrefixSucceeds(evs: seq<Event>, k: nat)
    requires k <= |evs| && Tallied(evs).Success?
    ensures Tallied(evs[..k]).Success?
  {
    CountPrefix(evs[..k], evs, k);
    if CountUpTo(evs, k).Failure? {
      FailureStays(evs, k, |evs|);
    }
  }

  /** What was counted before the boundary is the earlier log's own current count. */
  lemma PreviousIsCurrentThen(log: seq<Entry>)
    requires Coherent(log) && Computed(log).Success? && |ScanTimes(log)| >= 2
    ensures var earlier := Earlier(log, ScanTimes(log)[|ScanTimes(log)| - 2]);
      Computed(earlier).Success? && Computed(log).value.previous == Some(Computed(earlier).value.current)
  {
    var t, evs := ScanTimes(log)[|ScanTimes(log)| - 2], EventsOf(Visited(log));
    VisitedEarlier(log, t);
    PrefixSucceeds(evs, Cut(evs, t, |evs|));
  }
}
