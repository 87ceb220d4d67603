/**
 Rows of the derived state (internal/store/findings.go), the list operations the
 folds share, and the life of one fingerprint: what a single event does to the
 attributes that replay promises to restore.
 */
module Findings {
  import opened Wrappers
  import opened Events

  datatype Location = Location(path: string, line: int)

  /** open, confirmed, dismissed, deferred and suppressed, in that order. */
  datatype Status = Open | Confirmed | Dismissed | Postponed | Silenced

  datatype Verdict = Verdict(verdict: string, confidence: string, reason: string,
                             sources: seq<Source>, at: int, author: string)

  datatype Finding = Finding(
    fp: string, displayId: string, ruleKey: string, ruleId: string, scanner: string,
    also: seq<string>, secret: bool, dev: bool, collapsedWith: seq<string>,
    severity: string, description: string, locs: seq<Location>,
    detectedAt: int, lastSeen: int, status: Status, verdict: Option<Verdict>, inBaseline: bool)

  datatype Item = Item(id: string, itemKind: string, question: string, about: string,
                       raisedAt: int, raisedBy: string)

  /** A *Finding: lists and indexes share these cells. */
  class FindingRef {
    var val: Finding

    constructor (v: Finding)
      ensures val == v
    {
      val := v;
    }
  }

  function Values(cells: seq<FindingRef>): (vs: seq<Finding>)
    reads cells
    ensures |vs| == |cells|
    ensures forall i :: 0 <= i < |cells| ==> vs[i] == cells[i].val
  {
    seq(|cells|, i requires 0 <= i < |cells| reads cells => cells[i].val)
  }

  ghost predicate DistinctCells(cells: seq<FindingRef>) {
    forall i, j :: 0 <= i < j < |cells| ==> cells[i] != cells[j]
  }

  predicate Actionable(f: Finding) {
    f.status == Open || f.status == Confirmed
  }

  predicate Contains(s: string, sub: string) {
    exists i | 0 <= i <= |s| :: sub <= s[i..]
  }

  // ---------------------------------------------------------------------
  // Lists of findings, indexed by fingerprint
  // ---------------------------------------------------------------------

  function LatestUpTo(fs: seq<Finding>, fp: string, i: nat): (k: int)
    requires i <= |fs|
    ensures -1 <= k < i
    ensures k >= 0 ==> fs[k].fp == fp
    ensures forall j :: k < j < i ==> fs[j].fp != fp
  {
    if i == 0 then -1
    else if fs[i - 1].fp == fp then i - 1
    else LatestUpTo(fs, fp, i - 1)
  }

  /** Where a map filled front to back points: the last row with the fingerprint, or -1. */
  function Latest(fs: seq<Finding>, fp: string): (k: int)
    ensures -1 <= k < |fs|
    ensures k >= 0 ==> fs[k].fp == fp
    ensures forall j :: k < j < |fs| ==> fs[j].fp != fp
  {
    LatestUpTo(fs, fp, |fs|)
  }

  predicate Known(fs: seq<Finding>, fp: string) {
    Latest(fs, fp) >= 0
  }

  ghost predicate Unique(fs: seq<Finding>) {
    forall i, j :: 0 <= i < j < |fs| ==> fs[i].fp != fs[j].fp
  }

  predicate HasLoc(locs: seq<Location>, l: Location) {
    l in locs
  }

  function AddLoc(locs: seq<Location>, l: Location): seq<Location> {
    if HasLoc(locs, l) then locs else locs + [l]
  }

  lemma LatestIsThe(fs: seq<Finding>, fp: string, k: int)
    requires -1 <= k < |fs|
    requires k >= 0 ==> fs[k].fp == fp
    requires forall j :: k < j < |fs| ==> fs[j].fp != fp
    ensures Latest(fs, fp) == k
  {
  }

  lemma LatestIs(fs: seq<Finding>, k: int)
    requires 0 <= k < |fs| && Unique(fs)
    ensures Latest(fs, fs[k].fp) == k
  {
  }

  /** Overwriting a row without touching its fingerprint leaves the index alone. */
  lemma LatestUpdate(fs: seq<Finding>, k: int, f: Finding, fp: string)
    requires 0 <= k < |fs| && f.fp == fs[k].fp
    ensures Latest(fs[k := f], fp) == Latest(fs, fp)
  {
    LatestIsThe(fs[k := f], fp, Latest(fs, fp));
  }

  lemma LatestAppend(fs: seq<Finding>, f: Finding, fp: string)
    ensures Latest(fs + [f], fp) == if f.fp == fp then |fs| else Latest(fs, fp)
  {
    LatestIsThe(fs + [f], fp, if f.fp == fp then |fs| else Latest(fs, fp));
  }

  function Without(fs: seq<Finding>, k: nat): seq<Finding>
    requires k < |fs|
  {
    fs[..k] + fs[k + 1..]
  }

  lemma LatestWithout(fs: seq<Finding>, k: nat, fp: string)
    requires k < |fs| && Unique(fs)
    ensures Unique(Without(fs, k))
    ensures fp == fs[k].fp ==> Latest(Without(fs, k), fp) == -1
    ensures fp != fs[k].fp ==>
      Latest(Without(fs, k), fp) == (if Latest(fs, fp) > k then Latest(fs, fp) - 1 else Latest(fs, fp))
  {
    var w := Without(fs, k);
    assert forall i :: 0 <= i < |w| ==> w[i] == fs[if i < k then i else i + 1];
    if fp == fs[k].fp {
      LatestIsThe(w, fp, -1);
    } else {
      var a := Latest(fs, fp);
      LatestIsThe(w, fp, if a > k then a - 1 else a);
    }
  }

  // ---------------------------------------------------------------------
  // What replay restores of a row
  // ---------------------------------------------------------------------

  datatype Row = Row(ruleId: string, scanner: string, severity: string, description: string,
                     also: seq<string>, dev: bool, status: Status, verdict: Option<Verdict>,
                     detected: int, places: set<Location>)

  function Places(locs: seq<Location>): set<Location> {
    set l | l in locs
  }

  function WholeSeconds(v: Option<Verdict>): Option<Verdict> {
    if v.None? then None else Some(v.value.(at := Second(v.value.at)))
  }

  function RowOf(f: Finding): Row {
    Row(f.ruleId, f.scanner, f.severity, f.description, f.also, f.dev, f.status,
        WholeSeconds(f.verdict), Second(f.detectedAt), Places(f.locs))
  }

  function Look(fs: seq<Finding>, fp: string): Option<Row> {
    var k := Latest(fs, fp);
    if k < 0 then None else Some(RowOf(fs[k]))
  }

  /** Two lists hold the same findings, as far as replay restores them. */
  ghost predicate Agree(a: seq<Finding>, b: seq<Finding>) {
    forall fp :: Look(a, fp) == Look(b, fp)
  }

  function VerdictOf(ev: Event): Verdict
    requires ev.payload.TriagedData?
  {
    var d := ev.payload;
    Verdict(d.verdict, d.confidence, d.reason, d.sources, ev.ts, ev.actor)
  }

  function StatusOf(verdict: string): Status {
    if verdict == "dismissed" then Dismissed else Confirmed
  }

  function Birth(ev: Event): Row
    requires ev.payload.DetectedData?
  {
    var d := ev.payload;
    Row(d.rule, d.scanner, d.severity, d.description, d.also, d.dev, Open, None,
        Second(ev.ts), {Location(d.path, d.line)})
  }

  /** The effect of one event on one fingerprint, on its own. */
  function Life(fp: string, row: Option<Row>, ev: Event): Option<Row> {
    if ev.fp != fp then row
    else
      match ev.kind
      case Detected =>
        if !ev.payload.DetectedData? then row
        else if row.None? then Some(Birth(ev))
        else Some(row.value.(places := row.value.places + {Location(ev.payload.path, ev.payload.line)}))
      case Triaged =>
        if row.None? || !ev.payload.TriagedData? then row
        else Some(row.value.(status := StatusOf(ev.payload.verdict), verdict := WholeSeconds(Some(VerdictOf(ev)))))
      case Suppressed => if row.None? then None else Some(row.value.(status := Silenced))
      case Deferred => if row.None? then None else Some(row.value.(status := Postponed))
      case Remediated => None
      case _ => row
  }

  function LivesUpTo(fp: string, row: Option<Row>, evs: seq<Event>, i: nat): Option<Row>
    requires i <= |evs|
  {
    if i == 0 then row else Life(fp, LivesUpTo(fp, row, evs, i - 1), evs[i - 1])
  }

  /** The effect of a sequence of events on one fingerprint. */
  function Lives(fp: string, row: Option<Row>, evs: seq<Event>): Option<Row> {
    LivesUpTo(fp, row, evs, |evs|)
  }

  lemma {:induction false} LivesPrefix(fp: string, row: Option<Row>, a: seq<Event>, b: seq<Event>, i: nat)
    requires i <= |a| && a <= b
    ensures LivesUpTo(fp, row, b, i) == LivesUpTo(fp, row, a, i)
  {
    if i > 0 {
      LivesPrefix(fp, row, a, b, i - 1);
    }
  }

  lemma LivesOne(fp: string, row: Option<Row>, evs: seq<Event>, e: Event)
    ensures Lives(fp, row, evs + [e]) == Life(fp, Lives(fp, row, evs), e)
  {
    LivesPrefix(fp, row, evs, evs + [e], |evs|);
  }

  lemma {:induction false} LivesConcat(fp: string, row: Option<Row>, a: seq<Event>, b: seq<Event>)
    ensures Lives(fp, row, a + b) == Lives(fp, Lives(fp, row, a), b)
  {
    LivesPrefix(fp, row, a, a + b, |a|);
    LivesShift(fp, row, a, b, |b|);
  }

  lemma {:induction false} LivesShift(fp: string, row: Option<Row>, a: seq<Event>, b: seq<Event>, i: nat)
    requires i <= |b|
    ensures LivesUpTo(fp, row, a + b, |a| + i) == LivesUpTo(fp, LivesUpTo(fp, row, a + b, |a|), b, i)
  {
    if i > 0 {
      LivesShift(fp, row, a, b, i - 1);
    }
  }
}
