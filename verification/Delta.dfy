/**
 The delta fold of one scan (internal/scan/delta.go) as a function: the rows it
 leaves behind and the events it emits, in append order. `Fold.dfy` proves the
 pointer-updating routine equal to it.
 */
module Delta {
  import opened Wrappers
  import opened Events
  import opened Findings

  datatype Merged = Merged(
    fp: string, ruleId: string, ruleKey: string, cwe: string, severity: string, description: string,
    scanner: string, also: seq<string>, collapsedWith: seq<string>, secret: bool, dev: bool, db: bool,
    locs: seq<Location>)

  datatype Coverage = Coverage(scanners: seq<string>, allPaths: bool, paths: set<string>)

  datatype Options = Options(env: Envelope, context: string, dbDigest: string)

  datatype FoldResult = FoldResult(events: seq<Event>, findings: seq<Finding>)

  const REASON := "absent from a scan that ran the originating scanner and covered every location"

  predicate Covers(cov: Coverage, path: string) {
    cov.allPaths || path in cov.paths
  }

  predicate CoveredUpTo(cov: Coverage, locs: seq<Location>, i: nat)
    requires i <= |locs|
  {
    i == 0 || (CoveredUpTo(cov, locs, i - 1) && Covers(cov, locs[i - 1].path))
  }

  predicate Covered(cov: Coverage, locs: seq<Location>) {
    CoveredUpTo(cov, locs, |locs|)
  }

  // ---------------------------------------------------------------------
  // Events
  // ---------------------------------------------------------------------

  function DetectedEvent(t: int, o: Options, m: Merged, l: Location): Event {
    Make(t, o.env, Detected, m.fp,
         DetectedData(m.ruleId, m.severity, l.path, l.line, m.description, m.scanner, m.collapsedWith, m.dev,
                      if m.db then o.dbDigest else ""))
  }

  function RemediatedEvent(t: int, o: Options, fp: string): Event {
    Make(t, o.env, Remediated, fp, ReasonedData(REASON))
  }

  function SurfacedEvent(t: int, o: Options, fp: string): Event {
    Make(t, o.env, Surfaced, fp, SurfacedData(o.context))
  }

  // ---------------------------------------------------------------------
  // First pass: merge the observations into the list
  // ---------------------------------------------------------------------

  datatype Pass = Pass(fs: seq<Finding>, evs: seq<Event>)

  function LocsUpTo(locs: seq<Location>, seen: seq<Location>, i: nat): seq<Location>
    requires i <= |seen|
  {
    if i == 0 then locs else AddLoc(LocsUpTo(locs, seen, i - 1), seen[i - 1])
  }

  /** Detected events for the locations the row did not have. */
  function NewSights(t: int, o: Options, m: Merged, locs: seq<Location>, i: nat): seq<Event>
    requires i <= |m.locs|
  {
    if i == 0 then []
    else
      var before := NewSights(t, o, m, locs, i - 1);
      if HasLoc(LocsUpTo(locs, m.locs, i - 1), m.locs[i - 1]) then before
      else before + [DetectedEvent(t, o, m, m.locs[i - 1])]
  }

  /** Detected events for every location of a fingerprint seen for the first time. */
  function FirstSights(t: int, o: Options, m: Merged, i: nat): seq<Event>
    requires i <= |m.locs|
  {
    if i == 0 then [] else FirstSights(t, o, m, i - 1) + [DetectedEvent(t, o, m, m.locs[i - 1])]
  }

  function Refreshed(f: Finding, m: Merged, t: int): Finding {
    f.(lastSeen := t, locs := LocsUpTo(f.locs, m.locs, |m.locs|))
  }

  function Newborn(m: Merged, t: int, inBaseline: bool): Finding {
    Finding(m.fp, "", m.ruleKey, m.ruleId, m.scanner, m.collapsedWith, m.secret, m.dev, m.collapsedWith,
            m.severity, m.description, m.locs, t, t, Open, None, inBaseline)
  }

  function MergeOne(p: Pass, baseline: seq<string>, m: Merged, o: Options, t: int): Pass {
    var k := Latest(p.fs, m.fp);
    if k >= 0 then
      Pass(p.fs[k := Refreshed(p.fs[k], m, t)], p.evs + NewSights(t, o, m, p.fs[k].locs, |m.locs|))
    else
      Pass(p.fs + [Newborn(m, t, m.fp in baseline)],
           p.evs + if m.fp in baseline then [] else FirstSights(t, o, m, |m.locs|))
  }

  function MergeUpTo(fs: seq<Finding>, baseline: seq<string>, merged: seq<Merged>, o: Options, t: int, i: nat): Pass
    requires i <= |merged|
  {
    if i == 0 then Pass(fs, [])
    else MergeOne(MergeUpTo(fs, baseline, merged, o, t, i - 1), baseline, merged[i - 1], o, t)
  }

  /** Induction along the first pass. */
  lemma {:induction false} MergeInduction(fs: seq<Finding>, baseline: seq<string>, merged: seq<Merged>, o: Options, t: int,
                                          good: (nat, Pass) -> bool, n: nat)
    requires n <= |merged| && good(0, Pass(fs, []))
    requires forall i: nat, j: nat, p: Pass :: j == i + 1 && j <= n && good(i, p) ==>
      good(j, MergeOne(p, baseline, merged[i], o, t))
    ensures good(n, MergeUpTo(fs, baseline, merged, o, t, n))
  {
    if n > 0 {
      MergeInduction(fs, baseline, merged, o, t, good, n - 1);
      var p := MergeUpTo(fs, baseline, merged, o, t, n - 1);
      assert good(n, MergeOne(p, baseline, merged[n - 1], o, t));
    }
  }

  // ---------------------------------------------------------------------
  // Second pass: remediation; third pass: what was surfaced
  // ---------------------------------------------------------------------

  function SeenUpTo(merged: seq<Merged>, i: nat): set<string>
    requires i <= |merged|
  {
    if i == 0 then {} else SeenUpTo(merged, i - 1) + {merged[i - 1].fp}
  }

  /** Absence proves remediation only under coverage. */
  predicate Gone(f: Finding, seen: set<string>, cov: Coverage) {
    f.fp !in seen && f.scanner in cov.scanners && Covered(cov, f.locs)
  }

  function KeptUpTo(fs: seq<Finding>, seen: set<string>, cov: Coverage, i: nat): seq<Finding>
    requires i <= |fs|
  {
    if i == 0 then []
    else
      var before := KeptUpTo(fs, seen, cov, i - 1);
      if Gone(fs[i - 1], seen, cov) then before else before + [fs[i - 1]]
  }

  function GoneUpTo(fs: seq<Finding>, seen: set<string>, cov: Coverage, o: Options, t: int, i: nat): seq<Event>
    requires i <= |fs|
  {
    if i == 0 then []
    else
      var before := GoneUpTo(fs, seen, cov, o, t, i - 1);
      if Gone(fs[i - 1], seen, cov) then before + [RemediatedEvent(t, o, fs[i - 1].fp)] else before
  }

  predicate Presented(fs: seq<Finding>, fp: string) {
    var k := Latest(fs, fp);
    k >= 0 && Actionable(fs[k])
  }

  function SurfacedUpTo(fs: seq<Finding>, merged: seq<Merged>, o: Options, t: int, i: nat): seq<Event>
    requires i <= |merged|
  {
    if i == 0 then []
    else
      var before := SurfacedUpTo(fs, merged, o, t, i - 1);
      if Presented(fs, merged[i - 1].fp) then before + [SurfacedEvent(t, o, merged[i - 1].fp)] else before
  }

  /** The fold, when every event it constructs is accepted. */
  function Folded(fs: seq<Finding>, baseline: seq<string>, merged: seq<Merged>, cov: Coverage, o: Options, t: int): FoldResult {
    var p := MergeUpTo(fs, baseline, merged, o, t, |merged|);
    var seen := SeenUpTo(merged, |merged|);
    FoldResult(
      p.evs + GoneUpTo(p.fs, seen, cov, o, t, |p.fs|) + SurfacedUpTo(p.fs, merged, o, t, |merged|),
      KeptUpTo(p.fs, seen, cov, |p.fs|))
  }

  predicate AllValid(evs: seq<Event>) {
    forall i :: 0 <= i < |evs| ==> Valid(evs[i])
  }

  predicate Accepted(fs: seq<Finding>, baseline: seq<string>, merged: seq<Merged>, cov: Coverage, o: Options, t: int) {
    AllValid(Folded(fs, baseline, merged, cov, o, t).events)
  }
}
