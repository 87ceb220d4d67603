/**
 What the fold of one scan proves, records and presents, and that folding the same
 result again changes nothing (delta.go:54-125).
 */
module Scans {
  import opened Events
  import opened Findings
  import opened Delta
  import opened Refine

  // ---------------------------------------------------------------------
  // Rows a scan did not see
  // ---------------------------------------------------------------------

  /** The row of a fingerprint is where it was, as it was. */
  predicate Untouched(fs: seq<Finding>, p: Pass, fp: string) {
    var k := Latest(fs, fp);
    Latest(p.fs, fp) == k && (k >= 0 ==> p.fs[k] == fs[k])
  }

  lemma OtherUntouched(fs: seq<Finding>, p: Pass, baseline: seq<string>, m: Merged, o: Options, t: int, fp: string)
    requires Untouched(fs, p, fp) && m.fp != fp
    ensures Untouched(fs, MergeOne(p, baseline, m, o, t), fp)
  {
    var k := Latest(p.fs, m.fp);
    if k >= 0 {
      LatestUpdate(p.fs, k, Refreshed(p.fs[k], m, t), fp);
    } else {
      LatestAppend(p.fs, Newborn(m, t, m.fp in baseline), fp);
    }
  }

  /** A fingerprint the scan did not see keeps its row through the merge pass. */
  lemma {:induction false} UnseenUntouched(fs: seq<Finding>, baseline: seq<string>, merged: seq<Merged>, o: Options, t: int, n: nat, fp: string)
    requires n <= |merged| && fp !in SeenUpTo(merged, n)
    ensures Untouched(fs, MergeUpTo(fs, baseline, merged, o, t, n), fp)
  {
    var good: (nat, Pass) -> bool := (i: nat, p: Pass) => Untouched(fs, p, fp);
    forall i: nat, j: nat, p: Pass | j == i + 1 && j <= n && good(i, p)
      ensures good(j, MergeOne(p, baseline, merged[i], o, t))
    {
      SeenMeans(merged, n, fp);
      OtherUntouched(fs, p, baseline, merged[i], o, t, fp);
    }
    MergeInduction(fs, baseline, merged, o, t, good, n);
  }

  lemma MergeOneUnique(p: Pass, baseline: seq<string>, m: Merged, o: Options, t: int)
    requires Unique(p.fs)
    ensures Unique(MergeOne(p, baseline, m, o, t).fs)
  {
  }

  lemma {:induction false} MergeUnique(fs: seq<Finding>, baseline: seq<string>, merged: seq<Merged>, o: Options, t: int, n: nat)
    requires n <= |merged| && Unique(fs)
    ensures Unique(MergeUpTo(fs, baseline, merged, o, t, n).fs)
  {
    var good: (nat, Pass) -> bool := (i: nat, p: Pass) => Unique(p.fs);
    forall i: nat, j: nat, p: Pass | j == i + 1 && j <= n && good(i, p)
      ensures good(j, MergeOne(p, baseline, merged[i], o, t))
    {
      MergeOneUnique(p, baseline, merged[i], o, t);
    }
    MergeInduction(fs, baseline, merged, o, t, good, n);
  }

  /** The scan proves the row gone: not seen, its scanner ran, and every recorded location was covered. */
  predicate Proves(fs: seq<Finding>, fp: string, merged: seq<Merged>, cov: Coverage) {
    var k := Latest(fs, fp);
    && k >= 0
    && (forall i :: 0 <= i < |merged| ==> merged[i].fp != fp)
    && fs[k].scanner in cov.scanners
    && (forall l :: l in fs[k].locs ==> cov.allPaths || l.path in cov.paths)
  }

  lemma {:induction false} CoveredMeans(cov: Coverage, locs: seq<Location>, i: nat)
    requires i <= |locs|
    ensures CoveredUpTo(cov, locs, i) <==> forall l :: l in locs[..i] ==> cov.allPaths || l.path in cov.paths
  {
    if i > 0 {
      CoveredMeans(cov, locs, i - 1);
      assert locs[..i] == locs[..i - 1] + [locs[i - 1]];
    }
  }

  /** That is what the fold looks at. */
  lemma {:induction false} ProvesIsGone(fs: seq<Finding>, fp: string, merged: seq<Merged>, cov: Coverage)
    ensures var k := Latest(fs, fp);
      Proves(fs, fp, merged, cov) <==> k >= 0 && Gone(fs[k], SeenUpTo(merged, |merged|), cov)
  {
    var k := Latest(fs, fp);
    SeenMeans(merged, |merged|, fp);
    if k >= 0 {
      CoveredMeans(cov, fs[k].locs, |fs[k].locs|);
      assert fs[k].locs[..|fs[k].locs|] == fs[k].locs;
    }
  }

  /** After a scan a known fingerprint is unknown exactly when the scan proved it gone. */
  lemma LeavesIffProved(fs: seq<Finding>, baseline: seq<string>, merged: seq<Merged>, cov: Coverage, o: Options, t: int, fp: string)
    requires Unique(fs) && Known(fs, fp)
    ensures Known(Folded(fs, baseline, merged, cov, o, t).findings, fp) <==> !Proves(fs, fp, merged, cov)
  {
    var p, seen := MergeUpTo(fs, baseline, merged, o, t, |merged|), SeenUpTo(merged, |merged|);
    MergeUnique(fs, baseline, merged, o, t, |merged|);
    KnownUpTo(fs, baseline, merged, o, t, |merged|, fp);
    KeptLook(p.fs, seen, cov, |p.fs|, fp);
    ProvesIsGone(fs, fp, merged, cov);
    if fp !in seen {
      UnseenUntouched(fs, baseline, merged, o, t, |merged|, fp);
    }
  }

  lemma FoldUnique(fs: seq<Finding>, baseline: seq<string>, merged: seq<Merged>, cov: Coverage, o: Options, t: int)
    requires Unique(fs)
    ensures Unique(Folded(fs, baseline, merged, cov, o, t).findings)
  {
    var p := MergeUpTo(fs, baseline, merged, o, t, |merged|);
    MergeUnique(fs, baseline, merged, o, t, |merged|);
    KeptUnique(p.fs, SeenUpTo(merged, |merged|), cov, |p.fs|);
  }

  // ---------------------------------------------------------------------
  // Remediated events
  // ---------------------------------------------------------------------

  function Remediations(evs: seq<Event>, fp: string, i: nat): nat
    requires i <= |evs|
  {
    if i == 0 then 0
    else Remediations(evs, fp, i - 1) + if evs[i - 1].kind == Remediated && evs[i - 1].fp == fp then 1 else 0
  }

  lemma {:induction false} RemediationsPrefix(a: seq<Event>, b: seq<Event>, fp: string, i: nat)
    requires i <= |a| && a <= b
    ensures Remediations(b, fp, i) == Remediations(a, fp, i)
  {
    if i > 0 {
      RemediationsPrefix(a, b, fp, i - 1);
    }
  }

  lemma {:induction false} RemediationsConcat(a: seq<Event>, b: seq<Event>, fp: string, i: nat)
    requires i <= |b|
    ensures Remediations(a + b, fp, |a| + i) == Remediations(a, fp, |a|) + Remediations(b, fp, i)
  {
    if i == 0 {
      RemediationsPrefix(a, a + b, fp, |a|);
    } else {
      RemediationsConcat(a, b, fp, i - 1);
    }
  }

  lemma {:induction false} RemediationsAdd(a: seq<Event>, b: seq<Event>, fp: string)
    ensures Remediations(a + b, fp, |a + b|) == Remediations(a, fp, |a|) + Remediations(b, fp, |b|)
  {
    RemediationsConcat(a, b, fp, |b|);
  }

  lemma {:induction false} NoRemediations(evs: seq<Event>, fp: string, i: nat)
    requires i <= |evs| && forall x :: x in evs ==> x.kind != Remediated
    ensures Remediations(evs, fp, i) == 0
  {
    if i > 0 {
      NoRemediations(evs, fp, i - 1);
      assert evs[i - 1] in evs;
    }
  }

  lemma {:induction false} GoneRemediations(fs: seq<Finding>, seen: set<string>, cov: Coverage, o: Options, t: int, i: nat, fp: string)
    requires i <= |fs| && Unique(fs)
    ensures var evs, k := GoneUpTo(fs, seen, cov, o, t, i), Latest(fs, fp);
      Remediations(evs, fp, |evs|) == if 0 <= k < i && Gone(fs[k], seen, cov) then 1 else 0
  {
    if i > 0 {
      GoneRemediations(fs, seen, cov, o, t, i - 1, fp);
      LatestIs(fs, i - 1);
      if Gone(fs[i - 1], seen, cov) {
        OneRemediation(GoneUpTo(fs, seen, cov, o, t, i - 1), RemediatedEvent(t, o, fs[i - 1].fp), fp);
      }
    }
  }

  lemma {:induction false} OneRemediation(evs: seq<Event>, ev: Event, fp: string)
    requires ev.kind == Remediated
    ensures Remediations(evs + [ev], fp, |evs| + 1) == Remediations(evs, fp, |evs|) + if ev.fp == fp then 1 else 0
  {
    RemediationsPrefix(evs, evs + [ev], fp, |evs|);
  }

  function CountAll(evs: seq<Event>, fp: string): nat {
    Remediations(evs, fp, |evs|)
  }

  lemma ThreeParts(a: seq<Event>, b: seq<Event>, c: seq<Event>, fp: string)
    ensures CountAll(a + b + c, fp) == CountAll(a, fp) + CountAll(b, fp) + CountAll(c, fp)
  {
    RemediationsAdd(a, b, fp);
    RemediationsAdd(a + b, c, fp);
  }

  /** A scan emits one remediated event for a fingerprint it proves gone, and none for any other. */
  lemma RemediatedOnceIffProved(fs: seq<Finding>, baseline: seq<string>, merged: seq<Merged>, cov: Coverage, o: Options, t: int, fp: string)
    requires Unique(fs)
    ensures CountAll(Folded(fs, baseline, merged, cov, o, t).events, fp) == if Proves(fs, fp, merged, cov) then 1 else 0
  {
    var p, seen := MergeUpTo(fs, baseline, merged, o, t, |merged|), SeenUpTo(merged, |merged|);
    var gone, shown := GoneUpTo(p.fs, seen, cov, o, t, |p.fs|), SurfacedUpTo(p.fs, merged, o, t, |merged|);
    ThreeParts(p.evs, gone, shown, fp);
    assert CountAll(p.evs, fp) == 0 by {
      MergeSights(fs, baseline, merged, o, t, |merged|);
      NoRemediations(p.evs, fp, |p.evs|);
    }
    assert CountAll(shown, fp) == 0 by {
      SurfacedEvents(p.fs, merged, o, t, |merged|);
      NoRemediations(shown, fp, |shown|);
    }
    assert CountAll(gone, fp) == if Proves(fs, fp, merged, cov) then 1 else 0 by {
      MergeUnique(fs, baseline, merged, o, t, |merged|);
      GoneRemediations(p.fs, seen, cov, o, t, |p.fs|, fp);
      ProvesIsGone(fs, fp, merged, cov);
      if fp !in seen {
        UnseenUntouched(fs, baseline, merged, o, t, |merged|, fp);
      }
    }
  }

  // ---------------------------------------------------------------------
  // Presentations
  // ---------------------------------------------------------------------

  lemma {:induction false} SurfacedAre(fs: seq<Finding>, merged: seq<Merged>, o: Options, t: int, i: nat, x: Event)
    requires i <= |merged|
    ensures x in SurfacedUpTo(fs, merged, o, t, i) <==>
            exists j :: 0 <= j < i && Presented(fs, merged[j].fp) && x == SurfacedEvent(t, o, merged[j].fp)
  {
    if i > 0 {
      SurfacedAre(fs, merged, o, t, i - 1, x);
    }
  }

  ghost predicate Surfaces(evs: seq<Event>, o: Options, t: int, fp: string) {
    SurfacedEvent(t, o, fp) in evs
  }

  /** A scan surfaces exactly the findings it saw that are open or confirmed, at its instant and in its context. */
  lemma SurfacedIff(fs: seq<Finding>, baseline: seq<string>, merged: seq<Merged>, cov: Coverage, o: Options, t: int, fp: string)
    requires Unique(fs)
    ensures var r := Folded(fs, baseline, merged, cov, o, t);
      Surfaces(r.events, o, t, fp) <==>
        && (exists j :: 0 <= j < |merged| && merged[j].fp == fp)
        && Look(r.findings, fp).Some?
        && (Look(r.findings, fp).value.status == Open || Look(r.findings, fp).value.status == Confirmed)
  {
    var p, seen := MergeUpTo(fs, baseline, merged, o, t, |merged|), SeenUpTo(merged, |merged|);
    var gone, shown := GoneUpTo(p.fs, seen, cov, o, t, |p.fs|), SurfacedUpTo(p.fs, merged, o, t, |merged|);
    var x := SurfacedEvent(t, o, fp);
    SurfacedAre(p.fs, merged, o, t, |merged|, x);
    assert x !in p.evs by { MergeSights(fs, baseline, merged, o, t, |merged|); }
    assert x !in gone by { GoneEvents(p.fs, seen, cov, o, t, |p.fs|); }
    assert x in p.evs + gone + shown <==> x in shown;
    SeenMeans(merged, |merged|, fp);
    MergeUnique(fs, baseline, merged, o, t, |merged|);
    KeptLook(p.fs, seen, cov, |p.fs|, fp);
  }

  // ---------------------------------------------------------------------
  // Folding the same result again
  // ---------------------------------------------------------------------

  /** The list already holds the observation, with all its locations. */
  predicate Absorbed(fs: seq<Finding>, m: Merged) {
    var k := Latest(fs, m.fp);
    k >= 0 && forall l :: l in m.locs ==> l in fs[k].locs
  }

  lemma {:induction false} LocsGrow(locs: seq<Location>, seen: seq<Location>, i: nat)
    requires i <= |seen|
    ensures forall l :: l in locs ==> l in LocsUpTo(locs, seen, i)
    ensures forall j :: 0 <= j < i ==> seen[j] in LocsUpTo(locs, seen, i)
  {
    if i > 0 {
      LocsGrow(locs, seen, i - 1);
    }
  }

  lemma MergeOneAbsorbs(p: Pass, baseline: seq<string>, m: Merged, o: Options, t: int, x: Merged)
    ensures x == m || Absorbed(p.fs, x) ==> Absorbed(MergeOne(p, baseline, m, o, t).fs, x)
  {
    var k := Latest(p.fs, m.fp);
    if k >= 0 {
      LatestUpdate(p.fs, k, Refreshed(p.fs[k], m, t), x.fp);
      LocsGrow(p.fs[k].locs, m.locs, |m.locs|);
    } else {
      LatestAppend(p.fs, Newborn(m, t, m.fp in baseline), x.fp);
    }
  }

  lemma {:induction false} MergeAbsorbs(fs: seq<Finding>, baseline: seq<string>, merged: seq<Merged>, o: Options, t: int, n: nat, k: nat)
    requires k < n <= |merged|
    ensures Absorbed(MergeUpTo(fs, baseline, merged, o, t, n).fs, merged[k])
  {
    var good: (nat, Pass) -> bool := (i: nat, p: Pass) => i <= k || Absorbed(p.fs, merged[k]);
    forall i: nat, j: nat, p: Pass | j == i + 1 && j <= n && good(i, p)
      ensures good(j, MergeOne(p, baseline, merged[i], o, t))
    {
      MergeOneAbsorbs(p, baseline, merged[i], o, t, merged[k]);
    }
    MergeInduction(fs, baseline, merged, o, t, good, n);
  }

  /** The remediation pass keeps what was seen, so what was absorbed. */
  lemma FoldAbsorbs(fs: seq<Finding>, baseline: seq<string>, merged: seq<Merged>, cov: Coverage, o: Options, t: int, j: nat)
    requires Unique(fs) && j < |merged|
    ensures Absorbed(Folded(fs, baseline, merged, cov, o, t).findings, merged[j])
  {
    var p, seen := MergeUpTo(fs, baseline, merged, o, t, |merged|), SeenUpTo(merged, |merged|);
    MergeUnique(fs, baseline, merged, o, t, |merged|);
    MergeAbsorbs(fs, baseline, merged, o, t, |merged|, j);
    SeenMeans(merged, |merged|, merged[j].fp);
    KeptLook(p.fs, seen, cov, |p.fs|, merged[j].fp);
    var kept := KeptUpTo(p.fs, seen, cov, |p.fs|);
    var a, b := Latest(p.fs, merged[j].fp), Latest(kept, merged[j].fp);
    assert RowOf(kept[b]).places == RowOf(p.fs[a]).places;
    forall l | l in merged[j].locs ensures l in kept[b].locs {
      assert l in Places(p.fs[a].locs);
    }
  }

  lemma {:induction false} NothingToAdd(t: int, o: Options, m: Merged, locs: seq<Location>, i: nat)
    requires i <= |m.locs| && forall l :: l in m.locs ==> l in locs
    ensures LocsUpTo(locs, m.locs, i) == locs && NewSights(t, o, m, locs, i) == []
  {
    if i > 0 {
      NothingToAdd(t, o, m, locs, i - 1);
      assert m.locs[i - 1] in m.locs;
    }
  }

  /** The same rows, some of them seen again at t. */
  ghost predicate SeenAgain(a: seq<Finding>, b: seq<Finding>, t: int) {
    |a| == |b| && forall k :: 0 <= k < |a| ==> b[k] == a[k] || b[k] == a[k].(lastSeen := t)
  }

  lemma SeenAgainLatest(a: seq<Finding>, b: seq<Finding>, t: int, fp: string)
    requires SeenAgain(a, b, t)
    ensures Latest(b, fp) == Latest(a, fp)
  {
    LatestIsThe(b, fp, Latest(a, fp));
  }

  ghost predicate Silent(fs: seq<Finding>, p: Pass, t: int) {
    p.evs == [] && SeenAgain(fs, p.fs, t)
  }

  lemma AbsorbedIsSilent(fs: seq<Finding>, p: Pass, baseline: seq<string>, m: Merged, o: Options, t: int)
    requires Silent(fs, p, t) && Absorbed(fs, m)
    ensures Silent(fs, MergeOne(p, baseline, m, o, t), t)
  {
    SeenAgainLatest(fs, p.fs, t, m.fp);
    NothingToAdd(t, o, m, p.fs[Latest(p.fs, m.fp)].locs, |m.locs|);
  }

  lemma {:induction false} AbsorbedMergeIsSilent(fs: seq<Finding>, baseline: seq<string>, merged: seq<Merged>, o: Options, t: int, n: nat)
    requires n <= |merged| && forall j :: 0 <= j < |merged| ==> Absorbed(fs, merged[j])
    ensures Silent(fs, MergeUpTo(fs, baseline, merged, o, t, n), t)
  {
    var good: (nat, Pass) -> bool := (i: nat, p: Pass) => Silent(fs, p, t);
    forall i: nat, j: nat, p: Pass | j == i + 1 && j <= n && good(i, p)
      ensures good(j, MergeOne(p, baseline, merged[i], o, t))
    {
      AbsorbedIsSilent(fs, p, baseline, merged[i], o, t);
    }
    MergeInduction(fs, baseline, merged, o, t, good, n);
  }

  lemma {:induction false} NobodyGone(a: seq<Finding>, b: seq<Finding>, seen: set<string>, cov: Coverage, o: Options, t: int, i: nat)
    requires SeenAgain(a, b, t) && i <= |a| && forall x :: x in a ==> !Gone(x, seen, cov)
    ensures GoneUpTo(b, seen, cov, o, t, i) == [] && KeptUpTo(b, seen, cov, i) == b[..i]
  {
    if i > 0 {
      NobodyGone(a, b, seen, cov, o, t, i - 1);
      assert a[i - 1] in a;
      assert b[..i] == b[..i - 1] + [b[i - 1]];
    }
  }

  lemma {:induction false} KeptNotGone(fs: seq<Finding>, seen: set<string>, cov: Coverage, i: nat)
    requires i <= |fs|
    ensures forall x :: x in KeptUpTo(fs, seen, cov, i) ==> !Gone(x, seen, cov)
  {
    if i > 0 {
      KeptNotGone(fs, seen, cov, i - 1);
    }
  }

  /**
   Folding the same observations under the same coverage into the result of a fold:
   no detection, no remediation, and the same rows but for when they were last seen.
   */
  lemma FoldIdempotent(fs: seq<Finding>, baseline: seq<string>, merged: seq<Merged>, cov: Coverage, o: Options, t: int, o': Options, t': int)
    requires Unique(fs)
    ensures var once := Folded(fs, baseline, merged, cov, o, t).findings;
      var again := Folded(once, baseline, merged, cov, o', t');
      && (forall x :: x in again.events ==> x.kind == Surfaced)
      && SeenAgain(once, again.findings, t')
  {
    var once := Folded(fs, baseline, merged, cov, o, t).findings;
    var p, seen := MergeUpTo(fs, baseline, merged, o, t, |merged|), SeenUpTo(merged, |merged|);
    forall j | 0 <= j < |merged| ensures Absorbed(once, merged[j]) {
      FoldAbsorbs(fs, baseline, merged, cov, o, t, j);
    }
    AbsorbedMergeIsSilent(once, baseline, merged, o', t', |merged|);
    forall x | x in once ensures !Gone(x, seen, cov) {
      KeptNotGone(p.fs, seen, cov, |p.fs|);
    }
    var q := MergeUpTo(once, baseline, merged, o', t', |merged|);
    NobodyGone(once, q.fs, seen, cov, o', t', |once|);
    assert q.fs[..|once|] == q.fs;
    SurfacedEvents(q.fs, merged, o', t', |merged|);
  }
}
