/**
 What the rows of a scan's fold hold (delta.go:54-107), field by field: a finding seen for
 the first time is that of its first observation, a known one is refreshed, and one that
 was not seen is as it was.
 */
module Rows {
  import opened Wrappers
  import opened Findings
  import opened Delta
  import opened Refine
  import Scans
  import Departures

  /** Observation j is the first of its fingerprint among the first i. */
  ghost predicate FirstSeen(merged: seq<Merged>, fp: string, j: nat, i: nat)
    requires i <= |merged|
  {
    j < i && merged[j].fp == fp && forall k :: 0 <= k < j ==> merged[k].fp != fp
  }

  /** One of the first i observations places the finding there. */
  ghost predicate PlacedAt(merged: seq<Merged>, fp: string, i: nat, l: Location)
    requires i <= |merged|
  {
    exists j :: 0 <= j < i && merged[j].fp == fp && l in merged[j].locs
  }

  /** The row of a finding first seen in this scan, locations apart. */
  predicate NewRow(f: Finding, m: Merged, baseline: seq<string>, t: int) {
    && f.fp == m.fp && f.displayId == "" && f.ruleKey == m.ruleKey && f.ruleId == m.ruleId && f.scanner == m.scanner
    && f.also == m.collapsedWith && f.collapsedWith == m.collapsedWith && f.secret == m.secret && f.dev == m.dev
    && f.severity == m.severity && f.description == m.description
    && f.detectedAt == t && f.lastSeen == t && f.status == Open && f.verdict == None
    && (f.inBaseline <==> m.fp in baseline)
  }

  /** A known row, seen again: nothing but its last sight and its locations changes. */
  predicate SeenAgain(f: Finding, was: Finding, t: int) {
    f == was.(lastSeen := t, locs := f.locs) && was.locs <= f.locs
  }

  ghost predicate RowNow(fs: seq<Finding>, baseline: seq<string>, merged: seq<Merged>, t: int, fp: string, i: nat, f: Finding)
    requires i <= |merged|
  {
    if Known(fs, fp) then
      && SeenAgain(f, fs[Latest(fs, fp)], t)
      && forall l :: l in f.locs <==> l in fs[Latest(fs, fp)].locs || PlacedAt(merged, fp, i, l)
    else
      && (exists j: nat :: FirstSeen(merged, fp, j, i) && NewRow(f, merged[j], baseline, t))
      && forall l :: l in f.locs <==> PlacedAt(merged, fp, i, l)
  }

  /** How a pass stands to a fingerprint. */
  ghost predicate Standing(fs: seq<Finding>, baseline: seq<string>, merged: seq<Merged>, t: int, fp: string, i: nat, p: Pass) {
    && i <= |merged|
    && if fp in SeenUpTo(merged, i) then Known(p.fs, fp) && RowNow(fs, baseline, merged, t, fp, i, p.fs[Latest(p.fs, fp)])
       else Latest(p.fs, fp) == Latest(fs, fp) && (Known(fs, fp) ==> p.fs[Latest(fs, fp)] == fs[Latest(fs, fp)])
  }

  lemma PlacedOneMore(merged: seq<Merged>, fp: string, i: nat, l: Location)
    requires i < |merged|
    ensures PlacedAt(merged, fp, i + 1, l) <==> PlacedAt(merged, fp, i, l) || (merged[i].fp == fp && l in merged[i].locs)
  {
    if j :| 0 <= j < i + 1 && merged[j].fp == fp && l in merged[j].locs {
      assert j == i || PlacedAt(merged, fp, i, l);
    }
  }

  lemma {:induction false} UnplacedBefore(merged: seq<Merged>, fp: string, i: nat, l: Location)
    requires i <= |merged| && fp !in SeenUpTo(merged, i)
    ensures !PlacedAt(merged, fp, i, l)
    ensures forall k :: 0 <= k < i ==> merged[k].fp != fp
  {
    SeenMeans(merged, i, fp);
  }

  lemma {:induction false} LocsGain(locs: seq<Location>, seen: seq<Location>, i: nat)
    requires i <= |seen|
    ensures locs <= LocsUpTo(locs, seen, i)
    ensures forall l :: l in LocsUpTo(locs, seen, i) <==> l in locs || l in seen[..i]
  {
    if i > 0 {
      LocsGain(locs, seen, i - 1);
      assert seen[..i] == seen[..i - 1] + [seen[i - 1]];
    }
  }

  lemma OtherStands(fs: seq<Finding>, baseline: seq<string>, merged: seq<Merged>, o: Options, t: int, fp: string, i: nat, p: Pass)
    requires i < |merged| && merged[i].fp != fp && Standing(fs, baseline, merged, t, fp, i, p)
    ensures Standing(fs, baseline, merged, t, fp, i + 1, MergeOne(p, baseline, merged[i], o, t))
  {
    var m := merged[i];
    var k := Latest(p.fs, m.fp);
    if k >= 0 {
      LatestUpdate(p.fs, k, Refreshed(p.fs[k], m, t), fp);
    } else {
      LatestAppend(p.fs, Newborn(m, t, m.fp in baseline), fp);
    }
    forall l ensures PlacedAt(merged, fp, i + 1, l) <==> PlacedAt(merged, fp, i, l) {
      PlacedOneMore(merged, fp, i, l);
    }
    if j: nat :| FirstSeen(merged, fp, j, i) {
      assert FirstSeen(merged, fp, j, i + 1);
    }
  }

  lemma SeenStands(fs: seq<Finding>, baseline: seq<string>, merged: seq<Merged>, o: Options, t: int, fp: string, i: nat, p: Pass)
    requires i < |merged| && merged[i].fp == fp && Standing(fs, baseline, merged, t, fp, i, p) && Known(p.fs, fp)
    ensures Standing(fs, baseline, merged, t, fp, i + 1, MergeOne(p, baseline, merged[i], o, t))
  {
    var m := merged[i];
    var k := Latest(p.fs, fp);
    LatestUpdate(p.fs, k, Refreshed(p.fs[k], m, t), fp);
    LocsGain(p.fs[k].locs, m.locs, |m.locs|);
    assert m.locs[..|m.locs|] == m.locs;
    forall l ensures PlacedAt(merged, fp, i + 1, l) <==> PlacedAt(merged, fp, i, l) || l in m.locs {
      PlacedOneMore(merged, fp, i, l);
    }
    if fp !in SeenUpTo(merged, i) {
      forall l ensures !PlacedAt(merged, fp, i, l) {
        UnplacedBefore(merged, fp, i, l);
      }
    }
    if j: nat :| FirstSeen(merged, fp, j, i) {
      assert FirstSeen(merged, fp, j, i + 1);
    }
  }

  lemma BornStands(fs: seq<Finding>, baseline: seq<string>, merged: seq<Merged>, o: Options, t: int, fp: string, i: nat, p: Pass)
    requires i < |merged| && merged[i].fp == fp && Standing(fs, baseline, merged, t, fp, i, p) && !Known(p.fs, fp)
    ensures Standing(fs, baseline, merged, t, fp, i + 1, MergeOne(p, baseline, merged[i], o, t))
  {
    var m := merged[i];
    var f := Newborn(m, t, m.fp in baseline);
    LatestAppend(p.fs, f, fp);
    forall l ensures PlacedAt(merged, fp, i + 1, l) <==> l in m.locs {
      PlacedOneMore(merged, fp, i, l);
      UnplacedBefore(merged, fp, i, l);
    }
    UnplacedBefore(merged, fp, i, Location("", 0));
    assert FirstSeen(merged, fp, i, i + 1) && NewRow(f, m, baseline, t);
  }

  lemma {:induction false} MergeStands(fs: seq<Finding>, baseline: seq<string>, merged: seq<Merged>, o: Options, t: int, fp: string)
    ensures Standing(fs, baseline, merged, t, fp, |merged|, MergeUpTo(fs, baseline, merged, o, t, |merged|))
  {
    var good: (nat, Pass) -> bool := (i: nat, p: Pass) => Standing(fs, baseline, merged, t, fp, i, p);
    forall i: nat, j: nat, p: Pass | j == i + 1 && j <= |merged| && good(i, p)
      ensures good(j, MergeOne(p, baseline, merged[i], o, t))
    {
      if merged[i].fp != fp {
        OtherStands(fs, baseline, merged, o, t, fp, i, p);
      } else if Known(p.fs, fp) {
        SeenStands(fs, baseline, merged, o, t, fp, i, p);
      } else {
        BornStands(fs, baseline, merged, o, t, fp, i, p);
      }
    }
    MergeInduction(fs, baseline, merged, o, t, good, |merged|);
  }

  /** The row a scan leaves of a finding: new, refreshed, or as it was. */
  lemma FoldRow(fs: seq<Finding>, baseline: seq<string>, merged: seq<Merged>, cov: Coverage, o: Options, t: int, k: nat)
    requires Unique(fs) && k < |Folded(fs, baseline, merged, cov, o, t).findings|
    ensures var f := Folded(fs, baseline, merged, cov, o, t).findings[k];
      if exists i :: 0 <= i < |merged| && merged[i].fp == f.fp then RowNow(fs, baseline, merged, t, f.fp, |merged|, f) else f in fs
  {
    var p, seen := MergeUpTo(fs, baseline, merged, o, t, |merged|), SeenUpTo(merged, |merged|);
    var kept := KeptUpTo(p.fs, seen, cov, |p.fs|);
    Departures.KeptAre(p.fs, seen, cov, |p.fs|);
    assert kept[k] in kept;
    var j :| 0 <= j < |p.fs| && p.fs[j] == kept[k];
    Scans.MergeUnique(fs, baseline, merged, o, t, |merged|);
    LatestIs(p.fs, j);
    MergeStands(fs, baseline, merged, o, t, kept[k].fp);
    SeenMeans(merged, |merged|, kept[k].fp);
  }
}
