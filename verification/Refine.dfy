/**
 The delta fold refines replay: replaying the events a scan appended, in whatever
 order their bytes put them, takes the rows known before the scan to the rows the
 fold leaves behind (delta.go:38-40, "so a rebuild reproduces state exactly").
 */
module Refine {
  import opened Wrappers
  import opened Events
  import opened Findings
  import opened Replay
  import opened Delta
  import opened Batch

  // ---------------------------------------------------------------------
  // In the order the events are emitted
  // ---------------------------------------------------------------------

  /** Every fingerprint lives through the events as the two lists say. */
  ghost predicate Follows(before: seq<Finding>, evs: seq<Event>, after: seq<Finding>) {
    forall fp {:trigger Lives(fp, Look(before, fp), evs)} :: Look(after, fp) == Lives(fp, Look(before, fp), evs)
  }

  lemma FollowsThen(a: seq<Finding>, xs: seq<Event>, b: seq<Finding>, ys: seq<Event>, c: seq<Finding>)
    requires Follows(a, xs, b) && Follows(b, ys, c)
    ensures Follows(a, xs + ys, c)
  {
    forall fp ensures Look(c, fp) == Lives(fp, Look(a, fp), xs + ys) {
      LivesConcat(fp, Look(a, fp), xs, ys);
    }
  }

  /** A detection adds its place to the row, or brings the row of the fold into being. */
  lemma SightLives(t: int, o: Options, m: Merged, l: Location, row: Option<Row>)
    ensures Life(m.fp, row, DetectedEvent(t, o, m, l)) ==
            if row.None? then Some(RowOf(Newborn(m, t, false)).(places := {l}))
            else Some(row.value.(places := row.value.places + {l}))
  {
  }

  /** The detections of known rows add exactly the places the row lacked. */
  lemma {:induction false} NewSightsLive(t: int, o: Options, m: Merged, locs: seq<Location>, i: nat, row: Row)
    requires i <= |m.locs| && row.places == Places(locs)
    ensures Lives(m.fp, Some(row), NewSights(t, o, m, locs, i)) ==
            Some(row.(places := Places(LocsUpTo(locs, m.locs, i))))
  {
    if i > 0 {
      NewSightsLive(t, o, m, locs, i - 1, row);
      var had, l := LocsUpTo(locs, m.locs, i - 1), m.locs[i - 1];
      AddLocPlaces(had, l);
      if !HasLoc(had, l) {
        LivesOne(m.fp, Some(row), NewSights(t, o, m, locs, i - 1), DetectedEvent(t, o, m, l));
        SightLives(t, o, m, l, Some(row.(places := Places(had))));
      }
    }
  }

  lemma {:induction false} NewSightsElsewhere(t: int, o: Options, m: Merged, locs: seq<Location>, i: nat, fp: string, row: Option<Row>)
    requires i <= |m.locs| && fp != m.fp
    ensures Lives(fp, row, NewSights(t, o, m, locs, i)) == row
  {
    if i > 0 {
      NewSightsElsewhere(t, o, m, locs, i - 1, fp, row);
      LivesOne(fp, row, NewSights(t, o, m, locs, i - 1), DetectedEvent(t, o, m, m.locs[i - 1]));
    }
  }

  function PlacesUpTo(locs: seq<Location>, i: nat): set<Location>
    requires i <= |locs|
  {
    if i == 0 then {} else PlacesUpTo(locs, i - 1) + {locs[i - 1]}
  }

  lemma {:induction false} AllPlaces(locs: seq<Location>, i: nat)
    requires i <= |locs|
    ensures PlacesUpTo(locs, i) == Places(locs[..i])
  {
    if i > 0 {
      AllPlaces(locs, i - 1);
      assert locs[..i] == locs[..i - 1] + [locs[i - 1]];
    }
  }

  /** The detections of a new fingerprint build the row the fold inserts. */
  lemma {:induction false} FirstSightsLive(t: int, o: Options, m: Merged, i: nat)
    requires i <= |m.locs|
    ensures Lives(m.fp, None, FirstSights(t, o, m, i)) ==
            if i == 0 then None else Some(RowOf(Newborn(m, t, false)).(places := PlacesUpTo(m.locs, i)))
  {
    if i > 0 {
      FirstSightsLive(t, o, m, i - 1);
      var before, l := FirstSights(t, o, m, i - 1), m.locs[i - 1];
      LivesOne(m.fp, None, before, DetectedEvent(t, o, m, l));
      SightLives(t, o, m, l, Lives(m.fp, None, before));
      assert {} + {l} == {l};
    }
  }

  lemma {:induction false} FirstSightsElsewhere(t: int, o: Options, m: Merged, i: nat, fp: string, row: Option<Row>)
    requires i <= |m.locs| && fp != m.fp
    ensures Lives(fp, row, FirstSights(t, o, m, i)) == row
  {
    if i > 0 {
      FirstSightsElsewhere(t, o, m, i - 1, fp, row);
      LivesOne(fp, row, FirstSights(t, o, m, i - 1), DetectedEvent(t, o, m, m.locs[i - 1]));
    }
  }

  /** Not inserted without an event: known before, or not in the baseline. */
  predicate Logged(fs: seq<Finding>, baseline: seq<string>, m: Merged) {
    m.locs != [] && (Known(fs, m.fp) || m.fp !in baseline)
  }

  lemma MergeOneFollows(p: Pass, baseline: seq<string>, m: Merged, o: Options, t: int)
    requires Unique(p.fs) && Logged(p.fs, baseline, m)
    ensures var q := MergeOne(p, baseline, m, o, t);
      && Unique(q.fs)
      && p.evs <= q.evs
      && Follows(p.fs, q.evs[|p.evs|..], q.fs)
  {
    var k, q := Latest(p.fs, m.fp), MergeOne(p, baseline, m, o, t);
    var evs := q.evs[|p.evs|..];
    forall fp ensures Look(q.fs, fp) == Lives(fp, Look(p.fs, fp), evs) {
      if k >= 0 {
        assert evs == NewSights(t, o, m, p.fs[k].locs, |m.locs|);
        KnownRowLives(p.fs, k, m, o, t, fp);
      } else {
        assert evs == FirstSights(t, o, m, |m.locs|);
        NewRowLives(p.fs, m, o, t, fp);
      }
    }
  }

  lemma {:induction false} KnownRowLives(fs: seq<Finding>, k: nat, m: Merged, o: Options, t: int, fp: string)
    requires k < |fs| && fs[k].fp == m.fp && Latest(fs, m.fp) == k
    ensures Look(fs[k := Refreshed(fs[k], m, t)], fp) ==
            Lives(fp, Look(fs, fp), NewSights(t, o, m, fs[k].locs, |m.locs|))
  {
    LookUpdate(fs, k, Refreshed(fs[k], m, t), fp);
    if fp == m.fp {
      NewSightsLive(t, o, m, fs[k].locs, |m.locs|, RowOf(fs[k]));
    } else {
      NewSightsElsewhere(t, o, m, fs[k].locs, |m.locs|, fp, Look(fs, fp));
    }
  }

  lemma {:induction false} NewRowLives(fs: seq<Finding>, m: Merged, o: Options, t: int, fp: string)
    requires Latest(fs, m.fp) == -1 && m.locs != []
    ensures Look(fs + [Newborn(m, t, false)], fp) == Lives(fp, Look(fs, fp), FirstSights(t, o, m, |m.locs|))
  {
    LookAppend(fs, Newborn(m, t, false), fp);
    if fp == m.fp {
      FirstSightsLive(t, o, m, |m.locs|);
      AllPlaces(m.locs, |m.locs|);
      assert m.locs[..|m.locs|] == m.locs;
    } else {
      FirstSightsElsewhere(t, o, m, |m.locs|, fp, Look(fs, fp));
    }
  }

  /** What a scan may fold without touching the state behind the log's back. */
  ghost predicate Recorded(fs: seq<Finding>, baseline: seq<string>, merged: seq<Merged>) {
    forall i :: 0 <= i < |merged| ==> Logged(fs, baseline, merged[i])
  }

  lemma KnownStays(p: Pass, baseline: seq<string>, m: Merged, o: Options, t: int, fp: string)
    ensures Known(MergeOne(p, baseline, m, o, t).fs, fp) <==> Known(p.fs, fp) || fp == m.fp
  {
    var k := Latest(p.fs, m.fp);
    if k >= 0 {
      LatestUpdate(p.fs, k, Refreshed(p.fs[k], m, t), fp);
    } else {
      LatestAppend(p.fs, Newborn(m, t, m.fp in baseline), fp);
    }
  }

  predicate KnownSoFar(fs: seq<Finding>, merged: seq<Merged>, fp: string, i: nat, p: Pass) {
    i <= |merged| && (Known(p.fs, fp) <==> Known(fs, fp) || fp in SeenUpTo(merged, i))
  }

  lemma {:induction false} KnownUpTo(fs: seq<Finding>, baseline: seq<string>, merged: seq<Merged>, o: Options, t: int, n: nat, fp: string)
    requires n <= |merged|
    ensures Known(MergeUpTo(fs, baseline, merged, o, t, n).fs, fp) <==> Known(fs, fp) || fp in SeenUpTo(merged, n)
  {
    var good: (nat, Pass) -> bool := (i: nat, p: Pass) => KnownSoFar(fs, merged, fp, i, p);
    forall i: nat, j: nat, p: Pass | j == i + 1 && j <= n && good(i, p)
      ensures good(j, MergeOne(p, baseline, merged[i], o, t))
    {
      KnownStays(p, baseline, merged[i], o, t, fp);
    }
    MergeInduction(fs, baseline, merged, o, t, good, n);
  }

  /** The list and the events of a pass so far belong together. */
  ghost predicate Tracks(fs: seq<Finding>, p: Pass) {
    Unique(p.fs) && Follows(fs, p.evs, p.fs)
  }

  lemma TracksOne(fs: seq<Finding>, p: Pass, baseline: seq<string>, m: Merged, o: Options, t: int)
    ensures Tracks(fs, p) && Logged(p.fs, baseline, m) ==> Tracks(fs, MergeOne(p, baseline, m, o, t))
  {
    if Tracks(fs, p) && Logged(p.fs, baseline, m) {
      MergeOneFollows(p, baseline, m, o, t);
      var q := MergeOne(p, baseline, m, o, t);
      FollowsLonger(fs, p.evs, p.fs, q.evs, q.fs);
    }
  }

  /** What was known stays known. */
  ghost predicate StillKnown(fs: seq<Finding>, p: Pass) {
    forall fp :: Known(fs, fp) ==> Known(p.fs, fp)
  }

  lemma StaysLogged(fs: seq<Finding>, baseline: seq<string>, merged: seq<Merged>, i: nat, p: Pass, o: Options, t: int)
    requires Recorded(fs, baseline, merged) && i < |merged| && StillKnown(fs, p)
    ensures Logged(p.fs, baseline, merged[i])
    ensures StillKnown(fs, MergeOne(p, baseline, merged[i], o, t))
  {
    assert Logged(fs, baseline, merged[i]);
    forall fp | Known(fs, fp) ensures Known(MergeOne(p, baseline, merged[i], o, t).fs, fp) {
      KnownStays(p, baseline, merged[i], o, t, fp);
    }
  }

  lemma {:induction false} MergeFollows(fs: seq<Finding>, baseline: seq<string>, merged: seq<Merged>, o: Options, t: int, n: nat)
    requires Unique(fs) && Recorded(fs, baseline, merged) && n <= |merged|
    ensures Tracks(fs, MergeUpTo(fs, baseline, merged, o, t, n))
  {
    var good: (nat, Pass) -> bool := (i: nat, p: Pass) => Tracks(fs, p) && StillKnown(fs, p);
    forall i: nat, j: nat, p: Pass | j == i + 1 && j <= n && good(i, p)
      ensures good(j, MergeOne(p, baseline, merged[i], o, t))
    {
      StaysLogged(fs, baseline, merged, i, p, o, t);
      TracksOne(fs, p, baseline, merged[i], o, t);
    }
    MergeInduction(fs, baseline, merged, o, t, good, n);
  }

  lemma FollowsLonger(a: seq<Finding>, xs: seq<Event>, b: seq<Finding>, ys: seq<Event>, c: seq<Finding>)
    requires xs <= ys && Follows(a, xs, b) && Follows(b, ys[|xs|..], c)
    ensures Follows(a, ys, c)
  {
    assert ys == xs + ys[|xs|..];
    FollowsThen(a, xs, b, ys[|xs|..], c);
  }

  /** What the remediation pass kept of the first i rows. */
  lemma {:induction false} KeptLook(fs: seq<Finding>, seen: set<string>, cov: Coverage, i: nat, fp: string)
    requires i <= |fs| && Unique(fs)
    ensures var k := Latest(fs, fp);
      Look(KeptUpTo(fs, seen, cov, i), fp) ==
      if 0 <= k < i && !Gone(fs[k], seen, cov) then Some(RowOf(fs[k])) else None
  {
    if i > 0 {
      KeptLook(fs, seen, cov, i - 1, fp);
      LookAppend(KeptUpTo(fs, seen, cov, i - 1), fs[i - 1], fp);
      LatestIs(fs, i - 1);
    }
  }

  lemma {:induction false} KeptUnique(fs: seq<Finding>, seen: set<string>, cov: Coverage, i: nat)
    requires i <= |fs| && Unique(fs)
    ensures Unique(KeptUpTo(fs, seen, cov, i))
  {
    if i > 0 {
      KeptUnique(fs, seen, cov, i - 1);
      KeptLook(fs, seen, cov, i - 1, fs[i - 1].fp);
      LatestIs(fs, i - 1);
    }
  }

  lemma RemediationEnds(fp: string, row: Option<Row>, evs: seq<Event>, ev: Event)
    requires ev.kind == Remediated
    ensures Lives(fp, row, evs + [ev]) == if ev.fp == fp then None else Lives(fp, row, evs)
  {
    LivesOne(fp, row, evs, ev);
  }

  /** The remediations of the first i rows end exactly the lives of the rows gone. */
  lemma {:induction false} GoneLives(fs: seq<Finding>, seen: set<string>, cov: Coverage, o: Options, t: int, i: nat,
                                     fp: string, row: Option<Row>)
    requires i <= |fs| && Unique(fs)
    ensures var k := Latest(fs, fp);
      Lives(fp, row, GoneUpTo(fs, seen, cov, o, t, i)) == if 0 <= k < i && Gone(fs[k], seen, cov) then None else row
  {
    if i > 0 {
      GoneLives(fs, seen, cov, o, t, i - 1, fp, row);
      LatestIs(fs, i - 1);
      if Gone(fs[i - 1], seen, cov) {
        RemediationEnds(fp, row, GoneUpTo(fs, seen, cov, o, t, i - 1), RemediatedEvent(t, o, fs[i - 1].fp));
      }
    }
  }

  lemma {:induction false} GoneFollows(fs: seq<Finding>, seen: set<string>, cov: Coverage, o: Options, t: int)
    requires Unique(fs)
    ensures Follows(fs, GoneUpTo(fs, seen, cov, o, t, |fs|), KeptUpTo(fs, seen, cov, |fs|))
  {
    var evs, kept := GoneUpTo(fs, seen, cov, o, t, |fs|), KeptUpTo(fs, seen, cov, |fs|);
    forall fp ensures Look(kept, fp) == Lives(fp, Look(fs, fp), evs) {
      KeptLook(fs, seen, cov, |fs|, fp);
      GoneLives(fs, seen, cov, o, t, |fs|, fp, Look(fs, fp));
    }
  }

  lemma {:induction false} SurfacedLive(fs: seq<Finding>, merged: seq<Merged>, o: Options, t: int, i: nat, fp: string, row: Option<Row>)
    requires i <= |merged|
    ensures Lives(fp, row, SurfacedUpTo(fs, merged, o, t, i)) == row
  {
    if i > 0 {
      SurfacedLive(fs, merged, o, t, i - 1, fp, row);
      if Presented(fs, merged[i - 1].fp) {
        LivesOne(fp, row, SurfacedUpTo(fs, merged, o, t, i - 1), SurfacedEvent(t, o, merged[i - 1].fp));
      }
    }
  }

  /** Replaying the scan's events as emitted takes the old rows to the new ones. */
  lemma FoldFollows(fs: seq<Finding>, baseline: seq<string>, merged: seq<Merged>, cov: Coverage, o: Options, t: int)
    requires Unique(fs) && Recorded(fs, baseline, merged)
    ensures var r := Folded(fs, baseline, merged, cov, o, t);
      Unique(r.findings) && Follows(fs, r.events, r.findings)
  {
    var p := MergeUpTo(fs, baseline, merged, o, t, |merged|);
    var seen := SeenUpTo(merged, |merged|);
    var gone := GoneUpTo(p.fs, seen, cov, o, t, |p.fs|);
    var shown := SurfacedUpTo(p.fs, merged, o, t, |merged|);
    var kept := KeptUpTo(p.fs, seen, cov, |p.fs|);
    MergeFollows(fs, baseline, merged, o, t, |merged|);
    GoneFollows(p.fs, seen, cov, o, t);
    KeptUnique(p.fs, seen, cov, |p.fs|);
    FollowsThen(fs, p.evs, p.fs, gone, kept);
    assert Follows(kept, shown, kept) by {
      forall fp ensures Look(kept, fp) == Lives(fp, Look(kept, fp), shown) {
        SurfacedLive(p.fs, merged, o, t, |merged|, fp, Look(kept, fp));
      }
    }
    FollowsThen(fs, p.evs + gone, kept, shown, kept);
  }

  // ---------------------------------------------------------------------
  // In any order
  // ---------------------------------------------------------------------

  /** Observations that share a fingerprint agree on everything an event records but the place. */
  ghost predicate Uniform(merged: seq<Merged>) {
    forall i, j :: 0 <= i < |merged| && 0 <= j < |merged| && merged[i].fp == merged[j].fp ==>
      SameAttributes(merged[i], merged[j])
  }

  predicate SameAttributes(a: Merged, b: Merged) {
    && a.ruleId == b.ruleId && a.scanner == b.scanner && a.severity == b.severity
    && a.description == b.description && a.collapsedWith == b.collapsedWith && a.dev == b.dev
  }

  /** An event the merge pass emits: a detection of one of the observations. */
  ghost predicate SightOf(ev: Event, merged: seq<Merged>, o: Options, t: int) {
    exists i, l :: 0 <= i < |merged| && l in merged[i].locs && ev == DetectedEvent(t, o, merged[i], l)
  }

  ghost predicate Sights(evs: seq<Event>, merged: seq<Merged>, o: Options, t: int) {
    forall x :: x in evs ==> SightOf(x, merged, o, t)
  }

  lemma {:induction false} NewSightsAreSights(t: int, o: Options, merged: seq<Merged>, k: nat, locs: seq<Location>, i: nat)
    requires k < |merged| && i <= |merged[k].locs|
    ensures Sights(NewSights(t, o, merged[k], locs, i), merged, o, t)
  {
    if i > 0 {
      NewSightsAreSights(t, o, merged, k, locs, i - 1);
      assert SightOf(DetectedEvent(t, o, merged[k], merged[k].locs[i - 1]), merged, o, t);
    }
  }

  lemma {:induction false} FirstSightsAreSights(t: int, o: Options, merged: seq<Merged>, k: nat, i: nat)
    requires k < |merged| && i <= |merged[k].locs|
    ensures Sights(FirstSights(t, o, merged[k], i), merged, o, t)
  {
    if i > 0 {
      FirstSightsAreSights(t, o, merged, k, i - 1);
      assert SightOf(DetectedEvent(t, o, merged[k], merged[k].locs[i - 1]), merged, o, t);
    }
  }

  lemma MergeOneSights(p: Pass, baseline: seq<string>, merged: seq<Merged>, o: Options, t: int, i: nat)
    requires i < |merged| && Sights(p.evs, merged, o, t)
    ensures Sights(MergeOne(p, baseline, merged[i], o, t).evs, merged, o, t)
  {
    var m := merged[i];
    var k := Latest(p.fs, m.fp);
    if k >= 0 {
      NewSightsAreSights(t, o, merged, i, p.fs[k].locs, |m.locs|);
    } else {
      FirstSightsAreSights(t, o, merged, i, |m.locs|);
    }
  }

  lemma {:induction false} MergeSights(fs: seq<Finding>, baseline: seq<string>, merged: seq<Merged>, o: Options, t: int, n: nat)
    requires n <= |merged|
    ensures Sights(MergeUpTo(fs, baseline, merged, o, t, n).evs, merged, o, t)
  {
    var good: (nat, Pass) -> bool := (i: nat, p: Pass) => Sights(p.evs, merged, o, t);
    forall i: nat, j: nat, p: Pass | j == i + 1 && j <= n && good(i, p)
      ensures good(j, MergeOne(p, baseline, merged[i], o, t))
    {
      MergeOneSights(p, baseline, merged, o, t, i);
    }
    MergeInduction(fs, baseline, merged, o, t, good, n);
  }

  lemma {:induction false} SeenMeans(merged: seq<Merged>, i: nat, fp: string)
    requires i <= |merged|
    ensures fp in SeenUpTo(merged, i) <==> exists j :: 0 <= j < i && merged[j].fp == fp
  {
    if i > 0 {
      SeenMeans(merged, i - 1, fp);
    }
  }

  predicate GoneEvent(ev: Event, seen: set<string>, t: int) {
    ev.kind == Remediated && ev.fp !in seen && ev.ts == t
  }

  predicate ShownEvent(ev: Event, t: int) {
    ev.kind == Surfaced && ev.ts == t
  }

  lemma {:induction false} GoneEvents(fs: seq<Finding>, seen: set<string>, cov: Coverage, o: Options, t: int, i: nat)
    requires i <= |fs|
    ensures forall x :: x in GoneUpTo(fs, seen, cov, o, t, i) ==> GoneEvent(x, seen, t)
  {
    if i > 0 {
      GoneEvents(fs, seen, cov, o, t, i - 1);
    }
  }

  lemma {:induction false} SurfacedEvents(fs: seq<Finding>, merged: seq<Merged>, o: Options, t: int, i: nat)
    requires i <= |merged|
    ensures forall x :: x in SurfacedUpTo(fs, merged, o, t, i) ==> ShownEvent(x, t)
  {
    if i > 0 {
      SurfacedEvents(fs, merged, o, t, i - 1);
    }
  }

  /** Every event of a scan is a detection of something seen, a remediation of something unseen, or a presentation. */
  ghost predicate Emitted(ev: Event, merged: seq<Merged>, o: Options, t: int) {
    || SightOf(ev, merged, o, t)
    || GoneEvent(ev, SeenUpTo(merged, |merged|), t)
    || ShownEvent(ev, t)
  }

  lemma FoldEmits(fs: seq<Finding>, baseline: seq<string>, merged: seq<Merged>, cov: Coverage, o: Options, t: int)
    ensures forall x :: x in Folded(fs, baseline, merged, cov, o, t).events ==> Emitted(x, merged, o, t)
  {
    var p := MergeUpTo(fs, baseline, merged, o, t, |merged|);
    var seen := SeenUpTo(merged, |merged|);
    MergeSights(fs, baseline, merged, o, t, |merged|);
    GoneEvents(p.fs, seen, cov, o, t, |p.fs|);
    SurfacedEvents(p.fs, merged, o, t, |merged|);
  }

  lemma EmittedAt(merged: seq<Merged>, o: Options, t: int, x: Event)
    requires Emitted(x, merged, o, t)
    ensures x.ts == t && PayloadFits(x) && x.kind != Raised && x.kind != Resolved
  {
  }

  lemma EmittedCompatible(merged: seq<Merged>, o: Options, t: int, x: Event, y: Event)
    requires Uniform(merged) && Emitted(x, merged, o, t) && Emitted(y, merged, o, t)
    ensures Compatible(x, y)
  {
    if SightOf(x, merged, o, t) {
      SightSeen(merged, o, t, x);
    }
    if SightOf(y, merged, o, t) {
      SightSeen(merged, o, t, y);
    }
    if SightOf(x, merged, o, t) && SightOf(y, merged, o, t) && x.fp == y.fp {
      SightsAgree(merged, o, t, x, y);
    }
  }

  lemma {:induction false} SightSeen(merged: seq<Merged>, o: Options, t: int, x: Event)
    requires SightOf(x, merged, o, t)
    ensures x.kind == Detected && x.payload.DetectedData? && x.fp in SeenUpTo(merged, |merged|)
  {
    var i, l :| 0 <= i < |merged| && l in merged[i].locs && x == DetectedEvent(t, o, merged[i], l);
    SeenMeans(merged, |merged|, merged[i].fp);
  }

  lemma SightsAgree(merged: seq<Merged>, o: Options, t: int, x: Event, y: Event)
    requires Uniform(merged) && SightOf(x, merged, o, t) && SightOf(y, merged, o, t) && x.fp == y.fp
    ensures x.payload.DetectedData? && y.payload.DetectedData? && Sight(x) == Sight(y)
  {
    var i, l :| 0 <= i < |merged| && l in merged[i].locs && x == DetectedEvent(t, o, merged[i], l);
    var j, k :| 0 <= j < |merged| && k in merged[j].locs && y == DetectedEvent(t, o, merged[j], k);
    assert SameAttributes(merged[i], merged[j]);
  }

  function Pinned(evs: seq<Event>): (r: seq<Event>)
    ensures |r| == |evs|
  {
    seq(|evs|, i requires 0 <= i < |evs| => Pin(evs[i]))
  }

  lemma {:induction false} PinningKeepsLives(fp: string, row: Option<Row>, evs: seq<Event>, i: nat)
    requires i <= |evs|
    ensures LivesUpTo(fp, row, Pinned(evs), i) == LivesUpTo(fp, row, evs, i)
  {
    if i > 0 {
      PinningKeepsLives(fp, row, evs, i - 1);
      PinKeepsTheSecond(evs[i - 1]);
    }
  }

  /**
   The refinement: any sequence of the scan's events as the log holds them, in any
   order and with any repeats, leads every fingerprint to the row of the fold.
   */
  lemma FoldRefinesReplay(fs: seq<Finding>, baseline: seq<string>, merged: seq<Merged>, cov: Coverage, o: Options,
                          t: int, replayed: seq<Event>, fp: string)
    requires Unique(fs) && Recorded(fs, baseline, merged) && Uniform(merged)
    requires var evs := Pinned(Folded(fs, baseline, merged, cov, o, t).events);
      forall x :: x in replayed <==> x in evs
    ensures Lives(fp, Look(fs, fp), replayed) == Look(Folded(fs, baseline, merged, cov, o, t).findings, fp)
  {
    var evs := Folded(fs, baseline, merged, cov, o, t).events;
    var pinned := Pinned(evs);
    FoldFollows(fs, baseline, merged, cov, o, t);
    FoldEmits(fs, baseline, merged, cov, o, t);
    PinningKeepsLives(fp, Look(fs, fp), evs, |evs|);
    assert Lives(fp, Look(fs, fp), pinned) == Lives(fp, Look(fs, fp), evs);
    forall x, y | x in pinned && y in pinned ensures Compatible(x, y) {
      var i :| 0 <= i < |pinned| && pinned[i] == x;
      var j :| 0 <= j < |pinned| && pinned[j] == y;
      assert evs[i] in evs && evs[j] in evs;
      EmittedCompatible(merged, o, t, evs[i], evs[j]);
      PinnedCompatible(evs[i], evs[j]);
    }
    LivesDependOnSet(fp, Look(fs, fp), pinned, replayed);
  }

  lemma PinnedCompatible(a: Event, b: Event)
    requires Compatible(a, b)
    ensures Compatible(Pin(a), Pin(b))
  {
    PinKeepsTheSecond(a);
    PinKeepsTheSecond(b);
  }
}
