/**
 A scan overtaken by other scans (pipeline.go:163-261): for every fingerprint, whatever
 sorts after the scan's lines, exactly when the state and the replay end up the same.
 */
module Overlap {
  import opened Wrappers
  import opened Events
  import opened Findings
  import opened Replay
  import opened Delta
  import opened Batch
  import opened Orders
  import opened Refine
  import opened Commands
  import opened Agreement
  import opened Mutations
  import opened Storing
  import opened ScanSteps
  import opened Amid
  import opened LogOrder

  // ---------------------------------------------------------------------
  // What later events do to a row
  // ---------------------------------------------------------------------

  /** Short of an end, places a row had more it has more in the end. */
  lemma {:induction false} PlacesCarry(fp: string, a: Row, more: set<Location>, evs: seq<Event>, i: nat)
    requires i <= |evs| && !Ends(fp, evs, i)
    ensures LivesUpTo(fp, Some(a), evs, i).Some?
    ensures var r := LivesUpTo(fp, Some(a), evs, i).value;
      LivesUpTo(fp, Some(a.(places := a.places + more)), evs, i) == Some(r.(places := r.places + more))
  {
    if i > 0 {
      assert !Ends(fp, evs, i - 1) && !(evs[i - 1].fp == fp && evs[i - 1].kind == Remediated);
      PlacesCarry(fp, a, more, evs, i - 1);
      if Detects(evs[i - 1], fp) {
        var r, l := LivesUpTo(fp, Some(a), evs, i - 1).value, Location(evs[i - 1].payload.path, evs[i - 1].payload.line);
        assert r.places + more + {l} == r.places + {l} + more;
      }
    }
  }

  /** What of a row no event but its first detection decides. */
  function Origin(r: Row): Row {
    r.(places := {}, status := Open, verdict := None)
  }

  lemma {:induction false} OriginStays(fp: string, a: Row, evs: seq<Event>, i: nat)
    requires i <= |evs| && !Ends(fp, evs, i)
    ensures LivesUpTo(fp, Some(a), evs, i).Some? && Origin(LivesUpTo(fp, Some(a), evs, i).value) == Origin(a)
  {
    if i > 0 {
      assert !Ends(fp, evs, i - 1) && !(evs[i - 1].fp == fp && evs[i - 1].kind == Remediated);
      OriginStays(fp, a, evs, i - 1);
    }
  }

  /** Short of an end, nothing is born exactly when nothing is detected. */
  lemma {:induction false} BornIffDetected(fp: string, evs: seq<Event>, i: nat)
    requires i <= |evs| && !Ends(fp, evs, i)
    ensures LivesUpTo(fp, None, evs, i).Some? <==> FirstSight(fp, evs, i).Some?
  {
    if i > 0 {
      assert !Ends(fp, evs, i - 1) && !(evs[i - 1].fp == fp && evs[i - 1].kind == Remediated);
      BornIffDetected(fp, evs, i - 1);
    }
  }

  lemma {:induction false} CalmIff(fp: string, evs: seq<Event>)
    ensures Calm(evs, fp) <==> FirstSight(fp, evs, |evs|).None? && !Ends(fp, evs, |evs|)
  {
    FirstSightIs(fp, evs, |evs|);
  }

  predicate Undecided(r: Row) {
    r.status == Open && r.verdict == None
  }

  ghost predicate VerdictLastsUpTo(evs: seq<Event>, fp: string, n: nat)
    requires n <= |evs|
  {
    forall i :: 0 <= i < n && evs[i].fp == fp ==> !Judges(evs[i])
  }

  /** Without a detection or an end, events decide status and verdict of a fresh row and no more. */
  lemma {:induction false} OnlyDecide(fp: string, a: Row, evs: seq<Event>, i: nat)
    requires i <= |evs| && Calm(evs, fp) && Undecided(a)
    ensures LivesUpTo(fp, Some(a), evs, i).Some?
    ensures var r := LivesUpTo(fp, Some(a), evs, i).value;
      && r == a.(status := r.status, verdict := r.verdict)
      && (r.status == Open <==> StatusLastsUpTo(evs, fp, i))
      && (r.verdict == None <==> VerdictLastsUpTo(evs, fp, i))
  {
    if i > 0 {
      OnlyDecide(fp, a, evs, i - 1);
      var ev := evs[i - 1];
      var judges := ev.fp == fp && Judges(ev);
      var decides := judges || (ev.fp == fp && (ev.kind == Suppressed || ev.kind == Deferred));
      assert StatusLastsUpTo(evs, fp, i) <==> StatusLastsUpTo(evs, fp, i - 1) && !decides;
      assert VerdictLastsUpTo(evs, fp, i) <==> VerdictLastsUpTo(evs, fp, i - 1) && !judges;
    }
  }

  // ---------------------------------------------------------------------
  // Born twice
  // ---------------------------------------------------------------------

  /** The position of the first detection. */
  function FirstAt(fp: string, evs: seq<Event>): (j: nat)
    ensures j <= |evs|
    ensures forall i :: 0 <= i < j ==> !Detects(evs[i], fp)
    ensures j < |evs| ==> Detects(evs[j], fp)
  {
    if evs == [] || Detects(evs[0], fp) then 0 else 1 + FirstAt(fp, evs[1..])
  }

  lemma {:induction false} FirstSightAt(fp: string, evs: seq<Event>, i: nat)
    requires i <= |evs|
    ensures var j := FirstAt(fp, evs);
      FirstSight(fp, evs, i) == if j < i then Some(Sight(evs[j])) else None
  {
    if i > 0 {
      FirstSightAt(fp, evs, i - 1);
    }
  }

  /** Decisions before the first detection fall on a row the state did not have: later ones must undo them. */
  ghost predicate DecisionsHold(fp: string, pre: seq<Event>, post: seq<Event>) {
    && (StatusLasts(pre, fp) || !StatusLasts(post, fp))
    && (VerdictLasts(pre, fp) || !VerdictLasts(post, fp))
  }

  /** A row born of the scan, decided before, then sighted again, against the row born of that second sight. */
  lemma DecidedIff(fp: string, born: Row, pre: seq<Event>, e: Event, post: seq<Event>)
    requires Detects(e, fp) && Calm(pre, fp) && !Ends(fp, post, |post|)
    requires born == Sight(e).(places := born.places)
    ensures var disk, row := Lives(fp, Some(Birth(e)), post), Lives(fp, Some(born), pre);
      && disk.Some? && row.Some?
      && (Lives(fp, Life(fp, row, e), post) == Some(disk.value.(places := disk.value.places + born.places)) <==>
          DecisionsHold(fp, pre, post))
  {
    var q, l := Birth(e), Location(e.payload.path, e.payload.line);
    OnlyDecide(fp, born, pre, |pre|);
    var r := Lives(fp, Some(born), pre).value;
    var p := q.(status := r.status, verdict := r.verdict);
    assert q == Sight(e).(places := {l});
    assert born.places + {l} == p.places + born.places;
    assert Life(fp, Some(r), e) == Some(p.(places := p.places + born.places));
    PlacesCarry(fp, p, born.places, post, |post|);
    PlacesCarry(fp, q, {}, post, |post|);
    assert Lasts(post, fp);
    CarriedAlong(post, fp, q, r.status, r.verdict);
    assert StatusLastsUpTo(pre, fp, |pre|) <==> StatusLasts(pre, fp);
    assert VerdictLastsUpTo(pre, fp, |pre|) <==> VerdictLasts(pre, fp);
  }

  /** The scan's first detection and the first one after it say the same, and no decision between them stands. */
  ghost predicate BornAlike(fp: string, replayed: seq<Event>, later: seq<Event>) {
    var j := FirstAt(fp, later);
    && FirstSight(fp, replayed, |replayed|) == FirstSight(fp, later, |later|)
    && (j < |later| ==> DecisionsHold(fp, later[..j], later[j + 1..]))
  }

  lemma LivesThrough(fp: string, row: Option<Row>, pre: seq<Event>, e: Event, post: seq<Event>)
    ensures Lives(fp, row, pre + [e] + post) == Lives(fp, Life(fp, Lives(fp, row, pre), e), post)
  {
    LivesConcat(fp, row, pre + [e], post);
    LivesOne(fp, row, pre, e);
  }

  lemma {:induction false} PartsOf(fp: string, evs: seq<Event>, j: nat)
    requires j == FirstAt(fp, evs) < |evs| && !Ends(fp, evs, |evs|)
    ensures evs == evs[..j] + [evs[j]] + evs[j + 1..]
    ensures Calm(evs[..j], fp) && !Ends(fp, evs[j + 1..], |evs| - j - 1)
  {
    var post := evs[j + 1..];
    assert forall i :: 0 <= i < |post| ==> post[i] == evs[j + 1 + i];
  }

  lemma {:induction false} SplitAtFirst(fp: string, evs: seq<Event>, row: Option<Row>)
    requires FirstAt(fp, evs) < |evs| && !Ends(fp, evs, |evs|)
    ensures var j := FirstAt(fp, evs);
      && Calm(evs[..j], fp) && !Ends(fp, evs[j + 1..], |evs| - j - 1)
      && Lives(fp, row, evs) == Lives(fp, Life(fp, Lives(fp, row, evs[..j]), evs[j]), evs[j + 1..])
      && Lives(fp, None, evs) == Lives(fp, Some(Birth(evs[j])), evs[j + 1..])
  {
    var j := FirstAt(fp, evs);
    PartsOf(fp, evs, j);
    LivesThrough(fp, row, evs[..j], evs[j], evs[j + 1..]);
    LivesThrough(fp, None, evs[..j], evs[j], evs[j + 1..]);
    NothingBorn(fp, evs[..j], j);
  }

  lemma OriginsDiffer(fp: string, a: Row, evs: seq<Event>, b: Row, more: seq<Event>, places: set<Location>)
    requires Origin(a) != Origin(b) && !Ends(fp, evs, |evs|) && !Ends(fp, more, |more|)
    ensures Lives(fp, Some(a), evs).Some? && Lives(fp, Some(b), more).Some?
    ensures var r := Lives(fp, Some(b), more).value;
      Lives(fp, Some(a), evs) != Some(r.(places := r.places + places))
  {
    OriginStays(fp, a, evs, |evs|);
    OriginStays(fp, b, more, |more|);
    var r := Lives(fp, Some(b), more).value;
    assert Origin(r.(places := r.places + places)) == Origin(r);
  }

  lemma {:induction false} BornAlikeIff(fp: string, replayed: seq<Event>, later: seq<Event>)
    requires Exclusive(replayed) && FirstSight(fp, replayed, |replayed|).Some?
    requires FirstSight(fp, later, |later|).Some? && !Ends(fp, later, |later|)
    ensures var disk := Lives(fp, None, later);
      && disk.Some?
      && (Lives(fp, Lives(fp, None, replayed), later) ==
            Some(disk.value.(places := disk.value.places + PlacesOf(fp, replayed, |replayed|))) <==>
          BornAlike(fp, replayed, later))
  {
    var j, first := FirstAt(fp, later), FirstSight(fp, replayed, |replayed|).value;
    FirstSightAt(fp, later, |later|);
    BatchLives(fp, None, replayed, |replayed|);
    NotBoth(fp, replayed);
    var born := first.(places := PlacesOf(fp, replayed, |replayed|));
    SplitAtFirst(fp, later, Some(born));
    FirstSightIs(fp, replayed, |replayed|);
    SightsAreOpen(fp, replayed, |replayed|);
    var e := later[j];
    if first == Sight(e) {
      DecidedIff(fp, born, later[..j], e, later[j + 1..]);
    } else {
      FirstUndecided(fp, replayed, |replayed|);
      assert Origin(born) == first && Origin(Birth(e)) == Sight(e);
      OriginsDiffer(fp, born, later, Birth(e), later[j + 1..], PlacesOf(fp, replayed, |replayed|));
    }
  }

  lemma {:induction false} FirstUndecided(fp: string, evs: seq<Event>, i: nat)
    requires i <= |evs|
    ensures FirstSight(fp, evs, i).Some? ==> Undecided(FirstSight(fp, evs, i).value) && FirstSight(fp, evs, i).value.places == {}
  {
    if i > 0 {
      FirstUndecided(fp, evs, i - 1);
    }
  }

  // ---------------------------------------------------------------------
  // One fingerprint
  // ---------------------------------------------------------------------

  /**
   What the state holds of a fingerprint after the scan is what the replay finds:
   - the scan does not touch it; or
   - it is remediated by a later line, and the scan brings nothing the state does not hold by then; or
   - the scan remediates it, and no later line detects it; or
   - it was known where the scan's lines sort, or is new and its first detection holds.
   */
  ghost predicate Fits(fp: string, row: Option<Row>, emitted: seq<Event>, replayed: seq<Event>, later: seq<Event>) {
    var disk, places := Lives(fp, row, later), PlacesOf(fp, replayed, |replayed|);
    if Calm(replayed, fp) then true
    else if Ends(fp, later, |later|) then
      if Ends(fp, replayed, |replayed|) then disk.None? else disk.Some? && places <= disk.value.places
    else if Ends(fp, replayed, |replayed|) then FirstSight(fp, later, |later|).None?
    else
      || row.Some?
      || if Calm(later, fp) then FirstHolds(fp, emitted, replayed, later) else BornAlike(fp, replayed, later)
  }

  lemma EndedIff(fp: string, row: Option<Row>, emitted: seq<Event>, replayed: seq<Event>, later: seq<Event>)
    requires Exclusive(emitted) && Exclusive(replayed) && (forall x :: x in emitted <==> x in replayed)
    requires !Calm(replayed, fp) && Ends(fp, later, |later|)
    ensures SameOrders(fp, row, emitted, replayed, later) <==> Fits(fp, row, emitted, replayed, later)
  {
    var disk, places := Lives(fp, row, later), PlacesOf(fp, replayed, |replayed|);
    EndForgets(fp, row, Lives(fp, row, replayed), later, |later|);
    EmittedAfter(fp, disk, emitted, replayed);
    CalmIff(fp, replayed);
    if disk.Some? {
      assert disk.value.(places := disk.value.places + places) == disk.value <==> places <= disk.value.places;
    }
  }

  /** The emitted order leads where the summary of the replayed one says, but for the first sight. */
  lemma {:induction false} EmittedAfter(fp: string, row: Option<Row>, emitted: seq<Event>, replayed: seq<Event>)
    requires Exclusive(emitted) && Exclusive(replayed) && (forall x :: x in emitted <==> x in replayed)
    ensures Lives(fp, row, emitted) == After(fp, row, FirstSight(fp, emitted, |emitted|),
                                             PlacesOf(fp, replayed, |replayed|), Ends(fp, replayed, |replayed|))
    ensures FirstSight(fp, emitted, |emitted|).Some? <==> FirstSight(fp, replayed, |replayed|).Some?
  {
    BatchLives(fp, row, emitted, |emitted|);
    SameEnds(fp, emitted, replayed);
    SameEnds(fp, replayed, emitted);
    assert PlacesOf(fp, emitted, |emitted|) == PlacesOf(fp, replayed, |replayed|);
    FirstSightIs(fp, emitted, |emitted|);
    FirstSightIs(fp, replayed, |replayed|);
  }

  lemma {:induction false} RemediatedIff(fp: string, row: Option<Row>, emitted: seq<Event>, replayed: seq<Event>, later: seq<Event>)
    requires Exclusive(emitted) && Exclusive(replayed) && (forall x :: x in emitted <==> x in replayed)
    requires Ends(fp, replayed, |replayed|) && !Ends(fp, later, |later|)
    ensures SameOrders(fp, row, emitted, replayed, later) <==> FirstSight(fp, later, |later|).None?
  {
    EmittedAfter(fp, Lives(fp, row, later), emitted, replayed);
    BatchLives(fp, row, replayed, |replayed|);
    BornIffDetected(fp, later, |later|);
  }

  lemma {:induction false} SightedIff(fp: string, row: Option<Row>, emitted: seq<Event>, replayed: seq<Event>, later: seq<Event>)
    requires Exclusive(emitted) && Exclusive(replayed) && (forall x :: x in emitted <==> x in replayed)
    requires FirstSight(fp, replayed, |replayed|).Some? && !Ends(fp, replayed, |replayed|) && !Ends(fp, later, |later|)
    ensures SameOrders(fp, row, emitted, replayed, later) <==>
      || row.Some?
      || if Calm(later, fp) then FirstHolds(fp, emitted, replayed, later) else BornAlike(fp, replayed, later)
  {
    EmittedAfter(fp, Lives(fp, row, later), emitted, replayed);
    CalmIff(fp, later);
    if row.Some? {
      BatchLives(fp, row, replayed, |replayed|);
      PlacesCarry(fp, row.value, PlacesOf(fp, replayed, |replayed|), later, |later|);
    } else if Calm(later, fp) {
      UnknownAmidIff(fp, emitted, replayed, later);
    } else {
      BornAlikeIff(fp, replayed, later);
    }
  }

  /** Whatever sorts after the scan, state and replay agree on a fingerprint exactly when it fits. */
  lemma OverlapIff(fp: string, row: Option<Row>, emitted: seq<Event>, replayed: seq<Event>, later: seq<Event>)
    requires Exclusive(emitted) && Exclusive(replayed) && (forall x :: x in emitted <==> x in replayed)
    ensures SameOrders(fp, row, emitted, replayed, later) <==> Fits(fp, row, emitted, replayed, later)
  {
    CalmIff(fp, replayed);
    if Calm(replayed, fp) {
      SameCalm(fp, replayed, emitted);
      CalmScanLives(fp, row, replayed, |replayed|);
      CalmScanLives(fp, Lives(fp, row, later), emitted, |emitted|);
    } else if Ends(fp, later, |later|) {
      EndedIff(fp, row, emitted, replayed, later);
    } else if Ends(fp, replayed, |replayed|) {
      RemediatedIff(fp, row, emitted, replayed, later);
    } else {
      SightedIff(fp, row, emitted, replayed, later);
    }
  }

  // ---------------------------------------------------------------------
  // The step
  // ---------------------------------------------------------------------

  /** Every fingerprint fits, given what a replay finds before the scan's lines and after them. */
  ghost predicate AllFit(before: seq<Event>, emitted: seq<Event>, replayed: seq<Event>, later: seq<Event>) {
    forall fp :: FitsAt(fp, before, emitted, replayed, later)
  }

  ghost predicate FitsAt(fp: string, before: seq<Event>, emitted: seq<Event>, replayed: seq<Event>, later: seq<Event>) {
    Fits(fp, Lives(fp, None, before), emitted, replayed, later)
  }

  lemma RowOverlapIff(fs: seq<Finding>, baseline: seq<string>, c: Command, fp: string,
                      before: seq<Event>, replayed: seq<Event>, later: seq<Event>)
    requires c.Scan? && Unique(fs) && Recorded(fs, baseline, c.merged)
    requires var evs := Pinned(Folded(fs, baseline, c.merged, c.cov, c.o, c.at).events);
      forall x :: x in replayed <==> x in evs
    requires Look(fs, fp) == Lives(fp, None, before + later)
    ensures var r := Folded(fs, baseline, c.merged, c.cov, c.o, c.at);
      Look(r.findings, fp) == Lives(fp, None, before + replayed + later) <==>
      FitsAt(fp, before, Pinned(r.events), replayed, later)
  {
    var r := Folded(fs, baseline, c.merged, c.cov, c.o, c.at);
    var evs, row := Pinned(r.events), Lives(fp, None, before);
    FoldFollows(fs, baseline, c.merged, c.cov, c.o, c.at);
    FoldEmits(fs, baseline, c.merged, c.cov, c.o, c.at);
    EmittedExclusive(c.merged, c.o, c.at, r.events);
    SameSetExclusive(evs, replayed);
    PinningKeepsLives(fp, Look(fs, fp), r.events, |r.events|);
    assert Look(r.findings, fp) == Lives(fp, Look(fs, fp), r.events);
    assert Lives(fp, Look(fs, fp), evs) == Lives(fp, Look(fs, fp), r.events);
    LivesConcat(fp, None, before, later);
    LivesConcat(fp, None, before, replayed);
    LivesConcat(fp, None, before + replayed, later);
    OverlapIff(fp, row, evs, replayed, later);
  }

  /**
   Whatever committed while a scan ran: when the scan inserts no baseline row and its ids
   spare the list, state and log stay in step exactly when every fingerprint fits.
   */
  lemma ScanOverlapKeepsStepIff(w: Codec, sys: System, c: Command, k: nat)
    requires Injective(w) && InStep(w, sys) && c.Scan? && ScanInGap(w, sys, c, k)
    requires Accepted(sys.disk.findings, sys.disk.baseline, c.merged, c.cov, c.o, c.at) && WholeFps(c.merged)
    requires Recorded(sys.disk.findings, sys.disk.baseline, c.merged)
    requires Spared(Folded(sys.disk.findings, sys.disk.baseline, c.merged, c.cov, c.o, c.at).findings)
    ensures var d := sys.disk;
      var evs := Folded(d.findings, d.baseline, c.merged, c.cov, c.o, c.at).events;
      InStep(w, Scanning(w, sys, c)) <==>
      AllFit(UpToGap(sys.log, k), Pinned(evs), ScanEvents(w, c, d.findings, d.baseline), FromGap(sys.log, k))
  {
    var d := sys.disk;
    var r := Folded(d.findings, d.baseline, c.merged, c.cov, c.o, c.at);
    var a, x, b := UpToGap(sys.log, k), ScanEvents(w, c, d.findings, d.baseline), FromGap(sys.log, k);
    var log' := Scanning(w, sys, c).log;
    ReplayAmid(w, sys, c, k);
    FoldActsPerFingerprint(w.idOf, EMPTY, EventsOf(Visited(sys.log)));
    FoldActsPerFingerprint(w.idOf, EMPTY, EventsOf(Visited(log')));
    var was, now := Replayed(w.idOf, sys.log).value.findings, Replayed(w.idOf, log').value.findings;
    forall fp ensures Look(r.findings, fp) == Look(now, fp) <==> FitsAt(fp, a, Pinned(r.events), x, b) {
      assert Look(d.findings, fp) == Look(was, fp);
      RowOverlapIff(d.findings, d.baseline, c, fp, a, x, b);
    }
    FoldFollows(d.findings, d.baseline, c.merged, c.cov, c.o, c.at);
    FoldKeepsLong(d.findings, d.baseline, c.merged, c.cov, c.o, c.at);
    StoredSame(r.findings);
    AgreeLeft(Stored(r.findings), r.findings, now);
    InStepMeans(w, sys, Scanning(w, sys, c));
    FitIsAgreement(r.findings, now, a, Pinned(r.events), x, b);
  }

  lemma FitIsAgreement(folded: seq<Finding>, now: seq<Finding>,
                       before: seq<Event>, emitted: seq<Event>, replayed: seq<Event>, later: seq<Event>)
    requires forall fp :: Look(folded, fp) == Look(now, fp) <==> FitsAt(fp, before, emitted, replayed, later)
    ensures Agree(folded, now) <==> AllFit(before, emitted, replayed, later)
  {
    if AllFit(before, emitted, replayed, later) {
      forall fp ensures Look(folded, fp) == Look(now, fp) {
        assert FitsAt(fp, before, emitted, replayed, later);
      }
    }
    if Agree(folded, now) {
      forall fp ensures FitsAt(fp, before, emitted, replayed, later) {
        assert Look(folded, fp) == Look(now, fp);
      }
    }
  }

  // ---------------------------------------------------------------------
  // When no other scan met its findings
  // ---------------------------------------------------------------------

  /** What the one scan's events detect or remediate, no scan that committed meanwhile did. */
  ghost predicate Undisturbed(scanned: seq<Event>, later: seq<Event>) {
    forall fp :: !Calm(scanned, fp) ==> Calm(later, fp)
  }

  /** Of every new fingerprint, the first detection holds. */
  ghost predicate FirstsHold(fs: seq<Finding>, emitted: seq<Event>, replayed: seq<Event>, later: seq<Event>) {
    forall fp :: !Known(fs, fp) ==> FirstHolds(fp, emitted, replayed, later)
  }

  lemma CalmFitsIff(fp: string, row: Option<Row>, emitted: seq<Event>, replayed: seq<Event>, later: seq<Event>)
    requires Exclusive(emitted) && Exclusive(replayed) && (forall x :: x in emitted <==> x in replayed)
    requires Calm(replayed, fp) || Calm(later, fp)
    ensures Fits(fp, row, emitted, replayed, later) <==>
            (Lives(fp, row, later).Some? || FirstHolds(fp, emitted, replayed, later))
  {
    OverlapIff(fp, row, emitted, replayed, later);
    AmidIff(fp, row, emitted, replayed, later);
  }

  lemma UndisturbedFits(fs: seq<Finding>, before: seq<Event>, emitted: seq<Event>, replayed: seq<Event>, later: seq<Event>)
    requires Exclusive(emitted) && Exclusive(replayed) && (forall x :: x in emitted <==> x in replayed)
    requires Undisturbed(replayed, later) && forall fp :: Look(fs, fp) == Lives(fp, None, before + later)
    ensures AllFit(before, emitted, replayed, later) <==> FirstsHold(fs, emitted, replayed, later)
  {
    forall fp ensures FitsAt(fp, before, emitted, replayed, later) <==>
      (!Known(fs, fp) ==> FirstHolds(fp, emitted, replayed, later))
    {
      LivesConcat(fp, None, before, later);
      assert Look(fs, fp) == Lives(fp, None, before + later);
      CalmFitsIff(fp, Lives(fp, None, before), emitted, replayed, later);
    }
    if AllFit(before, emitted, replayed, later) {
      forall fp | !Known(fs, fp) ensures FirstHolds(fp, emitted, replayed, later) {
        assert FitsAt(fp, before, emitted, replayed, later);
      }
    }
    if FirstsHold(fs, emitted, replayed, later) {
      forall fp ensures FitsAt(fp, before, emitted, replayed, later) {
        assert !Known(fs, fp) ==> FirstHolds(fp, emitted, replayed, later);
      }
    }
  }

  /**
   Commands that committed while a scan ran do no harm, scans among them as long as they
   detect and remediate other fingerprints: only the first detections decide.
   */
  lemma UndisturbedFitsIff(w: Codec, sys: System, c: Command, k: nat)
    requires Injective(w) && InStep(w, sys) && c.Scan? && ScanInGap(w, sys, c, k)
    requires Accepted(sys.disk.findings, sys.disk.baseline, c.merged, c.cov, c.o, c.at)
    requires Undisturbed(ScanEvents(w, c, sys.disk.findings, sys.disk.baseline), FromGap(sys.log, k))
    ensures var d := sys.disk;
      var evs, x := Pinned(Folded(d.findings, d.baseline, c.merged, c.cov, c.o, c.at).events), ScanEvents(w, c, d.findings, d.baseline);
      AllFit(UpToGap(sys.log, k), evs, x, FromGap(sys.log, k)) <==> FirstsHold(d.findings, evs, x, FromGap(sys.log, k))
  {
    var d := sys.disk;
    var evs := Folded(d.findings, d.baseline, c.merged, c.cov, c.o, c.at).events;
    var x := ScanEvents(w, c, d.findings, d.baseline);
    ReplayAmid(w, sys, c, k);
    FoldEmits(d.findings, d.baseline, c.merged, c.cov, c.o, c.at);
    EmittedExclusive(c.merged, c.o, c.at, evs);
    SameSetExclusive(Pinned(evs), x);
    FoldActsPerFingerprint(w.idOf, EMPTY, EventsOf(Visited(sys.log)));
    forall fp ensures Look(d.findings, fp) == Lives(fp, None, UpToGap(sys.log, k) + FromGap(sys.log, k)) {
      assert Look(d.findings, fp) == Look(Replayed(w.idOf, sys.log).value.findings, fp);
    }
    UndisturbedFits(d.findings, UpToGap(sys.log, k), Pinned(evs), x, FromGap(sys.log, k));
  }
}
