/**
 Triage, suppress and defer (triage.go:123-159): exactly when the log bears out
 what they do to the state, wherever their line sorts.
 */
module Mutations {
  import opened Wrappers
  import opened Events
  import opened Findings
  import opened LogOrder
  import opened Replay
  import opened AssignIds
  import opened Lookup
  import opened Commands
  import opened Agreement

  // ---------------------------------------------------------------------
  // Triage, suppress, defer
  // ---------------------------------------------------------------------

  predicate Mutates(c: Command) {
    c.Triage? || c.Suppress? || c.Defer?
  }

  predicate Judges(ev: Event) {
    ev.kind == Triaged && ev.payload.TriagedData?
  }

  /** None of the events ends the finding's life. */
  ghost predicate Lasts(evs: seq<Event>, fp: string) {
    forall i :: 0 <= i < |evs| && evs[i].fp == fp ==> evs[i].kind != Remediated
  }

  ghost predicate VerdictLasts(evs: seq<Event>, fp: string) {
    forall i :: 0 <= i < |evs| && evs[i].fp == fp ==> !Judges(evs[i])
  }

  ghost predicate StatusLasts(evs: seq<Event>, fp: string) {
    forall i :: 0 <= i < |evs| && evs[i].fp == fp ==>
      !Judges(evs[i]) && evs[i].kind != Suppressed && evs[i].kind != Deferred
  }

  /** What becomes of a new status and verdict, compared with the row that was not given them. */
  ghost predicate Carried(evs: seq<Event>, fp: string, a: Row, s: Status, v: Option<Verdict>,
                          was: Option<Row>, now: Option<Row>) {
    if !Lasts(evs, fp) then now == was
    else
      && was.Some?
      && now == Some(was.value.(status := if StatusLasts(evs, fp) then s else was.value.status,
                                verdict := if VerdictLasts(evs, fp) then v else was.value.verdict))
      && (StatusLasts(evs, fp) ==> was.value.status == a.status)
      && (VerdictLasts(evs, fp) ==> was.value.verdict == a.verdict)
  }

  lemma {:induction false} CarriedAlong(evs: seq<Event>, fp: string, a: Row, s: Status, v: Option<Verdict>)
    ensures Carried(evs, fp, a, s, v, Lives(fp, Some(a), evs), Lives(fp, Some(a.(status := s, verdict := v)), evs))
    decreases |evs|
  {
    if evs != [] {
      var n := |evs| - 1;
      var front, last := evs[..n], evs[n];
      assert evs == front + [last];
      CarriedAlong(front, fp, a, s, v);
      LivesOne(fp, Some(a), front, last);
      LivesOne(fp, Some(a.(status := s, verdict := v)), front, last);
      assert Lasts(evs, fp) <==> Lasts(front, fp) && (last.fp == fp ==> last.kind != Remediated);
      assert VerdictLasts(evs, fp) <==> VerdictLasts(front, fp) && (last.fp == fp ==> !Judges(last));
      assert StatusLasts(evs, fp) <==>
        StatusLasts(front, fp) && (last.fp == fp ==> !Judges(last) && last.kind != Suppressed && last.kind != Deferred);
    }
  }

  /**
   The log bears out what a mutation did to the state: at its place in the visit the
   finding is alive, and no line of it that sorts later ends its life or decides the
   same anew; or the state already said so.
   */
  ghost predicate TakesEffect(c: Command, f: Finding, before: Option<Row>, later: seq<Event>)
    requires Mutates(c)
  {
    var g := Mutated(c, f, MutationEvent(c, f.fp));
    && (f.status == g.status || (before.Some? && Lasts(later, f.fp) && StatusLasts(later, f.fp)))
    && (WholeSeconds(f.verdict) == WholeSeconds(g.verdict) || (before.Some? && Lasts(later, f.fp) && VerdictLasts(later, f.fp)))
  }

  /** The line of a mutation on the row alive at its place. */
  lemma MutationLives(c: Command, f: Finding, row: Option<Row>)
    requires Mutates(c) && Valid(MutationEvent(c, f.fp))
    ensures var g := RowOf(Mutated(c, f, MutationEvent(c, f.fp)));
      && g == RowOf(f).(status := g.status, verdict := g.verdict)
      && Life(f.fp, row, Pin(MutationEvent(c, f.fp))) ==
         if row.None? then None
         else Some(row.value.(status := g.status, verdict := if c.Triage? then g.verdict else row.value.verdict))
  {
    PinKeepsTheSecond(MutationEvent(c, f.fp));
  }

  lemma EffectIff(c: Command, f: Finding, before: Option<Row>, later: seq<Event>)
    requires Mutates(c) && Valid(MutationEvent(c, f.fp))
    requires var ev := Pin(MutationEvent(c, f.fp));
      || Lives(f.fp, before, later) == Some(RowOf(f))
      || Lives(f.fp, Life(f.fp, before, ev), later) == Some(RowOf(f))
    ensures var ev := MutationEvent(c, f.fp);
      Lives(f.fp, Life(f.fp, before, Pin(ev)), later) == Some(RowOf(Mutated(c, f, ev))) <==> TakesEffect(c, f, before, later)
  {
    var g := RowOf(Mutated(c, f, MutationEvent(c, f.fp)));
    MutationLives(c, f, before);
    if before.Some? {
      var a := before.value;
      CarriedAlong(later, f.fp, a, g.status, if c.Triage? then g.verdict else a.verdict);
    }
  }

  /** A mutation leaves every other fingerprint as it was, in the state and in the log. */
  lemma OthersUnmoved(fs: seq<Finding>, k: nat, f: Finding, a: seq<Event>, ev: Event, b: seq<Event>, fp: string)
    requires k < |fs| && f.fp == fs[k].fp == ev.fp && fp != f.fp && Unique(fs)
    ensures Look(fs[k := f], fp) == Look(fs, fp)
    ensures Lives(fp, None, a + [ev] + b) == Lives(fp, None, a + b)
  {
    LatestIs(fs, k);
    LookUpdate(fs, k, f, fp);
    LivesConcat(fp, None, a, b);
    LivesConcat(fp, None, a + [ev], b);
    LivesOne(fp, None, a, ev);
  }

  /** The row a mutation resolves to, if it writes anything. */
  predicate Hits(sys: System, c: Command, k: nat)
    requires Mutates(c)
  {
    && k < |sys.disk.findings| && Resolve(sys.disk.findings, c.id) == Found(k)
    && Valid(MutationEvent(c, sys.disk.findings[k].fp))
  }

  /** What a replay knows of the finding where the mutation's line sorts. */
  function AliveAt(w: Codec, log: seq<Entry>, ev: Event): Option<Row> {
    Lives(ev.fp, None, Earlier(w, log, ev))
  }

  ghost predicate Effective(w: Codec, sys: System, c: Command, k: nat)
    requires Mutates(c) && k < |sys.disk.findings|
  {
    var f := sys.disk.findings[k];
    var ev := MutationEvent(c, f.fp);
    TakesEffect(c, f, AliveAt(w, sys.log, ev), Afterwards(w, sys.log, ev))
  }

  /** The replay of the finding's life with the mutation in it gives the mutated row exactly when that takes effect. */
  lemma MutantIff(w: Codec, sys: System, c: Command, k: nat)
    requires Injective(w) && InStep(w, sys) && Mutates(c) && Hits(sys, c, k)
    ensures var f := sys.disk.findings[k];
      var ev := MutationEvent(c, f.fp);
      Effective(w, sys, c, k) <==>
      Lives(f.fp, None, Earlier(w, sys.log, ev) + [Pin(ev)] + Afterwards(w, sys.log, ev)) == Some(RowOf(Mutated(c, f, ev)))
  {
    var f := sys.disk.findings[k];
    var ev := MutationEvent(c, f.fp);
    var a, b := Earlier(w, sys.log, ev), Afterwards(w, sys.log, ev);
    ReplayInserted(w, sys.log, ev);
    FoldActsPerFingerprint(w.idOf, EMPTY, EventsOf(Visited(sys.log)));
    LatestIs(sys.disk.findings, k);
    assert Look(sys.disk.findings, f.fp) == Look(Replayed(w.idOf, sys.log).value.findings, f.fp);
    assert a + [] == a;
    LivesConcat(f.fp, None, a, b);
    LivesConcat(f.fp, None, a + [Pin(ev)], b);
    LivesOne(f.fp, None, a, Pin(ev));
    EffectIff(c, f, AliveAt(w, sys.log, ev), b);
  }

  /** What the mutated list and the replay of the longer log agree on. */
  lemma MutantsAgree(w: Codec, sys: System, c: Command, k: nat, replayed: seq<Finding>)
    requires Injective(w) && InStep(w, sys) && Mutates(c) && Hits(sys, c, k)
    requires var ev := MutationEvent(c, sys.disk.findings[k].fp);
      forall fp :: Look(replayed, fp) == Lives(fp, None, Earlier(w, sys.log, ev) + [Pin(ev)] + Afterwards(w, sys.log, ev))
    ensures Agree(Mutate(w, sys, c).disk.findings, replayed) <==> Effective(w, sys, c, k)
  {
    var fs, f := sys.disk.findings, sys.disk.findings[k];
    var ev := MutationEvent(c, f.fp);
    var g, a, b := Mutated(c, f, ev), Earlier(w, sys.log, ev), Afterwards(w, sys.log, ev);
    MutantIff(w, sys, c, k);
    LatestIs(fs, k);
    LookUpdate(fs, k, g, f.fp);
    assert Look(replayed, f.fp) == Lives(f.fp, None, a + [Pin(ev)] + b);
    forall fp | fp != f.fp ensures Look(fs[k := g], fp) == Look(replayed, fp) {
      MutantsSpare(w, sys, c, k, fp);
      assert Look(replayed, fp) == Lives(fp, None, a + [Pin(ev)] + b);
    }
  }

  lemma MutantsSpare(w: Codec, sys: System, c: Command, k: nat, fp: string)
    requires Injective(w) && InStep(w, sys) && Mutates(c) && Hits(sys, c, k) && fp != sys.disk.findings[k].fp
    ensures var ev := MutationEvent(c, sys.disk.findings[k].fp);
      Look(Mutate(w, sys, c).disk.findings, fp) ==
      Lives(fp, None, Earlier(w, sys.log, ev) + [Pin(ev)] + Afterwards(w, sys.log, ev))
  {
    var fs, f := sys.disk.findings, sys.disk.findings[k];
    var ev := MutationEvent(c, f.fp);
    var a, b := Earlier(w, sys.log, ev), Afterwards(w, sys.log, ev);
    ReplayInserted(w, sys.log, ev);
    FoldActsPerFingerprint(w.idOf, EMPTY, EventsOf(Visited(sys.log)));
    assert Look(fs, fp) == Look(Replayed(w.idOf, sys.log).value.findings, fp);
    assert a + [] == a;
    OthersUnmoved(fs, k, Mutated(c, f, ev), a, Pin(ev), b, fp);
  }

  /** Triage, suppress and defer keep state and log in step exactly when the log bears them out. */
  lemma MutateKeepsStepIff(w: Codec, sys: System, c: Command, k: nat)
    requires Injective(w) && InStep(w, sys) && Mutates(c) && Hits(sys, c, k)
    ensures InStep(w, Mutate(w, sys, c)) <==> Effective(w, sys, c, k)
  {
    var now := Mutate(w, sys, c);
    ReplayInserted(w, sys.log, MutationEvent(c, sys.disk.findings[k].fp));
    FoldActsPerFingerprint(w.idOf, EMPTY, EventsOf(Visited(now.log)));
    MutantsAgree(w, sys, c, k, Replayed(w.idOf, now.log).value.findings);
    assert FingerprintsOf(now.disk.findings) == FingerprintsOf(sys.disk.findings);
    InStepMeans(w, sys, now);
  }

  /** So they do whenever their line sorts last. */
  lemma SortedLastTakesEffect(w: Codec, sys: System, c: Command, k: nat)
    requires Injective(w) && InStep(w, sys) && Mutates(c) && Hits(sys, c, k)
    requires SortLast(w, sys.log, [MutationEvent(c, sys.disk.findings[k].fp)])
    ensures Effective(w, sys, c, k)
  {
    var f := sys.disk.findings[k];
    var ev := MutationEvent(c, f.fp);
    var l, v := Line(w, ev), Visited(sys.log);
    CanonicalCoherent(w, sys.log);
    VisitedOrders(sys.log);
    assert LinesOf(w, [ev])[0] == l;
    CutLast(v, l);
    FoldActsPerFingerprint(w.idOf, EMPTY, EventsOf(v));
    LatestIs(sys.disk.findings, k);
    assert Look(sys.disk.findings, f.fp) == Look(Replayed(w.idOf, sys.log).value.findings, f.fp);
  }

  lemma MutateKeepsStep(w: Codec, sys: System, c: Command)
    requires Injective(w) && InStep(w, sys) && Mutates(c)
    requires forall k: nat :: Hits(sys, c, k) ==> Effective(w, sys, c, k)
    ensures InStep(w, Mutate(w, sys, c))
  {
    var r := Resolve(sys.disk.findings, c.id);
    if r.Found? && Hits(sys, c, r.k) {
      MutateKeepsStepIff(w, sys, c, r.k);
    }
  }
}
