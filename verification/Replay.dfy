/**
 The fold that regenerates state from the log (rebuild.go:44-156), as a function
 on lists. `ItemId` derives an open item's id from its event; its hash is left
 open, so every statement holds for every id function.
 */
module Replay {
  import opened Wrappers
  import opened Events
  import opened Findings
  import opened LogOrder

  type ItemId = Event -> string

  datatype ReplayError = PayloadMismatch | UnknownItem(id: string)

  datatype State = State(findings: seq<Finding>, items: seq<Item>)

  const EMPTY := State([], [])

  // ---------------------------------------------------------------------
  // One event
  // ---------------------------------------------------------------------

  function Fresh(ev: Event): Finding
    requires ev.payload.DetectedData?
  {
    var d := ev.payload;
    Finding(ev.fp, "", d.rule, d.rule, d.scanner, d.also,
            d.scanner == "gitleaks" || d.also != [] || Contains(d.rule, "secret") || Contains(d.rule, "token"),
            d.dev, [], d.severity, d.description, [Location(d.path, d.line)],
            ev.ts, ev.ts, Open, None, false)
  }

  function Again(f: Finding, ev: Event): Finding
    requires ev.payload.DetectedData?
  {
    f.(locs := AddLoc(f.locs, Location(ev.payload.path, ev.payload.line)), lastSeen := ev.ts)
  }

  function Judged(f: Finding, ev: Event): Finding
    requires ev.payload.TriagedData?
  {
    f.(verdict := Some(VerdictOf(ev)), status := StatusOf(ev.payload.verdict))
  }

  predicate PayloadFits(ev: Event) {
    match ev.kind
    case Detected => ev.payload.DetectedData?
    case Triaged => ev.payload.TriagedData?
    case Raised => ev.payload.RaisedData?
    case Resolved => ev.payload.ResolvedData?
    case _ => true
  }

  function FindingsStep(fs: seq<Finding>, ev: Event): seq<Finding>
    requires PayloadFits(ev)
  {
    var k := Latest(fs, ev.fp);
    match ev.kind
    case Detected => if k < 0 then fs + [Fresh(ev)] else fs[k := Again(fs[k], ev)]
    case Triaged => if k < 0 then fs else fs[k := Judged(fs[k], ev)]
    case Suppressed => if k < 0 then fs else fs[k := fs[k].(status := Silenced)]
    case Deferred => if k < 0 then fs else fs[k := fs[k].(status := Postponed)]
    case Remediated => if k < 0 then fs else Without(fs, k)
    case _ => fs
  }

  function IdsOf(items: seq<Item>): set<string> {
    set it | it in items :: it.id
  }

  function Opened(idOf: ItemId, items: seq<Item>, ev: Event): Item
    requires ev.payload.RaisedData?
  {
    var id := idOf(ev);
    Item(if id in IdsOf(items) then id + "-2" else id,
         ev.payload.itemKind, ev.payload.question, ev.payload.about, ev.ts, ev.actor)
  }

  function Closing(items: seq<Item>, id: string): seq<Item> {
    if items == [] then []
    else Closing(items[..|items| - 1], id) + if items[|items| - 1].id == id then [] else [items[|items| - 1]]
  }

  function ItemsStep(idOf: ItemId, items: seq<Item>, ev: Event): Result<seq<Item>, ReplayError>
    requires PayloadFits(ev)
  {
    match ev.kind
    case Raised => Success(items + [Opened(idOf, items, ev)])
    case Resolved =>
      if ev.payload.item in IdsOf(items) then Success(Closing(items, ev.payload.item))
      else Failure(UnknownItem(ev.payload.item))
    case _ => Success(items)
  }

  function Step(idOf: ItemId, st: State, ev: Event): Result<State, ReplayError> {
    if !PayloadFits(ev) then Failure(PayloadMismatch)
    else
      match ItemsStep(idOf, st.items, ev)
      case Failure(e) => Failure(e)
      case Success(items) => Success(State(FindingsStep(st.findings, ev), items))
  }

  // ---------------------------------------------------------------------
  // The whole log
  // ---------------------------------------------------------------------

  function FoldFrom(idOf: ItemId, st: State, evs: seq<Event>): Result<State, ReplayError> {
    if evs == [] then Success(st)
    else
      match FoldFrom(idOf, st, evs[..|evs| - 1])
      case Failure(e) => Failure(e)
      case Success(s) => Step(idOf, s, evs[|evs| - 1])
  }

  /** Replay of a log: impose the order, collapse identical lines, fold. */
  function Replayed(idOf: ItemId, log: seq<Entry>): Result<State, ReplayError> {
    FoldFrom(idOf, EMPTY, EventsOf(Visited(log)))
  }

  lemma {:induction false} FoldConcat(idOf: ItemId, st: State, a: seq<Event>, b: seq<Event>)
    ensures FoldFrom(idOf, st, a + b) ==
            match FoldFrom(idOf, st, a)
            case Failure(e) => Failure(e)
            case Success(mid) => FoldFrom(idOf, mid, b)
    decreases |b|
  {
    if b == [] {
      assert a + b == a;
    } else {
      assert (a + b)[..|a + b| - 1] == a + b[..|b| - 1];
      FoldConcat(idOf, st, a, b[..|b| - 1]);
    }
  }

  /** The order of the lines in the files, their duplicates, and merges of branches do not matter. */
  lemma ReplayDependsOnLineSet(idOf: ItemId, a: seq<Entry>, b: seq<Entry>)
    requires Coherent(a) && Coherent(b)
    requires forall e :: e in a <==> e in b
    ensures Replayed(idOf, a) == Replayed(idOf, b)
  {
    VisitedDependsOnLineSet(a, b);
  }

  // ---------------------------------------------------------------------
  // Index invariant and the view of one fingerprint
  // ---------------------------------------------------------------------

  /** Distinct fingerprints, each with at least one location and none twice. */
  ghost predicate Indexed(fs: seq<Finding>) {
    && Unique(fs)
    && forall i :: 0 <= i < |fs| ==> fs[i].locs != [] && NoRepeats(fs[i].locs)
  }

  ghost predicate NoRepeats(locs: seq<Location>) {
    forall i, j :: 0 <= i < j < |locs| ==> locs[i] != locs[j]
  }

  lemma AddLocPlaces(locs: seq<Location>, l: Location)
    ensures Places(AddLoc(locs, l)) == Places(locs) + {l}
    ensures NoRepeats(locs) ==> NoRepeats(AddLoc(locs, l))
  {
    assert forall x :: x in locs + [l] <==> x in locs || x == l;
  }

  lemma WithoutKeepsIndex(fs: seq<Finding>, k: nat)
    requires Indexed(fs) && k < |fs|
    ensures Indexed(Without(fs, k))
  {
    LatestWithout(fs, k, fs[k].fp);
    assert forall i :: 0 <= i < |fs| - 1 ==> Without(fs, k)[i] == fs[if i < k then i else i + 1];
  }

  lemma UpdateKeepsIndex(fs: seq<Finding>, k: nat, f: Finding)
    requires Indexed(fs) && k < |fs| && f.fp == fs[k].fp && f.locs != [] && NoRepeats(f.locs)
    ensures Indexed(fs[k := f])
  {
  }

  lemma StepKeepsIndex(fs: seq<Finding>, ev: Event)
    requires PayloadFits(ev) && Indexed(fs)
    ensures Indexed(FindingsStep(fs, ev))
  {
    var k := Latest(fs, ev.fp);
    match ev.kind
    case Detected =>
      if k >= 0 {
        AddLocPlaces(fs[k].locs, Location(ev.payload.path, ev.payload.line));
        UpdateKeepsIndex(fs, k, Again(fs[k], ev));
      }
    case Triaged => if k >= 0 { UpdateKeepsIndex(fs, k, Judged(fs[k], ev)); }
    case Suppressed => if k >= 0 { UpdateKeepsIndex(fs, k, fs[k].(status := Silenced)); }
    case Deferred => if k >= 0 { UpdateKeepsIndex(fs, k, fs[k].(status := Postponed)); }
    case Remediated => if k >= 0 { WithoutKeepsIndex(fs, k); }
    case _ =>
  }

  lemma LookUpdate(fs: seq<Finding>, k: int, f: Finding, fp: string)
    requires 0 <= k < |fs| && f.fp == fs[k].fp && k == Latest(fs, f.fp)
    ensures Look(fs[k := f], fp) == if fp == f.fp then Some(RowOf(f)) else Look(fs, fp)
  {
    LatestUpdate(fs, k, f, fp);
  }

  lemma LookAppend(fs: seq<Finding>, f: Finding, fp: string)
    ensures Look(fs + [f], fp) == if fp == f.fp then Some(RowOf(f)) else Look(fs, fp)
  {
    LatestAppend(fs, f, fp);
  }

  lemma LookWithout(fs: seq<Finding>, k: nat, fp: string)
    requires k < |fs| && Unique(fs)
    ensures Look(Without(fs, k), fp) == if fp == fs[k].fp then None else Look(fs, fp)
  {
    LatestWithout(fs, k, fp);
  }

  lemma StepLook(fs: seq<Finding>, ev: Event, fp: string)
    requires PayloadFits(ev) && Unique(fs)
    ensures Look(FindingsStep(fs, ev), fp) == Life(fp, Look(fs, fp), ev)
  {
    var k := Latest(fs, ev.fp);
    match ev.kind
    case Detected =>
      var l := Location(ev.payload.path, ev.payload.line);
      if k < 0 {
        assert Places([l]) == {l};
        LookAppend(fs, Fresh(ev), fp);
      } else {
        AddLocPlaces(fs[k].locs, l);
        LookUpdate(fs, k, Again(fs[k], ev), fp);
      }
    case Triaged => if k >= 0 { LookUpdate(fs, k, Judged(fs[k], ev), fp); }
    case Suppressed => if k >= 0 { LookUpdate(fs, k, fs[k].(status := Silenced), fp); }
    case Deferred => if k >= 0 { LookUpdate(fs, k, fs[k].(status := Postponed), fp); }
    case Remediated => if k >= 0 { LookWithout(fs, k, fp); }
    case _ =>
  }

  /** One event keeps the index invariant and acts on every fingerprint separately. */
  lemma StepActsPerFingerprint(fs: seq<Finding>, ev: Event)
    requires PayloadFits(ev) && Indexed(fs)
    ensures Indexed(FindingsStep(fs, ev))
    ensures forall fp :: Look(FindingsStep(fs, ev), fp) == Life(fp, Look(fs, fp), ev)
  {
    StepKeepsIndex(fs, ev);
    forall fp ensures Look(FindingsStep(fs, ev), fp) == Life(fp, Look(fs, fp), ev) {
      StepLook(fs, ev, fp);
    }
  }

  /** What replay knows of a fingerprint is the life of that fingerprint. */
  lemma {:induction false} FoldActsPerFingerprint(idOf: ItemId, st: State, evs: seq<Event>)
    requires Indexed(st.findings)
    ensures FoldFrom(idOf, st, evs).Success? ==>
      var st' := FoldFrom(idOf, st, evs).value;
      && Indexed(st'.findings)
      && forall fp :: Look(st'.findings, fp) == Lives(fp, Look(st.findings, fp), evs)
    decreases |evs|
  {
    if evs != [] {
      var front := evs[..|evs| - 1];
      FoldActsPerFingerprint(idOf, st, front);
      assert evs == front + [evs[|evs| - 1]];
      if FoldFrom(idOf, st, evs).Success? {
        var mid, last := FoldFrom(idOf, st, front).value.findings, evs[|evs| - 1];
        StepActsPerFingerprint(mid, last);
        forall fp ensures Look(FindingsStep(mid, last), fp) == Lives(fp, Look(st.findings, fp), evs) {
          LivesOne(fp, Look(st.findings, fp), front, last);
        }
      }
    }
  }

  /** The two halves of a step never mix: finding events leave items alone and conversely. */
  lemma {:induction false} FindingEventsKeepItems(idOf: ItemId, st: State, evs: seq<Event>)
    requires forall i :: 0 <= i < |evs| ==> PayloadFits(evs[i]) && evs[i].kind != Raised && evs[i].kind != Resolved
    ensures FoldFrom(idOf, st, evs).Success? && FoldFrom(idOf, st, evs).value.items == st.items
    decreases |evs|
  {
    if evs != [] {
      FindingEventsKeepItems(idOf, st, evs[..|evs| - 1]);
    }
  }
}
