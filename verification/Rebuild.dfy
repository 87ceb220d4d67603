/**
 `Rebuild` (rebuild.go:22-248): the replay loop over shared finding pointers, a
 fingerprint index and an item index, followed by the baseline marks and the
 display ids.
 */
module Rebuild {
  import opened Wrappers
  import opened Events
  import opened Findings
  import opened Index
  import opened LogOrder
  import opened Replay
  import opened DisplayIds
  import opened AssignIds

  /** What decoding guarantees of a line: kinds about a finding carry a whole fingerprint. */
  predicate Decoded(ev: Event) {
    ev.kind != Unknown && FingerprintRequired(ev.kind) ==> ValidFingerprint(ev.fp)
  }

  // ---------------------------------------------------------------------
  // Small loops
  // ---------------------------------------------------------------------

  method AppendUniqueLoc(locs: seq<Location>, loc: Location) returns (r: seq<Location>)
    ensures r == AddLoc(locs, loc)
  {
    for i := 0 to |locs|
      invariant loc !in locs[..i]
    {
      if locs[i] == loc {
        return locs;
      }
    }
    return locs + [loc];
  }

  /** The items without an id. */
  method Close(items: seq<Item>, id: string) returns (out: seq<Item>)
    ensures out == Closing(items, id)
  {
    out := [];
    for i := 0 to |items|
      invariant out == Closing(items[..i], id)
    {
      assert items[..i + 1][..i] == items[..i];
      if items[i].id != id {
        out := out + [items[i]];
      }
    }
    assert items[..|items|] == items;
  }

  /** The list without one pointer. */
  method Drop(cells: seq<FindingRef>, f: FindingRef, ghost k: nat) returns (out: seq<FindingRef>)
    requires DistinctCells(cells) && k < |cells| && cells[k] == f
    ensures out == cells[..k] + cells[k + 1..]
  {
    out := [];
    for i := 0 to |cells|
      invariant out == if i <= k then cells[..i] else cells[..k] + cells[k + 1..i]
    {
      if cells[i] != f {
        out := out + [cells[i]];
      }
    }
  }

  method Take(cells: seq<FindingRef>, f: FindingRef, ghost k: nat) returns (out: seq<FindingRef>)
    requires DistinctCells(cells) && k < |cells| && cells[k] == f
    ensures out == cells[..k] + cells[k + 1..]
    ensures DistinctCells(out) && Values(out) == Without(Values(cells), k)
  {
    out := Drop(cells, f, k);
    assert Values(out) == Without(Values(cells), k);
  }

  // ---------------------------------------------------------------------
  // The state the replay loop updates
  // ---------------------------------------------------------------------

  class Store {
    var findings: seq<FindingRef>
    var items: seq<Item>
    var findingsByFP: map<string, FindingRef>
    var itemsByID: set<string>

    ghost predicate Valid()
      reads this, findings
    {
      && DistinctCells(findings)
      && Unique(Values(findings))
      && Indexes(findingsByFP, findings, Values(findings))
      && itemsByID == IdsOf(items)
    }

    ghost function Model(): State
      reads this, findings
    {
      State(Values(findings), items)
    }

    constructor ()
      ensures Valid() && Model() == EMPTY && fresh(findings)
    {
      findings, items, findingsByFP, itemsByID := [], [], map[], {};
    }

    /** Overwrites one row through its pointer. */
    method Overwrite(f: FindingRef, ghost k: nat, v: Finding)
      requires Valid() && k < |findings| && findings[k] == f && v.fp == f.val.fp
      modifies f
      ensures Valid() && findings == old(findings) && items == old(items)
      ensures Values(findings) == old(Values(findings))[k := v]
    {
      IndexUpdate(findingsByFP, findings, Values(findings), k, v);
      f.val := v;
      assert Values(findings) == old(Values(findings))[k := v];
    }

    method Redetect(prev: FindingRef, ghost k: nat, ev: Event)
      requires Valid() && k < |findings| && findings[k] == prev && ev.payload.DetectedData?
      modifies prev
      ensures Valid() && findings == old(findings) && items == old(items)
      ensures Values(findings) == old(Values(findings))[k := Again(old(prev.val), ev)]
    {
      var locs := AppendUniqueLoc(prev.val.locs, Location(ev.payload.path, ev.payload.line));
      Overwrite(prev, k, prev.val.(locs := locs, lastSeen := ev.ts));
    }

    method Detect(ev: Event)
      requires Valid() && ev.kind == Detected && ev.payload.DetectedData?
      modifies this, findings
      ensures Valid() && Model() == State(FindingsStep(old(Values(findings)), ev), old(items))
      ensures forall i :: 0 <= i < |findings| ==> findings[i] in old(findings) || fresh(findings[i])
    {
      if ev.fp in findingsByFP {
        Redetect(findingsByFP[ev.fp], Latest(Values(findings), ev.fp), ev);
      } else {
        Insert(Fresh(ev));
      }
    }

    method Insert(v: Finding)
      requires Valid() && v.fp !in findingsByFP
      modifies this
      ensures Valid() && items == old(items) && Values(findings) == old(Values(findings)) + [v]
      ensures forall i :: 0 <= i < |findings| ==> findings[i] in old(findings) || fresh(findings[i])
    {
      var f := new FindingRef(v);
      ghost var vals := Values(findings);
      IndexAppend(findingsByFP, findings, vals, f, v);
      findings := findings + [f];
      findingsByFP := findingsByFP[v.fp := f];
      assert Values(findings) == vals + [v];
    }

    method Judge(ev: Event)
      requires Valid() && ev.kind == Triaged && ev.payload.TriagedData?
      modifies this, findings
      ensures Valid() && findings == old(findings)
      ensures Model() == State(FindingsStep(old(Values(findings)), ev), old(items))
    {
      if ev.fp in findingsByFP {
        var f := findingsByFP[ev.fp];
        var v := f.val.(verdict := Some(VerdictOf(ev)));
        v := v.(status := if ev.payload.verdict == "dismissed" then Dismissed else Confirmed);
        Overwrite(f, Latest(Values(findings), ev.fp), v);
      }
    }

    method SetStatus(ev: Event, status: Status) returns (known: bool)
      requires Valid()
      requires (ev.kind == Suppressed && status == Silenced) || (ev.kind == Deferred && status == Postponed)
      modifies this, findings
      ensures Valid() && findings == old(findings)
      ensures Model() == State(FindingsStep(old(Values(findings)), ev), old(items))
      ensures known <==> Known(old(Values(findings)), ev.fp)
    {
      known := ev.fp in findingsByFP;
      if known {
        var f := findingsByFP[ev.fp];
        Overwrite(f, Latest(Values(findings), ev.fp), f.val.(status := status));
      }
    }

    method RemoveFinding(f: FindingRef, ghost k: nat)
      requires Valid() && k < |findings| && findings[k] == f
      modifies this`findings, this`findingsByFP
      ensures Valid() && findings == old(findings)[..k] + old(findings)[k + 1..]
      ensures Values(findings) == Without(old(Values(findings)), k)
    {
      ghost var cells, vals := findings, Values(findings);
      assert f.val == vals[k];
      IndexRemove(findingsByFP, cells, vals, k);
      var rest := Take(findings, f, k);
      var index := findingsByFP - {f.val.fp};
      assert Indexes(index, rest, Without(vals, k));
      findingsByFP, findings := index, rest;
      assert Values(findings) == Without(vals, k);
    }

    method Remediate(ev: Event)
      requires Valid() && ev.kind == Remediated
      modifies this, findings
      ensures Valid() && Model() == State(FindingsStep(old(Values(findings)), ev), old(items))
      ensures forall i :: 0 <= i < |findings| ==> findings[i] in old(findings)
    {
      if ev.fp in findingsByFP {
        RemoveFinding(findingsByFP[ev.fp], Latest(Values(findings), ev.fp));
      }
    }

    method Raise(idOf: ItemId, ev: Event)
      requires Valid() && ev.kind == Raised && ev.payload.RaisedData?
      modifies this`items, this`itemsByID
      ensures Valid() && Success(items) == ItemsStep(idOf, old(items), ev)
    {
      var id := idOf(ev);
      if id in itemsByID {
        id := id + "-2";
      }
      var d := ev.payload;
      items := items + [Item(id, d.itemKind, d.question, d.about, ev.ts, ev.actor)];
      itemsByID := itemsByID + {id};
    }

    method RemoveItem(id: string)
      requires Valid() && id in itemsByID
      modifies this`items, this`itemsByID
      ensures Valid() && items == Closing(old(items), id)
    {
      var kept := Close(items, id);
      ClosingDropsId(items, id);
      items, itemsByID := kept, itemsByID - {id};
    }

    /** One iteration of the replay loop. */
    method Fold(idOf: ItemId, ev: Event) returns (error: Option<ReplayError>)
      requires Valid()
      modifies this, findings
      ensures Valid()
      ensures forall i :: 0 <= i < |findings| ==> findings[i] in old(findings) || fresh(findings[i])
      ensures error.None? ==> Step(idOf, old(Model()), ev) == Success(Model())
      ensures error.Some? ==> Step(idOf, old(Model()), ev) == Failure(error.value)
    {
      match ev.kind {
      case Detected =>
        if !ev.payload.DetectedData? { return Some(PayloadMismatch); }
        Detect(ev);
      case Triaged =>
        if !ev.payload.TriagedData? { return Some(PayloadMismatch); }
        Judge(ev);
      case Suppressed =>
        var _ := SetStatus(ev, Silenced);
      case Deferred =>
        var _ := SetStatus(ev, Postponed);
      case Remediated =>
        Remediate(ev);
      case Raised =>
        if !ev.payload.RaisedData? { return Some(PayloadMismatch); }
        Raise(idOf, ev);
      case Resolved =>
        if !ev.payload.ResolvedData? { return Some(PayloadMismatch); }
        if ev.payload.item !in itemsByID { return Some(UnknownItem(ev.payload.item)); }
        RemoveItem(ev.payload.item);
      case _ =>
      }
      return None;
    }
  }

  lemma {:induction false} ClosingDropsId(items: seq<Item>, id: string)
    ensures IdsOf(Closing(items, id)) == IdsOf(items) - {id}
  {
    if items != [] {
      var front, last := items[..|items| - 1], items[|items| - 1];
      ClosingDropsId(front, id);
      assert items == front + [last];
      assert IdsOf(items) == IdsOf(front) + {last.id};
      var kept := Closing(front, id);
      assert IdsOf(kept + [last]) == IdsOf(kept) + {last.id};
      assert kept + [] == kept;
    }
  }

  // ---------------------------------------------------------------------
  // The whole routine
  // ---------------------------------------------------------------------

  function RawsBelow(s: seq<Entry>, i: nat): set<Bytes>
    requires i <= |s|
  {
    if i == 0 then {} else RawsBelow(s, i - 1) + {s[i - 1].raw}
  }

  lemma {:induction false} RawsBelowIs(s: seq<Entry>, i: nat)
    requires i <= |s|
    ensures RawsBelow(s, i) == RawsOf(s[..i])
  {
    if i > 0 {
      RawsBelowIs(s, i - 1);
      assert s[..i] == s[..i - 1] + [s[i - 1]];
    }
  }

  function Next(idOf: ItemId, r: Result<State, ReplayError>, ev: Event): Result<State, ReplayError> {
    match r
    case Failure(e) => Failure(e)
    case Success(st) => Step(idOf, st, ev)
  }

  /** The loop after the first i sorted lines. */
  function VisitUpTo(idOf: ItemId, s: seq<Entry>, i: nat): Result<State, ReplayError>
    requires i <= |s|
  {
    if i == 0 then Success(EMPTY)
    else
      var before := VisitUpTo(idOf, s, i - 1);
      if s[i - 1].raw in RawsBelow(s, i - 1) then before else Next(idOf, before, s[i - 1].ev)
  }

  lemma {:induction false} CollapseLast(front: seq<Entry>, last: Entry)
    ensures Collapsed(front + [last]) ==
      if last.raw in RawsOf(front) then Collapsed(front) else Collapsed(front) + [last]
  {
    assert (front + [last])[..|front|] == front;
  }

  /** The first i lines, identical ones collapsed. */
  function CollapsedUpTo(s: seq<Entry>, i: nat): seq<Entry>
    requires i <= |s|
  {
    if i == 0 then []
    else
      var before := CollapsedUpTo(s, i - 1);
      if s[i - 1].raw in RawsBelow(s, i - 1) then before else before + [s[i - 1]]
  }

  lemma {:induction false} CollapsedUpToIs(s: seq<Entry>, i: nat)
    requires i <= |s|
    ensures CollapsedUpTo(s, i) == Collapsed(s[..i])
  {
    if i > 0 {
      var front := s[..i - 1];
      CollapsedUpToIs(s, i - 1);
      RawsBelowIs(s, i - 1);
      CollapseLast(front, s[i - 1]);
      assert s[..i] == front + [s[i - 1]];
    }
  }

  lemma FoldLast(idOf: ItemId, c: seq<Entry>, e: Entry)
    ensures FoldFrom(idOf, EMPTY, EventsOf(c + [e])) == Next(idOf, FoldFrom(idOf, EMPTY, EventsOf(c)), e.ev)
  {
    var evs := EventsOf(c + [e]);
    assert evs[..|evs| - 1] == EventsOf(c);
  }

  /** Skipping seen lines in the loop is folding the collapsed list. */
  lemma {:induction false} VisitIsFold(idOf: ItemId, s: seq<Entry>, i: nat)
    requires i <= |s|
    ensures VisitUpTo(idOf, s, i) == FoldFrom(idOf, EMPTY, EventsOf(CollapsedUpTo(s, i)))
  {
    if i > 0 {
      VisitIsFold(idOf, s, i - 1);
      FoldLast(idOf, CollapsedUpTo(s, i - 1), s[i - 1]);
    }
  }

  /** An event that stops the replay stops it for good. */
  lemma {:induction false} FailureSticks(idOf: ItemId, s: seq<Entry>, i: nat, j: nat)
    requires i <= j <= |s| && VisitUpTo(idOf, s, i).Failure?
    ensures VisitUpTo(idOf, s, j) == VisitUpTo(idOf, s, i)
  {
    if i < j {
      FailureSticks(idOf, s, i, j - 1);
    }
  }

  /** Impose the order, then visit. */
  method ReplayLog(idOf: ItemId, log: seq<Entry>) returns (st: Store, error: Option<ReplayError>)
    ensures fresh(st) && fresh(st.findings) && st.Valid()
    ensures error.None? ==> Replayed(idOf, log) == Success(st.Model())
    ensures error.Some? ==> Replayed(idOf, log) == Failure(error.value)
  {
    var s := Sorted(log);
    VisitIsFold(idOf, s, |s|);
    CollapsedUpToIs(s, |s|);
    assert s[..|s|] == s;
    st, error := VisitAll(idOf, s);
  }

  /** The loop: visit the lines in order, skip identical ones, stop at the first error. */
  method VisitAll(idOf: ItemId, s: seq<Entry>) returns (st: Store, error: Option<ReplayError>)
    ensures fresh(st) && fresh(st.findings) && st.Valid()
    ensures error.None? ==> VisitUpTo(idOf, s, |s|) == Success(st.Model())
    ensures error.Some? ==> VisitUpTo(idOf, s, |s|) == Failure(error.value)
  {
    st := new Store();
    var seen: set<Bytes> := {};
    var i := 0;
    error := None;
    while i < |s| && error.None?
      invariant 0 <= i <= |s|
      invariant fresh(st) && fresh(st.findings) && st.Valid()
      invariant error.None? ==> Visiting(idOf, s, i, st, seen)
      invariant error.Some? ==> VisitUpTo(idOf, s, |s|) == Failure(error.value)
      decreases |s| - i, error.None?
    {
      seen, error := VisitLine(idOf, s, i, st, seen);
      i := i + 1;
      if error.Some? {
        FailureSticks(idOf, s, i, |s|);
      }
    }
  }

  ghost predicate Visiting(idOf: ItemId, s: seq<Entry>, i: nat, st: Store, seen: set<Bytes>)
    requires i <= |s|
    reads st, st.findings
  {
    st.Valid() && seen == RawsBelow(s, i) && VisitUpTo(idOf, s, i) == Success(st.Model())
  }

  method VisitLine(idOf: ItemId, s: seq<Entry>, i: nat, st: Store, seen: set<Bytes>)
    returns (seen': set<Bytes>, error: Option<ReplayError>)
    requires i < |s| && Visiting(idOf, s, i, st, seen)
    modifies st, st.findings
    ensures st.Valid()
    ensures forall i :: 0 <= i < |st.findings| ==> st.findings[i] in old(st.findings) || fresh(st.findings[i])
    ensures error.None? ==> Visiting(idOf, s, i + 1, st, seen')
    ensures error.Some? ==> VisitUpTo(idOf, s, i + 1) == Failure(error.value)
  {
    seen' := seen + {s[i].raw};
    if s[i].raw in seen {
      error := None;
    } else {
      error := st.Fold(idOf, s[i].ev);
    }
  }

  /** Untriaged rows named by the baseline file are marked as pre-existing debt. */
  function Marked(fs: seq<Finding>, baseline: seq<string>): (r: seq<Finding>)
    ensures |r| == |fs|
    ensures forall i :: 0 <= i < |fs| ==> r[i] == Mark(fs[i], baseline)
  {
    seq(|fs|, i requires 0 <= i < |fs| => Mark(fs[i], baseline))
  }

  function Mark(f: Finding, baseline: seq<string>): Finding {
    if f.verdict.None? && f.fp in baseline then f.(inBaseline := true) else f
  }

  method MarkBaseline(cells: seq<FindingRef>, baseline: seq<string>)
    requires DistinctCells(cells)
    modifies cells
    ensures Values(cells) == Marked(old(Values(cells)), baseline)
  {
    var inBaseline: set<string> := {};
    for i := 0 to |baseline|
      invariant inBaseline == set fp | fp in baseline[..i]
    {
      inBaseline := inBaseline + {baseline[i]};
    }
    assert baseline[..|baseline|] == baseline;
    for i := 0 to |cells|
      invariant forall j :: 0 <= j < |cells| ==>
        cells[j].val == if j < i then Mark(old(cells[j].val), baseline) else old(cells[j].val)
    {
      if cells[i].val.verdict.None? && cells[i].val.fp in inBaseline {
        cells[i].val := cells[i].val.(inBaseline := true);
      }
    }
  }

  ghost predicate AllWhole(fs: seq<Finding>) {
    forall i :: 0 <= i < |fs| ==> |fs[i].fp| == 64
  }

  lemma StepKeepsWhole(fs: seq<Finding>, ev: Event)
    requires PayloadFits(ev) && Decoded(ev) && AllWhole(fs)
    ensures AllWhole(FindingsStep(fs, ev))
  {
  }

  /** Whole fingerprints in the log make whole fingerprints in the state. */
  lemma {:induction false} WholeFingerprints(idOf: ItemId, evs: seq<Event>)
    requires forall i :: 0 <= i < |evs| ==> Decoded(evs[i])
    ensures FoldFrom(idOf, EMPTY, evs).Success? ==> AllWhole(FoldFrom(idOf, EMPTY, evs).value.findings)
    decreases |evs|
  {
    if evs != [] {
      var n := |evs| - 1;
      WholeFingerprints(idOf, evs[..n]);
      if FoldFrom(idOf, EMPTY, evs).Success? {
        StepKeepsWhole(FoldFrom(idOf, EMPTY, evs[..n]).value.findings, evs[n]);
      }
    }
  }

  ghost predicate AllNew(fs: seq<Finding>) {
    forall i :: 0 <= i < |fs| ==> !fs[i].inBaseline
  }

  lemma StepFlagsNone(fs: seq<Finding>, ev: Event)
    requires PayloadFits(ev) && AllNew(fs)
    ensures AllNew(FindingsStep(fs, ev))
  {
  }

  lemma {:induction false} ReplayFlagsNone(idOf: ItemId, evs: seq<Event>)
    ensures FoldFrom(idOf, EMPTY, evs).Success? ==> AllNew(FoldFrom(idOf, EMPTY, evs).value.findings)
    decreases |evs|
  {
    if evs != [] {
      var n := |evs| - 1;
      ReplayFlagsNone(idOf, evs[..n]);
      if FoldFrom(idOf, EMPTY, evs).Success? {
        StepFlagsNone(FoldFrom(idOf, EMPTY, evs[..n]).value.findings, evs[n]);
      }
    }
  }

  /** A rebuilt row is flagged exactly when it has no verdict and the baseline names it. */
  lemma FlaggedIff(idOf: ItemId, log: seq<Entry>, baseline: seq<string>, i: nat)
    requires Replayed(idOf, log).Success? && i < |Replayed(idOf, log).value.findings|
    ensures var fs := Replayed(idOf, log).value.findings;
      |Marked(fs, baseline)| == |fs| &&
      Marked(fs, baseline)[i] == fs[i].(inBaseline := fs[i].verdict == None && fs[i].fp in baseline)
  {
    ReplayFlagsNone(idOf, EventsOf(Visited(log)));
  }

  /**
   The list a rebuild returns and writes: slot k of the replayed and marked list
   after the display ids were assigned through it.
   */
  function Written(fs: seq<Finding>): (r: seq<Finding>)
    requires Long(FingerprintsOf(fs))
  {
    Shown(fs, Slots(FingerprintsOf(fs)))
  }

  function Shown(fs: seq<Finding>, slots: seq<nat>): seq<Finding>
    requires Long(FingerprintsOf(fs))
  {
    seq(|slots|, k requires 0 <= k < |slots| => if slots[k] < |fs| then Named(fs, slots[k]) else NOBODY)
  }

  const NOBODY := Finding("", "", "", "", "", [], false, false, [], "", "", [], 0, 0, Open, None, false)

  method Rebuild(idOf: ItemId, log: seq<Entry>, baseline: seq<string>) returns (r: Result<Store, ReplayError>)
    requires forall i :: 0 <= i < |log| ==> Decoded(log[i].ev)
    requires Coherent(log)
    ensures r.Failure? <==> Replayed(idOf, log).Failure?
    ensures r.Failure? ==> r.error == Replayed(idOf, log).error
    ensures r.Success? ==>
      var fs := Marked(Replayed(idOf, log).value.findings, baseline);
      && r.value.items == Replayed(idOf, log).value.items
      && Long(FingerprintsOf(fs))
      && Values(r.value.findings) == Written(fs)
  {
    var st, error := ReplayLog(idOf, log);
    if error.Some? {
      return Failure(error.value);
    }
    ghost var vals := Values(st.findings);
    MarkBaseline(st.findings, baseline);
    ghost var fs := Marked(vals, baseline);
    assert Long(FingerprintsOf(fs)) by {
      VisitedOrders(log);
      forall i | 0 <= i < |Visited(log)| ensures Decoded(EventsOf(Visited(log))[i]) {
        assert Visited(log)[i] in log;
      }
      WholeFingerprints(idOf, EventsOf(Visited(log)));
    }
    st.findings := AssignThrough(st.findings);
    return Success(st);
  }

  /** The display-id routine on a slice: it works on the slice's own backing array. */
  method AssignThrough(cells: seq<FindingRef>) returns (out: seq<FindingRef>)
    requires DistinctCells(cells) && Long(FingerprintsOf(Values(cells)))
    modifies cells
    ensures Values(out) == Written(old(Values(cells)))
    ensures forall c :: c in out ==> c in cells
  {
    ghost var vals := Values(cells);
    var a := new FindingRef[|cells|](i requires 0 <= i < |cells| => cells[i]);
    assert a[..] == cells;
    AssignDisplayIds(a);
    out := a[..];
    ArrangedIsWritten(out, cells, vals);
  }

  lemma ArrangedIsWritten(out: seq<FindingRef>, cells: seq<FindingRef>, vals: seq<Finding>)
    requires |cells| == |vals| && Long(FingerprintsOf(vals))
    requires forall i :: 0 <= i < |cells| ==> cells[i].val == Named(vals, i)
    requires Arranged(out, cells, Slots(FingerprintsOf(vals)))
    ensures Values(out) == Written(vals)
    ensures forall c :: c in out ==> c in cells
  {
  }
}
