/**
 `Fold` (delta.go:44-141) on shared finding pointers: it refreshes and extends the
 rows it is handed in place, builds its index as it goes, stops at the first event
 a constructor refuses, and filters its own copy of the list.
 */
module Fold {
  import opened Wrappers
  import opened Events
  import opened Findings
  import opened Index
  import opened Delta

  datatype Output = Output(events: seq<Event>, findings: seq<FindingRef>)

  // ---------------------------------------------------------------------
  // Small loops
  // ---------------------------------------------------------------------

  method HasLocation(locs: seq<Location>, loc: Location) returns (r: bool)
    ensures r == HasLoc(locs, loc)
  {
    for i := 0 to |locs|
      invariant loc !in locs[..i]
    {
      if locs[i].path == loc.path && locs[i].line == loc.line {
        return true;
      }
    }
    return false;
  }

  method Member(x: string, xs: seq<string>) returns (r: bool)
    ensures r <==> x in xs
  {
    for i := 0 to |xs|
      invariant x !in xs[..i]
    {
      if xs[i] == x {
        return true;
      }
    }
    return false;
  }

  method IsCovered(cov: Coverage, locs: seq<Location>) returns (r: bool)
    ensures r == Covered(cov, locs)
  {
    for i := 0 to |locs|
      invariant CoveredUpTo(cov, locs, i)
    {
      if !Covers(cov, locs[i].path) {
        NotCovered(cov, locs, i + 1, |locs|);
        return false;
      }
    }
    return true;
  }

  lemma {:induction false} NotCovered(cov: Coverage, locs: seq<Location>, i: nat, j: nat)
    requires i <= j <= |locs| && !CoveredUpTo(cov, locs, i)
    ensures !CoveredUpTo(cov, locs, j)
  {
    if i < j {
      NotCovered(cov, locs, i, j - 1);
    }
  }

  // ---------------------------------------------------------------------
  // A refused event stops the fold
  // ---------------------------------------------------------------------

  lemma Refused(a: seq<Event>, b: seq<Event>)
    requires a <= b && !AllValid(a)
    ensures !AllValid(b)
  {
    var i :| 0 <= i < |a| && !Valid(a[i]);
    assert b[i] == a[i];
  }

  lemma OneMore(evs: seq<Event>, e: Event)
    ensures AllValid(evs + [e]) <==> AllValid(evs) && Valid(e)
  {
    if AllValid(evs + [e]) {
      forall i | 0 <= i < |evs| ensures Valid(evs[i]) {
        assert (evs + [e])[i] == evs[i];
      }
      assert (evs + [e])[|evs|] == e;
    }
  }

  lemma Joined(a: seq<Event>, b: seq<Event>)
    ensures AllValid(a + b) <==> AllValid(a) && AllValid(b)
  {
    if AllValid(a + b) {
      forall i | 0 <= i < |a| ensures Valid(a[i]) { assert (a + b)[i] == a[i]; }
      forall i | 0 <= i < |b| ensures Valid(b[i]) { assert (a + b)[|a| + i] == b[i]; }
    }
  }

  lemma {:induction false} NewSightsGrow(t: int, o: Options, m: Merged, locs: seq<Location>, i: nat, j: nat)
    requires i <= j <= |m.locs|
    ensures NewSights(t, o, m, locs, i) <= NewSights(t, o, m, locs, j)
  {
    if i < j {
      NewSightsGrow(t, o, m, locs, i, j - 1);
      NewSightsNext(t, o, m, locs, j - 1);
    }
  }

  lemma NewSightsNext(t: int, o: Options, m: Merged, locs: seq<Location>, i: nat)
    requires i < |m.locs|
    ensures NewSights(t, o, m, locs, i) <= NewSights(t, o, m, locs, i + 1)
  {
  }

  lemma {:induction false} FirstSightsGrow(t: int, o: Options, m: Merged, i: nat, j: nat)
    requires i <= j <= |m.locs|
    ensures FirstSights(t, o, m, i) <= FirstSights(t, o, m, j)
  {
    if i < j {
      FirstSightsGrow(t, o, m, i, j - 1);
    }
  }

  lemma MergeOneGrows(p: Pass, baseline: seq<string>, m: Merged, o: Options, t: int)
    ensures p.evs <= MergeOne(p, baseline, m, o, t).evs
  {
  }

  /** The passes after 0, 1, 2, ... observations. */
  type Passes = nat -> Pass

  ghost predicate Link(pass: Passes, baseline: seq<string>, merged: seq<Merged>, o: Options, t: int, i: nat) {
    i < |merged| ==> pass(i + 1) == MergeOne(pass(i), baseline, merged[i], o, t)
  }

  ghost predicate Chained(pass: Passes, baseline: seq<string>, merged: seq<Merged>, o: Options, t: int) {
    forall i: nat :: Link(pass, baseline, merged, o, t, i)
  }

  lemma RefusedNext(pass: Passes, baseline: seq<string>, merged: seq<Merged>, o: Options, t: int, i: nat)
    requires Chained(pass, baseline, merged, o, t) && i < |merged| && !AllValid(pass(i).evs)
    ensures !AllValid(pass(i + 1).evs)
  {
    assert Link(pass, baseline, merged, o, t, i);
    MergeOneGrows(pass(i), baseline, merged[i], o, t);
    Refused(pass(i).evs, pass(i + 1).evs);
  }

  /** A refused event stays refused. */
  lemma {:induction false} StaysRefused(pass: Passes, baseline: seq<string>, merged: seq<Merged>, o: Options, t: int, i: nat)
    requires Chained(pass, baseline, merged, o, t) && i <= |merged| && !AllValid(pass(i).evs)
    ensures !AllValid(pass(|merged|).evs)
    decreases |merged| - i
  {
    if i < |merged| {
      RefusedNext(pass, baseline, merged, o, t, i);
      StaysRefused(pass, baseline, merged, o, t, i + 1);
    }
  }

  ghost function PassesOf(fs: seq<Finding>, baseline: seq<string>, merged: seq<Merged>, o: Options, t: int): Passes {
    (i: nat) => MergeUpTo(fs, baseline, merged, o, t, if i <= |merged| then i else |merged|)
  }

  lemma PassesChained(fs: seq<Finding>, baseline: seq<string>, merged: seq<Merged>, o: Options, t: int)
    ensures Chained(PassesOf(fs, baseline, merged, o, t), baseline, merged, o, t)
    ensures PassesOf(fs, baseline, merged, o, t)(0) == Pass(fs, [])
  {
    var pass := PassesOf(fs, baseline, merged, o, t);
    assert pass(0) == MergeUpTo(fs, baseline, merged, o, t, 0);
    forall i: nat ensures Link(pass, baseline, merged, o, t, i) {
      if i < |merged| {
        assert pass(i) == MergeUpTo(fs, baseline, merged, o, t, i);
        assert pass(i + 1) == MergeUpTo(fs, baseline, merged, o, t, i + 1);
      }
    }
  }

  lemma {:induction false} GoneGrows(fs: seq<Finding>, seen: set<string>, cov: Coverage, o: Options, t: int, i: nat, j: nat)
    requires i <= j <= |fs|
    ensures GoneUpTo(fs, seen, cov, o, t, i) <= GoneUpTo(fs, seen, cov, o, t, j)
  {
    if i < j {
      GoneGrows(fs, seen, cov, o, t, i, j - 1);
    }
  }

  lemma {:induction false} SurfacedGrows(fs: seq<Finding>, merged: seq<Merged>, o: Options, t: int, i: nat, j: nat)
    requires i <= j <= |merged|
    ensures SurfacedUpTo(fs, merged, o, t, i) <= SurfacedUpTo(fs, merged, o, t, j)
  {
    if i < j {
      SurfacedGrows(fs, merged, o, t, i, j - 1);
    }
  }

  /** Constructing an event: appended, or refused. */
  method Push(evs: seq<Event>, ev: Event, ghost all: seq<Event>) returns (evs': seq<Event>, ok: bool)
    requires AllValid(evs) && evs + [ev] <= all
    ensures ok ==> evs' == evs + [ev] && AllValid(evs')
    ensures !ok ==> !AllValid(all)
  {
    OneMore(evs, ev);
    ok := Valid(ev);
    evs' := evs + [ev];
    if !ok {
      Refused(evs', all);
    }
  }

  // ---------------------------------------------------------------------
  // First pass
  // ---------------------------------------------------------------------

  method Refresh(f: FindingRef, m: Merged, o: Options, t: int) returns (evs: seq<Event>, ok: bool)
    modifies f
    ensures ok <==> AllValid(NewSights(t, o, m, old(f.val).locs, |m.locs|))
    ensures ok ==> f.val == Refreshed(old(f.val), m, t) && evs == NewSights(t, o, m, old(f.val).locs, |m.locs|)
  {
    ghost var was := f.val;
    f.val := f.val.(lastSeen := t);
    evs := [];
    for i := 0 to |m.locs|
      invariant f.val == was.(lastSeen := t, locs := LocsUpTo(was.locs, m.locs, i))
      invariant evs == NewSights(t, o, m, was.locs, i) && AllValid(evs)
    {
      var had := HasLocation(f.val.locs, m.locs[i]);
      if !had {
        f.val := f.val.(locs := f.val.locs + [m.locs[i]]);
        assert f.val.locs == LocsUpTo(was.locs, m.locs, i + 1);
        var ev := DetectedEvent(t, o, m, m.locs[i]);
        NewSightsGrow(t, o, m, was.locs, i + 1, |m.locs|);
        evs, ok := Push(evs, ev, NewSights(t, o, m, was.locs, |m.locs|));
        if !ok { return; }
      }
    }
    ok := true;
  }

  method Announce(m: Merged, o: Options, t: int) returns (evs: seq<Event>, ok: bool)
    ensures ok <==> AllValid(FirstSights(t, o, m, |m.locs|))
    ensures ok ==> evs == FirstSights(t, o, m, |m.locs|)
  {
    evs := [];
    for i := 0 to |m.locs|
      invariant evs == FirstSights(t, o, m, i) && AllValid(evs)
    {
      var ev := DetectedEvent(t, o, m, m.locs[i]);
      FirstSightsGrow(t, o, m, i + 1, |m.locs|);
      evs, ok := Push(evs, ev, FirstSights(t, o, m, |m.locs|));
      if !ok { return; }
    }
    ok := true;
  }

  /** List, index and events so far are those of the pass. */
  ghost predicate Merging(cells: seq<FindingRef>, index: map<string, FindingRef>, evs: seq<Event>, p: Pass)
    reads cells
  {
    DistinctCells(cells) && Carry(cells, p.fs) && Indexes(index, cells, p.fs) && evs == p.evs && AllValid(evs)
  }

  method MergeKnown(cells: seq<FindingRef>, index: map<string, FindingRef>, evs: seq<Event>, ghost p: Pass,
                    ghost baseline: seq<string>, m: Merged, o: Options, t: int)
    returns (evs': seq<Event>, ok: bool)
    requires Merging(cells, index, evs, p) && m.fp in index
    modifies cells
    ensures ok <==> AllValid(MergeOne(p, baseline, m, o, t).evs)
    ensures ok ==> Merging(cells, index, evs', MergeOne(p, baseline, m, o, t))
  {
    var f := index[m.fp];
    ghost var k := Latest(p.fs, m.fp);
    assert f == cells[k] && f.val == p.fs[k];
    IndexUpdate(index, cells, p.fs, k, Refreshed(p.fs[k], m, t));
    var more;
    more, ok := Refresh(f, m, o, t);
    Joined(evs, NewSights(t, o, m, p.fs[k].locs, |m.locs|));
    evs' := evs + more;
  }

  method MergeNew(cells: seq<FindingRef>, index: map<string, FindingRef>, evs: seq<Event>, ghost p: Pass,
                  baseline: seq<string>, m: Merged, o: Options, t: int)
    returns (cells': seq<FindingRef>, index': map<string, FindingRef>, evs': seq<Event>, ok: bool)
    requires Merging(cells, index, evs, p) && m.fp !in index
    ensures ok <==> AllValid(MergeOne(p, baseline, m, o, t).evs)
    ensures ok ==> Merging(cells', index', evs', MergeOne(p, baseline, m, o, t))
    ensures forall i :: 0 <= i < |cells'| ==> cells'[i] in cells || fresh(cells'[i])
  {
    var inBaseline := Member(m.fp, baseline);
    var f := new FindingRef(Newborn(m, t, inBaseline));
    var more: seq<Event> := [];
    ok := true;
    if !inBaseline {
      more, ok := Announce(m, o, t);
      Joined(evs, FirstSights(t, o, m, |m.locs|));
    }
    assert evs + [] == evs;
    IndexAppend(index, cells, p.fs, f, Newborn(m, t, inBaseline));
    cells', index', evs' := cells + [f], index[m.fp := f], evs + more;
  }

  /** The pass after i observations, or an event that was refused. */
  ghost predicate Underway(cells: seq<FindingRef>, index: map<string, FindingRef>, evs: seq<Event>, ok: bool, p: Pass)
    reads cells
  {
    if ok then Merging(cells, index, evs, p) else !AllValid(p.evs)
  }

  method MergeNext(cells: seq<FindingRef>, index: map<string, FindingRef>, evs: seq<Event>, ghost p: Pass,
                   baseline: seq<string>, m: Merged, o: Options, t: int)
    returns (cells': seq<FindingRef>, index': map<string, FindingRef>, evs': seq<Event>, ok: bool)
    requires Merging(cells, index, evs, p)
    modifies cells
    ensures Underway(cells', index', evs', ok, MergeOne(p, baseline, m, o, t))
    ensures forall i :: 0 <= i < |cells'| ==> cells'[i] in cells || fresh(cells'[i])
  {
    cells', index' := cells, index;
    if m.fp in index {
      evs', ok := MergeKnown(cells, index, evs, p, baseline, m, o, t);
    } else {
      cells', index', evs', ok := MergeNew(cells, index, evs, p, baseline, m, o, t);
    }
  }

  method MergePass(state: seq<FindingRef>, ghost fs: seq<Finding>, baseline: seq<string>, merged: seq<Merged>, o: Options, t: int)
    returns (cells: seq<FindingRef>, index: map<string, FindingRef>, seen: set<string>, evs: seq<Event>, ok: bool)
    requires DistinctCells(state) && Carry(state, fs)
    modifies state
    ensures ok <==> AllValid(MergeUpTo(fs, baseline, merged, o, t, |merged|).evs)
    ensures ok ==> Merging(cells, index, evs, MergeUpTo(fs, baseline, merged, o, t, |merged|))
    ensures ok ==> seen == SeenUpTo(merged, |merged|)
    ensures forall i :: 0 <= i < |cells| ==> cells[i] in state || fresh(cells[i])
  {
    PassesChained(fs, baseline, merged, o, t);
    index := IndexOf(state, fs);
    cells, index, seen, evs, ok := MergeLoop(state, index, baseline, merged, o, t, PassesOf(fs, baseline, merged, o, t));
  }

  method MergeLoop(state: seq<FindingRef>, byFP: map<string, FindingRef>, baseline: seq<string>, merged: seq<Merged>,
                   o: Options, t: int, ghost pass: Passes)
    returns (cells: seq<FindingRef>, index: map<string, FindingRef>, seen: set<string>, evs: seq<Event>, ok: bool)
    requires Underway(state, byFP, [], true, pass(0))
    requires Chained(pass, baseline, merged, o, t)
    modifies state
    ensures Underway(cells, index, evs, ok, pass(|merged|))
    ensures ok ==> seen == SeenUpTo(merged, |merged|)
    ensures forall i :: 0 <= i < |cells| ==> cells[i] in state || fresh(cells[i])
  {
    cells, index, seen, evs, ok := state, byFP, {}, [], true;
    var i := 0;
    while i < |merged| && ok
      invariant 0 <= i <= |merged|
      invariant forall j :: 0 <= j < |cells| ==> cells[j] in state || fresh(cells[j])
      invariant seen == SeenUpTo(merged, i)
      invariant Underway(cells, index, evs, ok, pass(i))
    {
      seen := seen + {merged[i].fp};
      cells, index, evs, ok := MergeAt(cells, index, evs, baseline, merged, i, o, t, pass);
      i := i + 1;
    }
    if !ok {
      StaysRefused(pass, baseline, merged, o, t, i);
    }
  }

  method MergeAt(cells: seq<FindingRef>, index: map<string, FindingRef>, evs: seq<Event>,
                 baseline: seq<string>, merged: seq<Merged>, i: nat, o: Options, t: int, ghost pass: Passes)
    returns (cells': seq<FindingRef>, index': map<string, FindingRef>, evs': seq<Event>, ok: bool)
    requires i < |merged| && Underway(cells, index, evs, true, pass(i))
    requires Chained(pass, baseline, merged, o, t)
    modifies cells
    ensures Underway(cells', index', evs', ok, pass(i + 1))
    ensures forall j :: 0 <= j < |cells'| ==> cells'[j] in cells || fresh(cells'[j])
  {
    assert Link(pass, baseline, merged, o, t, i);
    cells', index', evs', ok := MergeNext(cells, index, evs, pass(i), baseline, merged[i], o, t);
  }

  method IndexOf(cells: seq<FindingRef>, ghost fs: seq<Finding>) returns (index: map<string, FindingRef>)
    requires Carry(cells, fs)
    ensures Indexes(index, cells, fs)
  {
    index := map[];
    for i := 0 to |cells|
      invariant Indexes(index, cells[..i], fs[..i])
    {
      IndexAppend(index, cells[..i], fs[..i], cells[i], fs[i]);
      assert cells[..i + 1] == cells[..i] + [cells[i]] && fs[..i + 1] == fs[..i] + [fs[i]];
      index := index[cells[i].val.fp := cells[i]];
    }
    assert cells[..|cells|] == cells && fs[..|fs|] == fs;
  }

  // ---------------------------------------------------------------------
  // Second and third pass
  // ---------------------------------------------------------------------

  method IsGone(f: Finding, seen: set<string>, cov: Coverage) returns (gone: bool)
    ensures gone == Gone(f, seen, cov)
  {
    gone := false;
    if f.fp !in seen {
      var ran := Member(f.scanner, cov.scanners);
      if ran {
        gone := IsCovered(cov, f.locs);
      }
    }
  }

  method RemediationPass(cells: seq<FindingRef>, ghost fs: seq<Finding>, seen: set<string>, cov: Coverage, o: Options, t: int)
    returns (kept: seq<FindingRef>, evs: seq<Event>, ok: bool)
    requires Carry(cells, fs) && DistinctCells(cells)
    ensures ok <==> AllValid(GoneUpTo(fs, seen, cov, o, t, |fs|))
    ensures ok ==> evs == GoneUpTo(fs, seen, cov, o, t, |fs|) && Carry(kept, KeptUpTo(fs, seen, cov, |fs|))
    ensures DistinctCells(kept) && forall i :: 0 <= i < |kept| ==> kept[i] in cells
  {
    kept, evs := [], [];
    for i := 0 to |cells|
      invariant evs == GoneUpTo(fs, seen, cov, o, t, i) && AllValid(evs)
      invariant Carry(kept, KeptUpTo(fs, seen, cov, i))
      invariant DistinctCells(kept) && forall j :: 0 <= j < |kept| ==> kept[j] in cells[..i]
    {
      var f := cells[i];
      var gone := IsGone(f.val, seen, cov);
      if gone {
        var ev := RemediatedEvent(t, o, f.val.fp);
        GoneGrows(fs, seen, cov, o, t, i + 1, |fs|);
        evs, ok := Push(evs, ev, GoneUpTo(fs, seen, cov, o, t, |fs|));
        if !ok { return; }
      } else {
        kept := kept + [f];
      }
    }
    ok := true;
  }

  method SurfacedPass(cells: seq<FindingRef>, index: map<string, FindingRef>, ghost fs: seq<Finding>, merged: seq<Merged>, o: Options, t: int)
    returns (evs: seq<Event>, ok: bool)
    requires Carry(cells, fs) && Indexes(index, cells, fs)
    ensures ok <==> AllValid(SurfacedUpTo(fs, merged, o, t, |merged|))
    ensures ok ==> evs == SurfacedUpTo(fs, merged, o, t, |merged|)
  {
    evs := [];
    for i := 0 to |merged|
      invariant evs == SurfacedUpTo(fs, merged, o, t, i) && AllValid(evs)
    {
      var m := merged[i];
      if m.fp in index && Actionable(index[m.fp].val) {
        var ev := SurfacedEvent(t, o, m.fp);
        SurfacedGrows(fs, merged, o, t, i + 1, |merged|);
        evs, ok := Push(evs, ev, SurfacedUpTo(fs, merged, o, t, |merged|));
        if !ok { return; }
      }
    }
    ok := true;
  }

  method Fold(state: seq<FindingRef>, baseline: seq<string>, merged: seq<Merged>, cov: Coverage, o: Options, t: int)
    returns (r: Option<Output>)
    requires DistinctCells(state)
    modifies state
    ensures r.Some? <==> Accepted(old(Values(state)), baseline, merged, cov, o, t)
    ensures r.Some? ==>
      var want := Folded(old(Values(state)), baseline, merged, cov, o, t);
      r.value.events == want.events && Values(r.value.findings) == want.findings
    ensures r.Some? ==> DistinctCells(r.value.findings)
    ensures r.Some? ==> forall i :: 0 <= i < |r.value.findings| ==>
      r.value.findings[i] in state || fresh(r.value.findings[i])
  {
    ghost var fs := Values(state);
    var cells, index, seen, evs, ok := MergePass(state, fs, baseline, merged, o, t);
    ghost var p := MergeUpTo(fs, baseline, merged, o, t, |merged|);
    ghost var gone := GoneUpTo(p.fs, SeenUpTo(merged, |merged|), cov, o, t, |p.fs|);
    ghost var shown := SurfacedUpTo(p.fs, merged, o, t, |merged|);
    Joined(p.evs + gone, shown);
    Joined(p.evs, gone);
    if !ok { return None; }
    var kept, gs, ok2 := RemediationPass(cells, p.fs, seen, cov, o, t);
    if !ok2 { return None; }
    var ss, ok3 := SurfacedPass(cells, index, p.fs, merged, o, t);
    if !ok3 { return None; }
    return Some(Output(evs + gs + ss, kept));
  }
}
