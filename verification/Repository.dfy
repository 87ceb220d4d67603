/**
 The commands as the code runs them: one artefact directory whose log and state
 files they update, each locked section one method. Every method is proved to move
 the directory from one state to the next as `Commands.Exec` says.
 */
module Repository {
  import opened Wrappers
  import opened Events
  import opened Findings
  import opened Index
  import opened LogOrder
  import opened Replay
  import opened DisplayIds
  import opened AssignIds
  import opened Lookup
  import opened Rebuild
  import opened Commands
  import Fold

  /** The objects LoadState decodes: one fresh cell per row. */
  method Load(fs: seq<Finding>) returns (cells: seq<FindingRef>)
    ensures fresh(cells) && DistinctCells(cells) && Values(cells) == fs
  {
    cells := [];
    for i := 0 to |fs|
      invariant fresh(cells) && DistinctCells(cells)
      invariant Carry(cells, fs[..i])
    {
      var c := new FindingRef(fs[i]);
      cells := cells + [c];
    }
  }

  method Save(cells: seq<FindingRef>) returns (fs: seq<Finding>)
    ensures fs == Values(cells)
  {
    fs := [];
    for i := 0 to |cells|
      invariant |fs| == i && forall j :: 0 <= j < i ==> fs[j] == cells[j].val
    {
      fs := fs + [cells[i].val];
    }
  }

  /** The loop of `init` and `rebaseline`: the fingerprints of the rows, which are flagged on the way. */
  method MarkDebt(cells: seq<FindingRef>, whole: bool) returns (fps: seq<string>)
    requires DistinctCells(cells)
    modifies cells
    ensures fps == FingerprintsOf(old(Values(cells)))
    ensures Values(cells) == Debt(old(Values(cells)), whole)
  {
    ghost var fs := Values(cells);
    fps := [];
    for i := 0 to |cells|
      invariant |fps| == i && forall j :: 0 <= j < i ==> fps[j] == fs[j].fp
      invariant forall j :: 0 <= j < |cells| ==> cells[j].val == if j < i then Debt(fs, whole)[j] else fs[j]
    {
      fps := fps + [cells[i].val.fp];
      if whole || cells[i].val.verdict.None? {
        cells[i].val := cells[i].val.(inBaseline := true);
      }
    }
  }

  class Directory {
    var log: seq<Entry>
    var disk: Disk

    ghost function System(): System
      reads this
    {
      Commands.System(log, disk)
    }

    constructor (baseline: seq<string>)
      ensures System() == Commands.System([], Disk([], [], baseline))
    {
      log, disk := [], Disk([], [], baseline);
    }

    method Append(w: Codec, ev: Event)
      modifies this`log
      ensures log == old(log) + [Line(w, ev)]
    {
      log := log + [Entry(Pin(ev), w.canon(Pin(ev)))];
    }

    /** The shared shape of triage, suppress and defer. */
    method MutateFinding(w: Codec, c: Command)
      requires c.Triage? || c.Suppress? || c.Defer?
      modifies this
      ensures System() == Exec(w, old(System()), c)
    {
      var fs := disk.findings;
      var r := ResolveFinding(fs, c.id);
      if !r.Found? || r.k >= |fs| {
        return;
      }
      var f := fs[r.k];
      var ev := MutationEvent(c, f.fp);
      if !Valid(ev) {
        return;
      }
      Append(w, ev);
      match c {
        case Triage(_, _, _, dismiss, confidence, reason, sources) =>
          f := f.(status := if dismiss then Dismissed else Confirmed);
          f := f.(verdict := Some(Verdict(VerdictWord(dismiss), confidence, reason, sources, ev.ts, OPERATOR)));
        case Suppress(_, _, _, _) => f := f.(status := Silenced);
        case Defer(_, _, _, _) => f := f.(status := Postponed);
      }
      disk := disk.(findings := fs[r.k := f]);
    }

    method Raise(w: Codec, c: Command)
      requires c.OpenItem?
      modifies this
      ensures System() == Exec(w, old(System()), c)
    {
      var about := "";
      if c.itemKind == "verification" {
        var r := ResolveFinding(disk.findings, c.about);
        if !r.Found? || r.k >= |disk.findings| {
          return;
        }
        about := disk.findings[r.k].fp;
      }
      var ev := RaiseEvent(c, about);
      if !Valid(ev) {
        return;
      }
      Append(w, ev);
      var item := Item(w.idOf(Pin(ev)), c.itemKind, c.question, about, c.at, AGENT);
      disk := disk.(items := disk.items + [item]);
    }

    method Resolve(w: Codec, c: Command)
      requires c.CloseItem?
      modifies this
      ensures System() == Exec(w, old(System()), c)
    {
      var found := false;
      for i := 0 to |disk.items|
        invariant System() == old(System())
        invariant found <==> c.item in IdsOf(disk.items[..i])
      {
        assert disk.items[..i + 1] == disk.items[..i] + [disk.items[i]];
        found := found || disk.items[i].id == c.item;
      }
      assert disk.items[..|disk.items|] == disk.items;
      var ev := ResolveEvent(c);
      if !found || !Valid(ev) {
        return;
      }
      Append(w, ev);
      var kept := Close(disk.items, c.item);
      disk := disk.(items := kept);
    }

    /** The critical section of a scan: fold, append, assign display ids, rewrite. */
    method Scan(w: Codec, c: Command)
      requires c.Scan?
      requires forall i :: 0 <= i < |disk.findings| ==> |disk.findings[i].fp| == 64
      requires forall i :: 0 <= i < |c.merged| ==> |c.merged[i].fp| == 64
      modifies this
      ensures System() == Exec(w, old(System()), c)
    {
      var cells := Load(disk.findings);
      var r := Fold.Fold(cells, disk.baseline, c.merged, c.cov, c.o, c.at);
      if r.None? {
        return;
      }
      AppendAll(w, r.value.events);
      ghost var fs := Values(r.value.findings);
      assert Long(FingerprintsOf(fs)) by { FoldKeepsLong(disk.findings, disk.baseline, c.merged, c.cov, c.o, c.at); }
      var stored := AssignThrough(r.value.findings);
      var rows := Save(stored);
      disk := disk.(findings := rows);
    }

    method AppendAll(w: Codec, evs: seq<Event>)
      modifies this`log
      ensures log == old(log) + LinesOf(w, evs)
    {
      for i := 0 to |evs|
        invariant log == old(log) + LinesOf(w, evs[..i])
      {
        Append(w, evs[i]);
        assert LinesOf(w, evs[..i + 1]) == LinesOf(w, evs[..i]) + [Line(w, evs[i])];
      }
      assert evs[..|evs|] == evs;
    }

    /** The baseline file, the event, and the flags of the rows, in that order. */
    method Rebaseline(w: Codec, c: Command)
      requires c.Rebaseline?
      modifies this
      ensures System() == Exec(w, old(System()), c)
    {
      var cells := Load(disk.findings);
      var fps := MarkDebt(cells, c.whole);
      var rows := Save(cells);
      disk := disk.(baseline := fps);
      var ev := RebaselineEvent(c);
      if !Valid(ev) {
        return;
      }
      Append(w, ev);
      disk := disk.(findings := rows);
    }

    method RecordUpdate(w: Codec, c: Command)
      requires c.RecordUpdate?
      modifies this
      ensures System() == Exec(w, old(System()), c)
    {
      var ev := Commands.UpdateEvent(c);
      if Valid(ev) {
        Append(w, ev);
      }
    }

    /** The locked write of `doctor fix`; `seen` and `base` are what the rows came from. */
    method Restore(w: Codec, st: State, ghost seen: seq<Entry>, ghost base: seq<string>)
      requires Regenerated(w, seen, base) == Success(st)
      modifies this`disk
      ensures System() == Exec(w, old(System()), DoctorFix(seen, base))
    {
      disk := disk.(findings := st.findings, items := st.items);
    }

    method RebuildState(w: Codec)
      requires Coherent(log) && forall i :: 0 <= i < |log| ==> Decoded(log[i].ev)
      modifies this
      ensures System() == Exec(w, old(System()), Commands.RebuildState)
    {
      var r := Rebuild.Rebuild(w.idOf, log, disk.baseline);
      if r.Success? {
        var rows := Save(r.value.findings);
        disk := disk.(findings := rows, items := r.value.items);
      }
    }
  }
}
