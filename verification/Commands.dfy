/**
 The commands as steps of one state machine: each appends events to the log and
 applies the same change to the state files by hand (triage.go:123-159,
 lifecycle.go:26-72 and :93-131, pipeline.go:240-263, store/rebuild.go:22-186,
 init.go:102-129, cli/rebuild.go:111-151, engine_db.go:128-179, doctor.go:272-279).
 A command whose event does not validate writes no event and no state.
 */
module Commands {
  import opened Wrappers
  import opened Events
  import opened Findings
  import opened LogOrder
  import opened Replay
  import opened DisplayIds
  import opened AssignIds
  import opened Lookup
  import opened Delta
  import opened Rebuild

  /** state/findings.json, state/items.json and state/baseline.json. */
  datatype Disk = Disk(findings: seq<Finding>, items: seq<Item>, baseline: seq<string>)

  datatype System = System(log: seq<Entry>, disk: Disk)

  /** A store that was just initialised. */
  function NewStore(baseline: seq<string>): System {
    System([], Disk([], [], baseline))
  }

  /** The canonical encoding and the item-id hash, both left open. */
  datatype Codec = Codec(canon: Event -> Bytes, idOf: ItemId)

  datatype Command =
    | Scan(at: int, merged: seq<Merged>, cov: Coverage, o: Options)
    | Triage(at: int, engine: string, id: string, dismiss: bool, confidence: string, reason: string, sources: seq<Source>)
    | Suppress(at: int, engine: string, id: string, reason: string)
    | Defer(at: int, engine: string, id: string, reason: string)
    | OpenItem(at: int, engine: string, itemKind: string, question: string, about: string)
    | CloseItem(at: int, engine: string, item: string, answer: string, sources: seq<Source>)
    | Rebaseline(at: int, engine: string, whole: bool)
    | RecordUpdate(at: int, engine: string, artifact: string, digest: string, previous: string)
    | DoctorFix(log: seq<Entry>, baseline: seq<string>)
    | RebuildState

  /** The line Append writes for an event, as reading it back yields it. */
  function Line(w: Codec, ev: Event): Entry {
    Entry(Pin(ev), w.canon(Pin(ev)))
  }

  function LinesOf(w: Codec, evs: seq<Event>): (r: seq<Entry>)
    ensures |r| == |evs|
    ensures forall i :: 0 <= i < |evs| ==> r[i] == Line(w, evs[i])
  {
    seq(|evs|, i requires 0 <= i < |evs| => Line(w, evs[i]))
  }

  /** The list a state file holds after display ids were assigned through it. */
  function Stored(fs: seq<Finding>): seq<Finding> {
    if Long(FingerprintsOf(fs)) then Written(fs) else fs
  }

  const OPERATOR := "operator"
  const AGENT := "agent"

  // ---------------------------------------------------------------------
  // Events the commands construct
  // ---------------------------------------------------------------------

  function VerdictWord(dismiss: bool): string {
    if dismiss then "dismissed" else "confirmed"
  }

  function MutationEvent(c: Command, fp: string): Event
    requires c.Triage? || c.Suppress? || c.Defer?
  {
    var env := Envelope(OPERATOR, "build", c.engine);
    match c
    case Triage(at, _, _, dismiss, confidence, reason, sources) =>
      Make(at, env, Triaged, fp, TriagedData(VerdictWord(dismiss), confidence, reason, sources))
    case Suppress(at, _, _, reason) => Make(at, env, Suppressed, fp, ReasonedData(reason))
    case Defer(at, _, _, reason) => Make(at, env, Deferred, fp, ReasonedData(reason))
  }

  function Mutated(c: Command, f: Finding, ev: Event): Finding
    requires c.Triage? || c.Suppress? || c.Defer?
    requires c.Triage? ==> ev.payload.TriagedData?
  {
    match c
    case Triage(_, _, _, dismiss, _, _, _) =>
      f.(status := if dismiss then Dismissed else Confirmed, verdict := Some(VerdictOf(ev)))
    case Suppress(_, _, _, _) => f.(status := Silenced)
    case Defer(_, _, _, _) => f.(status := Postponed)
  }

  function RaiseEvent(c: Command, about: string): Event
    requires c.OpenItem?
  {
    Make(c.at, Envelope(AGENT, "design", c.engine), Raised, "", RaisedData(c.itemKind, c.question, about))
  }

  function ResolveEvent(c: Command): Event
    requires c.CloseItem?
  {
    Make(c.at, Envelope(OPERATOR, "build", c.engine), Resolved, "", ResolvedData(c.item, c.answer, c.sources))
  }

  function RebaselineEvent(c: Command): Event
    requires c.Rebaseline?
  {
    Make(c.at, Envelope(OPERATOR, "build", c.engine), Rebaselined, "", OtherData)
  }

  function UpdateEvent(c: Command): Event
    requires c.RecordUpdate?
  {
    Make(c.at, Envelope(OPERATOR, "build", c.engine), DBUpdated, "", DBUpdatedData(c.artifact, c.digest, c.previous))
  }

  // ---------------------------------------------------------------------
  // The steps
  // ---------------------------------------------------------------------

  function Mutate(w: Codec, sys: System, c: Command): System
    requires c.Triage? || c.Suppress? || c.Defer?
  {
    var fs := sys.disk.findings;
    var r := Resolve(fs, c.id);
    if !r.Found? || r.k >= |fs| then sys
    else
      var ev := MutationEvent(c, fs[r.k].fp);
      if !Valid(ev) then sys
      else System(sys.log + [Line(w, ev)], sys.disk.(findings := fs[r.k := Mutated(c, fs[r.k], ev)]))
  }

  /** The finding a verification item is about; none for a design item. */
  function About(sys: System, c: Command): Option<string>
    requires c.OpenItem?
  {
    if c.itemKind != "verification" then Some("")
    else
      var r := Resolve(sys.disk.findings, c.about);
      if !r.Found? || r.k >= |sys.disk.findings| then None else Some(sys.disk.findings[r.k].fp)
  }

  function Raising(w: Codec, sys: System, c: Command): System
    requires c.OpenItem?
  {
    var about := About(sys, c);
    if about.None? then sys
    else
      var ev := RaiseEvent(c, about.value);
      if !Valid(ev) then sys
      else
        var item := Item(w.idOf(Pin(ev)), c.itemKind, c.question, about.value, c.at, AGENT);
        System(sys.log + [Line(w, ev)], sys.disk.(items := sys.disk.items + [item]))
  }

  function Resolving(w: Codec, sys: System, c: Command): System
    requires c.CloseItem?
  {
    var ev := ResolveEvent(c);
    if c.item !in IdsOf(sys.disk.items) || !Valid(ev) then sys
    else System(sys.log + [Line(w, ev)], sys.disk.(items := Closing(sys.disk.items, c.item)))
  }

  function Scanning(w: Codec, sys: System, c: Command): System
    requires c.Scan?
  {
    var d := sys.disk;
    if !Accepted(d.findings, d.baseline, c.merged, c.cov, c.o, c.at) then sys
    else
      var r := Folded(d.findings, d.baseline, c.merged, c.cov, c.o, c.at);
      System(sys.log + LinesOf(w, r.events), d.(findings := Stored(r.findings)))
  }

  /** Rows marked as pre-existing debt: all of them at `init`, those without a verdict at `rebaseline`. */
  function Debt(fs: seq<Finding>, whole: bool): (r: seq<Finding>)
    ensures |r| == |fs|
    ensures forall i :: 0 <= i < |fs| ==> r[i] == if whole || fs[i].verdict.None? then fs[i].(inBaseline := true) else fs[i]
  {
    seq(|fs|, i requires 0 <= i < |fs| => if whole || fs[i].verdict.None? then fs[i].(inBaseline := true) else fs[i])
  }

  /** The baseline file is written before the event is validated. */
  function Rebaselining(w: Codec, sys: System, c: Command): System
    requires c.Rebaseline?
  {
    var ev, d := RebaselineEvent(c), sys.disk.(baseline := FingerprintsOf(sys.disk.findings));
    if !Valid(ev) then System(sys.log, d)
    else System(sys.log + [Line(w, ev)], d.(findings := Debt(sys.disk.findings, c.whole)))
  }

  /** What `engine update-db` adds to the log; its other two writes are the subject of UpdateDb. */
  function Updating(w: Codec, sys: System, c: Command): System
    requires c.RecordUpdate?
  {
    if !Valid(UpdateEvent(c)) then sys else System(sys.log + [Line(w, UpdateEvent(c))], sys.disk)
  }

  /** Findings and items as replayed from a log, their flags from a baseline. */
  function Regenerated(w: Codec, log: seq<Entry>, baseline: seq<string>): Result<State, ReplayError> {
    match Replayed(w.idOf, log)
    case Failure(e) => Failure(e)
    case Success(st) => Success(State(Stored(Marked(st.findings, baseline)), st.items))
  }

  /**
   The locked write of `doctor fix`: what was regenerated from the log and the
   baseline as they were read before the lock was taken.
   */
  function Restoring(w: Codec, sys: System, log: seq<Entry>, baseline: seq<string>): System {
    match Regenerated(w, log, baseline)
    case Failure(_) => sys
    case Success(st) => System(sys.log, sys.disk.(findings := st.findings, items := st.items))
  }

  /** A rebuild reads and writes under one lock. */
  function Rebuilding(w: Codec, sys: System): System {
    Restoring(w, sys, sys.log, sys.disk.baseline)
  }

  function Exec(w: Codec, sys: System, c: Command): System {
    match c
    case Scan(_, _, _, _) => Scanning(w, sys, c)
    case Triage(_, _, _, _, _, _, _) => Mutate(w, sys, c)
    case Suppress(_, _, _, _) => Mutate(w, sys, c)
    case Defer(_, _, _, _) => Mutate(w, sys, c)
    case OpenItem(_, _, _, _, _) => Raising(w, sys, c)
    case CloseItem(_, _, _, _, _) => Resolving(w, sys, c)
    case Rebaseline(_, _, _) => Rebaselining(w, sys, c)
    case RecordUpdate(_, _, _, _, _) => Updating(w, sys, c)
    case DoctorFix(log, baseline) => Restoring(w, sys, log, baseline)
    case RebuildState => Rebuilding(w, sys)
  }

  function Run(w: Codec, sys: System, cs: seq<Command>): System {
    if cs == [] then sys else Exec(w, Run(w, sys, cs[..|cs| - 1]), cs[|cs| - 1])
  }

  /** The store after the first k commands. */
  function Along(w: Codec, sys: System, cs: seq<Command>, k: nat): System
    requires k <= |cs|
  {
    Run(w, sys, cs[..k])
  }

  lemma AlongNext(w: Codec, sys: System, cs: seq<Command>, k: nat)
    requires k < |cs|
    ensures Along(w, sys, cs, k + 1) == Exec(w, Along(w, sys, cs, k), cs[k])
  {
    assert cs[..k + 1][..k] == cs[..k];
  }

  lemma {:induction false} AlongAll(w: Codec, sys: System, cs: seq<Command>)
    ensures Along(w, sys, cs, |cs|) == Run(w, sys, cs) && Along(w, sys, cs, 0) == sys
  {
    assert cs[..|cs|] == cs;
  }

  // ---------------------------------------------------------------------
  // Whole fingerprints stay whole
  // ---------------------------------------------------------------------

  ghost predicate WholeFps(merged: seq<Merged>) {
    forall i :: 0 <= i < |merged| ==> |merged[i].fp| == 64
  }

  lemma {:induction false} MergeKeepsLong(fs: seq<Finding>, baseline: seq<string>, merged: seq<Merged>, o: Options, t: int, n: nat)
    requires n <= |merged| && WholeFps(merged) && AllWhole(fs)
    ensures AllWhole(MergeUpTo(fs, baseline, merged, o, t, n).fs)
  {
    var good: (nat, Pass) -> bool := (i: nat, p: Pass) => AllWhole(p.fs);
    forall i: nat, j: nat, p: Pass | j == i + 1 && j <= n && good(i, p)
      ensures good(j, MergeOne(p, baseline, merged[i], o, t))
    {
    }
    MergeInduction(fs, baseline, merged, o, t, good, n);
  }

  lemma {:induction false} KeptFrom(fs: seq<Finding>, seen: set<string>, cov: Coverage, i: nat)
    requires i <= |fs|
    ensures forall x :: x in KeptUpTo(fs, seen, cov, i) ==> x in fs
  {
    if i > 0 {
      KeptFrom(fs, seen, cov, i - 1);
    }
  }

  lemma FoldKeepsLong(fs: seq<Finding>, baseline: seq<string>, merged: seq<Merged>, cov: Coverage, o: Options, t: int)
    requires WholeFps(merged) && Long(FingerprintsOf(fs))
    ensures Long(FingerprintsOf(Folded(fs, baseline, merged, cov, o, t).findings))
  {
    var p := MergeUpTo(fs, baseline, merged, o, t, |merged|);
    assert AllWhole(fs) by {
      assert forall k :: 0 <= k < |fs| ==> |FingerprintsOf(fs)[k]| == 64;
    }
    MergeKeepsLong(fs, baseline, merged, o, t, |merged|);
    KeptFrom(p.fs, SeenUpTo(merged, |merged|), cov, |p.fs|);
    var kept := Folded(fs, baseline, merged, cov, o, t).findings;
    forall k | 0 <= k < |kept| ensures |FingerprintsOf(kept)[k]| == 64 {
      assert kept[k] in p.fs;
    }
  }
}
