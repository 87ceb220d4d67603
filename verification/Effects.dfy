/**
 What each command writes, and what each event does when it is replayed, field by
 field (triage.go:40-159, lifecycle.go:48-63 and :99-132, init.go:102-129,
 engine_db.go:165-172, rebuild.go:52-155).
 */
module Effects {
  import opened Wrappers
  import opened Events
  import opened Findings
  import opened LogOrder
  import opened Replay
  import opened Lookup
  import opened Delta
  import opened Commands
  import opened DisplayIds
  import opened AssignIds
  import opened Rebuild
  import opened Storing
  import opened Mutations

  // ---------------------------------------------------------------------
  // Acceptance
  // ---------------------------------------------------------------------

  predicate HexDigit(c: char) {
    c in "0123456789abcdef"
  }

  predicate WholeHex(s: string, n: nat) {
    |s| == n && forall i :: 0 <= i < n ==> HexDigit(s[i])
  }

  lemma HexAgrees(s: string)
    ensures IsLowerHex(s) <==> forall i :: 0 <= i < |s| ==> HexDigit(s[i])
  {
    forall c: char ensures HexDigit(c) <==> '0' <= c <= '9' || 'a' <= c <= 'f' {
      var hex := "0123456789abcdef";
      if '0' <= c <= '9' { assert hex[c as int - '0' as int] == c; }
      if 'a' <= c <= 'f' { assert hex[10 + c as int - 'a' as int] == c; }
    }
    if IsLowerHex(s) {
      forall i | 0 <= i < |s| ensures HexDigit(s[i]) {
      }
    }
  }

  /** When triage, suppress and defer are accepted on a finding. */
  lemma MutationAcceptedIff(c: Command, fp: string)
    requires Mutates(c)
    ensures Valid(MutationEvent(c, fp)) <==>
      && c.reason != "" && c.engine != "" && WholeHex(fp, 64)
      && (c.Triage? ==> c.confidence == "high" || c.confidence == "low")
  {
    HexAgrees(fp);
  }

  lemma RaiseAcceptedIff(c: Command, about: string)
    requires c.OpenItem?
    ensures Valid(RaiseEvent(c, about)) <==>
      && c.question != "" && c.engine != ""
      && ((c.itemKind == "design" && about == "") || (c.itemKind == "verification" && WholeHex(about, 64)))
  {
    HexAgrees(about);
  }

  lemma ResolveAcceptedIff(c: Command)
    requires c.CloseItem?
    ensures Valid(ResolveEvent(c)) <==>
      && c.answer != "" && c.engine != ""
      && |c.item| == 11 && c.item[..3] == "it-" && WholeHex(c.item[3..], 8)
  {
    if |c.item| == 11 {
      HexAgrees(c.item[3..]);
      assert "it-" <= c.item <==> c.item[..3] == "it-";
    }
  }

  /** Who may sign an event, in which phase. */
  predicate Signs(env: Envelope) {
    env.actor in ["agent", "operator"] && env.phase in ["design", "build", "test", "deploy"] && env.engine != ""
  }

  lemma SignsAgrees(t: int, env: Envelope, kind: Kind, fp: string, d: Payload)
    requires FingerprintRequired(kind)
    ensures ValidEnvelope(Make(t, env, kind, fp, d)) <==> Signs(env) && WholeHex(fp, 64)
  {
    HexAgrees(fp);
  }

  /** When a scan's detection is accepted. */
  lemma DetectionAcceptedIff(t: int, o: Options, m: Merged, l: Location)
    ensures Valid(DetectedEvent(t, o, m, l)) <==>
      && Signs(o.env) && WholeHex(m.fp, 64) && m.ruleId != "" && m.scanner != "" && l.path != "" && l.line >= 1
      && m.severity in ["critical", "high", "medium", "low", "info"]
  {
    SignsAgrees(t, o.env, Detected, m.fp, DetectedEvent(t, o, m, l).payload);
  }

  /** When its remediation and its presentation are. */
  lemma ScanEventsAcceptedIff(t: int, o: Options, fp: string)
    ensures Valid(RemediatedEvent(t, o, fp)) <==> Signs(o.env) && WholeHex(fp, 64)
    ensures Valid(SurfacedEvent(t, o, fp)) <==>
      Signs(o.env) && WholeHex(fp, 64) && o.context in ["pre-commit", "dispatch", "posture"]
  {
    SignsAgrees(t, o.env, Remediated, fp, ReasonedData(REASON));
    SignsAgrees(t, o.env, Surfaced, fp, SurfacedData(o.context));
    assert REASON != "";
  }

  // ---------------------------------------------------------------------
  // Triage, suppress, defer
  // ---------------------------------------------------------------------

  /** The store after one row was rewritten and one line appended. */
  ghost predicate OneRowOneLine(before: System, after: System, k: nat, g: Finding, e: Entry) {
    && k < |before.disk.findings|
    && after.disk == before.disk.(findings := before.disk.findings[k := g])
    && after.log == before.log + [e]
  }

  /** What the operator's commands sign, in the second they ran. */
  predicate ByOperator(ev: Event, engine: string, at: int) {
    ev.actor == "operator" && ev.phase == "build" && ev.engine == engine && ev.ts == at - at % 1000000000
  }

  /** A triage that is accepted: the row gets the command's verdict, and the line says the same. */
  lemma TriageWrites(w: Codec, sys: System, c: Command, k: nat)
    requires c.Triage? && Hits(sys, c, k)
    ensures var after, f, word := Exec(w, sys, c), sys.disk.findings[k], if c.dismiss then "dismissed" else "confirmed";
      && |after.log| > 0
      && OneRowOneLine(sys, after, k,
           f.(status := if c.dismiss then Dismissed else Confirmed,
              verdict := Some(Verdict(word, c.confidence, c.reason, c.sources, c.at, "operator"))),
           after.log[|after.log| - 1])
      && var ev := after.log[|after.log| - 1].ev;
         && ev.kind == Triaged && ev.fp == f.fp && ByOperator(ev, c.engine, c.at)
         && ev.payload == TriagedData(word, c.confidence, c.reason, c.sources)
  {
  }

  lemma SuppressWrites(w: Codec, sys: System, c: Command, k: nat)
    requires c.Suppress? && Hits(sys, c, k)
    ensures var after, f := Exec(w, sys, c), sys.disk.findings[k];
      && |after.log| > 0
      && OneRowOneLine(sys, after, k, f.(status := Silenced), after.log[|after.log| - 1])
      && var ev := after.log[|after.log| - 1].ev;
         ev.kind == Suppressed && ev.fp == f.fp && ByOperator(ev, c.engine, c.at) && ev.payload == ReasonedData(c.reason)
  {
  }

  lemma DeferWrites(w: Codec, sys: System, c: Command, k: nat)
    requires c.Defer? && Hits(sys, c, k)
    ensures var after, f := Exec(w, sys, c), sys.disk.findings[k];
      && |after.log| > 0
      && OneRowOneLine(sys, after, k, f.(status := Postponed), after.log[|after.log| - 1])
      && var ev := after.log[|after.log| - 1].ev;
         ev.kind == Deferred && ev.fp == f.fp && ByOperator(ev, c.engine, c.at) && ev.payload == ReasonedData(c.reason)
  {
  }

  /** Anything else they are given changes nothing. */
  lemma NothingWritten(w: Codec, sys: System, c: Command)
    requires Mutates(c) && forall k: nat :: !Hits(sys, c, k)
    ensures Exec(w, sys, c) == sys
  {
    var r := Resolve(sys.disk.findings, c.id);
    if r.Found? {
      assert !Hits(sys, c, r.k);
    }
  }

  // ---------------------------------------------------------------------
  // Items, baseline, advisory databases
  // ---------------------------------------------------------------------

  /** A raise that is accepted appends the item and the line that says the same. */
  lemma RaiseWrites(w: Codec, sys: System, c: Command)
    requires c.OpenItem? && About(sys, c).Some? && Valid(RaiseEvent(c, About(sys, c).value))
    ensures var after, about := Exec(w, sys, c), About(sys, c).value;
      && |after.log| > 0 && after.log[..|after.log| - 1] == sys.log
      && var ev := after.log[|after.log| - 1].ev;
         && ev.kind == Raised && ev.fp == "" && ev.actor == "agent" && ev.phase == "design" && ev.engine == c.engine
         && ev.ts == c.at - c.at % 1000000000 && ev.payload == RaisedData(c.itemKind, c.question, about)
         && after.disk == sys.disk.(items := sys.disk.items +
              [Item(w.idOf(ev), c.itemKind, c.question, about, c.at, "agent")])
  {
  }

  /** A verification is about the finding its text resolves to, a design item about none. */
  lemma AboutIs(sys: System, c: Command)
    requires c.OpenItem?
    ensures var r := Resolve(sys.disk.findings, c.about);
      About(sys, c) == if c.itemKind != "verification" then Some("")
                       else if r.Found? && r.k < |sys.disk.findings| then Some(sys.disk.findings[r.k].fp) else None
  {
  }

  lemma ResolveWrites(w: Codec, sys: System, c: Command)
    requires c.CloseItem? && c.item in IdsOf(sys.disk.items) && Valid(ResolveEvent(c))
    ensures var after := Exec(w, sys, c);
      && |after.log| > 0 && after.log[..|after.log| - 1] == sys.log
      && var ev := after.log[|after.log| - 1].ev;
         && ev.kind == Resolved && ev.fp == "" && ByOperator(ev, c.engine, c.at)
         && ev.payload == ResolvedData(c.item, c.answer, c.sources)
         && after.disk == sys.disk.(items := Closing(sys.disk.items, c.item))
  {
  }

  lemma RebaselineWrites(w: Codec, sys: System, c: Command)
    requires c.Rebaseline? && c.engine != ""
    ensures var after := Exec(w, sys, c);
      && |after.log| > 0 && after.log[..|after.log| - 1] == sys.log
      && (var ev := after.log[|after.log| - 1].ev; ev.kind == Rebaselined && ev.fp == "" && ByOperator(ev, c.engine, c.at))
      && after.disk.items == sys.disk.items
      && |after.disk.findings| == |after.disk.baseline| == |sys.disk.findings|
      && forall k :: 0 <= k < |sys.disk.findings| ==>
           && after.disk.baseline[k] == sys.disk.findings[k].fp
           && after.disk.findings[k] == sys.disk.findings[k].(
                inBaseline := sys.disk.findings[k].inBaseline || c.whole || sys.disk.findings[k].verdict.None?)
  {
  }

  /** A refused raise or resolve writes nothing; a baseline whose event is refused is written all the same. */
  lemma RefusedWrites(w: Codec, sys: System, c: Command)
    ensures var after := Exec(w, sys, c);
      && (c.OpenItem? && (About(sys, c).Some? ==> !Valid(RaiseEvent(c, About(sys, c).value))) ==> after == sys)
      && (c.CloseItem? && (!Valid(ResolveEvent(c)) || forall it :: it in sys.disk.items ==> it.id != c.item) ==> after == sys)
      && (c.Rebaseline? && c.engine == "" ==> after == sys.(disk := sys.disk.(baseline := FingerprintsOf(sys.disk.findings))))
  {
  }

  /** A scan with an event that is refused writes nothing; otherwise its events are appended in order, pinned to whole seconds. */
  lemma ScanWrites(w: Codec, sys: System, c: Command)
    requires c.Scan?
    ensures var r, after := Folded(sys.disk.findings, sys.disk.baseline, c.merged, c.cov, c.o, c.at), Exec(w, sys, c);
      if exists x :: x in r.events && !Valid(x) then after == sys
      else
        && |after.log| == |sys.log| + |r.events| && after.log[..|sys.log|] == sys.log
        && (forall i :: 0 <= i < |r.events| ==> after.log[|sys.log| + i].ev == Pin(r.events[i]))
        && after.disk == sys.disk.(findings := Stored(r.findings))
  {
  }

  /** A row as a rebuild writes it: flagged exactly when it has no verdict and the baseline names it. */
  predicate Regenerates(f: Finding, g: Finding, baseline: seq<string>) {
    g == f.(displayId := g.displayId, inBaseline := f.verdict == None && f.fp in baseline)
  }

  lemma MarkedRow(w: Codec, log: seq<Entry>, baseline: seq<string>, i: nat)
    requires Replayed(w.idOf, log).Success? && i < |Replayed(w.idOf, log).value.findings|
    ensures var rows := Replayed(w.idOf, log).value.findings;
      |Marked(rows, baseline)| == |rows| && Regenerates(rows[i], Marked(rows, baseline)[i], baseline)
  {
    FlaggedIff(w.idOf, log, baseline, i);
  }

  lemma SlotRow(fs: seq<Finding>, marked: seq<Finding>, baseline: seq<string>, k: nat)
    requires k < |fs| == |marked| && Long(FingerprintsOf(marked))
    requires forall i :: 0 <= i < |fs| ==> Regenerates(fs[i], marked[i], baseline)
    ensures |Stored(marked)| == |fs| && Slots(FingerprintsOf(marked))[k] < |fs|
    ensures Regenerates(fs[Slots(FingerprintsOf(marked))[k]], Stored(marked)[k], baseline)
  {
    StoredRow(marked, k);
  }

  /** Every row a rebuild or a repair writes is a replayed one but for its display id and its flag, and the items are those replayed. */
  lemma RegeneratedRows(w: Codec, log: seq<Entry>, baseline: seq<string>, k: nat)
    requires Regenerated(w, log, baseline).Success? && k < |Regenerated(w, log, baseline).value.findings|
    ensures var now, out := Replayed(w.idOf, log).value, Regenerated(w, log, baseline).value;
      && |out.findings| == |now.findings| && out.items == now.items
      && exists i :: 0 <= i < |now.findings| && Regenerates(now.findings[i], out.findings[k], baseline)
  {
    var rows := Replayed(w.idOf, log).value.findings;
    var marked := Marked(rows, baseline);
    forall i | 0 <= i < |rows| ensures Regenerates(rows[i], marked[i], baseline) {
      MarkedRow(w, log, baseline, i);
    }
    if Long(FingerprintsOf(marked)) {
      if k < |rows| { SlotRow(rows, marked, baseline, k); }
    }
  }

  lemma UpdateWrites(w: Codec, sys: System, c: Command)
    requires c.RecordUpdate?
    ensures var after := Exec(w, sys, c);
      if c.engine == "" || c.digest == "" || (c.artifact != "vuln" && c.artifact != "java-db") then after == sys
      else
        && after.disk == sys.disk && |after.log| > 0 && after.log[..|after.log| - 1] == sys.log
        && var ev := after.log[|after.log| - 1].ev;
           ev.kind == DBUpdated && ev.fp == "" && ByOperator(ev, c.engine, c.at) &&
           ev.payload == DBUpdatedData(c.artifact, c.digest, c.previous)
  {
  }

  // ---------------------------------------------------------------------
  // One replayed event
  // ---------------------------------------------------------------------

  /** A detection of an unknown finding adds its row. */
  lemma BirthReplays(fs: seq<Finding>, ev: Event)
    requires ev.kind == Detected && ev.payload.DetectedData? && !Known(fs, ev.fp)
    ensures var d, after := ev.payload, FindingsStep(fs, ev);
      && |after| == |fs| + 1 && after[..|fs|] == fs
      && var f := after[|fs|];
         && f.fp == ev.fp && f.displayId == "" && f.ruleKey == d.rule && f.ruleId == d.rule && f.scanner == d.scanner
         && f.also == d.also && f.dev == d.dev && f.collapsedWith == [] && f.severity == d.severity
         && f.description == d.description && f.locs == [Location(d.path, d.line)]
         && f.detectedAt == ev.ts && f.lastSeen == ev.ts && f.status == Open && f.verdict == None && !f.inBaseline
         && (f.secret <==> d.scanner == "gitleaks" || d.also != [] || Within("secret", d.rule) || Within("token", d.rule))
  {
    WithinIs(ev.payload.rule, "secret");
    WithinIs(ev.payload.rule, "token");
  }

  /** One text occurs in another. */
  ghost predicate Within(sub: string, s: string) {
    exists a, b :: s == a + sub + b
  }

  lemma WithinIs(s: string, sub: string)
    ensures Contains(s, sub) <==> Within(sub, s)
  {
    if Contains(s, sub) {
      var i :| 0 <= i <= |s| && sub <= s[i..];
      assert s == s[..i] + sub + s[i..][|sub|..];
    }
    if a, b :| s == a + sub + b {
      assert s[|a|..] == sub + b;
    }
  }

  /** An event about a known finding rewrites its row alone, or removes it. */
  lemma KnownReplays(fs: seq<Finding>, ev: Event, k: nat)
    requires PayloadFits(ev) && Known(fs, ev.fp) && k == Latest(fs, ev.fp)
    ensures var f, after := fs[k], FindingsStep(fs, ev);
      match ev.kind
      case Detected =>
        var l := Location(ev.payload.path, ev.payload.line);
        after == fs[k := f.(lastSeen := ev.ts, locs := if l in f.locs then f.locs else f.locs + [l])]
      case Triaged =>
        var d := ev.payload;
        after == fs[k := f.(status := if d.verdict == "dismissed" then Dismissed else Confirmed,
                            verdict := Some(Verdict(d.verdict, d.confidence, d.reason, d.sources, ev.ts, ev.actor)))]
      case Suppressed => after == fs[k := f.(status := Silenced)]
      case Deferred => after == fs[k := f.(status := Postponed)]
      case Remediated => after == fs[..k] + fs[k + 1..]
      case _ => after == fs
  {
  }

  /** Any event but a detection leaves a list alone that does not know its finding. */
  lemma GhostReplays(fs: seq<Finding>, ev: Event)
    requires PayloadFits(ev) && !Known(fs, ev.fp) && ev.kind != Detected
    ensures FindingsStep(fs, ev) == fs
  {
  }

  /** A raised event opens its item, under a second name when the id is taken. */
  lemma RaiseReplays(idOf: ItemId, items: seq<Item>, ev: Event)
    requires ev.kind == Raised && ev.payload.RaisedData?
    ensures var d, id := ev.payload, idOf(ev);
      ItemsStep(idOf, items, ev) ==
      Success(items + [Item(if exists it :: it in items && it.id == id then id + "-2" else id,
                            d.itemKind, d.question, d.about, ev.ts, ev.actor)])
  {
  }
}
