/**
 The counts an operator sees, over whole runs: the open and confirmed findings in
 the state files are what the metrics count from the log.
 */
module Posture {
  import opened Wrappers
  import opened Events
  import opened Findings
  import opened LogOrder
  import opened Replay
  import opened Delta
  import opened Commands
  import opened Agreement
  import opened Runs
  import opened TwoReplays
  import Tally
  import Trend

  /** Every line holds a payload its kind's constructor accepted. */
  ghost predicate PayloadsValid(log: seq<Entry>) {
    forall i :: 0 <= i < |log| ==> ValidPayload(log[i].ev.kind, log[i].ev.payload)
  }

  lemma LinesValid(w: Codec, log: seq<Entry>, evs: seq<Event>)
    requires PayloadsValid(log) && AllValid(evs)
    ensures PayloadsValid(log + LinesOf(w, evs))
  {
    forall i | 0 <= i < |evs| ensures ValidPayload(LinesOf(w, evs)[i].ev.kind, LinesOf(w, evs)[i].ev.payload) {
      assert Valid(evs[i]);
    }
  }

  lemma ExecKeepsValid(w: Codec, sys: System, c: Command)
    requires PayloadsValid(sys.log)
    ensures PayloadsValid(Exec(w, sys, c).log)
  {
    if c.Scan? && Accepted(sys.disk.findings, sys.disk.baseline, c.merged, c.cov, c.o, c.at) {
      LinesValid(w, sys.log, Folded(sys.disk.findings, sys.disk.baseline, c.merged, c.cov, c.o, c.at).events);
    }
  }

  /** Commands only ever write what the constructors accept. */
  lemma {:induction false} RunKeepsValid(w: Codec, sys: System, cs: seq<Command>)
    requires PayloadsValid(sys.log)
    ensures PayloadsValid(Run(w, sys, cs).log)
    decreases |cs|
  {
    if cs != [] {
      RunKeepsValid(w, sys, cs[..|cs| - 1]);
      ExecKeepsValid(w, Run(w, sys, cs[..|cs| - 1]), cs[|cs| - 1]);
    }
  }

  lemma ValidReasons(log: seq<Entry>)
    requires Coherent(log) && PayloadsValid(log)
    ensures ReasonsDecode(EventsOf(Visited(log)))
  {
    VisitedOrders(log);
    var v := Visited(log);
    forall i | 0 <= i < |v| && v[i].ev.kind == Remediated ensures v[i].ev.payload.ReasonedData? {
      assert v[i] in log;
      var j :| 0 <= j < |log| && log[j] == v[i];
      assert ValidPayload(log[j].ev.kind, log[j].ev.payload);
    }
  }

  /** State that replays from the log is counted by the metrics of the log. */
  lemma StepCounts(w: Codec, sys: System)
    requires Injective(w) && InStep(w, sys) && PayloadsValid(sys.log)
    requires forall fp :: NeverRevived(fp, EventsOf(Visited(sys.log)))
    ensures Trend.Computed(sys.log).Success?
    ensures forall key :: Tally.Get(Trend.Computed(sys.log).value.current, key) == Standing(sys.disk.findings, key)
  {
    var evs, st := EventsOf(Visited(sys.log)), Replayed(w.idOf, sys.log).value;
    CanonicalCoherent(w, sys.log);
    ValidReasons(sys.log);
    ReplaysAgree(w.idOf, sys.log);
    FoldActsPerFingerprint(w.idOf, EMPTY, evs);
    AgreeingStand(sys.disk.findings, st.findings);
  }

  /** Lists that agree stand for the same counts. */
  lemma AgreeingStand(a: seq<Finding>, b: seq<Finding>)
    requires Unique(a) && Unique(b) && Agree(a, b)
    ensures forall key :: Standing(a, key) == Standing(b, key)
  {
    forall key ensures Standing(a, key) == Standing(b, key) {
      SameFps(a, b, Some(key));
      SameFps(a, b, None);
    }
  }

  lemma {:induction false} SameFps(a: seq<Finding>, b: seq<Finding>, sev: Option<string>)
    requires Unique(a) && Unique(b) && Agree(a, b)
    ensures WantedFps(a, sev, |a|) == WantedFps(b, sev, |b|)
    ensures OpenCount(a, sev, |a|) == OpenCount(b, sev, |b|)
  {
    CountIsSize(a, sev, |a|);
    CountIsSize(b, sev, |b|);
    forall fp ensures fp in WantedFps(a, sev, |a|) <==> fp in WantedFps(b, sev, |b|) {
      WantedLooks(a, sev, fp);
      WantedLooks(b, sev, fp);
      assert Look(a, fp) == Look(b, fp);
    }
    assert WantedFps(a, sev, |a|) == WantedFps(b, sev, |b|);
  }

  /**
   After any run of commands that keeps step and never revives a suppressed finding,
   the metrics' current counts are the open and confirmed findings on disk.
   */
  lemma {:induction false} CountsAreTheState(w: Codec, baseline: seq<string>, cs: seq<Command>)
    requires Injective(w) && AllowedRun(w, NewStore(baseline), cs)
    requires forall fp :: NeverRevived(fp, EventsOf(Visited(Run(w, NewStore(baseline), cs).log)))
    ensures var end := Run(w, NewStore(baseline), cs);
      && Trend.Computed(end.log).Success?
      && forall key :: Tally.Get(Trend.Computed(end.log).value.current, key) == Standing(end.disk.findings, key)
  {
    var start := NewStore(baseline);
    NothingInStep(w, baseline);
    RunKeepsStep(w, start, cs);
    RunKeepsValid(w, start, cs);
    StepCounts(w, Run(w, start, cs));
  }

  /**
   After any run that keeps step, revivals or not, the metrics hold as open the very
   findings the disk does exactly when none is parted at the end of the log.
   */
  lemma {:induction false} OpenAreTheStateIff(w: Codec, baseline: seq<string>, cs: seq<Command>)
    requires Injective(w) && AllowedRun(w, NewStore(baseline), cs)
    ensures var end := Run(w, NewStore(baseline), cs);
      && Tally.Tallied(EventsOf(Visited(end.log))).Success?
      && (WantedFps(end.disk.findings, None, |end.disk.findings|) ==
          Tally.OpenAll(Tally.Tallied(EventsOf(Visited(end.log))).value.live) <==>
          NoneParted(EventsOf(Visited(end.log))))
  {
    var start := NewStore(baseline);
    var end := Run(w, start, cs);
    NothingInStep(w, baseline);
    RunKeepsStep(w, start, cs);
    RunKeepsValid(w, start, cs);
    StepTallies(w, end);
    OpenSetsAgreeIff(w.idOf, end.log);
    ReplayedIndexed(w, end.log);
    SameFps(end.disk.findings, Replayed(w.idOf, end.log).value.findings, None);
  }

  lemma StepTallies(w: Codec, sys: System)
    requires Injective(w) && InStep(w, sys) && PayloadsValid(sys.log)
    ensures Tally.Tallied(EventsOf(Visited(sys.log))).Success?
  {
    var evs := EventsOf(Visited(sys.log));
    CanonicalCoherent(w, sys.log);
    ValidReasons(sys.log);
    AcceptedFits(w.idOf, EMPTY, evs);
    FittingCounts(evs, |evs|);
  }
}
