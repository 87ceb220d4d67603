/**
 The log as it lies on disk (log.go:36-71): one file a month, each command's lines
 appended to the month of their instant, all files read back and replayed.
 */
module Files {
  import opened Wrappers
  import opened Events
  import opened LogOrder
  import opened Replay
  import opened Lookup
  import opened Delta
  import opened Commands
  import opened Agreement
  import opened Runs
  import LogFile

  type Month = int -> int

  /** The content of each monthly file there is. */
  type Archive = map<int, Bytes>

  // ---------------------------------------------------------------------
  // Appending
  // ---------------------------------------------------------------------

  function Content(dir: Archive, m: int): Bytes {
    if m in dir then dir[m] else []
  }

  /** An append goes to the file of the event's month, created when missing. */
  function AppendTo(c: LogFile.LineCodec, month: Month, dir: Archive, ev: Event): Archive {
    dir[month(ev.ts) := LogFile.Appended(c, Content(dir, month(ev.ts)), ev)]
  }

  function AppendAll(c: LogFile.LineCodec, month: Month, dir: Archive, evs: seq<Event>): Archive {
    if evs == [] then dir
    else AppendTo(c, month, AppendAll(c, month, dir, evs[..|evs| - 1]), evs[|evs| - 1])
  }

  /** The events of one month, in the order they were appended. */
  function OfMonth(month: Month, evs: seq<Event>, m: int): (r: seq<Event>)
    ensures forall ev :: ev in r <==> ev in evs && month(ev.ts) == m
  {
    if evs == [] then []
    else
      var before, last := OfMonth(month, evs[..|evs| - 1], m), evs[|evs| - 1];
      assert evs == evs[..|evs| - 1] + [last];
      if month(last.ts) == m then before + [last] else before
  }

  /** Each file holds the lines of its month. */
  lemma {:induction false} FileHolds(c: LogFile.LineCodec, month: Month, evs: seq<Event>, m: int)
    ensures var dir := AppendAll(c, month, map[], evs);
      && (m in dir <==> exists ev :: ev in evs && month(ev.ts) == m)
      && Content(dir, m) == LogFile.Text(c, OfMonth(month, evs, m))
    decreases |evs|
  {
    if evs != [] {
      var front, last := evs[..|evs| - 1], evs[|evs| - 1];
      assert evs == front + [last];
      FileHolds(c, month, front, m);
      LogFile.TextAppended(c, OfMonth(month, front, m), last);
      assert last in evs;
    }
  }

  // ---------------------------------------------------------------------
  // Reading
  // ---------------------------------------------------------------------

  /** The names of all the files, in some order. */
  ghost predicate Listing(dir: Archive, names: seq<int>) {
    forall m :: m in names <==> m in dir
  }

  function FilesOf(dir: Archive, names: seq<int>): (r: seq<Bytes>)
    ensures |r| == |names| && forall i :: 0 <= i < |names| ==> r[i] == Content(dir, names[i])
  {
    seq(|names|, i requires 0 <= i < |names| => Content(dir, names[i]))
  }

  /** A line read back is the line written. */
  ghost predicate Same(c: LogFile.LineCodec, w: Codec) {
    forall ev :: c.encode(ev) == w.canon(Pin(ev))
  }

  ghost predicate ShortLines(c: LogFile.LineCodec, evs: seq<Event>) {
    forall ev :: ev in evs ==> |c.encode(ev)| < LogFile.LINE_LIMIT
  }

  ghost predicate LineFrom(w: Codec, evs: seq<Event>, x: Entry) {
    exists ev :: ev in evs && x == Line(w, ev)
  }

  lemma {:induction false} MonthReads(c: LogFile.LineCodec, w: Codec, month: Month, evs: seq<Event>, m: int)
    requires LogFile.Faithful(c) && Same(c, w) && ShortLines(c, evs)
    ensures LogFile.Read(c, Content(AppendAll(c, month, map[], evs), m)) == Success(LinesOf(w, OfMonth(month, evs, m)))
  {
    var mine := OfMonth(month, evs, m);
    FileHolds(c, month, evs, m);
    forall i | 0 <= i < |mine| ensures |c.encode(mine[i])| < LogFile.LINE_LIMIT {
      assert mine[i] in mine;
    }
    LogFile.AppendsReadBack(c, mine);
    forall i | 0 <= i < |mine| ensures LogFile.EntriesOf(c, mine)[i] == LinesOf(w, mine)[i] {
      assert c.encode(mine[i]) == w.canon(Pin(mine[i]));
    }
    assert LogFile.EntriesOf(c, mine) == LinesOf(w, mine);
  }

  lemma LinesAre(w: Codec, evs: seq<Event>, x: Entry)
    ensures x in LinesOf(w, evs) <==> LineFrom(w, evs, x)
  {
    if x in LinesOf(w, evs) {
      var i :| 0 <= i < |evs| && LinesOf(w, evs)[i] == x;
      assert evs[i] in evs;
    }
    if ev :| ev in evs && x == Line(w, ev) {
      var i :| 0 <= i < |evs| && evs[i] == ev;
      assert LinesOf(w, evs)[i] == x;
    }
  }

  /** The line is in one of the first n months. */
  ghost predicate FromMonths(w: Codec, month: Month, evs: seq<Event>, names: seq<int>, n: nat, x: Entry)
    requires n <= |names|
  {
    exists i :: 0 <= i < n && LineFrom(w, OfMonth(month, evs, names[i]), x)
  }

  lemma OneMoreFile(c: LogFile.LineCodec, files: seq<Bytes>, n: nat, es: seq<Entry>)
    requires 0 < n <= |files| && LogFile.ReadUpTo(c, files, n - 1).Success? && LogFile.Read(c, files[n - 1]) == Success(es)
    ensures LogFile.ReadUpTo(c, files, n) == Success(LogFile.ReadUpTo(c, files, n - 1).value + es)
  {
  }

  lemma {:induction false} FilesRead(c: LogFile.LineCodec, w: Codec, month: Month, evs: seq<Event>, names: seq<int>, files: seq<Bytes>,
                                     n: nat)
    requires LogFile.Faithful(c) && Same(c, w) && ShortLines(c, evs) && n <= |names|
    requires files == FilesOf(AppendAll(c, month, map[], evs), names)
    ensures LogFile.ReadUpTo(c, files, n).Success?
    ensures forall x :: x in LogFile.ReadUpTo(c, files, n).value <==> FromMonths(w, month, evs, names, n, x)
  {
    if n > 0 {
      var es := LinesOf(w, OfMonth(month, evs, names[n - 1]));
      FilesRead(c, w, month, evs, names, files, n - 1);
      MonthReads(c, w, month, evs, names[n - 1]);
      OneMoreFile(c, files, n, es);
      var before := LogFile.ReadUpTo(c, files, n - 1).value;
      forall x ensures x in before + es <==> FromMonths(w, month, evs, names, n, x) {
        LinesAre(w, OfMonth(month, evs, names[n - 1]), x);
        assert x in before <==> FromMonths(w, month, evs, names, n - 1, x);
      }
    }
  }

  /** Every line appended, to whichever file, is read back, and no other. */
  lemma {:induction false} FilesReadBack(c: LogFile.LineCodec, w: Codec, month: Month, evs: seq<Event>, names: seq<int>)
    requires LogFile.Faithful(c) && Same(c, w) && ShortLines(c, evs)
    requires Listing(AppendAll(c, month, map[], evs), names)
    ensures var r := LogFile.ReadUpTo(c, FilesOf(AppendAll(c, month, map[], evs), names), |names|);
      r.Success? && forall x :: x in r.value <==> x in LinesOf(w, evs)
  {
    var files := FilesOf(AppendAll(c, month, map[], evs), names);
    FilesRead(c, w, month, evs, names, files, |names|);
    forall x ensures FromMonths(w, month, evs, names, |names|, x) <==> x in LinesOf(w, evs) {
      LinesAre(w, evs, x);
      if ev :| ev in evs && x == Line(w, ev) {
        FileHolds(c, month, evs, month(ev.ts));
        var i :| 0 <= i < |names| && names[i] == month(ev.ts);
        assert LineFrom(w, OfMonth(month, evs, names[i]), x);
      }
    }
  }

  // ---------------------------------------------------------------------
  // What a run appends
  // ---------------------------------------------------------------------

  /** The events a command hands to the log. */
  function Writes(w: Codec, sys: System, c: Command): seq<Event> {
    var d := sys.disk;
    match c
    case Scan(at, merged, cov, o) =>
      if Accepted(d.findings, d.baseline, merged, cov, o, at) then Folded(d.findings, d.baseline, merged, cov, o, at).events else []
    case OpenItem(_, _, _, _, _) =>
      if About(sys, c).Some? && Valid(RaiseEvent(c, About(sys, c).value)) then [RaiseEvent(c, About(sys, c).value)] else []
    case CloseItem(_, _, item, _, _) => if item in IdsOf(d.items) && Valid(ResolveEvent(c)) then [ResolveEvent(c)] else []
    case Rebaseline(_, _, _) => if Valid(RebaselineEvent(c)) then [RebaselineEvent(c)] else []
    case RecordUpdate(_, _, _, _, _) => if Valid(UpdateEvent(c)) then [UpdateEvent(c)] else []
    case DoctorFix(_, _) => []
    case RebuildState => []
    case _ =>
      var r := Resolve(d.findings, c.id);
      if r.Found? && r.k < |d.findings| && Valid(MutationEvent(c, d.findings[r.k].fp)) then [MutationEvent(c, d.findings[r.k].fp)] else []
  }

  lemma OneWritten(w: Codec, ev: Event)
    ensures LinesOf(w, [ev]) == [Line(w, ev)] && LinesOf(w, []) == []
  {
  }

  lemma ExecWrites(w: Codec, sys: System, c: Command)
    ensures Exec(w, sys, c).log == sys.log + LinesOf(w, Writes(w, sys, c))
  {
    assert sys.log + LinesOf(w, []) == sys.log;
    if Writes(w, sys, c) != [] {
      OneWritten(w, Writes(w, sys, c)[0]);
    }
  }

  /** The events of the first k commands of a run. */
  function Written(w: Codec, sys: System, cs: seq<Command>, k: nat): seq<Event>
    requires k <= |cs|
  {
    if k == 0 then [] else Written(w, sys, cs, k - 1) + Writes(w, Along(w, sys, cs, k - 1), cs[k - 1])
  }

  lemma LinesJoin(w: Codec, log: seq<Entry>, a: seq<Event>, b: seq<Event>)
    ensures log + LinesOf(w, a) + LinesOf(w, b) == log + LinesOf(w, a + b)
  {
  }

  lemma {:induction false} RunWrites(w: Codec, sys: System, cs: seq<Command>, k: nat)
    requires k <= |cs|
    ensures Along(w, sys, cs, k).log == sys.log + LinesOf(w, Written(w, sys, cs, k))
  {
    if k == 0 {
      AlongAll(w, sys, cs);
      assert sys.log + LinesOf(w, []) == sys.log;
    } else {
      var before := Along(w, sys, cs, k - 1);
      RunWrites(w, sys, cs, k - 1);
      AlongNext(w, sys, cs, k - 1);
      ExecWrites(w, before, cs[k - 1]);
      LinesJoin(w, sys.log, Written(w, sys, cs, k - 1), Writes(w, before, cs[k - 1]));
    }
  }

  // ---------------------------------------------------------------------
  // State = replay(read(files))
  // ---------------------------------------------------------------------

  lemma SameLinesCoherent(a: seq<Entry>, b: seq<Entry>)
    requires Coherent(a) && forall x :: x in b <==> x in a
    ensures Coherent(b)
  {
    forall i, j | 0 <= i < |b| && 0 <= j < |b| && b[i].raw == b[j].raw ensures b[i] == b[j] {
      assert b[i] in b && b[j] in b;
      var k :| 0 <= k < |a| && a[k] == b[i];
      var l :| 0 <= l < |a| && a[l] == b[j];
    }
  }

  /** The directory a run leaves. */
  function Filed(c: LogFile.LineCodec, w: Codec, month: Month, baseline: seq<string>, cs: seq<Command>): Archive {
    AppendAll(c, month, map[], Written(w, NewStore(baseline), cs, |cs|))
  }

  lemma {:induction false} RunLog(w: Codec, baseline: seq<string>, cs: seq<Command>)
    requires Injective(w) && AllowedRun(w, NewStore(baseline), cs)
    ensures InStep(w, Run(w, NewStore(baseline), cs))
    ensures Run(w, NewStore(baseline), cs).log ==
            LinesOf(w, Written(w, NewStore(baseline), cs, |cs|))
  {
    var start := NewStore(baseline);
    NothingInStep(w, baseline);
    RunKeepsStep(w, start, cs);
    RunWrites(w, start, cs, |cs|);
    AlongAll(w, start, cs);
    var lines := LinesOf(w, Written(w, start, cs, |cs|));
    assert [] + lines == lines;
  }

  lemma SameReplayed(w: Codec, sys: System, read: seq<Entry>)
    requires Injective(w) && InStep(w, sys) && forall x :: x in read <==> x in sys.log
    ensures Replayed(w.idOf, read).Success? && Reproduced(sys.disk, Replayed(w.idOf, read).value)
  {
    CanonicalCoherent(w, sys.log);
    SameLinesCoherent(sys.log, read);
    ReplayDependsOnLineSet(w.idOf, sys.log, read);
  }

  /** Whatever order its files are listed in, reading and replaying them gives the state on disk. */
  lemma {:induction false} StateIsReplayOfFiles(c: LogFile.LineCodec, w: Codec, month: Month, baseline: seq<string>, cs: seq<Command>, names: seq<int>)
    requires Injective(w) && AllowedRun(w, NewStore(baseline), cs)
    requires LogFile.Faithful(c) && Same(c, w)
    requires ShortLines(c, Written(w, NewStore(baseline), cs, |cs|))
    requires Listing(Filed(c, w, month, baseline, cs), names)
    ensures var read := LogFile.ReadUpTo(c, FilesOf(Filed(c, w, month, baseline, cs), names), |names|);
      && read.Success? && Replayed(w.idOf, read.value).Success?
      && Reproduced(Run(w, NewStore(baseline), cs).disk, Replayed(w.idOf, read.value).value)
  {
    var evs := Written(w, NewStore(baseline), cs, |cs|);
    RunLog(w, baseline, cs);
    FilesReadBack(c, w, month, evs, names);
    SameReplayed(w, Run(w, NewStore(baseline), cs),
                 LogFile.ReadUpTo(c, FilesOf(Filed(c, w, month, baseline, cs), names), |names|).value);
  }
}
