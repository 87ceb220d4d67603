/**
 `doctor` and `doctor fix` (internal/cli/doctor.go:18-38, :65-132 and :254-283):
 the comparison of the state files with a replay of the log, and the repair that
 refuses to drop what the log cannot regenerate.
 */
module Doctor {
  import opened Wrappers
  import opened Events
  import opened Findings
  import opened LogOrder
  import opened Replay
  import opened DisplayIds
  import opened AssignIds
  import opened Rebuild
  import opened Commands
  import opened Agreement
  import opened Items
  import opened ItemSteps
  import opened Storing
  import opened Runs
  import opened Repository

  datatype Drift = Drift(
    diskOnlyFindings: seq<string>, replayOnlyFindings: seq<string>, verdictChanged: seq<string>,
    statusChanged: seq<string>, baselineChanged: seq<string>,
    diskOnlyItems: seq<string>, replayOnlyItems: seq<string>)

  predicate Found(d: Drift) {
    |d.diskOnlyFindings| + |d.replayOnlyFindings| + |d.verdictChanged| + |d.statusChanged| + |d.baselineChanged|
    + |d.diskOnlyItems| + |d.replayOnlyItems| > 0
  }

  /** Nothing on disk is unknown to the log. */
  predicate SafeToFix(d: Drift) {
    |d.diskOnlyFindings| == 0 && |d.diskOnlyItems| == 0
  }

  function ShortFP(fp: string): string {
    if |fp| > 8 then fp[..8] else fp
  }

  function VerdictText(f: Finding): string {
    if f.verdict.None? then "" else f.verdict.value.verdict + ['\0'] + f.verdict.value.reason
  }

  // ---------------------------------------------------------------------
  // What a comparison lists
  // ---------------------------------------------------------------------

  type Test = (Finding, Finding) -> bool

  function StatusDiffers(): Test { (a: Finding, b: Finding) => a.status != b.status }

  function VerdictDiffers(): Test { (a: Finding, b: Finding) => VerdictText(a) != VerdictText(b) }

  function BaselineDiffers(): Test { (a: Finding, b: Finding) => a.inBaseline != b.inBaseline }

  /** Replayed rows whose row on disk differs. */
  function Changed(differs: Test, disk: seq<Finding>, replay: seq<Finding>, i: nat): seq<string>
    requires i <= |replay|
  {
    if i == 0 then []
    else
      var before, f := Changed(differs, disk, replay, i - 1), replay[i - 1];
      var k := Latest(disk, f.fp);
      if k >= 0 && differs(disk[k], f) then before + [ShortFP(f.fp)] else before
  }

  /** Rows of one list whose fingerprint the other does not have. */
  function Only(a: seq<Finding>, b: seq<Finding>, i: nat): seq<string>
    requires i <= |a|
  {
    if i == 0 then []
    else
      var before, f := Only(a, b, i - 1), a[i - 1];
      if Known(b, f.fp) then before else before + [ShortFP(f.fp)]
  }

  function OnlyItems(a: seq<Item>, b: seq<Item>, i: nat): seq<string>
    requires i <= |a|
  {
    if i == 0 then []
    else
      var before, it := OnlyItems(a, b, i - 1), a[i - 1];
      if it.id in IdsOf(b) then before else before + [it.id]
  }

  ghost function FpsOf(fs: seq<Finding>): set<string> {
    set f | f in fs :: f.fp
  }

  /** One short form per fingerprint, in whatever order the map is walked. */
  ghost predicate Lists(shorts: seq<string>, fps: set<string>) {
    exists order: seq<string> ::
      && (forall i, j :: 0 <= i < j < |order| ==> order[i] != order[j])
      && (set fp | fp in order) == fps
      && |shorts| == |order| && forall i :: 0 <= i < |order| ==> shorts[i] == ShortFP(order[i])
  }

  ghost predicate Diffs(d: Drift, disk: State, replay: State) {
    && d.replayOnlyFindings == Only(replay.findings, disk.findings, |replay.findings|)
    && d.statusChanged == Changed(StatusDiffers(), disk.findings, replay.findings, |replay.findings|)
    && d.verdictChanged == Changed(VerdictDiffers(), disk.findings, replay.findings, |replay.findings|)
    && d.baselineChanged == Changed(BaselineDiffers(), disk.findings, replay.findings, |replay.findings|)
    && Lists(d.diskOnlyFindings, FpsOf(disk.findings) - FpsOf(replay.findings))
    && d.replayOnlyItems == OnlyItems(replay.items, disk.items, |replay.items|)
    && d.diskOnlyItems == OnlyItems(disk.items, replay.items, |disk.items|)
  }

  lemma KnownIsIn(fs: seq<Finding>, fp: string)
    ensures Known(fs, fp) <==> fp in FpsOf(fs)
  {
    if fp in FpsOf(fs) {
      var k :| 0 <= k < |fs| && fs[k].fp == fp;
    }
  }

  // ---------------------------------------------------------------------
  // The comparison
  // ---------------------------------------------------------------------

  method DiffState(disk: State, replay: State) returns (d: Drift)
    ensures Diffs(d, disk, replay)
  {
    var diskFP := IndexOf(disk.findings);
    var replayOnly, status, verdict, baseline := CompareRows(disk.findings, diskFP, replay.findings);
    var replayFP := IndexOf(replay.findings);
    var diskOnly := WalkKeys(diskFP.Keys - replayFP.Keys);
    assert diskFP.Keys - replayFP.Keys == FpsOf(disk.findings) - FpsOf(replay.findings);
    var replayOnlyItems := MissingItems(replay.items, disk.items);
    var diskOnlyItems := MissingItems(disk.items, replay.items);
    d := Drift(diskOnly, replayOnly, verdict, status, baseline, diskOnlyItems, replayOnlyItems);
  }

  /** The loop over the replayed rows. */
  method CompareRows(disk: seq<Finding>, diskFP: map<string, Finding>, replay: seq<Finding>)
    returns (replayOnly: seq<string>, status: seq<string>, verdict: seq<string>, baseline: seq<string>)
    requires forall fp :: (fp in diskFP <==> Known(disk, fp)) && (fp in diskFP ==> diskFP[fp] == disk[Latest(disk, fp)])
    ensures replayOnly == Only(replay, disk, |replay|)
    ensures status == Changed(StatusDiffers(), disk, replay, |replay|)
    ensures verdict == Changed(VerdictDiffers(), disk, replay, |replay|)
    ensures baseline == Changed(BaselineDiffers(), disk, replay, |replay|)
  {
    replayOnly, status, verdict, baseline := [], [], [], [];
    for i := 0 to |replay|
      invariant replayOnly == Only(replay, disk, i)
      invariant status == Changed(StatusDiffers(), disk, replay, i)
      invariant verdict == Changed(VerdictDiffers(), disk, replay, i)
      invariant baseline == Changed(BaselineDiffers(), disk, replay, i)
    {
      var f := replay[i];
      if f.fp !in diskFP {
        replayOnly := replayOnly + [ShortFP(f.fp)];
      } else {
        var diskF := diskFP[f.fp];
        if diskF.status != f.status { status := status + [ShortFP(f.fp)]; }
        if VerdictText(diskF) != VerdictText(f) { verdict := verdict + [ShortFP(f.fp)]; }
        if diskF.inBaseline != f.inBaseline { baseline := baseline + [ShortFP(f.fp)]; }
      }
    }
  }

  /** A map from fingerprint to row: the last one wins. */
  method IndexOf(fs: seq<Finding>) returns (m: map<string, Finding>)
    ensures m.Keys == FpsOf(fs)
    ensures forall fp :: (fp in m <==> Known(fs, fp)) && (fp in m ==> m[fp] == fs[Latest(fs, fp)])
  {
    m := map[];
    for i := 0 to |fs|
      invariant forall fp :: fp in m <==> LatestUpTo(fs, fp, i) >= 0
      invariant forall fp :: fp in m ==> m[fp] == fs[LatestUpTo(fs, fp, i)]
    {
      m := m[fs[i].fp := fs[i]];
    }
    forall fp ensures fp in m <==> fp in FpsOf(fs) {
      KnownIsIn(fs, fp);
    }
  }

  /** Ranging over a map's keys, in no particular order. */
  method WalkKeys(fps: set<string>) returns (shorts: seq<string>)
    ensures Lists(shorts, fps)
  {
    shorts := [];
    ghost var order: seq<string> := [];
    var todo := fps;
    while todo != {}
      invariant todo <= fps
      invariant forall i, j :: 0 <= i < j < |order| ==> order[i] != order[j]
      invariant forall g :: g in order <==> g in fps && g !in todo
      invariant |shorts| == |order| && forall i :: 0 <= i < |order| ==> shorts[i] == ShortFP(order[i])
    {
      var fp :| fp in todo;
      assert fp !in order;
      todo := todo - {fp};
      order := order + [fp];
      shorts := shorts + [ShortFP(fp)];
    }
    assert (set fp | fp in order) == fps;
  }

  method MissingItems(a: seq<Item>, b: seq<Item>) returns (ids: seq<string>)
    ensures ids == OnlyItems(a, b, |a|)
  {
    var known: set<string> := {};
    for i := 0 to |b|
      invariant known == IdsOf(b[..i])
    {
      assert b[..i + 1] == b[..i] + [b[i]];
      known := known + {b[i].id};
    }
    assert b[..|b|] == b;
    ids := [];
    for i := 0 to |a|
      invariant ids == OnlyItems(a, b, i)
    {
      if a[i].id !in known {
        ids := ids + [a[i].id];
      }
    }
  }

  // ---------------------------------------------------------------------
  // Sound and complete
  // ---------------------------------------------------------------------

  datatype Report = Report(status: Status, verdict: string, inBaseline: bool)

  function ReportOf(f: Finding): Report {
    Report(f.status, VerdictText(f), f.inBaseline)
  }

  function Reported(fs: seq<Finding>, fp: string): Option<Report> {
    var k := Latest(fs, fp);
    if k < 0 then None else Some(ReportOf(fs[k]))
  }

  /** Disk and replay agree on fingerprints, status, verdict text, baseline flag and item ids. */
  ghost predicate Matching(disk: State, replay: State) {
    && (forall fp :: Reported(disk.findings, fp) == Reported(replay.findings, fp))
    && IdsOf(disk.items) == IdsOf(replay.items)
  }

  /** Rows with one fingerprint report the same. */
  ghost predicate Consistent(fs: seq<Finding>) {
    forall i :: 0 <= i < |fs| ==> Some(ReportOf(fs[i])) == Reported(fs, fs[i].fp)
  }

  lemma {:induction false} ChangedEmptyIff(differs: Test, disk: seq<Finding>, replay: seq<Finding>, i: nat)
    requires i <= |replay|
    ensures Changed(differs, disk, replay, i) == [] <==>
      forall j :: 0 <= j < i ==> Latest(disk, replay[j].fp) >= 0 ==> !differs(disk[Latest(disk, replay[j].fp)], replay[j])
  {
    if i > 0 {
      ChangedEmptyIff(differs, disk, replay, i - 1);
    }
  }

  lemma {:induction false} OnlyEmptyIff(a: seq<Finding>, b: seq<Finding>, i: nat)
    requires i <= |a|
    ensures Only(a, b, i) == [] <==> forall j :: 0 <= j < i ==> Known(b, a[j].fp)
  {
    if i > 0 {
      OnlyEmptyIff(a, b, i - 1);
    }
  }

  lemma {:induction false} OnlyItemsEmptyIff(a: seq<Item>, b: seq<Item>, i: nat)
    requires i <= |a|
    ensures OnlyItems(a, b, i) == [] <==> forall j :: 0 <= j < i ==> a[j].id in IdsOf(b)
  {
    if i > 0 {
      OnlyItemsEmptyIff(a, b, i - 1);
    }
  }

  lemma {:induction false} ItemsWithin(a: seq<Item>, b: seq<Item>)
    ensures OnlyItems(a, b, |a|) == [] <==> IdsOf(a) <= IdsOf(b)
  {
    OnlyItemsEmptyIff(a, b, |a|);
    forall j | 0 <= j < |a| ensures a[j].id in IdsOf(a) {
      assert a[j] in a;
    }
  }

  /** A row of the replay is reported the same by the disk, or is not there. */
  predicate SameAs(disk: seq<Finding>, f: Finding) {
    Reported(disk, f.fp) == Some(ReportOf(f))
  }

  lemma RowsSame(d: Drift, disk: State, replay: State)
    requires Diffs(d, disk, replay)
    ensures d.replayOnlyFindings == [] && d.statusChanged == [] && d.verdictChanged == [] && d.baselineChanged == [] <==>
            forall j :: 0 <= j < |replay.findings| ==> SameAs(disk.findings, replay.findings[j])
  {
    var a, b := disk.findings, replay.findings;
    OnlyEmptyIff(b, a, |b|);
    ChangedEmptyIff(StatusDiffers(), a, b, |b|);
    ChangedEmptyIff(VerdictDiffers(), a, b, |b|);
    ChangedEmptyIff(BaselineDiffers(), a, b, |b|);
  }

  lemma DiskOnlyEmpty(d: Drift, disk: State, replay: State)
    requires Diffs(d, disk, replay)
    ensures d.diskOnlyFindings == [] <==> forall fp :: Known(disk.findings, fp) ==> Known(replay.findings, fp)
  {
    var extra := FpsOf(disk.findings) - FpsOf(replay.findings);
    assert d.diskOnlyFindings == [] <==> extra == {} by {
      var order: seq<string> :| (set fp | fp in order) == extra && |d.diskOnlyFindings| == |order|;
      if order != [] {
        assert order[0] in extra;
      }
    }
    forall fp ensures fp in extra <==> Known(disk.findings, fp) && !Known(replay.findings, fp) {
      KnownIsIn(disk.findings, fp);
      KnownIsIn(replay.findings, fp);
    }
  }

  lemma MatchingRows(disk: seq<Finding>, replay: seq<Finding>)
    requires Consistent(replay)
    ensures (forall fp :: Reported(disk, fp) == Reported(replay, fp)) <==>
      && (forall fp :: Known(disk, fp) ==> Known(replay, fp))
      && (forall j :: 0 <= j < |replay| ==> SameAs(disk, replay[j]))
  {
    if forall fp :: Reported(disk, fp) == Reported(replay, fp) {
      forall fp | Known(disk, fp) ensures Known(replay, fp) {
        assert Reported(disk, fp) == Reported(replay, fp);
      }
      forall j | 0 <= j < |replay| ensures SameAs(disk, replay[j]) {
        assert Reported(disk, replay[j].fp) == Reported(replay, replay[j].fp);
      }
    }
    if (forall fp :: Known(disk, fp) ==> Known(replay, fp)) && forall j :: 0 <= j < |replay| ==> SameAs(disk, replay[j]) {
      forall fp ensures Reported(disk, fp) == Reported(replay, fp) {
        var k := Latest(replay, fp);
        if k >= 0 {
          assert SameAs(disk, replay[k]);
        } else {
          assert !Known(replay, fp);
        }
      }
    }
  }

  /** Drift is found exactly when disk and replay disagree on something they are compared on. */
  lemma FoundIff(d: Drift, disk: State, replay: State)
    requires Diffs(d, disk, replay) && Consistent(replay.findings)
    ensures Found(d) <==> !Matching(disk, replay)
  {
    RowsSame(d, disk, replay);
    DiskOnlyEmpty(d, disk, replay);
    MatchingRows(disk.findings, replay.findings);
    ItemsWithin(disk.items, replay.items);
    ItemsWithin(replay.items, disk.items);
  }

  /** The word and the reason of a row's verdict, if it has one. */
  function Told(f: Finding): Option<(string, string)> {
    if f.verdict.None? then None else Some((f.verdict.value.verdict, f.verdict.value.reason))
  }

  /** The words of verdicts hold no NUL, as none the commands accept does. */
  ghost predicate PlainWords(fs: seq<Finding>) {
    forall k :: 0 <= k < |fs| && fs[k].verdict.Some? ==> '\0' !in fs[k].verdict.value.verdict
  }

  lemma JoinTells(u: string, p: string, v: string, q: string)
    requires '\0' !in u && '\0' !in v
    ensures u + ['\0'] + p == v + ['\0'] + q <==> u == v && p == q
  {
    var s, t := u + ['\0'] + p, v + ['\0'] + q;
    assert s[|u|] == '\0' && t[|v|] == '\0';
    assert forall i :: 0 <= i < |u| ==> s[i] == u[i] && u[i] in u;
    assert forall i :: 0 <= i < |v| ==> t[i] == v[i] && v[i] in v;
    if s == t {
      assert |u| == |v|;
      assert u == s[..|u|] && v == t[..|v|] && p == s[|u| + 1..] && q == t[|v| + 1..];
    }
  }

  lemma TextsTell(a: Finding, b: Finding)
    requires a.verdict.Some? ==> '\0' !in a.verdict.value.verdict
    requires b.verdict.Some? ==> '\0' !in b.verdict.value.verdict
    ensures VerdictText(a) == VerdictText(b) <==> Told(a) == Told(b)
  {
    if a.verdict.Some? && b.verdict.Some? {
      JoinTells(a.verdict.value.verdict, a.verdict.value.reason, b.verdict.value.verdict, b.verdict.value.reason);
    }
  }

  /** Two lists tell the same of a finding: both lack it, or its status, its verdict's word and reason, and its flag are equal. */
  ghost predicate TellSame(a: seq<Finding>, b: seq<Finding>, fp: string) {
    && (Known(a, fp) <==> Known(b, fp))
    && (Known(a, fp) ==>
          var f, g := a[Latest(a, fp)], b[Latest(b, fp)];
          f.status == g.status && Told(f) == Told(g) && f.inBaseline == g.inBaseline)
  }

  lemma TellSameIff(a: seq<Finding>, b: seq<Finding>, fp: string)
    requires PlainWords(a) && PlainWords(b)
    ensures TellSame(a, b, fp) <==> Reported(a, fp) == Reported(b, fp)
  {
    if Known(a, fp) && Known(b, fp) {
      TextsTell(a[Latest(a, fp)], b[Latest(b, fp)]);
    }
  }

  /** Drift is found exactly when some finding is told differently, or the open items differ. */
  lemma DriftIff(d: Drift, disk: State, replay: State)
    requires Diffs(d, disk, replay) && Consistent(replay.findings)
    requires PlainWords(disk.findings) && PlainWords(replay.findings)
    ensures Found(d) <==>
      !((forall fp :: TellSame(disk.findings, replay.findings, fp)) && IdsOf(disk.items) == IdsOf(replay.items))
  {
    FoundIff(d, disk, replay);
    forall fp ensures TellSame(disk.findings, replay.findings, fp) <==> Reported(disk.findings, fp) == Reported(replay.findings, fp) {
      TellSameIff(disk.findings, replay.findings, fp);
    }
  }

  /** Fingerprints are listed by their first eight digits. */
  lemma ListedShort(d: Drift, disk: State, replay: State, k: nat)
    requires Diffs(d, disk, replay) && k < |d.diskOnlyFindings| && forall j :: 0 <= j < |disk.findings| ==> |disk.findings[j].fp| == 64
    ensures |d.diskOnlyFindings[k]| == 8
    ensures exists fp :: Known(disk.findings, fp) && !Known(replay.findings, fp) && d.diskOnlyFindings[k] <= fp
  {
    var extra := FpsOf(disk.findings) - FpsOf(replay.findings);
    var order: seq<string> :| (set fp | fp in order) == extra && |d.diskOnlyFindings| == |order|
      && forall i :: 0 <= i < |order| ==> d.diskOnlyFindings[i] == ShortFP(order[i]);
    assert order[k] in extra;
    KnownIsIn(disk.findings, order[k]);
    KnownIsIn(replay.findings, order[k]);
    assert disk.findings[Latest(disk.findings, order[k])].fp == order[k];
  }

  /** A row of the replay whose row on disk differs so. */
  ghost predicate Differs(disk: seq<Finding>, replay: seq<Finding>, j: nat, how: Test) {
    j < |replay| && Known(disk, replay[j].fp) && how(disk[Latest(disk, replay[j].fp)], replay[j])
  }

  lemma {:induction false} ChangedAre(how: Test, disk: seq<Finding>, replay: seq<Finding>, i: nat, s: string)
    requires i <= |replay|
    ensures s in Changed(how, disk, replay, i) <==> exists j: nat :: j < i && Differs(disk, replay, j, how) && s == ShortFP(replay[j].fp)
  {
    if i > 0 {
      ChangedAre(how, disk, replay, i - 1, s);
      if Differs(disk, replay, i - 1, how) && s == ShortFP(replay[i - 1].fp) {
        assert s in Changed(how, disk, replay, i);
      }
      if j: nat :| j < i && Differs(disk, replay, j, how) && s == ShortFP(replay[j].fp) {
        assert j == i - 1 || j < i - 1;
      }
    }
  }

  lemma {:induction false} OnlyAre(a: seq<Finding>, b: seq<Finding>, i: nat, s: string)
    requires i <= |a|
    ensures s in Only(a, b, i) <==> exists j: nat :: j < i && !Known(b, a[j].fp) && s == ShortFP(a[j].fp)
  {
    if i > 0 {
      OnlyAre(a, b, i - 1, s);
      if j: nat :| j < i && !Known(b, a[j].fp) && s == ShortFP(a[j].fp) {
        assert j == i - 1 || j < i - 1;
      }
    }
  }

  /** The row on disk of a replayed one. */
  function There(disk: seq<Finding>, f: Finding): Finding
    requires Known(disk, f.fp)
  {
    disk[Latest(disk, f.fp)]
  }

  ghost predicate StatusApart(disk: seq<Finding>, replay: seq<Finding>, j: nat) {
    j < |replay| && Known(disk, replay[j].fp) && There(disk, replay[j]).status != replay[j].status
  }

  ghost predicate VerdictApart(disk: seq<Finding>, replay: seq<Finding>, j: nat) {
    j < |replay| && Known(disk, replay[j].fp) && Told(There(disk, replay[j])) != Told(replay[j])
  }

  ghost predicate FlagApart(disk: seq<Finding>, replay: seq<Finding>, j: nat) {
    j < |replay| && Known(disk, replay[j].fp) && There(disk, replay[j]).inBaseline != replay[j].inBaseline
  }

  lemma ApartIs(disk: seq<Finding>, replay: seq<Finding>, j: nat)
    requires PlainWords(disk) && PlainWords(replay)
    ensures Differs(disk, replay, j, StatusDiffers()) <==> StatusApart(disk, replay, j)
    ensures Differs(disk, replay, j, VerdictDiffers()) <==> VerdictApart(disk, replay, j)
    ensures Differs(disk, replay, j, BaselineDiffers()) <==> FlagApart(disk, replay, j)
  {
    if j < |replay| && Known(disk, replay[j].fp) {
      TextsTell(There(disk, replay[j]), replay[j]);
    }
  }

  /** Each difference is reported in its own list, by the short form of the fingerprint. */
  lemma ListsAre(d: Drift, disk: State, replay: State, s: string)
    requires Diffs(d, disk, replay) && PlainWords(disk.findings) && PlainWords(replay.findings)
    ensures var b := replay.findings;
      && (s in d.replayOnlyFindings <==> exists j: nat :: j < |b| && !Known(disk.findings, b[j].fp) && s == ShortFP(b[j].fp))
      && (s in d.statusChanged <==> exists j: nat :: StatusApart(disk.findings, b, j) && s == ShortFP(b[j].fp))
      && (s in d.verdictChanged <==> exists j: nat :: VerdictApart(disk.findings, b, j) && s == ShortFP(b[j].fp))
      && (s in d.baselineChanged <==> exists j: nat :: FlagApart(disk.findings, b, j) && s == ShortFP(b[j].fp))
  {
    var a, b := disk.findings, replay.findings;
    OnlyAre(b, a, |b|, s);
    ChangedAre(StatusDiffers(), a, b, |b|, s);
    ChangedAre(VerdictDiffers(), a, b, |b|, s);
    ChangedAre(BaselineDiffers(), a, b, |b|, s);
    forall j: nat ensures
      && (Differs(a, b, j, StatusDiffers()) <==> StatusApart(a, b, j))
      && (Differs(a, b, j, VerdictDiffers()) <==> VerdictApart(a, b, j))
      && (Differs(a, b, j, BaselineDiffers()) <==> FlagApart(a, b, j))
    {
      ApartIs(a, b, j);
    }
  }

  /** And items on one side only by their ids. */
  lemma {:induction false} ItemListsAre(a: seq<Item>, b: seq<Item>, i: nat, id: string)
    requires i <= |a|
    ensures id in OnlyItems(a, b, i) <==> id !in IdsOf(b) && exists j: nat :: j < i && a[j].id == id
  {
    if i > 0 {
      ItemListsAre(a, b, i - 1, id);
      if j: nat :| j < i && a[j].id == id {
        assert j == i - 1 || j < i - 1;
      }
    }
  }

  /** The log can regenerate every finding and item on disk. */
  ghost predicate Regenerable(disk: State, replay: State) {
    && (forall fp :: Known(disk.findings, fp) ==> Known(replay.findings, fp))
    && IdsOf(disk.items) <= IdsOf(replay.items)
  }

  lemma SafeIff(d: Drift, disk: State, replay: State)
    requires Diffs(d, disk, replay)
    ensures SafeToFix(d) <==> Regenerable(disk, replay)
  {
    DiskOnlyEmpty(d, disk, replay);
    ItemsWithin(disk.items, replay.items);
  }

  // ---------------------------------------------------------------------
  // The replay a doctor compares with
  // ---------------------------------------------------------------------

  function DiskState(sys: System): State {
    State(sys.disk.findings, sys.disk.items)
  }

  /** What a rebuild in a scratch directory yields. */
  function Replica(w: Codec, sys: System): Result<State, ReplayError> {
    Regenerated(w, sys.log, sys.disk.baseline)
  }

  lemma WrittenConsistent(fs: seq<Finding>)
    requires Unique(fs) && Long(FingerprintsOf(fs))
    ensures Consistent(Written(fs))
  {
    var out, slots := Written(fs), Slots(FingerprintsOf(fs));
    forall i | 0 <= i < |out| ensures Some(ReportOf(out[i])) == Reported(out, out[i].fp) {
      var k := Latest(out, out[i].fp);
      SlotsInRange(FingerprintsOf(fs), i);
      SlotsInRange(FingerprintsOf(fs), k);
      NamedRow(fs, slots[i]);
      NamedRow(fs, slots[k]);
      assert out[i] == Named(fs, slots[i]) && out[k] == Named(fs, slots[k]);
      assert fs[slots[i]].fp == fs[slots[k]].fp;
    }
  }

  /** Even a list clobbered by display ids repeats only equal rows. */
  lemma ReplicaConsistent(w: Codec, sys: System)
    requires Injective(w) && Canonical(w, sys.log) && Replica(w, sys).Success?
    ensures Consistent(Replica(w, sys).value.findings)
  {
    var st := Replayed(w.idOf, sys.log).value;
    var fs := Marked(st.findings, sys.disk.baseline);
    ReplayedIndexed(w, sys.log);
    ReplayedLong(w, sys.log);
    MarkedAgrees(st.findings, sys.disk.baseline);
    UniqueDistinct(fs);
    UniqueDistinct(st.findings);
    WrittenConsistent(fs);
  }

  // ---------------------------------------------------------------------
  // The repair
  // ---------------------------------------------------------------------

  /** What `doctor fix` means to write, if anything: it differs from the disk and knows all the disk knows. */
  ghost function Proposal(w: Codec, seen: System): Option<State> {
    match Replica(w, seen)
    case Failure(_) => None
    case Success(st) => if Matching(DiskState(seen), st) || !Regenerable(DiskState(seen), st) then None else Some(st)
  }

  /** The first half, outside the lock: state, log and baseline are read, replayed and compared. */
  method Examine(dir: Directory, w: Codec) returns (r: Option<State>)
    requires Injective(w) && Canonical(w, dir.log)
    ensures r == Proposal(w, dir.System())
  {
    ghost var sys := dir.System();
    CanonicalCoherent(w, dir.log);
    var replayed := Rebuild.Rebuild(w.idOf, dir.log, dir.disk.baseline);
    if replayed.Failure? {
      return None;
    }
    ReplicaConsistent(w, sys);
    var rows := Save(replayed.value.findings);
    var st := State(rows, replayed.value.items);
    var d := DiffState(State(dir.disk.findings, dir.disk.items), st);
    ProposalFrom(w, sys, st, d);
    return if Found(d) && SafeToFix(d) then Some(st) else None;
  }

  lemma ProposalFrom(w: Codec, seen: System, st: State, d: Drift)
    requires Replica(w, seen) == Success(st) && Consistent(st.findings) && Diffs(d, DiskState(seen), st)
    ensures Proposal(w, seen) == if Found(d) && SafeToFix(d) then Some(st) else None
  {
    FoundIff(d, DiskState(seen), st);
    SafeIff(d, DiskState(seen), st);
  }

  /** Both halves with nothing in between: read, then the locked write. */
  method Fix(dir: Directory, w: Codec)
    requires Injective(w) && Canonical(w, dir.log)
    modifies dir
    ensures var before := old(dir.System());
      dir.System() == if Proposal(w, before).Some? then Exec(w, before, DoctorFix(before.log, before.disk.baseline)) else before
  {
    var r := Examine(dir, w);
    if r.Some? {
      dir.Restore(w, r.value, dir.log, dir.disk.baseline);
    }
  }

  // ---------------------------------------------------------------------
  // What a repair drops
  // ---------------------------------------------------------------------

  /** The write of a repair that examined the store `seen`, on the store as it is by then. */
  function Repaired(w: Codec, seen: System, now: System): System {
    Exec(w, now, DoctorFix(seen.log, seen.disk.baseline))
  }

  lemma ProposalIs(w: Codec, seen: System, now: System, st: State)
    requires Proposal(w, seen) == Some(st)
    ensures Repaired(w, seen, now).disk == now.disk.(findings := st.findings, items := st.items)
    ensures forall fp :: Known(seen.disk.findings, fp) ==> Known(st.findings, fp)
    ensures IdsOf(seen.disk.items) <= IdsOf(st.items)
  {
    assert Regenerable(DiskState(seen), st);
  }

  /** Every row of one list is known to another. */
  ghost predicate KnowsAll(known: seq<Finding>, fs: seq<Finding>) {
    forall fp :: Known(fs, fp) ==> Known(known, fp)
  }

  /** Every fingerprint that is on disk now and was not then. */
  ghost predicate KnowsNew(known: seq<Finding>, now: seq<Finding>, before: seq<Finding>) {
    forall fp :: Known(now, fp) && !Known(before, fp) ==> Known(known, fp)
  }

  /** With nothing in between, it drops no finding and no item, and leaves nothing to repair. */
  lemma RepairIsSafe(w: Codec, sys: System)
    requires Proposal(w, sys).Some?
    ensures var after := Repaired(w, sys, sys);
      && KnowsAll(after.disk.findings, sys.disk.findings)
      && IdsOf(sys.disk.items) <= IdsOf(after.disk.items)
      && Replica(w, after).Success? && Matching(DiskState(after), Replica(w, after).value)
      && Proposal(w, after).None?
  {
    ProposalIs(w, sys, sys, Proposal(w, sys).value);
  }

  /** No finding on disk at the write is dropped exactly when the log, as it was read, knows every one stored since. */
  lemma NoFindingDroppedIff(w: Codec, seen: System, now: System)
    requires Proposal(w, seen).Some?
    ensures KnowsAll(Repaired(w, seen, now).disk.findings, now.disk.findings) <==>
            KnowsNew(Proposal(w, seen).value.findings, now.disk.findings, seen.disk.findings)
  {
    var st := Proposal(w, seen).value;
    ProposalIs(w, seen, now, st);
    if KnowsNew(st.findings, now.disk.findings, seen.disk.findings) {
      forall fp | Known(now.disk.findings, fp) ensures Known(st.findings, fp) {
        assert Known(seen.disk.findings, fp) || !Known(seen.disk.findings, fp);
      }
    }
  }

  /** And the same for items. */
  lemma NoItemDroppedIff(w: Codec, seen: System, now: System)
    requires Proposal(w, seen).Some?
    ensures IdsOf(now.disk.items) <= IdsOf(Repaired(w, seen, now).disk.items) <==>
            IdsOf(now.disk.items) - IdsOf(seen.disk.items) <= IdsOf(Proposal(w, seen).value.items)
  {
    var a, b, c := IdsOf(now.disk.items), IdsOf(seen.disk.items), IdsOf(Proposal(w, seen).value.items);
    ProposalIs(w, seen, now, Proposal(w, seen).value);
    assert a <= c <==> a - b <= c;
  }

  /**
   On a store in step, the write drops a finding exactly when the lines appended
   since the log was read bring it to life and the log did not know it before.
   */
  lemma DroppedIffBornSince(w: Codec, now: System, log: seq<Entry>, more: seq<Entry>, baseline: seq<string>, fp: string)
    requires Injective(w) && InStep(w, now) && now.log == log + more && Precedes(log, more)
    requires Replayed(w.idOf, log).Success? && Spared(Replayed(w.idOf, log).value.findings)
    ensures Known(now.disk.findings, fp) && !Known(Restoring(w, now, log, baseline).disk.findings, fp) <==>
      && Look(Replayed(w.idOf, log).value.findings, fp).None?
      && Lives(fp, None, EventsOf(Visited(more))).Some?
  {
    var was := Replayed(w.idOf, log).value;
    CanonicalCoherent(w, now.log);
    ReplayAppended(w, log, more);
    ReplayedIndexed(w, log);
    FoldActsPerFingerprint(w.idOf, was, EventsOf(Visited(more)));
    assert Look(now.disk.findings, fp) == Look(Replayed(w.idOf, now.log).value.findings, fp);
    RegeneratedKnows(was.findings, baseline, fp);
  }

  /** It drops an item exactly when a line appended since raised it, none before did, and none since resolved it. */
  lemma ItemDroppedIff(w: Codec, now: System, log: seq<Entry>, more: seq<Entry>, baseline: seq<string>, id: string)
    requires Injective(w) && InStep(w, now) && now.log == log + more && LinesOwnIds(w.idOf, now.log)
    requires Replayed(w.idOf, log).Success?
    ensures id in IdsOf(now.disk.items) && id !in IdsOf(Restoring(w, now, log, baseline).disk.items) <==>
            RaisedBy(w.idOf, more, id) && !RaisedBy(w.idOf, log, id) && !SettledBy(more, id)
  {
    CanonicalCoherent(w, now.log);
    PartsCoherent(log, more);
    ItemsSeenIds(now.disk.items, Replayed(w.idOf, now.log).value.items);
    OpenItemsIff(w.idOf, now.log, id);
    PartOwnsIds(w.idOf, log, more);
    OpenItemsIff(w.idOf, log, id);
    PartsRaise(w.idOf, log, more, id);
    if SettledBy(log, id) {
      SettledIsRaised(w.idOf, log, id);
    }
  }

  lemma PartOwnsIds(idOf: ItemId, log: seq<Entry>, more: seq<Entry>)
    requires LinesOwnIds(idOf, log + more)
    ensures LinesOwnIds(idOf, log)
  {
  }

  lemma PartsRaise(idOf: ItemId, log: seq<Entry>, more: seq<Entry>, id: string)
    ensures RaisedBy(idOf, log + more, id) <==> RaisedBy(idOf, log, id) || RaisedBy(idOf, more, id)
    ensures SettledBy(log + more, id) <==> SettledBy(log, id) || SettledBy(more, id)
  {
    if r :| r in log && RaisesAs(idOf, r.ev, id) { assert r in log + more; }
    if r :| r in more && RaisesAs(idOf, r.ev, id) { assert r in log + more; }
    if x :| x in log && Settles(x.ev, id) { assert x in log + more; }
    if x :| x in more && Settles(x.ev, id) { assert x in log + more; }
  }

  lemma SettledIsRaised(idOf: ItemId, log: seq<Entry>, id: string)
    requires Coherent(log) && LinesOwnIds(idOf, log) && Replayed(idOf, log).Success? && SettledBy(log, id)
    ensures RaisedBy(idOf, log, id)
  {
    ReplaySucceedsIff(idOf, log);
    var x :| x in log && Settles(x.ev, id);
    assert SoundLine(idOf, log, x);
  }

  lemma RegeneratedKnows(fs: seq<Finding>, baseline: seq<string>, fp: string)
    requires Unique(fs) && Spared(fs)
    ensures Known(Stored(Marked(fs, baseline)), fp) <==> Known(fs, fp)
  {
    RegeneratedAgrees(fs, baseline, fs);
    assert Agree(fs, fs);
    assert Look(Stored(Marked(fs, baseline)), fp) == Look(fs, fp);
  }

  lemma RaisedIs(w: Codec, sys: System, c: Command, ev: Event)
    requires c.OpenItem? && About(sys, c).Some? && ev == RaiseEvent(c, About(sys, c).value) && Valid(ev)
    ensures w.idOf(Pin(ev)) in IdsOf(Exec(w, sys, c).disk.items) && Line(w, ev) in Exec(w, sys, c).log
  {
    var now := Exec(w, sys, c);
    assert now.disk.items[|sys.disk.items|] in now.disk.items;
    assert now.log[|sys.log|] == Line(w, ev);
  }

  /** An item raised in between is dropped from the state, though its line stays in the log. */
  lemma RaisedInBetweenIsLost(w: Codec, seen: System, st: State, sys: System, c: Command, ev: Event)
    requires Proposal(w, seen) == Some(st)
    requires c.OpenItem? && About(sys, c).Some? && ev == RaiseEvent(c, About(sys, c).value) && Valid(ev)
    requires w.idOf(Pin(ev)) !in IdsOf(st.items)
    ensures var now := Exec(w, sys, c);
      && w.idOf(Pin(ev)) in IdsOf(now.disk.items)
      && w.idOf(Pin(ev)) !in IdsOf(Repaired(w, seen, now).disk.items)
      && Line(w, ev) in Repaired(w, seen, now).log
  {
    RaisedIs(w, sys, c, ev);
    ProposalIs(w, seen, Exec(w, sys, c), st);
  }

  // ---------------------------------------------------------------------
  // Doctor on a store whose commands kept state and log in step
  // ---------------------------------------------------------------------

  /** In step, the only drift a doctor can see is in the baseline flags. */
  lemma InStepDrift(w: Codec, sys: System, fp: string)
    requires Injective(w) && InStep(w, sys) && Spared(Replayed(w.idOf, sys.log).value.findings)
    ensures Replica(w, sys).Success?
    ensures var a, b := Reported(sys.disk.findings, fp), Reported(Replica(w, sys).value.findings, fp);
      a.Some? == b.Some? && (a.Some? ==> a.value.status == b.value.status && a.value.verdict == b.value.verdict)
    ensures IdsOf(sys.disk.items) == IdsOf(Replica(w, sys).value.items)
  {
    var st := Replayed(w.idOf, sys.log).value;
    var fs := Marked(st.findings, sys.disk.baseline);
    ReplayedIndexed(w, sys.log);
    MarkedAgrees(st.findings, sys.disk.baseline);
    UniqueDistinct(fs);
    UniqueDistinct(st.findings);
    StoredSame(fs);
    assert Look(sys.disk.findings, fp) == Look(st.findings, fp);
    assert Look(Stored(fs), fp) == Look(fs, fp) == Look(st.findings, fp);
    ItemsSeenIds(sys.disk.items, st.items);
  }
}
