/**
 What merging the scanners' observations means (internal/projection/merge.go):
 secrets seen at one place by several scanners become one finding, everything
 else is grouped by fingerprint. The hashes are parameters.
 */
module Merge {
  import opened Wrappers
  import opened Findings
  import opened Delta
  import opened Replay
  import opened DisplayIds

  /** One scanner observation. */
  datatype Obs = Obs(scanner: string, ruleId: string, cwe: string, severity: string, path: string, line: int,
                     desc: string, snippet: string, dev: bool, db: bool,
                     image: string, pkg: string, version: string)

  datatype Hashes = Hashes(span: string -> string, secret: (string, string) -> string,
                           of: (string, string) -> string, image: (string, string, string, string) -> string)

  predicate IsSpace(c: char) {
    || c == ' ' || '\t' <= c <= '\r' || c == '\U{85}' || c == '\U{A0}' || c == '\U{1680}'
    || '\U{2000}' <= c <= '\U{200A}' || c == '\U{2028}' || c == '\U{2029}' || c == '\U{202F}'
    || c == '\U{205F}' || c == '\U{3000}'
  }

  predicate Blank(s: string) {
    forall i :: 0 <= i < |s| ==> IsSpace(s[i])
  }

  predicate SecretRule(f: Obs) {
    if f.scanner == "gitleaks" then true
    else if f.scanner == "trivy" then Contains(f.ruleId, "secret") || Contains(f.ruleId, "token")
    else f.scanner == "opengrep" && Contains(f.ruleId, "generic.secrets.")
  }

  /** Observations that take part in the secret collapse. */
  predicate Collapses(f: Obs) {
    SecretRule(f) && !Blank(f.snippet)
  }

  function Priority(f: Obs): nat {
    if f.scanner == "gitleaks" then 0 else 1
  }

  function Key(h: Hashes, f: Obs): string {
    h.secret(h.span(f.snippet), f.path)
  }

  function RuleKey(f: Obs): string {
    if f.cwe != "" then f.cwe else f.ruleId
  }

  function SpanFp(h: Hashes, f: Obs): string {
    h.of(RuleKey(f), h.span(f.snippet))
  }

  /** The identity of an observation outside the secret collapse. */
  function FpOf(h: Hashes, f: Obs): string {
    if f.scanner == "trivy-image" then h.image(f.image, f.ruleId, f.pkg, f.version) else SpanFp(h, f)
  }

  function LocOf(f: Obs): Location {
    Location(f.path, f.line)
  }

  // ---------------------------------------------------------------------
  // Groups
  // ---------------------------------------------------------------------

  /** A label for every observation that takes part in a grouping. */
  type Labels = Obs -> Option<string>

  function SecretLabels(h: Hashes): Labels {
    (f: Obs) => if Collapses(f) then Some(Key(h, f)) else None
  }

  function RestLabels(h: Hashes): Labels {
    (f: Obs) => Some(FpOf(h, f))
  }

  /** The observations with a label, in order. */
  function MembersUpTo(of: Labels, fs: seq<Obs>, name: string, i: nat): seq<Obs>
    requires i <= |fs|
  {
    if i == 0 then []
    else
      var before := MembersUpTo(of, fs, name, i - 1);
      if of(fs[i - 1]) == Some(name) then before + [fs[i - 1]] else before
  }

  function Members(of: Labels, fs: seq<Obs>, name: string): seq<Obs> {
    MembersUpTo(of, fs, name, |fs|)
  }

  /** The labels, each where it first occurs. */
  function LabelsUpTo(of: Labels, fs: seq<Obs>, i: nat): seq<string>
    requires i <= |fs|
  {
    if i == 0 then []
    else
      var before, l := LabelsUpTo(of, fs, i - 1), of(fs[i - 1]);
      if l.None? || l.value in before then before else before + [l.value]
  }

  function LabelsOf(of: Labels, fs: seq<Obs>): seq<string> {
    LabelsUpTo(of, fs, |fs|)
  }

  lemma {:induction false} MembersAre(of: Labels, fs: seq<Obs>, name: string, i: nat)
    requires i <= |fs|
    ensures forall f :: f in MembersUpTo(of, fs, name, i) <==> f in fs[..i] && of(f) == Some(name)
  {
    if i > 0 {
      MembersAre(of, fs, name, i - 1);
      assert fs[..i] == fs[..i - 1] + [fs[i - 1]];
    }
  }

  lemma MembersOf(of: Labels, fs: seq<Obs>, name: string)
    ensures forall f :: f in Members(of, fs, name) <==> f in fs && of(f) == Some(name)
  {
    MembersAre(of, fs, name, |fs|);
    assert fs[..|fs|] == fs;
  }

  lemma {:induction false} LabelsAre(of: Labels, fs: seq<Obs>, i: nat)
    requires i <= |fs|
    ensures Distinct(LabelsUpTo(of, fs, i))
    ensures forall l :: l in LabelsUpTo(of, fs, i) <==> MembersUpTo(of, fs, l, i) != []
  {
    if i > 0 {
      LabelsAre(of, fs, i - 1);
    }
  }

  // ---------------------------------------------------------------------
  // Secrets
  // ---------------------------------------------------------------------

  /** The first member of the best priority. */
  function Best(ms: seq<Obs>, n: nat): (w: nat)
    requires 0 < n <= |ms|
    ensures w < n
    ensures forall j :: 0 <= j < n ==> Priority(ms[w]) <= Priority(ms[j])
    ensures forall j :: 0 <= j < w ==> Priority(ms[w]) < Priority(ms[j])
  {
    if n == 1 then 0
    else
      var w := Best(ms, n - 1);
      if Priority(ms[n - 1]) < Priority(ms[w]) then n - 1 else w
  }

  datatype Group = Group(winner: Obs, losers: seq<Obs>)

  /** The other members: in order, but a displaced first member follows those it had outlived. */
  function Losers<T>(ms: seq<T>, w: nat): seq<T>
    requires w < |ms|
  {
    if w == 0 then ms[1..] else ms[1..w] + [ms[0]] + ms[w + 1..]
  }

  function GroupOf(ms: seq<Obs>): Group
    requires ms != []
  {
    var w := Best(ms, |ms|);
    Group(ms[w], Losers(ms, w))
  }

  function Sites(ms: seq<Obs>): (ls: seq<Location>)
    ensures |ls| == |ms|
    ensures forall i :: 0 <= i < |ms| ==> ls[i] == LocOf(ms[i])
  {
    seq(|ms|, i requires 0 <= i < |ms| => LocOf(ms[i]))
  }

  function RulesOf(ms: seq<Obs>): (rs: seq<string>)
    ensures |rs| == |ms|
    ensures forall i :: 0 <= i < |ms| ==> rs[i] == ms[i].ruleId
  {
    seq(|ms|, i requires 0 <= i < |ms| => ms[i].ruleId)
  }

  function ToMerged(h: Hashes, f: Obs, secret: bool): Merged {
    Merged(SpanFp(h, f), f.ruleId, RuleKey(f), f.cwe, f.severity, f.desc, f.scanner, [], [], secret, f.dev, f.db,
           [LocOf(f)])
  }

  function FromGroup(h: Hashes, g: Group): Merged {
    ToMerged(h, g.winner, true).(
      also := RulesOf(g.losers), collapsedWith := RulesOf(g.losers),
      locs := LocsUpTo([LocOf(g.winner)], Sites(g.losers), |g.losers|))
  }

  // ---------------------------------------------------------------------
  // Everything else
  // ---------------------------------------------------------------------

  predicate AnyDev(ms: seq<Obs>) {
    exists i :: 0 <= i < |ms| && ms[i].dev
  }

  function FromMembers(h: Hashes, ms: seq<Obs>): Merged
    requires ms != []
  {
    ToMerged(h, ms[0], false).(
      fp := FpOf(h, ms[0]), dev := AnyDev(ms), locs := LocsUpTo([LocOf(ms[0])], Sites(ms), |ms|))
  }

  // ---------------------------------------------------------------------
  // The result
  // ---------------------------------------------------------------------

  function RestUpTo(fs: seq<Obs>, i: nat): seq<Obs>
    requires i <= |fs|
  {
    if i == 0 then []
    else
      var before := RestUpTo(fs, i - 1);
      if Collapses(fs[i - 1]) then before else before + [fs[i - 1]]
  }

  function Rest(fs: seq<Obs>): seq<Obs> {
    RestUpTo(fs, |fs|)
  }

  const NOTHING := Merged("", "", "", "", "", "", "", [], [], false, false, false, [])

  function SecretAt(h: Hashes, fs: seq<Obs>, key: string): Merged {
    var ms := Members(SecretLabels(h), fs, key);
    if ms == [] then NOTHING else FromGroup(h, GroupOf(ms))
  }

  function OtherAt(h: Hashes, rest: seq<Obs>, fp: string): Merged {
    var ms := Members(RestLabels(h), rest, fp);
    if ms == [] then NOTHING else FromMembers(h, ms)
  }

  function Secrets(h: Hashes, fs: seq<Obs>): (out: seq<Merged>)
    ensures |out| == |LabelsOf(SecretLabels(h), fs)|
    ensures forall i :: 0 <= i < |out| ==> out[i] == SecretAt(h, fs, LabelsOf(SecretLabels(h), fs)[i])
  {
    var ks := LabelsOf(SecretLabels(h), fs);
    seq(|ks|, i requires 0 <= i < |ks| => SecretAt(h, fs, ks[i]))
  }

  function Others(h: Hashes, rest: seq<Obs>): (out: seq<Merged>)
    ensures |out| == |LabelsOf(RestLabels(h), rest)|
    ensures forall i :: 0 <= i < |out| ==> out[i] == OtherAt(h, rest, LabelsOf(RestLabels(h), rest)[i])
  {
    var ks := LabelsOf(RestLabels(h), rest);
    seq(|ks|, i requires 0 <= i < |ks| => OtherAt(h, rest, ks[i]))
  }

  /** One finding per secret group, then one per remaining fingerprint. */
  function AllMerged(h: Hashes, fs: seq<Obs>): seq<Merged> {
    Secrets(h, fs) + Others(h, Rest(fs))
  }

  // ---------------------------------------------------------------------
  // Nothing is lost, nothing invented
  // ---------------------------------------------------------------------

  lemma {:induction false} LocsAre(locs: seq<Location>, seen: seq<Location>, i: nat)
    requires i <= |seen| && NoRepeats(locs)
    ensures NoRepeats(LocsUpTo(locs, seen, i))
    ensures forall l :: l in LocsUpTo(locs, seen, i) <==> l in locs || exists j :: 0 <= j < i && seen[j] == l
  {
    if i > 0 {
      LocsAre(locs, seen, i - 1);
      AddLocPlaces(LocsUpTo(locs, seen, i - 1), seen[i - 1]);
    }
  }

  /** Exactly the other members are the losers. */
  lemma LosersAreTheOthers<T>(ms: seq<T>, w: nat)
    requires w < |ms|
    ensures multiset(Losers(ms, w)) + multiset{ms[w]} == multiset(ms)
  {
    if w == 0 {
      assert ms == [ms[0]] + ms[1..];
    } else {
      assert ms == [ms[0]] + ms[1..w] + [ms[w]] + ms[w + 1..];
    }
  }

  ghost predicate SiteOf(ms: seq<Obs>, l: Location) {
    exists i :: 0 <= i < |ms| && LocOf(ms[i]) == l
  }

  /** A finding's locations are those of its members, each once. */
  ghost predicate Located(m: Merged, ms: seq<Obs>) {
    NoRepeats(m.locs) && forall l :: l in m.locs <==> SiteOf(ms, l)
  }

  lemma WinnerOrLoser(ms: seq<Obs>)
    requires ms != []
    ensures forall f :: f in ms <==> f == GroupOf(ms).winner || f in GroupOf(ms).losers
  {
    var w := Best(ms, |ms|);
    LosersAreTheOthers(ms, w);
    assert forall f :: f in ms <==> f in multiset(Losers(ms, w)) + multiset{ms[w]};
  }

  lemma SecretLocated(h: Hashes, ms: seq<Obs>)
    requires ms != []
    ensures Located(FromGroup(h, GroupOf(ms)), ms)
  {
    var g := GroupOf(ms);
    WinnerOrLoser(ms);
    LocsAre([LocOf(g.winner)], Sites(g.losers), |g.losers|);
    assert Sites([g.winner]) == [LocOf(g.winner)];
    forall l ensures l in FromGroup(h, g).locs <==> SiteOf(ms, l) {
      SiteIn(ms, l);
      SiteIn(g.losers, l);
    }
  }

  lemma SiteIn(ms: seq<Obs>, l: Location)
    ensures SiteOf(ms, l) <==> exists f :: f in ms && LocOf(f) == l
    ensures SiteOf(ms, l) <==> exists j :: 0 <= j < |ms| && Sites(ms)[j] == l
  {
    if f :| f in ms && LocOf(f) == l {
      var i :| 0 <= i < |ms| && ms[i] == f;
    }
    if i :| 0 <= i < |ms| && LocOf(ms[i]) == l {
      assert ms[i] in ms && Sites(ms)[i] == l;
    }
  }

  lemma OtherLocated(h: Hashes, ms: seq<Obs>)
    requires ms != []
    ensures Located(FromMembers(h, ms), ms)
  {
    LocsAre([LocOf(ms[0])], Sites(ms), |ms|);
  }

  /** The members of a secret finding: one wins, the rule ids of the others are kept. */
  lemma SecretKeepsRules(h: Hashes, ms: seq<Obs>)
    requires ms != []
    ensures var m := FromGroup(h, GroupOf(ms));
      && multiset(m.collapsedWith) + multiset{m.ruleId} == multiset(RulesOf(ms))
      && m.also == m.collapsedWith
  {
    var w := Best(ms, |ms|);
    LosersAreTheOthers(RulesOf(ms), w);
    assert RulesOf(Losers(ms, w)) == Losers(RulesOf(ms), w);
  }

  lemma {:induction false} RestIs(fs: seq<Obs>, i: nat)
    requires i <= |fs|
    ensures forall f :: f in RestUpTo(fs, i) <==> f in fs[..i] && !Collapses(f)
  {
    if i > 0 {
      RestIs(fs, i - 1);
      assert fs[..i] == fs[..i - 1] + [fs[i - 1]];
    }
  }

  lemma RestOf(fs: seq<Obs>)
    ensures forall f :: f in Rest(fs) <==> f in fs && !Collapses(f)
  {
    RestIs(fs, |fs|);
    assert fs[..|fs|] == fs;
  }

  /** The finding an observation ends up in. */
  ghost predicate EndsIn(h: Hashes, fs: seq<Obs>, f: Obs, m: Merged) {
    if Collapses(f) then
      m == SecretAt(h, fs, Key(h, f)) && m.secret && (m.ruleId == f.ruleId || f.ruleId in m.collapsedWith)
    else
      m == OtherAt(h, Rest(fs), FpOf(h, f)) && !m.secret && m.fp == FpOf(h, f) && (f.dev ==> m.dev)
  }

  /** Every observation ends up in a finding of the output, which has its location and its identity. */
  lemma EveryObservationKept(h: Hashes, fs: seq<Obs>, f: Obs)
    requires f in fs
    ensures exists m :: m in AllMerged(h, fs) && EndsIn(h, fs, f, m) && LocOf(f) in m.locs
  {
    if Collapses(f) {
      SecretKept(h, fs, f);
      var i :| 0 <= i < |Secrets(h, fs)| && Secrets(h, fs)[i] == SecretAt(h, fs, Key(h, f));
      assert AllMerged(h, fs)[i] == Secrets(h, fs)[i];
    } else {
      OtherKept(h, fs, f);
      var i :| 0 <= i < |Others(h, Rest(fs))| && Others(h, Rest(fs))[i] == OtherAt(h, Rest(fs), FpOf(h, f));
      assert AllMerged(h, fs)[|Secrets(h, fs)| + i] == Others(h, Rest(fs))[i];
    }
  }

  lemma SecretKept(h: Hashes, fs: seq<Obs>, f: Obs)
    requires f in fs && Collapses(f)
    ensures var m := SecretAt(h, fs, Key(h, f)); EndsIn(h, fs, f, m) && LocOf(f) in m.locs
    ensures SecretAt(h, fs, Key(h, f)) in Secrets(h, fs)
  {
    var of, key := SecretLabels(h), Key(h, f);
    MembersOf(of, fs, key);
    LabelsAre(of, fs, |fs|);
    var ms := Members(of, fs, key);
    assert f in ms;
    SecretLocated(h, ms);
    SecretKeepsRules(h, ms);
    RuleIn(ms, f);
    assert f.ruleId in multiset(FromGroup(h, GroupOf(ms)).collapsedWith) + multiset{FromGroup(h, GroupOf(ms)).ruleId};
    var i :| 0 <= i < |LabelsOf(of, fs)| && LabelsOf(of, fs)[i] == key;
    assert Secrets(h, fs)[i] == SecretAt(h, fs, key);
  }

  lemma OtherKept(h: Hashes, fs: seq<Obs>, f: Obs)
    requires f in fs && !Collapses(f)
    ensures var m := OtherAt(h, Rest(fs), FpOf(h, f)); EndsIn(h, fs, f, m) && LocOf(f) in m.locs
    ensures OtherAt(h, Rest(fs), FpOf(h, f)) in Others(h, Rest(fs))
  {
    RestOf(fs);
    var of, fp, rest := RestLabels(h), FpOf(h, f), Rest(fs);
    MembersOf(of, rest, fp);
    LabelsAre(of, rest, |rest|);
    var ms := Members(of, rest, fp);
    assert f in ms && ms[0] in ms;
    OtherLocated(h, ms);
    var i :| 0 <= i < |LabelsOf(of, rest)| && LabelsOf(of, rest)[i] == fp;
    assert Others(h, rest)[i] == OtherAt(h, rest, fp);
  }

  lemma RuleIn(ms: seq<Obs>, f: Obs)
    requires f in ms
    ensures f.ruleId in multiset(RulesOf(ms))
  {
    var i :| 0 <= i < |ms| && ms[i] == f;
    assert RulesOf(ms)[i] == f.ruleId;
  }

  /** What an output finding stands for: the members it was made of. */
  ghost predicate MadeOf(h: Hashes, fs: seq<Obs>, m: Merged, ms: seq<Obs>) {
    && ms != [] && (forall f :: f in ms ==> f in fs)
    && if m.secret then m == FromGroup(h, GroupOf(ms)) && exists key :: ms == Members(SecretLabels(h), fs, key)
       else m == FromMembers(h, ms) && ms == Members(RestLabels(h), Rest(fs), m.fp)
  }

  lemma SecretMadeOf(h: Hashes, fs: seq<Obs>, i: nat)
    requires i < |Secrets(h, fs)|
    ensures exists ms :: MadeOf(h, fs, Secrets(h, fs)[i], ms) && Located(Secrets(h, fs)[i], ms)
  {
    var of := SecretLabels(h);
    LabelsAre(of, fs, |fs|);
    var key := LabelsOf(of, fs)[i];
    assert key in LabelsOf(of, fs);
    MembersOf(of, fs, key);
    var ms := Members(of, fs, key);
    SecretLocated(h, ms);
    assert MadeOf(h, fs, Secrets(h, fs)[i], ms);
  }

  lemma OtherMadeOf(h: Hashes, fs: seq<Obs>, i: nat)
    requires i < |Others(h, Rest(fs))|
    ensures exists ms :: MadeOf(h, fs, Others(h, Rest(fs))[i], ms) && Located(Others(h, Rest(fs))[i], ms)
    ensures Others(h, Rest(fs))[i].fp == LabelsOf(RestLabels(h), Rest(fs))[i] && !Others(h, Rest(fs))[i].secret
  {
    var of, rest := RestLabels(h), Rest(fs);
    LabelsAre(of, rest, |rest|);
    var fp := LabelsOf(of, rest)[i];
    assert fp in LabelsOf(of, rest);
    MembersOf(of, rest, fp);
    RestOf(fs);
    var ms := Members(of, rest, fp);
    assert ms[0] in ms;
    OtherLocated(h, ms);
    assert MadeOf(h, fs, Others(h, rest)[i], ms);
  }

  lemma MadeAt(h: Hashes, fs: seq<Obs>, k: nat)
    requires k < |AllMerged(h, fs)|
    ensures exists ms :: MadeOf(h, fs, AllMerged(h, fs)[k], ms) && Located(AllMerged(h, fs)[k], ms)
  {
    var a, b := Secrets(h, fs), Others(h, Rest(fs));
    if k < |a| {
      SecretMadeOf(h, fs, k);
      assert (a + b)[k] == a[k];
    } else {
      OtherMadeOf(h, fs, k - |a|);
      assert (a + b)[k] == b[k - |a|];
    }
  }

  /** Every finding of the output is made of observations, and located exactly where they were. */
  lemma NothingInvented(h: Hashes, fs: seq<Obs>, k: nat)
    requires k < |AllMerged(h, fs)|
    ensures exists ms :: MadeOf(h, fs, AllMerged(h, fs)[k], ms) && Located(AllMerged(h, fs)[k], ms)
    ensures AllMerged(h, fs)[k].locs != []
  {
    MadeAt(h, fs, k);
    var m := AllMerged(h, fs)[k];
    var ms :| MadeOf(h, fs, m, ms) && Located(m, ms);
    SiteExists(m, ms);
  }

  lemma SiteExists(m: Merged, ms: seq<Obs>)
    requires ms != [] && Located(m, ms)
    ensures m.locs != []
  {
    assert SiteOf(ms, LocOf(ms[0]));
  }

  // ---------------------------------------------------------------------
  // Fingerprints of the output
  // ---------------------------------------------------------------------

  /** Outside the secret collapse no two findings share a fingerprint. */
  lemma OthersDistinct(h: Hashes, fs: seq<Obs>, i: nat, j: nat)
    requires i < j < |Others(h, Rest(fs))|
    ensures Others(h, Rest(fs))[i].fp != Others(h, Rest(fs))[j].fp
  {
    OtherMadeOf(h, fs, i);
    OtherMadeOf(h, fs, j);
    LabelsAre(RestLabels(h), Rest(fs), |Rest(fs)|);
  }

  ghost predicate FpsDistinct(out: seq<Merged>) {
    forall i, j :: 0 <= i < j < |out| ==> out[i].fp != out[j].fp
  }

  /** The fingerprints of the observations outside the collapse. */
  ghost function RestFps(h: Hashes, fs: seq<Obs>): set<string> {
    set f | f in fs && !Collapses(f) :: FpOf(h, f)
  }

  ghost function FpsOf(out: seq<Merged>): set<string> {
    set m | m in out :: m.fp
  }

  lemma OtherSource(h: Hashes, fs: seq<Obs>, i: nat)
    requires i < |Others(h, Rest(fs))|
    ensures exists f :: f in fs && !Collapses(f) && FpOf(h, f) == Others(h, Rest(fs))[i].fp
  {
    OtherMadeOf(h, fs, i);
    var m := Others(h, Rest(fs))[i];
    var ms :| MadeOf(h, fs, m, ms);
    RestOf(fs);
    MembersOf(RestLabels(h), Rest(fs), m.fp);
    assert ms[0] in ms;
  }

  lemma OthersFps(h: Hashes, fs: seq<Obs>)
    ensures FpsOf(Others(h, Rest(fs))) == RestFps(h, fs)
  {
    var b := Others(h, Rest(fs));
    forall fp ensures fp in FpsOf(b) <==> fp in RestFps(h, fs) {
      if fp in FpsOf(b) {
        var i :| 0 <= i < |b| && b[i].fp == fp;
        OtherSource(h, fs, i);
      }
      if fp in RestFps(h, fs) {
        var f :| f in fs && !Collapses(f) && FpOf(h, f) == fp;
        OtherKept(h, fs, f);
      }
    }
  }

  lemma ConcatDistinct(a: seq<Merged>, b: seq<Merged>)
    ensures FpsDistinct(a + b) <==> FpsDistinct(a) && FpsDistinct(b) && FpsOf(a) !! FpsOf(b)
  {
    var s := a + b;
    assert forall i :: 0 <= i < |a| ==> s[i] == a[i];
    assert forall j :: 0 <= j < |b| ==> s[|a| + j] == b[j];
    if FpsDistinct(s) {
      forall i, j | 0 <= i < j < |b| ensures b[i].fp != b[j].fp {
        assert s[|a| + i].fp != s[|a| + j].fp;
      }
      forall x, y | x in a && y in b ensures x.fp != y.fp {
        var i :| 0 <= i < |a| && a[i] == x;
        var j :| 0 <= j < |b| && b[j] == y;
        assert s[i].fp != s[|a| + j].fp;
      }
    }
    if FpsDistinct(a) && FpsDistinct(b) && FpsOf(a) !! FpsOf(b) {
      forall i, j | 0 <= i < j < |s| ensures s[i].fp != s[j].fp {
        if i < |a| <= j {
          assert a[i].fp in FpsOf(a) && b[j - |a|].fp in FpsOf(b);
        } else if |a| <= i {
          assert s[i] == b[i - |a|] && s[j] == b[j - |a|];
        }
      }
    }
  }

  lemma SplitDistinct(h: Hashes, fs: seq<Obs>)
    ensures FpsDistinct(AllMerged(h, fs)) <==>
            FpsDistinct(Secrets(h, fs)) && FpsOf(Secrets(h, fs)) !! RestFps(h, fs)
  {
    var b := Others(h, Rest(fs));
    ConcatDistinct(Secrets(h, fs), b);
    OthersFps(h, fs);
    forall i, j | 0 <= i < j < |b| ensures b[i].fp != b[j].fp {
      OthersDistinct(h, fs, i, j);
    }
  }

  // ---------------------------------------------------------------------
  // Winners among the observations
  // ---------------------------------------------------------------------

  /** Observation i outlives the others of its group among the first n: better priority, or as good and first. */
  ghost predicate WinsUpTo(h: Hashes, fs: seq<Obs>, i: nat, n: nat)
    requires n <= |fs|
  {
    && i < n && Collapses(fs[i])
    && forall j :: 0 <= j < n && Collapses(fs[j]) && Key(h, fs[j]) == Key(h, fs[i]) ==>
         Priority(fs[i]) < Priority(fs[j]) || (Priority(fs[i]) == Priority(fs[j]) && i <= j)
  }

  ghost predicate Wins(h: Hashes, fs: seq<Obs>, i: nat) {
    WinsUpTo(h, fs, i, |fs|)
  }

  /** A newcomer outlives the winner so far exactly when its priority is better. */
  lemma NewcomerWins(h: Hashes, fs: seq<Obs>, i: nat, n: nat)
    requires n < |fs| && WinsUpTo(h, fs, i, n)
    ensures if Collapses(fs[n]) && Key(h, fs[n]) == Key(h, fs[i]) && Priority(fs[n]) < Priority(fs[i])
            then WinsUpTo(h, fs, n, n + 1) else WinsUpTo(h, fs, i, n + 1)
  {
  }

  lemma {:induction false} FirstWins(h: Hashes, fs: seq<Obs>, n: nat)
    requires n < |fs| && Collapses(fs[n]) && MembersUpTo(SecretLabels(h), fs, Key(h, fs[n]), n) == []
    ensures WinsUpTo(h, fs, n, n + 1)
  {
    MembersAre(SecretLabels(h), fs, Key(h, fs[n]), n);
    forall j | 0 <= j < n && Collapses(fs[j]) ensures Key(h, fs[j]) != Key(h, fs[n]) {
      assert fs[..n][j] in fs[..n];
      assert SecretLabels(h)(fs[j]) == Some(Key(h, fs[j]));
    }
  }

  lemma BestNext(ms: seq<Obs>, last: Obs)
    requires ms != []
    ensures GroupOf(ms + [last]).winner == if Priority(last) < Priority(GroupOf(ms).winner) then last else GroupOf(ms).winner
  {
    BestPrefix(ms, ms + [last], |ms|);
  }

  lemma {:induction false} BestPrefix(a: seq<Obs>, b: seq<Obs>, n: nat)
    requires 0 < n <= |a| && a <= b
    ensures Best(b, n) == Best(a, n)
  {
    if n > 1 {
      BestPrefix(a, b, n - 1);
    }
  }

  /** Observation i is the winner of its group among the first n. */
  ghost predicate Leads(h: Hashes, fs: seq<Obs>, ms: seq<Obs>, key: string, i: nat, n: nat) {
    && n <= |fs| && ms != []
    && WinsUpTo(h, fs, i, n) && Key(h, fs[i]) == key && fs[i] == GroupOf(ms).winner
  }

  lemma MemberLeads(h: Hashes, fs: seq<Obs>, ms: seq<Obs>, key: string, i: nat, n: nat)
    requires n < |fs| && Leads(h, fs, ms, key, i, n)
    ensures var mine := SecretLabels(h)(fs[n]) == Some(key);
      Leads(h, fs, if mine then ms + [fs[n]] else ms, key,
            if mine && Priority(fs[n]) < Priority(fs[i]) then n else i, n + 1)
  {
    NewcomerWins(h, fs, i, n);
    BestNext(ms, fs[n]);
  }

  lemma {:induction false} WinnerUpTo(h: Hashes, fs: seq<Obs>, key: string, n: nat) returns (i: nat)
    requires n <= |fs| && MembersUpTo(SecretLabels(h), fs, key, n) != []
    ensures Leads(h, fs, MembersUpTo(SecretLabels(h), fs, key, n), key, i, n)
  {
    var before := MembersUpTo(SecretLabels(h), fs, key, n - 1);
    if before == [] {
      i := n - 1;
      FirstWins(h, fs, n - 1);
    } else {
      i := WinnerUpTo(h, fs, key, n - 1);
      MemberLeads(h, fs, before, key, i, n - 1);
      if SecretLabels(h)(fs[n - 1]) == Some(key) && Priority(fs[n - 1]) < Priority(fs[i]) {
        i := n - 1;
      }
    }
  }

  lemma OneWinner(h: Hashes, fs: seq<Obs>, i: nat, j: nat)
    requires Wins(h, fs, i) && Wins(h, fs, j) && Key(h, fs[i]) == Key(h, fs[j])
    ensures i == j
  {
  }

  /** The secret findings are those of the winners. */
  lemma SecretsAreWinners(h: Hashes, fs: seq<Obs>, k: nat) returns (i: nat)
    requires k < |Secrets(h, fs)|
    ensures Wins(h, fs, i) && Key(h, fs[i]) == LabelsOf(SecretLabels(h), fs)[k]
    ensures Secrets(h, fs)[k].fp == SpanFp(h, fs[i])
  {
    var of := SecretLabels(h);
    LabelsAre(of, fs, |fs|);
    assert LabelsOf(of, fs)[k] in LabelsOf(of, fs);
    i := WinnerUpTo(h, fs, LabelsOf(of, fs)[k], |fs|);
  }

  lemma WinnersAreSecrets(h: Hashes, fs: seq<Obs>, i: nat) returns (k: nat)
    requires Wins(h, fs, i)
    ensures k < |Secrets(h, fs)| && LabelsOf(SecretLabels(h), fs)[k] == Key(h, fs[i])
    ensures Secrets(h, fs)[k].fp == SpanFp(h, fs[i])
  {
    var of, key := SecretLabels(h), Key(h, fs[i]);
    MembersOf(of, fs, key);
    LabelsAre(of, fs, |fs|);
    assert fs[i] in Members(of, fs, key);
    k :| 0 <= k < |LabelsOf(of, fs)| && LabelsOf(of, fs)[k] == key;
    var w := SecretsAreWinners(h, fs, k);
    OneWinner(h, fs, i, w);
  }

  /** Winners of different groups have different fingerprints. */
  ghost predicate WinnersDiffer(h: Hashes, fs: seq<Obs>) {
    forall i: nat, j: nat :: Wins(h, fs, i) && Wins(h, fs, j) && Key(h, fs[i]) != Key(h, fs[j]) ==>
      SpanFp(h, fs[i]) != SpanFp(h, fs[j])
  }

  /** No winner has the fingerprint of an observation outside the collapse. */
  ghost predicate WinnersApart(h: Hashes, fs: seq<Obs>) {
    forall i: nat, j: nat :: Wins(h, fs, i) && j < |fs| && !Collapses(fs[j]) ==> SpanFp(h, fs[i]) != FpOf(h, fs[j])
  }

  lemma SecretsDistinctIff(h: Hashes, fs: seq<Obs>)
    ensures FpsDistinct(Secrets(h, fs)) <==> WinnersDiffer(h, fs)
  {
    var out, labels := Secrets(h, fs), LabelsOf(SecretLabels(h), fs);
    LabelsAre(SecretLabels(h), fs, |fs|);
    if WinnersDiffer(h, fs) {
      forall a, b | 0 <= a < b < |out| ensures out[a].fp != out[b].fp {
        var i := SecretsAreWinners(h, fs, a);
        var j := SecretsAreWinners(h, fs, b);
        assert labels[a] != labels[b];
      }
    }
    if FpsDistinct(out) {
      forall i: nat, j: nat | Wins(h, fs, i) && Wins(h, fs, j) && Key(h, fs[i]) != Key(h, fs[j])
        ensures SpanFp(h, fs[i]) != SpanFp(h, fs[j])
      {
        var a := WinnersAreSecrets(h, fs, i);
        var b := WinnersAreSecrets(h, fs, j);
        assert a < b || b < a;
      }
    }
  }

  lemma SecretsApartIff(h: Hashes, fs: seq<Obs>)
    ensures FpsOf(Secrets(h, fs)) !! RestFps(h, fs) <==> WinnersApart(h, fs)
  {
    var out := Secrets(h, fs);
    if WinnersApart(h, fs) {
      forall fp | fp in FpsOf(out) ensures fp !in RestFps(h, fs) {
        var k :| 0 <= k < |out| && out[k].fp == fp;
        var i := SecretsAreWinners(h, fs, k);
        forall f | f in fs && !Collapses(f) ensures FpOf(h, f) != fp {
          var j :| 0 <= j < |fs| && fs[j] == f;
        }
      }
    }
    if FpsOf(out) !! RestFps(h, fs) {
      forall i: nat, j: nat | Wins(h, fs, i) && j < |fs| && !Collapses(fs[j]) ensures SpanFp(h, fs[i]) != FpOf(h, fs[j]) {
        var k := WinnersAreSecrets(h, fs, i);
        assert out[k] in out && fs[j] in fs;
        assert SpanFp(h, fs[i]) in FpsOf(out) && FpOf(h, fs[j]) in RestFps(h, fs);
      }
    }
  }

  /**
   The output repeats no fingerprint exactly when winners of different groups have
   different ones and none has that of an observation outside the collapse.
   */
  lemma DistinctIff(h: Hashes, fs: seq<Obs>)
    ensures FpsDistinct(AllMerged(h, fs)) <==> WinnersDiffer(h, fs) && WinnersApart(h, fs)
  {
    SplitDistinct(h, fs);
    SecretsDistinctIff(h, fs);
    SecretsApartIff(h, fs);
  }

  /** Hashes that never collide, in namespaces that never meet. */
  ghost predicate Ideal(h: Hashes) {
    && (forall a, b, c, d :: h.secret(a, b) == h.secret(c, d) ==> a == c && b == d)
    && (forall a, b, c, d :: h.of(a, b) == h.of(c, d) ==> a == c && b == d)
    && (forall a, b, c, d, e, f :: h.of(a, b) != h.image(c, d, e, f))
  }

  /** The same rule key and the same span. */
  predicate SameSecret(h: Hashes, f: Obs, g: Obs) {
    RuleKey(f) == RuleKey(g) && h.span(f.snippet) == h.span(g.snippet)
  }

  /** Two winners in different files, or a winner and an observation outside the collapse, are of one rule key and span. */
  ghost predicate Clash(h: Hashes, fs: seq<Obs>, i: nat, j: nat) {
    && j < |fs| && Wins(h, fs, i) && SameSecret(h, fs[i], fs[j])
    && if Collapses(fs[j]) then Wins(h, fs, j) && fs[i].path != fs[j].path else fs[j].scanner != "trivy-image"
  }

  lemma IdealDiffer(h: Hashes, fs: seq<Obs>, i: nat, j: nat)
    requires Ideal(h) && Wins(h, fs, i) && Wins(h, fs, j)
    ensures Key(h, fs[i]) != Key(h, fs[j]) && SpanFp(h, fs[i]) == SpanFp(h, fs[j]) <==> Clash(h, fs, i, j)
  {
  }

  lemma IdealApart(h: Hashes, fs: seq<Obs>, i: nat, j: nat)
    requires Ideal(h) && Wins(h, fs, i) && j < |fs| && !Collapses(fs[j])
    ensures SpanFp(h, fs[i]) == FpOf(h, fs[j]) <==> Clash(h, fs, i, j)
  {
  }

  /** Without hash collisions, that is the only way: the group key holds the path, the fingerprint does not. */
  lemma IdealDistinctIff(h: Hashes, fs: seq<Obs>)
    requires Ideal(h)
    ensures FpsDistinct(AllMerged(h, fs)) <==> !exists i: nat, j: nat :: Clash(h, fs, i, j)
  {
    DistinctIff(h, fs);
    if i: nat, j: nat :| Clash(h, fs, i, j) {
      if Collapses(fs[j]) { IdealDiffer(h, fs, i, j); } else { IdealApart(h, fs, i, j); }
    }
    if !WinnersDiffer(h, fs) {
      var i: nat, j: nat :| Wins(h, fs, i) && Wins(h, fs, j) && Key(h, fs[i]) != Key(h, fs[j]) &&
        SpanFp(h, fs[i]) == SpanFp(h, fs[j]);
      IdealDiffer(h, fs, i, j);
    }
    if !WinnersApart(h, fs) {
      var i: nat, j: nat :| Wins(h, fs, i) && j < |fs| && !Collapses(fs[j]) && SpanFp(h, fs[i]) == FpOf(h, fs[j]);
      IdealApart(h, fs, i, j);
    }
  }

  /** One secret in two files: two findings, one fingerprint. */
  lemma SameSecretTwice(h: Hashes, f: Obs, path: string)
    requires Collapses(f) && h.secret(h.span(f.snippet), path) != Key(h, f)
    ensures var out := AllMerged(h, [f, f.(path := path)]);
      |out| == 2 && out[0].fp == out[1].fp && out[0].locs != out[1].locs
  {
    var g := f.(path := path);
    var fs, of := [f, g], SecretLabels(h);
    assert of(f) == Some(Key(h, f)) && of(g) == Some(Key(h, g));
    assert LabelsUpTo(of, fs, 0) == [] && LabelsUpTo(of, fs, 1) == [Key(h, f)];
    assert LabelsUpTo(of, fs, 2) == [Key(h, f), Key(h, g)];
    assert MembersUpTo(of, fs, Key(h, f), 0) == [] && MembersUpTo(of, fs, Key(h, g), 0) == [];
    assert MembersUpTo(of, fs, Key(h, f), 1) == [f] && MembersUpTo(of, fs, Key(h, g), 1) == [];
    assert Members(of, fs, Key(h, f)) == [f] && Members(of, fs, Key(h, g)) == [g];
    NothingLeft(h, f, g);
    assert FromGroup(h, GroupOf([f])).locs == [LocOf(f)] && FromGroup(h, GroupOf([g])).locs == [LocOf(g)];
  }

  lemma NothingLeft(h: Hashes, f: Obs, g: Obs)
    requires Collapses(f) && Collapses(g)
    ensures Others(h, Rest([f, g])) == []
  {
    assert RestUpTo([f, g], 0) == [] && RestUpTo([f, g], 1) == [];
    assert RestUpTo([f, g], 2) == [];
    assert LabelsOf(RestLabels(h), []) == [];
  }
}
