/**
 Where the fields of a merged finding come from (merge.go:44-126): a secret group speaks
 through its first gitleaks member, or its first member when it has none; every other
 finding through the first observation with its fingerprint.
 */
module Origins {
  import opened Wrappers
  import opened Delta
  import opened Merge
  import opened Effects

  const GITLEAKS := "gitleaks"

  // ---------------------------------------------------------------------
  // What takes part in the secret collapse
  // ---------------------------------------------------------------------

  /** All of gitleaks', trivy's secret and token rules, and the secrets subtree of opengrep's; with a span that is not blank. */
  lemma CollapsesIff(f: Obs)
    ensures Collapses(f) <==>
      && (exists i :: 0 <= i < |f.snippet| && !IsSpace(f.snippet[i]))
      && (|| f.scanner == "gitleaks"
          || (f.scanner == "trivy" && (Within("secret", f.ruleId) || Within("token", f.ruleId)))
          || (f.scanner == "opengrep" && Within("generic.secrets.", f.ruleId)))
  {
    WithinIs(f.ruleId, "secret");
    WithinIs(f.ruleId, "token");
    WithinIs(f.ruleId, "generic.secrets.");
    assert |"gitleaks"| == 8 && |"trivy"| == 5 && "gitleaks"[0] != "opengrep"[0];
  }

  /** White space, as Unicode has it. */
  const SPACES := "\t\n\U{0B}\U{0C}\r \U{85}\U{A0}\U{1680}\U{2000}\U{2001}\U{2002}\U{2003}\U{2004}\U{2005}\U{2006}\U{2007}" +
                  "\U{2008}\U{2009}\U{200A}\U{2028}\U{2029}\U{202F}\U{205F}\U{3000}"

  lemma SpaceIff(c: char)
    ensures IsSpace(c) <==> c in SPACES
  {
  }

  /** One secret at one path. */
  predicate Grouped(h: Hashes, f: Obs, g: Obs) {
    && Collapses(f) && Collapses(g)
    && h.secret(h.span(f.snippet), f.path) == h.secret(h.span(g.snippet), g.path)
  }

  // ---------------------------------------------------------------------
  // Secret findings
  // ---------------------------------------------------------------------

  /** The first gitleaks observation of its group, or the first of a group without one. */
  ghost predicate Speaks(h: Hashes, fs: seq<Obs>, i: nat) {
    && i < |fs| && Collapses(fs[i])
    && if fs[i].scanner == GITLEAKS then forall j :: 0 <= j < i && Grouped(h, fs[j], fs[i]) ==> fs[j].scanner != GITLEAKS
       else forall j :: 0 <= j < |fs| && Grouped(h, fs[j], fs[i]) ==> fs[j].scanner != GITLEAKS && i <= j
  }

  lemma SpeaksIsWins(h: Hashes, fs: seq<Obs>, i: nat)
    ensures Speaks(h, fs, i) <==> Wins(h, fs, i)
  {
  }

  /** Identity and attributes of the observation a finding speaks for. */
  predicate Bears(h: Hashes, m: Merged, f: Obs) {
    && m.ruleId == f.ruleId && m.cwe == f.cwe && m.severity == f.severity && m.description == f.desc
    && m.scanner == f.scanner && m.db == f.db
    && m.ruleKey == if f.cwe != "" then f.cwe else f.ruleId
  }

  /** The fingerprint of a rule and a span. */
  function SpanPrint(h: Hashes, f: Obs): string {
    h.of(if f.cwe != "" then f.cwe else f.ruleId, h.span(f.snippet))
  }

  /** A finding of a secret group, spoken for by f. */
  predicate SecretOf(h: Hashes, m: Merged, f: Obs) {
    m.secret && Bears(h, m, f) && m.dev == f.dev && m.fp == SpanPrint(h, f)
  }

  lemma SecretFinding(h: Hashes, fs: seq<Obs>, k: nat) returns (i: nat)
    requires k < |Secrets(h, fs)|
    ensures Speaks(h, fs, i) && SecretOf(h, Secrets(h, fs)[k], fs[i])
    ensures Key(h, fs[i]) == LabelsOf(SecretLabels(h), fs)[k]
  {
    var of := SecretLabels(h);
    LabelsAre(of, fs, |fs|);
    assert LabelsOf(of, fs)[k] in LabelsOf(of, fs);
    i := WinnerUpTo(h, fs, LabelsOf(of, fs)[k], |fs|);
    SpeaksIsWins(h, fs, i);
  }

  lemma OthersAreNot(h: Hashes, fs: seq<Obs>, k: nat)
    requires k < |Others(h, Rest(fs))|
    ensures !Others(h, Rest(fs))[k].secret
  {
    LabelsAre(RestLabels(h), Rest(fs), |Rest(fs)|);
  }

  /** The secret findings are the first of the output. */
  lemma SecretsComeFirst(h: Hashes, fs: seq<Obs>, k: nat)
    requires k < |AllMerged(h, fs)|
    ensures AllMerged(h, fs)[k].secret <==> k < |Secrets(h, fs)|
  {
    if k < |Secrets(h, fs)| {
      var i := SecretFinding(h, fs, k);
    } else {
      OthersAreNot(h, fs, k - |Secrets(h, fs)|);
    }
  }

  /** Every secret finding of the output is spoken for by the first gitleaks member of its group, or its first member. */
  lemma SecretsSpeak(h: Hashes, fs: seq<Obs>, k: nat)
    requires k < |AllMerged(h, fs)| && AllMerged(h, fs)[k].secret
    ensures exists i: nat :: Speaks(h, fs, i) && SecretOf(h, AllMerged(h, fs)[k], fs[i])
  {
    SecretsComeFirst(h, fs, k);
    var i := SecretFinding(h, fs, k);
  }

  /** And every such observation has its finding. */
  lemma SpeakersAreHeard(h: Hashes, fs: seq<Obs>, i: nat)
    requires Speaks(h, fs, i)
    ensures exists m :: m in AllMerged(h, fs) && SecretOf(h, m, fs[i])
  {
    SpeaksIsWins(h, fs, i);
    var k := WinnersAreSecrets(h, fs, i);
    var j := SecretFinding(h, fs, k);
    SpeaksIsWins(h, fs, j);
    OneWinner(h, fs, i, j);
    assert AllMerged(h, fs)[k] == Secrets(h, fs)[k];
  }

  /** Every group has one. */
  lemma {:induction false} EveryGroupSpeaks(h: Hashes, fs: seq<Obs>, f: Obs)
    requires f in fs && Collapses(f)
    ensures exists i: nat :: Speaks(h, fs, i) && Grouped(h, fs[i], f)
  {
    var of := SecretLabels(h);
    SecretKept(h, fs, f);
    MembersOf(of, fs, Key(h, f));
    assert f in Members(of, fs, Key(h, f));
    var i := WinnerUpTo(h, fs, Key(h, f), |fs|);
    SpeaksIsWins(h, fs, i);
  }

  // ---------------------------------------------------------------------
  // Other findings
  // ---------------------------------------------------------------------

  /** A package in an image for trivy-image, else a rule and a span. */
  function Print(h: Hashes, f: Obs): string {
    if f.scanner == "trivy-image" then h.image(f.image, f.ruleId, f.pkg, f.version) else SpanPrint(h, f)
  }

  /** The first observation outside the collapse with its fingerprint. */
  ghost predicate First(h: Hashes, fs: seq<Obs>, i: nat) {
    && i < |fs| && !Collapses(fs[i])
    && forall j :: 0 <= j < i && !Collapses(fs[j]) ==> Print(h, fs[j]) != Print(h, fs[i])
  }

  /** One of the observations with its fingerprint is of a development dependency. */
  ghost predicate SomeDev(h: Hashes, fs: seq<Obs>, fp: string) {
    exists j :: 0 <= j < |fs| && !Collapses(fs[j]) && Print(h, fs[j]) == fp && fs[j].dev
  }

  ghost predicate OtherOf(h: Hashes, fs: seq<Obs>, m: Merged, f: Obs) {
    && !m.secret && Bears(h, m, f) && m.fp == Print(h, f) && m.also == [] && m.collapsedWith == []
    && (m.dev <==> SomeDev(h, fs, m.fp))
  }

  /** The first member of a label among the first n observations left. */
  lemma {:induction false} FirstOfRest(h: Hashes, fs: seq<Obs>, fp: string, n: nat) returns (i: nat)
    requires n <= |fs| && MembersUpTo(RestLabels(h), RestUpTo(fs, n), fp, |RestUpTo(fs, n)|) != []
    ensures i < n && First(h, fs, i) && Print(h, fs[i]) == fp
    ensures MembersUpTo(RestLabels(h), RestUpTo(fs, n), fp, |RestUpTo(fs, n)|)[0] == fs[i]
  {
    var of, before, now := RestLabels(h), RestUpTo(fs, n - 1), RestUpTo(fs, n);
    MembersPrefix(of, before, now, fp, |before|);
    if MembersUpTo(of, before, fp, |before|) == [] {
      i := n - 1;
      NoneBefore(h, fs, fp, n - 1);
    } else {
      i := FirstOfRest(h, fs, fp, n - 1);
    }
  }

  lemma {:induction false} NoneBefore(h: Hashes, fs: seq<Obs>, fp: string, n: nat)
    requires n <= |fs| && MembersUpTo(RestLabels(h), RestUpTo(fs, n), fp, |RestUpTo(fs, n)|) == []
    ensures forall j :: 0 <= j < n && !Collapses(fs[j]) ==> Print(h, fs[j]) != fp
  {
    var rest := RestUpTo(fs, n);
    MembersOf(RestLabels(h), rest, fp);
    RestIs(fs, n);
    forall j | 0 <= j < n && !Collapses(fs[j]) ensures Print(h, fs[j]) != fp {
      assert fs[..n][j] in fs[..n];
      assert fs[j] in rest;
    }
  }

  lemma {:induction false} MembersPrefix(of: Labels, a: seq<Obs>, b: seq<Obs>, name: string, i: nat)
    requires i <= |a| && a <= b
    ensures MembersUpTo(of, b, name, i) == MembersUpTo(of, a, name, i)
  {
    if i > 0 {
      MembersPrefix(of, a, b, name, i - 1);
    }
  }

  lemma DevIff(h: Hashes, fs: seq<Obs>, fp: string)
    ensures AnyDev(Members(RestLabels(h), Rest(fs), fp)) <==> SomeDev(h, fs, fp)
  {
    var ms := Members(RestLabels(h), Rest(fs), fp);
    MembersOf(RestLabels(h), Rest(fs), fp);
    RestOf(fs);
    if j :| 0 <= j < |fs| && !Collapses(fs[j]) && Print(h, fs[j]) == fp && fs[j].dev {
      assert fs[j] in ms;
      var i :| 0 <= i < |ms| && ms[i] == fs[j];
    }
    if i :| 0 <= i < |ms| && ms[i].dev {
      assert ms[i] in ms && ms[i] in fs;
      var j :| 0 <= j < |fs| && fs[j] == ms[i];
    }
  }

  lemma OtherFinding(h: Hashes, fs: seq<Obs>, k: nat) returns (i: nat)
    requires k < |Others(h, Rest(fs))|
    ensures First(h, fs, i) && OtherOf(h, fs, Others(h, Rest(fs))[k], fs[i])
    ensures Print(h, fs[i]) == LabelsOf(RestLabels(h), Rest(fs))[k]
  {
    var fp := LabelsOf(RestLabels(h), Rest(fs))[k];
    LabelsAre(RestLabels(h), Rest(fs), |Rest(fs)|);
    assert fp in LabelsOf(RestLabels(h), Rest(fs));
    i := FirstOfRest(h, fs, fp, |fs|);
    DevIff(h, fs, fp);
  }

  /** Every other finding of the output is that of the first observation with its fingerprint, a development one when any is. */
  lemma OthersSpeak(h: Hashes, fs: seq<Obs>, k: nat)
    requires k < |AllMerged(h, fs)| && !AllMerged(h, fs)[k].secret
    ensures exists i: nat :: First(h, fs, i) && OtherOf(h, fs, AllMerged(h, fs)[k], fs[i])
  {
    SecretsComeFirst(h, fs, k);
    var i := OtherFinding(h, fs, k - |Secrets(h, fs)|);
    assert AllMerged(h, fs)[k] == Others(h, Rest(fs))[k - |Secrets(h, fs)|];
  }

  // ---------------------------------------------------------------------
  // The order of the output
  // ---------------------------------------------------------------------

  /** Labels are listed as they first occur. */
  lemma {:induction false} LabelsInOrder(of: Labels, fs: seq<Obs>, n: nat, a: nat, b: nat) returns (i: nat)
    requires n <= |fs| && a < b < |LabelsUpTo(of, fs, n)|
    ensures i < n && of(fs[i]) == Some(LabelsUpTo(of, fs, n)[a])
    ensures forall j :: 0 <= j < n && of(fs[j]) == Some(LabelsUpTo(of, fs, n)[b]) ==> i < j
  {
    var before, now := LabelsUpTo(of, fs, n - 1), LabelsUpTo(of, fs, n);
    if b < |before| {
      i := LabelsInOrder(of, fs, n - 1, a, b);
    } else {
      i := LabelMember(of, fs, n - 1, before[a]);
      NoMember(of, fs, n - 1, now[b]);
    }
  }

  lemma LabelMember(of: Labels, fs: seq<Obs>, n: nat, l: string) returns (i: nat)
    requires n <= |fs| && l in LabelsUpTo(of, fs, n)
    ensures i < n && of(fs[i]) == Some(l)
  {
    LabelsAre(of, fs, n);
    MembersAre(of, fs, l, n);
    var f := MembersUpTo(of, fs, l, n)[0];
    assert f in MembersUpTo(of, fs, l, n);
    i :| 0 <= i < n && fs[..n][i] == f;
  }

  lemma {:induction false} NoMember(of: Labels, fs: seq<Obs>, n: nat, l: string)
    requires n <= |fs| && l !in LabelsUpTo(of, fs, n)
    ensures forall j :: 0 <= j < n ==> of(fs[j]) != Some(l)
  {
    LabelsAre(of, fs, n);
    MembersAre(of, fs, l, n);
    forall j | 0 <= j < n ensures of(fs[j]) != Some(l) {
      assert fs[..n][j] in fs[..n];
    }
  }

  /** Secret findings come in the order in which their groups begin. */
  lemma SecretsInOrder(h: Hashes, fs: seq<Obs>, a: nat, b: nat) returns (x: nat, y: nat, i: nat)
    requires a < b < |Secrets(h, fs)|
    ensures Speaks(h, fs, x) && SecretOf(h, Secrets(h, fs)[a], fs[x])
    ensures Speaks(h, fs, y) && SecretOf(h, Secrets(h, fs)[b], fs[y])
    ensures i < |fs| && Grouped(h, fs[i], fs[x]) && BeforeGroup(h, fs, i, y)
  {
    x := SecretFinding(h, fs, a);
    y := SecretFinding(h, fs, b);
    i := LabelsInOrder(SecretLabels(h), fs, |fs|, a, b);
    forall j | 0 <= j < |fs| && Grouped(h, fs[j], fs[y]) ensures i < j {
      assert SecretLabels(h)(fs[j]) == Some(Key(h, fs[y]));
    }
  }

  ghost predicate BeforeGroup(h: Hashes, fs: seq<Obs>, i: nat, y: nat)
    requires y < |fs|
  {
    forall j :: 0 <= j < |fs| && Grouped(h, fs[j], fs[y]) ==> i < j
  }

  /** Other findings come in the order of their first observations. */
  lemma OthersInOrder(h: Hashes, fs: seq<Obs>, a: nat, b: nat) returns (i: nat, j: nat)
    requires a < b < |Others(h, Rest(fs))|
    ensures First(h, fs, i) && OtherOf(h, fs, Others(h, Rest(fs))[a], fs[i])
    ensures First(h, fs, j) && OtherOf(h, fs, Others(h, Rest(fs))[b], fs[j])
    ensures i < j
  {
    i := OtherFinding(h, fs, a);
    j := OtherFinding(h, fs, b);
    FirstsAscend(h, fs, |fs|, a, b, i, j);
  }

  function RestLabelsUpTo(h: Hashes, fs: seq<Obs>, n: nat): seq<string>
    requires n <= |fs|
  {
    LabelsUpTo(RestLabels(h), RestUpTo(fs, n), |RestUpTo(fs, n)|)
  }

  lemma OneMoreLabel(h: Hashes, fs: seq<Obs>, n: nat)
    requires 0 < n <= |fs|
    ensures var before, now := RestLabelsUpTo(h, fs, n - 1), RestLabelsUpTo(h, fs, n);
      now == before || now == before + [Print(h, fs[n - 1])]
  {
    LabelsPrefix(RestLabels(h), RestUpTo(fs, n - 1), RestUpTo(fs, n), |RestUpTo(fs, n - 1)|);
  }

  /** The first observation of a label listed by then comes before. */
  lemma ListedBefore(h: Hashes, fs: seq<Obs>, n: nat, i: nat)
    requires n <= |fs| && First(h, fs, i) && Print(h, fs[i]) in RestLabelsUpTo(h, fs, n)
    ensures i < n
  {
    LabelsAre(RestLabels(h), RestUpTo(fs, n), |RestUpTo(fs, n)|);
    var k := FirstOfRest(h, fs, Print(h, fs[i]), n);
  }

  lemma {:induction false} FirstsAscend(h: Hashes, fs: seq<Obs>, n: nat, a: nat, b: nat, i: nat, j: nat)
    requires n <= |fs| && a < b < |RestLabelsUpTo(h, fs, n)|
    requires First(h, fs, i) && Print(h, fs[i]) == RestLabelsUpTo(h, fs, n)[a]
    requires First(h, fs, j) && Print(h, fs[j]) == RestLabelsUpTo(h, fs, n)[b]
    ensures i < j
  {
    var labels := RestLabelsUpTo(h, fs, n - 1);
    OneMoreLabel(h, fs, n);
    if b < |labels| {
      FirstsAscend(h, fs, n - 1, a, b, i, j);
    } else {
      assert labels[a] in labels;
      ListedBefore(h, fs, n - 1, i);
      LabelsDiffer(h, fs, n, b);
      NoLabelBefore(h, fs, n - 1, j);
    }
  }

  lemma LabelsDiffer(h: Hashes, fs: seq<Obs>, n: nat, b: nat)
    requires 0 < n <= |fs| && |RestLabelsUpTo(h, fs, n - 1)| <= b < |RestLabelsUpTo(h, fs, n)|
    ensures RestLabelsUpTo(h, fs, n)[b] !in RestLabelsUpTo(h, fs, n - 1)
  {
    var before, now := RestLabelsUpTo(h, fs, n - 1), RestLabelsUpTo(h, fs, n);
    OneMoreLabel(h, fs, n);
    LabelsAre(RestLabels(h), RestUpTo(fs, n), |RestUpTo(fs, n)|);
    assert forall i :: 0 <= i < |before| ==> before[i] == now[i] && now[i] != now[b];
  }

  lemma {:induction false} NoLabelBefore(h: Hashes, fs: seq<Obs>, n: nat, j: nat)
    requires n <= |fs| && First(h, fs, j)
    requires Print(h, fs[j]) !in LabelsUpTo(RestLabels(h), RestUpTo(fs, n), |RestUpTo(fs, n)|)
    ensures n <= j
  {
    LabelsAre(RestLabels(h), RestUpTo(fs, n), |RestUpTo(fs, n)|);
    NoneBefore(h, fs, Print(h, fs[j]), n);
  }

  lemma {:induction false} LabelsPrefix(of: Labels, a: seq<Obs>, b: seq<Obs>, i: nat)
    requires i <= |a| && a <= b
    ensures LabelsUpTo(of, b, i) == LabelsUpTo(of, a, i)
  {
    if i > 0 {
      LabelsPrefix(of, a, b, i - 1);
    }
  }
}
