/**
 The tables of the SARIF projection and its parser (sarif.go:108-241, severity.go:9-52,
 tosarif.go:57-133): what every field of a parsed observation and of a printed result
 and rule is.
 */
module SarifFields {
  import opened Wrappers
  import opened Merge
  import opened Sarif

  // ---------------------------------------------------------------------
  // Text
  // ---------------------------------------------------------------------

  /** The words of a text, read character by character; `word` is the word begun. */
  function Fields(s: string, word: string): seq<string> {
    if s == "" then if word == "" then [] else [word]
    else if IsSpace(s[0]) then (if word == "" then [] else [word]) + Fields(s[1..], "")
    else Fields(s[1..], word + [s[0]])
  }

  function Joined(words: seq<string>): string {
    if words == [] then "" else if |words| == 1 then words[0] else words[0] + " " + Joined(words[1..])
  }

  lemma {:induction false} FieldsNonEmpty(s: string, word: string)
    ensures forall i :: 0 <= i < |Fields(s, word)| ==> Fields(s, word)[i] != ""
    decreases |s|
  {
    if s != "" {
      FieldsNonEmpty(s[1..], if IsSpace(s[0]) then "" else word + [s[0]]);
    }
  }

  lemma {:induction false} FieldsTrimmed(s: string)
    ensures Fields(TrimLeft(s), "") == Fields(s, "")
    decreases |s|
  {
    if s != "" && IsSpace(s[0]) {
      FieldsTrimmed(s[1..]);
    }
  }

  lemma {:induction false} FieldsWord(s: string, word: string)
    ensures var k := WordLength(s);
      Fields(s, word) == (if word + s[..k] == "" then [] else [word + s[..k]]) + Fields(s[k..], "")
    decreases |s|
  {
    var k := WordLength(s);
    if s == "" {
      assert word + s[..k] == word && s[k..] == "";
    } else if IsSpace(s[0]) {
      assert word + s[..k] == word && s[k..] == s;
    } else {
      FieldsWord(s[1..], word + [s[0]]);
      assert s[1..][..k - 1] == s[1..k] && (word + [s[0]]) + s[1..k] == word + s[..k];
      assert s[1..][k - 1..] == s[k..];
    }
  }

  lemma {:induction false} JoinedCons(word: string, words: seq<string>)
    requires forall i :: 0 <= i < |words| ==> words[i] != ""
    ensures Joined([word] + words) == if words == [] then word else word + " " + Joined(words)
    ensures Joined(words) == "" <==> words == []
  {
    assert ([word] + words)[1..] == words;
  }

  /** Collapsing white space joins the words of a text by single blanks. */
  lemma {:induction false} OneLineJoins(s: string)
    ensures OneLine(s) == Joined(Fields(s, ""))
    decreases |s|
  {
    var t := TrimLeft(s);
    var k := WordLength(t);
    FieldsTrimmed(s);
    if t != "" {
      OneLineJoins(t[k..]);
      FieldsWord(t, "");
      assert "" + t[..k] == t[..k];
      FieldsNonEmpty(t[k..], "");
      JoinedCons(t[..k], Fields(t[k..], ""));
    }
  }

  // ---------------------------------------------------------------------
  // Severity
  // ---------------------------------------------------------------------

  /** The first severity token among trivy's tags decides. */
  ghost predicate TagDecides(tags: seq<string>, sev: string) {
    || (sev == "info" && forall i :: 0 <= i < |tags| ==> !Token(tags[i]))
    || exists i :: 0 <= i < |tags| && TokenSays(tags[i], sev) && forall j :: 0 <= j < i ==> !Token(tags[j])
  }

  predicate TokenSays(tag: string, sev: string) {
    || (tag == "CRITICAL" && sev == "critical") || (tag == "HIGH" && sev == "high")
    || (tag == "MEDIUM" && sev == "medium") || (tag == "LOW" && sev == "low")
  }

  /** What a level word, in lower case, stands for. */
  predicate LevelSays(word: string, sev: string) {
    || (word == "critical" && sev == "critical") || ((word == "high" || word == "error") && sev == "high")
    || ((word == "medium" || word == "warning") && sev == "medium") || (word == "low" && sev == "low")
    || (word !in ["critical", "high", "error", "medium", "warning", "low"] && sev == "info")
  }

  /** Each scanner's scale: gitleaks high, checkov medium, trivy by its tags, opengrep by its level, any other info. */
  ghost predicate SeverityOf(scanner: string, rule: Rule, sev: string) {
    if scanner == "gitleaks" then sev == "high"
    else if scanner == "checkov" then sev == "medium"
    else if scanner == "trivy" || scanner == "trivy-image" then TagDecides(rule.tags, sev)
    else if scanner == "opengrep" then LevelSays(ToLower(rule.level), sev)
    else sev == "info"
  }

  lemma {:induction false} TokenFirst(tags: seq<string>)
    ensures TagDecides(tags, Scale(ToLower(FirstToken(tags))))
  {
    LowerWords();
    if tags != [] {
      if Token(tags[0]) {
        assert TokenSays(tags[0], Scale(ToLower(tags[0])));
      } else {
        TokenFirst(tags[1..]);
        var sev := Scale(ToLower(FirstToken(tags)));
        if i :| 0 <= i < |tags[1..]| && TokenSays(tags[1..][i], sev) && forall j :: 0 <= j < i ==> !Token(tags[1..][j]) {
          assert TokenSays(tags[i + 1], sev);
          forall j | 0 <= j < i + 1 ensures !Token(tags[j]) {
            assert j == 0 || tags[j] == tags[1..][j - 1];
          }
        }
        if forall i :: 0 <= i < |tags[1..]| ==> !Token(tags[1..][i]) {
          forall i | 0 <= i < |tags| ensures !Token(tags[i]) {
            assert i == 0 || tags[i] == tags[1..][i - 1];
          }
        }
      }
    }
  }

  lemma SeverityIs(scanner: string, rule: Rule)
    ensures SeverityOf(scanner, rule, NormalizeSeverity(scanner, RawSeverity(scanner, rule)))
  {
    TokenFirst(rule.tags);
    assert |"gitleaks"| == 8 && |"checkov"| == 7 && |"trivy"| == 5 && |"trivy-image"| == 11 && |"opengrep"| == 8;
    assert "gitleaks"[0] != "opengrep"[0];
  }

  // ---------------------------------------------------------------------
  // One parsed result
  // ---------------------------------------------------------------------

  /** The rule a result refers to: by a usable index, else the first with its id, else none. */
  ghost predicate RefersTo(rules: seq<Rule>, res: SarifResult, rule: Rule) {
    if res.ruleIndex.Some? && 0 <= res.ruleIndex.value < |rules| then rule == rules[res.ruleIndex.value]
    else if exists k :: 0 <= k < |rules| && rules[k].id == res.ruleId then
      exists k :: 0 <= k < |rules| && rules[k] == rule && rule.id == res.ruleId && forall j :: 0 <= j < k ==> rules[j].id != res.ruleId
    else rule == Rule("", "", "", [])
  }

  /** The first tag that names a CWE, up to its first colon. */
  ghost predicate CweOf(tags: seq<string>, cwe: string) {
    if exists i :: 0 <= i < |tags| && "CWE-" <= tags[i] then
      exists i :: 0 <= i < |tags| && "CWE-" <= tags[i] && (forall j :: 0 <= j < i ==> !("CWE-" <= tags[j])) && UpToColon(tags[i], cwe)
    else cwe == ""
  }

  predicate UpToColon(tag: string, cwe: string) {
    cwe <= tag && ':' !in cwe && (cwe == tag || tag[|cwe|] == ':')
  }

  lemma {:induction false} CweIs(tags: seq<string>)
    ensures CweOf(tags, CweIn(tags))
  {
    if tags != [] {
      var cwe := CweIn(tags);
      if "CWE-" <= tags[0] {
        CweTag(tags[0]);
        assert UpToColon(tags[0], cwe);
      } else {
        CweIs(tags[1..]);
        if i :| 0 <= i < |tags| && "CWE-" <= tags[i] {
          assert tags[i] == tags[1..][i - 1];
          var k :| 0 <= k < |tags[1..]| && "CWE-" <= tags[1..][k] && UpToColon(tags[1..][k], cwe)
            && forall j :: 0 <= j < k ==> !("CWE-" <= tags[1..][j]);
          assert UpToColon(tags[k + 1], cwe);
          forall j | 0 <= j < k + 1 ensures !("CWE-" <= tags[j]) {
            assert j == 0 || tags[j] == tags[1..][j - 1];
          }
        }
      }
    }
  }

  /** Trivy's short description or the first line of its message; the message or the short description of any other. */
  predicate TextOf(scanner: string, res: SarifResult, rule: Rule, text: string) {
    if scanner == "trivy" || scanner == "trivy-image" then
      if rule.short != "" then text == rule.short
      else text <= res.message && '\n' !in text && (text == res.message || res.message[|text|] == '\n')
    else text == if res.message != "" then res.message else rule.short
  }

  ghost predicate DescribedBy(scanner: string, res: SarifResult, rule: Rule, desc: string) {
    exists text :: TextOf(scanner, res, rule, text) && desc == Joined(Fields(text, ""))
  }

  lemma DescriptionIs(scanner: string, res: SarifResult, rule: Rule)
    ensures DescribedBy(scanner, res, rule, OneLine(DescriptionFor(scanner, res, rule)))
  {
    var text := DescriptionFor(scanner, res, rule);
    OneLineJoins(text);
    assert TextOf(scanner, res, rule, text);
  }

  /** What every observation has of its rule and result. */
  ghost predicate SpokenBy(f: Obs, scanner: string, rule: Rule, res: SarifResult) {
    && f.scanner == scanner && f.ruleId == res.ruleId && CweOf(rule.tags, f.cwe) && SeverityOf(scanner, rule, f.severity)
    && DescribedBy(scanner, res, rule, f.desc) && !f.dev && f.image == ""
  }

  /** A row of an image scan is a package at the Dockerfile, told by the database. */
  predicate InImage(f: Obs, target: string, name: string, version: string) {
    f.path == target && f.line == 1 && f.snippet == "" && f.db && f.pkg == name && f.version == version
  }

  /** Any other is at its first location, stripped of the target. */
  ghost predicate InFile(f: Obs, scanner: string, target: string, site: Site) {
    && f.line == site.startLine && f.snippet == site.snippet && !f.db && f.pkg == "" && f.version == ""
    && PathOf(scanner, target, site.uri, f.path)
  }

  /** The target's prefix is removed, or else a leading slash. */
  predicate Stripped(u: string, target: string, path: string) {
    if target != "" && target + "/" <= u then u == (target + "/") + path
    else if u != "" && u[0] == '/' then u == "/" + path
    else u == path
  }

  /** Checkov's missing leading slash is restored. */
  function Rooted(scanner: string, target: string, uri: string): string {
    if scanner == "checkov" && target != "" && (uri == "" || uri[0] != '/') then "/" + uri else uri
  }

  /** Backslashes read as slashes. */
  predicate PathOf(scanner: string, target: string, uri: string, path: string) {
    Stripped(Slashed(Rooted(scanner, target, uri)), target, path)
  }

  lemma PathIs(scanner: string, target: string, uri: string)
    ensures PathOf(scanner, target, uri, StripTarget(WithSlash(scanner, target, uri), target))
  {
    assert "/" <= uri <==> uri != "" && uri[0] == '/';
    assert WithSlash(scanner, target, uri) == Rooted(scanner, target, uri);
    var u := Slashed(Rooted(scanner, target, uri));
    assert "/" <= u <==> u != "" && u[0] == '/';
    if target != "" && target + "/" <= u {
      assert u == (target + "/") + u[|target| + 1..];
    } else if u != "" && u[0] == '/' {
      assert u == "/" + u[1..];
    }
  }

  /**
   A result is dropped exactly when an image row lacks its package, or another row its
   location; otherwise its observation is, field by field, what the rule and the result say.
   */
  lemma ParsedIs(pkg: PkgIdentity, scanner: string, target: string, rules: seq<Rule>, res: SarifResult)
    ensures var r, id := ParseResult(pkg, scanner, target, rules, res), pkg(res.message);
      if scanner == "trivy-image" then
        && (r.Success? <==> id.0 != "" && id.1 != "")
        && (r.Success? ==> InImage(r.value, target, id.0, id.1))
      else
        && (r.Success? <==> res.sites != [] && res.sites[0].uri != "" && res.sites[0].startLine >= 1)
        && (r.Success? ==> InFile(r.value, scanner, target, res.sites[0]))
    ensures var r := ParseResult(pkg, scanner, target, rules, res);
      r.Success? ==> exists rule :: RefersTo(rules, res, rule) && SpokenBy(r.value, scanner, rule, res)
  {
    var rule := RuleFor(rules, res);
    RuleReferred(rules, res);
    CweIs(rule.tags);
    SeverityIs(scanner, rule);
    DescriptionIs(scanner, res, rule);
    if res.sites != [] {
      PathIs(scanner, target, res.sites[0].uri);
    }
  }

  lemma RuleReferred(rules: seq<Rule>, res: SarifResult)
    ensures RefersTo(rules, res, RuleFor(rules, res))
  {
    var k := FirstWith(rules, res.ruleId, |rules|);
    if k >= 0 {
      assert rules[k].id == res.ruleId;
    }
  }

  // ---------------------------------------------------------------------
  // Printing
  // ---------------------------------------------------------------------

  predicate LevelOf(sev: string, level: string) {
    level == if sev in ["critical", "high"] then "error" else if sev == "medium" then "warning" else "note"
  }

  /** The token of a severity. */
  predicate TokenOf(sev: string, token: string) {
    || (sev == "critical" && token == "CRITICAL") || (sev == "high" && token == "HIGH")
    || (sev == "medium" && token == "MEDIUM") || (sev == "low" && token == "LOW") || (sev == "info" && token == "INFO")
  }

  predicate RulePrints(r: Rule, f: Obs) {
    && r.id == f.ruleId && LevelOf(f.severity, r.level) && r.short == ""
    && |r.tags| == (if f.cwe == "" then 2 else 3) && r.tags[0] == "security"
    && (FiveLevels(f.severity) ==> TokenOf(f.severity, r.tags[1])) && (f.cwe != "" ==> r.tags[2] == f.cwe)
  }

  predicate ResultPrints(r: SarifResult, f: Obs) {
    && r.ruleId == f.ruleId && r.ruleIndex == None && LevelOf(f.severity, r.level) && r.message == f.desc
    && r.sites == [Site(f.path, f.line, "")] && r.dev == f.dev
  }

  ghost predicate HasRule(rules: seq<Rule>, id: string) {
    exists k :: 0 <= k < |rules| && rules[k].id == id
  }

  ghost predicate NotYet(fs: seq<Obs>, i: nat, id: string)
    requires i <= |fs|
  {
    forall j :: 0 <= j < i ==> fs[j].ruleId != id
  }

  /** The rule is that of the first finding with its id. */
  ghost predicate PrintsFirst(r: Rule, fs: seq<Obs>) {
    exists i :: 0 <= i < |fs| && RulePrints(r, fs[i]) && NotYet(fs, i, r.id)
  }

  /** The one id occurs before the other ever does. */
  ghost predicate FirstBefore(a: string, b: string, fs: seq<Obs>) {
    exists i :: 0 <= i < |fs| && fs[i].ruleId == a && NotYet(fs, i + 1, b)
  }

  ghost predicate RulesKnow(rules: seq<Rule>, fs: seq<Obs>) {
    forall i :: 0 <= i < |fs| ==> HasRule(rules, fs[i].ruleId)
  }

  ghost predicate RulesPrint(rules: seq<Rule>, fs: seq<Obs>) {
    forall a :: 0 <= a < |rules| ==> PrintsFirst(rules[a], fs)
  }

  ghost predicate RulesInOrder(rules: seq<Rule>, fs: seq<Obs>) {
    forall a, b :: 0 <= a < b < |rules| ==> FirstBefore(rules[a].id, rules[b].id, fs)
  }

  ghost predicate ResultsPrint(results: seq<SarifResult>, fs: seq<Obs>) {
    |results| == |fs| && forall i :: 0 <= i < |fs| ==> ResultPrints(results[i], fs[i])
  }

  /** One result for every finding, in order; one rule for every rule id, that of the first finding with it, in that order. */
  lemma PrintedIs(fs: seq<Obs>)
    ensures ResultsPrint(Printed(fs).results, fs)
    ensures RulesKnow(Printed(fs).rules, fs) && RulesPrint(Printed(fs).rules, fs) && RulesInOrder(Printed(fs).rules, fs)
  {
    RulesAre(fs, |fs|);
    assert fs[..|fs|] == fs;
  }

  lemma OnePrints(f: Obs)
    ensures RulePrints(RuleOf(f), f)
  {
    UpperWords();
  }

  ghost predicate RulesOfFirst(rules: seq<Rule>, fs: seq<Obs>) {
    RulesKnow(rules, fs) && RulesPrint(rules, fs) && RulesInOrder(rules, fs)
  }

  lemma {:induction false} RulesAre(fs: seq<Obs>, n: nat)
    requires n <= |fs|
    ensures RulesOfFirst(RulesUpTo(fs, n), fs[..n])
  {
    if n > 0 {
      RulesAre(fs, n - 1);
      assert fs[..n] == fs[..n - 1] + [fs[n - 1]];
      RulesNext(RulesUpTo(fs, n - 1), fs[..n - 1], fs[n - 1]);
    }
  }

  lemma {:induction false} RulesNext(rules: seq<Rule>, fs: seq<Obs>, f: Obs)
    requires RulesOfFirst(rules, fs)
    ensures RulesOfFirst(if FirstWith(rules, f.ruleId, |rules|) >= 0 then rules else rules + [RuleOf(f)], fs + [f])
  {
    KnownMeans(rules, f.ruleId);
    OlderRules(rules, fs, f);
    if !HasRule(rules, f.ruleId) {
      NewRule(rules, fs, f);
    }
  }

  lemma {:induction false} KnownMeans(rules: seq<Rule>, id: string)
    ensures FirstWith(rules, id, |rules|) >= 0 <==> HasRule(rules, id)
  {
  }

  lemma StillFirst(fs: seq<Obs>, f: Obs, r: Rule)
    requires PrintsFirst(r, fs)
    ensures PrintsFirst(r, fs + [f])
  {
    var i :| 0 <= i < |fs| && RulePrints(r, fs[i]) && NotYet(fs, i, r.id);
    assert (fs + [f])[i] == fs[i] && NotYet(fs + [f], i, r.id);
  }

  lemma StillBefore(fs: seq<Obs>, f: Obs, a: string, b: string)
    requires FirstBefore(a, b, fs)
    ensures FirstBefore(a, b, fs + [f])
  {
    var i :| 0 <= i < |fs| && fs[i].ruleId == a && NotYet(fs, i + 1, b);
    assert (fs + [f])[i] == fs[i] && NotYet(fs + [f], i + 1, b);
  }

  lemma OlderRules(rules: seq<Rule>, fs: seq<Obs>, f: Obs)
    requires RulesPrint(rules, fs) && RulesInOrder(rules, fs)
    ensures RulesPrint(rules, fs + [f]) && RulesInOrder(rules, fs + [f])
    ensures RulesKnow(rules, fs) && HasRule(rules, f.ruleId) ==> RulesKnow(rules, fs + [f])
  {
    forall a | 0 <= a < |rules| ensures PrintsFirst(rules[a], fs + [f]) {
      StillFirst(fs, f, rules[a]);
    }
    forall a, b | 0 <= a < b < |rules| ensures FirstBefore(rules[a].id, rules[b].id, fs + [f]) {
      StillBefore(fs, f, rules[a].id, rules[b].id);
    }
  }

  lemma HasMore(rules: seq<Rule>, r: Rule, id: string)
    ensures HasRule(rules + [r], id) <==> HasRule(rules, id) || r.id == id
  {
    if k :| 0 <= k < |rules| && rules[k].id == id {
      assert (rules + [r])[k].id == id;
    }
    assert (rules + [r])[|rules|] == r;
  }

  lemma NewRule(rules: seq<Rule>, fs: seq<Obs>, f: Obs)
    requires RulesKnow(rules, fs) && RulesPrint(rules, fs + [f]) && RulesInOrder(rules, fs + [f]) && RulesPrint(rules, fs)
    requires !HasRule(rules, f.ruleId)
    ensures var next := rules + [RuleOf(f)]; RulesKnow(next, fs + [f]) && RulesPrint(next, fs + [f]) && RulesInOrder(next, fs + [f])
  {
    var next, all := rules + [RuleOf(f)], fs + [f];
    OnePrints(f);
    assert all[|fs|] == f;
    assert NotYet(all, |fs|, f.ruleId);
    forall i | 0 <= i < |all| ensures HasRule(next, all[i].ruleId) {
      HasMore(rules, RuleOf(f), all[i].ruleId);
    }
    forall a, b | 0 <= a < b < |next| ensures FirstBefore(next[a].id, next[b].id, all) {
      if b < |rules| {
        assert FirstBefore(rules[a].id, rules[b].id, all);
      } else {
        BeforeNew(rules[a], fs, f);
      }
    }
  }

  lemma BeforeNew(r: Rule, fs: seq<Obs>, f: Obs)
    requires PrintsFirst(r, fs) && NotYet(fs + [f], |fs|, f.ruleId)
    ensures FirstBefore(r.id, f.ruleId, fs + [f])
  {
    var i :| 0 <= i < |fs| && RulePrints(r, fs[i]) && NotYet(fs, i, r.id);
    assert (fs + [f])[i] == fs[i] && NotYet(fs + [f], i + 1, f.ruleId);
  }
}
