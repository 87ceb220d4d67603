/**
 The SARIF projection of trivy findings and the parser that reads it back
 (internal/projection/tosarif.go, sarif.go, severity.go), on decoded documents.
 */
module Sarif {
  import opened Wrappers
  import opened Merge

  datatype Rule = Rule(id: string, level: string, short: string, tags: seq<string>)

  datatype Site = Site(uri: string, startLine: int, snippet: string)

  datatype SarifResult = SarifResult(ruleId: string, ruleIndex: Option<int>, level: string, message: string,
                             sites: seq<Site>, dev: bool)

  datatype Run = Run(rules: seq<Rule>, results: seq<SarifResult>)

  const NO_RULE := Rule("", "", "", [])

  // ---------------------------------------------------------------------
  // Text
  // ---------------------------------------------------------------------

  /** Lower case, as far as the severity words can tell. */
  function Lower(c: char): char {
    if 'A' <= c <= 'Z' then c - 'A' + 'a'
    else if c == '\U{130}' then 'i'
    else if c == '\U{212A}' then 'k'
    else c
  }

  function Upper(c: char): char {
    if 'a' <= c <= 'z' then c - 'a' + 'A'
    else if c == '\U{131}' then 'I'
    else if c == '\U{17F}' then 'S'
    else c
  }

  function ToLower(s: string): (r: string)
    ensures |r| == |s|
  {
    seq(|s|, i requires 0 <= i < |s| => Lower(s[i]))
  }

  function ToUpper(s: string): (r: string)
    ensures |r| == |s|
  {
    seq(|s|, i requires 0 <= i < |s| => Upper(s[i]))
  }

  function IndexOf(s: string, c: char): (k: nat)
    ensures k <= |s|
    ensures forall i :: 0 <= i < k ==> s[i] != c
    ensures k < |s| ==> s[k] == c
  {
    if s == "" || s[0] == c then 0 else 1 + IndexOf(s[1..], c)
  }

  function TrimLeft(s: string): (t: string)
    ensures |t| <= |s| && (t != "" ==> !IsSpace(t[0]))
  {
    if s != "" && IsSpace(s[0]) then TrimLeft(s[1..]) else s
  }

  /** The length of the word at the front. */
  function WordLength(s: string): (k: nat)
    ensures k <= |s|
    ensures forall i :: 0 <= i < k ==> !IsSpace(s[i])
    ensures k < |s| ==> IsSpace(s[k])
  {
    if s == "" || IsSpace(s[0]) then 0 else 1 + WordLength(s[1..])
  }

  /** The words joined by single spaces. */
  function OneLine(s: string): string
    decreases |s|
  {
    var t := TrimLeft(s);
    var k := WordLength(t);
    if t == "" then ""
    else
      var rest := OneLine(t[k..]);
      if rest == "" then t[..k] else t[..k] + " " + rest
  }

  /** No white space but single blanks between words. */
  predicate IsOneLine(s: string) {
    forall i :: 0 <= i < |s| && IsSpace(s[i]) ==>
      s[i] == ' ' && 0 < i < |s| - 1 && !IsSpace(s[i + 1])
  }

  lemma {:induction false} OneLineIsOneLine(s: string)
    ensures IsOneLine(OneLine(s)) && (OneLine(s) != "" ==> !IsSpace(OneLine(s)[0]))
    decreases |s|
  {
    var t := TrimLeft(s);
    var k := WordLength(t);
    if t != "" {
      OneLineIsOneLine(t[k..]);
      var rest := OneLine(t[k..]);
      if rest != "" {
        var r := t[..k] + " " + rest;
        assert forall i :: k < i < |r| ==> r[i] == rest[i - k - 1];
      }
    }
  }

  lemma {:induction false} OneLineKeeps(s: string)
    requires IsOneLine(s)
    ensures OneLine(s) == s
    decreases |s|
  {
    if s != "" {
      assert !IsSpace(s[0]);
      var k := WordLength(s);
      if k < |s| {
        assert s[k] == ' ';
        var rest := s[k + 1..];
        assert !IsSpace(s[k + 1]) && rest[0] == s[k + 1];
        forall i | 0 <= i < |rest| && IsSpace(rest[i])
          ensures rest[i] == ' ' && 0 < i < |rest| - 1 && !IsSpace(rest[i + 1])
        {
          assert rest[i] == s[k + 1 + i];
        }
        OneLineKeeps(rest);
        assert s[k..][1..] == rest;
        assert TrimLeft(s[k..]) == TrimLeft(rest) == rest;
        assert OneLine(s[k..]) == OneLine(rest);
        assert s == s[..k] + " " + rest;
      } else {
        assert s[k..] == "" && OneLine("") == "";
        assert s[..k] == s;
      }
    }
  }

  /** A description is unchanged exactly when it already is one line. */
  lemma {:induction false} OneLineIff(s: string)
    ensures OneLine(s) == s <==> IsOneLine(s)
  {
    OneLineIsOneLine(s);
    if IsOneLine(s) {
      OneLineKeeps(s);
    }
  }

  // ---------------------------------------------------------------------
  // Severity
  // ---------------------------------------------------------------------

  predicate Token(tag: string) {
    tag == "CRITICAL" || tag == "HIGH" || tag == "MEDIUM" || tag == "LOW"
  }

  function FirstToken(tags: seq<string>): string {
    if tags == [] then "UNKNOWN"
    else if Token(tags[0]) then tags[0]
    else FirstToken(tags[1..])
  }

  /** Each scanner's own severity signal. */
  function RawSeverity(scanner: string, rule: Rule): string {
    if scanner == "trivy" || scanner == "trivy-image" then FirstToken(rule.tags)
    else if scanner == "opengrep" then rule.level
    else ""
  }

  function Scale(word: string): string {
    if word == "critical" then "critical"
    else if word == "high" || word == "error" then "high"
    else if word == "medium" || word == "warning" then "medium"
    else if word == "low" then "low"
    else "info"
  }

  function NormalizeSeverity(scanner: string, raw: string): string {
    if scanner == "gitleaks" then "high"
    else if scanner == "checkov" then "medium"
    else Scale(ToLower(raw))
  }

  function SarifLevel(sev: string): string {
    if sev == "critical" || sev == "high" then "error"
    else if sev == "medium" then "warning"
    else "note"
  }

  function SarifTags(f: Obs): seq<string> {
    [ToUpper(f.severity)] + if f.cwe != "" then [f.cwe] else []
  }

  // ---------------------------------------------------------------------
  // Parsing
  // ---------------------------------------------------------------------

  function FirstWith(rules: seq<Rule>, id: string, i: nat): (k: int)
    requires i <= |rules|
    ensures -1 <= k < i
    ensures k >= 0 ==> rules[k].id == id
    ensures forall j :: 0 <= j < (if k < 0 then i else k) ==> rules[j].id != id
  {
    if i == 0 then -1
    else
      var before := FirstWith(rules, id, i - 1);
      if before < 0 && rules[i - 1].id == id then i - 1 else before
  }

  /** By index when there is a usable one, else the first rule with the id, else nothing. */
  function RuleFor(rules: seq<Rule>, res: SarifResult): Rule {
    if res.ruleIndex.Some? && 0 <= res.ruleIndex.value < |rules| then rules[res.ruleIndex.value]
    else
      var k := FirstWith(rules, res.ruleId, |rules|);
      if k < 0 then NO_RULE else rules[k]
  }

  /** "CWE-89: ..." without the text. */
  function CweCut(tag: string): string {
    var k := IndexOf(tag, ':');
    if 0 < k < |tag| then tag[..k] else tag
  }

  function CweIn(tags: seq<string>): string {
    if tags == [] then ""
    else if "CWE-" <= tags[0] then CweCut(tags[0])
    else CweIn(tags[1..])
  }

  function FirstLine(msg: string): string {
    msg[..IndexOf(msg, '\n')]
  }

  function DescriptionFor(scanner: string, res: SarifResult, rule: Rule): string {
    if scanner == "trivy" || scanner == "trivy-image" then
      if rule.short != "" then rule.short else FirstLine(res.message)
    else if res.message != "" then res.message
    else rule.short
  }

  function Slashed(uri: string): (r: string)
    ensures |r| == |uri|
    ensures forall i :: 0 <= i < |uri| ==> r[i] == if uri[i] == '\\' then '/' else uri[i]
  {
    seq(|uri|, i requires 0 <= i < |uri| => if uri[i] == '\\' then '/' else uri[i])
  }

  function StripTarget(uri: string, target: string): string {
    var u := Slashed(uri);
    if target != "" && target + "/" <= u then u[|target| + 1..]
    else if "/" <= u then u[1..]
    else u
  }

  function WithSlash(scanner: string, target: string, uri: string): string {
    if scanner == "checkov" && target != "" && !("/" <= uri) then "/" + uri else uri
  }

  /** The package identity a trivy-image message carries; how it is cut out is left open. */
  type PkgIdentity = string -> (string, string)

  datatype Warning = NoLocation(ruleId: string) | IncompleteLocation(ruleId: string) | NoPackage(ruleId: string)

  function ParseImage(pkg: PkgIdentity, scanner: string, target: string, rule: Rule, res: SarifResult): Result<Obs, Warning> {
    var (name, version) := pkg(res.message);
    if name == "" || version == "" then Failure(NoPackage(res.ruleId))
    else
      Success(Obs(scanner, res.ruleId, CweIn(rule.tags), NormalizeSeverity(scanner, RawSeverity(scanner, rule)),
                  target, 1, OneLine(DescriptionFor(scanner, res, rule)), "", false, true, "", name, version))
  }

  function ParseResult(pkg: PkgIdentity, scanner: string, target: string, rules: seq<Rule>, res: SarifResult): Result<Obs, Warning> {
    var rule := RuleFor(rules, res);
    if scanner == "trivy-image" then ParseImage(pkg, scanner, target, rule, res)
    else if res.sites == [] then Failure(NoLocation(res.ruleId))
    else if res.sites[0].uri == "" || res.sites[0].startLine < 1 then Failure(IncompleteLocation(res.ruleId))
    else
      Success(Obs(scanner, res.ruleId, CweIn(rule.tags), NormalizeSeverity(scanner, RawSeverity(scanner, rule)),
                  StripTarget(WithSlash(scanner, target, res.sites[0].uri), target), res.sites[0].startLine,
                  OneLine(DescriptionFor(scanner, res, rule)), res.sites[0].snippet, false, false, "", "", ""))
  }

  datatype Parsed = Parsed(out: seq<Obs>, warns: seq<Warning>)

  function With(p: Parsed, r: Result<Obs, Warning>): Parsed {
    match r
    case Success(f) => p.(out := p.out + [f])
    case Failure(w) => p.(warns := p.warns + [w])
  }

  function ParseUpTo(pkg: PkgIdentity, scanner: string, target: string, p: Parsed, run: Run, i: nat): Parsed
    requires i <= |run.results|
  {
    if i == 0 then p
    else With(ParseUpTo(pkg, scanner, target, p, run, i - 1),
              ParseResult(pkg, scanner, target, run.rules, run.results[i - 1]))
  }

  function ParseRuns(pkg: PkgIdentity, scanner: string, target: string, runs: seq<Run>, i: nat): Parsed
    requires i <= |runs|
  {
    if i == 0 then Parsed([], [])
    else ParseUpTo(pkg, scanner, target, ParseRuns(pkg, scanner, target, runs, i - 1), runs[i - 1], |runs[i - 1].results|)
  }

  /** `Parse` on a decoded document. */
  method Parse(pkg: PkgIdentity, scanner: string, runs: seq<Run>, target: string)
    returns (out: seq<Obs>, warns: seq<Warning>)
    ensures Parsed(out, warns) == ParseRuns(pkg, scanner, target, runs, |runs|)
  {
    out, warns := [], [];
    for i := 0 to |runs|
      invariant Parsed(out, warns) == ParseRuns(pkg, scanner, target, runs, i)
    {
      var run := runs[i];
      var byID := ById(run.rules);
      for j := 0 to |run.results|
        invariant Parsed(out, warns) == ParseUpTo(pkg, scanner, target, ParseRuns(pkg, scanner, target, runs, i), run, j)
      {
        var r := ParseOne(pkg, scanner, target, run.rules, byID, run.results[j]);
        match r {
          case Failure(w) => warns := warns + [w];
          case Success(f) => out := out + [f];
        }
      }
    }
  }

  method ById(rules: seq<Rule>) returns (byID: map<string, nat>)
    ensures forall id :: id in byID <==> FirstWith(rules, id, |rules|) >= 0
    ensures forall id :: id in byID ==> byID[id] == FirstWith(rules, id, |rules|)
  {
    byID := map[];
    for i := 0 to |rules|
      invariant forall id :: id in byID <==> FirstWith(rules, id, i) >= 0
      invariant forall id :: id in byID ==> byID[id] == FirstWith(rules, id, i)
    {
      if rules[i].id !in byID {
        byID := byID[rules[i].id := i];
      }
    }
  }

  method ParseOne(pkg: PkgIdentity, scanner: string, target: string, rules: seq<Rule>, byID: map<string, nat>, res: SarifResult)
    returns (r: Result<Obs, Warning>)
    requires forall id :: id in byID <==> FirstWith(rules, id, |rules|) >= 0
    requires forall id :: id in byID ==> byID[id] == FirstWith(rules, id, |rules|)
    ensures r == ParseResult(pkg, scanner, target, rules, res)
  {
    var rule := NO_RULE;
    if res.ruleIndex.Some? && 0 <= res.ruleIndex.value < |rules| {
      rule := rules[res.ruleIndex.value];
    } else if res.ruleId in byID {
      rule := rules[byID[res.ruleId]];
    }
    if scanner == "trivy-image" {
      return ParseImage(pkg, scanner, target, rule, res);
    }
    if |res.sites| == 0 {
      return Failure(NoLocation(res.ruleId));
    }
    var loc := res.sites[0];
    if loc.uri == "" || loc.startLine < 1 {
      return Failure(IncompleteLocation(res.ruleId));
    }
    return Success(Obs(scanner, res.ruleId, CweIn(rule.tags), NormalizeSeverity(scanner, RawSeverity(scanner, rule)),
                       StripTarget(WithSlash(scanner, target, loc.uri), target), loc.startLine,
                       OneLine(DescriptionFor(scanner, res, rule)), loc.snippet, false, false, "", "", ""));
  }

  // ---------------------------------------------------------------------
  // Printing
  // ---------------------------------------------------------------------

  function RuleOf(f: Obs): Rule {
    Rule(f.ruleId, SarifLevel(f.severity), "", ["security"] + SarifTags(f))
  }

  function ResultOf(f: Obs): SarifResult {
    SarifResult(f.ruleId, None, SarifLevel(f.severity), f.desc, [Site(f.path, f.line, "")], f.dev)
  }

  /** The rules, each where it first occurs. */
  function RulesUpTo(fs: seq<Obs>, i: nat): seq<Rule>
    requires i <= |fs|
  {
    if i == 0 then []
    else
      var before := RulesUpTo(fs, i - 1);
      if FirstWith(before, fs[i - 1].ruleId, |before|) >= 0 then before else before + [RuleOf(fs[i - 1])]
  }

  function ResultsOf(fs: seq<Obs>): (rs: seq<SarifResult>)
    ensures |rs| == |fs|
    ensures forall i :: 0 <= i < |fs| ==> rs[i] == ResultOf(fs[i])
  {
    seq(|fs|, i requires 0 <= i < |fs| => ResultOf(fs[i]))
  }

  function Printed(fs: seq<Obs>): Run {
    Run(RulesUpTo(fs, |fs|), ResultsOf(fs))
  }

  /** `TrivySARIFRun`, before it is marshalled. */
  method TrivySARIFRun(fs: seq<Obs>) returns (run: Run)
    ensures run == Printed(fs)
  {
    run := Run([], []);
    var rules: set<string> := {};
    for i := 0 to |fs|
      invariant run.rules == RulesUpTo(fs, i) && Ids(run.rules, rules)
      invariant run.results == ResultsOf(fs)[..i]
    {
      run, rules := AddFinding(run, rules, fs[i]);
      assert ResultsOf(fs)[..i + 1] == ResultsOf(fs)[..i] + [ResultOf(fs[i])];
    }
  }

  method AddFinding(run: Run, rules: set<string>, f: Obs) returns (run': Run, rules': set<string>)
    requires Ids(run.rules, rules)
    ensures Ids(run'.rules, rules') && run'.results == run.results + [ResultOf(f)]
    ensures run'.rules == if FirstWith(run.rules, f.ruleId, |run.rules|) >= 0 then run.rules else run.rules + [RuleOf(f)]
  {
    var level := SarifLevel(f.severity);
    var driver;
    driver, rules' := AddRule(run.rules, rules, f, level);
    run' := Run(driver, run.results + [SarifResult(f.ruleId, None, level, f.desc, [Site(f.path, f.line, "")], f.dev)]);
  }

  /** The set holds the ids of the rules. */
  ghost predicate Ids(rules: seq<Rule>, ids: set<string>) {
    forall id :: id in ids <==> FirstWith(rules, id, |rules|) >= 0
  }

  method AddRule(rules: seq<Rule>, ids: set<string>, f: Obs, level: string) returns (rules': seq<Rule>, ids': set<string>)
    requires Ids(rules, ids) && level == SarifLevel(f.severity)
    ensures Ids(rules', ids')
    ensures rules' == if FirstWith(rules, f.ruleId, |rules|) >= 0 then rules else rules + [RuleOf(f)]
  {
    if f.ruleId in ids {
      return rules, ids;
    }
    ids' := ids + {f.ruleId};
    rules' := rules + [Rule(f.ruleId, level, "", ["security"] + SarifTags(f))];
    forall id ensures id in ids' <==> FirstWith(rules', id, |rules'|) >= 0 {
      FirstAppend(rules, RuleOf(f), id);
    }
  }

  lemma {:induction false} FirstAppend(rs: seq<Rule>, r: Rule, id: string)
    ensures FirstWith(rs + [r], id, |rs| + 1) ==
      if FirstWith(rs, id, |rs|) >= 0 then FirstWith(rs, id, |rs|) else if r.id == id then |rs| else -1
  {
    FirstPrefix(rs, rs + [r], id, |rs|);
  }

  lemma {:induction false} FirstPrefix(a: seq<Rule>, b: seq<Rule>, id: string, i: nat)
    requires i <= |a| && a <= b
    ensures FirstWith(b, id, i) == FirstWith(a, id, i)
  {
    if i > 0 {
      FirstPrefix(a, b, id, i - 1);
    }
  }

  // ---------------------------------------------------------------------
  // Round trip
  // ---------------------------------------------------------------------

  function Earliest(fs: seq<Obs>, id: string, i: nat): (k: int)
    requires i <= |fs|
    ensures -1 <= k < i
    ensures k >= 0 ==> fs[k].ruleId == id
    ensures forall j :: 0 <= j < (if k < 0 then i else k) ==> fs[j].ruleId != id
  {
    if i == 0 then -1
    else
      var before := Earliest(fs, id, i - 1);
      if before < 0 && fs[i - 1].ruleId == id then i - 1 else before
  }

  /** The printed rule with an id is that of the first finding with it. */
  lemma {:induction false} RulePrinted(fs: seq<Obs>, id: string, i: nat)
    requires i <= |fs|
    ensures var rs, k := RulesUpTo(fs, i), Earliest(fs, id, i);
      var r := FirstWith(rs, id, |rs|);
      if k < 0 then r < 0 else r >= 0 && rs[r] == RuleOf(fs[k])
  {
    if i > 0 {
      RulePrinted(fs, id, i - 1);
      FirstAppend(RulesUpTo(fs, i - 1), RuleOf(fs[i - 1]), id);
    }
  }

  /** What survives of a finding: rule id, CWE, severity, path, line and description. */
  function Bare(f: Obs): Obs {
    Obs("trivy", f.ruleId, f.cwe, f.severity, f.path, f.line, f.desc, "", false, false, "", "", "")
  }

  function Bares(fs: seq<Obs>): (r: seq<Obs>)
    ensures |r| == |fs|
    ensures forall i :: 0 <= i < |fs| ==> r[i] == Bare(fs[i])
  {
    seq(|fs|, i requires 0 <= i < |fs| => Bare(fs[i]))
  }

  function Back(pkg: PkgIdentity, fs: seq<Obs>, target: string, i: nat): Result<Obs, Warning>
    requires i < |fs|
  {
    ParseResult(pkg, "trivy", target, RulesUpTo(fs, |fs|), ResultOf(fs[i]))
  }

  function Backs(pkg: PkgIdentity, fs: seq<Obs>, target: string): (rs: seq<Result<Obs, Warning>>)
    ensures |rs| == |fs|
    ensures forall i :: 0 <= i < |fs| ==> rs[i] == Back(pkg, fs, target, i)
  {
    seq(|fs|, i requires 0 <= i < |fs| => Back(pkg, fs, target, i))
  }

  function Collected(rs: seq<Result<Obs, Warning>>, i: nat): Parsed
    requires i <= |rs|
  {
    if i == 0 then Parsed([], []) else With(Collected(rs, i - 1), rs[i - 1])
  }

  lemma {:induction false} ParsePrinted(pkg: PkgIdentity, fs: seq<Obs>, target: string, i: nat)
    requires i <= |fs|
    ensures ParseUpTo(pkg, "trivy", target, Parsed([], []), Printed(fs), i) == Collected(Backs(pkg, fs, target), i)
  {
    if i > 0 {
      ParsePrinted(pkg, fs, target, i - 1);
    }
  }

  predicate FiveLevels(s: string) {
    s == "critical" || s == "high" || s == "medium" || s == "low" || s == "info"
  }

  /** A CWE that survives as a tag. */
  predicate TagSafe(cwe: string) {
    cwe == "" || ("CWE-" <= cwe && ':' !in cwe)
  }

  predicate CleanPath(path: string, target: string) {
    path != "" && '\\' !in path && !("/" <= path) && (target != "" ==> !(target + "/" <= path))
  }

  predicate Clean(f: Obs, target: string) {
    FiveLevels(f.severity) && TagSafe(f.cwe) && CleanPath(f.path, target) && f.line >= 1 && IsOneLine(f.desc)
  }

  function TagsOf(f: Obs): seq<string> {
    ["security"] + SarifTags(f)
  }

  lemma TagsAre(f: Obs)
    ensures TagsOf(f) == if f.cwe != "" then ["security", ToUpper(f.severity), f.cwe] else ["security", ToUpper(f.severity)]
  {
  }

  lemma UpperWords()
    ensures ToUpper("critical") == "CRITICAL" && ToUpper("high") == "HIGH" && ToUpper("medium") == "MEDIUM"
    ensures ToUpper("low") == "LOW" && ToUpper("info") == "INFO"
  {
  }

  lemma LowerWords()
    ensures ToLower("CRITICAL") == "critical" && ToLower("HIGH") == "high" && ToLower("MEDIUM") == "medium"
    ensures ToLower("LOW") == "low" && ToLower("UNKNOWN") == "unknown"
  {
  }

  /** A tag that starts with CWE- is neither the word security nor a severity. */
  lemma {:induction false} CweTag(tag: string)
    requires "CWE-" <= tag
    ensures tag != "security" && !Token(tag) && tag != "INFO"
    ensures IndexOf(tag, ':') > 0
  {
    assert tag[0] == 'C' && tag[1] == 'W';
    assert "security"[0] == 's' && "CRITICAL"[1] == 'R' && "HIGH"[0] == 'H' && "MEDIUM"[0] == 'M' && "LOW"[0] == 'L';
    assert "INFO"[0] == 'I';
  }

  lemma {:induction false} FirstTokenCons(a: string, rest: seq<string>)
    ensures FirstToken([a] + rest) == if Token(a) then a else FirstToken(rest)
  {
    assert ([a] + rest)[1..] == rest;
  }

  lemma {:induction false} CweCons(a: string, rest: seq<string>)
    ensures CweIn([a] + rest) == if "CWE-" <= a then CweCut(a) else CweIn(rest)
  {
    assert ([a] + rest)[1..] == rest;
  }

  lemma FirstTokenIn(a: string, b: string, c: string)
    ensures FirstToken([a, b]) == if Token(a) then a else if Token(b) then b else "UNKNOWN"
    ensures FirstToken([a, b, c]) == if Token(a) then a else if Token(b) then b else if Token(c) then c else "UNKNOWN"
  {
    assert [a, b] == [a] + [b] && [a, b, c] == [a] + [b, c] && [b, c] == [b] + [c];
    assert [b] == [b] + [] && [c] == [c] + [];
    FirstTokenCons(a, [b]);
    FirstTokenCons(a, [b, c]);
    FirstTokenCons(b, [c]);
    FirstTokenCons(b, []);
    FirstTokenCons(c, []);
  }

  lemma CweInTags(a: string, b: string, c: string)
    requires !("CWE-" <= a) && !("CWE-" <= b)
    ensures CweIn([a, b]) == ""
    ensures CweIn([a, b, c]) == if "CWE-" <= c then CweCut(c) else ""
  {
    assert [a, b] == [a] + [b] && [a, b, c] == [a] + [b, c] && [b, c] == [b] + [c];
    assert [b] == [b] + [] && [c] == [c] + [];
    CweCons(a, [b]);
    CweCons(a, [b, c]);
    CweCons(b, [c]);
    CweCons(b, []);
    CweCons(c, []);
  }

  lemma SeverityBack(f: Obs)
    requires TagSafe(f.cwe) && FiveLevels(f.severity)
    ensures NormalizeSeverity("trivy", FirstToken(TagsOf(f))) == f.severity
  {
    TagsAre(f);
    UpperWords();
    LowerWords();
    FirstTokenIn("security", ToUpper(f.severity), f.cwe);
    if f.cwe != "" {
      CweTag(f.cwe);
    }
    assert !Token("security") && !Token("INFO");
  }

  lemma NotCwe(sev: string)
    requires FiveLevels(sev)
    ensures !("CWE-" <= "security") && !("CWE-" <= ToUpper(sev))
  {
    UpperWords();
    if "CWE-" <= "security" {
      CweTag("security");
    }
    if "CWE-" <= ToUpper(sev) {
      CweTag(ToUpper(sev));
    }
  }

  lemma CweBack(f: Obs)
    requires FiveLevels(f.severity)
    ensures CweIn(TagsOf(f)) == f.cwe <==> TagSafe(f.cwe)
  {
    TagsAre(f);
    NotCwe(f.severity);
    CweInTags("security", ToUpper(f.severity), f.cwe);
    var k := IndexOf(f.cwe, ':');
    if "CWE-" <= f.cwe {
      CweTag(f.cwe);
    }
    assert ':' in f.cwe <==> k < |f.cwe|;
  }

  lemma PathBack(path: string, target: string)
    requires path != ""
    ensures StripTarget(path, target) == path <==> CleanPath(path, target)
  {
    var u := Slashed(path);
    if '\\' !in path {
      assert u == path;
    } else {
      var i :| 0 <= i < |path| && path[i] == '\\';
      assert u[i] == '/';
    }
  }

  lemma DescBack(desc: string)
    ensures OneLine(FirstLine(desc)) == desc <==> IsOneLine(desc)
  {
    var k := IndexOf(desc, '\n');
    if OneLine(FirstLine(desc)) == desc {
      OneLineIsOneLine(FirstLine(desc));
    }
    if IsOneLine(desc) {
      assert k < |desc| ==> IsSpace(desc[k]);
      assert desc[..|desc|] == desc;
      OneLineKeeps(desc);
    }
  }

  /** The first finding with the rule has the same severity and CWE. */
  predicate RuleDecides(fs: seq<Obs>, i: nat)
    requires i < |fs|
  {
    var k := Earliest(fs, fs[i].ruleId, |fs|);
    k >= 0 && fs[k].severity == fs[i].severity && fs[k].cwe == fs[i].cwe
  }

  /** What comes back of f when g is the first finding with its rule. */
  function Restored(f: Obs, g: Obs, target: string): Result<Obs, Warning> {
    if f.path == "" || f.line < 1 then Failure(IncompleteLocation(f.ruleId))
    else
      Success(Obs("trivy", f.ruleId, CweIn(TagsOf(g)), NormalizeSeverity("trivy", FirstToken(TagsOf(g))),
                  StripTarget(f.path, target), f.line, OneLine(FirstLine(f.desc)), "", false, false, "", "", ""))
  }

  lemma {:induction false} OneBack(pkg: PkgIdentity, fs: seq<Obs>, target: string, i: nat)
    requires i < |fs|
    ensures Earliest(fs, fs[i].ruleId, |fs|) >= 0
    ensures Back(pkg, fs, target, i) == Restored(fs[i], fs[Earliest(fs, fs[i].ruleId, |fs|)], target)
  {
    RulePrinted(fs, fs[i].ruleId, |fs|);
    var k := Earliest(fs, fs[i].ruleId, |fs|);
    assert RuleFor(RulesUpTo(fs, |fs|), ResultOf(fs[i])) == RuleOf(fs[k]);
  }

  lemma RestoredSame(f: Obs, g: Obs, target: string)
    requires Clean(f, target) && g.severity == f.severity && g.cwe == f.cwe
    ensures Restored(f, g, target) == Success(Bare(f))
  {
    SeverityBack(g);
    CweBack(g);
    PathBack(f.path, target);
    DescBack(f.desc);
  }

  lemma RestoredClean(f: Obs, g: Obs, target: string)
    requires Restored(f, g, target) == Success(Bare(f))
    ensures FiveLevels(f.severity) && CleanPath(f.path, target) && f.line >= 1 && IsOneLine(f.desc)
    ensures f.cwe == CweIn(TagsOf(g)) && f.severity == NormalizeSeverity("trivy", FirstToken(TagsOf(g)))
  {
    PathBack(f.path, target);
    DescBack(f.desc);
  }

  /** A finding comes back as it was. */
  predicate Same(pkg: PkgIdentity, fs: seq<Obs>, target: string, i: nat)
    requires i < |fs|
  {
    Back(pkg, fs, target, i) == Success(Bare(fs[i]))
  }

  lemma SameIfClean(pkg: PkgIdentity, fs: seq<Obs>, target: string, i: nat)
    requires i < |fs| && Clean(fs[i], target) && RuleDecides(fs, i)
    ensures Same(pkg, fs, target, i)
  {
    OneBack(pkg, fs, target, i);
    RestoredSame(fs[i], fs[Earliest(fs, fs[i].ruleId, |fs|)], target);
  }

  lemma {:induction false} CleanIfSame(pkg: PkgIdentity, fs: seq<Obs>, target: string, i: nat)
    requires i < |fs| && Same(pkg, fs, target, i)
    requires Earliest(fs, fs[i].ruleId, |fs|) >= 0 && Same(pkg, fs, target, Earliest(fs, fs[i].ruleId, |fs|))
    ensures Clean(fs[i], target) && RuleDecides(fs, i)
  {
    var k := Earliest(fs, fs[i].ruleId, |fs|);
    OneBack(pkg, fs, target, i);
    OneBack(pkg, fs, target, k);
    RestoredClean(fs[i], fs[k], target);
    RestoredClean(fs[k], fs[k], target);
    CweBack(fs[k]);
  }

  lemma WithOne(p: Parsed, r: Result<Obs, Warning>, s: seq<Obs>, x: Obs)
    requires |p.out| + |p.warns| == |s|
    ensures With(p, r) == Parsed(s + [x], []) <==> p == Parsed(s, []) && r == Success(x)
  {
    if r.Success? && With(p, r) == Parsed(s + [x], []) {
      assert p.out == (p.out + [r.value])[..|s|];
      assert (s + [x])[..|s|] == s;
    }
  }

  /** Everything comes back, in order and without a warning, exactly when each does. */
  lemma {:induction false} CollectedAll(rs: seq<Result<Obs, Warning>>, xs: seq<Obs>, i: nat)
    requires i <= |rs| == |xs|
    ensures Collected(rs, i) == Parsed(xs[..i], []) <==> forall j :: 0 <= j < i ==> rs[j] == Success(xs[j])
    ensures |Collected(rs, i).out| + |Collected(rs, i).warns| == i
  {
    if i > 0 {
      CollectedAll(rs, xs, i - 1);
      assert xs[..i] == xs[..i - 1] + [xs[i - 1]];
      WithOne(Collected(rs, i - 1), rs[i - 1], xs[..i - 1], xs[i - 1]);
    }
  }

  ghost predicate AllSame(pkg: PkgIdentity, fs: seq<Obs>, target: string) {
    forall i :: 0 <= i < |fs| ==> Same(pkg, fs, target, i)
  }

  /** Every finding is clean and has the severity and CWE its rule id had first. */
  ghost predicate AllClean(fs: seq<Obs>, target: string) {
    forall i :: 0 <= i < |fs| ==> Clean(fs[i], target) && RuleDecides(fs, i)
  }

  lemma SameIffClean(pkg: PkgIdentity, fs: seq<Obs>, target: string)
    ensures AllSame(pkg, fs, target) <==> AllClean(fs, target)
  {
    if AllSame(pkg, fs, target) {
      forall i | 0 <= i < |fs| ensures Clean(fs[i], target) && RuleDecides(fs, i) {
        OneBack(pkg, fs, target, i);
        CleanIfSame(pkg, fs, target, i);
      }
    }
    if AllClean(fs, target) {
      forall i | 0 <= i < |fs| ensures Same(pkg, fs, target, i) {
        SameIfClean(pkg, fs, target, i);
      }
    }
  }

  lemma {:induction false} ParsedAll(pkg: PkgIdentity, fs: seq<Obs>, target: string)
    ensures ParseRuns(pkg, "trivy", target, [Printed(fs)], 1) == Parsed(Bares(fs), []) <==> AllSame(pkg, fs, target)
  {
    var rs, xs := Backs(pkg, fs, target), Bares(fs);
    ParsePrinted(pkg, fs, target, |fs|);
    CollectedAll(rs, xs, |fs|);
    assert xs[..|fs|] == xs;
    assert ParseRuns(pkg, "trivy", target, [Printed(fs)], 0) == Parsed([], []);
    assert forall j :: 0 <= j < |fs| ==> (rs[j] == Success(xs[j]) <==> Same(pkg, fs, target, j));
  }

  /**
   Printing and parsing undo each other, in order and without a warning, exactly
   when every finding is clean and has the severity and CWE its rule id had first.
   */
  lemma {:induction false} RoundTripIff(pkg: PkgIdentity, fs: seq<Obs>, target: string)
    ensures ParseRuns(pkg, "trivy", target, [Printed(fs)], 1) == Parsed(Bares(fs), []) <==> AllClean(fs, target)
  {
    ParsedAll(pkg, fs, target);
    SameIffClean(pkg, fs, target);
  }

  // ---------------------------------------------------------------------
  // Merging what comes back
  // ---------------------------------------------------------------------

  /** Findings as the trivy parser makes them: no snippet, so outside the secret collapse. */
  ghost predicate Plain(fs: seq<Obs>) {
    forall i :: 0 <= i < |fs| ==> fs[i].scanner == "trivy" && fs[i].snippet == ""
  }

  lemma {:induction false} NoneCollapses(fs: seq<Obs>, i: nat)
    requires i <= |fs| && Plain(fs)
    ensures RestUpTo(fs, i) == fs[..i]
    ensures forall h :: LabelsUpTo(SecretLabels(h), fs, i) == []
  {
    if i > 0 {
      NoneCollapses(fs, i - 1);
      assert fs[..i] == fs[..i - 1] + [fs[i - 1]];
    }
  }

  lemma {:induction false} SameLabels(h: Hashes, fs: seq<Obs>, name: string, i: nat)
    requires i <= |fs| && Plain(fs)
    ensures LabelsUpTo(RestLabels(h), Bares(fs), i) == LabelsUpTo(RestLabels(h), fs, i)
    ensures MembersUpTo(RestLabels(h), Bares(fs), name, i) == Bares(MembersUpTo(RestLabels(h), fs, name, i))
  {
    if i > 0 {
      SameLabels(h, fs, name, i - 1);
      assert FpOf(h, Bare(fs[i - 1])) == FpOf(h, fs[i - 1]);
      var ms := MembersUpTo(RestLabels(h), fs, name, i - 1);
      assert Bares(ms + [fs[i - 1]]) == Bares(ms) + [Bare(fs[i - 1])];
    }
  }

  lemma PlainMerged(h: Hashes, fs: seq<Obs>)
    requires Plain(fs)
    ensures AllMerged(h, fs) == Others(h, fs)
  {
    NoneCollapses(fs, |fs|);
    assert fs[..|fs|] == fs;
    assert Secrets(h, fs) == [];
  }

  lemma OtherUnchanged(h: Hashes, fs: seq<Obs>, fp: string)
    requires Plain(fs)
    ensures OtherAt(h, Bares(fs), fp).fp == OtherAt(h, fs, fp).fp && OtherAt(h, Bares(fs), fp).locs == OtherAt(h, fs, fp).locs
  {
    SameLabels(h, fs, fp, |fs|);
    MembersOf(RestLabels(h), fs, fp);
    var ms := Members(RestLabels(h), fs, fp);
    if ms != [] {
      assert ms[0] in ms && ms[0] in fs;
      assert Sites(Bares(ms)) == Sites(ms);
    }
  }

  /** Merging the findings that came back yields the same fingerprints at the same places. */
  lemma MergeUnchanged(h: Hashes, fs: seq<Obs>, k: nat)
    requires Plain(fs)
    ensures |AllMerged(h, Bares(fs))| == |AllMerged(h, fs)|
    ensures k < |AllMerged(h, fs)| ==>
      AllMerged(h, Bares(fs))[k].fp == AllMerged(h, fs)[k].fp && AllMerged(h, Bares(fs))[k].locs == AllMerged(h, fs)[k].locs
  {
    PlainMerged(h, fs);
    PlainMerged(h, Bares(fs));
    SameLabels(h, fs, "", |fs|);
    if k < |AllMerged(h, fs)| {
      OtherUnchanged(h, fs, LabelsOf(RestLabels(h), fs)[k]);
    }
  }
}
