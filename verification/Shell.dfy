/**
 Text that crosses a shell (internal/scan/scope.go:53-61 and :129-131): quoting a
 word, and taking NUL-terminated paths apart. Words are read back by the quoting
 rules of section 2.2 of the Shell Command Language (POSIX.1-2017).
 */
module Shell {
  import opened Wrappers

  // ---------------------------------------------------------------------
  // Quoting
  // ---------------------------------------------------------------------

  const ESCAPED_QUOTE := "'\\''"

  function Escape(s: string): string {
    if s == "" then "" else (if s[0] == '\'' then ESCAPED_QUOTE else [s[0]]) + Escape(s[1..])
  }

  function ShQuote(s: string): string {
    "'" + Escape(s) + "'"
  }

  /** How a word is being read: outside quotes, after a backslash, between single quotes. */
  datatype Mode = Bare | Escaping | Quoted

  /** Characters that mean something to the shell when they are not quoted. */
  predicate Special(c: char) {
    c in "|&;<>()$`\"*?[]#~=%!{}"
  }

  predicate BlankChar(c: char) {
    c == ' ' || c == '\t' || c == '\n'
  }

  /**
   The words of a command line made of literal text, backslashes and single quotes;
   none when it is unfinished or uses anything else. `word` is the word begun.
   */
  function Words(s: string, mode: Mode, word: Option<string>, done: seq<string>): Option<seq<string>>
    decreases |s|
  {
    if s == "" then
      if mode != Bare then None
      else Some(if word.None? then done else done + [word.value])
    else
      var c, rest, soFar := s[0], s[1..], if word.None? then "" else word.value;
      match mode
      case Quoted => if c == '\'' then Words(rest, Bare, Some(soFar), done) else Words(rest, Quoted, Some(soFar + [c]), done)
      case Escaping => if c == '\n' then Words(rest, Bare, word, done) else Words(rest, Bare, Some(soFar + [c]), done)
      case Bare =>
        if c == '\'' then Words(rest, Quoted, Some(soFar), done)
        else if c == '\\' then Words(rest, Escaping, word, done)
        else if BlankChar(c) then Words(rest, Bare, None, if word.None? then done else done + [word.value])
        else if Special(c) then None
        else Words(rest, Bare, Some(soFar + [c]), done)
  }

  function ReadWords(s: string): Option<seq<string>> {
    Words(s, Bare, None, [])
  }

  lemma {:induction false} QuotedStep(c: char, rest: string, word: string, done: seq<string>)
    requires c != '\''
    ensures Words([c] + rest, Quoted, Some(word), done) == Words(rest, Quoted, Some(word + [c]), done)
  {
    assert ([c] + rest)[1..] == rest;
  }

  lemma {:induction false} QuoteEnds(rest: string, word: string, done: seq<string>)
    ensures Words("'" + rest, Quoted, Some(word), done) == Words(rest, Bare, Some(word), done)
  {
    assert ("'" + rest)[1..] == rest;
  }

  /** Between quotes, an escaped quote is read as a quote and leaves the reader between quotes. */
  lemma {:induction false} EscapedQuoteStep(rest: string, word: string, done: seq<string>)
    ensures Words(ESCAPED_QUOTE + rest, Quoted, Some(word), done) == Words(rest, Quoted, Some(word + "'"), done)
  {
    assert (ESCAPED_QUOTE + rest)[1..] == "\\''" + rest;
    assert ("\\''" + rest)[1..] == "''" + rest;
    assert ("''" + rest)[1..] == "'" + rest;
    assert ("'" + rest)[1..] == rest;
    assert Words("\\''" + rest, Bare, Some(word), done) == Words("''" + rest, Escaping, Some(word), done);
    assert Words("''" + rest, Escaping, Some(word), done) == Words("'" + rest, Bare, Some(word + "'"), done);
  }

  lemma {:induction false} EscapeReads(s: string, rest: string, word: string, done: seq<string>)
    ensures Words(Escape(s) + rest, Quoted, Some(word), done) == Words(rest, Quoted, Some(word + s), done)
    decreases |s|
  {
    if s == "" {
      assert Escape(s) + rest == rest && word + s == word;
    } else {
      var tail := Escape(s[1..]) + rest;
      assert (word + [s[0]]) + s[1..] == word + s;
      if s[0] == '\'' {
        assert Escape(s) + rest == ESCAPED_QUOTE + tail;
        EscapedQuoteStep(tail, word, done);
        assert word + "'" == word + [s[0]];
      } else {
        assert Escape(s) + rest == [s[0]] + tail;
        QuotedStep(s[0], tail, word, done);
      }
      EscapeReads(s[1..], rest, word + [s[0]], done);
    }
  }

  lemma {:induction false} QuotedWordReads(s: string, rest: string, done: seq<string>)
    ensures Words(ShQuote(s) + rest, Bare, None, done) == Words(rest, Bare, Some(s), done)
  {
    assert ShQuote(s) + rest == "'" + (Escape(s) + ("'" + rest));
    assert ("'" + (Escape(s) + ("'" + rest)))[1..] == Escape(s) + ("'" + rest);
    EscapeReads(s, "'" + rest, "", done);
    assert "" + s == s;
    QuoteEnds(rest, s, done);
  }

  /** Any string, quoted, is read as exactly one word: itself. */
  lemma QuotedIsOneWord(s: string)
    ensures ReadWords(ShQuote(s)) == Some([s])
  {
    assert ShQuote(s) + "" == ShQuote(s);
    QuotedWordReads(s, "", []);
    assert [] + [s] == [s];
  }

  function CommandLine(ws: seq<string>): string {
    if ws == [] then "" else ShQuote(ws[0]) + " " + CommandLine(ws[1..])
  }

  /** Quoted words separated by blanks are read as those words. */
  lemma {:induction false} CommandLineReads(ws: seq<string>, done: seq<string>)
    ensures Words(CommandLine(ws), Bare, None, done) == Some(done + ws)
    decreases |ws|
  {
    if ws == [] {
      assert done + ws == done;
    } else {
      var rest := CommandLine(ws[1..]);
      assert CommandLine(ws) == ShQuote(ws[0]) + (" " + rest);
      QuotedWordReads(ws[0], " " + rest, done);
      assert (" " + rest)[1..] == rest;
      CommandLineReads(ws[1..], done + [ws[0]]);
      assert (done + [ws[0]]) + ws[1..] == done + ws;
    }
  }

  // ---------------------------------------------------------------------
  // NUL-terminated paths
  // ---------------------------------------------------------------------

  const NUL := '\0'

  function PieceEnd(s: string): (k: nat)
    ensures k <= |s|
    ensures forall i :: 0 <= i < k ==> s[i] != NUL
    ensures k < |s| ==> s[k] == NUL
  {
    if s == "" || s[0] == NUL then 0 else 1 + PieceEnd(s[1..])
  }

  /** strings.Split on NUL. */
  function Split(s: string): seq<string>
    decreases |s|
  {
    var k := PieceEnd(s);
    if k < |s| then [s[..k]] + Split(s[k + 1..]) else [s]
  }

  function NonEmptyUpTo(ps: seq<string>, i: nat): seq<string>
    requires i <= |ps|
  {
    if i == 0 then []
    else
      var before := NonEmptyUpTo(ps, i - 1);
      if ps[i - 1] == "" then before else before + [ps[i - 1]]
  }

  /** The non-empty pieces between NULs. */
  function Pieces(s: string): seq<string> {
    NonEmptyUpTo(Split(s), |Split(s)|)
  }

  method SplitNUL(s: string) returns (out: seq<string>)
    ensures out == Pieces(s)
  {
    var ps := Split(s);
    out := [];
    for i := 0 to |ps|
      invariant out == NonEmptyUpTo(ps, i)
    {
      if ps[i] != "" {
        out := out + [ps[i]];
      }
    }
  }

  predicate PathLike(p: string) {
    p != "" && NUL !in p
  }

  function Terminated(ps: seq<string>): string {
    if ps == [] then "" else ps[0] + [NUL] + Terminated(ps[1..])
  }

  lemma {:induction false} PieceEndIs(s: string, k: nat)
    requires k <= |s| && (forall i :: 0 <= i < k ==> s[i] != NUL) && (k < |s| ==> s[k] == NUL)
    ensures PieceEnd(s) == k
  {
  }

  lemma {:induction false} SplitFirst(p: string, rest: string)
    requires NUL !in p
    ensures Split(p + [NUL] + rest) == [p] + Split(rest)
  {
    var s := p + [NUL] + rest;
    PieceEndIs(s, |p|);
    assert s[..|p|] == p && s[|p| + 1..] == rest;
  }

  lemma {:induction false} SplitTerminated(ps: seq<string>)
    requires forall i :: 0 <= i < |ps| ==> NUL !in ps[i]
    ensures Split(Terminated(ps)) == ps + [""]
  {
    if ps != [] {
      SplitFirst(ps[0], Terminated(ps[1..]));
      SplitTerminated(ps[1..]);
      assert [ps[0]] + (ps[1..] + [""]) == ps + [""];
    }
  }

  lemma {:induction false} SplitHasNoNul(s: string)
    ensures forall i :: 0 <= i < |Split(s)| ==> NUL !in Split(s)[i]
    decreases |s|
  {
    var k := PieceEnd(s);
    if k < |s| {
      SplitHasNoNul(s[k + 1..]);
    }
  }

  lemma {:induction false} NonEmptyAre(ps: seq<string>, i: nat)
    requires i <= |ps|
    ensures forall p :: p in NonEmptyUpTo(ps, i) ==> p != "" && p in ps
    ensures (forall j :: 0 <= j < i ==> ps[j] != "") ==> NonEmptyUpTo(ps, i) == ps[..i]
  {
    if i > 0 {
      NonEmptyAre(ps, i - 1);
      assert ps[..i] == ps[..i - 1] + [ps[i - 1]];
    }
  }

  /** Splitting inverts NUL-terminated joining exactly on lists of non-empty NUL-free paths. */
  lemma {:induction false} SplitInvertsIff(ps: seq<string>)
    ensures Pieces(Terminated(ps)) == ps <==> forall i :: 0 <= i < |ps| ==> PathLike(ps[i])
  {
    var qs := Split(Terminated(ps));
    SplitHasNoNul(Terminated(ps));
    NonEmptyAre(qs, |qs|);
    if forall i :: 0 <= i < |ps| ==> PathLike(ps[i]) {
      SplitTerminated(ps);
      NonEmptyAre(qs, |ps|);
      assert qs[..|ps|] == ps;
    }
    if Pieces(Terminated(ps)) == ps {
      forall i | 0 <= i < |ps| ensures PathLike(ps[i]) {
        assert ps[i] in Pieces(Terminated(ps));
      }
    }
  }
}
