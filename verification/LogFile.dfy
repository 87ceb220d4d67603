/**
 One file of the append-only log (internal/store/log.go): what an append writes,
 how reading recovers from a line cut by a crash, and when it refuses. Encoding
 and decoding of a line are parameters.
 */
module LogFile {
  import opened Wrappers
  import opened Events
  import opened LogOrder

  /** A line decodes, breaks off early, or is malformed. */
  datatype Decoding = Whole(ev: Event) | CutShort | Malformed

  datatype LineCodec = LineCodec(encode: Event -> Bytes, decode: Bytes -> Decoding, blank: Bytes -> bool)

  /** The line at fault. */
  datatype ReadError = FollowedPartial(at: nat) | BadLine(at: nat) | TooLong(at: nat)

  const NEWLINE := 10
  const RETURN := 13

  /** The scanner's limit on a line. */
  const LINE_LIMIT := 16 * 1024 * 1024

  // ---------------------------------------------------------------------
  // Lines
  // ---------------------------------------------------------------------

  function Break(b: Bytes): (k: nat)
    ensures k <= |b|
    ensures forall i :: 0 <= i < k ==> b[i] != NEWLINE
    ensures k < |b| ==> b[k] == NEWLINE
  {
    if b == [] || b[0] == NEWLINE then 0 else 1 + Break(b[1..])
  }

  /** Newline-terminated lines; the last one may lack its newline. */
  function Lines(b: Bytes): seq<Bytes> {
    if b == [] then []
    else
      var k := Break(b);
      [b[..k]] + if k < |b| then Lines(b[k + 1..]) else []
  }

  function DropReturn(line: Bytes): Bytes {
    if line != [] && line[|line| - 1] == RETURN then line[..|line| - 1] else line
  }

  lemma {:induction false} BreakIs(b: Bytes, k: nat)
    requires k <= |b| && (forall i :: 0 <= i < k ==> b[i] != NEWLINE) && (k < |b| ==> b[k] == NEWLINE)
    ensures Break(b) == k
  {
  }

  lemma {:induction false} LinesTerminated(line: Bytes, rest: Bytes)
    requires NEWLINE !in line
    ensures Lines(line + [NEWLINE] + rest) == [line] + Lines(rest)
  {
    var b := line + [NEWLINE] + rest;
    BreakIs(b, |line|);
    assert b[..|line|] == line && b[|line| + 1..] == rest;
  }

  lemma {:induction false} LinesUnterminated(line: Bytes)
    requires NEWLINE !in line
    ensures Lines(line) == if line == [] then [] else [line]
  {
    BreakIs(line, |line|);
    assert line[..|line|] == line;
  }

  // ---------------------------------------------------------------------
  // Reading
  // ---------------------------------------------------------------------

  datatype Reading = Going(out: seq<Entry>, pending: Option<nat>) | Stopped(error: ReadError)

  const START := Going([], None)

  /** One line, numbered n. */
  function Take(c: LineCodec, r: Reading, line: Bytes, n: nat): Reading {
    if r.Stopped? then r
    else if |line| >= LINE_LIMIT then Stopped(TooLong(n))
    else
      var l := DropReturn(line);
      if c.blank(l) then r
      else if r.pending.Some? then Stopped(FollowedPartial(r.pending.value))
      else
        match c.decode(l)
        case Whole(ev) => Going(r.out + [Entry(ev, l)], None)
        case CutShort => Going(r.out, Some(n))
        case Malformed => Stopped(BadLine(n))
  }

  function TakeAll(c: LineCodec, r: Reading, lines: seq<Bytes>, n: nat): Reading
    decreases |lines|
  {
    if lines == [] then r else TakeAll(c, Take(c, r, lines[0], n), lines[1..], n + 1)
  }

  function Outcome(r: Reading): Result<seq<Entry>, ReadError> {
    match r
    case Going(out, _) => Success(out)
    case Stopped(e) => Failure(e)
  }

  /** What reading a file yields. */
  function Read(c: LineCodec, b: Bytes): Result<seq<Entry>, ReadError> {
    Outcome(TakeAll(c, START, Lines(b), 1))
  }

  method ReadOne(c: LineCodec, file: Bytes) returns (r: Result<seq<Entry>, ReadError>)
    ensures r == Read(c, file)
  {
    var out: seq<Entry>, pending: Option<nat> := [], None;
    var n, pos := 0, 0;
    assert file[0..] == file;
    while pos < |file|
      invariant 0 <= pos <= |file|
      invariant TakeAll(c, START, Lines(file), 1) == TakeAll(c, Going(out, pending), Lines(file[pos..]), n + 1)
      decreases |file| - pos
    {
      n := n + 1;
      var line;
      ghost var here := pos;
      line, pos := NextLine(file, pos);
      assert TakeAll(c, Going(out, pending), Lines(file[here..]), n) ==
             TakeAll(c, Take(c, Going(out, pending), line, n), Lines(file[pos..]), n + 1);
      ghost var taken := Take(c, Going(out, pending), line, n);
      if taken.Stopped? {
        StoppedStays(c, taken, Lines(file[pos..]), n + 1);
      }
      if |line| >= LINE_LIMIT {
        return Failure(TooLong(n));
      }
      var l := DropReturn(line);
      if !c.blank(l) {
        if pending.Some? {
          return Failure(FollowedPartial(pending.value));
        }
        match c.decode(l) {
        case Whole(ev) =>
          out := out + [Entry(ev, l)];
        case CutShort =>
          pending := Some(n);
        case Malformed =>
          return Failure(BadLine(n));
        }
      }
    }
    return Success(out);
  }

  /** The line at a position, and where the next one starts. */
  method NextLine(file: Bytes, pos: nat) returns (line: Bytes, next: nat)
    requires pos < |file|
    ensures pos < next <= |file| && Lines(file[pos..]) == [line] + Lines(file[next..])
  {
    var k := pos;
    while k < |file| && file[k] != NEWLINE
      invariant pos <= k <= |file| && forall i :: pos <= i < k ==> file[i] != NEWLINE
    {
      k := k + 1;
    }
    line := file[pos..k];
    if k < |file| {
      next := k + 1;
      assert file[pos..] == line + [NEWLINE] + file[next..];
      LinesTerminated(line, file[next..]);
    } else {
      next := k;
      assert file[pos..] == line && file[next..] == [];
      LinesUnterminated(line);
    }
  }

  lemma {:induction false} StoppedStays(c: LineCodec, r: Reading, lines: seq<Bytes>, n: nat)
    requires r.Stopped?
    ensures TakeAll(c, r, lines, n) == r
  {
    if lines != [] {
      StoppedStays(c, r, lines[1..], n + 1);
    }
  }

  // ---------------------------------------------------------------------
  // Line endings
  // ---------------------------------------------------------------------

  function JoinedBy(lines: seq<Bytes>, end: Bytes): Bytes {
    if lines == [] then [] else lines[0] + end + JoinedBy(lines[1..], end)
  }

  ghost predicate BareLines(lines: seq<Bytes>) {
    forall l :: l in lines ==> 10 !in l && |l| + 1 < LINE_LIMIT && (l != [] ==> l[|l| - 1] != 13)
  }

  lemma TakeReturn(c: LineCodec, r: Reading, l: Bytes, n: nat)
    requires |l| + 1 < LINE_LIMIT && (l != [] ==> l[|l| - 1] != 13)
    ensures Take(c, r, l + [13], n) == Take(c, r, l, n)
  {
    assert (l + [13])[..|l|] == l;
  }

  lemma LinesJoined(lines: seq<Bytes>)
    requires lines != [] && 10 !in lines[0]
    ensures Lines(JoinedBy(lines, [10])) == [lines[0]] + Lines(JoinedBy(lines[1..], [10]))
    ensures Lines(JoinedBy(lines, [13, 10])) == [lines[0] + [13]] + Lines(JoinedBy(lines[1..], [13, 10]))
  {
    LinesTerminated(lines[0], JoinedBy(lines[1..], [10]));
    LinesTerminated(lines[0] + [13], JoinedBy(lines[1..], [13, 10]));
    assert lines[0] + [13, 10] == lines[0] + [13] + [10];
  }

  lemma {:induction false} TakesJoined(c: LineCodec, r: Reading, lines: seq<Bytes>, n: nat)
    requires BareLines(lines)
    ensures TakeAll(c, r, Lines(JoinedBy(lines, [13, 10])), n) == TakeAll(c, r, Lines(JoinedBy(lines, [10])), n)
    decreases |lines|
  {
    if lines != [] {
      assert lines[0] in lines;
      LinesJoined(lines);
      TakeReturn(c, r, lines[0], n);
      TakesRest(c, r, lines[0], lines[0] + [13], JoinedBy(lines[1..], [10]), JoinedBy(lines[1..], [13, 10]), n);
      TakesJoined(c, Take(c, r, lines[0], n), lines[1..], n + 1);
    }
  }

  lemma TakesRest(c: LineCodec, r: Reading, a: Bytes, b: Bytes, p: Bytes, q: Bytes, n: nat)
    requires Take(c, r, a, n) == Take(c, r, b, n)
    ensures TakeAll(c, r, [a] + Lines(p), n) == TakeAll(c, Take(c, r, a, n), Lines(p), n + 1)
    ensures TakeAll(c, r, [b] + Lines(q), n) == TakeAll(c, Take(c, r, a, n), Lines(q), n + 1)
  {
    assert ([a] + Lines(p))[1..] == Lines(p);
    assert ([b] + Lines(q))[1..] == Lines(q);
  }

  /** A carriage return before each newline makes no difference. */
  lemma CarriageReturns(c: LineCodec, lines: seq<Bytes>)
    requires BareLines(lines)
    ensures Read(c, JoinedBy(lines, [13, 10])) == Read(c, JoinedBy(lines, [10]))
  {
    TakesJoined(c, START, lines, 1);
  }

  // ---------------------------------------------------------------------
  // When reading succeeds
  // ---------------------------------------------------------------------

  predicate Matters(c: LineCodec, line: Bytes) {
    !c.blank(DropReturn(line))
  }

  /** No line is too long; a line that matters decodes, or breaks off and is the last that matters. */
  ghost predicate Readable(c: LineCodec, lines: seq<Bytes>) {
    forall i :: 0 <= i < |lines| ==> Fine(c, lines, i)
  }

  ghost predicate Fine(c: LineCodec, lines: seq<Bytes>, i: nat)
    requires i < |lines|
  {
    && |lines[i]| < 16777216
    && (Matters(c, lines[i]) ==>
          var d := c.decode(DropReturn(lines[i]));
          d.Whole? || (d.CutShort? && forall j :: i < j < |lines| ==> !Matters(c, lines[j])))
  }

  ghost predicate NothingMatters(c: LineCodec, lines: seq<Bytes>) {
    forall i :: 0 <= i < |lines| ==> !Matters(c, lines[i])
  }

  lemma {:induction false} ReadableFrom(c: LineCodec, r: Reading, lines: seq<Bytes>, n: nat)
    requires r.Going?
    ensures TakeAll(c, r, lines, n).Going? <==> Readable(c, lines) && (r.pending.Some? ==> NothingMatters(c, lines))
    decreases |lines|
  {
    if lines != [] {
      var t := Take(c, r, lines[0], n);
      var rest := lines[1..];
      forall i | 0 <= i < |rest| ensures Fine(c, rest, i) <==> Fine(c, lines, i + 1) {
        assert forall j :: i < j < |rest| ==> rest[j] == lines[j + 1];
        assert forall j :: i + 1 < j < |lines| ==> lines[j] == rest[j - 1];
      }
      assert Readable(c, lines) <==> Fine(c, lines, 0) && Readable(c, rest) by {
        if Fine(c, lines, 0) && Readable(c, rest) {
          forall i | 0 <= i < |lines| ensures Fine(c, lines, i) {
            assert i > 0 ==> Fine(c, rest, i - 1);
          }
        }
        if Readable(c, lines) {
          forall i | 0 <= i < |rest| ensures Fine(c, rest, i) {
            assert Fine(c, lines, i + 1);
          }
        }
      }
      assert NothingMatters(c, lines) <==> !Matters(c, lines[0]) && NothingMatters(c, rest) by {
        if !Matters(c, lines[0]) && NothingMatters(c, rest) {
          forall i | 0 <= i < |lines| ensures !Matters(c, lines[i]) {
            assert i > 0 ==> lines[i] == rest[i - 1];
          }
        }
      }
      if t.Stopped? {
        StoppedStays(c, t, rest, n + 1);
      } else {
        ReadableFrom(c, t, rest, n + 1);
      }
    }
  }

  /** A file reads without error exactly when a broken line, if any, is the last that matters. */
  lemma {:induction false} ReadsIff(c: LineCodec, b: Bytes)
    ensures Read(c, b).Success? <==> Readable(c, Lines(b))
  {
    ReadableFrom(c, START, Lines(b), 1);
  }

  ghost predicate MoreMatters(c: LineCodec, lines: seq<Bytes>, i: nat) {
    exists j :: i <= j < |lines| && Matters(c, lines[j])
  }

  /** Line i breaks off. */
  predicate BreaksOff(c: LineCodec, lines: seq<Bytes>, i: nat) {
    i < |lines| && Matters(c, lines[i]) && c.decode(DropReturn(lines[i])) == CutShort
  }

  /** What an error says of the lines from number n on, when `pending` was broken off before them. */
  ghost predicate Blames(c: LineCodec, lines: seq<Bytes>, n: nat, pending: Option<nat>, e: ReadError) {
    match e
    case TooLong(at) => n <= at < n + |lines| && |lines[at - n]| >= 16777216
    case BadLine(at) =>
      n <= at < n + |lines| && Matters(c, lines[at - n]) && c.decode(DropReturn(lines[at - n])) == Malformed
    case FollowedPartial(at) =>
      || (pending == Some(at) && MoreMatters(c, lines, 0))
      || (n <= at && BreaksOff(c, lines, at - n) && MoreMatters(c, lines, at - n + 1))
  }

  lemma {:induction false} ErrorFrom(c: LineCodec, out: seq<Entry>, pending: Option<nat>, lines: seq<Bytes>, n: nat)
    requires TakeAll(c, Going(out, pending), lines, n).Stopped?
    ensures Blames(c, lines, n, pending, TakeAll(c, Going(out, pending), lines, n).error)
    decreases |lines|
  {
    var r := Take(c, Going(out, pending), lines[0], n);
    if r.Going? {
      ErrorFrom(c, r.out, r.pending, lines[1..], n + 1);
      BlamesEarlier(c, out, pending, lines, n, TakeAll(c, r, lines[1..], n + 1).error);
    } else {
      StoppedStays(c, r, lines[1..], n + 1);
      BlamesFirst(c, out, pending, lines, n);
    }
  }

  lemma BlamesFirst(c: LineCodec, out: seq<Entry>, pending: Option<nat>, lines: seq<Bytes>, n: nat)
    requires lines != [] && Take(c, Going(out, pending), lines[0], n).Stopped?
    ensures Blames(c, lines, n, pending, Take(c, Going(out, pending), lines[0], n).error)
  {
    if Take(c, Going(out, pending), lines[0], n).error.FollowedPartial? {
      assert Matters(c, lines[0]);
    }
  }

  /** What is blamed among the lines after the first is blamed among all of them. */
  lemma BlamesEarlier(c: LineCodec, out: seq<Entry>, pending: Option<nat>, lines: seq<Bytes>, n: nat, e: ReadError)
    requires lines != [] && Take(c, Going(out, pending), lines[0], n).Going?
    requires Blames(c, lines[1..], n + 1, Take(c, Going(out, pending), lines[0], n).pending, e)
    ensures Blames(c, lines, n, pending, e)
  {
    if e.FollowedPartial? {
      if MoreMatters(c, lines[1..], 0) {
        MoreFrom(c, lines);
      }
      if e.at > n && MoreMatters(c, lines[1..], e.at - n) {
        var j :| e.at - n <= j < |lines[1..]| && Matters(c, lines[1..][j]);
        assert Matters(c, lines[j + 1]);
      }
    }
  }

  lemma MoreFrom(c: LineCodec, lines: seq<Bytes>)
    requires lines != [] && MoreMatters(c, lines[1..], 0)
    ensures MoreMatters(c, lines, 1) && MoreMatters(c, lines, 0)
  {
    var j :| 0 <= j < |lines[1..]| && Matters(c, lines[1..][j]);
    assert Matters(c, lines[j + 1]);
  }

  /** An error names a line that is too long, does not decode, or breaks off before another that matters. */
  lemma {:induction false} ErrorNames(c: LineCodec, b: Bytes)
    requires Read(c, b).Failure?
    ensures Blames(c, Lines(b), 1, None, Read(c, b).error)
  {
    ErrorFrom(c, [], None, Lines(b), 1);
  }

  // ---------------------------------------------------------------------
  // Appending, and cutting what was appended
  // ---------------------------------------------------------------------

  /** An append writes one terminated line. */
  function Appended(c: LineCodec, file: Bytes, ev: Event): Bytes {
    file + c.encode(ev) + [NEWLINE]
  }

  function Text(c: LineCodec, evs: seq<Event>): Bytes {
    if evs == [] then [] else c.encode(evs[0]) + [NEWLINE] + Text(c, evs[1..])
  }

  function EntryOf(c: LineCodec, ev: Event): Entry {
    Entry(Pin(ev), c.encode(ev))
  }

  function EntriesOf(c: LineCodec, evs: seq<Event>): (es: seq<Entry>)
    ensures |es| == |evs|
  {
    seq(|evs|, i requires 0 <= i < |evs| => EntryOf(c, evs[i]))
  }

  /** Canonical lines hold no line break, decode to what was written, and break off early when cut. */
  ghost predicate Faithful(c: LineCodec) {
    forall ev :: FaithfulOn(c, ev)
  }

  ghost predicate FaithfulOn(c: LineCodec, ev: Event) {
    var line := c.encode(ev);
    && line != [] && NEWLINE !in line && RETURN !in line && !c.blank(line)
    && c.decode(line) == Whole(Pin(ev))
    && forall t :: [] < t < line ==> !c.blank(t) && c.decode(t) == CutShort
  }

  ghost predicate Short(c: LineCodec, evs: seq<Event>) {
    forall i :: 0 <= i < |evs| ==> |c.encode(evs[i])| < LINE_LIMIT
  }

  /** How many events are whole in the first n bytes, their newline apart. */
  function Survivors(c: LineCodec, evs: seq<Event>, n: nat): (k: nat)
    ensures k <= |evs|
  {
    if evs == [] || n < |c.encode(evs[0])| then 0
    else if n == |c.encode(evs[0])| then 1
    else 1 + Survivors(c, evs[1..], n - |c.encode(evs[0])| - 1)
  }

  /** All but at most the line that was cut. */
  lemma {:induction false} SurvivorsAre(c: LineCodec, evs: seq<Event>, n: nat)
    ensures var k := Survivors(c, evs, n);
      && (k > 0 ==> |Text(c, evs[..k])| <= n + 1)
      && (k < |evs| ==> n + 1 < |Text(c, evs[..k + 1])|)
  {
    if evs != [] {
      var m := |c.encode(evs[0])|;
      assert evs[..1][1..] == [];
      if n > m {
        SurvivorsAre(c, evs[1..], n - m - 1);
        var k := Survivors(c, evs, n);
        assert evs[..k][1..] == evs[1..][..k - 1];
        if k < |evs| {
          assert evs[..k + 1][1..] == evs[1..][..k];
        }
      } else if n == m && |evs| > 1 {
        assert evs[..2][1..] == [evs[1]];
      }
    }
  }

  lemma {:induction false} CutLine(c: LineCodec, ev: Event, n: nat, out: seq<Entry>, at: nat)
    requires Faithful(c) && |c.encode(ev)| < LINE_LIMIT && n <= |c.encode(ev)|
    ensures var r := TakeAll(c, Going(out, None), Lines(c.encode(ev)[..n]), at);
      r.Going? && r.out == if n == |c.encode(ev)| then out + [EntryOf(c, ev)] else out
  {
    var line, t := c.encode(ev), c.encode(ev)[..n];
    assert FaithfulOn(c, ev);
    assert forall i :: 0 <= i < n ==> t[i] == line[i];
    LinesUnterminated(t);
    if n > 0 {
      assert t[n - 1] in line;
      assert DropReturn(t) == t;
      assert n == |line| ==> t == line;
      var r := Take(c, Going(out, None), t, at);
      assert [t][0] == t && [t][1..] == [];
      assert TakeAll(c, Going(out, None), [t], at) == TakeAll(c, r, [], at + 1);
    }
  }

  lemma {:induction false} WholeLine(c: LineCodec, ev: Event, rest: Bytes, out: seq<Entry>, at: nat)
    requires Faithful(c) && |c.encode(ev)| < LINE_LIMIT
    ensures TakeAll(c, Going(out, None), Lines(c.encode(ev) + [NEWLINE] + rest), at) ==
            TakeAll(c, Going(out + [EntryOf(c, ev)], None), Lines(rest), at + 1)
  {
    var line := c.encode(ev);
    assert FaithfulOn(c, ev);
    LinesTerminated(line, rest);
    assert line[|line| - 1] in line;
    assert ([line] + Lines(rest))[1..] == Lines(rest);
  }

  /** From the entries read so far, the first n bytes of the text add the survivors. */
  ghost predicate Survive(c: LineCodec, evs: seq<Event>, n: nat, out: seq<Entry>, at: nat)
    requires n <= |Text(c, evs)|
  {
    var r := TakeAll(c, Going(out, None), Lines(Text(c, evs)[..n]), at);
    r.Going? && r.out == out + EntriesOf(c, evs[..Survivors(c, evs, n)])
  }

  lemma {:induction false} CutInFirst(c: LineCodec, evs: seq<Event>, n: nat, out: seq<Entry>, at: nat)
    requires Faithful(c) && Short(c, evs) && evs != [] && n <= |c.encode(evs[0])|
    ensures n <= |Text(c, evs)| && Survive(c, evs, n, out, at)
  {
    assert Text(c, evs)[..n] == c.encode(evs[0])[..n];
    CutLine(c, evs[0], n, out, at);
    assert EntriesOf(c, evs[..0]) == [] && EntriesOf(c, evs[..1]) == [EntryOf(c, evs[0])];
  }

  lemma {:induction false} CutInRest(c: LineCodec, evs: seq<Event>, m: nat, out: seq<Entry>, at: nat)
    requires Faithful(c) && Short(c, evs) && evs != [] && m <= |Text(c, evs[1..])|
    requires Survive(c, evs[1..], m, out + [EntryOf(c, evs[0])], at + 1)
    ensures var n := |c.encode(evs[0])| + 1 + m; n <= |Text(c, evs)| && Survive(c, evs, n, out, at)
  {
    var line, rest, k := c.encode(evs[0]), Text(c, evs[1..]), Survivors(c, evs[1..], m);
    var n := |line| + 1 + m;
    TextCut(line, rest, m);
    var text := Text(c, evs)[..n];
    assert text == line + [NEWLINE] + rest[..m];
    WholeLine(c, evs[0], rest[..m], out, at);
    assert Survivors(c, evs, n) == k + 1;
    EntriesPast(c, evs, k, out);
  }

  lemma CutNothing(c: LineCodec, out: seq<Entry>, at: nat)
    ensures Survive(c, [], 0, out, at)
  {
    assert out + EntriesOf(c, []) == out;
  }

  lemma RestFits(c: LineCodec, evs: seq<Event>)
    requires Short(c, evs) && evs != []
    ensures Short(c, evs[1..]) && |Text(c, evs)| == |c.encode(evs[0])| + 1 + |Text(c, evs[1..])|
  {
  }

  lemma {:induction false} CutReads(c: LineCodec, evs: seq<Event>, n: nat, out: seq<Entry>, at: nat)
    requires Faithful(c) && Short(c, evs) && n <= |Text(c, evs)|
    ensures Survive(c, evs, n, out, at)
    decreases |evs|
  {
    if evs == [] {
      CutNothing(c, out, at);
    } else if n <= |c.encode(evs[0])| {
      CutInFirst(c, evs, n, out, at);
    } else {
      var m := n - |c.encode(evs[0])| - 1;
      RestFits(c, evs);
      CutReads(c, evs[1..], m, out + [EntryOf(c, evs[0])], at + 1);
      CutInRest(c, evs, m, out, at);
    }
  }

  lemma TextCut(line: Bytes, rest: Bytes, m: nat)
    requires m <= |rest|
    ensures (line + [NEWLINE] + rest)[..|line| + 1 + m] == line + [NEWLINE] + rest[..m]
  {
  }

  lemma EntriesPast(c: LineCodec, evs: seq<Event>, k: nat, out: seq<Entry>)
    requires k < |evs|
    ensures out + EntriesOf(c, evs[..k + 1]) == out + [EntryOf(c, evs[0])] + EntriesOf(c, evs[1..][..k])
  {
    assert EntriesOf(c, evs[..k + 1]) == [EntryOf(c, evs[0])] + EntriesOf(c, evs[1..][..k]);
  }

  /** Any prefix of what appends wrote reads back as a prefix of the appended events. */
  lemma {:induction false} TruncationIsSafe(c: LineCodec, evs: seq<Event>, n: nat)
    requires Faithful(c) && Short(c, evs) && n <= |Text(c, evs)|
    ensures Read(c, Text(c, evs)[..n]) == Success(EntriesOf(c, evs[..Survivors(c, evs, n)]))
  {
    CutReads(c, evs, n, [], 1);
    var es := EntriesOf(c, evs[..Survivors(c, evs, n)]);
    assert [] + es == es;
  }

  lemma {:induction false} AllSurvive(c: LineCodec, evs: seq<Event>)
    ensures Survivors(c, evs, |Text(c, evs)|) == |evs|
  {
    if evs != [] {
      AllSurvive(c, evs[1..]);
    }
  }

  /** Untouched, everything that was appended reads back. */
  lemma {:induction false} AppendsReadBack(c: LineCodec, evs: seq<Event>)
    requires Faithful(c) && Short(c, evs)
    ensures Read(c, Text(c, evs)) == Success(EntriesOf(c, evs))
  {
    TruncationIsSafe(c, evs, |Text(c, evs)|);
    AllSurvive(c, evs);
    assert Text(c, evs)[..|Text(c, evs)|] == Text(c, evs) && evs[..|evs|] == evs;
  }

  lemma {:induction false} TextAppended(c: LineCodec, evs: seq<Event>, ev: Event)
    ensures Text(c, evs + [ev]) == Appended(c, Text(c, evs), ev)
  {
    if evs == [] {
      assert Text(c, [ev]) == c.encode(ev) + [NEWLINE] + Text(c, []);
    } else {
      assert (evs + [ev])[1..] == evs[1..] + [ev];
      TextAppended(c, evs[1..], ev);
    }
  }

  // ---------------------------------------------------------------------
  // Appending after a cut
  // ---------------------------------------------------------------------

  ghost predicate Terminated(b: Bytes) {
    b == [] || b[|b| - 1] == 10
  }

  /** How many lines of the first n bytes have their newline, and what follows them. */
  function Ended(c: LineCodec, evs: seq<Event>, n: nat): (m: nat)
    ensures m <= |evs|
  {
    if evs == [] || n <= |c.encode(evs[0])| then 0 else 1 + Ended(c, evs[1..], n - |c.encode(evs[0])| - 1)
  }

  function Stump(c: LineCodec, evs: seq<Event>, n: nat): Bytes {
    if evs == [] then []
    else if n <= |c.encode(evs[0])| then c.encode(evs[0])[..n]
    else Stump(c, evs[1..], n - |c.encode(evs[0])| - 1)
  }

  /** The first n bytes are m ended lines and a stump. */
  ghost predicate CutText(c: LineCodec, evs: seq<Event>, n: nat, m: nat, stump: Bytes) {
    n <= |Text(c, evs)| && m <= |evs| && Text(c, evs)[..n] == Text(c, evs[..m]) + stump
  }

  /** The stump begins the line after them, which survives if it is whole. */
  ghost predicate CutLeaves(c: LineCodec, evs: seq<Event>, m: nat, stump: Bytes, survivors: nat) {
    && (stump != [] ==> m < |evs| && stump <= c.encode(evs[m]))
    && survivors == if m < |evs| && stump == c.encode(evs[m]) then m + 1 else m
  }

  lemma {:induction false} CutAtFirst(c: LineCodec, evs: seq<Event>, n: nat)
    requires evs != [] && n <= |c.encode(evs[0])|
    ensures CutText(c, evs, n, 0, c.encode(evs[0])[..n])
    ensures CutLeaves(c, evs, 0, c.encode(evs[0])[..n], Survivors(c, evs, n))
  {
    var line := c.encode(evs[0]);
    assert Text(c, evs)[..n] == line[..n] && evs[..0] == [];
    assert Text(c, evs[..0]) + line[..n] == line[..n];
    assert n == |line| ==> line[..n] == line;
  }

  lemma CutPast(line: Bytes, rest: Bytes, front: Bytes, stump: Bytes, k: nat)
    requires k <= |rest| && rest[..k] == front + stump
    ensures (line + [NEWLINE] + rest)[..|line| + 1 + k] == (line + [NEWLINE] + front) + stump
  {
    TextCut(line, rest, k);
  }

  lemma {:induction false} TextOfFirst(c: LineCodec, evs: seq<Event>, m: nat)
    requires m < |evs|
    ensures Text(c, evs[..m + 1]) == c.encode(evs[0]) + [NEWLINE] + Text(c, evs[1..][..m])
  {
    assert evs[..m + 1][1..] == evs[1..][..m];
  }

  lemma {:induction false} StumpPast(c: LineCodec, evs: seq<Event>, n: nat, k: nat)
    requires evs != [] && n == |c.encode(evs[0])| + 1 + k
    ensures Stump(c, evs, n) == Stump(c, evs[1..], k)
    ensures Ended(c, evs, n) == Ended(c, evs[1..], k) + 1
    ensures Survivors(c, evs, n) == Survivors(c, evs[1..], k) + 1
  {
    assert n - |c.encode(evs[0])| - 1 == k;
  }

  lemma CutTextPast(c: LineCodec, evs: seq<Event>, k: nat, m: nat, stump: Bytes)
    requires evs != [] && CutText(c, evs[1..], k, m, stump)
    ensures CutText(c, evs, |c.encode(evs[0])| + 1 + k, m + 1, stump)
  {
    TextOfFirst(c, evs, m);
    CutPast(c.encode(evs[0]), Text(c, evs[1..]), Text(c, evs[1..][..m]), stump, k);
  }

  lemma CutLeavesPast(c: LineCodec, evs: seq<Event>, m: nat, stump: Bytes, survivors: nat)
    requires evs != [] && CutLeaves(c, evs[1..], m, stump, survivors)
    ensures CutLeaves(c, evs, m + 1, stump, survivors + 1)
  {
    assert m < |evs[1..]| ==> evs[m + 1] == evs[1..][m];
  }

  lemma {:induction false} CutIs(c: LineCodec, evs: seq<Event>, n: nat)
    requires n <= |Text(c, evs)|
    ensures CutText(c, evs, n, Ended(c, evs, n), Stump(c, evs, n))
    ensures CutLeaves(c, evs, Ended(c, evs, n), Stump(c, evs, n), Survivors(c, evs, n))
    decreases |evs|
  {
    if evs != [] {
      var line := c.encode(evs[0]);
      if n <= |line| {
        CutAtFirst(c, evs, n);
      } else {
        var k := n - |line| - 1;
        CutIs(c, evs[1..], k);
        StumpPast(c, evs, n, k);
        CutTextPast(c, evs, k, Ended(c, evs[1..], k), Stump(c, evs[1..], k));
        CutLeavesPast(c, evs, Ended(c, evs[1..], k), Stump(c, evs[1..], k), Survivors(c, evs[1..], k));
      }
    }
  }

  lemma {:induction false} TextTerminated(c: LineCodec, evs: seq<Event>)
    ensures Terminated(Text(c, evs))
  {
    if evs != [] {
      TextTerminated(c, evs[1..]);
    }
  }

  /** The bytes end in a newline exactly when nothing follows the last ended line. */
  lemma {:induction false} CutTerminatedIff(c: LineCodec, evs: seq<Event>, n: nat)
    requires Faithful(c) && n <= |Text(c, evs)|
    ensures Terminated(Text(c, evs)[..n]) <==> Stump(c, evs, n) == []
  {
    var m, stump := Ended(c, evs, n), Stump(c, evs, n);
    CutIs(c, evs, n);
    TextTerminated(c, evs[..m]);
    if stump != [] {
      assert FaithfulOn(c, evs[m]);
      assert stump[|stump| - 1] in c.encode(evs[m]);
    }
  }

  /** No beginning of a canonical line, run into a canonical line, is a line of its own. */
  ghost predicate Unspliced(c: LineCodec) {
    forall a, b, t :: [] < t <= c.encode(a) ==> SplicedBroken(c, t + c.encode(b))
  }

  ghost predicate SplicedBroken(c: LineCodec, line: Bytes) {
    !c.blank(line) && !c.decode(line).Whole?
  }

  lemma EntriesFrom(c: LineCodec, evs: seq<Event>, out: seq<Entry>)
    requires evs != []
    ensures out + EntriesOf(c, evs) == out + [EntryOf(c, evs[0])] + EntriesOf(c, evs[1..])
  {
    assert EntriesOf(c, evs) == [EntryOf(c, evs[0])] + EntriesOf(c, evs[1..]);
  }

  lemma {:induction false} FirstTaken(c: LineCodec, evs: seq<Event>, last: Bytes, out: seq<Entry>, at: nat)
    requires Faithful(c) && Short(c, evs) && evs != []
    ensures TakeAll(c, Going(out, None), Lines(Text(c, evs) + last), at) ==
            TakeAll(c, Going(out + [EntryOf(c, evs[0])], None), Lines(Text(c, evs[1..]) + last), at + 1)
  {
    var first, rest := c.encode(evs[0]), Text(c, evs[1..]);
    assert first + [NEWLINE] + rest + last == first + [NEWLINE] + (rest + last);
    WholeLine(c, evs[0], rest + last, out, at);
  }

  /** How reading ended lines and one more line ends. */
  ghost predicate EndsAs(c: LineCodec, evs: seq<Event>, line: Bytes, out: seq<Entry>, at: nat, r: Reading) {
    TakeAll(c, Going(out, None), Lines(Text(c, evs) + (line + [NEWLINE])), at) == r
  }

  lemma TakenAlone(c: LineCodec, line: Bytes, out: seq<Entry>, at: nat)
    requires NEWLINE !in line
    ensures EndsAs(c, [], line, out, at, Take(c, Going(out, None), line, at))
  {
    LinesTerminated(line, []);
    assert [] + (line + [NEWLINE]) == line + [NEWLINE] + [];
    assert ([line] + [])[1..] == [] && Lines([]) == [];
  }

  /** It ends with the last line taken on top of the others. */
  lemma {:induction false} TextThenLine(c: LineCodec, evs: seq<Event>, line: Bytes, out: seq<Entry>, at: nat,
                                        all: seq<Entry>, n: nat)
    requires Faithful(c) && Short(c, evs) && NEWLINE !in line
    requires all == out + EntriesOf(c, evs) && n == at + |evs|
    ensures EndsAs(c, evs, line, out, at, Take(c, Going(all, None), line, n))
    decreases |evs|
  {
    if evs == [] {
      assert all == out;
      TakenAlone(c, line, out, at);
    } else {
      EntriesFrom(c, evs, out);
      TextThenLine(c, evs[1..], line, out + [EntryOf(c, evs[0])], at + 1, all, n);
      FirstTaken(c, evs, line + [NEWLINE], out, at);
    }
  }

  /** What reading yields after a crash and one more append. */
  function AfterCrash(c: LineCodec, evs: seq<Event>, n: nat, ev: Event): Result<seq<Entry>, ReadError>
    requires n <= |Text(c, evs)|
  {
    Read(c, Appended(c, Text(c, evs)[..n], ev))
  }

  lemma {:induction false} StumpGlued(c: LineCodec, evs: seq<Event>, n: nat, ev: Event)
    requires Faithful(c) && Unspliced(c) && n <= |Text(c, evs)| && Stump(c, evs, n) != []
    ensures var glued := Stump(c, evs, n) + c.encode(ev);
      NEWLINE !in glued && DropReturn(glued) == glued && SplicedBroken(c, glued)
  {
    var m, stump := Ended(c, evs, n), Stump(c, evs, n);
    CutIs(c, evs, n);
    assert FaithfulOn(c, evs[m]) && FaithfulOn(c, ev);
    var glued := stump + c.encode(ev);
    assert forall x :: x in stump ==> x in c.encode(evs[m]);
    assert glued[|glued| - 1] in c.encode(ev);
  }

  /** With a stump left the next append continues it: the two are one line, which is no event. */
  lemma {:induction false} StumpSwallowsAppend(c: LineCodec, evs: seq<Event>, n: nat, ev: Event)
    requires Faithful(c) && Unspliced(c) && Short(c, evs) && n <= |Text(c, evs)| && Stump(c, evs, n) != []
    ensures var m, glued := Ended(c, evs, n), Stump(c, evs, n) + c.encode(ev);
      AfterCrash(c, evs, n, ev) ==
        if |glued| >= LINE_LIMIT then Failure(TooLong(m + 1))
        else if c.decode(glued).CutShort? then Success(EntriesOf(c, evs[..m]))
        else Failure(BadLine(m + 1))
  {
    var m, stump := Ended(c, evs, n), Stump(c, evs, n);
    var glued := stump + c.encode(ev);
    CutIs(c, evs, n);
    StumpGlued(c, evs, n, ev);
    assert Appended(c, Text(c, evs[..m]) + stump, ev) == Text(c, evs[..m]) + (glued + [NEWLINE]);
    assert [] + EntriesOf(c, evs[..m]) == EntriesOf(c, evs[..m]);
    TextThenLine(c, evs[..m], glued, [], 1, EntriesOf(c, evs[..m]), m + 1);
  }

  /** After a crash the next append is read back, with all that survived, exactly when the file ends in a newline. */
  lemma {:induction false} AppendReadsBackIff(c: LineCodec, evs: seq<Event>, n: nat, ev: Event)
    requires Faithful(c) && Unspliced(c) && Short(c, evs) && Short(c, [ev]) && n <= |Text(c, evs)|
    ensures AfterCrash(c, evs, n, ev) == Success(EntriesOf(c, evs[..Survivors(c, evs, n)]) + [EntryOf(c, ev)]) <==>
            Terminated(Text(c, evs)[..n])
  {
    var m := Ended(c, evs, n);
    CutIs(c, evs, n);
    CutTerminatedIff(c, evs, n);
    if Stump(c, evs, n) == [] {
      assert m < |evs| ==> FaithfulOn(c, evs[m]);
      assert Text(c, evs)[..n] == Text(c, evs[..m]);
      TextAppended(c, evs[..m], ev);
      forall i | 0 <= i < m + 1 ensures |c.encode((evs[..m] + [ev])[i])| < LINE_LIMIT {
        assert i == m ==> [ev][0] == ev;
      }
      AppendsReadBack(c, evs[..m] + [ev]);
      assert EntriesOf(c, evs[..m] + [ev]) == EntriesOf(c, evs[..m]) + [EntryOf(c, ev)];
    } else {
      StumpSwallowsAppend(c, evs, n, ev);
    }
  }

  /**
   A line whose newline alone was cut still reads back, until the next append: then
   it is lost with it, if the file can be read at all.
   */
  lemma {:induction false} NewlineAlone(c: LineCodec, evs: seq<Event>, k: nat, ev: Event)
    requires Faithful(c) && Unspliced(c) && Short(c, evs) && 0 < k <= |evs|
    ensures var n := |Text(c, evs[..k])| - 1;
      && 0 <= n <= |Text(c, evs)|
      && Read(c, Text(c, evs)[..n]) == Success(EntriesOf(c, evs[..k]))
      && (AfterCrash(c, evs, n, ev).Success? ==> AfterCrash(c, evs, n, ev).value == EntriesOf(c, evs[..k - 1]))
  {
    CutBeforeNewline(c, evs, k);
    var n := |Text(c, evs[..k])| - 1;
    StumpSurvives(c, evs, n, k - 1);
    TruncationIsSafe(c, evs, n);
    StumpSwallowsAppend(c, evs, n, ev);
  }

  /** A stump that is the whole line survives. */
  lemma {:induction false} StumpSurvives(c: LineCodec, evs: seq<Event>, n: nat, m: nat)
    requires Faithful(c) && n <= |Text(c, evs)| && m < |evs| && Ended(c, evs, n) == m && Stump(c, evs, n) == c.encode(evs[m])
    ensures Survivors(c, evs, n) == m + 1 && Stump(c, evs, n) != []
  {
    CutIs(c, evs, n);
    assert FaithfulOn(c, evs[m]);
  }

  lemma {:induction false} CutBeforeNewline(c: LineCodec, evs: seq<Event>, k: nat)
    requires 0 < k <= |evs|
    ensures var n := |Text(c, evs[..k])| - 1;
      0 <= n < |Text(c, evs)| && Ended(c, evs, n) == k - 1 && Stump(c, evs, n) == c.encode(evs[k - 1])
    decreases k
  {
    var line := c.encode(evs[0]);
    assert evs[..k][1..] == evs[1..][..k - 1];
    assert Text(c, evs[..k]) == line + [NEWLINE] + Text(c, evs[1..][..k - 1]);
    if k == 1 {
      assert line[..|line|] == line;
    } else {
      CutBeforeNewline(c, evs[1..], k - 1);
    }
  }

  // ---------------------------------------------------------------------
  // Several files
  // ---------------------------------------------------------------------

  function ReadUpTo(c: LineCodec, files: seq<Bytes>, i: nat): Result<seq<Entry>, ReadError>
    requires i <= |files|
  {
    if i == 0 then Success([])
    else
      match ReadUpTo(c, files, i - 1)
      case Failure(e) => Failure(e)
      case Success(out) =>
        match Read(c, files[i - 1])
        case Failure(e) => Failure(e)
        case Success(es) => Success(out + es)
  }

  lemma {:induction false} ReadStops(c: LineCodec, files: seq<Bytes>, i: nat, j: nat)
    requires i <= j <= |files| && ReadUpTo(c, files, i).Failure?
    ensures ReadUpTo(c, files, j) == ReadUpTo(c, files, i)
  {
    if i < j {
      ReadStops(c, files, i, j - 1);
    }
  }

  lemma {:induction false} AllRead(c: LineCodec, files: seq<Bytes>, n: nat)
    requires n <= |files|
    ensures ReadUpTo(c, files, n).Success? <==> forall i :: 0 <= i < n ==> Read(c, files[i]).Success?
  {
    if n > 0 {
      AllRead(c, files, n - 1);
    }
  }

  /** Reading the log succeeds exactly when every file of it can be read. */
  lemma {:induction false} LogReadsIff(c: LineCodec, files: seq<Bytes>)
    ensures ReadUpTo(c, files, |files|).Success? <==> forall i :: 0 <= i < |files| ==> Readable(c, Lines(files[i]))
  {
    AllRead(c, files, |files|);
    forall i | 0 <= i < |files| ensures Read(c, files[i]).Success? <==> Readable(c, Lines(files[i])) {
      ReadsIff(c, files[i]);
    }
  }

  /** The monthly files, in the order of their names. */
  method ReadLog(c: LineCodec, files: seq<Bytes>) returns (r: Result<seq<Entry>, ReadError>)
    ensures r == ReadUpTo(c, files, |files|)
  {
    var out: seq<Entry> := [];
    for i := 0 to |files|
      invariant ReadUpTo(c, files, i) == Success(out)
    {
      var one := ReadOne(c, files[i]);
      if one.Failure? {
        ReadStops(c, files, i + 1, |files|);
        return one;
      }
      out := out + one.value;
    }
    return Success(out);
  }
}
