/**
 The order replay imposes on log lines: (timestamp, line bytes), identical lines
 collapsed (rebuild.go:27-50, metrics.go:91-97 and :172-176). The physical order
 of the lines, their multiplicity and the way two branches were merged drop out.
 */
module LogOrder {
  import opened Events

  type Bytes = seq<int>

  /** One parsed line: the event it decodes to and its bytes. */
  datatype Entry = Entry(ev: Event, raw: Bytes)

  /** Decoding is a function of the bytes. */
  ghost predicate Coherent(log: seq<Entry>) {
    forall i, j :: 0 <= i < |log| && 0 <= j < |log| && log[i].raw == log[j].raw ==> log[i] == log[j]
  }

  predicate LexLess(a: Bytes, b: Bytes) {
    if b == [] then false
    else if a == [] then true
    else if a[0] != b[0] then a[0] < b[0]
    else LexLess(a[1..], b[1..])
  }

  predicate Before(a: Entry, b: Entry) {
    if a.ev.ts != b.ev.ts then a.ev.ts < b.ev.ts else LexLess(a.raw, b.raw)
  }

  // ---------------------------------------------------------------------
  // Stable sort and collapse
  // ---------------------------------------------------------------------

  function Insert(e: Entry, s: seq<Entry>): seq<Entry> {
    if s == [] then [e]
    else if Before(e, s[|s| - 1]) then Insert(e, s[..|s| - 1]) + [s[|s| - 1]]
    else s + [e]
  }

  /** sort.SliceStable under `Before`. */
  function Sorted(log: seq<Entry>): seq<Entry> {
    if log == [] then [] else Insert(log[|log| - 1], Sorted(log[..|log| - 1]))
  }

  function RawsOf(s: seq<Entry>): set<Bytes> {
    set e | e in s :: e.raw
  }

  /** Keeps the first of every group of byte-identical lines. */
  function Collapsed(s: seq<Entry>): seq<Entry> {
    if s == [] then []
    else
      var c := Collapsed(s[..|s| - 1]);
      if s[|s| - 1].raw in RawsOf(s[..|s| - 1]) then c else c + [s[|s| - 1]]
  }

  /** The entries in the order, and as often, as replay visits them. */
  function Visited(log: seq<Entry>): seq<Entry> {
    Collapsed(Sorted(log))
  }

  function EventsOf(s: seq<Entry>): (evs: seq<Event>)
    ensures |evs| == |s|
  {
    seq(|s|, i requires 0 <= i < |s| => s[i].ev)
  }

  ghost predicate Ascending(s: seq<Entry>) {
    forall i, j :: 0 <= i < j < |s| ==> !Before(s[j], s[i])
  }

  ghost predicate StrictlyAscending(s: seq<Entry>) {
    forall i, j :: 0 <= i < j < |s| ==> Before(s[i], s[j])
  }

  // ---------------------------------------------------------------------
  // `Before` is a strict total order
  // ---------------------------------------------------------------------

  lemma {:induction false} LexTotal(a: Bytes, b: Bytes)
    ensures a == b || LexLess(a, b) || LexLess(b, a)
    ensures !(LexLess(a, b) && LexLess(b, a))
    ensures !LexLess(a, a)
  {
    if a != [] {
      if b != [] && a[0] == b[0] {
        LexTotal(a[1..], b[1..]);
        assert a == [a[0]] + a[1..] && b == [b[0]] + b[1..];
      }
      LexTotal(a[1..], a[1..]);
    }
  }

  lemma {:induction false} LexTransitive(a: Bytes, b: Bytes, c: Bytes)
    requires LexLess(a, b) && LexLess(b, c)
    ensures LexLess(a, c)
  {
    if a != [] && a[0] == b[0] == c[0] {
      LexTransitive(a[1..], b[1..], c[1..]);
    }
  }

  lemma BeforeTotal(a: Entry, b: Entry)
    ensures (a.raw == b.raw && a.ev.ts == b.ev.ts) || Before(a, b) || Before(b, a)
    ensures !(Before(a, b) && Before(b, a))
    ensures !Before(a, a)
  {
    LexTotal(a.raw, b.raw);
    LexTotal(a.raw, a.raw);
  }

  lemma BeforeTransitive(a: Entry, b: Entry, c: Entry)
    requires Before(a, b) && Before(b, c)
    ensures Before(a, c)
  {
    if a.ev.ts == b.ev.ts == c.ev.ts {
      LexTransitive(a.raw, b.raw, c.raw);
    }
  }

  /** !Before(b, a) and !Before(c, b) give !Before(c, a). */
  lemma NotAfterTransitive(a: Entry, b: Entry, c: Entry)
    requires !Before(b, a) && !Before(c, b)
    ensures !Before(c, a)
  {
    BeforeTotal(a, b);
    BeforeTotal(b, c);
    BeforeTotal(a, c);
    if Before(a, b) && Before(b, c) {
      BeforeTransitive(a, b, c);
    }
  }

  // ---------------------------------------------------------------------
  // Sorting and collapsing: order and contents
  // ---------------------------------------------------------------------

  lemma {:induction false} InsertSorts(e: Entry, s: seq<Entry>)
    requires Ascending(s)
    ensures Ascending(Insert(e, s))
    ensures multiset(Insert(e, s)) == multiset(s) + multiset{e}
  {
    if s != [] {
      var last := s[|s| - 1];
      assert s == s[..|s| - 1] + [last];
      BeforeTotal(e, last);
      if Before(e, last) {
        InsertSorts(e, s[..|s| - 1]);
        var t := Insert(e, s[..|s| - 1]);
        forall i | 0 <= i < |t| ensures !Before(last, t[i]) {
          assert t[i] in multiset(t);
          if t[i] != e {
            assert t[i] in s[..|s| - 1];
          }
        }
      } else {
        forall i | 0 <= i < |s| ensures !Before(e, s[i]) {
          if i < |s| - 1 {
            NotAfterTransitive(s[i], last, e);
          }
        }
      }
    }
  }

  lemma {:induction false} SortedSorts(log: seq<Entry>)
    ensures Ascending(Sorted(log))
    ensures multiset(Sorted(log)) == multiset(log)
  {
    if log != [] {
      SortedSorts(log[..|log| - 1]);
      InsertSorts(log[|log| - 1], Sorted(log[..|log| - 1]));
      assert log == log[..|log| - 1] + [log[|log| - 1]];
    }
  }

  lemma {:induction false} CollapsedKeeps(s: seq<Entry>)
    requires Coherent(s) && Ascending(s)
    ensures StrictlyAscending(Collapsed(s))
    ensures forall e :: e in Collapsed(s) <==> e in s
  {
    if s != [] {
      var front, last := s[..|s| - 1], s[|s| - 1];
      assert s == front + [last];
      assert forall i :: 0 <= i < |front| ==> front[i] == s[i];
      CollapsedKeeps(front);
      if last.raw in RawsOf(front) {
        var k :| 0 <= k < |front| && front[k].raw == last.raw;
        assert s[k] == s[|s| - 1];
      } else {
        var c := Collapsed(front);
        forall i | 0 <= i < |c| ensures Before(c[i], last) {
          assert c[i] in front;
          var k :| 0 <= k < |front| && front[k] == c[i];
          assert !Before(s[|s| - 1], s[k]);
          BeforeTotal(c[i], last);
        }
      }
    }
  }

  /** The visiting order is strict, and visits exactly the lines of the log. */
  lemma VisitedOrders(log: seq<Entry>)
    requires Coherent(log)
    ensures StrictlyAscending(Visited(log))
    ensures forall e :: e in Visited(log) <==> e in log
  {
    SortedSorts(log);
    var s := Sorted(log);
    forall e ensures e in s <==> e in log {
      assert e in s <==> e in multiset(s);
      assert e in log <==> e in multiset(log);
    }
    forall i, j | 0 <= i < |s| && 0 <= j < |s| && s[i].raw == s[j].raw ensures s[i] == s[j] {
      assert s[i] in log && s[j] in log;
    }
    CollapsedKeeps(s);
  }

  /** Bytes agree up to a point where the one ends or has the smaller byte. */
  ghost predicate SmallerBytes(a: Bytes, b: Bytes) {
    exists p :: 0 <= p <= |a| && p < |b| && a[..p] == b[..p] && (p < |a| ==> a[p] < b[p])
  }

  lemma {:induction false} LexMeans(a: Bytes, b: Bytes)
    requires LexLess(a, b)
    ensures SmallerBytes(a, b)
  {
    if a == [] || a[0] < b[0] {
      assert a[..0] == b[..0];
    } else {
      LexMeans(a[1..], b[1..]);
      var p :| 0 <= p <= |a[1..]| && p < |b[1..]| && a[1..][..p] == b[1..][..p] && (p < |a[1..]| ==> a[1..][p] < b[1..][p]);
      assert a[..p + 1] == [a[0]] + a[1..][..p] && b[..p + 1] == [b[0]] + b[1..][..p];
    }
  }

  /** Earlier instants first; lines of one instant by their bytes. */
  lemma VisitedAscends(log: seq<Entry>, i: nat, j: nat)
    requires Coherent(log) && i < j < |Visited(log)|
    ensures var a, b := Visited(log)[i], Visited(log)[j];
      a.ev.ts < b.ev.ts || (a.ev.ts == b.ev.ts && SmallerBytes(a.raw, b.raw))
  {
    VisitedOrders(log);
    var a, b := Visited(log)[i], Visited(log)[j];
    assert Before(a, b);
    if a.ev.ts == b.ev.ts {
      LexMeans(a.raw, b.raw);
    }
  }

  // ---------------------------------------------------------------------
  // Only the set of lines matters
  // ---------------------------------------------------------------------

  lemma {:induction false} AscendingUnique(a: seq<Entry>, b: seq<Entry>)
    requires StrictlyAscending(a) && StrictlyAscending(b)
    requires forall e :: e in a <==> e in b
    ensures a == b
    decreases |a|
  {
    assert b == [] || b[0] in a;
    if a == [] {
    } else {
      assert a[0] in b;
      assert b[0] in a;
      HeadIsLeast(a, b[0]);
      HeadIsLeast(b, a[0]);
      BeforeTotal(a[0], b[0]);
      forall e ensures e in a[1..] <==> e in b[1..] {
        if e in a[1..] { TailMember(a, e); assert e in b; NotHead(b, e, a[0]); }
        if e in b[1..] { TailMember(b, e); assert e in a; NotHead(a, e, b[0]); }
      }
      AscendingUnique(a[1..], b[1..]);
      assert a == [a[0]] + a[1..] && b == [b[0]] + b[1..];
    }
  }

  lemma HeadIsLeast(a: seq<Entry>, e: Entry)
    requires StrictlyAscending(a) && e in a
    ensures e == a[0] || Before(a[0], e)
  {
  }

  lemma TailMember(a: seq<Entry>, e: Entry)
    requires a != [] && StrictlyAscending(a) && e in a[1..]
    ensures e in a && e != a[0]
  {
    var k :| 0 <= k < |a[1..]| && a[1..][k] == e;
    assert a[k + 1] == e && Before(a[0], a[k + 1]);
    BeforeTotal(e, e);
  }

  lemma NotHead(a: seq<Entry>, e: Entry, head: Entry)
    requires a != [] && e in a && a[0] == head && e != head
    ensures e in a[1..]
  {
    var k :| 0 <= k < |a| && a[k] == e;
    assert a[1..][k - 1] == e;
  }

  /** Two logs with the same set of lines are visited identically. */
  lemma VisitedDependsOnLineSet(a: seq<Entry>, b: seq<Entry>)
    requires Coherent(a) && Coherent(b)
    requires forall e :: e in a <==> e in b
    ensures Visited(a) == Visited(b)
  {
    VisitedOrders(a);
    VisitedOrders(b);
    AscendingUnique(Visited(a), Visited(b));
  }

  lemma PartsCoherent(a: seq<Entry>, b: seq<Entry>)
    requires Coherent(a + b)
    ensures Coherent(a) && Coherent(b)
  {
    var whole := a + b;
    forall i, j | 0 <= i < |a| && 0 <= j < |a| && a[i].raw == a[j].raw ensures a[i] == a[j] {
      assert whole[i] == a[i] && whole[j] == a[j];
    }
    forall i, j | 0 <= i < |b| && 0 <= j < |b| && b[i].raw == b[j].raw ensures b[i] == b[j] {
      assert whole[|a| + i] == b[i] && whole[|a| + j] == b[j];
    }
  }

  /** Every line of the one list sorts before every line of the other. */
  ghost predicate Precedes(a: seq<Entry>, b: seq<Entry>) {
    forall x, y :: x in a && y in b ==> Before(x, y)
  }

  /** Lines that sort after all the others are visited after them. */
  lemma VisitedAppend(log: seq<Entry>, more: seq<Entry>)
    requires Coherent(log + more) && Precedes(log, more)
    ensures Visited(log + more) == Visited(log) + Visited(more)
  {
    PartsCoherent(log, more);
    VisitedOrders(log + more);
    VisitedOrders(log);
    VisitedOrders(more);
    var v, w := Visited(log), Visited(more);
    forall i, j | 0 <= i < j < |v + w| ensures Before((v + w)[i], (v + w)[j]) {
      if i < |v| && |v| <= j {
        assert v[i] in log && w[j - |v|] in more;
      }
    }
    AscendingUnique(Visited(log + more), v + w);
  }

  // ---------------------------------------------------------------------
  // One more line, wherever it sorts
  // ---------------------------------------------------------------------

  /** How many entries of a visit come before a line. */
  function Cut(s: seq<Entry>, l: Entry): (k: nat)
    ensures k <= |s|
    ensures forall i :: 0 <= i < k ==> Before(s[i], l)
    ensures k < |s| ==> !Before(s[k], l)
  {
    if s == [] || !Before(s[0], l) then 0 else 1 + Cut(s[1..], l)
  }

  /** What is visited before a line, and what after it. */
  function Ahead(s: seq<Entry>, l: Entry): seq<Entry> {
    s[..Cut(s, l)]
  }

  function Behind(s: seq<Entry>, l: Entry): seq<Entry> {
    var k := Cut(s, l);
    if k < |s| && s[k] == l then s[k + 1..] else s[k..]
  }

  lemma {:induction false} CutFinds(s: seq<Entry>, l: Entry)
    requires StrictlyAscending(s)
    ensures l in s <==> Cut(s, l) < |s| && s[Cut(s, l)] == l
  {
    if l in s {
      var i :| 0 <= i < |s| && s[i] == l;
      BeforeTotal(l, l);
      assert Cut(s, l) <= i;
    }
  }

  lemma BehindIsAfter(s: seq<Entry>, l: Entry)
    requires StrictlyAscending(s) && forall x :: x in s && x.raw == l.raw ==> x == l
    ensures StrictlyAscending(Behind(s, l)) && forall x :: x in Behind(s, l) ==> Before(l, x)
  {
    var k, behind := Cut(s, l), Behind(s, l);
    if k < |s| {
      BeforeTotal(s[k], l);
      assert s[k] in s;
    }
    forall i | 0 <= i < |behind| ensures Before(l, behind[i]) {
      if k < |s| && s[k] != l && i > 0 {
        assert Before(s[k], s[k + i]);
        BeforeTransitive(l, s[k], s[k + i]);
      }
    }
  }

  lemma ThreePartsAscend(a: seq<Entry>, l: Entry, b: seq<Entry>)
    requires StrictlyAscending(a) && StrictlyAscending(b)
    requires (forall x :: x in a ==> Before(x, l)) && forall x :: x in b ==> Before(l, x)
    ensures StrictlyAscending(a + [l] + b)
  {
    var whole := a + [l] + b;
    forall i, j | 0 <= i < j < |whole| ensures Before(whole[i], whole[j]) {
      if i < |a| { assert whole[i] in a; }
      if j > |a| { assert whole[j] in b; }
      if i < |a| < j {
        BeforeTransitive(whole[i], l, whole[j]);
      }
    }
  }

  lemma CutParts(s: seq<Entry>, l: Entry)
    requires StrictlyAscending(s)
    ensures s == if l in s then Ahead(s, l) + [l] + Behind(s, l) else Ahead(s, l) + Behind(s, l)
  {
    CutFinds(s, l);
  }

  lemma PartsHold(a: seq<Entry>, l: Entry, b: seq<Entry>, s: seq<Entry>)
    requires s == a + [l] + b || s == a + b
    ensures forall x :: x in a + [l] + b <==> x in s || x == l
  {
  }

  lemma CutSplits(s: seq<Entry>, l: Entry)
    requires StrictlyAscending(s) && forall x :: x in s && x.raw == l.raw ==> x == l
    ensures StrictlyAscending(Ahead(s, l) + [l] + Behind(s, l))
    ensures s == if l in s then Ahead(s, l) + [l] + Behind(s, l) else Ahead(s, l) + Behind(s, l)
    ensures forall x :: x in Ahead(s, l) + [l] + Behind(s, l) <==> x in s || x == l
  {
    CutParts(s, l);
    PartsHold(Ahead(s, l), l, Behind(s, l), s);
    BehindIsAfter(s, l);
    ThreePartsAscend(Ahead(s, l), l, Behind(s, l));
  }

  lemma CutLast(s: seq<Entry>, l: Entry)
    requires forall x :: x in s ==> Before(x, l)
    ensures Ahead(s, l) == s && Behind(s, l) == []
  {
    assert forall i :: 0 <= i < |s| ==> Before(s[i], l);
  }

  /** One more line is visited in its place; a line already there changes nothing. */
  lemma VisitedInsert(log: seq<Entry>, l: Entry)
    requires Coherent(log + [l])
    ensures var v := Visited(log);
      && Visited(log + [l]) == Ahead(v, l) + [l] + Behind(v, l)
      && v == if l in log then Ahead(v, l) + [l] + Behind(v, l) else Ahead(v, l) + Behind(v, l)
  {
    var v := Visited(log);
    PartsCoherent(log, [l]);
    VisitedOrders(log);
    VisitedOrders(log + [l]);
    forall x | x in v && x.raw == l.raw ensures x == l {
      assert x in log;
      var i :| 0 <= i < |log| && log[i] == x;
      assert (log + [l])[i] == x && (log + [l])[|log|] == l;
    }
    CutSplits(v, l);
    AscendingUnique(Visited(log + [l]), Ahead(v, l) + [l] + Behind(v, l));
  }

  lemma PartsAscend(a: seq<Entry>, b: seq<Entry>)
    requires StrictlyAscending(a) && StrictlyAscending(b) && Precedes(a, b)
    ensures StrictlyAscending(a + b)
  {
    forall i, j | 0 <= i < j < |a + b| ensures Before((a + b)[i], (a + b)[j]) {
      if i < |a| <= j {
        assert a[i] in a && b[j - |a|] in b;
      }
    }
  }

  /** More lines that all sort into one gap of the visit are visited there. */
  lemma VisitedGap(log: seq<Entry>, more: seq<Entry>, k: nat)
    requires Coherent(log + more) && k <= |Visited(log)| && more != []
    requires Precedes(Visited(log)[..k], more) && Precedes(more, Visited(log)[k..])
    ensures Visited(log + more) == Visited(log)[..k] + Visited(more) + Visited(log)[k..]
  {
    PartsCoherent(log, more);
    VisitedOrders(log + more);
    VisitedOrders(log);
    VisitedOrders(more);
    var v, w := Visited(log), Visited(more);
    var ahead, behind := v[..k], v[k..];
    assert v == ahead + behind;
    assert StrictlyAscending(ahead) && StrictlyAscending(behind);
    PartsAscend(ahead, w);
    forall x, y | x in ahead + w && y in behind ensures Before(x, y) {
      if x in ahead {
        assert more[0] in more;
        BeforeTransitive(x, more[0], y);
      } else {
        assert x in more;
      }
    }
    PartsAscend(ahead + w, behind);
    forall x ensures x in log + more <==> x in (ahead + w) + behind {
      assert x in v <==> x in ahead || x in behind;
    }
    AscendingUnique(Visited(log + more), (ahead + w) + behind);
  }
}
