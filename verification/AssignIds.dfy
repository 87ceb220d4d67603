/**
 The display-id routine on the shared array of finding pointers (rebuild.go:260-284):
 its two loops, which write the ids and compact the array they read.
 */
module AssignIds {
  import opened Findings
  import opened Index
  import opened Compaction
  import opened DisplayIds

  function FingerprintsOf(fs: seq<Finding>): (fps: seq<string>)
    ensures |fps| == |fs|
    ensures forall i :: 0 <= i < |fs| ==> fps[i] == fs[i].fp
  {
    seq(|fs|, i requires 0 <= i < |fs| => fs[i].fp)
  }

  /** How many of the listed rows start with p. */
  function Tally(fps: seq<string>, s: seq<nat>, l: nat, p: string): nat
    requires Long(fps) && l <= 64 && forall k :: 0 <= k < |s| ==> s[k] < |fps|
  {
    if s == [] then 0
    else Tally(fps, s[..|s| - 1], l, p) + if fps[s[|s| - 1]][..l] == p then 1 else 0
  }

  lemma {:induction false} TallyZero(fps: seq<string>, s: seq<nat>, l: nat, p: string)
    requires Long(fps) && l <= 64 && forall k :: 0 <= k < |s| ==> s[k] < |fps|
    ensures Tally(fps, s, l, p) == 0 <==> forall k :: 0 <= k < |s| ==> fps[s[k]][..l] != p
  {
    if s != [] {
      TallyZero(fps, s[..|s| - 1], l, p);
      assert forall k :: 0 <= k < |s| - 1 ==> s[..|s| - 1][k] == s[k];
    }
  }

  lemma {:induction false} TallyOne(fps: seq<string>, s: seq<nat>, l: nat, q: nat)
    requires Long(fps) && l <= 64 && q < |s| && forall k :: 0 <= k < |s| ==> s[k] < |fps|
    ensures Tally(fps, s, l, fps[s[q]][..l]) >= 1
    ensures Tally(fps, s, l, fps[s[q]][..l]) == 1 <==>
      forall k :: 0 <= k < |s| && k != q ==> fps[s[k]][..l] != fps[s[q]][..l]
  {
    var front, p := s[..|s| - 1], fps[s[q]][..l];
    assert forall k :: 0 <= k < |front| ==> front[k] == s[k];
    if q < |s| - 1 {
      TallyOne(fps, front, l, q);
    } else {
      TallyZero(fps, front, l, p);
    }
  }

  /** Counting only the rows still without an id loses no collision. */
  lemma {:induction false} CountingPendingSuffices(fps: seq<string>, s: seq<nat>, l: nat, q: nat)
    requires Long(fps) && 6 <= l <= 64 && q < |s| && Increasing(s)
    requires forall i: nat :: i in s <==> Pending(fps, i, l - 1)
    ensures forall k :: 0 <= k < |s| ==> s[k] < |fps|
    ensures Tally(fps, s, l, fps[s[q]][..l]) == 1 <==> UniqueAt(fps, s[q], l)
  {
    forall k | 0 <= k < |s| ensures s[k] < |fps| {
      assert s[k] in s;
    }
    var i := s[q];
    TallyOne(fps, s, l, q);
    if UniqueAt(fps, i, l) {
      forall k | 0 <= k < |s| && k != q ensures fps[s[k]][..l] != fps[i][..l] {
        assert s[k] != i;
        assert !Prefixed(fps[i], l, fps[s[k]]);
      }
    }
    if forall k :: 0 <= k < |s| && k != q ==> fps[s[k]][..l] != fps[i][..l] {
      forall j | 0 <= j < |fps| && j != i ensures !Prefixed(fps[i], l, fps[j]) {
        if Pending(fps, j, l - 1) {
          assert j in s;
          var k :| 0 <= k < |s| && s[k] == j;
          assert k != q;
        } else {
          UniqueAtGrows(fps, j, l - 1, l);
          assert !Prefixed(fps[j], l, fps[i]);
        }
      }
    }
  }

  /** The round that first separates a row from the rest gives it its id. */
  lemma ShortestAt(fps: seq<string>, i: nat, l: nat)
    requires Long(fps) && i < |fps| && 6 <= l <= 64
    requires Pending(fps, i, l - 1) && UniqueAt(fps, i, l)
    ensures Shortest(fps, i) == l
  {
    var r := Shortest(fps, i);
    if r < l {
      UniqueAtGrows(fps, i, r, l - 1);
    }
  }

  /** A row sharing all its 64 characters keeps the full fingerprint. */
  lemma NeverUnique(fps: seq<string>, i: nat)
    requires Long(fps) && Pending(fps, i, 64)
    ensures IdFor(fps, i) == fps[i]
  {
    var r := Shortest(fps, i);
    if r < 64 {
      UniqueAtGrows(fps, i, r, 64);
    }
  }

  function Count(counts: map<string, nat>, p: string): nat {
    if p in counts then counts[p] else 0
  }

  /** Slot k holds the cell of row slots[k]. */
  ghost predicate Arranged(content: seq<FindingRef>, cells: seq<FindingRef>, slots: seq<nat>) {
    && |slots| == |content| == |cells|
    && forall k :: 0 <= k < |content| ==> slots[k] < |cells| && content[k] == cells[slots[k]]
  }

  /** Copying the content of slot i to slot k. */
  lemma Pulled(content: seq<FindingRef>, cells: seq<FindingRef>, slots: seq<nat>, k: nat, i: nat)
    requires Arranged(content, cells, slots) && k < |content| && i < |content|
    ensures slots[i] < |cells| && content[i] == cells[slots[i]]
    ensures Arranged(content[k := content[i]], cells, slots[k := slots[i]])
  {
  }

  /** The rows a round keeps: those whose prefix was counted more than once. */
  function ByCount(counts: map<string, nat>, fps: seq<string>): Keeps {
    (r: nat, l: nat) => r < |fps| && l <= |fps[r]| && Count(counts, fps[r][..l]) != 1
  }

  method CountPrefixes(a: array<FindingRef>, n: nat, l: nat, ghost fps: seq<string>, ghost rows: seq<nat>)
    returns (counts: map<string, nat>)
    requires n <= a.Length && n == |rows| && l <= 64 && Long(fps)
    requires forall i :: 0 <= i < n ==> rows[i] < |fps| && a[i].val.fp == fps[rows[i]]
    ensures forall p :: Count(counts, p) == Tally(fps, rows, l, p)
  {
    counts := map[];
    for i := 0 to n
      invariant forall p :: Count(counts, p) == Tally(fps, rows[..i], l, p)
    {
      var p := a[i].val.fp[..l];
      assert rows[..i + 1][..i] == rows[..i];
      counts := counts[p := Count(counts, p) + 1];
    }
    assert rows[..n] == rows;
  }

  /** Looking at one row: name it, or move its cell to the front. */
  method Visit(a: array<FindingRef>, i: nat, k: nat, l: nat, counts: map<string, nat>,
               ghost cells: seq<FindingRef>, ghost cur: seq<Finding>, ghost now: seq<nat>)
    returns (moved: bool)
    requires i < a.Length && k < a.Length && DistinctCells(cells)
    requires Arranged(a[..], cells, now) && Carry(cells, cur)
    requires l <= |cur[now[i]].fp|
    modifies a, a[i]
    ensures moved <==> Count(counts, cur[now[i]].fp[..l]) != 1
    ensures Arranged(a[..], cells, if moved then now[k := now[i]] else now)
    ensures Carry(cells, if moved then cur else cur[now[i] := Labelled(cur[now[i]], l)])
  {
    var f := a[i];
    var p := f.val.fp[..l];
    assert f.val == cur[now[i]];
    moved := Count(counts, p) != 1;
    if moved {
      a[k] := f;
      assert a[..] == old(a[..])[k := f];
      Pulled(old(a[..]), cells, now, k, i);
    } else {
      f.val := f.val.(displayId := p);
    }
  }

  function Labelled(f: Finding, l: nat): Finding {
    if l <= |f.fp| then f.(displayId := f.fp[..l]) else f
  }

  // ---------------------------------------------------------------------
  // One round, slot by slot
  // ---------------------------------------------------------------------

  /** The rows kept after looking at the first i slots. */
  function KeptBy(keeps: Keeps, slots: seq<nat>, l: nat, i: nat): (r: seq<nat>)
    requires i <= |slots|
    ensures |r| <= i
  {
    if i == 0 then []
    else if keeps(slots[i - 1], l) then KeptBy(keeps, slots, l, i - 1) + [slots[i - 1]]
    else KeptBy(keeps, slots, l, i - 1)
  }

  /** The slots by then. */
  function Now(keeps: Keeps, slots: seq<nat>, l: nat, i: nat): seq<nat>
    requires i <= |slots|
  {
    KeptBy(keeps, slots, l, i) + slots[|KeptBy(keeps, slots, l, i)|..]
  }

  /** The rows by then: those dropped carry their prefix. */
  function Cur(keeps: Keeps, vals: seq<Finding>, slots: seq<nat>, l: nat, i: nat): (r: seq<Finding>)
    requires i <= |slots|
    ensures |r| == |vals|
  {
    if i == 0 then vals
    else
      var r, row := Cur(keeps, vals, slots, l, i - 1), slots[i - 1];
      if keeps(row, l) || row >= |vals| then r else r[row := Labelled(r[row], l)]
  }

  lemma {:induction false} KeptByIsKept(keeps: Keeps, slots: seq<nat>, l: nat, i: nat)
    requires i <= |slots|
    ensures KeptBy(keeps, slots, l, i) == Kept(keeps, slots[..i], l)
  {
    if i > 0 {
      KeptByIsKept(keeps, slots, l, i - 1);
      assert slots[..i][..i - 1] == slots[..i - 1];
    }
  }

  lemma NowStep(keeps: Keeps, slots: seq<nat>, l: nat, i: nat)
    requires i < |slots|
    ensures var k := |KeptBy(keeps, slots, l, i)|;
      && |Now(keeps, slots, l, i)| == |slots|
      && Now(keeps, slots, l, i)[i] == slots[i]
      && Now(keeps, slots, l, i + 1) ==
         if keeps(slots[i], l) then Now(keeps, slots, l, i)[k := slots[i]] else Now(keeps, slots, l, i)
  {
  }

  /** What one round does to row r. */
  lemma {:induction false} CurAt(keeps: Keeps, vals: seq<Finding>, slots: seq<nat>, l: nat, i: nat, r: nat)
    requires i <= |slots| && r < |vals|
    ensures Cur(keeps, vals, slots, l, i)[r] == if r in slots[..i] && !keeps(r, l) then Labelled(vals[r], l) else vals[r]
  {
    if i > 0 {
      CurAt(keeps, vals, slots, l, i - 1, r);
      assert slots[..i] == slots[..i - 1] + [slots[i - 1]];
    }
  }

  /** The heap when a round has looked at the first i slots. */
  ghost predicate Reflects(a: array<FindingRef>, cells: seq<FindingRef>, keeps: Keeps,
                           vals: seq<Finding>, slots: seq<nat>, l: nat, i: nat)
    requires i <= |slots|
    reads a, cells
  {
    Arranged(a[..], cells, Now(keeps, slots, l, i)) && Carry(cells, Cur(keeps, vals, slots, l, i))
  }

  method Advance(a: array<FindingRef>, i: nat, k: nat, l: nat, counts: map<string, nat>,
                 ghost cells: seq<FindingRef>, ghost vals: seq<Finding>, ghost slots: seq<nat>)
    returns (k': nat)
    requires i < a.Length == |vals| == |slots| && l <= 64 && DistinctCells(cells) && Long(FingerprintsOf(vals))
    requires k == |KeptBy(ByCount(counts, FingerprintsOf(vals)), slots, l, i)|
    requires Reflects(a, cells, ByCount(counts, FingerprintsOf(vals)), vals, slots, l, i)
    modifies a, cells
    ensures k' == |KeptBy(ByCount(counts, FingerprintsOf(vals)), slots, l, i + 1)|
    ensures Reflects(a, cells, ByCount(counts, FingerprintsOf(vals)), vals, slots, l, i + 1)
  {
    ghost var keeps := ByCount(counts, FingerprintsOf(vals));
    ghost var now, cur := Now(keeps, slots, l, i), Cur(keeps, vals, slots, l, i);
    NowStep(keeps, slots, l, i);
    assert a[i] == cells[slots[i]];
    CurAt(keeps, vals, slots, l, i, slots[i]);
    assert cur[slots[i]].fp == FingerprintsOf(vals)[slots[i]];
    var moved := Visit(a, i, k, l, counts, cells, cur, now);
    k' := if moved then k + 1 else k;
  }

  /** One length: name the rows whose prefix occurs once, pull the others to the front. */
  method OneRound(a: array<FindingRef>, n: nat, l: nat, counts: map<string, nat>,
                  ghost cells: seq<FindingRef>, ghost vals: seq<Finding>, ghost slots: seq<nat>)
    returns (k: nat)
    requires n <= a.Length == |vals| == |slots| && l <= 64 && DistinctCells(cells) && Long(FingerprintsOf(vals))
    requires Arranged(a[..], cells, slots) && Carry(cells, vals)
    modifies a, cells
    ensures k == |KeptBy(ByCount(counts, FingerprintsOf(vals)), slots, l, n)|
    ensures Reflects(a, cells, ByCount(counts, FingerprintsOf(vals)), vals, slots, l, n)
  {
    k := 0;
    assert Now(ByCount(counts, FingerprintsOf(vals)), slots, l, 0) == slots;
    for i := 0 to n
      invariant k == |KeptBy(ByCount(counts, FingerprintsOf(vals)), slots, l, i)|
      invariant Reflects(a, cells, ByCount(counts, FingerprintsOf(vals)), vals, slots, l, i)
    {
      k := Advance(a, i, k, l, counts, cells, vals, slots);
    }
  }

  // ---------------------------------------------------------------------
  // All rounds
  // ---------------------------------------------------------------------

  function Named(vals: seq<Finding>, i: nat): Finding
    requires i < |vals| && Long(FingerprintsOf(vals))
  {
    vals[i].(displayId := IdFor(FingerprintsOf(vals), i))
  }

  /** Before the round of length l: the first n slots hold the pending rows, in order; all others are named. */
  ghost predicate AtRound(vals: seq<Finding>, slots: seq<nat>, cur: seq<Finding>, n: nat, l: nat) {
    && n <= |slots| == |vals| == |cur| && 6 <= l <= 65 && Long(FingerprintsOf(vals))
    && (forall q :: 0 <= q < |slots| ==> slots[q] < |vals|)
    && Increasing(slots[..n])
    && (forall i: nat :: i in slots[..n] <==> Pending(FingerprintsOf(vals), i, l - 1))
    && (forall i: nat :: i < |vals| ==>
          cur[i] == if Pending(FingerprintsOf(vals), i, l - 1) then vals[i] else Named(vals, i))
    && Rounds(Round(FingerprintsOf(vals)), slots, n, l) == Slots(FingerprintsOf(vals))
  }

  /** The fingerprints never change. */
  lemma AtRoundFingerprints(vals: seq<Finding>, slots: seq<nat>, cur: seq<Finding>, n: nat, l: nat)
    requires AtRound(vals, slots, cur, n, l)
    ensures FingerprintsOf(cur) == FingerprintsOf(vals)
  {
  }

  /** On the pending rows, counting and uniqueness decide alike. */
  lemma CountDecides(counts: map<string, nat>, fps: seq<string>, rows: seq<nat>, l: nat)
    requires Long(fps) && 6 <= l <= 64 && Increasing(rows)
    requires forall i: nat :: i in rows <==> Pending(fps, i, l - 1)
    requires forall k :: 0 <= k < |rows| ==> rows[k] < |fps|
    requires forall p :: Count(counts, p) == Tally(fps, rows, l, p)
    ensures forall k :: 0 <= k < |rows| ==> (ByCount(counts, fps)(rows[k], l) <==> Round(fps)(rows[k], l))
  {
    forall k | 0 <= k < |rows| ensures ByCount(counts, fps)(rows[k], l) <==> Round(fps)(rows[k], l) {
      CountingPendingSuffices(fps, rows, l, k);
    }
  }

  lemma {:induction false} KeptAlike(a: Keeps, b: Keeps, rows: seq<nat>, l: nat)
    requires forall k :: 0 <= k < |rows| ==> (a(rows[k], l) <==> b(rows[k], l))
    ensures Kept(a, rows, l) == Kept(b, rows, l)
  {
    if rows != [] {
      var front := rows[..|rows| - 1];
      assert forall k :: 0 <= k < |front| ==> front[k] == rows[k];
      KeptAlike(a, b, front, l);
    }
  }

  lemma {:induction false} NextRows(vals: seq<Finding>, slots: seq<nat>, cur: seq<Finding>, n: nat, l: nat, counts: map<string, nat>)
    requires AtRound(vals, slots, cur, n, l) && l <= 64
    requires forall p :: Count(counts, p) == Tally(FingerprintsOf(vals), slots[..n], l, p)
    ensures KeptBy(ByCount(counts, FingerprintsOf(vals)), slots, l, n) ==
            Kept(Round(FingerprintsOf(vals)), slots[..n], l)
    ensures forall i: nat :: i < |vals| ==>
      Cur(ByCount(counts, FingerprintsOf(vals)), cur, slots, l, n)[i] ==
        if Pending(FingerprintsOf(vals), i, l) then vals[i] else Named(vals, i)
  {
    var fps, rows := FingerprintsOf(vals), slots[..n];
    var keeps := ByCount(counts, fps);
    CountDecides(counts, fps, rows, l);
    KeptByIsKept(keeps, slots, l, n);
    KeptAlike(keeps, Round(fps), rows, l);
    forall i: nat | i < |vals|
      ensures Cur(keeps, cur, slots, l, n)[i] == if Pending(fps, i, l) then vals[i] else Named(vals, i)
    {
      CurAt(keeps, cur, slots, l, n, i);
      NameOnce(counts, vals, rows, l, i);
    }
  }

  /** A row pending before the round is named by it exactly when the round separates it. */
  lemma NameOnce(counts: map<string, nat>, vals: seq<Finding>, rows: seq<nat>, l: nat, i: nat)
    requires Long(FingerprintsOf(vals)) && 6 <= l <= 64 && i < |vals|
    requires forall j: nat :: j in rows <==> Pending(FingerprintsOf(vals), j, l - 1)
    requires forall k :: 0 <= k < |rows| ==>
      (ByCount(counts, FingerprintsOf(vals))(rows[k], l) <==> Round(FingerprintsOf(vals))(rows[k], l))
    ensures i in rows ==> (ByCount(counts, FingerprintsOf(vals))(i, l) <==> Pending(FingerprintsOf(vals), i, l))
    ensures i in rows && !Pending(FingerprintsOf(vals), i, l) ==> Labelled(vals[i], l) == Named(vals, i)
    ensures i !in rows ==> !Pending(FingerprintsOf(vals), i, l)
  {
    var fps := FingerprintsOf(vals);
    if i in rows {
      var k :| 0 <= k < |rows| && rows[k] == i;
      assert Round(fps)(rows[k], l) <==> Pending(fps, i, l);
      if !Pending(fps, i, l) {
        ShortestAt(fps, i, l);
      }
    } else {
      assert !Pending(fps, i, l - 1);
      UniqueAtGrows(fps, i, l - 1, l);
    }
  }

  lemma NextRound(vals: seq<Finding>, slots: seq<nat>, cur: seq<Finding>, n: nat, l: nat, counts: map<string, nat>)
    requires AtRound(vals, slots, cur, n, l) && l <= 64 && 0 < n
    requires forall p :: Count(counts, p) == Tally(FingerprintsOf(vals), slots[..n], l, p)
    ensures var keeps := ByCount(counts, FingerprintsOf(vals));
      AtRound(vals, Now(keeps, slots, l, n), Cur(keeps, cur, slots, l, n), |KeptBy(keeps, slots, l, n)|, l + 1)
  {
    var fps, keeps := FingerprintsOf(vals), ByCount(counts, FingerprintsOf(vals));
    var kept := Kept(Round(fps), slots[..n], l);
    NextRows(vals, slots, cur, n, l, counts);
    KeptMovesForward(Round(fps), slots[..n], l);
    KeptMembers(Round(fps), slots[..n], l);
    var next := Now(keeps, slots, l, n);
    assert next[..|kept|] == kept;
    forall q | 0 <= q < |next| ensures next[q] < |vals| {
      if q < |kept| { assert kept[q] in kept; }
    }
    forall i: nat ensures i in kept <==> Pending(fps, i, l) {
      assert i in kept <==> i in slots[..n] && Round(fps)(i, l);
      if Pending(fps, i, l) && l > 6 && UniqueAt(fps, i, l - 1) {
        UniqueAtGrows(fps, i, l - 1, l);
      }
    }
  }

  /** At the outset nothing is named and everything is where it was. */
  lemma FirstRound(vals: seq<Finding>)
    requires Long(FingerprintsOf(vals))
    ensures AtRound(vals, Identity(|vals|), vals, |vals|, 6)
  {
    var slots := Identity(|vals|);
    assert slots[..|vals|] == slots;
    forall i: nat ensures i in slots <==> Pending(FingerprintsOf(vals), i, 5) {
      if i < |vals| { assert slots[i] == i; }
    }
  }

  const NEVER: Keeps := (i: nat, l: nat) => false

  /** Rows that share all their characters with another row keep the whole fingerprint. */
  lemma {:induction false} LastRound(vals: seq<Finding>, slots: seq<nat>, cur: seq<Finding>, n: nat, l: nat)
    requires AtRound(vals, slots, cur, n, l) && (n == 0 || l == 65)
    ensures forall i: nat :: i < |vals| ==> Cur(NEVER, cur, slots, 64, n)[i] == Named(vals, i)
  {
    var fps := FingerprintsOf(vals);
    forall i: nat | i < |vals| ensures Cur(NEVER, cur, slots, 64, n)[i] == Named(vals, i) {
      CurAt(NEVER, cur, slots, 64, n, i);
      assert i in slots[..n] <==> Pending(fps, i, l - 1);
      if Pending(fps, i, l - 1) {
        NeverUnique(fps, i);
        assert fps[i][..64] == fps[i];
      }
    }
  }

  method LabelOne(a: array<FindingRef>, i: nat, ghost cells: seq<FindingRef>, ghost cur: seq<Finding>, ghost slots: seq<nat>)
    requires i < a.Length && DistinctCells(cells) && Arranged(a[..], cells, slots)
    requires Carry(cells, cur) && |cur[slots[i]].fp| == 64
    modifies cells
    ensures Arranged(a[..], cells, slots)
    ensures Carry(cells, cur[slots[i] := Labelled(cur[slots[i]], 64)])
  {
    var f := a[i];
    assert f == cells[slots[i]];
    assert f.val.fp[..64] == f.val.fp;
    f.val := f.val.(displayId := f.val.fp);
  }

  /** The heap when the last loop has labelled the rows of the first i slots. */
  ghost predicate Labelling(a: array<FindingRef>, cells: seq<FindingRef>, cur: seq<Finding>, slots: seq<nat>, i: nat)
    reads a, cells
  {
    i <= |slots| && Arranged(a[..], cells, slots) && Carry(cells, Cur(NEVER, cur, slots, 64, i))
  }

  lemma {:induction false} WholeRow(cur: seq<Finding>, slots: seq<nat>, i: nat)
    requires i < |slots| && slots[i] < |cur| && Long(FingerprintsOf(cur))
    ensures |Cur(NEVER, cur, slots, 64, i)[slots[i]].fp| == 64
  {
    CurAt(NEVER, cur, slots, 64, i, slots[i]);
    assert cur[slots[i]].fp == FingerprintsOf(cur)[slots[i]];
  }

  method LabelNext(a: array<FindingRef>, i: nat, ghost cells: seq<FindingRef>, ghost cur: seq<Finding>, ghost slots: seq<nat>)
    requires i < a.Length && DistinctCells(cells) && |cells| == |cur| && Long(FingerprintsOf(cur))
    requires Labelling(a, cells, cur, slots, i)
    modifies cells
    ensures Labelling(a, cells, cur, slots, i + 1)
  {
    assert slots[i] < |cells|;
    WholeRow(cur, slots, i);
    LabelOne(a, i, cells, Cur(NEVER, cur, slots, 64, i), slots);
  }

  method LabelRest(a: array<FindingRef>, n: nat, ghost cells: seq<FindingRef>, ghost cur: seq<Finding>, ghost slots: seq<nat>)
    requires n <= a.Length && DistinctCells(cells) && |cells| == |cur| && Long(FingerprintsOf(cur))
    requires Labelling(a, cells, cur, slots, 0)
    modifies cells
    ensures Labelling(a, cells, cur, slots, n)
  {
    var i := 0;
    while i < n
      invariant i <= n && Labelling(a, cells, cur, slots, i)
      modifies cells
    {
      LabelNext(a, i, cells, cur, slots);
      i := i + 1;
    }
  }

  /** The heap is as the round says. */
  ghost predicate Settling(a: array<FindingRef>, cells: seq<FindingRef>, vals: seq<Finding>,
                           slots: seq<nat>, cur: seq<Finding>, n: nat, l: nat)
    reads a, cells
  {
    AtRound(vals, slots, cur, n, l) && Arranged(a[..], cells, slots) && Carry(cells, cur)
  }

  /** Count the prefixes of one length, then name and pull. */
  method SettleLength(a: array<FindingRef>, n: nat, length: nat, ghost cells: seq<FindingRef>,
                      ghost vals: seq<Finding>, ghost cur: seq<Finding>, ghost slots: seq<nat>)
    returns (left: nat, ghost next: seq<Finding>, ghost now: seq<nat>)
    requires 0 < n && length <= 64 && DistinctCells(cells)
    requires Settling(a, cells, vals, slots, cur, n, length)
    modifies a, cells
    ensures Settling(a, cells, vals, now, next, left, length + 1)
  {
    AtRoundFingerprints(vals, slots, cur, n, length);
    ghost var fps, rows: seq<nat> := FingerprintsOf(vals), slots[..n];
    forall i | 0 <= i < n ensures rows[i] < |fps| && a[i].val.fp == fps[rows[i]] {
      assert a[i] == a[..][i] == cells[slots[i]];
      assert cur[slots[i]].fp == FingerprintsOf(cur)[slots[i]];
    }
    var counts := CountPrefixes(a, n, length, fps, rows);
    NextRound(vals, slots, cur, n, length, counts);
    ghost var keeps := ByCount(counts, fps);
    left := OneRound(a, n, length, counts, cells, cur, slots);
    now, next := Now(keeps, slots, length, n), Cur(keeps, cur, slots, length, n);
  }

  /** The loop over the lengths. */
  method Settle(a: array<FindingRef>, ghost cells: seq<FindingRef>, ghost vals: seq<Finding>)
    returns (n: nat, ghost length: nat, ghost cur: seq<Finding>, ghost slots: seq<nat>)
    requires DistinctCells(cells) && Long(FingerprintsOf(vals))
    requires Arranged(a[..], cells, Identity(|vals|)) && Carry(cells, vals)
    modifies a, cells
    ensures Settling(a, cells, vals, slots, cur, n, length) && (n == 0 || length == 65)
  {
    slots, cur := Identity(a.Length), vals;
    var l: nat := 6;
    n := a.Length;
    FirstRound(vals);
    while n > 0 && l <= 64
      invariant l <= 65
      invariant Settling(a, cells, vals, slots, cur, n, l)
      decreases 65 - l
    {
      n, cur, slots := SettleLength(a, n, l, cells, vals, cur, slots);
      l := l + 1;
    }
    length := l;
  }

  method AssignDisplayIds(a: array<FindingRef>)
    requires DistinctCells(a[..])
    requires Long(FingerprintsOf(Values(a[..])))
    modifies a, a[..]
    ensures var vals := old(Values(a[..]));
      && (forall i :: 0 <= i < a.Length ==> old(a[..])[i].val == Named(vals, i))
      && Arranged(a[..], old(a[..]), Slots(FingerprintsOf(vals)))
  {
    ghost var cells, vals := a[..], Values(a[..]);
    var n, length, cur, slots := Settle(a, cells, vals);
    Finish(a, n, length, cells, vals, cur, slots);
  }

  method Finish(a: array<FindingRef>, n: nat, ghost length: nat, ghost cells: seq<FindingRef>,
                ghost vals: seq<Finding>, ghost cur: seq<Finding>, ghost slots: seq<nat>)
    requires DistinctCells(cells) && (n == 0 || length == 65)
    requires Settling(a, cells, vals, slots, cur, n, length)
    modifies cells
    ensures Long(FingerprintsOf(vals)) && |cells| == |vals|
    ensures forall i :: 0 <= i < |cells| ==> cells[i].val == Named(vals, i)
    ensures Arranged(a[..], cells, Slots(FingerprintsOf(vals)))
  {
    assert slots == Slots(FingerprintsOf(vals)) by { RoundsOver(vals, slots, cur, n, length); }
    assert Long(FingerprintsOf(cur)) by { AtRoundFingerprints(vals, slots, cur, n, length); }
    assert forall i: nat :: i < |vals| ==> Cur(NEVER, cur, slots, 64, n)[i] == Named(vals, i) by {
      LastRound(vals, slots, cur, n, length);
    }
    LabelRest(a, n, cells, cur, slots);
  }

  lemma RoundsOver(vals: seq<Finding>, slots: seq<nat>, cur: seq<Finding>, n: nat, l: nat)
    requires AtRound(vals, slots, cur, n, l) && (n == 0 || l == 65)
    ensures slots == Slots(FingerprintsOf(vals))
  {
  }
}
