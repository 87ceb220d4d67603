/**
 Repeated in-place filtering of one array: every round copies the entries it
 keeps to the front of the very array it reads, and the next round looks at those
 only. Entries are positions of the original array; `keeps(i, l)` says that entry
 i is kept by round l. Rounds run up to 64.
 */
module Compaction {

  type Keeps = (nat, nat) -> bool

  function Kept(keeps: Keeps, s: seq<nat>, l: nat): (r: seq<nat>)
    ensures |r| <= |s|
  {
    if s == [] then []
    else
      var front, last := Kept(keeps, s[..|s| - 1], l), s[|s| - 1];
      if keeps(last, l) then front + [last] else front
  }

  lemma {:induction false} KeptMembers(keeps: Keeps, s: seq<nat>, l: nat)
    ensures forall i :: i in Kept(keeps, s, l) <==> i in s && keeps(i, l)
  {
    if s != [] {
      KeptMembers(keeps, s[..|s| - 1], l);
      assert s == s[..|s| - 1] + [s[|s| - 1]];
    }
  }

  /** The array after the rounds l, l+1, ... when its first n slots are still in play. */
  function Rounds(keeps: Keeps, slots: seq<nat>, n: nat, l: nat): (r: seq<nat>)
    requires n <= |slots| && l <= 65
    ensures |r| == |slots|
    decreases 65 - l
  {
    if n == 0 || l > 64 then slots
    else
      var kept := Kept(keeps, slots[..n], l);
      Rounds(keeps, kept + slots[|kept|..], |kept|, l + 1)
  }

  function Identity(n: nat): (r: seq<nat>)
    ensures |r| == n && forall i :: 0 <= i < n ==> r[i] == i
  {
    seq(n, i => i)
  }

  ghost predicate Increasing(s: seq<nat>) {
    forall i, j :: 0 <= i < j < |s| ==> s[i] < s[j]
  }

  /** Kept entries move towards the front, so a slot only ever sees later entries. */
  lemma {:induction false} KeptMovesForward(keeps: Keeps, s: seq<nat>, l: nat)
    requires Increasing(s)
    ensures Increasing(Kept(keeps, s, l))
    ensures forall p :: 0 <= p < |Kept(keeps, s, l)| ==> Kept(keeps, s, l)[p] >= s[p]
  {
    if s != [] {
      var front, last := s[..|s| - 1], s[|s| - 1];
      KeptMovesForward(keeps, front, l);
      KeptMembers(keeps, front, l);
      var r := Kept(keeps, front, l);
      forall p | 0 <= p < |r| ensures r[p] < last {
        assert r[p] in r && r[p] in front;
      }
    }
  }

  lemma {:induction false} RoundsMoveForward(keeps: Keeps, slots: seq<nat>, n: nat, l: nat)
    requires n <= |slots| && l <= 65 && Increasing(slots[..n])
    ensures forall p :: 0 <= p < |slots| ==> Rounds(keeps, slots, n, l)[p] >= slots[p]
    decreases 65 - l
  {
    if n > 0 && l <= 64 {
      var kept := Kept(keeps, slots[..n], l);
      KeptMovesForward(keeps, slots[..n], l);
      var next := kept + slots[|kept|..];
      assert next[..|kept|] == kept;
      RoundsMoveForward(keeps, next, |kept|, l + 1);
    }
  }

  /** The entries round l keeps form a prefix of the n original ones. */
  ghost predicate PrefixClosed(keeps: Keeps, n: nat, l: nat) {
    forall i, j :: 0 <= i < j < n && keeps(j, l) ==> keeps(i, l)
  }

  lemma {:induction false} KeptNext(keeps: Keeps, n: nat, l: nat)
    ensures var before := Kept(keeps, Identity(n), l);
      Kept(keeps, Identity(n + 1), l) == if keeps(n, l) then before + [n] else before
  {
    assert Identity(n + 1)[..n] == Identity(n);
  }

  lemma {:induction false} KeptOfPrefix(keeps: Keeps, n: nat, l: nat)
    requires PrefixClosed(keeps, n, l)
    ensures Kept(keeps, Identity(n), l) == Identity(|Kept(keeps, Identity(n), l)|)
  {
    if n > 0 {
      KeptOfPrefix(keeps, n - 1, l);
      KeptNext(keeps, n - 1, l);
      if keeps(n - 1, l) {
        KeptWhole(keeps, n - 1, l);
        assert Identity(n - 1) + [n - 1] == Identity(n);
      }
    }
  }

  lemma {:induction false} KeptWhole(keeps: Keeps, n: nat, l: nat)
    requires forall i :: 0 <= i < n ==> keeps(i, l)
    ensures Kept(keeps, Identity(n), l) == Identity(n)
  {
    if n > 0 {
      KeptWhole(keeps, n - 1, l);
      KeptNext(keeps, n - 1, l);
      assert Identity(n - 1) + [n - 1] == Identity(n);
    }
  }

  lemma {:induction false} ClosedRoundsStay(keeps: Keeps, whole: nat, n: nat, l: nat)
    requires n <= whole && l <= 65
    requires forall m :: l <= m <= 64 ==> PrefixClosed(keeps, whole, m)
    ensures Rounds(keeps, Identity(whole), n, l) == Identity(whole)
    decreases 65 - l
  {
    if n > 0 && l <= 64 {
      assert PrefixClosed(keeps, whole, l);
      assert Identity(whole)[..n] == Identity(n);
      KeptOfPrefix(keeps, n, l);
      var kept := Kept(keeps, Identity(n), l);
      assert kept + Identity(whole)[|kept|..] == Identity(whole);
      ClosedRoundsStay(keeps, whole, |kept|, l + 1);
    }
  }

  lemma StayingRound(keeps: Keeps, whole: nat, n: nat, l: nat)
    requires 0 < n <= whole && l <= 64
    requires Rounds(keeps, Identity(whole), n, l) == Identity(whole)
    ensures var kept := Kept(keeps, Identity(n), l);
      && kept == Identity(|kept|)
      && Rounds(keeps, Identity(whole), |kept|, l + 1) == Identity(whole)
  {
    var id := Identity(whole);
    assert id[..n] == Identity(n);
    var kept := Kept(keeps, Identity(n), l);
    KeptMovesForward(keeps, Identity(n), l);
    var next := kept + id[|kept|..];
    assert next[..|kept|] == kept;
    RoundsMoveForward(keeps, next, |kept|, l + 1);
    assert forall p :: 0 <= p < |next| ==> next[p] == id[p];
    assert next == id;
  }

  /** A round keeps nothing an earlier one dropped. */
  ghost predicate Shrinking(keeps: Keeps, n: nat) {
    forall i: nat, l: nat, m: nat :: i < n && l <= m <= 64 && keeps(i, m) ==> keeps(i, l)
  }

  /** Every entry round l keeps is below k. */
  ghost predicate AllBelow(keeps: Keeps, whole: nat, l: nat, k: nat) {
    forall i: nat :: i < whole && keeps(i, l) ==> i < k
  }

  lemma NextRound(keeps: Keeps, whole: nat, n: nat, l: nat) returns (k: nat)
    requires 0 < n <= whole && l <= 64
    requires Rounds(keeps, Identity(whole), n, l) == Identity(whole)
    requires AllBelow(keeps, whole, l, n)
    ensures k <= n && AllBelow(keeps, whole, l, k) && PrefixClosed(keeps, whole, l)
    ensures Rounds(keeps, Identity(whole), k, l + 1) == Identity(whole)
  {
    StayingRound(keeps, whole, n, l);
    KeptMembers(keeps, Identity(n), l);
    var kept := Kept(keeps, Identity(n), l);
    k := |kept|;
    forall i: nat | i < whole ensures keeps(i, l) <==> i < k {
      if i < n {
        assert Identity(n)[i] in Identity(n);
        assert i in kept <==> keeps(i, l);
        if i < k { assert kept[i] in kept; }
      }
    }
  }

  lemma LaterKeepsLess(keeps: Keeps, whole: nat, l: nat, m: nat, k: nat)
    requires Shrinking(keeps, whole) && AllBelow(keeps, whole, l, k) && l <= m <= 64
    ensures AllBelow(keeps, whole, m, k)
  {
    forall i: nat | i < whole && keeps(i, m) ensures i < k {
      assert keeps(i, l);
    }
  }

  lemma {:induction false} StayingRoundsClose(keeps: Keeps, whole: nat, n: nat, l: nat, m: nat)
    requires n <= whole && l <= m <= 64 && Shrinking(keeps, whole)
    requires Rounds(keeps, Identity(whole), n, l) == Identity(whole)
    requires AllBelow(keeps, whole, l, n)
    ensures PrefixClosed(keeps, whole, m)
    decreases 65 - l
  {
    if n == 0 {
      LaterKeepsLess(keeps, whole, l, m, 0);
    } else {
      var k := NextRound(keeps, whole, n, l);
      if l < m {
        LaterKeepsLess(keeps, whole, l, l + 1, k);
        StayingRoundsClose(keeps, whole, k, l + 1, m);
      }
    }
  }

  /** If every entry is still somewhere, each is where it was. */
  lemma {:induction false} FullSlotsStay(s: seq<nat>, n: nat)
    requires n <= |s|
    requires forall p :: 0 <= p < |s| ==> s[p] >= p
    requires forall i: nat :: i < n ==> i in s
    ensures forall p :: 0 <= p < n ==> s[p] == p
  {
    if n > 0 {
      FullSlotsStay(s, n - 1);
      assert n - 1 in s;
      var p :| 0 <= p < |s| && s[p] == n - 1;
      assert p <= n - 1;
    }
  }

  /** If no entry is there twice, each is where it was. */
  lemma {:induction false} DistinctSlotsStay(s: seq<nat>, p: nat)
    requires p <= |s|
    requires forall i :: 0 <= i < |s| ==> i <= s[i] < |s|
    requires forall i, j :: 0 <= i < j < |s| ==> s[i] != s[j]
    ensures forall i :: p <= i < |s| ==> s[i] == i
    decreases |s| - p
  {
    if p < |s| {
      DistinctSlotsStay(s, p + 1);
      var q := s[p];
      assert s[q] == q;
    }
  }
}
