/**
 Display ids (rebuild.go:260-284): every finding gets the
 shortest fingerprint prefix, from 6 hex digits up, that no other finding shares.
 The routine filters the findings it has not settled yet into the caller's own
 backing array, so besides the ids this module says exactly what becomes of the
 list itself.
 */
module DisplayIds {
  import opened Compaction

  predicate Long(fps: seq<string>) {
    forall i :: 0 <= i < |fps| ==> |fps[i]| == 64
  }

  ghost predicate Distinct(fps: seq<string>) {
    forall i, j :: 0 <= i < j < |fps| ==> fps[i] != fps[j]
  }

  predicate Prefixed(fp: string, l: nat, other: string)
    requires l <= |fp| && l <= |other|
  {
    fp[..l] == other[..l]
  }

  /** No other fingerprint of the list starts with the same `l` characters. */
  predicate UniqueAt(fps: seq<string>, i: nat, l: nat)
    requires i < |fps| && Long(fps) && l <= 64
  {
    forall j :: 0 <= j < |fps| && j != i ==> !Prefixed(fps[i], l, fps[j])
  }

  function ShortestFrom(fps: seq<string>, i: nat, l: nat): (r: nat)
    requires i < |fps| && Long(fps) && l <= 64
    ensures l <= r <= 64
    ensures r < 64 ==> UniqueAt(fps, i, r)
    ensures forall m :: l <= m < r ==> !UniqueAt(fps, i, m)
    decreases 64 - l
  {
    if l == 64 || UniqueAt(fps, i, l) then l else ShortestFrom(fps, i, l + 1)
  }

  function Shortest(fps: seq<string>, i: nat): nat
    requires i < |fps| && Long(fps)
  {
    ShortestFrom(fps, i, 6)
  }

  function IdFor(fps: seq<string>, i: nat): string
    requires i < |fps| && Long(fps)
  {
    fps[i][..Shortest(fps, i)]
  }

  lemma UniqueAtGrows(fps: seq<string>, i: nat, l: nat, m: nat)
    requires i < |fps| && Long(fps) && l <= m <= 64
    requires UniqueAt(fps, i, l)
    ensures UniqueAt(fps, i, m)
  {
    forall j | 0 <= j < |fps| && j != i ensures !Prefixed(fps[i], m, fps[j]) {
      assert !Prefixed(fps[i], l, fps[j]);
      assert fps[i][..l] == fps[i][..m][..l] && fps[j][..l] == fps[j][..m][..l];
    }
  }

  /** The assigned id is the shortest prefix of at least six characters nobody shares. */
  lemma ShortestUniquePrefix(fps: seq<string>, i: nat)
    requires i < |fps| && Long(fps) && Distinct(fps)
    ensures 6 <= |IdFor(fps, i)| <= 64 && IdFor(fps, i) <= fps[i]
    ensures UniqueAt(fps, i, |IdFor(fps, i)|)
    ensures forall m :: 6 <= m < |IdFor(fps, i)| ==> !UniqueAt(fps, i, m)
  {
    if Shortest(fps, i) == 64 {
      forall j | 0 <= j < |fps| && j != i ensures !Prefixed(fps[i], 64, fps[j]) {
        assert fps[i][..64] == fps[i] && fps[j][..64] == fps[j];
      }
    }
  }

  // ---------------------------------------------------------------------
  // The rounds
  // ---------------------------------------------------------------------

  /** Still without an id after the round that tried `l` characters. */
  predicate Pending(fps: seq<string>, i: nat, l: nat)
    requires Long(fps)
  {
    i < |fps| && l <= 64 && (l < 6 || !UniqueAt(fps, i, l))
  }

  function Round(fps: seq<string>): Keeps
    requires Long(fps)
  {
    (i: nat, l: nat) => Pending(fps, i, l)
  }

  /** Which original row each slot of the list holds after the call. */
  function Slots(fps: seq<string>): seq<nat>
    requires Long(fps)
  {
    Rounds(Round(fps), Identity(|fps|), |fps|, 6)
  }

  lemma PendingShrinks(fps: seq<string>)
    requires Long(fps)
    ensures Shrinking(Round(fps), |fps|)
  {
    forall i: nat, l: nat, m: nat | i < |fps| && l <= m <= 64 && Round(fps)(i, m) ensures Round(fps)(i, l) {
      if l >= 6 && UniqueAt(fps, i, l) {
        UniqueAtGrows(fps, i, l, m);
      }
    }
  }

  // ---------------------------------------------------------------------
  // When the list survives
  // ---------------------------------------------------------------------

  /** Display ids never get longer along the list. */
  ghost predicate LengthsFall(fps: seq<string>)
    requires Long(fps)
  {
    forall i, j :: 0 <= i < j < |fps| ==> Shortest(fps, i) >= Shortest(fps, j)
  }

  lemma PendingByLength(fps: seq<string>, i: nat, l: nat)
    requires i < |fps| && Long(fps) && Distinct(fps) && 6 <= l <= 64
    ensures Round(fps)(i, l) <==> l < Shortest(fps, i)
  {
    var s := Shortest(fps, i);
    ShortestUniquePrefix(fps, i);
    if s <= l { UniqueAtGrows(fps, i, s, l); }
  }

  /** The call leaves the list as it was exactly when the ids never get longer along it. */
  lemma ListSurvivesIff(fps: seq<string>)
    requires Long(fps) && Distinct(fps)
    ensures Slots(fps) == Identity(|fps|) <==> LengthsFall(fps)
  {
    var n, keeps := |fps|, Round(fps);
    if LengthsFall(fps) {
      forall m | 6 <= m <= 64 ensures PrefixClosed(keeps, n, m) {
        forall i, j | 0 <= i < j < n && keeps(j, m) ensures keeps(i, m) {
          PendingByLength(fps, i, m);
          PendingByLength(fps, j, m);
        }
      }
      ClosedRoundsStay(keeps, n, n, 6);
    }
    if Slots(fps) == Identity(n) {
      PendingShrinks(fps);
      forall i, j | 0 <= i < j < n ensures Shortest(fps, i) >= Shortest(fps, j) {
        var l := Shortest(fps, i);
        StayingRoundsClose(keeps, n, n, 6, l);
        PendingByLength(fps, i, l);
        PendingByLength(fps, j, l);
      }
    }
  }

  /** Otherwise it loses a finding: no harmless reordering hides behind the failure. */
  lemma NothingLostIff(fps: seq<string>)
    requires Long(fps) && Distinct(fps)
    ensures (forall i: nat :: i < |fps| ==> i in Slots(fps)) <==> LengthsFall(fps)
  {
    var s := Slots(fps);
    assert Identity(|fps|)[..|fps|] == Identity(|fps|);
    RoundsMoveForward(Round(fps), Identity(|fps|), |fps|, 6);
    ListSurvivesIff(fps);
    if forall i: nat :: i < |fps| ==> i in s {
      FullSlotsStay(s, |fps|);
      assert s == Identity(|fps|);
    }
    if LengthsFall(fps) {
      forall i: nat | i < |fps| ensures i in s {
        assert s[i] == i;
      }
    }
  }
}
