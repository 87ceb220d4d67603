/**
 What is stored of a list after display ids were assigned through it
 (rebuild.go:255-284, pipeline.go:259-261).
 */
module Storing {
  import opened Findings
  import opened Compaction
  import opened DisplayIds
  import opened AssignIds
  import opened Commands

  // ---------------------------------------------------------------------
  // The list behind the display ids
  // ---------------------------------------------------------------------

  lemma NamedRow(fs: seq<Finding>, i: nat)
    requires i < |fs| && Long(FingerprintsOf(fs))
    ensures Named(fs, i).fp == fs[i].fp && RowOf(Named(fs, i)) == RowOf(fs[i])
  {
  }

  lemma StoredRow(fs: seq<Finding>, j: nat)
    requires Long(FingerprintsOf(fs)) && j < |fs|
    ensures |Stored(fs)| == |fs| && Slots(FingerprintsOf(fs))[j] < |fs|
    ensures Stored(fs)[j] == Named(fs, Slots(FingerprintsOf(fs))[j])
    ensures Stored(fs)[j].fp == fs[Slots(FingerprintsOf(fs))[j]].fp && |Stored(fs)[j].fp| == 64
  {
    SlotsInRange(FingerprintsOf(fs), j);
    assert |FingerprintsOf(fs)[Slots(FingerprintsOf(fs))[j]]| == 64;
  }

  lemma UniqueDistinct(fs: seq<Finding>)
    ensures Unique(fs) <==> Distinct(FingerprintsOf(fs))
  {
    if Distinct(FingerprintsOf(fs)) {
      forall i, j | 0 <= i < j < |fs| ensures fs[i].fp != fs[j].fp {
        assert FingerprintsOf(fs)[i] != FingerprintsOf(fs)[j];
      }
    }
  }

  /** Display ids never get longer along the list, so assigning them through it spares it. */
  ghost predicate Spared(fs: seq<Finding>) {
    Long(FingerprintsOf(fs)) && LengthsFall(FingerprintsOf(fs))
  }

  lemma StoredIsNamed(fs: seq<Finding>)
    requires Unique(fs) && Spared(fs)
    ensures |Stored(fs)| == |fs| && forall k :: 0 <= k < |fs| ==> Stored(fs)[k] == Named(fs, k)
  {
    UniqueDistinct(fs);
    ListSurvivesIff(FingerprintsOf(fs));
  }

  lemma NamedAgrees(fs: seq<Finding>, out: seq<Finding>, fp: string)
    requires Long(FingerprintsOf(fs)) && |out| == |fs| && forall k :: 0 <= k < |fs| ==> out[k] == Named(fs, k)
    ensures Look(out, fp) == Look(fs, fp)
  {
    LatestIsThe(out, fp, Latest(fs, fp));
  }

  /** When the ids never get longer along the list, storing it changes nothing but the ids. */
  lemma StoredSame(fs: seq<Finding>)
    requires Unique(fs) && Spared(fs)
    ensures Unique(Stored(fs)) && FingerprintsOf(Stored(fs)) == FingerprintsOf(fs)
    ensures Agree(Stored(fs), fs)
  {
    StoredIsNamed(fs);
    forall fp ensures Look(Stored(fs), fp) == Look(fs, fp) {
      NamedAgrees(fs, Stored(fs), fp);
    }
  }

  /** Otherwise a finding is lost from the stored list. */
  lemma StoredLoses(fs: seq<Finding>)
    requires Unique(fs) && Long(FingerprintsOf(fs)) && !LengthsFall(FingerprintsOf(fs))
    ensures !Agree(Stored(fs), fs)
  {
    var fps := FingerprintsOf(fs);
    UniqueDistinct(fs);
    NothingLostIff(fps);
    var i: nat :| i < |fs| && i !in Slots(fps);
    LatestIs(fs, i);
    forall k | 0 <= k < |Stored(fs)| ensures Stored(fs)[k].fp != fs[i].fp {
      assert Slots(fps)[k] in Slots(fps);
      SlotsInRange(fps, k);
      assert Stored(fs)[k] == Named(fs, Slots(fps)[k]);
      assert fps[Slots(fps)[k]] != fps[i];
    }
    LatestIsThe(Stored(fs), fs[i].fp, -1);
    assert Look(Stored(fs), fs[i].fp) != Look(fs, fs[i].fp);
  }

  /** Slots that repeat no row are the rows in place. */
  lemma DistinctSlots(fps: seq<string>)
    requires Long(fps) && forall i, j :: 0 <= i < j < |Slots(fps)| ==> Slots(fps)[i] != Slots(fps)[j]
    ensures Slots(fps) == Identity(|fps|)
  {
    var s := Slots(fps);
    assert Identity(|fps|)[..|fps|] == Identity(|fps|);
    RoundsMoveForward(Round(fps), Identity(|fps|), |fps|, 6);
    forall i | 0 <= i < |s| ensures i <= s[i] < |s| {
      SlotsInRange(fps, i);
      assert s[i] >= Identity(|fps|)[i];
    }
    DistinctSlotsStay(s, 0);
  }

  /** A stored list repeats a finding exactly when it lost one. */
  lemma StoredUniqueIff(fs: seq<Finding>)
    requires Unique(fs) && Long(FingerprintsOf(fs))
    ensures Unique(Stored(fs)) <==> LengthsFall(FingerprintsOf(fs))
  {
    var fps, out := FingerprintsOf(fs), Stored(fs);
    var s := Slots(fps);
    UniqueDistinct(fs);
    if LengthsFall(fps) {
      StoredSame(fs);
    }
    if Unique(out) {
      forall i, j | 0 <= i < j < |s| ensures s[i] != s[j] {
        assert out[i].fp != out[j].fp;
      }
      DistinctSlots(fps);
      ListSurvivesIff(fps);
    }
  }

  lemma SlotsInRange(fps: seq<string>, k: nat)
    requires Long(fps) && k < |Slots(fps)|
    ensures Slots(fps)[k] < |fps|
  {
    RoundsInRange(Round(fps), Identity(|fps|), |fps|, 6, |fps|);
  }

  lemma {:induction false} RoundsInRange(keeps: Keeps, slots: seq<nat>, n: nat, l: nat, bound: nat)
    requires n <= |slots| && l <= 65 && forall k :: 0 <= k < |slots| ==> slots[k] < bound
    ensures forall k :: 0 <= k < |slots| ==> Rounds(keeps, slots, n, l)[k] < bound
    decreases 65 - l
  {
    if n > 0 && l <= 64 {
      var kept := Kept(keeps, slots[..n], l);
      KeptMembers(keeps, slots[..n], l);
      forall k | 0 <= k < |kept| ensures kept[k] < bound {
        assert kept[k] in kept;
      }
      RoundsInRange(keeps, kept + slots[|kept|..], |kept|, l + 1, bound);
    }
  }
}
