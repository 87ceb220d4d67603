/**
 Three fingerprints whose list loses the first to the display ids, and what becomes
 of the copy it is left with.
 */
module Counterexamples {
  import opened Events
  import opened Findings
  import opened Compaction
  import opened DisplayIds
  import opened AssignIds
  import opened Delta
  import opened Commands
  import opened Storing
  import opened Departures

  // ---------------------------------------------------------------------
  // Three fingerprints
  // ---------------------------------------------------------------------

  const ZEROS := seq(64, i => '0')
  const ONES := seq(64, i => '1')
  const TWINS := seq(64, i => if i < 6 then '1' else '2')

  /** Two that share their first six digits, after one that shares none. */
  ghost predicate Crowded(fps: seq<string>) {
    && |fps| == 3 && Long(fps) && Distinct(fps)
    && fps[0][..6] != fps[1][..6] && fps[0][..6] != fps[2][..6] && fps[1][..6] == fps[2][..6]
  }

  lemma CrowdedExists()
    ensures ValidFingerprint(ZEROS) && ValidFingerprint(ONES) && ValidFingerprint(TWINS)
    ensures Crowded([ZEROS, ONES, TWINS])
  {
    assert ZEROS[0] != ONES[0] && ZEROS[0] != TWINS[0] && ONES[6] != TWINS[6];
    assert ZEROS[..6][0] != ONES[..6][0] && ZEROS[..6][0] != TWINS[..6][0];
    assert ONES[..6] == TWINS[..6];
  }

  lemma CrowdedRounds(fps: seq<string>, l: nat)
    requires Crowded(fps) && 6 <= l <= 64
    ensures !Round(fps)(0, l)
    ensures Round(fps)(1, l) <==> Round(fps)(2, l)
    ensures Round(fps)(1, 6)
  {
    UniqueAtGrows(fps, 0, 6, l);
    forall i | 1 <= i <= 2 ensures UniqueAt(fps, i, l) <==> !Prefixed(fps[1], l, fps[2]) {
      assert fps[i][..6] == fps[i][..l][..6] && fps[0][..6] == fps[0][..l][..6];
      assert !Prefixed(fps[i], l, fps[0]);
    }
  }

  lemma {:induction false} KeptOfTwo(keeps: Keeps, l: nat)
    requires keeps(1, l) <==> keeps(2, l)
    ensures Kept(keeps, [1, 2], l) == if keeps(1, l) then [1, 2] else []
  {
    assert [1, 2][..1] == [1] && [1][..0] == [];
    assert Kept(keeps, [1], l) == if keeps(1, l) then [1] else [];
  }

  lemma {:induction false} TwoStay(fps: seq<string>, l: nat)
    requires Crowded(fps) && 7 <= l <= 65
    ensures Rounds(Round(fps), [1, 2, 2], 2, l) == [1, 2, 2]
    decreases 65 - l
  {
    if l <= 64 {
      CrowdedRounds(fps, l);
      KeptOfTwo(Round(fps), l);
      assert [1, 2, 2][..2] == [1, 2];
      assert [1, 2] + [1, 2, 2][2..] == [1, 2, 2] && [] + [1, 2, 2][0..] == [1, 2, 2];
      TwoStay(fps, l + 1);
    }
  }

  /** Display ids put the second row in the first slot and the third in both others. */
  lemma CrowdedSlots(fps: seq<string>)
    requires Crowded(fps)
    ensures Slots(fps) == [1, 2, 2]
  {
    CrowdedRounds(fps, 6);
    var keeps := Round(fps);
    assert Identity(3) == [0, 1, 2];
    assert Identity(3)[..3] == [0, 1, 2];
    assert [0, 1, 2][..2] == [0, 1] && [0, 1][..1] == [0] && [0][..0] == [];
    assert Kept(keeps, [0], 6) == [];
    assert Kept(keeps, [0, 1], 6) == [1];
    assert Kept(keeps, [0, 1, 2], 6) == [1, 2];
    assert [1, 2] + Identity(3)[2..] == [1, 2, 2];
    TwoStay(fps, 7);
  }

  lemma StoredAt(fs: seq<Finding>, slots: seq<nat>, j: nat)
    requires Long(FingerprintsOf(fs)) && slots == Slots(FingerprintsOf(fs)) && j < |fs|
    ensures |Stored(fs)| == |fs| == |slots| && slots[j] < |fs| && Stored(fs)[j].fp == fs[slots[j]].fp
  {
    StoredRow(fs, j);
  }

  lemma RowsLose(fs: seq<Finding>, out: seq<Finding>)
    requires |fs| == |out| == 3 && fs[0].fp != fs[1].fp && fs[0].fp != fs[2].fp
    requires out[0].fp == fs[1].fp && out[1].fp == fs[2].fp && out[2].fp == fs[2].fp
    ensures FingerprintsOf(out) == [fs[1].fp, fs[2].fp, fs[2].fp]
    ensures !Known(out, fs[0].fp) && !Unique(out)
  {
    LatestIsThe(out, fs[0].fp, -1);
    assert out[1].fp == out[2].fp;
  }

  lemma SlotsLose(fs: seq<Finding>)
    requires |fs| == 3 && Long(FingerprintsOf(fs)) && Slots(FingerprintsOf(fs)) == [1, 2, 2]
    requires fs[0].fp != fs[1].fp && fs[0].fp != fs[2].fp
    ensures FingerprintsOf(Stored(fs)) == [fs[1].fp, fs[2].fp, fs[2].fp]
    ensures !Known(Stored(fs), fs[0].fp) && !Unique(Stored(fs))
  {
    StoredAt(fs, [1, 2, 2], 0);
    StoredAt(fs, [1, 2, 2], 1);
    StoredAt(fs, [1, 2, 2], 2);
    RowsLose(fs, Stored(fs));
  }

  lemma CrowdedRows(fs: seq<Finding>)
    requires Crowded(FingerprintsOf(fs))
    ensures |fs| == 3 && fs[0].fp != fs[1].fp && fs[0].fp != fs[2].fp && Known(fs, fs[0].fp)
  {
    var fps := FingerprintsOf(fs);
    assert fps[0] != fps[1] && fps[0] != fps[2];
    LatestIsThe(fs, fs[0].fp, 0);
  }

  /** A list of three such findings comes back without the first and with the third twice. */
  lemma CrowdedLoses(fs: seq<Finding>)
    requires Crowded(FingerprintsOf(fs))
    ensures |fs| == 3 && FingerprintsOf(Stored(fs)) == [fs[1].fp, fs[2].fp, fs[2].fp]
    ensures Known(fs, fs[0].fp) && !Known(Stored(fs), fs[0].fp) && !Unique(Stored(fs))
  {
    CrowdedSlots(FingerprintsOf(fs));
    CrowdedRows(fs);
    SlotsLose(fs);
  }

  /** From then on a scan that proves the third finding gone writes two remediated events for it. */
  lemma CopiesRemediated(fs: seq<Finding>, baseline: seq<string>, s: Input, fp: string, i: nat, j: nat)
    requires i < j < |fs| && fs[i].fp == fs[j].fp == fp && RowProved(fs[i], s.cov) && RowProved(fs[j], s.cov)
    requires Unseen(s.merged, fp) && Accepted(fs, baseline, s.merged, s.cov, s.o, s.at)
    ensures Remediates(fs, baseline, s, fp) >= 2
  {
    ProofsAreRemediated(fs, baseline, s, fp);
    CountTwo(fs, fp, s.merged, s.cov, i, j, |fs|);
  }

  lemma {:induction false} CountTwo(fs: seq<Finding>, fp: string, merged: seq<Merged>, cov: Coverage, i: nat, j: nat, n: nat)
    requires i < j < |fs| && fs[i].fp == fs[j].fp == fp && RowProved(fs[i], cov) && RowProved(fs[j], cov)
    requires Unseen(merged, fp) && n <= |fs|
    ensures ProvedCopies(fs, fp, merged, cov, n) >= (if i < n then 1 else 0) + if j < n then 1 else 0
  {
    if n > 0 {
      CountTwo(fs, fp, merged, cov, i, j, n - 1);
    }
  }
}
