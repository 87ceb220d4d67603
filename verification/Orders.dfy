/**
 Two orders of one scan's events, when its detections of a fingerprint disagree:
 what the first detection says decides, and nothing else does.
 */
module Orders {
  import opened Wrappers
  import opened Events
  import opened Findings
  import opened Batch

  predicate Detects(ev: Event, fp: string) {
    ev.fp == fp && ev.kind == Detected && ev.payload.DetectedData?
  }

  /** What the first detection of a fingerprint says of it. */
  function FirstSight(fp: string, evs: seq<Event>, i: nat): Option<Row>
    requires i <= |evs|
  {
    if i == 0 then None
    else
      var before := FirstSight(fp, evs, i - 1);
      if before.None? && Detects(evs[i - 1], fp) then Some(Sight(evs[i - 1])) else before
  }

  function PlacesOf(fp: string, evs: seq<Event>, i: nat): set<Location>
    requires i <= |evs|
  {
    if i == 0 then {}
    else if Detects(evs[i - 1], fp) then
      PlacesOf(fp, evs, i - 1) + {Location(evs[i - 1].payload.path, evs[i - 1].payload.line)}
    else PlacesOf(fp, evs, i - 1)
  }

  ghost predicate Ends(fp: string, evs: seq<Event>, i: nat)
    requires i <= |evs|
  {
    exists k :: 0 <= k < i && evs[k].fp == fp && evs[k].kind == Remediated
  }

  /** Scan events, no fingerprint both detected and remediated. */
  ghost predicate Exclusive(evs: seq<Event>) {
    forall i, j :: 0 <= i < |evs| && 0 <= j < |evs| ==>
      ScanKind(evs[i]) && !(evs[i].fp == evs[j].fp && evs[i].kind == Detected && evs[j].kind == Remediated)
  }

  /** The row after such events: gone, extended, or born from the first detection. */
  function After(fp: string, row: Option<Row>, first: Option<Row>, places: set<Location>, ends: bool): Option<Row> {
    if ends then None
    else if row.Some? then Some(row.value.(places := row.value.places + places))
    else if first.Some? then Some(first.value.(places := places))
    else None
  }

  lemma {:induction false} BatchLives(fp: string, row: Option<Row>, evs: seq<Event>, i: nat)
    requires i <= |evs| && Exclusive(evs)
    ensures LivesUpTo(fp, row, evs, i) ==
            After(fp, row, FirstSight(fp, evs, i), PlacesOf(fp, evs, i), Ends(fp, evs, i))
    ensures FirstSight(fp, evs, i).None? ==> PlacesOf(fp, evs, i) == {}
  {
    if i == 0 {
      assert row.Some? ==> row.value.places + {} == row.value.places;
    } else {
      BatchLives(fp, row, evs, i - 1);
      var ev := evs[i - 1];
      assert ScanKind(ev);
      if Detects(ev, fp) {
        assert !Ends(fp, evs, i);
        OneMoreSight(fp, row, FirstSight(fp, evs, i - 1), PlacesOf(fp, evs, i - 1), ev);
      } else if ev.fp == fp && ev.kind == Remediated {
        assert Ends(fp, evs, i);
      } else {
        assert Ends(fp, evs, i) <==> Ends(fp, evs, i - 1);
      }
    }
  }

  lemma OneMoreSight(fp: string, row: Option<Row>, first: Option<Row>, places: set<Location>, ev: Event)
    requires Detects(ev, fp) && (first.None? ==> places == {})
    ensures Life(fp, After(fp, row, first, places, false), ev) ==
      After(fp, row, if first.None? then Some(Sight(ev)) else first,
            places + {Location(ev.payload.path, ev.payload.line)}, false)
  {
    var l := Location(ev.payload.path, ev.payload.line);
    if row.Some? {
      assert row.value.places + places + {l} == row.value.places + (places + {l});
    } else if first.None? {
      assert places + {l} == {l};
      assert Birth(ev) == Sight(ev).(places := {l});
    }
  }

  lemma {:induction false} PlacesAre(fp: string, evs: seq<Event>, i: nat, l: Location)
    requires i <= |evs|
    ensures l in PlacesOf(fp, evs, i) <==>
            exists k :: 0 <= k < i && Detects(evs[k], fp) && Location(evs[k].payload.path, evs[k].payload.line) == l
  {
    if i > 0 {
      PlacesAre(fp, evs, i - 1, l);
    }
  }

  lemma {:induction false} SameEnds(fp: string, a: seq<Event>, b: seq<Event>)
    requires forall x :: x in a ==> x in b
    ensures Ends(fp, a, |a|) ==> Ends(fp, b, |b|)
    ensures forall l :: l in PlacesOf(fp, a, |a|) ==> l in PlacesOf(fp, b, |b|)
    ensures (exists k :: 0 <= k < |a| && Detects(a[k], fp)) ==> (exists k :: 0 <= k < |b| && Detects(b[k], fp))
  {
    if k :| 0 <= k < |a| && a[k].fp == fp && a[k].kind == Remediated {
      assert a[k] in b;
    }
    if k :| 0 <= k < |a| && Detects(a[k], fp) {
      assert a[k] in b;
    }
    forall l | l in PlacesOf(fp, a, |a|) ensures l in PlacesOf(fp, b, |b|) {
      PlacesAre(fp, a, |a|, l);
      PlacesAre(fp, b, |b|, l);
      var k :| 0 <= k < |a| && Detects(a[k], fp) && Location(a[k].payload.path, a[k].payload.line) == l;
      assert a[k] in b;
    }
  }

  lemma {:induction false} FirstSightIs(fp: string, evs: seq<Event>, i: nat)
    requires i <= |evs|
    ensures FirstSight(fp, evs, i).Some? <==> exists k :: 0 <= k < i && Detects(evs[k], fp)
    ensures FirstSight(fp, evs, i).Some? ==> FirstSight(fp, evs, i).value.places == {}
  {
    if i > 0 {
      FirstSightIs(fp, evs, i - 1);
    }
  }

  /** Two orders of the same events agree on a fingerprint exactly when it was known or their first detections agree. */
  lemma {:induction false} OrdersAgreeIff(fp: string, row: Option<Row>, a: seq<Event>, b: seq<Event>)
    requires Exclusive(a) && Exclusive(b) && forall x :: x in a <==> x in b
    ensures Lives(fp, row, a) == Lives(fp, row, b) <==>
            row.Some? || FirstSight(fp, a, |a|) == FirstSight(fp, b, |b|)
  {
    BatchLives(fp, row, a, |a|);
    BatchLives(fp, row, b, |b|);
    SameEnds(fp, a, b);
    SameEnds(fp, b, a);
    assert PlacesOf(fp, a, |a|) == PlacesOf(fp, b, |b|);
    FirstSightIs(fp, a, |a|);
    FirstSightIs(fp, b, |b|);
    NotBoth(fp, a);
    var s, t := FirstSight(fp, a, |a|), FirstSight(fp, b, |b|);
    if s.Some? && t.Some? && s != t {
      assert s.value.(places := PlacesOf(fp, a, |a|)) != t.value.(places := PlacesOf(fp, a, |a|)) by {
        assert s.value == s.value.(places := PlacesOf(fp, a, |a|)).(places := {});
        assert t.value == t.value.(places := PlacesOf(fp, a, |a|)).(places := {});
      }
    }
  }

  lemma {:induction false} NotBoth(fp: string, evs: seq<Event>)
    requires Exclusive(evs)
    ensures Ends(fp, evs, |evs|) ==> FirstSight(fp, evs, |evs|).None?
  {
    FirstSightIs(fp, evs, |evs|);
  }
}
