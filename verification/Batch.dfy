/**
 Events of one scan carry one timestamp, so replay orders them by their bytes and
 collapses repeats. What a fingerprint's life looks like afterwards depends on the
 set of events only, as long as they are pairwise compatible: no fingerprint is
 both detected and remediated, and detections of one fingerprint agree on
 everything but the location.
 */
module Batch {
  import opened Wrappers
  import opened Events
  import opened Findings

  /** A detection without its place. */
  function Sight(ev: Event): Row
    requires ev.payload.DetectedData?
  {
    Birth(ev).(places := {})
  }

  predicate ScanKind(ev: Event) {
    (ev.kind == Detected && ev.payload.DetectedData?) || ev.kind == Remediated || ev.kind == Surfaced
  }

  predicate Compatible(a: Event, b: Event) {
    && ScanKind(a) && ScanKind(b)
    && (a.fp == b.fp && a.kind == Detected ==> b.kind != Remediated && (b.kind == Detected ==> Sight(a) == Sight(b)))
    && (a.fp == b.fp && b.kind == Detected ==> a.kind != Remediated)
  }

  lemma LifeSwaps(fp: string, row: Option<Row>, a: Event, b: Event)
    requires Compatible(a, b)
    ensures Life(fp, Life(fp, row, a), b) == Life(fp, Life(fp, row, b), a)
  {
    if a.fp == b.fp == fp && a.kind == Detected && b.kind == Detected {
      var la, lb := Location(a.payload.path, a.payload.line), Location(b.payload.path, b.payload.line);
      assert {la} + {lb} == {lb} + {la};
      if row.Some? {
        assert row.value.places + {la} + {lb} == row.value.places + {lb} + {la};
      }
      assert Birth(a) == Sight(a).(places := {la}) && Birth(b) == Sight(b).(places := {lb});
    }
  }

  lemma LifeRepeats(fp: string, row: Option<Row>, a: Event)
    requires ScanKind(a)
    ensures Life(fp, Life(fp, row, a), a) == Life(fp, row, a)
  {
    if a.fp == fp && a.kind == Detected {
      var l := Location(a.payload.path, a.payload.line);
      if row.Some? {
        assert row.value.places + {l} + {l} == row.value.places + {l};
      } else {
        assert {l} + {l} == {l};
      }
    }
  }

  function Minus(evs: seq<Event>, e: Event): (r: seq<Event>)
    ensures |r| <= |evs|
    ensures e in evs ==> |r| < |evs|
    ensures forall x :: x in r <==> x in evs && x != e
  {
    if evs == [] then []
    else
      var front, last := evs[..|evs| - 1], evs[|evs| - 1];
      assert evs == front + [last];
      if last == e then Minus(front, e) else Minus(front, e) + [last]
  }

  lemma {:induction false} MoveLast(fp: string, row: Option<Row>, evs: seq<Event>, e: Event)
    requires e in evs && forall x, y :: x in evs && y in evs ==> Compatible(x, y)
    ensures Lives(fp, row, evs) == Life(fp, Lives(fp, row, Minus(evs, e)), e)
    decreases |evs|
  {
    var front, last := evs[..|evs| - 1], evs[|evs| - 1];
    assert evs == front + [last];
    LivesOne(fp, row, front, last);
    if e in front {
      MoveLast(fp, row, front, e);
      var base := Lives(fp, row, Minus(front, e));
      if last == e {
        LifeRepeats(fp, base, e);
      } else {
        LifeSwaps(fp, base, e, last);
        LivesOne(fp, row, Minus(front, e), last);
      }
    } else {
      MinusAbsent(front, e);
    }
  }

  lemma {:induction false} MinusAbsent(evs: seq<Event>, e: Event)
    requires e !in evs
    ensures Minus(evs, e) == evs
  {
    if evs != [] {
      assert evs == evs[..|evs| - 1] + [evs[|evs| - 1]];
      MinusAbsent(evs[..|evs| - 1], e);
    }
  }

  /** Any order, and any number of repeats, of the same compatible events. */
  lemma {:induction false} LivesDependOnSet(fp: string, row: Option<Row>, a: seq<Event>, b: seq<Event>)
    requires forall x :: x in a <==> x in b
    requires forall x, y :: x in a && y in a ==> Compatible(x, y)
    ensures Lives(fp, row, a) == Lives(fp, row, b)
    decreases |a|
  {
    assert b == [] || b[0] in a;
    if a != [] {
      var e := a[|a| - 1];
      assert e in a;
      MoveLast(fp, row, a, e);
      MoveLast(fp, row, b, e);
      LivesDependOnSet(fp, row, Minus(a, e), Minus(b, e));
    }
  }
}
