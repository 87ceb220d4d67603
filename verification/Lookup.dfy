/**
 Mapping what the operator typed (a display id, or a prefix of one or of a
 fingerprint) to one live finding (finding.go:15-32).
 */
module Lookup {
  import opened Wrappers
  import opened Findings
  import opened DisplayIds
  import opened AssignIds

  datatype Answer = Found(k: nat) | Ambiguous | Missing

  predicate Hit(f: Finding, id: string) {
    id <= f.displayId || id <= f.fp
  }

  /** The scan from row i on, with the one earlier hit remembered. */
  function From(fs: seq<Finding>, id: string, i: nat, hit: Option<nat>): Answer
    requires i <= |fs|
    decreases |fs| - i
  {
    if i == |fs| then (if hit.Some? then Found(hit.value) else Missing)
    else if fs[i].displayId == id then Found(i)
    else if !Hit(fs[i], id) then From(fs, id, i + 1, hit)
    else if hit.Some? then Ambiguous
    else From(fs, id, i + 1, Some(i))
  }

  function Resolve(fs: seq<Finding>, id: string): Answer {
    From(fs, id, 0, None)
  }

  method ResolveFinding(fs: seq<Finding>, id: string) returns (r: Answer)
    ensures r == Resolve(fs, id)
  {
    var hit: Option<nat> := None;
    for i := 0 to |fs|
      invariant From(fs, id, i, hit) == Resolve(fs, id)
    {
      if fs[i].displayId == id {
        return Found(i);
      }
      if Hit(fs[i], id) {
        if hit.Some? {
          return Ambiguous;
        }
        hit := Some(i);
      }
    }
    return if hit.Some? then Found(hit.value) else Missing;
  }

  /** Before row k: no row carries the id itself, and at most one is hit by it. */
  ghost predicate Clear(fs: seq<Finding>, id: string, k: nat)
    requires k <= |fs|
  {
    && (forall j :: 0 <= j < k ==> fs[j].displayId != id)
    && (forall i, j :: 0 <= i < j < k ==> !(Hit(fs[i], id) && Hit(fs[j], id)))
  }

  /** What an answer means: the row carrying the id, the only row hit, no row, or two rows hit first. */
  ghost predicate Answers(fs: seq<Finding>, id: string, r: Answer) {
    match r
    case Found(k) =>
      && k < |fs|
      && ((fs[k].displayId == id && Clear(fs, id, k)) || (Hit(fs[k], id) && Clear(fs, id, |fs|)))
    case Missing => forall j :: 0 <= j < |fs| ==> !(id <= fs[j].displayId) && !(id <= fs[j].fp)
    case Ambiguous =>
      exists m, n :: && 0 <= m < n < |fs| && Hit(fs[m], id) && Hit(fs[n], id)
                     && Clear(fs, id, n) && fs[n].displayId != id
  }

  lemma {:induction false} FromMeaning(fs: seq<Finding>, id: string, i: nat, hit: Option<nat>)
    requires i <= |fs| && Clear(fs, id, i)
    requires hit.Some? ==> hit.value < i && Hit(fs[hit.value], id)
    requires hit.None? ==> forall j :: 0 <= j < i ==> !Hit(fs[j], id)
    ensures Answers(fs, id, From(fs, id, i, hit))
    decreases |fs| - i
  {
    if i < |fs| && fs[i].displayId != id {
      if !Hit(fs[i], id) {
        FromMeaning(fs, id, i + 1, hit);
      } else if hit.None? {
        FromMeaning(fs, id, i + 1, Some(i));
      }
    }
  }

  lemma ResolveMeaning(fs: seq<Finding>, id: string, r: Answer)
    ensures r == Resolve(fs, id) <==> Answers(fs, id, r)
  {
    FromMeaning(fs, id, 0, None);
    if Answers(fs, id, r) {
      OneAnswer(fs, id, r, Resolve(fs, id));
    }
  }

  lemma OneAnswer(fs: seq<Finding>, id: string, a: Answer, b: Answer)
    requires Answers(fs, id, a) && Answers(fs, id, b)
    ensures a == b
  {
  }

  /** Typing an assigned id finds that finding, whatever else is in the list. */
  lemma AssignedIdResolves(vals: seq<Finding>, fs: seq<Finding>, i: nat)
    requires Long(FingerprintsOf(vals)) && Distinct(FingerprintsOf(vals))
    requires |fs| == |vals| && forall j :: 0 <= j < |fs| ==> fs[j] == Named(vals, j)
    requires i < |fs|
    ensures Resolve(fs, fs[i].displayId) == Found(i)
  {
    var fps, id := FingerprintsOf(vals), fs[i].displayId;
    ShortestUniquePrefix(fps, i);
    forall j | 0 <= j < |fs| && j != i ensures !Hit(fs[j], id) && fs[j].displayId != id {
      ShortestUniquePrefix(fps, j);
      assert !Prefixed(fps[i], |id|, fps[j]);
      PrefixTrans(id, fs[j].displayId, fps[j]);
    }
    SkipTo(fs, id, 0, i);
  }

  lemma PrefixTrans(a: string, b: string, c: string)
    requires b <= c
    ensures a <= b ==> a <= c
  {
    assert |a| <= |b| ==> c[..|a|] == b[..|a|];
  }

  lemma {:induction false} SkipTo(fs: seq<Finding>, id: string, i: nat, k: nat)
    requires i <= k < |fs| && fs[k].displayId == id
    requires forall j :: i <= j < k ==> !Hit(fs[j], id) && fs[j].displayId != id
    ensures From(fs, id, i, None) == Found(k)
    decreases k - i
  {
    if i < k {
      SkipTo(fs, id, i + 1, k);
    }
  }
}
