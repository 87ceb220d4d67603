/**
 The fingerprint index both folds keep beside their list of finding pointers.
 */
module Index {
  import opened Findings

  /** The cells hold these rows. */
  ghost predicate Carry(cells: seq<FindingRef>, vals: seq<Finding>)
    reads cells
  {
    |cells| == |vals| && forall i :: 0 <= i < |cells| ==> cells[i].val == vals[i]
  }

  /** The map is exactly the index of the list. */
  ghost predicate Indexes(index: map<string, FindingRef>, cells: seq<FindingRef>, vals: seq<Finding>) {
    && |cells| == |vals|
    && forall fp :: if fp in index then Known(vals, fp) && index[fp] == cells[Latest(vals, fp)] else !Known(vals, fp)
  }

  lemma IndexUpdate(index: map<string, FindingRef>, cells: seq<FindingRef>, vals: seq<Finding>, k: nat, f: Finding)
    requires Indexes(index, cells, vals) && k < |vals| && f.fp == vals[k].fp
    ensures Indexes(index, cells, vals[k := f])
  {
    forall fp ensures Latest(vals[k := f], fp) == Latest(vals, fp) {
      LatestUpdate(vals, k, f, fp);
    }
  }

  lemma IndexAppend(index: map<string, FindingRef>, cells: seq<FindingRef>, vals: seq<Finding>, c: FindingRef, f: Finding)
    requires Indexes(index, cells, vals)
    ensures Indexes(index[f.fp := c], cells + [c], vals + [f])
    ensures Unique(vals) && f.fp !in index ==> Unique(vals + [f])
  {
    forall fp ensures Latest(vals + [f], fp) == if f.fp == fp then |vals| else Latest(vals, fp) {
      LatestAppend(vals, f, fp);
    }
  }

  lemma IndexRemove(index: map<string, FindingRef>, cells: seq<FindingRef>, vals: seq<Finding>, k: nat)
    requires Indexes(index, cells, vals) && k < |vals| && Unique(vals)
    ensures Unique(Without(vals, k))
    ensures Indexes(index - {vals[k].fp}, cells[..k] + cells[k + 1..], Without(vals, k))
  {
    LatestWithout(vals, k, vals[k].fp);
    var rest, left := cells[..k] + cells[k + 1..], index - {vals[k].fp};
    forall fp
      ensures if fp in left then Known(Without(vals, k), fp) && left[fp] == rest[Latest(Without(vals, k), fp)]
              else !Known(Without(vals, k), fp)
    {
      LatestWithout(vals, k, fp);
      if fp in left {
        LatestIs(vals, Latest(vals, fp));
      }
    }
  }
}
