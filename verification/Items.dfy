/**
 Open items in a replay (rebuild.go:122-146): when no two raised events share an id,
 which items are open, and whether the replay succeeds at all, is decided by the set
 of log lines alone.
 */
module Items {
  import opened Events
  import opened Findings
  import opened LogOrder
  import opened Replay
  import opened Rebuild

  // ---------------------------------------------------------------------
  // Items on their own
  // ---------------------------------------------------------------------

  predicate Raises(ev: Event) {
    ev.kind == Raised && ev.payload.RaisedData?
  }

  predicate RaisesAs(idOf: ItemId, ev: Event, id: string) {
    Raises(ev) && idOf(ev) == id
  }

  predicate Resolves(ev: Event) {
    ev.kind == Resolved && ev.payload.ResolvedData?
  }

  predicate Settles(ev: Event, id: string) {
    Resolves(ev) && ev.payload.item == id
  }

  /** No two of the raised events share an id. */
  ghost predicate OwnIds(idOf: ItemId, evs: seq<Event>) {
    forall i, j :: 0 <= i < j < |evs| && Raises(evs[i]) && Raises(evs[j]) ==> idOf(evs[i]) != idOf(evs[j])
  }

  function ItemOf(idOf: ItemId, ev: Event): Item
    requires Raises(ev)
  {
    Item(idOf(ev), ev.payload.itemKind, ev.payload.question, ev.payload.about, ev.ts, ev.actor)
  }

  /** What the events leave of some items, and add to them. */
  function Left(idOf: ItemId, items: seq<Item>, evs: seq<Event>): seq<Item> {
    if evs == [] then items
    else
      var before, last := Left(idOf, items, evs[..|evs| - 1]), evs[|evs| - 1];
      if Raises(last) then before + [ItemOf(idOf, last)]
      else if Resolves(last) then Closing(before, last.payload.item)
      else before
  }

  /** Every resolved item is open by then. */
  predicate Resolvable(idOf: ItemId, items: seq<Item>, evs: seq<Event>) {
    || evs == []
    || var front, last := evs[..|evs| - 1], evs[|evs| - 1];
       && Resolvable(idOf, items, front)
       && (Resolves(last) ==> last.payload.item in IdsOf(Left(idOf, items, front)))
  }

  lemma {:induction false} LeftConcat(idOf: ItemId, items: seq<Item>, a: seq<Event>, b: seq<Event>)
    ensures Left(idOf, items, a + b) == Left(idOf, Left(idOf, items, a), b)
    ensures Resolvable(idOf, items, a + b) <==> Resolvable(idOf, items, a) && Resolvable(idOf, Left(idOf, items, a), b)
    decreases |b|
  {
    if b == [] {
      assert a + b == a;
    } else {
      assert (a + b)[..|a + b| - 1] == a + b[..|b| - 1];
      LeftConcat(idOf, items, a, b[..|b| - 1]);
    }
  }

  lemma IdsAppend(items: seq<Item>, it: Item)
    ensures IdsOf(items + [it]) == IdsOf(items) + {it.id}
  {
  }

  /** An id is open afterwards exactly when it was and no event settles it, or an event raises it and none settles it later. */
  ghost predicate OpenAfter(idOf: ItemId, ids: set<string>, evs: seq<Event>, id: string) {
    || (id in ids && forall k :: 0 <= k < |evs| ==> !Settles(evs[k], id))
    || exists i :: 0 <= i < |evs| && RaisesAs(idOf, evs[i], id) && NoneSettles(evs, i, id)
  }

  ghost predicate NoneSettles(evs: seq<Event>, i: nat, id: string) {
    forall k :: i < k < |evs| ==> !Settles(evs[k], id)
  }

  lemma OpenOneMore(idOf: ItemId, ids: set<string>, front: seq<Event>, last: Event, id: string)
    ensures OpenAfter(idOf, ids, front + [last], id) <==>
            RaisesAs(idOf, last, id) || (OpenAfter(idOf, ids, front, id) && !Settles(last, id))
  {
    var evs, n := front + [last], |front|;
    assert evs[n] == last && forall k :: 0 <= k < n ==> evs[k] == front[k];
    forall i: nat | i < n ensures NoneSettles(evs, i, id) <==> NoneSettles(front, i, id) && !Settles(last, id) {
      if NoneSettles(evs, i, id) {
        assert !Settles(evs[n], id);
        assert forall k :: i < k < |front| ==> !Settles(evs[k], id);
      }
    }
    assert NoneSettles(evs, n, id);
  }

  lemma {:induction false} LeftIds(idOf: ItemId, items: seq<Item>, evs: seq<Event>, id: string)
    ensures id in IdsOf(Left(idOf, items, evs)) <==> OpenAfter(idOf, IdsOf(items), evs, id)
    decreases |evs|
  {
    if evs != [] {
      var front, last := evs[..|evs| - 1], evs[|evs| - 1];
      assert evs == front + [last];
      LeftIds(idOf, items, front, id);
      OpenOneMore(idOf, IdsOf(items), front, last, id);
      var before := Left(idOf, items, front);
      if Raises(last) {
        IdsAppend(before, ItemOf(idOf, last));
      } else if Resolves(last) {
        ClosingDropsId(before, last.payload.item);
      }
    }
  }

  // ---------------------------------------------------------------------
  // The replay's items
  // ---------------------------------------------------------------------

  ghost predicate AllFitPayload(evs: seq<Event>) {
    forall i :: 0 <= i < |evs| ==> PayloadFits(evs[i])
  }

  lemma {:induction false} FreshId(idOf: ItemId, front: seq<Event>, last: Event)
    requires OwnIds(idOf, front + [last]) && Raises(last)
    ensures idOf(last) !in IdsOf(Left(idOf, [], front))
  {
    var evs := front + [last];
    LeftIds(idOf, [], front, idOf(last));
    if i :| 0 <= i < |front| && RaisesAs(idOf, front[i], idOf(last)) {
      assert evs[i] == front[i] && evs[|front|] == last;
    }
  }

  lemma OwnFront(idOf: ItemId, front: seq<Event>, last: Event)
    requires OwnIds(idOf, front + [last])
    ensures OwnIds(idOf, front)
  {
    var evs := front + [last];
    forall i, j | 0 <= i < j < |front| && Raises(front[i]) && Raises(front[j]) ensures idOf(front[i]) != idOf(front[j]) {
      assert evs[i] == front[i] && evs[j] == front[j];
    }
  }

  lemma {:induction false} ItemsOneMore(idOf: ItemId, items: seq<Item>, ev: Event)
    requires PayloadFits(ev) && (Raises(ev) ==> idOf(ev) !in IdsOf(items))
    ensures ItemsStep(idOf, items, ev).Success? <==> (Resolves(ev) ==> ev.payload.item in IdsOf(items))
    ensures ItemsStep(idOf, items, ev).Success? ==>
      ItemsStep(idOf, items, ev).value ==
      if Raises(ev) then items + [ItemOf(idOf, ev)] else if Resolves(ev) then Closing(items, ev.payload.item) else items
  {
  }

  /** Without a clash of ids the replay opens and closes items just so, and fails exactly at an unknown one. */
  lemma {:induction false} ItemsReplayed(idOf: ItemId, evs: seq<Event>)
    requires OwnIds(idOf, evs)
    ensures FoldFrom(idOf, EMPTY, evs).Success? <==> AllFitPayload(evs) && Resolvable(idOf, [], evs)
    ensures FoldFrom(idOf, EMPTY, evs).Success? ==> FoldFrom(idOf, EMPTY, evs).value.items == Left(idOf, [], evs)
    decreases |evs|
  {
    if evs != [] {
      var front, last := evs[..|evs| - 1], evs[|evs| - 1];
      assert evs == front + [last];
      OwnFront(idOf, front, last);
      ItemsReplayed(idOf, front);
      assert AllFitPayload(evs) <==> AllFitPayload(front) && PayloadFits(last);
      if Raises(last) {
        FreshId(idOf, front, last);
      }
      if PayloadFits(last) {
        ItemsOneMore(idOf, Left(idOf, [], front), last);
      }
    }
  }

  // ---------------------------------------------------------------------
  // By position
  // ---------------------------------------------------------------------

  /** The item resolved at j was raised before, and nothing before resolved it. */
  ghost predicate SoundAt(idOf: ItemId, evs: seq<Event>, j: nat)
    requires j < |evs| && Resolves(evs[j])
  {
    var id := evs[j].payload.item;
    && (exists i :: 0 <= i < j && RaisesAs(idOf, evs[i], id))
    && forall k :: 0 <= k < j ==> !Settles(evs[k], id)
  }

  ghost predicate AllSound(idOf: ItemId, evs: seq<Event>) {
    forall j: nat :: j < |evs| && Resolves(evs[j]) ==> SoundAt(idOf, evs, j)
  }

  lemma SoundFront(idOf: ItemId, front: seq<Event>, last: Event)
    ensures var evs := front + [last];
      AllSound(idOf, evs) <==> AllSound(idOf, front) && (Resolves(last) ==> SoundAt(idOf, evs, |front|))
  {
    var evs := front + [last];
    assert evs[|front|] == last && forall k :: 0 <= k < |front| ==> evs[k] == front[k];
    forall j: nat | j < |front| && Resolves(front[j]) ensures SoundAt(idOf, evs, j) <==> SoundAt(idOf, front, j) {
      var id := front[j].payload.item;
      assert forall i :: 0 <= i < j ==> evs[i] == front[i];
    }
    if AllSound(idOf, evs) {
      forall j: nat | j < |front| && Resolves(front[j]) ensures SoundAt(idOf, front, j) {
        assert Resolves(evs[j]);
      }
    }
  }

  lemma NotSettledBefore(idOf: ItemId, evs: seq<Event>, i: nat, k: nat)
    requires OwnIds(idOf, evs) && AllSound(idOf, evs) && k < i < |evs| && Raises(evs[i])
    ensures !Settles(evs[k], idOf(evs[i]))
  {
    if Resolves(evs[k]) {
      assert SoundAt(idOf, evs, k);
      var h :| 0 <= h < k && RaisesAs(idOf, evs[h], evs[k].payload.item);
      assert idOf(evs[h]) != idOf(evs[i]);
    }
  }

  /** With ids of their own, a sound beginning leaves an id open exactly when it was raised and never resolved. */
  lemma {:induction false} OpenIffNever(idOf: ItemId, evs: seq<Event>, id: string)
    requires OwnIds(idOf, evs) && AllSound(idOf, evs)
    ensures id in IdsOf(Left(idOf, [], evs)) <==>
      && (exists i :: 0 <= i < |evs| && RaisesAs(idOf, evs[i], id))
      && forall k :: 0 <= k < |evs| ==> !Settles(evs[k], id)
  {
    LeftIds(idOf, [], evs, id);
    if i :| 0 <= i < |evs| && RaisesAs(idOf, evs[i], id) {
      forall k: nat | k < i ensures !Settles(evs[k], id) {
        NotSettledBefore(idOf, evs, i, k);
      }
      if forall k :: 0 <= k < |evs| ==> !Settles(evs[k], id) {
        assert NoneSettles(evs, i, id);
      }
      if NoneSettles(evs, i, id) {
        assert !Settles(evs[i], id);
      }
      forall h | 0 <= h < |evs| && RaisesAs(idOf, evs[h], id) ensures h == i {
      }
    }
  }

  lemma {:induction false} ResolvableIffSound(idOf: ItemId, evs: seq<Event>)
    requires OwnIds(idOf, evs)
    ensures Resolvable(idOf, [], evs) <==> AllSound(idOf, evs)
    decreases |evs|
  {
    if evs != [] {
      var front, last := evs[..|evs| - 1], evs[|evs| - 1];
      assert evs == front + [last];
      OwnFront(idOf, front, last);
      ResolvableIffSound(idOf, front);
      SoundFront(idOf, front, last);
      if Resolves(last) && AllSound(idOf, front) {
        OpenIffNever(idOf, front, last.payload.item);
        SoundLast(idOf, front, last);
      }
    }
  }

  lemma SoundLast(idOf: ItemId, front: seq<Event>, last: Event)
    requires Resolves(last)
    ensures SoundAt(idOf, front + [last], |front|) <==>
      && (exists i :: 0 <= i < |front| && RaisesAs(idOf, front[i], last.payload.item))
      && forall k :: 0 <= k < |front| ==> !Settles(front[k], last.payload.item)
  {
    var evs := front + [last];
    assert evs[|front|] == last && forall k :: 0 <= k < |front| ==> evs[k] == front[k];
    if i :| 0 <= i < |front| && RaisesAs(idOf, front[i], last.payload.item) {
      assert RaisesAs(idOf, evs[i], last.payload.item);
    }
  }

  // ---------------------------------------------------------------------
  // By lines
  // ---------------------------------------------------------------------

  /** No two lines of the log raise items of one id. */
  ghost predicate LinesOwnIds(idOf: ItemId, log: seq<Entry>) {
    forall x, y :: x in log && y in log && Raises(x.ev) && Raises(y.ev) && idOf(x.ev) == idOf(y.ev) ==> x == y
  }

  ghost predicate RaisedBy(idOf: ItemId, log: seq<Entry>, id: string) {
    exists r :: r in log && RaisesAs(idOf, r.ev, id)
  }

  ghost predicate SettledBy(log: seq<Entry>, id: string) {
    exists x :: x in log && Settles(x.ev, id)
  }

  /** The item a line resolves was raised by an earlier line, and no other line resolves it. */
  ghost predicate SoundLine(idOf: ItemId, log: seq<Entry>, x: Entry)
    requires Resolves(x.ev)
  {
    && (exists r :: r in log && RaisesAs(idOf, r.ev, x.ev.payload.item) && Before(r, x))
    && forall y :: y in log && Settles(y.ev, x.ev.payload.item) ==> y == x
  }

  ghost predicate SoundLines(idOf: ItemId, log: seq<Entry>) {
    forall x :: x in log && Resolves(x.ev) ==> SoundLine(idOf, log, x)
  }

  lemma VisitOwnsIds(idOf: ItemId, log: seq<Entry>)
    requires Coherent(log) && LinesOwnIds(idOf, log)
    ensures OwnIds(idOf, EventsOf(Visited(log)))
  {
    var v := Visited(log);
    VisitedOrders(log);
    forall i, j | 0 <= i < j < |v| && Raises(v[i].ev) && Raises(v[j].ev) ensures idOf(v[i].ev) != idOf(v[j].ev) {
      BeforeTotal(v[i], v[j]);
      BeforeTotal(v[i], v[i]);
      assert v[i] in log && v[j] in log;
    }
  }

  lemma EarlierPosition(v: seq<Entry>, i: nat, j: nat)
    requires StrictlyAscending(v) && i < |v| && j < |v|
    ensures Before(v[i], v[j]) <==> i < j
  {
    BeforeTotal(v[i], v[j]);
    BeforeTotal(v[i], v[i]);
    if j < i {
      assert Before(v[j], v[i]);
    }
  }

  lemma VisitSoundIff(idOf: ItemId, log: seq<Entry>)
    requires Coherent(log)
    ensures AllSound(idOf, EventsOf(Visited(log))) <==> SoundLines(idOf, log)
  {
    var v := Visited(log);
    var evs := EventsOf(v);
    VisitedOrders(log);
    if AllSound(idOf, evs) {
      forall x | x in log && Resolves(x.ev) ensures SoundLine(idOf, log, x) {
        assert x in v;
        var j :| 0 <= j < |v| && v[j] == x;
        SoundPosition(idOf, log, j);
      }
    }
    if SoundLines(idOf, log) {
      forall j: nat | j < |evs| && Resolves(evs[j]) ensures SoundAt(idOf, evs, j) {
        assert v[j] in log;
        PositionSound(idOf, log, j);
      }
    }
  }

  lemma SoundPosition(idOf: ItemId, log: seq<Entry>, j: nat)
    requires Coherent(log) && j < |Visited(log)| && Resolves(Visited(log)[j].ev) && AllSound(idOf, EventsOf(Visited(log)))
    ensures SoundLine(idOf, log, Visited(log)[j])
  {
    var v := Visited(log);
    var evs, id := EventsOf(v), v[j].ev.payload.item;
    VisitedOrders(log);
    assert SoundAt(idOf, evs, j);
    var i :| 0 <= i < j && RaisesAs(idOf, evs[i], id);
    EarlierPosition(v, i, j);
    assert v[i] in log;
    forall y | y in log && Settles(y.ev, id) ensures y == v[j] {
      assert y in v;
      var k :| 0 <= k < |v| && v[k] == y;
      assert Resolves(evs[k]);
      assert SoundAt(idOf, evs, k);
      assert !(k < j) && !(j < k);
    }
  }

  lemma PositionSound(idOf: ItemId, log: seq<Entry>, j: nat)
    requires Coherent(log) && j < |Visited(log)| && Resolves(Visited(log)[j].ev) && SoundLine(idOf, log, Visited(log)[j])
    ensures SoundAt(idOf, EventsOf(Visited(log)), j)
  {
    var v := Visited(log);
    var evs, id := EventsOf(v), v[j].ev.payload.item;
    VisitedOrders(log);
    var r :| r in log && RaisesAs(idOf, r.ev, id) && Before(r, v[j]);
    assert r in v;
    var i :| 0 <= i < |v| && v[i] == r;
    EarlierPosition(v, i, j);
    assert RaisesAs(idOf, evs[i], id);
    forall k | 0 <= k < j ensures !Settles(evs[k], id) {
      assert v[k] in log;
      if Settles(v[k].ev, id) {
        assert v[k] == v[j];
        EarlierPosition(v, k, j);
        BeforeTotal(v[j], v[j]);
      }
    }
  }

  /** Detections, verdicts, raises and resolves decode. */
  ghost predicate LinesFitPayload(log: seq<Entry>) {
    forall x :: x in log ==>
      && (x.ev.kind == Detected ==> x.ev.payload.DetectedData?) && (x.ev.kind == Triaged ==> x.ev.payload.TriagedData?)
      && (x.ev.kind == Raised ==> x.ev.payload.RaisedData?) && (x.ev.kind == Resolved ==> x.ev.payload.ResolvedData?)
  }

  lemma VisitFits(log: seq<Entry>)
    requires Coherent(log)
    ensures AllFitPayload(EventsOf(Visited(log))) <==> LinesFitPayload(log)
  {
    var v := Visited(log);
    VisitedOrders(log);
    if AllFitPayload(EventsOf(v)) {
      forall x | x in log ensures PayloadFits(x.ev) {
        assert x in v;
        var i :| 0 <= i < |v| && v[i] == x;
        assert PayloadFits(EventsOf(v)[i]);
      }
    }
    if LinesFitPayload(log) {
      forall i | 0 <= i < |v| ensures PayloadFits(EventsOf(v)[i]) {
        assert v[i] in log;
      }
    }
  }

  /**
   A replay succeeds exactly when every payload decodes and every resolved item was
   raised by an earlier line and is resolved by no other.
   */
  lemma ReplaySucceedsIff(idOf: ItemId, log: seq<Entry>)
    requires Coherent(log) && LinesOwnIds(idOf, log)
    ensures Replayed(idOf, log).Success? <==> LinesFitPayload(log) && SoundLines(idOf, log)
  {
    VisitOwnsIds(idOf, log);
    ItemsReplayed(idOf, EventsOf(Visited(log)));
    ResolvableIffSound(idOf, EventsOf(Visited(log)));
    VisitSoundIff(idOf, log);
    VisitFits(log);
  }

  /** An item is open after it exactly when a line raises it and none resolves it. */
  lemma OpenItemsIff(idOf: ItemId, log: seq<Entry>, id: string)
    requires Coherent(log) && LinesOwnIds(idOf, log) && Replayed(idOf, log).Success?
    ensures id in IdsOf(Replayed(idOf, log).value.items) <==> RaisedBy(idOf, log, id) && !SettledBy(log, id)
  {
    var v := Visited(log);
    var evs := EventsOf(v);
    VisitOwnsIds(idOf, log);
    ItemsReplayed(idOf, evs);
    ResolvableIffSound(idOf, evs);
    OpenIffNever(idOf, evs, id);
    VisitRaises(idOf, log, id);
    VisitSettles(log, id);
  }

  lemma VisitRaises(idOf: ItemId, log: seq<Entry>, id: string)
    requires Coherent(log)
    ensures var evs := EventsOf(Visited(log)); RaisedBy(idOf, log, id) <==> exists i :: 0 <= i < |evs| && RaisesAs(idOf, evs[i], id)
  {
    var v := Visited(log);
    VisitedOrders(log);
    if r :| r in log && RaisesAs(idOf, r.ev, id) {
      assert r in v;
      var i :| 0 <= i < |v| && v[i] == r;
      assert RaisesAs(idOf, EventsOf(v)[i], id);
    }
    if i :| 0 <= i < |v| && RaisesAs(idOf, EventsOf(v)[i], id) {
      assert v[i] in log;
    }
  }

  lemma VisitSettles(log: seq<Entry>, id: string)
    requires Coherent(log)
    ensures var evs := EventsOf(Visited(log)); !SettledBy(log, id) <==> forall k :: 0 <= k < |evs| ==> !Settles(evs[k], id)
  {
    var v := Visited(log);
    VisitedOrders(log);
    if x :| x in log && Settles(x.ev, id) {
      assert x in v;
      var k :| 0 <= k < |v| && v[k] == x;
      assert Settles(EventsOf(v)[k], id);
    }
    if k :| 0 <= k < |v| && Settles(EventsOf(v)[k], id) {
      assert v[k] in log;
    }
  }

  // ---------------------------------------------------------------------
  // Two branches
  // ---------------------------------------------------------------------

  /** No item is resolved by two lines. */
  ghost predicate SettledOnce(log: seq<Entry>) {
    forall x, y :: x in log && y in log && Resolves(x.ev) && Settles(y.ev, x.ev.payload.item) ==> x == y
  }

  lemma PartSound(idOf: ItemId, part: seq<Entry>, whole: seq<Entry>, x: Entry)
    requires (forall y :: y in part ==> y in whole) && x in part && Resolves(x.ev)
    requires SoundLine(idOf, part, x) && SettledOnce(whole)
    ensures SoundLine(idOf, whole, x)
  {
  }

  /** Of two branches that replay, the merged log replays exactly when they resolve no item twice. */
  lemma MergedReplaysIff(idOf: ItemId, ours: seq<Entry>, theirs: seq<Entry>)
    requires Coherent(ours + theirs) && LinesOwnIds(idOf, ours + theirs)
    requires Replayed(idOf, ours).Success? && Replayed(idOf, theirs).Success?
    ensures Replayed(idOf, ours + theirs).Success? <==> SettledOnce(ours + theirs)
  {
    var whole := ours + theirs;
    PartsCoherent(ours, theirs);
    ReplaySucceedsIff(idOf, ours);
    ReplaySucceedsIff(idOf, theirs);
    ReplaySucceedsIff(idOf, whole);
    if SettledOnce(whole) {
      forall x | x in whole && Resolves(x.ev) ensures SoundLine(idOf, whole, x) {
        if x in ours {
          PartSound(idOf, ours, whole, x);
        } else {
          PartSound(idOf, theirs, whole, x);
        }
      }
    }
    if SoundLines(idOf, whole) {
      forall x, y | x in whole && y in whole && Resolves(x.ev) && Settles(y.ev, x.ev.payload.item) ensures x == y {
        assert SoundLine(idOf, whole, x);
      }
    }
  }
}
