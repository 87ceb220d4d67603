/**
 Raise and resolve (lifecycle.go:26-72 and :93-131): exactly when the log bears out
 what they do to the open items, wherever their line sorts.
 */
module ItemSteps {
  import opened Wrappers
  import opened Events
  import opened Findings
  import opened LogOrder
  import opened Replay
  import opened Rebuild
  import opened Commands
  import opened Agreement
  import opened Items

  // ---------------------------------------------------------------------
  // Lines that sort last
  // ---------------------------------------------------------------------

  lemma ItemsSeenIds(a: seq<Item>, b: seq<Item>)
    requires ItemsSeen(a) == ItemsSeen(b)
    ensures IdsOf(a) == IdsOf(b)
  {
    assert forall i :: 0 <= i < |a| ==> ItemsSeen(a)[i].id == a[i].id && ItemsSeen(b)[i].id == b[i].id;
    forall id ensures id in IdsOf(a) <==> id in IdsOf(b) {
      if id in IdsOf(a) {
        var i :| 0 <= i < |a| && a[i].id == id;
        assert b[i] in b;
      }
      if id in IdsOf(b) {
        var i :| 0 <= i < |b| && b[i].id == id;
        assert a[i] in a;
      }
    }
  }

  lemma ItemsSeenAppend(a: seq<Item>, x: Item, b: seq<Item>, y: Item)
    requires ItemsSeen(a) == ItemsSeen(b)
    ensures ItemsSeen(a + [x]) == ItemsSeen(b + [y]) <==> ItemSeen(x) == ItemSeen(y)
  {
    assert |ItemsSeen(a)| == |ItemsSeen(b)|;
    assert ItemsSeen(a + [x]) == ItemsSeen(a) + [ItemSeen(x)];
    assert ItemsSeen(b + [y]) == ItemsSeen(b) + [ItemSeen(y)];
    assert (ItemsSeen(a) + [ItemSeen(x)])[|a|] == ItemSeen(x);
  }

  /** A raise whose line sorts last keeps state and log in step exactly when no open item already has the id. */
  lemma LastRaiseKeepsStepIff(w: Codec, sys: System, c: Command)
    requires Injective(w) && InStep(w, sys) && c.OpenItem?
    requires About(sys, c).Some? && Valid(RaiseEvent(c, About(sys, c).value))
    requires SortLast(w, sys.log, [RaiseEvent(c, About(sys, c).value)])
    ensures InStep(w, Raising(w, sys, c)) <==>
            w.idOf(Pin(RaiseEvent(c, About(sys, c).value))) !in IdsOf(sys.disk.items)
  {
    var ev := RaiseEvent(c, About(sys, c).value);
    var st := Replayed(w.idOf, sys.log).value;
    ReplayOneMore(w, sys.log, ev);
    ItemsSeenIds(sys.disk.items, st.items);
    RaisedSeen(w, c, About(sys, c).value, sys.disk.items, st.items);
  }

  /** The item appended by hand is the one replay appends exactly when its id is unused. */
  lemma RaisedSeen(w: Codec, c: Command, about: string, a: seq<Item>, b: seq<Item>)
    requires c.OpenItem? && ItemsSeen(a) == ItemsSeen(b)
    ensures var ev := RaiseEvent(c, about);
      var mine := Item(w.idOf(Pin(ev)), c.itemKind, c.question, about, c.at, AGENT);
      ItemsSeen(a + [mine]) == ItemsSeen(b + [Opened(w.idOf, b, Pin(ev))]) <==> w.idOf(Pin(ev)) !in IdsOf(b)
  {
    var ev := RaiseEvent(c, about);
    PinKeepsTheSecond(ev);
    ItemsSeenAppend(a, Item(w.idOf(Pin(ev)), c.itemKind, c.question, about, c.at, AGENT), b, Opened(w.idOf, b, Pin(ev)));
  }

  lemma {:induction false} ClosingSeen(a: seq<Item>, b: seq<Item>, id: string)
    requires ItemsSeen(a) == ItemsSeen(b)
    ensures ItemsSeen(Closing(a, id)) == ItemsSeen(Closing(b, id))
  {
    if a != [] {
      var n := |a| - 1;
      assert |b| == n + 1;
      assert ItemsSeen(a[..n]) == ItemsSeen(a)[..n] && ItemsSeen(b[..n]) == ItemsSeen(b)[..n];
      ClosingSeen(a[..n], b[..n], id);
      assert ItemsSeen(a)[n] == ItemsSeen(b)[n];
      assert ItemSeen(a[n]) == ItemSeen(b[n]);
      assert ItemsSeen(Closing(a[..n], id) + [a[n]]) == ItemsSeen(Closing(a[..n], id)) + [ItemSeen(a[n])];
      assert ItemsSeen(Closing(b[..n], id) + [b[n]]) == ItemsSeen(Closing(b[..n], id)) + [ItemSeen(b[n])];
    }
  }

  // ---------------------------------------------------------------------
  // What events leave of some items
  // ---------------------------------------------------------------------

  lemma {:induction false} ClosingConcat(a: seq<Item>, b: seq<Item>, id: string)
    ensures Closing(a + b, id) == Closing(a, id) + Closing(b, id)
    decreases |b|
  {
    if b == [] {
      assert a + b == a;
    } else {
      assert (a + b)[..|a + b| - 1] == a + b[..|b| - 1];
      ClosingConcat(a, b[..|b| - 1], id);
    }
  }

  lemma {:induction false} ClosingNone(items: seq<Item>, id: string)
    requires id !in IdsOf(items)
    ensures Closing(items, id) == items
  {
    if items != [] {
      var front, last := items[..|items| - 1], items[|items| - 1];
      assert items == front + [last];
      IdsAppend(front, last);
      ClosingNone(front, id);
    }
  }

  lemma {:induction false} ClosingCommutes(items: seq<Item>, a: string, b: string)
    ensures Closing(Closing(items, a), b) == Closing(Closing(items, b), a)
  {
    if items != [] {
      var front, last := items[..|items| - 1], items[|items| - 1];
      ClosingCommutes(front, a, b);
      ClosingConcat(Closing(front, a), if last.id == a then [] else [last], b);
      ClosingConcat(Closing(front, b), if last.id == b then [] else [last], a);
      ClosingOne(last, a);
      ClosingOne(last, b);
    }
  }

  lemma {:induction false} ClosingOne(it: Item, id: string)
    ensures Closing([it], id) == if it.id == id then [] else [it]
    ensures Closing([], id) == []
  {
    assert [it][..0] == [];
  }

  /** The items no event settles. */
  function Spent(items: seq<Item>, evs: seq<Event>): seq<Item> {
    if evs == [] then items
    else
      var before, last := Spent(items, evs[..|evs| - 1]), evs[|evs| - 1];
      if Resolves(last) then Closing(before, last.payload.item) else before
  }

  lemma {:induction false} LeftSplits(idOf: ItemId, items: seq<Item>, evs: seq<Event>)
    ensures Left(idOf, items, evs) == Spent(items, evs) + Left(idOf, [], evs)
    decreases |evs|
  {
    if evs != [] {
      var front, last := evs[..|evs| - 1], evs[|evs| - 1];
      LeftSplits(idOf, items, front);
      if Resolves(last) {
        ClosingConcat(Spent(items, front), Left(idOf, [], front), last.payload.item);
      }
    }
  }

  lemma {:induction false} SpentConcat(a: seq<Item>, b: seq<Item>, evs: seq<Event>)
    ensures Spent(a + b, evs) == Spent(a, evs) + Spent(b, evs)
    decreases |evs|
  {
    if evs != [] {
      var front, last := evs[..|evs| - 1], evs[|evs| - 1];
      SpentConcat(a, b, front);
      if Resolves(last) {
        ClosingConcat(Spent(a, front), Spent(b, front), last.payload.item);
      }
    }
  }

  lemma {:induction false} SpentClosing(items: seq<Item>, id: string, evs: seq<Event>)
    ensures Spent(Closing(items, id), evs) == Closing(Spent(items, evs), id)
    decreases |evs|
  {
    if evs != [] {
      var front, last := evs[..|evs| - 1], evs[|evs| - 1];
      SpentClosing(items, id, front);
      if Resolves(last) {
        ClosingCommutes(Spent(items, front), id, last.payload.item);
      }
    }
  }

  lemma {:induction false} SpentOne(it: Item, evs: seq<Event>)
    requires forall k :: 0 <= k < |evs| ==> !Settles(evs[k], it.id)
    ensures Spent([it], evs) == [it]
    decreases |evs|
  {
    if evs != [] {
      var last := evs[|evs| - 1];
      SpentOne(it, evs[..|evs| - 1]);
      if Resolves(last) {
        ClosingNone([it], last.payload.item);
      }
    }
  }

  // ---------------------------------------------------------------------
  // One more line about an item
  // ---------------------------------------------------------------------

  /** A line about an item leaves every finding's life as it was. */
  lemma Unfelt(fp: string, a: seq<Event>, ev: Event, b: seq<Event>)
    requires ev.kind == Raised || ev.kind == Resolved
    ensures Lives(fp, None, a + [ev] + b) == Lives(fp, None, a + b)
  {
    LivesConcat(fp, None, a + [ev], b);
    LivesConcat(fp, None, a, b);
    LivesOne(fp, None, a, ev);
  }

  lemma FindingsUnfelt(w: Codec, log: seq<Entry>, ev: Event)
    requires Injective(w) && Canonical(w, log) && Valid(ev) && (ev.kind == Raised || ev.kind == Resolved)
    requires Replayed(w.idOf, log).Success? && Replayed(w.idOf, log + [Line(w, ev)]).Success?
    ensures Agree(Replayed(w.idOf, log + [Line(w, ev)]).value.findings, Replayed(w.idOf, log).value.findings)
  {
    var a, b := Earlier(w, log, ev), Afterwards(w, log, ev);
    var was, now := Replayed(w.idOf, log).value.findings, Replayed(w.idOf, log + [Line(w, ev)]).value.findings;
    EventInserted(w, log, ev);
    FoldActsPerFingerprint(w.idOf, EMPTY, EventsOf(Visited(log)));
    FoldActsPerFingerprint(w.idOf, EMPTY, EventsOf(Visited(log + [Line(w, ev)])));
    assert a + [] == a;
    forall fp ensures Look(now, fp) == Look(was, fp) {
      Unfelt(fp, a, Pin(ev), b);
    }
  }

  /** A command that appends such a line keeps the step exactly when the longer log replays to its items. */
  lemma ItemStepIff(w: Codec, sys: System, ev: Event, after: System)
    requires Injective(w) && InStep(w, sys) && Valid(ev) && (ev.kind == Raised || ev.kind == Resolved)
    requires after.log == sys.log + [Line(w, ev)] && after.disk.findings == sys.disk.findings
    ensures InStep(w, after) <==>
            && Replayed(w.idOf, after.log).Success?
            && ItemsSeen(after.disk.items) == ItemsSeen(Replayed(w.idOf, after.log).value.items)
  {
    CanonicalInsert(w, sys.log, ev);
    if Replayed(w.idOf, after.log).Success? {
      FindingsUnfelt(w, sys.log, ev);
      AgreeThrough(sys.disk.findings, Replayed(w.idOf, after.log).value.findings, Replayed(w.idOf, sys.log).value.findings);
    }
  }

  lemma InsertedItems(w: Codec, log: seq<Entry>, ev: Event)
    requires Injective(w) && Canonical(w, log) && Valid(ev) && LinesOwnIds(w.idOf, log + [Line(w, ev)])
    ensures var a, b := Earlier(w, log, ev), Afterwards(w, log, ev);
      && OwnIds(w.idOf, a + [Pin(ev)] + b)
      && (Replayed(w.idOf, log + [Line(w, ev)]).Success? ==>
            Replayed(w.idOf, log + [Line(w, ev)]).value.items == Left(w.idOf, [], a + [Pin(ev)] + b))
      && (Replayed(w.idOf, log).Success? && Line(w, ev) !in log ==>
            Replayed(w.idOf, log).value.items == Left(w.idOf, [], a + b))
  {
    var a, b, log' := Earlier(w, log, ev), Afterwards(w, log, ev), log + [Line(w, ev)];
    CanonicalInsert(w, log, ev);
    EventInserted(w, log, ev);
    VisitOwnsIds(w.idOf, log');
    ItemsReplayed(w.idOf, a + [Pin(ev)] + b);
    PartsCoherent(log, [Line(w, ev)]);
    assert LinesOwnIds(w.idOf, log);
    VisitOwnsIds(w.idOf, log);
    ItemsReplayed(w.idOf, EventsOf(Visited(log)));
    assert a + [] == a;
  }

  // ---------------------------------------------------------------------
  // Raise
  // ---------------------------------------------------------------------

  /** Every item the events raise they resolve again. */
  ghost predicate Settled(idOf: ItemId, evs: seq<Event>) {
    forall i :: 0 <= i < |evs| && Raises(evs[i]) ==> exists k :: i < k < |evs| && Settles(evs[k], idOf(evs[i]))
  }

  lemma {:induction false} SettledIff(idOf: ItemId, evs: seq<Event>)
    ensures Left(idOf, [], evs) == [] <==> Settled(idOf, evs)
  {
    var items := Left(idOf, [], evs);
    if items != [] {
      assert items[0] in items;
      LeftIds(idOf, [], evs, items[0].id);
      var i :| 0 <= i < |evs| && RaisesAs(idOf, evs[i], items[0].id) && NoneSettles(evs, i, items[0].id);
      assert Raises(evs[i]);
    } else {
      forall i | 0 <= i < |evs| && Raises(evs[i]) ensures exists k :: i < k < |evs| && Settles(evs[k], idOf(evs[i])) {
        LeftIds(idOf, [], evs, idOf(evs[i]));
        assert !NoneSettles(evs, i, idOf(evs[i]));
      }
    }
  }

  /** An item put at the end is where the log has it exactly when nothing raised later is left. */
  lemma PutLastIff(p: seq<Item>, x: Item, y: Item, q: seq<Item>)
    requires ItemSeen(x) == ItemSeen(y) && forall k :: 0 <= k < |q| ==> q[k].id != y.id
    ensures ItemsSeen(p + q + [x]) == ItemsSeen(p + [y] + q) <==> q == []
  {
    var s, t := p + q + [x], p + [y] + q;
    if q == [] {
      forall i | 0 <= i < |s| ensures ItemsSeen(s)[i] == ItemsSeen(t)[i] {
      }
    } else {
      assert ItemsSeen(s)[|p|] == ItemSeen(q[0]) && ItemsSeen(t)[|p|] == ItemSeen(y);
    }
  }

  lemma NoneRaisesAgain(idOf: ItemId, a: seq<Event>, ev: Event, b: seq<Event>)
    requires OwnIds(idOf, a + [ev] + b) && Raises(ev)
    ensures forall k :: 0 <= k < |b| ==> !RaisesAs(idOf, b[k], idOf(ev))
    ensures forall k :: 0 <= k < |a| ==> !RaisesAs(idOf, a[k], idOf(ev))
  {
    var evs := a + [ev] + b;
    assert evs[|a|] == ev;
    assert (forall k :: 0 <= k < |a| ==> evs[k] == a[k]) && forall k :: 0 <= k < |b| ==> evs[|a| + 1 + k] == b[k];
  }

  lemma SoundMore(idOf: ItemId, log: seq<Entry>, l: Entry, x: Entry)
    requires x in log && Resolves(x.ev) && SoundLine(idOf, log, x) && !Settles(l.ev, x.ev.payload.item)
    ensures SoundLine(idOf, log + [l], x)
  {
    var r :| r in log && RaisesAs(idOf, r.ev, x.ev.payload.item) && Before(r, x);
    assert r in log + [l];
  }

  lemma SoundAppend(idOf: ItemId, log: seq<Entry>, l: Entry)
    requires SoundLines(idOf, log) && !Resolves(l.ev)
    ensures SoundLines(idOf, log + [l])
  {
    forall x | x in log + [l] && Resolves(x.ev) ensures SoundLine(idOf, log + [l], x) {
      assert x in log;
      SoundMore(idOf, log, l, x);
    }
  }

  /** No line resolves the item of a raise that is new. */
  lemma NotYetSettled(idOf: ItemId, log: seq<Entry>, l: Entry)
    requires SoundLines(idOf, log) && LinesOwnIds(idOf, log + [l]) && Raises(l.ev) && l !in log
    ensures !SettledBy(log, idOf(l.ev))
  {
    forall x | x in log && Resolves(x.ev) ensures !Settles(x.ev, idOf(l.ev)) {
      assert SoundLine(idOf, log, x);
      var r :| r in log && RaisesAs(idOf, r.ev, x.ev.payload.item);
      assert r in log + [l] && l in log + [l];
    }
  }

  lemma OwnMore(idOf: ItemId, log: seq<Entry>, l: Entry)
    requires LinesOwnIds(idOf, log) && !Raises(l.ev)
    ensures LinesOwnIds(idOf, log + [l])
  {
  }

  lemma FitsMore(log: seq<Entry>, l: Entry)
    requires LinesFitPayload(log) && PayloadFits(l.ev)
    ensures LinesFitPayload(log + [l])
  {
  }

  lemma RaiseReplays(w: Codec, log: seq<Entry>, ev: Event)
    requires Injective(w) && Canonical(w, log) && Valid(ev) && Raises(ev)
    requires LinesOwnIds(w.idOf, log + [Line(w, ev)]) && Replayed(w.idOf, log).Success?
    ensures Replayed(w.idOf, log + [Line(w, ev)]).Success?
    ensures Line(w, ev) !in log ==> !SettledBy(log, w.idOf(Pin(ev)))
  {
    var l, log' := Line(w, ev), log + [Line(w, ev)];
    CanonicalInsert(w, log, ev);
    PartsCoherent(log, [l]);
    ReplaySucceedsIff(w.idOf, log);
    ReplaySucceedsIff(w.idOf, log');
    FitsMore(log, l);
    SoundAppend(w.idOf, log, l);
    if l !in log {
      NotYetSettled(w.idOf, log, l);
    }
  }

  /** What the two sides hold after a raise whose line is new. */
  lemma {:induction false} RaisedItemsIff(idOf: ItemId, a: seq<Event>, ev: Event, b: seq<Event>, items: seq<Item>, mine: Item)
    requires OwnIds(idOf, a + [ev] + b) && Raises(ev) && ItemSeen(mine) == ItemSeen(ItemOf(idOf, ev))
    requires ItemsSeen(items) == ItemsSeen(Left(idOf, [], a + b))
    requires forall k :: 0 <= k < |b| ==> !Settles(b[k], idOf(ev))
    ensures ItemsSeen(items + [mine]) == ItemsSeen(Left(idOf, [], a + [ev] + b)) <==> Settled(idOf, b)
  {
    var it, la, lb := ItemOf(idOf, ev), Left(idOf, [], a), Left(idOf, [], b);
    var p := Spent(la, b);
    LeftConcat(idOf, [], a, b);
    LeftSplits(idOf, la, b);
    LeftConcat(idOf, [], a, [ev]);
    LeftConcat(idOf, [], a + [ev], b);
    assert [ev][..0] == [];
    assert Left(idOf, [], a + [ev]) == la + [it];
    LeftSplits(idOf, la + [it], b);
    SpentConcat(la, [it], b);
    SpentOne(it, b);
    assert Left(idOf, [], a + [ev] + b) == p + [it] + lb;
    NoneRaisesAgain(idOf, a, ev, b);
    forall k | 0 <= k < |lb| ensures lb[k].id != it.id {
      LeftIds(idOf, [], b, it.id);
      assert lb[k] in lb;
    }
    PutLastIff(p, mine, it, lb);
    SameSeen(items, p + lb, mine);
    SettledIff(idOf, b);
  }

  lemma SameSeen(a: seq<Item>, b: seq<Item>, x: Item)
    requires ItemsSeen(a) == ItemsSeen(b)
    ensures ItemsSeen(a + [x]) == ItemsSeen(b + [x])
  {
    ItemsSeenAppend(a, x, b, x);
  }

  /** A raise whose very line the log holds already, as of the same question in one second, lists its item twice. */
  lemma RepeatedRaiseBreaks(w: Codec, sys: System, c: Command)
    requires Injective(w) && InStep(w, sys) && c.OpenItem?
    requires About(sys, c).Some? && Valid(RaiseEvent(c, About(sys, c).value))
    requires Line(w, RaiseEvent(c, About(sys, c).value)) in sys.log
    ensures !InStep(w, Raising(w, sys, c))
  {
    var ev, after := RaiseEvent(c, About(sys, c).value), Raising(w, sys, c);
    CanonicalInsert(w, sys.log, ev);
    CanonicalCoherent(w, sys.log);
    ReplayDependsOnLineSet(w.idOf, sys.log, after.log);
    assert |ItemsSeen(after.disk.items)| == |ItemsSeen(sys.disk.items)| + 1;
  }

  /**
   Raising keeps state and log in step exactly when the log does not hold the very line
   already, and every item raised by a line that sorts later is resolved again.
   */
  lemma RaiseKeepsStepIff(w: Codec, sys: System, c: Command)
    requires Injective(w) && InStep(w, sys) && c.OpenItem?
    requires About(sys, c).Some? && Valid(RaiseEvent(c, About(sys, c).value))
    requires LinesOwnIds(w.idOf, sys.log + [Line(w, RaiseEvent(c, About(sys, c).value))])
    ensures var ev := RaiseEvent(c, About(sys, c).value);
      InStep(w, Raising(w, sys, c)) <==> Line(w, ev) !in sys.log && Settled(w.idOf, Afterwards(w, sys.log, ev))
  {
    var ev, after := RaiseEvent(c, About(sys, c).value), Raising(w, sys, c);
    ItemStepIff(w, sys, ev, after);
    RaiseReplays(w, sys.log, ev);
    if Line(w, ev) in sys.log {
      RepeatedRaiseBreaks(w, sys, c);
    } else {
      NewRaiseIff(w, sys, c);
    }
  }

  lemma NewRaiseIff(w: Codec, sys: System, c: Command)
    requires Injective(w) && InStep(w, sys) && c.OpenItem?
    requires About(sys, c).Some? && Valid(RaiseEvent(c, About(sys, c).value))
    requires var l := Line(w, RaiseEvent(c, About(sys, c).value)); LinesOwnIds(w.idOf, sys.log + [l]) && l !in sys.log
    requires Replayed(w.idOf, Raising(w, sys, c).log).Success?
    ensures var ev, after := RaiseEvent(c, About(sys, c).value), Raising(w, sys, c);
      ItemsSeen(after.disk.items) == ItemsSeen(Replayed(w.idOf, after.log).value.items) <==>
      Settled(w.idOf, Afterwards(w, sys.log, ev))
  {
    var ev := RaiseEvent(c, About(sys, c).value);
    var a, b := Earlier(w, sys.log, ev), Afterwards(w, sys.log, ev);
    var mine := Item(w.idOf(Pin(ev)), c.itemKind, c.question, About(sys, c).value, c.at, AGENT);
    RaiseReplays(w, sys.log, ev);
    InsertedItems(w, sys.log, ev);
    PinKeepsTheSecond(ev);
    NoneSettlesAfter(w, sys.log, ev);
    RaisedItemsIff(w.idOf, a, Pin(ev), b, sys.disk.items, mine);
  }

  lemma NoneSettlesAfter(w: Codec, log: seq<Entry>, ev: Event)
    requires Injective(w) && Canonical(w, log) && Valid(ev) && !SettledBy(log, w.idOf(Pin(ev)))
    ensures var b := Afterwards(w, log, ev); forall k :: 0 <= k < |b| ==> !Settles(b[k], w.idOf(Pin(ev)))
  {
    var v := Visited(log);
    var behind := Behind(v, Line(w, ev));
    CanonicalCoherent(w, log);
    VisitedOrders(log);
    forall k | 0 <= k < |behind| ensures !Settles(EventsOf(behind)[k], w.idOf(Pin(ev))) {
      assert behind[k] in v;
    }
  }

  // ---------------------------------------------------------------------
  // Resolve
  // ---------------------------------------------------------------------

  lemma ResolveStep(idOf: ItemId, st: State, ev: Event)
    requires Resolves(ev) && ev.payload.item in IdsOf(st.items)
    ensures Step(idOf, st, ev) == Success(State(st.findings, Closing(st.items, ev.payload.item)))
  {
  }

  /** A resolve whose line sorts last keeps state and log in step. */
  lemma LastResolveKeepsStep(w: Codec, sys: System, c: Command)
    requires Injective(w) && InStep(w, sys) && c.CloseItem? && SortLast(w, sys.log, [ResolveEvent(c)])
    ensures InStep(w, Resolving(w, sys, c))
  {
    var ev := ResolveEvent(c);
    if c.item in IdsOf(sys.disk.items) && Valid(ev) {
      var st := Replayed(w.idOf, sys.log).value;
      ReplayOneMore(w, sys.log, ev);
      ItemsSeenIds(sys.disk.items, st.items);
      ResolveStep(w.idOf, st, Pin(ev));
      ClosingSeen(sys.disk.items, st.items, c.item);
      ItemStepIff(w, sys, ev, Resolving(w, sys, c));
    }
  }

  /** A line before the given one raises the item. */
  ghost predicate RaisedBefore(idOf: ItemId, log: seq<Entry>, id: string, l: Entry) {
    exists r :: r in log && RaisesAs(idOf, r.ev, id) && Before(r, l)
  }

  /** A line that resolves what no line resolves yet is sound exactly when the item was raised before it. */
  lemma SoundResolveIff(idOf: ItemId, log: seq<Entry>, l: Entry)
    requires Resolves(l.ev) && !SettledBy(log, l.ev.payload.item) && SoundLines(idOf, log)
    ensures SoundLines(idOf, log + [l]) <==> RaisedBefore(idOf, log, l.ev.payload.item, l)
  {
    var log', id := log + [l], l.ev.payload.item;
    assert l in log';
    if r :| r in log && RaisesAs(idOf, r.ev, id) && Before(r, l) {
      assert r in log';
      assert SoundLine(idOf, log', l);
      forall x | x in log' && Resolves(x.ev) ensures SoundLine(idOf, log', x) {
        if x in log {
          assert SoundLine(idOf, log, x) && !Settles(x.ev, id);
          SoundMore(idOf, log, l, x);
        }
      }
    }
    if SoundLines(idOf, log') {
      assert SoundLine(idOf, log', l);
    }
  }

  lemma ResolveReplaysIff(w: Codec, log: seq<Entry>, ev: Event)
    requires Injective(w) && Canonical(w, log) && Valid(ev) && Resolves(ev)
    requires LinesOwnIds(w.idOf, log) && Replayed(w.idOf, log).Success?
    requires ev.payload.item in IdsOf(Replayed(w.idOf, log).value.items)
    ensures !SettledBy(log, ev.payload.item)
    ensures Replayed(w.idOf, log + [Line(w, ev)]).Success? <==> RaisedBefore(w.idOf, log, ev.payload.item, Line(w, ev))
  {
    var l, log' := Line(w, ev), log + [Line(w, ev)];
    CanonicalInsert(w, log, ev);
    PartsCoherent(log, [l]);
    OpenItemsIff(w.idOf, log, ev.payload.item);
    ReplaySucceedsIff(w.idOf, log);
    OwnMore(w.idOf, log, l);
    FitsMore(log, l);
    SoundResolveIff(w.idOf, log, l);
    ReplaySucceedsIff(w.idOf, log');
  }

  lemma {:induction false} ResolvedItems(idOf: ItemId, a: seq<Event>, ev: Event, b: seq<Event>)
    requires Resolves(ev) && ev.payload.item !in IdsOf(Left(idOf, [], b))
    ensures Left(idOf, [], a + [ev] + b) == Closing(Left(idOf, [], a + b), ev.payload.item)
  {
    var id, la, lb := ev.payload.item, Left(idOf, [], a), Left(idOf, [], b);
    LeftConcat(idOf, [], a, b);
    LeftSplits(idOf, la, b);
    LeftConcat(idOf, [], a, [ev]);
    LeftConcat(idOf, [], a + [ev], b);
    assert [ev][..0] == [];
    assert Left(idOf, [], a + [ev]) == Closing(la, id);
    LeftSplits(idOf, Closing(la, id), b);
    SpentClosing(la, id, b);
    ClosingConcat(Spent(la, b), lb, id);
    ClosingNone(lb, id);
  }

  lemma RawTells(log: seq<Entry>, l: Entry)
    requires Coherent(log + [l])
    ensures forall x :: x in Visited(log) && x.raw == l.raw ==> x == l
  {
    PartsCoherent(log, [l]);
    VisitedOrders(log);
    forall x | x in Visited(log) && x.raw == l.raw ensures x == l {
      assert x in log;
      var i :| 0 <= i < |log| && log[i] == x;
      assert (log + [l])[i] == x && (log + [l])[|log|] == l;
    }
  }

  /** The item is not raised after the line that resolves it. */
  lemma NotRaisedBehind(w: Codec, log: seq<Entry>, ev: Event)
    requires Injective(w) && Canonical(w, log) && Valid(ev) && Resolves(ev) && LinesOwnIds(w.idOf, log)
    requires RaisedBefore(w.idOf, log, ev.payload.item, Line(w, ev)) && Line(w, ev) !in log
    ensures ev.payload.item !in IdsOf(Left(w.idOf, [], Afterwards(w, log, ev)))
  {
    var l, v, id := Line(w, ev), Visited(log), ev.payload.item;
    var r :| r in log && RaisesAs(w.idOf, r.ev, id) && Before(r, l);
    CanonicalInsert(w, log, ev);
    CanonicalCoherent(w, log);
    VisitedOrders(log);
    RawTells(log, l);
    BehindIsAfter(v, l);
    var behind := Behind(v, l);
    LeftIds(w.idOf, [], EventsOf(behind), id);
    if i :| 0 <= i < |behind| && RaisesAs(w.idOf, EventsOf(behind)[i], id) {
      assert behind[i] in behind && behind[i] in v && behind[i] in log;
      assert behind[i] == r;
      BeforeTotal(r, l);
    }
  }

  /** Resolving an open item keeps state and log in step exactly when the line that raises it sorts before. */
  lemma ResolveKeepsStepIff(w: Codec, sys: System, c: Command)
    requires Injective(w) && InStep(w, sys) && c.CloseItem? && Valid(ResolveEvent(c)) && LinesOwnIds(w.idOf, sys.log)
    requires c.item in IdsOf(sys.disk.items)
    ensures InStep(w, Resolving(w, sys, c)) <==> RaisedBefore(w.idOf, sys.log, c.item, Line(w, ResolveEvent(c)))
  {
    var ev, after, st := ResolveEvent(c), Resolving(w, sys, c), Replayed(w.idOf, sys.log).value;
    ItemStepIff(w, sys, ev, after);
    ItemsSeenIds(sys.disk.items, st.items);
    ResolveReplaysIff(w, sys.log, ev);
    if RaisedBefore(w.idOf, sys.log, c.item, Line(w, ev)) {
      assert Line(w, ev) !in sys.log by {
        assert Settles(Line(w, ev).ev, c.item);
      }
      NotRaisedBehind(w, sys.log, ev);
      OwnMore(w.idOf, sys.log, Line(w, ev));
      InsertedItems(w, sys.log, ev);
      ResolvedItems(w.idOf, Earlier(w, sys.log, ev), Pin(ev), Afterwards(w, sys.log, ev));
      ClosingSeen(sys.disk.items, st.items, c.item);
    }
  }

  // ---------------------------------------------------------------------
  // Lines added since
  // ---------------------------------------------------------------------

  lemma {:induction false} SpentIds(items: seq<Item>, evs: seq<Event>, id: string)
    ensures id in IdsOf(Spent(items, evs)) <==> id in IdsOf(items) && forall k :: 0 <= k < |evs| ==> !Settles(evs[k], id)
    decreases |evs|
  {
    if evs != [] {
      var n := |evs| - 1;
      SpentIds(items, evs[..n], id);
      assert forall k :: 0 <= k < n ==> evs[..n][k] == evs[k];
      if Resolves(evs[n]) {
        ClosingDropsId(Spent(items, evs[..n]), evs[n].payload.item);
      }
    }
  }

  ghost predicate NoneSettled(items: seq<Item>, evs: seq<Event>) {
    forall it, k :: it in items && 0 <= k < |evs| ==> !Settles(evs[k], it.id)
  }

  lemma {:induction false} SpentNone(items: seq<Item>, evs: seq<Event>)
    requires NoneSettled(items, evs)
    ensures Spent(items, evs) == items
    decreases |evs|
  {
    if evs != [] {
      var front, last := evs[..|evs| - 1], evs[|evs| - 1];
      SpentNone(items, front);
      if Resolves(last) {
        ClosingNone(items, last.payload.item);
      }
    }
  }

  /** The events make no difference to the items: none of these is resolved, and every other one is. */
  lemma {:induction false} ItemsStayIff(idOf: ItemId, a: seq<Event>, b: seq<Event>)
    requires OwnIds(idOf, a + b)
    ensures ItemsSeen(Left(idOf, [], a)) == ItemsSeen(Left(idOf, [], a + b)) <==>
            NoneSettled(Left(idOf, [], a), b) && Settled(idOf, b)
  {
    var la, lb := Left(idOf, [], a), Left(idOf, [], b);
    LeftConcat(idOf, [], a, b);
    LeftSplits(idOf, la, b);
    SettledIff(idOf, b);
    if NoneSettled(la, b) && Settled(idOf, b) {
      SpentNone(la, b);
      assert la + [] == la;
    }
    if ItemsSeen(la) == ItemsSeen(Spent(la, b) + lb) {
      ItemsSeenIds(la, Spent(la, b) + lb);
      if lb != [] {
        OpenedSince(idOf, a, b, lb[0].id);
      }
      forall it, k | it in la && 0 <= k < |b| ensures !Settles(b[k], it.id) {
        assert it.id in IdsOf(Spent(la, b) + lb);
        SpentIds(la, b, it.id);
        if lb == [] {
          assert Spent(la, b) + lb == Spent(la, b);
        }
      }
    }
  }

  /** What the later events open, the earlier ones did not. */
  lemma {:induction false} OpenedSince(idOf: ItemId, a: seq<Event>, b: seq<Event>, id: string)
    requires OwnIds(idOf, a + b) && id in IdsOf(Left(idOf, [], b))
    ensures id !in IdsOf(Left(idOf, [], a))
  {
    LeftIds(idOf, [], a, id);
    LeftIds(idOf, [], b, id);
    var j :| 0 <= j < |b| && RaisesAs(idOf, b[j], id);
    assert (a + b)[|a| + j] == b[j];
    forall i | 0 <= i < |a| ensures !RaisesAs(idOf, a[i], id) {
      assert (a + b)[i] == a[i];
    }
  }
}
