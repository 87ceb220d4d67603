/**
 What it means that the state files are what a replay of the log regenerates, and
 what appending lines does to a replay. Compared are the attributes replay restores
 (`Findings.Row`: locations as a set, times to the second) and the open items.
 */
module Agreement {
  import opened Wrappers
  import opened Events
  import opened Findings
  import opened LogOrder
  import opened Replay
  import opened DisplayIds
  import opened AssignIds
  import opened Delta
  import opened Refine
  import opened Rebuild
  import opened Commands

  // ---------------------------------------------------------------------
  // Agreement of state and log
  // ---------------------------------------------------------------------

  function ItemSeen(it: Item): Item {
    it.(raisedAt := Second(it.raisedAt))
  }

  function ItemsSeen(items: seq<Item>): (r: seq<Item>)
    ensures |r| == |items|
    ensures forall i :: 0 <= i < |items| ==> r[i] == ItemSeen(items[i])
  {
    seq(|items|, i requires 0 <= i < |items| => ItemSeen(items[i]))
  }

  ghost predicate Reproduced(disk: Disk, st: State) {
    Agree(disk.findings, st.findings) && ItemsSeen(disk.items) == ItemsSeen(st.items)
  }

  /** The canonical encoding tells events of whole seconds apart. */
  ghost predicate Injective(w: Codec) {
    forall a, b :: Pin(a) == a && Pin(b) == b && w.canon(a) == w.canon(b) ==> a == b
  }

  /** Every line is the canonical encoding of the event it decodes to. */
  ghost predicate Canonical(w: Codec, log: seq<Entry>) {
    forall i :: 0 <= i < |log| ==>
      log[i].raw == w.canon(log[i].ev) && Pin(log[i].ev) == log[i].ev && Decoded(log[i].ev)
  }

  /** State = replay(log), and replay does not fail. */
  ghost predicate InStep(w: Codec, sys: System) {
    && Canonical(w, sys.log)
    && Unique(sys.disk.findings)
    && Long(FingerprintsOf(sys.disk.findings))
    && Replayed(w.idOf, sys.log).Success?
    && Reproduced(sys.disk, Replayed(w.idOf, sys.log).value)
  }

  /** The events' lines sort after every line of the log. */
  ghost predicate SortLast(w: Codec, log: seq<Entry>, evs: seq<Event>) {
    Precedes(log, LinesOf(w, evs))
  }

  lemma CanonicalCoherent(w: Codec, log: seq<Entry>)
    requires Injective(w) && Canonical(w, log)
    ensures Coherent(log)
  {
  }

  lemma ReplayedIndexed(w: Codec, log: seq<Entry>)
    ensures Replayed(w.idOf, log).Success? ==> Indexed(Replayed(w.idOf, log).value.findings)
  {
    FoldActsPerFingerprint(w.idOf, EMPTY, EventsOf(Visited(log)));
  }

  // ---------------------------------------------------------------------
  // Appending later lines
  // ---------------------------------------------------------------------

  lemma EventsOfConcat(a: seq<Entry>, b: seq<Entry>)
    ensures EventsOf(a + b) == EventsOf(a) + EventsOf(b)
  {
  }

  /** Appended lines that sort last are replayed after everything else. */
  lemma ReplayAppended(w: Codec, log: seq<Entry>, more: seq<Entry>)
    requires Coherent(log + more) && Replayed(w.idOf, log).Success? && Precedes(log, more)
    ensures Replayed(w.idOf, log + more) ==
            FoldFrom(w.idOf, Replayed(w.idOf, log).value, EventsOf(Visited(more)))
  {
    VisitedAppend(log, more);
    EventsOfConcat(Visited(log), Visited(more));
    FoldConcat(w.idOf, EMPTY, EventsOf(Visited(log)), EventsOf(Visited(more)));
  }

  lemma LinesCanonical(w: Codec, log: seq<Entry>, evs: seq<Event>)
    requires Canonical(w, log) && AllValid(evs)
    ensures Canonical(w, log + LinesOf(w, evs))
  {
    forall i | 0 <= i < |evs| ensures Decoded(Pin(evs[i])) && Pin(Pin(evs[i])) == Pin(evs[i]) {
      assert Valid(evs[i]);
      PinKeepsTheSecond(evs[i]);
    }
  }

  /** The whole second is later than every second in the log. */
  ghost predicate Later(log: seq<Entry>, t: int) {
    forall i :: 0 <= i < |log| ==> log[i].ev.ts < Second(t) * NANOS_PER_SECOND
  }

  /** Lines of a later second sort last. */
  lemma LaterSortsLast(w: Codec, log: seq<Entry>, evs: seq<Event>, t: int)
    requires Later(log, t) && forall i :: 0 <= i < |evs| ==> evs[i].ts == t
    ensures SortLast(w, log, evs)
  {
    forall a, b | a in log && b in LinesOf(w, evs) ensures Before(a, b) {
      var i :| 0 <= i < |log| && log[i] == a;
      var j :| 0 <= j < |evs| && LinesOf(w, evs)[j] == b;
    }
  }

  /** The lines of some events are replayed as those events, pinned, in some order. */
  lemma LinesVisited(w: Codec, evs: seq<Event>)
    requires Coherent(LinesOf(w, evs))
    ensures forall x :: x in EventsOf(Visited(LinesOf(w, evs))) <==> x in Pinned(evs)
  {
    var lines := LinesOf(w, evs);
    var v := Visited(lines);
    VisitedOrders(lines);
    forall x ensures x in EventsOf(v) <==> x in Pinned(evs) {
      if x in EventsOf(v) {
        var i :| 0 <= i < |v| && EventsOf(v)[i] == x;
        assert v[i] in lines;
        var j :| 0 <= j < |lines| && lines[j] == v[i];
        assert Pinned(evs)[j] == x;
      }
      if x in Pinned(evs) {
        var j :| 0 <= j < |evs| && Pinned(evs)[j] == x;
        assert lines[j] in lines;
        assert lines[j] in v;
        var i :| 0 <= i < |v| && v[i] == lines[j];
        assert EventsOf(v)[i] == x;
      }
    }
  }

  lemma OneLineVisited(w: Codec, ev: Event)
    ensures EventsOf(Visited([Line(w, ev)])) == [Pin(ev)]
  {
    var l := Line(w, ev);
    assert [l][..0] == [];
    assert Sorted([l]) == [l];
    assert RawsOf([]) == {};
    assert Collapsed([l]) == [l];
  }

  /** One appended event is one more replay step. */
  lemma ReplayOneMore(w: Codec, log: seq<Entry>, ev: Event)
    requires Injective(w) && Canonical(w, log) && Valid(ev) && SortLast(w, log, [ev])
    requires Replayed(w.idOf, log).Success?
    ensures Canonical(w, log + [Line(w, ev)])
    ensures Replayed(w.idOf, log + [Line(w, ev)]) == Step(w.idOf, Replayed(w.idOf, log).value, Pin(ev))
  {
    assert LinesOf(w, [ev]) == [Line(w, ev)];
    LinesCanonical(w, log, [ev]);
    CanonicalCoherent(w, log + [Line(w, ev)]);
    ReplayAppended(w, log, [Line(w, ev)]);
    OneLineVisited(w, ev);
    var st := Replayed(w.idOf, log).value;
    assert [Pin(ev)][..0] == [];
    assert FoldFrom(w.idOf, st, [Pin(ev)]) == Step(w.idOf, st, Pin(ev));
  }

  // ---------------------------------------------------------------------
  // One more line, wherever it sorts
  // ---------------------------------------------------------------------

  lemma CanonicalInsert(w: Codec, log: seq<Entry>, ev: Event)
    requires Injective(w) && Canonical(w, log) && Valid(ev)
    ensures Canonical(w, log + [Line(w, ev)]) && Coherent(log + [Line(w, ev)])
  {
    assert LinesOf(w, [ev]) == [Line(w, ev)];
    LinesCanonical(w, log, [ev]);
    CanonicalCoherent(w, log + [Line(w, ev)]);
  }

  /** Items, and whether a replay succeeds, do not depend on the findings. */
  lemma {:induction false} ItemsAlong(idOf: ItemId, s: State, t: State, evs: seq<Event>)
    requires s.items == t.items
    ensures FoldFrom(idOf, s, evs).Success? <==> FoldFrom(idOf, t, evs).Success?
    ensures FoldFrom(idOf, s, evs).Success? ==> FoldFrom(idOf, s, evs).value.items == FoldFrom(idOf, t, evs).value.items
    decreases |evs|
  {
    if evs != [] {
      ItemsAlong(idOf, s, t, evs[..|evs| - 1]);
    }
  }

  lemma {:induction false} FoldInsert(idOf: ItemId, a: seq<Event>, ev: Event, b: seq<Event>)
    requires PayloadFits(ev) && ev.kind != Raised && ev.kind != Resolved
    requires FoldFrom(idOf, EMPTY, a + b).Success?
    ensures var r := FoldFrom(idOf, EMPTY, a + [ev] + b);
      r.Success? && r.value.items == FoldFrom(idOf, EMPTY, a + b).value.items
  {
    FoldConcat(idOf, EMPTY, a, b);
    FoldConcat(idOf, EMPTY, a + [ev], b);
    assert (a + [ev])[..|a|] == a;
    var mid := FoldFrom(idOf, EMPTY, a).value;
    assert Step(idOf, mid, ev) == Success(State(FindingsStep(mid.findings, ev), mid.items));
    ItemsAlong(idOf, mid, State(FindingsStep(mid.findings, ev), mid.items), b);
  }

  /** What a replay visits before and after an event's line. */
  function Earlier(w: Codec, log: seq<Entry>, ev: Event): seq<Event> {
    EventsOf(Ahead(Visited(log), Line(w, ev)))
  }

  function Afterwards(w: Codec, log: seq<Entry>, ev: Event): seq<Event> {
    EventsOf(Behind(Visited(log), Line(w, ev)))
  }

  /** One appended event is visited at its place, unless its line is there already. */
  lemma EventInserted(w: Codec, log: seq<Entry>, ev: Event)
    requires Injective(w) && Canonical(w, log) && Valid(ev)
    ensures EventsOf(Visited(log + [Line(w, ev)])) == Earlier(w, log, ev) + [Pin(ev)] + Afterwards(w, log, ev)
    ensures EventsOf(Visited(log)) ==
            Earlier(w, log, ev) + (if Line(w, ev) in log then [Pin(ev)] else []) + Afterwards(w, log, ev)
  {
    var l, v := Line(w, ev), Visited(log);
    CanonicalInsert(w, log, ev);
    VisitedInsert(log, l);
    EventsOfConcat(Ahead(v, l), [l]);
    EventsOfConcat(Ahead(v, l) + [l], Behind(v, l));
    EventsOfConcat(Ahead(v, l), Behind(v, l));
    assert EventsOf([l]) == [Pin(ev)];
    assert Earlier(w, log, ev) + [] == Earlier(w, log, ev);
  }

  /** A line about a finding, appended, takes its place in the lives and leaves the items alone. */
  lemma ReplayInserted(w: Codec, log: seq<Entry>, ev: Event)
    requires Injective(w) && Canonical(w, log) && Valid(ev) && Replayed(w.idOf, log).Success?
    requires PayloadFits(Pin(ev)) && ev.kind != Raised && ev.kind != Resolved
    ensures var log' := log + [Line(w, ev)];
      && Canonical(w, log')
      && Replayed(w.idOf, log').Success?
      && Replayed(w.idOf, log').value.items == Replayed(w.idOf, log).value.items
      && EventsOf(Visited(log')) == Earlier(w, log, ev) + [Pin(ev)] + Afterwards(w, log, ev)
    ensures EventsOf(Visited(log)) ==
            Earlier(w, log, ev) + (if Line(w, ev) in log then [Pin(ev)] else []) + Afterwards(w, log, ev)
  {
    CanonicalInsert(w, log, ev);
    EventInserted(w, log, ev);
    if Line(w, ev) !in log {
      assert Earlier(w, log, ev) + [] == Earlier(w, log, ev);
      FoldInsert(w.idOf, Earlier(w, log, ev), Pin(ev), Afterwards(w, log, ev));
    }
  }

  /** A line that says nothing of findings or items changes nothing, wherever it sorts. */
  lemma ReplayIgnores(w: Codec, log: seq<Entry>, ev: Event)
    requires Injective(w) && Canonical(w, log) && Valid(ev) && Replayed(w.idOf, log).Success?
    requires ev.kind == Rebaselined || ev.kind == DBUpdated
    ensures Canonical(w, log + [Line(w, ev)])
    ensures Replayed(w.idOf, log + [Line(w, ev)]) == Replayed(w.idOf, log)
  {
    ReplayInserted(w, log, ev);
    var a, b := Earlier(w, log, ev), Afterwards(w, log, ev);
    assert a + [] == a;
    FoldConcat(w.idOf, EMPTY, a, b);
    FoldConcat(w.idOf, EMPTY, a + [Pin(ev)], b);
    assert (a + [Pin(ev)])[..|a|] == a;
  }

  // ---------------------------------------------------------------------
  // Lists that agree
  // ---------------------------------------------------------------------

  lemma AgreeThrough(a: seq<Finding>, b: seq<Finding>, c: seq<Finding>)
    requires Agree(b, c)
    ensures Agree(a, b) <==> Agree(a, c)
  {
    if Agree(a, c) {
      forall fp ensures Look(a, fp) == Look(b, fp) {
        assert Look(a, fp) == Look(c, fp) && Look(b, fp) == Look(c, fp);
      }
    }
    if Agree(a, b) {
      forall fp ensures Look(a, fp) == Look(c, fp) {
        assert Look(a, fp) == Look(b, fp) && Look(b, fp) == Look(c, fp);
      }
    }
  }

  lemma AgreeLeft(a: seq<Finding>, b: seq<Finding>, c: seq<Finding>)
    requires Agree(a, b)
    ensures Agree(a, c) <==> Agree(b, c)
  {
    if Agree(a, c) {
      forall fp ensures Look(b, fp) == Look(c, fp) {
        assert Look(a, fp) == Look(c, fp) && Look(a, fp) == Look(b, fp);
      }
    }
    if Agree(b, c) {
      forall fp ensures Look(a, fp) == Look(c, fp) {
        assert Look(b, fp) == Look(c, fp) && Look(a, fp) == Look(b, fp);
      }
    }
  }

  /** When everything but the findings is in step, they decide. */
  lemma InStepMeans(w: Codec, before: System, after: System)
    requires InStep(w, before) && after.disk.items == before.disk.items
    requires Canonical(w, after.log) && Unique(after.disk.findings) && Long(FingerprintsOf(after.disk.findings))
    requires Replayed(w.idOf, after.log).Success?
    requires Replayed(w.idOf, after.log).value.items == Replayed(w.idOf, before.log).value.items
    ensures InStep(w, after) <==> Agree(after.disk.findings, Replayed(w.idOf, after.log).value.findings)
  {
  }
}
