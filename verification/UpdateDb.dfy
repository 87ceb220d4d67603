/**
 `engine update-db` (internal/cli/engine_db.go): each swap of an advisory database
 is recorded in three atomic writes, the pin last, because the pin short-circuits
 the next run. A run may stop between any two writes, be retried any number of
 times, and overlap with other runs outside the lock.
 */
module UpdateDb {
  import opened Wrappers
  import opened Events

  /** The artifact names; every configuration key that is not java-db's is vuln's. */
  const VULN := "vuln"
  const JAVA := "java-db"

  /** The digests the configuration pins. */
  datatype Pins = Pins(vuln: string, java: string)

  datatype Swap = Swap(digest: string, updatedAt: int, swappedAt: int)

  datatype Artifact = Artifact(digest: string, updatedAt: int, swappedAt: int)

  /** state/db.json, the log, and the pins in config.yaml. */
  datatype World = World(db: map<string, Artifact>, log: seq<Event>, pins: Pins)

  function PinOf(p: Pins, name: string): string {
    if name == JAVA then p.java else p.vuln
  }

  function WithPin(p: Pins, name: string, digest: string): Pins {
    if name == JAVA then p.(java := digest) else p.(vuln := digest)
  }

  function DigestOf(w: World, name: string): string {
    if name in w.db then w.db[name].digest else ""
  }

  function UpdateEvent(w: World, name: string, sw: Swap, at: int, engine: string): Event {
    Make(at, Envelope("operator", "build", engine), DBUpdated, "",
         DBUpdatedData(name, sw.digest, DigestOf(w, name)))
  }

  // ---------------------------------------------------------------------
  // The three writes
  // ---------------------------------------------------------------------

  /** How many writes land: an event that does not validate stops after the first. */
  function Landed(w: World, name: string, sw: Swap, at: int, engine: string, writes: nat): nat {
    if writes > 1 && !Valid(UpdateEvent(w, name, sw, at, engine)) then 1 else if writes > 3 then 3 else writes
  }

  /** The state after the first n writes. `cfg` is the configuration the run loaded. */
  function Recorded(w: World, cfg: Pins, name: string, sw: Swap, at: int, engine: string, n: nat): World {
    if n == 0 then w
    else
      var one := w.(db := w.db[name := Artifact(sw.digest, sw.updatedAt, sw.swappedAt)]);
      if n == 1 then one
      else
        var two := one.(log := w.log + [UpdateEvent(w, name, sw, at, engine)]);
        if n == 2 then two else two.(pins := WithPin(cfg, name, sw.digest))
  }

  class Host {
    var db: map<string, Artifact>
    var log: seq<Event>
    var pins: Pins

    function State(): World
      reads this
    {
      World(db, log, pins)
    }

    constructor (pins: Pins)
      ensures State() == World(map[], [], pins)
    {
      db, log, this.pins := map[], [], pins;
    }

    /** `recordDBUpdate`; `writes` is how many of the three the run survives. */
    method RecordDBUpdate(cfg: Pins, name: string, sw: Swap, at: int, engine: string, writes: nat)
      returns (cfg': Pins, done: bool)
      modifies this
      ensures var n := Landed(old(State()), name, sw, at, engine, writes);
        && State() == Recorded(old(State()), cfg, name, sw, at, engine, n)
        && (done <==> n == 3)
      ensures cfg' == WithPin(cfg, name, sw.digest)
    {
      cfg' := if name == JAVA then cfg.(java := sw.digest) else cfg.(vuln := sw.digest);
      done := false;
      if writes == 0 { return; }
      var prev := if name in db then db[name].digest else "";
      db := db[name := Artifact(sw.digest, sw.updatedAt, sw.swappedAt)];
      if writes == 1 { return; }
      var ev := Make(at, Envelope("operator", "build", engine), DBUpdated, "", DBUpdatedData(name, sw.digest, prev));
      if !Valid(ev) { return; }
      log := log + [ev];
      if writes == 2 { return; }
      pins := cfg';
      done := true;
    }

    /** `runEngineUpdateDB`: the artifacts in turn, from one loaded configuration. */
    method RunUpdateDB(tries: seq<Try>) returns (considered: nat, updated: nat)
      modifies this
      ensures State() == Session(old(State()), old(pins), tries, |tries|).world
      ensures considered == Session(old(State()), old(pins), tries, |tries|).considered
      ensures updated == Session(old(State()), old(pins), tries, |tries|).updated <= considered
    {
      var cfg := pins;
      ghost var before := State();
      considered, updated := 0, 0;
      var alive := true;
      for i := 0 to |tries|
        invariant Run(State(), cfg, alive, considered, updated) == Session(before, old(pins), tries, i)
        invariant updated <= considered
      {
        if alive {
          var t := tries[i];
          if t.artifact != JAVA || t.outcome != NoVolume {
            considered := considered + 1;
            match t.outcome {
              case Unresolved => alive := t.artifact != VULN;
              case Fetched(sw, swapped, at, engine, writes) =>
                if sw.digest != PinOf(cfg, t.artifact) {
                  if !swapped {
                    alive := t.artifact != VULN;
                  } else {
                    cfg, alive := RecordDBUpdate(cfg, t.artifact, sw, at, engine, writes);
                    if alive { updated := updated + 1; }
                  }
                }
              case NoVolume =>
            }
          }
        }
      }
    }
  }

  // ---------------------------------------------------------------------
  // One run
  // ---------------------------------------------------------------------

  /** What became of one artifact: no volume (java-db only), no digest, or a digest and perhaps a swap. */
  datatype Outcome =
    | NoVolume | Unresolved
    | Fetched(sw: Swap, swapped: bool, at: int, engine: string, writes: nat)

  datatype Try = Try(artifact: string, outcome: Outcome)

  datatype Run = Run(world: World, cfg: Pins, alive: bool, considered: nat, updated: nat)

  function Attempt(r: Run, t: Try): Run {
    if !r.alive || (t.artifact == JAVA && t.outcome == NoVolume) then r
    else
      var s := r.(considered := r.considered + 1);
      match t.outcome
      case NoVolume => s
      case Unresolved => s.(alive := t.artifact != VULN)
      case Fetched(sw, swapped, at, engine, writes) =>
        if sw.digest == PinOf(s.cfg, t.artifact) then s
        else if !swapped then s.(alive := t.artifact != VULN)
        else
          var n := Landed(s.world, t.artifact, sw, at, engine, writes);
          Run(Recorded(s.world, s.cfg, t.artifact, sw, at, engine, n), WithPin(s.cfg, t.artifact, sw.digest), n == 3,
              s.considered, if n == 3 then s.updated + 1 else s.updated)
  }

  function Session(w: World, cfg: Pins, tries: seq<Try>, i: nat): Run
    requires i <= |tries|
  {
    if i == 0 then Run(w, cfg, true, 0, 0) else Attempt(Session(w, cfg, tries, i - 1), tries[i - 1])
  }

  // ---------------------------------------------------------------------
  // Any number of runs, overlapping outside the lock
  // ---------------------------------------------------------------------

  /** The world, and the configuration each living run holds in memory. */
  datatype Node = Node(world: World, mem: map<nat, Pins>)

  datatype Action =
    | Load(run: nat)
    | Quit(run: nat)
    | Record(run: nat, artifact: string, sw: Swap, at: int, engine: string, writes: nat)

  predicate Skipped(n: Node, a: Action)
    requires a.Record?
  {
    a.run !in n.mem || a.sw.digest == PinOf(n.mem[a.run], a.artifact)
  }

  function Writes(n: Node, a: Action): nat
    requires a.Record?
  {
    Landed(n.world, a.artifact, a.sw, a.at, a.engine, a.writes)
  }

  function Act(n: Node, a: Action): Node {
    match a
    case Load(p) => n.(mem := n.mem[p := n.world.pins])
    case Quit(p) => n.(mem := n.mem - {p})
    case Record(p, name, sw, at, engine, _) =>
      if Skipped(n, a) then n
      else
        Node(Recorded(n.world, n.mem[p], name, sw, at, engine, Writes(n, a)),
             if Writes(n, a) == 3 then n.mem[p := WithPin(n.mem[p], name, sw.digest)] else n.mem - {p})
  }

  function Acted(n: Node, acts: seq<Action>, i: nat): Node
    requires i <= |acts|
  {
    if i == 0 then n else Act(Acted(n, acts, i - 1), acts[i - 1])
  }

  lemma {:induction false} ActedPrefix(n: Node, a: seq<Action>, b: seq<Action>, i: nat)
    requires i <= |a| && a <= b
    ensures Acted(n, b, i) == Acted(n, a, i)
  {
    if i > 0 {
      ActedPrefix(n, a, b, i - 1);
    }
  }

  /** What a try does, once its run is loaded. */
  function ActionOf(r: Run, t: Try): Option<Action> {
    if !r.alive then None
    else
      match t.outcome
      case NoVolume => None
      case Unresolved => if t.artifact == VULN then Some(Quit(0)) else None
      case Fetched(sw, swapped, at, engine, writes) =>
        if sw.digest == PinOf(r.cfg, t.artifact) then None
        else if swapped then Some(Record(0, t.artifact, sw, at, engine, writes))
        else if t.artifact == VULN then Some(Quit(0)) else None
  }

  function NodeOf(r: Run): Node {
    Node(r.world, if r.alive then map[0 := r.cfg] else map[])
  }

  lemma AttemptIsAction(r: Run, t: Try)
    ensures NodeOf(Attempt(r, t)) == match ActionOf(r, t) case None => NodeOf(r) case Some(a) => Act(NodeOf(r), a)
  {
  }

  function ActionsOf(w: World, tries: seq<Try>, i: nat): seq<Action>
    requires i <= |tries|
  {
    if i == 0 then [Load(0)]
    else
      var before, a := ActionsOf(w, tries, i - 1), ActionOf(Session(w, w.pins, tries, i - 1), tries[i - 1]);
      if a.Some? then before + [a.value] else before
  }

  /** A run of the command is a load followed by recordings. */
  lemma {:induction false} SessionIsActions(w: World, tries: seq<Try>, i: nat)
    requires i <= |tries|
    ensures var acts := ActionsOf(w, tries, i);
      Acted(Node(w, map[]), acts, |acts|) == NodeOf(Session(w, w.pins, tries, i)) && Sequential(acts)
  {
    if i == 0 {
      assert Acted(Node(w, map[]), [Load(0)], 0) == Node(w, map[]);
    } else {
      SessionIsActions(w, tries, i - 1);
      var before, r := ActionsOf(w, tries, i - 1), Session(w, w.pins, tries, i - 1);
      AttemptIsAction(r, tries[i - 1]);
      var a := ActionOf(r, tries[i - 1]);
      if a.Some? {
        ActedPrefix(Node(w, map[]), before, before + [a.value], |before|);
      }
    }
  }

  /** What each of the three writes leaves; the event carries the digest that was recorded before. */
  lemma RecordedIs(w: World, cfg: Pins, name: string, sw: Swap, at: int, engine: string, n: nat)
    requires n <= 3
    ensures var r := Recorded(w, cfg, name, sw, at, engine, n);
      && r.db == (if n < 1 then w.db else w.db[name := Artifact(sw.digest, sw.updatedAt, sw.swappedAt)])
      && r.log == (if n < 2 then w.log
                   else w.log + [Event(at, DBUpdated, "", "operator", "build", engine,
                                       DBUpdatedData(name, sw.digest, if name in w.db then w.db[name].digest else ""))])
      && r.pins == (if n < 3 then w.pins
                    else if name == "java-db" then Pins(cfg.vuln, sw.digest) else Pins(sw.digest, cfg.java))
  {
  }

  /** A recording gets past its first write only for a known artifact, a digest and an engine. */
  lemma LandedIs(w: World, name: string, sw: Swap, at: int, engine: string, writes: nat)
    requires writes <= 3
    ensures Landed(w, name, sw, at, engine, writes) ==
      if writes > 1 && !((name == "vuln" || name == "java-db") && sw.digest != "" && engine != "") then 1 else writes
  {
  }

  /** A run that is not cut short has updated as many artifacts as it logged. */
  lemma {:induction false} UpdatedAreLogged(w: World, cfg: Pins, tries: seq<Try>, i: nat)
    requires i <= |tries|
    ensures var r := Session(w, cfg, tries, i);
      r.alive ==> |r.world.log| == |w.log| + r.updated
  {
    if i > 0 {
      UpdatedAreLogged(w, cfg, tries, i - 1);
    }
  }

  /** The artifacts reached: all tries up to the one that ends the run, but for java-db without a volume. */
  function Reached(tries: seq<Try>, i: nat): nat
    requires i <= |tries|
  {
    if i == 0 then 0
    else Reached(tries, i - 1) + if tries[i - 1].artifact == "java-db" && tries[i - 1].outcome.NoVolume? then 0 else 1
  }

  lemma {:induction false} ConsideredAreReached(w: World, cfg: Pins, tries: seq<Try>, i: nat)
    requires i <= |tries|
    ensures var r := Session(w, cfg, tries, i); r.considered <= Reached(tries, i) && (r.alive ==> r.considered == Reached(tries, i))
  {
    if i > 0 {
      ConsideredAreReached(w, cfg, tries, i - 1);
    }
  }

  predicate Names(name: string) {
    name == VULN || name == JAVA
  }

  predicate Records(ev: Event, name: string, digest: string) {
    ev.kind == DBUpdated && ev.payload.DBUpdatedData? && ev.payload.artifact == name && ev.payload.digest == digest
  }

  ghost predicate Logged(log: seq<Event>, name: string, digest: string) {
    exists i :: 0 <= i < |log| && Records(log[i], name, digest)
  }

  /** A pin is the one the configuration started with, or the log records it. */
  ghost predicate Backed(pins: Pins, first: Pins, log: seq<Event>) {
    forall name :: Names(name) ==> PinOf(pins, name) == PinOf(first, name) || Logged(log, name, PinOf(pins, name))
  }

  ghost predicate AllBacked(n: Node, first: Pins) {
    Backed(n.world.pins, first, n.world.log) && forall p :: p in n.mem ==> Backed(n.mem[p], first, n.world.log)
  }

  lemma BackedGrows(pins: Pins, first: Pins, log: seq<Event>, more: seq<Event>)
    requires Backed(pins, first, log)
    ensures Backed(pins, first, log + more)
  {
    forall name | Names(name)
      ensures PinOf(pins, name) == PinOf(first, name) || Logged(log + more, name, PinOf(pins, name))
    {
      if PinOf(pins, name) != PinOf(first, name) {
        var i :| 0 <= i < |log| && Records(log[i], name, PinOf(pins, name));
        assert (log + more)[i] == log[i];
      }
    }
  }

  lemma BackedPinned(pins: Pins, first: Pins, log: seq<Event>, name: string, ev: Event, digest: string)
    requires Names(name) && Backed(pins, first, log) && Records(ev, name, digest)
    ensures Backed(WithPin(pins, name, digest), first, log + [ev])
  {
    BackedGrows(pins, first, log, [ev]);
    assert (log + [ev])[|log|] == ev;
    assert Logged(log + [ev], name, digest);
    forall other | Names(other)
      ensures var d := PinOf(WithPin(pins, name, digest), other);
        d == PinOf(first, other) || Logged(log + [ev], other, d)
    {
      if other != name {
        assert PinOf(WithPin(pins, name, digest), other) == PinOf(pins, other);
      }
    }
  }

  lemma AllBackedGrows(n: Node, first: Pins, more: seq<Event>)
    requires AllBacked(n, first)
    ensures Backed(n.world.pins, first, n.world.log + more)
    ensures forall p :: p in n.mem ==> Backed(n.mem[p], first, n.world.log + more)
  {
    BackedGrows(n.world.pins, first, n.world.log, more);
    forall p | p in n.mem ensures Backed(n.mem[p], first, n.world.log + more) {
      BackedGrows(n.mem[p], first, n.world.log, more);
    }
  }

  lemma RecordBacked(n: Node, a: Action, first: Pins)
    requires AllBacked(n, first) && a.Record? && Names(a.artifact) && !Skipped(n, a)
    ensures AllBacked(Act(n, a), first)
  {
    var after := Act(n, a);
    if Writes(n, a) >= 2 {
      var ev := UpdateEvent(n.world, a.artifact, a.sw, a.at, a.engine);
      BackedPinned(n.mem[a.run], first, n.world.log, a.artifact, ev, a.sw.digest);
      AllBackedGrows(n, first, [ev]);
      assert after.world.log == n.world.log + [ev];
    } else {
      assert after.world.log == n.world.log && after.world.pins == n.world.pins;
    }
  }

  lemma ActBacked(n: Node, a: Action, first: Pins)
    requires AllBacked(n, first) && (a.Record? ==> Names(a.artifact))
    ensures AllBacked(Act(n, a), first)
  {
    if a.Record? && !Skipped(n, a) {
      RecordBacked(n, a, first);
    }
  }

  /** However runs overlap, stop and are retried, every pin update-db wrote is recorded in the log. */
  lemma {:induction false} PinsAreLogged(n: Node, acts: seq<Action>, i: nat)
    requires n.mem == map[] && i <= |acts|
    requires forall k :: 0 <= k < |acts| && acts[k].Record? ==> Names(acts[k].artifact)
    ensures AllBacked(Acted(n, acts, i), n.world.pins)
  {
    if i > 0 {
      PinsAreLogged(n, acts, i - 1);
      ActBacked(Acted(n, acts, i - 1), acts[i - 1], n.world.pins);
    }
  }

  // ---------------------------------------------------------------------
  // State record, last event and pin
  // ---------------------------------------------------------------------

  predicate IsUpdateOf(ev: Event, name: string) {
    ev.kind == DBUpdated && ev.payload.DBUpdatedData? && ev.payload.artifact == name
  }

  /** The digest of the last event for an artifact. */
  function LastLogged(log: seq<Event>, name: string): Option<string> {
    if log == [] then None
    else if IsUpdateOf(log[|log| - 1], name) then Some(log[|log| - 1].payload.digest)
    else LastLogged(log[..|log| - 1], name)
  }

  lemma {:induction false} LastLoggedAppend(log: seq<Event>, ev: Event, name: string)
    ensures LastLogged(log + [ev], name) == if IsUpdateOf(ev, name) then Some(ev.payload.digest) else LastLogged(log, name)
  {
    assert (log + [ev])[..|log|] == log;
  }

  predicate Aligned(w: World, name: string) {
    && name in w.db
    && w.db[name].digest == PinOf(w.pins, name)
    && LastLogged(w.log, name) == Some(PinOf(w.pins, name))
  }

  /** What a recording makes of the agreement of the three, from what it finds. */
  predicate AlignedAfter(n: Node, a: Action, name: string)
    requires a.Record? && !Skipped(n, a)
  {
    var digest, writes, held := a.sw.digest, Writes(n, a), PinOf(n.mem[a.run], name);
    if a.artifact == name then
      match writes
      case 0 => Aligned(n.world, name)
      case 1 => PinOf(n.world.pins, name) == digest && LastLogged(n.world.log, name) == Some(digest)
      case 2 => PinOf(n.world.pins, name) == digest
      case _ => true
    else if writes < 3 then Aligned(n.world, name)
    else DigestOf(n.world, name) == held && name in n.world.db && LastLogged(n.world.log, name) == Some(held)
  }

  /**
   Under any overlap: a completed recording aligns its own artifact, one that stopped
   does so only if what it had not written was already there; of the other artifact a
   completed one writes back the pin its run holds in memory.
   */
  lemma RecordAlignsIff(n: Node, a: Action, name: string)
    requires Names(name) && a.Record? && Names(a.artifact) && !Skipped(n, a)
    ensures Aligned(Act(n, a).world, name) <==> AlignedAfter(n, a, name)
  {
    LastLoggedAppend(n.world.log, UpdateEvent(n.world, a.artifact, a.sw, a.at, a.engine), name);
  }

  /** So an artifact stays aligned through a recording of the other exactly when that stops or holds the right pin. */
  lemma OtherStaysIff(n: Node, a: Action, name: string)
    requires Names(name) && a.Record? && Names(a.artifact) && !Skipped(n, a) && a.artifact != name && Aligned(n.world, name)
    ensures Aligned(Act(n, a).world, name) <==> Writes(n, a) < 3 || PinOf(n.mem[a.run], name) == PinOf(n.world.pins, name)
  {
    RecordAlignsIff(n, a, name);
  }

  function SwapTo(digest: string): Swap {
    Swap(digest, 0, 0)
  }

  /** One run records the vulnerability database, and the other, loaded before that, the Java database. */
  function Overlap(): seq<Action> {
    [Load(0), Load(1), Record(1, VULN, SwapTo("c"), 0, "engine", 3), Record(0, JAVA, SwapTo("d"), 0, "engine", 3)]
  }

  /** The second one's write takes back the first one's pin. */
  lemma OverlapUnpins(log: seq<Event>)
    ensures var n := Node(World(map[], log, Pins("a", "b")), map[]);
      var three, end := Acted(n, Overlap(), 3), Acted(n, Overlap(), 4);
      && Aligned(three.world, VULN)
      && end.world.pins == Pins("a", "d") && Aligned(end.world, JAVA) && !Aligned(end.world, VULN)
  {
    var acts, n := Overlap(), Node(World(map[], log, Pins("a", "b")), map[]);
    assert Acted(n, acts, 0) == n && Acted(n, acts, 1) == Node(n.world, map[0 := Pins("a", "b")]);
    var two, three := Acted(n, acts, 2), Acted(n, acts, 3);
    assert two == Node(n.world, map[0 := Pins("a", "b"), 1 := Pins("a", "b")]);
    assert "c"[0] != "a"[0] && "d"[0] != "b"[0];
    assert !Skipped(two, acts[2]) && Writes(two, acts[2]) == 3;
    RecordAlignsIff(two, acts[2], VULN);
    assert three.mem[0] == Pins("a", "b") && three.world.pins == Pins("c", "b");
    assert !Skipped(three, acts[3]) && Writes(three, acts[3]) == 3;
    RecordAlignsIff(three, acts[3], JAVA);
    OtherStaysIff(three, acts[3], VULN);
  }

  // ---------------------------------------------------------------------
  // The last writers
  // ---------------------------------------------------------------------

  /** How many writes land does not depend on what is there. */
  function Lands(a: Action): nat
    requires a.Record?
  {
    Landed(World(map[], [], Pins("", "")), a.artifact, a.sw, a.at, a.engine, a.writes)
  }

  /** The pin a run holds in memory: the one it loaded, or its own last recording's. */
  function Held(n: Node, acts: seq<Action>, run: nat, name: string, i: nat): Option<string>
    requires i <= |acts|
    decreases i, 0
  {
    if i == 0 then if run in n.mem then Some(PinOf(n.mem[run], name)) else None
    else
      var before, a := Held(n, acts, run, name, i - 1), acts[i - 1];
      if a.run != run then before
      else
        match a
        case Load(_) => Some(Pinned(n, acts, name, i - 1))
        case Quit(_) => None
        case Record(_, artifact, sw, _, _, _) =>
          if !Goes(n, acts, i - 1) then before
          else if Lands(a) < 3 then None
          else if artifact == name then Some(sw.digest) else before
  }

  /** Action i records: its run is alive and holds another pin. */
  predicate Goes(n: Node, acts: seq<Action>, i: nat)
    requires i < |acts|
    decreases i, 1
  {
    acts[i].Record? &&
    var held := Held(n, acts, acts[i].run, acts[i].artifact, i);
    held.Some? && held.value != acts[i].sw.digest
  }

  /** The pin: what the last completed recording, of either artifact, wrote for this one. */
  function Pinned(n: Node, acts: seq<Action>, name: string, i: nat): string
    requires i <= |acts|
    decreases i, 2
  {
    if i == 0 then PinOf(n.world.pins, name)
    else
      var a := acts[i - 1];
      if !Goes(n, acts, i - 1) || Lands(a) < 3 then Pinned(n, acts, name, i - 1)
      else if a.artifact == name then a.sw.digest
      else
        var held := Held(n, acts, a.run, name, i - 1);
        if held.Some? then held.value else ""
  }

  /** The state record and the last event: those of the last recording that got so far. */
  function Booked(n: Node, acts: seq<Action>, name: string, i: nat): Option<string>
    requires i <= |acts|
  {
    if i == 0 then if name in n.world.db then Some(n.world.db[name].digest) else None
    else if Goes(n, acts, i - 1) && acts[i - 1].artifact == name && Lands(acts[i - 1]) >= 1 then Some(acts[i - 1].sw.digest)
    else Booked(n, acts, name, i - 1)
  }

  function Told(n: Node, acts: seq<Action>, name: string, i: nat): Option<string>
    requires i <= |acts|
  {
    if i == 0 then LastLogged(n.world.log, name)
    else if Goes(n, acts, i - 1) && acts[i - 1].artifact == name && Lands(acts[i - 1]) >= 2 then Some(acts[i - 1].sw.digest)
    else Told(n, acts, name, i - 1)
  }

  predicate NamedOnly(acts: seq<Action>) {
    forall k :: 0 <= k < |acts| && acts[k].Record? ==> Names(acts[k].artifact)
  }

  function InMemory(now: Node, run: nat, name: string): Option<string> {
    if run in now.mem then Some(PinOf(now.mem[run], name)) else None
  }

  /** What the list of actions says of one artifact is what the world holds. */
  ghost predicate Remembers(n: Node, acts: seq<Action>, now: Node, name: string, i: nat)
    requires i <= |acts|
  {
    && (forall run: nat :: Held(n, acts, run, name, i) == InMemory(now, run, name))
    && Pinned(n, acts, name, i) == PinOf(now.world.pins, name)
    && Booked(n, acts, name, i) == (if name in now.world.db then Some(now.world.db[name].digest) else None)
    && Told(n, acts, name, i) == LastLogged(now.world.log, name)
  }

  lemma {:induction false} GoesMeans(n: Node, acts: seq<Action>, now: Node, i: nat)
    requires i < |acts| && acts[i].Record? && Remembers(n, acts, now, acts[i].artifact, i)
    ensures Goes(n, acts, i) <==> !Skipped(now, acts[i])
    ensures Lands(acts[i]) == Writes(now, acts[i])
  {
    assert Held(n, acts, acts[i].run, acts[i].artifact, i) == InMemory(now, acts[i].run, acts[i].artifact);
  }

  lemma {:induction false} HeldNext(n: Node, acts: seq<Action>, now: Node, name: string, i: nat, run: nat)
    requires i < |acts| && NamedOnly(acts) && Names(name) && Remembers(n, acts, now, name, i)
    requires acts[i].Record? ==> Remembers(n, acts, now, acts[i].artifact, i)
    ensures Held(n, acts, run, name, i + 1) == InMemory(Act(now, acts[i]), run, name)
  {
    assert Held(n, acts, run, name, i) == InMemory(now, run, name);
    if acts[i].Record? {
      GoesMeans(n, acts, now, i);
    }
  }

  lemma {:induction false} WrittenNext(n: Node, acts: seq<Action>, now: Node, name: string, i: nat)
    requires i < |acts| && NamedOnly(acts) && Names(name) && Remembers(n, acts, now, name, i)
    requires acts[i].Record? ==> Remembers(n, acts, now, acts[i].artifact, i)
    ensures var w := Act(now, acts[i]).world;
      && Pinned(n, acts, name, i + 1) == PinOf(w.pins, name)
      && Booked(n, acts, name, i + 1) == (if name in w.db then Some(w.db[name].digest) else None)
      && Told(n, acts, name, i + 1) == LastLogged(w.log, name)
  {
    var a := acts[i];
    if a.Record? {
      GoesMeans(n, acts, now, i);
      assert Held(n, acts, a.run, name, i) == InMemory(now, a.run, name);
      LastLoggedAppend(now.world.log, UpdateEvent(now.world, a.artifact, a.sw, a.at, a.engine), name);
    }
  }

  lemma RemembersNext(n: Node, acts: seq<Action>, now: Node, name: string, i: nat)
    requires i < |acts| && NamedOnly(acts) && Names(name) && Remembers(n, acts, now, name, i)
    requires acts[i].Record? ==> Remembers(n, acts, now, acts[i].artifact, i)
    ensures Remembers(n, acts, Act(now, acts[i]), name, i + 1)
  {
    forall run: nat ensures Held(n, acts, run, name, i + 1) == InMemory(Act(now, acts[i]), run, name) {
      HeldNext(n, acts, now, name, i, run);
    }
    WrittenNext(n, acts, now, name, i);
  }

  lemma {:induction false} WorldRemembers(n: Node, acts: seq<Action>, name: string, i: nat)
    requires i <= |acts| && NamedOnly(acts) && Names(name)
    ensures Remembers(n, acts, Acted(n, acts, i), name, i)
    decreases i
  {
    if i > 0 {
      WorldRemembers(n, acts, name, i - 1);
      if acts[i - 1].Record? {
        WorldRemembers(n, acts, acts[i - 1].artifact, i - 1);
      }
      RemembersNext(n, acts, Acted(n, acts, i - 1), name, i - 1);
    }
  }

  /**
   However runs overlap, stop and are retried: state record, last event and pin are
   equal exactly when the last recording to reach each of the three left the same digest.
   */
  lemma {:induction false} AlignedIffLastWriters(n: Node, acts: seq<Action>, name: string, i: nat)
    requires i <= |acts| && NamedOnly(acts) && Names(name)
    ensures Aligned(Acted(n, acts, i).world, name) <==>
            Booked(n, acts, name, i) == Told(n, acts, name, i) == Some(Pinned(n, acts, name, i))
  {
    WorldRemembers(n, acts, name, i);
  }

  // ---------------------------------------------------------------------
  // One process at a time
  // ---------------------------------------------------------------------

  /** One process at a time: a run that stopped reloads before it goes on. */
  ghost predicate UpToDate(n: Node) {
    forall p :: p in n.mem ==> n.mem[p] == n.world.pins
  }

  ghost predicate Sequential(acts: seq<Action>) {
    forall i :: 0 <= i < |acts| ==> acts[i].run == 0
  }

  lemma {:induction false} StayUpToDate(n: Node, acts: seq<Action>, i: nat)
    requires i <= |acts| && Sequential(acts) && n.mem == map[]
    ensures UpToDate(Acted(n, acts, i)) && forall p :: p in Acted(n, acts, i).mem ==> p == 0
  {
    if i > 0 {
      StayUpToDate(n, acts, i - 1);
    }
  }

  /** The last recording for the artifact that wrote anything wrote everything. */
  predicate Settled(n: Node, acts: seq<Action>, name: string, i: nat)
    requires i <= |acts|
  {
    if i == 0 then Aligned(n.world, name)
    else
      var before, a := Acted(n, acts, i - 1), acts[i - 1];
      if !a.Record? || Skipped(before, a) || a.artifact != name || Writes(before, a) == 0 then Settled(n, acts, name, i - 1)
      else Writes(before, a) == 3
  }

  /** Then the three are equal exactly when the last recording that wrote anything wrote everything. */
  lemma {:induction false} AlignedIffSettled(n: Node, acts: seq<Action>, name: string, i: nat)
    requires i <= |acts| && Sequential(acts) && n.mem == map[] && Names(name)
    requires forall k :: 0 <= k < |acts| && acts[k].Record? ==> Names(acts[k].artifact)
    ensures Aligned(Acted(n, acts, i).world, name) <==> Settled(n, acts, name, i)
  {
    if i > 0 {
      AlignedIffSettled(n, acts, name, i - 1);
      StayUpToDate(n, acts, i - 1);
      var before, a := Acted(n, acts, i - 1), acts[i - 1];
      if a.Record? && !Skipped(before, a) {
        RecordAlignsIff(before, a, name);
      }
    }
  }

  /**
   A recording that stopped before the pin is retried by a run that loads anew, unless
   the pin is already the digest; a retry that completes makes all three equal.
   */
  lemma RetrySettles(n: Node, a: Action, run: nat)
    requires a.Record? && Names(a.artifact) && !Skipped(n, a) && Writes(n, a) < 3
    requires Valid(UpdateEvent(n.world, a.artifact, a.sw, a.at, a.engine))
    ensures var stopped, again := Act(Act(n, a), Load(run)), a.(run := run, writes := 3);
      && (Skipped(stopped, again) <==> PinOf(n.world.pins, a.artifact) == a.sw.digest)
      && (!Skipped(stopped, again) ==>
            Aligned(Act(stopped, again).world, a.artifact) && PinOf(Act(stopped, again).world.pins, a.artifact) == a.sw.digest)
  {
    var stopped, again := Act(Act(n, a), Load(run)), a.(run := run, writes := 3);
    if !Skipped(stopped, again) {
      RecordAlignsIff(stopped, again, a.artifact);
    }
  }
}
