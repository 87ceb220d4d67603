/**
 `Merge` (merge.go:35-117): the loops over shared secret groups and merged
 findings, equal to what `Merge.dfy` says they mean.
 */
module Collapse {
  import opened Findings
  import opened Delta
  import opened Merge
  import opened Rebuild

  // ---------------------------------------------------------------------
  // What one more member does
  // ---------------------------------------------------------------------

  /** A better newcomer displaces the winner, any other one joins the losers. */
  lemma GroupGrows(ms: seq<Obs>, f: Obs)
    requires ms != []
    ensures GroupOf(ms + [f]) == Joined(GroupOf(ms), f)
  {
    var ms', n := ms + [f], |ms|;
    BestPrefix(ms, ms', n);
    var w := Best(ms, n);
    assert w == 0 || Priority(ms[w]) < Priority(ms[0]);
    LosersGrow(ms, f, w);
  }

  lemma LosersGrow(ms: seq<Obs>, f: Obs, w: nat)
    requires w < |ms|
    ensures Losers(ms + [f], w) == Losers(ms, w) + [f]
    ensures Losers(ms + [f], |ms|) == Losers(ms, 0) + [ms[0]]
  {
    assert (ms + [f])[1..|ms|] == ms[1..];
    assert w > 0 ==> (ms + [f])[w + 1..] == ms[w + 1..] + [f];
  }

  lemma {:induction false} LocsPrefix(locs: seq<Location>, a: seq<Location>, b: seq<Location>, i: nat)
    requires i <= |a| && a <= b
    ensures LocsUpTo(locs, b, i) == LocsUpTo(locs, a, i)
  {
    if i > 0 {
      LocsPrefix(locs, a, b, i - 1);
    }
  }

  lemma MembersGrow(h: Hashes, ms: seq<Obs>, f: Obs)
    requires ms != []
    ensures var m := FromMembers(h, ms);
      FromMembers(h, ms + [f]) == Observed(m, f)
  {
    var ms' := ms + [f];
    LocsPrefix([LocOf(ms[0])], Sites(ms), Sites(ms'), |ms|);
    assert AnyDev(ms') <==> AnyDev(ms) || f.dev by {
      assert ms'[|ms|] == f;
      if AnyDev(ms) {
        var i :| 0 <= i < |ms| && ms[i].dev;
        assert ms'[i].dev;
      }
    }
  }

  lemma FirstMember(h: Hashes, f: Obs)
    ensures FromMembers(h, [f]) == ToMerged(h, f, false).(fp := FpOf(h, f))
    ensures GroupOf([f]) == Group(f, [])
  {
    assert AnyDev([f]) == f.dev by {
      if f.dev {
        assert [f][0].dev;
      }
    }
    assert Sites([f])[0] == LocOf(f);
    assert LocsUpTo([LocOf(f)], Sites([f]), 1) == [LocOf(f)];
  }

  // ---------------------------------------------------------------------
  // The secret groups
  // ---------------------------------------------------------------------

  function Joined(g: Group, f: Obs): Group {
    if Priority(f) < Priority(g.winner) then Group(f, g.losers + [g.winner]) else Group(g.winner, g.losers + [f])
  }

  /** A *secretGroup. */
  class GroupRef {
    var winner: Obs
    var losers: seq<Obs>

    constructor (f: Obs)
      ensures winner == f && losers == []
    {
      winner, losers := f, [];
    }

    function Value(): Group
      reads this
    {
      Group(winner, losers)
    }

    method Join(f: Obs)
      modifies this
      ensures Value() == Joined(old(Value()), f)
    {
      if Priority(f) < Priority(winner) {
        losers := losers + [winner];
        winner := f;
      } else {
        losers := losers + [f];
      }
    }
  }

  /** The groups after i observations, by key. */
  function GroupsUpTo(h: Hashes, fs: seq<Obs>, i: nat): map<string, Group>
    requires i <= |fs|
  {
    if i == 0 then map[]
    else
      var gs, f := GroupsUpTo(h, fs, i - 1), fs[i - 1];
      if !Collapses(f) then gs
      else gs[Key(h, f) := if Key(h, f) in gs then Joined(gs[Key(h, f)], f) else Group(f, [])]
  }

  /** They are the groups of the members. */
  lemma {:induction false} GroupsAre(h: Hashes, fs: seq<Obs>, i: nat, key: string)
    requires i <= |fs|
    ensures var ms, gs := MembersUpTo(SecretLabels(h), fs, key, i), GroupsUpTo(h, fs, i);
      if ms == [] then key !in gs else key in gs && gs[key] == GroupOf(ms)
  {
    if i > 0 {
      GroupsAre(h, fs, i - 1, key);
      OneMoreMember(h, MembersUpTo(SecretLabels(h), fs, key, i - 1), fs[i - 1]);
    }
  }

  lemma OneMoreMember(h: Hashes, ms: seq<Obs>, f: Obs)
    ensures GroupOf(ms + [f]) == if ms == [] then Group(f, []) else Joined(GroupOf(ms), f)
  {
    if ms == [] {
      FirstMember(h, f);
      assert ms + [f] == [f];
    } else {
      GroupGrows(ms, f);
    }
  }

  ghost function Values(groups: map<string, GroupRef>): (vs: map<string, Group>)
    reads groups.Values
    ensures vs.Keys == groups.Keys
    ensures forall key :: key in groups ==> vs[key] == groups[key].Value()
  {
    map key | key in groups :: groups[key].Value()
  }

  ghost predicate Apart(groups: map<string, GroupRef>) {
    forall a, b :: a in groups && b in groups && a != b ==> groups[a] != groups[b]
  }

  /** The groups after i observations, and the order in which their keys appeared. */
  ghost predicate Grouped(h: Hashes, fs: seq<Obs>, i: nat, order: seq<string>, groups: map<string, GroupRef>)
    requires i <= |fs|
    reads groups.Values
  {
    && order == LabelsUpTo(SecretLabels(h), fs, i)
    && Values(groups) == GroupsUpTo(h, fs, i)
    && Apart(groups)
  }

  lemma {:induction false} KnownKey(h: Hashes, fs: seq<Obs>, i: nat, key: string)
    requires i <= |fs|
    ensures key in LabelsUpTo(SecretLabels(h), fs, i) <==> key in GroupsUpTo(h, fs, i)
  {
    LabelsAre(SecretLabels(h), fs, i);
    GroupsAre(h, fs, i, key);
  }

  method Sort(h: Hashes, fs: seq<Obs>) returns (order: seq<string>, groups: map<string, GroupRef>, rest: seq<Obs>)
    ensures Grouped(h, fs, |fs|, order, groups) && rest == Rest(fs)
    ensures fresh(groups.Values)
  {
    order, groups, rest := [], map[], [];
    for i := 0 to |fs|
      invariant Grouped(h, fs, i, order, groups) && rest == RestUpTo(fs, i)
      invariant fresh(groups.Values)
    {
      if SecretRule(fs[i]) && !Blank(fs[i].snippet) {
        order, groups := Place(h, fs, i, order, groups);
      } else {
        rest := rest + [fs[i]];
      }
    }
  }

  method Place(h: Hashes, fs: seq<Obs>, i: nat, order: seq<string>, groups: map<string, GroupRef>)
    returns (order': seq<string>, groups': map<string, GroupRef>)
    requires i < |fs| && Collapses(fs[i]) && Grouped(h, fs, i, order, groups)
    modifies groups.Values
    ensures Grouped(h, fs, i + 1, order', groups')
    ensures forall key :: key in groups' ==> groups'[key] in groups.Values || fresh(groups'[key])
  {
    var f, key := fs[i], Key(h, fs[i]);
    KnownKey(h, fs, i, key);
    if key !in groups {
      groups' := Open(groups, key, f);
      order' := order + [key];
    } else {
      Enlist(groups, key, f);
      order', groups' := order, groups;
    }
  }

  method Open(groups: map<string, GroupRef>, key: string, f: Obs) returns (groups': map<string, GroupRef>)
    requires key !in groups && Apart(groups)
    ensures Values(groups') == Values(groups)[key := Group(f, [])] && Apart(groups')
    ensures forall k :: k in groups' ==> groups'[k] in groups.Values || fresh(groups'[k])
  {
    var g := new GroupRef(f);
    groups' := groups[key := g];
    assert Values(groups') == Values(groups)[key := Group(f, [])];
  }

  method Enlist(groups: map<string, GroupRef>, key: string, f: Obs)
    requires key in groups && Apart(groups)
    modifies groups[key]
    ensures Values(groups) == old(Values(groups))[key := Joined(old(groups[key].Value()), f)]
  {
    groups[key].Join(f);
    assert Values(groups) == old(Values(groups))[key := Joined(old(groups[key].Value()), f)];
  }

  /** The losers leave their rule ids and their locations with the winner. */
  method Absorb(h: Hashes, g: GroupRef) returns (m: Merged)
    ensures m == FromGroup(h, g.Value())
  {
    m := ToMerged(h, g.winner, true);
    for i := 0 to |g.losers|
      invariant m == ToMerged(h, g.winner, true).(
        also := RulesOf(g.losers[..i]), collapsedWith := RulesOf(g.losers[..i]),
        locs := LocsUpTo([LocOf(g.winner)], Sites(g.losers), i))
    {
      var l := g.losers[i];
      assert RulesOf(g.losers[..i + 1]) == RulesOf(g.losers[..i]) + [l.ruleId];
      var locs := AppendUniqueLoc(m.locs, Location(l.path, l.line));
      m := m.(also := m.also + [l.ruleId], collapsedWith := m.collapsedWith + [l.ruleId], locs := locs);
    }
    assert g.losers[..|g.losers|] == g.losers;
  }

  // ---------------------------------------------------------------------
  // The merged findings
  // ---------------------------------------------------------------------

  /** A *MergedFinding. */
  class MergedRef {
    var val: Merged

    constructor (v: Merged)
      ensures val == v
    {
      val := v;
    }
  }

  function Contents(out: seq<MergedRef>): (vs: seq<Merged>)
    reads out
    ensures |vs| == |out| && forall i :: 0 <= i < |out| ==> vs[i] == out[i].val
  {
    seq(|out|, i requires 0 <= i < |out| reads out => out[i].val)
  }

  method Append(out: seq<MergedRef>, m: Merged) returns (out': seq<MergedRef>)
    ensures Contents(out') == Contents(out) + [m]
    ensures forall k :: 0 <= k < |out'| ==> out'[k] in out || fresh(out'[k])
  {
    var c := new MergedRef(m);
    out' := out + [c];
  }

  method Concat(a: seq<MergedRef>, b: seq<MergedRef>) returns (out: seq<MergedRef>)
    ensures Contents(out) == Contents(a) + Contents(b)
  {
    out := a + b;
  }

  method Winners(h: Hashes, fs: seq<Obs>, order: seq<string>, groups: map<string, GroupRef>) returns (out: seq<MergedRef>)
    requires Grouped(h, fs, |fs|, order, groups)
    ensures fresh(out) && Contents(out) == Secrets(h, fs)
  {
    ghost var secrets := Secrets(h, fs);
    out := [];
    for i := 0 to |order|
      invariant fresh(out) && Contents(out) == secrets[..i]
    {
      var m := Winner(h, fs, order, groups, i);
      assert secrets[..i + 1] == secrets[..i] + [m];
      out := Append(out, m);
    }
  }

  method Winner(h: Hashes, fs: seq<Obs>, order: seq<string>, groups: map<string, GroupRef>, i: nat) returns (m: Merged)
    requires Grouped(h, fs, |fs|, order, groups) && i < |order|
    ensures m == Secrets(h, fs)[i]
  {
    KnownKey(h, fs, |fs|, order[i]);
    GroupsAre(h, fs, |fs|, order[i]);
    m := Absorb(h, groups[order[i]]);
  }

  /** The other findings after i of the remaining observations. */
  function OthersUpTo(h: Hashes, rest: seq<Obs>, i: nat): (out: seq<Merged>)
    requires i <= |rest|
    ensures |out| == |LabelsUpTo(RestLabels(h), rest, i)|
  {
    var ks := LabelsUpTo(RestLabels(h), rest, i);
    seq(|ks|, k requires 0 <= k < |ks| => MadeUpTo(h, rest, ks[k], i))
  }

  function MadeUpTo(h: Hashes, rest: seq<Obs>, fp: string, i: nat): Merged
    requires i <= |rest|
  {
    var ms := MembersUpTo(RestLabels(h), rest, fp, i);
    if ms == [] then NOTHING else FromMembers(h, ms)
  }

  function Observed(m: Merged, f: Obs): Merged {
    m.(dev := m.dev || f.dev, locs := AddLoc(m.locs, LocOf(f)))
  }

  /** One more observation: a new finding. */
  lemma OthersGain(h: Hashes, rest: seq<Obs>, i: nat)
    requires i < |rest| && FpOf(h, rest[i]) !in LabelsUpTo(RestLabels(h), rest, i)
    ensures OthersUpTo(h, rest, i + 1) ==
            OthersUpTo(h, rest, i) + [ToMerged(h, rest[i], false).(fp := FpOf(h, rest[i]))]
  {
    LabelsAre(RestLabels(h), rest, i);
    FirstMember(h, rest[i]);
    assert [] + [rest[i]] == [rest[i]];
  }

  /** Or a known one gets its location and its dev mark. */
  lemma {:induction false} OthersGrow(h: Hashes, rest: seq<Obs>, i: nat, k: nat)
    requires i < |rest| && k < |LabelsUpTo(RestLabels(h), rest, i)|
    requires FpOf(h, rest[i]) == LabelsUpTo(RestLabels(h), rest, i)[k]
    ensures var out := OthersUpTo(h, rest, i); OthersUpTo(h, rest, i + 1) == out[k := Observed(out[k], rest[i])]
  {
    var ks := LabelsUpTo(RestLabels(h), rest, i);
    LabelsAre(RestLabels(h), rest, i);
    assert ks[k] in ks;
    MembersGrow(h, MembersUpTo(RestLabels(h), rest, ks[k], i), rest[i]);
    assert forall j :: 0 <= j < |ks| && j != k ==> ks[j] != ks[k];
  }

  /** The map is the index of the list. */
  ghost predicate Linked(byFP: map<string, MergedRef>, ks: seq<string>, out: seq<MergedRef>) {
    && |out| == |ks|
    && (forall j, k :: 0 <= j < k < |out| ==> out[j] != out[k])
    && (forall k :: 0 <= k < |ks| ==> ks[k] in byFP && byFP[ks[k]] == out[k])
    && (forall fp :: fp in byFP ==> fp in ks)
  }

  ghost predicate Gathered(h: Hashes, rest: seq<Obs>, i: nat, out: seq<MergedRef>, byFP: map<string, MergedRef>)
    requires i <= |rest|
    reads out
  {
    Linked(byFP, LabelsUpTo(RestLabels(h), rest, i), out) && Contents(out) == OthersUpTo(h, rest, i)
  }

  method Gather(h: Hashes, rest: seq<Obs>) returns (out: seq<MergedRef>)
    ensures fresh(out) && Contents(out) == Others(h, rest)
  {
    out := [];
    var byFP: map<string, MergedRef> := map[];
    for i := 0 to |rest|
      invariant Gathered(h, rest, i, out, byFP)
      invariant fresh(out)
    {
      out, byFP := Add(h, rest, i, out, byFP);
    }
    assert OthersUpTo(h, rest, |rest|) == Others(h, rest);
  }

  method Add(h: Hashes, rest: seq<Obs>, i: nat, out: seq<MergedRef>, byFP: map<string, MergedRef>)
    returns (out': seq<MergedRef>, byFP': map<string, MergedRef>)
    requires i < |rest| && Gathered(h, rest, i, out, byFP)
    modifies out
    ensures Gathered(h, rest, i + 1, out', byFP')
    ensures forall k :: 0 <= k < |out'| ==> out'[k] in out || fresh(out'[k])
  {
    var f := rest[i];
    var fp := if f.scanner == "trivy-image" then h.image(f.image, f.ruleId, f.pkg, f.version)
              else h.of(RuleKey(f), h.span(f.snippet));
    ghost var ks := LabelsUpTo(RestLabels(h), rest, i);
    if fp in byFP {
      ghost var k: nat :| k < |ks| && ks[k] == fp;
      OthersGrow(h, rest, i, k);
      Observe(byFP[fp], f, out, k);
      out', byFP' := out, byFP;
    } else {
      OthersGain(h, rest, i);
      out', byFP' := Enter(ToMerged(h, f, false).(fp := fp), ks, out, byFP);
    }
  }

  method Enter(v: Merged, ghost ks: seq<string>, out: seq<MergedRef>, byFP: map<string, MergedRef>)
    returns (out': seq<MergedRef>, byFP': map<string, MergedRef>)
    requires Linked(byFP, ks, out) && v.fp !in ks
    ensures Linked(byFP', ks + [v.fp], out') && Contents(out') == Contents(out) + [v]
    ensures forall k :: 0 <= k < |out'| ==> out'[k] in out || fresh(out'[k])
  {
    var m := new MergedRef(v);
    byFP' := byFP[v.fp := m];
    out' := out + [m];
  }

  method Observe(c: MergedRef, f: Obs, ghost out: seq<MergedRef>, ghost k: nat)
    requires k < |out| && out[k] == c && forall i, j :: 0 <= i < j < |out| ==> out[i] != out[j]
    modifies c
    ensures Contents(out) == old(Contents(out))[k := Observed(old(c.val), f)]
  {
    if f.dev {
      c.val := c.val.(dev := true);
    }
    var locs := AppendUniqueLoc(c.val.locs, Location(f.path, f.line));
    c.val := c.val.(locs := locs);
    assert Contents(out) == old(Contents(out))[k := Observed(old(c.val), f)];
  }

  /** `Merge`: the secret findings in the order their groups appeared, then the others. */
  method MergeAll(h: Hashes, fs: seq<Obs>) returns (out: seq<MergedRef>)
    ensures Contents(out) == AllMerged(h, fs)
  {
    var order, groups, rest := Sort(h, fs);
    var winners := Winners(h, fs, order, groups);
    var others := Gather(h, rest);
    out := Concat(winners, others);
  }
}
