/**
 The segment table (`scripts/flow.ts`): the execution order resolved into the nodes each
 segment delivers. A segment is a phase number, or a name with its nodes listed.
 */
module SegmentTable {
  import opened Graph
  import opened Sorting
  import opened Lists
  import opened Flow

  datatype Named = Named(segment: string, ids: seq<string>)

  /** `keys` lists the nodes of `byId` in the order the graph does; `number` reads a segment's id as a phase. */
  datatype Table = Table(byId: map<string, Resolved>, keys: seq<string>, order: seq<string>,
                         named: seq<Named>, number: string -> Option<int>)

  ghost predicate Proper(t: Table) {
    && Distinct(t.keys) && (forall id :: id in t.keys <==> id in t.byId)
    && forall i, j | 0 <= i < j < |t.named| :: t.named[i].segment != t.named[j].segment
  }

  function IdsOf(n: Named): seq<string> { n.ids }

  /** Everything the named segments list. */
  function Claimed(t: Table): seq<string> { Gather(t.named, IdsOf) }

  function Find(named: seq<Named>, segment: string): Option<seq<string>> {
    if named == [] then None
    else if named[0].segment == segment then Some(named[0].ids)
    else Find(named[1..], segment)
  }

  ghost predicate ClaimsAreProper(t: Table) {
    Distinct(Claimed(t)) && forall id | id in Claimed(t) :: id in t.byId
  }

  /** The nodes a phase number owns: those of its phase that no named segment lists. */
  function Unclaimed(t: Table, claimed: set<string>, phase: int): seq<string> {
    Sort(Keep(t.keys, id => id in t.byId && t.byId[id].phase == phase && id !in claimed), StrLe)
  }

  function SegmentFor(t: Table, claimed: set<string>, seg: string): Option<Segment> {
    match Find(t.named, seg)
    case Some(ids) =>
      var first := if ids == [] then "" else ids[0];
      if first !in t.byId then None else Some(Segment(seg, t.byId[first].phase, ids))
    case None =>
      match t.number(seg)
      case None => None
      case Some(phase) =>
        var ids := Unclaimed(t, claimed, phase);
        if ids == [] then None else Some(Segment(seg, phase, ids))
  }

  /** Some node of a phase that named segments split is in none of them. */
  predicate Stray(t: Table, claimed: set<string>, segs: seq<Segment>, id: string) {
    id in t.byId && id !in claimed
    && exists k :: 0 <= k < |segs| && Find(t.named, segs[k].id).Some? && segs[k].phase == t.byId[id].phase
  }

  /** The segments of the order as far as `n`. */
  ghost predicate ResolvedTo(t: Table, claimed: set<string>, segs: seq<Segment>, n: nat) {
    n <= |t.order| && |segs| == n && forall k | 0 <= k < n :: SegmentFor(t, claimed, t.order[k]) == Some(segs[k])
  }

  ghost function ClaimedSet(t: Table): set<string> { set id | id in Claimed(t) }

  ghost predicate IsResult(t: Table, segs: seq<Segment>) {
    && t.order != [] && ClaimsAreProper(t)
    && ResolvedTo(t, ClaimedSet(t), segs, |t.order|)
    && forall id | id in t.keys :: !Stray(t, ClaimedSet(t), segs, id)
  }

  // ---- the three loops ----

  lemma ClaimedFrom(t: Table, i: nat) returns (rest: seq<string>)
    requires i < |t.named|
    ensures Claimed(t) == Gather(t.named[..i], IdsOf) + t.named[i].ids + rest
  {
    var b, c := [t.named[i]], t.named[i + 1..];
    assert t.named == t.named[..i] + (b + c);
    GatherSplits(t.named[..i], b + c, IdsOf);
    GatherSplits(b, c, IdsOf);
    GatherOne(t.named[i], IdsOf);
    rest := Gather(c, IdsOf);
  }

  lemma DistinctPrefix<T>(a: seq<T>, b: seq<T>, c: seq<T>, j: nat)
    requires j < |b|
    ensures b[j] in a + b + c
    ensures Distinct(a + b + c) ==> b[j] !in a + b[..j]
  {
    var all, before := a + b + c, a + b[..j];
    assert all[|a| + j] == b[j];
    assert all[..|a| + j] == before;
    forall k | 0 <= k < |before| && before[k] == b[j] ensures !Distinct(all) {
      assert all[k] == all[|a| + j];
    }
  }

  lemma PrefixFails(t: Table, i: nat, j: nat)
    requires i < |t.named| && j < |t.named[i].ids|
    ensures var before := Gather(t.named[..i], IdsOf) + t.named[i].ids[..j];
            ClaimsAreProper(t) ==> t.named[i].ids[j] !in before && t.named[i].ids[j] in t.byId
  {
    var rest := ClaimedFrom(t, i);
    DistinctPrefix(Gather(t.named[..i], IdsOf), t.named[i].ids, rest, j);
  }

  /** The ids of one named segment, each of which must be known and not yet claimed. */
  method ClaimSegment(t: Table, i: nat, taken: set<string>) returns (ok: bool, claimed: set<string>)
    requires i < |t.named| && forall id :: id in taken <==> id in Gather(t.named[..i], IdsOf)
    requires Distinct(Gather(t.named[..i], IdsOf)) && forall id | id in Gather(t.named[..i], IdsOf) :: id in t.byId
    ensures !ok ==> !ClaimsAreProper(t)
    ensures var all := Gather(t.named[..i + 1], IdsOf);
            ok ==> Distinct(all) && (forall id | id in all :: id in t.byId) && forall id :: id in claimed <==> id in all
  {
    claimed := taken;
    var ids := t.named[i].ids;
    for j := 0 to |ids|
      invariant var all := Gather(t.named[..i], IdsOf) + ids[..j];
                Distinct(all) && (forall id | id in all :: id in t.byId) && forall id :: id in claimed <==> id in all
    {
      PrefixFails(t, i, j);
      if ids[j] !in t.byId || ids[j] in claimed {
        return false, claimed;
      }
      claimed := claimed + {ids[j]};
      assert Gather(t.named[..i], IdsOf) + ids[..j + 1] == (Gather(t.named[..i], IdsOf) + ids[..j]) + [ids[j]];
    }
    GatherNext(t.named, i, IdsOf);
    assert ids[..|ids|] == ids;
    ok := true;
  }

  method ClaimAll(t: Table) returns (ok: bool, claimed: set<string>)
    ensures ok <==> ClaimsAreProper(t)
    ensures ok ==> claimed == ClaimedSet(t)
  {
    claimed, ok := {}, true;
    for i := 0 to |t.named|
      invariant var all := Gather(t.named[..i], IdsOf);
                Distinct(all) && (forall id | id in all :: id in t.byId) && forall id :: id in claimed <==> id in all
    {
      ok, claimed := ClaimSegment(t, i, claimed);
      if !ok { return; }
    }
    assert t.named[..|t.named|] == t.named;
    ok := true;
  }

  method ResolveOrder(t: Table, claimed: set<string>) returns (ok: bool, segs: seq<Segment>)
    ensures ok ==> ResolvedTo(t, claimed, segs, |t.order|)
    ensures !ok ==> exists k :: 0 <= k < |t.order| && SegmentFor(t, claimed, t.order[k]).None?
  {
    segs := [];
    for k := 0 to |t.order|
      invariant ResolvedTo(t, claimed, segs, k)
    {
      var s := SegmentFor(t, claimed, t.order[k]);
      if s.None? {
        return false, segs;
      }
      segs := segs + [s.value];
    }
    ok := true;
  }

  method SegmentsOf(t: Table) returns (r: Segments)
    ensures r.Ok? ==> IsResult(t, r.segs)
    ensures r.ConfigError? ==> forall segs :: !IsResult(t, segs)
  {
    if t.order == [] {
      return ConfigError;
    }
    var ok, claimed := ClaimAll(t);
    if !ok {
      return ConfigError;
    }
    var segs;
    ok, segs := ResolveOrder(t, claimed);
    if !ok {
      return ConfigError;
    }
    for i := 0 to |t.keys|
      invariant forall j | 0 <= j < i :: !Stray(t, claimed, segs, t.keys[j])
    {
      if Stray(t, claimed, segs, t.keys[i]) {
        forall other | ResolvedTo(t, claimed, other, |t.order|) ensures other == segs {}
        assert t.keys[i] in t.keys;
        return ConfigError;
      }
    }
    return Ok(segs);
  }

  // ---- what a table promises ----

  lemma {:induction false} FindMembers(named: seq<Named>, segment: string)
    ensures Find(named, segment).Some? ==> exists i :: 0 <= i < |named| && named[i].segment == segment && Find(named, segment) == Some(named[i].ids)
  {
    if named != [] && named[0].segment != segment {
      FindMembers(named[1..], segment);
      if Find(named, segment).Some? {
        var i :| 0 <= i < |named[1..]| && named[1..][i].segment == segment && Find(named, segment) == Some(named[1..][i].ids);
        assert named[i + 1] == named[1..][i];
      }
    }
  }

  lemma FoundIsClaimed(t: Table, segment: string, id: string)
    requires Find(t.named, segment).Some? && id in Find(t.named, segment).value
    ensures id in Claimed(t)
  {
    FindMembers(t.named, segment);
    var i :| 0 <= i < |t.named| && t.named[i].segment == segment && Find(t.named, segment) == Some(t.named[i].ids);
    assert t.named[i] in t.named && id in IdsOf(t.named[i]);
    GatherMembers(t.named, IdsOf, id);
  }

  lemma UnclaimedMembers(t: Table, claimed: set<string>, phase: int, id: string)
    requires Proper(t)
    ensures id in Unclaimed(t, claimed, phase) <==> id in t.byId && t.byId[id].phase == phase && id !in claimed
  {
    SortMembers(Keep(t.keys, id => id in t.byId && t.byId[id].phase == phase && id !in claimed), StrLe);
  }

  /** The entry of the order a node belongs to: the named segment that lists it, or else its phase's number. */
  predicate IsHome(t: Table, seg: string, id: string)
    requires id in t.byId
  {
    match Find(t.named, seg)
    case Some(ids) => id in ids
    case None => t.number(seg) == Some(t.byId[id].phase) && id !in Claimed(t)
  }

  ghost predicate Owns(segs: seq<Segment>, k: nat, id: string) {
    k < |segs| && id in segs[k].nodeIds
  }

  /** Position by position, a segment owns the nodes it is home to. */
  lemma OwnsItsNodes(t: Table, segs: seq<Segment>, k: nat, id: string)
    requires Proper(t) && IsResult(t, segs) && k < |t.order| && id in t.byId
    ensures Owns(segs, k, id) <==> IsHome(t, t.order[k], id)
  {
    assert SegmentFor(t, ClaimedSet(t), t.order[k]) == Some(segs[k]);
    if Find(t.named, t.order[k]).None? {
      UnclaimedMembers(t, ClaimedSet(t), segs[k].phase, id);
    }
  }

  /** Where in the result a node is delivered. */
  ghost function DeliveredAt(segs: seq<Segment>, id: string): set<nat> {
    set k: nat | k < |segs| && Owns(segs, k, id)
  }

  /** Where in the order its home is listed. */
  ghost function HomesAt(t: Table, id: string): set<nat>
    requires id in t.byId
  {
    set k: nat | k < |t.order| && IsHome(t, t.order[k], id)
  }

  /**
   A node is delivered exactly where the order lists its home: once if it is listed
   once. The table does not check that it is. A named segment that the order omits, or a
   phase it omits, drops its nodes, and a repeated entry delivers them twice.
   */
  lemma DeliveredWhereListed(t: Table, segs: seq<Segment>, id: string)
    requires Proper(t) && IsResult(t, segs) && id in t.byId
    ensures DeliveredAt(segs, id) == HomesAt(t, id)
  {
    assert |segs| == |t.order|;
    forall k: nat | k < |t.order| ensures Owns(segs, k, id) <==> IsHome(t, t.order[k], id) {
      OwnsItsNodes(t, segs, k, id);
    }
  }

  /** What the checks do ensure: no two named segments share a node, and no split phase has a node in none of them. */
  lemma NamedSegmentsAreDisjoint(t: Table, segs: seq<Segment>, j: nat, k: nat, id: string)
    requires Proper(t) && IsResult(t, segs) && Owns(segs, j, id) && Owns(segs, k, id)
    ensures segs[j].id == segs[k].id || (Find(t.named, segs[j].id).None? && Find(t.named, segs[k].id).None? && segs[j].phase == segs[k].phase)
  {
    assert SegmentFor(t, ClaimedSet(t), t.order[j]) == Some(segs[j]) && SegmentFor(t, ClaimedSet(t), t.order[k]) == Some(segs[k]);
    var a, b := Find(t.named, t.order[j]), Find(t.named, t.order[k]);
    if a.Some? { FoundIsClaimed(t, t.order[j], id); } else { UnclaimedMembers(t, ClaimedSet(t), segs[j].phase, id); }
    if b.Some? { FoundIsClaimed(t, t.order[k], id); } else { UnclaimedMembers(t, ClaimedSet(t), segs[k].phase, id); }
    if a.Some? && b.Some? {
      FindMembers(t.named, t.order[j]);
      FindMembers(t.named, t.order[k]);
      var i :| 0 <= i < |t.named| && t.named[i].segment == t.order[j] && a == Some(t.named[i].ids);
      var h :| 0 <= h < |t.named| && t.named[h].segment == t.order[k] && b == Some(t.named[h].ids);
      ClaimedByOne(t, i, h, id);
    }
  }

  lemma ClaimedByOne(t: Table, i: nat, h: nat, id: string)
    requires ClaimsAreProper(t) && i < |t.named| && h < |t.named| && id in t.named[i].ids && id in t.named[h].ids
    ensures i == h
  {
    if i != h {
      var a, b := if i < h then i else h, if i < h then h else i;
      var x :| 0 <= x < |t.named[b].ids| && t.named[b].ids[x] == id;
      PrefixFails(t, b, x);
      assert t.named[..b][a] == t.named[a] && t.named[a] in t.named[..b] && id in IdsOf(t.named[a]);
      GatherMembers(t.named[..b], IdsOf, id);
    }
  }

  /** The table accepts an order that leaves a named segment out, and with it the segment's nodes. */
  lemma OmittedSegmentIsSilent() returns (t: Table, segs: seq<Segment>)
    ensures Proper(t) && IsResult(t, segs)
    ensures exists id :: id in t.byId && DeliveredAt(segs, id) == {}
  {
    var node := Resolved(5, [], false, TODO, [], READY);
    var a, b := Named("5a", ["x"]), Named("5b", ["y"]);
    t := Table(map["x" := node, "y" := node], ["x", "y"], ["5a"], [a, b], _ => None);
    segs := [Segment("5a", 5, ["x"])];
    ClaimedPair(t, a, b);
    assert Find(t.named, "5a") == Some(["x"]);
    assert DeliveredAt(segs, "y") == {};
    assert "y" in t.byId;
  }

  lemma ClaimedPair(t: Table, a: Named, b: Named)
    requires t.named == [a, b]
    ensures Claimed(t) == a.ids + b.ids
  {
    assert [a, b] == [a] + [b];
    GatherSplits([a], [b], IdsOf);
    GatherOne(a, IdsOf);
    GatherOne(b, IdsOf);
  }

  // ---- the table does not depend on what has been delivered ----

  /** Two readings of one graph: the same nodes with the same phases. */
  ghost predicate SameGraph(t: Table, u: Table) {
    && u.keys == t.keys && u.order == t.order && u.named == t.named && u.number == t.number
    && u.byId.Keys == t.byId.Keys && forall id | id in t.byId :: u.byId[id].phase == t.byId[id].phase
  }

  lemma SameSegment(t: Table, u: Table, claimed: set<string>, seg: string)
    requires SameGraph(t, u)
    ensures SegmentFor(u, claimed, seg) == SegmentFor(t, claimed, seg)
  {
    if Find(t.named, seg).None? && t.number(seg).Some? {
      var phase := t.number(seg).value;
      KeepSame(t.keys, id => id in u.byId && u.byId[id].phase == phase && id !in claimed,
               id => id in t.byId && t.byId[id].phase == phase && id !in claimed);
    }
  }

  lemma StateDoesNotMatter(t: Table, u: Table, segs: seq<Segment>)
    requires SameGraph(t, u)
    ensures IsResult(t, segs) <==> IsResult(u, segs)
  {
    assert Claimed(u) == Claimed(t) && ClaimedSet(u) == ClaimedSet(t);
    forall seg ensures SegmentFor(u, ClaimedSet(t), seg) == SegmentFor(t, ClaimedSet(t), seg) {
      SameSegment(t, u, ClaimedSet(t), seg);
    }
    forall id ensures Stray(u, ClaimedSet(t), segs, id) <==> Stray(t, ClaimedSet(t), segs, id) {}
  }

  /** A table has one result at most. */
  lemma OneResult(t: Table, a: seq<Segment>, b: seq<Segment>)
    requires IsResult(t, a) && IsResult(t, b)
    ensures a == b
  {
    forall k | 0 <= k < |a| ensures a[k] == b[k] {
      assert SegmentFor(t, ClaimedSet(t), t.order[k]) == Some(a[k]);
    }
  }
}

/** Plans whose segments are what the segment table makes of the execution order. */
module SegmentedPlans {
  import opened Graph
  import opened Flow
  import opened Delivery
  import opened Layers
  import opened SegmentTable

  datatype Config = Config(keys: seq<string>, order: seq<string>, named: seq<Named>, number: string -> Option<int>)

  function TableAt(plan: Plan, w: World, config: Config): Table
    requires w.state.Keys == plan.graph.Keys
  {
    Table(Resolve(plan.graph, plan.decisions, w.state), config.keys, config.order, config.named, config.number)
  }

  /**
   Once the table of a plan is accepted, deriving the segments anew gives the same
   segments in every world: delivery never turns a sound configuration into an ERROR.
   */
  method SegmentsStay(plan: Plan, w: World, w': World, config: Config) returns (r: Segments)
    requires w.state.Keys == plan.graph.Keys && w'.state.Keys == plan.graph.Keys
    requires IsResult(TableAt(plan, w, config), plan.segments)
    ensures r == Ok(plan.segments)
  {
    var u := TableAt(plan, w', config);
    StateDoesNotMatter(TableAt(plan, w, config), u, plan.segments);
    r := SegmentsOf(u);
    if r.Ok? { OneResult(u, r.segs, plan.segments); }
  }

  /** So what a run derives its actions from is what the program derives them from. */
  lemma SegmentsAlongRun(plan: Plan, run: seq<World>, config: Config, i: nat)
    requires Run(plan, run) && i < |run| && IsResult(TableAt(plan, run[0], config), plan.segments)
    ensures IsResult(TableAt(plan, run[i], config), InputsOf(plan, run[i]).segments.segs)
  {
    StateDoesNotMatter(TableAt(plan, run[0], config), TableAt(plan, run[i], config), plan.segments);
  }

  /** The execution order lists no segment and no phase number twice. */
  ghost predicate ListedOnce(t: Table) {
    forall j, k | 0 <= j < k < |t.order| ::
      t.order[j] != t.order[k]
      && (Find(t.named, t.order[j]).None? && Find(t.named, t.order[k]).None? ==> t.number(t.order[j]) != t.number(t.order[k]))
  }

  lemma EntryOf(t: Table, segs: seq<Segment>, k: nat)
    requires IsResult(t, segs) && k < |segs|
    ensures |segs| == |t.order| && segs[k].id == t.order[k]
    ensures Find(t.named, t.order[k]).None? ==> t.number(t.order[k]) == Some(segs[k].phase)
  {
    assert SegmentFor(t, ClaimedSet(t), t.order[k]) == Some(segs[k]);
  }

  /** Then the segments have different names and no packet in common. */
  lemma AcceptedTablesAreTidy(plan: Plan, w: World, config: Config)
    requires w.state.Keys == plan.graph.Keys
    requires var t := TableAt(plan, w, config); Proper(t) && IsResult(t, plan.segments) && ListedOnce(t)
    ensures Tidy(plan)
  {
    var t, segs := TableAt(plan, w, config), plan.segments;
    forall i, j | 0 <= i < j < |segs| ensures segs[i].id != segs[j].id {
      EntryOf(t, segs, i);
      EntryOf(t, segs, j);
    }
    forall i, j, id | 0 <= i < |segs| && 0 <= j < |segs| && id in RequiredIn(plan, segs[i]) && id in RequiredIn(plan, segs[j])
      ensures i == j
    {
      assert Owns(segs, i, id) && Owns(segs, j, id);
      NamedSegmentsAreDisjoint(t, segs, i, j, id);
      EntryOf(t, segs, i);
      EntryOf(t, segs, j);
    }
  }
}
