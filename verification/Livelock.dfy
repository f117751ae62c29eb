/**
 What a shared record name costs, on plans. In the smallest one packet `z` needs `x` and
 `y`, and the wave over `x` and `y` is recorded under the same name as the wave over `z`:
 each record replaces the other, so each gate is owed again as soon as the other has been
 recorded.
 */
module Livelock {
  import opened Graph
  import opened Flow
  import opened Sorting
  import opened Lists
  import opened Records
  import opened Delivery
  import opened Layers
  import opened Schedules

  /** One segment of three packets, the last of which needs the other two. */
  ghost predicate Fork(plan: Plan, s: Segment, x: string, y: string, z: string) {
    && plan.segments == [s] && s.nodeIds == [x, y, z] && x != y && x != z && y != z
    && plan.graph.Keys == {x, y, z} && plan.decisions == []
    && !plan.graph[x].optional && !plan.graph[y].optional && !plan.graph[z].optional
    && plan.graph[x].needs == [] && plan.graph[y].needs == [] && plan.graph[z].needs == [x, y]
  }

  lemma KeepThree<T(!new)>(x: T, y: T, z: T, p: T -> bool)
    ensures Keep([x, y, z], p) == (if p(x) then [x] else []) + (if p(y) then [y] else []) + (if p(z) then [z] else [])
  {
    assert [x, y, z][1..] == [y, z] && [y, z][1..] == [z] && [z][1..] == [];
    assert Keep([z], p) == if p(z) then [z] else [];
    assert Keep([y, z], p) == (if p(y) then [y] else []) + (if p(z) then [z] else []);
  }

  lemma ForkRequired(plan: Plan, s: Segment, x: string, y: string, z: string)
    requires Fork(plan, s, x, y, z)
    ensures RequiredIn(plan, s) == [x, y, z]
  {
    KeepThree(x, y, z, id => id in plan.graph && !plan.graph[id].optional);
  }

  lemma ForkIsGood(plan: Plan, s: Segment, x: string, y: string, z: string)
    requires Fork(plan, s, x, y, z)
    ensures Good(plan, map[x := 0, y := 0, z := 1])
  {
    ForkRequired(plan, s, x, y, z);
    var rank := map[x := 0, y := 0, z := 1];
    forall d | d in [x, y, z] ensures RequiredUpTo(plan, 0, d) { assert d in RequiredIn(plan, plan.segments[0]); }
    forall i, n | 0 <= i < |plan.segments| && n in RequiredIn(plan, plan.segments[i])
      ensures n in rank && forall d | d in plan.graph[n].needs :: d in rank && rank[d] < rank[n] && RequiredUpTo(plan, i, d)
    {
      assert i == 0 && n in [x, y, z];
    }
  }

  /** The first two packets are one layer, and the third is the next and last. */
  lemma ForkLayers(plan: Plan, s: Segment, x: string, y: string, z: string)
    requires Fork(plan, s, x, y, z)
    ensures LayerOf(plan, s, x) == 1 && LayerOf(plan, s, y) == 1 && LayerOf(plan, s, z) == 2
  {
    var rank := map[x := 0, y := 0, z := 1];
    ForkIsGood(plan, s, x, y, z);
    ForkRequired(plan, s, x, y, z);
    LayerFacts(plan, rank, 0, x);
    LayerFacts(plan, rank, 0, y);
    LayerFacts(plan, rank, 0, z);
    assert !AtLeast(plan, s, x, 2) && !AtLeast(plan, s, y, 2);
    assert AtLeast(plan, s, x, 1) && AtLeast(plan, s, z, 2) && !AtLeast(plan, s, z, 3);
  }

  lemma ForkGates(plan: Plan, s: Segment, x: string, y: string, z: string)
    requires Fork(plan, s, x, y, z)
    ensures Layer(plan, s, 1) == [x, y] && Layer(plan, s, 2) == [z]
  {
    ForkRequired(plan, s, x, y, z);
    ForkLayers(plan, s, x, y, z);
    KeepThree(x, y, z, n => LayerOf(plan, s, n) == 1);
    KeepThree(x, y, z, n => LayerOf(plan, s, n) == 2);
  }

  lemma ForkDepth(plan: Plan, s: Segment, x: string, y: string, z: string)
    requires Fork(plan, s, x, y, z)
    ensures Depth(plan, s) == 2
  {
    ForkRequired(plan, s, x, y, z);
    ForkLayers(plan, s, x, y, z);
    assert IsDepth(plan, s, 2) by { assert z in RequiredIn(plan, s); }
  }

  /** The waves over `[x, y]` and over `[z]` are recorded under one name. */
  ghost predicate SharedName(s: Segment, x: string, y: string, z: string) {
    NameOf(WaveRecord(s.id, [x, y])) == NameOf(WaveRecord(s.id, [z]))
  }

  lemma ForkClashes(plan: Plan, s: Segment, x: string, y: string, z: string)
    requires Fork(plan, s, x, y, z) && SharedName(s, x, y, z)
    ensures !NoClash(plan)
  {
    ForkGates(plan, s, x, y, z);
    ForkDepth(plan, s, x, y, z);
    ForkRequired(plan, s, x, y, z);
    assert Clash(plan, Point(0, 1), Point(0, 2));
  }

  /** Such ids: `a`, `b` and `a-b`, in any segment. */
  lemma SharedNamesExist(s: Segment)
    ensures SharedName(s, "a", "b", "a-b")
  {
    assert Codes("a") == [97] && Codes("b") == [98];
    SortOfSorted(["a", "b"]);
    SortOfSorted(["a-b"]);
    assert ["a", "b"][1..] == ["b"];
    assert Join(["a", "b"], "+") == "a" + "+" + "b" == "a+b" && Join(["a-b"], "+") == "a-b";
    assert "a+b"[1..] == "+b" && "+b"[1..] == "b" && "a-b"[1..] == "-b" && "-b"[1..] == "b";
    assert Slug("a+b") == "a" + Slug("+b") && Slug("a-b") == "a" + Slug("-b");
    assert Slug("+b") == "-" + Slug("b") && Slug("-b") == "-" + Slug("b");
  }

  /** A fork with a shared name has no end. */
  lemma EndlessFork(plan: Plan, s: Segment, x: string, y: string, z: string, w: World)
    requires Fork(plan, s, x, y, z) && SharedName(s, x, y, z) && Decides(plan) && Fresh(plan, w)
    ensures Good(plan, map[x := 0, y := 0, z := 1])
    ensures forall n :: !Bounded(plan, w, n)
  {
    ForkIsGood(plan, s, x, y, z);
    ForkClashes(plan, s, x, y, z);
    DeliveryEndsExactly(plan, map[x := 0, y := 0, z := 1], w);
  }

  /** So there is a plan that can never deadlock and whose delivery has no end. */
  lemma EndlessDelivery() returns (plan: Plan, rank: map<string, nat>, w: World)
    ensures Good(plan, rank) && Decides(plan) && Fresh(plan, w)
    ensures forall n :: !Bounded(plan, w, n)
  {
    var x, y, z := "a", "b", "a-b";
    var s := Segment("1", 1, [x, y, z]);
    var leaf := NodeSpec(1, [], false);
    plan := Plan(map[x := leaf, y := leaf, z := NodeSpec(1, [x, y], false)], [], [s], w => ids => LaneDecision(Sequential, ids));
    rank := map[x := 0, y := 0, z := 1];
    w := World(map[x := TODO, y := TODO, z := TODO], {}, map[], None, None);
    assert |x| == 1 && |z| == 3;
    SharedNamesExist(s);
    EndlessFork(plan, s, x, y, z, w);
  }

  /** Two segments whose ids fold to one name clash through their phase records, unless the first has nothing to deliver. */
  lemma SameFoldClashes(plan: Plan, i: nat, j: nat)
    requires i < j < |plan.segments| && Slug(plan.segments[i].id) == Slug(plan.segments[j].id) && !Empty(plan, i)
    ensures !NoClash(plan)
  {
    assert Clash(plan, Point(i, Depth(plan, plan.segments[i]) + 1), Point(j, Depth(plan, plan.segments[j]) + 1));
  }

  /** One segment of packets that do not need one another never clashes, whatever their ids are. */
  lemma OneLayerNeverClashes(plan: Plan)
    requires |plan.segments| == 1 && Depth(plan, plan.segments[0]) <= 1
    ensures NoClash(plan)
  {
    forall p, q ensures !Clash(plan, p, q) {
      if IsPoint(plan, p) && IsPoint(plan, q) && Before(p, q) {
        assert NameOf(Rec(plan, p))[0] == 'w' && NameOf(Rec(plan, q))[0] == 'p';
      }
    }
  }
}
