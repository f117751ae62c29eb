/**
 The gates a plan needs. Inside a segment the required packets fall into layers by the
 longest chain of needs that starts at them; there is a wave gate over each layer, and
 after the last layer the phase gate.
 */
module Layers {
  import opened Graph
  import opened Flow
  import opened Sorting
  import opened Lists
  import opened Records
  import opened Delivery

  // ---- layers ----

  /** A chain of `j` required packets of the segment, each needing the next, starts at `n`. */
  ghost predicate AtLeast(plan: Plan, s: Segment, n: string, j: nat)
    decreases j
  {
    n in RequiredIn(plan, s) && (j <= 1 || exists d :: d in plan.graph[n].needs && AtLeast(plan, s, d, j - 1))
  }

  ghost predicate IsLayer(plan: Plan, s: Segment, n: string, j: nat) {
    j >= 1 && AtLeast(plan, s, n, j) && !AtLeast(plan, s, n, j + 1)
  }

  /** The length of the longest such chain. */
  ghost function LayerOf(plan: Plan, s: Segment, n: string): nat {
    if exists j: nat :: IsLayer(plan, s, n, j) then
      var j: nat :| IsLayer(plan, s, n, j);
      j
    else 0
  }

  ghost function Layer(plan: Plan, s: Segment, j: nat): seq<string> {
    Keep(RequiredIn(plan, s), n => LayerOf(plan, s, n) == j)
  }

  lemma {:induction false} ChainShortens(plan: Plan, s: Segment, n: string, i: nat, j: nat)
    requires AtLeast(plan, s, n, j) && i <= j
    ensures AtLeast(plan, s, n, i)
    decreases j
  {
    if i > 1 {
      var d :| d in plan.graph[n].needs && AtLeast(plan, s, d, j - 1);
      ChainShortens(plan, s, d, i - 1, j - 1);
    }
  }

  lemma {:induction false} ChainIsBounded(plan: Plan, rank: map<string, nat>, i: nat, n: string, j: nat)
    requires Sound(plan, rank) && i < |plan.segments| && AtLeast(plan, plan.segments[i], n, j)
    ensures n in rank && j <= rank[n] + 1
    decreases j
  {
    if j > 1 {
      var d :| d in plan.graph[n].needs && AtLeast(plan, plan.segments[i], d, j - 1);
      ChainIsBounded(plan, rank, i, d, j - 1);
    }
  }

  lemma {:induction false} SomeLayer(plan: Plan, s: Segment, n: string, j: nat, most: nat)
    requires j >= 1 && AtLeast(plan, s, n, j) && !AtLeast(plan, s, n, most) && j <= most
    ensures exists l: nat :: IsLayer(plan, s, n, l)
    decreases most - j
  {
    if AtLeast(plan, s, n, j + 1) {
      SomeLayer(plan, s, n, j + 1, most);
    } else {
      assert IsLayer(plan, s, n, j);
    }
  }

  lemma LayerCuts(plan: Plan, s: Segment, n: string, l: nat, j: nat)
    requires IsLayer(plan, s, n, l) && j >= 1
    ensures AtLeast(plan, s, n, j) <==> j <= l
  {
    if j <= l {
      ChainShortens(plan, s, n, j, l);
    } else if AtLeast(plan, s, n, j) {
      ChainShortens(plan, s, n, l + 1, j);
    }
  }

  lemma LayerExists(plan: Plan, s: Segment, n: string, most: nat)
    requires n in RequiredIn(plan, s) && most >= 1 && !AtLeast(plan, s, n, most)
    ensures IsLayer(plan, s, n, LayerOf(plan, s, n))
  {
    SomeLayer(plan, s, n, 1, most);
  }

  lemma NoLongerChain(plan: Plan, rank: map<string, nat>, i: nat, n: string) returns (most: nat)
    requires Sound(plan, rank) && i < |plan.segments| && n in RequiredIn(plan, plan.segments[i])
    ensures most >= 1 && !AtLeast(plan, plan.segments[i], n, most)
  {
    most := rank[n] + 2;
    if AtLeast(plan, plan.segments[i], n, most) { ChainIsBounded(plan, rank, i, n, most); }
  }

  lemma HasLayer(plan: Plan, rank: map<string, nat>, i: nat, n: string)
    requires Sound(plan, rank) && i < |plan.segments| && n in RequiredIn(plan, plan.segments[i])
    ensures IsLayer(plan, plan.segments[i], n, LayerOf(plan, plan.segments[i], n))
  {
    var most := NoLongerChain(plan, rank, i, n);
    LayerExists(plan, plan.segments[i], n, most);
  }

  /** In a sound plan every required packet has a layer, and chains of every length up to its number. */
  lemma LayerFacts(plan: Plan, rank: map<string, nat>, i: nat, n: string)
    requires Sound(plan, rank) && i < |plan.segments| && n in RequiredIn(plan, plan.segments[i])
    ensures var s := plan.segments[i];
            LayerOf(plan, s, n) >= 1 && forall j: nat | j >= 1 :: AtLeast(plan, s, n, j) <==> j <= LayerOf(plan, s, n)
  {
    var s := plan.segments[i];
    HasLayer(plan, rank, i, n);
    forall j: nat | j >= 1 ensures AtLeast(plan, s, n, j) <==> j <= LayerOf(plan, s, n) {
      LayerCuts(plan, s, n, LayerOf(plan, s, n), j);
    }
  }

  /** What a packet needs inside its segment is in a lower layer. */
  lemma NeedIsLower(plan: Plan, rank: map<string, nat>, i: nat, n: string, d: string)
    requires Sound(plan, rank) && i < |plan.segments|
    requires n in RequiredIn(plan, plan.segments[i]) && d in RequiredIn(plan, plan.segments[i]) && d in plan.graph[n].needs
    ensures LayerOf(plan, plan.segments[i], d) < LayerOf(plan, plan.segments[i], n)
  {
    var s := plan.segments[i];
    LayerFacts(plan, rank, i, n);
    LayerFacts(plan, rank, i, d);
    assert AtLeast(plan, s, d, LayerOf(plan, s, d));
    assert AtLeast(plan, s, n, LayerOf(plan, s, d) + 1);
  }

  /** And something it needs is in the layer just below. */
  lemma NeedJustBelow(plan: Plan, rank: map<string, nat>, i: nat, n: string) returns (d: string)
    requires Sound(plan, rank) && i < |plan.segments| && n in RequiredIn(plan, plan.segments[i])
    requires LayerOf(plan, plan.segments[i], n) > 1
    ensures d in RequiredIn(plan, plan.segments[i]) && d in plan.graph[n].needs
    ensures LayerOf(plan, plan.segments[i], d) + 1 == LayerOf(plan, plan.segments[i], n)
  {
    var s := plan.segments[i];
    LayerFacts(plan, rank, i, n);
    var l := LayerOf(plan, s, n);
    assert AtLeast(plan, s, n, l);
    d :| d in plan.graph[n].needs && AtLeast(plan, s, d, l - 1);
    LayerFacts(plan, rank, i, d);
    NeedIsLower(plan, rank, i, n, d);
  }

  // ---- the records a plan needs ----

  /** Segments have different names and no packet in common. */
  ghost predicate Tidy(plan: Plan) {
    && (forall i, j | 0 <= i < j < |plan.segments| :: plan.segments[i].id != plan.segments[j].id)
    && forall i, j, id | 0 <= i < |plan.segments| && 0 <= j < |plan.segments|
                         && id in RequiredIn(plan, plan.segments[i]) && id in RequiredIn(plan, plan.segments[j]) :: i == j
  }

  ghost predicate Good(plan: Plan, rank: map<string, nat>) { Sound(plan, rank) && Tidy(plan) }

  ghost predicate IsDepth(plan: Plan, s: Segment, d: nat) {
    && (exists n :: n in RequiredIn(plan, s) && LayerOf(plan, s, n) == d)
    && forall n | n in RequiredIn(plan, s) :: LayerOf(plan, s, n) <= d
  }

  /** How many layers a segment has. */
  ghost function Depth(plan: Plan, s: Segment): nat {
    if exists d: nat :: IsDepth(plan, s, d) then
      var d: nat :| IsDepth(plan, s, d);
      d
    else 0
  }

  lemma {:induction false} SomeDepth(plan: Plan, s: Segment, ids: seq<string>) returns (d: nat)
    requires ids != []
    ensures (exists n :: n in ids && LayerOf(plan, s, n) == d) && forall n | n in ids :: LayerOf(plan, s, n) <= d
  {
    var n := |ids| - 1;
    d := LayerOf(plan, s, ids[n]);
    assert ids[n] in ids;
    if n > 0 {
      var e := SomeDepth(plan, s, ids[..n]);
      assert forall x | x in ids :: x in ids[..n] || x == ids[n];
      assert forall x | x in ids[..n] :: x in ids;
      if e > d { d := e; }
    }
  }

  lemma DepthFacts(plan: Plan, rank: map<string, nat>, i: nat)
    requires Good(plan, rank) && i < |plan.segments| && RequiredIn(plan, plan.segments[i]) != []
    ensures IsDepth(plan, plan.segments[i], Depth(plan, plan.segments[i])) && Depth(plan, plan.segments[i]) >= 1
  {
    var s := plan.segments[i];
    var d := SomeDepth(plan, s, RequiredIn(plan, s));
    assert IsDepth(plan, s, d);
    var n :| n in RequiredIn(plan, s) && LayerOf(plan, s, n) == Depth(plan, s);
    LayerFacts(plan, rank, i, n);
  }

  /** Every layer up to the depth has a packet, and the others none. */
  lemma LayerIsInhabited(plan: Plan, rank: map<string, nat>, i: nat, j: nat)
    requires Good(plan, rank) && i < |plan.segments|
    ensures Layer(plan, plan.segments[i], j) != [] <==> 1 <= j <= Depth(plan, plan.segments[i])
  {
    var s := plan.segments[i];
    if RequiredIn(plan, s) != [] { DepthFacts(plan, rank, i); }
    if 1 <= j <= Depth(plan, s) {
      var n :| n in RequiredIn(plan, s) && LayerOf(plan, s, n) == Depth(plan, s);
      var m := Below(plan, rank, i, n, j);
      assert m in Layer(plan, s, j);
    } else if Layer(plan, s, j) != [] {
      var n := Layer(plan, s, j)[0];
      assert n in Layer(plan, s, j);
      LayerFacts(plan, rank, i, n);
    }
  }

  /** Below a packet there is one in every lower layer. */
  lemma {:induction false} Below(plan: Plan, rank: map<string, nat>, i: nat, n: string, j: nat) returns (m: string)
    requires Sound(plan, rank) && i < |plan.segments| && n in RequiredIn(plan, plan.segments[i])
    requires 1 <= j <= LayerOf(plan, plan.segments[i], n)
    ensures m in RequiredIn(plan, plan.segments[i]) && LayerOf(plan, plan.segments[i], m) == j
    decreases LayerOf(plan, plan.segments[i], n)
  {
    if j == LayerOf(plan, plan.segments[i], n) {
      m := n;
    } else {
      var d := NeedJustBelow(plan, rank, i, n);
      m := Below(plan, rank, i, d, j);
    }
  }

  /** A gate of the plan: over layer `j` of segment `i`, or after the last layer its phase gate. */
  datatype Point = Point(i: nat, j: nat)

  ghost predicate IsPoint(plan: Plan, p: Point) {
    p.i < |plan.segments| && 1 <= p.j <= Depth(plan, plan.segments[p.i]) + 1
  }

  ghost function Rec(plan: Plan, p: Point): GateRecord
    requires IsPoint(plan, p)
  {
    var s := plan.segments[p.i];
    if p.j <= Depth(plan, s) then WaveRecord(s.id, Layer(plan, s, p.j)) else PhaseRecord(s.id)
  }

  predicate Before(p: Point, q: Point) { p.i < q.i || (p.i == q.i && p.j < q.j) }

  /** Different gates have different records. */
  lemma RecIsInjective(plan: Plan, rank: map<string, nat>, p: Point, q: Point)
    requires Good(plan, rank) && IsPoint(plan, p) && IsPoint(plan, q) && Rec(plan, p) == Rec(plan, q)
    ensures p == q
  {
    assert plan.segments[p.i].id == plan.segments[q.i].id;
    var s := plan.segments[p.i];
    if p.j <= Depth(plan, s) {
      LayerIsInhabited(plan, rank, p.i, p.j);
      SortMembers(Layer(plan, s, p.j), StrLe);
      SortMembers(Layer(plan, s, q.j), StrLe);
      var n := Layer(plan, s, p.j)[0];
      assert n in Layer(plan, s, p.j) && n in Rec(plan, p).packets;
      assert n in Layer(plan, s, q.j);
    }
  }

  ghost predicate Empty(plan: Plan, i: nat) { i < |plan.segments| && RequiredIn(plan, plan.segments[i]) == [] }

  /** Segment `i` has nothing to deliver, and a segment after it and up to `k` has. */
  ghost predicate Passed(plan: Plan, i: nat, k: nat) {
    Empty(plan, i) && exists j :: i < j <= k && j < |plan.segments| && !Empty(plan, j)
  }

  /**
   Two gates are recorded under one name, and the earlier one is missed when the later
   one replaces it. (The record of a segment with nothing to deliver is no longer missed
   once later work has started.)
   */
  ghost predicate Clash(plan: Plan, p: Point, q: Point) {
    && IsPoint(plan, p) && IsPoint(plan, q) && Before(p, q) && NameOf(Rec(plan, p)) == NameOf(Rec(plan, q))
    && !Passed(plan, p.i, q.i)
  }

  /** A caller can check this before the run: it is about the plan alone. */
  ghost predicate NoClash(plan: Plan) { forall p, q :: !Clash(plan, p, q) }

  /** Where every segment has something to deliver, it says that all gates have different names. */
  lemma NoClashExactly(plan: Plan)
    requires forall i: nat | i < |plan.segments| :: !Empty(plan, i)
    ensures NoClash(plan) <==>
            forall p, q | IsPoint(plan, p) && IsPoint(plan, q) && p != q :: NameOf(Rec(plan, p)) != NameOf(Rec(plan, q))
  {
    if NoClash(plan) {
      forall p, q | IsPoint(plan, p) && IsPoint(plan, q) && p != q ensures NameOf(Rec(plan, p)) != NameOf(Rec(plan, q)) {
        assert !Clash(plan, p, q) && !Clash(plan, q, p);
      }
    }
  }

  ghost function SegmentIds(plan: Plan): set<string> { set s | s in plan.segments :: s.id }

  ghost function PacketIds(plan: Plan): set<string> { set s, id | s in plan.segments && id in RequiredIn(plan, s) :: id }

  /**
   Every packet's id begins with a word that is in no id except as the first, such as
   `p1` in `p1.docker-files`, and folding an id loses nothing that tells it from others.
   */
  ghost predicate HeadedPlan(plan: Plan, heads: set<string>) {
    && (forall id | id in PacketIds(plan) :: HeadedId(heads, id)) && (forall s | s in SegmentIds(plan) :: HeadlessAfterFirst(heads, s))
    && FoldsApart(SegmentIds(plan)) && FoldsApart(PacketIds(plan))
  }

  lemma RecIsHeaded(plan: Plan, rank: map<string, nat>, heads: set<string>, p: Point)
    requires Good(plan, rank) && HeadedPlan(plan, heads) && IsPoint(plan, p)
    ensures HeadedRecord(heads, Rec(plan, p)) && Rec(plan, p).segment in SegmentIds(plan)
    ensures forall id | id in Rec(plan, p).packets :: id in PacketIds(plan)
  {
    var s := plan.segments[p.i];
    var layer := Layer(plan, s, p.j);
    assert s in plan.segments;
    LayerIsInhabited(plan, rank, p.i, p.j);
    StrOrder(layer);
    SortSorted(layer, StrLe);
    SortMembers(layer, StrLe);
    if layer != [] { assert layer[0] in layer && layer[0] in Sort(layer, StrLe); }
  }

  /** In such a plan no gates clash. */
  lemma HeadedPlansDoNotClash(plan: Plan, rank: map<string, nat>, heads: set<string>)
    requires Good(plan, rank) && HeadedPlan(plan, heads)
    ensures NoClash(plan)
  {
    forall p, q ensures !Clash(plan, p, q) {
      if Clash(plan, p, q) {
        RecIsHeaded(plan, rank, heads, p);
        RecIsHeaded(plan, rank, heads, q);
        HeadedNamesApart(heads, PacketIds(plan), SegmentIds(plan), Rec(plan, p), Rec(plan, q));
        RecIsInjective(plan, rank, p, q);
      }
    }
  }

  // ---- needs paths inside a segment go down ----

  ghost predicate SameNeeds(plan: Plan, byId: map<string, Resolved>) {
    byId.Keys == plan.graph.Keys && forall id | id in byId :: byId[id].needs == plan.graph[id].needs
  }

  lemma NeedIsDelivered(plan: Plan, rank: map<string, nat>, i: nat, n: string, d: string) returns (j: nat)
    requires Sound(plan, rank) && i < |plan.segments| && n in RequiredIn(plan, plan.segments[i]) && d in plan.graph[n].needs
    ensures j <= i && d in RequiredIn(plan, plan.segments[j])
  {
    assert RequiredUpTo(plan, i, d);
    j :| 0 <= j <= i && d in RequiredIn(plan, plan.segments[j]);
  }

  /** A path of needs leads to the same segment or an earlier one, and inside the segment to a lower layer. */
  lemma {:induction false} PathFalls(plan: Plan, rank: map<string, nat>, byId: map<string, Resolved>, p: seq<string>, i: nat)
      returns (j: nat)
    requires Good(plan, rank) && SameNeeds(plan, byId) && NeedsPath(byId, p)
    requires i < |plan.segments| && p[0] in RequiredIn(plan, plan.segments[i])
    ensures j <= i && p[|p| - 1] in RequiredIn(plan, plan.segments[j])
    ensures j == i ==> LayerOf(plan, plan.segments[i], p[|p| - 1]) < LayerOf(plan, plan.segments[i], p[0])
    decreases |p|
  {
    var d := p[1];
    assert p[0] in byId && p[0 + 1] in byId[p[0]].needs;
    var k := NeedIsDelivered(plan, rank, i, p[0], d);
    if k == i { NeedIsLower(plan, rank, i, p[0], d); }
    if |p| == 2 {
      j := k;
    } else {
      var q := p[1..];
      forall x | 0 <= x < |q| - 1 ensures q[x] in byId && q[x + 1] in byId[q[x]].needs {
        assert p[x + 1] in byId && p[x + 1 + 1] in byId[p[x + 1]].needs;
      }
      j := PathFalls(plan, rank, byId, q, k);
    }
  }

  /** Nothing in the same layer or above is reached. */
  lemma NotReached(plan: Plan, rank: map<string, nat>, byId: map<string, Resolved>, i: nat, n: string, targets: set<string>)
    requires Good(plan, rank) && SameNeeds(plan, byId) && i < |plan.segments| && n in RequiredIn(plan, plan.segments[i])
    requires forall t | t in targets ::
               t in RequiredIn(plan, plan.segments[i]) && LayerOf(plan, plan.segments[i], t) >= LayerOf(plan, plan.segments[i], n)
    ensures !Reaches(byId, n, targets)
  {
    forall p | NeedsPath(byId, p) && p[0] == n ensures p[|p| - 1] !in targets {
      var j := PathFalls(plan, rank, byId, p, i);
    }
  }

  /** Every lower layer is reached. */
  lemma {:induction false} LowerIsReached(plan: Plan, rank: map<string, nat>, byId: map<string, Resolved>, i: nat, n: string, b: nat, targets: set<string>)
    requires Good(plan, rank) && SameNeeds(plan, byId) && i < |plan.segments| && n in RequiredIn(plan, plan.segments[i])
    requires 1 <= b < LayerOf(plan, plan.segments[i], n)
    requires forall t | t in RequiredIn(plan, plan.segments[i]) && LayerOf(plan, plan.segments[i], t) == b :: t in targets
    ensures Reaches(byId, n, targets)
    decreases LayerOf(plan, plan.segments[i], n)
  {
    var d := NeedJustBelow(plan, rank, i, n);
    if LayerOf(plan, plan.segments[i], d) != b { LowerIsReached(plan, rank, byId, i, d, b, targets); }
    RequiredIsInGraph(plan, plan.segments[i], n);
    ReachExtend(byId, n, d, targets);
  }

  lemma RequiredIsInGraph(plan: Plan, s: Segment, n: string)
    requires n in RequiredIn(plan, s)
    ensures n in plan.graph && !plan.graph[n].optional
  {
  }
}
