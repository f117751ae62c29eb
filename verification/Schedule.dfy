/**
 How a delivery goes from a fresh start. The gates are achieved in the order of the plan,
 layer after layer and segment after segment, whatever the workers do. It ends exactly
 if no two of these gates are recorded under one name.
 */
module Schedules {
  import opened Graph
  import opened Flow
  import opened Sorting
  import opened Lists
  import opened Records
  import opened Delivery
  import opened Layers

  // ---- how far a delivery has got ----

  ghost predicate Untouched(w: World, id: string) { id in w.state && w.state[id] == TODO && id !in w.handoffs }

  /**
   All gates before `at` have been recorded at some time. If one of them has lost its
   record, it is `lost`, to `kept`, whose record has its name now.
   */
  datatype Progress = Free(at: Point) | Trapped(at: Point, lost: Point, kept: Point)

  /** Packets below the point are delivered; those above have not been begun, and those of its own layer only if no record is lost. */
  ghost predicate PacketAt(plan: Plan, w: World, g: Progress, i: nat, id: string)
    requires i < |plan.segments|
  {
    var p := Point(i, LayerOf(plan, plan.segments[i], id));
    if Before(p, g.at) then id in w.state && w.state[id] == DONE
    else id in w.state && (p != g.at || g.Trapped? ==> Untouched(w, id))
  }

  ghost predicate WorkAt(plan: Plan, w: World, g: Progress) {
    forall i, id | 0 <= i < |plan.segments| && id in RequiredIn(plan, plan.segments[i]) :: PacketAt(plan, w, g, i, id)
  }

  ghost predicate Achieved(plan: Plan, g: Progress, p: Point) { IsPoint(plan, p) && Before(p, g.at) }

  ghost predicate Present(plan: Plan, store: map<string, GateRecord>, p: Point)
    requires IsPoint(plan, p)
  {
    var n := NameOf(Rec(plan, p));
    n in store && store[n] == Rec(plan, p)
  }

  /** The store holds records of achieved gates only, under their own names. */
  ghost predicate OnlyAchieved(plan: Plan, store: map<string, GateRecord>, g: Progress) {
    forall n | n in store :: exists p :: Achieved(plan, g, p) && store[n] == Rec(plan, p) && NameOf(Rec(plan, p)) == n
  }

  /** The gate is of a segment with nothing to deliver, and later work is behind the point. */
  ghost predicate Closed(plan: Plan, at: Point, p: Point) {
    Empty(plan, p.i) && exists j: nat :: LaterWork(plan, at, p.i, j)
  }

  ghost predicate LaterWork(plan: Plan, at: Point, i: nat, j: nat) {
    i < j < |plan.segments| && !Empty(plan, j) && Before(Point(j, 1), at)
  }

  ghost predicate AllAchieved(plan: Plan, store: map<string, GateRecord>, g: Progress) {
    forall p | Achieved(plan, g, p) && !Closed(plan, g.at, p) && !(g.Trapped? && g.lost == p) :: Present(plan, store, p)
  }

  ghost predicate TrapAt(plan: Plan, g: Progress) {
    g.Trapped? ==>
      && Achieved(plan, g, g.lost) && Achieved(plan, g, g.kept) && g.lost != g.kept
      && NameOf(Rec(plan, g.lost)) == NameOf(Rec(plan, g.kept))
      && !Closed(plan, g.at, g.lost) && !Closed(plan, g.at, g.kept)
  }

  /** No two gates before the point clash. */
  ghost predicate Unclashed(plan: Plan, at: Point) {
    forall p, q | Clash(plan, p, q) :: !Before(q, at)
  }

  ghost predicate IsProgress(plan: Plan, g: Progress) {
    && (IsPoint(plan, g.at) || g.at == Point(|plan.segments|, 1))
    && TrapAt(plan, g) && (g.Free? ==> Unclashed(plan, g.at))
  }

  ghost predicate At(plan: Plan, w: World, g: Progress) {
    IsProgress(plan, g) && WorkAt(plan, w, g) && OnlyAchieved(plan, w.store, g) && AllAchieved(plan, w.store, g)
  }

  // ---- what the records say at that point ----

  /** A gate's record is in the store only if the gate has been achieved and has not lost it; and then it is, unless it is no longer missed. */
  lemma PresentExactly(plan: Plan, rank: map<string, nat>, store: map<string, GateRecord>, g: Progress, p: Point)
    requires Good(plan, rank) && IsProgress(plan, g) && OnlyAchieved(plan, store, g) && AllAchieved(plan, store, g) && IsPoint(plan, p)
    ensures Present(plan, store, p) ==> Achieved(plan, g, p) && !(g.Trapped? && g.lost == p)
    ensures Achieved(plan, g, p) && !(g.Trapped? && g.lost == p) && !Empty(plan, p.i) ==> Present(plan, store, p)
  {
    if Present(plan, store, p) {
      var n := NameOf(Rec(plan, p));
      var q :| Achieved(plan, g, q) && store[n] == Rec(plan, q) && NameOf(Rec(plan, q)) == n;
      RecIsInjective(plan, rank, p, q);
      if g.Trapped? && g.lost == p {
        assert Present(plan, store, g.kept);
        RecIsInjective(plan, rank, g.kept, g.lost);
      }
    }
  }

  lemma RecordPresent(plan: Plan, w: World, p: Point)
    requires IsPoint(plan, p) && Present(plan, w.store, p)
    ensures Rec(plan, p) in RecordsOf(w)
  {
    assert Rec(plan, p) in w.store.Values;
  }

  lemma RecordIsGate(plan: Plan, w: World, g: Progress, r: GateRecord) returns (p: Point)
    requires OnlyAchieved(plan, w.store, g) && r in RecordsOf(w)
    ensures Achieved(plan, g, p) && r == Rec(plan, p) && Present(plan, w.store, p)
  {
    assert r in w.store.Values;
    var n :| n in w.store && w.store[n] == r;
    p :| Achieved(plan, g, p) && w.store[n] == Rec(plan, p) && NameOf(Rec(plan, p)) == n;
  }

  lemma PacketIsPoint(plan: Plan, rank: map<string, nat>, i: nat, id: string)
    requires Good(plan, rank) && i < |plan.segments| && id in RequiredIn(plan, plan.segments[i])
    ensures var p := Point(i, LayerOf(plan, plan.segments[i], id));
            IsPoint(plan, p) && p.j <= Depth(plan, plan.segments[i])
  {
    LayerFacts(plan, rank, i, id);
    DepthFacts(plan, rank, i);
  }

  lemma RecShape(plan: Plan, p: Point, id: string)
    requires IsPoint(plan, p)
    ensures var s, r := plan.segments[p.i], Rec(plan, p);
            && r.segment == s.id && (r.gate == Wave <==> p.j <= Depth(plan, s))
            && (id in r.packets <==> p.j <= Depth(plan, s) && id in RequiredIn(plan, s) && LayerOf(plan, s, id) == p.j)
  {
    var s := plan.segments[p.i];
    SortMembers(Layer(plan, s, p.j), StrLe);
    assert id in Layer(plan, s, p.j) <==> id in RequiredIn(plan, s) && LayerOf(plan, s, id) == p.j;
  }

  lemma SameSegmentId(plan: Plan, i: nat, j: nat)
    requires Tidy(plan) && i < |plan.segments| && j < |plan.segments| && plan.segments[i].id == plan.segments[j].id
    ensures i == j
  {
  }

  /** The gate whose record covers a packet is the one over its layer. */
  lemma CoveredBy(plan: Plan, w: World, g: Progress, i: nat, id: string)
    requires Tidy(plan) && OnlyAchieved(plan, w.store, g) && i < |plan.segments|
    requires id in WaveCovered(RecordsOf(w), plan.segments[i].id)
    ensures var p := Point(i, LayerOf(plan, plan.segments[i], id)); IsPoint(plan, p) && Present(plan, w.store, p)
  {
    var r :| r in RecordsOf(w) && r.gate == Wave && r.segment == plan.segments[i].id && id in r.packets;
    var q := RecordIsGate(plan, w, g, r);
    RecShape(plan, q, id);
    SameSegmentId(plan, q.i, i);
  }

  lemma Covers(plan: Plan, w: World, p: Point, id: string)
    requires IsPoint(plan, p) && Present(plan, w.store, p) && p.j <= Depth(plan, plan.segments[p.i])
    requires id in RequiredIn(plan, plan.segments[p.i]) && LayerOf(plan, plan.segments[p.i], id) == p.j
    ensures id in WaveCovered(RecordsOf(w), plan.segments[p.i].id)
  {
    RecordPresent(plan, w, p);
    RecShape(plan, p, id);
    CoveredIfRecorded(RecordsOf(w), Rec(plan, p), id);
  }

  lemma CoveredIfRecorded(records: seq<GateRecord>, r: GateRecord, id: string)
    requires r in records && r.gate == Wave && id in r.packets
    ensures id in WaveCovered(records, r.segment)
  {
  }

  /** A packet is covered exactly if its layer's record is in the store. */
  lemma CoveredExactly(plan: Plan, rank: map<string, nat>, w: World, g: Progress, i: nat, id: string)
    requires Good(plan, rank) && OnlyAchieved(plan, w.store, g)
    requires i < |plan.segments| && id in RequiredIn(plan, plan.segments[i])
    ensures var p := Point(i, LayerOf(plan, plan.segments[i], id));
            IsPoint(plan, p) && (id in WaveCovered(RecordsOf(w), plan.segments[i].id) <==> Present(plan, w.store, p))
  {
    var p := Point(i, LayerOf(plan, plan.segments[i], id));
    PacketIsPoint(plan, rank, i, id);
    if Present(plan, w.store, p) { Covers(plan, w, p, id); }
    if id in WaveCovered(RecordsOf(w), plan.segments[i].id) { CoveredBy(plan, w, g, i, id); }
  }

  lemma PhaseGatedBy(plan: Plan, w: World, g: Progress, i: nat)
    requires Tidy(plan) && OnlyAchieved(plan, w.store, g) && i < |plan.segments| && PhaseGated(RecordsOf(w), plan.segments[i].id)
    ensures Present(plan, w.store, Point(i, Depth(plan, plan.segments[i]) + 1))
  {
    var r :| r in RecordsOf(w) && r.gate == Phase && r.segment == plan.segments[i].id;
    var q := RecordIsGate(plan, w, g, r);
    PhaseRecordOf(plan, q, i);
  }

  lemma PhaseRecordOf(plan: Plan, p: Point, i: nat)
    requires Tidy(plan) && IsPoint(plan, p) && i < |plan.segments|
    requires Rec(plan, p).gate == Phase && Rec(plan, p).segment == plan.segments[i].id
    ensures p == Point(i, Depth(plan, plan.segments[i]) + 1)
  {
    RecShape(plan, p, "");
    SameSegmentId(plan, p.i, i);
  }

  lemma Gates(plan: Plan, w: World, i: nat)
    requires i < |plan.segments| && Present(plan, w.store, Point(i, Depth(plan, plan.segments[i]) + 1))
    ensures PhaseGated(RecordsOf(w), plan.segments[i].id)
  {
    var p := Point(i, Depth(plan, plan.segments[i]) + 1);
    RecordPresent(plan, w, p);
    GatedIfRecorded(RecordsOf(w), Rec(plan, p));
  }

  lemma GatedIfRecorded(records: seq<GateRecord>, r: GateRecord)
    requires r in records
    ensures InRegime(records, r.segment) && (r.gate == Phase ==> PhaseGated(records, r.segment))
  {
  }

  // ---- which segment is current ----

  ghost function Goal(g: Progress): Point { if g.Trapped? then g.lost else g.at }

  /** Every packet of a segment before the point is delivered. */
  lemma SegmentIsDone(plan: Plan, w: World, g: Progress, i: nat, id: string)
    requires WorkAt(plan, w, g) && i < g.at.i && i < |plan.segments| && id in RequiredIn(plan, plan.segments[i])
    ensures id in w.state && w.state[id] == DONE
  {
    assert PacketAt(plan, w, g, i, id);
  }

  /** And has all its records, unless one of them is the lost one or is no longer missed. */
  lemma SegmentIsRecorded(plan: Plan, rank: map<string, nat>, w: World, g: Progress, i: nat)
    requires Good(plan, rank) && At(plan, w, g) && i < g.at.i && i < |plan.segments| && !(g.Trapped? && g.lost.i == i)
    requires !Closed(plan, g.at, Point(i, Depth(plan, plan.segments[i]) + 1))
    ensures PhaseGated(RecordsOf(w), plan.segments[i].id)
    ensures forall id | id in RequiredIn(plan, plan.segments[i]) :: id in WaveCovered(RecordsOf(w), plan.segments[i].id)
  {
    var s := plan.segments[i];
    SegmentIsGated(plan, w, g, i);
    forall id | id in RequiredIn(plan, s) ensures id in WaveCovered(RecordsOf(w), s.id) {
      PacketIsPoint(plan, rank, i, id);
      PacketIsCovered(plan, w, g, i, id);
    }
  }

  lemma SegmentIsGated(plan: Plan, w: World, g: Progress, i: nat)
    requires AllAchieved(plan, w.store, g) && i < g.at.i && i < |plan.segments| && !(g.Trapped? && g.lost.i == i)
    requires !Closed(plan, g.at, Point(i, Depth(plan, plan.segments[i]) + 1))
    ensures PhaseGated(RecordsOf(w), plan.segments[i].id)
  {
    assert Achieved(plan, g, Point(i, Depth(plan, plan.segments[i]) + 1));
    Gates(plan, w, i);
  }

  lemma PacketIsCovered(plan: Plan, w: World, g: Progress, i: nat, id: string)
    requires AllAchieved(plan, w.store, g) && i < |plan.segments| && id in RequiredIn(plan, plan.segments[i])
    requires var p := Point(i, LayerOf(plan, plan.segments[i], id));
             Achieved(plan, g, p) && p.j <= Depth(plan, plan.segments[i]) && !(g.Trapped? && g.lost == p)
    ensures id in WaveCovered(RecordsOf(w), plan.segments[i].id)
  {
    Covers(plan, w, Point(i, LayerOf(plan, plan.segments[i], id)), id);
  }

  /** What the transition reads of a world. */
  ghost predicate Seen(plan: Plan, w: World, inputs: Inputs) {
    && inputs.records == RecordsOf(w) && SameNeeds(plan, inputs.byId)
    && (forall s :: Required(inputs.byId, s) == RequiredIn(plan, s))
    && forall id | id in inputs.byId :: id in w.state && inputs.byId[id].state == w.state[id]
  }

  lemma InputsSeen(plan: Plan, w: World)
    requires WellFormed(plan, w)
    ensures Seen(plan, w, InputsOf(plan, w))
  {
    forall s ensures Required(InputsOf(plan, w).byId, s) == RequiredIn(plan, s) { RequiredIsStatic(plan, w, s); }
  }

  lemma NotOwing(plan: Plan, rank: map<string, nat>, w: World, g: Progress, inputs: Inputs, i: nat)
    requires Good(plan, rank) && At(plan, w, g) && i < Goal(g).i && i < |plan.segments| && Seen(plan, w, inputs)
    ensures !Owing(inputs.byId, inputs.records, plan.segments, i)
  {
    forall id | id in RequiredIn(plan, plan.segments[i]) ensures inputs.byId[id].state == DONE { SegmentIsDone(plan, w, g, i, id); }
    NothingOpen(inputs.byId, RequiredIn(plan, plan.segments[i]));
    var p := Point(i, Depth(plan, plan.segments[i]) + 1);
    if !Closed(plan, g.at, p) {
      SegmentIsRecorded(plan, rank, w, g, i);
    } else if InRegime(RecordsOf(w), plan.segments[i].id) {
      OnlyPhase(plan, rank, w, g, i);
    } else {
      LaterWorkIsStarted(plan, rank, w, g, inputs, p);
    }
  }

  /** The only record of a segment with nothing to deliver is its phase record. */
  lemma OnlyPhase(plan: Plan, rank: map<string, nat>, w: World, g: Progress, i: nat)
    requires Good(plan, rank) && At(plan, w, g) && Empty(plan, i) && InRegime(RecordsOf(w), plan.segments[i].id)
    ensures PhaseGated(RecordsOf(w), plan.segments[i].id)
  {
    var r :| r in RecordsOf(w) && r.segment == plan.segments[i].id;
    var q := RecordIsGate(plan, w, g, r);
    RecShape(plan, q, "");
    SameSegmentId(plan, q.i, i);
    LayerIsInhabited(plan, rank, q.i, q.j);
  }

  lemma LaterWorkIsStarted(plan: Plan, rank: map<string, nat>, w: World, g: Progress, inputs: Inputs, p: Point)
    requires Good(plan, rank) && WorkAt(plan, w, g) && Seen(plan, w, inputs) && Closed(plan, g.at, p)
    ensures LaterWorkStarted(inputs.byId, plan.segments, p.i)
  {
    var j: nat :| LaterWork(plan, g.at, p.i, j);
    DepthFacts(plan, rank, j);
    LayerIsInhabited(plan, rank, j, 1);
    var id := Layer(plan, plan.segments[j], 1)[0];
    assert id in Layer(plan, plan.segments[j], 1);
    assert PacketAt(plan, w, g, j, id);
    assert id in Required(inputs.byId, plan.segments[j]) && inputs.byId[id].state == DONE;
  }

  lemma NothingOpen(byId: map<string, Resolved>, ids: seq<string>)
    requires forall id | id in ids :: id in byId && byId[id].state == DONE
    ensures InState(byId, ids, false) == []
  {
    KeepAllOrNone(ids, id => id in byId && (byId[id].state == DONE) == false, false);
  }

  /** Nothing after the point's segment has been begun, nor after a segment whose record is still missed. */
  lemma NoLaterWork(plan: Plan, rank: map<string, nat>, w: World, g: Progress, inputs: Inputs, p: Point)
    requires Good(plan, rank) && WorkAt(plan, w, g) && Seen(plan, w, inputs) && p.i < |plan.segments|
    requires g.at.i <= p.i || (g.Trapped? && Empty(plan, p.i) && !Closed(plan, g.at, p))
    ensures !LaterWorkStarted(inputs.byId, plan.segments, p.i)
  {
    forall j, id | p.i < j < |plan.segments| && id in Required(inputs.byId, plan.segments[j])
      ensures inputs.byId[id].state == TODO
    {
      assert PacketAt(plan, w, g, j, id);
      LayerFacts(plan, rank, j, id);
      assert !LaterWork(plan, g.at, p.i, j) || g.at.i <= p.i;
    }
  }

  /** The gate that is due is owed. */
  lemma GoalIsOwed(plan: Plan, rank: map<string, nat>, w: World, g: Progress, inputs: Inputs)
    requires Good(plan, rank) && At(plan, w, g) && IsPoint(plan, Goal(g)) && Seen(plan, w, inputs)
    ensures OwesGate(inputs.byId, inputs.records, plan.segments[Goal(g).i])
  {
    if PhaseGated(RecordsOf(w), plan.segments[Goal(g).i].id) {
      PresentExactly(plan, rank, w.store, g, Point(Goal(g).i, Depth(plan, plan.segments[Goal(g).i]) + 1));
      GatedGoal(plan, w, g);
      var id := Uncovering(plan, rank, w, g);
      UncoveredOwes(inputs, plan.segments[Goal(g).i], id);
    }
  }

  lemma UncoveredOwes(inputs: Inputs, s: Segment, id: string)
    requires id in Required(inputs.byId, s) && inputs.byId[id].state == DONE && id !in WaveCovered(inputs.records, s.id)
    ensures OwesGate(inputs.byId, inputs.records, s)
  {
  }

  /** In a segment that has its phase record, what is due can only be a wave that lost its record. */
  lemma GatedGoal(plan: Plan, w: World, g: Progress)
    requires Tidy(plan) && OnlyAchieved(plan, w.store, g) && IsPoint(plan, Goal(g)) && PhaseGated(RecordsOf(w), plan.segments[Goal(g).i].id)
    requires var p := Point(Goal(g).i, Depth(plan, plan.segments[Goal(g).i]) + 1);
             Present(plan, w.store, p) ==> Achieved(plan, g, p) && !(g.Trapped? && g.lost == p)
    ensures g.Trapped? && g.lost.j <= Depth(plan, plan.segments[g.lost.i])
  {
    PhaseGatedBy(plan, w, g, Goal(g).i);
    GoalIsBelow(plan, g);
  }

  lemma GoalIsBelow(plan: Plan, g: Progress)
    requires IsPoint(plan, Goal(g))
    requires var p := Point(Goal(g).i, Depth(plan, plan.segments[Goal(g).i]) + 1); Achieved(plan, g, p) && !(g.Trapped? && g.lost == p)
    ensures g.Trapped? && g.lost.j <= Depth(plan, plan.segments[g.lost.i])
  {
  }

  /** A packet of the wave that lost its record. */
  lemma Uncovering(plan: Plan, rank: map<string, nat>, w: World, g: Progress) returns (id: string)
    requires Good(plan, rank) && At(plan, w, g) && g.Trapped? && g.lost.j <= Depth(plan, plan.segments[g.lost.i])
    ensures id in RequiredIn(plan, plan.segments[g.lost.i]) && id in w.state && w.state[id] == DONE
    ensures id !in WaveCovered(RecordsOf(w), plan.segments[g.lost.i].id)
  {
    var s := plan.segments[g.lost.i];
    LayerIsInhabited(plan, rank, g.lost.i, g.lost.j);
    id := Layer(plan, s, g.lost.j)[0];
    assert id in Layer(plan, s, g.lost.j);
    assert PacketAt(plan, w, g, g.lost.i, id);
    CoveredExactly(plan, rank, w, g, g.lost.i, id);
    PresentExactly(plan, rank, w.store, g, g.lost);
  }

  /** A segment that has lost one record has another. */
  lemma StillInRegime(plan: Plan, rank: map<string, nat>, w: World, g: Progress)
    requires Good(plan, rank) && At(plan, w, g) && g.Trapped? && g.lost.i < g.at.i && !Empty(plan, g.lost.i)
    ensures InRegime(RecordsOf(w), plan.segments[g.lost.i].id)
  {
    DepthFacts(plan, rank, g.lost.i);
    OtherRecord(plan, w, g);
  }

  lemma OtherRecord(plan: Plan, w: World, g: Progress)
    requires AllAchieved(plan, w.store, g) && g.Trapped? && IsPoint(plan, g.lost) && g.lost.i < g.at.i && !Empty(plan, g.lost.i)
    requires Depth(plan, plan.segments[g.lost.i]) >= 1
    ensures InRegime(RecordsOf(w), plan.segments[g.lost.i].id)
  {
    var d := Depth(plan, plan.segments[g.lost.i]);
    var p := Point(g.lost.i, if g.lost.j == 1 then d + 1 else 1);
    assert Achieved(plan, g, p);
    PresentInRegime(plan, w, p);
  }

  lemma PresentInRegime(plan: Plan, w: World, p: Point)
    requires IsPoint(plan, p) && Present(plan, w.store, p)
    ensures InRegime(RecordsOf(w), plan.segments[p.i].id)
  {
    RecordPresent(plan, w, p);
    GatedIfRecorded(RecordsOf(w), Rec(plan, p));
  }

  lemma GoalOwes(plan: Plan, rank: map<string, nat>, w: World, g: Progress, inputs: Inputs)
    requires Good(plan, rank) && At(plan, w, g) && IsPoint(plan, Goal(g)) && Seen(plan, w, inputs)
    ensures Owing(inputs.byId, inputs.records, plan.segments, Goal(g).i)
  {
    GoalIsOwed(plan, rank, w, g, inputs);
    if Goal(g).i < g.at.i && !Empty(plan, Goal(g).i) {
      StillInRegime(plan, rank, w, g);
    } else {
      NoLaterWork(plan, rank, w, g, inputs, Goal(g));
    }
  }

  lemma FirstOwingIs(byId: map<string, Resolved>, records: seq<GateRecord>, segs: seq<Segment>, c: nat)
    requires c <= |segs| && (c < |segs| ==> Owing(byId, records, segs, c))
    requires forall j | 0 <= j < c :: !Owing(byId, records, segs, j)
    ensures FirstOwing(byId, records, segs, 0) == c
  {
  }

  /** The segment of the gate that is due is the current one. */
  lemma CurrentIsGoal(plan: Plan, rank: map<string, nat>, w: World, g: Progress)
    requires Good(plan, rank) && WellFormed(plan, w) && At(plan, w, g)
    ensures Current(plan, w) == Goal(g).i
  {
    var inputs := InputsOf(plan, w);
    InputsSeen(plan, w);
    if IsPoint(plan, Goal(g)) { GoalOwes(plan, rank, w, g, inputs); }
    forall j | 0 <= j < Goal(g).i ensures !Owing(inputs.byId, inputs.records, plan.segments, j) {
      NotOwing(plan, rank, w, g, inputs, j);
    }
    FirstOwingIs(inputs.byId, inputs.records, plan.segments, Goal(g).i);
  }

  // ---- what is asked for ----

  /** The layer of the point: what can be worked on. */
  ghost predicate InLayer(plan: Plan, p: Point, id: string) {
    p.i < |plan.segments| && id in RequiredIn(plan, plan.segments[p.i]) && LayerOf(plan, plan.segments[p.i], id) == p.j
  }

  ghost predicate LayerIsDone(plan: Plan, w: World, p: Point) {
    forall id | InLayer(plan, p, id) :: id in w.state && w.state[id] == DONE
  }

  /** Work is on the layer of the point; a gate is the one that is due, over a layer that is delivered; COMPLETE is the end. */
  ghost predicate Asks(plan: Plan, w: World, g: Progress, a: Action) {
    match a
    case Integrate(_, _, packets) => g.Free? && forall id | id in packets :: InLayer(plan, g.at, id)
    case Dispatch(_, _, packets, _) => g.Free? && forall id | id in packets :: InLayer(plan, g.at, id)
    case WaveGate(_, _, _) => IsPoint(plan, Goal(g)) && RecordOf(a) == Some(Rec(plan, Goal(g))) && LayerIsDone(plan, w, Goal(g))
    case PhaseGate(_, _) => IsPoint(plan, Goal(g)) && RecordOf(a) == Some(Rec(plan, Goal(g))) && LayerIsDone(plan, w, Goal(g))
    case Complete => g.Free? && g.at == Point(|plan.segments|, 1)
    case _ => true
  }

  /** Only the layer of the point can have been begun and not finished. */
  lemma BegunIsInLayer(plan: Plan, w: World, g: Progress, i: nat, id: string)
    requires WorkAt(plan, w, g) && i < |plan.segments| && id in RequiredIn(plan, plan.segments[i])
    requires id in w.state && w.state[id] != DONE && !Untouched(w, id)
    ensures g.Free? && InLayer(plan, g.at, id)
  {
    assert PacketAt(plan, w, g, i, id);
  }

  lemma IntegrateAsks(plan: Plan, rank: map<string, nat>, w: World, g: Progress, id: string)
    requires Good(plan, rank) && WellFormed(plan, w) && At(plan, w, g) && ActionAt(plan, w).Integrate? && id in ActionAt(plan, w).packets
    ensures g.Free? && InLayer(plan, g.at, id)
  {
    WorkIsCurrent(plan, w, id);
    BegunIsInLayer(plan, w, g, Current(plan, w), id);
  }

  /** Delivered packets of a layer without a record are uncovered. */
  lemma UncoveredExactly(plan: Plan, rank: map<string, nat>, w: World, g: Progress, inputs: Inputs, i: nat, id: string)
    requires Good(plan, rank) && At(plan, w, g) && Seen(plan, w, inputs) && i < |plan.segments|
    ensures id in Uncovered(inputs, plan.segments[i]) <==>
            && id in RequiredIn(plan, plan.segments[i]) && id in w.state && w.state[id] == DONE
            && var p := Point(i, LayerOf(plan, plan.segments[i], id)); !Before(p, g.at) || (g.Trapped? && g.lost == p)
  {
    if id in RequiredIn(plan, plan.segments[i]) {
      CoveredExactly(plan, rank, w, g, i, id);
      PresentExactly(plan, rank, w.store, g, Point(i, LayerOf(plan, plan.segments[i], id)));
    }
  }

  ghost function Targets(inputs: Inputs, s: Segment): set<string> { set u | u in Uncovered(inputs, s) }

  /** While a wave has no record, nothing above it can be started. */
  lemma AboveLostReaches(plan: Plan, rank: map<string, nat>, w: World, g: Progress, inputs: Inputs, id: string)
    requires Good(plan, rank) && At(plan, w, g) && Seen(plan, w, inputs) && g.Trapped?
    requires id in RequiredIn(plan, plan.segments[g.lost.i]) && LayerOf(plan, plan.segments[g.lost.i], id) > g.lost.j
    ensures Reaches(inputs.byId, id, Targets(inputs, plan.segments[g.lost.i]))
  {
    var s := plan.segments[g.lost.i];
    forall t | t in RequiredIn(plan, s) && LayerOf(plan, s, t) == g.lost.j ensures t in Targets(inputs, s) {
      assert PacketAt(plan, w, g, g.lost.i, t);
      UncoveredExactly(plan, rank, w, g, inputs, g.lost.i, t);
    }
    LowerIsReached(plan, rank, inputs.byId, g.lost.i, id, g.lost.j, Targets(inputs, s));
  }

  /** What is above the layer of the point needs something undelivered, or something delivered without a record. */
  lemma AbovePointReaches(plan: Plan, rank: map<string, nat>, w: World, g: Progress, inputs: Inputs, id: string)
    requires Good(plan, rank) && At(plan, w, g) && Seen(plan, w, inputs) && g.Free? && IsPoint(plan, g.at)
    requires id in RequiredIn(plan, plan.segments[g.at.i]) && LayerOf(plan, plan.segments[g.at.i], id) > g.at.j
    requires forall d | d in plan.graph[id].needs :: IsDone(w.state, d)
    ensures Reaches(inputs.byId, id, Targets(inputs, plan.segments[g.at.i]))
  {
    var d := NeedJustBelow(plan, rank, g.at.i, id);
    UncoveredExactly(plan, rank, w, g, inputs, g.at.i, d);
    RequiredIsInGraph(plan, plan.segments[g.at.i], id);
    ReachExtend(inputs.byId, id, d, Targets(inputs, plan.segments[g.at.i]));
  }

  lemma StartableIsInLayer(plan: Plan, rank: map<string, nat>, w: World, g: Progress, inputs: Inputs, id: string)
    requires Good(plan, rank) && At(plan, w, g) && Seen(plan, w, inputs) && IsPoint(plan, Goal(g))
    requires id in RequiredIn(plan, plan.segments[Goal(g).i]) && id in w.state && w.state[id] != DONE
    requires forall d | d in plan.graph[id].needs :: IsDone(w.state, d)
    requires !Reaches(inputs.byId, id, Targets(inputs, plan.segments[Goal(g).i]))
    ensures g.Free? && InLayer(plan, g.at, id)
  {
    assert PacketAt(plan, w, g, Goal(g).i, id);
    var l := LayerOf(plan, plan.segments[Goal(g).i], id);
    if g.Trapped? {
      AboveLostReaches(plan, rank, w, g, inputs, id);
    } else if l > g.at.j {
      AbovePointReaches(plan, rank, w, g, inputs, id);
    }
  }

  lemma DispatchReaches(inputs: Inputs, s: Segment, id: string)
    requires SameMembersAsAsked(inputs.decide, inputs.byId.Keys)
    requires InSegment(inputs, s).Dispatch? && id in InSegment(inputs, s).packets
    ensures !Reaches(inputs.byId, id, Targets(inputs, s))
  {
    DecidedIds(inputs, Dispatchable(inputs, s));
    assert id in Dispatchable(inputs, s);
  }

  lemma DispatchedFacts(plan: Plan, w: World, id: string)
    requires WellFormed(plan, w) && ActionAt(plan, w).Dispatch? && id in ActionAt(plan, w).packets
    ensures Current(plan, w) < |plan.segments|
    ensures !Reaches(InputsOf(plan, w).byId, id, Targets(InputsOf(plan, w), plan.segments[Current(plan, w)]))
  {
    SegmentActions(InputsOf(plan, w));
    DispatchReaches(InputsOf(plan, w), plan.segments[Current(plan, w)], id);
  }

  lemma UnblockedNeeds(plan: Plan, state: map<string, State>, id: string)
    requires id in plan.graph && BlockedBy(plan.graph, plan.decisions, state, id) == []
    ensures forall d | d in plan.graph[id].needs :: IsDone(state, d)
  {
    forall d | d in plan.graph[id].needs ensures IsDone(state, d) {
      assert d !in Keep(plan.graph[id].needs, e => !IsDone(state, e));
    }
  }

  lemma DispatchAsks(plan: Plan, rank: map<string, nat>, w: World, g: Progress, id: string)
    requires Good(plan, rank) && WellFormed(plan, w) && At(plan, w, g) && ActionAt(plan, w).Dispatch? && id in ActionAt(plan, w).packets
    ensures g.Free? && InLayer(plan, g.at, id)
  {
    WorkIsCurrent(plan, w, id);
    if w.state[id] == PARTIAL {
      BegunIsInLayer(plan, w, g, Current(plan, w), id);
    } else {
      DispatchedFacts(plan, w, id);
      CurrentIsGoal(plan, rank, w, g);
      InputsSeen(plan, w);
      UnblockedNeeds(plan, w.state, id);
      StartableIsInLayer(plan, rank, w, g, InputsOf(plan, w), id);
    }
  }

  // ---- which gate is asked for ----

  /** Everything the layer of the point needs is delivered. */
  lemma NeedsAreDone(plan: Plan, rank: map<string, nat>, w: World, g: Progress, id: string, d: string)
    requires Good(plan, rank) && WorkAt(plan, w, g) && InLayer(plan, g.at, id) && d in plan.graph[id].needs
    ensures IsDone(w.state, d)
  {
    var j := NeedIsDelivered(plan, rank, g.at.i, id, d);
    if j == g.at.i { NeedIsLower(plan, rank, g.at.i, id, d); }
    assert PacketAt(plan, w, g, j, d);
  }

  lemma SoundIsUndecided(plan: Plan, rank: map<string, nat>, i: nat, id: string)
    requires Sound(plan, rank) && i < |plan.segments| && id in RequiredIn(plan, plan.segments[i])
    ensures OpenDecisions(plan.decisions, id) == []
  {
  }

  lemma LayerIsUnblocked(plan: Plan, rank: map<string, nat>, w: World, g: Progress, id: string)
    requires Good(plan, rank) && WorkAt(plan, w, g) && InLayer(plan, g.at, id)
    ensures BlockedBy(plan.graph, plan.decisions, w.state, id) == []
  {
    SoundIsUndecided(plan, rank, g.at.i, id);
    forall d | d in plan.graph[id].needs ensures IsDone(w.state, d) { NeedsAreDone(plan, rank, w, g, id, d); }
    KeepAllOrNone(plan.graph[id].needs, d => !IsDone(w.state, d), false);
  }

  lemma ReadyIfUnblocked(plan: Plan, w: World, s: Segment, id: string)
    requires WellFormed(plan, w) && id in RequiredIn(plan, s) && w.state[id] != DONE
    requires BlockedBy(plan.graph, plan.decisions, w.state, id) == []
    ensures id in Ready(InputsOf(plan, w), s)
  {
    RequiredIsStatic(plan, w, s);
    var byId := InputsOf(plan, w).byId;
    assert id in InState(byId, Required(byId, s), false);
  }

  lemma LayerReachesNothing(plan: Plan, rank: map<string, nat>, w: World, g: Progress, inputs: Inputs, id: string)
    requires Good(plan, rank) && At(plan, w, g) && g.Free? && Seen(plan, w, inputs) && InLayer(plan, g.at, id)
    ensures !Reaches(inputs.byId, id, Targets(inputs, plan.segments[g.at.i]))
  {
    var s := plan.segments[g.at.i];
    forall t | t in Targets(inputs, s) ensures t in RequiredIn(plan, s) && LayerOf(plan, s, t) >= LayerOf(plan, s, id) {
      UncoveredExactly(plan, rank, w, g, inputs, g.at.i, t);
    }
    NotReached(plan, rank, inputs.byId, g.at.i, id, Targets(inputs, s));
  }

  lemma DispatchableIf(inputs: Inputs, s: Segment, id: string)
    requires id in Ready(inputs, s) && !Reaches(inputs.byId, id, Targets(inputs, s))
    ensures Dispatchable(inputs, s) != []
  {
    assert id in Dispatchable(inputs, s);
  }

  /** With nothing left to dispatch, the layer that is due is delivered. */
  lemma GoalIsDelivered(plan: Plan, rank: map<string, nat>, w: World, g: Progress)
    requires Good(plan, rank) && WellFormed(plan, w) && At(plan, w, g) && IsPoint(plan, Goal(g))
    requires Dispatchable(InputsOf(plan, w), plan.segments[Goal(g).i]) == []
    ensures LayerIsDone(plan, w, Goal(g))
  {
    forall id | InLayer(plan, Goal(g), id) ensures id in w.state && w.state[id] == DONE {
      assert PacketAt(plan, w, g, Goal(g).i, id);
      if w.state[id] != DONE { Undelivered(plan, rank, w, g, id); }
    }
  }

  lemma Undelivered(plan: Plan, rank: map<string, nat>, w: World, g: Progress, id: string)
    requires Good(plan, rank) && WellFormed(plan, w) && At(plan, w, g) && g.Free? && InLayer(plan, g.at, id) && w.state[id] != DONE
    ensures Dispatchable(InputsOf(plan, w), plan.segments[g.at.i]) != []
  {
    LayerIsUnblocked(plan, rank, w, g, id);
    ReadyIfUnblocked(plan, w, plan.segments[g.at.i], id);
    InputsSeen(plan, w);
    LayerReachesNothing(plan, rank, w, g, InputsOf(plan, w), id);
    DispatchableIf(InputsOf(plan, w), plan.segments[g.at.i], id);
  }

  lemma KeptTwice<T(!new)>(xs: seq<T>, p: T -> bool, q: T -> bool, r: T -> bool)
    requires forall x | x in xs :: x in Keep(Keep(xs, p), q) <==> r(x)
    ensures Keep(Keep(xs, p), q) == Keep(xs, r)
  {
    KeepTwice(xs, p, q);
    KeepSame(xs, x => p(x) && q(x), r);
  }

  lemma UncoveredIs(plan: Plan, inputs: Inputs, s: Segment, j: nat)
    requires Required(inputs.byId, s) == RequiredIn(plan, s)
    requires forall id | id in RequiredIn(plan, s) :: id in Uncovered(inputs, s) <==> LayerOf(plan, s, id) == j
    ensures Uncovered(inputs, s) == Layer(plan, s, j)
  {
    KeptTwice(RequiredIn(plan, s), id => id in inputs.byId && (inputs.byId[id].state == DONE) == true,
              id => id !in WaveCovered(inputs.records, s.id), id => LayerOf(plan, s, id) == j);
  }

  /** Once delivered, that layer is what is uncovered. */
  lemma UncoveredIsGoal(plan: Plan, rank: map<string, nat>, w: World, g: Progress, inputs: Inputs)
    requires Good(plan, rank) && At(plan, w, g) && Seen(plan, w, inputs) && IsPoint(plan, Goal(g)) && LayerIsDone(plan, w, Goal(g))
    ensures Uncovered(inputs, plan.segments[Goal(g).i]) == Layer(plan, plan.segments[Goal(g).i], Goal(g).j)
  {
    var p := Goal(g);
    var s := plan.segments[p.i];
    forall id | id in RequiredIn(plan, s) ensures id in Uncovered(inputs, s) <==> LayerOf(plan, s, id) == p.j {
      UncoveredExactly(plan, rank, w, g, inputs, p.i, id);
      assert PacketAt(plan, w, g, p.i, id);
      assert InLayer(plan, p, id) <==> LayerOf(plan, s, id) == p.j;
    }
    UncoveredIs(plan, inputs, s, p.j);
  }

  lemma GateIsFor(inputs: Inputs, s: Segment, layer: seq<string>)
    requires InSegment(inputs, s).WaveGate? || InSegment(inputs, s).PhaseGate?
    requires Uncovered(inputs, s) == layer
    ensures RecordOf(InSegment(inputs, s)) == Some(if layer != [] then WaveRecord(s.id, layer) else PhaseRecord(s.id))
  {
    StrOrder(layer);
    SortSorted(layer, StrLe);
    SortOfSorted(Sort(layer, StrLe));
  }

  lemma NothingToDispatch(inputs: Inputs, s: Segment)
    requires InSegment(inputs, s).WaveGate? || InSegment(inputs, s).PhaseGate?
    ensures Dispatchable(inputs, s) == []
  {
  }

  lemma GateAsks(plan: Plan, rank: map<string, nat>, w: World, g: Progress)
    requires Good(plan, rank) && WellFormed(plan, w) && At(plan, w, g) && (ActionAt(plan, w).WaveGate? || ActionAt(plan, w).PhaseGate?)
    ensures IsPoint(plan, Goal(g)) && LayerIsDone(plan, w, Goal(g)) && RecordOf(ActionAt(plan, w)) == Some(Rec(plan, Goal(g)))
  {
    CurrentIsGoal(plan, rank, w, g);
    var inputs := InputsOf(plan, w);
    SegmentActions(inputs);
    var s := plan.segments[Goal(g).i];
    NothingToDispatch(inputs, s);
    GoalIsDelivered(plan, rank, w, g);
    InputsSeen(plan, w);
    UncoveredIsGoal(plan, rank, w, g, inputs);
    GateIsFor(inputs, s, Layer(plan, s, Goal(g).j));
    LayerIsInhabited(plan, rank, Goal(g).i, Goal(g).j);
  }

  lemma CompleteAsks(plan: Plan, rank: map<string, nat>, w: World, g: Progress)
    requires Good(plan, rank) && WellFormed(plan, w) && At(plan, w, g) && ActionAt(plan, w) == Complete
    ensures g.Free? && g.at == Point(|plan.segments|, 1)
  {
    CurrentIsGoal(plan, rank, w, g);
    CompleteHasNoCurrent(InputsOf(plan, w));
  }

  /** What a world asks for is decided by how far the delivery has got. */
  lemma AsksWhatIsDue(plan: Plan, rank: map<string, nat>, w: World, g: Progress)
    requires Good(plan, rank) && WellFormed(plan, w) && At(plan, w, g)
    ensures Asks(plan, w, g, ActionAt(plan, w))
  {
    var a := ActionAt(plan, w);
    if a.Integrate? {
      var some := HandedOut(plan, w);
      IntegrateAsks(plan, rank, w, g, some);
      forall id | id in a.packets ensures InLayer(plan, g.at, id) { IntegrateAsks(plan, rank, w, g, id); }
    } else if a.Dispatch? {
      var some := HandedOut(plan, w);
      DispatchAsks(plan, rank, w, g, some);
      forall id | id in a.packets ensures InLayer(plan, g.at, id) { DispatchAsks(plan, rank, w, g, id); }
    } else if a.WaveGate? || a.PhaseGate? {
      GateAsks(plan, rank, w, g);
    } else if a.Complete? {
      CompleteAsks(plan, rank, w, g);
    }
  }

  // ---- what carrying it out leads to ----

  ghost function NextPoint(plan: Plan, p: Point): Point
    requires p.i < |plan.segments|
  {
    if p.j <= Depth(plan, plan.segments[p.i]) then Point(p.i, p.j + 1) else Point(p.i + 1, 1)
  }

  lemma NextPointIs(plan: Plan, p: Point, q: Point)
    requires IsPoint(plan, p)
    ensures IsPoint(plan, NextPoint(plan, p)) || NextPoint(plan, p) == Point(|plan.segments|, 1)
    ensures IsPoint(plan, q) ==> (Before(q, NextPoint(plan, p)) <==> Before(q, p) || q == p)
  {
  }

  lemma WorkKeeps(plan: Plan, w: World, w': World, a: Action, g: Progress)
    requires Tidy(plan) && At(plan, w, g) && CarryOut(a, w, w') && (a.Integrate? || a.Dispatch?) && Asks(plan, w, g, a)
    ensures At(plan, w', g)
  {
    CarryOutChanges(a, w, w');
    WorkKeepsRest(a, w, w');
    forall i, id | 0 <= i < |plan.segments| && id in RequiredIn(plan, plan.segments[i]) ensures PacketAt(plan, w', g, i, id) {
      assert PacketAt(plan, w, g, i, id);
      assert InLayer(plan, g.at, id) ==> i == g.at.i;
    }
  }

  lemma RestKeeps(plan: Plan, w: World, w': World, a: Action, g: Progress)
    requires At(plan, w, g) && CarryOut(a, w, w') && (a.Repair? || a.AdvancePhase?)
    ensures At(plan, w', g)
  {
    SameWorkAt(plan, w, w', g);
  }

  lemma SameWorkAt(plan: Plan, w: World, w': World, g: Progress)
    requires WorkAt(plan, w, g) && w'.state == w.state && w'.handoffs == w.handoffs
    ensures WorkAt(plan, w', g)
  {
    forall i, id | 0 <= i < |plan.segments| && id in RequiredIn(plan, plan.segments[i]) ensures PacketAt(plan, w', g, i, id) {
      assert PacketAt(plan, w, g, i, id);
    }
  }

  /** Two gates with one name cannot both have their record. */
  lemma OneRecordAName(plan: Plan, rank: map<string, nat>, store: map<string, GateRecord>, p: Point, q: Point)
    requires Good(plan, rank) && IsPoint(plan, p) && IsPoint(plan, q) && Present(plan, store, p) && Present(plan, store, q)
    requires NameOf(Rec(plan, p)) == NameOf(Rec(plan, q))
    ensures p == q
  {
    RecIsInjective(plan, rank, p, q);
  }

  lemma StaysPresent(plan: Plan, store: map<string, GateRecord>, p: Point, q: Point)
    requires IsPoint(plan, p) && IsPoint(plan, q)
    ensures Present(plan, Recorded(store, Rec(plan, q)), q)
    ensures Present(plan, store, p) && NameOf(Rec(plan, p)) != NameOf(Rec(plan, q)) ==> Present(plan, Recorded(store, Rec(plan, q)), p)
  {
  }

  /** Recording the lost gate again costs the other one its record. */
  lemma TrapSwaps(plan: Plan, rank: map<string, nat>, store: map<string, GateRecord>, g: Progress)
    requires Good(plan, rank) && IsProgress(plan, g) && g.Trapped? && OnlyAchieved(plan, store, g) && AllAchieved(plan, store, g)
    ensures var g', store' := Trapped(g.at, g.kept, g.lost), Recorded(store, Rec(plan, g.lost));
            OnlyAchieved(plan, store', g') && AllAchieved(plan, store', g')
  {
    var g', store' := Trapped(g.at, g.kept, g.lost), Recorded(store, Rec(plan, g.lost));
    forall p | Achieved(plan, g', p) && !Closed(plan, g'.at, p) && p != g.kept ensures Present(plan, store', p) {
      assert Achieved(plan, g, p);
      StaysPresent(plan, store, p, g.lost);
      if p != g.lost && NameOf(Rec(plan, p)) == NameOf(Rec(plan, g.lost)) { OneRecordAName(plan, rank, store, p, g.kept); }
    }
    OnlyOneMore(plan, store, g, g', g.lost);
  }

  lemma OnlyOneMore(plan: Plan, store: map<string, GateRecord>, g: Progress, g': Progress, q: Point)
    requires OnlyAchieved(plan, store, g) && Achieved(plan, g', q)
    requires forall p | Achieved(plan, g, p) :: Achieved(plan, g', p)
    ensures OnlyAchieved(plan, Recorded(store, Rec(plan, q)), g')
  {
    var store' := Recorded(store, Rec(plan, q));
    forall n | n in store' ensures exists p :: Achieved(plan, g', p) && store'[n] == Rec(plan, p) && NameOf(Rec(plan, p)) == n {
      if n != NameOf(Rec(plan, q)) {
        var p :| Achieved(plan, g, p) && store[n] == Rec(plan, p) && NameOf(Rec(plan, p)) == n;
      }
    }
  }

  /** An earlier gate has the name of the one at the point, and will be missed. */
  ghost predicate Shares(plan: Plan, g: Progress, q: Point)
    requires IsPoint(plan, g.at)
  {
    Achieved(plan, g, q) && NameOf(Rec(plan, q)) == NameOf(Rec(plan, g.at)) && !Closed(plan, NextPoint(plan, g.at), q)
  }

  ghost function Moved(plan: Plan, g: Progress): (g': Progress)
    requires IsPoint(plan, g.at)
  {
    if q :| Shares(plan, g, q) then Trapped(NextPoint(plan, g.at), q, g.at) else Free(NextPoint(plan, g.at))
  }

  lemma MovedIsProgress(plan: Plan, g: Progress)
    requires IsPoint(plan, g.at) && g.Free? && Unclashed(plan, g.at)
    ensures IsProgress(plan, Moved(plan, g))
    ensures forall p :: Achieved(plan, Moved(plan, g), p) <==> Achieved(plan, g, p) || p == g.at
  {
    forall p ensures Achieved(plan, Moved(plan, g), p) <==> Achieved(plan, g, p) || p == g.at { NextPointIs(plan, g.at, p); }
    NextPointIs(plan, g.at, g.at);
    NotYetClosed(plan, g.at);
    if Moved(plan, g).Free? {
      forall p, q | Clash(plan, p, q) ensures !Before(q, NextPoint(plan, g.at)) {
        NextPointIs(plan, g.at, q);
        ClosedExactly(plan, p, g.at);
        assert q == g.at ==> Shares(plan, g, p);
      }
    }
  }

  lemma NotYetClosed(plan: Plan, p: Point)
    requires IsPoint(plan, p)
    ensures !Closed(plan, NextPoint(plan, p), p)
  {
  }

  /** Recording `q` makes up for the record of `p` exactly if later work than `p` lies up to `q`. */
  lemma ClosedExactly(plan: Plan, p: Point, q: Point)
    requires IsPoint(plan, q)
    ensures Closed(plan, NextPoint(plan, q), p) <==> Passed(plan, p.i, q.i)
  {
    if Passed(plan, p.i, q.i) {
      var j :| p.i < j <= q.i && j < |plan.segments| && !Empty(plan, j);
      assert LaterWork(plan, NextPoint(plan, q), p.i, j);
    }
  }

  lemma ClosedStays(plan: Plan, at: Point, p: Point)
    requires IsPoint(plan, at) && Closed(plan, at, p)
    ensures Closed(plan, NextPoint(plan, at), p)
  {
    var j: nat :| LaterWork(plan, at, p.i, j);
    assert LaterWork(plan, NextPoint(plan, at), p.i, j);
  }

  /** While no gates clash, no record is lost. */
  lemma FreeStays(plan: Plan, g: Progress)
    requires IsPoint(plan, g.at) && NoClash(plan)
    ensures Moved(plan, g).Free?
  {
    forall q ensures !Shares(plan, g, q) {
      ClosedExactly(plan, q, g.at);
      assert !Clash(plan, q, g.at);
    }
  }

  lemma MovedStore(plan: Plan, rank: map<string, nat>, store: map<string, GateRecord>, g: Progress)
    requires Good(plan, rank) && IsPoint(plan, g.at) && g.Free? && OnlyAchieved(plan, store, g) && AllAchieved(plan, store, g)
    requires Unclashed(plan, g.at)
    ensures OnlyAchieved(plan, Recorded(store, Rec(plan, g.at)), Moved(plan, g)) && AllAchieved(plan, Recorded(store, Rec(plan, g.at)), Moved(plan, g))
  {
    var g', store' := Moved(plan, g), Recorded(store, Rec(plan, g.at));
    MovedIsProgress(plan, g);
    OnlyOneMore(plan, store, g, g', g.at);
    forall p | Achieved(plan, g', p) && !Closed(plan, g'.at, p) && !(g'.Trapped? && g'.lost == p) ensures Present(plan, store', p) {
      if Closed(plan, g.at, p) { ClosedStays(plan, g.at, p); }
      StaysPresent(plan, store, p, g.at);
      if p != g.at && NameOf(Rec(plan, p)) == NameOf(Rec(plan, g.at)) {
        assert Shares(plan, g, p);
        if Closed(plan, g.at, g'.lost) { ClosedStays(plan, g.at, g'.lost); }
        OneRecordAName(plan, rank, store, p, g'.lost);
      }
    }
  }

  lemma MovedWork(plan: Plan, rank: map<string, nat>, w: World, w': World, g: Progress)
    requires Good(plan, rank) && IsPoint(plan, g.at) && g.Free? && WorkAt(plan, w, g) && LayerIsDone(plan, w, g.at)
    requires w'.state == w.state && w'.handoffs == w.handoffs
    ensures WorkAt(plan, w', Moved(plan, g))
  {
    forall i, id | 0 <= i < |plan.segments| && id in RequiredIn(plan, plan.segments[i])
      ensures PacketAt(plan, w', Moved(plan, g), i, id)
    {
      assert PacketAt(plan, w, g, i, id);
      PacketIsPoint(plan, rank, i, id);
      NextPointIs(plan, g.at, Point(i, LayerOf(plan, plan.segments[i], id)));
      assert Point(i, LayerOf(plan, plan.segments[i], id)) == g.at ==> InLayer(plan, g.at, id);
    }
  }

  /** How far the delivery has got after action `a`. */
  ghost function After(plan: Plan, g: Progress, a: Action): Progress
    requires RecordOf(a).Some? ==> IsPoint(plan, Goal(g))
  {
    if RecordOf(a).None? then g
    else if g.Trapped? then Trapped(g.at, g.kept, g.lost)
    else Moved(plan, g)
  }

  lemma GateKeeps(plan: Plan, rank: map<string, nat>, w: World, w': World, a: Action, g: Progress)
    requires Good(plan, rank) && At(plan, w, g) && IsPoint(plan, Goal(g)) && RecordOf(a) == Some(Rec(plan, Goal(g)))
    requires w' == w.(store := Recorded(w.store, Rec(plan, Goal(g)))) && LayerIsDone(plan, w, Goal(g))
    ensures At(plan, w', After(plan, g, a))
  {
    if g.Trapped? {
      TrapSwaps(plan, rank, w.store, g);
      SameWorkAt(plan, w, w', g);
      TrapWork(plan, w', g);
    } else {
      MovedIsProgress(plan, g);
      MovedStore(plan, rank, w.store, g);
      MovedWork(plan, rank, w, w', g);
    }
  }

  lemma TrapWork(plan: Plan, w: World, g: Progress)
    requires WorkAt(plan, w, g) && g.Trapped?
    ensures WorkAt(plan, w, Trapped(g.at, g.kept, g.lost))
  {
    forall i, id | 0 <= i < |plan.segments| && id in RequiredIn(plan, plan.segments[i])
      ensures PacketAt(plan, w, Trapped(g.at, g.kept, g.lost), i, id)
    {
      assert PacketAt(plan, w, g, i, id);
    }
  }

  lemma CarriedKeeps(plan: Plan, rank: map<string, nat>, w: World, w': World, a: Action, g: Progress)
    requires Good(plan, rank) && At(plan, w, g) && CarryOut(a, w, w') && Asks(plan, w, g, a)
    ensures (RecordOf(a).Some? ==> IsPoint(plan, Goal(g))) && At(plan, w', After(plan, g, a))
  {
    StoreChanges(a, w, w');
    if a.Integrate? || a.Dispatch? {
      WorkKeeps(plan, w, w', a, g);
    } else if a.WaveGate? || a.PhaseGate? {
      GateKeeps(plan, rank, w, w', a, g);
    } else {
      RestKeeps(plan, w, w', a, g);
    }
  }

  // ---- how many actions are left ----

  ghost function GatesFrom(plan: Plan, i: nat): nat
    decreases |plan.segments| - i
  {
    if i >= |plan.segments| then 0 else Depth(plan, plan.segments[i]) + 1 + GatesFrom(plan, i + 1)
  }

  ghost function GatesLeft(plan: Plan, p: Point): int { GatesFrom(plan, p.i) - p.j + 1 }

  lemma GatesFall(plan: Plan, p: Point)
    requires IsPoint(plan, p)
    ensures GatesLeft(plan, NextPoint(plan, p)) == GatesLeft(plan, p) - 1
  {
  }

  lemma GatesAreLeft(plan: Plan, g: Progress)
    requires IsProgress(plan, g)
    ensures GatesLeft(plan, g.at) >= 0
  {
  }

  ghost function Bare(w: World): World { w.(store := map[]) }

  /** The gates that are left, and the other actions that are left whatever the records say. */
  ghost function ActionsLeft(plan: Plan, w: World, at: Point): int { Potential(plan, Bare(w)) + GatesLeft(plan, at) }

  ghost function MostActions(plan: Plan): int { LongestRun(plan) + GatesFrom(plan, 0) }

  lemma BareWork(w: World, w': World, a: Action)
    requires CarryOut(a, w, w') && RecordOf(a).None?
    ensures CarryOut(a, Bare(w), Bare(w'))
  {
    if a.Integrate? {
      var landed :| Land(w, w', landed, a.packets);
      assert Land(Bare(w), Bare(w'), landed, a.packets);
    } else if a.Dispatch? {
      var finished, handed, begun :| Work(w, w', finished, handed, begun, a.packets);
      assert Work(Bare(w), Bare(w'), finished, handed, begun, a.packets);
    }
  }

  lemma WorkLeft(plan: Plan, w: World, w': World, a: Action, c: nat)
    requires Workable(plan, w, a, c) && CarryOut(a, w, w')
    ensures Potential(plan, Bare(w')) < Potential(plan, Bare(w))
  {
    BareWork(w, w', a);
    WorkLoadFalls(plan, Bare(w), Bare(w'), a, c);
  }

  lemma OtherLeft(plan: Plan, w: World, w': World)
    requires WellFormed(plan, w) && Carry(plan, w, w') && RecordOf(ActionAt(plan, w)).None?
    ensures Potential(plan, Bare(w')) < Potential(plan, Bare(w))
  {
    var a := ActionAt(plan, w);
    if a.Integrate? || a.Dispatch? {
      WorkIsWorkable(plan, w);
      WorkLeft(plan, w, w', a, Current(plan, w));
    } else if a.Repair? {
      RepairAsks(plan, w);
      BareWork(w, w', a);
      RepairFalls(plan, Bare(w), Bare(w'));
    } else {
      AdvanceAsks(plan, w);
      BareWork(w, w', a);
      AdvanceFalls(plan, Bare(w), Bare(w'), a.to);
    }
  }

  lemma GateLeft(plan: Plan, w: World, w': World, a: Action, g: Progress)
    requires CarryOut(a, w, w') && RecordOf(a).Some? && g.Free? && IsPoint(plan, g.at) && NoClash(plan)
    ensures After(plan, g, a).Free? && ActionsLeft(plan, w', After(plan, g, a).at) < ActionsLeft(plan, w, g.at)
  {
    FreeStays(plan, g);
    GatesFall(plan, g.at);
    StoreChanges(a, w, w');
    assert Bare(w') == Bare(w);
  }

  /** Carrying out what is due moves the delivery along, and without a clash leaves less to do. */
  lemma StepMoves(plan: Plan, rank: map<string, nat>, w: World, w': World, g: Progress) returns (g': Progress)
    requires Good(plan, rank) && Leads(plan, w, w') && At(plan, w, g)
    ensures At(plan, w', g')
    ensures NoClash(plan) && g.Free? ==> g'.Free? && ActionsLeft(plan, w', g'.at) < ActionsLeft(plan, w, g.at)
  {
    var a := ActionAt(plan, w);
    AsksWhatIsDue(plan, rank, w, g);
    CarriedKeeps(plan, rank, w, w', a, g);
    g' := After(plan, g, a);
    if NoClash(plan) && g.Free? {
      if RecordOf(a).Some? { GateLeft(plan, w, w', a, g); } else { OtherLeft(plan, w, w'); }
    }
  }

  // ---- whole runs ----

  /** Nothing has been begun, handed off or recorded. */
  ghost predicate Fresh(plan: Plan, w: World) {
    w.state.Keys == plan.graph.Keys && (forall id | id in w.state :: w.state[id] == TODO) && w.handoffs == {} && w.store == map[]
  }

  /** In every world the lane decision keeps the ids it is asked about. */
  ghost predicate Decides(plan: Plan) {
    forall w :: SameMembersAsAsked(plan.decide(w), plan.graph.Keys)
  }

  const Start := Free(Point(0, 1))

  lemma FreshStarts(plan: Plan, rank: map<string, nat>, w: World)
    requires Good(plan, rank) && Fresh(plan, w)
    ensures At(plan, w, Start)
  {
    forall i, id | 0 <= i < |plan.segments| && id in RequiredIn(plan, plan.segments[i]) ensures PacketAt(plan, w, Start, i, id) {
      PacketIsPoint(plan, rank, i, id);
    }
  }

  /** The delivery is somewhere on its way, and without a clash with no more than `left` actions left. */
  ghost predicate Underway(plan: Plan, w: World, left: int) {
    exists g :: At(plan, w, g) && (NoClash(plan) ==> g.Free? && ActionsLeft(plan, w, g.at) <= left)
  }

  lemma UnderwayStep(plan: Plan, rank: map<string, nat>, w: World, w': World, left: int)
    requires Good(plan, rank) && Leads(plan, w, w') && Underway(plan, w, left)
    ensures Underway(plan, w', left - 1)
  {
    var g :| At(plan, w, g) && (NoClash(plan) ==> g.Free? && ActionsLeft(plan, w, g.at) <= left);
    var g' := StepMoves(plan, rank, w, w', g);
  }

  ghost predicate CountsAt(run: seq<World>, p: (World, int) -> bool, k: nat) {
    k + 1 < |run| && forall left | p(run[k], left) :: p(run[k + 1], left - 1)
  }

  lemma {:induction false} CountsAlong(run: seq<World>, p: (World, int) -> bool, left: int, i: nat)
    requires i < |run| && p(run[0], left) && forall k: nat | k + 1 < |run| :: CountsAt(run, p, k)
    ensures p(run[i], left - i)
    decreases i
  {
    if i > 0 {
      CountsAlong(run, p, left, i - 1);
      assert CountsAt(run, p, i - 1);
    }
  }

  lemma RunMoves(plan: Plan, rank: map<string, nat>, run: seq<World>, i: nat) returns (g: Progress)
    requires Good(plan, rank) && Run(plan, run) && Fresh(plan, run[0]) && i < |run|
    ensures At(plan, run[i], g)
    ensures NoClash(plan) ==> g.Free? && i + ActionsLeft(plan, run[i], g.at) <= ActionsLeft(plan, run[0], Start.at)
  {
    var p := (w, left) => Underway(plan, w, left);
    var left := ActionsLeft(plan, run[0], Start.at);
    FreshStarts(plan, rank, run[0]);
    forall k: nat | k + 1 < |run| ensures CountsAt(run, p, k) {
      RunLeads(plan, run, k);
      forall m | p(run[k], m) ensures p(run[k + 1], m - 1) { UnderwayStep(plan, rank, run[k], run[k + 1], m); }
    }
    CountsAlong(run, p, left, i);
    g :| At(plan, run[i], g) && (NoClash(plan) ==> g.Free? && ActionsLeft(plan, run[i], g.at) <= left - i);
  }

  lemma RunLeads(plan: Plan, run: seq<World>, i: nat)
    requires Run(plan, run) && i + 1 < |run|
    ensures Leads(plan, run[i], run[i + 1])
  {
    assert CarriedAt(plan, run, i);
  }

  /** Without a clash no run from a fresh start is longer than this. */
  lemma DeliveryEnds(plan: Plan, rank: map<string, nat>, run: seq<World>)
    requires Good(plan, rank) && Run(plan, run) && Fresh(plan, run[0]) && NoClash(plan)
    ensures |run| - 1 <= MostActions(plan)
  {
    var g := RunMoves(plan, rank, run, |run| - 1);
    GatesAreLeft(plan, g);
    PotentialBound(plan, Bare(run[0]));
  }

  /** COMPLETE is answered only if no gates clash. */
  lemma CompleteMeansNoClash(plan: Plan, rank: map<string, nat>, w: World, g: Progress)
    requires Good(plan, rank) && WellFormed(plan, w) && At(plan, w, g) && ActionAt(plan, w) == Complete
    ensures NoClash(plan)
  {
    CompleteAsks(plan, rank, w, g);
    forall p, q ensures !Clash(plan, p, q) {
      assert Clash(plan, p, q) ==> Before(q, g.at);
    }
  }

  lemma NeverComplete(plan: Plan, rank: map<string, nat>, run: seq<World>, i: nat)
    requires Good(plan, rank) && Run(plan, run) && Fresh(plan, run[0]) && !NoClash(plan) && i < |run|
    ensures ActionAt(plan, run[i]) != Complete
  {
    var g := RunMoves(plan, rank, run, i);
    if ActionAt(plan, run[i]) == Complete { CompleteMeansNoClash(plan, rank, run[i], g); }
  }

  lemma NextWorld(plan: Plan, w: World) returns (w': World)
    requires Decides(plan) && WellFormed(plan, w) && !Final(plan, w)
    ensures Leads(plan, w, w') && WellFormed(plan, w')
  {
    w' :| Carry(plan, w, w');
    OnlyHandedOutChanges(plan, w, w');
  }

  lemma Appended(run: seq<World>, w': World, leads: (World, World) -> bool, i: nat)
    requires run != [] && leads(run[|run| - 1], w') && i < |run|
    requires i + 1 < |run| ==> leads(run[i], run[i + 1])
    ensures var longer := run + [w']; leads(longer[i], longer[i + 1])
  {
    var longer := run + [w'];
    assert longer[i] == run[i] && longer[i + 1] == if i + 1 < |run| then run[i + 1] else w';
  }

  lemma RunExtends(plan: Plan, run: seq<World>, w': World)
    requires Run(plan, run) && Leads(plan, run[|run| - 1], w') && WellFormed(plan, w')
    ensures Run(plan, run + [w'])
  {
    var longer := run + [w'];
    forall i | 0 <= i < |longer| ensures WellFormed(plan, longer[i]) {
      assert longer[i] == if i < |run| then run[i] else w';
    }
    forall i | 0 <= i < |longer| - 1 ensures CarriedAt(plan, longer, i) {
      if i + 1 < |run| { RunLeads(plan, run, i); }
      Appended(run, w', (a, b) => Leads(plan, a, b), i);
    }
  }

  /** With a clash, delivery goes on for ever: there are runs of every length. */
  lemma {:induction false} DeliveryNeverEnds(plan: Plan, rank: map<string, nat>, w: World, n: nat) returns (run: seq<World>)
    requires Good(plan, rank) && Decides(plan) && Fresh(plan, w) && !NoClash(plan)
    ensures Run(plan, run) && run[0] == w && |run| == n + 1
  {
    if n == 0 {
      run := [w];
    } else {
      var before := DeliveryNeverEnds(plan, rank, w, n - 1);
      run := GoesOn(plan, rank, before);
    }
  }

  lemma GoesOn(plan: Plan, rank: map<string, nat>, run: seq<World>) returns (longer: seq<World>)
    requires Good(plan, rank) && Decides(plan) && Run(plan, run) && Fresh(plan, run[0]) && !NoClash(plan)
    ensures Run(plan, longer) && longer[0] == run[0] && |longer| == |run| + 1
  {
    NotFinal(plan, rank, run);
    var w' := NextWorld(plan, run[|run| - 1]);
    RunExtends(plan, run, w');
    longer := run + [w'];
  }

  lemma NotFinal(plan: Plan, rank: map<string, nat>, run: seq<World>)
    requires Good(plan, rank) && Run(plan, run) && Fresh(plan, run[0]) && !NoClash(plan)
    ensures !Final(plan, run[|run| - 1])
  {
    NeverComplete(plan, rank, run, |run| - 1);
    SoundPlansDeliver(plan, run, rank, |run| - 1);
  }

  ghost predicate Bounded(plan: Plan, w: World, n: int) {
    forall run | Run(plan, run) && run[0] == w :: |run| - 1 <= n
  }

  /** From a fresh start, delivery of a sound plan ends if and only if no two of its gates clash. */
  lemma DeliveryEndsExactly(plan: Plan, rank: map<string, nat>, w: World)
    requires Good(plan, rank) && Decides(plan) && Fresh(plan, w)
    ensures (exists n :: Bounded(plan, w, n)) <==> NoClash(plan)
  {
    if NoClash(plan) {
      forall run | Run(plan, run) && run[0] == w ensures |run| - 1 <= MostActions(plan) { DeliveryEnds(plan, rank, run); }
      assert Bounded(plan, w, MostActions(plan));
    } else if n :| Bounded(plan, w, n) {
      var run := DeliveryNeverEnds(plan, rank, w, if n < 0 then 0 else n + 1);
    }
  }
}
