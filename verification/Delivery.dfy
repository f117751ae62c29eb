/**
 Whole delivery runs: the world the flow control plane reads, and what carrying
 out one action after another does to it. A worker may finish any non-empty part
 of what it was given, on the tree or as a handoff to integrate; a gate writes its
 record; an advance rewrites the checkpoint.
 */
module Delivery {
  import opened Graph
  import opened Flow
  import opened Sorting
  import opened Lists
  import opened Records

  /** The lane decision is taken afresh in every world. */
  datatype Plan = Plan(graph: map<string, NodeSpec>, decisions: seq<Decision>, segments: seq<Segment>,
                       decide: World -> seq<string> -> LaneDecision)

  datatype World = World(state: map<string, State>, handoffs: set<string>, store: map<string, GateRecord>,
                         step: Option<string>, checkpoint: Option<string>)

  /** The records that are read back: what is in the store, in any order. */
  ghost function RecordsOf(w: World): seq<GateRecord> { Listing(w.store.Values) }

  ghost predicate WellFormed(plan: Plan, w: World) {
    w.state.Keys == plan.graph.Keys && SameMembersAsAsked(plan.decide(w), plan.graph.Keys)
  }

  ghost function InputsOf(plan: Plan, w: World): Inputs
    requires WellFormed(plan, w)
  {
    Inputs(Resolve(plan.graph, plan.decisions, w.state), RecordsOf(w), w.step, w.checkpoint,
           (set h | h in w.handoffs && h in w.state && w.state[h] != DONE),
           Ok(plan.segments), plan.decide(w))
  }

  ghost function ActionAt(plan: Plan, w: World): Action
    requires WellFormed(plan, w)
  {
    Next(InputsOf(plan, w))
  }

  ghost function Landed(w: World, landed: set<string>): World {
    w.(state := map id | id in w.state :: if id in landed then DONE else w.state[id])
  }

  ghost function Worked(w: World, finished: set<string>, handed: set<string>, begun: set<string>): World {
    w.(handoffs := w.handoffs + handed,
       state := map id | id in w.state ::
                  if id in finished then DONE
                  else if id in begun && w.state[id] == TODO then PARTIAL
                  else w.state[id])
  }

  ghost predicate Land(w: World, w': World, landed: set<string>, packets: seq<string>) {
    landed != {} && (forall id | id in landed :: id in packets && id in w.state) && w' == Landed(w, landed)
  }

  ghost predicate Work(w: World, w': World, finished: set<string>, handed: set<string>, begun: set<string>, packets: seq<string>) {
    && finished + handed != {}
    && (forall id | id in finished + handed + begun :: id in packets && id in w.state)
    && w' == Worked(w, finished, handed, begun)
  }

  /** `w'` is `w` after action `a` has been carried out. */
  ghost predicate CarryOut(a: Action, w: World, w': World) {
    match a
    case Repair => w'.step != Some("recovering") && w' == w.(step := w'.step)
    case Integrate(_, _, packets) => exists landed :: Land(w, w', landed, packets)
    case Dispatch(_, _, packets, _) => exists finished, handed, begun :: Work(w, w', finished, handed, begun, packets)
    case WaveGate(segment, _, packets) => w' == w.(store := Recorded(w.store, WaveRecord(segment, packets)))
    case PhaseGate(segment, _) => w' == w.(store := Recorded(w.store, PhaseRecord(segment)))
    case AdvancePhase(_, to) => w' == w.(checkpoint := Some(to), step := Some("framed"))
    case _ => false
  }

  /** `w'` is `w` after the action it asks for has been carried out. */
  ghost predicate Carry(plan: Plan, w: World, w': World)
    requires WellFormed(plan, w)
  {
    CarryOut(ActionAt(plan, w), w, w')
  }

  // ---- facts about the current segment ----

  ghost function Current(plan: Plan, w: World): (c: nat)
    requires WellFormed(plan, w)
    ensures c <= |plan.segments|
  {
    CurrentOf(InputsOf(plan, w))
  }

  /** The required nodes of segment `i`, which no action changes. */
  ghost function RequiredIn(plan: Plan, s: Segment): seq<string> {
    Keep(s.nodeIds, id => id in plan.graph && !plan.graph[id].optional)
  }

  lemma RequiredIsStatic(plan: Plan, w: World, s: Segment)
    requires WellFormed(plan, w)
    ensures Required(InputsOf(plan, w).byId, s) == RequiredIn(plan, s)
  {
    var byId := InputsOf(plan, w).byId;
    KeepSame(s.nodeIds, id => id in byId && !byId[id].optional, id => id in plan.graph && !plan.graph[id].optional);
  }

  /** What integrate and dispatch hand out: required nodes of the current segment that are not done. */
  lemma WorkIsCurrent(plan: Plan, w: World, id: string)
    requires WellFormed(plan, w)
    requires var a := ActionAt(plan, w); (a.Integrate? || a.Dispatch?) && id in a.packets
    ensures var c := Current(plan, w);
            && c < |plan.segments| && id in RequiredIn(plan, plan.segments[c])
            && id in w.state && w.state[id] != DONE
            && (ActionAt(plan, w).Integrate? ==> id in w.handoffs)
            && (ActionAt(plan, w).Dispatch? ==>
                  id !in w.handoffs && (w.state[id] == PARTIAL || BlockedBy(plan.graph, plan.decisions, w.state, id) == []))
  {
    var inputs := InputsOf(plan, w);
    SegmentActions(inputs);
    var s := plan.segments[Current(plan, w)];
    RequiredIsStatic(plan, w, s);
    if ActionAt(plan, w).Integrate? {
      IntegrateMembers(inputs, s, id);
    } else {
      DispatchMembers(inputs, s, id);
    }
  }

  // ---- deadlock ----

  ghost predicate RequiredUpTo(plan: Plan, i: nat, id: string)
    requires i < |plan.segments|
  {
    exists j | 0 <= j <= i :: id in RequiredIn(plan, plan.segments[j])
  }

  /** `n`, in segment `i`, waits for a decision, or for something `stuck` or never delivered before `i` is. */
  ghost predicate Stuck(plan: Plan, w: World, stuck: set<string>, n: string, i: nat)
    requires i < |plan.segments|
  {
    && n in RequiredIn(plan, plan.segments[i])
    && (OpenDecisions(plan.decisions, n) != []
        || exists d | d in plan.graph[n].needs :: !IsDone(w.state, d) && (d in stuck || !RequiredUpTo(plan, i, d)))
  }

  /**
   A set of unstarted packets none of which can ever be started: each waits for an
   unanswered decision, for another member, or for something undelivered that no
   segment up to its own delivers (a later segment's node, an optional node, a node
   in no segment, or one the graph does not have).
   */
  ghost predicate Deadlocked(plan: Plan, w: World, stuck: set<string>) {
    && stuck != {}
    && forall n | n in stuck ::
         && n in w.state && w.state[n] == TODO && n !in w.handoffs
         && exists i | 0 <= i < |plan.segments| :: Stuck(plan, w, stuck, n, i)
  }

  lemma BlockedPacket(plan: Plan, w: World, n: string)
    requires WellFormed(plan, w) && ActionAt(plan, w).Blocked?
    requires Current(plan, w) < |plan.segments| && n in RequiredIn(plan, plan.segments[Current(plan, w)])
    requires w.state[n] != DONE
    ensures w.state[n] == TODO && n !in w.handoffs && BlockedBy(plan.graph, plan.decisions, w.state, n) != []
  {
    var inputs := InputsOf(plan, w);
    SegmentActions(inputs);
    RequiredIsStatic(plan, w, plan.segments[Current(plan, w)]);
    BlockedMembers(inputs, plan.segments[Current(plan, w)], n);
  }

  lemma BlockedHasOutstanding(plan: Plan, w: World) returns (n: string)
    requires WellFormed(plan, w) && ActionAt(plan, w).Blocked?
    ensures Current(plan, w) < |plan.segments| && n in RequiredIn(plan, plan.segments[Current(plan, w)])
    ensures w.state[n] != DONE
  {
    var inputs := InputsOf(plan, w);
    SegmentActions(inputs);
    var s := plan.segments[Current(plan, w)];
    RequiredIsStatic(plan, w, s);
    var out := InState(inputs.byId, Required(inputs.byId, s), false);
    n := out[0];
    assert n in out;
  }

  /** BLOCKED is only ever answered over such a set: the current segment's outstanding packets. */
  lemma BlockedIsDeadlock(plan: Plan, w: World) returns (stuck: set<string>)
    requires WellFormed(plan, w) && ActionAt(plan, w).Blocked?
    ensures Deadlocked(plan, w, stuck)
  {
    var m := BlockedHasOutstanding(plan, w);
    var c := Current(plan, w);
    stuck := set n | n in RequiredIn(plan, plan.segments[c]) && w.state[n] != DONE;
    assert m in stuck;
    forall n | n in stuck
      ensures w.state[n] == TODO && n !in w.handoffs && Stuck(plan, w, stuck, n, c)
    {
      BlockedPacket(plan, w, n);
      OutstandingIsStuck(plan, w, stuck, n);
    }
  }

  lemma OutstandingIsStuck(plan: Plan, w: World, stuck: set<string>, n: string)
    requires WellFormed(plan, w) && Current(plan, w) < |plan.segments|
    requires n in RequiredIn(plan, plan.segments[Current(plan, w)])
    requires BlockedBy(plan.graph, plan.decisions, w.state, n) != []
    requires forall m | m in RequiredIn(plan, plan.segments[Current(plan, w)]) && w.state[m] != DONE :: m in stuck
    ensures Stuck(plan, w, stuck, n, Current(plan, w))
  {
    if OpenDecisions(plan.decisions, n) == [] {
      var missing := Keep(plan.graph[n].needs, d => !IsDone(w.state, d));
      var d := missing[0];
      assert d in missing;
      forall j | 0 <= j < Current(plan, w) ensures d !in RequiredIn(plan, plan.segments[j]) {
        if d in RequiredIn(plan, plan.segments[j]) { EarlierSegmentIsDone(plan, w, j, d); }
      }
      MissingIsStuck(plan, w, stuck, d, Current(plan, w));
    }
  }

  /** What is missing is outstanding in this segment, or no segment up to this one delivers it. */
  lemma MissingIsStuck(plan: Plan, w: World, stuck: set<string>, d: string, c: nat)
    requires c < |plan.segments| && w.state.Keys == plan.graph.Keys && !IsDone(w.state, d)
    requires forall m | m in RequiredIn(plan, plan.segments[c]) && w.state[m] != DONE :: m in stuck
    requires forall j | 0 <= j < c :: d !in RequiredIn(plan, plan.segments[j])
    ensures d in stuck || !RequiredUpTo(plan, c, d)
  {
  }

  lemma EarlierSegmentIsDone(plan: Plan, w: World, j: nat, d: string)
    requires WellFormed(plan, w) && j < Current(plan, w) && d in RequiredIn(plan, plan.segments[j])
    ensures IsDone(w.state, d)
  {
    RequiredIsStatic(plan, w, plan.segments[j]);
    EarlierIsDone(InputsOf(plan, w), j, d);
  }

  lemma CarryOutChanges(a: Action, w: World, w': World)
    requires CarryOut(a, w, w')
    ensures w'.state.Keys == w.state.Keys && w.handoffs <= w'.handoffs
    ensures forall id | id in w.state ::
              && (w.state[id] == DONE ==> w'.state[id] == DONE)
              && (w'.state[id] == TODO ==> w.state[id] == TODO)
    ensures forall id | id in w.state && (w'.state[id] != w.state[id] || (id in w'.handoffs && id !in w.handoffs)) ::
              (a.Integrate? || a.Dispatch?) && id in a.packets
  {
    if a.Dispatch? {
      var finished, handed, begun :| Work(w, w', finished, handed, begun, a.packets);
    }
  }

  /** Only a packet that was handed out changes, and no packet moves backwards. */
  lemma OnlyHandedOutChanges(plan: Plan, w: World, w': World)
    requires WellFormed(plan, w) && Carry(plan, w, w')
    ensures w'.state.Keys == w.state.Keys && w.handoffs <= w'.handoffs
    ensures forall id | id in w.state ::
              && (w.state[id] == DONE ==> w'.state[id] == DONE)
              && (w'.state[id] == TODO ==> w.state[id] == TODO)
    ensures forall id | id in w.state && (w'.state[id] != w.state[id] || (id in w'.handoffs && id !in w.handoffs)) ::
              var a := ActionAt(plan, w); (a.Integrate? || a.Dispatch?) && id in a.packets
  {
    CarryOutChanges(ActionAt(plan, w), w, w');
  }

  lemma OutstandingIsNotBefore(plan: Plan, w: World, n: string, i: nat)
    requires WellFormed(plan, w) && i < |plan.segments|
    requires n in RequiredIn(plan, plan.segments[i]) && w.state[n] != DONE
    ensures Current(plan, w) <= i
  {
    RequiredIsStatic(plan, w, plan.segments[i]);
    if i < Current(plan, w) {
      EarlierIsDone(InputsOf(plan, w), i, n);
    }
  }

  lemma StuckIsBlocked(plan: Plan, w: World, stuck: set<string>, n: string, i: nat)
    requires i < |plan.segments| && Stuck(plan, w, stuck, n, i)
    ensures BlockedBy(plan.graph, plan.decisions, w.state, n) != []
  {
    if OpenDecisions(plan.decisions, n) == [] {
      var d :| d in plan.graph[n].needs && !IsDone(w.state, d);
      assert d in Keep(plan.graph[n].needs, e => !IsDone(w.state, e));
    }
  }

  lemma StuckNotHandedOut(plan: Plan, w: World, stuck: set<string>, n: string, i: nat)
    requires WellFormed(plan, w) && i < |plan.segments| && Stuck(plan, w, stuck, n, i)
    requires w.state[n] == TODO && n !in w.handoffs
    ensures var a := ActionAt(plan, w); (a.Integrate? || a.Dispatch?) ==> n !in a.packets
  {
    StuckIsBlocked(plan, w, stuck, n, i);
    var a := ActionAt(plan, w);
    if (a.Integrate? || a.Dispatch?) && n in a.packets {
      WorkIsCurrent(plan, w, n);
    }
  }

  lemma StuckUntouched(plan: Plan, w: World, w': World, stuck: set<string>, n: string)
    requires WellFormed(plan, w) && Carry(plan, w, w') && Deadlocked(plan, w, stuck) && n in stuck
    ensures w'.state.Keys == w.state.Keys && w'.state[n] == TODO && n !in w'.handoffs
  {
    var i :| 0 <= i < |plan.segments| && Stuck(plan, w, stuck, n, i);
    StuckNotHandedOut(plan, w, stuck, n, i);
    CarryOutChanges(ActionAt(plan, w), w, w');
  }

  /** A deadlock outlives every action. */
  lemma DeadlockPersists(plan: Plan, w: World, w': World, stuck: set<string>)
    requires WellFormed(plan, w) && Carry(plan, w, w') && Deadlocked(plan, w, stuck)
    ensures Deadlocked(plan, w', stuck)
  {
    OnlyHandedOutChanges(plan, w, w');
    forall n | n in stuck
      ensures w'.state[n] == TODO && n !in w'.handoffs
      ensures exists i | 0 <= i < |plan.segments| :: Stuck(plan, w', stuck, n, i)
    {
      StuckUntouched(plan, w, w', stuck, n);
      var i :| 0 <= i < |plan.segments| && Stuck(plan, w, stuck, n, i);
      StuckStays(plan, w, w', stuck, n, i);
    }
  }

  lemma StuckStays(plan: Plan, w: World, w': World, stuck: set<string>, n: string, i: nat)
    requires WellFormed(plan, w) && Carry(plan, w, w') && Deadlocked(plan, w, stuck) && n in stuck
    requires i < |plan.segments| && Stuck(plan, w, stuck, n, i)
    ensures Stuck(plan, w', stuck, n, i)
  {
    if OpenDecisions(plan.decisions, n) == [] {
      var d :| d in plan.graph[n].needs && !IsDone(w.state, d) && (d in stuck || !RequiredUpTo(plan, i, d));
      OnlyHandedOutChanges(plan, w, w');
      if d in stuck {
        StuckUntouched(plan, w, w', stuck, d);
      } else if d in w.state {
        OutstandingIsNotBefore(plan, w, n, i);
        var a := ActionAt(plan, w);
        if (a.Integrate? || a.Dispatch?) && d in a.packets {
          WorkIsCurrent(plan, w, d);
        }
      }
      assert !IsDone(w'.state, d);
    }
  }

  lemma StuckWasThere(plan: Plan, w: World, w': World, stuck: set<string>, n: string, i: nat)
    requires forall id | IsDone(w.state, id) :: IsDone(w'.state, id)
    requires i < |plan.segments| && Stuck(plan, w', stuck, n, i)
    ensures Stuck(plan, w, stuck, n, i)
  {
    if OpenDecisions(plan.decisions, n) == [] {
      var d :| d in plan.graph[n].needs && !IsDone(w'.state, d) && (d in stuck || !RequiredUpTo(plan, i, d));
      assert !IsDone(w.state, d);
    }
  }

  /** And it was there before every action that led to it. */
  lemma DeadlockWasThere(plan: Plan, w: World, w': World, stuck: set<string>)
    requires WellFormed(plan, w) && Carry(plan, w, w') && Deadlocked(plan, w', stuck)
    ensures Deadlocked(plan, w, stuck)
  {
    OnlyHandedOutChanges(plan, w, w');
    assert forall id | IsDone(w.state, id) :: IsDone(w'.state, id);
    forall n | n in stuck ensures exists i | 0 <= i < |plan.segments| :: Stuck(plan, w, stuck, n, i) {
      var i :| 0 <= i < |plan.segments| && Stuck(plan, w', stuck, n, i);
      StuckWasThere(plan, w, w', stuck, n, i);
    }
  }

  lemma DeadlockNeverComplete(plan: Plan, w: World, stuck: set<string>)
    requires WellFormed(plan, w) && Deadlocked(plan, w, stuck)
    ensures ActionAt(plan, w) != Complete
  {
    var n :| n in stuck;
    var i :| 0 <= i < |plan.segments| && Stuck(plan, w, stuck, n, i);
    OutstandingIsNotBefore(plan, w, n, i);
    CompleteHasNoCurrent(InputsOf(plan, w));
  }

  // ---- the potential: how many actions are left at most ----

  /** 3 for an unstarted packet, 2 once handed off, 1 once done, 0 once covered by its wave gate. */
  ghost function Weight(w: World, segment: string, id: string): nat {
    if !IsDone(w.state, id) then (if id in w.handoffs then 2 else 3)
    else if id in WaveCovered(RecordsOf(w), segment) then 0 else 1
  }

  ghost function PacketLoad(w: World, segment: string, ids: seq<string>): (n: nat)
    ensures n <= 3 * |ids|
  {
    if ids == [] then 0 else Weight(w, segment, ids[0]) + PacketLoad(w, segment, ids[1..])
  }

  ghost function SegmentLoad(plan: Plan, w: World, segs: seq<Segment>): nat {
    if segs == [] then 0
    else
      PacketLoad(w, segs[0].id, RequiredIn(plan, segs[0])) + (if PhaseGated(RecordsOf(w), segs[0].id) then 0 else 1)
      + SegmentLoad(plan, w, segs[1..])
  }

  ghost function CheckpointLag(plan: Plan, w: World): nat {
    if w.checkpoint.None? || FindIndex(plan.segments, w.checkpoint.value) == -1 then 0
    else |plan.segments| - FindIndex(plan.segments, w.checkpoint.value)
  }

  ghost function Potential(plan: Plan, w: World): nat {
    (if w.step == Some("recovering") then 1 else 0) + SegmentLoad(plan, w, plan.segments) + CheckpointLag(plan, w)
  }

  ghost function PacketCount(plan: Plan, segs: seq<Segment>): nat {
    if segs == [] then 0 else |RequiredIn(plan, segs[0])| + PacketCount(plan, segs[1..])
  }

  lemma {:induction false} SegmentLoadBound(plan: Plan, w: World, segs: seq<Segment>)
    ensures SegmentLoad(plan, w, segs) <= 3 * PacketCount(plan, segs) + |segs|
  {
    if segs != [] { SegmentLoadBound(plan, w, segs[1..]); }
  }

  lemma PotentialBound(plan: Plan, w: World)
    ensures Potential(plan, w) <= 1 + 3 * PacketCount(plan, plan.segments) + 2 * |plan.segments|
  {
    SegmentLoadBound(plan, w, plan.segments);
  }

  /** No packet gets heavier from `w` to `w'`, in any segment. */
  ghost predicate NoHeavier(plan: Plan, w: World, w': World, segs: seq<Segment>) {
    forall i, id | 0 <= i < |segs| && id in RequiredIn(plan, segs[i]) ::
      Weight(w', segs[i].id, id) <= Weight(w, segs[i].id, id)
  }

  ghost predicate RecordsKept(w: World, w': World) {
    forall r | r in RecordsOf(w) :: r in RecordsOf(w')
  }

  lemma {:induction false} PacketLoadFalls(w: World, w': World, segment: string, ids: seq<string>)
    requires forall id | id in ids :: Weight(w', segment, id) <= Weight(w, segment, id)
    ensures PacketLoad(w', segment, ids) <= PacketLoad(w, segment, ids)
    ensures (exists id | id in ids :: Weight(w', segment, id) < Weight(w, segment, id))
            ==> PacketLoad(w', segment, ids) < PacketLoad(w, segment, ids)
  {
    if ids != [] {
      assert ids[0] in ids;
      assert forall id | id in ids[1..] :: id in ids;
      PacketLoadFalls(w, w', segment, ids[1..]);
      if id :| id in ids && Weight(w', segment, id) < Weight(w, segment, id) {
        assert id == ids[0] || id in ids[1..];
      }
    }
  }

  lemma {:induction false} SegmentLoadFalls(plan: Plan, w: World, w': World, segs: seq<Segment>)
    requires NoHeavier(plan, w, w', segs) && RecordsKept(w, w')
    ensures SegmentLoad(plan, w', segs) <= SegmentLoad(plan, w, segs)
    ensures (exists i, id | 0 <= i < |segs| && id in RequiredIn(plan, segs[i]) ::
               Weight(w', segs[i].id, id) < Weight(w, segs[i].id, id))
            ==> SegmentLoad(plan, w', segs) < SegmentLoad(plan, w, segs)
    ensures (exists s | s in segs :: PhaseGated(RecordsOf(w'), s.id) && !PhaseGated(RecordsOf(w), s.id))
            ==> SegmentLoad(plan, w', segs) < SegmentLoad(plan, w, segs)
  {
    if segs != [] {
      var t := segs[1..];
      assert forall i | 0 <= i < |t| :: t[i] == segs[i + 1];
      SegmentLoadFalls(plan, w, w', t);
      assert segs[0] in segs;
      PacketLoadFalls(w, w', segs[0].id, RequiredIn(plan, segs[0]));
      assert PhaseGated(RecordsOf(w), segs[0].id) ==> PhaseGated(RecordsOf(w'), segs[0].id);
      if i, id :| 0 <= i < |segs| && id in RequiredIn(plan, segs[i]) && Weight(w', segs[i].id, id) < Weight(w, segs[i].id, id) {
        if i > 0 { assert segs[i] == t[i - 1]; }
      }
      if s :| s in segs && PhaseGated(RecordsOf(w'), s.id) && !PhaseGated(RecordsOf(w), s.id) {
        assert s == segs[0] || s in t;
      }
    }
  }

  lemma WorkLightens(a: Action, w: World, w': World, id: string)
    requires CarryOut(a, w, w') && (a.Integrate? || a.Dispatch?) && id in w.state
    ensures forall segment :: Weight(w', segment, id) <= Weight(w, segment, id)
  {
    CarryOutChanges(a, w, w');
    WorkKeepsRest(a, w, w');
  }

  lemma WorkedPacket(a: Action, w: World, w': World) returns (id: string)
    requires CarryOut(a, w, w') && (a.Integrate? || a.Dispatch?)
    requires forall x | x in a.packets :: !IsDone(w.state, x) && (a.Dispatch? ==> x !in w.handoffs)
    ensures id in a.packets && forall segment :: Weight(w', segment, id) < Weight(w, segment, id)
  {
    if a.Integrate? {
      var landed :| Land(w, w', landed, a.packets);
      id :| id in landed;
    } else {
      var finished, handed, begun :| Work(w, w', finished, handed, begun, a.packets);
      id :| id in finished + handed;
    }
  }

  /** What integrate and dispatch may hand out: packets of one segment that are not done, and for dispatch not handed off. */
  ghost predicate Workable(plan: Plan, w: World, a: Action, c: nat) {
    && (a.Integrate? || a.Dispatch?) && w.state.Keys == plan.graph.Keys && c < |plan.segments|
    && forall id | id in a.packets :: id in RequiredIn(plan, plan.segments[c]) && !IsDone(w.state, id) && (a.Dispatch? ==> id !in w.handoffs)
  }

  lemma WorkLoadFalls(plan: Plan, w: World, w': World, a: Action, c: nat)
    requires Workable(plan, w, a, c) && CarryOut(a, w, w')
    ensures Potential(plan, w') < Potential(plan, w)
  {
    forall i, id | 0 <= i < |plan.segments| && id in RequiredIn(plan, plan.segments[i])
      ensures Weight(w', plan.segments[i].id, id) <= Weight(w, plan.segments[i].id, id)
    {
      WorkLightens(a, w, w', id);
    }
    var id := WorkedPacket(a, w, w');
    WorkKeepsRest(a, w, w');
    LoadFalls(plan, w, w', c, id);
  }

  lemma WorkIsWorkable(plan: Plan, w: World)
    requires WellFormed(plan, w) && (ActionAt(plan, w).Integrate? || ActionAt(plan, w).Dispatch?)
    ensures Workable(plan, w, ActionAt(plan, w), Current(plan, w))
  {
    var some := HandedOut(plan, w);
    WorkIsCurrent(plan, w, some);
    forall id | id in ActionAt(plan, w).packets
      ensures id in RequiredIn(plan, plan.segments[Current(plan, w)]) && !IsDone(w.state, id) && (ActionAt(plan, w).Dispatch? ==> id !in w.handoffs)
    {
      WorkIsCurrent(plan, w, id);
    }
  }

  lemma WorkFalls(plan: Plan, w: World, w': World)
    requires WellFormed(plan, w) && Carry(plan, w, w')
    requires ActionAt(plan, w).Integrate? || ActionAt(plan, w).Dispatch?
    ensures Potential(plan, w') < Potential(plan, w)
  {
    WorkIsWorkable(plan, w);
    WorkLoadFalls(plan, w, w', ActionAt(plan, w), Current(plan, w));
  }

  lemma WorkKeepsRest(a: Action, w: World, w': World)
    requires CarryOut(a, w, w') && (a.Integrate? || a.Dispatch?)
    ensures w'.store == w.store && w'.step == w.step && w'.checkpoint == w.checkpoint
  {
  }

  /** One packet lighter and none heavier: the potential falls. */
  lemma LoadFalls(plan: Plan, w: World, w': World, i: nat, id: string)
    requires NoHeavier(plan, w, w', plan.segments) && RecordsKept(w, w') && w'.step == w.step && w'.checkpoint == w.checkpoint
    requires i < |plan.segments| && id in RequiredIn(plan, plan.segments[i])
    requires Weight(w', plan.segments[i].id, id) < Weight(w, plan.segments[i].id, id)
    ensures Potential(plan, w') < Potential(plan, w)
  {
    SegmentLoadFalls(plan, w, w', plan.segments);
  }

  // ---- gates ----

  /** The record an action leads to, if it is a gate. */
  function RecordOf(a: Action): Option<GateRecord> {
    match a
    case WaveGate(segment, _, packets) => Some(WaveRecord(segment, packets))
    case PhaseGate(segment, _) => Some(PhaseRecord(segment))
    case _ => None
  }

  /** Carrying out what the world asks for replaces no other record. */
  ghost predicate ReplacesNothing(plan: Plan, w: World)
    requires WellFormed(plan, w)
  {
    match RecordOf(ActionAt(plan, w))
    case None => true
    case Some(r) => NameOf(r) in w.store ==> w.store[NameOf(r)] == r
  }

  lemma RecordIsKept(w: World, w': World, r: GateRecord)
    requires w' == w.(store := Recorded(w.store, r)) && (NameOf(r) in w.store ==> w.store[NameOf(r)] == r)
    ensures r in RecordsOf(w') && RecordsKept(w, w')
  {
    assert w'.store[NameOf(r)] == r && r in w'.store.Values;
    forall q | q in RecordsOf(w) ensures q in RecordsOf(w') {
      assert q in w.store.Values;
      var n :| n in w.store && w.store[n] == q;
      assert n in w'.store && w'.store[n] == q;
    }
  }

  lemma RecordLightens(w: World, w': World, r: GateRecord, segment: string, id: string)
    requires w' == w.(store := Recorded(w.store, r)) && (NameOf(r) in w.store ==> w.store[NameOf(r)] == r)
    ensures RecordsKept(w, w')
    ensures Weight(w', segment, id) <= Weight(w, segment, id)
    ensures r.gate == Wave && r.segment == segment && id in r.packets && IsDone(w.state, id)
            ==> Weight(w', segment, id) == 0
  {
    RecordIsKept(w, w', r);
    if id in WaveCovered(RecordsOf(w), segment) {
      assert id in WaveCovered(RecordsOf(w'), segment);
    }
  }

  lemma RecordNoHeavier(plan: Plan, w: World, w': World, r: GateRecord)
    requires w' == w.(store := Recorded(w.store, r)) && (NameOf(r) in w.store ==> w.store[NameOf(r)] == r)
    ensures NoHeavier(plan, w, w', plan.segments) && RecordsKept(w, w')
  {
    forall i, id | 0 <= i < |plan.segments| && id in RequiredIn(plan, plan.segments[i])
      ensures Weight(w', plan.segments[i].id, id) <= Weight(w, plan.segments[i].id, id)
    {
      RecordLightens(w, w', r, plan.segments[i].id, id);
    }
    RecordLightens(w, w', r, "", "");
  }

  /** What a wave gate is asked for: a delivered packet of some segment that no record covers. */
  lemma WaveGateAsks(plan: Plan, w: World) returns (c: nat, id: string)
    requires WellFormed(plan, w) && ActionAt(plan, w).WaveGate?
    ensures c < |plan.segments| && ActionAt(plan, w).segment == plan.segments[c].id && id in ActionAt(plan, w).packets
    ensures id in RequiredIn(plan, plan.segments[c]) && IsDone(w.state, id)
    ensures id !in WaveCovered(RecordsOf(w), plan.segments[c].id)
  {
    var inputs := InputsOf(plan, w);
    SegmentActions(inputs);
    c := Current(plan, w);
    id := WaveGateMembers(inputs, plan.segments[c]);
    RequiredIsStatic(plan, w, plan.segments[c]);
  }

  lemma WaveGateFalls(plan: Plan, w: World, w': World, a: Action, c: nat, id: string)
    requires a.WaveGate? && CarryOut(a, w, w') && c < |plan.segments| && a.segment == plan.segments[c].id && id in a.packets
    requires id in RequiredIn(plan, plan.segments[c]) && IsDone(w.state, id)
    requires id !in WaveCovered(RecordsOf(w), plan.segments[c].id)
    requires var r := WaveRecord(a.segment, a.packets); NameOf(r) in w.store ==> w.store[NameOf(r)] == r
    ensures Potential(plan, w') < Potential(plan, w)
  {
    var r := WaveRecord(a.segment, a.packets);
    SortMembers(a.packets, StrLe);
    RecordNoHeavier(plan, w, w', r);
    RecordLightens(w, w', r, a.segment, id);
    LoadFalls(plan, w, w', c, id);
  }

  lemma PhaseGateAsks(plan: Plan, w: World) returns (c: nat)
    requires WellFormed(plan, w) && ActionAt(plan, w).PhaseGate?
    ensures c < |plan.segments| && ActionAt(plan, w).segment == plan.segments[c].id
    ensures !PhaseGated(RecordsOf(w), plan.segments[c].id)
  {
    var inputs := InputsOf(plan, w);
    SegmentActions(inputs);
    c := Current(plan, w);
    PhaseGateFacts(inputs, plan.segments[c]);
  }

  lemma PhaseGateFalls(plan: Plan, w: World, w': World, a: Action, c: nat)
    requires a.PhaseGate? && CarryOut(a, w, w') && c < |plan.segments| && a.segment == plan.segments[c].id
    requires !PhaseGated(RecordsOf(w), plan.segments[c].id)
    requires var r := PhaseRecord(a.segment); NameOf(r) in w.store ==> w.store[NameOf(r)] == r
    ensures Potential(plan, w') < Potential(plan, w)
  {
    var r := PhaseRecord(a.segment);
    RecordNoHeavier(plan, w, w', r);
    RecordIsKept(w, w', r);
    assert r in RecordsOf(w') && PhaseGated(RecordsOf(w'), plan.segments[c].id);
    assert plan.segments[c] in plan.segments;
    SegmentLoadFalls(plan, w, w', plan.segments);
  }

  lemma RepairFalls(plan: Plan, w: World, w': World)
    requires w.step == Some("recovering") && CarryOut(Repair, w, w')
    ensures Potential(plan, w') < Potential(plan, w)
  {
    SameLoad(plan, w, w', plan.segments);
  }

  /** What is left in the segments does not depend on the checkpoint. */
  lemma {:induction false} SameLoad(plan: Plan, w: World, w': World, segs: seq<Segment>)
    requires w'.state == w.state && w'.handoffs == w.handoffs && w'.store == w.store
    ensures SegmentLoad(plan, w', segs) == SegmentLoad(plan, w, segs)
  {
    if segs != [] {
      SameLoad(plan, w, w', segs[1..]);
      SamePackets(w, w', segs[0].id, RequiredIn(plan, segs[0]));
    }
  }

  lemma {:induction false} SamePackets(w: World, w': World, segment: string, ids: seq<string>)
    requires w'.state == w.state && w'.handoffs == w.handoffs && w'.store == w.store
    ensures PacketLoad(w', segment, ids) == PacketLoad(w, segment, ids)
  {
    if ids != [] { SamePackets(w, w', segment, ids[1..]); }
  }

  lemma AdvanceFalls(plan: Plan, w: World, w': World, to: string)
    requires w' == w.(checkpoint := Some(to), step := Some("framed"))
    requires w.checkpoint.Some? && w.step != Some("recovering")
    requires 0 <= FindIndex(plan.segments, w.checkpoint.value) < FindIndex(plan.segments, to)
    ensures Potential(plan, w') < Potential(plan, w)
  {
    SameLoad(plan, w, w', plan.segments);
  }

  /** Every action carried out uses up at least one of the actions that were left, unless it replaces a record. */
  lemma PotentialFalls(plan: Plan, w: World, w': World)
    requires WellFormed(plan, w) && Carry(plan, w, w') && ReplacesNothing(plan, w)
    ensures Potential(plan, w') < Potential(plan, w)
  {
    var a := ActionAt(plan, w);
    match a
    case Integrate(_, _, _) => WorkFalls(plan, w, w');
    case Dispatch(_, _, _, _) => WorkFalls(plan, w, w');
    case WaveGate(_, _, _) =>
      var c, id := WaveGateAsks(plan, w);
      WaveGateFalls(plan, w, w', a, c, id);
    case PhaseGate(_, _) =>
      var c := PhaseGateAsks(plan, w);
      PhaseGateFalls(plan, w, w', a, c);
    case Repair =>
      RepairAsks(plan, w);
      RepairFalls(plan, w, w');
    case AdvancePhase(_, to) =>
      AdvanceAsks(plan, w);
      AdvanceFalls(plan, w, w', to);
    case _ =>
  }

  lemma AdvanceAsks(plan: Plan, w: World)
    requires WellFormed(plan, w) && ActionAt(plan, w).AdvancePhase?
    ensures w.checkpoint.Some? && w.step != Some("recovering")
    ensures 0 <= FindIndex(plan.segments, w.checkpoint.value) < FindIndex(plan.segments, ActionAt(plan, w).to)
  {
    AdvanceIsSafe(InputsOf(plan, w));
  }

  lemma RepairAsks(plan: Plan, w: World)
    requires WellFormed(plan, w) && ActionAt(plan, w).Repair?
    ensures w.step == Some("recovering")
  {
  }

  // ---- whole runs ----

  /** Carrying out what `w` asks for can lead to `w'`. */
  ghost predicate Leads(plan: Plan, w: World, w': World) {
    WellFormed(plan, w) && Carry(plan, w, w')
  }

  /** World `i` of a run leads to world `i + 1`. */
  ghost predicate CarriedAt(plan: Plan, run: seq<World>, i: nat) {
    i + 1 < |run| && Leads(plan, run[i], run[i + 1])
  }

  ghost predicate Run(plan: Plan, run: seq<World>) {
    && run != []
    && (forall i | 0 <= i < |run| :: WellFormed(plan, run[i]))
    && forall i | 0 <= i < |run| - 1 :: CarriedAt(plan, run, i)
  }

  ghost predicate Final(plan: Plan, w: World)
    requires WellFormed(plan, w)
  {
    forall w' :: !Carry(plan, w, w')
  }

  lemma Possible(a: Action, w: World) returns (w': World)
    requires a.Repair? || a.Integrate? || a.Dispatch? || a.WaveGate? || a.PhaseGate? || a.AdvancePhase?
    requires a.Integrate? || a.Dispatch? ==> exists id | id in a.packets :: id in w.state
    ensures CarryOut(a, w, w')
  {
    match a
    case Repair => w' := w.(step := None);
    case Integrate(_, _, packets) =>
      var id :| id in packets && id in w.state;
      w' := Landed(w, {id});
      assert Land(w, w', {id}, packets);
    case Dispatch(_, _, packets, _) =>
      var id :| id in packets && id in w.state;
      w' := Worked(w, {id}, {}, {});
      assert Work(w, w', {id}, {}, {}, packets);
    case WaveGate(segment, _, packets) => w' := w.(store := Recorded(w.store, WaveRecord(segment, packets)));
    case PhaseGate(segment, _) => w' := w.(store := Recorded(w.store, PhaseRecord(segment)));
    case AdvancePhase(_, to) => w' := w.(checkpoint := Some(to), step := Some("framed"));
  }

  /** Something can be carried out unless the answer is COMPLETE or BLOCKED. */
  lemma OnlyEndsStop(plan: Plan, w: World)
    requires WellFormed(plan, w)
    ensures Final(plan, w) <==> ActionAt(plan, w) == Complete || ActionAt(plan, w).Blocked?
  {
    var a := ActionAt(plan, w);
    NeitherErrorNorTotality(plan, w);
    if a != Complete && !a.Blocked? {
      if a.Integrate? || a.Dispatch? {
        var id := HandedOut(plan, w);
      }
      var w' := Possible(a, w);
      assert Carry(plan, w, w');
    }
  }

  lemma NeitherErrorNorTotality(plan: Plan, w: World)
    requires WellFormed(plan, w)
    ensures ActionAt(plan, w) != CompleteForTotality && !ActionAt(plan, w).Error?
  {
    TotalityBranchIsDead(InputsOf(plan, w));
    NoErrorWithSegments(InputsOf(plan, w));
  }

  lemma HandedOut(plan: Plan, w: World) returns (id: string)
    requires WellFormed(plan, w) && (ActionAt(plan, w).Integrate? || ActionAt(plan, w).Dispatch?)
    ensures id in ActionAt(plan, w).packets && id in w.state
  {
    SegmentActions(InputsOf(plan, w));
    WorkIsSome(InputsOf(plan, w), plan.segments[Current(plan, w)]);
    id := ActionAt(plan, w).packets[0];
    WorkIsCurrent(plan, w, id);
  }

  lemma StoreChanges(a: Action, w: World, w': World)
    requires CarryOut(a, w, w')
    ensures w'.store == match RecordOf(a) case None => w.store case Some(r) => Recorded(w.store, r)
    ensures RecordOf(a).Some? ==> w' == w.(store := w'.store)
  {
  }

  lemma RunStep(plan: Plan, run: seq<World>, k: nat)
    requires Run(plan, run) && k + 1 < |run| && ReplacesNothing(plan, run[k])
    ensures Potential(plan, run[k + 1]) < Potential(plan, run[k])
  {
    assert CarriedAt(plan, run, k);
    PotentialFalls(plan, run[k], run[k + 1]);
  }

  ghost predicate FallsAt(run: seq<World>, f: World -> int, k: nat) {
    k + 1 < |run| && f(run[k + 1]) < f(run[k])
  }

  lemma {:induction false} FallsAlong(run: seq<World>, f: World -> int, i: nat)
    requires i < |run| && forall k: nat | k + 1 < |run| :: FallsAt(run, f, k)
    ensures i + f(run[i]) <= f(run[0])
    decreases i
  {
    if i > 0 {
      FallsAlong(run, f, i - 1);
      assert FallsAt(run, f, i - 1);
    }
  }

  ghost predicate ReplacesNothingAt(plan: Plan, run: seq<World>, k: nat) {
    k < |run| && WellFormed(plan, run[k]) && ReplacesNothing(plan, run[k])
  }

  /** While no record replaces another, a run is no longer than three actions a packet, two a segment, and one more. */
  lemma RunsAreShort(plan: Plan, run: seq<World>)
    requires Run(plan, run) && forall k: nat | k + 1 < |run| :: ReplacesNothingAt(plan, run, k)
    ensures |run| - 1 <= LongestRun(plan)
  {
    var f := w => Potential(plan, w);
    forall k: nat | k + 1 < |run| ensures FallsAt(run, f, k) {
      assert ReplacesNothingAt(plan, run, k);
      RunStep(plan, run, k);
    }
    FallsAlong(run, f, |run| - 1);
    PotentialBound(plan, run[0]);
  }

  ghost function LongestRun(plan: Plan): nat {
    1 + 3 * PacketCount(plan, plan.segments) + 2 * |plan.segments|
  }

  /** A deadlock is neither made nor undone by carrying out an action. */
  lemma DeadlockIsLasting(plan: Plan, w: World, w': World, stuck: set<string>)
    requires WellFormed(plan, w) && WellFormed(plan, w') && Carry(plan, w, w')
    ensures Deadlocked(plan, w, stuck) <==> Deadlocked(plan, w', stuck)
  {
    if Deadlocked(plan, w, stuck) {
      DeadlockPersists(plan, w, w', stuck);
    }
    if Deadlocked(plan, w', stuck) {
      DeadlockWasThere(plan, w, w', stuck);
    }
  }

  lemma DeadlockStep(plan: Plan, run: seq<World>, k: nat, stuck: set<string>)
    requires Run(plan, run) && k + 1 < |run|
    ensures Deadlocked(plan, run[k], stuck) <==> Deadlocked(plan, run[k + 1], stuck)
  {
    assert CarriedAt(plan, run, k);
    DeadlockIsLasting(plan, run[k], run[k + 1], stuck);
  }

  ghost predicate SameAt(run: seq<World>, p: World -> bool, k: nat) {
    k + 1 < |run| && p(run[k]) == p(run[k + 1])
  }

  lemma {:induction false} SameAlong(run: seq<World>, p: World -> bool, i: nat)
    requires i < |run| && forall k: nat | k + 1 < |run| :: SameAt(run, p, k)
    ensures p(run[0]) == p(run[i])
    decreases i
  {
    if i > 0 {
      SameAlong(run, p, i - 1);
      assert SameAt(run, p, i - 1);
    }
  }

  lemma DeadlockAlongRun(plan: Plan, run: seq<World>, i: nat, stuck: set<string>)
    requires Run(plan, run) && i < |run|
    ensures Deadlocked(plan, run[0], stuck) <==> Deadlocked(plan, run[i], stuck)
  {
    var p := w => Deadlocked(plan, w, stuck);
    forall k: nat | k + 1 < |run| ensures SameAt(run, p, k) { DeadlockStep(plan, run, k, stuck); }
    SameAlong(run, p, i);
  }

  /**
   Delivery completes or it was impossible. On every run, from any start: while no
   deadlock existed at the start neither BLOCKED nor ERROR is ever answered and a run
   that can go no further has reached COMPLETE; if one existed, COMPLETE is never
   answered and a run that can go no further is BLOCKED.
   */
  lemma DeliveryIsDecidedAtTheStart(plan: Plan, run: seq<World>, i: nat)
    requires Run(plan, run) && i < |run|
    ensures !ActionAt(plan, run[i]).Error?
    ensures (exists stuck :: Deadlocked(plan, run[0], stuck)) ==>
              ActionAt(plan, run[i]) != Complete
              && (Final(plan, run[i]) ==> ActionAt(plan, run[i]).Blocked?)
    ensures !(exists stuck :: Deadlocked(plan, run[0], stuck)) ==>
              !ActionAt(plan, run[i]).Blocked?
              && (Final(plan, run[i]) ==> ActionAt(plan, run[i]) == Complete)
  {
    OnlyEndsStop(plan, run[i]);
    if stuck :| Deadlocked(plan, run[0], stuck) {
      DeadlockAlongRun(plan, run, i, stuck);
      DeadlockNeverComplete(plan, run[i], stuck);
    }
    if ActionAt(plan, run[i]).Blocked? {
      var stuck := BlockedIsDeadlock(plan, run[i]);
      DeadlockAlongRun(plan, run, i, stuck);
    }
  }

  // ---- a sufficient condition on the plan alone ----

  /**
   Needs are acyclic (`rank` falls along them), every need of a required packet is
   required in its own segment or an earlier one, and no decision is open on it.
   */
  ghost predicate Sound(plan: Plan, rank: map<string, nat>) {
    forall i, n | 0 <= i < |plan.segments| && n in RequiredIn(plan, plan.segments[i]) ::
      && OpenDecisions(plan.decisions, n) == []
      && n in rank
      && forall d | d in plan.graph[n].needs :: d in rank && rank[d] < rank[n] && RequiredUpTo(plan, i, d)
  }

  lemma SoundNeed(plan: Plan, w: World, rank: map<string, nat>, stuck: set<string>, n: string, i: nat) returns (d: string)
    requires Sound(plan, rank) && i < |plan.segments| && Stuck(plan, w, stuck, n, i)
    ensures n in rank && d in stuck && d in rank && rank[d] < rank[n]
  {
    d :| d in plan.graph[n].needs && !IsDone(w.state, d) && (d in stuck || !RequiredUpTo(plan, i, d));
  }

  ghost predicate AllStuck(plan: Plan, w: World, stuck: set<string>) {
    forall n | n in stuck :: exists i | 0 <= i < |plan.segments| :: Stuck(plan, w, stuck, n, i)
  }

  lemma StuckSomewhere(plan: Plan, w: World, stuck: set<string>, n: string) returns (i: nat)
    requires AllStuck(plan, w, stuck) && n in stuck
    ensures i < |plan.segments| && Stuck(plan, w, stuck, n, i)
  {
    i :| 0 <= i < |plan.segments| && Stuck(plan, w, stuck, n, i);
  }

  /** In a sound plan a stuck packet would need a stuck packet of lower rank, for ever. */
  lemma {:induction false} SoundNode(plan: Plan, w: World, rank: map<string, nat>, stuck: set<string>, n: string)
    requires Sound(plan, rank) && AllStuck(plan, w, stuck)
    requires n in rank
    ensures n !in stuck
    decreases rank[n]
  {
    if n in stuck {
      var i := StuckSomewhere(plan, w, stuck, n);
      var d := SoundNeed(plan, w, rank, stuck, n, i);
      SoundNode(plan, w, rank, stuck, d);
    }
  }

  lemma SoundPlansDoNotDeadlock(plan: Plan, w: World, rank: map<string, nat>, stuck: set<string>)
    requires Sound(plan, rank)
    ensures !Deadlocked(plan, w, stuck)
  {
    if Deadlocked(plan, w, stuck) {
      var n :| n in stuck;
      var i := StuckSomewhere(plan, w, stuck, n);
      var d := SoundNeed(plan, w, rank, stuck, n, i);
      SoundNode(plan, w, rank, stuck, d);
    }
  }

  /** A sound plan never deadlocks, so by the theorem above every run of it ends in COMPLETE. */
  lemma SoundPlansDeliver(plan: Plan, run: seq<World>, rank: map<string, nat>, i: nat)
    requires Run(plan, run) && Sound(plan, rank) && i < |run|
    ensures !ActionAt(plan, run[i]).Blocked? && !ActionAt(plan, run[i]).Error?
    ensures Final(plan, run[i]) ==> ActionAt(plan, run[i]) == Complete
  {
    forall stuck ensures !Deadlocked(plan, run[0], stuck) {
      SoundPlansDoNotDeadlock(plan, run[0], rank, stuck);
    }
    DeliveryIsDecidedAtTheStart(plan, run, i);
  }
}
