/**
 The delivery graph as the oracle resolves it (`scripts/oracle.ts`): what each
 node needs, what its probes report, and whether it may be started.
 */
module Graph {
  datatype Option<+T> = None | Some(value: T)

  datatype State = DONE | PARTIAL | TODO

  datatype Readiness = READY | BLOCKED | FINISHED | IN_PROGRESS

  datatype NodeSpec = NodeSpec(phase: int, needs: seq<string>, optional: bool)

  datatype Decision = Decision(id: string, answered: bool, blocks: seq<string>)

  datatype Resolved = Resolved(phase: int, needs: seq<string>, optional: bool,
                               state: State, blockedBy: seq<string>, readiness: Readiness)

  /** The elements of `xs` that satisfy `p`, in order. */
  function Keep<T(!new)>(xs: seq<T>, p: T -> bool): (r: seq<T>)
    ensures forall x :: x in r <==> x in xs && p(x)
    ensures |r| <= |xs|
  {
    if xs == [] then []
    else if p(xs[0]) then [xs[0]] + Keep(xs[1..], p)
    else Keep(xs[1..], p)
  }

  /** The unanswered decisions that hold `id` back. */
  function OpenDecisions(decisions: seq<Decision>, id: string): (r: seq<string>)
    ensures r == [] <==> forall d | d in decisions :: d.answered || id !in d.blocks
  {
    if decisions == [] then []
    else
      (if !decisions[0].answered && id in decisions[0].blocks then [decisions[0].id] else [])
      + OpenDecisions(decisions[1..], id)
  }

  predicate IsDone(state: map<string, State>, id: string) {
    id in state && state[id] == DONE
  }

  function BlockedBy(graph: map<string, NodeSpec>, decisions: seq<Decision>,
                     state: map<string, State>, id: string): seq<string>
    requires id in graph
  {
    Keep(graph[id].needs, d => !IsDone(state, d)) + OpenDecisions(decisions, id)
  }

  /** Every node with its state, what it waits for, and whether it may start. */
  function Resolve(graph: map<string, NodeSpec>, decisions: seq<Decision>,
                   state: map<string, State>): map<string, Resolved>
    requires state.Keys == graph.Keys
  {
    map id | id in graph ::
      var blockedBy := BlockedBy(graph, decisions, state, id);
      Resolved(graph[id].phase, graph[id].needs, graph[id].optional, state[id], blockedBy,
               if state[id] == DONE then FINISHED
               else if state[id] == PARTIAL then IN_PROGRESS
               else if blockedBy == [] then READY else BLOCKED)
  }
}

/**
 The flow control plane (`scripts/flow.ts`): one next action, derived from the
 resolved graph, the gate records and the checkpoint.
 */
module Flow {
  import opened Graph
  import opened Sorting

  datatype Segment = Segment(id: string, phase: int, nodeIds: seq<string>)

  datatype Segments = Ok(segs: seq<Segment>) | ConfigError

  datatype GateKind = Wave | Phase

  datatype GateRecord = GateRecord(gate: GateKind, segment: string, packets: seq<string>)

  datatype Mode = Sequential | Parallel

  datatype LaneDecision = LaneDecision(mode: Mode, order: seq<string>)

  datatype Inputs = Inputs(byId: map<string, Resolved>, records: seq<GateRecord>, step: Option<string>,
                           checkpoint: Option<string>, integratable: set<string>, segments: Segments,
                           decide: seq<string> -> LaneDecision)

  datatype Action =
    | Error
    | Repair
    | Integrate(segment: string, phase: int, packets: seq<string>)
    | WaveGate(segment: string, phase: int, packets: seq<string>)
    | Dispatch(segment: string, phase: int, packets: seq<string>, mode: Mode)
    | Blocked(segment: string, phase: int)
    | PhaseGate(segment: string, phase: int)
    | AdvancePhase(from: string, to: string)
    | Complete
    | CompleteForTotality

  // ---- transitive dependency ----

  /** `p` follows needs edges of the graph, at least one of them. */
  ghost predicate NeedsPath(byId: map<string, Resolved>, p: seq<string>) {
    |p| >= 2 && forall i | 0 <= i < |p| - 1 :: p[i] in byId && p[i + 1] in byId[p[i]].needs
  }

  /** `id` reaches a member of `targets` through one or more needs edges. */
  ghost predicate Reaches(byId: map<string, Resolved>, id: string, targets: set<string>) {
    exists p :: NeedsPath(byId, p) && p[0] == id && p[|p| - 1] in targets
  }

  /** Nothing in `closed` needs a target, and it needs nothing outside `seen`. */
  ghost predicate Exhausted(byId: map<string, Resolved>, closed: set<string>, seen: set<string>, targets: set<string>) {
    forall x, d | x in closed && x in byId && d in byId[x].needs :: d in seen && d !in targets
  }

  lemma ReachExtend(byId: map<string, Resolved>, id: string, d: string, targets: set<string>)
    requires id in byId && d in byId[id].needs
    requires d in targets || Reaches(byId, d, targets)
    ensures Reaches(byId, id, targets)
  {
    if d in targets {
      assert NeedsPath(byId, [id, d]);
    } else {
      var p :| NeedsPath(byId, p) && p[0] == d && p[|p| - 1] in targets;
      var q := [id] + p;
      assert forall i | 1 <= i < |q| :: q[i] == p[i - 1];
      assert NeedsPath(byId, q);
    }
  }

  /** A closed set with no target needed from it is never left by a path. */
  lemma {:induction false} ClosedSetHolds(byId: map<string, Resolved>, seen: set<string>, targets: set<string>, p: seq<string>)
    requires Exhausted(byId, seen, seen, targets)
    requires NeedsPath(byId, p) && p[0] in seen
    ensures p[|p| - 1] !in targets
    decreases |p|
  {
    if |p| > 2 {
      assert p[0] in byId && p[1] in byId[p[0]].needs;
      var q := p[1..];
      forall i | 0 <= i < |q| - 1 ensures q[i] in byId && q[i + 1] in byId[q[i]].needs {
        assert p[i + 1] in byId && p[i + 2] in byId[p[i + 1]].needs;
      }
      ClosedSetHolds(byId, seen, targets, q);
    } else {
      assert p[0] in byId && p[1] in byId[p[0]].needs;
    }
  }

  /**
   The depth-first walk with its shared `seen` set. A node already seen answers
   false, which is why the answer for one node alone is only meaningful for a walk
   that started with nothing seen: see `DependsOn`.
   */
  method Walk(id: string, targets: set<string>, byId: map<string, Resolved>, seen: set<string>)
      returns (found: bool, seen': set<string>)
    ensures seen <= seen' && id in seen'
    ensures found ==> Reaches(byId, id, targets)
    ensures !found ==> Exhausted(byId, seen' - seen, seen', targets)
    decreases byId.Keys - seen
  {
    if id in seen {
      return false, seen;
    }
    seen' := seen + {id};
    if id !in byId {
      return false, seen';
    }
    var needs := byId[id].needs;
    for i := 0 to |needs|
      invariant seen + {id} <= seen'
      invariant forall j | 0 <= j < i :: needs[j] in seen' && needs[j] !in targets
      invariant Exhausted(byId, seen' - seen - {id}, seen', targets)
    {
      if needs[i] in targets {
        ReachExtend(byId, id, needs[i], targets);
        return true, seen';
      }
      var before := seen';
      found, seen' := Walk(needs[i], targets, byId, seen');
      if found {
        ReachExtend(byId, id, needs[i], targets);
        return true, seen';
      }
      assert seen' - seen - {id} == (before - seen - {id}) + (seen' - before);
    }
    return false, seen';
  }

  /** The walk from an empty `seen` set decides reachability, cycles included. */
  method DependsOn(id: string, targets: set<string>, byId: map<string, Resolved>) returns (found: bool)
    ensures found <==> Reaches(byId, id, targets)
  {
    var seen;
    found, seen := Walk(id, targets, byId, {});
    if !found {
      assert seen - {} == seen;
      forall p | NeedsPath(byId, p) && p[0] == id ensures p[|p| - 1] !in targets {
        ClosedSetHolds(byId, seen, targets, p);
      }
    }
  }

  // ---- what a segment holds and owes ----

  /** The non-optional nodes a segment names and the graph knows. */
  function Required(byId: map<string, Resolved>, s: Segment): seq<string> {
    Keep(s.nodeIds, id => id in byId && !byId[id].optional)
  }

  function InState(byId: map<string, Resolved>, ids: seq<string>, done: bool): (r: seq<string>)
    requires forall id | id in ids :: id in byId
    ensures forall id :: id in r <==> id in ids && (byId[id].state == DONE) == done
  {
    Keep(ids, id => id in byId && (byId[id].state == DONE) == done)
  }

  predicate PhaseGated(records: seq<GateRecord>, segment: string) {
    exists r | r in records :: r.gate == Phase && r.segment == segment
  }

  function WaveCovered(records: seq<GateRecord>, segment: string): set<string> {
    set r, p | r in records && r.gate == Wave && r.segment == segment && p in r.packets :: p
  }

  /** A phase record covers no packet, and a wave record closes no segment, whatever else they say. */
  lemma RecordsDoTheirOwn(records: seq<GateRecord>, r: GateRecord, segment: string)
    ensures r.gate == Phase ==> WaveCovered(records + [r], segment) == WaveCovered(records, segment)
    ensures r.gate == Wave ==> (PhaseGated(records + [r], segment) <==> PhaseGated(records, segment))
    ensures r.gate == Wave && r.segment != segment ==> WaveCovered(records + [r], segment) == WaveCovered(records, segment)
  {
    assert forall q :: q in records + [r] <==> q in records || q == r;
  }

  predicate InRegime(records: seq<GateRecord>, segment: string) {
    exists r | r in records :: r.segment == segment
  }

  predicate LaterWorkStarted(byId: map<string, Resolved>, segs: seq<Segment>, i: nat) {
    exists j | i < j < |segs| :: exists id | id in Required(byId, segs[j]) :: byId[id].state != TODO
  }

  predicate OwesGate(byId: map<string, Resolved>, records: seq<GateRecord>, s: Segment) {
    !PhaseGated(records, s.id)
    || exists id | id in Required(byId, s) :: byId[id].state == DONE && id !in WaveCovered(records, s.id)
  }

  /** Whether segment `i` still holds delivery back. */
  predicate Owing(byId: map<string, Resolved>, records: seq<GateRecord>, segs: seq<Segment>, i: nat)
    requires i < |segs|
  {
    InState(byId, Required(byId, segs[i]), false) != []
    || (OwesGate(byId, records, segs[i]) && (InRegime(records, segs[i].id) || !LaterWorkStarted(byId, segs, i)))
  }

  /** The first owing segment at or after `i`, or the length when there is none. */
  function FirstOwing(byId: map<string, Resolved>, records: seq<GateRecord>, segs: seq<Segment>, i: nat): (c: nat)
    requires i <= |segs|
    ensures i <= c <= |segs|
    ensures c < |segs| ==> Owing(byId, records, segs, c)
    ensures forall j | i <= j < c :: !Owing(byId, records, segs, j)
    decreases |segs| - i
  {
    if i == |segs| || Owing(byId, records, segs, i) then i
    else FirstOwing(byId, records, segs, i + 1)
  }

  /** Position of the first segment called `id`, or -1. */
  function FindIndex(segs: seq<Segment>, id: string): (k: int)
    ensures -1 <= k < |segs|
    ensures k >= 0 ==> segs[k].id == id
    ensures forall j | 0 <= j < |segs| && segs[j].id == id :: 0 <= k <= j
  {
    if segs == [] then -1
    else if segs[0].id == id then 0
    else
      var k := FindIndex(segs[1..], id);
      assert forall j | 1 <= j < |segs| :: segs[j] == segs[1..][j - 1];
      if k == -1 then -1 else k + 1
  }

  function CheckpointIndex(inputs: Inputs): (k: int)
    requires inputs.segments.Ok?
    ensures -1 <= k < |inputs.segments.segs|
  {
    if inputs.checkpoint.None? then -1 else FindIndex(inputs.segments.segs, inputs.checkpoint.value)
  }

  // ---- the transition ----

  function Uncovered(inputs: Inputs, s: Segment): seq<string> {
    Keep(InState(inputs.byId, Required(inputs.byId, s), true), id => id !in WaveCovered(inputs.records, s.id))
  }

  function ToIntegrate(inputs: Inputs, s: Segment): seq<string> {
    Keep(Required(inputs.byId, s), id => id in inputs.integratable)
  }

  function Ready(inputs: Inputs, s: Segment): seq<string> {
    Keep(InState(inputs.byId, Required(inputs.byId, s), false),
         id => id in inputs.byId && (inputs.byId[id].readiness == READY || inputs.byId[id].readiness == IN_PROGRESS))
  }

  ghost function Dispatchable(inputs: Inputs, s: Segment): seq<string> {
    Keep(Ready(inputs, s), id => !Reaches(inputs.byId, id, set u | u in Uncovered(inputs, s)))
  }

  /** What the current segment asks for once no phase advance is due. */
  ghost function InSegment(inputs: Inputs, s: Segment): Action {
    if ToIntegrate(inputs, s) != [] then
      Integrate(s.id, s.phase, inputs.decide(Sort(ToIntegrate(inputs, s), StrLe)).order)
    else if Dispatchable(inputs, s) != [] then
      var d := inputs.decide(Sort(Dispatchable(inputs, s), StrLe));
      Dispatch(s.id, s.phase, d.order, d.mode)
    else if Uncovered(inputs, s) != [] then
      WaveGate(s.id, s.phase, Sort(Uncovered(inputs, s), StrLe))
    else if InState(inputs.byId, Required(inputs.byId, s), false) != [] then
      Blocked(s.id, s.phase)
    else if !PhaseGated(inputs.records, s.id) then
      PhaseGate(s.id, s.phase)
    else
      CompleteForTotality
  }

  /** The next action. */
  ghost function Next(inputs: Inputs): Action {
    if inputs.segments.ConfigError? then Error
    else if inputs.step == Some("recovering") then Repair
    else
      var segs := inputs.segments.segs;
      var c := FirstOwing(inputs.byId, inputs.records, segs, 0);
      if c == |segs| then Complete
      else if CheckpointIndex(inputs) != -1 && FindIndex(segs, segs[c].id) > CheckpointIndex(inputs) then
        AdvancePhase(inputs.checkpoint.value, segs[c].id)
      else
        InSegment(inputs, segs[c])
  }

  /** The transition as it runs: one scan for the current segment, one walk per ready node. */
  method Transition(inputs: Inputs) returns (a: Action)
    ensures a == Next(inputs)
  {
    if inputs.segments.ConfigError? {
      return Error;
    }
    if inputs.step == Some("recovering") {
      return Repair;
    }
    var segs := inputs.segments.segs;
    var i := 0;
    while i < |segs| && !Owing(inputs.byId, inputs.records, segs, i)
      invariant i <= |segs|
      invariant FirstOwing(inputs.byId, inputs.records, segs, 0) == FirstOwing(inputs.byId, inputs.records, segs, i)
    {
      i := i + 1;
    }
    if i == |segs| {
      return Complete;
    }
    var current := segs[i];
    var checkpointIndex := CheckpointIndex(inputs);
    if checkpointIndex != -1 && FindIndex(segs, current.id) > checkpointIndex {
      return AdvancePhase(inputs.checkpoint.value, current.id);
    }
    var toIntegrate := ToIntegrate(inputs, current);
    if toIntegrate != [] {
      return Integrate(current.id, current.phase, inputs.decide(Sort(toIntegrate, StrLe)).order);
    }
    var uncovered := Uncovered(inputs, current);
    var dispatchable := KeepDispatchable(inputs.byId, Ready(inputs, current), set u | u in uncovered);
    if dispatchable != [] {
      var d := inputs.decide(Sort(dispatchable, StrLe));
      return Dispatch(current.id, current.phase, d.order, d.mode);
    }
    if uncovered != [] {
      return WaveGate(current.id, current.phase, Sort(uncovered, StrLe));
    }
    if InState(inputs.byId, Required(inputs.byId, current), false) != [] {
      return Blocked(current.id, current.phase);
    }
    if !PhaseGated(inputs.records, current.id) {
      return PhaseGate(current.id, current.phase);
    }
    return CompleteForTotality;
  }

  method KeepDispatchable(byId: map<string, Resolved>, ready: seq<string>, targets: set<string>) returns (r: seq<string>)
    ensures r == Keep(ready, id => !Reaches(byId, id, targets))
  {
    r := [];
    ghost var p := id => !Reaches(byId, id, targets);
    for i := |ready| downto 0
      invariant r == Keep(ready[i..], p)
    {
      var blocked := DependsOn(ready[i], targets, byId);
      assert ready[i..] == [ready[i]] + ready[i + 1..];
      if !blocked {
        r := [ready[i]] + r;
      }
    }
    assert ready[0..] == ready;
  }

  // ---- what the transition promises ----

  /** Delivered, and either fully gated or closed by history. */
  ghost predicate Settled(inputs: Inputs, i: nat)
    requires inputs.segments.Ok? && i < |inputs.segments.segs|
  {
    var byId, records, segs := inputs.byId, inputs.records, inputs.segments.segs;
    && (forall id | id in Required(byId, segs[i]) :: byId[id].state == DONE)
    && ((PhaseGated(records, segs[i].id)
         && forall id | id in Required(byId, segs[i]) :: id in WaveCovered(records, segs[i].id))
        || (!InRegime(records, segs[i].id) && LaterWorkStarted(byId, segs, i)))
  }

  lemma NotOwingSettled(inputs: Inputs, i: nat)
    requires inputs.segments.Ok? && i < |inputs.segments.segs|
    requires !Owing(inputs.byId, inputs.records, inputs.segments.segs, i)
    ensures Settled(inputs, i)
  {
    var byId, segs := inputs.byId, inputs.segments.segs;
    forall id | id in Required(byId, segs[i]) ensures byId[id].state == DONE {
      assert id !in InState(byId, Required(byId, segs[i]), false);
    }
  }

  /** An advance goes strictly forward, over segments that are all settled, the one left included. */
  lemma AdvanceIsSafe(inputs: Inputs)
    requires Next(inputs).AdvancePhase?
    ensures inputs.segments.Ok? && inputs.checkpoint == Some(Next(inputs).from)
    ensures var segs := inputs.segments.segs;
            var from, to := FindIndex(segs, Next(inputs).from), FindIndex(segs, Next(inputs).to);
            0 <= from < to && forall j | 0 <= j < to :: Settled(inputs, j)
  {
    var segs := inputs.segments.segs;
    var c := FirstOwing(inputs.byId, inputs.records, segs, 0);
    assert FindIndex(segs, segs[c].id) <= c;
    forall j | 0 <= j < c ensures Settled(inputs, j) { NotOwingSettled(inputs, j); }
  }

  /** COMPLETE is the answer exactly when the config is sound, nothing is recovering and every segment is settled. */
  lemma CompleteExactly(inputs: Inputs)
    ensures Next(inputs) == Complete <==>
            inputs.segments.Ok? && inputs.step != Some("recovering")
            && forall j | 0 <= j < |inputs.segments.segs| :: Settled(inputs, j)
  {
    if inputs.segments.Ok? && inputs.step != Some("recovering") {
      var segs := inputs.segments.segs;
      var c := FirstOwing(inputs.byId, inputs.records, segs, 0);
      if c == |segs| {
        forall j | 0 <= j < |segs| ensures Settled(inputs, j) { NotOwingSettled(inputs, j); }
      } else {
        assert Owing(inputs.byId, inputs.records, segs, c);
        var out := InState(inputs.byId, Required(inputs.byId, segs[c]), false);
        if out != [] {
          assert out[0] in out;
        }
        assert !Settled(inputs, c);
      }
    }
  }

  lemma NoErrorWithSegments(inputs: Inputs)
    requires inputs.segments.Ok?
    ensures !Next(inputs).Error?
  {
  }

  /** The return kept for totality is never taken: a segment is only current while it owes something. */
  lemma TotalityBranchIsDead(inputs: Inputs)
    ensures Next(inputs) != CompleteForTotality
  {
    if inputs.segments.Ok? && inputs.step != Some("recovering") {
      var segs := inputs.segments.segs;
      var c := FirstOwing(inputs.byId, inputs.records, segs, 0);
      if c < |segs| {
        var s := segs[c];
        if InState(inputs.byId, Required(inputs.byId, s), false) == [] && PhaseGated(inputs.records, s.id) {
          var id :| id in Required(inputs.byId, s) && inputs.byId[id].state == DONE && id !in WaveCovered(inputs.records, s.id);
          assert id in Uncovered(inputs, s);
        }
      }
    }
  }

  ghost predicate SameMembersAsAsked(decide: seq<string> -> LaneDecision, known: set<string>) {
    forall ids: seq<string> | AllIn(ids, known) :: SameIds(decide(ids).order, ids)
  }

  ghost predicate AllIn(ids: seq<string>, known: set<string>) {
    forall x | x in ids :: x in known
  }

  ghost predicate SameIds(a: seq<string>, b: seq<string>) {
    forall x :: x in a <==> x in b
  }

  /** Sorted and decided, the ids are still the ids. */
  lemma DecidedIds(inputs: Inputs, ids: seq<string>)
    requires SameMembersAsAsked(inputs.decide, inputs.byId.Keys) && AllIn(ids, inputs.byId.Keys)
    ensures SameIds(inputs.decide(Sort(ids, StrLe)).order, ids)
  {
    SortMembers(ids, StrLe);
    assert AllIn(Sort(ids, StrLe), inputs.byId.Keys);
  }

  /** No dispatched packet builds, however indirectly, on a delivered packet of its segment that lacks a wave record. */
  lemma DispatchIsSound(inputs: Inputs, id: string, p: seq<string>)
    requires SameMembersAsAsked(inputs.decide, inputs.byId.Keys)
    requires Next(inputs).Dispatch? && id in Next(inputs).packets
    requires NeedsPath(inputs.byId, p) && p[0] == id
    ensures inputs.segments.Ok?
    ensures exists s | s in inputs.segments.segs ::
              s.id == Next(inputs).segment
              && id in Required(inputs.byId, s) && inputs.byId[id].state != DONE
              && (p[|p| - 1] in Required(inputs.byId, s) && inputs.byId[p[|p| - 1]].state == DONE
                  ==> p[|p| - 1] in WaveCovered(inputs.records, s.id))
  {
    var segs := inputs.segments.segs;
    var s := segs[FirstOwing(inputs.byId, inputs.records, segs, 0)];
    DecidedIds(inputs, Dispatchable(inputs, s));
    assert id in Dispatchable(inputs, s);
    var last := p[|p| - 1];
    var targets := set u | u in Uncovered(inputs, s);
    assert !Reaches(inputs.byId, id, targets);
    assert last !in targets;
  }

  ghost function CurrentOf(inputs: Inputs): (c: nat)
    requires inputs.segments.Ok?
    ensures c <= |inputs.segments.segs|
    ensures forall j | 0 <= j < c :: !Owing(inputs.byId, inputs.records, inputs.segments.segs, j)
  {
    FirstOwing(inputs.byId, inputs.records, inputs.segments.segs, 0)
  }

  /** An action about a segment is about the current one, in its own order of preference. */
  lemma SegmentActions(inputs: Inputs)
    requires var a := Next(inputs); !a.Error? && !a.Repair? && !a.Complete? && !a.AdvancePhase?
    ensures inputs.segments.Ok?
    ensures var c := CurrentOf(inputs);
            c < |inputs.segments.segs| && Next(inputs) == InSegment(inputs, inputs.segments.segs[c])
  {
  }

  /** It names the first segment that holds delivery back, and its phase. */
  lemma ActionNamesCurrent(inputs: Inputs)
    requires var a := Next(inputs); a.Integrate? || a.WaveGate? || a.Dispatch? || a.Blocked? || a.PhaseGate?
    ensures inputs.segments.Ok?
    ensures var a := Next(inputs);
            exists c | 0 <= c < |inputs.segments.segs| ::
              && a.segment == inputs.segments.segs[c].id && a.phase == inputs.segments.segs[c].phase
              && Owing(inputs.byId, inputs.records, inputs.segments.segs, c)
              && forall j | 0 <= j < c :: !Owing(inputs.byId, inputs.records, inputs.segments.segs, j)
  {
    SegmentActions(inputs);
    SegmentIsNamed(inputs, inputs.segments.segs[CurrentOf(inputs)]);
  }

  lemma SegmentIsNamed(inputs: Inputs, s: Segment)
    ensures var a := InSegment(inputs, s);
            (a.Integrate? || a.WaveGate? || a.Dispatch? || a.Blocked? || a.PhaseGate?) ==> a.segment == s.id && a.phase == s.phase
  {
  }

  lemma CompleteHasNoCurrent(inputs: Inputs)
    requires inputs.segments.Ok?
    ensures Next(inputs) == Complete ==> CurrentOf(inputs) == |inputs.segments.segs|
  {
    if Next(inputs) == Complete && CurrentOf(inputs) < |inputs.segments.segs| {
      SegmentNeverComplete(inputs, inputs.segments.segs[CurrentOf(inputs)]);
    }
  }

  lemma SegmentNeverComplete(inputs: Inputs, s: Segment)
    ensures InSegment(inputs, s) != Complete
  {
  }

  /** What integrate hands out: required packets of the segment with a waiting handoff. */
  lemma IntegrateMembers(inputs: Inputs, s: Segment, id: string)
    requires SameMembersAsAsked(inputs.decide, inputs.byId.Keys)
    requires InSegment(inputs, s).Integrate? && id in InSegment(inputs, s).packets
    ensures id in Required(inputs.byId, s) && id in inputs.integratable
  {
    DecidedIds(inputs, ToIntegrate(inputs, s));
    assert id in ToIntegrate(inputs, s);
  }

  /** What dispatch hands out: required, unfinished, startable packets of the segment. */
  lemma DispatchMembers(inputs: Inputs, s: Segment, id: string)
    requires SameMembersAsAsked(inputs.decide, inputs.byId.Keys)
    requires InSegment(inputs, s).Dispatch? && id in InSegment(inputs, s).packets
    ensures id in Required(inputs.byId, s) && id !in inputs.integratable
    ensures inputs.byId[id].state != DONE
    ensures inputs.byId[id].readiness == READY || inputs.byId[id].readiness == IN_PROGRESS
  {
    DecidedIds(inputs, Dispatchable(inputs, s));
    assert id in Dispatchable(inputs, s) && id in Ready(inputs, s);
    assert id !in ToIntegrate(inputs, s);
  }

  /** The work handed out is never empty. */
  lemma WorkIsSome(inputs: Inputs, s: Segment)
    requires SameMembersAsAsked(inputs.decide, inputs.byId.Keys)
    ensures InSegment(inputs, s).Integrate? ==> InSegment(inputs, s).packets != []
    ensures InSegment(inputs, s).Dispatch? ==> InSegment(inputs, s).packets != []
  {
    DecidedIds(inputs, ToIntegrate(inputs, s));
    DecidedIds(inputs, Dispatchable(inputs, s));
    if InSegment(inputs, s).Integrate? {
      var id := ToIntegrate(inputs, s)[0];
      assert id in ToIntegrate(inputs, s) && id in InSegment(inputs, s).packets;
    } else if InSegment(inputs, s).Dispatch? {
      var id := Dispatchable(inputs, s)[0];
      assert id in Dispatchable(inputs, s) && id in InSegment(inputs, s).packets;
    }
  }

  /** When a segment is BLOCKED, no outstanding packet waits to be integrated or may be started. */
  lemma BlockedMembers(inputs: Inputs, s: Segment, id: string)
    requires InSegment(inputs, s).Blocked?
    requires id in Required(inputs.byId, s) && inputs.byId[id].state != DONE
    ensures id !in inputs.integratable
    ensures inputs.byId[id].readiness != READY && inputs.byId[id].readiness != IN_PROGRESS
  {
    assert id !in ToIntegrate(inputs, s);
    var targets := set u | u in Uncovered(inputs, s);
    assert targets == {};
    assert !Reaches(inputs.byId, id, targets);
    assert id !in Dispatchable(inputs, s);
    assert id !in Ready(inputs, s);
    assert id in InState(inputs.byId, Required(inputs.byId, s), false);
  }

  /** Everything required in a segment before the current one is done. */
  lemma EarlierIsDone(inputs: Inputs, j: nat, id: string)
    requires inputs.segments.Ok? && j < CurrentOf(inputs)
    requires id in Required(inputs.byId, inputs.segments.segs[j])
    ensures inputs.byId[id].state == DONE
  {
    NotOwingSettled(inputs, j);
  }

  /** A wave gate names a delivered packet of the segment that no wave record covers yet. */
  lemma WaveGateMembers(inputs: Inputs, s: Segment) returns (id: string)
    requires InSegment(inputs, s).WaveGate?
    ensures InSegment(inputs, s).segment == s.id && id in InSegment(inputs, s).packets
    ensures id in Required(inputs.byId, s) && inputs.byId[id].state == DONE
    ensures id !in WaveCovered(inputs.records, s.id)
  {
    SortMembers(Uncovered(inputs, s), StrLe);
    id := Uncovered(inputs, s)[0];
    assert id in Uncovered(inputs, s);
  }

  lemma PhaseGateFacts(inputs: Inputs, s: Segment)
    requires InSegment(inputs, s).PhaseGate?
    ensures InSegment(inputs, s).segment == s.id && !PhaseGated(inputs.records, s.id)
  {
  }

  /** The packets of a wave gate are packets the record command will accept, and there is at least one. */
  lemma WaveGateIsRecordable(inputs: Inputs)
    requires Next(inputs).WaveGate?
    ensures Next(inputs).packets != []
    ensures Unrecordable(Next(inputs).packets, inputs.byId) == []
  {
    var segs := inputs.segments.segs;
    var s := segs[FirstOwing(inputs.byId, inputs.records, segs, 0)];
    SortMembers(Uncovered(inputs, s), StrLe);
  }

  /** The packets a wave record must not name: unknown ones and ones whose probes do not all pass. */
  function Unrecordable(packets: seq<string>, byId: map<string, Resolved>): (r: seq<string>)
    ensures r == [] <==> forall id | id in packets :: id in byId && byId[id].state == DONE
  {
    var r := Keep(packets, id => id !in byId || byId[id].state != DONE);
    assert r != [] ==> r[0] in r;
    r
  }
}
