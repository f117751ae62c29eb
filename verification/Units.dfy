/**
 From graph nodes to the units the lane gate judges, and from the gate's answer back to
 the decision the flow control plane asks for (`scripts/lanes.ts`).
 */
module Units {
  import opened Graph
  import opened Lists
  import opened Flow
  import opened Waves
  import opened Lanes
  import Order

  /** What the graph file declares of a node besides its needs. */
  datatype Declaration = Declaration(risk: Option<Risk>, changeClass: Option<string>, criteria: seq<string>, commands: seq<string>,
                                     allowed: seq<string>, forbidden: seq<string>, hasPacketSource: bool)

  datatype Source = Source(byId: map<string, Resolved>, decisions: seq<Decision>, declared: map<string, Declaration>,
                           alwaysForbidden: seq<string>)

  function UnitFrom(g: Source, id: string, batch: set<string>): Unit
    requires id in g.byId && id in g.declared
  {
    var n, d := g.byId[id], g.declared[id];
    Unit(id, d.risk, d.changeClass, n.needs, d.criteria, d.commands, d.allowed, d.forbidden + g.alwaysForbidden,
         Keep(n.needs, x => x in g.byId && x !in batch && g.byId[x].state != DONE),
         Keep(n.needs, x => x in batch),
         Keep(n.needs, x => x !in g.byId),
         OpenDecisions(g.decisions, id), d.hasPacketSource)
  }

  /** An id the graph does not have is an error. */
  function UnitsFor(g: Source, ids: seq<string>): (r: Result<seq<Unit>>)
    requires g.declared.Keys == g.byId.Keys
    ensures r.Failure? <==> exists id | id in ids :: id !in g.byId
    ensures r.Success? ==> |r.value| == |ids| && forall i | 0 <= i < |ids| :: r.value[i].taskId == ids[i]
  {
    var batch := set id | id in ids;
    if exists id | id in ids :: id !in g.byId then Failure
    else Success(seq(|ids|, i requires 0 <= i < |ids| && ids[i] in g.byId => UnitFrom(g, ids[i], batch)))
  }

  // ---- a wave is an antichain ----

  /** The units of the next wave meet R5: none of them depends on another of the batch. */
  lemma NextWaveMeetsR5(g: Source, phase: int, waves: map<string, nat>, ids: seq<string>, policy: Policy, repo: Repo)
    requires g.declared.Keys == g.byId.Keys
    requires waves.Keys == Unfinished(g.byId, phase) && forall m | m in waves :: IsWave(g.byId, phase, m, waves[m])
    requires forall m :: m in ids <==> IsFirst(waves, m)
    ensures UnitsFor(g, ids).Success? && GateOf(UnitsFor(g, ids).value, policy, repo).antichain
  {
    forall id | id in ids ensures id in g.byId { NextWaveIsAnAntichain(g.byId, phase, waves, ids, id); }
    var units := UnitsFor(g, ids).value;
    var batch := set id | id in ids;
    forall u | u in units ensures u.inBatchDeps == [] {
      var i :| 0 <= i < |units| && units[i] == u;
      NextWaveIsAnAntichain(g.byId, phase, waves, ids, ids[i]);
      assert u == UnitFrom(g, ids[i], batch);
      KeepNone(g.byId[ids[i]].needs, ids, batch);
    }
  }

  lemma KeepNone(needs: seq<string>, ids: seq<string>, batch: set<string>)
    requires batch == (set id | id in ids) && Keep(needs, d => d in ids) == []
    ensures Keep(needs, x => x in batch) == []
  {
    KeepSame(needs, x => x in batch, d => d in ids);
  }

  // ---- the decision ----

  /** What the flow control plane is told: the mode of the gate and the order of the batch. An unknown id or a unit without a class is an error, and nothing is told. */
  ghost function DecideWith(g: Source, policy: Policy, repo: Repo, classes: set<string>): seq<string> -> LaneDecision
    requires g.declared.Keys == g.byId.Keys
  {
    ids =>
      match UnitsFor(g, ids)
      case Failure => LaneDecision(Sequential, [])
      case Success(units) =>
        if exists u | u in units :: !Classified(u, classes) then LaneDecision(Sequential, [])
        else
          LaneDecision(if Eligible(units, policy, repo) then Parallel else Sequential,
                       Order.OrderFrom(Order.Pending(Lanes.Batch(units), Order.Ids(Lanes.Batch(units))), []))
  }

  ghost predicate AllClassified(g: Source, classes: set<string>) {
    forall id | id in g.declared ::
      g.declared[id].changeClass.Some? && g.declared[id].changeClass.value != "" && g.declared[id].changeClass.value in classes
  }

  /** Where every node has a class, the decision orders exactly the nodes it was asked about. */
  lemma DecisionKeepsIds(g: Source, policy: Policy, repo: Repo, classes: set<string>)
    requires g.declared.Keys == g.byId.Keys && AllClassified(g, classes)
    ensures SameMembersAsAsked(DecideWith(g, policy, repo, classes), g.byId.Keys)
  {
    var decide := DecideWith(g, policy, repo, classes);
    forall ids: seq<string> | AllIn(ids, g.byId.Keys) ensures SameIds(decide(ids).order, ids) {
      UnitsClassified(g, ids, classes);
      OrderHasIds(UnitsFor(g, ids).value, ids);
    }
  }

  lemma UnitsClassified(g: Source, ids: seq<string>, classes: set<string>)
    requires g.declared.Keys == g.byId.Keys && AllClassified(g, classes) && AllIn(ids, g.byId.Keys)
    ensures UnitsFor(g, ids).Success? && forall u | u in UnitsFor(g, ids).value :: Classified(u, classes)
  {
    var units := UnitsFor(g, ids).value;
    forall u | u in units ensures Classified(u, classes) {
      var k :| 0 <= k < |units| && units[k] == u;
      assert ids[k] in g.declared;
    }
  }

  lemma OrderHasIds(units: seq<Unit>, ids: seq<string>)
    requires |units| == |ids| && forall i | 0 <= i < |ids| :: units[i].taskId == ids[i]
    ensures SameIds(Order.OrderFrom(Order.Pending(Lanes.Batch(units), Order.Ids(Lanes.Batch(units))), []), ids)
  {
    Order.OrderIsTopological(Lanes.Batch(units));
    IdsAre(units, ids);
  }

  lemma IdsAre(units: seq<Unit>, ids: seq<string>)
    requires |units| == |ids| && forall i | 0 <= i < |ids| :: units[i].taskId == ids[i]
    ensures forall x :: x in Order.Ids(Lanes.Batch(units)) <==> x in ids
  {
    BatchIds(units);
    forall x ensures x in Order.Ids(Lanes.Batch(units)) <==> x in ids {
      if x in ids {
        var k :| 0 <= k < |ids| && ids[k] == x;
        assert units[k].taskId == x;
      }
    }
  }
}
