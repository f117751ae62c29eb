/**
 The safety gates (`platform/analysis-engine/src/gates.ts`): five independent
 judgements on an aggregate, and a verdict.
 */
module SafetyGates {
  import opened Graph
  import opened Tallies
  import opened Aggregation
  import opened Shares

  datatype Config = Config(minSampleCount: int, minDistinctContexts: int, dominanceThreshold: real,
                           successThreshold: real, coverageThreshold: real)

  datatype GateStatus = PASS | FAIL | NOT_APPLICABLE

  datatype GateId = G1 | G2 | G3 | G4 | G5

  datatype GateResult = GateResult(id: GateId, status: GateStatus)

  datatype Evaluation = Evaluation(gates: seq<GateResult>, failed: seq<GateId>, candidate: bool)

  function Threshold(id: GateId, pass: bool): GateResult { GateResult(id, if pass then PASS else FAIL) }

  function SuccessGate(a: Aggregate, config: Config): GateResult {
    if a.dominantSuccessRate.None? then GateResult(G4, NOT_APPLICABLE)
    else Threshold(G4, a.dominantSuccessRate.value >= config.successThreshold)
  }

  function GatesOf(a: Aggregate, config: Config): (r: seq<GateResult>)
    ensures |r| == 5
  {
    [ Threshold(G1, a.sampleCount >= config.minSampleCount),
      Threshold(G2, a.distinctContextKeyCount >= config.minDistinctContexts),
      Threshold(G3, a.dominance >= config.dominanceThreshold),
      SuccessGate(a, config),
      Threshold(G5, a.outcomeCoverage >= config.coverageThreshold) ]
  }

  function FailedIn(gates: seq<GateResult>): (r: seq<GateId>)
    ensures r == [] <==> forall i | 0 <= i < |gates| :: gates[i].status != FAIL
    ensures forall id :: id in r <==> GateResult(id, FAIL) in gates
  {
    if gates == [] then []
    else
      assert forall i | 1 <= i < |gates| :: gates[i] == gates[1..][i - 1];
      assert forall g :: g in gates <==> g == gates[0] || g in gates[1..];
      (if gates[0].status == FAIL then [gates[0].id] else []) + FailedIn(gates[1..])
  }

  /** The verdict looks at the failed gates alone, so a gate that does not apply does not suppress by itself. */
  function EvaluateGates(a: Aggregate, config: Config): Evaluation {
    var gates := GatesOf(a, config);
    Evaluation(gates, FailedIn(gates), FailedIn(gates) == [])
  }

  ghost predicate AllPass(e: Evaluation) {
    forall i | 0 <= i < |e.gates| :: e.gates[i].status == PASS
  }

  lemma GateReading(a: Aggregate, config: Config)
    ensures var e := EvaluateGates(a, config);
            && (e.candidate <==>
                  a.sampleCount >= config.minSampleCount && a.distinctContextKeyCount >= config.minDistinctContexts
                  && a.dominance >= config.dominanceThreshold && a.outcomeCoverage >= config.coverageThreshold
                  && (a.dominantSuccessRate.Some? ==> a.dominantSuccessRate.value >= config.successThreshold))
            && (AllPass(e) <==> e.candidate && a.dominantSuccessRate.Some?)
  {
    StatusesAre(a, config);
  }

  lemma StatusesAre(a: Aggregate, config: Config)
    ensures var g := GatesOf(a, config);
            && g[0].status == (if a.sampleCount >= config.minSampleCount then PASS else FAIL)
            && g[1].status == (if a.distinctContextKeyCount >= config.minDistinctContexts then PASS else FAIL)
            && g[2].status == (if a.dominance >= config.dominanceThreshold then PASS else FAIL)
            && g[3] == SuccessGate(a, config)
            && g[4].status == (if a.outcomeCoverage >= config.coverageThreshold then PASS else FAIL)
  {
  }

  /** What fails each gate. */
  predicate FailsGate(a: Aggregate, config: Config, id: GateId) {
    match id
    case G1 => a.sampleCount < config.minSampleCount
    case G2 => a.distinctContextKeyCount < config.minDistinctContexts
    case G3 => a.dominance < config.dominanceThreshold
    case G4 => a.dominantSuccessRate.Some? && a.dominantSuccessRate.value < config.successThreshold
    case G5 => a.outcomeCoverage < config.coverageThreshold
  }

  lemma GateById(a: Aggregate, config: Config, r: GateResult)
    requires r in GatesOf(a, config)
    ensures r.status == FAIL <==> FailsGate(a, config, r.id)
  {
  }

  lemma EveryGateIsJudged(a: Aggregate, config: Config, id: GateId) returns (r: GateResult)
    ensures r in GatesOf(a, config) && r.id == id
  {
    var i := match id case G1 => 0 case G2 => 1 case G3 => 2 case G4 => 3 case G5 => 4;
    r := GatesOf(a, config)[i];
  }

  /** A gate is listed as failed exactly if its threshold is not met. */
  lemma FailedExactly(a: Aggregate, config: Config, id: GateId)
    ensures id in EvaluateGates(a, config).failed <==> FailsGate(a, config, id)
  {
    var r := EveryGateIsJudged(a, config, id);
    GateById(a, config, r);
    if GateResult(id, FAIL) in GatesOf(a, config) { GateById(a, config, GateResult(id, FAIL)); }
  }

  // ---- the arithmetic of an unattested dominant option ----

  lemma {:induction false} DisjointCounts(rs: seq<Record>, p: Record -> bool, q: Record -> bool)
    requires forall r | r in rs :: !(p(r) && q(r))
    ensures |Keep(rs, p)| + |Keep(rs, q)| <= |rs|
  {
    if rs != [] {
      assert rs[0] in rs;
      assert forall r | r in rs[1..] :: r in rs;
      DisjointCounts(rs[1..], p, q);
    }
  }

  /** The dominant option's own samples and the attested samples do not overlap when none of its samples is attested. */
  lemma UnattestedDominant(key: GroupKey, records: seq<Record>)
    requires AggregateGroup(key, records).dominantSuccessRate.None?
    ensures var a := AggregateGroup(key, records);
            if a.sampleCount == 0 then a.dominance == 0.0 && a.outcomeCoverage == 0.0
            else a.optionDistribution != [] && 1 <= a.optionDistribution[0].count
                 && a.dominance == Ratio(a.optionDistribution[0].count, a.sampleCount)
                 && a.outcomeCoverage == Ratio(a.attestedCount, a.sampleCount)
                 && a.optionDistribution[0].count + a.attestedCount <= a.sampleCount
  {
    var a := AggregateGroup(key, records);
    var eligible := Keep(records, IsEligible);
    TallyExactly(Selected(eligible));
    if a.sampleCount == 0 {
      NoneTallied(eligible);
    } else {
      SomeTallied(eligible);
      var d := a.optionDistribution[0];
      assert d in Tally(Selected(eligible));
      ChosenCount(eligible, d.key);
      var attested := Keep(eligible, IsAttested);
      forall r | r in eligible ensures !(r.selectedOption == d.key && IsAttested(r)) {
        assert r in attested && r.selectedOption == d.key ==> r in Chose(attested, d.key);
      }
      DisjointCounts(eligible, (r: Record) => r.selectedOption == d.key, IsAttested);
    }
  }

  lemma NoneTallied(eligible: seq<Record>)
    requires eligible == []
    ensures Tally(Selected(eligible)) == []
  {
    assert Selected(eligible) == [];
  }

  lemma SomeTallied(eligible: seq<Record>)
    requires eligible != []
    ensures Tally(Selected(eligible)) != [] && Tally(Selected(eligible))[0].count >= 1
  {
    TallyExactly(Selected(eligible));
    var k := OptionOf(eligible[0]);
    assert Selected(eligible)[0] == k && k in Selected(eligible);
    assert Count(k, multiset(Selected(eligible))[k]) in Tally(Selected(eligible));
    var d := Tally(Selected(eligible))[0];
    assert d in Tally(Selected(eligible));
    assert d.key in multiset(Selected(eligible));
  }

  lemma HeadCount(eligible: seq<Record>)
    ensures Tally(Selected(eligible)) != [] ==> Ratio(Tally(Selected(eligible))[0].count, |eligible|) <= 1.0
  {
    var t := Tally(Selected(eligible));
    if t != [] {
      TallyExactly(Selected(eligible));
      assert t[0] in t;
      ChosenCount(eligible, t[0].key);
      RatioAtMostOne(t[0].count, |eligible|);
    }
  }

  lemma DominanceAtMostOne(key: GroupKey, records: seq<Record>)
    ensures AggregateGroup(key, records).dominance <= 1.0
  {
    HeadCount(Keep(records, IsEligible));
  }

  /** A configuration under which an unattested dominant option can slip through. */
  predicate Leaky(config: Config) {
    config.dominanceThreshold <= 1.0 && config.coverageThreshold < 1.0
    && config.dominanceThreshold + config.coverageThreshold <= 1.0
  }

  /** Under any other configuration the verdict is CANDIDATE exactly when all five gates PASS, on every record list. */
  lemma VerdictMeansAllPass(key: GroupKey, records: seq<Record>, config: Config)
    requires !Leaky(config)
    ensures var e := EvaluateGates(AggregateGroup(key, records), config);
            e.candidate <==> AllPass(e)
  {
    var a := AggregateGroup(key, records);
    GateReading(a, config);
    DominanceAtMostOne(key, records);
    if a.dominantSuccessRate.None? {
      UnattestedDominant(key, records);
      if a.sampleCount > 0 {
        RatioSum(a.optionDistribution[0].count, a.attestedCount, a.sampleCount);
      }
    }
  }
}
