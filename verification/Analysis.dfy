/**
 Decision aggregation (`platform/analysis-engine/src/aggregate.ts`): records in
 groups, and for each group what was chosen, how often it worked, and the evidence
 against. Ratios are exact.
 */
module Aggregation {
  import opened Graph
  import opened Sorting
  import opened Lists
  import opened Tallies

  datatype Outcome = SUCCESS | FAILURE | UNKNOWN

  datatype Record = Record(decisionId: string, runId: string, runIsStale: bool, group: GroupKey,
                           contextKey: Option<string>, selectedOption: string, outcome: Outcome)

  datatype GroupKey = GroupKey(workflowName: string, workflowVersion: string, decisionType: string, contextKeyVersion: string)

  datatype Counterexample = Counterexample(decisionId: string, runId: string, contextKey: string,
                                           selectedOption: string, outcome: Outcome)

  datatype Aggregate = Aggregate(key: GroupKey, sampleCount: nat, distinctContextKeyCount: nat,
                                 optionDistribution: seq<Count>, dominantOption: Option<string>,
                                 dominance: real, attestedCount: nat, outcomeCoverage: real,
                                 dominantSuccessRate: Option<real>, counterexamples: seq<Counterexample>,
                                 minorityConcentration: seq<Count>, staleRun: nat, missingContextKey: nat)

  function Ratio(part: nat, whole: nat): real {
    if whole == 0 then 0.0 else part as real / whole as real
  }

  function Serialize(k: GroupKey): string {
    k.workflowName + " " + (k.workflowVersion + " " + (k.decisionType + " " + k.contextKeyVersion))
  }

  predicate IsEligible(r: Record) { !r.runIsStale && r.contextKey.Some? }

  predicate IsAttested(r: Record) { r.outcome != UNKNOWN }

  function OptionOf(r: Record): string { r.selectedOption }

  function Selected(rs: seq<Record>): seq<string> { Mapped(rs, OptionOf) }

  function ContextOf(r: Record): string { if r.contextKey.Some? then r.contextKey.value else "" }

  function Contexts(rs: seq<Record>): seq<string> { Mapped(rs, ContextOf) }

  function AsCounterexample(r: Record): Counterexample {
    Counterexample(r.decisionId, r.runId, ContextOf(r), r.selectedOption, r.outcome)
  }

  /** By context, then by decision. */
  predicate CounterLe(a: Counterexample, b: Counterexample) {
    if a.contextKey == b.contextKey then StrLe(a.decisionId, b.decisionId) else StrLe(a.contextKey, b.contextKey)
  }

  function Cited(rs: seq<Record>): seq<Counterexample> { Mapped(rs, AsCounterexample) }

  function Chose(rs: seq<Record>, option: string): seq<Record> { Keep(rs, (r: Record) => r.selectedOption == option) }

  function ChoseOther(rs: seq<Record>, option: string): seq<Record> { Keep(rs, (r: Record) => r.selectedOption != option) }

  function With(rs: seq<Record>, outcome: Outcome): seq<Record> { Keep(rs, (r: Record) => r.outcome == outcome) }

  /** Failures of the dominant option and successes of the others, all of them. */
  function Counterexamples(eligible: seq<Record>, dominant: Option<string>): seq<Counterexample> {
    if dominant.None? then []
    else
      Sort(Cited(With(Chose(eligible, dominant.value), FAILURE) + With(ChoseOther(eligible, dominant.value), SUCCESS)), CounterLe)
  }

  function AggregateGroup(key: GroupKey, records: seq<Record>): Aggregate {
    var eligible := Keep(records, IsEligible);
    var n := |eligible|;
    var distribution := Tally(Selected(eligible));
    var dominant := if distribution == [] then None else Some(distribution[0].key);
    var attested := Keep(eligible, IsAttested);
    var dominantAttested := if dominant.None? then [] else Chose(attested, dominant.value);
    Aggregate(key, n, |set c | c in Contexts(eligible)|, distribution, dominant,
              if distribution == [] then 0.0 else Ratio(distribution[0].count, n),
              |attested|, Ratio(|attested|, n),
              if dominantAttested == [] then None else Some(Ratio(|With(dominantAttested, SUCCESS)|, |dominantAttested|)),
              Counterexamples(eligible, dominant),
              if dominant.None? then [] else Tally(Contexts(ChoseOther(eligible, dominant.value))),
              |Keep(records, (r: Record) => r.runIsStale)|,
              |Keep(records, (r: Record) => !r.runIsStale && r.contextKey.None?)|)
  }

  // ---- the loops ----

  method CountExclusions(records: seq<Record>) returns (staleRun: nat, missingContextKey: nat)
    ensures staleRun == |Keep(records, (r: Record) => r.runIsStale)|
    ensures missingContextKey == |Keep(records, (r: Record) => !r.runIsStale && r.contextKey.None?)|
  {
    staleRun, missingContextKey := 0, 0;
    ghost var stale := (r: Record) => r.runIsStale;
    ghost var missing := (r: Record) => !r.runIsStale && r.contextKey.None?;
    for i := |records| downto 0
      invariant staleRun == |Keep(records[i..], stale)|
      invariant missingContextKey == |Keep(records[i..], missing)|
    {
      assert records[i..] == [records[i]] + records[i + 1..];
      if records[i].runIsStale { staleRun := staleRun + 1; }
      else if records[i].contextKey.None? { missingContextKey := missingContextKey + 1; }
    }
    assert records[0..] == records;
  }

  function SerialOf(r: Record): string { Serialize(r.group) }

  /** The aggregate of one bucket, under the key of the record that opened it. */
  function BucketAggregate(bucket: seq<Record>): Aggregate {
    AggregateGroup(if bucket == [] then GroupKey("", "", "", "") else bucket[0].group, bucket)
  }

  ghost function AggregateAll(rs: seq<Record>): seq<Aggregate> {
    GroupMap(rs, SerialOf, BucketAggregate)
  }

  /** One pass fills the buckets in order of arrival; the buckets are then aggregated in order of their serial key. */
  method AggregateRecords(rs: seq<Record>) returns (out: seq<Aggregate>)
    ensures out == AggregateAll(rs)
  {
    out := GroupAndMap(rs, SerialOf, BucketAggregate);
  }

  // ---- conservation ----

  lemma {:induction false} KeepSplits<T(!new)>(xs: seq<T>, p: T -> bool, q: T -> bool, r: T -> bool)
    requires forall x | x in xs :: (p(x) && !q(x) && !r(x)) || (!p(x) && q(x) && !r(x)) || (!p(x) && !q(x) && r(x))
    ensures |Keep(xs, p)| + |Keep(xs, q)| + |Keep(xs, r)| == |xs|
  {
    if xs != [] {
      assert xs[0] in xs;
      assert forall x | x in xs[1..] :: x in xs;
      KeepSplits(xs[1..], p, q, r);
    }
  }

  lemma {:induction false} ChosenCount(rs: seq<Record>, option: string)
    ensures |Chose(rs, option)| == multiset(Selected(rs))[option]
  {
    if rs == [] {
    } else {
      ChosenCount(rs[1..], option);
      assert Selected(rs) == [OptionOf(rs[0])] + Selected(rs[1..]);
    }
  }

  /**
   Nothing is lost: samples and the two kinds of exclusion are all the records, the
   option counts are all the samples, and the minority's contexts account for every
   sample that did not choose the dominant option.
   */
  lemma AggregationConserves(key: GroupKey, records: seq<Record>)
    ensures var a := AggregateGroup(key, records);
            && a.sampleCount + a.staleRun + a.missingContextKey == |records|
            && Sum(a.optionDistribution) == a.sampleCount
            && Sum(a.minorityConcentration) == a.sampleCount - (if a.optionDistribution == [] then 0 else a.optionDistribution[0].count)
  {
    var a := AggregateGroup(key, records);
    KeepSplits(records, IsEligible, (r: Record) => r.runIsStale, (r: Record) => !r.runIsStale && r.contextKey.None?);
    var eligible := Keep(records, IsEligible);
    TallyConserves(Selected(eligible));
    TallyExactly(Selected(eligible));
    if a.optionDistribution != [] {
      var d := a.optionDistribution[0];
      assert d in a.optionDistribution;
      ChosenCount(eligible, d.key);
      KeepHalves(eligible, (r: Record) => r.selectedOption == d.key, (r: Record) => r.selectedOption != d.key);
      TallyConserves(Contexts(ChoseOther(eligible, d.key)));
    }
  }

  lemma {:induction false} KeepHalves<T(!new)>(xs: seq<T>, p: T -> bool, q: T -> bool)
    requires forall x | x in xs :: p(x) != q(x)
    ensures |Keep(xs, p)| + |Keep(xs, q)| == |xs|
  {
    if xs != [] {
      assert xs[0] in xs;
      assert forall x | x in xs[1..] :: x in xs;
      KeepHalves(xs[1..], p, q);
    }
  }

  // ---- order independence ----

  lemma KeepPermutes<T(!new)>(xs: seq<T>, ys: seq<T>, p: T -> bool)
    requires multiset(xs) == multiset(ys)
    ensures multiset(Keep(xs, p)) == multiset(Keep(ys, p))
    ensures |Keep(xs, p)| == |Keep(ys, p)|
  {
    forall x ensures multiset(Keep(xs, p))[x] == multiset(Keep(ys, p))[x] {
      KeepMultiset(xs, p, x);
      KeepMultiset(ys, p, x);
    }
    assert multiset(Keep(xs, p)) == multiset(Keep(ys, p));
    assert |multiset(Keep(xs, p))| == |Keep(xs, p)| && |multiset(Keep(ys, p))| == |Keep(ys, p)|;
  }

  ghost predicate DistinctIds(rs: seq<Record>) {
    forall r, q | r in rs && q in rs && r.decisionId == q.decisionId :: r == q
  }

  lemma CounterOrder(rs: seq<Record>)
    requires DistinctIds(rs)
    ensures Total(CounterLe, Cited(rs)) && Transitive(CounterLe, Cited(rs)) && Antisymmetric(CounterLe, Cited(rs))
  {
    var cs := Cited(rs);
    forall x, y | x in cs && y in cs ensures CounterLe(x, y) || CounterLe(y, x) {
      StrTotal(x.contextKey, y.contextKey);
      StrTotal(x.decisionId, y.decisionId);
    }
    forall x, y, z | x in cs && y in cs && z in cs && CounterLe(x, y) && CounterLe(y, z) ensures CounterLe(x, z) {
      CounterTransitive(x, y, z);
    }
    forall x, y | x in cs && y in cs && CounterLe(x, y) && CounterLe(y, x) ensures x == y {
      if x.contextKey != y.contextKey {
        StrAntisymmetric(x.contextKey, y.contextKey);
      }
      StrAntisymmetric(x.decisionId, y.decisionId);
      var i :| 0 <= i < |cs| && cs[i] == x;
      var j :| 0 <= j < |cs| && cs[j] == y;
      assert x == AsCounterexample(rs[i]) && y == AsCounterexample(rs[j]);
      assert rs[i] in rs && rs[j] in rs && rs[i] == rs[j];
    }
  }

  lemma CounterTransitive(x: Counterexample, y: Counterexample, z: Counterexample)
    requires CounterLe(x, y) && CounterLe(y, z)
    ensures CounterLe(x, z)
  {
    if x.contextKey == y.contextKey == z.contextKey {
      StrTransitive(x.decisionId, y.decisionId, z.decisionId);
    } else if x.contextKey == z.contextKey {
      StrAntisymmetric(x.contextKey, y.contextKey);
    } else if x.contextKey != y.contextKey && y.contextKey != z.contextKey {
      StrTransitive(x.contextKey, y.contextKey, z.contextKey);
    }
  }

  lemma CitedIgnoresOrder(xs: seq<Record>, ys: seq<Record>)
    requires multiset(xs) == multiset(ys) && DistinctIds(xs)
    ensures Sort(Cited(xs), CounterLe) == Sort(Cited(ys), CounterLe)
  {
    MapPermutes(xs, ys, AsCounterexample);
    CounterOrder(xs);
    SortIgnoresOrder(Cited(xs), Cited(ys), CounterLe);
  }

  lemma CounterexamplesIgnoreOrder(xs: seq<Record>, ys: seq<Record>, dominant: Option<string>)
    requires multiset(xs) == multiset(ys) && DistinctIds(xs)
    ensures Counterexamples(xs, dominant) == Counterexamples(ys, dominant)
  {
    if dominant.Some? {
      var d := dominant.value;
      KeepPermutes(xs, ys, (r: Record) => r.selectedOption == d);
      KeepPermutes(xs, ys, (r: Record) => r.selectedOption != d);
      KeepPermutes(Chose(xs, d), Chose(ys, d), (r: Record) => r.outcome == FAILURE);
      KeepPermutes(ChoseOther(xs, d), ChoseOther(ys, d), (r: Record) => r.outcome == SUCCESS);
      CitedIgnoresOrder(With(Chose(xs, d), FAILURE) + With(ChoseOther(xs, d), SUCCESS),
                        With(Chose(ys, d), FAILURE) + With(ChoseOther(ys, d), SUCCESS));
    }
  }

  lemma CountsIgnoreOrder(xs: seq<Record>, ys: seq<Record>, d: string)
    requires multiset(xs) == multiset(ys)
    ensures |Chose(xs, d)| == |Chose(ys, d)| && |With(Chose(xs, d), SUCCESS)| == |With(Chose(ys, d), SUCCESS)|
    ensures Tally(Contexts(ChoseOther(xs, d))) == Tally(Contexts(ChoseOther(ys, d)))
  {
    KeepPermutes(xs, ys, (r: Record) => r.selectedOption == d);
    KeepPermutes(Chose(xs, d), Chose(ys, d), (r: Record) => r.outcome == SUCCESS);
    KeepPermutes(xs, ys, (r: Record) => r.selectedOption != d);
    MapPermutes(ChoseOther(xs, d), ChoseOther(ys, d), ContextOf);
    TallyIgnoresOrder(Contexts(ChoseOther(xs, d)), Contexts(ChoseOther(ys, d)));
  }

  lemma EligibleIgnoresOrder(xs: seq<Record>, ys: seq<Record>)
    requires multiset(xs) == multiset(ys)
    ensures Tally(Selected(xs)) == Tally(Selected(ys)) && |xs| == |ys|
    ensures |Keep(xs, IsAttested)| == |Keep(ys, IsAttested)| && multiset(Keep(xs, IsAttested)) == multiset(Keep(ys, IsAttested))
    ensures (set c | c in Contexts(xs)) == (set c | c in Contexts(ys))
  {
    MapPermutes(xs, ys, OptionOf);
    TallyIgnoresOrder(Selected(xs), Selected(ys));
    KeepPermutes(xs, ys, IsAttested);
    MapPermutes(xs, ys, ContextOf);
    SameMembers(Contexts(xs), Contexts(ys));
    assert |multiset(xs)| == |xs| && |multiset(ys)| == |ys|;
  }

  /** A group's aggregate depends on which records it has, not on their order. */
  lemma GroupIgnoresOrder(key: GroupKey, xs: seq<Record>, ys: seq<Record>)
    requires multiset(xs) == multiset(ys) && DistinctIds(xs)
    ensures AggregateGroup(key, xs) == AggregateGroup(key, ys)
  {
    KeepPermutes(xs, ys, IsEligible);
    KeepPermutes(xs, ys, (r: Record) => r.runIsStale);
    KeepPermutes(xs, ys, (r: Record) => !r.runIsStale && r.contextKey.None?);
    var ex, ey := Keep(xs, IsEligible), Keep(ys, IsEligible);
    EligibleIgnoresOrder(ex, ey);
    var distribution := Tally(Selected(ex));
    if distribution != [] {
      var d := distribution[0].key;
      CounterexamplesIgnoreOrder(ex, ey, Some(d));
      CountsIgnoreOrder(ex, ey, d);
      CountsIgnoreOrder(Keep(ex, IsAttested), Keep(ey, IsAttested), d);
    }
  }

  /** Records whose serial keys agree have the same key: no two groups share a bucket. */
  ghost predicate KeysApart(rs: seq<Record>) {
    forall r, q | r in rs && q in rs && SerialOf(r) == SerialOf(q) :: r.group == q.group
  }

  lemma BucketIgnoresOrder(xs: seq<Record>, ys: seq<Record>, s: string)
    requires multiset(xs) == multiset(ys) && DistinctIds(xs) && KeysApart(xs) && s in Mapped(xs, SerialOf)
    ensures BucketAggregate(Having(xs, SerialOf, s)) == BucketAggregate(Having(ys, SerialOf, s))
  {
    var a, b := Having(xs, SerialOf, s), Having(ys, SerialOf, s);
    HavingPermutes(xs, ys, SerialOf, s);
    HavingLabel(xs, SerialOf, s);
    SameMembers(a, b);
    assert a[0] in a && b[0] in b && b[0] in a;
    GroupIgnoresOrder(a[0].group, a, b);
  }

  /** The whole analysis gives the same answer on every permutation of its input. */
  lemma AggregationIgnoresOrder(xs: seq<Record>, ys: seq<Record>)
    requires multiset(xs) == multiset(ys) && DistinctIds(xs) && KeysApart(xs)
    ensures AggregateAll(xs) == AggregateAll(ys)
  {
    forall s | s in Mapped(xs, SerialOf)
      ensures BucketAggregate(Having(xs, SerialOf, s)) == BucketAggregate(Having(ys, SerialOf, s))
    {
      BucketIgnoresOrder(xs, ys, s);
    }
    GroupMapIgnoresOrder(xs, ys, SerialOf, BucketAggregate);
  }

  // ---- when keys stay apart ----

  predicate SpaceFree(s: string) { forall i | 0 <= i < |s| :: s[i] != ' ' }

  predicate SpaceFreeKey(k: GroupKey) {
    SpaceFree(k.workflowName) && SpaceFree(k.workflowVersion) && SpaceFree(k.decisionType)
  }

  lemma FirstFieldApart(a: string, b: string, x: string, y: string)
    requires SpaceFree(a) && SpaceFree(b) && a + " " + x == b + " " + y
    ensures a == b && x == y
  {
    var l, r := a + " " + x, b + " " + y;
    assert l[|a|] == ' ' && r[|b|] == ' ';
    assert forall i | 0 <= i < |a| :: l[i] == a[i];
    assert forall i | 0 <= i < |b| :: r[i] == b[i];
    assert |a| == |b|;
    assert a == l[..|a|] && b == r[..|b|] && x == l[|a| + 1..] && y == r[|b| + 1..];
  }

  /** Keys without spaces in their first three fields serialise apart. */
  lemma SerialsApart(k: GroupKey, l: GroupKey)
    requires SpaceFreeKey(k) && SpaceFreeKey(l) && Serialize(k) == Serialize(l)
    ensures k == l
  {
    FirstFieldApart(k.workflowName, l.workflowName,
                    k.workflowVersion + " " + (k.decisionType + " " + k.contextKeyVersion),
                    l.workflowVersion + " " + (l.decisionType + " " + l.contextKeyVersion));
    FirstFieldApart(k.workflowVersion, l.workflowVersion,
                    k.decisionType + " " + k.contextKeyVersion, l.decisionType + " " + l.contextKeyVersion);
    FirstFieldApart(k.decisionType, l.decisionType, k.contextKeyVersion, l.contextKeyVersion);
  }

  /** The list with `r` moved to the front. */
  lemma MoveToFront(xs: seq<Record>, r: Record) returns (ys: seq<Record>)
    requires r in xs
    ensures multiset(ys) == multiset(xs) && ys != [] && ys[0] == r
  {
    var k := Locate(xs, r);
    ys := [r] + (xs[..k] + xs[k + 1..]);
    MapTakeOut(xs, k, SerialOf);
  }

  /** The record that came first names its bucket. */
  lemma FirstNames(xs: seq<Record>, i: nat)
    requires xs != []
    requires var labels := Sort(FirstSeen(Mapped(xs, SerialOf)), StrLe); i < |labels| && labels[i] == SerialOf(xs[0])
    ensures i < |AggregateAll(xs)| && AggregateAll(xs)[i].key == xs[0].group
  {
    HavingFirst(xs, SerialOf);
    var bucket := Having(xs, SerialOf, SerialOf(xs[0]));
    assert BucketAggregate(bucket).key == xs[0].group;
    assert AggregateAll(xs)[i] == BucketAggregate(bucket);
  }

  lemma LabelIsListed(xs: seq<Record>, r: Record) returns (i: nat)
    requires r in xs
    ensures var labels := Sort(FirstSeen(Mapped(xs, SerialOf)), StrLe); i < |labels| && labels[i] == SerialOf(r)
  {
    var k :| 0 <= k < |xs| && xs[k] == r;
    assert Mapped(xs, SerialOf)[k] == SerialOf(r);
    SortMembers(FirstSeen(Mapped(xs, SerialOf)), StrLe);
    var labels := Sort(FirstSeen(Mapped(xs, SerialOf)), StrLe);
    assert SerialOf(r) in labels;
    i :| 0 <= i < |labels| && labels[i] == SerialOf(r);
  }

  /** Two different keys that serialise alike fall into one bucket, and which of them comes first shows. */
  lemma SharedSerialDependsOnOrder(xs: seq<Record>) returns (ys: seq<Record>)
    requires !KeysApart(xs)
    ensures multiset(ys) == multiset(xs) && AggregateAll(ys) != AggregateAll(xs)
  {
    var r, q :| r in xs && q in xs && SerialOf(r) == SerialOf(q) && r.group != q.group;
    ys := MoveToFront(xs, r);
    var zs := MoveToFront(xs, q);
    LabelsPermute(xs, ys, SerialOf);
    LabelsPermute(xs, zs, SerialOf);
    var i := LabelIsListed(xs, r);
    FirstNames(ys, i);
    FirstNames(zs, i);
    if AggregateAll(ys) == AggregateAll(xs) { ys := zs; }
  }

  /** With distinct ids, all permutations of the input give one result if and only if no two groups share a bucket. */
  lemma OrderIsIgnoredExactly(xs: seq<Record>)
    requires DistinctIds(xs)
    ensures KeysApart(xs) <==> forall ys | multiset(ys) == multiset(xs) :: AggregateAll(ys) == AggregateAll(xs)
  {
    if KeysApart(xs) {
      forall ys | multiset(ys) == multiset(xs) ensures AggregateAll(ys) == AggregateAll(xs) { AggregationIgnoresOrder(xs, ys); }
    } else {
      var ys := SharedSerialDependsOnOrder(xs);
    }
  }

  // ---- what the figures say of the records ----

  function CountIf(rs: seq<Record>, p: Record -> bool): nat {
    if rs == [] then 0 else (if p(rs[0]) then 1 else 0) + CountIf(rs[1..], p)
  }

  /** Records of a live run with a context. */
  predicate Usable(r: Record) { !r.runIsStale && r.contextKey != None }

  function Choosing(option: string): Record -> bool {
    (r: Record) => Usable(r) && r.selectedOption == option
  }

  function Ending(option: string, outcome: Outcome): Record -> bool {
    (r: Record) => Usable(r) && r.selectedOption == option && r.outcome == outcome
  }

  predicate Attests(r: Record) { Usable(r) && r.outcome != UNKNOWN }

  lemma {:induction false} KeepCounts(rs: seq<Record>, p: Record -> bool, q: Record -> bool)
    requires forall r | r in rs :: p(r) == q(r)
    ensures |Keep(rs, p)| == CountIf(rs, q)
  {
    if rs != [] {
      assert rs[0] in rs && forall r | r in rs[1..] :: r in rs;
      KeepCounts(rs[1..], p, q);
    }
  }

  lemma KeepTwiceCounts(rs: seq<Record>, p: Record -> bool, q: Record -> bool, both: Record -> bool)
    requires forall r | r in rs :: (p(r) && q(r)) == both(r)
    ensures |Keep(Keep(rs, p), q)| == CountIf(rs, both)
  {
    KeepBoth(rs, p, q, both);
    KeepCounts(rs, both, both);
  }

  lemma ChosenTimes(rs: seq<Record>, option: string)
    ensures multiset(Selected(Keep(rs, IsEligible)))[option] == CountIf(rs, Choosing(option))
  {
    ChosenCount(Keep(rs, IsEligible), option);
    KeepTwiceCounts(rs, IsEligible, (r: Record) => r.selectedOption == option, Choosing(option));
  }

  lemma DominantOf(key: GroupKey, rs: seq<Record>)
    ensures var a, t := AggregateGroup(key, rs), Tally(Selected(Keep(rs, IsEligible)));
            && a.sampleCount == |Keep(rs, IsEligible)|
            && a.dominantOption == (if t == [] then None else Some(t[0].key))
            && a.dominance == (if t == [] then 0.0 else Ratio(t[0].count, |Keep(rs, IsEligible)|))
  {
  }

  lemma FirstIsMost(eligible: seq<Record>, t: seq<Count>)
    requires t == Tally(Selected(eligible))
    ensures t == [] <==> eligible == []
    ensures t != [] ==>
              var m := multiset(Selected(eligible));
              && t[0].count == m[t[0].key] && t[0].count > 0
              && forall o | o != t[0].key :: m[o] < t[0].count || (m[o] == t[0].count && StrLe(t[0].key, o))
  {
    var keys := Selected(eligible);
    TallyExactly(keys);
    if eligible != [] {
      assert keys[0] in keys;
      assert Count(keys[0], multiset(keys)[keys[0]]) in t;
      assert t[0] in t;
      forall o | o != t[0].key ensures multiset(keys)[o] < t[0].count || (multiset(keys)[o] == t[0].count && StrLe(t[0].key, o)) {
        if o in keys { NotBeforeFirst(t, Count(o, multiset(keys)[o])); }
      }
    }
    assert t != [] ==> t[0] in t && t[0].key in keys;
  }

  lemma NotBeforeFirst(t: seq<Count>, e: Count)
    requires Sorted(CountLe, t) && e in t && e != t[0]
    ensures CountLe(t[0], e)
  {
    var i :| 0 <= i < |t| && t[i] == e;
    assert i > 0;
  }

  /** A share times the whole is the part; of nothing it is none. */
  lemma RatioTimes(part: nat, whole: nat)
    ensures if whole == 0 then Ratio(part, whole) == 0.0 else Ratio(part, whole) * (whole as real) == part as real
  {
  }

  /** The dominant option is the one chosen most often, the first by name of those that are; there is none only without samples. */
  lemma DominantIsMostChosen(key: GroupKey, rs: seq<Record>)
    ensures var a := AggregateGroup(key, rs);
            a.dominantOption.None? <==> CountIf(rs, Usable) == 0
    ensures var a := AggregateGroup(key, rs);
            a.dominantOption.Some? ==>
              var d := a.dominantOption.value;
              CountIf(rs, Choosing(d)) > 0
              && forall o | o != d :: CountIf(rs, Choosing(o)) < CountIf(rs, Choosing(d))
                                      || (CountIf(rs, Choosing(o)) == CountIf(rs, Choosing(d)) && StrLe(d, o))
  {
    DominantOf(key, rs);
    var eligible := Keep(rs, IsEligible);
    KeepCounts(rs, IsEligible, Usable);
    FirstIsMost(eligible, Tally(Selected(eligible)));
    forall o ensures multiset(Selected(eligible))[o] == CountIf(rs, Choosing(o)) { ChosenTimes(rs, o); }
  }

  /** Its dominance is its share of the samples. */
  lemma DominanceIsShare(key: GroupKey, rs: seq<Record>)
    ensures var a := AggregateGroup(key, rs);
            match a.dominantOption
            case None => a.dominance == 0.0
            case Some(d) => a.dominance == Ratio(CountIf(rs, Choosing(d)), CountIf(rs, Usable))
  {
    DominantOf(key, rs);
    var eligible := Keep(rs, IsEligible);
    KeepCounts(rs, IsEligible, Usable);
    var t := Tally(Selected(eligible));
    FirstIsMost(eligible, t);
    if t != [] { ChosenTimes(rs, t[0].key); }
  }

  lemma CoverageOf(key: GroupKey, rs: seq<Record>)
    ensures var a, eligible := AggregateGroup(key, rs), Keep(rs, IsEligible);
            && a.sampleCount == |eligible| && a.attestedCount == |Keep(eligible, IsAttested)|
            && a.outcomeCoverage == Ratio(|Keep(eligible, IsAttested)|, |eligible|)
            && a.distinctContextKeyCount == |set c | c in Contexts(eligible)|
  {
  }

  /** Samples, attested samples, their share, and the different contexts. */
  lemma CoverageIsShare(key: GroupKey, rs: seq<Record>)
    ensures var a := AggregateGroup(key, rs);
            && a.sampleCount == CountIf(rs, Usable) && a.attestedCount == CountIf(rs, Attests)
            && a.outcomeCoverage == Ratio(CountIf(rs, Attests), CountIf(rs, Usable)) && a.distinctContextKeyCount == |UsedContexts(rs)|
  {
    CoverageOf(key, rs);
    KeepCounts(rs, IsEligible, Usable);
    KeepTwiceCounts(rs, IsEligible, IsAttested, Attests);
    ContextsAre(rs);
  }

  ghost function UsedContexts(rs: seq<Record>): set<string> {
    set r | r in rs && Usable(r) :: r.contextKey.value
  }

  lemma ContextsAre(rs: seq<Record>)
    ensures (set c | c in Contexts(Keep(rs, IsEligible))) == UsedContexts(rs)
  {
    var eligible := Keep(rs, IsEligible);
    forall c | c in Contexts(eligible) ensures c in UsedContexts(rs) {
      var i :| 0 <= i < |eligible| && Contexts(eligible)[i] == c;
      assert eligible[i] in eligible && c == ContextOf(eligible[i]);
    }
    forall c | c in UsedContexts(rs) ensures c in Contexts(eligible) {
      var r :| r in rs && Usable(r) && r.contextKey.value == c;
      assert r in eligible;
      var i :| 0 <= i < |eligible| && eligible[i] == r;
      assert Contexts(eligible)[i] == ContextOf(r);
    }
  }

  lemma {:induction false} CountSplits(rs: seq<Record>, p: Record -> bool, a: Record -> bool, b: Record -> bool)
    requires forall r | r in rs :: (p(r) <==> a(r) || b(r)) && !(a(r) && b(r))
    ensures CountIf(rs, p) == CountIf(rs, a) + CountIf(rs, b)
  {
    if rs != [] {
      assert rs[0] in rs && forall r | r in rs[1..] :: r in rs;
      CountSplits(rs[1..], p, a, b);
    }
  }

  /** The attested samples of one option. */
  function Own(rs: seq<Record>, d: string): seq<Record> { Chose(Keep(Keep(rs, IsEligible), IsAttested), d) }

  function Known(d: string): Record -> bool { (r: Record) => Attests(r) && r.selectedOption == d }

  lemma OwnIsKnown(rs: seq<Record>, d: string)
    ensures Own(rs, d) == Keep(rs, Known(d))
  {
    KeepBoth(rs, IsEligible, IsAttested, Attests);
    KeepBoth(rs, Attests, (r: Record) => r.selectedOption == d, Known(d));
  }

  lemma OwnCounts(rs: seq<Record>, d: string)
    ensures |With(Own(rs, d), SUCCESS)| == CountIf(rs, Ending(d, SUCCESS))
    ensures |Own(rs, d)| == CountIf(rs, Ending(d, SUCCESS)) + CountIf(rs, Ending(d, FAILURE))
  {
    OwnIsKnown(rs, d);
    KeepTwiceCounts(rs, Known(d), (r: Record) => r.outcome == SUCCESS, Ending(d, SUCCESS));
    KeepCounts(rs, Known(d), Known(d));
    CountSplits(rs, Known(d), Ending(d, SUCCESS), Ending(d, FAILURE));
  }

  lemma RateOf(key: GroupKey, rs: seq<Record>)
    ensures var a := AggregateGroup(key, rs);
            a.dominantSuccessRate ==
            if a.dominantOption.None? || Own(rs, a.dominantOption.value) == [] then None
            else Some(Ratio(|With(Own(rs, a.dominantOption.value), SUCCESS)|, |Own(rs, a.dominantOption.value)|))
  {
  }

  /** The success rate is the share of successes among the dominant option's own samples with a known outcome. */
  lemma RateIsShareOfSuccess(key: GroupKey, rs: seq<Record>)
    ensures var a := AggregateGroup(key, rs);
            match a.dominantOption
            case None => a.dominantSuccessRate == None
            case Some(d) =>
              var known := CountIf(rs, Ending(d, SUCCESS)) + CountIf(rs, Ending(d, FAILURE));
              if known == 0 then a.dominantSuccessRate == None
              else a.dominantSuccessRate == Some(Ratio(CountIf(rs, Ending(d, SUCCESS)), known))
  {
    var a := AggregateGroup(key, rs);
    RateOf(key, rs);
    if a.dominantOption.Some? { OwnCounts(rs, a.dominantOption.value); }
  }

  // ---- what counts against ----

  /** A failure of the dominant option, or a success of another. */
  predicate Against(r: Record, d: string) {
    Usable(r) && if r.selectedOption == d then r.outcome == FAILURE else r.outcome == SUCCESS
  }

  ghost function AgainstIn(rs: seq<Record>, d: string): seq<Record> {
    var eligible := Keep(rs, IsEligible);
    With(Chose(eligible, d), FAILURE) + With(ChoseOther(eligible, d), SUCCESS)
  }

  function Winning(d: string): Record -> bool {
    (r: Record) => Usable(r) && r.selectedOption != d && r.outcome == SUCCESS
  }

  function ChoosingOther(d: string): Record -> bool {
    (r: Record) => Usable(r) && r.selectedOption != d
  }

  lemma FailuresOf(rs: seq<Record>, d: string)
    ensures With(Chose(Keep(rs, IsEligible), d), FAILURE) == Keep(rs, Ending(d, FAILURE))
  {
    KeepBoth(rs, IsEligible, (r: Record) => r.selectedOption == d, Choosing(d));
    KeepBoth(rs, Choosing(d), (r: Record) => r.outcome == FAILURE, Ending(d, FAILURE));
  }

  lemma SuccessesOfOthers(rs: seq<Record>, d: string)
    ensures With(ChoseOther(Keep(rs, IsEligible), d), SUCCESS) == Keep(rs, Winning(d))
  {
    KeepBoth(rs, IsEligible, (r: Record) => r.selectedOption != d, ChoosingOther(d));
    KeepBoth(rs, ChoosingOther(d), (r: Record) => r.outcome == SUCCESS, Winning(d));
  }

  lemma AgainstMembers(rs: seq<Record>, d: string)
    ensures forall r :: r in AgainstIn(rs, d) <==> r in rs && Against(r, d)
    ensures |AgainstIn(rs, d)| == CountIf(rs, r => Against(r, d))
  {
    FailuresOf(rs, d);
    SuccessesOfOthers(rs, d);
    KeepCounts(rs, Ending(d, FAILURE), Ending(d, FAILURE));
    KeepCounts(rs, Winning(d), Winning(d));
    CountSplits(rs, r => Against(r, d), Ending(d, FAILURE), Winning(d));
  }

  lemma CitedMembers(rs: seq<Record>, c: Counterexample)
    ensures c in Cited(rs) <==> exists r :: r in rs && AsCounterexample(r) == c
  {
    if c in Cited(rs) {
      var i :| 0 <= i < |rs| && Cited(rs)[i] == c;
      assert rs[i] in rs;
    }
    if r :| r in rs && AsCounterexample(r) == c {
      var i :| 0 <= i < |rs| && rs[i] == r;
      assert Cited(rs)[i] == c;
    }
  }

  lemma CounterexamplesOf(key: GroupKey, rs: seq<Record>)
    ensures var a := AggregateGroup(key, rs);
            a.counterexamples == if a.dominantOption.None? then [] else Sort(Cited(AgainstIn(rs, a.dominantOption.value)), CounterLe)
  {
  }

  /** The counterexamples are all records that count against the dominant option, each cited in full, and no others. */
  lemma CounterexamplesExactly(key: GroupKey, rs: seq<Record>, c: Counterexample)
    ensures var a := AggregateGroup(key, rs);
            match a.dominantOption
            case None => a.counterexamples == []
            case Some(d) =>
              && |a.counterexamples| == CountIf(rs, r => Against(r, d))
              && (c in a.counterexamples <==>
                    exists r :: r in rs && Against(r, d) && c.decisionId == r.decisionId && c.runId == r.runId
                                && Some(c.contextKey) == r.contextKey && c.selectedOption == r.selectedOption && c.outcome == r.outcome)
  {
    var a := AggregateGroup(key, rs);
    CounterexamplesOf(key, rs);
    if a.dominantOption.Some? {
      var d := a.dominantOption.value;
      var against := AgainstIn(rs, d);
      AgainstMembers(rs, d);
      SortMembers(Cited(against), CounterLe);
      CitedMembers(against, c);
    }
  }

  // ---- the two distributions ----

  /** Each option that was chosen, with how often. */
  lemma DistributionExactly(key: GroupKey, rs: seq<Record>, e: Count)
    ensures e in AggregateGroup(key, rs).optionDistribution <==> e.count > 0 && e.count == CountIf(rs, Choosing(e.key))
  {
    var keys := Selected(Keep(rs, IsEligible));
    TallyExactly(keys);
    ChosenTimes(rs, e.key);
    assert e.key in keys <==> multiset(keys)[e.key] > 0;
  }

  function OtherIn(d: string, context: string): Record -> bool {
    (r: Record) => Usable(r) && r.selectedOption != d && r.contextKey == Some(context)
  }

  lemma {:induction false} ContextCount(rs: seq<Record>, context: string)
    ensures multiset(Contexts(rs))[context] == CountIf(rs, (r: Record) => ContextOf(r) == context)
  {
    if rs != [] {
      ContextCount(rs[1..], context);
      assert Contexts(rs) == [ContextOf(rs[0])] + Contexts(rs[1..]);
    }
  }

  lemma OthersIn(rs: seq<Record>, d: string, context: string)
    ensures multiset(Contexts(ChoseOther(Keep(rs, IsEligible), d)))[context] == CountIf(rs, OtherIn(d, context))
  {
    KeepBoth(rs, IsEligible, (r: Record) => r.selectedOption != d, ChoosingOther(d));
    var others := Keep(rs, ChoosingOther(d));
    var here := (r: Record) => ContextOf(r) == context;
    ContextCount(others, context);
    KeepCounts(others, here, here);
    KeepTwiceCounts(rs, ChoosingOther(d), here, OtherIn(d, context));
  }

  /** Each context in which another option was chosen, with how often. */
  lemma ConcentrationExactly(key: GroupKey, rs: seq<Record>, e: Count)
    ensures var a := AggregateGroup(key, rs);
            match a.dominantOption
            case None => a.minorityConcentration == []
            case Some(d) => e in a.minorityConcentration <==> e.count > 0 && e.count == CountIf(rs, OtherIn(d, e.key))
  {
    var a := AggregateGroup(key, rs);
    if a.dominantOption.Some? {
      var keys := Contexts(ChoseOther(Keep(rs, IsEligible), a.dominantOption.value));
      TallyExactly(keys);
      OthersIn(rs, a.dominantOption.value, e.key);
      assert e.key in keys <==> multiset(keys)[e.key] > 0;
    }
  }

  // ---- one aggregate a group ----

  lemma {:induction false} KeepAppends<T(!new)>(xs: seq<T>, x: T, p: T -> bool)
    ensures Keep(xs + [x], p) == Keep(xs, p) + if p(x) then [x] else []
  {
    if xs == [] {
      assert xs + [x] == [x] && [x][1..] == [];
    } else {
      KeepAppends(xs[1..], x, p);
      assert (xs + [x])[1..] == xs[1..] + [x];
    }
  }

  lemma {:induction false} BucketIsGroup(rs: seq<Record>, s: string, k: GroupKey)
    requires forall r | r in rs :: SerialOf(r) == s <==> r.group == k
    ensures Having(rs, SerialOf, s) == Keep(rs, (r: Record) => r.group == k)
  {
    if rs != [] {
      var n := |rs| - 1;
      assert rs[n] in rs && forall r | r in rs[..n] :: r in rs;
      BucketIsGroup(rs[..n], s, k);
      KeepAppends(rs[..n], rs[n], (r: Record) => r.group == k);
      assert rs == rs[..n] + [rs[n]];
    }
  }

  /** The aggregate of the records of one group. */
  ghost function OfGroup(rs: seq<Record>, k: GroupKey): Aggregate {
    AggregateGroup(k, Keep(rs, (r: Record) => r.group == k))
  }

  lemma BucketOfGroup(rs: seq<Record>, r: Record)
    requires r in rs && KeysApart(rs)
    ensures BucketAggregate(Having(rs, SerialOf, SerialOf(r))) == OfGroup(rs, r.group)
  {
    BucketIsGroup(rs, SerialOf(r), r.group);
    var bucket := Having(rs, SerialOf, SerialOf(r));
    assert r in bucket && bucket[0] in bucket;
  }

  /** The aggregates are those of the groups that occur, each over all records of its group, and no others. */
  lemma OneAggregateAGroup(rs: seq<Record>, a: Aggregate)
    requires KeysApart(rs)
    ensures a in AggregateAll(rs) <==> exists r :: r in rs && a == OfGroup(rs, r.group)
  {
    GroupMapMembers(rs, SerialOf, BucketAggregate, a);
    forall r | r in rs ensures BucketAggregate(Having(rs, SerialOf, SerialOf(r))) == OfGroup(rs, r.group) { BucketOfGroup(rs, r); }
  }

  /** They come by context and then by decision. */
  lemma CounterexamplesAreSorted(key: GroupKey, rs: seq<Record>, i: nat, j: nat)
    requires DistinctIds(rs) && i < j < |AggregateGroup(key, rs).counterexamples|
    ensures var cs := AggregateGroup(key, rs).counterexamples;
            StrLe(cs[i].contextKey, cs[j].contextKey) && (cs[i].contextKey == cs[j].contextKey ==> StrLe(cs[i].decisionId, cs[j].decisionId))
  {
    CounterexamplesOf(key, rs);
    var d := AggregateGroup(key, rs).dominantOption.value;
    AgainstMembers(rs, d);
    CounterOrder(AgainstIn(rs, d));
    SortSorted(Cited(AgainstIn(rs, d)), CounterLe);
    var cs := Sort(Cited(AgainstIn(rs, d)), CounterLe);
    assert CounterLe(cs[i], cs[j]);
    StrTotal(cs[i].contextKey, cs[j].contextKey);
  }
}
