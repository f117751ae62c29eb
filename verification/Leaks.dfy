/**
 The groups that slip through a leaky configuration: their dominant option was never
 attested, and no gate fails.
 */
module Leaks {
  import opened Graph
  import opened Numbers
  import opened Sorting
  import opened Tallies
  import opened Aggregation
  import opened Shares
  import opened SafetyGates

  /** The option that leaks. It comes before every other by name. */
  const PLAIN := "a"

  /** Distinct names. */
  function Tag(i: nat): string { seq(i + 1, _ => 'x') }

  lemma TagsDiffer(i: nat, j: nat)
    ensures Tag(i) == Tag(j) <==> i == j
    ensures Tag(i) != PLAIN
  {
    assert |Tag(i)| == i + 1 && |Tag(j)| == j + 1;
    assert Tag(i)[0] == 'x';
  }

  /** The first `k` of `n` decisions choose the plain option and are never attested; every other one succeeds with an option of its own. */
  function LeakRecord(key: GroupKey, k: nat, i: nat): Record {
    Record(Tag(i), "run", false, key, Some(Tag(i)), if i < k then PLAIN else Tag(i), if i < k then UNKNOWN else SUCCESS)
  }

  function LeakRecords(key: GroupKey, k: nat, n: nat): (r: seq<Record>)
    ensures |r| == n
  {
    seq(n, i requires 0 <= i < n => LeakRecord(key, k, i))
  }

  lemma {:induction false} KeepAppends<T(!new)>(xs: seq<T>, x: T, p: T -> bool)
    ensures Keep(xs + [x], p) == Keep(xs, p) + if p(x) then [x] else []
  {
    if xs == [] {
      assert xs + [x] == [x] && [x][1..] == [];
    } else {
      assert (xs + [x])[1..] == xs[1..] + [x];
      KeepAppends(xs[1..], x, p);
    }
  }

  lemma {:induction false} KeepAll<T(!new)>(xs: seq<T>, p: T -> bool)
    requires forall x | x in xs :: p(x)
    ensures Keep(xs, p) == xs
  {
    if xs != [] {
      assert xs[0] in xs;
      assert forall x | x in xs[1..] :: x in xs;
      KeepAll(xs[1..], p);
    }
  }

  lemma LeakGrows(key: GroupKey, k: nat, n: nat)
    ensures LeakRecords(key, k, n + 1) == LeakRecords(key, k, n) + [LeakRecord(key, k, n)]
  {
  }

  function LeakOption(k: nat, i: nat): string { if i < k then PLAIN else Tag(i) }

  function LeakOptions(k: nat, n: nat): (r: seq<string>)
    ensures |r| == n
  {
    seq(n, i requires 0 <= i < n => LeakOption(k, i))
  }

  lemma LeakSelected(key: GroupKey, k: nat, n: nat)
    ensures Selected(LeakRecords(key, k, n)) == LeakOptions(k, n)
  {
    var rs := LeakRecords(key, k, n);
    forall i | 0 <= i < n ensures Selected(rs)[i] == LeakOption(k, i) {
      assert Selected(rs)[i] == OptionOf(rs[i]);
    }
  }

  /** The plain option is chosen `k` times, every other at most once, and none of the later names. */
  ghost predicate LeakChoices(chosen: multiset<string>, k: nat, n: nat) {
    && chosen[PLAIN] == (if k < n then k else n) && (forall o | o != PLAIN :: chosen[o] <= 1)
    && forall i: nat | n <= i :: chosen[Tag(i)] == 0
  }

  lemma LeakChoiceAdds(chosen: multiset<string>, k: nat, n: nat)
    requires LeakChoices(chosen, k, n)
    ensures LeakChoices(chosen + multiset{LeakOption(k, n)}, k, n + 1)
  {
    forall i: nat ensures Tag(i) != PLAIN && (i != n ==> Tag(i) != Tag(n)) { TagsDiffer(i, n); }
    assert chosen[Tag(n)] == 0;
  }

  lemma {:induction false} LeakCounts(k: nat, n: nat)
    ensures LeakChoices(multiset(LeakOptions(k, n)), k, n)
  {
    if n > 0 {
      LeakCounts(k, n - 1);
      assert LeakOptions(k, n) == LeakOptions(k, n - 1) + [LeakOption(k, n - 1)];
      LeakChoiceAdds(multiset(LeakOptions(k, n - 1)), k, n - 1);
    }
  }

  lemma {:induction false} LeakAttested(key: GroupKey, k: nat, n: nat)
    ensures |Keep(LeakRecords(key, k, n), IsAttested)| == if k < n then n - k else 0
  {
    if n > 0 {
      LeakAttested(key, k, n - 1);
      LeakGrows(key, k, n - 1);
      assert IsAttested(LeakRecord(key, k, n - 1)) <==> k <= n - 1;
      KeepAppends(LeakRecords(key, k, n - 1), LeakRecord(key, k, n - 1), IsAttested);
    }
  }

  lemma LeakContextList(key: GroupKey, k: nat, n: nat)
    ensures Contexts(LeakRecords(key, k, n)) == seq(n, i requires 0 <= i => Tag(i))
  {
    var rs := LeakRecords(key, k, n);
    forall i | 0 <= i < n ensures Contexts(rs)[i] == Tag(i) {
      assert Contexts(rs)[i] == ContextOf(rs[i]);
    }
  }

  lemma {:induction false} TagSet(n: nat)
    ensures |set i: nat | i < n :: Tag(i)| == n
  {
    var has := set i: nat | i < n :: Tag(i);
    if n > 0 {
      TagSet(n - 1);
      var had := set i: nat | i < n - 1 :: Tag(i);
      assert has == had + {Tag(n - 1)};
      forall i: nat | i < n - 1 ensures Tag(i) != Tag(n - 1) { TagsDiffer(i, n - 1); }
    }
  }

  lemma LeakContexts(key: GroupKey, k: nat, n: nat)
    ensures |set c | c in Contexts(LeakRecords(key, k, n))| == n
  {
    LeakContextList(key, k, n);
    TagSet(n);
    var tags := seq(n, i requires 0 <= i => Tag(i));
    forall i: nat | i < n ensures Tag(i) in tags { assert tags[i] == Tag(i); }
    assert (set c | c in tags) == set i: nat | i < n :: Tag(i);
  }

  lemma TagComesLater(i: nat)
    ensures !StrLe(Tag(i), PLAIN)
  {
    assert Codes(Tag(i))[0] == Tag(i)[0] as int && Codes(PLAIN)[0] == 'a' as int;
  }

  /** The plain option dominates: it is the most frequent, or ties and comes first by name. */
  lemma LeakDominant(key: GroupKey, k: nat, n: nat)
    requires 1 <= k <= n
    ensures var t := Tally(Selected(LeakRecords(key, k, n))); t != [] && t[0] == Count(PLAIN, k)
  {
    var keys := LeakOptions(k, n);
    LeakSelected(key, k, n);
    LeakCounts(k, n);
    TallyExactly(keys);
    var t := Tally(keys);
    assert PLAIN in multiset(keys);
    assert Count(PLAIN, k) in t;
    var i :| 0 <= i < |t| && t[i] == Count(PLAIN, k);
    assert t[0] in t;
    forall j: nat ensures !StrLe(Tag(j), PLAIN) { TagComesLater(j); }
    assert t[0].key in keys && (i > 0 ==> CountLe(t[0], t[i]));
  }

  /** The witness group: its dominant option holds `k` of `n` samples, none of them attested, and all others are. */
  lemma LeakAggregate(key: GroupKey, k: nat, n: nat)
    requires 1 <= k <= n
    ensures var a := AggregateGroup(key, LeakRecords(key, k, n));
            && a.sampleCount == n && a.distinctContextKeyCount == n && a.dominance == Ratio(k, n)
            && a.outcomeCoverage == Ratio(n - k, n) && a.dominantSuccessRate.None?
  {
    var rs := LeakRecords(key, k, n);
    KeepAll(rs, IsEligible);
    LeakAttested(key, k, n);
    LeakContexts(key, k, n);
    LeakDominant(key, k, n);
    NoLeakAttested(key, k, n);
  }

  lemma NoLeakAttested(key: GroupKey, k: nat, n: nat)
    ensures Chose(Keep(LeakRecords(key, k, n), IsAttested), PLAIN) == []
  {
    var rs := LeakRecords(key, k, n);
    var c := Chose(Keep(rs, IsAttested), PLAIN);
    forall r | r in rs ensures !(IsAttested(r) && r.selectedOption == PLAIN) {
      var i :| 0 <= i < |rs| && rs[i] == r;
      TagsDiffer(i, i);
    }
    assert multiset(c) == multiset{};
    assert |multiset(c)| == |c|;
  }

  /** The size of a group that leaks: `k` of `n` samples are enough to dominate, and few enough to leave the coverage. */
  lemma LeakSize(config: Config, p: int, q: int) returns (k: nat, n: nat)
    requires Leaky(config) && q > 0 && config.dominanceThreshold == p as real / q as real
    ensures 1 <= k <= n && n >= config.minSampleCount && n >= config.minDistinctContexts
    ensures config.dominanceThreshold * n as real <= k as real <= (1.0 - config.coverageThreshold) * n as real
  {
    var gap := 1.0 - config.coverageThreshold;
    var m := Scale(gap, config.minSampleCount, config.minDistinctContexts);
    ScaleFits(gap, config.minSampleCount, config.minDistinctContexts);
    var a;
    a, n := WholeShare(config.dominanceThreshold, p, q, m);
    k := Max(1, a);
    LeakFits(config.dominanceThreshold, gap, a, n, m);
  }

  lemma LeakGroup(key: GroupKey, config: Config, k: nat, n: nat)
    requires 1 <= k <= n && n >= config.minSampleCount && n >= config.minDistinctContexts
    requires Ratio(k, n) >= config.dominanceThreshold && Ratio(n - k, n) >= config.coverageThreshold
    ensures var e := EvaluateGates(AggregateGroup(key, LeakRecords(key, k, n)), config);
            e.candidate && !AllPass(e) && e.gates[3].status == NOT_APPLICABLE
  {
    LeakAggregate(key, k, n);
    UnattestedPasses(AggregateGroup(key, LeakRecords(key, k, n)), config);
  }

  /**
   Under every leaky configuration (dominance threshold p/q) some group is a CANDIDATE
   although its dominant option was never attested: G4 does not apply, and nothing
   fails. So the condition of the theorem above is exact.
   */
  lemma LeakyConfigsLeak(key: GroupKey, config: Config, p: int, q: int) returns (records: seq<Record>)
    requires Leaky(config) && q > 0 && config.dominanceThreshold == p as real / q as real
    ensures var e := EvaluateGates(AggregateGroup(key, records), config);
            e.candidate && !AllPass(e) && e.gates[3].status == NOT_APPLICABLE
  {
    var k, n := LeakSize(config, p, q);
    SharesFit(config.dominanceThreshold, config.coverageThreshold, k, n);
    LeakGroup(key, config, k, n);
    records := LeakRecords(key, k, n);
  }

  lemma UnattestedPasses(a: Aggregate, config: Config)
    requires a.sampleCount >= config.minSampleCount && a.distinctContextKeyCount >= config.minDistinctContexts
    requires a.dominance >= config.dominanceThreshold && a.outcomeCoverage >= config.coverageThreshold
    requires a.dominantSuccessRate.None?
    ensures var e := EvaluateGates(a, config);
            e.candidate && !AllPass(e) && e.gates[3].status == NOT_APPLICABLE
  {
    GateReading(a, config);
  }
}
