/**
 Repeated failed actions (`platform/analysis-engine/src/repeated-failed-action.ts`):
 three or more failed calls in a row of one tool, with one input, in one run.
 */
module Streaks {
  import opened Graph
  import opened Sorting
  import opened Lists
  import opened Tallies
  import opened Quoting
  import opened CanonicalForm

  datatype Outcome = SUCCESS | FAILED

  datatype Call = Call(id: Text, runId: Text, toolName: Text, fingerprint: Text,
                       outcome: Outcome, errorType: Option<Text>, occurredAt: Text)

  datatype Emission = Emission(runId: Text, toolName: Text, fingerprint: Text, attemptCount: nat, ids: seq<Text>)

  const MIN_CONSECUTIVE_FAILURES := 3

  predicate IsFailed(c: Call) { c.outcome == FAILED || c.errorType.Some? }

  function IdOf(c: Call): Text { c.id }

  predicate OccurredLe(a: Call, b: Call) { CodesLe(a.occurredAt, b.occurredAt) }

  // ---- the streak key ----

  function KeyText(runId: Text, toolName: Text, fingerprint: Text): Text {
    Enclosed(OPEN_LIST, [Quote(runId), Quote(toolName), Quote(fingerprint)], CLOSE_LIST)
  }

  function StreakKey(c: Call): Text { KeyText(c.runId, c.toolName, c.fingerprint) }

  function EmissionKey(e: Emission): Text { KeyText(e.runId, e.toolName, e.fingerprint) }

  lemma JoinThree(a: Text, b: Text, c: Text, before: Unit, after: Unit)
    ensures Enclosed(before, [a, b, c], after)[1..] == a + ([COMMA] + (b + ([COMMA] + (c + [after]))))
  {
    assert [a, b, c][1..] == [b, c] && [b, c][1..] == [c];
    assert Join([b, c], [COMMA]) == b + [COMMA] + c;
    assert Join([a, b, c], [COMMA]) == a + [COMMA] + (b + [COMMA] + c);
  }

  lemma KeyTextParts(r: Text, t: Text, f: Text)
    ensures KeyText(r, t, f)[1..] == Quote(r) + ([COMMA] + (Quote(t) + ([COMMA] + (Quote(f) + [CLOSE_LIST]))))
  {
    JoinThree(Quote(r), Quote(t), Quote(f), OPEN_LIST, CLOSE_LIST);
  }

  lemma KeyTextIsInjective(r: Text, t: Text, f: Text, r': Text, t': Text, f': Text)
    ensures KeyText(r, t, f) == KeyText(r', t', f') <==> r == r' && t == t' && f == f'
  {
    if KeyText(r, t, f) == KeyText(r', t', f') {
      KeyTextParts(r, t, f);
      KeyTextParts(r', t', f');
      var last, last' := Quote(f) + [CLOSE_LIST], Quote(f') + [CLOSE_LIST];
      var mid, mid' := Quote(t) + ([COMMA] + last), Quote(t') + ([COMMA] + last');
      QuoteIsInjective(r, [COMMA] + mid, r', [COMMA] + mid');
      assert ([COMMA] + mid)[1..] == mid && ([COMMA] + mid')[1..] == mid';
      QuoteIsInjective(t, [COMMA] + last, t', [COMMA] + last');
      assert ([COMMA] + last)[1..] == last && ([COMMA] + last')[1..] == last';
      QuoteIsInjective(f, [CLOSE_LIST], f', [CLOSE_LIST]);
    }
  }

  /** One text for one run, tool and input. */
  predicate SameAction(a: Call, b: Call) {
    a.runId == b.runId && a.toolName == b.toolName && a.fingerprint == b.fingerprint
  }

  lemma SameKeyIsSameAction(a: Call, b: Call)
    ensures StreakKey(a) == StreakKey(b) <==> SameAction(a, b)
  {
    KeyTextIsInjective(a.runId, a.toolName, a.fingerprint, b.runId, b.toolName, b.fingerprint);
  }

  // ---- the walk over one key's calls ----

  /** A streak `[from, to)` of positions. */
  datatype Streak = Streak(from: nat, to: nat)

  function EmissionOf(calls: seq<Call>): Emission
    requires calls != []
  {
    Emission(calls[0].runId, calls[0].toolName, calls[0].fingerprint, |calls|, Mapped(calls, IdOf))
  }

  predicate Within(s: Streak, n: nat) { s.from < s.to <= n }

  /** The calls of a streak. */
  function Cut(calls: seq<Call>, s: Streak): seq<Call> {
    if Within(s, |calls|) then calls[s.from..s.to] else []
  }

  /** A streak's emission; a streak without calls has none. */
  function Emit(calls: seq<Call>, s: Streak): seq<Emission> {
    if Within(s, |calls|) then [EmissionOf(calls[s.from..s.to])] else []
  }

  function Flush(from: nat, to: nat): seq<Streak> {
    if to >= from + MIN_CONSECUTIVE_FAILURES then [Streak(from, to)] else []
  }

  /** The streaks that end at `i` or later, when the calls from `from` up to `i` have failed. */
  function StreaksFrom(calls: seq<Call>, i: nat, from: nat): (r: seq<Streak>)
    requires from <= i <= |calls|
    decreases |calls| - i
  {
    if i == |calls| then Flush(from, i)
    else if IsFailed(calls[i]) then StreaksFrom(calls, i + 1, from)
    else Flush(from, i) + StreaksFrom(calls, i + 1, i + 1)
  }

  function StreaksIn(ordered: seq<Call>): seq<Emission> {
    Gather(StreaksFrom(ordered, 0, 0), s => Emit(ordered, s))
  }

  method FlushStreak(streak: seq<Call>, found: seq<Emission>) returns (r: seq<Emission>)
    ensures r == if |streak| >= MIN_CONSECUTIVE_FAILURES then found + [EmissionOf(streak)] else found
  {
    r := found;
    if |streak| >= MIN_CONSECUTIVE_FAILURES {
      var first := streak[0];
      r := found + [Emission(first.runId, first.toolName, first.fingerprint, |streak|, Mapped(streak, IdOf))];
    }
  }

  lemma FlushedEmissions(calls: seq<Call>, from: nat, to: nat, more: seq<Streak>)
    requires from <= to <= |calls|
    ensures var f := s => Emit(calls, s);
            Gather(Flush(from, to) + more, f)
            == (if to - from >= MIN_CONSECUTIVE_FAILURES then [EmissionOf(calls[from..to])] else []) + Gather(more, f)
  {
    var f := s => Emit(calls, s);
    GatherSplits(Flush(from, to), more, f);
    if to - from >= MIN_CONSECUTIVE_FAILURES {
      GatherOne(Streak(from, to), f);
    }
  }

  /** Found so far, and open: together with what is still to come they are all the streaks. */
  ghost predicate Walked(ordered: seq<Call>, i: nat, from: nat, streak: seq<Call>, found: seq<Emission>) {
    from <= i <= |ordered| && streak == ordered[from..i]
    && StreaksIn(ordered) == found + Gather(StreaksFrom(ordered, i, from), s => Emit(ordered, s))
  }

  lemma WalkFails(ordered: seq<Call>, i: nat, from: nat, streak: seq<Call>, found: seq<Emission>)
    requires i < |ordered| && IsFailed(ordered[i]) && Walked(ordered, i, from, streak, found)
    ensures Walked(ordered, i + 1, from, streak + [ordered[i]], found)
  {
  }

  lemma WalkFlushes(ordered: seq<Call>, i: nat, from: nat, streak: seq<Call>, found: seq<Emission>)
    requires i < |ordered| && !IsFailed(ordered[i]) && Walked(ordered, i, from, streak, found)
    ensures Walked(ordered, i + 1, i + 1, [], if |streak| >= MIN_CONSECUTIVE_FAILURES then found + [EmissionOf(streak)] else found)
  {
    var more := StreaksFrom(ordered, i + 1, i + 1);
    assert StreaksFrom(ordered, i, from) == Flush(from, i) + more;
    FlushedEmissions(ordered, from, i, more);
  }

  lemma WalkEnds(ordered: seq<Call>, from: nat, streak: seq<Call>, found: seq<Emission>)
    requires Walked(ordered, |ordered|, from, streak, found)
    ensures StreaksIn(ordered) == if |streak| >= MIN_CONSECUTIVE_FAILURES then found + [EmissionOf(streak)] else found
  {
    FlushedEmissions(ordered, from, |ordered|, []);
    assert Flush(from, |ordered|) + [] == Flush(from, |ordered|);
  }

  method FindStreaks(ordered: seq<Call>) returns (found: seq<Emission>)
    ensures found == StreaksIn(ordered)
  {
    found := [];
    var streak: seq<Call> := [];
    ghost var from := 0;
    for i := 0 to |ordered|
      invariant Walked(ordered, i, from, streak, found)
    {
      if IsFailed(ordered[i]) {
        WalkFails(ordered, i, from, streak, found);
        streak := streak + [ordered[i]];
      } else {
        WalkFlushes(ordered, i, from, streak, found);
        found := FlushStreak(streak, found);
        streak := [];
        from := i + 1;
      }
    }
    WalkEnds(ordered, from, streak, found);
    found := FlushStreak(streak, found);
  }

  // ---- the streaks are the maximal runs of failures ----

  ghost predicate AllFailed(calls: seq<Call>, from: nat, to: nat) {
    from <= to <= |calls| && forall k | from <= k < to :: IsFailed(calls[k])
  }

  /** Failures that no failure touches on either side. */
  ghost predicate MaximalRun(calls: seq<Call>, s: Streak) {
    Within(s, |calls|) && AllFailed(calls, s.from, s.to)
    && (s.from == 0 || !IsFailed(calls[s.from - 1])) && (s.to == |calls| || !IsFailed(calls[s.to]))
  }

  ghost predicate LongRun(calls: seq<Call>, s: Streak) {
    MaximalRun(calls, s) && s.to - s.from >= 3
  }

  /** Each ends before the next begins. */
  ghost predicate Apart(streaks: seq<Streak>) {
    forall i, j | 0 <= i < j < |streaks| :: streaks[i].to < streaks[j].from
  }

  /** Position `i` with the failures from `from` behind it. */
  ghost predicate Scanned(calls: seq<Call>, i: nat, from: nat) {
    AllFailed(calls, from, i) && (from == 0 || !IsFailed(calls[from - 1]))
  }

  ghost predicate RunsEnd(calls: seq<Call>, i: nat) {
    i == |calls| || (i < |calls| && !IsFailed(calls[i]))
  }

  lemma RunStarts(calls: seq<Call>, i: nat, from: nat, s: Streak)
    requires Scanned(calls, i, from) && MaximalRun(calls, s) && s.to == i
    ensures s.from == from
  {
  }

  lemma FlushExactly(calls: seq<Call>, i: nat, from: nat)
    requires Scanned(calls, i, from) && RunsEnd(calls, i)
    ensures forall s :: s in Flush(from, i) <==> LongRun(calls, s) && s.to == i
  {
    forall s | LongRun(calls, s) && s.to == i ensures s == Streak(from, i) { RunStarts(calls, i, from, s); }
  }

  ghost predicate Exactly(calls: seq<Call>, streaks: seq<Streak>, i: nat, from: nat) {
    && (forall s :: s in streaks <==> LongRun(calls, s) && s.to >= i)
    && Apart(streaks) && forall s | s in streaks :: s.from >= from
  }

  lemma ApartAppends(first: seq<Streak>, streaks: seq<Streak>, i: nat)
    requires |first| <= 1 && (forall s | s in first :: s.to <= i)
    requires Apart(streaks) && forall s | s in streaks :: s.from > i
    ensures Apart(first + streaks)
  {
    var all, n := first + streaks, |first|;
    forall j, k | 0 <= j < k < |all| ensures all[j].to < all[k].from {
      assert all[k] == streaks[k - n] && streaks[k - n] in streaks;
      if j < n { assert all[j] == first[j] && first[j] in first; } else { assert all[j] == streaks[j - n]; }
    }
  }

  lemma ExactlyAppends(calls: seq<Call>, streaks: seq<Streak>, i: nat, from: nat)
    requires Scanned(calls, i, from) && RunsEnd(calls, i) && Exactly(calls, streaks, i + 1, i + 1)
    ensures Exactly(calls, Flush(from, i) + streaks, i, from)
  {
    FlushExactly(calls, i, from);
    var all := Flush(from, i) + streaks;
    forall s ensures s in all <==> LongRun(calls, s) && s.to >= i {
      assert s in all <==> s in Flush(from, i) || s in streaks;
    }
    ApartAppends(Flush(from, i), streaks, i);
  }

  /** From position `i` on, the walk finds every maximal run of three or more that ends at `i` or later, once and in order. */
  lemma {:induction false} StreaksFromExactly(calls: seq<Call>, i: nat, from: nat)
    requires Scanned(calls, i, from)
    ensures Exactly(calls, StreaksFrom(calls, i, from), i, from)
    decreases |calls| - i
  {
    if i == |calls| {
      FlushExactly(calls, i, from);
    } else if IsFailed(calls[i]) {
      StreaksFromExactly(calls, i + 1, from);
      assert forall s | LongRun(calls, s) :: s.to != i;
    } else {
      StreaksFromExactly(calls, i + 1, i + 1);
      ExactlyAppends(calls, StreaksFrom(calls, i + 1, i + 1), i, from);
      assert StreaksFrom(calls, i, from) == Flush(from, i) + StreaksFrom(calls, i + 1, i + 1);
    }
  }

  /** Over one key's calls, the streaks are exactly the maximal runs of three or more failures, in order. */
  lemma StreaksAreMaximalRuns(ordered: seq<Call>)
    ensures var streaks := StreaksFrom(ordered, 0, 0);
            Apart(streaks) && forall s :: s in streaks <==> LongRun(ordered, s)
  {
    StreaksFromExactly(ordered, 0, 0);
  }

  // ---- all keys ----

  function Ordered(calls: seq<Call>, key: Text): seq<Call> { Sort(Having(calls, StreakKey, key), OccurredLe) }

  function KeysOf(calls: seq<Call>): seq<Text> { FirstSeen(Mapped(calls, StreakKey)) }

  /** The emissions of the calls with this key. */
  function Bucket(calls: seq<Call>, key: Text): seq<Emission> { StreaksIn(Ordered(calls, key)) }

  function Detect(calls: seq<Call>): seq<Emission> {
    Gather(KeysOf(calls), key => Bucket(calls, key))
  }

  method DetectRepeatedFailedActions(calls: seq<Call>) returns (emissions: seq<Emission>)
    ensures emissions == Detect(calls)
  {
    var keys, buckets := Group(calls, StreakKey);
    emissions := [];
    for i := 0 to |keys|
      invariant emissions == Gather(keys[..i], key => Bucket(calls, key))
    {
      assert keys[i] in keys;
      var found := FindStreaks(Sort(buckets[keys[i]], OccurredLe));
      GatherNext(keys, i, key => Bucket(calls, key));
      emissions := emissions + found;
    }
    assert keys[..|keys|] == keys;
  }

  // ---- keys do not disturb each other ----

  lemma {:induction false} KeepSplits<T(!new)>(xs: seq<T>, ys: seq<T>, p: T -> bool)
    ensures Keep(xs + ys, p) == Keep(xs, p) + Keep(ys, p)
  {
    if xs == [] {
      assert xs + ys == ys;
    } else {
      assert (xs + ys)[1..] == xs[1..] + ys;
      KeepSplits(xs[1..], ys, p);
    }
  }

  /** When what is gathered shows where it came from, keeping one source's part gives exactly what that source gave. */
  lemma {:induction false} GatherKeeps<T, U(!new)>(xs: seq<T>, f: T -> seq<U>, p: U -> bool, x: T)
    requires Distinct(xs) && forall z, y | z in xs && y in f(z) :: p(y) <==> z == x
    ensures Keep(Gather(xs, f), p) == if x in xs then f(x) else []
  {
    if xs != [] {
      var n := |xs| - 1;
      assert forall z | z in xs[..n] :: z in xs;
      GatherKeeps(xs[..n], f, p, x);
      KeepSplits(Gather(xs[..n], f), f(xs[n]), p);
      assert xs[n] in xs && xs == xs[..n] + [xs[n]];
      KeepAllOrNone(f(xs[n]), p, xs[n] == x);
    }
  }

  lemma OrderedMembers(calls: seq<Call>, key: Text)
    ensures forall c :: c in Ordered(calls, key) ==> c in calls && StreakKey(c) == key
    ensures key !in Mapped(calls, StreakKey) ==> Ordered(calls, key) == []
  {
    HavingLabel(calls, StreakKey, key);
    SortMembers(Having(calls, StreakKey, key), OccurredLe);
  }

  lemma StreaksInMembers(ordered: seq<Call>, e: Emission)
    ensures e in StreaksIn(ordered) <==> exists s :: LongRun(ordered, s) && e == EmissionOf(ordered[s.from..s.to])
  {
    var streaks := StreaksFrom(ordered, 0, 0);
    StreaksAreMaximalRuns(ordered);
    var f := s => Emit(ordered, s);
    GatherMembers(streaks, f, e);
    if e in StreaksIn(ordered) {
      var s :| s in streaks && e in f(s);
      assert LongRun(ordered, s) && e == EmissionOf(ordered[s.from..s.to]);
    }
    if s :| LongRun(ordered, s) && e == EmissionOf(ordered[s.from..s.to]) {
      assert s in streaks && e in f(s);
    }
  }

  /** A key's calls emit only under that key. */
  lemma BucketKey(calls: seq<Call>, key: Text, e: Emission)
    requires e in Bucket(calls, key)
    ensures EmissionKey(e) == key
  {
    var ordered := Ordered(calls, key);
    OrderedMembers(calls, key);
    StreaksInMembers(ordered, e);
    var s :| LongRun(ordered, s) && e == EmissionOf(ordered[s.from..s.to]);
    assert ordered[s.from..s.to][0] == ordered[s.from] && ordered[s.from] in ordered;
  }

  predicate HasKey(e: Emission, key: Text) { EmissionKey(e) == key }

  /** The emissions under a key are those of its own calls, whatever other calls there are. */
  lemma KeyIsIndependent(calls: seq<Call>, key: Text)
    ensures Keep(Detect(calls), e => HasKey(e, key)) == Bucket(calls, key)
  {
    var f, p := (k: Text) => Bucket(calls, k), (e: Emission) => HasKey(e, key);
    forall k, e | k in KeysOf(calls) && e in f(k) ensures p(e) <==> k == key { BucketKey(calls, k, e); }
    GatherKeeps(KeysOf(calls), f, p, key);
    OrderedMembers(calls, key);
  }

  /** Calls of other keys, anywhere in the list, change none of a key's emissions. */
  lemma OtherKeysDoNotMatter(calls: seq<Call>, others: seq<Call>, key: Text)
    requires Having(calls, StreakKey, key) == Having(others, StreakKey, key)
    ensures Keep(Detect(calls), e => HasKey(e, key)) == Keep(Detect(others), e => HasKey(e, key))
  {
    KeyIsIndependent(calls, key);
    KeyIsIndependent(others, key);
  }

  // ---- exactly the maximal runs of each action ----

  /** The calls of the same run, tool and input as `c`, by time. */
  ghost function SameActionCalls(calls: seq<Call>, c: Call): seq<Call> { Ordered(calls, StreakKey(c)) }

  /** They are all of them and no others. */
  lemma SameActionCallsExactly(calls: seq<Call>, c: Call, d: Call)
    ensures multiset(SameActionCalls(calls, c))[d] == if SameAction(d, c) then multiset(calls)[d] else 0
    ensures Sorted(OccurredLe, SameActionCalls(calls, c))
  {
    var bucket := Having(calls, StreakKey, StreakKey(c));
    OccurredOrder(bucket);
    SortSorted(bucket, OccurredLe);
    SortPermutes(bucket, OccurredLe);
    HavingMultiset(calls, StreakKey, StreakKey(c), d);
    SameKeyIsSameAction(d, c);
  }

  ghost predicate IsFinding(calls: seq<Call>, e: Emission, c: Call, s: Streak) {
    c in calls && LongRun(SameActionCalls(calls, c), s) && e == EmissionOf(SameActionCalls(calls, c)[s.from..s.to])
  }

  /** A call has failed exactly if its outcome is not a success or it names an error. */
  lemma FailedExactly(c: Call)
    ensures IsFailed(c) <==> !(c.outcome == SUCCESS && c.errorType == None)
  {
  }

  /** Attempt `k` of the emission is the failed call `d`, of the same run, tool and input. */
  ghost predicate Names(calls: seq<Call>, e: Emission, k: int, d: Call) {
    && 0 <= k < |e.ids| && d in calls && d.id == e.ids[k]
    && d.runId == e.runId && d.toolName == e.toolName && d.fingerprint == e.fingerprint
    && !(d.outcome == SUCCESS && d.errorType == None)
  }

  lemma FailureNamed(calls: seq<Call>, e: Emission, c: Call, s: Streak, k: int) returns (d: Call)
    requires IsFinding(calls, e, c, s) && 0 <= k < |e.ids|
    ensures Names(calls, e, k, d)
  {
    var own := SameActionCalls(calls, c);
    var run := own[s.from..s.to];
    d := own[s.from + k];
    assert run[k] == d && run[0] == own[s.from] && e.ids[k] == IdOf(run[k]);
    assert d in multiset(own) && own[s.from] in multiset(own);
    SameActionCallsExactly(calls, c, d);
    SameActionCallsExactly(calls, c, own[s.from]);
    assert d in multiset(calls);
  }

  /** What an emission says: at least three failed calls, all of the run, tool and input it names, counted. */
  lemma EmissionMeans(calls: seq<Call>, e: Emission, k: nat) returns (d: Call)
    requires e in Detect(calls)
    ensures e.attemptCount == |e.ids| >= 3 && (k < |e.ids| ==> Names(calls, e, k, d))
  {
    DetectExactly(calls, e);
    var c, s :| IsFinding(calls, e, c, s);
    d := c;
    if k < |e.ids| { d := FailureNamed(calls, e, c, s, k); }
  }

  lemma KeyHasCall(calls: seq<Call>, key: Text)
    ensures key in KeysOf(calls) <==> exists c :: c in calls && StreakKey(c) == key
  {
    var keys := Mapped(calls, StreakKey);
    if key in keys {
      var i :| 0 <= i < |keys| && keys[i] == key;
      assert calls[i] in calls && StreakKey(calls[i]) == key;
    }
    if c :| c in calls && StreakKey(c) == key {
      var i :| 0 <= i < |calls| && calls[i] == c;
      assert keys[i] == key;
    }
  }

  /** What is emitted is exactly the maximal runs of three or more failures of one run, tool and input. */
  lemma DetectExactly(calls: seq<Call>, e: Emission)
    ensures e in Detect(calls) <==> exists c, s :: IsFinding(calls, e, c, s)
  {
    var f := (k: Text) => Bucket(calls, k);
    GatherMembers(KeysOf(calls), f, e);
    if e in Detect(calls) {
      var key :| key in KeysOf(calls) && e in f(key);
      KeyHasCall(calls, key);
      var c :| c in calls && StreakKey(c) == key;
      StreaksInMembers(Ordered(calls, key), e);
      var s :| LongRun(Ordered(calls, key), s) && e == EmissionOf(Ordered(calls, key)[s.from..s.to]);
      assert IsFinding(calls, e, c, s);
    }
    if c, s :| IsFinding(calls, e, c, s) {
      StreaksInMembers(SameActionCalls(calls, c), e);
      KeyHasCall(calls, StreakKey(c));
      assert e in f(StreakKey(c));
    }
  }

  // ---- no call is emitted twice ----

  /** The calls a key's streaks cover. */
  function CoveredBy(ordered: seq<Call>): seq<Call> {
    Gather(StreaksFrom(ordered, 0, 0), s => Cut(ordered, s))
  }

  function Covered(calls: seq<Call>): seq<Call> {
    Gather(KeysOf(calls), key => CoveredBy(Ordered(calls, key)))
  }

  /** The attempts all emissions list, in order. */
  function Evidence(emissions: seq<Emission>): seq<Text> {
    Gather(emissions, (e: Emission) => e.ids)
  }

  lemma CutAtEnd(calls: seq<Call>, s: Streak, bound: nat)
    requires s.from < s.to <= bound <= |calls|
    ensures multiset(calls[..s.from]) + multiset(Cut(calls, s)) <= multiset(calls[..bound])
  {
    assert calls[..bound] == calls[..s.from] + calls[s.from..s.to] + calls[s.to..bound];
  }

  /** Streaks that lie apart and before `bound` cover only calls before it, each at most once. */
  lemma {:induction false} ApartCoverOnce(calls: seq<Call>, streaks: seq<Streak>, bound: nat)
    requires Apart(streaks) && bound <= |calls| && forall s | s in streaks :: Within(s, bound)
    ensures multiset(Gather(streaks, s => Cut(calls, s))) <= multiset(calls[..bound])
  {
    if streaks != [] {
      var n := |streaks| - 1;
      var s := streaks[n];
      assert s in streaks;
      forall r | r in streaks[..n] ensures Within(r, s.from) {
        var i :| 0 <= i < n && streaks[i] == r;
        assert r in streaks;
      }
      ApartCoverOnce(calls, streaks[..n], s.from);
      CutAtEnd(calls, s, bound);
    }
  }

  lemma CoveredOnce(ordered: seq<Call>)
    ensures multiset(CoveredBy(ordered)) <= multiset(ordered)
  {
    StreaksAreMaximalRuns(ordered);
    ApartCoverOnce(ordered, StreaksFrom(ordered, 0, 0), |ordered|);
    assert ordered[..|ordered|] == ordered;
  }

  lemma CoveredInKey(calls: seq<Call>, key: Text, c: Call)
    ensures multiset(CoveredBy(Ordered(calls, key)))[c] <= if StreakKey(c) == key then multiset(calls)[c] else 0
  {
    CoveredOnce(Ordered(calls, key));
    SortPermutes(Having(calls, StreakKey, key), OccurredLe);
    HavingMultiset(calls, StreakKey, key, c);
  }

  lemma {:induction false} GatherAtMost<T, U>(xs: seq<T>, f: T -> seq<U>, y: U, home: T, most: nat)
    requires Distinct(xs) && forall x | x in xs :: multiset(f(x))[y] <= if x == home then most else 0
    ensures multiset(Gather(xs, f))[y] <= if home in xs then most else 0
  {
    if xs != [] {
      var n := |xs| - 1;
      assert forall x | x in xs[..n] :: x in xs;
      GatherAtMost(xs[..n], f, y, home, most);
      assert xs[n] in xs && xs == xs[..n] + [xs[n]];
    }
  }

  lemma {:induction false} GatherEvidence<T>(xs: seq<T>, f: T -> seq<Emission>, g: T -> seq<Call>)
    requires forall x | x in xs :: Evidence(f(x)) == Mapped(g(x), IdOf)
    ensures Evidence(Gather(xs, f)) == Mapped(Gather(xs, g), IdOf)
  {
    if xs != [] {
      var n := |xs| - 1;
      assert forall x | x in xs[..n] :: x in xs;
      assert xs[n] in xs;
      GatherEvidence(xs[..n], f, g);
      GatherSplits(Gather(xs[..n], f), f(xs[n]), (e: Emission) => e.ids);
    }
  }

  lemma StreakEvidence(calls: seq<Call>, s: Streak)
    ensures Evidence(Emit(calls, s)) == Mapped(Cut(calls, s), IdOf)
  {
    if Within(s, |calls|) {
      var e := EmissionOf(calls[s.from..s.to]);
      GatherOne(e, (e: Emission) => e.ids);
    }
  }

  lemma KeyEvidence(ordered: seq<Call>)
    ensures Evidence(StreaksIn(ordered)) == Mapped(CoveredBy(ordered), IdOf)
  {
    forall s: Streak ensures Evidence(Emit(ordered, s)) == Mapped(Cut(ordered, s), IdOf) { StreakEvidence(ordered, s); }
    GatherEvidence(StreaksFrom(ordered, 0, 0), s => Emit(ordered, s), s => Cut(ordered, s));
  }

  /** The attempts listed by all emissions together are calls of the input, none of them more often than it occurs there. */
  lemma EachCallAtMostOnce(calls: seq<Call>)
    ensures Evidence(Detect(calls)) == Mapped(Covered(calls), IdOf)
    ensures multiset(Covered(calls)) <= multiset(calls)
  {
    var keys := KeysOf(calls);
    var f, g := (k: Text) => Bucket(calls, k), (k: Text) => CoveredBy(Ordered(calls, k));
    forall k | k in keys ensures Evidence(f(k)) == Mapped(g(k), IdOf) { KeyEvidence(Ordered(calls, k)); }
    GatherEvidence(keys, f, g);
    forall c ensures multiset(Covered(calls))[c] <= multiset(calls)[c] {
      forall k | k in keys ensures multiset(g(k))[c] <= if k == StreakKey(c) then multiset(calls)[c] else 0 {
        CoveredInKey(calls, k, c);
      }
      GatherAtMost(keys, g, c, StreakKey(c), multiset(calls)[c]);
    }
  }

  // ---- arrival order ----

  lemma OccurredOrder(calls: seq<Call>)
    ensures Total(OccurredLe, calls) && Transitive(OccurredLe, calls)
  {
    forall x, y | x in calls && y in calls ensures OccurredLe(x, y) || OccurredLe(y, x) {
      CodesTotal(x.occurredAt, y.occurredAt);
    }
    forall x, y, z | x in calls && y in calls && z in calls && OccurredLe(x, y) && OccurredLe(y, z) ensures OccurredLe(x, z) {
      CodesTransitive(x.occurredAt, y.occurredAt, z.occurredAt);
    }
  }

  /** When no two calls of a key happened at the same time, the order in which they arrive does not matter to its emissions. */
  lemma ArrivalDoesNotMatter(calls: seq<Call>, shuffled: seq<Call>, key: Text)
    requires multiset(calls) == multiset(shuffled)
    requires forall a, b | a in calls && b in calls && StreakKey(a) == key && StreakKey(b) == key :: a.occurredAt == b.occurredAt ==> a == b
    ensures Keep(Detect(calls), e => HasKey(e, key)) == Keep(Detect(shuffled), e => HasKey(e, key))
  {
    KeyIsIndependent(calls, key);
    KeyIsIndependent(shuffled, key);
    var bucket, other := Having(calls, StreakKey, key), Having(shuffled, StreakKey, key);
    HavingPermutes(calls, shuffled, StreakKey, key);
    HavingLabel(calls, StreakKey, key);
    OccurredOrder(bucket);
    forall a, b | a in bucket && b in bucket && OccurredLe(a, b) && OccurredLe(b, a) ensures a == b {
      CodesAntisymmetric(a.occurredAt, b.occurredAt);
    }
    SortIgnoresOrder(bucket, other, OccurredLe);
  }
}
