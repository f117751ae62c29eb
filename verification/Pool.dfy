/**
 The execution-strategy evaluator (`playground/strategy/evaluator.ts`): twelve rules,
 all of which must pass before more than one task may run at a time.
 */
module Strategy {
  import opened Graph
  import opened Numbers

  datatype TriBool = Yes | No | Unknown

  datatype RiskLevel = Low | Medium | High | UnknownRisk

  datatype Topology = Topology(taskCount: nat, runnableTaskCount: nat, dependencyCount: nat,
                               unresolvedDependencyCount: nat, dependenciesKnown: TriBool)

  datatype Resources = Resources(claimedResourceCount: nat, conflictingResourceCount: nat,
                                 conflictsChecked: TriBool, sharedMutableState: TriBool)

  datatype Ready = Ready(requirementsComplete: TriBool, contractsStable: TriBool, validationAvailable: TriBool,
                         independentlyValidatable: TriBool, independentlyReversible: TriBool)

  datatype Limits = Limits(requestedConcurrency: nat, availableConcurrency: nat)

  /** A context that was read in full. */
  datatype Context = Context(topology: Topology, resources: Resources, readiness: Ready, limits: Limits, risk: RiskLevel)

  datatype Code =
    | ContextInvalid
    | InsufficientRunnableTasks
    | DependenciesNotKnown
    | UnresolvedDependencies
    | ConflictingResourceClaims
    | UnsafeSharedMutableState
    | RequirementsIncomplete
    | ContractsUnstable
    | ValidationUnavailable
    | NotIndependentlyValidatable
    | NotIndependentlyReversible
    | InsufficientAvailableConcurrency
    | RiskPolicyRequiresSerialization
    | InsufficientEffectiveConcurrency

  datatype RuleCheck = RuleCheck(code: Code, passed: bool)

  function RunRules(c: Context): (r: seq<RuleCheck>)
    ensures |r| == 12
  {
    [ RuleCheck(InsufficientRunnableTasks, c.topology.runnableTaskCount >= 2),
      RuleCheck(DependenciesNotKnown,
                c.topology.dependenciesKnown == Yes && c.topology.unresolvedDependencyCount <= c.topology.dependencyCount),
      RuleCheck(UnresolvedDependencies, c.topology.unresolvedDependencyCount == 0),
      RuleCheck(ConflictingResourceClaims, c.resources.conflictsChecked == Yes && c.resources.conflictingResourceCount == 0),
      RuleCheck(UnsafeSharedMutableState, c.resources.sharedMutableState == No),
      RuleCheck(RequirementsIncomplete, c.readiness.requirementsComplete == Yes),
      RuleCheck(ContractsUnstable, c.readiness.contractsStable == Yes),
      RuleCheck(ValidationUnavailable, c.readiness.validationAvailable == Yes),
      RuleCheck(NotIndependentlyValidatable, c.readiness.independentlyValidatable == Yes),
      RuleCheck(NotIndependentlyReversible, c.readiness.independentlyReversible == Yes),
      RuleCheck(InsufficientAvailableConcurrency, c.limits.availableConcurrency >= 2),
      RuleCheck(RiskPolicyRequiresSerialization, c.risk == Low || c.risk == Medium) ]
  }

  /** The caller's bound: absent, an integer, or something that is not one. */
  datatype MaxConcurrency = Default | Integer(n: int) | NotAnInteger

  datatype Evaluation = Evaluation(eligible: bool, blockers: seq<Code>, requested: nat, effective: int)

  datatype Outcome = Evaluated(e: Evaluation) | TypeError

  const DEFAULT_MAX_CONCURRENCY := 4

  function CodeOf(check: RuleCheck): Code { check.code }

  function Codes(checks: seq<RuleCheck>): (r: seq<Code>)
    ensures |r| == |checks|
  {
    seq(|checks|, i requires 0 <= i < |checks| => CodeOf(checks[i]))
  }

  function Bound(max: MaxConcurrency): int
    requires !max.NotAnInteger?
  {
    if max.Integer? then max.n else DEFAULT_MAX_CONCURRENCY
  }

  function Floor(c: Context, max: MaxConcurrency): int
    requires !max.NotAnInteger?
  {
    Max(1, Min(Min(c.limits.requestedConcurrency, c.limits.availableConcurrency),
               Min(c.topology.runnableTaskCount, Bound(max))))
  }

  function EvaluateExecutionStrategy(context: Option<Context>, max: MaxConcurrency): Outcome {
    if max.NotAnInteger? then TypeError
    else if context.None? then Evaluated(Evaluation(false, [ContextInvalid], 0, 1))
    else
      var c := context.value;
      var failed := Codes(Keep(RunRules(c), (check: RuleCheck) => !check.passed));
      var floor := Floor(c, max);
      var blockers := failed + if failed == [] && floor < 2 then [InsufficientEffectiveConcurrency] else [];
      Evaluated(Evaluation(blockers == [], blockers, c.limits.requestedConcurrency, if blockers == [] then floor else 1))
  }

  ghost predicate AllTwelvePass(c: Context) {
    forall check | check in RunRules(c) :: check.passed
  }

  /** What fails each rule. */
  predicate FailsRule(c: Context, code: Code) {
    match code
    case ContextInvalid => false
    case InsufficientRunnableTasks => c.topology.runnableTaskCount < 2
    case DependenciesNotKnown => c.topology.dependenciesKnown != Yes || c.topology.unresolvedDependencyCount > c.topology.dependencyCount
    case UnresolvedDependencies => c.topology.unresolvedDependencyCount > 0
    case ConflictingResourceClaims => c.resources.conflictsChecked != Yes || c.resources.conflictingResourceCount > 0
    case UnsafeSharedMutableState => c.resources.sharedMutableState != No
    case RequirementsIncomplete => c.readiness.requirementsComplete != Yes
    case ContractsUnstable => c.readiness.contractsStable != Yes
    case ValidationUnavailable => c.readiness.validationAvailable != Yes
    case NotIndependentlyValidatable => c.readiness.independentlyValidatable != Yes
    case NotIndependentlyReversible => c.readiness.independentlyReversible != Yes
    case InsufficientAvailableConcurrency => c.limits.availableConcurrency < 2
    case RiskPolicyRequiresSerialization => c.risk == High || c.risk == UnknownRisk
    case InsufficientEffectiveConcurrency => false
  }

  lemma RulesByCode(c: Context, check: RuleCheck)
    requires check in RunRules(c)
    ensures check.passed <==> !FailsRule(c, check.code)
  {
  }

  lemma EveryRuleIsRun(c: Context, code: Code) returns (check: RuleCheck)
    requires code != ContextInvalid && code != InsufficientEffectiveConcurrency
    ensures check in RunRules(c) && check.code == code
  {
    var r := RunRules(c);
    var i := match code
             case InsufficientRunnableTasks => 0
             case DependenciesNotKnown => 1
             case UnresolvedDependencies => 2
             case ConflictingResourceClaims => 3
             case UnsafeSharedMutableState => 4
             case RequirementsIncomplete => 5
             case ContractsUnstable => 6
             case ValidationUnavailable => 7
             case NotIndependentlyValidatable => 8
             case NotIndependentlyReversible => 9
             case InsufficientAvailableConcurrency => 10
             case _ => 11;
    check := r[i];
  }

  lemma CodesMembers(checks: seq<RuleCheck>, code: Code)
    ensures code in Codes(checks) <==> exists check :: check in checks && check.code == code
  {
    if code in Codes(checks) {
      var i :| 0 <= i < |checks| && Codes(checks)[i] == code;
      assert checks[i] in checks;
    }
    if check :| check in checks && check.code == code {
      var i :| 0 <= i < |checks| && checks[i] == check;
      assert Codes(checks)[i] == code;
    }
  }

  function FailedCodes(c: Context): seq<Code> { Codes(Keep(RunRules(c), (check: RuleCheck) => !check.passed)) }

  /** A rule's code is among the failed ones exactly if the context fails it. */
  lemma FailedExactly(c: Context, code: Code)
    ensures code in FailedCodes(c) <==> FailsRule(c, code)
  {
    var failed := Keep(RunRules(c), (check: RuleCheck) => !check.passed);
    CodesMembers(failed, code);
    if code in FailedCodes(c) {
      var check :| check in failed && check.code == code;
      RulesByCode(c, check);
    }
    if FailsRule(c, code) {
      var check := EveryRuleIsRun(c, code);
      RulesByCode(c, check);
      assert check in failed;
    }
  }

  /**
   The blockers are exactly the rules that the context fails, or, if it fails none, that
   one of the bounds leaves no room for two; and without blockers the concurrency is the
   least of the four bounds.
   */
  lemma BlockersExactly(c: Context, max: MaxConcurrency, code: Code)
    requires !max.NotAnInteger?
    ensures max.Default? ==> Bound(max) == 4
    ensures var e := EvaluateExecutionStrategy(Some(c), max).e;
            && (code in e.blockers <==>
                  FailsRule(c, code)
                  || (code == InsufficientEffectiveConcurrency && FailedCodes(c) == [] && (c.limits.requestedConcurrency < 2 || Bound(max) < 2)))
            && (e.blockers == [] ==>
                  && e.effective in {c.limits.requestedConcurrency, c.limits.availableConcurrency, c.topology.runnableTaskCount, Bound(max)}
                  && e.effective <= c.limits.requestedConcurrency && e.effective <= c.limits.availableConcurrency
                  && e.effective <= c.topology.runnableTaskCount && e.effective <= Bound(max))
  {
    FailedExactly(c, code);
    FailedExactly(c, InsufficientRunnableTasks);
    FailedExactly(c, InsufficientAvailableConcurrency);
    BlockersAre(c, max);
  }

  lemma BlockersAre(c: Context, max: MaxConcurrency)
    requires !max.NotAnInteger?
    ensures var e := EvaluateExecutionStrategy(Some(c), max).e;
            && e.blockers == FailedCodes(c) + (if FailedCodes(c) == [] && Floor(c, max) < 2 then [InsufficientEffectiveConcurrency] else [])
            && (e.blockers == [] ==> e.effective == Floor(c, max))
  {
  }

  /**
   More than one at a time exactly when the context was read, all twelve rules pass and
   every one of the four bounds leaves room for two; then no bound is exceeded.
   */
  lemma ParallelIsEarned(context: Option<Context>, max: MaxConcurrency)
    requires !max.NotAnInteger?
    ensures var e := EvaluateExecutionStrategy(context, max).e;
            && e.effective >= 1
            && (e.eligible <==> e.effective >= 2)
            && (e.effective >= 2 <==>
                  context.Some? && AllTwelvePass(context.value)
                  && context.value.limits.requestedConcurrency >= 2 && Bound(max) >= 2)
            && (e.effective >= 2 ==>
                  e.effective <= context.value.limits.requestedConcurrency
                  && e.effective <= context.value.limits.availableConcurrency
                  && e.effective <= context.value.topology.runnableTaskCount && e.effective <= Bound(max))
  {
    if context.Some? {
      var c := context.value;
      var rules := RunRules(c);
      var failing := Keep(rules, (check: RuleCheck) => !check.passed);
      assert failing == [] <==> AllTwelvePass(c) by {
        if failing == [] {
          forall check | check in rules ensures check.passed { assert check !in failing; }
        } else {
          assert failing[0] in failing;
        }
      }
      assert AllTwelvePass(c) ==> c.topology.runnableTaskCount >= 2 && c.limits.availableConcurrency >= 2 by {
        assert rules[0] in rules && rules[10] in rules;
      }
    }
  }
}

/**
 The worker pool of the Execute phase (`playground/agents/mock-agent.ts`): several
 loops share one cursor and one result list, and give way to each other whenever one
 of them waits for its task.
 */
module Pool {
  import opened Graph
  import opened Numbers
  import opened Strategy

  datatype Worker = Idle | Busy(index: nat) | Stopped

  /** `claims` is the history of indices taken from the cursor, in order. */
  datatype State<R> = State(cursor: nat, workers: seq<Worker>, results: map<nat, R>, claims: seq<nat>)

  function WorkerCount(limit: int, n: nat): nat { Max(1, Min(limit, n)) }

  /** From the head of the loop to the next wait: take an index, or stop. */
  function Claim<T, R>(items: seq<Option<T>>, s: State<R>, w: nat): State<R>
    requires w < |s.workers|
  {
    if s.cursor >= |items| then s.(workers := s.workers[w := Stopped])
    else
      var next := s.(cursor := s.cursor + 1, claims := s.claims + [s.cursor]);
      next.(workers := s.workers[w := if items[s.cursor].None? then Stopped else Busy(s.cursor)])
  }

  /** The task a worker waits for is done. */
  function Finish<R>(s: State<R>, w: nat, r: R): State<R>
    requires w < |s.workers| && s.workers[w].Busy?
  {
    s.(results := s.results[s.workers[w].index := r], workers := s.workers[w := Idle])
  }

  datatype Event<R> = Claims(w: nat) | Finishes(w: nat, r: R)

  /** The step is possible, and a result is one the task can produce. */
  ghost predicate Enabled<T, R>(items: seq<Option<T>>, produces: (T, R) -> bool, s: State<R>, e: Event<R>) {
    e.w < |s.workers|
    && match e
       case Claims(w) => s.workers[w].Idle?
       case Finishes(w, r) =>
         s.workers[w].Busy? && s.workers[w].index < |items| && items[s.workers[w].index].Some?
         && produces(items[s.workers[w].index].value, r)
  }

  function Step<T, R>(items: seq<Option<T>>, s: State<R>, e: Event<R>): State<R>
    requires e.w < |s.workers| && (e.Finishes? ==> s.workers[e.w].Busy?)
  {
    match e
    case Claims(w) => Claim(items, s, w)
    case Finishes(w, r) => Finish(s, w, r)
  }

  function Start<R>(workers: nat): State<R> {
    State(0, seq(workers, _ => Idle), map[], [])
  }

  ghost predicate HasBusy(workers: seq<Worker>, i: nat) {
    exists w :: 0 <= w < |workers| && workers[w] == Busy(i)
  }

  /** Every claimed index is in exactly one place: waiting in one worker, among the results, or an item that was undefined. */
  ghost predicate Valid<T, R>(items: seq<Option<T>>, produces: (T, R) -> bool, s: State<R>) {
    && s.cursor <= |items|
    && |s.claims| == s.cursor && (forall i | 0 <= i < s.cursor :: s.claims[i] == i)
    && (forall v, w | 0 <= v < w < |s.workers| && s.workers[v].Busy? :: s.workers[v] != s.workers[w])
    && (forall w | 0 <= w < |s.workers| && s.workers[w].Busy? ::
          s.workers[w].index < s.cursor && items[s.workers[w].index].Some? && s.workers[w].index !in s.results)
    && (forall i | i in s.results :: i < s.cursor && items[i].Some? && produces(items[i].value, s.results[i]))
    && (forall i: nat | i < s.cursor && items[i].Some? && i !in s.results :: HasBusy(s.workers, i))
  }

  function Undefined<T>(items: seq<Option<T>>, n: nat): (u: nat)
    requires n <= |items|
    ensures u <= n
  {
    if n == 0 then 0 else Undefined(items, n - 1) + if items[n - 1].None? then 1 else 0
  }

  function StoppedCount(workers: seq<Worker>): (n: nat)
    ensures n <= |workers|
  {
    if workers == [] then 0
    else StoppedCount(workers[..|workers| - 1]) + if workers[|workers| - 1].Stopped? then 1 else 0
  }

  lemma {:induction false} AllStopped(workers: seq<Worker>)
    ensures StoppedCount(workers) == |workers| <==> forall w | 0 <= w < |workers| :: workers[w].Stopped?
  {
    if workers != [] {
      var n := |workers| - 1;
      AllStopped(workers[..n]);
      assert forall w | 0 <= w < n :: workers[..n][w] == workers[w];
    }
  }

  /** While indices are left a worker stops only at an undefined item; and as long as indices are taken, some worker has not stopped. */
  ghost predicate StoppedForCause<T, R>(items: seq<Option<T>>, s: State<R>) {
    && s.cursor <= |items|
    && (s.cursor < |items| ==> StoppedCount(s.workers) == Undefined(items, s.cursor))
    && (s.cursor > 0 ==> Undefined(items, s.cursor - 1) < |s.workers|)
  }

  lemma {:induction false} StoppedUpdate(workers: seq<Worker>, w: nat, to: Worker)
    requires w < |workers| && !workers[w].Stopped?
    ensures StoppedCount(workers[w := to]) == StoppedCount(workers) + if to.Stopped? then 1 else 0
  {
    var n := |workers| - 1;
    if w == n {
      assert workers[w := to][..n] == workers[..n];
    } else {
      StoppedUpdate(workers[..n], w, to);
      assert workers[w := to][..n] == workers[..n][w := to];
    }
  }

  lemma {:induction false} NoneStopped(n: nat)
    ensures StoppedCount(seq(n, _ => Idle)) == 0
  {
    if n > 0 {
      NoneStopped(n - 1);
      assert seq(n, _ => Idle)[..n - 1] == seq(n - 1, _ => Idle);
    }
  }

  lemma StartIsValid<T, R>(items: seq<Option<T>>, produces: (T, R) -> bool, n: nat)
    ensures Valid(items, produces, Start<R>(n)) && StoppedForCause(items, Start<R>(n))
  {
    NoneStopped(n);
  }

  lemma BusyStays(workers: seq<Worker>, w: nat, to: Worker, i: nat)
    requires w < |workers| && HasBusy(workers, i) && workers[w] != Busy(i)
    ensures HasBusy(workers[w := to], i)
  {
    var v :| 0 <= v < |workers| && workers[v] == Busy(i);
    assert workers[w := to][v] == Busy(i);
  }

  lemma ClaimKeeps<T, R>(items: seq<Option<T>>, produces: (T, R) -> bool, s: State<R>, w: nat)
    requires Valid(items, produces, s) && w < |s.workers| && s.workers[w].Idle?
    ensures Valid(items, produces, Claim(items, s, w))
  {
    var t := Claim(items, s, w);
    forall i: nat | i < t.cursor && items[i].Some? && i !in t.results ensures HasBusy(t.workers, i) {
      if i < s.cursor {
        BusyStays(s.workers, w, t.workers[w], i);
      } else {
        assert t.workers[w] == Busy(i);
      }
    }
  }

  lemma FinishKeeps<T, R>(items: seq<Option<T>>, produces: (T, R) -> bool, s: State<R>, w: nat, r: R)
    requires Valid(items, produces, s) && Enabled(items, produces, s, Finishes(w, r))
    ensures Valid(items, produces, Finish(s, w, r))
  {
    var t, k := Finish(s, w, r), s.workers[w].index;
    forall i: nat | i < t.cursor && items[i].Some? && i !in t.results ensures HasBusy(t.workers, i) {
      BusyStays(s.workers, w, Idle, i);
    }
  }

  lemma ClaimCause<T, R>(items: seq<Option<T>>, s: State<R>, w: nat)
    requires StoppedForCause(items, s) && w < |s.workers| && s.workers[w].Idle?
    ensures StoppedForCause(items, Claim(items, s, w))
  {
    var t := Claim(items, s, w);
    StoppedUpdate(s.workers, w, t.workers[w]);
    AllStopped(s.workers);
    assert StoppedCount(s.workers) < |s.workers|;
    if s.cursor < |items| {
      assert Undefined(items, t.cursor) == Undefined(items, s.cursor) + if items[s.cursor].None? then 1 else 0;
    }
  }

  lemma FinishCause<T, R>(items: seq<Option<T>>, s: State<R>, w: nat, r: R)
    requires StoppedForCause(items, s) && w < |s.workers| && s.workers[w].Busy?
    ensures StoppedForCause(items, Finish(s, w, r))
  {
    StoppedUpdate(s.workers, w, Idle);
  }

  // ---- whole runs, in every interleaving ----

  ghost predicate IsRun<T, R>(items: seq<Option<T>>, produces: (T, R) -> bool, s: State<R>, events: seq<Event<R>>)
    decreases |events|
  {
    events == [] || (Enabled(items, produces, s, events[0]) && IsRun(items, produces, Step(items, s, events[0]), events[1..]))
  }

  ghost function After<T, R>(items: seq<Option<T>>, produces: (T, R) -> bool, s: State<R>, events: seq<Event<R>>): State<R>
    requires IsRun(items, produces, s, events)
    decreases |events|
  {
    if events == [] then s else After(items, produces, Step(items, s, events[0]), events[1..])
  }

  function Weight(w: Worker): nat {
    match w case Stopped => 0 case Idle => 1 case Busy(_) => 2
  }

  function Weights(workers: seq<Worker>): nat {
    if workers == [] then 0 else Weights(workers[..|workers| - 1]) + Weight(workers[|workers| - 1])
  }

  lemma {:induction false} WeightsUpdate(workers: seq<Worker>, w: nat, to: Worker)
    requires w < |workers|
    ensures Weights(workers[w := to]) + Weight(workers[w]) == Weights(workers) + Weight(to)
  {
    var n := |workers| - 1;
    if w == n {
      assert workers[w := to][..n] == workers[..n];
    } else {
      WeightsUpdate(workers[..n], w, to);
      assert workers[w := to][..n] == workers[..n][w := to];
    }
  }

  /** What is left to do: two steps for each index not yet claimed, and what each worker still has to do. */
  function Left<T, R>(items: seq<Option<T>>, s: State<R>): nat
    requires s.cursor <= |items|
  {
    2 * (|items| - s.cursor) + Weights(s.workers)
  }

  /** Every step does exactly one unit of work, and three when it meets an undefined item. */
  lemma StepWorks<T, R>(items: seq<Option<T>>, produces: (T, R) -> bool, s: State<R>, e: Event<R>)
    requires Valid(items, produces, s) && Enabled(items, produces, s, e)
    ensures var t := Step(items, s, e);
            t.cursor <= |items|
            && Left(items, t) == Left(items, s)
               - if e.Claims? && s.cursor < |items| && items[s.cursor].None? then 3 else 1
  {
    WeightsUpdate(s.workers, e.w, Step(items, s, e).workers[e.w]);
  }

  /** The indices workers wait for. */
  ghost function Indices(workers: seq<Worker>): (r: set<nat>)
    ensures |r| <= |workers|
    ensures forall i :: i in r <==> HasBusy(workers, i)
  {
    if workers == [] then {}
    else
      var n := |workers| - 1;
      var before := Indices(workers[..n]);
      assert forall i :: HasBusy(workers, i) <==> HasBusy(workers[..n], i) || workers[n] == Busy(i) by {
        forall i ensures HasBusy(workers, i) <==> HasBusy(workers[..n], i) || workers[n] == Busy(i) {
          if HasBusy(workers, i) {
            var w :| 0 <= w < |workers| && workers[w] == Busy(i);
            assert w < n ==> workers[..n][w] == Busy(i);
          }
        }
      }
      before + if workers[n].Busy? then {workers[n].index} else {}
  }

  ghost function Flying<R>(s: State<R>): set<nat> { Indices(s.workers) }

  ghost predicate Ended<R>(s: State<R>) {
    forall w | 0 <= w < |s.workers| :: s.workers[w].Stopped?
  }

  /** In every interleaving the pool keeps its promises, and no run is longer than the work there is. */
  lemma {:induction false} RunsAreSafe<T, R>(items: seq<Option<T>>, produces: (T, R) -> bool, s: State<R>, events: seq<Event<R>>)
    requires Valid(items, produces, s) && StoppedForCause(items, s) && IsRun(items, produces, s, events)
    ensures var t := After(items, produces, s, events);
            && Valid(items, produces, t) && StoppedForCause(items, t) && |t.workers| == |s.workers|
            && |events| + Left(items, t) <= Left(items, s)
    decreases |events|
  {
    if events != [] {
      var e := events[0];
      match e {
        case Claims(w) =>
          ClaimKeeps(items, produces, s, w);
          ClaimCause(items, s, w);
        case Finishes(w, r) =>
          FinishKeeps(items, produces, s, w, r);
          FinishCause(items, s, w, r);
      }
      StepWorks(items, produces, s, e);
      RunsAreSafe(items, produces, Step(items, s, e), events[1..]);
    }
  }

  /** How far `workers` workers get: to the end, or to just behind the undefined item that stops the last of them. */
  ghost predicate Reached<T>(items: seq<Option<T>>, workers: nat, c: nat) {
    && c <= |items| && (c == |items| || Undefined(items, c) == workers)
    && (c > 0 ==> Undefined(items, c - 1) < workers)
  }

  lemma {:induction false} UndefinedGrows<T>(items: seq<Option<T>>, m: nat, n: nat)
    requires m <= n <= |items|
    ensures Undefined(items, m) <= Undefined(items, n)
  {
    if m < n { UndefinedGrows(items, m, n - 1); }
  }

  /** That is one place. */
  lemma ReachedOnce<T>(items: seq<Option<T>>, workers: nat, c: nat, d: nat)
    requires Reached(items, workers, c) && Reached(items, workers, d)
    ensures c == d
  {
    if c < d { UndefinedGrows(items, c, d - 1); }
    if d < c { UndefinedGrows(items, d, c - 1); }
  }

  lemma {:induction false} AllDefined<T>(items: seq<Option<T>>, n: nat)
    requires n <= |items|
    ensures Undefined(items, n) == 0 <==> forall i | 0 <= i < n :: items[i].Some?
  {
    if n > 0 { AllDefined(items, n - 1); }
  }

  /** With no undefined item that place is the end. */
  lemma ReachedEnd<T>(items: seq<Option<T>>, workers: nat, c: nat)
    requires Reached(items, workers, c) && workers > 0
    ensures (forall i | 0 <= i < |items| :: items[i].Some?) ==> c == |items|
  {
    if forall i | 0 <= i < |items| :: items[i].Some? { AllDefined(items, c); }
  }

  /** At the end, exactly the defined items up to where the workers got have their result: all of them if none is undefined. */
  lemma EndIsComplete<T, R>(items: seq<Option<T>>, produces: (T, R) -> bool, s: State<R>)
    requires Valid(items, produces, s) && StoppedForCause(items, s) && s.workers != [] && Ended(s)
    ensures Reached(items, |s.workers|, s.cursor)
    ensures forall i: nat :: i in s.results <==> i < s.cursor && items[i].Some?
    ensures (forall i | 0 <= i < |items| :: i in s.results) <==> (forall i | 0 <= i < |items| :: items[i].Some?)
  {
    AllStopped(s.workers);
    forall i: nat | i < s.cursor && items[i].Some? ensures i in s.results {
      assert !HasBusy(s.workers, i);
    }
    ReachedEnd(items, |s.workers|, s.cursor);
  }

  /**
   Over every interleaving of the pool: no more tasks are in flight than the limit,
   whichever index is in flight was claimed and has no result yet, the claims are
   0, 1, 2, … without gap or repeat, and each result is one its own item produces.
   */
  lemma PoolIsBounded<T, R>(items: seq<Option<T>>, limit: int, produces: (T, R) -> bool, events: seq<Event<R>>)
    requires IsRun(items, produces, Start<R>(WorkerCount(limit, |items|)), events)
    ensures var t := After(items, produces, Start<R>(WorkerCount(limit, |items|)), events);
            && |Flying(t)| <= Max(1, limit)
            && (forall i | i in Flying(t) :: i < t.cursor && i !in t.results)
            && |t.claims| == t.cursor && (forall i | 0 <= i < t.cursor :: t.claims[i] == i)
            && (forall i | i in t.results :: i < |items| && items[i].Some? && produces(items[i].value, t.results[i]))
            && |events| <= 2 * |items| + WorkerCount(limit, |items|)
  {
    var n := WorkerCount(limit, |items|);
    var s := Start<R>(n);
    StartIsValid(items, produces, n);
    RunsAreSafe(items, produces, s, events);
    AllIdle(n);
    FlyingIsClaimed(items, produces, After(items, produces, s, events));
  }

  lemma FlyingIsClaimed<T, R>(items: seq<Option<T>>, produces: (T, R) -> bool, s: State<R>)
    requires Valid(items, produces, s)
    ensures |Flying(s)| <= |s.workers| && forall i | i in Flying(s) :: i < s.cursor && i !in s.results
  {
    forall i | i in Flying(s) ensures i < s.cursor && i !in s.results {
      assert HasBusy(s.workers, i);
    }
  }

  lemma {:induction false} AllIdle(n: nat)
    ensures Weights(seq(n, _ => Idle)) == n
  {
    if n > 0 {
      AllIdle(n - 1);
      var workers := seq(n, _ => Idle);
      assert workers[..n - 1] == seq(n - 1, _ => Idle);
    }
  }

  /** Two tasks in flight mean that all twelve rules passed, and that no bound of the context is exceeded. */
  lemma TwoInFlightAreEarned<T, R>(items: seq<Option<T>>, context: Option<Context>, max: MaxConcurrency,
                                   produces: (T, R) -> bool, events: seq<Event<R>>)
    requires !max.NotAnInteger?
    requires var limit := EvaluateExecutionStrategy(context, max).e.effective;
             IsRun(items, produces, Start<R>(WorkerCount(limit, |items|)), events)
    ensures var limit := EvaluateExecutionStrategy(context, max).e.effective;
            var t := After(items, produces, Start<R>(WorkerCount(limit, |items|)), events);
            && |Flying(t)| <= limit
            && (|Flying(t)| >= 2 ==>
                  context.Some? && AllTwelvePass(context.value) && |Flying(t)| <= context.value.limits.availableConcurrency)
  {
    var limit := EvaluateExecutionStrategy(context, max).e.effective;
    ParallelIsEarned(context, max);
    PoolIsBounded(items, limit, produces, events);
  }

  /** With a single worker the tasks run one after the other: when one is in flight, all others claimed have their result. */
  lemma OneWorkerIsSequential<T, R>(items: seq<Option<T>>, produces: (T, R) -> bool, s: State<R>, i: nat)
    requires Valid(items, produces, s) && |s.workers| == 1 && s.workers[0] == Busy(i)
    ensures forall k: nat | k < s.cursor && k != i && items[k].Some? :: k in s.results
  {
    assert forall k: nat | k != i :: !HasBusy(s.workers, k);
  }

  // ---- the pool as a program ----

  /** Some worker that can go on: the one asked for, or another. */
  method NextToRun(workers: seq<Worker>, k: nat) returns (w: nat)
    requires exists v :: 0 <= v < |workers| && !workers[v].Stopped?
    ensures w < |workers| && !workers[w].Stopped?
    ensures !workers[k % |workers|].Stopped? ==> w == k % |workers|
  {
    w := k % |workers|;
    if workers[w].Stopped? {
      w := 0;
      while workers[w].Stopped?
        invariant w < |workers| && forall v | 0 <= v < w :: workers[v].Stopped?
        decreases |workers| - w
      {
        w := w + 1;
      }
    }
  }

  predicate SomeActive(workers: seq<Worker>) { exists v :: 0 <= v < |workers| && !workers[v].Stopped? }

  /**
   Under every schedule (`pick` says which worker's wait ends next, `worker` what a task
   gives at that time) the pool ends, with the own result of each defined item up to
   where the workers got, which is every item if none is undefined.
   */
  method RunWithConcurrency<T, R>(items: seq<Option<T>>, limit: int, pick: nat -> nat, worker: (nat, T) -> R,
                                  ghost produces: (T, R) -> bool) returns (results: map<nat, R>, ghost reached: nat)
    requires forall time, item :: produces(item, worker(time, item))
    ensures Reached(items, WorkerCount(limit, |items|), reached)
    ensures forall i: nat :: i in results <==> i < reached && items[i].Some?
    ensures forall i | i in results :: i < |items| && items[i].Some? && produces(items[i].value, results[i])
    ensures (forall i | 0 <= i < |items| :: i in results) <==> (forall i | 0 <= i < |items| :: items[i].Some?)
  {
    var cursor := 0;
    var workers := seq(WorkerCount(limit, |items|), _ => Idle);
    results := map[];
    var time := 0;
    ghost var claims: seq<nat> := [];
    StartIsValid(items, produces, WorkerCount(limit, |items|));
    while SomeActive(workers)
      invariant |workers| == WorkerCount(limit, |items|)
      invariant Valid(items, produces, State(cursor, workers, results, claims))
      invariant StoppedForCause(items, State(cursor, workers, results, claims))
      decreases Left(items, State(cursor, workers, results, claims))
    {
      ghost var s := State(cursor, workers, results, claims);
      var w := NextToRun(workers, pick(time));
      time := time + 1;
      if workers[w].Busy? {
        var index := workers[w].index;
        var r := worker(time, items[index].value);
        FinishKeeps(items, produces, s, w, r);
        FinishCause(items, s, w, r);
        StepWorks(items, produces, s, Finishes(w, r));
        results := results[index := r];
        workers := workers[w := Idle];
      } else {
        ClaimKeeps(items, produces, s, w);
        ClaimCause(items, s, w);
        StepWorks(items, produces, s, Claims(w));
        var index := cursor;
        if index >= |items| {
          workers := workers[w := Stopped];
        } else {
          cursor := cursor + 1;
          claims := claims + [index];
          workers := workers[w := if items[index].None? then Stopped else Busy(index)];
        }
      }
    }
    EndIsComplete(items, produces, State(cursor, workers, results, claims));
    reached := cursor;
  }
}
