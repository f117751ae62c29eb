/**
 Parallel eligibility and lane ownership (`scripts/lanes.ts`): fifteen hard
 requirements decide whether a batch may run in parallel, and a path check decides
 what each lane may commit. The theorem of the module runs from the first to the
 second.
 */
module Lanes {
  import opened Graph
  import opened Sorting
  import opened Glob
  import opened Numbers
  import Order

  datatype Risk = Low | Medium | High

  datatype Unit = Unit(taskId: string, risk: Option<Risk>, changeClass: Option<string>,
                       dependsOn: seq<string>, criteria: seq<string>, commands: seq<string>,
                       allowed: seq<string>, forbidden: seq<string>,
                       unresolvedDeps: seq<string>, inBatchDeps: seq<string>, unknownDeps: seq<string>,
                       openDecisions: seq<string>, hasPacketSource: bool)

  datatype Policy = Policy(maxConcurrency: int, minUnits: int,
                           sharedWriteSurfaces: seq<string>, serialiseIfTouches: seq<string>)

  datatype Repo = Repo(isGitRepo: bool, operationInProgress: Option<string>,
                       conflicted: seq<string>, dirty: seq<string>)

  datatype Requirement = R1 | R2 | R3 | R4 | R5 | R6 | R7 | R8 | R9 | R10 | R11 | R12 | R13 | R14 | R15

  const REQUIREMENTS: seq<Requirement> := [R1, R2, R3, R4, R5, R6, R7, R8, R9, R10, R11, R12, R13, R14, R15]

  /** One verdict a requirement, R1 to R15. */
  datatype Gate = Gate(enough: bool, criteria: bool, commands: bool, known: bool, antichain: bool, frozen: bool,
                       disjoint: bool, unrepeated: bool, unshared: bool, validatable: bool, revertable: bool,
                       worthwhile: bool, safeRepo: bool, bounded: bool, unserialised: bool)
  {
    predicate Holds(r: Requirement) {
      match r
      case R1 => enough
      case R2 => criteria
      case R3 => commands
      case R4 => known
      case R5 => antichain
      case R6 => frozen
      case R7 => disjoint
      case R8 => unrepeated
      case R9 => unshared
      case R10 => validatable
      case R11 => revertable
      case R12 => worthwhile
      case R13 => safeRepo
      case R14 => bounded
      case R15 => unserialised
    }

    predicate Passed() {
      enough && criteria && commands && known && antichain && frozen && disjoint && unrepeated && unshared
      && validatable && revertable && worthwhile && safeRepo && bounded && unserialised
    }

    function FailedOf(rs: seq<Requirement>): (r: seq<Requirement>)
      ensures forall q :: q in r <==> q in rs && !Holds(q)
      ensures r == [] <==> forall q | q in rs :: Holds(q)
    {
      var failed := Keep(rs, r => !Holds(r));
      assert failed != [] ==> failed[0] in failed;
      failed
    }

    /** The failed requirements, in order; none exactly when the gate passed. */
    function Blockers(): (r: seq<Requirement>)
      ensures r == [] <==> Passed()
      ensures forall q :: q in r <==> !Holds(q)
    {
      AllListed();
      PassedExactly(this);
      FailedOf(REQUIREMENTS)
    }
  }

  lemma PassedExactly(g: Gate)
    ensures g.Passed() <==> forall r :: g.Holds(r)
  {
    if forall r :: g.Holds(r) {
      assert g.Holds(R1) && g.Holds(R2) && g.Holds(R3) && g.Holds(R4) && g.Holds(R5) && g.Holds(R6) && g.Holds(R7) && g.Holds(R8);
      assert g.Holds(R9) && g.Holds(R10) && g.Holds(R11) && g.Holds(R12) && g.Holds(R13) && g.Holds(R14) && g.Holds(R15);
    }
  }

  lemma AllListed()
    ensures forall r: Requirement :: r in REQUIREMENTS
  {
    var q := REQUIREMENTS;
    forall r: Requirement ensures r in q {
      match r
      case R1 => assert q[0] == r;
      case R2 => assert q[1] == r;
      case R3 => assert q[2] == r;
      case R4 => assert q[3] == r;
      case R5 => assert q[4] == r;
      case R6 => assert q[5] == r;
      case R7 => assert q[6] == r;
      case R8 => assert q[7] == r;
      case R9 => assert q[8] == r;
      case R10 => assert q[9] == r;
      case R11 => assert q[10] == r;
      case R12 => assert q[11] == r;
      case R13 => assert q[12] == r;
      case R14 => assert q[13] == r;
      case R15 => assert q[14] == r;
    }
  }

  datatype Lane = Lane(taskId: string, haltsIfFailed: seq<string>, independentOf: seq<string>)

  datatype ExecutionDecision = ExecutionDecision(eligible: bool, blockers: seq<Requirement>, dependencyOrder: seq<string>,
                               lanes: seq<Lane>, maxConcurrency: int, gate: Gate)

  datatype Result<T> = Success(value: T) | Failure

  // ---- the fifteen requirements ----

  predicate Touches(u: Unit, surfaces: seq<string>) {
    exists p | p in u.allowed :: exists s | s in surfaces :: PatternsOverlap(p, s)
  }

  predicate Disjoint(a: Unit, b: Unit) {
    forall k | 0 <= k < |a.allowed| :: forall l | 0 <= l < |b.allowed| :: !PatternsOverlap(a.allowed[k], b.allowed[l])
  }

  predicate DisjointSurfaces(units: seq<Unit>) {
    forall i | 0 <= i < |units| :: forall j | i < j < |units| :: Disjoint(units[i], units[j])
  }

  /** Every declared pattern, normalised, in order. */
  function Declared(units: seq<Unit>): seq<string> {
    if units == [] then [] else Declared(units[..|units| - 1]) + Normalised(units[|units| - 1].allowed)
  }

  function Normalised(ps: seq<string>): seq<string> {
    seq(|ps|, i requires 0 <= i < |ps| => Normalise(ps[i]))
  }

  predicate HaveCriteria(units: seq<Unit>) { forall u | u in units :: u.criteria != [] }

  predicate HaveCommands(units: seq<Unit>) { forall u | u in units :: u.commands != [] }

  predicate HaveSurfaces(units: seq<Unit>) { forall u | u in units :: u.allowed != [] }

  predicate KnowTheirNeeds(units: seq<Unit>) { forall u | u in units :: u.unknownDeps == [] }

  predicate NeedNoOther(units: seq<Unit>) { forall u | u in units :: u.inBatchDeps == [] }

  predicate AreFrozen(units: seq<Unit>) { forall u | u in units :: u.openDecisions == [] && u.unresolvedDeps == [] }

  predicate AreBounded(units: seq<Unit>) { forall u | u in units :: u.hasPacketSource }

  predicate NoneRisky(units: seq<Unit>) { forall u | u in units :: u.risk != Some(High) }

  predicate NoneTouches(units: seq<Unit>, surfaces: seq<string>) { forall u | u in units :: !Touches(u, surfaces) }

  predicate SafeRepo(units: seq<Unit>, repo: Repo) {
    && repo.isGitRepo && repo.operationInProgress.None? && repo.conflicted == []
    && forall f | f in repo.dirty :: forall u | u in units :: AnyMatch(f, u.allowed) == -1
  }

  ghost function GateOf(units: seq<Unit>, policy: Policy, repo: Repo): Gate {
    var enough := |units| >= Max(2, policy.minUnits);
    var criteria := HaveCriteria(units);
    var commands := HaveCommands(units);
    var declared := HaveSurfaces(units);
    var disjoint := DisjointSurfaces(units);
    var unshared := NoneTouches(units, policy.sharedWriteSurfaces);
    Gate(enough, criteria, commands,
         KnowTheirNeeds(units),
         NeedNoOther(units),
         AreFrozen(units),
         declared && disjoint,
         Distinct(Declared(units)),
         unshared,
         commands && declared,
         unshared && disjoint && declared,
         enough && commands && criteria,
         SafeRepo(units, repo),
         AreBounded(units),
         NoneRisky(units) && NoneTouches(units, policy.serialiseIfTouches))
  }

  ghost predicate Eligible(units: seq<Unit>, policy: Policy, repo: Repo) {
    GateOf(units, policy, repo).Passed()
  }

  // ---- the loops behind R7 and R8 ----

  datatype Overlap = Overlap(a: string, b: string, p: string, q: string)

  /** Two units, and a pattern of each that overlap. */
  ghost predicate InPair(a: Unit, b: Unit, o: Overlap) {
    o.a == a.taskId && o.b == b.taskId && o.p in a.allowed && o.q in b.allowed && PatternsOverlap(o.p, o.q)
  }

  ghost predicate FoundUpTo(units: seq<Unit>, o: Overlap, i: nat) {
    exists k, l :: 0 <= k < l < |units| && k < i && InPair(units[k], units[l], o)
  }

  ghost predicate FoundWith(units: seq<Unit>, o: Overlap, i: nat, j: nat)
    requires i < |units| && j <= |units|
  {
    exists l :: i < l < j && InPair(units[i], units[l], o)
  }

  /** Every pair of units, in order, with every pair of overlapping patterns; none exactly when surfaces are disjoint. */
  method PathOverlaps(units: seq<Unit>) returns (out: seq<Overlap>)
    ensures forall o :: o in out <==> FoundUpTo(units, o, |units|)
    ensures out == [] <==> DisjointSurfaces(units)
  {
    out := [];
    for i := 0 to |units|
      invariant forall o :: o in out <==> FoundUpTo(units, o, i)
    {
      for j := i + 1 to |units|
        invariant forall o :: o in out <==> FoundUpTo(units, o, i) || FoundWith(units, o, i, j)
      {
        var found := PairOverlaps(units[i], units[j]);
        forall o ensures FoundWith(units, o, i, j + 1) <==> FoundWith(units, o, i, j) || InPair(units[i], units[j], o) {}
        out := out + found;
      }
      forall o ensures FoundUpTo(units, o, i + 1) <==> FoundUpTo(units, o, i) || FoundWith(units, o, i, |units|) {}
    }
    OverlapsEmpty(units, out);
  }

  lemma OverlapsEmpty(units: seq<Unit>, out: seq<Overlap>)
    requires forall o :: o in out <==> FoundUpTo(units, o, |units|)
    ensures out == [] <==> DisjointSurfaces(units)
  {
    if out == [] {
      forall i, j, k, l | 0 <= i < j < |units| && 0 <= k < |units[i].allowed| && 0 <= l < |units[j].allowed|
        ensures !PatternsOverlap(units[i].allowed[k], units[j].allowed[l])
      {
        var o := Overlap(units[i].taskId, units[j].taskId, units[i].allowed[k], units[j].allowed[l]);
        assert o !in out && !FoundUpTo(units, o, |units|);
        assert !InPair(units[i], units[j], o);
      }
    } else {
      var o := out[0];
      assert o in out;
      var i, j :| 0 <= i < j < |units| && i < |units| && InPair(units[i], units[j], o);
      var k :| 0 <= k < |units[i].allowed| && units[i].allowed[k] == o.p;
      var l :| 0 <= l < |units[j].allowed| && units[j].allowed[l] == o.q;
      assert !Disjoint(units[i], units[j]);
    }
  }

  method PairOverlaps(a: Unit, b: Unit) returns (out: seq<Overlap>)
    ensures forall o :: o in out <==> InPair(a, b, o)
  {
    out := Related(a.taskId, b.taskId, a.allowed, b.allowed, PatternsOverlap);
  }

  ghost predicate IsRelated(a: string, b: string, ps: seq<string>, qs: seq<string>, f: (string, string) -> bool, o: Overlap) {
    o.a == a && o.b == b && o.p in ps && o.q in qs && f(o.p, o.q)
  }

  method Related(a: string, b: string, ps: seq<string>, qs: seq<string>, f: (string, string) -> bool)
      returns (out: seq<Overlap>)
    ensures forall o :: o in out <==> IsRelated(a, b, ps, qs, f, o)
  {
    out := [];
    for i := 0 to |ps|
      invariant forall o :: o in out <==> IsRelated(a, b, ps[..i], qs, f, o)
    {
      for j := 0 to |qs|
        invariant forall o :: o in out <==> IsRelated(a, b, ps[..i], qs, f, o) || IsRelated(a, b, [ps[i]], qs[..j], f, o)
      {
        assert qs[..j + 1] == qs[..j] + [qs[j]];
        if f(ps[i], qs[j]) {
          out := out + [Overlap(a, b, ps[i], qs[j])];
        }
      }
      assert qs[..|qs|] == qs && ps[..i + 1] == ps[..i] + [ps[i]];
    }
    assert ps[..|ps|] == ps;
  }

  /** Who declares each pattern; a pattern with two declarations is a collision. */
  method ExactCollisions(units: seq<Unit>) returns (out: set<string>)
    ensures forall p :: p in out <==> multiset(Declared(units))[p] > 1
    ensures out == {} <==> Distinct(Declared(units))
  {
    var owners: map<string, seq<string>> := map[];
    for i := 0 to |units|
      invariant Counts(owners, Declared(units[..i]))
    {
      owners := AddOwner(owners, units[i].taskId, Normalised(units[i].allowed), Declared(units[..i]));
      assert units[..i + 1][..i] == units[..i];
    }
    assert units[..|units|] == units;
    out := set p | p in owners && |owners[p]| > 1;
    CollisionsExactly(owners, Declared(units), out);
  }

  method AddOwner(before: map<string, seq<string>>, id: string, ps: seq<string>, ghost done: seq<string>)
      returns (owners: map<string, seq<string>>)
    requires Counts(before, done)
    ensures Counts(owners, done + ps)
  {
    owners := before;
    assert done + ps[..0] == done;
    for j := 0 to |ps|
      invariant Counts(owners, done + ps[..j])
    {
      var p := ps[j];
      assert done + ps[..j + 1] == (done + ps[..j]) + [p];
      owners := owners[p := (if p in owners then owners[p] else []) + [id]];
    }
    assert ps[..|ps|] == ps;
  }

  lemma CollisionsExactly(owners: map<string, seq<string>>, all: seq<string>, out: set<string>)
    requires Counts(owners, all)
    requires forall p :: p in out <==> p in owners && |owners[p]| > 1
    ensures out == {} <==> Distinct(all)
  {
    if out == {} {
      forall x ensures multiset(all)[x] <= 1 {
        assert x !in out;
      }
      OnceEachDistinct(all);
    }
    if Distinct(all) {
      DistinctMultiset(all);
    }
  }

  ghost predicate Counts(owners: map<string, seq<string>>, ps: seq<string>) {
    forall x :: multiset(ps)[x] == if x in owners then |owners[x]| else 0
  }

  // ---- the decision ----

  predicate Classified(u: Unit, classes: set<string>) {
    u.changeClass.Some? && u.changeClass.value != "" && u.changeClass.value in classes
  }

  function MemberOf(u: Unit): Order.Member { Order.Member(u.taskId, u.dependsOn) }

  function Batch(units: seq<Unit>): seq<Order.Member> {
    seq(|units|, i requires 0 <= i < |units| => MemberOf(units[i]))
  }

  lemma BatchIds(units: seq<Unit>)
    ensures forall x :: x in Order.Ids(Batch(units)) <==> exists k | 0 <= k < |units| :: units[k].taskId == x
  {
    var b := Batch(units);
    forall k | 0 <= k < |units| ensures b[k] in b && b[k].id == units[k].taskId {}
    forall x | x in Order.Ids(b) ensures exists k | 0 <= k < |units| :: units[k].taskId == x {
      var m :| m in b && m.id == x;
      var k :| 0 <= k < |b| && b[k] == m;
    }
  }

  /** Every other id of the batch either halts with this unit or is independent of it, never both. */
  ghost predicate IsLane(u: Unit, units: seq<Unit>, lane: Lane) {
    && lane.taskId == u.taskId
    && (forall x :: x in lane.haltsIfFailed <==> x != u.taskId && Order.BuildsOn(Batch(units), x, u.taskId))
    && forall x :: x in lane.independentOf <==>
                     x in Order.Ids(Batch(units)) && x != u.taskId && !Order.BuildsOn(Batch(units), x, u.taskId)
  }

  method LaneOf(u: Unit, units: seq<Unit>) returns (lane: Lane)
    ensures IsLane(u, units, lane)
  {
    var halts := Order.Dependents(u.taskId, Batch(units));
    var others := [];
    for i := 0 to |units|
      invariant forall x :: x in others <==> exists k | 0 <= k < i :: units[k].taskId == x && x != u.taskId && x !in halts
    {
      if units[i].taskId != u.taskId && units[i].taskId !in halts {
        others := others + [units[i].taskId];
      }
    }
    SortMembers(others, StrLe);
    lane := Lane(u.taskId, halts, Sort(others, StrLe));
    BatchIds(units);
  }

  method Requirements(units: seq<Unit>, policy: Policy, repo: Repo) returns (g: Gate)
    ensures g == GateOf(units, policy, repo)
  {
    var enough := |units| >= Max(2, policy.minUnits);
    var criteria := HaveCriteria(units);
    var commands := HaveCommands(units);
    var declared := HaveSurfaces(units);
    var overlaps := PathOverlaps(units);
    var exact := ExactCollisions(units);
    var unshared := NoneTouches(units, policy.sharedWriteSurfaces);
    g := Gate(enough, criteria, commands,
              KnowTheirNeeds(units),
              NeedNoOther(units),
              AreFrozen(units),
              declared && overlaps == [],
              exact == {},
              unshared,
              commands && declared,
              unshared && overlaps == [] && declared,
              enough && commands && criteria,
              SafeRepo(units, repo),
              AreBounded(units),
              NoneRisky(units) && NoneTouches(units, policy.serialiseIfTouches));
  }

  /**
   The decision. It fails only when a unit has no usable change class; otherwise the
   batch may run in parallel exactly when all fifteen requirements hold, and there
   are blockers exactly when it may not.
   */
  method Evaluate(units: seq<Unit>, policy: Policy, repo: Repo, classes: set<string>) returns (r: Result<ExecutionDecision>)
    ensures r.Failure? <==> exists u | u in units :: !Classified(u, classes)
    ensures r.Success? ==>
              var d := r.value;
              && (d.eligible <==> Eligible(units, policy, repo))
              && d.gate == GateOf(units, policy, repo)
              && (d.blockers == [] <==> d.eligible) && (forall q :: q in d.blockers <==> !d.gate.Holds(q))
              && d.dependencyOrder == Order.OrderFrom(Order.Pending(Batch(units), Order.Ids(Batch(units))), [])
              && |d.lanes| == |units| && (forall i | 0 <= i < |units| :: IsLane(units[i], units, d.lanes[i]))
              && (if d.eligible then d.maxConcurrency <= policy.maxConcurrency && d.maxConcurrency <= |units|
                                     && d.maxConcurrency in {policy.maxConcurrency, |units|}
                  else d.maxConcurrency == 1)
  {
    var g := Requirements(units, policy, repo);
    var order := Order.DependencyOrder(Batch(units));
    var lanes := Lanes(units, classes);
    if lanes.Failure? {
      return Failure;
    }
    var eligible := g.Blockers() == [];
    var concurrency := if eligible then Min(policy.maxConcurrency, |units|) else 1;
    r := Success(ExecutionDecision(eligible, g.Blockers(), order, lanes.value, concurrency, g));
  }

  method Lanes(units: seq<Unit>, classes: set<string>) returns (r: Result<seq<Lane>>)
    ensures r.Failure? <==> exists u | u in units :: !Classified(u, classes)
    ensures r.Success? ==> |r.value| == |units| && forall i | 0 <= i < |units| :: IsLane(units[i], units, r.value[i])
  {
    var lanes := [];
    for i := 0 to |units|
      invariant |lanes| == i && forall k | 0 <= k < i :: Classified(units[k], classes)
      invariant forall k | 0 <= k < i :: IsLane(units[k], units, lanes[k])
    {
      if !Classified(units[i], classes) {
        assert units[i] in units;
        return Failure;
      }
      var lane := LaneOf(units[i], units);
      lanes := lanes + [lane];
    }
    r := Success(lanes);
  }

  // ---- what a lane may commit ----

  datatype Ruling = Accepted | ForbiddenPath(rule: string) | NothingAllowed | OutsideAllowed

  /** The ruling on one normalised path. Evidence is always writable; forbidden beats allowed. */
  function Rule(file: string, allowed: seq<string>, forbidden: seq<string>): (r: Ruling)
    ensures r == Accepted <==>
            MatchPath(file, ".artifacts/**")
            || ((forall p | p in forbidden :: !MatchPath(file, p)) && exists p | p in allowed :: MatchPath(file, p))
  {
    if MatchPath(file, ".artifacts/**") then Accepted
    else if AnyMatch(file, forbidden) != -1 then ForbiddenPath(forbidden[AnyMatch(file, forbidden)])
    else if allowed == [] then NothingAllowed
    else if AnyMatch(file, allowed) == -1 then OutsideAllowed
    else Accepted
  }

  /** Evidence is exactly what is below `.artifacts/`, however deep, on one line. */
  lemma EvidenceExactly(file: string)
    ensures MatchPath(file, ".artifacts/**") <==> ".artifacts/" <= Normalise(file) && OneLine(Normalise(file)[11..])
  {
    assert ".artifacts/" + "**" == ".artifacts/**" && ".artifacts/"[1] == 'a';
    SubtreeMatches(file, ".artifacts/");
  }

  /** A lane that owns a directory may commit everything below it that no forbidden pattern names. */
  lemma OwnedSubtree(file: string, dir: string, allowed: seq<string>, forbidden: seq<string>)
    requires PlainPath(dir) && dir + "**" in allowed
    requires dir <= Normalise(file) && OneLine(Normalise(file)[|dir|..]) && forall p | p in forbidden :: !MatchPath(file, p)
    ensures Rule(file, allowed, forbidden) == Accepted
  {
    SubtreeMatches(file, dir);
  }

  /** And a lane that owns directories alone may commit nothing outside them but evidence. */
  lemma OnlyOwnedSubtrees(file: string, dirs: seq<string>, allowed: seq<string>, forbidden: seq<string>)
    requires |allowed| == |dirs| && forall i | 0 <= i < |dirs| :: PlainPath(dirs[i]) && allowed[i] == dirs[i] + "**"
    requires Rule(file, allowed, forbidden) == Accepted && !(".artifacts/" <= Normalise(file))
    ensures exists i :: 0 <= i < |dirs| && dirs[i] <= Normalise(file)
  {
    EvidenceExactly(file);
    var p :| p in allowed && MatchPath(file, p);
    var i :| 0 <= i < |allowed| && allowed[i] == p;
    SubtreeMatches(file, dirs[i]);
  }

  datatype Violation = Violation(file: string, ruling: Ruling)

  /** The normalised paths that `rule` accepts, in order. */
  ghost function AcceptedBy(changed: seq<string>, rule: string -> Ruling): seq<string> {
    if changed == [] then []
    else
      var file := Normalise(changed[|changed| - 1]);
      AcceptedBy(changed[..|changed| - 1], rule) + if rule(file) == Accepted then [file] else []
  }

  ghost function AcceptedOf(changed: seq<string>, u: Unit): seq<string> {
    AcceptedBy(changed, file => Rule(file, u.allowed, u.forbidden))
  }

  /** Every changed path ends in exactly one of the two lists, and the verdict is ok when none violates. */
  method CheckOwnership(changed: seq<string>, u: Unit)
      returns (ok: bool, violations: seq<Violation>, accepted: seq<string>)
    ensures accepted == AcceptedOf(changed, u)
    ensures |accepted| + |violations| == |changed|
    ensures forall v | v in violations :: v.ruling != Accepted && v.ruling == Rule(v.file, u.allowed, u.forbidden)
    ensures ok <==> forall raw | raw in changed :: Rule(Normalise(raw), u.allowed, u.forbidden) == Accepted
  {
    ok, violations, accepted := CheckRule(changed, file => Rule(file, u.allowed, u.forbidden));
  }

  method CheckRule(changed: seq<string>, rule: string -> Ruling)
      returns (ok: bool, violations: seq<Violation>, accepted: seq<string>)
    ensures accepted == AcceptedBy(changed, rule)
    ensures |accepted| + |violations| == |changed|
    ensures forall v | v in violations :: v.ruling != Accepted && v.ruling == rule(v.file)
    ensures ok <==> forall raw | raw in changed :: rule(Normalise(raw)) == Accepted
  {
    violations, accepted := [], [];
    for i := 0 to |changed|
      invariant accepted == AcceptedBy(changed[..i], rule)
      invariant |accepted| + |violations| == i
      invariant forall v | v in violations :: v.ruling != Accepted && v.ruling == rule(v.file)
      invariant violations == [] <==> forall k | 0 <= k < i :: rule(Normalise(changed[k])) == Accepted
    {
      var file := Normalise(changed[i]);
      assert changed[..i + 1][..i] == changed[..i];
      var ruling := rule(file);
      if ruling == Accepted {
        accepted := accepted + [file];
      } else {
        violations := violations + [Violation(file, ruling)];
      }
    }
    assert changed[..|changed|] == changed;
    ok := violations == [];
  }

  lemma {:induction false} AcceptedAreRuled(changed: seq<string>, rule: string -> Ruling, file: string)
    requires file in AcceptedBy(changed, rule)
    ensures rule(file) == Accepted
  {
    var n := |changed| - 1;
    if file in AcceptedBy(changed[..n], rule) {
      AcceptedAreRuled(changed[..n], rule, file);
    }
  }

  // ---- from the gate to the commit ----

  /** What each requirement fails on. */
  ghost predicate FailsOn(units: seq<Unit>, policy: Policy, repo: Repo, r: Requirement) {
    match r
    case R1 => |units| < 2 || |units| < policy.minUnits
    case R2 => exists u | u in units :: u.criteria == []
    case R3 => exists u | u in units :: u.commands == []
    case R4 => exists u | u in units :: u.unknownDeps != []
    case R5 => exists u | u in units :: u.inBatchDeps != []
    case R6 => exists u | u in units :: u.openDecisions != [] || u.unresolvedDeps != []
    case R7 => (exists u | u in units :: u.allowed == []) || !DisjointSurfaces(units)
    case R8 => !Distinct(Declared(units))
    case R9 => exists u | u in units :: Touches(u, policy.sharedWriteSurfaces)
    case R10 => exists u | u in units :: u.commands == [] || u.allowed == []
    case R11 => (exists u | u in units :: u.allowed == [] || Touches(u, policy.sharedWriteSurfaces)) || !DisjointSurfaces(units)
    case R12 => |units| < 2 || |units| < policy.minUnits || exists u | u in units :: u.criteria == [] || u.commands == []
    case R13 => !AtRest(repo) || exists u, f | u in units && f in repo.dirty :: AnyMatch(f, u.allowed) != -1
    case R14 => exists u | u in units :: !u.hasPacketSource
    case R15 => exists u | u in units :: u.risk == Some(High) || Touches(u, policy.serialiseIfTouches)
  }

  lemma HoldsExactly(units: seq<Unit>, policy: Policy, repo: Repo, r: Requirement)
    ensures GateOf(units, policy, repo).Holds(r) <==> !FailsOn(units, policy, repo, r)
  {
  }

  /** The blockers are exactly the requirements that something in the batch fails. */
  lemma BlockersExactly(units: seq<Unit>, policy: Policy, repo: Repo, r: Requirement)
    ensures r in GateOf(units, policy, repo).Blockers() <==> FailsOn(units, policy, repo, r)
  {
    HoldsExactly(units, policy, repo, r);
  }

  /** What one unit fails by itself. */
  ghost predicate UnitFails(u: Unit, policy: Policy, repo: Repo, r: Requirement) {
    match r
    case R2 => u.criteria == []
    case R3 => u.commands == []
    case R4 => u.unknownDeps != []
    case R5 => u.inBatchDeps != []
    case R6 => u.openDecisions != [] || u.unresolvedDeps != []
    case R7 => u.allowed == []
    case R9 => Touches(u, policy.sharedWriteSurfaces)
    case R10 => u.commands == [] || u.allowed == []
    case R11 => u.allowed == [] || Touches(u, policy.sharedWriteSurfaces)
    case R12 => u.criteria == [] || u.commands == []
    case R13 => exists f | f in repo.dirty :: AnyMatch(f, u.allowed) != -1
    case R14 => !u.hasPacketSource
    case R15 => u.risk == Some(High) || Touches(u, policy.serialiseIfTouches)
    case _ => false
  }

  lemma UnitFailsBatch(units: seq<Unit>, policy: Policy, repo: Repo, u: Unit, r: Requirement)
    requires u in units && UnitFails(u, policy, repo, r)
    ensures FailsOn(units, policy, repo, r)
  {
  }

  /** One unit that gives the gate nothing to object to. */
  ghost predicate GoodUnit(u: Unit, policy: Policy, repo: Repo) {
    && u.criteria != [] && u.commands != [] && u.allowed != [] && u.hasPacketSource && u.risk != Some(High)
    && u.unknownDeps == [] && u.inBatchDeps == [] && u.openDecisions == [] && u.unresolvedDeps == []
    && !Touches(u, policy.sharedWriteSurfaces) && !Touches(u, policy.serialiseIfTouches)
    && forall f | f in repo.dirty :: AnyMatch(f, u.allowed) == -1
  }

  ghost predicate GoodUnits(units: seq<Unit>, policy: Policy, repo: Repo) { forall u | u in units :: GoodUnit(u, policy, repo) }

  ghost predicate AtRest(repo: Repo) { repo.isGitRepo && repo.operationInProgress.None? && repo.conflicted == [] }

  /** What all fifteen requirements come to. */
  lemma EligibleUnits(units: seq<Unit>, policy: Policy, repo: Repo)
    ensures Eligible(units, policy, repo) <==>
            && |units| >= 2 && |units| >= policy.minUnits && AtRest(repo) && GoodUnits(units, policy, repo)
            && DisjointSurfaces(units) && Distinct(Declared(units))
  {
    if Eligible(units, policy, repo) {
      forall u | u in units ensures GoodUnit(u, policy, repo) {}
    }
  }

  lemma EligibleMeans(units: seq<Unit>, policy: Policy, repo: Repo)
    requires Eligible(units, policy, repo)
    ensures DisjointSurfaces(units)
    ensures forall u | u in units :: !Touches(u, policy.sharedWriteSurfaces) && !Touches(u, policy.serialiseIfTouches)
    ensures forall u | u in units :: u.inBatchDeps == [] && u.allowed != []
  {
  }

  lemma NoCommonPath(a: Unit, b: Unit, file: string, p: string, q: string)
    requires Disjoint(a, b) && p in a.allowed && q in b.allowed && MatchPath(file, p)
    ensures !MatchPath(file, q)
  {
    if MatchPath(file, q) {
      SharedPathMeansOverlap(file, p, q);
    }
  }

  lemma DisjointNoCommon(a: Unit, b: Unit, file: string)
    requires Disjoint(a, b)
    ensures !((exists p | p in a.allowed :: MatchPath(file, p)) && exists q | q in b.allowed :: MatchPath(file, q))
  {
    forall p, q | p in a.allowed && q in b.allowed && MatchPath(file, p) ensures !MatchPath(file, q) {
      NoCommonPath(a, b, file, p, q);
    }
  }

  /** In an eligible batch, two lanes can both commit a path only if it is evidence, and then they can. */
  lemma OneOwner(units: seq<Unit>, policy: Policy, repo: Repo, i: nat, j: nat, file: string)
    requires Eligible(units, policy, repo)
    requires i < |units| && j < |units| && i != j
    ensures Rule(file, units[i].allowed, units[i].forbidden) == Accepted
            && Rule(file, units[j].allowed, units[j].forbidden) == Accepted
            <==> MatchPath(file, ".artifacts/**")
  {
    EligibleMeans(units, policy, repo);
    if i < j {
      DisjointNoCommon(units[i], units[j], file);
    } else {
      DisjointNoCommon(units[j], units[i], file);
    }
  }

  /** And no lane of it can commit a path on a shared or serialised surface, evidence apart. */
  lemma NoSharedSurface(units: seq<Unit>, policy: Policy, repo: Repo, i: nat, file: string, surface: string)
    requires Eligible(units, policy, repo) && i < |units|
    requires surface in policy.sharedWriteSurfaces || surface in policy.serialiseIfTouches
    requires Rule(file, units[i].allowed, units[i].forbidden) == Accepted
    requires !MatchPath(file, ".artifacts/**")
    ensures !MatchPath(file, surface)
  {
    EligibleMeans(units, policy, repo);
    assert units[i] in units;
    var p :| p in units[i].allowed && MatchPath(file, p);
    if MatchPath(file, surface) {
      SharedPathMeansOverlap(file, p, surface);
    }
  }

  /** Whatever two lanes of an eligible batch changed, what the check accepted from both is evidence only. */
  lemma CommitsAreDisjoint(units: seq<Unit>, policy: Policy, repo: Repo, i: nat, j: nat,
                           mine: seq<string>, theirs: seq<string>, file: string)
    requires Eligible(units, policy, repo)
    requires i < |units| && j < |units| && i != j
    requires file in AcceptedOf(mine, units[i]) && file in AcceptedOf(theirs, units[j])
    ensures MatchPath(file, ".artifacts/**")
  {
    AcceptedAreRuled(mine, f => Rule(f, units[i].allowed, units[i].forbidden), file);
    AcceptedAreRuled(theirs, f => Rule(f, units[j].allowed, units[j].forbidden), file);
    OneOwner(units, policy, repo, i, j, file);
  }
}
