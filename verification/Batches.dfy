/**
 The whole way from the next action to what two workers can commit: which batches of
 graph nodes the gate lets run in parallel, what it blames otherwise, and what the flow
 control plane's DISPATCH and INTEGRATE carry of its answer.
 */
module Batches {
  import opened Graph
  import opened Sorting
  import opened Lists
  import opened Flow
  import opened Glob
  import opened Lanes
  import opened Units
  import opened Numbers
  import Order

  // ---- what the gate says of graph nodes ----

  ghost predicate Known(g: Source, ids: seq<string>) {
    g.declared.Keys == g.byId.Keys && forall id | id in ids :: id in g.byId
  }

  function UnitOf(g: Source, ids: seq<string>, id: string): Unit
    requires id in g.byId && id in g.declared
  {
    UnitFrom(g, id, set x | x in ids)
  }

  /** Two positions of the batch have patterns that overlap. */
  ghost predicate Crossing(g: Source, ids: seq<string>)
    requires Known(g, ids)
  {
    exists i, j, p, q | 0 <= i < j < |ids| && p in g.declared[ids[i]].allowed && q in g.declared[ids[j]].allowed :: PatternsOverlap(p, q)
  }

  /** Two positions have one pattern, or one position has it twice. */
  ghost predicate Twice(g: Source, ids: seq<string>, i: nat, k: nat, j: nat, l: nat)
    requires Known(g, ids)
  {
    && i <= j < |ids| && k < |g.declared[ids[i]].allowed| && l < |g.declared[ids[j]].allowed| && (i == j ==> k < l)
    && Normalise(g.declared[ids[i]].allowed[k]) == Normalise(g.declared[ids[j]].allowed[l])
  }

  ghost predicate On(g: Source, ids: seq<string>, surfaces: seq<string>)
    requires Known(g, ids)
  {
    exists id, p, s | id in ids && p in g.declared[id].allowed && s in surfaces :: PatternsOverlap(p, s)
  }

  ghost predicate Repeats(g: Source, ids: seq<string>)
    requires Known(g, ids)
  {
    exists i: nat, k: nat, j: nat, l: nat :: Twice(g, ids, i, k, j, l)
  }

  // ---- from nodes to units ----

  lemma NodesAreUnits(g: Source, ids: seq<string>)
    requires Known(g, ids)
    ensures UnitsFor(g, ids).Success? && AreUnits(g, ids, UnitsFor(g, ids).value)
  {
  }

  ghost predicate AreUnits(g: Source, ids: seq<string>, units: seq<Unit>)
    requires Known(g, ids)
  {
    |units| == |ids| && forall i | 0 <= i < |ids| :: units[i] == UnitOf(g, ids, ids[i])
  }

  lemma KeepsNothing(xs: seq<string>, p: string -> bool)
    ensures Keep(xs, p) == [] <==> forall x | x in xs :: !p(x)
  {
    var r := Keep(xs, p);
    assert r != [] ==> r[0] in r;
    assert forall x | x in xs && p(x) :: x in r;
  }

  // ---- requirement by requirement ----

  /** Every unit is the unit of a node of the batch, and every node has one. */
  lemma UnitAndNode(g: Source, ids: seq<string>, units: seq<Unit>)
    requires Known(g, ids) && AreUnits(g, ids, units)
    ensures forall id | id in ids :: UnitOf(g, ids, id) in units
    ensures forall u | u in units :: exists id :: id in ids && u == UnitOf(g, ids, id)
  {
    forall id | id in ids ensures UnitOf(g, ids, id) in units {
      var i :| 0 <= i < |ids| && ids[i] == id;
      assert units[i] == UnitOf(g, ids, id);
    }
    forall u | u in units ensures exists id :: id in ids && u == UnitOf(g, ids, id) {
      var i :| 0 <= i < |units| && units[i] == u;
      assert ids[i] in ids;
    }
  }

  /** No decision is open on the node, and what it needs outside the batch is delivered. */
  ghost predicate Unhindered(g: Source, ids: seq<string>, id: string)
    requires id in g.byId
  {
    && (forall q | q in g.decisions :: q.answered || id !in q.blocks)
    && forall d | d in g.byId[id].needs :: d in g.byId && d !in ids ==> g.byId[d].state == DONE
  }

  lemma NodeNeeds(g: Source, ids: seq<string>, id: string)
    requires Known(g, ids) && id in ids
    ensures UnitOf(g, ids, id).unknownDeps == [] <==> forall d | d in g.byId[id].needs :: d in g.byId
    ensures UnitOf(g, ids, id).inBatchDeps == [] <==> forall d | d in g.byId[id].needs :: d !in ids
    ensures Unhindered(g, ids, id) <==> UnitOf(g, ids, id).openDecisions == [] && UnitOf(g, ids, id).unresolvedDeps == []
  {
    var batch := set x | x in ids;
    KeepsNothing(g.byId[id].needs, x => x !in g.byId);
    KeepsNothing(g.byId[id].needs, x => x in batch);
    KeepsNothing(g.byId[id].needs, x => x in g.byId && x !in batch && g.byId[x].state != DONE);
  }

  lemma NodesCross(g: Source, ids: seq<string>, units: seq<Unit>)
    requires Known(g, ids) && AreUnits(g, ids, units)
    ensures DisjointSurfaces(units) <==> !Crossing(g, ids)
  {
    forall i, j | 0 <= i < j < |ids|
      ensures Disjoint(units[i], units[j]) <==>
              forall p, q | p in g.declared[ids[i]].allowed && q in g.declared[ids[j]].allowed :: !PatternsOverlap(p, q)
    {
      DisjointMembers(units[i], units[j]);
    }
  }

  lemma DisjointMembers(a: Unit, b: Unit)
    ensures Disjoint(a, b) <==> forall p, q | p in a.allowed && q in b.allowed :: !PatternsOverlap(p, q)
  {
  }

  // ---- patterns declared twice ----

  ghost predicate DeclaresAt(units: seq<Unit>, i: nat, k: nat, x: string) {
    i < |units| && k < |units[i].allowed| && Normalise(units[i].allowed[k]) == x
  }

  lemma {:induction false} DeclaredMembers(units: seq<Unit>, x: string)
    ensures x in Declared(units) <==> exists i: nat, k: nat :: DeclaresAt(units, i, k, x)
  {
    if units != [] {
      var n := |units| - 1;
      var init := units[..n];
      DeclaredMembers(init, x);
      if x in Declared(init) {
        var i: nat, k: nat :| DeclaresAt(init, i, k, x);
        assert DeclaresAt(units, i, k, x);
      }
      if x in Normalised(units[n].allowed) {
        var k :| 0 <= k < |units[n].allowed| && Normalised(units[n].allowed)[k] == x;
        assert DeclaresAt(units, n, k, x);
      }
      if i: nat, k: nat :| DeclaresAt(units, i, k, x) {
        if i < n { assert DeclaresAt(init, i, k, x); } else { assert Normalised(units[n].allowed)[k] == x; }
      }
    }
  }

  ghost predicate TwiceIn(units: seq<Unit>, i: nat, k: nat, j: nat, l: nat) {
    && i <= j < |units| && k < |units[i].allowed| && l < |units[j].allowed| && (i == j ==> k < l)
    && Normalise(units[i].allowed[k]) == Normalise(units[j].allowed[l])
  }

  lemma DistinctJoin(a: seq<string>, b: seq<string>)
    ensures Distinct(a + b) <==> Distinct(a) && Distinct(b) && forall x | x in a :: x !in b
  {
    var c := a + b;
    if Distinct(c) {
      forall i, j | 0 <= i < j < |a| ensures a[i] != a[j] { assert c[i] != c[j]; }
      forall i, j | 0 <= i < j < |b| ensures b[i] != b[j] { assert c[|a| + i] != c[|a| + j]; }
      forall i, j | 0 <= i < |a| && 0 <= j < |b| ensures a[i] != b[j] { assert c[i] != c[|a| + j]; }
    } else if Distinct(a) && Distinct(b) && forall x | x in a :: x !in b {
      Order.JoinDistinct(a, b);
    }
  }

  lemma {:induction false} DeclaredOnce(units: seq<Unit>)
    ensures Distinct(Declared(units)) <==> !exists i: nat, k: nat, j: nat, l: nat :: TwiceIn(units, i, k, j, l)
  {
    if units != [] {
      var n := |units| - 1;
      var init, last := units[..n], Normalised(units[n].allowed);
      DeclaredOnce(init);
      DistinctJoin(Declared(init), last);
      if i: nat, k: nat, j: nat, l: nat :| TwiceIn(units, i, k, j, l) {
        FoundTwice(units, i, k, j, l);
      } else {
        OnceEach(units);
      }
    }
  }

  lemma FoundTwice(units: seq<Unit>, i: nat, k: nat, j: nat, l: nat)
    requires units != [] && TwiceIn(units, i, k, j, l)
    ensures var n := |units| - 1;
            || TwiceIn(units[..n], i, k, j, l) || !Distinct(Normalised(units[n].allowed))
            || exists x :: x in Declared(units[..n]) && x in Normalised(units[n].allowed)
  {
    var n := |units| - 1;
    if j == n {
      assert Normalised(units[n].allowed)[l] == Normalise(units[j].allowed[l]);
      if i == n {
        assert Normalised(units[n].allowed)[k] == Normalised(units[n].allowed)[l];
      } else {
        DeclaredMembers(units[..n], Normalise(units[i].allowed[k]));
        assert DeclaresAt(units[..n], i, k, Normalise(units[i].allowed[k]));
      }
    }
  }

  lemma OnceEach(units: seq<Unit>)
    requires units != [] && !exists i: nat, k: nat, j: nat, l: nat :: TwiceIn(units, i, k, j, l)
    ensures var n := |units| - 1;
            && Distinct(Normalised(units[n].allowed)) && (forall x | x in Declared(units[..n]) :: x !in Normalised(units[n].allowed))
            && !exists i: nat, k: nat, j: nat, l: nat :: TwiceIn(units[..n], i, k, j, l)
  {
    var n := |units| - 1;
    var last := Normalised(units[n].allowed);
    forall k, l | 0 <= k < l < |last| ensures last[k] != last[l] { assert !TwiceIn(units, n, k, n, l); }
    forall x | x in Declared(units[..n]) ensures x !in last {
      DeclaredMembers(units[..n], x);
      var i: nat, k: nat :| DeclaresAt(units[..n], i, k, x);
      forall l | 0 <= l < |last| ensures last[l] != x { assert !TwiceIn(units, i, k, n, l); }
    }
    forall i: nat, k: nat, j: nat, l: nat ensures !TwiceIn(units[..n], i, k, j, l) { assert !TwiceIn(units, i, k, j, l); }
  }

  lemma NodesRepeat(g: Source, ids: seq<string>, units: seq<Unit>)
    requires Known(g, ids) && AreUnits(g, ids, units)
    ensures Distinct(Declared(units)) <==> !Repeats(g, ids)
  {
    DeclaredOnce(units);
    forall i: nat, k: nat, j: nat, l: nat ensures TwiceIn(units, i, k, j, l) <==> Twice(g, ids, i, k, j, l) {}
  }

  // ---- the blockers of a batch of nodes ----

  /** How one node misses a requirement, by what the graph, the policy and the work tree say. */
  ghost predicate NodeMisses(g: Source, ids: seq<string>, policy: Policy, repo: Repo, id: string, r: Requirement)
    requires Known(g, ids) && id in ids
  {
    match r
    case R2 => g.declared[id].criteria == []
    case R3 => g.declared[id].commands == []
    case R4 => exists x | x in g.byId[id].needs :: x !in g.byId
    case R5 => exists x | x in g.byId[id].needs :: x in ids
    case R6 =>
      (exists q | q in g.decisions :: !q.answered && id in q.blocks)
      || exists x | x in g.byId[id].needs :: x in g.byId && x !in ids && g.byId[x].state != DONE
    case R7 => g.declared[id].allowed == []
    case R9 => exists p, s | p in g.declared[id].allowed && s in policy.sharedWriteSurfaces :: PatternsOverlap(p, s)
    case R13 => exists f, p | f in repo.dirty && p in g.declared[id].allowed :: MatchPath(f, p)
    case R14 => !g.declared[id].hasPacketSource
    case R15 =>
      g.declared[id].risk == Some(High)
      || exists p, s | p in g.declared[id].allowed && s in policy.serialiseIfTouches :: PatternsOverlap(p, s)
    case _ => false
  }

  lemma MissedByUnit(g: Source, ids: seq<string>, policy: Policy, repo: Repo, id: string, r: Requirement)
    requires Known(g, ids) && id in ids && NodeMisses(g, ids, policy, repo, id, r)
    ensures UnitFails(UnitOf(g, ids, id), policy, repo, r)
  {
    NodeNeeds(g, ids, id);
    if r == R13 {
      var f, p :| f in repo.dirty && p in g.declared[id].allowed && MatchPath(f, p);
      assert AnyMatch(f, g.declared[id].allowed) != -1;
    }
  }

  /** Whatever a node misses, the gate blames by name. */
  lemma MissedIsBlamed(g: Source, ids: seq<string>, policy: Policy, repo: Repo, id: string, r: Requirement)
    requires Known(g, ids) && id in ids && NodeMisses(g, ids, policy, repo, id, r)
    ensures UnitsFor(g, ids).Success? && r in GateOf(UnitsFor(g, ids).value, policy, repo).Blockers()
  {
    NodesAreUnits(g, ids);
    var units := UnitsFor(g, ids).value;
    UnitAndNode(g, ids, units);
    MissedByUnit(g, ids, policy, repo, id, r);
    UnitFailsBatch(units, policy, repo, UnitOf(g, ids, id), r);
    BlockersExactly(units, policy, repo, r);
  }

  // ---- which batches may run in parallel ----

  /** The node can be judged from outside, is of no high risk, and waits for nothing, neither a decision nor another node. */
  ghost predicate FitToStart(g: Source, batch: set<string>, id: string)
    requires id in g.byId && id in g.declared
  {
    var d := g.declared[id];
    && d.criteria != [] && d.commands != [] && d.hasPacketSource && d.risk != Some(High)
    && (forall q | q in g.decisions :: q.answered || id !in q.blocks)
    && forall n | n in g.byId[id].needs :: n in g.byId && n !in batch && g.byId[n].state == DONE
  }

  ghost predicate OncePerPattern(ps: seq<string>) {
    forall k, l | 0 <= k < l < |ps| :: Normalise(ps[k]) != Normalise(ps[l])
  }

  /** It has a surface of its own: no pattern twice, none on a shared or frozen surface, nothing uncommitted in it. */
  ghost predicate FitToWrite(d: Declaration, policy: Policy, repo: Repo) {
    && d.allowed != []
    && OncePerPattern(d.allowed)
    && (forall p, s | p in d.allowed && (s in policy.sharedWriteSurfaces || s in policy.serialiseIfTouches) :: !PatternsOverlap(p, s))
    && forall f, p | f in repo.dirty && p in d.allowed :: !MatchPath(f, p)
  }

  ghost predicate FitNode(g: Source, batch: set<string>, policy: Policy, repo: Repo, id: string)
    requires id in g.byId && id in g.declared
  {
    FitToStart(g, batch, id) && FitToWrite(g.declared[id], policy, repo)
  }

  ghost predicate Apart(g: Source, a: string, b: string)
    requires a in g.declared && b in g.declared
  {
    forall p, q | p in g.declared[a].allowed && q in g.declared[b].allowed :: !PatternsOverlap(p, q)
  }

  /** At least two nodes, each fit, no two with overlapping surfaces, and a work tree at rest. */
  ghost predicate Fit(g: Source, batch: set<string>, policy: Policy, repo: Repo)
    requires g.declared.Keys == g.byId.Keys && batch <= g.byId.Keys
  {
    && |batch| >= 2 && |batch| >= policy.minUnits && AtRest(repo)
    && (forall id | id in batch :: FitNode(g, batch, policy, repo, id))
    && forall a, b | a in batch && b in batch && a != b :: Apart(g, a, b)
  }

  ghost function Members(ids: seq<string>): set<string> { set id | id in ids }

  lemma {:induction false} DistinctCount(ids: seq<string>)
    requires Distinct(ids)
    ensures |Members(ids)| == |ids|
  {
    if ids != [] {
      var n := |ids| - 1;
      DistinctCount(ids[..n]);
      assert Members(ids) == Members(ids[..n]) + {ids[n]} && ids[n] !in ids[..n];
    } else {
      assert Members(ids) == {};
    }
  }

  lemma SameNormalOverlaps(p: string, q: string)
    requires Normalise(p) == Normalise(q)
    ensures PatternsOverlap(p, q)
  {
  }

  /** A good unit is a fit node, apart from patterns it has twice. */
  lemma GoodIsFit(g: Source, ids: seq<string>, policy: Policy, repo: Repo, id: string)
    requires Known(g, ids) && id in ids
    ensures FitNode(g, Members(ids), policy, repo, id) <==>
            GoodUnit(UnitOf(g, ids, id), policy, repo) && OncePerPattern(g.declared[id].allowed)
  {
    NodeNeeds(g, ids, id);
    StartsExactly(g, ids, id);
    WritesExactly(UnitOf(g, ids, id), g.declared[id], policy, repo);
  }

  lemma StartsExactly(g: Source, ids: seq<string>, id: string)
    requires Known(g, ids) && id in ids
    ensures var u := UnitOf(g, ids, id);
            FitToStart(g, Members(ids), id) <==>
            && u.criteria != [] && u.commands != [] && u.hasPacketSource && u.risk != Some(High)
            && u.unknownDeps == [] && u.inBatchDeps == [] && u.openDecisions == [] && u.unresolvedDeps == []
  {
    NodeNeeds(g, ids, id);
  }

  lemma WritesExactly(u: Unit, d: Declaration, policy: Policy, repo: Repo)
    requires u.allowed == d.allowed
    ensures FitToWrite(d, policy, repo) <==>
            && u.allowed != [] && OncePerPattern(d.allowed)
            && !Touches(u, policy.sharedWriteSurfaces) && !Touches(u, policy.serialiseIfTouches)
            && forall f | f in repo.dirty :: AnyMatch(f, u.allowed) == -1
  {
    forall f ensures AnyMatch(f, u.allowed) == -1 <==> forall p | p in d.allowed :: !MatchPath(f, p) {}
  }

  lemma GoodUnitsAreFit(g: Source, ids: seq<string>, units: seq<Unit>, policy: Policy, repo: Repo)
    requires Known(g, ids) && AreUnits(g, ids, units)
    ensures GoodUnits(units, policy, repo) <==> forall id | id in ids :: GoodUnit(UnitOf(g, ids, id), policy, repo)
  {
    UnitAndNode(g, ids, units);
  }

  lemma EligibleIsFit(g: Source, ids: seq<string>, units: seq<Unit>, policy: Policy, repo: Repo)
    requires Known(g, ids) && AreUnits(g, ids, units) && Eligible(units, policy, repo)
    ensures Distinct(ids) && Fit(g, Members(ids), policy, repo)
  {
    EligibleUnits(units, policy, repo);
    GoodUnitsAreFit(g, ids, units, policy, repo);
    NodesCross(g, ids, units);
    NodesRepeat(g, ids, units);
    forall i, j | 0 <= i < j < |ids| ensures ids[i] != ids[j] && Apart(g, ids[i], ids[j]) && Apart(g, ids[j], ids[i]) {
      ApartIfNotCrossing(g, ids, i, j, policy, repo);
    }
    DistinctCount(ids);
    forall id | id in ids ensures FitNode(g, Members(ids), policy, repo, id) {
      OnceIfNotRepeated(g, ids, id);
      GoodIsFit(g, ids, policy, repo, id);
    }
    AllApart(g, ids);
  }

  lemma AllApart(g: Source, ids: seq<string>)
    requires Known(g, ids) && forall i, j | 0 <= i < j < |ids| :: Apart(g, ids[i], ids[j]) && Apart(g, ids[j], ids[i])
    ensures forall a, b | a in ids && b in ids && a != b :: Apart(g, a, b)
  {
    forall a, b | a in ids && b in ids && a != b ensures Apart(g, a, b) {
      var i :| 0 <= i < |ids| && ids[i] == a;
      var j :| 0 <= j < |ids| && ids[j] == b;
      assert i < j || j < i;
    }
  }

  lemma OnceIfNotRepeated(g: Source, ids: seq<string>, id: string)
    requires Known(g, ids) && !Repeats(g, ids) && id in ids
    ensures OncePerPattern(g.declared[id].allowed)
  {
    var i :| 0 <= i < |ids| && ids[i] == id;
    var ps := g.declared[id].allowed;
    forall k, l | 0 <= k < l < |ps| ensures Normalise(ps[k]) != Normalise(ps[l]) { assert !Twice(g, ids, i, k, i, l); }
  }

  lemma ApartIfNotCrossing(g: Source, ids: seq<string>, i: nat, j: nat, policy: Policy, repo: Repo)
    requires Known(g, ids) && !Crossing(g, ids) && i < j < |ids| && GoodUnit(UnitOf(g, ids, ids[i]), policy, repo)
    ensures ids[i] != ids[j] && Apart(g, ids[i], ids[j]) && Apart(g, ids[j], ids[i])
  {
    var ps, qs := g.declared[ids[i]].allowed, g.declared[ids[j]].allowed;
    forall p, q | p in ps && q in qs ensures !PatternsOverlap(p, q) && !PatternsOverlap(q, p) {}
    SameNormalOverlaps(ps[0], ps[0]);
    assert ps[0] in ps;
  }

  lemma FitDoesNotCross(g: Source, ids: seq<string>, policy: Policy, repo: Repo)
    requires Known(g, ids) && Distinct(ids) && Fit(g, Members(ids), policy, repo)
    ensures !Crossing(g, ids)
  {
    forall i, j | 0 <= i < j < |ids| ensures Apart(g, ids[i], ids[j]) {
      assert ids[i] in Members(ids) && ids[j] in Members(ids);
    }
  }

  lemma FitDeclaresOnce(g: Source, ids: seq<string>, i: nat, k: nat, j: nat, l: nat)
    requires Known(g, ids) && !Crossing(g, ids) && forall id | id in ids :: OncePerPattern(g.declared[id].allowed)
    ensures !Twice(g, ids, i, k, j, l)
  {
    if i < j < |ids| && k < |g.declared[ids[i]].allowed| && l < |g.declared[ids[j]].allowed| {
      var p, q := g.declared[ids[i]].allowed[k], g.declared[ids[j]].allowed[l];
      assert !PatternsOverlap(p, q);
      if Normalise(p) == Normalise(q) { SameNormalOverlaps(p, q); }
    } else if i == j < |ids| {
      assert ids[i] in ids;
    }
  }

  lemma FitIsEligible(g: Source, ids: seq<string>, units: seq<Unit>, policy: Policy, repo: Repo)
    requires Known(g, ids) && AreUnits(g, ids, units) && Distinct(ids) && Fit(g, Members(ids), policy, repo)
    ensures Eligible(units, policy, repo)
  {
    DistinctCount(ids);
    FitDoesNotCross(g, ids, policy, repo);
    NodesCross(g, ids, units);
    forall id | id in ids ensures GoodUnit(UnitOf(g, ids, id), policy, repo) && OncePerPattern(g.declared[id].allowed) {
      assert id in Members(ids);
      GoodIsFit(g, ids, policy, repo, id);
    }
    GoodUnitsAreFit(g, ids, units, policy, repo);
    forall i: nat, k: nat, j: nat, l: nat ensures !Twice(g, ids, i, k, j, l) { FitDeclaresOnce(g, ids, i, k, j, l); }
    NodesRepeat(g, ids, units);
    EligibleUnits(units, policy, repo);
  }

  /** A batch is eligible exactly if it lists fit nodes, each once. */
  lemma EligibleExactly(g: Source, ids: seq<string>, policy: Policy, repo: Repo)
    requires Known(g, ids)
    ensures UnitsFor(g, ids).Success?
    ensures Eligible(UnitsFor(g, ids).value, policy, repo) <==> Distinct(ids) && Fit(g, Members(ids), policy, repo)
  {
    NodesAreUnits(g, ids);
    var units := UnitsFor(g, ids).value;
    if Eligible(units, policy, repo) { EligibleIsFit(g, ids, units, policy, repo); }
    if Distinct(ids) && Fit(g, Members(ids), policy, repo) { FitIsEligible(g, ids, units, policy, repo); }
  }

  /** The gate answers that nodes may run in parallel exactly if it knows and can class them and they are fit. */
  lemma ParallelExactly(g: Source, ids: seq<string>, policy: Policy, repo: Repo, classes: set<string>)
    requires g.declared.Keys == g.byId.Keys
    ensures DecideWith(g, policy, repo, classes)(ids).mode == Parallel <==>
            && (forall id | id in ids :: id in g.byId && g.declared[id].changeClass.Some?
                                         && g.declared[id].changeClass.value != "" && g.declared[id].changeClass.value in classes)
            && Distinct(ids) && Fit(g, Members(ids), policy, repo)
  {
    if Known(g, ids) {
      NodesAreUnits(g, ids);
      UnitAndNode(g, ids, UnitsFor(g, ids).value);
      EligibleExactly(g, ids, policy, repo);
    }
  }

  // ---- what the next action carries of the answer ----

  /** Whatever a packet needs of the same list stands before it. */
  ghost predicate NeedsFirst(byId: map<string, Resolved>, ids: seq<string>) {
    forall j, d | 0 <= j < |ids| && ids[j] in byId && d in byId[ids[j]].needs && d in ids :: d in ids[..j]
  }

  ghost predicate RanksNeeds(byId: map<string, Resolved>, ids: seq<string>, rank: map<string, nat>) {
    forall x, d | x in ids && x in byId && d in byId[x].needs && d in ids :: x in rank && d in rank && rank[d] < rank[x]
  }

  ghost predicate Acyclic(byId: map<string, Resolved>, ids: seq<string>) {
    exists rank :: RanksNeeds(byId, ids, rank)
  }

  lemma BatchIsIds(g: Source, ids: seq<string>, units: seq<Unit>)
    requires Known(g, ids) && AreUnits(g, ids, units)
    ensures forall x :: x in Order.Ids(Lanes.Batch(units)) <==> x in ids
  {
    IdsAre(units, ids);
  }

  lemma MemberNeeds(g: Source, ids: seq<string>, units: seq<Unit>, u: Order.Member)
    requires Known(g, ids) && AreUnits(g, ids, units) && u in Lanes.Batch(units)
    ensures u.id in ids && u.dependsOn == g.byId[u.id].needs
  {
    var k :| 0 <= k < |units| && Lanes.Batch(units)[k] == u;
    assert u == MemberOf(units[k]) && units[k] == UnitOf(g, ids, ids[k]);
  }

  /** The pending map holds of each id what it needs of the batch. */
  lemma PendingNeeds(g: Source, ids: seq<string>, units: seq<Unit>)
    requires Known(g, ids) && AreUnits(g, ids, units)
    ensures var pending := Order.Pending(Lanes.Batch(units), Order.Ids(Lanes.Batch(units)));
            (forall x :: x in pending <==> x in ids)
            && forall x, d | x in ids :: d in pending[x] <==> d in g.byId[x].needs && d in ids
  {
    BatchIsIds(g, ids, units);
    var b := Lanes.Batch(units);
    var pending := Order.Pending(b, Order.Ids(b));
    forall x | x in ids ensures pending[x] == Order.Within(Order.Ids(b), g.byId[x].needs) {
      var u :| u in b && u.id == x && pending[x] == Order.Within(Order.Ids(b), u.dependsOn);
      MemberNeeds(g, ids, units, u);
    }
  }

  /** The decision lists the ids it was asked about, each once, needs first exactly if they are acyclic. */
  lemma DecisionIsOrdered(g: Source, ids: seq<string>, policy: Policy, repo: Repo, classes: set<string>)
    requires Known(g, ids) && AllClassified(g, classes)
    ensures var order := DecideWith(g, policy, repo, classes)(ids).order;
            Distinct(order) && SameIds(order, ids) && (NeedsFirst(g.byId, order) <==> Acyclic(g.byId, order))
  {
    UnitsClassified(g, ids, classes);
    var units := UnitsFor(g, ids).value;
    NodesAreUnits(g, ids);
    PendingNeeds(g, ids, units);
    var pending := Order.Pending(Lanes.Batch(units), Order.Ids(Lanes.Batch(units)));
    var order := DecideWith(g, policy, repo, classes)(ids).order;
    assert order == Order.OrderFrom(pending, []);
    Order.OrderIsTopological(Lanes.Batch(units));
    OrderTransfers(g, ids, pending, order);
  }

  lemma OrderTransfers(g: Source, ids: seq<string>, pending: map<string, seq<string>>, order: seq<string>)
    requires Known(g, ids) && (forall x :: x in pending <==> x in ids) && (forall x :: x in order <==> x in pending)
    requires forall x, d | x in ids :: d in pending[x] <==> d in g.byId[x].needs && d in ids
    ensures NeedsFirst(g.byId, order) <==> Order.Respects(pending, order)
    ensures Acyclic(g.byId, order) <==> exists rank :: Order.Ranked(pending, rank)
  {
    forall rank ensures RanksNeeds(g.byId, order, rank) <==> Order.Ranked(pending, rank) {}
    if Order.Respects(pending, order) {
      forall j, d | 0 <= j < |order| && d in g.byId[order[j]].needs && d in order ensures d in order[..j] {
        assert order[j] in order && d in pending[order[j]];
      }
    }
    if NeedsFirst(g.byId, order) {
      forall j, d | 0 <= j < |order| && order[j] in pending && d in pending[order[j]] ensures d in order[..j] {
        assert d in order;
      }
    }
  }

  lemma AskedOnce(inputs: Inputs, s: Segment)
    requires Distinct(s.nodeIds)
    ensures Distinct(Sort(Dispatchable(inputs, s), StrLe))
  {
    KeepDistinct(s.nodeIds, id => id in inputs.byId && !inputs.byId[id].optional);
    KeepDistinct(Required(inputs.byId, s), id => id in inputs.byId && (inputs.byId[id].state == DONE) == false);
    KeepDistinct(InState(inputs.byId, Required(inputs.byId, s), false),
                 id => id in inputs.byId && (inputs.byId[id].readiness == READY || inputs.byId[id].readiness == IN_PROGRESS));
    KeepDistinct(Ready(inputs, s), id => !Reaches(inputs.byId, id, set u | u in Uncovered(inputs, s)));
    SortDistinct(Dispatchable(inputs, s), StrLe);
  }

  /** The flow asks the gate, over the graph it reads. */
  ghost predicate Asks(inputs: Inputs, g: Source, policy: Policy, repo: Repo, classes: set<string>) {
    && g.byId == inputs.byId && g.declared.Keys == g.byId.Keys && AllClassified(g, classes)
    && inputs.decide == DecideWith(g, policy, repo, classes)
  }

  /** What a decision about `ids` makes of a list of packets. */
  ghost predicate Decided(g: Source, ids: seq<string>, packets: seq<string>) {
    Known(g, packets) && Distinct(packets) && SameIds(packets, ids) && (NeedsFirst(g.byId, packets) <==> Acyclic(g.byId, packets))
  }

  lemma AskedAbout(inputs: Inputs, g: Source, policy: Policy, repo: Repo, classes: set<string>, ids: seq<string>)
    requires Asks(inputs, g, policy, repo, classes) && AllIn(ids, g.byId.Keys)
    ensures var asked := Sort(ids, StrLe); Known(g, asked) && SameIds(asked, ids) && Decided(g, ids, inputs.decide(asked).order)
  {
    SortMembers(ids, StrLe);
    DecisionIsOrdered(g, Sort(ids, StrLe), policy, repo, classes);
  }

  lemma DispatchedBy(inputs: Inputs, s: Segment)
    requires InSegment(inputs, s).Dispatch?
    ensures var d := inputs.decide(Sort(Dispatchable(inputs, s), StrLe));
            InSegment(inputs, s) == Dispatch(s.id, s.phase, d.order, d.mode)
  {
  }

  lemma IntegratedBy(inputs: Inputs, s: Segment)
    requires InSegment(inputs, s).Integrate?
    ensures InSegment(inputs, s) == Integrate(s.id, s.phase, inputs.decide(Sort(ToIntegrate(inputs, s), StrLe)).order)
  {
  }

  lemma SegmentDispatch(inputs: Inputs, g: Source, policy: Policy, repo: Repo, classes: set<string>, s: Segment)
    requires Asks(inputs, g, policy, repo, classes) && InSegment(inputs, s).Dispatch?
    ensures var a := InSegment(inputs, s);
            && Known(g, a.packets) && Distinct(a.packets)
            && (NeedsFirst(g.byId, a.packets) <==> Acyclic(g.byId, a.packets))
            && (a.mode == Parallel ==> Fit(g, Members(a.packets), policy, repo))
            && (a.mode == Sequential && Distinct(s.nodeIds) ==> !Fit(g, Members(a.packets), policy, repo))
  {
    DispatchedBy(inputs, s);
    var ids := Dispatchable(inputs, s);
    var asked := Sort(ids, StrLe);
    AskedAbout(inputs, g, policy, repo, classes, ids);
    ParallelExactly(g, asked, policy, repo, classes);
    assert Members(asked) == Members(InSegment(inputs, s).packets);
    if Distinct(s.nodeIds) { AskedOnce(inputs, s); }
  }

  /**
   A dispatch is parallel only for packets that are fit to run in parallel, and
   sequential only for packets that are not; either way each packet is listed once,
   and what it needs of the batch before it if needs are acyclic.
   */
  lemma DispatchIsDecided(inputs: Inputs, g: Source, policy: Policy, repo: Repo, classes: set<string>)
    requires Asks(inputs, g, policy, repo, classes) && Next(inputs).Dispatch?
    ensures inputs.segments.Ok?
    ensures var a := Next(inputs);
            && Known(g, a.packets) && Distinct(a.packets)
            && (NeedsFirst(g.byId, a.packets) <==> Acyclic(g.byId, a.packets))
            && (a.mode == Parallel ==> Eligible(UnitsFor(g, a.packets).value, policy, repo))
            && (a.mode == Sequential && (forall s | s in inputs.segments.segs :: Distinct(s.nodeIds))
                ==> !Eligible(UnitsFor(g, a.packets).value, policy, repo))
  {
    SegmentActions(inputs);
    SegmentDispatch(inputs, g, policy, repo, classes, inputs.segments.segs[CurrentOf(inputs)]);
    EligibleExactly(g, Next(inputs).packets, policy, repo);
  }

  /** An integration lists its packets the same way. */
  lemma IntegrateIsDecided(inputs: Inputs, g: Source, policy: Policy, repo: Repo, classes: set<string>)
    requires Asks(inputs, g, policy, repo, classes) && Next(inputs).Integrate?
    ensures var a := Next(inputs);
            Known(g, a.packets) && Distinct(a.packets) && (NeedsFirst(g.byId, a.packets) <==> Acyclic(g.byId, a.packets))
  {
    SegmentActions(inputs);
    var s := inputs.segments.segs[CurrentOf(inputs)];
    IntegratedBy(inputs, s);
    AskedAbout(inputs, g, policy, repo, classes, ToIntegrate(inputs, s));
  }

  /** So whatever two workers of a parallel dispatch change, a path both may commit is evidence. */
  lemma ParallelDispatchIsDisjoint(inputs: Inputs, g: Source, policy: Policy, repo: Repo, classes: set<string>, i: nat, j: nat, file: string)
    requires Asks(inputs, g, policy, repo, classes) && Next(inputs).Dispatch? && Next(inputs).mode == Parallel
    requires i < |Next(inputs).packets| && j < |Next(inputs).packets| && i != j
    ensures var units := UnitsFor(g, Next(inputs).packets);
            units.Success? && |units.value| == |Next(inputs).packets|
            && (Rule(file, units.value[i].allowed, units.value[i].forbidden) == Accepted
                && Rule(file, units.value[j].allowed, units.value[j].forbidden) == Accepted
                <==> MatchPath(file, ".artifacts/**"))
  {
    DispatchIsDecided(inputs, g, policy, repo, classes);
    OneOwner(UnitsFor(g, Next(inputs).packets).value, policy, repo, i, j, file);
  }

  /** What a node's worker may commit: evidence, and what its own patterns allow and neither its own nor the general ones forbid. */
  lemma NodeMayCommit(g: Source, ids: seq<string>, i: nat, file: string)
    requires Known(g, ids) && i < |ids|
    ensures UnitsFor(g, ids).Success?
    ensures var u, d := UnitsFor(g, ids).value[i], g.declared[ids[i]];
            Rule(file, u.allowed, u.forbidden) == Accepted <==>
            || (".artifacts/" <= Normalise(file) && OneLine(Normalise(file)[11..]))
            || ((exists p | p in d.allowed :: MatchPath(file, p)) && (forall p | p in d.forbidden :: !MatchPath(file, p))
                && forall p | p in g.alwaysForbidden :: !MatchPath(file, p))
  {
    NodesAreUnits(g, ids);
    RuleOver(file, g.declared[ids[i]].allowed, g.declared[ids[i]].forbidden, g.alwaysForbidden);
  }

  lemma RuleOver(file: string, allowed: seq<string>, own: seq<string>, general: seq<string>)
    ensures Rule(file, allowed, own + general) == Accepted <==>
            || (".artifacts/" <= Normalise(file) && OneLine(Normalise(file)[11..]))
            || ((exists p | p in allowed :: MatchPath(file, p)) && (forall p | p in own :: !MatchPath(file, p))
                && forall p | p in general :: !MatchPath(file, p))
  {
    EvidenceExactly(file);
  }
}
