/**
 Integration order and failure fan-out of a batch (`scripts/lanes.ts`): a
 topological order with ties broken by id, and the transitive in-batch dependents
 of one unit.
 */
module Order {
  import opened Sorting

  datatype Member = Member(id: string, dependsOn: seq<string>)

  // ---- the pending map ----

  function Ids(units: seq<Member>): (r: set<string>)
    ensures forall x :: x in r <==> exists u | u in units :: u.id == x
  {
    set u | u in units :: u.id
  }

  function Within(ids: set<string>, deps: seq<string>): (r: seq<string>)
    ensures forall d :: d in r <==> d in deps && d in ids
  {
    if deps == [] then []
    else (if deps[0] in ids then [deps[0]] else []) + Within(ids, deps[1..])
  }

  /** In-batch dependencies by id; a repeated id keeps its last unit's. */
  function Pending(units: seq<Member>, ids: set<string>): (m: map<string, seq<string>>)
    ensures m.Keys == Ids(units)
    ensures forall x, d | x in m && d in m[x] :: d in ids
    ensures forall x | x in m :: exists u | u in units :: u.id == x && m[x] == Within(ids, u.dependsOn)
  {
    if units == [] then map[]
    else
      var n := |units| - 1;
      assert forall u | u in units :: u in units[..n] || u == units[n];
      assert units[n] in units && forall u | u in units[..n] :: u in units;
      Pending(units[..n], ids)[units[n].id := Within(ids, units[n].dependsOn)]
  }

  // ---- the order as a function of the pending map ----

  /** The members of a set in ascending order. */
  ghost function Ascending(s: set<string>): (r: seq<string>)
    ensures Distinct(r) && forall x :: x in r <==> x in s
  {
    SortMembers(Listing(s), StrLe);
    SortDistinct(Listing(s), StrLe);
    Sort(Listing(s), StrLe)
  }

  ghost function Free(pending: map<string, seq<string>>, out: seq<string>): set<string> {
    set id | id in pending && forall d | d in pending[id] :: d in out
  }

  ghost function OrderFrom(pending: map<string, seq<string>>, out: seq<string>): seq<string>
    decreases |pending|
  {
    if |pending| == 0 then out
    else
      var free := Free(pending, out);
      if free == {} then out + Ascending(pending.Keys)
      else
        assert free <= pending.Keys;
        FewerLeft(pending, free);
        OrderFrom(pending - free, out + Ascending(free))
  }

  lemma FewerLeft(pending: map<string, seq<string>>, free: set<string>)
    requires free != {} && free <= pending.Keys
    ensures |pending - free| < |pending|
  {
    assert (pending - free).Keys == pending.Keys - free;
    assert |pending.Keys - free| == |pending.Keys| - |free|;
  }

  // ---- the method ----

  lemma SortedIsAscending(xs: seq<string>, s: set<string>)
    requires Distinct(xs) && forall x :: x in xs <==> x in s
    ensures Sort(xs, StrLe) == Ascending(s)
  {
    SortSameMembers(xs, Listing(s));
  }

  lemma OrderSteps(pending: map<string, seq<string>>, out: seq<string>, free: seq<string>)
    requires |pending| > 0 && Distinct(free) && forall x :: x in free <==> x in Free(pending, out)
    ensures free != [] ==>
              OrderFrom(pending, out) == OrderFrom(pending - (set x | x in free), out + Sort(free, StrLe))
              && |pending - (set x | x in free)| < |pending|
    ensures free == [] ==> OrderFrom(pending, out) == out + Ascending(pending.Keys)
  {
    var freeSet := set x | x in free;
    assert freeSet == Free(pending, out);
    if free != [] {
      assert free[0] in freeSet;
      FewerLeft(pending, freeSet);
      SortedIsAscending(free, freeSet);
    }
  }

  method DependencyOrder(units: seq<Member>) returns (out: seq<string>)
    ensures out == OrderFrom(Pending(units, Ids(units)), [])
  {
    var pending := Pending(units, Ids(units));
    var keys := DistinctIds(units);
    out := [];
    while |pending| > 0
      invariant forall x | x in pending :: x in keys
      invariant OrderFrom(Pending(units, Ids(units)), []) == OrderFrom(pending, out)
      decreases |pending|
    {
      var free := FreeIds(keys, pending, out);
      OrderSteps(pending, out, free);
      if free == [] {
        var rest := Remaining(keys, pending);
        SortedIsAscending(rest, pending.Keys);
        return out + Sort(rest, StrLe);
      }
      out := out + Sort(free, StrLe);
      pending := pending - set x | x in free;
    }
  }

  /** The pending ids all of whose dependencies are already out. */
  method FreeIds(keys: seq<string>, pending: map<string, seq<string>>, out: seq<string>) returns (free: seq<string>)
    requires Distinct(keys) && forall x | x in pending :: x in keys
    ensures Distinct(free) && forall x :: x in free <==> x in Free(pending, out)
  {
    free := [];
    for i := 0 to |keys|
      invariant Distinct(free)
      invariant forall x :: x in free <==> x in keys[..i] && x in Free(pending, out)
    {
      if keys[i] in pending && forall d | d in pending[keys[i]] :: d in out {
        assert keys[i] !in keys[..i];
        free := free + [keys[i]];
      }
      assert keys[..i + 1] == keys[..i] + [keys[i]];
    }
    assert keys[..|keys|] == keys;
  }

  method Remaining(keys: seq<string>, pending: map<string, seq<string>>) returns (rest: seq<string>)
    requires Distinct(keys) && forall x | x in pending :: x in keys
    ensures Distinct(rest) && forall x :: x in rest <==> x in pending
  {
    rest := [];
    for i := 0 to |keys|
      invariant Distinct(rest)
      invariant forall x :: x in rest <==> x in keys[..i] && x in pending
    {
      if keys[i] in pending { rest := rest + [keys[i]]; }
      assert keys[..i + 1] == keys[..i] + [keys[i]];
    }
    assert keys[..|keys|] == keys;
  }

  method DistinctIds(units: seq<Member>) returns (keys: seq<string>)
    ensures Distinct(keys) && forall x :: x in keys <==> x in Ids(units)
  {
    keys := [];
    for i := 0 to |units|
      invariant Distinct(keys)
      invariant forall x :: x in keys <==> x in Ids(units[..i])
    {
      assert units[..i + 1] == units[..i] + [units[i]];
      assert forall u | u in units[..i + 1] :: u in units[..i] || u == units[i];
      assert units[i] in units[..i + 1];
      assert Ids(units[..i + 1]) == Ids(units[..i]) + {units[i].id};
      if units[i].id !in keys { keys := keys + [units[i].id]; }
    }
    assert units[..|units|] == units;
  }

  // ---- what the order promises ----

  ghost predicate Ranked(pending: map<string, seq<string>>, rank: map<string, nat>) {
    forall x, d | x in pending && d in pending[x] && d in pending :: x in rank && d in rank && rank[d] < rank[x]
  }

  /** Every dependency stands before its dependent. */
  ghost predicate Respects(pending: map<string, seq<string>>, r: seq<string>) {
    forall j, d | 0 <= j < |r| && r[j] in pending && d in pending[r[j]] :: d in r[..j]
  }

  lemma {:induction false} OrderIsComplete(pending: map<string, seq<string>>, out: seq<string>)
    requires Distinct(out) && forall x | x in out :: x !in pending
    ensures var r := OrderFrom(pending, out);
            out <= r && Distinct(r) && forall x :: x in r <==> x in out || x in pending
    decreases |pending|
  {
    if |pending| == 0 {
      assert pending.Keys == {};
    } else if Free(pending, out) == {} {
      JoinDistinct(out, Ascending(pending.Keys));
    } else {
      OrderUnfolds(pending, out);
      var rest, next := pending - Free(pending, out), out + Ascending(Free(pending, out));
      FreeMoves(pending, out);
      OrderIsComplete(rest, next);
      Through(out, next, OrderFrom(rest, next));
    }
  }

  lemma FreeMoves(pending: map<string, seq<string>>, out: seq<string>)
    requires Distinct(out) && forall x | x in out :: x !in pending
    ensures var rest, next := pending - Free(pending, out), out + Ascending(Free(pending, out));
            && Distinct(next) && (forall x | x in next :: x !in rest) && out <= next
            && forall x :: x in next || x in rest <==> x in out || x in pending
  {
    JoinDistinct(out, Ascending(Free(pending, out)));
  }

  lemma Through(a: seq<string>, b: seq<string>, c: seq<string>)
    requires a <= b <= c
    ensures a <= c
  {
  }

  lemma JoinDistinct(a: seq<string>, b: seq<string>)
    requires Distinct(a) && Distinct(b) && forall x | x in a :: x !in b
    ensures Distinct(a + b)
  {
    var c := a + b;
    forall i, j | 0 <= i < j < |c| ensures c[i] != c[j] {
      if i < |a| <= j { assert c[i] in a && c[j] in b; }
    }
  }

  lemma LowestIsFree(pending: map<string, seq<string>>, out: seq<string>, rank: map<string, nat>, x: string)
    requires Ranked(pending, rank) && x in pending
    requires forall y, d | y in pending && d in pending[y] :: d in pending || d in out
    ensures Free(pending, out) != {}
    decreases if x in rank then rank[x] + 1 else 0
  {
    if d :| d in pending[x] && d !in out {
      LowestIsFree(pending, out, rank, d);
    } else {
      assert x in Free(pending, out);
    }
  }

  lemma RespectsAfterFree(pending: map<string, seq<string>>, out: seq<string>, asc: seq<string>, r: seq<string>)
    requires out + asc <= r && Distinct(r)
    requires forall x | x in out :: x !in pending
    requires forall x :: x in asc <==> x in Free(pending, out)
    requires Respects(pending - Free(pending, out), r)
    ensures Respects(pending, r)
  {
    assert forall k | 0 <= k < |out| :: r[k] == (out + asc)[k] && out[k] in out;
    forall j, d | 0 <= j < |r| && r[j] in pending && d in pending[r[j]] ensures d in r[..j] {
      assert j >= |out|;
      if r[j] in Free(pending, out) {
        assert out == r[..|out|];
        assert d in out;
        var k :| 0 <= k < |out| && out[k] == d;
        assert r[..j][k] == d;
      } else {
        assert r[j] in pending - Free(pending, out);
      }
    }
  }

  /** What is pending, given what is out: disjoint, closed, and acyclic. */
  ghost predicate Consistent(pending: map<string, seq<string>>, out: seq<string>, rank: map<string, nat>) {
    && Ranked(pending, rank) && Distinct(out) && (forall x | x in out :: x !in pending)
    && forall y, d | y in pending && d in pending[y] :: d in pending || d in out
  }

  lemma FreeStep(pending: map<string, seq<string>>, out: seq<string>, rank: map<string, nat>)
    requires Consistent(pending, out, rank)
    ensures Consistent(pending - Free(pending, out), out + Ascending(Free(pending, out)), rank)
  {
    JoinDistinct(out, Ascending(Free(pending, out)));
  }

  lemma OrderUnfolds(pending: map<string, seq<string>>, out: seq<string>)
    requires Free(pending, out) != {}
    ensures |pending - Free(pending, out)| < |pending|
    ensures OrderFrom(pending, out) == OrderFrom(pending - Free(pending, out), out + Ascending(Free(pending, out)))
  {
    assert Free(pending, out) <= pending.Keys;
    FewerLeft(pending, Free(pending, out));
  }

  lemma {:induction false} AcyclicIsRespected(pending: map<string, seq<string>>, out: seq<string>, rank: map<string, nat>)
    requires Consistent(pending, out, rank)
    ensures Respects(pending, OrderFrom(pending, out))
    decreases |pending|
  {
    if |pending| == 0 {
      assert pending.Keys == {};
    } else {
      assert pending.Keys != {};
      var x :| x in pending;
      LowestIsFree(pending, out, rank, x);
      FreeStep(pending, out, rank);
      OrderUnfolds(pending, out);
      var free := Free(pending, out);
      AcyclicIsRespected(pending - free, out + Ascending(free), rank);
      OrderIsComplete(pending - free, out + Ascending(free));
      RespectsAfterFree(pending, out, Ascending(free), OrderFrom(pending - free, out + Ascending(free)));
    }
  }

  lemma RespectsIsAcyclic(pending: map<string, seq<string>>, r: seq<string>) returns (rank: map<string, nat>)
    requires Respects(pending, r) && Distinct(r) && forall x | x in pending :: x in r
    ensures Ranked(pending, rank)
  {
    rank := map j: nat | 0 <= j < |r| :: r[j] := j;
    forall x, d | x in pending && d in pending[x] && d in pending
      ensures x in rank && d in rank && rank[d] < rank[x]
    {
      var j :| 0 <= j < |r| && r[j] == x;
      assert d in r[..j];
      var k :| 0 <= k < j && r[k] == d;
      assert r[rank[x]] == x && r[rank[d]] == d;
      assert rank[x] == j && rank[d] == k;
    }
  }

  /**
   The order lists each id of the batch exactly once, whatever the dependencies, and
   every in-batch dependency precedes its dependent if and only if they are acyclic.
   */
  lemma OrderIsTopological(units: seq<Member>)
    ensures var pending := Pending(units, Ids(units));
            var r := OrderFrom(pending, []);
            && Distinct(r) && (forall x :: x in r <==> x in Ids(units))
            && (Respects(pending, r) <==> exists rank :: Ranked(pending, rank))
  {
    var pending := Pending(units, Ids(units));
    var r := OrderFrom(pending, []);
    OrderIsComplete(pending, []);
    if rank :| Ranked(pending, rank) {
      AcyclicIsRespected(pending, [], rank);
    }
    if Respects(pending, r) {
      var rank := RespectsIsAcyclic(pending, r);
    }
  }

  /** The same batch integrates in the same order, however its units are listed. */
  lemma OrderIgnoresListing(a: seq<Member>, b: seq<Member>)
    requires multiset(a) == multiset(b)
    requires forall i, j | 0 <= i < j < |a| :: a[i].id != a[j].id
    ensures OrderFrom(Pending(a, Ids(a)), []) == OrderFrom(Pending(b, Ids(b)), [])
  {
    SameMembers(a, b);
    assert Ids(a) == Ids(b);
    var ids := Ids(a);
    forall x | x in ids ensures Pending(a, ids)[x] == Pending(b, ids)[x] { PendingAgrees(a, b, ids, x); }
    assert Pending(a, ids) == Pending(b, ids);
  }

  lemma PendingAgrees(a: seq<Member>, b: seq<Member>, ids: set<string>, x: string)
    requires (forall u :: u in a <==> u in b) && x in Ids(a) && x in Ids(b)
    requires forall i, j | 0 <= i < j < |a| :: a[i].id != a[j].id
    ensures Pending(a, ids)[x] == Pending(b, ids)[x]
  {
    var u :| u in a && u.id == x && Pending(a, ids)[x] == Within(ids, u.dependsOn);
    var v :| v in b && v.id == x && Pending(b, ids)[x] == Within(ids, v.dependsOn);
    assert v in a;
    var i :| 0 <= i < |a| && a[i] == u;
    var j :| 0 <= j < |a| && a[j] == v;
    assert i == j;
  }

  /** Ids that wait for nothing of the batch come in ascending order. */
  lemma IndependentIsAscending(units: seq<Member>)
    requires forall x | x in Ids(units) :: Pending(units, Ids(units))[x] == []
    ensures Sorted(StrLe, OrderFrom(Pending(units, Ids(units)), []))
  {
    var pending := Pending(units, Ids(units));
    if |pending| > 0 { OneRound(pending); }
    StrOrder(Listing(pending.Keys));
    SortSorted(Listing(pending.Keys), StrLe);
  }

  lemma OneRound(pending: map<string, seq<string>>)
    requires |pending| > 0 && forall x | x in pending :: pending[x] == []
    ensures OrderFrom(pending, []) == Ascending(pending.Keys)
  {
    var asc := Ascending(pending.Keys);
    assert Free(pending, []) == pending.Keys;
    assert [] + asc == asc;
    OrderUnfolds(pending, []);
    assert pending - Free(pending, []) == map[];
  }

  // ---- dependents ----

  ghost predicate Edge(units: seq<Member>, x: string, d: string) {
    exists u | u in units :: u.id == x && d in u.dependsOn
  }

  ghost predicate DependsPath(units: seq<Member>, p: seq<string>) {
    |p| >= 2 && forall i | 0 <= i < |p| - 1 :: Edge(units, p[i], p[i + 1])
  }

  /** `x` builds on `target` through one or more declared dependencies. */
  ghost predicate BuildsOn(units: seq<Member>, x: string, target: string) {
    exists p :: DependsPath(units, p) && p[0] == x && p[|p| - 1] == target
  }

  lemma BuildsOnStep(units: seq<Member>, x: string, d: string, target: string)
    requires Edge(units, x, d)
    requires d == target || BuildsOn(units, d, target)
    ensures BuildsOn(units, x, target)
  {
    if d == target {
      assert DependsPath(units, [x, d]);
    } else {
      var p :| DependsPath(units, p) && p[0] == d && p[|p| - 1] == target;
      var q := [x] + p;
      assert forall i | 1 <= i < |q| :: q[i] == p[i - 1];
      assert DependsPath(units, q);
    }
  }

  /** Nothing outside `out` depends on `target` or on a member of `out`. */
  ghost predicate Stable(units: seq<Member>, target: string, out: set<string>) {
    forall u | u in units :: u.id == target || u.id in out || forall d | d in u.dependsOn :: d != target && d !in out
  }

  lemma {:induction false} StableHoldsAll(units: seq<Member>, target: string, out: set<string>, p: seq<string>)
    requires Stable(units, target, out)
    requires DependsPath(units, p) && p[|p| - 1] == target
    ensures p[0] in out || p[0] == target
    decreases |p|
  {
    assert Edge(units, p[0], p[1]);
    if |p| > 2 {
      var q := p[1..];
      assert forall i | 0 <= i < |q| :: q[i] == p[i + 1];
      forall i | 0 <= i < |q| - 1 ensures Edge(units, q[i], q[i + 1]) {
        assert Edge(units, p[i + 1], p[i + 1 + 1]);
      }
      StableHoldsAll(units, target, out, q);
    }
    var u :| u in units && u.id == p[0] && p[1] in u.dependsOn;
  }

  /** Exactly the other ids of the batch that build on `target`, in ascending order. */
  method Dependents(target: string, units: seq<Member>) returns (r: seq<string>)
    ensures Distinct(r) && Sorted(StrLe, r)
    ensures forall x :: x in r <==> x != target && BuildsOn(units, x, target)
  {
    var out: set<string> := {};
    var listed: seq<string> := [];
    var grew := true;
    while grew
      invariant out <= Ids(units)
      invariant Distinct(listed) && forall x :: x in listed <==> x in out
      invariant forall x | x in out :: x != target && BuildsOn(units, x, target)
      invariant !grew ==> Stable(units, target, out)
      decreases Ids(units) - out, grew
    {
      grew := false;
      ghost var before := out;
      for i := 0 to |units|
        invariant before <= out <= Ids(units)
        invariant Distinct(listed) && forall x :: x in listed <==> x in out
        invariant grew ==> before < out
        invariant !grew ==> out == before
        invariant forall x | x in out :: x != target && BuildsOn(units, x, target)
        invariant !grew ==> forall k | 0 <= k < i ::
                    units[k].id == target || units[k].id in out || forall d | d in units[k].dependsOn :: d != target && d !in out
      {
        var u := units[i];
        if u.id != target && u.id !in out && exists d | d in u.dependsOn :: d == target || d in out {
          ghost var d :| d in u.dependsOn && (d == target || d in out);
          assert Edge(units, u.id, d);
          BuildsOnStep(units, u.id, d, target);
          assert u.id !in before;
          out := out + {u.id};
          listed := listed + [u.id];
          grew := true;
        }
      }
    }
    forall x | x != target && BuildsOn(units, x, target) ensures x in out {
      var p :| DependsPath(units, p) && p[0] == x && p[|p| - 1] == target;
      StableHoldsAll(units, target, out, p);
    }
    r := Sort(listed, StrLe);
    StrOrder(listed);
    SortSorted(listed, StrLe);
    SortDistinct(listed, StrLe);
    SortMembers(listed, StrLe);
  }
}
