/**
 Wave numbers (`scripts/oracle.ts`): within a phase, over unfinished work only,
 nodes are placed in rounds, at most nineteen of them. A node's wave is the length
 of the longest chain of unfinished in-phase needs that starts at it; a chain of
 twenty nodes or more, which is what a cycle gives, leaves it unplaced.
 */
module Waves {
  import opened Graph
  import opened Sorting

  const ROUNDS := 20

  function Unfinished(byId: map<string, Resolved>, phase: int): set<string> {
    set n | n in byId && byId[n].phase == phase && byId[n].state != DONE
  }

  /** `n` waits for `d`: an unfinished need of the same phase. */
  ghost predicate Waits(byId: map<string, Resolved>, phase: int, n: string, d: string) {
    n in Unfinished(byId, phase) && d in Unfinished(byId, phase) && d in byId[n].needs
  }

  ghost predicate Chain(byId: map<string, Resolved>, phase: int, p: seq<string>) {
    && p != [] && p[0] in Unfinished(byId, phase)
    && forall i | 0 <= i < |p| - 1 :: Waits(byId, phase, p[i], p[i + 1])
  }

  /** A chain of `k` nodes starts at `n`. */
  ghost predicate HasChain(byId: map<string, Resolved>, phase: int, n: string, k: nat) {
    exists p :: Chain(byId, phase, p) && p[0] == n && |p| == k
  }

  // ---- chains ----

  lemma ChainGrows(byId: map<string, Resolved>, phase: int, n: string, d: string, k: nat)
    requires Waits(byId, phase, n, d) && HasChain(byId, phase, d, k)
    ensures HasChain(byId, phase, n, k + 1)
  {
    var p :| Chain(byId, phase, p) && p[0] == d && |p| == k;
    var q := [n] + p;
    assert forall i | 1 <= i < |q| :: q[i] == p[i - 1];
    assert Chain(byId, phase, q);
  }

  lemma ChainStep(byId: map<string, Resolved>, phase: int, n: string, k: nat) returns (d: string)
    requires k >= 1 && HasChain(byId, phase, n, k + 1)
    ensures Waits(byId, phase, n, d) && HasChain(byId, phase, d, k)
  {
    var p :| Chain(byId, phase, p) && p[0] == n && |p| == k + 1;
    d := p[1];
    assert Waits(byId, phase, p[0], p[0 + 1]);
    var q := p[1..];
    assert forall i | 0 <= i < |q| :: q[i] == p[i + 1];
    forall i | 0 <= i < |q| - 1 ensures Waits(byId, phase, q[i], q[i + 1]) {
      assert Waits(byId, phase, p[i + 1], p[i + 1 + 1]);
    }
    assert Chain(byId, phase, q);
  }

  lemma ChainShortens(byId: map<string, Resolved>, phase: int, n: string, k: nat, l: nat)
    requires HasChain(byId, phase, n, k) && 1 <= l <= k
    ensures HasChain(byId, phase, n, l)
  {
    var p :| Chain(byId, phase, p) && p[0] == n && |p| == k;
    assert Chain(byId, phase, p[..l]);
  }

  /** Every member waits for a member: then every member starts chains of every length. */
  ghost predicate Endless(byId: map<string, Resolved>, phase: int, r: set<string>) {
    forall n {:trigger WaitsInside(byId, phase, r, n)} | n in r :: WaitsInside(byId, phase, r, n)
  }

  ghost predicate WaitsInside(byId: map<string, Resolved>, phase: int, r: set<string>, n: string) {
    exists d | d in r :: Waits(byId, phase, n, d)
  }

  lemma {:induction false} EndlessChains(byId: map<string, Resolved>, phase: int, r: set<string>, n: string, k: nat)
    requires Endless(byId, phase, r) && n in r && k >= 1
    ensures HasChain(byId, phase, n, k)
    decreases k
  {
    assert WaitsInside(byId, phase, r, n);
    var d :| d in r && Waits(byId, phase, n, d);
    if k == 1 {
      assert Chain(byId, phase, [n]);
    } else {
      EndlessChains(byId, phase, r, d, k - 1);
      ChainGrows(byId, phase, n, d, k - 1);
    }
  }

  // ---- the rounds ----

  /** The wave of `n` is `w`: the exact reading of a wave number. */
  ghost predicate IsWave(byId: map<string, Resolved>, phase: int, n: string, w: nat) {
    if w == 0 then HasChain(byId, phase, n, ROUNDS)
    else w < ROUNDS && HasChain(byId, phase, n, w) && !HasChain(byId, phase, n, w + 1)
  }

  /** After the rounds below `wave`, exactly the nodes with no chain of `wave` nodes are placed. */
  ghost predicate PlacedBelow(byId: map<string, Resolved>, phase: int, placed: set<string>, wave: nat) {
    forall n | n in Unfinished(byId, phase) :: n in placed <==> !HasChain(byId, phase, n, wave)
  }

  /** The nodes a round places: unplaced, and waiting for placed nodes only. */
  function Batch(byId: map<string, Resolved>, phase: int, placed: set<string>): (batch: set<string>)
    ensures forall n :: n in batch <==>
              n in Unfinished(byId, phase) && n !in placed && forall d | Waits(byId, phase, n, d) :: d in placed
  {
    var unfinished := Unfinished(byId, phase);
    set n | n in unfinished && n !in placed && forall d | d in byId[n].needs :: d !in unfinished || d in placed
  }

  lemma RoundPlaces(byId: map<string, Resolved>, phase: int, placed: set<string>, batch: set<string>, wave: nat)
    requires wave >= 1 && PlacedBelow(byId, phase, placed, wave)
    requires batch == Batch(byId, phase, placed)
    ensures forall n | n in batch :: HasChain(byId, phase, n, wave) && !HasChain(byId, phase, n, wave + 1)
    ensures PlacedBelow(byId, phase, placed + batch, wave + 1)
  {
    forall n | n in Unfinished(byId, phase)
      ensures n in placed + batch <==> !HasChain(byId, phase, n, wave + 1)
      ensures n in batch ==> !HasChain(byId, phase, n, wave + 1)
    {
      if HasChain(byId, phase, n, wave + 1) {
        var d := ChainStep(byId, phase, n, wave);
        ChainShortens(byId, phase, n, wave + 1, wave);
      } else if n !in placed {
        forall d | Waits(byId, phase, n, d) ensures d in placed {
          if HasChain(byId, phase, d, wave) { ChainGrows(byId, phase, n, d, wave); }
        }
      }
    }
  }

  /** A round that places nothing leaves only nodes with endless chains. */
  lemma StallIsEndless(byId: map<string, Resolved>, phase: int, placed: set<string>, n: string)
    requires Batch(byId, phase, placed) == {}
    requires n in Unfinished(byId, phase) && n !in placed
    ensures IsWave(byId, phase, n, 0)
  {
    var r := Unfinished(byId, phase) - placed;
    forall m | m in r ensures WaitsInside(byId, phase, r, m) {
      assert m !in Batch(byId, phase, placed);
      var d :| Waits(byId, phase, m, d) && d !in placed;
      assert d in r;
    }
    EndlessChains(byId, phase, r, n, ROUNDS);
  }

  /** Where the rounds stand: placed nodes have their wave, the others are still at 0. */
  ghost predicate Placing(byId: map<string, Resolved>, phase: int, placed: set<string>, waves: map<string, nat>, wave: nat) {
    && 1 <= wave <= ROUNDS && placed <= Unfinished(byId, phase) && waves.Keys == Unfinished(byId, phase)
    && PlacedBelow(byId, phase, placed, wave)
    && forall n | n in waves ::
         if n in placed then waves[n] >= 1 && IsWave(byId, phase, n, waves[n]) else waves[n] == 0
  }

  lemma PlacingStarts(byId: map<string, Resolved>, phase: int)
    ensures Placing(byId, phase, {}, map n | n in Unfinished(byId, phase) :: 0, 1)
  {
    forall n | n in Unfinished(byId, phase) ensures HasChain(byId, phase, n, 1) {
      assert Chain(byId, phase, [n]);
    }
  }

  lemma PlacingRound(byId: map<string, Resolved>, phase: int, placed: set<string>, waves: map<string, nat>, wave: nat)
    requires Placing(byId, phase, placed, waves, wave) && wave < ROUNDS
    ensures var batch := Batch(byId, phase, placed);
            Placing(byId, phase, placed + batch, map n | n in waves :: if n in batch then wave else waves[n], wave + 1)
  {
    RoundPlaces(byId, phase, placed, Batch(byId, phase, placed), wave);
  }

  lemma PlacingEnds(byId: map<string, Resolved>, phase: int, placed: set<string>, waves: map<string, nat>, wave: nat)
    requires Placing(byId, phase, placed, waves, wave)
    requires Unfinished(byId, phase) <= placed || wave == ROUNDS || Batch(byId, phase, placed) == {}
    ensures forall n | n in waves :: IsWave(byId, phase, n, waves[n])
  {
    forall n | n in waves && n !in placed ensures IsWave(byId, phase, n, 0) {
      if wave < ROUNDS {
        StallIsEndless(byId, phase, placed, n);
      }
    }
  }

  /** The wave of every unfinished node of a phase: its longest chain, or 0 when that has twenty nodes or more. */
  method AssignWaves(byId: map<string, Resolved>, phase: int) returns (waves: map<string, nat>)
    ensures waves.Keys == Unfinished(byId, phase)
    ensures forall n | n in waves :: IsWave(byId, phase, n, waves[n])
  {
    var unfinished := Unfinished(byId, phase);
    waves := map n | n in unfinished :: 0;
    var placed: set<string> := {};
    var wave: nat := 1;
    PlacingStarts(byId, phase);
    while unfinished - placed != {} && wave < ROUNDS
      invariant Placing(byId, phase, placed, waves, wave)
      decreases ROUNDS - wave
    {
      var batch := Batch(byId, phase, placed);
      if batch == {} {
        break;
      }
      PlacingRound(byId, phase, placed, waves, wave);
      waves := map n | n in waves :: if n in batch then wave else waves[n];
      placed := placed + batch;
      wave := wave + 1;
    }
    assert unfinished - placed == {} ==> unfinished <= placed;
    PlacingEnds(byId, phase, placed, waves, wave);
  }

  // ---- waves are layers ----

  /** What a placed node waits for is placed in an earlier wave, and one of them in the wave just before. */
  lemma WavesAreLayers(byId: map<string, Resolved>, phase: int, waves: map<string, nat>, n: string)
    requires waves.Keys == Unfinished(byId, phase) && forall m | m in waves :: IsWave(byId, phase, m, waves[m])
    requires n in waves && waves[n] > 0
    ensures forall d | Waits(byId, phase, n, d) :: 0 < waves[d] < waves[n]
    ensures waves[n] > 1 ==> exists d :: Waits(byId, phase, n, d) && waves[d] == waves[n] - 1
  {
    var w := waves[n];
    forall d | Waits(byId, phase, n, d) ensures 0 < waves[d] < w {
      if HasChain(byId, phase, d, w) {
        ChainGrows(byId, phase, n, d, w);
      }
      if waves[d] == 0 {
        ChainShortens(byId, phase, d, ROUNDS, w);
      } else if waves[d] > w {
        ChainShortens(byId, phase, d, waves[d], w);
      }
    }
    if w > 1 {
      var d := ChainStep(byId, phase, n, w - 1);
      assert 0 < waves[d] < w;
      if waves[d] < w - 1 {
        ChainShortens(byId, phase, d, w - 1, waves[d] + 1);
      }
    }
  }

  /** A chain from `n` comes back to a node it has already visited: `n` is on or behind a cycle. */
  ghost predicate BehindCycle(byId: map<string, Resolved>, phase: int, n: string) {
    exists p, i, j :: Chain(byId, phase, p) && p[0] == n && 0 <= i < j < |p| && p[i] == p[j]
  }

  lemma CycleIsEndless(byId: map<string, Resolved>, phase: int, n: string, k: nat)
    requires BehindCycle(byId, phase, n) && k >= 1
    ensures HasChain(byId, phase, n, k)
  {
    var p, i, j :| Chain(byId, phase, p) && p[0] == n && 0 <= i < j < |p| && p[i] == p[j];
    var r := set x | x in p[..j];
    forall m | m in r ensures WaitsInside(byId, phase, r, m) {
      var a :| 0 <= a < j && p[a] == m;
      assert Waits(byId, phase, p[a], p[a + 1]);
      if a + 1 < j {
        assert p[..j][a + 1] == p[a + 1];
      } else {
        assert p[..j][i] == p[a + 1];
      }
    }
    assert p[..j][0] == n;
    EndlessChains(byId, phase, r, n, k);
  }

  /** Twenty different nodes in a chain. */
  ghost predicate LongPath(byId: map<string, Resolved>, phase: int, n: string) {
    exists p :: Chain(byId, phase, p) && p[0] == n && |p| == 20 && Distinct(p)
  }

  /** A node is left unplaced exactly if it is on or behind a cycle, or at the start of a chain of twenty different nodes. */
  lemma UnplacedExactly(byId: map<string, Resolved>, phase: int, n: string)
    ensures IsWave(byId, phase, n, 0) <==> BehindCycle(byId, phase, n) || LongPath(byId, phase, n)
  {
    if BehindCycle(byId, phase, n) {
      CycleIsEndless(byId, phase, n, ROUNDS);
    }
    if IsWave(byId, phase, n, 0) && !LongPath(byId, phase, n) {
      var p :| Chain(byId, phase, p) && p[0] == n && |p| == ROUNDS;
      var i, j :| 0 <= i < j < |p| && p[i] == p[j];
    }
  }

  // ---- the next wave ----

  predicate IsFirst(waves: map<string, nat>, n: string) {
    n in waves && waves[n] > 0 && forall m | m in waves && waves[m] > 0 :: waves[n] <= waves[m]
  }

  /** The ids of the lowest wave that has any, ascending. */
  method NextWave(byId: map<string, Resolved>, phase: int) returns (ids: seq<string>, waves: map<string, nat>)
    ensures waves.Keys == Unfinished(byId, phase) && forall n | n in waves :: IsWave(byId, phase, n, waves[n])
    ensures Distinct(ids) && Sorted(StrLe, ids) && forall n :: n in ids <==> IsFirst(waves, n)
  {
    waves := AssignWaves(byId, phase);
    var todo := waves.Keys;
    var first: seq<string> := [];
    while todo != {}
      invariant todo <= waves.Keys && Distinct(first)
      invariant forall n :: n in first <==> n in waves && n !in todo && IsFirst(waves, n)
    {
      var n :| n in todo;
      todo := todo - {n};
      if IsFirst(waves, n) { first := first + [n]; }
    }
    StrOrder(first);
    SortSorted(first, StrLe);
    SortDistinct(first, StrLe);
    SortMembers(first, StrLe);
    ids := Sort(first, StrLe);
  }

  /** A batch taken from one wave has no dependency inside it, so its units have no in-batch dependencies. */
  lemma NextWaveIsAnAntichain(byId: map<string, Resolved>, phase: int, waves: map<string, nat>, ids: seq<string>, n: string)
    requires waves.Keys == Unfinished(byId, phase) && forall m | m in waves :: IsWave(byId, phase, m, waves[m])
    requires forall m :: m in ids <==> IsFirst(waves, m)
    requires n in ids
    ensures n in byId && Keep(byId[n].needs, d => d in ids) == []
  {
    WavesAreLayers(byId, phase, waves, n);
    var inBatch := Keep(byId[n].needs, d => d in ids);
    if inBatch != [] {
      var d := inBatch[0];
      assert d in inBatch;
      assert Waits(byId, phase, n, d);
    }
  }

  /** And it is wave 1: its nodes wait for nothing that is unfinished in their phase, and all that do not are in it. */
  lemma NextWaveWaitsForNothing(byId: map<string, Resolved>, phase: int, waves: map<string, nat>, n: string)
    requires waves.Keys == Unfinished(byId, phase) && forall m | m in waves :: IsWave(byId, phase, m, waves[m])
    ensures IsFirst(waves, n) ==> waves[n] == 1 && forall d :: !Waits(byId, phase, n, d)
    ensures n in waves && waves[n] == 1 ==> IsFirst(waves, n)
  {
    if IsFirst(waves, n) { WavesAreLayers(byId, phase, waves, n); }
  }
}
