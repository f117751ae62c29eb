/** Lists built from lists, one after the other. */
module Lists {
  import opened Graph
  import opened Sorting

  /** `f` of each element, one after the other. */
  function Gather<T, U>(xs: seq<T>, f: T -> seq<U>): seq<U> {
    if xs == [] then [] else Gather(xs[..|xs| - 1], f) + f(xs[|xs| - 1])
  }

  lemma GatherOne<T, U>(x: T, f: T -> seq<U>)
    ensures Gather([x], f) == f(x)
  {
    assert [x][..0] == [];
    assert Gather([x], f) == [] + f(x);
  }

  lemma GatherNext<T, U>(xs: seq<T>, i: nat, f: T -> seq<U>)
    requires i < |xs|
    ensures Gather(xs[..i + 1], f) == Gather(xs[..i], f) + f(xs[i])
  {
    assert xs[..i + 1][..i] == xs[..i];
  }

  lemma {:induction false} GatherSplits<T, U>(a: seq<T>, b: seq<T>, f: T -> seq<U>)
    ensures Gather(a + b, f) == Gather(a, f) + Gather(b, f)
  {
    if b == [] {
      assert a + b == a;
    } else {
      var n := |b| - 1;
      GatherSplits(a, b[..n], f);
      assert (a + b)[..|a + b| - 1] == a + b[..n];
    }
  }

  lemma {:induction false} GatherMembers<T, U>(xs: seq<T>, f: T -> seq<U>, y: U)
    ensures y in Gather(xs, f) <==> exists x :: x in xs && y in f(x)
  {
    if xs != [] {
      var n := |xs| - 1;
      GatherMembers(xs[..n], f, y);
      assert forall x :: x in xs <==> x in xs[..n] || x == xs[n];
    }
  }

  lemma {:induction false} KeepMultiset<T(!new)>(xs: seq<T>, p: T -> bool, x: T)
    ensures multiset(Keep(xs, p))[x] == if p(x) then multiset(xs)[x] else 0
  {
    if xs != [] {
      KeepMultiset(xs[1..], p, x);
      assert xs == [xs[0]] + xs[1..];
      assert multiset(xs) == multiset{xs[0]} + multiset(xs[1..]);
    }
  }

  lemma {:induction false} KeepSame<T(!new)>(xs: seq<T>, p: T -> bool, q: T -> bool)
    requires forall x | x in xs :: p(x) == q(x)
    ensures Keep(xs, p) == Keep(xs, q)
  {
    if xs != [] {
      assert xs[0] in xs;
      assert forall x | x in xs[1..] :: x in xs;
      KeepSame(xs[1..], p, q);
    }
  }

  lemma {:induction false} KeepAllOrNone<T(!new)>(xs: seq<T>, p: T -> bool, all: bool)
    requires forall x | x in xs :: p(x) == all
    ensures Keep(xs, p) == if all then xs else []
  {
    if xs != [] {
      assert xs[0] in xs;
      assert forall x | x in xs[1..] :: x in xs;
      KeepAllOrNone(xs[1..], p, all);
    }
  }

  lemma {:induction false} KeepTwice<T(!new)>(xs: seq<T>, p: T -> bool, q: T -> bool)
    ensures Keep(Keep(xs, p), q) == Keep(xs, x => p(x) && q(x))
  {
    if xs != [] {
      KeepTwice(xs[1..], p, q);
      if p(xs[0]) { assert ([xs[0]] + Keep(xs[1..], p))[1..] == Keep(xs[1..], p); }
    }
  }

  lemma KeepBoth<T(!new)>(xs: seq<T>, p: T -> bool, q: T -> bool, both: T -> bool)
    requires forall x | x in xs :: (p(x) && q(x)) == both(x)
    ensures Keep(Keep(xs, p), q) == Keep(xs, both)
  {
    KeepTwice(xs, p, q);
    KeepSame(xs, x => p(x) && q(x), both);
  }

  lemma {:induction false} KeepDistinct<T(!new)>(xs: seq<T>, p: T -> bool)
    requires Distinct(xs)
    ensures Distinct(Keep(xs, p))
  {
    if xs != [] {
      KeepDistinct(xs[1..], p);
      assert xs[0] !in xs[1..];
    }
  }

  /** The parts with `sep` between them. */
  function Join<T>(parts: seq<seq<T>>, sep: seq<T>): seq<T> {
    if parts == [] then []
    else if |parts| == 1 then parts[0]
    else parts[0] + sep + Join(parts[1..], sep)
  }

  lemma SeparatorIsAt<T>(a: seq<T>, x: seq<T>, k: nat, sep: T)
    requires sep !in a && k <= |a|
    ensures (a + [sep] + x)[k] == sep <==> k == |a|
  {
    if k < |a| { assert (a + [sep] + x)[k] == a[k]; }
  }

  /** The first separator shows where what has none ends. */
  lemma SplitAtFirst<T>(a: seq<T>, x: seq<T>, b: seq<T>, y: seq<T>, sep: T)
    requires sep !in a && sep !in b && a + [sep] + x == b + [sep] + y
    ensures a == b && x == y
  {
    var l, r := a + [sep] + x, b + [sep] + y;
    var k := if |a| < |b| then |a| else |b|;
    SeparatorIsAt(a, x, k, sep);
    SeparatorIsAt(b, y, k, sep);
    assert a == l[..|a|] && b == r[..|b|] && x == l[|a| + 1..] && y == r[|b| + 1..];
  }

  ghost predicate Separable<T>(parts: seq<seq<T>>, sep: T) {
    forall p | p in parts :: p != [] && sep !in p
  }

  lemma NotSplit<T>(a: seq<T>, b: seq<T>, x: seq<T>, sep: T)
    requires sep !in a
    ensures a != b + [sep] + x
  {
    assert (b + [sep] + x)[|b|] == sep;
  }

  lemma JoinIsSome<T>(parts: seq<seq<T>>, sep: T)
    requires Separable(parts, sep)
    ensures Join(parts, [sep]) == [] <==> parts == []
  {
    if parts != [] { assert parts[0] in parts; }
  }

  /** Parts that have no separator in them and are not empty are told apart by their joined text. */
  lemma {:induction false} JoinIsInjective<T>(a: seq<seq<T>>, b: seq<seq<T>>, sep: T)
    requires Separable(a, sep) && Separable(b, sep) && Join(a, [sep]) == Join(b, [sep])
    ensures a == b
    decreases |a|
  {
    JoinIsSome(a, sep);
    JoinIsSome(b, sep);
    if a != [] && b != [] {
      assert a[0] in a && b[0] in b;
      if |a| == 1 && |b| == 1 {
      } else if |a| == 1 {
        NotSplit(a[0], b[0], Join(b[1..], [sep]), sep);
      } else if |b| == 1 {
        NotSplit(b[0], a[0], Join(a[1..], [sep]), sep);
      } else {
        SplitAtFirst(a[0], Join(a[1..], [sep]), b[0], Join(b[1..], [sep]), sep);
        assert (forall p | p in a[1..] :: p in a) && (forall p | p in b[1..] :: p in b);
        JoinIsInjective(a[1..], b[1..], sep);
        assert a == [a[0]] + a[1..] && b == [b[0]] + b[1..];
      }
    }
  }
}

module Numbers {

  function Min(a: int, b: int): int { if a < b then a else b }

  function Max(a: int, b: int): int { if a < b then b else a }
}
