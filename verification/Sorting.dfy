/**
 Sorting as the repository uses it: a stable sort under a comparator, and the
 lexicographic order JavaScript gives strings. The order is on the code of each
 character, which is what `<` and the default `sort` compare.
 */
module Sorting {

  // ---- orders ----

  ghost predicate Total<T>(le: (T, T) -> bool, xs: seq<T>) {
    forall x, y | x in xs && y in xs :: le(x, y) || le(y, x)
  }

  ghost predicate Transitive<T>(le: (T, T) -> bool, xs: seq<T>) {
    forall x, y, z | x in xs && y in xs && z in xs :: le(x, y) && le(y, z) ==> le(x, z)
  }

  ghost predicate Antisymmetric<T>(le: (T, T) -> bool, xs: seq<T>) {
    forall x, y | x in xs && y in xs :: le(x, y) && le(y, x) ==> x == y
  }

  ghost predicate Sorted<T>(le: (T, T) -> bool, xs: seq<T>) {
    forall i, j | 0 <= i < j < |xs| :: le(xs[i], xs[j])
  }

  // ---- the sort ----

  /** Puts `x` before the first element it does not exceed, so equal elements keep their order. */
  function Insert<T>(x: T, xs: seq<T>, le: (T, T) -> bool): (r: seq<T>)
    ensures |r| == |xs| + 1
  {
    if xs == [] || le(x, xs[0]) then [x] + xs else [xs[0]] + Insert(x, xs[1..], le)
  }

  function Sort<T>(xs: seq<T>, le: (T, T) -> bool): (r: seq<T>)
    ensures |r| == |xs|
  {
    if xs == [] then [] else Insert(xs[0], Sort(xs[1..], le), le)
  }

  lemma {:induction false} InsertPermutes<T>(x: T, xs: seq<T>, le: (T, T) -> bool)
    ensures multiset(Insert(x, xs, le)) == multiset(xs) + multiset{x}
  {
    if xs == [] || le(x, xs[0]) {
    } else {
      InsertPermutes(x, xs[1..], le);
      assert xs == [xs[0]] + xs[1..];
    }
  }

  /** Sorting loses nothing and invents nothing. */
  lemma {:induction false} SortPermutes<T>(xs: seq<T>, le: (T, T) -> bool)
    ensures multiset(Sort(xs, le)) == multiset(xs)
  {
    if xs != [] {
      SortPermutes(xs[1..], le);
      InsertPermutes(xs[0], Sort(xs[1..], le), le);
      assert xs == [xs[0]] + xs[1..];
    }
  }

  lemma SameMembers<T>(xs: seq<T>, ys: seq<T>)
    requires multiset(xs) == multiset(ys)
    ensures forall x :: x in xs <==> x in ys
    ensures |xs| == |ys|
  {
    forall x ensures x in xs <==> x in ys {
      assert x in xs <==> x in multiset(xs);
      assert x in ys <==> x in multiset(ys);
    }
    assert |multiset(xs)| == |xs| && |multiset(ys)| == |ys|;
  }

  lemma SortMembers<T>(xs: seq<T>, le: (T, T) -> bool)
    ensures forall x :: x in Sort(xs, le) <==> x in xs
  {
    SortPermutes(xs, le);
    SameMembers(Sort(xs, le), xs);
  }

  lemma HeadThenSorted<T>(x: T, xs: seq<T>, le: (T, T) -> bool)
    requires Sorted(le, xs) && forall y | y in xs :: le(x, y)
    ensures Sorted(le, [x] + xs)
  {
  }

  lemma InsertMembers<T>(x: T, xs: seq<T>, le: (T, T) -> bool, y: T)
    requires y in Insert(x, xs, le)
    ensures y == x || y in xs
  {
    InsertPermutes(x, xs, le);
    assert y in multiset(Insert(x, xs, le));
  }

  lemma {:induction false} InsertSorted<T>(x: T, xs: seq<T>, le: (T, T) -> bool)
    requires Sorted(le, xs)
    requires Total(le, [x] + xs) && Transitive(le, [x] + xs)
    ensures Sorted(le, Insert(x, xs, le))
  {
    var all := [x] + xs;
    assert x == all[0] && forall i | 0 <= i < |xs| :: xs[i] == all[i + 1] && xs[i] in all;
    if xs == [] {
    } else if le(x, xs[0]) {
      forall y | y in xs ensures le(x, y) {
        var j :| 0 <= j < |xs| && xs[j] == y;
        assert j == 0 || le(xs[0], xs[j]);
      }
      HeadThenSorted(x, xs, le);
    } else {
      var t := xs[1..];
      assert forall y | y in [x] + t :: y in all;
      InsertSorted(x, t, le);
      forall y | y in Insert(x, t, le) ensures le(xs[0], y) {
        InsertMembers(x, t, le, y);
      }
      HeadThenSorted(xs[0], Insert(x, t, le), le);
    }
  }

  lemma {:induction false} SortSorted<T>(xs: seq<T>, le: (T, T) -> bool)
    requires Total(le, xs) && Transitive(le, xs)
    ensures Sorted(le, Sort(xs, le))
  {
    if xs != [] {
      var t := xs[1..];
      assert forall y | y in t :: y in xs;
      SortSorted(t, le);
      SortPermutes(t, le);
      var s := Sort(t, le);
      forall y | y in [xs[0]] + s ensures y in xs {
        if y != xs[0] { assert y in multiset(s); }
      }
      InsertSorted(xs[0], s, le);
    }
  }

  lemma SortedHeads<T>(xs: seq<T>, ys: seq<T>, le: (T, T) -> bool)
    requires xs != [] && ys != [] && xs[0] in ys && ys[0] in xs
    requires Sorted(le, xs) && Sorted(le, ys)
    requires Antisymmetric(le, xs)
    ensures xs[0] == ys[0]
  {
    var i :| 0 <= i < |ys| && ys[i] == xs[0];
    var j :| 0 <= j < |xs| && xs[j] == ys[0];
    if i > 0 && j > 0 {
      assert le(ys[0], ys[i]) && le(xs[0], xs[j]);
    }
  }

  lemma SameTails<T>(xs: seq<T>, ys: seq<T>)
    requires xs != [] && ys != [] && xs[0] == ys[0] && multiset(xs) == multiset(ys)
    ensures multiset(xs[1..]) == multiset(ys[1..])
  {
    assert xs == [xs[0]] + xs[1..] && ys == [ys[0]] + ys[1..];
    assert multiset(xs[1..]) == multiset(xs) - multiset{xs[0]};
    assert multiset(ys[1..]) == multiset(ys) - multiset{ys[0]};
  }

  /** A sorted arrangement of given elements is unique when no two different elements tie. */
  lemma {:induction false} SortedUnique<T>(xs: seq<T>, ys: seq<T>, le: (T, T) -> bool)
    requires multiset(xs) == multiset(ys)
    requires Sorted(le, xs) && Sorted(le, ys)
    requires Antisymmetric(le, xs)
    ensures xs == ys
  {
    SameMembers(xs, ys);
    if xs != [] {
      assert xs[0] in ys && ys[0] in xs;
      SortedHeads(xs, ys, le);
      SameTails(xs, ys);
      assert Antisymmetric(le, xs[1..]) by {
        forall x | x in xs[1..] ensures x in xs {}
      }
      SortedUnique(xs[1..], ys[1..], le);
      assert xs == [xs[0]] + xs[1..] && ys == [ys[0]] + ys[1..];
    }
  }

  lemma OrderTransfers<T>(xs: seq<T>, ys: seq<T>, le: (T, T) -> bool)
    requires multiset(xs) == multiset(ys)
    requires Total(le, xs) && Transitive(le, xs) && Antisymmetric(le, xs)
    ensures Total(le, ys) && Transitive(le, ys) && Antisymmetric(le, ys)
  {
    SameMembers(ys, xs);
  }

  /** The sort's result depends on which elements there are, not on how they arrived. */
  lemma SortIgnoresOrder<T>(xs: seq<T>, ys: seq<T>, le: (T, T) -> bool)
    requires multiset(xs) == multiset(ys)
    requires Total(le, xs) && Transitive(le, xs) && Antisymmetric(le, xs)
    ensures Sort(xs, le) == Sort(ys, le)
  {
    OrderTransfers(xs, ys, le);
    SortSorted(xs, le);
    SortSorted(ys, le);
    SortPermutes(xs, le);
    SortPermutes(ys, le);
    OrderTransfers(xs, Sort(xs, le), le);
    SortedUnique(Sort(xs, le), Sort(ys, le), le);
  }

  // ---- strings ----

  /** Lexicographic order on codes. */
  predicate CodesLe(a: seq<int>, b: seq<int>) {
    a == [] || (b != [] && (a[0] < b[0] || (a[0] == b[0] && CodesLe(a[1..], b[1..]))))
  }

  function Codes(s: string): (r: seq<int>)
    ensures |r| == |s|
  {
    seq(|s|, i requires 0 <= i < |s| => s[i] as int)
  }

  predicate StrLe(a: string, b: string) {
    CodesLe(Codes(a), Codes(b))
  }

  lemma {:induction false} CodesTotal(a: seq<int>, b: seq<int>)
    ensures CodesLe(a, b) || CodesLe(b, a)
  {
    if a != [] && b != [] { CodesTotal(a[1..], b[1..]); }
  }

  lemma {:induction false} CodesAntisymmetric(a: seq<int>, b: seq<int>)
    requires CodesLe(a, b) && CodesLe(b, a)
    ensures a == b
  {
    if a != [] {
      CodesAntisymmetric(a[1..], b[1..]);
      assert a == [a[0]] + a[1..] && b == [b[0]] + b[1..];
    }
  }

  lemma {:induction false} CodesTransitive(a: seq<int>, b: seq<int>, c: seq<int>)
    requires CodesLe(a, b) && CodesLe(b, c)
    ensures CodesLe(a, c)
  {
    if a != [] && a[0] == b[0] && b[0] == c[0] { CodesTransitive(a[1..], b[1..], c[1..]); }
  }

  lemma StrTotal(a: string, b: string)
    ensures StrLe(a, b) || StrLe(b, a)
  {
    CodesTotal(Codes(a), Codes(b));
  }

  lemma StrAntisymmetric(a: string, b: string)
    requires StrLe(a, b) && StrLe(b, a)
    ensures a == b
  {
    CodesAntisymmetric(Codes(a), Codes(b));
    forall i | 0 <= i < |a| ensures a[i] == b[i] {
      assert Codes(a)[i] == Codes(b)[i];
    }
  }

  lemma StrTransitive(a: string, b: string, c: string)
    requires StrLe(a, b) && StrLe(b, c)
    ensures StrLe(a, c)
  {
    CodesTransitive(Codes(a), Codes(b), Codes(c));
  }

  lemma StrOrder(xs: seq<string>)
    ensures Total(StrLe, xs) && Transitive(StrLe, xs) && Antisymmetric(StrLe, xs)
  {
    forall x, y | x in xs && y in xs ensures StrLe(x, y) || StrLe(y, x) { StrTotal(x, y); }
    forall x, y, z | x in xs && y in xs && z in xs && StrLe(x, y) && StrLe(y, z) ensures StrLe(x, z) {
      StrTransitive(x, y, z);
    }
    forall x, y | x in xs && y in xs && StrLe(x, y) && StrLe(y, x) ensures x == y { StrAntisymmetric(x, y); }
  }

  // ---- sets of strings as ascending lists ----

  ghost predicate Distinct<T>(xs: seq<T>) {
    forall i, j | 0 <= i < j < |xs| :: xs[i] != xs[j]
  }

  /** Some listing of a set. */
  ghost function Listing<T(!new)>(s: set<T>): (r: seq<T>)
    ensures Distinct(r) && forall x :: x in r <==> x in s
  {
    if s == {} then []
    else
      var x :| x in s;
      [x] + Listing(s - {x})
  }

  lemma {:induction false} DistinctMultiset<T>(xs: seq<T>)
    requires Distinct(xs)
    ensures forall x :: multiset(xs)[x] == if x in xs then 1 else 0
  {
    if xs != [] {
      var t := xs[1..];
      DistinctMultiset(t);
      assert xs == [xs[0]] + t;
      assert multiset(xs) == multiset{xs[0]} + multiset(t);
      assert xs[0] !in t;
    }
  }

  lemma {:induction false} OnceEachDistinct<T>(xs: seq<T>)
    requires forall x :: multiset(xs)[x] <= 1
    ensures Distinct(xs)
  {
    forall i, j | 0 <= i < j < |xs| ensures xs[i] != xs[j] {
      assert xs == xs[..j] + [xs[j]] + xs[j + 1..];
      assert multiset(xs) == multiset(xs[..j]) + multiset{xs[j]} + multiset(xs[j + 1..]);
      assert multiset(xs)[xs[j]] <= 1;
      assert xs[..j][i] == xs[i] && xs[i] in multiset(xs[..j]);
    }
  }

  lemma SortDistinct<T>(xs: seq<T>, le: (T, T) -> bool)
    requires Distinct(xs)
    ensures Distinct(Sort(xs, le))
  {
    SortPermutes(xs, le);
    DistinctMultiset(xs);
    OnceEachDistinct(Sort(xs, le));
  }

  /** Two lists with the same members and no repeats sort to the same list. */
  lemma SortSameMembers(xs: seq<string>, ys: seq<string>)
    requires Distinct(xs) && Distinct(ys)
    requires forall x :: x in xs <==> x in ys
    ensures Sort(xs, StrLe) == Sort(ys, StrLe)
  {
    DistinctMultiset(xs);
    DistinctMultiset(ys);
    assert multiset(xs) == multiset(ys);
    StrOrder(xs);
    SortIgnoresOrder(xs, ys, StrLe);
  }
}
