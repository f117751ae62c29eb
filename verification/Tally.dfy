/**
 Counting as the analysis engine does it (`platform/analysis-engine/src/aggregate.ts`):
 how often each key occurs, most frequent first, ties by key.
 */
module Tallies {
  import opened Sorting

  datatype Count = Count(key: string, count: nat)

  /** Descending by count, then ascending by key. */
  predicate CountLe(a: Count, b: Count) {
    a.count > b.count || (a.count == b.count && StrLe(a.key, b.key))
  }

  /** The keys in order of first appearance, as the counting map lists them. */
  function FirstSeen<K(==,!new)>(keys: seq<K>): (r: seq<K>)
    ensures Distinct(r) && forall x :: x in r <==> x in keys
  {
    if keys == [] then []
    else
      var n := |keys| - 1;
      var before := FirstSeen(keys[..n]);
      assert forall x :: x in keys <==> x in keys[..n] || x == keys[n];
      if keys[n] in before then before else before + [keys[n]]
  }

  function Entries(order: seq<string>, counts: multiset<string>): (r: seq<Count>)
    ensures |r| == |order|
    ensures forall i | 0 <= i < |r| :: r[i] == Count(order[i], counts[order[i]])
  {
    seq(|order|, i requires 0 <= i < |order| => Count(order[i], counts[order[i]]))
  }

  function Tally(keys: seq<string>): (r: seq<Count>) {
    Sort(Entries(FirstSeen(keys), multiset(keys)), CountLe)
  }

  method TallyKeys(keys: seq<string>) returns (r: seq<Count>)
    ensures r == Tally(keys)
  {
    var counts: map<string, nat> := map[];
    var order: seq<string> := [];
    for i := 0 to |keys|
      invariant order == FirstSeen(keys[..i])
      invariant forall k :: k in counts <==> k in order
      invariant forall k | k in counts :: counts[k] == multiset(keys[..i])[k]
    {
      var k := keys[i];
      assert keys[..i + 1][..i] == keys[..i] && keys[..i + 1] == keys[..i] + [k];
      if k !in counts { order := order + [k]; }
      counts := counts[k := (if k in counts then counts[k] else 0) + 1];
    }
    assert keys[..|keys|] == keys;
    var entries := seq(|order|, i requires 0 <= i < |order| && order[i] in counts => Count(order[i], counts[order[i]]));
    assert entries == Entries(order, multiset(keys));
    r := Sort(entries, CountLe);
  }

  // ---- the order is a total order ----

  lemma CountOrder(xs: seq<Count>)
    ensures Total(CountLe, xs) && Transitive(CountLe, xs) && Antisymmetric(CountLe, xs)
  {
    forall x, y | x in xs && y in xs ensures CountLe(x, y) || CountLe(y, x) { StrTotal(x.key, y.key); }
    forall x, y, z | x in xs && y in xs && z in xs && CountLe(x, y) && CountLe(y, z) ensures CountLe(x, z) {
      if x.count == y.count == z.count { StrTransitive(x.key, y.key, z.key); }
    }
    forall x, y | x in xs && y in xs && CountLe(x, y) && CountLe(y, x) ensures x == y {
      StrAntisymmetric(x.key, y.key);
    }
  }

  // ---- what a tally promises ----

  lemma EntriesExactly(keys: seq<string>)
    ensures Distinct(Entries(FirstSeen(keys), multiset(keys)))
    ensures forall e :: e in Entries(FirstSeen(keys), multiset(keys)) <==> e.key in keys && e.count == multiset(keys)[e.key]
  {
    var order := FirstSeen(keys);
    var es := Entries(order, multiset(keys));
    forall e ensures e in es <==> e.key in keys && e.count == multiset(keys)[e.key] {
      if e.key in keys && e.count == multiset(keys)[e.key] {
        var i :| 0 <= i < |order| && order[i] == e.key;
        assert es[i] == e;
      }
    }
  }

  /** One entry for each key that occurs, with the number of its occurrences. */
  lemma TallyExactly(keys: seq<string>)
    ensures Distinct(Tally(keys)) && Sorted(CountLe, Tally(keys))
    ensures forall e :: e in Tally(keys) <==> e.key in keys && e.count == multiset(keys)[e.key]
  {
    var es := Entries(FirstSeen(keys), multiset(keys));
    EntriesExactly(keys);
    CountOrder(es);
    SortSorted(es, CountLe);
    SortDistinct(es, CountLe);
    SortMembers(es, CountLe);
  }

  lemma DistinctSameMultiset<T>(xs: seq<T>, ys: seq<T>)
    requires Distinct(xs) && Distinct(ys) && forall x :: x in xs <==> x in ys
    ensures multiset(xs) == multiset(ys)
  {
    DistinctMultiset(xs);
    DistinctMultiset(ys);
  }

  /** The tally does not depend on the order in which the keys came. */
  lemma TallyIgnoresOrder(xs: seq<string>, ys: seq<string>)
    requires multiset(xs) == multiset(ys)
    ensures Tally(xs) == Tally(ys)
  {
    SameMembers(xs, ys);
    EntriesExactly(xs);
    EntriesExactly(ys);
    var es, fs := Entries(FirstSeen(xs), multiset(xs)), Entries(FirstSeen(ys), multiset(ys));
    DistinctSameMultiset(es, fs);
    CountOrder(es);
    SortIgnoresOrder(es, fs, CountLe);
  }

  // ---- conservation ----

  function Sum(cs: seq<Count>): nat {
    if cs == [] then 0 else cs[0].count + Sum(cs[1..])
  }

  lemma {:induction false} TotalSplits(a: seq<Count>, b: seq<Count>)
    ensures Sum(a + b) == Sum(a) + Sum(b)
  {
    if a == [] {
      assert a + b == b;
    } else {
      TotalSplits(a[1..], b);
      assert (a + b)[1..] == a[1..] + b;
    }
  }

  lemma {:induction false} InsertTotal(x: Count, xs: seq<Count>)
    ensures Sum(Insert(x, xs, CountLe)) == x.count + Sum(xs)
  {
    if xs == [] || CountLe(x, xs[0]) {
      assert ([x] + xs)[1..] == xs;
    } else {
      InsertTotal(x, xs[1..]);
      assert ([xs[0]] + Insert(x, xs[1..], CountLe))[1..] == Insert(x, xs[1..], CountLe);
    }
  }

  lemma {:induction false} SortTotal(xs: seq<Count>)
    ensures Sum(Sort(xs, CountLe)) == Sum(xs)
  {
    if xs != [] {
      SortTotal(xs[1..]);
      InsertTotal(xs[0], Sort(xs[1..], CountLe));
    }
  }

  lemma {:induction false} EntriesAfter(order: seq<string>, counts: multiset<string>, k: string)
    requires Distinct(order)
    ensures Sum(Entries(order, counts + multiset{k})) == Sum(Entries(order, counts)) + if k in order then 1 else 0
  {
    if order != [] {
      var t := order[1..];
      EntriesAfter(t, counts, k);
      assert Entries(order, counts)[1..] == Entries(t, counts);
      assert Entries(order, counts + multiset{k})[1..] == Entries(t, counts + multiset{k});
      assert k in order <==> k == order[0] || k in t;
    }
  }

  lemma {:induction false} EntriesTotal(keys: seq<string>)
    ensures Sum(Entries(FirstSeen(keys), multiset(keys))) == |keys|
  {
    if keys != [] {
      var n := |keys| - 1;
      var k := keys[n];
      EntriesTotal(keys[..n]);
      assert keys == keys[..n] + [k];
      var before, m := FirstSeen(keys[..n]), multiset(keys[..n]);
      assert multiset(keys) == m + multiset{k};
      EntriesAfter(before, m, k);
      if k !in before {
        assert Entries(before + [k], m + multiset{k}) == Entries(before, m + multiset{k}) + [Count(k, 1)];
        TotalSplits(Entries(before, m + multiset{k}), [Count(k, 1)]);
      }
    }
  }

  /** The counts of a tally add up to the number of keys counted. */
  lemma TallyConserves(keys: seq<string>)
    ensures Sum(Tally(keys)) == |keys|
  {
    EntriesTotal(keys);
    SortTotal(Entries(FirstSeen(keys), multiset(keys)));
  }

  // ---- grouping ----

  function Mapped<T, U>(xs: seq<T>, f: T -> U): (r: seq<U>)
    ensures |r| == |xs|
  {
    seq(|xs|, i requires 0 <= i < |xs| => f(xs[i]))
  }

  /** The elements whose name is `s`, in order. */
  function Having<T, K(==)>(xs: seq<T>, name: T -> K, s: K): seq<T> {
    if xs == [] then []
    else
      var n := |xs| - 1;
      Having(xs[..n], name, s) + if name(xs[n]) == s then [xs[n]] else []
  }

  lemma LabelsAppend<T, K(!new)>(xs: seq<T>, x: T, name: T -> K)
    ensures var seen := FirstSeen(Mapped(xs, name));
            FirstSeen(Mapped(xs + [x], name)) == seen + if name(x) in seen then [] else [name(x)]
  {
    assert Mapped(xs + [x], name) == Mapped(xs, name) + [name(x)];
    assert Mapped(xs + [x], name)[..|xs|] == Mapped(xs, name);
  }

  lemma {:induction false} HavingLabel<T, K>(xs: seq<T>, name: T -> K, s: K)
    ensures forall x | x in Having(xs, name, s) :: x in xs && name(x) == s
    ensures Having(xs, name, s) == [] <==> s !in Mapped(xs, name)
  {
    if xs != [] {
      var n := |xs| - 1;
      HavingLabel(xs[..n], name, s);
      assert Mapped(xs, name) == Mapped(xs[..n], name) + [name(xs[n])];
    }
  }

  ghost predicate Grouped<T, K(!new)>(xs: seq<T>, name: T -> K, order: seq<K>, buckets: map<K, seq<T>>) {
    && order == FirstSeen(Mapped(xs, name))
    && (forall s :: s in buckets <==> s in order)
    && forall s | s in buckets :: buckets[s] == Having(xs, name, s)
  }

  lemma GroupedGrows<T, K(!new)>(xs: seq<T>, x: T, name: T -> K, order: seq<K>, buckets: map<K, seq<T>>)
    requires Grouped(xs, name, order, buckets)
    ensures var s := name(x);
            if s in buckets then Grouped(xs + [x], name, order, buckets[s := buckets[s] + [x]])
            else Grouped(xs + [x], name, order + [s], buckets[s := [x]])
  {
    LabelsAppend(xs, x, name);
    assert (xs + [x])[..|xs|] == xs;
    HavingLabel(xs, name, name(x));
  }

  /** One pass puts every element into the bucket of its name, buckets in order of first arrival. */
  method Group<T, K(==,!new)>(xs: seq<T>, name: T -> K) returns (order: seq<K>, buckets: map<K, seq<T>>)
    ensures Grouped(xs, name, order, buckets)
  {
    order, buckets := [], map[];
    for i := 0 to |xs|
      invariant Grouped(xs[..i], name, order, buckets)
    {
      var s := name(xs[i]);
      assert xs[..i + 1] == xs[..i] + [xs[i]];
      GroupedGrows(xs[..i], xs[i], name, order, buckets);
      if s in buckets {
        buckets := buckets[s := buckets[s] + [xs[i]]];
      } else {
        buckets := buckets[s := [xs[i]]];
        order := order + [s];
      }
    }
    assert xs[..|xs|] == xs;
  }

  /** `f` of every bucket, in ascending order of their labels. */
  ghost function GroupMap<T, U>(xs: seq<T>, name: T -> string, f: seq<T> -> U): seq<U> {
    var labels := Sort(FirstSeen(Mapped(xs, name)), StrLe);
    seq(|labels|, i requires 0 <= i < |labels| => f(Having(xs, name, labels[i])))
  }

  /** What is in it: `f` of the bucket of some element. */
  lemma GroupMapMembers<T, U>(xs: seq<T>, name: T -> string, f: seq<T> -> U, y: U)
    ensures y in GroupMap(xs, name, f) <==> exists x :: x in xs && y == f(Having(xs, name, name(x)))
  {
    var labels := Sort(FirstSeen(Mapped(xs, name)), StrLe);
    SortMembers(FirstSeen(Mapped(xs, name)), StrLe);
    if y in GroupMap(xs, name, f) {
      var i :| 0 <= i < |labels| && GroupMap(xs, name, f)[i] == y;
      assert labels[i] in labels && labels[i] in Mapped(xs, name);
      var j :| 0 <= j < |xs| && Mapped(xs, name)[j] == labels[i];
      assert xs[j] in xs;
    }
    if x :| x in xs && y == f(Having(xs, name, name(x))) {
      var j :| 0 <= j < |xs| && xs[j] == x;
      assert Mapped(xs, name)[j] == name(x) && name(x) in labels;
      var i :| 0 <= i < |labels| && labels[i] == name(x);
      assert GroupMap(xs, name, f)[i] == y;
    }
  }

  method GroupAndMap<T, U>(xs: seq<T>, name: T -> string, f: seq<T> -> U) returns (out: seq<U>)
    ensures out == GroupMap(xs, name, f)
  {
    var order, buckets := Group(xs, name);
    var labels := Sort(order, StrLe);
    SortMembers(order, StrLe);
    out := EachBucket(labels, buckets, f);
  }

  method EachBucket<T, U>(labels: seq<string>, buckets: map<string, seq<T>>, f: seq<T> -> U) returns (out: seq<U>)
    requires forall s | s in labels :: s in buckets
    ensures |out| == |labels| && forall k | 0 <= k < |labels| :: out[k] == f(buckets[labels[k]])
  {
    out := [];
    for i := 0 to |labels|
      invariant |out| == i && forall k | 0 <= k < i :: out[k] == f(buckets[labels[k]])
    {
      out := out + [f(buckets[labels[i]])];
    }
  }

  /** The first element of a list is the first of its bucket. */
  lemma {:induction false} HavingFirst<T, K>(xs: seq<T>, name: T -> K)
    requires xs != []
    ensures var h := Having(xs, name, name(xs[0])); h != [] && h[0] == xs[0]
  {
    var n := |xs| - 1;
    if n > 0 {
      assert xs[..n][0] == xs[0];
      HavingFirst(xs[..n], name);
    } else {
      assert xs[..n] == [] && Having(xs[..n], name, name(xs[0])) == [];
    }
  }

  // ---- grouping and mapping respect permutation ----

  lemma LabelsPermute<T>(xs: seq<T>, ys: seq<T>, name: T -> string)
    requires multiset(xs) == multiset(ys)
    ensures Sort(FirstSeen(Mapped(xs, name)), StrLe) == Sort(FirstSeen(Mapped(ys, name)), StrLe)
  {
    MapPermutes(xs, ys, name);
    SameMembers(Mapped(xs, name), Mapped(ys, name));
    SortSameMembers(FirstSeen(Mapped(xs, name)), FirstSeen(Mapped(ys, name)));
  }

  /** If `f` ignores the order within a bucket, the whole ignores the order of the list. */
  lemma GroupMapIgnoresOrder<T, U>(xs: seq<T>, ys: seq<T>, name: T -> string, f: seq<T> -> U)
    requires multiset(xs) == multiset(ys)
    requires forall s | s in Mapped(xs, name) :: f(Having(xs, name, s)) == f(Having(ys, name, s))
    ensures GroupMap(xs, name, f) == GroupMap(ys, name, f)
  {
    LabelsPermute(xs, ys, name);
    var labels := Sort(FirstSeen(Mapped(xs, name)), StrLe);
    SortMembers(FirstSeen(Mapped(xs, name)), StrLe);
    forall i | 0 <= i < |labels| ensures f(Having(xs, name, labels[i])) == f(Having(ys, name, labels[i])) {
      assert labels[i] in labels;
    }
  }

  lemma {:induction false} HavingMultiset<T, K>(xs: seq<T>, name: T -> K, s: K, x: T)
    ensures multiset(Having(xs, name, s))[x] == if name(x) == s then multiset(xs)[x] else 0
  {
    if xs != [] {
      var n := |xs| - 1;
      HavingMultiset(xs[..n], name, s, x);
      assert xs == xs[..n] + [xs[n]];
    }
  }

  lemma HavingPermutes<T(!new), K>(xs: seq<T>, ys: seq<T>, name: T -> K, s: K)
    requires multiset(xs) == multiset(ys)
    ensures multiset(Having(xs, name, s)) == multiset(Having(ys, name, s))
  {
    var a, b := multiset(Having(xs, name, s)), multiset(Having(ys, name, s));
    forall x ensures a[x] == b[x] {
      HavingMultiset(xs, name, s, x);
      HavingMultiset(ys, name, s, x);
    }
    assert a == b;
  }

  lemma MapTakeOut<T, U>(ys: seq<T>, k: nat, f: T -> U)
    requires k < |ys|
    ensures multiset(ys) == multiset(ys[..k] + ys[k + 1..]) + multiset{ys[k]}
    ensures multiset(Mapped(ys, f)) == multiset(Mapped(ys[..k] + ys[k + 1..], f)) + multiset{f(ys[k])}
  {
    assert ys == ys[..k] + [ys[k]] + ys[k + 1..];
    assert Mapped(ys, f) == Mapped(ys[..k], f) + [f(ys[k])] + Mapped(ys[k + 1..], f);
    assert Mapped(ys[..k] + ys[k + 1..], f) == Mapped(ys[..k], f) + Mapped(ys[k + 1..], f);
  }

  lemma Cancel<T>(a: multiset<T>, b: multiset<T>, x: T)
    requires a + multiset{x} == b + multiset{x}
    ensures a == b
  {
    assert a == (a + multiset{x}) - multiset{x} && b == (b + multiset{x}) - multiset{x};
  }

  lemma Locate<T>(xs: seq<T>, x: T) returns (k: nat)
    requires x in multiset(xs)
    ensures k < |xs| && xs[k] == x
  {
    assert x in xs;
    k :| 0 <= k < |xs| && xs[k] == x;
  }

  lemma {:induction false} MapPermutes<T, U>(xs: seq<T>, ys: seq<T>, f: T -> U)
    requires multiset(xs) == multiset(ys)
    ensures multiset(Mapped(xs, f)) == multiset(Mapped(ys, f))
    decreases |xs|
  {
    assert |multiset(xs)| == |xs| && |multiset(ys)| == |ys|;
    if xs != [] {
      var n := |xs| - 1;
      var k := Locate(ys, xs[n]);
      var rest := ys[..k] + ys[k + 1..];
      MapTakeOut(xs, n, f);
      MapTakeOut(ys, k, f);
      assert xs[..n] + xs[n + 1..] == xs[..n];
      Cancel(multiset(xs[..n]), multiset(rest), xs[n]);
      MapPermutes(xs[..n], rest, f);
    }
  }
}
