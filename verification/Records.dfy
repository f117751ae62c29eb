/**
 Where gate records live (`scripts/flow.ts`): one file a record, named after the gate,
 its segment and its packets, with everything but letters and digits folded. A record
 whose name is taken replaces what was there.
 */
module Records {
  import opened Flow
  import opened Sorting
  import opened Lists

  predicate Alphanumeric(c: char) {
    'a' <= c <= 'z' || 'A' <= c <= 'Z' || '0' <= c <= '9'
  }

  /** Every run of other characters becomes one dash. */
  function Slug(s: string): string {
    if s == "" then ""
    else if Alphanumeric(s[0]) then [s[0]] + Slug(s[1..])
    else if |s| > 1 && !Alphanumeric(s[1]) then Slug(s[1..])
    else "-" + Slug(s[1..])
  }

  function NameOf(r: GateRecord): string {
    match r.gate
    case Phase => "phase-" + (Slug(r.segment) + ".json")
    case Wave => "wave-" + (Slug(r.segment) + "-" + (Slug(Join(Sort(r.packets, StrLe), "+")) + ".json"))
  }

  /** The record the command writes: its packets are sorted. */
  function WaveRecord(segment: string, packets: seq<string>): GateRecord {
    GateRecord(Wave, segment, Sort(packets, StrLe))
  }

  function PhaseRecord(segment: string): GateRecord { GateRecord(Phase, segment, []) }

  function Recorded(store: map<string, GateRecord>, r: GateRecord): map<string, GateRecord> {
    store[NameOf(r) := r]
  }

  lemma SameEnd(a: string, b: string, end: string)
    requires a + end == b + end
    ensures a == b
  {
    assert |a| == |b|;
    assert a == (a + end)[..|a|] && b == (b + end)[..|b|];
  }

  lemma SameStart(start: string, a: string, b: string)
    requires start + a == start + b
    ensures a == b
  {
    assert a == (start + a)[|start|..] && b == (start + b)[|start|..];
  }

  lemma SortOfSorted(xs: seq<string>)
    requires Sorted(StrLe, xs)
    ensures Sort(xs, StrLe) == xs
  {
    StrOrder(xs);
    SortSorted(xs, StrLe);
    SortPermutes(xs, StrLe);
    StrOrder(Sort(xs, StrLe));
    SortedUnique(Sort(xs, StrLe), xs, StrLe);
  }

  // ---- the words of an id ----

  /** The runs of letters and digits. */
  function Words(s: string): (r: seq<string>)
    ensures s != "" && Alphanumeric(s[0]) ==> r != []
    ensures forall x | x in r :: Plain(x)
  {
    if s == "" then []
    else if !Alphanumeric(s[0]) then Words(s[1..])
    else
      var rest := Words(s[1..]);
      if |s| > 1 && Alphanumeric(s[1]) then assert rest[0] in rest; [[s[0]] + rest[0]] + rest[1..] else [[s[0]]] + rest
  }

  ghost predicate Plain(s: string) {
    s != "" && forall i | 0 <= i < |s| :: Alphanumeric(s[i])
  }

  /** Starts and ends with a letter or digit. */
  ghost predicate Clean(s: string) { s != "" && Alphanumeric(s[0]) && Alphanumeric(s[|s| - 1]) }

  lemma JoinFirst(a: string, b: string, rest: seq<string>)
    ensures Join([a + b] + rest, "-") == a + Join([b] + rest, "-")
  {
    assert ([a + b] + rest)[1..] == rest && ([b] + rest)[1..] == rest;
    if rest != [] { assert a + b + "-" + Join(rest, "-") == a + (b + "-" + Join(rest, "-")); }
  }

  lemma JoinNew(a: string, rest: seq<string>)
    requires rest != []
    ensures Join([a] + rest, "-") == a + ("-" + Join(rest, "-"))
  {
    assert ([a] + rest)[1..] == rest;
  }

  /** The folded form of what ends with a letter or digit is its words with dashes between them. */
  lemma {:induction false} SlugIsWords(s: string)
    requires s != "" && Alphanumeric(s[|s| - 1])
    ensures Words(s) != []
    ensures Slug(s) == if Alphanumeric(s[0]) then Join(Words(s), "-") else "-" + Join(Words(s), "-")
  {
    var t := s[1..];
    if t == "" {
      assert s == [s[0]] && Words(s) == [[s[0]]];
    } else {
      SlugIsWords(t);
      var rest := Words(t);
      assert t[0] == s[1];
      if !Alphanumeric(s[0]) {
        assert Words(s) == rest;
      } else if Alphanumeric(s[1]) {
        JoinFirst([s[0]], rest[0], rest[1..]);
        assert rest == [rest[0]] + rest[1..];
      } else {
        JoinNew([s[0]], rest);
      }
    }
  }

  lemma {:induction false} WordsAcross(a: string, c: char, b: string)
    requires !Alphanumeric(c)
    ensures Words(a + [c] + b) == Words(a) + Words(b)
  {
    if a == "" {
      assert a + [c] + b == [c] + b && ([c] + b)[1..] == b;
    } else {
      var all := a + [c] + b;
      assert all[1..] == a[1..] + [c] + b;
      WordsAcross(a[1..], c, b);
      assert all[1] == if |a| > 1 then a[1] else c;
      if |a| == 1 { assert a[1..] == ""; }
    }
  }

  /** One list after the other. */
  function Flat<T>(blocks: seq<seq<T>>): seq<T> {
    if blocks == [] then [] else blocks[0] + Flat(blocks[1..])
  }

  function WordsOf(ids: seq<string>): (r: seq<seq<string>>)
    ensures |r| == |ids| && forall i | 0 <= i < |ids| :: r[i] == Words(ids[i])
  {
    if ids == [] then [] else [Words(ids[0])] + WordsOf(ids[1..])
  }

  lemma {:induction false} WordsOfJoin(ids: seq<string>)
    ensures Words(Join(ids, "+")) == Flat(WordsOf(ids))
  {
    if |ids| == 1 {
      assert WordsOf(ids)[1..] == [];
    } else if |ids| > 1 {
      WordsOfJoin(ids[1..]);
      assert "+" == ['+'];
      WordsAcross(ids[0], '+', Join(ids[1..], "+"));
    }
  }

  lemma {:induction false} JoinIsClean(ids: seq<string>)
    requires ids != [] && forall id | id in ids :: Clean(id)
    ensures Clean(Join(ids, "+"))
  {
    assert ids[0] in ids;
    if |ids| > 1 {
      assert forall id | id in ids[1..] :: id in ids;
      JoinIsClean(ids[1..]);
    }
  }

  lemma {:induction false} JoinSplits(a: seq<string>, b: seq<string>)
    requires a != [] && b != []
    ensures Join(a + b, "-") == Join(a, "-") + "-" + Join(b, "-")
  {
    if |a| == 1 {
      assert (a + b)[1..] == b;
    } else {
      assert (a + b)[1..] == a[1..] + b;
      JoinSplits(a[1..], b);
      assert a[0] + "-" + (Join(a[1..], "-") + "-" + Join(b, "-")) == a[0] + "-" + Join(a[1..], "-") + "-" + Join(b, "-");
    }
  }

  // ---- where an id begins ----

  ghost predicate Headless(heads: set<string>, words: seq<string>) {
    forall i | 0 <= i < |words| :: words[i] !in heads
  }

  /** Begins with a head, and has no other. */
  ghost predicate Headed(heads: set<string>, words: seq<string>) {
    words != [] && words[0] in heads && Headless(heads, words[1..])
  }

  lemma HeadIsAt(heads: set<string>, a: seq<string>, x: seq<string>, k: nat)
    requires Headless(heads, a) && (x == [] || x[0] in heads) && k <= |a| && k < |a + x|
    ensures (a + x)[k] in heads <==> k == |a|
  {
    if k < |a| { assert (a + x)[k] == a[k]; }
  }

  /** The first head shows where what has none ends. */
  lemma BeforeHead(heads: set<string>, a: seq<string>, x: seq<string>, b: seq<string>, y: seq<string>)
    requires Headless(heads, a) && Headless(heads, b) && a + x == b + y
    requires (x == [] || x[0] in heads) && (y == [] || y[0] in heads)
    ensures a == b && x == y
  {
    var l, r := a + x, b + y;
    var k := if |a| < |b| then |a| else |b|;
    if k < |l| {
      HeadIsAt(heads, a, x, k);
      HeadIsAt(heads, b, y, k);
    }
    assert a == l[..|a|] && b == r[..|b|] && x == l[|a|..] && y == r[|b|..];
  }

  lemma {:induction false} HeadsSplit(heads: set<string>, a: seq<string>, xs: seq<seq<string>>, b: seq<string>, ys: seq<seq<string>>)
    requires Headless(heads, a) && Headless(heads, b) && a + Flat(xs) == b + Flat(ys)
    requires (forall i | 0 <= i < |xs| :: Headed(heads, xs[i])) && (forall i | 0 <= i < |ys| :: Headed(heads, ys[i]))
    ensures a == b && xs == ys
    decreases |xs|
  {
    BeforeHead(heads, a, Flat(xs), b, Flat(ys));
    if xs != [] && ys != [] {
      var c, d := xs[0][1..], ys[0][1..];
      assert Flat(xs)[1..] == c + Flat(xs[1..]) && Flat(ys)[1..] == d + Flat(ys[1..]);
      HeadsSplit(heads, c, xs[1..], d, ys[1..]);
      assert xs[0] == [Flat(xs)[0]] + c && ys[0] == [Flat(ys)[0]] + d;
      assert xs == [xs[0]] + xs[1..] && ys == [ys[0]] + ys[1..];
    }
  }

  // ---- names that tell records apart ----

  /** An id that begins with a head no id has anywhere else. */
  ghost predicate HeadedId(heads: set<string>, id: string) { Clean(id) && Headed(heads, Words(id)) }

  ghost predicate HeadlessAfterFirst(heads: set<string>, id: string) {
    Clean(id) && (Words(id) != [] ==> Headless(heads, Words(id)[1..]))
  }

  ghost predicate HeadedRecord(heads: set<string>, r: GateRecord) {
    && HeadlessAfterFirst(heads, r.segment) && (forall id | id in r.packets :: HeadedId(heads, id))
    && Sorted(StrLe, r.packets) && (r.gate == Phase <==> r.packets == [])
  }

  /** The folded segment and packets are all their words with dashes between them. */
  lemma FoldedName(segment: string, ids: seq<string>)
    requires Clean(segment) && ids != [] && forall id | id in ids :: Clean(id)
    ensures Words(segment) != []
    ensures Slug(segment) + "-" + Slug(Join(ids, "+")) == Join(Words(segment) + Flat(WordsOf(ids)), "-")
  {
    CleanSlug(segment);
    JoinIsClean(ids);
    CleanSlug(Join(ids, "+"));
    WordsOfJoin(ids);
    JoinSplits(Words(segment), Words(Join(ids, "+")));
  }

  lemma CleanSlug(s: string)
    requires Clean(s)
    ensures Words(s) != [] && Slug(s) == Join(Words(s), "-")
  {
    SlugIsWords(s);
  }

  lemma WaveName(segment: string, ids: seq<string>)
    requires Sorted(StrLe, ids)
    ensures NameOf(GateRecord(Wave, segment, ids)) == "wave-" + (Slug(segment) + "-" + Slug(Join(ids, "+")) + ".json")
  {
    SortOfSorted(ids);
    var a, b := Slug(segment), Slug(Join(ids, "+"));
    assert a + "-" + (b + ".json") == a + "-" + b + ".json";
  }

  lemma FlatIsPlain(ids: seq<string>)
    ensures forall x | x in Flat(WordsOf(ids)) :: Plain(x)
  {
    WordsOfJoin(ids);
  }

  lemma SameWords(a: string, b: string)
    requires Clean(a) && Clean(b) && Words(a) == Words(b)
    ensures Slug(a) == Slug(b)
  {
    SlugIsWords(a);
    SlugIsWords(b);
  }

  lemma AllHeaded(heads: set<string>, ids: seq<string>)
    requires forall id | id in ids :: HeadedId(heads, id)
    ensures forall i | 0 <= i < |ids| :: Headed(heads, WordsOf(ids)[i])
  {
    forall i | 0 <= i < |ids| ensures Headed(heads, WordsOf(ids)[i]) {
      assert ids[i] in ids && WordsOf(ids)[i] == Words(ids[i]);
    }
  }

  lemma SameFirst(s: seq<string>, x: seq<string>, t: seq<string>, y: seq<string>)
    requires s != [] && t != [] && s + x == t + y
    ensures s[0] == t[0] && s[1..] + x == t[1..] + y
  {
    assert s[1..] + x == (s + x)[1..] && t[1..] + y == (t + y)[1..];
    assert (s + x)[0] == s[0] && (t + y)[0] == t[0];
  }

  lemma BlocksTell(heads: set<string>, s: seq<string>, xs: seq<seq<string>>, t: seq<string>, ys: seq<seq<string>>)
    requires s != [] && t != [] && Headless(heads, s[1..]) && Headless(heads, t[1..]) && s + Flat(xs) == t + Flat(ys)
    requires (forall i | 0 <= i < |xs| :: Headed(heads, xs[i])) && (forall i | 0 <= i < |ys| :: Headed(heads, ys[i]))
    ensures s == t && xs == ys
  {
    SameFirst(s, Flat(xs), t, Flat(ys));
    HeadsSplit(heads, s[1..], xs, t[1..], ys);
    SameHeadAndTail(s, t);
  }

  lemma SameHeadAndTail(s: seq<string>, t: seq<string>)
    requires s != [] && t != [] && s[0] == t[0] && s[1..] == t[1..]
    ensures s == t
  {
    assert s == [s[0]] + s[1..] && t == [t[0]] + t[1..];
  }

  lemma PlainIsSeparable(words: seq<string>)
    requires forall x | x in words :: Plain(x)
    ensures Separable(words, '-')
  {
  }

  /** Words are told apart by the dashes and ids by their heads, so equal texts have equal words. */
  lemma WordsTell(heads: set<string>, s: seq<string>, a: seq<string>, t: seq<string>, b: seq<string>)
    requires s != [] && t != [] && Headless(heads, s[1..]) && Headless(heads, t[1..])
    requires (forall x | x in s :: Plain(x)) && (forall x | x in t :: Plain(x))
    requires (forall id | id in a :: HeadedId(heads, id)) && (forall id | id in b :: HeadedId(heads, id))
    requires Join(s + Flat(WordsOf(a)), "-") == Join(t + Flat(WordsOf(b)), "-")
    ensures s == t && WordsOf(a) == WordsOf(b)
  {
    FlatIsPlain(a);
    FlatIsPlain(b);
    PlainIsSeparable(s + Flat(WordsOf(a)));
    PlainIsSeparable(t + Flat(WordsOf(b)));
    JoinIsInjective(s + Flat(WordsOf(a)), t + Flat(WordsOf(b)), '-');
    AllHeaded(heads, a);
    AllHeaded(heads, b);
    BlocksTell(heads, s, WordsOf(a), t, WordsOf(b));
  }

  lemma SameSlugs(a: seq<string>, b: seq<string>)
    requires (forall id | id in a :: Clean(id)) && (forall id | id in b :: Clean(id)) && WordsOf(a) == WordsOf(b)
    ensures |a| == |b| && forall i | 0 <= i < |a| :: Slug(a[i]) == Slug(b[i])
  {
    assert |WordsOf(a)| == |WordsOf(b)|;
    forall i | 0 <= i < |a| ensures Slug(a[i]) == Slug(b[i]) {
      assert WordsOf(a)[i] == Words(a[i]) && WordsOf(b)[i] == Words(b[i]) && a[i] in a && b[i] in b;
      SameWords(a[i], b[i]);
    }
  }

  /** Wave records of one name have packets and segments that fold alike, one by one. */
  lemma WaveNamesTell(heads: set<string>, r: GateRecord, q: GateRecord)
    requires HeadedRecord(heads, r) && HeadedRecord(heads, q) && r.gate == Wave && q.gate == Wave && NameOf(r) == NameOf(q)
    ensures Slug(r.segment) == Slug(q.segment) && |r.packets| == |q.packets|
    ensures forall i | 0 <= i < |r.packets| :: Slug(r.packets[i]) == Slug(q.packets[i])
  {
    WaveName(r.segment, r.packets);
    WaveName(q.segment, q.packets);
    var x, y := Slug(r.segment) + "-" + Slug(Join(r.packets, "+")), Slug(q.segment) + "-" + Slug(Join(q.packets, "+"));
    SameStart("wave-", x + ".json", y + ".json");
    SameEnd(x, y, ".json");
    FoldedName(r.segment, r.packets);
    FoldedName(q.segment, q.packets);
    WordsTell(heads, Words(r.segment), r.packets, Words(q.segment), q.packets);
    SameWords(r.segment, q.segment);
    SameSlugs(r.packets, q.packets);
  }

  lemma PhaseNamesTell(r: GateRecord, q: GateRecord)
    requires r.gate == Phase && NameOf(r) == NameOf(q)
    ensures q.gate == Phase && Slug(r.segment) == Slug(q.segment)
  {
    assert NameOf(r)[0] == 'p' && NameOf(q)[0] == if q.gate == Phase then 'p' else 'w';
    SameStart("phase-", Slug(r.segment) + ".json", Slug(q.segment) + ".json");
    SameEnd(Slug(r.segment), Slug(q.segment), ".json");
  }

  /** Folding tells these ids apart. */
  ghost predicate FoldsApart(ids: set<string>) {
    forall a, b | a in ids && b in ids && Slug(a) == Slug(b) :: a == b
  }

  /** Records whose packets begin with heads never share a name. */
  lemma HeadedNamesApart(heads: set<string>, ids: set<string>, segments: set<string>, r: GateRecord, q: GateRecord)
    requires HeadedRecord(heads, r) && HeadedRecord(heads, q) && FoldsApart(ids) && FoldsApart(segments)
    requires r.segment in segments && q.segment in segments
    requires (forall id | id in r.packets :: id in ids) && (forall id | id in q.packets :: id in ids)
    requires NameOf(r) == NameOf(q)
    ensures r == q
  {
    if r.gate == Phase {
      PhaseNamesTell(r, q);
    } else if q.gate == Phase {
      PhaseNamesTell(q, r);
    } else {
      WaveNamesTell(heads, r, q);
      assert forall i | 0 <= i < |r.packets| :: r.packets[i] == q.packets[i];
    }
  }
}
