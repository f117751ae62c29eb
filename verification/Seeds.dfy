/**
 Words of 32 bits, as JavaScript's bitwise operators and `Math.imul` see integers:
 arithmetic modulo 2^32, bit by bit where the operator is.
 */
module Words {

  const WORD := 0x1_0000_0000

  type Word = n: int | 0 <= n < 0x1_0000_0000

  predicate IsSigned(n: int) { -0x8000_0000 <= n < 0x8000_0000 }

  function ToWord(n: int): Word { n % WORD }

  /** The signed reading, which `| 0` gives. */
  function Signed(w: Word): (n: int)
    ensures IsSigned(n) && ToWord(n) == w
  {
    if w < 0x8000_0000 then w else w - WORD
  }

  function Times(a: Word, b: Word): Word { a * b % WORD }

  function Plus(a: Word, b: Word): Word { (a + b) % WORD }

  function Pow2(n: nat): nat { if n == 0 then 1 else 2 * Pow2(n - 1) }

  lemma FourMore(n: nat)
    ensures Pow2(n + 4) == 16 * Pow2(n)
  {
    assert Pow2(n + 4) == 2 * Pow2(n + 3) == 4 * Pow2(n + 2) == 8 * Pow2(n + 1);
  }

  lemma WordIs32Bits()
    ensures Pow2(32) == WORD
  {
    FourMore(0); FourMore(4); FourMore(8); FourMore(12);
    FourMore(16); FourMore(20); FourMore(24); FourMore(28);
  }

  function XorBits(a: nat, b: nat): nat {
    if a == 0 && b == 0 then 0 else (if a % 2 == b % 2 then 0 else 1) + 2 * XorBits(a / 2, b / 2)
  }

  function OrBits(a: nat, b: nat): nat {
    if a == 0 && b == 0 then 0 else (if a % 2 == 0 && b % 2 == 0 then 0 else 1) + 2 * OrBits(a / 2, b / 2)
  }

  lemma {:induction false} BitsBounded(a: nat, b: nat, n: nat)
    requires a < Pow2(n) && b < Pow2(n)
    ensures XorBits(a, b) < Pow2(n) && OrBits(a, b) < Pow2(n)
  {
    if a != 0 || b != 0 { BitsBounded(a / 2, b / 2, n - 1); }
  }

  function Xor(a: Word, b: Word): Word {
    WordIs32Bits();
    BitsBounded(a, b, 32);
    XorBits(a, b)
  }

  function Or(a: Word, b: Word): Word {
    WordIs32Bits();
    BitsBounded(a, b, 32);
    OrBits(a, b)
  }

  /** A second `^` with the same word undoes the first. */
  lemma {:induction false} XorUndoes(a: nat, x: nat)
    ensures XorBits(XorBits(a, x), x) == a
  {
    if a != 0 || x != 0 { XorUndoes(a / 2, x / 2); }
  }

  lemma {:induction false} XorCommutes(a: nat, b: nat)
    ensures XorBits(a, b) == XorBits(b, a)
  {
    if a != 0 || b != 0 { XorCommutes(a / 2, b / 2); }
  }

  lemma XorIsInjective(a: Word, b: Word, x: Word)
    ensures Xor(a, x) == Xor(b, x) <==> a == b
    ensures Xor(x, a) == Xor(x, b) <==> a == b
  {
    XorUndoes(a, x);
    XorUndoes(b, x);
    XorCommutes(a, x);
    XorCommutes(b, x);
  }

  lemma Congruent(x: Word, z: int)
    ensures (x + WORD * z) % WORD == x
  {
  }

  lemma SumWraps(x: int, y: int)
    ensures (x % WORD + y) % WORD == (x + y) % WORD
  {
  }

  lemma SameRemainder(x: int, y: int)
    ensures x % WORD == y % WORD <==> (x - y) % WORD == 0
  {
  }

  lemma SignedWords(a: int, b: int)
    requires IsSigned(a) && IsSigned(b)
    ensures ToWord(a) == ToWord(b) <==> a == b
  {
  }
}

/**
 The seeds of the playground (`playground/providers/prng.ts`): the FNV-1a hash, the
 seeds derived from it, and the mulberry32 generator.
 */
module Seeds {
  import opened Words
  import opened Quoting
  import opened JsonGrammar
  import opened CanonicalForm
  import opened Graph

  // ---- FNV-1a ----

  const OFFSET: Word := 0x811c9dc5
  const PRIME: Word := 0x01000193

  /** The inverse of the prime modulo 2^32. */
  const UNPRIME: Word := 0x359c449b

  function HashStep(hash: Word, c: Unit): Word { Times(Xor(hash, c), PRIME) }

  function UnhashStep(hash: Word, c: Unit): Word { Xor(Times(hash, UNPRIME), c) }

  function HashFrom(hash: Word, s: Text): Word {
    if s == [] then hash else HashStep(HashFrom(hash, s[..|s| - 1]), s[|s| - 1])
  }

  method HashToSeed(value: Text) returns (hash: Word)
    ensures hash == HashFrom(OFFSET, value)
  {
    hash := OFFSET;
    for index := 0 to |value|
      invariant hash == HashFrom(OFFSET, value[..index])
    {
      assert value[..index + 1][..index] == value[..index];
      hash := Xor(hash, value[index]);
      hash := Times(hash, PRIME);
    }
    assert value[..|value|] == value;
  }

  lemma PrimeCancels(x: Word)
    ensures Times(Times(x, PRIME), UNPRIME) == x
    ensures Times(Times(x, UNPRIME), PRIME) == x
  {
    var q, p := x * 0x01000193 / WORD, x * 0x359c449b / WORD;
    assert Times(x, PRIME) == x * 0x01000193 - WORD * q;
    assert Times(x, UNPRIME) == x * 0x359c449b - WORD * p;
    Congruent(x, 3513497 * x - 0x359c449b * q);
    Congruent(x, 3513497 * x - 0x01000193 * p);
  }

  /** For each unit, the step is a bijection on 32 bits. */
  lemma StepIsBijective(hash: Word, c: Unit)
    ensures UnhashStep(HashStep(hash, c), c) == hash
    ensures HashStep(UnhashStep(hash, c), c) == hash
  {
    PrimeCancels(Xor(hash, c));
    PrimeCancels(hash);
    XorUndoes(hash, c);
    XorUndoes(Times(hash, UNPRIME), c);
  }

  lemma StepIsInjective(a: Word, b: Word, c: Unit)
    ensures HashStep(a, c) == HashStep(b, c) <==> a == b
  {
    StepIsBijective(a, c);
    StepIsBijective(b, c);
  }

  lemma StepTellsUnits(hash: Word, c: Unit, d: Unit)
    ensures HashStep(hash, c) == HashStep(hash, d) <==> c == d
  {
    PrimeCancels(Xor(hash, c));
    PrimeCancels(Xor(hash, d));
    XorIsInjective(c, d, hash);
  }

  /** Two strings of one length that differ at exactly one position have different hashes. */
  lemma {:induction false} OneDifferenceShows(hash: Word, s: Text, t: Text, i: nat)
    requires |s| == |t| && i < |s| && s[i] != t[i]
    requires forall j | 0 <= j < |s| && j != i :: s[j] == t[j]
    ensures HashFrom(hash, s) != HashFrom(hash, t)
    decreases |s|
  {
    var n := |s| - 1;
    if i == n {
      assert s[..n] == t[..n];
      StepTellsUnits(HashFrom(hash, s[..n]), s[n], t[n]);
    } else {
      OneDifferenceShows(hash, s[..n], t[..n], i);
      StepIsInjective(HashFrom(hash, s[..n]), HashFrom(hash, t[..n]), s[n]);
    }
  }

  /** The hash of nothing is the published offset basis of 32-bit FNV-1a. */
  lemma HashOfNothing()
    ensures HashFrom(OFFSET, []) == 2166136261
  {
  }

  /** A string is a bijection on hashes: for every hash to end with there is exactly one to start from. */
  lemma {:induction false} HashFromIsBijective(s: Text, goal: Word) returns (start: Word)
    ensures HashFrom(start, s) == goal
    ensures forall other: Word | HashFrom(other, s) == goal :: other == start
  {
    if s == [] {
      start := goal;
    } else {
      var n := |s| - 1;
      var before := UnhashStep(goal, s[n]);
      StepIsBijective(goal, s[n]);
      start := HashFromIsBijective(s[..n], before);
      forall other: Word | HashFrom(other, s) == goal ensures other == start {
        StepIsBijective(HashFrom(other, s[..n]), s[n]);
      }
    }
  }

  // ---- the identity of a call ----

  const BAR: Unit := 124

  ghost predicate NoBar(s: Text) { BAR !in s }

  /** `step|callIndex|salt`; the call index is known by its decimal text. */
  function Identity(step: Text, callIndex: Decimal, salt: Text): Text {
    step + [BAR] + callIndex + [BAR] + salt
  }

  lemma IdentityIs(step: Text, callIndex: Decimal, salt: Text)
    ensures Identity(step, callIndex, salt) == step + Ascii("|") + callIndex + Ascii("|") + salt
  {
    assert Ascii("|") == [BAR];
  }

  lemma BarIsAt(a: Text, b: Text, k: nat)
    requires NoBar(b) && |a| <= k < |a + [BAR] + b|
    ensures (a + [BAR] + b)[k] == BAR <==> k == |a|
  {
    if k > |a| { assert (a + [BAR] + b)[k] == b[k - |a| - 1]; }
  }

  lemma LastBar(a: Text, b: Text, c: Text, d: Text)
    requires a + [BAR] + b == c + [BAR] + d && NoBar(b) && NoBar(d)
    ensures a == c && b == d
  {
    var l, r := a + [BAR] + b, c + [BAR] + d;
    var k := if |a| < |c| then |c| else |a|;
    BarIsAt(a, b, k);
    BarIsAt(c, d, k);
    assert l[|a|] == BAR && r[|c|] == BAR;
    assert a == l[..|a|] && c == r[..|c|] && b == l[|a| + 1..] && d == r[|c| + 1..];
  }

  lemma DecimalHasNoBar(n: Decimal)
    ensures NoBar(n)
  {
    assert !IsDecimalUnit(BAR);
  }

  /** No two calls share an identity, even when a step's name contains a bar: the last two bars are never the name's. */
  lemma IdentityIsInjective(step: Text, callIndex: Decimal, salt: Text, step': Text, callIndex': Decimal, salt': Text)
    requires NoBar(salt) && NoBar(salt')
    ensures Identity(step, callIndex, salt) == Identity(step', callIndex', salt')
            <==> step == step' && callIndex == callIndex' && salt == salt'
  {
    if Identity(step, callIndex, salt) == Identity(step', callIndex', salt') {
      DecimalHasNoBar(callIndex);
      DecimalHasNoBar(callIndex');
      LastBar(step + [BAR] + callIndex, salt, step' + [BAR] + callIndex', salt');
      LastBar(step, callIndex, step', callIndex');
    }
  }

  /** The seed of one call's stream. */
  function DeriveSeed(seed: int, step: Text, callIndex: Decimal, salt: Text): Word {
    Xor(ToWord(seed), HashFrom(OFFSET, Identity(step, callIndex, salt)))
  }

  lemma DerivedSeedTellsSeeds(seed: int, seed': int, step: Text, callIndex: Decimal, salt: Text)
    requires IsSigned(seed) && IsSigned(seed')
    ensures DeriveSeed(seed, step, callIndex, salt) == DeriveSeed(seed', step, callIndex, salt) <==> seed == seed'
  {
    SignedWords(seed, seed');
    XorIsInjective(ToWord(seed), ToWord(seed'), HashFrom(OFFSET, Identity(step, callIndex, salt)));
  }

  /** Two steps whose names differ in one character never share a stream. */
  lemma DerivedSeedTellsSteps(seed: int, step: Text, step': Text, i: nat, callIndex: Decimal, salt: Text)
    requires |step| == |step'| && i < |step| && step[i] != step'[i]
    requires forall j | 0 <= j < |step| && j != i :: step[j] == step'[j]
    ensures DeriveSeed(seed, step, callIndex, salt) != DeriveSeed(seed, step', callIndex, salt)
  {
    var a, b := Identity(step, callIndex, salt), Identity(step', callIndex, salt);
    OneDifferenceShows(OFFSET, a, b, i);
    XorIsInjective(HashFrom(OFFSET, a), HashFrom(OFFSET, b), ToWord(seed));
  }

  // ---- the scenario's seed ----

  const EXCLUDED: set<Text> := {
    ['s' as int, 'e' as int, 'e' as int, 'd' as int],
    ['s' as int, 'c' as int, 'h' as int, 'e' as int, 'd' as int, 'u' as int, 'l' as int, 'e' as int, 'r' as int],
    ['t' as int, 'e' as int, 'l' as int, 'e' as int, 'm' as int, 'e' as int, 't' as int, 'r' as int, 'y' as int,
     'C' as int, 'o' as int, 'n' as int, 'f' as int, 'i' as int, 'g' as int]
  }

  predicate IsIdentity(f: Field) { f.key !in EXCLUDED }

  /** The configuration without what does not tell scenarios apart. */
  function WithoutSeedIdentity(fields: seq<Field>): Object {
    Record(Keep(fields, IsIdentity))
  }

  /** The three fields that do not tell scenarios apart. */
  lemma ExcludedAre(key: Text)
    ensures key in EXCLUDED <==> key == Ascii("seed") || key == Ascii("scheduler") || key == Ascii("telemetryConfig")
  {
    assert Ascii("seed") in EXCLUDED && Ascii("scheduler") in EXCLUDED && Ascii("telemetryConfig") in EXCLUDED by {
      assert Ascii("seed") == ['s' as int, 'e' as int, 'e' as int, 'd' as int];
      assert Ascii("scheduler") == ['s' as int, 'c' as int, 'h' as int, 'e' as int, 'd' as int, 'u' as int, 'l' as int, 'e' as int, 'r' as int];
      assert Ascii("telemetryConfig") ==
             ['t' as int, 'e' as int, 'l' as int, 'e' as int, 'm' as int, 'e' as int, 't' as int, 'r' as int, 'y' as int,
              'C' as int, 'o' as int, 'n' as int, 'f' as int, 'i' as int, 'g' as int];
    }
  }

  /** `id` is where the copy without the three fields lives; it is a new object, so nothing refers to it. */
  function DeriveScenarioSeed(h: Heap, id: nat, fields: seq<Field>, seed: int): Result<int>
    requires id !in h
  {
    match Canonical(h[id := WithoutSeedIdentity(fields)], Ref(id), {})
    case Err(e) => Err(e)
    case Ok(text) => Ok(Signed(Xor(ToWord(seed), HashFrom(OFFSET, text))))
  }

  /**
   Two configurations that mean the same apart from the three excluded fields derive
   seeds that differ exactly when their own seeds do; a derived seed is always a 32-bit
   signed integer.
   */
  lemma ScenarioSeedTellsSeeds(h: Heap, id: nat, fields: seq<Field>, seed: int, h': Heap, id': nat, fields': seq<Field>, seed': int)
    requires id !in h && id' !in h'
    requires ProperHeap(h[id := WithoutSeedIdentity(fields)]) && ProperHeap(h'[id' := WithoutSeedIdentity(fields')])
    requires IsSigned(seed) && IsSigned(seed')
    requires SameMeaning(h[id := WithoutSeedIdentity(fields)], Ref(id), h'[id' := WithoutSeedIdentity(fields')], Ref(id'))
    ensures var r, r' := DeriveScenarioSeed(h, id, fields, seed), DeriveScenarioSeed(h', id', fields', seed');
            r.Ok? && r'.Ok? && IsSigned(r.value) && IsSigned(r'.value) && (r == r' <==> seed == seed')
  {
    var g, g' := h[id := WithoutSeedIdentity(fields)], h'[id' := WithoutSeedIdentity(fields')];
    SerialisesExactly(g, Ref(id));
    SerialisesExactly(g', Ref(id'));
    CanonicalIsUnambiguous(g, Ref(id), g', Ref(id'));
    var hash := HashFrom(OFFSET, Canonical(g, Ref(id), {}).value);
    SignedWords(seed, seed');
    XorIsInjective(ToWord(seed), ToWord(seed'), hash);
  }

  // ---- mulberry32 ----

  const INCREMENT: Word := 0x6d2b79f5

  /** The 32 bits drawn in a state; the draw is this over 2^32. */
  function Output(state: Word): Word {
    var t := Times(Xor(state, state / 0x8000), Or(1, state));
    var u := Xor(Plus(t, Times(Xor(t, t / 0x80), Or(61, t))), t);
    Xor(u, u / 0x4000)
  }

  function Fraction(w: Word): (r: real)
    ensures 0.0 <= r < 1.0
  {
    w as real / 4294967296.0
  }

  function StateAfter(state: Word, draws: nat): Word {
    if draws == 0 then state else Plus(StateAfter(state, draws - 1), INCREMENT)
  }

  lemma SmallWords()
    ensures XorBits(1, 0) == 1 && OrBits(1, 1) == 1 && OrBits(61, 1) == 61 && XorBits(62, 1) == 63 && XorBits(63, 0) == 63
    ensures XorBits(2, 0) == 2 && OrBits(1, 2) == 3 && XorBits(6, 0) == 6 && OrBits(61, 6) == 63 && XorBits(384, 6) == 390 && XorBits(390, 0) == 390
  {
  }

  /** What is drawn in the two smallest states above zero. */
  lemma SmallOutputs(state: Word)
    ensures state == 1 ==> Output(state) == 63
    ensures state == 2 ==> Output(state) == 390
  {
    SmallWords();
    if state == 1 {
      var t := Times(Xor(state, state / 0x8000), Or(1, state));
      assert t == 1;
      var u := Xor(Plus(t, Times(Xor(t, t / 0x80), Or(61, t))), t);
      assert u == 63;
    } else if state == 2 {
      var t := Times(Xor(state, state / 0x8000), Or(1, state));
      assert t == 6;
      var u := Xor(Plus(t, Times(Xor(t, t / 0x80), Or(61, t))), t);
      assert u == 390;
    }
  }

  class Mulberry32 {
    var state: Word

    constructor (seed: int)
      ensures state == ToWord(seed)
    {
      state := ToWord(seed);
    }

    method Draw() returns (r: real)
      modifies this
      ensures state == StateAfter(old(state), 1)
      ensures r == Fraction(Output(state)) && 0.0 <= r < 1.0
    {
      state := Plus(state, INCREMENT);
      var t := Times(Xor(state, state / 0x8000), Or(1, state));
      t := Xor(Plus(t, Times(Xor(t, t / 0x80), Or(61, t))), t);
      r := Fraction(Xor(t, t / 0x4000));
    }
  }

  lemma {:induction false} StateIsLinear(state: Word, draws: nat)
    ensures StateAfter(state, draws) == (state + draws * 0x6d2b79f5) % WORD
  {
    if draws > 0 {
      StateIsLinear(state, draws - 1);
      SumWraps(state + (draws - 1) * 0x6d2b79f5, 0x6d2b79f5);
    }
  }

  lemma OddMultiples(d: int)
    ensures d * 0x6d2b79f5 % WORD == 0 <==> d % WORD == 0
  {
    if d * 0x6d2b79f5 % WORD == 0 {
      var q := d * 0x6d2b79f5 / WORD;
      assert d == WORD * (0xdc58aa5d * q - 1576479847 * d);
    }
    if d % WORD == 0 {
      var k := d / WORD;
      assert d * 0x6d2b79f5 == WORD * (k * 0x6d2b79f5);
    }
  }

  /** The generator's states have period exactly 2^32: none is repeated sooner. */
  lemma PeriodIsFull(state: Word, m: nat, n: nat)
    ensures StateAfter(state, m) == StateAfter(state, n) <==> (m - n) % WORD == 0
  {
    StateIsLinear(state, m);
    StateIsLinear(state, n);
    var a, b := state + m * 0x6d2b79f5, state + n * 0x6d2b79f5;
    assert a - b == (m - n) * 0x6d2b79f5;
    SameRemainder(a, b);
    OddMultiples(m - n);
  }
}
