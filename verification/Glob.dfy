/**
 Path patterns at an ownership boundary (`scripts/lanes.ts`): a small glob matcher,
 and the cheap overlap test that must never miss a shared path.
 */
module Glob {

  // ---- the matcher ----

  function Slashes(p: string): (r: string)
    ensures |r| == |p|
  {
    seq(|p|, i requires 0 <= i < |p| => if p[i] == '\\' then '/' else p[i])
  }

  /** Backslashes become slashes, then one leading `./` is dropped. */
  function Normalise(p: string): string {
    var q := Slashes(p);
    if "./" <= q then q[2..] else q
  }

  /** What a pattern compiles to, one piece of the regular expression each. */
  datatype Token =
    | Lit(c: char)   // the character itself
    | One            // ?    [^/]
    | Star           // *    [^/]*
    | Deep           // **   .*
    | DeepSlash      // **/  (?:.*/)?

  function Tokens(p: string): seq<Token> {
    if p == [] then []
    else if "**/" <= p then [DeepSlash] + Tokens(p[3..])
    else if "**" <= p then [Deep] + Tokens(p[2..])
    else if p[0] == '*' then [Star] + Tokens(p[1..])
    else if p[0] == '?' then [One] + Tokens(p[1..])
    else [Lit(p[0])] + Tokens(p[1..])
  }

  /** The characters a regular expression's dot does not match. */
  predicate LineEnd(c: char) {
    c == '\n' || c == '\r' || c == '\U{2028}' || c == '\U{2029}'
  }

  predicate NoSlash(s: string) {
    forall i | 0 <= i < |s| :: s[i] != '/'
  }

  predicate OneLine(s: string) {
    forall i | 0 <= i < |s| :: !LineEnd(s[i])
  }

  /** Anchored at both ends, as the compiled expression is. */
  predicate Matches(ts: seq<Token>, s: string)
    decreases |ts|
  {
    if ts == [] then s == []
    else
      var rest := ts[1..];
      match ts[0]
      case Lit(c) => s != [] && s[0] == c && Matches(rest, s[1..])
      case One => s != [] && s[0] != '/' && Matches(rest, s[1..])
      case Star => exists k | 0 <= k <= |s| :: NoSlash(s[..k]) && Matches(rest, s[k..])
      case Deep => exists k | 0 <= k <= |s| :: OneLine(s[..k]) && Matches(rest, s[k..])
      case DeepSlash =>
        Matches(rest, s)
        || exists k | 0 <= k < |s| :: OneLine(s[..k]) && s[k] == '/' && Matches(rest, s[k + 1..])
  }

  predicate MatchPath(path: string, pattern: string) {
    Matches(Tokens(Normalise(pattern)), Normalise(path))
  }

  /** The first of `patterns` that matches, as an index, or -1. */
  function AnyMatch(path: string, patterns: seq<string>): (k: int)
    ensures -1 <= k < |patterns|
    ensures k >= 0 ==> MatchPath(path, patterns[k])
    ensures forall j | 0 <= j < |patterns| && MatchPath(path, patterns[j]) :: 0 <= k <= j
  {
    if patterns == [] then -1
    else if MatchPath(path, patterns[0]) then 0
    else
      var k := AnyMatch(path, patterns[1..]);
      assert forall j | 1 <= j < |patterns| :: patterns[j] == patterns[1..][j - 1];
      if k == -1 then -1 else k + 1
  }

  // ---- what the pieces match ----

  /** A normalised path with no wildcard in it. */
  predicate PlainPath(d: string) {
    !("./" <= d) && forall i | 0 <= i < |d| :: d[i] != '*' && d[i] != '?' && d[i] != '\\'
  }

  lemma PlainNormalises(d: string, p: string)
    requires PlainPath(d) && p != [] && p[0] != '/' && forall i | 0 <= i < |p| :: p[i] != '\\'
    requires "./" <= p ==> d != []
    ensures Normalise(d + p) == d + p
  {
    var q := d + p;
    forall i | 0 <= i < |q| ensures q[i] != '\\' { assert q[i] == if i < |d| then d[i] else p[i - |d|]; }
    assert Slashes(q) == q;
    assert |d| >= 2 ==> q[0] == d[0] && q[1] == d[1];
    assert |d| == 1 ==> q[1] == p[0];
    assert d == [] ==> q == p;
  }

  /** What has no wildcard matches itself, and then the rest is matched. */
  lemma {:induction false} PlainThenRest(d: string, p: string, s: string)
    requires forall i | 0 <= i < |d| :: d[i] != '*' && d[i] != '?'
    ensures Matches(Tokens(d + p), s) <==> d <= s && Matches(Tokens(p), s[|d|..])
  {
    if d == [] {
      assert d + p == p && s[0..] == s;
    } else {
      var q := d + p;
      assert q[1..] == d[1..] + p && q[0] == d[0];
      assert Tokens(q) == [Lit(d[0])] + Tokens(q[1..]) && Tokens(q)[1..] == Tokens(q[1..]);
      if s != [] && s[0] == d[0] {
        PlainThenRest(d[1..], p, s[1..]);
        assert d == [d[0]] + d[1..] && s == [s[0]] + s[1..];
        assert d <= s <==> d[1..] <= s[1..];
        assert d <= s ==> s[1..][|d| - 1..] == s[|d|..];
      }
    }
  }

  lemma DeepAlone(s: string)
    ensures Matches(Tokens("**"), s) <==> OneLine(s)
  {
    assert "**"[2..] == [] && Tokens("**") == [Deep] && Tokens("**")[1..] == [];
    if OneLine(s) { assert s[..|s|] == s && s[|s|..] == [] && Matches([], s[|s|..]); }
    forall k | 0 <= k <= |s| && Matches([], s[k..]) ensures s[..k] == s {}
  }

  lemma StarAlone(s: string)
    ensures Matches(Tokens("*"), s) <==> NoSlash(s)
  {
    assert "*"[1..] == [] && Tokens("*") == [Star] && Tokens("*")[1..] == [];
    if NoSlash(s) { assert s[..|s|] == s && s[|s|..] == [] && Matches([], s[|s|..]); }
    forall k | 0 <= k <= |s| && Matches([], s[k..]) ensures s[..k] == s {}
  }

  lemma OneAlone(s: string)
    ensures Matches(Tokens("?"), s) <==> |s| == 1 && s[0] != '/'
  {
    assert "?"[1..] == [] && Tokens("?") == [One] && Tokens("?")[1..] == [];
    if s != [] { assert Matches([], s[1..]) <==> |s| == 1; }
  }

  /** `d**` matches everything on one line that begins with `d`, however deep. */
  lemma SubtreeMatches(path: string, d: string)
    requires PlainPath(d)
    ensures MatchPath(path, d + "**") <==> d <= Normalise(path) && OneLine(Normalise(path)[|d|..])
  {
    PlainNormalises(d, "**");
    PlainThenRest(d, "**", Normalise(path));
    if d <= Normalise(path) { DeepAlone(Normalise(path)[|d|..]); }
  }

  /** `d*` matches exactly `d` with a name after it that has no slash. */
  lemma NameMatches(path: string, d: string)
    requires PlainPath(d)
    ensures MatchPath(path, d + "*") <==> d <= Normalise(path) && NoSlash(Normalise(path)[|d|..])
  {
    PlainNormalises(d, "*");
    PlainThenRest(d, "*", Normalise(path));
    if d <= Normalise(path) { StarAlone(Normalise(path)[|d|..]); }
  }

  /** `d?` matches exactly `d` with one character after it that is no slash. */
  lemma CharacterMatches(path: string, d: string)
    requires PlainPath(d)
    ensures MatchPath(path, d + "?") <==> exists c :: c != '/' && Normalise(path) == d + [c]
  {
    PlainNormalises(d, "?");
    var s := Normalise(path);
    PlainThenRest(d, "?", s);
    if d <= s {
      OneAlone(s[|d|..]);
      assert s == d + s[|d|..];
      if |s[|d|..]| == 1 { assert s[|d|..] == [s[|d|]]; }
    }
    forall c | s == d + [c] ensures d <= s && s[|d|..] == [c] {}
  }

  /** A path without wildcards matches itself alone. */
  lemma PlainMatches(path: string, x: string)
    requires PlainPath(x)
    ensures Matches(Tokens(x), path) <==> path == x
  {
    PlainThenRest(x, "", path);
    assert x + "" == x;
  }

  lemma AnywhereNormalises(x: string)
    requires PlainPath(x)
    ensures Normalise("**/" + x) == "**/" + x && Tokens("**/" + x) == [DeepSlash] + Tokens(x)
  {
    var p := "**/" + x;
    forall i | 0 <= i < |p| ensures p[i] != '\\' { if i >= 3 { assert p[i] == x[i - 3]; } }
    assert Slashes(p) == p && p[0] == '*';
    assert p[3..] == x && "**/" <= p;
  }

  lemma PlainAnywhere(s: string, x: string)
    requires PlainPath(x)
    ensures Matches([DeepSlash] + Tokens(x), s) <==> s == x || exists k: nat :: SplitsAt(s, k, x)
  {
    var ts := [DeepSlash] + Tokens(x);
    assert ts[1..] == Tokens(x);
    PlainMatches(s, x);
    if Matches(ts, s) && s != x {
      var k :| 0 <= k < |s| && OneLine(s[..k]) && s[k] == '/' && Matches(ts[1..], s[k + 1..]);
      PlainMatches(s[k + 1..], x);
      assert SplitsAt(s, k, x);
    }
    if k: nat :| SplitsAt(s, k, x) {
      PlainMatches(s[k + 1..], x);
      assert OneLine(s[..k]) && s[k] == '/' && Matches(ts[1..], s[k + 1..]);
    }
  }

  /** `**` with a slash and then `x` matches exactly `x` at the top and `x` after a slash. */
  lemma AnywhereMatches(path: string, x: string)
    requires PlainPath(x)
    ensures MatchPath(path, "**/" + x) <==> Normalise(path) == x || exists k: nat :: SplitsAt(Normalise(path), k, x)
  {
    AnywhereNormalises(x);
    PlainAnywhere(Normalise(path), x);
  }

  ghost predicate SplitsAt(s: string, k: nat, x: string) {
    k < |s| && OneLine(s[..k]) && s[k] == '/' && s[k + 1..] == x
  }

  // ---- the matcher as a language ----

  /** The texts a piece stands for. */
  ghost predicate StandsFor(t: Token, s: string) {
    match t
    case Lit(c) => s == [c]
    case One => |s| == 1 && '/' !in s
    case Star => '/' !in s
    case Deep => forall c | c in s :: !LineEnd(c)
    case DeepSlash => s == [] || (s[|s| - 1] == '/' && forall c | c in s :: !LineEnd(c))
  }

  function Concat(parts: seq<string>): string {
    if parts == [] then [] else parts[0] + Concat(parts[1..])
  }

  ghost predicate Spells(ts: seq<Token>, parts: seq<string>, s: string) {
    |parts| == |ts| && Concat(parts) == s && forall i | 0 <= i < |ts| :: StandsFor(ts[i], parts[i])
  }

  /** The first piece takes some beginning of the text, and the others the rest. */
  lemma FirstLength(ts: seq<Token>, s: string) returns (k: nat)
    requires ts != [] && Matches(ts, s)
    ensures k <= |s| && StandsFor(ts[0], s[..k]) && Matches(ts[1..], s[k..])
  {
    match ts[0]
    case Lit(_) => k := 1; assert s[..1] == [s[0]];
    case One => k := 1; assert s[..1] == [s[0]];
    case Star => k :| 0 <= k <= |s| && NoSlash(s[..k]) && Matches(ts[1..], s[k..]);
    case Deep => k :| 0 <= k <= |s| && OneLine(s[..k]) && Matches(ts[1..], s[k..]);
    case DeepSlash =>
      if Matches(ts[1..], s) {
        k := 0;
        assert s[0..] == s;
      } else {
        var j :| 0 <= j < |s| && OneLine(s[..j]) && s[j] == '/' && Matches(ts[1..], s[j + 1..]);
        k := j + 1;
        DirectoryStands(s, j);
      }
  }

  lemma DirectoryStands(s: string, j: nat)
    requires j < |s| && OneLine(s[..j]) && s[j] == '/'
    ensures StandsFor(DeepSlash, s[..j + 1])
  {
    assert s[..j + 1] == s[..j] + ['/'];
  }

  lemma PieceMatches(ts: seq<Token>, s: string, k: nat)
    requires ts != [] && k <= |s| && StandsFor(ts[0], s[..k]) && Matches(ts[1..], s[k..])
    ensures Matches(ts, s)
  {
    assert forall i | 0 <= i < k :: s[..k][i] in s[..k];
    match ts[0]
    case Lit(c) => assert s[..k] == [c] && s[0] == s[..k][0];
    case One => assert k == 1 && s[0] == s[..k][0];
    case Star => assert NoSlash(s[..k]);
    case Deep => assert OneLine(s[..k]);
    case DeepSlash =>
      if k == 0 {
        assert s[0..] == s;
      } else {
        assert s[k - 1] == s[..k][k - 1] && OneLine(s[..k - 1]);
      }
  }

  /** A pattern matches exactly the texts that its pieces, one after the other, stand for. */
  lemma {:induction false} MatchesExactly(ts: seq<Token>, s: string)
    ensures Matches(ts, s) <==> exists parts :: Spells(ts, parts, s)
    decreases |ts|
  {
    if ts == [] {
      assert s == [] ==> Spells(ts, [], s);
    } else {
      if Matches(ts, s) {
        var k := FirstLength(ts, s);
        MatchesExactly(ts[1..], s[k..]);
        var rest :| Spells(ts[1..], rest, s[k..]);
        var parts := [s[..k]] + rest;
        assert parts[1..] == rest && s == s[..k] + s[k..];
        assert Spells(ts, parts, s);
      }
      if parts :| Spells(ts, parts, s) {
        var k := |parts[0]|;
        assert s[..k] == parts[0] && s[k..] == Concat(parts[1..]);
        assert Spells(ts[1..], parts[1..], s[k..]);
        MatchesExactly(ts[1..], s[k..]);
        PieceMatches(ts, s, k);
      }
    }
  }

  // ---- the overlap test ----

  predicate GlobChar(c: char) {
    c == '*' || c == '?' || c == '[' || c == ']'
  }

  /** How many characters come before the first glob character. */
  function LiteralLength(p: string): (n: nat)
    ensures n <= |p|
    ensures forall i | 0 <= i < n :: !GlobChar(p[i])
    ensures n < |p| ==> GlobChar(p[n])
  {
    if p == [] || GlobChar(p[0]) then 0 else 1 + LiteralLength(p[1..])
  }

  /** `p` up to and including its last slash; empty when it has none. */
  function DirectoryOf(p: string): (d: string)
    ensures d <= p
    ensures d == [] || d[|d| - 1] == '/'
    ensures NoSlash(p[|d|..])
  {
    if p == [] || p[|p| - 1] == '/' then p
    else
      var d := DirectoryOf(p[..|p| - 1]);
      assert p[|d|..] == p[..|p| - 1][|d|..] + [p[|p| - 1]];
      d
  }

  function LiteralPrefix(pattern: string): string {
    var p := Normalise(pattern);
    var n := LiteralLength(p);
    if n == |p| then p else DirectoryOf(p[..n])
  }

  function WithSlash(p: string): string {
    if p == [] || p[|p| - 1] == '/' then p else p + "/"
  }

  predicate PatternsOverlap(a: string, b: string) {
    var A, B := WithSlash(LiteralPrefix(a)), WithSlash(LiteralPrefix(b));
    B <= A || A <= B
  }

  // ---- the test over-approximates the matcher ----

  lemma {:induction false} MatchStartsLiterally(p: string, s: string)
    requires Matches(Tokens(p), s)
    ensures p[..LiteralLength(p)] <= s
    ensures LiteralLength(p) == |p| ==> s == p
  {
    if LiteralLength(p) > 0 {
      assert p[0] != '*' && p[0] != '?';
      assert Tokens(p)[1..] == Tokens(p[1..]);
      MatchStartsLiterally(p[1..], s[1..]);
      assert s == [s[0]] + s[1..] && p == [p[0]] + p[1..];
      assert p[..LiteralLength(p)] == [p[0]] + p[1..][..LiteralLength(p[1..])];
    }
  }

  lemma MatchStartsWithPrefix(path: string, pattern: string)
    requires MatchPath(path, pattern)
    ensures LiteralPrefix(pattern) <= Normalise(path)
    ensures LiteralLength(Normalise(pattern)) == |Normalise(pattern)| ==> Normalise(path) == LiteralPrefix(pattern)
    ensures LiteralLength(Normalise(pattern)) != |Normalise(pattern)| ==> WithSlash(LiteralPrefix(pattern)) == LiteralPrefix(pattern)
  {
    MatchStartsLiterally(Normalise(pattern), Normalise(path));
  }

  lemma PrefixesNest(p: string, A: string, B: string)
    requires A <= p && B <= p && |A| <= |B|
    requires WithSlash(A) == A || A == p
    ensures WithSlash(A) <= WithSlash(B)
  {
    assert A == p[..|A|] && B == p[..|B|];
    assert A == B[..|A|];
    if A == p {
      assert B == A;
    }
  }

  /** Any path two patterns both match makes the overlap test answer true: it has no false negatives. */
  lemma SharedPathMeansOverlap(path: string, a: string, b: string)
    requires MatchPath(path, a) && MatchPath(path, b)
    ensures PatternsOverlap(a, b)
  {
    MatchStartsWithPrefix(path, a);
    MatchStartsWithPrefix(path, b);
    if |LiteralPrefix(a)| <= |LiteralPrefix(b)| {
      PrefixesNest(Normalise(path), LiteralPrefix(a), LiteralPrefix(b));
    } else {
      PrefixesNest(Normalise(path), LiteralPrefix(b), LiteralPrefix(a));
    }
  }

  // ---- how tight it is ----

  /** A directory name: no slash, no glob character, no backslash. */
  predicate PlainName(x: string) {
    forall i | 0 <= i < |x| :: !GlobChar(x[i]) && x[i] != '/' && x[i] != '\\'
  }

  /** A normalised literal directory path, ending in a slash. */
  predicate PlainDirectory(d: string) {
    && d != [] && d[|d| - 1] == '/' && !("./" <= d)
    && forall i | 0 <= i < |d| :: !GlobChar(d[i]) && d[i] != '\\'
  }

  lemma {:induction false} LiteralThenGlob(l: string, g: string)
    requires forall i | 0 <= i < |l| :: !GlobChar(l[i])
    requires g != [] && GlobChar(g[0])
    ensures LiteralLength(l + g) == |l|
  {
    if l == [] {
      assert l + g == g;
    } else {
      assert (l + g)[1..] == l[1..] + g;
      LiteralThenGlob(l[1..], g);
    }
  }

  lemma SubtreePrefix(dir: string, x: string)
    requires PlainDirectory(dir) && PlainName(x)
    ensures LiteralPrefix(dir + x + "/**") == dir + x + "/"
  {
    var l := dir + x + "/";
    var p := dir + x + "/**";
    assert p == l + "**";
    forall i | 0 <= i < |p| ensures p[i] != '\\' {
      if |dir| <= i < |dir| + |x| { assert p[i] == x[i - |dir|]; }
    }
    assert Slashes(p) == p;
    assert p[0] == dir[0] && (|dir| > 1 ==> p[1] == dir[1]);
    assert !("./" <= p);
    forall i | 0 <= i < |l| ensures !GlobChar(l[i]) {
      if |dir| <= i < |dir| + |x| { assert l[i] == x[i - |dir|]; }
    }
    LiteralThenGlob(l, "**");
    assert p[..|l|] == l;
  }

  /**
   Two sibling subtrees are reported as overlapping exactly when they are the same
   subtree: the prefix keeps the last directory, it does not stop at the parent.
   */
  lemma SiblingSubtrees(dir: string, x: string, y: string)
    requires PlainDirectory(dir) && PlainName(x) && PlainName(y)
    ensures PatternsOverlap(dir + x + "/**", dir + y + "/**") <==> x == y
  {
    SubtreePrefix(dir, x);
    SubtreePrefix(dir, y);
    var A, B := dir + x + "/", dir + y + "/";
    if A <= B {
      SlashFreePrefix(dir, x, y);
    }
    if B <= A {
      SlashFreePrefix(dir, y, x);
    }
  }

  lemma SlashFreePrefix(dir: string, x: string, y: string)
    requires PlainName(x) && PlainName(y)
    requires dir + x + "/" <= dir + y + "/"
    ensures x == y
  {
    var A, B := dir + x + "/", dir + y + "/";
    assert A[|dir| + |x|] == '/' && B[|dir| + |x|] == '/';
    assert forall i | 0 <= i < |y| :: B[|dir| + i] == y[i];
    assert |x| == |y|;
    forall i | 0 <= i < |x| ensures x[i] == y[i] {
      assert A[|dir| + i] == x[i] && B[|dir| + i] == y[i];
    }
  }
}
