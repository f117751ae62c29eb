/**
 JavaScript strings as sequences of 16-bit code units, and the string escaping of
 `JSON.stringify` (section 7 of RFC 8259, with lone surrogates escaped).
 */
module Quoting {

  type Unit = c: int | 0 <= c < 0x10000

  type Text = seq<Unit>

  /** What reading a prefix of a text gives: a value and what is left, or nothing. */
  datatype Parse<T> = Fail | Got(value: T, rest: Text)

  const QUOTE: Unit := 34
  const BACKSLASH: Unit := 92

  /** The letter that stands for `c` after a backslash; 0 when there is none. */
  function ShortEscape(c: Unit): Unit {
    if c == QUOTE || c == BACKSLASH then c
    else if c == 8 then 'b' as Unit
    else if c == 9 then 't' as Unit
    else if c == 10 then 'n' as Unit
    else if c == 12 then 'f' as Unit
    else if c == 13 then 'r' as Unit
    else 0
  }

  function HexDigit(d: int): Unit
    requires 0 <= d < 16
  {
    if d < 10 then '0' as Unit + d else 'a' as Unit + (d - 10)
  }

  /** `\uxxxx`, in lower case. */
  function LongEscape(c: Unit): (r: Text)
    ensures |r| == 6
  {
    [BACKSLASH, 'u' as Unit, HexDigit(c / 4096), HexDigit(c / 256 % 16), HexDigit(c / 16 % 16), HexDigit(c % 16)]
  }

  predicate IsHigh(c: Unit) { 0xD800 <= c < 0xDC00 }

  predicate IsLow(c: Unit) { 0xDC00 <= c < 0xE000 }

  /** How many units are escaped together: a surrogate pair, or one unit. */
  function Taken(s: Text): (n: nat)
    requires s != []
    ensures 1 <= n <= 2 && n <= |s|
  {
    if IsHigh(s[0]) && |s| > 1 && IsLow(s[1]) then 2 else 1
  }

  function EscapeUnit(c: Unit): Text {
    if ShortEscape(c) != 0 then [BACKSLASH, ShortEscape(c)]
    else if c < 32 || IsHigh(c) || IsLow(c) then LongEscape(c)
    else [c]
  }

  /** A surrogate pair stands for itself; a surrogate alone, a control, a quote and a backslash are escaped. */
  function Escape(s: Text): Text {
    if s == [] then []
    else (if Taken(s) == 2 then s[..2] else EscapeUnit(s[0])) + Escape(s[Taken(s)..])
  }

  /** `JSON.stringify` of a string. */
  function Quote(s: Text): Text {
    [QUOTE] + Escape(s) + [QUOTE]
  }

  // ---- reading it back ----

  /** The unit a letter after a backslash stands for; -1 when it is not one. */
  function Unescape(c: Unit): int {
    if c == QUOTE || c == BACKSLASH then c
    else if c == 'b' as Unit then 8
    else if c == 't' as Unit then 9
    else if c == 'n' as Unit then 10
    else if c == 'f' as Unit then 12
    else if c == 'r' as Unit then 13
    else -1
  }

  function DigitValue(c: Unit): (d: int)
    ensures -1 <= d < 16
  {
    if '0' as int <= c <= '9' as int then c - '0' as int
    else if 'a' as int <= c <= 'f' as int then c - 'a' as int + 10
    else -1
  }

  /** The unit written by four hexadecimal digits; -1 when one of them is not a digit. */
  function HexValue(s: Text): (c: int)
    requires |s| == 4
    ensures -1 <= c < 0x10000
  {
    var a, b, c, d := DigitValue(s[0]), DigitValue(s[1]), DigitValue(s[2]), DigitValue(s[3]);
    if a < 0 || b < 0 || c < 0 || d < 0 then -1 else ((a * 16 + b) * 16 + c) * 16 + d
  }

  function Before(c: Unit, r: Parse<Text>): Parse<Text> {
    match r case Fail => Fail case Got(t, rest) => Got([c] + t, rest)
  }

  /** The characters up to the closing quote. */
  function ReadChars(s: Text): (r: Parse<Text>)
    ensures r.Got? ==> |r.rest| < |s|
  {
    if s == [] then Fail
    else if s[0] == QUOTE then Got([], s[1..])
    else if s[0] != BACKSLASH then Before(s[0], ReadChars(s[1..]))
    else if |s| >= 2 && Unescape(s[1]) >= 0 then Before(Unescape(s[1]), ReadChars(s[2..]))
    else if |s| >= 6 && s[1] == 'u' as Unit && HexValue(s[2..6]) >= 0 then Before(HexValue(s[2..6]), ReadChars(s[6..]))
    else Fail
  }

  lemma ReadShort(c: Unit, tail: Text)
    requires ShortEscape(c) != 0
    ensures ReadChars([BACKSLASH, ShortEscape(c)] + tail) == Before(c, ReadChars(tail))
  {
    var s := [BACKSLASH, ShortEscape(c)] + tail;
    assert s[2..] == tail && Unescape(s[1]) == c;
  }

  lemma DigitReadsBack(d: int)
    requires 0 <= d < 16
    ensures DigitValue(HexDigit(d)) == d
  {
  }

  lemma HexReadsBack(c: Unit)
    ensures HexValue(LongEscape(c)[2..6]) == c
  {
    var s := LongEscape(c)[2..6];
    assert s[0] == HexDigit(c / 4096) && s[1] == HexDigit(c / 256 % 16);
    assert s[2] == HexDigit(c / 16 % 16) && s[3] == HexDigit(c % 16);
    DigitReadsBack(c / 4096);
    DigitReadsBack(c / 256 % 16);
    DigitReadsBack(c / 16 % 16);
    DigitReadsBack(c % 16);
    assert c / 16 == c / 256 * 16 + c / 16 % 16;
    assert c / 256 == c / 4096 * 16 + c / 256 % 16;
  }

  lemma ReadHex(s: Text, c: Unit)
    requires |s| >= 6 && s[0] == BACKSLASH && s[1] == 'u' as Unit && HexValue(s[2..6]) == c
    ensures ReadChars(s) == Before(c, ReadChars(s[6..]))
  {
  }

  lemma ReadLong(c: Unit, tail: Text)
    ensures ReadChars(LongEscape(c) + tail) == Before(c, ReadChars(tail))
  {
    var s := LongEscape(c) + tail;
    assert s[2..6] == LongEscape(c)[2..6] && s[6..] == tail;
    HexReadsBack(c);
    ReadHex(s, c);
  }

  lemma ReadPlain(c: Unit, tail: Text)
    requires c != QUOTE && c != BACKSLASH
    ensures ReadChars([c] + tail) == Before(c, ReadChars(tail))
  {
    assert ([c] + tail)[1..] == tail;
  }

  lemma ReadUnit(c: Unit, tail: Text)
    ensures ReadChars(EscapeUnit(c) + tail) == Before(c, ReadChars(tail))
  {
    if ShortEscape(c) != 0 {
      ReadShort(c, tail);
    } else if c < 32 || IsHigh(c) || IsLow(c) {
      ReadLong(c, tail);
    } else {
      ReadPlain(c, tail);
    }
  }

  lemma ReadPair(c: Unit, d: Unit, tail: Text)
    requires IsHigh(c) && IsLow(d)
    ensures ReadChars([c, d] + tail) == Before(c, Before(d, ReadChars(tail)))
  {
    ReadPlain(d, tail);
    ReadPlain(c, [d] + tail);
    assert [c] + ([d] + tail) == [c, d] + tail;
  }

  /** Reading undoes escaping, whatever follows the closing quote. */
  lemma {:induction false} EscapeReadsBack(s: Text, rest: Text)
    ensures ReadChars(Escape(s) + [QUOTE] + rest) == Got(s, rest)
  {
    if s == [] {
      assert Escape(s) + [QUOTE] + rest == [QUOTE] + rest;
      assert ([QUOTE] + rest)[1..] == rest;
    } else {
      var n := Taken(s);
      EscapeReadsBack(s[n..], rest);
      var head, tail := (if n == 2 then s[..2] else EscapeUnit(s[0])), Escape(s[n..]) + [QUOTE] + rest;
      Regroup(head, Escape(s[n..]), [QUOTE], rest);
      if n == 2 {
        assert s[..2] == [s[0], s[1]];
        ReadPair(s[0], s[1], tail);
        assert s == [s[0]] + ([s[1]] + s[2..]);
      } else {
        ReadUnit(s[0], tail);
        assert s == [s[0]] + s[1..];
      }
    }
  }

  lemma Regroup(a: Text, b: Text, c: Text, d: Text)
    ensures a + b + c + d == a + (b + c + d) && b + c + d == b + (c + d)
  {
  }

  lemma QuoteReadsBack(s: Text, rest: Text)
    ensures ReadChars((Quote(s) + rest)[1..]) == Got(s, rest)
  {
    EscapeReadsBack(s, rest);
    Regroup([QUOTE], Escape(s), [QUOTE], rest);
    assert ([QUOTE] + (Escape(s) + [QUOTE] + rest))[1..] == Escape(s) + [QUOTE] + rest;
  }

  /** Two quoted strings with anything behind them agree only if the strings do. */
  lemma QuoteIsInjective(s: Text, a: Text, t: Text, b: Text)
    requires Quote(s) + a == Quote(t) + b
    ensures s == t && a == b
  {
    QuoteReadsBack(s, a);
    QuoteReadsBack(t, b);
    assert (Quote(s) + a)[1..] == (Quote(t) + b)[1..];
    assert ReadChars((Quote(s) + a)[1..]) == ReadChars((Quote(t) + b)[1..]);
  }
}
