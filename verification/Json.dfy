/**
 The grammar of JSON (RFC 8259), on 16-bit code units: numbers (section 6) and strings
 (section 7). It shares nothing with the serialiser but the type of texts.
 */
module JsonGrammar {
  import opened Quoting

  /** A text in the characters of `s`, all of which are plain. */
  function Ascii(s: string): (r: Text)
    ensures |r| == |s|
  {
    seq(|s|, i requires 0 <= i < |s| => if s[i] as int < 128 then s[i] as int else 0)
  }

  predicate Is(c: Unit, x: char) { c == x as int }

  // ---- numbers ----

  predicate IsDigit(c: Unit) { '0' as int <= c <= '9' as int }

  /** How many digits come first. */
  function DigitRun(s: Text): (n: nat)
    ensures n <= |s|
  {
    if s == [] || !IsDigit(s[0]) then 0 else 1 + DigitRun(s[1..])
  }

  predicate IsExponent(s: Text) {
    s == [] || ((Is(s[0], 'e') || Is(s[0], 'E'))
                && var t := s[1..];
                   var u := if t != [] && (Is(t[0], '+') || Is(t[0], '-')) then t[1..] else t;
                   u != [] && DigitRun(u) == |u|)
  }

  predicate IsFraction(s: Text) {
    if s != [] && Is(s[0], '.') then DigitRun(s[1..]) > 0 && IsExponent(s[1 + DigitRun(s[1..])..]) else IsExponent(s)
  }

  predicate IsUnsigned(s: Text) {
    DigitRun(s) > 0 && (Is(s[0], '0') ==> DigitRun(s) == 1) && IsFraction(s[DigitRun(s)..])
  }

  predicate IsNumber(s: Text) {
    s != [] && IsUnsigned(if Is(s[0], '-') then s[1..] else s)
  }

  // ---- strings ----

  function HexOf(c: Unit): (d: int)
    ensures -1 <= d < 16
  {
    if '0' as int <= c <= '9' as int then c - '0' as int
    else if 'a' as int <= c <= 'f' as int then c - 'a' as int + 10
    else if 'A' as int <= c <= 'F' as int then c - 'A' as int + 10
    else -1
  }

  predicate HexFor(s: Text, c: Unit)
    requires |s| == 4
  {
    && HexOf(s[0]) >= 0 && HexOf(s[1]) >= 0 && HexOf(s[2]) >= 0 && HexOf(s[3]) >= 0
    && c == HexOf(s[0]) * 4096 + HexOf(s[1]) * 256 + HexOf(s[2]) * 16 + HexOf(s[3])
  }

  /** `\\x` stands for `c`. */
  predicate ShortFor(x: Unit, c: Unit) {
    || (Is(x, '\"') && Is(c, '\"')) || (Is(x, '\\') && Is(c, '\\')) || (Is(x, '/') && Is(c, '/'))
    || (Is(x, 'b') && c == 0x08) || (Is(x, 'f') && c == 0x0C) || (Is(x, 'n') && c == 0x0A)
    || (Is(x, 'r') && c == 0x0D) || (Is(x, 't') && c == 0x09)
  }

  /** What is between the quotes of a string that stands for `chars`. */
  predicate Spells(s: Text, chars: Text) {
    if s == [] || chars == [] then s == chars
    else if Is(s[0], '\\') then
      || (|s| >= 2 && ShortFor(s[1], chars[0]) && Spells(s[2..], chars[1..]))
      || (|s| >= 6 && Is(s[1], 'u') && HexFor(s[2..6], chars[0]) && Spells(s[6..], chars[1..]))
    else
      s[0] >= 0x20 && !Is(s[0], '\"') && s[0] == chars[0] && Spells(s[1..], chars[1..])
  }

  predicate IsStringOf(s: Text, chars: Text) {
    |s| >= 2 && Is(s[0], '\"') && Is(s[|s| - 1], '\"') && Spells(s[1..|s| - 1], chars)
  }

  /** No surrogate stands alone, so that the text has an encoding. */
  predicate WellFormed(s: Text) {
    if s == [] then true
    else if 0xD800 <= s[0] < 0xDC00 then |s| > 1 && 0xDC00 <= s[1] < 0xE000 && WellFormed(s[2..])
    else !(0xDC00 <= s[0] < 0xE000) && WellFormed(s[1..])
  }

  // ---- the escaping follows it ----

  lemma HexDigitIs(d: int)
    requires 0 <= d < 16
    ensures HexOf(HexDigit(d)) == d
  {
  }

  lemma LongIsHex(c: Unit)
    ensures HexFor(LongEscape(c)[2..6], c)
  {
    HexDigitIs(c / 4096);
    HexDigitIs(c / 256 % 16);
    HexDigitIs(c / 16 % 16);
    HexDigitIs(c % 16);
    assert c / 16 == c / 256 * 16 + c / 16 % 16;
    assert c / 256 == c / 4096 * 16 + c / 256 % 16;
  }

  lemma UnitSpells(c: Unit, rest: Text, more: Text)
    requires Spells(rest, more)
    ensures Spells(EscapeUnit(c) + rest, [c] + more)
  {
    var s, chars := EscapeUnit(c) + rest, [c] + more;
    assert chars[1..] == more;
    if ShortEscape(c) != 0 {
      assert s[2..] == rest;
    } else if c < 32 || IsHigh(c) || IsLow(c) {
      LongIsHex(c);
      assert s[2..6] == LongEscape(c)[2..6] && s[6..] == rest;
    } else {
      assert s[1..] == rest;
    }
  }

  lemma PlainSpells(c: Unit, rest: Text, more: Text)
    requires Spells(rest, more) && c >= 0x20 && !Is(c, '\"') && !Is(c, '\\')
    ensures Spells([c] + rest, [c] + more)
  {
    assert ([c] + rest)[1..] == rest && ([c] + more)[1..] == more;
  }

  lemma {:induction false} EscapeSpells(s: Text)
    ensures Spells(Escape(s), s)
  {
    if s != [] {
      var n := Taken(s);
      var rest := Escape(s[n..]);
      EscapeSpells(s[n..]);
      if n == 2 {
        PlainSpells(s[1], rest, s[2..]);
        PlainSpells(s[0], [s[1]] + rest, [s[1]] + s[2..]);
        assert s == [s[0]] + ([s[1]] + s[2..]) && Escape(s) == [s[0]] + ([s[1]] + rest);
      } else {
        UnitSpells(s[0], rest, s[1..]);
        assert s == [s[0]] + s[1..];
      }
    }
  }

  /** A quoted string is a JSON string that stands for it. */
  lemma QuoteIsString(s: Text)
    ensures IsStringOf(Quote(s), s)
  {
    EscapeSpells(s);
    assert Quote(s)[1..|Quote(s)| - 1] == Escape(s);
  }

  lemma AfterPlain(a: Text, s: Text)
    requires WellFormed(s) && forall i | 0 <= i < |a| :: !(0xD800 <= a[i] < 0xE000)
    ensures WellFormed(a + s)
    decreases |a|
  {
    if a == [] {
      assert a + s == s;
    } else {
      AfterPlain(a[1..], s);
      assert (a + s)[1..] == a[1..] + s;
    }
  }

  /** And it has no lone surrogate, whatever the string has. */
  lemma {:induction false} EscapeIsWellFormed(s: Text)
    ensures WellFormed(Escape(s))
  {
    if s != [] {
      var n := Taken(s);
      var rest := Escape(s[n..]);
      EscapeIsWellFormed(s[n..]);
      if n == 2 {
        assert Escape(s)[2..] == rest;
      } else {
        AfterPlain(EscapeUnit(s[0]), rest);
      }
    }
  }

  /** The seven characters with a short escape, and how other controls and lone surrogates are written. */
  lemma EscapesAre(c: Unit)
    ensures EscapeUnit(0x08) == Ascii("\\b") && EscapeUnit(0x09) == Ascii("\\t") && EscapeUnit(0x0A) == Ascii("\\n")
    ensures EscapeUnit(0x0C) == Ascii("\\f") && EscapeUnit(0x0D) == Ascii("\\r")
    ensures EscapeUnit(0x22) == Ascii("\\\"") && EscapeUnit(0x5C) == Ascii("\\\\")
    ensures c !in {0x08, 0x09, 0x0A, 0x0C, 0x0D, 0x22, 0x5C} ==>
              if c < 0x20 || 0xD800 <= c < 0xE000 then |EscapeUnit(c)| == 6 && EscapeUnit(c)[..2] == Ascii("\\u")
              else EscapeUnit(c) == [c]
  {
    assert Ascii("\\b")[0] == 92 && Ascii("\\u") == [92, 117];
  }
}

/**
 Which texts are JSON texts of which trees (RFC 8259, sections 2 to 5), with the members of
 every object in ascending order of their names, and that the canonical form is one.
 */
module JsonTexts {
  import opened Graph
  import opened Sorting
  import opened Lists
  import opened Quoting
  import opened JsonGrammar
  import opened CanonicalForm

  function Commas(parts: seq<Text>): Text {
    if parts == [] then []
    else if |parts| == 1 then parts[0]
    else parts[0] + Ascii(",") + Commas(parts[1..])
  }

  function Pairs(names: seq<Text>, values: seq<Text>): (r: seq<Text>)
    requires |names| == |values|
    ensures |r| == |names|
  {
    seq(|names|, i requires 0 <= i < |names| => names[i] + Ascii(":") + values[i])
  }

  /** `a` comes before `b`: where they first differ, or where `a` ends. */
  ghost predicate Precedes(a: Text, b: Text) {
    exists k :: 0 <= k <= |a| && k < |b| && a[..k] == b[..k] && (k < |a| ==> a[k] < b[k])
  }

  ghost predicate StrictlyAscending(keys: seq<Text>) {
    forall i, j | 0 <= i < j < |keys| :: Precedes(keys[i], keys[j])
  }

  /** The members of an object: names and values in ascending order of the names' meaning, all of them. */
  ghost predicate AreMembers(keys: seq<Text>, names: seq<Text>, values: seq<Text>, t: Json)
    requires t.JRecord?
    decreases t, 0
  {
    && |names| == |values| == |keys| && StrictlyAscending(keys) && (forall k :: k in keys <==> k in t.fields)
    && (forall i | 0 <= i < |keys| :: IsStringOf(names[i], keys[i]))
    && forall i | 0 <= i < |keys| :: keys[i] in t.fields && IsText(values[i], t.fields[keys[i]])
  }

  ghost predicate IsText(s: Text, t: Json)
    decreases t, 1
  {
    match t
    case JNull => s == Ascii("null")
    case JBoolean(b) => s == Ascii(if b then "true" else "false")
    case JNumber(n) => s == n && IsNumber(s)
    case JChars(chars) => IsStringOf(s, chars)
    case JList(items) =>
      exists parts: seq<Text> ::
        && |parts| == |items| && s == Ascii("[") + Commas(parts) + Ascii("]")
        && forall i | 0 <= i < |items| :: IsText(parts[i], items[i])
    case JRecord(fields) =>
      exists keys, names, values ::
        AreMembers(keys, names, values, t) && s == Ascii("{") + Commas(Pairs(names, values)) + Ascii("}")
  }

  lemma Punctuation()
    ensures Ascii(",") == [COMMA] && Ascii(":") == [COLON]
    ensures Ascii("[") == [OPEN_LIST] && Ascii("]") == [CLOSE_LIST] && Ascii("{") == [OPEN_RECORD] && Ascii("}") == [CLOSE_RECORD]
    ensures Ascii("null") == NULL && Ascii("true") == TRUE && Ascii("false") == FALSE
  {
  }

  lemma {:induction false} CommasJoin(parts: seq<Text>)
    ensures Commas(parts) == Join(parts, [COMMA])
  {
    Punctuation();
    if |parts| > 1 { CommasJoin(parts[1..]); }
  }

  lemma {:induction false} OrderPrecedes(a: Text, b: Text)
    requires CodesLe(a, b) && a != b
    ensures Precedes(a, b)
  {
    if a == [] {
      assert a[..0] == b[..0];
    } else if a[0] < b[0] {
      assert a[..0] == b[..0];
    } else {
      assert a == [a[0]] + a[1..] && b == [b[0]] + b[1..];
      OrderPrecedes(a[1..], b[1..]);
      var k :| 0 <= k <= |a[1..]| && k < |b[1..]| && a[1..][..k] == b[1..][..k] && (k < |a[1..]| ==> a[1..][k] < b[1..][k]);
      assert a[..k + 1] == [a[0]] + a[1..][..k] && b[..k + 1] == [b[0]] + b[1..][..k];
      assert k + 1 < |a| ==> a[k + 1] < b[k + 1];
    }
  }

  lemma KeysAscend(s: set<Text>)
    ensures StrictlyAscending(SortedKeys(s))
  {
    SortedKeysSorted(s);
    var keys := SortedKeys(s);
    forall i, j | 0 <= i < j < |keys| ensures Precedes(keys[i], keys[j]) { OrderPrecedes(keys[i], keys[j]); }
  }

  lemma ListIsText(t: Json)
    requires t.JList? && forall i | 0 <= i < |t.items| :: IsText(Print(t.items[i]), t.items[i])
    ensures IsText(Print(t), t)
  {
    var parts := Parts(t);
    Punctuation();
    CommasJoin(parts);
    assert |parts| == |t.items| && Print(t) == Ascii("[") + Commas(parts) + Ascii("]");
  }

  lemma EntriesArePairs(t: Json, names: seq<Text>, values: seq<Text>)
    requires t.JRecord?
    requires var keys := SortedKeys(t.fields.Keys);
             |names| == |values| == |keys|
             && forall i | 0 <= i < |keys| :: keys[i] in t.fields && names[i] == Quote(keys[i]) && values[i] == Print(t.fields[keys[i]])
    ensures Parts(t) == Pairs(names, values)
  {
    Punctuation();
    var keys := SortedKeys(t.fields.Keys);
    forall i | 0 <= i < |keys| ensures Parts(t)[i] == Pairs(names, values)[i] {
      assert Parts(t)[i] == Entry(keys[i], Print(t.fields[keys[i]]));
    }
  }

  lemma PrintedMembers(t: Json, names: seq<Text>, values: seq<Text>)
    requires t.JRecord? && forall k | k in t.fields :: IsText(Print(t.fields[k]), t.fields[k])
    requires var keys := SortedKeys(t.fields.Keys);
             |names| == |values| == |keys|
             && forall i | 0 <= i < |keys| :: keys[i] in t.fields && names[i] == Quote(keys[i]) && values[i] == Print(t.fields[keys[i]])
    ensures AreMembers(SortedKeys(t.fields.Keys), names, values, t)
  {
    var keys := SortedKeys(t.fields.Keys);
    KeysAscend(t.fields.Keys);
    forall i | 0 <= i < |keys| ensures IsStringOf(names[i], keys[i]) { QuoteIsString(keys[i]); }
  }

  lemma RecordIsText(t: Json)
    requires t.JRecord? && forall k | k in t.fields :: IsText(Print(t.fields[k]), t.fields[k])
    ensures IsText(Print(t), t)
  {
    var keys := SortedKeys(t.fields.Keys);
    assert forall i | 0 <= i < |keys| :: keys[i] in keys;
    var names := seq(|keys|, i requires 0 <= i < |keys| => Quote(keys[i]));
    var values := seq(|keys|, i requires 0 <= i < |keys| => if keys[i] in t.fields then Print(t.fields[keys[i]]) else []);
    PrintedMembers(t, names, values);
    EntriesArePairs(t, names, values);
    Enclose(t, keys, names, values);
  }

  lemma Enclose(t: Json, keys: seq<Text>, names: seq<Text>, values: seq<Text>)
    requires t.JRecord? && AreMembers(keys, names, values, t) && Parts(t) == Pairs(names, values)
    ensures IsText(Print(t), t)
  {
    Punctuation();
    CommasJoin(Parts(t));
    assert Print(t) == Ascii("{") + Commas(Pairs(names, values)) + Ascii("}");
  }

  /** The text of a tree is a JSON text of it. */
  lemma {:induction false} PrintIsText(t: Json)
    ensures IsText(Print(t), t)
    decreases t
  {
    Punctuation();
    match t
    case JNull =>
    case JBoolean(_) =>
    case JNumber(_) =>
    case JChars(chars) => QuoteIsString(chars);
    case JList(items) =>
      forall i | 0 <= i < |items| ensures IsText(Print(items[i]), items[i]) { PrintIsText(items[i]); }
      ListIsText(t);
    case JRecord(fields) =>
      forall k | k in fields ensures IsText(Print(fields[k]), fields[k]) { PrintIsText(fields[k]); }
      RecordIsText(t);
  }

  /** What the serialiser gives is a JSON text of what the value means, with the names of every object in ascending order. */
  lemma CanonicalIsJson(h: Heap, v: Value)
    requires ProperHeap(h) && Canonical(h, v, {}).Ok?
    ensures exists t :: Means(h, v, t) && IsText(Canonical(h, v, {}).value, t)
  {
    SerialisesExactly(h, v);
    var t :| Means(h, v, t);
    PrintIsText(t);
  }
}
