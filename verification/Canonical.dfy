/**
 The key-sorted serialisation a scenario seed is derived from
 (`playground/agents/scenario-seed.ts`), over values that may share objects or
 contain themselves.
 */
module CanonicalForm {
  import opened Graph
  import opened Sorting
  import opened Lists
  import opened Quoting
  import opened JsonGrammar

  // ---- values ----

  predicate IsDecimalUnit(c: Unit) {
    '0' as int <= c <= '9' as int || c == '-' as int || c == '+' as int || c == '.' as int || c == 'e' as int
  }

  predicate IsDecimal(s: Text) {
    IsNumber(s) && forall i | 0 <= i < |s| :: IsDecimalUnit(s[i])
  }

  /** A finite number, known by the decimal text ECMAScript gives it, which is a JSON number. */
  type Decimal = s: Text | IsDecimal(s) witness ['0' as int]

  /** A JavaScript value. Objects live in a heap, so that they can be shared and can be cyclic. */
  datatype Value =
    | Null
    | Boolean(b: bool)
    | Number(text: Decimal)
    | NotFinite
    | Chars(s: Text)
    | Undefined
    | Unserialisable
    | Ref(id: nat)

  datatype Field = Field(key: Text, value: Value)

  datatype Object = List(items: seq<Value>) | Record(fields: seq<Field>)

  type Heap = map<nat, Object>

  /** An object has each key once. */
  ghost predicate OneFieldPerKey(fields: seq<Field>) {
    forall i, j | 0 <= i < j < |fields| :: fields[i].key != fields[j].key
  }

  ghost predicate Proper(o: Object) {
    o.Record? ==> OneFieldPerKey(o.fields)
  }

  ghost predicate ProperHeap(h: Heap) {
    forall id | id in h :: Proper(h[id])
  }

  // ---- the serialiser ----

  datatype SeedError = CannotSerialize | CircularReference

  datatype Result<T> = Ok(value: T) | Err(error: SeedError)

  const COMMA: Unit := 44
  const COLON: Unit := 58
  const OPEN_LIST: Unit := 91
  const CLOSE_LIST: Unit := 93
  const OPEN_RECORD: Unit := 123
  const CLOSE_RECORD: Unit := 125

  const NULL: Text := ['n' as int, 'u' as int, 'l' as int, 'l' as int]
  const TRUE: Text := ['t' as int, 'r' as int, 'u' as int, 'e' as int]
  const FALSE: Text := ['f' as int, 'a' as int, 'l' as int, 's' as int, 'e' as int]

  function Enclosed(before: Unit, parts: seq<Text>, after: Unit): Text {
    [before] + Join(parts, [COMMA]) + [after]
  }

  function Entry(key: Text, text: Text): Text {
    Quote(key) + [COLON] + text
  }

  predicate FieldLe(a: Field, b: Field) { CodesLe(a.key, b.key) }

  predicate IsDefined(f: Field) { !f.value.Undefined? }

  /** The fields that are serialised, in the order of their keys. */
  function Listed(fields: seq<Field>): seq<Field> {
    Sort(Keep(fields, IsDefined), FieldLe)
  }

  /** `path` holds the objects being serialised above this value, so an object met twice on different paths is no cycle. */
  function Canonical(h: Heap, v: Value, path: set<nat>): Result<Text>
    decreases h.Keys - path, 0, 0
  {
    match v
    case Null => Ok(NULL)
    case Boolean(b) => Ok(if b then TRUE else FALSE)
    case Number(text) => Ok(text)
    case NotFinite => Ok(NULL)
    case Chars(s) => Ok(Quote(s))
    case Undefined => Ok(NULL)
    case Unserialisable => Err(CannotSerialize)
    case Ref(id) =>
      if id !in h then Err(CannotSerialize)
      else if id in path then Err(CircularReference)
      else CanonicalObject(h, h[id], path + {id})
  }

  function CanonicalObject(h: Heap, o: Object, path: set<nat>): Result<Text>
    decreases h.Keys - path, 2, 0
  {
    match o
    case List(items) =>
      (match CanonicalItems(h, items, path)
       case Err(e) => Err(e)
       case Ok(parts) => Ok(Enclosed(OPEN_LIST, parts, CLOSE_LIST)))
    case Record(fields) =>
      (match CanonicalFields(h, Listed(fields), path)
       case Err(e) => Err(e)
       case Ok(parts) => Ok(Enclosed(OPEN_RECORD, parts, CLOSE_RECORD)))
  }

  function CanonicalItems(h: Heap, items: seq<Value>, path: set<nat>): Result<seq<Text>>
    decreases h.Keys - path, 1, |items|
  {
    if items == [] then Ok([])
    else
      match Canonical(h, items[0], path)
      case Err(e) => Err(e)
      case Ok(text) =>
        match CanonicalItems(h, items[1..], path)
        case Err(e) => Err(e)
        case Ok(parts) => Ok([text] + parts)
  }

  function CanonicalFields(h: Heap, fields: seq<Field>, path: set<nat>): Result<seq<Text>>
    decreases h.Keys - path, 1, |fields|
  {
    if fields == [] then Ok([])
    else
      match Canonical(h, fields[0].value, path)
      case Err(e) => Err(e)
      case Ok(text) =>
        match CanonicalFields(h, fields[1..], path)
        case Err(e) => Err(e)
        case Ok(parts) => Ok([Entry(fields[0].key, text)] + parts)
  }

  // ---- what a value means, apart from key order and from undefined ----

  /** A finite tree. Its records are maps, so they have no key order. */
  datatype Json =
    | JNull
    | JBoolean(b: bool)
    | JNumber(text: Decimal)
    | JChars(s: Text)
    | JList(items: seq<Json>)
    | JRecord(fields: map<Text, Json>)

  ghost function DefinedKeys(fields: seq<Field>): set<Text> {
    set f | f in fields && IsDefined(f) :: f.key
  }

  /** The value unfolds to the finite tree `t`, with undefined keys left out and undefined or non-finite values read as null. */
  ghost predicate Means(h: Heap, v: Value, t: Json)
    decreases t, 1
  {
    match v
    case Null => t == JNull
    case Boolean(b) => t == JBoolean(b)
    case Number(text) => t == JNumber(text)
    case NotFinite => t == JNull
    case Chars(s) => t == JChars(s)
    case Undefined => t == JNull
    case Unserialisable => false
    case Ref(id) => id in h && MeansObject(h, h[id], t)
  }

  ghost predicate MeansObject(h: Heap, o: Object, t: Json)
    decreases t, 0
  {
    match o
    case List(items) =>
      t.JList? && |t.items| == |items| && forall i | 0 <= i < |items| :: Means(h, items[i], t.items[i])
    case Record(fields) =>
      t.JRecord? && t.fields.Keys == DefinedKeys(fields)
      && forall f | f in fields && IsDefined(f) :: Means(h, f.value, t.fields[f.key])
  }

  // ---- the text of a tree ----

  predicate TextLe(a: Text, b: Text) { CodesLe(a, b) }

  lemma TextOrder(xs: seq<Text>)
    ensures Total(TextLe, xs) && Transitive(TextLe, xs) && Antisymmetric(TextLe, xs)
  {
    forall x, y | x in xs && y in xs ensures TextLe(x, y) || TextLe(y, x) { CodesTotal(x, y); }
    forall x, y, z | x in xs && y in xs && z in xs && TextLe(x, y) && TextLe(y, z) ensures TextLe(x, z) {
      CodesTransitive(x, y, z);
    }
    forall x, y | x in xs && y in xs && TextLe(x, y) && TextLe(y, x) ensures x == y { CodesAntisymmetric(x, y); }
  }

  ghost function SortedKeys(s: set<Text>): (r: seq<Text>)
    ensures Distinct(r) && forall x :: x in r <==> x in s
  {
    SortDistinct(Listing(s), TextLe);
    SortMembers(Listing(s), TextLe);
    Sort(Listing(s), TextLe)
  }

  ghost function Parts(t: Json): (r: seq<Text>)
    requires t.JList? || t.JRecord?
    ensures |r| == if t.JList? then |t.items| else |SortedKeys(t.fields.Keys)|
    decreases t, 0
  {
    match t
    case JList(items) => seq(|items|, i requires 0 <= i < |items| => Print(items[i]))
    case JRecord(fields) =>
      var keys := SortedKeys(fields.Keys);
      seq(|keys|, i requires 0 <= i < |keys| =>
        assert keys[i] in keys;
        Entry(keys[i], Print(fields[keys[i]])))
  }

  ghost function Print(t: Json): Text
    decreases t, 1
  {
    match t
    case JNull => NULL
    case JBoolean(b) => if b then TRUE else FALSE
    case JNumber(text) => text
    case JChars(s) => Quote(s)
    case JList(_) => Enclosed(OPEN_LIST, Parts(t), CLOSE_LIST)
    case JRecord(_) => Enclosed(OPEN_RECORD, Parts(t), CLOSE_RECORD)
  }

  // ---- a tree is read back from its text ----

  function DecimalLength(s: Text): (n: nat)
    ensures n <= |s| && forall i | 0 <= i < n :: IsDecimalUnit(s[i])
  {
    if s == [] || !IsDecimalUnit(s[0]) then 0 else 1 + DecimalLength(s[1..])
  }

  function Read(s: Text): (r: Parse<Json>)
    ensures r.Got? ==> |r.rest| < |s|
    decreases |s|, 0
  {
    if s == [] then Fail
    else if NULL <= s then Got(JNull, s[|NULL|..])
    else if TRUE <= s then Got(JBoolean(true), s[|TRUE|..])
    else if FALSE <= s then Got(JBoolean(false), s[|FALSE|..])
    else if s[0] == QUOTE then
      match ReadChars(s[1..])
      case Fail => Fail
      case Got(chars, rest) => Got(JChars(chars), rest)
    else if s[0] == OPEN_LIST then
      if |s| > 1 && s[1] == CLOSE_LIST then Got(JList([]), s[2..])
      else
        match ReadItems(s[1..])
        case Fail => Fail
        case Got(items, rest) => Got(JList(items), rest)
    else if s[0] == OPEN_RECORD then
      if |s| > 1 && s[1] == CLOSE_RECORD then Got(JRecord(map[]), s[2..])
      else
        match ReadFields(s[1..])
        case Fail => Fail
        case Got(fields, rest) => Got(JRecord(fields), rest)
    else if DecimalLength(s) > 0 && IsDecimal(s[..DecimalLength(s)]) then Got(JNumber(s[..DecimalLength(s)]), s[DecimalLength(s)..])
    else Fail
  }

  function ReadItems(s: Text): (r: Parse<seq<Json>>)
    ensures r.Got? ==> |r.rest| < |s|
    decreases |s|, 1
  {
    match Read(s)
    case Fail => Fail
    case Got(t, rest) =>
      if rest != [] && rest[0] == CLOSE_LIST then Got([t], rest[1..])
      else if rest != [] && rest[0] == COMMA then
        match ReadItems(rest[1..])
        case Fail => Fail
        case Got(ts, left) => Got([t] + ts, left)
      else Fail
  }

  /** A quoted key and its colon. */
  function ReadKey(s: Text): (r: Parse<Text>)
    ensures r.Got? ==> |r.rest| < |s|
  {
    if s == [] || s[0] != QUOTE then Fail
    else
      match ReadChars(s[1..])
      case Fail => Fail
      case Got(key, rest) => if rest != [] && rest[0] == COLON then Got(key, rest[1..]) else Fail
  }

  function ReadFields(s: Text): (r: Parse<map<Text, Json>>)
    ensures r.Got? ==> |r.rest| < |s|
    decreases |s|, 1
  {
    match ReadKey(s)
    case Fail => Fail
    case Got(key, after) =>
      match Read(after)
      case Fail => Fail
      case Got(t, rest) =>
        if rest != [] && rest[0] == CLOSE_RECORD then Got(map[key := t], rest[1..])
        else if rest != [] && rest[0] == COMMA then
          match ReadFields(rest[1..])
          case Fail => Fail
          case Got(fields, left) => Got(map[key := t] + fields, left)
        else Fail
  }

  /** What may follow a value: nothing that would prolong a number. */
  ghost predicate Ends(rest: Text) {
    rest == [] || !IsDecimalUnit(rest[0])
  }

  lemma {:induction false} DecimalReadsBack(n: Text, rest: Text)
    requires forall i | 0 <= i < |n| :: IsDecimalUnit(n[i])
    requires Ends(rest)
    ensures DecimalLength(n + rest) == |n|
  {
    if n == [] {
      assert n + rest == rest;
    } else {
      assert (n + rest)[1..] == n[1..] + rest;
      DecimalReadsBack(n[1..], rest);
    }
  }

  ghost predicate Starts(s: Text) {
    s != [] && s[0] != CLOSE_LIST && s[0] != CLOSE_RECORD && s[0] != COMMA
  }

  lemma PrintStarts(t: Json)
    ensures Starts(Print(t))
  {
    if t.JNumber? { assert IsDecimalUnit(t.text[0]); }
  }

  lemma NumberReadsBack(n: Decimal, rest: Text)
    requires Ends(rest)
    ensures Read(n + rest) == Got(JNumber(n), rest)
  {
    var s := n + rest;
    DecimalReadsBack(n, rest);
    assert IsDecimalUnit(s[0]) by { assert IsDecimalUnit(n[0]); }
    assert s[..|n|] == n && s[|n|..] == rest;
  }

  lemma LiteralReadsBack(t: Json, rest: Text)
    requires t.JNull? || t.JBoolean?
    ensures Read(Print(t) + rest) == Got(t, rest)
  {
    var s := Print(t) + rest;
    assert s[|Print(t)|..] == rest;
    match t
    case JNull => assert NULL <= s;
    case JBoolean(b) =>
      assert s[0] == Print(t)[0] && s[0] != NULL[0];
      if b { assert TRUE <= s; } else { assert s[0] != TRUE[0] && FALSE <= s; }
  }

  lemma CharsReadBack(chars: Text, rest: Text)
    ensures Read(Quote(chars) + rest) == Got(JChars(chars), rest)
  {
    QuoteReadsBack(chars, rest);
    assert (Quote(chars) + rest)[0] == QUOTE;
  }

  /** What follows part `k` in a joined and closed list. */
  ghost function FollowedBy(parts: seq<Text>, k: nat, close: Unit, rest: Text): Text
    requires k < |parts|
  {
    if k + 1 == |parts| then [close] + rest else [COMMA] + (Join(parts[k + 1..], [COMMA]) + [close] + rest)
  }

  lemma JoinFrom(parts: seq<Text>, k: nat, close: Unit, rest: Text)
    requires k < |parts|
    ensures Join(parts[k..], [COMMA]) + [close] + rest == parts[k] + FollowedBy(parts, k, close, rest)
  {
    assert parts[k..][0] == parts[k] && parts[k..][1..] == parts[k + 1..];
  }

  lemma FirstOfRest<T>(items: seq<T>, k: nat)
    requires k < |items|
    ensures items[k..] == [items[k]] + items[k + 1..]
    ensures k + 1 == |items| ==> items[k..] == [items[k]]
  {
  }

  lemma LastItem(s: Text, t: Json, rest: Text)
    requires Read(s) == Got(t, [CLOSE_LIST] + rest)
    ensures ReadItems(s) == Got([t], rest)
  {
    assert ([CLOSE_LIST] + rest)[1..] == rest;
  }

  lemma NextItem(s: Text, t: Json, more: Text, ts: seq<Json>, rest: Text)
    requires Read(s) == Got(t, [COMMA] + more) && ReadItems(more) == Got(ts, rest)
    ensures ReadItems(s) == Got([t] + ts, rest)
  {
    assert ([COMMA] + more)[1..] == more;
  }

  lemma KeyReadsBack(key: Text, text: Text, rest: Text)
    ensures ReadKey(Entry(key, text) + rest) == Got(key, text + rest)
  {
    var s := Entry(key, text) + rest;
    var after := [COLON] + (text + rest);
    Regroup(Quote(key), [COLON], text, rest);
    QuoteReadsBack(key, after);
    assert s[0] == QUOTE && after[1..] == text + rest;
  }

  lemma LastField(s: Text, key: Text, t: Json, text: Text, rest: Text)
    requires ReadKey(s) == Got(key, text) && Read(text) == Got(t, [CLOSE_RECORD] + rest)
    ensures ReadFields(s) == Got(map[key := t], rest)
  {
    assert ([CLOSE_RECORD] + rest)[1..] == rest;
  }

  lemma NextField(s: Text, key: Text, t: Json, text: Text, more: Text, m: map<Text, Json>, rest: Text)
    requires ReadKey(s) == Got(key, text) && Read(text) == Got(t, [COMMA] + more) && ReadFields(more) == Got(m, rest)
    ensures ReadFields(s) == Got(map[key := t] + m, rest)
  {
    assert ([COMMA] + more)[1..] == more;
  }

  lemma ItemsStep(parts: seq<Text>, items: seq<Json>, k: nat, rest: Text)
    requires k < |parts| == |items|
    requires var after := FollowedBy(parts, k, CLOSE_LIST, rest); Read(parts[k] + after) == Got(items[k], after)
    requires k + 1 < |parts| ==> ReadItems(Join(parts[k + 1..], [COMMA]) + [CLOSE_LIST] + rest) == Got(items[k + 1..], rest)
    ensures ReadItems(Join(parts[k..], [COMMA]) + [CLOSE_LIST] + rest) == Got(items[k..], rest)
  {
    JoinFrom(parts, k, CLOSE_LIST, rest);
    FirstOfRest(items, k);
    var s := parts[k] + FollowedBy(parts, k, CLOSE_LIST, rest);
    if k + 1 == |parts| {
      LastItem(s, items[k], rest);
    } else {
      NextItem(s, items[k], Join(parts[k + 1..], [COMMA]) + [CLOSE_LIST] + rest, items[k + 1..], rest);
    }
  }

  lemma ItemsReadBack(t: Json, k: nat, rest: Text)
    requires t.JList? && k < |t.items|
    ensures ReadItems(Join(Parts(t)[k..], [COMMA]) + [CLOSE_LIST] + rest) == Got(t.items[k..], rest)
    decreases t, |t.items| - k
  {
    PrintReadsBack(t.items[k], FollowedBy(Parts(t), k, CLOSE_LIST, rest));
    if k + 1 < |t.items| { ItemsReadBack(t, k + 1, rest); }
    ItemsStep(Parts(t), t.items, k, rest);
  }

  /** The fields of `m` under the given keys. */
  ghost function Under(m: map<Text, Json>, keys: seq<Text>): map<Text, Json>
    requires forall key | key in keys :: key in m
  {
    map key | key in keys :: m[key]
  }

  lemma UnderFirst(m: map<Text, Json>, keys: seq<Text>, k: nat)
    requires k < |keys| && forall key | key in keys :: key in m
    ensures keys[k] in m && Under(m, keys[k..]) == map[keys[k] := m[keys[k]]] + Under(m, keys[k + 1..])
    ensures k + 1 == |keys| ==> Under(m, keys[k..]) == map[keys[k] := m[keys[k]]]
  {
    assert keys[k..] == [keys[k]] + keys[k + 1..];
    assert keys[k] in keys;
  }

  lemma FieldsStep(parts: seq<Text>, keys: seq<Text>, m: map<Text, Json>, text: Text, k: nat, rest: Text)
    requires k < |parts| == |keys| && (forall key | key in keys :: key in m) && keys[k] in keys
    requires var after := FollowedBy(parts, k, CLOSE_RECORD, rest);
             parts[k] == Entry(keys[k], text) && Read(text + after) == Got(m[keys[k]], after)
    requires k + 1 < |parts| ==> ReadFields(Join(parts[k + 1..], [COMMA]) + [CLOSE_RECORD] + rest) == Got(Under(m, keys[k + 1..]), rest)
    ensures ReadFields(Join(parts[k..], [COMMA]) + [CLOSE_RECORD] + rest) == Got(Under(m, keys[k..]), rest)
  {
    var after := FollowedBy(parts, k, CLOSE_RECORD, rest);
    UnderFirst(m, keys, k);
    JoinFrom(parts, k, CLOSE_RECORD, rest);
    KeyReadsBack(keys[k], text, after);
    if k + 1 == |parts| {
      LastField(parts[k] + after, keys[k], m[keys[k]], text + after, rest);
    } else {
      NextField(parts[k] + after, keys[k], m[keys[k]], text + after,
                Join(parts[k + 1..], [COMMA]) + [CLOSE_RECORD] + rest, Under(m, keys[k + 1..]), rest);
    }
  }

  lemma FieldsReadBack(t: Json, k: nat, rest: Text)
    requires t.JRecord? && k < |SortedKeys(t.fields.Keys)|
    ensures ReadFields(Join(Parts(t)[k..], [COMMA]) + [CLOSE_RECORD] + rest) == Got(Under(t.fields, SortedKeys(t.fields.Keys)[k..]), rest)
    decreases t, |SortedKeys(t.fields.Keys)| - k
  {
    var keys := SortedKeys(t.fields.Keys);
    assert keys[k] in keys;
    var u := t.fields[keys[k]];
    PrintReadsBack(u, FollowedBy(Parts(t), k, CLOSE_RECORD, rest));
    if k + 1 < |keys| { FieldsReadBack(t, k + 1, rest); }
    FieldsStep(Parts(t), keys, t.fields, Print(u), k, rest);
  }

  /** How far the reader is from the end of a tree's own parts. */
  ghost function Breadth(t: Json): nat {
    match t
    case JList(items) => |items|
    case JRecord(fields) => |SortedKeys(fields.Keys)|
    case _ => 0
  }

  /** The reader undoes the text of every tree, whatever follows it. */
  lemma {:induction false} PrintReadsBack(t: Json, rest: Text)
    requires Ends(rest)
    ensures Read(Print(t) + rest) == Got(t, rest)
    decreases t, Breadth(t) + 1
  {
    match t
    case JNull => LiteralReadsBack(t, rest);
    case JBoolean(_) => LiteralReadsBack(t, rest);
    case JNumber(n) => NumberReadsBack(n, rest);
    case JChars(s) => CharsReadBack(s, rest);
    case JList(items) =>
      if items != [] { ItemsReadBack(t, 0, rest); }
      ListReadsBack(t, rest);
    case JRecord(fields) =>
      if SortedKeys(fields.Keys) != [] { FieldsReadBack(t, 0, rest); }
      RecordReadsBack(t, rest);
  }

  lemma JoinStarts(parts: seq<Text>)
    requires parts != [] && Starts(parts[0])
    ensures Starts(Join(parts, [COMMA]))
  {
  }

  lemma ListOpens(inner: Text, items: seq<Json>, rest: Text)
    requires if items == [] then inner == [CLOSE_LIST] + rest else Starts(inner) && ReadItems(inner) == Got(items, rest)
    ensures Read([OPEN_LIST] + inner) == Got(JList(items), rest)
  {
    var s := [OPEN_LIST] + inner;
    assert s[0] == OPEN_LIST && s[1] == inner[0] && s[1..] == inner && s[2..] == inner[1..];
    if items == [] { assert inner[1..] == rest; }
  }

  lemma ListReadsBack(t: Json, rest: Text)
    requires t.JList?
    requires t.items != [] ==> ReadItems(Join(Parts(t)[0..], [COMMA]) + [CLOSE_LIST] + rest) == Got(t.items[0..], rest)
    ensures Read(Print(t) + rest) == Got(t, rest)
  {
    var inner := Join(Parts(t), [COMMA]) + [CLOSE_LIST] + rest;
    EnclosedSplits(OPEN_LIST, Parts(t), CLOSE_LIST, rest);
    if t.items == [] {
      assert inner == [CLOSE_LIST] + rest;
    } else {
      assert Parts(t)[0..] == Parts(t) && t.items[0..] == t.items;
      PrintStarts(t.items[0]);
      JoinStarts(Parts(t));
      assert inner[0] == Join(Parts(t), [COMMA])[0];
    }
    ListOpens(inner, t.items, rest);
  }

  lemma RecordOpens(inner: Text, fields: map<Text, Json>, rest: Text)
    requires if fields == map[] then inner == [CLOSE_RECORD] + rest
             else Starts(inner) && ReadFields(inner) == Got(fields, rest)
    ensures Read([OPEN_RECORD] + inner) == Got(JRecord(fields), rest)
  {
    var s := [OPEN_RECORD] + inner;
    assert s[0] == OPEN_RECORD && s[1] == inner[0] && s[1..] == inner && s[2..] == inner[1..];
    if fields == map[] { assert inner[1..] == rest; }
  }

  lemma EnclosedSplits(before: Unit, parts: seq<Text>, after: Unit, rest: Text)
    ensures Enclosed(before, parts, after) + rest == [before] + (Join(parts, [COMMA]) + [after] + rest)
  {
    Regroup([before], Join(parts, [COMMA]), [after], rest);
  }

  lemma RecordReadsBack(t: Json, rest: Text)
    requires t.JRecord?
    requires var keys := SortedKeys(t.fields.Keys);
             keys != [] ==> ReadFields(Join(Parts(t)[0..], [COMMA]) + [CLOSE_RECORD] + rest) == Got(Under(t.fields, keys[0..]), rest)
    ensures Read(Print(t) + rest) == Got(t, rest)
  {
    var keys, parts := SortedKeys(t.fields.Keys), Parts(t);
    var inner := Join(parts, [COMMA]) + [CLOSE_RECORD] + rest;
    EnclosedSplits(OPEN_RECORD, parts, CLOSE_RECORD, rest);
    assert Under(t.fields, keys) == t.fields;
    if keys == [] {
      assert inner == [CLOSE_RECORD] + rest;
      assert t.fields == map[];
    } else {
      assert parts[0..] == parts && keys[0..] == keys;
      assert keys[0] in keys;
      EntryStarts(keys[0], Print(t.fields[keys[0]]));
      JoinStarts(parts);
      assert inner[0] == Join(parts, [COMMA])[0];
    }
    RecordOpens(inner, t.fields, rest);
  }

  lemma EntryStarts(key: Text, text: Text)
    ensures Starts(Entry(key, text))
  {
    assert Entry(key, text)[0] == QUOTE;
  }

  /** No two trees have the same text. */
  lemma PrintIsInjective(t: Json, u: Json)
    ensures Print(t) == Print(u) <==> t == u
  {
    PrintReadsBack(t, []);
    PrintReadsBack(u, []);
    assert Print(t) + [] == Print(t) && Print(u) + [] == Print(u);
  }

  // ---- the serialiser prints the meaning ----

  /** A value has one meaning at most. */
  lemma {:induction false} MeaningIsUnique(h: Heap, v: Value, t: Json, u: Json)
    requires Means(h, v, t) && Means(h, v, u)
    ensures t == u
    decreases t
  {
    if v.Ref? {
      match h[v.id]
      case List(items) =>
        forall i | 0 <= i < |items| ensures t.items[i] == u.items[i] {
          MeaningIsUnique(h, items[i], t.items[i], u.items[i]);
        }
      case Record(fields) =>
        forall key | key in t.fields ensures t.fields[key] == u.fields[key] {
          var f :| f in fields && IsDefined(f) && f.key == key;
          MeaningIsUnique(h, f.value, t.fields[key], u.fields[key]);
        }
        assert t.fields == u.fields;
    }
  }

  ghost function Keys(fields: seq<Field>): (r: seq<Text>)
    ensures |r| == |fields|
  {
    seq(|fields|, i requires 0 <= i < |fields| => fields[i].key)
  }

  lemma FieldOrder(fs: seq<Field>)
    ensures Total(FieldLe, fs) && Transitive(FieldLe, fs)
  {
    forall x, y | x in fs && y in fs ensures FieldLe(x, y) || FieldLe(y, x) { CodesTotal(x.key, y.key); }
    forall x, y, z | x in fs && y in fs && z in fs && FieldLe(x, y) && FieldLe(y, z) ensures FieldLe(x, z) {
      CodesTransitive(x.key, y.key, z.key);
    }
  }

  lemma SortedSetUnique(xs: seq<Text>, ys: seq<Text>)
    requires Distinct(xs) && Distinct(ys) && Sorted(TextLe, xs) && Sorted(TextLe, ys)
    requires forall x :: x in xs <==> x in ys
    ensures xs == ys
  {
    DistinctMultiset(xs);
    DistinctMultiset(ys);
    assert multiset(xs) == multiset(ys);
    TextOrder(xs);
    SortedUnique(xs, ys, TextLe);
  }

  lemma SortedKeysSorted(s: set<Text>)
    ensures Sorted(TextLe, SortedKeys(s))
  {
    TextOrder(Listing(s));
    SortSorted(Listing(s), TextLe);
  }

  lemma ListedMembers(fields: seq<Field>)
    requires OneFieldPerKey(fields)
    ensures forall f :: f in Listed(fields) <==> f in fields && IsDefined(f)
    ensures Distinct(Keys(Listed(fields))) && Sorted(TextLe, Keys(Listed(fields)))
  {
    var fs := Keep(fields, IsDefined);
    var ls := Listed(fields);
    KeepDistinct(fields, IsDefined);
    SortDistinct(fs, FieldLe);
    SortMembers(fs, FieldLe);
    FieldOrder(fs);
    SortSorted(fs, FieldLe);
    forall i, j | 0 <= i < j < |ls| ensures Keys(ls)[i] != Keys(ls)[j] {
      assert ls[i] in ls && ls[j] in ls && ls[i] != ls[j];
    }
    forall i, j | 0 <= i < j < |ls| ensures TextLe(Keys(ls)[i], Keys(ls)[j]) {
      assert FieldLe(ls[i], ls[j]);
    }
  }

  /** Filtering and sorting an object's fields lists its defined keys in order, however the object lists them. */
  lemma ListedKeys(fields: seq<Field>)
    requires OneFieldPerKey(fields)
    ensures Keys(Listed(fields)) == SortedKeys(DefinedKeys(fields))
  {
    var ls := Listed(fields);
    ListedMembers(fields);
    SortedKeysSorted(DefinedKeys(fields));
    forall x ensures x in Keys(ls) <==> x in DefinedKeys(fields) {
      if x in Keys(ls) {
        var i :| 0 <= i < |ls| && Keys(ls)[i] == x;
        assert ls[i] in ls;
      }
      if x in DefinedKeys(fields) {
        var f :| f in fields && IsDefined(f) && f.key == x;
        assert f in ls;
        var i :| 0 <= i < |ls| && ls[i] == f;
        assert Keys(ls)[i] == x;
      }
    }
    SortedSetUnique(Keys(ls), SortedKeys(DefinedKeys(fields)));
  }

  /** What is serialised has a meaning, and the text is that meaning's. */
  lemma MeaningOf(h: Heap, v: Value, path: set<nat>) returns (t: Json)
    requires ProperHeap(h) && Canonical(h, v, path).Ok?
    ensures Means(h, v, t) && Canonical(h, v, path).value == Print(t)
    decreases h.Keys - path, 0, 0
  {
    match v
    case Null => t := JNull;
    case Boolean(b) => t := JBoolean(b);
    case Number(text) => t := JNumber(text);
    case NotFinite => t := JNull;
    case Chars(s) => t := JChars(s);
    case Undefined => t := JNull;
    case Ref(id) => t := MeaningOfObject(h, h[id], path + {id});
  }

  lemma MeaningOfObject(h: Heap, o: Object, path: set<nat>) returns (t: Json)
    requires ProperHeap(h) && Proper(o) && CanonicalObject(h, o, path).Ok?
    ensures MeansObject(h, o, t) && CanonicalObject(h, o, path).value == Print(t)
    decreases h.Keys - path, 2, 0
  {
    match o
    case List(items) =>
      var ts := MeaningOfItems(h, items, path);
      t := JList(ts);
      assert Parts(t) == CanonicalItems(h, items, path).value;
    case Record(fields) =>
      var ts := MeaningOfFields(h, Listed(fields), path);
      t := RecordMeaning(h, fields, ts, CanonicalFields(h, Listed(fields), path).value);
  }

  lemma MeaningOfItems(h: Heap, items: seq<Value>, path: set<nat>) returns (ts: seq<Json>)
    requires ProperHeap(h) && CanonicalItems(h, items, path).Ok?
    ensures var parts := CanonicalItems(h, items, path).value;
            |ts| == |items| == |parts| && forall i | 0 <= i < |ts| :: Means(h, items[i], ts[i]) && parts[i] == Print(ts[i])
    decreases h.Keys - path, 1, |items|
  {
    if items == [] {
      ts := [];
    } else {
      var first := MeaningOf(h, items[0], path);
      var others := MeaningOfItems(h, items[1..], path);
      ts := [first] + others;
    }
  }

  lemma MeaningOfFields(h: Heap, fs: seq<Field>, path: set<nat>) returns (ts: seq<Json>)
    requires ProperHeap(h) && CanonicalFields(h, fs, path).Ok?
    ensures var parts := CanonicalFields(h, fs, path).value;
            |ts| == |fs| == |parts|
            && forall i | 0 <= i < |ts| :: Means(h, fs[i].value, ts[i]) && parts[i] == Entry(fs[i].key, Print(ts[i]))
    decreases h.Keys - path, 1, |fs|
  {
    if fs == [] {
      ts := [];
    } else {
      var first := MeaningOf(h, fs[0].value, path);
      var others := MeaningOfFields(h, fs[1..], path);
      ts := [first] + others;
    }
  }

  /** The values under their keys. */
  ghost function Paired(keys: seq<Text>, ts: seq<Json>): (m: map<Text, Json>)
    requires |keys| == |ts| && Distinct(keys)
    ensures m.Keys == (set k | k in keys) && forall i | 0 <= i < |keys| :: keys[i] in m && m[keys[i]] == ts[i]
  {
    if keys == [] then map[]
    else
      var n := |keys| - 1;
      var m := Paired(keys[..n], ts[..n]);
      assert keys == keys[..n] + [keys[n]];
      m[keys[n] := ts[n]]
  }

  lemma RecordMeaning(h: Heap, fields: seq<Field>, ts: seq<Json>, parts: seq<Text>) returns (t: Json)
    requires OneFieldPerKey(fields)
    requires var fs := Listed(fields);
             |ts| == |fs| == |parts|
             && forall i | 0 <= i < |ts| :: Means(h, fs[i].value, ts[i]) && parts[i] == Entry(fs[i].key, Print(ts[i]))
    ensures MeansObject(h, Record(fields), t) && Print(t) == Enclosed(OPEN_RECORD, parts, CLOSE_RECORD)
  {
    var fs := Listed(fields);
    ListedMembers(fields);
    ListedKeys(fields);
    var m := Paired(Keys(fs), ts);
    t := JRecord(m);
    forall i | 0 <= i < |fs| ensures fs[i].key in m && m[fs[i].key] == ts[i] {
      assert Keys(fs)[i] == fs[i].key;
    }
    PairedMeans(h, fields, fs, ts, m);
    PairedPrints(SortedKeys(m.Keys), ts, parts, m);
  }

  lemma PairedMeans(h: Heap, fields: seq<Field>, fs: seq<Field>, ts: seq<Json>, m: map<Text, Json>)
    requires |fs| == |ts| && m.Keys == DefinedKeys(fields)
    requires forall f :: f in fs <==> f in fields && IsDefined(f)
    requires forall i | 0 <= i < |fs| :: fs[i].key in m && m[fs[i].key] == ts[i] && Means(h, fs[i].value, ts[i])
    ensures MeansObject(h, Record(fields), JRecord(m))
  {
    forall f | f in fields && IsDefined(f) ensures Means(h, f.value, m[f.key]) {
      assert f in fs;
      var i :| 0 <= i < |fs| && fs[i] == f;
      assert fs[i].key in m && m[fs[i].key] == ts[i];
    }
  }

  lemma PairedPrints(keys: seq<Text>, ts: seq<Json>, parts: seq<Text>, m: map<Text, Json>)
    requires |keys| == |ts| == |parts| && keys == SortedKeys(m.Keys)
    requires forall i | 0 <= i < |keys| :: keys[i] in m && m[keys[i]] == ts[i] && parts[i] == Entry(keys[i], Print(ts[i]))
    ensures Print(JRecord(m)) == Enclosed(OPEN_RECORD, parts, CLOSE_RECORD)
  {
    assert Parts(JRecord(m)) == parts;
  }

  // ---- what has a meaning is serialised ----

  lemma {:induction false} JoinIsLonger(parts: seq<Text>, i: nat)
    requires i < |parts|
    ensures |parts[i]| <= |Join(parts, [COMMA])|
  {
    if i > 0 { JoinIsLonger(parts[1..], i - 1); }
  }

  lemma PartIsShorter(t: Json, i: nat)
    requires (t.JList? || t.JRecord?) && i < |Parts(t)|
    ensures |Parts(t)[i]| < |Print(t)|
  {
    JoinIsLonger(Parts(t), i);
  }

  lemma FieldIsShorter(t: Json, key: Text)
    requires t.JRecord? && key in t.fields
    ensures |Print(t.fields[key])| < |Print(t)|
  {
    var keys := SortedKeys(t.fields.Keys);
    assert key in keys;
    var i :| 0 <= i < |keys| && keys[i] == key;
    PartIsShorter(t, i);
  }

  lemma {:induction false} ItemsSerialise(h: Heap, items: seq<Value>, path: set<nat>)
    requires forall i | 0 <= i < |items| :: Canonical(h, items[i], path).Ok?
    ensures CanonicalItems(h, items, path).Ok?
  {
    if items != [] { ItemsSerialise(h, items[1..], path); }
  }

  lemma {:induction false} FieldsSerialise(h: Heap, fs: seq<Field>, path: set<nat>)
    requires forall f | f in fs :: Canonical(h, f.value, path).Ok?
    ensures CanonicalFields(h, fs, path).Ok?
  {
    if fs != [] {
      assert fs[0] in fs;
      assert forall f | f in fs[1..] :: f in fs;
      FieldsSerialise(h, fs[1..], path);
    }
  }

  /** The objects above a value mean larger trees than the value does. */
  ghost predicate Above(h: Heap, path: set<nat>, size: nat) {
    forall p, u | p in path && Means(h, Ref(p), u) :: |Print(u)| > size
  }

  lemma AboveGrows(h: Heap, path: set<nat>, id: nat, t: Json, size: nat)
    requires Above(h, path, |Print(t)|) && Means(h, Ref(id), t) && size < |Print(t)|
    ensures Above(h, path + {id}, size)
  {
    forall p, u | p in path + {id} && Means(h, Ref(p), u) ensures |Print(u)| > size {
      if p !in path { MeaningIsUnique(h, Ref(id), t, u); }
    }
  }

  lemma {:induction false} MeaningSerialises(h: Heap, v: Value, path: set<nat>, t: Json)
    requires ProperHeap(h) && Means(h, v, t) && Above(h, path, |Print(t)|)
    ensures Canonical(h, v, path).Ok?
    decreases t
  {
    if v.Ref? {
      assert v.id !in path;
      match h[v.id]
      case List(items) =>
        forall i | 0 <= i < |items| ensures Canonical(h, items[i], path + {v.id}).Ok? {
          PartIsShorter(t, i);
          AboveGrows(h, path, v.id, t, |Print(t.items[i])|);
          MeaningSerialises(h, items[i], path + {v.id}, t.items[i]);
        }
        ItemsSerialise(h, items, path + {v.id});
      case Record(fields) =>
        ListedMembers(fields);
        forall f | f in Listed(fields) ensures Canonical(h, f.value, path + {v.id}).Ok? {
          FieldIsShorter(t, f.key);
          AboveGrows(h, path, v.id, t, |Print(t.fields[f.key])|);
          MeaningSerialises(h, f.value, path + {v.id}, t.fields[f.key]);
        }
        FieldsSerialise(h, Listed(fields), path + {v.id});
    }
  }

  // ---- main results ----

  ghost predicate HasMeaning(h: Heap, v: Value) {
    exists t :: Means(h, v, t)
  }

  /** Equal up to key order, undefined keys, sharing, and null for what JSON cannot hold. */
  ghost predicate SameMeaning(h: Heap, v: Value, h': Heap, v': Value) {
    exists t :: Means(h, v, t) && Means(h', v', t)
  }

  /**
   The serialiser accepts exactly the values that unfold to a finite tree: it fails on
   every cycle and every unsupported value it meets, and never on a value that merely
   shares objects.
   */
  lemma SerialisesExactly(h: Heap, v: Value)
    requires ProperHeap(h)
    ensures Canonical(h, v, {}).Ok? <==> HasMeaning(h, v)
    ensures forall t | Means(h, v, t) :: Canonical(h, v, {}) == Ok(Print(t))
  {
    if Canonical(h, v, {}).Ok? {
      var t := MeaningOf(h, v, {});
      assert Means(h, v, t);
    }
    forall t | Means(h, v, t) ensures Canonical(h, v, {}) == Ok(Print(t)) {
      MeaningSerialises(h, v, {}, t);
      var u := MeaningOf(h, v, {});
      MeaningIsUnique(h, v, t, u);
    }
  }

  /**
   The canonical form is unambiguous: two serialisable values, wherever they live, have
   the same text exactly when they mean the same tree, and the reader recovers that tree.
   */
  lemma CanonicalIsUnambiguous(h: Heap, v: Value, h': Heap, v': Value)
    requires ProperHeap(h) && ProperHeap(h')
    requires Canonical(h, v, {}).Ok? && Canonical(h', v', {}).Ok?
    ensures Canonical(h, v, {}) == Canonical(h', v', {}) <==> SameMeaning(h, v, h', v')
    ensures Read(Canonical(h, v, {}).value).Got? && Means(h, v, Read(Canonical(h, v, {}).value).value)
  {
    SerialisesExactly(h, v);
    SerialisesExactly(h', v');
    var t := MeaningOf(h, v, {});
    var t' := MeaningOf(h', v', {});
    PrintIsInjective(t, t');
    PrintReadsBack(t, []);
    assert Print(t) + [] == Print(t);
    assert Means(h, v, t) && Means(h', v', t');
  }

  // ---- exactly what makes the serialiser fail ----

  /** The object `v` refers to holds `w` as an item, or under a key that is serialised. */
  ghost predicate Holds(h: Heap, v: Value, w: Value) {
    v.Ref? && v.id in h
    && match h[v.id]
       case List(items) => w in items
       case Record(fields) => exists f :: f in fields && IsDefined(f) && f.value == w
  }

  /** A walk from a value into what it holds. */
  ghost predicate Trail(h: Heap, trail: seq<Value>) {
    trail != [] && forall i | 0 < i < |trail| :: Holds(h, trail[i - 1], trail[i])
  }

  /** A function, a symbol or a big integer (or a reference to no object, which JavaScript does not have). */
  ghost predicate Foreign(h: Heap, v: Value) {
    v.Unserialisable? || (v.Ref? && v.id !in h)
  }

  /** The walk ends at an object it has already passed. */
  ghost predicate ComesBack(trail: seq<Value>) {
    trail != [] && exists i | 0 <= i < |trail| - 1 :: trail[i] == trail[|trail| - 1]
  }

  ghost predicate Fault(h: Heap, trail: seq<Value>, e: SeedError) {
    Trail(h, trail)
    && if e == CircularReference then ComesBack(trail) else Foreign(h, trail[|trail| - 1])
  }

  ghost predicate Faulty(h: Heap, v: Value, e: SeedError) {
    exists trail :: Fault(h, trail, e) && trail[0] == v
  }

  lemma {:induction false} FailingItem(h: Heap, items: seq<Value>, path: set<nat>) returns (w: Value)
    requires CanonicalItems(h, items, path).Err?
    ensures w in items && Canonical(h, w, path) == Err(CanonicalItems(h, items, path).error)
  {
    if Canonical(h, items[0], path).Err? {
      w := items[0];
    } else {
      w := FailingItem(h, items[1..], path);
    }
  }

  lemma {:induction false} FailingField(h: Heap, fs: seq<Field>, path: set<nat>) returns (f: Field)
    requires CanonicalFields(h, fs, path).Err?
    ensures f in fs && Canonical(h, f.value, path) == Err(CanonicalFields(h, fs, path).error)
  {
    if Canonical(h, fs[0].value, path).Err? {
      f := fs[0];
    } else {
      f := FailingField(h, fs[1..], path);
    }
  }

  lemma FailingPart(h: Heap, v: Value, path: set<nat>) returns (w: Value)
    requires v.Ref? && v.id in h && CanonicalObject(h, h[v.id], path).Err?
    ensures Holds(h, v, w) && Canonical(h, w, path) == Err(CanonicalObject(h, h[v.id], path).error)
  {
    match h[v.id]
    case List(items) => w := FailingItem(h, items, path);
    case Record(fields) =>
      var f := FailingField(h, Listed(fields), path);
      SortMembers(Keep(fields, IsDefined), FieldLe);
      assert f in fields && IsDefined(f);
      w := f.value;
  }

  /** `path` holds exactly the objects passed before the end of the walk. */
  ghost predicate Passed(trail: seq<Value>, path: set<nat>) {
    forall id :: id in path <==> exists i | 0 <= i < |trail| - 1 :: trail[i] == Ref(id)
  }

  lemma PassedGrows(trail: seq<Value>, path: set<nat>, w: Value)
    requires trail != [] && Passed(trail, path) && trail[|trail| - 1].Ref?
    ensures Passed(trail + [w], path + {trail[|trail| - 1].id})
  {
    var longer, id := trail + [w], trail[|trail| - 1].id;
    forall x ensures x in path + {id} <==> exists i | 0 <= i < |longer| - 1 :: longer[i] == Ref(x) {
      if x in path {
        var i :| 0 <= i < |trail| - 1 && trail[i] == Ref(x);
        assert longer[i] == Ref(x);
      }
      assert longer[|trail| - 1] == Ref(id);
    }
  }

  /** A failure shows the walk that led to it. */
  lemma FailureHasFault(h: Heap, trail: seq<Value>, path: set<nat>)
    requires Trail(h, trail) && Passed(trail, path)
    requires Canonical(h, trail[|trail| - 1], path).Err?
    ensures Faulty(h, trail[0], Canonical(h, trail[|trail| - 1], path).error)
    decreases h.Keys - path
  {
    var v := trail[|trail| - 1];
    var e := Canonical(h, v, path).error;
    if v.Ref? && v.id in h && v.id !in path {
      var w := FailingPart(h, v, path + {v.id});
      PassedGrows(trail, path, w);
      FailureHasFault(h, trail + [w], path + {v.id});
    } else {
      assert Fault(h, trail, e);
    }
  }

  lemma PartMeans(h: Heap, v: Value, w: Value, t: Json) returns (u: Json)
    requires Means(h, v, t) && Holds(h, v, w)
    ensures Means(h, w, u) && |Print(u)| < |Print(t)|
  {
    match h[v.id]
    case List(items) =>
      var i :| 0 <= i < |items| && items[i] == w;
      u := t.items[i];
      PartIsShorter(t, i);
    case Record(fields) =>
      var f :| f in fields && IsDefined(f) && f.value == w;
      u := t.fields[f.key];
      FieldIsShorter(t, f.key);
  }

  lemma {:induction false} TrailMeans(h: Heap, trail: seq<Value>, t: Json, k: nat) returns (u: Json)
    requires Trail(h, trail) && Means(h, trail[0], t) && k < |trail|
    ensures Means(h, trail[k], u) && (if k == 0 then u == t else |Print(u)| < |Print(t)|)
    decreases k
  {
    if k == 0 {
      u := t;
    } else {
      var s := TrailMeans(h, trail, t, k - 1);
      u := PartMeans(h, trail[k - 1], trail[k], s);
    }
  }

  lemma CycleHasNoMeaning(h: Heap, trail: seq<Value>, t: Json)
    requires Trail(h, trail) && |trail| > 1 && trail[0] == trail[|trail| - 1]
    ensures !Means(h, trail[0], t)
  {
    if Means(h, trail[0], t) {
      var u := TrailMeans(h, trail, t, |trail| - 1);
      MeaningIsUnique(h, trail[0], t, u);
    }
  }

  lemma TrailEnd(h: Heap, trail: seq<Value>, i: nat)
    requires Trail(h, trail) && i < |trail|
    ensures Trail(h, trail[i..]) && trail[i..][0] == trail[i] && trail[i..][|trail| - i - 1] == trail[|trail| - 1]
  {
    var end := trail[i..];
    forall k | 0 < k < |end| ensures Holds(h, end[k - 1], end[k]) {
      assert end[k - 1] == trail[i + k - 1] && end[k] == trail[i + k];
      assert Holds(h, trail[i + k - 1], trail[i + k]);
    }
  }

  lemma FaultHasNoMeaning(h: Heap, trail: seq<Value>, e: SeedError, t: Json)
    requires Fault(h, trail, e)
    ensures !Means(h, trail[0], t)
  {
    if Means(h, trail[0], t) {
      var n := |trail| - 1;
      if e == CircularReference {
        var i :| 0 <= i < n && trail[i] == trail[n];
        var s := TrailMeans(h, trail, t, i);
        TrailEnd(h, trail, i);
        CycleHasNoMeaning(h, trail[i..], s);
      } else {
        var u := TrailMeans(h, trail, t, n);
      }
    }
  }

  /**
   The serialiser fails exactly when a walk through the value comes back to an object it
   has passed or ends at a value of an unsupported type, and the error it names is one
   the value has. A shared object that is not on a cycle is no fault.
   */
  lemma FailsExactly(h: Heap, v: Value)
    requires ProperHeap(h)
    ensures Canonical(h, v, {}).Err? <==> Faulty(h, v, CircularReference) || Faulty(h, v, CannotSerialize)
    ensures Canonical(h, v, {}).Err? ==> Faulty(h, v, Canonical(h, v, {}).error)
  {
    if Canonical(h, v, {}).Err? {
      assert Passed([v], {});
      FailureHasFault(h, [v], {});
    } else {
      var t := MeaningOf(h, v, {});
      forall e, trail | Fault(h, trail, e) && trail[0] == v ensures !Means(h, v, t) {
        FaultHasNoMeaning(h, trail, e, t);
      }
    }
  }
}
