/** The canonical JSON text of a value: keys normalised, sorted by UTF-16 code units, safe integers only.  Unicode
    normalisation is a parameter.  Every rejection is the source's `TypeError`. */
module CanonicalJson {
  import opened Wrappers

  datatype Result<T> = Ok(value: T) | TypeError {
    predicate IsFailure() { TypeError? }
    function PropagateFailure<U>(): Result<U> requires IsFailure() { TypeError }
    function Extract(): T requires Ok? { value }
  }

  /** A UTF-16 code unit. */
  type Unit = u: int | 0 <= u < 0x10000

  datatype Text = Nil | Cons(unit: Unit, rest: Text)

  /** `Inexact` is any number that is not an integer: a fraction, a NaN, an infinity. */
  datatype Numeral = Integer(n: int) | MinusZero | Inexact

  /** `Unsupported` is a function, a symbol or a big integer. */
  datatype Value =
    | Null
    | Undefined
    | Unsupported
    | Bool(b: bool)
    | Number(num: Numeral)
    | Str(s: Text)
    | Arr(items: Items)
    | Obj(entries: Entries)

  datatype Items = NoItems | Item(head: Value, tail: Items)

  /** The own enumerable properties of an object, in their order. */
  datatype Entries = NoEntries | Entry(key: Text, child: Value, more: Entries)

  type Nfc = Text -> Text

  // ---- text ----

  const QUOTE: Unit := 34
  const COMMA: Unit := 44
  const MINUS: Unit := 45
  const ZERO: Unit := 48
  const COLON: Unit := 58
  const OPEN_LIST: Unit := 91
  const BACKSLASH: Unit := 92
  const CLOSE_LIST: Unit := 93
  const LETTER_U: Unit := 117
  const OPEN_OBJECT: Unit := 123
  const CLOSE_OBJECT: Unit := 125

  /** ASCII characters only. */
  function Word(s: string, rest: Text): Text {
    if s == "" then rest else Cons(s[0] as int % 0x10000, Word(s[1..], rest))
  }

  function Join(a: Text, b: Text): Text {
    match a
    case Nil => b
    case Cons(u, rest) => Cons(u, Join(rest, b))
  }

  function Length(t: Text): nat {
    if t.Nil? then 0 else 1 + Length(t.rest)
  }

  /** The order of the source's default sort. */
  predicate Less(a: Text, b: Text) {
    match b
    case Nil => false
    case Cons(v, b') => a.Nil? || a.unit < v || (a.unit == v && Less(a.rest, b'))
  }

  /** The names every object inherits: reading one of them never gives `undefined`. */
  const INHERITED: seq<string> := [
    "constructor", "__defineGetter__", "__defineSetter__", "hasOwnProperty", "__lookupGetter__", "__lookupSetter__",
    "isPrototypeOf", "propertyIsEnumerable", "toString", "valueOf", "__proto__", "toLocaleString"
  ]

  predicate AmongNames(names: seq<string>, key: Text) {
    names != [] && (key == Word(names[0], Nil) || AmongNames(names[1..], key))
  }

  predicate Inherited(key: Text) {
    AmongNames(INHERITED, key)
  }

  // ---- normalising ----

  function Get(es: Entries, key: Text): Option<Value> {
    match es
    case NoEntries => None
    case Entry(k, c, more) => if k == key then Some(c) else Get(more, key)
  }

  /** Assignment to a property, on entries kept in key order. */
  function Put(es: Entries, key: Text, child: Value): Entries {
    match es
    case NoEntries => Entry(key, child, NoEntries)
    case Entry(k, c, more) =>
      if k == key then Entry(key, child, more)
      else if Less(key, k) then Entry(key, child, es)
      else Entry(k, c, Put(more, key, child))
  }

  /** The property reads as something else than `undefined`. */
  predicate Taken(es: Entries, key: Text) {
    Inherited(key) || (Get(es, key).Some? && Get(es, key).value != Undefined)
  }

  function Fill(nfc: Nfc, es: Entries, normalized: Entries): Result<Entries> {
    match es
    case NoEntries => Ok(normalized)
    case Entry(k, c, more) =>
      if Taken(normalized, nfc(k)) then TypeError else Fill(nfc, more, Put(normalized, nfc(k), c))
  }

  ghost function Weight(v: Value): (w: nat)
    ensures w > 0
  {
    match v
    case Arr(items) => 1 + WeightItems(items)
    case Obj(es) => 1 + WeightEntries(es)
    case _ => 1
  }

  ghost function WeightItems(items: Items): nat {
    if items.NoItems? then 0 else Weight(items.head) + WeightItems(items.tail)
  }

  ghost function WeightEntries(es: Entries): nat {
    if es.NoEntries? then 0 else Weight(es.child) + WeightEntries(es.more)
  }

  lemma FillWeight(nfc: Nfc, es: Entries, normalized: Entries)
    requires Fill(nfc, es, normalized).Ok?
    ensures WeightEntries(Fill(nfc, es, normalized).value) <= WeightEntries(es) + WeightEntries(normalized)
  {
    if es.Entry? {
      PutWeight(normalized, nfc(es.key), es.child);
      FillWeight(nfc, es.more, Put(normalized, nfc(es.key), es.child));
    }
  }

  lemma PutWeight(es: Entries, key: Text, child: Value)
    ensures WeightEntries(Put(es, key, child)) <= WeightEntries(es) + Weight(child)
  {
  }

  /** What the source's `normalized` holds when its loop ends, in key order. */
  function Collect(nfc: Nfc, es: Entries): (r: Result<Entries>)
    ensures r.Ok? ==> WeightEntries(r.value) <= WeightEntries(es)
  {
    var r := Fill(nfc, es, NoEntries);
    assert r.Ok? ==> WeightEntries(r.value) <= WeightEntries(es) by { if r.Ok? { FillWeight(nfc, es, NoEntries); } }
    r
  }

  const MAX_SAFE := 9007199254740991

  predicate Safe(n: Numeral) {
    n.Integer? && -MAX_SAFE <= n.n <= MAX_SAFE
  }

  /** The value that the canonical text spells out: strings and keys normalised, entries in key order. */
  function Norm(nfc: Nfc, v: Value): Result<Value>
    decreases Weight(v), 0
  {
    match v
    case Arr(items) => var n :- NormItems(nfc, items); Ok(Arr(n))
    case Obj(es) =>
      var normalized :- Collect(nfc, es);
      var n :- NormEntries(nfc, normalized);
      Ok(Obj(n))
    case Str(s) => Ok(Str(nfc(s)))
    case Number(num) => if Safe(num) then Ok(v) else TypeError
    case Null | Bool(_) => Ok(v)
    case Undefined | Unsupported => TypeError
  }

  function NormItems(nfc: Nfc, items: Items): Result<Items>
    decreases WeightItems(items), 1, items
  {
    match items
    case NoItems => Ok(NoItems)
    case Item(head, tail) =>
      var h :- Norm(nfc, head);
      var t :- NormItems(nfc, tail);
      Ok(Item(h, t))
  }

  function NormEntries(nfc: Nfc, es: Entries): Result<Entries>
    decreases WeightEntries(es), 1, es
  {
    match es
    case NoEntries => Ok(NoEntries)
    case Entry(k, c, more) =>
      var n :- Norm(nfc, c);
      var m :- NormEntries(nfc, more);
      Ok(Entry(k, n, m))
  }

  // ---- writing ----

  predicate High(u: Unit) { 0xd800 <= u < 0xdc00 }

  predicate Low(u: Unit) { 0xdc00 <= u < 0xe000 }

  /** The letter of a two-character escape; zero when there is none. */
  function Short(u: Unit): Unit {
    if u == QUOTE || u == BACKSLASH then u
    else if u == 8 then 98 else if u == 12 then 102 else if u == 10 then 110 else if u == 13 then 114
    else if u == 9 then 116 else 0
  }

  function Hex(d: int): Unit
    requires 0 <= d < 16
  {
    if d < 10 then 48 + d else 87 + d
  }

  function EscapeUnit(u: Unit, rest: Text): Text {
    if Short(u) != 0 then Cons(BACKSLASH, Cons(Short(u), rest))
    else if u < 0x20 || High(u) || Low(u) then
      Cons(BACKSLASH, Cons(LETTER_U,
          Cons(Hex(u / 4096), Cons(Hex(u / 256 % 16), Cons(Hex(u / 16 % 16), Cons(Hex(u % 16), rest))))))
    else Cons(u, rest)
  }

  /** Paired surrogates are written as they are, lone ones escaped. */
  function Escape(s: Text, rest: Text): Text {
    match s
    case Nil => rest
    case Cons(u, s') =>
      if High(u) && s'.Cons? && Low(s'.unit) then Cons(u, Cons(s'.unit, Escape(s'.rest, rest)))
      else EscapeUnit(u, Escape(s', rest))
  }

  function Quote(s: Text, rest: Text): Text {
    Cons(QUOTE, Escape(s, Cons(QUOTE, rest)))
  }

  function Digits(n: nat, rest: Text): Text {
    if n < 10 then Cons(ZERO + n, rest) else Digits(n / 10, Cons(ZERO + n % 10, rest))
  }

  function Decimal(n: int, rest: Text): Text {
    if n < 0 then Cons(MINUS, Digits(-n, rest)) else Digits(n, rest)
  }

  /** The text of a normal value, followed by `rest`. */
  function Emit(v: Value, rest: Text): Text {
    match v
    case Null => Word("null", rest)
    case Bool(b) => if b then Word("true", rest) else Word("false", rest)
    case Number(num) => if num.Integer? then Decimal(num.n, rest) else rest
    case Str(s) => Quote(s, rest)
    case Arr(items) => Cons(OPEN_LIST, EmitItems(items, Cons(CLOSE_LIST, rest)))
    case Obj(es) => Cons(OPEN_OBJECT, EmitEntries(es, Cons(CLOSE_OBJECT, rest)))
    case Undefined | Unsupported => rest
  }

  function EmitItems(items: Items, rest: Text): Text {
    match items
    case NoItems => rest
    case Item(head, tail) => Emit(head, if tail.NoItems? then rest else Cons(COMMA, EmitItems(tail, rest)))
  }

  function EmitEntries(es: Entries, rest: Text): Text {
    match es
    case NoEntries => rest
    case Entry(k, c, more) =>
      Quote(k, Cons(COLON, Emit(c, if more.NoEntries? then rest else Cons(COMMA, EmitEntries(more, rest)))))
  }

  function CanonicalText(nfc: Nfc, v: Value): Result<Text> {
    var n :- Norm(nfc, v);
    Ok(Emit(n, Nil))
  }

  // ---- reading back: `JSON.parse`, for texts without white space and numbers without fraction or exponent ----

  datatype Parsed<T> = Read(value: T, rest: Text) | SyntaxError

  predicate Digit(u: Unit) { ZERO <= u <= ZERO + 9 }

  function HexValue(u: Unit): int {
    if Digit(u) then u - 48 else if 97 <= u <= 102 then u - 87 else if 65 <= u <= 70 then u - 55 else -1
  }

  function Unshort(u: Unit): int {
    if u == QUOTE || u == BACKSLASH || u == 47 then u
    else if u == 98 then 8 else if u == 102 then 12 else if u == 110 then 10 else if u == 114 then 13
    else if u == 116 then 9 else -1
  }

  /** The unit an escape stands for, the backslash being read. */
  function ReadEscape(t: Text): (p: Parsed<Unit>)
    ensures p.Read? ==> Length(p.rest) < Length(t)
  {
    if t.Nil? then SyntaxError
    else if Unshort(t.unit) >= 0 then Read(Unshort(t.unit), t.rest)
    else if t.unit != LETTER_U then SyntaxError
    else
      var h := ReadHex(t.rest, 4, 0);
      if h.SyntaxError? then SyntaxError else Read(h.value % 0x10000, h.rest)
  }

  /** `digits` hexadecimal digits, after what was read so far. */
  function ReadHex(t: Text, digits: nat, n: nat): (p: Parsed<nat>)
    ensures p.Read? ==> Length(p.rest) <= Length(t)
  {
    if digits == 0 then Read(n, t)
    else if t.Nil? || HexValue(t.unit) < 0 then SyntaxError
    else ReadHex(t.rest, digits - 1, 16 * n + HexValue(t.unit))
  }

  /** The rest of a string, its opening quote being read. */
  function ReadString(t: Text): (p: Parsed<Text>)
    ensures p.Read? ==> Length(p.rest) < Length(t)
    decreases Length(t)
  {
    if t.Nil? || t.unit < 0x20 then SyntaxError
    else if t.unit == QUOTE then Read(Nil, t.rest)
    else
      var u := if t.unit == BACKSLASH then ReadEscape(t.rest) else Read(t.unit, t.rest);
      if u.SyntaxError? then SyntaxError
      else
        var s := ReadString(u.rest);
        if s.SyntaxError? then SyntaxError else Read(Cons(u.value, s.value), s.rest)
  }

  function ReadDigits(t: Text, n: nat): (p: Parsed<nat>)
    ensures p.Read? && Length(p.rest) <= Length(t)
  {
    if t.Cons? && Digit(t.unit) then ReadDigits(t.rest, 10 * n + (t.unit - ZERO)) else Read(n, t)
  }

  /** A leading zero stands alone. */
  function ReadNatural(t: Text): (p: Parsed<nat>)
    ensures p.Read? ==> Length(p.rest) < Length(t)
  {
    if t.Nil? || !Digit(t.unit) then SyntaxError
    else if t.unit == ZERO then Read(0, t.rest)
    else ReadDigits(t.rest, t.unit - ZERO)
  }

  function ReadNumber(t: Text): (p: Parsed<Value>)
    ensures p.Read? ==> Length(p.rest) < Length(t)
  {
    if t.Cons? && t.unit == MINUS then
      var n := ReadNatural(t.rest);
      if n.SyntaxError? then SyntaxError
      else Read(Number(if n.value == 0 then MinusZero else Integer(-(n.value as int))), n.rest)
    else
      var n := ReadNatural(t);
      if n.SyntaxError? then SyntaxError else Read(Number(Integer(n.value)), n.rest)
  }

  function ReadWord(s: string, t: Text, v: Value): (p: Parsed<Value>)
    ensures p.Read? ==> Length(p.rest) <= Length(t) && (s != "" ==> Length(p.rest) < Length(t))
  {
    if s == "" then Read(v, t)
    else if t.Nil? || t.unit != s[0] as int % 0x10000 then SyntaxError
    else ReadWord(s[1..], t.rest, v)
  }

  function ReadValue(t: Text): (p: Parsed<Value>)
    ensures p.Read? ==> Length(p.rest) < Length(t)
    decreases Length(t), 0
  {
    if t.Nil? then SyntaxError
    else if t.unit == QUOTE then
      var s := ReadString(t.rest);
      if s.SyntaxError? then SyntaxError else Read(Str(s.value), s.rest)
    else if t.unit == OPEN_LIST then
      if t.rest.Cons? && t.rest.unit == CLOSE_LIST then Read(Arr(NoItems), t.rest.rest)
      else
        var items := ReadItems(t.rest);
        if items.SyntaxError? then SyntaxError else Read(Arr(items.value), items.rest)
    else if t.unit == OPEN_OBJECT then
      if t.rest.Cons? && t.rest.unit == CLOSE_OBJECT then Read(Obj(NoEntries), t.rest.rest)
      else
        var es := ReadEntries(t.rest);
        if es.SyntaxError? then SyntaxError else Read(Obj(es.value), es.rest)
    else if t.unit == 110 then ReadWord("null", t, Null)
    else if t.unit == 116 then ReadWord("true", t, Bool(true))
    else if t.unit == 102 then ReadWord("false", t, Bool(false))
    else ReadNumber(t)
  }

  /** At least one item, up to and with the closing bracket. */
  function ReadItems(t: Text): (p: Parsed<Items>)
    ensures p.Read? ==> Length(p.rest) < Length(t)
    decreases Length(t), 1
  {
    var v := ReadValue(t);
    if v.SyntaxError? || v.rest.Nil? then SyntaxError
    else if v.rest.unit == CLOSE_LIST then Read(Item(v.value, NoItems), v.rest.rest)
    else if v.rest.unit != COMMA then SyntaxError
    else
      var more := ReadItems(v.rest.rest);
      if more.SyntaxError? then SyntaxError else Read(Item(v.value, more.value), more.rest)
  }

  /** A key and its colon. */
  function ReadKey(t: Text): (p: Parsed<Text>)
    ensures p.Read? ==> Length(p.rest) < Length(t)
  {
    if t.Nil? || t.unit != QUOTE then SyntaxError
    else
      var k := ReadString(t.rest);
      if k.SyntaxError? || k.rest.Nil? || k.rest.unit != COLON then SyntaxError else Read(k.value, k.rest.rest)
  }

  /** At least one entry, up to and with the closing brace. */
  function ReadEntries(t: Text): (p: Parsed<Entries>)
    ensures p.Read? ==> Length(p.rest) < Length(t)
    decreases Length(t), 1
  {
    var k := ReadKey(t);
    if k.SyntaxError? then SyntaxError
    else
      var v := ReadValue(k.rest);
      if v.SyntaxError? || v.rest.Nil? then SyntaxError
      else if v.rest.unit == CLOSE_OBJECT then Read(Entry(k.value, v.value, NoEntries), v.rest.rest)
      else if v.rest.unit != COMMA then SyntaxError
      else
        var more := ReadEntries(v.rest.rest);
        if more.SyntaxError? then SyntaxError else Read(Entry(k.value, v.value, more.value), more.rest)
  }
}
