/** Canonical texts are uniquely decodable: reading one back gives the value it was written from, and two values share
    a text exactly when they are equal up to key order and normalisation. */
module CanonicalJsonLaws {
  import opened Wrappers
  import opened CanonicalJson

  // ---- reading back what was written ----

  predicate StartsDigit(t: Text) { t.Cons? && Digit(t.unit) }

  lemma {:induction false} DigitsBack(n: nat, rest: Text)
    ensures ReadDigits(Digits(n, rest), 0) == ReadDigits(rest, n)
    ensures StartsDigit(Digits(n, rest)) && (n > 0 ==> Digits(n, rest).unit != ZERO)
  {
    if n >= 10 { DigitsBack(n / 10, Cons(ZERO + n % 10, rest)); }
  }

  lemma NaturalBack(n: nat, rest: Text)
    requires !StartsDigit(rest)
    ensures ReadNatural(Digits(n, rest)) == Read(n, rest)
  {
    DigitsBack(n, rest);
  }

  lemma HexDigitBack(d: int)
    requires 0 <= d < 16
    ensures HexValue(Hex(d)) == d
  {
  }

  lemma HexDigits(u: Unit)
    ensures 0 <= u / 4096 < 16
    ensures 16 * (u / 4096) + u / 256 % 16 == u / 256
    ensures 16 * (u / 256) + u / 16 % 16 == u / 16
    ensures 16 * (u / 16) + u % 16 == u
  {
  }

  lemma ReadHexDigit(d: int, t: Text, digits: nat, n: nat, m: nat)
    requires 0 <= d < 16 && 16 * n + d == m
    ensures ReadHex(Cons(Hex(d), t), digits + 1, n) == ReadHex(t, digits, m)
  {
    HexDigitBack(d);
  }

  lemma HexBack(u: Unit, rest: Text)
    ensures var hex := Cons(Hex(u / 4096), Cons(Hex(u / 256 % 16), Cons(Hex(u / 16 % 16), Cons(Hex(u % 16), rest))));
            ReadHex(hex, 4, 0) == Read(u, rest)
  {
    HexDigits(u);
    var t1 := Cons(Hex(u % 16), rest);
    var t2 := Cons(Hex(u / 16 % 16), t1);
    var t3 := Cons(Hex(u / 256 % 16), t2);
    ReadHexDigit(u / 4096, t3, 3, 0, u / 4096);
    ReadHexDigit(u / 256 % 16, t2, 2, u / 4096, u / 256);
    ReadHexDigit(u / 16 % 16, t1, 1, u / 256, u / 16);
    ReadHexDigit(u % 16, rest, 0, u / 16, u);
  }

  predicate Escaped(u: Unit) { Short(u) != 0 || u < 0x20 || High(u) || Low(u) }

  lemma ShortBack(u: Unit)
    requires Short(u) != 0
    ensures Unshort(Short(u)) == u
  {
  }

  lemma HexEscapeBack(u: Unit, t: Text, hex: Text)
    requires ReadHex(hex, 4, 0) == Read(u, t)
    ensures ReadEscape(Cons(LETTER_U, hex)) == Read(u, t)
  {
    assert Unshort(LETTER_U) < 0;
  }

  lemma EscapeBack(u: Unit, t: Text)
    requires Escaped(u)
    ensures EscapeUnit(u, t).unit == BACKSLASH && ReadEscape(EscapeUnit(u, t).rest) == Read(u, t)
  {
    if Short(u) == 0 {
      HexBack(u, t);
      HexEscapeBack(u, t, Cons(Hex(u / 4096), Cons(Hex(u / 256 % 16), Cons(Hex(u / 16 % 16), Cons(Hex(u % 16), t)))));
    } else {
      ShortBack(u);
    }
  }

  lemma UnitBack(u: Unit, t: Text, s: Text, rest: Text)
    requires ReadString(t) == Read(s, rest)
    ensures ReadString(EscapeUnit(u, t)) == Read(Cons(u, s), rest)
  {
    if Escaped(u) { EscapeBack(u, t); }
  }

  lemma {:induction false} StringBack(s: Text, rest: Text)
    ensures ReadString(Escape(s, Cons(QUOTE, rest))) == Read(s, rest)
  {
    match s
    case Nil =>
    case Cons(u, s') =>
      if High(u) && s'.Cons? && Low(s'.unit) {
        StringBack(s'.rest, rest);
      } else {
        StringBack(s', rest);
        UnitBack(u, Escape(s', Cons(QUOTE, rest)), s', rest);
      }
  }

  /** The value has a text of its own: every leaf of it can be written. */
  predicate Plain(v: Value) {
    match v
    case Null | Bool(_) | Str(_) => true
    case Number(num) => num.Integer?
    case Arr(items) => PlainItems(items)
    case Obj(es) => PlainEntries(es)
    case Undefined | Unsupported => false
  }

  predicate PlainItems(items: Items) {
    items.Item? ==> Plain(items.head) && PlainItems(items.tail)
  }

  predicate PlainEntries(es: Entries) {
    es.Entry? ==> Plain(es.child) && PlainEntries(es.more)
  }

  lemma EmitStarts(v: Value, rest: Text)
    requires Plain(v)
    ensures Emit(v, rest).Cons? && Emit(v, rest).unit != CLOSE_LIST
  {
    if v.Number? { DigitsBack(if v.num.n < 0 then -v.num.n else v.num.n, rest); }
  }

  lemma NumberBack(n: int, rest: Text)
    requires !StartsDigit(rest)
    ensures ReadValue(Decimal(n, rest)) == Read(Number(Integer(n)), rest)
  {
    var size := if n < 0 then -n else n;
    NaturalBack(size, rest);
    DigitsBack(size, rest);
  }

  lemma NullBack(rest: Text)
    ensures ReadValue(Word("null", rest)) == Read(Null, rest)
  {
    WordBack("null", rest, Null);
    assert Word("null", rest).unit == 110;
  }

  lemma BoolBack(b: bool, rest: Text)
    ensures ReadValue(Emit(Bool(b), rest)) == Read(Bool(b), rest)
  {
    if b { WordBack("true", rest, Bool(true)); } else { WordBack("false", rest, Bool(false)); }
    var t := Emit(Bool(b), rest);
    assert t.unit == if b then 116 else 102;
  }

  lemma {:induction false} WordBack(s: string, rest: Text, v: Value)
    ensures ReadWord(s, Word(s, rest), v) == Read(v, rest)
  {
    if s != "" { WordBack(s[1..], rest, v); }
  }

  /** The text of a value, whatever follows it, reads back as the value. */
  lemma {:induction false} ValueBack(v: Value, rest: Text)
    requires Plain(v) && !StartsDigit(rest)
    ensures ReadValue(Emit(v, rest)) == Read(v, rest)
    decreases v
  {
    match v
    case Null => NullBack(rest);
    case Bool(b) => BoolBack(b, rest);
    case Number(num) => NumberBack(num.n, rest);
    case Str(s) => StringBack(s, rest);
    case Arr(items) =>
      if items.Item? {
        var end := Cons(CLOSE_LIST, rest);
        EmitStarts(items.head, if items.tail.NoItems? then end else Cons(COMMA, EmitItems(items.tail, end)));
        ItemsBack(items, rest);
      }
    case Obj(es) => if es.Entry? { EntriesBack(es, rest); }
  }

  lemma {:induction false} ItemsBack(items: Items, rest: Text)
    requires items.Item? && PlainItems(items)
    ensures ReadItems(EmitItems(items, Cons(CLOSE_LIST, rest))) == Read(items, rest)
    decreases items
  {
    var end := Cons(CLOSE_LIST, rest);
    ValueBack(items.head, if items.tail.NoItems? then end else Cons(COMMA, EmitItems(items.tail, end)));
    if items.tail.Item? { ItemsBack(items.tail, rest); }
  }

  lemma {:induction false} EntriesBack(es: Entries, rest: Text)
    requires es.Entry? && PlainEntries(es)
    ensures ReadEntries(EmitEntries(es, Cons(CLOSE_OBJECT, rest))) == Read(es, rest)
    decreases es
  {
    var end := Cons(CLOSE_OBJECT, rest);
    var after := if es.more.NoEntries? then end else Cons(COMMA, EmitEntries(es.more, end));
    StringBack(es.key, Cons(COLON, Emit(es.child, after)));
    ValueBack(es.child, after);
    if es.more.Entry? { EntriesBack(es.more, rest); }
  }

  /** No two values that can be written share a text. */
  lemma EmitInjective(v: Value, w: Value)
    requires Plain(v) && Plain(w) && Emit(v, Nil) == Emit(w, Nil)
    ensures v == w
  {
    ValueBack(v, Nil);
    ValueBack(w, Nil);
  }

  // ---- the order of keys ----

  lemma {:induction false} LessTrichotomy(a: Text, b: Text)
    ensures Less(a, b) || a == b || Less(b, a)
    ensures !(Less(a, b) && Less(b, a)) && (Less(a, b) ==> a != b)
  {
    if a.Cons? && b.Cons? { LessTrichotomy(a.rest, b.rest); }
  }

  lemma {:induction false} LessTransitive(a: Text, b: Text, c: Text)
    requires Less(a, b) && Less(b, c)
    ensures Less(a, c)
  {
    if a.Cons? && b.Cons? && c.Cons? && a.unit == b.unit == c.unit { LessTransitive(a.rest, b.rest, c.rest); }
  }

  predicate Ascending(es: Entries) {
    es.Entry? ==> Below(es.key, es.more) && Ascending(es.more)
  }

  predicate Below(key: Text, es: Entries) {
    es.Entry? ==> Less(key, es.key)
  }

  lemma {:induction false} BelowAbsent(es: Entries, key: Text)
    requires Ascending(es) && Below(key, es)
    ensures Get(es, key).None?
  {
    if es.Entry? {
      LessTrichotomy(key, es.key);
      if es.more.Entry? { LessTransitive(key, es.key, es.more.key); }
      BelowAbsent(es.more, key);
    }
  }

  lemma {:induction false} PutAscending(es: Entries, key: Text, child: Value)
    requires Ascending(es)
    ensures Ascending(Put(es, key, child))
    ensures forall low :: Less(low, key) && Below(low, es) ==> Below(low, Put(es, key, child))
  {
    if es.Entry? {
      LessTrichotomy(key, es.key);
      PutAscending(es.more, key, child);
    }
  }

  lemma {:induction false} GetPut(es: Entries, key: Text, child: Value, k: Text)
    ensures Get(Put(es, key, child), k) == if k == key then Some(child) else Get(es, k)
  {
    if es.Entry? { GetPut(es.more, key, child, k); }
  }

  ghost predicate SameGets(a: Entries, b: Entries) {
    forall k :: Get(a, k) == Get(b, k)
  }

  lemma {:induction false} Extensional(a: Entries, b: Entries)
    requires Ascending(a) && Ascending(b) && SameGets(a, b)
    ensures a == b
  {
    SameEmptiness(a, b);
    if a.Entry? {
      SameHeads(a, b);
      forall k
        ensures Get(a.more, k) == Get(b.more, k)
      {
        assert Get(a, k) == Get(b, k);
        BelowAbsent(a.more, a.key);
        BelowAbsent(b.more, b.key);
      }
      Extensional(a.more, b.more);
    }
  }

  lemma SameEmptiness(a: Entries, b: Entries)
    requires SameGets(a, b)
    ensures a.Entry? <==> b.Entry?
  {
    if a.Entry? { assert Get(b, a.key).Some?; }
    if b.Entry? { assert Get(a, b.key).Some?; }
  }

  lemma SameHeads(a: Entries, b: Entries)
    requires Ascending(a) && Ascending(b) && SameGets(a, b) && a.Entry? && b.Entry?
    ensures a.key == b.key && a.child == b.child
  {
    LessTrichotomy(a.key, b.key);
    assert Get(a, a.key) == Get(b, a.key);
    assert Get(a, b.key) == Get(b, b.key);
    if Less(a.key, b.key) { BelowAbsent(b, a.key); }
    if Less(b.key, a.key) { BelowAbsent(a, b.key); }
  }

  // ---- what normalising gives ----

  ghost predicate Idempotent(nfc: Nfc) {
    forall s :: nfc(nfc(s)) == nfc(s)
  }

  predicate NormalKeys(nfc: Nfc, es: Entries) {
    es.Entry? ==> nfc(es.key) == es.key && !Inherited(es.key) && NormalKeys(nfc, es.more)
  }

  /** Strings and keys are normalised, keys ascend and shadow nothing inherited, numbers are safe integers. */
  predicate Normal(nfc: Nfc, v: Value) {
    match v
    case Null | Bool(_) => true
    case Number(num) => Safe(num)
    case Str(s) => nfc(s) == s
    case Arr(items) => NormalItems(nfc, items)
    case Obj(es) => Ascending(es) && NormalKeys(nfc, es) && NormalChildren(nfc, es)
    case Undefined | Unsupported => false
  }

  predicate NormalItems(nfc: Nfc, items: Items) {
    items.Item? ==> Normal(nfc, items.head) && NormalItems(nfc, items.tail)
  }

  predicate NormalChildren(nfc: Nfc, es: Entries) {
    es.Entry? ==> Normal(nfc, es.child) && NormalChildren(nfc, es.more)
  }

  lemma NormalPlain(nfc: Nfc, v: Value)
    requires Normal(nfc, v)
    ensures Plain(v)
    decreases v
  {
    match v
    case Arr(items) => NormalItemsPlain(nfc, items);
    case Obj(es) => NormalEntriesPlain(nfc, es);
    case Null | Bool(_) | Number(_) | Str(_) =>
  }

  lemma NormalItemsPlain(nfc: Nfc, items: Items)
    requires NormalItems(nfc, items)
    ensures PlainItems(items)
    decreases items
  {
    if items.Item? { NormalPlain(nfc, items.head); NormalItemsPlain(nfc, items.tail); }
  }

  lemma NormalEntriesPlain(nfc: Nfc, es: Entries)
    requires NormalChildren(nfc, es)
    ensures PlainEntries(es)
    decreases es
  {
    if es.Entry? { NormalPlain(nfc, es.child); NormalEntriesPlain(nfc, es.more); }
  }

  lemma {:induction false} PutNormalKeys(nfc: Nfc, es: Entries, key: Text, child: Value)
    requires NormalKeys(nfc, es) && nfc(key) == key && !Inherited(key)
    ensures NormalKeys(nfc, Put(es, key, child))
  {
    if es.Entry? { PutNormalKeys(nfc, es.more, key, child); }
  }

  lemma {:induction false} FillOrdered(nfc: Nfc, es: Entries, normalized: Entries)
    requires Idempotent(nfc) && Ascending(normalized) && NormalKeys(nfc, normalized) && Fill(nfc, es, normalized).Ok?
    ensures Ascending(Fill(nfc, es, normalized).value) && NormalKeys(nfc, Fill(nfc, es, normalized).value)
  {
    if es.Entry? {
      PutAscending(normalized, nfc(es.key), es.child);
      PutNormalKeys(nfc, normalized, nfc(es.key), es.child);
      FillOrdered(nfc, es.more, Put(normalized, nfc(es.key), es.child));
    }
  }

  lemma {:induction false} NormIsNormal(nfc: Nfc, v: Value)
    requires Idempotent(nfc) && Norm(nfc, v).Ok?
    ensures Normal(nfc, Norm(nfc, v).value)
    decreases Weight(v), 0
  {
    match v
    case Arr(items) => NormItemsNormal(nfc, items);
    case Obj(es) =>
      FillOrdered(nfc, es, NoEntries);
      NormEntriesNormal(nfc, Collect(nfc, es).value);
    case Null | Bool(_) | Number(_) | Str(_) =>
  }

  lemma {:induction false} NormItemsNormal(nfc: Nfc, items: Items)
    requires Idempotent(nfc) && NormItems(nfc, items).Ok?
    ensures NormalItems(nfc, NormItems(nfc, items).value)
    decreases WeightItems(items), 1, items
  {
    if items.Item? { NormIsNormal(nfc, items.head); NormItemsNormal(nfc, items.tail); }
  }

  lemma {:induction false} NormEntriesNormal(nfc: Nfc, es: Entries)
    requires Idempotent(nfc) && NormEntries(nfc, es).Ok? && Ascending(es) && NormalKeys(nfc, es)
    ensures var n := NormEntries(nfc, es).value;
      && Ascending(n) && NormalKeys(nfc, n) && NormalChildren(nfc, n)
      && (forall low :: Below(low, es) ==> Below(low, n))
    decreases WeightEntries(es), 1, es
  {
    if es.Entry? { NormIsNormal(nfc, es.child); NormEntriesNormal(nfc, es.more); }
  }

  /** The entry is there with this very child, up to the normalisation of its key. */
  predicate Holds(nfc: Nfc, es: Entries, k: Text, c: Value) {
    es.Entry? && ((nfc(es.key) == k && es.child == c) || Holds(nfc, es.more, k, c))
  }

  /** What the loop collects: the children that are not `undefined`. */
  lemma {:induction false} FillGet(nfc: Nfc, es: Entries, normalized: Entries, k: Text, c: Value)
    requires Fill(nfc, es, normalized).Ok? && c != Undefined
    ensures Get(Fill(nfc, es, normalized).value, k) == Some(c) <==>
        Get(normalized, k) == Some(c) || Holds(nfc, es, k, c)
  {
    if es.Entry? {
      GetPut(normalized, nfc(es.key), es.child, k);
      FillGet(nfc, es.more, Put(normalized, nfc(es.key), es.child), k, c);
    }
  }

  lemma {:induction false} NormGet(nfc: Nfc, es: Entries, k: Text)
    requires NormEntries(nfc, es).Ok?
    ensures var n := Get(NormEntries(nfc, es).value, k);
      if Get(es, k).None? then n.None?
      else (Norm(nfc, Get(es, k).value).Ok? && n == Some(Norm(nfc, Get(es, k).value).value))
  {
    if es.Entry? { NormGet(nfc, es.more, k); }
  }

  /** A defined child of an accepted object is accepted, and found under its normalised key. */
  lemma HeldIsNormed(nfc: Nfc, es: Entries, k: Text, c: Value)
    requires Norm(nfc, Obj(es)).Ok? && Holds(nfc, es, k, c) && c != Undefined
    ensures Norm(nfc, c).Ok? && Get(Norm(nfc, Obj(es)).value.entries, k) == Some(Norm(nfc, c).value)
  {
    FillGet(nfc, es, NoEntries, k, c);
    NormGet(nfc, Collect(nfc, es).value, k);
  }

  /** Whatever the normal object holds comes from a defined child. */
  lemma NormedIsHeld(nfc: Nfc, es: Entries, k: Text) returns (c: Value)
    requires Norm(nfc, Obj(es)).Ok? && Get(Norm(nfc, Obj(es)).value.entries, k).Some?
    ensures c != Undefined && Holds(nfc, es, k, c)
    ensures Norm(nfc, c) == Ok(Get(Norm(nfc, Obj(es)).value.entries, k).value)
  {
    NormGet(nfc, Collect(nfc, es).value, k);
    c := Get(Collect(nfc, es).value, k).value;
    FillGet(nfc, es, NoEntries, k, c);
  }

  // ---- normal values are their own normal form ----

  predicate DistinctKeys(es: Entries) {
    es.Entry? ==> Get(es.more, es.key).None? && DistinctKeys(es.more)
  }

  lemma {:induction false} AscendingDistinct(es: Entries)
    requires Ascending(es)
    ensures DistinctKeys(es)
  {
    if es.Entry? {
      BelowAbsent(es.more, es.key);
      AscendingDistinct(es.more);
    }
  }

  /** Distinct normal keys are all collected. */
  lemma {:induction false} FillDistinct(nfc: Nfc, es: Entries, normalized: Entries)
    requires DistinctKeys(es) && NormalKeys(nfc, es)
    requires forall k :: Get(es, k).Some? ==> Get(normalized, k).None?
    ensures Fill(nfc, es, normalized).Ok?
    ensures forall k ::
              Get(Fill(nfc, es, normalized).value, k) == if Get(es, k).Some? then Get(es, k) else Get(normalized, k)
  {
    if es.Entry? {
      assert Get(es, es.key).Some?;
      var next := Put(normalized, es.key, es.child);
      forall k
        ensures Get(next, k) == if k == es.key then Some(es.child) else Get(normalized, k)
        ensures Get(es, k) == if k == es.key then Some(es.child) else Get(es.more, k)
      {
        GetPut(normalized, es.key, es.child, k);
      }
      FillDistinct(nfc, es.more, next);
    }
  }

  lemma {:induction false} NormalFixed(nfc: Nfc, v: Value)
    requires Idempotent(nfc) && Normal(nfc, v)
    ensures Norm(nfc, v) == Ok(v)
    decreases v
  {
    match v
    case Arr(items) => NormalItemsFixed(nfc, items);
    case Obj(es) =>
      AscendingDistinct(es);
      FillDistinct(nfc, es, NoEntries);
      FillOrdered(nfc, es, NoEntries);
      Extensional(Fill(nfc, es, NoEntries).value, es);
      NormalEntriesFixed(nfc, es);
    case Null | Bool(_) | Number(_) | Str(_) =>
  }

  lemma {:induction false} NormalItemsFixed(nfc: Nfc, items: Items)
    requires Idempotent(nfc) && NormalItems(nfc, items)
    ensures NormItems(nfc, items) == Ok(items)
    decreases items
  {
    if items.Item? { NormalFixed(nfc, items.head); NormalItemsFixed(nfc, items.tail); }
  }

  lemma {:induction false} NormalEntriesFixed(nfc: Nfc, es: Entries)
    requires Idempotent(nfc) && NormalChildren(nfc, es)
    ensures NormEntries(nfc, es) == Ok(es)
    decreases es
  {
    if es.Entry? { NormalFixed(nfc, es.child); NormalEntriesFixed(nfc, es.more); }
  }

  // ---- equal up to key order and normalisation ----

  /** Entries that are `undefined` do not matter: an accepted object overwrites each of them. */
  predicate Same(nfc: Nfc, v: Value, w: Value)
    decreases Weight(v) + Weight(w), 0
  {
    match (v, w)
    case (Str(s), Str(t)) => nfc(s) == nfc(t)
    case (Arr(a), Arr(b)) => SameItems(nfc, a, b)
    case (Obj(a), Obj(b)) => EachIn(nfc, a, b) && EachIn(nfc, b, a)
    case _ => v == w
  }

  predicate SameItems(nfc: Nfc, a: Items, b: Items)
    decreases WeightItems(a) + WeightItems(b), 1
  {
    if a.Item? && b.Item? then Same(nfc, a.head, b.head) && SameItems(nfc, a.tail, b.tail) else a == b
  }

  /** Every defined entry of the one has its like in the other. */
  predicate EachIn(nfc: Nfc, a: Entries, b: Entries)
    decreases WeightEntries(a) + WeightEntries(b), 2
  {
    a.Entry? ==> (a.child != Undefined ==> HasLike(nfc, a.key, a.child, b)) && EachIn(nfc, a.more, b)
  }

  predicate HasLike(nfc: Nfc, key: Text, child: Value, b: Entries)
    decreases Weight(child) + WeightEntries(b), 1
  {
    && b.Entry?
    && ((nfc(b.key) == nfc(key) && b.child != Undefined && Same(nfc, child, b.child))
        || HasLike(nfc, key, child, b.more))
  }

  lemma {:induction false} HoldsWeight(nfc: Nfc, es: Entries, k: Text, c: Value)
    requires Holds(nfc, es, k, c)
    ensures Weight(c) <= WeightEntries(es)
  {
    if !(nfc(es.key) == k && es.child == c) { HoldsWeight(nfc, es.more, k, c); }
  }

  lemma {:induction false} LikeIsHeld(nfc: Nfc, key: Text, child: Value, b: Entries) returns (c: Value)
    requires HasLike(nfc, key, child, b)
    ensures c != Undefined && Holds(nfc, b, nfc(key), c) && Same(nfc, child, c)
  {
    if nfc(b.key) == nfc(key) && b.child != Undefined && Same(nfc, child, b.child) { c := b.child; }
    else { c := LikeIsHeld(nfc, key, child, b.more); }
  }

  lemma {:induction false} HeldIsLike(nfc: Nfc, key: Text, child: Value, b: Entries, c: Value)
    requires c != Undefined && Holds(nfc, b, nfc(key), c) && Same(nfc, child, c)
    ensures HasLike(nfc, key, child, b)
  {
    if !(nfc(b.key) == nfc(key) && b.child == c) { HeldIsLike(nfc, key, child, b.more, c); }
  }

  lemma {:induction false} EachInGives(nfc: Nfc, a: Entries, b: Entries, k: Text, c: Value) returns (d: Value)
    requires EachIn(nfc, a, b) && Holds(nfc, a, k, c) && c != Undefined
    ensures d != Undefined && Holds(nfc, b, k, d) && Same(nfc, c, d)
  {
    if nfc(a.key) == k && a.child == c { d := LikeIsHeld(nfc, a.key, c, b); }
    else { d := EachInGives(nfc, a.more, b, k, c); }
  }

  predicate Accepted(nfc: Nfc, v: Value) { Norm(nfc, v).Ok? }

  /** Accepted values are alike exactly when they have one normal form. */
  lemma {:induction false} SameIffNorm(nfc: Nfc, v: Value, w: Value)
    requires Idempotent(nfc) && Accepted(nfc, v) && Accepted(nfc, w)
    ensures Same(nfc, v, w) <==> Norm(nfc, v) == Norm(nfc, w)
    decreases Weight(v) + Weight(w), 0
  {
    if v.Arr? && w.Arr? {
      SameItemsIff(nfc, v.items, w.items);
    } else if v.Obj? && w.Obj? {
      var a, b := Norm(nfc, v).value.entries, Norm(nfc, w).value.entries;
      if Same(nfc, v, w) {
        forall k
          ensures Get(a, k) == Get(b, k)
        {
          if Get(a, k).Some? { LikeGet(nfc, v.entries, w.entries, k); }
          if Get(b, k).Some? { LikeGet(nfc, w.entries, v.entries, k); }
        }
        NormIsNormal(nfc, v);
        NormIsNormal(nfc, w);
        Extensional(a, b);
      }
      if a == b {
        NormLike(nfc, v.entries, v.entries, w.entries);
        NormLike(nfc, w.entries, w.entries, v.entries);
      }
    }
  }

  lemma {:induction false} SameItemsIff(nfc: Nfc, a: Items, b: Items)
    requires Idempotent(nfc) && NormItems(nfc, a).Ok? && NormItems(nfc, b).Ok?
    ensures SameItems(nfc, a, b) <==> NormItems(nfc, a) == NormItems(nfc, b)
    decreases WeightItems(a) + WeightItems(b), 1
  {
    if a.Item? && b.Item? {
      SameIffNorm(nfc, a.head, b.head);
      SameItemsIff(nfc, a.tail, b.tail);
    }
  }

  lemma {:induction false} LikeGet(nfc: Nfc, a: Entries, b: Entries, k: Text)
    requires Idempotent(nfc) && Accepted(nfc, Obj(a)) && Accepted(nfc, Obj(b)) && EachIn(nfc, a, b)
    requires Get(Norm(nfc, Obj(a)).value.entries, k).Some?
    ensures Get(Norm(nfc, Obj(b)).value.entries, k) == Get(Norm(nfc, Obj(a)).value.entries, k)
    decreases WeightEntries(a) + WeightEntries(b), 1
  {
    var c := NormedIsHeld(nfc, a, k);
    var d := EachInGives(nfc, a, b, k, c);
    HeldIsNormed(nfc, b, k, d);
    HoldsWeight(nfc, a, k, c);
    HoldsWeight(nfc, b, k, d);
    SameIffNorm(nfc, c, d);
  }

  /** `part` is a tail of `a`. */
  lemma {:induction false} NormLike(nfc: Nfc, part: Entries, a: Entries, b: Entries)
    requires Idempotent(nfc) && Accepted(nfc, Obj(a)) && Norm(nfc, Obj(a)) == Norm(nfc, Obj(b))
    requires forall k, c :: Holds(nfc, part, k, c) ==> Holds(nfc, a, k, c)
    ensures EachIn(nfc, part, b)
    decreases WeightEntries(a) + WeightEntries(b), 1, part
  {
    if part.Entry? {
      forall k, c | Holds(nfc, part.more, k, c)
        ensures Holds(nfc, a, k, c)
      {
        assert Holds(nfc, part, k, c);
      }
      NormLike(nfc, part.more, a, b);
      if part.child != Undefined {
        var k, c := nfc(part.key), part.child;
        assert Holds(nfc, part, k, c);
        HeldIsNormed(nfc, a, k, c);
        var d := NormedIsHeld(nfc, b, k);
        HoldsWeight(nfc, a, k, c);
        HoldsWeight(nfc, b, k, d);
        SameIffNorm(nfc, c, d);
        HeldIsLike(nfc, part.key, c, b, d);
      }
    }
  }

  // ---- the same properties in another order ----

  /** The values differ at most in the order in which objects list their properties. */
  predicate Relisted(v: Value, w: Value)
    decreases v
  {
    match v
    case Arr(a) => w.Arr? && RelistedItems(a, w.items)
    case Obj(a) => w.Obj? && DistinctKeys(w.entries) && KeysIn(w.entries, a) && RelistedIn(a, w.entries)
    case Null | Undefined | Unsupported | Bool(_) | Number(_) | Str(_) => v == w
  }

  predicate RelistedItems(a: Items, b: Items)
    decreases a
  {
    if a.NoItems? then b.NoItems? else b.Item? && Relisted(a.head, b.head) && RelistedItems(a.tail, b.tail)
  }

  predicate RelistedIn(a: Entries, b: Entries)
    decreases a
  {
    a.Entry? ==> Get(b, a.key).Some? && Relisted(a.child, Get(b, a.key).value) && RelistedIn(a.more, b)
  }

  predicate KeysIn(b: Entries, a: Entries) {
    b.Entry? ==> Get(a, b.key).Some? && KeysIn(b.more, a)
  }

  lemma {:induction false} KeyNormal(nfc: Nfc, a: Entries, k: Text)
    requires NormalKeys(nfc, a) && Get(a, k).Some?
    ensures nfc(k) == k && !Inherited(k)
  {
    if a.key != k { KeyNormal(nfc, a.more, k); }
  }

  lemma {:induction false} KeysNormal(nfc: Nfc, b: Entries, a: Entries)
    requires NormalKeys(nfc, a) && KeysIn(b, a)
    ensures NormalKeys(nfc, b)
  {
    if b.Entry? {
      KeyNormal(nfc, a, b.key);
      KeysNormal(nfc, b.more, a);
    }
  }

  lemma {:induction false} KeyIn(b: Entries, a: Entries, k: Text)
    requires KeysIn(b, a) && Get(b, k).Some?
    ensures Get(a, k).Some?
  {
    if b.key != k { KeyIn(b.more, a, k); }
  }

  /** Any listing of a normal value has that value as its normal form. */
  lemma {:induction false} RelistedNorm(nfc: Nfc, v: Value, w: Value)
    requires Idempotent(nfc) && Normal(nfc, v) && Relisted(v, w)
    ensures Norm(nfc, w) == Ok(v)
    decreases v, 1
  {
    match v
    case Arr(a) => RelistedItemsNorm(nfc, a, w.items);
    case Obj(a) =>
      forall k
        ensures NormsTo(nfc, w.entries, a, k)
      {
        if Get(w.entries, k).Some? { KeyIn(w.entries, a, k); }
        if Get(a, k).Some? { RelistedChild(nfc, a, w.entries, k); }
      }
      RelistedEntriesNorm(nfc, a, w.entries);
    case Null | Bool(_) | Number(_) | Str(_) =>
  }

  lemma {:induction false} RelistedItemsNorm(nfc: Nfc, a: Items, b: Items)
    requires Idempotent(nfc) && NormalItems(nfc, a) && RelistedItems(a, b)
    ensures NormItems(nfc, b) == Ok(a)
    decreases a, 1
  {
    if a.Item? {
      RelistedNorm(nfc, a.head, b.head);
      RelistedItemsNorm(nfc, a.tail, b.tail);
    }
  }

  lemma {:induction false} RelistedChild(nfc: Nfc, a: Entries, b: Entries, k: Text)
    requires Idempotent(nfc) && NormalChildren(nfc, a) && RelistedIn(a, b) && Get(a, k).Some?
    ensures Get(b, k).Some? && Norm(nfc, Get(b, k).value) == Ok(Get(a, k).value)
    decreases a, 0
  {
    if a.key == k { RelistedNorm(nfc, a.child, Get(b, k).value); } else { RelistedChild(nfc, a.more, b, k); }
  }

  /** The child under the key has the other's child as its normal form, if there is one. */
  predicate NormsTo(nfc: Nfc, b: Entries, a: Entries, k: Text) {
    if Get(a, k).None? then Get(b, k).None?
    else Get(b, k).Some? && Norm(nfc, Get(b, k).value) == Ok(Get(a, k).value)
  }

  ghost predicate AllNormTo(nfc: Nfc, b: Entries, a: Entries) {
    forall k {:trigger NormsTo(nfc, b, a, k)} :: NormsTo(nfc, b, a, k)
  }

  lemma CollectDistinct(nfc: Nfc, b: Entries)
    requires Idempotent(nfc) && DistinctKeys(b) && NormalKeys(nfc, b)
    ensures Collect(nfc, b).Ok?
    ensures var r := Collect(nfc, b).value; Ascending(r) && NormalKeys(nfc, r) && SameGets(r, b)
  {
    FillDistinct(nfc, b, NoEntries);
    FillOrdered(nfc, b, NoEntries);
  }

  lemma NormsToGets(nfc: Nfc, b: Entries, r: Entries, a: Entries)
    requires SameGets(r, b) && AllNormTo(nfc, b, a)
    ensures AllNormTo(nfc, r, a)
  {
    forall k
      ensures NormsTo(nfc, r, a, k)
    {
      assert NormsTo(nfc, b, a, k) && Get(r, k) == Get(b, k);
    }
  }

  lemma RelistedEntriesNorm(nfc: Nfc, a: Entries, b: Entries)
    requires Idempotent(nfc) && Ascending(a) && NormalKeys(nfc, a) && DistinctKeys(b) && KeysIn(b, a)
    requires AllNormTo(nfc, b, a)
    ensures Norm(nfc, Obj(b)) == Ok(Obj(a))
  {
    KeysNormal(nfc, b, a);
    CollectDistinct(nfc, b);
    var r := Collect(nfc, b).value;
    NormsToGets(nfc, b, r, a);
    NormsToAll(nfc, r, a);
    NormOfObject(nfc, b, r, a);
  }

  lemma NormOfObject(nfc: Nfc, b: Entries, r: Entries, n: Entries)
    requires Collect(nfc, b) == Ok(r) && NormEntries(nfc, r) == Ok(n)
    ensures Norm(nfc, Obj(b)) == Ok(Obj(n))
  {
  }

  lemma NormsToAll(nfc: Nfc, r: Entries, a: Entries)
    requires Idempotent(nfc) && Ascending(a) && Ascending(r) && NormalKeys(nfc, r)
    requires AllNormTo(nfc, r, a)
    ensures NormEntries(nfc, r) == Ok(a)
  {
    forall k
      ensures NormedAt(nfc, r, k)
    {
      assert NormsTo(nfc, r, a, k);
    }
    AllNormed(nfc, r);
    NormEntriesNormal(nfc, r);
    var n := NormEntries(nfc, r).value;
    forall k
      ensures Get(n, k) == Get(a, k)
    {
      assert NormsTo(nfc, r, a, k);
      NormGet(nfc, r, k);
    }
    Extensional(n, a);
  }

  // ---- the order in which `JSON.parse` lists properties: array indices in numeric order, then the others ----

  function IndexOf(k: Text, n: nat): Option<nat> {
    if k.Nil? then Some(n) else if Digit(k.unit) then IndexOf(k.rest, 10 * n + (k.unit - ZERO)) else None
  }

  predicate Index(k: Text) {
    k.Cons? && (k.unit == ZERO ==> k.rest.Nil?) && IndexOf(k, 0).Some? && IndexOf(k, 0).value < 0xffff_ffff
  }

  predicate Before(k: Text, other: Text) {
    Index(k) && (Index(other) ==> IndexOf(k, 0).value < IndexOf(other, 0).value)
  }

  function Place(es: Entries, k: Text, c: Value): Entries {
    match es
    case NoEntries => Entry(k, c, NoEntries)
    case Entry(k', c', more) => if Before(k, k') then Entry(k, c, es) else Entry(k', c', Place(more, k, c))
  }

  function Arrange(es: Entries, placed: Entries): Entries {
    if es.NoEntries? then placed else Arrange(es.more, Place(placed, es.key, es.child))
  }

  function InPropertyOrder(v: Value): Value {
    match v
    case Arr(items) => Arr(ItemsInOrder(items))
    case Obj(es) => Obj(Arrange(ChildrenInOrder(es), NoEntries))
    case Null | Undefined | Unsupported | Bool(_) | Number(_) | Str(_) => v
  }

  function ItemsInOrder(items: Items): Items {
    if items.NoItems? then items else Item(InPropertyOrder(items.head), ItemsInOrder(items.tail))
  }

  function ChildrenInOrder(es: Entries): Entries {
    if es.NoEntries? then es else Entry(es.key, InPropertyOrder(es.child), ChildrenInOrder(es.more))
  }

  function JsonParse(t: Text): Parsed<Value> {
    var r := ReadValue(t);
    if r.SyntaxError? then r else Read(InPropertyOrder(r.value), r.rest)
  }

  lemma {:induction false} PlaceGet(es: Entries, k: Text, c: Value, x: Text)
    requires Get(es, k).None?
    ensures Get(Place(es, k, c), x) == if x == k then Some(c) else Get(es, x)
  {
    if es.Entry? { PlaceGet(es.more, k, c, x); }
  }

  lemma {:induction false} PlaceDistinct(es: Entries, k: Text, c: Value)
    requires DistinctKeys(es) && Get(es, k).None?
    ensures DistinctKeys(Place(es, k, c))
  {
    if es.Entry? {
      PlaceDistinct(es.more, k, c);
      PlaceGet(es.more, k, c, es.key);
    }
  }

  /** Arranging distinct keys keeps every property. */
  lemma {:induction false} ArrangeKeeps(es: Entries, placed: Entries)
    requires DistinctKeys(es) && DistinctKeys(placed)
    requires forall k :: Get(es, k).Some? ==> Get(placed, k).None?
    ensures DistinctKeys(Arrange(es, placed))
    ensures forall k :: Get(Arrange(es, placed), k) == if Get(es, k).Some? then Get(es, k) else Get(placed, k)
  {
    if es.Entry? {
      assert Get(es, es.key).Some?;
      var next := Place(placed, es.key, es.child);
      PlaceDistinct(placed, es.key, es.child);
      forall k
        ensures Get(next, k) == if k == es.key then Some(es.child) else Get(placed, k)
        ensures Get(es, k) == if k == es.key then Some(es.child) else Get(es.more, k)
      {
        PlaceGet(placed, es.key, es.child, k);
      }
      ArrangeKeeps(es.more, next);
    }
  }

  lemma {:induction false} ChildrenGet(es: Entries, k: Text)
    ensures Get(ChildrenInOrder(es), k) == if Get(es, k).None? then None else Some(InPropertyOrder(Get(es, k).value))
  {
    if es.Entry? { ChildrenGet(es.more, k); }
  }

  lemma {:induction false} ChildrenDistinct(es: Entries)
    requires DistinctKeys(es)
    ensures DistinctKeys(ChildrenInOrder(es))
  {
    if es.Entry? {
      ChildrenGet(es.more, es.key);
      ChildrenDistinct(es.more);
    }
  }

  lemma {:induction false} KeysInBoth(b: Entries, a: Entries, all: Entries)
    requires DistinctKeys(b) && forall k :: Get(all, k).Some? ==> Get(a, k).Some?
    requires forall k :: Get(b, k).Some? ==> Get(all, k).Some?
    ensures KeysIn(b, a)
  {
    if b.Entry? {
      assert Get(b, b.key).Some?;
      forall k | Get(b.more, k).Some?
        ensures Get(all, k).Some?
      {
        assert Get(b, k).Some?;
      }
      KeysInBoth(b.more, a, all);
    }
  }

  lemma {:induction false} PropertyOrderRelists(nfc: Nfc, v: Value)
    requires Normal(nfc, v)
    ensures Relisted(v, InPropertyOrder(v))
    decreases v
  {
    match v
    case Arr(items) => ItemsRelisted(nfc, items);
    case Obj(es) =>
      var children := ChildrenInOrder(es);
      var b := Arrange(children, NoEntries);
      AscendingDistinct(es);
      ChildrenDistinct(es);
      ArrangeKeeps(children, NoEntries);
      forall k
        ensures Get(b, k) == Get(children, k)
        ensures Get(b, k).Some? ==> Get(es, k).Some?
      {
        ChildrenGet(es, k);
      }
      KeysInBoth(b, es, b);
      EntriesRelisted(nfc, es, es, b);
    case Null | Bool(_) | Number(_) | Str(_) =>
  }

  lemma {:induction false} ItemsRelisted(nfc: Nfc, items: Items)
    requires NormalItems(nfc, items)
    ensures RelistedItems(items, ItemsInOrder(items))
    decreases items
  {
    if items.Item? {
      PropertyOrderRelists(nfc, items.head);
      ItemsRelisted(nfc, items.tail);
    }
  }

  /** `part` is a tail of `es`. */
  lemma {:induction false} EntriesRelisted(nfc: Nfc, part: Entries, es: Entries, b: Entries)
    requires NormalChildren(nfc, part) && DistinctKeys(part)
    requires forall k :: Get(part, k).Some? ==> Get(es, k) == Get(part, k)
    requires forall k :: Get(b, k) == Get(ChildrenInOrder(es), k)
    ensures RelistedIn(part, b)
    decreases part
  {
    if part.Entry? {
      assert Get(part, part.key).Some?;
      ChildrenGet(es, part.key);
      assert Get(b, part.key) == Get(ChildrenInOrder(es), part.key);
      PropertyOrderRelists(nfc, part.child);
      forall k | Get(part.more, k).Some?
        ensures Get(es, k) == Get(part.more, k)
      {
        assert Get(part, k).Some?;
      }
      EntriesRelisted(nfc, part.more, es, b);
    }
  }

  // ---- the main results ----

  /** Two accepted values have the same canonical text exactly when they are equal up to key order and normalisation. */
  lemma UniquelyDecodable(nfc: Nfc, v: Value, w: Value)
    requires Idempotent(nfc) && CanonicalText(nfc, v).Ok? && CanonicalText(nfc, w).Ok?
    ensures CanonicalText(nfc, v) == CanonicalText(nfc, w) <==> Same(nfc, v, w)
  {
    NormIsNormal(nfc, v);
    NormIsNormal(nfc, w);
    NormalPlain(nfc, Norm(nfc, v).value);
    NormalPlain(nfc, Norm(nfc, w).value);
    SameIffNorm(nfc, v, w);
    if CanonicalText(nfc, v) == CanonicalText(nfc, w) { EmitInjective(Norm(nfc, v).value, Norm(nfc, w).value); }
  }

  /** Reading a canonical text consumes it and gives a value like the one it was written from; however an object's
      properties are listed, the value is accepted and writing it again gives the same text. */
  lemma RoundTrip(nfc: Nfc, v: Value, listed: Value)
    requires Idempotent(nfc) && CanonicalText(nfc, v).Ok?
    ensures var back := ReadValue(CanonicalText(nfc, v).value);
      && back.Read? && back.rest == Nil
      && Accepted(nfc, back.value) && Same(nfc, v, back.value)
      && CanonicalText(nfc, back.value) == CanonicalText(nfc, v)
      && (Relisted(back.value, listed) ==> Same(nfc, v, listed) && CanonicalText(nfc, listed) == CanonicalText(nfc, v))
  {
    var n := Norm(nfc, v).value;
    NormIsNormal(nfc, v);
    NormalPlain(nfc, n);
    ValueBack(n, Nil);
    NormalFixed(nfc, n);
    SameIffNorm(nfc, v, n);
    if Relisted(n, listed) {
      RelistedNorm(nfc, n, listed);
      SameIffNorm(nfc, v, listed);
    }
  }

  /** `roundTrip(v).equal`: the text of what `JSON.parse` makes of a canonical text is that text. */
  lemma RoundTripEqual(nfc: Nfc, v: Value)
    requires Idempotent(nfc) && CanonicalText(nfc, v).Ok?
    ensures var first := CanonicalText(nfc, v).value;
      && JsonParse(first).Read? && JsonParse(first).rest == Nil
      && CanonicalText(nfc, JsonParse(first).value) == Ok(first)
  {
    var n := Norm(nfc, v).value;
    RoundTrip(nfc, v, InPropertyOrder(n));
    NormIsNormal(nfc, v);
    NormalPlain(nfc, n);
    ValueBack(n, Nil);
    PropertyOrderRelists(nfc, n);
  }

  /** A hash without collisions tells accepted values apart exactly when they differ. */
  lemma CanonicalHash(nfc: Nfc, sha: Text -> string, v: Value, w: Value)
    requires Idempotent(nfc) && CanonicalText(nfc, v).Ok? && CanonicalText(nfc, w).Ok?
    requires forall a, b :: sha(a) == sha(b) ==> a == b
    ensures sha(CanonicalText(nfc, v).value) == sha(CanonicalText(nfc, w).value) <==> Same(nfc, v, w)
  {
    UniquelyDecodable(nfc, v, w);
  }

  // ---- which values are accepted ----

  predicate Mentions(nfc: Nfc, es: Entries, k: Text) {
    es.Entry? && (nfc(es.key) == k || Mentions(nfc, es.more, k))
  }

  predicate Defines(nfc: Nfc, es: Entries, k: Text) {
    es.Entry? && ((nfc(es.key) == k && es.child != Undefined) || Defines(nfc, es.more, k))
  }

  /** Numbers are safe integers; no name is inherited; no key comes again after a defined entry of it; and every
      `undefined` entry is followed by a defined one of the same normalised key. */
  predicate Acceptable(nfc: Nfc, v: Value) {
    match v
    case Null | Bool(_) | Str(_) => true
    case Number(num) => Safe(num)
    case Arr(items) => AcceptableItems(nfc, items)
    case Obj(es) => AcceptableEntries(nfc, es)
    case Undefined | Unsupported => false
  }

  predicate AcceptableItems(nfc: Nfc, items: Items) {
    items.Item? ==> Acceptable(nfc, items.head) && AcceptableItems(nfc, items.tail)
  }

  predicate AcceptableEntries(nfc: Nfc, es: Entries) {
    es.Entry? ==>
      && !Inherited(nfc(es.key))
      && (if es.child == Undefined then Defines(nfc, es.more, nfc(es.key))
          else Acceptable(nfc, es.child) && !Mentions(nfc, es.more, nfc(es.key)))
      && AcceptableEntries(nfc, es.more)
  }

  /** What was collected under a key still fits the entries to come. */
  predicate FitsAt(nfc: Nfc, normalized: Entries, es: Entries, k: Text) {
    match Get(normalized, k)
    case None => true
    case Some(c) => if c == Undefined then Defines(nfc, es, k) else Accepted(nfc, c) && !Mentions(nfc, es, k)
  }

  ghost predicate FitsAll(nfc: Nfc, normalized: Entries, es: Entries) {
    forall k :: FitsAt(nfc, normalized, es, k)
  }

  lemma {:induction false} AcceptedIff(nfc: Nfc, v: Value)
    ensures Accepted(nfc, v) <==> Acceptable(nfc, v)
    decreases v
  {
    match v
    case Arr(items) => AcceptedItemsIff(nfc, items);
    case Obj(es) =>
      AcceptedEntriesIff(nfc, es, NoEntries);
      assert FitsAll(nfc, NoEntries, es);
    case Null | Bool(_) | Number(_) | Str(_) | Undefined | Unsupported =>
  }

  lemma {:induction false} AcceptedItemsIff(nfc: Nfc, items: Items)
    ensures NormItems(nfc, items).Ok? <==> AcceptableItems(nfc, items)
    decreases items
  {
    if items.Item? { AcceptedIff(nfc, items.head); AcceptedItemsIff(nfc, items.tail); }
  }

  lemma {:induction false} AcceptedEntriesIff(nfc: Nfc, es: Entries, normalized: Entries)
    requires Ascending(normalized)
    ensures var r := Fill(nfc, es, normalized);
      (r.Ok? && NormEntries(nfc, r.value).Ok?) <==> (AcceptableEntries(nfc, es) && FitsAll(nfc, normalized, es))
    decreases es
  {
    if es.NoEntries? {
      AllNormed(nfc, normalized);
      FitsNothing(nfc, normalized);
    } else {
      var kf := nfc(es.key);
      var next := Put(normalized, kf, es.child);
      PutAscending(normalized, kf, es.child);
      AcceptedEntriesIff(nfc, es.more, next);
      AcceptedIff(nfc, es.child);
      forall k
        ensures k != kf ==> (FitsAt(nfc, next, es.more, k) <==> FitsAt(nfc, normalized, es, k))
      {
        GetPut(normalized, kf, es.child, k);
      }
      GetPut(normalized, kf, es.child, kf);
      FitsStep(nfc, es, normalized, next);
    }
  }

  lemma FitsStep(nfc: Nfc, es: Entries, normalized: Entries, next: Entries)
    requires es.Entry? && Get(next, nfc(es.key)) == Some(es.child)
    requires Accepted(nfc, es.child) <==> Acceptable(nfc, es.child)
    requires forall k :: k != nfc(es.key) ==> (FitsAt(nfc, next, es.more, k) <==> FitsAt(nfc, normalized, es, k))
    ensures (!Taken(normalized, nfc(es.key)) && AcceptableEntries(nfc, es.more) && FitsAll(nfc, next, es.more)) <==>
              (AcceptableEntries(nfc, es) && FitsAll(nfc, normalized, es))
  {
    var kf := nfc(es.key);
    assert FitsAll(nfc, next, es.more) ==> FitsAt(nfc, next, es.more, kf);
    assert FitsAll(nfc, normalized, es) ==> FitsAt(nfc, normalized, es, kf);
  }

  predicate NormedAt(nfc: Nfc, es: Entries, k: Text) {
    Get(es, k).Some? ==> Accepted(nfc, Get(es, k).value)
  }

  lemma {:induction false} AllNormed(nfc: Nfc, es: Entries)
    requires Ascending(es)
    ensures NormEntries(nfc, es).Ok? <==> forall k :: NormedAt(nfc, es, k)
  {
    if es.Entry? {
      AllNormed(nfc, es.more);
      BelowAbsent(es.more, es.key);
      if forall k :: NormedAt(nfc, es, k) {
        assert NormedAt(nfc, es, es.key);
        forall k
          ensures NormedAt(nfc, es.more, k)
        {
          assert NormedAt(nfc, es, k);
        }
      }
      if NormEntries(nfc, es).Ok? {
        forall k
          ensures NormedAt(nfc, es, k)
        {
          assert NormedAt(nfc, es.more, k);
        }
      }
    } else {
      assert forall k :: NormedAt(nfc, es, k);
    }
  }

  lemma FitsNothing(nfc: Nfc, normalized: Entries)
    ensures FitsAll(nfc, normalized, NoEntries) <==> forall k :: NormedAt(nfc, normalized, k)
  {
    forall k
      ensures FitsAt(nfc, normalized, NoEntries, k) <==> NormedAt(nfc, normalized, k)
    {
    }
  }

  lemma OneAcceptable(nfc: Nfc, b: Text, more: Entries)
    requires !Inherited(nfc(b)) && more == Entry(b, Null, NoEntries)
    ensures AcceptableEntries(nfc, more) && Defines(nfc, more, nfc(b)) && HasLike(nfc, b, Null, more)
    ensures EachIn(nfc, more, more)
  {
    assert AcceptableEntries(nfc, NoEntries) && !Mentions(nfc, NoEntries, nfc(b));
    assert Acceptable(nfc, Null) && Same(nfc, Null, Null);
  }

  lemma TwoAlike(nfc: Nfc, a: Text, b: Text, one: Entries, two: Entries)
    requires one == Entry(b, Null, NoEntries) && two == Entry(a, Undefined, one)
    requires HasLike(nfc, b, Null, one) && EachIn(nfc, one, one)
    ensures EachIn(nfc, one, two) && EachIn(nfc, two, one)
  {
    assert HasLike(nfc, b, Null, two);
    assert EachIn(nfc, NoEntries, two);
  }

  lemma OneAndTwo(nfc: Nfc, a: Text, b: Text, one: Entries, two: Entries)
    requires nfc(a) == nfc(b) && !Inherited(nfc(a))
    requires one == Entry(b, Null, NoEntries) && two == Entry(a, Undefined, one)
    ensures Acceptable(nfc, Obj(one)) && Acceptable(nfc, Obj(two)) && Same(nfc, Obj(one), Obj(two))
  {
    OneAcceptable(nfc, b, one);
    TwoAlike(nfc, a, b, one, two);
  }

  /** An `undefined` entry disappears behind a later one of the same normalised key, so two values that differ in it
      share their text. */
  lemma UndefinedOverwritten(nfc: Nfc, a: Text, b: Text, one: Entries, two: Entries)
    requires Idempotent(nfc) && nfc(a) == nfc(b) && !Inherited(nfc(a))
    requires one == Entry(b, Null, NoEntries) && two == Entry(a, Undefined, one)
    ensures one != two && CanonicalText(nfc, Obj(one)).Ok?
        && CanonicalText(nfc, Obj(two)) == CanonicalText(nfc, Obj(one))
  {
    OneAndTwo(nfc, a, b, one, two);
    AcceptedIff(nfc, Obj(one));
    AcceptedIff(nfc, Obj(two));
    UniquelyDecodable(nfc, Obj(one), Obj(two));
  }
}
