/** The canonical text once more, from its description: sequences of code units, string literals for what is written
    verbatim, and the order of keys by their first difference.  The encoder's own texts, tables and comparison are
    proved to be these. */
module CanonicalReference {
  import opened Wrappers
  import opened CanonicalJson
  import CanonicalJsonLaws

  // ---- the order of keys ----

  function Units(t: Text): seq<int> {
    match t
    case Nil => []
    case Cons(u, rest) => [u as int] + Units(rest)
  }

  /** The two agree up to `n`, where `a` ends and `b` goes on, or `a` has the smaller unit. */
  predicate DifferAt(a: seq<int>, b: seq<int>, n: nat) {
    && n <= |a| && n < |b|
    && (forall k | 0 <= k < n :: a[k] == b[k])
    && (n == |a| || a[n] < b[n])
  }

  predicate Precedes(a: seq<int>, b: seq<int>) {
    exists n | 0 <= n <= |a| :: DifferAt(a, b, n)
  }

  lemma DifferLater(a: seq<int>, b: seq<int>, n: nat)
    requires a != [] && b != [] && a[0] == b[0]
    ensures DifferAt(a, b, n) <==> n > 0 && DifferAt(a[1..], b[1..], n - 1)
  {
    if n > 0 && DifferAt(a[1..], b[1..], n - 1) {
      forall k | 0 <= k < n
        ensures a[k] == b[k]
      {
        if k > 0 { assert a[1..][k - 1] == b[1..][k - 1]; }
      }
    }
  }

  lemma PrecedesLater(a: seq<int>, b: seq<int>)
    requires a != [] && b != [] && a[0] == b[0]
    ensures Precedes(a, b) <==> Precedes(a[1..], b[1..])
  {
    if n :| 0 <= n <= |a| && DifferAt(a, b, n) {
      DifferLater(a, b, n);
      assert DifferAt(a[1..], b[1..], n - 1);
    }
    if n :| 0 <= n <= |a[1..]| && DifferAt(a[1..], b[1..], n) {
      DifferLater(a, b, n + 1);
      assert DifferAt(a, b, n + 1);
    }
  }

  lemma {:induction false} LessIff(a: Text, b: Text)
    ensures Less(a, b) <==> Precedes(Units(a), Units(b))
  {
    var x, y := Units(a), Units(b);
    if b.Cons? && (a.Nil? || a.unit < b.unit) {
      assert DifferAt(x, y, 0);
    } else if b.Cons? && a.unit == b.unit {
      LessIff(a.rest, b.rest);
      assert x[1..] == Units(a.rest) && y[1..] == Units(b.rest);
      PrecedesLater(x, y);
    } else {
      assert forall n | 0 <= n <= |x| :: !DifferAt(x, y, n) by {
        if b.Cons? { assert x[0] == a.unit && y[0] == b.unit; }
      }
    }
  }

  function Keys(es: Entries): seq<seq<int>> {
    match es
    case NoEntries => []
    case Entry(k, _, more) => [Units(k)] + Keys(more)
  }

  /** Each key precedes the next one. */
  predicate InOrder(es: Entries) {
    forall k | 0 <= k < |Keys(es)| - 1 :: Precedes(Keys(es)[k], Keys(es)[k + 1])
  }

  /** Every object in the value lists its keys in order. */
  predicate Sorted(v: Value) {
    match v
    case Arr(items) => SortedItems(items)
    case Obj(es) => InOrder(es) && SortedEntries(es)
    case _ => true
  }

  predicate SortedItems(items: Items) {
    items.Item? ==> Sorted(items.head) && SortedItems(items.tail)
  }

  predicate SortedEntries(es: Entries) {
    es.Entry? ==> Sorted(es.child) && SortedEntries(es.more)
  }

  lemma {:induction false} AscendingInOrder(es: Entries)
    requires CanonicalJsonLaws.Ascending(es)
    ensures InOrder(es)
  {
    if es.Entry? {
      AscendingInOrder(es.more);
      if es.more.Entry? { LessIff(es.key, es.more.key); }
      forall k | 0 <= k < |Keys(es)| - 1
        ensures Precedes(Keys(es)[k], Keys(es)[k + 1])
      {
        assert Keys(es)[k + 1] == Keys(es.more)[k];
        if k > 0 { assert Precedes(Keys(es.more)[k - 1], Keys(es.more)[k]); }
      }
    }
  }

  lemma {:induction false} FillAscending(nfc: Nfc, es: Entries, normalized: Entries)
    requires CanonicalJsonLaws.Ascending(normalized) && Fill(nfc, es, normalized).Ok?
    ensures CanonicalJsonLaws.Ascending(Fill(nfc, es, normalized).value)
  {
    if es.Entry? {
      CanonicalJsonLaws.PutAscending(normalized, nfc(es.key), es.child);
      FillAscending(nfc, es.more, Put(normalized, nfc(es.key), es.child));
    }
  }

  lemma {:induction false} NormEntriesKeys(nfc: Nfc, es: Entries)
    requires NormEntries(nfc, es).Ok?
    ensures Keys(NormEntries(nfc, es).value) == Keys(es)
  {
    if es.Entry? { NormEntriesKeys(nfc, es.more); }
  }

  /** Whatever value is accepted, and whatever the normalisation of texts is: in every object of the normal form any two
      consecutive keys agree up to a place where the first one ends and the second goes on, or where the first one's
      next code unit is the smaller number. */
  lemma {:induction false} NormSorted(nfc: Nfc, v: Value)
    requires Norm(nfc, v).Ok?
    ensures Sorted(Norm(nfc, v).value) && CanonicalJsonLaws.Plain(Norm(nfc, v).value)
    decreases Weight(v), 0
  {
    match v
    case Arr(items) => NormItemsSorted(nfc, items);
    case Obj(es) =>
      var collected := Collect(nfc, es).value;
      FillAscending(nfc, es, NoEntries);
      AscendingInOrder(collected);
      NormEntriesKeys(nfc, collected);
      NormEntriesSorted(nfc, collected);
    case _ =>
  }

  lemma {:induction false} NormItemsSorted(nfc: Nfc, items: Items)
    requires NormItems(nfc, items).Ok?
    ensures SortedItems(NormItems(nfc, items).value) && CanonicalJsonLaws.PlainItems(NormItems(nfc, items).value)
    decreases WeightItems(items), 1, items
  {
    if items.Item? { NormSorted(nfc, items.head); NormItemsSorted(nfc, items.tail); }
  }

  lemma {:induction false} NormEntriesSorted(nfc: Nfc, es: Entries)
    requires NormEntries(nfc, es).Ok?
    ensures SortedEntries(NormEntries(nfc, es).value) && CanonicalJsonLaws.PlainEntries(NormEntries(nfc, es).value)
    decreases WeightEntries(es), 1, es
  {
    if es.Entry? { NormSorted(nfc, es.child); NormEntriesSorted(nfc, es.more); }
  }

  // ---- the text ----

  function Ascii(s: string): seq<int> { seq(|s|, k requires 0 <= k < |s| => s[k] as int) }

  const HEX_DIGITS := "0123456789abcdef"

  function HexDigit(d: int): int
    requires 0 <= d < 16
  {
    HEX_DIGITS[d] as int
  }

  predicate FirstHalf(u: int) { 0xd800 <= u < 0xdc00 }

  predicate SecondHalf(u: int) { 0xdc00 <= u < 0xe000 }

  predicate Chars(s: seq<int>) { forall k | 0 <= k < |s| :: 0 <= s[k] < 0x10000 }

  /** The unit is half of a surrogate pair. */
  predicate Paired(s: seq<int>, k: nat)
    requires k < |s|
  {
    || (FirstHalf(s[k]) && k + 1 < |s| && SecondHalf(s[k + 1]))
    || (SecondHalf(s[k]) && k > 0 && FirstHalf(s[k - 1]))
  }

  /** One unit by itself: a short escape, a hexadecimal one, or as it is. */
  function Single(u: int): seq<int>
    requires 0 <= u < 0x10000
  {
    if u == '\"' as int then Ascii("\\\"")
    else if u == '\\' as int then Ascii("\\\\")
    else if u == 0x08 then Ascii("\\b")
    else if u == 0x09 then Ascii("\\t")
    else if u == 0x0a then Ascii("\\n")
    else if u == 0x0c then Ascii("\\f")
    else if u == 0x0d then Ascii("\\r")
    else if u < 0x20 || FirstHalf(u) || SecondHalf(u) then
      Ascii("\\u") + [HexDigit(u / 4096), HexDigit(u / 256 % 16), HexDigit(u / 16 % 16), HexDigit(u % 16)]
    else [u]
  }

  /** What is written for the unit at `k`. */
  function Piece(s: seq<int>, k: nat): seq<int>
    requires k < |s| && Chars(s)
  {
    if Paired(s, k) then [s[k]] else Single(s[k])
  }

  /** The units from `k` on, as they stand between quotes. */
  function Quoted(s: seq<int>, k: nat): seq<int>
    requires k <= |s| && Chars(s)
    decreases |s| - k
  {
    if k == |s| then [] else Piece(s, k) + Quoted(s, k + 1)
  }

  function QuotedText(t: Text): seq<int> {
    UnitsChars(t);
    Ascii("\"") + Quoted(Units(t), 0) + Ascii("\"")
  }

  lemma UnitsChars(t: Text)
    ensures Chars(Units(t))
  {
  }

  function Number10(n: nat): seq<int> {
    (if n < 10 then [] else Number10(n / 10)) + ['0' as int + n % 10]
  }

  /** The text of a value without `undefined` and with integers only. */
  function Spell(v: Value): seq<int>
    requires CanonicalJsonLaws.Plain(v)
  {
    match v
    case Null => Ascii("null")
    case Bool(b) => Ascii(if b then "true" else "false")
    case Number(num) => if num.n < 0 then Ascii("-") + Number10(-num.n) else Number10(num.n)
    case Str(t) => QuotedText(t)
    case Arr(items) => Ascii("[") + SpellItems(items) + Ascii("]")
    case Obj(es) => Ascii("{") + SpellEntries(es) + Ascii("}")
  }

  function SpellItems(items: Items): seq<int>
    requires CanonicalJsonLaws.PlainItems(items)
  {
    match items
    case NoItems => []
    case Item(head, tail) => Spell(head) + (if tail.NoItems? then [] else Ascii(",") + SpellItems(tail))
  }

  function SpellEntries(es: Entries): seq<int>
    requires CanonicalJsonLaws.PlainEntries(es)
  {
    match es
    case NoEntries => []
    case Entry(k, c, more) =>
      QuotedText(k) + Ascii(":") + Spell(c) + (if more.NoEntries? then [] else Ascii(",") + SpellEntries(more))
  }

  // ---- what is refused ----

  /** Exactly the integers below 2^53 in size are accepted as numbers, negative zero not among them. */
  lemma NumberAccepted(nfc: Nfc, num: Numeral)
    ensures Norm(nfc, Number(num)).Ok? <==> num.Integer? && -0x20_0000_0000_0000 < num.n < 0x20_0000_0000_0000
  {
  }

  /** What every object has from the start. */
  const OBJECT_NAMES: seq<string> := [
    "constructor", "__defineGetter__", "__defineSetter__", "hasOwnProperty", "__lookupGetter__", "__lookupSetter__",
    "isPrototypeOf", "propertyIsEnumerable", "toString", "valueOf", "__proto__", "toLocaleString"
  ]

  lemma {:induction false} AmongIff(names: seq<string>, key: Text)
    ensures AmongNames(names, key) <==> exists k | 0 <= k < |names| :: key == Word(names[k], Nil)
  {
    if names != [] {
      AmongIff(names[1..], key);
      assert forall k | 0 < k < |names| :: names[k] == names[1..][k - 1];
    }
  }

  /** A property is refused as already there exactly when its normalised name is one of those, or an earlier entry
      with a value has it. */
  lemma TakenIff(es: Entries, key: Text)
    ensures Taken(es, key) <==>
              || (exists k | 0 <= k < |OBJECT_NAMES| :: key == Word(OBJECT_NAMES[k], Nil))
              || exists c | c != Undefined :: Get(es, key) == Some(c)
  {
    AmongIff(OBJECT_NAMES, key);
    assert OBJECT_NAMES == INHERITED;
    if Get(es, key).Some? && Get(es, key).value != Undefined {
      assert Get(es, key) == Some(Get(es, key).value);
    }
  }

  // ---- the encoder writes that text ----

  lemma {:induction false} WordUnits(s: string, rest: Text)
    requires forall k | 0 <= k < |s| :: s[k] as int < 0x80
    ensures Units(Word(s, rest)) == Ascii(s) + Units(rest)
  {
    if s == "" {
      assert Ascii(s) == [];
    } else {
      WordUnits(s[1..], rest);
      assert Ascii(s) == [s[0] as int] + Ascii(s[1..]);
    }
  }

  lemma HexIs(d: int)
    requires 0 <= d < 16
    ensures Hex(d) == HexDigit(d)
  {
  }

  lemma SingleUnits(u: Unit, rest: Text)
    ensures Units(EscapeUnit(u, rest)) == Single(u) + Units(rest)
  {
    if Short(u) == 0 && (u < 0x20 || High(u) || Low(u)) { HexUnits(u, rest); }
    else if Short(u) != 0 { assert Units(EscapeUnit(u, rest)) == ['\\' as int, Short(u)] + Units(rest); }
  }

  lemma FourUnits(a: Unit, b: Unit, c: Unit, d: Unit, rest: Text)
    ensures Units(Cons(a, Cons(b, Cons(c, Cons(d, rest))))) == [a as int, b as int, c as int, d as int] + Units(rest)
  {
    var t2 := Cons(c, Cons(d, rest));
    assert Units(t2) == [c as int] + ([d as int] + Units(rest));
    assert Units(Cons(a, Cons(b, t2))) == [a as int] + ([b as int] + Units(t2));
  }

  lemma HexUnits(u: Unit, rest: Text)
    requires Short(u) == 0 && (u < 0x20 || High(u) || Low(u))
    ensures Units(EscapeUnit(u, rest)) == Single(u) + Units(rest)
  {
    var a, b, c, d := u / 4096, u / 256 % 16, u / 16 % 16, u % 16;
    HexIs(a);
    HexIs(b);
    HexIs(c);
    HexIs(d);
    FourUnits(Hex(a), Hex(b), Hex(c), Hex(d), rest);
    var four := Cons(Hex(a), Cons(Hex(b), Cons(Hex(c), Cons(Hex(d), rest))));
    assert Units(Cons(BACKSLASH, Cons(LETTER_U, four))) == Ascii("\\u") + Units(four);
  }

  lemma PairWritten(s: seq<int>, k: nat, next: nat)
    requires next == k + 1 < |s| && Chars(s) && FirstHalf(s[k]) && SecondHalf(s[next])
    ensures Quoted(s, k) == [s[k], s[next]] + Quoted(s, next + 1)
  {
    PairPieces(s, k, next);
    var rest := Quoted(s, next + 1);
    assert Quoted(s, next) == [s[next]] + rest;
    assert [s[k]] + ([s[next]] + rest) == [s[k], s[next]] + rest;
  }

  lemma PairPieces(s: seq<int>, k: nat, next: nat)
    requires next == k + 1 < |s| && Chars(s) && FirstHalf(s[k]) && SecondHalf(s[next])
    ensures Piece(s, k) == [s[k]] && Piece(s, next) == [s[next]]
  {
  }

  lemma PairEscaped(u: Unit, w: Unit, t: Text, rest: Text)
    requires High(u) && Low(w)
    ensures Units(Escape(Cons(u, Cons(w, t)), rest)) == [u as int, w as int] + Units(Escape(t, rest))
  {
    var all := Cons(u, Cons(w, t));
    assert Escape(all, rest) == Cons(u, Cons(w, Escape(t, rest)));
    assert Units(Cons(w, Escape(t, rest))) == [w as int] + Units(Escape(t, rest));
  }

  lemma SingleEscaped(u: Unit, t: Text, rest: Text)
    requires !(High(u) && t.Cons? && Low(t.unit))
    ensures Units(Escape(Cons(u, t), rest)) == Single(u) + Units(Escape(t, rest))
  {
    SingleUnits(u, Escape(t, rest));
  }

  /** `t` is what is left of the string from place `k` on. */
  predicate From(s: seq<int>, k: nat, t: Text) { k <= |s| && s[k..] == Units(t) }

  lemma FromNext(s: seq<int>, k: nat, t: Text)
    requires From(s, k, t) && t.Cons?
    ensures k < |s| && s[k] == t.unit && From(s, k + 1, t.rest)
  {
    assert s[k..][1..] == s[k + 1..];
  }

  lemma SingleUnpaired(s: seq<int>, k: nat, t: Text)
    requires k < |s| && Chars(s) && From(s, k + 1, t) && !(FirstHalf(s[k]) && t.Cons? && SecondHalf(t.unit))
    requires k > 0 ==> !(FirstHalf(s[k - 1]) && SecondHalf(s[k]))
    ensures Piece(s, k) == Single(s[k]) && (k + 1 < |s| ==> !(FirstHalf(s[k]) && SecondHalf(s[k + 1])))
  {
    if k + 1 < |s| { assert s[k + 1] == Units(t)[0]; }
  }

  /** The place does not split a pair. */
  lemma {:induction false} QuotedUnits(s: seq<int>, k: nat, t: Text, rest: Text)
    requires Chars(s) && From(s, k, t)
    requires k < |s| && k > 0 ==> !(FirstHalf(s[k - 1]) && SecondHalf(s[k]))
    ensures Units(Escape(t, rest)) == Quoted(s, k) + Units(rest)
    decreases |s| - k
  {
    if t.Cons? {
      var u, t1 := t.unit, t.rest;
      FromNext(s, k, t);
      if High(u) && t1.Cons? && Low(t1.unit) {
        var next := k + 1;
        FromNext(s, next, t1);
        QuotedUnits(s, next + 1, t1.rest, rest);
        PairWritten(s, k, next);
        PairEscaped(u, t1.unit, t1.rest, rest);
        Prefixed([s[k], s[next]], Quoted(s, next + 1), Units(rest));
      } else {
        SingleUnpaired(s, k, t1);
        QuotedUnits(s, k + 1, t1, rest);
        SingleEscaped(u, t1, rest);
        Prefixed(Single(s[k]), Quoted(s, k + 1), Units(rest));
      }
    }
  }

  lemma Prefixed(a: seq<int>, b: seq<int>, c: seq<int>)
    ensures a + (b + c) == a + b + c
  {
  }

  lemma QuoteUnits(t: Text, rest: Text)
    ensures Units(Quote(t, rest)) == QuotedText(t) + Units(rest)
  {
    UnitsChars(t);
    QuotedUnits(Units(t), 0, t, Cons(QUOTE, rest));
  }

  lemma {:induction false} DigitsUnits(n: nat, rest: Text)
    ensures Units(Digits(n, rest)) == Number10(n) + Units(rest)
  {
    if n >= 10 { DigitsUnits(n / 10, Cons(ZERO + n % 10, rest)); }
  }

  lemma LeafSpelled(v: Value, rest: Text)
    requires CanonicalJsonLaws.Plain(v) && !v.Arr? && !v.Obj?
    ensures Units(Emit(v, rest)) == Spell(v) + Units(rest)
  {
    match v
    case Null => WordUnits("null", rest);
    case Bool(b) => WordUnits(if b then "true" else "false", rest);
    case Number(num) => DigitsUnits(if num.n < 0 then -num.n else num.n, rest);
    case Str(t) => QuoteUnits(t, rest);
  }

  lemma Bracketed(open: Unit, all: Text, inner: seq<int>, close: Unit, rest: Text)
    requires Units(all) == inner + Units(Cons(close, rest))
    ensures Units(Cons(open, all)) == [open as int] + inner + [close as int] + Units(rest)
  {
  }

  lemma Brackets()
    ensures Ascii("[") == [OPEN_LIST as int] && Ascii("]") == [CLOSE_LIST as int]
    ensures Ascii("{") == [OPEN_OBJECT as int] && Ascii("}") == [CLOSE_OBJECT as int]
    ensures Ascii(",") == [COMMA as int] && Ascii(":") == [COLON as int]
  {
  }

  lemma {:induction false} Spelled(v: Value, rest: Text)
    requires CanonicalJsonLaws.Plain(v)
    ensures Units(Emit(v, rest)) == Spell(v) + Units(rest)
    decreases v, 1
  {
    if v.Arr? { ArrSpelled(v, rest); }
    else if v.Obj? { ObjSpelled(v, rest); }
    else { LeafSpelled(v, rest); }
  }

  lemma {:induction false} ArrSpelled(v: Value, rest: Text)
    requires CanonicalJsonLaws.Plain(v) && v.Arr?
    ensures Units(Emit(v, rest)) == Spell(v) + Units(rest)
    decreases v, 0
  {
    var inner, close := SpellItems(v.items), Cons(CLOSE_LIST, rest);
    Brackets();
    ItemsSpelled(v.items, close);
    Bracketed(OPEN_LIST, EmitItems(v.items, close), inner, CLOSE_LIST, rest);
  }

  lemma {:induction false} ObjSpelled(v: Value, rest: Text)
    requires CanonicalJsonLaws.Plain(v) && v.Obj?
    ensures Units(Emit(v, rest)) == Spell(v) + Units(rest)
    decreases v, 0
  {
    var inner, close := SpellEntries(v.entries), Cons(CLOSE_OBJECT, rest);
    Brackets();
    EntriesSpelled(v.entries, close);
    Bracketed(OPEN_OBJECT, EmitEntries(v.entries, close), inner, CLOSE_OBJECT, rest);
  }

  /** A comma and what follows it, or nothing. */
  lemma Continued(last: bool, more: Text, spelled: seq<int>, rest: Text)
    requires !last ==> Units(more) == spelled + Units(rest)
    ensures Units(if last then rest else Cons(COMMA, more)) == (if last then [] else Ascii(",") + spelled) + Units(rest)
  {
    Brackets();
  }

  lemma {:induction false} ItemsSpelled(items: Items, rest: Text)
    requires CanonicalJsonLaws.PlainItems(items)
    ensures Units(EmitItems(items, rest)) == SpellItems(items) + Units(rest)
    decreases items
  {
    if items.Item? {
      var more, spelled := EmitItems(items.tail, rest), SpellItems(items.tail);
      ItemsSpelled(items.tail, rest);
      Continued(items.tail.NoItems?, more, spelled, rest);
      Spelled(items.head, if items.tail.NoItems? then rest else Cons(COMMA, more));
      Prefixed(Spell(items.head), if items.tail.NoItems? then [] else Ascii(",") + spelled, Units(rest));
    }
  }

  /** An entry whose child has the text `child`, that text being `spelled` and then `more`. */
  lemma EntrySpelled(k: Text, child: Text, spelled: seq<int>, more: seq<int>, rest: seq<int>)
    requires Units(child) == spelled + (more + rest)
    ensures Units(Quote(k, Cons(COLON, child))) == QuotedText(k) + Ascii(":") + spelled + more + rest
  {
    var key := QuotedText(k);
    Brackets();
    QuoteUnits(k, Cons(COLON, child));
    assert Units(Cons(COLON, child)) == Ascii(":") + (spelled + (more + rest));
    Regroup(key, Ascii(":"), spelled, more, rest);
  }

  lemma Regroup(a: seq<int>, b: seq<int>, c: seq<int>, d: seq<int>, rest: seq<int>)
    ensures a + (b + (c + (d + rest))) == a + b + c + d + rest
  {
  }

  lemma {:induction false} EntriesSpelled(es: Entries, rest: Text)
    requires CanonicalJsonLaws.PlainEntries(es)
    ensures Units(EmitEntries(es, rest)) == SpellEntries(es) + Units(rest)
    decreases es
  {
    if es.Entry? {
      var last, more, spelled := es.more.NoEntries?, EmitEntries(es.more, rest), SpellEntries(es.more);
      var behind := if last then rest else Cons(COMMA, more);
      EntriesSpelled(es.more, rest);
      Continued(last, more, spelled, rest);
      Spelled(es.child, behind);
      EntrySpelled(es.key, Emit(es.child, behind), Spell(es.child), if last then [] else Ascii(",") + spelled,
                   Units(rest));
    }
  }

  /** The canonical text of an accepted value is the spelling of its normal form, whose objects are sorted. */
  lemma CanonicalIs(nfc: Nfc, v: Value)
    requires Norm(nfc, v).Ok?
    ensures var n := Norm(nfc, v).value;
      && Sorted(n) && CanonicalJsonLaws.Plain(n) && CanonicalText(nfc, v).Ok?
      && Units(CanonicalText(nfc, v).value) == Spell(n)
  {
    NormSorted(nfc, v);
    Spelled(Norm(nfc, v).value, Nil);
  }
}
