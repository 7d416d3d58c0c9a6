/** `canonicalize` as it runs: a recursive method that fills a local object in a loop and joins the texts of the
    parts. */
module Canonicalizer {
  import opened CanonicalJson

  // ---- texts are built left to right ----

  lemma EscapeUnitJoin(u: Unit, a: Text, b: Text)
    ensures EscapeUnit(u, Join(a, b)) == Join(EscapeUnit(u, a), b)
  {
    if Short(u) == 0 && (u < 0x20 || High(u) || Low(u)) {
      var t1 := Cons(Hex(u % 16), a);
      var t2 := Cons(Hex(u / 16 % 16), t1);
      var t3 := Cons(Hex(u / 256 % 16), t2);
      var t4 := Cons(Hex(u / 4096), t3);
      assert Join(t1, b) == Cons(Hex(u % 16), Join(a, b));
      assert Join(t2, b) == Cons(Hex(u / 16 % 16), Join(t1, b));
      assert Join(t3, b) == Cons(Hex(u / 256 % 16), Join(t2, b));
      assert Join(t4, b) == Cons(Hex(u / 4096), Join(t3, b));
    }
  }

  lemma {:induction false} EscapeJoin(s: Text, a: Text, b: Text)
    ensures Escape(s, Join(a, b)) == Join(Escape(s, a), b)
  {
    match s
    case Nil =>
    case Cons(u, s') =>
      if High(u) && s'.Cons? && Low(s'.unit) {
        EscapeJoin(s'.rest, a, b);
      } else {
        EscapeJoin(s', a, b);
        EscapeUnitJoin(u, Escape(s', a), b);
      }
  }

  lemma QuoteJoin(s: Text, a: Text, b: Text)
    ensures Quote(s, Join(a, b)) == Join(Quote(s, a), b)
  {
    EscapeJoin(s, Cons(QUOTE, a), b);
  }

  lemma {:induction false} DigitsJoin(n: nat, a: Text, b: Text)
    ensures Digits(n, Join(a, b)) == Join(Digits(n, a), b)
  {
    if n >= 10 { DigitsJoin(n / 10, Cons(ZERO + n % 10, a), b); }
  }

  lemma {:induction false} WordJoin(s: string, a: Text, b: Text)
    ensures Word(s, Join(a, b)) == Join(Word(s, a), b)
  {
    if s != "" { WordJoin(s[1..], a, b); }
  }

  lemma LeafJoin(v: Value, a: Text, b: Text)
    requires !v.Arr? && !v.Obj?
    ensures Emit(v, Join(a, b)) == Join(Emit(v, a), b)
  {
    if v.Null? { WordJoin("null", a, b); }
    else if v.Bool? { WordJoin(if v.b then "true" else "false", a, b); }
    else if v.Str? { QuoteJoin(v.s, a, b); }
    else if v.Number? && v.num.Integer? { DigitsJoin(if v.num.n < 0 then -v.num.n else v.num.n, a, b); }
  }

  lemma {:induction false} EmitJoin(v: Value, a: Text, b: Text)
    ensures Emit(v, Join(a, b)) == Join(Emit(v, a), b)
    decreases v, 0
  {
    if v.Arr? { EmitItemsJoin(v.items, Cons(CLOSE_LIST, a), b); }
    else if v.Obj? { EmitEntriesJoin(v.entries, Cons(CLOSE_OBJECT, a), b); }
    else { LeafJoin(v, a, b); }
  }

  lemma {:induction false} EmitItemsJoin(items: Items, a: Text, b: Text)
    ensures EmitItems(items, Join(a, b)) == Join(EmitItems(items, a), b)
    decreases items
  {
    if items.Item? {
      EmitItemsJoin(items.tail, a, b);
      EmitJoin(items.head, if items.tail.NoItems? then a else Cons(COMMA, EmitItems(items.tail, a)), b);
    }
  }

  /** The text of one entry. */
  function EmitEntry(key: Text, child: Value, rest: Text): Text {
    Quote(key, Cons(COLON, Emit(child, rest)))
  }

  lemma EmitEntryJoin(key: Text, child: Value, a: Text, b: Text)
    ensures EmitEntry(key, child, Join(a, b)) == Join(EmitEntry(key, child, a), b)
    decreases child, 1
  {
    EmitJoin(child, a, b);
    QuoteJoin(key, Cons(COLON, Emit(child, a)), b);
  }

  lemma {:induction false} EmitEntriesJoin(es: Entries, a: Text, b: Text)
    ensures EmitEntries(es, Join(a, b)) == Join(EmitEntries(es, a), b)
    decreases es
  {
    if es.Entry? {
      EmitEntriesJoin(es.more, a, b);
      EmitEntryJoin(es.key, es.child, if es.more.NoEntries? then a else Cons(COMMA, EmitEntries(es.more, a)), b);
    }
  }

  lemma {:induction false} JoinNil(a: Text)
    ensures Join(a, Nil) == a
  {
    if a.Cons? { JoinNil(a.rest); }
  }

  lemma {:induction false} JoinAssociative(a: Text, b: Text, c: Text)
    ensures Join(Join(a, b), c) == Join(a, Join(b, c))
  {
    if a.Cons? { JoinAssociative(a.rest, b, c); }
  }

  /** What is left to write after `out`: a comma first, unless nothing is written yet. */
  function Onward(out: Text, some: bool, rest: Text): Text {
    Join(out, if some then Cons(COMMA, rest) else rest)
  }

  lemma OnwardStep(out: Text, some: bool, part: Text, more: Text)
    ensures Onward(out, some, Join(part, Cons(COMMA, more))) == Onward(Onward(out, some, part), true, more)
    ensures Onward(out, some, Join(part, Nil)) == Onward(out, some, part)
  {
    JoinNil(part);
    JoinAssociative(out, if some then Cons(COMMA, part) else part, Cons(COMMA, more));
  }

  /** The text of `items` is what is written, then the text of the items still to come. */
  ghost predicate ItemsWritten(nfc: Nfc, items: Items, out: Text, some: bool, todo: Items) {
    match NormItems(nfc, todo)
    case TypeError => NormItems(nfc, items).TypeError?
    case Ok(n) =>
      && NormItems(nfc, items).Ok?
      && EmitItems(NormItems(nfc, items).value, Nil) == if n.NoItems? then out else Onward(out, some, EmitItems(n, Nil))
  }

  lemma ItemWritten(nfc: Nfc, items: Items, out: Text, some: bool, todo: Items)
    requires todo.Item? && Norm(nfc, todo.head).Ok? && ItemsWritten(nfc, items, out, some, todo)
    ensures ItemsWritten(nfc, items, Onward(out, some, Emit(Norm(nfc, todo.head).value, Nil)), true, todo.tail)
  {
    if NormItems(nfc, todo.tail).Ok? {
      var head, tail := Norm(nfc, todo.head).value, NormItems(nfc, todo.tail).value;
      assert NormItems(nfc, todo) == Ok(Item(head, tail));
      OnwardStep(out, some, Emit(head, Nil), EmitItems(tail, Nil));
      EmitJoin(head, Nil, Cons(COMMA, EmitItems(tail, Nil)));
    }
  }

  ghost predicate EntriesWritten(nfc: Nfc, es: Entries, out: Text, some: bool, todo: Entries) {
    match NormEntries(nfc, todo)
    case TypeError => NormEntries(nfc, es).TypeError?
    case Ok(n) =>
      && NormEntries(nfc, es).Ok?
      && EmitEntries(NormEntries(nfc, es).value, Nil) ==
           if n.NoEntries? then out else Onward(out, some, EmitEntries(n, Nil))
  }

  lemma EntryWritten(nfc: Nfc, es: Entries, out: Text, some: bool, todo: Entries)
    requires todo.Entry? && Norm(nfc, todo.child).Ok? && EntriesWritten(nfc, es, out, some, todo)
    ensures var part := EmitEntry(todo.key, Norm(nfc, todo.child).value, Nil);
            EntriesWritten(nfc, es, Onward(out, some, part), true, todo.more)
  {
    if NormEntries(nfc, todo.more).Ok? {
      var child, more := Norm(nfc, todo.child).value, NormEntries(nfc, todo.more).value;
      assert NormEntries(nfc, todo) == Ok(Entry(todo.key, child, more));
      OnwardStep(out, some, EmitEntry(todo.key, child, Nil), EmitEntries(more, Nil));
      EmitEntryJoin(todo.key, child, Nil, Cons(COMMA, EmitEntries(more, Nil)));
    }
  }

  /** The loop that fills `normalized`; the entries are kept in key order, as the sort after the loop leaves them. */
  method Collected(nfc: Nfc, es: Entries) returns (r: Result<Entries>)
    ensures r == Collect(nfc, es)
  {
    var normalized, todo := NoEntries, es;
    while todo.Entry?
      invariant Fill(nfc, es, NoEntries) == Fill(nfc, todo, normalized)
      decreases todo
    {
      var kf := nfc(todo.key);
      if Taken(normalized, kf) { return TypeError; }
      normalized := Put(normalized, kf, todo.child);
      todo := todo.more;
    }
    return Ok(normalized);
  }

  method CanonicalizeItems(nfc: Nfc, items: Items) returns (r: Result<Text>)
    ensures r == var n :- NormItems(nfc, items); Ok(EmitItems(n, Nil))
    decreases WeightItems(items), 1
  {
    var out, todo := Nil, items;
    while todo.Item?
      invariant WeightItems(todo) <= WeightItems(items)
      invariant ItemsWritten(nfc, items, out, todo != items, todo)
      decreases todo
    {
      var t := Canonicalize(nfc, todo.head);
      if t.TypeError? { return TypeError; }
      ItemWritten(nfc, items, out, todo != items, todo);
      out := Onward(out, todo != items, t.value);
      todo := todo.tail;
    }
    return Ok(out);
  }

  method CanonicalizeEntries(nfc: Nfc, es: Entries) returns (r: Result<Text>)
    ensures r == var n :- NormEntries(nfc, es); Ok(EmitEntries(n, Nil))
    decreases WeightEntries(es), 1
  {
    var out, todo := Nil, es;
    while todo.Entry?
      invariant WeightEntries(todo) <= WeightEntries(es)
      invariant EntriesWritten(nfc, es, out, todo != es, todo)
      decreases todo
    {
      var t := Canonicalize(nfc, todo.child);
      if t.TypeError? { return TypeError; }
      EntryWritten(nfc, es, out, todo != es, todo);
      out := Onward(out, todo != es, Quote(todo.key, Cons(COLON, t.value)));
      todo := todo.more;
    }
    return Ok(out);
  }

  method Canonicalize(nfc: Nfc, v: Value) returns (r: Result<Text>)
    ensures r == CanonicalText(nfc, v)
    decreases Weight(v), 0
  {
    match v
    case Arr(items) =>
      var parts := CanonicalizeItems(nfc, items);
      if parts.TypeError? { return TypeError; }
      EmitItemsJoin(NormItems(nfc, items).value, Nil, Cons(CLOSE_LIST, Nil));
      return Ok(Cons(OPEN_LIST, Join(parts.value, Cons(CLOSE_LIST, Nil))));
    case Obj(es) =>
      var normalized := Collected(nfc, es);
      if normalized.TypeError? { return TypeError; }
      var parts := CanonicalizeEntries(nfc, normalized.value);
      if parts.TypeError? { return TypeError; }
      EmitEntriesJoin(NormEntries(nfc, normalized.value).value, Nil, Cons(CLOSE_OBJECT, Nil));
      return Ok(Cons(OPEN_OBJECT, Join(parts.value, Cons(CLOSE_OBJECT, Nil))));
    case Null => return Ok(Word("null", Nil));
    case Bool(b) => return Ok(if b then Word("true", Nil) else Word("false", Nil));
    case Str(s) => return Ok(Quote(nfc(s), Nil));
    case Number(num) =>
      if !num.Integer? || num.n < -MAX_SAFE || num.n > MAX_SAFE { return TypeError; }
      return Ok(Decimal(num.n, Nil));
    case Undefined => return TypeError;
    case Unsupported => return TypeError;
  }
}
