/** Which operators bind tighter.  The ladder below lists the infix operators by hand, loosest first; the laws say what
    tree the parser builds for a chain of operands by looking at the ladder only, never at the parser's own levels. */
module Precedence {
  import opened Ast
  import opened Grammar
  import opened Printer
  import RoundTrip

  /** `|>`; `||`; `&&`; `==` and `!=`; the comparisons; `+` and `-`; `*`, `/` and `%`. */
  const LADDER: seq<set<Symbol>> := [
    {PipeOp},
    {Operator(Or)},
    {Operator(And)},
    {Operator(Eq), Operator(Ne)},
    {Operator(Gt), Operator(Lt), Operator(Ge), Operator(Le)},
    {Operator(Add), Operator(Sub)},
    {Operator(Mul), Operator(Div), Operator(Mod)}
  ]

  predicate Infix(s: Symbol) { s == PipeOp || s.Operator? }

  /** The first rung from `i` on that a symbol stands on; past the ladder when there is none. */
  function RungFrom(s: Symbol, i: nat): nat
    decreases |LADDER| - i
  {
    if i >= |LADDER| || s in LADDER[i] then i else RungFrom(s, i + 1)
  }

  function Rung(s: Symbol): nat { RungFrom(s, 0) }

  /** `a` stands on a later rung than `b`. */
  predicate Tighter(a: Symbol, b: Symbol) {
    exists i, j | 0 <= i < j < |LADDER| :: b in LADDER[i] && a in LADDER[j]
  }

  /** Every infix operator stands on exactly one rung, and the parser's level for it is that rung. */
  lemma RungIsLevel(s: Symbol)
    ensures Infix(s) <==> LevelOf(Sym(s)) > 0
    ensures Infix(s) ==> LevelOf(Sym(s)) == Rung(s) + 1
    ensures Infix(s) <==> exists i | 0 <= i < |LADDER| :: s in LADDER[i]
    ensures forall i | 0 <= i < |LADDER| :: s in LADDER[i] <==> Rung(s) == i
  {
    LevelOnLadder(s);
    RungFound(s, 0, LevelOf(Sym(s)));
  }

  lemma LevelOnRung(s: Symbol, i: nat)
    requires i < |LADDER|
    ensures s in LADDER[i] <==> LevelOf(Sym(s)) == i + 1
  {
  }

  lemma LevelOnLadder(s: Symbol)
    ensures LevelOf(Sym(s)) <= |LADDER|
    ensures Infix(s) <==> LevelOf(Sym(s)) > 0
    ensures forall i | 0 <= i < |LADDER| :: s in LADDER[i] <==> LevelOf(Sym(s)) == i + 1
  {
    forall i | 0 <= i < |LADDER|
      ensures s in LADDER[i] <==> LevelOf(Sym(s)) == i + 1
    {
      LevelOnRung(s, i);
    }
  }

  lemma {:induction false} RungFound(s: Symbol, i: nat, level: nat)
    requires i <= |LADDER| && forall j | 0 <= j < |LADDER| :: s in LADDER[j] <==> level == j + 1
    requires 0 < level ==> i < level
    ensures level == 0 ==> RungFrom(s, i) == |LADDER|
    ensures 0 < level <= |LADDER| ==> RungFrom(s, i) == level - 1
    decreases |LADDER| - i
  {
    if i < |LADDER| && s !in LADDER[i] { RungFound(s, i + 1, level); }
  }

  lemma TighterIff(a: Symbol, b: Symbol)
    requires Infix(a) && Infix(b)
    ensures Tighter(a, b) <==> Rung(b) < Rung(a)
  {
    RungIsLevel(a);
    RungIsLevel(b);
    if Rung(b) < Rung(a) { assert b in LADDER[Rung(b)] && a in LADDER[Rung(a)]; }
  }

  function Build(s: Symbol, left: Expr, right: Expr): Expr
    requires Infix(s)
  {
    if s == PipeOp then Pipe(left, right) else BinOp(s.op, left, right)
  }

  // ---- chains of operands ----

  /** An operand: the text it begins, its tree, and the text behind it. */
  datatype Operand = Operand(text: Text, value: Expr, rest: Text)

  /** The operand is what the parser reads at the unary level. */
  predicate IsRead(o: Operand) { ParseUnary(o.text) == Ok(o.value, o.rest) }

  predicate AllRead(xs: seq<Operand>) { forall k | 0 <= k < |xs| :: IsRead(xs[k]) }

  predicate AllInfix(ops: seq<Symbol>) { forall k | 0 <= k < |ops| :: Infix(ops[k]) }

  /** Behind each operand stands its operator and then the next operand, behind the last one `end`. */
  predicate Linked(xs: seq<Operand>, ops: seq<Symbol>, end: Text) {
    && |xs| == |ops| + 1
    && (forall k | 0 <= k < |ops| :: xs[k].rest == Put(ops[k], xs[k + 1].text))
    && xs[|ops|].rest == end
  }

  /** `x op x op ... x end`. */
  predicate Spells(xs: seq<Operand>, ops: seq<Symbol>, end: Text) {
    AllRead(xs) && AllInfix(ops) && Linked(xs, ops, end)
  }

  /** The last of the loosest operators of a chain. */
  function Split(ops: seq<Symbol>): (k: nat)
    requires ops != []
    ensures k < |ops|
    ensures forall j | 0 <= j < |ops| :: Rung(ops[k]) <= Rung(ops[j])
    ensures forall j | k < j < |ops| :: Rung(ops[k]) < Rung(ops[j])
  {
    var n := |ops| - 1;
    if n == 0 then 0
    else
      var k := Split(ops[..n]);
      if Rung(ops[k]) < Rung(ops[n]) then k else n
  }

  /** The tree of a chain: the last of its loosest operators over the trees of both sides. */
  function Group(xs: seq<Operand>, ops: seq<Symbol>): Expr
    requires |xs| == |ops| + 1 && AllInfix(ops)
    decreases |ops|
  {
    if ops == [] then xs[0].value
    else
      var k := Split(ops);
      Build(ops[k], Group(xs[..k + 1], ops[..k]), Group(xs[k + 1..], ops[k + 1..]))
  }

  /** No infix operator comes next. */
  predicate Over(ts: Text) { !(ts.More? && ts.head.Sym? && Infix(ts.head.sym)) }

  /** `ts` is a chain of operands and infix operators that ends at `rest`, and `e` its tree. */
  predicate Reads(ts: Text, e: Expr, rest: Text, xs: seq<Operand>, ops: seq<Symbol>) {
    Spells(xs, ops, rest) && xs[0].text == ts && Over(rest) && e == Group(xs, ops)
  }

  // ---- the parser builds that tree ----

  /** Reading an operand of level `k` leaves that routine, or its loop, with `e` in front of `ts`. */
  predicate Left(k: nat, all: Text, e: Expr, ts: Text)
    requires PIPE <= k <= UNARY
  {
    ParseBinary(k, all) == if k == UNARY then Ok(e, ts) else BinaryLoop(k, e, ts)
  }

  /** An operand of level `k` is read whole. */
  predicate Whole(k: nat, all: Text, e: Expr, ts: Text)
    requires PIPE <= k <= UNARY
  {
    ParseBinary(k, all) == Ok(e, ts)
  }

  predicate AtLeast(ops: seq<Symbol>, k: nat) {
    forall j | 0 <= j < |ops| :: Rung(ops[j]) + 1 >= k
  }

  /** No operator above level `k` comes next. */
  predicate AtMost(ts: Text, k: nat) { ts.More? ==> LevelOf(ts.head) <= k }

  lemma LinkedLeft(xs: seq<Operand>, ops: seq<Symbol>, end: Text, k: nat)
    requires Linked(xs, ops, end) && k < |ops|
    ensures Linked(xs[..k + 1], ops[..k], Put(ops[k], xs[k + 1].text))
  {
  }

  lemma LinkedRight(xs: seq<Operand>, ops: seq<Symbol>, end: Text, k: nat)
    requires Linked(xs, ops, end) && k < |ops|
    ensures Linked(xs[k + 1..], ops[k + 1..], end)
  {
  }

  lemma LoopStops(k: nat, next: nat, all: Text, e: Expr, ts: Text)
    requires PIPE <= k < UNARY && next == k + 1 && Left(next, all, e, ts) && AtMost(ts, k)
    ensures Whole(next, all, e, ts)
  {
  }

  /** One level down, where no operator of level `k` is in the chain. */
  lemma StepDown(k: nat, next: nat, all: Text, e: Expr, ts: Text)
    requires PIPE <= k < UNARY && next == k + 1 && Left(next, all, e, ts) && AtMost(ts, k)
    ensures Left(k, all, e, ts)
  {
    LoopStops(k, next, all, e, ts);
  }

  lemma LoopTakes(k: nat, next: nat, all: Text, e: Expr, s: Symbol, right: Text, f: Expr, ts: Text)
    requires PIPE <= k < UNARY && Infix(s) && LevelOf(Sym(s)) == k
    requires next == k + 1 && Left(k, all, e, Put(s, right)) && Whole(next, right, f, ts)
    ensures Left(k, all, Build(s, e, f), ts)
  {
  }

  lemma SplitLevel(ops: seq<Symbol>, k: nat)
    requires AllInfix(ops) && AtLeast(ops, k) && !AtLeast(ops, k + 1)
    ensures ops != [] && LevelOf(Sym(ops[Split(ops)])) == k
  {
    var j :| 0 <= j < |ops| && !(Rung(ops[j]) + 1 >= k + 1);
    RungIsLevel(ops[Split(ops)]);
  }

  lemma AboveSplit(ops: seq<Symbol>, p: nat, k: nat)
    requires AllInfix(ops) && ops != [] && p == Split(ops) && LevelOf(Sym(ops[p])) == k
    ensures AtLeast(ops[p + 1..], k + 1)
  {
    RungIsLevel(ops[p]);
  }

  lemma UnaryOnly(xs: seq<Operand>, ops: seq<Symbol>, end: Text)
    requires Spells(xs, ops, end) && AtLeast(ops, UNARY)
    ensures ops == [] && ParseBinary(UNARY, xs[0].text) == Ok(Group(xs, ops), end)
  {
    if ops != [] { RungIsLevel(ops[0]); }
    assert IsRead(xs[0]);
  }

  lemma {:induction false} ChainRead(k: nat, xs: seq<Operand>, ops: seq<Symbol>, end: Text, e: Expr)
    requires PIPE <= k <= UNARY && Spells(xs, ops, end) && AtLeast(ops, k) && AtMost(end, k) && e == Group(xs, ops)
    ensures Left(k, xs[0].text, e, end)
    decreases |ops|, UNARY - k, 2
  {
    if k == UNARY {
      UnaryOnly(xs, ops, end);
    } else if AtLeast(ops, k + 1) {
      var next := k + 1;
      ChainRead(next, xs, ops, end, e);
      StepDown(k, next, xs[0].text, e, end);
    } else {
      SplitLevel(ops, k);
      ChainSplit(k, xs, ops, end, Split(ops), e);
    }
  }

  lemma {:induction false} ChainSplit(k: nat, xs: seq<Operand>, ops: seq<Symbol>, end: Text, p: nat, e: Expr)
    requires PIPE <= k < UNARY && Spells(xs, ops, end) && AtLeast(ops, k) && AtMost(end, k) && e == Group(xs, ops)
    requires ops != [] && p == Split(ops) && LevelOf(Sym(ops[p])) == k
    ensures Left(k, xs[0].text, e, end)
    decreases |ops|, UNARY - k, 1
  {
    var left, right := Group(xs[..p + 1], ops[..p]), Group(xs[p + 1..], ops[p + 1..]);
    var next, s, behind := k + 1, ops[p], xs[p + 1].text;
    assert e == Build(s, left, right);
    ChainLeft(k, xs, ops, end, p, left);
    ChainRight(k, next, xs, ops, end, p, right);
    LoopTakes(k, next, xs[0].text, left, s, behind, right, end);
  }

  lemma {:induction false} ChainLeft(k: nat, xs: seq<Operand>, ops: seq<Symbol>, end: Text, p: nat, e: Expr)
    requires PIPE <= k < UNARY && Spells(xs, ops, end) && AtLeast(ops, k)
    requires p < |ops| && LevelOf(Sym(ops[p])) == k && e == Group(xs[..p + 1], ops[..p])
    ensures Left(k, xs[0].text, e, Put(ops[p], xs[p + 1].text))
    decreases |ops|, UNARY - k, 0
  {
    LinkedLeft(xs, ops, end, p);
    ChainRead(k, xs[..p + 1], ops[..p], Put(ops[p], xs[p + 1].text), e);
  }

  lemma {:induction false} ChainRight(k: nat, next: nat, xs: seq<Operand>, ops: seq<Symbol>, end: Text, p: nat, e: Expr)
    requires PIPE <= k < UNARY && next == k + 1 && Spells(xs, ops, end) && AtMost(end, k)
    requires ops != [] && p == Split(ops) && LevelOf(Sym(ops[p])) == k && e == Group(xs[p + 1..], ops[p + 1..])
    ensures Whole(next, xs[p + 1].text, e, end)
    decreases |ops|, UNARY - k, 0
  {
    LinkedRight(xs, ops, end, p);
    AboveSplit(ops, p, k);
    ChainRead(next, xs[p + 1..], ops[p + 1..], end, e);
    LoopStops(k, next, xs[p + 1].text, e, end);
  }

  // ---- and every tree it builds is one ----

  lemma LinkedBoth(xs: seq<Operand>, ops: seq<Symbol>, s: Symbol, ys: seq<Operand>, os: seq<Symbol>, end: Text)
    requires Linked(ys, os, end) && Linked(xs, ops, Put(s, ys[0].text))
    ensures Linked(xs + ys, ops + [s] + os, end)
  {
  }

  /** `ts` spells a chain of operators of level `k` and above, up to `end`, where no such operator comes. */
  predicate Chain(k: nat, ts: Text, xs: seq<Operand>, ops: seq<Symbol>, end: Text) {
    Spells(xs, ops, end) && xs[0].text == ts && AtLeast(ops, k) && (end.More? ==> !(LevelOf(end.head) >= k))
  }

  lemma {:induction false} Chained(k: nat, ts: Text) returns (xs: seq<Operand>, ops: seq<Symbol>)
    requires PIPE <= k <= UNARY && ParseBinary(k, ts).Ok?
    ensures Chain(k, ts, xs, ops, ParseBinary(k, ts).rest)
    decreases Len(ts), UNARY - k
  {
    if k == UNARY {
      var r := ParseUnary(ts);
      xs, ops := [Operand(ts, r.value, r.rest)], [];
    } else {
      var left := ParseBinary(k + 1, ts);
      xs, ops := Chained(k + 1, ts);
      xs, ops := LoopChained(k, ts, left.value, left.rest, xs, ops);
    }
  }

  lemma {:induction false} LoopChained(k: nat, ts: Text, left: Expr, rest: Text, xs: seq<Operand>, ops: seq<Symbol>)
    returns (ys: seq<Operand>, os: seq<Symbol>)
    requires PIPE <= k < UNARY && BinaryLoop(k, left, rest).Ok? && Len(rest) < Len(ts)
    requires Spells(xs, ops, rest) && xs[0].text == ts && AtLeast(ops, k) && AtMost(rest, k)
    ensures Chain(k, ts, ys, os, BinaryLoop(k, left, rest).rest)
    decreases Len(rest), UNARY - k
  {
    if rest.More? && LevelOf(rest.head) == k {
      var s := rest.head.sym;
      var right := ParseBinary(k + 1, rest.tail);
      ys, os := Chained(k + 1, rest.tail);
      Joined(k, xs, ops, s, ys, os, rest, right.rest);
      ys, os := LoopChained(k, ts, Join(rest.head, left, right.value), right.rest, xs + ys, ops + [s] + os);
    } else {
      ys, os := xs, ops;
    }
  }

  lemma Joined(k: nat, xs: seq<Operand>, ops: seq<Symbol>, s: Symbol, ys: seq<Operand>, os: seq<Symbol>, rest: Text,
               end: Text)
    requires Spells(xs, ops, rest) && AtLeast(ops, k) && rest.More? && rest.head == Sym(s) && LevelOf(Sym(s)) == k > 0
    requires Chain(k + 1, rest.tail, ys, os, end)
    ensures Spells(xs + ys, ops + [s] + os, end) && AtLeast(ops + [s] + os, k) && AtMost(end, k)
  {
    RungIsLevel(s);
    LinkedBoth(xs, ops, s, ys, os, end);
  }

  // ---- the laws ----

  lemma OverIff(ts: Text)
    ensures Over(ts) <==> AtMost(ts, 0)
  {
    if ts.More? && ts.head.Sym? { RungIsLevel(ts.head.sym); }
  }

  lemma ChainGroups(ts: Text, e: Expr, rest: Text, xs: seq<Operand>, ops: seq<Symbol>)
    requires Reads(ts, e, rest, xs, ops)
    ensures ParseExpression(ts) == Ok(e, rest)
  {
    OverIff(rest);
    ChainRead(PIPE, xs, ops, rest, e);
  }

  /** The expression parser accepts exactly the chains of operands and infix operators, up to where no operator comes,
      and returns the tree in which the last of the loosest operators is the root of every part of the chain. */
  lemma ParsesExactly(ts: Text, e: Expr, rest: Text)
    ensures ParseExpression(ts) == Ok(e, rest) <==> exists xs, ops :: Reads(ts, e, rest, xs, ops)
  {
    if ParseExpression(ts) == Ok(e, rest) {
      var xs, ops := Chained(PIPE, ts);
      OverIff(rest);
      ChainGroups(ts, Group(xs, ops), rest, xs, ops);
      assert Reads(ts, e, rest, xs, ops);
    }
    if xs, ops :| Reads(ts, e, rest, xs, ops) {
      ChainGroups(ts, e, rest, xs, ops);
    }
  }

  lemma GroupOfOne(x: Operand)
    ensures Group([x], []) == x.value
  {
  }

  lemma GroupOfTwo(x: Operand, s: Symbol, y: Operand)
    requires Infix(s)
    ensures Group([x, y], [s]) == Build(s, x.value, y.value)
  {
    GroupOfOne(x);
    GroupOfOne(y);
    assert [x, y][..1] == [x] && [x, y][1..] == [y] && [s][..0] == [] && [s][1..] == [];
  }

  lemma GroupOfThree(x: Operand, s: Symbol, y: Operand, t: Symbol, z: Operand)
    requires Infix(s) && Infix(t)
    ensures Group([x, y, z], [s, t]) ==
              if Tighter(t, s) then Build(s, x.value, Build(t, y.value, z.value))
              else Build(t, Build(s, x.value, y.value), z.value)
  {
    var xs, ops := [x, y, z], [s, t];
    TighterIff(t, s);
    GroupOfOne(x);
    GroupOfOne(z);
    GroupOfTwo(x, s, y);
    GroupOfTwo(y, t, z);
    assert xs[..1] == [x] && xs[1..] == [y, z] && xs[..2] == [x, y] && xs[2..] == [z];
    assert ops[..0] == [] && ops[1..] == [t] && ops[..1] == [s] && ops[2..] == [];
  }

  lemma ThreeRead(x: Operand, s: Symbol, y: Operand, t: Symbol, z: Operand)
    requires Infix(s) && Infix(t) && Over(z.rest) && IsRead(x) && IsRead(y) && IsRead(z)
    requires x.rest == Put(s, y.text) && y.rest == Put(t, z.text)
    ensures ParseExpression(x.text) == Ok(Group([x, y, z], [s, t]), z.rest)
  {
    var e := Group([x, y, z], [s, t]);
    ChainGroups(x.text, e, z.rest, [x, y, z], [s, t]);
  }

  lemma {:induction false} PartDiffers(x: Expr, e: Expr)
    requires (e.Pipe? || e.BinOp?) && e.left == x
    ensures x != e
  {
    assert x < e;
  }

  lemma {:induction false} LeftsDiffer(s: Symbol, a: Expr, b: Expr, t: Symbol, c: Expr, d: Expr)
    requires Infix(s) && Infix(t) && a != c
    ensures Build(s, a, b) != Build(t, c, d)
  {
    assert Build(s, a, b).left == a && Build(t, c, d).left == c;
  }

  lemma {:induction false} GroupingsDiffer(x: Expr, s: Symbol, y: Expr, t: Symbol, z: Expr)
    requires Infix(s) && Infix(t)
    ensures Build(s, x, Build(t, y, z)) != Build(t, Build(s, x, y), z)
  {
    var pair := Build(s, x, y);
    PartDiffers(x, pair);
    LeftsDiffer(s, x, Build(t, y, z), t, pair, z);
  }

  /** `x s y t z`, whatever operands of the unary level the three texts begin with: the right pair is grouped first
      exactly when `t` stands on a later rung than `s`, and else the left pair. */
  lemma {:induction false} TwoOperators(left: Text, x: Expr, s: Symbol, middle: Text, y: Expr, t: Symbol, right: Text,
                                        z: Expr, rest: Text)
    requires Infix(s) && Infix(t) && Over(rest)
    requires ParseUnary(left) == Ok(x, Put(s, middle))
    requires ParseUnary(middle) == Ok(y, Put(t, right))
    requires ParseUnary(right) == Ok(z, rest)
    ensures ParseExpression(left) == Ok(Build(s, x, Build(t, y, z)), rest) <==> Tighter(t, s)
    ensures ParseExpression(left) == Ok(Build(t, Build(s, x, y), z), rest) <==> !Tighter(t, s)
  {
    var a, b, c := Operand(left, x, Put(s, middle)), Operand(middle, y, Put(t, right)), Operand(right, z, rest);
    ThreeRead(a, s, b, t, c);
    GroupOfThree(a, s, b, t, c);
    GroupingsDiffer(x, s, y, t, z);
  }

  /** No token that could go on: an infix operator, a postfix, an opening brace or `else`. */
  predicate Ends(ts: Text) {
    && ts.More?
    && Over(ts)
    && ts.head !in {Sym(Dot), Sym(LParen), Sym(Scope), Sym(LBrace), Sym(ElseKw)}
  }

  lemma PrintedOperand(x: Expr, ts: Text)
    requires WfExpr(x) && (Ends(ts) || (ts.More? && ts.head.Sym? && Infix(ts.head.sym)))
    ensures ParseUnary(Print(x, UNARY, ts)) == Ok(x, ts)
  {
    OverIff(ts);
    if ts.head.Sym? { RungIsLevel(ts.head.sym); }
    RoundTrip.RightOperand(UNARY, x, ts);
  }

  /** The same for any three trees the parser can build, written as operands of the unary level. */
  lemma {:induction false} WrittenOperators(x: Expr, s: Symbol, y: Expr, t: Symbol, z: Expr, rest: Text)
    requires WfExpr(x) && WfExpr(y) && WfExpr(z) && Infix(s) && Infix(t) && Ends(rest)
    ensures var text := Print(x, UNARY, Put(s, Print(y, UNARY, Put(t, Print(z, UNARY, rest)))));
            ParseExpression(text) ==
              Ok(if Tighter(t, s) then Build(s, x, Build(t, y, z)) else Build(t, Build(s, x, y), z), rest)
  {
    var right := Print(z, UNARY, rest);
    var middle := Print(y, UNARY, Put(t, right));
    PrintedOperand(z, rest);
    PrintedOperand(y, Put(t, right));
    PrintedOperand(x, Put(s, middle));
    TwoOperators(Print(x, UNARY, Put(s, middle)), x, s, middle, y, t, right, z, rest);
  }
}
