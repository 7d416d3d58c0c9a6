/** Parsing what the printer wrote gives the tree back, and stops at the token that follows. */
module RoundTrip {
  import opened Ast
  import opened Grammar
  import opened Printer

  // ---- types ----

  /** A type that may stand before `->` is read up to the point where an arrow is looked for. */
  lemma {:induction false} TypeHead(t: TypeExpr, ts: Text)
    requires WfType(t) && !t.GenericType? && !t.FunctionType? && !At(ts, Operator(Lt))
    ensures ParseType(PrintType(t, ts)) == TypeArrow(t, ts)
    decreases t, 1
  {
    if t.TupleType? { TupleHead(t, ts); }
  }

  lemma {:induction false} TupleHead(t: TypeExpr, ts: Text)
    requires WfType(t) && t.TupleType?
    ensures ParseType(PrintType(t, ts)) == TypeArrow(t, ts)
    decreases t, 0
  {
    TypesBack(t.items, Put(RParen, ts));
    TupleRead(t.items, PrintTypes(t.items, Put(RParen, ts)), ts);
  }

  lemma TupleRead(items: seq<TypeExpr>, body: Text, ts: Text)
    requires ParseTypes(body) == Ok(items, Put(RParen, ts))
    ensures ParseType(Put(LParen, body)) == TypeArrow(TupleType(items), ts)
  {
  }

  lemma {:induction false} TypeBack(t: TypeExpr, ts: Text)
    requires WfType(t) && StopsType(ts)
    ensures ParseType(PrintType(t, ts)) == Ok(t, ts)
    decreases t, 2
  {
    match t
    case GenericType(name, args) => TypesBack(args, Put(Operator(Gt), ts));
    case FunctionType(a, r) =>
      TypeHead(a, Put(Arrow, PrintType(r, ts)));
      TypeBack(r, ts);
    case _ => TypeHead(t, ts);
  }

  lemma {:induction false} TypesBack(types: seq<TypeExpr>, ts: Text)
    requires |types| > 0 && (forall t | t in types :: WfType(t)) && StopsType(ts) && !At(ts, Comma)
    ensures ParseTypes(PrintTypes(types, ts)) == Ok(types, ts)
    decreases types, 1
  {
    TypeBack(types[0], PrintTypesTail(types[1..], ts));
    TypesTailBack(types[1..], ts);
    assert types == [types[0]] + types[1..];
  }

  lemma {:induction false} TypesTailBack(types: seq<TypeExpr>, ts: Text)
    requires (forall t | t in types :: WfType(t)) && StopsType(ts) && !At(ts, Comma)
    ensures TypesTail(PrintTypesTail(types, ts)) == Ok(types, ts)
    decreases types, 0
  {
    if types != [] {
      TypeBack(types[0], PrintTypesTail(types[1..], ts));
      TypesTailBack(types[1..], ts);
      assert types == [types[0]] + types[1..];
    }
  }

  // ---- expressions, level by level ----

  /** The routine that reads an operand of level `k`. */
  function ParseAt(k: nat, ts: Text): Parsed<Expr>
    requires k <= 10
  {
    if k == 0 then ParseExpression(ts)
    else if k <= UNARY then ParseBinary(k, ts)
    else if k == 9 then ParsePostfix(ts)
    else ParsePrimary(ts)
  }

  /** The loop that routine is left with once its leading operand `e` has been read. */
  function LoopAt(k: nat, e: Expr, ts: Text): Parsed<Expr>
    requires k <= 10
  {
    if PIPE <= k < UNARY then BinaryLoop(k, e, ts)
    else if k == 9 then PostfixLoop(e, ts)
    else Ok(e, ts)
  }

  lemma LoopStops(k: nat, e: Expr, ts: Text)
    requires k <= 10 && Stops(ts, k)
    ensures LoopAt(k, e, ts) == Ok(e, ts)
  {
  }

  /** One level down: when the level above has read `e` and nothing more. */
  lemma StepDown(k: nat, all: Text, e: Expr, ts: Text)
    requires k < 10
    requires ParseAt(k + 1, all) == Ok(e, ts)
    ensures k != 0 ==> ParseAt(k, all) == LoopAt(k, e, ts)
    ensures k == 0 ==> ParseAt(0, all) == Ok(e, ts)
  {
    if k == 9 {
      assert ParsePrimary(all) == Ok(e, ts);
    } else if k == UNARY {
      assert ParsePrimary(all).Ok?;
      if At(all, Bang) || At(all, Operator(Sub)) { PrefixIsNoPrimary(all); }
      assert ParseUnary(all) == ParsePostfix(all);
    } else if k > 0 {
      assert ParseBinary(k + 1, all) == Ok(e, ts);
    }
  }

  lemma PrefixIsNoPrimary(all: Text)
    requires At(all, Bang) || At(all, Operator(Sub))
    ensures ParsePrimary(all).Err?
  {
    assert ParseKeyword(all.head.sym, all.tail).Err?;
  }

  /** A primary is an operand of every level. */
  lemma {:induction false} Lift(k: nat, all: Text, e: Expr, ts: Text)
    requires k <= 10 && ParsePrimary(all) == Ok(e, ts) && Stops(ts, k + 1)
    ensures ParseAt(k, all) == LoopAt(k, e, ts)
    decreases 10 - k
  {
    if k < 10 {
      Lift(k + 1, all, e, ts);
      LoopStops(k + 1, e, ts);
      StepDown(k, all, e, ts);
    }
  }

  /** The round trip at every level: reading the text of `e` where an operand of level `k` is
      expected leaves the routine in its loop, holding `e`, in front of the text that follows. */
  lemma {:induction false} OperandBack(k: nat, e: Expr, ts: Text)
    requires WfExpr(e) && k <= 10 && Stops(ts, k + 1)
    ensures ParseAt(k, Print(e, k, ts)) == LoopAt(k, e, ts)
    decreases e, 10, if Prec(e) < k then 1 else 0, 10 - k
  {
    if Prec(e) < k {
      ParensBack(k, e, ts);
      Lift(k, Print(e, k, ts), e, ts);
    } else if Prec(e) == 0 || Prec(e) == 10 {
      PrimaryBack(e, ts);
      Lift(k, Print(e, k, ts), e, ts);
    } else if Prec(e) == k {
      if k == 9 { PostfixBack(e, ts); }
      else if k == UNARY { UnaryBack(e, ts); }
      else { BinaryBack(e, ts); }
    } else {
      OperandBack(k + 1, e, ts);
      LoopStops(k + 1, e, ts);
      StepDown(k, Print(e, k, ts), e, ts);
    }
  }

  lemma {:induction false} ParensBack(k: nat, e: Expr, ts: Text)
    requires WfExpr(e) && Prec(e) < k
    ensures ParsePrimary(Print(e, k, ts)) == Ok(e, ts)
    decreases e, 10, 0, 13
  {
    InParens(e, ts);
    assert Print(e, k, ts) == Put(LParen, Body(e, Put(RParen, ts)));
    ParensRead(Body(e, Put(RParen, ts)), e, ts);
  }

  lemma ParensRead(all: Text, e: Expr, ts: Text)
    requires ParseParens(all) == Ok(e, ts)
    ensures ParsePrimary(Put(LParen, all)) == Ok(e, ts)
  {
  }

  lemma ParensStep(all: Text, e: Expr, ts: Text)
    requires ParseExpression(all) == Ok(e, Put(RParen, ts))
    ensures ParseParens(all) == Ok(e, ts)
  {
    var rest := Put(RParen, ts);
    assert ExprsTail(rest) == Ok([], rest);
    assert [e] + [] == [e];
    assert ParseExprs(all) == Ok([e], rest);
  }

  /** Between parentheses an expression starts afresh, at the lowest level. */
  lemma {:induction false} InParens(e: Expr, ts: Text)
    requires WfExpr(e)
    ensures ParseParens(Body(e, Put(RParen, ts))) == Ok(e, ts)
    ensures Print(e, 0, Put(RParen, ts)) == Body(e, Put(RParen, ts))
    decreases e, 10, 0, 12
  {
    ExpressionBack(e, Put(RParen, ts));
    ParensStep(Body(e, Put(RParen, ts)), e, ts);
  }

  lemma {:induction false} ExpressionBack(e: Expr, ts: Text)
    requires WfExpr(e) && Stops(ts, 0)
    ensures ParseExpression(Print(e, 0, ts)) == Ok(e, ts)
    decreases e, 10, 0, 11
  {
    OperandBack(0, e, ts);
  }

  lemma BinaryStep(k: nat, all: Text, l: Expr, sym: Symbol, right: Text, r: Expr, ts: Text)
    requires PIPE <= k < UNARY && LevelOf(Sym(sym)) == k
    requires ParseBinary(k, all) == BinaryLoop(k, l, Put(sym, right))
    requires ParseBinary(k + 1, right) == Ok(r, ts)
    ensures ParseBinary(k, all) == BinaryLoop(k, Join(Sym(sym), l, r), ts)
  {
  }

  lemma {:induction false} BinaryBack(e: Expr, ts: Text)
    requires WfExpr(e) && (e.Pipe? || e.BinOp?) && Stops(ts, Prec(e) + 1)
    ensures ParseBinary(Prec(e), Body(e, ts)) == BinaryLoop(Prec(e), e, ts)
    decreases e, 9
  {
    match e
    case Pipe(l, r) => InfixBack(e, PIPE, l, PipeOp, r, ts);
    case BinOp(op, l, r) => InfixBack(e, OpLevel(op), l, Operator(op), r, ts);
  }

  /** `l` and `r` are the sides of `e`. */
  lemma {:induction false} InfixBack(e: Expr, k: nat, l: Expr, sym: Symbol, r: Expr, ts: Text)
    requires (e.Pipe? || e.BinOp?) && e.left == l && e.right == r
    requires WfExpr(l) && WfExpr(r) && PIPE <= k < UNARY && LevelOf(Sym(sym)) == k && Stops(ts, k + 1)
    ensures ParseBinary(k, Print(l, k, Put(sym, Print(r, k + 1, ts)))) == BinaryLoop(k, Join(Sym(sym), l, r), ts)
    decreases e, 8
  {
    RightOperand(k + 1, r, ts);
    InfixLeft(k, l, sym, Print(r, k + 1, ts), r, ts);
  }

  lemma {:induction false} InfixLeft(k: nat, l: Expr, sym: Symbol, right: Text, r: Expr, ts: Text)
    requires WfExpr(l) && PIPE <= k < UNARY && LevelOf(Sym(sym)) == k
    requires ParseBinary(k + 1, right) == Ok(r, ts)
    ensures ParseBinary(k, Print(l, k, Put(sym, right))) == BinaryLoop(k, Join(Sym(sym), l, r), ts)
    decreases l, 12
  {
    LeftOperand(k, l, sym, right);
    BinaryStep(k, Print(l, k, Put(sym, right)), l, sym, right, r, ts);
  }

  lemma {:induction false} LeftOperand(k: nat, l: Expr, sym: Symbol, right: Text)
    requires WfExpr(l) && PIPE <= k < UNARY && LevelOf(Sym(sym)) == k
    ensures ParseBinary(k, Print(l, k, Put(sym, right))) == BinaryLoop(k, l, Put(sym, right))
    decreases l, 11
  {
    OperandBack(k, l, Put(sym, right));
  }

  lemma {:induction false} RightOperand(k: nat, r: Expr, ts: Text)
    requires WfExpr(r) && PIPE <= k <= UNARY && Stops(ts, k)
    ensures ParseBinary(k, Print(r, k, ts)) == Ok(r, ts)
    decreases r, 11
  {
    OperandBack(k, r, ts);
    LoopStops(k, r, ts);
  }

  lemma {:induction false} UnaryBack(e: Expr, ts: Text)
    requires WfExpr(e) && e.UnOp? && Stops(ts, UNARY + 1)
    ensures ParseUnary(Body(e, ts)) == Ok(e, ts)
    decreases e, 9
  {
    OperandBack(UNARY, e.operand, ts);
  }

  lemma {:induction false} PostfixBack(e: Expr, ts: Text)
    requires WfExpr(e) && Prec(e) == 9
    ensures ParsePostfix(Body(e, ts)) == PostfixLoop(e, ts)
    decreases e, 9
  {
    match e
    case Call(t, args) => CallBack(t, args, ts);
    case Member(t, f) => OperandBack(9, t, Put(Dot, PutIdent(f, ts)));
    case ScopeResolve(t, f) => OperandBack(9, t, Put(Scope, PutIdent(f, ts)));
  }

  lemma {:induction false} CallBack(t: Expr, args: seq<Expr>, ts: Text)
    requires WfExpr(t) && forall x | x in args :: WfExpr(x)
    ensures ParsePostfix(Body(Call(t, args), ts)) == PostfixLoop(Call(t, args), ts)
    decreases Call(t, args), 8
  {
    var end := Put(RParen, ts);
    var text := PrintArgs(args, end);
    ArgsBack(args, end);
    OperandBack(9, t, Put(LParen, text));
    CallRead(t, args, text, ts);
    assert Body(Call(t, args), ts) == Print(t, 9, Put(LParen, text));
  }

  lemma CallRead(t: Expr, args: seq<Expr>, body: Text, ts: Text)
    requires ParseArgs(body) == Ok(args, Put(RParen, ts))
    ensures PostfixLoop(t, Put(LParen, body)) == PostfixLoop(Call(t, args), ts)
  {
  }

  /** Primaries, and the forms that extend to the right as far as they can. */
  lemma {:induction false} PrimaryBack(e: Expr, ts: Text)
    requires WfExpr(e) && (Prec(e) == 0 || Prec(e) == 10) && Stops(ts, Prec(e))
    ensures ParsePrimary(Body(e, ts)) == Ok(e, ts)
    decreases e, 9
  {
    match e
    case Lit(_) =>
    case Ident(_) =>
    case TrustRef(_) =>
    case Tuple(_) => TupleBack(e, ts);
    case Record(_, _) => RecordBack(e, ts);
    case If(_, _, _) => IfBack(e, ts);
    case Match(_, _) => MatchBack(e, ts);
    case Let(_, _, _) => LetBack(e, ts);
    case Assert(_) => PrefixBack(e, ts);
    case EnforceExpr(_) => PrefixBack(e, ts);
    case AnchorExpr(_) => PrefixBack(e, ts);
  }

  lemma {:induction false} TupleBack(e: Expr, ts: Text)
    requires WfExpr(e) && e.Tuple?
    ensures ParsePrimary(Body(e, ts)) == Ok(e, ts)
    decreases e, 8
  {
    ExprsBack(e.items, Put(RParen, ts));
    TupleOf(PrintArgs(e.items, Put(RParen, ts)), e.items, ts);
    ParensRead(PrintArgs(e.items, Put(RParen, ts)), e, ts);
  }

  lemma TupleOf(all: Text, items: seq<Expr>, ts: Text)
    requires ParseExprs(all) == Ok(items, Put(RParen, ts)) && |items| != 1
    ensures ParseParens(all) == Ok(Tuple(items), ts)
  {
  }

  lemma RecordRead(name: string, fields: seq<Field>, body: Text, ts: Text)
    requires FieldsTail([], body) == Ok(fields, ts)
    ensures ParsePrimary(PutIdent(name, Put(LBrace, body))) == Ok(Record(name, fields), ts)
  {
    assert At(Put(LBrace, body), LBrace);
  }

  lemma {:induction false} RecordBack(e: Expr, ts: Text)
    requires WfExpr(e) && e.Record?
    ensures ParsePrimary(Body(e, ts)) == Ok(e, ts)
    decreases e, 8
  {
    match e
    case Record(name, fields) =>
      assert [] + fields == fields;
      FieldsBack([], fields, ts);
      RecordRead(name, fields, PrintFields(fields, ts), ts);
  }

  lemma {:induction false} PrefixBack(e: Expr, ts: Text)
    requires WfExpr(e) && (e.Assert? || e.EnforceExpr? || e.AnchorExpr?) && Stops(ts, 0)
    ensures ParsePrimary(Body(e, ts)) == Ok(e, ts)
    decreases e, 8
  {
    ExpressionBack(e.expr, ts);
  }

  lemma {:induction false} LetBack(e: Expr, ts: Text)
    requires WfExpr(e) && e.Let? && Stops(ts, 0)
    ensures ParsePrimary(Body(e, ts)) == Ok(e, ts)
    decreases e, 8
  {
    TypeBack(e.ty, Put(Assign, Print(e.expr, 0, ts)));
    ExpressionBack(e.expr, ts);
    assert ParseLet(Body(e, ts).tail) == Ok(e, ts);
  }

  lemma {:induction false} IfBack(e: Expr, ts: Text)
    requires WfExpr(e) && e.If? && ts.More? && !At(ts, ElseKw)
    ensures ParsePrimary(Body(e, ts)) == Ok(e, ts)
    decreases e, 8
  {
    var rest := PrintElse(e.elseB, ts);
    CondBack(e.cond, PrintBlock(e.thenB, rest));
    BlockBack(e.thenB, rest);
    if e.elseB.Else? { BlockBack(e.elseB.block, ts); }
    assert ParseIf(Body(e, ts).tail) == Ok(e, ts);
  }

  lemma {:induction false} MatchBack(e: Expr, ts: Text)
    requires WfExpr(e) && e.Match?
    ensures ParsePrimary(Body(e, ts)) == Ok(e, ts)
    decreases e, 8
  {
    var arms := PrintArms(e.arms, Put(RBrace, ts));
    CondBack(e.subject, Put(LBrace, arms));
    ArmsBack(e.arms, Put(RBrace, ts));
    MatchRead(Put(LParen, Print(e.subject, 0, Put(RParen, Put(LBrace, arms)))), e.subject, arms, e.arms, ts);
  }

  lemma MatchRead(all: Text, subject: Expr, text: Text, arms: seq<Arm>, ts: Text)
    requires ParseExpression(all) == Ok(subject, Put(LBrace, text)) && ArmsTail(text) == Ok(arms, Put(RBrace, ts))
    ensures ParsePrimary(Put(MatchKw, all)) == Ok(Match(subject, arms), ts)
  {
    ArmsRead(all, subject, text, arms, ts);
    KeywordRead(MatchKw, all);
    MatchKeyword(MatchKw, all);
  }

  lemma ArmsRead(all: Text, subject: Expr, text: Text, arms: seq<Arm>, ts: Text)
    requires ParseExpression(all) == Ok(subject, Put(LBrace, text)) && ArmsTail(text) == Ok(arms, Put(RBrace, ts))
    ensures ParseMatch(all) == Ok(Match(subject, arms), ts)
  {
    assert Expect(Put(LBrace, text), LBrace) == Ok((), text);
  }

  lemma KeywordRead(s: Symbol, all: Text)
    ensures ParsePrimary(Put(s, all)) == ParseKeyword(s, all)
  {
  }

  lemma MatchKeyword(s: Symbol, all: Text)
    requires s == MatchKw
    ensures ParseKeyword(s, all) == ParseMatch(all)
  {
  }

  /** A parenthesised condition or subject before `{`. */
  lemma {:induction false} CondBack(e: Expr, ts: Text)
    requires WfExpr(e) && At(ts, LBrace)
    ensures ParseExpression(Put(LParen, Print(e, 0, Put(RParen, ts)))) == Ok(e, ts)
    decreases e, 11
  {
    InParens(e, ts);
    BinaryOfPrimary(PIPE, Put(LParen, Print(e, 0, Put(RParen, ts))), e, ts);
  }

  lemma {:induction false} BinaryOfPrimary(k: nat, all: Text, e: Expr, ts: Text)
    requires PIPE <= k <= UNARY && ParsePrimary(all) == Ok(e, ts) && At(all, LParen) && At(ts, LBrace)
    ensures ParseBinary(k, all) == Ok(e, ts)
    decreases UNARY - k
  {
    if k < UNARY {
      BinaryOfPrimary(k + 1, all, e, ts);
      BraceEndsLoop(k, e, ts);
    } else {
      UnaryOfPrimary(all, e, ts);
    }
  }

  lemma BraceEndsLoop(k: nat, e: Expr, ts: Text)
    requires PIPE <= k < UNARY && At(ts, LBrace)
    ensures BinaryLoop(k, e, ts) == Ok(e, ts)
  {
  }

  lemma UnaryOfPrimary(all: Text, e: Expr, ts: Text)
    requires ParsePrimary(all) == Ok(e, ts) && At(all, LParen) && At(ts, LBrace)
    ensures ParseUnary(all) == Ok(e, ts)
  {
    assert ParsePostfix(all) == Ok(e, ts);
  }

  // ---- lists of expressions ----

  lemma {:induction false} ArgsBack(es: seq<Expr>, ts: Text)
    requires (forall e | e in es :: WfExpr(e)) && At(ts, RParen)
    ensures ParseArgs(PrintArgs(es, ts)) == Ok(es, ts)
    decreases es, 5
  {
    if es != [] {
      ExprsBack(es, ts);
      if At(PrintArgs(es, ts), RParen) { NoOperand(PIPE, PrintArgs(es, ts)); }
    }
  }

  /** A closing parenthesis starts no expression. */
  lemma {:induction false} NoOperand(k: nat, ts: Text)
    requires PIPE <= k <= UNARY && At(ts, RParen)
    ensures ParseBinary(k, ts).Err?
    decreases UNARY - k
  {
    if k < UNARY {
      NoOperand(k + 1, ts);
    } else {
      assert ParsePrimary(ts).Err?;
      assert ParsePostfix(ts).Err?;
    }
  }

  lemma {:induction false} ExprsBack(es: seq<Expr>, ts: Text)
    requires |es| > 0 && (forall e | e in es :: WfExpr(e)) && At(ts, RParen)
    ensures ParseExprs(PrintArgs(es, ts)) == Ok(es, ts)
    decreases es, 4
  {
    TailStops(es[1..], ts);
    ExpressionBack(es[0], PrintTail(es[1..], ts));
    TailBack(es[1..], ts);
    assert es == [es[0]] + es[1..];
  }

  lemma TailStops(es: seq<Expr>, ts: Text)
    requires At(ts, RParen)
    ensures Stops(PrintTail(es, ts), 0)
  {
  }

  lemma {:induction false} TailBack(es: seq<Expr>, ts: Text)
    requires (forall e | e in es :: WfExpr(e)) && At(ts, RParen)
    ensures ExprsTail(PrintTail(es, ts)) == Ok(es, ts)
    decreases es, 3
  {
    if es != [] {
      TailBack(es[1..], ts);
      TailStops(es[1..], ts);
      ExpressionBack(es[0], PrintTail(es[1..], ts));
      assert es == [es[0]] + es[1..];
    }
  }

  lemma {:induction false} FieldsBack(acc: seq<Field>, fs: seq<Field>, ts: Text)
    requires DistinctNames(acc + fs) && forall f | f in fs :: WfExpr(f.value)
    ensures FieldsTail(acc, PrintFields(fs, ts)) == Ok(acc + fs, ts)
    decreases fs, 3
  {
    if fs == [] {
      assert acc + fs == acc;
    } else {
      var f, rest := fs[0], fs[1..];
      NewName(acc, fs);
      assert (acc + [f]) + rest == acc + fs;
      FieldStep(acc, f, PrintFields(rest, ts));
      FieldsBack(acc + [f], rest, ts);
    }
  }

  lemma NewName(acc: seq<Field>, fs: seq<Field>)
    requires fs != [] && DistinctNames(acc + fs)
    ensures DictSet(acc, fs[0].name, fs[0].value) == acc + [fs[0]]
  {
    forall k | 0 <= k < |acc|
      ensures acc[k].name != fs[0].name
    {
      assert (acc + fs)[k] == acc[k] && (acc + fs)[|acc|] == fs[0];
    }
  }

  lemma {:induction false} FieldStep(acc: seq<Field>, f: Field, ts: Text)
    requires WfExpr(f.value) && DictSet(acc, f.name, f.value) == acc + [f]
    ensures FieldsTail(acc, PrintField(f, ts)) == FieldsTail(acc + [f], ts)
    decreases f, 12
  {
    ExpressionBack(f.value, Put(Comma, ts));
  }

  lemma {:induction false} ArmsBack(arms: seq<Arm>, ts: Text)
    requires (forall a | a in arms :: WfPattern(a.pat) && WfExpr(a.result)) && At(ts, RBrace)
    ensures ArmsTail(PrintArms(arms, ts)) == Ok(arms, ts)
    decreases arms, 3
  {
    if arms != [] {
      ArmBack(arms[0], PrintArms(arms[1..], ts));
      ArmsBack(arms[1..], ts);
      assert arms == [arms[0]] + arms[1..];
    }
  }

  lemma PatternBack(p: Pattern, ts: Text)
    requires WfPattern(p)
    ensures ParsePattern(More(PrintPattern(p), ts)) == Ok(p, ts) && PrintPattern(p) != Sym(RBrace)
  {
  }

  lemma {:induction false} ArmBack(arm: Arm, ts: Text)
    requires WfPattern(arm.pat) && WfExpr(arm.result)
    ensures ParseArm(PrintArm(arm, ts)) == Ok(arm, ts) && !At(PrintArm(arm, ts), RBrace)
    decreases arm, 12
  {
    PatternBack(arm.pat, Put(FatArrow, Print(arm.result, 0, Put(Comma, ts))));
    ExpressionBack(arm.result, Put(Comma, ts));
  }

  // ---- statements ----

  lemma {:induction false} BlockBack(stmts: seq<Stmt>, ts: Text)
    requires forall s | s in stmts :: WfStmt(s)
    ensures ParseBlock(PrintBlock(stmts, ts)) == Ok(stmts, ts)
    decreases stmts, 4
  {
    StmtsBack(stmts, Put(RBrace, ts));
  }

  lemma {:induction false} StmtsBack(stmts: seq<Stmt>, ts: Text)
    requires (forall s | s in stmts :: WfStmt(s)) && At(ts, RBrace)
    ensures StmtsTail(PrintStmts(stmts, ts)) == Ok(stmts, ts)
    decreases stmts, 3
  {
    if stmts != [] {
      StatementBack(stmts[0], PrintStmts(stmts[1..], ts));
      StatementStarts(stmts[0], PrintStmts(stmts[1..], ts));
      StmtsBack(stmts[1..], ts);
      assert stmts == [stmts[0]] + stmts[1..];
    }
  }

  lemma {:induction false} BindBack(name: string, ty: TypeExpr, x: Expr, ts: Text)
    requires WfType(ty) && WfExpr(x)
    ensures ParseBind(PrintBind(name, ty, x, ts)) == Ok(BindDecl(name, ty, x), ts)
    decreases x, 13
  {
    TypeBack(ty, Put(Assign, Print(x, 0, Put(Semi, ts))));
    ExpressionBack(x, Put(Semi, ts));
  }

  lemma {:induction false} SemiBack(x: Expr, ts: Text)
    requires WfExpr(x)
    ensures ExprSemi(Print(x, 0, Put(Semi, ts))) == Ok(x, ts)
    decreases x, 12
  {
    ExpressionBack(x, Put(Semi, ts));
  }

  lemma {:induction false} ColonBack(x: Expr, ts: Text)
    requires WfExpr(x)
    ensures ColonExprSemi(Put(Colon, Print(x, 0, Put(Semi, ts)))) == Ok(x, ts)
    decreases x, 13
  {
    SemiBack(x, ts);
  }

  lemma {:induction false} StatementBack(s: Stmt, ts: Text)
    requires WfStmt(s)
    ensures ParseStatement(PrintStmt(s, ts)) == Ok(s, ts)
    decreases s, 14
  {
    match s
    case Bind(name, ty, x) => BindBack(name, ty, x, ts);
    case Return(x) => SemiBack(x, ts);
    case Enforce(_) => ColonStatementBack(s, ts);
    case Anchor(_) => ColonStatementBack(s, ts);
    case Rollback(_) => ColonStatementBack(s, ts);
    case Emit(_, _) => ColonStatementBack(s, ts);
    case ExprStmt(x) => ExprStmtBack(x, ts);
  }

  lemma {:induction false} ColonStatementBack(s: Stmt, ts: Text)
    requires WfStmt(s) && (s.Enforce? || s.Anchor? || s.Rollback? || s.Emit?)
    ensures ParseStatement(PrintStmt(s, ts)) == Ok(s, ts)
    decreases s, 13
  {
    var body := Put(Colon, Print(s.expr, 0, Put(Semi, ts)));
    ColonBack(s.expr, ts);
    if s.Emit? { EmitRead(s.name, s.expr, body, ts); } else { ColonRead(s.expr, body, ts); }
  }

  lemma ColonRead(x: Expr, body: Text, ts: Text)
    requires ColonExprSemi(body) == Ok(x, ts)
    ensures ParseStatement(Put(EnforceKw, body)) == Ok(Enforce(x), ts)
    ensures ParseStatement(Put(AnchorKw, body)) == Ok(Anchor(x), ts)
    ensures ParseStatement(Put(RollbackKw, body)) == Ok(Rollback(x), ts)
  {
  }

  lemma EmitRead(name: string, x: Expr, body: Text, ts: Text)
    requires ColonExprSemi(body) == Ok(x, ts)
    ensures ParseStatement(Put(EmitKw, PutIdent(name, body))) == Ok(Emit(name, x), ts)
  {
  }

  /** No statement starts with the brace that ends a block. */
  lemma {:induction false} StatementStarts(s: Stmt, ts: Text)
    requires WfStmt(s)
    ensures !At(PrintStmt(s, ts), RBrace)
    decreases s, 14
  {
    if s.ExprStmt? { ExprStmtBack(s.expr, ts); }
  }

  /** Tokens that start another kind of statement, or end a block. */
  predicate StatementHead(ts: Text) {
    || At(ts, BindKw) || At(ts, ReturnKw) || At(ts, EnforceKw) || At(ts, AnchorKw) || At(ts, RollbackKw)
    || At(ts, EmitKw) || At(ts, RBrace)
  }

  lemma {:induction false} ExprStmtBack(x: Expr, ts: Text)
    requires WfExpr(x)
    ensures !StatementHead(PrintStmt(ExprStmt(x), ts)) && ExprSemi(PrintStmt(ExprStmt(x), ts)) == Ok(x, ts)
    decreases x, 14
  {
    if x.EnforceExpr? || x.AnchorExpr? { KeywordStmtBack(x, ts); } else { PlainStmtBack(x, ts); }
  }

  lemma {:induction false} PlainStmtBack(x: Expr, ts: Text)
    requires WfExpr(x) && !x.EnforceExpr? && !x.AnchorExpr?
    ensures var all := Print(x, 0, Put(Semi, ts)); !StatementHead(all) && ExprSemi(all) == Ok(x, ts)
    decreases x, 13
  {
    var semi := Put(Semi, ts);
    ExpressionBack(x, semi);
    BodyHead(x, semi);
    SemiRead(Print(x, 0, semi), x, ts);
  }

  /** At the head of a statement these are parenthesised. */
  lemma {:induction false} KeywordStmtBack(x: Expr, ts: Text)
    requires WfExpr(x) && (x.EnforceExpr? || x.AnchorExpr?)
    ensures var all := Print(x, PIPE, Put(Semi, ts)); !StatementHead(all) && ExprSemi(all) == Ok(x, ts)
    decreases x, 13
  {
    var semi := Put(Semi, ts);
    var all := Print(x, PIPE, semi);
    ParensBack(PIPE, x, semi);
    Lift(PIPE, all, x, semi);
    SemiRead(all, x, ts);
    assert At(all, LParen);
  }

  lemma SemiRead(all: Text, x: Expr, ts: Text)
    requires ParseExpression(all) == Ok(x, Put(Semi, ts)) || ParseBinary(PIPE, all) == Ok(x, Put(Semi, ts))
    ensures ExprSemi(all) == Ok(x, ts)
  {
  }

  lemma {:induction false} PrintHead(e: Expr, k: nat, ts: Text)
    requires Prec(e) == 0 ==> 0 < k
    ensures !StatementHead(Print(e, k, ts))
    decreases e, 1
  {
    if Prec(e) >= k { BodyHead(e, ts); }
  }

  lemma {:induction false} BodyHead(e: Expr, ts: Text)
    requires !e.EnforceExpr? && !e.AnchorExpr?
    ensures !StatementHead(Body(e, ts))
    decreases e, 0
  {
    match e
    case Member(t, f) => PrintHead(t, 9, Put(Dot, PutIdent(f, ts)));
    case ScopeResolve(t, f) => PrintHead(t, 9, Put(Scope, PutIdent(f, ts)));
    case Call(t, args) => PrintHead(t, 9, Put(LParen, PrintArgs(args, Put(RParen, ts))));
    case Pipe(l, r) => PrintHead(l, PIPE, Put(PipeOp, Print(r, PIPE + 1, ts)));
    case BinOp(op, l, r) => PrintHead(l, OpLevel(op), Put(Operator(op), Print(r, OpLevel(op) + 1, ts)));
    case _ =>
  }

  // ---- what the round trip amounts to ----

  /** The trees `parse_expression` can return are exactly the well-formed ones. */
  lemma ParsedExpressions(e: Expr)
    ensures WfExpr(e) <==> exists ts, rest :: ParseExpression(ts) == Ok(e, rest)
  {
    if WfExpr(e) {
      var rest := More(Eof, End);
      ExpressionBack(e, rest);
      assert ParseExpression(Print(e, 0, rest)) == Ok(e, rest);
    }
  }

  /** Different trees are never written the same way. */
  lemma PrintInjective(e: Expr, f: Expr, ts: Text)
    requires WfExpr(e) && WfExpr(f) && Stops(ts, 0) && Print(e, 0, ts) == Print(f, 0, ts)
    ensures e == f
  {
    ExpressionBack(e, ts);
    ExpressionBack(f, ts);
  }
}
