/** The words and marks of the language, form by form: which tokens make which tree, whatever stands in their places. */
module Surface {
  import opened Wrappers
  import opened Ast
  import opened Grammar
  import RoundTrip

  /** `s`, then `ts`. */
  function Mark(s: Symbol, ts: Text): Text { More(Sym(s), ts) }

  function Name(n: string, ts: Text): Text { More(IdentTok(n), ts) }

  lemma {:induction false} Literals(n: nat, x: real, s: string, ts: Text)
    ensures ParsePrimary(More(IntTok(n), ts)) == Ok(Lit(CInt(n)), ts)
    ensures ParsePrimary(More(FloatTok(x), ts)) == Ok(Lit(CFloat(x)), ts)
    ensures ParsePrimary(More(StrTok(s), ts)) == Ok(Lit(CStr(s)), ts)
  {
  }

  /** `true`, `false`, `void`. */
  lemma {:induction false} Words(ts: Text)
    ensures ParsePrimary(Mark(TrueKw, ts)) == Ok(Lit(CBool(true)), ts)
    ensures ParsePrimary(Mark(FalseKw, ts)) == Ok(Lit(CBool(false)), ts)
    ensures ParsePrimary(Mark(BuiltinKw(VoidType), ts)) == Ok(Lit(CNone), ts)
  {
    RoundTrip.KeywordRead(TrueKw, ts);
    RoundTrip.KeywordRead(FalseKw, ts);
    RoundTrip.KeywordRead(BuiltinKw(VoidType), ts);
  }

  /** `!x`, `-x`; `trust n`, `n`. */
  lemma {:induction false} Prefixes(body: Text, x: Expr, n: string, rest: Text)
    requires ParseUnary(body) == Ok(x, rest)
    ensures ParseUnary(Mark(Bang, body)) == Ok(UnOp(Not, x), rest)
    ensures ParseUnary(Mark(Operator(Sub), body)) == Ok(UnOp(Neg, x), rest)
    ensures ParsePrimary(Mark(TrustKw, Name(n, rest))) == Ok(TrustRef(n), rest)
    ensures !(rest.More? && rest.head == Sym(LBrace)) ==> ParsePrimary(Name(n, rest)) == Ok(Ident(n), rest)
  {
  }

  /** `x.n`, `x::n` and `x(args)` go on from the left: whatever follows takes the whole as its own left side. */
  lemma {:induction false} Postfixes(x: Expr, n: string, args: seq<Expr>, inner: Text, rest: Text)
    requires ParseArgs(inner) == Ok(args, Mark(RParen, rest))
    ensures PostfixLoop(x, Mark(Dot, Name(n, rest))) == PostfixLoop(Member(x, n), rest)
    ensures PostfixLoop(x, Mark(Scope, Name(n, rest))) == PostfixLoop(ScopeResolve(x, n), rest)
    ensures PostfixLoop(x, Mark(LParen, inner)) == PostfixLoop(Call(x, args), rest)
  {
  }

  /** A list of expressions: the first, a comma, the others in their order. */
  lemma {:induction false} Lists(first: Text, x: Expr, more: Text, xs: seq<Expr>, rest: Text)
    requires ParseExpression(first) == Ok(x, Mark(Comma, more)) && ParseExprs(more) == Ok(xs, rest)
    ensures ParseExprs(first) == Ok([x] + xs, rest)
  {
    var (y, ts) := (ParseExpression(more).value, ParseExpression(more).rest);
    assert ParseExprs(more) == Prepend([y], ExprsTail(ts));
    assert ExprsTail(Mark(Comma, more)) == Prepend([y], ExprsTail(ts));
  }

  /** `(x)` is `x`; two or more expressions in parentheses are a tuple. */
  lemma {:induction false} Parentheses(inner: Text, xs: seq<Expr>, rest: Text)
    requires ParseExprs(inner) == Ok(xs, Mark(RParen, rest))
    ensures |xs| == 1 ==> ParsePrimary(Mark(LParen, inner)) == Ok(xs[0], rest)
    ensures |xs| > 1 ==> ParsePrimary(Mark(LParen, inner)) == Ok(Tuple(xs), rest)
  {
    assert ParsePrimary(Mark(LParen, inner)) == ParseParens(inner);
  }

  /** `assert x`, `enforce: x`, `anchor: x`. */
  lemma {:induction false} Checks(body: Text, x: Expr, rest: Text)
    requires ParseExpression(body) == Ok(x, rest)
    ensures ParsePrimary(Mark(AssertKw, body)) == Ok(Assert(x), rest)
    ensures ParsePrimary(Mark(EnforceKw, Mark(Colon, body))) == Ok(EnforceExpr(x), rest)
    ensures ParsePrimary(Mark(AnchorKw, Mark(Colon, body))) == Ok(AnchorExpr(x), rest)
  {
  }

  /** `let n: t = x`. */
  lemma {:induction false} Lets(n: string, typeText: Text, t: TypeExpr, body: Text, x: Expr, rest: Text)
    requires ParseType(typeText) == Ok(t, Mark(Assign, body)) && ParseExpression(body) == Ok(x, rest)
    ensures ParsePrimary(Mark(LetKw, Name(n, Mark(Colon, typeText)))) == Ok(Let(n, t, x), rest)
  {
    assert ParsePrimary(Mark(LetKw, Name(n, Mark(Colon, typeText)))) == ParseLet(Name(n, Mark(Colon, typeText)));
  }

  lemma {:induction false} IfRead(body: Text, c: Expr, block: Text, t: seq<Stmt>, rest: Text)
    requires ParseBlock(block) == Ok(t, rest) && !(rest.More? && rest.head == Sym(ElseKw))
    requires ParseExpression(body) == Ok(c, block) || ParseExpression(body) == Ok(c, Mark(ThenKw, block))
    ensures ParseIf(body) == Ok(If(c, t, NoElse), rest)
  {
    assert block.More? && block.head == Sym(LBrace);
  }

  lemma {:induction false} IfElseRead(body: Text, c: Expr, block: Text, t: seq<Stmt>, other: Text, f: seq<Stmt>,
                                      end: Text)
    requires ParseBlock(block) == Ok(t, Mark(ElseKw, other)) && ParseBlock(other) == Ok(f, end)
    requires ParseExpression(body) == Ok(c, block) || ParseExpression(body) == Ok(c, Mark(ThenKw, block))
    ensures ParseIf(body) == Ok(If(c, t, Else(f)), end)
  {
    assert block.More? && block.head == Sym(LBrace);
  }

  lemma {:induction false} IfKeyword(s: Symbol, body: Text)
    requires s == IfKw
    ensures ParsePrimary(Mark(s, body)) == ParseIf(body)
  {
    RoundTrip.KeywordRead(s, body);
  }

  /** `if c {..} else {..}`, `then` and the `else` part being optional. */
  lemma {:induction false} Ifs(body: Text, c: Expr, block: Text, t: seq<Stmt>, rest: Text, other: Text, f: seq<Stmt>,
                               end: Text)
    requires ParseBlock(block) == Ok(t, rest)
    requires ParseExpression(body) == Ok(c, block) || ParseExpression(body) == Ok(c, Mark(ThenKw, block))
    requires rest == Mark(ElseKw, other) ==> ParseBlock(other) == Ok(f, end)
    ensures rest == Mark(ElseKw, other) ==> ParsePrimary(Mark(IfKw, body)) == Ok(If(c, t, Else(f)), end)
    ensures !(rest.More? && rest.head == Sym(ElseKw)) ==> ParsePrimary(Mark(IfKw, body)) == Ok(If(c, t, NoElse), rest)
  {
    IfKeyword(IfKw, body);
    if rest == Mark(ElseKw, other) { IfElseRead(body, c, block, t, other, f, end); }
    if !(rest.More? && rest.head == Sym(ElseKw)) { IfRead(body, c, block, t, rest); }
  }

  /** `match s { p => x, ... }`, the arms in their order. */
  lemma {:induction false} Matches(body: Text, s: Expr, arms: Text, xs: seq<Arm>, rest: Text)
    requires ParseExpression(body) == Ok(s, Mark(LBrace, arms)) && ArmsTail(arms) == Ok(xs, Mark(RBrace, rest))
    ensures ParsePrimary(Mark(MatchKw, body)) == Ok(Match(s, xs), rest)
  {
    RoundTrip.MatchRead(body, s, arms, xs, rest);
  }

  lemma {:induction false} SemiRead(body: Text, x: Expr, rest: Text)
    requires ParseExpression(body) == Ok(x, Mark(Semi, rest))
    ensures ExprSemi(body) == Ok(x, rest)
  {
  }

  lemma {:induction false} ReturnRead(body: Text, x: Expr, rest: Text)
    requires ExprSemi(body) == Ok(x, rest)
    ensures ParseStatement(Mark(ReturnKw, body)) == Ok(Return(x), rest)
  {
  }

  /** The words that begin the other statements. */
  const STATEMENT_WORDS: set<Token> := {Sym(BindKw), Sym(ReturnKw), Sym(EnforceKw), Sym(AnchorKw), Sym(RollbackKw),
                                        Sym(EmitKw)}

  lemma {:induction false} ExprStmtRead(body: Text, x: Expr, rest: Text)
    requires ExprSemi(body) == Ok(x, rest) && body.More? && body.head !in STATEMENT_WORDS
    ensures ParseStatement(body) == Ok(ExprStmt(x), rest)
  {
  }

  /** `return x;` and `x;`. */
  lemma {:induction false} Plain(body: Text, x: Expr, rest: Text)
    requires ParseExpression(body) == Ok(x, Mark(Semi, rest))
    ensures ParseStatement(Mark(ReturnKw, body)) == Ok(Return(x), rest)
    ensures body.More? && body.head !in STATEMENT_WORDS ==> ParseStatement(body) == Ok(ExprStmt(x), rest)
  {
    SemiRead(body, x, rest);
    ReturnRead(body, x, rest);
    if body.More? && body.head !in STATEMENT_WORDS { ExprStmtRead(body, x, rest); }
  }

  lemma {:induction false} Colons(body: Text, x: Expr, rest: Text)
    requires ParseExpression(body) == Ok(x, Mark(Semi, rest))
    ensures ColonExprSemi(Mark(Colon, body)) == Ok(x, rest)
  {
    SemiRead(body, x, rest);
  }

  lemma {:induction false} ColonRead(k: Symbol, body: Text, x: Expr, rest: Text)
    requires k in {EnforceKw, AnchorKw, RollbackKw} && ColonExprSemi(body) == Ok(x, rest)
    ensures ParseStatement(Mark(k, body)) ==
              Ok(if k == EnforceKw then Enforce(x) else if k == AnchorKw then Anchor(x) else Rollback(x), rest)
  {
  }

  lemma {:induction false} EmitRead(n: string, body: Text, x: Expr, rest: Text)
    requires ColonExprSemi(body) == Ok(x, rest)
    ensures ParseStatement(Mark(EmitKw, Name(n, body))) == Ok(Emit(n, x), rest)
  {
  }

  /** `enforce: x;`, `anchor: x;`, `rollback: x;`, `emit n: x;`. */
  lemma {:induction false} Governing(body: Text, x: Expr, n: string, rest: Text)
    requires ParseExpression(body) == Ok(x, Mark(Semi, rest))
    ensures ParseStatement(Mark(EnforceKw, Mark(Colon, body))) == Ok(Enforce(x), rest)
    ensures ParseStatement(Mark(AnchorKw, Mark(Colon, body))) == Ok(Anchor(x), rest)
    ensures ParseStatement(Mark(RollbackKw, Mark(Colon, body))) == Ok(Rollback(x), rest)
    ensures ParseStatement(Mark(EmitKw, Name(n, Mark(Colon, body)))) == Ok(Emit(n, x), rest)
  {
    Colons(body, x, rest);
    ColonRead(EnforceKw, Mark(Colon, body), x, rest);
    ColonRead(AnchorKw, Mark(Colon, body), x, rest);
    ColonRead(RollbackKw, Mark(Colon, body), x, rest);
    EmitRead(n, Mark(Colon, body), x, rest);
  }

  /** `bind n: t = x;`, as a statement and as a declaration. */
  lemma {:induction false} Binds(n: string, typeText: Text, t: TypeExpr, body: Text, x: Expr, rest: Text)
    requires ParseType(typeText) == Ok(t, Mark(Assign, body)) && ParseExpression(body) == Ok(x, Mark(Semi, rest))
    ensures ParseStatement(Mark(BindKw, Name(n, Mark(Colon, typeText)))) == Ok(Bind(n, t, x), rest)
    ensures ParseDeclaration(Mark(BindKw, Name(n, Mark(Colon, typeText)))) == Ok(BindDecl(n, t, x), rest)
  {
    SemiRead(body, x, rest);
    assert ParseBind(Name(n, Mark(Colon, typeText))) == Ok(BindDecl(n, t, x), rest);
  }

  lemma {:induction false} FunctionRead(n: string, inner: Text, params: seq<Param>, typeText: Text, t: TypeExpr,
                                        behind: Text, authority: Option<Kind>, block: Text, body: seq<Stmt>,
                                        rest: Text)
    requires ParseParams(inner) == Ok(params, Mark(RParen, Mark(Arrow, typeText)))
    requires ParseType(typeText) == Ok(t, behind) && ParseAuthority(behind) == Ok(authority, block)
    requires ParseBlock(block) == Ok(body, rest)
    ensures ParseFunction(Name(n, Mark(LParen, inner))) == Ok(Function(n, params, t, authority, body), rest)
  {
  }

  lemma {:induction false} AuthorityRead(level: Symbol, block: Text)
    ensures ParseAuthority(Mark(LBracket, Mark(level, Mark(RBracket, block)))) == Ok(Some(SymKind(level)), block)
    ensures block.More? && block.head == Sym(LBrace) ==> ParseAuthority(block) == Ok(None, block)
  {
  }

  /** `fn n(params) -> t [level] { body }`, the level being optional: what stands between the brackets is kept. */
  lemma {:induction false} Functions(n: string, inner: Text, params: seq<Param>, typeText: Text, t: TypeExpr,
                                     level: Symbol, block: Text, body: seq<Stmt>, rest: Text, behind: Text)
    requires ParseParams(inner) == Ok(params, Mark(RParen, Mark(Arrow, typeText)))
    requires ParseType(typeText) == Ok(t, behind) && ParseBlock(block) == Ok(body, rest)
    ensures behind == block ==>
              ParseDeclaration(Mark(FnKw, Name(n, Mark(LParen, inner)))) == Ok(Function(n, params, t, None, body), rest)
    ensures behind == Mark(LBracket, Mark(level, Mark(RBracket, block))) ==>
              ParseDeclaration(Mark(FnKw, Name(n, Mark(LParen, inner)))) ==
                Ok(Function(n, params, t, Some(SymKind(level)), body), rest)
  {
    assert block.More? && block.head == Sym(LBrace);
    AuthorityRead(level, block);
    if behind == block { FunctionRead(n, inner, params, typeText, t, behind, None, block, body, rest); }
    if behind == Mark(LBracket, Mark(level, Mark(RBracket, block))) {
      FunctionRead(n, inner, params, typeText, t, behind, Some(SymKind(level)), block, body, rest);
    }
  }

  /** `module n [level] { declarations }`. */
  lemma {:induction false} Modules(n: string, level: Symbol, inner: Text, ds: seq<Decl>, rest: Text)
    requires DeclsTail(inner) == Ok(ds, Mark(RBrace, rest))
    ensures ParseModule(Mark(ModuleKw, Name(n, Mark(LBracket, Mark(level, Mark(RBracket, Mark(LBrace, inner))))))) ==
              Ok(Module(n, SymKind(level), ds), rest)
  {
  }

  /** `always: x;`, `never: x;` and `when: x then: y;`. */
  lemma {:induction false} Invariants(body: Text, x: Expr, end: Text, other: Text, y: Expr, rest: Text)
    requires ParseExpression(body) == Ok(x, end) && ParseExpression(other) == Ok(y, Mark(Semi, rest))
    ensures end == Mark(Semi, rest) ==> ParseInvariant(Mark(AlwaysKw, Mark(Colon, body))) == Ok(Always(x), rest)
    ensures end == Mark(Semi, rest) ==> ParseInvariant(Mark(NeverKw, Mark(Colon, body))) == Ok(Never(x), rest)
    ensures end == Mark(ThenKw, Mark(Colon, other)) ==>
              ParseInvariant(Mark(WhenKw, Mark(Colon, body))) == Ok(WhenThen(x, y), rest)
  {
    if end == Mark(Semi, rest) { Colons(body, x, rest); }
    Colons(other, y, rest);
  }

  /** `type n = t` and `emit n: t;`. */
  lemma {:induction false} Declarations(n: string, typeText: Text, t: TypeExpr, end: Text, rest: Text)
    requires ParseType(typeText) == Ok(t, end)
    ensures ParseDeclaration(Mark(TypeKw, Name(n, Mark(Assign, typeText)))) == Ok(TypeDef(n, t), end)
    ensures end == Mark(Semi, rest) ==>
              ParseDeclaration(Mark(EmitKw, Name(n, Mark(Colon, typeText)))) == Ok(EmitDecl(n, t), rest)
  {
  }

  /** `observe n as m { body }`: the signal, then the name its value gets. */
  lemma {:induction false} Observers(n: string, m: string, block: Text, body: seq<Stmt>, rest: Text)
    requires ParseBlock(block) == Ok(body, rest)
    ensures ParseDeclaration(Mark(ObserveKw, Name(n, Name("as", Name(m, block))))) == Ok(Observe(n, m, body), rest)
  {
  }

  /** `n<types>`, which takes no arrow, and `(types)`, a builtin, a level or a name, which may. */
  lemma {:induction false} Types(n: string, b: Builtin, l: Level, inner: Text, ts: seq<TypeExpr>, rest: Text)
    requires !(rest.More? && (rest.head == Sym(Arrow) || rest.head == Sym(Operator(Lt))))
    ensures ParseTypes(inner) == Ok(ts, Mark(Operator(Gt), rest)) ==>
              ParseType(Name(n, Mark(Operator(Lt), inner))) == Ok(GenericType(n, ts), rest)
    ensures ParseTypes(inner) == Ok(ts, Mark(RParen, rest)) ==>
              ParseType(Mark(LParen, inner)) == Ok(TupleType(ts), rest)
    ensures ParseType(Mark(BuiltinKw(b), rest)) == Ok(BaseType(Builtin(b)), rest)
    ensures ParseType(Mark(LevelKw(l), rest)) == Ok(AuthLevelType(l), rest)
    ensures ParseType(Name(n, rest)) == Ok(BaseType(Named(n)), rest)
  {
  }

  /** `b -> r`: what stands left of the arrow is the parameter. */
  lemma {:induction false} Arrows(b: Builtin, body: Text, r: TypeExpr, rest: Text)
    requires ParseType(body) == Ok(r, rest)
    ensures ParseType(Mark(BuiltinKw(b), Mark(Arrow, body))) == Ok(FunctionType(BaseType(Builtin(b)), r), rest)
  {
  }
}
