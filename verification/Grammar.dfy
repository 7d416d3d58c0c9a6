/** What each parsing routine returns, as a function of the tokens still unread.  Every routine
    terminates because each call either consumes a token or goes down one grammar level. */
module Grammar {
  import opened Wrappers
  import opened Ast

  /** `Ok(value, rest)`: the tree built and the tokens left.  `Err`: ParseError. */
  datatype Parsed<+T> = Ok(value: T, rest: Text) | Err {
    predicate IsFailure() { Err? }
    function PropagateFailure<U>(): Parsed<U> requires Err? { Err }
    function Extract(): (T, Text) requires Ok? { (value, rest) }

    /** Something was consumed. */
    predicate Shorter(ts: Text) { Ok? ==> Len(rest) < Len(ts) }

    predicate NoLonger(ts: Text) { Ok? ==> Len(rest) <= Len(ts) }
  }

  function Len(ts: Text): nat {
    if ts.More? then 1 + Len(ts.tail) else 0
  }

  predicate At(ts: Text, s: Symbol) {
    ts.More? && ts.head == Sym(s)
  }

  function Expect(ts: Text, s: Symbol): (r: Parsed<()>)
    ensures r.Shorter(ts)
  {
    if At(ts, s) then Ok((), ts.tail) else Err
  }

  function ExpectIdent(ts: Text): (r: Parsed<string>)
    ensures r.Shorter(ts)
  {
    if ts.More? && ts.head.IdentTok? then Ok(ts.head.name, ts.tail) else Err
  }

  /** `expect(s) if at(s) else None` */
  function Skip(ts: Text, s: Symbol): (r: Text)
    ensures Len(r) <= Len(ts)
  {
    if At(ts, s) then ts.tail else ts
  }

  function Prepend<T>(acc: seq<T>, r: Parsed<seq<T>>): Parsed<seq<T>> {
    match r
    case Err => Err
    case Ok(xs, rest) => Ok(acc + xs, rest)
  }

  // ---- types ----

  function ParseType(ts: Text): (r: Parsed<TypeExpr>)
    ensures r.Shorter(ts) && (r.Ok? ==> WfType(r.value))
    decreases Len(ts), 2
  {
    if ts.End? then Err else
    match ts.head
    case IdentTok(name) =>
      if At(ts.tail, Operator(Lt)) then
        assert Len(ts.tail.tail) < Len(ts.tail);
        var (args, ts1) :- ParseTypes(ts.tail.tail);
        var (_, ts2) :- Expect(ts1, Operator(Gt));
        Ok(GenericType(name, args), ts2)
      else
        TypeArrow(BaseType(Named(name)), ts.tail)
    case Sym(BuiltinKw(b)) => TypeArrow(BaseType(Builtin(b)), ts.tail)
    case Sym(LevelKw(l)) => TypeArrow(AuthLevelType(l), ts.tail)
    case Sym(LParen) =>
      var (items, ts1) :- ParseTypes(ts.tail);
      var (_, ts2) :- Expect(ts1, RParen);
      TypeArrow(TupleType(items), ts2)
    case _ => Err
  }

  function TypeArrow(t: TypeExpr, ts: Text): (r: Parsed<TypeExpr>)
    ensures r.NoLonger(ts)
    ensures r.Ok? && WfType(t) && !t.GenericType? && !t.FunctionType? ==> WfType(r.value)
    decreases Len(ts), 3
  {
    if At(ts, Arrow) then
      var (ret, ts1) :- ParseType(ts.tail);
      Ok(FunctionType(t, ret), ts1)
    else
      Ok(t, ts)
  }

  function ParseTypes(ts: Text): (r: Parsed<seq<TypeExpr>>)
    ensures r.Shorter(ts) && (r.Ok? ==> |r.value| > 0 && forall t | t in r.value :: WfType(t))
    decreases Len(ts), 3
  {
    var (t, ts1) :- ParseType(ts);
    Prepend([t], TypesTail(ts1))
  }

  function TypesTail(ts: Text): (r: Parsed<seq<TypeExpr>>)
    ensures r.NoLonger(ts) && (r.Ok? ==> forall t | t in r.value :: WfType(t))
    decreases Len(ts), 1
  {
    if At(ts, Comma) then
      var (t, ts1) :- ParseType(ts.tail);
      Prepend([t], TypesTail(ts1))
    else
      Ok([], ts)
  }

  // ---- expressions ----

  const PIPE := 1
  const UNARY := 8

  /** The binary level whose loop consumes this token: 1 `|>`, 2 `||`, 3 `&&`, 4 equality,
      5 comparison, 6 additive, 7 multiplicative; 0 for every other token. */
  function LevelOf(t: Token): nat {
    match t
    case Sym(PipeOp) => 1
    case Sym(Operator(op)) => OpLevel(op)
    case _ => 0
  }

  function OpLevel(op: BinaryOp): (k: nat)
    ensures 2 <= k <= 7
  {
    match op
    case Or => 2
    case And => 3
    case Eq => 4
    case Ne => 4
    case Gt => 5
    case Lt => 5
    case Ge => 5
    case Le => 5
    case Add => 6
    case Sub => 6
    case Mul => 7
    case Div => 7
    case Mod => 7
  }

  function Join(t: Token, left: Expr, right: Expr): Expr
    requires LevelOf(t) > 0
  {
    if t.sym == PipeOp then Pipe(left, right) else BinOp(t.sym.op, left, right)
  }

  function ParseExpression(ts: Text): (r: Parsed<Expr>)
    ensures r.Shorter(ts) && (r.Ok? ==> WfExpr(r.value))
    decreases Len(ts), 20
  {
    ParseBinary(PIPE, ts)
  }

  /** `parse_pipe` ... `parse_multiplicative`: one operand of the next level, then the level's loop. */
  function ParseBinary(k: nat, ts: Text): (r: Parsed<Expr>)
    requires PIPE <= k <= UNARY
    ensures r.Shorter(ts) && (r.Ok? ==> WfExpr(r.value))
    decreases Len(ts), 19 - k
  {
    if k == UNARY then
      ParseUnary(ts)
    else
      var (left, ts1) :- ParseBinary(k + 1, ts);
      BinaryLoop(k, left, ts1)
  }

  function BinaryLoop(k: nat, left: Expr, ts: Text): (r: Parsed<Expr>)
    requires PIPE <= k < UNARY
    ensures r.NoLonger(ts) && (r.Ok? && WfExpr(left) ==> WfExpr(r.value))
    decreases Len(ts), 19
  {
    if ts.More? && LevelOf(ts.head) == k then
      var (right, ts1) :- ParseBinary(k + 1, ts.tail);
      BinaryLoop(k, Join(ts.head, left, right), ts1)
    else
      Ok(left, ts)
  }

  function ParseUnary(ts: Text): (r: Parsed<Expr>)
    ensures r.Shorter(ts) && (r.Ok? ==> WfExpr(r.value))
    decreases Len(ts), 9
  {
    if At(ts, Bang) then
      var (x, ts1) :- ParseUnary(ts.tail);
      Ok(UnOp(Not, x), ts1)
    else if At(ts, Operator(Sub)) then
      var (x, ts1) :- ParseUnary(ts.tail);
      Ok(UnOp(Neg, x), ts1)
    else
      ParsePostfix(ts)
  }

  function ParsePostfix(ts: Text): (r: Parsed<Expr>)
    ensures r.Shorter(ts) && (r.Ok? ==> WfExpr(r.value))
    decreases Len(ts), 8
  {
    var (x, ts1) :- ParsePrimary(ts);
    PostfixLoop(x, ts1)
  }

  function PostfixLoop(e: Expr, ts: Text): (r: Parsed<Expr>)
    ensures r.NoLonger(ts) && (r.Ok? && WfExpr(e) ==> WfExpr(r.value))
    decreases Len(ts), 8
  {
    if At(ts, Dot) then
      var (f, ts1) :- ExpectIdent(ts.tail);
      PostfixLoop(Member(e, f), ts1)
    else if At(ts, LParen) then
      var (args, ts1) :- ParseArgs(ts.tail);
      var (_, ts2) :- Expect(ts1, RParen);
      PostfixLoop(Call(e, args), ts2)
    else if At(ts, Scope) then
      var (f, ts1) :- ExpectIdent(ts.tail);
      PostfixLoop(ScopeResolve(e, f), ts1)
    else
      Ok(e, ts)
  }

  function ParseArgs(ts: Text): (r: Parsed<seq<Expr>>)
    ensures r.NoLonger(ts) && (r.Ok? ==> forall e | e in r.value :: WfExpr(e))
    decreases Len(ts), 22
  {
    if At(ts, RParen) then Ok([], ts) else ParseExprs(ts)
  }

  function ParseExprs(ts: Text): (r: Parsed<seq<Expr>>)
    ensures r.Shorter(ts) && (r.Ok? ==> |r.value| > 0 && forall e | e in r.value :: WfExpr(e))
    decreases Len(ts), 21
  {
    var (e, ts1) :- ParseExpression(ts);
    Prepend([e], ExprsTail(ts1))
  }

  function ExprsTail(ts: Text): (r: Parsed<seq<Expr>>)
    ensures r.NoLonger(ts) && (r.Ok? ==> forall e | e in r.value :: WfExpr(e))
    decreases Len(ts), 1
  {
    if At(ts, Comma) then
      var (e, ts1) :- ParseExpression(ts.tail);
      Prepend([e], ExprsTail(ts1))
    else
      Ok([], ts)
  }

  function ParsePrimary(ts: Text): (r: Parsed<Expr>)
    ensures r.Shorter(ts) && (r.Ok? ==> WfExpr(r.value))
    decreases Len(ts), 7
  {
    if ts.End? then Err else
    match ts.head
    case IntTok(n) => Ok(Lit(CInt(n)), ts.tail)
    case FloatTok(x) => Ok(Lit(CFloat(x)), ts.tail)
    case StrTok(s) => Ok(Lit(CStr(s)), ts.tail)
    case IdentTok(name) =>
      if At(ts.tail, LBrace) then
        assert Len(ts.tail.tail) < Len(ts.tail);
        var (fields, ts1) :- FieldsTail([], ts.tail.tail);
        Ok(Record(name, fields), ts1)
      else
        Ok(Ident(name), ts.tail)
    case Sym(s) => ParseKeyword(s, ts.tail)
    case _ => Err
  }

  /** The primaries that start with a keyword or a parenthesis. */
  function ParseKeyword(s: Symbol, ts: Text): (r: Parsed<Expr>)
    ensures r.NoLonger(ts) && (r.Ok? ==> WfExpr(r.value))
    decreases Len(ts), 24
  {
    match s
    case TrueKw => Ok(Lit(CBool(true)), ts)
    case FalseKw => Ok(Lit(CBool(false)), ts)
    case BuiltinKw(b) => if b == VoidType then Ok(Lit(CNone), ts) else Err
    case TrustKw =>
      var (name, ts1) :- ExpectIdent(ts);
      Ok(TrustRef(name), ts1)
    case AssertKw =>
      var (e, ts1) :- ParseExpression(ts);
      Ok(Assert(e), ts1)
    case EnforceKw =>
      var (_, ts1) :- Expect(ts, Colon);
      var (e, ts2) :- ParseExpression(ts1);
      Ok(EnforceExpr(e), ts2)
    case AnchorKw =>
      var (_, ts1) :- Expect(ts, Colon);
      var (e, ts2) :- ParseExpression(ts1);
      Ok(AnchorExpr(e), ts2)
    case LParen => ParseParens(ts)
    case LetKw => ParseLet(ts)
    case IfKw => ParseIf(ts)
    case MatchKw => ParseMatch(ts)
    case _ => Err
  }

  /** After `(`: one expression is returned as it stands, two or more form a tuple. */
  function ParseParens(ts: Text): (r: Parsed<Expr>)
    ensures r.Shorter(ts) && (r.Ok? ==> WfExpr(r.value))
    decreases Len(ts), 23
  {
    var (items, ts1) :- ParseExprs(ts);
    var (_, ts2) :- Expect(ts1, RParen);
    Ok(if |items| == 1 then items[0] else Tuple(items), ts2)
  }

  function ParseLet(ts: Text): (r: Parsed<Expr>)
    ensures r.Shorter(ts) && (r.Ok? ==> WfExpr(r.value))
    decreases Len(ts), 23
  {
    var (name, ts1) :- ExpectIdent(ts);
    var (_, ts2) :- Expect(ts1, Colon);
    var (ty, ts3) :- ParseType(ts2);
    var (_, ts4) :- Expect(ts3, Assign);
    var (e, ts5) :- ParseExpression(ts4);
    Ok(Let(name, ty, e), ts5)
  }

  function ParseIf(ts: Text): (r: Parsed<Expr>)
    ensures r.Shorter(ts) && (r.Ok? ==> WfExpr(r.value))
    decreases Len(ts), 23
  {
    var (cond, ts1) :- ParseExpression(ts);
    var (thenB, ts2) :- ParseBlock(Skip(ts1, ThenKw));
    if At(ts2, ElseKw) then
      var (elseB, ts3) :- ParseBlock(ts2.tail);
      Ok(If(cond, thenB, Else(elseB)), ts3)
    else
      Ok(If(cond, thenB, NoElse), ts2)
  }

  function ParseMatch(ts: Text): (r: Parsed<Expr>)
    ensures r.Shorter(ts) && (r.Ok? ==> WfExpr(r.value))
    decreases Len(ts), 23
  {
    var (subject, ts1) :- ParseExpression(ts);
    var (_, ts2) :- Expect(ts1, LBrace);
    var (arms, ts3) :- ArmsTail(ts2);
    var (_, ts4) :- Expect(ts3, RBrace);
    Ok(Match(subject, arms), ts4)
  }

  function ArmsTail(ts: Text): (r: Parsed<seq<Arm>>)
    ensures r.NoLonger(ts) && (r.Ok? ==> forall a | a in r.value :: WfPattern(a.pat) && WfExpr(a.result))
    decreases Len(ts), 22
  {
    if At(ts, RBrace) then
      Ok([], ts)
    else
      var (arm, ts1) :- ParseArm(ts);
      Prepend([arm], ArmsTail(ts1))
  }

  function ParseArm(ts: Text): (r: Parsed<Arm>)
    ensures r.Shorter(ts) && (r.Ok? ==> WfPattern(r.value.pat) && WfExpr(r.value.result))
    decreases Len(ts), 21
  {
    var (pat, ts1) :- ParsePattern(ts);
    var (_, ts2) :- Expect(ts1, FatArrow);
    var (res, ts3) :- ParseExpression(ts2);
    Ok(Arm(pat, res), Skip(ts3, Comma))
  }

  function ParsePattern(ts: Text): (r: Parsed<Pattern>)
    ensures r.Shorter(ts) && (r.Ok? ==> WfPattern(r.value))
  {
    if ts.End? then Err else
    match ts.head
    case IdentTok(name) => Ok(if name == "_" then WildcardPat else BindPat(name), ts.tail)
    case IntTok(n) => Ok(LiteralPat(CInt(n)), ts.tail)
    case FloatTok(x) => Ok(LiteralPat(CFloat(x)), ts.tail)
    case StrTok(s) => Ok(LiteralPat(CStr(s)), ts.tail)
    case Sym(s) =>
      if s == TrueKw || s == FalseKw then Ok(LiteralPat(CBool(s == TrueKw)), ts.tail) else Err
    case _ => Err
  }

  /** Assignment into an insertion-ordered dictionary: an existing name keeps its place. */
  function DictSet(fields: seq<Field>, name: string, value: Expr): (r: seq<Field>)
    ensures |r| == |fields| || r == fields + [Field(name, value)]
    ensures forall k | 0 <= k < |fields| :: r[k].name == fields[k].name
    ensures forall k | 0 <= k < |fields| :: r[k] == fields[k] || r[k] == Field(name, value)
    ensures |r| > |fields| <==> forall k | 0 <= k < |fields| :: fields[k].name != name
  {
    if fields == [] then [Field(name, value)]
    else if fields[0].name == name then [Field(name, value)] + fields[1..]
    else
      var rest := fields[1..];
      var r := DictSet(rest, name, value);
      assert forall k | 0 < k < |fields| :: fields[k] == rest[k - 1] && ([fields[0]] + r)[k] == r[k - 1];
      assert |r| > |rest| <==> forall k | 0 <= k < |fields| :: fields[k].name != name by {
        if forall k | 0 <= k < |fields| :: fields[k].name != name {
          assert forall k | 0 <= k < |rest| :: rest[k] == fields[k + 1];
        }
      }
      [fields[0]] + r
  }

  lemma DictSetWf(fields: seq<Field>, name: string, value: Expr)
    requires WfFields(fields) && WfExpr(value)
    ensures WfFields(DictSet(fields, name, value))
  {
    var r := DictSet(fields, name, value);
    assert DistinctNames(r);
    forall k | 0 <= k < |r|
      ensures WfExpr(r[k].value)
    {
      if k < |fields| { assert fields[k] in fields; }
    }
  }

  predicate WfFields(fields: seq<Field>) {
    DistinctNames(fields) && forall f | f in fields :: WfExpr(f.value)
  }

  function FieldsTail(fields: seq<Field>, ts: Text): (r: Parsed<seq<Field>>)
    ensures r.NoLonger(ts) && (r.Ok? && WfFields(fields) ==> WfFields(r.value))
    decreases Len(ts), 1
  {
    if At(ts, RBrace) then
      Ok(fields, ts.tail)
    else
      var (name, ts1) :- ExpectIdent(ts);
      var (_, ts2) :- Expect(ts1, Colon);
      var (value, ts3) :- ParseExpression(ts2);
      assert WfFields(fields) ==> WfFields(DictSet(fields, name, value)) by {
        if WfFields(fields) { DictSetWf(fields, name, value); }
      }
      FieldsTail(DictSet(fields, name, value), Skip(ts3, Comma))
  }

  // ---- statements ----

  function ParseBlock(ts: Text): (r: Parsed<seq<Stmt>>)
    ensures r.Shorter(ts) && (r.Ok? ==> forall s | s in r.value :: WfStmt(s))
    decreases Len(ts), 2
  {
    var (_, ts1) :- Expect(ts, LBrace);
    var (stmts, ts2) :- StmtsTail(ts1);
    var (_, ts3) :- Expect(ts2, RBrace);
    Ok(stmts, ts3)
  }

  function StmtsTail(ts: Text): (r: Parsed<seq<Stmt>>)
    ensures r.NoLonger(ts) && (r.Ok? ==> forall s | s in r.value :: WfStmt(s))
    decreases Len(ts), 24
  {
    if At(ts, RBrace) then
      Ok([], ts)
    else
      var (s, ts1) :- ParseStatement(ts);
      Prepend([s], StmtsTail(ts1))
  }

  function ParseStatement(ts: Text): (r: Parsed<Stmt>)
    ensures r.Shorter(ts) && (r.Ok? ==> WfStmt(r.value))
    decreases Len(ts), 23
  {
    if At(ts, BindKw) then
      var (b, ts1) :- ParseBind(ts.tail);
      Ok(Bind(b.name, b.ty, b.expr), ts1)
    else if At(ts, ReturnKw) then
      var (e, ts1) :- ExprSemi(ts.tail);
      Ok(Return(e), ts1)
    else if At(ts, EnforceKw) then
      var (e, ts1) :- ColonExprSemi(ts.tail);
      Ok(Enforce(e), ts1)
    else if At(ts, AnchorKw) then
      var (e, ts1) :- ColonExprSemi(ts.tail);
      Ok(Anchor(e), ts1)
    else if At(ts, RollbackKw) then
      var (e, ts1) :- ColonExprSemi(ts.tail);
      Ok(Rollback(e), ts1)
    else if At(ts, EmitKw) then
      var (name, ts1) :- ExpectIdent(ts.tail);
      var (e, ts2) :- ColonExprSemi(ts1);
      Ok(Emit(name, e), ts2)
    else
      var (e, ts1) :- ExprSemi(ts);
      Ok(ExprStmt(e), ts1)
  }

  function ExprSemi(ts: Text): (r: Parsed<Expr>)
    ensures r.Shorter(ts) && (r.Ok? ==> WfExpr(r.value))
    decreases Len(ts), 21
  {
    var (e, ts1) :- ParseExpression(ts);
    var (_, ts2) :- Expect(ts1, Semi);
    Ok(e, ts2)
  }

  function ColonExprSemi(ts: Text): (r: Parsed<Expr>)
    ensures r.Shorter(ts) && (r.Ok? ==> WfExpr(r.value))
    decreases Len(ts), 22
  {
    var (_, ts1) :- Expect(ts, Colon);
    ExprSemi(ts1)
  }

  /** The rest of `bind name : type = expr ;` after the keyword. */
  function ParseBind(ts: Text): (r: Parsed<Decl>)
    ensures r.Shorter(ts) && (r.Ok? ==> r.value.BindDecl? && WfDecl(r.value))
    decreases Len(ts), 22
  {
    var (name, ts1) :- ExpectIdent(ts);
    var (_, ts2) :- Expect(ts1, Colon);
    var (ty, ts3) :- ParseType(ts2);
    var (_, ts4) :- Expect(ts3, Assign);
    var (e, ts5) :- ExprSemi(ts4);
    Ok(BindDecl(name, ty, e), ts5)
  }

  // ---- declarations, modules, the constitution, the program ----

  function ParseDeclaration(ts: Text): (r: Parsed<Decl>)
    ensures r.Shorter(ts) && (r.Ok? ==> WfDecl(r.value))
  {
    if At(ts, FnKw) then ParseFunction(ts.tail)
    else if At(ts, TypeKw) then
      var (name, ts1) :- ExpectIdent(ts.tail);
      var (_, ts2) :- Expect(ts1, Assign);
      var (ty, ts3) :- ParseType(ts2);
      Ok(TypeDef(name, ty), ts3)
    else if At(ts, BindKw) then ParseBind(ts.tail)
    else if At(ts, ObserveKw) then
      var (signal, ts1) :- ExpectIdent(ts.tail);
      var (word, ts2) :- ExpectIdent(ts1);
      if word != "as" then Err else
      var (binding, ts3) :- ExpectIdent(ts2);
      var (body, ts4) :- ParseBlock(ts3);
      Ok(Observe(signal, binding, body), ts4)
    else if At(ts, EmitKw) then
      var (name, ts1) :- ExpectIdent(ts.tail);
      var (_, ts2) :- Expect(ts1, Colon);
      var (ty, ts3) :- ParseType(ts2);
      var (_, ts4) :- Expect(ts3, Semi);
      Ok(EmitDecl(name, ty), ts4)
    else Err
  }

  function ParseFunction(ts: Text): (r: Parsed<Decl>)
    ensures r.Shorter(ts) && (r.Ok? ==> WfDecl(r.value))
  {
    var (name, ts1) :- ExpectIdent(ts);
    var (_, ts2) :- Expect(ts1, LParen);
    var (params, ts3) :- ParseParams(ts2);
    var (_, ts4) :- Expect(ts3, RParen);
    var (_, ts5) :- Expect(ts4, Arrow);
    var (ret, ts6) :- ParseType(ts5);
    var (authority, ts7) :- ParseAuthority(ts6);
    var (body, ts8) :- ParseBlock(ts7);
    Ok(Function(name, params, ret, authority, body), ts8)
  }

  function ParseParams(ts: Text): (r: Parsed<seq<Param>>)
    ensures r.NoLonger(ts) && (r.Ok? ==> forall p | p in r.value :: WfType(p.ty))
  {
    if At(ts, RParen) then
      Ok([], ts)
    else
      var (p, ts1) :- ParseParam(ts);
      Prepend([p], ParamsTail(ts1))
  }

  function ParseParam(ts: Text): (r: Parsed<Param>)
    ensures r.Shorter(ts) && (r.Ok? ==> WfType(r.value.ty))
  {
    var (name, ts1) :- ExpectIdent(ts);
    var (_, ts2) :- Expect(ts1, Colon);
    var (ty, ts3) :- ParseType(ts2);
    Ok(Param(name, ty), ts3)
  }

  function ParamsTail(ts: Text): (r: Parsed<seq<Param>>)
    ensures r.NoLonger(ts) && (r.Ok? ==> forall p | p in r.value :: WfType(p.ty))
    decreases Len(ts)
  {
    if At(ts, Comma) then
      var (p, ts1) :- ParseParam(ts.tail);
      Prepend([p], ParamsTail(ts1))
    else
      Ok([], ts)
  }

  function ParseAuthority(ts: Text): (r: Parsed<Option<Kind>>)
    ensures r.NoLonger(ts) && (r.Ok? && r.value.Some? ==> r.value.value != EofKind)
  {
    if At(ts, LBracket) then
      var (level, ts1) :- ParseGovernedContext(ts);
      Ok(Some(level), ts1)
    else
      Ok(None, ts)
  }

  /** `[level]`; the parser takes the kind of whatever token stands there.  At the final EOF
      `advance` does not move, so the closing bracket is then missing. */
  function ParseGovernedContext(ts: Text): (r: Parsed<Kind>)
    ensures r.Shorter(ts) && (r.Ok? ==> r.value != EofKind)
  {
    var (_, ts1) :- Expect(ts, LBracket);
    if ts1.End? || ts1.head.Eof? then Err else
    var (_, ts2) :- Expect(ts1.tail, RBracket);
    Ok(KindOf(ts1.head), ts2)
  }

  function ParseModule(ts: Text): (r: Parsed<Module>)
    ensures r.Shorter(ts) && (r.Ok? ==> WfModule(r.value))
  {
    var (_, ts1) :- Expect(ts, ModuleKw);
    var (name, ts2) :- ExpectIdent(ts1);
    var (authority, ts3) :- ParseGovernedContext(ts2);
    var (_, ts4) :- Expect(ts3, LBrace);
    var (decls, ts5) :- DeclsTail(ts4);
    var (_, ts6) :- Expect(ts5, RBrace);
    Ok(Module(name, authority, decls), ts6)
  }

  function DeclsTail(ts: Text): (r: Parsed<seq<Decl>>)
    ensures r.NoLonger(ts) && (r.Ok? ==> forall d | d in r.value :: WfDecl(d))
    decreases Len(ts)
  {
    if At(ts, RBrace) then
      Ok([], ts)
    else
      var (d, ts1) :- ParseDeclaration(ts);
      Prepend([d], DeclsTail(ts1))
  }

  predicate AtAnnotation(ts: Text, text: string) {
    ts.More? && ts.head == AnnotationTok(text)
  }

  function ParseInvariant(ts: Text): (r: Parsed<Invariant>)
    ensures r.Shorter(ts) && (r.Ok? ==> WfInvariant(r.value))
  {
    if At(ts, AlwaysKw) then
      var (e, ts1) :- ColonExprSemi(ts.tail);
      Ok(Always(e), ts1)
    else if At(ts, NeverKw) then
      var (e, ts1) :- ColonExprSemi(ts.tail);
      Ok(Never(e), ts1)
    else if At(ts, WhenKw) then
      var (_, ts1) :- Expect(ts.tail, Colon);
      var (trigger, ts2) :- ParseExpression(ts1);
      var (_, ts3) :- Expect(ts2, ThenKw);
      var (response, ts4) :- ColonExprSemi(ts3);
      Ok(WhenThen(trigger, response), ts4)
    else Err
  }

  function InvariantsTail(ts: Text): (r: Parsed<seq<Invariant>>)
    ensures r.NoLonger(ts) && (r.Ok? ==> forall v | v in r.value :: WfInvariant(v))
    decreases Len(ts)
  {
    if At(ts, RBrace) then
      Ok([], ts)
    else
      var (v, ts1) :- ParseInvariant(ts);
      Prepend([v], InvariantsTail(ts1))
  }

  /** `@article name { invariant* }`; the annotation has already been recognised. */
  function ParseArticle(ts: Text): (r: Parsed<Article>)
    ensures r.Shorter(ts) && (r.Ok? ==> forall v | v in r.value.invariants :: WfInvariant(v))
  {
    if ts.End? || !ts.head.AnnotationTok? then Err else
    var (name, ts1) :- ExpectIdent(ts.tail);
    var (_, ts2) :- Expect(ts1, LBrace);
    var (invariants, ts3) :- InvariantsTail(ts2);
    var (_, ts4) :- Expect(ts3, RBrace);
    Ok(Article(name, invariants), ts4)
  }

  function ArticlesTail(ts: Text): (r: Parsed<seq<Article>>)
    ensures r.NoLonger(ts) && (r.Ok? ==> forall a | a in r.value :: forall v | v in a.invariants :: WfInvariant(v))
    decreases Len(ts)
  {
    if AtAnnotation(ts, "@article") then
      var (a, ts1) :- ParseArticle(ts);
      Prepend([a], ArticlesTail(ts1))
    else
      Ok([], ts)
  }

  function ParseConstitution(ts: Text): (r: Parsed<seq<Article>>)
    ensures r.Shorter(ts) && (r.Ok? ==> forall a | a in r.value :: forall v | v in a.invariants :: WfInvariant(v))
  {
    if ts.End? || !ts.head.AnnotationTok? then Err else
    var (_, ts1) :- Expect(ts.tail, LBrace);
    var (articles, ts2) :- ArticlesTail(ts1);
    var (_, ts3) :- Expect(ts2, RBrace);
    Ok(articles, ts3)
  }

  function ModulesTail(ts: Text): (r: Parsed<seq<Module>>)
    ensures r.NoLonger(ts) && (r.Ok? ==> forall m | m in r.value :: WfModule(m))
    ensures r.Ok? ==> r.rest.More? && r.rest.head.Eof?
    decreases Len(ts)
  {
    if ts.More? && ts.head.Eof? then
      Ok([], ts)
    else
      var (m, ts1) :- ParseModule(ts);
      Prepend([m], ModulesTail(ts1))
  }

  function ParseProgram(ts: Text): (r: Parsed<Program>)
    ensures r.NoLonger(ts) && (r.Ok? ==> WfProgram(r.value))
    ensures r.Ok? ==> r.rest.More? && r.rest.head.Eof?
  {
    if AtAnnotation(ts, "@constitution") then
      var (articles, ts1) :- ParseConstitution(ts);
      var (modules, ts2) :- ModulesTail(ts1);
      Ok(Program(Some(articles), modules), ts2)
    else
      var (modules, ts1) :- ModulesTail(ts);
      Ok(Program(None, modules), ts1)
  }
}
