/** The grammar read in the other direction: how a tree is written down, an operand in parentheses
    exactly when its own level is below the one its place expects (and so are `if` conditions and
    `match` subjects, since an identifier directly before `{` would start a record literal).  Every
    function takes the text that follows and puts its own tokens in front. */
module Printer {
  import opened Ast
  import opened Grammar


  /** A symbol, then `ts`. */
  function Put(s: Symbol, ts: Text): Text { More(Sym(s), ts) }

  function PutIdent(name: string, ts: Text): Text { More(IdentTok(name), ts) }

  function PrintType(t: TypeExpr, ts: Text): Text
    decreases t, 2
  {
    match t
    case BaseType(Builtin(b)) => Put(BuiltinKw(b), ts)
    case BaseType(Named(name)) => PutIdent(name, ts)
    case AuthLevelType(l) => Put(LevelKw(l), ts)
    case GenericType(name, args) => PutIdent(name, Put(Operator(Lt), PrintTypes(args, Put(Operator(Gt), ts))))
    case TupleType(items) => Put(LParen, PrintTypes(items, Put(RParen, ts)))
    case FunctionType(p, r) => PrintType(p, Put(Arrow, PrintType(r, ts)))
  }

  function PrintTypes(types: seq<TypeExpr>, ts: Text): Text
    decreases types, 1
  {
    if types == [] then ts else PrintType(types[0], PrintTypesTail(types[1..], ts))
  }

  function PrintTypesTail(types: seq<TypeExpr>, ts: Text): Text
    decreases types, 0
  {
    if types == [] then ts else Put(Comma, PrintType(types[0], PrintTypesTail(types[1..], ts)))
  }

  /** The level a tree belongs to: 0 for the forms that extend as far right as they can,
      1-7 for the binary levels, 8 unary, 9 postfix, 10 primary. */
  function Prec(e: Expr): (k: nat)
    ensures k <= 10
  {
    match e
    case Let(_, _, _) => 0
    case Assert(_) => 0
    case EnforceExpr(_) => 0
    case AnchorExpr(_) => 0
    case Pipe(_, _) => PIPE
    case BinOp(op, _, _) => OpLevel(op)
    case UnOp(_, _) => UNARY
    case Member(_, _) => 9
    case Call(_, _) => 9
    case ScopeResolve(_, _) => 9
    case _ => 10
  }

  /** The text of `e` where an operand of level `k` is expected. */
  function Print(e: Expr, k: nat, ts: Text): Text
    decreases e, 2
  {
    if Prec(e) < k then Put(LParen, Body(e, Put(RParen, ts))) else Body(e, ts)
  }

  function Body(e: Expr, ts: Text): Text
    decreases e, 1
  {
    match e
    case Lit(c) => More(PrintConstant(c), ts)
    case Ident(name) => PutIdent(name, ts)
    case TrustRef(name) => Put(TrustKw, PutIdent(name, ts))
    case Member(t, f) => Print(t, 9, Put(Dot, PutIdent(f, ts)))
    case ScopeResolve(t, f) => Print(t, 9, Put(Scope, PutIdent(f, ts)))
    case Call(t, args) => Print(t, 9, Put(LParen, PrintArgs(args, Put(RParen, ts))))
    case UnOp(op, x) => Put(if op.Not? then Bang else Operator(Sub), Print(x, UNARY, ts))
    case Pipe(l, r) => Print(l, PIPE, Put(PipeOp, Print(r, PIPE + 1, ts)))
    case BinOp(op, l, r) => Print(l, OpLevel(op), Put(Operator(op), Print(r, OpLevel(op) + 1, ts)))
    case Tuple(items) => Put(LParen, PrintArgs(items, Put(RParen, ts)))
    case Record(name, fields) => PutIdent(name, Put(LBrace, PrintFields(fields, ts)))
    case If(c, t, f) => Put(IfKw, Put(LParen, Print(c, 0, Put(RParen, PrintBlock(t, PrintElse(f, ts))))))
    case Match(s, arms) =>
      Put(MatchKw, Put(LParen, Print(s, 0, Put(RParen, Put(LBrace, PrintArms(arms, Put(RBrace, ts)))))))
    case Let(name, ty, x) => Put(LetKw, PutIdent(name, Put(Colon, PrintType(ty, Put(Assign, Print(x, 0, ts))))))
    case Assert(x) => Put(AssertKw, Print(x, 0, ts))
    case EnforceExpr(x) => Put(EnforceKw, Put(Colon, Print(x, 0, ts)))
    case AnchorExpr(x) => Put(AnchorKw, Put(Colon, Print(x, 0, ts)))
  }

  function PrintConstant(c: Constant): Token {
    match c
    case CInt(n) => IntTok(n)
    case CFloat(x) => FloatTok(x)
    case CStr(s) => StrTok(s)
    case CBool(b) => Sym(if b then TrueKw else FalseKw)
    case CNone => Sym(BuiltinKw(VoidType))
  }

  function PrintPattern(p: Pattern): Token {
    match p
    case WildcardPat => IdentTok("_")
    case LiteralPat(c) => PrintConstant(c)
    case BindPat(name) => IdentTok(name)
  }

  function PrintArgs(es: seq<Expr>, ts: Text): Text
    decreases es, 1
  {
    if es == [] then ts else Print(es[0], 0, PrintTail(es[1..], ts))
  }

  function PrintTail(es: seq<Expr>, ts: Text): Text
    decreases es, 0
  {
    if es == [] then ts else Put(Comma, Print(es[0], 0, PrintTail(es[1..], ts)))
  }

  /** Fields up to and including the closing brace. */
  function PrintFields(fs: seq<Field>, ts: Text): Text
    decreases fs, 0
  {
    if fs == [] then Put(RBrace, ts) else PrintField(fs[0], PrintFields(fs[1..], ts))
  }

  function PrintField(f: Field, ts: Text): Text
    decreases f, 3
  {
    PutIdent(f.name, Put(Colon, Print(f.value, 0, Put(Comma, ts))))
  }

  function PrintArms(arms: seq<Arm>, ts: Text): Text
    decreases arms, 0
  {
    if arms == [] then ts else PrintArm(arms[0], PrintArms(arms[1..], ts))
  }

  function PrintArm(arm: Arm, ts: Text): Text
    decreases arm, 3
  {
    More(PrintPattern(arm.pat), Put(FatArrow, Print(arm.result, 0, Put(Comma, ts))))
  }

  function PrintElse(f: Else, ts: Text): Text
    decreases f, 2
  {
    if f.Else? then Put(ElseKw, PrintBlock(f.block, ts)) else ts
  }

  function PrintBlock(stmts: seq<Stmt>, ts: Text): Text
    decreases stmts, 1
  {
    Put(LBrace, PrintStmts(stmts, Put(RBrace, ts)))
  }

  function PrintStmts(stmts: seq<Stmt>, ts: Text): Text
    decreases stmts, 0
  {
    if stmts == [] then ts else PrintStmt(stmts[0], PrintStmts(stmts[1..], ts))
  }

  function PrintStmt(s: Stmt, ts: Text): Text
    decreases s, 4
  {
    match s
    case Bind(name, ty, x) => Put(BindKw, PrintBind(name, ty, x, ts))
    case Return(x) => Put(ReturnKw, Print(x, 0, Put(Semi, ts)))
    case Enforce(x) => Put(EnforceKw, Put(Colon, Print(x, 0, Put(Semi, ts))))
    case Anchor(x) => Put(AnchorKw, Put(Colon, Print(x, 0, Put(Semi, ts))))
    case Rollback(x) => Put(RollbackKw, Put(Colon, Print(x, 0, Put(Semi, ts))))
    case Emit(name, x) => Put(EmitKw, PutIdent(name, Put(Colon, Print(x, 0, Put(Semi, ts)))))
    // at the head of a statement `enforce` and `anchor` are statement keywords
    case ExprStmt(x) => Print(x, if x.EnforceExpr? || x.AnchorExpr? then PIPE else 0, Put(Semi, ts))
    // the parser never builds this node; written like the expression
    case IfStmt(c, t, f) => Put(IfKw, Put(LParen, Print(c, 0, Put(RParen, PrintBlock(t, PrintElse(f, Put(Semi, ts)))))))
  }

  /** `name : type = expr ;` */
  function PrintBind(name: string, ty: TypeExpr, x: Expr, ts: Text): Text
    decreases x, 3
  {
    PutIdent(name, Put(Colon, PrintType(ty, Put(Assign, Print(x, 0, Put(Semi, ts))))))
  }

  // ---- what may follow ----

  /** Can this token continue an expression of level `k`? */
  predicate Continues(t: Token, k: nat) {
    || (LevelOf(t) > 0 && LevelOf(t) >= k)
    || (k <= 9 && (t == Sym(Dot) || t == Sym(LParen) || t == Sym(Scope)))
    || t == Sym(LBrace)
    || t == Sym(ElseKw)
  }

  /** The text starts with a token that ends an expression of level `k`. */
  predicate Stops(ts: Text, k: nat) {
    ts.More? && !Continues(ts.head, k)
  }

  predicate StopsType(ts: Text) {
    !At(ts, Arrow) && !At(ts, Operator(Lt))
  }
}
