/** Tokens and syntax trees of the ULX language, as the lexer hands them to the parser
    and as the parser hands them to the compiler and the interpreter. */
module Ast {
  import opened Wrappers

  // ---- tokens ----

  datatype BinaryOp = Or | And | Eq | Ne | Gt | Lt | Ge | Le | Add | Sub | Mul | Div | Mod

  datatype Builtin = BoolType | IntType | FloatType | StrType | VoidType | AnyType

  datatype Level = Pure | Lawful | Reactive | Sovereign

  /** Keywords and punctuation: the tokens whose kind is their own text. */
  datatype Symbol =
    | BuiltinKw(builtin: Builtin) | LevelKw(level: Level)
    | AlwaysKw | AnchorKw | AssertKw | BindKw | ElseKw | EmitKw | EnforceKw | FalseKw | FnKw | IfKw
    | LetKw | MatchKw | ModuleKw | NeverKw | ObserveKw | ReturnKw | RollbackKw | ThenKw | TrueKw
    | TrustKw | TypeKw | WhenKw | OtherKw
    | Arrow | FatArrow | PipeOp | Scope | Assign | Bang | Colon | Semi | Comma | Dot
    | LParen | RParen | LBrace | RBrace | LBracket | RBracket
    | Operator(op: BinaryOp)

  datatype Token =
    | IntTok(i: nat) | FloatTok(r: real) | StrTok(s: string)
    | IdentTok(name: string) | AnnotationTok(text: string)
    | Sym(sym: Symbol) | Eof

  /** The `kind` field of a token; also what an authority annotation `[...]` stores. */
  datatype Kind = IntKind | FloatKind | StringKind | IdentKind | AnnotationKind | EofKind | SymKind(sym: Symbol)

  function KindOf(t: Token): Kind {
    match t
    case IntTok(_) => IntKind
    case FloatTok(_) => FloatKind
    case StrTok(_) => StringKind
    case IdentTok(_) => IdentKind
    case AnnotationTok(_) => AnnotationKind
    case Sym(s) => SymKind(s)
    case Eof => EofKind
  }

  /** Tokens still unread. */
  datatype Text = End | More(head: Token, tail: Text)

  /** Lexer output: exactly one EOF, at the end. */
  predicate Lexed(toks: seq<Token>) {
    && |toks| > 0
    && toks[|toks| - 1] == Eof
    && forall k :: 0 <= k < |toks| - 1 ==> toks[k] != Eof
  }

  // ---- syntax trees ----

  datatype TypeName = Builtin(builtin: Builtin) | Named(name: string)

  datatype TypeExpr =
    | BaseType(base: TypeName)
    | GenericType(name: string, args: seq<TypeExpr>)
    | AuthLevelType(level: Level)
    | TupleType(items: seq<TypeExpr>)
    | FunctionType(param: TypeExpr, ret: TypeExpr)

  datatype Constant = CInt(i: nat) | CFloat(r: real) | CStr(s: string) | CBool(b: bool) | CNone

  datatype UnaryOp = Not | Neg

  datatype Pattern = WildcardPat | LiteralPat(value: Constant) | BindPat(name: string)

  datatype Expr =
    | Lit(value: Constant)
    | Ident(name: string)
    | Member(target: Expr, field: string)
    | BinOp(op: BinaryOp, left: Expr, right: Expr)
    | UnOp(uop: UnaryOp, operand: Expr)
    | Pipe(left: Expr, right: Expr)
    | Call(target: Expr, args: seq<Expr>)
    | ScopeResolve(target: Expr, name: string)
    | Tuple(items: seq<Expr>)
    | Record(typeName: string, fields: seq<Field>)
    | If(cond: Expr, thenB: seq<Stmt>, elseB: Else)
    | Match(subject: Expr, arms: seq<Arm>)
    | Let(name: string, ty: TypeExpr, expr: Expr)
    | Assert(expr: Expr)
    | EnforceExpr(expr: Expr)
    | AnchorExpr(expr: Expr)
    | TrustRef(name: string)

  datatype Field = Field(name: string, value: Expr)

  datatype Arm = Arm(pat: Pattern, result: Expr)

  datatype Else = NoElse | Else(block: seq<Stmt>)

  datatype Stmt =
    | Bind(name: string, ty: TypeExpr, expr: Expr)
    | Return(expr: Expr)
    | Enforce(expr: Expr)
    | Anchor(expr: Expr)
    | Rollback(expr: Expr)
    | Emit(name: string, expr: Expr)
    | ExprStmt(expr: Expr)
    | IfStmt(cond: Expr, thenB: seq<Stmt>, elseB: Else)

  datatype Invariant = Always(expr: Expr) | Never(expr: Expr) | WhenThen(trigger: Expr, response: Expr)

  datatype Article = Article(name: string, invariants: seq<Invariant>)

  datatype Param = Param(name: string, ty: TypeExpr)

  datatype Decl =
    | Function(name: string, params: seq<Param>, ret: TypeExpr, authority: Option<Kind>, body: seq<Stmt>)
    | TypeDef(name: string, ty: TypeExpr)
    | BindDecl(name: string, ty: TypeExpr, expr: Expr)
    | Observe(signal: string, binding: string, body: seq<Stmt>)
    | EmitDecl(name: string, ty: TypeExpr)

  datatype Module = Module(name: string, authority: Kind, decls: seq<Decl>)

  datatype Program = Program(constitution: Option<seq<Article>>, modules: seq<Module>)

  // ---- the trees the parser can build ----

  predicate WfType(t: TypeExpr) {
    match t
    case BaseType(_) => true
    case AuthLevelType(_) => true
    case GenericType(_, args) => |args| > 0 && forall a | a in args :: WfType(a)
    case TupleType(items) => |items| > 0 && forall a | a in items :: WfType(a)
    case FunctionType(p, r) => !p.GenericType? && !p.FunctionType? && WfType(p) && WfType(r)
  }

  predicate WfPattern(p: Pattern) {
    match p
    case WildcardPat => true
    case LiteralPat(c) => c != CNone
    case BindPat(name) => name != "_"
  }

  predicate DistinctNames(fields: seq<Field>) {
    forall a, b :: 0 <= a < b < |fields| ==> fields[a].name != fields[b].name
  }

  predicate WfExpr(e: Expr) {
    match e
    case Lit(_) => true
    case Ident(_) => true
    case Member(t, _) => WfExpr(t)
    case BinOp(_, l, r) => WfExpr(l) && WfExpr(r)
    case UnOp(_, x) => WfExpr(x)
    case Pipe(l, r) => WfExpr(l) && WfExpr(r)
    case Call(t, args) => WfExpr(t) && forall a | a in args :: WfExpr(a)
    case ScopeResolve(t, _) => WfExpr(t)
    case Tuple(items) => |items| >= 2 && forall a | a in items :: WfExpr(a)
    case Record(_, fields) => DistinctNames(fields) && forall f | f in fields :: WfExpr(f.value)
    case If(c, t, f) =>
      WfExpr(c) && (forall s | s in t :: WfStmt(s)) && (f.Else? ==> forall s | s in f.block :: WfStmt(s))
    case Match(s, arms) => WfExpr(s) && forall a | a in arms :: WfPattern(a.pat) && WfExpr(a.result)
    case Let(_, t, x) => WfType(t) && WfExpr(x)
    case Assert(x) => WfExpr(x)
    case EnforceExpr(x) => WfExpr(x)
    case AnchorExpr(x) => WfExpr(x)
    case TrustRef(_) => true
  }

  predicate WfStmt(s: Stmt) {
    match s
    case Bind(_, t, x) => WfType(t) && WfExpr(x)
    case Return(x) => WfExpr(x)
    case Enforce(x) => WfExpr(x)
    case Anchor(x) => WfExpr(x)
    case Rollback(x) => WfExpr(x)
    case Emit(_, x) => WfExpr(x)
    case ExprStmt(x) => WfExpr(x)
    case IfStmt(_, _, _) => false
  }

  predicate WfDecl(d: Decl) {
    match d
    case Function(_, params, ret, authority, body) =>
      && (forall p | p in params :: WfType(p.ty))
      && WfType(ret)
      && authority != Some(EofKind)
      && forall s | s in body :: WfStmt(s)
    case TypeDef(_, t) => WfType(t)
    case BindDecl(_, t, e) => WfType(t) && WfExpr(e)
    case Observe(_, _, body) => forall s | s in body :: WfStmt(s)
    case EmitDecl(_, t) => WfType(t)
  }

  predicate WfInvariant(v: Invariant) {
    match v
    case Always(e) => WfExpr(e)
    case Never(e) => WfExpr(e)
    case WhenThen(t, r) => WfExpr(t) && WfExpr(r)
  }

  predicate WfModule(m: Module) {
    m.authority != EofKind && forall d | d in m.decls :: WfDecl(d)
  }

  predicate WfProgram(p: Program) {
    && (p.constitution.Some? ==> forall a | a in p.constitution.value :: forall v | v in a.invariants :: WfInvariant(v))
    && forall m | m in p.modules :: WfModule(m)
  }
}
