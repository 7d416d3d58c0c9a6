/** The recursive-descent parser over a token list and an index, proved to return what the grammar
    functions say and to leave the index where they say the unread text begins. */
module ParserObject {
  import opened Wrappers
  import opened Ast
  import G = Grammar

  /** A routine's result: the tree, or the ParseError it raises. */
  datatype Outcome<+T> = Built(value: T) | ParseError {
    predicate IsFailure() { ParseError? }
    function PropagateFailure<U>(): Outcome<U> requires ParseError? { ParseError }
    function Extract(): T requires Built? { value }
  }

  function TextFrom(toks: seq<Token>, i: nat): (ts: Text)
    requires i <= |toks|
    ensures G.Len(ts) == |toks| - i
    decreases |toks| - i
  {
    if i == |toks| then End else More(toks[i], TextFrom(toks, i + 1))
  }

  class Parser {
    const toks: seq<Token>
    var i: nat

    ghost predicate Valid()
      reads this
    {
      Lexed(toks) && i < |toks|
    }

    /** The tokens not yet consumed. */
    ghost function Unread(): (ts: Text)
      requires Valid()
      reads this
      ensures ts.More? && ts.head == toks[i]
      ensures ts.head.Eof? <==> i == |toks| - 1
    {
      TextFrom(toks, i)
    }

    /** The outcome and the new index are those of the grammar function. */
    ghost predicate Follows<T>(r: Outcome<T>, spec: G.Parsed<T>)
      requires Valid()
      reads this
    {
      match spec
      case Err => r.ParseError?
      case Ok(v, rest) => r == Built(v) && Unread() == rest
    }

    constructor (tokens: seq<Token>)
      requires Lexed(tokens)
      ensures Valid() && toks == tokens && Unread() == TextFrom(tokens, 0)
    {
      toks := tokens;
      i := 0;
    }

    function Peek(): (t: Token)
      requires Valid()
      reads this
      ensures t == Unread().head
    {
      toks[i]
    }

    predicate At(s: Symbol)
      requires Valid()
      reads this
      ensures At(s) == G.At(Unread(), s)
    {
      toks[i] == Sym(s)
    }

    method Advance() returns (t: Token)
      requires Valid()
      modifies this
      ensures Valid() && t == old(Peek())
      ensures Unread() == if t.Eof? then old(Unread()) else old(Unread()).tail
    {
      t := toks[i];
      if i < |toks| - 1 { i := i + 1; }
    }

    method Expect(s: Symbol) returns (r: Outcome<()>)
      requires Valid()
      modifies this
      ensures Valid() && Follows(r, G.Expect(old(Unread()), s))
    {
      if !At(s) { return ParseError; }
      var _ := Advance();
      return Built(());
    }

    method ExpectIdent() returns (r: Outcome<string>)
      requires Valid()
      modifies this
      ensures Valid() && Follows(r, G.ExpectIdent(old(Unread())))
    {
      if !Peek().IdentTok? { return ParseError; }
      var t := Advance();
      return Built(t.name);
    }

    method Skip(s: Symbol)
      requires Valid()
      modifies this
      ensures Valid() && Unread() == G.Skip(old(Unread()), s)
    {
      if At(s) { var _ := Advance(); }
    }

    // ---- types ----

    method ParseType() returns (r: Outcome<TypeExpr>)
      requires Valid()
      modifies this
      ensures Valid() && Follows(r, G.ParseType(old(Unread())))
      decreases G.Len(Unread()), 2
    {
      if Peek().IdentTok? {
        r := ParseNamedType();
      } else if Peek().Sym? && Peek().sym.BuiltinKw? {
        var t := Advance();
        r := ParseArrow(BaseType(Builtin(t.sym.builtin)));
      } else if Peek().Sym? && Peek().sym.LevelKw? {
        var t := Advance();
        r := ParseArrow(AuthLevelType(t.sym.level));
      } else if At(LParen) {
        var _ := Advance();
        var items :- ParseTypes();
        var _ :- Expect(RParen);
        r := ParseArrow(TupleType(items));
      } else {
        return ParseError;
      }
    }

    /** A name alone or with its type arguments. */
    method ParseNamedType() returns (r: Outcome<TypeExpr>)
      requires Valid() && Peek().IdentTok?
      modifies this
      ensures Valid() && Follows(r, G.ParseType(old(Unread())))
      decreases G.Len(Unread()), 1
    {
      var t := Advance();
      if At(Operator(Lt)) {
        var _ := Advance();
        var args :- ParseTypes();
        var _ :- Expect(Operator(Gt));
        return Built(GenericType(t.name, args));
      }
      r := ParseArrow(BaseType(Named(t.name)));
    }

    method ParseArrow(t: TypeExpr) returns (r: Outcome<TypeExpr>)
      requires Valid()
      modifies this
      ensures Valid() && Follows(r, G.TypeArrow(t, old(Unread())))
      decreases G.Len(Unread()), 3
    {
      if At(Arrow) {
        var _ := Advance();
        var ret :- ParseType();
        return Built(FunctionType(t, ret));
      }
      return Built(t);
    }

    method ParseTypes() returns (r: Outcome<seq<TypeExpr>>)
      requires Valid()
      modifies this
      ensures Valid() && Follows(r, G.ParseTypes(old(Unread())))
      decreases G.Len(Unread()), 3
    {
      var t :- ParseType();
      var types := [t];
      while At(Comma)
        invariant Valid() && G.Len(Unread()) < G.Len(old(Unread()))
        invariant G.ParseTypes(old(Unread())) == G.Prepend(types, G.TypesTail(Unread()))
        decreases G.Len(Unread())
      {
        ghost var before, done := Unread(), types;
        var _ := Advance();
        t :- ParseType();
        types := types + [t];
        PrependMore(done, t, G.TypesTail(Unread()));
      }
      assert types + [] == types;
      return Built(types);
    }

    // ---- expressions ----

    method ParseExpression() returns (r: Outcome<Expr>)
      requires Valid()
      modifies this
      ensures Valid() && Follows(r, G.ParseExpression(old(Unread())))
      decreases G.Len(Unread()), 20
    {
      r := ParseBinary(G.PIPE);
    }

    /** `parse_pipe` (1) down to `parse_multiplicative` (7), then `parse_unary`. */
    method ParseBinary(k: nat) returns (r: Outcome<Expr>)
      requires Valid() && G.PIPE <= k <= G.UNARY
      modifies this
      ensures Valid() && Follows(r, G.ParseBinary(k, old(Unread())))
      decreases G.Len(Unread()), 19 - k
    {
      if k == G.UNARY {
        r := ParseUnary();
        return;
      }
      var left :- ParseBinary(k + 1);
      while G.LevelOf(Peek()) == k
        invariant Valid() && G.Len(Unread()) < G.Len(old(Unread()))
        invariant G.ParseBinary(k, old(Unread())) == G.BinaryLoop(k, left, Unread())
        decreases G.Len(Unread())
      {
        var op := Advance();
        var right :- ParseBinary(k + 1);
        left := G.Join(op, left, right);
      }
      return Built(left);
    }

    method ParseUnary() returns (r: Outcome<Expr>)
      requires Valid()
      modifies this
      ensures Valid() && Follows(r, G.ParseUnary(old(Unread())))
      decreases G.Len(Unread()), 9
    {
      if At(Bang) {
        var _ := Advance();
        var x :- ParseUnary();
        return Built(UnOp(Not, x));
      }
      if At(Operator(Sub)) {
        var _ := Advance();
        var x :- ParseUnary();
        return Built(UnOp(Neg, x));
      }
      r := ParsePostfix();
    }

    method ParsePostfix() returns (r: Outcome<Expr>)
      requires Valid()
      modifies this
      ensures Valid() && Follows(r, G.ParsePostfix(old(Unread())))
      decreases G.Len(Unread()), 8
    {
      var e :- ParsePrimary();
      while true
        invariant Valid() && G.Len(Unread()) < G.Len(old(Unread()))
        invariant G.ParsePostfix(old(Unread())) == G.PostfixLoop(e, Unread())
        decreases G.Len(Unread())
      {
        if At(Dot) {
          var _ := Advance();
          var field :- ExpectIdent();
          e := Member(e, field);
        } else if At(LParen) {
          var _ := Advance();
          var args :- ParseArgs();
          var _ :- Expect(RParen);
          e := Call(e, args);
        } else if At(Scope) {
          var _ := Advance();
          var name :- ExpectIdent();
          e := ScopeResolve(e, name);
        } else {
          return Built(e);
        }
      }
    }

    method ParseArgs() returns (r: Outcome<seq<Expr>>)
      requires Valid()
      modifies this
      ensures Valid() && Follows(r, G.ParseArgs(old(Unread())))
      decreases G.Len(Unread()), 22
    {
      if At(RParen) { return Built([]); }
      r := ParseExprs();
    }

    method ParseExprs() returns (r: Outcome<seq<Expr>>)
      requires Valid()
      modifies this
      ensures Valid() && Follows(r, G.ParseExprs(old(Unread())))
      decreases G.Len(Unread()), 21
    {
      var e :- ParseExpression();
      var items := [e];
      while At(Comma)
        invariant Valid() && G.Len(Unread()) < G.Len(old(Unread()))
        invariant G.ParseExprs(old(Unread())) == G.Prepend(items, G.ExprsTail(Unread()))
        decreases G.Len(Unread())
      {
        ghost var done := items;
        var _ := Advance();
        e :- ParseExpression();
        items := items + [e];
        PrependMore(done, e, G.ExprsTail(Unread()));
      }
      assert items + [] == items;
      return Built(items);
    }

    method ParsePrimary() returns (r: Outcome<Expr>)
      requires Valid()
      modifies this
      ensures Valid() && Follows(r, G.ParsePrimary(old(Unread())))
      decreases G.Len(Unread()), 7
    {
      match Peek() {
        case IntTok(n) => var _ := Advance(); return Built(Lit(CInt(n)));
        case FloatTok(x) => var _ := Advance(); return Built(Lit(CFloat(x)));
        case StrTok(s) => var _ := Advance(); return Built(Lit(CStr(s)));
        case IdentTok(name) =>
          var _ := Advance();
          if At(LBrace) {
            var _ := Advance();
            var fields :- ParseFields();
            return Built(Record(name, fields));
          }
          return Built(Ident(name));
        case Sym(s) =>
          if !StartsPrimary(s) { return ParseError; }
          var _ := Advance();
          r := ParseKeyword(s);
        case _ => return ParseError;
      }
    }

    method ParseKeyword(s: Symbol) returns (r: Outcome<Expr>)
      requires Valid() && StartsPrimary(s)
      modifies this
      ensures Valid() && Follows(r, G.ParseKeyword(s, old(Unread())))
      decreases G.Len(Unread()), 25
    {
      if s == TrueKw { return Built(Lit(CBool(true))); }
      if s == FalseKw { return Built(Lit(CBool(false))); }
      if s.BuiltinKw? { return Built(Lit(CNone)); }
      if s == TrustKw {
        var name :- ExpectIdent();
        return Built(TrustRef(name));
      }
      if s == AssertKw || s == EnforceKw || s == AnchorKw { r := ParseCheck(s); return; }
      if s == LParen { r := ParseParens(); return; }
      r := ParseForm(s);
    }

    /** The forms with a keyword of their own. */
    method ParseForm(s: Symbol) returns (r: Outcome<Expr>)
      requires Valid() && (s == LetKw || s == IfKw || s == MatchKw)
      modifies this
      ensures Valid() && Follows(r, G.ParseKeyword(s, old(Unread())))
      decreases G.Len(Unread()), 24
    {
      if s == LetKw { r := ParseLet(); return; }
      if s == IfKw { r := ParseIf(); return; }
      r := ParseMatch();
    }

    method ParseCheck(s: Symbol) returns (r: Outcome<Expr>)
      requires Valid() && (s == AssertKw || s == EnforceKw || s == AnchorKw)
      modifies this
      ensures Valid() && Follows(r, G.ParseKeyword(s, old(Unread())))
      decreases G.Len(Unread()), 23
    {
      if s != AssertKw { var _ :- Expect(Colon); }
      var e :- ParseExpression();
      return Built(if s == AssertKw then Assert(e) else if s == EnforceKw then EnforceExpr(e) else AnchorExpr(e));
    }

    method ParseParens() returns (r: Outcome<Expr>)
      requires Valid()
      modifies this
      ensures Valid() && Follows(r, G.ParseParens(old(Unread())))
      decreases G.Len(Unread()), 23
    {
      var items :- ParseExprs();
      var _ :- Expect(RParen);
      return Built(if |items| == 1 then items[0] else Tuple(items));
    }

    method ParseLet() returns (r: Outcome<Expr>)
      requires Valid()
      modifies this
      ensures Valid() && Follows(r, G.ParseLet(old(Unread())))
      decreases G.Len(Unread()), 23
    {
      var name :- ExpectIdent();
      var _ :- Expect(Colon);
      var ty :- ParseType();
      var _ :- Expect(Assign);
      var e :- ParseExpression();
      return Built(Let(name, ty, e));
    }

    method ParseIf() returns (r: Outcome<Expr>)
      requires Valid()
      modifies this
      ensures Valid() && Follows(r, G.ParseIf(old(Unread())))
      decreases G.Len(Unread()), 23
    {
      var cond :- ParseExpression();
      Skip(ThenKw);
      var thenB :- ParseBlock();
      if At(ElseKw) {
        var _ := Advance();
        var elseB :- ParseBlock();
        return Built(If(cond, thenB, Else(elseB)));
      }
      return Built(If(cond, thenB, NoElse));
    }

    method ParseMatch() returns (r: Outcome<Expr>)
      requires Valid()
      modifies this
      ensures Valid() && Follows(r, G.ParseMatch(old(Unread())))
      decreases G.Len(Unread()), 23
    {
      var subject :- ParseExpression();
      var _ :- Expect(LBrace);
      var arms :- ParseArms();
      var _ :- Expect(RBrace);
      return Built(Match(subject, arms));
    }

    method ParseArms() returns (r: Outcome<seq<Arm>>)
      requires Valid()
      modifies this
      ensures Valid() && Follows(r, G.ArmsTail(old(Unread())))
      decreases G.Len(Unread()), 22
    {
      var arms := [];
      PrependNone(G.ArmsTail(Unread()));
      while !At(RBrace)
        invariant Valid() && G.Len(Unread()) <= G.Len(old(Unread()))
        invariant G.ArmsTail(old(Unread())) == G.Prepend(arms, G.ArmsTail(Unread()))
        decreases G.Len(Unread())
      {
        ghost var done := arms;
        var pat :- ParsePattern();
        var _ :- Expect(FatArrow);
        var res :- ParseExpression();
        Skip(Comma);
        arms := arms + [Arm(pat, res)];
        PrependMore(done, Arm(pat, res), G.ArmsTail(Unread()));
      }
      assert arms + [] == arms;
      return Built(arms);
    }

    method ParsePattern() returns (r: Outcome<Pattern>)
      requires Valid()
      modifies this
      ensures Valid() && Follows(r, G.ParsePattern(old(Unread())))
    {
      match Peek() {
        case IdentTok(name) =>
          var _ := Advance();
          return Built(if name == "_" then WildcardPat else BindPat(name));
        case IntTok(n) => var _ := Advance(); return Built(LiteralPat(CInt(n)));
        case FloatTok(x) => var _ := Advance(); return Built(LiteralPat(CFloat(x)));
        case StrTok(s) => var _ := Advance(); return Built(LiteralPat(CStr(s)));
        case Sym(s) =>
          if s != TrueKw && s != FalseKw { return ParseError; }
          var _ := Advance();
          return Built(LiteralPat(CBool(s == TrueKw)));
        case _ => return ParseError;
      }
    }

    method ParseFields() returns (r: Outcome<seq<Field>>)
      requires Valid()
      modifies this
      ensures Valid() && Follows(r, G.FieldsTail([], old(Unread())))
      decreases G.Len(Unread()), 22
    {
      var fields := [];
      while !At(RBrace)
        invariant Valid() && G.Len(Unread()) <= G.Len(old(Unread()))
        invariant G.FieldsTail([], old(Unread())) == G.FieldsTail(fields, Unread())
        decreases G.Len(Unread())
      {
        var name :- ExpectIdent();
        var _ :- Expect(Colon);
        var value :- ParseExpression();
        Skip(Comma);
        fields := G.DictSet(fields, name, value);
      }
      var _ := Advance();
      return Built(fields);
    }

    // ---- statements ----

    method ParseBlock() returns (r: Outcome<seq<Stmt>>)
      requires Valid()
      modifies this
      ensures Valid() && Follows(r, G.ParseBlock(old(Unread())))
      decreases G.Len(Unread()), 2
    {
      var _ :- Expect(LBrace);
      var stmts := [];
      ghost var start := Unread();
      PrependNone(G.StmtsTail(start));
      while !At(RBrace)
        invariant Valid() && G.Len(Unread()) <= G.Len(start) < G.Len(old(Unread()))
        invariant G.StmtsTail(start) == G.Prepend(stmts, G.StmtsTail(Unread()))
        decreases G.Len(Unread())
      {
        ghost var done := stmts;
        var s :- ParseStatement();
        stmts := stmts + [s];
        PrependMore(done, s, G.StmtsTail(Unread()));
      }
      assert stmts + [] == stmts;
      var _ := Advance();
      return Built(stmts);
    }

    method ParseStatement() returns (r: Outcome<Stmt>)
      requires Valid()
      modifies this
      ensures Valid() && Follows(r, G.ParseStatement(old(Unread())))
      decreases G.Len(Unread()), 23
    {
      if At(BindKw) {
        var b :- ParseBind();
        return Built(Bind(b.name, b.ty, b.expr));
      }
      if At(ReturnKw) {
        var _ := Advance();
        var e :- ParseExprSemi();
        return Built(Return(e));
      }
      if At(EnforceKw) {
        var _ := Advance();
        var e :- ParseColonExprSemi();
        return Built(Enforce(e));
      }
      if At(AnchorKw) {
        var _ := Advance();
        var e :- ParseColonExprSemi();
        return Built(Anchor(e));
      }
      if At(RollbackKw) {
        var _ := Advance();
        var e :- ParseColonExprSemi();
        return Built(Rollback(e));
      }
      if At(EmitKw) {
        var _ := Advance();
        var name :- ExpectIdent();
        var e :- ParseColonExprSemi();
        return Built(Emit(name, e));
      }
      var e :- ParseExprSemi();
      return Built(ExprStmt(e));
    }

    method ParseExprSemi() returns (r: Outcome<Expr>)
      requires Valid()
      modifies this
      ensures Valid() && Follows(r, G.ExprSemi(old(Unread())))
      decreases G.Len(Unread()), 21
    {
      var e :- ParseExpression();
      var _ :- Expect(Semi);
      return Built(e);
    }

    method ParseColonExprSemi() returns (r: Outcome<Expr>)
      requires Valid()
      modifies this
      ensures Valid() && Follows(r, G.ColonExprSemi(old(Unread())))
      decreases G.Len(Unread()), 22
    {
      var _ :- Expect(Colon);
      r := ParseExprSemi();
    }

    method ParseBind() returns (r: Outcome<Decl>)
      requires Valid()
      modifies this
      ensures Valid() && Follows(r, if old(At(BindKw)) then G.ParseBind(old(Unread()).tail) else G.Err)
      decreases G.Len(Unread()), 22
    {
      var _ :- Expect(BindKw);
      var name :- ExpectIdent();
      var _ :- Expect(Colon);
      var ty :- ParseType();
      var _ :- Expect(Assign);
      var e :- ParseExprSemi();
      return Built(BindDecl(name, ty, e));
    }

    // ---- declarations, modules, the constitution, the program ----

    method ParseDeclaration() returns (r: Outcome<Decl>)
      requires Valid()
      modifies this
      ensures Valid() && Follows(r, G.ParseDeclaration(old(Unread())))
    {
      if At(FnKw) {
        var _ := Advance();
        r := ParseFunction();
      } else if At(TypeKw) {
        var _ := Advance();
        var name :- ExpectIdent();
        var _ :- Expect(Assign);
        var ty :- ParseType();
        return Built(TypeDef(name, ty));
      } else if At(BindKw) {
        r := ParseBind();
      } else if At(ObserveKw) {
        var _ := Advance();
        var signal :- ExpectIdent();
        var word :- ExpectIdent();
        if word != "as" { return ParseError; }
        var binding :- ExpectIdent();
        var body :- ParseBlock();
        return Built(Observe(signal, binding, body));
      } else if At(EmitKw) {
        var _ := Advance();
        var name :- ExpectIdent();
        var _ :- Expect(Colon);
        var ty :- ParseType();
        var _ :- Expect(Semi);
        return Built(EmitDecl(name, ty));
      } else {
        return ParseError;
      }
    }

    method ParseFunction() returns (r: Outcome<Decl>)
      requires Valid()
      modifies this
      ensures Valid() && Follows(r, G.ParseFunction(old(Unread())))
    {
      var name :- ExpectIdent();
      var _ :- Expect(LParen);
      var params :- ParseParams();
      var _ :- Expect(RParen);
      var _ :- Expect(Arrow);
      var ret :- ParseType();
      var authority := None;
      if At(LBracket) {
        var level :- ParseGovernedContext();
        authority := Some(level);
      }
      var body :- ParseBlock();
      return Built(Function(name, params, ret, authority, body));
    }

    method ParseParams() returns (r: Outcome<seq<Param>>)
      requires Valid()
      modifies this
      ensures Valid() && Follows(r, G.ParseParams(old(Unread())))
    {
      if At(RParen) { return Built([]); }
      var p :- ParseParam();
      var params := [p];
      while At(Comma)
        invariant Valid() && G.ParseParams(old(Unread())) == G.Prepend(params, G.ParamsTail(Unread()))
        decreases G.Len(Unread())
      {
        ghost var done := params;
        var _ := Advance();
        p :- ParseParam();
        params := params + [p];
        PrependMore(done, p, G.ParamsTail(Unread()));
      }
      assert params + [] == params;
      return Built(params);
    }

    method ParseParam() returns (r: Outcome<Param>)
      requires Valid()
      modifies this
      ensures Valid() && Follows(r, G.ParseParam(old(Unread())))
    {
      var name :- ExpectIdent();
      var _ :- Expect(Colon);
      var ty :- ParseType();
      return Built(Param(name, ty));
    }

    method ParseGovernedContext() returns (r: Outcome<Kind>)
      requires Valid()
      modifies this
      ensures Valid() && Follows(r, G.ParseGovernedContext(old(Unread())))
    {
      var _ :- Expect(LBracket);
      var level := Advance();
      var _ :- Expect(RBracket);
      return Built(KindOf(level));
    }

    method ParseModule() returns (r: Outcome<Module>)
      requires Valid()
      modifies this
      ensures Valid() && Follows(r, G.ParseModule(old(Unread())))
    {
      var _ :- Expect(ModuleKw);
      var name :- ExpectIdent();
      var authority :- ParseGovernedContext();
      var _ :- Expect(LBrace);
      var decls := [];
      ghost var start := Unread();
      PrependNone(G.DeclsTail(start));
      while !At(RBrace)
        invariant Valid() && G.DeclsTail(start) == G.Prepend(decls, G.DeclsTail(Unread()))
        decreases G.Len(Unread())
      {
        ghost var done := decls;
        var d :- ParseDeclaration();
        decls := decls + [d];
        PrependMore(done, d, G.DeclsTail(Unread()));
      }
      assert decls + [] == decls;
      var _ := Advance();
      return Built(Module(name, authority, decls));
    }

    method ParseInvariant() returns (r: Outcome<Invariant>)
      requires Valid()
      modifies this
      ensures Valid() && Follows(r, G.ParseInvariant(old(Unread())))
    {
      if At(AlwaysKw) {
        var _ := Advance();
        var e :- ParseColonExprSemi();
        return Built(Always(e));
      }
      if At(NeverKw) {
        var _ := Advance();
        var e :- ParseColonExprSemi();
        return Built(Never(e));
      }
      if At(WhenKw) {
        var _ := Advance();
        var _ :- Expect(Colon);
        var trigger :- ParseExpression();
        var _ :- Expect(ThenKw);
        var response :- ParseColonExprSemi();
        return Built(WhenThen(trigger, response));
      }
      return ParseError;
    }

    method ParseArticle() returns (r: Outcome<Article>)
      requires Valid()
      modifies this
      ensures Valid() && Follows(r, G.ParseArticle(old(Unread())))
    {
      if !Peek().AnnotationTok? { return ParseError; }
      var _ := Advance();
      var name :- ExpectIdent();
      var _ :- Expect(LBrace);
      var invariants := [];
      ghost var start := Unread();
      PrependNone(G.InvariantsTail(start));
      while !At(RBrace)
        invariant Valid() && G.InvariantsTail(start) == G.Prepend(invariants, G.InvariantsTail(Unread()))
        decreases G.Len(Unread())
      {
        ghost var done := invariants;
        var v :- ParseInvariant();
        invariants := invariants + [v];
        PrependMore(done, v, G.InvariantsTail(Unread()));
      }
      assert invariants + [] == invariants;
      var _ := Advance();
      return Built(Article(name, invariants));
    }

    method ParseConstitution() returns (r: Outcome<seq<Article>>)
      requires Valid()
      modifies this
      ensures Valid() && Follows(r, G.ParseConstitution(old(Unread())))
    {
      if !Peek().AnnotationTok? { return ParseError; }
      var _ := Advance();
      var _ :- Expect(LBrace);
      var articles := [];
      ghost var start := Unread();
      PrependNone(G.ArticlesTail(start));
      while Peek() == AnnotationTok("@article")
        invariant Valid() && G.ArticlesTail(start) == G.Prepend(articles, G.ArticlesTail(Unread()))
        decreases G.Len(Unread())
      {
        ghost var done := articles;
        var a :- ParseArticle();
        articles := articles + [a];
        PrependMore(done, a, G.ArticlesTail(Unread()));
      }
      assert articles + [] == articles;
      var _ :- Expect(RBrace);
      return Built(articles);
    }

    /** `parse_program` returns a tree only with the index on the final EOF. */
    method ParseProgram() returns (r: Outcome<Program>)
      requires Valid()
      modifies this
      ensures Valid() && Follows(r, G.ParseProgram(old(Unread())))
      ensures r.Built? ==> i == |toks| - 1
    {
      var constitution := None;
      if Peek() == AnnotationTok("@constitution") {
        var articles :- ParseConstitution();
        constitution := Some(articles);
      }
      var modules := [];
      ghost var start := Unread();
      PrependNone(G.ModulesTail(start));
      while !Peek().Eof?
        invariant Valid() && G.ModulesTail(start) == G.Prepend(modules, G.ModulesTail(Unread()))
        decreases G.Len(Unread())
      {
        ghost var done := modules;
        var m :- ParseModule();
        modules := modules + [m];
        PrependMore(done, m, G.ModulesTail(Unread()));
      }
      assert modules + [] == modules;
      return Built(Program(constitution, modules));
    }
  }

  /** The symbols with a branch of their own in `parse_primary`. */
  predicate StartsPrimary(s: Symbol) {
    s in {TrueKw, FalseKw, TrustKw, AssertKw, EnforceKw, AnchorKw, LParen, LetKw, IfKw, MatchKw, BuiltinKw(VoidType)}
  }

  lemma PrependMore<T>(done: seq<T>, x: T, r: G.Parsed<seq<T>>)
    ensures G.Prepend(done, G.Prepend([x], r)) == G.Prepend(done + [x], r)
  {
    if r.Ok? { assert done + ([x] + r.value) == (done + [x]) + r.value; }
  }

  lemma PrependNone<T>(r: G.Parsed<seq<T>>)
    ensures G.Prepend([], r) == r
  {
    if r.Ok? { assert [] + r.value == r.value; }
  }
}
