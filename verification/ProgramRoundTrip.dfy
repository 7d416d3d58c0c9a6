/** The round trip for declarations, modules, the constitution and whole programs. */
module ProgramRoundTrip {
  import opened Wrappers
  import opened Ast
  import opened Grammar
  import opened Printer
  import opened RoundTrip

  /** Some token of the given kind; an authority annotation records nothing else. */
  function TokenOf(k: Kind): Token {
    match k
    case IntKind => IntTok(0)
    case FloatKind => FloatTok(0.0)
    case StringKind => StrTok("")
    case IdentKind => IdentTok("")
    case AnnotationKind => AnnotationTok("")
    case SymKind(s) => Sym(s)
    case EofKind => Eof
  }

  function PrintLevel(k: Kind, ts: Text): Text {
    Put(LBracket, More(TokenOf(k), Put(RBracket, ts)))
  }

  function PrintAuthority(a: Option<Kind>, ts: Text): Text {
    if a.Some? then PrintLevel(a.value, ts) else ts
  }

  function PrintParam(p: Param, ts: Text): Text {
    PutIdent(p.name, Put(Colon, PrintType(p.ty, ts)))
  }

  function PrintParams(ps: seq<Param>, ts: Text): Text {
    if ps == [] then ts else PrintParam(ps[0], PrintParamsTail(ps[1..], ts))
  }

  function PrintParamsTail(ps: seq<Param>, ts: Text): Text {
    if ps == [] then ts else Put(Comma, PrintParam(ps[0], PrintParamsTail(ps[1..], ts)))
  }

  function PrintDecl(d: Decl, ts: Text): Text {
    match d
    case Function(name, params, ret, authority, body) =>
      var end := Put(RParen, Put(Arrow, PrintSignatureEnd(ret, authority, body, ts)));
      Put(FnKw, PutIdent(name, Put(LParen, PrintParams(params, end))))
    case TypeDef(name, ty) => Put(TypeKw, PutIdent(name, Put(Assign, PrintType(ty, ts))))
    case BindDecl(name, ty, e) => Put(BindKw, PrintBind(name, ty, e, ts))
    case Observe(signal, binding, body) =>
      Put(ObserveKw, PutIdent(signal, PutIdent("as", PutIdent(binding, PrintBlock(body, ts)))))
    case EmitDecl(name, ty) => Put(EmitKw, PutIdent(name, Put(Colon, PrintType(ty, Put(Semi, ts)))))
  }

  function PrintSignatureEnd(ret: TypeExpr, authority: Option<Kind>, body: seq<Stmt>, ts: Text): Text {
    PrintType(ret, PrintAuthority(authority, PrintBlock(body, ts)))
  }

  function PrintDecls(ds: seq<Decl>, ts: Text): Text {
    if ds == [] then ts else PrintDecl(ds[0], PrintDecls(ds[1..], ts))
  }

  function PrintModule(m: Module, ts: Text): Text {
    Put(ModuleKw, PutIdent(m.name, PrintLevel(m.authority, Put(LBrace, PrintDecls(m.decls, Put(RBrace, ts))))))
  }

  function PrintModules(ms: seq<Module>, ts: Text): Text {
    if ms == [] then ts else PrintModule(ms[0], PrintModules(ms[1..], ts))
  }

  function PrintInvariant(v: Invariant, ts: Text): Text {
    match v
    case Always(e) => Put(AlwaysKw, Put(Colon, Print(e, 0, Put(Semi, ts))))
    case Never(e) => Put(NeverKw, Put(Colon, Print(e, 0, Put(Semi, ts))))
    case WhenThen(t, r) => Put(WhenKw, Put(Colon, Print(t, 0, Put(ThenKw, Put(Colon, Print(r, 0, Put(Semi, ts)))))))
  }

  function PrintInvariants(vs: seq<Invariant>, ts: Text): Text {
    if vs == [] then ts else PrintInvariant(vs[0], PrintInvariants(vs[1..], ts))
  }

  function PrintArticle(a: Article, ts: Text): Text {
    More(AnnotationTok("@article"), PutIdent(a.name, Put(LBrace, PrintInvariants(a.invariants, Put(RBrace, ts)))))
  }

  function PrintArticles(arts: seq<Article>, ts: Text): Text {
    if arts == [] then ts else PrintArticle(arts[0], PrintArticles(arts[1..], ts))
  }

  function PrintProgram(p: Program): Text {
    var modules := PrintModules(p.modules, More(Eof, End));
    if p.constitution.Some?
    then More(AnnotationTok("@constitution"), Put(LBrace, PrintArticles(p.constitution.value, Put(RBrace, modules))))
    else modules
  }

  // ---- and back ----

  lemma LevelBack(k: Kind, ts: Text)
    requires k != EofKind
    ensures ParseGovernedContext(PrintLevel(k, ts)) == Ok(k, ts)
  {
  }

  lemma ParamBack(p: Param, ts: Text)
    requires WfType(p.ty) && StopsType(ts)
    ensures ParseParam(PrintParam(p, ts)) == Ok(p, ts)
  {
    TypeBack(p.ty, ts);
  }

  lemma {:induction false} ParamsTailBack(ps: seq<Param>, ts: Text)
    requires (forall p | p in ps :: WfType(p.ty)) && At(ts, RParen)
    ensures ParamsTail(PrintParamsTail(ps, ts)) == Ok(ps, ts)
  {
    if ps != [] {
      ParamBack(ps[0], PrintParamsTail(ps[1..], ts));
      ParamsTailBack(ps[1..], ts);
      assert ps == [ps[0]] + ps[1..];
    }
  }

  lemma ParamsBack(ps: seq<Param>, ts: Text)
    requires (forall p | p in ps :: WfType(p.ty)) && At(ts, RParen)
    ensures ParseParams(PrintParams(ps, ts)) == Ok(ps, ts)
  {
    if ps != [] {
      ParamBack(ps[0], PrintParamsTail(ps[1..], ts));
      ParamsTailBack(ps[1..], ts);
      assert ps == [ps[0]] + ps[1..];
    }
  }

  lemma AuthorityBack(a: Option<Kind>, body: seq<Stmt>, ts: Text)
    requires a != Some(EofKind)
    ensures ParseAuthority(PrintAuthority(a, PrintBlock(body, ts))) == Ok(a, PrintBlock(body, ts))
    ensures StopsType(PrintAuthority(a, PrintBlock(body, ts)))
  {
    if a.Some? { LevelBack(a.value, PrintBlock(body, ts)); }
  }

  lemma FunctionBack(d: Decl, ts: Text)
    requires d.Function? && WfDecl(d)
    ensures ParseFunction(PrintDecl(d, ts).tail) == Ok(d, ts)
  {
    var body := PrintBlock(d.body, ts);
    var ret := PrintSignatureEnd(d.ret, d.authority, d.body, ts);
    ParamsBack(d.params, Put(RParen, Put(Arrow, ret)));
    AuthorityBack(d.authority, d.body, ts);
    TypeBack(d.ret, PrintAuthority(d.authority, body));
    BlockBack(d.body, ts);
  }

  lemma DeclBack(d: Decl, ts: Text)
    requires WfDecl(d) && StopsType(ts)
    ensures ParseDeclaration(PrintDecl(d, ts)) == Ok(d, ts)
  {
    match d
    case Function(_, _, _, _, _) => FunctionBack(d, ts);
    case TypeDef(_, ty) => TypeBack(ty, ts);
    case BindDecl(name, ty, e) => BindBack(name, ty, e, ts);
    case Observe(_, _, _) => ObserveBack(d, ts);
    case EmitDecl(_, _) => EmitDeclBack(d, ts);
  }

  lemma ObserveBack(d: Decl, ts: Text)
    requires d.Observe? && WfDecl(d)
    ensures ParseDeclaration(PrintDecl(d, ts)) == Ok(d, ts)
  {
    BlockBack(d.body, ts);
    ObserveRead(d.signal, d.binding, PrintBlock(d.body, ts), d.body, ts);
  }

  lemma ObserveRead(signal: string, binding: string, block: Text, body: seq<Stmt>, ts: Text)
    requires ParseBlock(block) == Ok(body, ts)
    ensures ParseDeclaration(Put(ObserveKw, PutIdent(signal, PutIdent("as", PutIdent(binding, block))))) ==
              Ok(Observe(signal, binding, body), ts)
  {
  }

  lemma EmitDeclBack(d: Decl, ts: Text)
    requires d.EmitDecl? && WfDecl(d)
    ensures ParseDeclaration(PrintDecl(d, ts)) == Ok(d, ts)
  {
    TypeBack(d.ty, Put(Semi, ts));
  }

  lemma DeclStarts(d: Decl, ts: Text)
    ensures !At(PrintDecl(d, ts), RBrace) && StopsType(PrintDecl(d, ts))
  {
  }

  lemma {:induction false} DeclsBack(ds: seq<Decl>, ts: Text)
    requires (forall d | d in ds :: WfDecl(d)) && At(ts, RBrace)
    ensures DeclsTail(PrintDecls(ds, ts)) == Ok(ds, ts) && StopsType(PrintDecls(ds, ts))
  {
    if ds != [] {
      DeclsBack(ds[1..], ts);
      DeclStarts(ds[0], PrintDecls(ds[1..], ts));
      DeclBack(ds[0], PrintDecls(ds[1..], ts));
      assert ds == [ds[0]] + ds[1..];
    }
  }

  lemma ModuleBack(m: Module, ts: Text)
    requires WfModule(m)
    ensures ParseModule(PrintModule(m, ts)) == Ok(m, ts)
  {
    LevelBack(m.authority, Put(LBrace, PrintDecls(m.decls, Put(RBrace, ts))));
    DeclsBack(m.decls, Put(RBrace, ts));
  }

  lemma {:induction false} ModulesBack(ms: seq<Module>)
    requires forall m | m in ms :: WfModule(m)
    ensures ModulesTail(PrintModules(ms, More(Eof, End))) == Ok(ms, More(Eof, End))
  {
    if ms != [] {
      var rest := PrintModules(ms[1..], More(Eof, End));
      ModuleBack(ms[0], rest);
      ModulesBack(ms[1..]);
      assert ms == [ms[0]] + ms[1..];
      ModulesStep(PrintModule(ms[0], rest), ms[0], ms[1..], rest, More(Eof, End));
    }
  }

  lemma ModulesStep(all: Text, m: Module, ms: seq<Module>, rest: Text, end: Text)
    requires ParseModule(all) == Ok(m, rest) && ModulesTail(rest) == Ok(ms, end)
    ensures ModulesTail(all) == Ok([m] + ms, end)
  {
  }

  lemma InvariantBack(v: Invariant, ts: Text)
    requires WfInvariant(v)
    ensures ParseInvariant(PrintInvariant(v, ts)) == Ok(v, ts) && !At(PrintInvariant(v, ts), RBrace)
  {
    match v
    case Always(e) => ColonBack(e, ts);
    case Never(e) => ColonBack(e, ts);
    case WhenThen(t, r) =>
      ColonBack(r, ts);
      ExpressionBack(t, Put(ThenKw, Put(Colon, Print(r, 0, Put(Semi, ts)))));
  }

  lemma {:induction false} InvariantsBack(vs: seq<Invariant>, ts: Text)
    requires (forall v | v in vs :: WfInvariant(v)) && At(ts, RBrace)
    ensures InvariantsTail(PrintInvariants(vs, ts)) == Ok(vs, ts)
  {
    if vs != [] {
      InvariantBack(vs[0], PrintInvariants(vs[1..], ts));
      InvariantsBack(vs[1..], ts);
      assert vs == [vs[0]] + vs[1..];
    }
  }

  lemma ArticleBack(a: Article, ts: Text)
    requires forall v | v in a.invariants :: WfInvariant(v)
    ensures ParseArticle(PrintArticle(a, ts)) == Ok(a, ts) && AtAnnotation(PrintArticle(a, ts), "@article")
  {
    InvariantsBack(a.invariants, Put(RBrace, ts));
  }

  lemma {:induction false} ArticlesBack(arts: seq<Article>, ts: Text)
    requires (forall a | a in arts :: forall v | v in a.invariants :: WfInvariant(v)) && At(ts, RBrace)
    ensures ArticlesTail(PrintArticles(arts, ts)) == Ok(arts, ts)
  {
    if arts != [] {
      var rest := PrintArticles(arts[1..], ts);
      ArticleBack(arts[0], rest);
      ArticlesBack(arts[1..], ts);
      assert arts == [arts[0]] + arts[1..];
      ArticlesStep(PrintArticle(arts[0], rest), arts[0], arts[1..], rest, ts);
    }
  }

  lemma ArticlesStep(all: Text, a: Article, arts: seq<Article>, rest: Text, end: Text)
    requires AtAnnotation(all, "@article") && ParseArticle(all) == Ok(a, rest) && ArticlesTail(rest) == Ok(arts, end)
    ensures ArticlesTail(all) == Ok([a] + arts, end)
  {
  }

  /** Every program the parser can return comes back from its own text, read up to the final EOF. */
  lemma ProgramBack(p: Program)
    requires WfProgram(p)
    ensures ParseProgram(PrintProgram(p)) == Ok(p, More(Eof, End))
  {
    var modules := PrintModules(p.modules, More(Eof, End));
    ModulesBack(p.modules);
    if p.constitution.Some? {
      ArticlesBack(p.constitution.value, Put(RBrace, modules));
    } else {
      assert !AtAnnotation(modules, "@constitution");
    }
  }

  /** The well-formed programs are exactly the results of `parse_program`. */
  lemma ParsedPrograms(p: Program)
    ensures WfProgram(p) <==> exists ts, rest :: ParseProgram(ts) == Ok(p, rest)
  {
    if WfProgram(p) {
      ProgramBack(p);
      assert ParseProgram(PrintProgram(p)) == Ok(p, More(Eof, End));
    }
  }
}
