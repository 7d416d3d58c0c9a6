/** The bytecode compiler: stack code over a constant pool that every compiled expression appends to. */
module Compiler {
  import opened Ast

  datatype Instr =
    | PUSH_CONST(index: nat)
    | LOAD(name: string)
    | STORE(name: string)
    | GETATTR(field: string)
    | BINOP(op: BinaryOp)
    | UNOP(uop: UnaryOp)
    | MAKE_TUPLE(count: nat)
    | MAKE_RECORD(typeName: string, fields: seq<Field>)
    | CALL(target: Expr, argc: nat)
    | PIPE_CALL(target: Expr)
    | SCOPE_CALL(target: Expr, name: string)
    | EVAL_IF(e: Expr)
    | EVAL_MATCH(e: Expr)
    | EVAL_IF_STMT(s: Stmt)
    | ENFORCE | ANCHOR | ROLLBACK | RETURN | POP
    | EMIT(name: string)

  /** Code, and the pool after compiling it. */
  datatype Code = Code(instrs: seq<Instr>, pool: seq<Constant>)

  function CompileExpr(e: Expr, pool: seq<Constant>): (r: Code)
    ensures pool <= r.pool
    decreases e, 1
  {
    match e
    case Lit(k) => Code([PUSH_CONST(|pool|)], pool + [k])
    case Ident(name) => Code([LOAD(name)], pool)
    case TrustRef(name) => Code([LOAD(name)], pool)
    case ScopeResolve(t, name) => Code([SCOPE_CALL(t, name)], pool)
    case Record(name, fields) => Code([MAKE_RECORD(name, fields)], pool)
    case If(_, _, _) => Code([EVAL_IF(e)], pool)
    case Match(_, _) => Code([EVAL_MATCH(e)], pool)
    case Member(t, f) => Append(CompileExpr(t, pool), [GETATTR(f)])
    case UnOp(op, x) => Append(CompileExpr(x, pool), [UNOP(op)])
    case Pipe(l, r) => Append(CompileExpr(l, pool), [PIPE_CALL(r)])
    case Let(name, _, x) => Append(CompileExpr(x, pool), [STORE(name), LOAD(name)])
    case AnchorExpr(x) => Append(CompileExpr(x, pool), [ANCHOR])
    case EnforceExpr(x) => Append(CompileExpr(x, pool), [ENFORCE])
    case Assert(x) => Append(CompileExpr(x, pool), [ENFORCE])
    case Tuple(items) => Append(CompileExprs(items, pool), [MAKE_TUPLE(|items|)])
    case Call(t, args) => Append(CompileExprs(args, pool), [CALL(t, |args|)])
    case BinOp(op, l, r) =>
      var a := CompileExpr(l, pool);
      var b := CompileExpr(r, a.pool);
      Code(a.instrs + b.instrs + [BINOP(op)], b.pool)
  }

  function Append(code: Code, more: seq<Instr>): Code { Code(code.instrs + more, code.pool) }

  function CompileExprs(es: seq<Expr>, pool: seq<Constant>): (r: Code)
    ensures pool <= r.pool
    decreases es, 0
  {
    if es == [] then Code([], pool) else
    var a := CompileExpr(es[0], pool);
    var b := CompileExprs(es[1..], a.pool);
    Code(a.instrs + b.instrs, b.pool)
  }

  function CompileStmt(s: Stmt, pool: seq<Constant>): (r: Code)
    ensures pool <= r.pool
  {
    match s
    case Bind(name, _, x) => Append(CompileExpr(x, pool), [STORE(name)])
    case Return(x) => Append(CompileExpr(x, pool), [RETURN])
    case Enforce(x) => Append(CompileExpr(x, pool), [ENFORCE])
    case Anchor(x) => Append(CompileExpr(x, pool), [ANCHOR])
    case Rollback(x) => Append(CompileExpr(x, pool), [ROLLBACK])
    case Emit(name, x) => Append(CompileExpr(x, pool), [EMIT(name)])
    case ExprStmt(x) => Append(CompileExpr(x, pool), [POP])
    case IfStmt(_, _, _) => Code([EVAL_IF_STMT(s)], pool)
  }

  function CompileBlock(stmts: seq<Stmt>, pool: seq<Constant>): (r: Code)
    ensures pool <= r.pool
  {
    if stmts == [] then Code([], pool) else
    var a := CompileStmt(stmts[0], pool);
    var b := CompileBlock(stmts[1..], a.pool);
    Code(a.instrs + b.instrs, b.pool)
  }

  datatype CompiledFn = CompiledFn(params: seq<string>, instrs: seq<Instr>, authority: Kind)

  datatype Image = Image(functions: map<string, CompiledFn>, pool: seq<Constant>)

  function ParamNames(ps: seq<Param>): seq<string> {
    seq(|ps|, k requires 0 <= k < |ps| => ps[k].name)
  }

  /** A function runs at its own authority, or else at its module's. */
  function AuthorityOf(d: Decl, m: Kind): Kind
    requires d.Function?
  {
    if d.authority.Some? then d.authority.value else m
  }

  function CompileDecl(mod: string, auth: Kind, d: Decl, image: Image): (r: Image)
    ensures image.pool <= r.pool
  {
    if d.Function? then
      var code := CompileBlock(d.body, image.pool);
      Image(image.functions[mod + "::" + d.name :=
          CompiledFn(ParamNames(d.params), code.instrs, AuthorityOf(d, auth))], code.pool)
    else
      image
  }

  function CompileDecls(mod: string, auth: Kind, ds: seq<Decl>, image: Image): (r: Image)
    ensures image.pool <= r.pool
  {
    if ds == [] then image else CompileDecls(mod, auth, ds[1..], CompileDecl(mod, auth, ds[0], image))
  }

  function CompileModules(ms: seq<Module>, image: Image): (r: Image)
    ensures image.pool <= r.pool
  {
    if ms == [] then image
    else CompileModules(ms[1..], CompileDecls(ms[0].name, ms[0].authority, ms[0].decls, image))
  }

  function CompileProgram(p: Program): Image { CompileModules(p.modules, Image(map[], [])) }

  /** The compiler object: recursion over the tree, list building, and a pool that only grows. */
  class CompilerObject {
    var constants: seq<Constant>

    constructor ()
      ensures constants == []
    {
      constants := [];
    }

    method Const(k: Constant) returns (index: nat)
      modifies this
      ensures constants == old(constants) + [k] && index == |old(constants)|
      ensures constants[index] == k
    {
      constants := constants + [k];
      index := |constants| - 1;
    }

    method Expr(e: Expr) returns (code: seq<Instr>)
      modifies this
      ensures Code(code, constants) == CompileExpr(e, old(constants))
      decreases e, 1
    {
      match e {
        case Lit(k) => var index := Const(k); code := [PUSH_CONST(index)];
        case Ident(name) => code := [LOAD(name)];
        case TrustRef(name) => code := [LOAD(name)];
        case ScopeResolve(t, name) => code := [SCOPE_CALL(t, name)];
        case Record(name, fields) => code := [MAKE_RECORD(name, fields)];
        case If(_, _, _) => code := [EVAL_IF(e)];
        case Match(_, _) => code := [EVAL_MATCH(e)];
        case Member(t, f) => code := Expr(t); code := code + [GETATTR(f)];
        case UnOp(op, x) => code := Expr(x); code := code + [UNOP(op)];
        case Pipe(l, r) => code := Expr(l); code := code + [PIPE_CALL(r)];
        case Let(name, _, x) => code := Expr(x); code := code + [STORE(name), LOAD(name)];
        case AnchorExpr(x) => code := Expr(x); code := code + [ANCHOR];
        case EnforceExpr(x) => code := Expr(x); code := code + [ENFORCE];
        case Assert(x) => code := Expr(x); code := code + [ENFORCE];
        case Tuple(items) => code := Exprs(items); code := code + [MAKE_TUPLE(|items|)];
        case Call(t, args) => code := Exprs(args); code := code + [CALL(t, |args|)];
        case BinOp(op, l, r) =>
          var a := Expr(l);
          var b := Expr(r);
          code := a + b + [BINOP(op)];
      }
    }

    method Exprs(es: seq<Expr>) returns (code: seq<Instr>)
      modifies this
      ensures Code(code, constants) == CompileExprs(es, old(constants))
      decreases es, 0
    {
      code := [];
      for k := 0 to |es|
        invariant var rest := CompileExprs(es[k..], constants);
                  CompileExprs(es, old(constants)) == Code(code + rest.instrs, rest.pool)
      {
        ghost var rest, before := es[k..], code;
        assert rest[0] == es[k] && rest[1..] == es[k + 1..];
        ghost var pool := constants;
        var next := Expr(es[k]);
        code := code + next;
        ghost var tail := CompileExprs(es[k + 1..], constants);
        assert before + (next + tail.instrs) == code + tail.instrs;
      }
      assert es[|es|..] == [] && code + [] == code;
    }

    method Statement(s: Stmt) returns (code: seq<Instr>)
      modifies this
      ensures Code(code, constants) == CompileStmt(s, old(constants))
    {
      match s {
        case Bind(name, _, x) => code := Expr(x); code := code + [STORE(name)];
        case Return(x) => code := Expr(x); code := code + [RETURN];
        case Enforce(x) => code := Expr(x); code := code + [ENFORCE];
        case Anchor(x) => code := Expr(x); code := code + [ANCHOR];
        case Rollback(x) => code := Expr(x); code := code + [ROLLBACK];
        case Emit(name, x) => code := Expr(x); code := code + [EMIT(name)];
        case ExprStmt(x) => code := Expr(x); code := code + [POP];
        case IfStmt(_, _, _) => code := [EVAL_IF_STMT(s)];
      }
    }

    method Block(stmts: seq<Stmt>) returns (code: seq<Instr>)
      modifies this
      ensures Code(code, constants) == CompileBlock(stmts, old(constants))
    {
      code := [];
      for k := 0 to |stmts|
        invariant var rest := CompileBlock(stmts[k..], constants);
                  CompileBlock(stmts, old(constants)) == Code(code + rest.instrs, rest.pool)
      {
        ghost var rest, before := stmts[k..], code;
        assert rest[0] == stmts[k] && rest[1..] == stmts[k + 1..];
        var next := Statement(stmts[k]);
        code := code + next;
        ghost var tail := CompileBlock(stmts[k + 1..], constants);
        assert before + (next + tail.instrs) == code + tail.instrs;
      }
      assert stmts[|stmts|..] == [] && code + [] == code;
    }

    method ProgramImage(p: Program) returns (functions: map<string, CompiledFn>)
      requires constants == []
      modifies this
      ensures Image(functions, constants) == CompileProgram(p)
    {
      functions := map[];
      for i := 0 to |p.modules|
        invariant CompileProgram(p) == CompileModules(p.modules[i..], Image(functions, constants))
      {
        var m := p.modules[i];
        ghost var before := Image(functions, constants);
        assert p.modules[i..][0] == m && p.modules[i..][1..] == p.modules[i + 1..];
        for j := 0 to |m.decls|
          invariant CompileDecls(m.name, m.authority, m.decls, before)
                 == CompileDecls(m.name, m.authority, m.decls[j..], Image(functions, constants))
        {
          var d := m.decls[j];
          assert m.decls[j..][0] == d && m.decls[j..][1..] == m.decls[j + 1..];
          if d.Function? {
            var code := Block(d.body);
            functions := functions[m.name + "::" + d.name := CompiledFn(ParamNames(d.params), code, AuthorityOf(d,
                m.authority))];
          }
        }
        assert m.decls[|m.decls|..] == [];
      }
      assert p.modules[|p.modules|..] == [];
    }
  }
}
