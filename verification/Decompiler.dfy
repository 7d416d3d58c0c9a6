/** The emitted code read back: an expression's code, run on a stack of trees instead of values, gives the expression up
    to the little that compiling loses.  So code and pool determine the expression, in every form there is. */
module Decompiler {
  import opened Wrappers
  import opened Ast
  import opened Compiler

  const ANY := BaseType(Builtin(AnyType))

  /** What the code keeps of an expression: not the type of a `let`, not whether a name is a trust reference, not which
      of `enforce` and `assert` a check is.  Trees carried whole in an instruction are kept whole. */
  function Erase(e: Expr): Expr {
    match e
    case Lit(_) => e
    case Ident(_) => e
    case TrustRef(name) => Ident(name)
    case ScopeResolve(_, _) => e
    case Record(_, _) => e
    case If(_, _, _) => e
    case Match(_, _) => e
    case Member(t, f) => Member(Erase(t), f)
    case UnOp(op, x) => UnOp(op, Erase(x))
    case Pipe(l, r) => Pipe(Erase(l), r)
    case Let(name, _, x) => Let(name, ANY, Erase(x))
    case AnchorExpr(x) => AnchorExpr(Erase(x))
    case EnforceExpr(x) => Assert(Erase(x))
    case Assert(x) => Assert(Erase(x))
    case Tuple(items) => Tuple(EraseAll(items))
    case Call(t, args) => Call(t, EraseAll(args))
    case BinOp(op, l, r) => BinOp(op, Erase(l), Erase(r))
  }

  function EraseAll(es: seq<Expr>): (r: seq<Expr>)
    ensures |r| == |es|
  {
    if es == [] then [] else [Erase(es[0])] + EraseAll(es[1..])
  }

  // ---- the code on a stack of trees ----

  /** The tree an instruction makes of the operand on top of the stack. */
  function OneOperand(i: Instr, x: Expr): Option<Expr> {
    match i
    case GETATTR(f) => Some(Member(x, f))
    case UNOP(op) => Some(UnOp(op, x))
    case PIPE_CALL(t) => Some(Pipe(x, t))
    case ENFORCE => Some(Assert(x))
    case ANCHOR => Some(AnchorExpr(x))
    case _ => None
  }

  /** The tree an instruction stands for by itself. */
  function NoOperand(i: Instr, pool: seq<Constant>): Option<Expr> {
    match i
    case PUSH_CONST(k) => if k < |pool| then Some(Lit(pool[k])) else None
    case LOAD(name) => Some(Ident(name))
    case SCOPE_CALL(t, name) => Some(ScopeResolve(t, name))
    case MAKE_RECORD(name, fields) => Some(Record(name, fields))
    case EVAL_IF(e) => if e.If? then Some(e) else None
    case EVAL_MATCH(e) => if e.Match? then Some(e) else None
    case _ => None
  }

  /** The tree an instruction makes of the last `k` operands. */
  function ManyOperands(i: Instr, stack: seq<Expr>): Option<(nat, Expr)> {
    var n := |stack|;
    match i
    case BINOP(op) => if n < 2 then None else Some((2, BinOp(op, stack[n - 2], stack[n - 1])))
    case MAKE_TUPLE(k) => if n < k then None else Some((k, Tuple(stack[n - k..])))
    case CALL(t, k) => if n < k then None else Some((k, Call(t, stack[n - k..])))
    case _ => None
  }

  function StepBack(i: Instr, pool: seq<Constant>, stack: seq<Expr>): Option<seq<Expr>> {
    var n := |stack|;
    if NoOperand(i, pool).Some? then Some(stack + [NoOperand(i, pool).value])
    else if n > 0 && OneOperand(i, stack[n - 1]).Some? then Some(stack[..n - 1] + [OneOperand(i, stack[n - 1]).value])
    else if ManyOperands(i, stack).Some? && ManyOperands(i, stack).value.0 <= n then
      var m := ManyOperands(i, stack).value;
      Some(stack[..n - m.0] + [m.1])
    else None
  }

  /** A store and the load behind it are a `let`. */
  predicate StoresAndLoads(code: seq<Instr>) {
    |code| >= 2 && code[0].STORE? && code[1] == LOAD(code[0].name)
  }

  function Read(code: seq<Instr>, pool: seq<Constant>, stack: seq<Expr>): Option<seq<Expr>>
    decreases |code|
  {
    var n := |stack|;
    if code == [] then Some(stack)
    else if StoresAndLoads(code) then
      if n == 0 then None else Read(code[2..], pool, stack[..n - 1] + [Let(code[0].name, ANY, stack[n - 1])])
    else if StepBack(code[0], pool, stack).None? then None
    else Read(code[1..], pool, StepBack(code[0], pool, stack).value)
  }

  /** One instruction that turns the last `k` trees into `x`. */
  lemma ReadStep(i: Instr, rest: seq<Instr>, pool: seq<Constant>, stack: seq<Expr>, operands: seq<Expr>, x: Expr)
    requires StepBack(i, pool, stack + operands) == Some(stack + [x]) && !i.STORE?
    ensures Read([i] + rest, pool, stack + operands) == Read(rest, pool, stack + [x])
  {
    assert ([i] + rest)[0] == i && ([i] + rest)[1..] == rest;
  }

  /** The code of `e`, whatever comes behind it and whatever is on the stack, puts `e` there up to erasure. */
  lemma {:induction false} ExprRead(e: Expr, before: seq<Constant>, pool: seq<Constant>, rest: seq<Instr>,
                                    stack: seq<Expr>)
    requires CompileExpr(e, before).pool <= pool
    ensures Read(CompileExpr(e, before).instrs + rest, pool, stack) == Read(rest, pool, stack + [Erase(e)])
    decreases e, 1
  {
    match e
    case Lit(k) => LeafRead(PUSH_CONST(|before|), rest, pool, stack, e);
    case Ident(name) => LeafRead(LOAD(name), rest, pool, stack, e);
    case TrustRef(name) => LeafRead(LOAD(name), rest, pool, stack, Ident(name));
    case ScopeResolve(t, name) => LeafRead(SCOPE_CALL(t, name), rest, pool, stack, e);
    case Record(name, fields) => LeafRead(MAKE_RECORD(name, fields), rest, pool, stack, e);
    case If(_, _, _) => LeafRead(EVAL_IF(e), rest, pool, stack, e);
    case Match(_, _) => LeafRead(EVAL_MATCH(e), rest, pool, stack, e);
    case Member(t, f) => PartRead(t, GETATTR(f), before, pool, rest, stack, Erase(e));
    case UnOp(op, x) => PartRead(x, UNOP(op), before, pool, rest, stack, Erase(e));
    case Pipe(l, r) => PartRead(l, PIPE_CALL(r), before, pool, rest, stack, Erase(e));
    case AnchorExpr(x) => PartRead(x, ANCHOR, before, pool, rest, stack, Erase(e));
    case EnforceExpr(x) => PartRead(x, ENFORCE, before, pool, rest, stack, Erase(e));
    case Assert(x) => PartRead(x, ENFORCE, before, pool, rest, stack, Erase(e));
    case Let(_, _, _) => LetRead(e, before, pool, rest, stack);
    case Tuple(items) => ListRead(items, MAKE_TUPLE(|items|), before, pool, rest, stack, Erase(e));
    case Call(t, args) => ListRead(args, CALL(t, |args|), before, pool, rest, stack, Erase(e));
    case BinOp(_, _, _) => BinOpRead(e, before, pool, rest, stack);
  }

  lemma LeafRead(i: Instr, rest: seq<Instr>, pool: seq<Constant>, stack: seq<Expr>, x: Expr)
    requires NoOperand(i, pool) == Some(x) && !i.STORE?
    ensures Read([i] + rest, pool, stack) == Read(rest, pool, stack + [x])
  {
    assert stack + [] == stack;
    ReadStep(i, rest, pool, stack, [], x);
  }

  lemma {:induction false} PartRead(x: Expr, i: Instr, before: seq<Constant>, pool: seq<Constant>, rest: seq<Instr>,
                                    stack: seq<Expr>, e: Expr)
    requires CompileExpr(x, before).pool <= pool && !i.STORE?
    requires NoOperand(i, pool).None? && OneOperand(i, Erase(x)) == Some(e)
    ensures Read(CompileExpr(x, before).instrs + [i] + rest, pool, stack) == Read(rest, pool, stack + [e])
    decreases x, 2
  {
    var code := CompileExpr(x, before).instrs;
    assert code + [i] + rest == code + ([i] + rest);
    ExprRead(x, before, pool, [i] + rest, stack);
    var all := stack + [Erase(x)];
    assert all[..|all| - 1] == stack;
    ReadStep(i, rest, pool, stack, [Erase(x)], e);
  }

  lemma {:induction false} LetRead(e: Expr, before: seq<Constant>, pool: seq<Constant>, rest: seq<Instr>,
                                   stack: seq<Expr>)
    requires e.Let? && CompileExpr(e, before).pool <= pool
    ensures Read(CompileExpr(e, before).instrs + rest, pool, stack) == Read(rest, pool, stack + [Erase(e)])
    decreases e, 0
  {
    var x, tail := e.expr, [STORE(e.name), LOAD(e.name)] + rest;
    var code := CompileExpr(x, before).instrs;
    assert code + [STORE(e.name), LOAD(e.name)] + rest == code + tail;
    ExprRead(x, before, pool, tail, stack);
    var all := stack + [Erase(x)];
    assert StoresAndLoads(tail) && tail[2..] == rest && all[..|all| - 1] == stack;
  }

  lemma {:induction false} BinOpRead(e: Expr, before: seq<Constant>, pool: seq<Constant>, rest: seq<Instr>,
                                     stack: seq<Expr>)
    requires e.BinOp? && CompileExpr(e, before).pool <= pool
    ensures Read(CompileExpr(e, before).instrs + rest, pool, stack) == Read(rest, pool, stack + [Erase(e)])
    decreases e, 0
  {
    var a := CompileExpr(e.left, before);
    var b := CompileExpr(e.right, a.pool);
    var l, r, i := Erase(e.left), Erase(e.right), BINOP(e.op);
    assert a.instrs + b.instrs + [i] + rest == a.instrs + (b.instrs + ([i] + rest));
    ExprRead(e.left, before, pool, b.instrs + ([i] + rest), stack);
    ExprRead(e.right, a.pool, pool, [i] + rest, stack + [l]);
    assert stack + [l] + [r] == stack + [l, r];
    var all := stack + [l, r];
    assert all[..|all| - 2] == stack;
    ReadStep(i, rest, pool, stack, [l, r], BinOp(e.op, l, r));
  }

  lemma Regroup<T>(a: seq<T>, b: seq<T>, c: seq<T>)
    ensures a + b + c == a + (b + c)
  {
  }

  lemma {:induction false} ExprsRead(es: seq<Expr>, before: seq<Constant>, pool: seq<Constant>, rest: seq<Instr>,
                                     stack: seq<Expr>)
    requires CompileExprs(es, before).pool <= pool
    ensures Read(CompileExprs(es, before).instrs + rest, pool, stack) == Read(rest, pool, stack + EraseAll(es))
    decreases es, 0
  {
    if es == [] {
      assert [] + rest == rest && stack + EraseAll([]) == stack;
    } else {
      var a := CompileExpr(es[0], before);
      var b := CompileExprs(es[1..], a.pool);
      var x, more := Erase(es[0]), EraseAll(es[1..]);
      Regroup(a.instrs, b.instrs, rest);
      ExprRead(es[0], before, pool, b.instrs + rest, stack);
      ExprsRead(es[1..], a.pool, pool, rest, stack + [x]);
      Regroup(stack, [x], more);
    }
  }

  lemma ManyStep(i: Instr, pool: seq<Constant>, stack: seq<Expr>, xs: seq<Expr>, e: Expr)
    requires (i == MAKE_TUPLE(|xs|) && e == Tuple(xs)) || (i.CALL? && i.argc == |xs| && e == Call(i.target, xs))
    ensures StepBack(i, pool, stack + xs) == Some(stack + [e])
  {
    var all := stack + xs;
    assert all[|all| - |xs|..] == xs && all[..|all| - |xs|] == stack;
  }

  lemma {:induction false} ListRead(es: seq<Expr>, i: Instr, before: seq<Constant>, pool: seq<Constant>,
                                    rest: seq<Instr>, stack: seq<Expr>, e: Expr)
    requires CompileExprs(es, before).pool <= pool
    requires (i == MAKE_TUPLE(|es|) && e == Tuple(EraseAll(es)))
          || (i.CALL? && i.argc == |es| && e == Call(i.target, EraseAll(es)))
    ensures Read(CompileExprs(es, before).instrs + [i] + rest, pool, stack) == Read(rest, pool, stack + [e])
    decreases es, 1
  {
    var code := CompileExprs(es, before).instrs;
    assert code + [i] + rest == code + ([i] + rest);
    ExprsRead(es, before, pool, [i] + rest, stack);
    ManyStep(i, pool, stack, EraseAll(es), e);
    ReadStep(i, rest, pool, stack, EraseAll(es), e);
  }

  // ---- so the code determines the expression ----

  /** What is erased makes no difference to the code. */
  lemma {:induction false} ErasedSame(e: Expr, pool: seq<Constant>)
    ensures CompileExpr(Erase(e), pool) == CompileExpr(e, pool)
    decreases e, 1
  {
    match e
    case Member(t, _) => ErasedSame(t, pool);
    case UnOp(_, x) => ErasedSame(x, pool);
    case Pipe(l, _) => ErasedSame(l, pool);
    case Let(_, _, x) => ErasedSame(x, pool);
    case AnchorExpr(x) => ErasedSame(x, pool);
    case EnforceExpr(x) => ErasedSame(x, pool);
    case Assert(x) => ErasedSame(x, pool);
    case Tuple(items) => ErasedAllSame(items, pool);
    case Call(_, args) => ErasedAllSame(args, pool);
    case BinOp(_, l, r) =>
      ErasedSame(l, pool);
      ErasedSame(r, CompileExpr(l, pool).pool);
    case _ =>
  }

  lemma {:induction false} ErasedAllSame(es: seq<Expr>, pool: seq<Constant>)
    ensures CompileExprs(EraseAll(es), pool) == CompileExprs(es, pool)
    decreases es, 0
  {
    if es != [] {
      ErasedSame(es[0], pool);
      ErasedAllSame(es[1..], CompileExpr(es[0], pool).pool);
      assert EraseAll(es)[1..] == EraseAll(es[1..]);
    }
  }

  /** Reading an expression's code gives the expression back, up to what is erased. */
  lemma CodeBack(e: Expr, before: seq<Constant>)
    ensures Read(CompileExpr(e, before).instrs, CompileExpr(e, before).pool, []) == Some([Erase(e)])
  {
    var c := CompileExpr(e, before);
    assert c.instrs + [] == c.instrs && [] + [Erase(e)] == [Erase(e)];
    ExprRead(e, before, c.pool, [], []);
    assert Read([], c.pool, [Erase(e)]) == Some([Erase(e)]);
  }

  /** Two expressions compile to the same code and pool exactly when they are the same up to the types of `let`s, to
      trust references read as names, and to `enforce` read as `assert`. */
  lemma SameCodeIff(e: Expr, f: Expr, before: seq<Constant>)
    ensures CompileExpr(e, before) == CompileExpr(f, before) <==> Erase(e) == Erase(f)
  {
    CodeBack(e, before);
    CodeBack(f, before);
    ErasedSame(e, before);
    ErasedSame(f, before);
  }

  // ---- statements ----

  /** The instruction that closes a statement. */
  predicate Closes(s: Stmt, i: Instr) {
    match s
    case Bind(name, _, _) => i == STORE(name)
    case Return(_) => i == RETURN
    case Enforce(_) => i == ENFORCE
    case Anchor(_) => i == ANCHOR
    case Rollback(_) => i == ROLLBACK
    case Emit(name, _) => i == EMIT(name)
    case ExprStmt(_) => i == POP
    case IfStmt(_, _, _) => i == EVAL_IF_STMT(s)
  }

  /** Reading all of a statement's code but its last instruction gives its expression back, and the last instruction is
      the one that closes it; an `if` statement is one instruction. */
  lemma StatementBack(s: Stmt, before: seq<Constant>)
    ensures var c := CompileStmt(s, before);
            var n := |c.instrs| - 1;
      && n >= 0 && Closes(s, c.instrs[n])
      && (s.IfStmt? ==> n == 0 && c.pool == before)
      && (!s.IfStmt? ==> Read(c.instrs[..n], c.pool, []) == Some([Erase(s.expr)]))
  {
    if !s.IfStmt? {
      var c, n := CompileStmt(s, before), |CompileStmt(s, before).instrs| - 1;
      CodeBack(s.expr, before);
      assert c.instrs[..n] == CompileExpr(s.expr, before).instrs;
    }
  }
}
