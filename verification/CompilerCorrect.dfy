/** Running the emitted code gives the value or the exception of the tree walk.

    The compiler drops the Lawful and Governed tags a binding would put on its value, so variables
    and results agree once tags are removed; `Exact` tells which expressions agree outright. */
module CompilerCorrect {
  import opened Ast
  import opened Semantics
  import opened Compiler
  import opened Machine

  // ---- the fragment ----

  /** A type whose tag, if it puts one, is only a transparent wrapper. */
  predicate Erasable(ty: TypeExpr) {
    ty.GenericType? ==>
      && ty.name != "Signal" && ty.name != "Trust"
      && (ty.name == "Lawful" && ty.args != [] ==> NameOfType(ty.args[0]).Some?)
      && (ty.name == "Governed" && |ty.args| > 1 ==> NameOfType(ty.args[1]).Some?)
  }

  predicate Untagged(ty: TypeExpr) {
    ty.GenericType? ==> ty.name !in {"Lawful", "Governed", "Signal", "Trust"}
  }

  /** A form whose value is never a Lawful or Governed tag. */
  predicate Bare(e: Expr) {
    match e
    case Lit(_) => true
    case Ident(_) => true
    case ScopeResolve(_, _) => true
    case BinOp(op, _, _) => op in {Eq, Ne, And, Or}
    case UnOp(op, _) => op.Not?
    case Tuple(_) => true
    case Let(_, ty, x) => Untagged(ty) && Bare(x)
    case _ => false
  }

  /** Same value on both sides, tag included. */
  predicate Exact(e: Expr) {
    match e
    case Let(_, ty, x) => Untagged(ty) && Bare(x)
    case AnchorExpr(x) => Exact(x)
    case _ => true
  }

  /** A callee that runs no program code. */
  predicate PlainCallee(h: Host, t: Expr) {
    t.Member? || (t.Ident? && PlainLibrary(h, t.name))
  }

  predicate Fragment(h: Host, e: Expr) {
    match e
    case Lit(_) => true
    case Ident(_) => true
    case ScopeResolve(_, _) => true
    case Member(t, _) => Fragment(h, t)
    case BinOp(_, l, r) => Fragment(h, l) && Fragment(h, r)
    case UnOp(_, x) => Fragment(h, x) && Exact(x)
    case Tuple(items) => forall x | x in items :: Fragment(h, x) && Exact(x)
    case Call(t, args) => PlainCallee(h, t) && forall x | x in args :: Fragment(h, x) && Exact(x)
    case Pipe(l, r) => PlainCallee(h, r) && Fragment(h, l) && Exact(l)
    case Let(_, ty, x) => Erasable(ty) && Fragment(h, x)
    case AnchorExpr(x) => Fragment(h, x)
    case EnforceExpr(x) => Fragment(h, x) && Exact(x)
    case Assert(x) => Fragment(h, x) && Exact(x)
    case _ => false
  }

  predicate FragmentStmt(c: Ctx, s: Stmt) {
    match s
    case Bind(_, ty, x) => Erasable(ty) && Fragment(c.host, x)
    case Return(x) => Fragment(c.host, x)
    case Enforce(x) => Fragment(c.host, x) && Exact(x)
    case Anchor(x) => Fragment(c.host, x)
    case Emit(name, x) => Fragment(c.host, x) && name !in c.observers
    case ExprStmt(x) => Fragment(c.host, x)
    case _ => false
  }

  // ---- what corresponds ----

  predicate Agree(v: Value, w: Value) { Unwrap(v) == Unwrap(w) }

  ghost predicate EnvAgree(env: Env, vars: Env) {
    env.Keys == vars.Keys && forall n | n in env :: Agree(env[n], vars[n])
  }

  /** Globals no local hides are as they were when the code started. */
  ghost predicate GlobalsSeen(env: Env, now: Env, g: Env) {
    forall n | n !in env :: (n in now <==> n in g) && (n in g ==> now[n] == g[n])
  }

  ghost predicate AnchorsAgree(a: seq<Env>, b: seq<Env>) {
    |a| == |b| && forall k | 0 <= k < |a| :: EnvAgree(a[k], b[k])
  }

  function Sent(audit: seq<Event>): seq<(string, Value)> {
    if audit == [] then []
    else
      var e := audit[|audit| - 1];
      Sent(audit[..|audit| - 1]) + if e.SignalEmit? then [(e.signal, e.value)] else []
  }

  ghost predicate SentAgree(a: seq<(string, Value)>, b: seq<(string, Value)>) {
    |a| == |b| && forall k | 0 <= k < |a| :: a[k].0 == b[k].0 && Agree(a[k].1, b[k].1)
  }

  ghost predicate Related(g: Env, st: State, env: Env, vm: VM) {
    && EnvAgree(env, vm.vars)
    && GlobalsSeen(env, st.globals, g)
    && AnchorsAgree(st.anchors, vm.anchors)
    && SentAgree(Sent(st.audit), vm.sent)
    && st.calls == vm.calls
  }

  // ---- small facts ----

  lemma UnwrapTwice(v: Value)
    ensures Unwrap(Unwrap(v)) == Unwrap(v)
  {
  }

  lemma TagAgrees(ty: TypeExpr, v: Value)
    requires Erasable(ty)
    ensures Tag(ty, v).Ok? && Agree(Tag(ty, v).value, v)
  {
  }

  lemma LookupAgrees(h: Host, g: Env, st: State, env: Env, vm: VM, name: string)
    requires Related(g, st, env, vm)
    ensures Lookup(h, st.globals, env, name) == Lookup(h, g, vm.vars, name)
  {
  }

  lemma StoreRelated(g: Env, st: State, env: Env, vm: VM, name: string, v: Value, w: Value)
    requires Related(g, st, env, vm) && Agree(v, w)
    ensures Related(g, st, env[name := v], vm.(vars := vm.vars[name := w]))
    ensures Related(g, st.(globals := SetDefault(st.globals, name, v)), env[name := v], vm.(vars := vm.vars[name := w]))
  {
  }

  lemma AnchorRelated(g: Env, st: State, env: Env, vm: VM)
    requires Related(g, st, env, vm)
    ensures Related(g, PushAnchor(st, env), env, vm.(anchors := vm.anchors + [vm.vars]))
  {
  }

  lemma SentAppend(audit: seq<Event>, e: Event)
    ensures Sent(audit + [e]) == Sent(audit) + if e.SignalEmit? then [(e.signal, e.value)] else []
  {
    assert (audit + [e])[..|audit|] == audit;
  }

  lemma {:induction false} SentLibrary(audit: seq<Event>, codes: seq<int>)
    ensures Sent(audit + LibraryEvents(codes)) == Sent(audit)
    decreases |codes|
  {
    if codes == [] {
      assert audit + LibraryEvents(codes) == audit;
    } else {
      var k := |codes| - 1;
      SentLibrary(audit, codes[..k]);
      SentAppend(audit + LibraryEvents(codes[..k]), LibraryEvent(codes[k]));
      assert audit + LibraryEvents(codes) == (audit + LibraryEvents(codes[..k])) + [LibraryEvent(codes[k])];
    }
  }

  // ---- expressions ----

  /** One more operand on the stack, agreeing with the value. */
  ghost predicate Computes(g: Env, vm: VM, r: Out<Value>, o: Outcome, exact: bool) {
    match r.res
    case Err(x) => o == Faulted(x)
    case Ok(v) =>
      && o.Running?
      && |o.vm.stack| > 0
      && o.vm.stack == vm.stack + [Top(o.vm, 1)]
      && Agree(v, Top(o.vm, 1))
      && (exact ==> v == Top(o.vm, 1))
      && Related(g, r.st, r.env, o.vm)
  }

  /** Replacing the operands on top of `s` by a result that corresponds. */
  lemma Pushed(g: Env, vm: VM, r: Out<Value>, o: VM, s: seq<Value>, w: Result<Value>)
    requires vm.stack == s && r.res == w && Related(g, r.st, r.env, o)
    ensures Computes(g, vm, r, PushResult(o.(stack := s), w), true)
  {
  }

  lemma OneOnTop(vm: VM, s: seq<Value>, w: Value)
    requires vm.stack == s + [w]
    ensures Top(vm, 1) == w && Pop(vm, 1) == vm.(stack := s)
  {
    assert (s + [w])[..|s|] == s;
  }

  lemma TwoOnTop(vm: VM, s: seq<Value>, v: Value, w: Value)
    requires vm.stack == s + [v] + [w]
    ensures Top(vm, 1) == w && Top(vm, 2) == v && Pop(vm, 2) == vm.(stack := s)
  {
    assert (s + [v] + [w])[..|s|] == s;
  }

  lemma ManyOnTop(vm: VM, s: seq<Value>, vs: seq<Value>)
    requires vm.stack == s + vs
    ensures vm.stack[|vm.stack| - |vs|..] == vs && Pop(vm, |vs|) == vm.(stack := s)
  {
    assert (s + vs)[|s|..] == vs && (s + vs)[..|s|] == s;
  }

  lemma {:induction false} ExprCorrect(c: Ctx, fuel: nat, g: Env, st: State, env: Env, vm: VM, e: Expr,
                                       pool: seq<Constant>,
                                       full: seq<Constant>)
    requires Fragment(c.host, e) && Related(g, st, env, vm) && CompileExpr(e, pool).pool <= full
    ensures Computes(g, vm, EvalExpr(c, fuel, st, env, e), Run(c.host, g, full, CompileExpr(e, pool).instrs, vm),
        Exact(e))
    decreases e, 2
  {
    if e.Lit? || e.Ident? || e.ScopeResolve? { LeafCorrect(c, fuel, g, st, env, vm, e, pool, full); }
    else if e.BinOp? || e.Tuple? || e.Call? || e.Pipe? { OperandsCorrect(c, fuel, g, st, env, vm, e, pool, full); }
    else { OperandCorrect(c, fuel, g, st, env, vm, e, pool, full); }
  }

  /** The forms with several operands or a callee. */
  lemma {:induction false} OperandsCorrect(c: Ctx, fuel: nat, g: Env, st: State, env: Env, vm: VM, e: Expr,
                                           pool: seq<Constant>,
                                           full: seq<Constant>)
    requires e.BinOp? || e.Tuple? || e.Call? || e.Pipe?
    requires Fragment(c.host, e) && Related(g, st, env, vm) && CompileExpr(e, pool).pool <= full
    ensures Computes(g, vm, EvalExpr(c, fuel, st, env, e), Run(c.host, g, full, CompileExpr(e, pool).instrs, vm), true)
    decreases e, 1
  {
    if e.BinOp? { BinOpCorrect(c, fuel, g, st, env, vm, e, pool, full); }
    else if e.Tuple? { TupleCorrect(c, fuel, g, st, env, vm, e, pool, full); }
    else if e.Call? { CallCorrect(c, fuel, g, st, env, vm, e, pool, full); }
    else { PipeCorrect(c, fuel, g, st, env, vm, e, pool, full); }
  }

  /** The forms with one operand. */
  lemma {:induction false} OperandCorrect(c: Ctx, fuel: nat, g: Env, st: State, env: Env, vm: VM, e: Expr,
                                          pool: seq<Constant>,
                                          full: seq<Constant>)
    requires e.Member? || e.UnOp? || e.Let? || e.AnchorExpr? || e.EnforceExpr? || e.Assert?
    requires Fragment(c.host, e) && Related(g, st, env, vm) && CompileExpr(e, pool).pool <= full
    ensures Computes(g, vm, EvalExpr(c, fuel, st, env, e), Run(c.host, g, full, CompileExpr(e, pool).instrs, vm),
        Exact(e))
    decreases e, 1
  {
    if e.Member? { MemberCorrect(c, fuel, g, st, env, vm, e, pool, full); }
    else if e.UnOp? { UnOpCorrect(c, fuel, g, st, env, vm, e, pool, full); }
    else if e.Let? { LetCorrect(c, fuel, g, st, env, vm, e, pool, full); }
    else if e.AnchorExpr? { AnchorCorrect(c, fuel, g, st, env, vm, e, pool, full); }
    else { EnforceCorrect(c, fuel, g, st, env, vm, e, pool, full); }
  }

  lemma LeafCorrect(c: Ctx, fuel: nat, g: Env, st: State, env: Env, vm: VM, e: Expr, pool: seq<Constant>,
                    full: seq<Constant>)
    requires (e.Lit? || e.Ident? || e.ScopeResolve?) && Related(g, st, env, vm) && CompileExpr(e, pool).pool <= full
    ensures Computes(g, vm, EvalExpr(c, fuel, st, env, e), Run(c.host, g, full, CompileExpr(e, pool).instrs, vm), true)
  {
    match e
    case Lit(k) =>
      RunOne(c.host, g, full, PUSH_CONST(|pool|), vm);
      assert full[|pool|] == (pool + [k])[|pool|] == k;
    case Ident(name) =>
      RunOne(c.host, g, full, LOAD(name), vm);
      LookupAgrees(c.host, g, st, env, vm, name);
    case ScopeResolve(t, name) => RunOne(c.host, g, full, SCOPE_CALL(t, name), vm);
  }

  /** An instruction that replaces one operand by a result computed from it. */
  lemma ReplacesTop(g: Env, vm: VM, a: Out<Value>, o: VM, w: Result<Value>)
    requires a.res.Ok? && o.stack == vm.stack + [a.res.value] && Related(g, a.st, a.env, o)
    ensures Top(o, 1) == a.res.value
    ensures Computes(g, vm, Out(a.st, a.env, w), PushResult(Pop(o, 1), w), true)
  {
    OneOnTop(o, vm.stack, a.res.value);
    Pushed(g, vm, Out(a.st, a.env, w), o, vm.stack, w);
  }

  lemma {:induction false} MemberCorrect(c: Ctx, fuel: nat, g: Env, st: State, env: Env, vm: VM, e: Expr,
                                         pool: seq<Constant>,
                                         full: seq<Constant>)
    requires e.Member? && Fragment(c.host, e) && Related(g, st, env, vm) && CompileExpr(e, pool).pool <= full
    ensures Computes(g, vm, EvalExpr(c, fuel, st, env, e), Run(c.host, g, full, CompileExpr(e, pool).instrs, vm), true)
    decreases e, 0
  {
    var code := CompileExpr(e.target, pool).instrs;
    ExprCorrect(c, fuel, g, st, env, vm, e.target, pool, full);
    RunThen(c.host, g, full, code, GETATTR(e.field), vm);
    var a, o := EvalExpr(c, fuel, st, env, e.target), Run(c.host, g, full, code, vm);
    if a.res.Ok? { FieldComputes(c.host, g, full, vm, a, Top(o.vm, 1), o.vm, e.field); }
  }

  /** A field is read through any tag. */
  lemma FieldComputes(h: Host, g: Env, full: seq<Constant>, vm: VM, a: Out<Value>, w: Value, o: VM, field: string)
    requires a.res.Ok? && o.stack == vm.stack + [w] && Agree(a.res.value, w) && Related(g, a.st, a.env, o)
    ensures Computes(g, vm, Out(a.st, a.env, Ok(GetField(h, a.res.value, field))),
        StepVM(h, g, full, GETATTR(field), o), true)
  {
    ReplacesTop(g, vm, Out(a.st, a.env, Ok(w)), o, Ok(GetField(h, w, field)));
  }

  lemma {:induction false} UnOpCorrect(c: Ctx, fuel: nat, g: Env, st: State, env: Env, vm: VM, e: Expr,
                                       pool: seq<Constant>,
                                       full: seq<Constant>)
    requires e.UnOp? && Fragment(c.host, e) && Related(g, st, env, vm) && CompileExpr(e, pool).pool <= full
    ensures Computes(g, vm, EvalExpr(c, fuel, st, env, e), Run(c.host, g, full, CompileExpr(e, pool).instrs, vm), true)
    decreases e, 0
  {
    var code := CompileExpr(e.operand, pool).instrs;
    ExprCorrect(c, fuel, g, st, env, vm, e.operand, pool, full);
    RunThen(c.host, g, full, code, UNOP(e.uop), vm);
    var a, o := EvalExpr(c, fuel, st, env, e.operand), Run(c.host, g, full, code, vm);
    if a.res.Ok? { OperatorComputes(c.host, g, full, vm, a, o.vm, e.uop); }
  }

  lemma OperatorComputes(h: Host, g: Env, full: seq<Constant>, vm: VM, a: Out<Value>, o: VM, op: UnaryOp)
    requires a.res.Ok? && o.stack == vm.stack + [a.res.value] && Related(g, a.st, a.env, o)
    ensures Computes(g, vm, Out(a.st, a.env, Unop(h, op, a.res.value)), StepVM(h, g, full, UNOP(op), o), true)
  {
    ReplacesTop(g, vm, a, o, Unop(h, op, a.res.value));
  }

  lemma {:induction false} AnchorCorrect(c: Ctx, fuel: nat, g: Env, st: State, env: Env, vm: VM, e: Expr,
                                         pool: seq<Constant>, full: seq<Constant>)
    requires e.AnchorExpr? && Fragment(c.host, e) && Related(g, st, env, vm) && CompileExpr(e, pool).pool <= full
    ensures Computes(g, vm, EvalExpr(c, fuel, st, env, e), Run(c.host, g, full, CompileExpr(e, pool).instrs, vm),
        Exact(e))
    decreases e, 0
  {
    var code := CompileExpr(e.expr, pool).instrs;
    ExprCorrect(c, fuel, g, st, env, vm, e.expr, pool, full);
    RunThen(c.host, g, full, code, ANCHOR, vm);
    var a, o := EvalExpr(c, fuel, st, env, e.expr), Run(c.host, g, full, code, vm);
    if a.res.Ok? { AnchorRelated(g, a.st, a.env, o.vm); }
  }

  lemma {:induction false} EnforceCorrect(c: Ctx, fuel: nat, g: Env, st: State, env: Env, vm: VM, e: Expr,
                                          pool: seq<Constant>, full: seq<Constant>)
    requires e.EnforceExpr? || e.Assert?
    requires Fragment(c.host, e) && Related(g, st, env, vm) && CompileExpr(e, pool).pool <= full
    ensures Computes(g, vm, EvalExpr(c, fuel, st, env, e), Run(c.host, g, full, CompileExpr(e, pool).instrs, vm), true)
    decreases e, 0
  {
    ExprCorrect(c, fuel, g, st, env, vm, e.expr, pool, full);
    RunThen(c.host, g, full, CompileExpr(e.expr, pool).instrs, ENFORCE, vm);
    assert EvalExpr(c, fuel, st, env, e) == EvalCheck(c, fuel, st, env, e.expr);
  }

  lemma {:induction false} TupleCorrect(c: Ctx, fuel: nat, g: Env, st: State, env: Env, vm: VM, e: Expr,
                                        pool: seq<Constant>, full: seq<Constant>)
    requires e.Tuple? && Fragment(c.host, e) && Related(g, st, env, vm) && CompileExpr(e, pool).pool <= full
    ensures Computes(g, vm, EvalExpr(c, fuel, st, env, e), Run(c.host, g, full, CompileExpr(e, pool).instrs, vm), true)
    decreases e, 0
  {
    var code := CompileExprs(e.items, pool).instrs;
    ListCorrect(c, fuel, g, st, env, vm, e.items, pool, full);
    RunThen(c.host, g, full, code, MAKE_TUPLE(|e.items|), vm);
    var a, o := EvalList(c, fuel, st, env, e.items), Run(c.host, g, full, code, vm);
    if a.res.Ok? { ManyOnTop(o.vm, vm.stack, a.res.value); }
  }

  lemma {:induction false} BinOpCorrect(c: Ctx, fuel: nat, g: Env, st: State, env: Env, vm: VM, e: Expr,
                                        pool: seq<Constant>, full: seq<Constant>)
    requires e.BinOp? && Fragment(c.host, e) && Related(g, st, env, vm) && CompileExpr(e, pool).pool <= full
    ensures Computes(g, vm, EvalExpr(c, fuel, st, env, e), Run(c.host, g, full, CompileExpr(e, pool).instrs, vm), true)
    decreases e, 0
  {
    var h := c.host;
    var a := CompileExpr(e.left, pool);
    var b := CompileExpr(e.right, a.pool);
    ExprCorrect(c, fuel, g, st, env, vm, e.left, pool, full);
    RunThen(h, g, full, a.instrs + b.instrs, BINOP(e.op), vm);
    RunAppend(h, g, full, a.instrs, b.instrs, vm);
    var l, o := EvalExpr(c, fuel, st, env, e.left), Run(h, g, full, a.instrs, vm);
    if l.res.Ok? {
      ExprCorrect(c, fuel, g, l.st, l.env, o.vm, e.right, a.pool, full);
      var r, o2 := EvalExpr(c, fuel, l.st, l.env, e.right), Run(h, g, full, b.instrs, o.vm);
      if r.res.Ok? {
        OperatorCorrect(h, g, full, vm, e.op, l.res.value, Top(o.vm, 1), r, r.res.value, Top(o2.vm, 1), o2.vm);
      }
    }
  }

  lemma OperatorCorrect(h: Host, g: Env, full: seq<Constant>, vm: VM, op: BinaryOp, v1: Value, w1: Value,
                        r: Out<Value>, v2: Value, w2: Value, top: VM)
    requires top.stack == vm.stack + [w1] + [w2] && Agree(v1, w1) && Agree(v2, w2) && Related(g, r.st, r.env, top)
    ensures Computes(g, vm, Out(r.st, r.env, Binop(h, op, v1, v2)), StepVM(h, g, full, BINOP(op), top), true)
  {
    TwoOnTop(top, vm.stack, w1, w2);
    var w := Binop(h, op, w1, w2);
    assert w == Binop(h, op, v1, v2);
    Pushed(g, vm, Out(r.st, r.env, w), top, vm.stack, w);
  }

  predicate Wrapped(v: Value) { v.VLawful? || v.VGoverned? }

  lemma {:induction false} BareValue(c: Ctx, fuel: nat, st: State, env: Env, e: Expr)
    requires Bare(e) && EvalExpr(c, fuel, st, env, e).res.Ok?
    ensures !Wrapped(EvalExpr(c, fuel, st, env, e).res.value)
    decreases e
  {
    if e.Let? { BareValue(c, fuel, st, env, e.expr); }
    if e.Ident? && e.name in env { UnwrapBare(env[e.name]); }
    if e.Ident? && e.name in st.globals { UnwrapBare(st.globals[e.name]); }
  }

  lemma UnwrapBare(v: Value)
    ensures !Wrapped(Unwrap(v))
  {
  }

  lemma {:induction false} LetCorrect(c: Ctx, fuel: nat, g: Env, st: State, env: Env, vm: VM, e: Expr,
                                      pool: seq<Constant>,
                                      full: seq<Constant>)
    requires e.Let? && Fragment(c.host, e) && Related(g, st, env, vm) && CompileExpr(e, pool).pool <= full
    ensures Computes(g, vm, EvalExpr(c, fuel, st, env, e), Run(c.host, g, full, CompileExpr(e, pool).instrs, vm),
        Exact(e))
    decreases e, 0
  {
    ExprCorrect(c, fuel, g, st, env, vm, e.expr, pool, full);
    LetComputes(c, fuel, g, st, env, vm, e, pool, full);
  }

  lemma LetComputes(c: Ctx, fuel: nat, g: Env, st: State, env: Env, vm: VM, e: Expr, pool: seq<Constant>,
                    full: seq<Constant>)
    requires e.Let? && Erasable(e.ty)
    requires Computes(g, vm, EvalExpr(c, fuel, st, env, e.expr),
        Run(c.host, g, full, CompileExpr(e.expr, pool).instrs, vm),
                      Exact(e.expr))
    ensures Computes(g, vm, EvalExpr(c, fuel, st, env, e), Run(c.host, g, full, CompileExpr(e, pool).instrs, vm),
        Exact(e))
  {
    var code := CompileExpr(e.expr, pool).instrs;
    LetRuns(c.host, g, full, code, e.name, vm);
    var a, o := EvalExpr(c, fuel, st, env, e.expr), Run(c.host, g, full, code, vm);
    if a.res.Ok? {
      TagAgrees(e.ty, a.res.value);
      LetStores(g, a.st, a.env, o.vm, vm.stack, e.name, Tag(e.ty, a.res.value).value);
      if Exact(e) { BareValue(c, fuel, st, env, e.expr); }
    }
  }

  /** The end of a binding's code: the operand goes to the variable, and its bare value back on the stack. */
  lemma LetRuns(h: Host, g: Env, full: seq<Constant>, code: seq<Instr>, name: string, vm: VM)
    ensures var o := Run(h, g, full, code, vm);
            o.Running? && |o.vm.stack| > 0 ==>
              Run(h, g, full, code + [STORE(name), LOAD(name)], vm) == Running(AfterLet(o.vm, name))
    ensures var o := Run(h, g, full, code, vm); !o.Running? ==>
        Run(h, g, full, code + [STORE(name), LOAD(name)], vm) == o
  {
    assert code + [STORE(name), LOAD(name)] == (code + [STORE(name)]) + [LOAD(name)];
    RunThen(h, g, full, code + [STORE(name)], LOAD(name), vm);
    RunThen(h, g, full, code, STORE(name), vm);
  }

  function AfterLet(vm: VM, name: string): VM
    requires |vm.stack| > 0
  {
    var w := Top(vm, 1);
    vm.(vars := vm.vars[name := w], stack := vm.stack[..|vm.stack| - 1] + [Unwrap(w)])
  }

  lemma LetStores(g: Env, st: State, env: Env, vm: VM, s: seq<Value>, name: string, v: Value)
    requires |vm.stack| > 0 && vm.stack == s + [Top(vm, 1)] && Related(g, st, env, vm) && Agree(v, Top(vm, 1))
    ensures var after := AfterLet(vm, name);
      && after.stack == s + [Unwrap(Top(vm, 1))]
      && Agree(v, Top(after, 1))
      && Related(g, st.(globals := SetDefault(st.globals, name, v)), env[name := v], after)
  {
    var w := Top(vm, 1);
    StoreRelated(g, st, env, vm, name, v, w);
    UnwrapTwice(w);
    OneOnTop(vm, s, w);
  }

  lemma {:induction false} CallCorrect(c: Ctx, fuel: nat, g: Env, st: State, env: Env, vm: VM, e: Expr,
                                       pool: seq<Constant>,
                                       full: seq<Constant>)
    requires e.Call? && Fragment(c.host, e) && Related(g, st, env, vm) && CompileExpr(e, pool).pool <= full
    ensures Computes(g, vm, EvalExpr(c, fuel, st, env, e), Run(c.host, g, full, CompileExpr(e, pool).instrs, vm), true)
    decreases e, 0
  {
    var code := CompileExprs(e.args, pool).instrs;
    ListCorrect(c, fuel, g, st, env, vm, e.args, pool, full);
    RunThen(c.host, g, full, code, CALL(e.target, |e.args|), vm);
    var a, o := EvalList(c, fuel, st, env, e.args), Run(c.host, g, full, code, vm);
    if a.res.Ok? { CallComputes(c, fuel, g, full, vm, a.st, a.env, o.vm, e.target, a.res.value); }
  }

  lemma CallComputes(c: Ctx, fuel: nat, g: Env, full: seq<Constant>, vm: VM, st: State, env: Env, o: VM, t: Expr,
                     args: seq<Value>)
    requires PlainCallee(c.host, t) && o.stack == vm.stack + args && Related(g, st, env, o)
    ensures Computes(g, vm, Invoke(c, fuel, st, env, t, args), StepVM(c.host, g, full, CALL(t, |args|), o), true)
  {
    ManyOnTop(o, vm.stack, args);
    ApplyCorrect(c, fuel, g, st, env, Pop(o, |args|), t, args);
    SameBelow(g, vm, Pop(o, |args|), Invoke(c, fuel, st, env, t, args), Apply(c.host, t, args, Pop(o, |args|)));
  }

  /** Only the operands below matter to what is computed on top of them. */
  lemma SameBelow(g: Env, vm: VM, other: VM, r: Out<Value>, o: Outcome)
    requires other.stack == vm.stack && Computes(g, other, r, o, true)
    ensures Computes(g, vm, r, o, true)
  {
  }

  lemma {:induction false} PipeCorrect(c: Ctx, fuel: nat, g: Env, st: State, env: Env, vm: VM, e: Expr,
                                       pool: seq<Constant>,
                                       full: seq<Constant>)
    requires e.Pipe? && Fragment(c.host, e) && Related(g, st, env, vm) && CompileExpr(e, pool).pool <= full
    ensures Computes(g, vm, EvalExpr(c, fuel, st, env, e), Run(c.host, g, full, CompileExpr(e, pool).instrs, vm), true)
    decreases e, 0
  {
    var code := CompileExpr(e.left, pool).instrs;
    ExprCorrect(c, fuel, g, st, env, vm, e.left, pool, full);
    RunThen(c.host, g, full, code, PIPE_CALL(e.right), vm);
    var a, o := EvalExpr(c, fuel, st, env, e.left), Run(c.host, g, full, code, vm);
    if a.res.Ok? { PipeComputes(c, fuel, g, full, vm, a.st, a.env, o.vm, e.right, a.res.value); }
  }

  lemma PipeComputes(c: Ctx, fuel: nat, g: Env, full: seq<Constant>, vm: VM, st: State, env: Env, o: VM, t: Expr,
                     arg: Value)
    requires PlainCallee(c.host, t) && o.stack == vm.stack + [arg] && Related(g, st, env, o)
    ensures Computes(g, vm, Invoke(c, fuel, st, env, t, [arg]), StepVM(c.host, g, full, PIPE_CALL(t), o), true)
  {
    OneOnTop(o, vm.stack, arg);
    ApplyCorrect(c, fuel, g, st, env, Pop(o, 1), t, [arg]);
    SameBelow(g, vm, Pop(o, 1), Invoke(c, fuel, st, env, t, [arg]), Apply(c.host, t, [arg], Pop(o, 1)));
  }

  lemma ApplyCorrect(c: Ctx, fuel: nat, g: Env, st: State, env: Env, vm: VM, t: Expr, args: seq<Value>)
    requires PlainCallee(c.host, t) && Related(g, st, env, vm)
    ensures Computes(g, vm, Invoke(c, fuel, st, env, t, args), Apply(c.host, t, args, vm), true)
  {
    if t.Ident? {
      var (res, codes) := c.host.call(st.calls, t.name, args);
      SentLibrary(st.audit, codes);
      assert Invoke(c, fuel, st, env, t, args) == CallLibrary(c, fuel, st, env, t.name, args);
      assert CallLibrary(c, fuel, st, env, t.name, args) == Out(AfterCall(st, codes), env, FromHost(res));
      assert Apply(c.host, t, args, vm) == PushResult(vm.(calls := vm.calls + 1), FromHost(res));
    }
  }

  /** The values of a list on the stack, in order. */
  ghost predicate ComputesList(g: Env, vm: VM, count: nat, r: Out<seq<Value>>, o: Outcome) {
    match r.res
    case Err(x) => o == Faulted(x)
    case Ok(vs) =>
      && o.Running?
      && |vs| == count
      && o.vm.stack == vm.stack + vs
      && Related(g, r.st, r.env, o.vm)
  }

  lemma {:induction false} ListCorrect(c: Ctx, fuel: nat, g: Env, st: State, env: Env, vm: VM, es: seq<Expr>,
                                       pool: seq<Constant>, full: seq<Constant>)
    requires (forall x | x in es :: Fragment(c.host, x) && Exact(x)) && Related(g, st, env, vm)
    requires CompileExprs(es, pool).pool <= full
    ensures ComputesList(g, vm, |es|, EvalList(c, fuel, st, env, es),
        Run(c.host, g, full, CompileExprs(es, pool).instrs, vm))
    decreases es, 0
  {
    if es == [] {
      assert vm.stack + [] == vm.stack;
    } else {
      var h := c.host;
      var a := CompileExpr(es[0], pool);
      var b := CompileExprs(es[1..], a.pool);
      ExprCorrect(c, fuel, g, st, env, vm, es[0], pool, full);
      RunAppend(h, g, full, a.instrs, b.instrs, vm);
      var l, o := EvalExpr(c, fuel, st, env, es[0]), Run(h, g, full, a.instrs, vm);
      if l.res.Ok? {
        ListCorrect(c, fuel, g, l.st, l.env, o.vm, es[1..], a.pool, full);
        ListJoined(g, vm, |es| - 1, l.res.value, EvalList(c, fuel, l.st, l.env, es[1..]), o.vm,
            Run(h, g, full, b.instrs, o.vm));
      }
    }
  }

  /** A value on the stack, then those of the rest of the list. */
  lemma ListJoined(g: Env, vm: VM, count: nat, v: Value, r: Out<seq<Value>>, first: VM, o: Outcome)
    requires first.stack == vm.stack + [v] && ComputesList(g, first, count, r, o)
    ensures ComputesList(g, vm, count + 1, if r.res.Ok? then Out(r.st, r.env, Ok([v] + r.res.value)) else r, o)
  {
    if r.res.Ok? { assert (vm.stack + [v]) + r.res.value == vm.stack + ([v] + r.res.value); }
  }

  // ---- blocks ----

  /** Statements that leave their value on the machine's stack. */
  function Leftovers(stmts: seq<Stmt>): nat {
    if stmts == [] then 0
    else (if stmts[0].Enforce? || stmts[0].Anchor? then 1 else 0) + Leftovers(stmts[1..])
  }

  ghost predicate ExecutesStmt(g: Env, vm: VM, s: Stmt, r: Out<Done>, o: Outcome) {
    match r.res
    case Err(x) => o == Faulted(x)
    case Ok(Returned(v)) => s.Return? && o.Finished? && Agree(v, o.value) && Related(g, r.st, r.env, o.vm)
    case Ok(Next) =>
      && !s.Return?
      && o.Running?
      && Related(g, r.st, r.env, o.vm)
      && |o.vm.stack| == |vm.stack| + Leftovers([s])
      && vm.stack <= o.vm.stack
  }

  /** The instruction that ends a statement's code. */
  function LastInstr(s: Stmt): Instr
    requires !s.IfStmt?
  {
    match s
    case Bind(name, _, _) => STORE(name)
    case Return(_) => RETURN
    case Enforce(_) => ENFORCE
    case Anchor(_) => ANCHOR
    case Rollback(_) => ROLLBACK
    case Emit(name, _) => EMIT(name)
    case ExprStmt(_) => POP
  }

  /** What the statement does once its expression has a value. */
  function Finish(st: State, env: Env, s: Stmt, v: Value): Out<Done>
    requires s.Bind? ==> Erasable(s.ty)
    requires !s.IfStmt? && !s.Rollback?
  {
    match s
    case Bind(name, ty, _) =>
      TagAgrees(ty, v);
      var t := Tag(ty, v).value;
      Out(st.(globals := SetDefault(st.globals, name, t)), env[name := t], Ok(Next))
    case Return(_) => Out(st, env, Ok(Returned(v)))
    case Enforce(_) =>
      if Truthy(v) then Out(st, env, Ok(Next)) else Out(Audit(st, EnforceFail), env, Err(EnforceFailed))
    case Anchor(_) => Out(PushAnchor(st, env), env, Ok(Next))
    case Emit(name, _) => Out(Audit(st, SignalEmit(name, v)), env, Ok(Next))
    case ExprStmt(_) => Out(st, env, Ok(Next))
  }

  /** The machine before a statement's last instruction, and the value that instruction works on. */
  ghost predicate Ready(g: Env, vm: VM, st: State, env: Env, v: Value, w: Value, top: VM) {
    top.stack == vm.stack + [w] && Agree(v, w) && Related(g, st, env, top)
  }

  lemma BindFinishes(h: Host, g: Env, full: seq<Constant>, s: Stmt, vm: VM, st: State, env: Env, v: Value, w: Value,
                     top: VM)
    requires s.Bind? && Erasable(s.ty) && Ready(g, vm, st, env, v, w, top)
    ensures ExecutesStmt(g, vm, s, Finish(st, env, s, v), StepVM(h, g, full, LastInstr(s), top))
  {
    OneOnTop(top, vm.stack, w);
    assert [s][1..] == [];
    TagAgrees(s.ty, v);
    StoreRelated(g, st, env, Pop(top, 1), s.name, Tag(s.ty, v).value, w);
  }

  lemma AnchorFinishes(h: Host, g: Env, full: seq<Constant>, s: Stmt, vm: VM, st: State, env: Env, v: Value, w: Value,
                       top: VM)
    requires s.Anchor? && Ready(g, vm, st, env, v, w, top)
    ensures ExecutesStmt(g, vm, s, Finish(st, env, s, v), StepVM(h, g, full, LastInstr(s), top))
  {
    assert [s][1..] == [];
    AnchorRelated(g, st, env, top);
  }

  lemma SentAgreeAppend(a: seq<(string, Value)>, b: seq<(string, Value)>, x: (string, Value), y: (string, Value))
    requires SentAgree(a, b) && x.0 == y.0 && Agree(x.1, y.1)
    ensures SentAgree(a + [x], b + [y])
  {
  }

  lemma EmitFinishes(h: Host, g: Env, full: seq<Constant>, s: Stmt, vm: VM, st: State, env: Env, v: Value, w: Value,
                     top: VM)
    requires s.Emit? && Ready(g, vm, st, env, v, w, top)
    ensures ExecutesStmt(g, vm, s, Finish(st, env, s, v), StepVM(h, g, full, LastInstr(s), top))
  {
    OneOnTop(top, vm.stack, w);
    assert [s][1..] == [];
    SentAppend(st.audit, SignalEmit(s.name, v));
    SentAgreeAppend(Sent(st.audit), top.sent, (s.name, v), (s.name, w));
  }

  lemma OtherFinishes(h: Host, g: Env, full: seq<Constant>, s: Stmt, vm: VM, st: State, env: Env, v: Value, w: Value,
                      top: VM)
    requires s.Return? || s.ExprStmt? || (s.Enforce? && v == w)
    requires Ready(g, vm, st, env, v, w, top)
    ensures ExecutesStmt(g, vm, s, Finish(st, env, s, v), StepVM(h, g, full, LastInstr(s), top))
  {
    OneOnTop(top, vm.stack, w);
    assert [s][1..] == [];
  }

  lemma FinishCorrect(h: Host, g: Env, full: seq<Constant>, s: Stmt, vm: VM, st: State, env: Env, v: Value, w: Value,
                      top: VM)
    requires (s.Bind? ==> Erasable(s.ty)) && (s.Enforce? ==> v == w) && !s.IfStmt? && !s.Rollback?
    requires Ready(g, vm, st, env, v, w, top)
    ensures ExecutesStmt(g, vm, s, Finish(st, env, s, v), StepVM(h, g, full, LastInstr(s), top))
  {
    if s.Bind? { BindFinishes(h, g, full, s, vm, st, env, v, w, top); }
    else if s.Anchor? { AnchorFinishes(h, g, full, s, vm, st, env, v, w, top); }
    else if s.Emit? { EmitFinishes(h, g, full, s, vm, st, env, v, w, top); }
    else { OtherFinishes(h, g, full, s, vm, st, env, v, w, top); }
  }

  lemma StmtCorrect(c: Ctx, fuel: nat, g: Env, st: State, env: Env, vm: VM, s: Stmt, pool: seq<Constant>,
                    full: seq<Constant>)
    requires FragmentStmt(c, s) && Related(g, st, env, vm) && CompileStmt(s, pool).pool <= full
    ensures ExecutesStmt(g, vm, s, ExecStmt(c, fuel, st, env, s), Run(c.host, g, full, CompileStmt(s, pool).instrs, vm))
  {
    var code := CompileExpr(s.expr, pool).instrs;
    ExprCorrect(c, fuel, g, st, env, vm, s.expr, pool, full);
    RunThen(c.host, g, full, code, LastInstr(s), vm);
    var a, o := EvalExpr(c, fuel, st, env, s.expr), Run(c.host, g, full, code, vm);
    if a.res.Ok? {
      FinishCorrect(c.host, g, full, s, vm, a.st, a.env, a.res.value, Top(o.vm, 1), o.vm);
      StmtFinishes(c, fuel, st, env, s);
    }
  }

  lemma StmtFinishes(c: Ctx, fuel: nat, st: State, env: Env, s: Stmt)
    requires FragmentStmt(c, s) && EvalExpr(c, fuel, st, env, s.expr).res.Ok?
    ensures var a := EvalExpr(c, fuel, st, env, s.expr);
            ExecStmt(c, fuel, st, env, s) == Finish(a.st, a.env, s, a.res.value)
  {
    var a := EvalExpr(c, fuel, st, env, s.expr);
    if s.Bind? { TagAgrees(s.ty, a.res.value); }
    if s.Emit? {
      var sent := Audit(a.st, SignalEmit(s.name, a.res.value));
      assert EmitSignal(c, fuel, a.st, a.env, s.name, a.res.value) == Out(sent, a.env, Ok(Next));
    }
  }

  /** Every constant an instruction refers to is in the pool, whatever is compiled afterwards. */
  predicate IndicesValid(code: seq<Instr>, size: nat) {
    forall i | i in code && i.PUSH_CONST? :: i.index < size
  }

  lemma {:induction false} ExprIndices(e: Expr, pool: seq<Constant>)
    ensures IndicesValid(CompileExpr(e, pool).instrs, |CompileExpr(e, pool).pool|)
    decreases e, 1
  {
    match e
    case Member(t, _) => ExprIndices(t, pool);
    case UnOp(_, x) => ExprIndices(x, pool);
    case Pipe(l, _) => ExprIndices(l, pool);
    case Let(_, _, x) => ExprIndices(x, pool);
    case AnchorExpr(x) => ExprIndices(x, pool);
    case EnforceExpr(x) => ExprIndices(x, pool);
    case Assert(x) => ExprIndices(x, pool);
    case Tuple(items) => ExprsIndices(items, pool);
    case Call(_, args) => ExprsIndices(args, pool);
    case BinOp(_, l, r) =>
      ExprIndices(l, pool);
      ExprIndices(r, CompileExpr(l, pool).pool);
    case _ =>
  }

  lemma {:induction false} ExprsIndices(es: seq<Expr>, pool: seq<Constant>)
    ensures IndicesValid(CompileExprs(es, pool).instrs, |CompileExprs(es, pool).pool|)
    decreases es, 0
  {
    if es != [] {
      ExprIndices(es[0], pool);
      ExprsIndices(es[1..], CompileExpr(es[0], pool).pool);
    }
  }

  lemma {:induction false} BlockIndices(stmts: seq<Stmt>, pool: seq<Constant>)
    ensures IndicesValid(CompileBlock(stmts, pool).instrs, |CompileBlock(stmts, pool).pool|)
    decreases |stmts|
  {
    if stmts != [] {
      if !stmts[0].IfStmt? { ExprIndices(stmts[0].expr, pool); }
      BlockIndices(stmts[1..], CompileStmt(stmts[0], pool).pool);
    }
  }

  // ---- why the fragment stops where it does ----

  /** What a test of a tagged value has in common with one of the bare value. */
  predicate TestKept(ty: TypeExpr, v: Value)
    requires Erasable(ty)
  {
    Truthy(Unwrap(v)) || !Wrapped(TaggedAs(ty, v))
  }

  function TaggedAs(ty: TypeExpr, v: Value): Value
    requires Erasable(ty)
  {
    TagAgrees(ty, v);
    Tag(ty, v).value
  }

  lemma TestKeptIff(ty: TypeExpr, v: Value)
    requires Erasable(ty)
    ensures Truthy(TaggedAs(ty, v)) == Truthy(Unwrap(v)) <==> TestKept(ty, v)
  {
    TagAgrees(ty, v);
    UnwrapBare(v);
  }

  /** The code of a `let` leaves the bare value of what it binds. */
  lemma LetLeaves(c: Ctx, fuel: nat, g: Env, st: State, env: Env, vm: VM, e: Expr, pool: seq<Constant>,
                  full: seq<Constant>)
    requires e.Let? && Fragment(c.host, e) && Related(g, st, env, vm) && CompileExpr(e, pool).pool <= full
    ensures var a, o := EvalExpr(c, fuel, st, env, e.expr), Run(c.host, g, full, CompileExpr(e, pool).instrs, vm);
      if a.res.Err? then EvalExpr(c, fuel, st, env, e).res == Err(a.res.error) && o == Faulted(a.res.error)
      else
        && EvalExpr(c, fuel, st, env, e).res == Ok(TaggedAs(e.ty, a.res.value))
        && o.Running? && o.vm.stack == vm.stack + [Unwrap(a.res.value)]
  {
    var code := CompileExpr(e.expr, pool).instrs;
    ExprCorrect(c, fuel, g, st, env, vm, e.expr, pool, full);
    LetRuns(c.host, g, full, code, e.name, vm);
    var a, o := EvalExpr(c, fuel, st, env, e.expr), Run(c.host, g, full, code, vm);
    if a.res.Ok? {
      TagAgrees(e.ty, a.res.value);
      LetStores(g, a.st, a.env, o.vm, vm.stack, e.name, TaggedAs(e.ty, a.res.value));
    }
  }

  /** The value the tree walk gives what a `let` binds, if it gives one, keeps its test under the tag. */
  predicate LetTestKept(c: Ctx, fuel: nat, st: State, env: Env, e: Expr)
    requires e.Let? && Erasable(e.ty)
  {
    var a := EvalExpr(c, fuel, st, env, e.expr);
    a.res.Ok? ==> TestKept(e.ty, a.res.value)
  }

  /** Under `!` the code of a `let` agrees with the tree walk exactly when the bound value is truthy or gets no tag. */
  lemma NotLetIff(c: Ctx, fuel: nat, g: Env, st: State, env: Env, vm: VM, e: Expr, pool: seq<Constant>,
                  full: seq<Constant>)
    requires e.Let? && Fragment(c.host, e) && Related(g, st, env, vm) && CompileExpr(e, pool).pool <= full
    ensures Computes(g, vm, EvalExpr(c, fuel, st, env, UnOp(Not, e)),
                     Run(c.host, g, full, CompileExpr(UnOp(Not, e), pool).instrs, vm), true)
            <==> LetTestKept(c, fuel, st, env, e)
  {
    var code := CompileExpr(e, pool).instrs;
    LetCorrect(c, fuel, g, st, env, vm, e, pool, full);
    LetLeaves(c, fuel, g, st, env, vm, e, pool, full);
    RunThen(c.host, g, full, code, UNOP(Not), vm);
    var a, o := EvalExpr(c, fuel, st, env, e.expr), Run(c.host, g, full, code, vm);
    if a.res.Ok? {
      TestKeptIff(e.ty, a.res.value);
      var r := EvalExpr(c, fuel, st, env, e);
      NotAgreesIff(c.host, g, full, vm, r, o.vm, Unwrap(a.res.value));
      assert EvalExpr(c, fuel, st, env, UnOp(Not, e)) == Out(r.st, r.env, Ok(VBool(!Truthy(r.res.value))));
    }
  }

  lemma NotAgreesIff(h: Host, g: Env, full: seq<Constant>, vm: VM, r: Out<Value>, top: VM, w: Value)
    requires r.res.Ok? && top.stack == vm.stack + [w] && Related(g, r.st, r.env, top)
    ensures Computes(g, vm, Out(r.st, r.env, Ok(VBool(!Truthy(r.res.value)))), StepVM(h, g, full, UNOP(Not), top), true)
            <==> Truthy(r.res.value) == Truthy(w)
  {
    OneOnTop(top, vm.stack, w);
    var b := VBool(!Truthy(w));
    assert StepVM(h, g, full, UNOP(Not), top) == Running(Pop(top, 1).(stack := vm.stack + [b]));
  }

  /** Under `enforce` and `assert`, too. */
  lemma CheckLetIff(c: Ctx, fuel: nat, g: Env, st: State, env: Env, vm: VM, e: Expr, check: Expr, pool: seq<Constant>,
                    full: seq<Constant>)
    requires e.Let? && (check == EnforceExpr(e) || check == Assert(e))
    requires Fragment(c.host, e) && Related(g, st, env, vm) && CompileExpr(e, pool).pool <= full
    ensures Computes(g, vm, EvalExpr(c, fuel, st, env, check),
        Run(c.host, g, full, CompileExpr(check, pool).instrs, vm), false)
            <==> LetTestKept(c, fuel, st, env, e)
  {
    var code := CompileExpr(e, pool).instrs;
    LetCorrect(c, fuel, g, st, env, vm, e, pool, full);
    LetLeaves(c, fuel, g, st, env, vm, e, pool, full);
    RunThen(c.host, g, full, code, ENFORCE, vm);
    assert CompileExpr(check, pool).instrs == code + [ENFORCE];
    assert EvalExpr(c, fuel, st, env, check) == EvalCheck(c, fuel, st, env, e);
    var a, o := EvalExpr(c, fuel, st, env, e.expr), Run(c.host, g, full, code, vm);
    if a.res.Ok? {
      TestKeptIff(e.ty, a.res.value);
      CheckAgreesIff(c.host, g, full, vm, EvalExpr(c, fuel, st, env, e), o.vm, Unwrap(a.res.value));
    }
  }

  lemma CheckAgreesIff(h: Host, g: Env, full: seq<Constant>, vm: VM, r: Out<Value>, top: VM, w: Value)
    requires r.res.Ok? && Agree(r.res.value, w) && top.stack == vm.stack + [w] && Related(g, r.st, r.env, top)
    ensures Computes(g, vm, Out(r.st, r.env, if Truthy(r.res.value) then r.res else Err(EnforceFailed)),
                     StepVM(h, g, full, ENFORCE, top), false)
            <==> Truthy(r.res.value) == Truthy(w)
  {
    OneOnTop(top, vm.stack, w);
  }

  /** And in an `enforce` statement. */
  lemma EnforceLetIff(c: Ctx, fuel: nat, g: Env, st: State, env: Env, vm: VM, e: Expr, pool: seq<Constant>,
                      full: seq<Constant>)
    requires e.Let? && Fragment(c.host, e) && Related(g, st, env, vm) && CompileExpr(e, pool).pool <= full
    ensures ExecutesStmt(g, vm, Enforce(e), ExecStmt(c, fuel, st, env, Enforce(e)),
                         Run(c.host, g, full, CompileStmt(Enforce(e), pool).instrs, vm))
            <==> LetTestKept(c, fuel, st, env, e)
  {
    var code := CompileExpr(e, pool).instrs;
    LetCorrect(c, fuel, g, st, env, vm, e, pool, full);
    LetLeaves(c, fuel, g, st, env, vm, e, pool, full);
    RunThen(c.host, g, full, code, ENFORCE, vm);
    var a, o := EvalExpr(c, fuel, st, env, e.expr), Run(c.host, g, full, code, vm);
    if a.res.Ok? {
      TestKeptIff(e.ty, a.res.value);
      EnforceAgreesIff(c.host, g, full, vm, Enforce(e), EvalExpr(c, fuel, st, env, e), o.vm, Unwrap(a.res.value));
    }
  }

  lemma EnforceAgreesIff(h: Host, g: Env, full: seq<Constant>, vm: VM, s: Stmt, r: Out<Value>, top: VM, w: Value)
    requires s.Enforce? && r.res.Ok? && top.stack == vm.stack + [w] && Related(g, r.st, r.env, top)
    ensures ExecutesStmt(g, vm, s, Finish(r.st, r.env, s, r.res.value), StepVM(h, g, full, ENFORCE, top))
            <==> Truthy(r.res.value) == Truthy(w)
  {
    OneOnTop(top, vm.stack, w);
    assert [s][1..] == [];
    assert Leftovers([s]) == 1;
    assert StepVM(h, g, full, ENFORCE, top) == if Truthy(w) then Running(top) else Faulted(EnforceFailed);
  }

  // ---- an input on which they differ ----

  const TAGGED := Let("x", GenericType("Lawful", [BaseType(Builtin(BoolType))]), Lit(CBool(false)))

  /** What the compiled expression leaves on the stack. */
  ghost predicate CodeGives(h: Host, g: Env, env: Env, e: Expr, v: Value) {
    var code := CompileExpr(e, []);
    var o := Run(h, g, code.pool, code.instrs, VM([], env, [], [], 0));
    o.Running? && o.vm.stack == [v]
  }

  /** The condition fails for `let x: Lawful<bool> = false`: its negation is False in the interpreter, since the tag
      object is truthy ... */
  lemma TaggedValue(c: Ctx, fuel: nat, st: State, env: Env)
    ensures Erasable(TAGGED.ty) && !LetTestKept(c, fuel, st, env, TAGGED)
    ensures EvalExpr(c, fuel, st, env, UnOp(Not, TAGGED)).res == Ok(VBool(false))
  {
    assert EvalExpr(c, fuel, st, env, TAGGED.expr).res == Ok(VBool(false));
    assert EvalExpr(c, fuel, st, env, TAGGED).res == Ok(VLawful(VBool(false), "bool"));
  }

  /** ... and True in the compiled code, which never tags. */
  lemma TaggedCode(h: Host, g: Env, env: Env)
    ensures CodeGives(h, g, env, UnOp(Not, TAGGED), VBool(true))
  {
    var c, st := Ctx(h, map[], [], map[]), State(g, [], [], EofKind, 0, [], []);
    NegatedLet(c, g, st, env, TAGGED, CompileExpr(TAGGED, []));
  }

  lemma NegatedLet(c: Ctx, g: Env, st: State, env: Env, e: Expr, code: Code)
    requires e.Let? && Fragment(c.host, e) && e.expr == Lit(CBool(false)) && code == CompileExpr(e, [])
    requires st == State(g, [], [], EofKind, 0, [], [])
    ensures CodeGives(c.host, g, env, UnOp(Not, e), VBool(true))
  {
    StartRelated(g, st, env);
    LetLeaves(c, 0, g, st, env, VM([], env, [], [], 0), e, [], code.pool);
    NegatedFalse(c.host, g, env, e, code);
  }

  lemma StartRelated(g: Env, st: State, env: Env)
    requires st == State(g, [], [], EofKind, 0, [], [])
    ensures Related(g, st, env, VM([], env, [], [], 0))
  {
  }

  lemma NegatedFalse(h: Host, g: Env, env: Env, e: Expr, code: Code)
    requires code == CompileExpr(e, [])
    requires var o := Run(h, g, code.pool, code.instrs, VM([], env, [], [], 0));
        o.Running? && o.vm.stack == [VBool(false)]
    ensures CodeGives(h, g, env, UnOp(Not, e), VBool(true))
  {
    var vm := VM([], env, [], [], 0);
    RunThen(h, g, code.pool, code.instrs, UNOP(Not), vm);
    NotFalse(h, g, code.pool, Run(h, g, code.pool, code.instrs, vm).vm);
  }

  lemma NotFalse(h: Host, g: Env, pool: seq<Constant>, vm: VM)
    requires vm.stack == [VBool(false)]
    ensures StepVM(h, g, pool, UNOP(Not), vm) == Running(vm.(stack := [VBool(true)]))
  {
  }

  /** `trust x` compiles to a plain load.  The two give corresponding values exactly when the name is
      bound and, if its local value is falsy, the globals hold a corresponding value for it. */
  lemma TrustRefAgreesIff(h: Host, st: State, env: Env, name: string)
    ensures var loaded := Lookup(h, st.globals, env, name);
            (loaded.Ok? && Agree(TrustLookup(st.globals, env, name), loaded.value)) <==>
              (if name in env then
                 Truthy(env[name]) || Agree(env[name], if name in st.globals then st.globals[name] else VNone)
               else name in st.globals)
  {
    if name in env { UnwrapTwice(env[name]); }
    else if name in st.globals { UnwrapTwice(st.globals[name]); }
  }
}
