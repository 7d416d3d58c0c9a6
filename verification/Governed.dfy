/** What the constitution guarantees over whole runs when its expressions are effect-free:
    no executed statement leaves an invariant broken unless the run stops right there, and a run
    stopped that way has its globals put back to the last anchor. */
module Governed {
  import opened Ast
  import opened Semantics
  import opened EffectFree
  import RunLaws

  /** The state recorded after a statement breaks no clause. */
  predicate PointHolds(c: Ctx, s: Step)
    requires EffectFreeConstitution(c)
  {
    s.Point? ==> !AnyBroken(c.host, s.globals, s.env, c.clauses)
  }

  /** How a violation leaves things: the last executed statement broke a clause, and the globals are
      those after it, overwritten by the last anchor if there is one. */
  predicate Stopped(c: Ctx, a: State, b: State)
    requires EffectFreeConstitution(c)
  {
    && |a.trace| < |b.trace|
    && var p := b.trace[|b.trace| - 1];
    && p.Point? && !PointHolds(c, p)
    && b.globals == if b.anchors == [] then p.globals else p.globals + b.anchors[|b.anchors| - 1]
  }

  /** From `a` to `b`, ending normally or by an exception, or by an invariant violation. */
  predicate Governed<T>(c: Ctx, a: State, b: State, res: Result<T>)
    requires EffectFreeConstitution(c)
  {
    && a.trace <= b.trace
    && (forall k | |a.trace| <= k < |b.trace| - (if res.Ok? then 0 else 1) :: PointHolds(c, b.trace[k]))
    && (res.Err? && res.error == InvariantViolated ==> Stopped(c, a, b))
  }

  lemma Then<T, U>(c: Ctx, a: State, b: State, ok: Result<T>, d: State, res: Result<U>)
    requires EffectFreeConstitution(c) && ok.Ok? && Governed(c, a, b, ok) && Governed(c, b, d, res)
    ensures Governed(c, a, d, res)
  {
    forall k | |a.trace| <= k < |d.trace| - (if res.Ok? then 0 else 1)
      ensures PointHolds(c, d.trace[k])
    {
      if k < |b.trace| { assert d.trace[k] == b.trace[k]; }
    }
  }

  /** A statement's mark and the round of checks after it. */
  lemma CheckedStatement(c: Ctx, fuel: nat, st: State, env: Env)
    requires EffectFreeConstitution(c)
    ensures var r := CheckAll(c, fuel, Mark(st, env), env); Governed(c, st, r.st, r.res)
  {
    var marked := Mark(st, env);
    var point := Point(env, st.globals, st.authority, st.active);
    assert marked.trace[|st.trace|] == point;
    if c.clauses == [] {
      assert !AnyBroken(c.host, st.globals, env, c.clauses);
    } else if fuel > 0 {
      ChecksOnlyLook(c, fuel - 1, marked, env, c.clauses);
    }
  }

  // ---- the interpreter, by induction on its own recursion ----

  lemma {:induction false} ExprGoverned(c: Ctx, fuel: nat, st: State, env: Env, e: Expr)
    requires EffectFreeConstitution(c)
    ensures var r := EvalExpr(c, fuel, st, env, e); Governed(c, st, r.st, r.res)
    decreases fuel, 1, e, 2
  {
    match e
    case Lit(_) =>
    case Ident(_) =>
    case TrustRef(_) =>
    case ScopeResolve(_, _) =>
    case Member(_, _) => PartGoverned(c, fuel, st, env, e);
    case UnOp(_, _) => PartGoverned(c, fuel, st, env, e);
    case Let(_, _, _) => PartGoverned(c, fuel, st, env, e);
    case EnforceExpr(_) => PartGoverned(c, fuel, st, env, e);
    case Assert(_) => PartGoverned(c, fuel, st, env, e);
    case AnchorExpr(_) => PartGoverned(c, fuel, st, env, e);
    case BinOp(_, _, _) => BinOpGoverned(c, fuel, st, env, e);
    case Tuple(items) => ListGoverned(c, fuel, st, env, items);
    case Record(_, fields) => FieldsGoverned(c, fuel, st, env, fields);
    case Call(_, _) => CallExprGoverned(c, fuel, st, env, e);
    case Pipe(_, _) => PipeGoverned(c, fuel, st, env, e);
    case If(_, _, _) => IfGoverned(c, fuel, st, env, e);
    case Match(_, _) => MatchGoverned(c, fuel, st, env, e);
  }

  /** The forms with a single operand. */
  lemma {:induction false} PartGoverned(c: Ctx, fuel: nat, st: State, env: Env, e: Expr)
    requires e.Member? || e.UnOp? || e.Let? || e.EnforceExpr? || e.Assert? || e.AnchorExpr?
    requires EffectFreeConstitution(c)
    ensures var r := EvalExpr(c, fuel, st, env, e); Governed(c, st, r.st, r.res)
    decreases fuel, 1, e, 1
  {
    ExprGoverned(c, fuel, st, env, if e.Member? then e.target else if e.UnOp? then e.operand else e.expr);
  }

  lemma {:induction false} BinOpGoverned(c: Ctx, fuel: nat, st: State, env: Env, e: Expr)
    requires e.BinOp?
    requires EffectFreeConstitution(c)
    ensures var r := EvalExpr(c, fuel, st, env, e); Governed(c, st, r.st, r.res)
    decreases fuel, 1, e, 1
  {
    ExprGoverned(c, fuel, st, env, e.left);
    var a := EvalExpr(c, fuel, st, env, e.left);
    ExprGoverned(c, fuel, a.st, a.env, e.right);
    if a.res.Ok? {
      var next := EvalExpr(c, fuel, a.st, a.env, e.right);
      Then(c, st, a.st, a.res, next.st, next.res);
    }
  }

  lemma {:induction false} CallExprGoverned(c: Ctx, fuel: nat, st: State, env: Env, e: Expr)
    requires e.Call?
    requires EffectFreeConstitution(c)
    ensures var r := EvalExpr(c, fuel, st, env, e); Governed(c, st, r.st, r.res)
    decreases fuel, 1, e, 1
  {
    ListGoverned(c, fuel, st, env, e.args);
    var a := EvalList(c, fuel, st, env, e.args);
    if a.res.Ok? {
      InvokeGoverned(c, fuel, a.st, a.env, e.target, a.res.value);
      var next := Invoke(c, fuel, a.st, a.env, e.target, a.res.value);
      Then(c, st, a.st, a.res, next.st, next.res);
    }
  }

  lemma {:induction false} PipeGoverned(c: Ctx, fuel: nat, st: State, env: Env, e: Expr)
    requires e.Pipe?
    requires EffectFreeConstitution(c)
    ensures var r := EvalExpr(c, fuel, st, env, e); Governed(c, st, r.st, r.res)
    decreases fuel, 1, e, 1
  {
    ExprGoverned(c, fuel, st, env, e.left);
    var a := EvalExpr(c, fuel, st, env, e.left);
    if a.res.Ok? {
      InvokeGoverned(c, fuel, a.st, a.env, e.right, [a.res.value]);
      var next := Invoke(c, fuel, a.st, a.env, e.right, [a.res.value]);
      Then(c, st, a.st, a.res, next.st, next.res);
    }
  }

  lemma {:induction false} MatchGoverned(c: Ctx, fuel: nat, st: State, env: Env, e: Expr)
    requires e.Match?
    requires EffectFreeConstitution(c)
    ensures var r := EvalExpr(c, fuel, st, env, e); Governed(c, st, r.st, r.res)
    decreases fuel, 1, e, 1
  {
    ExprGoverned(c, fuel, st, env, e.subject);
    var a := EvalExpr(c, fuel, st, env, e.subject);
    if a.res.Ok? {
      ArmsGoverned(c, fuel, a.st, a.env, a.res.value, e.arms);
      var next := EvalArms(c, fuel, a.st, a.env, a.res.value, e.arms);
      Then(c, st, a.st, a.res, next.st, next.res);
    }
  }

  lemma {:induction false} IfGoverned(c: Ctx, fuel: nat, st: State, env: Env, e: Expr)
    requires e.If?
    requires EffectFreeConstitution(c)
    ensures var r := EvalExpr(c, fuel, st, env, e); Governed(c, st, r.st, r.res)
    decreases fuel, 1, e, 1
  {
    ExprGoverned(c, fuel, st, env, e.cond);
    var a := EvalExpr(c, fuel, st, env, e.cond);
    if a.res.Ok? && Truthy(a.res.value) {
      BlockGoverned(c, fuel, a.st, a.env, e.thenB);
      var next := ExecBlock(c, fuel, a.st, a.env, e.thenB);
      Then(c, st, a.st, a.res, next.st, next.res);
    } else if a.res.Ok? && e.elseB.Else? {
      BlockGoverned(c, fuel, a.st, a.env, e.elseB.block);
      var next := ExecBlock(c, fuel, a.st, a.env, e.elseB.block);
      Then(c, st, a.st, a.res, next.st, next.res);
    }
  }

  lemma {:induction false} ArmsGoverned(c: Ctx, fuel: nat, st: State, env: Env, v: Value, arms: seq<Arm>)
    requires EffectFreeConstitution(c)
    ensures var r := EvalArms(c, fuel, st, env, v, arms); Governed(c, st, r.st, r.res)
    decreases fuel, 1, arms, 1
  {
    if arms != [] {
      if Matches(c.host, arms[0].pat, v) { ArmGoverned(c, fuel, st, env, v, arms[0]); }
      else { ArmsGoverned(c, fuel, st, env, v, arms[1..]); }
    }
  }

  lemma {:induction false} ArmGoverned(c: Ctx, fuel: nat, st: State, env: Env, v: Value, arm: Arm)
    requires EffectFreeConstitution(c)
    ensures var r := EvalArm(c, fuel, st, env, v, arm); Governed(c, st, r.st, r.res)
    decreases fuel, 1, arm, 3
  {
    ExprGoverned(c, fuel, st, if arm.pat.BindPat? then env[arm.pat.name := v] else env, arm.result);
  }

  lemma {:induction false} ListGoverned(c: Ctx, fuel: nat, st: State, env: Env, es: seq<Expr>)
    requires EffectFreeConstitution(c)
    ensures var r := EvalList(c, fuel, st, env, es); Governed(c, st, r.st, r.res)
    decreases fuel, 1, es, 1
  {
    if es != [] {
      ExprGoverned(c, fuel, st, env, es[0]);
      var a := EvalExpr(c, fuel, st, env, es[0]);
      ListGoverned(c, fuel, a.st, a.env, es[1..]);
      if a.res.Ok? {
        var next := EvalList(c, fuel, a.st, a.env, es[1..]);
        Then(c, st, a.st, a.res, next.st, next.res);
      }
    }
  }

  lemma {:induction false} FieldsGoverned(c: Ctx, fuel: nat, st: State, env: Env, fs: seq<Field>)
    requires EffectFreeConstitution(c)
    ensures var r := EvalFields(c, fuel, st, env, fs); Governed(c, st, r.st, r.res)
    decreases fuel, 1, fs, 1
  {
    if fs != [] {
      FieldGoverned(c, fuel, st, env, fs[0]);
      var a := EvalField(c, fuel, st, env, fs[0]);
      FieldsGoverned(c, fuel, a.st, a.env, fs[1..]);
      if a.res.Ok? {
        var next := EvalFields(c, fuel, a.st, a.env, fs[1..]);
        Then(c, st, a.st, a.res, next.st, next.res);
      }
    }
  }

  lemma {:induction false} FieldGoverned(c: Ctx, fuel: nat, st: State, env: Env, f: Field)
    requires EffectFreeConstitution(c)
    ensures var r := EvalField(c, fuel, st, env, f); Governed(c, st, r.st, r.res)
    decreases fuel, 1, f, 3
  {
    ExprGoverned(c, fuel, st, env, f.value);
  }

  lemma {:induction false} InvokeGoverned(c: Ctx, fuel: nat, st: State, env: Env, target: Expr, args: seq<Value>)
    requires EffectFreeConstitution(c)
    ensures var r := Invoke(c, fuel, st, env, target, args); Governed(c, st, r.st, r.res)
    decreases fuel, 0, 4
  {
    match target
    case Ident(name) =>
      if name in c.host.library { LibraryCallGoverned(c, fuel, st, env, name, args); }
      else if name in c.functions { FunctionGoverned(c, fuel, st, env, name, args); }
    case ScopeResolve(t, name) =>
      if NodeName(t).Some? { FunctionGoverned(c, fuel, st, env, NodeName(t).value + "::" + name, args); }
    case _ =>
  }

  lemma {:induction false} LibraryCallGoverned(c: Ctx, fuel: nat, st: State, env: Env, name: string, args: seq<Value>)
    requires EffectFreeConstitution(c)
    ensures var r := CallLibrary(c, fuel, st, env, name, args); Governed(c, st, r.st, r.res)
    decreases fuel, 0, 3
  {
    if name == "rollback" {
    } else if name == "map" || name == "filter" {
      if |args| == 2 && args[0].VSignal? && RunLaws.IsFnRef(args[1]) {
        FunctionGoverned(c, fuel, st, env, args[1].items[1].s, [args[0].inner]);
      }
    }
  }

  lemma {:induction false} FunctionGoverned(c: Ctx, fuel: nat, st: State, env: Env, name: string, args: seq<Value>)
    requires EffectFreeConstitution(c)
    ensures var r := RunFunction(c, fuel, st, env, name, args); Governed(c, st, r.st, r.res)
    decreases fuel, 0, 1
  {
    if fuel > 0 && name in c.functions {
      var fn := c.functions[name];
      var inside := EnterFunction(st, name, fn.authority);
      var local := BindParams(st.globals, fn.params, args);
      BlockGoverned(c, fuel - 1, inside, local, fn.body);
      var r := ExecBlock(c, fuel - 1, inside, local, fn.body);
      Then(c, st, inside, Ok(()), r.st, r.res);
    }
  }

  lemma {:induction false} BlockGoverned(c: Ctx, fuel: nat, st: State, env: Env, stmts: seq<Stmt>)
    requires EffectFreeConstitution(c)
    ensures var r := ExecBlock(c, fuel, st, env, stmts); Governed(c, st, r.st, r.res)
    decreases fuel, 1, stmts, 1
  {
    if stmts != [] {
      StmtGoverned(c, fuel, st, env, stmts[0]);
      var a := ExecStmt(c, fuel, st, env, stmts[0]);
      if a.res.Ok? {
        CheckedStatement(c, fuel, a.st, a.env);
        var b := CheckAll(c, fuel, Mark(a.st, a.env), a.env);
        Then(c, st, a.st, a.res, b.st, b.res);
        if b.res.Ok? && a.res.value.Next? {
          BlockGoverned(c, fuel, b.st, b.env, stmts[1..]);
          var next := ExecBlock(c, fuel, b.st, b.env, stmts[1..]);
          Then(c, st, b.st, b.res, next.st, next.res);
        }
      }
    }
  }

  lemma {:induction false} StmtGoverned(c: Ctx, fuel: nat, st: State, env: Env, s: Stmt)
    requires EffectFreeConstitution(c)
    ensures var r := ExecStmt(c, fuel, st, env, s); Governed(c, st, r.st, r.res)
    decreases fuel, 1, s, 4
  {
    match s
    case Rollback(_) =>
    case IfStmt(_, _, _) => IfStmtGoverned(c, fuel, st, env, s);
    case Enforce(x) => ExprGoverned(c, fuel, st, env, x);
    case Emit(_, _) => EmitStmtGoverned(c, fuel, st, env, s);
    case Bind(_, _, x) => ExprGoverned(c, fuel, st, env, x);
    case Return(x) => ExprGoverned(c, fuel, st, env, x);
    case Anchor(x) => ExprGoverned(c, fuel, st, env, x);
    case ExprStmt(x) => ExprGoverned(c, fuel, st, env, x);
  }

  lemma {:induction false} EmitStmtGoverned(c: Ctx, fuel: nat, st: State, env: Env, s: Stmt)
    requires s.Emit?
    requires EffectFreeConstitution(c)
    ensures var r := ExecStmt(c, fuel, st, env, s); Governed(c, st, r.st, r.res)
    decreases fuel, 1, s, 3
  {
    ExprGoverned(c, fuel, st, env, s.expr);
    var a := EvalExpr(c, fuel, st, env, s.expr);
    if a.res.Ok? {
      EmitGoverned(c, fuel, a.st, a.env, s.name, a.res.value);
      var next := EmitSignal(c, fuel, a.st, a.env, s.name, a.res.value);
      Then(c, st, a.st, a.res, next.st, next.res);
    }
  }

  lemma {:induction false} IfStmtGoverned(c: Ctx, fuel: nat, st: State, env: Env, s: Stmt)
    requires s.IfStmt?
    requires EffectFreeConstitution(c)
    ensures var r := ExecStmt(c, fuel, st, env, s); Governed(c, st, r.st, r.res)
    decreases fuel, 1, s, 3
  {
    ExprGoverned(c, fuel, st, env, s.cond);
    var a := EvalExpr(c, fuel, st, env, s.cond);
    if a.res.Ok? && Truthy(a.res.value) {
      BlockGoverned(c, fuel, a.st, a.env, s.thenB);
      var next := ExecBlock(c, fuel, a.st, a.env, s.thenB);
      Then(c, st, a.st, a.res, next.st, next.res);
    } else if a.res.Ok? && s.elseB.Else? {
      BlockGoverned(c, fuel, a.st, a.env, s.elseB.block);
      var next := ExecBlock(c, fuel, a.st, a.env, s.elseB.block);
      Then(c, st, a.st, a.res, next.st, next.res);
    }
  }

  lemma {:induction false} EmitGoverned(c: Ctx, fuel: nat, st: State, env: Env, name: string, v: Value)
    requires EffectFreeConstitution(c)
    ensures var r := EmitSignal(c, fuel, st, env, name, v); Governed(c, st, r.st, r.res)
    decreases fuel, 0, 1
  {
    var st1 := Audit(st, SignalEmit(name, v));
    var obs := if name in c.observers then c.observers[name] else [];
    DeliverGoverned(c, fuel, st1, env, name, v, obs);
    var next := Deliver(c, fuel, st1, env, name, v, obs);
    Then(c, st, st1, Ok(()), next.st, next.res);
  }

  lemma {:induction false} DeliverGoverned(c: Ctx, fuel: nat, st: State, env: Env, name: string, v: Value,
                                           obs: seq<Observer>)
    requires EffectFreeConstitution(c)
    ensures var r := Deliver(c, fuel, st, env, name, v, obs); Governed(c, st, r.st, r.res)
    decreases fuel, 0, 0, |obs|
  {
    if obs != [] && fuel > 0 {
      var o := obs[0];
      var st1 := Audit(st, SignalDeliver(name, o.binding));
      BlockGoverned(c, fuel - 1, st1, st.globals[o.binding := v], o.body);
      var r := ExecBlock(c, fuel - 1, st1, st.globals[o.binding := v], o.body);
      Then(c, st, st1, Ok(()), r.st, r.res);
      if r.res.Ok? {
        DeliverGoverned(c, fuel, r.st, env, name, v, obs[1..]);
        var next := Deliver(c, fuel, r.st, env, name, v, obs[1..]);
        Then(c, st, r.st, r.res, next.st, next.res);
      }
    }
  }

  // ---- the theorems ----

  /** Invariant safety: in a run that ends normally, after every statement executed at any nesting of
      calls, branches and observers, no always clause was False and no never clause True. */
  lemma InvariantSafety(c: Ctx, fuel: nat, st: State, env: Env, name: string, args: seq<Value>)
    requires EffectFreeConstitution(c)
    ensures var r := RunFunction(c, fuel, st, env, name, args);
      && st.trace <= r.st.trace
      && (r.res.Ok? ==> forall k | |st.trace| <= k < |r.st.trace| && r.st.trace[k].Point? ::
            var p := r.st.trace[k]; forall clause | clause in c.clauses :: !Broken(c.host, p.globals, p.env, clause))
      && (r.res.Err? ==> forall k | |st.trace| <= k < |r.st.trace| - 1 && r.st.trace[k].Point? ::
            var p := r.st.trace[k]; forall clause | clause in c.clauses :: !Broken(c.host, p.globals, p.env, clause))
  {
    FunctionGoverned(c, fuel, st, env, name, args);
    var r := RunFunction(c, fuel, st, env, name, args);
    forall k | |st.trace| <= k < |r.st.trace| - (if r.res.Ok? then 0 else 1) && r.st.trace[k].Point?
      ensures var p := r.st.trace[k]; forall clause | clause in c.clauses :: !Broken(c.host, p.globals, p.env, clause)
    {
      assert PointHolds(c, r.st.trace[k]);
    }
  }

  /** Governed rollback: a run ended by an always/never violation was stopped right after a statement
      that broke a clause, and leaves every name in the last anchor at its anchored value and every
      other global as that statement left it; without an anchor no global is touched. */
  lemma GovernedRollback(c: Ctx, fuel: nat, st: State, env: Env, name: string, args: seq<Value>)
    requires EffectFreeConstitution(c)
    requires RunFunction(c, fuel, st, env, name, args).res == Err(InvariantViolated)
    ensures var b := RunFunction(c, fuel, st, env, name, args).st;
      && |st.trace| < |b.trace|
      && var p := b.trace[|b.trace| - 1];
      && p.Point?
      && (exists clause | clause in c.clauses :: Broken(c.host, p.globals, p.env, clause))
      && (b.anchors == [] ==> b.globals == p.globals)
      && (b.anchors != [] ==>
            var last := b.anchors[|b.anchors| - 1];
            && (forall n | n in last :: n in b.globals && b.globals[n] == last[n])
            && (forall n | n !in last ::
                  ((n in b.globals <==> n in p.globals) && (n in p.globals ==> b.globals[n] == p.globals[n]))))
  {
    FunctionGoverned(c, fuel, st, env, name, args);
  }
}
