/** The interpreter object: fields updated in place, a mutable local environment, Python's loops and
    its try/finally, proved to do exactly what the semantics says. */
module InterpreterObject {
  import opened Ast
  import opened Semantics

  /** A local environment; a call, an observer, a branch or a match arm gets a copy. */
  class LocalEnv {
    var vars: Env

    constructor (initial: Env)
      ensures vars == initial
    {
      vars := initial;
    }
  }

  class Interpreter {
    const c: Ctx
    var globals: Env
    var anchors: seq<Env>
    var audit: seq<Event>
    var authority: Kind
    // stands for what the library keeps between calls
    var calls: nat
    ghost var active: seq<string>
    ghost var trace: seq<Step>

    constructor (loaded: Ctx, initial: Env)
      ensures c == loaded && Now() == State(initial, [], [], SymKind(LevelKw(Lawful)), 0, [], [])
    {
      c := loaded;
      globals, anchors, audit := initial, [], [];
      authority := SymKind(LevelKw(Lawful));
      calls := 0;
      active, trace := [], [];
    }

    ghost function Now(): State
      reads this
    {
      State(globals, anchors, audit, authority, calls, active, trace)
    }

    /** State, environment and result are those of the semantics. */
    ghost predicate Did<T>(o: Out<T>, env: LocalEnv, r: Result<T>)
      reads this, env
    {
      Now() == o.st && env.vars == o.env && r == o.res
    }

    method RollbackToLastAnchor()
      modifies this
      ensures Now() == Semantics.RollbackToLastAnchor(old(Now()))
    {
      if anchors != [] {
        globals := globals + anchors[|anchors| - 1];
      }
      audit := audit + [RolledBack];
    }

    // ---- expressions ----

    method EvalExpr(fuel: nat, env: LocalEnv, e: Expr) returns (r: Result<Value>)
      modifies this, env
      ensures Did(Semantics.EvalExpr(c, fuel, old(Now()), old(env.vars), e), env, r)
      decreases fuel, 1, e, 2
    {
      match e {
        case Lit(k) => return Ok(ConstantValue(k));
        case Ident(name) => return Lookup(c.host, globals, env.vars, name);
        case TrustRef(name) => return Ok(TrustLookup(globals, env.vars, name));
        case ScopeResolve(_, _) => return Ok(FnRef(Qualified(e)));
        case Member(t, f) =>
          var v :- EvalExpr(fuel, env, t);
          return Ok(GetField(c.host, v, f));
        case BinOp(_, _, _) => r := EvalOperator(fuel, env, e);
        case UnOp(_, _) => r := EvalOperator(fuel, env, e);
        case Tuple(_) => r := EvalItems(fuel, env, e);
        case Record(_, _) => r := EvalItems(fuel, env, e);
        case Call(_, _) => r := EvalCall(fuel, env, e);
        case Pipe(_, _) => r := EvalCall(fuel, env, e);
        case If(_, _, _) => r := EvalIf(fuel, env, e);
        case Match(subject, arms) =>
          var v :- EvalExpr(fuel, env, subject);
          r := EvalArms(fuel, env, v, arms);
        case Let(_, _, _) => r := EvalLet(fuel, env, e);
        case AnchorExpr(x) =>
          var v :- EvalExpr(fuel, env, x);
          anchors := anchors + [env.vars];
          return Ok(v);
        case EnforceExpr(x) => r := EvalCheck(fuel, env, x);
        case Assert(x) => r := EvalCheck(fuel, env, x);
      }
    }

    /** Both operands are evaluated, whatever the operator. */
    method EvalOperator(fuel: nat, env: LocalEnv, e: Expr) returns (r: Result<Value>)
      requires e.BinOp? || e.UnOp?
      modifies this, env
      ensures Did(Semantics.EvalExpr(c, fuel, old(Now()), old(env.vars), e), env, r)
      decreases fuel, 1, e, 1
    {
      if e.UnOp? {
        var v :- EvalExpr(fuel, env, e.operand);
        return Unop(c.host, e.uop, v);
      }
      var a :- EvalExpr(fuel, env, e.left);
      var b :- EvalExpr(fuel, env, e.right);
      return Binop(c.host, e.op, a, b);
    }

    method EvalItems(fuel: nat, env: LocalEnv, e: Expr) returns (r: Result<Value>)
      requires e.Tuple? || e.Record?
      modifies this, env
      ensures Did(Semantics.EvalExpr(c, fuel, old(Now()), old(env.vars), e), env, r)
      decreases fuel, 1, e, 1
    {
      if e.Tuple? {
        var vs :- EvalList(fuel, env, e.items);
        return Ok(VTuple(vs));
      }
      var slots :- EvalFields(fuel, env, e.fields);
      return Ok(VRecord(e.typeName, slots));
    }

    method EvalCall(fuel: nat, env: LocalEnv, e: Expr) returns (r: Result<Value>)
      requires e.Call? || e.Pipe?
      modifies this, env
      ensures Did(Semantics.EvalExpr(c, fuel, old(Now()), old(env.vars), e), env, r)
      decreases fuel, 1, e, 1
    {
      if e.Call? {
        var vs :- EvalList(fuel, env, e.args);
        r := InvokeTarget(fuel, env, e.target, vs);
      } else {
        var v :- EvalExpr(fuel, env, e.left);
        r := InvokeTarget(fuel, env, e.right, [v]);
      }
    }

    method EvalLet(fuel: nat, env: LocalEnv, e: Expr) returns (r: Result<Value>)
      requires e.Let?
      modifies this, env
      ensures Did(Semantics.EvalExpr(c, fuel, old(Now()), old(env.vars), e), env, r)
      decreases fuel, 1, e, 1
    {
      var v :- EvalExpr(fuel, env, e.expr);
      var t :- Tag(e.ty, v);
      env.vars := env.vars[e.name := t];
      return Ok(t);
    }

    method EvalCheck(fuel: nat, env: LocalEnv, x: Expr) returns (r: Result<Value>)
      modifies this, env
      ensures Did(Semantics.EvalCheck(c, fuel, old(Now()), old(env.vars), x), env, r)
      decreases fuel, 1, x, 3
    {
      var v :- EvalExpr(fuel, env, x);
      return if Truthy(v) then Ok(v) else Err(EnforceFailed);
    }

    method EvalIf(fuel: nat, env: LocalEnv, e: Expr) returns (r: Result<Value>)
      requires e.If?
      modifies this, env
      ensures Did(Semantics.EvalExpr(c, fuel, old(Now()), old(env.vars), e), env, r)
      decreases fuel, 1, e, 1
    {
      var v :- EvalExpr(fuel, env, e.cond);
      if !Truthy(v) && e.elseB.NoElse? { return Ok(VNone); }
      var copy := new LocalEnv(env.vars);
      if Truthy(v) {
        r := ExecBlock(fuel, copy, e.thenB);
      } else {
        r := ExecBlock(fuel, copy, e.elseB.block);
      }
    }

    method EvalArms(fuel: nat, env: LocalEnv, subject: Value, arms: seq<Arm>) returns (r: Result<Value>)
      modifies this, env
      ensures Did(Semantics.EvalArms(c, fuel, old(Now()), old(env.vars), subject, arms), env, r)
      decreases fuel, 1, arms, 1
    {
      for k := 0 to |arms|
        invariant Now() == old(Now()) && env.vars == old(env.vars)
        invariant Semantics.EvalArms(c, fuel, Now(), env.vars, subject, arms)
               == Semantics.EvalArms(c, fuel, Now(), env.vars, subject, arms[k..])
      {
        assert arms[k..][0] == arms[k] && arms[k..][1..] == arms[k + 1..];
        if Matches(c.host, arms[k].pat, subject) {
          var bound := new LocalEnv(if arms[k].pat.BindPat? then env.vars[arms[k].pat.name := subject] else env.vars);
          r := EvalResult(fuel, bound, arms[k]);
          return;
        }
      }
      assert arms[|arms|..] == [];
      return Ok(VNone);
    }

    method EvalResult(fuel: nat, bound: LocalEnv, arm: Arm) returns (r: Result<Value>)
      modifies this, bound
      ensures Did(Semantics.EvalExpr(c, fuel, old(Now()), old(bound.vars), arm.result), bound, r)
      decreases fuel, 1, arm, 3
    {
      r := EvalExpr(fuel, bound, arm.result);
    }

    method EvalList(fuel: nat, env: LocalEnv, es: seq<Expr>) returns (r: Result<seq<Value>>)
      modifies this, env
      ensures Did(Semantics.EvalList(c, fuel, old(Now()), old(env.vars), es), env, r)
      decreases fuel, 1, es, 1
    {
      var vs := [];
      After([], Semantics.EvalList(c, fuel, Now(), env.vars, es));
      for k := 0 to |es|
        invariant Semantics.EvalList(c, fuel, old(Now()), old(env.vars), es)
               == Collect(vs, Semantics.EvalList(c, fuel, Now(), env.vars, es[k..]))
      {
        assert es[k..][0] == es[k] && es[k..][1..] == es[k + 1..];
        ghost var before := vs;
        var v :- EvalExpr(fuel, env, es[k]);
        vs := vs + [v];
        Shift(before, v, Semantics.EvalList(c, fuel, Now(), env.vars, es[k + 1..]));
      }
      assert es[|es|..] == [] && vs + [] == vs;
      return Ok(vs);
    }

    method EvalFields(fuel: nat, env: LocalEnv, fs: seq<Field>) returns (r: Result<seq<Slot>>)
      modifies this, env
      ensures Did(Semantics.EvalFields(c, fuel, old(Now()), old(env.vars), fs), env, r)
      decreases fuel, 1, fs, 1
    {
      var slots := [];
      After([], Semantics.EvalFields(c, fuel, Now(), env.vars, fs));
      for k := 0 to |fs|
        invariant Semantics.EvalFields(c, fuel, old(Now()), old(env.vars), fs)
               == Collect(slots, Semantics.EvalFields(c, fuel, Now(), env.vars, fs[k..]))
      {
        assert fs[k..][0] == fs[k] && fs[k..][1..] == fs[k + 1..];
        ghost var before := slots;
        var v :- EvalField(fuel, env, fs[k]);
        slots := slots + [Slot(fs[k].name, v)];
        Shift(before, Slot(fs[k].name, v), Semantics.EvalFields(c, fuel, Now(), env.vars, fs[k + 1..]));
      }
      assert fs[|fs|..] == [] && slots + [] == slots;
      return Ok(slots);
    }

    method EvalField(fuel: nat, env: LocalEnv, f: Field) returns (r: Result<Value>)
      modifies this, env
      ensures Did(Semantics.EvalField(c, fuel, old(Now()), old(env.vars), f), env, r)
      decreases fuel, 1, f, 3
    {
      r := EvalExpr(fuel, env, f.value);
    }

    // ---- calls ----

    method InvokeTarget(fuel: nat, env: LocalEnv, target: Expr, args: seq<Value>) returns (r: Result<Value>)
      modifies this
      ensures Did(Invoke(c, fuel, old(Now()), env.vars, target, args), env, r)
      decreases fuel, 0, 4
    {
      if target.Ident? {
        if target.name in c.host.library { r := CallLibrary(fuel, env, target.name, args); }
        else if target.name in c.functions { r := RunFunction(fuel, env, target.name, args); }
        else { r := Err(NameError(target.name)); }
      } else if target.ScopeResolve? {
        if NodeName(target.target).None? { return Err(AttributeError); }
        r := RunFunction(fuel, env, NodeName(target.target).value + "::" + target.name, args);
      } else {
        r := if target.Member? then Ok(VNone) else Err(NameError(""));
      }
    }

    method CallLibrary(fuel: nat, env: LocalEnv, name: string, args: seq<Value>) returns (r: Result<Value>)
      modifies this
      ensures Did(Semantics.CallLibrary(c, fuel, old(Now()), env.vars, name, args), env, r)
      decreases fuel, 0, 3
    {
      if name == "rollback" {
        if |args| > 1 { return Err(TypeError); }
        RollbackToLastAnchor();
        return Ok(VNone);
      }
      if name == "map" || name == "filter" {
        if |args| != 2 { return Err(TypeError); }
        if !args[0].VSignal? { return Err(AttributeError); }
        var v :- CallCallable(fuel, env, args[1], [args[0].inner]);
        if name == "map" { return Ok(VSignal(args[0].name, v)); }
        return Ok(if Truthy(v) then args[0] else VSignal(args[0].name, VNone));
      }
      var (res, codes) := c.host.call(calls, name, args);
      audit, calls := audit + LibraryEvents(codes), calls + 1;
      return FromHost(res);
    }

    method CallCallable(fuel: nat, env: LocalEnv, ref: Value, args: seq<Value>) returns (r: Result<Value>)
      modifies this
      ensures Did(CallBack(c, fuel, old(Now()), env.vars, ref, args), env, r)
      decreases fuel, 0, 2
    {
      if !ref.VTuple? || ref.items == [] || ref.items[0] != VStr(FNREF) { return Ok(VNone); }
      if |ref.items| < 2 { return Err(IndexError); }
      if !ref.items[1].VStr? { return Err(NameError("")); }
      r := RunFunction(fuel, env, ref.items[1].s, args);
    }

    method RunFunction(fuel: nat, env: LocalEnv, name: string, args: seq<Value>) returns (r: Result<Value>)
      modifies this
      ensures Did(Semantics.RunFunction(c, fuel, old(Now()), env.vars, name, args), env, r)
      decreases fuel, 0, 1
    {
      if fuel == 0 { return Err(RecursionError); }
      if name !in c.functions { return Err(NameError(name)); }
      var fn := c.functions[name];
      var previous := authority;
      ghost var callers := active;
      if Rank(fn.authority) > Rank(previous) {
        audit := audit + [AuthorityEscalation(previous, fn.authority)];
      }
      active, trace := active + [name], trace + [Enter(previous, active, name)];
      authority := fn.authority;
      var local := new LocalEnv(BindParams(globals, fn.params, args));
      r := ExecBlock(fuel - 1, local, fn.body);
      // finally
      authority := previous;
      active := callers;
    }

    // ---- statements ----

    method ExecBlock(fuel: nat, env: LocalEnv, stmts: seq<Stmt>) returns (r: Result<Value>)
      modifies this, env
      ensures Did(Semantics.ExecBlock(c, fuel, old(Now()), old(env.vars), stmts), env, r)
      decreases fuel, 1, stmts, 1
    {
      for k := 0 to |stmts|
        invariant Semantics.ExecBlock(c, fuel, old(Now()), old(env.vars), stmts)
               == Semantics.ExecBlock(c, fuel, Now(), env.vars, stmts[k..])
      {
        assert stmts[k..][0] == stmts[k] && stmts[k..][1..] == stmts[k + 1..];
        var done :- ExecStmt(fuel, env, stmts[k]);
        trace := trace + [Point(env.vars, globals, authority, active)];
        var _ :- CheckAll(fuel, env);
        if done.Returned? { return Ok(done.value); }
      }
      assert stmts[|stmts|..] == [];
      return Ok(VNone);
    }

    method ExecStmt(fuel: nat, env: LocalEnv, s: Stmt) returns (r: Result<Done>)
      modifies this, env
      ensures Did(Semantics.ExecStmt(c, fuel, old(Now()), old(env.vars), s), env, r)
      decreases fuel, 1, s, 4
    {
      match s {
        case Bind(name, ty, x) =>
          var v :- EvalExpr(fuel, env, x);
          var t :- Tag(ty, v);
          env.vars := env.vars[name := t];
          globals := SetDefault(globals, name, t);
        case Return(x) =>
          var v :- EvalExpr(fuel, env, x);
          return Ok(Returned(v));
        case Enforce(x) =>
          var v :- EvalExpr(fuel, env, x);
          if !Truthy(v) {
            audit := audit + [EnforceFail];
            return Err(EnforceFailed);
          }
        case Anchor(x) =>
          var _ :- EvalExpr(fuel, env, x);
          anchors := anchors + [env.vars];
        case Rollback(_) => RollbackToLastAnchor();
        case Emit(name, x) =>
          var v :- EvalExpr(fuel, env, x);
          r := EmitSignal(fuel, env, name, v);
          return;
        case ExprStmt(x) => var _ :- EvalExpr(fuel, env, x);
        case IfStmt(_, _, _) =>
          r := ExecIf(fuel, env, s);
          return;
      }
      return Ok(Next);
    }

    method ExecIf(fuel: nat, env: LocalEnv, s: Stmt) returns (r: Result<Done>)
      requires s.IfStmt?
      modifies this, env
      ensures Did(Semantics.ExecStmt(c, fuel, old(Now()), old(env.vars), s), env, r)
      decreases fuel, 1, s, 3
    {
      var v :- EvalExpr(fuel, env, s.cond);
      if Truthy(v) {
        var _ :- ExecBlock(fuel, env, s.thenB);
      } else if s.elseB.Else? {
        var _ :- ExecBlock(fuel, env, s.elseB.block);
      }
      return Ok(Next);
    }

    method EmitSignal(fuel: nat, env: LocalEnv, name: string, v: Value) returns (r: Result<Done>)
      modifies this
      ensures Did(Semantics.EmitSignal(c, fuel, old(Now()), env.vars, name, v), env, r)
      decreases fuel, 0, 1
    {
      audit := audit + [SignalEmit(name, v)];
      var obs := if name in c.observers then c.observers[name] else [];
      ghost var start := Now();
      for k := 0 to |obs|
        invariant Deliver(c, fuel, start, env.vars, name, v, obs) ==
            Deliver(c, fuel, Now(), env.vars, name, v, obs[k..])
      {
        assert obs[k..][0] == obs[k] && obs[k..][1..] == obs[k + 1..];
        if fuel == 0 { return Err(RecursionError); }
        var local := new LocalEnv(globals[obs[k].binding := v]);
        audit := audit + [SignalDeliver(name, obs[k].binding)];
        var _ :- ExecBlock(fuel - 1, local, obs[k].body);
      }
      assert obs[|obs|..] == [];
      return Ok(Next);
    }

    // ---- the invariant engine ----

    method CheckAll(fuel: nat, env: LocalEnv) returns (r: Result<()>)
      modifies this, env
      ensures Did(Semantics.CheckAll(c, fuel, old(Now()), old(env.vars)), env, r)
      decreases fuel, 0, 0
    {
      if c.clauses == [] { return Ok(()); }
      if fuel == 0 { return Err(RecursionError); }
      for k := 0 to |c.clauses|
        invariant CheckClauses(c, fuel - 1, old(Now()), old(env.vars), c.clauses)
               == CheckClauses(c, fuel - 1, Now(), env.vars, c.clauses[k..])
      {
        assert c.clauses[k..][0] == c.clauses[k] && c.clauses[k..][1..] == c.clauses[k + 1..];
        var _ :- CheckClause(fuel - 1, env, c.clauses[k]);
      }
      assert c.clauses[|c.clauses|..] == [];
      return Ok(());
    }

    method CheckClause(fuel: nat, env: LocalEnv, clause: Clause) returns (r: Result<()>)
      modifies this, env
      ensures Did(Semantics.CheckClause(c, fuel, old(Now()), old(env.vars), clause), env, r)
      decreases fuel, 1, clause, 5
    {
      match clause.inv {
        case Always(x) =>
          var v := EvalExpr(fuel, env, x);
          if v == Ok(VBool(false)) { r := Violate(clause.article); return; }
        case Never(x) =>
          var v := EvalExpr(fuel, env, x);
          if v == Ok(VBool(true)) { r := Violate(clause.article); return; }
        case WhenThen(trigger, response) =>
          var v := EvalExpr(fuel, env, trigger);
          if v == Ok(VBool(true)) {
            var _ :- EvalExpr(fuel, env, response);
          }
      }
      return Ok(());
    }

    method Violate(article: string) returns (r: Result<()>)
      modifies this
      ensures Now() == Semantics.Violate(old(Now()), article) && r == Err(InvariantViolated)
    {
      audit := audit + [GovernanceViolation(article)];
      if anchors != [] { RollbackToLastAnchor(); }
      return Err(InvariantViolated);
    }
  }

  // ---- lists built by a loop ----

  function Collect<T>(xs: seq<T>, o: Out<seq<T>>): Out<seq<T>> {
    if o.res.Ok? then Out(o.st, o.env, Ok(xs + o.res.value)) else o
  }

  lemma After<T>(xs: seq<T>, o: Out<seq<T>>)
    requires xs == []
    ensures Collect(xs, o) == o
  {
    if o.res.Ok? { assert xs + o.res.value == o.res.value; }
  }

  lemma Shift<T>(xs: seq<T>, x: T, o: Out<seq<T>>)
    ensures Collect(xs, Collect([x], o)) == Collect(xs + [x], o)
  {
    if o.res.Ok? { assert xs + ([x] + o.res.value) == (xs + [x]) + o.res.value; }
  }
}
