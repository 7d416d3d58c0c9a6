/** What every run keeps, whatever the program and the constitution: authority is the declared one
    and is always put back, escalations are counted exactly, history only grows, and globals are
    only ever extended unless something was rolled back. */
module RunLaws {
  import opened Ast
  import opened Semantics

  /** The authority the innermost active function declares (its own, else its module's). */
  function Declared(c: Ctx, base: Kind, active: seq<string>): Kind {
    if active == [] then base
    else if active[|active| - 1] in c.functions then c.functions[active[|active| - 1]].authority
    else base
  }

  predicate Disciplined(c: Ctx, base: Kind, authority: Kind, active: seq<string>) {
    authority == Declared(c, base, active)
  }

  predicate StepDisciplined(c: Ctx, base: Kind, s: Step) {
    Disciplined(c, base, s.authority, s.active)
  }

  function Escalations(audit: seq<Event>): nat {
    if audit == [] then 0
    else Escalations(audit[..|audit| - 1]) + if audit[|audit| - 1].AuthorityEscalation? then 1 else 0
  }

  function Rollbacks(audit: seq<Event>): nat {
    if audit == [] then 0
    else Rollbacks(audit[..|audit| - 1]) + if audit[|audit| - 1].RolledBack? then 1 else 0
  }

  /** Calls into a function whose declared rank is above that of the innermost active one. */
  function Raises(c: Ctx, base: Kind, trace: seq<Step>): nat {
    if trace == [] then 0
    else Raises(c, base, trace[..|trace| - 1]) + if RaisesRank(c, base, trace[|trace| - 1]) then 1 else 0
  }

  predicate RaisesRank(c: Ctx, base: Kind, s: Step) {
    s.Enter? && s.callee in c.functions && Rank(c.functions[s.callee].authority) > Rank(Declared(c, base, s.active))
  }

  predicate Extends(g: Env, g1: Env) {
    forall n | n in g :: n in g1 && g1[n] == g[n]
  }

  /** Authority is restored; history, anchors and audit trail are only added to; and so are the globals, unless there
      is a rollback. */
  predicate Extended(a: State, b: State) {
    && b.authority == a.authority && b.active == a.active
    && a.anchors <= b.anchors && a.audit <= b.audit && a.trace <= b.trace
    && Rollbacks(a.audit) <= Rollbacks(b.audit)
    && (Rollbacks(a.audit) == Rollbacks(b.audit) ==> Extends(a.globals, b.globals))
  }

  /** Escalations are counted and every recorded step is at its declared authority. */
  predicate Counted(c: Ctx, base: Kind, a: State, b: State) {
    && Escalations(b.audit) - Escalations(a.audit) == Raises(c, base, b.trace) - Raises(c, base, a.trace)
    && forall k | |a.trace| <= k < |b.trace| :: StepDisciplined(c, base, b.trace[k])
  }

  /** The innermost active function is one of the program's. */
  predicate Known(c: Ctx, active: seq<string>) { active != [] ==> active[|active| - 1] in c.functions }

  predicate StepKnown(c: Ctx, s: Step) { Known(c, s.active) && (s.Enter? ==> s.callee in c.functions) }

  predicate StepsKnown(c: Ctx, a: State, b: State) {
    forall k | |a.trace| <= k < |b.trace| :: StepKnown(c, b.trace[k])
  }

  /** From state `a` a run can only reach states `b` like this. */
  predicate Evolves(c: Ctx, base: Kind, a: State, b: State) {
    && Extended(a, b)
    && (Disciplined(c, base, a.authority, a.active) ==> Counted(c, base, a, b))
    && (Known(c, a.active) ==> StepsKnown(c, a, b))
  }

  lemma Then(c: Ctx, base: Kind, a: State, b: State, d: State)
    requires Evolves(c, base, a, b) && Evolves(c, base, b, d)
    ensures Evolves(c, base, a, d)
  {
    forall k | |a.trace| <= k < |b.trace|
      ensures d.trace[k] == b.trace[k]
    {
    }
  }

  // ---- the single effects ----

  lemma Appended<T>(s: seq<T>, x: T)
    ensures (s + [x])[..|s + [x]| - 1] == s
  {
  }

  lemma AuditEvolves(c: Ctx, base: Kind, st: State, e: Event)
    requires !e.AuthorityEscalation? && !e.RolledBack?
    ensures Evolves(c, base, st, Audit(st, e))
  {
    Appended(st.audit, e);
  }

  lemma {:induction false} LibraryEvolves(c: Ctx, base: Kind, st: State, codes: seq<int>)
    ensures Evolves(c, base, st, st.(audit := st.audit + LibraryEvents(codes)))
    decreases |codes|
  {
    if codes == [] {
      assert st.audit + LibraryEvents([]) == st.audit;
    } else {
      var k := |codes| - 1;
      LibraryEvolves(c, base, st, codes[..k]);
      var st1 := st.(audit := st.audit + LibraryEvents(codes[..k]));
      AuditEvolves(c, base, st1, LibraryEvent(codes[k]));
      assert st.audit + LibraryEvents(codes) == st1.audit + [LibraryEvent(codes[k])];
    }
  }

  lemma RollbackEvolves(c: Ctx, base: Kind, st: State)
    ensures Evolves(c, base, st, RollbackToLastAnchor(st))
  {
    Appended(st.audit, RolledBack);
  }

  lemma ViolateEvolves(c: Ctx, base: Kind, st: State, article: string)
    ensures Evolves(c, base, st, Violate(st, article))
  {
    var noted := Audit(st, GovernanceViolation(article));
    AuditEvolves(c, base, st, GovernanceViolation(article));
    RollbackEvolves(c, base, noted);
    Then(c, base, st, noted, RollbackToLastAnchor(noted));
  }

  lemma AfterCallEvolves(c: Ctx, base: Kind, st: State, codes: seq<int>)
    ensures Evolves(c, base, st, AfterCall(st, codes))
  {
    LibraryEvolves(c, base, st, codes);
    var noted := st.(audit := st.audit + LibraryEvents(codes));
    assert Extended(st, noted) == Extended(st, AfterCall(st, codes));
    assert Counted(c, base, st, noted) == Counted(c, base, st, AfterCall(st, codes));
  }

  lemma MarkEvolves(c: Ctx, base: Kind, st: State, env: Env)
    ensures Evolves(c, base, st, Mark(st, env))
  {
    Appended(st.trace, Point(env, st.globals, st.authority, st.active));
  }

  /** Entering a function notes an escalation exactly when the call raises the rank. */
  lemma EnterCounts(c: Ctx, base: Kind, st: State, name: string)
    requires name in c.functions && Disciplined(c, base, st.authority, st.active)
    ensures var inside := EnterFunction(st, name, c.functions[name].authority);
      && Disciplined(c, base, inside.authority, inside.active)
      && Counted(c, base, st, inside)
  {
    var auth := c.functions[name].authority;
    Appended(st.trace, Enter(st.authority, st.active, name));
    Appended(st.audit, AuthorityEscalation(st.authority, auth));
  }

  lemma EnterExtends(c: Ctx, base: Kind, st: State, name: string, b: State)
    requires name in c.functions
    requires Evolves(c, base, EnterFunction(st, name, c.functions[name].authority), b)
    ensures Extended(st, LeaveFunction(b, st))
  {
    Appended(st.audit, AuthorityEscalation(st.authority, c.functions[name].authority));
  }

  lemma CallCounts(c: Ctx, base: Kind, st: State, name: string, b: State)
    requires name in c.functions && Disciplined(c, base, st.authority, st.active)
    requires Evolves(c, base, EnterFunction(st, name, c.functions[name].authority), b)
    ensures Counted(c, base, st, LeaveFunction(b, st))
  {
    var inside := EnterFunction(st, name, c.functions[name].authority);
    EnterCounts(c, base, st, name);
    forall k | |st.trace| <= k < |inside.trace|
      ensures b.trace[k] == inside.trace[k]
    {
    }
  }

  lemma CallKnown(c: Ctx, base: Kind, st: State, name: string, b: State)
    requires name in c.functions && Known(c, st.active)
    requires Evolves(c, base, EnterFunction(st, name, c.functions[name].authority), b)
    ensures StepsKnown(c, st, LeaveFunction(b, st))
  {
    var inside := EnterFunction(st, name, c.functions[name].authority);
    forall k | |st.trace| <= k < |inside.trace|
      ensures b.trace[k] == inside.trace[k]
    {
    }
  }

  /** A call: whatever the body does at the callee's authority, the caller gets its own back. */
  lemma CallEvolves(c: Ctx, base: Kind, st: State, name: string, b: State)
    requires name in c.functions
    requires Evolves(c, base, EnterFunction(st, name, c.functions[name].authority), b)
    ensures Evolves(c, base, st, LeaveFunction(b, st))
  {
    EnterExtends(c, base, st, name, b);
    if Disciplined(c, base, st.authority, st.active) { CallCounts(c, base, st, name, b); }
    if Known(c, st.active) { CallKnown(c, base, st, name, b); }
  }

  // ---- the interpreter, by induction on its own recursion ----

  lemma {:induction false} ExprEvolves(c: Ctx, base: Kind, fuel: nat, st: State, env: Env, e: Expr)
    ensures Evolves(c, base, st, EvalExpr(c, fuel, st, env, e).st)
    decreases fuel, 1, e, 2
  {
    match e
    case Lit(_) =>
    case Ident(_) =>
    case TrustRef(_) =>
    case ScopeResolve(_, _) =>
    case Member(_, _) => PartEvolves(c, base, fuel, st, env, e);
    case UnOp(_, _) => PartEvolves(c, base, fuel, st, env, e);
    case Let(_, _, _) => PartEvolves(c, base, fuel, st, env, e);
    case EnforceExpr(_) => PartEvolves(c, base, fuel, st, env, e);
    case Assert(_) => PartEvolves(c, base, fuel, st, env, e);
    case AnchorExpr(_) => PartEvolves(c, base, fuel, st, env, e);
    case BinOp(_, _, _) => BinOpEvolves(c, base, fuel, st, env, e);
    case Tuple(items) => ListEvolves(c, base, fuel, st, env, items);
    case Record(_, fields) => FieldsEvolve(c, base, fuel, st, env, fields);
    case Call(_, _) => CallExprEvolves(c, base, fuel, st, env, e);
    case Pipe(_, _) => PipeEvolves(c, base, fuel, st, env, e);
    case If(_, _, _) => IfEvolves(c, base, fuel, st, env, e);
    case Match(_, _) => MatchEvolves(c, base, fuel, st, env, e);
  }

  /** The forms with a single operand. */
  lemma {:induction false} PartEvolves(c: Ctx, base: Kind, fuel: nat, st: State, env: Env, e: Expr)
    requires e.Member? || e.UnOp? || e.Let? || e.EnforceExpr? || e.Assert? || e.AnchorExpr?
    ensures Evolves(c, base, st, EvalExpr(c, fuel, st, env, e).st)
    decreases fuel, 1, e, 1
  {
    var x := if e.Member? then e.target else if e.UnOp? then e.operand else e.expr;
    ExprEvolves(c, base, fuel, st, env, x);
    PartState(c, fuel, st, env, e, x);
  }

  /** Of these only an anchor does something to the state behind its operand. */
  lemma PartState(c: Ctx, fuel: nat, st: State, env: Env, e: Expr, x: Expr)
    requires match e
             case Member(t, _) => x == t
             case UnOp(_, o) => x == o
             case Let(_, _, o) => x == o
             case EnforceExpr(o) => x == o
             case Assert(o) => x == o
             case AnchorExpr(o) => x == o
             case _ => false
    ensures var a := EvalExpr(c, fuel, st, env, x);
            EvalExpr(c, fuel, st, env, e).st == if e.AnchorExpr? && a.res.Ok? then PushAnchor(a.st, a.env) else a.st
  {
  }

  lemma {:induction false} BinOpEvolves(c: Ctx, base: Kind, fuel: nat, st: State, env: Env, e: Expr)
    requires e.BinOp?
    ensures Evolves(c, base, st, EvalExpr(c, fuel, st, env, e).st)
    decreases fuel, 1, e, 1
  {
    ExprEvolves(c, base, fuel, st, env, e.left);
    var a := EvalExpr(c, fuel, st, env, e.left);
    ExprEvolves(c, base, fuel, a.st, a.env, e.right);
    if a.res.Ok? { Then(c, base, st, a.st, EvalExpr(c, fuel, a.st, a.env, e.right).st); }
  }

  lemma {:induction false} CallExprEvolves(c: Ctx, base: Kind, fuel: nat, st: State, env: Env, e: Expr)
    requires e.Call?
    ensures Evolves(c, base, st, EvalExpr(c, fuel, st, env, e).st)
    decreases fuel, 1, e, 1
  {
    ListEvolves(c, base, fuel, st, env, e.args);
    var a := EvalList(c, fuel, st, env, e.args);
    if a.res.Ok? {
      InvokeEvolves(c, base, fuel, a.st, a.env, e.target, a.res.value);
      Then(c, base, st, a.st, Invoke(c, fuel, a.st, a.env, e.target, a.res.value).st);
    }
  }

  lemma {:induction false} PipeEvolves(c: Ctx, base: Kind, fuel: nat, st: State, env: Env, e: Expr)
    requires e.Pipe?
    ensures Evolves(c, base, st, EvalExpr(c, fuel, st, env, e).st)
    decreases fuel, 1, e, 1
  {
    ExprEvolves(c, base, fuel, st, env, e.left);
    var a := EvalExpr(c, fuel, st, env, e.left);
    if a.res.Ok? {
      InvokeEvolves(c, base, fuel, a.st, a.env, e.right, [a.res.value]);
      Then(c, base, st, a.st, Invoke(c, fuel, a.st, a.env, e.right, [a.res.value]).st);
    }
  }

  lemma {:induction false} MatchEvolves(c: Ctx, base: Kind, fuel: nat, st: State, env: Env, e: Expr)
    requires e.Match?
    ensures Evolves(c, base, st, EvalExpr(c, fuel, st, env, e).st)
    decreases fuel, 1, e, 1
  {
    ExprEvolves(c, base, fuel, st, env, e.subject);
    var a := EvalExpr(c, fuel, st, env, e.subject);
    if a.res.Ok? {
      ArmsEvolve(c, base, fuel, a.st, a.env, a.res.value, e.arms);
      Then(c, base, st, a.st, EvalArms(c, fuel, a.st, a.env, a.res.value, e.arms).st);
    }
  }

  lemma {:induction false} IfEvolves(c: Ctx, base: Kind, fuel: nat, st: State, env: Env, e: Expr)
    requires e.If?
    ensures Evolves(c, base, st, EvalExpr(c, fuel, st, env, e).st)
    decreases fuel, 1, e, 1
  {
    ExprEvolves(c, base, fuel, st, env, e.cond);
    var a := EvalExpr(c, fuel, st, env, e.cond);
    if a.res.Ok? && (Truthy(a.res.value) || e.elseB.Else?) {
      var block := if Truthy(a.res.value) then e.thenB else e.elseB.block;
      BlockEvolves(c, base, fuel, a.st, a.env, block);
      Then(c, base, st, a.st, ExecBlock(c, fuel, a.st, a.env, block).st);
    }
  }

  lemma {:induction false} ArmsEvolve(c: Ctx, base: Kind, fuel: nat, st: State, env: Env, v: Value, arms: seq<Arm>)
    ensures Evolves(c, base, st, EvalArms(c, fuel, st, env, v, arms).st)
    decreases fuel, 1, arms, 1
  {
    if arms != [] {
      if Matches(c.host, arms[0].pat, v) { ArmEvolves(c, base, fuel, st, env, v, arms[0]); }
      else { ArmsEvolve(c, base, fuel, st, env, v, arms[1..]); }
    }
  }

  lemma {:induction false} ArmEvolves(c: Ctx, base: Kind, fuel: nat, st: State, env: Env, v: Value, arm: Arm)
    ensures Evolves(c, base, st, EvalArm(c, fuel, st, env, v, arm).st)
    decreases fuel, 1, arm, 3
  {
    ExprEvolves(c, base, fuel, st, if arm.pat.BindPat? then env[arm.pat.name := v] else env, arm.result);
  }

  lemma {:induction false} ListEvolves(c: Ctx, base: Kind, fuel: nat, st: State, env: Env, es: seq<Expr>)
    ensures Evolves(c, base, st, EvalList(c, fuel, st, env, es).st)
    decreases fuel, 1, es, 1
  {
    if es != [] {
      ExprEvolves(c, base, fuel, st, env, es[0]);
      var a := EvalExpr(c, fuel, st, env, es[0]);
      ListEvolves(c, base, fuel, a.st, a.env, es[1..]);
      if a.res.Ok? { Then(c, base, st, a.st, EvalList(c, fuel, a.st, a.env, es[1..]).st); }
    }
  }

  lemma {:induction false} FieldsEvolve(c: Ctx, base: Kind, fuel: nat, st: State, env: Env, fs: seq<Field>)
    ensures Evolves(c, base, st, EvalFields(c, fuel, st, env, fs).st)
    decreases fuel, 1, fs, 1
  {
    if fs != [] {
      FieldEvolves(c, base, fuel, st, env, fs[0]);
      var a := EvalField(c, fuel, st, env, fs[0]);
      FieldsEvolve(c, base, fuel, a.st, a.env, fs[1..]);
      if a.res.Ok? { Then(c, base, st, a.st, EvalFields(c, fuel, a.st, a.env, fs[1..]).st); }
    }
  }

  lemma {:induction false} FieldEvolves(c: Ctx, base: Kind, fuel: nat, st: State, env: Env, f: Field)
    ensures Evolves(c, base, st, EvalField(c, fuel, st, env, f).st)
    decreases fuel, 1, f, 3
  {
    ExprEvolves(c, base, fuel, st, env, f.value);
  }

  lemma {:induction false} InvokeEvolves(c: Ctx, base: Kind, fuel: nat, st: State, env: Env, target: Expr,
                                         args: seq<Value>)
    ensures Evolves(c, base, st, Invoke(c, fuel, st, env, target, args).st)
    decreases fuel, 0, 4
  {
    match target
    case Ident(name) =>
      if name in c.host.library { LibraryCallEvolves(c, base, fuel, st, env, name, args); }
      else if name in c.functions { FunctionEvolves(c, base, fuel, st, env, name, args); }
    case ScopeResolve(t, name) =>
      if NodeName(t).Some? { FunctionEvolves(c, base, fuel, st, env, NodeName(t).value + "::" + name, args); }
    case _ =>
  }

  lemma {:induction false} LibraryCallEvolves(c: Ctx, base: Kind, fuel: nat, st: State, env: Env, name: string,
                                              args: seq<Value>)
    ensures Evolves(c, base, st, CallLibrary(c, fuel, st, env, name, args).st)
    decreases fuel, 0, 3
  {
    if name == "rollback" {
      RollbackEvolves(c, base, st);
    } else if name == "map" || name == "filter" {
      if |args| == 2 && args[0].VSignal? { CallBackEvolves(c, base, fuel, st, env, args[1], [args[0].inner]); }
    } else {
      AfterCallEvolves(c, base, st, c.host.call(st.calls, name, args).1);
    }
  }

  lemma {:induction false} CallBackEvolves(c: Ctx, base: Kind, fuel: nat, st: State, env: Env, ref: Value,
                                           args: seq<Value>)
    ensures Evolves(c, base, st, CallBack(c, fuel, st, env, ref, args).st)
    decreases fuel, 0, 2
  {
    if IsFnRef(ref) { FunctionEvolves(c, base, fuel, st, env, ref.items[1].s, args); }
  }

  predicate IsFnRef(v: Value) {
    v.VTuple? && |v.items| >= 2 && v.items[0] == VStr(FNREF) && v.items[1].VStr?
  }

  lemma {:induction false} FunctionEvolves(c: Ctx, base: Kind, fuel: nat, st: State, env: Env, name: string,
                                           args: seq<Value>)
    ensures Evolves(c, base, st, RunFunction(c, fuel, st, env, name, args).st)
    decreases fuel, 0, 1
  {
    if fuel > 0 && name in c.functions {
      var fn := c.functions[name];
      var inside := EnterFunction(st, name, fn.authority);
      var local := BindParams(st.globals, fn.params, args);
      BlockEvolves(c, base, fuel - 1, inside, local, fn.body);
      CallEvolves(c, base, st, name, ExecBlock(c, fuel - 1, inside, local, fn.body).st);
    }
  }

  lemma {:induction false} BlockEvolves(c: Ctx, base: Kind, fuel: nat, st: State, env: Env, stmts: seq<Stmt>)
    ensures Evolves(c, base, st, ExecBlock(c, fuel, st, env, stmts).st)
    decreases fuel, 1, stmts, 1
  {
    if stmts != [] {
      StmtEvolves(c, base, fuel, st, env, stmts[0]);
      var a := ExecStmt(c, fuel, st, env, stmts[0]);
      if a.res.Ok? {
        MarkEvolves(c, base, a.st, a.env);
        Then(c, base, st, a.st, Mark(a.st, a.env));
        CheckAllEvolves(c, base, fuel, Mark(a.st, a.env), a.env);
        var b := CheckAll(c, fuel, Mark(a.st, a.env), a.env);
        Then(c, base, st, Mark(a.st, a.env), b.st);
        if b.res.Ok? && a.res.value.Next? {
          BlockEvolves(c, base, fuel, b.st, b.env, stmts[1..]);
          Then(c, base, st, b.st, ExecBlock(c, fuel, b.st, b.env, stmts[1..]).st);
        }
      }
    }
  }

  lemma {:induction false} StmtEvolves(c: Ctx, base: Kind, fuel: nat, st: State, env: Env, s: Stmt)
    ensures Evolves(c, base, st, ExecStmt(c, fuel, st, env, s).st)
    decreases fuel, 1, s, 4
  {
    match s
    case Rollback(_) => RollbackEvolves(c, base, st);
    case IfStmt(_, _, _) => IfStmtEvolves(c, base, fuel, st, env, s);
    case Enforce(_) => EnforceEvolves(c, base, fuel, st, env, s);
    case Emit(_, _) => EmitStmtEvolves(c, base, fuel, st, env, s);
    case Bind(_, _, _) => BindEvolves(c, base, fuel, st, env, s);
    case Return(x) => ExprEvolves(c, base, fuel, st, env, x);
    case Anchor(x) => ExprEvolves(c, base, fuel, st, env, x);
    case ExprStmt(x) => ExprEvolves(c, base, fuel, st, env, x);
  }

  /** A binding adds a global, or leaves the one there is. */
  lemma {:induction false} BindEvolves(c: Ctx, base: Kind, fuel: nat, st: State, env: Env, s: Stmt)
    requires s.Bind?
    ensures Evolves(c, base, st, ExecStmt(c, fuel, st, env, s).st)
    decreases fuel, 1, s, 3
  {
    ExprEvolves(c, base, fuel, st, env, s.expr);
  }

  lemma {:induction false} EnforceEvolves(c: Ctx, base: Kind, fuel: nat, st: State, env: Env, s: Stmt)
    requires s.Enforce?
    ensures Evolves(c, base, st, ExecStmt(c, fuel, st, env, s).st)
    decreases fuel, 1, s, 3
  {
    ExprEvolves(c, base, fuel, st, env, s.expr);
    var a := EvalExpr(c, fuel, st, env, s.expr);
    AuditEvolves(c, base, a.st, EnforceFail);
    Then(c, base, st, a.st, Audit(a.st, EnforceFail));
  }

  lemma {:induction false} EmitStmtEvolves(c: Ctx, base: Kind, fuel: nat, st: State, env: Env, s: Stmt)
    requires s.Emit?
    ensures Evolves(c, base, st, ExecStmt(c, fuel, st, env, s).st)
    decreases fuel, 1, s, 3
  {
    ExprEvolves(c, base, fuel, st, env, s.expr);
    var a := EvalExpr(c, fuel, st, env, s.expr);
    if a.res.Ok? {
      EmitEvolves(c, base, fuel, a.st, a.env, s.name, a.res.value);
      Then(c, base, st, a.st, EmitSignal(c, fuel, a.st, a.env, s.name, a.res.value).st);
    }
  }

  lemma {:induction false} IfStmtEvolves(c: Ctx, base: Kind, fuel: nat, st: State, env: Env, s: Stmt)
    requires s.IfStmt?
    ensures Evolves(c, base, st, ExecStmt(c, fuel, st, env, s).st)
    decreases fuel, 1, s, 3
  {
    ExprEvolves(c, base, fuel, st, env, s.cond);
    var a := EvalExpr(c, fuel, st, env, s.cond);
    if a.res.Ok? && (Truthy(a.res.value) || s.elseB.Else?) {
      var block := if Truthy(a.res.value) then s.thenB else s.elseB.block;
      BlockEvolves(c, base, fuel, a.st, a.env, block);
      Then(c, base, st, a.st, ExecBlock(c, fuel, a.st, a.env, block).st);
    }
  }

  lemma {:induction false} EmitEvolves(c: Ctx, base: Kind, fuel: nat, st: State, env: Env, name: string, v: Value)
    ensures Evolves(c, base, st, EmitSignal(c, fuel, st, env, name, v).st)
    decreases fuel, 0, 1
  {
    var st1 := Audit(st, SignalEmit(name, v));
    var obs := if name in c.observers then c.observers[name] else [];
    AuditEvolves(c, base, st, SignalEmit(name, v));
    DeliverEvolves(c, base, fuel, st1, env, name, v, obs);
    Then(c, base, st, st1, Deliver(c, fuel, st1, env, name, v, obs).st);
  }

  lemma {:induction false} DeliverEvolves(c: Ctx, base: Kind, fuel: nat, st: State, env: Env, name: string, v: Value,
                                          obs: seq<Observer>)
    ensures Evolves(c, base, st, Deliver(c, fuel, st, env, name, v, obs).st)
    decreases fuel, 0, 0, |obs|
  {
    if obs != [] && fuel > 0 {
      var o := obs[0];
      var st1 := Audit(st, SignalDeliver(name, o.binding));
      AuditEvolves(c, base, st, SignalDeliver(name, o.binding));
      BlockEvolves(c, base, fuel - 1, st1, st.globals[o.binding := v], o.body);
      var r := ExecBlock(c, fuel - 1, st1, st.globals[o.binding := v], o.body);
      Then(c, base, st, st1, r.st);
      if r.res.Ok? {
        DeliverEvolves(c, base, fuel, r.st, env, name, v, obs[1..]);
        Then(c, base, st, r.st, Deliver(c, fuel, r.st, env, name, v, obs[1..]).st);
      }
    }
  }

  lemma {:induction false} CheckAllEvolves(c: Ctx, base: Kind, fuel: nat, st: State, env: Env)
    ensures Evolves(c, base, st, CheckAll(c, fuel, st, env).st)
    decreases fuel, 0, 0
  {
    if c.clauses != [] && fuel > 0 { ClausesEvolve(c, base, fuel - 1, st, env, c.clauses); }
  }

  lemma {:induction false} ClausesEvolve(c: Ctx, base: Kind, fuel: nat, st: State, env: Env, clauses: seq<Clause>)
    ensures Evolves(c, base, st, CheckClauses(c, fuel, st, env, clauses).st)
    decreases fuel, 1, clauses, 1
  {
    if clauses != [] {
      ClauseEvolves(c, base, fuel, st, env, clauses[0]);
      var a := CheckClause(c, fuel, st, env, clauses[0]);
      if a.res.Ok? {
        ClausesEvolve(c, base, fuel, a.st, a.env, clauses[1..]);
        Then(c, base, st, a.st, CheckClauses(c, fuel, a.st, a.env, clauses[1..]).st);
      }
    }
  }

  lemma {:induction false} ClauseEvolves(c: Ctx, base: Kind, fuel: nat, st: State, env: Env, clause: Clause)
    ensures Evolves(c, base, st, CheckClause(c, fuel, st, env, clause).st)
    decreases fuel, 1, clause, 5
  {
    match clause.inv
    case Always(x) => ViolationEvolves(c, base, fuel, st, env, x, clause.article);
    case Never(x) => ViolationEvolves(c, base, fuel, st, env, x, clause.article);
    case WhenThen(_, _) => WhenThenEvolves(c, base, fuel, st, env, clause);
  }

  lemma {:induction false} WhenThenEvolves(c: Ctx, base: Kind, fuel: nat, st: State, env: Env, clause: Clause)
    requires clause.inv.WhenThen?
    ensures Evolves(c, base, st, CheckClause(c, fuel, st, env, clause).st)
    decreases fuel, 1, clause, 4
  {
    ExprEvolves(c, base, fuel, st, env, clause.inv.trigger);
    var r := EvalExpr(c, fuel, st, env, clause.inv.trigger);
    ResponseEvolves(c, base, fuel, st, r.st, r.env, clause.inv.response);
  }

  lemma {:induction false} ResponseEvolves(c: Ctx, base: Kind, fuel: nat, before: State, st: State, env: Env,
                                           response: Expr)
    requires Evolves(c, base, before, st)
    ensures Evolves(c, base, before, EvalExpr(c, fuel, st, env, response).st)
    decreases fuel, 1, response, 5
  {
    ExprEvolves(c, base, fuel, st, env, response);
    Then(c, base, before, st, EvalExpr(c, fuel, st, env, response).st);
  }

  lemma {:induction false} ViolationEvolves(c: Ctx, base: Kind, fuel: nat, st: State, env: Env, x: Expr,
                                            article: string)
    ensures Evolves(c, base, st, EvalExpr(c, fuel, st, env, x).st)
    ensures Evolves(c, base, st, Violate(EvalExpr(c, fuel, st, env, x).st, article))
    decreases fuel, 1, x, 5
  {
    ExprEvolves(c, base, fuel, st, env, x);
    var r := EvalExpr(c, fuel, st, env, x);
    ViolateEvolves(c, base, r.st, article);
    Then(c, base, st, r.st, Violate(r.st, article));
  }

  // ---- the laws ----

  /** At every statement and every call of a run, at any nesting, `current_authority` is the declared
      authority of the innermost active function; it is back to the caller's on every way out; and
      escalation events number exactly the calls into a function of higher declared rank. */
  lemma AuthorityDiscipline(c: Ctx, base: Kind, fuel: nat, st: State, env: Env, name: string, args: seq<Value>)
    requires Disciplined(c, base, st.authority, st.active)
    ensures var b := RunFunction(c, fuel, st, env, name, args).st;
      && b.authority == st.authority
      && b.active == st.active
      && st.trace <= b.trace
      && (forall k | |st.trace| <= k < |b.trace| :: b.trace[k].authority == Declared(c, base, b.trace[k].active))
      && Escalations(b.audit) - Escalations(st.audit) == Raises(c, base, b.trace) - Raises(c, base, st.trace)
  {
    FunctionEvolves(c, base, fuel, st, env, name, args);
    var b := RunFunction(c, fuel, st, env, name, args).st;
    forall k | |st.trace| <= k < |b.trace|
      ensures b.trace[k].authority == Declared(c, base, b.trace[k].active)
    {
      assert StepDisciplined(c, base, b.trace[k]);
    }
  }

  /** Every recorded statement and call of a run belongs to a function of the program, or to the caller's own level. */
  lemma ActiveKnown(c: Ctx, fuel: nat, st: State, env: Env, name: string, args: seq<Value>)
    requires Known(c, st.active)
    ensures StepsKnown(c, st, RunFunction(c, fuel, st, env, name, args).st)
  {
    FunctionEvolves(c, EofKind, fuel, st, env, name, args);
  }

  /** Without a rollback, a run adds globals and never changes one; anchors are never dropped and
      the audit trail is never rewritten. */
  lemma GlobalsOnlyGrow(c: Ctx, fuel: nat, st: State, env: Env, name: string, args: seq<Value>)
    ensures var b := RunFunction(c, fuel, st, env, name, args).st;
      && st.anchors <= b.anchors
      && st.audit <= b.audit
      && (Rollbacks(b.audit) == Rollbacks(st.audit) ==>
          forall n | n in st.globals :: n in b.globals && b.globals[n] == st.globals[n])
  {
    FunctionEvolves(c, EofKind, fuel, st, env, name, args);
  }
}
