/** Constitution expressions that only look: no binding, no anchor, no call that runs anything.
    Their value depends on the environment and the globals alone. */
module EffectFree {
  import opened Ast
  import opened Semantics

  predicate EffectFree(e: Expr) {
    match e
    case Lit(_) => true
    case Ident(_) => true
    case TrustRef(_) => true
    case ScopeResolve(_, _) => true
    case Member(t, _) => EffectFree(t)
    case BinOp(_, l, r) => EffectFree(l) && EffectFree(r)
    case UnOp(_, x) => EffectFree(x)
    case Tuple(items) => forall x | x in items :: EffectFree(x)
    case Record(_, fields) => forall f | f in fields :: EffectFree(f.value)
    case Match(s, arms) => EffectFree(s) && forall a | a in arms :: EffectFree(a.result)
    case EnforceExpr(x) => EffectFree(x)
    case Assert(x) => EffectFree(x)
    case Call(t, args) => t.Member? && forall x | x in args :: EffectFree(x)
    case Pipe(l, r) => r.Member? && EffectFree(l)
    case _ => false
  }

  /** The value of an effect-free expression: no state, no fuel. */
  function PureEval(h: Host, g: Env, env: Env, e: Expr): Result<Value>
    requires EffectFree(e)
    decreases e, 2
  {
    match e
    case Lit(k) => Ok(ConstantValue(k))
    case Ident(name) => Lookup(h, g, env, name)
    case TrustRef(name) => Ok(TrustLookup(g, env, name))
    case ScopeResolve(_, _) => Ok(FnRef(Qualified(e)))
    case Member(t, f) =>
      var v := PureEval(h, g, env, t);
      if v.Err? then v else Ok(GetField(h, v.value, f))
    case BinOp(op, l, r) =>
      var a := PureEval(h, g, env, l);
      if a.Err? then a else
      var b := PureEval(h, g, env, r);
      if b.Err? then b else Binop(h, op, a.value, b.value)
    case UnOp(op, x) =>
      var v := PureEval(h, g, env, x);
      if v.Err? then v else Unop(h, op, v.value)
    case Tuple(items) =>
      var vs := PureList(h, g, env, items);
      if vs.Err? then Err(vs.error) else Ok(VTuple(vs.value))
    case Record(name, fields) =>
      var slots := PureFields(h, g, env, fields);
      if slots.Err? then Err(slots.error) else Ok(VRecord(name, slots.value))
    case Match(s, arms) =>
      var v := PureEval(h, g, env, s);
      if v.Err? then v else PureArms(h, g, env, v.value, arms)
    case EnforceExpr(x) => PureCheck(h, g, env, x)
    case Assert(x) => PureCheck(h, g, env, x)
    // a call through a member does nothing
    case Call(_, args) =>
      var vs := PureList(h, g, env, args);
      if vs.Err? then Err(vs.error) else Ok(VNone)
    case Pipe(l, _) =>
      var v := PureEval(h, g, env, l);
      if v.Err? then v else Ok(VNone)
  }

  function PureCheck(h: Host, g: Env, env: Env, x: Expr): Result<Value>
    requires EffectFree(x)
    decreases x, 3
  {
    var v := PureEval(h, g, env, x);
    if v.Ok? && !Truthy(v.value) then Err(EnforceFailed) else v
  }

  function PureList(h: Host, g: Env, env: Env, es: seq<Expr>): Result<seq<Value>>
    requires forall x | x in es :: EffectFree(x)
    decreases es, 1
  {
    if es == [] then Ok([]) else
    var v := PureEval(h, g, env, es[0]);
    if v.Err? then Err(v.error) else
    var vs := PureList(h, g, env, es[1..]);
    if vs.Err? then vs else Ok([v.value] + vs.value)
  }

  function PureFields(h: Host, g: Env, env: Env, fs: seq<Field>): Result<seq<Slot>>
    requires forall f | f in fs :: EffectFree(f.value)
    decreases fs, 1
  {
    if fs == [] then Ok([]) else
    var f := fs[0];
    var v := PureField(h, g, env, f);
    if v.Err? then Err(v.error) else
    var slots := PureFields(h, g, env, fs[1..]);
    if slots.Err? then slots else Ok([Slot(f.name, v.value)] + slots.value)
  }

  function PureField(h: Host, g: Env, env: Env, f: Field): Result<Value>
    requires EffectFree(f.value)
    decreases f, 3
  {
    PureEval(h, g, env, f.value)
  }

  function PureArms(h: Host, g: Env, env: Env, v: Value, arms: seq<Arm>): Result<Value>
    requires forall a | a in arms :: EffectFree(a.result)
    decreases arms, 1
  {
    if arms == [] then Ok(VNone)
    else if Matches(h, arms[0].pat, v) then PureArm(h, g, env, v, arms[0])
    else PureArms(h, g, env, v, arms[1..])
  }

  function PureArm(h: Host, g: Env, env: Env, v: Value, arm: Arm): Result<Value>
    requires EffectFree(arm.result)
    decreases arm, 3
  {
    PureEval(h, g, if arm.pat.BindPat? then env[arm.pat.name := v] else env, arm.result)
  }

  // ---- the interpreter agrees, and nothing changes ----

  lemma {:induction false} EvalIsPure(c: Ctx, fuel: nat, st: State, env: Env, e: Expr)
    requires EffectFree(e)
    ensures EvalExpr(c, fuel, st, env, e) == Out(st, env, PureEval(c.host, st.globals, env, e))
    decreases e, 2
  {
    match e
    case Lit(_) =>
    case Ident(_) =>
    case TrustRef(_) =>
    case ScopeResolve(_, _) =>
    case Member(t, _) => EvalIsPure(c, fuel, st, env, t);
    case BinOp(_, l, r) => EvalIsPure(c, fuel, st, env, l); EvalIsPure(c, fuel, st, env, r);
    case UnOp(_, x) => EvalIsPure(c, fuel, st, env, x);
    case Tuple(items) => ListIsPure(c, fuel, st, env, items);
    case Record(_, fields) => FieldsArePure(c, fuel, st, env, fields);
    case Match(s, arms) => MatchIsPure(c, fuel, st, env, e);
    case EnforceExpr(x) => EvalIsPure(c, fuel, st, env, x);
    case Assert(x) => EvalIsPure(c, fuel, st, env, x);
    case Call(_, args) => ListIsPure(c, fuel, st, env, args);
    case Pipe(l, _) => EvalIsPure(c, fuel, st, env, l);
  }

  lemma {:induction false} MatchIsPure(c: Ctx, fuel: nat, st: State, env: Env, e: Expr)
    requires e.Match? && EffectFree(e)
    ensures EvalExpr(c, fuel, st, env, e) == Out(st, env, PureEval(c.host, st.globals, env, e))
    decreases e, 1
  {
    EvalIsPure(c, fuel, st, env, e.subject);
    var v := PureEval(c.host, st.globals, env, e.subject);
    if v.Ok? { ArmsArePure(c, fuel, st, env, v.value, e.arms); }
  }

  lemma {:induction false} ListIsPure(c: Ctx, fuel: nat, st: State, env: Env, es: seq<Expr>)
    requires forall x | x in es :: EffectFree(x)
    ensures EvalList(c, fuel, st, env, es) == Out(st, env, PureList(c.host, st.globals, env, es))
    decreases es, 1
  {
    if es != [] {
      EvalIsPure(c, fuel, st, env, es[0]);
      ListIsPure(c, fuel, st, env, es[1..]);
    }
  }

  lemma {:induction false} FieldsArePure(c: Ctx, fuel: nat, st: State, env: Env, fs: seq<Field>)
    requires forall f | f in fs :: EffectFree(f.value)
    ensures EvalFields(c, fuel, st, env, fs) == Out(st, env, PureFields(c.host, st.globals, env, fs))
    decreases fs, 1
  {
    if fs != [] {
      FieldIsPure(c, fuel, st, env, fs[0]);
      FieldsArePure(c, fuel, st, env, fs[1..]);
    }
  }

  lemma {:induction false} FieldIsPure(c: Ctx, fuel: nat, st: State, env: Env, f: Field)
    requires EffectFree(f.value)
    ensures EvalField(c, fuel, st, env, f) == Out(st, env, PureField(c.host, st.globals, env, f))
    decreases f, 3
  {
    EvalIsPure(c, fuel, st, env, f.value);
  }

  lemma {:induction false} ArmsArePure(c: Ctx, fuel: nat, st: State, env: Env, v: Value, arms: seq<Arm>)
    requires forall a | a in arms :: EffectFree(a.result)
    ensures EvalArms(c, fuel, st, env, v, arms) == Out(st, env, PureArms(c.host, st.globals, env, v, arms))
    decreases arms, 1
  {
    if arms != [] {
      if Matches(c.host, arms[0].pat, v) { ArmIsPure(c, fuel, st, env, v, arms[0]); }
      else { ArmsArePure(c, fuel, st, env, v, arms[1..]); }
    }
  }

  lemma {:induction false} ArmIsPure(c: Ctx, fuel: nat, st: State, env: Env, v: Value, arm: Arm)
    requires EffectFree(arm.result)
    ensures EvalArm(c, fuel, st, env, v, arm) == Out(st, env, PureArm(c.host, st.globals, env, v, arm))
    decreases arm, 3
  {
    EvalIsPure(c, fuel, st, if arm.pat.BindPat? then env[arm.pat.name := v] else env, arm.result);
  }

  // ---- a whole round of checks ----

  predicate EffectFreeClause(clause: Clause) {
    match clause.inv
    case Always(x) => EffectFree(x)
    case Never(x) => EffectFree(x)
    case WhenThen(t, r) => EffectFree(t) && EffectFree(r)
  }

  predicate EffectFreeConstitution(c: Ctx) {
    forall clause | clause in c.clauses :: EffectFreeClause(clause)
  }

  /** An always clause that is False here, or a never clause that is True. */
  predicate Broken(h: Host, g: Env, env: Env, clause: Clause)
    requires EffectFreeClause(clause)
  {
    match clause.inv
    case Always(x) => PureEval(h, g, env, x) == Ok(VBool(false))
    case Never(x) => PureEval(h, g, env, x) == Ok(VBool(true))
    case WhenThen(_, _) => false
  }

  predicate AnyBroken(h: Host, g: Env, env: Env, clauses: seq<Clause>)
    requires forall clause | clause in clauses :: EffectFreeClause(clause)
  {
    exists clause | clause in clauses :: Broken(h, g, env, clause)
  }

  lemma PureErrors(h: Host, g: Env, env: Env, e: Expr)
    requires EffectFree(e)
    ensures PureEval(h, g, env, e) != Err(InvariantViolated)
    decreases e, 2
  {
    match e
    case Member(t, _) => PureErrors(h, g, env, t);
    case BinOp(_, l, r) => PureErrors(h, g, env, l); PureErrors(h, g, env, r);
    case UnOp(_, x) => PureErrors(h, g, env, x);
    case EnforceExpr(x) => PureErrors(h, g, env, x);
    case Assert(x) => PureErrors(h, g, env, x);
    case Pipe(l, _) => PureErrors(h, g, env, l);
    case Tuple(items) => PureListErrors(h, g, env, items);
    case Call(_, args) => PureListErrors(h, g, env, args);
    case Record(_, fields) => PureFieldsErrors(h, g, env, fields);
    case Match(s, arms) =>
      PureErrors(h, g, env, s);
      if PureEval(h, g, env, s).Ok? { PureArmsErrors(h, g, env, PureEval(h, g, env, s).value, arms); }
    case _ =>
  }

  lemma PureListErrors(h: Host, g: Env, env: Env, es: seq<Expr>)
    requires forall x | x in es :: EffectFree(x)
    ensures PureList(h, g, env, es) != Err(InvariantViolated)
    decreases es, 1
  {
    if es != [] {
      PureErrors(h, g, env, es[0]);
      PureListErrors(h, g, env, es[1..]);
    }
  }

  lemma PureFieldsErrors(h: Host, g: Env, env: Env, fs: seq<Field>)
    requires forall f | f in fs :: EffectFree(f.value)
    ensures PureFields(h, g, env, fs) != Err(InvariantViolated)
    decreases fs, 1
  {
    if fs != [] {
      PureFieldErrors(h, g, env, fs[0]);
      PureFieldsErrors(h, g, env, fs[1..]);
    }
  }

  lemma PureFieldErrors(h: Host, g: Env, env: Env, f: Field)
    requires EffectFree(f.value)
    ensures PureField(h, g, env, f) != Err(InvariantViolated)
    decreases f, 3
  {
    PureErrors(h, g, env, f.value);
  }

  lemma PureArmsErrors(h: Host, g: Env, env: Env, v: Value, arms: seq<Arm>)
    requires forall a | a in arms :: EffectFree(a.result)
    ensures PureArms(h, g, env, v, arms) != Err(InvariantViolated)
    decreases arms, 1
  {
    if arms != [] {
      PureArmErrors(h, g, env, v, arms[0]);
      PureArmsErrors(h, g, env, v, arms[1..]);
    }
  }

  lemma PureArmErrors(h: Host, g: Env, env: Env, v: Value, arm: Arm)
    requires EffectFree(arm.result)
    ensures PureArm(h, g, env, v, arm) != Err(InvariantViolated)
    decreases arm, 3
  {
    PureErrors(h, g, if arm.pat.BindPat? then env[arm.pat.name := v] else env, arm.result);
  }

  /** A round of checks over an effect-free constitution changes nothing unless a clause is broken,
      passes only if none is, and raises the violation only if one is. */
  lemma {:induction false} ChecksOnlyLook(c: Ctx, fuel: nat, st: State, env: Env, clauses: seq<Clause>)
    requires forall clause | clause in clauses :: EffectFreeClause(clause)
    ensures var r := CheckClauses(c, fuel, st, env, clauses);
      && (r.res.Ok? ==> r.st == st && r.env == env && !AnyBroken(c.host, st.globals, env, clauses))
      && (r.res == Err(InvariantViolated) ==>
            AnyBroken(c.host, st.globals, env, clauses) && exists article :: r.st == Violate(st, article))
      && (r.res.Err? && r.res.error != InvariantViolated ==> r.st == st)
    decreases clauses, 1
  {
    if clauses != [] {
      ClauseOnlyLooks(c, fuel, st, env, clauses[0]);
      var r := CheckClause(c, fuel, st, env, clauses[0]);
      if r.res.Ok? {
        ChecksOnlyLook(c, fuel, st, env, clauses[1..]);
        assert forall x | x in clauses :: x == clauses[0] || x in clauses[1..];
      }
    }
  }

  lemma ClauseOnlyLooks(c: Ctx, fuel: nat, st: State, env: Env, clause: Clause)
    requires EffectFreeClause(clause)
    ensures var r := CheckClause(c, fuel, st, env, clause);
      && (r.res.Ok? ==> r.st == st && r.env == env && !Broken(c.host, st.globals, env, clause))
      && (r.res == Err(InvariantViolated) ==>
          Broken(c.host, st.globals, env, clause) && r.st == Violate(st, clause.article))
      && (r.res.Err? && r.res.error != InvariantViolated ==> r.st == st)
  {
    match clause.inv
    case Always(x) => EvalIsPure(c, fuel, st, env, x);
    case Never(x) => EvalIsPure(c, fuel, st, env, x);
    case WhenThen(t, x) =>
      EvalIsPure(c, fuel, st, env, t);
      EvalIsPure(c, fuel, st, env, x);
      PureErrors(c.host, st.globals, env, x);
  }
}
