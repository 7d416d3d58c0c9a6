/** What each step of the tree walk means, said of its outcome and in terms of nothing but the steps below it: which
    branch, arm, callee or observer runs, from which state, in which environment, and what the caller is left with. */
module EvalLaws {
  import opened Wrappers
  import opened Ast
  import opened Semantics

  // ---- values ----

  /** Python's falsy values. */
  predicate Falsy(v: Value) {
    || v == VNone || v == VBool(false) || v == VInt(0) || v == VFloat(0.0) || v == VStr("") || v == VTuple([])
    || (v.VHost? && !v.truth)
  }

  lemma TruthyIff(v: Value)
    ensures Truthy(v) <==> !Falsy(v)
  {
  }

  predicate Tagged(v: Value) { v.VLawful? || v.VGoverned? }

  /** `w` is `v` with some of its outer tags taken off. */
  predicate Inside(v: Value, w: Value) {
    v == w || (Tagged(v) && Inside(v.inner, w))
  }

  /** Unwrapping takes off all outer tags and nothing else. */
  lemma {:induction false} UnwrapIff(v: Value, w: Value)
    ensures w == Unwrap(v) <==> Inside(v, w) && !Tagged(w)
  {
    if Tagged(v) { UnwrapIff(v.inner, w); }
  }

  /** The operators look through tags; the logical ones go by falsiness, an ordering with None is False, and everything
      else is Python's, with the operands in their order. */
  lemma OperatorTable(h: Host, op: BinaryOp, left: Value, right: Value, l: Value, r: Value)
    requires Inside(left, l) && !Tagged(l) && Inside(right, r) && !Tagged(r)
    ensures var result := Binop(h, op, left, right);
      && (op == Eq ==> result == Ok(VBool(h.equal(l, r))))
      && (op == Ne ==> result == Ok(VBool(!h.equal(l, r))))
      && (op == And ==> result == Ok(VBool(!(Falsy(l) || Falsy(r)))))
      && (op == Or ==> result == Ok(VBool(!(Falsy(l) && Falsy(r)))))
      && (op in {Gt, Lt, Ge, Le} && (l == VNone || r == VNone) ==> result == Ok(VBool(false)))
      && (op in {Gt, Lt, Ge, Le} && l != VNone && r != VNone ==> FromPython(result, h.order(op, l, r)))
      && (op in {Add, Sub, Mul, Div, Mod} ==> FromPython(result, h.arith(op, l, r)))
  {
    UnwrapIff(left, l);
    UnwrapIff(right, r);
    TruthyIff(l);
    TruthyIff(r);
  }

  /** The value Python computed, or its exception. */
  predicate FromPython(result: Result<Value>, r: HostResult) {
    match r
    case Computed(v) => result == Ok(v)
    case Raised(code) => result == Err(HostError(code))
  }

  lemma PrefixTable(h: Host, v: Value)
    ensures Unop(h, Not, v) == Ok(VBool(Falsy(v)))
    ensures FromPython(Unop(h, Neg, v), h.negate(v))
  {
    TruthyIff(v);
  }

  /** A field is that of the value under the tags: a signal has its value, a trust tag its entity, a record its fields;
      everything else reads as None. */
  lemma FieldTable(h: Host, target: Value, v: Value, field: string)
    requires Inside(target, v) && !Tagged(v)
    ensures var r := GetField(h, target, field);
      && (v.VSignal? && field == "value" ==> r == v.inner)
      && (v.VTrust? && field == "entity" ==> r == v.entity)
      && (v.VHost? ==> r == h.dictGet(v, field))
      && (v.VRecord? ==> forall k | 0 <= k < |v.fields| && v.fields[k].name == field &&
                            (forall j | 0 <= j < k :: v.fields[j].name != field) :: r == v.fields[k].value)
      && (v.VRecord? && (forall k | 0 <= k < |v.fields| :: v.fields[k].name != field) ==> r == VNone)
      && (!v.VHost? && !v.VRecord? && !(v.VSignal? && field == "value") && !(v.VTrust? && field == "entity") ==>
            r == VNone)
  {
    UnwrapIff(target, v);
    if v.VRecord? { SlotFound(v.fields, field); }
  }

  lemma {:induction false} SlotFound(slots: seq<Slot>, field: string)
    ensures forall k | 0 <= k < |slots| && slots[k].name == field &&
                         (forall j | 0 <= j < k :: slots[j].name != field) :: SlotGet(slots, field) == slots[k].value
    ensures (forall k | 0 <= k < |slots| :: slots[k].name != field) ==> SlotGet(slots, field) == VNone
  {
    if slots != [] {
      SlotFound(slots[1..], field);
      forall k | 0 <= k < |slots| && slots[k].name == field && (forall j | 0 <= j < k :: slots[j].name != field)
        ensures SlotGet(slots, field) == slots[k].value
      {
        if k > 0 {
          assert slots[1..][k - 1] == slots[k];
          assert forall j | 0 <= j < k - 1 :: slots[1..][j] == slots[j + 1];
        }
      }
      if forall k | 0 <= k < |slots| :: slots[k].name != field {
        assert forall k | 0 <= k < |slots[1..]| :: slots[1..][k] == slots[k + 1];
      }
    }
  }

  // ---- which branch and which arm run ----

  /** An `if` expression: a condition that raises ends it.  Where it is not falsy, the outcome is that of the `then`
      block, run from the state after the condition and leaving the caller's environment as the condition left it, and
      it is the same for any other `else` part; where it is falsy, the same holds with the parts exchanged. */
  lemma IfChooses(c: Ctx, fuel: nat, st: State, env: Env, cond: Expr, thenB: seq<Stmt>, elseB: Else,
                  otherThen: seq<Stmt>, otherElse: Else)
    ensures var a := EvalExpr(c, fuel, st, env, cond);
            var r := EvalExpr(c, fuel, st, env, If(cond, thenB, elseB));
      && (a.res.Err? ==> r == a)
      && (a.res.Ok? && !Falsy(a.res.value) ==>
            && (var b := ExecBlock(c, fuel, a.st, a.env, thenB); r == Out(b.st, a.env, b.res))
            && EvalExpr(c, fuel, st, env, If(cond, thenB, otherElse)) == r)
      && (a.res.Ok? && Falsy(a.res.value) ==>
            && (elseB.Else? ==> var b := ExecBlock(c, fuel, a.st, a.env, elseB.block); r == Out(b.st, a.env, b.res))
            && (elseB.NoElse? ==> r == Out(a.st, a.env, Ok(VNone)))
            && EvalExpr(c, fuel, st, env, If(cond, otherThen, elseB)) == r)
  {
    var a := EvalExpr(c, fuel, st, env, cond);
    if a.res.Ok? { TruthyIff(a.res.value); }
  }

  predicate BlockDone(b: Out<Value>, r: Out<Done>) {
    r.st == b.st && r.env == b.env && r.res == if b.res.Ok? then Ok(Next) else Err(b.res.error)
  }

  lemma IfStmtIs(c: Ctx, fuel: nat, st: State, env: Env, cond: Expr, thenB: seq<Stmt>, elseB: Else)
    ensures var a := EvalExpr(c, fuel, st, env, cond);
            var r := ExecStmt(c, fuel, st, env, IfStmt(cond, thenB, elseB));
      && (a.res.Err? ==> r.st == a.st && r.env == a.env && r.res == Err(a.res.error))
      && (a.res.Ok? && !Falsy(a.res.value) ==> BlockDone(ExecBlock(c, fuel, a.st, a.env, thenB), r))
      && (a.res.Ok? && Falsy(a.res.value) && elseB.Else? ==>
            BlockDone(ExecBlock(c, fuel, a.st, a.env, elseB.block), r))
      && (a.res.Ok? && Falsy(a.res.value) && elseB.NoElse? ==> r == Out(a.st, a.env, Ok(Next)))
  {
    var a := EvalExpr(c, fuel, st, env, cond);
    if a.res.Ok? {
      TruthyIff(a.res.value);
      BranchDone(c, fuel, a.st, a.env, thenB);
      if elseB.Else? { BranchDone(c, fuel, a.st, a.env, elseB.block); }
    }
  }

  lemma BranchDone(c: Ctx, fuel: nat, st: State, env: Env, block: seq<Stmt>)
    ensures BlockDone(ExecBlock(c, fuel, st, env, block), ExecBranch(c, fuel, st, env, block))
  {
  }

  /** An `if` statement likewise, except that its block shares the environment and its value is dropped. */
  lemma IfStmtChooses(c: Ctx, fuel: nat, st: State, env: Env, cond: Expr, thenB: seq<Stmt>, elseB: Else,
                      otherThen: seq<Stmt>, otherElse: Else)
    ensures var a := EvalExpr(c, fuel, st, env, cond);
            var r := ExecStmt(c, fuel, st, env, IfStmt(cond, thenB, elseB));
      && (a.res.Err? ==> r.st == a.st && r.env == a.env && r.res == Err(a.res.error))
      && (a.res.Ok? && !Falsy(a.res.value) ==>
            && BlockDone(ExecBlock(c, fuel, a.st, a.env, thenB), r)
            && ExecStmt(c, fuel, st, env, IfStmt(cond, thenB, otherElse)) == r)
      && (a.res.Ok? && Falsy(a.res.value) ==>
            && (elseB.Else? ==> BlockDone(ExecBlock(c, fuel, a.st, a.env, elseB.block), r))
            && (elseB.NoElse? ==> r == Out(a.st, a.env, Ok(Next)))
            && ExecStmt(c, fuel, st, env, IfStmt(cond, otherThen, elseB)) == r)
  {
    IfStmtIs(c, fuel, st, env, cond, thenB, elseB);
    IfStmtIs(c, fuel, st, env, cond, thenB, otherElse);
    IfStmtIs(c, fuel, st, env, cond, otherThen, elseB);
  }

  /** The value a literal stands for. */
  predicate Denotes(k: Constant, v: Value) {
    match k
    case CInt(n) => v == VInt(n)
    case CFloat(x) => v == VFloat(x)
    case CStr(s) => v == VStr(s)
    case CBool(b) => v == VBool(b)
    case CNone => v == VNone
  }

  lemma LiteralValue(c: Ctx, fuel: nat, st: State, env: Env, k: Constant, v: Value)
    ensures EvalExpr(c, fuel, st, env, Lit(k)) == Out(st, env, Ok(v)) <==> Denotes(k, v)
  {
  }

  /** `_` and a name take any subject, a literal those equal to it. */
  ghost predicate Takes(h: Host, pat: Pattern, subject: Value) {
    pat.LiteralPat? ==> forall v | Denotes(pat.value, v) :: h.equal(v, subject)
  }

  ghost predicate FirstTaken(h: Host, arms: seq<Arm>, subject: Value, i: nat) {
    i < |arms| && Takes(h, arms[i].pat, subject) && forall j | 0 <= j < i :: !Takes(h, arms[j].pat, subject)
  }

  lemma TakesIff(h: Host, pat: Pattern, subject: Value)
    ensures Takes(h, pat, subject) <==> Matches(h, pat, subject)
  {
    if pat.LiteralPat? { assert Denotes(pat.value, ConstantValue(pat.value)); }
  }

  /** The environment an arm runs in. */
  function ArmEnv(env: Env, pat: Pattern, subject: Value): Env {
    match pat
    case BindPat(name) => env[name := subject]
    case WildcardPat => env
    case LiteralPat(_) => env
  }

  lemma {:induction false} ArmsChoose(c: Ctx, fuel: nat, st: State, env: Env, v: Value, arms: seq<Arm>, i: nat)
    requires FirstTaken(c.host, arms, v, i)
    ensures var b := EvalExpr(c, fuel, st, ArmEnv(env, arms[i].pat, v), arms[i].result);
            EvalArms(c, fuel, st, env, v, arms) == Out(b.st, env, b.res)
    decreases |arms|
  {
    TakesIff(c.host, arms[0].pat, v);
    if i > 0 {
      assert forall j | 0 <= j < i :: arms[1..][j] == arms[j + 1];
      ArmsChoose(c, fuel, st, env, v, arms[1..], i - 1);
    }
  }

  lemma {:induction false} NoArm(c: Ctx, fuel: nat, st: State, env: Env, v: Value, arms: seq<Arm>)
    requires forall j | 0 <= j < |arms| :: !Takes(c.host, arms[j].pat, v)
    ensures EvalArms(c, fuel, st, env, v, arms) == Out(st, env, Ok(VNone))
    decreases |arms|
  {
    if arms != [] {
      TakesIff(c.host, arms[0].pat, v);
      assert forall j | 0 <= j < |arms[1..]| :: arms[1..][j] == arms[j + 1];
      NoArm(c, fuel, st, env, v, arms[1..]);
    }
  }

  /** A `match`: the first arm that takes the subject runs, from the state after the subject, with the subject bound
      where the pattern is a name; the caller's environment stays as the subject left it.  No other arm makes a
      difference.  Where no arm takes it, the value is None. */
  lemma MatchChooses(c: Ctx, fuel: nat, st: State, env: Env, subject: Expr, arms: seq<Arm>)
    ensures var a := EvalExpr(c, fuel, st, env, subject);
            var r := EvalExpr(c, fuel, st, env, Match(subject, arms));
      && (a.res.Err? ==> r == a)
      && (a.res.Ok? ==> forall i: nat | FirstTaken(c.host, arms, a.res.value, i) ::
            var b := EvalExpr(c, fuel, a.st, ArmEnv(a.env, arms[i].pat, a.res.value), arms[i].result);
            r == Out(b.st, a.env, b.res))
      && (a.res.Ok? && (forall j | 0 <= j < |arms| :: !Takes(c.host, arms[j].pat, a.res.value)) ==>
            r == Out(a.st, a.env, Ok(VNone)))
  {
    var a := EvalExpr(c, fuel, st, env, subject);
    if a.res.Ok? {
      forall i: nat | FirstTaken(c.host, arms, a.res.value, i)
        ensures var b := EvalExpr(c, fuel, a.st, ArmEnv(a.env, arms[i].pat, a.res.value), arms[i].result);
                EvalArms(c, fuel, a.st, a.env, a.res.value, arms) == Out(b.st, a.env, b.res)
      {
        ArmsChoose(c, fuel, a.st, a.env, a.res.value, arms, i);
      }
      if forall j | 0 <= j < |arms| :: !Takes(c.host, arms[j].pat, a.res.value) {
        NoArm(c, fuel, a.st, a.env, a.res.value, arms);
      }
    }
  }

  // ---- names ----

  /** A name means the innermost of local, global and library function that there is, tags taken off; with none of them
      it raises. */
  lemma NameIs(c: Ctx, fuel: nat, st: State, env: Env, name: string, v: Value)
    ensures EvalExpr(c, fuel, st, env, Ident(name)) == Out(st, env, Ok(v)) <==>
              || (name in env && Inside(env[name], v) && !Tagged(v))
              || (name !in env && name in st.globals && Inside(st.globals[name], v) && !Tagged(v))
              || (name !in env && name !in st.globals && name in c.host.library && v == VLibrary(name))
    ensures EvalExpr(c, fuel, st, env, Ident(name)) == Out(st, env, Err(NameError(name))) <==>
              name !in env && name !in st.globals && name !in c.host.library
  {
    if name in env { UnwrapIff(env[name], v); }
    else if name in st.globals { UnwrapIff(st.globals[name], v); }
  }

  /** A trust reference keeps the tags, passes over a falsy local, and never raises. */
  lemma TrustIs(c: Ctx, fuel: nat, st: State, env: Env, name: string)
    ensures var r := EvalExpr(c, fuel, st, env, TrustRef(name));
      && r.st == st && r.env == env && r.res.Ok?
      && (name in env && !Falsy(env[name]) ==> r.res.value == env[name])
      && ((name !in env || Falsy(env[name])) && name in st.globals ==> r.res.value == st.globals[name])
      && ((name !in env || Falsy(env[name])) && name !in st.globals ==> r.res.value == VNone)
  {
    if name in env { TruthyIff(env[name]); }
  }

  /** What a type annotation makes of a value: only the four generic names tag, `Signal` and `Trust` only what is none
      yet; an argument without a name raises. */
  lemma TagTable(ty: TypeExpr, v: Value)
    ensures !ty.GenericType? ==> Tag(ty, v) == Ok(v)
    ensures ty.GenericType? && ty.name !in {"Lawful", "Governed", "Signal", "Trust"} ==> Tag(ty, v) == Ok(v)
    ensures ty.GenericType? && ty.name == "Signal" ==> Tag(ty, v) == Ok(if v.VSignal? then v else VSignal("anon", v))
    ensures ty.GenericType? && ty.name == "Trust" ==> Tag(ty, v) == Ok(if v.VTrust? then v else VTrust(v, "ENTITY"))
    ensures ty.GenericType? && ty.name == "Lawful" && ty.args == [] ==> Tag(ty, v) == Ok(VLawful(v, "Any"))
    ensures ty.GenericType? && ty.name == "Lawful" && ty.args != [] ==>
              && (forall n :: Tag(ty, v) == Ok(VLawful(v, n)) <==> Names(ty.args[0], n))
              && ((forall n :: !Names(ty.args[0], n)) ==> Tag(ty, v) == Err(AttributeError))
    ensures ty.GenericType? && ty.name == "Governed" && |ty.args| < 2 ==> Tag(ty, v) == Ok(VGoverned(v, "lawful"))
    ensures ty.GenericType? && ty.name == "Governed" && |ty.args| >= 2 ==>
              && (forall n :: Tag(ty, v) == Ok(VGoverned(v, n)) <==> Names(ty.args[1], n))
              && ((forall n :: !Names(ty.args[1], n)) ==> Tag(ty, v) == Err(AttributeError))
  {
    if ty.GenericType? && |ty.args| >= 1 { NamesIff(ty.args[0]); }
    if ty.GenericType? && |ty.args| >= 2 { NamesIff(ty.args[1]); }
  }

  /** The name a type node carries: that of a builtin, of a named or generic type, or of an authority level. */
  predicate Names(ty: TypeExpr, name: string) {
    match ty
    case BaseType(Named(n)) => name == n
    case GenericType(n, _) => name == n
    case BaseType(Builtin(b)) =>
      || (b == BoolType && name == "bool") || (b == IntType && name == "int") || (b == FloatType && name == "float")
      || (b == StrType && name == "str") || (b == VoidType && name == "void") || (b == AnyType && name == "any")
    case AuthLevelType(l) =>
      || (l == Pure && name == "pure") || (l == Lawful && name == "lawful") || (l == Reactive && name == "reactive")
      || (l == Sovereign && name == "sovereign")
    case TupleType(_) => false
    case FunctionType(_, _) => false
  }

  lemma NamesIff(ty: TypeExpr)
    ensures forall n :: Names(ty, n) <==> NameOfType(ty) == Some(n)
    ensures (forall n :: !Names(ty, n)) ==> NameOfType(ty) == None
  {
    if NameOfType(ty).Some? { assert Names(ty, NameOfType(ty).value); }
  }

  /** A binding gives the tagged value to the local name, and to the global one unless there is one already. */
  lemma BindSets(c: Ctx, fuel: nat, st: State, env: Env, name: string, ty: TypeExpr, x: Expr, v: Value)
    requires var a := EvalExpr(c, fuel, st, env, x); a.res.Ok? && Tag(ty, a.res.value) == Ok(v)
    ensures var a := EvalExpr(c, fuel, st, env, x);
            var r := ExecStmt(c, fuel, st, env, Bind(name, ty, x));
      && r.res == Ok(Next)
      && r.env.Keys == a.env.Keys + {name} && r.env[name] == v
      && (forall n | n in a.env && n != name :: r.env[n] == a.env[n])
      && r.st == a.st.(globals := r.st.globals)
      && r.st.globals.Keys == a.st.globals.Keys + {name}
      && (name !in a.st.globals ==> r.st.globals[name] == v)
      && forall n | n in a.st.globals :: r.st.globals[n] == a.st.globals[n]
  {
  }

  /** An anchor keeps a copy of the local environment, nothing else. */
  lemma AnchorKeeps(c: Ctx, fuel: nat, st: State, env: Env, x: Expr)
    requires EvalExpr(c, fuel, st, env, x).res.Ok?
    ensures var a := EvalExpr(c, fuel, st, env, x);
            var r := ExecStmt(c, fuel, st, env, Anchor(x));
      && r.res == Ok(Next) && r.env == a.env
      && r.st == a.st.(anchors := r.st.anchors)
      && |r.st.anchors| == |a.st.anchors| + 1 && r.st.anchors[|a.st.anchors|] == a.env
      && a.st.anchors <= r.st.anchors
  {
  }

  /** Going back puts every name of the last anchor at its anchored value, adds one event, and leaves the rest. */
  lemma RollbackRestores(c: Ctx, fuel: nat, st: State, env: Env, x: Expr)
    ensures var r := ExecStmt(c, fuel, st, env, Rollback(x));
      && r.res == Ok(Next) && r.env == env
      && r.st == st.(globals := r.st.globals, audit := st.audit + [RolledBack])
      && (st.anchors == [] ==> r.st.globals == st.globals)
      && (st.anchors != [] ==>
            var last := st.anchors[|st.anchors| - 1];
            && r.st.globals.Keys == st.globals.Keys + last.Keys
            && (forall n | n in last :: r.st.globals[n] == last[n])
            && forall n | n in st.globals && n !in last :: r.st.globals[n] == st.globals[n])
  {
  }

  /** A check as an expression is its value, or raises where that is falsy; no event is left, nothing rolled back. */
  lemma CheckRaises(c: Ctx, fuel: nat, st: State, env: Env, x: Expr, e: Expr)
    requires EvalExpr(c, fuel, st, env, x).res.Ok? && (e == EnforceExpr(x) || e == Assert(x))
    ensures var a := EvalExpr(c, fuel, st, env, x);
            EvalExpr(c, fuel, st, env, e) ==
              Out(a.st, a.env, if Falsy(a.res.value) then Err(EnforceFailed) else Ok(a.res.value))
  {
    TruthyIff(EvalExpr(c, fuel, st, env, x).res.value);
  }

  /** As a statement it leaves an event where it raises, and there is no rollback either. */
  lemma EnforceRaises(c: Ctx, fuel: nat, st: State, env: Env, x: Expr)
    requires EvalExpr(c, fuel, st, env, x).res.Ok?
    ensures var a := EvalExpr(c, fuel, st, env, x);
            ExecStmt(c, fuel, st, env, Enforce(x)) ==
              if Falsy(a.res.value) then Out(a.st.(audit := a.st.audit + [EnforceFail]), a.env, Err(EnforceFailed))
              else Out(a.st, a.env, Ok(Next))
  {
    TruthyIff(EvalExpr(c, fuel, st, env, x).res.value);
  }

  /** A `let` binds the tagged value in the local environment, and is that value. */
  lemma LetSets(c: Ctx, fuel: nat, st: State, env: Env, name: string, ty: TypeExpr, x: Expr, v: Value)
    requires var a := EvalExpr(c, fuel, st, env, x); a.res.Ok? && Tag(ty, a.res.value) == Ok(v)
    ensures var a := EvalExpr(c, fuel, st, env, x);
            var r := EvalExpr(c, fuel, st, env, Let(name, ty, x));
      && r.st == a.st && r.res == Ok(v)
      && r.env.Keys == a.env.Keys + {name} && r.env[name] == v
      && forall n | n in a.env && n != name :: r.env[n] == a.env[n]
  {
  }

  /** A qualified name is a reference that `map`, `filter` and calls take back to the function of that name. */
  lemma ScopeRefers(c: Ctx, fuel: nat, st: State, env: Env, t: Expr, name: string)
    ensures var q := if t.Ident? then t.name + "::" + name else name;
            EvalExpr(c, fuel, st, env, ScopeResolve(t, name)) ==
              Out(st, env, Ok(VTuple([VStr("__fnref__"), VStr(q)])))
  {
  }

  // ---- operands, in order ----

  /** Where the evaluation of a list stands after its first `k` elements. */
  datatype At = At(st: State, env: Env)

  /** Each element is evaluated where the one before it left off. */
  predicate InOrder(c: Ctx, fuel: nat, es: seq<Expr>, steps: seq<At>, vs: seq<Value>) {
    && |steps| == |vs| + 1
    && |vs| <= |es|
    && forall k | 0 <= k < |vs| ::
         EvalExpr(c, fuel, steps[k].st, steps[k].env, es[k]) == Out(steps[k + 1].st, steps[k + 1].env, Ok(vs[k]))
  }

  /** A list is evaluated left to right, up to the first element that raises. */
  lemma {:induction false} ListInOrder(c: Ctx, fuel: nat, st: State, env: Env, es: seq<Expr>)
    returns (steps: seq<At>, vs: seq<Value>)
    ensures InOrder(c, fuel, es, steps, vs) && steps[0] == At(st, env)
    ensures var r, last := EvalList(c, fuel, st, env, es), steps[|vs|];
            if |vs| == |es| then r == Out(last.st, last.env, Ok(vs))
            else var bad := EvalExpr(c, fuel, last.st, last.env, es[|vs|]);
                 bad.res.Err? && r == Out(bad.st, bad.env, Err(bad.res.error))
    decreases |es|
  {
    steps, vs := [At(st, env)], [];
    if es != [] {
      var a := EvalExpr(c, fuel, st, env, es[0]);
      if a.res.Ok? {
        var steps1, vs1 := ListInOrder(c, fuel, a.st, a.env, es[1..]);
        steps, vs := [At(st, env)] + steps1, [a.res.value] + vs1;
      }
    }
  }

  function Values(fs: seq<Field>): seq<Expr> {
    seq(|fs|, k requires 0 <= k < |fs| => fs[k].value)
  }

  /** A record literal evaluates its fields like a list and keeps their names. */
  lemma {:induction false} FieldsInOrder(c: Ctx, fuel: nat, st: State, env: Env, fs: seq<Field>)
    ensures var r, list := EvalFields(c, fuel, st, env, fs), EvalList(c, fuel, st, env, Values(fs));
      && r.st == list.st && r.env == list.env && (r.res.Err? <==> list.res.Err?)
      && (r.res.Err? ==> r.res.error == list.res.error)
      && (r.res.Ok? ==>
            && |r.res.value| == |fs| == |list.res.value|
            && forall k | 0 <= k < |fs| :: r.res.value[k] == Slot(fs[k].name, list.res.value[k]))
    decreases |fs|
  {
    if fs != [] {
      assert Values(fs)[1..] == Values(fs[1..]);
      var a := EvalExpr(c, fuel, st, env, fs[0].value);
      FieldsInOrder(c, fuel, a.st, a.env, fs[1..]);
    }
  }

  // ---- calls ----

  ghost predicate FrameKeys(g: Env, names: seq<string>, frame: Env) {
    && (forall name :: name in frame <==> name in g || name in names)
    && forall name | name in g && name !in names :: frame[name] == g[name]
  }

  predicate FrameValues(names: seq<string>, args: seq<Value>, frame: Env)
    requires |names| == |args|
  {
    forall k | 0 <= k < |names| && (forall j | k < j < |names| :: names[j] != names[k]) ::
      names[k] in frame && frame[names[k]] == args[k]
  }

  /** The arguments stand in a copy of the globals under the parameters' names, the last one where a name repeats. */
  ghost predicate FrameOver(g: Env, names: seq<string>, args: seq<Value>, frame: Env) {
    |names| == |args| && FrameKeys(g, names, frame) && FrameValues(names, args, frame)
  }

  /** Arguments or parameters left over are ignored. */
  ghost predicate FrameOf(g: Env, params: seq<string>, args: seq<Value>, frame: Env) {
    var n := if |params| < |args| then |params| else |args|;
    FrameOver(g, params[..n], args[..n], frame)
  }

  lemma {:induction false} FrameIs(g: Env, names: seq<string>, args: seq<Value>)
    requires |names| == |args|
    ensures FrameOver(g, names, args, BindParams(g, names, args))
    decreases |names|
  {
    if names != [] {
      var g1 := g[names[0] := args[0]];
      FrameIs(g1, names[1..], args[1..]);
      FrameStep(g, names, args, BindParams(g1, names[1..], args[1..]));
    }
  }

  lemma FrameStep(g: Env, names: seq<string>, args: seq<Value>, frame: Env)
    requires |names| == |args| > 0
    requires FrameOver(g[names[0] := args[0]], names[1..], args[1..], frame)
    ensures FrameOver(g, names, args, frame)
  {
    assert names == [names[0]] + names[1..];
    forall k | 0 <= k < |names| && (forall j | k < j < |names| :: names[j] != names[k])
      ensures names[k] in frame && frame[names[k]] == args[k]
    {
      var rest := names[1..];
      assert forall j | 0 <= j < |rest| :: rest[j] == names[j + 1];
      if k > 0 { assert rest[k - 1] == names[k]; }
    }
  }

  lemma {:induction false} BindTrims(g: Env, params: seq<string>, args: seq<Value>, n: nat)
    requires n == if |params| < |args| then |params| else |args|
    ensures BindParams(g, params, args) == BindParams(g, params[..n], args[..n])
    decreases n
  {
    if n > 0 {
      assert params[..n][1..] == params[1..][..n - 1] && args[..n][1..] == args[1..][..n - 1];
      BindTrims(g[params[0] := args[0]], params[1..], args[1..], n - 1);
    }
  }

  const PURE := SymKind(LevelKw(Pure))
  const REACTIVE := SymKind(LevelKw(Reactive))
  const SOVEREIGN := SymKind(LevelKw(Sovereign))

  /** pure < lawful < reactive < sovereign, and every other annotation counts as lawful. */
  predicate Above(a: Kind, b: Kind) {
    || (a == SOVEREIGN && b != SOVEREIGN)
    || (a == REACTIVE && b != REACTIVE && b != SOVEREIGN)
    || (a != PURE && a != REACTIVE && a != SOVEREIGN && b == PURE)
  }

  lemma AboveIff(a: Kind, b: Kind)
    ensures Above(a, b) <==> Rank(a) > Rank(b)
  {
  }

  /** The state a body starts in: at the function's authority, with an escalation noted exactly where that is above the
      caller's, and the call in the history. */
  function Called(st: State, q: string, authority: Kind): State {
    st.(authority := authority,
        active := st.active + [q],
        audit := st.audit +
            (if Above(authority, st.authority) then [AuthorityEscalation(st.authority, authority)] else []),
        trace := st.trace + [Enter(st.authority, st.active, q)])
  }

  /** A call runs the body in the callee's own frame, one interpreter frame down, and gives its result; the caller keeps
      its environment, its authority and its place. */
  lemma CallRuns(c: Ctx, fuel: nat, st: State, env: Env, q: string, args: seq<Value>) returns (frame: Env)
    requires fuel > 0 && q in c.functions
    ensures FrameOf(st.globals, c.functions[q].params, args, frame)
    ensures var f := c.functions[q];
            var b := ExecBlock(c, fuel - 1, Called(st, q, f.authority), frame, f.body);
            RunFunction(c, fuel, st, env, q, args) ==
              Out(b.st.(authority := st.authority, active := st.active), env, b.res)
  {
    var f := c.functions[q];
    var n := if |f.params| < |args| then |f.params| else |args|;
    frame := BindParams(st.globals, f.params, args);
    BindTrims(st.globals, f.params, args, n);
    FrameIs(st.globals, f.params[..n], args[..n]);
    AboveIff(f.authority, st.authority);
    assert EnterFunction(st, q, f.authority) == Called(st, q, f.authority);
  }

  /** The node has a `name` attribute. */
  predicate HasName(e: Expr) { e.Ident? || e.Let? || e.TrustRef? || e.ScopeResolve? }

  /** What a callee may be: a library function before a function of the program; a qualified name is a program function
      even where the library has the name; a member call does nothing. */
  lemma CalleeIs(c: Ctx, fuel: nat, st: State, env: Env, target: Expr, args: seq<Value>)
    ensures var r := Invoke(c, fuel, st, env, target, args);
      && (target.Ident? && target.name in c.host.library ==> r == CallLibrary(c, fuel, st, env, target.name, args))
      && (target.Ident? && target.name !in c.host.library && target.name in c.functions ==>
            r == RunFunction(c, fuel, st, env, target.name, args))
      && (target.Ident? && target.name !in c.host.library && target.name !in c.functions ==>
            r == Out(st, env, Err(NameError(target.name))))
      && (target.ScopeResolve? && HasName(target.target) ==>
            r == RunFunction(c, fuel, st, env, target.target.name + "::" + target.name, args))
      && (target.ScopeResolve? && !HasName(target.target) ==> r == Out(st, env, Err(AttributeError)))
      && (target.Member? ==> r == Out(st, env, Ok(VNone)))
      && (!target.Ident? && !target.ScopeResolve? && !target.Member? ==> r.st == st && r.env == env && r.res.Err?)
  {
  }

  /** A pipe is a call with one argument. */
  lemma {:induction false} PipeIsCall(c: Ctx, fuel: nat, st: State, env: Env, l: Expr, target: Expr)
    ensures EvalExpr(c, fuel, st, env, Pipe(l, target)) == EvalExpr(c, fuel, st, env, Call(target, [l]))
  {
    var a := EvalExpr(c, fuel, st, env, l);
    assert [l][1..] == [];
    if a.res.Ok? {
      assert EvalList(c, fuel, a.st, a.env, []) == Out(a.st, a.env, Ok([]));
      assert [a.res.value] + [] == [a.res.value];
    }
  }

  /** A call goes no further without a frame left or a function of that name. */
  lemma CallFails(c: Ctx, fuel: nat, st: State, env: Env, q: string, args: seq<Value>)
    ensures var r := RunFunction(c, fuel, st, env, q, args);
      && (fuel == 0 ==> r == Out(st, env, Err(RecursionError)))
      && (fuel > 0 && q !in c.functions ==> r == Out(st, env, Err(NameError(q))))
  {
  }

  /** Every other library function is Python's: it is told how many calls came before, its answer or exception is the
      call's, and its events are appended in order. */
  lemma LibraryCalled(c: Ctx, fuel: nat, st: State, env: Env, name: string, args: seq<Value>)
    requires name !in {"rollback", "map", "filter"}
    ensures var r, answer := CallLibrary(c, fuel, st, env, name, args), c.host.call(st.calls, name, args);
      && r.env == env && FromPython(r.res, answer.0)
      && r.st == st.(calls := st.calls + 1, audit := r.st.audit)
      && |r.st.audit| == |st.audit| + |answer.1| && st.audit <= r.st.audit
      && forall k | 0 <= k < |answer.1| :: r.st.audit[|st.audit| + k] == LibraryEvent(answer.1[k])
  {
  }

  /** `map` and `filter` over a signal run the referenced function once, on the signal's value; the one sends its result
      on, the other the signal itself or None. */
  lemma SignalCallbacks(c: Ctx, fuel: nat, st: State, env: Env, name: string, signal: string, v: Value, q: string)
    requires name in {"map", "filter"}
    ensures var r := CallLibrary(c, fuel, st, env, name, [VSignal(signal, v), VTuple([VStr("__fnref__"), VStr(q)])]);
            var b := RunFunction(c, fuel, st, env, q, [v]);
      && r.st == b.st && r.env == b.env
      && (b.res.Err? ==> r.res == Err(b.res.error))
      && (b.res.Ok? && name == "map" ==> r.res == Ok(VSignal(signal, b.res.value)))
      && (b.res.Ok? && name == "filter" ==>
            r.res == Ok(VSignal(signal, if Falsy(b.res.value) then VNone else v)))
  {
    var b := RunFunction(c, fuel, st, env, q, [v]);
    if b.res.Ok? { TruthyIff(b.res.value); }
  }

  /** With anything else than a reference to a function they have None for its result; with anything else than a signal,
      or another number of arguments, they raise. */
  lemma OtherCallbacks(c: Ctx, fuel: nat, st: State, env: Env, name: string, args: seq<Value>)
    requires name in {"map", "filter"}
    ensures var r := CallLibrary(c, fuel, st, env, name, args);
      && (|args| != 2 ==> r == Out(st, env, Err(TypeError)))
      && (|args| == 2 && !args[0].VSignal? ==> r == Out(st, env, Err(AttributeError)))
      && (|args| == 2 && args[0].VSignal? && !Refers(args[1]) ==>
            r == Out(st, env, Ok(VSignal(args[0].name, VNone))))
  {
  }

  /** A tuple that begins like a reference to a function. */
  predicate Refers(v: Value) { v.VTuple? && v.items != [] && v.items[0] == VStr("__fnref__") }

  /** `rollback()` as a call does what the statement does. */
  lemma RollbackCalled(c: Ctx, fuel: nat, st: State, env: Env, args: seq<Value>, x: Expr)
    requires |args| <= 1
    ensures var r, s := CallLibrary(c, fuel, st, env, "rollback", args), ExecStmt(c, fuel, st, env, Rollback(x));
            r.st == s.st && r.env == s.env && r.res == Ok(VNone)
  {
  }

  // ---- signals ----

  /** The state in which an observer's block starts. */
  function Notified(st: State, signal: string, o: Observer): State {
    st.(audit := st.audit + [SignalDeliver(signal, o.binding)])
  }

  /** One observer's block: in a copy of the globals of its moment, with the value under the observer's name. */
  function Observed(c: Ctx, fuel: nat, st: State, signal: string, v: Value, o: Observer): Out<Value> {
    ExecBlock(c, fuel, Notified(st, signal, o), st.globals[o.binding := v], o.body)
  }

  /** The observer's block ends without an exception, in state `next`. */
  predicate Passed(c: Ctx, fuel: nat, st: State, signal: string, v: Value, o: Observer, next: State) {
    var b := Observed(c, fuel, st, signal, v, o); b.res.Ok? && b.st == next
  }

  /** The blocks of the first observers ran one after another, each from the state the one before it left. */
  predicate Delivered(c: Ctx, fuel: nat, signal: string, v: Value, obs: seq<Observer>, states: seq<State>) {
    && 0 < |states| <= |obs| + 1
    && forall k | 0 <= k < |states| - 1 :: Passed(c, fuel, states[k], signal, v, obs[k], states[k + 1])
  }

  lemma {:induction false} DeliverInOrder(c: Ctx, fuel: nat, st: State, env: Env, signal: string, v: Value,
                                          obs: seq<Observer>) returns (states: seq<State>)
    requires fuel > 0
    ensures Delivered(c, fuel - 1, signal, v, obs, states) && states[0] == st
    ensures var r, last := Deliver(c, fuel, st, env, signal, v, obs), states[|states| - 1];
            r.env == env &&
            if |states| == |obs| + 1 then r.st == last && r.res == Ok(Next)
            else var bad := Observed(c, fuel - 1, last, signal, v, obs[|states| - 1]);
                 bad.res.Err? && r.st == bad.st && r.res == Err(bad.res.error)
    decreases |obs|
  {
    states := [st];
    if obs != [] {
      var b := Observed(c, fuel - 1, st, signal, v, obs[0]);
      if b.res.Ok? {
        var rest := DeliverInOrder(c, fuel, b.st, env, signal, v, obs[1..]);
        states := [st] + rest;
        forall k | 0 <= k < |states| - 1
          ensures Passed(c, fuel - 1, states[k], signal, v, obs[k], states[k + 1])
        {
          if k > 0 {
            assert obs[k] == obs[1..][k - 1] && states[k] == rest[k - 1] && states[k + 1] == rest[k];
          }
        }
      }
    }
  }

  /** An `emit`: the value, then the event, then every observer of that signal in the order of registration, up to the
      first one that raises; the emitter's environment is as the value left it. */
  lemma EmitDelivers(c: Ctx, fuel: nat, st: State, env: Env, signal: string, x: Expr) returns (states: seq<State>)
    requires fuel > 0 && EvalExpr(c, fuel, st, env, x).res.Ok?
    ensures var a := EvalExpr(c, fuel, st, env, x);
            var r := ExecStmt(c, fuel, st, env, Emit(signal, x));
            var obs := if signal in c.observers then c.observers[signal] else [];
      && Delivered(c, fuel - 1, signal, a.res.value, obs, states)
      && states[0] == a.st.(audit := a.st.audit + [SignalEmit(signal, a.res.value)])
      && r.env == a.env
      && var last := states[|states| - 1];
         if |states| == |obs| + 1 then r.st == last && r.res == Ok(Next)
         else var bad := Observed(c, fuel - 1, last, signal, a.res.value, obs[|states| - 1]);
              bad.res.Err? && r.st == bad.st && r.res == Err(bad.res.error)
  {
    var a := EvalExpr(c, fuel, st, env, x);
    var obs := if signal in c.observers then c.observers[signal] else [];
    states := DeliverInOrder(c, fuel, Audit(a.st, SignalEmit(signal, a.res.value)), a.env, signal, a.res.value, obs);
  }

  // ---- rounds of checks ----

  /** What one clause does to a round: an `always` clause that evaluates to exactly False and a `never` clause that
      evaluates to exactly True are violations; an exception in a clause counts as neither. */
  predicate Violated(c: Ctx, fuel: nat, at: At, clause: Clause) {
    match clause.inv
    case Always(x) => EvalExpr(c, fuel, at.st, at.env, x).res == Ok(VBool(false))
    case Never(x) => EvalExpr(c, fuel, at.st, at.env, x).res == Ok(VBool(true))
    case WhenThen(_, _) => false
  }

  /** A violation is noted with its article; then the last anchor, where there is one, is restored; then it raises. */
  lemma ViolationNoted(c: Ctx, fuel: nat, at: At, clause: Clause)
    ensures Violated(c, fuel, at, clause) ==>
              var x := clause.inv.expr;
              var a, r := EvalExpr(c, fuel, at.st, at.env, x), CheckClause(c, fuel, at.st, at.env, clause);
              var noted := a.st.(audit := a.st.audit + [GovernanceViolation(clause.article)]);
              && r.res == Err(InvariantViolated) && r.env == a.env
              && r.st == (if a.st.anchors == [] then noted else ExecStmt(c, fuel, noted, a.env, Rollback(x)).st)
    ensures !Violated(c, fuel, at, clause) && !clause.inv.WhenThen? ==>
              var a := EvalExpr(c, fuel, at.st, at.env, clause.inv.expr);
              CheckClause(c, fuel, at.st, at.env, clause) == Out(a.st, a.env, Ok(()))
  {
  }

  /** The response of a when/then clause runs exactly where its trigger evaluates to True, and what it raises ends the
      round. */
  lemma ResponseRuns(c: Ctx, fuel: nat, at: At, clause: Clause)
    requires clause.inv.WhenThen?
    ensures var a := EvalExpr(c, fuel, at.st, at.env, clause.inv.trigger);
            var r := CheckClause(c, fuel, at.st, at.env, clause);
      && (a.res != Ok(VBool(true)) ==> r == Out(a.st, a.env, Ok(())))
      && (a.res == Ok(VBool(true)) ==>
            var b := EvalExpr(c, fuel, a.st, a.env, clause.inv.response);
            r.st == b.st && r.env == b.env && r.res == if b.res.Ok? then Ok(()) else Err(b.res.error))
  {
  }

  /** The first clauses were checked one after another, each from where the one before it left off. */
  predicate Checked(c: Ctx, fuel: nat, clauses: seq<Clause>, steps: seq<At>) {
    && 0 < |steps| <= |clauses| + 1
    && forall k | 0 <= k < |steps| - 1 ::
         CheckClause(c, fuel, steps[k].st, steps[k].env, clauses[k]) == Out(steps[k + 1].st, steps[k + 1].env, Ok(()))
  }

  lemma {:induction false} ClausesInOrder(c: Ctx, fuel: nat, st: State, env: Env, clauses: seq<Clause>)
    returns (steps: seq<At>)
    ensures Checked(c, fuel, clauses, steps) && steps[0] == At(st, env)
    ensures var r, last := CheckClauses(c, fuel, st, env, clauses), steps[|steps| - 1];
            if |steps| == |clauses| + 1 then r == Out(last.st, last.env, Ok(()))
            else r == CheckClause(c, fuel, last.st, last.env, clauses[|steps| - 1]) && r.res.Err?
    decreases |clauses|
  {
    steps := [At(st, env)];
    if clauses != [] {
      var a := CheckClause(c, fuel, st, env, clauses[0]);
      if a.res.Ok? {
        var rest := ClausesInOrder(c, fuel, a.st, a.env, clauses[1..]);
        steps := [At(st, env)] + rest;
        forall k | 0 <= k < |steps| - 1
          ensures CheckClause(c, fuel, steps[k].st, steps[k].env, clauses[k]) ==
                    Out(steps[k + 1].st, steps[k + 1].env, Ok(()))
        {
          if k > 0 {
            assert clauses[k] == clauses[1..][k - 1] && steps[k] == rest[k - 1] && steps[k + 1] == rest[k];
          }
        }
      }
    }
  }

  /** A round of checks goes through all clauses like that, one interpreter frame down. */
  lemma RoundInOrder(c: Ctx, fuel: nat, st: State, env: Env) returns (steps: seq<At>)
    requires fuel > 0
    ensures Checked(c, fuel - 1, c.clauses, steps) && steps[0] == At(st, env)
    ensures var r, last := CheckAll(c, fuel, st, env), steps[|steps| - 1];
            if |steps| == |c.clauses| + 1 then r == Out(last.st, last.env, Ok(()))
            else r == CheckClause(c, fuel - 1, last.st, last.env, c.clauses[|steps| - 1]) && r.res.Err?
  {
    steps := ClausesInOrder(c, fuel - 1, st, env, c.clauses);
  }

  // ---- blocks ----

  /** The round of checks behind a statement that has been carried out, its end noted in the history first. */
  function Behind(c: Ctx, fuel: nat, a: Out<Done>): Out<()> {
    var noted := a.st.(trace := a.st.trace + [Point(a.env, a.st.globals, a.st.authority, a.st.active)]);
    CheckAll(c, fuel, noted, a.env)
  }

  /** The statement returns nothing and the checks behind it pass. */
  predicate GoesOn(c: Ctx, fuel: nat, at: At, s: Stmt, next: At) {
    var a := ExecStmt(c, fuel, at.st, at.env, s);
    var k := Behind(c, fuel, a);
    a.res == Ok(Next) && k.res.Ok? && next == At(k.st, k.env)
  }

  /** The first statements ran one after another, each from where the checks behind the one before it left off. */
  predicate Went(c: Ctx, fuel: nat, stmts: seq<Stmt>, steps: seq<At>) {
    && 0 < |steps| <= |stmts| + 1
    && forall k | 0 <= k < |steps| - 1 :: GoesOn(c, fuel, steps[k], stmts[k], steps[k + 1])
  }

  /** How a block ends at a statement that does not go on: it raises, or its checks do, or it returns. */
  predicate EndsWith(c: Ctx, fuel: nat, at: At, s: Stmt, r: Out<Value>) {
    var a := ExecStmt(c, fuel, at.st, at.env, s);
    if a.res.Err? then r.st == a.st && r.env == a.env && r.res == Err(a.res.error)
    else
      var k := Behind(c, fuel, a);
      && r.st == k.st && r.env == k.env
      && if k.res.Err? then r.res == Err(k.res.error) else a.res.value.Returned? && r.res == Ok(a.res.value.value)
  }

  /** A block runs its statements in order, with a round of checks behind each, up to the first that raises, breaks a
      clause or returns; its value is what a `return` gives, else None. */
  lemma {:induction false} BlockInOrder(c: Ctx, fuel: nat, st: State, env: Env, stmts: seq<Stmt>)
    returns (steps: seq<At>)
    ensures Went(c, fuel, stmts, steps) && steps[0] == At(st, env)
    ensures var r, last := ExecBlock(c, fuel, st, env, stmts), steps[|steps| - 1];
            if |steps| == |stmts| + 1 then r == Out(last.st, last.env, Ok(VNone))
            else EndsWith(c, fuel, last, stmts[|steps| - 1], r)
    decreases |stmts|
  {
    steps := [At(st, env)];
    if stmts != [] {
      BlockStep(c, fuel, st, env, stmts);
      var a := ExecStmt(c, fuel, st, env, stmts[0]);
      if a.res == Ok(Next) && Behind(c, fuel, a).res.Ok? {
        var k := Behind(c, fuel, a);
        var rest := BlockInOrder(c, fuel, k.st, k.env, stmts[1..]);
        steps := [At(st, env)] + rest;
        forall k | 0 <= k < |steps| - 1
          ensures GoesOn(c, fuel, steps[k], stmts[k], steps[k + 1])
        {
          assert steps[k + 1] == rest[k];
          if k > 0 { assert stmts[k] == stmts[1..][k - 1] && steps[k] == rest[k - 1]; }
        }
      }
    }
  }

  lemma BlockStep(c: Ctx, fuel: nat, st: State, env: Env, stmts: seq<Stmt>)
    requires stmts != []
    ensures var a := ExecStmt(c, fuel, st, env, stmts[0]);
            var k, r := Behind(c, fuel, a), ExecBlock(c, fuel, st, env, stmts);
            if a.res == Ok(Next) && k.res.Ok? then r == ExecBlock(c, fuel, k.st, k.env, stmts[1..])
            else EndsWith(c, fuel, At(st, env), stmts[0], r)
  {
    var a := ExecStmt(c, fuel, st, env, stmts[0]);
    assert Behind(c, fuel, a) == CheckAll(c, fuel, Mark(a.st, a.env), a.env);
  }
}
