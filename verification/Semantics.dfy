/** The tree-walking interpreter: runtime values, and the meaning of expressions, statements,
    function calls, signals and invariant checks as functions from state to state.

    Python's own operators and the library functions that neither run ULX code nor touch globals or
    anchors are parameters (`Host`): every theorem holds whatever they compute.  `fuel` is the number
    of interpreter frames left: a function call, the delivery of a signal and a round of invariant
    checks take one each, and running out raises RecursionError, an exception like any other. */
module Semantics {
  import opened Wrappers
  import opened Ast

  datatype Value =
    | VNone | VBool(b: bool) | VInt(i: int) | VFloat(r: real) | VStr(s: string)
    | VTuple(items: seq<Value>)
    | VRecord(typeName: string, fields: seq<Slot>)
    | VLawful(inner: Value, ty: string)
    | VGoverned(inner: Value, auth: string)
    | VSignal(name: string, inner: Value)
    | VTrust(entity: Value, scope: string)
    | VLibrary(name: string)
    | VHost(id: int, truth: bool)

  datatype Slot = Slot(name: string, value: Value)

  type Env = map<string, Value>

  datatype Failure =
    | NameError(name: string)
    | AttributeError
    | IndexError
    | TypeError
    | RecursionError
    | EnforceFailed
    | InvariantViolated
    | HostError(code: int)

  datatype Result<+T> = Ok(value: T) | Err(error: Failure) {
    predicate IsFailure() { Err? }
    function PropagateFailure<U>(): Result<U> requires Err? { Err(error) }
    function Extract(): T requires Ok? { value }
  }

  datatype Event =
    | AuthorityEscalation(from: Kind, to: Kind)
    | EnforceFail
    | RolledBack
    | GovernanceViolation(article: string)
    | SignalEmit(signal: string, value: Value)
    | SignalDeliver(signal: string, binding: string)
    | LibraryEvent(code: int)

  /** What Python computes, or an exception of its own. */
  datatype HostResult = Computed(value: Value) | Raised(code: int)

  function FromHost(r: HostResult): Result<Value> {
    if r.Computed? then Ok(r.value) else Err(HostError(r.code))
  }

  /** Python's operators, and the library functions defined outside the language.  A library call is told how many came
      before it, so that what a clock or a ledger answers may differ from call to call. */
  datatype Host = Host(
    equal: (Value, Value) -> bool,
    order: (BinaryOp, Value, Value) -> HostResult,
    arith: (BinaryOp, Value, Value) -> HostResult,
    negate: Value -> HostResult,
    dictGet: (Value, string) -> Value,
    library: set<string>,
    call: (nat, string, seq<Value>) -> (HostResult, seq<int>)
  )

  /** A function of the program with the authority it runs at: its own, else its module's. */
  datatype FnEntry = FnEntry(params: seq<string>, authority: Kind, body: seq<Stmt>)

  datatype Observer = Observer(binding: string, body: seq<Stmt>)

  datatype Clause = Clause(article: string, inv: Invariant)

  /** What loading fixes for the whole run. */
  datatype Ctx = Ctx(
    host: Host, functions: map<string, FnEntry>, clauses: seq<Clause>, observers: map<string, seq<Observer>>
  )

  /** History of a run, kept for stating theorems: the state after each executed statement, and each call. */
  datatype Step =
    | Point(env: Env, globals: Env, authority: Kind, active: seq<string>)
    | Enter(authority: Kind, active: seq<string>, callee: string)

  /** The interpreter's fields; `calls` (how many library calls were made), `active` (the functions being run, innermost
      last) and `trace` are history. */
  datatype State = State(
    globals: Env,
    anchors: seq<Env>,
    audit: seq<Event>,
    authority: Kind,
    calls: nat,
    active: seq<string>,
    trace: seq<Step>
  )

  datatype Out<+T> = Out(st: State, env: Env, res: Result<T>) {
    predicate IsFailure() { res.Err? }
    function PropagateFailure<U>(): Out<U> requires res.Err? { Out(st, env, Err(res.error)) }
    function Extract(): (State, Env, T) requires res.Ok? { (st, env, res.value) }
  }

  // ---- values ----

  function Rank(level: Kind): nat {
    match level
    case SymKind(LevelKw(Pure)) => 0
    case SymKind(LevelKw(Reactive)) => 2
    case SymKind(LevelKw(Sovereign)) => 3
    case _ => 1
  }

  function ConstantValue(c: Constant): Value {
    match c
    case CInt(n) => VInt(n)
    case CFloat(x) => VFloat(x)
    case CStr(s) => VStr(s)
    case CBool(b) => VBool(b)
    case CNone => VNone
  }

  function Truthy(v: Value): bool {
    match v
    case VNone => false
    case VBool(b) => b
    case VInt(i) => i != 0
    case VFloat(r) => r != 0.0
    case VStr(s) => s != ""
    case VTuple(items) => items != []
    case VHost(_, truth) => truth
    case _ => true
  }

  function Unwrap(v: Value): Value {
    if v.VLawful? || v.VGoverned? then Unwrap(v.inner) else v
  }

  function SlotGet(slots: seq<Slot>, name: string): Value {
    if slots == [] then VNone
    else if slots[0].name == name then slots[0].value
    else SlotGet(slots[1..], name)
  }

  function GetField(h: Host, target: Value, field: string): Value {
    match Unwrap(target)
    case VSignal(_, inner) => if field == "value" then inner else VNone
    case VTrust(entity, _) => if field == "entity" then entity else VNone
    case VRecord(_, slots) => SlotGet(slots, field)
    case VHost(id, truth) => h.dictGet(VHost(id, truth), field)
    case _ => VNone
  }

  /** `_binop`: both operands are already evaluated, so `&&` and `||` do not short-circuit. */
  function Binop(h: Host, op: BinaryOp, left: Value, right: Value): Result<Value> {
    var l, r := Unwrap(left), Unwrap(right);
    match op
    case Eq => Ok(VBool(h.equal(l, r)))
    case Ne => Ok(VBool(!h.equal(l, r)))
    case And => Ok(VBool(Truthy(l) && Truthy(r)))
    case Or => Ok(VBool(Truthy(l) || Truthy(r)))
    case Gt => if l == VNone || r == VNone then Ok(VBool(false)) else FromHost(h.order(op, l, r))
    case Lt => if l == VNone || r == VNone then Ok(VBool(false)) else FromHost(h.order(op, l, r))
    case Ge => if l == VNone || r == VNone then Ok(VBool(false)) else FromHost(h.order(op, l, r))
    case Le => if l == VNone || r == VNone then Ok(VBool(false)) else FromHost(h.order(op, l, r))
    case _ => FromHost(h.arith(op, l, r))
  }

  function Unop(h: Host, op: UnaryOp, v: Value): Result<Value> {
    if op.Not? then Ok(VBool(!Truthy(v))) else FromHost(h.negate(v))
  }

  function LevelName(l: Level): string {
    match l
    case Pure => "pure"
    case Lawful => "lawful"
    case Reactive => "reactive"
    case Sovereign => "sovereign"
  }

  function BuiltinName(b: Builtin): string {
    match b
    case BoolType => "bool"
    case IntType => "int"
    case FloatType => "float"
    case StrType => "str"
    case VoidType => "void"
    case AnyType => "any"
  }

  /** The `name` attribute of a type node; tuple and function types have none. */
  function NameOfType(t: TypeExpr): Option<string> {
    match t
    case BaseType(Builtin(b)) => Some(BuiltinName(b))
    case BaseType(Named(n)) => Some(n)
    case GenericType(n, _) => Some(n)
    case AuthLevelType(l) => Some(LevelName(l))
    case _ => None
  }

  /** `_tag_value`. */
  function Tag(t: TypeExpr, v: Value): Result<Value> {
    if !t.GenericType? then Ok(v)
    else if t.name == "Lawful" then
      if t.args == [] then Ok(VLawful(v, "Any"))
      else if NameOfType(t.args[0]).Some? then Ok(VLawful(v, NameOfType(t.args[0]).value))
      else Err(AttributeError)
    else if t.name == "Governed" then
      if |t.args| <= 1 then Ok(VGoverned(v, "lawful"))
      else if NameOfType(t.args[1]).Some? then Ok(VGoverned(v, NameOfType(t.args[1]).value))
      else Err(AttributeError)
    else if t.name == "Signal" then Ok(if v.VSignal? then v else VSignal("anon", v))
    else if t.name == "Trust" then Ok(if v.VTrust? then v else VTrust(v, "ENTITY"))
    else Ok(v)
  }

  /** A name is looked up in the local environment, then the globals, then the library. */
  function Lookup(h: Host, globals: Env, env: Env, name: string): Result<Value> {
    if name in env then Ok(Unwrap(env[name]))
    else if name in globals then Ok(Unwrap(globals[name]))
    else if name in h.library then Ok(VLibrary(name))
    else Err(NameError(name))
  }

  /** `env.get(name) or globals.get(name)`: no unwrapping, and a falsy local falls through. */
  function TrustLookup(globals: Env, env: Env, name: string): Value {
    if name in env && Truthy(env[name]) then env[name]
    else if name in globals then globals[name]
    else VNone
  }

  const FNREF := "__fnref__"

  function FnRef(qualified: string): Value { VTuple([VStr(FNREF), VStr(qualified)]) }

  /** The `name` attribute of an expression node. */
  function NodeName(e: Expr): Option<string> {
    match e
    case Ident(n) => Some(n)
    case Let(n, _, _) => Some(n)
    case TrustRef(n) => Some(n)
    case ScopeResolve(_, n) => Some(n)
    case _ => None
  }

  function Qualified(e: Expr): string
    requires e.ScopeResolve?
  {
    if e.target.Ident? then e.target.name + "::" + e.name else e.name
  }

  // ---- effects on the state ----

  function Audit(st: State, e: Event): State { st.(audit := st.audit + [e]) }

  function LibraryEvents(codes: seq<int>): seq<Event> {
    seq(|codes|, k requires 0 <= k < |codes| => LibraryEvent(codes[k]))
  }

  function AfterCall(st: State, codes: seq<int>): State {
    st.(audit := st.audit + LibraryEvents(codes), calls := st.calls + 1)
  }

  function SetDefault(g: Env, name: string, v: Value): Env {
    if name in g then g else g[name := v]
  }

  function PushAnchor(st: State, env: Env): State { st.(anchors := st.anchors + [env]) }

  function RollbackToLastAnchor(st: State): State {
    var g := if st.anchors == [] then st.globals else st.globals + st.anchors[|st.anchors| - 1];
    Audit(st.(globals := g), RolledBack)
  }

  /** `_violate`: record, roll back if there is an anchor, then raise. */
  function Violate(st: State, article: string): State {
    var st1 := Audit(st, GovernanceViolation(article));
    if st1.anchors == [] then st1 else RollbackToLastAnchor(st1)
  }

  function Mark(st: State, env: Env): State {
    st.(trace := st.trace + [Point(env, st.globals, st.authority, st.active)])
  }

  function EnterFunction(st: State, name: string, auth: Kind): State {
    var st1 := if Rank(auth) > Rank(st.authority) then Audit(st, AuthorityEscalation(st.authority, auth)) else st;
    st1.(authority := auth, active := st.active + [name], trace := st.trace + [Enter(st.authority, st.active, name)])
  }

  function LeaveFunction(inside: State, caller: State): State {
    inside.(authority := caller.authority, active := caller.active)
  }

  function BindParams(g: Env, params: seq<string>, args: seq<Value>): Env
    decreases |params|
  {
    if params == [] || args == [] then g else BindParams(g[params[0] := args[0]], params[1..], args[1..])
  }

  // ---- the interpreter ----

  function EvalExpr(c: Ctx, fuel: nat, st: State, env: Env, e: Expr): Out<Value>
    decreases fuel, 1, e, 2
  {
    match e
    case Lit(k) => Out(st, env, Ok(ConstantValue(k)))
    case Ident(name) => Out(st, env, Lookup(c.host, st.globals, env, name))
    case TrustRef(name) => Out(st, env, Ok(TrustLookup(st.globals, env, name)))
    case ScopeResolve(_, _) => Out(st, env, Ok(FnRef(Qualified(e))))
    case Member(t, f) =>
      var (st1, env1, v) :- EvalExpr(c, fuel, st, env, t);
      Out(st1, env1, Ok(GetField(c.host, v, f)))
    case BinOp(op, l, r) =>
      var (st1, env1, a) :- EvalExpr(c, fuel, st, env, l);
      var (st2, env2, b) :- EvalExpr(c, fuel, st1, env1, r);
      Out(st2, env2, Binop(c.host, op, a, b))
    case UnOp(op, x) =>
      var (st1, env1, v) :- EvalExpr(c, fuel, st, env, x);
      Out(st1, env1, Unop(c.host, op, v))
    case Tuple(items) =>
      var (st1, env1, vs) :- EvalList(c, fuel, st, env, items);
      Out(st1, env1, Ok(VTuple(vs)))
    case Record(name, fields) =>
      var (st1, env1, slots) :- EvalFields(c, fuel, st, env, fields);
      Out(st1, env1, Ok(VRecord(name, slots)))
    case Call(t, args) =>
      var (st1, env1, vs) :- EvalList(c, fuel, st, env, args);
      Invoke(c, fuel, st1, env1, t, vs)
    case Pipe(l, r) =>
      var (st1, env1, v) :- EvalExpr(c, fuel, st, env, l);
      Invoke(c, fuel, st1, env1, r, [v])
    case If(cond, thenB, elseB) =>
      var (st1, env1, v) :- EvalExpr(c, fuel, st, env, cond);
      if Truthy(v) then EvalBranch(c, fuel, st1, env1, thenB)
      else if elseB.Else? then EvalBranch(c, fuel, st1, env1, elseB.block)
      else Out(st1, env1, Ok(VNone))
    case Match(subject, arms) =>
      var (st1, env1, v) :- EvalExpr(c, fuel, st, env, subject);
      EvalArms(c, fuel, st1, env1, v, arms)
    case Let(name, ty, x) =>
      var (st1, env1, v) :- EvalExpr(c, fuel, st, env, x);
      var t := Tag(ty, v);
      Out(st1, if t.Ok? then env1[name := t.value] else env1, t)
    case AnchorExpr(x) =>
      var (st1, env1, v) :- EvalExpr(c, fuel, st, env, x);
      Out(PushAnchor(st1, env1), env1, Ok(v))
    case EnforceExpr(x) => EvalCheck(c, fuel, st, env, x)
    case Assert(x) => EvalCheck(c, fuel, st, env, x)
  }

  function EvalCheck(c: Ctx, fuel: nat, st: State, env: Env, x: Expr): Out<Value>
    decreases fuel, 1, x, 3
  {
    var (st1, env1, v) :- EvalExpr(c, fuel, st, env, x);
    Out(st1, env1, if Truthy(v) then Ok(v) else Err(EnforceFailed))
  }

  /** The chosen block of an `if` expression runs in a copy of the environment. */
  function EvalBranch(c: Ctx, fuel: nat, st: State, env: Env, block: seq<Stmt>): Out<Value>
    decreases fuel, 1, block, 2
  {
    var r := ExecBlock(c, fuel, st, env, block);
    Out(r.st, env, r.res)
  }

  /** The first arm that matches, in a copy of the environment. */
  function EvalArms(c: Ctx, fuel: nat, st: State, env: Env, subject: Value, arms: seq<Arm>): Out<Value>
    decreases fuel, 1, arms, 1
  {
    if arms == [] then
      Out(st, env, Ok(VNone))
    else if Matches(c.host, arms[0].pat, subject) then
      EvalArm(c, fuel, st, env, subject, arms[0])
    else
      EvalArms(c, fuel, st, env, subject, arms[1..])
  }

  function EvalArm(c: Ctx, fuel: nat, st: State, env: Env, subject: Value, arm: Arm): Out<Value>
    decreases fuel, 1, arm, 3
  {
    var bound := if arm.pat.BindPat? then env[arm.pat.name := subject] else env;
    var r := EvalExpr(c, fuel, st, bound, arm.result);
    Out(r.st, env, r.res)
  }

  function Matches(h: Host, pat: Pattern, subject: Value): bool {
    pat.LiteralPat? ==> h.equal(ConstantValue(pat.value), subject)
  }

  function EvalList(c: Ctx, fuel: nat, st: State, env: Env, es: seq<Expr>): Out<seq<Value>>
    decreases fuel, 1, es, 1
  {
    if es == [] then
      Out(st, env, Ok([]))
    else
      var (st1, env1, v) :- EvalExpr(c, fuel, st, env, es[0]);
      var (st2, env2, vs) :- EvalList(c, fuel, st1, env1, es[1..]);
      Out(st2, env2, Ok([v] + vs))
  }

  function EvalFields(c: Ctx, fuel: nat, st: State, env: Env, fs: seq<Field>): Out<seq<Slot>>
    decreases fuel, 1, fs, 1
  {
    if fs == [] then
      Out(st, env, Ok([]))
    else
      var f := fs[0];
      var (st1, env1, v) :- EvalField(c, fuel, st, env, f);
      var (st2, env2, slots) :- EvalFields(c, fuel, st1, env1, fs[1..]);
      Out(st2, env2, Ok([Slot(f.name, v)] + slots))
  }

  function EvalField(c: Ctx, fuel: nat, st: State, env: Env, f: Field): Out<Value>
    decreases fuel, 1, f, 3
  {
    EvalExpr(c, fuel, st, env, f.value)
  }

  /** `_invoke_target`: the library first, then the program's functions.  The environment is only passed through. */
  function Invoke(c: Ctx, fuel: nat, st: State, env: Env, target: Expr, args: seq<Value>): Out<Value>
    decreases fuel, 0, 4
  {
    match target
    case Ident(name) =>
      if name in c.host.library then CallLibrary(c, fuel, st, env, name, args)
      else if name in c.functions then RunFunction(c, fuel, st, env, name, args)
      else Out(st, env, Err(NameError(name)))
    case ScopeResolve(t, name) =>
      if NodeName(t).Some? then RunFunction(c, fuel, st, env, NodeName(t).value + "::" + name, args)
      else Out(st, env, Err(AttributeError))
    case Member(_, _) => Out(st, env, Ok(VNone))
    case _ => Out(st, env, Err(NameError("")))
  }

  /** The library functions that reach back into the interpreter, and the others. */
  function CallLibrary(c: Ctx, fuel: nat, st: State, env: Env, name: string, args: seq<Value>): Out<Value>
    decreases fuel, 0, 3
  {
    if name == "rollback" then
      if |args| <= 1 then Out(RollbackToLastAnchor(st), env, Ok(VNone)) else Out(st, env, Err(TypeError))
    else if name == "map" || name == "filter" then
      if |args| != 2 then Out(st, env, Err(TypeError))
      else if !args[0].VSignal? then Out(st, env, Err(AttributeError))
      else
        var (st1, env1, v) :- CallBack(c, fuel, st, env, args[1], [args[0].inner]);
        Out(st1, env1, Ok(if name == "map" then VSignal(args[0].name, v)
                          else if Truthy(v) then args[0]
                          else VSignal(args[0].name, VNone)))
    else
      var (res, codes) := c.host.call(st.calls, name, args);
      Out(AfterCall(st, codes), env, FromHost(res))
  }

  /** `call_callable`: a function reference is run, anything else yields None. */
  function CallBack(c: Ctx, fuel: nat, st: State, env: Env, ref: Value, args: seq<Value>): Out<Value>
    decreases fuel, 0, 2
  {
    if !ref.VTuple? || ref.items == [] || ref.items[0] != VStr(FNREF) then Out(st, env, Ok(VNone))
    else if |ref.items| < 2 then Out(st, env, Err(IndexError))
    else if !ref.items[1].VStr? then Out(st, env, Err(NameError("")))
    else RunFunction(c, fuel, st, env, ref.items[1].s, args)
  }

  /** `run_function`: the body runs in a copy of the globals, at the function's own authority;
      the caller's authority is put back on every way out. */
  function RunFunction(c: Ctx, fuel: nat, st: State, env: Env, name: string, args: seq<Value>): Out<Value>
    decreases fuel, 0, 1
  {
    if fuel == 0 then Out(st, env, Err(RecursionError))
    else if name !in c.functions then Out(st, env, Err(NameError(name)))
    else
      var fn := c.functions[name];
      var inside := EnterFunction(st, name, fn.authority);
      var r := ExecBlock(c, fuel - 1, inside, BindParams(st.globals, fn.params, args), fn.body);
      Out(LeaveFunction(r.st, st), env, r.res)
  }

  /** What a statement hands back: a `return` ends the block, everything else is ignored. */
  datatype Done = Next | Returned(value: Value)

  function ExecBlock(c: Ctx, fuel: nat, st: State, env: Env, stmts: seq<Stmt>): Out<Value>
    decreases fuel, 1, stmts, 1
  {
    if stmts == [] then
      Out(st, env, Ok(VNone))
    else
      var (st1, env1, done) :- ExecStmt(c, fuel, st, env, stmts[0]);
      var (st2, env2, _) :- CheckAll(c, fuel, Mark(st1, env1), env1);
      if done.Returned? then
        Out(st2, env2, Ok(done.value))
      else
        ExecBlock(c, fuel, st2, env2, stmts[1..])
  }

  function ExecStmt(c: Ctx, fuel: nat, st: State, env: Env, s: Stmt): Out<Done>
    decreases fuel, 1, s, 4
  {
    match s
    case Bind(name, ty, x) =>
      var (st1, env1, v) :- EvalExpr(c, fuel, st, env, x);
      var t := Tag(ty, v);
      if t.Err? then Out(st1, env1, Err(t.error))
      else Out(st1.(globals := SetDefault(st1.globals, name, t.value)), env1[name := t.value], Ok(Next))
    case Return(x) =>
      var (st1, env1, v) :- EvalExpr(c, fuel, st, env, x);
      Out(st1, env1, Ok(Returned(v)))
    case Enforce(x) =>
      var (st1, env1, v) :- EvalExpr(c, fuel, st, env, x);
      if Truthy(v) then Out(st1, env1, Ok(Next)) else Out(Audit(st1, EnforceFail), env1, Err(EnforceFailed))
    case Anchor(x) =>
      var (st1, env1, v) :- EvalExpr(c, fuel, st, env, x);
      Out(PushAnchor(st1, env1), env1, Ok(Next))
    case Rollback(_) => Out(RollbackToLastAnchor(st), env, Ok(Next))
    case Emit(name, x) =>
      var (st1, env1, v) :- EvalExpr(c, fuel, st, env, x);
      EmitSignal(c, fuel, st1, env1, name, v)
    case ExprStmt(x) =>
      var (st1, env1, v) :- EvalExpr(c, fuel, st, env, x);
      Out(st1, env1, Ok(Next))
    case IfStmt(cond, thenB, elseB) =>
      var (st1, env1, v) :- EvalExpr(c, fuel, st, env, cond);
      if Truthy(v) then ExecBranch(c, fuel, st1, env1, thenB)
      else if elseB.Else? then ExecBranch(c, fuel, st1, env1, elseB.block)
      else Out(st1, env1, Ok(Next))
  }

  /** The block of an `if` statement shares the environment. */
  function ExecBranch(c: Ctx, fuel: nat, st: State, env: Env, block: seq<Stmt>): Out<Done>
    decreases fuel, 1, block, 2
  {
    var (st1, env1, _) :- ExecBlock(c, fuel, st, env, block);
    Out(st1, env1, Ok(Next))
  }

  /** `SignalBus.emit`. */
  function EmitSignal(c: Ctx, fuel: nat, st: State, env: Env, name: string, v: Value): Out<Done>
    decreases fuel, 0, 1
  {
    var observers := if name in c.observers then c.observers[name] else [];
    Deliver(c, fuel, Audit(st, SignalEmit(name, v)), env, name, v, observers)
  }

  /** Each observer's block runs in a copy of the globals with the value bound, in order of registration. */
  function Deliver(c: Ctx, fuel: nat, st: State, env: Env, name: string, v: Value, obs: seq<Observer>): Out<Done>
    decreases fuel, 0, 0, |obs|
  {
    if obs == [] then
      Out(st, env, Ok(Next))
    else if fuel == 0 then
      Out(st, env, Err(RecursionError))
    else
      var o := obs[0];
      var r := ExecBlock(c, fuel - 1, Audit(st, SignalDeliver(name, o.binding)), st.globals[o.binding := v], o.body);
      if r.res.Err? then Out(r.st, env, Err(r.res.error))
      else Deliver(c, fuel, r.st, env, name, v, obs[1..])
  }

  // ---- the invariant engine ----

  function CheckAll(c: Ctx, fuel: nat, st: State, env: Env): Out<()>
    decreases fuel, 0, 0
  {
    if c.clauses == [] then Out(st, env, Ok(()))
    else if fuel == 0 then Out(st, env, Err(RecursionError))
    else CheckClauses(c, fuel - 1, st, env, c.clauses)
  }

  function CheckClauses(c: Ctx, fuel: nat, st: State, env: Env, clauses: seq<Clause>): Out<()>
    decreases fuel, 1, clauses, 1
  {
    if clauses == [] then
      Out(st, env, Ok(()))
    else
      var (st1, env1, _) :- CheckClause(c, fuel, st, env, clauses[0]);
      CheckClauses(c, fuel, st1, env1, clauses[1..])
  }

  /** `_safe_eval` turns every exception into "not applicable yet". */
  function CheckClause(c: Ctx, fuel: nat, st: State, env: Env, clause: Clause): Out<()>
    decreases fuel, 1, clause, 5
  {
    match clause.inv
    case Always(x) =>
      var r := EvalExpr(c, fuel, st, env, x);
      if r.res == Ok(VBool(false)) then Out(Violate(r.st, clause.article), r.env, Err(InvariantViolated))
      else Out(r.st, r.env, Ok(()))
    case Never(x) =>
      var r := EvalExpr(c, fuel, st, env, x);
      if r.res == Ok(VBool(true)) then Out(Violate(r.st, clause.article), r.env, Err(InvariantViolated))
      else Out(r.st, r.env, Ok(()))
    case WhenThen(trigger, response) =>
      var r := EvalExpr(c, fuel, st, env, trigger);
      if r.res != Ok(VBool(true)) then Out(r.st, r.env, Ok(()))
      else
        var (st1, env1, _) :- EvalExpr(c, fuel, r.st, r.env, response);
        Out(st1, env1, Ok(()))
  }
}
