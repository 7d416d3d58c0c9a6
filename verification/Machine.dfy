/** A stack machine for the emitted code.  The repository defines none, so an instruction means what
    the interpreter does with the operands the compiler leaves for it; instructions that carry a
    syntax tree only the interpreter could run (records, branches, rollback, calls into the program)
    stop the machine. */
module Machine {
  import opened Ast
  import opened Semantics
  import opened Compiler

  /** Operand stack (top last), local variables, anchors taken, signals sent, library calls made. */
  datatype VM = VM(stack: seq<Value>, vars: Env, anchors: seq<Env>, sent: seq<(string, Value)>, calls: nat)

  datatype Outcome =
    | Running(vm: VM)
    | Finished(value: Value, vm: VM)
    | Faulted(error: Failure)
    | Stuck

  /** Library functions that neither run program code nor touch globals or anchors. */
  predicate PlainLibrary(h: Host, name: string) {
    name in h.library && name != "rollback" && name != "map" && name != "filter"
  }

  function Push(vm: VM, v: Value): Outcome { Running(vm.(stack := vm.stack + [v])) }

  function PushResult(vm: VM, r: Result<Value>): Outcome {
    if r.Ok? then Push(vm, r.value) else Faulted(r.error)
  }

  function Pop(vm: VM, n: nat): VM
    requires n <= |vm.stack|
  {
    vm.(stack := vm.stack[..|vm.stack| - n])
  }

  /** The `k`-th operand from the top, counting from 1. */
  function Top(vm: VM, k: nat): Value
    requires 1 <= k <= |vm.stack|
  {
    vm.stack[|vm.stack| - k]
  }

  function Apply(h: Host, target: Expr, args: seq<Value>, vm: VM): Outcome {
    if target.Member? then Push(vm, VNone)
    else if target.Ident? && PlainLibrary(h, target.name) then
      PushResult(vm.(calls := vm.calls + 1), FromHost(h.call(vm.calls, target.name, args).0))
    else Stuck
  }

  function StepVM(h: Host, g: Env, pool: seq<Constant>, i: Instr, vm: VM): Outcome {
    var n := |vm.stack|;
    match i
    case PUSH_CONST(k) => if k < |pool| then Push(vm, ConstantValue(pool[k])) else Stuck
    case LOAD(name) => PushResult(vm, Lookup(h, g, vm.vars, name))
    case SCOPE_CALL(t, name) => Push(vm, FnRef(Qualified(ScopeResolve(t, name))))
    case STORE(name) => if n == 0 then Stuck else Running(Pop(vm, 1).(vars := vm.vars[name := Top(vm, 1)]))
    case GETATTR(f) => if n == 0 then Stuck else Push(Pop(vm, 1), GetField(h, Top(vm, 1), f))
    case UNOP(op) => if n == 0 then Stuck else PushResult(Pop(vm, 1), Unop(h, op, Top(vm, 1)))
    case BINOP(op) => if n < 2 then Stuck else PushResult(Pop(vm, 2), Binop(h, op, Top(vm, 2), Top(vm, 1)))
    case MAKE_TUPLE(k) => if n < k then Stuck else Push(Pop(vm, k), VTuple(vm.stack[n - k..]))
    case CALL(t, k) => if n < k then Stuck else Apply(h, t, vm.stack[n - k..], Pop(vm, k))
    case PIPE_CALL(t) => if n == 0 then Stuck else Apply(h, t, [Top(vm, 1)], Pop(vm, 1))
    case ENFORCE => if n == 0 then Stuck else if Truthy(Top(vm, 1)) then Running(vm) else Faulted(EnforceFailed)
    case ANCHOR => if n == 0 then Stuck else Running(vm.(anchors := vm.anchors + [vm.vars]))
    case POP => if n == 0 then Stuck else Running(Pop(vm, 1))
    case RETURN => if n == 0 then Stuck else Finished(Top(vm, 1), Pop(vm, 1))
    case EMIT(name) => if n == 0 then Stuck else Running(Pop(vm, 1).(sent := vm.sent + [(name, Top(vm, 1))]))
    case _ => Stuck
  }

  function Run(h: Host, g: Env, pool: seq<Constant>, code: seq<Instr>, vm: VM): Outcome
    decreases |code|
  {
    if code == [] then Running(vm)
    else
      var o := StepVM(h, g, pool, code[0], vm);
      if o.Running? then Run(h, g, pool, code[1..], o.vm) else o
  }

  /** What the caller of a compiled function sees: the returned value, None if none, or the exception. */
  function ResultOf(o: Outcome): Result<Value>
    requires !o.Stuck?
  {
    match o
    case Running(_) => Ok(VNone)
    case Finished(v, _) => Ok(v)
    case Faulted(e) => Err(e)
  }

  lemma {:induction false} RunAppend(h: Host, g: Env, pool: seq<Constant>, a: seq<Instr>, b: seq<Instr>, vm: VM)
    ensures Run(h, g, pool, a + b, vm) ==
              var o := Run(h, g, pool, a, vm);
              if o.Running? then Run(h, g, pool, b, o.vm) else o
    decreases |a|
  {
    if a == [] {
      assert a + b == b;
    } else {
      assert (a + b)[1..] == a[1..] + b;
      var o := StepVM(h, g, pool, a[0], vm);
      if o.Running? { RunAppend(h, g, pool, a[1..], b, o.vm); }
    }
  }

  lemma RunOne(h: Host, g: Env, pool: seq<Constant>, i: Instr, vm: VM)
    ensures Run(h, g, pool, [i], vm) == StepVM(h, g, pool, i, vm)
  {
    assert [i][1..] == [];
    var o := StepVM(h, g, pool, i, vm);
    if o.Running? { assert Run(h, g, pool, [], o.vm) == o; }
  }

  /** Code, then one more instruction. */
  lemma RunThen(h: Host, g: Env, pool: seq<Constant>, a: seq<Instr>, i: Instr, vm: VM)
    ensures Run(h, g, pool, a + [i], vm) ==
              var o := Run(h, g, pool, a, vm);
              if o.Running? then StepVM(h, g, pool, i, o.vm) else o
  {
    RunAppend(h, g, pool, a, [i], vm);
    var o := Run(h, g, pool, a, vm);
    if o.Running? { RunOne(h, g, pool, i, o.vm); }
  }
}
