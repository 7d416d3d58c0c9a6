/** Blocks, functions and programs: under an effect-free constitution the emitted code gives the result of the tree
    walk, unless a round of checks stops the tree walk first. */
module CompiledPrograms {
  import opened Ast
  import opened Semantics
  import opened Compiler
  import opened Machine
  import opened CompilerCorrect
  import opened EffectFree

  // ---- blocks ----

  ghost predicate Executes(g: Env, vm: VM, left: nat, r: Out<Value>, o: Outcome) {
    match r.res
    case Err(x) => o == Faulted(x)
    case Ok(v) =>
      || (o.Finished? && Agree(v, o.value) && Related(g, r.st, r.env, o.vm))
      || (o.Running? && v == VNone && Related(g, r.st, r.env, o.vm)
          && |o.vm.stack| == |vm.stack| + left && vm.stack <= o.vm.stack)
  }

  /** A round of checks after some executed statement of the block raises. */
  predicate StoppedByChecks(c: Ctx, fuel: nat, st: State, env: Env, stmts: seq<Stmt>)
    decreases |stmts|
  {
    stmts != [] &&
    var r := ExecStmt(c, fuel, st, env, stmts[0]);
    r.res.Ok? &&
    var k := CheckAll(c, fuel, Mark(r.st, r.env), r.env);
    k.res.Err? || (r.res.value.Next? && StoppedByChecks(c, fuel, k.st, k.env, stmts[1..]))
  }

  /** Without a constitution nothing stops. */
  lemma {:induction false} NothingStops(c: Ctx, fuel: nat, st: State, env: Env, stmts: seq<Stmt>)
    requires c.clauses == []
    ensures !StoppedByChecks(c, fuel, st, env, stmts)
    decreases |stmts|
  {
    if stmts != [] {
      var r := ExecStmt(c, fuel, st, env, stmts[0]);
      NothingStops(c, fuel, Mark(r.st, r.env), r.env, stmts[1..]);
    }
  }

  /** A round of checks that passes leaves everything as it was. */
  lemma ChecksPass(c: Ctx, fuel: nat, st: State, env: Env)
    requires EffectFreeConstitution(c) && CheckAll(c, fuel, st, env).res.Ok?
    ensures CheckAll(c, fuel, st, env) == Out(st, env, Ok(()))
  {
    if c.clauses != [] { ChecksOnlyLook(c, fuel - 1, st, env, c.clauses); }
    assert CheckAll(c, fuel, st, env).res.value == ();
  }

  /** A block is its first statement, the round of checks after it, and the rest. */
  lemma BlockUnfolds(c: Ctx, fuel: nat, st: State, env: Env, stmts: seq<Stmt>)
    requires EffectFreeConstitution(c) && stmts != []
    ensures var r := ExecStmt(c, fuel, st, env, stmts[0]);
            var k := CheckAll(c, fuel, Mark(r.st, r.env), r.env);
            ExecBlock(c, fuel, st, env, stmts) ==
              if r.res.Err? then Out(r.st, r.env, Err(r.res.error))
              else if k.res.Err? then Out(k.st, k.env, Err(k.res.error))
              else if r.res.value.Returned? then Out(Mark(r.st, r.env), r.env, Ok(r.res.value.value))
              else ExecBlock(c, fuel, Mark(r.st, r.env), r.env, stmts[1..])
  {
    var r := ExecStmt(c, fuel, st, env, stmts[0]);
    var marked := Mark(r.st, r.env);
    if r.res.Ok? && CheckAll(c, fuel, marked, r.env).res.Ok? { ChecksPass(c, fuel, marked, r.env); }
  }

  lemma ThenExecutes(g: Env, vm: VM, s: Stmt, r: Out<Done>, o: Outcome, left: nat, next: Out<Value>, o2: Outcome)
    requires ExecutesStmt(g, vm, s, r, o) && r.res == Ok(Next) && Executes(g, o.vm, left, next, o2)
    ensures Executes(g, vm, Leftovers([s]) + left, next, o2)
  {
  }

  /** The code of a block is that of its first statement, then that of the rest. */
  lemma BlockRuns(h: Host, g: Env, full: seq<Constant>, stmts: seq<Stmt>, pool: seq<Constant>, vm: VM)
    requires stmts != []
    ensures var a := CompileStmt(stmts[0], pool);
            var b := CompileBlock(stmts[1..], a.pool);
            var o := Run(h, g, full, a.instrs, vm);
            && CompileBlock(stmts, pool).pool == b.pool
            && Run(h, g, full, CompileBlock(stmts, pool).instrs, vm) ==
                if o.Running? then Run(h, g, full, b.instrs, o.vm) else o
  {
    var a := CompileStmt(stmts[0], pool);
    RunAppend(h, g, full, a.instrs, CompileBlock(stmts[1..], a.pool).instrs, vm);
  }

  /** Compiler correctness for straight-line blocks: where no round of checks stops the block, the same exception, or
      the same result up to tags, with the same variables, anchors and signals. */
  lemma {:induction false} BlockCorrect(c: Ctx, fuel: nat, g: Env, st: State, env: Env, vm: VM, stmts: seq<Stmt>,
                                        pool: seq<Constant>, full: seq<Constant>)
    requires EffectFreeConstitution(c) && !StoppedByChecks(c, fuel, st, env, stmts)
    requires (forall s | s in stmts :: FragmentStmt(c, s)) && Related(g, st, env, vm)
        && CompileBlock(stmts, pool).pool <= full
    ensures Executes(g, vm, Leftovers(stmts), ExecBlock(c, fuel, st, env, stmts),
                     Run(c.host, g, full, CompileBlock(stmts, pool).instrs, vm))
    decreases |stmts|
  {
    if stmts != [] {
      var h, s, rest := c.host, stmts[0], stmts[1..];
      var a := CompileStmt(s, pool);
      BlockRuns(h, g, full, stmts, pool, vm);
      StmtCorrect(c, fuel, g, st, env, vm, s, pool, full);
      BlockUnfolds(c, fuel, st, env, stmts);
      var r, o := ExecStmt(c, fuel, st, env, s), Run(h, g, full, a.instrs, vm);
      if r.res == Ok(Next) {
        ChecksPass(c, fuel, Mark(r.st, r.env), r.env);
        BlockCorrect(c, fuel, g, Mark(r.st, r.env), r.env, o.vm, rest, a.pool, full);
        LeftoversSplit(stmts);
        ThenExecutes(g, vm, s, r, o, Leftovers(rest), ExecBlock(c, fuel, Mark(r.st, r.env), r.env, rest),
                     Run(h, g, full, CompileBlock(rest, a.pool).instrs, o.vm));
      }
    }
  }

  lemma LeftoversSplit(stmts: seq<Stmt>)
    requires stmts != []
    ensures Leftovers(stmts) == Leftovers([stmts[0]]) + Leftovers(stmts[1..])
  {
    assert [stmts[0]][1..] == [];
  }

  /** The code of the first `n` statements gets to a state that corresponds to the tree walk's after them. */
  ghost predicate Reaches(c: Ctx, g: Env, vm: VM, stmts: seq<Stmt>, n: nat, pool: seq<Constant>, full: seq<Constant>,
                          st: State,
                          env: Env)
    requires n <= |stmts|
  {
    var o := Run(c.host, g, full, CompileBlock(stmts[..n], pool).instrs, vm);
    (o.Running? || o.Finished?) && Related(g, st, env, o.vm)
  }

  /** Where a round of checks stops the block, it raises what those checks raise, after the first `n` statements; the
      code of these has got to the state that was checked. */
  lemma {:induction false} BlockStopped(c: Ctx, fuel: nat, g: Env, st: State, env: Env, vm: VM, stmts: seq<Stmt>,
                                        pool: seq<Constant>, full: seq<Constant>)
    returns (n: nat, reached: State, locals: Env)
    requires EffectFreeConstitution(c) && StoppedByChecks(c, fuel, st, env, stmts)
    requires (forall s | s in stmts :: FragmentStmt(c, s)) && Related(g, st, env, vm)
        && CompileBlock(stmts, pool).pool <= full
    ensures 0 < n <= |stmts| && Reaches(c, g, vm, stmts, n, pool, full, reached, locals)
    ensures var k := CheckAll(c, fuel, Mark(reached, locals), locals);
            k.res.Err? && ExecBlock(c, fuel, st, env, stmts) == Out(k.st, k.env, Err(k.res.error))
    decreases |stmts|
  {
    var h, s, rest := c.host, stmts[0], stmts[1..];
    var a := CompileStmt(s, pool);
    BlockRuns(h, g, full, stmts, pool, vm);
    StmtCorrect(c, fuel, g, st, env, vm, s, pool, full);
    BlockUnfolds(c, fuel, st, env, stmts);
    var r, o := ExecStmt(c, fuel, st, env, s), Run(h, g, full, a.instrs, vm);
    if CheckAll(c, fuel, Mark(r.st, r.env), r.env).res.Err? {
      n, reached, locals := 1, r.st, r.env;
      FirstReaches(c, g, vm, stmts, pool, full, r.st, r.env);
    } else {
      ChecksPass(c, fuel, Mark(r.st, r.env), r.env);
      n, reached, locals := BlockStopped(c, fuel, g, Mark(r.st, r.env), r.env, o.vm, rest, a.pool, full);
      LaterReaches(c, g, vm, stmts, n, pool, full, o.vm, reached, locals);
      n := n + 1;
    }
  }

  lemma FirstReaches(c: Ctx, g: Env, vm: VM, stmts: seq<Stmt>, pool: seq<Constant>, full: seq<Constant>, st: State,
                     env: Env)
    requires stmts != []
    requires var o := Run(c.host, g, full, CompileStmt(stmts[0], pool).instrs, vm);
             (o.Running? || o.Finished?) && Related(g, st, env, o.vm)
    ensures Reaches(c, g, vm, stmts, 1, pool, full, st, env)
  {
    var one := stmts[..1];
    assert one[1..] == [];
    BlockRuns(c.host, g, full, one, pool, vm);
  }

  lemma LaterReaches(c: Ctx, g: Env, vm: VM, stmts: seq<Stmt>, n: nat, pool: seq<Constant>, full: seq<Constant>,
                     next: VM,
                     st: State, env: Env)
    requires stmts != [] && n <= |stmts[1..]|
    requires Run(c.host, g, full, CompileStmt(stmts[0], pool).instrs, vm) == Running(next)
    requires Reaches(c, g, next, stmts[1..], n, CompileStmt(stmts[0], pool).pool, full, st, env)
    ensures Reaches(c, g, vm, stmts, n + 1, pool, full, st, env)
  {
    var more := stmts[..n + 1];
    assert more[0] == stmts[0] && more[1..] == stmts[1..][..n];
    BlockRuns(c.host, g, full, more, pool, vm);
  }

  // ---- whole programs ----

  /** `load_program` registers every function under its qualified and its plain name. */
  function LoadDecl(mod: string, auth: Kind, d: Decl, fns: map<string, FnEntry>): map<string, FnEntry> {
    if d.Function? then
      var entry := FnEntry(ParamNames(d.params), AuthorityOf(d, auth), d.body);
      fns[mod + "::" + d.name := entry][d.name := entry]
    else
      fns
  }

  function LoadDecls(mod: string, auth: Kind, ds: seq<Decl>, fns: map<string, FnEntry>): map<string, FnEntry> {
    if ds == [] then fns else LoadDecls(mod, auth, ds[1..], LoadDecl(mod, auth, ds[0], fns))
  }

  function LoadModules(ms: seq<Module>, fns: map<string, FnEntry>): map<string, FnEntry> {
    if ms == [] then fns else LoadModules(ms[1..], LoadDecls(ms[0].name, ms[0].authority, ms[0].decls, fns))
  }

  /** Identifiers contain no colon, so a plain name is never a qualified one. */
  predicate PlainNames(ds: seq<Decl>) {
    forall d | d in ds && d.Function? :: ':' !in d.name
  }

  /** A compiled function is the code of the loaded one, over a part of the final pool. */
  ghost predicate SameFn(f: FnEntry, k: CompiledFn, pool: seq<Constant>) {
    && k.params == f.params
    && k.authority == f.authority
    && exists start: seq<Constant> :: k.instrs == CompileBlock(f.body, start).instrs
        && CompileBlock(f.body, start).pool <= pool
  }

  ghost predicate SameFns(fns: map<string, FnEntry>, image: Image) {
    forall q | q in image.functions :: ':' in q && q in fns && SameFn(fns[q], image.functions[q], image.pool)
  }

  lemma PoolGrows(f: FnEntry, k: CompiledFn, pool: seq<Constant>, more: seq<Constant>)
    requires SameFn(f, k, pool) && pool <= more
    ensures SameFn(f, k, more)
  {
    var start: seq<Constant> :| k.instrs == CompileBlock(f.body, start).instrs
        && CompileBlock(f.body, start).pool <= pool;
    assert CompileBlock(f.body, start).pool <= more;
  }

  lemma DeclSame(mod: string, auth: Kind, d: Decl, fns: map<string, FnEntry>, image: Image)
    requires SameFns(fns, image) && (d.Function? ==> ':' !in d.name)
    ensures SameFns(LoadDecl(mod, auth, d, fns), CompileDecl(mod, auth, d, image))
  {
    if d.Function? {
      var fns1, image1 := LoadDecl(mod, auth, d, fns), CompileDecl(mod, auth, d, image);
      var q0 := mod + "::" + d.name;
      assert q0[|mod|] == ':';
      forall q | q in image1.functions
        ensures ':' in q && q in fns1 && SameFn(fns1[q], image1.functions[q], image1.pool)
      {
        if q == q0 {
          assert image1.functions[q].instrs == CompileBlock(d.body, image.pool).instrs;
        } else {
          PoolGrows(fns[q], image.functions[q], image.pool, image1.pool);
        }
      }
    }
  }

  lemma {:induction false} DeclsSame(mod: string, auth: Kind, ds: seq<Decl>, fns: map<string, FnEntry>, image: Image)
    requires SameFns(fns, image) && PlainNames(ds)
    ensures SameFns(LoadDecls(mod, auth, ds, fns), CompileDecls(mod, auth, ds, image))
  {
    if ds != [] {
      DeclSame(mod, auth, ds[0], fns, image);
      DeclsSame(mod, auth, ds[1..], LoadDecl(mod, auth, ds[0], fns), CompileDecl(mod, auth, ds[0], image));
    }
  }

  lemma {:induction false} ModulesSame(ms: seq<Module>, fns: map<string, FnEntry>, image: Image)
    requires SameFns(fns, image) && forall m | m in ms :: PlainNames(m.decls)
    ensures SameFns(LoadModules(ms, fns), CompileModules(ms, image))
  {
    if ms != [] {
      var m := ms[0];
      DeclsSame(m.name, m.authority, m.decls, fns, image);
      ModulesSame(ms[1..], LoadDecls(m.name, m.authority, m.decls, fns),
          CompileDecls(m.name, m.authority, m.decls, image));
    }
  }

  /** The machine's view of a call: the callee's parameters over a copy of the globals. */
  function Frame(st: State, params: seq<string>, args: seq<Value>): VM {
    VM([], BindParams(st.globals, params, args), st.anchors, Sent(st.audit), st.calls)
  }

  /** The same exception, or the same value up to tags. */
  predicate SameResult(o: Outcome, r: Result<Value>) {
    && !o.Stuck?
    && (r.Err? ==> ResultOf(o) == r)
    && (r.Ok? ==> ResultOf(o).Ok? && Agree(r.value, ResultOf(o).value))
  }

  lemma FrameRelated(c: Ctx, st: State, q: string, args: seq<Value>)
    requires q in c.functions
    ensures var f := c.functions[q];
            Related(st.globals, EnterFunction(st, q, f.authority), BindParams(st.globals, f.params, args),
                Frame(st, f.params, args))
  {
    SentAppend(st.audit, AuthorityEscalation(st.authority, c.functions[q].authority));
  }

  /** The checks of a constitution stop the function's body. */
  predicate FunctionStopped(c: Ctx, fuel: nat, st: State, q: string, args: seq<Value>)
    requires q in c.functions && fuel > 0
  {
    var f := c.functions[q];
    StoppedByChecks(c, fuel - 1, EnterFunction(st, q, f.authority), BindParams(st.globals, f.params, args), f.body)
  }

  /** Under an effect-free constitution the code of a body, run on a frame, gives what `run_function` gives, unless the
      checks stop it; they never do where it ends normally. */
  lemma FunctionCorrect(c: Ctx, fuel: nat, st: State, env: Env, q: string, args: seq<Value>, start: seq<Constant>,
                        pool: seq<Constant>, code: seq<Instr>)
    requires EffectFreeConstitution(c) && q in c.functions && fuel > 0
    requires forall s | s in c.functions[q].body :: FragmentStmt(c, s)
    requires CompileBlock(c.functions[q].body, start).pool <= pool
        && code == CompileBlock(c.functions[q].body, start).instrs
    ensures FunctionStopped(c, fuel, st, q, args) ==> RunFunction(c, fuel, st, env, q, args).res.Err?
    ensures !FunctionStopped(c, fuel, st, q, args) ==>
              SameResult(Run(c.host, st.globals, pool, code, Frame(st, c.functions[q].params, args)),
                         RunFunction(c, fuel, st, env, q, args).res)
  {
    var f, vm := c.functions[q], Frame(st, c.functions[q].params, args);
    var inside, locals := EnterFunction(st, q, f.authority), BindParams(st.globals, f.params, args);
    FrameRelated(c, st, q, args);
    if FunctionStopped(c, fuel, st, q, args) {
      var n, reached, env1 := BlockStopped(c, fuel - 1, st.globals, inside, locals, vm, f.body, start, pool);
    } else {
      BlockCorrect(c, fuel - 1, st.globals, inside, locals, vm, f.body, start, pool);
      ExecutesSame(st.globals, vm, Leftovers(f.body), ExecBlock(c, fuel - 1, inside, locals, f.body),
                   Run(c.host, st.globals, pool, code, vm));
    }
  }

  lemma ExecutesSame(g: Env, vm: VM, left: nat, r: Out<Value>, o: Outcome)
    requires Executes(g, vm, left, r, o)
    ensures SameResult(o, r.res)
  {
  }

  /** Every compiled function of a program, run on the final pool with its arguments in place, gives what
      `run_function` gives in the program loaded under an effect-free constitution, unless the checks stop that run
      with an exception. */
  lemma ProgramCorrect(p: Program, c: Ctx, fuel: nat, st: State, env: Env, q: string, args: seq<Value>)
    requires EffectFreeConstitution(c) && c.functions == LoadModules(p.modules, map[])
    requires forall m | m in p.modules :: PlainNames(m.decls)
    requires fuel > 0 && q in CompileProgram(p).functions
    requires q in c.functions ==> forall s | s in c.functions[q].body :: FragmentStmt(c, s)
    ensures q in c.functions
    ensures FunctionStopped(c, fuel, st, q, args) ==> RunFunction(c, fuel, st, env, q, args).res.Err?
    ensures var image := CompileProgram(p);
            var k := image.functions[q];
            !FunctionStopped(c, fuel, st, q, args) ==>
              SameResult(Run(c.host, st.globals, image.pool, k.instrs, Frame(st, k.params, args)),
                         RunFunction(c, fuel, st, env, q, args).res)
  {
    var image := CompileProgram(p);
    ModulesSame(p.modules, map[], Image(map[], []));
    var f, k := c.functions[q], image.functions[q];
    var start: seq<Constant> :| k.instrs == CompileBlock(f.body, start).instrs
        && CompileBlock(f.body, start).pool <= image.pool;
    FunctionCorrect(c, fuel, st, env, q, args, start, image.pool, k.instrs);
  }

  /** Without a constitution the code gives what `run_function` gives, with no exception to that. */
  lemma PlainProgramCorrect(p: Program, c: Ctx, fuel: nat, st: State, env: Env, q: string, args: seq<Value>)
    requires c.clauses == [] && c.functions == LoadModules(p.modules, map[])
    requires forall m | m in p.modules :: PlainNames(m.decls)
    requires fuel > 0 && q in CompileProgram(p).functions
    requires q in c.functions ==> forall s | s in c.functions[q].body :: FragmentStmt(c, s)
    ensures var image := CompileProgram(p);
            var k := image.functions[q];
            SameResult(Run(c.host, st.globals, image.pool, k.instrs, Frame(st, k.params, args)),
                       RunFunction(c, fuel, st, env, q, args).res)
  {
    ProgramCorrect(p, c, fuel, st, env, q, args);
    var f := c.functions[q];
    NothingStops(c, fuel - 1, EnterFunction(st, q, f.authority), BindParams(st.globals, f.params, args), f.body);
  }
}
