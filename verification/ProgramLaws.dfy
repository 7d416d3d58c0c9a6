/** What loading and compiling a program make of its text: under each name the last declaration of it, with that
    declaration's parameters, body and authority; and what the text therefore promises about every run. */
module ProgramLaws {
  import opened Wrappers
  import opened Ast
  import opened Semantics
  import opened Compiler
  import opened CompiledPrograms
  import RunLaws
  import EvalLaws

  // ---- declarations in the text ----

  predicate DeclAt(ms: seq<Module>, i: nat, j: nat) {
    i < |ms| && j < |ms[i].decls| && ms[i].decls[j].Function?
  }

  /** Declaration `j` of module `i` is a function that goes by this name, qualified or plain. */
  predicate Named(ms: seq<Module>, i: nat, j: nat, q: string) {
    DeclAt(ms, i, j) && (q == ms[i].name + "::" + ms[i].decls[j].name || q == ms[i].decls[j].name)
  }

  predicate Qualified(ms: seq<Module>, i: nat, j: nat, q: string) {
    DeclAt(ms, i, j) && q == ms[i].name + "::" + ms[i].decls[j].name
  }

  predicate After(i: nat, j: nat, i0: nat, j0: nat) { i > i0 || (i == i0 && j > j0) }

  /** No function of this name is declared further on. */
  ghost predicate LastNamed(ms: seq<Module>, i: nat, j: nat, q: string) {
    Named(ms, i, j, q) && forall a: nat, b: nat | After(a, b, i, j) :: !Named(ms, a, b, q)
  }

  ghost predicate LastQualified(ms: seq<Module>, i: nat, j: nat, q: string) {
    Qualified(ms, i, j, q) && forall a: nat, b: nat | After(a, b, i, j) :: !Qualified(ms, a, b, q)
  }

  /** Its own authority where it gives one, else its module's. */
  predicate RunsAt(m: Module, d: Decl, authority: Kind) {
    && d.Function?
    && (d.authority.Some? ==> authority == d.authority.value)
    && (d.authority.None? ==> authority == m.authority)
  }

  predicate ParamsOf(d: Decl, names: seq<string>) {
    d.Function? && |names| == |d.params| && forall k | 0 <= k < |names| :: names[k] == d.params[k].name
  }

  predicate EntryOf(m: Module, d: Decl, f: FnEntry) {
    d.Function? && ParamsOf(d, f.params) && f.body == d.body && RunsAt(m, d, f.authority)
  }

  /** Code of the body, over a part of the pool. */
  ghost predicate ImageOf(m: Module, d: Decl, f: CompiledFn, pool: seq<Constant>) {
    && d.Function? && ParamsOf(d, f.params) && RunsAt(m, d, f.authority)
    && exists start: seq<Constant> ::
         CompileBlock(d.body, start).instrs == f.instrs && CompileBlock(d.body, start).pool <= pool
  }

  // ---- loading ----

  /** The declaration of one module that a name ends up with, counted from 0; -1 where none has it. */
  lemma {:induction false} DeclsLoaded(m: Module, ds: seq<Decl>, fns: map<string, FnEntry>, q: string)
    returns (j: int)
    ensures var r := LoadDecls(m.name, m.authority, ds, fns);
      && -1 <= j < |ds|
      && (j == -1 ==> (q in r <==> q in fns) && (q in fns ==> r[q] == fns[q]))
      && (j >= 0 ==> Goes(m, ds[j], q) && q in r && EntryOf(m, ds[j], r[q]))
      && forall k | j < k < |ds| :: !Goes(m, ds[k], q)
    decreases |ds|
  {
    j := -1;
    if ds != [] {
      var fns1 := LoadDecl(m.name, m.authority, ds[0], fns);
      j := DeclsLoaded(m, ds[1..], fns1, q);
      assert forall k | 0 < k < |ds| :: ds[k] == ds[1..][k - 1];
      if j >= 0 {
        j := j + 1;
      } else if Goes(m, ds[0], q) {
        j := 0;
      }
    }
  }

  /** The declaration goes by this name. */
  predicate Goes(m: Module, d: Decl, q: string) { d.Function? && (q == m.name + "::" + d.name || q == d.name) }

  lemma {:induction false} ModulesLoaded(ms: seq<Module>, fns: map<string, FnEntry>, q: string)
    returns (i: int, j: nat)
    ensures var r := LoadModules(ms, fns);
      && -1 <= i < |ms|
      && (i == -1 ==>
            && (q in r <==> q in fns) && (q in fns ==> r[q] == fns[q])
            && forall a: nat, b: nat :: !Named(ms, a, b, q))
      && (i >= 0 ==> LastNamed(ms, i, j, q) && q in r && EntryOf(ms[i], ms[i].decls[j], r[q]))
    decreases |ms|
  {
    i, j := -1, 0;
    if ms != [] {
      var m, rest := ms[0], ms[1..];
      var fns1 := LoadDecls(m.name, m.authority, m.decls, fns);
      i, j := ModulesLoaded(rest, fns1, q);
      assert forall a | 0 < a < |ms| :: ms[a] == rest[a - 1];
      forall a: nat, b: nat | a > 0
        ensures Named(ms, a, b, q) <==> Named(rest, a - 1, b, q)
      {
      }
      if i >= 0 {
        i := i + 1;
        NextLast(ms, rest, i, j, q);
      } else {
        var k := DeclsLoaded(m, m.decls, fns, q);
        if k >= 0 { i, j := 0, k; }
        forall a: nat, b: nat | a == 0
          ensures Named(ms, a, b, q) <==> b < |m.decls| && Goes(m, m.decls[b], q)
        {
        }
      }
    }
  }

  lemma NextLast(ms: seq<Module>, rest: seq<Module>, i: nat, j: nat, q: string)
    requires ms != [] && rest == ms[1..] && i > 0 && LastNamed(rest, i - 1, j, q)
    ensures LastNamed(ms, i, j, q)
  {
    forall a: nat, b: nat | After(a, b, i, j)
      ensures !Named(ms, a, b, q)
    {
      assert !Named(rest, a - 1, b, q);
    }
  }

  lemma LastIsOne(ms: seq<Module>, i: nat, j: nat, a: nat, b: nat, q: string)
    requires LastNamed(ms, i, j, q) && LastNamed(ms, a, b, q)
    ensures a == i && b == j
  {
    assert After(a, b, i, j) || After(i, j, a, b) || (a == i && b == j);
  }

  /** Exactly the declared names are loaded, and the last declaration of a name is what is found under it. */
  lemma LoadedLast(ms: seq<Module>, q: string)
    ensures q in LoadModules(ms, map[]) <==> exists i: nat, j: nat :: LastNamed(ms, i, j, q)
    ensures forall i: nat, j: nat | LastNamed(ms, i, j, q) :: EntryOf(ms[i], ms[i].decls[j], LoadModules(ms, map[])[q])
  {
    var i, j := ModulesLoaded(ms, map[], q);
    forall a: nat, b: nat | LastNamed(ms, a, b, q)
      ensures i >= 0 && a == i && b == j
    {
      assert Named(ms, a, b, q);
      if i >= 0 { LastIsOne(ms, i, j, a, b, q); }
    }
  }

  // ---- compiling ----

  lemma ImageGrows(m: Module, d: Decl, f: CompiledFn, pool: seq<Constant>, more: seq<Constant>)
    requires ImageOf(m, d, f, pool) && pool <= more
    ensures ImageOf(m, d, f, more)
  {
    var start: seq<Constant> :| CompileBlock(d.body, start).instrs == f.instrs
        && CompileBlock(d.body, start).pool <= pool;
    assert CompileBlock(d.body, start).pool <= more;
  }

  lemma DeclCompiled(m: Module, d: Decl, image: Image)
    requires d.Function?
    ensures var r := CompileDecl(m.name, m.authority, d, image);
            var q := m.name + "::" + d.name;
      && q in r.functions && ImageOf(m, d, r.functions[q], r.pool)
      && r.functions.Keys == image.functions.Keys + {q}
      && forall k | k in image.functions && k != q :: r.functions[k] == image.functions[k]
  {
    var code := CompileBlock(d.body, image.pool);
    assert code.instrs == CompileDecl(m.name, m.authority, d, image).functions[m.name + "::" + d.name].instrs;
  }

  lemma FirstCompiled(m: Module, d: Decl, image: Image, image1: Image, pool: seq<Constant>, q: string)
    requires image1 == CompileDecl(m.name, m.authority, d, image) && image1.pool <= pool
    ensures Defines(m, d, q) ==> q in image1.functions && ImageOf(m, d, image1.functions[q], pool)
    ensures !Defines(m, d, q) ==>
              && (q in image1.functions <==> q in image.functions)
              && (q in image.functions ==> image1.functions[q] == image.functions[q])
  {
    if d.Function? { DeclCompiled(m, d, image); }
    if Defines(m, d, q) { ImageGrows(m, d, image1.functions[q], image1.pool, pool); }
  }

  lemma {:induction false} DeclsCompiled(m: Module, ds: seq<Decl>, image: Image, q: string) returns (j: int)
    ensures var r := CompileDecls(m.name, m.authority, ds, image);
      && -1 <= j < |ds|
      && (j == -1 ==>
            && (q in r.functions <==> q in image.functions)
            && (q in image.functions ==> r.functions[q] == image.functions[q]))
      && (j >= 0 ==> Defines(m, ds[j], q) && q in r.functions && ImageOf(m, ds[j], r.functions[q], r.pool))
      && forall k | j < k < |ds| :: !Defines(m, ds[k], q)
    decreases |ds|
  {
    j := -1;
    if ds != [] {
      var d, rest := ds[0], ds[1..];
      var image1 := CompileDecl(m.name, m.authority, d, image);
      var last := CompileDecls(m.name, m.authority, rest, image1);
      j := DeclsCompiled(m, rest, image1, q);
      assert forall k | 0 < k < |ds| :: ds[k] == rest[k - 1];
      if j >= 0 {
        j := j + 1;
      } else {
        FirstCompiled(m, d, image, image1, last.pool, q);
        if Defines(m, d, q) { j := 0; }
      }
    }
  }

  /** The declaration has this qualified name. */
  predicate Defines(m: Module, d: Decl, q: string) { d.Function? && q == m.name + "::" + d.name }

  lemma {:induction false} ModulesCompiled(ms: seq<Module>, image: Image, q: string) returns (i: int, j: nat)
    ensures var r := CompileModules(ms, image);
      && -1 <= i < |ms|
      && (i == -1 ==>
            && (q in r.functions <==> q in image.functions)
            && (q in image.functions ==> r.functions[q] == image.functions[q])
            && forall a: nat, b: nat :: !Qualified(ms, a, b, q))
      && (i >= 0 ==>
            && LastQualified(ms, i, j, q) && q in r.functions
            && ImageOf(ms[i], ms[i].decls[j], r.functions[q], r.pool))
    decreases |ms|
  {
    i, j := -1, 0;
    if ms != [] {
      var m, rest := ms[0], ms[1..];
      var image1 := CompileDecls(m.name, m.authority, m.decls, image);
      i, j := ModulesCompiled(rest, image1, q);
      assert forall a | 0 < a < |ms| :: ms[a] == rest[a - 1];
      forall a: nat, b: nat | a > 0
        ensures Qualified(ms, a, b, q) <==> Qualified(rest, a - 1, b, q)
      {
      }
      if i >= 0 {
        i := i + 1;
        NextQualified(ms, rest, i, j, q);
      } else {
        var k := DeclsCompiled(m, m.decls, image, q);
        if k >= 0 {
          i, j := 0, k;
          ImageGrows(m, m.decls[k], image1.functions[q], image1.pool, CompileModules(ms, image).pool);
        }
        forall a: nat, b: nat | a == 0
          ensures Qualified(ms, a, b, q) <==> b < |m.decls| && Defines(m, m.decls[b], q)
        {
        }
      }
    }
  }

  lemma NextQualified(ms: seq<Module>, rest: seq<Module>, i: nat, j: nat, q: string)
    requires ms != [] && rest == ms[1..] && i > 0 && LastQualified(rest, i - 1, j, q)
    ensures LastQualified(ms, i, j, q)
  {
    forall a: nat, b: nat | After(a, b, i, j)
      ensures !Qualified(ms, a, b, q)
    {
      assert !Qualified(rest, a - 1, b, q);
    }
  }

  /** Exactly the qualified names of the declared functions are compiled, and the last declaration of a name is what is
      found under it. */
  lemma CompiledLast(p: Program, q: string)
    ensures q in CompileProgram(p).functions <==> exists i: nat, j: nat :: LastQualified(p.modules, i, j, q)
    ensures forall i: nat, j: nat | LastQualified(p.modules, i, j, q) ::
              ImageOf(p.modules[i], p.modules[i].decls[j], CompileProgram(p).functions[q], CompileProgram(p).pool)
  {
    var i, j := ModulesCompiled(p.modules, Image(map[], []), q);
    forall a: nat, b: nat | LastQualified(p.modules, a, b, q)
      ensures i >= 0 && a == i && b == j
    {
      assert Qualified(p.modules, a, b, q);
      assert i >= 0 ==> After(a, b, i, j) || After(i, j, a, b) || (a == i && b == j);
    }
  }

  // ---- runs of a loaded program ----

  /** A statement or call is carried out at the authority the text gives the innermost active function: the last
      declaration of its name; outside every function, at the authority the run began with. */
  ghost predicate AsDeclared(ms: seq<Module>, base: Kind, s: Step) {
    if s.active == [] then s.authority == base
    else
      var q := s.active[|s.active| - 1];
      exists i: nat, j: nat :: LastNamed(ms, i, j, q) && RunsAt(ms[i], ms[i].decls[j], s.authority)
  }

  /** The call is of a function that the text gives a higher authority than that of the moment. */
  ghost predicate Escalates(ms: seq<Module>, s: Step) {
    s.Enter? && exists i: nat, j: nat, a: Kind ::
      LastNamed(ms, i, j, s.callee) && RunsAt(ms[i], ms[i].decls[j], a) && EvalLaws.Above(a, s.authority)
  }

  ghost function EscalatingCalls(ms: seq<Module>, trace: seq<Step>): nat {
    if trace == [] then 0
    else EscalatingCalls(ms, trace[..|trace| - 1]) + if Escalates(ms, trace[|trace| - 1]) then 1 else 0
  }

  lemma EscalatesIff(ms: seq<Module>, c: Ctx, base: Kind, s: Step)
    requires c.functions == LoadModules(ms, map[])
    requires RunLaws.StepDisciplined(c, base, s)
    ensures Escalates(ms, s) <==> RunLaws.RaisesRank(c, base, s)
  {
    if s.Enter? {
      LoadedLast(ms, s.callee);
      forall a: Kind { EvalLaws.AboveIff(a, s.authority); }
    }
  }

  lemma {:induction false} EscalationsCounted(ms: seq<Module>, c: Ctx, base: Kind, past: seq<Step>, steps: seq<Step>)
    requires c.functions == LoadModules(ms, map[])
    requires forall k | 0 <= k < |steps| :: RunLaws.StepDisciplined(c, base, steps[k])
    ensures RunLaws.Raises(c, base, past + steps) == RunLaws.Raises(c, base, past) + EscalatingCalls(ms, steps)
    decreases |steps|
  {
    if steps == [] {
      assert past + steps == past;
    } else {
      var n := |steps| - 1;
      EscalatesIff(ms, c, base, steps[n]);
      EscalationsCounted(ms, c, base, past, steps[..n]);
      assert (past + steps)[..|past| + n] == past + steps[..n];
    }
  }

  /** In every run of a loaded program every statement and call is carried out as declared, the authority is back on
      every way out, and escalation events number exactly the calls that the text makes escalating. */
  lemma DeclaredAuthority(p: Program, c: Ctx, fuel: nat, st: State, env: Env, name: string, args: seq<Value>)
    requires c.functions == LoadModules(p.modules, map[]) && st.active == []
    ensures var b := RunFunction(c, fuel, st, env, name, args).st;
      && b.authority == st.authority && b.active == [] && st.trace <= b.trace
      && (forall k | |st.trace| <= k < |b.trace| :: AsDeclared(p.modules, st.authority, b.trace[k]))
      && RunLaws.Escalations(b.audit) ==
           RunLaws.Escalations(st.audit) + EscalatingCalls(p.modules, b.trace[|st.trace|..])
  {
    var b, base := RunFunction(c, fuel, st, env, name, args).st, st.authority;
    RunLaws.AuthorityDiscipline(c, base, fuel, st, env, name, args);
    RunLaws.ActiveKnown(c, fuel, st, env, name, args);
    forall k | |st.trace| <= k < |b.trace|
      ensures AsDeclared(p.modules, base, b.trace[k])
    {
      StepDeclared(p.modules, c, base, b.trace[k]);
    }
    var steps := b.trace[|st.trace|..];
    assert st.trace + steps == b.trace;
    EscalationsCounted(p.modules, c, base, st.trace, steps);
  }

  lemma StepDeclared(ms: seq<Module>, c: Ctx, base: Kind, s: Step)
    requires c.functions == LoadModules(ms, map[])
    requires s.authority == RunLaws.Declared(c, base, s.active) && RunLaws.StepKnown(c, s)
    ensures AsDeclared(ms, base, s)
  {
    if s.active != [] {
      var q := s.active[|s.active| - 1];
      LoadedLast(ms, q);
      var i: nat, j: nat :| LastNamed(ms, i, j, q);
      assert RunsAt(ms[i], ms[i].decls[j], s.authority);
    }
  }
}
