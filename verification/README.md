# ULX, the canonical JSON encoder and the governance ledger: a verified model

This project models the parts of the repository whose correctness spans many functions or a whole run, and proves
properties of them in Dafny. `dafny verify dfyconfig.toml` checks everything.

**The ULX language** (`ulx/ulx.py`).
`Ast` holds tokens and syntax trees. `Grammar` gives each parsing routine as a function on the tokens not yet read,
and `ParserObject` the parser itself: an object with an index, its loops and early exits, proved to follow the
grammar. `Printer` writes a tree with parentheses where an operand's own level is below the one its place expects;
`RoundTrip` and `ProgramRoundTrip` prove that the parser gives the tree back. `Precedence` characterises the
expression parser by a ladder of operators written out by hand, and `Surface` names the words and marks of every form.
`Semantics` is the tree walk as a function on states (globals, anchors, authority, audit trail) and
`InterpreterObject` the interpreter with its fields, proved to follow it. A state also records a history - one point
per executed statement, one mark per call - so that laws can speak of every moment of a run. `RunLaws`, `EffectFree`
and `Governed` prove the laws about authority, globals, invariants and rollback by induction on the interpreter's own
recursion, and `EvalLaws` says of every construct which part of it runs, from which state and in which environment.
`Compiler` is the code generator with its growing pool of constants, `Machine` a stack machine for its opcodes (the
repository has none). `CompilerCorrect` proves that the code of an expression or a statement gives the value or the
exception of the tree walk, and `CompiledPrograms` that the code of blocks, functions and programs does so under any
effect-free constitution, unless a round of checks ends the tree walk first. `Decompiler` reads code back: it
determines the expression up to what compiling drops. `ProgramLaws` ties loaded and compiled functions, and the
authority of every statement of a run, to the declarations in the program text. `Wrappers` is shared by all.

**Trust** (`ulx/ulx.py`). `Trust` is the validation and decay of trust contexts and their weight in routing;
`TrustLedger` the two interlocked hash chains with their verifier; `LedgerLaws` completeness over all runs and tamper
evidence; `TrustReference` the validation, the constitutional gate, the records and the verifier once more, on the
records' own fields and with every threshold, kind and hashed field written out.

**Substrates** (`ulx/ulx.py`). `Registry` is the registry with its four maps and two logs, and the harmonic engine over
it; `RegistryLaws` the invariants of every run of both; `RegistryReference` what each step stores, and the history of a
descriptor over a run.

**TypeScript cores** (`agent/`). `CanonicalJson` is the canonical form and text of a value and a reader for such
texts, `Canonicalizer` the recursive method with its loop, `CanonicalJsonLaws` unique decodability,
`CanonicalReference` the order of keys by their first difference and the text as code units and string literals.
`GovernanceLedger` is the in-memory chain with its log file, `GovernanceLaws` its linkage over interleavings, restarts
and torn writes, and what the lineage check means on it, `ReceiptLaws` what its receipts hold over every run.
`EvidenceMerge` is the merge of evidence chains and the lineage check across runtimes.

## How things are modelled

- A hash is a free constructor (`TrustLedger.Digest`, `GovernanceLedger.Hash`) or a parameter (`Registry.Hash`, where
  only `EventIdsDistinct` asks that it has no collisions). Floating point numbers are reals. Clock readings,
  identifiers and the awaited continuity hash are arguments.
- Exceptions are results. A registry call or a ledger record that raises does so before it changes anything.
- What the interpreter takes from Python - `==` and ordering of values, arithmetic, negation, dictionary access, the
  functions of the standard library - is a parameter, `Semantics.Host`; the theorems hold for every choice of it. A
  library call is told how many came before it, so that what a clock or a ledger answers may differ from call to call;
  `map` and `filter` call back into the program. Call depth is bounded by a number of frames, as Python's is: running
  out is `RecursionError`, and the theorems hold for every bound.
- The seven binary methods of the parser, `parse_pipe` to `parse_multiplicative`, have one shape and are one method
  with the level as an argument. The printer parenthesises by level alone, so it also writes the parentheses of `a +
  (assert b)`, which the parser would not miss. It always parenthesises the condition of an `if` and the subject of a
  `match`, since the parser reads `x {` as the start of a record.
- A parsed `if` is an expression, so a `return` in its branch ends the branch only; a failing `enforce` does not roll
  back; `&&` and `||` evaluate both sides; a `rollback` never evaluates its operand. The model keeps all of this.
- In the canonical encoder an `undefined` property may be overwritten by a later one whose name has the same normal
  form. Two values that differ only in such a property share their text (`UndefinedOverwritten`), so "equal" below
  ignores them.
- A property reads as taken when its name is one every object inherits, such as `toString`; such objects are rejected.
- A swallowed write failure can break the linkage after a restart (`LostWriteBreaks`). Not every one does: the log
  stays a chain while nothing whole is written after the lost receipt, and where a torn line already stops its reader.
  `ChainedIff` says exactly when, over runs in which any writes fail. `LinkageAlways` is about runs in which completed
  appends reach the log.
- A tagged `let` under `!`, `enforce` or `assert` is tested by its tag object in the tree walk and by its bare value
  in the code. The two agree exactly when the bare value is truthy or gets no tag (`NotLetIff`, `CheckLetIff`,
  `EnforceLetIff`). The fragment of the compiler theorems admits a `let` there when its type never tags and its value
  is never one that is tagged.
- A signal derived before an update and applied after it moves the canonical state; `DerivedMovesIff` says exactly
  when. A temporal sync that names another epoch is exactly what unsettles the epochs (`EpochsIff`).
- `verify_chain` never reads the list of revisions. Revisions are covered only through the receipts
  (`RevisionsPinned`).

## Model

| member | source | states |
|---|---|---|
| Grammar.ParseProgram | ulx/ulx.py:185-192 | parsing any token list ends; success means the rest begins at EOF and the tree is well formed |
| Grammar.ParseBinary | ulx/ulx.py:420-469 | every routine of the expression levels leaves strictly less text, and a well-formed tree; which tree is said by the four rows below |
| Precedence.RungIsLevel | ulx/ulx.py:420-469 | every infix operator stands on exactly one rung of the ladder pipe; or; and; `== !=`; `> < >= <=`; `+ -`; `* / %`, and the level that reads it is that rung |
| Precedence.ParsesExactly | ulx/ulx.py:417-469 | for every text: the expression parser returns a tree and a rest exactly when the text is a chain of operands and infix operators up to that rest, no operator comes next, and the root of the tree and of each of its parts is the last of the loosest operators there |
| Precedence.TwoOperators | ulx/ulx.py:420-469 | `x s y t z`, for any operands of the unary level and any end: the right pair is grouped first exactly when `t` stands on a later rung than `s`, else the left pair |
| Precedence.WrittenOperators | ulx/ulx.py:417-503 | the same for any three well-formed trees, in their texts |
| Grammar.ParsePrimary | ulx/ulx.py:505-599 | a primary expression takes at least one token and is well formed |
| Grammar.DictSet | ulx/ulx.py:586-597 | assigning a record field keeps places and names, replaces in place or appends exactly when the name is new |
| RoundTrip.TypeBack | ulx/ulx.py:305-336 | a printed type expression reads back as itself, in front of anything that cannot continue a type |
| RoundTrip.OperandBack | ulx/ulx.py:420-503 | at every one of the ten levels, a printed operand brings the routine into its loop with exactly that operand |
| RoundTrip.ExpressionBack | ulx/ulx.py:417-599 | printing with parentheses only where levels ask for them and parsing gives the tree back and stops exactly at the next token |
| RoundTrip.BinaryOfPrimary | ulx/ulx.py:420-469 | a parenthesised operand before a brace is taken whole by all seven binary levels |
| RoundTrip.StatementBack | ulx/ulx.py:377-415 | every statement the grammar knows comes back from its text |
| RoundTrip.BlockBack | ulx/ulx.py:369-375 | so does every block |
| RoundTrip.ParsedExpressions | ulx/ulx.py:417-599 | the trees the expression parser can return are exactly the well-formed ones |
| RoundTrip.PrintInjective | ulx/ulx.py:417-599 | different trees are written differently |
| Surface.Prefixes | ulx/ulx.py:471-478 | `!` makes a negation, `-` a minus, `trust` a trust reference |
| Surface.Postfixes | ulx/ulx.py:480-503 | `.`, `::` and parentheses take everything left of them as their target |
| Surface.Parentheses | ulx/ulx.py:568-577 | one expression in parentheses is itself, two or more are a tuple |
| Surface.Ifs | ulx/ulx.py:527-536 | the block before `else` runs where the condition holds, the one behind it is the other part; `then` and `else` may be missing |
| Surface.Governing | ulx/ulx.py:377-415 | which statement each of `enforce`, `anchor`, `rollback` and `emit` makes of its expression |
| Surface.Functions | ulx/ulx.py:272-296 | a function keeps parameters, return type and body in their places, and the level between brackets exactly where there is one |
| ProgramRoundTrip.FunctionBack | ulx/ulx.py:272-296 | a function declaration with parameters, authority and body comes back from its text |
| ProgramRoundTrip.DeclBack | ulx/ulx.py:259-367 | so does every declaration |
| ProgramRoundTrip.InvariantBack | ulx/ulx.py:213-240 | so does every invariant clause |
| ProgramRoundTrip.ModuleBack | ulx/ulx.py:242-257 | so does every module |
| ProgramRoundTrip.ProgramBack | ulx/ulx.py:185-211 | every program comes back from its text, read up to the final EOF |
| ProgramRoundTrip.ParsedPrograms | ulx/ulx.py:185-192 | the programs the parser can return are exactly the well-formed ones |
| ParserObject.Parser.Advance | ulx/ulx.py:172-176 | gives the token at the index and moves one on, never past EOF |
| ParserObject.Parser.ParseProgram | ulx/ulx.py:185-192 | the object follows the grammar and, on success, its index is at the last token, the EOF |
| ParserObject.Parser.ParseConstitution | ulx/ulx.py:194-201 | its loop over articles follows the grammar |
| ParserObject.Parser.ParseArticle | ulx/ulx.py:203-211 | its loop over invariants follows the grammar |
| ParserObject.Parser.ParseInvariant | ulx/ulx.py:213-240 | follows the grammar |
| ParserObject.Parser.ParseModule | ulx/ulx.py:242-251 | its loop over declarations follows the grammar |
| ParserObject.Parser.ParseDeclaration | ulx/ulx.py:259-270 | follows the grammar |
| ParserObject.Parser.ParseFunction | ulx/ulx.py:272-290 | follows the grammar |
| ParserObject.Parser.ParseType | ulx/ulx.py:305-336 | follows the grammar |
| ParserObject.Parser.ParseBlock | ulx/ulx.py:369-375 | its loop over statements follows the grammar |
| ParserObject.Parser.ParseStatement | ulx/ulx.py:377-415 | follows the grammar |
| ParserObject.Parser.ParseBinary | ulx/ulx.py:420-469 | the left-associative loop of each binary level follows the grammar, and so builds the trees of `Precedence.ParsesExactly` |
| ParserObject.Parser.ParseUnary | ulx/ulx.py:471-478 | follows the grammar |
| ParserObject.Parser.ParsePostfix | ulx/ulx.py:480-503 | its loop over calls, members and scopes follows the grammar |
| ParserObject.Parser.ParsePrimary | ulx/ulx.py:505-599 | follows the grammar |
| ParserObject.Parser.ParsePattern | ulx/ulx.py:601-611 | follows the grammar |
| InterpreterObject.Interpreter.EvalExpr | ulx/ulx.py:2635-2703 | the object's fields and the local environment end as the state function says, with its result; what that means for each construct is said by the `EvalLaws` rows |
| InterpreterObject.Interpreter.InvokeTarget | ulx/ulx.py:2777-2789 | the order of lookups of a callee, and the call |
| InterpreterObject.Interpreter.CallCallable | ulx/ulx.py:2791-2796 | a call back from the library runs the program function on the object |
| InterpreterObject.Interpreter.RunFunction | ulx/ulx.py:2530-2548 | the call, with the authority set, the escalation noted and the authority put back on every way out |
| InterpreterObject.Interpreter.ExecBlock | ulx/ulx.py:2550-2557 | the loop over statements with the round of checks after each |
| InterpreterObject.Interpreter.ExecStmt | ulx/ulx.py:2559-2593 | each statement's effect on locals, globals, anchors and audit trail |
| InterpreterObject.Interpreter.RollbackToLastAnchor | ulx/ulx.py:2595-2600 | the last anchor written over the globals, and the event |
| InterpreterObject.Interpreter.EmitSignal | ulx/ulx.py:2154-2169 | the loop over observers, each on a copy of the globals of its moment |
| InterpreterObject.Interpreter.CheckAll | ulx/ulx.py:2108-2124 | the loop over clauses, stopped by the first violation |
| InterpreterObject.Interpreter.CheckClause | ulx/ulx.py:2108-2140 | one clause: errors read as not applicable, a violation rolls back and raises |
| EvalLaws.IfChooses | ulx/ulx.py:2672-2677 | an `if` expression: a condition that is not falsy makes the outcome that of the `then` block from the state behind the condition, the same for every `else` part, a falsy one the other way round; the caller's environment stays as the condition left it |
| EvalLaws.IfStmtChooses | ulx/ulx.py:2587-2592 | the same for the statement, which shares the environment and drops the value |
| EvalLaws.MatchChooses | ulx/ulx.py:2678-2684 | the first arm whose pattern takes the subject runs, with the subject under the name of a binding pattern, and no other makes a difference; None where none does |
| EvalLaws.OperatorTable | ulx/ulx.py:2732-2761 | every operator on values under any tags: equality, the logical operators by falsiness, orderings with None, and Python for the rest, operands in order |
| EvalLaws.PrefixTable | ulx/ulx.py:2656-2661 | `!` is whether the operand is falsy, `-` is Python's |
| EvalLaws.UnwrapIff | ulx/ulx.py:2705-2714 | all outer `Lawful` and `Governed` tags come off and nothing else |
| EvalLaws.FieldTable | ulx/ulx.py:2716-2730 | what a field of each kind of value is; of a record the first field of that name |
| EvalLaws.NameIs | ulx/ulx.py:2639-2648 | a name is the local, else the global, else the library function, and raises exactly where there is none |
| EvalLaws.TrustIs | ulx/ulx.py:2698-2699 | a trust reference passes over a falsy local and keeps tags |
| EvalLaws.TagTable | ulx/ulx.py:2619-2633 | which type annotations tag a value, and with what |
| EvalLaws.BindSets | ulx/ulx.py:2561-2565 | a binding sets the local name always, the global one only where there is none |
| EvalLaws.AnchorKeeps | ulx/ulx.py:2574-2577 | an anchor is a copy of the local environment behind its expression |
| EvalLaws.RollbackRestores | ulx/ulx.py:2595-2600 | every name of the last anchor is back at its anchored value, everything else stays, one event is added |
| EvalLaws.EnforceRaises | ulx/ulx.py:2568-2573 | a falsy `enforce` leaves its event and raises, without a rollback |
| EvalLaws.ListInOrder | ulx/ulx.py:2773-2775 | operands are evaluated left to right, each where the one before left off, up to the first that raises |
| EvalLaws.CallRuns | ulx/ulx.py:2530-2548 | a call runs the body of that function on a copy of the globals with each argument under its parameter, at the declared authority; the caller keeps authority and environment |
| EvalLaws.AboveIff | ulx/ulx.py:2090 | pure < lawful < reactive < sovereign, anything else as lawful |
| EvalLaws.CalleeIs | ulx/ulx.py:2777-2789 | library before program functions, qualified names in the program only, member calls without effect |
| EvalLaws.PipeIsCall | ulx/ulx.py:2669-2671 | a pipe is the call with one argument, in every state |
| EvalLaws.SignalCallbacks | ulx/ulx.py:2240-2246 | `map` and `filter` run the function once on the signal's value, and what each makes of its result |
| EvalLaws.OtherCallbacks | ulx/ulx.py:2240-2246 | what they do with anything else than a signal and a reference to a function |
| EvalLaws.EmitDelivers | ulx/ulx.py:2154-2170 | every observer's block of that signal runs, in order of registration, on a copy of the globals of its moment with the value under its name, up to the first that raises |
| EvalLaws.BlockInOrder | ulx/ulx.py:2550-2557 | statements run in order with a round of checks behind each, up to the first that raises, is stopped by its checks or returns |
| EvalLaws.RoundInOrder | ulx/ulx.py:2108-2124 | a round goes through all clauses in order, up to the first that raises |
| EvalLaws.ViolationNoted | ulx/ulx.py:2108-2144 | exactly a False `always` and a True `never` are noted, rolled back where there is an anchor, and raise |
| EvalLaws.ResponseRuns | ulx/ulx.py:2121-2124 | a response runs exactly where its trigger is True |
| RunLaws.FunctionEvolves | ulx/ulx.py:2530-2548 | any call, however it ends, only appends to history, anchors and audit trail and restores the caller's authority |
| RunLaws.AuthorityDiscipline | ulx/ulx.py:2530-2548 | at every statement and call of every run the current authority is the declared one of the innermost active function, it is restored on every exit, and escalation events number exactly the rank-raising calls |
| ProgramLaws.LoadedLast | ulx/ulx.py:2518-2528 | for every program: loaded are exactly the declared names, plain and qualified, each with the parameters, the body and the authority - its own where it gives one, else its module's - of the last declaration of that name |
| ProgramLaws.CompiledLast | ulx/ulx.py:2386-2402 | for every program: compiled are exactly the qualified names, each with the parameters and the authority of the last declaration and with code of its body over part of the pool |
| ProgramLaws.DeclaredAuthority | ulx/ulx.py:2518-2548 | in every run of a loaded program each statement and call is carried out at the authority its text declares for the innermost active function, and escalation events number exactly the calls of a function declared above the authority of the moment |
| RunLaws.GlobalsOnlyGrow | ulx/ulx.py:2559-2600 | a run without rollback never changes or drops a global; anchors and audit trail are only appended to |
| EffectFree.EvalIsPure | ulx/ulx.py:2635-2703 | an effect-free expression changes nothing and has a value that depends on globals and locals only |
| EffectFree.ChecksOnlyLook | ulx/ulx.py:2108-2140 | a round of checks over an effect-free constitution changes nothing unless a clause is broken; when it passes none is, when it raises a violation one is, and the rollback has been made |
| Governed.InvariantSafety | ulx/ulx.py:2108-2140 | in every run that ends normally, after every statement at any nesting no always clause is False and no never clause True; in one that ends badly, up to the last |
| Governed.GovernedRollback | ulx/ulx.py:2141-2144 | a run ended by a violation stopped right after the statement that broke a clause, with every anchored name at its anchored value and all else as that statement left it |
| Compiler.CompilerObject.Const | ulx/ulx.py:2382-2384 | a constant is appended and its index is where it is |
| Compiler.CompilerObject.Expr | ulx/ulx.py:2436-2480 | code and pool are those of the compilation function |
| Compiler.CompilerObject.Statement | ulx/ulx.py:2416-2434 | code and pool are those of the compilation function |
| Compiler.CompilerObject.Block | ulx/ulx.py:2410-2414 | the loop concatenates the code of the statements over one pool |
| Compiler.CompilerObject.ProgramImage | ulx/ulx.py:2386-2402 | the nested loops give every function its code under its qualified name, as `ProgramLaws.CompiledLast` says it of the text |
| Decompiler.CodeBack | ulx/ulx.py:2436-2480 | reading the code of any expression on a stack of trees gives the expression back, up to the type of a `let`, `trust` and the choice of `enforce` or `assert` |
| Decompiler.SameCodeIff | ulx/ulx.py:2436-2480 | two expressions have the same code and pool exactly when they are the same up to that |
| Decompiler.StatementBack | ulx/ulx.py:2416-2434 | a statement's code is its expression's, then the one instruction of its kind |
| Machine.RunAppend | ulx/ulx.py:2410-2480 | running two pieces of code in sequence is running their concatenation |
| CompilerCorrect.ExprCorrect | ulx/ulx.py:2436-2480 | for every expression of the fragment the emitted code raises what evaluation raises, or leaves its value (up to a transparent tag) on top, with locals, anchors and sent signals still corresponding |
| CompilerCorrect.StmtCorrect | ulx/ulx.py:2416-2434 | the same for every statement of the fragment |
| CompiledPrograms.BlockCorrect | ulx/ulx.py:2550-2557 | under an effect-free constitution, a straight-line block that its checks do not stop raises or returns what its code does, with corresponding locals, anchors and signals |
| CompiledPrograms.BlockStopped | ulx/ulx.py:2550-2557 | a block stopped by its checks raises what they raise after its first n statements, whose code has got to a state corresponding to the one checked |
| CompiledPrograms.FunctionCorrect | ulx/ulx.py:2530-2548 | the code of a body, run on a frame of globals and arguments, gives what `run_function` gives unless the checks stop that, and they end it with an exception |
| CompiledPrograms.ProgramCorrect | ulx/ulx.py:2386-2402 | the same for every function of a compiled program, on the final pool, against the loaded one |
| CompiledPrograms.PlainProgramCorrect | ulx/ulx.py:2386-2402 | without a constitution the two agree always |
| CompilerCorrect.ExprIndices | ulx/ulx.py:2436-2480 | every constant index emitted for an expression is inside the pool, over any earlier pool |
| CompilerCorrect.BlockIndices | ulx/ulx.py:2410-2434 | the same for blocks |
| CompilerCorrect.NotLetIff | ulx/ulx.py:2685-2688 | under `!` the code of any `let` of the fragment agrees with the tree walk exactly when the bound value is truthy or gets no tag |
| CompilerCorrect.CheckLetIff | ulx/ulx.py:2693-2697 | the same under `enforce` and `assert` expressions |
| CompilerCorrect.EnforceLetIff | ulx/ulx.py:2568-2573 | the same in an `enforce` statement |
| CompilerCorrect.TaggedValue | ulx/ulx.py:2685-2688 | an instance: `let x: Lawful<bool> = false` fails the condition, and its negation is False in the tree walk |
| CompilerCorrect.TaggedCode | ulx/ulx.py:2468-2469 | and True in the emitted code |
| CompilerCorrect.TrustRefAgreesIff | ulx/ulx.py:2476-2477 | exactly when the compiled `trust x` gives what the tree walk gives |
| Trust.ValidateAgain | ulx/ulx.py:1442-1508 | a validated context validates to itself |
| TrustReference.ValidateIff | ulx/ulx.py:1432-1508 | exactly which contexts validate - score, band, a reference that is not blank, authority, revision, rate - and what becomes of each field |
| TrustReference.Kept | ulx/ulx.py:1459 | the references kept are those that are not blank, in their order |
| TrustReference.DecayIff | ulx/ulx.py:1683-1697 | exactly when a decay succeeds, and every field of its result |
| Trust.StaysValid | ulx/ulx.py:1683-1697 | every iterate of decay validates to itself, with the band of its score |
| Trust.DecayClosedForm | ulx/ulx.py:1683-1697 | n decays give score max(floor, s(1-r)^n), revision +n, the band of that score, the same evidence, authority, validity and superseded name, and no provenance, chain or hashes |
| Trust.DecayFallsIff | ulx/ulx.py:1683-1697 | a decay does not raise the score exactly when the floor is not above it |
| Trust.DecayNeverRises | ulx/ulx.py:1556-1565 | along any decays with the floor not above the score and a non-negative weight, neither band nor contribution ever rises |
| Trust.ContributionMonotone | ulx/ulx.py:1556-1565 | a higher score never lowers band or contribution |
| TrustReference.ContributionIs | ulx/ulx.py:1556-1565 | the contribution in each of the three ranges of the score |
| TrustReference.WeightIs | ulx/ulx.py:1560 | the weight is that of the last "trust" tier, 0.3 where there is none |
| TrustLedger.LedgerObject.AppendReceipt | ulx/ulx.py:1832-1868 | exactly one receipt is appended, naming the last signature and the next index |
| TrustLedger.LedgerObject.RecordTrustRevision | ulx/ulx.py:1870-1913 | revision and receipt are both recorded, or, when validation fails, nothing is |
| TrustLedger.LedgerObject.RecordDecision | ulx/ulx.py:1921-1953 | decision and receipt are both recorded, or nothing is; which decisions are is said by the next three rows |
| TrustReference.RecordedIff | ulx/ulx.py:1802-1824 | a decision is recorded exactly when it is of one of the five kinds, its context is sound and, below a score of 0.34, it has two references that are not blank and an authority of at least 0.75; otherwise the ledger is unchanged |
| TrustReference.GateAlways | ulx/ulx.py:1802-1824 | over every run every recorded decision is of one of the five kinds, has a score from 0 to below 1, and below 0.34 at least two references and an authority of at least 0.75 |
| TrustReference.DecisionStored | ulx/ulx.py:1921-1953 | the entry and the receipt of a decision, every field, hash and signature |
| TrustReference.RevisionStored | ulx/ulx.py:1870-1913 | the same for a revision |
| TrustLedger.LedgerObject.TrustStateFor | ulx/ulx.py:1915-1919 | the last revision of the subject, or none exactly when there is none |
| TrustLedger.LedgerObject.VerifyChain | ulx/ulx.py:1958-2004 | both loops answer, or raise, as the two-chain verification says |
| TrustReference.VerifiedIff | ulx/ulx.py:1958-2004 | the verifier is satisfied exactly when every decision carries the hash and signature of its own fields behind the one before it, and every receipt those of its fields, its place and sound trust behind the one before it |
| LedgerLaws.ReceiptsAppend | ulx/ulx.py:1966-2003 | a chain with one more receipt verifies exactly when the chain does and the receipt fits its end |
| LedgerLaws.RunComplete | ulx/ulx.py:1832-2004 | after any sequence of records the chain verifies, receipts number revisions plus decisions, and receipts by kind are exactly the recorded hashes in order |
| LedgerLaws.ReceiptsPinned | ulx/ulx.py:1966-2003 | verified receipt chains with one last signature have the same receipts, up to the empty band |
| LedgerLaws.EntriesPinned | ulx/ulx.py:1958-1965 | verified decision chains with one last hash have the same decisions in every hashed field |
| LedgerLaws.TamperEvidence | ulx/ulx.py:1958-2004 | two verified ledgers end in the same signature and hash exactly when they agree on every hashed field of every receipt and decision |
| LedgerLaws.RevisionsPinned | ulx/ulx.py:1870-1913 | ledgers built by recording with one last signature have the same revisions, in every field |
| Registry.Strip | ulx/ulx.py:1071-1084 | the result begins and ends with no white space, and a text that already does not is unchanged |
| RegistryReference.StripIff | ulx/ulx.py:1071-1084 | stripping gives the one stretch of the text with white space only around it and none at its ends |
| Registry.ComputeDelta | ulx/ulx.py:974-1000 | reconciliation is required exactly when epoch or one of the hashes differs |
| RegistryReference.DeltaIs | ulx/ulx.py:974-1000 | a delta is the difference of the epochs and one conflict for each hash that differs |
| Registry.SubstrateRegistry.RegisterSubstrate | ulx/ulx.py:1099-1140 | all four maps and the event log after a registration; an unknown type or a known name changes nothing |
| Registry.SubstrateRegistry.UpdateSubstrate | ulx/ulx.py:1154-1213 | all four maps and the event log after an update; an unknown name changes nothing |
| Registry.SubstrateRegistry.CompareContinuity | ulx/ulx.py:1215-1219 | the delta against the stored canonical state, or the failure |
| Registry.SubstrateRegistry.ApplySignal | ulx/ulx.py:1221-1288 | binding, status and both logs after a signal; an unknown type or name, or a target epoch that is no number, changes nothing |
| Registry.SubstrateRegistry.EmitSignal | ulx/ulx.py:1290-1305 | both logs after an emission; an unknown type or scope changes nothing |
| Registry.HarmonicEngine.EmitFor | ulx/ulx.py:1400-1412 | the derived signal is in the engine's log and the registry's, or nothing changed |
| Registry.HarmonicEngine.Apply | ulx/ulx.py:1414-1415 | the registry's application, the engine's log untouched |
| RegistryReference.RegisterIff | ulx/ulx.py:1071-1102 | a registration succeeds exactly for a known type under a name that is not taken, both trimmed |
| RegistryReference.RegisterStores | ulx/ulx.py:1099-1140 | every record a registration files, from the descriptor as given |
| RegistryReference.UpdateStores | ulx/ulx.py:1154-1213 | an update stores the version, domain and capabilities it was given, keeps those it was not, and files state, status, lineage, delta and event for them |
| RegistryReference.ApplyStores | ulx/ulx.py:1221-1288 | a signal sets the one field of the canonical state that its kind is about, where its payload gives it |
| RegistryReference.DeriveIs | ulx/ulx.py:1003-1049 | the signal derived for a local state asks for the canonical evidence hash where that differs, else for the authority hash, else for nothing |
| RegistryReference.EmitForStores | ulx/ulx.py:1400-1412 | the signal emitted for a local state is the one derived against the stored canonical state, logged with the engine and the registry |
| RegistryReference.DescriptorHistory | ulx/ulx.py:1099-1213 | over every run the descriptor of a substrate is that of its registration with the last version, domain and capabilities a later update of it gave |
| RegistryLaws.SoundAlways | ulx/ulx.py:1052-1305 | in every run the four maps share their keys, every record is filed under its own name, descriptors are tidy, statuses show the canonical epoch, chains end in the parent and name known substrates, events are numbered |
| RegistryLaws.EventIdsDistinct | ulx/ulx.py:1061-1069 | with a hash without collisions no two events of a run share an identifier |
| RegistryLaws.EpochsAfter | ulx/ulx.py:1099-1305 | an operation keeps all epochs right exactly when it is not a temporal sync to another epoch |
| RegistryLaws.EpochsIff | ulx/ulx.py:1221-1240 | epochs are right all through a run exactly when no operation of it is one |
| RegistryLaws.RegistryEpochs | ulx/ulx.py:1052-1305 | when all applied signals are derived ones, each replay epoch is the last seen epoch and the place of the event that registered or last updated that substrate, and no two are equal |
| RegistryLaws.LastShaped | ulx/ulx.py:1061-1069 | the place of the last event that shaped a substrate, with none after it |
| RegistryLaws.UpdateDrift | ulx/ulx.py:1186-1206 | an update always stores a delta that asks for reconciliation, behind by exactly the events since the substrate was last shaped |
| RegistryLaws.DeltaDetermines | ulx/ulx.py:974-1000 | a delta and its local state determine the canonical epoch and both hashes |
| RegistryLaws.DerivedMovesIff | ulx/ulx.py:1003-1049 | exactly when a signal derived from one canonical state leaves another as it is |
| RegistryLaws.CanonicalFixed | ulx/ulx.py:1397-1415 | over any interleaving without an update of it, a substrate's own derived signals never move its canonical state |
| RegistryLaws.AppliedSettles | ulx/ulx.py:1263-1269 | once one of them was applied its stored delta is and stays zero |
| RegistryLaws.ChainGrows | ulx/ulx.py:1174-1184 | chains grow by suffix only: the substrate's own name once per update |
| RegistryLaws.AncestorChains | ulx/ulx.py:1099-1184 | every chain is its parent's chain at registration, the parent if registered then, and the own name once per later update |
| RegistryLaws.ChainsKnown | ulx/ulx.py:1103-1108 | chains mention registered substrates only and end in the recorded parent |
| Canonicalizer.Collected | agent/npcm-standards/npcmClient.ts:33-38 | the loop that fills the object collects what the specification says, or raises |
| Canonicalizer.Canonicalize | agent/npcm-standards/npcmClient.ts:30-52 | the recursive method returns the text of the normal form, or raises exactly when there is none; order and text are spelled out by `CanonicalReference` |
| CanonicalReference.NormSorted | agent/npcm-standards/npcmClient.ts:40 | in every object of every normal form any two consecutive keys agree up to a place where the first ends and the second goes on, or where the first has the smaller code unit |
| CanonicalReference.LessIff | agent/npcm-standards/npcmClient.ts:40 | the order used is exactly that one |
| CanonicalReference.CanonicalIs | agent/npcm-standards/npcmClient.ts:30-52 | the canonical text of every accepted value, code unit by code unit: brackets, commas, colons, words, decimal numbers, quoted strings with their escapes |
| CanonicalReference.NumberAccepted | agent/npcm-standards/npcmClient.ts:45-50 | accepted numbers are exactly the integers below 2^53 in size |
| CanonicalReference.TakenIff | agent/npcm-standards/npcmClient.ts:36-37 | a key is refused exactly when an earlier entry with a value has it or every object has it |
| CanonicalJsonLaws.AcceptedIff | agent/npcm-standards/npcmClient.ts:30-52 | exactly which values are accepted: safe integers, no inherited name, no key again after a defined entry, no `undefined` left |
| CanonicalJsonLaws.NormIsNormal | agent/npcm-standards/npcmClient.ts:33-41 | a normal form has normalised strings, ascending keys in the order of `CanonicalReference.LessIff`, safe integers |
| CanonicalJsonLaws.NormalFixed | agent/npcm-standards/npcmClient.ts:30-52 | and is its own normal form |
| CanonicalJsonLaws.FillGet | agent/npcm-standards/npcmClient.ts:33-38 | what is collected under a key is exactly the defined entry of that normalised key |
| CanonicalJsonLaws.StringBack | agent/npcm-standards/npcmClient.ts:40-44 | a quoted string reads back: escapes, control characters, surrogates paired and alone |
| CanonicalJsonLaws.ValueBack | agent/npcm-standards/npcmClient.ts:58-62 | the text of a value, whatever follows it, reads back as the value and stops there |
| CanonicalJsonLaws.EmitInjective | agent/npcm-standards/npcmClient.ts:30-52 | no two normal values share a text |
| CanonicalJsonLaws.SameIffNorm | agent/npcm-standards/npcmClient.ts:30-52 | accepted values are equal up to key order and normalisation exactly when they have one normal form |
| CanonicalJsonLaws.UniquelyDecodable | agent/npcm-standards/npcmClient.ts:30-52 | accepted values share a canonical text exactly when they are equal up to key order and normalisation |
| CanonicalJsonLaws.RoundTrip | agent/npcm-standards/npcmClient.ts:58-62 | for every accepted value the text is read to its end, and the value read, with its properties listed in any order, is accepted and gives the same text |
| CanonicalJsonLaws.RoundTripEqual | agent/npcm-standards/npcmClient.ts:58-62 | `roundTrip(v).equal` for every accepted value, with `JSON.parse` listing array indices first in numeric order |
| CanonicalJsonLaws.RelistedNorm | agent/npcm-standards/npcmClient.ts:32-41 | any listing of a normal value's properties is accepted and has that value as its normal form |
| CanonicalJsonLaws.CanonicalHash | agent/npcm-standards/npcmClient.ts:54-56 | a hash without collisions tells accepted values apart exactly when they differ |
| CanonicalJsonLaws.UndefinedOverwritten | agent/npcm-standards/npcmClient.ts:36-38 | an `undefined` entry behind which the same normalised key comes again leaves no trace in the text |
| GovernanceLedger.LedgerModule.EnsureLoaded | agent/governance/ledger.ts:25-39 | the first use appends the receipts of the longest prefix of lines that parse; later ones do nothing |
| GovernanceLedger.LedgerModule.AppendWal | agent/governance/ledger.ts:41-48 | a line is added, or, when the write fails, nothing |
| GovernanceLedger.LedgerModule.AppendToLedger | agent/governance/ledger.ts:59-63 | loads, then appends in memory and to the log |
| GovernanceLedger.LedgerModule.GetLedgerTailHash | agent/governance/ledger.ts:70-74 | the hash of the last receipt, "genesis" when there is none |
| GovernanceLedger.LedgerModule.ClearLedger | agent/governance/ledger.ts:76-80 | memory and log are empty |
| GovernanceLedger.LedgerModule.RecordReceipt | agent/governance/receipts.ts:44-72 | one receipt is appended whose previous hash is the tail read in the same step |
| ReceiptLaws.ReceiptIs | agent/governance/receipts.ts:44-69 | every field of a receipt, its level - the one asked for, else A0 for a blocked action and A1 otherwise - its evidence, the tail it names and its hash |
| ReceiptLaws.EvidenceAlways | agent/governance/receipts.ts:14-37 | over every run, whatever writes fail, every receipt in memory and on the log has the pieces of evidence of its level in order, each with its authority, the first with the action itself |
| ReceiptLaws.LoadIs | agent/governance/ledger.ts:25-39 | reading a log gives the receipts of its first lines, one each, up to the first line that is not the text of one receipt |
| ReceiptLaws.ResumeStores | agent/governance/ledger.ts:41-63 | a resumed call adds its receipt in memory always and as a line of its own where the write succeeds |
| GovernanceLedger.LedgerModule.VerifyLineage | agent/cmas/validator.ts:137-151 | filter and loop answer whether the workflow's receipts are consecutively linked |
| GovernanceLaws.ChainExtends | agent/governance/receipts.ts:44-69 | a receipt extends a chain exactly when it names the tail and carries its own hash, so a stale tail never does |
| GovernanceLaws.HashesDistinct | agent/governance/receipts.ts:54-60 | the receipts of a chain have pairwise distinct hashes |
| GovernanceLaws.LoadWritten | agent/governance/ledger.ts:25-48 | a complete append adds exactly its receipt to what a clean log reads, and never adds to a log that is cut short |
| GovernanceLaws.LoadTorn | agent/governance/ledger.ts:25-48 | what a torn append adds to or takes from what the log reads |
| GovernanceLaws.LinkageAlways | agent/governance/ledger.ts:25-80 | over any interleaving of calls, restarts, torn writes and clears the ledger in memory is a chain from "genesis", and what a restart would read is a prefix of it |
| GovernanceLaws.Recovery | agent/governance/ledger.ts:25-39 | on a clean log a restart loses nothing, and a crash at most the receipt being written |
| GovernanceLaws.DurableAppendIff | agent/governance/ledger.ts:41-63 | exactly when an append leaves the log readable as a chain |
| GovernanceLaws.ChainedIff | agent/governance/ledger.ts:25-80 | whatever writes fail, memory and log are chains all through a run exactly when no step writes a whole receipt to a clean log that lags behind the ledger |
| GovernanceLaws.LostWriteBreaks | agent/governance/ledger.ts:41-48 | a swallowed write failure, one more receipt and a restart: no chain |
| GovernanceLaws.LineageIff | agent/cmas/validator.ts:137-151 | on a linked ledger the check passes exactly when the workflow's receipts form one non-empty contiguous block |
| GovernanceLaws.LineageAlways | agent/cmas/validator.ts:137-151 | so it does in every reachable state |
| ReceiptLaws.LineageMeans | agent/cmas/validator.ts:137-151 | the same on the receipts' own workflow names |
| EvidenceMerge.MergeEvidenceChains | agent/federation/federatedValidator.ts:98-111 | the loop with its set keeps exactly the pieces whose identifier was not seen before |
| EvidenceMerge.MergeIds | agent/federation/federatedValidator.ts:98-111 | merged identifiers are pairwise distinct and are the union of both inputs' |
| EvidenceMerge.MergeOrder | agent/federation/federatedValidator.ts:98-111 | the merge lists exactly the first occurrences, in order, and the local piece wins |
| EvidenceMerge.MergeAssociative | agent/federation/federatedValidator.ts:98-111 | merging is associative |
| EvidenceMerge.MergeIdempotentIff | agent/federation/federatedValidator.ts:98-111 | a chain merged with itself is itself exactly when it repeats no identifier |
| EvidenceMerge.VerifyCrossRuntimeLineage | agent/federation/federatedValidator.ts:31-41 | the loop lists the gaps in order and answers whether there is none |
| EvidenceMerge.GapsListed | agent/federation/federatedValidator.ts:31-41 | the gaps are, in order and each once, the records that name a previous hash other than their neighbour's |
| EvidenceMerge.GapsJoin | agent/federation/federatedValidator.ts:31-41 | the gaps of two lists joined are those of each and, between them, the one at the seam |
| EvidenceMerge.NoGapsIff | agent/federation/federatedValidator.ts:31-41 | there is no gap exactly when every record that names a previous hash names its neighbour's |

## Left out

- The lexer, the messages and positions of parse errors, the command line, the interactive loop and `.ulxb` files.
- `load_program`'s top-level `bind` statements, which run with the globals themselves as local environment; functions
  are loaded (`CompiledPrograms.LoadModules`), the clauses of a constitution are taken as already listed.
- The standard library's own functions, Python's operators and `repr`: parameters of the model, as said above.
- Object identity of records and tags under `==`; `map` and `filter` on anything but a signal.
- GovernedRollback: asks for a constitution whose expressions are effect-free, those of when/then clauses included;
  with others the checks themselves may bind names, set anchors or run program code.
- InvariantSafety: under the same condition.
- BlockCorrect: covers straight-line blocks. Calls into the program, records, `if`, `match`, `rollback`, `trust`
  references, bindings of `Signal` and `Trust` type and `emit` to a signal with observers are outside, since their
  opcodes carry syntax trees or the compiler drops what the tree walk does; so is a tagged `let` under an operator.  A
  constitution whose expressions have effects is outside too.
- Routing, delegation, proposals and pricing over trust: tables of one formula each.
- The trust ledger's snapshot and replay views, and the registry's snapshot.
- RegisterSubstrate: the non-text values Python would convert with `str`, and the order of dictionary keys, are not
  modelled.
- CanonicalText: arrays have no holes, objects no getters; recursion depth is unbounded.
- RoundTrip: `JSON.parse` is modelled without white space, fractions and exponents, which no canonical text has, and
  integers are exact.
- The rest of the NPCM client: diagnostics of single fields, migration, and the subprocess calls.
- ClearLedger: the truncation of the log is taken to succeed.
- LinkageAlways: completed appends are taken to reach the log, and receipts to come from `recordReceipt`; direct calls
  of `appendToLedger` with a foreign receipt, two processes on one log, and callers that change a returned receipt are
  left out.
- The read-only inspection of the log, hooks told of new receipts, and the rest of the validator and of the federation
  proof.
- `ulx/ulx_ide.py`, `ulx/ulx_integration.py`, the remote clients, the orchestrator, the agentic loop, the arena and
  the kernel status: user interface and plumbing, or tables one reading settles.
