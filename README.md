# SeaHorn BMC driver and counterexample harness, modelled in Dafny

This project models two parts of SeaHorn's bounded model checking (BMC)
pipeline and proves properties of the model.

- **Harness synthesis** (`lib/seahorn/Harness.cc`). `createLLVMHarness` scans
  a BMC counterexample trace. It records, for every original external function
  called along the trace, the concrete values those calls returned, in trace
  order. It then builds a harness module. Each integer-returning callee gets
  three things: a private constant array of those values, a private `i32`
  call counter that starts at 0, and a stub. The stub hands the counter's old
  value, the array and its length to an external `get_value_<ty>` oracle.
  `exprToLlvm` converts a solver value into the literal stored in the array.
- **The BMC pass** (`lib/seahorn/BmcPass.cc`). `runOnModule` analyses only
  `main`. `runOnFunction` does the following:
  - It picks the entry cut point and the first returning cut point.
  - It skips the function with a warning when there is no such cut point, or
    no cut-point edge reaches it.
  - It creates a monolithic or a path-based engine, adds the two cut points,
    encodes, and dumps SMT-LIB when an output stream is set.
  - Unless it is in encode-only mode, it solves and reports the tri-state
    answer as one output line and a `Result` statistic.

Files:

- `common.dfy`: module `Common`, which holds `Option`.
- `decimal.dfy`: module `Decimal`. It models base-10 printing of integers
  (`mpz_class::get_str`), the parsing LLVM does on that text, and their round
  trip.
- `harness.dfy`: module `Harness`. It holds the model of the trace, the
  capture, the harness module, the run-time `Stub` class and the as-written
  oracle naming.
- `bmc_pass.dfy`: module `BmcPass`. It holds the model of the function and its
  cut-point graph, the `BmcEngine` collaborator, `RunOnFunction`,
  `RunOnModule` and the lemmas about their steps.

Modelling choices:

- A trace is a sequence of blocks. Each block is a sequence of instructions. A
  map from (position, instruction index) to a solver value stands for
  `trace.eval(loc, I)`.
- A callee is a record of name, linkage and function type. Two distinct
  functions of one LLVM module never share a name, so the record identifies
  the function, as the `Function*` key of `FuncValueMap` does.
- `FuncValueMap` is a `map<Callee, seq<Expr>>`. `ValueMap` iterates in hash
  order, so the build loop picks each next callee with `:|`. The build
  declares each oracle once per name (the corrected behaviour; see Findings),
  and with that its result is proved to be the same whatever the order. As
  written, which of two same-typed stubs calls a renamed oracle depends on
  that order.
- The pass's observable effects are returned as a list of events, in order.
  These are the warning on the error stream, engine creation, each cut point
  added, the encoding, the SMT-LIB dump, solving, each write to the output
  stream and each statistic set. The solver is an opaque function from the
  encoded query (engine class, function, cut points) to a tri-state answer.
- Cut points are block indices, and the entry block is index 0.
  `RunOnFunction` requires that the function has a body and that its entry
  block is a cut point. The source's `cpg.getCp(F.getEntryBlock())` relies on
  both.

Two points of the source's behaviour are easy to miss:

- A non-integer callee still gets a bodiless declaration in the harness,
  because `getOrInsertFunction` (Harness.cc:71) runs before the type test at
  Harness.cc:73. `HarnessFromTrace` states this.
- The comment at BmcPass.cc:93 assumes the return is unique. The loop takes
  the first returning cut-point block in function order, and so does the
  model.

## Model

| member | source | states |
|---|---|---|
| Decimal.DecimalRoundTrip | lib/seahorn/Harness.cc:21-22 | Parsing the base-10 text printed for any integer gives back that integer. |
| Decimal.DigitsRoundTrip | lib/seahorn/Harness.cc:21-22 | The digits printed for a natural number denote that number. |
| Decimal.DecimalInjective | lib/seahorn/Harness.cc:21-22 | Distinct integers print as distinct base-10 text. |
| Harness.ExprToLlvm | lib/seahorn/Harness.cc:13-30 | Total. TRUE gives the i1 literal 1 and FALSE gives the i1 literal 0. An MPZ value gives the literal of the same number at the requested width, through print-then-parse. Any other kind gives 0. |
| Harness.Eval | lib/seahorn/Harness.cc:50-51 | The trace gives the call a value exactly when the model assigns that position. |
| Harness.ValuesOfSnoc | lib/seahorn/Harness.cc:58 | The reference "values of c in order" grows by the new value exactly when the new site calls c. |
| Harness.GroupIsValuesOf | lib/seahorn/Harness.cc:40-61 | A callee has a list exactly when some site calls it. That list is exactly the values of its sites, in site order. |
| Harness.ValuesOfEmpty | lib/seahorn/Harness.cc:58 | A callee's value list is empty exactly when no site calls it. |
| Harness.BlockSitesSound | lib/seahorn/Harness.cc:43-60 | The sites of one block are captured calls of that block, in ascending instruction order. |
| Harness.TraceSitesSound | lib/seahorn/Harness.cc:40-62 | The sites of a trace prefix are captured calls, in strictly ascending (location, instruction) order. |
| Harness.BlockSitesComplete | lib/seahorn/Harness.cc:43-60 | Every captured call of a block is among that block's sites. |
| Harness.TraceSitesComplete | lib/seahorn/Harness.cc:40-62 | Every captured call of a trace prefix is among its sites. |
| Harness.SitesExact | lib/seahorn/Harness.cc:40-61 | A call is a site exactly when its called function is known, the trace gives it a value, and the callee is named, has no '.' in its name and has external linkage. Sites are listed in strictly ascending trace order. |
| Harness.CollectCallValues | lib/seahorn/Harness.cc:37-62 | The nested scan leaves in the value map exactly the per-callee lists that pushing every site in trace order produces. |
| Harness.OracleNameInjective | lib/seahorn/Harness.cc:118-123 | Oracles for integer types of different widths have different names `get_value_i<w>`. |
| Harness.ToLiterals | lib/seahorn/Harness.cc:81-86 | The array has exactly one literal per captured value, and element i is exprToLlvm of value i. |
| Harness.BuildHarness | lib/seahorn/Harness.cc:65-128 | Corrected (see Findings): the oracle is declared once per name. Walking the callees in any order gives the same module. Every callee gets its declaration. Integer callees also get their array, counter and stub. The callees it skips are exactly the non-integer ones. |
| Harness.CreateLLVMHarness | lib/seahorn/Harness.cc:32-131 | Corrected (see Findings): the oracle is declared once per name. The harness is the module built from the per-callee lists of the trace's sites. The skipped callees are the captured non-integer ones. |
| Harness.PositionsOf | lib/seahorn/Harness.cc:40-61 | A callee has as many site positions as captured values, and these are exactly the positions of the sites that call it. |
| Harness.PositionsMatchValues | lib/seahorn/Harness.cc:50-58 | The k-th position of a callee's sites is the position of the site whose value is the callee's k-th captured value. |
| Harness.PositionsDistinct | lib/seahorn/Harness.cc:40-61 | In trace order, no two of a callee's sites share a position. |
| Harness.CapturedCount | lib/seahorn/Harness.cc:40-61 | A callee's value list is as long as the number of its captured calls along the trace. |
| Harness.HarnessFromTrace | lib/seahorn/Harness.cc:40-127 | Corrected (see Findings) for the oracle. A callee has a harness function exactly when the trace holds a captured call to it. That function keeps the callee's name and type, and has a body exactly when the return type is an integer type. The body has: a constant private array of exprToLlvm of the values in trace order; a length equal to the number of captured calls; a private mutable i32 counter starting at 0; and a call to the declared oracle `get_value_<ty>`, which is variadic and returns `ty`. |
| Harness.UncalledNotStubbed | lib/seahorn/Harness.cc:40-71 | A callee never called along the trace gets no function in the harness. |
| Harness.OneOraclePerName | lib/seahorn/Harness.cc:118-124 | No two declared oracles share a name. |
| Harness.Stub.constructor | lib/seahorn/Harness.cc:100-105 | A stub starts with its counter at the counter's initial value. |
| Harness.Stub.Call | lib/seahorn/Harness.cc:107-127 | A call stores counter+1 (i32 wrap-around). It returns the oracle's answer for the old counter, the array and its length, and never indexes the array itself. |
| Harness.Stub.CallRepeatedly | lib/seahorn/Harness.cc:107-127 | Call k (from 0) passes index (counter+k) mod 2^32 to the oracle, including calls past the captured values. The counter ends at (counter+n) mod 2^32. |
| Harness.DeclaredAsWrittenGrows | lib/seahorn/Harness.cc:71-124 | As written, the set of names declared in the harness only grows while callees are processed. |
| Harness.AsWrittenRenamesRepeatedType | lib/seahorn/Harness.cc:118-124 | As written, when two callees return the same integer type, the oracle created for the later one does not get the name `get_value_<ty>`. |
| Harness.AsWrittenTwoInt32Callees | lib/seahorn/Harness.cc:118-124 | As written, with two original i32 callees, the first stub's oracle keeps `get_value_i32` and the second's is renamed. |
| Harness.StubsShareOracle | lib/seahorn/Harness.cc:118-125 | Corrected: every stub of return type `i<w>` calls the one declared oracle `get_value_i<w>`. |
| BmcPass.BmcEngine.constructor | lib/seahorn/BmcPass.cc:117-132 | A new engine has the chosen class, no cut points and no encoding. |
| BmcPass.BmcEngine.AddCutPoint | lib/seahorn/BmcPass.cc:135-136 | Appends one cut point and leaves the encoding state alone. |
| BmcPass.BmcEngine.Encode | lib/seahorn/BmcPass.cc:140 | Marks the engine encoded and keeps its cut points. |
| BmcPass.BmcEngine.ToSmtLib | lib/seahorn/BmcPass.cc:141 | Only an encoded engine is dumped. The dump is the query encoded from the engine's class, function and cut points. |
| BmcPass.BmcEngine.Solve | lib/seahorn/BmcPass.cc:150 | Only an encoded engine is solved. The answer is the solver's answer on the encoded query. |
| BmcPass.FirstReturnCutPointFrom | lib/seahorn/BmcPass.cc:93-99 | The result is a block that returns and is a cut point, and no earlier block is both. The result is none exactly when no block is both. |
| BmcPass.FindReturnCutPoint | lib/seahorn/BmcPass.cc:93-99 | The loop with `break` finds exactly the first returning cut-point block, in function order. |
| BmcPass.SelectStrategy | lib/seahorn/BmcPass.cc:118-132 | The engine is path-based exactly when the configured kind is `path_bmc`. Every other value selects the monolithic engine. |
| BmcPass.VerdictText | lib/seahorn/BmcPass.cc:153-155 | The line is `sat` exactly for true, `unsat` exactly for false, and `unknown` exactly for indeterminate. |
| BmcPass.ResultStat | lib/seahorn/BmcPass.cc:158-159 | `Result` is FALSE exactly on true, TRUE exactly on false, and unset exactly on indeterminate. |
| BmcPass.ReportVerdict | lib/seahorn/BmcPass.cc:153-159 | The tribool `if`/`else if` cascade writes the verdict, then a newline, then the statistic, as the reference report says. |
| BmcPass.RunOnFunction | lib/seahorn/BmcPass.cc:86-181 | Never reports a change. Its steps are exactly the reference run of the function: guards, engine choice, cut points, encode, optional dump, optional solve and report. |
| BmcPass.FirstMainFrom | lib/seahorn/BmcPass.cc:66-67 | The result is a function named main with no earlier one, or none when no function is named main. |
| BmcPass.FindMain | lib/seahorn/BmcPass.cc:66-67 | The loop finds exactly the first function named main. |
| BmcPass.RunOnModule | lib/seahorn/BmcPass.cc:64-69 | Never reports a change. It produces the steps of the first main, or none at all. |
| BmcPass.OutputsAppend | lib/seahorn/BmcPass.cc:153-159 | The output text and the statistics of two consecutive step lists are those of the first followed by those of the second. |
| BmcPass.OutTextAppend | lib/seahorn/BmcPass.cc:153-156 | The output text of two consecutive step lists is that of the first followed by that of the second. |
| BmcPass.StatsSetAppend | lib/seahorn/BmcPass.cc:158-159 | The statistics set by two consecutive step lists are those of the first followed by those of the second. |
| BmcPass.NoOutputs | lib/seahorn/BmcPass.cc:101-147 | Steps that neither print nor set a statistic write nothing and set nothing. |
| BmcPass.ReportOutputs | lib/seahorn/BmcPass.cc:153-159 | The report writes exactly the verdict and a newline, and sets `Result` only on a decided answer. |
| BmcPass.SkipIsWarningOnly | lib/seahorn/BmcPass.cc:101-111 | The run is exactly the one "never returns" warning if and only if there is no returning cut point or no edge from the entry to it. A skipped run writes no output and sets no statistic. |
| BmcPass.SetupOrder | lib/seahorn/BmcPass.cc:118-141 | A verified run creates the engine of the configured class, then adds the entry and the target cut points, then encodes. The dump comes right after the encoding, exactly when an output stream is set. |
| BmcPass.EncodeOnlyHasNoVerdict | lib/seahorn/BmcPass.cc:143-147 | In encode-only mode there is no solving, no output line and no statistic. |
| BmcPass.SolvedRunReportsVerdict | lib/seahorn/BmcPass.cc:149-159 | A solving run writes exactly one line, `sat`, `unsat` or `unknown` followed by a newline. The line is for the solver's answer on the entry-to-target query. The run sets `Result` to FALSE on sat, to TRUE on unsat, and not at all on unknown. |
| BmcPass.DumpMatchesSolve | lib/seahorn/BmcPass.cc:140-156 | The dumped query, solved again, gives the verdict that is printed. This holds by construction: the dump and the solve see the same engine state, with both cut points added and the query encoded, which is all an opaque encoder allows one to state. |
| BmcPass.OnlyFirstMainAnalysed | lib/seahorn/BmcPass.cc:64-69 | A module without main produces nothing. Otherwise the run is that of the first function named main. |

## Left out

- LLVM IR construction (`IRBuilder`, `GlobalVariable`, `ArrayType`, `Module`): the harness is an abstract record of functions and oracle declarations, and a stub body is a record of its array, counter, oracle name and length.
- Harness.ExprToLlvm: does not model how APInt reads a decimal string into a fixed width (truncation or overflow). The MPZ value is kept as an unbounded integer. The i1-only assertion inside `ConstantInt::getTrue`/`getFalse` is not modelled either.
- Harness.ExprToLlvm: the `LOG("cex")` warning for an unhandled value kind is diagnostic output and is not modelled.
- Harness.BuildHarness: the "Skipping non-integer function" message is modelled as the returned set of skipped callees, not as text.
- Harness.BuildHarness: the oracle is declared once per name, as `getOrInsertFunction` would do. The source creates a new one per stub with `Function::Create`, and LLVM renames every repeat (see Findings). The as-written naming is modelled separately by `DeclaredAsWritten`.
- Harness.StubsShareOracle: the oracle's type is modelled as the source builds it. `FunctionType::get(RT, ArgTypes)` at Harness.cc:121 resolves to the `get(Type *Result, bool isVarArg)` overload, so the oracle is variadic and returns `ty`, with no fixed parameters. The three arguments at Harness.cc:111 are passed through the variadic part and are not given types.
- Harness.AsWrittenRenamesRepeatedType: the name LLVM's symbol table gives a renamed oracle is not modelled. The model only records that the requested name was not kept.
- Harness.Stub.Call: the oracle's own behaviour (what `get_value_<ty>` returns for an index past the captured values) is outside the harness, so it is a parameter.
- Iteration order between different callees (hash-ordered `ValueMap`) is a nondeterministic choice. No order is promised.
- SMT encoding, solving, unsat cores and trace extraction (`BmcEngine`, `PathBasedBmcEngine`, `EZ3`, `BvSmallSymExec`, memory model) are opaque. The solver is a function parameter.
- The path-based engine's extra collaborators (TargetLibraryInfo, Crab abstract interpretation, the `HAVE_CRAB_LLVM` split) are not modelled. Only the engine class is recorded.
- `Stats::resume`/`stop` timing around solving, the `LOG`-gated printing of the unsat core, the analysed function and the counterexample trace, pass registration, `createBmcPass` and `getAnalysisUsage` are left out. They are global I/O and plumbing.
- Construction of the cut-point graph is left out. It is consumed as a set of cut-point block indices and a set of edges.

## Findings

| source | as written | input that shows it | evidently intended | confidence | as-written member | corrected member |
|---|---|---|---|---|---|---|
| lib/seahorn/Harness.cc:118-124 | Each stub creates its own oracle with `Function::Create("get_value_<ty>")`. A second declaration of a name that already exists in the module is renamed by LLVM's symbol table. So the later stub of any two that share a return type calls an oracle that is not `get_value_<ty>`. | A trace with captured calls to two original external functions that both return `i32`: whichever is built second calls a renamed oracle. | Every stub of return type `ty` calls the one oracle named `get_value_<ty>`, looked up or inserted by name (`getOrInsertFunction`). | not executed; high that the renaming happens, medium that it is unintended | Harness.AsWrittenRenamesRepeatedType | Harness.StubsShareOracle |
