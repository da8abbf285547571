/**
  The BMC driver pass (lib/seahorn/BmcPass.cc).

  The pass analyses only `main`. It bounds the check by two cut points: the
  entry block and the first block, in function order, that returns and is a
  cut point. It skips the function with a warning when there is no such block
  or no cut-point edge between the two. Otherwise it builds one BMC engine,
  encodes, optionally dumps the encoding as SMT-LIB, and, unless it is in
  encode-only mode, solves and reports the tri-state answer as one output
  line and a `Result` statistic. Its outputs (the error stream, the output
  stream, the dump stream and the statistics) are recorded as a list of events.
*/
module BmcPass {
  import opened Common

  // ---------------------------------------------------------------------------
  // Inputs
  // ---------------------------------------------------------------------------

  /** boost::tribool, the answer of BmcEngine::solve. */
  datatype TriBool = True | False | Indeterminate

  /** `if (res)`: a tribool converts to true only when it is true. */
  predicate Holds(t: TriBool) {
    t == True
  }

  /** `!res`: swaps true and false, keeps indeterminate. */
  function Not(t: TriBool): TriBool {
    match t
    case True => False
    case False => True
    case Indeterminate => Indeterminate
  }

  /** bmc_engine_t: its two enumerators, and any other value the field may hold. */
  datatype EngineKind = MonoBmc | PathBmc | OtherEngineKind(code: int)

  /** The engine class the pass instantiates. */
  datatype Strategy = Monolithic | PathBased

  datatype Terminator = ReturnInst | BranchInst | SwitchInst | UnreachableInst | OtherTerminator

  datatype BasicBlock = BasicBlock(name: string, terminator: Terminator)

  /** A function and its blocks in function order; the entry block is the first. */
  datatype Function = Function(name: string, blocks: seq<BasicBlock>)

  /** The cut-point graph of one function: the cut-point blocks, by index, and the edges between them. */
  datatype CutPointGraph = CutPointGraph(cutPoints: set<nat>, edges: set<(nat, nat)>)

  /**
    What the pass relies on: the function has a body, and its entry block is a
    cut point (cpg.getCp on the entry block demands it).
  */
  predicate WellFormed(f: Function, cpg: CutPointGraph) {
    |f.blocks| > 0 && 0 in cpg.cutPoints
  }

  /** The pass's options: engine kind, whether an SMT-LIB stream is set, solve or encode only. */
  datatype PassConfig = PassConfig(engine: EngineKind, hasOut: bool, solve: bool)

  /** What an engine has been given when it encodes: its class, the function and the cut points. */
  datatype BmcQuery = BmcQuery(strategy: Strategy, f: Function, cutPoints: seq<nat>)

  /** The observable steps of the pass, in order. */
  datatype Event =
    | Warned(message: string)          // errs()
    | EngineCreated(strategy: Strategy)
    | CutPointAdded(cp: nat)
    | Encoded
    | Dumped(query: BmcQuery)          // toSmtLib(*m_out)
    | Solved
    | Printed(text: string)            // outs()
    | StatSet(key: string, value: string)  // Stats::sset

  // ---------------------------------------------------------------------------
  // The engine, as far as the driver uses it
  // ---------------------------------------------------------------------------

  /**
    A BMC engine: the cut points it has been given and whether it has encoded.
    The encoding, the dump text and the solver are opaque: a dump carries the
    query it serializes, and `solver` stands for the answer of solving it.
  */
  class BmcEngine {
    const strategy: Strategy
    const fn: Function
    var cutPoints: seq<nat>
    var encoded: bool

    constructor (strategy: Strategy, fn: Function)
      ensures this.strategy == strategy && this.fn == fn
      ensures cutPoints == [] && !encoded
    {
      this.strategy := strategy;
      this.fn := fn;
      cutPoints := [];
      encoded := false;
    }

    method AddCutPoint(cp: nat)
      modifies this
      ensures cutPoints == old(cutPoints) + [cp] && encoded == old(encoded)
    {
      cutPoints := cutPoints + [cp];
    }

    method Encode()
      modifies this
      ensures encoded && cutPoints == old(cutPoints)
    {
      encoded := true;
    }

    /** Serializes the current encoding; only an encoded engine has one. */
    method ToSmtLib() returns (dump: BmcQuery)
      requires encoded
      ensures dump == BmcQuery(strategy, fn, cutPoints)
    {
      dump := BmcQuery(strategy, fn, cutPoints);
    }

    method Solve(solver: BmcQuery -> TriBool) returns (res: TriBool)
      requires encoded
      ensures res == solver(BmcQuery(strategy, fn, cutPoints))
    {
      res := solver(BmcQuery(strategy, fn, cutPoints));
    }
  }

  // ---------------------------------------------------------------------------
  // Target selection
  // ---------------------------------------------------------------------------

  predicate IsReturnCutPoint(f: Function, cpg: CutPointGraph, k: nat)
    requires k < |f.blocks|
  {
    f.blocks[k].terminator.ReturnInst? && k in cpg.cutPoints
  }

  /** The first block at or after `from` that returns and is a cut point. */
  function FirstReturnCutPointFrom(f: Function, cpg: CutPointGraph, from: nat): (r: Option<nat>)
    requires from <= |f.blocks|
    ensures r.Some? ==> from <= r.value < |f.blocks| && IsReturnCutPoint(f, cpg, r.value)
    ensures r.Some? ==> forall j :: from <= j < r.value ==> !IsReturnCutPoint(f, cpg, j)
    ensures r.None? ==> forall j :: from <= j < |f.blocks| ==> !IsReturnCutPoint(f, cpg, j)
    decreases |f.blocks| - from
  {
    if from == |f.blocks| then None
    else if IsReturnCutPoint(f, cpg, from) then Some(from)
    else FirstReturnCutPointFrom(f, cpg, from + 1)
  }

  /** The target cut point: the first returning cut-point block in function order, if any. */
  function ReturnCutPoint(f: Function, cpg: CutPointGraph): Option<nat> {
    FirstReturnCutPointFrom(f, cpg, 0)
  }

  /** The scan for the target: stops at the first block that returns and is a cut point. */
  method FindReturnCutPoint(f: Function, cpg: CutPointGraph) returns (dst: Option<nat>)
    ensures dst == ReturnCutPoint(f, cpg)
  {
    dst := None;
    var k := 0;
    while k < |f.blocks|
      invariant k <= |f.blocks|
      invariant forall j :: 0 <= j < k ==> !IsReturnCutPoint(f, cpg, j)
    {
      if IsReturnCutPoint(f, cpg, k) {
        dst := Some(k);
        break;
      }
      k := k + 1;
    }
  }

  // ---------------------------------------------------------------------------
  // The outputs of one run
  // ---------------------------------------------------------------------------

  function NeverReturns(name: string): string {
    "WARNING: BmcPass: function '" + name + "' never returns\n"
  }

  /** The engine class: path-based exactly for path_bmc, monolithic for every other value. */
  function SelectStrategy(kind: EngineKind): (s: Strategy)
    ensures s == PathBased <==> kind == PathBmc
  {
    match kind
    case PathBmc => PathBased
    case _ => Monolithic
  }

  /** The verdict line: sat for true, unsat for false, unknown for indeterminate. */
  function VerdictText(res: TriBool): (s: string)
    ensures s == "sat" <==> res == True
    ensures s == "unsat" <==> res == False
    ensures s == "unknown" <==> res == Indeterminate
  {
    if Holds(res) then "sat" else if Holds(Not(res)) then "unsat" else "unknown"
  }

  /** The `Result` statistic: FALSE (a bug) on sat, TRUE (safe) on unsat, nothing on unknown. */
  function ResultStat(res: TriBool): (r: Option<string>)
    ensures r == Some("FALSE") <==> res == True
    ensures r == Some("TRUE") <==> res == False
    ensures r == None <==> res == Indeterminate
  {
    if Holds(res) then Some("FALSE") else if Holds(Not(res)) then Some("TRUE") else None
  }

  /** The function passes both guards: a target exists and the entry has an edge to it. */
  predicate Verifiable(f: Function, cpg: CutPointGraph) {
    ReturnCutPoint(f, cpg).Some? && (0, ReturnCutPoint(f, cpg).value) in cpg.edges
  }

  function Report(res: TriBool): seq<Event> {
    [Printed(VerdictText(res)), Printed("\n")]
    + match ResultStat(res)
      case Some(v) => [StatSet("Result", v)]
      case None => []
  }

  /** What runOnFunction does for f, as the list of its observable steps. */
  function FunctionEvents(cfg: PassConfig, f: Function, cpg: CutPointGraph, solver: BmcQuery -> TriBool): seq<Event>
    requires WellFormed(f, cpg)
  {
    if !Verifiable(f, cpg) then [Warned(NeverReturns(f.name))]
    else
      var dst := ReturnCutPoint(f, cpg).value;
      var query := BmcQuery(SelectStrategy(cfg.engine), f, [0, dst]);
      var setup := [EngineCreated(query.strategy), CutPointAdded(0), CutPointAdded(dst), Encoded]
                   + (if cfg.hasOut then [Dumped(query)] else []);
      if !cfg.solve then setup
      else setup + [Solved] + Report(solver(query))
  }

  /** The verdict line on the output stream, then the `Result` statistic. */
  method ReportVerdict(res: TriBool) returns (events: seq<Event>)
    ensures events == Report(res)
  {
    if Holds(res) {
      events := [Printed("sat")];
    } else if Holds(Not(res)) {
      events := [Printed("unsat")];
    } else {
      events := [Printed("unknown")];
    }
    events := events + [Printed("\n")];
    if Holds(res) {
      events := events + [StatSet("Result", "FALSE")];
    } else if Holds(Not(res)) {
      events := events + [StatSet("Result", "TRUE")];
    }
  }

  /** runOnFunction: never changes the program; its steps are FunctionEvents. */
  method RunOnFunction(cfg: PassConfig, f: Function, cpg: CutPointGraph, solver: BmcQuery -> TriBool)
    returns (changed: bool, events: seq<Event>)
    requires WellFormed(f, cpg)
    ensures !changed
    ensures events == FunctionEvents(cfg, f, cpg, solver)
  {
    var src: nat := 0;
    var dst := FindReturnCutPoint(f, cpg);
    if dst.None? {
      return false, [Warned(NeverReturns(f.name))];
    }
    if (src, dst.value) !in cpg.edges {
      return false, [Warned(NeverReturns(f.name))];
    }
    var strategy := SelectStrategy(cfg.engine);
    var bmc := new BmcEngine(strategy, f);
    events := [EngineCreated(strategy)];
    bmc.AddCutPoint(src);
    events := events + [CutPointAdded(src)];
    bmc.AddCutPoint(dst.value);
    events := events + [CutPointAdded(dst.value)];
    bmc.Encode();
    events := events + [Encoded];
    assert bmc.cutPoints == [0, dst.value] && strategy == SelectStrategy(cfg.engine);
    if cfg.hasOut {
      var dump := bmc.ToSmtLib();
      events := events + [Dumped(dump)];
    }
    if !cfg.solve {
      return false, events;
    }
    var res := bmc.Solve(solver);
    events := events + [Solved];
    var report := ReportVerdict(res);
    events := events + report;
    return false, events;
  }

  // ---------------------------------------------------------------------------
  // The module: only `main` is analysed
  // ---------------------------------------------------------------------------

  /** The first function at or after `from` named main. */
  function FirstMainFrom(m: seq<Function>, from: nat): (r: Option<nat>)
    requires from <= |m|
    ensures r.Some? ==> from <= r.value < |m| && m[r.value].name == "main"
    ensures r.Some? ==> forall j :: from <= j < r.value ==> m[j].name != "main"
    ensures r.None? ==> forall j :: from <= j < |m| ==> m[j].name != "main"
    decreases |m| - from
  {
    if from == |m| then None
    else if m[from].name == "main" then Some(from)
    else FirstMainFrom(m, from + 1)
  }

  function FirstMain(m: seq<Function>): Option<nat> {
    FirstMainFrom(m, 0)
  }

  method FindMain(m: seq<Function>) returns (k: Option<nat>)
    ensures k == FirstMain(m)
  {
    k := None;
    var i := 0;
    while i < |m|
      invariant i <= |m|
      invariant forall j :: 0 <= j < i ==> m[j].name != "main"
    {
      if m[i].name == "main" {
        k := Some(i);
        break;
      }
      i := i + 1;
    }
  }

  /** The main function that is analysed is well formed with respect to its cut-point graph. */
  predicate ModuleWellFormed(m: seq<Function>, cpgOf: Function -> CutPointGraph) {
    FirstMain(m).Some? ==> WellFormed(m[FirstMain(m).value], cpgOf(m[FirstMain(m).value]))
  }

  function ModuleEvents(cfg: PassConfig, m: seq<Function>, cpgOf: Function -> CutPointGraph,
                        solver: BmcQuery -> TriBool): seq<Event>
    requires ModuleWellFormed(m, cpgOf)
  {
    match FirstMain(m)
    case None => []
    case Some(k) => FunctionEvents(cfg, m[k], cpgOf(m[k]), solver)
  }

  /** runOnModule: hands the first `main` to runOnFunction, does nothing without one, and changes nothing. */
  method RunOnModule(cfg: PassConfig, m: seq<Function>, cpgOf: Function -> CutPointGraph,
                     solver: BmcQuery -> TriBool) returns (changed: bool, events: seq<Event>)
    requires ModuleWellFormed(m, cpgOf)
    ensures !changed
    ensures events == ModuleEvents(cfg, m, cpgOf, solver)
  {
    var k := FindMain(m);
    if k.None? {
      return false, [];
    }
    changed, events := RunOnFunction(cfg, m[k.value], cpgOf(m[k.value]), solver);
  }

  // ---------------------------------------------------------------------------
  // Properties of a run
  // ---------------------------------------------------------------------------

  /** Everything written to the output stream, in order. */
  function OutText(es: seq<Event>): string
    decreases |es|
  {
    if es == [] then "" else (if es[0].Printed? then es[0].text else "") + OutText(es[1..])
  }

  /** Every statistic set, in order. */
  function StatsSet(es: seq<Event>): seq<(string, string)>
    decreases |es|
  {
    if es == [] then [] else (if es[0].StatSet? then [(es[0].key, es[0].value)] else []) + StatsSet(es[1..])
  }

  lemma {:induction false} OutTextAppend(a: seq<Event>, b: seq<Event>)
    ensures OutText(a + b) == OutText(a) + OutText(b)
    decreases |a|
  {
    if a == [] {
      assert a + b == b;
    } else {
      assert (a + b)[0] == a[0];
      assert (a + b)[1..] == a[1..] + b;
      OutTextAppend(a[1..], b);
    }
  }

  lemma {:induction false} StatsSetAppend(a: seq<Event>, b: seq<Event>)
    ensures StatsSet(a + b) == StatsSet(a) + StatsSet(b)
    decreases |a|
  {
    if a == [] {
      assert a + b == b;
    } else {
      assert (a + b)[0] == a[0];
      assert (a + b)[1..] == a[1..] + b;
      StatsSetAppend(a[1..], b);
    }
  }

  /** The outputs of two consecutive step lists are those of the first followed by those of the second. */
  lemma OutputsAppend(a: seq<Event>, b: seq<Event>)
    ensures OutText(a + b) == OutText(a) + OutText(b)
    ensures StatsSet(a + b) == StatsSet(a) + StatsSet(b)
  {
    OutTextAppend(a, b);
    StatsSetAppend(a, b);
  }

  /** A list without print or statistic steps writes nothing and sets nothing. */
  lemma {:induction false} NoOutputs(es: seq<Event>)
    requires forall k :: 0 <= k < |es| ==> !es[k].Printed? && !es[k].StatSet?
    ensures OutText(es) == "" && StatsSet(es) == []
    decreases |es|
  {
    if es != [] {
      NoOutputs(es[1..]);
    }
  }

  lemma ReportOutputs(res: TriBool)
    ensures OutText(Report(res)) == VerdictText(res) + "\n"
    ensures StatsSet(Report(res)) == match ResultStat(res) case Some(v) => [("Result", v)] case None => []
  {
    var r := Report(res);
    var line := [Printed(VerdictText(res)), Printed("\n")];
    var stat := if ResultStat(res).Some? then [StatSet("Result", ResultStat(res).value)] else [];
    assert r == line + stat;
    OutputsAppend(line, stat);
    assert line == [Printed(VerdictText(res))] + [Printed("\n")];
    OutputsAppend([Printed(VerdictText(res))], [Printed("\n")]);
    if stat != [] {
      assert stat == [StatSet("Result", ResultStat(res).value)] + [];
    }
  }

  /**
    A function without a returning cut point reachable by an edge from the
    entry is skipped: the run is the one warning and nothing else, so nothing
    is encoded, solved, printed or recorded.
  */
  lemma SkipIsWarningOnly(cfg: PassConfig, f: Function, cpg: CutPointGraph, solver: BmcQuery -> TriBool)
    requires WellFormed(f, cpg)
    ensures !Verifiable(f, cpg) <==> FunctionEvents(cfg, f, cpg, solver) == [Warned(NeverReturns(f.name))]
    ensures !Verifiable(f, cpg) ==>
      OutText(FunctionEvents(cfg, f, cpg, solver)) == "" && StatsSet(FunctionEvents(cfg, f, cpg, solver)) == []
  {
    NoOutputs([Warned(NeverReturns(f.name))]);
  }

  /**
    A function that passes the guards gets one engine of the configured
    class, its entry and target cut points before the encoding, and the dump,
    which comes right after the encoding, exactly when an output stream is set.
  */
  lemma SetupOrder(cfg: PassConfig, f: Function, cpg: CutPointGraph, solver: BmcQuery -> TriBool)
    requires WellFormed(f, cpg) && Verifiable(f, cpg)
    ensures var es := FunctionEvents(cfg, f, cpg, solver);
      var dst := ReturnCutPoint(f, cpg).value;
      && |es| >= 4
      && es[..4] == [EngineCreated(SelectStrategy(cfg.engine)), CutPointAdded(0), CutPointAdded(dst), Encoded]
      && (cfg.hasOut <==> |es| > 4 && es[4].Dumped?)
      && (cfg.hasOut ==> es[4] == Dumped(BmcQuery(SelectStrategy(cfg.engine), f, [0, dst])))
  {
  }

  /** In encode-only mode the run stops after the encoding and the dump: no solving, no verdict, no statistic. */
  lemma EncodeOnlyHasNoVerdict(cfg: PassConfig, f: Function, cpg: CutPointGraph, solver: BmcQuery -> TriBool)
    requires WellFormed(f, cpg) && !cfg.solve
    ensures Solved !in FunctionEvents(cfg, f, cpg, solver)
    ensures OutText(FunctionEvents(cfg, f, cpg, solver)) == ""
    ensures StatsSet(FunctionEvents(cfg, f, cpg, solver)) == []
  {
    var es := FunctionEvents(cfg, f, cpg, solver);
    NoOutputs(es);
  }

  /**
    A run that solves prints exactly one verdict line, sat, unsat or unknown
    followed by a newline, for the solver's answer on the query it encoded,
    and sets `Result` to FALSE on sat, TRUE on unsat and not at all on unknown.
  */
  lemma SolvedRunReportsVerdict(cfg: PassConfig, f: Function, cpg: CutPointGraph, solver: BmcQuery -> TriBool)
    requires WellFormed(f, cpg) && Verifiable(f, cpg) && cfg.solve
    ensures var res := solver(BmcQuery(SelectStrategy(cfg.engine), f, [0, ReturnCutPoint(f, cpg).value]));
      var es := FunctionEvents(cfg, f, cpg, solver);
      && OutText(es) == VerdictText(res) + "\n"
      && VerdictText(res) in {"sat", "unsat", "unknown"}
      && StatsSet(es) == (match ResultStat(res) case Some(v) => [("Result", v)] case None => [])
  {
    var dst := ReturnCutPoint(f, cpg).value;
    var query := BmcQuery(SelectStrategy(cfg.engine), f, [0, dst]);
    var setup := [EngineCreated(query.strategy), CutPointAdded(0), CutPointAdded(dst), Encoded]
                 + (if cfg.hasOut then [Dumped(query)] else []);
    var res := solver(query);
    assert FunctionEvents(cfg, f, cpg, solver) == (setup + [Solved]) + Report(res);
    NoOutputs(setup + [Solved]);
    OutputsAppend(setup + [Solved], Report(res));
    ReportOutputs(res);
  }

  /** The dumped encoding is the one solved: solving the dump again gives the printed verdict. */
  lemma DumpMatchesSolve(cfg: PassConfig, f: Function, cpg: CutPointGraph, solver: BmcQuery -> TriBool)
    requires WellFormed(f, cpg) && Verifiable(f, cpg) && cfg.hasOut && cfg.solve
    ensures var es := FunctionEvents(cfg, f, cpg, solver);
      |es| > 4 && es[4].Dumped? && OutText(es) == VerdictText(solver(es[4].query)) + "\n"
  {
    SetupOrder(cfg, f, cpg, solver);
    SolvedRunReportsVerdict(cfg, f, cpg, solver);
  }

  /** Only the first function named main is analysed; a module without one produces no output at all. */
  lemma OnlyFirstMainAnalysed(cfg: PassConfig, m: seq<Function>, cpgOf: Function -> CutPointGraph,
                              solver: BmcQuery -> TriBool)
    requires ModuleWellFormed(m, cpgOf)
    ensures (forall j :: 0 <= j < |m| ==> m[j].name != "main") ==> ModuleEvents(cfg, m, cpgOf, solver) == []
    ensures forall k :: 0 <= k < |m| && m[k].name == "main" && (forall j :: 0 <= j < k ==> m[j].name != "main") ==>
      WellFormed(m[k], cpgOf(m[k])) &&
      ModuleEvents(cfg, m, cpgOf, solver) == FunctionEvents(cfg, m[k], cpgOf(m[k]), solver)
  {
  }
}
