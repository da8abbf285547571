/**
  Counterexample-to-harness synthesis (lib/seahorn/Harness.cc).

  A BMC counterexample is a sequence of visited basic blocks together with the
  solver's partial valuation of the instructions at each position. The
  synthesizer records, per "original" external callee, the values its calls
  returned along the trace, in trace order, and builds a harness module in
  which each integer-returning callee becomes a stub that replays those values
  through a `get_value_<ty>` oracle driven by a private call counter.
*/
module Harness {
  import opened Common
  import Decimal

  // ---------------------------------------------------------------------------
  // Solver values and their conversion to literals (exprToLlvm)
  // ---------------------------------------------------------------------------

  /** A value the solver's model assigns to a term, as far as exprToLlvm tells kinds apart. */
  datatype Expr = TrueExpr | FalseExpr | MpzExpr(n: int) | OtherExpr(kind: nat)

  /** An integer constant of the harness: its bit width and its value. */
  datatype Literal = IntLit(width: nat, value: int)

  /**
    exprToLlvm: the literal of an integer type of the given width for a solver
    value. It is total: TRUE and FALSE become the i1 constants that
    ConstantInt::getTrue and getFalse give, an MPZ number is printed in base 10
    and parsed back at the target width, and every other kind becomes zero.
  */
  function ExprToLlvm(width: nat, e: Expr): (r: Literal)
    ensures e.TrueExpr? ==> r == IntLit(1, 1)
    ensures e.FalseExpr? ==> r == IntLit(1, 0)
    ensures e.MpzExpr? ==> r == IntLit(width, e.n)
    ensures e.OtherExpr? ==> r == IntLit(width, 0)
  {
    match e
    case TrueExpr => IntLit(1, 1)
    case FalseExpr => IntLit(1, 0)
    case MpzExpr(n) =>
      Decimal.DecimalRoundTrip(n);
      IntLit(width, Decimal.FromDecimal(Decimal.ToDecimal(n)))
    case OtherExpr(_) => IntLit(width, 0)
  }

  // ---------------------------------------------------------------------------
  // The program side of the trace
  // ---------------------------------------------------------------------------

  /** LLVM's linkage kinds (GlobalValue::LinkageTypes). */
  datatype Linkage =
    | ExternalLinkage | AvailableExternallyLinkage | LinkOnceAnyLinkage | LinkOnceODRLinkage
    | WeakAnyLinkage | WeakODRLinkage | AppendingLinkage | InternalLinkage | PrivateLinkage
    | ExternalWeakLinkage | CommonLinkage

  /** A first-class type, as far as the harness distinguishes: integer types by width, all others opaque. */
  datatype Type = IntegerType(width: nat) | NonIntegerType(id: nat)

  datatype FunctionType = FunctionType(ret: Type, params: seq<Type>, isVarArg: bool)

  /**
    A function that a call instruction calls directly. An empty name is a
    function without a name. Within one module two distinct functions never
    carry the same name, so the record identifies the function.
  */
  datatype Callee = Callee(name: string, linkage: Linkage, fnType: FunctionType)

  /** An instruction: a call (whose called function is unknown for an indirect call) or anything else. */
  datatype Inst = CallInst(calledFunction: Option<Callee>) | OtherInst

  /**
    A BMC trace: `bbs[loc]` holds the instructions of the block visited at
    position `loc`, and `model[(loc, i)]`, when present, is the value that
    `eval(loc, I)` gives for the i-th instruction of that block.
  */
  datatype BmcTrace = BmcTrace(bbs: seq<seq<Inst>>, model: map<(nat, nat), Expr>)

  function Eval(t: BmcTrace, loc: nat, i: nat): (v: Option<Expr>)
    ensures v.Some? <==> (loc, i) in t.model
  {
    if (loc, i) in t.model then Some(t.model[(loc, i)]) else None
  }

  /** A callee the synthesizer treats as an original function: named, no '.' in the name, external linkage. */
  predicate IsOriginal(c: Callee) {
    c.name != "" && '.' !in c.name && c.linkage == ExternalLinkage
  }

  // ---------------------------------------------------------------------------
  // Reference definition of what the trace scan captures
  // ---------------------------------------------------------------------------

  /** One captured call: its position in the trace, its callee and the value the trace gives it. */
  datatype Site = Site(loc: nat, idx: nat, callee: Callee, value: Expr)

  /** The i-th instruction of the block at `loc` is a captured call. */
  predicate Captures(t: BmcTrace, loc: nat, i: nat, c: Callee, v: Expr) {
    && loc < |t.bbs| && i < |t.bbs[loc]|
    && t.bbs[loc][i] == CallInst(Some(c))
    && Eval(t, loc, i) == Some(v)
    && IsOriginal(c)
  }

  function SiteAt(t: BmcTrace, loc: nat, i: nat): (r: seq<Site>)
    requires loc < |t.bbs| && i < |t.bbs[loc]|
  {
    match t.bbs[loc][i]
    case CallInst(Some(c)) =>
      if (loc, i) in t.model && IsOriginal(c) then [Site(loc, i, c, t.model[(loc, i)])] else []
    case _ => []
  }

  /** The captured calls among the first n instructions of the block at `loc`. */
  function BlockSites(t: BmcTrace, loc: nat, n: nat): seq<Site>
    requires loc < |t.bbs| && n <= |t.bbs[loc]|
    decreases n
  {
    if n == 0 then [] else BlockSites(t, loc, n - 1) + SiteAt(t, loc, n - 1)
  }

  /** The captured calls of the first n positions of the trace, in trace order. */
  function TraceSites(t: BmcTrace, n: nat): seq<Site>
    requires n <= |t.bbs|
    decreases n
  {
    if n == 0 then [] else TraceSites(t, n - 1) + BlockSites(t, n - 1, |t.bbs[n - 1]|)
  }

  function Sites(t: BmcTrace): seq<Site> {
    TraceSites(t, |t.bbs|)
  }

  /** Position (loc, idx) of a comes strictly before that of b: ascending location, then instruction order. */
  predicate Before(a: Site, b: Site) {
    a.loc < b.loc || (a.loc == b.loc && a.idx < b.idx)
  }

  /** The values of the sites calling c, in the order of the sites. */
  function ValuesOf(ss: seq<Site>, c: Callee): seq<Expr>
    decreases |ss|
  {
    if ss == [] then []
    else (if ss[0].callee == c then [ss[0].value] else []) + ValuesOf(ss[1..], c)
  }

  /** `FuncValueMap[CF].push_back(V)`: append v to c's list, creating the list on first use. */
  function Push(m: map<Callee, seq<Expr>>, c: Callee, v: Expr): map<Callee, seq<Expr>> {
    m[c := (if c in m then m[c] else []) + [v]]
  }

  /** The per-callee value lists that pushing every site of ss, in order, produces. */
  function Group(ss: seq<Site>): map<Callee, seq<Expr>>
    decreases |ss|
  {
    if ss == [] then map[]
    else
      var s := ss[|ss| - 1];
      Push(Group(ss[..|ss| - 1]), s.callee, s.value)
  }

  // ---------------------------------------------------------------------------
  // Properties of the capture
  // ---------------------------------------------------------------------------

  lemma GroupSnoc(ss: seq<Site>, s: Site)
    ensures Group(ss + [s]) == Push(Group(ss), s.callee, s.value)
  {
    assert (ss + [s])[..|ss|] == ss;
  }

  lemma {:induction false} ValuesOfSnoc(ss: seq<Site>, s: Site, c: Callee)
    ensures ValuesOf(ss + [s], c) == ValuesOf(ss, c) + (if s.callee == c then [s.value] else [])
    decreases |ss|
  {
    if ss != [] {
      assert (ss + [s])[1..] == ss[1..] + [s];
      ValuesOfSnoc(ss[1..], s, c);
    }
  }

  /**
    The list pushed for a callee holds exactly the values of its sites, in
    order, and a callee has a list exactly when at least one site calls it.
  */
  lemma {:induction false} GroupIsValuesOf(ss: seq<Site>, c: Callee)
    ensures c in Group(ss) <==> ValuesOf(ss, c) != []
    ensures c in Group(ss) ==> Group(ss)[c] == ValuesOf(ss, c)
    ensures c !in Group(ss) ==> ValuesOf(ss, c) == []
    decreases |ss|
  {
    if ss != [] {
      var init, s := ss[..|ss| - 1], ss[|ss| - 1];
      assert ss == init + [s];
      GroupIsValuesOf(init, c);
      ValuesOfSnoc(init, s, c);
    }
  }

  lemma {:induction false} ValuesOfEmpty(ss: seq<Site>, c: Callee)
    ensures ValuesOf(ss, c) == [] <==> forall k :: 0 <= k < |ss| ==> ss[k].callee != c
    decreases |ss|
  {
    if ss != [] {
      ValuesOfEmpty(ss[1..], c);
      assert forall k :: 1 <= k < |ss| ==> ss[k] == ss[1..][k - 1];
    }
  }

  lemma {:induction false} BlockSitesSound(t: BmcTrace, loc: nat, n: nat)
    requires loc < |t.bbs| && n <= |t.bbs[loc]|
    ensures forall s :: s in BlockSites(t, loc, n) ==>
      s.loc == loc && s.idx < n && Captures(t, s.loc, s.idx, s.callee, s.value)
    ensures forall j, k :: 0 <= j < k < |BlockSites(t, loc, n)| ==>
      Before(BlockSites(t, loc, n)[j], BlockSites(t, loc, n)[k])
    decreases n
  {
    if n > 0 {
      BlockSitesSound(t, loc, n - 1);
    }
  }

  lemma {:induction false} TraceSitesSound(t: BmcTrace, n: nat)
    requires n <= |t.bbs|
    ensures forall s :: s in TraceSites(t, n) ==> s.loc < n && Captures(t, s.loc, s.idx, s.callee, s.value)
    ensures forall j, k :: 0 <= j < k < |TraceSites(t, n)| ==>
      Before(TraceSites(t, n)[j], TraceSites(t, n)[k])
    decreases n
  {
    if n > 0 {
      TraceSitesSound(t, n - 1);
      BlockSitesSound(t, n - 1, |t.bbs[n - 1]|);
      var a, b := TraceSites(t, n - 1), BlockSites(t, n - 1, |t.bbs[n - 1]|);
      assert TraceSites(t, n) == a + b;
      forall j, k | 0 <= j < k < |a + b| ensures Before((a + b)[j], (a + b)[k]) {
        if k >= |a| && j < |a| {
          assert (a + b)[j] in a && (a + b)[k] in b;
        }
      }
    }
  }

  lemma {:induction false} BlockSitesComplete(t: BmcTrace, loc: nat, n: nat, i: nat, c: Callee, v: Expr)
    requires loc < |t.bbs| && n <= |t.bbs[loc]| && i < n
    requires Captures(t, loc, i, c, v)
    ensures Site(loc, i, c, v) in BlockSites(t, loc, n)
    decreases n
  {
    if i < n - 1 {
      BlockSitesComplete(t, loc, n - 1, i, c, v);
    } else {
      assert SiteAt(t, loc, i) == [Site(loc, i, c, v)];
    }
  }

  lemma {:induction false} TraceSitesComplete(t: BmcTrace, n: nat, loc: nat, i: nat, c: Callee, v: Expr)
    requires n <= |t.bbs| && loc < n
    requires Captures(t, loc, i, c, v)
    ensures Site(loc, i, c, v) in TraceSites(t, n)
    decreases n
  {
    if loc < n - 1 {
      TraceSitesComplete(t, n - 1, loc, i, c, v);
    } else {
      BlockSitesComplete(t, loc, |t.bbs[loc]|, i, c, v);
    }
  }

  /**
    The sites of a trace are exactly its captured calls (a call counts only if
    its called function is known, the trace gives it a value and the callee is
    an original function), listed in strictly ascending trace order.
  */
  lemma SitesExact(t: BmcTrace)
    ensures forall loc: nat, i: nat, c, v :: Site(loc, i, c, v) in Sites(t) <==> Captures(t, loc, i, c, v)
    ensures forall j, k :: 0 <= j < k < |Sites(t)| ==> Before(Sites(t)[j], Sites(t)[k])
  {
    TraceSitesSound(t, |t.bbs|);
    forall loc: nat, i: nat, c, v | Captures(t, loc, i, c, v)
      ensures Site(loc, i, c, v) in Sites(t)
    {
      TraceSitesComplete(t, |t.bbs|, loc, i, c, v);
    }
  }

  // ---------------------------------------------------------------------------
  // The trace scan (first loop of createLLVMHarness)
  // ---------------------------------------------------------------------------

  /** Walks every position of the trace and every instruction of its block, pushing captured values. */
  method CollectCallValues(t: BmcTrace) returns (funcValues: map<Callee, seq<Expr>>)
    ensures funcValues == Group(Sites(t))
  {
    funcValues := map[];
    var loc := 0;
    while loc < |t.bbs|
      invariant loc <= |t.bbs|
      invariant funcValues == Group(TraceSites(t, loc))
    {
      var bb := t.bbs[loc];
      var i := 0;
      assert TraceSites(t, loc) + BlockSites(t, loc, 0) == TraceSites(t, loc);
      while i < |bb|
        invariant i <= |bb|
        invariant funcValues == Group(TraceSites(t, loc) + BlockSites(t, loc, i))
      {
        var prefix := TraceSites(t, loc) + BlockSites(t, loc, i);
        assert TraceSites(t, loc) + BlockSites(t, loc, i + 1) == prefix + SiteAt(t, loc, i);
        match bb[i] {
          case CallInst(cf) =>
            if cf.Some? {
              var v := Eval(t, loc, i);
              if v.Some? && IsOriginal(cf.value) {
                assert SiteAt(t, loc, i) == [Site(loc, i, cf.value, v.value)];
                GroupSnoc(prefix, Site(loc, i, cf.value, v.value));
                funcValues := Push(funcValues, cf.value, v.value);
              } else {
                assert SiteAt(t, loc, i) == [];
              }
            } else {
              assert SiteAt(t, loc, i) == [];
            }
          case OtherInst =>
            assert SiteAt(t, loc, i) == [];
        }
        assert prefix + [] == prefix;
        i := i + 1;
      }
      loc := loc + 1;
    }
  }

  // ---------------------------------------------------------------------------
  // The harness module (second loop of createLLVMHarness)
  // ---------------------------------------------------------------------------

  /** A private global `[N x ty]` array of the captured values. */
  datatype ConstArray = ConstArray(elemType: Type, elems: seq<Literal>, isConstant: bool, linkage: Linkage)

  /** A global integer variable and its initial value. */
  datatype Counter = Counter(width: nat, init: int, isConstant: bool, linkage: Linkage)

  /**
    The body of a stub: load `counter`, store the loaded value plus one, call
    the oracle named `oracle` with the loaded value, `values` and `length`, and
    return what it returns.
  */
  datatype StubBody = StubBody(values: ConstArray, counter: Counter, oracle: string, length: nat)

  /** A function of the harness: a bodiless declaration, or a stub. */
  datatype HarnessFunction = HarnessFunction(name: string, fnType: FunctionType, body: Option<StubBody>)

  /** An external oracle `get_value_<ty>` declared in the harness, by name and function type. */
  datatype OracleDecl = OracleDecl(name: string, fnType: FunctionType)

  /**
    The type the oracle is declared with. The two-argument call
    `FunctionType::get(RT, ArgTypes)` resolves to the overload
    `get(Type *Result, bool isVarArg)`, the array of argument types converting
    to `true`: the oracle returns `ty` and is variadic with no fixed parameters.
  */
  function OracleType(ret: Type): FunctionType {
    FunctionType(ret, [], true)
  }

  datatype HarnessModule = HarnessModule(
    name: string,
    functions: map<Callee, HarnessFunction>,
    oracles: set<OracleDecl>)

  /** What `Type::print` writes for an integer type: `i` and the width. */
  function IntTypeName(width: nat): string {
    "i" + Decimal.ToDecimal(width)
  }

  /** The name of the oracle a stub returning `i<width>` delegates to. */
  function OracleName(width: nat): string {
    "get_value_" + IntTypeName(width)
  }

  /** Integer types of different widths have oracles of different names. */
  lemma OracleNameInjective(w1: nat, w2: nat)
    ensures OracleName(w1) == OracleName(w2) ==> w1 == w2
  {
    var p := "get_value_i";
    if OracleName(w1) == OracleName(w2) {
      assert OracleName(w1) == p + Decimal.ToDecimal(w1);
      assert OracleName(w2) == p + Decimal.ToDecimal(w2);
      assert Decimal.ToDecimal(w1) == OracleName(w1)[|p|..];
      assert Decimal.ToDecimal(w2) == OracleName(w2)[|p|..];
      Decimal.DecimalInjective(w1, w2);
    }
  }

  /** The literals of the constant array, element i being exprToLlvm of values[i]. */
  function ToLiterals(width: nat, values: seq<Expr>): (lits: seq<Literal>)
    ensures |lits| == |values|
    ensures forall i :: 0 <= i < |values| ==> lits[i] == ExprToLlvm(width, values[i])
  {
    seq(|values|, i requires 0 <= i < |values| => ExprToLlvm(width, values[i]))
  }

  /** The stub body of a callee returning `i<width>` whose captured values are `values`. */
  function StubFor(width: nat, values: seq<Expr>): StubBody {
    StubBody(
      ConstArray(IntegerType(width), ToLiterals(width, values), true, PrivateLinkage),
      Counter(32, 0, false, PrivateLinkage),
      OracleName(width),
      |values|)
  }

  /** The harness function for captured callee c: always declared, a stub only for an integer return type. */
  function HarnessFunctionFor(c: Callee, values: seq<Expr>): HarnessFunction {
    HarnessFunction(c.name, c.fnType,
      match c.fnType.ret
      case IntegerType(w) => Some(StubFor(w, values))
      case NonIntegerType(_) => None)
  }

  function OracleFor(c: Callee): OracleDecl
    requires c.fnType.ret.IntegerType?
  {
    OracleDecl(OracleName(c.fnType.ret.width), OracleType(c.fnType.ret))
  }

  /** The harness module built for the per-callee value lists fv, in whatever order fv is walked. */
  function HarnessOf(fv: map<Callee, seq<Expr>>): HarnessModule {
    HarnessModule(
      "harness",
      map c | c in fv :: HarnessFunctionFor(c, fv[c]),
      set c | c in fv && c.fnType.ret.IntegerType? :: OracleFor(c))
  }

  /** The callees that are skipped with "Skipping non-integer function". */
  function NonIntegerCallees(fv: map<Callee, seq<Expr>>): set<Callee> {
    set c | c in fv && !c.fnType.ret.IntegerType?
  }

  /**
    Walks the per-callee lists in an unspecified order (ValueMap is hash
    ordered) and inserts, for each callee, its declaration and, for an integer
    return type, its array, its counter and its stub body. The oracle is looked
    up by name and declared once (see "Findings" in the README for the code as
    written, which creates a new one per stub). Returns the harness and the
    callees it skipped.
  */
  method BuildHarness(funcValues: map<Callee, seq<Expr>>) returns (h: HarnessModule, skipped: set<Callee>)
    ensures h == HarnessOf(funcValues)
    ensures skipped == NonIntegerCallees(funcValues)
  {
    var functions: map<Callee, HarnessFunction> := map[];
    var oracles: set<OracleDecl> := {};
    skipped := {};
    var todo := funcValues.Keys;
    while todo != {}
      invariant todo <= funcValues.Keys
      invariant functions == map c | c in funcValues.Keys - todo :: HarnessFunctionFor(c, funcValues[c])
      invariant oracles == set c | c in funcValues.Keys - todo && c.fnType.ret.IntegerType? :: OracleFor(c)
      invariant skipped == set c | c in funcValues.Keys - todo && !c.fnType.ret.IntegerType?
      decreases todo
    {
      var cf :| cf in todo;
      todo := todo - {cf};
      var values := funcValues[cf];
      // getOrInsertFunction: the declaration exists whether or not a body follows
      functions := functions[cf := HarnessFunction(cf.name, cf.fnType, None)];
      if !cf.fnType.ret.IntegerType? {
        skipped := skipped + {cf};
        continue;
      }
      var rt := cf.fnType.ret.width;
      var valueArray := ConstArray(cf.fnType.ret, ToLiterals(rt, values), true, PrivateLinkage);
      var counter := Counter(32, 0, false, PrivateLinkage);
      var oracle := OracleDecl(OracleName(rt), OracleType(cf.fnType.ret));
      oracles := oracles + {oracle};
      functions := functions[cf := HarnessFunction(cf.name, cf.fnType, Some(StubBody(valueArray, counter, oracle.name, |values|)))];
    }
    assert funcValues.Keys - todo == funcValues.Keys;
    h := HarnessModule("harness", functions, oracles);
  }

  /** createLLVMHarness: scan the trace, then build the harness from what was captured. */
  method CreateLLVMHarness(t: BmcTrace) returns (h: HarnessModule, skipped: set<Callee>)
    ensures h == HarnessOf(Group(Sites(t)))
    ensures skipped == NonIntegerCallees(Group(Sites(t)))
  {
    var funcValues := CollectCallValues(t);
    h, skipped := BuildHarness(funcValues);
  }

  // ---------------------------------------------------------------------------
  // What the harness says about the trace
  // ---------------------------------------------------------------------------

  /** The positions (loc, i) of the captured calls to c. */
  function CallPositions(t: BmcTrace, c: Callee): set<(nat, nat)> {
    set loc: nat, i: nat | loc < |t.bbs| && i < |t.bbs[loc]| && t.bbs[loc][i] == CallInst(Some(c))
                          && (loc, i) in t.model && IsOriginal(c) :: (loc, i)
  }

  /** The positions of the sites of ss that call c, in the order of ss. */
  function Positions(ss: seq<Site>, c: Callee): seq<(nat, nat)>
    decreases |ss|
  {
    if ss == [] then []
    else (if ss[0].callee == c then [(ss[0].loc, ss[0].idx)] else []) + Positions(ss[1..], c)
  }

  lemma {:induction false} PositionsOf(ss: seq<Site>, c: Callee)
    ensures |Positions(ss, c)| == |ValuesOf(ss, c)|
    ensures forall p :: p in Positions(ss, c) <==>
      exists k :: 0 <= k < |ss| && ss[k].callee == c && p == (ss[k].loc, ss[k].idx)
    decreases |ss|
  {
    if ss != [] {
      PositionsOf(ss[1..], c);
      forall p ensures p in Positions(ss, c) <==>
        exists k :: 0 <= k < |ss| && ss[k].callee == c && p == (ss[k].loc, ss[k].idx)
      {
        if p in Positions(ss[1..], c) {
          var k :| 0 <= k < |ss[1..]| && ss[1..][k].callee == c && p == (ss[1..][k].loc, ss[1..][k].idx);
          assert ss[k + 1] == ss[1..][k];
        }
        if exists k :: 0 <= k < |ss| && ss[k].callee == c && p == (ss[k].loc, ss[k].idx) {
          var k :| 0 <= k < |ss| && ss[k].callee == c && p == (ss[k].loc, ss[k].idx);
          if k > 0 {
            assert ss[1..][k - 1] == ss[k];
          }
        }
      }
    }
  }

  /** Site j of ss calls c and supplies both the k-th position and the k-th value of c. */
  predicate PairedAt(ss: seq<Site>, c: Callee, k: int, j: int) {
    0 <= j < |ss| && ss[j].callee == c && 0 <= k < |Positions(ss, c)| && k < |ValuesOf(ss, c)|
    && Positions(ss, c)[k] == (ss[j].loc, ss[j].idx) && ValuesOf(ss, c)[k] == ss[j].value
  }

  /** Some site of ss supplies both the k-th position and the k-th value of c. */
  predicate HasPair(ss: seq<Site>, c: Callee, k: int) {
    exists j :: 0 <= j < |ss| && PairedAt(ss, c, k, j)
  }

  /** The k-th position of c's sites is the position of the site that holds c's k-th value. */
  lemma {:induction false} PositionsMatchValues(ss: seq<Site>, c: Callee)
    ensures |Positions(ss, c)| == |ValuesOf(ss, c)|
    ensures forall k :: 0 <= k < |Positions(ss, c)| ==> HasPair(ss, c, k)
    decreases |ss|
  {
    if ss != [] {
      var ps, vs := Positions(ss[1..], c), ValuesOf(ss[1..], c);
      PositionsMatchValues(ss[1..], c);
      var head := if ss[0].callee == c then 1 else 0;
      assert Positions(ss, c) == (if ss[0].callee == c then [(ss[0].loc, ss[0].idx)] else []) + ps;
      assert ValuesOf(ss, c) == (if ss[0].callee == c then [ss[0].value] else []) + vs;
      forall k | 0 <= k < |Positions(ss, c)| ensures HasPair(ss, c, k) {
        if k < head {
          assert PairedAt(ss, c, k, 0);
        } else {
          assert HasPair(ss[1..], c, k - head);
          var r := ss[1..];
          var j :| 0 <= j < |r| && PairedAt(r, c, k - head, j);
          assert Positions(ss, c)[k] == ps[k - head] && ValuesOf(ss, c)[k] == vs[k - head];
          assert ss[j + 1] == r[j];
          assert PairedAt(ss, c, k, j + 1);
        }
      }
    }
  }

  lemma {:induction false} PositionsDistinct(ss: seq<Site>, c: Callee)
    requires forall j, k :: 0 <= j < k < |ss| ==> Before(ss[j], ss[k])
    ensures forall j, k :: 0 <= j < k < |Positions(ss, c)| ==> Positions(ss, c)[j] != Positions(ss, c)[k]
    decreases |ss|
  {
    if ss != [] {
      var rest := Positions(ss[1..], c);
      PositionsDistinct(ss[1..], c);
      PositionsOf(ss[1..], c);
      if ss[0].callee == c {
        forall k | 0 <= k < |rest| ensures rest[k] != (ss[0].loc, ss[0].idx) {
          assert rest[k] in rest;
          var m :| 0 <= m < |ss[1..]| && ss[1..][m].callee == c && rest[k] == (ss[1..][m].loc, ss[1..][m].idx);
          assert Before(ss[0], ss[m + 1]);
        }
      }
    }
  }

  lemma {:induction false} DistinctCard<T>(s: seq<T>)
    requires forall j, k :: 0 <= j < k < |s| ==> s[j] != s[k]
    ensures |set x | x in s| == |s|
    decreases |s|
  {
    if s != [] {
      DistinctCard(s[1..]);
      assert (set x | x in s) == {s[0]} + (set x | x in s[1..]);
      assert s[0] !in s[1..];
    }
  }

  /** A callee's value list is as long as the number of its captured calls along the trace. */
  lemma CapturedCount(t: BmcTrace, c: Callee)
    ensures |ValuesOf(Sites(t), c)| == |CallPositions(t, c)|
  {
    var ss := Sites(t);
    SitesExact(t);
    PositionsOf(ss, c);
    PositionsDistinct(ss, c);
    DistinctCard(Positions(ss, c));
    forall p ensures p in CallPositions(t, c) <==> p in Positions(ss, c) {
      if p in CallPositions(t, c) {
        var loc, i := p.0, p.1;
        var v := t.model[(loc, i)];
        assert Captures(t, loc, i, c, v);
        var k :| 0 <= k < |ss| && ss[k] == Site(loc, i, c, v);
      }
      if p in Positions(ss, c) {
        var k :| 0 <= k < |ss| && ss[k].callee == c && p == (ss[k].loc, ss[k].idx);
        assert ss[k] in ss;
        assert Captures(t, ss[k].loc, ss[k].idx, c, ss[k].value);
      }
    }
    assert CallPositions(t, c) == set x | x in Positions(ss, c);
  }

  /**
    The harness built from a trace: a callee has a function in it exactly when
    the trace holds a captured call to it; that function keeps the callee's
    name and type and has a body exactly when the callee returns an integer;
    the body's constant private array holds exprToLlvm of the callee's values
    in trace order, its private mutable i32 counter starts at zero, and it
    delegates to the declared oracle for its return type.
  */
  lemma HarnessFromTrace(t: BmcTrace, c: Callee)
    ensures c in HarnessOf(Group(Sites(t))).functions <==> exists loc: nat, i: nat, v :: Captures(t, loc, i, c, v)
    ensures c in HarnessOf(Group(Sites(t))).functions ==>
      var f := HarnessOf(Group(Sites(t))).functions[c];
      && f.name == c.name && f.fnType == c.fnType
      && (f.body.Some? <==> c.fnType.ret.IntegerType?)
    ensures c in HarnessOf(Group(Sites(t))).functions && c.fnType.ret.IntegerType? ==>
      var h := HarnessOf(Group(Sites(t)));
      var b := h.functions[c].body.value;
      var w := c.fnType.ret.width;
      && b.values == ConstArray(c.fnType.ret, ToLiterals(w, ValuesOf(Sites(t), c)), true, PrivateLinkage)
      && b.length == |b.values.elems| == |CallPositions(t, c)|
      && b.counter == Counter(32, 0, false, PrivateLinkage)
      && b.oracle == OracleName(w)
      && OracleDecl(b.oracle, OracleType(c.fnType.ret)) in h.oracles
  {
    var ss := Sites(t);
    SitesExact(t);
    GroupIsValuesOf(ss, c);
    ValuesOfEmpty(ss, c);
    CapturedCount(t, c);
    if c in Group(ss) {
      var k :| 0 <= k < |ss| && ss[k].callee == c;
      assert ss[k] in ss;
      assert Captures(t, ss[k].loc, ss[k].idx, c, ss[k].value);
    }
    if exists loc: nat, i: nat, v :: Captures(t, loc, i, c, v) {
      var loc: nat, i: nat, v :| Captures(t, loc, i, c, v);
      assert Site(loc, i, c, v) in ss;
    }
  }

  /** A callee never called along the trace never gets a function in the harness. */
  lemma UncalledNotStubbed(t: BmcTrace, c: Callee)
    requires forall loc, i :: 0 <= loc < |t.bbs| && 0 <= i < |t.bbs[loc]| ==> t.bbs[loc][i] != CallInst(Some(c))
    ensures c !in HarnessOf(Group(Sites(t))).functions
  {
    HarnessFromTrace(t, c);
  }

  /** Each oracle name is declared once, for a single return type. */
  lemma OneOraclePerName(fv: map<Callee, seq<Expr>>, o1: OracleDecl, o2: OracleDecl)
    requires o1 in HarnessOf(fv).oracles && o2 in HarnessOf(fv).oracles
    ensures o1.name == o2.name ==> o1 == o2
  {
    var c1 :| c1 in fv && c1.fnType.ret.IntegerType? && o1 == OracleFor(c1);
    var c2 :| c2 in fv && c2.fnType.ret.IntegerType? && o2 == OracleFor(c2);
    OracleNameInjective(c1.fnType.ret.width, c2.fnType.ret.width);
  }

  // ---------------------------------------------------------------------------
  // Behaviour of a generated stub at replay time
  // ---------------------------------------------------------------------------

  /** Values of an i32 are kept as their unsigned reading, so i32 addition wraps modulo this. */
  const I32_MODULUS: int := 0x1_0000_0000

  /**
    A stub at replay time: its constant body and the current value of its
    private counter global. `oracle` stands for the external
    `get_value_<ty>(index, array, length)` the stub delegates to.
  */
  class Stub {
    const body: StubBody
    var counter: int

    constructor (b: StubBody)
      requires 0 <= b.counter.init < I32_MODULUS
      ensures body == b && counter == b.counter.init
    {
      body := b;
      counter := b.counter.init;
    }

    /** One call: the oracle gets the counter's value before the increment; the stub never indexes the array. */
    method Call(oracle: (int, seq<Literal>, nat) -> Literal) returns (r: Literal)
      requires 0 <= counter < I32_MODULUS
      modifies this
      ensures 0 <= counter < I32_MODULUS
      ensures counter == (old(counter) + 1) % I32_MODULUS
      ensures r == oracle(old(counter), body.values.elems, body.length)
    {
      var loaded := counter;
      counter := (loaded + 1) % I32_MODULUS;
      r := oracle(loaded, body.values.elems, body.length);
    }

    /**
      n successive calls: call k (from 0) passes index (counter + k) mod 2^32,
      whether or not that index is within the captured values.
    */
    method CallRepeatedly(n: nat, oracle: (int, seq<Literal>, nat) -> Literal) returns (rs: seq<Literal>)
      requires 0 <= counter < I32_MODULUS
      modifies this
      ensures |rs| == n
      ensures counter == (old(counter) + n) % I32_MODULUS
      ensures forall k :: 0 <= k < n ==>
        rs[k] == oracle((old(counter) + k) % I32_MODULUS, body.values.elems, body.length)
    {
      rs := [];
      var k := 0;
      while k < n
        invariant k <= n && |rs| == k
        invariant 0 <= counter < I32_MODULUS
        invariant counter == (old(counter) + k) % I32_MODULUS
        invariant forall j :: 0 <= j < k ==>
          rs[j] == oracle((old(counter) + j) % I32_MODULUS, body.values.elems, body.length)
      {
        var r := Call(oracle);
        WrapStep(old(counter) + k);
        rs := rs + [r];
        k := k + 1;
      }
    }
  }

  lemma WrapStep(x: int)
    ensures (x % I32_MODULUS + 1) % I32_MODULUS == (x + 1) % I32_MODULUS
  {
  }

  // ---------------------------------------------------------------------------
  // The oracle declaration as written (lines 118-124)
  // ---------------------------------------------------------------------------

  /**
    The function names the harness module holds after the code as written has
    processed the first n callees of `order` (one enumeration of FuncValueMap).
    Each callee first gets its declaration; each integer-returning one then
    gets an oracle from Function::Create, which keeps the requested name
    only if no function of that name exists yet and is otherwise renamed by
    the module's symbol table. Renamed oracles are not tracked: the name the
    symbol table invents is not modelled.
  */
  function DeclaredAsWritten(order: seq<Callee>, n: nat): set<string>
    requires n <= |order|
    decreases n
  {
    if n == 0 then {}
    else
      var d := DeclaredAsWritten(order, n - 1) + {order[n - 1].name};
      match order[n - 1].fnType.ret
      case IntegerType(w) => d + {OracleName(w)}
      case NonIntegerType(_) => d
  }

  /** As written, the oracle created for order[k] does not get the name `get_value_<ty>`. */
  predicate OracleRenamedAsWritten(order: seq<Callee>, k: nat)
    requires k < |order| && order[k].fnType.ret.IntegerType?
  {
    OracleName(order[k].fnType.ret.width) in DeclaredAsWritten(order, k) + {order[k].name}
  }

  lemma {:induction false} DeclaredAsWrittenGrows(order: seq<Callee>, m: nat, n: nat)
    requires m <= n <= |order|
    ensures DeclaredAsWritten(order, m) <= DeclaredAsWritten(order, n)
    decreases n - m
  {
    if m < n {
      DeclaredAsWrittenGrows(order, m, n - 1);
    }
  }

  /**
    As written, whenever two callees of the enumeration return the same
    integer type, the later one's stub calls a renamed oracle rather than
    `get_value_<ty>`.
  */
  lemma AsWrittenRenamesRepeatedType(order: seq<Callee>, j: nat, k: nat)
    requires j < k < |order|
    requires order[j].fnType.ret.IntegerType? && order[j].fnType.ret == order[k].fnType.ret
    ensures OracleRenamedAsWritten(order, k)
  {
    assert OracleName(order[j].fnType.ret.width) in DeclaredAsWritten(order, j + 1);
    DeclaredAsWrittenGrows(order, j + 1, k);
  }

  /**
    A concrete case: two original i32 callees. Whichever the map walks second
    has its oracle renamed; the first keeps `get_value_i32`.
  */
  lemma AsWrittenTwoInt32Callees()
    ensures
      var ty := FunctionType(IntegerType(32), [], false);
      var order := [Callee("nd_a", ExternalLinkage, ty), Callee("nd_b", ExternalLinkage, ty)];
      !OracleRenamedAsWritten(order, 0) && OracleRenamedAsWritten(order, 1)
  {
    var ty := FunctionType(IntegerType(32), [], false);
    var order := [Callee("nd_a", ExternalLinkage, ty), Callee("nd_b", ExternalLinkage, ty)];
    assert OracleName(32)[0] == 'g';
    assert OracleName(32) != "nd_a";
    AsWrittenRenamesRepeatedType(order, 0, 1);
  }

  /**
    In the corrected harness every stub of return type `i<w>` calls the one
    oracle declared as `get_value_i<w>`, however many stubs share that type.
  */
  lemma StubsShareOracle(fv: map<Callee, seq<Expr>>, c1: Callee, c2: Callee)
    requires c1 in fv && c2 in fv
    requires c1.fnType.ret.IntegerType? && c1.fnType.ret == c2.fnType.ret
    ensures HarnessOf(fv).functions[c1].body.Some? && HarnessOf(fv).functions[c2].body.Some?
    ensures HarnessOf(fv).functions[c1].body.value.oracle == HarnessOf(fv).functions[c2].body.value.oracle
            == OracleName(c1.fnType.ret.width)
    ensures OracleDecl(OracleName(c1.fnType.ret.width), OracleType(c1.fnType.ret)) in HarnessOf(fv).oracles
  {
    assert OracleFor(c1) in HarnessOf(fv).oracles;
  }
}
