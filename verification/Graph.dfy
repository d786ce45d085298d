/**
  The workflow graph: nodes as functions from the state and what the outside supplies to a new
  state, the edge table, the artifact store and the two nodes that use it.
*/
module Graph {
  import opened Errors
  import opened Values
  import opened Expressions
  import opened Catalog
  import opened Plans
  import opened Planner
  import opened Relational
  import opened SqlTree
  import opened SqlQuery
  import opened Emissions
  import opened QueryMeaning
  import opened Lowering
  import opened Compiler
  import opened Binder
  import opened Scoping
  import opened EndToEnd
  import opened Validators
  import opened Attestations
  import opened Results
  import opened Clarification
  import opened Repairs

  const MAX_RETRIEVAL_ROUNDS := 2

  // -- nodes and edges ----------------------------------------------------------------------------

  datatype Node =
    | Admit | Understand | Retrieve | Expand | Propose | Clarify | Repair | BindCompile | Execute | Definition | Metadata | Stop
    | End
    // Where a decision without an edge would lead.
    | Fault

  datatype Edges = Unconditional(to: Node) | ByDecision(table: map<string, Node>) | ByRoute(table: map<string, Node>)

  function EdgeTable(): map<Node, Edges> {
    map[
      Admit := ByDecision(map["allowed" := Understand, "denied" := Stop]),
      Understand := ByRoute(map["sql" := Retrieve, "definition" := Definition, "metadata" := Metadata, "clarify" := Retrieve,
                                "unsupported" := Stop, "denied" := Stop]),
      Retrieve := ByDecision(map["ready" := Propose, "empty" := Propose]),
      Propose := ByDecision(map["ready" := BindCompile, "expand" := Expand, "clarify" := Clarify, "blocked" := Stop]),
      Clarify := ByDecision(map["resumed" := Admit, "blocked" := Stop]),
      Repair := ByDecision(map["ready" := BindCompile, "blocked" := Stop]),
      Expand := ByDecision(map["ready" := Retrieve, "blocked" := Stop]),
      BindCompile := ByDecision(map["ready" := Execute, "repairable" := Repair, "blocked" := Stop]),
      Execute := ByDecision(map["answered" := End, "blocked" := Stop]),
      Definition := ByDecision(map["answered" := End, "blocked" := Stop]),
      Metadata := ByDecision(map["answered" := End, "blocked" := Stop]),
      Stop := Unconditional(End)
    ]
  }

  /** The builder records one edge entry per node; an entry is added once. */
  class GraphBuilder {
    var edges: map<Node, Edges>

    constructor ()
      ensures edges == map[]
    {
      edges := map[];
    }

    method AddConditionalEdges(node: Node, targets: Edges)
      modifies this
      ensures edges == old(edges)[node := targets]
    {
      edges := edges[node := targets];
    }

    method AddEdge(node: Node, to: Node)
      modifies this
      ensures edges == old(edges)[node := Unconditional(to)]
    {
      edges := edges[node := Unconditional(to)];
    }
  }

  method BuildGraph() returns (g: GraphBuilder)
    ensures fresh(g) && g.edges == EdgeTable()
  {
    g := new GraphBuilder();
    g.AddConditionalEdges(Admit, ByDecision(map["allowed" := Understand, "denied" := Stop]));
    g.AddConditionalEdges(Understand, ByRoute(map["sql" := Retrieve, "definition" := Definition, "metadata" := Metadata,
                                                  "clarify" := Retrieve, "unsupported" := Stop, "denied" := Stop]));
    g.AddConditionalEdges(Retrieve, ByDecision(map["ready" := Propose, "empty" := Propose]));
    g.AddConditionalEdges(Propose, ByDecision(map["ready" := BindCompile, "expand" := Expand, "clarify" := Clarify, "blocked" := Stop]));
    g.AddConditionalEdges(Clarify, ByDecision(map["resumed" := Admit, "blocked" := Stop]));
    g.AddConditionalEdges(Repair, ByDecision(map["ready" := BindCompile, "blocked" := Stop]));
    g.AddConditionalEdges(Expand, ByDecision(map["ready" := Retrieve, "blocked" := Stop]));
    g.AddConditionalEdges(BindCompile, ByDecision(map["ready" := Execute, "repairable" := Repair, "blocked" := Stop]));
    g.AddConditionalEdges(Execute, ByDecision(map["answered" := End, "blocked" := Stop]));
    g.AddConditionalEdges(Definition, ByDecision(map["answered" := End, "blocked" := Stop]));
    g.AddConditionalEdges(Metadata, ByDecision(map["answered" := End, "blocked" := Stop]));
    g.AddEdge(Stop, End);
  }

  // -- state ------------------------------------------------------------------------------------------

  datatype State = State(
    route: string,
    decision: string,
    exact: seq<string>,
    candidates: seq<Candidate>,
    proposal: Option<Request>,
    columns: seq<string>,
    codes: seq<ReasonCode>,
    clarification: Option<Question>,
    answered: Option<Answer>,
    clarified: seq<string>,
    rounds: nat,
    repairs: nat,
    revision: nat,
    answer: Option<string>)

  /** A fresh thread. */
  const Fresh: State := State("", "", [], [], None, [], [], None, None, [], 0, 0, 1, None)

  /** Everything a bind, lowering and compilation leave for execution. */
  datatype Artifact = Artifact(bound: BindResult, logical: LogicalPlan, query: CompiledQuery, parameters: map<string, Value>)

  datatype Pipeline = Failed(code: ReasonCode) | Rejected(codes: seq<ReasonCode>, columns: seq<string>) | Compiled(artifact: Artifact)

  /**
    What happens outside during one execution: whether the query is admitted, which submissions
    fail, the engine and its data, the order in which it delivers rows, and the page cap.
  */
  datatype Warehouse = Warehouse(
    admitted: Outcome<()>,
    fails: nat -> bool,
    engine: Engine,
    db: Database,
    arrange: seq<seq<Value>> -> seq<seq<Value>>,
    maxRows: nat)

  ghost predicate Arranging(wh: Warehouse) {
    forall rows :: Arranges(wh.arrange(rows), rows)
  }

  /** What the outside supplies to one step; each node reads its own part. */
  datatype Supply = Supply(
    granted: bool,
    understood: Option<(string, seq<string>)>,
    candidates: seq<Candidate>,
    exactMatches: bool,
    proposed: Outcome<Option<Request>>,
    payload: Payload,
    pipeline: Pipeline,
    warehouse: Warehouse,
    definition: Outcome<()>)

  /** The catalog, the trusted scope and the reading of ISO periods. */
  datatype World = World(bundle: Bundle, scope: Scope, period: string -> TimeRange)

  const Routes: set<string> := {"sql", "definition", "metadata", "clarify", "unsupported", "denied"}

  // -- nodes ----------------------------------------------------------------------------------------------

  function Blocked(s: State, codes: seq<ReasonCode>): State {
    s.(decision := "blocked", codes := codes)
  }

  function AfterAdmit(s: State, u: Supply): State {
    if u.granted then s.(decision := "allowed") else s.(decision := "denied", codes := [PolicyEpochChanged])
  }

  function AfterUnderstand(s: State, u: Supply): State {
    match u.understood
    case None => Blocked(s.(route := "unsupported"), [UnsupportedCapability])
    case Some((route, exact)) => s.(route := route, exact := exact)
  }

  function AfterRetrieve(s: State, u: Supply): State {
    s.(candidates := u.candidates, rounds := s.rounds + 1, decision := if u.candidates == [] && !u.exactMatches then "empty" else "ready")
  }

  function AfterExpand(s: State): State {
    if s.rounds >= MAX_RETRIEVAL_ROUNDS + 1 then Blocked(s, [BudgetExhausted]) else s.(decision := "ready")
  }

  /** Once a clarification is answered the settled proposal is authoritative. */
  predicate Settled(s: State) {
    s.answered.Some? && s.proposal.Some?
  }

  function Asked(s: State): set<string> {
    set slot | slot in s.clarified
  }

  /** A proposal goes on unless a question about it must be asked first. */
  function WithProposal(w: World, s: State, request: Request): State {
    match Detect(w.bundle, w.scope, request, s.candidates, s.exact, Asked(s))
    case Some(q) => s.(proposal := Some(request), clarification := Some(q), decision := "clarify")
    case None => s.(proposal := Some(request), clarification := None, decision := "ready")
  }

  function AfterPropose(w: World, s: State, u: Supply): State {
    if Settled(s) then WithProposal(w, s, s.proposal.value)
    else match u.proposed
      case Raise(code) => Blocked(s, [code])
      case Ok(None) =>
        if s.rounds <= MAX_RETRIEVAL_ROUNDS then s.(decision := "expand") else Blocked(s, [CoverageIncomplete])
      case Ok(Some(request)) => WithProposal(w, s, request)
  }

  function AfterClarify(w: World, s: State, u: Supply): State
    requires s.clarification.Some? && s.proposal.Some?
  {
    match ValidateAnswer(u.payload, s.clarification.value)
    case Raise(code) => Blocked(s, [code])
    case Ok(a) =>
      s.(proposal := Some(ApplyAnswer(w.period, s.proposal.value, a.slot, a.value)), clarification := None, answered := Some(a),
         clarified := s.clarified + [a.slot], decision := "resumed")
  }

  /** Every artifact that a re-plan invalidates is overwritten, not left in place. */
  function ClearDownstream(s: State, revision: nat): State {
    s.(proposal := None, columns := [], answer := None, revision := revision)
  }

  function AfterRepair(s: State): State
    requires s.proposal.Some?
  {
    if s.repairs >= MAX_REPAIR_ATTEMPTS then Blocked(s, [BudgetExhausted])
    else match ProposeRepair(s.proposal.value, (set c | c in s.codes), s.columns)
      case Raise(code) => Blocked(s, [code])
      case Ok(None) => s.(decision := "blocked")
      case Ok(Some(request)) =>
        ClearDownstream(s, s.revision + 1).(proposal := Some(request), repairs := s.repairs + 1, decision := "ready", codes := [])
  }

  function Verdict(s: State, codes: seq<ReasonCode>): string {
    if (exists c :: c in codes && c in Repairable) && s.repairs < MAX_REPAIR_ATTEMPTS then "repairable" else "blocked"
  }

  function AfterBind(w: World, s: State, p: Pipeline): State
    requires s.proposal.Some?
  {
    match p
    case Failed(code) =>
      s.(decision := Verdict(s, [code]), codes := [code], columns := ExpectedColumns(w.bundle, s.proposal.value))
    case Rejected(codes, columns) => s.(decision := Verdict(s, codes), codes := codes, columns := columns)
    case Compiled(a) => s.(decision := "ready", columns := a.bound.plan.contract.columns)
  }

  /** A result passes on its shape, completeness, unique keys and numbers. */
  predicate ResultPasses(plan: BoundPlan, result: QueryResult, isNaN: Value -> bool) {
    var c := plan.contract;
    && result.columns == c.columns && !result.truncated && WellShaped(c, result.rows)
    && (c.uniqueKeys == [] || KeysUnique(c.columns, c.uniqueKeys, result.rows))
    && !SomeNaN(c.columns, MetricNames(plan.metrics), result.rows, isNaN)
  }

  /** From the i-th on, the first attestation that does not complete or raises a finding. */
  function AttestationFailure(wh: Warehouse, attestations: seq<Attestation>, i: nat): Option<ReasonCode>
    requires i <= |attestations|
    decreases |attestations| - i
  {
    if i == |attestations| then None
    else if wh.fails(i) then Some(ValidationFailed)
    else match RunAttestation(wh.engine, attestations[i], wh.db)
      case Raise(_) => Some(ValidationFailed)
      case Ok(totals) => if Check(totals).Some? then Check(totals) else AttestationFailure(wh, attestations, i + 1)
  }

  /** One page of a statement's rows; a further row marks it truncated. */
  function Fetch(wh: Warehouse, q: CompiledQuery): Outcome<QueryResult> {
    var read :- Reparse(q.sql);
    var rows := Delivered(read.limit, wh.arrange(EvalSelect(wh.engine, read, q.values, wh.db)));
    Ok(QueryResult(OutputNames(read.projections), if |rows| > wh.maxRows then rows[..wh.maxRows] else rows, |rows| > wh.maxRows))
  }

  /** Attest every join contract of the artifact, then run its statement. */
  function ExecuteArtifact(w: World, a: Artifact, wh: Warehouse): Outcome<QueryResult>
    requires JoinsHavePredicates(a.logical.joins)
  {
    var _ :- wh.admitted;
    var attestations :- AttestationsOf(w.bundle, a.logical, a.logical.joins, w.scope, a.parameters);
    var failure := AttestationFailure(wh, attestations, 0);
    if failure.Some? then Raise(failure.value)
    else if wh.fails(|attestations|) || Fetch(wh, a.query).Raise? then Raise(ExecutionFailed)
    else Fetch(wh, a.query)
  }

  function AfterExecute(w: World, s: State, store: map<nat, Artifact>, wh: Warehouse): State
    requires s.revision in store ==> JoinsHavePredicates(store[s.revision].logical.joins)
  {
    if s.revision !in store then Blocked(s, [CompilerDefect])
    else match ExecuteArtifact(w, store[s.revision], wh)
      case Raise(code) => Blocked(s, [code])
      case Ok(result) =>
        if !ResultPasses(store[s.revision].bound.plan, result, wh.engine.isNaN) then Blocked(s, [ResultContractBreach])
        else s.(decision := "answered", answer := Some("answered"))
  }

  function AfterDefinition(s: State, u: Supply): State {
    if s.exact == [] then Blocked(s, [ObjectNotFound])
    else if u.definition.Raise? then Blocked(s, [u.definition.code])
    else s.(decision := "answered", answer := Some("answered"))
  }

  function AfterMetadata(s: State): State {
    s.(decision := "answered", answer := Some("answered"))
  }

  function AfterStop(s: State): State {
    s.(answer := Some(if s.route == "denied" || s.decision == "denied" then "denied"
                      else if s.route == "unsupported" then "unsupported"
                      else if s.route == "clarify" then "clarify"
                      else "unavailable"))
  }

  // -- the artifact store -----------------------------------------------------------------------------------

  function Earlier(store: map<nat, Artifact>, revision: nat): map<nat, Artifact> {
    map k | k in store && k < revision :: store[k]
  }

  /** Compiled artifacts by plan revision. */
  class ArtifactStore {
    var byRevision: map<nat, Artifact>

    constructor ()
      ensures byRevision == map[]
    {
      byRevision := map[];
    }

    method Put(revision: nat, artifact: Artifact)
      modifies this
      ensures byRevision == old(byRevision)[revision := artifact]
    {
      byRevision := byRevision[revision := artifact];
    }

    method Get(revision: nat) returns (r: Option<Artifact>)
      ensures r == if revision in byRevision then Some(byRevision[revision]) else None
    {
      r := if revision in byRevision then Some(byRevision[revision]) else None;
    }

    /** Drops this revision and every later one. */
    method DiscardFrom(revision: nat)
      modifies this
      ensures byRevision == Earlier(old(byRevision), revision)
    {
      var left := set k | k in byRevision && k >= revision;
      ghost var before := byRevision;
      while left != {}
        invariant forall k :: k in left ==> k in byRevision && k >= revision
        invariant forall k :: k in byRevision <==> k in before && (k < revision || k in left)
        invariant forall k :: k in byRevision ==> byRevision[k] == before[k]
        decreases left
      {
        var k :| k in left;
        byRevision := byRevision - {k};
        left := left - {k};
      }
    }
  }

  function StoreAfter(store: map<nat, Artifact>, revision: nat, p: Pipeline): map<nat, Artifact> {
    if p.Compiled? then Earlier(store, revision)[revision := p.artifact] else store
  }

  // -- binding, compiling and validating -----------------------------------------------------------------------

  function ParametersOf(scope: Scope, time: Option<BoundTime>): map<string, Value> {
    var tenant := map["p_tenant" := scope.tenant];
    if time.None? then tenant
    else tenant["p_time_start" := time.value.start]["p_time_end" := time.value.endExclusive]
  }

  /** The catalog conditions that publication establishes. */
  ghost predicate Published(b: Bundle) {
    BundleWellFormed(b) && CatalogPublished(b)
  }

  /** The artifact was bound from the request, lowered, compiled and passed every gate. */
  ghost predicate CompiledFor(w: World, request: Request, a: Artifact) {
    && BoundFrom(w.bundle, w.scope, request, a.bound)
    && LowerPlan(w.bundle, w.scope, a.bound.plan, a.bound.joins) == Ok(a.logical)
    && a.parameters == ParametersOf(w.scope, a.bound.plan.time)
    && Runnable(w.bundle, a.logical, w.scope, a.parameters) && PhysicalUnique(w.bundle)
    && var e := EmitSelect(EnvOf(w.bundle, a.logical, w.scope, a.parameters), a.logical).value;
       && a.query == CompiledFrom(a.logical, e)
       && Accepts(w.bundle, w.scope, Inputs(Reparse(e.tree).value, a.query, a.logical, a.bound.plan))
  }

  /** What the pipeline may report for a request. */
  ghost predicate PipelineFor(w: World, request: Request, p: Pipeline) {
    match p
    case Failed(_) => true
    case Rejected(codes, columns) => codes != [] && columns == ExpectedColumns(w.bundle, request)
    case Compiled(a) => CompiledFor(w, request, a)
  }

  method RunPipeline(engine: RE.Engine, w: World, request: Request) returns (p: Pipeline)
    requires engine.Valid() && engine.bundle == w.bundle && Published(w.bundle)
    ensures PipelineFor(w, request, p)
    ensures p.Failed? ==> p.code !in {FanOutUnproven, AmbiguousPath, RuleConflict}
  {
    hide BoundFrom, LowerPlan, Accepts, Reparse, EmitSelect, BundleWellFormed, CatalogPublished, PhysicalUnique, ExpectedColumns;
    DistinctReferences(w.bundle);
    NamesAreUnique(w.bundle);
    var bound := Bind(engine, w.bundle, w.scope, request);
    if bound.Raise? {
      return Failed(bound.code);
    }
    var logical := Lower(w.bundle, w.scope, bound.value.plan, bound.value.joins);
    if logical.Raise? {
      LoweringErrors(w.bundle, w.scope, bound.value.plan, bound.value.joins);
      return Failed(logical.code);
    }
    ScopingIsClosed(w.bundle, w.scope, request, bound.value, logical.value);
    var parameters := ParametersOf(w.scope, bound.value.plan.time);
    var compiled := Compile(w.bundle, logical.value, w.scope, parameters);
    ghost var env := EnvOf(w.bundle, logical.value, w.scope, parameters);
    if compiled.Raise? {
      CompilationErrors(env, logical.value);
      return Failed(compiled.code);
    }
    StatementReadsBack(env, logical.value);
    var read := Reparse(compiled.value.sql);
    if read.Raise? {
      return Failed(CompilerDefect);
    }
    var findings := Validate(w.bundle, w.scope, Inputs(read.value, compiled.value, logical.value, bound.value.plan));
    if findings != [] {
      ExpectedColumnsAreTheContract(w.bundle, w.scope, request, bound.value);
      return Rejected(findings, bound.value.plan.contract.columns);
    }
    p := Compiled(Artifact(bound.value, logical.value, compiled.value, parameters));
    assert CompiledFor(w, request, p.artifact);
  }

  lemma DistinctReferences(b: Bundle)
    requires BundleWellFormed(b)
    ensures DistinctRefs(b.relationships)
  {
  }

  const LoweringCodes: set<ReasonCode> := {ObjectNotFound, NotAuthorized, UnsupportedOperator, ValidationFailed}
  const CompilationCodes: set<ReasonCode> := {ObjectNotFound, UnresolvedReference, CompilerDefect}

  lemma {:induction false} JoinLoweringErrors(b: Bundle, scope: Scope, aliases: map<TableId, SqlTree.Alias>, js: seq<PlannedJoin>)
    ensures LowerJoins(b, scope, aliases, js).Raise? ==> LowerJoins(b, scope, aliases, js).code in LoweringCodes
  {
    if js != [] {
      JoinLoweringErrors(b, scope, aliases, js[1..]);
      PredicateLoweringErrors(js[0].relationship.predicates);
    }
  }

  lemma {:induction false} PredicateLoweringErrors(ps: seq<JoinPredicate>)
    ensures LowerJoinPredicates(ps).Raise? ==> LowerJoinPredicates(ps).code in LoweringCodes
  {
    if ps != [] {
      PredicateLoweringErrors(ps[1..]);
    }
  }

  lemma {:induction false} TenantErrors(b: Bundle, ts: seq<TableId>)
    ensures TenantConditions(b, ts).Raise? ==> TenantConditions(b, ts).code in LoweringCodes
  {
    if ts != [] {
      TenantErrors(b, ts[1..]);
    }
  }

  lemma LoweringErrors(b: Bundle, scope: Scope, plan: BoundPlan, joins: JoinPlan)
    ensures LowerPlan(b, scope, plan, joins).Raise? ==> LowerPlan(b, scope, plan, joins).code in LoweringCodes
  {
    hide AssignAliases, WhereOf, GroupsOf, NeedsTenant;
    JoinLoweringErrors(b, scope, AssignAliases(PlannedTables(joins)), joins.joins);
    TenantErrors(b, PlannedTables(joins));
  }

  lemma {:induction false} OperandErrors(env: Env, os: seq<Operand>)
    ensures EmitOperands(env, os).Raise? ==> EmitOperands(env, os).code in CompilationCodes
  {
    if os != [] {
      OperandErrors(env, os[1..]);
    }
  }

  lemma {:induction false} PredicateErrors(env: Env, p: Predicate)
    ensures EmitPredicate(env, p).Raise? ==> EmitPredicate(env, p).code in CompilationCodes
    decreases p, 0
  {
    match p
    case Membership(_, l, ms) => OperandErrors(env, ms);
    case BoolOp(_, first, rest) =>
      PredicateErrors(env, first);
      PredicatesErrors(env, rest);
    case _ =>
  }

  lemma {:induction false} PredicatesErrors(env: Env, ps: seq<Predicate>)
    ensures EmitPredicates(env, ps).Raise? ==> EmitPredicates(env, ps).code in CompilationCodes
    decreases ps, 0
  {
    if ps != [] {
      PredicateErrors(env, ps[0]);
      PredicatesErrors(env, ps[1..]);
    }
  }

  lemma {:induction false} JoinErrors(env: Env, joins: seq<Join>)
    requires JoinsHavePredicates(joins)
    ensures EmitJoins(env, joins).Raise? ==> EmitJoins(env, joins).code in CompilationCodes
  {
    if joins != [] {
      assert joins[0] in joins && forall j :: j in joins[1..] ==> j in joins;
      PredicatesErrors(env, joins[0].predicates);
      JoinErrors(env, joins[1..]);
    }
  }

  lemma {:induction false} MeasureErrors(env: Env, m: Measure)
    ensures EmitMeasure(env, m).Raise? ==> EmitMeasure(env, m).code in CompilationCodes
  {
    if m.Ratio? {
      MeasureErrors(env, m.numerator);
      MeasureErrors(env, m.denominator);
    }
  }

  lemma {:induction false} MeasuresErrors(env: Env, ms: seq<(string, Measure)>)
    ensures EmitMeasures(env, ms).Raise? ==> EmitMeasures(env, ms).code in CompilationCodes
  {
    if ms != [] {
      MeasureErrors(env, ms[0].1);
      MeasuresErrors(env, ms[1..]);
    }
  }

  lemma {:induction false} DimensionErrors(env: Env, gs: seq<(string, Option<ColumnId>)>)
    ensures EmitDimensions(env, gs).Raise? ==> EmitDimensions(env, gs).code in CompilationCodes
  {
    if gs != [] {
      DimensionErrors(env, gs[1..]);
    }
  }

  lemma CompilationErrors(env: Env, plan: LogicalPlan)
    requires JoinsHavePredicates(plan.joins)
    ensures EmitSelect(env, plan).Raise? ==> EmitSelect(env, plan).code in CompilationCodes
  {
    hide EmitJoins, EmitPredicates, EmitMeasures, EmitDimensions;
    JoinErrors(env, plan.joins);
    PredicatesErrors(env, plan.where);
    PredicatesErrors(env, plan.having);
    MeasuresErrors(env, plan.measures);
    DimensionErrors(env, plan.groupBy);
  }

  method BindValidateCompile(engine: RE.Engine, w: World, s: State, store: ArtifactStore) returns (p: Pipeline, next: State)
    requires engine.Valid() && engine.bundle == w.bundle && Published(w.bundle) && s.proposal.Some?
    modifies store
    ensures PipelineFor(w, s.proposal.value, p) && next == AfterBind(w, s, p)
    ensures store.byRevision == StoreAfter(old(store.byRevision), s.revision, p)
  {
    hide CompiledFor, PipelineFor, Published;
    p := RunPipeline(engine, w, s.proposal.value);
    match p
    case Failed(code) =>
      var columns := ExpectedOutputColumns(w.bundle, s.proposal.value);
      next := s.(decision := Verdict(s, [code]), codes := [code], columns := columns);
    case Rejected(codes, columns) =>
      next := s.(decision := Verdict(s, codes), codes := codes, columns := columns);
    case Compiled(a) =>
      store.DiscardFrom(s.revision);
      store.Put(s.revision, a);
      next := s.(decision := "ready", columns := a.bound.plan.contract.columns);
  }

  // -- executing ------------------------------------------------------------------------------------------------

  lemma {:induction false} GroupWidths(engine: Engine, s: Select, vals: seq<Value>, ts: seq<Tuple<Alias>>, ks: seq<Key>, groups: seq<Key>)
    requires |ts| == |ks|
    ensures forall r :: r in EvalGroups(engine, s, vals, ts, ks, groups) ==> |r| == |s.projections|
  {
    hide SqlHolds, GroupMembers;
    if groups != [] {
      GroupWidths(engine, s, vals, ts, ks, groups[1..]);
    }
  }

  /** Rows have as many values as there are columns. */
  lemma FetchedWidths(wh: Warehouse, q: CompiledQuery)
    requires Arranging(wh) && Fetch(wh, q).Ok?
    ensures forall r :: r in Fetch(wh, q).value.rows ==> |r| == |Fetch(wh, q).value.columns|
  {
    hide EvalSource, GroupKeyOf, FirstSeen;
    var read := Reparse(q.sql).value;
    var ts := EvalSource(read, q.values, wh.db);
    var ks := KeysOf(ts, GroupKeyOf(wh.engine, read.group));
    var rows := EvalSelect(wh.engine, read, q.values, wh.db);
    GroupWidths(wh.engine, read, q.values, ts, ks, GroupKeys(read.group != [], ks));
    var arranged := wh.arrange(rows);
    assert Arranges(arranged, rows);
    forall r | r in arranged
      ensures |r| == |read.projections|
    {
      assert r in multiset(arranged);
    }
    assert forall r :: r in Delivered(read.limit, arranged) ==> r in arranged;
    NamesPerProjection(read.projections);
  }

  lemma {:induction false} NamesPerProjection(ps: seq<Projection>)
    ensures |OutputNames(ps)| == |ps|
  {
    if ps != [] {
      NamesPerProjection(ps[1..]);
    }
  }

  /** Preflight, attest the join contract, then execute and validate the result. */
  method ExecuteStored(w: World, s: State, store: ArtifactStore, wh: Warehouse) returns (next: State)
    requires Arranging(wh)
    requires s.revision in store.byRevision ==>
               && JoinsHavePredicates(store.byRevision[s.revision].logical.joins)
               && var c := store.byRevision[s.revision].bound.plan.contract; forall name :: name in c.uniqueKeys ==> name in c.columns
    ensures next == AfterExecute(w, s, store.byRevision, wh)
  {
    hide KeysUnique, SomeNaN, MetricNames, RunAttestation, AttestationsOf, Reparse, EvalSelect, Arranging;
    var stored := store.Get(s.revision);
    if stored.None? {
      return Blocked(s, [CompilerDefect]);
    }
    var a := stored.value;
    if wh.admitted.Raise? {
      return Blocked(s, [wh.admitted.code]);
    }
    var built := BuildAttestations(w.bundle, a.logical, w.scope, a.parameters);
    if built.Raise? {
      return Blocked(s, [built.code]);
    }
    var attestations := built.value;
    for i := 0 to |attestations|
      invariant AttestationFailure(wh, attestations, 0) == AttestationFailure(wh, attestations, i)
    {
      if wh.fails(i) {
        return Blocked(s, [ValidationFailed]);
      }
      var totals := RunAttestation(wh.engine, attestations[i], wh.db);
      if totals.Raise? {
        return Blocked(s, [ValidationFailed]);
      }
      var finding := Check(totals.value);
      if finding.Some? {
        return Blocked(s, [finding.value]);
      }
    }
    var fetched := Fetch(wh, a.query);
    if wh.fails(|attestations|) || fetched.Raise? {
      return Blocked(s, [ExecutionFailed]);
    }
    var result, plan := fetched.value, a.bound.plan;
    if result.columns != plan.contract.columns {
      return Blocked(s, [ResultContractBreach]);
    }
    FetchedWidths(wh, a.query);
    var findings := ValidateResult(result, plan, wh.engine.isNaN);
    if !Passed(findings) {
      return Blocked(s, [ResultContractBreach]);
    }
    next := s.(decision := "answered", answer := Some("answered"));
  }
}
