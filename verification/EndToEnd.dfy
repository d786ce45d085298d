/**
  From an accepted request to its answer: the plan compiles as soon as its names have values,
  the executed text yields what the plan asks for, and a tenant sees its own rows only.
*/
module EndToEnd {
  import opened Errors
  import opened Values
  import opened Expressions
  import opened Catalog
  import opened Ordering
  import opened SqlTree
  import opened Plans
  import opened Planner
  import opened Rules
  import opened RuleEngine
  import opened Relational
  import opened SQ = SqlQuery
  import opened PlanMeaning
  import opened RatioMeaning
  import opened Emissions
  import opened CompilerMeaning
  import opened QueryMeaning
  import opened Lowering
  import opened FanOut
  import opened Tenancy
  import opened Binder
  import opened Scoping

  // -- when compilation succeeds -------------------------------------------------------------------

  predicate ColumnsResolve(env: Env, cs: set<ColumnId>) {
    forall c :: c in cs ==> c.table in env.aliasOf && c in env.columns
  }

  predicate HasValue(names: Names, o: Operand) {
    match o
    case Enum(s, m) => (s, m) in names.enums
    case Parameter(n) => n in names.supplied
    case _ => true
  }

  predicate HaveValues(names: Names, os: seq<Operand>) {
    os == [] || (HasValue(names, os[0]) && HaveValues(names, os[1..]))
  }

  /** Parameters are supplied, enum members published, and a negation has one argument. */
  predicate Settled(names: Names, p: Predicate)
    decreases p, 0
  {
    match p
    case Comparison(_, l, r) => HasValue(names, l) && HasValue(names, r)
    case NullTest(_, o) => HasValue(names, o)
    case Membership(_, l, ms) => HasValue(names, l) && HaveValues(names, ms)
    case BoolOp(c, first, rest) => Settled(names, first) && AllSettled(names, rest) && (c.Negation? ==> rest == [])
  }

  predicate AllSettled(names: Names, ps: seq<Predicate>)
    decreases ps, 0
  {
    ps == [] || (Settled(names, ps[0]) && AllSettled(names, ps[1..]))
  }

  lemma OperandEmits(env: Env, o: Operand)
    ensures EmitOperand(env, o).Ok? <==> ColumnsResolve(env, OperandColumns(o)) && HasValue(env.names, o)
  {
  }

  lemma {:induction false} OperandsEmit(env: Env, os: seq<Operand>)
    ensures EmitOperands(env, os).Ok? <==> ColumnsResolve(env, MemberColumns(os)) && HaveValues(env.names, os)
  {
    if os != [] {
      OperandEmits(env, os[0]);
      OperandsEmit(env, os[1..]);
    }
  }

  lemma {:induction false} PredicateEmits(env: Env, p: Predicate)
    ensures EmitPredicate(env, p).Ok? <==> ColumnsResolve(env, ColumnsIn(p)) && Settled(env.names, p)
    decreases p, 0
  {
    match p
    case Comparison(_, l, r) =>
      OperandEmits(env, l);
      OperandEmits(env, r);
    case NullTest(_, o) => OperandEmits(env, o);
    case Membership(_, l, ms) =>
      OperandEmits(env, l);
      OperandsEmit(env, ms);
    case BoolOp(c, first, rest) =>
      PredicateEmits(env, first);
      PredicatesEmit(env, rest);
  }

  lemma {:induction false} PredicatesEmit(env: Env, ps: seq<Predicate>)
    ensures EmitPredicates(env, ps).Ok? <==> ColumnsResolve(env, ColumnsInAll(ps)) && AllSettled(env.names, ps)
    decreases ps, 0
  {
    if ps != [] {
      PredicateEmits(env, ps[0]);
      PredicatesEmit(env, ps[1..]);
    }
  }

  lemma ClauseEmits(env: Env, ps: seq<Predicate>)
    ensures EmitClause(env, ps).Ok? <==> ColumnsResolve(env, ColumnsInAll(ps)) && AllSettled(env.names, ps)
  {
    PredicatesEmit(env, ps);
  }

  predicate JoinsSettled(names: Names, joins: seq<Join>) {
    joins == [] || (AllSettled(names, joins[0].predicates) && JoinsSettled(names, joins[1..]))
  }

  lemma {:induction false} JoinsEmit(env: Env, joins: seq<Join>)
    requires JoinsHavePredicates(joins)
    ensures EmitJoins(env, joins).Ok? <==> ColumnsResolve(env, OnColumns(joins)) && JoinsSettled(env.names, joins)
  {
    if joins != [] {
      assert joins[0] in joins && forall j :: j in joins[1..] ==> j in joins;
      PredicatesEmit(env, joins[0].predicates);
      JoinsEmit(env, joins[1..]);
    }
  }

  lemma {:induction false} MeasureEmits(env: Env, m: Measure)
    ensures EmitMeasure(env, m).Ok? <==> ColumnsResolve(env, MeasureColumns(m))
  {
    if m.Ratio? {
      MeasureEmits(env, m.numerator);
      MeasureEmits(env, m.denominator);
    }
  }

  lemma {:induction false} MeasuresEmit(env: Env, ms: seq<(string, Measure)>)
    ensures EmitMeasures(env, ms).Ok? <==> ColumnsResolve(env, MeasuredColumns(ms))
    ensures EmitMeasures(env, ms).Ok? ==> |EmitMeasures(env, ms).value.tree| == |ms|
  {
    if ms != [] {
      MeasureEmits(env, ms[0].1);
      MeasuresEmit(env, ms[1..]);
    }
  }

  lemma {:induction false} DimensionsEmit(env: Env, gs: seq<(string, Option<ColumnId>)>)
    ensures EmitDimensions(env, gs).Ok? <==> ColumnsResolve(env, GroupColumns(gs))
  {
    if gs != [] {
      DimensionsEmit(env, gs[1..]);
      assert GroupColumns(gs) == (if gs[0].1.Some? then {gs[0].1.value} else {}) + GroupColumns(gs[1..]) by {
        assert forall g :: g in gs <==> g == gs[0] || g in gs[1..];
      }
    }
  }

  predicate PlanSettled(names: Names, plan: LogicalPlan) {
    JoinsSettled(names, plan.joins) && AllSettled(names, plan.where) && AllSettled(names, plan.having)
  }

  /** A plan with a measure compiles exactly when its columns resolve and its names have values. */
  lemma PlanCompiles(env: Env, plan: LogicalPlan)
    requires JoinsHavePredicates(plan.joins) && plan.measures != []
    ensures EmitSelect(env, plan).Ok? <==> ColumnsResolve(env, PlanColumns(plan)) && PlanSettled(env.names, plan)
  {
    hide EmitClause, EmitJoins, EmitMeasures, EmitDimensions, ColumnsInAll, OnColumns, MeasuredColumns, GroupColumns, AllSettled,
      JoinsSettled, ColumnsResolve;
    JoinsEmit(env, plan.joins);
    ClauseEmits(env, plan.where);
    ClauseEmits(env, plan.having);
    MeasuresEmit(env, plan.measures);
    DimensionsEmit(env, plan.groupBy);
    BucketEmits(env, plan.timeBucket);
    ResolveSplits(env, plan);
  }

  lemma BucketEmits(env: Env, b: Option<TimeBucket>)
    ensures EmitBucketProjection(env, b).Ok? <==> ColumnsResolve(env, BucketColumns(b))
  {
  }

  lemma ResolveSplits(env: Env, plan: LogicalPlan)
    ensures ColumnsResolve(env, PlanColumns(plan)) <==>
              && ColumnsResolve(env, BucketColumns(plan.timeBucket)) && ColumnsResolve(env, GroupColumns(plan.groupBy))
              && ColumnsResolve(env, MeasuredColumns(plan.measures)) && ColumnsResolve(env, OnColumns(plan.joins))
              && ColumnsResolve(env, ColumnsInAll(plan.where)) && ColumnsResolve(env, ColumnsInAll(plan.having))
  {
    hide OnColumns, MeasuredColumns, GroupColumns, ColumnsInAll, BucketColumns;
  }

  // -- order of parameters -----------------------------------------------------------------------------

  /** The left side of every membership is a column. */
  predicate ColumnLeft(p: Predicate)
    decreases p, 0
  {
    match p
    case Membership(_, l, _) => l.Column?
    case BoolOp(_, first, rest) => ColumnLeft(first) && AllColumnLeft(rest)
    case _ => true
  }

  predicate AllColumnLeft(ps: seq<Predicate>)
    decreases ps, 0
  {
    ps == [] || (ColumnLeft(ps[0]) && AllColumnLeft(ps[1..]))
  }

  lemma {:induction false} ColumnLeftInOrder(env: Env, p: Predicate)
    requires ColumnLeft(p)
    ensures InOrder(env, p)
    decreases p, 0
  {
    if p.BoolOp? {
      ColumnLeftInOrder(env, p.first);
      AllColumnLeftInOrder(env, p.rest);
    }
  }

  lemma {:induction false} AllColumnLeftInOrder(env: Env, ps: seq<Predicate>)
    requires AllColumnLeft(ps)
    ensures AllInOrder(env, ps)
    decreases ps, 0
  {
    if ps != [] {
      ColumnLeftInOrder(env, ps[0]);
      AllColumnLeftInOrder(env, ps[1..]);
    }
  }

  lemma {:induction false} LeftConcat(a: seq<Predicate>, b: seq<Predicate>)
    requires AllColumnLeft(a) && AllColumnLeft(b)
    ensures AllColumnLeft(a + b)
  {
    if a == [] {
      assert a + b == b;
    } else {
      LeftConcat(a[1..], b);
      assert (a + b)[1..] == a[1..] + b;
    }
  }

  lemma {:induction false} TenantLeft(bundle: Bundle, tables: seq<TableId>)
    requires TenantConditions(bundle, tables).Ok?
    ensures AllColumnLeft(TenantConditions(bundle, tables).value)
  {
    if tables != [] {
      TenantLeft(bundle, tables[1..]);
      if tables[0] in bundle.tables && TENANT_TAG in bundle.tables[tables[0]].tags {
        var key, rest := bundle.tables[tables[0]].tenantKey.value, TenantConditions(bundle, tables[1..]).value;
        assert ([TenantCondition(key)] + rest)[1..] == rest;
      }
    }
  }

  /** The catalog's own conditions keep columns on the left of IN, as the binder's filters do. */
  predicate CatalogColumnLeft(bundle: Bundle) {
    && (forall id :: id in bundle.metrics && bundle.metrics[id].population.Some? ==> ColumnLeft(bundle.metrics[id].population.value))
    && (forall q :: q in bundle.rules && DemandOf(q).Some? && DemandOf(q).value.condition.Some? ==>
          ColumnLeft(DemandOf(q).value.condition.value))
  }

  predicate ObligationsLeft(os: seq<Obligation>) {
    forall o :: o in os && o.demand.condition.Some? ==> ColumnLeft(o.demand.condition.value)
  }

  lemma {:induction false} ObligedLeft(os: seq<Obligation>, placement: Placement)
    requires ObligationsLeft(os)
    ensures AllColumnLeft(ObligedAt(os, placement))
  {
    if os != [] {
      assert os[0] in os && forall o :: o in os[1..] ==> o in os;
      ObligedLeft(os[1..], placement);
      var d, rest := os[0].demand, ObligedAt(os[1..], placement);
      if d.condition.Some? && d.placement == placement {
        assert ([d.condition.value] + rest)[1..] == rest;
      } else {
        assert [] + rest == rest;
      }
    }
  }

  lemma ClosureLeft(bundle: Bundle, scope: Scope, seed: Seed, required: seq<string>, closure: ClosureResult)
    requires ClosureFor(bundle, scope, seed, required, closure) && CatalogColumnLeft(bundle)
    ensures ObligationsLeft(closure.obligations)
  {
    hide ActiveFrom, RefsApplied, Reauthorized, Closed, Within;
  }

  /** Binder-made filters always meet the condition for aligned placeholders. */
  lemma {:induction false} FiltersLeft(bundle: Bundle, scope: Scope, fs: seq<ProposedFilter>, ps: seq<Predicate>)
    requires |ps| == |fs| && forall i :: 0 <= i < |fs| ==> BindFilter(bundle, scope, fs[i]) == Ok(ps[i])
    ensures AllColumnLeft(ps)
  {
    if fs != [] {
      FiltersLeft(bundle, scope, fs[1..], ps[1..]);
      assert BindFilter(bundle, scope, fs[0]) == Ok(ps[0]);
    }
  }

  lemma {:induction false} LoweredPredicatesLeft(ps: seq<JoinPredicate>, names: Names)
    requires LowerJoinPredicates(ps).Ok?
    ensures AllColumnLeft(LowerJoinPredicates(ps).value) && AllSettled(names, LowerJoinPredicates(ps).value)
  {
    if ps != [] {
      LoweredPredicatesLeft(ps[1..], names);
      var p := LowerJoinPredicate(ps[0]).value;
      var rest := LowerJoinPredicates(ps[1..]).value;
      assert ([p] + rest)[1..] == rest;
      if p.BoolOp? {
        assert p.rest[1..] == [];
        assert AllSettled(names, p.rest[1..]) && AllColumnLeft(p.rest[1..]);
        assert Settled(names, p.rest[0]) && ColumnLeft(p.rest[0]);
      }
    }
  }

  lemma {:induction false} LoweredJoinsLeft(env: Env, js: seq<PlannedJoin>, joins: seq<Join>)
    requires AllLowered(js, joins)
    ensures JoinsInOrder(env, joins) && JoinsSettled(env.names, joins)
  {
    if js != [] {
      assert Lowered(js[0], joins[0]) && forall i :: 0 <= i < |js[1..]| ==> Lowered(js[1..][i], joins[1..][i]);
      LoweredPredicatesLeft(js[0].relationship.predicates, env.names);
      AllColumnLeftInOrder(env, joins[0].predicates);
      LoweredJoinsLeft(env, js[1..], joins[1..]);
    }
  }

  lemma WhereLeft(bundle: Bundle, scope: Scope, request: Request, r: BindResult, tenant: seq<Predicate>)
    requires BoundFrom(bundle, scope, request, r) && CatalogColumnLeft(bundle) && AllColumnLeft(tenant)
    ensures AllColumnLeft(WhereOf(r.plan, tenant)) && AllColumnLeft(ObligedAt(r.plan.obligations, AfterAggregation))
  {
    hide ClosureFor, JoinsFor, Authorized, AllColumnLeft, ColumnLeft, DimensionUsable, MetricUsable;
    UnderstoodMetric(bundle, scope, request, r.plan.dimensions, r.plan.filters);
    var m, plan := bundle.metrics[request.metricIds[0]], r.plan;
    ClosureLeft(bundle, scope, SeedOf(m, plan.dimensions, plan.filters), m.requiredRules, r.closure);
    ObligedLeft(plan.obligations, BeforeAggregation);
    ObligedLeft(plan.obligations, AfterAggregation);
    FiltersLeft(bundle, scope, request.filters, plan.filters);
    PopulationLeft(plan.metrics[0]);
    TimeLeft(plan.time);
    var pops, obliged := Populations(plan.metrics), ObligedAt(plan.obligations, BeforeAggregation);
    LeftConcat(tenant, TimeConditions(plan.time));
    LeftConcat(tenant + TimeConditions(plan.time), pops);
    LeftConcat(tenant + TimeConditions(plan.time) + pops, obliged);
    LeftConcat(tenant + TimeConditions(plan.time) + pops + obliged, plan.filters);
  }

  lemma PopulationLeft(m: BoundMetric)
    requires m.population.Some? ==> ColumnLeft(m.population.value)
    ensures AllColumnLeft(Populations([m]))
  {
    PopulationsOfOne(m);
    if m.population.Some? {
      assert [m.population.value][1..] == [];
      assert AllColumnLeft([]);
    }
  }

  lemma TimeLeft(time: Option<BoundTime>)
    ensures AllColumnLeft(TimeConditions(time))
  {
    if time.Some? {
      var cs := TimeConditions(time);
      assert cs[1..] == [cs[1]] && cs[1..][1..] == [];
      assert AllColumnLeft(cs[1..]) <==> ColumnLeft(cs[1]) && AllColumnLeft([]);
    }
  }

  // -- the main theorem -------------------------------------------------------------------------------------

  /** An accepted request, lowered over a well-formed catalog, with values for its names. */
  ghost predicate Ready(bundle: Bundle, scope: Scope, request: Request, r: BindResult, plan: LogicalPlan, parameters: map<string, Value>) {
    && BoundFrom(bundle, scope, request, r) && LoweredFrom(bundle, scope, r, plan) && CatalogColumnLeft(bundle)
    && var names := EnvOf(bundle, plan, scope, parameters).names; AllSettled(names, plan.where) && AllSettled(names, plan.having)
  }

  lemma ReadyPlan(bundle: Bundle, scope: Scope, request: Request, r: BindResult, plan: LogicalPlan, parameters: map<string, Value>)
    requires Ready(bundle, scope, request, r, plan, parameters)
    ensures AllLowered(r.joins.joins, plan.joins)
    ensures AllColumnLeft(plan.where) && AllColumnLeft(plan.having) && |plan.measures| == 1
    ensures plan.measures[0].1 == bundle.metrics[request.metricIds[0]].expression
  {
    hide BoundFrom, AllColumnLeft, WhereOf, GroupsOf, BucketOf, Tree, NoDuplicates, BundleWellFormed, CatalogPublished, CatalogColumnLeft,
      LowerPlan, NeedsTenant, TenantConditions, ObligedAt, MeasuresOf, AllSettled, AllLowered, DistinctScans, ScansOf;
    LoweredParts(bundle, scope, r, plan);
    var s := JoinTree(bundle, scope, request, r);
    PlannedAreDistinct(s, r.joins);
    LoweredJoins(bundle, scope, r.plan, r.joins, plan);
    var tenant := if NeedsTenant(r.plan.obligations) then TenantConditions(bundle, PlannedTables(r.joins)).value else [];
    if NeedsTenant(r.plan.obligations) {
      TenantLeft(bundle, PlannedTables(r.joins));
    } else {
      NothingLeft();
    }
    WhereLeft(bundle, scope, request, r, tenant);
    BoundMeasure(bundle, scope, request, r);
  }

  lemma NothingLeft()
    ensures AllColumnLeft([])
  {
  }

  lemma BoundMeasure(bundle: Bundle, scope: Scope, request: Request, r: BindResult)
    requires BoundFrom(bundle, scope, request, r)
    ensures |request.metricIds| == 1 && request.metricIds[0] in bundle.metrics
    ensures |MeasuresOf(r.plan.metrics)| == 1 && MeasuresOf(r.plan.metrics)[0].1 == bundle.metrics[request.metricIds[0]].expression
  {
    hide ClosureFor, JoinsFor, Authorized;
  }

  /** Compiling an accepted request with values for its names never fails, in particular never for an unscanned column. */
  lemma AcceptedRequestsCompile(bundle: Bundle, scope: Scope, request: Request, r: BindResult, plan: LogicalPlan,
                                parameters: map<string, Value>)
    requires Ready(bundle, scope, request, r, plan, parameters)
    ensures var env := EnvOf(bundle, plan, scope, parameters);
            && JoinsHavePredicates(plan.joins) && EmitSelect(env, plan).Ok?
            && Aliased(env, plan) && PlanInOrder(env, plan)
  {
    hide BoundFrom, LoweredFrom, CatalogColumnLeft, EmitSelect, PlanColumns, AllSettled, DistinctScans, AllColumnLeft, AllLowered,
      JoinsInOrder, AllInOrder, JoinsSettled, Aliased;
    var env := EnvOf(bundle, plan, scope, parameters);
    ScopingIsClosed(bundle, scope, request, r, plan);
    PlanScansAreAliased(env, plan);
    assert ColumnsResolve(env, PlanColumns(plan));
    ReadyPlan(bundle, scope, request, r, plan, parameters);
    LoweredJoinsLeft(env, r.joins.joins, plan.joins);
    PlanCompiles(env, plan);
    AllColumnLeftInOrder(env, plan.where);
    AllColumnLeftInOrder(env, plan.having);
  }

  /** The plan has a statement, and the statement's text parses. */
  predicate Runnable(bundle: Bundle, plan: LogicalPlan, scope: Scope, parameters: map<string, Value>) {
    && JoinsHavePredicates(plan.joins) && EmitSelect(EnvOf(bundle, plan, scope, parameters), plan).Ok?
    && Reparse(EmitSelect(EnvOf(bundle, plan, scope, parameters), plan).value.tree).Ok?
  }

  lemma ReadyIsRunnable(bundle: Bundle, scope: Scope, request: Request, r: BindResult, plan: LogicalPlan, parameters: map<string, Value>)
    requires Ready(bundle, scope, request, r, plan, parameters)
    ensures Runnable(bundle, plan, scope, parameters)
  {
    hide EmitSelect, Reparse, Aliased, PlanInOrder, Ready, EnvOf;
    AcceptedRequestsCompile(bundle, scope, request, r, plan, parameters);
    StatementReadsBack(EnvOf(bundle, plan, scope, parameters), plan);
  }

  /** The rows of the executed text, before ORDER BY and LIMIT. */
  function Executed(bundle: Bundle, plan: LogicalPlan, scope: Scope, parameters: map<string, Value>, engine: SQ.Engine, db: Database)
    : seq<seq<Value>>
    requires Runnable(bundle, plan, scope, parameters)
  {
    var e := EmitSelect(EnvOf(bundle, plan, scope, parameters), plan).value;
    EvalSelect(engine, Reparse(e.tree).value, BoundValues(e.bound), db)
  }

  /**
    Every accepted request with values for its names compiles, whatever the catalog and the
    policy, with aligned placeholders. On every database the executed text yields the served
    rows; they are the rows the plan asks for exactly when each kept group's measure is
    answered right, as it always is under the NULL policy.
  */
  lemma AcceptedRequestsMeanWhatTheyAsk(bundle: Bundle, scope: Scope, request: Request, r: BindResult, plan: LogicalPlan,
                                        parameters: map<string, Value>, engine: SQ.Engine, db: Database)
    requires Ready(bundle, scope, request, r, plan, parameters)
    ensures Runnable(bundle, plan, scope, parameters)
    ensures var env := EnvOf(bundle, plan, scope, parameters);
            && EmitSelect(env, plan).value.bound == PlanTextBound(env, plan)
            && var rows := Executed(bundle, plan, scope, parameters, engine, db);
            && rows == ServedRows(plan, env.names, engine, db)
            && (RowsRight(plan, env.names, engine, db) <==>
                  NothingRefused(plan, env.names, engine, db) && rows == PlanRows(plan, env.names, engine, db))
            && (PolicyKept(bundle.metrics[request.metricIds[0]].expression) ==> RowsRight(plan, env.names, engine, db))
  {
    hide EmitSelect, PlanRows, ServedRows, EvalSelect, Reparse, Aliased, PlanInOrder, Ready, BoundFrom, LoweredFrom, PlanTextBound,
      EnvOf, PolicyKept, RowsRight, NothingRefused;
    var env := EnvOf(bundle, plan, scope, parameters);
    AcceptedRequestsCompile(bundle, scope, request, r, plan, parameters);
    ReadyPlan(bundle, scope, request, r, plan, parameters);
    ReadyIsLowered(bundle, scope, request, r, plan, parameters);
    StatementAligned(env, plan);
    StatementReadsBack(env, plan);
    BoundMeasure(bundle, scope, request, r);
    NamesAreTheCatalogs(bundle, scope, r, plan, parameters);
    CompiledQueryServes(env, plan, engine, db);
    CompiledQueryMeaning(env, plan, engine, db);
  }

  lemma NamesAreTheCatalogs(bundle: Bundle, scope: Scope, r: BindResult, plan: LogicalPlan, parameters: map<string, Value>)
    requires LoweredFrom(bundle, scope, r, plan)
    ensures Named(EnvOf(bundle, plan, scope, parameters))
  {
  }

  // -- tenants ---------------------------------------------------------------------------------------------------

  /** The catalog's tenant-scoped tables and their keys. */
  function TenantKeysOf(bundle: Bundle): TenantKeys {
    map t | t in bundle.tables && TENANT_TAG in bundle.tables[t].tags && bundle.tables[t].tenantKey.Some? ::
      bundle.tables[t].tenantKey.value
  }

  lemma {:induction false} ConditionPerTable(bundle: Bundle, tables: seq<TableId>, t: TableId)
    requires TenantConditions(bundle, tables).Ok? && t in tables && t in TenantKeysOf(bundle)
    ensures TenantCondition(TenantKeysOf(bundle)[t]) in TenantConditions(bundle, tables).value
  {
    if t != tables[0] {
      ConditionPerTable(bundle, tables[1..], t);
    }
  }

  /** Under a tenant-scope obligation, lowering isolates every tenant-scoped scan. */
  lemma LoweringIsolatesTenants(bundle: Bundle, scope: Scope, r: BindResult, plan: LogicalPlan)
    requires LoweredFrom(bundle, scope, r, plan) && NeedsTenant(r.plan.obligations)
    requires ScansOf(bundle, PlannedTables(r.joins), Scans(plan))
    ensures Isolated(TenantKeysOf(bundle), plan)
    ensures forall scan :: scan in Scans(plan) && TENANT_TAG in bundle.tables[scan.table].tags ==> scan.table in TenantKeysOf(bundle)
  {
    hide LowerPlan, CatalogPublished, BundleWellFormed, TenantCondition, TenantConditions, NeedsTenant;
    LoweredTenant(bundle, scope, r, plan);
    forall scan | scan in Scans(plan)
      ensures scan.table in bundle.tables
      ensures TENANT_TAG in bundle.tables[scan.table].tags ==> scan.table in TenantKeysOf(bundle)
      ensures scan.table in TenantKeysOf(bundle) ==>
                && TenantKeysOf(bundle)[scan.table].table == scan.table
                && TenantCondition(TenantKeysOf(bundle)[scan.table]) in plan.where
    {
      var i :| 0 <= i < |Scans(plan)| && Scans(plan)[i] == scan;
      assert ScanOf(bundle, PlannedTables(r.joins), scan, i);
      if TENANT_TAG in bundle.tables[scan.table].tags {
        KeyOrRefusal(bundle, PlannedTables(r.joins), scan.table);
      }
      if scan.table in TenantKeysOf(bundle) {
        ConditionPerTable(bundle, PlannedTables(r.joins), scan.table);
        KeyOfItsTable(bundle, scan.table);
      }
    }
  }

  lemma LoweredTenant(bundle: Bundle, scope: Scope, r: BindResult, plan: LogicalPlan)
    requires LowerPlan(bundle, scope, r.plan, r.joins) == Ok(plan) && NeedsTenant(r.plan.obligations)
    ensures TenantConditions(bundle, PlannedTables(r.joins)).Ok?
    ensures forall p :: p in TenantConditions(bundle, PlannedTables(r.joins)).value ==> p in plan.where
  {
    hide LowerJoins, AssignAliases, GroupsOf, MeasuresOf, BucketOf, TenantConditions, NeedsTenant;
  }

  lemma KeyOfItsTable(bundle: Bundle, t: TableId)
    requires BundleWellFormed(bundle) && t in TenantKeysOf(bundle)
    ensures TenantKeysOf(bundle)[t].table == t
  {
    assert TenantKeyWellFormed(bundle, bundle.tables[t]);
  }

  /** A tenant-scoped table without a key is refused. */
  lemma {:induction false} KeyOrRefusal(bundle: Bundle, tables: seq<TableId>, t: TableId)
    requires TenantConditions(bundle, tables).Ok? && t in tables && t in bundle.tables && TENANT_TAG in bundle.tables[t].tags
    ensures bundle.tables[t].tenantKey.Some?
  {
    if t != tables[0] {
      KeyOrRefusal(bundle, tables[1..], t);
    }
  }

  /**
    Tenant isolation of executed queries: under a tenant-scope obligation, two databases that
    agree on the principal's own rows of tenant-scoped tables and on all other tables give the
    same answer, whatever the policies of the measure.
  */
  lemma TenantsSeeTheirOwnRows(bundle: Bundle, scope: Scope, request: Request, r: BindResult, plan: LogicalPlan,
                               parameters: map<string, Value>, engine: SQ.Engine, db: Database, other: Database)
    requires Ready(bundle, scope, request, r, plan, parameters) && NeedsTenant(r.plan.obligations)
    requires "p_tenant" in parameters ==> parameters["p_tenant"] == scope.tenant
    requires forall scan :: scan in Scans(plan) ==> AgreeOn(TenantKeysOf(bundle), scope.tenant, scan, db, other)
    ensures Runnable(bundle, plan, scope, parameters)
    ensures Executed(bundle, plan, scope, parameters, engine, db) == Executed(bundle, plan, scope, parameters, engine, other)
  {
    hide BoundFrom, EmitSelect, PlanColumns, PlanRows, EvalSelect, Reparse, DistinctScans, AgreeOn, Isolated, Ready, LowerPlan,
      BundleWellFormed, CatalogPublished, ScansOf, Tree, NoDuplicates, NeedsTenant, PlanTextBound, ServedRows, RowsRight, NothingRefused,
      PolicyKept;
    AcceptedRequestsMeanWhatTheyAsk(bundle, scope, request, r, plan, parameters, engine, db);
    AcceptedRequestsMeanWhatTheyAsk(bundle, scope, request, r, plan, parameters, engine, other);
    ReadyIsLowered(bundle, scope, request, r, plan, parameters);
    var s := JoinTree(bundle, scope, request, r);
    PlannedAreDistinct(s, r.joins);
    LoweredJoins(bundle, scope, r.plan, r.joins, plan);
    LoweringIsolatesTenants(bundle, scope, r, plan);
    TenantsDoNotInterfere(TenantKeysOf(bundle), plan, EnvOf(bundle, plan, scope, parameters).names, scope.tenant, engine, db, other);
  }

  lemma ReadyIsLowered(bundle: Bundle, scope: Scope, request: Request, r: BindResult, plan: LogicalPlan, parameters: map<string, Value>)
    requires Ready(bundle, scope, request, r, plan, parameters)
    ensures BoundFrom(bundle, scope, request, r) && LoweredFrom(bundle, scope, r, plan)
  {
  }

  // -- which rows a plan keeps -----------------------------------------------------------------------------

  predicate AllHold(ps: seq<Predicate>, names: Names, t: Tuple<TableId>) {
    forall p :: p in ps ==> Denote(p, names, t) == Yes
  }

  lemma {:induction false} HoldsEach(ps: seq<Predicate>, names: Names, t: Tuple<TableId>)
    ensures DenoteAll(ps, names, t) == Yes <==> AllHold(ps, names, t)
  {
    hide Denote;
    if ps != [] {
      HoldsEach(ps[1..], names, t);
      assert forall p :: p in ps <==> p == ps[0] || p in ps[1..];
    }
  }

  /** The row's time column lies in the half-open period. */
  predicate InPeriod(time: Option<BoundTime>, t: Tuple<TableId>) {
    time.Some? && time.value.start.Instant? && time.value.endExclusive.Instant? ==>
      var x := Field(t, time.value.column.table, time.value.column.name);
      x.Instant? && time.value.start.t <= x.t < time.value.endExclusive.t
  }

  /** The period's bounds are instants, are supplied under their names, and the time column holds instants or NULL. */
  predicate Timed(time: Option<BoundTime>, names: Names, t: Tuple<TableId>) {
    time.Some? ==>
      && time.value.start.Instant? && time.value.endExclusive.Instant?
      && "p_time_start" in names.supplied && names.supplied["p_time_start"] == time.value.start
      && "p_time_end" in names.supplied && names.supplied["p_time_end"] == time.value.endExclusive
      && var x := Field(t, time.value.column.table, time.value.column.name); x.Null? || x.Instant?
  }

  lemma PeriodIsHalfOpen(time: Option<BoundTime>, names: Names, t: Tuple<TableId>)
    requires Timed(time, names, t)
    ensures AllHold(TimeConditions(time), names, t) <==> InPeriod(time, t)
  {
    if time.Some? {
      var cs := TimeConditions(time);
      var c := time.value.column;
      var x := Field(t, c.table, c.name);
      assert cs == [Comparison(Gte, Column(c), Parameter("p_time_start")), Comparison(Lt, Column(c), Parameter("p_time_end"))];
      assert Denote(cs[0], names, t) == Compare(Gte, x, time.value.start);
      assert Denote(cs[1], names, t) == Compare(Lt, x, time.value.endExclusive);
      assert cs[0] in cs && cs[1] in cs && forall p :: p in cs <==> p == cs[0] || p == cs[1];
    }
  }

  /** The conditions of an obligation, when it has one at a placement, are among those lowered there. */
  lemma {:induction false} ObligedAtIs(os: seq<Obligation>, placement: Placement, p: Predicate)
    ensures p in ObligedAt(os, placement) <==>
              exists o :: o in os && o.demand.condition == Some(p) && o.demand.placement == placement
  {
    if os != [] {
      ObligedAtIs(os[1..], placement, p);
      assert os[0] in os && forall o :: o in os <==> o == os[0] || o in os[1..];
    }
  }

  /** Every mandatory condition that a rule places before aggregation holds of the row. */
  predicate Obeys(os: seq<Obligation>, names: Names, t: Tuple<TableId>) {
    forall o :: o in os && o.demand.condition.Some? && o.demand.placement.BeforeAggregation? ==>
      Denote(o.demand.condition.value, names, t) == Yes
  }

  lemma ObeysEach(os: seq<Obligation>, names: Names, t: Tuple<TableId>)
    ensures AllHold(ObligedAt(os, BeforeAggregation), names, t) <==> Obeys(os, names, t)
  {
    hide Denote, ObligedAt;
    forall p
      ensures p in ObligedAt(os, BeforeAggregation) <==>
                exists o :: o in os && o.demand.condition == Some(p) && o.demand.placement == BeforeAggregation
    {
      ObligedAtIs(os, BeforeAggregation, p);
    }
    if AllHold(ObligedAt(os, BeforeAggregation), names, t) {
      forall o | o in os && o.demand.condition.Some? && o.demand.placement.BeforeAggregation?
        ensures Denote(o.demand.condition.value, names, t) == Yes
      {
        assert o.demand.condition == Some(o.demand.condition.value);
        assert o.demand.condition.value in ObligedAt(os, BeforeAggregation);
      }
    }
  }

  /** What a plan's WHERE asks of a row, in the request's own terms. */
  predicate Wanted(plan: BoundPlan, tenant: seq<Predicate>, names: Names, t: Tuple<TableId>) {
    && AllHold(tenant, names, t) && InPeriod(plan.time, t)
    && (forall m :: m in plan.metrics && m.population.Some? ==> Denote(m.population.value, names, t) == Yes)
    && Obeys(plan.obligations, names, t) && AllHold(plan.filters, names, t)
  }

  lemma {:induction false} PopulationsEach(ms: seq<BoundMetric>, names: Names, t: Tuple<TableId>)
    ensures AllHold(Populations(ms), names, t) <==>
              forall m :: m in ms && m.population.Some? ==> Denote(m.population.value, names, t) == Yes
  {
    hide Denote;
    if ms != [] {
      PopulationsEach(ms[1..], names, t);
      assert forall m :: m in ms <==> m == ms[0] || m in ms[1..];
      var rest := Populations(ms[1..]);
      assert forall p :: p in Populations(ms) <==> (ms[0].population == Some(p)) || p in rest;
    }
  }

  lemma WhereIsWanted(plan: BoundPlan, tenant: seq<Predicate>, names: Names, t: Tuple<TableId>)
    requires Timed(plan.time, names, t)
    ensures Holds(WhereOf(plan, tenant), names)(t) <==> Wanted(plan, tenant, names, t)
  {
    hide Denote, DenoteAll, ObligedAt, Populations, TimeConditions, InPeriod, Timed, Obeys;
    var where := WhereOf(plan, tenant);
    HoldsAll(where, names, t);
    HoldsEach(where, names, t);
    PeriodIsHalfOpen(plan.time, names, t);
    PopulationsEach(plan.metrics, names, t);
    ObeysEach(plan.obligations, names, t);
    var time, pops, obliged := TimeConditions(plan.time), Populations(plan.metrics), ObligedAt(plan.obligations, BeforeAggregation);
    assert forall p :: p in where <==> p in tenant || p in time || p in pops || p in obliged || p in plan.filters;
  }

  /**
    The rows an accepted request aggregates are exactly the joined rows of its tenant, in its
    half-open period, in its metric's population, obeying every mandatory condition and meeting
    every filter.
  */
  lemma KeptRowsAreWanted(bundle: Bundle, scope: Scope, r: BindResult, plan: LogicalPlan, names: Names, db: Database, t: Tuple<TableId>)
    requires LoweredFrom(bundle, scope, r, plan) && Timed(r.plan.time, names, t)
    ensures var tenant := if NeedsTenant(r.plan.obligations) then TenantConditions(bundle, PlannedTables(r.joins)) else Ok([]);
            tenant.Ok? &&
            (t in SourceRows(plan, names, db) <==>
              && t in JoinRows(plan.joins, names, db, ScanRows(plan.base.table, RowsOf(db, plan.base.physical)))
              && Wanted(r.plan, tenant.value, names, t))
  {
    hide LowerPlan, BundleWellFormed, CatalogPublished, WhereOf, NeedsTenant, TenantConditions, Timed, Wanted, JoinRows, Holds;
    LoweredParts(bundle, scope, r, plan);
    var tenant := if NeedsTenant(r.plan.obligations) then TenantConditions(bundle, PlannedTables(r.joins)).value else [];
    WhereIsWanted(r.plan, tenant, names, t);
  }
}
