/**
  Requests that read one table of a catalog without rules and carry no condition: what binding
  and lowering make of them, in closed form. Accepted requests are not hypothetical, and some
  promises fail on them.
*/
module OneTable {
  import opened Errors
  import opened Values
  import opened Expressions
  import opened Catalog
  import opened Plans
  import opened Planner
  import opened JoinPlanning
  import opened Rules
  import opened RuleEngine
  import opened Lowering
  import opened Binder
  import opened Scoping
  import opened EndToEnd

  /** The dimension lies on the metric's base table and may be read and grouped by. */
  predicate DimensionOnBase(bundle: Bundle, scope: Scope, m: Metric, id: string) {
    && DimensionUsable(bundle, scope, m, id) && bundle.dimensions[id].column.table == m.baseTable
    && (UseInPredicate, ColumnResource(bundle.dimensions[id].column)) in scope.allowed
  }

  /** The request names one published metric and published dimensions. */
  predicate Listed(bundle: Bundle, request: Request) {
    && |request.metricIds| == 1 && request.metricIds[0] in bundle.metrics
    && bundle.metrics[request.metricIds[0]].baseTable in bundle.tables
    && forall id :: id in request.dimensionIds ==> id in bundle.dimensions
  }

  predicate StaysOnBase(bundle: Bundle, scope: Scope, request: Request) {
    && BundleWellFormed(bundle) && CatalogPublished(bundle) && CatalogColumnLeft(bundle) && bundle.rules == []
    && Listed(bundle, request) && MetricUsable(bundle, scope, request.metricIds[0])
    && request.filters == [] && request.timeRange.None? && request.orderBy == []
    && var m := bundle.metrics[request.metricIds[0]];
       && m.population.None? && m.requiredRules == [] && GetTable(bundle, m.baseTable, scope).Ok?
       && (forall c :: c in MetricColumns(m) ==> c.table == m.baseTable)
       && forall id :: id in request.dimensionIds ==> DimensionOnBase(bundle, scope, m, id)
  }

  function DimensionsOf(bundle: Bundle, ids: seq<string>): (ds: seq<BoundDimension>)
    requires forall id :: id in ids ==> id in bundle.dimensions
    ensures |ds| == |ids| && forall i :: 0 <= i < |ids| ==> ds[i] == BoundDimensionOf(bundle, ids[i])
  {
    if ids == [] then []
    else
      assert ids[0] in ids && forall id :: id in ids[1..] ==> id in ids;
      [BoundDimensionOf(bundle, ids[0])] + DimensionsOf(bundle, ids[1..])
  }

  /** Binding adds nothing to the request: no obligation, no join. */
  function BoundOn(bundle: Bundle, request: Request): BindResult
    requires Listed(bundle, request)
  {
    var m, dims := bundle.metrics[request.metricIds[0]], DimensionsOf(bundle, request.dimensionIds);
    var metric := BoundMetricOf(m, request.metricIds[0]);
    var contract := ContractOf(None, dims, metric);
    var plan := BoundPlan([metric], dims, None, [], [], [m.ref], Ascending(contract.grain), request.limit, contract);
    BindResult(plan, JoinPlan(m.baseTable, []), ClosureResult(Start(SeedOf(m, dims, [])), [], map[], [], 1, []))
  }

  function PlanOn(bundle: Bundle, request: Request): LogicalPlan
    requires Listed(bundle, request)
  {
    var bound := BoundOn(bundle, request).plan;
    var base := bundle.tables[bundle.metrics[request.metricIds[0]].baseTable];
    LogicalPlan(Scan(base.id, base.physical, 0), [], [], DimensionGroups(bound.dimensions), None,
                [(bound.metrics[0].alias, bound.metrics[0].expression)], [], bound.orderBy, bound.limit, bound.contract.grain)
  }

  // -- the request is accepted -----------------------------------------------------------------------

  lemma DimensionsOnBase(bundle: Bundle, scope: Scope, request: Request, d: BoundDimension)
    requires StaysOnBase(bundle, scope, request) && d in DimensionsOf(bundle, request.dimensionIds)
    ensures d.column.table == bundle.metrics[request.metricIds[0]].baseTable && (UseInPredicate, ColumnResource(d.column)) in scope.allowed
  {
    hide BundleWellFormed, CatalogPublished, CatalogColumnLeft, MetricUsable, MetricColumns, DimensionUsable;
    var dims := DimensionsOf(bundle, request.dimensionIds);
    var i :| 0 <= i < |dims| && dims[i] == d;
    assert request.dimensionIds[i] in request.dimensionIds;
    assert DimensionOnBase(bundle, scope, bundle.metrics[request.metricIds[0]], request.dimensionIds[i]);
  }

  lemma SeedIsBase(bundle: Bundle, scope: Scope, request: Request)
    requires StaysOnBase(bundle, scope, request)
    ensures var m, dims := bundle.metrics[request.metricIds[0]], DimensionsOf(bundle, request.dimensionIds);
            SeedOf(m, dims, []).tables == {m.baseTable}
            && ColumnsUsable(scope, SeedOf(m, dims, []).columns - MeasureColumns(m.expression), UseInPredicate)
  {
    hide BundleWellFormed, CatalogPublished, CatalogColumnLeft, DimensionOnBase, DimensionsOf, Resolvable, MeasureColumns, PopulationColumns;
    var m, dims := bundle.metrics[request.metricIds[0]], DimensionsOf(bundle, request.dimensionIds);
    assert ColumnsInAll([]) == {};
    forall c | c in SeedColumns(m, dims, [])
      ensures c.table == m.baseTable && (c in MeasureColumns(m.expression) || (UseInPredicate, ColumnResource(c)) in scope.allowed)
    {
      if c !in MetricColumns(m) {
        var d :| d in dims && d.column == c;
        DimensionsOnBase(bundle, scope, request, d);
      }
    }
  }

  lemma ClosedAtOnce(bundle: Bundle, scope: Scope, request: Request)
    requires StaysOnBase(bundle, scope, request)
    ensures var r, m := BoundOn(bundle, request), bundle.metrics[request.metricIds[0]];
            ClosureFor(bundle, scope, SeedOf(m, r.plan.dimensions, []), m.requiredRules, r.closure)
  {
    hide MetricUsable, DimensionOnBase, BundleWellFormed, CatalogPublished, CatalogColumnLeft, SeedOf;
  }

  lemma NothingToJoin(bundle: Bundle, scope: Scope, request: Request, refs: set<string>)
    requires StaysOnBase(bundle, scope, request)
    ensures var r, m := BoundOn(bundle, request), bundle.metrics[request.metricIds[0]];
            JoinsFor(bundle, scope, m.baseTable, r.closure, refs, r.joins)
  {
    hide BundleWellFormed, CatalogPublished, CatalogColumnLeft, MetricUsable, DimensionOnBase, MetricColumns, SeedColumns;
    SeedIsBase(bundle, scope, request);
    NoJoinsNoRefs();
    var r := BoundOn(bundle, request);
    EmptyTreeConnects(SearchFor(bundle, scope, r.joins.base, r.closure.reached.tables, true));
  }

  lemma PartsUnderstood(bundle: Bundle, scope: Scope, request: Request)
    requires StaysOnBase(bundle, scope, request)
    ensures Understood(bundle, scope, request, BoundOn(bundle, request).plan.dimensions, [])
  {
    hide BundleWellFormed, CatalogPublished, CatalogColumnLeft, MetricUsable, SeedOf, MetricColumns;
    forall i | 0 <= i < |request.dimensionIds|
      ensures DimensionUsable(bundle, scope, bundle.metrics[request.metricIds[0]], request.dimensionIds[i])
    {
      assert request.dimensionIds[i] in request.dimensionIds;
    }
  }

  /** Binding accepts the request with that plan, and lowering gives that logical plan. */
  lemma StaysOnBaseIsAccepted(bundle: Bundle, scope: Scope, request: Request)
    requires StaysOnBase(bundle, scope, request)
    ensures BoundFrom(bundle, scope, request, BoundOn(bundle, request))
    ensures LoweredFrom(bundle, scope, BoundOn(bundle, request), PlanOn(bundle, request))
  {
    hide BundleWellFormed, CatalogPublished, CatalogColumnLeft, ClosureFor, JoinsFor, Authorized, Understood, LowerPlan, MetricColumns,
      MetricUsable, DimensionOnBase, SeedColumns;
    PartsUnderstood(bundle, scope, request);
    var m, r := bundle.metrics[request.metricIds[0]], BoundOn(bundle, request);
    ClosedAtOnce(bundle, scope, request);
    NothingToJoin(bundle, scope, request, SeedOf(m, r.plan.dimensions, []).relationships + r.closure.reached.relationships);
    SeedAuthorized(bundle, scope, request);
    LowersToBase(bundle, scope, request);
  }

  lemma SeedAuthorized(bundle: Bundle, scope: Scope, request: Request)
    requires StaysOnBase(bundle, scope, request)
    ensures var m, r := bundle.metrics[request.metricIds[0]], BoundOn(bundle, request);
            Authorized(scope, m, SeedOf(m, r.plan.dimensions, []), [], [])
  {
    SeedIsBase(bundle, scope, request);
    var m, r := bundle.metrics[request.metricIds[0]], BoundOn(bundle, request);
    var seed := SeedOf(m, r.plan.dimensions, []);
    assert seed.columns + ObligedColumns([]) + PlannedKeys([]) == seed.columns;
  }

  lemma LowersToBase(bundle: Bundle, scope: Scope, request: Request)
    requires StaysOnBase(bundle, scope, request)
    ensures var r := BoundOn(bundle, request); LowerPlan(bundle, scope, r.plan, r.joins) == Ok(PlanOn(bundle, request))
  {
    hide CatalogPublished, CatalogColumnLeft, MetricUsable, DimensionOnBase, MetricColumns, SeedOf;
    var r := BoundOn(bundle, request);
    var base := r.joins.base;
    assert PlannedTables(r.joins) == [base];
    assert AssignAliases([base]) == map[base := 0] by {
      assert [base][..0] == [];
      assert AssignAliases([]) == map[];
    }
    assert WhereOf(r.plan, []) == [] by {
      assert Populations(r.plan.metrics) == [] by { assert r.plan.metrics[1..] == []; }
    }
    assert MeasuresOf(r.plan.metrics) == [(r.plan.metrics[0].alias, r.plan.metrics[0].expression)];
    assert GroupsOf(r.plan) == DimensionGroups(r.plan.dimensions);
    GrainNames(r.plan.dimensions);
  }

  lemma {:induction false} GrainNames(ds: seq<BoundDimension>)
    ensures AliasesOf(DimensionGroups(ds)) == DimensionOutputs(ds) == GrainOutputs(None, ds)
  {
    var names, groups := DimensionOutputs(ds), DimensionGroups(ds);
    assert |AliasesOf(groups)| == |names|;
    assert forall i :: 0 <= i < |ds| ==> AliasesOf(groups)[i] == names[i];
    assert [] + names == names;
  }

  /** It is ready to compile and run, without values for any name. */
  lemma StaysOnBaseIsReady(bundle: Bundle, scope: Scope, request: Request, parameters: map<string, Value>)
    requires StaysOnBase(bundle, scope, request)
    ensures Ready(bundle, scope, request, BoundOn(bundle, request), PlanOn(bundle, request), parameters)
  {
    hide BoundFrom, LoweredFrom, BundleWellFormed, CatalogPublished, CatalogColumnLeft, MetricUsable, DimensionOnBase, MetricColumns;
    StaysOnBaseIsAccepted(bundle, scope, request);
  }
}
