/**
  The validator accepts the compiler: of every accepted request whose plan compiles, the gates
  pass exactly when its scanned tables are certified, its measure is a plain aggregate or a
  ratio without NULLIF and without DISTINCT, its tenant keys may be used and its time column
  has a declared role. No other gate can fail.
*/
module ValidatorAcceptance {
  import opened Errors
  import opened Values
  import opened Expressions
  import opened Catalog
  import opened Ordering
  import opened SqlTree
  import SqlText
  import opened Quotients
  import opened Plans
  import opened Planner
  import opened JoinPlanning
  import opened Rules
  import RE = RuleEngine
  import opened SQ = SqlQuery
  import opened Emissions
  import opened CompilerMeaning
  import opened QueryMeaning
  import opened Lowering
  import opened FanOut
  import opened Binder
  import opened Scoping
  import opened EndToEnd
  import opened Validators
  import opened StatementTexts

  // -- tables and columns ---------------------------------------------------------------------

  lemma FindsItsTable(bundle: Bundle, t: TableId)
    requires PhysicalUnique(bundle) && t in bundle.tables
    ensures FindPhysical(bundle, bundle.tables[t].physical) == Some(t)
  {
  }

  /** The statement's table references are the plan's scans. */
  predicate RefsAre(refs: seq<TableRef>, scans: seq<Scan>) {
    |refs| == |scans| && forall i :: 0 <= i < |scans| ==> refs[i] == TableRef(scans[i].physical, scans[i].alias)
  }

  /** Each scan's alias is its position. */
  lemma {:induction false} AliasesRead(bundle: Bundle, ts: seq<TableId>, scans: seq<Scan>, refs: seq<TableRef>)
    requires PhysicalUnique(bundle) && RefsAre(refs, scans) && ScansOf(bundle, ts, scans)
    ensures forall a: Alias :: a in SqlAliases(bundle, refs) <==> a < |refs|
    ensures forall i :: 0 <= i < |refs| ==> SqlAliases(bundle, refs)[i] == ts[i]
  {
    if refs != [] {
      var n := |refs| - 1;
      forall i | 0 <= i < n
        ensures ScanOf(bundle, ts[..n], scans[..n][i], i) && refs[..n][i] == TableRef(scans[..n][i].physical, scans[..n][i].alias)
      {
        assert ScanOf(bundle, ts, scans[i], i);
      }
      AliasesRead(bundle, ts[..n], scans[..n], refs[..n]);
      assert ScanOf(bundle, ts, scans[n], n);
      FindsItsTable(bundle, ts[n]);
      var before := SqlAliases(bundle, refs[..n]);
      assert |refs[..n]| == n && refs[n].alias == n;
      assert SqlAliases(bundle, refs) == before[n := ts[n]];
      forall a: Alias
        ensures a in SqlAliases(bundle, refs) <==> a < |refs|
      {
        assert a in before <==> a < n;
      }
    }
  }

  lemma InverseAliases(bundle: Bundle, env: Env, plan: LogicalPlan, ts: seq<TableId>, refs: seq<TableRef>)
    requires PhysicalUnique(bundle) && RefsAre(refs, Scans(plan)) && ScansOf(bundle, ts, Scans(plan)) && PlanScanned(env, plan)
    ensures var aliases := SqlAliases(bundle, refs);
            forall t :: t in env.aliasOf ==> env.aliasOf[t] in aliases && aliases[env.aliasOf[t]] == t
  {
    AliasesRead(bundle, ts, Scans(plan), refs);
    AliasMapOf(Scans(plan));
    forall t | t in env.aliasOf
      ensures env.aliasOf[t] in SqlAliases(bundle, refs) && SqlAliases(bundle, refs)[env.aliasOf[t]] == t
    {
      var i :| 0 <= i < |Scans(plan)| && Scans(plan)[i].table == t;
      assert ScanOf(bundle, ts, Scans(plan)[i], i);
    }
  }

  lemma RefsOfStatement(s: Select, plan: LogicalPlan)
    requires s.from == TableRef(plan.base.physical, plan.base.alias) && |s.joins| == |plan.joins|
    requires forall i :: 0 <= i < |plan.joins| ==> s.joins[i].table == TableRef(plan.joins[i].right.physical, plan.joins[i].right.alias)
    ensures RefsAre(Refs(s), Scans(plan))
  {
  }

  predicate AllCertified(bundle: Bundle, plan: LogicalPlan) {
    forall t :: t in ScannedTables(plan) ==> t in bundle.tables && bundle.tables[t].certified
  }

  lemma TablesPass(bundle: Bundle, plan: LogicalPlan, ts: seq<TableId>, q: CompiledQuery, refs: seq<TableRef>)
    requires PhysicalUnique(bundle) && RefsAre(refs, Scans(plan)) && ScansOf(bundle, ts, Scans(plan))
    requires ScannedTables(plan) <= q.referencedTables
    ensures (forall ref :: ref in refs ==> TableDeclared(bundle, q, ref)) <==> AllCertified(bundle, plan)
  {
    var scans := Scans(plan);
    forall i | 0 <= i < |scans|
      ensures TableDeclared(bundle, q, refs[i]) <==> bundle.tables[ts[i]].certified
      ensures ScanOf(bundle, ts, scans[i], i) && ts[i] in ScannedTables(plan) && ts[i] in bundle.tables
    {
      assert ScanOf(bundle, ts, scans[i], i);
      FindsItsTable(bundle, ts[i]);
      assert scans[i].table in ScannedTables(plan);
    }
    if forall ref :: ref in refs ==> TableDeclared(bundle, q, ref) {
      forall t | t in ScannedTables(plan)
        ensures t in bundle.tables && bundle.tables[t].certified
      {
        var i :| 0 <= i < |scans| && scans[i].table == t;
        assert ScanOf(bundle, ts, scans[i], i) && refs[i] in refs;
      }
    }
    if AllCertified(bundle, plan) {
      forall ref | ref in refs
        ensures TableDeclared(bundle, q, ref)
      {
        var i :| 0 <= i < |refs| && refs[i] == ref;
        assert ScanOf(bundle, ts, scans[i], i);
      }
    }
  }

  // -- joins --------------------------------------------------------------------------------------

  lemma RefDetermines(rels: seq<Relationship>, a: Relationship, b: Relationship)
    requires DistinctRefs(rels) && a in rels && b in rels && a.ref == b.ref
    ensures a == b
  {
    var x :| 0 <= x < |rels| && rels[x] == a;
    var y :| 0 <= y < |rels| && rels[y] == b;
    assert x == y;
  }

  /** The relationship of a planned join is found, permitted and has as many predicates as the lowered join. */
  lemma JoinPasses(bundle: Bundle, scope: Scope, s: Search, visited: set<TableId>, planned: PlannedJoin, join: Join)
    requires BundleWellFormed(bundle) && s.bundle == bundle && s.scope == scope && Step(s, visited, planned)
    requires Lowered(planned, join) && join.relationship == planned.relationship.ref
    ensures GetRelationship(bundle, join.relationship, scope) == Ok(planned.relationship)
    ensures |join.predicates| == |planned.relationship.predicates| && forall p :: p in join.predicates ==> OneConjunct(p)
  {
    hide Preserves, LowerJoinPredicates;
    FoundRelationship(bundle.relationships, planned.relationship.ref);
    var found := FindRelationship(bundle.relationships, planned.relationship.ref);
    RefDetermines(bundle.relationships, found.value, planned.relationship);
    LoweredLength(planned.relationship.predicates);
    LoweredAreOneConjunct(planned.relationship.predicates);
  }

  lemma LoweredLength(ps: seq<JoinPredicate>)
    ensures LowerJoinPredicates(ps).Ok? ==> |LowerJoinPredicates(ps).value| == |ps|
  {
  }

  /** What the join gates need of every join, from a plan's lowering. */
  predicate JoinKept(planned: PlannedJoin, join: Join) {
    Lowered(planned, join) && join.relationship == planned.relationship.ref && join.preservesLeft == planned.preserves
  }

  lemma JoinsKept(bundle: Bundle, scope: Scope, r: BindResult, plan: LogicalPlan)
    requires LowerPlan(bundle, scope, r.plan, r.joins) == Ok(plan) && BundleWellFormed(bundle)
    ensures |plan.joins| == |r.joins.joins|
    ensures forall i :: 0 <= i < |plan.joins| ==> JoinKept(r.joins.joins[i], plan.joins[i])
    ensures forall i :: 0 <= i < |plan.joins| ==> (Discover, TableResource(r.joins.joins[i].to)) in scope.allowed
    ensures (Discover, TableResource(r.joins.base)) in scope.allowed
  {
    hide LowerPlan, LowerJoins, LowerJoin, AssignAliases, BundleWellFormed, JoinKept;
    var aliases := AssignAliases(PlannedTables(r.joins));
    LoweredJoinList(bundle, scope, r.plan, r.joins, plan);
    BaseIsDiscoverable(bundle, scope, r, plan);
    forall i | 0 <= i < |plan.joins|
      ensures JoinKept(r.joins.joins[i], plan.joins[i]) && (Discover, TableResource(r.joins.joins[i].to)) in scope.allowed
    {
      assert LowerJoin(bundle, scope, aliases, r.joins.joins[i]) == Ok(plan.joins[i]);
      LoweredJoinIsKept(bundle, scope, aliases, r.joins.joins[i], plan.joins[i]);
    }
  }

  lemma BaseIsDiscoverable(bundle: Bundle, scope: Scope, r: BindResult, plan: LogicalPlan)
    requires LowerPlan(bundle, scope, r.plan, r.joins) == Ok(plan)
    ensures (Discover, TableResource(r.joins.base)) in scope.allowed
  {
    hide WhereOf, GroupsOf, MeasuresOf, BucketOf, TenantConditions, LowerJoins, AssignAliases;
  }

  lemma LoweredJoinIsKept(bundle: Bundle, scope: Scope, aliases: map<TableId, Alias>, planned: PlannedJoin, join: Join)
    requires BundleWellFormed(bundle) && LowerJoin(bundle, scope, aliases, planned) == Ok(join)
    ensures JoinKept(planned, join) && (Discover, TableResource(planned.to)) in scope.allowed
  {
    hide LowerJoinPredicates;
  }

  /** The three join gates pass on every accepted plan. */
  lemma JoinGatesPass(bundle: Bundle, scope: Scope, r: BindResult, plan: LogicalPlan, search: Search, env: Env, s: Select)
    requires BundleWellFormed(bundle) && search.bundle == bundle && search.scope == scope
    requires Tree(search, r.joins.joins) && r.joins.IsAdditiveSafe()
    requires |plan.joins| == |r.joins.joins| == |s.joins|
    requires forall i :: 0 <= i < |plan.joins| ==> JoinKept(r.joins.joins[i], plan.joins[i])
    requires JoinsHavePredicates(plan.joins)
    requires forall i :: 0 <= i < |plan.joins| ==>
               EmitAll(env, plan.joins[i].predicates).Ok? &&
               s.joins[i].on == SqlText.Regroup(EmitAll(env, plan.joins[i].predicates).value.tree)
    ensures forall j :: j in plan.joins ==> JoinApproved(bundle, scope, j) && j.preservesLeft
    ensures forall i :: 0 <= i < |s.joins| ==> OnComplete(bundle, scope, plan.joins[i], s.joins[i].on)
  {
    hide BundleWellFormed, Step, EmitAll, Lowered, GetRelationship;
    forall i | 0 <= i < |plan.joins|
      ensures JoinApproved(bundle, scope, plan.joins[i]) && plan.joins[i].preservesLeft
      ensures OnComplete(bundle, scope, plan.joins[i], s.joins[i].on)
    {
      var planned := r.joins.joins[i];
      assert planned in r.joins.joins && plan.joins[i] in plan.joins;
      assert Step(search, Visited(search.base, r.joins.joins[..i]), planned);
      assert JoinKept(planned, plan.joins[i]);
      JoinPasses(bundle, scope, search, Visited(search.base, r.joins.joins[..i]), planned, plan.joins[i]);
      OnConjuncts(env, plan.joins[i].predicates);
    }
  }

  // -- obligations -----------------------------------------------------------------------------------

  lemma {:induction false} ObligedIsPlaced(os: seq<RE.Obligation>, o: RE.Obligation)
    requires o in os && o.demand.condition.Some?
    ensures o.demand.condition.value in ObligedAt(os, o.demand.placement)
  {
    if o != os[0] {
      ObligedIsPlaced(os[1..], o);
    }
  }

  lemma {:induction false} ColumnsOfMember(ps: seq<Predicate>, p: Predicate)
    requires p in ps
    ensures ColumnsIn(p) <= ColumnsInAll(ps)
  {
    if p != ps[0] {
      ColumnsOfMember(ps[1..], p);
    }
  }

  lemma WhereHolds(plan: BoundPlan, tenant: seq<Predicate>, p: Predicate)
    ensures p in ObligedAt(plan.obligations, BeforeAggregation) ==> p in WhereOf(plan, tenant)
    ensures p in tenant ==> p in WhereOf(plan, tenant)
  {
  }

  lemma TenantColumnIn(key: ColumnId)
    ensures ColumnsIn(TenantCondition(key)) == {key}
  {
  }

  lemma KeyIsTenantKey(bundle: Bundle, t: TableId)
    requires BundleWellFormed(bundle) && t in TenantKeysOf(bundle)
    ensures TenantKeysOf(bundle)[t].table == t && IsTenantKey(bundle, TenantKeysOf(bundle)[t])
  {
    assert TenantKeyWellFormed(bundle, bundle.tables[t]);
  }

  /** Lowering puts every obligation where the obligation gates look for it. */
  lemma ObligationsPass(bundle: Bundle, scope: Scope, r: BindResult, plan: LogicalPlan, o: RE.Obligation)
    requires BundleWellFormed(bundle) && LowerPlan(bundle, scope, r.plan, r.joins) == Ok(plan)
    requires ScansOf(bundle, PlannedTables(r.joins), Scans(plan)) && o in r.plan.obligations
    ensures ObligationShown(bundle, o, ScannedTables(plan), ColumnsInAll(plan.where), ColumnsInAll(plan.having))
  {
    hide LowerPlan, BundleWellFormed, TenantCondition, TenantConditions, ColumnsIn, ColumnsInAll, WhereOf, ObligedAt;
    LoweredParts(bundle, scope, r, plan);
    if o.demand.condition.Some? {
      var p := o.demand.condition.value;
      ObligedIsPlaced(r.plan.obligations, o);
      if o.demand.placement.BeforeAggregation? {
        var tenant :| plan.where == WhereOf(r.plan, tenant);
        WhereHolds(r.plan, tenant, p);
        ColumnsOfMember(plan.where, p);
      } else {
        ColumnsOfMember(plan.having, p);
      }
    } else if TENANT_RULE <= o.rule {
      assert NeedsTenant(r.plan.obligations);
      LoweredTenant(bundle, scope, r, plan);
      forall t | t in ScannedTables(plan)
        ensures t in bundle.tables
        ensures TENANT_TAG in bundle.tables[t].tags ==> exists c :: c in ColumnsInAll(plan.where) && c.table == t && IsTenantKey(bundle, c)
      {
        var i :| 0 <= i < |Scans(plan)| && Scans(plan)[i].table == t;
        assert ScanOf(bundle, PlannedTables(r.joins), Scans(plan)[i], i);
        if TENANT_TAG in bundle.tables[t].tags {
          KeyOrRefusal(bundle, PlannedTables(r.joins), t);
          ConditionPerTable(bundle, PlannedTables(r.joins), t);
          var key := TenantKeysOf(bundle)[t];
          ColumnsOfMember(plan.where, TenantCondition(key));
          TenantColumnIn(key);
          KeyIsTenantKey(bundle, t);
          assert key in ColumnsInAll(plan.where);
        }
      }
    }
  }

  // -- grain and output ---------------------------------------------------------------------------------

  lemma {:induction false} DimensionGroupNames(ds: seq<BoundDimension>)
    ensures AliasesOf(DimensionGroups(ds)) == DimensionOutputs(ds) == ColumnAliases(DimensionGroups(ds))
  {
    if ds != [] {
      DimensionGroupNames(ds[1..]);
      assert DimensionGroups(ds)[1..] == DimensionGroups(ds[1..]);
    }
  }

  lemma GroupNames(plan: BoundPlan)
    ensures var bucket, names := BucketOf(plan.time), DimensionOutputs(plan.dimensions);
            && AliasesOf(GroupsOf(plan)) == (if bucket.Some? then [bucket.value.alias] else []) + names
            && ColumnAliases(GroupsOf(plan)) == names
  {
    var dims, names := DimensionGroups(plan.dimensions), DimensionOutputs(plan.dimensions);
    DimensionGroupNames(plan.dimensions);
    var bucket := BucketOf(plan.time);
    if bucket.Some? {
      var head := (bucket.value.alias, None);
      var all := [head] + dims;
      assert all[1..] == dims && all[0] == head;
      assert AliasesOf(all) == [bucket.value.alias] + AliasesOf(dims);
      assert ColumnAliases(all) == [] + ColumnAliases(dims) == names;
    } else {
      assert [] + dims == dims && [] + names == names;
    }
  }

  /** The contract's grain is the grouping of the lowered plan, and its columns are the projected names. */
  lemma GrainIsGrouping(m: Metric, request: Request, closure: RE.ClosureResult, plan: BoundPlan)
    requires |request.metricIds| == 1 && PlanFor(m, request, closure, plan)
    ensures AliasesOf(GroupsOf(plan)) == plan.contract.grain
    ensures plan.contract.columns == (if BucketOf(plan.time).Some? then [BucketOf(plan.time).value.alias] else [])
                                     + ColumnAliases(GroupsOf(plan)) + [plan.metrics[0].alias]
  {
    hide GroupsOf, AliasesOf, ColumnAliases, DimensionOutputs, BoundMetricOf;
    GroupNames(plan);
  }

  lemma {:induction false} SortedByGrain(fields: seq<string>, k: SortKey)
    requires k in Ascending(fields)
    ensures k.field in fields
  {
    if k != Ascending(fields)[0] {
      SortedByGrain(fields[1..], k);
    }
  }

  lemma OrderNamesColumns(m: Metric, request: Request, closure: RE.ClosureResult, plan: BoundPlan)
    requires |request.metricIds| == 1 && PlanFor(m, request, closure, plan)
    ensures forall k :: k in plan.orderBy ==> k.field in plan.contract.columns
  {
    forall k | k in plan.orderBy
      ensures k.field in plan.contract.columns
    {
      if request.orderBy == [] {
        SortedByGrain(plan.contract.grain, k);
      }
    }
  }

  // -- authorization ----------------------------------------------------------------------------------------

  function ActionFor(m: Metric, c: ColumnId): Action {
    if c in MeasureColumns(m.expression) then ReadData else UseInPredicate
  }

  /** The keys of tenant conditions are the one kind of column that binding does not authorize. */
  predicate TenantKeysUsable(bundle: Bundle, scope: Scope, m: Metric, r: BindResult) {
    NeedsTenant(r.plan.obligations) && TenantConditions(bundle, PlannedTables(r.joins)).Ok? ==>
      forall c :: c in ColumnsInAll(TenantConditions(bundle, PlannedTables(r.joins)).value) ==>
        (ActionFor(m, c), ColumnResource(c)) in scope.allowed
  }

  lemma SweptIsAllowed(scope: Scope, m: Metric, seed: Seed, obligations: seq<RE.Obligation>, joins: seq<PlannedJoin>, c: ColumnId)
    requires Authorized(scope, m, seed, obligations, joins)
    requires c in seed.columns + ObligedColumns(obligations) + PlannedKeys(joins)
    ensures (ActionFor(m, c), ColumnResource(c)) in scope.allowed
  {
  }

  lemma {:induction false} OnColumnsArePlanned(js: seq<PlannedJoin>, joins: seq<Join>)
    requires AllLowered(js, joins)
    ensures OnColumns(joins) == PlannedKeys(js)
  {
    if js != [] {
      assert Lowered(js[0], joins[0]) && forall i :: 0 <= i < |js[1..]| ==> Lowered(js[1..][i], joins[1..][i]);
      LoweredColumns(js[0].relationship.predicates);
      OnColumnsArePlanned(js[1..], joins[1..]);
    }
  }

  /** Each column of the plan is swept by the binder or is a tenant key. */
  lemma SweptOrTenant(bundle: Bundle, scope: Scope, request: Request, r: BindResult, plan: LogicalPlan)
    requires BoundFrom(bundle, scope, request, r) && LoweredFrom(bundle, scope, r, plan) && AllLowered(r.joins.joins, plan.joins)
    ensures var m := bundle.metrics[request.metricIds[0]];
            var seed := SeedOf(m, r.plan.dimensions, r.plan.filters);
            var tenant := if NeedsTenant(r.plan.obligations) then ColumnsInAll(TenantConditions(bundle, PlannedTables(r.joins)).value) else {};
            && PlanColumns(plan) <= seed.columns + ObligedColumns(r.plan.obligations) + PlannedKeys(r.joins.joins) + tenant
            && tenant <= PlanColumns(plan)
  {
    hide ClosureFor, JoinsFor, Authorized, Understood, BundleWellFormed, CatalogPublished, SeedColumns, WhereOf, GroupsOf, MeasuresOf,
      BucketOf, TenantConditions, LowerPlan, NeedsTenant, OnColumns, PlannedKeys, MeasuredColumns, ObligedColumns, ColumnsInAll;
    UnderstoodMetric(bundle, scope, request, r.plan.dimensions, r.plan.filters);
    var id := request.metricIds[0];
    assert request.metricIds == [id];
    var m := bundle.metrics[id];
    LoweredParts(bundle, scope, r, plan);
    var tenant := if NeedsTenant(r.plan.obligations) then TenantConditions(bundle, PlannedTables(r.joins)).value else [];
    WhereColumns(m, id, request, r.closure, r.plan, tenant);
    OutputIsSeed(m, id, request, r.closure, r.plan, plan);
    OnColumnsArePlanned(r.joins.joins, plan.joins);
    NoColumnsInNothing();
    TenantColumnsInWhere(r.plan, tenant);
  }

  lemma NoColumnsInNothing()
    ensures ColumnsInAll([]) == {}
  {
  }

  lemma TenantColumnsInWhere(plan: BoundPlan, tenant: seq<Predicate>)
    ensures ColumnsInAll(tenant) <= ColumnsInAll(WhereOf(plan, tenant))
  {
    var time, pops, obliged := TimeConditions(plan.time), Populations(plan.metrics), ObligedAt(plan.obligations, BeforeAggregation);
    ColumnsConcat(tenant + time + pops + obliged, plan.filters);
    ColumnsConcat(tenant + time + pops, obliged);
    ColumnsConcat(tenant + time, pops);
    ColumnsConcat(tenant, time);
  }

  /** Every column reference is allowed exactly when the tenant keys are. */
  lemma ColumnsAllowed(bundle: Bundle, scope: Scope, request: Request, r: BindResult, plan: LogicalPlan)
    requires BoundFrom(bundle, scope, request, r) && LoweredFrom(bundle, scope, r, plan) && AllLowered(r.joins.joins, plan.joins)
    ensures var m := bundle.metrics[request.metricIds[0]];
            (forall c :: c in PlanColumns(plan) ==> (ActionFor(m, c), ColumnResource(c)) in scope.allowed) <==>
              TenantKeysUsable(bundle, scope, m, r)
  {
    hide ClosureFor, JoinsFor, Authorized, Understood, BundleWellFormed, CatalogPublished, SeedColumns, PlanFor, TenantConditions,
      NeedsTenant, PlannedKeys, ObligedColumns, ColumnsInAll, PlanColumns, ActionFor, LowerPlan;
    UnderstoodMetric(bundle, scope, request, r.plan.dimensions, r.plan.filters);
    SweptOrTenant(bundle, scope, request, r, plan);
    LoweredParts(bundle, scope, r, plan);
    SameObligations(bundle, scope, request, r);
    var m := bundle.metrics[request.metricIds[0]];
    var seed := SeedOf(m, r.plan.dimensions, r.plan.filters);
    forall c | c in seed.columns + ObligedColumns(r.plan.obligations) + PlannedKeys(r.joins.joins)
      ensures (ActionFor(m, c), ColumnResource(c)) in scope.allowed
    {
      SweptIsAllowed(scope, m, seed, r.plan.obligations, r.joins.joins, c);
    }
  }

  lemma SameObligations(bundle: Bundle, scope: Scope, request: Request, r: BindResult)
    requires BoundFrom(bundle, scope, request, r)
    ensures |request.metricIds| == 1 && request.metricIds[0] in bundle.metrics
    ensures var m := bundle.metrics[request.metricIds[0]];
            && r.plan.metricRefs == [m.ref] && r.plan.metrics == [BoundMetricOf(m, request.metricIds[0])]
            && PlanFor(m, request, r.closure, r.plan)
    ensures (ExecuteMetric, ObjectResource(request.metricIds[0])) in scope.allowed
  {
    hide ClosureFor, JoinsFor, Authorized;
  }

  lemma OneMetricColumns(m: BoundMetric)
    ensures MeasuredBy([m]) == MeasureColumns(m.expression)
  {
    assert [m][1..] == [];
    assert MeasuredBy([m][1..]) == {};
  }

  /** The column part of the authorization gate asks for what binding calls authorized. */
  lemma ColumnPart(scope: Scope, m: Metric, plan: BoundPlan, columns: set<ColumnId>)
    requires |plan.metrics| == 1 && plan.metrics[0].expression == m.expression
    ensures (forall c :: c in columns ==>
               (if c in MeasuredBy(plan.metrics) then ReadData else UseInPredicate, ColumnResource(c)) in scope.allowed)
       <==> (forall c :: c in columns ==> (ActionFor(m, c), ColumnResource(c)) in scope.allowed)
  {
    assert plan.metrics == [plan.metrics[0]];
    OneMetricColumns(plan.metrics[0]);
  }

  lemma ScansDiscoverable(bundle: Bundle, scope: Scope, r: BindResult, plan: LogicalPlan, t: TableId)
    requires LoweredFrom(bundle, scope, r, plan) && ScansOf(bundle, PlannedTables(r.joins), Scans(plan)) && t in ScannedTables(plan)
    ensures (Discover, TableResource(t)) in scope.allowed
  {
    hide LowerPlan, BundleWellFormed, CatalogPublished, JoinKept;
    JoinsKept(bundle, scope, r, plan);
    var i :| 0 <= i < |Scans(plan)| && Scans(plan)[i].table == t;
    assert ScanOf(bundle, PlannedTables(r.joins), Scans(plan)[i], i);
    if i > 0 {
      assert PlannedTables(r.joins)[i] == r.joins.joins[i - 1].to;
    }
  }

  lemma ReferencesPass(bundle: Bundle, scope: Scope, request: Request, r: BindResult, plan: LogicalPlan, e: Emission<Select>)
    requires BoundFrom(bundle, scope, request, r) && LoweredFrom(bundle, scope, r, plan) && AllLowered(r.joins.joins, plan.joins)
    requires ScansOf(bundle, PlannedTables(r.joins), Scans(plan)) && e.columns == PlanColumns(plan)
    requires forall c :: c in PlanColumns(plan) ==> c.table in ScannedTables(plan)
    requires IdOf(bundle.metrics[request.metricIds[0]].ref) == request.metricIds[0]
    ensures ReferencesAllowed(scope, CompiledFrom(plan, e), r.plan) <==>
              TenantKeysUsable(bundle, scope, bundle.metrics[request.metricIds[0]], r)
  {
    hide BoundFrom, LoweredFrom, PlanColumns, TenantKeysUsable, MeasureColumns, IdOf, ScansOf, AllLowered, ScannedTables, ActionFor,
      MeasuredBy, PlanFor;
    SameObligations(bundle, scope, request, r);
    ColumnsAllowed(bundle, scope, request, r, plan);
    var q, m := CompiledFrom(plan, e), bundle.metrics[request.metricIds[0]];
    ColumnPart(scope, m, r.plan, q.referencedColumns);
    forall t | t in q.referencedTables
      ensures (Discover, TableResource(t)) in scope.allowed
    {
      assert t in ScannedTables(plan);
      ScansDiscoverable(bundle, scope, r, plan, t);
    }
  }

  // -- aggregates -----------------------------------------------------------------------------------------------

  predicate RatioUnservable(m: Measure) {
    m.Ratio? && (AsksNull(m) || InnerDistinct(m))
  }

  lemma AggregatesPass(env: Env, s: Select, plan: BoundPlan, alias: string)
    requires |plan.metrics| == 1 && plan.metrics[0].alias == alias
    requires Named(env) && EmitMeasure(env, plan.metrics[0].expression).Ok?
    requires s.projections != []
    requires s.projections[|s.projections| - 1] == Projection(Measured(RegroupMeasure(EmitMeasure(env, plan.metrics[0].expression).value.tree)), alias)
    requires forall p :: p in s.projections[..|s.projections| - 1] ==> !p.expr.Measured?
    ensures (forall p :: p in s.projections ==> DistinctDeclared(plan, p)) <==>
              !(plan.metrics[0].expression.Ratio? && InnerDistinct(plan.metrics[0].expression))
  {
    hide DistinctDeclared, RegroupMeasure, EmitMeasure, InnerDistinct;
    var m, ps := plan.metrics[0], s.projections;
    var last := ps[|ps| - 1];
    OneDistinct(env, plan, last);
    PlainIsDeclared(plan);
    assert ps == ps[..|ps| - 1] + [last];
    assert last in ps && forall p :: p in ps <==> p in ps[..|ps| - 1] || p == last;
  }

  lemma PlainIsDeclared(plan: BoundPlan)
    ensures forall p: Projection :: !p.expr.Measured? ==> DistinctDeclared(plan, p)
  {
  }

  /** The measure counts distinct values only if its metric is declared to. */
  lemma OneDistinct(env: Env, plan: BoundPlan, last: Projection)
    requires |plan.metrics| == 1 && Named(env) && EmitMeasure(env, plan.metrics[0].expression).Ok?
    requires last == Projection(Measured(RegroupMeasure(EmitMeasure(env, plan.metrics[0].expression).value.tree)), plan.metrics[0].alias)
    ensures DistinctDeclared(plan, last) <==> !(plan.metrics[0].expression.Ratio? && InnerDistinct(plan.metrics[0].expression))
  {
    hide RegroupMeasure, MeasureText, MeasureNodes, Rendered, AsksNull, Named, EmitMeasure, HasDistinct;
    var m := plan.metrics[0];
    MeasureReads(env, m.expression);
    RegroupedMeasure(EmitMeasure(env, m.expression).value.tree);
    assert m in plan.metrics;
  }

  // -- the theorem -------------------------------------------------------------------------------------------------

  predicate TimeRoleDeclared(bundle: Bundle, plan: BoundPlan) {
    plan.time.Some? && plan.time.value.column in bundle.columns ==> bundle.columns[plan.time.value.column].hasTimeRole
  }

  predicate RangeOrdered(request: Request) {
    request.timeRange.Some? ==> request.timeRange.value.start < request.timeRange.value.endExclusive
  }

  /** What the gates read of an accepted request. */
  function InputsOf(bundle: Bundle, scope: Scope, r: BindResult, plan: LogicalPlan, parameters: map<string, Value>): Inputs
    requires Runnable(bundle, plan, scope, parameters)
  {
    var e := EmitSelect(EnvOf(bundle, plan, scope, parameters), plan).value;
    Inputs(Reparse(e.tree).value, CompiledFrom(plan, e), plan, r.plan)
  }

  lemma TimePasses(bundle: Bundle, scope: Scope, request: Request, r: BindResult)
    requires BoundFrom(bundle, scope, request, r) && RangeOrdered(request)
    ensures TimeDeclared(bundle, r.plan.time) <==> TimeRoleDeclared(bundle, r.plan)
  {
    hide ClosureFor, JoinsFor, Authorized;
  }

  lemma MetricsPass(bundle: Bundle, scope: Scope, request: Request, r: BindResult)
    requires BoundFrom(bundle, scope, request, r)
    requires IdOf(bundle.metrics[request.metricIds[0]].ref) == request.metricIds[0]
    ensures MetricsIntact(bundle, r.plan)
  {
    hide IdOf;
    SameObligations(bundle, scope, request, r);
  }

  /** The gates on the shape of the statement: nodes, placeholders, aggregates and grouping. */
  lemma ShapeGatesPass(bundle: Bundle, scope: Scope, request: Request, r: BindResult, plan: LogicalPlan, parameters: map<string, Value>)
    requires Ready(bundle, scope, request, r, plan, parameters)
    requires Runnable(bundle, plan, scope, parameters)
    ensures var x := InputsOf(bundle, scope, r, plan, parameters);
            var m := bundle.metrics[request.metricIds[0]].expression;
            && (StatementNodes(x.s) <= Allowed <==> !AsksNull(m))
            && StatementHoles(x.s) == |x.q.values|
            && ((forall p :: p in x.s.projections ==> DistinctDeclared(x.plan, p)) <==> !(m.Ratio? && InnerDistinct(m)))
            && Plainly(x.s.projections) == |x.s.group|
  {
    hide BoundFrom, LoweredFrom, AllSettled, EmitSelect, Reparse, StatementText, PlanColumns, Rendered, DistinctDeclared, EmitOutput,
      CatalogColumnLeft, PlanFor, ColumnsInAll, EmitMeasure, StatementNodes, AsksNull, InnerDistinct, StatementHoles, EmitAll;
    var env := EnvOf(bundle, plan, scope, parameters);
    ReadyIsLowered(bundle, scope, request, r, plan, parameters);
    NamesAreTheCatalogs(bundle, scope, r, plan, parameters);
    ReadyPlan(bundle, scope, request, r, plan, parameters);
    OutputNamesAreColumns(bundle, scope, request, r, plan);
    StatementReads(env, plan);
    OutputReads(env, plan);
    var x := InputsOf(bundle, scope, r, plan, parameters);
    LastProjection(EmitOutput(env, plan).value.tree.0);
    RegroupedProjections(EmitOutput(env, plan).value.tree.0);
    AggregatesPass(env, x.s, r.plan, plan.measures[0].0);
  }

  /** Grouping to the left leaves all but the measures as they are. */
  lemma LastProjection(ps: seq<Projection>)
    requires ps != [] && ps[|ps| - 1].expr.Measured? && forall p :: p in ps[..|ps| - 1] ==> !p.expr.Measured?
    ensures var rs, last := RegroupProjections(ps), ps[|ps| - 1];
            && |rs| == |ps| && rs[|rs| - 1] == Projection(Measured(RegroupMeasure(last.expr.m)), last.alias)
            && rs[..|rs| - 1] == ps[..|ps| - 1] && forall p :: p in rs[..|rs| - 1] ==> !p.expr.Measured?
  {
    var rs := RegroupProjections(ps);
    forall i | 0 <= i < |ps| - 1
      ensures rs[i] == ps[i]
    {
      assert ps[i] in ps[..|ps| - 1];
    }
  }

  /** The gates that read tables and columns off the text. */
  lemma TextGatesPass(bundle: Bundle, scope: Scope, request: Request, r: BindResult, plan: LogicalPlan, parameters: map<string, Value>)
    requires Ready(bundle, scope, request, r, plan, parameters) && PhysicalUnique(bundle)
    requires Runnable(bundle, plan, scope, parameters)
    requires ScansOf(bundle, PlannedTables(r.joins), Scans(plan)) && DistinctScans(Scans(plan))
    requires forall c :: c in PlanColumns(plan) ==> c.table in ScannedTables(plan) && c in bundle.columns
    ensures var x := InputsOf(bundle, scope, r, plan, parameters);
            var aliases := SqlAliases(bundle, Refs(x.s));
            && ((forall ref :: ref in Refs(x.s) ==> TableDeclared(bundle, x.q, ref)) <==> AllCertified(bundle, plan))
            && ColumnsDeclared(bundle, x.s, x.q)
            && Resolved(aliases, ClauseText(x.s.where)) == ColumnsInAll(plan.where)
            && Resolved(aliases, ClauseText(x.s.having)) == ColumnsInAll(plan.having)
  {
    hide BoundFrom, LoweredFrom, AllSettled, EmitSelect, Reparse, StatementText, PlanColumns, Rendered, Resolved, DistinctScans,
      ScansOf, SqlAliases, TableDeclared, AllCertified, EmitOutput, CatalogColumnLeft, ColumnsInAll, EmitMeasure, StatementNodes,
      AsksNull, StatementHoles, EmitAll, ClauseText, RefsAre, PhysicalUnique, AllColumnLeft, AllLowered, OutputNames;
    var env := EnvOf(bundle, plan, scope, parameters);
    ReadyIsLowered(bundle, scope, request, r, plan, parameters);
    NamesAreTheCatalogs(bundle, scope, r, plan, parameters);
    ReadyPlan(bundle, scope, request, r, plan, parameters);
    StatementReads(env, plan);
    var x := InputsOf(bundle, scope, r, plan, parameters);
    RefsOfStatement(x.s, plan);
    TextResolves(bundle, env, plan, PlannedTables(r.joins), x.s);
    TablesPass(bundle, plan, PlannedTables(r.joins), x.q, Refs(x.s));
    SortKeysProjected(bundle, scope, request, r, plan, env, x.s);
  }

  /** Read through the aliases of the text, its columns are the plan's. */
  lemma TextResolves(bundle: Bundle, env: Env, plan: LogicalPlan, ts: seq<TableId>, s: Select)
    requires PhysicalUnique(bundle) && RefsAre(Refs(s), Scans(plan)) && ScansOf(bundle, ts, Scans(plan)) && PlanScanned(env, plan)
    requires forall c :: c in PlanColumns(plan) ==> c.table in ScannedTables(plan)
    requires StatementText(s) == Rendered(env, PlanColumns(plan))
    requires ClauseText(s.where) == Rendered(env, ColumnsInAll(plan.where))
    requires ClauseText(s.having) == Rendered(env, ColumnsInAll(plan.having))
    ensures var aliases := SqlAliases(bundle, Refs(s));
            && Resolved(aliases, StatementText(s)) == PlanColumns(plan)
            && Resolved(aliases, ClauseText(s.where)) == ColumnsInAll(plan.where)
            && Resolved(aliases, ClauseText(s.having)) == ColumnsInAll(plan.having)
  {
    hide StatementText, PlanColumns, Rendered, Resolved, DistinctScans, ScansOf, SqlAliases, ColumnsInAll, ClauseText, RefsAre,
      PhysicalUnique, AliasMap, Aliased;
    PlanScansAreAliased(env, plan);
    InverseAliases(bundle, env, plan, ts, Refs(s));
    var aliases := SqlAliases(bundle, Refs(s));
    ClausesArePlanColumns(plan);
    RenderedResolves(env, aliases, PlanColumns(plan));
    RenderedResolves(env, aliases, ColumnsInAll(plan.where));
    RenderedResolves(env, aliases, ColumnsInAll(plan.having));
  }

  lemma SortKeysProjected(bundle: Bundle, scope: Scope, request: Request, r: BindResult, plan: LogicalPlan, env: Env, s: Select)
    requires BoundFrom(bundle, scope, request, r) && LoweredFrom(bundle, scope, r, plan)
    requires Named(env) && EmitOutput(env, plan).Ok? && s.projections == RegroupProjections(EmitOutput(env, plan).value.tree.0)
    requires s.order == plan.orderBy
    ensures forall k :: k in s.order ==> k.field in OutputNames(s.projections)
  {
    hide BoundFrom, LoweredFrom, EmitOutput, Rendered, EmitMeasure, Named;
    OutputNamesAreColumns(bundle, scope, request, r, plan);
    OutputReads(env, plan);
    RegroupedProjections(EmitOutput(env, plan).value.tree.0);
  }

  lemma ClausesArePlanColumns(plan: LogicalPlan)
    ensures ColumnsInAll(plan.where) <= PlanColumns(plan) && ColumnsInAll(plan.having) <= PlanColumns(plan)
  {
  }

  /** The contract's columns are the names the statement projects, and the sort keys are among them. */
  lemma OutputNamesAreColumns(bundle: Bundle, scope: Scope, request: Request, r: BindResult, plan: LogicalPlan)
    requires BoundFrom(bundle, scope, request, r) && LoweredFrom(bundle, scope, r, plan)
    ensures |plan.measures| == 1 && |r.plan.metrics| == 1
    ensures r.plan.contract.columns == (if plan.timeBucket.Some? then [plan.timeBucket.value.alias] else [])
                                       + ColumnAliases(plan.groupBy) + [plan.measures[0].0]
    ensures plan.measures[0] == (r.plan.metrics[0].alias, r.plan.metrics[0].expression)
    ensures r.plan.metrics[0].expression == bundle.metrics[request.metricIds[0]].expression
    ensures forall k :: k in plan.orderBy ==> k.field in r.plan.contract.columns
    ensures plan.outputGrain == r.plan.contract.grain
  {
    hide BoundFrom, LowerPlan, BundleWellFormed, CatalogPublished, PlanFor, GroupsOf, BucketOf, WhereOf, ObligedAt, ContractOf, BoundTimeOf;
    SameObligations(bundle, scope, request, r);
    LoweredParts(bundle, scope, r, plan);
    var m := bundle.metrics[request.metricIds[0]];
    GrainIsGrouping(m, request, r.closure, r.plan);
    OrderNamesColumns(m, request, r.closure, r.plan);
  }

  /** The gates on joins, obligations and the bound plan. */
  lemma PlanGatesPass(bundle: Bundle, scope: Scope, request: Request, r: BindResult, plan: LogicalPlan, parameters: map<string, Value>)
    requires Ready(bundle, scope, request, r, plan, parameters)
    requires Runnable(bundle, plan, scope, parameters)
    requires ScansOf(bundle, PlannedTables(r.joins), Scans(plan))
    ensures var x := InputsOf(bundle, scope, r, plan, parameters);
            && (forall j :: j in plan.joins ==> JoinApproved(bundle, scope, j) && j.preservesLeft)
            && |x.s.joins| == |plan.joins|
            && (forall i :: 0 <= i < |x.s.joins| ==> OnComplete(bundle, scope, plan.joins[i], x.s.joins[i].on))
            && (forall o :: o in r.plan.obligations ==>
                  ObligationShown(bundle, o, ScannedTables(plan), ColumnsInAll(plan.where), ColumnsInAll(plan.having)))
            && Elements(r.plan.contract.grain) == Elements(plan.outputGrain)
  {
    hide BoundFrom, AllSettled, EmitSelect, Reparse, PlanColumns, ScansOf, CatalogColumnLeft, LowerPlan, BundleWellFormed,
      CatalogPublished, JoinApproved, OnComplete, ObligationShown, Tree, JoinKept, AllLowered, EmitAll;
    var env := EnvOf(bundle, plan, scope, parameters);
    ReadyIsLowered(bundle, scope, request, r, plan, parameters);
    NamesAreTheCatalogs(bundle, scope, r, plan, parameters);
    ReadyPlan(bundle, scope, request, r, plan, parameters);
    OutputNamesAreColumns(bundle, scope, request, r, plan);
    StatementReads(env, plan);
    var x := InputsOf(bundle, scope, r, plan, parameters);
    var search := ScopedTree(bundle, scope, request, r);
    JoinsKept(bundle, scope, r, plan);
    JoinGatesPass(bundle, scope, r, plan, search, env, x.s);
    forall o | o in r.plan.obligations
      ensures ObligationShown(bundle, o, ScannedTables(plan), ColumnsInAll(plan.where), ColumnsInAll(plan.having))
    {
      ObligationsPass(bundle, scope, r, plan, o);
    }
  }

  lemma ScopedTree(bundle: Bundle, scope: Scope, request: Request, r: BindResult) returns (s: Search)
    requires BoundFrom(bundle, scope, request, r)
    ensures s.bundle == bundle && s.scope == scope && Tree(s, r.joins.joins) && r.joins.IsAdditiveSafe()
  {
    var m := bundle.metrics[request.metricIds[0]];
    s := SearchFor(bundle, scope, m.baseTable, r.closure.reached.tables, true);
  }

  /** The gate on references asks exactly that the tenant keys be usable. */
  lemma ReferenceGatePasses(bundle: Bundle, scope: Scope, request: Request, r: BindResult, plan: LogicalPlan, parameters: map<string, Value>)
    requires Ready(bundle, scope, request, r, plan, parameters) && Runnable(bundle, plan, scope, parameters)
    requires ScansOf(bundle, PlannedTables(r.joins), Scans(plan))
    requires forall c :: c in PlanColumns(plan) ==> c.table in ScannedTables(plan)
    requires request.metricIds != [] && request.metricIds[0] in bundle.metrics
    requires IdOf(bundle.metrics[request.metricIds[0]].ref) == request.metricIds[0]
    ensures ReferencesAllowed(scope, InputsOf(bundle, scope, r, plan, parameters).q, r.plan) <==>
              TenantKeysUsable(bundle, scope, bundle.metrics[request.metricIds[0]], r)
  {
    hide Ready, BoundFrom, LoweredFrom, EmitSelect, Reparse, PlanColumns, ScannedTables, ScansOf, AllLowered, IdOf, TenantKeysUsable,
      ReferencesAllowed, StatementText, StatementNodes, StatementHoles, AllColumnLeft, ColumnsInAll;
    ReadyIsLowered(bundle, scope, request, r, plan, parameters);
    ReadyPlan(bundle, scope, request, r, plan, parameters);
    NamesAreTheCatalogs(bundle, scope, r, plan, parameters);
    StatementReads(EnvOf(bundle, plan, scope, parameters), plan);
    ReferencesPass(bundle, scope, request, r, plan, EmitSelect(EnvOf(bundle, plan, scope, parameters), plan).value);
  }

  lemma ScansOfAccepted(bundle: Bundle, scope: Scope, request: Request, r: BindResult, plan: LogicalPlan)
    requires BoundFrom(bundle, scope, request, r) && LoweredFrom(bundle, scope, r, plan)
    ensures ScansOf(bundle, PlannedTables(r.joins), Scans(plan)) && DistinctScans(Scans(plan))
    ensures forall c :: c in PlanColumns(plan) ==> c.table in ScannedTables(plan) && c in bundle.columns
  {
    hide BoundFrom, LowerPlan, BundleWellFormed, CatalogPublished, PlanColumns, ScansOf, DistinctScans, NoDuplicates, AllLowered, Tree;
    var s := JoinTree(bundle, scope, request, r);
    PlannedAreDistinct(s, r.joins);
    LoweredJoins(bundle, scope, r.plan, r.joins, plan);
    ScopingIsClosed(bundle, scope, request, r, plan);
  }

  /**
    The validator's verdict on everything the compiler produces. A ratio that answers NULL on a
    zero denominator never passes, because NULLIF is not an allowed node; nor does a ratio over
    DISTINCT. Tenant keys are authorized here and nowhere before.
  */
  lemma ValidatorAcceptsTheCompiler(bundle: Bundle, scope: Scope, request: Request, r: BindResult, plan: LogicalPlan,
                                    parameters: map<string, Value>)
    requires Ready(bundle, scope, request, r, plan, parameters) && RangeOrdered(request)
    requires request.metricIds != [] && request.metricIds[0] in bundle.metrics
    requires IdOf(bundle.metrics[request.metricIds[0]].ref) == request.metricIds[0]
    ensures PhysicalUnique(bundle)
    ensures Runnable(bundle, plan, scope, parameters)
    ensures var m := bundle.metrics[request.metricIds[0]];
            Accepts(bundle, scope, InputsOf(bundle, scope, r, plan, parameters)) <==>
              && AllCertified(bundle, plan) && !RatioUnservable(m.expression)
              && TenantKeysUsable(bundle, scope, m, r) && TimeRoleDeclared(bundle, r.plan)
  {
    hide BoundFrom, AllSettled, EmitSelect, Reparse, PlanColumns, CatalogColumnLeft, LowerPlan, BundleWellFormed, AllCertified, Tree,
      CatalogPublished, JoinApproved, OnComplete, ObligationShown, AllLowered, TableDeclared, ColumnsDeclared, DistinctDeclared,
      ReferencesAllowed, MetricsIntact, TimeDeclared, TimeRoleDeclared, TenantKeysUsable, StatementNodes, SqlAliases, Resolved,
      ScansOf, InnerDistinct, IdOf, Additive, DistinctScans, StatementHoles, RangeOrdered, PhysicalUnique, ColumnsInAll, Ready;
    ReadyIsRunnable(bundle, scope, request, r, plan, parameters);
    ReadyIsLowered(bundle, scope, request, r, plan, parameters);
    NamesAreUnique(bundle);
    ScansOfAccepted(bundle, scope, request, r, plan);
    ShapeGatesPass(bundle, scope, request, r, plan, parameters);
    TextGatesPass(bundle, scope, request, r, plan, parameters);
    PlanGatesPass(bundle, scope, request, r, plan, parameters);
    ReferenceGatePasses(bundle, scope, request, r, plan, parameters);
    MetricsPass(bundle, scope, request, r);
    TimePasses(bundle, scope, request, r);
  }
}
